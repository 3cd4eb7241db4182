/** The runtime's idempotency keys: bound to a payment identifier, or derived from the fields of
    the attempt (src/adapters/x402-payment/action-proposal.ts). */
module RuntimeIdempotency {
  import opened JsText
  import opened JsonValues
  import opened Digests
  import opened X402Evidence
  import opened X402Payment
  import opened X402PipelineProofs
  import opened McpIdempotency
  import RuntimeKeyNames

  function ScopeKeys(): seq<JsString> {
    [Js("paymentIdentifierDigest"), Js("idempotencyScope")]
  }

  function ScopeValues(identifierDigest: JsString): seq<Json> {
    [Str(identifierDigest), Str(Js("x402_payment_identifier"))]
  }

  lemma ScopeKeysDistinct()
    ensures Distinct(ScopeKeys())
  {
    assert |Js("paymentIdentifierDigest")| == 23 && |Js("idempotencyScope")| == 16;
  }

  /** The object digested for an attempt with a payment identifier. */
  function ScopeMaterial(identifierDigest: JsString): (v: Json)
    ensures Canonicalizable(v)
  {
    ScopeKeysDistinct();
    RecordIsCanonicalizable(ScopeKeys(), ScopeValues(identifierDigest));
    Record(ScopeKeys(), ScopeValues(identifierDigest))
  }

  // ------------------------------------------------- the attempt's own fields

  /** What a derived key depends on: the attempt, the runtime's configuration, and the JSON object
      that holds `sdkPackageVersions`, whose entries have an order. */
  datatype Keyed = Keyed(config: RuntimeConfig, attempt: Attempt, versions: JsonValue)

  /** An object that holds just the entries of a map, in some order. */
  predicate Lists(v: Json, m: map<JsString, JsString>) {
    && v.Obj? && Elements(Keys(v.fields)) == m.Keys
    && forall i :: 0 <= i < |v.fields| ==> v.fields[i].key in m && v.fields[i].value == Str(m[v.fields[i].key])
  }

  predicate Holds(k: Keyed) {
    Lists(k.versions, k.attempt.sdkPackageVersions)
  }

  function ProfileText(p: EvidenceProfile): JsString {
    match p
    case OfficialPaymentRequired => Js("official_payment_required")
    case LocalDigestProfile => Js("local_digest_profile")
  }

  // The values of the digested object, in source order, seven at a time.

  function Values0(runId: JsString, a: Attempt): seq<Json> {
    [Str(runId), Str(a.endpointUrl), NullableStr(a.intendedHttpMethod), NullableStr(a.intendedRequestUrl),
     Str(BodyPostureText(a.bodyPosture)), NullableStr(a.bodyDigest), NullableStr(a.selectedHeadersDigest)]
  }

  function Values1(a: Attempt): seq<Json> {
    [Str(EnvironmentText(a.environmentPosture)), NullableStr(a.environmentRef), NullableNumber(a.x402Version),
     NullableStr(a.x402Scheme), Str(a.payee), NullableStr(a.payTo), Str(a.network)]
  }

  function Values2(a: Attempt): seq<Json> {
    [Str(a.token), NullableStr(a.asset), Str(a.atomicAmount), Str(ProfileText(a.evidenceProfile)),
     Str(a.paymentRequirementsDigest), NullableNumber(a.selectedIndex), NullableStr(a.selectedDigest)]
  }

  function Values3(k: Keyed): seq<Json> {
    [NullableNumber(k.attempt.maxTimeoutSeconds), k.versions, StrList(k.attempt.extensionKeys),
     Str(k.config.gatewayCredentialRefDigest), Str(k.config.gatewayReadinessDigest),
     Str(k.config.policyVersionDigest), Number(k.attempt.sequenceNumber)]
  }

  function Values(k: Keyed): (vs: seq<Json>)
    ensures |vs| == 28
  {
    Values0(k.config.runId, k.attempt) + Values1(k.attempt) + (Values2(k.attempt) + Values3(k))
  }

  predicate AllCanonicalizable(vs: seq<Json>) {
    forall i :: 0 <= i < |vs| ==> Canonicalizable(vs[i])
  }

  lemma BothCanonicalize(vs: seq<Json>, ws: seq<Json>)
    requires AllCanonicalizable(vs) && AllCanonicalizable(ws)
    ensures AllCanonicalizable(vs + ws)
  {
  }

  lemma FirstCanonicalize(runId: JsString, a: Attempt)
    ensures AllCanonicalizable(Values0(runId, a)) && AllCanonicalizable(Values1(a))
  {
  }

  lemma LastCanonicalize(k: Keyed)
    ensures AllCanonicalizable(Values2(k.attempt)) && AllCanonicalizable(Values3(k))
  {
  }

  lemma ValuesCanonicalize(k: Keyed)
    ensures AllCanonicalizable(Values(k))
  {
    FirstCanonicalize(k.config.runId, k.attempt);
    LastCanonicalize(k);
    BothCanonicalize(Values0(k.config.runId, k.attempt), Values1(k.attempt));
    BothCanonicalize(Values2(k.attempt), Values3(k));
    BothCanonicalize(Values0(k.config.runId, k.attempt) + Values1(k.attempt), Values2(k.attempt) + Values3(k));
  }

  /** The object digested for an attempt without a payment identifier. */
  function Material(k: Keyed): (v: Json)
    ensures Canonicalizable(v)
  {
    RuntimeKeyNames.KeysDistinct();
    ValuesCanonicalize(k);
    RecordIsCanonicalizable(RuntimeKeyNames.KEYS, Values(k));
    Record(RuntimeKeyNames.KEYS, Values(k))
  }

  /** Agreement on everything a derived key is meant to depend on. */
  predicate KeyedAlike(k: Keyed, l: Keyed) {
    && Agree0(k, l) && Agree1(k.attempt, l.attempt) && Agree2(k.attempt, l.attempt) && Agree3(k, l)
  }

  predicate Agree0(k: Keyed, l: Keyed) {
    var a, b := k.attempt, l.attempt;
    && k.config.runId == l.config.runId && a.endpointUrl == b.endpointUrl
    && a.intendedHttpMethod == b.intendedHttpMethod && a.intendedRequestUrl == b.intendedRequestUrl
    && a.bodyPosture == b.bodyPosture && a.bodyDigest == b.bodyDigest
    && a.selectedHeadersDigest == b.selectedHeadersDigest
  }

  predicate Agree1(a: Attempt, b: Attempt) {
    && a.environmentPosture == b.environmentPosture && a.environmentRef == b.environmentRef
    && a.x402Version == b.x402Version && a.x402Scheme == b.x402Scheme && a.payee == b.payee
    && a.payTo == b.payTo && a.network == b.network
  }

  predicate Agree2(a: Attempt, b: Attempt) {
    && a.token == b.token && a.asset == b.asset && a.atomicAmount == b.atomicAmount
    && a.evidenceProfile == b.evidenceProfile && a.paymentRequirementsDigest == b.paymentRequirementsDigest
    && a.selectedIndex == b.selectedIndex && a.selectedDigest == b.selectedDigest
  }

  predicate Agree3(k: Keyed, l: Keyed) {
    var a, b := k.attempt, l.attempt;
    && a.maxTimeoutSeconds == b.maxTimeoutSeconds && a.sdkPackageVersions == b.sdkPackageVersions
    && a.extensionKeys == b.extensionKeys
    && k.config.gatewayCredentialRefDigest == l.config.gatewayCredentialRefDigest
    && k.config.gatewayReadinessDigest == l.config.gatewayReadinessDigest
    && k.config.policyVersionDigest == l.config.policyVersionDigest && a.sequenceNumber == b.sequenceNumber
  }

  lemma SevenSame(v: seq<Json>, w: seq<Json>)
    requires |v| == |w| == 7
    ensures AllSame(v, w) <==> Same(v[0], w[0]) && Same(v[1], w[1]) && Same(v[2], w[2]) && Same(v[3], w[3])
                               && Same(v[4], w[4]) && Same(v[5], w[5]) && Same(v[6], w[6])
  {
  }

  lemma Values0Same(k: Keyed, l: Keyed)
    ensures AllSame(Values0(k.config.runId, k.attempt), Values0(l.config.runId, l.attempt)) <==> Agree0(k, l)
  {
    PostureTextsDiffer(k.attempt.bodyPosture, l.attempt.bodyPosture);
    SevenSame(Values0(k.config.runId, k.attempt), Values0(l.config.runId, l.attempt));
  }

  lemma Values1Same(a: Attempt, b: Attempt)
    ensures AllSame(Values1(a), Values1(b)) <==> Agree1(a, b)
  {
    EnvironmentTextsDiffer(a.environmentPosture, b.environmentPosture);
    SevenSame(Values1(a), Values1(b));
  }

  lemma Values2Same(a: Attempt, b: Attempt)
    ensures AllSame(Values2(a), Values2(b)) <==> Agree2(a, b)
  {
    assert |Js("official_payment_required")| == 25 && |Js("local_digest_profile")| == 20;
    SevenSame(Values2(a), Values2(b));
  }

  lemma ListedValue(v: Json, m: map<JsString, JsString>, key: JsString)
    requires Lists(v, m) && key in m
    ensures key in Keys(v.fields) && Get(v.fields, key) == Str(m[key])
  {
    assert key in Elements(Keys(v.fields));
    var entry := Field(key, Get(v.fields, key));
    var i :| 0 <= i < |v.fields| && v.fields[i] == entry;
  }

  /** The order of the entries does not matter. */
  lemma ListsSame(v: Json, m: map<JsString, JsString>, w: Json, n: map<JsString, JsString>)
    requires Lists(v, m) && Lists(w, n)
    ensures Same(v, w) <==> m == n
  {
    if m == n {
      ListingsOfOne(v, w, m);
    }
    if Same(v, w) {
      forall key | key in m ensures key in n && m[key] == n[key] {
        SharedValue(v, m, w, n, key);
      }
      assert m.Keys == n.Keys;
    }
  }

  lemma ListingsOfOne(v: Json, w: Json, m: map<JsString, JsString>)
    requires Lists(v, m) && Lists(w, m)
    ensures Same(v, w)
  {
    forall key | key in Keys(v.fields) && key in Keys(w.fields)
      ensures Same(Get(v.fields, key), Get(w.fields, key))
    {
      assert key in Elements(Keys(v.fields));
      ListedValue(v, m, key);
      ListedValue(w, m, key);
    }
  }

  lemma SharedValue(v: Json, m: map<JsString, JsString>, w: Json, n: map<JsString, JsString>, key: JsString)
    requires Lists(v, m) && Lists(w, n) && Same(v, w) && key in m
    ensures key in n && m[key] == n[key]
  {
    assert key in n.Keys;
    ListedValue(v, m, key);
    ListedValue(w, n, key);
    assert Same(Get(v.fields, key), Get(w.fields, key));
  }

  lemma Values3Same(k: Keyed, l: Keyed)
    requires Holds(k) && Holds(l)
    ensures AllSame(Values3(k), Values3(l)) <==> Agree3(k, l)
  {
    ListsSame(k.versions, k.attempt.sdkPackageVersions, l.versions, l.attempt.sdkPackageVersions);
    StrListSame(k.attempt.extensionKeys, l.attempt.extensionKeys);
    SevenSame(Values3(k), Values3(l));
  }

  lemma ValuesSame(k: Keyed, l: Keyed)
    requires Holds(k) && Holds(l)
    ensures AllSame(Values(k), Values(l)) <==> KeyedAlike(k, l)
  {
    var v0, w0 := Values0(k.config.runId, k.attempt), Values0(l.config.runId, l.attempt);
    var v1, w1 := Values1(k.attempt), Values1(l.attempt);
    var v2, w2 := Values2(k.attempt), Values2(l.attempt);
    AllSameConcat(v0, v1, w0, w1);
    AllSameConcat(v2, Values3(k), w2, Values3(l));
    AllSameConcat(v0 + v1, v2 + Values3(k), w0 + w1, w2 + Values3(l));
    Values0Same(k, l);
    Values1Same(k.attempt, l.attempt);
    Values2Same(k.attempt, l.attempt);
    Values3Same(k, l);
  }

  lemma MaterialsSame(k: Keyed, l: Keyed)
    requires Holds(k) && Holds(l)
    ensures Same(Material(k), Material(l)) <==> KeyedAlike(k, l)
  {
    ValuesSame(k, l);
    RuntimeKeyNames.KeysDistinct();
    RecordsAgree(RuntimeKeyNames.KEYS, Values(k), Values(l));
  }

  // ------------------------------------------------------------------ the key

  const IDENTIFIED: JsString := Js("x402-payment-id:")
  const DERIVED: JsString := Js("x402-payment:")

  function IdentifiedKey(hash: Hash, identifier: JsString): JsString {
    IDENTIFIED + DropDigestPrefix(DigestOf(hash, ScopeMaterial(IdentifierDigest(hash, identifier))))
  }

  function DerivedKey(hash: Hash, k: Keyed): JsString {
    DERIVED + DropDigestPrefix(DigestOf(hash, Material(k)))
  }

  /** The idempotency key of an attempt. An empty identifier is falsy. */
  function RuntimeKey(hash: Hash, k: Keyed): JsString {
    if Identified(k.attempt) then IdentifiedKey(hash, k.attempt.paymentIdentifier.value) else DerivedKey(hash, k)
  }

  lemma PrefixedDigestsDiffer(a: JsString, b: JsString)
    ensures IDENTIFIED + a != DERIVED + b
  {
    assert (IDENTIFIED + a)[12] == IDENTIFIED[12] == 45;
    assert (DERIVED + b)[12] == DERIVED[12] == 58;
  }

  lemma ScopesAgree(d: JsString, e: JsString)
    ensures Same(ScopeMaterial(d), ScopeMaterial(e)) <==> d == e
  {
    ScopeKeysDistinct();
    var vs, ws := ScopeValues(d), ScopeValues(e);
    RecordsAgree(ScopeKeys(), vs, ws);
    assert Same(vs[0], ws[0]) <==> d == e;
    assert Same(vs[1], ws[1]);
  }

  /** No collision among the texts digested for two attempts. */
  predicate NoKeyCollision(hash: Hash, k: Keyed, l: Keyed) {
    if Identified(k.attempt) && Identified(l.attempt) then
      NoScopeCollision(hash, k.attempt.paymentIdentifier.value, l.attempt.paymentIdentifier.value)
    else NoCollision(hash, Material(k), Material(l))
  }

  predicate NoScopeCollision(hash: Hash, a: JsString, b: JsString) {
    && NoIdentifierCollision(hash, a, b)
    && NoCollision(hash, ScopeMaterial(IdentifierDigest(hash, a)), ScopeMaterial(IdentifierDigest(hash, b)))
  }

  /** A key bound to an identifier is never a key derived from fields; two attempts with
      identifiers share a key exactly when the identifiers are equal, whatever their fields; two
      without share one exactly when they agree on each of the 28 listed fields. */
  lemma RuntimeKeyIsExact(hash: Hash, k: Keyed, l: Keyed)
    requires NamesItsAlgorithm(hash) && NoKeyCollision(hash, k, l) && Holds(k) && Holds(l)
    ensures RuntimeKey(hash, k) == RuntimeKey(hash, l) <==>
      if Identified(k.attempt) then k.attempt.paymentIdentifier == l.attempt.paymentIdentifier
      else !Identified(l.attempt) && KeyedAlike(k, l)
  {
    if Identified(k.attempt) && Identified(l.attempt) {
      IdentifiedKeysAreExact(hash, k.attempt.paymentIdentifier.value, l.attempt.paymentIdentifier.value);
    } else if Identified(k.attempt) || Identified(l.attempt) {
      KindsDiffer(hash, k, l);
    } else {
      DerivedKeysAreExact(hash, k, l);
    }
  }

  /** The two kinds of key differ without any assumption on the digest. */
  lemma KindsDiffer(hash: Hash, k: Keyed, l: Keyed)
    requires Identified(k.attempt) != Identified(l.attempt)
    ensures RuntimeKey(hash, k) != RuntimeKey(hash, l)
  {
    if Identified(k.attempt) {
      PrefixedDigestsDiffer(RuntimeKey(hash, k)[|IDENTIFIED|..], RuntimeKey(hash, l)[|DERIVED|..]);
    } else {
      PrefixedDigestsDiffer(RuntimeKey(hash, l)[|IDENTIFIED|..], RuntimeKey(hash, k)[|DERIVED|..]);
    }
  }

  lemma DerivedKeysAreExact(hash: Hash, k: Keyed, l: Keyed)
    requires NamesItsAlgorithm(hash) && NoCollision(hash, Material(k), Material(l)) && Holds(k) && Holds(l)
    ensures DerivedKey(hash, k) == DerivedKey(hash, l) <==> KeyedAlike(k, l)
  {
    DroppingPrefixLosesNothing(DERIVED, DigestOf(hash, Material(k)), DigestOf(hash, Material(l)));
    DigestDecidesSameness(hash, Material(k), Material(l));
    MaterialsSame(k, l);
  }

  lemma IdentifiedKeysAreExact(hash: Hash, a: JsString, b: JsString)
    requires NamesItsAlgorithm(hash) && NoScopeCollision(hash, a, b)
    ensures IdentifiedKey(hash, a) == IdentifiedKey(hash, b) <==> a == b
  {
    var v, w := ScopeMaterial(IdentifierDigest(hash, a)), ScopeMaterial(IdentifierDigest(hash, b));
    DroppingPrefixLosesNothing(IDENTIFIED, DigestOf(hash, v), DigestOf(hash, w));
    DigestDecidesSameness(hash, v, w);
    ScopesAgree(IdentifierDigest(hash, a), IdentifierDigest(hash, b));
    if IdentifierDigest(hash, a) == IdentifierDigest(hash, b) {
      IdentifierDigestBinds(hash, a, b);
    }
  }
}
