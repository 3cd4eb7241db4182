/** The MCP idempotency key: which proposals share one. */
module McpIdempotency {
  import opened JsText
  import opened JsonValues
  import opened Canonical
  import opened Digests
  import opened X402Payment
  import McpKeyNames

  /** The proposal fields the key is derived from. */
  datatype KeyedFields = KeyedFields(
    tenantId: JsString, organizationId: JsString, principalId: JsString, agentId: JsString,
    operatingEnvelopeId: JsString, gatewayId: JsString, endpointUrl: JsString, intendedHttpMethod: JsString,
    intendedRequestUrl: JsString, bodyPosture: BodyPosture, bodyDigest: Option<JsString>,
    selectedHeadersDigest: JsString, environmentPosture: EnvironmentPosture, environmentRef: Option<JsString>,
    x402Version: int, x402Scheme: JsString, payee: JsString, payTo: JsString, network: JsString,
    token: JsString, asset: JsString, atomicAmount: JsString, paymentRequirementsDigest: JsString,
    selectedIndex: int, selectedDigest: JsString, workflowContextRefs: Option<JsonValue>,
    authorityRefId: JsString, authorityRefDigest: JsString, policyPackRef: JsString, policyPackVersion: JsString,
    sequenceNumber: int, requiredPriorActionContractIds: seq<JsString>)

  /** A parsed proposal. The fields outside `keyed` do not enter the key. */
  datatype Proposal = Proposal(
    keyed: KeyedFields, requestId: JsString, metadataRef: JsString, metadataDigest: JsString,
    dispatchBoundaryRef: JsString, dispatchRef: JsString, paymentRequiredEvidenceRef: JsString,
    correlationRef: Option<JsString>, callerIdempotencyKey: JsString, runId: JsString,
    maxTimeoutSeconds: int, facilitatorRef: Option<JsString>)

  /** The trusted binding, of which the key uses the two digests. */
  datatype TrustedBinding = TrustedBinding(
    trustedMaxAtomicAmountPerCall: JsString, gatewayReadinessRef: JsString, gatewayReadinessDigest: JsString,
    policyVersionRef: JsString, policyVersionDigest: JsString)

  function EnvironmentText(p: EnvironmentPosture): JsString {
    match p
    case LocalReferenceSandbox => Js("local_reference_sandbox")
    case ExternalSandbox => Js("external_sandbox")
    case Live => Js("live")
    case UnknownEnvironment => Js("unknown")
  }

  function NullableJson(o: Option<JsonValue>): Json {
    if o.Some? then o.value else Null
  }

  function StrList(ss: seq<JsString>): Json {
    Arr(seq(|ss|, i requires 0 <= i < |ss| => Str(ss[i])))
  }

  // The values of the digested object, in source order, nine at a time.

  function Values0(k: KeyedFields): seq<Json> {
    [Str(Js("handshake.mcp.x402.idempotency.v1")), Str(k.tenantId), Str(k.organizationId), Str(k.principalId),
     Str(k.agentId), Str(k.operatingEnvelopeId), Str(k.gatewayId), Str(Js("x402_payment.exact")), Str(k.endpointUrl)]
  }

  function Values1(k: KeyedFields): seq<Json> {
    [Str(k.intendedHttpMethod), Str(k.intendedRequestUrl), Str(BodyPostureText(k.bodyPosture)),
     NullableStr(k.bodyDigest), Str(k.selectedHeadersDigest), Str(EnvironmentText(k.environmentPosture)),
     NullableStr(k.environmentRef), Number(k.x402Version), Str(k.x402Scheme)]
  }

  function Values2(k: KeyedFields): seq<Json> {
    [Str(k.payee), Str(k.payTo), Str(k.network), Str(k.token), Str(k.asset), Str(k.atomicAmount),
     Str(k.paymentRequirementsDigest), Number(k.selectedIndex), Str(k.selectedDigest)]
  }

  function Values3(k: KeyedFields, b: Option<TrustedBinding>): seq<Json> {
    [NullableJson(k.workflowContextRefs), Str(k.authorityRefId), Str(k.authorityRefDigest), Str(k.policyPackRef),
     Str(k.policyPackVersion), NullableStr(if b.Some? then Some(b.value.gatewayReadinessDigest) else None),
     NullableStr(if b.Some? then Some(b.value.policyVersionDigest) else None),
     Number(k.sequenceNumber), StrList(k.requiredPriorActionContractIds)]
  }

  function Values(k: KeyedFields, b: Option<TrustedBinding>): (vs: seq<Json>)
    ensures |vs| == 36
  {
    Values0(k) + Values1(k) + (Values2(k) + Values3(k, b))
  }

  /** The object that `deriveMcpX402IdempotencyKey` digests. */
  function Material(k: KeyedFields, b: Option<TrustedBinding>): (v: Json)
    ensures Canonicalizable(v)
  {
    McpKeyNames.KeysDistinct();
    RecordIsCanonicalizable(McpKeyNames.KEYS, Values(k, b));
    Record(McpKeyNames.KEYS, Values(k, b))
  }

  /** `deriveMcpX402IdempotencyKey`. */
  function IdempotencyKey(hash: Hash, p: Proposal, b: Option<TrustedBinding>): JsString {
    Js("mcp-x402:") + DropDigestPrefix(DigestOf(hash, Material(p.keyed, b)))
  }

  /** `digest.slice("sha256:".length)`. */
  function DropDigestPrefix(digest: JsString): JsString {
    if |digest| < 7 then [] else digest[7..]
  }

  /** Every digest starts with the name of its algorithm. */
  ghost predicate NamesItsAlgorithm(hash: Hash) {
    forall t: JsString :: |hash(t)| >= 7 && hash(t)[..7] == Js("sha256:")
  }

  /** Agreement on everything the key is meant to depend on. */
  predicate KeyedAlike(k: KeyedFields, b: Option<TrustedBinding>, l: KeyedFields, c: Option<TrustedBinding>) {
    && k.(workflowContextRefs := None) == l.(workflowContextRefs := None)
    && Same(NullableJson(k.workflowContextRefs), NullableJson(l.workflowContextRefs))
    && (b.Some? <==> c.Some?)
    && (b.Some? ==> b.value.gatewayReadinessDigest == c.value.gatewayReadinessDigest
                    && b.value.policyVersionDigest == c.value.policyVersionDigest)
  }

  predicate AllSame(vs: seq<Json>, ws: seq<Json>) {
    |vs| == |ws| && forall i :: 0 <= i < |vs| ==> Same(vs[i], ws[i])
  }

  lemma AllSameConcat(a: seq<Json>, b: seq<Json>, c: seq<Json>, d: seq<Json>)
    requires |a| == |c|
    ensures AllSame(a + b, c + d) <==> AllSame(a, c) && AllSame(b, d)
  {
    if AllSame(a + b, c + d) {
      forall i | 0 <= i < |a| ensures Same(a[i], c[i]) {
        assert Same((a + b)[i], (c + d)[i]);
      }
      forall i | 0 <= i < |b| ensures Same(b[i], d[i]) {
        assert Same((a + b)[|a| + i], (c + d)[|a| + i]);
      }
    }
  }

  lemma StrListSame(a: seq<JsString>, b: seq<JsString>)
    ensures Same(StrList(a), StrList(b)) <==> a == b
  {
    var x, y := StrList(a).items, StrList(b).items;
    if Same(StrList(a), StrList(b)) {
      forall i | 0 <= i < |a| ensures a[i] == b[i] {
        assert Same(x[i], y[i]);
      }
    }
  }

  lemma PostureTextsDiffer(p: BodyPosture, q: BodyPosture)
    ensures BodyPostureText(p) == BodyPostureText(q) <==> p == q
  {
    assert |Js("no_body")| == 7 && |Js("digest_bound")| == 12 && |Js("omitted")| == 7 && |Js("unsupported")| == 11;
    assert Js("no_body")[0] == 110 && Js("omitted")[0] == 111;
  }

  lemma EnvironmentTextsDiffer(p: EnvironmentPosture, q: EnvironmentPosture)
    ensures EnvironmentText(p) == EnvironmentText(q) <==> p == q
  {
    assert |Js("local_reference_sandbox")| == 23 && |Js("external_sandbox")| == 16;
    assert |Js("live")| == 4 && |Js("unknown")| == 7;
  }

  lemma Values0Same(k: KeyedFields, l: KeyedFields)
    ensures AllSame(Values0(k), Values0(l)) <==>
      && k.tenantId == l.tenantId && k.organizationId == l.organizationId && k.principalId == l.principalId
      && k.agentId == l.agentId && k.operatingEnvelopeId == l.operatingEnvelopeId && k.gatewayId == l.gatewayId
      && k.endpointUrl == l.endpointUrl
  {
    var v, w := Values0(k), Values0(l);
    if AllSame(v, w) {
      assert Same(v[1], w[1]) && Same(v[2], w[2]) && Same(v[3], w[3]) && Same(v[4], w[4]);
      assert Same(v[5], w[5]) && Same(v[6], w[6]) && Same(v[8], w[8]);
    }
  }

  /** The four texts and digests around the two postures. */
  lemma Values1Same(k: KeyedFields, l: KeyedFields, body: JsString, body': JsString, env: JsString, env': JsString)
    requires body == BodyPostureText(k.bodyPosture) && body' == BodyPostureText(l.bodyPosture)
    requires env == EnvironmentText(k.environmentPosture) && env' == EnvironmentText(l.environmentPosture)
    ensures AllSame(Values1(k), Values1(l)) <==>
      && k.intendedHttpMethod == l.intendedHttpMethod && k.intendedRequestUrl == l.intendedRequestUrl
      && body == body' && k.bodyDigest == l.bodyDigest
      && k.selectedHeadersDigest == l.selectedHeadersDigest && env == env'
      && k.environmentRef == l.environmentRef && k.x402Version == l.x402Version && k.x402Scheme == l.x402Scheme
  {
    var v, w := Values1(k), Values1(l);
    if AllSame(v, w) {
      assert Same(v[0], w[0]) && Same(v[1], w[1]) && Same(v[2], w[2]) && Same(v[3], w[3]) && Same(v[4], w[4]);
      assert Same(v[5], w[5]) && Same(v[6], w[6]) && Same(v[7], w[7]) && Same(v[8], w[8]);
    }
  }

  lemma Values2Same(k: KeyedFields, l: KeyedFields)
    ensures AllSame(Values2(k), Values2(l)) <==>
      && k.payee == l.payee && k.payTo == l.payTo && k.network == l.network && k.token == l.token
      && k.asset == l.asset && k.atomicAmount == l.atomicAmount
      && k.paymentRequirementsDigest == l.paymentRequirementsDigest && k.selectedIndex == l.selectedIndex
      && k.selectedDigest == l.selectedDigest
  {
    var v, w := Values2(k), Values2(l);
    if AllSame(v, w) {
      assert Same(v[0], w[0]) && Same(v[1], w[1]) && Same(v[2], w[2]) && Same(v[3], w[3]) && Same(v[4], w[4]);
      assert Same(v[5], w[5]) && Same(v[6], w[6]) && Same(v[7], w[7]) && Same(v[8], w[8]);
    }
  }

  lemma Values3Same(k: KeyedFields, b: Option<TrustedBinding>, l: KeyedFields, c: Option<TrustedBinding>)
    ensures AllSame(Values3(k, b), Values3(l, c)) <==>
      && Same(NullableJson(k.workflowContextRefs), NullableJson(l.workflowContextRefs))
      && k.authorityRefId == l.authorityRefId && k.authorityRefDigest == l.authorityRefDigest
      && k.policyPackRef == l.policyPackRef && k.policyPackVersion == l.policyPackVersion
      && (b.Some? <==> c.Some?)
      && (b.Some? ==> b.value.gatewayReadinessDigest == c.value.gatewayReadinessDigest
                      && b.value.policyVersionDigest == c.value.policyVersionDigest)
      && k.sequenceNumber == l.sequenceNumber
      && k.requiredPriorActionContractIds == l.requiredPriorActionContractIds
  {
    var v, w := Values3(k, b), Values3(l, c);
    StrListSame(k.requiredPriorActionContractIds, l.requiredPriorActionContractIds);
    if AllSame(v, w) {
      assert Same(v[0], w[0]) && Same(v[1], w[1]) && Same(v[2], w[2]) && Same(v[3], w[3]) && Same(v[4], w[4]);
      assert Same(v[5], w[5]) && Same(v[6], w[6]) && Same(v[7], w[7]) && Same(v[8], w[8]);
    }
  }

  lemma ValuesSame(k: KeyedFields, b: Option<TrustedBinding>, l: KeyedFields, c: Option<TrustedBinding>)
    ensures AllSame(Values(k, b), Values(l, c)) <==> KeyedAlike(k, b, l, c)
  {
    AllSameConcat(Values0(k), Values1(k), Values0(l), Values1(l));
    AllSameConcat(Values2(k), Values3(k, b), Values2(l), Values3(l, c));
    AllSameConcat(Values0(k) + Values1(k), Values2(k) + Values3(k, b), Values0(l) + Values1(l), Values2(l) + Values3(l, c));
    Values0Same(k, l);
    PostureTextsDiffer(k.bodyPosture, l.bodyPosture);
    EnvironmentTextsDiffer(k.environmentPosture, l.environmentPosture);
    Values1Same(k, l, BodyPostureText(k.bodyPosture), BodyPostureText(l.bodyPosture),
                EnvironmentText(k.environmentPosture), EnvironmentText(l.environmentPosture));
    Values2Same(k, l);
    Values3Same(k, b, l, c);
  }

  lemma MaterialsSame(k: KeyedFields, b: Option<TrustedBinding>, l: KeyedFields, c: Option<TrustedBinding>)
    ensures Same(Material(k, b), Material(l, c)) <==> KeyedAlike(k, b, l, c)
  {
    var vs, ws := Values(k, b), Values(l, c);
    ValuesSame(k, b, l, c);
    McpKeyNames.KeysDistinct();
    RecordsAgree(McpKeyNames.KEYS, vs, ws);
  }

  /** Two proposals get one key exactly when they agree on every field the key lists; so
      the request, dispatch and metadata references never matter, and amount, endpoint,
      payee and sequence number always do. */
  lemma KeyIsExact(hash: Hash, p: Proposal, b: Option<TrustedBinding>, q: Proposal, c: Option<TrustedBinding>)
    requires NamesItsAlgorithm(hash)
    requires NoCollision(hash, Material(p.keyed, b), Material(q.keyed, c))
    ensures IdempotencyKey(hash, p, b) == IdempotencyKey(hash, q, c) <==> KeyedAlike(p.keyed, b, q.keyed, c)
  {
    var v, w := Material(p.keyed, b), Material(q.keyed, c);
    DroppingPrefixLosesNothing(Js("mcp-x402:"), DigestOf(hash, v), DigestOf(hash, w));
    DigestDecidesSameness(hash, v, w);
    MaterialsSame(p.keyed, b, q.keyed, c);
  }

  lemma DroppingPrefixLosesNothing(prefix: JsString, d: JsString, e: JsString)
    requires |d| >= 7 && |e| >= 7 && d[..7] == e[..7]
    ensures prefix + DropDigestPrefix(d) == prefix + DropDigestPrefix(e) <==> d == e
  {
    assert (prefix + d[7..])[|prefix|..] == d[7..] && (prefix + e[7..])[|prefix|..] == e[7..];
    assert d == d[..7] + d[7..] && e == e[..7] + e[7..];
  }
}
