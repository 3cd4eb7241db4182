/** The evidence pipeline in both directions: honest parameters pass the checks before
    signing, and accepted parameters are bound to exactly one payment requirement. */
module X402PipelineProofs {
  import opened JsText
  import opened JsonValues
  import opened Canonical
  import opened CanonicalProofs
  import opened Digests
  import opened X402Evidence
  import opened X402Payment

  // ------------------------------------------ equal values are read alike

  lemma SameLookup(v: JsonValue, w: JsonValue, key: JsString)
    requires Same(v, w)
    ensures Lookup(v, key).Some? <==> Lookup(w, key).Some?
    ensures Lookup(v, key).Some? ==> Same(Lookup(v, key).value, Lookup(w, key).value)
  {
    if v.Obj? {
      assert key in Keys(v.fields) <==> key in Elements(Keys(v.fields));
      assert key in Keys(w.fields) <==> key in Elements(Keys(w.fields));
    }
  }

  lemma SameRequirementsReadAlike(v: JsonValue, w: JsonValue)
    requires Same(v, w)
    requires ReadRequirement(v).Some? && ReadRequirement(w).Some?
    ensures RequirementMatches(ReadRequirement(v).value, ReadRequirement(w).value)
  {
    SameLookup(v, w, Js("scheme"));
    SameLookup(v, w, Js("network"));
    SameLookup(v, w, Js("asset"));
    SameLookup(v, w, Js("amount"));
    SameLookup(v, w, Js("payTo"));
    SameLookup(v, w, Js("maxTimeoutSeconds"));
  }

  /** What two readings agree on when they come from the same JSON value. */
  predicate ReadAlike(a: PaymentRequired, b: PaymentRequired) {
    && a.x402Version == b.x402Version
    && a.resourceUrl == b.resourceUrl
    && |a.accepts| == |b.accepts|
    && (forall i :: 0 <= i < |a.accepts| ==>
          RequirementMatches(a.accepts[i], b.accepts[i]) && Same(a.accepts[i].json, b.accepts[i].json))
  }

  lemma ReadItemsKeepValues(items: seq<JsonValue>, i: nat)
    requires ReadRequirements(items).Some? && i < |items|
    ensures ReadRequirements(items).value[i].json == items[i]
  {
    assert ReadRequirement(items[i]) == Some(ReadRequirements(items).value[i]);
  }

  lemma SameValuesReadAlike(a: PaymentRequired, b: PaymentRequired)
    requires IsRead(a) && IsRead(b)
    requires Same(a.json, b.json)
    ensures ReadAlike(a, b)
  {
    SameLookup(a.json, b.json, Js("x402Version"));
    SameLookup(a.json, b.json, Js("resource"));
    SameLookup(a.json, b.json, Js("accepts"));
    SameLookup(Lookup(a.json, Js("resource")).value, Lookup(b.json, Js("resource")).value, Js("url"));
    var xs, ys := ItemsAt(a.json, Js("accepts")).value, ItemsAt(b.json, Js("accepts")).value;
    forall i | 0 <= i < |a.accepts|
      ensures RequirementMatches(a.accepts[i], b.accepts[i]) && Same(a.accepts[i].json, b.accepts[i].json)
    {
      ReadItemsKeepValues(xs, i);
      ReadItemsKeepValues(ys, i);
      SameRequirementsReadAlike(xs[i], ys[i]);
    }
  }

  // ----------------------------------------------------- digests that bind

  lemma SameRequiredMaterials(a: PaymentRequired, i: int, d: JsString, b: PaymentRequired, j: int, e: JsString)
    requires Same(RequiredMaterial(a, i, d), RequiredMaterial(b, j, e))
    ensures i == j && d == e && Same(a.json, b.json)
  {
    MaterialKeysDistinct();
    var keys := [Js("paymentRequired"), Js("selectedPaymentRequirementIndex"), Js("selectedPaymentRequirementDigest")];
    var vs, ws := [a.json, Number(i), Str(d)], [b.json, Number(j), Str(e)];
    RecordsAgree(keys, vs, ws);
    assert Same(vs[0], ws[0]) && Same(vs[1], ws[1]) && Same(vs[2], ws[2]);
  }

  lemma RequiredDigestBinds(hash: Hash, a: PaymentRequired, i: int, d: JsString,
                            b: PaymentRequired, j: int, e: JsString)
    requires RequiredDigest(hash, a, i, d) == RequiredDigest(hash, b, j, e)
    requires NoRequiredCollision(hash, a, i, d, b, j, e)
    ensures i == j && d == e && Same(a.json, b.json)
  {
    var nothing := Requirement([], [], [], [], [], 0, Null);
    MaterialsAreValues(a, i, nothing, d);
    MaterialsAreValues(b, j, nothing, e);
    DigestDecidesSameness(hash, RequiredMaterial(a, i, d), RequiredMaterial(b, j, e));
    SameRequiredMaterials(a, i, d, b, j, e);
  }

  /** The two PaymentRequired materials do not collide under the hash. */
  predicate NoRequiredCollision(hash: Hash, a: PaymentRequired, i: int, d: JsString,
                                b: PaymentRequired, j: int, e: JsString)
  {
    MaterialsAreValues(a, i, Requirement([], [], [], [], [], 0, Null), d);
    MaterialsAreValues(b, j, Requirement([], [], [], [], [], 0, Null), e);
    NoCollision(hash, RequiredMaterial(a, i, d), RequiredMaterial(b, j, e))
  }

  predicate NoIdentifierCollision(hash: Hash, a: JsString, b: JsString) {
    IdentifierMaterialIsValue(a);
    IdentifierMaterialIsValue(b);
    NoCollision(hash, IdentifierMaterial(a), IdentifierMaterial(b))
  }

  lemma IdentifierDigestBinds(hash: Hash, a: JsString, b: JsString)
    requires IdentifierDigest(hash, a) == IdentifierDigest(hash, b)
    requires NoIdentifierCollision(hash, a, b)
    ensures a == b
  {
    MaterialKeysDistinct();
    IdentifierMaterialIsValue(a);
    IdentifierMaterialIsValue(b);
    DigestDecidesSameness(hash, IdentifierMaterial(a), IdentifierMaterial(b));
    var vs, ws := [Str(a), Str(Js("payment-identifier"))], [Str(b), Str(Js("payment-identifier"))];
    RecordsAgree([Js("paymentIdentifier"), Js("paymentIdentifierExtension")], vs, ws);
    assert Same(vs[0], ws[0]);
  }

  // ------------------------------------------------------------ completeness

  /** Evidence as `decodeX402PaymentRequiredEvidence` returns it. */
  predicate IsDecoded(hash: Hash, e: Evidence) {
    && IsRead(e.paymentRequired)
    && e.selectedIndex < |e.paymentRequired.accepts|
    && e.selected == e.paymentRequired.accepts[e.selectedIndex]
    && e.selected.scheme == Js("exact")
    && e.selectedDigest == SelectedDigest(hash, e.paymentRequired, e.selectedIndex, e.selected)
  }

  lemma DecodedEvidence(hash: Hash, packages: map<JsString, JsString>, request: IntendedRequest,
                        decoded: Option<JsonValue>, index: int)
    requires Decode(hash, packages, request, decoded, index).Some?
    ensures var e := Decode(hash, packages, request, decoded, index).value;
      IsDecoded(hash, e) && Some(e.paymentRequired.json) == decoded && e.selectedIndex == index
      && e.intendedRequest == request
  {
  }

  /** The parameters say what the evidence says. */
  predicate Carries(hash: Hash, p: Parameters, e: Evidence, identifier: Option<JsString>) {
    && p.evidenceProfile.OfficialPaymentRequired?
    && RequirementMatchesParameters(e.selected, p)
    && p.x402Version == Some(e.paymentRequired.x402Version)
    && p.endpointUrl == e.paymentRequired.resourceUrl
    && p.intendedRequestUrl == Some(e.intendedRequest.url)
    && p.selectedIndex == Some(e.selectedIndex)
    && p.selectedDigest == Some(e.selectedDigest)
    && p.paymentRequirementsDigest == RequiredDigest(hash, e.paymentRequired, e.selectedIndex, e.selectedDigest)
    && (p.identifierPosture.Bound? <==> identifier.Some?)
    && p.paymentIdentifierDigest == (if identifier.Some? then Some(IdentifierDigest(hash, identifier.value)) else None)
  }

  lemma BuiltParametersCarryEvidence(hash: Hash, hostname: JsString -> JsString, input: AttemptInput, config: RuntimeConfig)
    requires IsDecoded(hash, input.evidence) && BuildAttempt(hash, input).Some?
    ensures var a := BuildAttempt(hash, input).value;
      var p := BuildParameters(hash, hostname, config, a);
      Carries(hash, p, input.evidence, input.paymentIdentifier)
      && p.bodyPosture == a.bodyPosture && p.bodyDigest == a.bodyDigest
      && p.environmentPosture == a.environmentPosture
  {
  }

  lemma CarriedTermsPass(hash: Hash, p: Parameters, e: Evidence, s: Surface)
    requires Carries(hash, p, e, s.identifier) && PostureDrift(p).None?
    requires s.paymentRequired == e.paymentRequired && s.selectedIndex == e.selectedIndex
    requires s.selectedDigest == e.selectedDigest
    ensures TermsDrift(s, p) ==
      if e.intendedRequest.url == [] || e.intendedRequest.url == e.paymentRequired.resourceUrl
      then None else Some(IntendedRequestDrift)
  {
  }

  lemma CarriedSelectionPasses(hash: Hash, p: Parameters, e: Evidence, s: Surface)
    requires IsDecoded(hash, e) && Carries(hash, p, e, s.identifier)
    requires s.paymentRequired == e.paymentRequired && s.selectedIndex == e.selectedIndex
    requires s.selectedDigest == e.selectedDigest
    ensures SelectionDrift(hash, s, p, e.selected).None?
  {
  }

  lemma CarriedParametersPass(hash: Hash, p: Parameters, e: Evidence, s: Surface)
    requires IsDecoded(hash, e) && Carries(hash, p, e, s.identifier) && PostureDrift(p).None?
    requires s.paymentRequired == e.paymentRequired && s.selectedIndex == e.selectedIndex
    requires s.selectedDigest == e.selectedDigest
    ensures VerifyIdentifierBinding(hash, p, s.identifier).Accepted?
    ensures VerifySigningInput(hash, s, p) ==
      if e.intendedRequest.url == [] || e.intendedRequest.url == e.paymentRequired.resourceUrl
      then Accepted(e.selected) else Refused(IntendedRequestDrift)
  {
    CarriedTermsPass(hash, p, e, s);
    CarriedSelectionPasses(hash, p, e, s);
  }

  lemma CompilablePosture(hash: Hash, hostname: JsString -> JsString, config: RuntimeConfig, a: Attempt)
    requires IsAtomicAmount(config.maxAtomicAmountPerCall) && IsAtomicAmount(a.atomicAmount)
    requires Compilable(config, a)
    ensures PostureDrift(BuildParameters(hash, hostname, config, a)).None?
  {
  }

  /** A surface for the evidence exists exactly when the identifier, if any, was advertised. */
  lemma SurfaceForEvidence(hash: Hash, input: AttemptInput)
    requires IsDecoded(hash, input.evidence) && BuildAttempt(hash, input).Some?
    ensures var e := input.evidence;
      CreateSurface(e.paymentRequired.json, e.selectedIndex, e.selectedDigest, input.paymentIdentifier)
      == if input.paymentIdentifier.None? || e.paymentRequired.advertisesIdentifier
         then Some(Surface(e.paymentRequired, e.selectedIndex, e.selectedDigest, input.paymentIdentifier)) else None
  {
    var id := input.paymentIdentifier;
    assert id.Some? ==> IsPaymentIdentifier(id.value);
  }

  /** The attempt schema takes no empty intended URL. */
  lemma RequestUrlIsNotEmpty(hash: Hash, input: AttemptInput)
    requires BuildAttempt(hash, input).Some?
    ensures input.evidence.intendedRequest.url != []
  {
    assert BuildAttempt(hash, input).value.intendedRequestUrl == Some(input.evidence.intendedRequest.url);
  }

  /** Parameters built from decoded evidence whose attempt has no refusal codes pass both
      checks of the surface made from the same header and identifier exactly when the
      intended request goes to the advertised resource; and what is accepted is the
      selected requirement itself. */
  lemma HonestParametersPass(hash: Hash, hostname: JsString -> JsString, packages: map<JsString, JsString>,
                             request: IntendedRequest, decoded: Option<JsonValue>, index: int,
                             input: AttemptInput, config: RuntimeConfig)
    requires Decode(hash, packages, request, decoded, index) == Some(input.evidence)
    requires BuildAttempt(hash, input).Some?
    requires IsAtomicAmount(config.maxAtomicAmountPerCall) && Compilable(config, BuildAttempt(hash, input).value)
    requires input.paymentIdentifier.Some? ==> input.evidence.paymentRequired.advertisesIdentifier
    ensures var e := input.evidence;
      var p := BuildParameters(hash, hostname, config, BuildAttempt(hash, input).value);
      var s := CreateSurface(decoded.value, index, e.selectedDigest, input.paymentIdentifier);
      && s.Some?
      && VerifyIdentifierBinding(hash, p, s.value.identifier).Accepted?
      && VerifySigningInput(hash, s.value, p) ==
           if request.url == e.paymentRequired.resourceUrl
           then Accepted(e.selected) else Refused(IntendedRequestDrift)
  {
    DecodedEvidence(hash, packages, request, decoded, index);
    SurfaceForEvidence(hash, input);
    BuiltParametersCarryEvidence(hash, hostname, input, config);
    var a := BuildAttempt(hash, input).value;
    var p := BuildParameters(hash, hostname, config, a);
    CompilablePosture(hash, hostname, config, a);
    RequestUrlIsNotEmpty(hash, input);
    var s := Surface(input.evidence.paymentRequired, index, input.evidence.selectedDigest, input.paymentIdentifier);
    CarriedParametersPass(hash, p, input.evidence, s);
  }

  // --------------------------------------------------------------- soundness

  /** What acceptance establishes about the surface's own material. */
  lemma AcceptanceBindsDigest(hash: Hash, s: Surface, p: Parameters)
    requires Accepts(hash, s, p)
    ensures p.paymentRequirementsDigest == RequiredDigest(hash, s.paymentRequired, s.selectedIndex, s.selectedDigest)
    ensures 0 <= s.selectedIndex < |s.paymentRequired.accepts|
    ensures p.selectedIndex == Some(s.selectedIndex) && p.selectedDigest == Some(s.selectedDigest)
    ensures p.identifierPosture.Bound? <==> s.identifier.Some?
    ensures s.identifier.Some? ==> p.paymentIdentifierDigest == Some(IdentifierDigest(hash, s.identifier.value))
  {
  }

  /** If parameters that carry some evidence are accepted by any signing surface, that surface
      holds the evidence's PaymentRequired, index and digest, and would pay the very
      requirement the evidence selected, to the last field. */
  lemma AcceptedParametersAreBound(hash: Hash, p: Parameters, e: Evidence, identifier: Option<JsString>, s: Surface)
    requires IsDecoded(hash, e) && IsRead(s.paymentRequired)
    requires Carries(hash, p, e, identifier) && Accepts(hash, s, p)
    requires NoRequiredCollision(hash, s.paymentRequired, s.selectedIndex, s.selectedDigest,
                                 e.paymentRequired, e.selectedIndex, e.selectedDigest)
    requires s.identifier.Some? && identifier.Some? ==>
      NoIdentifierCollision(hash, s.identifier.value, identifier.value)
    ensures s.selectedIndex == e.selectedIndex && s.selectedDigest == e.selectedDigest
    ensures s.identifier == identifier
    ensures Same(s.paymentRequired.json, e.paymentRequired.json)
    ensures ReadAlike(s.paymentRequired, e.paymentRequired)
    ensures RequirementMatches(s.paymentRequired.accepts[s.selectedIndex], e.selected)
    ensures Same(s.paymentRequired.accepts[s.selectedIndex].json, e.selected.json)
  {
    AcceptanceBindsDigest(hash, s, p);
    RequiredDigestBinds(hash, s.paymentRequired, s.selectedIndex, s.selectedDigest,
                        e.paymentRequired, e.selectedIndex, e.selectedDigest);
    SameValuesReadAlike(s.paymentRequired, e.paymentRequired);
    if s.identifier.Some? {
      IdentifierDigestBinds(hash, s.identifier.value, identifier.value);
    }
  }

  /** The same parameters are never accepted for two different requirements, wherever the
      parameters came from. */
  lemma OneRequirementPerParameters(hash: Hash, s: Surface, t: Surface, p: Parameters)
    requires IsRead(s.paymentRequired) && IsRead(t.paymentRequired)
    requires Accepts(hash, s, p) && Accepts(hash, t, p)
    requires NoRequiredCollision(hash, s.paymentRequired, s.selectedIndex, s.selectedDigest,
                                 t.paymentRequired, t.selectedIndex, t.selectedDigest)
    ensures s.selectedIndex == t.selectedIndex && s.selectedDigest == t.selectedDigest
    ensures Same(s.paymentRequired.json, t.paymentRequired.json)
    ensures ReadAlike(s.paymentRequired, t.paymentRequired)
    ensures s.identifier.Some? <==> t.identifier.Some?
  {
    AcceptanceBindsDigest(hash, s, p);
    AcceptanceBindsDigest(hash, t, p);
    RequiredDigestBinds(hash, s.paymentRequired, s.selectedIndex, s.selectedDigest,
                        t.paymentRequired, t.selectedIndex, t.selectedDigest);
    SameValuesReadAlike(s.paymentRequired, t.paymentRequired);
  }

  /** One surface accepts only one set of payment terms: parameters that differ from
      accepted ones in any of these fields are refused. */
  lemma OneSetOfTermsPerSurface(hash: Hash, s: Surface, p: Parameters, q: Parameters)
    requires Accepts(hash, s, p) && Accepts(hash, s, q)
    ensures p.network == q.network && p.asset == q.asset && p.token == q.token
    ensures p.atomicAmount == q.atomicAmount && p.payTo == q.payTo && p.payee == q.payee
    ensures p.x402Scheme == q.x402Scheme && p.maxTimeoutSeconds == q.maxTimeoutSeconds
    ensures p.x402Version == q.x402Version && p.endpointUrl == q.endpointUrl
    ensures p.selectedIndex == q.selectedIndex && p.selectedDigest == q.selectedDigest
    ensures p.paymentRequirementsDigest == q.paymentRequirementsDigest
    ensures p.evidenceProfile == q.evidenceProfile && p.environmentPosture == q.environmentPosture
    ensures p.identifierPosture.Bound? <==> q.identifierPosture.Bound?
    ensures p.identifierPosture.Bound? ==> p.paymentIdentifierDigest == q.paymentIdentifierDigest
    ensures Some(p.token) == p.asset && Some(p.payee) == p.payTo
  {
  }

  /** The client's own selection can only return a requirement with the verified terms. */
  lemma ClientPaysVerifiedTerms(hash: Hash, s: Surface, p: Parameters, requirements: seq<Requirement>)
    requires Accepts(hash, s, p)
    requires SelectForClient(requirements, s.selectedIndex, VerifySigningInput(hash, s, p).value).Some?
    ensures var paid := SelectForClient(requirements, s.selectedIndex, VerifySigningInput(hash, s, p).value).value;
      && paid == requirements[s.selectedIndex]
      && paid.scheme == Js("exact") && paid.network == p.network && paid.asset == p.token
      && paid.amount == p.atomicAmount && paid.payTo == p.payee
      && Some(paid.maxTimeoutSeconds) == p.maxTimeoutSeconds
  {
  }

  // ------------------------------------------------- binding the identifier

  lemma {:induction false} SetFieldKeys(fields: seq<Field>, key: JsString, value: Json)
    ensures forall k :: k in Keys(SetField(fields, key, value)) <==> k in Keys(fields) || k == key
  {
    var set' := SetField(fields, key, value);
    if fields != [] {
      assert Keys(fields) == [fields[0].key] + Keys(fields[1..]);
      if fields[0].key == key {
        assert Keys(set') == Keys(fields);
      } else {
        SetFieldKeys(fields[1..], key, value);
        assert Keys(set') == [fields[0].key] + Keys(SetField(fields[1..], key, value));
      }
    } else {
      assert Keys(set') == [key];
    }
  }

  lemma {:induction false} SetFieldGet(fields: seq<Field>, key: JsString, value: Json, k: JsString)
    requires k == key || k in Keys(fields)
    ensures k in Keys(SetField(fields, key, value))
    ensures Get(SetField(fields, key, value), k) == if k == key then value else Get(fields, k)
  {
    SetFieldKeys(fields, key, value);
    if fields != [] && fields[0].key != key {
      assert Keys(fields) == [fields[0].key] + Keys(fields[1..]);
      assert SetField(fields, key, value)[1..] == SetField(fields[1..], key, value);
      if k != fields[0].key {
        SetFieldGet(fields[1..], key, value, k);
      }
    } else if fields != [] && k != key {
      assert SetField(fields, key, value)[1..] == fields[1..];
    }
  }

  lemma ConsIsCanonicalizable(f: Field, rest: seq<Field>)
    requires Canonicalizable(Obj(rest)) && Canonicalizable(f.value) && f.key !in Keys(rest)
    ensures Canonicalizable(Obj([f] + rest))
  {
    assert Keys([f] + rest) == [f.key] + Keys(rest);
  }

  lemma TailIsCanonicalizable(fields: seq<Field>)
    requires Canonicalizable(Obj(fields)) && fields != []
    ensures Canonicalizable(Obj(fields[1..])) && Canonicalizable(fields[0].value)
    ensures fields[0].key !in Keys(fields[1..])
  {
    assert Keys(fields[1..]) == Keys(fields)[1..];
  }

  lemma {:induction false} SetFieldIsCanonicalizable(fields: seq<Field>, key: JsString, value: Json)
    requires Canonicalizable(Obj(fields)) && Canonicalizable(value)
    ensures Canonicalizable(Obj(SetField(fields, key, value)))
  {
    if fields == [] {
      ConsIsCanonicalizable(Field(key, value), []);
      assert [Field(key, value)] + [] == [Field(key, value)];
    } else {
      TailIsCanonicalizable(fields);
      if fields[0].key == key {
        ConsIsCanonicalizable(Field(key, value), fields[1..]);
      } else {
        SetFieldIsCanonicalizable(fields[1..], key, value);
        SetFieldKeys(fields[1..], key, value);
        ConsIsCanonicalizable(fields[0], SetField(fields[1..], key, value));
      }
    }
  }

  /** The value under `extensions["payment-identifier"]` that the binding extends. */
  function ExtensionsOf(json: JsonValue): seq<Field> {
    match Lookup(json, Js("extensions"))
    case Some(Obj(fields)) => fields
    case _ => []
  }

  function ExistingOf(extensions: seq<Field>): seq<Field> {
    if Js("payment-identifier") in Keys(extensions) && Get(extensions, Js("payment-identifier")).Obj?
    then Get(extensions, Js("payment-identifier")).fields else []
  }

  lemma BoundValueIsCanonicalizable(json: JsonValue, identifier: JsString)
    requires json.Obj?
    ensures Canonicalizable(BindIdentifier(json, identifier))
  {
    var extensions := ExtensionsOf(json);
    var existing := ExistingOf(extensions);
    assert Canonicalizable(Obj([]));
    if existing != [] {
      GetIsCanonicalizable(extensions, Js("payment-identifier"));
    }
    var bound := Obj(SetField(existing, Js("paymentId"), Str(identifier)));
    SetFieldIsCanonicalizable(existing, Js("paymentId"), Str(identifier));
    SetFieldIsCanonicalizable(extensions, Js("payment-identifier"), bound);
    SetFieldIsCanonicalizable(json.fields, Js("extensions"), Obj(SetField(extensions, Js("payment-identifier"), bound)));
  }

  /** The entries after one key was set: its value under the key, the rest as before. */
  ghost predicate SetsOnly(before: seq<Field>, after: seq<Field>, key: JsString, value: Json) {
    && (forall k :: k in Keys(after) <==> k in Keys(before) || k == key)
    && (forall k :: k in Keys(after) ==> Get(after, k) == if k == key then value else Get(before, k))
  }

  lemma SetFieldSetsOnly(fields: seq<Field>, key: JsString, value: Json)
    ensures SetsOnly(fields, SetField(fields, key, value), key, value)
  {
    SetFieldKeys(fields, key, value);
    forall k | k in Keys(SetField(fields, key, value))
      ensures Get(SetField(fields, key, value), k) == if k == key then value else Get(fields, k)
    {
      SetFieldGet(fields, key, value, k);
    }
  }

  /** The extensions object after binding: the identifier is set under its key in the entry of the
      extension, and nothing else is touched. */
  ghost predicate BindsWithin(before: seq<Field>, after: seq<Field>, identifier: JsString) {
    && Js("payment-identifier") in Keys(after)
    && (var entry := Get(after, Js("payment-identifier"));
        && entry.Obj?
        && SetsOnly(ExistingOf(before), entry.fields, Js("paymentId"), Str(identifier))
        && SetsOnly(before, after, Js("payment-identifier"), entry))
  }

  function BoundExtensions(extensions: seq<Field>, identifier: JsString): seq<Field> {
    SetField(extensions, Js("payment-identifier"),
             Obj(SetField(ExistingOf(extensions), Js("paymentId"), Str(identifier))))
  }

  lemma ExtensionsBound(extensions: seq<Field>, identifier: JsString)
    ensures BindsWithin(extensions, BoundExtensions(extensions, identifier), identifier)
  {
    var entry := Obj(SetField(ExistingOf(extensions), Js("paymentId"), Str(identifier)));
    SetFieldSetsOnly(ExistingOf(extensions), Js("paymentId"), Str(identifier));
    SetFieldSetsOnly(extensions, Js("payment-identifier"), entry);
  }

  lemma BoundIsSet(json: JsonValue, identifier: JsString)
    requires json.Obj?
    ensures BindIdentifier(json, identifier)
         == Obj(SetField(json.fields, Js("extensions"), Obj(BoundExtensions(ExtensionsOf(json), identifier))))
    ensures Canonicalizable(BindIdentifier(json, identifier))
  {
    BoundValueIsCanonicalizable(json, identifier);
  }

  /** Binding sets the extensions and no other key; in them, the identifier alone. */
  lemma BindingSetsExtensions(json: JsonValue, identifier: JsString)
    requires json.Obj?
    ensures Canonicalizable(BindIdentifier(json, identifier)) && BindIdentifier(json, identifier).Obj?
    ensures SetsOnly(json.fields, BindIdentifier(json, identifier).fields, Js("extensions"),
                     Obj(BoundExtensions(ExtensionsOf(json), identifier)))
    ensures ExtensionsOf(BindIdentifier(json, identifier)) == BoundExtensions(ExtensionsOf(json), identifier)
    ensures BindsWithin(ExtensionsOf(json), BoundExtensions(ExtensionsOf(json), identifier), identifier)
  {
    var extended := Obj(BoundExtensions(ExtensionsOf(json), identifier));
    BoundIsSet(json, identifier);
    SetFieldSetsOnly(json.fields, Js("extensions"), extended);
    ExtensionsBound(ExtensionsOf(json), identifier);
  }

  /** Binding an identifier changes nothing that is paid: the client sees the same version,
      resource and requirements, the identifier under its extension, and every other
      extension as it was. */
  lemma BindingKeepsRequirements(pr: PaymentRequired, identifier: JsString)
    requires IsRead(pr)
    ensures Canonicalizable(BindIdentifier(pr.json, identifier))
    ensures var bound := ReadPaymentRequired(BindIdentifier(pr.json, identifier));
      && bound.Some?
      && bound.value.accepts == pr.accepts
      && bound.value.x402Version == pr.x402Version
      && bound.value.resourceUrl == pr.resourceUrl
      && bound.value.advertisesIdentifier
    ensures BindsWithin(ExtensionsOf(pr.json), ExtensionsOf(BindIdentifier(pr.json, identifier)), identifier)
  {
    var extensions := BoundExtensions(ExtensionsOf(pr.json), identifier);
    BoundIsSet(pr.json, identifier);
    BindingSetsExtensions(pr.json, identifier);
    OtherKeysKept(pr.json, Obj(extensions));
    ReadWithExtensions(pr, BindIdentifier(pr.json, identifier), extensions);
  }

  /** A value that keeps all that is read but the extensions reads alike. */
  lemma ReadWithExtensions(pr: PaymentRequired, v: JsonValue, extensions: seq<Field>)
    requires IsRead(pr) && Lookup(v, Js("extensions")) == Some(Obj(extensions))
    requires NumAt(v, Js("x402Version")) == NumAt(pr.json, Js("x402Version"))
    requires Lookup(v, Js("resource")) == Lookup(pr.json, Js("resource"))
    requires ItemsAt(v, Js("accepts")) == ItemsAt(pr.json, Js("accepts"))
    ensures ReadPaymentRequired(v)
         == Some(PaymentRequired(pr.x402Version, pr.resourceUrl, pr.accepts,
                                 Js("payment-identifier") in Keys(extensions), SortedKeys(extensions), v))
  {
  }

  lemma OtherKeysKept(json: JsonValue, extended: Json)
    requires json.Obj? && Canonicalizable(Obj(SetField(json.fields, Js("extensions"), extended)))
    ensures var r := Obj(SetField(json.fields, Js("extensions"), extended));
      && NumAt(r, Js("x402Version")) == NumAt(json, Js("x402Version"))
      && Lookup(r, Js("resource")) == Lookup(json, Js("resource"))
      && ItemsAt(r, Js("accepts")) == ItemsAt(json, Js("accepts"))
  {
    SetFieldKeys(json.fields, Js("extensions"), extended);
    assert |Js("extensions")| == 10 && |Js("x402Version")| == 11 && |Js("resource")| == 8 && |Js("accepts")| == 7;
    KeyKept(json, extended, Js("x402Version"));
    KeyKept(json, extended, Js("resource"));
    KeyKept(json, extended, Js("accepts"));
  }

  lemma KeyKept(json: JsonValue, extended: Json, key: JsString)
    requires json.Obj? && Canonicalizable(Obj(SetField(json.fields, Js("extensions"), extended)))
    requires key != Js("extensions")
    ensures Lookup(Obj(SetField(json.fields, Js("extensions"), extended)), key) == Lookup(json, key)
  {
    SetFieldKeys(json.fields, Js("extensions"), extended);
    if key in Keys(json.fields) {
      SetFieldGet(json.fields, Js("extensions"), extended, key);
    }
  }
}
