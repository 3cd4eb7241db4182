/** What the auth.md gateway checks, scans and reports, written out from its parameters
    (src/adapters/auth-md/gateway.ts, src/adapters/downstream-failure-evidence.ts). */
module AuthMdChecks {
  import opened JsText
  import opened JsonValues
  import opened Canonical
  import opened Digests
  import opened AuthMdActions
  import opened LeakScanner
  import opened AuthMdRun
  import opened AuthMdGateway
  import opened AuthMdLeaks
  import opened DigestedTexts
  import AuthMdWritten

  // ------------------------------------------------------------- the scan

  /** The texts of the parameters, and the scopes. */
  function ParameterTexts(p: Parameters): seq<JsString> {
    var s := p.shared;
    [s.protectedResource, p.protectedResourceOrigin, s.protectedResourceMetadataDigest,
     s.authorizationServerMetadataDigest, s.authorizationServer, p.targetHttpMethod, s.endpointUrl, p.endpointOrigin,
     s.pathTemplate, s.selectedHeadersDigest, s.gatewayCredentialRefId, s.gatewayCredentialRefDigest,
     s.providerRegistryRef, s.operationId]
  }

  predicate ParametersFlagged(secret: JsString -> bool, p: Parameters) {
    || AnyFlagged(secret, ParameterTexts(p)) || AnyFlagged(secret, p.requiredScopes)
    || MaybeFlagged(secret, p.shared.requestBodyDigest) || MaybeFlagged(secret, p.shared.providerRegistryDigest)
  }

  /** A field that holds a text. */
  predicate Holds(fields: seq<Field>, i: nat, text: JsString) {
    i < |fields| && fields[i].value == Str(text)
  }

  lemma TextLeaks(secret: JsString -> bool, fields: seq<Field>, i: nat, text: JsString)
    requires Holds(fields, i, text)
    ensures Leaks(secret, fields[i].value) <==> Flagged(secret, text)
  {
    FieldLeaks(secret, "text", text, None);
  }

  /** Where the texts of the parameters stand among the scanned fields. */
  const PLACES: seq<nat> := [0, 1, 2, 3, 4, 5, 6, 7, 8, 10, 12, 13, 14, 16]

  lemma TextPlaces(p: Parameters, k: nat)
    requires k < 14
    ensures |ParametersValue(p).fields| == 17
    ensures Holds(ParametersValue(p).fields, PLACES[k], ParameterTexts(p)[k])
  {
  }

  lemma OtherPlaces(secret: JsString -> bool, p: Parameters)
    ensures |ParametersValue(p).fields| == 17
    ensures Leaks(secret, ParametersValue(p).fields[9].value) <==> MaybeFlagged(secret, p.shared.requestBodyDigest)
    ensures Leaks(secret, ParametersValue(p).fields[11].value) <==> AnyFlagged(secret, p.requiredScopes)
    ensures Leaks(secret, ParametersValue(p).fields[15].value) <==> MaybeFlagged(secret, p.shared.providerRegistryDigest)
  {
    FieldLeaks(secret, "requestBodyDigest", [], p.shared.requestBodyDigest);
    FieldLeaks(secret, "providerRegistryDigest", [], p.shared.providerRegistryDigest);
    ListLeaks(secret, "requiredScopes", p.requiredScopes);
  }

  predicate SomePlaceLeaks(secret: JsString -> bool, fields: seq<Field>) {
    exists i :: 0 <= i < |fields| && Leaks(secret, fields[i].value)
  }

  /** The scan of the parameters finds something exactly when one of these texts is flagged. */
  lemma ParametersLeakExactly(secret: JsString -> bool, p: Parameters)
    ensures Leaks(secret, ParametersValue(p)) <==> ParametersFlagged(secret, p)
  {
    var fields := ParametersValue(p).fields;
    ObjectLeaks(secret, fields);
    OtherPlaces(secret, p);
    if ParametersFlagged(secret, p) {
      FlaggedParametersLeak(secret, p);
    }
    if SomePlaceLeaks(secret, fields) {
      var i :| 0 <= i < |fields| && Leaks(secret, fields[i].value);
      LeakingPlaceIsFlagged(secret, p, i);
    }
  }

  lemma FlaggedParametersLeak(secret: JsString -> bool, p: Parameters)
    requires ParametersFlagged(secret, p)
    ensures SomePlaceLeaks(secret, ParametersValue(p).fields)
  {
    OtherPlaces(secret, p);
    if AnyFlagged(secret, ParameterTexts(p)) {
      var k :| 0 <= k < |ParameterTexts(p)| && Flagged(secret, ParameterTexts(p)[k]);
      TextPlaces(p, k);
      TextLeaks(secret, ParametersValue(p).fields, PLACES[k], ParameterTexts(p)[k]);
    }
  }

  /** The text at a scanned place, but for the three that are not plain texts. */
  function TextAt(i: nat): nat
    requires i < 17 && i != 9 && i != 11 && i != 15
    ensures TextAt(i) < 14 && PLACES[TextAt(i)] == i
  {
    if i < 9 then i else if i == 10 then 9 else if i < 15 then i - 2 else 13
  }

  lemma LeakingPlaceIsFlagged(secret: JsString -> bool, p: Parameters, i: nat)
    requires i < |ParametersValue(p).fields| && Leaks(secret, ParametersValue(p).fields[i].value)
    ensures ParametersFlagged(secret, p)
  {
    OtherPlaces(secret, p);
    if i != 9 && i != 11 && i != 15 {
      var k := TextAt(i);
      TextPlaces(p, k);
      TextLeaks(secret, ParametersValue(p).fields, i, ParameterTexts(p)[k]);
      assert Flagged(secret, ParameterTexts(p)[k]);
    }
  }

  function ApiTexts(api: ApiEvidence): seq<JsString> {
    [api.evidenceRef, api.surfaceOperationRef, api.targetHttpMethod, api.endpointUrl, api.selectedHeadersDigest]
  }

  predicate ApiFlagged(secret: JsString -> bool, api: ApiEvidence) {
    || AnyFlagged(secret, ApiTexts(api)) || AnyFlagged(secret, api.evidenceRefs)
    || MaybeFlagged(secret, api.requestBodyDigest) || MaybeFlagged(secret, api.responseDigest)
    || MaybeFlagged(secret, api.providerRequestRef) || MaybeFlagged(secret, api.providerOperationRef)
  }

  lemma FiveTexts(secret: JsString -> bool, a: JsString, b: JsString, c: JsString, d: JsString, e: JsString)
    ensures AnyFlagged(secret, [a, b, c, d, e]) <==>
      Flagged(secret, a) || Flagged(secret, b) || Flagged(secret, c) || Flagged(secret, d) || Flagged(secret, e)
  {
    var texts := [a, b, c, d, e];
    assert texts[0] == a && texts[1] == b && texts[2] == c && texts[3] == d && texts[4] == e;
  }

  lemma TenFields(secret: JsString -> bool, fields: seq<Field>)
    requires |fields| == 10
    ensures SomePlaceLeaks(secret, fields) <==>
      || Leaks(secret, fields[0].value) || Leaks(secret, fields[1].value) || Leaks(secret, fields[2].value)
      || Leaks(secret, fields[3].value) || Leaks(secret, fields[4].value) || Leaks(secret, fields[5].value)
      || Leaks(secret, fields[6].value) || Leaks(secret, fields[7].value) || Leaks(secret, fields[8].value)
      || Leaks(secret, fields[9].value)
  {
  }

  lemma ApiPlaces(secret: JsString -> bool, api: ApiEvidence)
    ensures |ApiValue(api).fields| == 10
    ensures var fields := ApiValue(api).fields;
      && (Leaks(secret, fields[0].value) <==> Flagged(secret, api.evidenceRef))
      && (Leaks(secret, fields[1].value) <==> Flagged(secret, api.surfaceOperationRef))
      && (Leaks(secret, fields[2].value) <==> Flagged(secret, api.targetHttpMethod))
      && (Leaks(secret, fields[3].value) <==> Flagged(secret, api.endpointUrl))
      && (Leaks(secret, fields[5].value) <==> Flagged(secret, api.selectedHeadersDigest))
  {
    var fields := ApiValue(api).fields;
    TextLeaks(secret, fields, 0, api.evidenceRef);
    TextLeaks(secret, fields, 1, api.surfaceOperationRef);
    TextLeaks(secret, fields, 2, api.targetHttpMethod);
    TextLeaks(secret, fields, 3, api.endpointUrl);
    TextLeaks(secret, fields, 5, api.selectedHeadersDigest);
  }

  lemma ApiOptions(secret: JsString -> bool, api: ApiEvidence)
    ensures |ApiValue(api).fields| == 10
    ensures var fields := ApiValue(api).fields;
      && (Leaks(secret, fields[4].value) <==> MaybeFlagged(secret, api.requestBodyDigest))
      && (Leaks(secret, fields[6].value) <==> MaybeFlagged(secret, api.responseDigest))
      && (Leaks(secret, fields[7].value) <==> MaybeFlagged(secret, api.providerRequestRef))
      && (Leaks(secret, fields[8].value) <==> MaybeFlagged(secret, api.providerOperationRef))
      && (Leaks(secret, fields[9].value) <==> AnyFlagged(secret, api.evidenceRefs))
  {
    FieldLeaks(secret, "requestBodyDigest", [], api.requestBodyDigest);
    FieldLeaks(secret, "responseDigest", [], api.responseDigest);
    FieldLeaks(secret, "providerRequestRef", [], api.providerRequestRef);
    FieldLeaks(secret, "providerOperationRef", [], api.providerOperationRef);
    ListLeaks(secret, "evidenceRefs", api.evidenceRefs);
  }

  /** The scan of a call's evidence, likewise. */
  lemma ApiLeaksExactly(secret: JsString -> bool, api: ApiEvidence)
    ensures Leaks(secret, ApiValue(api)) <==> ApiFlagged(secret, api)
  {
    ObjectLeaks(secret, ApiValue(api).fields);
    ApiPlaces(secret, api);
    ApiOptions(secret, api);
    TenFields(secret, ApiValue(api).fields);
    FiveTexts(secret, api.evidenceRef, api.surfaceOperationRef, api.targetHttpMethod, api.endpointUrl,
              api.selectedHeadersDigest);
  }

  // ---------------------------------------------------------- conformance

  predicate Allowed(m: JsString) {
    m == Js("GET") || m == Js("POST") || m == Js("PUT") || m == Js("PATCH") || m == Js("DELETE")
  }

  /** The assertion of conformance returns exactly for the contract that was expected, if one was,
      an allowed method, a path template with a leading "/", nothing dynamic, and no flagged
      text. */
  lemma ConformanceExactly(g: Gateway, gate: VerifiedGate)
    ensures RunInput(g).nonconformance(gate) == None <==>
      && (g.actionContractId == [] || gate.actionContractId == g.actionContractId)
      && Allowed(g.pf.upper(Trim(g.parameters.targetHttpMethod)))
      && g.parameters.shared.pathTemplate != [] && g.parameters.shared.pathTemplate[0] == 47
      && !g.parameters.shared.dynamicEndpointObserved && !g.parameters.shared.dynamicHostObserved
      && !ParametersFlagged(g.secret, g.parameters)
  {
    ParametersLeakExactly(g.secret, g.parameters);
  }

  // --------------------------------------------------- what a gateway runs with

  /** The gateway's own operation ref. */
  function GatewayRef(g: Gateway): JsString {
    if g.surfaceOperationRef == None then Js("surface-op:auth-md:") + g.actionContractId
    else g.surfaceOperationRef.value
  }

  /** The input of a gateway's run. */
  lemma GatewayInputIs(g: Gateway, api: ApiEvidence)
    ensures var input := RunInput(g);
      && input.actionContractId == g.actionContractId && input.greenlightId == g.greenlightId
      && input.parameters == g.parameters && input.surfaceOperationRef == GatewayRef(g)
      && (forall code :: code in input.reasons <==> code in UnsafeReasons(g.pf, g.parameters))
      && (input.reasons != [] ==>
            input.refusalSignal == Signal(None, None, None, None, None, None, Some(g.digests(input.reasons[0])), []))
      && (input.leak(api) == None <==> !ApiFlagged(g.secret, api))
  {
    ApiLeaksExactly(g.secret, api);
  }

  /** The evidence of a failure, as read off a thrown value. */
  predicate Evidence(g: Gateway, s: Signal, f: FailureEvidence) {
    && f.retryability == (match s.retryability case Some(r) => r case None => UnknownRetryability)
    && f.redaction == (match s.redaction case Some(r) => r case None => DigestOnly)
    && f.providerRequestRef == s.providerRequestRef
    && f.providerOperationRef == (match s.providerOperationRef case Some(r) => r case None => GatewayRef(g))
    && f.traceRef == s.traceRef && f.spanRef == s.spanRef
    && (s.diagnosticsDigest != None ==> f.diagnosticsDigest == s.diagnosticsDigest.value)
    && f.evidenceRefs == [Js("evidence:auth-md-protected-api-call-failed:") + GatewayRef(g)] + s.evidenceRefs
  }

  predicate FailureFlagged(secret: JsString -> bool, f: FailureEvidence) {
    || MaybeFlagged(secret, f.providerRequestRef) || Flagged(secret, f.providerOperationRef)
    || Flagged(secret, f.diagnosticsDigest) || MaybeFlagged(secret, f.traceRef) || MaybeFlagged(secret, f.spanRef)
    || AnyFlagged(secret, f.evidenceRefs)
  }

  /** What replaces it when the scan flags one of its texts. */
  function Bare(g: Gateway): FailureEvidence {
    FailureEvidence(UnknownRetryability, DigestOnly, None, GatewayRef(g), None, None, g.digests(Js("redaction_failure")),
                    [Js("evidence:auth-md-protected-api-call-failed:") + GatewayRef(g)])
  }

  /** A failure is reported by its evidence, unless that is flagged. */
  lemma ReportIs(g: Gateway, s: Signal)
    ensures Evidence(g, s, RawFailure(g, s))
    ensures RunInput(g).report(s)
         == if FailureFlagged(g.secret, RawFailure(g, s)) then Bare(g) else RawFailure(g, s)
  {
    FailureLeaks(g.secret, RawFailure(g, s));
  }

  /** What the recorded credential request is the digest of. */
  lemma RequestDigestIs(g: Gateway, gate: VerifiedGate)
    ensures RunInput(g).requestDigest(gate) == g.hash(CanonicalText(Obj(RequestEntries(g, gate))))
  {
    RequestEntriesAre(g, gate);
  }

  function RequestEntries(g: Gateway, gate: VerifiedGate): seq<Field> {
    var p, s := g.parameters, g.parameters.shared;
    [Field(Js("profile"), Str(Js("auth_md_credential_resolution_request.v0"))),
     Field(Js("actionContractId"), Str(gate.actionContractId)), Field(Js("gateAttemptId"), Str(gate.gateAttemptId)),
     Field(Js("protectedResourceMetadataDigest"), Str(s.protectedResourceMetadataDigest)),
     Field(Js("authorizationServerMetadataDigest"), Str(s.authorizationServerMetadataDigest)),
     Field(Js("gatewayCredentialRefDigest"), Str(s.gatewayCredentialRefDigest)),
     Field(Js("providerRegistryRef"), Str(s.providerRegistryRef)),
     Field(Js("providerRegistryDigest"), OrNull(s.providerRegistryDigest)),
     Field(Js("targetHttpMethod"), Str(p.targetHttpMethod)), Field(Js("endpointUrl"), Str(s.endpointUrl)),
     Field(Js("requestBodyDigest"), OrNull(s.requestBodyDigest)),
     Field(Js("selectedHeadersDigest"), Str(s.selectedHeadersDigest)),
     Field(Js("requiredScopes"), Scopes(p.requiredScopes))]
  }

  function Scopes(scopes: seq<JsString>): Json {
    Arr(seq(|scopes|, i requires 0 <= i < |scopes| => Str(scopes[i])))
  }

  lemma ScopesAreListed(scopes: seq<JsString>)
    ensures Scopes(scopes) == TextList("requiredScopes", scopes).value
  {
    assert Scopes(scopes).items == TextList("requiredScopes", scopes).value.items;
  }

  lemma RequestEntriesAre(g: Gateway, gate: VerifiedGate)
    ensures Record(REQUEST_KEYS, RequestValues(g.parameters, gate)) == Obj(RequestEntries(g, gate))
  {
    ScopesAreListed(g.parameters.requiredScopes);
    var zipped, entries := Zip(REQUEST_KEYS, RequestValues(g.parameters, gate)), RequestEntries(g, gate);
    assert |zipped| == |entries|;
    assert zipped[7] == entries[7] && zipped[10] == entries[10] && zipped[12] == entries[12];
    assert zipped == entries;
  }
}
