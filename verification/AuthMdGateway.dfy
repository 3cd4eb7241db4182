/** The auth.md gateway: the checks it makes between the calls of a run, over the leak scanner and
    the two checkpoints, and what its runs keep to (src/adapters/auth-md/gateway.ts). */
module AuthMdGateway {
  import opened JsText
  import opened JsonValues
  import opened Canonical
  import opened Digests
  import opened AuthMdActions
  import opened LeakScanner
  import opened AuthMdRun

  /** `digests` names the diagnostics digest computed for an error code; `secret` the texts that
      match a secret pattern. */
  datatype Gateway = Gateway(
    pf: Platform, hash: Hash, secret: JsString -> bool, digests: JsString -> JsString,
    actionContractId: JsString, greenlightId: JsString, parameters: Parameters,
    surfaceOperationRef: Option<JsString>)

  function OperationRef(g: Gateway): JsString {
    match g.surfaceOperationRef
    case Some(ref) => ref
    case None => Js("surface-op:auth-md:") + g.actionContractId
  }

  // -------------------------------------------------------- values to scan

  function Texts(key: string, s: JsString): Field {
    Field(Js(key), Str(s))
  }

  function MaybeText(key: string, s: Option<JsString>): Field {
    Field(Js(key), match s case Some(t) => Str(t) case None => Null)
  }

  function TextList(key: string, s: seq<JsString>): Field {
    Field(Js(key), Arr(seq(|s|, i requires 0 <= i < |s| => Str(s[i]))))
  }

  /** The free texts of the parameters. */
  function ParametersValue(p: Parameters): Json {
    Obj([Texts("protectedResource", p.shared.protectedResource),
         Texts("protectedResourceOrigin", p.protectedResourceOrigin),
         Texts("protectedResourceMetadataDigest", p.shared.protectedResourceMetadataDigest),
         Texts("authorizationServerMetadataDigest", p.shared.authorizationServerMetadataDigest),
         Texts("authorizationServer", p.shared.authorizationServer),
         Texts("targetHttpMethod", p.targetHttpMethod),
         Texts("endpointUrl", p.shared.endpointUrl),
         Texts("endpointOrigin", p.endpointOrigin),
         Texts("pathTemplate", p.shared.pathTemplate),
         MaybeText("requestBodyDigest", p.shared.requestBodyDigest),
         Texts("selectedHeadersDigest", p.shared.selectedHeadersDigest),
         TextList("requiredScopes", p.requiredScopes),
         Texts("gatewayCredentialRefId", p.shared.gatewayCredentialRefId),
         Texts("gatewayCredentialRefDigest", p.shared.gatewayCredentialRefDigest),
         Texts("providerRegistryRef", p.shared.providerRegistryRef),
         MaybeText("providerRegistryDigest", p.shared.providerRegistryDigest),
         Texts("operationId", p.shared.operationId)])
  }

  function ApiValue(e: ApiEvidence): Json {
    Obj([Texts("evidenceRef", e.evidenceRef),
         Texts("surfaceOperationRef", e.surfaceOperationRef),
         Texts("targetHttpMethod", e.targetHttpMethod),
         Texts("endpointUrl", e.endpointUrl),
         MaybeText("requestBodyDigest", e.requestBodyDigest),
         Texts("selectedHeadersDigest", e.selectedHeadersDigest),
         MaybeText("responseDigest", e.responseDigest),
         MaybeText("providerRequestRef", e.providerRequestRef),
         MaybeText("providerOperationRef", e.providerOperationRef),
         TextList("evidenceRefs", e.evidenceRefs)])
  }

  function FailureValue(f: FailureEvidence): Json {
    Obj([MaybeText("providerRequestRef", f.providerRequestRef),
         Texts("providerOperationRef", f.providerOperationRef),
         Texts("redactedDiagnosticsDigest", f.diagnosticsDigest),
         MaybeText("traceRef", f.traceRef),
         MaybeText("spanRef", f.spanRef),
         TextList("evidenceRefs", f.evidenceRefs)])
  }

  predicate Leaks(secret: JsString -> bool, v: Json) {
    FirstFlagged(Flags(secret), v).Some?
  }

  /** `assertNoLeakedAuthMdCredentialMaterial`, as whether it throws. */
  method FindLeak(secret: JsString -> bool, v: Json) returns (leaks: bool)
    ensures leaks <==> Leaks(secret, v)
  {
    var path := FindCredentialMaterialPath(secret, v, Js("$"));
    leaks := path.Some?;
  }

  // ------------------------------------------------------------ conformance

  const DRIFT: JsString := Js("auth_md_profile_params_digest_drift")

  const ROOT: CodeUnit := 47

  predicate IsAllowedMethod(g: Gateway) {
    var m := g.pf.upper(Trim(g.parameters.targetHttpMethod));
    m == Js("GET") || m == Js("POST") || m == Js("PUT") || m == Js("PATCH") || m == Js("DELETE")
  }

  predicate TransportIsExact(g: Gateway) {
    var shared := g.parameters.shared;
    && IsAllowedMethod(g)
    && shared.pathTemplate != [] && shared.pathTemplate[0] == ROOT
    && !shared.dynamicEndpointObserved && !shared.dynamicHostObserved
  }

  predicate Conforms(g: Gateway, gate: VerifiedGate) {
    && (g.actionContractId == [] || gate.actionContractId == g.actionContractId)
    && TransportIsExact(g)
    && !Leaks(g.secret, ParametersValue(g.parameters))
  }

  predicate BoundAndExact(g: Gateway, gate: VerifiedGate) {
    (g.actionContractId == [] || gate.actionContractId == g.actionContractId) && TransportIsExact(g)
  }

  /** The signal of an error raised here: it has a code, or none for the leak error, and no refs. */
  function LocalSignal(g: Gateway, code: JsString): Signal {
    Signal(None, None, None, None, None, None, Some(g.digests(code)), [])
  }

  /** What `assertAuthMdProfileConformance` throws. */
  function Nonconformance(g: Gateway, gate: VerifiedGate): Option<Signal> {
    if !BoundAndExact(g, gate) then Some(LocalSignal(g, DRIFT))
    else if Leaks(g.secret, ParametersValue(g.parameters)) then Some(LocalSignal(g, []))
    else None
  }

  /** `assertAuthMdProfileConformance`. */
  method AssertConformance(g: Gateway, gate: VerifiedGate) returns (thrown: Option<Signal>)
    ensures thrown == Nonconformance(g, gate)
    ensures thrown.None? <==> Conforms(g, gate)
  {
    if g.actionContractId != [] && gate.actionContractId != g.actionContractId {
      return Some(LocalSignal(g, DRIFT));
    }
    if !TransportIsExact(g) {
      return Some(LocalSignal(g, DRIFT));
    }
    var leaks := FindLeak(g.secret, ParametersValue(g.parameters));
    return if leaks then Some(LocalSignal(g, [])) else None;
  }

  // ---------------------------------------------------------- failure reports

  function FailureRef(g: Gateway): JsString {
    Js("evidence:auth-md-protected-api-call-failed:") + OperationRef(g)
  }

  /** `downstreamFailureEvidence`. */
  function RawFailure(g: Gateway, signal: Signal): FailureEvidence {
    FailureEvidence((match signal.retryability case Some(r) => r case None => UnknownRetryability),
                    (match signal.redaction case Some(r) => r case None => DigestOnly),
                    signal.providerRequestRef,
                    (match signal.providerOperationRef case Some(r) => r case None => OperationRef(g)),
                    signal.traceRef, signal.spanRef,
                    (match signal.diagnosticsDigest case Some(d) => d case None => g.digests([])),
                    [FailureRef(g)] + signal.evidenceRefs)
  }

  /** What is reported instead when the failure evidence itself leaks. */
  function BareFailure(g: Gateway): FailureEvidence {
    FailureEvidence(UnknownRetryability, DigestOnly, None, OperationRef(g), None, None,
                    g.digests(Js("redaction_failure")), [FailureRef(g)])
  }

  /** What `redactedAuthMdFailureEvidence` returns. */
  function RedactedFailure(g: Gateway, signal: Signal): (evidence: FailureEvidence)
    ensures evidence == BareFailure(g) || !Leaks(g.secret, FailureValue(evidence))
  {
    if Leaks(g.secret, FailureValue(RawFailure(g, signal))) then BareFailure(g) else RawFailure(g, signal)
  }

  method RedactFailure(g: Gateway, signal: Signal) returns (evidence: FailureEvidence)
    ensures evidence == RedactedFailure(g, signal)
    ensures Leaks(g.secret, FailureValue(evidence)) <==>
      Leaks(g.secret, FailureValue(RawFailure(g, signal))) && Leaks(g.secret, FailureValue(BareFailure(g)))
  {
    evidence := RawFailure(g, signal);
    var leaks := FindLeak(g.secret, FailureValue(evidence));
    if leaks {
      evidence := BareFailure(g);
    }
  }

  // ------------------------------------------------------------------- runs

  function Conformance(g: Gateway): VerifiedGate -> Option<Signal> {
    gate => Nonconformance(g, gate)
  }

  /** `assertNoLeakedAuthMdCredentialMaterial(apiCallEvidence)`. */
  function ApiLeak(g: Gateway): ApiEvidence -> Option<Signal> {
    api => if Leaks(g.secret, ApiValue(api)) then Some(LocalSignal(g, [])) else None
  }

  function Reporting(g: Gateway): Signal -> FailureEvidence {
    signal => RedactedFailure(g, signal)
  }

  const REQUEST_KEYS: seq<JsString> :=
    [Js("profile"), Js("actionContractId"), Js("gateAttemptId"), Js("protectedResourceMetadataDigest"),
     Js("authorizationServerMetadataDigest"), Js("gatewayCredentialRefDigest"), Js("providerRegistryRef"),
     Js("providerRegistryDigest"), Js("targetHttpMethod"), Js("endpointUrl"), Js("requestBodyDigest"),
     Js("selectedHeadersDigest"), Js("requiredScopes")]

  function RequestValues(p: Parameters, gate: VerifiedGate): (values: seq<Json>)
    ensures |values| == 13
  {
    [Str(Js("auth_md_credential_resolution_request.v0")), Str(gate.actionContractId), Str(gate.gateAttemptId),
     Str(p.shared.protectedResourceMetadataDigest), Str(p.shared.authorizationServerMetadataDigest),
     Str(p.shared.gatewayCredentialRefDigest), Str(p.shared.providerRegistryRef),
     NullableStr(p.shared.providerRegistryDigest), Str(p.targetHttpMethod), Str(p.shared.endpointUrl),
     NullableStr(p.shared.requestBodyDigest), Str(p.shared.selectedHeadersDigest),
     TextList("requiredScopes", p.requiredScopes).value]
  }

  /** `credentialResolutionRequestDigest`. */
  function RequestDigest(g: Gateway): VerifiedGate -> JsString {
    gate => g.hash(CanonicalText(Record(REQUEST_KEYS, RequestValues(g.parameters, gate))))
  }

  function FirstCode(reasons: seq<JsString>): JsString {
    if reasons == [] then [] else reasons[0]
  }

  /** The run a gateway makes. */
  function RunInput(g: Gateway): Input {
    var reasons := UnsafeReasons(g.pf, g.parameters);
    Input(g.actionContractId, g.greenlightId, g.parameters, OperationRef(g), reasons,
          LocalSignal(g, FirstCode(reasons)), Conformance(g), ApiLeak(g), Reporting(g), RequestDigest(g))
  }

  /** A gateway's run against an environment. */
  method RunGateway(env: Environment, g: Gateway) returns (result: RunState)
    modifies env
    ensures env.trace == old(env.trace) + Run(RunInput(g), old(env.replies))
    ensures result == Result(RunInput(g), old(env.replies))
  {
    result := RunProtectedApiCallGateway(env, RunInput(g));
  }

  /** The runtime and the gateway together: for parameters built from an attempt, a verified run
      gets past the refusal exactly when the runtime's only objection, if any, is missing
      idempotency material. */
  lemma RunFollowsTheRuntime(a: Attempt, g: Gateway, replies: seq<Reply>)
    requires UpperCasesOnce(g.pf) && BuildParameters(g.pf, a) == Some(g.parameters)
    requires GateOf(Head(replies)).Some?
    ensures |Run(RunInput(g), replies)| >= 2
    ensures Run(RunInput(g), replies)[1].call.RecordCredential?
       <==> Elements(RefusalReasons(g.pf, a)) <= {IDEMPOTENCY_MISSING}
  {
    CheckpointsAgree(g.pf, a, g.parameters);
    NothingElse(RefusalReasons(g.pf, a));
    SecondCall(RunInput(g), replies);
  }

  lemma NothingElse(codes: seq<JsString>)
    ensures Without(codes, IDEMPOTENCY_MISSING) == [] <==> Elements(codes) <= {IDEMPOTENCY_MISSING}
  {
    var kept := Without(codes, IDEMPOTENCY_MISSING);
    if kept != [] {
      assert kept[0] in kept;
      assert kept[0] in Elements(codes);
    } else {
      forall c | c in Elements(codes) ensures c == IDEMPOTENCY_MISSING {
        assert c !in kept;
      }
    }
  }

  /** The protected API is called only with safe parameters, on a transport that is exactly the
      profile's, for the contract the run was given, and with no leak in the parameters. */
  lemma ApiCallIsChecked(g: Gateway, replies: seq<Reply>, i: nat)
    requires i < |Run(RunInput(g), replies)| && Run(RunInput(g), replies)[i].call.Execute?
    ensures i == 2 && UnsafeReasons(g.pf, g.parameters) == []
    ensures Conforms(g, Run(RunInput(g), replies)[2].call.command.gate)
    ensures Run(RunInput(g), replies)[2].call.command.parameters == g.parameters
  {
    ApiCallIsPermitted(RunInput(g), replies, i);
    ConformsMeans(g, Run(RunInput(g), replies)[2].call.command.gate);
  }

  lemma ConformsMeans(g: Gateway, gate: VerifiedGate)
    ensures RunInput(g).nonconformance(gate).None? <==> Conforms(g, gate)
  {
  }
}
