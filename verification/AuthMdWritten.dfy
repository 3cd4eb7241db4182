/** The calls of an auth.md run written out: what each of them says, and in which order they can come
    (src/adapters/auth-md/gateway.ts, src/adapters/downstream-failure-evidence.ts). */
module AuthMdWritten {
  import opened JsText
  import opened AuthMdActions
  import opened AuthMdRun
  import X402WalletGateway
  import X402Calls

  predicate Checks(input: Input, c: Call) {
    && c.GatewayCheck?
    && c.actionContractId == input.actionContractId && c.greenlightId == input.greenlightId
    && c.parameters == input.parameters && c.surfaceOperationRef == input.surfaceOperationRef
  }

  predicate Records(input: Input, gate: VerifiedGate, c: Call) {
    && c.RecordCredential?
    && c.actionContractId == input.actionContractId && c.greenlightId == input.greenlightId
    && c.gateAttemptId == gate.gateAttemptId
    && c.gatewayCredentialRefId == input.parameters.shared.gatewayCredentialRefId
    && c.gatewayCredentialRefDigest == input.parameters.shared.gatewayCredentialRefDigest
    && c.requestDigest == input.requestDigest(gate)
    && c.providerRequestRef == Js("provider-request:auth-md:") + gate.gateAttemptId
    && c.providerOperationRef == Js("provider-operation:auth-md:") + gate.gateAttemptId
    && c.evidenceRefs == [Js("gateway_credential_ref:") + input.parameters.shared.gatewayCredentialRefId,
                          Js("digest:") + input.parameters.shared.gatewayCredentialRefDigest]
  }

  predicate Calls(input: Input, gate: VerifiedGate, evidence: CredentialEvidence, c: Call) {
    && c.Execute?
    && c.command.gate == gate && c.command.parameters == input.parameters && c.command.evidence == evidence
    && c.command.credentialUseRef == Js("gateway-credential-use:auth-md:") + gate.gateAttemptId
    && c.command.providerRequestRef == Js("provider-request:auth-md:") + gate.gateAttemptId
    && c.command.providerOperationRef == Js("provider-operation:auth-md:") + gate.gateAttemptId
  }

  predicate ReportsCall(gate: VerifiedGate, evidence: CredentialEvidence, api: ApiEvidence, c: Call) {
    && c.Reconcile?
    && c.mutationAttemptId == gate.mutationAttemptId && c.idempotencyKey == gate.idempotencyKey
    && c.observedRef == api.surfaceOperationRef
    && c.status
       == (match api.status case ApiSucceeded => Succeeded case ApiRefused => Refused case ApiUnknown => Unknown)
    && c.retryability
       == (match api.status
           case ApiSucceeded => NonRetryable case ApiRefused => NonRetryable case ApiUnknown => UnknownRetryability)
    && c.providerRequest == api.providerRequestRef && c.providerOperation == api.providerOperationRef
    && c.redaction == RedactedDiagnostics && c.report == OfCall(api)
    && c.evidenceRefs
       == [api.evidenceRef] + api.evidenceRefs + [Js("credential_resolution_evidence:") + evidence.evidenceId]
          + X402Calls.DigestRef(api.responseDigest)
  }

  function Recorded(recorded: Option<CredentialEvidence>): seq<JsString> {
    match recorded
    case None => []
    case Some(e) => [Js("credential_resolution_evidence:") + e.evidenceId]
  }

  predicate Reports(input: Input, gate: VerifiedGate, status: Status, signal: Signal, refs: seq<JsString>, c: Call) {
    var f := input.report(signal);
    && c.Reconcile?
    && c.mutationAttemptId == gate.mutationAttemptId && c.idempotencyKey == gate.idempotencyKey
    && c.observedRef == input.surfaceOperationRef && c.status == status
    && c.retryability == f.retryability && c.providerRequest == f.providerRequestRef
    && c.providerOperation == Some(f.providerOperationRef) && c.redaction == f.redaction
    && c.report == OfFailure(f) && c.evidenceRefs == f.evidenceRefs + refs
  }

  predicate ReportsFailure(input: Input, gate: VerifiedGate, recorded: Option<CredentialEvidence>, signal: Signal,
                           c: Call) {
    Reports(input, gate, Failed, signal, Recorded(recorded), c)
  }

  /** What is known of a call that did not answer. */
  function Thrown(reply: Reply): Signal {
    match reply
    case Threw(signal) => signal
    case _ => Signal(None, None, None, None, None, None, None, [])
  }

  /** What follows a call of the API. */
  predicate AfterApi(input: Input, gate: VerifiedGate, evidence: CredentialEvidence, reply: Reply, rest: seq<Event>) {
    match reply
    case ApiReply(api) =>
      (match input.leak(api)
       case Some(signal) => |rest| == 1 && ReportsFailure(input, gate, Some(evidence), signal, rest[0].call)
       case None =>
         && rest != [] && ReportsCall(gate, evidence, api, rest[0].call)
         && (if rest[0].reply.ReconcileReply? then |rest| == 1
             else |rest| == 2 && ReportsFailure(input, gate, Some(evidence), Thrown(rest[0].reply), rest[1].call)))
    case _ => |rest| == 1 && ReportsFailure(input, gate, Some(evidence), Thrown(reply), rest[0].call)
  }

  /** What follows a recorded credential. */
  predicate AfterCredential(input: Input, gate: VerifiedGate, evidence: CredentialEvidence, rest: seq<Event>) {
    match input.nonconformance(gate)
    case Some(signal) => |rest| == 1 && ReportsFailure(input, gate, Some(evidence), signal, rest[0].call)
    case None =>
      && rest != [] && Calls(input, gate, evidence, rest[0].call)
      && AfterApi(input, gate, evidence, rest[0].reply, rest[1..])
  }

  /** The refusal of unsafe parameters: every reason is cited, in order. */
  predicate Refuses(input: Input, gate: VerifiedGate, c: Call) {
    var f := input.report(input.refusalSignal);
    && c.Reconcile? && |c.evidenceRefs| == |f.evidenceRefs| + |input.reasons|
    && (forall i :: 0 <= i < |input.reasons| ==>
          c.evidenceRefs[|f.evidenceRefs| + i] == Js("reason_code:") + input.reasons[i])
    && Reports(input, gate, Refused, input.refusalSignal, c.evidenceRefs[|f.evidenceRefs|..], c)
  }

  /** What follows a verified gate. */
  predicate AfterVerified(input: Input, gate: VerifiedGate, rest: seq<Event>) {
    if input.reasons != [] then |rest| == 1 && Refuses(input, gate, rest[0].call)
    else
      && rest != [] && Records(input, gate, rest[0].call)
      && (match rest[0].reply
          case CredentialReply(evidence) => AfterCredential(input, gate, evidence, rest[1..])
          case _ => |rest| == 2 && ReportsFailure(input, gate, None, Thrown(rest[0].reply), rest[1].call))
  }

  /** A whole run: the check, and exactly for a verified gate what follows it. */
  predicate WrittenOut(input: Input, t: seq<Event>) {
    && t != [] && Checks(input, t[0].call)
    && (match GateOf(t[0].reply)
        case None => |t| == 1
        case Some(gate) => AfterVerified(input, gate, t[1..]))
  }

  lemma ThrownIs(reply: Reply)
    ensures SignalOf(reply) == Thrown(reply)
  {
  }

  lemma FromFailure(input: Input, gate: VerifiedGate, recorded: Option<CredentialEvidence>, signal: Signal,
                    replies: seq<Reply>)
    ensures var t := Trace(input, AtFailure(gate, recorded, signal), replies);
      |t| == 1 && ReportsFailure(input, gate, recorded, signal, t[0].call)
  {
    TraceStep(input, AtFailure(gate, recorded, signal), replies);
  }

  lemma FromReconcile(input: Input, gate: VerifiedGate, evidence: CredentialEvidence, api: ApiEvidence,
                      replies: seq<Reply>)
    requires input.leak(api).None?
    ensures AfterApi(input, gate, evidence, ApiReply(api), Trace(input, AtReconcile(gate, evidence, api), replies))
  {
    TraceStep(input, AtReconcile(gate, evidence, api), replies);
    ThrownIs(Head(replies));
    CallIsWritten(gate, evidence, api);
    if !Head(replies).ReconcileReply? {
      FromFailure(input, gate, Some(evidence), SignalOf(Head(replies)), Tail(replies));
    }
  }

  lemma CallIsWritten(gate: VerifiedGate, evidence: CredentialEvidence, api: ApiEvidence)
    ensures ReportsCall(gate, evidence, api, ReconcileCallFor(gate, evidence, api))
  {
  }

  lemma FromCall(input: Input, gate: VerifiedGate, evidence: CredentialEvidence, reply: Reply, replies: seq<Reply>)
    ensures AfterApi(input, gate, evidence, reply, Trace(input, Next(input, AtExecute(gate, evidence), reply), replies))
  {
    ThrownIs(reply);
    match reply
    case ApiReply(api) =>
      if input.leak(api).Some? {
        FromFailure(input, gate, Some(evidence), input.leak(api).value, replies);
      } else {
        FromReconcile(input, gate, evidence, api, replies);
      }
    case _ => FromFailure(input, gate, Some(evidence), SignalOf(reply), replies);
  }

  lemma FromCredential(input: Input, gate: VerifiedGate, evidence: CredentialEvidence, replies: seq<Reply>)
    ensures AfterCredential(input, gate, evidence, Trace(input, AfterRecord(input, gate, evidence), replies))
  {
    match input.nonconformance(gate)
    case Some(signal) => FromFailure(input, gate, Some(evidence), signal, replies);
    case None =>
      TraceStep(input, AtExecute(gate, evidence), replies);
      FromCall(input, gate, evidence, Head(replies), Tail(replies));
      var t := Trace(input, AtExecute(gate, evidence), replies);
      assert t[1..] == Trace(input, Next(input, AtExecute(gate, evidence), Head(replies)), Tail(replies));
  }

  lemma RefusalIsWritten(input: Input, gate: VerifiedGate)
    ensures Refuses(input, gate, Pending(input, AtRefusal(gate)))
  {
    var f, c := input.report(input.refusalSignal), Pending(input, AtRefusal(gate));
    assert c.evidenceRefs == f.evidenceRefs + ReasonRefs(input.reasons);
    assert c.evidenceRefs[|f.evidenceRefs|..] == ReasonRefs(input.reasons);
  }

  lemma FromRecording(input: Input, gate: VerifiedGate, replies: seq<Reply>)
    requires input.reasons == []
    ensures AfterVerified(input, gate, Trace(input, AtRecord(gate), replies))
  {
    TraceStep(input, AtRecord(gate), replies);
    ThrownIs(Head(replies));
    var t := Trace(input, AtRecord(gate), replies);
    assert t[1..] == Trace(input, Next(input, AtRecord(gate), Head(replies)), Tail(replies));
    match Head(replies)
    case CredentialReply(evidence) => FromCredential(input, gate, evidence, Tail(replies));
    case _ => FromFailure(input, gate, None, SignalOf(Head(replies)), Tail(replies));
  }

  lemma FromGate(input: Input, gate: VerifiedGate, replies: seq<Reply>)
    ensures AfterVerified(input, gate, Trace(input, AfterGate(input, gate), replies))
  {
    if input.reasons == [] {
      FromRecording(input, gate, replies);
    } else {
      TraceStep(input, AtRefusal(gate), replies);
      RefusalIsWritten(input, gate);
    }
  }

  /** For every input and script of replies, every call of the run is the one written out here. */
  lemma RunsAreWrittenOut(input: Input, replies: seq<Reply>)
    ensures WrittenOut(input, Run(input, replies))
  {
    TraceStep(input, AtCheck, replies);
    var gate := GateOf(Head(replies));
    if gate.Some? {
      FromGate(input, gate.value, Tail(replies));
      assert Run(input, replies)[1..] == Trace(input, AfterGate(input, gate.value), Tail(replies));
    }
  }

  /** The outcome, from the last call and its reply. */
  lemma OutcomeIsWrittenOut(input: Input, replies: seq<Reply>)
    requires GateOf(Head(replies)).Some?
    ensures Run(input, replies) != []
    ensures var last := Run(input, replies)[|Run(input, replies)| - 1];
      && last.call.Reconcile?
      && Result(input, replies) == (
           if !last.reply.ReconcileReply? then Rejected
           else match last.call.report
             case OfFailure(_) => Returned(CallFailed)
             case OfCall(api) =>
               match api.status
               case ApiSucceeded => Returned(CallReconciled)
               case ApiRefused => Returned(CallRefused)
               case ApiUnknown => Returned(CallProofGap))
  {
    VerifiedRunsEndReconciled(input, replies);
  }

  /** Without a verified gate: refused, not authoritative, or thrown. */
  lemma UnverifiedOutcome(input: Input, replies: seq<Reply>)
    requires GateOf(Head(replies)).None?
    ensures Result(input, replies) == (match Head(replies)
      case CheckReply(r) =>
        Returned(if r.decision == X402WalletGateway.GateRefused then CheckRefused else CheckNotAuthoritative)
      case _ => Rejected)
  {
    TraceStep(input, AtCheck, replies);
  }
}
