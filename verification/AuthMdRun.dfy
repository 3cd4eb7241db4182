/** One run of the auth.md gateway against a protocol and an API surface either of which may throw
    at any call: the gateway check, the refusal of unsafe parameters, the recording of the
    credential, the protected API call, and its reconciliation (src/adapters/auth-md/gateway.ts).
    The checks made between the calls are given as functions. */
module AuthMdRun {
  import opened JsText
  import opened AuthMdActions
  import X402WalletGateway

  type VerifiedGate = X402WalletGateway.VerifiedGate
  type GatewayCheckResult = X402WalletGateway.GatewayCheckResult
  type CredentialEvidence = X402WalletGateway.CredentialEvidence

  // ---------------------------------------------------------------- records

  datatype Status = Succeeded | Refused | Unknown | Failed

  datatype ApiEvidence = ApiEvidence(
    evidenceRef: JsString, surfaceOperationRef: JsString, targetHttpMethod: JsString, endpointUrl: JsString,
    requestBodyDigest: Option<JsString>, selectedHeadersDigest: JsString, responseDigest: Option<JsString>,
    status: ApiStatus, providerRequestRef: Option<JsString>, providerOperationRef: Option<JsString>,
    evidenceRefs: seq<JsString>)

  datatype ApiStatus = ApiSucceeded | ApiRefused | ApiUnknown

  datatype Retryability = Retryable | NonRetryable | UnknownRetryability

  datatype Redaction = RedactedDiagnostics | DigestOnly | NoDiagnostics | UnknownDiagnostics

  /** What `downstreamFailureEvidence` reads off a thrown value. */
  datatype Signal = Signal(
    retryability: Option<Retryability>, redaction: Option<Redaction>, providerRequestRef: Option<JsString>,
    providerOperationRef: Option<JsString>, traceRef: Option<JsString>, spanRef: Option<JsString>,
    diagnosticsDigest: Option<JsString>, evidenceRefs: seq<JsString>)

  /** What a reconciliation reports of a failure. */
  datatype FailureEvidence = FailureEvidence(
    retryability: Retryability, redaction: Redaction, providerRequestRef: Option<JsString>,
    providerOperationRef: JsString, traceRef: Option<JsString>, spanRef: Option<JsString>,
    diagnosticsDigest: JsString, evidenceRefs: seq<JsString>)

  /** A run's input, and what is checked on the way: the reasons why the observed parameters are
      unsafe; what the conformance assertion throws for a gate; what the leak scan of the call's
      evidence throws; how a thrown value is reported; and the digest of the credential request. */
  datatype Input = Input(
    actionContractId: JsString, greenlightId: JsString, parameters: Parameters, surfaceOperationRef: JsString,
    reasons: seq<JsString>, refusalSignal: Signal,
    nonconformance: VerifiedGate -> Option<Signal>,
    leak: ApiEvidence -> Option<Signal>,
    report: Signal -> FailureEvidence,
    requestDigest: VerifiedGate -> JsString)

  // -------------------------------------------------------- calls and replies

  datatype Command = Command(
    gate: VerifiedGate, parameters: Parameters, evidence: CredentialEvidence,
    credentialUseRef: JsString, providerRequestRef: JsString, providerOperationRef: JsString)

  datatype Call =
    | GatewayCheck(actionContractId: JsString, greenlightId: JsString, parameters: Parameters,
                   surfaceOperationRef: JsString)
    | RecordCredential(actionContractId: JsString, greenlightId: JsString, gateAttemptId: JsString,
                       gatewayCredentialRefId: JsString, gatewayCredentialRefDigest: JsString,
                       requestDigest: JsString, providerRequestRef: JsString, providerOperationRef: JsString,
                       evidenceRefs: seq<JsString>)
    | Execute(command: Command)
    | Reconcile(mutationAttemptId: JsString, idempotencyKey: JsString, observedRef: JsString, status: Status,
                retryability: Retryability, providerRequest: Option<JsString>,
                providerOperation: Option<JsString>, redaction: Redaction, report: Report, evidenceRefs: seq<JsString>)

  /** What a reconciliation is based on. */
  datatype Report = OfCall(api: ApiEvidence) | OfFailure(failure: FailureEvidence)

  datatype Reply =
    | CheckReply(result: GatewayCheckResult)
    | CredentialReply(evidence: CredentialEvidence)
    | ApiReply(api: ApiEvidence)
    | ReconcileReply
    | Threw(signal: Signal)

  datatype Event = Event(call: Call, reply: Reply)

  datatype Outcome = CheckRefused | CheckNotAuthoritative | CallReconciled | CallRefused | CallProofGap | CallFailed

  /** `providerRefsForGate`. */
  function ProviderRequestRef(gate: VerifiedGate): JsString {
    Js("provider-request:auth-md:") + gate.gateAttemptId
  }

  function ProviderOperationRef(gate: VerifiedGate): JsString {
    Js("provider-operation:auth-md:") + gate.gateAttemptId
  }

  function GateCommand(input: Input, gate: VerifiedGate, evidence: CredentialEvidence): Command {
    Command(gate, input.parameters, evidence, Js("gateway-credential-use:auth-md:") + gate.gateAttemptId,
            ProviderRequestRef(gate), ProviderOperationRef(gate))
  }

  function RecordCall(input: Input, gate: VerifiedGate): Call {
    var shared := input.parameters.shared;
    RecordCredential(input.actionContractId, input.greenlightId, gate.gateAttemptId, shared.gatewayCredentialRefId,
                     shared.gatewayCredentialRefDigest, input.requestDigest(gate), ProviderRequestRef(gate),
                     ProviderOperationRef(gate),
                     [Js("gateway_credential_ref:") + shared.gatewayCredentialRefId,
                      Js("digest:") + shared.gatewayCredentialRefDigest])
  }

  function CredentialRefs(recorded: Option<CredentialEvidence>): seq<JsString> {
    match recorded
    case Some(e) => [Js("credential_resolution_evidence:") + e.evidenceId]
    case None => []
  }

  function ReasonRefs(reasons: seq<JsString>): seq<JsString> {
    seq(|reasons|, i requires 0 <= i < |reasons| => Js("reason_code:") + reasons[i])
  }

  function ApiRefs(api: ApiEvidence, evidence: CredentialEvidence): seq<JsString> {
    [api.evidenceRef] + api.evidenceRefs + CredentialRefs(Some(evidence))
    + (if api.responseDigest.Some? && api.responseDigest.value != []
       then [Js("digest:") + api.responseDigest.value] else [])
  }

  function StatusOf(api: ApiEvidence): Status {
    match api.status
    case ApiSucceeded => Succeeded
    case ApiRefused => Refused
    case ApiUnknown => Unknown
  }

  /** `downstreamRetryabilityFor`. */
  function RetryabilityFor(api: ApiEvidence): Retryability {
    if api.status.ApiUnknown? then UnknownRetryability else NonRetryable
  }

  function ReconcileCallFor(gate: VerifiedGate, evidence: CredentialEvidence, api: ApiEvidence): Call {
    Reconcile(gate.mutationAttemptId, gate.idempotencyKey, api.surfaceOperationRef, StatusOf(api), RetryabilityFor(api),
              api.providerRequestRef, api.providerOperationRef, RedactedDiagnostics, OfCall(api),
              ApiRefs(api, evidence))
  }

  /** `outcomeFor`. */
  function OutcomeFor(api: ApiEvidence): Outcome {
    if api.status.ApiSucceeded? then CallReconciled
    else if api.status.ApiRefused? then CallRefused
    else CallProofGap
  }

  // --------------------------------------------------- the run, call by call

  datatype RunState =
    | AtCheck
    | AtRefusal(gate: VerifiedGate)
    | AtRecord(gate: VerifiedGate)
    | AtExecute(gate: VerifiedGate, evidence: CredentialEvidence)
    | AtReconcile(gate: VerifiedGate, evidence: CredentialEvidence, api: ApiEvidence)
    | AtFailure(gate: VerifiedGate, recorded: Option<CredentialEvidence>, signal: Signal)
    | Returned(outcome: Outcome)
    | Rejected

  predicate Finished(s: RunState) {
    s.Returned? || s.Rejected?
  }

  function FailureCall(input: Input, gate: VerifiedGate, status: Status, signal: Signal, refs: seq<JsString>): Call {
    var failure := input.report(signal);
    Reconcile(gate.mutationAttemptId, gate.idempotencyKey, input.surfaceOperationRef, status, failure.retryability,
              failure.providerRequestRef, Some(failure.providerOperationRef), failure.redaction, OfFailure(failure),
              failure.evidenceRefs + refs)
  }

  function Pending(input: Input, s: RunState): Call
    requires !Finished(s)
  {
    match s
    case AtCheck =>
      GatewayCheck(input.actionContractId, input.greenlightId, input.parameters, input.surfaceOperationRef)
    case AtRefusal(gate) => FailureCall(input, gate, Refused, input.refusalSignal, ReasonRefs(input.reasons))
    case AtRecord(gate) => RecordCall(input, gate)
    case AtExecute(gate, evidence) => Execute(GateCommand(input, gate, evidence))
    case AtReconcile(gate, evidence, api) => ReconcileCallFor(gate, evidence, api)
    case AtFailure(gate, recorded, signal) => FailureCall(input, gate, Failed, signal, CredentialRefs(recorded))
  }

  /** The signal of a call that did not answer; an answer of another call's shape says nothing. */
  function SignalOf(reply: Reply): Signal {
    if reply.Threw? then reply.signal else NO_SIGNAL
  }

  function Next(input: Input, s: RunState, reply: Reply): RunState
    requires !Finished(s)
  {
    match s
    case AtCheck => AfterCheck(input, reply)
    case AtRefusal(_) => if reply.ReconcileReply? then Returned(CallFailed) else Rejected
    case AtRecord(gate) =>
      if reply.CredentialReply? then AfterRecord(input, gate, reply.evidence)
      else AtFailure(gate, None, SignalOf(reply))
    case AtExecute(gate, evidence) =>
      if reply.ApiReply? then AfterCall(input, gate, evidence, reply.api)
      else AtFailure(gate, Some(evidence), SignalOf(reply))
    case AtReconcile(gate, evidence, api) =>
      if reply.ReconcileReply? then Returned(OutcomeFor(api))
      else AtFailure(gate, Some(evidence), SignalOf(reply))
    case AtFailure(_, _, _) => if reply.ReconcileReply? then Returned(CallFailed) else Rejected
  }

  function AfterCheck(input: Input, reply: Reply): RunState {
    if !reply.CheckReply? then Rejected
    else
      match X402WalletGateway.VerifiedGateFrom(reply.result)
      case Some(gate) => AfterGate(input, gate)
      case None => Returned(if reply.result.decision.GateRefused? then CheckRefused else CheckNotAuthoritative)
  }

  function AfterGate(input: Input, gate: VerifiedGate): RunState {
    if input.reasons != [] then AtRefusal(gate) else AtRecord(gate)
  }

  function AfterRecord(input: Input, gate: VerifiedGate, evidence: CredentialEvidence): RunState {
    match input.nonconformance(gate)
    case None => AtExecute(gate, evidence)
    case Some(signal) => AtFailure(gate, Some(evidence), signal)
  }

  function AfterCall(input: Input, gate: VerifiedGate, evidence: CredentialEvidence, api: ApiEvidence): RunState {
    match input.leak(api)
    case None => AtReconcile(gate, evidence, api)
    case Some(signal) => AtFailure(gate, Some(evidence), signal)
  }

  function Remaining(s: RunState): nat {
    match s
    case AtCheck => 5
    case AtRecord(_) => 4
    case AtExecute(_, _) => 3
    case AtReconcile(_, _, _) => 2
    case AtFailure(_, _, _) => 1
    case AtRefusal(_) => 1
    case _ => 0
  }

  const NO_SIGNAL: Signal := Signal(None, None, None, None, None, None, None, [])

  function Head(replies: seq<Reply>): Reply {
    if replies == [] then Threw(NO_SIGNAL) else replies[0]
  }

  function Tail(replies: seq<Reply>): seq<Reply> {
    if replies == [] then [] else replies[1..]
  }

  function Trace(input: Input, s: RunState, replies: seq<Reply>): seq<Event>
    decreases Remaining(s)
  {
    if Finished(s) then []
    else
      [Event(Pending(input, s), Head(replies))]
      + Trace(input, Next(input, s, Head(replies)), Tail(replies))
  }

  function Final(input: Input, s: RunState, replies: seq<Reply>): (f: RunState)
    ensures Finished(f)
    decreases Remaining(s)
  {
    if Finished(s) then s else Final(input, Next(input, s, Head(replies)), Tail(replies))
  }

  /** One call of a run, followed by the rest. */
  lemma TraceStep(input: Input, s: RunState, replies: seq<Reply>)
    requires !Finished(s)
    ensures var next := Next(input, s, Head(replies));
      && Trace(input, s, replies) == [Event(Pending(input, s), Head(replies))] + Trace(input, next, Tail(replies))
      && Final(input, s, replies) == Final(input, next, Tail(replies))
      && (Finished(next) ==> Trace(input, s, replies) == [Event(Pending(input, s), Head(replies))]
                             && Final(input, s, replies) == next)
  {
  }

  /** The same for a trace that continues another. */
  lemma TraceAfter(before: seq<Event>, input: Input, s: RunState, replies: seq<Reply>)
    requires !Finished(s)
    ensures var next := Next(input, s, Head(replies));
      && before + Trace(input, s, replies)
         == before + [Event(Pending(input, s), Head(replies))] + Trace(input, next, Tail(replies))
      && Final(input, s, replies) == Final(input, next, Tail(replies))
      && (Finished(next) ==> before + Trace(input, s, replies) == before + [Event(Pending(input, s), Head(replies))]
                             && Final(input, s, replies) == next)
  {
    TraceStep(input, s, replies);
  }

  // -------------------------------------------------- the program that is run

  /** A protocol and a surface that answer from a script, and remember every call. */
  class Environment {
    var replies: seq<Reply>
    var trace: seq<Event>

    constructor (script: seq<Reply>)
      ensures replies == script && trace == []
    {
      replies := script;
      trace := [];
    }

    method Perform(call: Call) returns (reply: Reply)
      modifies this
      ensures reply == Head(old(replies)) && replies == Tail(old(replies))
      ensures trace == old(trace) + [Event(call, reply)]
    {
      reply := Head(replies);
      replies := Tail(replies);
      trace := trace + [Event(call, reply)];
    }
  }

  /** A reconciliation of a failure, which may itself throw. */
  method ReconcileFailure(env: Environment, input: Input, gate: VerifiedGate, status: Status, signal: Signal,
                          refs: seq<JsString>) returns (result: RunState)
    modifies env
    ensures env.trace == old(env.trace) + [Event(FailureCall(input, gate, status, signal, refs), Head(old(env.replies)))]
    ensures result == if Head(old(env.replies)).ReconcileReply? then Returned(CallFailed) else Rejected
  {
    var reply := env.Perform(FailureCall(input, gate, status, signal, refs));
    result := if reply.ReconcileReply? then Returned(CallFailed) else Rejected;
  }

  /** The catch block. */
  method CatchFailure(env: Environment, input: Input, gate: VerifiedGate, recorded: Option<CredentialEvidence>,
                      signal: Signal) returns (result: RunState)
    modifies env
    ensures env.trace == old(env.trace) + Trace(input, AtFailure(gate, recorded, signal), old(env.replies))
    ensures result == Final(input, AtFailure(gate, recorded, signal), old(env.replies))
  {
    TraceAfter(env.trace, input, AtFailure(gate, recorded, signal), env.replies);
    result := ReconcileFailure(env, input, gate, Failed, signal, CredentialRefs(recorded));
  }

  /** The try block once the API has answered: the leak scan and the reconciliation. */
  method ReconcileCall(env: Environment, input: Input, gate: VerifiedGate, evidence: CredentialEvidence,
                       api: ApiEvidence) returns (result: RunState)
    modifies env
    ensures env.trace == old(env.trace) + Trace(input, AfterCall(input, gate, evidence, api), old(env.replies))
    ensures result == Final(input, AfterCall(input, gate, evidence, api), old(env.replies))
  {
    var leak := input.leak(api);
    if leak.Some? {
      result := CatchFailure(env, input, gate, Some(evidence), leak.value);
      return;
    }
    TraceAfter(env.trace, input, AtReconcile(gate, evidence, api), env.replies);
    var reply := env.Perform(ReconcileCallFor(gate, evidence, api));
    if reply.ReconcileReply? {
      result := Returned(OutcomeFor(api));
    } else {
      result := CatchFailure(env, input, gate, Some(evidence), SignalOf(reply));
    }
  }

  /** The try block once the credential was recorded: conformance and the protected API call. */
  method CheckAndExecute(env: Environment, input: Input, gate: VerifiedGate, evidence: CredentialEvidence)
    returns (result: RunState)
    modifies env
    ensures env.trace == old(env.trace) + Trace(input, AfterRecord(input, gate, evidence), old(env.replies))
    ensures result == Final(input, AfterRecord(input, gate, evidence), old(env.replies))
  {
    var thrown := input.nonconformance(gate);
    if thrown.Some? {
      result := CatchFailure(env, input, gate, Some(evidence), thrown.value);
      return;
    }
    TraceAfter(env.trace, input, AtExecute(gate, evidence), env.replies);
    var reply := env.Perform(Execute(GateCommand(input, gate, evidence)));
    if reply.ApiReply? {
      result := ReconcileCall(env, input, gate, evidence, reply.api);
    } else {
      result := CatchFailure(env, input, gate, Some(evidence), SignalOf(reply));
    }
  }

  /** What follows a verified gate: a refusal of unsafe parameters, or the try block. */
  method RunVerified(env: Environment, input: Input, gate: VerifiedGate) returns (result: RunState)
    modifies env
    ensures env.trace == old(env.trace) + Trace(input, AfterGate(input, gate), old(env.replies))
    ensures result == Final(input, AfterGate(input, gate), old(env.replies))
  {
    if |input.reasons| > 0 {
      TraceAfter(env.trace, input, AtRefusal(gate), env.replies);
      result := ReconcileFailure(env, input, gate, Refused, input.refusalSignal, ReasonRefs(input.reasons));
      return;
    }
    TraceAfter(env.trace, input, AtRecord(gate), env.replies);
    var reply := env.Perform(RecordCall(input, gate));
    if reply.CredentialReply? {
      result := CheckAndExecute(env, input, gate, reply.evidence);
    } else {
      result := CatchFailure(env, input, gate, None, SignalOf(reply));
    }
  }

  /** `runAuthMdProtectedApiCallGateway`, with its try and catch written out. */
  method RunProtectedApiCallGateway(env: Environment, input: Input) returns (result: RunState)
    modifies env
    ensures env.trace == old(env.trace) + Trace(input, AtCheck, old(env.replies))
    ensures result == Final(input, AtCheck, old(env.replies))
  {
    TraceAfter(env.trace, input, AtCheck, env.replies);
    var reply := env.Perform(GatewayCheck(input.actionContractId, input.greenlightId, input.parameters,
                                          input.surfaceOperationRef));
    if !reply.CheckReply? {
      return Rejected;
    }
    var verified := X402WalletGateway.VerifiedGateFrom(reply.result);
    if verified.None? {
      return Returned(if reply.result.decision.GateRefused? then CheckRefused else CheckNotAuthoritative);
    }
    result := RunVerified(env, input, verified.value);
  }

  // ------------------------------------------------------- what runs keep to

  function Run(input: Input, replies: seq<Reply>): seq<Event> {
    Trace(input, AtCheck, replies)
  }

  function Result(input: Input, replies: seq<Reply>): RunState {
    Final(input, AtCheck, replies)
  }

  function GateOf(reply: Reply): Option<VerifiedGate> {
    if reply.CheckReply? then X402WalletGateway.VerifiedGateFrom(reply.result) else None
  }

  /** Unsafe parameters: after a verified gate, exactly one reconciliation, "refused", that
      names every reason; no credential evidence, no API call. */
  lemma UnsafeRunIsRefused(input: Input, replies: seq<Reply>)
    requires GateOf(Head(replies)).Some? && input.reasons != []
    ensures |Run(input, replies)| == 2
    ensures var call := Run(input, replies)[1].call;
      && call.Reconcile? && call.status.Refused? && call.mutationAttemptId == GateOf(Head(replies)).value.mutationAttemptId
      && forall i :: 0 <= i < |input.reasons| ==> Js("reason_code:") + input.reasons[i] in call.evidenceRefs
    ensures Result(input, replies)
         == if Run(input, replies)[1].reply.ReconcileReply? then Returned(CallFailed) else Rejected
  {
    TraceStep(input, AtCheck, replies);
    var gate := GateOf(Head(replies)).value;
    TraceStep(input, AtRefusal(gate), Tail(replies));
    var call := Pending(input, AtRefusal(gate));
    ReasonsAreCited(input.reasons, input.report(input.refusalSignal).evidenceRefs);
    assert Run(input, replies)[1].call == call;
  }

  lemma ReasonsAreCited(reasons: seq<JsString>, refs: seq<JsString>)
    ensures forall i :: 0 <= i < |reasons| ==> Js("reason_code:") + reasons[i] in refs + ReasonRefs(reasons)
  {
    forall i | 0 <= i < |reasons| ensures Js("reason_code:") + reasons[i] in refs + ReasonRefs(reasons) {
      assert (refs + ReasonRefs(reasons))[|refs| + i] == Js("reason_code:") + reasons[i];
    }
  }

  lemma SecondCall(input: Input, replies: seq<Reply>)
    requires GateOf(Head(replies)).Some?
    ensures |Run(input, replies)| >= 2
    ensures Run(input, replies)[1].call.RecordCredential? <==> input.reasons == []
  {
    TraceStep(input, AtCheck, replies);
    var gate := GateOf(Head(replies)).value;
    TraceStep(input, AfterGate(input, gate), Tail(replies));
  }

  /** With safe parameters and a recorded credential, the third call is decided by the conformance
      assertion: the API call, or a failed reconciliation that cites the credential. */
  lemma ThirdCall(input: Input, replies: seq<Reply>)
    requires GateOf(Head(replies)).Some? && input.reasons == [] && Head(Tail(replies)).CredentialReply?
    ensures var gate := GateOf(Head(replies)).value;
      var evidence := Head(Tail(replies)).evidence;
      var t := Run(input, replies);
      && |t| >= 3
      && t[1] == Event(RecordCall(input, gate), CredentialReply(evidence))
      && t[2].call == Pending(input, AfterRecord(input, gate, evidence))
  {
    TraceStep(input, AtCheck, replies);
    var gate := GateOf(Head(replies)).value;
    TraceStep(input, AtRecord(gate), Tail(replies));
    var next := AfterRecord(input, gate, Head(Tail(replies)).evidence);
    TraceStep(input, next, Tail(Tail(replies)));
  }

  lemma ThirdCallExecutes(input: Input, replies: seq<Reply>)
    requires GateOf(Head(replies)).Some? && input.reasons == [] && Head(Tail(replies)).CredentialReply?
    ensures |Run(input, replies)| >= 3 && Run(input, replies)[1].call.RecordCredential?
    ensures Run(input, replies)[2].call.Execute? <==> input.nonconformance(GateOf(Head(replies)).value).None?
  {
    ThirdCall(input, replies);
  }

  /** After the call itself there are only reconciliations. */
  lemma {:induction false} OnlyReconciliationsFollow(input: Input, s: RunState, replies: seq<Reply>, i: nat)
    requires s.AtReconcile? || s.AtFailure? || s.AtRefusal? || Finished(s)
    requires i < |Trace(input, s, replies)|
    ensures Trace(input, s, replies)[i].call.Reconcile?
    decreases Remaining(s)
  {
    TraceStep(input, s, replies);
    if i > 0 {
      var next := Next(input, s, Head(replies));
      assert Trace(input, s, replies)[i] == Trace(input, next, Tail(replies))[i - 1];
      OnlyReconciliationsFollow(input, next, Tail(replies), i - 1);
    }
  }

  /** A call that the gate, the recorded credential and the profile all permit. */
  predicate Permitted(input: Input, checked: Event, recorded: Event, command: Command) {
    && GateOf(checked.reply) == Some(command.gate)
    && recorded.call.RecordCredential? && recorded.call.gateAttemptId == command.gate.gateAttemptId
    && recorded.reply == CredentialReply(command.evidence)
    && command.parameters == input.parameters
    && input.reasons == [] && input.nonconformance(command.gate).None?
  }

  lemma FromExecute(input: Input, gate: VerifiedGate, evidence: CredentialEvidence, replies: seq<Reply>, i: nat)
    requires i < |Trace(input, AtExecute(gate, evidence), replies)|
    requires Trace(input, AtExecute(gate, evidence), replies)[i].call.Execute?
    ensures i == 0
  {
    TraceStep(input, AtExecute(gate, evidence), replies);
    if i > 0 {
      var after := Next(input, AtExecute(gate, evidence), Head(replies));
      assert Trace(input, AtExecute(gate, evidence), replies)[i] == Trace(input, after, Tail(replies))[i - 1];
      OnlyReconciliationsFollow(input, after, Tail(replies), i - 1);
    }
  }

  lemma FromRecord(input: Input, gate: VerifiedGate, replies: seq<Reply>, i: nat)
    requires i < |Trace(input, AtRecord(gate), replies)|
    requires Trace(input, AtRecord(gate), replies)[i].call.Execute?
    ensures i == 1 && Head(replies).CredentialReply? && input.nonconformance(gate).None?
    ensures Trace(input, AtRecord(gate), replies)[1].call == Execute(GateCommand(input, gate, Head(replies).evidence))
  {
    TraceStep(input, AtRecord(gate), replies);
    var next := Next(input, AtRecord(gate), Head(replies));
    assert i > 0 && Trace(input, AtRecord(gate), replies)[i] == Trace(input, next, Tail(replies))[i - 1];
    if next.AtFailure? {
      OnlyReconciliationsFollow(input, next, Tail(replies), i - 1);
    } else {
      FromExecute(input, gate, next.evidence, Tail(replies), i - 1);
      TraceStep(input, next, Tail(replies));
    }
  }

  /** Whichever calls throw: the protected API is called at most once, third, and permitted. */
  lemma ApiCallIsPermitted(input: Input, replies: seq<Reply>, i: nat)
    requires i < |Run(input, replies)| && Run(input, replies)[i].call.Execute?
    ensures i == 2
    ensures Permitted(input, Run(input, replies)[0], Run(input, replies)[1], Run(input, replies)[2].call.command)
  {
    var t := Run(input, replies);
    TraceStep(input, AtCheck, replies);
    var next := Next(input, AtCheck, Head(replies));
    assert i > 0 && t[i] == Trace(input, next, Tail(replies))[i - 1];
    if next.AtRecord? {
      FromRecord(input, next.gate, Tail(replies), i - 1);
      TraceStep(input, next, Tail(replies));
      assert t[1] == Trace(input, next, Tail(replies))[0];
    } else {
      OnlyReconciliationsFollow(input, next, Tail(replies), i - 1);
    }
  }

  /** The outcome a run returns for its last reconciliation. Both a refused API call and refused
      parameters are reconciled as "refused"; only the former is returned as refused. */
  function OutcomeOf(call: Call): Outcome
    requires call.Reconcile?
  {
    match call.report
    case OfCall(api) => OutcomeFor(api)
    case OfFailure(_) => CallFailed
  }

  predicate EndsReconciled(gate: VerifiedGate, t: seq<Event>, f: RunState) {
    t != [] && (var last := t[|t| - 1];
      && last.call.Reconcile?
      && last.call.mutationAttemptId == gate.mutationAttemptId && last.call.idempotencyKey == gate.idempotencyKey
      && (last.call.report.OfCall? ==> last.call.status == StatusOf(last.call.report.api))
      && f == (if last.reply.ReconcileReply? then Returned(OutcomeOf(last.call)) else Rejected)
      && (f.Rejected? ==> last.call.report.OfFailure?))
  }

  lemma {:induction false} FromGateEndsReconciled(input: Input, s: RunState, replies: seq<Reply>)
    requires !Finished(s) && !s.AtCheck?
    ensures EndsReconciled(s.gate, Trace(input, s, replies), Final(input, s, replies))
    decreases Remaining(s)
  {
    TraceStep(input, s, replies);
    var next := Next(input, s, Head(replies));
    if !Finished(next) {
      FromGateEndsReconciled(input, next, Tail(replies));
      var t, rest := Trace(input, s, replies), Trace(input, next, Tail(replies));
      assert t[|t| - 1] == rest[|rest| - 1];
    }
  }

  /** Every verified gate is reconciled: the run's last call reconciles that gate's mutation, and
      the outcome is the one of what was reported; a run rejects only when reporting a failure
      failed. */
  lemma VerifiedRunsEndReconciled(input: Input, replies: seq<Reply>)
    requires GateOf(Head(replies)).Some?
    ensures EndsReconciled(GateOf(Head(replies)).value, Run(input, replies), Result(input, replies))
  {
    TraceStep(input, AtCheck, replies);
    var next := Next(input, AtCheck, Head(replies));
    FromGateEndsReconciled(input, next, Tail(replies));
    var t, rest := Run(input, replies), Trace(input, next, Tail(replies));
    assert t[|t| - 1] == rest[|rest| - 1];
  }
}
