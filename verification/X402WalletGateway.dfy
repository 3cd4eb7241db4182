/** One run of the x402 wallet gateway against a protocol and a signing surface either of
    which may throw at any call, and the custody assertion that precedes signing. */
module X402WalletGateway {
  import opened JsText
  import opened X402Payment

  // ------------------------------------------------------------------ records

  datatype GateDecision = GatePassed | GateRefused | GateProofGap

  datatype MutationAttempt = MutationAttempt(
    mutationAttemptId: JsString, actionContractId: JsString, greenlightId: JsString, gatewayId: JsString,
    actionClass: JsString, resourceRef: JsString, idempotencyKey: JsString, surfaceOperationRef: Option<JsString>)

  datatype GatewayCheckResult = GatewayCheckResult(
    gateAttemptId: JsString, decision: GateDecision, mutationAttempt: Option<MutationAttempt>)

  datatype VerifiedGate = VerifiedGate(
    gateAttemptId: JsString, mutationAttemptId: JsString, actionContractId: JsString, greenlightId: JsString,
    gatewayId: JsString, actionClass: JsString, resourceRef: JsString, idempotencyKey: JsString,
    surfaceOperationRef: JsString)

  /** `verifiedGatewayCheckFromResult`. An empty surface operation ref is falsy. */
  function VerifiedGateFrom(r: GatewayCheckResult): Option<VerifiedGate> {
    if !r.decision.GatePassed? then None
    else
      match r.mutationAttempt
      case Some(MutationAttempt(id, contract, greenlight, gateway, class', resource, key, Some(ref))) =>
        if ref == [] then None
        else Some(VerifiedGate(r.gateAttemptId, id, contract, greenlight, gateway, class', resource, key, ref))
      case _ => None
  }

  datatype ResultClass = UsedByGateway | OtherResult
  datatype RedactionStatus = Redacted | NotRedacted

  datatype CredentialEvidence = CredentialEvidence(
    evidenceId: JsString, gateAttemptId: JsString, actionContractId: JsString, greenlightId: JsString,
    resultClass: ResultClass, redactionStatus: RedactionStatus, materialIncluded: bool)

  datatype Command = Command(
    gate: VerifiedGate, parameters: Parameters, evidence: CredentialEvidence,
    credentialUseRef: JsString, providerRequestRef: JsString, providerOperationRef: JsString)

  datatype PaymentStatus = PaymentSucceeded | PaymentUnknown

  datatype SignatureEvidence = SignatureEvidence(
    evidenceRef: JsString, surfaceOperationRef: JsString, headerRef: JsString, signatureDigest: JsString,
    payloadRef: Option<JsString>, payloadDigest: Option<JsString>, identifierRef: Option<JsString>,
    identifierDigest: Option<JsString>, status: PaymentStatus, paymentResponseEvidenceRef: Option<JsString>,
    providerRequestRef: Option<JsString>, providerOperationRef: Option<JsString>,
    additionalEvidenceRefs: seq<JsString>)

  // ------------------------------------------------------------------ custody

  datatype CustodyRefusal =
    | GateNotAuthoritative | MaterialNotRedacted | NotUsedByGateway | ResolutionNotRedacted
    | GateUnbound | ContractUnbound | GreenlightUnbound

  function RequiredGateIds(g: VerifiedGate): seq<JsString> {
    [g.gateAttemptId, g.mutationAttemptId, g.surfaceOperationRef, g.actionContractId, g.greenlightId,
     g.gatewayId, g.idempotencyKey]
  }

  /** Gateway-held custody: a complete gate, and redacted evidence of the gateway's own use
      of the credential, bound to that gate attempt, contract and greenlight. */
  predicate HeldByGateway(c: Command) {
    && (forall i :: 0 <= i < 7 ==> RequiredGateIds(c.gate)[i] != [])
    && !c.evidence.materialIncluded
    && c.evidence.resultClass.UsedByGateway?
    && c.evidence.redactionStatus.Redacted?
    && c.evidence.gateAttemptId == c.gate.gateAttemptId
    && c.evidence.actionContractId == c.gate.actionContractId
    && c.evidence.greenlightId == c.gate.greenlightId
  }

  /** `assertGatewayHeldSigningCommand`: `None` when it returns, the reason when it throws.
      The gate's own status is `passed` by its type. */
  method AssertGatewayHeld(c: Command) returns (refusal: Option<CustodyRefusal>)
    ensures refusal.None? <==> HeldByGateway(c)
    ensures refusal == Some(GateNotAuthoritative) <==> [] in RequiredGateIds(c.gate)
  {
    var ids := RequiredGateIds(c.gate);
    for i := 0 to |ids|
      invariant [] !in ids[..i]
    {
      if ids[i] == [] {
        return Some(GateNotAuthoritative);
      }
    }
    if c.evidence.materialIncluded {
      return Some(MaterialNotRedacted);
    }
    if !c.evidence.resultClass.UsedByGateway? {
      return Some(NotUsedByGateway);
    }
    if !c.evidence.redactionStatus.Redacted? {
      return Some(ResolutionNotRedacted);
    }
    if c.evidence.gateAttemptId != c.gate.gateAttemptId {
      return Some(GateUnbound);
    }
    if c.evidence.actionContractId != c.gate.actionContractId {
      return Some(ContractUnbound);
    }
    if c.evidence.greenlightId != c.gate.greenlightId {
      return Some(GreenlightUnbound);
    }
    return None;
  }

  // ------------------------------------------------------ calls and replies

  datatype Status = Succeeded | Unknown | Failed

  datatype Retryability = NonRetryable | UnknownRetryability

  /** The posture of a reconciliation's diagnostics, with the digest if there is one. */
  datatype Diagnostics = RedactedDiagnostics | DigestOnly(digest: JsString)

  datatype Call =
    | GatewayCheck(actionContractId: JsString, greenlightId: JsString, parameters: Parameters,
                   surfaceOperationRef: JsString)
    | RecordCredential(actionContractId: JsString, greenlightId: JsString, gateAttemptId: JsString,
                       gatewayCredentialRefId: JsString, gatewayCredentialRefDigest: JsString,
                       requestDigest: JsString, providerRequestRef: JsString, providerOperationRef: JsString,
                       evidenceRefs: seq<JsString>)
    | SignPayment(command: Command)
    | Reconcile(mutationAttemptId: JsString, idempotencyKey: JsString, observedRef: JsString, status: Status,
                retryability: Retryability, providerRequest: Option<JsString>, providerOperation: Option<JsString>,
                diagnostics: Diagnostics, evidenceRefs: seq<JsString>)

  datatype Reply =
    | CheckReply(result: GatewayCheckResult)
    | CredentialReply(evidence: CredentialEvidence)
    | SignReply(signature: SignatureEvidence)
    | ReconcileReply(reconciliationRef: JsString)
    | Threw

  datatype Event = Event(call: Call, reply: Reply)

  /** A run's input, with the digest of its credential request and of the failure it may report. */
  datatype Input = Input(
    actionContractId: JsString, greenlightId: JsString, parameters: Parameters,
    surfaceOperationRef: Option<JsString>, requestDigest: VerifiedGate -> JsString, failureDigest: JsString)

  datatype Outcome =
    | CheckRefused | CheckNotAuthoritative | SignatureReconciled | SignatureProofGap | SignatureFailed

  function SurfaceOperationRef(input: Input): JsString {
    GetOr(input.surfaceOperationRef, Js("surface-op:x402:") + input.actionContractId)
  }

  /** `providerRefsForGate`. */
  function ProviderRequestRef(gate: VerifiedGate): JsString {
    Js("provider-request:x402:") + gate.gateAttemptId
  }

  function ProviderOperationRef(gate: VerifiedGate): JsString {
    Js("provider-operation:x402:") + gate.gateAttemptId
  }

  function RecordCall(input: Input, gate: VerifiedGate): Call {
    var p := input.parameters;
    RecordCredential(input.actionContractId, input.greenlightId, gate.gateAttemptId, p.gatewayCredentialRefId,
                     p.gatewayCredentialRefDigest, input.requestDigest(gate), ProviderRequestRef(gate),
                     ProviderOperationRef(gate),
                     [Js("gateway_credential_ref:") + p.gatewayCredentialRefId,
                      Js("digest:") + p.gatewayCredentialRefDigest, Js("digest:") + p.gatewayReadinessDigest,
                      Js("digest:") + p.policyVersionDigest])
  }

  function SigningCommand(input: Input, gate: VerifiedGate, evidence: CredentialEvidence): Command {
    Command(gate, input.parameters, evidence, Js("gateway-credential-use:x402:") + gate.gateAttemptId,
            ProviderRequestRef(gate), ProviderOperationRef(gate))
  }

  function CredentialRef(e: CredentialEvidence): JsString {
    Js("credential_resolution_evidence:") + e.evidenceId
  }

  function Present(o: Option<JsString>): seq<JsString> {
    if o.Some? then [o.value] else []
  }

  /** An optional digest, listed only when present and not empty. */
  function PresentDigest(o: Option<JsString>): seq<JsString> {
    if o.Some? && o.value != [] then [Js("digest:") + o.value] else []
  }

  function SignedEvidenceRefs(s: SignatureEvidence, e: CredentialEvidence): seq<JsString> {
    [s.evidenceRef, s.headerRef, Js("digest:") + s.signatureDigest, CredentialRef(e)]
    + Present(s.payloadRef) + PresentDigest(s.payloadDigest) + Present(s.identifierRef)
    + PresentDigest(s.identifierDigest) + Present(s.paymentResponseEvidenceRef) + s.additionalEvidenceRefs
  }

  function StatusOf(s: SignatureEvidence): Status {
    if s.status.PaymentSucceeded? then Succeeded else Unknown
  }

  function RetryabilityOf(s: SignatureEvidence): Retryability {
    if s.status.PaymentSucceeded? then NonRetryable else UnknownRetryability
  }

  function SignedCall(gate: VerifiedGate, evidence: CredentialEvidence, s: SignatureEvidence): Call {
    Reconcile(gate.mutationAttemptId, gate.idempotencyKey, s.surfaceOperationRef, StatusOf(s), RetryabilityOf(s),
              s.providerRequestRef, s.providerOperationRef, RedactedDiagnostics, SignedEvidenceRefs(s, evidence))
  }

  function FailedCall(input: Input, gate: VerifiedGate, refs: seq<JsString>): Call {
    var ref := SurfaceOperationRef(input);
    Reconcile(gate.mutationAttemptId, gate.idempotencyKey, ref, Failed, UnknownRetryability, None, Some(ref),
              DigestOnly(input.failureDigest), refs)
  }

  // -------------------------------------------------- the run, call by call

  /** Where a run stands: waiting for the reply to a call, or finished. */
  datatype RunState =
    | AtCheck
    | AtRecord(gate: VerifiedGate)
    | AtSign(gate: VerifiedGate, evidence: CredentialEvidence)
    | AtReconcile(gate: VerifiedGate, evidence: CredentialEvidence, signature: SignatureEvidence)
    | AtFailure(gate: VerifiedGate, recorded: Option<CredentialEvidence>)
    | Returned(outcome: Outcome)
    | Rejected

  predicate Finished(s: RunState) {
    s.Returned? || s.Rejected?
  }

  /** The call a run is making. */
  function Pending(input: Input, s: RunState): Call
    requires !Finished(s)
  {
    match s
    case AtCheck =>
      GatewayCheck(input.actionContractId, input.greenlightId, input.parameters, SurfaceOperationRef(input))
    case AtRecord(gate) => RecordCall(input, gate)
    case AtSign(gate, evidence) => SignPayment(SigningCommand(input, gate, evidence))
    case AtReconcile(gate, evidence, signature) => SignedCall(gate, evidence, signature)
    case AtFailure(gate, recorded) =>
      FailedCall(input, gate, [Js("evidence:x402-payment-signature-failed:") + SurfaceOperationRef(input)]
                              + (if recorded.Some? then [CredentialRef(recorded.value)] else []))
  }

  /** Where the reply takes the run. A reply of another call's shape counts as a throw. */
  function Next(input: Input, s: RunState, reply: Reply): RunState
    requires !Finished(s)
  {
    match s
    case AtCheck =>
      (match reply
       case CheckReply(result) =>
         (match VerifiedGateFrom(result)
          case Some(gate) => AtRecord(gate)
          case None => Returned(if result.decision.GateRefused? then CheckRefused else CheckNotAuthoritative))
       case _ => Rejected)
    case AtRecord(gate) =>
      (match reply
       case CredentialReply(evidence) =>
         if HeldByGateway(SigningCommand(input, gate, evidence)) then AtSign(gate, evidence)
         else AtFailure(gate, Some(evidence))
       case _ => AtFailure(gate, None))
    case AtSign(gate, evidence) =>
      (match reply
       case SignReply(signature) => AtReconcile(gate, evidence, signature)
       case _ => AtFailure(gate, Some(evidence)))
    case AtReconcile(gate, evidence, signature) =>
      if reply.ReconcileReply?
      then Returned(if signature.status.PaymentSucceeded? then SignatureReconciled else SignatureProofGap)
      else AtFailure(gate, Some(evidence))
    case AtFailure(_, _) => if reply.ReconcileReply? then Returned(SignatureFailed) else Rejected
  }

  function Remaining(s: RunState): nat {
    match s
    case AtCheck => 5
    case AtRecord(_) => 4
    case AtSign(_, _) => 3
    case AtReconcile(_, _, _) => 2
    case AtFailure(_, _) => 1
    case _ => 0
  }

  /** The environment's next reply; when the script is used up, calls throw. */
  function Head(replies: seq<Reply>): Reply {
    if replies == [] then Threw else replies[0]
  }

  function Tail(replies: seq<Reply>): seq<Reply> {
    if replies == [] then [] else replies[1..]
  }

  /** The calls and replies from a state on, for any script of replies. */
  function Trace(input: Input, s: RunState, replies: seq<Reply>): seq<Event>
    decreases Remaining(s)
  {
    if Finished(s) then []
    else
      [Event(Pending(input, s), Head(replies))]
      + Trace(input, Next(input, s, Head(replies)), Tail(replies))
  }

  function Final(input: Input, s: RunState, replies: seq<Reply>): (f: RunState)
    ensures Finished(f)
    decreases Remaining(s)
  {
    if Finished(s) then s else Final(input, Next(input, s, Head(replies)), Tail(replies))
  }

  /** One call of a run, followed by the rest. */
  lemma TraceStep(input: Input, s: RunState, replies: seq<Reply>)
    requires !Finished(s)
    ensures var next := Next(input, s, Head(replies));
      && Trace(input, s, replies) == [Event(Pending(input, s), Head(replies))] + Trace(input, next, Tail(replies))
      && Final(input, s, replies) == Final(input, next, Tail(replies))
      && (Finished(next) ==> Trace(input, s, replies) == [Event(Pending(input, s), Head(replies))]
                             && Final(input, s, replies) == next)
  {
  }

  /** The same for a trace that continues another. */
  lemma TraceAfter(before: seq<Event>, input: Input, s: RunState, replies: seq<Reply>)
    requires !Finished(s)
    ensures var next := Next(input, s, Head(replies));
      && before + Trace(input, s, replies)
         == before + [Event(Pending(input, s), Head(replies))] + Trace(input, next, Tail(replies))
      && Final(input, s, replies) == Final(input, next, Tail(replies))
      && (Finished(next) ==> before + Trace(input, s, replies) == before + [Event(Pending(input, s), Head(replies))]
                             && Final(input, s, replies) == next)
  {
    TraceStep(input, s, replies);
  }

  // ------------------------------------------------ the program that is run

  /** A protocol and a surface that answer from a script, and remember every call. */
  class Environment {
    var replies: seq<Reply>
    var trace: seq<Event>

    constructor (script: seq<Reply>)
      ensures replies == script && trace == []
    {
      replies := script;
      trace := [];
    }

    method Perform(call: Call) returns (reply: Reply)
      modifies this
      ensures reply == Head(old(replies)) && replies == Tail(old(replies))
      ensures trace == old(trace) + [Event(call, reply)]
    {
      reply := Head(replies);
      replies := Tail(replies);
      trace := trace + [Event(call, reply)];
    }
  }

  /** The catch block: a failed reconciliation, which may itself throw. */
  method ReconcileFailure(env: Environment, input: Input, gate: VerifiedGate, recorded: Option<CredentialEvidence>)
    returns (result: RunState)
    modifies env
    ensures env.trace == old(env.trace) + Trace(input, AtFailure(gate, recorded), old(env.replies))
    ensures result == Final(input, AtFailure(gate, recorded), old(env.replies))
  {
    var refs := [Js("evidence:x402-payment-signature-failed:") + SurfaceOperationRef(input)];
    if recorded.Some? {
      refs := refs + [CredentialRef(recorded.value)];
    }
    TraceAfter(env.trace, input, AtFailure(gate, recorded), env.replies);
    assert Pending(input, AtFailure(gate, recorded)).evidenceRefs == refs;
    var reply := env.Perform(FailedCall(input, gate, refs));
    if reply.ReconcileReply? {
      result := Returned(SignatureFailed);
    } else {
      result := Rejected;
    }
  }

  /** The try block after the credential was recorded: custody, signing, reconciliation. */
  method SignAndReconcile(env: Environment, input: Input, gate: VerifiedGate, evidence: CredentialEvidence)
    returns (result: RunState)
    modifies env
    ensures var from := if HeldByGateway(SigningCommand(input, gate, evidence)) then AtSign(gate, evidence)
                        else AtFailure(gate, Some(evidence));
      env.trace == old(env.trace) + Trace(input, from, old(env.replies))
      && result == Final(input, from, old(env.replies))
  {
    var command := SigningCommand(input, gate, evidence);
    var refusal := AssertGatewayHeld(command);
    if refusal.Some? {
      result := ReconcileFailure(env, input, gate, Some(evidence));
      return;
    }
    TraceAfter(env.trace, input, AtSign(gate, evidence), env.replies);
    var signed := env.Perform(SignPayment(command));
    if !signed.SignReply? {
      result := ReconcileFailure(env, input, gate, Some(evidence));
      return;
    }
    var signature := signed.signature;
    TraceAfter(env.trace, input, AtReconcile(gate, evidence, signature), env.replies);
    var reply := env.Perform(SignedCall(gate, evidence, signature));
    if !reply.ReconcileReply? {
      result := ReconcileFailure(env, input, gate, Some(evidence));
      return;
    }
    result := Returned(if signature.status.PaymentSucceeded? then SignatureReconciled else SignatureProofGap);
  }

  /** The try block: recording the credential, then the rest. */
  method RecordSignAndReconcile(env: Environment, input: Input, gate: VerifiedGate) returns (result: RunState)
    modifies env
    ensures env.trace == old(env.trace) + Trace(input, AtRecord(gate), old(env.replies))
    ensures result == Final(input, AtRecord(gate), old(env.replies))
  {
    TraceAfter(env.trace, input, AtRecord(gate), env.replies);
    var recorded := env.Perform(RecordCall(input, gate));
    if recorded.CredentialReply? {
      result := SignAndReconcile(env, input, gate, recorded.evidence);
    } else {
      result := ReconcileFailure(env, input, gate, None);
    }
  }

  /** `runX402WalletGateway`, with its try and catch written out. */
  method RunWalletGateway(env: Environment, input: Input) returns (result: RunState)
    modifies env
    ensures env.trace == old(env.trace) + Trace(input, AtCheck, old(env.replies))
    ensures result == Final(input, AtCheck, old(env.replies))
  {
    TraceAfter(env.trace, input, AtCheck, env.replies);
    var checked := env.Perform(GatewayCheck(input.actionContractId, input.greenlightId, input.parameters,
                                            SurfaceOperationRef(input)));
    if !checked.CheckReply? {
      return Rejected;
    }
    var verified := VerifiedGateFrom(checked.result);
    if verified.None? {
      return Returned(if checked.result.decision.GateRefused? then CheckRefused else CheckNotAuthoritative);
    }
    result := RecordSignAndReconcile(env, input, verified.value);
  }
}
