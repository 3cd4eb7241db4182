/** The calls of an x402 wallet run written out: what each of them says, and in which order they can
    come (src/adapters/x402-payment/wallet-gateway.ts). */
module X402Calls {
  import opened JsText
  import opened X402Payment
  import opened X402WalletGateway
  import opened X402RunProofs

  function OperationRef(input: Input): JsString {
    match input.surfaceOperationRef
    case Some(ref) => ref
    case None => Js("surface-op:x402:") + input.actionContractId
  }

  predicate Checks(input: Input, c: Call) {
    && c.GatewayCheck?
    && c.actionContractId == input.actionContractId && c.greenlightId == input.greenlightId
    && c.parameters == input.parameters && c.surfaceOperationRef == OperationRef(input)
  }

  predicate Records(input: Input, gate: VerifiedGate, c: Call) {
    && c.RecordCredential?
    && c.actionContractId == input.actionContractId && c.greenlightId == input.greenlightId
    && c.gateAttemptId == gate.gateAttemptId
    && c.gatewayCredentialRefId == input.parameters.gatewayCredentialRefId
    && c.gatewayCredentialRefDigest == input.parameters.gatewayCredentialRefDigest
    && c.requestDigest == input.requestDigest(gate)
    && c.providerRequestRef == Js("provider-request:x402:") + gate.gateAttemptId
    && c.providerOperationRef == Js("provider-operation:x402:") + gate.gateAttemptId
    && |c.evidenceRefs| == 4
    && c.evidenceRefs[0] == Js("gateway_credential_ref:") + input.parameters.gatewayCredentialRefId
    && c.evidenceRefs[1] == Js("digest:") + input.parameters.gatewayCredentialRefDigest
    && c.evidenceRefs[2] == Js("digest:") + input.parameters.gatewayReadinessDigest
    && c.evidenceRefs[3] == Js("digest:") + input.parameters.policyVersionDigest
  }

  predicate Signs(input: Input, gate: VerifiedGate, evidence: CredentialEvidence, c: Call) {
    && c.SignPayment?
    && c.command.gate == gate && c.command.parameters == input.parameters && c.command.evidence == evidence
    && c.command.credentialUseRef == Js("gateway-credential-use:x402:") + gate.gateAttemptId
    && c.command.providerRequestRef == Js("provider-request:x402:") + gate.gateAttemptId
    && c.command.providerOperationRef == Js("provider-operation:x402:") + gate.gateAttemptId
  }

  /** A digest that is absent or empty is not listed. */
  function DigestRef(o: Option<JsString>): seq<JsString> {
    match o
    case None => []
    case Some(d) => if |d| == 0 then [] else [Js("digest:") + d]
  }

  function Ref(o: Option<JsString>): seq<JsString> {
    match o
    case None => []
    case Some(ref) => [ref]
  }

  predicate ReportsSignature(gate: VerifiedGate, evidence: CredentialEvidence, s: SignatureEvidence, c: Call) {
    && c.Reconcile?
    && c.mutationAttemptId == gate.mutationAttemptId && c.idempotencyKey == gate.idempotencyKey
    && c.observedRef == s.surfaceOperationRef
    && c.status == (match s.status case PaymentSucceeded => Succeeded case PaymentUnknown => Unknown)
    && c.retryability == (match s.status case PaymentSucceeded => NonRetryable case PaymentUnknown => UnknownRetryability)
    && c.providerRequest == s.providerRequestRef && c.providerOperation == s.providerOperationRef
    && c.diagnostics == RedactedDiagnostics
    && c.evidenceRefs
       == [s.evidenceRef, s.headerRef, Js("digest:") + s.signatureDigest,
           Js("credential_resolution_evidence:") + evidence.evidenceId]
          + Ref(s.payloadRef) + DigestRef(s.payloadDigest) + Ref(s.identifierRef) + DigestRef(s.identifierDigest)
          + Ref(s.paymentResponseEvidenceRef) + s.additionalEvidenceRefs
  }

  predicate ReportsFailure(input: Input, gate: VerifiedGate, recorded: Option<CredentialEvidence>, c: Call) {
    && c.Reconcile?
    && c.mutationAttemptId == gate.mutationAttemptId && c.idempotencyKey == gate.idempotencyKey
    && c.observedRef == OperationRef(input) && c.status == Failed && c.retryability == UnknownRetryability
    && c.providerRequest == None && c.providerOperation == Some(OperationRef(input))
    && c.diagnostics == DigestOnly(input.failureDigest)
    && c.evidenceRefs
       == [Js("evidence:x402-payment-signature-failed:") + OperationRef(input)]
          + (match recorded case None => [] case Some(e) => [Js("credential_resolution_evidence:") + e.evidenceId])
  }

  /** A gate is verified by a passed decision with a mutation attempt that names an operation; it
      repeats the attempt. */
  lemma VerifiedGateIs(r: GatewayCheckResult)
    ensures VerifiedGateFrom(r).Some? <==>
      && r.decision == GatePassed && r.mutationAttempt != None
      && r.mutationAttempt.value.surfaceOperationRef != None && r.mutationAttempt.value.surfaceOperationRef.value != []
    ensures VerifiedGateFrom(r).Some? ==>
      var gate, m := VerifiedGateFrom(r).value, r.mutationAttempt.value;
      && gate.gateAttemptId == r.gateAttemptId && gate.mutationAttemptId == m.mutationAttemptId
      && gate.actionContractId == m.actionContractId && gate.greenlightId == m.greenlightId
      && gate.gatewayId == m.gatewayId && gate.actionClass == m.actionClass && gate.resourceRef == m.resourceRef
      && gate.idempotencyKey == m.idempotencyKey && gate.surfaceOperationRef == m.surfaceOperationRef.value
  {
  }

  /** Custody, written out. */
  predicate InCustody(gate: VerifiedGate, evidence: CredentialEvidence) {
    && gate.gateAttemptId != [] && gate.mutationAttemptId != [] && gate.surfaceOperationRef != []
    && gate.actionContractId != [] && gate.greenlightId != [] && gate.gatewayId != [] && gate.idempotencyKey != []
    && !evidence.materialIncluded && evidence.resultClass == UsedByGateway && evidence.redactionStatus == Redacted
    && evidence.gateAttemptId == gate.gateAttemptId && evidence.actionContractId == gate.actionContractId
    && evidence.greenlightId == gate.greenlightId
  }

  lemma HeldIsCustody(input: Input, gate: VerifiedGate, evidence: CredentialEvidence)
    ensures HeldByGateway(SigningCommand(input, gate, evidence)) <==> InCustody(gate, evidence)
  {
    var ids := RequiredGateIds(gate);
    assert (forall i :: 0 <= i < 7 ==> ids[i] != []) <==>
      ids[0] != [] && ids[1] != [] && ids[2] != [] && ids[3] != [] && ids[4] != [] && ids[5] != [] && ids[6] != [];
  }

  /** What follows a recorded credential: signing, exactly when the credential is in custody, and
      what is reported of it; or the report of a failure. */
  predicate AfterCredential(input: Input, gate: VerifiedGate, evidence: CredentialEvidence, rest: seq<Event>) {
    if !InCustody(gate, evidence) then |rest| == 1 && ReportsFailure(input, gate, Some(evidence), rest[0].call)
    else
      && |rest| >= 2 && Signs(input, gate, evidence, rest[0].call)
      && (if !rest[0].reply.SignReply? then |rest| == 2 && ReportsFailure(input, gate, Some(evidence), rest[1].call)
          else
            && ReportsSignature(gate, evidence, rest[0].reply.signature, rest[1].call)
            && (if rest[1].reply.ReconcileReply? then |rest| == 2
                else |rest| == 3 && ReportsFailure(input, gate, Some(evidence), rest[2].call)))
  }

  lemma FailureIsWritten(input: Input, gate: VerifiedGate, recorded: Option<CredentialEvidence>)
    ensures ReportsFailure(input, gate, recorded, Pending(input, AtFailure(gate, recorded)))
  {
  }

  lemma SignatureIsWritten(input: Input, gate: VerifiedGate, evidence: CredentialEvidence, s: SignatureEvidence)
    ensures ReportsSignature(gate, evidence, s, Pending(input, AtReconcile(gate, evidence, s)))
  {
  }

  lemma FromSigning(input: Input, gate: VerifiedGate, evidence: CredentialEvidence, replies: seq<Reply>)
    requires InCustody(gate, evidence)
    ensures AfterCredential(input, gate, evidence, Trace(input, AtSign(gate, evidence), replies))
  {
    TraceStep(input, AtSign(gate, evidence), replies);
    FailureIsWritten(input, gate, Some(evidence));
    if Head(replies).SignReply? {
      var s := Head(replies).signature;
      SignatureIsWritten(input, gate, evidence, s);
      FromReconcile(input, gate, evidence, s, Tail(replies));
    } else {
      FromFailure(input, gate, Some(evidence), Tail(replies));
    }
  }

  lemma FromCredential(input: Input, gate: VerifiedGate, evidence: CredentialEvidence, replies: seq<Reply>)
    ensures AfterCredential(input, gate, evidence,
      Trace(input, Next(input, AtRecord(gate), CredentialReply(evidence)), replies))
  {
    HeldIsCustody(input, gate, evidence);
    if InCustody(gate, evidence) {
      FromSigning(input, gate, evidence, replies);
    } else {
      FromFailure(input, gate, Some(evidence), replies);
      FailureIsWritten(input, gate, Some(evidence));
    }
  }

  /** From the recording of the credential on. */
  predicate AfterGate(input: Input, gate: VerifiedGate, rest: seq<Event>) {
    && rest != [] && Records(input, gate, rest[0].call)
    && (if rest[0].reply.CredentialReply? then AfterCredential(input, gate, rest[0].reply.evidence, rest[1..])
        else |rest| == 2 && ReportsFailure(input, gate, None, rest[1].call))
  }

  lemma FromGate(input: Input, gate: VerifiedGate, replies: seq<Reply>)
    ensures AfterGate(input, gate, Trace(input, AtRecord(gate), replies))
  {
    TraceStep(input, AtRecord(gate), replies);
    var rest := Trace(input, Next(input, AtRecord(gate), Head(replies)), Tail(replies));
    assert Trace(input, AtRecord(gate), replies)[1..] == rest;
    if Head(replies).CredentialReply? {
      FromCredential(input, gate, Head(replies).evidence, Tail(replies));
    } else {
      FromFailure(input, gate, None, Tail(replies));
      FailureIsWritten(input, gate, None);
    }
  }

  /** A whole run: the check, and exactly for a verified gate what follows it. */
  predicate WrittenOut(input: Input, t: seq<Event>) {
    && t != [] && Checks(input, t[0].call)
    && (match GateOf(t[0])
        case None => |t| == 1
        case Some(gate) => AfterGate(input, gate, t[1..]))
  }

  /** For every input and script of replies, every call of the run is the one written out here. */
  lemma RunsAreWrittenOut(input: Input, replies: seq<Reply>)
    ensures WrittenOut(input, Run(input, replies))
  {
    NoGateNoCalls(input, replies);
    var t := Run(input, replies);
    if GateOf(t[0]).Some? {
      VerifiedRun(input, replies);
      FromGate(input, GateOf(t[0]).value, Tail(replies));
    }
  }

  /** The outcome, from the last call and its reply. */
  lemma OutcomeIsWrittenOut(input: Input, replies: seq<Reply>)
    requires GateOf(Run(input, replies)[0]).Some?
    ensures Run(input, replies) != []
    ensures var last := Run(input, replies)[|Run(input, replies)| - 1];
      && last.call.Reconcile?
      && Result(input, replies) == (
           if !last.reply.ReconcileReply? then Rejected
           else match last.call.status
             case Succeeded => Returned(SignatureReconciled)
             case Unknown => Returned(SignatureProofGap)
             case Failed => Returned(SignatureFailed))
  {
    VerifiedRunsEndReconciled(input, replies);
  }
}
