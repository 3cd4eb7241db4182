/** What every single run of the x402 wallet gateway keeps to, whichever calls throw. */
module X402RunProofs {
  import opened JsText
  import opened X402Payment
  import opened X402WalletGateway

  function Run(input: Input, replies: seq<Reply>): seq<Event> {
    Trace(input, AtCheck, replies)
  }

  function Result(input: Input, replies: seq<Reply>): RunState {
    Final(input, AtCheck, replies)
  }

  function GateOf(e: Event): Option<VerifiedGate> {
    if e.call.GatewayCheck? && e.reply.CheckReply? then VerifiedGateFrom(e.reply.result) else None
  }

  predicate Reconciled(e: Event) {
    e.call.Reconcile? && e.reply.ReconcileReply?
  }

  /** The outcome a run reports for the status it reconciled. */
  function OutcomeFor(s: Status): Outcome {
    match s
    case Succeeded => SignatureReconciled
    case Unknown => SignatureProofGap
    case Failed => SignatureFailed
  }

  // The trace from each state, from the last call backwards.

  lemma FromFailure(input: Input, gate: VerifiedGate, recorded: Option<CredentialEvidence>, replies: seq<Reply>)
    ensures Trace(input, AtFailure(gate, recorded), replies)
         == [Event(Pending(input, AtFailure(gate, recorded)), Head(replies))]
    ensures Final(input, AtFailure(gate, recorded), replies)
         == if Head(replies).ReconcileReply? then Returned(SignatureFailed) else Rejected
  {
    TraceStep(input, AtFailure(gate, recorded), replies);
  }

  lemma FromReconcile(input: Input, gate: VerifiedGate, evidence: CredentialEvidence, signature: SignatureEvidence,
                      replies: seq<Reply>)
    ensures var s := AtReconcile(gate, evidence, signature);
      var first := Event(Pending(input, s), Head(replies));
      if first.reply.ReconcileReply?
      then Trace(input, s, replies) == [first] && Final(input, s, replies) == Returned(OutcomeFor(StatusOf(signature)))
      else
        var failed := AtFailure(gate, Some(evidence));
        && Trace(input, s, replies) == [first, Event(Pending(input, failed), Head(Tail(replies)))]
        && Final(input, s, replies) == Final(input, failed, Tail(replies))
  {
    TraceStep(input, AtReconcile(gate, evidence, signature), replies);
    FromFailure(input, gate, Some(evidence), Tail(replies));
  }

  /** A reconciliation of this gate's mutation that cites the recorded credential evidence. */
  predicate CitesRun(c: Call, gate: VerifiedGate, evidence: CredentialEvidence) {
    c.Reconcile? && c.mutationAttemptId == gate.mutationAttemptId && c.idempotencyKey == gate.idempotencyKey
    && CredentialRef(evidence) in c.evidenceRefs
  }

  predicate IsSigning(c: Call, input: Input, gate: VerifiedGate, evidence: CredentialEvidence) {
    c == SignPayment(SigningCommand(input, gate, evidence)) && HeldByGateway(c.command)
  }

  /** What the rest of a run looks like once its gate is verified and credential recorded:
      a failed reconciliation, or signing and then one or two reconciliations. */
  predicate AfterRecording(input: Input, gate: VerifiedGate, evidence: CredentialEvidence, rest: seq<Event>) {
    if |rest| == 1 then
      CitesRun(rest[0].call, gate, evidence) && rest[0].call.status.Failed?
    else if |rest| == 2 then
      && IsSigning(rest[0].call, input, gate, evidence)
      && CitesRun(rest[1].call, gate, evidence)
      && (if rest[0].reply.SignReply?
          then rest[1].call.status == StatusOf(rest[0].reply.signature) && Reconciled(rest[1])
          else rest[1].call.status.Failed?)
    else
      && |rest| == 3
      && IsSigning(rest[0].call, input, gate, evidence) && rest[0].reply.SignReply?
      && CitesRun(rest[1].call, gate, evidence) && !Reconciled(rest[1])
      && CitesRun(rest[2].call, gate, evidence) && rest[2].call.status.Failed?
  }

  /** The last call is a reconciliation; the outcome is that of its status, and the run only
      rejects when a failed reconciliation itself did not come through. */
  predicate EndsReconciled(t: seq<Event>, f: RunState) {
    t != [] && (var last := t[|t| - 1];
      last.call.Reconcile?
      && (last.reply.ReconcileReply? ==> f == Returned(OutcomeFor(last.call.status)))
      && (!last.reply.ReconcileReply? ==> f == Rejected && last.call.status.Failed?))
  }

  lemma FailureAfterRecording(input: Input, gate: VerifiedGate, evidence: CredentialEvidence, replies: seq<Reply>)
    ensures AfterRecording(input, gate, evidence, Trace(input, AtFailure(gate, Some(evidence)), replies))
    ensures EndsReconciled(Trace(input, AtFailure(gate, Some(evidence)), replies),
                           Final(input, AtFailure(gate, Some(evidence)), replies))
  {
    FromFailure(input, gate, Some(evidence), replies);
  }

  lemma CitesInSuccess(s: SignatureEvidence, e: CredentialEvidence)
    ensures CredentialRef(e) in SignedEvidenceRefs(s, e)
  {
    assert SignedEvidenceRefs(s, e)[3] == CredentialRef(e);
  }

  lemma ReconcileAfterSigning(input: Input, gate: VerifiedGate, evidence: CredentialEvidence,
                              signature: SignatureEvidence, replies: seq<Reply>)
    ensures var t := Trace(input, AtReconcile(gate, evidence, signature), replies);
      && EndsReconciled(t, Final(input, AtReconcile(gate, evidence, signature), replies))
      && 1 <= |t| <= 2
      && CitesRun(t[0].call, gate, evidence) && t[0].call.status == StatusOf(signature)
      && (|t| == 1 <==> Reconciled(t[0]))
      && (|t| == 2 ==> CitesRun(t[1].call, gate, evidence) && t[1].call.status.Failed?)
  {
    FromReconcile(input, gate, evidence, signature, replies);
    FromFailure(input, gate, Some(evidence), Tail(replies));
    CitesInSuccess(signature, evidence);
  }

  lemma SignedAfterRecording(input: Input, gate: VerifiedGate, evidence: CredentialEvidence, replies: seq<Reply>)
    requires HeldByGateway(SigningCommand(input, gate, evidence))
    ensures AfterRecording(input, gate, evidence, Trace(input, AtSign(gate, evidence), replies))
    ensures EndsReconciled(Trace(input, AtSign(gate, evidence), replies), Final(input, AtSign(gate, evidence), replies))
  {
    TraceStep(input, AtSign(gate, evidence), replies);
    if Head(replies).SignReply? {
      ReconcileAfterSigning(input, gate, evidence, Head(replies).signature, Tail(replies));
    } else {
      FromFailure(input, gate, Some(evidence), Tail(replies));
    }
  }

  /** What is left of a run once its gate is verified: recording, and then a failed reconciliation,
      or what may follow recording. */
  predicate RecordedRun(input: Input, gate: VerifiedGate, t: seq<Event>, f: RunState) {
    && |t| >= 2 && t[0].call == Pending(input, AtRecord(gate)) && EndsReconciled(t, f)
    && (if t[0].reply.CredentialReply? then AfterRecording(input, gate, t[0].reply.evidence, t[1..])
        else |t| == 2 && t[1].call == Pending(input, AtFailure(gate, None)))
  }

  lemma EndsAlike(t: seq<Event>, f: RunState)
    requires |t| >= 2 && EndsReconciled(t[1..], f)
    ensures EndsReconciled(t, f)
  {
    assert t[1..][|t[1..]| - 1] == t[|t| - 1];
  }

  lemma FromRecord(input: Input, gate: VerifiedGate, replies: seq<Reply>)
    ensures RecordedRun(input, gate, Trace(input, AtRecord(gate), replies), Final(input, AtRecord(gate), replies))
  {
    TraceStep(input, AtRecord(gate), replies);
    var reply := Head(replies);
    if reply.CredentialReply? {
      var evidence := reply.evidence;
      if HeldByGateway(SigningCommand(input, gate, evidence)) {
        SignedAfterRecording(input, gate, evidence, Tail(replies));
      } else {
        FailureAfterRecording(input, gate, evidence, Tail(replies));
      }
      EndsAlike(Trace(input, AtRecord(gate), replies), Final(input, AtRecord(gate), replies));
    } else {
      FromFailure(input, gate, None, Tail(replies));
    }
  }

  /** A run begins with the gateway check; without a verified gate there is no other call,
      and the outcome tells refusal from a check that is not authoritative. */
  lemma NoGateNoCalls(input: Input, replies: seq<Reply>)
    ensures |Run(input, replies)| >= 1 && Run(input, replies)[0].call == Pending(input, AtCheck)
    ensures GateOf(Run(input, replies)[0]).None? <==> |Run(input, replies)| == 1
    ensures |Run(input, replies)| == 1 ==>
      Result(input, replies) == (match Head(replies)
        case CheckReply(r) => Returned(if r.decision.GateRefused? then CheckRefused else CheckNotAuthoritative)
        case _ => Rejected)
  {
    TraceStep(input, AtCheck, replies);
    var gate := GateOf(Run(input, replies)[0]);
    if gate.Some? {
      FromRecord(input, gate.value, Tail(replies));
    }
  }

  /** A verified run in full: its trace is the check, the recording, and what may follow. */
  lemma VerifiedRun(input: Input, replies: seq<Reply>)
    requires GateOf(Run(input, replies)[0]).Some?
    ensures var gate := GateOf(Run(input, replies)[0]).value;
      Run(input, replies)[1..] == Trace(input, AtRecord(gate), Tail(replies))
      && Result(input, replies) == Final(input, AtRecord(gate), Tail(replies))
  {
    TraceStep(input, AtCheck, replies);
  }

  /** Whichever calls throw: `signPayment` is called at most once, third, after a check that
      verified the command's own gate and a recording that returned the command's own
      evidence, and only with gateway-held custody of exactly the observed parameters. */
  lemma SigningIsGated(input: Input, replies: seq<Reply>, i: nat)
    requires i < |Run(input, replies)| && Run(input, replies)[i].call.SignPayment?
    ensures i == 2
    ensures var t := Run(input, replies);
      var command := t[2].call.command;
      && GateOf(t[0]) == Some(command.gate)
      && t[1].call.RecordCredential? && t[1].reply == CredentialReply(command.evidence)
      && t[1].call.gateAttemptId == command.gate.gateAttemptId
      && HeldByGateway(command) && command.parameters == input.parameters
  {
    NoGateNoCalls(input, replies);
    var t := Run(input, replies);
    VerifiedRun(input, replies);
    assert t[i] == t[1..][i - 1];
    FromRecord(input, GateOf(t[0]).value, Tail(replies));
    SigningFollowsRecording(input, GateOf(t[0]).value, t[1..], Result(input, replies), i - 1);
    assert t[1] == t[1..][0] && t[2] == t[1..][1];
  }

  /** From the recording of the credential on, signing is the second call. */
  lemma SigningFollowsRecording(input: Input, gate: VerifiedGate, t: seq<Event>, f: RunState, i: nat)
    requires RecordedRun(input, gate, t, f) && i < |t| && t[i].call.SignPayment?
    ensures i == 1 && t[0].reply.CredentialReply? && IsSigning(t[1].call, input, gate, t[0].reply.evidence)
  {
    if i > 0 && t[0].reply.CredentialReply? {
      assert t[1..][i - 1] == t[i];
      assert t[1..][0] == t[1];
    }
  }

  /** From the recording on, the reconciliations are the last calls; a second one follows only
      one that did not come through, and reports failure. */
  lemma ReconciliationsFromRecording(input: Input, gate: VerifiedGate, t: seq<Event>, f: RunState, i: nat, j: nat)
    requires RecordedRun(input, gate, t, f) && i < j < |t|
    requires t[i].call.Reconcile? && t[j].call.Reconcile?
    ensures !t[i].reply.ReconcileReply? && j == |t| - 1 && t[j].call.status.Failed? && t[1].call.SignPayment?
  {
    if t[0].reply.CredentialReply? {
      assert t[1..][i - 1] == t[i] && t[1..][j - 1] == t[j] && t[1..][0] == t[1];
    }
  }

  /** From the recording on, the last call reconciles the gate's mutation. */
  lemma LastFromRecording(input: Input, gate: VerifiedGate, t: seq<Event>, f: RunState)
    requires RecordedRun(input, gate, t, f)
    ensures var last := t[|t| - 1].call;
      && last.mutationAttemptId == gate.mutationAttemptId && last.idempotencyKey == gate.idempotencyKey
      && (t[0].reply.CredentialReply? ==> CredentialRef(t[0].reply.evidence) in last.evidenceRefs)
      && (!last.status.Failed? ==> |t| == 3 && t[1].call.SignPayment? && t[1].reply.SignReply?
                                   && last.status == StatusOf(t[1].reply.signature))
  {
    if t[0].reply.CredentialReply? {
      var rest := t[1..];
      assert rest[|rest| - 1] == t[|t| - 1] && rest[0] == t[1];
    }
  }

  /** A second reconciliation happens only after the first did not come through; it is the
      last call of the run, and reports failure. */
  lemma SecondReconciliationIsFailure(input: Input, replies: seq<Reply>, i: nat, j: nat)
    requires i < j < |Run(input, replies)|
    requires Run(input, replies)[i].call.Reconcile? && Run(input, replies)[j].call.Reconcile?
    ensures var t := Run(input, replies);
      !t[i].reply.ReconcileReply? && j == |t| - 1 && t[j].call.status.Failed? && t[2].call.SignPayment?
  {
    NoGateNoCalls(input, replies);
    var t := Run(input, replies);
    VerifiedRun(input, replies);
    assert t[1..][i - 1] == t[i] && t[1..][j - 1] == t[j];
    FromRecord(input, GateOf(t[0]).value, Tail(replies));
    ReconciliationsFromRecording(input, GateOf(t[0]).value, t[1..], Result(input, replies), i - 1, j - 1);
    assert t[1..][1] == t[2];
  }

  /** No verified gate goes unreconciled: a verified run ends with a reconciliation of that
      gate's mutation, its outcome is that of the reconciled status, and it rejects only
      when reporting the failure itself failed. */
  lemma VerifiedRunsEndReconciled(input: Input, replies: seq<Reply>)
    requires GateOf(Run(input, replies)[0]).Some?
    ensures EndsReconciled(Run(input, replies), Result(input, replies))
    ensures var t := Run(input, replies);
      var last := t[|t| - 1].call;
      var gate := GateOf(t[0]).value;
      && last.mutationAttemptId == gate.mutationAttemptId && last.idempotencyKey == gate.idempotencyKey
      && (t[1].reply.CredentialReply? ==> CredentialRef(t[1].reply.evidence) in last.evidenceRefs)
      && (!last.status.Failed? ==> |t| == 4 && t[2].call.SignPayment? && t[2].reply.SignReply?
                                   && last.status == StatusOf(t[2].reply.signature))
  {
    NoGateNoCalls(input, replies);
    var t := Run(input, replies);
    VerifiedRun(input, replies);
    FromRecord(input, GateOf(t[0]).value, Tail(replies));
    LastFromRecording(input, GateOf(t[0]).value, t[1..], Result(input, replies));
    assert t[1..][0] == t[1] && t[1..][1] == t[2] && t[1..][|t| - 2] == t[|t| - 1];
  }
}
