/** What the auth.md gateway can leak into a reconciliation: nothing that the API or a thrown value
    says, but the texts the gateway adds itself are not scanned, or are used even when the scan
    refuses them (src/adapters/auth-md/gateway.ts). */
module AuthMdLeaks {
  import opened JsText
  import opened JsonValues
  import opened AuthMdActions
  import opened LeakScanner
  import opened AuthMdRun
  import opened AuthMdGateway
  import AuthMdCalls
  import Digests
  import X402WalletGateway

  // ----------------------------------------------------- scanning records

  predicate MaybeFlagged(secret: JsString -> bool, o: Option<JsString>) {
    o.Some? && Flagged(secret, o.value)
  }

  predicate AnyFlagged(secret: JsString -> bool, texts: seq<JsString>) {
    exists i :: 0 <= i < |texts| && Flagged(secret, texts[i])
  }

  lemma FieldLeaks(secret: JsString -> bool, key: string, s: JsString, o: Option<JsString>)
    ensures Leaks(secret, Texts(key, s).value) <==> Flagged(secret, s)
    ensures Leaks(secret, MaybeText(key, o).value) <==> MaybeFlagged(secret, o)
  {
  }

  lemma ListLeaks(secret: JsString -> bool, key: string, texts: seq<JsString>)
    ensures Leaks(secret, TextList(key, texts).value) <==> AnyFlagged(secret, texts)
  {
    var items := TextList(key, texts).value.items;
    SomeItem(Flags(secret), items, 0);
    assert forall i :: 0 <= i < |texts| ==> items[i] == Str(texts[i]);
    if AnyFlagged(secret, texts) {
      var i :| 0 <= i < |texts| && Flagged(secret, texts[i]);
      assert FirstFlagged(Flags(secret), items[i]).Some?;
    }
  }

  lemma ObjectLeaks(secret: JsString -> bool, fields: seq<Field>)
    ensures Leaks(secret, Obj(fields)) <==> exists i :: 0 <= i < |fields| && Leaks(secret, fields[i].value)
  {
    SomeField(Flags(secret), fields, 0);
  }

  /** The texts of a failure report, and which of them the scan refuses. */
  lemma FailureLeaks(secret: JsString -> bool, f: FailureEvidence)
    ensures Leaks(secret, FailureValue(f)) <==>
      || MaybeFlagged(secret, f.providerRequestRef) || Flagged(secret, f.providerOperationRef)
      || Flagged(secret, f.diagnosticsDigest) || MaybeFlagged(secret, f.traceRef) || MaybeFlagged(secret, f.spanRef)
      || AnyFlagged(secret, f.evidenceRefs)
  {
    var fields := FailureValue(f).fields;
    ObjectLeaks(secret, fields);
    FieldLeaks(secret, "providerOperationRef", f.providerOperationRef, f.providerRequestRef);
    FieldLeaks(secret, "redactedDiagnosticsDigest", f.diagnosticsDigest, f.traceRef);
    FieldLeaks(secret, "providerOperationRef", f.providerOperationRef, f.spanRef);
    ListLeaks(secret, "evidenceRefs", f.evidenceRefs);
    SixFields(secret, fields);
  }

  lemma SixFields(secret: JsString -> bool, fields: seq<Field>)
    requires |fields| == 6
    ensures (exists i :: 0 <= i < |fields| && Leaks(secret, fields[i].value)) <==>
      || Leaks(secret, fields[0].value) || Leaks(secret, fields[1].value) || Leaks(secret, fields[2].value)
      || Leaks(secret, fields[3].value) || Leaks(secret, fields[4].value) || Leaks(secret, fields[5].value)
  {
  }

  /** Evidence that passed the scan has no flagged text. */
  lemma ApiIsClean(secret: JsString -> bool, api: ApiEvidence)
    requires !Leaks(secret, ApiValue(api))
    ensures !Flagged(secret, api.evidenceRef) && !Flagged(secret, api.surfaceOperationRef)
    ensures !MaybeFlagged(secret, api.providerRequestRef) && !MaybeFlagged(secret, api.providerOperationRef)
    ensures !AnyFlagged(secret, api.evidenceRefs)
  {
    var fields := ApiValue(api).fields;
    ObjectLeaks(secret, fields);
    assert !Leaks(secret, fields[0].value) && !Leaks(secret, fields[1].value);
    assert !Leaks(secret, fields[7].value) && !Leaks(secret, fields[8].value) && !Leaks(secret, fields[9].value);
    FieldLeaks(secret, "evidenceRef", api.evidenceRef, api.providerRequestRef);
    FieldLeaks(secret, "surfaceOperationRef", api.surfaceOperationRef, api.providerOperationRef);
    ListLeaks(secret, "evidenceRefs", api.evidenceRefs);
  }

  // ------------------------------------------- failure reports, exactly

  const REDACTION_FAILURE: JsString := Js("redaction_failure")

  lemma OneFlagged(secret: JsString -> bool, s: JsString)
    ensures AnyFlagged(secret, [s]) <==> Flagged(secret, s)
  {
    assert [s][0] == s;
  }

  /** The bare report leaks exactly when the run's own operation ref, the failure ref made of it,
      or the redaction digest is flagged. */
  lemma BareFailureLeaksExactly(g: Gateway)
    ensures Leaks(g.secret, FailureValue(BareFailure(g))) <==>
      || Flagged(g.secret, OperationRef(g)) || Flagged(g.secret, FailureRef(g))
      || Flagged(g.secret, g.digests(REDACTION_FAILURE))
  {
    FailureLeaks(g.secret, BareFailure(g));
    OneFlagged(g.secret, FailureRef(g));
  }

  /** What is reported leaks exactly when both the failure evidence and its bare replacement do. */
  lemma ReportLeaksExactly(g: Gateway, signal: Signal)
    ensures Leaks(g.secret, FailureValue(RedactedFailure(g, signal))) <==>
      Leaks(g.secret, FailureValue(RawFailure(g, signal))) && Leaks(g.secret, FailureValue(BareFailure(g)))
  {
  }

  /** For an error raised by the gateway itself: exactly when its operation ref or failure ref is
      flagged, or both digests are. */
  lemma LocalReportLeaksExactly(g: Gateway, code: JsString)
    ensures Leaks(g.secret, FailureValue(RedactedFailure(g, LocalSignal(g, code)))) <==>
      || Flagged(g.secret, OperationRef(g)) || Flagged(g.secret, FailureRef(g))
      || (Flagged(g.secret, g.digests(code)) && Flagged(g.secret, g.digests(REDACTION_FAILURE)))
  {
    var raw := RawFailure(g, LocalSignal(g, code));
    ReportLeaksExactly(g, LocalSignal(g, code));
    BareFailureLeaksExactly(g);
    FailureLeaks(g.secret, raw);
    assert raw.evidenceRefs == [FailureRef(g)];
    OneFlagged(g.secret, FailureRef(g));
  }

  // ------------------------------------------------ a whole reconciliation

  predicate ReportLeaks(secret: JsString -> bool, report: Report) {
    if report.OfCall? then Leaks(secret, ApiValue(report.api)) else Leaks(secret, FailureValue(report.failure))
  }

  /** Whether the scan would refuse a reconciliation as it is sent. */
  predicate CallLeaks(secret: JsString -> bool, call: Call) {
    call.Reconcile? && (
      || Flagged(secret, call.mutationAttemptId) || Flagged(secret, call.idempotencyKey)
      || Flagged(secret, call.observedRef)
      || MaybeFlagged(secret, call.providerRequest) || MaybeFlagged(secret, call.providerOperation)
      || AnyFlagged(secret, call.evidenceRefs) || ReportLeaks(secret, call.report))
  }

  lemma AnyInParts(secret: JsString -> bool, a: seq<JsString>, b: seq<JsString>)
    ensures AnyFlagged(secret, a + b) <==> AnyFlagged(secret, a) || AnyFlagged(secret, b)
  {
    if AnyFlagged(secret, a) {
      var i :| 0 <= i < |a| && Flagged(secret, a[i]);
      assert (a + b)[i] == a[i];
    }
    if AnyFlagged(secret, b) {
      var i :| 0 <= i < |b| && Flagged(secret, b[i]);
      assert (a + b)[|a| + i] == b[i];
    }
    if AnyFlagged(secret, a + b) {
      var i :| 0 <= i < |a + b| && Flagged(secret, (a + b)[i]);
      assert i < |a| ==> a[i] == (a + b)[i];
      assert i >= |a| ==> b[i - |a|] == (a + b)[i];
    }
  }

  predicate GateFlagged(secret: JsString -> bool, gate: VerifiedGate) {
    Flagged(secret, gate.mutationAttemptId) || Flagged(secret, gate.idempotencyKey)
  }

  /** A failed or refused reconciliation leaks exactly when the gate's ids, the operation ref, the
      report, or a ref that is added after the scan is flagged. */
  lemma FailureCallLeaksExactly(secret: JsString -> bool, input: Input, gate: VerifiedGate, status: Status,
                                signal: Signal, refs: seq<JsString>)
    ensures CallLeaks(secret, FailureCall(input, gate, status, signal, refs)) <==>
      || GateFlagged(secret, gate) || Flagged(secret, input.surfaceOperationRef)
      || Leaks(secret, FailureValue(input.report(signal))) || AnyFlagged(secret, refs)
  {
    var failure := input.report(signal);
    FailureLeaks(secret, failure);
    AnyInParts(secret, failure.evidenceRefs, refs);
  }

  // ----------------------------------------------------- no run leaks

  function DigestRefs(api: ApiEvidence): seq<JsString> {
    if api.responseDigest.Some? && api.responseDigest.value != [] then [Js("digest:") + api.responseDigest.value]
    else []
  }

  /** The reconciliation of a scanned API call leaks exactly when the gate's ids are flagged, or
      one of the two refs that are added after the scan. */
  lemma ApiCallLeaksExactly(secret: JsString -> bool, gate: VerifiedGate, evidence: CredentialEvidence, api: ApiEvidence)
    requires !Leaks(secret, ApiValue(api))
    ensures CallLeaks(secret, ReconcileCallFor(gate, evidence, api)) <==>
      || GateFlagged(secret, gate) || AnyFlagged(secret, CredentialRefs(Some(evidence)))
      || AnyFlagged(secret, DigestRefs(api))
  {
    ApiIsClean(secret, api);
    OneFlagged(secret, api.evidenceRef);
    var refs := CredentialRefs(Some(evidence));
    AnyInParts(secret, [api.evidenceRef] + api.evidenceRefs + refs, DigestRefs(api));
    AnyInParts(secret, [api.evidenceRef] + api.evidenceRefs, refs);
    AnyInParts(secret, [api.evidenceRef], api.evidenceRefs);
  }

  /** What the gateway itself adds to a reconciliation, all of it known before the run: its
      operation ref, the failure ref, the redaction digest and the refs of the unsafe reasons. */
  predicate OwnTextsClean(g: Gateway) {
    && !Flagged(g.secret, OperationRef(g)) && !Flagged(g.secret, FailureRef(g))
    && !Flagged(g.secret, g.digests(REDACTION_FAILURE))
    && !AnyFlagged(g.secret, ReasonRefs(UnsafeReasons(g.pf, g.parameters)))
  }

  /** What the protocol adds: the gate's ids, the credential's ref and the response digest's. */
  predicate ReplyClean(secret: JsString -> bool, reply: Reply) {
    match reply
    case CheckReply(_) => GateOf(reply).Some? ==> !GateFlagged(secret, GateOf(reply).value)
    case CredentialReply(evidence) => !AnyFlagged(secret, CredentialRefs(Some(evidence)))
    case ApiReply(api) => !AnyFlagged(secret, DigestRefs(api))
    case _ => true
  }

  predicate RepliesClean(secret: JsString -> bool, replies: seq<Reply>) {
    forall i :: 0 <= i < |replies| ==> ReplyClean(secret, replies[i])
  }

  /** A run's input that adds nothing flagged and lets nothing flagged through. */
  ghost predicate CleanInput(secret: JsString -> bool, input: Input) {
    && !Flagged(secret, input.surfaceOperationRef) && !AnyFlagged(secret, ReasonRefs(input.reasons))
    && (forall api :: input.leak(api).None? ==> !Leaks(secret, ApiValue(api)))
    && (forall signal :: !Leaks(secret, FailureValue(input.report(signal))))
  }

  lemma RunInputIsClean(g: Gateway)
    requires OwnTextsClean(g)
    ensures CleanInput(g.secret, RunInput(g))
  {
    BareFailureLeaksExactly(g);
    forall signal ensures !Leaks(g.secret, FailureValue(RunInput(g).report(signal))) {
      ReportLeaksExactly(g, signal);
    }
  }

  predicate StateClean(secret: JsString -> bool, s: RunState) {
    match s
    case AtRefusal(gate) => !GateFlagged(secret, gate)
    case AtRecord(gate) => !GateFlagged(secret, gate)
    case AtExecute(gate, evidence) =>
      !GateFlagged(secret, gate) && !AnyFlagged(secret, CredentialRefs(Some(evidence)))
    case AtReconcile(gate, evidence, api) =>
      && !GateFlagged(secret, gate) && !AnyFlagged(secret, CredentialRefs(Some(evidence)))
      && !AnyFlagged(secret, DigestRefs(api)) && !Leaks(secret, ApiValue(api))
    case AtFailure(gate, recorded, _) =>
      !GateFlagged(secret, gate) && !AnyFlagged(secret, CredentialRefs(recorded))
    case _ => true
  }

  lemma PendingIsClean(secret: JsString -> bool, input: Input, s: RunState)
    requires CleanInput(secret, input) && StateClean(secret, s) && !Finished(s)
    ensures !CallLeaks(secret, Pending(input, s))
  {
    match s
    case AtRefusal(gate) =>
      FailureCallLeaksExactly(secret, input, gate, Refused, input.refusalSignal, ReasonRefs(input.reasons));
    case AtReconcile(gate, evidence, api) => ApiCallLeaksExactly(secret, gate, evidence, api);
    case AtFailure(gate, recorded, signal) =>
      FailureCallLeaksExactly(secret, input, gate, Failed, signal, CredentialRefs(recorded));
    case _ =>
  }

  lemma NextIsClean(secret: JsString -> bool, input: Input, s: RunState, reply: Reply)
    requires CleanInput(secret, input) && StateClean(secret, s) && !Finished(s) && ReplyClean(secret, reply)
    ensures StateClean(secret, Next(input, s, reply))
  {
    NoCredentialIsClean(secret);
  }

  lemma NoCredentialIsClean(secret: JsString -> bool)
    ensures !AnyFlagged(secret, CredentialRefs(None))
  {
  }

  lemma TraceAt(input: Input, s: RunState, replies: seq<Reply>, i: nat)
    requires !Finished(s) && i < |Trace(input, s, replies)|
    ensures i == 0 ==> Trace(input, s, replies)[i].call == Pending(input, s)
    ensures i > 0 ==>
      && i - 1 < |Trace(input, Next(input, s, Head(replies)), Tail(replies))|
      && Trace(input, s, replies)[i] == Trace(input, Next(input, s, Head(replies)), Tail(replies))[i - 1]
  {
    TraceStep(input, s, replies);
  }

  lemma RepliesStayClean(secret: JsString -> bool, replies: seq<Reply>)
    requires RepliesClean(secret, replies)
    ensures ReplyClean(secret, Head(replies)) && RepliesClean(secret, Tail(replies))
  {
  }

  lemma {:induction false} TraceIsClean(secret: JsString -> bool, input: Input, s: RunState, replies: seq<Reply>, i: nat)
    requires CleanInput(secret, input) && StateClean(secret, s) && RepliesClean(secret, replies)
    requires i < |Trace(input, s, replies)|
    ensures !CallLeaks(secret, Trace(input, s, replies)[i].call)
    decreases i
  {
    TraceAt(input, s, replies, i);
    if i == 0 {
      PendingIsClean(secret, input, s);
    } else {
      RepliesStayClean(secret, replies);
      NextIsClean(secret, input, s, Head(replies));
      TraceIsClean(secret, input, Next(input, s, Head(replies)), Tail(replies), i - 1);
    }
  }

  /** When neither the gateway's own texts nor the protocol's ids are flagged, no reconciliation of
      any run contains a flagged text anywhere, whatever the API answers and whatever is thrown. */
  lemma NoReconciliationLeaks(g: Gateway, replies: seq<Reply>, i: nat)
    requires OwnTextsClean(g) && RepliesClean(g.secret, replies)
    requires i < |Run(RunInput(g), replies)|
    ensures !CallLeaks(g.secret, Run(RunInput(g), replies)[i].call)
  {
    RunInputIsClean(g);
    TraceIsClean(g.secret, RunInput(g), AtCheck, replies, i);
  }

  // ----------------------------------------------------- a run that leaks

  lemma RefusalCallIs(input: Input, replies: seq<Reply>)
    requires GateOf(Head(replies)).Some? && input.reasons != []
    ensures |Run(input, replies)| == 2
    ensures Run(input, replies)[1].call
         == FailureCall(input, GateOf(Head(replies)).value, Refused, input.refusalSignal, ReasonRefs(input.reasons))
  {
    TraceStep(input, AtCheck, replies);
    TraceStep(input, AtRefusal(GateOf(Head(replies)).value), Tail(replies));
  }

  /** The one reconciliation of a run with unsafe parameters: it leaks exactly when the gate's ids,
      a reason ref, the operation ref or the failure ref is flagged, or both digests are. */
  lemma UnsafeRunLeaksExactly(g: Gateway, replies: seq<Reply>)
    requires GateOf(Head(replies)).Some? && UnsafeReasons(g.pf, g.parameters) != []
    ensures |Run(RunInput(g), replies)| == 2
    ensures var reasons := UnsafeReasons(g.pf, g.parameters);
      CallLeaks(g.secret, Run(RunInput(g), replies)[1].call) <==>
        || GateFlagged(g.secret, GateOf(Head(replies)).value)
        || AnyFlagged(g.secret, ReasonRefs(reasons))
        || Flagged(g.secret, OperationRef(g)) || Flagged(g.secret, FailureRef(g))
        || (Flagged(g.secret, g.digests(reasons[0])) && Flagged(g.secret, g.digests(REDACTION_FAILURE)))
  {
    var input := RunInput(g);
    var gate := GateOf(Head(replies)).value;
    RefusalCallIs(input, replies);
    FailureCallLeaksExactly(g.secret, input, gate, Refused, input.refusalSignal, ReasonRefs(input.reasons));
    LocalReportLeaksExactly(g, UnsafeReasons(g.pf, g.parameters)[0]);
  }

  const PASSWORD: JsString := Js("password=hunter2")

  predicate IsPassword(text: JsString) {
    text == PASSWORD
  }

  function ZeroDigest(code: JsString): JsString {
    Digests.ZERO_DIGEST
  }

  /** Parameters whose recorded origin is not that of the protected resource. */
  function DriftedParameters(): Parameters {
    Parameters(AuthMdCalls.UsersAttempt().shared, Js("https://other.example"), Js("https://api.example"), Js("POST"),
               [Js("users:write")], true)
  }

  lemma DriftIsUnsafe()
    ensures UnsafeReasons(AuthMdCalls.OneOrigin(), DriftedParameters()) != []
  {
    assert |Js("https://other.example")| == 21 && |Js("https://api.example")| == 19;
    assert !OriginsRecorded(AuthMdCalls.OneOrigin(), DriftedParameters());
  }

  function PassedCheck(): Reply {
    CheckReply(X402WalletGateway.GatewayCheckResult(Js("gate"), X402WalletGateway.GatePassed,
      Some(X402WalletGateway.MutationAttempt(Js("mutation"), Js("contract"), Js("greenlight"), Js("gateway"),
                                             Js("protected_api_call"), Js("resource"), Js("key"), Some(Js("op"))))))
  }

  lemma PassedCheckVerifies()
    ensures GateOf(Head([PassedCheck()])).Some?
  {
    assert |Js("op")| == 2;
  }

  /** A gateway whose caller put a secret into the operation ref. */
  function LeakyGateway(hash: Digests.Hash): Gateway {
    Gateway(AuthMdCalls.OneOrigin(), hash, IsPassword, ZeroDigest, Js("contract"), Js("greenlight"),
            DriftedParameters(), Some(PASSWORD))
  }

  /** A run of it: the scan refuses the failure evidence, and the bare report that replaces it
      carries the secret all the same. */
  lemma BareReportLeaks(hash: Digests.Hash)
    ensures var g := LeakyGateway(hash);
      && |Run(RunInput(g), [PassedCheck()])| == 2
      && CallLeaks(g.secret, Run(RunInput(g), [PassedCheck()])[1].call)
  {
    var g := LeakyGateway(hash);
    DriftIsUnsafe();
    PassedCheckVerifies();
    FlaggedItself(g.secret, PASSWORD);
    UnsafeRunLeaksExactly(g, [PassedCheck()]);
  }

  lemma FlaggedItself(secret: JsString -> bool, text: JsString)
    requires secret(text)
    ensures Flagged(secret, text)
  {
    assert VariantsAdded(text)[0] == text;
  }
}
