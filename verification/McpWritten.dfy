/** What a proposal is answered and what it asks of the runtime, written out from its fields, its
    options and the replies (src/mcp/x402-proposal.ts). */
module McpWritten {
  import opened JsText
  import opened Decimal
  import opened Digests
  import opened X402Payment
  import opened McpIdempotency
  import opened McpAmounts
  import opened McpProposalRun
  import opened McpProposal
  import ResourceTemplates
  import UriComponent
  import X402Built
  import X402Grounds

  // ----------------------------------------------------------- thrown errors

  function CodeOf(e: RuntimeError): JsString {
    match e.code
    case Some(code) => code
    case None => Js("mcp_runtime_bridge_error")
  }

  predicate IsReplay(e: RuntimeError) {
    CodeOf(e) == Js("already_consumed") || CodeOf(e) == Js("idempotency_duplicate_authority")
  }

  predicate IsMismatch(e: RuntimeError) {
    CodeOf(e) == Js("idempotency_key_params_mismatch")
  }

  predicate Given(ref: Option<JsString>) {
    ref.Some? && ref.value != []
  }

  predicate Unprintable(ref: Option<JsString>) {
    Given(ref) && UriComponent.Encode(ref.value) == None
  }

  lemma CodesAreWritten(e: RuntimeError)
    ensures ErrorCode(e) == CodeOf(e)
    ensures IsReplay(e) <==> ErrorCode(e) == ALREADY_CONSUMED || ErrorCode(e) == DUPLICATE_AUTHORITY
    ensures IsMismatch(e) <==> ErrorCode(e) == PARAMS_MISMATCH
    ensures !(IsReplay(e) && IsMismatch(e))
  {
    assert |Js("already_consumed")| == 16 && |Js("idempotency_duplicate_authority")| == 31;
    assert Js("idempotency_key_params_mismatch")[12] == 107 && Js("idempotency_duplicate_authority")[12] == 100;
    assert |Js("idempotency_key_params_mismatch")| == 31;
  }

  /** A thrown error is answered unless one of its refs, or a ref to the request, cannot be
      encoded. */
  lemma CaughtUnlessUnprintable(t: Ticket, e: RuntimeError)
    ensures Caught(t, e) == Rejected
       <==> || Unprintable(e.proofRef) || Unprintable(e.refusalRef)
            || ((IsReplay(e) || IsMismatch(e)) && !t.requestIdEncodes)
  {
    CodesAreWritten(e);
  }

  /** What it is answered with: its code alone, under the proposal's key; a replay as a replay, a
      mismatch as refused, any other by what the error says was recorded. */
  lemma CaughtIs(t: Ticket, e: RuntimeError)
    requires Caught(t, e).Answered?
    ensures var o := Caught(t, e).outcome;
      && o.reasonCodes == [CodeOf(e)] && o.idempotencyKey == t.idempotencyKey && o.proposed == None
      && (o.kind == ReplayRefused <==> IsReplay(e))
      && (o.kind == McpProposalRun.Refused <==>
            IsMismatch(e) || (!IsReplay(e) && !Given(e.proofRef) && Given(e.refusalRef)))
      && (o.kind == ProofGap <==> !IsReplay(e) && !IsMismatch(e) && Given(e.proofRef))
      && (o.kind == ToolExecutionError <==>
            !IsReplay(e) && !IsMismatch(e) && !Given(e.proofRef) && !Given(e.refusalRef))
      && (o.nextAction == Stop <==> o.kind == ToolExecutionError)
      && (o.nextAction == RecraftRequest <==> IsMismatch(e) && !Given(e.proofRef) && !Given(e.refusalRef))
      && (o.nextAction == ReadEvidence <==> o.nextAction != Stop && o.nextAction != RecraftRequest)
  {
    CodesAreWritten(e);
  }

  /** A committed or accepted error was recorded, an unknown or ambiguous one may have been. */
  lemma CommitStateIs(t: Ticket, e: RuntimeError)
    requires Caught(t, e).Answered?
    ensures var o := Caught(t, e).outcome;
      && (o.commitState == ProtocolRecorded <==> e.commitState == Committed || e.commitState == ErrorCommit.Accepted)
      && (o.commitState == Ambiguous <==> e.commitState == UnknownCommit || e.commitState == AmbiguousCommit)
  {
  }

  // ------------------------------------------------------------- compilations

  predicate Proposable(c: Compilation) {
    && c.contractable && c.uncertaintyMarkers == [] && c.overreachReasonCodes == [] && c.refusalReasonCodes == []
    && Given(c.candidateDigest)
  }

  lemma ProposableExactly(c: Compilation)
    ensures Contractable(c) <==> Proposable(c)
  {
    var codes := CompilationCodes(c);
    assert |codes| == |c.uncertaintyMarkers| + |c.overreachReasonCodes| + |c.refusalReasonCodes|;
  }

  function RefusalOf(c: Compilation): seq<JsString> {
    var codes := c.uncertaintyMarkers + c.overreachReasonCodes + c.refusalReasonCodes;
    if codes != [] then codes
    else if !c.contractable then [Js("mcp_candidate_not_contractable")]
    else [Js("mcp_candidate_digest_missing")]
  }

  /** Any other compilation is refused, with its own codes if it has any. */
  lemma RefusedCompilationIs(t: Ticket, c: Compilation)
    requires t.requestIdEncodes
    ensures RefusedCompilation(t, c)
         == Answered(Outcome(McpProposalRun.Refused, RefusalOf(c), RecraftRequest, ProtocolRecorded,
                             t.idempotencyKey, None))
  {
  }

  // ---------------------------------------------------- the calls, one by one

  predicate Drafts(t: Ticket, executionId: JsString, c: Call) {
    && c.CreateToolCallDraft? && t.resourceRef == Some(c.resourceRef)
    && c.runtimeExecutionId == executionId && c.atomicAmount == t.atomicAmount
  }

  predicate Finalizes(t: Ticket, openedId: JsString, c: Call) {
    c.FinalizeToolCallDraft? && c.toolCallDraftId == openedId && c.atomicAmount == t.atomicAmount
  }

  predicate Compiles(t: Ticket, executionId: JsString, draftId: JsString, c: Call) {
    && c.CompileIntent? && t.resourceRef == Some(c.resourceRef)
    && c.runtimeExecutionId == executionId && c.toolCallDraftId == draftId && c.atomicAmount == t.atomicAmount
    && c.maxAtomicAmountPerCall == t.maxAtomicAmountPerCall && c.idempotencyKey == t.idempotencyKey
  }

  predicate Proposes(c: Compilation, call: Call) {
    && call.ProposeActionContract? && c.candidateDigest == Some(call.candidateDigest)
    && call.intentCompilationId == c.intentCompilationId && call.candidateActionId == c.candidateActionId
  }

  /** What a call that was not answered in its own shape threw. */
  function ThrownBy(reply: Reply): RuntimeError {
    match reply
    case Threw(e) => e
    case _ => RuntimeError(None, NoCommitState, None, None)
  }

  /** The rest of a run when its last call has been made. */
  predicate Ends(rest: seq<Event>, result: Result, expected: Result) {
    rest == [] && result == expected
  }

  predicate AfterPropose(t: Ticket, executionId: JsString, draftId: JsString, c: Compilation, reply: Reply,
                         rest: seq<Event>, result: Result) {
    match reply
    case ContractReply(contract) =>
      Ends(rest, result, Answered(Outcome(
        ActionContractProposed, [], ReadEvidence, ProtocolRecorded, t.idempotencyKey,
        Some(Proposed(contract, executionId, draftId, c.intentCompilationId)))))
    case _ => Ends(rest, result, Caught(t, ThrownBy(reply)))
  }

  predicate AfterCompiling(t: Ticket, executionId: JsString, draftId: JsString, reply: Reply, rest: seq<Event>,
                           result: Result) {
    match reply
    case CompilationReply(c) =>
      if Proposable(c) then
        && rest != [] && Proposes(c, rest[0].call)
        && AfterPropose(t, executionId, draftId, c, rest[0].reply, rest[1..], result)
      else Ends(rest, result, RefusedCompilation(t, c))
    case _ => Ends(rest, result, Caught(t, ThrownBy(reply)))
  }

  predicate AfterFinalizing(t: Ticket, executionId: JsString, reply: Reply, rest: seq<Event>, result: Result) {
    match reply
    case DraftReply(draftId) =>
      && rest != [] && Compiles(t, executionId, draftId, rest[0].call)
      && AfterCompiling(t, executionId, draftId, rest[0].reply, rest[1..], result)
    case _ => Ends(rest, result, Caught(t, ThrownBy(reply)))
  }

  predicate AfterDrafting(t: Ticket, executionId: JsString, reply: Reply, rest: seq<Event>, result: Result) {
    match reply
    case DraftReply(openedId) =>
      && rest != [] && Finalizes(t, openedId, rest[0].call)
      && AfterFinalizing(t, executionId, rest[0].reply, rest[1..], result)
    case _ => Ends(rest, result, Caught(t, ThrownBy(reply)))
  }

  predicate AfterExecution(t: Ticket, reply: Reply, rest: seq<Event>, result: Result) {
    match reply
    case ExecutionReply(executionId) =>
      && rest != [] && Drafts(t, executionId, rest[0].call)
      && AfterDrafting(t, executionId, rest[0].reply, rest[1..], result)
    case _ => Ends(rest, result, Caught(t, ThrownBy(reply)))
  }

  /** A whole run and its result. */
  predicate WrittenOut(t: Ticket, calls: seq<Event>, result: Result) {
    if t.resourceRef == None then Ends(calls, result, Caught(t, RuntimeError(None, NoCommitState, None, None)))
    else calls != [] && calls[0].call.CreateRuntimeExecution? && AfterExecution(t, calls[0].reply, calls[1..], result)
  }

  lemma ThrownIs(reply: Reply)
    ensures ErrorOf(reply) == ThrownBy(reply)
  {
  }

  /** One call, and the run from there on. */
  lemma Step(t: Ticket, s: RunState, replies: seq<Reply>)
    requires !s.Done?
    ensures var next := Next(t, s, Head(replies));
      var calls := Trace(t, s, replies);
      && calls != [] && calls[0] == Event(Pending(t, s), Head(replies))
      && calls[1..] == Trace(t, next, Tail(replies)) && Final(t, s, replies) == Final(t, next, Tail(replies))
      && (next.Done? ==> calls[1..] == [] && Final(t, s, replies) == next.result)
    ensures ErrorOf(Head(replies)) == ThrownBy(Head(replies))
  {
    TraceStep(t, s, replies);
    var next := Next(t, s, Head(replies));
    if next.Done? {
      NothingFollows(t, next, Tail(replies));
    }
  }

  lemma FromPropose(t: Ticket, executionId: JsString, draftId: JsString, c: Compilation, replies: seq<Reply>)
    requires Proposable(c)
    ensures var s := AfterCompile(t, executionId, draftId, c);
      AfterCompiling(t, executionId, draftId, CompilationReply(c), Trace(t, s, replies), Final(t, s, replies))
  {
    ProposableExactly(c);
    Step(t, AfterCompile(t, executionId, draftId, c), replies);
  }

  lemma FromCompile(t: Ticket, executionId: JsString, draftId: JsString, replies: seq<Reply>)
    requires t.resourceRef.Some?
    ensures var s := AtCompile(executionId, draftId);
      AfterFinalizing(t, executionId, DraftReply(draftId), Trace(t, s, replies), Final(t, s, replies))
  {
    var s := AtCompile(executionId, draftId);
    Step(t, s, replies);
    match Head(replies)
    case CompilationReply(c) =>
      ProposableExactly(c);
      if Proposable(c) {
        FromPropose(t, executionId, draftId, c, Tail(replies));
      }
    case _ =>
  }

  lemma FromFinalize(t: Ticket, executionId: JsString, openedId: JsString, replies: seq<Reply>)
    requires t.resourceRef.Some?
    ensures var s := AtFinalize(executionId, openedId);
      AfterDrafting(t, executionId, DraftReply(openedId), Trace(t, s, replies), Final(t, s, replies))
  {
    Step(t, AtFinalize(executionId, openedId), replies);
    match Head(replies)
    case DraftReply(draftId) => FromCompile(t, executionId, draftId, Tail(replies));
    case _ =>
  }

  lemma FromDraft(t: Ticket, executionId: JsString, replies: seq<Reply>)
    requires t.resourceRef.Some?
    ensures var s := AtDraft(executionId);
      AfterExecution(t, ExecutionReply(executionId), Trace(t, s, replies), Final(t, s, replies))
  {
    Step(t, AtDraft(executionId), replies);
    match Head(replies)
    case DraftReply(openedId) => FromFinalize(t, executionId, openedId, Tail(replies));
    case _ =>
  }

  /** For every ticket and script of replies, the calls and the result are the ones written out
      here. */
  lemma RunsAreWrittenOut(t: Ticket, replies: seq<Reply>)
    ensures WrittenOut(t, Trace(t, Start(t), replies), Final(t, Start(t), replies))
  {
    if t.resourceRef.Some? {
      Step(t, AtExecution, replies);
      match Head(replies)
      case ExecutionReply(executionId) => FromDraft(t, executionId, Tail(replies));
      case _ =>
    }
  }

  // ------------------------------------------------------ the trusted binding

  predicate Lacks(o: Option<JsString>) {
    o == None || o == Some([])
  }

  predicate LacksReadiness(o: Options) {
    Lacks(o.gatewayReadinessRef) || Lacks(o.gatewayReadinessDigest)
  }

  predicate LacksPolicy(o: Options) {
    Lacks(o.policyVersionRef) || Lacks(o.policyVersionDigest)
  }

  function LackingCodes(o: Options): seq<JsString> {
    (if Lacks(o.trustedMaxAtomicAmountPerCall) then [Js("mcp_trusted_spend_bound_missing")] else [])
    + (if LacksReadiness(o) then [Js("mcp_trusted_readiness_binding_missing")] else [])
    + (if LacksPolicy(o) then [Js("mcp_policy_version_binding_missing")] else [])
  }

  /** "sha256:" and 64 lower-case hexadecimal digits. */
  predicate IsSha256(s: JsString) {
    && |s| == 71 && s[..7] == Js("sha256:")
    && (forall i :: 7 <= i < 71 ==> 48 <= s[i] < 58 || 97 <= s[i] < 103)
  }

  /** The options carry a binding, and this is it. */
  predicate Binds(o: Options, b: TrustedBinding) {
    && o.trustedMaxAtomicAmountPerCall == Some(b.trustedMaxAtomicAmountPerCall)
    && o.gatewayReadinessRef == Some(b.gatewayReadinessRef) && o.gatewayReadinessDigest == Some(b.gatewayReadinessDigest)
    && o.policyVersionRef == Some(b.policyVersionRef) && o.policyVersionDigest == Some(b.policyVersionDigest)
    && X402Built.Amounts(b.trustedMaxAtomicAmountPerCall) && |b.trustedMaxAtomicAmountPerCall| <= 78
    && 1 <= |b.gatewayReadinessRef| <= 500 && IsSha256(b.gatewayReadinessDigest)
    && 1 <= |b.policyVersionRef| <= 500 && IsSha256(b.policyVersionDigest)
  }

  lemma AmountsAreWritten(s: JsString)
    ensures IsAtomicAmount(s) <==> X402Built.Amounts(s)
  {
  }

  lemma DigestsAreWritten(s: JsString)
    ensures IsDigestText(s) <==> IsSha256(s)
  {
  }

  /** Options that bind amount, readiness and policy, all of them well formed, and no others, are
      trusted. */
  lemma BoundExactly(o: Options, b: TrustedBinding)
    ensures BindingOf(o) == Some(b) <==> Binds(o, b)
  {
    AmountsAreWritten(b.trustedMaxAtomicAmountPerCall);
    DigestsAreWritten(b.gatewayReadinessDigest);
    DigestsAreWritten(b.policyVersionDigest);
  }

  /** Otherwise it is said what is lacking, or that what is there is not well formed. */
  function UnboundCodes(o: Options): seq<JsString> {
    if LackingCodes(o) == [] then [Js("mcp_trusted_proposal_binding_invalid")] else LackingCodes(o)
  }

  lemma LackingIsMissing(o: Options)
    ensures MissingCodes(o) == LackingCodes(o)
  {
  }

  // ------------------------------------------------- before the runtime is called

  predicate IsStale(p: Proposal, o: Options) {
    Given(o.currentMetadataDigest) && o.currentMetadataDigest.value != p.metadataDigest
  }

  predicate IsUninstalled(o: Options) {
    o.installPosture != None && o.installPosture != Some(Ready)
  }

  /** Nothing speaks against starting; the gateway is not asked yet. */
  predicate IsBound(p: Proposal, o: Options) {
    !o.toolsListChanged && !IsStale(p, o) && !IsUninstalled(o) && BindingOf(o).Some?
  }

  predicate IsOnline(o: Options) {
    o.gatewayPosture == None || o.gatewayPosture == Some(Online)
  }

  function InstallName(i: InstallPosture): JsString {
    match i
    case Ready => Js("ready")
    case Missing => Js("missing")
    case StaleInstall => Js("stale")
    case UnsafeInstall => Js("unsafe")
    case UnknownInstall => Js("unknown")
  }

  lemma InstallCodeIs(i: InstallPosture)
    ensures InstallCode(i) == Js("mcp_install_") + InstallName(i)
  {
  }

  /** What is not fresh or not installed is refused for the first such reason. */
  lemma FreshnessIsFirst(p: Proposal, o: Options)
    requires Parses(p)
    ensures o.toolsListChanged ==>
      Preflight(p, o) == Some(Refusal(ToolsListChanged, [Js("mcp_tools_list_changed")], ReloadMetadata))
    ensures !o.toolsListChanged && IsStale(p, o) ==>
      Preflight(p, o) == Some(Refusal(MetadataStale, [Js("mcp_metadata_digest_stale")], ReloadMetadata))
    ensures !o.toolsListChanged && !IsStale(p, o) && IsUninstalled(o) ==>
      Preflight(p, o) == Some(Refusal(
        InstallNotReady, [Js("mcp_install_") + InstallName(o.installPosture.value)], FixInstall))
    ensures !o.toolsListChanged && !IsStale(p, o) && !IsUninstalled(o) && BindingOf(o) == None ==>
      Preflight(p, o) == Some(Refusal(InstallNotReady, UnboundCodes(o), FixInstall))
  {
    if IsUninstalled(o) {
      InstallCodeIs(o.installPosture.value);
    }
    LackingIsMissing(o);
  }

  /** Then a gateway that is not online. */
  lemma GatewayIsNext(p: Proposal, o: Options)
    requires Parses(p) && IsBound(p, o)
    ensures o.gatewayPosture == Some(Offline) ==>
      Preflight(p, o) == Some(Refusal(GatewayOffline, [Js("mcp_gateway_offline")], WaitForGateway))
    ensures o.gatewayPosture == Some(UnknownGateway) ==>
      Preflight(p, o) == Some(Refusal(ToolExecutionError, [Js("mcp_gateway_posture_unknown")], Stop))
  {
  }

  predicate IsTooMuch(p: Proposal, b: TrustedBinding)
    requires Parses(p) && BindingParses(b)
  {
    ValueOf(p.keyed.atomicAmount) > ValueOf(b.trustedMaxAtomicAmountPerCall)
  }

  predicate PostureGround(k: KeyedFields, code: JsString) {
    X402Grounds.BodyOrEnvironmentGround(k.bodyPosture, k.bodyDigest, k.environmentPosture, code)
  }

  lemma AmountsCompare(p: Proposal, b: TrustedBinding)
    requires Parses(p) && BindingParses(b)
    ensures Inadmissible(p, b)
         == if IsTooMuch(p, b) then
              Some(Refusal(McpProposalRun.Refused, [Js("x402_amount_exceeds_call_bound")], RecraftRequest))
            else if PostureCodes(p) == [] then None
            else Some(Refusal(McpProposalRun.Refused, PostureCodes(p), RecraftRequest))
  {
    StringComparisonIsNumeric(p.keyed.atomicAmount, b.trustedMaxAtomicAmountPerCall);
  }

  lemma AdmissionDecides(p: Proposal, o: Options)
    requires Parses(p) && IsBound(p, o) && IsOnline(o)
    ensures Preflight(p, o) == Inadmissible(p, BindingOf(o).value)
  {
  }

  /** Then an amount over the bound. */
  lemma AmountIsNext(p: Proposal, o: Options)
    requires Parses(p) && IsBound(p, o) && IsOnline(o) && IsTooMuch(p, BindingOf(o).value)
    ensures Preflight(p, o)
         == Some(Refusal(McpProposalRun.Refused, [Js("x402_amount_exceeds_call_bound")], RecraftRequest))
  {
    AmountsCompare(p, BindingOf(o).value);
    AdmissionDecides(p, o);
  }

  /** And last a body or an environment that cannot be paid with, by the codes below. Nothing else
      is refused. */
  lemma PostureIsLast(p: Proposal, o: Options)
    requires Parses(p) && IsBound(p, o) && IsOnline(o) && !IsTooMuch(p, BindingOf(o).value)
    ensures Preflight(p, o)
         == if PostureCodes(p) == [] then None
            else Some(Refusal(McpProposalRun.Refused, PostureCodes(p), RecraftRequest))
  {
    AmountsCompare(p, BindingOf(o).value);
    AdmissionDecides(p, o);
  }

  /** Every code whose ground holds, ascending. */
  lemma PostureCodesAre(p: Proposal)
    ensures Ascending(PostureCodes(p))
    ensures forall code :: code in PostureCodes(p) <==> PostureGround(p.keyed, code)
  {
    var k := p.keyed;
    SortedUniqueAscends(BodyAndEnvironmentCodes(k.bodyPosture, k.bodyDigest, k.environmentPosture));
    forall code ensures code in PostureCodes(p) <==> PostureGround(k, code) {
      X402Grounds.InBodyCodes(k.bodyPosture, k.bodyDigest, k.environmentPosture, code);
    }
  }

  // ------------------------------------------------------------- the proposal

  /** A refusal before the runtime is answered as it is, with nothing started, unless the request
      cannot be named. */
  lemma RefusalIsAnswered(d: Derivation, p: Proposal, o: Options, replies: seq<Reply>)
    requires Parses(p) && Preflight(p, o).Some?
    ensures var r := Preflight(p, o).value;
      ProposalResult(d, p, o, replies)
      == if !d.encodes(p.requestId) then Rejected
         else Answered(Outcome(r.kind, r.reasonCodes, r.nextAction, NotStarted, d.key(p, BindingOf(o)), None))
    ensures ProposalTrace(d, p, o, replies) == []
  {
    NothingFollows(TicketOf(d, p, o), Begin(d, p, o), replies);
  }

  /** What a proposal brings to the runtime. */
  predicate Brings(hash: Hash, hostname: JsString -> JsString, p: Proposal, b: TrustedBinding, t: Ticket) {
    && t.idempotencyKey == IdempotencyKey(hash, p, Some(b))
    && t.atomicAmount == p.keyed.atomicAmount && t.maxAtomicAmountPerCall == b.trustedMaxAtomicAmountPerCall
    && (t.requestIdEncodes <==> UriComponent.Encode(p.requestId).Some?)
    && t.resourceRef
       == (match (UriComponent.Encode(p.keyed.network), UriComponent.Encode(p.keyed.payee),
                  UriComponent.Encode(hostname(p.keyed.endpointUrl)))
           case (Some(n), Some(e), Some(d)) =>
             Some(Js("x402://") + n + ResourceTemplates.SEPARATOR + e + ResourceTemplates.SEPARATOR + d)
           case _ => None)
  }

  /** Otherwise the run is the one of the proposal's own ticket, written out. */
  lemma AdmittedRuns(hash: Hash, hostname: JsString -> JsString, p: Proposal, o: Options, replies: seq<Reply>)
    requires Parses(p) && Preflight(p, o) == None
    ensures BindingOf(o).Some?
    ensures var d := SourceDerivation(hash, hostname);
      && Brings(hash, hostname, p, BindingOf(o).value, TicketOf(d, p, o))
      && WrittenOut(TicketOf(d, p, o), ProposalTrace(d, p, o, replies), ProposalResult(d, p, o, replies))
  {
    PreflightPassesExactly(p, o);
    RunsAreWrittenOut(TicketOf(SourceDerivation(hash, hostname), p, o), replies);
    ResourceTemplates.X402ResourceRefIs(p.keyed.network, p.keyed.payee, hostname(p.keyed.endpointUrl));
  }
}
