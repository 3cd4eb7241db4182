/** The runtime calls of one MCP proposal: `proposeContract`, and how a thrown error is answered
    (src/mcp/x402-proposal.ts). */
module McpProposalRun {
  import opened JsText
  import UriComponent

  datatype Kind =
    | ToolExecutionError | ToolsListChanged | MetadataStale | InstallNotReady | GatewayOffline
    | Refused | ReplayRefused | ProofGap | ActionContractProposed

  datatype NextAction = RecraftRequest | ReloadMetadata | FixInstall | WaitForGateway | ReadEvidence | Stop

  datatype CommitState = NotStarted | ProtocolRecorded | Ambiguous

  datatype Contract = Contract(actionContractId: JsString, contractDigest: JsString, paramsDigest: JsString)

  /** The ids a proposed contract is answered with. */
  datatype Proposed = Proposed(
    contract: Contract, runtimeExecutionId: JsString, toolCallDraftId: JsString, intentCompilationId: JsString)

  datatype Outcome = Outcome(
    kind: Kind, reasonCodes: seq<JsString>, nextAction: NextAction, commitState: CommitState,
    idempotencyKey: JsString, proposed: Option<Proposed>)

  /** An answer, or a rejection: `encodeURIComponent` throws on a lone surrogate. */
  datatype Result = Answered(outcome: Outcome) | Rejected

  /** What a proposal brings to the runtime. `resourceRef` is absent when it cannot be encoded,
      and `requestIdEncodes` says whether challenge refs can name the request. */
  datatype Ticket = Ticket(
    idempotencyKey: JsString, resourceRef: Option<JsString>, requestIdEncodes: bool,
    atomicAmount: JsString, maxAtomicAmountPerCall: JsString)

  // ----------------------------------------------------------- thrown errors

  datatype ErrorCommit =
    | Committed | Accepted | UnknownCommit | AmbiguousCommit | NotStartedCommit | NotCommitted | NotApplicable
    | NoCommitState

  datatype RuntimeError = RuntimeError(
    code: Option<JsString>, commitState: ErrorCommit, proofRef: Option<JsString>, refusalRef: Option<JsString>)

  /** A `URIError`, or any error without the fields of a protocol error. */
  const PLAIN_ERROR: RuntimeError := RuntimeError(None, NoCommitState, None, None)

  const BRIDGE_ERROR: JsString := Js("mcp_runtime_bridge_error")
  const ALREADY_CONSUMED: JsString := Js("already_consumed")
  const DUPLICATE_AUTHORITY: JsString := Js("idempotency_duplicate_authority")
  const PARAMS_MISMATCH: JsString := Js("idempotency_key_params_mismatch")

  function ErrorCode(e: RuntimeError): JsString {
    match e.code
    case Some(code) => code
    case None => BRIDGE_ERROR
  }

  function ErrorCommitState(e: RuntimeError): CommitState {
    match e.commitState
    case Committed => ProtocolRecorded
    case Accepted => ProtocolRecorded
    case UnknownCommit => Ambiguous
    case AmbiguousCommit => Ambiguous
    case _ => NotStarted
  }

  /** An empty reference counts as none. */
  predicate HasRef(ref: Option<JsString>) {
    ref.Some? && ref.value != []
  }

  predicate RefEncodes(ref: Option<JsString>) {
    HasRef(ref) ==> UriComponent.Encode(ref.value).Some?
  }

  function Verdict(e: RuntimeError): (Kind, NextAction) {
    var code := ErrorCode(e);
    if code == ALREADY_CONSUMED || code == DUPLICATE_AUTHORITY then (ReplayRefused, ReadEvidence)
    else if code == PARAMS_MISMATCH then
      (Refused, if HasRef(e.proofRef) || HasRef(e.refusalRef) then ReadEvidence else RecraftRequest)
    else if HasRef(e.proofRef) then (ProofGap, ReadEvidence)
    else if HasRef(e.refusalRef) then (Refused, ReadEvidence)
    else (ToolExecutionError, Stop)
  }

  predicate NamesRequest(e: RuntimeError) {
    var code := ErrorCode(e);
    code == ALREADY_CONSUMED || code == DUPLICATE_AUTHORITY || code == PARAMS_MISMATCH
  }

  /** The catch block of `proposeMcpX402Payment`. */
  function Caught(t: Ticket, e: RuntimeError): (r: Result)
    ensures r.Answered? ==> !r.outcome.kind.ActionContractProposed? && r.outcome.proposed.None?
  {
    if !RefEncodes(e.proofRef) || !RefEncodes(e.refusalRef) then Rejected
    else if NamesRequest(e) && !t.requestIdEncodes then Rejected
    else
      var verdict := Verdict(e);
      Answered(Outcome(verdict.0, [ErrorCode(e)], verdict.1, ErrorCommitState(e), t.idempotencyKey, None))
  }

  // -------------------------------------------------------- calls and replies

  datatype Compilation = Compilation(
    intentCompilationId: JsString, candidateActionId: JsString, contractable: bool,
    candidateDigest: Option<JsString>, uncertaintyMarkers: seq<JsString>, overreachReasonCodes: seq<JsString>,
    refusalReasonCodes: seq<JsString>)

  datatype Call =
    | CreateRuntimeExecution
    | CreateToolCallDraft(runtimeExecutionId: JsString, resourceRef: JsString, atomicAmount: JsString)
    | FinalizeToolCallDraft(toolCallDraftId: JsString, atomicAmount: JsString)
    | CompileIntent(runtimeExecutionId: JsString, toolCallDraftId: JsString, resourceRef: JsString,
                    atomicAmount: JsString, maxAtomicAmountPerCall: JsString, idempotencyKey: JsString)
    | ProposeActionContract(intentCompilationId: JsString, candidateActionId: JsString, candidateDigest: JsString)

  datatype Reply =
    | ExecutionReply(id: JsString)
    | DraftReply(id: JsString)
    | CompilationReply(compilation: Compilation)
    | ContractReply(contract: Contract)
    | Threw(error: RuntimeError)

  datatype Event = Event(call: Call, reply: Reply)

  function ErrorOf(reply: Reply): RuntimeError {
    if reply.Threw? then reply.error else PLAIN_ERROR
  }

  function CompilationCodes(c: Compilation): seq<JsString> {
    c.uncertaintyMarkers + c.overreachReasonCodes + c.refusalReasonCodes
  }

  /** The compilations a contract is proposed for. */
  predicate Contractable(c: Compilation) {
    c.contractable && CompilationCodes(c) == [] && c.candidateDigest.Some? && c.candidateDigest.value != []
  }

  const NOT_CONTRACTABLE: JsString := Js("mcp_candidate_not_contractable")
  const DIGEST_MISSING: JsString := Js("mcp_candidate_digest_missing")

  function RefusedCompilation(t: Ticket, c: Compilation): Result {
    if !t.requestIdEncodes then Caught(t, PLAIN_ERROR)
    else
      var codes := CompilationCodes(c);
      var reasons :=
        if codes != [] then codes else if !c.contractable then [NOT_CONTRACTABLE] else [DIGEST_MISSING];
      Answered(Outcome(Refused, reasons, RecraftRequest, ProtocolRecorded, t.idempotencyKey, None))
  }

  function ProposedResult(t: Ticket, executionId: JsString, draftId: JsString, c: Compilation, contract: Contract)
    : Result
  {
    Answered(Outcome(ActionContractProposed, [], ReadEvidence, ProtocolRecorded, t.idempotencyKey,
                     Some(Proposed(contract, executionId, draftId, c.intentCompilationId))))
  }

  // --------------------------------------------------- the run, call by call

  datatype RunState =
    | AtExecution
    | AtDraft(executionId: JsString)
    | AtFinalize(executionId: JsString, openedDraftId: JsString)
    | AtCompile(executionId: JsString, draftId: JsString)
    | AtPropose(executionId: JsString, draftId: JsString, compilation: Compilation, digest: JsString)
    | Done(result: Result)

  /** How many calls a run has made. */
  function Stage(s: RunState): nat {
    match s
    case AtExecution => 0
    case AtDraft(_) => 1
    case AtFinalize(_, _) => 2
    case AtCompile(_, _) => 3
    case AtPropose(_, _, _, _) => 4
    case Done(_) => 5
  }

  function ResourceRefOf(t: Ticket): JsString {
    match t.resourceRef
    case Some(ref) => ref
    case None => []
  }

  function Pending(t: Ticket, s: RunState): Call
    requires !s.Done?
  {
    match s
    case AtExecution => CreateRuntimeExecution
    case AtDraft(executionId) => CreateToolCallDraft(executionId, ResourceRefOf(t), t.atomicAmount)
    case AtFinalize(_, openedId) => FinalizeToolCallDraft(openedId, t.atomicAmount)
    case AtCompile(executionId, draftId) =>
      CompileIntent(executionId, draftId, ResourceRefOf(t), t.atomicAmount, t.maxAtomicAmountPerCall, t.idempotencyKey)
    case AtPropose(_, _, c, digest) => ProposeActionContract(c.intentCompilationId, c.candidateActionId, digest)
  }

  function Next(t: Ticket, s: RunState, reply: Reply): RunState
    requires !s.Done?
  {
    match s
    case AtExecution => if reply.ExecutionReply? then AtDraft(reply.id) else Done(Caught(t, ErrorOf(reply)))
    case AtDraft(executionId) =>
      if reply.DraftReply? then AtFinalize(executionId, reply.id) else Done(Caught(t, ErrorOf(reply)))
    case AtFinalize(executionId, _) =>
      if reply.DraftReply? then AtCompile(executionId, reply.id) else Done(Caught(t, ErrorOf(reply)))
    case AtCompile(executionId, draftId) =>
      if reply.CompilationReply? then AfterCompile(t, executionId, draftId, reply.compilation)
      else Done(Caught(t, ErrorOf(reply)))
    case AtPropose(executionId, draftId, c, _) =>
      if reply.ContractReply? then Done(ProposedResult(t, executionId, draftId, c, reply.contract))
      else Done(Caught(t, ErrorOf(reply)))
  }

  function AfterCompile(t: Ticket, executionId: JsString, draftId: JsString, c: Compilation): RunState {
    if Contractable(c) then AtPropose(executionId, draftId, c, c.candidateDigest.value)
    else Done(RefusedCompilation(t, c))
  }

  /** A resource ref that cannot be encoded throws before the first call. */
  function Start(t: Ticket): RunState {
    if t.resourceRef.None? then Done(Caught(t, PLAIN_ERROR)) else AtExecution
  }

  function Head(replies: seq<Reply>): Reply {
    if replies == [] then Threw(PLAIN_ERROR) else replies[0]
  }

  function Tail(replies: seq<Reply>): seq<Reply> {
    if replies == [] then [] else replies[1..]
  }

  function Trace(t: Ticket, s: RunState, replies: seq<Reply>): seq<Event>
    decreases 5 - Stage(s)
  {
    if s.Done? then [] else [Event(Pending(t, s), Head(replies))] + Trace(t, Next(t, s, Head(replies)), Tail(replies))
  }

  function Final(t: Ticket, s: RunState, replies: seq<Reply>): Result
    decreases 5 - Stage(s)
  {
    if s.Done? then s.result else Final(t, Next(t, s, Head(replies)), Tail(replies))
  }

  /** One call of a run, followed by the rest. */
  lemma TraceStep(t: Ticket, s: RunState, replies: seq<Reply>)
    requires !s.Done?
    ensures var next := Next(t, s, Head(replies));
      && Trace(t, s, replies) == [Event(Pending(t, s), Head(replies))] + Trace(t, next, Tail(replies))
      && Final(t, s, replies) == Final(t, next, Tail(replies))
  {
  }

  lemma NothingFollows(t: Ticket, s: RunState, replies: seq<Reply>)
    requires s.Done?
    ensures Trace(t, s, replies) == [] && Final(t, s, replies) == s.result
  {
  }

  /** One call of a run that follows earlier ones. */
  lemma TraceAfter(before: seq<Event>, t: Ticket, s: RunState, replies: seq<Reply>)
    requires !s.Done?
    ensures var next := Next(t, s, Head(replies));
      && before + Trace(t, s, replies)
         == before + [Event(Pending(t, s), Head(replies))] + Trace(t, next, Tail(replies))
      && Final(t, s, replies) == Final(t, next, Tail(replies))
      && (next.Done? ==> before + Trace(t, s, replies) == before + [Event(Pending(t, s), Head(replies))]
                         && Final(t, s, replies) == next.result)
  {
    TraceStep(t, s, replies);
    var next := Next(t, s, Head(replies));
    if next.Done? {
      NothingFollows(t, next, Tail(replies));
    }
  }

  // -------------------------------------------------- the program that is run

  /** A runtime client that answers from a script, and remembers every call. */
  class RuntimeClient {
    var replies: seq<Reply>
    var trace: seq<Event>

    constructor (script: seq<Reply>)
      ensures replies == script && trace == []
    {
      replies := script;
      trace := [];
    }

    method Perform(call: Call) returns (reply: Reply)
      modifies this
      ensures reply == Head(old(replies)) && replies == Tail(old(replies))
      ensures trace == old(trace) + [Event(call, reply)]
    {
      reply := Head(replies);
      replies := Tail(replies);
      trace := trace + [Event(call, reply)];
    }
  }

  method ProposeCompiled(client: RuntimeClient, t: Ticket, executionId: JsString, draftId: JsString, c: Compilation)
    returns (result: Result)
    modifies client
    ensures client.trace == old(client.trace) + Trace(t, AfterCompile(t, executionId, draftId, c), old(client.replies))
    ensures result == Final(t, AfterCompile(t, executionId, draftId, c), old(client.replies))
  {
    if !c.contractable || CompilationCodes(c) != [] || c.candidateDigest.None? || c.candidateDigest.value == [] {
      return RefusedCompilation(t, c);
    }
    var digest := c.candidateDigest.value;
    TraceAfter(client.trace, t, AtPropose(executionId, draftId, c, digest), client.replies);
    var reply := client.Perform(ProposeActionContract(c.intentCompilationId, c.candidateActionId, digest));
    if reply.ContractReply? {
      result := ProposedResult(t, executionId, draftId, c, reply.contract);
    } else {
      result := Caught(t, ErrorOf(reply));
    }
  }

  method CompileDraft(client: RuntimeClient, t: Ticket, executionId: JsString, openedDraftId: JsString)
    returns (result: Result)
    requires t.resourceRef.Some?
    modifies client
    ensures client.trace == old(client.trace) + Trace(t, AtFinalize(executionId, openedDraftId), old(client.replies))
    ensures result == Final(t, AtFinalize(executionId, openedDraftId), old(client.replies))
  {
    TraceAfter(client.trace, t, AtFinalize(executionId, openedDraftId), client.replies);
    var finalized := client.Perform(FinalizeToolCallDraft(openedDraftId, t.atomicAmount));
    if !finalized.DraftReply? {
      return Caught(t, ErrorOf(finalized));
    }
    TraceAfter(client.trace, t, AtCompile(executionId, finalized.id), client.replies);
    var compiled := client.Perform(CompileIntent(executionId, finalized.id, t.resourceRef.value, t.atomicAmount,
                                                 t.maxAtomicAmountPerCall, t.idempotencyKey));
    if !compiled.CompilationReply? {
      return Caught(t, ErrorOf(compiled));
    }
    result := ProposeCompiled(client, t, executionId, finalized.id, compiled.compilation);
  }

  /** `proposeContract` inside the try block of `proposeMcpX402Payment`. */
  method ProposeContract(client: RuntimeClient, t: Ticket) returns (result: Result)
    modifies client
    ensures client.trace == old(client.trace) + Trace(t, Start(t), old(client.replies))
    ensures result == Final(t, Start(t), old(client.replies))
  {
    if t.resourceRef.None? {
      return Caught(t, PLAIN_ERROR);
    }
    TraceAfter(client.trace, t, AtExecution, client.replies);
    var execution := client.Perform(CreateRuntimeExecution);
    if !execution.ExecutionReply? {
      return Caught(t, ErrorOf(execution));
    }
    TraceAfter(client.trace, t, AtDraft(execution.id), client.replies);
    var draft := client.Perform(CreateToolCallDraft(execution.id, t.resourceRef.value, t.atomicAmount));
    if !draft.DraftReply? {
      return Caught(t, ErrorOf(draft));
    }
    result := CompileDraft(client, t, execution.id, draft.id);
  }

  // ------------------------------------------------------- what runs keep to

  /** The place of a call in the fixed sequence of five. */
  function Place(call: Call): nat {
    match call
    case CreateRuntimeExecution => 0
    case CreateToolCallDraft(_, _, _) => 1
    case FinalizeToolCallDraft(_, _) => 2
    case CompileIntent(_, _, _, _, _, _) => 3
    case ProposeActionContract(_, _, _) => 4
  }

  /** A reply of the call's own shape. */
  predicate Answers(e: Event) {
    match e.call
    case CreateRuntimeExecution => e.reply.ExecutionReply?
    case CreateToolCallDraft(_, _, _) => e.reply.DraftReply?
    case FinalizeToolCallDraft(_, _) => e.reply.DraftReply?
    case CompileIntent(_, _, _, _, _, _) => e.reply.CompilationReply?
    case ProposeActionContract(_, _, _) => e.reply.ContractReply?
  }

  /** From any state, the calls made are the next ones of the fixed sequence, and every call but
      the last was answered. */
  lemma {:induction false} CallsFollowTheSequence(t: Ticket, s: RunState, replies: seq<Reply>, i: nat)
    requires i < |Trace(t, s, replies)|
    ensures Place(Trace(t, s, replies)[i].call) == Stage(s) + i
    ensures i < |Trace(t, s, replies)| - 1 ==> Answers(Trace(t, s, replies)[i])
    decreases i
  {
    var next := Next(t, s, Head(replies));
    if i > 0 {
      assert Trace(t, s, replies)[i] == Trace(t, next, Tail(replies))[i - 1];
      CallsFollowTheSequence(t, next, Tail(replies), i - 1);
    }
  }

  lemma {:induction false} TraceLength(t: Ticket, s: RunState, replies: seq<Reply>)
    ensures |Trace(t, s, replies)| <= 5 - Stage(s)
    decreases 5 - Stage(s)
  {
    if !s.Done? {
      TraceLength(t, Next(t, s, Head(replies)), Tail(replies));
    }
  }

  predicate IsProposed(r: Result) {
    r.Answered? && r.outcome.kind.ActionContractProposed?
  }

  /** The last call of a trace, when it is the proposal of a contract and was answered. */
  predicate EndsProposed(trace: seq<Event>) {
    trace != [] && (var last := trace[|trace| - 1]; last.call.ProposeActionContract? && last.reply.ContractReply?)
  }

  lemma LastCallDecides(t: Ticket, s: RunState, reply: Reply)
    requires !s.Done? && Next(t, s, reply).Done?
    ensures IsProposed(Next(t, s, reply).result) <==> Pending(t, s).ProposeActionContract? && reply.ContractReply?
  {
  }

  lemma {:induction false} ProposedFrom(t: Ticket, s: RunState, replies: seq<Reply>)
    requires !s.Done?
    ensures IsProposed(Final(t, s, replies)) <==> EndsProposed(Trace(t, s, replies))
    decreases 5 - Stage(s)
  {
    TraceStep(t, s, replies);
    var next := Next(t, s, Head(replies));
    if next.Done? {
      NothingFollows(t, next, Tail(replies));
      LastCallDecides(t, s, Head(replies));
    } else {
      ProposedFrom(t, next, Tail(replies));
      var whole, rest := Trace(t, s, replies), Trace(t, next, Tail(replies));
      TraceStep(t, next, Tail(replies));
      assert whole[|whole| - 1] == rest[|rest| - 1];
    }
  }

  /** Whichever calls throw: a run makes a prefix of the five calls in their fixed order, each
      after the one before was answered; and it answers that a contract is proposed exactly when
      all five calls were made and answered. */
  lemma RunsMakeAPrefix(t: Ticket, replies: seq<Reply>)
    ensures var trace := Trace(t, Start(t), replies);
      && |trace| <= 5
      && (forall i :: 0 <= i < |trace| ==> Place(trace[i].call) == i)
      && (forall i :: 0 <= i < |trace| - 1 ==> Answers(trace[i]))
      && (IsProposed(Final(t, Start(t), replies)) <==> |trace| == 5 && Answers(trace[4]))
  {
    var trace := Trace(t, Start(t), replies);
    if t.resourceRef.Some? {
      TraceLength(t, AtExecution, replies);
      forall i | 0 <= i < |trace|
        ensures Place(trace[i].call) == i && (i < |trace| - 1 ==> Answers(trace[i]))
      {
        CallsFollowTheSequence(t, AtExecution, replies, i);
      }
      ProposedFrom(t, AtExecution, replies);
    }
  }

  /** A contract is only proposed for a compilation without any reason code. */
  lemma {:induction false} OnlyContractableIsProposed(t: Ticket, s: RunState, replies: seq<Reply>, i: nat)
    requires i + 1 < |Trace(t, s, replies)| && Trace(t, s, replies)[i + 1].call.ProposeActionContract?
    ensures var e := Trace(t, s, replies)[i];
      var call := Trace(t, s, replies)[i + 1].call;
      && e.reply.CompilationReply? && Contractable(e.reply.compilation)
      && call.intentCompilationId == e.reply.compilation.intentCompilationId
      && call.candidateActionId == e.reply.compilation.candidateActionId
      && Some(call.candidateDigest) == e.reply.compilation.candidateDigest
    decreases i
  {
    var next := Next(t, s, Head(replies));
    var rest := Trace(t, next, Tail(replies));
    assert Trace(t, s, replies)[i + 1] == rest[i];
    if i > 0 {
      assert Trace(t, s, replies)[i] == rest[i - 1];
      OnlyContractableIsProposed(t, next, Tail(replies), i - 1);
    }
  }

  /** Four answered calls, the last of them with a contractable compilation, are followed by the
      fifth; so a compilation that is refused is the only other way to end after four answers. */
  lemma ContractableIsProposed(t: Ticket, replies: seq<Reply>)
    requires var trace := Trace(t, Start(t), replies); |trace| >= 4 && trace[3].reply.CompilationReply?
    ensures var trace := Trace(t, Start(t), replies);
      |trace| == 5 <==> Contractable(trace[3].reply.compilation)
  {
    RunsMakeAPrefix(t, replies);
    if Contractable(Trace(t, Start(t), replies)[3].reply.compilation) {
      FourthCall(t, AtExecution, replies, 3);
    }
    if |Trace(t, Start(t), replies)| == 5 {
      OnlyContractableIsProposed(t, AtExecution, replies, 3);
    }
  }

  lemma {:induction false} FourthCall(t: Ticket, s: RunState, replies: seq<Reply>, i: nat)
    requires i < |Trace(t, s, replies)| && Trace(t, s, replies)[i].call.CompileIntent?
    requires Trace(t, s, replies)[i].reply.CompilationReply?
    requires Contractable(Trace(t, s, replies)[i].reply.compilation)
    ensures |Trace(t, s, replies)| > i + 1
    decreases i
  {
    var next := Next(t, s, Head(replies));
    if i > 0 {
      assert Trace(t, s, replies)[i] == Trace(t, next, Tail(replies))[i - 1];
      FourthCall(t, next, Tail(replies), i - 1);
    } else {
      assert Trace(t, next, Tail(replies)) != [];
    }
  }

  /** The ids that a proposed contract is answered with are the ones the calls returned. */
  predicate AnswersFrom(trace: seq<Event>, p: Proposed) {
    && |trace| == 5
    && trace[0].reply == ExecutionReply(p.runtimeExecutionId)
    && trace[2].reply == DraftReply(p.toolCallDraftId)
    && trace[3].reply.CompilationReply? && trace[3].reply.compilation.intentCompilationId == p.intentCompilationId
    && trace[4].reply == ContractReply(p.contract)
    && trace[3].call.CompileIntent? && trace[3].call.runtimeExecutionId == p.runtimeExecutionId
    && trace[3].call.toolCallDraftId == p.toolCallDraftId
  }

  lemma LastTwoCalls(t: Ticket, executionId: JsString, draftId: JsString, replies: seq<Reply>)
    requires IsProposed(Final(t, AtCompile(executionId, draftId), replies))
    ensures var rest := Trace(t, AtCompile(executionId, draftId), replies);
      var p := Final(t, AtCompile(executionId, draftId), replies).outcome.proposed;
      && |rest| == 2 && rest[0].call == Pending(t, AtCompile(executionId, draftId)) && rest[0].reply.CompilationReply?
      && rest[1].reply.ContractReply?
      && p == Some(Proposed(rest[1].reply.contract, executionId, draftId,
                            rest[0].reply.compilation.intentCompilationId))
  {
    TraceAfter([], t, AtCompile(executionId, draftId), replies);
    var next := Next(t, AtCompile(executionId, draftId), Head(replies));
    if !next.Done? {
      TraceAfter([], t, next, Tail(replies));
    }
  }

  lemma LastFourCalls(t: Ticket, executionId: JsString, replies: seq<Reply>)
    requires IsProposed(Final(t, AtDraft(executionId), replies))
    ensures var rest := Trace(t, AtDraft(executionId), replies);
      && |rest| == 4 && rest[1].reply.DraftReply?
      && rest[2..] == Trace(t, AtCompile(executionId, rest[1].reply.id), Tail(Tail(replies)))
      && Final(t, AtDraft(executionId), replies) == Final(t, AtCompile(executionId, rest[1].reply.id), Tail(Tail(replies)))
  {
    TraceAfter([], t, AtDraft(executionId), replies);
    var next := Next(t, AtDraft(executionId), Head(replies));
    if !next.Done? {
      TraceAfter([], t, next, Tail(replies));
      var after := Next(t, next, Head(Tail(replies)));
      if !after.Done? {
        LastTwoCalls(t, executionId, after.draftId, Tail(Tail(replies)));
      }
    }
  }

  lemma ProposedAnswersTheCalls(t: Ticket, replies: seq<Reply>)
    requires IsProposed(Final(t, Start(t), replies))
    ensures Final(t, Start(t), replies).outcome.proposed.Some?
    ensures AnswersFrom(Trace(t, Start(t), replies), Final(t, Start(t), replies).outcome.proposed.value)
  {
    TraceAfter([], t, AtExecution, replies);
    var next := Next(t, AtExecution, Head(replies));
    if !next.Done? {
      LastFourCalls(t, next.executionId, Tail(replies));
      var rest := Trace(t, next, Tail(replies));
      LastTwoCalls(t, next.executionId, rest[1].reply.id, Tail(Tail(Tail(replies))));
      var trace := Trace(t, Start(t), replies);
      assert trace[1..] == rest;
      assert trace[2] == rest[1] && trace[3] == rest[2..][0] && trace[4] == rest[2..][1];
    }
  }

  /** The compilation is asked for the proposal's own amount and bound, under its own key. */
  lemma {:induction false} CompilesTheTicket(t: Ticket, s: RunState, replies: seq<Reply>, i: nat)
    requires i < |Trace(t, s, replies)| && Trace(t, s, replies)[i].call.CompileIntent?
    ensures var call := Trace(t, s, replies)[i].call;
      && call.idempotencyKey == t.idempotencyKey && call.resourceRef == ResourceRefOf(t)
      && call.atomicAmount == t.atomicAmount && call.maxAtomicAmountPerCall == t.maxAtomicAmountPerCall
    decreases i
  {
    TraceStep(t, s, replies);
    if i > 0 {
      var next := Next(t, s, Head(replies));
      assert Trace(t, s, replies)[i] == Trace(t, next, Tail(replies))[i - 1];
      CompilesTheTicket(t, next, Tail(replies), i - 1);
    }
  }
}
