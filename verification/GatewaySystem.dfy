/** Any number of gateway runs, interleaved in any way over one kernel and one sandbox, with
    every call free to throw and greenlights also used elsewhere. */
module GatewaySystem {
  import opened JsText
  import opened Digests
  import opened X402Payment
  import opened GatewayStore
  import opened X402WalletGateway
  import opened X402Sandbox
  import opened GatewayKernel

  /** A run with the signing surface it was given. */
  datatype RunInstance = RunInstance(input: Input, surface: Surface, state: RunState)

  datatype LogEntry = LogEntry(run: nat, event: Event)

  /** `foreign` counts the retries recorded by others than the runs. */
  datatype System = System(
    consumptions: Consumptions, sandbox: SandboxState, runs: seq<RunInstance>, log: seq<LogEntry>, foreign: nat)

  datatype Action =
    | Start(input: Input, surface: Surface)
    | Check(run: nat, after: Consumptions, reply: Reply)
    | Sign(run: nat, answer: ClientAnswer, lost: bool)
    | Answer(run: nat, reply: Reply)
    | Elsewhere(after: Consumptions, retryParameters: Parameters, evidence: RetryEvidence)

  /** A fresh kernel, and a sandbox with these refs. */
  function Initial(refs: SandboxRefs): System {
    System(map[], SandboxState(refs, 0, 0, None, []), [], [], 0)
  }

  predicate Waiting(s: System, r: nat) {
    r < |s.runs| && !Finished(s.runs[r].state)
  }

  /** The greenlight that a waiting run's gateway check asks about. */
  function Asked(s: System, r: nat): JsString
    requires Waiting(s, r) && s.runs[r].state.AtCheck?
  {
    Pending(s.runs[r].input, s.runs[r].state).greenlightId
  }

  /** The gateway check answers by the kernel's one-use contract; other users of the kernel
      only ever add consumptions; every other call may be answered in any way. */
  predicate Enabled(s: System, a: Action) {
    match a
    case Start(_, _) => true
    case Check(r, after, reply) =>
      Waiting(s, r) && s.runs[r].state.AtCheck?
      && OneUse(s.consumptions, Asked(s, r), after, reply)
    case Sign(r, _, _) => Waiting(s, r) && s.runs[r].state.AtSign?
    case Answer(r, _) => Waiting(s, r) && !s.runs[r].state.AtCheck? && !s.runs[r].state.AtSign?
    case Elsewhere(after, _, _) => s.consumptions.Keys <= after.Keys
  }

  /** A reply reaches a run. */
  function Receive(s: System, r: nat, reply: Reply): System
    requires Waiting(s, r)
  {
    var run := s.runs[r];
    s.(runs := s.runs[r := run.(state := Next(run.input, run.state, reply))],
       log := s.log + [LogEntry(r, Event(Pending(run.input, run.state), reply))])
  }

  /** What signing leaves behind. The reply may be lost after the retry was recorded. */
  function Signing(hash: Hash, s: System, r: nat, answer: ClientAnswer): (SandboxState, Reply)
    requires Waiting(s, r) && s.runs[r].state.AtSign?
  {
    var run := s.runs[r];
    SandboxSign(hash, run.surface, s.sandbox, Pending(run.input, run.state).command, answer)
  }

  /** Someone else retries, with or without signature evidence, and consumes greenlights. */
  function ByOthers(s: System, after: Consumptions, p: Parameters, evidence: RetryEvidence): System {
    s.(consumptions := after, sandbox := AfterRetry(s.sandbox, p, evidence),
       foreign := s.foreign + if RetryGround(p, evidence).None? then 1 else 0)
  }

  function Apply(hash: Hash, s: System, a: Action): System
    requires Enabled(s, a)
  {
    match a
    case Start(input, surface) => s.(runs := s.runs + [RunInstance(input, surface, AtCheck)])
    case Check(r, after, reply) => Receive(s, r, reply).(consumptions := after)
    case Sign(r, answer, lost) =>
      var (sandbox, reply) := Signing(hash, s, r, answer);
      Receive(s, r, if lost then Threw else reply).(sandbox := sandbox)
    case Answer(r, reply) => Receive(s, r, reply)
    case Elsewhere(after, p, evidence) => ByOthers(s, after, p, evidence)
  }

  predicate Legal(hash: Hash, refs: SandboxRefs, actions: seq<Action>)
    decreases |actions|, 0
  {
    actions == [] ||
    (var before := actions[..|actions| - 1];
     Legal(hash, refs, before) && Enabled(After(hash, refs, before), actions[|actions| - 1]))
  }

  function After(hash: Hash, refs: SandboxRefs, actions: seq<Action>): System
    requires Legal(hash, refs, actions)
    decreases |actions|, 1
  {
    if actions == [] then Initial(refs)
    else Apply(hash, After(hash, refs, actions[..|actions| - 1]), actions[|actions| - 1])
  }

  // ------------------------------------------------------------- invariants

  function GateAt(e: LogEntry): Option<VerifiedGate> {
    if e.event.call.GatewayCheck? then VerifiedBy(e.event.reply) else None
  }

  predicate SignsAt(e: LogEntry) {
    e.event.call.SignPayment?
  }

  function GreenlightSigned(e: LogEntry): JsString
    requires SignsAt(e)
  {
    e.event.call.command.gate.greenlightId
  }

  /** The run verified this gate. */
  predicate Verified(log: seq<LogEntry>, r: nat, gate: VerifiedGate) {
    exists k :: 0 <= k < |log| && log[k].run == r && GateAt(log[k]) == Some(gate)
  }

  predicate BeforeSigning(s: RunState) {
    s.AtCheck? || s.AtRecord? || s.AtSign?
  }

  /** Every verified gate consumed its own run's greenlight. */
  predicate GatesConsume(s: System) {
    forall k :: 0 <= k < |s.log| ==>
      && s.log[k].run < |s.runs|
      && (GateAt(s.log[k]).Some? ==>
            GateAt(s.log[k]).value.greenlightId == s.runs[s.log[k].run].input.greenlightId
            && GateAt(s.log[k]).value.greenlightId in s.consumptions)
  }

  /** No two gates verify one greenlight. */
  predicate GatesDistinct(log: seq<LogEntry>) {
    forall k, l :: 0 <= k < l < |log| && GateAt(log[k]).Some? && GateAt(log[l]).Some? ==>
      GateAt(log[k]).value.greenlightId != GateAt(log[l]).value.greenlightId
  }

  predicate GatesHeld(s: System) {
    forall r :: 0 <= r < |s.runs| && (s.runs[r].state.AtRecord? || s.runs[r].state.AtSign?) ==>
      Verified(s.log, r, s.runs[r].state.gate)
  }

  /** Every signing is by a run that verified the command's gate and is now past signing,
      under gateway-held custody. */
  predicate SigningsVerified(s: System) {
    forall k :: 0 <= k < |s.log| && SignsAt(s.log[k]) ==>
      && s.log[k].run < |s.runs|
      && Verified(s.log, s.log[k].run, s.log[k].event.call.command.gate)
      && !BeforeSigning(s.runs[s.log[k].run].state)
  }

  predicate SigningsByDistinctRuns(log: seq<LogEntry>) {
    forall k, l :: 0 <= k < l < |log| && SignsAt(log[k]) && SignsAt(log[l]) ==> log[k].run != log[l].run
  }

  predicate Safe(s: System) {
    GatesConsume(s) && GatesDistinct(s.log) && GatesHeld(s) && SigningsVerified(s) && SigningsByDistinctRuns(s.log)
  }

  lemma VerifiedStays(log: seq<LogEntry>, e: LogEntry, r: nat, gate: VerifiedGate)
    requires Verified(log, r, gate)
    ensures Verified(log + [e], r, gate)
  {
    var k :| 0 <= k < |log| && log[k].run == r && GateAt(log[k]) == Some(gate);
    assert (log + [e])[k] == log[k];
  }

  lemma OldEntries(log: seq<LogEntry>, e: LogEntry)
    ensures forall k :: 0 <= k < |log| ==> (log + [e])[k] == log[k]
    ensures (log + [e])[|log|] == e
  {
  }

  /** What a step adds to the log. */
  function Added(s: System, r: nat, reply: Reply): LogEntry
    requires Waiting(s, r)
  {
    LogEntry(r, Event(Pending(s.runs[r].input, s.runs[r].state), reply))
  }

  /** A reply that verifies a gate comes from a check of an unconsumed greenlight. */
  lemma NewGateIsFresh(s: System, r: nat, reply: Reply, after: Consumptions)
    requires Waiting(s, r) && s.consumptions.Keys <= after.Keys
    requires s.runs[r].state.AtCheck? ==> OneUse(s.consumptions, Asked(s, r), after, reply)
    ensures GateAt(Added(s, r, reply)).Some? ==>
      var g := GateAt(Added(s, r, reply)).value.greenlightId;
      g == s.runs[r].input.greenlightId && g !in s.consumptions && g in after
  {
  }

  lemma ReceiveKeepsGates(s: System, r: nat, reply: Reply, after: Consumptions)
    requires GatesConsume(s) && GatesDistinct(s.log) && Waiting(s, r)
    requires s.consumptions.Keys <= after.Keys
    requires s.runs[r].state.AtCheck? ==> OneUse(s.consumptions, Asked(s, r), after, reply)
    ensures GatesConsume(Receive(s, r, reply).(consumptions := after))
    ensures GatesDistinct(Receive(s, r, reply).log)
  {
    var e := Added(s, r, reply);
    OldEntries(s.log, e);
    NewGateIsFresh(s, r, reply, after);
    AppendKeepsDistinct(s, e);
    var t := Receive(s, r, reply).(consumptions := after);
    assert t.log == s.log + [e];
    assert forall i :: 0 <= i < |s.runs| ==> t.runs[i].input == s.runs[i].input;
  }

  lemma AppendKeepsDistinct(s: System, e: LogEntry)
    requires GatesConsume(s) && GatesDistinct(s.log)
    requires GateAt(e).Some? ==> GateAt(e).value.greenlightId !in s.consumptions
    ensures GatesDistinct(s.log + [e])
  {
    OldEntries(s.log, e);
  }

  lemma ReceiveKeepsHeld(s: System, r: nat, reply: Reply)
    requires GatesHeld(s) && Waiting(s, r)
    ensures GatesHeld(Receive(s, r, reply))
  {
    var state := s.runs[r].state;
    var e := Added(s, r, reply);
    var t := Receive(s, r, reply);
    OldEntries(s.log, e);
    forall i | 0 <= i < |t.runs| && (t.runs[i].state.AtRecord? || t.runs[i].state.AtSign?)
      ensures Verified(t.log, i, t.runs[i].state.gate)
    {
      if i == r && state.AtCheck? {
        assert GateAt(t.log[|s.log|]) == Some(t.runs[i].state.gate);
      } else {
        VerifiedStays(s.log, e, i, t.runs[i].state.gate);
      }
    }
  }

  lemma ReceiveKeepsSigningsVerified(s: System, r: nat, reply: Reply)
    requires GatesHeld(s) && SigningsVerified(s) && Waiting(s, r)
    ensures SigningsVerified(Receive(s, r, reply))
  {
    var e := Added(s, r, reply);
    var t := Receive(s, r, reply);
    OldEntries(s.log, e);
    forall k | 0 <= k < |t.log| && SignsAt(t.log[k])
      ensures t.log[k].run < |t.runs|
      ensures Verified(t.log, t.log[k].run, t.log[k].event.call.command.gate)
      ensures !BeforeSigning(t.runs[t.log[k].run].state)
    {
      if k < |s.log| {
        VerifiedStays(s.log, e, s.log[k].run, s.log[k].event.call.command.gate);
      } else {
        VerifiedStays(s.log, e, r, s.runs[r].state.gate);
      }
    }
  }

  lemma ReceiveKeepsSigners(s: System, r: nat, reply: Reply)
    requires SigningsVerified(s) && SigningsByDistinctRuns(s.log) && Waiting(s, r)
    ensures SigningsByDistinctRuns(Receive(s, r, reply).log)
  {
    var e := Added(s, r, reply);
    OldEntries(s.log, e);
    if SignsAt(e) {
      assert BeforeSigning(s.runs[r].state);
    }
  }

  lemma ReceiveKeepsSafe(s: System, r: nat, reply: Reply, after: Consumptions)
    requires Safe(s) && Waiting(s, r) && s.consumptions.Keys <= after.Keys
    requires s.runs[r].state.AtCheck? ==> OneUse(s.consumptions, Asked(s, r), after, reply)
    ensures Safe(Receive(s, r, reply).(consumptions := after))
  {
    ReceiveKeepsGates(s, r, reply, after);
    ReceiveKeepsHeld(s, r, reply);
    ReceiveKeepsSigningsVerified(s, r, reply);
    ReceiveKeepsSigners(s, r, reply);
  }

  lemma StepKeepsSafe(hash: Hash, s: System, a: Action)
    requires Safe(s) && Enabled(s, a)
    ensures Safe(Apply(hash, s, a))
  {
    match a
    case Start(_, _) => StartKeepsSafe(hash, s, a);
    case Check(r, after, reply) =>
      ReceiveKeepsSafe(s, r, reply, after);
    case Sign(r, answer, lost) =>
      var reply := if lost then Threw else Signing(hash, s, r, answer).1;
      ReceiveKeepsSafe(s, r, reply, s.consumptions);
    case Answer(r, reply) =>
      ReceiveKeepsSafe(s, r, reply, s.consumptions);
    case Elsewhere(_, _, _) =>
  }

  lemma StartKeepsSafe(hash: Hash, s: System, a: Action)
    requires Safe(s) && a.Start?
    ensures Safe(Apply(hash, s, a))
  {
    var t := Apply(hash, s, a);
    assert forall r :: 0 <= r < |s.runs| ==> t.runs[r] == s.runs[r];
  }

  lemma {:induction false} ReachableIsSafe(hash: Hash, refs: SandboxRefs, actions: seq<Action>)
    requires Legal(hash, refs, actions)
    ensures Safe(After(hash, refs, actions))
    decreases |actions|
  {
    if actions != [] {
      var before := actions[..|actions| - 1];
      ReachableIsSafe(hash, refs, before);
      StepKeepsSafe(hash, After(hash, refs, before), actions[|actions| - 1]);
    }
  }

  /** Over every interleaving of any number of runs, no greenlight is verified twice, and no
      greenlight is signed for twice. */
  lemma GreenlightSignsAtMostOnce(hash: Hash, refs: SandboxRefs, actions: seq<Action>, k: nat, l: nat)
    requires Legal(hash, refs, actions) && k < l < |After(hash, refs, actions).log|
    ensures var log := After(hash, refs, actions).log;
      && (GateAt(log[k]).Some? && GateAt(log[l]).Some? ==>
            GateAt(log[k]).value.greenlightId != GateAt(log[l]).value.greenlightId)
      && (SignsAt(log[k]) && SignsAt(log[l]) ==> GreenlightSigned(log[k]) != GreenlightSigned(log[l]))
  {
    ReachableIsSafe(hash, refs, actions);
    var s := After(hash, refs, actions);
    if SignsAt(s.log[k]) && SignsAt(s.log[l]) {
      var g, h := s.log[k].event.call.command.gate, s.log[l].event.call.command.gate;
      var i :| 0 <= i < |s.log| && s.log[i].run == s.log[k].run && GateAt(s.log[i]) == Some(g);
      var j :| 0 <= j < |s.log| && s.log[j].run == s.log[l].run && GateAt(s.log[j]) == Some(h);
      assert i != j;
    }
  }

  // ------------------------------------------ runs in the system are runs

  /** The events of one run, in order. */
  function History(log: seq<LogEntry>, r: nat): seq<Event> {
    if log == [] then []
    else
      var last := log[|log| - 1];
      History(log[..|log| - 1], r) + if last.run == r then [last.event] else []
  }

  function Replies(h: seq<Event>): seq<Reply> {
    seq(|h|, i requires 0 <= i < |h| => h[i].reply)
  }

  /** The state a run reaches by these events, each being the call it then makes. */
  ghost predicate Follows(input: Input, h: seq<Event>, s: RunState)
    decreases |h|
  {
    if h == [] then s.AtCheck?
    else
      var last := h[|h| - 1];
      exists before: RunState :: Follows(input, h[..|h| - 1], before)
        && !Finished(before) && last.call == Pending(input, before) && s == Next(input, before, last.reply)
  }

  lemma NextCall(input: Input, s: RunState, reply: Reply, rest: seq<Reply>)
    requires !Finished(s)
    ensures Trace(input, s, [reply] + rest) == [Event(Pending(input, s), reply)] + Trace(input, Next(input, s, reply), rest)
    ensures Final(input, s, [reply] + rest) == Final(input, Next(input, s, reply), rest)
  {
    TraceStep(input, s, [reply] + rest);
    assert Tail([reply] + rest) == rest;
  }

  lemma SplitReplies(h: seq<Event>, rest: seq<Reply>)
    requires h != []
    ensures Replies(h) + rest == Replies(h[..|h| - 1]) + ([h[|h| - 1].reply] + rest)
  {
  }

  lemma NothingFollowed(h: seq<Event>, rest: seq<Reply>, tail: seq<Event>)
    requires h == []
    ensures Replies(h) + rest == rest && h + tail == tail
  {
  }

  lemma LastStep(input: Input, h: seq<Event>, s: RunState) returns (before: RunState)
    requires Follows(input, h, s) && h != []
    ensures Follows(input, h[..|h| - 1], before) && !Finished(before)
    ensures h[|h| - 1].call == Pending(input, before) && s == Next(input, before, h[|h| - 1].reply)
  {
    before :| Follows(input, h[..|h| - 1], before)
      && !Finished(before) && h[|h| - 1].call == Pending(input, before) && s == Next(input, before, h[|h| - 1].reply);
  }

  /** A run that has followed these events goes on as the whole run does with their replies. */
  lemma {:induction false} FollowsIsTracePrefix(input: Input, h: seq<Event>, s: RunState, rest: seq<Reply>)
    requires Follows(input, h, s)
    ensures Trace(input, AtCheck, Replies(h) + rest) == h + Trace(input, s, rest)
    ensures Final(input, AtCheck, Replies(h) + rest) == Final(input, s, rest)
    decreases |h|, 1
  {
    if h == [] {
      NothingFollowed(h, rest, Trace(input, s, rest));
    } else {
      LongerTracePrefix(input, h, s, rest);
    }
  }

  lemma LongerTracePrefix(input: Input, h: seq<Event>, s: RunState, rest: seq<Reply>)
    requires Follows(input, h, s) && h != []
    ensures Trace(input, AtCheck, Replies(h) + rest) == h + Trace(input, s, rest)
    ensures Final(input, AtCheck, Replies(h) + rest) == Final(input, s, rest)
    decreases |h|, 0
  {
    var before := LastStep(input, h, s);
    OneMoreReply(input, h, before, s, rest);
  }

  lemma OneMoreReply(input: Input, h: seq<Event>, before: RunState, s: RunState, rest: seq<Reply>)
    requires h != [] && Follows(input, h[..|h| - 1], before) && !Finished(before)
    requires h[|h| - 1].call == Pending(input, before) && s == Next(input, before, h[|h| - 1].reply)
    ensures Trace(input, AtCheck, Replies(h) + rest) == h + Trace(input, s, rest)
    ensures Final(input, AtCheck, Replies(h) + rest) == Final(input, s, rest)
    decreases |h| - 1, 2
  {
    var last := h[|h| - 1];
    FollowsIsTracePrefix(input, h[..|h| - 1], before, [last.reply] + rest);
    SplitReplies(h, rest);
    NextCall(input, before, last.reply, rest);
    Regrouped(h, Trace(input, s, rest));
  }

  lemma Regrouped(h: seq<Event>, tail: seq<Event>)
    requires h != []
    ensures h[..|h| - 1] + ([h[|h| - 1]] + tail) == h + tail
  {
  }

  ghost predicate AllFollow(s: System) {
    forall r :: 0 <= r < |s.runs| ==> Follows(s.runs[r].input, History(s.log, r), s.runs[r].state)
  }

  lemma {:induction false} NoHistoryYet(log: seq<LogEntry>, r: nat)
    requires forall k :: 0 <= k < |log| ==> log[k].run < r
    ensures History(log, r) == []
  {
    if log != [] {
      NoHistoryYet(log[..|log| - 1], r);
    }
  }

  lemma ReceiveFollows(s: System, r: nat, reply: Reply)
    requires AllFollow(s) && Waiting(s, r)
    ensures AllFollow(Receive(s, r, reply))
  {
    var t := Receive(s, r, reply);
    assert t.log[..|t.log| - 1] == s.log;
    var e := t.log[|t.log| - 1].event;
    forall i | 0 <= i < |t.runs| ensures Follows(t.runs[i].input, History(t.log, i), t.runs[i].state) {
      if i == r {
        var h := History(t.log, r);
        assert h[..|h| - 1] == History(s.log, r) && h[|h| - 1] == e;
        assert Follows(s.runs[r].input, h[..|h| - 1], s.runs[r].state);
      } else {
        assert History(t.log, i) == History(s.log, i);
      }
    }
  }

  lemma StepFollows(hash: Hash, s: System, a: Action)
    requires AllFollow(s) && GatesConsume(s) && Enabled(s, a)
    ensures AllFollow(Apply(hash, s, a))
  {
    match a
    case Start(_, _) =>
      var t := Apply(hash, s, a);
      NoHistoryYet(s.log, |s.runs|);
      assert forall r :: 0 <= r < |s.runs| ==> t.runs[r] == s.runs[r];
    case Check(r, _, reply) => ReceiveFollows(s, r, reply);
    case Sign(r, answer, lost) => ReceiveFollows(s, r, if lost then Threw else Signing(hash, s, r, answer).1);
    case Answer(r, reply) => ReceiveFollows(s, r, reply);
    case Elsewhere(_, _, _) =>
  }

  lemma {:induction false} ReachableFollows(hash: Hash, refs: SandboxRefs, actions: seq<Action>)
    requires Legal(hash, refs, actions)
    ensures AllFollow(After(hash, refs, actions))
    decreases |actions|
  {
    if actions != [] {
      var before := actions[..|actions| - 1];
      ReachableFollows(hash, refs, before);
      ReachableIsSafe(hash, refs, before);
      StepFollows(hash, After(hash, refs, before), actions[|actions| - 1]);
    }
  }

  /** However runs interleave, the calls and replies of each are the beginning of a run of
      `runX402WalletGateway` by itself, so what holds of every single run holds of it. */
  lemma EveryRunIsARun(hash: Hash, refs: SandboxRefs, actions: seq<Action>, r: nat)
    requires Legal(hash, refs, actions) && r < |After(hash, refs, actions).runs|
    ensures var s := After(hash, refs, actions);
      var h := History(s.log, r);
      && h <= Trace(s.runs[r].input, AtCheck, Replies(h))
      && (Finished(s.runs[r].state) ==>
            h == Trace(s.runs[r].input, AtCheck, Replies(h))
            && s.runs[r].state == Final(s.runs[r].input, AtCheck, Replies(h)))
  {
    var s := After(hash, refs, actions);
    var h := History(s.log, r);
    ReachableFollows(hash, refs, actions);
    FollowsIsTracePrefix(s.runs[r].input, h, s.runs[r].state, []);
    assert Replies(h) + [] == Replies(h);
  }

  // ---------------------------------------------------------------- counts

  function CountSignings(log: seq<LogEntry>): nat {
    if log == [] then 0
    else CountSignings(log[..|log| - 1]) + if SignsAt(log[|log| - 1]) then 1 else 0
  }

  function CountGates(log: seq<LogEntry>): nat {
    if log == [] then 0
    else CountGates(log[..|log| - 1]) + if GateAt(log[|log| - 1]).Some? then 1 else 0
  }

  /** Runs that hold a verified gate they have not yet signed under. */
  function CountHolding(runs: seq<RunInstance>): nat {
    if runs == [] then 0
    else CountHolding(runs[..|runs| - 1]) + Holding(runs[|runs| - 1].state)
  }

  function Holding(s: RunState): nat {
    if s.AtRecord? || s.AtSign? then 1 else 0
  }

  lemma {:induction false} CountHoldingUpdate(runs: seq<RunInstance>, r: nat, run: RunInstance)
    requires r < |runs|
    ensures CountHolding(runs[r := run]) + Holding(runs[r].state) == CountHolding(runs) + Holding(run.state)
  {
    var n := |runs| - 1;
    if r == n {
      assert runs[r := run][..n] == runs[..n];
    } else {
      assert runs[r := run][..n] == runs[..n][r := run];
      CountHoldingUpdate(runs[..n], r, run);
    }
  }

  /** The counts that hold throughout: recorded retries, signings, verified gates,
      consumptions. */
  predicate Counted(s: System) {
    && Numbered(s.sandbox)
    && |s.sandbox.recorded| <= CountSignings(s.log) + s.foreign
    && CountSignings(s.log) + CountHolding(s.runs) <= CountGates(s.log)
    && CountGates(s.log) <= |s.consumptions|
  }

  lemma ReceiveCounts(s: System, r: nat, reply: Reply)
    requires Waiting(s, r)
    ensures var t := Receive(s, r, reply);
      && CountSignings(t.log) == CountSignings(s.log) + (if s.runs[r].state.AtSign? then 1 else 0)
      && CountGates(t.log) == CountGates(s.log)
           + (if s.runs[r].state.AtCheck? && VerifiedBy(reply).Some? then 1 else 0)
      && CountHolding(t.runs) + Holding(s.runs[r].state) == CountHolding(s.runs) + Holding(t.runs[r].state)
  {
    var t := Receive(s, r, reply);
    assert t.log[..|t.log| - 1] == s.log;
    CountHoldingUpdate(s.runs, r, t.runs[r]);
  }

  lemma CheckKeepsCounts(s: System, r: nat, after: Consumptions, reply: Reply)
    requires Counted(s) && Waiting(s, r) && s.runs[r].state.AtCheck?
    requires OneUse(s.consumptions, Asked(s, r), after, reply)
    ensures Counted(Receive(s, r, reply).(consumptions := after))
  {
    ReceiveCounts(s, r, reply);
    var g := Asked(s, r);
    if g !in s.consumptions && g in after && after == s.consumptions[g := after[g]] {
      assert after.Keys == s.consumptions.Keys + {g};
      assert |after| == |after.Keys| && |s.consumptions| == |s.consumptions.Keys|;
    }
  }

  lemma SignKeepsCounts(hash: Hash, s: System, r: nat, answer: ClientAnswer, lost: bool)
    requires Counted(s) && Enabled(s, Sign(r, answer, lost))
    ensures Counted(Apply(hash, s, Sign(r, answer, lost)))
  {
    var run := s.runs[r];
    var command := Pending(run.input, run.state).command;
    var reply := Signing(hash, s, r, answer).1;
    SigningRecordsAtMostOne(hash, run.surface, s.sandbox, command, answer);
    SignedKeepsCounts(s, r, if lost then Threw else reply, Signing(hash, s, r, answer).0);
  }

  lemma SignedKeepsCounts(s: System, r: nat, reply: Reply, sandbox: SandboxState)
    requires Counted(s) && Waiting(s, r) && s.runs[r].state.AtSign?
    requires Numbered(sandbox) && |sandbox.recorded| <= |s.sandbox.recorded| + 1
    ensures Counted(Receive(s, r, reply).(sandbox := sandbox))
  {
    ReceiveCounts(s, r, reply);
  }

  lemma StartKeepsCounts(s: System, run: RunInstance)
    requires Counted(s) && Holding(run.state) == 0
    ensures Counted(s.(runs := s.runs + [run]))
  {
    assert (s.runs + [run])[..|s.runs|] == s.runs;
  }

  lemma ElsewhereKeepsCounts(s: System, after: Consumptions, p: Parameters, evidence: RetryEvidence)
    requires Counted(s) && s.consumptions.Keys <= after.Keys
    ensures Counted(ByOthers(s, after, p, evidence))
  {
    RetriesStayNumbered(s.sandbox, p, evidence);
    MoreKeysMoreEntries(s.consumptions, after);
  }

  lemma AnswerKeepsCounts(s: System, r: nat, reply: Reply)
    requires Counted(s) && Waiting(s, r) && !s.runs[r].state.AtCheck? && !s.runs[r].state.AtSign?
    ensures Counted(Receive(s, r, reply))
  {
    ReceiveCounts(s, r, reply);
  }

  lemma StepKeepsCounts(hash: Hash, s: System, a: Action)
    requires Counted(s) && Enabled(s, a)
    ensures Counted(Apply(hash, s, a))
  {
    match a
    case Start(input, surface) =>
      StartKeepsCounts(s, RunInstance(input, surface, AtCheck));
    case Check(r, after, reply) => CheckKeepsCounts(s, r, after, reply);
    case Sign(r, answer, lost) => SignKeepsCounts(hash, s, r, answer, lost);
    case Answer(r, reply) => AnswerKeepsCounts(s, r, reply);
    case Elsewhere(after, p, evidence) => ElsewhereKeepsCounts(s, after, p, evidence);
  }

  lemma MoreKeysMoreEntries(a: Consumptions, b: Consumptions)
    requires a.Keys <= b.Keys
    ensures |a| <= |b|
  {
    SubsetIsSmaller(a.Keys, b.Keys);
    assert |a| == |a.Keys| && |b| == |b.Keys|;
  }

  lemma SubsetIsSmaller<T>(a: set<T>, b: set<T>)
    requires a <= b
    ensures |a| <= |b|
  {
    assert b == a + (b - a);
  }

  /** Throughout every interleaving: recorded retries are at most the `signPayment` calls
      and what others recorded; the calls are at most the verified gates, these at most the consumed greenlights; and the
      recorded retries are numbered 1, 2, 3, ... in order. */
  lemma {:induction false} ReachableIsCounted(hash: Hash, refs: SandboxRefs, actions: seq<Action>)
    requires Legal(hash, refs, actions)
    ensures Counted(After(hash, refs, actions))
    decreases |actions|
  {
    if actions != [] {
      var before := actions[..|actions| - 1];
      ReachableIsCounted(hash, refs, before);
      StepKeepsCounts(hash, After(hash, refs, before), actions[|actions| - 1]);
    }
  }

  // ------------------------------------------------- what an interleaving may do

  lemma LegalExtends(hash: Hash, refs: SandboxRefs, actions: seq<Action>, a: Action)
    requires Legal(hash, refs, actions) && Enabled(After(hash, refs, actions), a)
    ensures Legal(hash, refs, actions + [a])
    ensures After(hash, refs, actions + [a]) == Apply(hash, After(hash, refs, actions), a)
  {
    assert (actions + [a])[..|actions|] == actions;
  }

  /** Interleavings are not restricted beyond the kernel's contract: at any time a run may start, a
      check may verify an unconsumed greenlight or nothing at all, a signing may answer anything
      or lose its reply, every other call may be answered in any way, and others may add
      consumptions and retry. */
  lemma AnyStepIsLegal(hash: Hash, refs: SandboxRefs, actions: seq<Action>, a: Action)
    requires Legal(hash, refs, actions)
    requires var s := After(hash, refs, actions);
      match a
      case Start(_, _) => true
      case Check(r, after, reply) =>
        && r < |s.runs| && s.runs[r].state == AtCheck
        && (match VerifiedBy(reply)
            case None => after == s.consumptions
            case Some(gate) =>
              && gate.greenlightId == s.runs[r].input.greenlightId && gate.greenlightId !in s.consumptions
              && gate.greenlightId in after
              && after == s.consumptions[gate.greenlightId := after[gate.greenlightId]])
      case Sign(r, _, _) => r < |s.runs| && s.runs[r].state.AtSign?
      case Answer(r, _) =>
        && r < |s.runs| && !s.runs[r].state.Returned? && !s.runs[r].state.Rejected?
        && !s.runs[r].state.AtCheck? && !s.runs[r].state.AtSign?
      case Elsewhere(after, _, _) => forall g :: g in s.consumptions ==> g in after
    ensures Legal(hash, refs, actions + [a])
  {
    LegalExtends(hash, refs, actions, a);
  }
}
