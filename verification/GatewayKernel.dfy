/** The kernel's gateway check down to its commit: whatever it evaluates, it verifies a
    greenlight only by consuming it, and a greenlight can be consumed only once. */
module GatewayKernel {
  import opened JsText
  import opened GatewayStore
  import opened X402WalletGateway

  /** What the check has decided and built before it commits. `refusal` is the first ground
      for refusal that `gateRefusalReason` finds. */
  datatype Plan = Plan(
    actionContractId: JsString, greenlightId: JsString, providedRef: JsString, createdRef: CreatedId,
    refusal: Option<JsString>, gateAttemptId: JsString, mutationAttemptId: JsString, gatewayId: JsString,
    actionClass: JsString, resourceRef: JsString, idempotencyKey: JsString,
    claims: seq<Entry>, ledger: seq<Entry>, receipts: seq<Entry>, records: seq<Entry>)

  /** `createId` never returns the empty string. */
  type CreatedId = id: JsString | id != [] witness [0]

  /** `surfaceOperationRefFor`: an empty ref is falsy. */
  function SurfaceRef(p: Plan): CreatedId {
    if p.providedRef != [] then p.providedRef else p.createdRef
  }

  type Consumptions = map<JsString, Consumption>

  /** `MAX_STREAM_COMMIT_RETRIES` is 3, so there are four attempts. */
  const ATTEMPTS: nat := 4

  function PlannedConsumption(p: Plan): Consumption {
    Consumption(p.greenlightId, p.gateAttemptId, p.actionContractId, p.idempotencyKey)
  }

  /** `buildGatewayCheckCommit`, on the event chain built from the stream tails just read. */
  function PlannedCommit(p: Plan, events: seq<StreamEvent>): Commit {
    if p.refusal.Some? then Commit(None, [], [], p.receipts, p.records, events)
    else Commit(Some(PlannedConsumption(p)), p.claims, p.ledger, p.receipts, p.records, events)
  }

  function PassedResult(p: Plan): GatewayCheckResult {
    GatewayCheckResult(p.gateAttemptId, GatePassed,
      Some(MutationAttempt(p.mutationAttemptId, p.actionContractId, p.greenlightId, p.gatewayId, p.actionClass,
                           p.resourceRef, p.idempotencyKey, Some(SurfaceRef(p)))))
  }

  function RefusedResult(gateAttemptId: JsString): GatewayCheckResult {
    GatewayCheckResult(gateAttemptId, GateRefused, None)
  }

  /** The gate a reply verifies, if any. */
  function VerifiedBy(reply: Reply): Option<VerifiedGate> {
    if reply.CheckReply? then VerifiedGateFrom(reply.result) else None
  }

  /** The one-use contract, from the consumptions before a check to those after: a verified
      gate is for the greenlight asked about, which was not consumed before and is
      after; and a check that verifies nothing consumes nothing, unless its reply was lost. */
  predicate OneUse(before: Consumptions, greenlightId: JsString, after: Consumptions, reply: Reply) {
    match VerifiedBy(reply)
    case Some(gate) =>
      && gate.greenlightId == greenlightId
      && greenlightId !in before
      && greenlightId in after
      && after == before[greenlightId := after[greenlightId]]
    case None =>
      after == before ||
      (reply.Threw? && greenlightId !in before && greenlightId in after
       && after == before[greenlightId := after[greenlightId]])
  }

  /** The commit of a replay refusal: records and events, no consumption. */
  function RefusalCommit(records: seq<Entry>, events: seq<StreamEvent>): Commit {
    Commit(None, [], [], [], records, events)
  }

  /** A replay refusal, tried on one event chain after another. */
  function RefusalAfter(s: StoreState, gateAttemptId: JsString, records: seq<Entry>, chains: seq<seq<StreamEvent>>)
    : (StoreState, Reply)
  {
    if chains == [] then (s, Threw)
    else
      var commit := RefusalCommit(records, chains[0]);
      if ResultOf(s, commit).Committed? || ResultOf(s, commit).AlreadyConsumed?
      then (AfterCommit(s, commit), CheckReply(RefusedResult(gateAttemptId)))
      else RefusalAfter(s, gateAttemptId, records, chains[1..])
  }

  /** A replay refusal's own data. */
  datatype Replay = Replay(gateAttemptId: JsString, records: seq<Entry>, chains: seq<seq<StreamEvent>>)

  function PlannedResult(p: Plan): GatewayCheckResult {
    if p.refusal.Some? then RefusedResult(p.gateAttemptId) else PassedResult(p)
  }

  /** A planned commit, tried on one event chain after another. */
  function PlanAfter(s: StoreState, p: Plan, chains: seq<seq<StreamEvent>>, replay: Replay): (StoreState, Reply) {
    if chains == [] then (s, Threw)
    else
      var commit := PlannedCommit(p, chains[0]);
      match ResultOf(s, commit)
      case Committed => (AfterCommit(s, commit), CheckReply(PlannedResult(p)))
      case StreamConflict => PlanAfter(s, p, chains[1..], replay)
      case _ => RefusalAfter(s, replay.gateAttemptId, replay.records, replay.chains)
  }

  /** `commitReplayRefusal`: a refusal record is committed, without consumption. */
  method CommitReplayRefusal(store: InMemoryProtocolStore, replay: Replay) returns (reply: Reply)
    requires |replay.chains| == 4
    modifies store
    ensures (store.State(), reply)
         == RefusalAfter(old(store.State()), replay.gateAttemptId, replay.records, replay.chains)
    ensures store.consumptions == old(store.consumptions)
  {
    RefusalConsumesNothing(store.State(), replay.gateAttemptId, replay.records, replay.chains);
    ghost var before := store.State();
    for attempt := 0 to ATTEMPTS
      invariant store.State() == before
      invariant RefusalAfter(before, replay.gateAttemptId, replay.records, replay.chains)
             == RefusalAfter(before, replay.gateAttemptId, replay.records, replay.chains[attempt..])
    {
      var result := store.CommitGatewayCheck(RefusalCommit(replay.records, replay.chains[attempt]));
      assert replay.chains[attempt..][1..] == replay.chains[attempt + 1..];
      if result.Committed? || result.AlreadyConsumed? {
        return CheckReply(RefusedResult(replay.gateAttemptId));
      }
    }
    return Threw;
  }

  lemma {:induction false} RefusalConsumesNothing(s: StoreState, gateAttemptId: JsString, records: seq<Entry>,
                                                  chains: seq<seq<StreamEvent>>)
    ensures RefusalAfter(s, gateAttemptId, records, chains).0.consumptions == s.consumptions
    ensures RefusalAfter(s, gateAttemptId, records, chains).1 == Threw
         || RefusalAfter(s, gateAttemptId, records, chains).1 == CheckReply(RefusedResult(gateAttemptId))
    decreases |chains|
  {
    if chains != [] {
      RefusalConsumesNothing(s, gateAttemptId, records, chains[1..]);
    }
  }

  /** `commitGatewayCheckPlan`: commit, retrying stream conflicts on fresh event chains, and
      turning every other conflict into a replay refusal. */
  method CommitPlan(store: InMemoryProtocolStore, p: Plan, chains: seq<seq<StreamEvent>>, replay: Replay)
    returns (reply: Reply)
    requires |chains| == 4 && |replay.chains| == 4
    modifies store
    ensures (store.State(), reply) == PlanAfter(old(store.State()), p, chains, replay)
    ensures OneUse(old(store.consumptions), p.greenlightId, store.consumptions, reply)
    ensures VerifiedBy(reply).Some? ==>
      && p.refusal.None? && reply == CheckReply(PassedResult(p))
      && store.consumptions[p.greenlightId] == PlannedConsumption(p)
    ensures p.greenlightId in old(store.consumptions) ==> VerifiedBy(reply).None?
  {
    PlanIsOneUse(store.State(), p, chains, replay);
    ghost var before := store.State();
    for attempt := 0 to ATTEMPTS
      invariant store.State() == before
      invariant PlanAfter(before, p, chains, replay) == PlanAfter(before, p, chains[attempt..], replay)
    {
      var commit := PlannedCommit(p, chains[attempt]);
      var result := store.CommitGatewayCheck(commit);
      assert chains[attempt..][1..] == chains[attempt + 1..];
      if result.Committed? {
        return CheckReply(if p.refusal.Some? then RefusedResult(p.gateAttemptId) else PassedResult(p));
      }
      if !result.StreamConflict? {
        reply := CommitReplayRefusal(store, replay);
        return;
      }
    }
    return Threw;
  }

  /** Whatever the chains, the store moves on by the one-use contract. */
  lemma {:induction false} PlanIsOneUse(s: StoreState, p: Plan, chains: seq<seq<StreamEvent>>, replay: Replay)
    ensures var (t, reply) := PlanAfter(s, p, chains, replay);
      && OneUse(s.consumptions, p.greenlightId, t.consumptions, reply)
      && (p.greenlightId in s.consumptions ==> VerifiedBy(reply).None?)
      && (VerifiedBy(reply).Some? ==>
            p.refusal.None? && reply == CheckReply(PassedResult(p))
            && t.consumptions[p.greenlightId] == PlannedConsumption(p))
    decreases |chains|
  {
    if chains != [] {
      PlanIsOneUse(s, p, chains[1..], replay);
      if ResultOf(s, PlannedCommit(p, chains[0])) == Committed {
        CommittedIsOneUse(s, p, chains[0]);
      }
      RefusalConsumesNothing(s, replay.gateAttemptId, replay.records, replay.chains);
    }
  }

  lemma CommittedIsOneUse(s: StoreState, p: Plan, events: seq<StreamEvent>)
    requires ResultOf(s, PlannedCommit(p, events)) == Committed
    ensures var t, reply := AfterCommit(s, PlannedCommit(p, events)), CheckReply(PlannedResult(p));
      && OneUse(s.consumptions, p.greenlightId, t.consumptions, reply)
      && (p.greenlightId in s.consumptions ==> VerifiedBy(reply).None?)
      && (VerifiedBy(reply).Some? ==>
            p.refusal.None? && PlannedResult(p) == PassedResult(p)
            && t.consumptions[p.greenlightId] == PlannedConsumption(p))
  {
  }

  /** The chain on which a plan is committed: every one before it met a stream conflict. */
  predicate CommitsOn(s: StoreState, p: Plan, chains: seq<seq<StreamEvent>>, k: nat) {
    && k < |chains| && ResultOf(s, PlannedCommit(p, chains[k])) == Committed
    && forall i :: 0 <= i < k ==> ResultOf(s, PlannedCommit(p, chains[i])) == StreamConflict
  }

  ghost predicate Commits(s: StoreState, p: Plan, chains: seq<seq<StreamEvent>>) {
    exists k: nat :: CommitsOn(s, p, chains, k)
  }

  lemma CommitsLater(s: StoreState, p: Plan, chains: seq<seq<StreamEvent>>)
    requires chains != []
    ensures Commits(s, p, chains) <==>
      || ResultOf(s, PlannedCommit(p, chains[0])) == Committed
      || (ResultOf(s, PlannedCommit(p, chains[0])) == StreamConflict && Commits(s, p, chains[1..]))
  {
    if Commits(s, p, chains) {
      var k: nat :| CommitsOn(s, p, chains, k);
      if k > 0 {
        assert chains[1..][k - 1] == chains[k];
        assert forall i :: 0 <= i < k - 1 ==> chains[1..][i] == chains[i + 1];
        assert CommitsOn(s, p, chains[1..], k - 1);
      }
    }
    if ResultOf(s, PlannedCommit(p, chains[0])) == Committed {
      assert CommitsOn(s, p, chains, 0);
    } else if ResultOf(s, PlannedCommit(p, chains[0])) == StreamConflict && Commits(s, p, chains[1..]) {
      var k: nat :| CommitsOn(s, p, chains[1..], k);
      assert forall i :: 0 < i <= k ==> chains[i] == chains[1..][i - 1];
      assert CommitsOn(s, p, chains, k + 1);
    }
  }

  lemma PassedVerifies(p: Plan)
    ensures VerifiedGateFrom(PassedResult(p)).Some? && VerifiedGateFrom(RefusedResult(p.gateAttemptId)).None?
  {
  }

  /** A gate is verified exactly when the plan has no refusal and is committed on one of the event
      chains, after nothing but stream conflicts. */
  lemma {:induction false} VerifiedExactly(s: StoreState, p: Plan, chains: seq<seq<StreamEvent>>, replay: Replay)
    ensures VerifiedBy(PlanAfter(s, p, chains, replay).1).Some? <==> p.refusal.None? && Commits(s, p, chains)
    decreases |chains|
  {
    PassedVerifies(p);
    if chains != [] {
      CommitsLater(s, p, chains);
      VerifiedExactly(s, p, chains[1..], replay);
      RefusalConsumesNothing(s, replay.gateAttemptId, replay.records, replay.chains);
    }
  }

  /** What is verified is the plan, field by field, and the consumption it leaves is the plan's. */
  lemma {:induction false} VerifiedGateIsThePlan(s: StoreState, p: Plan, chains: seq<seq<StreamEvent>>, replay: Replay)
    requires VerifiedBy(PlanAfter(s, p, chains, replay).1).Some?
    ensures var gate := VerifiedBy(PlanAfter(s, p, chains, replay).1).value;
      && gate.gateAttemptId == p.gateAttemptId && gate.mutationAttemptId == p.mutationAttemptId
      && gate.actionContractId == p.actionContractId && gate.greenlightId == p.greenlightId
      && gate.gatewayId == p.gatewayId && gate.actionClass == p.actionClass
      && gate.resourceRef == p.resourceRef && gate.idempotencyKey == p.idempotencyKey
      && gate.surfaceOperationRef == (if p.providedRef == [] then p.createdRef else p.providedRef)
    ensures p.greenlightId in PlanAfter(s, p, chains, replay).0.consumptions
    ensures var c := PlanAfter(s, p, chains, replay).0.consumptions[p.greenlightId];
      && c.greenlightId == p.greenlightId && c.gateAttemptId == p.gateAttemptId
      && c.actionContractId == p.actionContractId && c.idempotencyKey == p.idempotencyKey
    decreases |chains|
  {
    if chains != [] {
      RefusalConsumesNothing(s, replay.gateAttemptId, replay.records, replay.chains);
      if ResultOf(s, PlannedCommit(p, chains[0])) == StreamConflict {
        VerifiedGateIsThePlan(s, p, chains[1..], replay);
      }
    }
  }

  /** And everything else of the plan is committed with it: claims, ledger, receipts, records, and
      the events of the chain it was committed on. */
  lemma {:induction false} VerifiedPlanIsCommitted(s: StoreState, p: Plan, chains: seq<seq<StreamEvent>>,
                                                   replay: Replay, k: nat)
    requires CommitsOn(s, p, chains, k) && p.refusal.None?
    ensures PlanAfter(s, p, chains, replay).0
         == AfterCommit(s, Commit(Some(PlannedConsumption(p)), p.claims, p.ledger, p.receipts, p.records, chains[k]))
    decreases k
  {
    if k > 0 {
      assert chains[1..][k - 1] == chains[k];
      assert forall i :: 0 <= i < k - 1 ==> chains[1..][i] == chains[i + 1];
      VerifiedPlanIsCommitted(s, p, chains[1..], replay, k - 1);
    }
  }

  /** A planned refusal is committed without consumption, claim or ledger entry. */
  lemma {:induction false} RefusedPlanIsCommitted(s: StoreState, p: Plan, chains: seq<seq<StreamEvent>>,
                                                  replay: Replay, k: nat)
    requires CommitsOn(s, p, chains, k) && p.refusal.Some?
    ensures PlanAfter(s, p, chains, replay).0
         == AfterCommit(s, Commit(None, [], [], p.receipts, p.records, chains[k]))
    ensures PlanAfter(s, p, chains, replay).1 == CheckReply(GatewayCheckResult(p.gateAttemptId, GateRefused, None))
    decreases k
  {
    if k > 0 {
      assert chains[1..][k - 1] == chains[k];
      assert forall i :: 0 <= i < k - 1 ==> chains[1..][i] == chains[i + 1];
      RefusedPlanIsCommitted(s, p, chains[1..], replay, k - 1);
    }
  }

  /** A check on a consumed greenlight is refused, or throws; it never verifies. */
  lemma ConsumedIsNeverVerified(before: Consumptions, greenlightId: JsString, after: Consumptions, reply: Reply)
    requires OneUse(before, greenlightId, after, reply)
    requires greenlightId in before
    ensures VerifiedBy(reply).None? && after == before
  {
  }
}
