/** The activation gate report: blocking gates, and the verdict (src/surfaces/activation-gate.ts). */
module ActivationGate {
  import opened JsText
  import opened StableSort

  datatype Status = Passed | Failed | Blocked | NotRun | StatusProofGap | Cut

  datatype Priority = P0 | P1 | P2

  datatype Policy = BlockUntilResolved | AllowNarrowedPass

  datatype Verdict = VerdictPass | VerdictPassWithProofGaps | VerdictBlocked | VerdictCut

  datatype Gap = Gap(reasonCode: JsString, blocksNextStage: bool)

  datatype Gate = Gate(
    gateId: JsString, priority: Priority, status: Status, requiredForNextStage: bool,
    positiveProofEvidenceRefs: seq<JsString>, forbiddenAuthorityEvidenceRefs: seq<JsString>,
    commandRefs: seq<JsString>, proofGaps: seq<Gap>)

  datatype Criterion = Criterion(
    criterionId: JsString, requiredForTenStar: bool, satisfied: bool, evidenceRefs: seq<JsString>,
    commandRefs: seq<JsString>)

  datatype AntiPattern = AntiPattern(antiPatternId: JsString, present: bool)

  datatype Input = Input(
    policy: Policy, gates: seq<Gate>, criteria: seq<Criterion>, antiPatterns: seq<AntiPattern>)

  datatype Report = Report(
    verdict: Verdict, blockingGateIds: seq<JsString>, cutGateIds: seq<JsString>,
    carriedProofGaps: seq<Gap>, unsatisfiedCriterionIds: seq<JsString>, triggeredAntiPatternIds: seq<JsString>)

  // ------------------------------------------------------------ single items

  predicate Required(g: Gate) {
    g.requiredForNextStage || !g.priority.P2?
  }

  predicate HasRequiredEvidence(g: Gate) {
    |g.positiveProofEvidenceRefs| > 0 && |g.forbiddenAuthorityEvidenceRefs| > 0 && |g.commandRefs| > 0
  }

  predicate HasBlockingGap(g: Gate) {
    exists i :: 0 <= i < |g.proofGaps| && g.proofGaps[i].blocksNextStage
  }

  predicate CarriesGap(g: Gate) {
    exists i :: 0 <= i < |g.proofGaps| && !g.proofGaps[i].blocksNextStage
  }

  predicate Blocks(policy: Policy, g: Gate) {
    || g.status.Failed? || g.status.Blocked? || g.status.NotRun?
    || (g.status.Passed? && !HasRequiredEvidence(g))
    || HasBlockingGap(g)
    || (policy.BlockUntilResolved? && |g.proofGaps| > 0)
  }

  predicate Unsatisfied(c: Criterion) {
    c.requiredForTenStar && (!c.satisfied || |c.evidenceRefs| == 0 || |c.commandRefs| == 0)
  }

  // ------------------------------------------------------------- whole lists

  /** `.filter(p)`. */
  function Filter<T(!new)>(p: T -> bool, s: seq<T>): (r: seq<T>)
    ensures forall x :: x in r <==> x in s && p(x)
  {
    if s == [] then []
    else
      assert s == s[..|s| - 1] + [s[|s| - 1]];
      Filter(p, s[..|s| - 1]) + (if p(s[|s| - 1]) then [s[|s| - 1]] else [])
  }

  /** `.map(id)`. */
  function Map<T>(id: T -> JsString, s: seq<T>): (r: seq<JsString>)
    ensures |r| == |s| && forall i :: 0 <= i < |s| ==> r[i] == id(s[i])
  {
    seq(|s|, i requires 0 <= i < |s| => id(s[i]))
  }

  function RequiredGates(input: Input): seq<Gate> {
    Filter(Required, input.gates)
  }

  function GapCode(gap: Gap): JsString { gap.reasonCode }

  predicate IsCarried(gap: Gap) { !gap.blocksNextStage }

  function GateId(g: Gate): JsString { g.gateId }

  function CriterionId(c: Criterion): JsString { c.criterionId }

  function AntiPatternId(a: AntiPattern): JsString { a.antiPatternId }

  predicate IsCut(g: Gate) { g.status.Cut? }

  predicate IsPresent(a: AntiPattern) { a.present }

  function BlockingPredicate(policy: Policy): Gate -> bool {
    g => Blocks(policy, g)
  }

  /** The ids of the required gates that block: a set, sorted. */
  function BlockingIds(input: Input): seq<JsString> {
    SortedUnique(AddedIds(input.policy, RequiredGates(input)))
  }

  function CutIds(input: Input): seq<JsString> {
    Sort(Map(GateId, Filter(IsCut, RequiredGates(input))))
  }

  function UnsatisfiedIds(input: Input): seq<JsString> {
    Sort(Map(CriterionId, Filter(Unsatisfied, input.criteria)))
  }

  function TriggeredIds(input: Input): seq<JsString> {
    Sort(Map(AntiPatternId, Filter(IsPresent, input.antiPatterns)))
  }

  /** `gates.flatMap((gate) => gate.proofGaps)`. */
  function AllGaps(gates: seq<Gate>): seq<Gap> {
    if gates == [] then [] else gates[0].proofGaps + AllGaps(gates[1..])
  }

  /** The gaps that are carried to the next stage, of all gates, required or not. */
  function Carried(input: Input): seq<Gap> {
    Filter(IsCarried, AllGaps(input.gates))
  }

  predicate SomeCarried(input: Input) {
    exists i :: 0 <= i < |input.gates| && CarriesGap(input.gates[i])
  }

  predicate AllCut(gates: seq<Gate>) {
    forall i :: 0 <= i < |gates| ==> gates[i].status.Cut?
  }

  /** `verdictFor`, from what it looks at. */
  function Decide(policy: Policy, unmet: bool, blocking: bool, allCut: bool, partial: bool): Verdict {
    if unmet then VerdictBlocked
    else if blocking then VerdictBlocked
    else if allCut then VerdictCut
    else if partial then (if policy.AllowNarrowedPass? then VerdictPassWithProofGaps else VerdictBlocked)
    else VerdictPass
  }

  function VerdictFor(input: Input): Verdict {
    Decide(input.policy,
           |UnsatisfiedIds(input)| > 0 || |TriggeredIds(input)| > 0,
           |BlockingIds(input)| > 0,
           AllCut(RequiredGates(input)),
           |Carried(input)| > 0 || |CutIds(input)| > 0)
  }

  function ReportOf(le: Collation, input: Input): Report {
    Report(VerdictFor(input), BlockingIds(input), CutIds(input), SortBy(le, GapCode, Carried(input)),
           UnsatisfiedIds(input), TriggeredIds(input))
  }

  // ------------------------------------------------------------ blockingGates

  method SomeGap(g: Gate) returns (blocking: bool)
    ensures blocking <==> HasBlockingGap(g)
  {
    for i := 0 to |g.proofGaps|
      invariant forall j :: 0 <= j < i ==> !g.proofGaps[j].blocksNextStage
    {
      if g.proofGaps[i].blocksNextStage {
        return true;
      }
    }
    return false;
  }

  method IsBlocking(policy: Policy, g: Gate) returns (blocks: bool)
    ensures blocks <==> Blocks(policy, g)
  {
    blocks := g.status.Failed? || g.status.Blocked? || g.status.NotRun?;
    if g.status.Passed? && !HasRequiredEvidence(g) {
      blocks := true;
    }
    var blockingGap := SomeGap(g);
    if blockingGap {
      blocks := true;
    }
    if policy.BlockUntilResolved? && |g.proofGaps| > 0 {
      blocks := true;
    }
  }

  lemma FilterStep<T(!new)>(p: T -> bool, s: seq<T>, i: nat)
    requires i < |s|
    ensures Filter(p, s[..i + 1]) == Filter(p, s[..i]) + (if p(s[i]) then [s[i]] else [])
  {
    assert s[..i + 1][..i] == s[..i];
  }

  /** One turn of the loop. */
  method AddIfBlocking(policy: Policy, g: Gate, blocked: seq<JsString>, ghost added: seq<JsString>)
    returns (r: seq<JsString>)
    requires blocked == Unique(added)
    ensures r == Unique(added + (if Blocks(policy, g) then [g.gateId] else []))
  {
    var blocking := IsBlocking(policy, g);
    if blocking {
      r := AddTo(blocked, g.gateId, added);
    } else {
      assert added + [] == added;
      r := blocked;
    }
  }

  /** The ids added to the set for a list of gates, in order. */
  function AddedIds(policy: Policy, gates: seq<Gate>): seq<JsString> {
    Map(GateId, Filter(BlockingPredicate(policy), gates))
  }

  lemma AddedStep(policy: Policy, gates: seq<Gate>, i: nat)
    requires i < |gates|
    ensures AddedIds(policy, gates[..i + 1])
         == AddedIds(policy, gates[..i]) + (if Blocks(policy, gates[i]) then [gates[i].gateId] else [])
  {
    FilterStep(BlockingPredicate(policy), gates, i);
  }

  /** `blockingGates`: the loop that fills the set, over the required gates. */
  method BlockingGates(policy: Policy, gates: seq<Gate>) returns (ids: seq<JsString>)
    ensures ids == SortedUnique(AddedIds(policy, gates))
  {
    var blocked: seq<JsString> := [];
    for i := 0 to |gates|
      invariant blocked == Unique(AddedIds(policy, gates[..i]))
    {
      AddedStep(policy, gates, i);
      blocked := AddIfBlocking(policy, gates[i], blocked, AddedIds(policy, gates[..i]));
    }
    assert gates[..|gates|] == gates;
    ids := Sort(blocked);
  }

  /** `projectActivationGateReport`, without the fields it copies. */
  method ProjectReport(le: Collation, input: Input) returns (report: Report)
    ensures report == ReportOf(le, input)
    ensures multiset(report.carriedProofGaps) == multiset(Carried(input))
    ensures Unblocked(report.verdict) ==>
      report.blockingGateIds == [] && report.unsatisfiedCriterionIds == [] && report.triggeredAntiPatternIds == []
  {
    var blocking := BlockingGates(input.policy, RequiredGates(input));
    report := Report(VerdictFor(input), blocking, CutIds(input), SortBy(le, GapCode, Carried(input)),
                     UnsatisfiedIds(input), TriggeredIds(input));
  }

  // ------------------------------------------------- what the verdict means

  lemma NoneLeft<T(!new)>(p: T -> bool, s: seq<T>)
    ensures Filter(p, s) == [] <==> forall i :: 0 <= i < |s| ==> !p(s[i])
  {
    if Filter(p, s) == [] {
      forall i | 0 <= i < |s| ensures !p(s[i]) {
        assert s[i] in s;
      }
    } else {
      assert Filter(p, s)[0] in Filter(p, s);
    }
  }

  predicate CriteriaMet(input: Input) {
    && (forall i :: 0 <= i < |input.criteria| ==> !Unsatisfied(input.criteria[i]))
    && (forall i :: 0 <= i < |input.antiPatterns| ==> !input.antiPatterns[i].present)
  }

  lemma NoIdsMeansMet(input: Input)
    ensures |UnsatisfiedIds(input)| == 0 && |TriggeredIds(input)| == 0 <==> CriteriaMet(input)
  {
    NoneLeft(Unsatisfied, input.criteria);
    NoneLeft(IsPresent, input.antiPatterns);
    assert CriteriaMet(input) <==>
      (forall i :: 0 <= i < |input.criteria| ==> !Unsatisfied(input.criteria[i]))
      && (forall i :: 0 <= i < |input.antiPatterns| ==> !IsPresent(input.antiPatterns[i]));
  }

  predicate NoneBlocks(input: Input) {
    forall i :: 0 <= i < |input.gates| && Required(input.gates[i]) ==> !Blocks(input.policy, input.gates[i])
  }

  lemma NoBlockingIds(input: Input)
    ensures |BlockingIds(input)| == 0 <==> NoneBlocks(input)
  {
    var gates := RequiredGates(input);
    var blocks := BlockingPredicate(input.policy);
    NoneLeft(blocks, gates);
    if NoneBlocks(input) {
      forall i | 0 <= i < |gates| ensures !blocks(gates[i]) {
        assert gates[i] in gates;
        assert gates[i] in input.gates;
      }
    } else {
      var i :| 0 <= i < |input.gates| && Required(input.gates[i]) && Blocks(input.policy, input.gates[i]);
      assert input.gates[i] in input.gates;
      assert input.gates[i] in gates;
      var j :| 0 <= j < |gates| && gates[j] == input.gates[i];
      assert blocks(gates[j]);
    }
  }

  /** Some required gate is still in scope. */
  predicate SomeUncut(input: Input) {
    exists i :: 0 <= i < |input.gates| && Required(input.gates[i]) && !input.gates[i].status.Cut?
  }

  predicate SomeCut(input: Input) {
    exists i :: 0 <= i < |input.gates| && Required(input.gates[i]) && input.gates[i].status.Cut?
  }

  lemma RequiredAre(input: Input, g: Gate)
    ensures g in RequiredGates(input) <==> g in input.gates && Required(g)
  {
  }

  lemma UncutMeans(input: Input)
    ensures AllCut(RequiredGates(input)) <==> !SomeUncut(input)
  {
    var gates := RequiredGates(input);
    if SomeUncut(input) {
      var i :| 0 <= i < |input.gates| && Required(input.gates[i]) && !input.gates[i].status.Cut?;
      RequiredAre(input, input.gates[i]);
      var j :| 0 <= j < |gates| && gates[j] == input.gates[i];
      assert !gates[j].status.Cut?;
    }
    if !AllCut(gates) {
      var j :| 0 <= j < |gates| && !gates[j].status.Cut?;
      RequiredAre(input, gates[j]);
      var i :| 0 <= i < |input.gates| && input.gates[i] == gates[j];
      assert Required(input.gates[i]);
    }
  }

  lemma CutMeans(input: Input)
    ensures |CutIds(input)| > 0 <==> SomeCut(input)
  {
    var gates := RequiredGates(input);
    NoneLeft(IsCut, gates);
    if SomeCut(input) {
      var i :| 0 <= i < |input.gates| && Required(input.gates[i]) && input.gates[i].status.Cut?;
      RequiredAre(input, input.gates[i]);
      var j :| 0 <= j < |gates| && gates[j] == input.gates[i];
      assert IsCut(gates[j]);
    }
    if Filter(IsCut, gates) != [] {
      var j :| 0 <= j < |gates| && IsCut(gates[j]);
      RequiredAre(input, gates[j]);
      var i :| 0 <= i < |input.gates| && input.gates[i] == gates[j];
      assert Required(input.gates[i]) && input.gates[i].status.Cut?;
    }
  }

  lemma {:induction false} GapOfSome(gates: seq<Gate>, gap: Gap)
    ensures gap in AllGaps(gates) <==> exists i :: 0 <= i < |gates| && gap in gates[i].proofGaps
  {
    if gates != [] {
      GapOfSome(gates[1..], gap);
      assert forall i :: 0 < i < |gates| ==> gates[i] == gates[1..][i - 1];
      if gap in AllGaps(gates[1..]) {
        var i :| 0 <= i < |gates[1..]| && gap in gates[1..][i].proofGaps;
        assert gap in gates[i + 1].proofGaps;
      }
    }
  }

  lemma CarriedMeans(input: Input)
    ensures |Carried(input)| > 0 <==> SomeCarried(input)
  {
    NoneLeft(IsCarried, AllGaps(input.gates));
    if SomeCarried(input) {
      var i :| 0 <= i < |input.gates| && CarriesGap(input.gates[i]);
      var j :| 0 <= j < |input.gates[i].proofGaps| && !input.gates[i].proofGaps[j].blocksNextStage;
      GapOfSome(input.gates, input.gates[i].proofGaps[j]);
    }
    if Carried(input) != [] {
      var gap := Carried(input)[0];
      assert gap in Carried(input);
      GapOfSome(input.gates, gap);
      var i :| 0 <= i < |input.gates| && gap in input.gates[i].proofGaps;
      assert CarriesGap(input.gates[i]);
    }
  }

  /** The report carries exactly the gaps, of any gate, that do not block, in collation order. */
  lemma CarriedExactly(le: Collation, input: Input, gap: Gap)
    requires IsCollation(le)
    ensures gap in ReportOf(le, input).carriedProofGaps <==>
      !gap.blocksNextStage && exists i :: 0 <= i < |input.gates| && gap in input.gates[i].proofGaps
    ensures InOrder(le, GapCode, ReportOf(le, input).carriedProofGaps)
  {
    GapOfSome(input.gates, gap);
    SortIsInOrder(le, GapCode, Carried(input));
    var sorted := SortBy(le, GapCode, Carried(input));
    assert gap in sorted <==> gap in multiset(sorted);
    assert gap in Carried(input) <==> gap in multiset(Carried(input));
  }

  predicate Unblocked(v: Verdict) {
    v.VerdictPass? || v.VerdictPassWithProofGaps?
  }

  /** The verdict in terms of the evidence alone. */
  lemma VerdictIs(input: Input)
    ensures VerdictFor(input)
         == Decide(input.policy, !CriteriaMet(input), !NoneBlocks(input), !SomeUncut(input),
                   SomeCarried(input) || SomeCut(input))
  {
    NoIdsMeansMet(input);
    NoBlockingIds(input);
    UncutMeans(input);
    CutMeans(input);
    CarriedMeans(input);
  }

  /** The next stage is unblocked exactly when all criteria are met, no required gate blocks, some
      required gate is in scope, and, unless a narrowed pass is allowed, nothing is cut or carried. */
  lemma UnblockedExactly(input: Input)
    ensures Unblocked(VerdictFor(input)) <==>
      && CriteriaMet(input) && NoneBlocks(input) && SomeUncut(input)
      && (input.policy.AllowNarrowedPass? || (!SomeCarried(input) && !SomeCut(input)))
  {
    VerdictIs(input);
  }

  function Extend(input: Input, gates: seq<Gate>, criteria: seq<Criterion>, antiPatterns: seq<AntiPattern>): Input {
    Input(input.policy, input.gates + gates, input.criteria + criteria, input.antiPatterns + antiPatterns)
  }

  lemma ExtendKeeps(input: Input, gates: seq<Gate>, criteria: seq<Criterion>, antiPatterns: seq<AntiPattern>)
    ensures var more := Extend(input, gates, criteria, antiPatterns);
      && (CriteriaMet(more) ==> CriteriaMet(input)) && (NoneBlocks(more) ==> NoneBlocks(input))
  {
    var more := Extend(input, gates, criteria, antiPatterns);
    assert forall i :: 0 <= i < |input.gates| ==> more.gates[i] == input.gates[i];
    assert forall i :: 0 <= i < |input.criteria| ==> more.criteria[i] == input.criteria[i];
    assert forall i :: 0 <= i < |input.antiPatterns| ==> more.antiPatterns[i] == input.antiPatterns[i];
  }

  lemma ExtendKeepsGates(input: Input, gates: seq<Gate>, criteria: seq<Criterion>, antiPatterns: seq<AntiPattern>)
    ensures var more := Extend(input, gates, criteria, antiPatterns);
      && (SomeUncut(input) ==> SomeUncut(more)) && (SomeCut(input) ==> SomeCut(more))
      && (SomeCarried(input) ==> SomeCarried(more))
  {
    var more := Extend(input, gates, criteria, antiPatterns);
    forall i | 0 <= i < |input.gates| ensures more.gates[i] == input.gates[i] {
    }
    if SomeUncut(input) {
      var i :| 0 <= i < |input.gates| && Required(input.gates[i]) && !input.gates[i].status.Cut?;
      assert more.gates[i] == input.gates[i];
    }
    if SomeCut(input) {
      var i :| 0 <= i < |input.gates| && Required(input.gates[i]) && input.gates[i].status.Cut?;
      assert more.gates[i] == input.gates[i];
    }
    if SomeCarried(input) {
      var i :| 0 <= i < |input.gates| && CarriesGap(input.gates[i]);
      assert more.gates[i] == input.gates[i];
    }
  }

  /** Adding gates, criteria or anti-patterns never lifts a block. */
  lemma BlockedStaysBlocked(input: Input, gates: seq<Gate>, criteria: seq<Criterion>, antiPatterns: seq<AntiPattern>)
    requires VerdictFor(input).VerdictBlocked?
    ensures VerdictFor(Extend(input, gates, criteria, antiPatterns)).VerdictBlocked?
  {
    VerdictIs(input);
    VerdictIs(Extend(input, gates, criteria, antiPatterns));
    ExtendKeeps(input, gates, criteria, antiPatterns);
    ExtendKeepsGates(input, gates, criteria, antiPatterns);
  }

  // ------------------------------------------------------- order of the gates

  lemma {:induction false} FilterPermutes<T(!new)>(p: T -> bool, s: seq<T>)
    ensures forall x :: multiset(Filter(p, s))[x] == if p(x) then multiset(s)[x] else 0
  {
    if s != [] {
      var init, last := s[..|s| - 1], s[|s| - 1];
      assert s == init + [last];
      FilterPermutes(p, init);
    }
  }

  /** A filter keeps as many of each element, whatever their order. */
  lemma FilterOfPermutation<T(!new)>(p: T -> bool, s: seq<T>, t: seq<T>)
    requires multiset(s) == multiset(t)
    ensures multiset(Filter(p, s)) == multiset(Filter(p, t))
  {
    FilterPermutes(p, s);
    FilterPermutes(p, t);
    forall x ensures multiset(Filter(p, s))[x] == multiset(Filter(p, t))[x] {
    }
  }

  /** A list without the element at one position. */
  function TakeOut<T>(s: seq<T>, i: nat): seq<T>
    requires i < |s|
  {
    s[..i] + s[i + 1..]
  }

  lemma TakenOut<T>(s: seq<T>, i: nat)
    requires i < |s|
    ensures multiset(s) == multiset(TakeOut(s, i)) + multiset{s[i]}
  {
    assert s == s[..i] + [s[i]] + s[i + 1..];
  }

  lemma MapTakenOut<T>(id: T -> JsString, s: seq<T>, i: nat)
    requires i < |s|
    ensures Map(id, TakeOut(s, i)) == TakeOut(Map(id, s), i)
    ensures multiset(Map(id, s)) == multiset(Map(id, TakeOut(s, i))) + multiset{id(s[i])}
  {
    TakenOut(Map(id, s), i);
  }

  lemma {:induction false} MapOfPermutation<T>(id: T -> JsString, s: seq<T>, t: seq<T>)
    requires multiset(s) == multiset(t)
    ensures multiset(Map(id, s)) == multiset(Map(id, t))
  {
    assert |s| == |multiset(s)| && |t| == |multiset(t)|;
    if s != [] {
      assert s[0] in multiset(t);
      var j :| 0 <= j < |t| && t[j] == s[0];
      TakenOut(s, 0);
      TakenOut(t, j);
      assert multiset(TakeOut(s, 0)) == multiset(s) - multiset{s[0]};
      assert multiset(TakeOut(t, j)) == multiset(t) - multiset{s[0]};
      MapOfPermutation(id, TakeOut(s, 0), TakeOut(t, j));
      MapTakenOut(id, s, 0);
      MapTakenOut(id, t, j);
    }
  }

  lemma SameMultisetSameMembers<T>(s: seq<T>, t: seq<T>)
    requires multiset(s) == multiset(t)
    ensures Elements(s) == Elements(t)
  {
    assert forall x :: x in s <==> x in multiset(s);
    assert forall x :: x in t <==> x in multiset(t);
  }

  predicate Reordered(input: Input, other: Input) {
    input == other.(gates := input.gates) && multiset(input.gates) == multiset(other.gates)
  }

  lemma SameGatesSameFacts(input: Input, other: Input)
    requires Reordered(input, other)
    ensures NoneBlocks(input) ==> NoneBlocks(other)
    ensures SomeUncut(input) ==> SomeUncut(other)
    ensures SomeCut(input) ==> SomeCut(other)
    ensures SomeCarried(input) ==> SomeCarried(other)
  {
    SameMultisetSameMembers(input.gates, other.gates);
    forall i | 0 <= i < |other.gates| ensures other.gates[i] in input.gates {
      assert other.gates[i] in Elements(other.gates);
    }
    forall i | 0 <= i < |input.gates| ensures input.gates[i] in other.gates {
      assert input.gates[i] in Elements(input.gates);
    }
  }

  lemma SameIds(input: Input, other: Input)
    requires Reordered(input, other)
    ensures BlockingIds(input) == BlockingIds(other) && CutIds(input) == CutIds(other)
  {
    FilterOfPermutation(Required, input.gates, other.gates);
    var a, b := RequiredGates(input), RequiredGates(other);
    var blocks := BlockingPredicate(input.policy);
    FilterOfPermutation(blocks, a, b);
    MapOfPermutation(GateId, Filter(blocks, a), Filter(blocks, b));
    SameMultisetSameMembers(Map(GateId, Filter(blocks, a)), Map(GateId, Filter(blocks, b)));
    SortedUniqueDependsOnSet(Map(GateId, Filter(blocks, a)), Map(GateId, Filter(blocks, b)));
    FilterOfPermutation(IsCut, a, b);
    MapOfPermutation(GateId, Filter(IsCut, a), Filter(IsCut, b));
    SortForgetsOrder(Map(GateId, Filter(IsCut, a)), Map(GateId, Filter(IsCut, b)));
  }

  lemma SameVerdict(input: Input, other: Input)
    requires Reordered(input, other)
    ensures VerdictFor(input) == VerdictFor(other)
  {
    assert Reordered(other, input);
    SameGatesSameFacts(input, other);
    SameGatesSameFacts(other, input);
    VerdictIs(input);
    VerdictIs(other);
  }

  lemma GapsOfFirst(gates: seq<Gate>)
    requires gates != []
    ensures multiset(AllGaps(gates)) == multiset(gates[0].proofGaps) + multiset(AllGaps(gates[1..]))
  {
  }

  lemma TakeOutLater(gates: seq<Gate>, i: nat)
    requires 0 < i < |gates|
    ensures TakeOut(gates, i) != [] && TakeOut(gates, i)[0] == gates[0]
    ensures TakeOut(gates, i)[1..] == TakeOut(gates[1..], i - 1)
  {
  }

  lemma {:induction false} GapsTakenOut(gates: seq<Gate>, i: nat)
    requires i < |gates|
    ensures multiset(AllGaps(gates)) == multiset(AllGaps(TakeOut(gates, i))) + multiset(gates[i].proofGaps)
    decreases i
  {
    GapsOfFirst(gates);
    if i == 0 {
      assert TakeOut(gates, 0) == gates[1..];
    } else {
      GapsTakenOut(gates[1..], i - 1);
      TakeOutLater(gates, i);
      GapsOfFirst(TakeOut(gates, i));
    }
  }

  lemma {:induction false} GapsOfPermutation(gates: seq<Gate>, others: seq<Gate>)
    requires multiset(gates) == multiset(others)
    ensures multiset(AllGaps(gates)) == multiset(AllGaps(others))
  {
    assert |gates| == |multiset(gates)| && |others| == |multiset(others)|;
    if gates != [] {
      assert gates[0] in multiset(others);
      var j :| 0 <= j < |others| && others[j] == gates[0];
      TakenOut(gates, 0);
      TakenOut(others, j);
      assert multiset(TakeOut(gates, 0)) == multiset(gates) - multiset{gates[0]};
      assert multiset(TakeOut(others, j)) == multiset(others) - multiset{gates[0]};
      GapsOfPermutation(TakeOut(gates, 0), TakeOut(others, j));
      GapsTakenOut(gates, 0);
      GapsTakenOut(others, j);
    }
  }

  /** The order in which gates are given changes neither the verdict nor any id; the carried gaps
      are the same, though two of one code may change places. */
  lemma OrderDoesNotMatter(le: Collation, input: Input, other: Input)
    requires Reordered(input, other)
    ensures var report, again := ReportOf(le, input), ReportOf(le, other);
      && report == again.(carriedProofGaps := report.carriedProofGaps)
      && multiset(report.carriedProofGaps) == multiset(again.carriedProofGaps)
  {
    SameVerdict(input, other);
    SameIds(input, other);
    GapsOfPermutation(input.gates, other.gates);
    FilterOfPermutation(IsCarried, AllGaps(input.gates), AllGaps(other.gates));
  }

  // -------------------------------------------------- what the verdict misses

  function WithGate(input: Input, g: Gate): Input {
    input.(gates := input.gates + [g])
  }

  lemma WithGateBlocks(input: Input, g: Gate)
    requires Required(g) && NoneBlocks(input)
    ensures NoneBlocks(WithGate(input, g)) <==> !Blocks(input.policy, g)
  {
    var more := WithGate(input, g);
    assert more.gates[|input.gates|] == g;
    assert forall i :: 0 <= i < |input.gates| ==> more.gates[i] == input.gates[i];
  }

  lemma WithGateUncut(input: Input, g: Gate)
    requires Required(g) && !g.status.Cut?
    ensures SomeUncut(WithGate(input, g))
  {
    assert WithGate(input, g).gates[|input.gates|] == g;
  }

  lemma WithGateCut(input: Input, g: Gate)
    requires !g.status.Cut?
    ensures SomeCut(WithGate(input, g)) <==> SomeCut(input)
  {
    var more := WithGate(input, g);
    assert more.gates[|input.gates|] == g;
    assert forall i :: 0 <= i < |input.gates| ==> more.gates[i] == input.gates[i];
  }

  lemma WithGateCarried(input: Input, g: Gate)
    ensures SomeCarried(WithGate(input, g)) <==> SomeCarried(input) || CarriesGap(g)
  {
    var more := WithGate(input, g);
    assert more.gates[|input.gates|] == g;
    assert forall i :: 0 <= i < |input.gates| ==> more.gates[i] == input.gates[i];
  }

  /** What a required gate in status proof_gap adds to an unblocked report. */
  lemma WithProofGapGate(input: Input, g: Gate)
    requires Required(g) && g.status.StatusProofGap? && CriteriaMet(input) && NoneBlocks(input)
    ensures CriteriaMet(WithGate(input, g)) && SomeUncut(WithGate(input, g))
    ensures NoneBlocks(WithGate(input, g))
       <==> !HasBlockingGap(g) && (input.policy.AllowNarrowedPass? || g.proofGaps == [])
    ensures SomeCut(WithGate(input, g)) <==> SomeCut(input)
    ensures SomeCarried(WithGate(input, g)) <==> SomeCarried(input) || CarriesGap(g)
  {
    WithGateBlocks(input, g);
    WithGateUncut(input, g);
    WithGateCut(input, g);
    WithGateCarried(input, g);
  }

  /** Adding a required gate whose status is a proof gap leaves an unblocked report unblocked
      exactly when none of the gaps it lists blocks, and, where gaps must be resolved, it lists
      none: its status itself counts for nothing. */
  lemma ProofGapStatusCountsForNothing(input: Input, g: Gate)
    requires Unblocked(VerdictFor(input)) && Required(g) && g.status.StatusProofGap?
    ensures Unblocked(VerdictFor(WithGate(input, g)))
       <==> !HasBlockingGap(g) && (input.policy.AllowNarrowedPass? || g.proofGaps == [])
  {
    UnblockedExactly(input);
    UnblockedExactly(WithGate(input, g));
    WithProofGapGate(input, g);
  }

  /** When it lists no gap, the verdict is the very same. */
  lemma UnlistedProofGapPasses(input: Input, g: Gate)
    requires Unblocked(VerdictFor(input)) && Required(g) && g.status.StatusProofGap? && g.proofGaps == []
    ensures VerdictFor(WithGate(input, g)) == VerdictFor(input)
  {
    UnblockedExactly(input);
    VerdictIs(input);
    VerdictIs(WithGate(input, g));
    WithProofGapGate(input, g);
  }

  const EVIDENCE: seq<JsString> := [Js("evidence")]

  /** One passed gate, one satisfied criterion, one absent anti-pattern. */
  const PASSING: Input :=
    Input(BlockUntilResolved,
          [Gate(Js("gate"), P0, Passed, true, EVIDENCE, EVIDENCE, EVIDENCE, [])],
          [Criterion(Js("criterion"), true, true, EVIDENCE, EVIDENCE)],
          [AntiPattern(Js("anti-pattern"), false)])

  const UNPROVEN: Gate := Gate(Js("unproven"), P0, StatusProofGap, true, [], [], [], [])

  lemma PassingFacts()
    ensures CriteriaMet(PASSING) && NoneBlocks(PASSING) && SomeUncut(PASSING)
    ensures !SomeCarried(PASSING) && !SomeCut(PASSING)
  {
    assert PASSING.gates[0].status.Passed? && Required(PASSING.gates[0]);
  }

  /** Such a report: a plain pass, under the strict policy, with a required gate whose status is
      a proof gap and which has no evidence at all. */
  lemma UnlistedProofGapHappens()
    ensures VerdictFor(WithGate(PASSING, UNPROVEN)).VerdictPass?
  {
    PassingFacts();
    VerdictIs(PASSING);
    UnlistedProofGapPasses(PASSING, UNPROVEN);
  }
}
