/** The activation gate report written out from the gates, the criteria and the anti-patterns
    (src/surfaces/activation-gate.ts). */
module ActivationGrounds {
  import opened JsText
  import opened ActivationGate
  import StableSort

  // -------------------------------------------------------------- the grounds

  /** A gate counts when it is required, or has the first or the second priority. */
  predicate Counts(g: Gate) {
    g.requiredForNextStage || g.priority == P0 || g.priority == P1
  }

  /** A gate blocks when it did not get far enough, when it passed without evidence of every
      kind, or when a gap of it blocks, under the strict policy any gap. */
  predicate IsBlocking(policy: Policy, g: Gate) {
    || g.status == Failed || g.status == Blocked || g.status == NotRun
    || (g.status == Passed
        && (g.positiveProofEvidenceRefs == [] || g.forbiddenAuthorityEvidenceRefs == [] || g.commandRefs == []))
    || (exists i :: 0 <= i < |g.proofGaps| && g.proofGaps[i].blocksNextStage)
    || (policy == BlockUntilResolved && g.proofGaps != [])
  }

  predicate IsUnsatisfied(c: Criterion) {
    c.requiredForTenStar && (!c.satisfied || c.evidenceRefs == [] || c.commandRefs == [])
  }

  lemma GatePredicatesAgree(policy: Policy, g: Gate)
    ensures Required(g) <==> Counts(g)
    ensures Blocks(policy, g) <==> IsBlocking(policy, g)
  {
  }

  ghost predicate BlockingId(input: Input, id: JsString) {
    exists g :: g in input.gates && Counts(g) && IsBlocking(input.policy, g) && g.gateId == id
  }

  ghost predicate CutId(input: Input, id: JsString) {
    exists g :: g in input.gates && Counts(g) && g.status == Cut && g.gateId == id
  }

  ghost predicate UnsatisfiedId(input: Input, id: JsString) {
    exists c :: c in input.criteria && IsUnsatisfied(c) && c.criterionId == id
  }

  ghost predicate TriggeredId(input: Input, id: JsString) {
    exists a :: a in input.antiPatterns && a.present && a.antiPatternId == id
  }

  lemma MappedFrom<T(!new)>(id: T -> JsString, p: T -> bool, s: seq<T>, x: JsString)
    ensures x in Map(id, Filter(p, s)) <==> exists t :: t in s && p(t) && id(t) == x
  {
    var kept := Filter(p, s);
    if x in Map(id, kept) {
      var i :| 0 <= i < |kept| && Map(id, kept)[i] == x;
      assert kept[i] in kept;
    }
    if exists t :: t in s && p(t) && id(t) == x {
      var t :| t in s && p(t) && id(t) == x;
      assert t in kept;
      var i :| 0 <= i < |kept| && kept[i] == t;
      assert Map(id, kept)[i] == x;
    }
  }

  lemma SortHas(s: seq<JsString>, x: JsString)
    ensures x in Sort(s) <==> x in s
  {
    assert x in Sort(s) <==> x in multiset(Sort(s));
    assert x in s <==> x in multiset(s);
  }

  /** One after another, repeated or ascending. */
  predicate Sorted(s: seq<JsString>) {
    forall i, j :: 0 <= i < j < |s| ==> s[i] == s[j] || Precedes(s[i], s[j])
  }

  lemma SortIsSorted(s: seq<JsString>)
    ensures Sorted(Sort(s))
  {
    forall i, j | 0 <= i < j < |s| ensures Sort(s)[i] == Sort(s)[j] || Precedes(Sort(s)[i], Sort(s)[j]) {
      SortOrders(s, i, j);
    }
  }

  /** The blocking ids are those of the gates that count and block, once each, ascending. */
  lemma BlockingIdsExactly(le: StableSort.Collation, input: Input, id: JsString)
    ensures id in ReportOf(le, input).blockingGateIds <==> BlockingId(input, id)
    ensures Ascending(ReportOf(le, input).blockingGateIds)
  {
    var gates := RequiredGates(input);
    var blocks := BlockingPredicate(input.policy);
    SortedUniqueAscends(AddedIds(input.policy, gates));
    MappedFrom(GateId, blocks, gates, id);
    forall g ensures g in gates && blocks(g) && GateId(g) == id
                <==> g in input.gates && Counts(g) && IsBlocking(input.policy, g) && g.gateId == id {
      GatePredicatesAgree(input.policy, g);
      RequiredAre(input, g);
    }
  }

  /** The cut ids are those of the gates that count and are cut. */
  lemma CutIdsExactly(le: StableSort.Collation, input: Input, id: JsString)
    ensures id in ReportOf(le, input).cutGateIds <==> CutId(input, id)
    ensures Sorted(ReportOf(le, input).cutGateIds)
  {
    var gates := RequiredGates(input);
    SortHas(Map(GateId, Filter(IsCut, gates)), id);
    SortIsSorted(Map(GateId, Filter(IsCut, gates)));
    MappedFrom(GateId, IsCut, gates, id);
    forall g ensures g in gates && IsCut(g) && GateId(g) == id
                <==> g in input.gates && Counts(g) && g.status == Cut && g.gateId == id {
      GatePredicatesAgree(input.policy, g);
      RequiredAre(input, g);
    }
  }

  /** The ids of the criteria that are not satisfied. */
  lemma UnsatisfiedIdsExactly(le: StableSort.Collation, input: Input, id: JsString)
    ensures id in ReportOf(le, input).unsatisfiedCriterionIds <==> UnsatisfiedId(input, id)
    ensures Sorted(ReportOf(le, input).unsatisfiedCriterionIds)
  {
    var ids := Map(CriterionId, Filter(Unsatisfied, input.criteria));
    SortHas(ids, id);
    SortIsSorted(ids);
    MappedFrom(CriterionId, Unsatisfied, input.criteria, id);
    forall c ensures c in input.criteria && Unsatisfied(c) && CriterionId(c) == id
                <==> c in input.criteria && IsUnsatisfied(c) && c.criterionId == id {
    }
  }

  /** And of the anti-patterns that are present. */
  lemma TriggeredIdsExactly(le: StableSort.Collation, input: Input, id: JsString)
    ensures id in ReportOf(le, input).triggeredAntiPatternIds <==> TriggeredId(input, id)
    ensures Sorted(ReportOf(le, input).triggeredAntiPatternIds)
  {
    var ids := Map(AntiPatternId, Filter(IsPresent, input.antiPatterns));
    SortHas(ids, id);
    SortIsSorted(ids);
    MappedFrom(AntiPatternId, IsPresent, input.antiPatterns, id);
    forall a ensures a in input.antiPatterns && IsPresent(a) && AntiPatternId(a) == id
                <==> a in input.antiPatterns && a.present && a.antiPatternId == id {
    }
  }

  // -------------------------------------------------------------- the verdict

  predicate Unmet(input: Input) {
    || (exists i :: 0 <= i < |input.criteria| && IsUnsatisfied(input.criteria[i]))
    || (exists i :: 0 <= i < |input.antiPatterns| && input.antiPatterns[i].present)
  }

  predicate Stopped(input: Input) {
    exists i :: 0 <= i < |input.gates| && Counts(input.gates[i]) && IsBlocking(input.policy, input.gates[i])
  }

  /** Every gate that counts is cut, as when none counts. */
  predicate AllAreCut(input: Input) {
    forall i :: 0 <= i < |input.gates| && Counts(input.gates[i]) ==> input.gates[i].status == Cut
  }

  /** A gate that counts is cut, or any gate leaves a gap that does not block. */
  predicate Narrowed(input: Input) {
    exists i :: 0 <= i < |input.gates| && Narrows(input.gates[i])
  }

  predicate Narrows(g: Gate) {
    || (Counts(g) && g.status == Cut)
    || (exists j :: 0 <= j < |g.proofGaps| && !g.proofGaps[j].blocksNextStage)
  }

  lemma UnmetIs(input: Input)
    ensures CriteriaMet(input) <==> !Unmet(input)
  {
    forall i | 0 <= i < |input.criteria| ensures Unsatisfied(input.criteria[i]) <==> IsUnsatisfied(input.criteria[i]) {
    }
  }

  lemma StoppedIs(input: Input)
    ensures NoneBlocks(input) <==> !Stopped(input)
  {
    forall i | 0 <= i < |input.gates|
      ensures Required(input.gates[i]) <==> Counts(input.gates[i])
      ensures Blocks(input.policy, input.gates[i]) <==> IsBlocking(input.policy, input.gates[i])
    {
      GatePredicatesAgree(input.policy, input.gates[i]);
    }
  }

  lemma CutsAre(input: Input)
    ensures SomeUncut(input) <==> !AllAreCut(input)
    ensures SomeCarried(input) || SomeCut(input) <==> Narrowed(input)
  {
    forall i | 0 <= i < |input.gates|
      ensures Required(input.gates[i]) <==> Counts(input.gates[i])
      ensures CarriesGap(input.gates[i]) || (Required(input.gates[i]) && input.gates[i].status.Cut?)
         <==> Narrows(input.gates[i])
    {
      GatePredicatesAgree(input.policy, input.gates[i]);
    }
  }

  /** The verdict: blocked by what is unmet or blocks, else cut when everything is, else narrowed
      as the policy says, else passed. */
  lemma VerdictIsWritten(le: StableSort.Collation, input: Input)
    ensures var v := ReportOf(le, input).verdict;
      && (v == VerdictCut <==> !Unmet(input) && !Stopped(input) && AllAreCut(input))
      && (v == VerdictPass <==> !Unmet(input) && !Stopped(input) && !AllAreCut(input) && !Narrowed(input))
      && (v == VerdictPassWithProofGaps <==>
            !Unmet(input) && !Stopped(input) && !AllAreCut(input) && Narrowed(input)
            && input.policy == AllowNarrowedPass)
      && (v == VerdictBlocked <==>
            || Unmet(input) || Stopped(input)
            || (!AllAreCut(input) && Narrowed(input) && input.policy == BlockUntilResolved))
  {
    VerdictIs(input);
    UnmetIs(input);
    StoppedIs(input);
    CutsAre(input);
  }
}
