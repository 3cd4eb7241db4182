/** The host bypass proof packet written out: which code stands for what, and which posture comes
    first (src/adapters/protected-path-probes/host-fixture.ts). */
module HostGrounds {
  import opened JsText
  import opened HostPacket

  predicate Lacks(o: Option<JsString>) {
    o == None || o == Some([])
  }

  predicate WrapperGone(i: Input) {
    Lacks(i.observedResolvedWrapperPath) || Lacks(i.observedWrapperDigest)
  }

  predicate WrapperMoved(i: Input) {
    && !WrapperGone(i)
    && (i.observedResolvedWrapperPath != Some(i.resolvedWrapperPath) || i.observedWrapperDigest != Some(i.wrapperDigest))
  }

  predicate ToolChanged(i: Input) {
    !Lacks(i.observedHostToolDigest) && i.observedHostToolDigest != Some(i.hostToolDigest)
  }

  predicate OutOfDate(i: Input) {
    ToolChanged(i) || (!Lacks(i.observedHostToolDigest) && i.observedAt > i.expiresAt)
  }

  predicate NotSeen(i: Input) {
    !(i.gatewayCheckObserved && i.oneUseGreenlightObserved && i.downstreamRecordedSeparately)
  }

  predicate Mutates(r: SiblingResult) {
    r.kind == MutationPossible || r.kind == StopCondition
  }

  predicate SomeMutates(i: Input) {
    exists k :: 0 <= k < |i.rawSiblingResults| && Mutates(i.rawSiblingResults[k])
  }

  predicate SomeLeavesGap(i: Input) {
    exists k :: 0 <= k < |i.rawSiblingResults| && i.rawSiblingResults[k].kind == ProofGapResult
  }

  predicate SomeReports(i: Input) {
    exists k :: 0 <= k < |i.rawSiblingResults| && i.rawSiblingResults[k].proofGapReasonCodes != []
  }

  predicate SomeReportsCode(i: Input, code: JsString) {
    exists k :: 0 <= k < |i.rawSiblingResults| && code in i.rawSiblingResults[k].proofGapReasonCodes
  }

  // --------------------------------------------------------- the reason codes

  predicate WrapperGround(i: Input, code: JsString) {
    || (code == Js("host_wrapper_missing") && WrapperGone(i))
    || (code == Js("host_wrapper_drifted") && WrapperMoved(i))
    || (code == Js("host_fixture_manifest_stale") && OutOfDate(i))
    || (code == Js("host_bypass_proof_gap") && Lacks(i.observedHostToolDigest))
    || (code == Js("host_tool_digest_changed") && ToolChanged(i))
  }

  predicate BindingGround(i: Input, code: JsString) {
    || (code == Js("host_gateway_unbound") && i.binding == Unbound)
    || (code == Js("host_probe_advisory_only") && (i.binding == AdvisoryOnlyBinding || NotSeen(i)))
    || (code == Js("host_bypass_proof_gap") && i.binding == ProofGapBinding)
  }

  predicate ResultGround(i: Input, code: JsString) {
    || (code == Js("host_raw_sibling_mutation_possible") && SomeMutates(i))
    || (code == Js("host_bypass_proof_gap") && (SomeLeavesGap(i) || SomeReports(i)))
    || SomeReportsCode(i, code)
  }

  lemma WrapperCodesAre(i: Input, code: JsString)
    ensures code in WrapperCodes(i) <==> WrapperGround(i, code)
  {
  }

  lemma BindingCodesAre(i: Input, code: JsString)
    ensures code in BindingCodes(i) <==> BindingGround(i, code)
  {
  }

  predicate SomeLists(rs: seq<SiblingResult>, code: JsString) {
    exists k :: 0 <= k < |rs| && code in ResultCodes(rs[k])
  }

  lemma SomeListsMore(init: seq<SiblingResult>, last: SiblingResult, code: JsString)
    ensures SomeLists(init + [last], code) <==> SomeLists(init, code) || code in ResultCodes(last)
  {
    var rs := init + [last];
    if SomeLists(init, code) {
      var k :| 0 <= k < |init| && code in ResultCodes(init[k]);
      assert rs[k] == init[k];
    }
    assert rs[|init|] == last;
  }

  lemma {:induction false} SomeResultCodes(rs: seq<SiblingResult>, code: JsString)
    ensures code in AllResultCodes(rs) <==> SomeLists(rs, code)
  {
    if rs != [] {
      var init, last := rs[..|rs| - 1], rs[|rs| - 1];
      SomeResultCodes(init, code);
      SomeListsMore(init, last, code);
      InEither(AllResultCodes(init), ResultCodes(last), code);
      assert rs == init + [last];
    }
  }

  lemma InEither(a: seq<JsString>, b: seq<JsString>, code: JsString)
    ensures code in a + b <==> code in a || code in b
  {
  }

  predicate OneResultGround(r: SiblingResult, code: JsString) {
    || (code == Js("host_raw_sibling_mutation_possible") && Mutates(r))
    || (code == Js("host_bypass_proof_gap") && (r.kind == ProofGapResult || r.proofGapReasonCodes != []))
    || code in r.proofGapReasonCodes
  }

  lemma OneResultCodes(r: SiblingResult, code: JsString)
    ensures code in ResultCodes(r) <==> OneResultGround(r, code)
  {
    if r.proofGapReasonCodes == [] {
      assert [BYPASS_PROOF_GAP] + r.proofGapReasonCodes == [BYPASS_PROOF_GAP];
    }
  }

  lemma ResultCodesAre(i: Input, code: JsString)
    ensures code in AllResultCodes(i.rawSiblingResults) <==> ResultGround(i, code)
  {
    var rs := i.rawSiblingResults;
    SomeResultCodes(rs, code);
    forall k | 0 <= k < |rs| ensures code in ResultCodes(rs[k]) <==> OneResultGround(rs[k], code) {
      OneResultCodes(rs[k], code);
    }
  }

  /** A packet lists the caller's codes and exactly the codes whose ground holds, ascending. */
  lemma ListedExactly(i: Input, code: JsString)
    ensures code in SortedUnique(ReasonCodes(i)) <==>
      code in i.proofGapReasonCodes || WrapperGround(i, code) || BindingGround(i, code) || ResultGround(i, code)
    ensures Ascending(SortedUnique(ReasonCodes(i)))
  {
    SortedUniqueAscends(ReasonCodes(i));
    WrapperCodesAre(i, code);
    BindingCodesAre(i, code);
    ResultCodesAre(i, code);
  }

  // -------------------------------------------------------------- the posture

  /** The wrapper is in place, the tool is the expected one, and the manifest is in date. */
  predicate InPlace(i: Input) {
    !WrapperGone(i) && !WrapperMoved(i) && !OutOfDate(i)
  }

  /** And the gateway is bound, and nothing can be changed beside it. */
  predicate Closed(i: Input) {
    InPlace(i) && i.binding != Unbound && !SomeMutates(i)
  }

  predicate Unproven(i: Input) {
    i.binding == ProofGapBinding || Lacks(i.observedHostToolDigest) || SomeLeavesGap(i)
  }

  predicate OnlyAdvises(i: Input) {
    i.binding == AdvisoryOnlyBinding || NotSeen(i)
  }

  lemma PredicatesAgree(i: Input)
    ensures SomeCanMutate(i) <==> SomeMutates(i)
    ensures SomeProofGap(i) <==> SomeLeavesGap(i)
  {
    forall k | 0 <= k < |i.rawSiblingResults|
      ensures CanMutate(i.rawSiblingResults[k]) <==> Mutates(i.rawSiblingResults[k])
    {
    }
  }

  /** The posture is the first of these that applies: a wrapper that is missing or drifted, a
      changed tool, a stale probe, an unbound gateway, a possible mutation. */
  lemma FirstPostures(i: Input)
    ensures var p := PostureState(i, ReasonCodes(i));
      && (p == WrapperMissing <==> WrapperGone(i))
      && (p == WrapperDrifted <==> WrapperMoved(i))
      && (p == HostToolDigestChanged <==> !WrapperGone(i) && !WrapperMoved(i) && ToolChanged(i))
      && (p == StaleProbe <==> !WrapperGone(i) && !WrapperMoved(i) && !ToolChanged(i) && OutOfDate(i))
      && (p == GatewayUnbound <==> InPlace(i) && i.binding == Unbound)
      && (p == RawSiblingMutationPossible <==> InPlace(i) && i.binding != Unbound && SomeMutates(i))
  {
    PredicatesAgree(i);
  }

  /** Then what is unproven, what only advises, and codes that were only reported; otherwise the
      host is ready. */
  lemma LastPostures(i: Input)
    ensures var p := PostureState(i, ReasonCodes(i));
      && (p == AdvisoryOnly <==> Closed(i) && !Unproven(i) && OnlyAdvises(i))
      && (p == ProofGap <==>
            Closed(i) && (Unproven(i) || (!OnlyAdvises(i) && (i.proofGapReasonCodes != [] || SomeReports(i)))))
      && (p == Ready <==>
            Closed(i) && !Unproven(i) && !OnlyAdvises(i) && i.proofGapReasonCodes == [] && !SomeReports(i))
  {
    PredicatesAgree(i);
    ReadyMeansObserved(i);
    forall k | 0 <= k < |i.rawSiblingResults|
      ensures CanMutate(i.rawSiblingResults[k]) <==> Mutates(i.rawSiblingResults[k])
    {
    }
  }
}
