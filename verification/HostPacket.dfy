/** The host bypass proof packet: the derived reason codes and the posture, computed apart from one
    another (src/adapters/protected-path-probes/host-fixture.ts). */
module HostPacket {
  import opened JsText

  datatype ResultKind = Refused | Detected | ProofGapResult | StopCondition | MutationPossible

  datatype SiblingResult = SiblingResult(kind: ResultKind, proofGapReasonCodes: seq<JsString>)

  datatype Binding = Bound | Unbound | AdvisoryOnlyBinding | ProofGapBinding

  datatype Wrapper = Matched | WrapperAbsent | Drifted

  datatype Freshness = Fresh | Stale | UnknownFreshness

  datatype Posture =
    | Ready | AdvisoryOnly | WrapperMissing | WrapperDrifted | GatewayUnbound | RawSiblingMutationPossible
    | StaleProbe | HostToolDigestChanged | ProofGap

  /** The manifest's expectations and what was observed; times as parsed. */
  datatype Input = Input(
    resolvedWrapperPath: JsString, wrapperDigest: JsString, hostToolDigest: JsString, expiresAt: int,
    observedAt: int, observedResolvedWrapperPath: Option<JsString>, observedWrapperDigest: Option<JsString>,
    observedHostToolDigest: Option<JsString>, binding: Binding, oneUseGreenlightObserved: bool,
    gatewayCheckObserved: bool, downstreamRecordedSeparately: bool, rawSiblingResults: seq<SiblingResult>,
    proofGapReasonCodes: seq<JsString>)

  const WRAPPER_MISSING: JsString := Js("host_wrapper_missing")
  const WRAPPER_DRIFTED: JsString := Js("host_wrapper_drifted")
  const MANIFEST_STALE: JsString := Js("host_fixture_manifest_stale")
  const BYPASS_PROOF_GAP: JsString := Js("host_bypass_proof_gap")
  const TOOL_DIGEST_CHANGED: JsString := Js("host_tool_digest_changed")
  const GATEWAY_UNBOUND: JsString := Js("host_gateway_unbound")
  const ADVISORY_ONLY: JsString := Js("host_probe_advisory_only")
  const MUTATION_POSSIBLE: JsString := Js("host_raw_sibling_mutation_possible")

  predicate Absent(o: Option<JsString>) {
    o.None? || o.value == []
  }

  function WrapperIntegrity(input: Input): Wrapper {
    if Absent(input.observedResolvedWrapperPath) || Absent(input.observedWrapperDigest) then WrapperAbsent
    else if input.observedResolvedWrapperPath.value != input.resolvedWrapperPath
         || input.observedWrapperDigest.value != input.wrapperDigest then Drifted
    else Matched
  }

  predicate ToolDigestChanged(input: Input) {
    !Absent(input.observedHostToolDigest) && input.observedHostToolDigest.value != input.hostToolDigest
  }

  function FreshnessStatus(input: Input): Freshness {
    if Absent(input.observedHostToolDigest) then UnknownFreshness
    else if input.observedHostToolDigest.value != input.hostToolDigest then Stale
    else if input.observedAt > input.expiresAt then Stale
    else Fresh
  }

  predicate Unobserved(input: Input) {
    !input.gatewayCheckObserved || !input.oneUseGreenlightObserved || !input.downstreamRecordedSeparately
  }

  predicate CanMutate(r: SiblingResult) {
    r.kind.MutationPossible? || r.kind.StopCondition?
  }

  function When(holds: bool, code: JsString): seq<JsString> {
    if holds then [code] else []
  }

  // ------------------------------------------------------ the reason codes

  function WrapperCodes(input: Input): seq<JsString> {
    When(WrapperIntegrity(input).WrapperAbsent?, WRAPPER_MISSING) +
    When(WrapperIntegrity(input).Drifted?, WRAPPER_DRIFTED) +
    When(FreshnessStatus(input).Stale?, MANIFEST_STALE) +
    When(FreshnessStatus(input).UnknownFreshness?, BYPASS_PROOF_GAP) +
    When(ToolDigestChanged(input), TOOL_DIGEST_CHANGED)
  }

  function BindingCodes(input: Input): seq<JsString> {
    When(input.binding.Unbound?, GATEWAY_UNBOUND) +
    When(input.binding.AdvisoryOnlyBinding?, ADVISORY_ONLY) +
    When(input.binding.ProofGapBinding?, BYPASS_PROOF_GAP) +
    When(Unobserved(input), ADVISORY_ONLY)
  }

  function ResultCodes(r: SiblingResult): seq<JsString> {
    When(CanMutate(r), MUTATION_POSSIBLE) +
    (if r.kind.ProofGapResult? || |r.proofGapReasonCodes| > 0 then [BYPASS_PROOF_GAP] + r.proofGapReasonCodes else [])
  }

  function AllResultCodes(rs: seq<SiblingResult>): seq<JsString> {
    if rs == [] then [] else AllResultCodes(rs[..|rs| - 1]) + ResultCodes(rs[|rs| - 1])
  }

  /** What `appendDerivedReasonCodes` leaves in the list. */
  function ReasonCodes(input: Input): seq<JsString> {
    input.proofGapReasonCodes + WrapperCodes(input) + BindingCodes(input) + AllResultCodes(input.rawSiblingResults)
  }

  method AppendBindingCodes(codes: seq<JsString>, input: Input) returns (reasonCodes: seq<JsString>)
    ensures reasonCodes == codes + BindingCodes(input)
  {
    reasonCodes := codes;
    if input.binding.Unbound? {
      reasonCodes := reasonCodes + [GATEWAY_UNBOUND];
    }
    if input.binding.AdvisoryOnlyBinding? {
      reasonCodes := reasonCodes + [ADVISORY_ONLY];
    }
    if input.binding.ProofGapBinding? {
      reasonCodes := reasonCodes + [BYPASS_PROOF_GAP];
    }
    if Unobserved(input) {
      reasonCodes := reasonCodes + [ADVISORY_ONLY];
    }
  }

  method AppendWrapperCodes(codes: seq<JsString>, input: Input) returns (reasonCodes: seq<JsString>)
    ensures reasonCodes == codes + WrapperCodes(input)
  {
    reasonCodes := codes;
    match WrapperIntegrity(input) {
      case WrapperAbsent => reasonCodes := reasonCodes + [WRAPPER_MISSING];
      case Drifted => reasonCodes := reasonCodes + [WRAPPER_DRIFTED];
      case Matched =>
    }
    match FreshnessStatus(input) {
      case Stale => reasonCodes := reasonCodes + [MANIFEST_STALE];
      case UnknownFreshness => reasonCodes := reasonCodes + [BYPASS_PROOF_GAP];
      case Fresh =>
    }
    if ToolDigestChanged(input) {
      reasonCodes := reasonCodes + [TOOL_DIGEST_CHANGED];
    }
  }

  /** One turn of the loop over the raw sibling results. */
  method AppendResultCodes(codes: seq<JsString>, r: SiblingResult) returns (reasonCodes: seq<JsString>)
    ensures reasonCodes == codes + ResultCodes(r)
  {
    reasonCodes := codes;
    if CanMutate(r) {
      reasonCodes := reasonCodes + [MUTATION_POSSIBLE];
    }
    if r.kind.ProofGapResult? || |r.proofGapReasonCodes| > 0 {
      reasonCodes := reasonCodes + ([BYPASS_PROOF_GAP] + r.proofGapReasonCodes);
    }
  }

  /** `appendDerivedReasonCodes`, on a copy of the caller's codes. */
  method AppendDerivedReasonCodes(input: Input) returns (reasonCodes: seq<JsString>)
    ensures reasonCodes == ReasonCodes(input)
  {
    reasonCodes := AppendWrapperCodes(input.proofGapReasonCodes, input);
    reasonCodes := AppendBindingCodes(reasonCodes, input);
    ghost var before := reasonCodes;
    var results := input.rawSiblingResults;
    for i := 0 to |results|
      invariant reasonCodes == before + AllResultCodes(results[..i])
    {
      assert results[..i + 1][..i] == results[..i];
      reasonCodes := AppendResultCodes(reasonCodes, results[i]);
    }
    assert results[..|results|] == results;
  }

  // ------------------------------------------------------------ the posture

  predicate SomeCanMutate(input: Input) {
    exists i :: 0 <= i < |input.rawSiblingResults| && CanMutate(input.rawSiblingResults[i])
  }

  predicate SomeProofGap(input: Input) {
    exists i :: 0 <= i < |input.rawSiblingResults| && input.rawSiblingResults[i].kind.ProofGapResult?
  }

  /** `deriveHostHarnessPostureState`. */
  function PostureState(input: Input, codes: seq<JsString>): Posture {
    if WrapperIntegrity(input).WrapperAbsent? then WrapperMissing
    else if WrapperIntegrity(input).Drifted? then WrapperDrifted
    else if ToolDigestChanged(input) then HostToolDigestChanged
    else if FreshnessStatus(input).Stale? then StaleProbe
    else if input.binding.Unbound? then GatewayUnbound
    else if SomeCanMutate(input) then RawSiblingMutationPossible
    else if input.binding.ProofGapBinding? || FreshnessStatus(input).UnknownFreshness? then ProofGap
    else if SomeProofGap(input) then ProofGap
    else if input.binding.AdvisoryOnlyBinding? then AdvisoryOnly
    else if Unobserved(input) then AdvisoryOnly
    else if |codes| > 0 then ProofGap
    else Ready
  }

  datatype Packet = Packet(posture: Posture, proofGapReasonCodes: seq<JsString>)

  /** `deriveHostBypassProofPacket`, without the fields it copies. */
  method DerivePacket(input: Input) returns (packet: Packet)
    ensures packet == Packet(PostureState(input, ReasonCodes(input)), SortedUnique(ReasonCodes(input)))
    ensures packet.posture.Ready? <==> packet.proofGapReasonCodes == []
  {
    ReadyMeansNoCodes(input);
    var codes := AppendDerivedReasonCodes(input);
    packet := Packet(PostureState(input, codes), SortedUnique(codes));
  }

  lemma {:induction false} NoResultCodes(rs: seq<SiblingResult>)
    ensures AllResultCodes(rs) == [] <==>
      forall i :: 0 <= i < |rs| ==>
        !CanMutate(rs[i]) && !rs[i].kind.ProofGapResult? && |rs[i].proofGapReasonCodes| == 0
  {
    if rs != [] {
      var init, last := rs[..|rs| - 1], rs[|rs| - 1];
      NoResultCodes(init);
      assert |AllResultCodes(rs)| == |AllResultCodes(init)| + |ResultCodes(last)|;
    }
  }

  lemma NoCodesInParts(input: Input)
    ensures ReasonCodes(input) == [] <==>
      input.proofGapReasonCodes == [] && WrapperCodes(input) == [] && BindingCodes(input) == []
      && AllResultCodes(input.rawSiblingResults) == []
  {
    assert |ReasonCodes(input)| == |input.proofGapReasonCodes| + |WrapperCodes(input)| + |BindingCodes(input)|
      + |AllResultCodes(input.rawSiblingResults)|;
  }

  lemma NoWrapperCodes(input: Input)
    ensures WrapperCodes(input) == [] <==> WrapperIntegrity(input).Matched? && FreshnessStatus(input).Fresh?
  {
    assert WrapperCodes(input) == [] <==> |WrapperCodes(input)| == 0;
  }

  lemma NoBindingCodes(input: Input)
    ensures BindingCodes(input) == [] <==> input.binding.Bound? && !Unobserved(input)
  {
    assert BindingCodes(input) == [] <==> |BindingCodes(input)| == 0;
  }

  /** For any raw sibling results and caller codes, a packet is READY exactly when it lists no
      reason code: the loop that collects codes and the chain that decides the posture agree. */
  lemma ReadyMeansNoCodes(input: Input)
    ensures PostureState(input, ReasonCodes(input)).Ready? <==> SortedUnique(ReasonCodes(input)) == []
  {
    NoCodesInParts(input);
    NoWrapperCodes(input);
    NoBindingCodes(input);
    NoResultCodes(input.rawSiblingResults);
  }

  /** Ready, in the terms of the evidence: everything expected was observed, fresh and bound, and
      nothing was left open. */
  lemma ReadyMeansObserved(input: Input)
    ensures PostureState(input, ReasonCodes(input)).Ready? <==>
      && WrapperIntegrity(input).Matched? && FreshnessStatus(input).Fresh?
      && input.binding.Bound? && !Unobserved(input) && input.proofGapReasonCodes == []
      && forall i :: 0 <= i < |input.rawSiblingResults| ==>
           !CanMutate(input.rawSiblingResults[i]) && !input.rawSiblingResults[i].kind.ProofGapResult?
           && |input.rawSiblingResults[i].proofGapReasonCodes| == 0
  {
    NoCodesInParts(input);
    NoWrapperCodes(input);
    NoBindingCodes(input);
    NoResultCodes(input.rawSiblingResults);
  }

  /** The code that stands for a posture. */
  function CodeOf(p: Posture): Option<JsString> {
    match p
    case WrapperMissing => Some(WRAPPER_MISSING)
    case WrapperDrifted => Some(WRAPPER_DRIFTED)
    case HostToolDigestChanged => Some(TOOL_DIGEST_CHANGED)
    case StaleProbe => Some(MANIFEST_STALE)
    case GatewayUnbound => Some(GATEWAY_UNBOUND)
    case RawSiblingMutationPossible => Some(MUTATION_POSSIBLE)
    case AdvisoryOnly => Some(ADVISORY_ONLY)
    case _ => None
  }

  lemma {:induction false} MutationIsCoded(rs: seq<SiblingResult>, i: nat)
    requires i < |rs| && CanMutate(rs[i])
    ensures MUTATION_POSSIBLE in AllResultCodes(rs)
  {
    if i < |rs| - 1 {
      MutationIsCoded(rs[..|rs| - 1], i);
    } else {
      assert ResultCodes(rs[i])[0] == MUTATION_POSSIBLE;
    }
  }

  /** Whatever posture the chain settles on, the packet also lists the code that stands for it. */
  lemma PostureIsListed(input: Input)
    ensures var p := PostureState(input, ReasonCodes(input));
      CodeOf(p).Some? ==> CodeOf(p).value in SortedUnique(ReasonCodes(input))
  {
    var p := PostureState(input, ReasonCodes(input));
    if CodeOf(p).Some? {
      var code := CodeOf(p).value;
      if p.RawSiblingMutationPossible? {
        var i :| 0 <= i < |input.rawSiblingResults| && CanMutate(input.rawSiblingResults[i]);
        MutationIsCoded(input.rawSiblingResults, i);
      } else if p.GatewayUnbound? || p.AdvisoryOnly? {
        assert code in BindingCodes(input);
      } else {
        assert code in WrapperCodes(input);
      }
      assert code in Elements(ReasonCodes(input));
      assert code in Elements(SortedUnique(ReasonCodes(input)));
    }
  }
}
