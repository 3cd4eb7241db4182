/** The auth.md and x402 interlock packet: its derived gaps and its ordering posture
    (src/adapters/auth-md-x402-interlock/packet.ts). */
module InterlockPacket {
  import opened JsText
  import opened ProofGaps
  import opened StableSort

  datatype EvidencePosture = PostGatewayCheck | NotPresent | PostureProofGap

  datatype Provenance = Provenance(
    discoveryEvidenceRefs: seq<JsString>, registrationEvidenceRefs: seq<JsString>,
    identityAssertionEvidenceRefs: seq<JsString>, claimEvidenceRefs: seq<JsString>,
    revocationEvidenceRefs: seq<JsString>, credentialResolutionEvidenceRef: Option<JsString>,
    credentialResolutionPosture: EvidencePosture, lifecycleActive: bool, providerRegistryRef: JsString)

  datatype ProtectedSpend = ProtectedSpend(
    paymentRequiredEvidenceRef: JsString, policyDecisionRef: Option<JsString>, greenlightId: Option<JsString>,
    gatewayCheckRef: Option<JsString>, paymentSignatureEvidenceRef: Option<JsString>,
    signerInvocationPosture: EvidencePosture, replayRefusalEvidenceRefs: seq<JsString>)

  datatype Input = Input(provenance: Provenance, spend: ProtectedSpend, proofGaps: seq<Gap>)

  const DISCOVERY_MISSING: JsString := Js("auth_md_discovery_evidence_missing")
  const REGISTRATION_MISSING: JsString := Js("auth_md_registration_evidence_missing")
  const LIFECYCLE_NOT_ACTIVE: JsString := Js("auth_md_credential_lifecycle_not_active")
  const RESOLUTION_MISSING: JsString := Js("auth_md_credential_resolution_missing")
  const POLICY_MISSING: JsString := Js("x402_policy_decision_missing")
  const GREENLIGHT_MISSING: JsString := Js("x402_greenlight_missing")
  const CHECK_MISSING: JsString := Js("x402_gateway_check_missing")
  const SIGNATURE_MISSING: JsString := Js("x402_payment_signature_missing")
  const REPLAY_MISSING: JsString := Js("x402_replay_refusal_evidence_missing")

  function Present(o: Option<JsString>): seq<JsString> {
    match o
    case Some(s) => [s]
    case None => []
  }

  function AuthMdRefs(p: Provenance): seq<JsString> {
    p.discoveryEvidenceRefs + p.registrationEvidenceRefs + p.identityAssertionEvidenceRefs + p.claimEvidenceRefs
    + p.revocationEvidenceRefs + Present(p.credentialResolutionEvidenceRef) + [p.providerRegistryRef]
  }

  function X402Refs(s: ProtectedSpend): seq<JsString> {
    [s.paymentRequiredEvidenceRef] + Present(s.policyDecisionRef) + Present(s.greenlightId)
    + Present(s.gatewayCheckRef) + Present(s.paymentSignatureEvidenceRef) + s.replayRefusalEvidenceRefs
  }

  function When(holds: bool, code: JsString, refs: seq<JsString>): seq<Gap> {
    if holds then [Gap(code, refs)] else []
  }

  predicate ResolvedAfterGate(p: Provenance) {
    p.credentialResolutionPosture.PostGatewayCheck? && p.credentialResolutionEvidenceRef.Some?
  }

  predicate SignedAfterGate(s: ProtectedSpend) {
    s.signerInvocationPosture.PostGatewayCheck? && s.paymentSignatureEvidenceRef.Some?
  }

  function AuthMdGaps(p: Provenance): seq<Gap> {
    When(|p.discoveryEvidenceRefs| == 0, DISCOVERY_MISSING, AuthMdRefs(p)) +
    When(|p.registrationEvidenceRefs| == 0, REGISTRATION_MISSING, AuthMdRefs(p)) +
    When(!p.lifecycleActive, LIFECYCLE_NOT_ACTIVE, AuthMdRefs(p)) +
    When(!ResolvedAfterGate(p), RESOLUTION_MISSING, AuthMdRefs(p))
  }

  function X402Gaps(s: ProtectedSpend): seq<Gap> {
    When(s.policyDecisionRef.None?, POLICY_MISSING, X402Refs(s)) +
    When(s.greenlightId.None?, GREENLIGHT_MISSING, X402Refs(s)) +
    When(s.gatewayCheckRef.None?, CHECK_MISSING, X402Refs(s)) +
    When(!SignedAfterGate(s), SIGNATURE_MISSING, X402Refs(s)) +
    When(|s.replayRefusalEvidenceRefs| == 0, REPLAY_MISSING, X402Refs(s))
  }

  method PushAuthMdGaps(p: Provenance) returns (gaps: seq<Gap>)
    ensures gaps == AuthMdGaps(p)
  {
    gaps := [];
    if |p.discoveryEvidenceRefs| == 0 {
      gaps := gaps + [Gap(DISCOVERY_MISSING, AuthMdRefs(p))];
    }
    if |p.registrationEvidenceRefs| == 0 {
      gaps := gaps + [Gap(REGISTRATION_MISSING, AuthMdRefs(p))];
    }
    if !p.lifecycleActive {
      gaps := gaps + [Gap(LIFECYCLE_NOT_ACTIVE, AuthMdRefs(p))];
    }
    if !p.credentialResolutionPosture.PostGatewayCheck? || p.credentialResolutionEvidenceRef.None? {
      gaps := gaps + [Gap(RESOLUTION_MISSING, AuthMdRefs(p))];
    }
  }

  method PushX402Gaps(pushed: seq<Gap>, s: ProtectedSpend) returns (gaps: seq<Gap>)
    ensures gaps == pushed + X402Gaps(s)
  {
    gaps := [];
    if s.policyDecisionRef.None? {
      gaps := gaps + [Gap(POLICY_MISSING, X402Refs(s))];
    }
    if s.greenlightId.None? {
      gaps := gaps + [Gap(GREENLIGHT_MISSING, X402Refs(s))];
    }
    if s.gatewayCheckRef.None? {
      gaps := gaps + [Gap(CHECK_MISSING, X402Refs(s))];
    }
    if !s.signerInvocationPosture.PostGatewayCheck? || s.paymentSignatureEvidenceRef.None? {
      gaps := gaps + [Gap(SIGNATURE_MISSING, X402Refs(s))];
    }
    if |s.replayRefusalEvidenceRefs| == 0 {
      gaps := gaps + [Gap(REPLAY_MISSING, X402Refs(s))];
    }
    assert gaps == X402Gaps(s);
    gaps := pushed + gaps;
  }

  function AllGaps(input: Input): seq<Gap> {
    input.proofGaps + (AuthMdGaps(input.provenance) + X402Gaps(input.spend))
  }

  /** `orderingPostureFor`: whether credential and signer are proven to come after the gate. */
  predicate PostGateOnly(input: Input) {
    && ResolvedAfterGate(input.provenance) && SignedAfterGate(input.spend)
    && input.spend.policyDecisionRef.Some? && input.spend.greenlightId.Some? && input.spend.gatewayCheckRef.Some?
  }

  datatype Packet = Packet(proofGaps: seq<Gap>, blockedChecks: seq<JsString>, postGateOnly: bool)

  function PacketOf(le: Collation, input: Input): Packet {
    var gaps := Dedupe(le, AllGaps(input));
    Packet(gaps, Codes(gaps), PostGateOnly(input))
  }

  /** `projectAuthMdX402InterlockPacket`, without the fields it copies. */
  method ProjectPacket(le: Collation, input: Input) returns (packet: Packet)
    ensures packet == PacketOf(le, input)
    ensures !packet.postGateOnly ==> ListsOrderingCode(packet.blockedChecks)
  {
    OrderingIsListed(le, input);
    var derived := PushAuthMdGaps(input.provenance);
    derived := PushX402Gaps(derived, input.spend);
    var gaps := DedupeProofGaps(le, input.proofGaps + derived);
    packet := Packet(gaps, Codes(gaps), PostGateOnly(input));
  }

  predicate IsOrderingCode(code: JsString) {
    code == RESOLUTION_MISSING || code == POLICY_MISSING || code == GREENLIGHT_MISSING || code == CHECK_MISSING
    || code == SIGNATURE_MISSING
  }

  predicate ListsOrderingCode(codes: seq<JsString>) {
    exists i :: 0 <= i < |codes| && IsOrderingCode(codes[i])
  }

  lemma OtherCodesDiffer()
    ensures !IsOrderingCode(DISCOVERY_MISSING) && !IsOrderingCode(REGISTRATION_MISSING)
    ensures !IsOrderingCode(LIFECYCLE_NOT_ACTIVE) && !IsOrderingCode(REPLAY_MISSING)
  {
    assert |DISCOVERY_MISSING| == 34 && |REGISTRATION_MISSING| == 37 && |LIFECYCLE_NOT_ACTIVE| == 39;
    assert |REPLAY_MISSING| == 36 && |RESOLUTION_MISSING| == 37 && |POLICY_MISSING| == 28;
    assert |GREENLIGHT_MISSING| == 23 && |CHECK_MISSING| == 26 && |SIGNATURE_MISSING| == 30;
    assert REGISTRATION_MISSING[8] == 114 && RESOLUTION_MISSING[8] == 99;
  }

  predicate HasOrderingGap(gaps: seq<Gap>) {
    exists i :: 0 <= i < |gaps| && IsOrderingCode(gaps[i].reasonCode)
  }

  lemma HasInParts(a: seq<Gap>, b: seq<Gap>)
    ensures HasOrderingGap(a + b) <==> HasOrderingGap(a) || HasOrderingGap(b)
  {
    if HasOrderingGap(a) {
      var i :| 0 <= i < |a| && IsOrderingCode(a[i].reasonCode);
      assert (a + b)[i] == a[i];
    }
    if HasOrderingGap(b) {
      var i :| 0 <= i < |b| && IsOrderingCode(b[i].reasonCode);
      assert (a + b)[|a| + i] == b[i];
    }
  }

  lemma HasWhen(holds: bool, code: JsString, refs: seq<JsString>)
    ensures HasOrderingGap(When(holds, code, refs)) <==> holds && IsOrderingCode(code)
  {
    if holds && IsOrderingCode(code) {
      assert When(holds, code, refs)[0].reasonCode == code;
    }
  }

  lemma AuthMdOrdering(p: Provenance)
    ensures HasOrderingGap(AuthMdGaps(p)) <==> !ResolvedAfterGate(p)
  {
    OtherCodesDiffer();
    var a := When(|p.discoveryEvidenceRefs| == 0, DISCOVERY_MISSING, AuthMdRefs(p));
    var b := When(|p.registrationEvidenceRefs| == 0, REGISTRATION_MISSING, AuthMdRefs(p));
    var c := When(!p.lifecycleActive, LIFECYCLE_NOT_ACTIVE, AuthMdRefs(p));
    HasInParts(a + b + c, When(!ResolvedAfterGate(p), RESOLUTION_MISSING, AuthMdRefs(p)));
    HasInParts(a + b, c);
    HasInParts(a, b);
    HasWhen(!ResolvedAfterGate(p), RESOLUTION_MISSING, AuthMdRefs(p));
  }

  lemma X402Ordering(s: ProtectedSpend)
    ensures HasOrderingGap(X402Gaps(s)) <==>
      s.policyDecisionRef.None? || s.greenlightId.None? || s.gatewayCheckRef.None? || !SignedAfterGate(s)
  {
    OtherCodesDiffer();
    var refs := X402Refs(s);
    var a := When(s.policyDecisionRef.None?, POLICY_MISSING, refs);
    var b := When(s.greenlightId.None?, GREENLIGHT_MISSING, refs);
    var c := When(s.gatewayCheckRef.None?, CHECK_MISSING, refs);
    var d := When(!SignedAfterGate(s), SIGNATURE_MISSING, refs);
    HasInParts(a + b + c + d, When(|s.replayRefusalEvidenceRefs| == 0, REPLAY_MISSING, refs));
    HasInParts(a + b + c, d);
    HasInParts(a + b, c);
    HasInParts(a, b);
    HasWhen(s.policyDecisionRef.None?, POLICY_MISSING, refs);
    HasWhen(s.greenlightId.None?, GREENLIGHT_MISSING, refs);
    HasWhen(s.gatewayCheckRef.None?, CHECK_MISSING, refs);
    HasWhen(!SignedAfterGate(s), SIGNATURE_MISSING, refs);
  }

  lemma ListedAsGap(le: Collation, gaps: seq<Gap>)
    ensures ListsOrderingCode(Codes(Dedupe(le, gaps))) <==> HasOrderingGap(gaps)
  {
    var codes := Codes(Dedupe(le, gaps));
    if ListsOrderingCode(codes) {
      var i :| 0 <= i < |codes| && IsOrderingCode(codes[i]);
      DedupeKeepsEveryCode(le, gaps, codes[i]);
      var j :| 0 <= j < |gaps| && Codes(gaps)[j] == codes[i];
      assert IsOrderingCode(gaps[j].reasonCode);
    }
    if HasOrderingGap(gaps) {
      var j :| 0 <= j < |gaps| && IsOrderingCode(gaps[j].reasonCode);
      assert Codes(gaps)[j] == gaps[j].reasonCode;
      DedupeKeepsEveryCode(le, gaps, gaps[j].reasonCode);
      var i :| 0 <= i < |codes| && codes[i] == gaps[j].reasonCode;
      assert IsOrderingCode(codes[i]);
    }
  }

  /** A packet lists one of the five ordering codes exactly when the ordering is not proven, or
      the caller itself reported such a gap. */
  lemma OrderingIsListed(le: Collation, input: Input)
    ensures ListsOrderingCode(PacketOf(le, input).blockedChecks)
       <==> !PacketOf(le, input).postGateOnly || HasOrderingGap(input.proofGaps)
  {
    ListedAsGap(le, AllGaps(input));
    HasInParts(input.proofGaps, AuthMdGaps(input.provenance) + X402Gaps(input.spend));
    HasInParts(AuthMdGaps(input.provenance), X402Gaps(input.spend));
    AuthMdOrdering(input.provenance);
    X402Ordering(input.spend);
  }
}
