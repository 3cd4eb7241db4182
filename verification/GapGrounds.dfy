/** The gaps of the interlock packet and of the release proof, written out: which code stands for
    what, and with which evidence (src/adapters/auth-md-x402-interlock/packet.ts,
    src/surfaces/release-proof.ts). */
module GapGrounds {
  import opened JsText
  import StableSort
  import opened ProofGaps
  import I = InterlockPacket
  import R = ReleaseProof

  // ------------------------------------------------------ the interlock packet

  function Given(o: Option<JsString>): seq<JsString> {
    match o
    case Some(s) => [s]
    case None => []
  }

  /** All evidence of the provenance, in order. */
  function ProvenanceEvidence(p: I.Provenance): seq<JsString> {
    p.discoveryEvidenceRefs + p.registrationEvidenceRefs + p.identityAssertionEvidenceRefs + p.claimEvidenceRefs
    + p.revocationEvidenceRefs + Given(p.credentialResolutionEvidenceRef) + [p.providerRegistryRef]
  }

  /** All evidence of the spend, in order. */
  function SpendEvidence(s: I.ProtectedSpend): seq<JsString> {
    [s.paymentRequiredEvidenceRef] + Given(s.policyDecisionRef) + Given(s.greenlightId) + Given(s.gatewayCheckRef)
    + Given(s.paymentSignatureEvidenceRef) + s.replayRefusalEvidenceRefs
  }

  predicate ProvenanceGround(p: I.Provenance, code: JsString) {
    || (code == Js("auth_md_discovery_evidence_missing") && p.discoveryEvidenceRefs == [])
    || (code == Js("auth_md_registration_evidence_missing") && p.registrationEvidenceRefs == [])
    || (code == Js("auth_md_credential_lifecycle_not_active") && !p.lifecycleActive)
    || (code == Js("auth_md_credential_resolution_missing")
        && (p.credentialResolutionPosture != I.PostGatewayCheck || p.credentialResolutionEvidenceRef == None))
  }

  predicate SpendGround(s: I.ProtectedSpend, code: JsString) {
    || (code == Js("x402_policy_decision_missing") && s.policyDecisionRef == None)
    || (code == Js("x402_greenlight_missing") && s.greenlightId == None)
    || (code == Js("x402_gateway_check_missing") && s.gatewayCheckRef == None)
    || (code == Js("x402_payment_signature_missing")
        && (s.signerInvocationPosture != I.PostGatewayCheck || s.paymentSignatureEvidenceRef == None))
    || (code == Js("x402_replay_refusal_evidence_missing") && s.replayRefusalEvidenceRefs == [])
  }

  lemma ProvenanceGapsAre(p: I.Provenance, g: Gap)
    ensures g in I.AuthMdGaps(p) <==> ProvenanceGround(p, g.reasonCode) && g.evidenceRefs == ProvenanceEvidence(p)
  {
  }

  lemma SpendGapsAre(s: I.ProtectedSpend, g: Gap)
    ensures g in I.X402Gaps(s) <==> SpendGround(s, g.reasonCode) && g.evidenceRefs == SpendEvidence(s)
  {
  }

  predicate InterlockGap(input: I.Input, g: Gap) {
    || (ProvenanceGround(input.provenance, g.reasonCode) && g.evidenceRefs == ProvenanceEvidence(input.provenance))
    || (SpendGround(input.spend, g.reasonCode) && g.evidenceRefs == SpendEvidence(input.spend))
  }

  predicate InterlockCode(input: I.Input, code: JsString) {
    ProvenanceGround(input.provenance, code) || SpendGround(input.spend, code)
  }

  lemma FamiliesDiffer(p: I.Provenance, s: I.ProtectedSpend, code: JsString)
    ensures !(ProvenanceGround(p, code) && SpendGround(s, code))
  {
    assert ProvenanceGround(p, code) ==> code[0] == 97;
    assert SpendGround(s, code) ==> code[0] == 120;
  }

  function Derived(input: I.Input): seq<Gap> {
    I.AuthMdGaps(input.provenance) + I.X402Gaps(input.spend)
  }

  lemma DerivedAre(input: I.Input, g: Gap)
    ensures g in Derived(input) <==> InterlockGap(input, g)
  {
    ProvenanceGapsAre(input.provenance, g);
    SpendGapsAre(input.spend, g);
  }

  lemma CodesOfDerived(input: I.Input, code: JsString)
    ensures code in Codes(Derived(input)) <==> InterlockCode(input, code)
  {
    var gaps := Derived(input);
    if code in Codes(gaps) {
      var i :| 0 <= i < |gaps| && Codes(gaps)[i] == code;
      DerivedAre(input, gaps[i]);
    }
    if InterlockCode(input, code) {
      var refs := if ProvenanceGround(input.provenance, code) then ProvenanceEvidence(input.provenance)
                  else SpendEvidence(input.spend);
      DerivedAre(input, Gap(code, refs));
      var i :| 0 <= i < |gaps| && gaps[i] == Gap(code, refs);
      assert Codes(gaps)[i] == code;
    }
  }

  lemma DerivedOncePerCode(input: I.Input)
    ensures OnePerCode(Derived(input))
  {
    var gaps := Derived(input);
    forall i, j | 0 <= i < |gaps| && 0 <= j < |gaps| && gaps[i].reasonCode == gaps[j].reasonCode
      ensures gaps[i] == gaps[j]
    {
      DerivedAre(input, gaps[i]);
      DerivedAre(input, gaps[j]);
      FamiliesDiffer(input.provenance, input.spend, gaps[i].reasonCode);
    }
  }

  /** An interlock packet holds a gap for exactly every ground that holds, with the evidence of
      its side, and of the caller's gaps the last of each other code; in collation order, with
      their codes as the blocked checks. */
  lemma InterlockGapsExactly(le: StableSort.Collation, input: I.Input, g: Gap)
    requires StableSort.IsCollation(le)
    ensures var p := I.PacketOf(le, input);
      && (g in p.proofGaps <==>
            InterlockGap(input, g) || (IsLastOfItsCode(input.proofGaps, g) && !InterlockCode(input, g.reasonCode)))
      && InOrder(le, p.proofGaps) && p.blockedChecks == Codes(p.proofGaps)
  {
    DerivedAre(input, g);
    CodesOfDerived(input, g.reasonCode);
    DerivedOncePerCode(input);
    DerivedReplaceGiven(le, input.proofGaps, Derived(input), g);
    DedupeKeepsTheLast(le, input.proofGaps + Derived(input), g);
  }

  /** The ordering is proven when both the credential and the signature come after the gateway
      check, with evidence, and the decision, the greenlight and the check are there. */
  lemma OrderingIsProvenExactly(le: StableSort.Collation, input: I.Input)
    ensures I.PacketOf(le, input).postGateOnly <==>
      && input.provenance.credentialResolutionPosture == I.PostGatewayCheck
      && input.provenance.credentialResolutionEvidenceRef != None
      && input.spend.signerInvocationPosture == I.PostGatewayCheck && input.spend.paymentSignatureEvidenceRef != None
      && input.spend.policyDecisionRef != None && input.spend.greenlightId != None && input.spend.gatewayCheckRef != None
  {
  }

  // -------------------------------------------------------- the release proof

  predicate SomeFlagFailed(i: R.Input) {
    exists k :: 0 <= k < |i.shape| && !i.shape[k]
  }

  predicate AccountGround(i: R.Input, code: JsString) {
    || (code == Js("npm_namespace_ownership_unverified") && i.npmNamespace != R.Verified)
    || (code == Js("mcp_namespace_ownership_unverified") && i.mcpNamespace != R.Verified)
    || (code == Js("npm_two_factor_posture_unverified") && i.twoFactor != R.Verified)
    || (code == Js("npm_publish_token_posture_unknown") && i.publishTokenUnknown)
  }

  predicate RegistryGround(i: R.Input, code: JsString) {
    || (code == Js("mcp_registry_submission_not_accepted") && !i.mcpRegistryAccepted)
    || (code == Js("mcp_registry_discoverability_not_verified") && !i.discoverabilityChecked)
  }

  /** A ground, with the evidence it cites. */
  predicate ReleaseGap(i: R.Input, g: Gap) {
    || (g.reasonCode == Js("package_shape_preflight_incomplete") && SomeFlagFailed(i) && g.evidenceRefs == i.shapeRefs)
    || (AccountGround(i, g.reasonCode) && g.evidenceRefs == i.accountRefs)
    || (g.reasonCode == Js("npm_provenance_posture_unknown") && i.provenanceUnknown && g.evidenceRefs == i.provenanceRefs)
    || (g.reasonCode == Js("npm_publish_operation_not_performed") && !i.npmPublished && g.evidenceRefs == i.publishRefs)
    || (g.reasonCode == Js("post_publish_clean_install_not_verified") && !i.cleanInstallSmoke
        && g.evidenceRefs == i.smokeRefs)
    || (RegistryGround(i, g.reasonCode) && g.evidenceRefs == i.registryRefs)
  }

  function ReleaseDerived(i: R.Input): seq<Gap> {
    R.PrePublishGaps(i) + R.PostPublishGaps(i)
  }

  lemma NamespaceGapsAre(i: R.Input, g: Gap)
    ensures g in R.NamespaceGaps(i) <==>
      || (g.reasonCode == Js("package_shape_preflight_incomplete") && SomeFlagFailed(i) && g.evidenceRefs == i.shapeRefs)
      || (g.reasonCode == Js("npm_namespace_ownership_unverified") && i.npmNamespace != R.Verified
          && g.evidenceRefs == i.accountRefs)
      || (g.reasonCode == Js("mcp_namespace_ownership_unverified") && i.mcpNamespace != R.Verified
          && g.evidenceRefs == i.accountRefs)
  {
  }

  lemma AccountGapsAre(i: R.Input, g: Gap)
    ensures g in R.AccountGaps(i) <==>
      || (g.reasonCode == Js("npm_two_factor_posture_unverified") && i.twoFactor != R.Verified
          && g.evidenceRefs == i.accountRefs)
      || (g.reasonCode == Js("npm_publish_token_posture_unknown") && i.publishTokenUnknown
          && g.evidenceRefs == i.accountRefs)
      || (g.reasonCode == Js("npm_provenance_posture_unknown") && i.provenanceUnknown
          && g.evidenceRefs == i.provenanceRefs)
  {
  }

  lemma PostPublishGapsAre(i: R.Input, g: Gap)
    ensures g in R.PostPublishGaps(i) <==>
      || (g.reasonCode == Js("npm_publish_operation_not_performed") && !i.npmPublished && g.evidenceRefs == i.publishRefs)
      || (g.reasonCode == Js("post_publish_clean_install_not_verified") && !i.cleanInstallSmoke
          && g.evidenceRefs == i.smokeRefs)
      || (RegistryGround(i, g.reasonCode) && g.evidenceRefs == i.registryRefs)
  {
  }

  lemma ReleaseDerivedAre(i: R.Input, g: Gap)
    ensures g in ReleaseDerived(i) <==> ReleaseGap(i, g)
  {
    NamespaceGapsAre(i, g);
    AccountGapsAre(i, g);
    PostPublishGapsAre(i, g);
  }

  /** The evidence a code cites, by its text. */
  lemma EvidenceByCode(i: R.Input, g: Gap, h: Gap)
    requires ReleaseGap(i, g) && ReleaseGap(i, h) && g.reasonCode == h.reasonCode
    ensures g == h
  {
    ReleaseCodesDiffer();
  }

  lemma ReleaseCodesDiffer()
    ensures |Js("package_shape_preflight_incomplete")| == 34 && Js("package_shape_preflight_incomplete")[0] == 112
    ensures |Js("npm_namespace_ownership_unverified")| == 34 && Js("npm_namespace_ownership_unverified")[0] == 110
    ensures |Js("mcp_namespace_ownership_unverified")| == 34 && Js("mcp_namespace_ownership_unverified")[0] == 109
    ensures |Js("npm_two_factor_posture_unverified")| == 33 && |Js("npm_publish_token_posture_unknown")| == 33
    ensures |Js("npm_provenance_posture_unknown")| == 30 && |Js("npm_publish_operation_not_performed")| == 35
    ensures |Js("post_publish_clean_install_not_verified")| == 39
    ensures |Js("mcp_registry_submission_not_accepted")| == 36
    ensures |Js("mcp_registry_discoverability_not_verified")| == 41
  {
  }

  lemma ReleaseOncePerCode(i: R.Input)
    ensures OnePerCode(ReleaseDerived(i))
  {
    var gaps := ReleaseDerived(i);
    forall j, k | 0 <= j < |gaps| && 0 <= k < |gaps| && gaps[j].reasonCode == gaps[k].reasonCode
      ensures gaps[j] == gaps[k]
    {
      ReleaseDerivedAre(i, gaps[j]);
      ReleaseDerivedAre(i, gaps[k]);
      EvidenceByCode(i, gaps[j], gaps[k]);
    }
  }

  ghost predicate ReleaseCode(i: R.Input, code: JsString) {
    exists refs :: ReleaseGap(i, Gap(code, refs))
  }

  lemma CodesOfRelease(i: R.Input, code: JsString)
    ensures code in Codes(ReleaseDerived(i)) <==> ReleaseCode(i, code)
  {
    var gaps := ReleaseDerived(i);
    if code in Codes(gaps) {
      var k :| 0 <= k < |gaps| && Codes(gaps)[k] == code;
      ReleaseDerivedAre(i, gaps[k]);
      assert ReleaseGap(i, Gap(code, gaps[k].evidenceRefs));
    }
    if ReleaseCode(i, code) {
      var refs :| ReleaseGap(i, Gap(code, refs));
      ReleaseDerivedAre(i, Gap(code, refs));
      var k :| 0 <= k < |gaps| && gaps[k] == Gap(code, refs);
      assert Codes(gaps)[k] == code;
    }
  }

  /** A release lists a gap for exactly every ground that holds, with its own evidence, and of the
      caller's gaps the last of each other code; in collation order. */
  lemma ReleaseGapsExactly(le: StableSort.Collation, i: R.Input, g: Gap)
    requires StableSort.IsCollation(le)
    ensures var gaps := Dedupe(le, R.AllGaps(i));
      && (g in gaps <==> ReleaseGap(i, g) || (IsLastOfItsCode(i.proofGaps, g) && !ReleaseCode(i, g.reasonCode)))
      && InOrder(le, gaps)
  {
    ReleaseDerivedAre(i, g);
    CodesOfRelease(i, g.reasonCode);
    ReleaseOncePerCode(i);
    DerivedReplaceGiven(le, i.proofGaps, ReleaseDerived(i), g);
    DedupeKeepsTheLast(le, i.proofGaps + ReleaseDerived(i), g);
    assert i.proofGaps + ReleaseDerived(i) == R.AllGaps(i);
  }

  /** Nothing stands against publishing: no gap was given, every flag of the shape holds, the
      accounts are verified, and the local checks passed. */
  predicate MayPublish(i: R.Input) {
    && i.proofGaps == [] && !SomeFlagFailed(i)
    && i.npmNamespace == R.Verified && i.mcpNamespace == R.Verified && i.twoFactor == R.Verified
    && !i.publishTokenUnknown && !i.provenanceUnknown && i.localPackSmoke && i.proposalEvidenceSmoke
  }

  predicate IsPublished(i: R.Input) {
    MayPublish(i) && i.npmPublished && i.cleanInstallSmoke && i.installedBinsSmoke && i.installedExportsSmoke
  }

  lemma ReleaseStateIs(i: R.Input)
    ensures R.StateFor(i) == R.BlockedByProofGap <==> !MayPublish(i)
    ensures R.StateFor(i) == R.ReadyToPublish <==> MayPublish(i) && !IsPublished(i)
    ensures R.StateFor(i) == R.ActuallyPublished <==>
      IsPublished(i) && !(i.mcpRegistryAccepted && i.discoverabilityChecked)
    ensures R.StateFor(i) == R.RegistryDiscoverable <==>
      IsPublished(i) && i.mcpRegistryAccepted && i.discoverabilityChecked
  {
    R.NoPrePublishGaps(i);
    assert |i.proofGaps + R.PrePublishGaps(i)| == |i.proofGaps| + |R.PrePublishGaps(i)|;
  }
}
