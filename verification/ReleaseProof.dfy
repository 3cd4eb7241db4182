/** The package release proof: its derived gaps and its release state
    (src/surfaces/release-proof.ts). */
module ReleaseProof {
  import opened JsText
  import opened ProofGaps
  import opened StableSort

  datatype Ownership = Verified | NotVerified | OwnershipProofGap

  /** The flags of a package shape proof. */
  const SHAPE_FLAGS: nat := 13

  /** `shape` holds the flags of the package shape proof, all but its evidence. */
  datatype Input = Input(
    shape: seq<bool>, shapeRefs: seq<JsString>,
    npmNamespace: Ownership, mcpNamespace: Ownership, twoFactor: Ownership, publishTokenUnknown: bool,
    accountRefs: seq<JsString>,
    npmPublished: bool, publishRefs: seq<JsString>,
    provenanceUnknown: bool, provenanceRefs: seq<JsString>,
    mcpRegistryAccepted: bool, discoverabilityChecked: bool, registryRefs: seq<JsString>,
    localPackSmoke: bool, cleanInstallSmoke: bool, installedBinsSmoke: bool, installedExportsSmoke: bool,
    proposalEvidenceSmoke: bool, smokeRefs: seq<JsString>,
    proofGaps: seq<Gap>)

  datatype ReleaseState = RegistryDiscoverable | ActuallyPublished | ReadyToPublish | BlockedByProofGap

  const SHAPE_INCOMPLETE: JsString := Js("package_shape_preflight_incomplete")
  const NPM_NAMESPACE_UNVERIFIED: JsString := Js("npm_namespace_ownership_unverified")
  const MCP_NAMESPACE_UNVERIFIED: JsString := Js("mcp_namespace_ownership_unverified")
  const TWO_FACTOR_UNVERIFIED: JsString := Js("npm_two_factor_posture_unverified")
  const PUBLISH_TOKEN_UNKNOWN: JsString := Js("npm_publish_token_posture_unknown")
  const PROVENANCE_UNKNOWN: JsString := Js("npm_provenance_posture_unknown")
  const NOT_PUBLISHED: JsString := Js("npm_publish_operation_not_performed")
  const CLEAN_INSTALL_NOT_VERIFIED: JsString := Js("post_publish_clean_install_not_verified")
  const REGISTRY_NOT_ACCEPTED: JsString := Js("mcp_registry_submission_not_accepted")
  const DISCOVERABILITY_NOT_VERIFIED: JsString := Js("mcp_registry_discoverability_not_verified")

  function When(holds: bool, code: JsString, refs: seq<JsString>): seq<Gap> {
    if holds then [Gap(code, refs)] else []
  }

  predicate ShapePassed(input: Input) {
    forall i :: 0 <= i < |input.shape| ==> input.shape[i]
  }

  function NamespaceGaps(input: Input): seq<Gap> {
    When(!ShapePassed(input), SHAPE_INCOMPLETE, input.shapeRefs) +
    When(!input.npmNamespace.Verified?, NPM_NAMESPACE_UNVERIFIED, input.accountRefs) +
    When(!input.mcpNamespace.Verified?, MCP_NAMESPACE_UNVERIFIED, input.accountRefs)
  }

  function AccountGaps(input: Input): seq<Gap> {
    When(!input.twoFactor.Verified?, TWO_FACTOR_UNVERIFIED, input.accountRefs) +
    When(input.publishTokenUnknown, PUBLISH_TOKEN_UNKNOWN, input.accountRefs) +
    When(input.provenanceUnknown, PROVENANCE_UNKNOWN, input.provenanceRefs)
  }

  function PrePublishGaps(input: Input): seq<Gap> {
    NamespaceGaps(input) + AccountGaps(input)
  }

  function PostPublishGaps(input: Input): seq<Gap> {
    When(!input.npmPublished, NOT_PUBLISHED, input.publishRefs) +
    When(!input.cleanInstallSmoke, CLEAN_INSTALL_NOT_VERIFIED, input.smokeRefs) +
    When(!input.mcpRegistryAccepted, REGISTRY_NOT_ACCEPTED, input.registryRefs) +
    When(!input.discoverabilityChecked, DISCOVERABILITY_NOT_VERIFIED, input.registryRefs)
  }

  /** `derivedPrePublishProofGaps`. */
  method DerivedPrePublishProofGaps(input: Input) returns (gaps: seq<Gap>)
    ensures gaps == PrePublishGaps(input)
  {
    gaps := [];
    if !ShapePassed(input) {
      gaps := gaps + [Gap(SHAPE_INCOMPLETE, input.shapeRefs)];
    }
    if !input.npmNamespace.Verified? {
      gaps := gaps + [Gap(NPM_NAMESPACE_UNVERIFIED, input.accountRefs)];
    }
    if !input.mcpNamespace.Verified? {
      gaps := gaps + [Gap(MCP_NAMESPACE_UNVERIFIED, input.accountRefs)];
    }
    assert gaps == NamespaceGaps(input);
    var account := PushAccountGaps(input);
    gaps := gaps + account;
  }

  method PushAccountGaps(input: Input) returns (gaps: seq<Gap>)
    ensures gaps == AccountGaps(input)
  {
    gaps := [];
    if !input.twoFactor.Verified? {
      gaps := gaps + [Gap(TWO_FACTOR_UNVERIFIED, input.accountRefs)];
    }
    if input.publishTokenUnknown {
      gaps := gaps + [Gap(PUBLISH_TOKEN_UNKNOWN, input.accountRefs)];
    }
    if input.provenanceUnknown {
      gaps := gaps + [Gap(PROVENANCE_UNKNOWN, input.provenanceRefs)];
    }
  }

  /** `derivedPostPublishProofGaps`. */
  method DerivedPostPublishProofGaps(input: Input) returns (gaps: seq<Gap>)
    ensures gaps == PostPublishGaps(input)
  {
    gaps := [];
    if !input.npmPublished {
      gaps := gaps + [Gap(NOT_PUBLISHED, input.publishRefs)];
    }
    if !input.cleanInstallSmoke {
      gaps := gaps + [Gap(CLEAN_INSTALL_NOT_VERIFIED, input.smokeRefs)];
    }
    if !input.mcpRegistryAccepted {
      gaps := gaps + [Gap(REGISTRY_NOT_ACCEPTED, input.registryRefs)];
    }
    if !input.discoverabilityChecked {
      gaps := gaps + [Gap(DISCOVERABILITY_NOT_VERIFIED, input.registryRefs)];
    }
  }

  predicate LocalReadinessPassed(input: Input) {
    && ShapePassed(input)
    && input.npmNamespace.Verified? && input.mcpNamespace.Verified? && input.twoFactor.Verified?
    && !input.publishTokenUnknown && !input.provenanceUnknown
    && input.localPackSmoke && input.proposalEvidenceSmoke
  }

  datatype Release = Release(state: ReleaseState, proofGaps: seq<Gap>)

  predicate Ready(input: Input) {
    |input.proofGaps + PrePublishGaps(input)| == 0 && LocalReadinessPassed(input)
  }

  predicate Published(input: Input) {
    && Ready(input) && input.npmPublished
    && input.cleanInstallSmoke && input.installedBinsSmoke && input.installedExportsSmoke
  }

  function StateFor(input: Input): ReleaseState {
    if Published(input) && input.mcpRegistryAccepted && input.discoverabilityChecked then RegistryDiscoverable
    else if Published(input) then ActuallyPublished
    else if Ready(input) then ReadyToPublish
    else BlockedByProofGap
  }

  function AllGaps(input: Input): seq<Gap> {
    input.proofGaps + PrePublishGaps(input) + PostPublishGaps(input)
  }

  /** `projectPackageReleaseProof`, without the fields it copies. */
  method ProjectRelease(le: Collation, input: Input) returns (release: Release)
    ensures release == Release(StateFor(input), Dedupe(le, AllGaps(input)))
    ensures release.state.RegistryDiscoverable? ==> release.proofGaps == []
  {
    DiscoverableExactly(le, input);
    var prePublish := DerivedPrePublishProofGaps(input);
    var postPublish := DerivedPostPublishProofGaps(input);
    var gaps := DedupeProofGaps(le, input.proofGaps + prePublish + postPublish);
    release := Release(StateFor(input), gaps);
  }

  lemma NothingDeduped(le: Collation, gaps: seq<Gap>)
    ensures Dedupe(le, gaps) == [] <==> gaps == []
  {
    if gaps != [] {
      DedupeKeepsEveryCode(le, gaps, Codes(gaps)[0]);
      assert Codes(gaps)[0] in Codes(Dedupe(le, gaps));
    }
  }

  lemma NoPrePublishGaps(input: Input)
    ensures PrePublishGaps(input) == [] <==>
      && ShapePassed(input) && input.npmNamespace.Verified? && input.mcpNamespace.Verified?
      && input.twoFactor.Verified? && !input.publishTokenUnknown && !input.provenanceUnknown
  {
    assert |PrePublishGaps(input)| == |NamespaceGaps(input)| + |AccountGaps(input)|;
  }

  lemma NoPostPublishGaps(input: Input)
    ensures PostPublishGaps(input) == [] <==>
      input.npmPublished && input.cleanInstallSmoke && input.mcpRegistryAccepted && input.discoverabilityChecked
  {
    assert PostPublishGaps(input) == [] <==> |PostPublishGaps(input)| == 0;
  }

  /** A release is discoverable exactly when no gap is left and the four smoke checks for which
      there is no gap have passed; so a discoverable release lists no gap at all. */
  lemma DiscoverableExactly(le: Collation, input: Input)
    ensures StateFor(input).RegistryDiscoverable? <==>
      && Dedupe(le, AllGaps(input)) == []
      && input.localPackSmoke && input.proposalEvidenceSmoke
      && input.installedBinsSmoke && input.installedExportsSmoke
  {
    NothingDeduped(le, AllGaps(input));
    NoPrePublishGaps(input);
    NoPostPublishGaps(input);
    assert |AllGaps(input)| == |input.proofGaps| + |PrePublishGaps(input)| + |PostPublishGaps(input)|;
  }

  /** No gap is listed and yet the release is blocked by a proof gap exactly when the caller gave
      no gap, every piece of evidence that has a gap is in order, and the local pack or the
      proposal smoke check failed. */
  lemma BlockedWithoutGapExactly(le: Collation, input: Input)
    ensures StateFor(input).BlockedByProofGap? && Dedupe(le, AllGaps(input)) == [] <==>
      && input.proofGaps == []
      && ShapePassed(input) && input.npmNamespace.Verified? && input.mcpNamespace.Verified?
      && input.twoFactor.Verified? && !input.publishTokenUnknown && !input.provenanceUnknown
      && input.npmPublished && input.cleanInstallSmoke
      && input.mcpRegistryAccepted && input.discoverabilityChecked
      && (!input.localPackSmoke || !input.proposalEvidenceSmoke)
  {
    NothingDeduped(le, AllGaps(input));
    NoPrePublishGaps(input);
    NoPostPublishGaps(input);
    assert |AllGaps(input)| == |input.proofGaps| + |PrePublishGaps(input)| + |PostPublishGaps(input)|;
  }

  /** Such a release: everything passed but the local pack smoke check. */
  const UNPACKED: Input :=
    Input(seq(SHAPE_FLAGS, i => true), [], Verified, Verified, Verified, false, [], true, [], false, [], true, true, [],
          false, true, true, true, true, [], [])

  lemma BlockedWithoutGapHappens(le: Collation)
    ensures |UNPACKED.shape| == SHAPE_FLAGS
    ensures StateFor(UNPACKED).BlockedByProofGap? && Dedupe(le, AllGaps(UNPACKED)) == []
  {
    BlockedWithoutGapExactly(le, UNPACKED);
  }
}
