/** The x402 payment path: evidence becomes an attempt, the attempt becomes contract
    parameters, and a signing surface verifies the parameters before it signs. */
module X402Payment {
  import opened JsText
  import opened Decimal
  import opened JsonValues
  import opened Canonical
  import opened Digests
  import opened X402Evidence

  datatype BodyPosture = NoBody | DigestBound | Omitted | Unsupported
  datatype EnvironmentPosture = LocalReferenceSandbox | ExternalSandbox | Live | UnknownEnvironment
  datatype EvidenceProfile = OfficialPaymentRequired | LocalDigestProfile
  datatype IdentifierPosture = NotAdvertised | AdvertisedAbsent | Bound

  function BodyPostureText(p: BodyPosture): JsString {
    match p
    case NoBody => Js("no_body")
    case DigestBound => Js("digest_bound")
    case Omitted => Js("omitted")
    case Unsupported => Js("unsupported")
  }

  // --------------------------------------------------------------- evidence

  datatype IntendedRequest = IntendedRequest(
    httpMethod: JsString, url: JsString, bodyPosture: Option<BodyPosture>, bodyDigest: Option<JsString>,
    selectedHeadersDigest: JsString, environmentPosture: Option<EnvironmentPosture>,
    environmentRef: Option<JsString>)

  datatype Evidence = Evidence(
    packages: map<JsString, JsString>, intendedRequest: IntendedRequest, paymentRequired: PaymentRequired,
    selectedIndex: nat, selected: Requirement, selectedDigest: JsString)

  function SelectedDigest(hash: Hash, pr: PaymentRequired, index: int, selected: Requirement): JsString {
    MaterialsAreValues(pr, index, selected, []);
    DigestOf(hash, SelectedMaterial(pr, index, selected))
  }

  function RequiredDigest(hash: Hash, pr: PaymentRequired, index: int, selectedDigest: JsString): JsString {
    MaterialsAreValues(pr, index, Requirement([], [], [], [], [], 0, Null), selectedDigest);
    DigestOf(hash, RequiredMaterial(pr, index, selectedDigest))
  }

  function IdentifierDigest(hash: Hash, identifier: JsString): JsString {
    IdentifierMaterialIsValue(identifier);
    DigestOf(hash, IdentifierMaterial(identifier))
  }

  /** `decodeX402PaymentRequiredEvidence`; `None` is a thrown error. `decoded` is the header
      after `atob` and `JSON.parse`, when these do not throw. */
  function Decode(hash: Hash, packages: map<JsString, JsString>, intendedRequest: IntendedRequest,
                  decoded: Option<JsonValue>, index: int): Option<Evidence>
  {
    match decoded
    case None => None
    case Some(json) =>
      match ReadPaymentRequired(json)
      case None => None
      case Some(pr) =>
        if index < 0 || index >= |pr.accepts| then None
        else if pr.accepts[index].scheme != Js("exact") then None
        else Some(Evidence(packages, intendedRequest, pr, index, pr.accepts[index],
                           SelectedDigest(hash, pr, index, pr.accepts[index])))
  }

  // ---------------------------------------------------------------- attempt

  datatype Attempt = Attempt(
    endpointUrl: JsString, payee: JsString, network: JsString, token: JsString, atomicAmount: JsString,
    evidenceProfile: EvidenceProfile, paymentRequirementsDigest: JsString,
    paymentRequiredEvidenceRef: Option<JsString>, facilitatorRef: Option<JsString>,
    intendedHttpMethod: Option<JsString>, intendedRequestUrl: Option<JsString>,
    bodyPosture: BodyPosture, bodyDigest: Option<JsString>, selectedHeadersDigest: Option<JsString>,
    environmentPosture: EnvironmentPosture, environmentRef: Option<JsString>,
    x402Version: Option<int>, x402Scheme: Option<JsString>, asset: Option<JsString>, payTo: Option<JsString>,
    maxTimeoutSeconds: Option<int>, selectedIndex: Option<int>, selectedDigest: Option<JsString>,
    paymentIdentifier: Option<JsString>, paymentIdentifierRef: Option<JsString>,
    identifierPosture: IdentifierPosture, sdkPackageVersions: map<JsString, JsString>,
    extensionKeys: seq<JsString>, sequenceNumber: nat)

  datatype AttemptInput = AttemptInput(
    evidence: Evidence, facilitatorRef: Option<JsString>, paymentIdentifier: Option<JsString>,
    paymentIdentifierRef: Option<JsString>, sequenceNumber: Option<nat>)

  predicate IsAtomicAmount(s: JsString) {
    s != [] && AllDigits(s) && (s[0] == ZERO ==> |s| == 1)
  }

  predicate IsIdentifierUnit(u: CodeUnit) {
    48 <= u <= 57 || 65 <= u <= 90 || 97 <= u <= 122 || u == 95 || u == 45
  }

  predicate IsPaymentIdentifier(s: JsString) {
    16 <= |s| <= 128 && forall i :: 0 <= i < |s| ==> IsIdentifierUnit(s[i])
  }

  /** `requestBodyPostureFor`. An empty digest is falsy. */
  function BodyPostureFor(r: IntendedRequest): BodyPosture {
    match r.bodyPosture
    case Some(p) => p
    case None => if r.bodyDigest.Some? && r.bodyDigest.value != [] then DigestBound else NoBody
  }

  function GetOr<T>(o: Option<T>, default: T): T {
    if o.Some? then o.value else default
  }

  function Slice(s: JsString, from: nat, to: nat): JsString
    requires from <= to
  {
    if |s| <= from then [] else if |s| <= to then s[from..] else s[from..to]
  }

  /** `X402PaymentAttemptSchema.parse`, as far as later code relies on it; a URL is not empty. */
  predicate AttemptParses(a: Attempt) {
    && a.endpointUrl != [] && (a.intendedRequestUrl.Some? ==> a.intendedRequestUrl.value != [])
    && IsAtomicAmount(a.atomicAmount)
    && (a.paymentIdentifier.Some? ==> IsPaymentIdentifier(a.paymentIdentifier.value))
    && (a.x402Version.Some? ==> a.x402Version.value > 0)
    && (a.maxTimeoutSeconds.Some? ==> a.maxTimeoutSeconds.value > 0)
    && (a.selectedIndex.Some? ==> a.selectedIndex.value >= 0)
  }

  /** `buildX402PaymentAttemptFromRequiredEvidence`; `None` is a thrown parse error. */
  function BuildAttempt(hash: Hash, input: AttemptInput): Option<Attempt> {
    var e := input.evidence;
    var selected := e.selected;
    var identified := input.paymentIdentifier.Some? && input.paymentIdentifier.value != [];
    var attempt := Attempt(
      e.paymentRequired.resourceUrl, selected.payTo, selected.network, selected.asset, selected.amount,
      OfficialPaymentRequired, RequiredDigest(hash, e.paymentRequired, e.selectedIndex, e.selectedDigest),
      Some(Js("evidence:x402-payment-required:") + Slice(e.selectedDigest, 7, 23)), input.facilitatorRef,
      Some(e.intendedRequest.httpMethod), Some(e.intendedRequest.url),
      BodyPostureFor(e.intendedRequest), e.intendedRequest.bodyDigest,
      Some(e.intendedRequest.selectedHeadersDigest),
      GetOr(e.intendedRequest.environmentPosture, LocalReferenceSandbox), e.intendedRequest.environmentRef,
      Some(e.paymentRequired.x402Version), Some(selected.scheme), Some(selected.asset), Some(selected.payTo),
      Some(selected.maxTimeoutSeconds), Some(e.selectedIndex), Some(e.selectedDigest),
      input.paymentIdentifier,
      if identified then Some(GetOr(input.paymentIdentifierRef, Js("payment-identifier:gateway-bound"))) else None,
      if identified then Bound
      else if e.paymentRequired.advertisesIdentifier then AdvertisedAbsent else NotAdvertised,
      e.packages, e.paymentRequired.extensionKeys, GetOr(input.sequenceNumber, 1));
    if AttemptParses(attempt) then Some(attempt) else None
  }

  // ----------------------------------------------------------- refusal codes

  datatype RuntimeConfig = RuntimeConfig(
    runId: JsString, maxAtomicAmountPerCall: JsString, gatewayCredentialRefId: JsString,
    gatewayCredentialRefDigest: JsString, gatewayReadinessRef: JsString, gatewayReadinessDigest: JsString,
    policyVersionRef: JsString, policyVersionDigest: JsString)

  /** BigInt `compareAtomic`. */
  function CompareAtomic(left: JsString, right: JsString): int
    requires AllDigits(left) && AllDigits(right)
  {
    var l, r := ValueOf(left), ValueOf(right);
    if l == r then 0 else if l > r then 1 else -1
  }

  predicate OfficialEvidenceMissing(a: Attempt) {
    a.paymentRequiredEvidenceRef.None? || a.intendedHttpMethod.None? || a.intendedRequestUrl.None? ||
    a.selectedHeadersDigest.None? || a.x402Version.None? || a.x402Scheme != Some(Js("exact")) ||
    a.asset.None? || a.payTo.None? || a.maxTimeoutSeconds.None? || a.selectedIndex.None? ||
    a.selectedDigest.None? || |a.sdkPackageVersions| == 0
  }

  /** The attempts the runtime compiles: no ground for refusal. */
  predicate Compilable(config: RuntimeConfig, a: Attempt)
    requires IsAtomicAmount(config.maxAtomicAmountPerCall) && IsAtomicAmount(a.atomicAmount)
  {
    && ValueOf(a.atomicAmount) <= ValueOf(config.maxAtomicAmountPerCall)
    && (a.evidenceProfile.OfficialPaymentRequired? ==> !OfficialEvidenceMissing(a))
    && (a.bodyPosture.NoBody? || a.bodyPosture.DigestBound?)
    && (a.bodyPosture.DigestBound? <==> a.bodyDigest.Some?)
    && a.environmentPosture.LocalReferenceSandbox?
  }

  const AMOUNT_EXCEEDS: JsString := Js("x402_amount_exceeds_call_bound")
  const EVIDENCE_INCOMPLETE: JsString := Js("x402_official_payment_required_evidence_incomplete")
  const BODY_DIGEST_MISSING: JsString := Js("x402_request_body_digest_missing")
  const BODY_UNSUPPORTED: JsString := Js("x402_request_body_posture_unsupported")
  const BODY_MISMATCH: JsString := Js("x402_request_body_posture_mismatch")
  const NOT_SANDBOXED: JsString := Js("x402_provider_environment_not_sandboxed")

  function When(holds: bool, code: JsString): seq<JsString> {
    if holds then [code] else []
  }

  function BodyAndEnvironmentCodes(posture: BodyPosture, digest: Option<JsString>, environment: EnvironmentPosture)
    : seq<JsString>
  {
    When(posture.DigestBound? && digest.None?, BODY_DIGEST_MISSING) +
    When(posture.Omitted? || posture.Unsupported?, BODY_UNSUPPORTED) +
    When(posture.NoBody? && digest.Some?, BODY_MISMATCH) +
    When(!environment.LocalReferenceSandbox?, NOT_SANDBOXED)
  }

  function AmountAndEvidenceCodes(config: RuntimeConfig, a: Attempt): seq<JsString>
    requires IsAtomicAmount(config.maxAtomicAmountPerCall) && IsAtomicAmount(a.atomicAmount)
  {
    When(CompareAtomic(a.atomicAmount, config.maxAtomicAmountPerCall) > 0, AMOUNT_EXCEEDS) +
    When(a.evidenceProfile.OfficialPaymentRequired? && OfficialEvidenceMissing(a), EVIDENCE_INCOMPLETE)
  }

  function RefusalCodes(config: RuntimeConfig, a: Attempt): seq<JsString>
    requires IsAtomicAmount(config.maxAtomicAmountPerCall) && IsAtomicAmount(a.atomicAmount)
  {
    AmountAndEvidenceCodes(config, a) + BodyAndEnvironmentCodes(a.bodyPosture, a.bodyDigest, a.environmentPosture)
  }

  /** No code is reported exactly when there is no ground for refusal. */
  lemma NoCodesMeansCompilable(config: RuntimeConfig, a: Attempt)
    requires IsAtomicAmount(config.maxAtomicAmountPerCall) && IsAtomicAmount(a.atomicAmount)
    ensures RefusalCodes(config, a) == [] <==> Compilable(config, a)
  {
    assert |RefusalCodes(config, a)| == |AmountAndEvidenceCodes(config, a)|
      + |BodyAndEnvironmentCodes(a.bodyPosture, a.bodyDigest, a.environmentPosture)|;
  }

  /** The four checks shared by the runtime and the MCP proposal surface, as pushes. */
  method PushBodyAndEnvironmentCodes(pushed: seq<JsString>, posture: BodyPosture, digest: Option<JsString>,
                                     environment: EnvironmentPosture)
    returns (reasonCodes: seq<JsString>)
    ensures reasonCodes == pushed + BodyAndEnvironmentCodes(posture, digest, environment)
  {
    reasonCodes := pushed;
    if posture.DigestBound? && digest.None? {
      reasonCodes := reasonCodes + [BODY_DIGEST_MISSING];
    }
    if posture.Omitted? || posture.Unsupported? {
      reasonCodes := reasonCodes + [BODY_UNSUPPORTED];
    }
    if posture.NoBody? && digest.Some? {
      reasonCodes := reasonCodes + [BODY_MISMATCH];
    }
    if !environment.LocalReferenceSandbox? {
      reasonCodes := reasonCodes + [NOT_SANDBOXED];
    }
  }

  /** `x402PaymentAttemptRefusalReasonCodes`. */
  method RefusalReasonCodes(config: RuntimeConfig, a: Attempt) returns (codes: seq<JsString>)
    requires IsAtomicAmount(config.maxAtomicAmountPerCall) && IsAtomicAmount(a.atomicAmount)
    ensures codes == SortedUnique(RefusalCodes(config, a))
    ensures codes == [] <==> Compilable(config, a)
  {
    var reasonCodes: seq<JsString> := [];
    if CompareAtomic(a.atomicAmount, config.maxAtomicAmountPerCall) > 0 {
      reasonCodes := reasonCodes + [AMOUNT_EXCEEDS];
    }
    if a.evidenceProfile.OfficialPaymentRequired? && OfficialEvidenceMissing(a) {
      reasonCodes := reasonCodes + [EVIDENCE_INCOMPLETE];
    }
    assert reasonCodes == AmountAndEvidenceCodes(config, a);
    reasonCodes := PushBodyAndEnvironmentCodes(reasonCodes, a.bodyPosture, a.bodyDigest, a.environmentPosture);
    NoCodesMeansCompilable(config, a);
    codes := SortedUnique(reasonCodes);
  }

  // ------------------------------------------------------------- parameters

  datatype Parameters = Parameters(
    endpointUrl: JsString, endpointDomain: JsString, intendedHttpMethod: Option<JsString>,
    intendedRequestUrl: Option<JsString>, bodyPosture: BodyPosture, bodyDigest: Option<JsString>,
    selectedHeadersDigest: Option<JsString>, environmentPosture: EnvironmentPosture,
    environmentRef: Option<JsString>, x402Version: Option<int>, x402Scheme: Option<JsString>,
    payee: JsString, payTo: Option<JsString>, network: JsString, token: JsString, asset: Option<JsString>,
    atomicAmount: JsString, evidenceProfile: EvidenceProfile, paymentRequirementsDigest: JsString,
    selectedIndex: Option<int>, selectedDigest: Option<JsString>, maxTimeoutSeconds: Option<int>,
    identifierPosture: IdentifierPosture, paymentIdentifierRef: Option<JsString>,
    paymentIdentifierDigest: Option<JsString>, facilitatorRef: Option<JsString>,
    sdkPackageVersions: map<JsString, JsString>, extensionKeys: seq<JsString>,
    gatewayCredentialRefId: JsString, gatewayCredentialRefDigest: JsString,
    gatewayReadinessRef: JsString, gatewayReadinessDigest: JsString,
    policyVersionRef: JsString, policyVersionDigest: JsString)

  predicate Identified(a: Attempt) {
    a.paymentIdentifier.Some? && a.paymentIdentifier.value != []
  }

  /** `paymentIdentifierPostureForAttempt`. */
  function IdentifierPostureFor(a: Attempt): IdentifierPosture {
    if Identified(a) then Bound
    else if a.identifierPosture.AdvertisedAbsent? || Js("payment-identifier") in a.extensionKeys then AdvertisedAbsent
    else NotAdvertised
  }

  /** The `parameters` of `buildX402PaymentCompileIntentInputUnchecked`; `hostname` is
      `new URL(url).hostname`. */
  function BuildParameters(hash: Hash, hostname: JsString -> JsString, config: RuntimeConfig, a: Attempt): Parameters {
    Parameters(
      a.endpointUrl, hostname(a.endpointUrl), a.intendedHttpMethod, a.intendedRequestUrl, a.bodyPosture,
      a.bodyDigest, a.selectedHeadersDigest, a.environmentPosture, a.environmentRef, a.x402Version,
      a.x402Scheme, a.payee, a.payTo, a.network, a.token, a.asset, a.atomicAmount, a.evidenceProfile,
      a.paymentRequirementsDigest, a.selectedIndex, a.selectedDigest, a.maxTimeoutSeconds,
      IdentifierPostureFor(a), a.paymentIdentifierRef,
      if Identified(a) then Some(IdentifierDigest(hash, a.paymentIdentifier.value)) else None,
      a.facilitatorRef, a.sdkPackageVersions, a.extensionKeys,
      config.gatewayCredentialRefId, config.gatewayCredentialRefDigest, config.gatewayReadinessRef,
      config.gatewayReadinessDigest, config.policyVersionRef, config.policyVersionDigest)
  }

  // --------------------------------------------------------- signing surface

  /** What `createOfficialExactX402SigningSurface` closes over. */
  datatype Surface = Surface(
    paymentRequired: PaymentRequired, selectedIndex: int, selectedDigest: JsString,
    identifier: Option<JsString>)

  /** Creating the surface; `None` is a thrown error. An empty identifier is falsy. */
  function CreateSurface(json: JsonValue, index: int, digest: JsString, identifier: Option<JsString>): Option<Surface> {
    match ReadPaymentRequired(json)
    case None => None
    case Some(pr) =>
      if identifier.None? || identifier.value == [] then Some(Surface(pr, index, digest, None))
      else if !IsPaymentIdentifier(identifier.value) || !pr.advertisesIdentifier then None
      else Some(Surface(pr, index, digest, identifier))
  }

  datatype Verdict<+T> = Accepted(value: T) | Refused(reason: Drift)

  datatype Drift =
    | MissingBoundIdentifier | UnboundIdentifierPosture | IdentifierDigestDrift
    | NonOfficialEvidence | MissingBodyDigest | AmbiguousBodyPosture | BodyPostureMismatch
    | NonReferenceEnvironment | VersionDrift | NonExactScheme | EndpointDrift | IntendedRequestDrift
    | SelectedDigestDrift | SelectedIndexDrift | MissingSelectedRequirement | NonExactRequirement
    | SelectedDigestMismatch | PaymentRequiredDigestDrift | RequirementDrift

  function VerifyIdentifierBinding(hash: Hash, p: Parameters, identifier: Option<JsString>): Verdict<Option<JsString>> {
    match identifier
    case None => if p.identifierPosture.Bound? then Refused(MissingBoundIdentifier) else Accepted(None)
    case Some(id) =>
      if !p.identifierPosture.Bound? then Refused(UnboundIdentifierPosture)
      else if p.paymentIdentifierDigest != Some(IdentifierDigest(hash, id)) then Refused(IdentifierDigestDrift)
      else Accepted(Some(IdentifierDigest(hash, id)))
  }

  predicate RequirementMatchesParameters(r: Requirement, p: Parameters) {
    && r.scheme == Js("exact")
    && Some(r.scheme) == p.x402Scheme
    && r.network == p.network
    && Some(r.asset) == p.asset
    && r.asset == p.token
    && r.amount == p.atomicAmount
    && Some(r.payTo) == p.payTo
    && r.payTo == p.payee
    && Some(r.maxTimeoutSeconds) == p.maxTimeoutSeconds
  }

  /** `assertRequestBodyPosture` and `assertSandboxProviderEnvironment`. */
  function PostureDrift(p: Parameters): Option<Drift> {
    if p.bodyPosture.DigestBound? && p.bodyDigest.None? then Some(MissingBodyDigest)
    else if p.bodyPosture.Omitted? || p.bodyPosture.Unsupported? then Some(AmbiguousBodyPosture)
    else if p.bodyPosture.NoBody? && p.bodyDigest.Some? then Some(BodyPostureMismatch)
    else if !p.environmentPosture.LocalReferenceSandbox? then Some(NonReferenceEnvironment)
    else None
  }

  /** The checks of `verifyOfficialExactSigningInput` before the requirement is looked up. */
  function TermsDrift(s: Surface, p: Parameters): Option<Drift> {
    var pr := s.paymentRequired;
    if !p.evidenceProfile.OfficialPaymentRequired? then Some(NonOfficialEvidence)
    else if PostureDrift(p).Some? then PostureDrift(p)
    else if p.x402Version != Some(pr.x402Version) then Some(VersionDrift)
    else if p.x402Scheme != Some(Js("exact")) then Some(NonExactScheme)
    else if p.endpointUrl != pr.resourceUrl then Some(EndpointDrift)
    else if p.intendedRequestUrl.Some? && p.intendedRequestUrl.value != [] && p.intendedRequestUrl.value != pr.resourceUrl
      then Some(IntendedRequestDrift)
    else if p.selectedDigest != Some(s.selectedDigest) then Some(SelectedDigestDrift)
    else if p.selectedIndex != Some(s.selectedIndex) then Some(SelectedIndexDrift)
    else None
  }

  /** The checks on the selected requirement. */
  function SelectionDrift(hash: Hash, s: Surface, p: Parameters, selected: Requirement): Option<Drift> {
    var pr := s.paymentRequired;
    if selected.scheme != Js("exact") then Some(NonExactRequirement)
    else if s.selectedDigest != SelectedDigest(hash, pr, s.selectedIndex, selected) then Some(SelectedDigestMismatch)
    else if p.paymentRequirementsDigest != RequiredDigest(hash, pr, s.selectedIndex, s.selectedDigest)
      then Some(PaymentRequiredDigestDrift)
    else if !RequirementMatchesParameters(selected, p) then Some(RequirementDrift)
    else None
  }

  /** `verifyOfficialExactSigningInput`. */
  function VerifySigningInput(hash: Hash, s: Surface, p: Parameters): Verdict<Requirement> {
    var accepts := s.paymentRequired.accepts;
    if TermsDrift(s, p).Some? then Refused(TermsDrift(s, p).value)
    else if s.selectedIndex < 0 || s.selectedIndex >= |accepts| then Refused(MissingSelectedRequirement)
    else
      var selected := accepts[s.selectedIndex];
      if SelectionDrift(hash, s, p, selected).Some? then Refused(SelectionDrift(hash, s, p, selected).value)
      else Accepted(selected)
  }

  /** Both checks that precede signing. */
  predicate Accepts(hash: Hash, s: Surface, p: Parameters) {
    VerifyIdentifierBinding(hash, p, s.identifier).Accepted? && VerifySigningInput(hash, s, p).Accepted?
  }

  predicate RequirementMatches(l: Requirement, r: Requirement) {
    l.scheme == r.scheme && l.network == r.network && l.asset == r.asset && l.amount == r.amount &&
    l.payTo == r.payTo && l.maxTimeoutSeconds == r.maxTimeoutSeconds
  }

  /** The selection callback handed to the x402 client, on whatever requirements the client
      passes to it; `None` is a thrown drift error. */
  function SelectForClient(requirements: seq<Requirement>, index: int, selected: Requirement): Option<Requirement> {
    if index < 0 || index >= |requirements| then None
    else if !RequirementMatches(requirements[index], selected) then None
    else Some(requirements[index])
  }

  /** `bindPaymentIdentifier`; the clone through JSON text changes nothing. */
  function BindIdentifier(json: Json, identifier: JsString): Json
    requires json.Obj?
  {
    var extensions :=
      if Js("extensions") in Keys(json.fields) && Get(json.fields, Js("extensions")).Obj?
      then Get(json.fields, Js("extensions")).fields else [];
    var existing :=
      if Js("payment-identifier") in Keys(extensions) && Get(extensions, Js("payment-identifier")).Obj?
      then Get(extensions, Js("payment-identifier")).fields else [];
    var bound := Obj(SetField(existing, Js("paymentId"), Str(identifier)));
    Obj(SetField(json.fields, Js("extensions"), Obj(SetField(extensions, Js("payment-identifier"), bound))))
  }
}
