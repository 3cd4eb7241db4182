/** The x402 parameters written out: where each field of built parameters comes from, and what a
    gateway records of them (src/adapters/x402-payment/action-proposal.ts,
    src/adapters/x402-payment/wallet-gateway.ts). */
module X402Built {
  import opened JsText
  import opened Canonical
  import opened Digests
  import opened X402Evidence
  import opened X402Payment
  import opened X402WalletGateway
  import opened X402RunProofs
  import opened X402Calls

  /** The six fields that come from the runtime's configuration. */
  predicate BoundTo(p: Parameters, config: RuntimeConfig) {
    && p.gatewayCredentialRefId == config.gatewayCredentialRefId
    && p.gatewayCredentialRefDigest == config.gatewayCredentialRefDigest
    && p.gatewayReadinessRef == config.gatewayReadinessRef
    && p.gatewayReadinessDigest == config.gatewayReadinessDigest
    && p.policyVersionRef == config.policyVersionRef
    && p.policyVersionDigest == config.policyVersionDigest
  }

  /** The fields that repeat the attempt. */
  predicate Repeats(p: Parameters, a: Attempt) {
    && p.endpointUrl == a.endpointUrl
    && p.intendedHttpMethod == a.intendedHttpMethod && p.intendedRequestUrl == a.intendedRequestUrl
    && p.bodyPosture == a.bodyPosture && p.bodyDigest == a.bodyDigest
    && p.selectedHeadersDigest == a.selectedHeadersDigest
    && p.environmentPosture == a.environmentPosture && p.environmentRef == a.environmentRef
    && p.x402Version == a.x402Version && p.x402Scheme == a.x402Scheme
    && p.payee == a.payee && p.payTo == a.payTo && p.network == a.network && p.token == a.token
    && p.asset == a.asset && p.atomicAmount == a.atomicAmount && p.evidenceProfile == a.evidenceProfile
    && p.paymentRequirementsDigest == a.paymentRequirementsDigest
    && p.selectedIndex == a.selectedIndex && p.selectedDigest == a.selectedDigest
    && p.maxTimeoutSeconds == a.maxTimeoutSeconds && p.paymentIdentifierRef == a.paymentIdentifierRef
    && p.facilitatorRef == a.facilitatorRef && p.sdkPackageVersions == a.sdkPackageVersions
    && p.extensionKeys == a.extensionKeys
  }

  /** For every configuration and attempt: what built parameters say. */
  lemma BuiltParametersAre(hash: Hash, hostname: JsString -> JsString, config: RuntimeConfig, a: Attempt)
    ensures var p := BuildParameters(hash, hostname, config, a);
      && BoundTo(p, config) && Repeats(p, a) && p.endpointDomain == hostname(a.endpointUrl)
      && (p.identifierPosture == Bound <==> a.paymentIdentifier.Some? && a.paymentIdentifier.value != [])
      && (p.identifierPosture == AdvertisedAbsent <==>
            && (a.paymentIdentifier.None? || a.paymentIdentifier.value == [])
            && (a.identifierPosture == AdvertisedAbsent || Js("payment-identifier") in a.extensionKeys))
      && p.paymentIdentifierDigest
         == (if a.paymentIdentifier.Some? && a.paymentIdentifier.value != []
             then Some(IdentifierDigest(hash, a.paymentIdentifier.value)) else None)
  {
  }

  /** What is said of the request that is intended. A body digest without a posture means that the
      body is bound by it. */
  predicate Intends(p: Parameters, r: IntendedRequest) {
    && p.intendedHttpMethod == Some(r.httpMethod) && p.intendedRequestUrl == Some(r.url)
    && p.bodyDigest == r.bodyDigest && p.selectedHeadersDigest == Some(r.selectedHeadersDigest)
    && p.environmentRef == r.environmentRef
    && (match r.bodyPosture
        case Some(posture) => p.bodyPosture == posture
        case None =>
          (p.bodyPosture == DigestBound <==> r.bodyDigest.Some? && r.bodyDigest.value != [])
          && (p.bodyPosture == NoBody <==> r.bodyDigest.None? || r.bodyDigest.value == []))
    && (match r.environmentPosture
        case Some(posture) => p.environmentPosture == posture
        case None => p.environmentPosture == LocalReferenceSandbox)
  }

  /** What is said of the requirement that was selected. */
  predicate Pays(p: Parameters, selected: Requirement) {
    && p.payee == selected.payTo && p.payTo == Some(selected.payTo) && p.network == selected.network
    && p.token == selected.asset && p.asset == Some(selected.asset) && p.atomicAmount == selected.amount
    && p.x402Scheme == Some(selected.scheme) && p.maxTimeoutSeconds == Some(selected.maxTimeoutSeconds)
  }

  lemma AttemptIntends(hash: Hash, hostname: JsString -> JsString, input: AttemptInput, config: RuntimeConfig)
    requires BuildAttempt(hash, input).Some?
    ensures Intends(BuildParameters(hash, hostname, config, BuildAttempt(hash, input).value),
                    input.evidence.intendedRequest)
  {
  }

  lemma AttemptPays(hash: Hash, hostname: JsString -> JsString, input: AttemptInput, config: RuntimeConfig)
    requires BuildAttempt(hash, input).Some?
    ensures Pays(BuildParameters(hash, hostname, config, BuildAttempt(hash, input).value), input.evidence.selected)
  {
  }

  /** From evidence to parameters: the request that is intended, the requirement that was selected,
      the identifier, and the rest of the evidence. */
  lemma BuiltFromEvidence(hash: Hash, hostname: JsString -> JsString, input: AttemptInput, config: RuntimeConfig)
    requires BuildAttempt(hash, input).Some?
    ensures var e := input.evidence;
      var p := BuildParameters(hash, hostname, config, BuildAttempt(hash, input).value);
      && Intends(p, e.intendedRequest) && Pays(p, e.selected) && BoundTo(p, config)
      && p.endpointUrl == e.paymentRequired.resourceUrl
      && p.endpointDomain == hostname(e.paymentRequired.resourceUrl)
      && p.x402Version == Some(e.paymentRequired.x402Version) && p.evidenceProfile == OfficialPaymentRequired
      && p.selectedIndex == Some(e.selectedIndex) && p.selectedDigest == Some(e.selectedDigest)
      && p.facilitatorRef == input.facilitatorRef && p.sdkPackageVersions == e.packages
      && p.extensionKeys == e.paymentRequired.extensionKeys
  {
    AttemptIntends(hash, hostname, input, config);
    AttemptPays(hash, hostname, input, config);
  }

  /** And the identifier. */
  lemma IdentifierFromEvidence(hash: Hash, hostname: JsString -> JsString, input: AttemptInput, config: RuntimeConfig)
    requires BuildAttempt(hash, input).Some?
    ensures var p := BuildParameters(hash, hostname, config, BuildAttempt(hash, input).value);
      match input.paymentIdentifier
      case None =>
        && p.paymentIdentifierRef == None && p.paymentIdentifierDigest == None && p.identifierPosture != Bound
        && (p.identifierPosture == AdvertisedAbsent <==>
              input.evidence.paymentRequired.advertisesIdentifier
              || Js("payment-identifier") in input.evidence.paymentRequired.extensionKeys)
      case Some(id) =>
        && p.identifierPosture == Bound && p.paymentIdentifierDigest == Some(IdentifierDigest(hash, id))
        && p.paymentIdentifierRef == Some(match input.paymentIdentifierRef
             case Some(ref) => ref
             case None => Js("payment-identifier:gateway-bound"))
  {
    var a := BuildAttempt(hash, input).value;
    assert a.paymentIdentifier == input.paymentIdentifier;
    assert input.paymentIdentifier.Some? ==> IsPaymentIdentifier(input.paymentIdentifier.value);
  }

  /** An identifier: 16 to 128 letters, digits, underscores and hyphens. */
  predicate Identifies(s: JsString) {
    && 16 <= |s| <= 128
    && forall i :: 0 <= i < |s| ==>
         48 <= s[i] <= 57 || 65 <= s[i] <= 90 || 97 <= s[i] <= 122 || s[i] == 45 || s[i] == 95
  }

  /** An amount: digits, without a leading zero but for zero itself. */
  predicate Amounts(s: JsString) {
    && s != [] && (forall i :: 0 <= i < |s| ==> 48 <= s[i] <= 57)
    && (s[0] == 48 ==> s == [48])
  }

  /** When an attempt is built from evidence at all. */
  lemma AttemptIsBuilt(hash: Hash, input: AttemptInput)
    ensures var e := input.evidence;
      BuildAttempt(hash, input).Some? <==>
        && e.paymentRequired.resourceUrl != [] && e.intendedRequest.url != [] && Amounts(e.selected.amount)
        && (input.paymentIdentifier.Some? ==> Identifies(input.paymentIdentifier.value))
        && e.paymentRequired.x402Version > 0 && e.selected.maxTimeoutSeconds > 0
  {
    assert Amounts(input.evidence.selected.amount) <==> IsAtomicAmount(input.evidence.selected.amount);
    assert input.paymentIdentifier.Some? ==>
      (Identifies(input.paymentIdentifier.value) <==> IsPaymentIdentifier(input.paymentIdentifier.value));
  }

  lemma SixteenDigits(digest: JsString)
    requires |digest| >= 23
    ensures Slice(digest, 7, 23) == digest[7..23]
  {
  }

  /** The fields of an attempt that the parameters do not repeat. */
  lemma AttemptAlsoSays(hash: Hash, input: AttemptInput)
    requires BuildAttempt(hash, input).Some? && |input.evidence.selectedDigest| >= 23
    ensures var a := BuildAttempt(hash, input).value;
      && a.sequenceNumber == (match input.sequenceNumber case Some(n) => n case None => 1)
      && a.paymentRequiredEvidenceRef
         == Some(Js("evidence:x402-payment-required:") + input.evidence.selectedDigest[7..23])
  {
    SixteenDigits(input.evidence.selectedDigest);
  }

  /** A gateway that runs on built parameters records the readiness and the policy of the
      configuration they were built with, and its credential. */
  lemma RecordedConfiguration(hash: Hash, hostname: JsString -> JsString, config: RuntimeConfig, a: Attempt,
                              input: Input, replies: seq<Reply>)
    requires input.parameters == BuildParameters(hash, hostname, config, a)
    requires GateOf(Run(input, replies)[0]).Some?
    ensures |Run(input, replies)| >= 2
    ensures var c := Run(input, replies)[1].call;
      && c.RecordCredential?
      && c.gatewayCredentialRefId == config.gatewayCredentialRefId
      && c.gatewayCredentialRefDigest == config.gatewayCredentialRefDigest
      && c.evidenceRefs
         == [Js("gateway_credential_ref:") + config.gatewayCredentialRefId,
             Js("digest:") + config.gatewayCredentialRefDigest,
             Js("digest:") + config.gatewayReadinessDigest, Js("digest:") + config.policyVersionDigest]
  {
    BuiltParametersAre(hash, hostname, config, a);
    RunsAreWrittenOut(input, replies);
    var t := Run(input, replies);
    assert t[1] == t[1..][0];
  }
}
