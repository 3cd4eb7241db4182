/** Which code or refusal of the x402 path stands for what, written out: the runtime's refusal codes,
    the checks of the signing surface, and the sandbox's retries
    (src/adapters/x402-payment/action-proposal.ts, src/adapters/x402-payment/wallet-gateway.ts,
    src/adapters/x402-payment/sandbox-http.ts). */
module X402Grounds {
  import opened JsText
  import opened Decimal
  import opened Digests
  import opened X402Evidence
  import opened X402Payment
  import opened X402WalletGateway
  import opened X402Sandbox

  // ----------------------------------------------------------- refusal codes

  predicate BodyOrEnvironmentGround(posture: BodyPosture, digest: Option<JsString>, environment: EnvironmentPosture,
                                    code: JsString) {
    || (code == Js("x402_request_body_digest_missing") && posture == DigestBound && digest == None)
    || (code == Js("x402_request_body_posture_unsupported") && (posture == Omitted || posture == Unsupported))
    || (code == Js("x402_request_body_posture_mismatch") && posture == NoBody && digest != None)
    || (code == Js("x402_provider_environment_not_sandboxed") && environment != LocalReferenceSandbox)
  }

  /** Evidence from an official PaymentRequired that lacks one of its parts. */
  predicate Lacks(a: Attempt) {
    || a.paymentRequiredEvidenceRef == None || a.intendedHttpMethod == None || a.intendedRequestUrl == None
    || a.selectedHeadersDigest == None || a.x402Version == None || a.x402Scheme == None
    || a.x402Scheme.value != Js("exact") || a.asset == None || a.payTo == None || a.maxTimeoutSeconds == None
    || a.selectedIndex == None || a.selectedDigest == None || a.sdkPackageVersions == map[]
  }

  predicate AmountOrEvidenceGround(bound: JsString, a: Attempt, code: JsString)
    requires AllDigits(bound) && AllDigits(a.atomicAmount)
  {
    || (code == Js("x402_amount_exceeds_call_bound") && ValueOf(a.atomicAmount) > ValueOf(bound))
    || (code == Js("x402_official_payment_required_evidence_incomplete")
        && a.evidenceProfile == OfficialPaymentRequired && Lacks(a))
  }

  lemma InBodyCodes(posture: BodyPosture, digest: Option<JsString>, environment: EnvironmentPosture, code: JsString)
    ensures code in BodyAndEnvironmentCodes(posture, digest, environment)
       <==> BodyOrEnvironmentGround(posture, digest, environment, code)
  {
  }

  lemma MissingIsLacking(a: Attempt)
    ensures OfficialEvidenceMissing(a) <==> Lacks(a)
  {
    assert |a.sdkPackageVersions| == 0 <==> a.sdkPackageVersions == map[];
  }

  lemma InAmountCodes(config: RuntimeConfig, a: Attempt, code: JsString)
    requires IsAtomicAmount(config.maxAtomicAmountPerCall) && IsAtomicAmount(a.atomicAmount)
    ensures code in AmountAndEvidenceCodes(config, a)
       <==> AmountOrEvidenceGround(config.maxAtomicAmountPerCall, a, code)
  {
    MissingIsLacking(a);
  }

  /** The runtime reports exactly the codes whose ground holds, in strictly ascending order. */
  lemma RefusedExactly(config: RuntimeConfig, a: Attempt, code: JsString)
    requires IsAtomicAmount(config.maxAtomicAmountPerCall) && IsAtomicAmount(a.atomicAmount)
    ensures code in SortedUnique(RefusalCodes(config, a)) <==>
      AmountOrEvidenceGround(config.maxAtomicAmountPerCall, a, code)
      || BodyOrEnvironmentGround(a.bodyPosture, a.bodyDigest, a.environmentPosture, code)
    ensures Ascending(SortedUnique(RefusalCodes(config, a)))
  {
    SortedUniqueAscends(RefusalCodes(config, a));
    InAmountCodes(config, a, code);
    InBodyCodes(a.bodyPosture, a.bodyDigest, a.environmentPosture, code);
  }

  lemma CodeLengths()
    ensures |AMOUNT_EXCEEDS| == 30 && |EVIDENCE_INCOMPLETE| == 50 && |BODY_DIGEST_MISSING| == 32
    ensures |BODY_UNSUPPORTED| == 37 && |BODY_MISMATCH| == 34 && |NOT_SANDBOXED| == 39
  {
  }

  lemma AmountCodeIsReported(config: RuntimeConfig, a: Attempt, code: JsString)
    requires IsAtomicAmount(config.maxAtomicAmountPerCall) && IsAtomicAmount(a.atomicAmount)
    requires code == AMOUNT_EXCEEDS || code == EVIDENCE_INCOMPLETE
    ensures code in SortedUnique(RefusalCodes(config, a))
       <==> AmountOrEvidenceGround(config.maxAtomicAmountPerCall, a, code)
  {
    CodeLengths();
    assert !BodyOrEnvironmentGround(a.bodyPosture, a.bodyDigest, a.environmentPosture, code);
    RefusedExactly(config, a, code);
  }

  lemma BodyCodeIsReported(config: RuntimeConfig, a: Attempt, code: JsString)
    requires IsAtomicAmount(config.maxAtomicAmountPerCall) && IsAtomicAmount(a.atomicAmount)
    requires code == BODY_DIGEST_MISSING || code == BODY_UNSUPPORTED || code == BODY_MISMATCH || code == NOT_SANDBOXED
    ensures code in SortedUnique(RefusalCodes(config, a))
       <==> BodyOrEnvironmentGround(a.bodyPosture, a.bodyDigest, a.environmentPosture, code)
  {
    CodeLengths();
    assert !AmountOrEvidenceGround(config.maxAtomicAmountPerCall, a, code);
    RefusedExactly(config, a, code);
  }

  /** Code by code. */
  lemma EachRefusal(config: RuntimeConfig, a: Attempt)
    requires IsAtomicAmount(config.maxAtomicAmountPerCall) && IsAtomicAmount(a.atomicAmount)
    ensures var codes := SortedUnique(RefusalCodes(config, a));
      && (Js("x402_amount_exceeds_call_bound") in codes
          <==> ValueOf(a.atomicAmount) > ValueOf(config.maxAtomicAmountPerCall))
      && (Js("x402_official_payment_required_evidence_incomplete") in codes
          <==> a.evidenceProfile == OfficialPaymentRequired && Lacks(a))
      && (Js("x402_request_body_digest_missing") in codes <==> a.bodyPosture == DigestBound && a.bodyDigest == None)
      && (Js("x402_request_body_posture_unsupported") in codes
          <==> a.bodyPosture == Omitted || a.bodyPosture == Unsupported)
      && (Js("x402_request_body_posture_mismatch") in codes <==> a.bodyPosture == NoBody && a.bodyDigest != None)
      && (Js("x402_provider_environment_not_sandboxed") in codes <==> a.environmentPosture != LocalReferenceSandbox)
  {
    CodeLengths();
    AmountCodeIsReported(config, a, AMOUNT_EXCEEDS);
    AmountCodeIsReported(config, a, EVIDENCE_INCOMPLETE);
    BodyCodeIsReported(config, a, BODY_DIGEST_MISSING);
    BodyCodeIsReported(config, a, BODY_UNSUPPORTED);
    BodyCodeIsReported(config, a, BODY_MISMATCH);
    BodyCodeIsReported(config, a, NOT_SANDBOXED);
  }

  // ------------------------------------------------------- the signing surface

  /** The terms of the parameters are those of a requirement. */
  predicate Agrees(r: Requirement, p: Parameters) {
    && r.scheme == Js("exact") && p.x402Scheme == Some(Js("exact"))
    && p.network == r.network && p.asset == Some(r.asset) && p.token == r.asset && p.atomicAmount == r.amount
    && p.payTo == Some(r.payTo) && p.payee == r.payTo && p.maxTimeoutSeconds == Some(r.maxTimeoutSeconds)
  }

  predicate InOrder(p: Parameters) {
    && p.evidenceProfile == OfficialPaymentRequired && p.environmentPosture == LocalReferenceSandbox
    && ((p.bodyPosture == DigestBound && p.bodyDigest != None) || (p.bodyPosture == NoBody && p.bodyDigest == None))
  }

  predicate ForResource(s: Surface, p: Parameters) {
    && p.x402Version == Some(s.paymentRequired.x402Version) && p.endpointUrl == s.paymentRequired.resourceUrl
    && (p.intendedRequestUrl == None || p.intendedRequestUrl.value == []
        || p.intendedRequestUrl.value == s.paymentRequired.resourceUrl)
    && p.selectedIndex == Some(s.selectedIndex) && p.selectedDigest == Some(s.selectedDigest)
  }

  lemma TermsPass(s: Surface, p: Parameters)
    ensures TermsDrift(s, p).None? <==> InOrder(p) && ForResource(s, p) && p.x402Scheme == Some(Js("exact"))
  {
  }

  lemma SelectionPasses(hash: Hash, s: Surface, p: Parameters, r: Requirement)
    ensures SelectionDrift(hash, s, p, r).None? <==>
      && Agrees(r, p)
      && s.selectedDigest == SelectedDigest(hash, s.paymentRequired, s.selectedIndex, r)
      && p.paymentRequirementsDigest == RequiredDigest(hash, s.paymentRequired, s.selectedIndex, s.selectedDigest)
  {
  }

  /** The signing input is accepted exactly when everything agrees; what is accepted is the
      requirement at the surface's index. */
  lemma AcceptedExactly(hash: Hash, s: Surface, p: Parameters)
    ensures VerifySigningInput(hash, s, p).Accepted? <==>
      && InOrder(p) && ForResource(s, p) && 0 <= s.selectedIndex < |s.paymentRequired.accepts|
      && Agrees(s.paymentRequired.accepts[s.selectedIndex], p)
      && s.selectedDigest
         == SelectedDigest(hash, s.paymentRequired, s.selectedIndex, s.paymentRequired.accepts[s.selectedIndex])
      && p.paymentRequirementsDigest == RequiredDigest(hash, s.paymentRequired, s.selectedIndex, s.selectedDigest)
    ensures VerifySigningInput(hash, s, p).Accepted? ==>
      VerifySigningInput(hash, s, p).value == s.paymentRequired.accepts[s.selectedIndex]
  {
    TermsPass(s, p);
    if 0 <= s.selectedIndex < |s.paymentRequired.accepts| {
      SelectionPasses(hash, s, p, s.paymentRequired.accepts[s.selectedIndex]);
    }
  }

  /** The binding of an identifier is accepted exactly when both sides have the same one or none. */
  lemma BindingAcceptedExactly(hash: Hash, p: Parameters, identifier: Option<JsString>)
    ensures VerifyIdentifierBinding(hash, p, identifier).Accepted? <==>
      if identifier == None then p.identifierPosture != Bound
      else p.identifierPosture == Bound && p.paymentIdentifierDigest == Some(IdentifierDigest(hash, identifier.value))
    ensures VerifyIdentifierBinding(hash, p, identifier).Accepted? ==>
      VerifyIdentifierBinding(hash, p, identifier).value
      == (if identifier == None then None else Some(IdentifierDigest(hash, identifier.value)))
  {
  }

  /** A reason given for a refusal of the terms is the first that applies. */
  lemma TermsReason(s: Surface, p: Parameters)
    ensures TermsDrift(s, p) == Some(NonOfficialEvidence) <==> p.evidenceProfile != OfficialPaymentRequired
    ensures TermsDrift(s, p) == Some(NonReferenceEnvironment) ==> p.environmentPosture != LocalReferenceSandbox
    ensures TermsDrift(s, p) == Some(VersionDrift)
       <==> InOrder(p) && p.x402Version != Some(s.paymentRequired.x402Version)
    ensures TermsDrift(s, p) == Some(EndpointDrift) <==>
      && InOrder(p) && p.x402Version == Some(s.paymentRequired.x402Version) && p.x402Scheme == Some(Js("exact"))
      && p.endpointUrl != s.paymentRequired.resourceUrl
    ensures TermsDrift(s, p) == Some(IntendedRequestDrift) <==>
      && InOrder(p) && p.x402Version == Some(s.paymentRequired.x402Version) && p.x402Scheme == Some(Js("exact"))
      && p.endpointUrl == s.paymentRequired.resourceUrl
      && p.intendedRequestUrl != None && p.intendedRequestUrl.value != []
      && p.intendedRequestUrl.value != s.paymentRequired.resourceUrl
  {
  }

  /** The client's selection goes through exactly when the requirement at the index has the six
      verified terms. */
  lemma SelectedExactly(requirements: seq<Requirement>, index: int, r: Requirement)
    ensures SelectForClient(requirements, index, r).Some? <==>
      && 0 <= index < |requirements|
      && requirements[index].scheme == r.scheme && requirements[index].network == r.network
      && requirements[index].asset == r.asset && requirements[index].amount == r.amount
      && requirements[index].payTo == r.payTo && requirements[index].maxTimeoutSeconds == r.maxTimeoutSeconds
    ensures SelectForClient(requirements, index, r).Some? ==>
      SelectForClient(requirements, index, r).value == requirements[index]
  {
  }

  /** What the official surface signs, and what it says of it. */
  predicate SignatureOf(c: Command, identifierDigest: Option<JsString>, signatureDigest: JsString,
                        payloadDigest: JsString, e: SignatureEvidence) {
    var id := c.gate.gateAttemptId;
    && e.evidenceRef == Js("evidence:x402-official-payment-signature:") + id
    && e.surfaceOperationRef == c.gate.surfaceOperationRef
    && e.headerRef == Js("credential:x402-payment-signature:") + id && e.signatureDigest == signatureDigest
    && e.payloadRef == Some(Js("credential:x402-payment-payload:") + id) && e.payloadDigest == Some(payloadDigest)
    && e.identifierRef == (if identifierDigest == None then None else Some(Js("payment-identifier:x402:") + id))
    && e.identifierDigest == identifierDigest
    && e.status == PaymentUnknown && e.paymentResponseEvidenceRef == None
    && e.providerRequestRef == Some(Js("provider-request:x402:") + id)
    && e.providerOperationRef == Some(Js("provider-operation:x402:") + id) && e.additionalEvidenceRefs == []
  }

  /** The official surface signs exactly when the command is in custody, both checks accept, and the
      client selects the verified requirement and returns a header. */
  lemma SignedExactly(hash: Hash, s: Surface, c: Command, answer: ClientAnswer)
    ensures OfficialSign(hash, s, c, answer).Some? <==>
      && HeldByGateway(c) && VerifyIdentifierBinding(hash, c.parameters, s.identifier).Accepted?
      && VerifySigningInput(hash, s, c.parameters).Accepted?
      && answer.ClientSigns? && answer.paymentSignature != []
      && SelectForClient(answer.requirements, s.selectedIndex,
                         VerifySigningInput(hash, s, c.parameters).value).Some?
    ensures OfficialSign(hash, s, c, answer).Some? ==>
      SignatureOf(c, VerifyIdentifierBinding(hash, c.parameters, s.identifier).value, answer.signatureDigest,
                  answer.payloadDigest, OfficialSign(hash, s, c, answer).value)
  {
  }

  // ------------------------------------------------------------- the sandbox

  /** A retry is recorded exactly when it is signed under the right header, for the reference
      environment and with a body posture; else the first of these that is missing is the reason. */
  lemma RetriedExactly(s: SandboxState, p: Parameters, e: RetryEvidence)
    ensures RetryAnswer(s, p, e).RetryRecorded? <==>
      && e == HeaderEvidence(true) && p.environmentPosture == LocalReferenceSandbox
      && (p.bodyPosture == NoBody || p.bodyPosture == DigestBound)
    ensures RetryAnswer(s, p, e).RetryRefused? ==>
      RetryAnswer(s, p, e).retryCount == s.signedRetryCount
      && RetryAnswer(s, p, e).reason == (
           if e == NoEvidence then MissingSignatureEvidence
           else if e == HeaderEvidence(false) then InvalidSignatureHeader
           else if p.environmentPosture != LocalReferenceSandbox then NonReferenceEnvironmentRetry
           else AmbiguousBodyPostureRetry)
    ensures RetryAnswer(s, p, e).RetryRecorded? ==>
      RetryAnswer(s, p, e).retryCount == s.signedRetryCount + 1
      && RetryAnswer(s, p, e).refs == s.refs
      && RetryAnswer(s, p, e).signedRetryEvidenceRef
         == Js("evidence:x402-local-sandbox-signed-retry:") + Digits(s.signedRetryCount + 1)
  {
  }

  /** And what the sandbox is like afterwards. */
  lemma AfterRetryIs(s: SandboxState, p: Parameters, e: RetryEvidence)
    ensures var t, answer := AfterRetry(s, p, e), RetryAnswer(s, p, e);
      && t.refs == s.refs && t.challengeCount == s.challengeCount && t.lastRetry == Some(answer)
      && (answer.RetryRefused? ==> t.signedRetryCount == s.signedRetryCount && t.recorded == s.recorded)
      && (answer.RetryRecorded? ==>
            t.signedRetryCount == s.signedRetryCount + 1 && t.recorded == s.recorded + [answer])
  {
  }

  /** The official surface's evidence, with the sandbox's own word for success. */
  predicate Confirms(signed: SignatureEvidence, refs: SandboxRefs, count: nat, e: SignatureEvidence) {
    && e.status == PaymentSucceeded && e.paymentResponseEvidenceRef == Some(refs.paymentResponseEvidenceRef)
    && e.providerRequestRef == Some(refs.providerRequestRef)
    && e.providerOperationRef == Some(refs.providerOperationRef)
    && e.additionalEvidenceRefs == [Js("evidence:x402-local-sandbox-signed-retry:") + Digits(count)]
    && e.evidenceRef == signed.evidenceRef && e.surfaceOperationRef == signed.surfaceOperationRef
    && e.headerRef == signed.headerRef && e.signatureDigest == signed.signatureDigest
    && e.payloadRef == signed.payloadRef && e.payloadDigest == signed.payloadDigest
    && e.identifierRef == signed.identifierRef && e.identifierDigest == signed.identifierDigest
  }

  lemma RetryConfirms(signed: SignatureEvidence, s: SandboxState, p: Parameters)
    requires RetryAnswer(s, p, HeaderEvidence(true)).RetryRecorded?
    ensures Confirms(signed, s.refs, s.signedRetryCount + 1, WithRetry(signed, RetryAnswer(s, p, HeaderEvidence(true))))
  {
  }

  lemma RepliesWithRetry(hash: Hash, s: Surface, sandbox: SandboxState, c: Command, answer: ClientAnswer)
    ensures var signed := OfficialSign(hash, s, c, answer);
      var retry := RetryAnswer(sandbox, c.parameters, HeaderEvidence(true));
      SandboxSign(hash, s, sandbox, c, answer).1
      == if signed.Some? && retry.RetryRecorded? then SignReply(WithRetry(signed.value, retry)) else Threw
  {
  }

  /** Through the sandbox, a signed payment is confirmed with the next retry's number. */
  lemma SandboxReplyIs(hash: Hash, s: Surface, sandbox: SandboxState, c: Command, answer: ClientAnswer)
    ensures SandboxSign(hash, s, sandbox, c, answer).1.SignReply? ==>
      && OfficialSign(hash, s, c, answer).Some?
      && Confirms(OfficialSign(hash, s, c, answer).value, sandbox.refs, sandbox.signedRetryCount + 1,
                  SandboxSign(hash, s, sandbox, c, answer).1.signature)
  {
    RepliesWithRetry(hash, s, sandbox, c, answer);
    var signed := OfficialSign(hash, s, c, answer);
    if signed.Some? && RetryAnswer(sandbox, c.parameters, HeaderEvidence(true)).RetryRecorded? {
      RetryConfirms(signed.value, sandbox, c.parameters);
    }
  }

  /** The refs a sandbox reports when none are configured. */
  lemma DefaultRefs()
    ensures RefsFor(None, None, None)
         == SandboxRefs(Js("evidence:x402-local-sandbox-payment-response"), Js("provider-request:x402-local-sandbox"),
                        Js("provider-operation:x402-local-sandbox"))
    ensures forall a, b, c :: RefsFor(Some(a), Some(b), Some(c)) == SandboxRefs(a, b, c)
  {
  }
}
