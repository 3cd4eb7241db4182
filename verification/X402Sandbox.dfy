/** The local paid-HTTP sandbox, the official signing surface, and the sandbox surface that
    puts the one behind the other. */
module X402Sandbox {
  import opened JsText
  import opened Decimal
  import opened Digests
  import opened X402Evidence
  import opened X402Payment
  import opened X402WalletGateway

  // ----------------------------------------------------- official signing

  /** What the foreign x402 client does when asked for a payload: it throws, or calls the
      selection callback with some requirements and signs; the header may be missing. */
  datatype ClientAnswer =
    | ClientThrows
    | ClientSigns(requirements: seq<Requirement>, paymentSignature: JsString, payloadDigest: JsString,
                  signatureDigest: JsString)

  /** `signPayment` of the official surface; `None` is a throw. */
  function OfficialSign(hash: Hash, s: Surface, c: Command, answer: ClientAnswer): Option<SignatureEvidence> {
    var gate := c.gate.gateAttemptId;
    if !HeldByGateway(c) then None
    else if VerifyIdentifierBinding(hash, c.parameters, s.identifier).Refused? then None
    else
      match VerifySigningInput(hash, s, c.parameters)
      case Refused(_) => None
      case Accepted(selected) =>
        match answer
        case ClientThrows => None
        case ClientSigns(requirements, signature, payloadDigest, signatureDigest) =>
          if SelectForClient(requirements, s.selectedIndex, selected).None? || signature == [] then None
          else
            var identifierDigest := VerifyIdentifierBinding(hash, c.parameters, s.identifier).value;
            Some(SignatureEvidence(
              Js("evidence:x402-official-payment-signature:") + gate, c.gate.surfaceOperationRef,
              Js("credential:x402-payment-signature:") + gate, signatureDigest,
              Some(Js("credential:x402-payment-payload:") + gate), Some(payloadDigest),
              if identifierDigest.Some? then Some(Js("payment-identifier:x402:") + gate) else None, identifierDigest,
              PaymentUnknown, None, Some(Js("provider-request:x402:") + gate),
              Some(Js("provider-operation:x402:") + gate), []))
  }

  // ------------------------------------------------------------- sandbox

  datatype RetryRefusal =
    | MissingSignatureEvidence | InvalidSignatureHeader | NonReferenceEnvironmentRetry | AmbiguousBodyPostureRetry

  /** The refs a sandbox reports of every recorded retry. */
  datatype SandboxRefs = SandboxRefs(
    paymentResponseEvidenceRef: JsString, providerRequestRef: JsString, providerOperationRef: JsString)

  /** The refs of a sandbox from those configured; an empty ref is kept. */
  function RefsFor(response: Option<JsString>, request: Option<JsString>, operation: Option<JsString>): SandboxRefs {
    SandboxRefs(GetOr(response, Js("evidence:x402-local-sandbox-payment-response")),
                GetOr(request, Js("provider-request:x402-local-sandbox")),
                GetOr(operation, Js("provider-operation:x402-local-sandbox")))
  }

  datatype RetryResult =
    | RetryRecorded(retryCount: nat, signedRetryEvidenceRef: JsString, refs: SandboxRefs)
    | RetryRefused(reason: RetryRefusal, retryCount: nat)

  /** The sandbox's refs and counters, and every retry it has recorded. */
  datatype SandboxState = SandboxState(
    refs: SandboxRefs, challengeCount: nat, signedRetryCount: nat, lastRetry: Option<RetryResult>, recorded: seq<RetryResult>)

  /** A signed retry as it arrives: no evidence, or evidence under some header name. */
  datatype RetryEvidence = NoEvidence | HeaderEvidence(isPaymentSignature: bool)

  function RetryGround(p: Parameters, e: RetryEvidence): Option<RetryRefusal> {
    if e.NoEvidence? then Some(MissingSignatureEvidence)
    else if !e.isPaymentSignature then Some(InvalidSignatureHeader)
    else if !p.environmentPosture.LocalReferenceSandbox? then Some(NonReferenceEnvironmentRetry)
    else if p.bodyPosture.Omitted? || p.bodyPosture.Unsupported? then Some(AmbiguousBodyPostureRetry)
    else None
  }

  function RetryAnswer(s: SandboxState, p: Parameters, e: RetryEvidence): RetryResult {
    match RetryGround(p, e)
    case Some(reason) => RetryRefused(reason, s.signedRetryCount)
    case None =>
      RetryRecorded(s.signedRetryCount + 1,
                    Js("evidence:x402-local-sandbox-signed-retry:") + Digits(s.signedRetryCount + 1), s.refs)
  }

  function AfterRetry(s: SandboxState, p: Parameters, e: RetryEvidence): SandboxState {
    var r := RetryAnswer(s, p, e);
    if r.RetryRefused? then s.(lastRetry := Some(r))
    else s.(signedRetryCount := s.signedRetryCount + 1, lastRetry := Some(r), recorded := s.recorded + [r])
  }

  /** Recorded retries are numbered 1, 2, 3, ... and the counter is the last number. */
  predicate Numbered(s: SandboxState) {
    && s.signedRetryCount == |s.recorded|
    && forall i :: 0 <= i < |s.recorded| ==> s.recorded[i].RetryRecorded? && s.recorded[i].retryCount == i + 1
  }

  class LocalSandbox {
    const packages: map<JsString, JsString>
    const intendedRequest: IntendedRequest
    const decodedHeader: Option<JsonValue>
    const selectedIndex: int
    const refs: SandboxRefs
    var challengeCount: nat
    var signedRetryCount: nat
    var lastRetry: Option<RetryResult>
    ghost var recorded: seq<RetryResult>

    ghost function State(): SandboxState
      reads this
    {
      SandboxState(refs, challengeCount, signedRetryCount, lastRetry, recorded)
    }

    constructor (packages: map<JsString, JsString>, intendedRequest: IntendedRequest,
                 decodedHeader: Option<JsonValue>, selectedIndex: int, response: Option<JsString>,
                 request: Option<JsString>, operation: Option<JsString>)
      ensures State() == SandboxState(RefsFor(response, request, operation), 0, 0, None, []) && Numbered(State())
      ensures this.packages == packages && this.intendedRequest == intendedRequest
      ensures this.decodedHeader == decodedHeader && this.selectedIndex == selectedIndex
    {
      this.packages, this.intendedRequest := packages, intendedRequest;
      this.decodedHeader, this.selectedIndex := decodedHeader, selectedIndex;
      this.refs := RefsFor(response, request, operation);
      challengeCount, signedRetryCount, lastRetry, recorded := 0, 0, None, [];
    }

    /** `requestPaymentRequired`: the challenge is counted even if decoding then throws. */
    method RequestPaymentRequired(hash: Hash) returns (evidence: Option<Evidence>)
      modifies this
      ensures State() == old(State()).(challengeCount := old(challengeCount) + 1)
      ensures evidence == Decode(hash, packages, intendedRequest, decodedHeader, selectedIndex)
    {
      challengeCount := challengeCount + 1;
      evidence := Decode(hash, packages, intendedRequest, decodedHeader, selectedIndex);
    }

    method RecordSignedRetry(p: Parameters, e: RetryEvidence) returns (result: RetryResult)
      modifies this
      ensures State() == AfterRetry(old(State()), p, e)
      ensures result == RetryAnswer(old(State()), p, e)
      ensures old(Numbered(State())) ==> Numbered(State())
      ensures signedRetryCount == old(signedRetryCount) + if result.RetryRecorded? then 1 else 0
    {
      if e.NoEvidence? {
        result := RetryRefused(MissingSignatureEvidence, signedRetryCount);
        lastRetry := Some(result);
        return;
      }
      if !e.isPaymentSignature {
        result := RetryRefused(InvalidSignatureHeader, signedRetryCount);
        lastRetry := Some(result);
        return;
      }
      if !p.environmentPosture.LocalReferenceSandbox? {
        result := RetryRefused(NonReferenceEnvironmentRetry, signedRetryCount);
        lastRetry := Some(result);
        return;
      }
      if p.bodyPosture.Omitted? || p.bodyPosture.Unsupported? {
        result := RetryRefused(AmbiguousBodyPostureRetry, signedRetryCount);
        lastRetry := Some(result);
        return;
      }
      signedRetryCount := signedRetryCount + 1;
      result := RetryRecorded(signedRetryCount,
                              Js("evidence:x402-local-sandbox-signed-retry:") + Digits(signedRetryCount), refs);
      lastRetry := Some(result);
      recorded := recorded + [result];
    }
  }

  // ------------------------------------------- the surface over the sandbox

  function WithRetry(e: SignatureEvidence, r: RetryResult): SignatureEvidence
    requires r.RetryRecorded?
  {
    e.(status := PaymentSucceeded,
       paymentResponseEvidenceRef := Some(r.refs.paymentResponseEvidenceRef),
       providerRequestRef := Some(r.refs.providerRequestRef),
       providerOperationRef := Some(r.refs.providerOperationRef),
       additionalEvidenceRefs := [r.signedRetryEvidenceRef])
  }

  /** `signPayment` of the sandbox surface: the sandbox it leaves, and its reply. */
  function SandboxSign(hash: Hash, s: Surface, sandbox: SandboxState, c: Command, answer: ClientAnswer)
    : (SandboxState, Reply)
  {
    match OfficialSign(hash, s, c, answer)
    case None => (sandbox, Threw)
    case Some(evidence) =>
      var retry := RetryAnswer(sandbox, c.parameters, HeaderEvidence(true));
      (AfterRetry(sandbox, c.parameters, HeaderEvidence(true)),
       if retry.RetryRecorded? then SignReply(WithRetry(evidence, retry)) else Threw)
  }

  method SignThroughSandbox(sandbox: LocalSandbox, hash: Hash, s: Surface, c: Command, answer: ClientAnswer)
    returns (reply: Reply)
    modifies sandbox
    ensures (sandbox.State(), reply) == SandboxSign(hash, s, old(sandbox.State()), c, answer)
  {
    var evidence := OfficialSign(hash, s, c, answer);
    if evidence.None? {
      return Threw;
    }
    var retry := sandbox.RecordSignedRetry(c.parameters, HeaderEvidence(true));
    if retry.RetryRecorded? {
      reply := SignReply(WithRetry(evidence.value, retry));
    } else {
      reply := Threw;
    }
  }

  /** Through the official surface the sandbox never refuses: whatever the surface signs is
      recorded, with the next number, and the reply reports success and cites that number. */
  lemma SignedMeansRecorded(hash: Hash, s: Surface, sandbox: SandboxState, c: Command, answer: ClientAnswer)
    ensures var signed := OfficialSign(hash, s, c, answer);
      var (after, reply) := SandboxSign(hash, s, sandbox, c, answer);
      && (signed.None? ==> after == sandbox && reply == Threw)
      && (signed.Some? ==>
            after.signedRetryCount == sandbox.signedRetryCount + 1 && |after.recorded| == |sandbox.recorded| + 1
            && reply.SignReply? && reply.signature.status.PaymentSucceeded?
            && after.lastRetry.Some? && after.lastRetry.value.RetryRecorded?
            && reply.signature.additionalEvidenceRefs == [after.lastRetry.value.signedRetryEvidenceRef])
      && (signed.Some? ==> HeldByGateway(c) && Accepts(hash, s, c.parameters))
  {
    if OfficialSign(hash, s, c, answer).Some? {
      assert VerifySigningInput(hash, s, c.parameters).Accepted?;
      assert PostureDrift(c.parameters).None?;
    }
  }

  /** Signing adds at most one recorded retry, and keeps the numbering. */
  lemma SigningRecordsAtMostOne(hash: Hash, s: Surface, sandbox: SandboxState, c: Command, answer: ClientAnswer)
    requires Numbered(sandbox)
    ensures Numbered(SandboxSign(hash, s, sandbox, c, answer).0)
    ensures |SandboxSign(hash, s, sandbox, c, answer).0.recorded| <= |sandbox.recorded| + 1
  {
    RetriesStayNumbered(sandbox, c.parameters, HeaderEvidence(true));
  }

  lemma RetriesStayNumbered(s: SandboxState, p: Parameters, e: RetryEvidence)
    requires Numbered(s)
    ensures Numbered(AfterRetry(s, p, e))
    ensures RetryAnswer(s, p, e).RetryRefused? ==>
      AfterRetry(s, p, e).signedRetryCount == s.signedRetryCount && AfterRetry(s, p, e).recorded == s.recorded
  {
  }
}
