/** What the wallet gateway's credential request and the evidence digests are taken of, entry by entry
    (src/adapters/x402-payment/wallet-gateway.ts, src/adapters/x402-payment/upstream-evidence.ts). */
module X402RequestFields {
  import opened JsText
  import opened JsonValues
  import opened Digests
  import opened X402Evidence
  import opened X402Payment
  import opened X402RequestDigest
  import opened DigestedTexts
  import opened Canonical
  import opened X402RunProofs
  import X402Calls
  import X402WalletGateway

  function Entries0(p: Parameters, gate: X402WalletGateway.VerifiedGate): seq<Field> {
    [Field(Js("profile"), Str(Js("x402_credential_resolution_request.v0"))),
     Field(Js("actionContractId"), Str(gate.actionContractId)),
     Field(Js("gateAttemptId"), Str(gate.gateAttemptId)),
     Field(Js("gatewayCredentialRefDigest"), Str(p.gatewayCredentialRefDigest)),
     Field(Js("endpointUrl"), Str(p.endpointUrl)),
     Field(Js("intendedHttpMethod"), OrNull(p.intendedHttpMethod)),
     Field(Js("intendedRequestUrl"), OrNull(p.intendedRequestUrl)),
     Field(Js("intendedRequestBodyPosture"), Str(PostureName(p.bodyPosture)))]
  }

  lemma EntriesAre0(p: Parameters, gate: X402WalletGateway.VerifiedGate)
    ensures |Values0(p, gate)| == 8 && Zip(Names0(), Values0(p, gate)) == Entries0(p, gate)
  {
    var zipped, entries := Zip(Names0(), Values0(p, gate)), Entries0(p, gate);
    assert |zipped| == |entries|;
  }

  function Entries1(p: Parameters): seq<Field> {
    [Field(Js("intendedRequestBodyDigest"), OrNull(p.bodyDigest)),
     Field(Js("selectedHeadersDigest"), OrNull(p.selectedHeadersDigest)),
     Field(Js("paymentRequirementsDigest"), Str(p.paymentRequirementsDigest)),
     Field(Js("selectedPaymentRequirementIndex"), NumberOrNull(p.selectedIndex)),
     Field(Js("selectedPaymentRequirementDigest"), OrNull(p.selectedDigest)),
     Field(Js("paymentIdentifierDigest"), OrNull(p.paymentIdentifierDigest)),
     Field(Js("gatewayReadinessDigest"), Str(p.gatewayReadinessDigest)),
     Field(Js("policyVersionDigest"), Str(p.policyVersionDigest))]
  }

  lemma EntriesAre1(p: Parameters)
    ensures |Values1(p)| == 8 && Zip(Names1(), Values1(p)) == Entries1(p)
  {
    var zipped, entries := Zip(Names1(), Values1(p)), Entries1(p);
    assert |zipped| == |entries|;
  }

  /** The credential request digests the gate and the payment, each value under its own name. */
  lemma RequestDigests(p: Parameters, gate: X402WalletGateway.VerifiedGate)
    ensures Request(p, gate) == Obj(Entries0(p, gate) + Entries1(p))
  {
    KeysInGroups();
    EntriesAre0(p, gate);
    EntriesAre1(p);
    ZipConcat(Names0(), Values0(p, gate), Names1(), Values1(p));
  }

  /** A failed reconciliation digests the adapter's name and the operation. */
  lemma FailureDigests(surfaceOperationRef: JsString)
    ensures Failure(surfaceOperationRef)
         == Obj([Field(Js("adapter"), Str(Js("x402-wallet-gateway"))),
                 Field(Js("surfaceOperationRef"), Str(surfaceOperationRef))])
  {
  }

  /** Every verified run of a gateway records the digest of exactly this text, and would report a
      failure under the digest of exactly that one. */
  lemma RecordedTexts(hash: Hash, input: X402WalletGateway.Input, replies: seq<X402WalletGateway.Reply>)
    requires IsWalletInput(hash, input) && GateOf(Run(input, replies)[0]).Some?
    ensures |Run(input, replies)| >= 2 && Run(input, replies)[1].call.RecordCredential?
    ensures var p, gate := input.parameters, GateOf(Run(input, replies)[0]).value;
      Run(input, replies)[1].call.requestDigest == hash(CanonicalText(Obj(Entries0(p, gate) + Entries1(p))))
    ensures input.failureDigest
         == hash(CanonicalText(Obj([Field(Js("adapter"), Str(Js("x402-wallet-gateway"))),
                                    Field(Js("surfaceOperationRef"), Str(X402Calls.OperationRef(input)))])))
  {
    RecordedDigest(hash, input, replies);
    RequestDigests(input.parameters, GateOf(Run(input, replies)[0]).value);
    FailureDigests(X402Calls.OperationRef(input));
  }

  /** The digests of the evidence are taken of the whole PaymentRequired, the index, and the
      requirement or its digest. */
  lemma EvidenceDigests(pr: PaymentRequired, index: int, selected: Requirement, digest: JsString)
    ensures SelectedMaterial(pr, index, selected)
         == Obj([Field(Js("paymentRequired"), pr.json), Field(Js("selectedPaymentRequirementIndex"), Number(index)),
                 Field(Js("selectedPaymentRequirement"), selected.json)])
    ensures RequiredMaterial(pr, index, digest)
         == Obj([Field(Js("paymentRequired"), pr.json), Field(Js("selectedPaymentRequirementIndex"), Number(index)),
                 Field(Js("selectedPaymentRequirementDigest"), Str(digest))])
  {
  }

  /** An identifier's, of the identifier under its extension. */
  lemma IdentifierDigests(identifier: JsString)
    ensures IdentifierMaterial(identifier)
         == Obj([Field(Js("paymentIdentifier"), Str(identifier)),
                 Field(Js("paymentIdentifierExtension"), Str(Js("payment-identifier")))])
  {
  }
}
