/** What the wallet gateway binds its recording of the credential to: the digest of the gate and of
    the payment it verified (src/adapters/x402-payment/wallet-gateway.ts). */
module X402RequestDigest {
  import opened JsText
  import opened JsonValues
  import opened Digests
  import opened X402Payment
  import opened X402WalletGateway
  import opened X402RunProofs
  import opened McpIdempotency
  import McpKeyNames
  import RuntimeKeyNames

  const KEYS: seq<JsString> := [
    Js("profile"), Js("actionContractId"), Js("gateAttemptId"), Js("gatewayCredentialRefDigest"), Js("endpointUrl"),
    Js("intendedHttpMethod"), Js("intendedRequestUrl"), Js("intendedRequestBodyPosture"),
    Js("intendedRequestBodyDigest"), Js("selectedHeadersDigest"), Js("paymentRequirementsDigest"),
    Js("selectedPaymentRequirementIndex"), Js("selectedPaymentRequirementDigest"), Js("paymentIdentifierDigest"),
    Js("gatewayReadinessDigest"), Js("policyVersionDigest")
  ]

  // The names in groups, in source order.

  function Names0(): seq<JsString> {
    [Js("profile"), Js("actionContractId"), Js("gateAttemptId"), Js("gatewayCredentialRefDigest"),
     Js("endpointUrl"), Js("intendedHttpMethod"), Js("intendedRequestUrl"), Js("intendedRequestBodyPosture")]
  }

  function Names1(): seq<JsString> {
    [Js("intendedRequestBodyDigest"), Js("selectedHeadersDigest"), Js("paymentRequirementsDigest"),
     Js("selectedPaymentRequirementIndex"), Js("selectedPaymentRequirementDigest"),
     Js("paymentIdentifierDigest"), Js("gatewayReadinessDigest"), Js("policyVersionDigest")]
  }

  lemma KeysInGroups()
    ensures KEYS == Names0() + Names1()
  {
  }

  const FINGERPRINTS: seq<int> := [
    7112101, 16097100, 13103100, 26103116, 11101108, 18105100, 18105108, 26105101, 25105116, 21115116, 25112116,
    31115120, 32115116, 23112116, 22103116, 19112116
  ]

  lemma KeysHaveFingerprints()
    ensures |KEYS| == 16
    ensures forall i :: 0 <= i < 16 ==> KEYS[i] != [] && McpKeyNames.Fingerprint(KEYS[i]) == FINGERPRINTS[i]
  {
    McpKeyNames.Fingerprints0();
    McpKeyNames.Fingerprints1();
    McpKeyNames.Fingerprints2();
    McpKeyNames.Fingerprints3();
    RuntimeKeyNames.OwnFingerprints();
    assert McpKeyNames.Fingerprint(Js("profile")) == 7112101;
    assert McpKeyNames.Fingerprint(Js("actionContractId")) == 16097100;
    assert McpKeyNames.Fingerprint(Js("gateAttemptId")) == 13103100;
    assert McpKeyNames.Fingerprint(Js("paymentIdentifierDigest")) == 23112116;
  }

  lemma FingerprintsDiffer()
    ensures |FINGERPRINTS| == 16
    ensures forall i, j :: 0 <= i < j < 16 ==> FINGERPRINTS[i] != FINGERPRINTS[j]
  {
  }

  lemma KeysDistinct()
    ensures |KEYS| == 16 && Distinct(KEYS)
  {
    FingerprintsDiffer();
    KeysHaveFingerprints();
    forall i, j | 0 <= i < j < |KEYS| ensures KEYS[i] != KEYS[j] {
      assert FINGERPRINTS[i] != FINGERPRINTS[j];
    }
  }

  // The values of the digested object, in source order, eight at a time.

  function Values0(p: Parameters, gate: VerifiedGate): seq<Json> {
    [Str(Js("x402_credential_resolution_request.v0")), Str(gate.actionContractId), Str(gate.gateAttemptId),
     Str(p.gatewayCredentialRefDigest), Str(p.endpointUrl), NullableStr(p.intendedHttpMethod),
     NullableStr(p.intendedRequestUrl), Str(BodyPostureText(p.bodyPosture))]
  }

  function Values1(p: Parameters): seq<Json> {
    [NullableStr(p.bodyDigest), NullableStr(p.selectedHeadersDigest), Str(p.paymentRequirementsDigest),
     NullableNumber(p.selectedIndex), NullableStr(p.selectedDigest), NullableStr(p.paymentIdentifierDigest),
     Str(p.gatewayReadinessDigest), Str(p.policyVersionDigest)]
  }

  /** The object that `credentialResolutionRequestDigest` digests. */
  function Request(p: Parameters, gate: VerifiedGate): (v: Json)
    ensures Canonicalizable(v)
  {
    KeysDistinct();
    RecordIsCanonicalizable(KEYS, Values0(p, gate) + Values1(p));
    Record(KEYS, Values0(p, gate) + Values1(p))
  }

  /** `credentialResolutionRequestDigest`. */
  function RequestDigest(hash: Hash, p: Parameters): VerifiedGate -> JsString {
    gate => DigestOf(hash, Request(p, gate))
  }

  lemma FailureKeysDistinct()
    ensures Distinct([Js("adapter"), Js("surfaceOperationRef")])
  {
    assert |Js("adapter")| == 7 && |Js("surfaceOperationRef")| == 19;
  }

  /** The object that a failed reconciliation digests. */
  function Failure(surfaceOperationRef: JsString): (v: Json)
    ensures Canonicalizable(v)
  {
    var keys := [Js("adapter"), Js("surfaceOperationRef")];
    var values := [Str(Js("x402-wallet-gateway")), Str(surfaceOperationRef)];
    FailureKeysDistinct();
    RecordIsCanonicalizable(keys, values);
    Record(keys, values)
  }

  /** The run that `runX402WalletGateway` makes of its arguments. */
  function WalletInput(hash: Hash, actionContractId: JsString, greenlightId: JsString, p: Parameters,
                       surfaceOperationRef: Option<JsString>): Input {
    var ref := GetOr(surfaceOperationRef, Js("surface-op:x402:") + actionContractId);
    Input(actionContractId, greenlightId, p, surfaceOperationRef, RequestDigest(hash, p), DigestOf(hash, Failure(ref)))
  }

  /** Agreement on everything the request digest is meant to depend on. */
  predicate RequestedAlike(p: Parameters, gate: VerifiedGate, q: Parameters, other: VerifiedGate) {
    Agree0(p, gate, q, other) && Agree1(p, q)
  }

  predicate Agree0(p: Parameters, gate: VerifiedGate, q: Parameters, other: VerifiedGate) {
    && gate.actionContractId == other.actionContractId && gate.gateAttemptId == other.gateAttemptId
    && p.gatewayCredentialRefDigest == q.gatewayCredentialRefDigest && p.endpointUrl == q.endpointUrl
    && p.intendedHttpMethod == q.intendedHttpMethod && p.intendedRequestUrl == q.intendedRequestUrl
    && p.bodyPosture == q.bodyPosture
  }

  predicate Agree1(p: Parameters, q: Parameters) {
    && p.bodyDigest == q.bodyDigest && p.selectedHeadersDigest == q.selectedHeadersDigest
    && p.paymentRequirementsDigest == q.paymentRequirementsDigest && p.selectedIndex == q.selectedIndex
    && p.selectedDigest == q.selectedDigest && p.paymentIdentifierDigest == q.paymentIdentifierDigest
    && p.gatewayReadinessDigest == q.gatewayReadinessDigest && p.policyVersionDigest == q.policyVersionDigest
  }

  lemma EightSame(v: seq<Json>, w: seq<Json>)
    requires |v| == |w| == 8
    ensures AllSame(v, w) <==> Same(v[0], w[0]) && Same(v[1], w[1]) && Same(v[2], w[2]) && Same(v[3], w[3])
                               && Same(v[4], w[4]) && Same(v[5], w[5]) && Same(v[6], w[6]) && Same(v[7], w[7])
  {
  }

  lemma Values0Same(p: Parameters, gate: VerifiedGate, q: Parameters, other: VerifiedGate)
    ensures AllSame(Values0(p, gate), Values0(q, other)) <==> Agree0(p, gate, q, other)
  {
    PostureTextsDiffer(p.bodyPosture, q.bodyPosture);
    EightSame(Values0(p, gate), Values0(q, other));
  }

  lemma Values1Same(p: Parameters, q: Parameters)
    ensures AllSame(Values1(p), Values1(q)) <==> Agree1(p, q)
  {
    EightSame(Values1(p), Values1(q));
  }

  lemma RequestsSame(p: Parameters, gate: VerifiedGate, q: Parameters, other: VerifiedGate)
    ensures Same(Request(p, gate), Request(q, other)) <==> RequestedAlike(p, gate, q, other)
  {
    KeysDistinct();
    RecordsAgree(KEYS, Values0(p, gate) + Values1(p), Values0(q, other) + Values1(q));
    AllSameConcat(Values0(p, gate), Values1(p), Values0(q, other), Values1(q));
    Values0Same(p, gate, q, other);
    Values1Same(p, q);
  }

  predicate NoRequestCollision(hash: Hash, p: Parameters, gate: VerifiedGate, q: Parameters, other: VerifiedGate) {
    NoCollision(hash, Request(p, gate), Request(q, other))
  }

  /** An input as `runX402WalletGateway` makes it. */
  ghost predicate IsWalletInput(hash: Hash, input: Input) {
    input == WalletInput(hash, input.actionContractId, input.greenlightId, input.parameters, input.surfaceOperationRef)
  }

  lemma RecordedDigest(hash: Hash, input: Input, replies: seq<Reply>)
    requires IsWalletInput(hash, input) && GateOf(Run(input, replies)[0]).Some?
    ensures |Run(input, replies)| >= 2 && Run(input, replies)[1].call.RecordCredential?
    ensures Run(input, replies)[1].call.requestDigest
         == DigestOf(hash, Request(input.parameters, GateOf(Run(input, replies)[0]).value))
  {
    NoGateNoCalls(input, replies);
    VerifiedRun(input, replies);
    var gate := GateOf(Run(input, replies)[0]).value;
    FromRecord(input, gate, Tail(replies));
    assert Run(input, replies)[1] == Run(input, replies)[1..][0];
  }

  /** Any two runs with verified gates record one request digest exactly when they are for one
      gate attempt and contract, and for one payment. */
  lemma RecordingsAreBound(hash: Hash, one: Input, replies: seq<Reply>, two: Input, others: seq<Reply>)
    requires IsWalletInput(hash, one) && IsWalletInput(hash, two)
    requires GateOf(Run(one, replies)[0]).Some? && GateOf(Run(two, others)[0]).Some?
    requires NoRequestCollision(hash, one.parameters, GateOf(Run(one, replies)[0]).value,
                                two.parameters, GateOf(Run(two, others)[0]).value)
    ensures |Run(one, replies)| >= 2 && Run(one, replies)[1].call.RecordCredential?
    ensures |Run(two, others)| >= 2 && Run(two, others)[1].call.RecordCredential?
    ensures Run(one, replies)[1].call.requestDigest == Run(two, others)[1].call.requestDigest <==>
      RequestedAlike(one.parameters, GateOf(Run(one, replies)[0]).value,
                     two.parameters, GateOf(Run(two, others)[0]).value)
  {
    RecordedDigest(hash, one, replies);
    RecordedDigest(hash, two, others);
    var gate, other := GateOf(Run(one, replies)[0]).value, GateOf(Run(two, others)[0]).value;
    DigestDecidesSameness(hash, Request(one.parameters, gate), Request(two.parameters, other));
    RequestsSame(one.parameters, gate, two.parameters, other);
  }
}
