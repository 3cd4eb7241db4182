/** The keys of the object whose digest is the runtime's derived idempotency key, in source order,
    told apart as the MCP keys are. */
module RuntimeKeyNames {
  import opened JsText
  import McpKeyNames

  const KEYS: seq<JsString> := [
    Js("runId"), Js("endpointUrl"), Js("intendedHttpMethod"), Js("intendedRequestUrl"),
    Js("intendedRequestBodyPosture"), Js("intendedRequestBodyDigest"), Js("selectedHeadersDigest"),
    Js("providerEnvironmentPosture"), Js("providerEnvironmentRef"), Js("x402Version"), Js("x402Scheme"),
    Js("payee"), Js("payTo"), Js("network"), Js("token"), Js("asset"), Js("atomicAmount"),
    Js("x402EvidenceProfile"), Js("paymentRequirementsDigest"), Js("selectedPaymentRequirementIndex"),
    Js("selectedPaymentRequirementDigest"), Js("maxTimeoutSeconds"), Js("sdkPackageVersions"),
    Js("extensionKeys"), Js("gatewayCredentialRefDigest"), Js("gatewayReadinessDigest"),
    Js("policyVersionDigest"), Js("sequenceNumber")
  ]

  const FINGERPRINTS: seq<int> := [
    5114100, 11101108, 18105100, 18105108, 26105101, 25105116, 21115116, 26112101, 22112102, 11120110,
    10120101, 5112101, 5112111, 7110107, 5116110, 5097116, 12097116, 19120101, 25112116, 31115120, 32115116,
    17109115, 18115115, 13101115, 26103116, 22103116, 19112116, 14115114
  ]

  /** The position of a key, from its fingerprint. */
  function Rank(fp: int): nat {
    if fp == 5114100 then 0 else if fp == 11101108 then 1 else if fp == 18105100 then 2 else
    if fp == 18105108 then 3 else if fp == 26105101 then 4 else if fp == 25105116 then 5 else
    if fp == 21115116 then 6 else if fp == 26112101 then 7 else if fp == 22112102 then 8 else
    if fp == 11120110 then 9 else if fp == 10120101 then 10 else if fp == 5112101 then 11 else
    if fp == 5112111 then 12 else if fp == 7110107 then 13 else if fp == 5116110 then 14 else
    if fp == 5097116 then 15 else if fp == 12097116 then 16 else if fp == 19120101 then 17 else
    if fp == 25112116 then 18 else if fp == 31115120 then 19 else if fp == 32115116 then 20 else
    if fp == 17109115 then 21 else if fp == 18115115 then 22 else if fp == 13101115 then 23 else
    if fp == 26103116 then 24 else if fp == 22103116 then 25 else if fp == 19112116 then 26 else
    if fp == 14115114 then 27 else 28
  }

  lemma OwnFingerprints()
    ensures McpKeyNames.Fingerprint(Js("runId")) == 5114100
    ensures McpKeyNames.Fingerprint(Js("x402EvidenceProfile")) == 19120101
    ensures McpKeyNames.Fingerprint(Js("maxTimeoutSeconds")) == 17109115
    ensures McpKeyNames.Fingerprint(Js("sdkPackageVersions")) == 18115115
    ensures McpKeyNames.Fingerprint(Js("extensionKeys")) == 13101115
    ensures McpKeyNames.Fingerprint(Js("gatewayCredentialRefDigest")) == 26103116
  {
  }

  lemma RanksInvert()
    ensures |FINGERPRINTS| == 28
    ensures forall i :: 0 <= i < 28 ==> Rank(FINGERPRINTS[i]) == i
  {
  }

  lemma KeysHaveFingerprints()
    ensures |KEYS| == 28
    ensures forall i :: 0 <= i < 28 ==> KEYS[i] != [] && McpKeyNames.Fingerprint(KEYS[i]) == FINGERPRINTS[i]
  {
    McpKeyNames.Fingerprints0();
    McpKeyNames.Fingerprints1();
    McpKeyNames.Fingerprints2();
    McpKeyNames.Fingerprints3();
    OwnFingerprints();
  }

  lemma KeysDistinct()
    ensures |KEYS| == 28 && Distinct(KEYS)
  {
    RanksInvert();
    KeysHaveFingerprints();
    forall i, j | 0 <= i < j < |KEYS| ensures KEYS[i] != KEYS[j] {
      assert Rank(FINGERPRINTS[i]) == i && Rank(FINGERPRINTS[j]) == j;
    }
  }

  // The names in groups, in source order.

  function Names0(): seq<JsString> {
    [Js("runId"), Js("endpointUrl"), Js("intendedHttpMethod"), Js("intendedRequestUrl"),
     Js("intendedRequestBodyPosture"), Js("intendedRequestBodyDigest"), Js("selectedHeadersDigest")]
  }

  function Names1(): seq<JsString> {
    [Js("providerEnvironmentPosture"), Js("providerEnvironmentRef"), Js("x402Version"), Js("x402Scheme"),
     Js("payee"), Js("payTo"), Js("network")]
  }

  function Names2(): seq<JsString> {
    [Js("token"), Js("asset"), Js("atomicAmount"), Js("x402EvidenceProfile"), Js("paymentRequirementsDigest"),
     Js("selectedPaymentRequirementIndex"), Js("selectedPaymentRequirementDigest")]
  }

  function Names3(): seq<JsString> {
    [Js("maxTimeoutSeconds"), Js("sdkPackageVersions"), Js("extensionKeys"), Js("gatewayCredentialRefDigest"),
     Js("gatewayReadinessDigest"), Js("policyVersionDigest"), Js("sequenceNumber")]
  }

  lemma KeysInGroups()
    ensures KEYS == Names0() + Names1() + (Names2() + Names3())
  {
  }
}
