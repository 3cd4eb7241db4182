/** The keys of the object whose digest is the MCP idempotency key, in source order. They are
    told apart by their length and their first and last letters. */
module McpKeyNames {
  import opened JsText

  const KEYS: seq<JsString> := [
    Js("schemaVersion"), Js("tenantId"), Js("organizationId"), Js("principalId"), Js("agentId"),
    Js("operatingEnvelopeId"), Js("gatewayId"), Js("actionClass"), Js("endpointUrl"), Js("intendedHttpMethod"),
    Js("intendedRequestUrl"), Js("intendedRequestBodyPosture"), Js("intendedRequestBodyDigest"),
    Js("selectedHeadersDigest"), Js("providerEnvironmentPosture"), Js("providerEnvironmentRef"),
    Js("x402Version"), Js("x402Scheme"), Js("payee"), Js("payTo"), Js("network"), Js("token"), Js("asset"),
    Js("atomicAmount"), Js("paymentRequirementsDigest"), Js("selectedPaymentRequirementIndex"),
    Js("selectedPaymentRequirementDigest"), Js("serviceWorkflowContextRefs"), Js("delegatedAuthorityRefId"),
    Js("delegatedAuthorityRefDigest"), Js("delegatedAuthorityPolicyPackRef"),
    Js("delegatedAuthorityPolicyPackVersion"), Js("gatewayReadinessDigest"), Js("policyVersionDigest"),
    Js("sequenceNumber"), Js("requiredPriorActionContractIds")
  ]

  function Fingerprint(key: JsString): int
    requires key != []
  {
    |key| * 1000000 + (key[0] as int) * 1000 + key[|key| - 1]
  }

  const FINGERPRINTS: seq<int> := [
    13115110, 8116100, 14111100, 11112100, 7097100, 19111100, 9103100, 11097115, 11101108, 18105100, 18105108,
    26105101, 25105116, 21115116, 26112101, 22112102, 11120110, 10120101, 5112101, 5112111, 7110107, 5116110,
    5097116, 12097116, 25112116, 31115120, 32115116, 26115115, 23100100, 27100116, 31100102, 35100110,
    22103116, 19112116, 14115114, 30114115
  ]

  /** The position of a key, from its fingerprint. */
  function Rank(fp: int): nat {
    if fp == 13115110 then 0 else if fp == 8116100 then 1 else if fp == 14111100 then 2 else
    if fp == 11112100 then 3 else if fp == 7097100 then 4 else if fp == 19111100 then 5 else
    if fp == 9103100 then 6 else if fp == 11097115 then 7 else if fp == 11101108 then 8 else
    if fp == 18105100 then 9 else if fp == 18105108 then 10 else if fp == 26105101 then 11 else
    if fp == 25105116 then 12 else if fp == 21115116 then 13 else if fp == 26112101 then 14 else
    if fp == 22112102 then 15 else if fp == 11120110 then 16 else if fp == 10120101 then 17 else
    if fp == 5112101 then 18 else if fp == 5112111 then 19 else if fp == 7110107 then 20 else
    if fp == 5116110 then 21 else if fp == 5097116 then 22 else if fp == 12097116 then 23 else
    if fp == 25112116 then 24 else if fp == 31115120 then 25 else if fp == 32115116 then 26 else
    if fp == 26115115 then 27 else if fp == 23100100 then 28 else if fp == 27100116 then 29 else
    if fp == 31100102 then 30 else if fp == 35100110 then 31 else if fp == 22103116 then 32 else
    if fp == 19112116 then 33 else if fp == 14115114 then 34 else if fp == 30114115 then 35 else 36
  }

  lemma Fingerprints0()
    ensures Fingerprint(Js("schemaVersion")) == 13115110
    ensures Fingerprint(Js("tenantId")) == 8116100
    ensures Fingerprint(Js("organizationId")) == 14111100
    ensures Fingerprint(Js("principalId")) == 11112100
    ensures Fingerprint(Js("agentId")) == 7097100
    ensures Fingerprint(Js("operatingEnvelopeId")) == 19111100
    ensures Fingerprint(Js("gatewayId")) == 9103100
    ensures Fingerprint(Js("actionClass")) == 11097115
    ensures Fingerprint(Js("endpointUrl")) == 11101108
  {
  }

  lemma Fingerprints1()
    ensures Fingerprint(Js("intendedHttpMethod")) == 18105100
    ensures Fingerprint(Js("intendedRequestUrl")) == 18105108
    ensures Fingerprint(Js("intendedRequestBodyPosture")) == 26105101
    ensures Fingerprint(Js("intendedRequestBodyDigest")) == 25105116
    ensures Fingerprint(Js("selectedHeadersDigest")) == 21115116
    ensures Fingerprint(Js("providerEnvironmentPosture")) == 26112101
    ensures Fingerprint(Js("providerEnvironmentRef")) == 22112102
    ensures Fingerprint(Js("x402Version")) == 11120110
    ensures Fingerprint(Js("x402Scheme")) == 10120101
  {
  }

  lemma Fingerprints2()
    ensures Fingerprint(Js("payee")) == 5112101
    ensures Fingerprint(Js("payTo")) == 5112111
    ensures Fingerprint(Js("network")) == 7110107
    ensures Fingerprint(Js("token")) == 5116110
    ensures Fingerprint(Js("asset")) == 5097116
    ensures Fingerprint(Js("atomicAmount")) == 12097116
    ensures Fingerprint(Js("paymentRequirementsDigest")) == 25112116
    ensures Fingerprint(Js("selectedPaymentRequirementIndex")) == 31115120
    ensures Fingerprint(Js("selectedPaymentRequirementDigest")) == 32115116
  {
  }

  lemma Fingerprints3()
    ensures Fingerprint(Js("serviceWorkflowContextRefs")) == 26115115
    ensures Fingerprint(Js("delegatedAuthorityRefId")) == 23100100
    ensures Fingerprint(Js("delegatedAuthorityRefDigest")) == 27100116
    ensures Fingerprint(Js("delegatedAuthorityPolicyPackRef")) == 31100102
    ensures Fingerprint(Js("delegatedAuthorityPolicyPackVersion")) == 35100110
    ensures Fingerprint(Js("gatewayReadinessDigest")) == 22103116
    ensures Fingerprint(Js("policyVersionDigest")) == 19112116
    ensures Fingerprint(Js("sequenceNumber")) == 14115114
    ensures Fingerprint(Js("requiredPriorActionContractIds")) == 30114115
  {
  }

  lemma RanksInvert()
    ensures |FINGERPRINTS| == 36
    ensures forall i :: 0 <= i < 36 ==> Rank(FINGERPRINTS[i]) == i
  {
  }

  lemma KeysHaveFingerprints()
    ensures |KEYS| == 36
    ensures forall i :: 0 <= i < 36 ==> KEYS[i] != [] && Fingerprint(KEYS[i]) == FINGERPRINTS[i]
  {
    Fingerprints0();
    Fingerprints1();
    Fingerprints2();
    Fingerprints3();
  }

  lemma KeysDistinct()
    ensures |KEYS| == 36 && Distinct(KEYS)
  {
    RanksInvert();
    KeysHaveFingerprints();
    forall i, j | 0 <= i < j < |KEYS| ensures KEYS[i] != KEYS[j] {
      assert Rank(FINGERPRINTS[i]) == i && Rank(FINGERPRINTS[j]) == j;
    }
  }

  // The names in groups, in source order.

  function Names0(): seq<JsString> {
    [Js("schemaVersion"), Js("tenantId"), Js("organizationId"), Js("principalId"), Js("agentId"),
     Js("operatingEnvelopeId"), Js("gatewayId"), Js("actionClass"), Js("endpointUrl")]
  }

  function Names1(): seq<JsString> {
    [Js("intendedHttpMethod"), Js("intendedRequestUrl"), Js("intendedRequestBodyPosture"),
     Js("intendedRequestBodyDigest"), Js("selectedHeadersDigest"), Js("providerEnvironmentPosture"),
     Js("providerEnvironmentRef"), Js("x402Version"), Js("x402Scheme")]
  }

  function Names2(): seq<JsString> {
    [Js("payee"), Js("payTo"), Js("network"), Js("token"), Js("asset"), Js("atomicAmount"),
     Js("paymentRequirementsDigest"), Js("selectedPaymentRequirementIndex"),
     Js("selectedPaymentRequirementDigest")]
  }

  function Names3(): seq<JsString> {
    [Js("serviceWorkflowContextRefs"), Js("delegatedAuthorityRefId"), Js("delegatedAuthorityRefDigest"),
     Js("delegatedAuthorityPolicyPackRef"), Js("delegatedAuthorityPolicyPackVersion"),
     Js("gatewayReadinessDigest"), Js("policyVersionDigest"), Js("sequenceNumber"),
     Js("requiredPriorActionContractIds")]
  }

  lemma KeysInGroups()
    ensures KEYS == Names0() + Names1() + (Names2() + Names3())
  {
  }
}
