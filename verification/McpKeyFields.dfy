/** What the MCP idempotency key digests under which name, entry by entry
    (src/mcp/x402-proposal.ts). */
module McpKeyFields {
  import opened JsText
  import opened JsonValues
  import opened Digests
  import opened X402Payment
  import opened McpIdempotency
  import opened DigestedTexts
  import McpKeyNames

  function Entries0(k: KeyedFields): seq<Field> {
    [Field(Js("schemaVersion"), Str(Js("handshake.mcp.x402.idempotency.v1"))),
     Field(Js("tenantId"), Str(k.tenantId)), Field(Js("organizationId"), Str(k.organizationId)),
     Field(Js("principalId"), Str(k.principalId)), Field(Js("agentId"), Str(k.agentId)),
     Field(Js("operatingEnvelopeId"), Str(k.operatingEnvelopeId)), Field(Js("gatewayId"), Str(k.gatewayId)),
     Field(Js("actionClass"), Str(Js("x402_payment.exact"))), Field(Js("endpointUrl"), Str(k.endpointUrl))]
  }

  lemma EntriesAre0(k: KeyedFields)
    ensures |Values0(k)| == 9 && Zip(McpKeyNames.Names0(), Values0(k)) == Entries0(k)
  {
    var zipped, entries := Zip(McpKeyNames.Names0(), Values0(k)), Entries0(k);
    assert |zipped| == |entries|;
  }

  function Entries1(k: KeyedFields): seq<Field> {
    [Field(Js("intendedHttpMethod"), Str(k.intendedHttpMethod)),
     Field(Js("intendedRequestUrl"), Str(k.intendedRequestUrl)),
     Field(Js("intendedRequestBodyPosture"), Str(PostureName(k.bodyPosture))),
     Field(Js("intendedRequestBodyDigest"), OrNull(k.bodyDigest)),
     Field(Js("selectedHeadersDigest"), Str(k.selectedHeadersDigest)),
     Field(Js("providerEnvironmentPosture"), Str(EnvironmentName(k.environmentPosture))),
     Field(Js("providerEnvironmentRef"), OrNull(k.environmentRef)),
     Field(Js("x402Version"), Number(k.x402Version)), Field(Js("x402Scheme"), Str(k.x402Scheme))]
  }

  lemma EntriesAre1(k: KeyedFields)
    ensures |Values1(k)| == 9 && Zip(McpKeyNames.Names1(), Values1(k)) == Entries1(k)
  {
    var zipped, entries := Zip(McpKeyNames.Names1(), Values1(k)), Entries1(k);
    assert |zipped| == |entries|;
  }

  function Entries2(k: KeyedFields): seq<Field> {
    [Field(Js("payee"), Str(k.payee)), Field(Js("payTo"), Str(k.payTo)), Field(Js("network"), Str(k.network)),
     Field(Js("token"), Str(k.token)), Field(Js("asset"), Str(k.asset)),
     Field(Js("atomicAmount"), Str(k.atomicAmount)),
     Field(Js("paymentRequirementsDigest"), Str(k.paymentRequirementsDigest)),
     Field(Js("selectedPaymentRequirementIndex"), Number(k.selectedIndex)),
     Field(Js("selectedPaymentRequirementDigest"), Str(k.selectedDigest))]
  }

  lemma EntriesAre2(k: KeyedFields)
    ensures |Values2(k)| == 9 && Zip(McpKeyNames.Names2(), Values2(k)) == Entries2(k)
  {
    var zipped, entries := Zip(McpKeyNames.Names2(), Values2(k)), Entries2(k);
    assert |zipped| == |entries|;
  }

  function Entries3(k: KeyedFields, b: Option<TrustedBinding>): seq<Field> {
    [Field(Js("serviceWorkflowContextRefs"), (if k.workflowContextRefs == None then Null else k.workflowContextRefs.value)),
     Field(Js("delegatedAuthorityRefId"), Str(k.authorityRefId)),
     Field(Js("delegatedAuthorityRefDigest"), Str(k.authorityRefDigest)),
     Field(Js("delegatedAuthorityPolicyPackRef"), Str(k.policyPackRef)),
     Field(Js("delegatedAuthorityPolicyPackVersion"), Str(k.policyPackVersion)),
     Field(Js("gatewayReadinessDigest"), (if b == None then Null else Str(b.value.gatewayReadinessDigest))),
     Field(Js("policyVersionDigest"), (if b == None then Null else Str(b.value.policyVersionDigest))),
     Field(Js("sequenceNumber"), Number(k.sequenceNumber)),
     Field(Js("requiredPriorActionContractIds"), StrList(k.requiredPriorActionContractIds))]
  }

  lemma EntriesAre3(k: KeyedFields, b: Option<TrustedBinding>)
    ensures |Values3(k, b)| == 9 && Zip(McpKeyNames.Names3(), Values3(k, b)) == Entries3(k, b)
  {
    var zipped, entries := Zip(McpKeyNames.Names3(), Values3(k, b)), Entries3(k, b);
    assert |zipped| == |entries|;
  }

  /** The digested object has exactly these entries, each value under its own name; the key is the
      digest without its prefix, under the surface's own. */
  lemma McpKeyDigests(hash: Hash, p: Proposal, b: Option<TrustedBinding>)
    ensures var k := p.keyed;
      Material(k, b) == Obj(Entries0(k) + Entries1(k) + (Entries2(k) + Entries3(k, b)))
    ensures |DigestOf(hash, Material(p.keyed, b))| >= 7 ==>
      IdempotencyKey(hash, p, b) == Js("mcp-x402:") + DigestOf(hash, Material(p.keyed, b))[7..]
  {
    var k := p.keyed;
    McpKeyNames.KeysInGroups();
    EntriesAre0(k);
    EntriesAre1(k);
    EntriesAre2(k);
    EntriesAre3(k, b);
    ZipConcat(McpKeyNames.Names0(), Values0(k), McpKeyNames.Names1(), Values1(k));
    ZipConcat(McpKeyNames.Names2(), Values2(k), McpKeyNames.Names3(), Values3(k, b));
    ZipConcat(McpKeyNames.Names0() + McpKeyNames.Names1(), Values0(k) + Values1(k),
              McpKeyNames.Names2() + McpKeyNames.Names3(), Values2(k) + Values3(k, b));
  }
}
