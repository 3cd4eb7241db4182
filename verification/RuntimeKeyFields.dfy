/** What the runtime's idempotency keys digest under which name, entry by entry
    (src/adapters/x402-payment/action-proposal.ts). */
module RuntimeKeyFields {
  import opened JsText
  import opened JsonValues
  import opened Digests
  import opened X402Payment
  import opened RuntimeIdempotency
  import opened DigestedTexts
  import McpIdempotency
  import RuntimeKeyNames

  function Entries0(runId: JsString, a: Attempt): seq<Field> {
    [Field(Js("runId"), Str(runId)), Field(Js("endpointUrl"), Str(a.endpointUrl)),
     Field(Js("intendedHttpMethod"), OrNull(a.intendedHttpMethod)),
     Field(Js("intendedRequestUrl"), OrNull(a.intendedRequestUrl)),
     Field(Js("intendedRequestBodyPosture"), Str(PostureName(a.bodyPosture))),
     Field(Js("intendedRequestBodyDigest"), OrNull(a.bodyDigest)),
     Field(Js("selectedHeadersDigest"), OrNull(a.selectedHeadersDigest))]
  }

  lemma EntriesAre0(runId: JsString, a: Attempt)
    ensures |Values0(runId, a)| == 7 && Zip(RuntimeKeyNames.Names0(), Values0(runId, a)) == Entries0(runId, a)
  {
    var zipped, entries := Zip(RuntimeKeyNames.Names0(), Values0(runId, a)), Entries0(runId, a);
    assert |zipped| == |entries|;
  }

  function Entries1(a: Attempt): seq<Field> {
    [Field(Js("providerEnvironmentPosture"), Str(EnvironmentName(a.environmentPosture))),
     Field(Js("providerEnvironmentRef"), OrNull(a.environmentRef)),
     Field(Js("x402Version"), NumberOrNull(a.x402Version)), Field(Js("x402Scheme"), OrNull(a.x402Scheme)),
     Field(Js("payee"), Str(a.payee)), Field(Js("payTo"), OrNull(a.payTo)),
     Field(Js("network"), Str(a.network))]
  }

  lemma EntriesAre1(a: Attempt)
    ensures |Values1(a)| == 7 && Zip(RuntimeKeyNames.Names1(), Values1(a)) == Entries1(a)
  {
    var zipped, entries := Zip(RuntimeKeyNames.Names1(), Values1(a)), Entries1(a);
    assert |zipped| == |entries|;
  }

  function Entries2(a: Attempt): seq<Field> {
    [Field(Js("token"), Str(a.token)), Field(Js("asset"), OrNull(a.asset)),
     Field(Js("atomicAmount"), Str(a.atomicAmount)),
     Field(Js("x402EvidenceProfile"), Str(ProfileName(a.evidenceProfile))),
     Field(Js("paymentRequirementsDigest"), Str(a.paymentRequirementsDigest)),
     Field(Js("selectedPaymentRequirementIndex"), NumberOrNull(a.selectedIndex)),
     Field(Js("selectedPaymentRequirementDigest"), OrNull(a.selectedDigest))]
  }

  lemma EntriesAre2(a: Attempt)
    ensures |Values2(a)| == 7 && Zip(RuntimeKeyNames.Names2(), Values2(a)) == Entries2(a)
  {
    var zipped, entries := Zip(RuntimeKeyNames.Names2(), Values2(a)), Entries2(a);
    assert |zipped| == |entries|;
  }

  function Entries3(k: Keyed): seq<Field> {
    [Field(Js("maxTimeoutSeconds"), NumberOrNull(k.attempt.maxTimeoutSeconds)),
     Field(Js("sdkPackageVersions"), k.versions),
     Field(Js("extensionKeys"), McpIdempotency.StrList(k.attempt.extensionKeys)),
     Field(Js("gatewayCredentialRefDigest"), Str(k.config.gatewayCredentialRefDigest)),
     Field(Js("gatewayReadinessDigest"), Str(k.config.gatewayReadinessDigest)),
     Field(Js("policyVersionDigest"), Str(k.config.policyVersionDigest)),
     Field(Js("sequenceNumber"), Number(k.attempt.sequenceNumber))]
  }

  lemma EntriesAre3(k: Keyed)
    ensures |Values3(k)| == 7 && Zip(RuntimeKeyNames.Names3(), Values3(k)) == Entries3(k)
  {
    var zipped, entries := Zip(RuntimeKeyNames.Names3(), Values3(k)), Entries3(k);
    assert |zipped| == |entries|;
  }

  /** Without an identifier, the digested object has exactly these entries, each value under its own
      name. */
  lemma DerivedKeyDigests(k: Keyed)
    ensures Material(k)
         == Obj(Entries0(k.config.runId, k.attempt) + Entries1(k.attempt) + (Entries2(k.attempt) + Entries3(k)))
  {
    var runId, a := k.config.runId, k.attempt;
    RuntimeKeyNames.KeysInGroups();
    EntriesAre0(runId, a);
    EntriesAre1(a);
    EntriesAre2(a);
    EntriesAre3(k);
    ZipConcat(RuntimeKeyNames.Names0(), Values0(runId, a), RuntimeKeyNames.Names1(), Values1(a));
    ZipConcat(RuntimeKeyNames.Names2(), Values2(a), RuntimeKeyNames.Names3(), Values3(k));
    ZipConcat(RuntimeKeyNames.Names0() + RuntimeKeyNames.Names1(), Values0(runId, a) + Values1(a),
              RuntimeKeyNames.Names2() + RuntimeKeyNames.Names3(), Values2(a) + Values3(k));
  }

  /** With one, the identifier's digest and the scope. */
  lemma ScopeDigests(identifierDigest: JsString)
    ensures ScopeMaterial(identifierDigest)
         == Obj([Field(Js("paymentIdentifierDigest"), Str(identifierDigest)),
                 Field(Js("idempotencyScope"), Str(Js("x402_payment_identifier")))])
  {
  }

  lemma WithoutAlgorithm(digest: JsString)
    requires |digest| >= 7
    ensures McpIdempotency.DropDigestPrefix(digest) == digest[7..]
  {
  }

  /** The key is the digest without its prefix, under the kind's own; an empty identifier is none. */
  lemma DerivedKeyIs(hash: Hash, k: Keyed, digest: JsString)
    requires k.attempt.paymentIdentifier == None || k.attempt.paymentIdentifier == Some([])
    requires digest == DigestOf(hash, Material(k)) && |digest| >= 7
    ensures RuntimeKey(hash, k) == Js("x402-payment:") + digest[7..]
  {
    WithoutAlgorithm(digest);
    assert RuntimeKey(hash, k) == DerivedKey(hash, k);
  }

  lemma IdentifiedKeyIs(hash: Hash, k: Keyed, digest: JsString)
    requires k.attempt.paymentIdentifier != None && k.attempt.paymentIdentifier.value != []
    requires digest == DigestOf(hash, ScopeMaterial(IdentifierDigest(hash, k.attempt.paymentIdentifier.value)))
    requires |digest| >= 7
    ensures RuntimeKey(hash, k) == Js("x402-payment-id:") + digest[7..]
  {
  }
}
