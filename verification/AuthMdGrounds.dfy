/** Which refusal code of the auth.md checkpoints stands for what, written out from the fields of an
    attempt or of the observed parameters (src/adapters/auth-md/action-proposal.ts,
    src/adapters/auth-md/gateway.ts). */
module AuthMdGrounds {
  import opened JsText
  import opened AuthMdActions

  predicate SomeAsterisk(scopes: seq<JsString>) {
    exists i, k :: 0 <= i < |scopes| && 0 <= k < |scopes[i]| && scopes[i][k] == 42
  }

  predicate Inconsequential(m: JsString) {
    m != Js("POST") && m != Js("PUT") && m != Js("PATCH") && m != Js("DELETE")
  }

  predicate TransportGround(pf: Platform, s: Shared, httpMethod: JsString, code: JsString) {
    || (code == Js("auth_md_non_consequential_method_refused") && Inconsequential(pf.upper(httpMethod)))
    || (code == Js("auth_md_protected_resource_origin_mismatch")
        && pf.origin(s.endpointUrl) != pf.origin(s.protectedResource))
    || (code == Js("auth_md_raw_authorization_header_refused") && s.rawAuthorizationHeaderObserved)
    || (code == Js("auth_md_dynamic_endpoint_refused") && s.dynamicEndpointObserved)
    || (code == Js("auth_md_dynamic_host_refused") && s.dynamicHostObserved)
  }

  predicate PostureGround(s: Shared, scopes: seq<JsString>, code: JsString) {
    || (code == Js("auth_md_wildcard_scope_refused") && SomeAsterisk(scopes))
    || (code == Js("auth_md_stale_metadata_refused") && s.metadataPosture != Freshness.Fresh)
    || (code == Js("auth_md_stale_credential_ref_refused") && s.credentialRefPosture != Freshness.Fresh)
  }

  predicate CustodyGround(s: Shared, materialPresent: bool, code: JsString) {
    || (code == Js("auth_md_idempotency_material_missing") && !materialPresent)
    || (code == Js("auth_md_retry_authority_reuse_refused") && s.retryAuthorityReuseDetected)
    || (code == Js("auth_md_unsafe_credential_custody_refused")
        && s.custodyStatus != GatewayHeld && s.custodyStatus != FixtureGatewayHeld
        && s.custodyStatus != GatewayResolvedFromVault && s.custodyStatus != ProviderGatewayHeld)
  }

  lemma InTransportCodes(pf: Platform, a: Attempt, code: JsString)
    ensures code in TransportCodes(pf, a) <==> TransportGround(pf, a.shared, a.targetHttpMethod, code)
  {
  }

  lemma WildcardIsAsterisk(scopes: seq<JsString>)
    ensures HasWildcard(scopes) <==> SomeAsterisk(scopes)
  {
    if HasWildcard(scopes) {
      var i :| 0 <= i < |scopes| && ASTERISK in scopes[i];
      var k :| 0 <= k < |scopes[i]| && scopes[i][k] == ASTERISK;
    }
    if SomeAsterisk(scopes) {
      var i, k :| 0 <= i < |scopes| && 0 <= k < |scopes[i]| && scopes[i][k] == 42;
      assert ASTERISK in scopes[i];
    }
  }

  lemma InPostureCodes(a: Attempt, code: JsString)
    ensures code in PostureCodes(a) <==> PostureGround(a.shared, a.requiredScopes, code)
  {
    WildcardIsAsterisk(a.requiredScopes);
  }

  lemma InCustodyCodes(a: Attempt, code: JsString)
    ensures code in When(a.idempotencyMaterialRef.None?, IDEMPOTENCY_MISSING) || code in CustodyCodes(a)
       <==> CustodyGround(a.shared, a.idempotencyMaterialRef.Some?, code)
  {
  }

  lemma InPushedCodes(pf: Platform, a: Attempt, code: JsString)
    ensures code in PushedCodes(pf, a) <==>
      code in TransportCodes(pf, a) || code in PostureCodes(a)
      || code in When(a.idempotencyMaterialRef.None?, IDEMPOTENCY_MISSING) || code in CustodyCodes(a)
  {
  }

  predicate Ground(pf: Platform, s: Shared, httpMethod: JsString, scopes: seq<JsString>, materialPresent: bool,
                   code: JsString) {
    TransportGround(pf, s, httpMethod, code) || PostureGround(s, scopes, code) || CustodyGround(s, materialPresent, code)
  }

  /** The runtime reports exactly the codes whose ground holds, in strictly ascending order. */
  lemma RefusedExactly(pf: Platform, a: Attempt, code: JsString)
    ensures code in RefusalReasons(pf, a) <==>
      Ground(pf, a.shared, a.targetHttpMethod, a.requiredScopes, a.idempotencyMaterialRef.Some?, code)
    ensures Ascending(RefusalReasons(pf, a))
  {
    SortedUniqueAscends(PushedCodes(pf, a));
    InPushedCodes(pf, a, code);
    InTransportCodes(pf, a, code);
    InPostureCodes(a, code);
    InCustodyCodes(a, code);
  }

  lemma TransportCodesDiffer()
    ensures |NON_CONSEQUENTIAL| == 40 && |RAW_HEADER| == 40 && |ORIGIN_MISMATCH| == 42
    ensures |DYNAMIC_ENDPOINT| == 32 && |DYNAMIC_HOST| == 28
    ensures NON_CONSEQUENTIAL[8] == 110 && RAW_HEADER[8] == 114
  {
  }

  lemma OtherCodesDiffer()
    ensures |WILDCARD_SCOPE| == 30 && |STALE_METADATA| == 30
    ensures |STALE_CREDENTIAL_REF| == 36 && |IDEMPOTENCY_MISSING| == 36
    ensures |RETRY_REUSE| == 37 && |UNSAFE_CUSTODY| == 41
    ensures WILDCARD_SCOPE[8] == 119 && STALE_METADATA[8] == 115
    ensures STALE_CREDENTIAL_REF[8] == 115 && IDEMPOTENCY_MISSING[8] == 105
  {
  }

  lemma TransportCodeIsReported(pf: Platform, a: Attempt, code: JsString)
    requires code == NON_CONSEQUENTIAL || code == ORIGIN_MISMATCH || code == RAW_HEADER || code == DYNAMIC_ENDPOINT
          || code == DYNAMIC_HOST
    ensures code in RefusalReasons(pf, a) <==> TransportGround(pf, a.shared, a.targetHttpMethod, code)
  {
    TransportCodesDiffer();
    OtherCodesDiffer();
    assert !PostureGround(a.shared, a.requiredScopes, code);
    assert !CustodyGround(a.shared, a.idempotencyMaterialRef.Some?, code);
    RefusedExactly(pf, a, code);
  }

  lemma PostureCodeIsReported(pf: Platform, a: Attempt, code: JsString)
    requires code == WILDCARD_SCOPE || code == STALE_METADATA || code == STALE_CREDENTIAL_REF
    ensures code in RefusalReasons(pf, a) <==> PostureGround(a.shared, a.requiredScopes, code)
  {
    TransportCodesDiffer();
    OtherCodesDiffer();
    assert !TransportGround(pf, a.shared, a.targetHttpMethod, code);
    assert !CustodyGround(a.shared, a.idempotencyMaterialRef.Some?, code);
    RefusedExactly(pf, a, code);
  }

  /** Code by code, for the transport. */
  lemma TransportRefusals(pf: Platform, a: Attempt)
    ensures Js("auth_md_non_consequential_method_refused") in RefusalReasons(pf, a)
       <==> Inconsequential(pf.upper(a.targetHttpMethod))
    ensures Js("auth_md_protected_resource_origin_mismatch") in RefusalReasons(pf, a)
       <==> pf.origin(a.shared.endpointUrl) != pf.origin(a.shared.protectedResource)
    ensures Js("auth_md_raw_authorization_header_refused") in RefusalReasons(pf, a)
       <==> a.shared.rawAuthorizationHeaderObserved
    ensures Js("auth_md_dynamic_endpoint_refused") in RefusalReasons(pf, a) <==> a.shared.dynamicEndpointObserved
    ensures Js("auth_md_dynamic_host_refused") in RefusalReasons(pf, a) <==> a.shared.dynamicHostObserved
  {
    TransportCodesDiffer();
    TransportCodeIsReported(pf, a, NON_CONSEQUENTIAL);
    TransportCodeIsReported(pf, a, ORIGIN_MISMATCH);
    TransportCodeIsReported(pf, a, RAW_HEADER);
    TransportCodeIsReported(pf, a, DYNAMIC_ENDPOINT);
    TransportCodeIsReported(pf, a, DYNAMIC_HOST);
  }

  /** For scopes and freshness. */
  lemma PostureRefusals(pf: Platform, a: Attempt)
    ensures Js("auth_md_wildcard_scope_refused") in RefusalReasons(pf, a) <==> SomeAsterisk(a.requiredScopes)
    ensures Js("auth_md_stale_metadata_refused") in RefusalReasons(pf, a) <==> a.shared.metadataPosture != Freshness.Fresh
    ensures Js("auth_md_stale_credential_ref_refused") in RefusalReasons(pf, a)
       <==> a.shared.credentialRefPosture != Freshness.Fresh
  {
    OtherCodesDiffer();
    PostureCodeIsReported(pf, a, WILDCARD_SCOPE);
    PostureCodeIsReported(pf, a, STALE_METADATA);
    PostureCodeIsReported(pf, a, STALE_CREDENTIAL_REF);
  }

  lemma CustodyCodesStandAlone(pf: Platform, s: Shared, httpMethod: JsString, scopes: seq<JsString>, code: JsString)
    requires code == IDEMPOTENCY_MISSING || code == RETRY_REUSE || code == UNSAFE_CUSTODY
    ensures !TransportGround(pf, s, httpMethod, code) && !PostureGround(s, scopes, code)
  {
    TransportCodesDiffer();
    OtherCodesDiffer();
  }

  lemma CustodyCodeIsReported(pf: Platform, a: Attempt, code: JsString)
    requires code == IDEMPOTENCY_MISSING || code == RETRY_REUSE || code == UNSAFE_CUSTODY
    ensures code in RefusalReasons(pf, a) <==> CustodyGround(a.shared, a.idempotencyMaterialRef.Some?, code)
  {
    CustodyCodesStandAlone(pf, a.shared, a.targetHttpMethod, a.requiredScopes, code);
    RefusedExactly(pf, a, code);
  }

  /** For idempotency material, retries and custody. */
  lemma CustodyRefusals(pf: Platform, a: Attempt)
    ensures Js("auth_md_idempotency_material_missing") in RefusalReasons(pf, a) <==> a.idempotencyMaterialRef == None
    ensures Js("auth_md_retry_authority_reuse_refused") in RefusalReasons(pf, a)
       <==> a.shared.retryAuthorityReuseDetected
    ensures Js("auth_md_unsafe_credential_custody_refused") in RefusalReasons(pf, a) <==>
      a.shared.custodyStatus != GatewayHeld && a.shared.custodyStatus != FixtureGatewayHeld
      && a.shared.custodyStatus != GatewayResolvedFromVault && a.shared.custodyStatus != ProviderGatewayHeld
  {
    OtherCodesDiffer();
    CustodyCodeIsReported(pf, a, IDEMPOTENCY_MISSING);
    CustodyCodeIsReported(pf, a, RETRY_REUSE);
    CustodyCodeIsReported(pf, a, UNSAFE_CUSTODY);
  }

  /** The gateway's reasons for observed parameters: the same grounds, read off the parameters, with
      idempotency material taken for granted, and a recorded origin that is not the URL's. */
  lemma UnsafeExactly(pf: Platform, p: Parameters, code: JsString)
    ensures code in UnsafeReasons(pf, p) <==>
      || Ground(pf, p.shared, p.targetHttpMethod, p.requiredScopes, true, code)
      || (code == Js("auth_md_protected_resource_origin_mismatch")
          && (pf.origin(p.shared.protectedResource) != p.protectedResourceOrigin
              || pf.origin(p.shared.endpointUrl) != p.endpointOrigin))
  {
    RefusedExactly(pf, ObservedAttempt(p), code);
  }

  /** The parameters that are built from an attempt, field by field; none exactly when an origin is
      not itself a URL. */
  lemma BuiltParametersAre(pf: Platform, a: Attempt)
    ensures BuildParameters(pf, a).None? <==>
      !pf.isUrl(pf.origin(a.shared.protectedResource)) || !pf.isUrl(pf.origin(a.shared.endpointUrl))
    ensures BuildParameters(pf, a).Some? ==>
      var p := BuildParameters(pf, a).value;
      && p.shared == a.shared
      && p.protectedResourceOrigin == pf.origin(a.shared.protectedResource)
      && p.endpointOrigin == pf.origin(a.shared.endpointUrl)
      && p.targetHttpMethod == pf.upper(a.targetHttpMethod)
      && Ascending(p.requiredScopes) && Elements(p.requiredScopes) == Elements(a.requiredScopes)
      && (p.idempotencyMaterialRefPresent <==> a.idempotencyMaterialRef != None)
  {
    SortedUniqueAscends(a.requiredScopes);
  }
}
