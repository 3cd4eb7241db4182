/** The two auth.md checkpoints: the runtime's refusal codes for an attempt, and the gateway's
    unsafe reasons for the parameters it observes. */
module AuthMdActions {
  import opened JsText

  datatype Freshness = Fresh | Stale | Revoked | Expired | UnknownFreshness

  datatype CustodyStatus =
    | GatewayHeld | FixtureGatewayHeld | GatewayResolvedFromVault | ProviderGatewayHeld | UnknownCustody
    | UnsafeAgentVisible | UnsafeRuntimeVisible | AgentHasRawCredential | SharedOrUnknown | NoMutationCredential

  /** The fields that an attempt and the parameters built from it have in common. */
  datatype Shared = Shared(
    protectedResource: JsString, protectedResourceMetadataDigest: JsString,
    authorizationServerMetadataDigest: JsString, authorizationServer: JsString, endpointUrl: JsString,
    pathTemplate: JsString, requestBodyDigest: Option<JsString>, selectedHeadersDigest: JsString,
    gatewayCredentialRefId: JsString, gatewayCredentialRefDigest: JsString, providerRegistryRef: JsString,
    providerRegistryDigest: Option<JsString>, custodyStatus: CustodyStatus, operationId: JsString,
    metadataPosture: Freshness, credentialRefPosture: Freshness, rawAuthorizationHeaderObserved: bool,
    dynamicEndpointObserved: bool, dynamicHostObserved: bool, retryAuthorityReuseDetected: bool)

  datatype Attempt = Attempt(
    shared: Shared, principalIntentRef: JsString, targetHttpMethod: JsString, requiredScopes: seq<JsString>,
    idempotencyMaterialRef: Option<JsString>)

  datatype Parameters = Parameters(
    shared: Shared, protectedResourceOrigin: JsString, endpointOrigin: JsString, targetHttpMethod: JsString,
    requiredScopes: seq<JsString>, idempotencyMaterialRefPresent: bool)

  /** The platform functions this code calls: `toUpperCase`, `new URL(..).origin`, and whether
      a string parses as a URL (an opaque origin is the string "null", which does not). */
  datatype Platform = Platform(upper: JsString -> JsString, origin: JsString -> JsString, isUrl: JsString -> bool)

  /** Upper-casing twice is upper-casing once. */
  ghost predicate UpperCasesOnce(pf: Platform) {
    forall s: JsString :: pf.upper(pf.upper(s)) == pf.upper(s)
  }

  const NON_CONSEQUENTIAL: JsString := Js("auth_md_non_consequential_method_refused")
  const ORIGIN_MISMATCH: JsString := Js("auth_md_protected_resource_origin_mismatch")
  const RAW_HEADER: JsString := Js("auth_md_raw_authorization_header_refused")
  const DYNAMIC_ENDPOINT: JsString := Js("auth_md_dynamic_endpoint_refused")
  const DYNAMIC_HOST: JsString := Js("auth_md_dynamic_host_refused")
  const WILDCARD_SCOPE: JsString := Js("auth_md_wildcard_scope_refused")
  const STALE_METADATA: JsString := Js("auth_md_stale_metadata_refused")
  const STALE_CREDENTIAL_REF: JsString := Js("auth_md_stale_credential_ref_refused")
  const IDEMPOTENCY_MISSING: JsString := Js("auth_md_idempotency_material_missing")
  const RETRY_REUSE: JsString := Js("auth_md_retry_authority_reuse_refused")
  const UNSAFE_CUSTODY: JsString := Js("auth_md_unsafe_credential_custody_refused")

  const ASTERISK: CodeUnit := 42

  predicate IsConsequential(pf: Platform, httpMethod: JsString) {
    var m := pf.upper(httpMethod);
    m == Js("POST") || m == Js("PUT") || m == Js("PATCH") || m == Js("DELETE")
  }

  predicate HasWildcard(scopes: seq<JsString>) {
    exists i :: 0 <= i < |scopes| && ASTERISK in scopes[i]
  }

  /** `credentialCustodyCanSatisfyGatewayChecked`. */
  predicate CustodySatisfies(c: CustodyStatus) {
    c.GatewayHeld? || c.FixtureGatewayHeld? || c.GatewayResolvedFromVault? || c.ProviderGatewayHeld?
  }

  function When(holds: bool, code: JsString): seq<JsString> {
    if holds then [code] else []
  }

  function TransportCodes(pf: Platform, a: Attempt): seq<JsString> {
    When(!IsConsequential(pf, a.targetHttpMethod), NON_CONSEQUENTIAL) +
    When(pf.origin(a.shared.endpointUrl) != pf.origin(a.shared.protectedResource), ORIGIN_MISMATCH) +
    When(a.shared.rawAuthorizationHeaderObserved, RAW_HEADER) +
    When(a.shared.dynamicEndpointObserved, DYNAMIC_ENDPOINT) +
    When(a.shared.dynamicHostObserved, DYNAMIC_HOST)
  }

  function PostureCodes(a: Attempt): seq<JsString> {
    When(HasWildcard(a.requiredScopes), WILDCARD_SCOPE) +
    When(!a.shared.metadataPosture.Fresh?, STALE_METADATA) +
    When(!a.shared.credentialRefPosture.Fresh?, STALE_CREDENTIAL_REF)
  }

  function CustodyCodes(a: Attempt): seq<JsString> {
    When(a.shared.retryAuthorityReuseDetected, RETRY_REUSE) +
    When(!CustodySatisfies(a.shared.custodyStatus), UNSAFE_CUSTODY)
  }

  /** The codes pushed by `authMdProtectedApiCallRefusalReasonCodes`, in order. */
  function PushedCodes(pf: Platform, a: Attempt): seq<JsString> {
    TransportCodes(pf, a) + PostureCodes(a)
    + When(a.idempotencyMaterialRef.None?, IDEMPOTENCY_MISSING) + CustodyCodes(a)
  }

  function RefusalReasons(pf: Platform, a: Attempt): seq<JsString> {
    SortedUnique(PushedCodes(pf, a))
  }

  method PushTransportCodes(pf: Platform, a: Attempt) returns (reasons: seq<JsString>)
    ensures reasons == TransportCodes(pf, a)
  {
    reasons := [];
    if !IsConsequential(pf, a.targetHttpMethod) {
      reasons := reasons + [NON_CONSEQUENTIAL];
    }
    if pf.origin(a.shared.endpointUrl) != pf.origin(a.shared.protectedResource) {
      reasons := reasons + [ORIGIN_MISMATCH];
    }
    assert reasons == When(!IsConsequential(pf, a.targetHttpMethod), NON_CONSEQUENTIAL)
      + When(pf.origin(a.shared.endpointUrl) != pf.origin(a.shared.protectedResource), ORIGIN_MISMATCH);
    if a.shared.rawAuthorizationHeaderObserved {
      reasons := reasons + [RAW_HEADER];
    }
    if a.shared.dynamicEndpointObserved {
      reasons := reasons + [DYNAMIC_ENDPOINT];
    }
    if a.shared.dynamicHostObserved {
      reasons := reasons + [DYNAMIC_HOST];
    }
  }

  /** `requiredScopes.some((scope) => scope.includes("*"))`. */
  method AnyWildcard(scopes: seq<JsString>) returns (found: bool)
    ensures found <==> HasWildcard(scopes)
  {
    for i := 0 to |scopes|
      invariant forall j :: 0 <= j < i ==> ASTERISK !in scopes[j]
    {
      if ASTERISK in scopes[i] {
        return true;
      }
    }
    return false;
  }

  method PushPostureCodes(a: Attempt) returns (reasons: seq<JsString>)
    ensures reasons == PostureCodes(a)
  {
    reasons := [];
    var wildcard := AnyWildcard(a.requiredScopes);
    if wildcard {
      reasons := reasons + [WILDCARD_SCOPE];
    }
    if !a.shared.metadataPosture.Fresh? {
      reasons := reasons + [STALE_METADATA];
    }
    if !a.shared.credentialRefPosture.Fresh? {
      reasons := reasons + [STALE_CREDENTIAL_REF];
    }
  }

  /** `authMdProtectedApiCallRefusalReasonCodes`. */
  method AuthMdRefusalReasonCodes(pf: Platform, a: Attempt) returns (codes: seq<JsString>)
    ensures codes == RefusalReasons(pf, a)
  {
    var reasons := PushTransportCodes(pf, a);
    var posture := PushPostureCodes(a);
    reasons := reasons + posture;
    if a.idempotencyMaterialRef.None? {
      reasons := reasons + [IDEMPOTENCY_MISSING];
    }
    assert reasons == TransportCodes(pf, a) + PostureCodes(a)
      + When(a.idempotencyMaterialRef.None?, IDEMPOTENCY_MISSING);
    var custody: seq<JsString> := [];
    if a.shared.retryAuthorityReuseDetected {
      custody := custody + [RETRY_REUSE];
    }
    if !CustodySatisfies(a.shared.custodyStatus) {
      custody := custody + [UNSAFE_CUSTODY];
    }
    assert custody == CustodyCodes(a);
    codes := SortedUnique(reasons + custody);
  }

  // ------------------------------------------------------- the parameters

  /** The `parameters` of `buildAuthMdProtectedApiCallCompileIntentInputUnchecked`; `None` when
      the schema rejects an origin. */
  function BuildParameters(pf: Platform, a: Attempt): Option<Parameters> {
    var resourceOrigin := pf.origin(a.shared.protectedResource);
    var endpointOrigin := pf.origin(a.shared.endpointUrl);
    if !pf.isUrl(resourceOrigin) || !pf.isUrl(endpointOrigin) then None
    else Some(Parameters(a.shared, resourceOrigin, endpointOrigin, pf.upper(a.targetHttpMethod),
                         SortedUnique(a.requiredScopes), a.idempotencyMaterialRef.Some?))
  }

  /** The attempt the gateway reconstructs from observed parameters. */
  function ObservedAttempt(p: Parameters): Attempt {
    Attempt(p.shared, Js("gateway-observed:auth-md-protected-api-call"), p.targetHttpMethod, p.requiredScopes,
            Some(Js("gateway-observed")))
  }

  predicate OriginsRecorded(pf: Platform, p: Parameters) {
    pf.origin(p.shared.protectedResource) == p.protectedResourceOrigin
    && pf.origin(p.shared.endpointUrl) == p.endpointOrigin
  }

  /** `authMdGatewayUnsafeObservedParameterReasons`. */
  function UnsafeReasons(pf: Platform, p: Parameters): seq<JsString> {
    RefusalReasons(pf, ObservedAttempt(p)) + When(!OriginsRecorded(pf, p), ORIGIN_MISMATCH)
  }

  method UnsafeObservedParameterReasons(pf: Platform, p: Parameters) returns (reasons: seq<JsString>)
    ensures reasons == UnsafeReasons(pf, p)
  {
    reasons := AuthMdRefusalReasonCodes(pf, ObservedAttempt(p));
    if pf.origin(p.shared.protectedResource) != p.protectedResourceOrigin
       || pf.origin(p.shared.endpointUrl) != p.endpointOrigin {
      reasons := reasons + [ORIGIN_MISMATCH];
    }
  }

  // ---------------------------------------------------------- they agree

  function Without(codes: seq<JsString>, code: JsString): (r: seq<JsString>)
    ensures forall c :: c in r <==> c in codes && c != code
  {
    if codes == [] then []
    else
      assert codes == codes[..|codes| - 1] + [codes[|codes| - 1]];
      Without(codes[..|codes| - 1], code) + (if codes[|codes| - 1] == code then [] else [codes[|codes| - 1]])
  }

  /** Leaving out a code keeps a list sorted and free of repetition. */
  lemma {:induction false} WithoutKeepsOrder(codes: seq<JsString>, code: JsString)
    ensures Distinct(codes) ==> Distinct(Without(codes, code))
    ensures Sorted(codes) ==> Sorted(Without(codes, code))
  {
    if codes != [] {
      var init, last := codes[..|codes| - 1], codes[|codes| - 1];
      WithoutKeepsOrder(init, code);
      var r := Without(init, code);
      forall i | 0 <= i < |r| ensures Distinct(codes) ==> r[i] != last {
        assert r[i] in init;
      }
      forall i | 0 <= i < |r| ensures Sorted(codes) ==> LexLe(r[i], last) {
        assert r[i] in init;
        var j :| 0 <= j < |init| && init[j] == r[i];
        assert codes[j] == r[i];
      }
    }
  }

  lemma SortedUniqueShape(s: seq<JsString>)
    ensures Sorted(SortedUnique(s)) && Distinct(SortedUnique(s))
  {
    SortSorts(Unique(s));
    SameMultisetKeepsDistinct(Unique(s), Sort(Unique(s)));
  }

  lemma SortedDistinctIsDetermined(a: seq<JsString>, b: seq<JsString>)
    requires Sorted(a) && Sorted(b) && Distinct(a) && Distinct(b)
    requires Elements(a) == Elements(b)
    ensures a == b
  {
    SameElementsSameMultiset(a, b);
    SortedArrangementIsUnique(a, b);
  }

  lemma IdempotencyCodeDiffers()
    ensures IDEMPOTENCY_MISSING !in [NON_CONSEQUENTIAL, ORIGIN_MISMATCH, RAW_HEADER, DYNAMIC_ENDPOINT, DYNAMIC_HOST]
    ensures IDEMPOTENCY_MISSING !in [WILDCARD_SCOPE, STALE_METADATA, STALE_CREDENTIAL_REF, RETRY_REUSE, UNSAFE_CUSTODY]
  {
    assert |IDEMPOTENCY_MISSING| == 36 && IDEMPOTENCY_MISSING[8] == 105;
    assert |STALE_CREDENTIAL_REF| == 36 && STALE_CREDENTIAL_REF[8] == 115;
  }

  lemma SameScopesSameWildcard(s: seq<JsString>)
    ensures HasWildcard(SortedUnique(s)) <==> HasWildcard(s)
  {
    var t := SortedUnique(s);
    if HasWildcard(t) {
      var i :| 0 <= i < |t| && ASTERISK in t[i];
      assert t[i] in Elements(t);
      assert t[i] in s;
    }
    if HasWildcard(s) {
      var i :| 0 <= i < |s| && ASTERISK in s[i];
      assert s[i] in Elements(t);
      assert s[i] in t;
    }
  }

  /** The gateway pushes what the runtime pushes, except the idempotency code. */
  lemma ObservedCodes(pf: Platform, a: Attempt, p: Parameters)
    requires UpperCasesOnce(pf) && BuildParameters(pf, a) == Some(p)
    ensures PushedCodes(pf, ObservedAttempt(p)) == TransportCodes(pf, a) + PostureCodes(a) + [] + CustodyCodes(a)
  {
    SameScopesSameWildcard(a.requiredScopes);
    assert IsConsequential(pf, p.targetHttpMethod) == IsConsequential(pf, a.targetHttpMethod);
  }

  lemma PushedElements(pf: Platform, a: Attempt)
    ensures Elements(TransportCodes(pf, a) + PostureCodes(a) + [] + CustodyCodes(a))
         == Elements(PushedCodes(pf, a)) - {IDEMPOTENCY_MISSING}
  {
    IdempotencyCodeDiffers();
    var t, q, c := TransportCodes(pf, a), PostureCodes(a), CustodyCodes(a);
    assert IDEMPOTENCY_MISSING !in t;
    assert IDEMPOTENCY_MISSING !in q && IDEMPOTENCY_MISSING !in c;
  }

  /** Leaving out a code before or after sorting is the same. */
  lemma WithoutCommutes(x: seq<JsString>, y: seq<JsString>, code: JsString)
    requires Elements(x) == Elements(y) - {code}
    ensures SortedUnique(x) == Without(SortedUnique(y), code)
  {
    var r := Without(SortedUnique(y), code);
    SortedUniqueShape(x);
    SortedUniqueShape(y);
    WithoutKeepsOrder(SortedUnique(y), code);
    assert forall c :: c in SortedUnique(y) <==> c in Elements(SortedUnique(y));
    assert Elements(r) == Elements(SortedUnique(y)) - {code};
    SortedDistinctIsDetermined(SortedUnique(x), r);
  }

  /** The origins that parameters are built with are the ones the gateway computes. */
  lemma BuiltOriginsAreRecorded(pf: Platform, a: Attempt, p: Parameters)
    requires BuildParameters(pf, a) == Some(p)
    ensures UnsafeReasons(pf, p) == RefusalReasons(pf, ObservedAttempt(p))
  {
    assert RefusalReasons(pf, ObservedAttempt(p)) + [] == RefusalReasons(pf, ObservedAttempt(p));
  }

  /** For every attempt whose parameters can be built, the gateway's unsafe reasons are the
      runtime's refusal codes without the missing-idempotency code, in the same order. */
  lemma CheckpointsAgree(pf: Platform, a: Attempt, p: Parameters)
    requires UpperCasesOnce(pf) && BuildParameters(pf, a) == Some(p)
    ensures UnsafeReasons(pf, p) == Without(RefusalReasons(pf, a), IDEMPOTENCY_MISSING)
  {
    BuiltOriginsAreRecorded(pf, a, p);
    PushedWithout(pf, a, p);
    WithoutCommutes(PushedCodes(pf, ObservedAttempt(p)), PushedCodes(pf, a), IDEMPOTENCY_MISSING);
  }

  lemma PushedWithout(pf: Platform, a: Attempt, p: Parameters)
    requires UpperCasesOnce(pf) && BuildParameters(pf, a) == Some(p)
    ensures Elements(PushedCodes(pf, ObservedAttempt(p))) == Elements(PushedCodes(pf, a)) - {IDEMPOTENCY_MISSING}
  {
    ObservedCodes(pf, a, p);
    PushedElements(pf, a);
  }

  /** So whatever the runtime compiles, the gateway finds safe. */
  lemma CompiledIsSafe(pf: Platform, a: Attempt, p: Parameters)
    requires UpperCasesOnce(pf) && BuildParameters(pf, a) == Some(p)
    requires RefusalReasons(pf, a) == []
    ensures UnsafeReasons(pf, p) == []
  {
    CheckpointsAgree(pf, a, p);
  }
}
