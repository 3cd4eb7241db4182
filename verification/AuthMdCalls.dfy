/** When the auth.md gateway calls the protected API: exactly, from the attempt the runtime compiled
    to the third call of the run (src/adapters/auth-md/gateway.ts). */
module AuthMdCalls {
  import opened JsText
  import opened AuthMdActions
  import opened AuthMdRun
  import Digests
  import opened AuthMdGateway

  /** With safe parameters and a recorded credential, the API is called exactly when the assertion
      of conformance lets it. */
  lemma ApiCallExactly(g: Gateway, replies: seq<Reply>)
    requires GateOf(Head(replies)).Some? && UnsafeReasons(g.pf, g.parameters) == []
    requires Head(Tail(replies)).CredentialReply?
    ensures |Run(RunInput(g), replies)| >= 3 && Run(RunInput(g), replies)[1].call.RecordCredential?
    ensures Run(RunInput(g), replies)[2].call.Execute? <==> Conforms(g, GateOf(Head(replies)).value)
  {
    ThirdCallExecutes(RunInput(g), replies);
    ConformsMeans(g, GateOf(Head(replies)).value);
  }

  // ----------------------------------------------- the path template

  predicate Rooted(path: JsString) {
    path != [] && path[0] == ROOT
  }

  function WithPath(a: Attempt, path: JsString): Attempt {
    a.(shared := a.shared.(pathTemplate := path))
  }

  /** The runtime never looks at the path template. */
  lemma PathIsNotCompiledAgainst(pf: Platform, a: Attempt, path: JsString)
    ensures RefusalReasons(pf, WithPath(a, path)) == RefusalReasons(pf, a)
    ensures BuildParameters(pf, WithPath(a, path)).Some? <==> BuildParameters(pf, a).Some?
  {
    assert TransportCodes(pf, WithPath(a, path)) == TransportCodes(pf, a);
    assert PostureCodes(WithPath(a, path)) == PostureCodes(a) && CustodyCodes(WithPath(a, path)) == CustodyCodes(a);
  }

  lemma NoReasonsMeans(pf: Platform, a: Attempt)
    requires RefusalReasons(pf, a) == []
    ensures IsConsequential(pf, a.targetHttpMethod)
    ensures !a.shared.dynamicEndpointObserved && !a.shared.dynamicHostObserved
  {
    assert |PushedCodes(pf, a)| == 0;
    assert |TransportCodes(pf, a)| == 0;
  }

  lemma MethodsAreTrimmed()
    ensures Trim(Js("POST")) == Js("POST") && Trim(Js("PUT")) == Js("PUT")
    ensures Trim(Js("PATCH")) == Js("PATCH") && Trim(Js("DELETE")) == Js("DELETE")
  {
    assert Js("POST")[0] == 80 && Js("POST")[3] == 84 && Js("PUT")[0] == 80 && Js("PUT")[2] == 84;
    assert Js("PATCH")[0] == 80 && Js("PATCH")[4] == 72 && Js("DELETE")[0] == 68 && Js("DELETE")[5] == 69;
  }

  /** Of what the runtime compiles, the exact transport asks only for the leading "/". */
  lemma CompiledTransport(g: Gateway, a: Attempt)
    requires UpperCasesOnce(g.pf) && BuildParameters(g.pf, a) == Some(g.parameters) && RefusalReasons(g.pf, a) == []
    ensures TransportIsExact(g) <==> Rooted(a.shared.pathTemplate)
  {
    NoReasonsMeans(g.pf, a);
    MethodsAreTrimmed();
    assert g.pf.upper(g.parameters.targetHttpMethod) == g.parameters.targetHttpMethod;
    assert IsAllowedMethod(g);
  }

  /** For every compiled attempt, verified gate and recorded credential: the API is called exactly
      when the path template starts with "/", the gate is for the expected contract and the
      parameters do not leak. */
  lemma CompiledCallExactly(g: Gateway, a: Attempt, replies: seq<Reply>)
    requires UpperCasesOnce(g.pf) && BuildParameters(g.pf, a) == Some(g.parameters) && RefusalReasons(g.pf, a) == []
    requires GateOf(Head(replies)).Some? && Head(Tail(replies)).CredentialReply?
    ensures |Run(RunInput(g), replies)| >= 3 && Run(RunInput(g), replies)[1].call.RecordCredential?
    ensures Run(RunInput(g), replies)[2].call.Execute? <==>
      && Rooted(a.shared.pathTemplate)
      && (g.actionContractId == [] || GateOf(Head(replies)).value.actionContractId == g.actionContractId)
      && !Leaks(g.secret, ParametersValue(g.parameters))
  {
    CompiledIsSafe(g.pf, a, g.parameters);
    ApiCallExactly(g, replies);
    CompiledTransport(g, a);
  }

  /** So a path template without a leading "/" is compiled, its credential is recorded, and the API
      is never called: the third call reconciles a failure and cites the credential. */
  lemma UnrootedPathIsRecordedNotCalled(g: Gateway, a: Attempt, replies: seq<Reply>, i: nat)
    requires UpperCasesOnce(g.pf) && BuildParameters(g.pf, a) == Some(g.parameters) && RefusalReasons(g.pf, a) == []
    requires GateOf(Head(replies)).Some? && Head(Tail(replies)).CredentialReply?
    requires !Rooted(a.shared.pathTemplate)
    requires i < |Run(RunInput(g), replies)|
    ensures |Run(RunInput(g), replies)| >= 3 && Run(RunInput(g), replies)[1].call.RecordCredential?
    ensures Run(RunInput(g), replies)[2].call.Reconcile? && Run(RunInput(g), replies)[2].call.status.Failed?
    ensures Js("credential_resolution_evidence:") + Head(Tail(replies)).evidence.evidenceId
      in Run(RunInput(g), replies)[2].call.evidenceRefs
    ensures !Run(RunInput(g), replies)[i].call.Execute?
  {
    CompiledCallExactly(g, a, replies);
    CompiledIsSafe(g.pf, a, g.parameters);
    FailedAfterRecording(RunInput(g), replies);
    if Run(RunInput(g), replies)[i].call.Execute? {
      ApiCallIsPermitted(RunInput(g), replies, i);
    }
  }

  lemma FailedAfterRecording(input: Input, replies: seq<Reply>)
    requires GateOf(Head(replies)).Some? && input.reasons == [] && Head(Tail(replies)).CredentialReply?
    requires |Run(input, replies)| >= 3 ==> !Run(input, replies)[2].call.Execute?
    ensures |Run(input, replies)| >= 3
    ensures var call := Run(input, replies)[2].call;
      && call.Reconcile? && call.status.Failed?
      && Js("credential_resolution_evidence:") + Head(Tail(replies)).evidence.evidenceId in call.evidenceRefs
  {
    ThirdCall(input, replies);
    var gate := GateOf(Head(replies)).value;
    var evidence := Head(Tail(replies)).evidence;
    assert AfterRecord(input, gate, evidence).AtFailure?;
    assert CredentialRefs(Some(evidence))[0] == Js("credential_resolution_evidence:") + evidence.evidenceId;
  }

  // ------------------------------------------------- such an attempt

  /** A platform on which every text is its own upper case and every URL has one origin. */
  function OneOrigin(): Platform {
    Platform(s => s, s => Js("https://api.example"), s => true)
  }

  function UsersAttempt(): Attempt {
    Attempt(
      Shared(Js("https://api.example/"), Digests.ZERO_DIGEST, Digests.ZERO_DIGEST, Js("https://auth.example"),
             Js("https://api.example/users"), Js("users"), None, Digests.ZERO_DIGEST, Js("ref"),
             Digests.ZERO_DIGEST,
             Js("registry"), None, GatewayHeld, Js("operation"), AuthMdActions.Fresh, AuthMdActions.Fresh,
             false, false, false, false),
      Js("intent"), Js("POST"), [Js("users:write")], Some(Js("material")))
  }

  lemma ScopeHasNoWildcard()
    ensures !HasWildcard(UsersAttempt().requiredScopes)
  {
    var scope := Js("users:write");
    assert forall i :: 0 <= i < |scope| ==> scope[i] != ASTERISK;
  }

  /** The runtime has nothing against the path template "users". */
  lemma UnrootedPathIsCompiled()
    ensures UpperCasesOnce(OneOrigin()) && RefusalReasons(OneOrigin(), UsersAttempt()) == []
    ensures BuildParameters(OneOrigin(), UsersAttempt()).Some? && !Rooted(UsersAttempt().shared.pathTemplate)
  {
    ScopeHasNoWildcard();
    assert Js("users")[0] == 117;
    var a := UsersAttempt();
    assert TransportCodes(OneOrigin(), a) == [] && PostureCodes(a) == [] && CustodyCodes(a) == [];
    assert PushedCodes(OneOrigin(), a) == [];
  }
}
