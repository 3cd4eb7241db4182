/** `proposeMcpX402Payment`: what is refused before any runtime call, and the whole proposal
    (src/mcp/x402-proposal.ts). */
module McpProposal {
  import opened JsText
  import opened Decimal
  import opened Digests
  import opened X402Payment
  import opened McpIdempotency
  import opened McpAmounts
  import opened McpProposalRun
  import ResourceUris
  import UriComponent

  datatype InstallPosture = Ready | Missing | StaleInstall | UnsafeInstall | UnknownInstall

  datatype GatewayPosture = Online | Offline | UnknownGateway

  datatype Options = Options(
    toolsListChanged: bool, currentMetadataDigest: Option<JsString>, installPosture: Option<InstallPosture>,
    gatewayPosture: Option<GatewayPosture>, trustedMaxAtomicAmountPerCall: Option<JsString>,
    gatewayReadinessRef: Option<JsString>, gatewayReadinessDigest: Option<JsString>,
    policyVersionRef: Option<JsString>, policyVersionDigest: Option<JsString>)

  /** What the input schema promises of the amount. */
  predicate Parses(p: Proposal) {
    IsAtomicAmount(p.keyed.atomicAmount)
  }

  // ------------------------------------------------------ the trusted binding

  const BOUND_MISSING: JsString := Js("mcp_trusted_spend_bound_missing")
  const READINESS_MISSING: JsString := Js("mcp_trusted_readiness_binding_missing")
  const POLICY_MISSING: JsString := Js("mcp_policy_version_binding_missing")
  const BINDING_INVALID: JsString := Js("mcp_trusted_proposal_binding_invalid")

  /** Absent or empty: falsy. */
  predicate Blank(o: Option<JsString>) {
    o.None? || o.value == []
  }

  predicate IsLowerHex(u: CodeUnit) {
    48 <= u <= 57 || 97 <= u <= 102
  }

  predicate IsDigestText(s: JsString) {
    |s| == 71 && s[..7] == Js("sha256:") && forall i :: 7 <= i < 71 ==> IsLowerHex(s[i])
  }

  predicate IsRef(s: JsString) {
    1 <= |s| <= 500
  }

  predicate BindingParses(b: TrustedBinding) {
    && IsAtomicAmount(b.trustedMaxAtomicAmountPerCall) && |b.trustedMaxAtomicAmountPerCall| <= 78
    && IsRef(b.gatewayReadinessRef) && IsDigestText(b.gatewayReadinessDigest)
    && IsRef(b.policyVersionRef) && IsDigestText(b.policyVersionDigest)
  }

  predicate BindingComplete(o: Options) {
    && !Blank(o.trustedMaxAtomicAmountPerCall)
    && !Blank(o.gatewayReadinessRef) && !Blank(o.gatewayReadinessDigest)
    && !Blank(o.policyVersionRef) && !Blank(o.policyVersionDigest)
  }

  function MissingCodes(o: Options): (codes: seq<JsString>)
    ensures codes == [] <==> BindingComplete(o)
  {
    var codes := When(Blank(o.trustedMaxAtomicAmountPerCall), BOUND_MISSING) +
      When(Blank(o.gatewayReadinessRef) || Blank(o.gatewayReadinessDigest), READINESS_MISSING) +
      When(Blank(o.policyVersionRef) || Blank(o.policyVersionDigest), POLICY_MISSING);
    assert |codes| == 0 <==> BindingComplete(o);
    codes
  }

  function GivenBinding(o: Options): TrustedBinding
    requires BindingComplete(o)
  {
    TrustedBinding(o.trustedMaxAtomicAmountPerCall.value, o.gatewayReadinessRef.value,
                   o.gatewayReadinessDigest.value, o.policyVersionRef.value, o.policyVersionDigest.value)
  }

  function BindingOf(o: Options): (b: Option<TrustedBinding>)
    ensures b.Some? ==> BindingParses(b.value)
  {
    if BindingComplete(o) && BindingParses(GivenBinding(o)) then Some(GivenBinding(o)) else None
  }

  /** `trustedProposalBinding`. */
  method TrustedProposalBinding(o: Options) returns (binding: Option<TrustedBinding>, reasonCodes: seq<JsString>)
    ensures binding == BindingOf(o)
    ensures binding.Some? <==> reasonCodes == []
    ensures binding.None? ==> reasonCodes == if BindingComplete(o) then [BINDING_INVALID] else MissingCodes(o)
  {
    reasonCodes := [];
    if Blank(o.trustedMaxAtomicAmountPerCall) {
      reasonCodes := reasonCodes + [BOUND_MISSING];
    }
    if Blank(o.gatewayReadinessRef) || Blank(o.gatewayReadinessDigest) {
      reasonCodes := reasonCodes + [READINESS_MISSING];
    }
    if Blank(o.policyVersionRef) || Blank(o.policyVersionDigest) {
      reasonCodes := reasonCodes + [POLICY_MISSING];
    }
    assert reasonCodes == MissingCodes(o);
    if |reasonCodes| > 0 {
      return None, reasonCodes;
    }
    if !BindingParses(GivenBinding(o)) {
      return None, [BINDING_INVALID];
    }
    return Some(GivenBinding(o)), [];
  }

  // ----------------------------------------------- refusals before any call

  /** A refusal, before it is known whether it can be answered. */
  datatype Refusal = Refusal(kind: Kind, reasonCodes: seq<JsString>, nextAction: NextAction)

  function InstallCode(i: InstallPosture): JsString {
    match i
    case Ready => Js("mcp_install_ready")
    case Missing => Js("mcp_install_missing")
    case StaleInstall => Js("mcp_install_stale")
    case UnsafeInstall => Js("mcp_install_unsafe")
    case UnknownInstall => Js("mcp_install_unknown")
  }

  predicate MetadataFresh(p: Proposal, o: Options) {
    Blank(o.currentMetadataDigest) || o.currentMetadataDigest.value == p.metadataDigest
  }

  function PostureCodes(p: Proposal): seq<JsString> {
    SortedUnique(BodyAndEnvironmentCodes(p.keyed.bodyPosture, p.keyed.bodyDigest, p.keyed.environmentPosture))
  }

  /** Freshness and readiness, in the order they are checked. */
  function Unready(p: Proposal, o: Options): Option<Refusal> {
    if o.toolsListChanged then Some(Refusal(ToolsListChanged, [Js("mcp_tools_list_changed")], ReloadMetadata))
    else if !MetadataFresh(p, o) then Some(Refusal(MetadataStale, [Js("mcp_metadata_digest_stale")], ReloadMetadata))
    else if o.installPosture.Some? && !o.installPosture.value.Ready? then
      Some(Refusal(InstallNotReady, [InstallCode(o.installPosture.value)], FixInstall))
    else if BindingOf(o).None? then
      Some(Refusal(InstallNotReady, if BindingComplete(o) then [BINDING_INVALID] else MissingCodes(o), FixInstall))
    else if o.gatewayPosture == Some(Offline) then
      Some(Refusal(GatewayOffline, [Js("mcp_gateway_offline")], WaitForGateway))
    else if o.gatewayPosture == Some(UnknownGateway) then
      Some(Refusal(ToolExecutionError, [Js("mcp_gateway_posture_unknown")], Stop))
    else None
  }

  function Inadmissible(p: Proposal, b: TrustedBinding): Option<Refusal>
    requires Parses(p) && BindingParses(b)
  {
    if CompareStrings(p.keyed.atomicAmount, b.trustedMaxAtomicAmountPerCall) > 0 then
      Some(Refusal(Kind.Refused, [AMOUNT_EXCEEDS], RecraftRequest))
    else if PostureCodes(p) != [] then Some(Refusal(Kind.Refused, PostureCodes(p), RecraftRequest))
    else None
  }

  function Preflight(p: Proposal, o: Options): Option<Refusal>
    requires Parses(p)
  {
    match Unready(p, o)
    case Some(refusal) => Some(refusal)
    case None => Inadmissible(p, BindingOf(o).value)
  }

  /** A proposal within the bound, with a body posture and an environment that can be paid in. */
  predicate Admissible(p: Proposal, bound: JsString)
    requires Parses(p) && IsAtomicAmount(bound)
  {
    && ValueOf(p.keyed.atomicAmount) <= ValueOf(bound)
    && (p.keyed.bodyPosture.NoBody? || p.keyed.bodyPosture.DigestBound?)
    && (p.keyed.bodyPosture.DigestBound? <==> p.keyed.bodyDigest.Some?)
    && p.keyed.environmentPosture.LocalReferenceSandbox?
  }

  lemma NoPostureCodes(p: Proposal)
    ensures PostureCodes(p) == [] <==>
      && (p.keyed.bodyPosture.NoBody? || p.keyed.bodyPosture.DigestBound?)
      && (p.keyed.bodyPosture.DigestBound? <==> p.keyed.bodyDigest.Some?)
      && p.keyed.environmentPosture.LocalReferenceSandbox?
  {
    var k := p.keyed;
    var codes := BodyAndEnvironmentCodes(k.bodyPosture, k.bodyDigest, k.environmentPosture);
    assert codes == [] <==> |codes| == 0;
  }

  lemma AdmittedExactly(p: Proposal, b: TrustedBinding)
    requires Parses(p) && BindingParses(b)
    ensures Inadmissible(p, b).None? <==> Admissible(p, b.trustedMaxAtomicAmountPerCall)
  {
    StringComparisonIsNumeric(p.keyed.atomicAmount, b.trustedMaxAtomicAmountPerCall);
    NoPostureCodes(p);
  }

  /** The proposals that reach the runtime: fresh, ready, trusted, online, and admissible. */
  lemma PreflightPassesExactly(p: Proposal, o: Options)
    requires Parses(p)
    ensures Preflight(p, o).None? <==>
      && !o.toolsListChanged && MetadataFresh(p, o)
      && (o.installPosture.None? || o.installPosture.value.Ready?)
      && (o.gatewayPosture.None? || o.gatewayPosture.value.Online?)
      && BindingOf(o).Some? && Admissible(p, BindingOf(o).value.trustedMaxAtomicAmountPerCall)
  {
    if BindingOf(o).Some? {
      AdmittedExactly(p, BindingOf(o).value);
    }
  }

  /** The MCP surface and the runtime agree: with complete evidence and the same bound, an
      attempt for the same amount, body and environment is compiled exactly when the proposal
      is admitted. */
  lemma RuntimeAgrees(p: Proposal, b: TrustedBinding, config: RuntimeConfig, a: Attempt)
    requires Parses(p) && BindingParses(b)
    requires config.maxAtomicAmountPerCall == b.trustedMaxAtomicAmountPerCall
    requires a.atomicAmount == p.keyed.atomicAmount && a.bodyPosture == p.keyed.bodyPosture
    requires a.bodyDigest == p.keyed.bodyDigest && a.environmentPosture == p.keyed.environmentPosture
    requires !OfficialEvidenceMissing(a)
    ensures Inadmissible(p, b).None? <==> RefusalCodes(config, a) == []
  {
    AdmittedExactly(p, b);
    NoCodesMeansCompilable(config, a);
  }

  // ------------------------------------------------------ the whole proposal

  /** What is derived from a proposal: its idempotency key, its resource ref, and whether its
      request id can be encoded. */
  datatype Derivation = Derivation(
    key: (Proposal, Option<TrustedBinding>) -> JsString,
    resourceRef: Proposal -> Option<JsString>,
    encodes: JsString -> bool)

  /** The source's derivations, over a digest and a URL parser. */
  function SourceDerivation(hash: Hash, hostname: JsString -> JsString): Derivation {
    Derivation((p: Proposal, b: Option<TrustedBinding>) => IdempotencyKey(hash, p, b),
               (p: Proposal) =>
                 ResourceUris.X402ResourceRef(p.keyed.network, p.keyed.payee, hostname(p.keyed.endpointUrl)),
               id => UriComponent.Encode(id).Some?)
  }

  function Answer(d: Derivation, p: Proposal, key: JsString, refusal: Refusal): Result {
    if d.encodes(p.requestId)
    then Answered(Outcome(refusal.kind, refusal.reasonCodes, refusal.nextAction, NotStarted, key, None))
    else Rejected
  }

  function TicketFor(d: Derivation, p: Proposal, key: JsString, bound: JsString): Ticket {
    Ticket(key, d.resourceRef(p), d.encodes(p.requestId), p.keyed.atomicAmount, bound)
  }

  function TicketOf(d: Derivation, p: Proposal, o: Options): Ticket {
    var b := BindingOf(o);
    TicketFor(d, p, d.key(p, b), if b.Some? then b.value.trustedMaxAtomicAmountPerCall else [])
  }

  /** Where a proposal starts: answered at once, or on its way through the runtime. */
  function Begin(d: Derivation, p: Proposal, o: Options): RunState
    requires Parses(p)
  {
    match Preflight(p, o)
    case Some(refusal) => Done(Answer(d, p, d.key(p, BindingOf(o)), refusal))
    case None => Start(TicketOf(d, p, o))
  }

  function ProposalTrace(d: Derivation, p: Proposal, o: Options, replies: seq<Reply>): seq<Event>
    requires Parses(p)
  {
    Trace(TicketOf(d, p, o), Begin(d, p, o), replies)
  }

  function ProposalResult(d: Derivation, p: Proposal, o: Options, replies: seq<Reply>): Result
    requires Parses(p)
  {
    Final(TicketOf(d, p, o), Begin(d, p, o), replies)
  }

  /** The refusals that come before the runtime, in the order of the source. */
  method CheckBeforeRuntime(p: Proposal, o: Options, b: Option<TrustedBinding>, bindingCodes: seq<JsString>)
    returns (refusal: Option<Refusal>)
    requires Parses(p) && b == BindingOf(o)
    requires b.None? ==> bindingCodes == if BindingComplete(o) then [BINDING_INVALID] else MissingCodes(o)
    ensures refusal == Preflight(p, o)
  {
    if o.toolsListChanged {
      return Some(Refusal(ToolsListChanged, [Js("mcp_tools_list_changed")], ReloadMetadata));
    }
    if !Blank(o.currentMetadataDigest) && o.currentMetadataDigest.value != p.metadataDigest {
      return Some(Refusal(MetadataStale, [Js("mcp_metadata_digest_stale")], ReloadMetadata));
    }
    if o.installPosture.Some? && !o.installPosture.value.Ready? {
      return Some(Refusal(InstallNotReady, [InstallCode(o.installPosture.value)], FixInstall));
    }
    if b.None? {
      return Some(Refusal(InstallNotReady, bindingCodes, FixInstall));
    }
    if o.gatewayPosture == Some(Offline) {
      return Some(Refusal(GatewayOffline, [Js("mcp_gateway_offline")], WaitForGateway));
    }
    if o.gatewayPosture == Some(UnknownGateway) {
      return Some(Refusal(ToolExecutionError, [Js("mcp_gateway_posture_unknown")], Stop));
    }
    if CompareStrings(p.keyed.atomicAmount, b.value.trustedMaxAtomicAmountPerCall) > 0 {
      return Some(Refusal(Kind.Refused, [AMOUNT_EXCEEDS], RecraftRequest));
    }
    var pushed := PushBodyAndEnvironmentCodes([], p.keyed.bodyPosture, p.keyed.bodyDigest, p.keyed.environmentPosture);
    assert pushed == BodyAndEnvironmentCodes(p.keyed.bodyPosture, p.keyed.bodyDigest, p.keyed.environmentPosture);
    var codes := SortedUnique(pushed);
    return if |codes| > 0 then Some(Refusal(Kind.Refused, codes, RecraftRequest)) else None;
  }

  /** `proposeMcpX402Payment` for a parsed input. */
  method ProposeMcpX402Payment(client: RuntimeClient, d: Derivation, p: Proposal, o: Options)
    returns (result: Result)
    requires Parses(p)
    modifies client
    ensures client.trace == old(client.trace) + ProposalTrace(d, p, o, old(client.replies))
    ensures result == ProposalResult(d, p, o, old(client.replies))
  {
    var binding, bindingCodes := TrustedProposalBinding(o);
    var key := d.key(p, binding);
    var refusal := CheckBeforeRuntime(p, o, binding, bindingCodes);
    if refusal.Some? {
      return Answer(d, p, key, refusal.value);
    }
    result := ProposeContract(client, TicketFor(d, p, key, binding.value.trustedMaxAtomicAmountPerCall));
  }

  /** A refusal before the runtime makes no call at all, and is never a proposed contract. */
  lemma RefusedWithoutCalls(d: Derivation, p: Proposal, o: Options, replies: seq<Reply>)
    requires Parses(p) && Preflight(p, o).Some?
    ensures ProposalTrace(d, p, o, replies) == []
    ensures !IsProposed(ProposalResult(d, p, o, replies))
  {
    NothingFollows(TicketOf(d, p, o), Begin(d, p, o), replies);
    assert !Preflight(p, o).value.kind.ActionContractProposed?;
  }

  /** For every input, option set and throwing pattern: the calls are a prefix of the fixed five;
      any call at all means the amount was within the trusted bound; and a contract is answered
      as proposed exactly when all five calls were made and answered. */
  lemma ProposalsAreOrderedAndBounded(d: Derivation, p: Proposal, o: Options, replies: seq<Reply>)
    requires Parses(p)
    ensures var trace := ProposalTrace(d, p, o, replies);
      && |trace| <= 5
      && (forall i :: 0 <= i < |trace| ==> Place(trace[i].call) == i)
      && (forall i :: 0 <= i < |trace| - 1 ==> Answers(trace[i]))
      && (IsProposed(ProposalResult(d, p, o, replies)) <==> |trace| == 5 && Answers(trace[4]))
      && (trace != [] ==> BindingOf(o).Some?
                          && Admissible(p, BindingOf(o).value.trustedMaxAtomicAmountPerCall))
  {
    if Preflight(p, o).Some? {
      RefusedWithoutCalls(d, p, o, replies);
    } else {
      PreflightPassesExactly(p, o);
      RunsMakeAPrefix(TicketOf(d, p, o), replies);
    }
  }

  /** The key under which a proposal is compiled, when it is. */
  function CompiledKey(d: Derivation, p: Proposal, o: Options, replies: seq<Reply>): Option<JsString>
    requires Parses(p)
  {
    var trace := ProposalTrace(d, p, o, replies);
    if |trace| > 3 && trace[3].call.CompileIntent? then Some(trace[3].call.idempotencyKey) else None
  }

  lemma CompiledKeyIs(d: Derivation, p: Proposal, o: Options, replies: seq<Reply>)
    requires Parses(p) && CompiledKey(d, p, o, replies).Some?
    ensures CompiledKey(d, p, o, replies).value == d.key(p, BindingOf(o))
  {
    CompilesTheTicket(TicketOf(d, p, o), Begin(d, p, o), replies, 3);
  }

  /** Two proposals that reach compilation do so under one key exactly when they agree on every
      field the key lists. */
  lemma CompiledKeysAreExact(hash: Hash, hostname: JsString -> JsString, p: Proposal, o: Options, replies: seq<Reply>,
                             q: Proposal, o': Options, replies': seq<Reply>)
    requires Parses(p) && Parses(q)
    requires CompiledKey(SourceDerivation(hash, hostname), p, o, replies).Some?
    requires CompiledKey(SourceDerivation(hash, hostname), q, o', replies').Some?
    requires NamesItsAlgorithm(hash)
    requires NoCollision(hash, Material(p.keyed, BindingOf(o)), Material(q.keyed, BindingOf(o')))
    ensures CompiledKey(SourceDerivation(hash, hostname), p, o, replies)
         == CompiledKey(SourceDerivation(hash, hostname), q, o', replies')
       <==> KeyedAlike(p.keyed, BindingOf(o), q.keyed, BindingOf(o'))
  {
    var d := SourceDerivation(hash, hostname);
    CompiledKeyIs(d, p, o, replies);
    CompiledKeyIs(d, q, o', replies');
    KeyIsExact(hash, p, BindingOf(o), q, BindingOf(o'));
  }
}
