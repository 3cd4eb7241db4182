# Verification of the MCP and adapter surfaces

This project models the parts of the repository that decide whether a protected
action may go ahead, and proves what they promise. The models are Dafny programs
in the shape of the source: expressions are functions, objects with state are
classes, and code that pushes, loops or calls out step by step is a method proved
against a function. The theorems are lemmas about those functions.

**Texts.** `JsText`, `Decimal`, `JsonValues`: JavaScript strings as UTF-16 code
units, their default sort order, sets, integers, and JSON values whose objects are
lists of own entries.

**Canonical text** (`Canonical`, `CanonicalParser`, `CanonicalProofs`,
`CanonicalShape`, `Digests`). `canonicalizeMcp` and the kernel's `canonicalize` are
one function. A parser undoes it in front of every text that can follow a value, so
two values have one text exactly when they are the same JSON value, whatever the
order of their keys; and the text of every kind of value is given by itself.

**Idempotency** (`McpIdempotency`, `McpKeyNames`, `McpKeyFields`,
`RuntimeIdempotency`, `RuntimeKeyNames`, `RuntimeKeyFields`, `DigestedTexts`). Which
proposals and attempts share a key: exactly those that agree on what the key lists;
and what is digested under which name.

**The x402 evidence pipeline** (`X402Evidence`, `X402Reads`, `X402Payment`,
`X402Built`, `X402Grounds`, `X402PipelineProofs`, `X402OtherRequest`). Evidence
becomes an attempt, becomes contract parameters, and is verified again before
signing. Honest parameters pass; accepted parameters are bound to one requirement.
The condition for passing is exact, and a family of literal evidence shows who is
refused. What is read, built, refused and signed is written out field by field.

**Gateway runs** (`X402WalletGateway`, `X402RunProofs`, `X402Calls`,
`X402RequestDigest`, `X402RequestFields`, `AuthMdRun`, `AuthMdWritten`,
`AuthMdGateway`, `AuthMdChecks`, `AuthMdCalls`, `AuthMdLeaks`). A run is a method that
calls an environment whose every call may throw; its calls and replies are proved to
be those of a small state machine, for every script of replies, and each call is
written out from the input. The lemmas speak of all scripts: which calls are made,
what they are bound to, when the protected API is called, and when a reconciliation
leaks.

**Many runs** (`GatewayStore`, `GatewayKernel`, `X402Sandbox`, `GatewaySystem`,
`AuthMdSystem`). The one-use greenlight is proved from the store's commit, not
assumed; the sandbox is a class with counters; and any number of runs may interleave
call by call, while others use the kernel and the sandbox too.

**auth.md** (`AuthMdActions`, `AuthMdGrounds`, `LeakScanner`, `Base64`,
`EncodedTexts`, `UriComponent`, `PercentCoding`). The two checkpoints agree, and each
reason is given exactly on its own ground; the leak scanner finds what it searches,
base64-coded and percent-coded secrets included, by the alphabets and numbers of the
standards.

**MCP proposals and resources** (`McpAmounts`, `McpProposal`, `McpProposalRun`,
`McpWritten`, `ResourceUris`, `ResourceTemplates`). Amount comparison, the refusals in
their order, the five runtime calls, and the resource URIs with their parser.

**Verdicts** (`HostPacket`, `HostGrounds`, `ActivationGate`, `ActivationGrounds`,
`StableSort`, `ProofGaps`, `InterlockPacket`, `ReleaseProof`, `GapGrounds`). Derived
statuses, the lists they must agree with, and the ground of every code.

## Findings

Where the code and an expectation one could have of it part, the code is modelled
as it is, and a lemma gives the exact condition.

- src/mcp/resources.ts:70-117: an id that is empty, "." or ".." is lost when its URI
  is read back, and no other (`ResourceUris.TemplateRoundTrip`).
- src/mcp/x402-proposal.ts:191 and the like: a challenge ref names a reason and a
  request, and is read back as the reason alone; for the request id ".." it is not
  read back at all (`ResourceUris.ChallengeRefsForgetTheRequest`, and for the ten
  reasons that are printed `ResourceUris.PrintedChallengesForgetTheRequest`).
- src/adapters/auth-md/action-proposal.ts:30, against
  src/adapters/auth-md/profiles.ts:25-28: the runtime compiles a path template without
  a leading "/" (`AuthMdCalls.UnrootedPathIsCompiled`); the gateway records the
  credential and then never calls (`AuthMdCalls.UnrootedPathIsRecordedNotCalled`).
  The exact condition for the call is `AuthMdCalls.CompiledCallExactly`.
- src/adapters/auth-md/gateway.ts:402-444: the failure evidence that replaces a leaking
  one carries the caller's own operation ref, which is not scanned, so a reconciliation
  can leak (`AuthMdLeaks.BareReportLeaks`). The exact conditions are
  `AuthMdLeaks.ReportLeaksExactly`, `AuthMdLeaks.BareFailureLeaksExactly` and
  `AuthMdLeaks.UnsafeRunLeaksExactly`; when no text that the gateway or
  the protocol adds is flagged, no run leaks (`AuthMdLeaks.NoReconciliationLeaks`).
- src/surfaces/release-proof.ts:165-178: a release can be blocked by a smoke check while
  it lists no gap (`ReleaseProof.BlockedWithoutGapExactly`,
  `ReleaseProof.BlockedWithoutGapHappens`).
- src/surfaces/activation-gate.ts:180-189: the status `proof_gap` of a required gate
  counts for nothing; what decides is which gaps it lists
  (`ActivationGate.ProofGapStatusCountsForNothing`,
  `ActivationGate.UnlistedProofGapHappens`).
- src/adapters/x402-payment/wallet-gateway.ts:514: decoded evidence whose intended
  request URL is not the resource URL is refused before signing, though it has no
  refusal code (`X402PipelineProofs.HonestParametersPass`,
  `X402OtherRequest.OtherRequestIsRefused`).

## Assumptions

SHA-256 is a parameter, a function on texts. Since its range is finite it is not
assumed injective; each lemma that needs it assumes that the two texts at hand do
not collide. `UpperCasesOnce` states that upper-casing is idempotent, `IsCollation`
that a locale's order is total and transitive. Secret patterns, URL origins,
hostnames and collation are function parameters.

## Model

| member | source | states |
|---|---|---|
| `JsText.SortForgetsOrder` | src/mcp/digest.ts:13-15 | sorting keys gives one result for every order they come in |
| `CanonicalParser.RoundTrip` | src/mcp/digest.ts:3-17 | the text of a value, followed by the end, a comma or a closing bracket, parses to that value and leaves exactly what followed |
| `CanonicalParser.TextDecodes` | src/mcp/digest.ts:3-17 | the same at every nesting depth, by induction over the value |
| `CanonicalProofs.SameValuesSameText` | src/mcp/digest.ts:11-16 | equal JSON values, at any depth, have one text |
| `CanonicalProofs.ReorderingAnywhereKeepsText` | src/mcp/digest.ts:11-16 | permuting the entries of any one object, at any depth of a value, leaves the text unchanged |
| `CanonicalProofs.TextDecidesSameness` | src/mcp/digest.ts:3-17 | two values have one text exactly when they are the same JSON value |
| `CanonicalProofs.CanonicalizeMcpIsExact` | src/mcp/digest.ts:3-17 | two values have one text, or throw, alike exactly when they are the same or both hold a non-finite number; the text itself is said by the `CanonicalShape` rows |
| `CanonicalProofs.TextIsWellFormedUtf16` | src/mcp/digest.ts:19-25 | the text has no lone surrogate, so encoding it for hashing loses nothing |
| `CanonicalShape.KeysAreReadInOrder` | src/mcp/digest.ts:13-16 | reading a text back gives keys in strictly ascending order at every depth, by the first differing code unit or a proper prefix |
| `CanonicalShape.ObjectText` | src/mcp/digest.ts:13-16 | an object is printed entry by entry, least key first: brace, string, colon, value, comma |
| `CanonicalShape.ArrayText` | src/mcp/digest.ts:11-11 | an array is printed item by item between brackets, in order |
| `CanonicalShape.EmptyTexts` | src/mcp/digest.ts:11-16 | an empty array is two brackets, an empty object two braces |
| `CanonicalShape.LiteralTexts` | src/mcp/digest.ts:4-5 | the texts of null, true and false |
| `CanonicalShape.NumberText` | src/mcp/digest.ts:6-9 | an integer is printed in decimal digits without a leading zero, negative ones after a minus sign |
| `CanonicalShape.ShortEscapes` | src/mcp/digest.ts:10-10 | the text of each unit that has a short escape |
| `CanonicalShape.OtherUnits` | src/mcp/digest.ts:10-10 | other control characters and lone surrogates become four lower-case hexadecimal digits, any other unit stands for itself |
| `CanonicalShape.PairText` | src/mcp/digest.ts:10-10 | a surrogate pair stands for itself |
| `CanonicalShape.StringTextIsPiecewise` | src/mcp/digest.ts:10-10 | the text of a string is that of its parts, as long as no surrogate pair is split |
| `Digests.DigestDecidesSameness` | src/protocol/foundation/canonical.ts:20-24 | without a collision, equal digests mean the same JSON value |
| `McpIdempotency.KeyIsExact` | src/mcp/x402-proposal.ts:622-665 | two proposals share a key exactly when they agree on every listed field and on the two trusted digests |
| `McpKeyFields.McpKeyDigests` | src/mcp/x402-proposal.ts:622-665 | the digested object entry by entry, each field under its own name, and the key as a prefix and the digest |
| `RuntimeIdempotency.RuntimeKeyIsExact` | src/adapters/x402-payment/action-proposal.ts:295-326 | identifier-bound keys are shared exactly by equal identifiers, derived keys exactly by attempts and configurations that agree on each of the 28 listed fields, and the two kinds never |
| `RuntimeIdempotency.KindsDiffer` | src/adapters/x402-payment/action-proposal.ts:397-399 | an identifier-bound key is never a derived key, for any digest function |
| `RuntimeKeyFields.DerivedKeyDigests` | src/adapters/x402-payment/action-proposal.ts:295-326 | the digested object of a derived key entry by entry, each field under its own name |
| `RuntimeKeyFields.ScopeDigests` | src/adapters/x402-payment/action-proposal.ts:295-326 | the digested object of an identifier-bound key |
| `RuntimeKeyFields.DerivedKeyIs` | src/adapters/x402-payment/action-proposal.ts:295-326 | without an identifier, or with an empty one, the key is its prefix and the digest |
| `RuntimeKeyFields.IdentifiedKeyIs` | src/adapters/x402-payment/action-proposal.ts:397-399 | with an identifier, the key is its own prefix and the digest |
| `X402Payment.RefusalReasonCodes` | src/adapters/x402-payment/action-proposal.ts:410-453 | the pushed codes, sorted without repetition; none exactly when the attempt is compilable |
| `X402Payment.NoCodesMeansCompilable` | src/adapters/x402-payment/action-proposal.ts:410-453 | no code exactly when amount, evidence, body posture and environment are all in order |
| `X402Grounds.RefusedExactly` | src/adapters/x402-payment/action-proposal.ts:410-453 | each code is reported exactly when its own ground on the attempt holds, strictly ascending |
| `X402Grounds.EachRefusal` | src/adapters/x402-payment/action-proposal.ts:410-453 | the same code by code, the six of them written out |
| `X402Payment.PushBodyAndEnvironmentCodes` | src/mcp/x402-proposal.ts:752-767 | the four posture checks, in order, appended to what was pushed before |
| `X402PipelineProofs.DecodedEvidence` | src/adapters/x402-payment/upstream-evidence.ts:51-101 | decoded evidence selects one listed requirement, and carries the digest of that selection |
| `X402Reads.ReadIsRequired` | src/adapters/x402-payment/wallet-gateway.ts:433-439 | what is read of a PaymentRequired stands in it under its own keys: version 2, resource URL, every requirement in order, extension keys ascending |
| `X402Reads.RequiredIsRead` | src/adapters/x402-payment/wallet-gateway.ts:433-439 | and every value that has all of it is read |
| `X402Reads.DecodedExactly` | src/adapters/x402-payment/upstream-evidence.ts:51-101 | evidence is decoded exactly for a listed exact requirement, keeps what it was given, and digests that selection |
| `X402Reads.SurfaceIsCreatedExactly` | src/adapters/x402-payment/wallet-gateway.ts:361-385 | a signing surface is created exactly for a value that is read and no identifier, or a well-formed one that is advertised |
| `X402Built.AttemptIsBuilt` | src/adapters/x402-payment/action-proposal.ts:161-218 | an attempt is built from evidence exactly when its amount, identifier and numbers are well formed |
| `X402Built.AttemptAlsoSays` | src/adapters/x402-payment/action-proposal.ts:161-218 | the fields of an attempt that parameters do not repeat, its evidence ref cut from the digest |
| `X402PipelineProofs.BuiltParametersCarryEvidence` | src/adapters/x402-payment/action-proposal.ts:161-294 | parameters built from an attempt built from evidence say what the evidence says; the fields from the configuration and the attempt are said by the `X402Built` rows |
| `X402Built.BuiltParametersAre` | src/adapters/x402-payment/action-proposal.ts:247-326 | for every configuration and attempt, each of the six fields from the configuration, each field that repeats the attempt, the endpoint domain, and the identifier |
| `X402Built.BuiltFromEvidence` | src/adapters/x402-payment/action-proposal.ts:161-326 | from evidence to parameters: the intended request, the selected requirement and the configuration, field by field; a body digest without a posture is digest-bound |
| `X402Built.IdentifierFromEvidence` | src/adapters/x402-payment/action-proposal.ts:470-483 | posture, ref and digest of the identifier, given, advertised or neither |
| `X402Built.RecordedConfiguration` | src/adapters/x402-payment/wallet-gateway.ts:272-290 | a verified run on built parameters records the readiness and policy digests of the configuration, each in its place |
| `X402RequestFields.EvidenceDigests` | src/adapters/x402-payment/upstream-evidence.ts:89-101 | the digests of the evidence are of the whole value, the index and the selection, each under its own name |
| `X402RequestFields.IdentifierDigests` | src/adapters/x402-payment/action-proposal.ts:470-473 | an identifier is digested under its name with the name of its extension |
| `X402PipelineProofs.HonestParametersPass` | src/adapters/x402-payment/wallet-gateway.ts:441-548 | parameters of decoded evidence without refusal codes pass identifier and signing checks exactly when the intended request URL is the resource URL; otherwise the drift is the request's |
| `X402OtherRequest.OtherRequestIsRefused` | src/adapters/x402-payment/wallet-gateway.ts:514-516 | for any two URLs, a literal PaymentRequired is decoded, its attempt has no refusal code, and signing is refused for the other request exactly when the URLs differ |
| `X402PipelineProofs.AcceptanceBindsDigest` | src/adapters/x402-payment/wallet-gateway.ts:491-548 | acceptance establishes the surface's index, selected digest, identifier and requirement digest |
| `X402Grounds.AcceptedExactly` | src/adapters/x402-payment/wallet-gateway.ts:491-548 | the signing input is accepted exactly when terms, selection and digests agree, written out, and what is accepted is the requirement at the index |
| `X402Grounds.TermsReason` | src/adapters/x402-payment/wallet-gateway.ts:491-548 | a refusal of the terms names the first check that fails |
| `X402Grounds.BindingAcceptedExactly` | src/adapters/x402-payment/wallet-gateway.ts:441-463 | the identifier binding is accepted exactly when both sides have the same identifier or none |
| `X402PipelineProofs.AcceptedParametersAreBound` | src/adapters/x402-payment/wallet-gateway.ts:491-548 | a surface that accepts parameters of some evidence has that evidence's PaymentRequired, index and requirement, and every term agrees |
| `X402PipelineProofs.OneRequirementPerParameters` | src/adapters/x402-payment/wallet-gateway.ts:491-548 | no parameters are accepted by surfaces with different requirements |
| `X402PipelineProofs.OneSetOfTermsPerSurface` | src/adapters/x402-payment/wallet-gateway.ts:602-617 | one surface accepts one network, asset, token, amount, payee, scheme, timeout, version and endpoint; changing any is refused |
| `X402PipelineProofs.ClientPaysVerifiedTerms` | src/adapters/x402-payment/wallet-gateway.ts:386-395 | what the client's callback selects has the verified terms |
| `X402Grounds.SelectedExactly` | src/adapters/x402-payment/wallet-gateway.ts:386-395 | the client selects exactly the requirement at the index, when its six terms are the verified ones |
| `X402Grounds.SignedExactly` | src/adapters/x402-payment/wallet-gateway.ts:372-430 | the official surface signs exactly in custody, when both checks accept and the client answers with a header; and what the signature says |
| `X402PipelineProofs.BindingKeepsRequirements` | src/adapters/x402-payment/wallet-gateway.ts:469-480 | binding an identifier leaves version, resource and every requirement as they were, and extends one extension |
| `X402PipelineProofs.BindingSetsExtensions` | src/adapters/x402-payment/wallet-gateway.ts:469-480 | binding sets the extensions and no other key, in them one extension, and in that the identifier alone |
| `X402WalletGateway.AssertGatewayHeld` | src/adapters/x402-payment/wallet-gateway.ts:143-187 | returns exactly when the command has complete gate ids and redacted evidence of the gateway's own use, bound to that gate |
| `X402WalletGateway.RunWalletGateway` | src/adapters/x402-payment/wallet-gateway.ts:255-359 | for every script of replies, its calls with all their varying arguments and its outcome are those of the state machine, which the `X402Calls` rows write out |
| `X402Calls.RunsAreWrittenOut` | src/adapters/x402-payment/wallet-gateway.ts:255-359 | for every input and script of replies, each call written out from the input and the replies: the check, the recording, the signing, both reconciliations, and when each is made |
| `X402Calls.OutcomeIsWrittenOut` | src/adapters/x402-payment/wallet-gateway.ts:255-359 | the outcome, from the last call and its reply |
| `X402Calls.VerifiedGateIs` | src/adapters/x402-payment/wallet-gateway.ts:255-270 | a gate is verified exactly by a passed decision with a mutation attempt that names an operation, and repeats it field by field |
| `X402Calls.HeldIsCustody` | src/adapters/x402-payment/wallet-gateway.ts:143-187 | gateway-held custody, written out from gate and evidence |
| `X402WalletGateway.Environment.Perform` | src/adapters/x402-payment/wallet-gateway.ts:201-207 | a call is remembered with the reply it got |
| `X402RunProofs.NoGateNoCalls` | src/adapters/x402-payment/wallet-gateway.ts:255-270 | without a verified gate there is no call after the check |
| `X402RunProofs.SigningIsGated` | src/adapters/x402-payment/wallet-gateway.ts:272-302 | signing happens at most once, third, with the verified gate, its recorded evidence and the observed parameters |
| `X402RunProofs.SecondReconciliationIsFailure` | src/adapters/x402-payment/wallet-gateway.ts:315-358 | a second reconciliation follows only one that did not come through, is last, and reports failure |
| `X402RunProofs.VerifiedRunsEndReconciled` | src/adapters/x402-payment/wallet-gateway.ts:272-359 | a verified run ends by reconciling its own mutation, citing its credential evidence, and its outcome is that of the reconciled status |
| `X402RequestDigest.RecordingsAreBound` | src/adapters/x402-payment/wallet-gateway.ts:568-590 | two verified runs record one request digest exactly when they are for one gate attempt, contract and payment, listed field by field |
| `X402RequestFields.RecordedTexts` | src/adapters/x402-payment/wallet-gateway.ts:568-590 | every verified run records the digest of exactly this text, each field under its own name |
| `GatewayStore.InMemoryProtocolStore.CommitGatewayCheck` | src/storage/memory/index.ts:266-317 | the whole new state and the result, for every conflict and for success; what they mean is in the rows below |
| `GatewayStore.GreenlightConsumedOnce` | src/storage/memory/index.ts:266-317 | over any run of commits a greenlight is consumed at most once |
| `GatewayStore.OffsetsStayUnique` | src/storage/memory/index.ts:266-317 | no two events of a stream ever share an offset |
| `GatewayStore.ResultExactly` | src/storage/memory/index.ts:266-286 | each conflict is reported exactly when its own index already has a key of the commit and no earlier one does |
| `GatewayStore.StreamConflictIsLast` | src/storage/memory/index.ts:285-287 | a stream conflict is reported only when nothing else is in the way |
| `GatewayStore.CommittedIsFound` | src/storage/memory/index.ts:288-316 | a commit that does not go through changes nothing; after one that does every claim, ledger and receipt key is found with the value last given, and every other as before |
| `GatewayStore.CommittedRecordsAreFound` | src/storage/memory/index.ts:288-316 | the same for records, which the events join under their own type |
| `GatewayStore.CommittedConsumption` | src/storage/memory/index.ts:288-300 | exactly the commit's own greenlight is newly consumed |
| `GatewayStore.ClaimTakenOnce` | src/storage/memory/index.ts:270-277 | over any run of commits from any state, an operation claim is taken at most once |
| `GatewayStore.ReceiptIndexedOnce` | src/storage/memory/index.ts:278-284 | and a receipt is indexed at most once |
| `GatewayKernel.CommitPlan` | src/protocol/areas/gateway-gate/transitions.ts:220-263 | the store it leaves and its reply are those of four commits at most, each other conflict turned into a replay refusal |
| `GatewayKernel.CommitReplayRefusal` | src/protocol/areas/gateway-gate/replay-refusal/index.ts:25-186 | the store it leaves and its reply are those of one commit without consumption |
| `GatewayKernel.PlanIsOneUse` | src/protocol/areas/gateway-gate/transitions.ts:220-263 | whatever conflicts occur, the store moves on by the one-use contract |
| `GatewayKernel.VerifiedExactly` | src/protocol/areas/gateway-gate/transitions.ts:220-263 | a gate is verified exactly when the plan has no refusal and is committed on one of the chains after nothing but stream conflicts |
| `GatewayKernel.VerifiedGateIsThePlan` | src/protocol/areas/gateway-gate/transitions.ts:304-337 | what is verified repeats the plan field by field, and consumes the plan's greenlight |
| `GatewayKernel.VerifiedPlanIsCommitted` | src/protocol/areas/gateway-gate/transitions.ts:304-337 | claims, ledger, receipts, records and events of the plan are committed with it |
| `GatewayKernel.RefusedPlanIsCommitted` | src/protocol/areas/gateway-gate/transitions.ts:304-337 | a planned refusal is committed without consumption, claim or ledger entry |
| `GatewayKernel.ConsumedIsNeverVerified` | src/protocol/areas/gateway-gate/transitions.ts:220-263 | a check on a consumed greenlight verifies nothing and changes nothing |
| `X402Sandbox.LocalSandbox.RecordSignedRetry` | src/adapters/x402-payment/sandbox-http.ts:124-186 | counters, last retry and result after any retry; refused ones change no count |
| `X402Sandbox.LocalSandbox.RequestPaymentRequired` | src/adapters/x402-payment/sandbox-http.ts:103-123 | every challenge is counted, also one whose decoding throws |
| `X402Sandbox.SignThroughSandbox` | src/adapters/x402-payment/sandbox-http.ts:189-234 | the sandbox it leaves and its reply are those of the specification |
| `X402Sandbox.SignedMeansRecorded` | src/adapters/x402-payment/sandbox-http.ts:201-219 | whatever the official surface signs is recorded: the refusal branch is unreachable |
| `X402Sandbox.SigningRecordsAtMostOne` | src/adapters/x402-payment/sandbox-http.ts:201-219 | a signing records at most one retry and keeps the numbering |
| `X402Sandbox.RetriesStayNumbered` | src/adapters/x402-payment/sandbox-http.ts:124-186 | recorded retries are numbered 1 to n in order, whatever arrives |
| `X402Grounds.RetriedExactly` | src/adapters/x402-payment/sandbox-http.ts:124-186 | a retry is recorded exactly when signed under the right header, for the reference sandbox, with complete evidence |
| `X402Grounds.AfterRetryIs` | src/adapters/x402-payment/sandbox-http.ts:124-186 | every field of the sandbox after a retry, recorded or refused |
| `X402Grounds.SandboxReplyIs` | src/adapters/x402-payment/sandbox-http.ts:189-222 | a signature through the sandbox carries the confirmation of the next retry, ref by ref |
| `X402Grounds.DefaultRefs` | src/adapters/x402-payment/sandbox-http.ts:103-114 | the refs of a sandbox when none are configured |
| `GatewaySystem.ReachableIsSafe` | src/adapters/x402-payment/wallet-gateway.ts:255-359 | the safety invariant holds after every interleaving of any number of runs |
| `GatewaySystem.GreenlightSignsAtMostOnce` | src/adapters/x402-payment/wallet-gateway.ts:255-359 | over every interleaving no greenlight is verified twice or signed under twice |
| `GatewaySystem.EveryRunIsARun` | src/adapters/x402-payment/wallet-gateway.ts:255-359 | each interleaved run's calls are the beginning of a run by itself |
| `GatewaySystem.AnyStepIsLegal` | src/adapters/x402-payment/wallet-gateway.ts:255-359 | nothing else is forbidden: a check may verify an unconsumed greenlight or nothing, and every other call may be answered in any way at any time |
| `GatewaySystem.ReachableIsCounted` | src/adapters/x402-payment/sandbox-http.ts:115-186 | recorded retries are at most the signings and what others recorded; signings are at most the verified gates, these at most the consumed greenlights |
| `AuthMdActions.AuthMdRefusalReasonCodes` | src/adapters/auth-md/action-proposal.ts:316-337 | the pushed reasons, sorted without repetition; which ground each stands for is in the `AuthMdGrounds` rows |
| `AuthMdGrounds.RefusedExactly` | src/adapters/auth-md/action-proposal.ts:316-337 | each of the eleven codes is reported exactly when its own ground on the attempt holds, strictly ascending |
| `AuthMdGrounds.TransportRefusals` | src/adapters/auth-md/action-proposal.ts:316-337 | code by code for the transport, the methods named |
| `AuthMdGrounds.PostureRefusals` | src/adapters/auth-md/action-proposal.ts:316-337 | code by code for scopes and freshness |
| `AuthMdGrounds.CustodyRefusals` | src/protocol/areas/credential-custody/custody-posture.ts:3-6 | code by code for idempotency material, retries and custody, the custody statuses named |
| `AuthMdGrounds.BuiltParametersAre` | src/adapters/auth-md/action-proposal.ts:186-314 | the parameters built from an attempt, field by field; none exactly when an origin is missing |
| `AuthMdActions.UnsafeObservedParameterReasons` | src/adapters/auth-md/gateway.ts:320-355 | the reasons of the reconstructed attempt, and the origin mismatch of the recorded origins |
| `AuthMdGrounds.UnsafeExactly` | src/adapters/auth-md/gateway.ts:320-355 | each reason is reported exactly when its ground holds of the observed parameters, or the origins differ |
| `AuthMdActions.CheckpointsAgree` | src/adapters/auth-md/gateway.ts:320-355 | for every attempt the gateway's reasons are the runtime's without missing idempotency material, in the same order |
| `AuthMdActions.CompiledIsSafe` | src/adapters/auth-md/action-proposal.ts:186-222 | what the runtime compiles the gateway finds safe |
| `AuthMdRun.RunProtectedApiCallGateway` | src/adapters/auth-md/gateway.ts:179-318 | for every script of replies, its calls with all their varying arguments and its outcome are those of the state machine |
| `AuthMdWritten.RunsAreWrittenOut` | src/adapters/auth-md/gateway.ts:179-318 | for every input and script of replies, each call written out from the input and the replies, and when each is made |
| `AuthMdWritten.OutcomeIsWrittenOut` | src/adapters/auth-md/gateway.ts:179-318 | the outcome of a verified run, from the last call and its reply |
| `AuthMdWritten.UnverifiedOutcome` | src/adapters/auth-md/gateway.ts:179-197 | without a verified gate: refused, not authoritative, or thrown |
| `AuthMdRun.UnsafeRunIsRefused` | src/adapters/auth-md/gateway.ts:198-228 | unsafe parameters lead to exactly one "refused" reconciliation that cites every reason, no credential evidence and no API call |
| `AuthMdRun.ApiCallIsPermitted` | src/adapters/auth-md/gateway.ts:230-270 | the API is called at most once, third, after a verified gate and its recorded credential, when nothing refused |
| `AuthMdRun.VerifiedRunsEndReconciled` | src/adapters/auth-md/gateway.ts:198-318 | every verified gate's mutation is reconciled last, and the outcome is the one of what was reported |
| `AuthMdSystem.GreenlightCallsAtMostOnce` | src/adapters/auth-md/gateway.ts:179-318 | over any number of runs in any order, two API calls under one greenlight are one call of one run |
| `AuthMdSystem.AnyRunMayFollow` | src/adapters/auth-md/gateway.ts:179-318 | nothing else is forbidden: any run follows whose check verifies nothing, or its own unconsumed greenlight |
| `AuthMdGateway.AssertConformance` | src/adapters/auth-md/gateway.ts:62-103 | returns exactly when the contract is the expected one, the transport is exact and the parameters do not leak |
| `AuthMdChecks.ConformanceExactly` | src/adapters/auth-md/gateway.ts:62-103 | the assertion returns exactly for the expected contract, one of five methods, a rooted path, nothing dynamic and no flagged text |
| `AuthMdChecks.ParametersLeakExactly` | src/adapters/auth-md/gateway.ts:62-103 | the scan of the parameters finds something exactly when one of the listed texts is flagged |
| `AuthMdChecks.ApiLeaksExactly` | src/adapters/auth-md/gateway.ts:252-270 | likewise for the evidence of a call |
| `AuthMdChecks.GatewayInputIs` | src/adapters/auth-md/gateway.ts:179-228 | what a run is made with: ids, operation ref, reasons and the signal of a refusal |
| `AuthMdChecks.ReportIs` | src/adapters/auth-md/gateway.ts:402-444 | a failure is reported by the evidence read off what was thrown, default by default, unless a text of it is flagged |
| `AuthMdChecks.RequestDigestIs` | src/adapters/auth-md/gateway.ts:357-376 | the recorded request is the digest of exactly these entries |
| `AuthMdGateway.RedactedFailure` | src/adapters/auth-md/gateway.ts:402-444 | what is reported of a failure does not leak, or is the bare evidence made of the operation ref |
| `AuthMdGateway.RunFollowsTheRuntime` | src/adapters/auth-md/gateway.ts:198-228 | a verified run on built parameters records a credential exactly when the runtime objects to nothing but missing idempotency material |
| `AuthMdGateway.ApiCallIsChecked` | src/adapters/auth-md/gateway.ts:252-267 | an API call has safe parameters, an exact transport, the run's own contract and no leak |
| `AuthMdCalls.ApiCallExactly` | src/adapters/auth-md/gateway.ts:230-267 | with safe parameters and a recorded credential, the third call is the API call exactly when the conformance assertion returns |
| `AuthMdCalls.PathIsNotCompiledAgainst` | src/adapters/auth-md/action-proposal.ts:316-337 | the path template changes neither the runtime's reasons nor whether parameters are built |
| `AuthMdCalls.CompiledCallExactly` | src/adapters/auth-md/gateway.ts:62-103 | for every compiled attempt the API is called exactly when the path template starts with "/", the gate is for the expected contract and no parameter leaks |
| `AuthMdCalls.UnrootedPathIsRecordedNotCalled` | src/adapters/auth-md/gateway.ts:76-101 | a compiled path template without a leading "/" has its credential recorded, is never called, and is reconciled as failed |
| `AuthMdCalls.UnrootedPathIsCompiled` | src/adapters/auth-md/action-proposal.ts:30-30 | an attempt with the path template "users" that the runtime has nothing against |
| `AuthMdLeaks.ReportLeaksExactly` | src/adapters/auth-md/gateway.ts:402-444 | what is reported leaks exactly when both the failure evidence and its bare replacement do |
| `AuthMdLeaks.BareFailureLeaksExactly` | src/adapters/auth-md/gateway.ts:428-442 | the bare evidence leaks exactly when the operation ref, the failure ref or the redaction digest is flagged |
| `AuthMdLeaks.ApiCallLeaksExactly` | src/adapters/auth-md/gateway.ts:267-286 | the reconciliation of a scanned API call leaks exactly when the gate's ids, or one of the two refs added after the scan, are flagged |
| `AuthMdLeaks.FailureCallLeaksExactly` | src/adapters/auth-md/gateway.ts:198-228 | a failed or refused reconciliation leaks exactly when the gate's ids, the operation ref, the report or an added ref does |
| `AuthMdLeaks.UnsafeRunLeaksExactly` | src/adapters/auth-md/gateway.ts:198-228 | the reconciliation of unsafe parameters leaks exactly when an id, a reason ref, the operation ref or the failure ref is flagged, or both digests are |
| `AuthMdLeaks.BareReportLeaks` | src/adapters/auth-md/gateway.ts:428-442 | a concrete run whose reconciliation leaks after the scan refused the evidence |
| `AuthMdLeaks.NoReconciliationLeaks` | src/adapters/auth-md/gateway.ts:179-318 | when no text that the gateway or the protocol adds is flagged, no reconciliation of any run leaks anywhere, whatever the API answers and whatever is thrown |
| `Base64.DecodeUndoesEncode` | src/adapters/auth-md/profiles.ts:924-934 | base64 and base64url, padded or not, of any printable text decode to that text |
| `Base64.AtobUndoesEncoding` | src/adapters/auth-md/profiles.ts:928-929 | the padded standard encoding of any bytes decodes to them |
| `EncodedTexts.LettersAreTabulated` | src/adapters/auth-md/profiles.ts:924-934 | both alphabets, letter by letter, in both directions |
| `EncodedTexts.GroupsArePacked` | src/adapters/auth-md/profiles.ts:928-929 | every four letters are three bytes, as one number |
| `EncodedTexts.LastGroupIsPacked` | src/adapters/auth-md/profiles.ts:928-929 | two letters at the end are one byte, three are two |
| `EncodedTexts.DecodesExactly` | src/adapters/auth-md/profiles.ts:924-934 | letters and padding are decoded exactly when there are letters, the padding fits and every byte is printable |
| `EncodedTexts.OnlyLettersDecode` | src/adapters/auth-md/profiles.ts:924-934 | nothing but letters with at most two padding characters is decoded |
| `LeakScanner.TokensAreTheLongRuns` | src/adapters/auth-md/profiles.ts:916-916 | the matched tokens are exactly the maximal runs of at least 16 token characters |
| `EncodedTexts.TokensAreExactly` | src/adapters/auth-md/profiles.ts:916-916 | the same with the token characters and the length written out |
| `LeakScanner.CredentialMaterialVariants` | src/adapters/auth-md/profiles.ts:908-922 | the set of variants in insertion order |
| `LeakScanner.VariantsAreExact` | src/adapters/auth-md/profiles.ts:908-922 | a variant is the text, its percent-decoding, or the decoding of one of those runs, and nothing else |
| `LeakScanner.LooksLikeCredentialMaterial` | src/adapters/auth-md/profiles.ts:896-906 | true exactly when some variant matches a secret pattern |
| `EncodedTexts.FlaggedExactly` | src/adapters/auth-md/profiles.ts:896-922 | a text is flagged exactly when it, its percent-decoding, or the decoding of one of its tokens matches |
| `LeakScanner.FindCredentialMaterialPath` | src/adapters/auth-md/profiles.ts:878-894 | returns the printed path of the first flagged text, or none |
| `EncodedTexts.PathIsPrinted` | src/adapters/auth-md/profiles.ts:878-894 | each step of the path is printed as a bracketed index or a dotted key |
| `LeakScanner.SearchFindsTheFirst` | src/adapters/auth-md/profiles.ts:878-894 | none exactly when no string leaf is flagged; otherwise the path leads to a flagged leaf before every other in traversal order |
| `LeakScanner.EncodingIsAVariant` | src/adapters/auth-md/profiles.ts:908-922 | an encoding of at least 16 characters between characters outside the token class makes its text a variant |
| `LeakScanner.Base64SecretIsFound` | src/adapters/auth-md/profiles.ts:735-740 | a base64-coded secret in any leaf is found |
| `LeakScanner.PercentCodedSecretIsFound` | src/adapters/auth-md/profiles.ts:910-914 | a percent-coded secret in any leaf is found |
| `UriComponent.EncodeRoundTrip` | src/mcp/resources.ts:73-73 | encoding fails exactly on lone surrogates, and decoding undoes it |
| `PercentCoding.EncodeIs` | src/mcp/resources.ts:73-73 | encoding writes one code point after the other, an unreserved one as itself, any other as escapes of its UTF-8 bytes |
| `PercentCoding.UnreservedAre` | src/mcp/resources.ts:73-73 | the unreserved characters: letters, digits and nine marks |
| `PercentCoding.Utf8IsPacked` | src/mcp/resources.ts:73-73 | the bytes of a code point: how many, their marks, and the bits they hold |
| `PercentCoding.Utf16IsPacked` | src/mcp/resources.ts:73-73 | the one or two code units of a code point |
| `PercentCoding.EscapeIs` | src/mcp/resources.ts:73-73 | an escape is a percent sign and two upper-case hexadecimal digits |
| `PercentCoding.DigitsAreRead` | src/mcp/resources.ts:73-73 | hexadecimal digits of either case are read |
| `PercentCoding.SpelledIsDecoded` | src/mcp/resources.ts:73-73 | escapes of a code point, in digits of either case, decode to it and what follows |
| `PercentCoding.MalformedIsRefused` | src/mcp/resources.ts:73-73 | a percent sign that starts no code point's escapes is refused |
| `PercentCoding.UnescapedIsKept` | src/mcp/resources.ts:73-73 | anything else stands for itself |
| `ResourceUris.TemplateRoundTrip` | src/mcp/resources.ts:70-117 | a filled template parses to its kind and id exactly when the id is not empty, "." or ".." |
| `ResourceUris.PrintIsInjective` | src/mcp/catalog.ts:18-82 | no two resources share a URI |
| `ResourceTemplates.PrintIs` | src/mcp/catalog.ts:18-82 | the text of every filled template |
| `ResourceTemplates.ClassifiedExactly` | src/mcp/resources.ts:70-117 | a host and segments are read as a resource exactly for the listed host, names and positions, whatever follows |
| `ResourceTemplates.DotSegmentsAre` | src/mcp/resources.ts:71-73 | dot segments are one or two dots, each plain or escaped |
| `ResourceTemplates.ChallengeRefIs` | src/mcp/x402-proposal.ts:185-294 | the text of a challenge ref |
| `ResourceTemplates.X402ResourceRefIs` | src/mcp/x402-proposal.ts:769-774 | the text of a resource ref |
| `ResourceUris.ChallengeRefsForgetTheRequest` | src/mcp/x402-proposal.ts:185-294 | a challenge ref is read back as its reason alone, or, for the request id "..", not at all |
| `ResourceUris.PrintedChallengesForgetTheRequest` | src/mcp/x402-proposal.ts:185-556 | each of the ten reasons the source prints is read back without its request |
| `ResourceUris.X402ResourceRefIsInjective` | src/mcp/x402-proposal.ts:769-774 | equal resource refs have equal network, payee and domain |
| `McpAmounts.StringComparisonIsNumeric` | src/mcp/x402-proposal.ts:780-785 | the sign of the string comparison is that of the integer difference, leading zeros included, and that of the runtime's comparison |
| `McpProposal.TrustedProposalBinding` | src/mcp/x402-proposal.ts:708-746 | the binding, or the codes of what is missing or invalid; never both |
| `McpWritten.BoundExactly` | src/mcp/x402-proposal.ts:708-746 | options are trusted exactly when amount, readiness and policy are given and well formed |
| `McpWritten.LackingIsMissing` | src/mcp/x402-proposal.ts:713-721 | otherwise the codes of what is lacking, in order |
| `McpProposal.CheckBeforeRuntime` | src/mcp/x402-proposal.ts:180-296 | the first refusal in the order of the source, or none |
| `McpWritten.FreshnessIsFirst` | src/mcp/x402-proposal.ts:180-244 | what is stale, not installed or not trusted is refused for the first such reason, with its code and next action |
| `McpWritten.GatewayIsNext` | src/mcp/x402-proposal.ts:246-265 | then a gateway that is offline or unknown |
| `McpWritten.AmountIsNext` | src/mcp/x402-proposal.ts:267-280 | then an amount over the bound, as numbers |
| `McpWritten.PostureIsLast` | src/mcp/x402-proposal.ts:282-296 | and last the body and the environment; nothing else is refused |
| `McpWritten.PostureCodesAre` | src/mcp/x402-proposal.ts:752-767 | the codes whose ground holds, strictly ascending |
| `McpProposal.PreflightPassesExactly` | src/mcp/x402-proposal.ts:180-296 | a proposal reaches the runtime exactly when it is fresh, installed, trusted, online, within the bound and payable |
| `McpProposal.RuntimeAgrees` | src/mcp/x402-proposal.ts:267-296 | for the same bound the MCP surface and the runtime refuse the same amounts, bodies and environments |
| `McpProposal.ProposeMcpX402Payment` | src/mcp/x402-proposal.ts:165-379 | for every script of replies, its calls and result are those of the specification |
| `McpWritten.RefusalIsAnswered` | src/mcp/x402-proposal.ts:180-296 | a refusal before the runtime is answered as it is, not started, under the proposal's key, unless the request id cannot be encoded |
| `McpWritten.AdmittedRuns` | src/mcp/x402-proposal.ts:381-608 | an admitted proposal runs with its own key, amount, bound and resource ref, and the run is the one written out |
| `McpProposal.RefusedWithoutCalls` | src/mcp/x402-proposal.ts:180-296 | a refusal before the runtime makes no call |
| `McpProposal.ProposalsAreOrderedAndBounded` | src/mcp/x402-proposal.ts:165-379 | the calls are a prefix of the fixed five, any call means an amount within the bound, and a contract is proposed exactly when all five were answered |
| `McpProposal.CompiledKeysAreExact` | src/mcp/x402-proposal.ts:622-665 | two proposals are compiled under one key exactly when they agree on the listed fields |
| `McpProposalRun.ProposeContract` | src/mcp/x402-proposal.ts:381-608 | its calls, their arguments and its result, for every script of replies |
| `McpWritten.RunsAreWrittenOut` | src/mcp/x402-proposal.ts:381-608 | for every ticket and script of replies, each call written out from the ticket and the replies, and the result |
| `McpWritten.ProposableExactly` | src/mcp/x402-proposal.ts:519-554 | a compilation is proposed exactly when contractable, without any code, and with a digest |
| `McpWritten.RefusedCompilationIs` | src/mcp/x402-proposal.ts:519-556 | any other is refused with its own codes, or the code of what it lacks |
| `McpProposalRun.Caught` | src/mcp/x402-proposal.ts:298-378 | no thrown error is answered as a proposed contract |
| `McpWritten.CaughtIs` | src/mcp/x402-proposal.ts:298-378 | the kind and next action of every thrown error, from its code and what it says was recorded |
| `McpWritten.CommitStateIs` | src/mcp/x402-proposal.ts:798-811 | the commit state of every thrown error |
| `McpWritten.CaughtUnlessUnprintable` | src/mcp/x402-proposal.ts:298-378 | it is answered unless one of its refs, or the request, cannot be encoded |
| `McpProposalRun.RunsMakeAPrefix` | src/mcp/x402-proposal.ts:381-608 | the calls made are a prefix of five, each but the last answered; proposed exactly when all five are |
| `McpProposalRun.OnlyContractableIsProposed` | src/mcp/x402-proposal.ts:519-569 | the fifth call names the compiled candidate, which is contractable, has a digest and no reason code |
| `McpProposalRun.ContractableIsProposed` | src/mcp/x402-proposal.ts:519-569 | after a compilation the fifth call is made exactly when it is contractable |
| `McpProposalRun.ProposedAnswersTheCalls` | src/mcp/x402-proposal.ts:571-608 | the ids of a proposed contract are the ones the calls returned, and the compilation was asked under them |
| `McpProposalRun.CompilesTheTicket` | src/mcp/x402-proposal.ts:461-517 | the compilation is asked for the proposal's own amount, bound, resource and key |
| `HostPacket.AppendDerivedReasonCodes` | src/adapters/protected-path-probes/host-fixture.ts:318-345 | the caller's codes followed by all derived ones, over any list of results |
| `HostPacket.DerivePacket` | src/adapters/protected-path-probes/host-fixture.ts:218-270 | the posture and the sorted codes without repetition; READY exactly when there is no code |
| `HostPacket.ReadyMeansNoCodes` | src/adapters/protected-path-probes/host-fixture.ts:300-375 | READY exactly when the final list of codes is empty |
| `HostPacket.ReadyMeansObserved` | src/adapters/protected-path-probes/host-fixture.ts:300-375 | READY exactly when everything was observed, fresh and bound, and no result is open |
| `HostPacket.PostureIsListed` | src/adapters/protected-path-probes/host-fixture.ts:347-375 | the posture's own code is among the listed codes |
| `HostGrounds.FirstPostures` | src/adapters/protected-path-probes/host-fixture.ts:347-375 | wrapper, tool, freshness, binding and mutation postures are the first that applies, from the packet's fields |
| `HostGrounds.LastPostures` | src/adapters/protected-path-probes/host-fixture.ts:347-375 | then what is unproven, what only advises, and codes that were only reported; otherwise READY |
| `HostGrounds.ListedExactly` | src/adapters/protected-path-probes/host-fixture.ts:300-345 | each code is listed exactly when its own ground holds or it was reported, strictly ascending |
| `ActivationGate.BlockingGates` | src/surfaces/activation-gate.ts:180-189 | the sorted set of the ids of the gates that block |
| `ActivationGate.ProjectReport` | src/surfaces/activation-gate.ts:145-178 | verdict, id lists and carried gaps; an unblocked verdict has no blocking gate, unsatisfied criterion or anti-pattern |
| `ActivationGate.CarriedExactly` | src/surfaces/activation-gate.ts:145-178 | the carried gaps are exactly the gaps, of any gate, that do not block, in collation order |
| `ActivationGate.UnblockedExactly` | src/surfaces/activation-gate.ts:217-233 | unblocked exactly when criteria are met, no required gate blocks, one is in scope, and nothing is cut or carried unless a narrowed pass is allowed |
| `ActivationGrounds.VerdictIsWritten` | src/surfaces/activation-gate.ts:217-233 | each of the four verdicts exactly from statuses, priorities, evidence, gaps, criteria and policy |
| `ActivationGrounds.BlockingIdsExactly` | src/surfaces/activation-gate.ts:180-197 | the blocking ids are those of the gates that count and block, once each, ascending |
| `ActivationGrounds.CutIdsExactly` | src/surfaces/activation-gate.ts:147-151 | the cut ids are those of the gates that count and are cut, sorted |
| `ActivationGrounds.UnsatisfiedIdsExactly` | src/surfaces/activation-gate.ts:199-208 | the ids of unsatisfied criteria, sorted |
| `ActivationGrounds.TriggeredIdsExactly` | src/surfaces/activation-gate.ts:210-215 | the ids of the anti-patterns that are present, sorted |
| `ActivationGate.BlockedStaysBlocked` | src/surfaces/activation-gate.ts:217-233 | adding gates, criteria or anti-patterns keeps a blocked report blocked |
| `ActivationGate.OrderDoesNotMatter` | src/surfaces/activation-gate.ts:145-178 | permuting the gates changes neither verdict nor ids, and the carried gaps only in the order of equal codes |
| `ActivationGate.UnlistedProofGapPasses` | src/surfaces/activation-gate.ts:180-189 | adding a required gate in status proof_gap that lists no gap leaves an unblocked verdict the very same |
| `ActivationGate.ProofGapStatusCountsForNothing` | src/surfaces/activation-gate.ts:180-189 | adding a required gate in status proof_gap keeps a report unblocked exactly when no gap it lists blocks and, unless a narrowed pass is allowed, it lists none |
| `ActivationGate.UnlistedProofGapHappens` | src/surfaces/activation-gate.ts:180-189 | a report with a met criterion and an absent anti-pattern that passes with such a gate |
| `ProofGaps.DedupeProofGaps` | src/adapters/auth-md-x402-interlock/packet.ts:308-312 | the loop over the map and the stable sort |
| `ProofGaps.DedupeKeepsTheLast` | src/surfaces/release-proof.ts:245-249 | one gap per reason code, the last pushed, in collation order |
| `ProofGaps.DedupeIsStrictExactly` | src/surfaces/release-proof.ts:245-249 | the order is strict exactly when the collation tells the pushed codes apart |
| `ProofGaps.DedupeIsIdempotent` | src/surfaces/release-proof.ts:245-249 | deduplicating again changes nothing |
| `ProofGaps.DedupeKeepsEveryCode` | src/adapters/auth-md-x402-interlock/packet.ts:308-312 | every pushed code is listed, and no other |
| `StableSort.SortIsStable` | src/surfaces/release-proof.ts:245-249 | codes the collation does not tell apart keep their order |
| `ProofGaps.DerivedReplaceGiven` | src/adapters/auth-md-x402-interlock/packet.ts:203-219 | every derived gap is kept, and of the given ones the last of each code that was not derived |
| `InterlockPacket.ProjectPacket` | src/adapters/auth-md-x402-interlock/packet.ts:203-219 | gaps, blocked checks and ordering posture; an unproven ordering is always listed |
| `InterlockPacket.OrderingIsListed` | src/adapters/auth-md-x402-interlock/packet.ts:221-279 | one of the five ordering codes is listed exactly when the ordering is not proven or the caller reported one |
| `GapGrounds.InterlockGapsExactly` | src/adapters/auth-md-x402-interlock/packet.ts:222-306 | a gap is in the packet exactly for its own ground, with the evidence of its side, or given and not replaced |
| `GapGrounds.OrderingIsProvenExactly` | src/adapters/auth-md-x402-interlock/packet.ts:263-279 | the ordering is proven exactly when both evidences come after the gate and decision, greenlight and check are there |
| `ReleaseProof.ProjectRelease` | src/surfaces/release-proof.ts:137-163 | state and deduplicated gaps; a discoverable release has none |
| `ReleaseProof.DiscoverableExactly` | src/surfaces/release-proof.ts:137-163 | discoverable exactly when no gap is left and the four smoke checks without a gap passed |
| `GapGrounds.ReleaseGapsExactly` | src/surfaces/release-proof.ts:191-243 | a gap is listed exactly for its own ground, with its own evidence, or given and not replaced |
| `GapGrounds.ReleaseStateIs` | src/surfaces/release-proof.ts:165-189 | each of the four states, from the fields of the evidence |
| `ReleaseProof.BlockedWithoutGapExactly` | src/surfaces/release-proof.ts:137-233 | blocked with no listed gap exactly when every listed condition is met and only the local pack or the proposal smoke check failed, field by field |
| `ReleaseProof.BlockedWithoutGapHappens` | src/surfaces/release-proof.ts:165-178 | a concrete release in that state, with its thirteen shape flags |

## Left out

- SHA-256, HMAC and Ed25519: a digest is a function parameter, and collisions are excluded for the texts at hand only.
- Non-integer numbers: JSON numbers are integers or non-finite, so `-0` and the printing of fractions do not occur; `maxTimeoutSeconds` is an integer.
- The x402 SDK: its PaymentRequired schema is read through the fields the adapter uses; decoding a header's base64 and JSON is a parameter; its client throws or calls the selection callback.
- The parameters of an MCP proposal have another shape; the pipeline lemmas are about those of a runtime attempt.
- Input schemas: a parsed input is the starting point. Checks that only reject more, and the invalid-input answer of the MCP tool, are not modelled.
- `new URL`: origin and hostname are function parameters. `ResourceUris` models authority, path splitting and dot segments on texts of slashes, unreserved characters and escapes; other schemes, ports, queries and fragments are not modelled.
- `GatewayKernel.CommitPlan`: what the gateway check evaluates before it commits (policy, drift, idempotency) is a parameter of its plan, and the other methods of the store are not modelled.
- `GatewayKernel.CommitReplayRefusal`: the reason code of a refused replay (already consumed, operation in progress, receipt conflict) is not part of the modelled reply; its records and events are a parameter.
- Literal arguments of the gateways' calls (result class, reason code, redaction status, the adapter's name) are constants and are left out. The digest of a failure's diagnostics is a parameter of the auth.md run, and the fixed words of a report (retryability, posture) are not among the texts scanned.
- `LeakScanner.SearchFindsTheFirst`: object keys are not searched, as in the source; the secret patterns are one predicate on texts.
- `McpProposal.ProposeMcpX402Payment`: evidence refs, challenge refs, metadata and correlation refs and retryability of an outcome are not part of the result; what a challenge ref is read back as is in `ResourceUris`.
- `McpProposalRun.ProposeContract`: of the arguments of the five calls, those that tie the calls together are modelled (ids, resource, amount, bound, key, candidate digest), not the fields copied from the proposal.
- `X402Sandbox.SignThroughSandbox`: the official surface beneath it has its default refs and status, as the sandbox surface creates it; an official surface configured otherwise and used by itself is not modelled.
- Amount collation: `localeCompare` on digit strings of one length is taken to compare them digit by digit.
- Dates of the host packet are taken as parsed, and an unparsable date is not modelled.
- Activation reports: external checks enter no verdict in the source and are not modelled.
- Package-install, preview-deploy and repo-write gateways, the CLI, the HTTP app and the SDK transport: the same run shape with fewer steps, or plumbing.
- Conformance tables, manifests and launch gates: finite constant tables.
