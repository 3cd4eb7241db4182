/** Any number of runs of the auth.md gateway over one kernel, interleaved in any way. */
module AuthMdSystem {
  import opened JsText
  import opened GatewayKernel
  import opened AuthMdRun
  import X402WalletGateway

  /** A run, and the kernel's consumptions as its gateway check found and left them. The other calls
      of a run touch no consumption, so the order of the checks is all that an interleaving
      decides. */
  datatype Checked = Checked(input: Input, replies: seq<Reply>, before: Consumptions, after: Consumptions)

  /** The greenlight that a run's gateway check asks about. */
  function Asked(r: Checked): JsString {
    Pending(r.input, AtCheck).greenlightId
  }

  /** A check's reply as the kernel's contract speaks of it. */
  function KernelReply(reply: Reply): X402WalletGateway.Reply {
    if reply.CheckReply? then X402WalletGateway.CheckReply(reply.result) else X402WalletGateway.Threw
  }

  /** Runs in the order of their checks: each check keeps to the one-use contract, and between two
      checks consumptions are only added, by whatever else uses the kernel. */
  predicate Serial(runs: seq<Checked>) {
    && (forall i :: 0 <= i < |runs| ==>
          OneUse(runs[i].before, Asked(runs[i]), runs[i].after, KernelReply(Head(runs[i].replies))))
    && (forall i :: 0 < i < |runs| ==> runs[i - 1].after.Keys <= runs[i].before.Keys)
  }

  predicate CallsApi(r: Checked, i: nat) {
    i < |Run(r.input, r.replies)| && Run(r.input, r.replies)[i].call.Execute?
  }

  function GreenlightCalled(r: Checked, i: nat): JsString
    requires CallsApi(r, i)
  {
    Run(r.input, r.replies)[i].call.command.gate.greenlightId
  }

  /** A run calls the API under a greenlight that its own check consumed. */
  lemma CallConsumes(r: Checked, i: nat)
    requires OneUse(r.before, Asked(r), r.after, KernelReply(Head(r.replies))) && CallsApi(r, i)
    ensures i == 2
    ensures GreenlightCalled(r, i) == r.input.greenlightId
    ensures GreenlightCalled(r, i) !in r.before && GreenlightCalled(r, i) in r.after
  {
    ApiCallIsPermitted(r.input, r.replies, i);
    TraceStep(r.input, AtCheck, r.replies);
    var gate := Run(r.input, r.replies)[2].call.command.gate;
    assert GateOf(Head(r.replies)) == Some(gate) == VerifiedBy(KernelReply(Head(r.replies)));
  }

  lemma CheckKeepsKeys(r: Checked)
    requires OneUse(r.before, Asked(r), r.after, KernelReply(Head(r.replies)))
    ensures r.before.Keys <= r.after.Keys
  {
  }

  lemma {:induction false} ConsumptionsStay(runs: seq<Checked>, k: nat, l: nat)
    requires Serial(runs) && k < l < |runs|
    ensures runs[k].after.Keys <= runs[l].before.Keys
    decreases l
  {
    if k < l - 1 {
      ConsumptionsStay(runs, k, l - 1);
      CheckKeepsKeys(runs[l - 1]);
    }
  }

  lemma LaterCallDiffers(runs: seq<Checked>, k: nat, i: nat, l: nat, j: nat)
    requires Serial(runs) && k < l < |runs| && CallsApi(runs[k], i) && CallsApi(runs[l], j)
    ensures GreenlightCalled(runs[k], i) != GreenlightCalled(runs[l], j)
  {
    CallConsumes(runs[k], i);
    CallConsumes(runs[l], j);
    ConsumptionsStay(runs, k, l);
  }

  /** Over any number of runs in any order, no greenlight causes two API calls: two calls under one
      greenlight are one call of one run. */
  lemma GreenlightCallsAtMostOnce(runs: seq<Checked>, k: nat, i: nat, l: nat, j: nat)
    requires Serial(runs) && k < |runs| && l < |runs| && CallsApi(runs[k], i) && CallsApi(runs[l], j)
    requires GreenlightCalled(runs[k], i) == GreenlightCalled(runs[l], j)
    ensures k == l && i == j
  {
    CallConsumes(runs[k], i);
    CallConsumes(runs[l], j);
    if k < l {
      LaterCallDiffers(runs, k, i, l, j);
    } else if l < k {
      LaterCallDiffers(runs, l, j, k, i);
    }
  }

  /** Serial runs may be followed by any run whose check verifies nothing, or verifies its own
      greenlight when that is not consumed. */
  lemma AnyRunMayFollow(runs: seq<Checked>, r: Checked)
    requires Serial(runs) && (runs != [] ==> runs[|runs| - 1].after.Keys <= r.before.Keys)
    requires match GateOf(Head(r.replies))
      case None => r.after == r.before
      case Some(gate) =>
        && gate.greenlightId == r.input.greenlightId && gate.greenlightId !in r.before
        && gate.greenlightId in r.after
        && r.after == r.before[gate.greenlightId := r.after[gate.greenlightId]]
    ensures Serial(runs + [r])
  {
    assert GateOf(Head(r.replies)) == VerifiedBy(KernelReply(Head(r.replies)));
    assert OneUse(r.before, Asked(r), r.after, KernelReply(Head(r.replies)));
  }
}
