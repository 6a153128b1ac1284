/** Where the requests of the failover's runs can be: on their way, at a handler, answered; and what their clients
    have seen of it meanwhile. */
module FailoverRequests {
  import opened Base
  import opened Failover
  import R = FailoverRuns
  import N = PauseNode

  function Timeout(opt: Options): int {
    WholeSeconds(opt.pauseTimeout)
  }

  function Expiry(opt: Options): int {
    WholeSeconds(opt.pauseExpiry)
  }

  /** The longest that PAUSE can take, from the creation of its request. */
  function PauseLimit(opt: Options): int {
    Max(Timeout(opt), 0) * N.SECOND
  }

  lemma EffectIsApplied(opt: Options, s: Cluster, step: Step)
    requires Enabled(s, step)
    ensures var t := Apply(opt, s, step);
      match EffectOf(opt, step)
      case Nothing => t.nodes == s.nodes
      case On(n, op) =>
        && n in s.nodes && N.OpEnabled(s.now, s.nodes[n], op) && t.now == s.now
        && t.nodes == s.nodes[n := N.OpApply(s.now, s.nodes[n], op)]
  {
  }

  // ---------------------------------------------------------------------------------------------------
  // Where a request can be, given what its client has seen of it

  predicate Reached(s: Cluster, r: RunId, pc: Pc) {
    r in s.runs && R.Rank(s.runs[r].pc) >= R.Rank(pc)
  }

  /** The phase in which the rpcs of such requests are made. */
  predicate IsRpcPhase(pc: Pc) {
    pc == Pausing || pc == Resuming
  }

  /** How a step got the rpc of run r at node n where it is now. */
  datatype Origin = Same | SentNow | AckedNow | FailedNow | New

  lemma RpcOrigin(opt: Options, s: Cluster, step: Step, r: RunId, n: NodeId, pc: Pc) returns (origin: Origin)
    requires R.Inv(opt, s) && Enabled(s, step) && n in s.nodes && IsRpcPhase(pc) && At(Apply(opt, s, step), r, pc)
    ensures n in Apply(opt, s, step).nodes
    ensures var t := Apply(opt, s, step);
      match origin
      case Same => At(s, r, pc) && forall rpc :: RpcIs(t, r, n, rpc) <==> RpcIs(s, r, n, rpc)
      case SentNow =>
        && At(s, r, pc) && RpcIs(s, r, n, Unsent) && RpcIs(t, r, n, Sent)
        && step == (if pc == Pausing then SendPause(r, n) else SendResume(r, n))
      case AckedNow => At(s, r, pc) && step == ReturnRpc(r, n, true) && RpcIs(t, r, n, Acked)
      case FailedNow => At(s, r, pc) && step == ReturnRpc(r, n, false) && RpcIs(t, r, n, Failed)
      case New => !Reached(s, r, pc) && RpcIs(t, r, n, Unsent)
  {
    R.OthersUntouched(opt, s, step);
    assert n in Apply(opt, s, step).nodes.Keys;
    if Owner(step) != Some(r) {
      origin := Same;
    } else if R.RpcStep(step) {
      origin := SingleRpcOrigin(opt, s, step, n, pc);
    } else {
      R.PhaseStepShape(opt, s, step);
      if r in s.runs {
        assert R.RunOk(s.runs[r], opt, s.nodes.Keys);
        R.PhaseAdvances(opt, s, step, r);
      }
      assert pc == Pausing ==> step.LockOk?;
      assert n in AllUnsent(s.nodes.Keys);
      origin := New;
    }
  }

  lemma SingleRpcOrigin(opt: Options, s: Cluster, step: Step, n: NodeId, pc: Pc) returns (origin: Origin)
    requires Enabled(s, step) && R.RpcStep(step) && n in s.nodes && IsRpcPhase(pc)
    requires At(Apply(opt, s, step), step.r, pc)
    ensures var t, r := Apply(opt, s, step), step.r;
      match origin
      case Same => At(s, r, pc) && forall rpc :: RpcIs(t, r, n, rpc) <==> RpcIs(s, r, n, rpc)
      case SentNow =>
        && At(s, r, pc) && RpcIs(s, r, n, Unsent) && RpcIs(t, r, n, Sent)
        && step == (if pc == Pausing then SendPause(r, n) else SendResume(r, n))
      case AckedNow => At(s, r, pc) && step == ReturnRpc(r, n, true) && RpcIs(t, r, n, Acked)
      case FailedNow => At(s, r, pc) && step == ReturnRpc(r, n, false) && RpcIs(t, r, n, Failed)
      case New => false
  {
    R.RpcStepShape(opt, s, step);
    origin :=
      if step.n != n then Same
      else if !step.ReturnRpc? then SentNow
      else if step.ok then AckedNow else FailedNow;
  }

  /** A pause request that has yet to be answered. */
  predicate Pending(s: Cluster, r: RunId, n: NodeId)
    requires n in s.nodes
  {
    PauseOf(r, n) in s.travelling || r in s.nodes[n].calls
  }

  predicate CallFits(opt: Options, now: int, node: N.Node, r: RunId)
    requires r in node.calls
  {
    var call := node.calls[r];
    && call.timeout == Timeout(opt) && call.expiry == Expiry(opt)
    && call.createdAt <= now <= PauseBy(call)
  }

  predicate RecordFits(opt: Options, node: N.Node, r: RunId)
    requires r in node.done
  {
    var record := node.done[r];
    && record.expiry == Expiry(opt)
    && record.createdAt <= record.completedAt <= record.createdAt + PauseLimit(opt)
  }

  /** What a node has of run r's pause request. */
  predicate OnServer(opt: Options, s: Cluster, r: RunId, n: NodeId)
    requires n in s.nodes
  {
    var node := s.nodes[n];
    && (PauseOf(r, n) in s.travelling ==> r !in node.calls)
    && (Pending(s, r, n) ==> r !in node.done)
    && (r in node.calls ==> CallFits(opt, s.now, node, r))
    && (r in node.done ==> RecordFits(opt, node, r))
  }

  /** What its client has seen of it. */
  predicate OnClient(s: Cluster, r: RunId, n: NodeId)
    requires n in s.nodes
  {
    && (Pending(s, r, n) || r in s.nodes[n].done ==> Reached(s, r, Pausing))
    && (At(s, r, Pausing) ==>
          && (RpcIs(s, r, n, Unsent) ==> !Pending(s, r, n) && r !in s.nodes[n].done)
          && (RpcIs(s, r, n, Acked) ==> r in s.nodes[n].done))
  }

  /** The same for its resume request. */
  predicate ResumeTracked(s: Cluster, r: RunId, n: NodeId) {
    var travels, served := ResumeOf(r, n) in s.travelling, ResumeOf(r, n) in s.served;
    && !(travels && served)
    && (travels || served ==> Reached(s, r, Resuming))
    && (At(s, r, Resuming) ==>
          && (RpcIs(s, r, n, Unsent) ==> !travels && !served)
          && (RpcIs(s, r, n, Acked) ==> served))
  }

  predicate Tracked(opt: Options, s: Cluster, r: RunId, n: NodeId)
    requires n in s.nodes
  {
    OnServer(opt, s, r, n) && OnClient(s, r, n) && ResumeTracked(s, r, n)
  }

  ghost predicate Inv(opt: Options, s: Cluster) {
    R.Inv(opt, s) && forall r: RunId, n: NodeId :: n in s.nodes ==> Tracked(opt, s, r, n)
  }

  /** Where the node's part of a pause request comes from. */
  lemma ServerOrigin(opt: Options, s: Cluster, step: Step, r: RunId, n: NodeId)
    requires Enabled(s, step) && n in s.nodes
    ensures n in Apply(opt, s, step).nodes
    ensures var t := Apply(opt, s, step);
      && (Pending(t, r, n) ==> Pending(s, r, n) || step == SendPause(r, n))
      && (r in s.nodes[n].done ==> r in t.nodes[n].done)
      && (r in t.nodes[n].done ==> r in s.nodes[n].done || r in s.nodes[n].calls)
  {
    EffectIsApplied(opt, s, step);
  }

  lemma OnServerStays(opt: Options, s: Cluster, step: Step, r: RunId, n: NodeId)
    requires Enabled(s, step) && n in s.nodes && OnServer(opt, s, r, n)
    requires step == SendPause(r, n) ==> !Pending(s, r, n) && r !in s.nodes[n].done
    ensures n in Apply(opt, s, step).nodes && OnServer(opt, Apply(opt, s, step), r, n)
  {
    EffectIsApplied(opt, s, step);
    if step.Tick? {
      assert MayTick(s, step.to);
    } else {
      assert Apply(opt, s, step).now == s.now;
    }
  }

  lemma ReachedStays(opt: Options, s: Cluster, step: Step, r: RunId, pc: Pc)
    requires R.Inv(opt, s) && Enabled(s, step) && Reached(s, r, pc)
    ensures Reached(Apply(opt, s, step), r, pc)
  {
    R.RankGrows(opt, s, step, r);
  }

  lemma OnClientStays(opt: Options, s: Cluster, step: Step, r: RunId, n: NodeId)
    requires R.Inv(opt, s) && Enabled(s, step) && n in s.nodes && OnServer(opt, s, r, n) && OnClient(s, r, n)
    ensures n in Apply(opt, s, step).nodes && OnClient(Apply(opt, s, step), r, n)
  {
    var t := Apply(opt, s, step);
    ServerOrigin(opt, s, step, r, n);
    if Reached(s, r, Pausing) {
      ReachedStays(opt, s, step, r, Pausing);
    }
    if At(t, r, Pausing) {
      var origin := RpcOrigin(opt, s, step, r, n, Pausing);
    }
  }

  lemma ResumeOrigin(opt: Options, s: Cluster, step: Step, r: RunId, n: NodeId)
    requires Enabled(s, step)
    ensures var t, q := Apply(opt, s, step), ResumeOf(r, n);
      && (q in t.travelling ==> q in s.travelling || step == SendResume(r, n))
      && (q in t.served <==> q in s.served || step == ServeResume(r, n))
      && (step == ServeResume(r, n) ==> q in s.travelling && q !in t.travelling)
  {
  }

  lemma ResumeTrackedStays(opt: Options, s: Cluster, step: Step, r: RunId, n: NodeId)
    requires R.Inv(opt, s) && Enabled(s, step) && n in s.nodes && ResumeTracked(s, r, n)
    ensures ResumeTracked(Apply(opt, s, step), r, n)
  {
    var t := Apply(opt, s, step);
    ResumeOrigin(opt, s, step, r, n);
    if Reached(s, r, Resuming) {
      ReachedStays(opt, s, step, r, Resuming);
    }
    if At(t, r, Resuming) {
      var origin := RpcOrigin(opt, s, step, r, n, Resuming);
    }
  }

  lemma InvStep(opt: Options, s: Cluster, step: Step)
    requires Inv(opt, s) && Enabled(s, step)
    ensures Inv(opt, Apply(opt, s, step)) && Apply(opt, s, step).nodes.Keys == s.nodes.Keys
  {
    var t := Apply(opt, s, step);
    R.InvStep(opt, s, step);
    forall r: RunId, n: NodeId | n in t.nodes
      ensures Tracked(opt, t, r, n)
    {
      assert n in s.nodes.Keys && Tracked(opt, s, r, n);
      OnServerStays(opt, s, step, r, n);
      OnClientStays(opt, s, step, r, n);
      ResumeTrackedStays(opt, s, step, r, n);
    }
  }

  lemma {:induction false} InvRun(opt: Options, s: Cluster, steps: seq<Step>, end: Cluster)
    requires Inv(opt, s) && IsRun(opt, s, steps, end)
    ensures Inv(opt, end) && end.nodes.Keys == s.nodes.Keys
    decreases steps
  {
    if steps != [] {
      InvStep(opt, s, steps[0]);
      InvRun(opt, Apply(opt, s, steps[0]), steps[1..], end);
    }
  }

  lemma InitialInv(opt: Options, nodes: set<NodeId>)
    requires nodes != {}
    ensures Inv(opt, Initial(nodes)) && Initial(nodes).nodes.Keys == nodes
  {
    R.InitialInv(opt, nodes);
  }

  lemma Reachable(opt: Options, nodes: set<NodeId>, steps: seq<Step>, end: Cluster)
    requires nodes != {} && IsRun(opt, Initial(nodes), steps, end)
    ensures Inv(opt, end) && end.nodes.Keys == nodes
  {
    InitialInv(opt, nodes);
    InvRun(opt, Initial(nodes), steps, end);
  }
}
