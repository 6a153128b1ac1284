/** When the runs of the failover have all PgBouncers paused, and that none can leave one paused. */
module FailoverPauses {
  import opened Base
  import opened Failover
  import opened FailoverRequests
  import R = FailoverRuns
  import N = PauseNode

  // ---------------------------------------------------------------------------------------------------
  // No run can leave a PgBouncer paused

  predicate NodesFine(s: Cluster) {
    forall n :: n in s.nodes ==> N.NodeInv(s.now, s.nodes[n])
  }

  lemma NodesStayFine(opt: Options, s: Cluster, step: Step)
    requires NodesFine(s) && Enabled(s, step) && Expiry(opt) > 0
    ensures NodesFine(Apply(opt, s, step))
  {
    EffectIsApplied(opt, s, step);
    var t := Apply(opt, s, step);
    match EffectOf(opt, step) {
      case On(n, op) => N.OpKeepsNodeInv(s.now, s.nodes[n], op);
      case Nothing =>
        if step.Tick? {
          assert forall n :: n in s.nodes ==> N.Punctual(s.nodes[n], step.to);
        } else {
          assert t.now == s.now;
        }
    }
  }

  lemma {:induction false} NodesFineRun(opt: Options, s: Cluster, steps: seq<Step>, end: Cluster)
    requires NodesFine(s) && IsRun(opt, s, steps, end) && Expiry(opt) > 0
    ensures NodesFine(end)
    decreases steps
  {
    if steps != [] {
      NodesStayFine(opt, s, steps[0]);
      NodesFineRun(opt, Apply(opt, s, steps[0]), steps[1..], end);
    }
  }

  /** Run r's pause request at a node, open or answered. */
  predicate Created(node: N.Node, r: RunId) {
    r in node.calls || r in node.done
  }

  function CreatedAt(node: N.Node, r: RunId): int
    requires Created(node, r)
  {
    if r in node.calls then node.calls[r].createdAt else node.done[r].createdAt
  }

  /** At every moment, with operators vanishing anywhere and requests abandoned at will: a paused PgBouncer has its
      resume scheduled by the server itself, or the pause handler that will schedule it is still open; and the
      request that began this pause was created no longer ago than the larger of timeout and expiry. */
  lemma PausesAlwaysEnd(opt: Options, nodes: set<NodeId>, steps: seq<Step>, s: Cluster, n: NodeId)
    requires nodes != {} && IsRun(opt, Initial(nodes), steps, s) && Expiry(opt) > 0
    requires n in s.nodes && s.nodes[n].paused
    ensures N.WillEnd(s.nodes[n]) && Created(s.nodes[n], s.nodes[n].began)
    ensures s.now <= CreatedAt(s.nodes[n], s.nodes[n].began) + Max(PauseLimit(opt), Expiry(opt) * N.SECOND)
  {
    Reachable(opt, nodes, steps, s);
    assert NodesFine(Initial(nodes));
    NodesFineRun(opt, Initial(nodes), steps, s);
    assert N.NodeInv(s.now, s.nodes[n]);
    assert Tracked(opt, s, s.nodes[n].began, n);
  }

  // ---------------------------------------------------------------------------------------------------
  // All nodes paused together

  /** A node that only run r has touched since r began to pause. */
  predicate CleanNode(now: int, node: N.Node, r: RunId, expires: bool) {
    && (forall id :: id in node.calls ==> id == r)
    && (forall id :: id in node.timers ==> id == r && r in node.done && node.timers[r] == N.Due(node.done[r]))
    && (r in node.calls && node.calls[r].effected ==> node.paused)
    && (expires && r in node.done && now < N.Due(node.done[r]) ==> node.paused && r in node.timers)
    && (!expires ==> node.timers == map[] && (r in node.done ==> node.paused))
  }

  predicate OnlyPausesOf(s: Cluster, r: RunId) {
    forall q :: q in s.travelling ==> q.PauseOf? && q.r == r
  }

  ghost predicate Clean(opt: Options, s: Cluster) {
    forall r :: At(s, r, Pausing) && s.runs[r].clean ==>
      OnlyPausesOf(s, r) && forall n :: n in s.nodes ==> CleanNode(s.now, s.nodes[n], r, Expiry(opt) > 0)
  }

  lemma CleanOp(now: int, node: N.Node, r: RunId, expires: bool, op: N.Op)
    requires CleanNode(now, node, r, expires) && N.OpEnabled(now, node, op)
    requires op != N.Op.Resume && (op.Arrive? ==> op.id == r)
    requires r in node.calls ==> r !in node.done && (expires <==> node.calls[r].expiry > 0)
    ensures CleanNode(now, N.OpApply(now, node, op), r, expires)
  {
  }

  lemma CleanStaysAt(opt: Options, s: Cluster, step: Step, r: RunId, n: NodeId)
    requires Enabled(s, step) && OnlyPausesOf(s, r) && n in s.nodes && OnServer(opt, s, r, n)
    requires CleanNode(s.now, s.nodes[n], r, Expiry(opt) > 0)
    ensures n in NodesAfter(opt, s, step)
    ensures CleanNode(if step.Tick? then step.to else s.now, NodesAfter(opt, s, step)[n], r, Expiry(opt) > 0)
  {
    match EffectOf(opt, step) {
      case Nothing =>
        if step.Tick? {
          assert MayTick(s, step.to);
        }
      case On(m, op) =>
        if m == n {
          CleanOp(s.now, s.nodes[n], r, Expiry(opt) > 0, op);
        }
    }
  }

  /** While r pauses, nobody else sends anything. */
  lemma OnlyPausesStay(opt: Options, s: Cluster, step: Step, r: RunId)
    requires R.Inv(opt, s) && Enabled(s, step) && At(s, r, Pausing) && OnlyPausesOf(s, r)
    ensures OnlyPausesOf(Apply(opt, s, step), r)
  {
    assert R.RunOk(s.runs[r], opt, s.nodes.Keys);
    if step.SendPause? || step.SendResume? {
      assert R.RunOk(s.runs[step.r], opt, s.nodes.Keys);
    }
  }

  /** A run is pausing because it was, its flag unchanged, or because it has just taken the lock. */
  lemma PausingOrigin(opt: Options, s: Cluster, step: Step, r: RunId)
    requires Enabled(s, step) && At(Apply(opt, s, step), r, Pausing)
    ensures || (At(s, r, Pausing) && Apply(opt, s, step).runs[r].clean == s.runs[r].clean)
            || (step == LockOk(r) && At(s, r, Locking) && Apply(opt, s, step).nodes == s.nodes
                && Apply(opt, s, step).travelling == s.travelling && Apply(opt, s, step).now == s.now
                && Apply(opt, s, step).runs[r].clean == (Quiet(s.nodes) && s.travelling == {}))
  {
    if Owner(step) == Some(r) {
      if R.RpcStep(step) {
        R.RpcStepShape(opt, s, step);
      } else {
        R.PhaseStepShape(opt, s, step);
      }
    }
  }

  lemma CleanStep(opt: Options, s: Cluster, step: Step)
    requires Inv(opt, s) && Clean(opt, s) && Enabled(s, step)
    ensures Clean(opt, Apply(opt, s, step))
  {
    var t := Apply(opt, s, step);
    R.OthersUntouched(opt, s, step);
    forall r | At(t, r, Pausing) && t.runs[r].clean
      ensures OnlyPausesOf(t, r)
      ensures forall n :: n in t.nodes ==> CleanNode(t.now, t.nodes[n], r, Expiry(opt) > 0)
    {
      PausingOrigin(opt, s, step, r);
      if At(s, r, Pausing) {
        OnlyPausesStay(opt, s, step, r);
      }
      forall n | n in t.nodes
        ensures CleanNode(t.now, t.nodes[n], r, Expiry(opt) > 0)
      {
        assert n in s.nodes.Keys && Tracked(opt, s, r, n);
        if At(s, r, Pausing) {
          CleanStaysAt(opt, s, step, r, n);
        }
      }
    }
  }

  lemma {:induction false} CleanRun(opt: Options, s: Cluster, steps: seq<Step>, end: Cluster)
    requires Inv(opt, s) && Clean(opt, s) && IsRun(opt, s, steps, end)
    ensures Inv(opt, end) && Clean(opt, end)
    decreases steps
  {
    if steps != [] {
      InvStep(opt, s, steps[0]);
      CleanStep(opt, s, steps[0]);
      CleanRun(opt, Apply(opt, s, steps[0]), steps[1..], end);
    }
  }

  /** The step with which run r issues its migrate request. */
  predicate IssuesMigrate(s: Cluster, r: RunId, step: Step) {
    step == PauseDone(r) && Enabled(s, step) && !s.runs[r].errored
  }

  lemma MigratingBeginsByPauseDone(opt: Options, s: Cluster, step: Step, r: RunId)
    requires Enabled(s, step) && r in s.runs && s.runs[r].pc != Migrating
    requires At(Apply(opt, s, step), r, Migrating)
    ensures IssuesMigrate(s, r, step)
  {
    if Owner(step) == Some(r) {
      if R.RpcStep(step) {
        R.RpcStepShape(opt, s, step);
      } else {
        R.PhaseStepShape(opt, s, step);
      }
    }
  }

  /** Run r's pause of node n is complete: PAUSE took effect within the whole-second timeout of its creation. */
  predicate PauseComplete(opt: Options, s: Cluster, r: RunId, n: NodeId) {
    && n in s.nodes && r in s.nodes[n].done && r !in s.nodes[n].calls
    && s.nodes[n].done[r].completedAt <= s.nodes[n].done[r].createdAt + PauseLimit(opt)
  }

  lemma EveryPauseAcked(opt: Options, s: Cluster, r: RunId, n: NodeId)
    requires Inv(opt, s) && n in s.nodes && IssuesMigrate(s, r, PauseDone(r))
    ensures PauseComplete(opt, s, r, n)
  {
    assert R.RunOk(s.runs[r], opt, s.nodes.Keys);
    assert n in s.nodes.Keys && s.runs[r].rpcs[n] == Acked;
    assert Tracked(opt, s, r, n);
  }

  /** Run r issues Migrate only once every node has acknowledged its pause. */
  lemma MigrateAfterEveryPause(opt: Options, nodes: set<NodeId>, steps: seq<Step>, s: Cluster, step: Step, r: RunId)
    requires nodes != {} && IsRun(opt, Initial(nodes), steps, s)
    requires Enabled(s, step) && r in s.runs && s.runs[r].pc != Migrating && At(Apply(opt, s, step), r, Migrating)
    ensures IssuesMigrate(s, r, step)
    ensures s.nodes.Keys == nodes && forall n :: n in nodes ==> PauseComplete(opt, s, r, n)
  {
    Reachable(opt, nodes, steps, s);
    MigratingBeginsByPauseDone(opt, s, step, r);
    forall n | n in nodes
      ensures PauseComplete(opt, s, r, n)
    {
      EveryPauseAcked(opt, s, r, n);
    }
  }

  /** The pause requests of run r were created within `skew` of each other. */
  predicate CreatedWithin(s: Cluster, r: RunId, skew: int) {
    forall m, n :: m in s.nodes && n in s.nodes && r in s.nodes[m].done && r in s.nodes[n].done
      ==> s.nodes[m].done[r].createdAt <= s.nodes[n].done[r].createdAt + skew
  }

  /** It is at most `delay` since the last of them completed. */
  predicate CompletedWithin(s: Cluster, r: RunId, delay: int) {
    exists n :: n in s.nodes && r in s.nodes[n].done && s.now <= s.nodes[n].done[r].completedAt + delay
  }

  /** If pausing began on clean nodes and the expiry, in the whole seconds that are sent, exceeds the pause timeout,
      in whole seconds, by more than the requests' skew and the responses' delay, then every node is paused at the
      moment Migrate is issued; and so it is if the expiry sent is not positive, because the servers then resume
      nothing. That nobody else resumes a node meanwhile is a consequence of the lock. */
  lemma AllPausedAtMigrate(opt: Options, nodes: set<NodeId>, steps: seq<Step>, s: Cluster, r: RunId, skew: int,
                           delay: int)
    requires nodes != {} && IsRun(opt, Initial(nodes), steps, s)
    requires r in s.runs && s.runs[r].clean && IssuesMigrate(s, r, PauseDone(r))
    requires CreatedWithin(s, r, skew) && CompletedWithin(s, r, delay)
    requires Expiry(opt) <= 0 || Expiry(opt) * N.SECOND > PauseLimit(opt) + skew + delay
    ensures s.nodes.Keys == nodes && forall n :: n in nodes ==> s.nodes[n].paused
  {
    InitialInv(opt, nodes);
    CleanRun(opt, Initial(nodes), steps, s);
    Reachable(opt, nodes, steps, s);
    forall n | n in nodes
      ensures s.nodes[n].paused
    {
      StillPaused(opt, s, r, n, skew, delay);
    }
  }

  lemma StillPaused(opt: Options, s: Cluster, r: RunId, n: NodeId, skew: int, delay: int)
    requires Inv(opt, s) && Clean(opt, s) && n in s.nodes
    requires r in s.runs && s.runs[r].clean && IssuesMigrate(s, r, PauseDone(r))
    requires CreatedWithin(s, r, skew) && CompletedWithin(s, r, delay)
    requires Expiry(opt) <= 0 || Expiry(opt) * N.SECOND > PauseLimit(opt) + skew + delay
    ensures s.nodes[n].paused
  {
    EveryPauseAcked(opt, s, r, n);
    if Expiry(opt) > 0 {
      NotYetDue(opt, s, n, r, skew, delay);
    }
    assert CleanNode(s.now, s.nodes[n], r, Expiry(opt) > 0);
  }

  lemma NotYetDue(opt: Options, s: Cluster, n: NodeId, r: RunId, skew: int, delay: int)
    requires Inv(opt, s) && n in s.nodes && r in s.nodes[n].done
    requires CreatedWithin(s, r, skew) && CompletedWithin(s, r, delay)
    requires Expiry(opt) * N.SECOND > PauseLimit(opt) + skew + delay
    ensures s.now < N.Due(s.nodes[n].done[r])
  {
    var last :| last in s.nodes && r in s.nodes[last].done && s.now <= s.nodes[last].done[r].completedAt + delay;
    assert Tracked(opt, s, r, last) && Tracked(opt, s, r, n);
    assert s.nodes[last].done[r].createdAt <= s.nodes[n].done[r].createdAt + skew;
  }
}
