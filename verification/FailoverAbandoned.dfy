/** Who changes a PgBouncer, and what becomes of a request that its client has given up on. */
module FailoverAbandoned {
  import opened Base
  import opened Failover
  import opened FailoverRequests
  import R = FailoverRuns

  // ---------------------------------------------------------------------------------------------------
  // Who changes a PgBouncer

  /** The request travels, or a handler is working on it. */
  predicate UnderWay(s: Cluster, q: Request) {
    q in s.travelling || (q.PauseOf? && q.n in s.nodes && q.r in s.nodes[q.n].calls)
  }

  function PhaseOf(q: Request): Pc {
    if q.PauseOf? then Pausing else Resuming
  }

  predicate Awaited(s: Cluster, q: Request) {
    At(s, q.r, PhaseOf(q)) && RpcIs(s, q.r, q.n, Sent)
  }

  /** Its client has given up on it: the call failed, or the run has gone on, or its process has gone. */
  predicate Abandoned(s: Cluster, q: Request) {
    && UnderWay(s, q) && Reached(s, q.r, PhaseOf(q))
    && (At(s, q.r, PhaseOf(q)) ==> RpcIs(s, q.r, q.n, Failed))
  }

  lemma AwaitedOrAbandoned(opt: Options, s: Cluster, q: Request)
    requires Inv(opt, s) && q.n in s.nodes && UnderWay(s, q)
    ensures Abandoned(s, q) <==> !Awaited(s, q)
  {
    assert Tracked(opt, s, q.r, q.n);
    if At(s, q.r, PhaseOf(q)) {
      assert R.RunOk(s.runs[q.r], opt, s.nodes.Keys);
      assert q.n in s.nodes.Keys;
    }
  }

  predicate InWindow(s: Cluster, r: RunId) {
    r in s.runs && s.runs[r].window && s.lock == Some(r)
  }

  lemma AwaitedInWindow(opt: Options, s: Cluster, q: Request)
    requires Inv(opt, s) && Awaited(s, q)
    ensures InWindow(s, q.r)
  {
    assert R.RunOk(s.runs[q.r], opt, s.nodes.Keys);
  }

  /** The request with which a step reaches a PgBouncer. */
  function RequestOf(step: Step): Option<Request> {
    match step
    case PauseTakesEffect(r, n) => Some(PauseOf(r, n))
    case ServeResume(r, n) => Some(ResumeOf(r, n))
    case _ => None
  }

  predicate Resumes(step: Step, n: NodeId) {
    (step.Fire? && step.n == n) || (step.ServeResume? && step.n == n)
  }

  predicate Pauses(step: Step, n: NodeId) {
    step.PauseTakesEffect? && step.n == n
  }

  lemma Changes(opt: Options, s: Cluster, step: Step, n: NodeId)
    requires Enabled(s, step) && n in s.nodes
    ensures n in Apply(opt, s, step).nodes
    ensures Apply(opt, s, step).nodes[n].paused == (Pauses(step, n) || (s.nodes[n].paused && !Resumes(step, n)))
  {
    EffectIsApplied(opt, s, step);
  }

  /** A step changes a PgBouncer if and only if it pauses an unpaused one or resumes a paused one. It is then a
      scheduled resume, a request that the one run inside its lock window is waiting for, or a request that its
      client has given up on. */
  lemma WhoChangesPgBouncer(opt: Options, nodes: set<NodeId>, steps: seq<Step>, s: Cluster, step: Step, n: NodeId)
    requires nodes != {} && IsRun(opt, Initial(nodes), steps, s) && Enabled(s, step) && n in nodes
    ensures n in s.nodes && n in Apply(opt, s, step).nodes
    ensures Apply(opt, s, step).nodes[n].paused != s.nodes[n].paused
      <==> if s.nodes[n].paused then Resumes(step, n) else Pauses(step, n)
    ensures (Resumes(step, n) || Pauses(step, n)) && !step.Fire? ==>
      var q := RequestOf(step).value;
      && UnderWay(s, q) && (Abandoned(s, q) <==> !Awaited(s, q)) && (Awaited(s, q) ==> InWindow(s, q.r))
  {
    Reachable(opt, nodes, steps, s);
    Changes(opt, s, step, n);
    if (Resumes(step, n) || Pauses(step, n)) && !step.Fire? {
      var q := RequestOf(step).value;
      AwaitedOrAbandoned(opt, s, q);
      if Awaited(s, q) {
        AwaitedInWindow(opt, s, q);
      }
    }
  }

  ghost predicate NoneAbandoned(s: Cluster) {
    forall q: Request :: q.n in s.nodes && UnderWay(s, q) ==> Awaited(s, q)
  }

  /** A client returns from a call, or vanishes, while its request is under way. */
  predicate GivesUpOn(s: Cluster, step: Step, q: Request) {
    && q.n in s.nodes && UnderWay(s, q)
    && (step == Vanish(q.r) || (step == ReturnRpc(q.r, q.n, false) && At(s, q.r, PhaseOf(q))))
  }

  ghost predicate GivesUp(s: Cluster, step: Step) {
    exists q: Request :: GivesUpOn(s, step, q)
  }

  lemma UnderWayOrigin(opt: Options, s: Cluster, step: Step, q: Request)
    requires Enabled(s, step) && q.n in s.nodes && UnderWay(Apply(opt, s, step), q)
    ensures UnderWay(s, q) || step == (if q.PauseOf? then SendPause(q.r, q.n) else SendResume(q.r, q.n))
  {
    EffectIsApplied(opt, s, step);
  }

  lemma OwnWhileAwaiting(s: Cluster, step: Step, q: Request)
    requires Enabled(s, step) && Owner(step) == Some(q.r) && Awaited(s, q)
    ensures step.Vanish? || (R.RpcStep(step) && (step.n != q.n || step.ReturnRpc?))
  {
    assert !Settled(s.runs[q.r]);
  }

  lemma NotAnsweredYet(opt: Options, s: Cluster, q: Request)
    requires q.n in s.nodes && Tracked(opt, s, q.r, q.n) && UnderWay(s, q) && Awaited(s, q)
    ensures !Enabled(s, ReturnRpc(q.r, q.n, true))
  {
  }

  lemma AwaitedStays(opt: Options, s: Cluster, step: Step, q: Request)
    requires q.n in s.nodes && Tracked(opt, s, q.r, q.n) && UnderWay(s, q) && Awaited(s, q) && Enabled(s, step)
    requires q.n in Apply(opt, s, step).nodes
    ensures Awaited(Apply(opt, s, step), q) <==> !GivesUpOn(s, step, q)
  {
    if Owner(step) == Some(q.r) {
      NotAnsweredYet(opt, s, q);
      OwnWhileAwaiting(s, step, q);
      if step.Vanish? {
        VanishedDoesNotWait(opt, s, q);
      } else {
        AwaitedThroughRpc(opt, s, step, q);
      }
    } else {
      AwaitedThroughOthers(opt, s, step, q);
    }
  }

  lemma AwaitedThroughOthers(opt: Options, s: Cluster, step: Step, q: Request)
    requires Enabled(s, step) && Owner(step) != Some(q.r) && Awaited(s, q) && q.n in Apply(opt, s, step).nodes
    ensures Awaited(Apply(opt, s, step), q) && !GivesUpOn(s, step, q)
  {
    R.OthersUntouched(opt, s, step);
  }

  lemma VanishedDoesNotWait(opt: Options, s: Cluster, q: Request)
    requires Enabled(s, Vanish(q.r))
    ensures !Awaited(Apply(opt, s, Vanish(q.r)), q)
  {
  }

  lemma AwaitedThroughRpc(opt: Options, s: Cluster, step: Step, q: Request)
    requires Enabled(s, step) && R.RpcStep(step) && step.r == q.r && Awaited(s, q) && q.n in Apply(opt, s, step).nodes
    requires step.n != q.n || (step.ReturnRpc? && !step.ok)
    ensures Awaited(Apply(opt, s, step), q) <==> step.n != q.n
  {
    R.RpcStepShape(opt, s, step);
  }

  lemma StillAwaited(opt: Options, s: Cluster, step: Step, q: Request)
    requires Inv(opt, s) && NoneAbandoned(s) && Enabled(s, step)
    requires q.n in s.nodes && q.n in Apply(opt, s, step).nodes && UnderWay(Apply(opt, s, step), q)
    ensures Awaited(Apply(opt, s, step), q) <==> !GivesUpOn(s, step, q)
  {
    assert Tracked(opt, s, q.r, q.n);
    UnderWayOrigin(opt, s, step, q);
    if UnderWay(s, q) {
      AwaitedStays(opt, s, step, q);
    } else {
      SentIsAwaited(opt, s, step, q);
    }
  }

  lemma SentIsAwaited(opt: Options, s: Cluster, step: Step, q: Request)
    requires Enabled(s, step) && q.n in s.nodes && q.n in Apply(opt, s, step).nodes
    requires step == (if q.PauseOf? then SendPause(q.r, q.n) else SendResume(q.r, q.n))
    ensures Awaited(Apply(opt, s, step), q)
  {
  }

  lemma GivenUpIsUnderWay(opt: Options, s: Cluster, step: Step, q: Request)
    requires Enabled(s, step) && GivesUpOn(s, step, q)
    ensures UnderWay(Apply(opt, s, step), q) && q.n in Apply(opt, s, step).nodes
  {
  }

  /** Giving up is the only way to leave an abandoned request behind. */
  lemma GivingUpAbandons(opt: Options, s: Cluster, step: Step)
    requires Inv(opt, s) && NoneAbandoned(s) && Enabled(s, step)
    ensures NoneAbandoned(Apply(opt, s, step)) <==> !GivesUp(s, step)
  {
    var t := Apply(opt, s, step);
    R.OthersUntouched(opt, s, step);
    forall q: Request | q.n in t.nodes && UnderWay(t, q)
      ensures Awaited(t, q) <==> !GivesUpOn(s, step, q)
    {
      assert q.n in s.nodes.Keys;
      StillAwaited(opt, s, step, q);
    }
    if q: Request :| GivesUpOn(s, step, q) {
      GivenUpIsUnderWay(opt, s, step, q);
    }
  }

  ghost predicate Patient(opt: Options, s: Cluster, steps: seq<Step>)
    decreases steps
  {
    steps != [] && Enabled(s, steps[0]) ==> !GivesUp(s, steps[0]) && Patient(opt, Apply(opt, s, steps[0]), steps[1..])
  }

  lemma {:induction false} PatientRun(opt: Options, s: Cluster, steps: seq<Step>, end: Cluster)
    requires Inv(opt, s) && NoneAbandoned(s) && IsRun(opt, s, steps, end) && Patient(opt, s, steps)
    ensures NoneAbandoned(end)
    decreases steps
  {
    if steps != [] {
      InvStep(opt, s, steps[0]);
      GivingUpAbandons(opt, s, steps[0]);
      PatientRun(opt, Apply(opt, s, steps[0]), steps[1..], end);
    }
  }

  /** So as long as no client gives up on a request that is under way, only scheduled resumes and requests of the
      one run inside its lock window change a PgBouncer. */
  lemma OnlyTheLockHolderOrExpiry(opt: Options, nodes: set<NodeId>, steps: seq<Step>, s: Cluster, step: Step, n: NodeId)
    requires nodes != {} && IsRun(opt, Initial(nodes), steps, s) && Enabled(s, step) && n in nodes
    requires Patient(opt, Initial(nodes), steps)
    ensures n in s.nodes && n in Apply(opt, s, step).nodes
    ensures Apply(opt, s, step).nodes[n].paused != s.nodes[n].paused && !step.Fire? ==>
      RequestOf(step).Some? && InWindow(s, RequestOf(step).value.r)
  {
    InitialInv(opt, nodes);
    PatientRun(opt, Initial(nodes), steps, s);
    WhoChangesPgBouncer(opt, nodes, steps, s, step, n);
    if RequestOf(step).Some? && RequestOf(step).value.n == n {
      assert Awaited(s, RequestOf(step).value);
    }
  }

  // ---------------------------------------------------------------------------------------------------
  // All nodes resumed together

  predicate ResumedIn(steps: seq<Step>, n: NodeId) {
    exists step :: step in steps && Resumes(step, n)
  }

  /** An abandoned PAUSE takes effect on the node in these steps, and nothing resumes the node afterwards. */
  predicate PausedByAbandoned(opt: Options, s: Cluster, steps: seq<Step>, n: NodeId)
    decreases steps
  {
    && steps != [] && Enabled(s, steps[0])
    && (|| (Pauses(steps[0], n) && Abandoned(s, PauseOf(steps[0].r, n)) && !ResumedIn(steps[1..], n))
        || PausedByAbandoned(opt, Apply(opt, s, steps[0]), steps[1..], n))
  }

  /** While r resumes, a PAUSE that takes effect is an abandoned one. */
  lemma OnlyAbandonedPause(opt: Options, s: Cluster, step: Step, r: RunId)
    requires Inv(opt, s) && At(s, r, Resuming) && Enabled(s, step) && step.PauseTakesEffect?
    ensures Abandoned(s, PauseOf(step.r, step.n))
  {
    var q := PauseOf(step.r, step.n);
    assert R.RunOk(s.runs[r], opt, s.nodes.Keys);
    AwaitedOrAbandoned(opt, s, q);
    if Awaited(s, q) {
      AwaitedInWindow(opt, s, q);
    }
  }

  lemma StillResuming(opt: Options, s: Cluster, steps: seq<Step>, end: Cluster, r: RunId)
    requires R.Inv(opt, s) && IsRun(opt, s, steps, end) && Reached(s, r, Resuming) && At(end, r, Resuming)
    ensures At(s, r, Resuming)
  {
    R.RankRun(opt, s, steps, end, r);
  }

  lemma ResumedFirstOrLater(steps: seq<Step>, n: NodeId)
    requires steps != []
    ensures ResumedIn(steps, n) <==> Resumes(steps[0], n) || ResumedIn(steps[1..], n)
  {
    assert forall step :: step in steps <==> step == steps[0] || step in steps[1..];
  }

  /** Through steps during which r resumes. */
  lemma {:induction false} PausedWhileResuming(opt: Options, s: Cluster, steps: seq<Step>, end: Cluster, r: RunId,
                                               n: NodeId)
    requires Inv(opt, s) && IsRun(opt, s, steps, end) && At(s, r, Resuming) && At(end, r, Resuming) && n in s.nodes
    ensures n in end.nodes
    ensures end.nodes[n].paused
      <==> PausedByAbandoned(opt, s, steps, n) || (s.nodes[n].paused && !ResumedIn(steps, n))
    decreases steps
  {
    if steps != [] {
      var step, t, rest := steps[0], Apply(opt, s, steps[0]), steps[1..];
      InvStep(opt, s, step);
      ReachedStays(opt, s, step, r, Resuming);
      StillResuming(opt, t, rest, end, r);
      Changes(opt, s, step, n);
      if Pauses(step, n) {
        OnlyAbandonedPause(opt, s, step, r);
      }
      PausedWhileResuming(opt, t, rest, end, r, n);
      ResumedFirstOrLater(steps, n);
    }
  }

  /** A resume request that has gone through did so at some moment. */
  lemma {:induction false} FindServe(opt: Options, s: Cluster, steps: seq<Step>, end: Cluster, r: RunId, n: NodeId)
    returns (before: seq<Step>, mid: Cluster, after: seq<Step>)
    requires Inv(opt, s) && IsRun(opt, s, steps, end) && ResumeOf(r, n) !in s.served && ResumeOf(r, n) in end.served
    ensures steps == before + [ServeResume(r, n)] + after
    ensures IsRun(opt, s, before, mid) && Inv(opt, mid) && Enabled(mid, ServeResume(r, n))
    ensures IsRun(opt, Apply(opt, mid, ServeResume(r, n)), after, end)
    decreases steps
  {
    if steps[0] == ServeResume(r, n) {
      before, mid, after := [], s, steps[1..];
      NothingBefore([steps[0]]);
    } else {
      InvStep(opt, s, steps[0]);
      before, mid, after := FindServe(opt, Apply(opt, s, steps[0]), steps[1..], end, r, n);
      StepThenRun(opt, s, steps[0], before, mid);
      Prepend(steps[0], before, [ServeResume(r, n)], after);
      before := [steps[0]] + before;
    }
  }

  lemma Prepend(first: Step, a: seq<Step>, b: seq<Step>, c: seq<Step>)
    ensures [first] + (a + b + c) == [first] + a + b + c
  {
  }

  lemma StepThenRun(opt: Options, s: Cluster, step: Step, rest: seq<Step>, end: Cluster)
    requires Enabled(s, step) && IsRun(opt, Apply(opt, s, step), rest, end)
    ensures IsRun(opt, s, [step] + rest, end)
  {
    assert ([step] + rest)[1..] == rest;
  }

  /** When all of a run's resume calls have succeeded, each node was resumed by it at some moment, and is paused now
      if and only if, after that moment, a pause that its client had given up on took effect there and nothing has
      resumed the node since. */
  lemma ResumedUnlessAbandoned(opt: Options, nodes: set<NodeId>, steps: seq<Step>, s: Cluster, r: RunId, n: NodeId)
    returns (before: seq<Step>, mid: Cluster, after: seq<Step>)
    requires nodes != {} && IsRun(opt, Initial(nodes), steps, s)
    requires At(s, r, Resuming) && Enabled(s, ResumeDone(r)) && !s.runs[r].errored && n in nodes
    ensures steps == before + [ServeResume(r, n)] + after
    ensures IsRun(opt, Initial(nodes), before, mid) && Enabled(mid, ServeResume(r, n))
    ensures IsRun(opt, Apply(opt, mid, ServeResume(r, n)), after, s) && n in s.nodes
    ensures s.nodes[n].paused <==> PausedByAbandoned(opt, Apply(opt, mid, ServeResume(r, n)), after, n)
  {
    InitialInv(opt, nodes);
    Reachable(opt, nodes, steps, s);
    ResumeServed(opt, s, r, n);
    before, mid, after := FindServe(opt, Initial(nodes), steps, s, r, n);
    ServedWhileResuming(opt, mid, after, s, r, n);
  }

  lemma ResumeServed(opt: Options, s: Cluster, r: RunId, n: NodeId)
    requires Inv(opt, s) && Enabled(s, ResumeDone(r)) && !s.runs[r].errored && n in s.nodes.Keys
    ensures ResumeOf(r, n) in s.served
  {
    assert R.RunOk(s.runs[r], opt, s.nodes.Keys);
    assert s.runs[r].rpcs[n] == Acked;
    assert RpcIs(s, r, n, Acked) && Tracked(opt, s, r, n);
  }

  lemma ServedWhileResuming(opt: Options, mid: Cluster, after: seq<Step>, end: Cluster, r: RunId, n: NodeId)
    requires Inv(opt, mid) && Enabled(mid, ServeResume(r, n)) && At(end, r, Resuming)
    requires IsRun(opt, Apply(opt, mid, ServeResume(r, n)), after, end)
    ensures n in end.nodes
    ensures end.nodes[n].paused <==> PausedByAbandoned(opt, Apply(opt, mid, ServeResume(r, n)), after, n)
  {
    var step, resumed := ServeResume(r, n), Apply(opt, mid, ServeResume(r, n));
    assert Tracked(opt, mid, r, n);
    InvStep(opt, mid, step);
    ReachedStays(opt, mid, step, r, Resuming);
    StillResuming(opt, resumed, after, end, r);
    Changes(opt, mid, step, n);
    PausedWhileResuming(opt, resumed, after, end, r, n);
  }

  lemma {:induction false} PatientThrough(opt: Options, s: Cluster, before: seq<Step>, mid: Cluster, step: Step,
                                          after: seq<Step>)
    requires Inv(opt, s) && NoneAbandoned(s) && Patient(opt, s, before + [step] + after)
    requires IsRun(opt, s, before, mid) && Enabled(mid, step)
    ensures Inv(opt, Apply(opt, mid, step)) && NoneAbandoned(Apply(opt, mid, step))
    ensures Patient(opt, Apply(opt, mid, step), after)
    decreases before
  {
    var whole := before + [step] + after;
    InvStep(opt, s, whole[0]);
    GivingUpAbandons(opt, s, whole[0]);
    if before == [] {
      assert whole[0] == step && whole[1..] == after;
    } else {
      assert whole[0] == before[0] && whole[1..] == before[1..] + [step] + after;
      PatientThrough(opt, Apply(opt, s, before[0]), before[1..], mid, step, after);
    }
  }

  lemma {:induction false} PatienceHelps(opt: Options, s: Cluster, steps: seq<Step>, end: Cluster, n: NodeId)
    requires Inv(opt, s) && NoneAbandoned(s) && Patient(opt, s, steps) && IsRun(opt, s, steps, end) && n in s.nodes
    ensures !PausedByAbandoned(opt, s, steps, n)
    decreases steps
  {
    if steps != [] {
      InvStep(opt, s, steps[0]);
      GivingUpAbandons(opt, s, steps[0]);
      if Pauses(steps[0], n) {
        AwaitedOrAbandoned(opt, s, PauseOf(steps[0].r, n));
      }
      assert n in s.nodes.Keys;
      PatienceHelps(opt, Apply(opt, s, steps[0]), steps[1..], end, n);
    }
  }

  /** So as long as no client gives up on a request that is under way, no node is paused once all of a run's resume
      calls have succeeded. */
  lemma NonePausedAfterResume(opt: Options, nodes: set<NodeId>, steps: seq<Step>, s: Cluster, r: RunId)
    requires nodes != {} && IsRun(opt, Initial(nodes), steps, s) && Patient(opt, Initial(nodes), steps)
    requires Enabled(s, ResumeDone(r)) && !s.runs[r].errored
    ensures s.nodes.Keys == nodes && forall n :: n in nodes ==> !s.nodes[n].paused
  {
    InitialInv(opt, nodes);
    Reachable(opt, nodes, steps, s);
    forall n | n in nodes
      ensures !s.nodes[n].paused
    {
      NotPausedAfterResume(opt, nodes, steps, s, r, n);
    }
  }

  lemma NotPausedAfterResume(opt: Options, nodes: set<NodeId>, steps: seq<Step>, s: Cluster, r: RunId, n: NodeId)
    requires nodes != {} && IsRun(opt, Initial(nodes), steps, s) && Patient(opt, Initial(nodes), steps)
    requires Enabled(s, ResumeDone(r)) && !s.runs[r].errored && n in nodes
    ensures n in s.nodes && !s.nodes[n].paused
  {
    InitialInv(opt, nodes);
    assert NoneAbandoned(Initial(nodes));
    var before, mid, after := ResumedUnlessAbandoned(opt, nodes, steps, s, r, n);
    PatientThrough(opt, Initial(nodes), before, mid, ServeResume(r, n), after);
    EffectIsApplied(opt, mid, ServeResume(r, n));
    PatienceHelps(opt, Apply(opt, mid, ServeResume(r, n)), after, s, n);
  }
}
