/** What each run of the failover keeps, taken by itself: its order of calls is the pipeline's, and its time is
    bounded. Then, over all runs: mutual exclusion. */
module FailoverRuns {
  import opened Base
  import opened Failover
  import P = Pipeline
  import N = PauseNode

  /** The deferred actions in each phase, the next one last. */
  function StackAt(pc: Pc): seq<P.Action> {
    match pc
    case Health(_) => []
    case Locking => [P.ReleaseLock]
    case Pausing => [P.ReleaseLock, P.Action.Resume]
    case Migrating => [P.ReleaseLock, P.Action.Resume, P.Unmigrate]
    case Awaiting => [P.ReleaseLock, P.Action.Resume, P.Unmigrate]
    case Unmigrating => [P.ReleaseLock, P.Action.Resume]
    case Resuming => [P.ReleaseLock]
    case Releasing => []
    case Finished => []
    case Gone => []
  }

  /** The same in the order in which they will be called. */
  function PendingAt(pc: Pc): seq<P.Action> {
    match pc
    case Health(_) => []
    case Locking => [P.ReleaseLock]
    case Pausing => [P.Action.Resume, P.ReleaseLock]
    case Migrating => [P.Unmigrate, P.Action.Resume, P.ReleaseLock]
    case Awaiting => [P.Unmigrate, P.Action.Resume, P.ReleaseLock]
    case Unmigrating => [P.Action.Resume, P.ReleaseLock]
    case Resuming => [P.ReleaseLock]
    case Releasing => []
    case Finished => []
    case Gone => []
  }

  predicate Working(pc: Pc) {
    pc.Health? || pc == Locking || pc == Pausing || pc == Migrating || pc == Awaiting
  }

  predicate InWindow(pc: Pc) {
    pc == Pausing || pc == Migrating || pc == Awaiting || pc == Unmigrating || pc == Resuming
  }

  predicate StartedAt(pc: Pc, started: nat) {
    match pc
    case Health(_) => started == 1
    case Locking => started == 2
    case Pausing => started == 3
    case Migrating => started == 4
    case Awaiting => started == 4
    case Unmigrating => started == 4
    case Resuming => 3 <= started <= 4
    case Releasing => 2 <= started <= 4
    case Finished => 1 <= started <= 4
    case Gone => 1 <= started <= 4
  }

  /** The most time that can have passed since the run began when the calls of this phase are over. */
  function Allowance(pc: Pc, opt: Options, nodes: nat): int {
    var locked := nodes * opt.healthCheckTimeout + opt.lockTimeout;
    var paused := locked + opt.pauseExpiry + N.SECOND;
    var migrated := paused + opt.pacemakerTimeout + opt.pauseExpiry;
    var cleaned := migrated + opt.pacemakerTimeout + opt.resumeTimeout;
    match pc
    case Health(left) => (nodes - left + 1) * opt.healthCheckTimeout
    case Locking => locked
    case Pausing => paused
    case Migrating => paused + opt.pacemakerTimeout
    case Awaiting => migrated
    case Unmigrating => migrated + opt.pacemakerTimeout
    case Resuming => cleaned
    case Releasing => cleaned + opt.lockTimeout
    case Finished => cleaned + opt.lockTimeout
    case Gone => 0
  }

  function TimeBound(opt: Options, nodes: nat): int {
    nodes * opt.healthCheckTimeout + 2 * opt.lockTimeout + (opt.pauseExpiry + N.SECOND)
      + 2 * opt.pacemakerTimeout + opt.pauseExpiry + opt.resumeTimeout
  }

  /** What a run has called, in every phase but the last: a process that is gone has left things as they were. */
  predicate Ordered(run: Run) {
    && StartedAt(run.pc, run.started)
    && (run.window <==> InWindow(run.pc))
    && (run.pc != Gone ==> InOrder(run))
  }

  predicate InOrder(run: Run)
    requires 1 <= run.started <= 4
  {
    && run.stack == StackAt(run.pc)
    && (Working(run.pc) ==> run.trace == P.ActionsOf(run.started) && !run.failed)
    && (!Working(run.pc) ==> run.trace + PendingAt(run.pc) == P.ActionsOf(run.started) + P.CleanupOf(run.started))
    && (!Working(run.pc) && !run.failed ==> run.started == 4)
  }

  predicate Timely(run: Run, opt: Options, nodes: nat) {
    && (run.pc.Health? ==> 1 <= run.pc.left <= nodes)
    && (run.pc != Gone ==> run.deadline <= run.startedAt + Allowance(run.pc, opt, nodes))
  }

  predicate Fine(run: Run, now: int, opt: Options, nodes: set<NodeId>) {
    RunOk(run, opt, nodes) && (!Over(run.pc) ==> now <= run.deadline)
  }

  predicate RunOk(run: Run, opt: Options, nodes: set<NodeId>) {
    && Ordered(run) && Timely(run, opt, |nodes|)
    && (run.pc == Pausing || run.pc == Resuming ==> run.rpcs.Keys == nodes && ResultIsRight(run))
  }

  /** EachClient's result is an error exactly when some client's call has failed. */
  predicate ResultIsRight(run: Run) {
    run.errored <==> exists n :: n in run.rpcs && run.rpcs[n] == Failed
  }

  /** The phase that the next cleanup action leads to. */
  function Below(pc: Pc): Pc {
    match pc
    case Locking => Releasing
    case Pausing => Resuming
    case Migrating => Unmigrating
    case Awaiting => Unmigrating
    case Unmigrating => Resuming
    case Resuming => Releasing
    case _ => Finished
  }

  function Top(pc: Pc): P.Action {
    match pc
    case Migrating => P.Unmigrate
    case Awaiting => P.Unmigrate
    case Pausing => P.Action.Resume
    case Unmigrating => P.Action.Resume
    case _ => P.ReleaseLock
  }

  lemma StackTable(pc: Pc)
    requires StackAt(pc) != []
    ensures StackAt(pc) == StackAt(Below(pc)) + [Top(pc)]
    ensures PendingAt(pc) == [Top(pc)] + PendingAt(Below(pc))
  {
  }

  /** The timeout of the context, or of the timer, under which a phase's calls are made. */
  function PhaseTimeout(pc: Pc, opt: Options): nat {
    match pc
    case Health(_) => opt.healthCheckTimeout
    case Locking => opt.lockTimeout
    case Pausing => opt.pauseExpiry + N.SECOND
    case Migrating => opt.pacemakerTimeout
    case Awaiting => opt.pauseExpiry
    case Unmigrating => opt.pacemakerTimeout
    case Resuming => opt.resumeTimeout
    case Releasing => opt.lockTimeout
    case Finished => 0
    case Gone => 0
  }

  /** next is what run becomes when it leaves its phase for the cleanup below it. */
  predicate Popped(run: Run, next: Run, now: int, opt: Options, nodes: set<NodeId>) {
    && next.pc == Below(run.pc) && next.stack == StackAt(next.pc)
    && next.trace == (if run.stack == [] then run.trace else run.trace + [Top(run.pc)])
    && next.started == run.started && next.failed == run.failed
    && next.window == (run.window && (InWindow(next.pc) || run.stack == []))
    && next.startedAt == run.startedAt && next.deadline == now + PhaseTimeout(next.pc, opt)
    && (next.pc == Resuming ==> next.rpcs == AllUnsent(nodes) && !next.errored)
  }

  function PhaseOf(action: P.Action): Pc {
    match action case Unmigrate => Unmigrating case Resume => Resuming case _ => Releasing
  }

  lemma CleanEffect(run: Run, action: P.Action, now: int, opt: Options, nodes: set<NodeId>)
    ensures var next := Clean(run, action, now, opt, nodes);
      && next == run.(pc := PhaseOf(action), rpcs := next.rpcs, errored := next.errored, window := next.window,
                      deadline := now + PhaseTimeout(PhaseOf(action), opt))
      && next.window == (run.window && InWindow(next.pc))
      && (next.pc == Resuming ==> next.rpcs == AllUnsent(nodes) && !next.errored)
  {
  }

  lemma PhaseTable(pc: Pc)
    requires StackAt(pc) != []
    ensures PhaseOf(Top(pc)) == Below(pc)
  {
  }

  lemma CleanPops(run: Run, stack: seq<P.Action>, now: int, opt: Options, nodes: set<NodeId>)
    requires stack == StackAt(Below(run.pc)) && run.stack != [] && run.stack == StackAt(run.pc)
    ensures Popped(run, Clean(run.(stack := stack, trace := run.trace + [Top(run.pc)]), Top(run.pc), now, opt, nodes),
                   now, opt, nodes)
  {
    PhaseTable(run.pc);
    CleanEffect(run.(stack := stack, trace := run.trace + [Top(run.pc)]), Top(run.pc), now, opt, nodes);
  }

  lemma PopPops(run: Run, now: int, opt: Options, nodes: set<NodeId>)
    requires run.stack == StackAt(run.pc) && !Over(run.pc)
    ensures Popped(run, Pop(run, now, opt, nodes), now, opt, nodes)
  {
    if run.stack != [] {
      StackTable(run.pc);
      var rest := StackAt(Below(run.pc));
      assert run.stack[|run.stack| - 1] == Top(run.pc);
      assert run.stack[..|run.stack| - 1] == rest;
      CleanPops(run, rest, now, opt, nodes);
    }
  }

  lemma PendingFollows(run: Run)
    requires Ordered(run) && !Over(run.pc)
    ensures 1 <= run.started <= 4
    ensures run.trace + PendingAt(run.pc) == P.ActionsOf(run.started) + P.CleanupOf(run.started)
    ensures run.stack == [] ==>
      PendingAt(run.pc) == [] && run.trace == P.ActionsOf(run.started) + P.CleanupOf(run.started)
  {
    assert run.stack == [] ==> run.trace + [] == run.trace;
  }

  lemma PoppedIsOrdered(run: Run, failing: Run, next: Run, now: int, opt: Options, nodes: set<NodeId>)
    requires Ordered(run) && !Over(run.pc) && (run.pc == Locking ==> failing.failed)
    requires failing == run.(failed := failing.failed) && (failing.failed || (run.started == 4 && !run.failed))
    requires Popped(failing, next, now, opt, nodes)
    ensures Ordered(next)
  {
    PendingFollows(run);
    if run.stack != [] {
      StackTable(run.pc);
      Associate(run.trace, [Top(run.pc)], PendingAt(Below(run.pc)));
    } else {
      assert next.trace + [] == next.trace;
    }
  }

  lemma HealthFits(left: nat, nodes: nat, timeout: nat)
    requires 1 <= left <= nodes
    ensures 0 <= (nodes - left + 1) * timeout <= nodes * timeout
  {
  }

  lemma AllowanceGrows(pc: Pc, opt: Options, nodes: nat)
    requires pc.Health? ==> 1 <= pc.left <= nodes
    ensures Allowance(pc, opt, nodes) + PhaseTimeout(Below(pc), opt) <= Allowance(Below(pc), opt, nodes)
    ensures Allowance(pc, opt, nodes) <= TimeBound(opt, nodes)
  {
    if pc.Health? {
      HealthFits(pc.left, nodes, opt.healthCheckTimeout);
    }
  }

  lemma PopFine(run: Run, failed: bool, now: int, opt: Options, nodes: set<NodeId>)
    requires Fine(run, now, opt, nodes) && !Over(run.pc) && (run.pc == Locking ==> failed)
    requires failed || (run.started == 4 && !run.failed)
    ensures Fine(Pop(run.(failed := failed), now, opt, nodes), now, opt, nodes)
  {
    var failing := run.(failed := failed);
    var next := Pop(failing, now, opt, nodes);
    PopPops(failing, now, opt, nodes);
    PoppedIsOrdered(run, failing, next, now, opt, nodes);
    AllowanceGrows(run.pc, opt, |nodes|);
    assert AllUnsent(nodes).Keys == nodes;
  }

  lemma EnterLocking(run: Run, now: int, timeout: nat)
    requires Ordered(run) && run.pc.Health?
    ensures Ordered(Enter(run, P.AcquireLock, [P.ReleaseLock], Locking, now, timeout))
  {
  }

  lemma EnterMigrating(run: Run, now: int, timeout: nat)
    requires Ordered(run) && run.pc == Pausing
    ensures Ordered(Enter(run, P.Migrate, [P.Unmigrate], Migrating, now, timeout))
  {
  }

  /** What holds of all runs together. */
  predicate Exclusive(s: Cluster) {
    forall r :: r in s.runs && s.runs[r].window ==> s.lock == Some(r)
  }

  predicate OnTime(s: Cluster) {
    forall r :: r in s.runs && !Over(s.runs[r].pc) ==> s.now <= s.runs[r].deadline
  }

  predicate Inv(opt: Options, s: Cluster) {
    && s.nodes != map[]
    && (forall r :: r in s.runs ==> RunOk(s.runs[r], opt, s.nodes.Keys))
    && Exclusive(s) && OnTime(s)
  }

  lemma OwnRunStaysFine(opt: Options, s: Cluster, step: Step, r: RunId)
    requires Inv(opt, s) && Enabled(s, step) && Owner(step) == Some(r)
    ensures Fine(RunAfter(opt, s, step), s.now, opt, s.nodes.Keys)
  {
    if step.Begin? {
      BeginFine(opt, s, r);
    } else if step.HealthOk? {
      HealthStepFine(opt, s, r);
    } else if step.LockOk? {
      LockStepFine(opt, s, r);
    } else if step.PauseDone? {
      PauseDoneFine(opt, s, r);
    } else if step.MigrateOk? || step.Vanish? {
      assert RunOk(s.runs[r], opt, s.nodes.Keys);
    } else if RpcStep(step) {
      RpcStepFine(opt, s, step, r);
    } else {
      LeavingStepFine(opt, s, step, r);
    }
  }

  /** The steps that end a phase and go on to the cleanup. */
  predicate LeavingStep(step: Step) {
    step.LockFails? || step.Notified? || step.StepFails? || step.UnmigrateReturns? || step.ResumeDone?
    || step.UnlockReturns?
  }

  /** The run as the cleanup finds it. */
  function Leaving(s: Cluster, step: Step): Run
    requires Owner(step).Some? && step.r in s.runs
  {
    var run := s.runs[step.r];
    run.(failed := run.failed || step.LockFails? || step.StepFails?)
  }

  lemma LeavingShape(opt: Options, s: Cluster, step: Step)
    requires Enabled(s, step) && LeavingStep(step)
    ensures step.r in s.runs && !Over(s.runs[step.r].pc) && s.runs[step.r].pc != Pausing
    ensures RunAfter(opt, s, step) == Pop(Leaving(s, step), s.now, opt, s.nodes.Keys)
  {
    var run := s.runs[step.r];
    assert run.failed ==> run.(failed := true) == run;
  }

  lemma LeavingStepFine(opt: Options, s: Cluster, step: Step, r: RunId)
    requires Inv(opt, s) && Enabled(s, step) && LeavingStep(step) && step.r == r
    ensures Fine(RunAfter(opt, s, step), s.now, opt, s.nodes.Keys)
  {
    LeavingShape(opt, s, step);
    var run := s.runs[r];
    assert Fine(run, s.now, opt, s.nodes.Keys);
    PopFine(run, Leaving(s, step).failed, s.now, opt, s.nodes.Keys);
  }

  predicate RpcStep(step: Step) {
    step.SendPause? || step.ReturnRpc? || step.SendResume?
  }

  lemma RpcStepShape(opt: Options, s: Cluster, step: Step)
    requires Enabled(s, step) && RpcStep(step)
    ensures step.r in s.runs && step.n in s.runs[step.r].rpcs
    ensures var run, next := s.runs[step.r], RunAfter(opt, s, step);
      && (run.pc == Pausing || run.pc == Resuming) && run.rpcs[step.n] != Failed
      && next == run.(rpcs := next.rpcs, errored := next.errored)
      && step.n in next.rpcs && next.rpcs == run.rpcs[step.n := next.rpcs[step.n]]
      && next.errored == (run.errored || next.rpcs[step.n] == Failed)
  {
  }

  lemma PopPhase(run: Run, now: int, opt: Options, nodes: set<NodeId>)
    ensures var next := Pop(run, now, opt, nodes);
      && (next.pc == Finished || next.pc == Unmigrating || next.pc == Resuming || next.pc == Releasing)
      && (next.pc == Resuming ==> next.rpcs == AllUnsent(nodes))
  {
  }

  /** A step that is not about a single rpc: how it can lead to pausing, to resuming, or back. */
  lemma PhaseStepShape(opt: Options, s: Cluster, step: Step)
    requires Enabled(s, step) && Owner(step).Some? && !RpcStep(step)
    ensures var next := RunAfter(opt, s, step);
      && (next.pc == Pausing ==> step.LockOk?)
      && (next.pc == Resuming ==> next.rpcs == AllUnsent(s.nodes.Keys))
      && (next.pc.Health? || next.pc == Locking ==> step.Begin? || step.HealthOk?)
      && (next.pc == Migrating ==> step.PauseDone? && !s.runs[step.r].errored)
  {
    if LeavingStep(step) {
      LeavingShape(opt, s, step);
      PopPhase(Leaving(s, step), s.now, opt, s.nodes.Keys);
    } else if step.PauseDone? {
      PopPhase(s.runs[step.r].(failed := true), s.now, opt, s.nodes.Keys);
    }
  }

  /** Phases in the order in which a run can pass through them. */
  function Rank(pc: Pc): nat {
    match pc
    case Health(_) => 0
    case Locking => 1
    case Pausing => 2
    case Migrating => 3
    case Awaiting => 4
    case Unmigrating => 5
    case Resuming => 6
    case Releasing => 7
    case Finished => 8
    case Gone => 9
  }

  lemma BelowRanksHigher(pc: Pc)
    requires !Over(pc)
    ensures Rank(pc) < Rank(Below(pc))
  {
  }

  /** Every step that is not about a single rpc leads to a later phase, or to the next health check. */
  lemma PhaseAdvances(opt: Options, s: Cluster, step: Step, r: RunId)
    requires Enabled(s, step) && Owner(step) == Some(r) && !RpcStep(step) && r in s.runs && Ordered(s.runs[r])
    ensures var before, after := s.runs[r].pc, RunAfter(opt, s, step).pc;
      Rank(before) < Rank(after) || (before.Health? && after.Health?)
  {
    var run := s.runs[r];
    if LeavingStep(step) {
      LeavingShape(opt, s, step);
      PopPops(Leaving(s, step), s.now, opt, s.nodes.Keys);
      BelowRanksHigher(run.pc);
    } else if step.PauseDone? {
      PopPops(run.(failed := true), s.now, opt, s.nodes.Keys);
    }
  }

  lemma RankGrows(opt: Options, s: Cluster, step: Step, r: RunId)
    requires Inv(opt, s) && Enabled(s, step) && r in s.runs
    ensures r in Apply(opt, s, step).runs && Rank(s.runs[r].pc) <= Rank(Apply(opt, s, step).runs[r].pc)
  {
    OthersUntouched(opt, s, step);
    if Owner(step) == Some(r) {
      assert RunOk(s.runs[r], opt, s.nodes.Keys);
      if RpcStep(step) {
        RpcStepShape(opt, s, step);
      } else {
        PhaseAdvances(opt, s, step, r);
      }
    }
  }

  lemma {:induction false} RankRun(opt: Options, s: Cluster, steps: seq<Step>, end: Cluster, r: RunId)
    requires Inv(opt, s) && IsRun(opt, s, steps, end) && r in s.runs
    ensures r in end.runs && Rank(s.runs[r].pc) <= Rank(end.runs[r].pc)
    decreases steps
  {
    if steps != [] {
      InvStep(opt, s, steps[0]);
      RankGrows(opt, s, steps[0], r);
      RankRun(opt, Apply(opt, s, steps[0]), steps[1..], end, r);
    }
  }

  lemma RpcStepFine(opt: Options, s: Cluster, step: Step, r: RunId)
    requires Inv(opt, s) && Enabled(s, step) && Owner(step) == Some(r) && RpcStep(step)
    ensures Fine(RunAfter(opt, s, step), s.now, opt, s.nodes.Keys)
  {
    RpcStepShape(opt, s, step);
    var run, next := s.runs[r], RunAfter(opt, s, step);
    assert Fine(run, s.now, opt, s.nodes.Keys);
    ResultStaysRight(run, next, step.n);
    OnlyRpcsChange(run, next, step.n, s.now, opt, s.nodes.Keys);
  }

  lemma OnlyRpcsChange(run: Run, next: Run, n: NodeId, now: int, opt: Options, nodes: set<NodeId>)
    requires Fine(run, now, opt, nodes) && (run.pc == Pausing || run.pc == Resuming)
    requires next == run.(rpcs := next.rpcs, errored := next.errored) && ResultIsRight(next)
    requires n in run.rpcs && n in next.rpcs && next.rpcs == run.rpcs[n := next.rpcs[n]]
    ensures Fine(next, now, opt, nodes)
  {
    assert next.rpcs.Keys == run.rpcs.Keys;
  }

  /** One goroutine's write to the shared result, or none. */
  lemma ResultStaysRight(run: Run, next: Run, n: NodeId)
    requires ResultIsRight(run) && n in run.rpcs && run.rpcs[n] != Failed
    requires n in next.rpcs && next.rpcs == run.rpcs[n := next.rpcs[n]]
    requires next.errored == (run.errored || next.rpcs[n] == Failed)
    ensures ResultIsRight(next)
  {
    if m :| m in run.rpcs && run.rpcs[m] == Failed {
      assert m in next.rpcs && next.rpcs[m] == Failed;
    }
    if next.rpcs[n] == Failed {
      assert ResultIsRight(next);
    } else if m :| m in next.rpcs && next.rpcs[m] == Failed {
      assert m in run.rpcs && run.rpcs[m] == Failed;
    }
  }

  lemma PauseDoneFine(opt: Options, s: Cluster, r: RunId)
    requires Inv(opt, s) && Enabled(s, PauseDone(r))
    ensures Fine(RunAfter(opt, s, PauseDone(r)), s.now, opt, s.nodes.Keys)
  {
    var run := s.runs[r];
    assert RunOk(run, opt, s.nodes.Keys);
    if run.errored {
      PopFine(run, true, s.now, opt, s.nodes.Keys);
    } else {
      EnterMigrating(run, s.now, opt.pacemakerTimeout);
    }
  }

  lemma BeginFine(opt: Options, s: Cluster, r: RunId)
    requires Inv(opt, s) && Enabled(s, Begin(r))
    ensures Fine(RunAfter(opt, s, Begin(r)), s.now, opt, s.nodes.Keys)
  {
    var n :| n in s.nodes;
    assert n in s.nodes.Keys;
    var run := RunAfter(opt, s, Begin(r));
    assert run.trace == P.ActionsOf(1) && run.stack == [];
  }

  lemma HealthStepFine(opt: Options, s: Cluster, r: RunId)
    requires Inv(opt, s) && Enabled(s, HealthOk(r))
    ensures Fine(RunAfter(opt, s, HealthOk(r)), s.now, opt, s.nodes.Keys)
  {
    var run, k := s.runs[r], |s.nodes.Keys|;
    assert RunOk(run, opt, s.nodes.Keys);
    if run.pc.left > 1 {
      AnotherHealthCheck(run, s.now, opt, s.nodes.Keys);
    } else {
      EnterLocking(run, s.now, opt.lockTimeout);
      HealthFits(1, k, opt.healthCheckTimeout);
    }
  }

  lemma AnotherHealthCheck(run: Run, now: int, opt: Options, nodes: set<NodeId>)
    requires Fine(run, now, opt, nodes) && run.pc.Health? && run.pc.left > 1
    ensures Fine(run.(pc := Health(run.pc.left - 1), deadline := now + opt.healthCheckTimeout), now, opt, nodes)
  {
    NextHealthCheck(|nodes|, run.pc.left, opt.healthCheckTimeout);
  }

  lemma NextHealthCheck(nodes: nat, left: nat, timeout: nat)
    requires left > 1
    ensures (nodes - left + 1) * timeout + timeout == (nodes - (left - 1) + 1) * timeout
  {
  }

  lemma LockStepFine(opt: Options, s: Cluster, r: RunId)
    requires Inv(opt, s) && Enabled(s, LockOk(r))
    ensures Fine(RunAfter(opt, s, LockOk(r)), s.now, opt, s.nodes.Keys)
  {
    assert RunOk(s.runs[r], opt, s.nodes.Keys);
    assert AllUnsent(s.nodes.Keys).Keys == s.nodes.Keys;
  }

  lemma WindowOpensByLocking(opt: Options, s: Cluster, step: Step, r: RunId)
    requires Enabled(s, step) && Owner(step) == Some(r) && !step.LockOk?
    requires r in s.runs ==> Ordered(s.runs[r])
    ensures RunAfter(opt, s, step).window ==> r in s.runs && s.runs[r].window
  {
  }

  lemma LockMoves(opt: Options, s: Cluster, step: Step)
    requires Enabled(s, step)
    ensures var t := Apply(opt, s, step);
      || t.lock == s.lock
      || (step.LockOk? && s.lock == None && t.lock == Some(step.r))
      || (step.LockFails? && s.lock == None)
      || (step.UnlockReturns? && s.lock == Some(step.r) && At(s, step.r, Releasing))
      || (step.LeaseEnds? && t.lock == None)
  {
  }

  /** No step of a run puts anybody else into the window or takes the lock from under them. */
  lemma StepKeepsExclusion(opt: Options, s: Cluster, step: Step, r: RunId)
    requires Inv(opt, s) && Enabled(s, step) && Owner(step) == Some(r)
    ensures Exclusive(Apply(opt, s, step))
  {
    var t := Apply(opt, s, step);
    OthersUntouched(opt, s, step);
    LockMoves(opt, s, step);
    assert r in s.runs ==> RunOk(s.runs[r], opt, s.nodes.Keys);
    if step.LockOk? {
      assert t.lock == Some(r);
    } else {
      WindowOpensByLocking(opt, s, step, r);
    }
  }

  lemma OthersUntouched(opt: Options, s: Cluster, step: Step)
    requires Enabled(s, step)
    ensures var t := Apply(opt, s, step);
      && t.nodes.Keys == s.nodes.Keys
      && (match Owner(step)
          case Some(r) =>
            && t.now == s.now
            && forall q :: q != r ==> (q in t.runs <==> q in s.runs) && (q in s.runs ==> t.runs[q] == s.runs[q])
          case None => t.runs == s.runs && (!step.LeaseEnds? ==> t.lock == s.lock))
  {
  }

  lemma InvStep(opt: Options, s: Cluster, step: Step)
    requires Inv(opt, s) && Enabled(s, step)
    ensures Inv(opt, Apply(opt, s, step)) && Apply(opt, s, step).nodes.Keys == s.nodes.Keys
  {
    var t := Apply(opt, s, step);
    OthersUntouched(opt, s, step);
    match Owner(step) {
      case Some(r) =>
        OwnRunStaysFine(opt, s, step, r);
        StepKeepsExclusion(opt, s, step, r);
        AllStayFine(opt, s, t, r);
      case None =>
        assert step.Tick? ==> MayTick(s, step.to);
        assert !step.Tick? ==> t.now == s.now;
        if step.LeaseEnds? {
          LeaseEndsOutside(opt, s);
        }
    }
  }

  /** Nobody is inside the window when the lease of an ended process runs out. */
  lemma LeaseEndsOutside(opt: Options, s: Cluster)
    requires Inv(opt, s) && Enabled(s, LeaseEnds)
    ensures forall r :: r in s.runs ==> !s.runs[r].window
  {
    assert RunOk(s.runs[s.lock.value], opt, s.nodes.Keys);
  }

  lemma AllStayFine(opt: Options, s: Cluster, t: Cluster, r: RunId)
    requires Inv(opt, s) && t.nodes.Keys == s.nodes.Keys && t.now == s.now && Exclusive(t)
    requires forall q :: q != r ==> (q in t.runs <==> q in s.runs) && (q in s.runs ==> t.runs[q] == s.runs[q])
    requires r in t.runs && Fine(t.runs[r], s.now, opt, s.nodes.Keys)
    ensures Inv(opt, t)
  {
    assert t.nodes != map[] by {
      var n :| n in s.nodes;
      assert n in t.nodes.Keys;
    }
  }

  lemma {:induction false} InvRun(opt: Options, s: Cluster, steps: seq<Step>, end: Cluster)
    requires Inv(opt, s) && IsRun(opt, s, steps, end)
    ensures Inv(opt, end) && end.nodes.Keys == s.nodes.Keys
    decreases steps
  {
    if steps != [] {
      InvStep(opt, s, steps[0]);
      InvRun(opt, Apply(opt, s, steps[0]), steps[1..], end);
    }
  }

  lemma Reachable(opt: Options, nodes: set<NodeId>, steps: seq<Step>, end: Cluster)
    requires nodes != {} && IsRun(opt, Initial(nodes), steps, end)
    ensures Inv(opt, end) && end.nodes.Keys == nodes
  {
    InitialInv(opt, nodes);
    InvRun(opt, Initial(nodes), steps, end);
  }

  // ---------------------------------------------------------------------------------------------------
  // The theorems

  /** At most one run is between its successful AcquireLock and its ReleaseLock. */
  lemma MutualExclusion(opt: Options, nodes: set<NodeId>, steps: seq<Step>, s: Cluster, q: RunId, r: RunId)
    requires nodes != {} && IsRun(opt, Initial(nodes), steps, s)
    requires q in s.runs && r in s.runs && s.runs[q].window && s.runs[r].window
    ensures q == r
  {
    Reachable(opt, nodes, steps, s);
  }

  // ---------------------------------------------------------------------------------------------------
  // A run waits for etcd, and every phase gets its time

  predicate Cleaning(pc: Pc) {
    pc == Unmigrating || pc == Resuming || pc == Releasing || pc == Finished
  }

  /** Given whether the run was notified so far. */
  predicate Heeds(pc: Pc, failed: bool, notified: bool) {
    (Working(pc) ==> !notified) && (Cleaning(pc) ==> (!failed <==> notified))
  }

  predicate RunHeeds(s: Cluster, r: RunId, notified: bool) {
    if r in s.runs then Heeds(s.runs[r].pc, s.runs[r].failed, notified) else !notified
  }

  lemma LeavingHeeds(opt: Options, s: Cluster, step: Step, notified: bool)
    requires Enabled(s, step) && LeavingStep(step) && Ordered(s.runs[step.r])
    requires Heeds(s.runs[step.r].pc, s.runs[step.r].failed, notified)
    ensures var next := RunAfter(opt, s, step); Heeds(next.pc, next.failed, notified || step.Notified?)
  {
    LeavingShape(opt, s, step);
    PopPops(Leaving(s, step), s.now, opt, s.nodes.Keys);
  }

  lemma PauseDoneHeeds(opt: Options, s: Cluster, r: RunId, notified: bool)
    requires Enabled(s, PauseDone(r)) && Ordered(s.runs[r]) && Heeds(s.runs[r].pc, s.runs[r].failed, notified)
    ensures var next := RunAfter(opt, s, PauseDone(r)); Heeds(next.pc, next.failed, notified)
  {
    if s.runs[r].errored {
      PopPops(s.runs[r].(failed := true), s.now, opt, s.nodes.Keys);
    }
  }

  lemma OtherStepHeeds(opt: Options, s: Cluster, step: Step, r: RunId, notified: bool)
    requires Enabled(s, step) && Owner(step) == Some(r) && !LeavingStep(step) && !step.PauseDone?
    requires RunHeeds(s, r, notified)
    ensures var next := RunAfter(opt, s, step); Heeds(next.pc, next.failed, notified)
  {
  }

  lemma HeedsStep(opt: Options, s: Cluster, step: Step, r: RunId, notified: bool)
    requires Inv(opt, s) && RunHeeds(s, r, notified) && Enabled(s, step)
    ensures RunHeeds(Apply(opt, s, step), r, notified || step == Notified(r))
  {
    OthersUntouched(opt, s, step);
    if Owner(step) == Some(r) {
      assert r in s.runs ==> RunOk(s.runs[r], opt, s.nodes.Keys);
      if LeavingStep(step) {
        LeavingHeeds(opt, s, step, notified);
      } else if step.PauseDone? {
        PauseDoneHeeds(opt, s, r, notified);
      } else {
        OtherStepHeeds(opt, s, step, r, notified);
      }
    }
  }

  lemma {:induction false} HeedsRun(opt: Options, s: Cluster, steps: seq<Step>, end: Cluster, r: RunId, notified: bool)
    requires Inv(opt, s) && RunHeeds(s, r, notified) && IsRun(opt, s, steps, end)
    ensures RunHeeds(end, r, notified || Notified(r) in steps)
    decreases steps
  {
    if steps != [] {
      InvStep(opt, s, steps[0]);
      HeedsStep(opt, s, steps[0], r, notified);
      HeedsRun(opt, Apply(opt, s, steps[0]), steps[1..], end, r, notified || steps[0] == Notified(r));
      assert Notified(r) in steps <==> steps[0] == Notified(r) || Notified(r) in steps[1..];
    }
  }

  /** A run that is at its cleanup, or has finished, has not failed if and only if etcd showed it the new master. */
  lemma SuccessIsNotified(opt: Options, nodes: set<NodeId>, steps: seq<Step>, s: Cluster, r: RunId)
    requires nodes != {} && IsRun(opt, Initial(nodes), steps, s) && r in s.runs && Cleaning(s.runs[r].pc)
    ensures !s.runs[r].failed <==> Notified(r) in steps
  {
    InitialInv(opt, nodes);
    HeedsRun(opt, Initial(nodes), steps, s, r, false);
  }

  /** So a run that has not failed resumes nothing before that. */
  lemma NoResumeBeforeNotified(opt: Options, nodes: set<NodeId>, steps: seq<Step>, s: Cluster, r: RunId, n: NodeId)
    requires nodes != {} && IsRun(opt, Initial(nodes), steps, s) && Enabled(s, SendResume(r, n))
    ensures s.runs[r].failed || Notified(r) in steps
  {
    SuccessIsNotified(opt, nodes, steps, s, r);
  }

  lemma EntersWithTimeout(opt: Options, s: Cluster, step: Step, r: RunId)
    requires Enabled(s, step) && Owner(step) == Some(r) && !RpcStep(step) && !step.Vanish?
    requires r in s.runs ==> Ordered(s.runs[r])
    ensures var next := RunAfter(opt, s, step); next.deadline == s.now + PhaseTimeout(next.pc, opt)
  {
    if LeavingStep(step) {
      LeavingShape(opt, s, step);
      PopPops(Leaving(s, step), s.now, opt, s.nodes.Keys);
    } else if step.PauseDone? {
      PopPops(s.runs[r].(failed := true), s.now, opt, s.nodes.Keys);
    }
  }

  /** Nothing but run r would hold the clock back. */
  predicate OthersAllow(s: Cluster, r: RunId, to: int) {
    && (forall q :: q in s.runs && q != r && !Over(s.runs[q].pc) ==> to <= s.runs[q].deadline)
    && (forall n :: n in s.nodes ==> N.Punctual(s.nodes[n], to))
    && (forall n, id :: n in s.nodes && id in s.nodes[n].calls ==> to <= PauseBy(s.nodes[n].calls[id]))
  }

  lemma TickSplit(s: Cluster, r: RunId, to: int)
    requires r in s.runs && !Over(s.runs[r].pc)
    ensures Enabled(s, Tick(to)) <==> OthersAllow(s, r, to) && s.now <= to <= s.runs[r].deadline
  {
  }

  lemma TimeAfter(opt: Options, s: Cluster, step: Step, r: RunId, to: int)
    requires Inv(opt, s) && Enabled(s, step) && Owner(step) == Some(r) && !RpcStep(step) && !step.Vanish?
    ensures r in Apply(opt, s, step).runs
    ensures Over(Apply(opt, s, step).runs[r].pc) || GetsItsTime(opt, Apply(opt, s, step), r, to)
  {
    var t := Apply(opt, s, step);
    if r in s.runs {
      assert RunOk(s.runs[r], opt, s.nodes.Keys);
    }
    EntersWithTimeout(opt, s, step, r);
    assert t.now == s.now && t.runs[r] == RunAfter(opt, s, step);
    if !Over(t.runs[r].pc) {
      TickSplit(t, r, to);
    }
  }

  /** Run r lets the clock go on to this time, as far as its phase's timeout from now. */
  predicate GetsItsTime(opt: Options, s: Cluster, r: RunId, to: int)
    requires r in s.runs
  {
    Enabled(s, Tick(to)) <==> OthersAllow(s, r, to) && s.now <= to <= s.now + PhaseTimeout(s.runs[r].pc, opt)
  }

  /** From the moment a run enters a phase, its calls may take all of that phase's timeout, and no more. */
  lemma PhaseGetsItsTime(opt: Options, nodes: set<NodeId>, steps: seq<Step>, s: Cluster, step: Step, r: RunId, to: int)
    requires nodes != {} && IsRun(opt, Initial(nodes), steps, s) && Enabled(s, step)
    requires Owner(step) == Some(r) && !RpcStep(step) && !step.Vanish?
    ensures r in Apply(opt, s, step).runs
    ensures Over(Apply(opt, s, step).runs[r].pc) || GetsItsTime(opt, Apply(opt, s, step), r, to)
  {
    Reachable(opt, nodes, steps, s);
    TimeAfter(opt, s, step, r, to);
  }

  lemma AwaitingFollows(opt: Options, s: Cluster, r: RunId)
    requires At(s, r, Migrating)
    ensures Enabled(s, MigrateOk(r))
    ensures var t := Apply(opt, s, MigrateOk(r));
      At(t, r, Awaiting) && Enabled(t, Notified(r)) && Enabled(t, StepFails(r)) && t.runs[r].trace == s.runs[r].trace
  {
  }

  /** When the migrate rpc has answered, the run waits: for the notification, or for the pause expiry to pass. */
  lemma MigrateThenAwait(opt: Options, nodes: set<NodeId>, steps: seq<Step>, s: Cluster, r: RunId, to: int)
    requires nodes != {} && IsRun(opt, Initial(nodes), steps, s) && At(s, r, Migrating)
    ensures Enabled(s, MigrateOk(r))
    ensures var t := Apply(opt, s, MigrateOk(r));
      && At(t, r, Awaiting) && Enabled(t, Notified(r)) && Enabled(t, StepFails(r))
      && (Enabled(t, Tick(to)) <==> OthersAllow(t, r, to) && t.now <= to <= t.now + opt.pauseExpiry)
  {
    AwaitingFollows(opt, s, r);
    PhaseGetsItsTime(opt, nodes, steps, s, MigrateOk(r), r, to);
  }

  // ---------------------------------------------------------------------------------------------------
  // Requests

  /** The run that issues a pause, migrate, unmigrate or resume request in this step. */
  function Issuer(opt: Options, s: Cluster, step: Step): Option<RunId>
    requires Enabled(s, step)
  {
    match Owner(step)
    case None => None
    case Some(r) =>
      var next := RunAfter(opt, s, step).pc;
      if step.SendPause? || step.SendResume? then Some(r)
      else if r in s.runs && s.runs[r].pc != next && (next == Migrating || next == Unmigrating) then Some(r)
      else None
  }

  lemma IssuerIsInWindow(opt: Options, s: Cluster, step: Step, r: RunId)
    requires Inv(opt, s) && Enabled(s, step) && Issuer(opt, s, step) == Some(r)
    ensures r in s.runs && InWindow(s.runs[r].pc) && InWindow(RunAfter(opt, s, step).pc)
    ensures !step.LockOk? && !step.LockFails? && !step.UnlockReturns?
  {
    if RpcStep(step) {
      RpcStepShape(opt, s, step);
    } else {
      assert Ordered(s.runs[r]);
      NextPhase(opt, s, step, r);
    }
  }

  lemma NextPhase(opt: Options, s: Cluster, step: Step, r: RunId)
    requires Enabled(s, step) && Owner(step) == Some(r) && !RpcStep(step) && r in s.runs && Ordered(s.runs[r])
    ensures var before, after := s.runs[r].pc, RunAfter(opt, s, step).pc;
      && (after == Migrating ==> before == Pausing && step.PauseDone?)
      && (after == Unmigrating ==> before == Awaiting || before == Migrating)
  {
    if LeavingStep(step) {
      LeavingShape(opt, s, step);
      PopPops(Leaving(s, step), s.now, opt, s.nodes.Keys);
    } else if step.PauseDone? {
      PopPops(s.runs[r].(failed := true), s.now, opt, s.nodes.Keys);
    }
  }

  /** Every such request is issued by a run that holds the lock, inside its window. */
  lemma RequestsOnlyInWindow(opt: Options, nodes: set<NodeId>, steps: seq<Step>, s: Cluster, step: Step)
    requires nodes != {} && IsRun(opt, Initial(nodes), steps, s) && Enabled(s, step)
    requires Issuer(opt, s, step).Some?
    ensures var r := Issuer(opt, s, step).value;
      && r in s.runs && s.runs[r].window && s.lock == Some(r)
      && Apply(opt, s, step).runs[r].window && Apply(opt, s, step).lock == Some(r)
  {
    Reachable(opt, nodes, steps, s);
    var r := Issuer(opt, s, step).value;
    IssuerIsInWindow(opt, s, step, r);
    OwnRunStaysFine(opt, s, step, r);
    assert RunOk(s.runs[r], opt, s.nodes.Keys);
  }

  /** No run is still at work when the bound has passed, cleanup included. A finished run's deadline is the time at
      which it finished. */
  lemma RunsAreBounded(opt: Options, nodes: set<NodeId>, steps: seq<Step>, s: Cluster, r: RunId)
    requires nodes != {} && IsRun(opt, Initial(nodes), steps, s) && r in s.runs
    ensures s.now > s.runs[r].startedAt + TimeBound(opt, |nodes|) ==> Over(s.runs[r].pc)
    ensures s.runs[r].pc == Finished ==> s.runs[r].deadline <= s.runs[r].startedAt + TimeBound(opt, |nodes|)
  {
    Reachable(opt, nodes, steps, s);
    assert RunOk(s.runs[r], opt, s.nodes.Keys);
    AllowanceGrows(s.runs[r].pc, opt, |nodes|);
  }

  /** In any order of its goroutines, and whatever they met, EachClient's result is an error exactly when some call
      has failed. */
  lemma EachClientReports(opt: Options, nodes: set<NodeId>, steps: seq<Step>, s: Cluster, r: RunId)
    requires nodes != {} && IsRun(opt, Initial(nodes), steps, s) && r in s.runs
    requires s.runs[r].pc == Pausing || s.runs[r].pc == Resuming
    ensures s.runs[r].rpcs.Keys == nodes
    ensures s.runs[r].errored <==> exists n :: n in s.runs[r].rpcs && s.runs[r].rpcs[n] == Failed
    ensures Settled(s.runs[r]) && !s.runs[r].errored ==> forall n :: n in nodes ==> s.runs[r].rpcs[n] == Acked
  {
    Reachable(opt, nodes, steps, s);
    assert RunOk(s.runs[r], opt, s.nodes.Keys);
  }

  // ---------------------------------------------------------------------------------------------------
  // Every run ends

  function Those(rpcs: map<NodeId, Rpc>, rpc: Rpc): set<NodeId> {
    set n | n in rpcs && rpcs[n] == rpc
  }

  function RpcsLeft(rpcs: map<NodeId, Rpc>): nat {
    2 * |Those(rpcs, Unsent)| + |Those(rpcs, Sent)|
  }

  lemma ThoseAfter(rpcs: map<NodeId, Rpc>, n: NodeId, rpc: Rpc, x: Rpc)
    requires n in rpcs
    ensures Those(rpcs[n := rpc], x) == if x == rpc then Those(rpcs, x) + {n} else Those(rpcs, x) - {n}
  {
  }

  lemma RpcsShrink(rpcs: map<NodeId, Rpc>, n: NodeId, rpc: Rpc)
    requires n in rpcs && (rpcs[n] == Unsent || (rpcs[n] == Sent && rpc != Sent)) && rpc != Unsent
    ensures RpcsLeft(rpcs[n := rpc]) < RpcsLeft(rpcs)
  {
    ThoseAfter(rpcs, n, rpc, Unsent);
    ThoseAfter(rpcs, n, rpc, Sent);
    assert n in Those(rpcs, rpcs[n]);
  }

  lemma FreshRpcs(nodes: set<NodeId>)
    ensures RpcsLeft(AllUnsent(nodes)) == 2 * |nodes|
  {
    assert Those(AllUnsent(nodes), Unsent) == nodes && Those(AllUnsent(nodes), Sent) == {};
  }

  /** The most steps of its own that a run has left. */
  function Left(run: Run, nodes: nat): nat {
    match run.pc
    case Health(left) => 4 * nodes + 7 + left
    case Locking => 4 * nodes + 7
    case Pausing => RpcsLeft(run.rpcs) + 2 * nodes + 6
    case Migrating => 2 * nodes + 5
    case Awaiting => 2 * nodes + 4
    case Unmigrating => 2 * nodes + 3
    case Resuming => RpcsLeft(run.rpcs) + 2
    case Releasing => 1
    case Finished => 0
    case Gone => 0
  }

  function MaxSteps(nodes: nat): nat {
    5 * nodes + 8
  }

  function LeftOf(s: Cluster, r: RunId): nat {
    if r in s.runs then Left(s.runs[r], |s.nodes.Keys|) else MaxSteps(|s.nodes.Keys|)
  }

  lemma PopShrinks(run: Run, now: int, opt: Options, nodes: set<NodeId>)
    requires run.stack == StackAt(run.pc) && !Over(run.pc)
    ensures Left(Pop(run, now, opt, nodes), |nodes|) < Left(run, |nodes|)
  {
    PopPops(run, now, opt, nodes);
    FreshRpcs(nodes);
  }

  lemma RpcStepShrinks(opt: Options, s: Cluster, step: Step)
    requires Enabled(s, step) && RpcStep(step)
    ensures step.r in s.runs && Left(RunAfter(opt, s, step), |s.nodes.Keys|) < Left(s.runs[step.r], |s.nodes.Keys|)
  {
    RpcStepShape(opt, s, step);
    var run, next := s.runs[step.r], RunAfter(opt, s, step);
    RpcsShrink(run.rpcs, step.n, next.rpcs[step.n]);
  }

  lemma LeavingStepShrinks(opt: Options, s: Cluster, step: Step)
    requires Enabled(s, step) && LeavingStep(step) && Ordered(s.runs[step.r])
    ensures Left(RunAfter(opt, s, step), |s.nodes.Keys|) < Left(s.runs[step.r], |s.nodes.Keys|)
  {
    LeavingShape(opt, s, step);
    PopShrinks(Leaving(s, step), s.now, opt, s.nodes.Keys);
  }

  lemma ForwardStepShrinks(opt: Options, s: Cluster, step: Step)
    requires Enabled(s, step) && (step.HealthOk? || step.LockOk? || step.MigrateOk? || step.Vanish?)
    ensures Left(RunAfter(opt, s, step), |s.nodes.Keys|) < Left(s.runs[step.r], |s.nodes.Keys|)
  {
    FreshRpcs(s.nodes.Keys);
  }

  lemma OwnStepShrinks(opt: Options, s: Cluster, step: Step, r: RunId)
    requires Enabled(s, step) && Owner(step) == Some(r)
    requires r in s.runs ==> Ordered(s.runs[r])
    ensures Left(RunAfter(opt, s, step), |s.nodes.Keys|) < LeftOf(s, r)
  {
    if step.Begin? {
      assert RunAfter(opt, s, step).pc == Health(|s.nodes.Keys|);
    } else if RpcStep(step) {
      RpcStepShrinks(opt, s, step);
    } else if LeavingStep(step) {
      LeavingStepShrinks(opt, s, step);
    } else if step.PauseDone? {
      PauseDoneShrinks(opt, s, r);
    } else {
      ForwardStepShrinks(opt, s, step);
    }
  }

  lemma PauseDoneShrinks(opt: Options, s: Cluster, r: RunId)
    requires Enabled(s, PauseDone(r)) && Ordered(s.runs[r])
    ensures Left(RunAfter(opt, s, PauseDone(r)), |s.nodes.Keys|) < Left(s.runs[r], |s.nodes.Keys|)
  {
    if s.runs[r].errored {
      PopShrinks(s.runs[r].(failed := true), s.now, opt, s.nodes.Keys);
    }
  }

  function OwnSteps(steps: seq<Step>, r: RunId): nat {
    if steps == [] then 0 else (if Owner(steps[0]) == Some(r) then 1 else 0) + OwnSteps(steps[1..], r)
  }

  lemma LeftShrinks(opt: Options, s: Cluster, step: Step, r: RunId)
    requires Inv(opt, s) && Enabled(s, step)
    ensures LeftOf(Apply(opt, s, step), r) + (if Owner(step) == Some(r) then 1 else 0) <= LeftOf(s, r)
  {
    OthersUntouched(opt, s, step);
    if Owner(step) == Some(r) {
      assert r in s.runs ==> RunOk(s.runs[r], opt, s.nodes.Keys);
      OwnStepShrinks(opt, s, step, r);
    }
  }

  lemma {:induction false} OwnStepsRunOut(opt: Options, s: Cluster, steps: seq<Step>, end: Cluster, r: RunId)
    requires Inv(opt, s) && IsRun(opt, s, steps, end)
    ensures OwnSteps(steps, r) + LeftOf(end, r) <= LeftOf(s, r)
    decreases steps
  {
    if steps != [] {
      InvStep(opt, s, steps[0]);
      LeftShrinks(opt, s, steps[0], r);
      OwnStepsRunOut(opt, Apply(opt, s, steps[0]), steps[1..], end, r);
    }
  }

  /** A run that is not over always has a step to take. */
  lemma NeverStuck(opt: Options, s: Cluster, r: RunId) returns (step: Step)
    requires Inv(opt, s) && r in s.runs && !Over(s.runs[r].pc)
    ensures Enabled(s, step) && Owner(step) == Some(r) && !step.Vanish?
  {
    var run := s.runs[r];
    assert RunOk(run, opt, s.nodes.Keys);
    match run.pc {
      case Health(_) => step := HealthOk(r);
      case Locking => step := LockFails(r, false);
      case Pausing => step := RpcOrDone(s, r);
      case Migrating => step := MigrateOk(r);
      case Awaiting => step := StepFails(r);
      case Unmigrating => step := UnmigrateReturns(r);
      case Resuming => step := RpcOrDone(s, r);
      case Releasing => step := UnlockReturns(r, true);
    }
  }

  lemma RpcOrDone(s: Cluster, r: RunId) returns (step: Step)
    requires (At(s, r, Pausing) || At(s, r, Resuming)) && s.runs[r].rpcs.Keys == s.nodes.Keys
    ensures Enabled(s, step) && Owner(step) == Some(r) && !step.Vanish?
  {
    var run := s.runs[r];
    if Settled(run) {
      step := if run.pc == Pausing then PauseDone(r) else ResumeDone(r);
    } else {
      var n :| n in run.rpcs && run.rpcs[n] != Acked && run.rpcs[n] != Failed;
      assert n in s.nodes.Keys;
      step := ReturnRpc(r, n, false);
    }
  }

  /** In any run of the cluster, a run of the failover takes a bounded number of steps, and the only way for it to
      have none left is to be over. */
  lemma RunsEnd(opt: Options, nodes: set<NodeId>, steps: seq<Step>, s: Cluster, r: RunId)
    requires nodes != {} && IsRun(opt, Initial(nodes), steps, s) && r in s.runs
    ensures OwnSteps(steps, r) <= MaxSteps(|nodes|)
    ensures (forall step :: Owner(step) == Some(r) && !step.Vanish? ==> !Enabled(s, step)) <==> Over(s.runs[r].pc)
  {
    Reachable(opt, nodes, steps, s);
    InitialInv(opt, nodes);
    OwnStepsRunOut(opt, Initial(nodes), steps, s, r);
    if Over(s.runs[r].pc) {
      OverIsOver(s, r);
    } else {
      var step := NeverStuck(opt, s, r);
    }
  }

  lemma OverIsOver(s: Cluster, r: RunId)
    requires r in s.runs && Over(s.runs[r].pc)
    ensures forall step :: Owner(step) == Some(r) ==> !Enabled(s, step)
  {
  }

  lemma InitialInv(opt: Options, nodes: set<NodeId>)
    requires nodes != {}
    ensures Inv(opt, Initial(nodes)) && Initial(nodes).nodes.Keys == nodes
  {
    var n :| n in nodes;
    assert n in Initial(nodes).nodes;
  }

  predicate HandlerStep(step: Step) {
    step.PauseTakesEffect? || step.PauseSucceeds? || step.PauseFails?
  }

  function HandlerLeft(node: N.Node, id: RunId): nat {
    if id !in node.calls then 0 else if node.calls[id].effected then 1 else 2
  }

  lemma HandlerStepShrinks(opt: Options, s: Cluster, step: Step)
    requires Enabled(s, step) && HandlerStep(step)
    ensures step.n in s.nodes && step.n in NodesAfter(opt, s, step)
    ensures HandlerLeft(NodesAfter(opt, s, step)[step.n], step.r) < HandlerLeft(s.nodes[step.n], step.r)
  {
  }

  /** Nothing holds the clock back but work that can be done at this very moment: by a run that is not over, by an
      open handler, or by a scheduled resume that is due. No process that is gone is waited for. */
  lemma TimeGoesOn(opt: Options, nodes: set<NodeId>, steps: seq<Step>, s: Cluster) returns (step: Step)
    requires nodes != {} && IsRun(opt, Initial(nodes), steps, s)
    ensures Enabled(s, step)
    ensures step == Tick(s.now + 1) || step.Fire? || HandlerStep(step)
      || (Owner(step).Some? && step.r in s.runs && !Over(s.runs[step.r].pc) && !step.Vanish?)
  {
    Reachable(opt, nodes, steps, s);
    var to := s.now + 1;
    if r :| r in s.runs && !Over(s.runs[r].pc) && s.runs[r].deadline < to {
      step := NeverStuck(opt, s, r);
    } else if n :| n in s.nodes && !N.Punctual(s.nodes[n], to) {
      var id :| id in s.nodes[n].timers && s.nodes[n].timers[id] < to;
      step := Fire(n, id);
    } else if n, id :| n in s.nodes && id in s.nodes[n].calls && PauseBy(s.nodes[n].calls[id]) < to {
      step := if s.nodes[n].calls[id].effected then PauseSucceeds(id, n) else PauseFails(id, n);
    } else {
      step := Tick(to);
    }
  }

  /** The environment in which the pipeline's action number `started` fails, or none does. */
  function EnvOf(started: nat, failed: bool): P.Env<P.Action, ()> {
    (before, action) => if failed && |before| == started - 1 then Some(()) else None
  }

  lemma PipelineWithEnv(started: nat, failed: bool)
    requires 1 <= started <= 4 && (!failed ==> started == 4)
    ensures P.Execute(P.FailoverPlan(), EnvOf(started, failed), []) ==
      (P.ActionsOf(started) + P.CleanupOf(started), if failed then Some(()) else None)
  {
    var env := EnvOf(started, failed);
    var k := if failed then started - 1 else 4;
    StopsThere(started, failed);
    P.ExecuteClosedForm(P.FailoverPlan(), env, [], k);
    P.FailoverPrefix(started);
    assert P.Started(P.FailoverPlan(), k) == started;
    assert [] + (P.ActionsOf(started) + P.CleanupOf(started)) == P.ActionsOf(started) + P.CleanupOf(started);
    if failed {
      P.StopsAtFails(P.FailoverPlan(), env, [], k);
    }
  }

  /** A finished run made exactly the calls that the pipeline makes when the same step fails: the concurrent
      system refines Pipeline.Execute. */
  lemma FinishedRunIsPipelineRun(opt: Options, nodes: set<NodeId>, steps: seq<Step>, s: Cluster, r: RunId)
    requires nodes != {} && IsRun(opt, Initial(nodes), steps, s) && r in s.runs && s.runs[r].pc == Finished
    ensures var run := s.runs[r];
      && 1 <= run.started <= 4
      && P.Execute(P.FailoverPlan(), EnvOf(run.started, run.failed), []) ==
           (run.trace, if run.failed then Some(()) else None)
  {
    Reachable(opt, nodes, steps, s);
    var run := s.runs[r];
    assert RunOk(run, opt, s.nodes.Keys);
    assert run.trace + [] == run.trace;
    PipelineWithEnv(run.started, run.failed);
  }

  lemma StopsThere(started: nat, failed: bool)
    requires 1 <= started <= 4 && (!failed ==> started == 4)
    ensures P.StopsAt(P.FailoverPlan(), EnvOf(started, failed), [], if failed then started - 1 else 4)
  {
    StopsFrom(P.FailoverPlan(), [], started, failed);
  }

  lemma {:induction false} StopsFrom(plan: seq<P.Stage<P.Action>>, before: seq<P.Action>, started: nat, failed: bool)
    requires failed ==> |before| < started <= |before| + |plan|
    ensures P.StopsAt(plan, EnvOf(started, failed), before,
                      if failed then started - 1 - |before| else |plan|)
    decreases |plan|
  {
    if plan != [] && !(failed && |before| == started - 1) {
      StopsFrom(plan[1..], before + [plan[0].action], started, failed);
    }
  }
}
