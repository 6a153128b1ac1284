/** The failover's state, told by its schedule: which steps have been taken, and nothing else, decides in which phase
    every run is, where every request is, who holds the lock and whether a PgBouncer is paused; and by that, which
    steps can come next. */
module FailoverHistory {
  import opened Base
  import opened Failover
  import Q = FailoverRequests
  import R = FailoverRuns
  import N = PauseNode

  // ---------------------------------------------------------------------------------------------------
  // A run's phase

  /** What has happened to a run so far. */
  datatype Story = Story(
    begun: bool,
    healthy: nat,              // health checks passed
    locked: bool,              // AcquireLock succeeded
    lockFailed: bool,
    granted: bool,             // it failed, but only its answer was lost
    refused: bool,             // some pause or resume call has returned an error
    paused: bool,              // all pause calls have returned
    pauseFailed: bool,         // and one of them with an error
    migrated: bool,
    notified: bool,
    stepFailed: bool,
    unmigrated: bool,
    resumed: bool,
    released: bool,
    unlocked: bool,            // ReleaseLock reached etcd
    leaseEnded: bool,          // some lease has ended since the run took the lock
    vanished: bool
  )

  const UNTOLD :=
    Story(false, 0, false, false, false, false, false, false, false,
          false, false, false, false, false, false, false, false)

  function HealthChecks(past: seq<Step>, r: RunId): nat {
    if past == [] then 0
    else HealthChecks(past[..|past| - 1], r) + if past[|past| - 1] == HealthOk(r) then 1 else 0
  }

  ghost predicate Refused(past: seq<Step>, r: RunId) {
    exists n :: ReturnRpc(r, n, false) in past
  }

  /** A call had already failed when all the pause calls had returned. */
  ghost predicate PauseRefused(past: seq<Step>, r: RunId) {
    && past != []
    && var before, last := past[..|past| - 1], past[|past| - 1];
       PauseRefused(before, r) || (last == PauseDone(r) && Refused(before, r))
  }

  predicate Took(past: seq<Step>, r: RunId) {
    LockOk(r) in past || LockFails(r, true) in past
  }

  /** A lease has ended since the run took the lock. */
  predicate LeaseEnded(past: seq<Step>, r: RunId) {
    && past != []
    && var before, last := past[..|past| - 1], past[|past| - 1];
       LeaseEnded(before, r) || (last == LeaseEnds && Took(before, r))
  }

  ghost function StoryOf(past: seq<Step>, r: RunId): Story {
    Story(Begin(r) in past, HealthChecks(past, r), LockOk(r) in past,
          LockFails(r, true) in past || LockFails(r, false) in past, LockFails(r, true) in past, Refused(past, r),
          PauseDone(r) in past, PauseRefused(past, r), MigrateOk(r) in past, Notified(r) in past,
          StepFails(r) in past, UnmigrateReturns(r) in past, ResumeDone(r) in past,
          UnlockReturns(r, true) in past || UnlockReturns(r, false) in past, UnlockReturns(r, true) in past,
          LeaseEnded(past, r), Vanish(r) in past)
  }

  /** The phase that a story has come to. */
  function PhaseIn(story: Story, nodes: nat): Option<Pc> {
    if !story.begun then None
    else if story.vanished then Some(Gone)
    else if story.released then Some(Finished)
    else if story.resumed || story.lockFailed then Some(Releasing)
    else if story.unmigrated || story.pauseFailed then Some(Resuming)
    else if story.paused && (story.notified || story.stepFailed) then Some(Unmigrating)
    else if story.migrated then Some(Awaiting)
    else if story.paused then Some(Migrating)
    else if story.locked then Some(Pausing)
    else if story.stepFailed then Some(Finished)
    else if story.healthy < nodes then Some(Health(nodes - story.healthy))
    else Some(Locking)
  }

  /** Nothing happens before what it needs. */
  predicate Coherent(story: Story) {
    && (!story.begun ==> story == UNTOLD)
    && (story.refused ==> story.locked)
    && (story.paused ==> story.locked)
    && (story.pauseFailed ==> story.paused && story.refused)
    && (story.migrated ==> story.paused && !story.pauseFailed)
    && (story.notified ==> story.migrated)
    && (story.stepFailed && story.locked ==> story.paused && !story.pauseFailed)
    && (story.unmigrated ==> story.notified || (story.paused && story.stepFailed))
    && (story.resumed ==> story.unmigrated || story.pauseFailed)
    && (story.released ==> story.resumed || story.lockFailed)
    && (story.granted ==> story.lockFailed)
    && (story.unlocked ==> story.released)
    && (story.leaseEnded ==> story.locked || story.granted)
    && !(story.locked && story.lockFailed) && !(story.notified && story.stepFailed)
  }

  function HasFailed(story: Story): bool {
    story.lockFailed || story.pauseFailed || story.stepFailed
  }

  /** What a step adds to the story. */
  function Told(story: Story, step: Step, r: RunId): Story {
    Story(story.begun || step == Begin(r),
          story.healthy + (if step == HealthOk(r) then 1 else 0),
          story.locked || step == LockOk(r),
          story.lockFailed || step == LockFails(r, true) || step == LockFails(r, false),
          story.granted || step == LockFails(r, true),
          story.refused || (step.ReturnRpc? && step.r == r && !step.ok),
          story.paused || step == PauseDone(r),
          story.pauseFailed || (step == PauseDone(r) && story.refused),
          story.migrated || step == MigrateOk(r),
          story.notified || step == Notified(r),
          story.stepFailed || step == StepFails(r),
          story.unmigrated || step == UnmigrateReturns(r),
          story.resumed || step == ResumeDone(r),
          story.released || step == UnlockReturns(r, true) || step == UnlockReturns(r, false),
          story.unlocked || step == UnlockReturns(r, true),
          story.leaseEnded || (step == LeaseEnds && (story.locked || story.granted)),
          story.vanished || step == Vanish(r))
  }

  lemma RefusedGrows(past: seq<Step>, step: Step, r: RunId)
    ensures Refused(past + [step], r) <==> Refused(past, r) || (step.ReturnRpc? && step.r == r && !step.ok)
  {
    if step.ReturnRpc? && step.r == r && !step.ok {
      assert ReturnRpc(r, step.n, false) in past + [step];
    }
    if n :| ReturnRpc(r, n, false) in past {
      assert ReturnRpc(r, n, false) in past + [step];
    }
  }

  lemma Grown(past: seq<Step>, step: Step)
    ensures forall x :: x in past + [step] <==> x in past || x == step
    ensures (past + [step])[..|past + [step]| - 1] == past && (past + [step])[|past + [step]| - 1] == step
  {
  }

  lemma StoryGrows(past: seq<Step>, step: Step, r: RunId)
    ensures StoryOf(past + [step], r) == Told(StoryOf(past, r), step, r)
  {
    Grown(past, step);
    RefusedGrows(past, step, r);
  }

  lemma OthersAreNotTold(story: Story, step: Step, r: RunId)
    requires Owner(step) != Some(r)
    ensures Told(story, step, r).(leaseEnded := story.leaseEnded) == story
    ensures Told(story, step, r).leaseEnded ==> story.leaseEnded || story.locked || story.granted
  {
  }

  predicate Fits(run: Run, story: Story, nodes: nat) {
    && PhaseIn(story, nodes) == Some(run.pc) && story.healthy <= nodes
    && run.failed == HasFailed(story)
    && (run.pc == Pausing ==> run.errored == story.refused)
  }

  predicate Known(s: Cluster, r: RunId, story: Story) {
    Coherent(story) && if r in s.runs then Fits(s.runs[r], story, |s.nodes.Keys|) else story == UNTOLD
  }

  /** The step leaves the run and its story fitting each other. */
  predicate Tells(opt: Options, s: Cluster, step: Step, story: Story)
    requires Enabled(s, step) && Owner(step).Some?
  {
    && Coherent(Told(story, step, step.r))
    && Fits(RunAfter(opt, s, step), Told(story, step, step.r), |s.nodes.Keys|)
  }

  lemma LeavingIsTold(opt: Options, s: Cluster, step: Step, story: Story)
    requires Enabled(s, step) && R.LeavingStep(step) && R.Ordered(s.runs[step.r]) && Known(s, step.r, story)
    ensures Tells(opt, s, step, story)
  {
    R.LeavingShape(opt, s, step);
    R.PopPops(R.Leaving(s, step), s.now, opt, s.nodes.Keys);
    if step.LockFails? || step.StepFails? {
      FailingIsTold(s.runs[step.r].pc, step, story, |s.nodes.Keys|);
    } else {
      ReturningIsTold(s.runs[step.r].pc, step, story, |s.nodes.Keys|);
    }
  }

  lemma FailingIsTold(pc: Pc, step: Step, story: Story, nodes: nat)
    requires Coherent(story) && PhaseIn(story, nodes) == Some(pc) && story.healthy <= nodes
    requires step.LockFails? || step.StepFails?
    requires if step.LockFails? then pc == Locking else pc.Health? || pc == Migrating || pc == Awaiting
    ensures var next := Told(story, step, step.r);
      Coherent(next) && PhaseIn(next, nodes) == Some(R.Below(pc)) && next.healthy == story.healthy && HasFailed(next)
  {
  }

  lemma ReturningIsTold(pc: Pc, step: Step, story: Story, nodes: nat)
    requires Coherent(story) && PhaseIn(story, nodes) == Some(pc) && story.healthy <= nodes
    requires match pc
      case Awaiting => step.Notified?
      case Unmigrating => step.UnmigrateReturns?
      case Resuming => step.ResumeDone?
      case Releasing => step.UnlockReturns?
      case _ => false
    ensures var next := Told(story, step, step.r);
      && Coherent(next) && PhaseIn(next, nodes) == Some(R.Below(pc)) && next.healthy == story.healthy
      && HasFailed(next) == HasFailed(story)
  {
  }

  lemma PauseDoneIsTold(opt: Options, s: Cluster, step: Step, story: Story)
    requires Enabled(s, step) && step.PauseDone? && R.Ordered(s.runs[step.r]) && Known(s, step.r, story)
    ensures Tells(opt, s, step, story)
  {
    if s.runs[step.r].errored {
      R.PopPops(s.runs[step.r].(failed := true), s.now, opt, s.nodes.Keys);
      assert RunAfter(opt, s, step).pc == Resuming;
    } else {
      assert RunAfter(opt, s, step).pc == Migrating;
    }
  }

  lemma BeginIsTold(opt: Options, s: Cluster, step: Step, story: Story)
    requires Enabled(s, step) && step.Begin? && Known(s, step.r, story) && s.nodes.Keys != {}
    ensures Tells(opt, s, step, story)
  {
    assert |s.nodes.Keys| > 0;
  }

  lemma HealthIsTold(opt: Options, s: Cluster, step: Step, story: Story)
    requires Enabled(s, step) && step.HealthOk? && Known(s, step.r, story)
    ensures Tells(opt, s, step, story)
  {
  }

  lemma LockIsTold(opt: Options, s: Cluster, step: Step, story: Story)
    requires Enabled(s, step) && step.LockOk? && Known(s, step.r, story)
    ensures Tells(opt, s, step, story)
  {
  }

  lemma MigrateIsTold(opt: Options, s: Cluster, step: Step, story: Story)
    requires Enabled(s, step) && step.MigrateOk? && Known(s, step.r, story)
    ensures Tells(opt, s, step, story)
  {
  }

  lemma VanishIsTold(opt: Options, s: Cluster, step: Step, story: Story)
    requires Enabled(s, step) && step.Vanish? && Known(s, step.r, story)
    ensures Tells(opt, s, step, story)
  {
  }

  lemma RpcIsTold(opt: Options, s: Cluster, step: Step, story: Story)
    requires Enabled(s, step) && R.RpcStep(step) && Known(s, step.r, story)
    ensures Tells(opt, s, step, story)
  {
    if step.ReturnRpc? {
      ReturnIsTold(opt, s, step, story);
    } else {
      assert Told(story, step, step.r) == story;
    }
  }

  lemma ReturnIsTold(opt: Options, s: Cluster, step: Step, story: Story)
    requires Enabled(s, step) && step.ReturnRpc? && Known(s, step.r, story)
    ensures Tells(opt, s, step, story)
  {
    assert Told(story, step, step.r) == story.(refused := story.refused || !step.ok);
    assert PhaseIn(Told(story, step, step.r), |s.nodes.Keys|) == PhaseIn(story, |s.nodes.Keys|);
  }

  lemma OwnStepIsTold(opt: Options, s: Cluster, step: Step, story: Story)
    requires Enabled(s, step) && Owner(step).Some? && Known(s, step.r, story) && s.nodes.Keys != {}
    requires step.r in s.runs ==> R.Ordered(s.runs[step.r])
    ensures Tells(opt, s, step, story)
  {
    if R.LeavingStep(step) {
      LeavingIsTold(opt, s, step, story);
    } else if R.RpcStep(step) {
      RpcIsTold(opt, s, step, story);
    } else {
      match step {
        case Begin(_) => BeginIsTold(opt, s, step, story);
        case HealthOk(_) => HealthIsTold(opt, s, step, story);
        case LockOk(_) => LockIsTold(opt, s, step, story);
        case PauseDone(_) => PauseDoneIsTold(opt, s, step, story);
        case MigrateOk(_) => MigrateIsTold(opt, s, step, story);
        case Vanish(_) => VanishIsTold(opt, s, step, story);
      }
    }
  }

  lemma OwnKnownStep(opt: Options, s: Cluster, step: Step, story: Story)
    requires Enabled(s, step) && Owner(step).Some? && Known(s, step.r, story) && s.nodes.Keys != {}
    requires step.r in s.runs ==> R.Ordered(s.runs[step.r])
    ensures Known(Apply(opt, s, step), step.r, Told(story, step, step.r))
  {
    OwnStepIsTold(opt, s, step, story);
    AppliedToOwn(opt, s, step);
  }

  lemma AppliedToOwn(opt: Options, s: Cluster, step: Step)
    requires Enabled(s, step) && Owner(step).Some?
    ensures var t := Apply(opt, s, step);
      step.r in t.runs && t.runs[step.r] == RunAfter(opt, s, step) && t.nodes.Keys == s.nodes.Keys
  {
  }

  lemma OtherKnownStep(opt: Options, s: Cluster, step: Step, r: RunId, story: Story)
    requires Enabled(s, step) && Owner(step) != Some(r) && Known(s, r, story)
    ensures Known(Apply(opt, s, step), r, Told(story, step, r))
  {
    R.OthersUntouched(opt, s, step);
    OthersAreNotTold(story, step, r);
  }

  lemma KnownStep(opt: Options, s: Cluster, step: Step, r: RunId, story: Story)
    requires R.Inv(opt, s) && Enabled(s, step) && Known(s, r, story)
    ensures Known(Apply(opt, s, step), r, Told(story, step, r))
  {
    if Owner(step) == Some(r) {
      assert r in s.runs ==> R.RunOk(s.runs[r], opt, s.nodes.Keys);
      OwnKnownStep(opt, s, step, story);
    } else {
      OtherKnownStep(opt, s, step, r, story);
    }
  }

  // ---------------------------------------------------------------------------------------------------
  // The lock

  /** It took the lock, has not released it, and no lease has ended since. */
  predicate Holds(story: Story) {
    (story.locked || story.granted) && !story.unlocked && !story.leaseEnded
  }

  lemma LockingHoldsNothing(story: Story, nodes: nat)
    requires Coherent(story) && PhaseIn(story, nodes) == Some(Locking)
    ensures !story.locked && !story.granted && !story.unlocked && !story.leaseEnded && !Holds(story)
  {
  }

  lemma LockOkTakes(s: Cluster, step: Step, r: RunId, story: Story)
    requires Enabled(s, step) && step.LockOk? && Known(s, r, story) && (s.lock == Some(r) <==> Holds(story))
    ensures LockAfter(s, step) == Some(r) <==> Holds(Told(story, step, r))
  {
    if step.r == r {
      LockingHoldsNothing(story, |s.nodes.Keys|);
    }
  }

  lemma LockFailsTakes(s: Cluster, r: RunId, granted: bool, story: Story)
    requires Enabled(s, LockFails(r, granted)) && Known(s, r, story) && (s.lock == Some(r) <==> Holds(story))
    ensures LockAfter(s, LockFails(r, granted)) == Some(r) <==> Holds(Told(story, LockFails(r, granted), r))
  {
    LockingHoldsNothing(story, |s.nodes.Keys|);
    var told := Told(story, LockFails(r, granted), r);
    assert told.granted == granted && !told.locked && !told.unlocked && !told.leaseEnded;
  }

  lemma LockFailsElsewhere(s: Cluster, q: RunId, granted: bool, r: RunId, story: Story)
    requires Enabled(s, LockFails(q, granted)) && q != r && (s.lock == Some(r) <==> Holds(story))
    ensures LockAfter(s, LockFails(q, granted)) == Some(r) <==> Holds(Told(story, LockFails(q, granted), r))
  {
    assert Told(story, LockFails(q, granted), r) == story;
  }

  lemma LeaseEndFrees(s: Cluster, step: Step, r: RunId, story: Story)
    requires Enabled(s, step) && step.LeaseEnds? && Known(s, r, story) && (s.lock == Some(r) <==> Holds(story))
    ensures LockAfter(s, step) == Some(r) <==> Holds(Told(story, step, r))
  {
  }

  lemma OthersLeaveLock(s: Cluster, step: Step, r: RunId, story: Story)
    requires Enabled(s, step) && !step.LockOk? && !step.LockFails? && !step.LeaseEnds?
    requires s.lock == Some(r) <==> Holds(story)
    ensures LockAfter(s, step) == Some(r) <==> Holds(Told(story, step, r))
  {
    var told := Told(story, step, r);
    assert told.locked == story.locked && told.granted == story.granted && told.leaseEnded == story.leaseEnded;
    assert told.unlocked == (story.unlocked || step == UnlockReturns(r, true));
  }

  lemma LockStep(opt: Options, s: Cluster, step: Step, r: RunId, story: Story)
    requires Enabled(s, step) && Known(s, r, story) && (s.lock == Some(r) <==> Holds(story))
    ensures Apply(opt, s, step).lock == Some(r) <==> Holds(Told(story, step, r))
  {
    assert Apply(opt, s, step).lock == LockAfter(s, step);
    if step.LockOk? {
      LockOkTakes(s, step, r, story);
    } else if step.LockFails? {
      if step.r == r {
        LockFailsTakes(s, r, step.granted, story);
      } else {
        LockFailsElsewhere(s, step.r, step.granted, r, story);
      }
    } else if step.LeaseEnds? {
      LeaseEndFrees(s, step, r, story);
    } else {
      OthersLeaveLock(s, step, r, story);
    }
  }

  // ---------------------------------------------------------------------------------------------------
  // The requests

  /** What has happened to the two requests of a run to a node. */
  datatype Trail = Trail(
    sent: bool, lost: bool, arrived: bool, effected: bool, failed: bool, succeeded: bool, fired: bool,
    resumeSent: bool, resumeLost: bool, served: bool)

  function TrailOf(past: seq<Step>, r: RunId, n: NodeId): Trail {
    Trail(SendPause(r, n) in past, Lose(PauseOf(r, n)) in past, ArrivePause(r, n) in past,
          PauseTakesEffect(r, n) in past, PauseFails(r, n) in past, PauseSucceeds(r, n) in past, Fire(n, r) in past,
          SendResume(r, n) in past, Lose(ResumeOf(r, n)) in past, ServeResume(r, n) in past)
  }

  function Trod(trail: Trail, step: Step, r: RunId, n: NodeId): Trail {
    Trail(trail.sent || step == SendPause(r, n), trail.lost || step == Lose(PauseOf(r, n)),
          trail.arrived || step == ArrivePause(r, n), trail.effected || step == PauseTakesEffect(r, n),
          trail.failed || step == PauseFails(r, n), trail.succeeded || step == PauseSucceeds(r, n),
          trail.fired || step == Fire(n, r),
          trail.resumeSent || step == SendResume(r, n), trail.resumeLost || step == Lose(ResumeOf(r, n)),
          trail.served || step == ServeResume(r, n))
  }

  lemma TrailGrows(past: seq<Step>, step: Step, r: RunId, n: NodeId)
    ensures TrailOf(past + [step], r, n) == Trod(TrailOf(past, r, n), step, r, n)
  {
    Grown(past, step);
  }

  predicate PauseTravels(trail: Trail) {
    trail.sent && !trail.lost && !trail.arrived
  }

  predicate HandlerWorks(trail: Trail) {
    trail.arrived && !trail.succeeded && !trail.failed
  }

  predicate Scheduled(opt: Options, trail: Trail) {
    trail.succeeded && Q.Expiry(opt) > 0 && !trail.fired
  }

  predicate ResumeTravels(trail: Trail) {
    trail.resumeSent && !trail.resumeLost && !trail.served
  }

  /** Where the requests of run r to node n are. */
  predicate Whereabouts(opt: Options, s: Cluster, r: RunId, n: NodeId, trail: Trail)
    requires n in s.nodes
  {
    OnTheWay(s, r, n, trail) && AtTheNode(opt, s.nodes[n], r, trail)
  }

  predicate OnTheWay(s: Cluster, r: RunId, n: NodeId, trail: Trail) {
    && (PauseOf(r, n) in s.travelling <==> PauseTravels(trail))
    && (ResumeOf(r, n) in s.travelling <==> ResumeTravels(trail))
    && (ResumeOf(r, n) in s.served <==> trail.served)
  }

  predicate AtTheNode(opt: Options, node: N.Node, r: RunId, trail: Trail) {
    && (r in node.calls <==> HandlerWorks(trail))
    && (r in node.calls ==> node.calls[r].expiry == Q.Expiry(opt) && (node.calls[r].effected <==> trail.effected))
    && (r in node.done <==> trail.succeeded)
    && (r in node.timers <==> Scheduled(opt, trail))
  }

  /** Nothing happens before what it needs, and of two ways to go on only one is taken. */
  predicate Orderly(trail: Trail) {
    && (trail.arrived || trail.lost ==> trail.sent) && !(trail.arrived && trail.lost)
    && (trail.effected || trail.failed ==> trail.arrived) && !(trail.effected && trail.failed)
    && (trail.succeeded ==> trail.effected) && (trail.fired ==> trail.succeeded)
    && (trail.served || trail.resumeLost ==> trail.resumeSent) && !(trail.served && trail.resumeLost)
  }

  /** What has been sent is not sent again. */
  predicate SentOnce(s: Cluster, past: seq<Step>, r: RunId, n: NodeId) {
    && (SendPause(r, n) in past ==> Q.Reached(s, r, Pausing) && (At(s, r, Pausing) ==> !RpcIs(s, r, n, Unsent)))
    && (SendResume(r, n) in past ==> Q.Reached(s, r, Resuming) && (At(s, r, Resuming) ==> !RpcIs(s, r, n, Unsent)))
  }

  lemma SentOnceStays(opt: Options, s: Cluster, past: seq<Step>, step: Step, r: RunId, n: NodeId)
    requires R.Inv(opt, s) && Enabled(s, step) && n in s.nodes && SentOnce(s, past, r, n)
    ensures SentOnce(Apply(opt, s, step), past + [step], r, n)
  {
    Grown(past, step);
    if SendPause(r, n) in past + [step] {
      PauseSentOnce(opt, s, past, step, r, n);
    }
    if SendResume(r, n) in past + [step] {
      ResumeSentOnce(opt, s, past, step, r, n);
    }
  }

  lemma PauseSentOnce(opt: Options, s: Cluster, past: seq<Step>, step: Step, r: RunId, n: NodeId)
    requires R.Inv(opt, s) && Enabled(s, step) && n in s.nodes && SentOnce(s, past, r, n)
    requires SendPause(r, n) in past + [step]
    ensures var t := Apply(opt, s, step);
      Q.Reached(t, r, Pausing) && (At(t, r, Pausing) ==> !RpcIs(t, r, n, Unsent))
  {
    var t := Apply(opt, s, step);
    Q.ReachedStays(opt, s, step, r, Pausing);
    if At(t, r, Pausing) {
      var origin := Q.RpcOrigin(opt, s, step, r, n, Pausing);
    }
  }

  lemma ResumeSentOnce(opt: Options, s: Cluster, past: seq<Step>, step: Step, r: RunId, n: NodeId)
    requires R.Inv(opt, s) && Enabled(s, step) && n in s.nodes && SentOnce(s, past, r, n)
    requires SendResume(r, n) in past + [step]
    ensures var t := Apply(opt, s, step);
      Q.Reached(t, r, Resuming) && (At(t, r, Resuming) ==> !RpcIs(t, r, n, Unsent))
  {
    var t := Apply(opt, s, step);
    Q.ReachedStays(opt, s, step, r, Resuming);
    if At(t, r, Resuming) {
      var origin := Q.RpcOrigin(opt, s, step, r, n, Resuming);
    }
  }

  lemma OnTheWayStep(opt: Options, s: Cluster, step: Step, r: RunId, n: NodeId, trail: Trail)
    requires Enabled(s, step) && OnTheWay(s, r, n, trail) && Orderly(trail)
    requires step == SendPause(r, n) ==> !trail.sent
    requires step == SendResume(r, n) ==> !trail.resumeSent
    ensures OnTheWay(Apply(opt, s, step), r, n, Trod(trail, step, r, n))
  {
  }

  predicate OpOf(op: N.Op, r: RunId) {
    !op.Resume? && op.id == r
  }

  lemma OthersLeaveNode(now: int, node: N.Node, op: N.Op, r: RunId)
    requires N.OpEnabled(now, node, op) && !OpOf(op, r)
    ensures var next := N.OpApply(now, node, op);
      && (r in next.calls <==> r in node.calls) && (r in node.calls ==> next.calls[r] == node.calls[r])
      && (r in next.done <==> r in node.done) && (r in next.timers <==> r in node.timers)
  {
  }

  lemma AtTheNodeStep(opt: Options, s: Cluster, step: Step, r: RunId, n: NodeId, trail: Trail)
    requires Enabled(s, step) && n in s.nodes && Whereabouts(opt, s, r, n, trail) && Orderly(trail)
    ensures n in Apply(opt, s, step).nodes
    ensures AtTheNode(opt, Apply(opt, s, step).nodes[n], r, Trod(trail, step, r, n))
  {
    Q.EffectIsApplied(opt, s, step);
    match EffectOf(opt, step) {
      case On(m, op) =>
        if m == n && !OpOf(op, r) {
          OthersLeaveNode(s.now, s.nodes[n], op, r);
        }
      case Nothing =>
    }
  }

  lemma OrderStep(s: Cluster, step: Step, r: RunId, n: NodeId, trail: Trail, opt: Options)
    requires Enabled(s, step) && n in s.nodes && Whereabouts(opt, s, r, n, trail) && Orderly(trail)
    ensures Orderly(Trod(trail, step, r, n))
  {
  }

  // ---------------------------------------------------------------------------------------------------
  // PgBouncer

  /** Of all commands that reached the node's PgBouncer, the last was PAUSE. */
  predicate LastIsPause(past: seq<Step>, n: NodeId) {
    && past != []
    && var before, last := past[..|past| - 1], past[|past| - 1];
       match last
       case PauseTakesEffect(_, m) => m == n || LastIsPause(before, n)
       case ServeResume(_, m) => m != n && LastIsPause(before, n)
       case Fire(m, _) => m != n && LastIsPause(before, n)
       case _ => LastIsPause(before, n)
  }

  lemma PausedStep(opt: Options, s: Cluster, past: seq<Step>, step: Step, n: NodeId)
    requires Enabled(s, step) && n in s.nodes && (s.nodes[n].paused <==> LastIsPause(past, n))
    ensures n in Apply(opt, s, step).nodes
    ensures Apply(opt, s, step).nodes[n].paused <==> LastIsPause(past + [step], n)
  {
    var more := past + [step];
    assert more[..|more| - 1] == past;
    Q.EffectIsApplied(opt, s, step);
  }

  // ---------------------------------------------------------------------------------------------------
  // All of it

  ghost predicate RunIsTold(s: Cluster, past: seq<Step>, r: RunId) {
    Known(s, r, StoryOf(past, r)) && (s.lock == Some(r) <==> Holds(StoryOf(past, r)))
  }

  predicate RequestsAreTold(opt: Options, s: Cluster, past: seq<Step>, r: RunId, n: NodeId)
    requires n in s.nodes
  {
    Whereabouts(opt, s, r, n, TrailOf(past, r, n)) && Orderly(TrailOf(past, r, n)) && SentOnce(s, past, r, n)
  }

  ghost predicate ToldBy(opt: Options, s: Cluster, past: seq<Step>) {
    && (forall r: RunId :: RunIsTold(s, past, r))
    && (forall r: RunId, n: NodeId :: n in s.nodes ==> RequestsAreTold(opt, s, past, r, n))
    && (forall n: NodeId :: n in s.nodes ==> (s.nodes[n].paused <==> LastIsPause(past, n)))
  }

  lemma RunIsToldStep(opt: Options, s: Cluster, past: seq<Step>, step: Step, r: RunId)
    requires R.Inv(opt, s) && Enabled(s, step) && RunIsTold(s, past, r)
    ensures RunIsTold(Apply(opt, s, step), past + [step], r)
  {
    StoryGrows(past, step, r);
    KnownStep(opt, s, step, r, StoryOf(past, r));
    LockStep(opt, s, step, r, StoryOf(past, r));
  }

  lemma RequestsAreToldStep(opt: Options, s: Cluster, past: seq<Step>, step: Step, r: RunId, n: NodeId)
    requires R.Inv(opt, s) && Enabled(s, step) && n in s.nodes && RequestsAreTold(opt, s, past, r, n)
    ensures n in Apply(opt, s, step).nodes && RequestsAreTold(opt, Apply(opt, s, step), past + [step], r, n)
  {
    SentOnceStays(opt, s, past, step, r, n);
    TrailGrows(past, step, r, n);
    OnTheWayStep(opt, s, step, r, n, TrailOf(past, r, n));
    AtTheNodeStep(opt, s, step, r, n, TrailOf(past, r, n));
    OrderStep(s, step, r, n, TrailOf(past, r, n), opt);
  }

  lemma RunsAreTold(opt: Options, s: Cluster, past: seq<Step>, step: Step)
    requires R.Inv(opt, s) && Enabled(s, step) && forall r: RunId :: RunIsTold(s, past, r)
    ensures forall r: RunId :: RunIsTold(Apply(opt, s, step), past + [step], r)
  {
    forall r: RunId
      ensures RunIsTold(Apply(opt, s, step), past + [step], r)
    {
      RunIsToldStep(opt, s, past, step, r);
    }
  }

  lemma ToldByStep(opt: Options, s: Cluster, past: seq<Step>, step: Step)
    requires R.Inv(opt, s) && Enabled(s, step) && ToldBy(opt, s, past)
    ensures ToldBy(opt, Apply(opt, s, step), past + [step])
  {
    var t := Apply(opt, s, step);
    RunsAreTold(opt, s, past, step);
    forall r: RunId, n: NodeId | n in t.nodes
      ensures RequestsAreTold(opt, t, past + [step], r, n)
    {
      SameNodes(opt, s, step, n);
      RequestsAreToldStep(opt, s, past, step, r, n);
    }
    forall n: NodeId | n in t.nodes
      ensures t.nodes[n].paused <==> LastIsPause(past + [step], n)
    {
      SameNodes(opt, s, step, n);
      PausedStep(opt, s, past, step, n);
    }
  }

  lemma SameNodes(opt: Options, s: Cluster, step: Step, n: NodeId)
    requires Enabled(s, step) && n in Apply(opt, s, step).nodes
    ensures n in s.nodes
  {
    R.OthersUntouched(opt, s, step);
    assert n in Apply(opt, s, step).nodes.Keys;
  }

  lemma {:induction false} ToldByRun(opt: Options, s: Cluster, past: seq<Step>, steps: seq<Step>, end: Cluster)
    requires R.Inv(opt, s) && ToldBy(opt, s, past) && IsRun(opt, s, steps, end)
    ensures ToldBy(opt, end, past + steps)
    decreases steps
  {
    if steps == [] {
      NothingAfter(past);
    } else {
      R.InvStep(opt, s, steps[0]);
      ToldByStep(opt, s, past, steps[0]);
      ToldByRun(opt, Apply(opt, s, steps[0]), past + [steps[0]], steps[1..], end);
      assert past + [steps[0]] + steps[1..] == past + steps;
    }
  }

  lemma ToldFromTheStart(opt: Options, nodes: set<NodeId>, steps: seq<Step>, s: Cluster)
    requires nodes != {} && IsRun(opt, Initial(nodes), steps, s)
    ensures R.Inv(opt, s) && s.nodes.Keys == nodes && ToldBy(opt, s, steps)
  {
    R.InitialInv(opt, nodes);
    R.Reachable(opt, nodes, steps, s);
    ToldByRun(opt, Initial(nodes), [], steps, s);
    NothingBefore(steps);
  }

  // ---------------------------------------------------------------------------------------------------
  // The theorems

  /** The steps taken for a run decide in which phase it is and whether it has failed; and they come in order. */
  lemma PhaseByHistory(opt: Options, nodes: set<NodeId>, steps: seq<Step>, s: Cluster, r: RunId)
    requires nodes != {} && IsRun(opt, Initial(nodes), steps, s)
    ensures PhaseIn(StoryOf(steps, r), |nodes|) == if r in s.runs then Some(s.runs[r].pc) else None
    ensures r in s.runs ==> s.runs[r].failed == HasFailed(StoryOf(steps, r))
    ensures Coherent(StoryOf(steps, r)) && HealthChecks(steps, r) <= |nodes|
  {
    ToldFromTheStart(opt, nodes, steps, s);
    assert RunIsTold(s, steps, r);
  }

  /** A run holds the lock if and only if it took it, be it without learning so, has not released it, and no lease
      has ended since. */
  lemma LockByHistory(opt: Options, nodes: set<NodeId>, steps: seq<Step>, s: Cluster, r: RunId)
    requires nodes != {} && IsRun(opt, Initial(nodes), steps, s)
    ensures s.lock == Some(r) <==> Holds(StoryOf(steps, r))
  {
    ToldFromTheStart(opt, nodes, steps, s);
    assert RunIsTold(s, steps, r);
  }

  /** Nobody holds the lock for good: its holder is still at work, and so comes to release it; or is over, and then
      the lease can end, which it cannot before. Either frees the lock. */
  lemma LockComesFree(opt: Options, nodes: set<NodeId>, steps: seq<Step>, s: Cluster, r: RunId)
    requires nodes != {} && IsRun(opt, Initial(nodes), steps, s) && s.lock == Some(r)
    ensures r in s.runs && (Enabled(s, LeaseEnds) <==> Over(s.runs[r].pc))
    ensures Enabled(s, LeaseEnds) ==> Apply(opt, s, LeaseEnds).lock == None
    ensures Enabled(s, UnlockReturns(r, true)) ==> Apply(opt, s, UnlockReturns(r, true)).lock == None
    ensures R.InWindow(s.runs[r].pc) || s.runs[r].pc == Releasing || Over(s.runs[r].pc)
  {
    PhaseByHistory(opt, nodes, steps, s, r);
    LockByHistory(opt, nodes, steps, s, r);
    HolderIsPastLocking(StoryOf(steps, r), |nodes|);
    Frees(opt, s, r);
  }

  lemma HolderIsPastLocking(story: Story, nodes: nat)
    requires Coherent(story) && Holds(story)
    ensures var phase := PhaseIn(story, nodes);
      phase.Some? && (R.InWindow(phase.value) || phase.value == Releasing || Over(phase.value))
  {
  }

  lemma Frees(opt: Options, s: Cluster, r: RunId)
    requires s.lock == Some(r) && r in s.runs
    ensures Enabled(s, LeaseEnds) <==> Over(s.runs[r].pc)
    ensures Enabled(s, LeaseEnds) ==> Apply(opt, s, LeaseEnds).lock == None
    ensures Enabled(s, UnlockReturns(r, true)) ==> Apply(opt, s, UnlockReturns(r, true)).lock == None
  {
  }

  /** A request is where its own steps have brought it, and these come in order and once each. */
  lemma RequestByHistory(opt: Options, nodes: set<NodeId>, steps: seq<Step>, s: Cluster, r: RunId, n: NodeId)
    requires nodes != {} && IsRun(opt, Initial(nodes), steps, s) && n in nodes
    ensures n in s.nodes && Whereabouts(opt, s, r, n, TrailOf(steps, r, n)) && Orderly(TrailOf(steps, r, n))
  {
    ToldFromTheStart(opt, nodes, steps, s);
    assert n in s.nodes.Keys && RequestsAreTold(opt, s, steps, r, n);
  }

  /** A PgBouncer is paused if and only if the last command that reached it was PAUSE, whoever sent the others. */
  lemma PausedByHistory(opt: Options, nodes: set<NodeId>, steps: seq<Step>, s: Cluster, n: NodeId)
    requires nodes != {} && IsRun(opt, Initial(nodes), steps, s) && n in nodes
    ensures n in s.nodes && (s.nodes[n].paused <==> LastIsPause(steps, n))
  {
    ToldFromTheStart(opt, nodes, steps, s);
    assert n in s.nodes.Keys;
  }

  /** What the network and the servers can do next with a request: it can be lost, or arrive, as long as it travels;
      PAUSE can fail until it takes effect; an answered handler's resume comes when it is due. */
  lemma RequestSteps(opt: Options, nodes: set<NodeId>, steps: seq<Step>, s: Cluster, r: RunId, n: NodeId)
    requires nodes != {} && IsRun(opt, Initial(nodes), steps, s) && n in nodes
    ensures n in s.nodes && RequestMay(opt, s, r, n, TrailOf(steps, r, n))
  {
    RequestByHistory(opt, nodes, steps, s, r, n);
    TrailAllows(opt, s, r, n, TrailOf(steps, r, n));
  }

  predicate RequestMay(opt: Options, s: Cluster, r: RunId, n: NodeId, trail: Trail)
    requires n in s.nodes
  {
    && (Enabled(s, Lose(PauseOf(r, n))) <==> PauseTravels(trail))
    && (Enabled(s, ArrivePause(r, n)) <==> PauseTravels(trail))
    && (Enabled(s, PauseTakesEffect(r, n)) <==> HandlerWorks(trail) && !trail.effected)
    && (Enabled(s, PauseFails(r, n)) <==> HandlerWorks(trail) && !trail.effected)
    && (Enabled(s, PauseSucceeds(r, n)) <==> HandlerWorks(trail) && trail.effected)
    && (Enabled(s, Fire(n, r)) <==> Scheduled(opt, trail) && r in s.nodes[n].timers && s.nodes[n].timers[r] <= s.now)
    && (Enabled(s, Lose(ResumeOf(r, n))) <==> ResumeTravels(trail))
    && (Enabled(s, ServeResume(r, n)) <==> ResumeTravels(trail))
  }

  lemma TrailAllows(opt: Options, s: Cluster, r: RunId, n: NodeId, trail: Trail)
    requires n in s.nodes && Whereabouts(opt, s, r, n, trail) && Orderly(trail)
    ensures RequestMay(opt, s, r, n, trail)
  {
  }

  /** What a run can do next, apart from its calls to the nodes. Each of its steps may fail, AcquireLock and
      ReleaseLock also with only the answer lost; and its process may end at any time. */
  lemma RunSteps(opt: Options, nodes: set<NodeId>, steps: seq<Step>, s: Cluster, r: RunId, b: bool)
    requires nodes != {} && IsRun(opt, Initial(nodes), steps, s)
    ensures RunMay(s, r, PhaseIn(StoryOf(steps, r), |nodes|), b)
  {
    PhaseByHistory(opt, nodes, steps, s, r);
    LockByHistory(opt, nodes, steps, s, r);
    R.Reachable(opt, nodes, steps, s);
    if r in s.runs {
      assert R.RunOk(s.runs[r], opt, s.nodes.Keys);
    }
    PhaseAllows(s, r, b);
  }

  predicate RunMay(s: Cluster, r: RunId, phase: Option<Pc>, b: bool) {
    && (Enabled(s, Begin(r)) <==> phase == None)
    && (Enabled(s, HealthOk(r)) <==> phase.Some? && phase.value.Health?)
    && (Enabled(s, LockOk(r)) <==> phase == Some(Locking) && s.lock == None)
    && (Enabled(s, LockFails(r, b)) <==> phase == Some(Locking) && (b ==> s.lock == None))
    && (Enabled(s, StepFails(r))
        <==> phase.Some? && (phase.value.Health? || phase == Some(Migrating) || phase == Some(Awaiting)))
    && RunMayFinish(s, r, phase, b)
  }

  predicate RunMayFinish(s: Cluster, r: RunId, phase: Option<Pc>, b: bool) {
    && (Enabled(s, MigrateOk(r)) <==> phase == Some(Migrating))
    && (Enabled(s, Notified(r)) <==> phase == Some(Awaiting))
    && (Enabled(s, UnmigrateReturns(r)) <==> phase == Some(Unmigrating))
    && (Enabled(s, UnlockReturns(r, b)) <==> phase == Some(Releasing))
    && (Enabled(s, Vanish(r)) <==> phase.Some? && phase != Some(Finished) && phase != Some(Gone))
  }

  lemma PhaseAllows(s: Cluster, r: RunId, b: bool)
    requires r in s.runs && s.runs[r].pc.Health? ==> s.runs[r].pc.left > 0
    requires At(s, r, Locking) ==> s.lock != Some(r)
    ensures RunMay(s, r, if r in s.runs then Some(s.runs[r].pc) else None, b)
  {
    PhaseAllowsToFinish(s, r, b);
  }

  lemma PhaseAllowsToFinish(s: Cluster, r: RunId, b: bool)
    ensures RunMayFinish(s, r, if r in s.runs then Some(s.runs[r].pc) else None, b)
  {
  }
}
