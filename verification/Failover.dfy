/** pkg/failover/failover.go against any number of nodes: any number of operators run the failover pipeline
    (Pipeline.FailoverPlan) at once, sharing one etcd lock and the nodes' failover APIs (PauseNode).

    Every rpc may be lost, fail at the server, or fail on its way back. A client may give up at any time on a
    request that still travels to its server or that a handler is still working on; the request is served all the
    same, at any later time. An operator's process may vanish anywhere. A step is one operation of one goroutine or
    server, a scheduled resume, or the passing of time; times are nanoseconds. Assumed throughout: the lock's lease
    does not end before the process that holds the lock; a call returns by the deadline of its context. */
module Failover {
  import opened Base
  import P = Pipeline
  import N = PauseNode

  type RunId = nat
  type NodeId = nat

  datatype Options = Options(
    healthCheckTimeout: nat, lockTimeout: nat, pauseTimeout: nat, pauseExpiry: nat,
    resumeTimeout: nat, pacemakerTimeout: nat)

  /** int32(d / time.Second), pkg/failover/failover.go:121-122 */
  function WholeSeconds(d: nat): int {
    (d / N.SECOND + 0x8000_0000) % 0x1_0000_0000 - 0x8000_0000
  }

  /** One request of EachClient, as its client sees it. */
  datatype Rpc = Unsent | Sent | Acked | Failed

  /** One request to pause or to resume, as the network and the servers see it. */
  datatype Request = PauseOf(r: RunId, n: NodeId) | ResumeOf(r: RunId, n: NodeId)

  datatype Pc =
    | Health(left: nat)
    | Locking
    | Pausing
    | Migrating                // the migrate rpc
    | Awaiting                 // the select on the notification
    | Unmigrating
    | Resuming
    | Releasing
    | Finished
    | Gone                     // the operator's process is no more

  datatype Run = Run(
    pc: Pc,
    rpcs: map<NodeId, Rpc>,    // while pausing or resuming
    errored: bool,             // EachClient's shared result: some goroutine has written an error to it
    window: bool,              // between a successful AcquireLock and ReleaseLock
    clean: bool,               // nothing of earlier runs was pending at any node when pausing began
    stack: seq<P.Action>,      // deferred, the next one last
    started: nat,              // steps of the pipeline started
    failed: bool,
    trace: seq<P.Action>,
    startedAt: int,
    deadline: int              // of the calls under way
  )

  datatype Cluster = Cluster(
    now: int, nodes: map<NodeId, N.Node>, lock: Option<RunId>, runs: map<RunId, Run>,
    travelling: set<Request>,  // sent, and not yet at a handler
    served: set<Request>)      // resume requests that have gone through

  datatype Step =
    | Begin(r: RunId)
    | HealthOk(r: RunId)
    | LockOk(r: RunId)
    | LockFails(r: RunId, granted: bool)   // granted: only the answer was lost
    | SendPause(r: RunId, n: NodeId)
    | ArrivePause(r: RunId, n: NodeId)
    | PauseTakesEffect(r: RunId, n: NodeId)
    | PauseSucceeds(r: RunId, n: NodeId)
    | PauseFails(r: RunId, n: NodeId)
    | ReturnRpc(r: RunId, n: NodeId, ok: bool)
    | PauseDone(r: RunId)
    | MigrateOk(r: RunId)
    | Notified(r: RunId)
    | StepFails(r: RunId)                  // a health check, the migrate rpc or the wait for the notification
    | UnmigrateReturns(r: RunId)
    | SendResume(r: RunId, n: NodeId)
    | ServeResume(r: RunId, n: NodeId)
    | ResumeDone(r: RunId)
    | UnlockReturns(r: RunId, effective: bool)
    | Vanish(r: RunId)
    | LeaseEnds                            // of a lock whose holder's process has ended
    | Lose(q: Request)
    | Fire(n: NodeId, id: N.Id)
    | Tick(to: int)

  // ---------------------------------------------------------------------------------------------------
  // What a run does next

  function AllUnsent(nodes: set<NodeId>): map<NodeId, Rpc> {
    map n | n in nodes :: Unsent
  }

  /** Start the next pipeline step: push its cleanup, call its action. */
  function Enter(run: Run, action: P.Action, deferred: seq<P.Action>, pc: Pc, now: int, timeout: nat): Run {
    run.(pc := pc, stack := run.stack + deferred, started := run.started + 1, trace := run.trace + [action],
         deadline := now + timeout)
  }

  /** Call a cleanup action. */
  function Clean(run: Run, action: P.Action, now: int, opt: Options, nodes: set<NodeId>): Run {
    match action
    case Unmigrate => run.(pc := Unmigrating, deadline := now + opt.pacemakerTimeout)
    case Resume => run.(pc := Resuming, rpcs := AllUnsent(nodes), errored := false, deadline := now + opt.resumeTimeout)
    case _ => run.(pc := Releasing, window := false, deadline := now + opt.lockTimeout)
  }

  /** Take the next cleanup action off the stack, or end the run. */
  function Pop(run: Run, now: int, opt: Options, nodes: set<NodeId>): Run {
    if run.stack == [] then run.(pc := Finished, deadline := now)
    else
      var top := run.stack[|run.stack| - 1];
      Clean(run.(stack := run.stack[..|run.stack| - 1], trace := run.trace + [top]), top, now, opt, nodes)
  }

  function Fail(run: Run, now: int, opt: Options, nodes: set<NodeId>): Run {
    Pop(run.(failed := true), now, opt, nodes)
  }

  /** The run will do nothing more. */
  predicate Over(pc: Pc) {
    pc == Finished || pc == Gone
  }

  predicate Settled(run: Run) {
    forall n :: n in run.rpcs ==> run.rpcs[n] == Acked || run.rpcs[n] == Failed
  }

  predicate Quiet(nodes: map<NodeId, N.Node>) {
    forall n :: n in nodes ==> nodes[n].calls == map[] && nodes[n].timers == map[]
  }

  predicate At(s: Cluster, r: RunId, pc: Pc) {
    r in s.runs && s.runs[r].pc == pc
  }

  predicate RpcIs(s: Cluster, r: RunId, n: NodeId, rpc: Rpc) {
    r in s.runs && n in s.nodes && n in s.runs[r].rpcs && s.runs[r].rpcs[n] == rpc
  }

  predicate Unsettled(s: Cluster, r: RunId, n: NodeId) {
    RpcIs(s, r, n, Unsent) || RpcIs(s, r, n, Sent)
  }

  predicate HandlerOpen(s: Cluster, r: RunId, n: NodeId, op: N.Op) {
    n in s.nodes && r in s.nodes[n].calls && N.OpEnabled(s.now, s.nodes[n], op)
  }

  /** A pause or resume rpc returns: without error once the server has answered, with one at any time. */
  predicate MayReturn(s: Cluster, r: RunId, n: NodeId, ok: bool) {
    if ok then
      && RpcIs(s, r, n, Sent)
      && ((At(s, r, Pausing) && r in s.nodes[n].done) || (At(s, r, Resuming) && ResumeOf(r, n) in s.served))
    else
      (At(s, r, Pausing) || At(s, r, Resuming)) && Unsettled(s, r, n)
  }

  /** Time may pass as long as no context, pause timeout or scheduled resume falls due. */
  predicate MayTick(s: Cluster, to: int) {
    && s.now <= to
    && (forall r :: r in s.runs && !Over(s.runs[r].pc) ==> to <= s.runs[r].deadline)
    && (forall n :: n in s.nodes ==> N.Punctual(s.nodes[n], to))
    && (forall n, id :: n in s.nodes && id in s.nodes[n].calls ==> to <= PauseBy(s.nodes[n].calls[id]))
  }

  /** When the handler's own context for PAUSE ends. */
  function PauseBy(call: N.Call): int {
    call.createdAt + Max(call.timeout, 0) * N.SECOND
  }

  predicate Enabled(s: Cluster, step: Step) {
    match step
    case Begin(r) => r !in s.runs
    case HealthOk(r) => r in s.runs && s.runs[r].pc.Health? && s.runs[r].pc.left > 0
    case LockOk(r) => At(s, r, Locking) && (s.lock == None || s.lock == Some(r))
    case LockFails(r, granted) => At(s, r, Locking) && (granted ==> s.lock == None)
    case SendPause(r, n) => At(s, r, Pausing) && RpcIs(s, r, n, Unsent)
    case ArrivePause(r, n) =>
      PauseOf(r, n) in s.travelling && n in s.nodes && N.OpEnabled(s.now, s.nodes[n], N.Arrive(r, 0, 0))
    case PauseTakesEffect(r, n) => HandlerOpen(s, r, n, N.Effect(r))
    case PauseSucceeds(r, n) => HandlerOpen(s, r, n, N.Succeed(r))
    case PauseFails(r, n) => HandlerOpen(s, r, n, N.Op.Fail(r))
    case ReturnRpc(r, n, ok) => MayReturn(s, r, n, ok)
    case PauseDone(r) => At(s, r, Pausing) && Settled(s.runs[r])
    case MigrateOk(r) => At(s, r, Migrating)
    case Notified(r) => At(s, r, Awaiting)
    case StepFails(r) => r in s.runs && (s.runs[r].pc.Health? || s.runs[r].pc == Migrating || s.runs[r].pc == Awaiting)
    case UnmigrateReturns(r) => At(s, r, Unmigrating)
    case SendResume(r, n) => At(s, r, Resuming) && RpcIs(s, r, n, Unsent)
    case ServeResume(r, n) => ResumeOf(r, n) in s.travelling && n in s.nodes
    case ResumeDone(r) => At(s, r, Resuming) && Settled(s.runs[r])
    case UnlockReturns(r, _) => At(s, r, Releasing)
    case Vanish(r) => r in s.runs && !Over(s.runs[r].pc)
    case LeaseEnds => s.lock.Some? && s.lock.value in s.runs && Over(s.runs[s.lock.value].pc)
    case Lose(q) => q in s.travelling
    case Fire(n, id) => n in s.nodes && N.OpEnabled(s.now, s.nodes[n], N.Op.Fire(id))
    case Tick(to) => MayTick(s, to)
  }

  /** The run that takes the step; time, the network and what happens inside a server belong to no run. */
  function Owner(step: Step): Option<RunId> {
    match step
    case ArrivePause(_, _) => None
    case PauseTakesEffect(_, _) => None
    case PauseSucceeds(_, _) => None
    case PauseFails(_, _) => None
    case ServeResume(_, _) => None
    case LeaseEnds => None
    case Lose(_) => None
    case Fire(_, _) => None
    case Tick(_) => None
    case _ => Some(step.r)
  }

  /** What a step does to a node, if anything. */
  datatype Effect = Nothing | On(n: NodeId, op: N.Op)

  function EffectOf(opt: Options, step: Step): Effect {
    match step
    case ArrivePause(r, n) => On(n, N.Arrive(r, WholeSeconds(opt.pauseTimeout), WholeSeconds(opt.pauseExpiry)))
    case PauseTakesEffect(r, n) => On(n, N.Op.Effect(r))
    case PauseSucceeds(r, n) => On(n, N.Succeed(r))
    case PauseFails(r, n) => On(n, N.Op.Fail(r))
    case ServeResume(_, n) => On(n, N.Op.Resume)
    case Fire(n, id) => On(n, N.Op.Fire(id))
    case _ => Nothing
  }

  function NodesAfter(opt: Options, s: Cluster, step: Step): map<NodeId, N.Node>
    requires Enabled(s, step)
  {
    match EffectOf(opt, step)
    case Nothing => s.nodes
    case On(n, op) => s.nodes[n := N.OpApply(s.now, s.nodes[n], op)]
  }

  function LockAfter(s: Cluster, step: Step): Option<RunId> {
    match step
    case LockOk(r) => Some(r)
    case LockFails(r, granted) => if granted then Some(r) else s.lock
    case UnlockReturns(r, effective) => if effective && s.lock == Some(r) then None else s.lock
    case LeaseEnds => None
    case _ => s.lock
  }

  function TravellingAfter(s: Cluster, step: Step): set<Request> {
    match step
    case SendPause(r, n) => s.travelling + {PauseOf(r, n)}
    case ArrivePause(r, n) => s.travelling - {PauseOf(r, n)}
    case SendResume(r, n) => s.travelling + {ResumeOf(r, n)}
    case ServeResume(r, n) => s.travelling - {ResumeOf(r, n)}
    case Lose(q) => s.travelling - {q}
    case _ => s.travelling
  }

  function ServedAfter(s: Cluster, step: Step): set<Request> {
    if step.ServeResume? then s.served + {ResumeOf(step.r, step.n)} else s.served
  }

  function SetRpc(run: Run, n: NodeId, rpc: Rpc): Run {
    run.(rpcs := run.rpcs[n := rpc])
  }

  /** A run as it is before its first step. */
  function NewRun(now: int): Run {
    Run(Finished, map[], false, false, false, [], 0, false, [], now, now)
  }

  function RunAfter(opt: Options, s: Cluster, step: Step): Run
    requires Enabled(s, step) && Owner(step).Some?
  {
    var nodes, now := s.nodes.Keys, s.now;
    var run := if step.Begin? then NewRun(now) else s.runs[step.r];
    match step
    case Begin(r) => Enter(run, P.HealthCheckClients, [], Health(|nodes|), now, opt.healthCheckTimeout)
    case HealthOk(r) =>
      if run.pc.left > 1 then run.(pc := Health(run.pc.left - 1), deadline := now + opt.healthCheckTimeout)
      else Enter(run, P.AcquireLock, [P.ReleaseLock], Locking, now, opt.lockTimeout)
    case LockOk(r) =>
      Enter(run, P.Pause, [P.Action.Resume], Pausing, now, opt.pauseExpiry + N.SECOND)
        .(window := true, clean := Quiet(s.nodes) && s.travelling == {}, rpcs := AllUnsent(nodes), errored := false)
    case LockFails(r, granted) => Fail(run, now, opt, nodes)
    case SendPause(r, n) => SetRpc(run, n, Sent)
    case ReturnRpc(r, n, ok) => if ok then SetRpc(run, n, Acked) else SetRpc(run, n, Failed).(errored := true)
    case PauseDone(r) =>
      if run.errored then Fail(run, now, opt, nodes)
      else Enter(run, P.Migrate, [P.Unmigrate], Migrating, now, opt.pacemakerTimeout)
    case MigrateOk(r) => run.(pc := Awaiting, deadline := now + opt.pauseExpiry)
    case Notified(r) => Pop(run, now, opt, nodes)
    case StepFails(r) => Fail(run, now, opt, nodes)
    case UnmigrateReturns(r) => Pop(run, now, opt, nodes)
    case SendResume(r, n) => SetRpc(run, n, Sent)
    case ResumeDone(r) => Pop(run, now, opt, nodes)
    case UnlockReturns(r, effective) => Pop(run, now, opt, nodes)
    case Vanish(r) => run.(pc := Gone, window := false)
  }

  function Apply(opt: Options, s: Cluster, step: Step): Cluster
    requires Enabled(s, step)
  {
    Cluster(
      if step.Tick? then step.to else s.now,
      NodesAfter(opt, s, step),
      LockAfter(s, step),
      match Owner(step) case None => s.runs case Some(r) => s.runs[r := RunAfter(opt, s, step)],
      TravellingAfter(s, step),
      ServedAfter(s, step))
  }

  function Initial(nodes: set<NodeId>): Cluster {
    Cluster(0, map n | n in nodes :: N.NODE, None, map[], {}, {})
  }

  predicate IsRun(opt: Options, s: Cluster, steps: seq<Step>, end: Cluster)
    decreases steps
  {
    if steps == [] then s == end
    else Enabled(s, steps[0]) && IsRun(opt, Apply(opt, s, steps[0]), steps[1..], end)
  }
}
