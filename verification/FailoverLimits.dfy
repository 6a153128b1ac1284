/** What the failover's guarantees cost: how much pause expiry they need, in the durations that are sent and in those
    that the operator configured, and what happens when a client does give up on a pause. */
module FailoverLimits {
  import opened Base
  import opened Failover
  import opened FailoverRequests
  import F = FailoverPauses
  import A = FailoverAbandoned
  import R = FailoverRuns
  import N = PauseNode

  lemma {:induction false} Extend(opt: Options, s: Cluster, steps: seq<Step>, mid: Cluster, step: Step)
    requires IsRun(opt, s, steps, mid) && Enabled(mid, step)
    ensures IsRun(opt, s, steps + [step], Apply(opt, mid, step))
    decreases steps
  {
    if steps == [] {
      assert [step][1..] == [];
    } else {
      Extend(opt, Apply(opt, s, steps[0]), steps[1..], mid, step);
      assert (steps + [step])[1..] == steps[1..] + [step];
    }
  }

  ghost predicate CanReach(opt: Options, nodes: set<NodeId>, s: Cluster) {
    exists steps :: IsRun(opt, Initial(nodes), steps, s)
  }

  lemma Then(opt: Options, nodes: set<NodeId>, s: Cluster, step: Step) returns (t: Cluster)
    requires CanReach(opt, nodes, s) && Enabled(s, step)
    ensures CanReach(opt, nodes, t) && t == Apply(opt, s, step)
  {
    var steps :| IsRun(opt, Initial(nodes), steps, s);
    Extend(opt, Initial(nodes), steps, s, step);
    t := Apply(opt, s, step);
  }

  // ---------------------------------------------------------------------------------------------------
  // One run pausing any set of nodes

  /** How far run 0 is with a node, and when. */
  datatype Stage =
    | Fresh
    | Travels
    | Open(created: int, effected: bool)
    | Complete(created: int, completed: int)       // and not acknowledged yet
    | Answered(created: int, completed: int)
    | Expired(created: int, completed: int)        // resumed by the server

  function RpcAt(stage: Stage): Rpc {
    match stage case Fresh => Unsent case Answered(_, _) => Acked case Expired(_, _) => Acked case _ => Sent
  }

  function RecordOf(opt: Options, created: int, completed: int): N.Record {
    N.Record(created, Expiry(opt), completed)
  }

  function Paused(opt: Options, record: N.Record): N.Node {
    N.Node(true, 0, map[], if Expiry(opt) > 0 then map[0 := N.Due(record)] else map[], map[0 := record])
  }

  function NodeAt(opt: Options, stage: Stage): N.Node {
    match stage
    case Fresh => N.NODE
    case Travels => N.NODE
    case Open(c, effected) =>
      N.Node(effected, 0, map[0 := N.Call(c, Timeout(opt), Expiry(opt), effected)], map[], map[])
    case Complete(c, d) => Paused(opt, RecordOf(opt, c, d))
    case Answered(c, d) => Paused(opt, RecordOf(opt, c, d))
    case Expired(c, d) => N.Node(false, 0, map[], map[], map[0 := RecordOf(opt, c, d)])
  }

  /** Where node n and its rpc stand. */
  predicate Stands(opt: Options, s: Cluster, n: NodeId, stage: Stage) {
    && At(s, 0, Pausing) && RpcIs(s, 0, n, RpcAt(stage)) && s.nodes[n] == NodeAt(opt, stage)
    && (stage.Travels? ==> PauseOf(0, n) in s.travelling)
  }

  predicate Calm(opt: Options, s: Cluster, now: int) {
    && s.now == now && s.runs.Keys == {0} && At(s, 0, Pausing) && s.runs[0].rpcs.Keys == s.nodes.Keys
    && s.runs[0].clean && !s.runs[0].errored && s.runs[0].deadline == opt.pauseExpiry + N.SECOND
  }

  ghost predicate Shape(opt: Options, s: Cluster, now: int, stages: map<NodeId, Stage>) {
    && Calm(opt, s, now) && s.nodes.Keys == stages.Keys
    && forall n {:trigger Stands(opt, s, n, stages[n])} :: n in stages ==> Stands(opt, s, n, stages[n])
  }

  /** A step of run 0's pause of node n, or of the resume that it scheduled. */
  predicate IsMove(step: Step, n: NodeId) {
    step == SendPause(0, n) || step == ArrivePause(0, n)
    || step == PauseTakesEffect(0, n) || step == PauseSucceeds(0, n)
    || step == ReturnRpc(0, n, true) || step == Fire(n, 0)
  }

  lemma OtherStands(opt: Options, s: Cluster, step: Step, n: NodeId, m: NodeId, stage: Stage)
    requires Enabled(s, step) && IsMove(step, n) && m != n && Stands(opt, s, m, stage)
    ensures Stands(opt, Apply(opt, s, step), m, stage)
  {
  }

  lemma StaysCalm(opt: Options, s: Cluster, step: Step, n: NodeId, now: int)
    requires Enabled(s, step) && IsMove(step, n) && n in s.nodes && Calm(opt, s, now)
    ensures Calm(opt, Apply(opt, s, step), now) && Apply(opt, s, step).nodes.Keys == s.nodes.Keys
  {
    var t := Apply(opt, s, step);
    assert t.nodes.Keys == s.nodes.Keys;
    assert t.runs[0].rpcs.Keys == s.runs[0].rpcs.Keys;
  }

  lemma MoveShape(opt: Options, s: Cluster, now: int, stages: map<NodeId, Stage>, n: NodeId, step: Step, stage: Stage)
    requires Enabled(s, step) && IsMove(step, n) && Shape(opt, s, now, stages) && n in stages
    requires Stands(opt, Apply(opt, s, step), n, stage)
    ensures Shape(opt, Apply(opt, s, step), now, stages[n := stage])
  {
    var t, next := Apply(opt, s, step), stages[n := stage];
    assert n in s.nodes.Keys;
    StaysCalm(opt, s, step, n, now);
    assert next.Keys == stages.Keys;
    forall m | m in next
      ensures Stands(opt, t, m, next[m])
    {
      if m != n {
        assert Stands(opt, s, m, stages[m]);
        OtherStands(opt, s, step, n, m, stages[m]);
      }
    }
  }

  lemma Arrive(opt: Options, nodes: set<NodeId>, s: Cluster, now: int, stages: map<NodeId, Stage>, n: NodeId)
    returns (t: Cluster)
    requires CanReach(opt, nodes, s) && Shape(opt, s, now, stages) && n in stages
    requires stages[n] == Travels
    ensures CanReach(opt, nodes, t) && Shape(opt, t, now, stages[n := Open(now, false)])
  {
    assert Stands(opt, s, n, stages[n]);
    MoveShape(opt, s, now, stages, n, ArrivePause(0, n), Open(now, false));
    t := Then(opt, nodes, s, ArrivePause(0, n));
  }

  lemma TakeEffect(opt: Options, nodes: set<NodeId>, s: Cluster, now: int, stages: map<NodeId, Stage>, n: NodeId)
    returns (t: Cluster)
    requires CanReach(opt, nodes, s) && Shape(opt, s, now, stages) && n in stages
    requires stages[n].Open? && !stages[n].effected
    ensures CanReach(opt, nodes, t) && Shape(opt, t, now, stages[n := Open(stages[n].created, true)])
  {
    assert Stands(opt, s, n, stages[n]);
    EffectOnOpen(opt, stages[n].created, now);
    MoveShape(opt, s, now, stages, n, PauseTakesEffect(0, n), Open(stages[n].created, true));
    t := Then(opt, nodes, s, PauseTakesEffect(0, n));
  }

  lemma EffectOnOpen(opt: Options, created: int, now: int)
    ensures N.OpApply(now, NodeAt(opt, Open(created, false)), N.Op.Effect(0)) == NodeAt(opt, Open(created, true))
  {
    var call := N.Call(created, Timeout(opt), Expiry(opt), false);
    assert map[0 := call][0 := call.(effected := true)] == map[0 := call.(effected := true)];
  }

  lemma Finish(opt: Options, nodes: set<NodeId>, s: Cluster, now: int, stages: map<NodeId, Stage>, n: NodeId)
    returns (t: Cluster)
    requires CanReach(opt, nodes, s) && Shape(opt, s, now, stages) && n in stages
    requires stages[n].Open? && stages[n].effected
    ensures CanReach(opt, nodes, t) && Shape(opt, t, now, stages[n := Complete(stages[n].created, now)])
  {
    assert Stands(opt, s, n, stages[n]);
    SucceedOnOpen(opt, stages[n].created, now);
    MoveShape(opt, s, now, stages, n, PauseSucceeds(0, n), Complete(stages[n].created, now));
    t := Then(opt, nodes, s, PauseSucceeds(0, n));
  }

  lemma SucceedOnOpen(opt: Options, created: int, now: int)
    ensures N.OpApply(now, NodeAt(opt, Open(created, true)), N.Op.Succeed(0)) == NodeAt(opt, Complete(created, now))
  {
  }

  lemma FireOnAnswered(opt: Options, created: int, completed: int, now: int)
    requires Expiry(opt) > 0 && N.Due(RecordOf(opt, created, completed)) <= now
    ensures N.OpApply(now, NodeAt(opt, Answered(created, completed)), N.Op.Fire(0))
      == NodeAt(opt, Expired(created, completed))
  {
  }

  /** Nothing falls due at this stage before that time. */
  predicate Waits(opt: Options, stage: Stage, to: int) {
    match stage
    case Open(c, _) => to <= c + PauseLimit(opt)
    case Complete(c, d) => Expiry(opt) > 0 ==> to <= N.Due(RecordOf(opt, c, d))
    case Answered(c, d) => Expiry(opt) > 0 ==> to <= N.Due(RecordOf(opt, c, d))
    case _ => true
  }

  ghost predicate AllWait(opt: Options, stages: map<NodeId, Stage>, to: int) {
    forall n {:trigger Waits(opt, stages[n], to)} :: n in stages ==> Waits(opt, stages[n], to)
  }

  /** Whatever stage the fast nodes and the others are in, if they are all in one. */
  function Two(nodes: set<NodeId>, fast: set<NodeId>, first: Stage, other: Stage): map<NodeId, Stage> {
    map n | n in nodes :: if n in fast then first else other
  }

  lemma TwoWait(opt: Options, nodes: set<NodeId>, fast: set<NodeId>, first: Stage, other: Stage, to: int)
    requires Waits(opt, first, to) && Waits(opt, other, to)
    ensures AllWait(opt, Two(nodes, fast, first, other), to)
  {
  }

  lemma MayWait(opt: Options, s: Cluster, now: int, stages: map<NodeId, Stage>, to: int)
    requires Shape(opt, s, now, stages) && now <= to <= opt.pauseExpiry + N.SECOND
    requires AllWait(opt, stages, to)
    ensures Enabled(s, Tick(to)) && Shape(opt, Apply(opt, s, Tick(to)), to, stages)
  {
    forall n | n in s.nodes
      ensures N.Punctual(s.nodes[n], to)
      ensures forall id :: id in s.nodes[n].calls ==> to <= PauseBy(s.nodes[n].calls[id])
    {
      assert n in s.nodes.Keys && Waits(opt, stages[n], to) && Stands(opt, s, n, stages[n]);
    }
    var t := Apply(opt, s, Tick(to));
    forall n | n in stages
      ensures Stands(opt, t, n, stages[n])
    {
      assert Stands(opt, s, n, stages[n]);
    }
  }

  // ---------------------------------------------------------------------------------------------------
  // All nodes of a set at once

  function With(stages: map<NodeId, Stage>, some: set<NodeId>, stage: Stage): map<NodeId, Stage>
    requires some <= stages.Keys
  {
    map n | n in stages :: if n in some then stage else stages[n]
  }

  lemma WithOneMore(stages: map<NodeId, Stage>, some: set<NodeId>, n: NodeId, stage: Stage)
    requires some <= stages.Keys && n in some
    ensures With(stages[n := stage], some - {n}, stage) == With(stages, some, stage)
  {
  }

  /** One node's pause arrives and takes effect. */
  lemma OpenOne(opt: Options, nodes: set<NodeId>, s: Cluster, now: int, stages: map<NodeId, Stage>, n: NodeId)
    returns (t: Cluster)
    requires CanReach(opt, nodes, s) && Shape(opt, s, now, stages) && n in stages && stages[n] == Fresh
    ensures CanReach(opt, nodes, t) && Shape(opt, t, now, stages[n := Open(now, true)])
  {
    assert Stands(opt, s, n, stages[n]);
    MoveShape(opt, s, now, stages, n, SendPause(0, n), Travels);
    t := Then(opt, nodes, s, SendPause(0, n));
    t := Arrive(opt, nodes, t, now, stages[n := Travels], n);
    t := TakeEffect(opt, nodes, t, now, stages[n := Travels][n := Open(now, false)], n);
    assert stages[n := Travels][n := Open(now, false)][n := Open(now, true)] == stages[n := Open(now, true)];
  }

  lemma CloseOne(opt: Options, nodes: set<NodeId>, s: Cluster, now: int, stages: map<NodeId, Stage>, n: NodeId)
    returns (t: Cluster)
    requires CanReach(opt, nodes, s) && Shape(opt, s, now, stages)
    requires n in stages && stages[n].Open? && stages[n].effected
    ensures CanReach(opt, nodes, t) && Shape(opt, t, now, stages[n := Answered(stages[n].created, now)])
  {
    var c := stages[n].created;
    t := Finish(opt, nodes, s, now, stages, n);
    assert Stands(opt, t, n, stages[n := Complete(c, now)][n]);
    MoveShape(opt, t, now, stages[n := Complete(c, now)], n, ReturnRpc(0, n, true), Answered(c, now));
    t := Then(opt, nodes, t, ReturnRpc(0, n, true));
    assert stages[n := Complete(c, now)][n := Answered(c, now)] == stages[n := Answered(c, now)];
  }

  lemma {:induction false} OpenAll(opt: Options, nodes: set<NodeId>, s: Cluster, now: int,
                                   stages: map<NodeId, Stage>, some: set<NodeId>)
    returns (t: Cluster)
    requires CanReach(opt, nodes, s) && Shape(opt, s, now, stages) && some <= stages.Keys
    requires forall n :: n in some ==> stages[n] == Fresh
    ensures CanReach(opt, nodes, t) && Shape(opt, t, now, With(stages, some, Open(now, true)))
    decreases |some|
  {
    t := s;
    if some == {} {
      assert With(stages, some, Open(now, true)) == stages;
    } else {
      var n :| n in some;
      t := OpenOne(opt, nodes, t, now, stages, n);
      t := OpenAll(opt, nodes, t, now, stages[n := Open(now, true)], some - {n});
      WithOneMore(stages, some, n, Open(now, true));
    }
  }

  lemma {:induction false} CloseAll(opt: Options, nodes: set<NodeId>, s: Cluster, now: int,
                                    stages: map<NodeId, Stage>, some: set<NodeId>, created: int)
    returns (t: Cluster)
    requires CanReach(opt, nodes, s) && Shape(opt, s, now, stages) && some <= stages.Keys
    requires forall n :: n in some ==> stages[n] == Open(created, true)
    ensures CanReach(opt, nodes, t) && Shape(opt, t, now, With(stages, some, Answered(created, now)))
    decreases |some|
  {
    t := s;
    if some == {} {
      assert With(stages, some, Answered(created, now)) == stages;
    } else {
      var n :| n in some;
      t := CloseOne(opt, nodes, t, now, stages, n);
      t := CloseAll(opt, nodes, t, now, stages[n := Answered(created, now)], some - {n}, created);
      WithOneMore(stages, some, n, Answered(created, now));
    }
  }

  /** Run 0 checks the nodes' health and takes the lock, all at once. */
  lemma ReachPausing(opt: Options, nodes: set<NodeId>) returns (s: Cluster)
    requires nodes != {}
    ensures CanReach(opt, nodes, s) && Shape(opt, s, 0, AllFresh(nodes))
  {
    BeginChecking(opt, nodes);
    s := Then(opt, nodes, Initial(nodes), Begin(0));
    s := PassHealth(opt, nodes, s);
    LockFresh(opt, nodes, s);
    s := Then(opt, nodes, s, LockOk(0));
  }

  lemma LockFresh(opt: Options, nodes: set<NodeId>, s: Cluster)
    requires Checking(nodes, s) && At(s, 0, Locking)
    ensures Enabled(s, LockOk(0)) && Shape(opt, Apply(opt, s, LockOk(0)), 0, AllFresh(nodes))
  {
    var t := Apply(opt, s, LockOk(0));
    assert t.nodes.Keys == nodes == AllFresh(nodes).Keys && t.runs[0].rpcs.Keys == nodes;
    forall n | n in nodes
      ensures Stands(opt, t, n, AllFresh(nodes)[n])
    {
      assert n in t.nodes.Keys;
    }
  }

  function AllFresh(nodes: set<NodeId>): map<NodeId, Stage> {
    map n | n in nodes :: Fresh
  }

  /** Nothing has happened but checks. */
  predicate Checking(nodes: set<NodeId>, s: Cluster) {
    && s.now == 0 && s.nodes.Keys == nodes && s.runs.Keys == {0} && s.lock == None && s.travelling == {}
    && s.runs[0].stack == R.StackAt(s.runs[0].pc)
    && forall n :: n in nodes ==> s.nodes[n] == N.NODE
  }

  lemma BeginChecking(opt: Options, nodes: set<NodeId>)
    ensures CanReach(opt, nodes, Initial(nodes)) && Enabled(Initial(nodes), Begin(0))
    ensures var s := Apply(opt, Initial(nodes), Begin(0)); Checking(nodes, s) && At(s, 0, Health(|nodes|))
  {
    assert Initial(nodes).nodes.Keys == nodes;
    assert IsRun(opt, Initial(nodes), [], Initial(nodes));
  }

  lemma CheckOne(opt: Options, nodes: set<NodeId>, s: Cluster)
    requires Checking(nodes, s) && s.runs[0].pc.Health? && s.runs[0].pc.left > 0
    ensures Enabled(s, HealthOk(0)) && Checking(nodes, Apply(opt, s, HealthOk(0)))
    ensures var left := s.runs[0].pc.left;
      At(Apply(opt, s, HealthOk(0)), 0, if left > 1 then Health(left - 1) else Locking)
  {
  }

  lemma {:induction false} PassHealth(opt: Options, nodes: set<NodeId>, s: Cluster)
    returns (t: Cluster)
    requires CanReach(opt, nodes, s) && Checking(nodes, s)
    requires s.runs[0].pc.Health? && s.runs[0].pc.left > 0
    ensures CanReach(opt, nodes, t) && Checking(nodes, t) && At(t, 0, Locking)
    decreases s.runs[0].pc.left
  {
    CheckOne(opt, nodes, s);
    t := Then(opt, nodes, s, HealthOk(0));
    if t.runs[0].pc != Locking {
      t := PassHealth(opt, nodes, t);
    }
  }

  // ---------------------------------------------------------------------------------------------------
  // How much expiry is needed

  lemma WholeSecondsFloor(d: nat)
    ensures WholeSeconds(d) * N.SECOND <= d
    ensures d < 0x8000_0000 * N.SECOND ==> WholeSeconds(d) == d / N.SECOND
  {
    assert WholeSeconds(d) <= d / N.SECOND;
  }

  /** All nodes but the fast ones go from one stage to another. */
  lemma OthersMoveOn(nodes: set<NodeId>, fast: set<NodeId>, first: Stage, other: Stage, next: Stage)
    requires fast <= nodes
    ensures With(Two(nodes, fast, first, other), nodes - fast, next) == Two(nodes, fast, first, next)
    ensures With(Two(nodes, fast, first, other), fast, next) == Two(nodes, fast, next, other)
  {
  }

  lemma FastPart(opt: Options, nodes: set<NodeId>, fast: set<NodeId>) returns (s: Cluster)
    requires nodes != {} && fast <= nodes && Expiry(opt) > 0
    ensures CanReach(opt, nodes, s) && Shape(opt, s, 0, Two(nodes, fast, Answered(0, 0), Fresh))
  {
    s := ReachPausing(opt, nodes);
    assert AllFresh(nodes) == Two(nodes, fast, Fresh, Fresh);
    s := OpenAll(opt, nodes, s, 0, AllFresh(nodes), fast);
    OthersMoveOn(nodes, fast, Fresh, Fresh, Open(0, true));
    s := CloseAll(opt, nodes, s, 0, Two(nodes, fast, Open(0, true), Fresh), fast, 0);
    OthersMoveOn(nodes, fast, Open(0, true), Fresh, Answered(0, 0));
  }

  lemma SlowOpen(opt: Options, nodes: set<NodeId>, fast: set<NodeId>, c: nat, mid: Cluster)
    returns (s: Cluster)
    requires fast <= nodes && Expiry(opt) > 0 && c <= Expiry(opt) * N.SECOND <= opt.pauseExpiry
    requires CanReach(opt, nodes, mid) && Shape(opt, mid, 0, Two(nodes, fast, Answered(0, 0), Fresh))
    ensures CanReach(opt, nodes, s) && Shape(opt, s, c, Two(nodes, fast, Answered(0, 0), Open(c, true)))
  {
    TwoWait(opt, nodes, fast, Answered(0, 0), Fresh, c);
    MayWait(opt, mid, 0, Two(nodes, fast, Answered(0, 0), Fresh), c);
    s := Then(opt, nodes, mid, Tick(c));
    s := OpenAll(opt, nodes, s, c, Two(nodes, fast, Answered(0, 0), Fresh), nodes - fast);
    OthersMoveOn(nodes, fast, Answered(0, 0), Fresh, Open(c, true));
  }

  lemma SlowClose(opt: Options, nodes: set<NodeId>, fast: set<NodeId>, c: nat, d: nat, mid: Cluster)
    returns (s: Cluster)
    requires fast <= nodes && Expiry(opt) > 0
    requires c <= d <= c + PauseLimit(opt) && d <= Expiry(opt) * N.SECOND <= opt.pauseExpiry
    requires CanReach(opt, nodes, mid) && Shape(opt, mid, c, Two(nodes, fast, Answered(0, 0), Open(c, true)))
    ensures CanReach(opt, nodes, s) && Shape(opt, s, d, Two(nodes, fast, Answered(0, 0), Answered(c, d)))
  {
    TwoWait(opt, nodes, fast, Answered(0, 0), Open(c, true), d);
    MayWait(opt, mid, c, Two(nodes, fast, Answered(0, 0), Open(c, true)), d);
    s := Then(opt, nodes, mid, Tick(d));
    s := CloseAll(opt, nodes, s, d, Two(nodes, fast, Answered(0, 0), Open(c, true)), nodes - fast, c);
    OthersMoveOn(nodes, fast, Answered(0, 0), Open(c, true), Answered(c, d));
  }

  /** The fast nodes are paused at once; the others' requests are created at c and complete at d; then nothing
      happens until the expiry of the first ones. */
  lemma ReachExpiry(opt: Options, nodes: set<NodeId>, fast: set<NodeId>, c: nat, d: nat)
    returns (s: Cluster)
    requires nodes != {} && fast <= nodes && Expiry(opt) > 0
    requires c <= d <= c + PauseLimit(opt) && d <= Expiry(opt) * N.SECOND
    ensures CanReach(opt, nodes, s)
    ensures Shape(opt, s, Expiry(opt) * N.SECOND, Two(nodes, fast, Answered(0, 0), Answered(c, d)))
  {
    WholeSecondsFloor(opt.pauseExpiry);
    s := FastPart(opt, nodes, fast);
    s := SlowOpen(opt, nodes, fast, c, s);
    s := SlowClose(opt, nodes, fast, c, d, s);
    TwoWait(opt, nodes, fast, Answered(0, 0), Answered(c, d), Expiry(opt) * N.SECOND);
    MayWait(opt, s, d, Two(nodes, fast, Answered(0, 0), Answered(c, d)), Expiry(opt) * N.SECOND);
    s := Then(opt, nodes, s, Tick(Expiry(opt) * N.SECOND));
  }

  /** On every run whose pause requests are created within the skew and whose last answer is no older than the
      delay, all nodes are paused when Migrate is issued. */
  ghost predicate PausedUntilMigrate(opt: Options, nodes: set<NodeId>, skew: nat, delay: nat) {
    forall s, r :: CanReach(opt, nodes, s) && r in s.runs && s.runs[r].clean
      && F.IssuesMigrate(s, r, PauseDone(r)) && F.CreatedWithin(s, r, skew) && F.CompletedWithin(s, r, delay)
      ==> forall n :: n in nodes ==> n in s.nodes && s.nodes[n].paused
  }

  /** One node has no skew. */
  function Skew(nodes: set<NodeId>, skew: nat): nat {
    if |nodes| > 1 then skew else 0
  }

  /** If the expiry is any shorter, one slow request created as late as the skew allows, and a Migrate issued as
      late as the delay allows, find a node that its server has already resumed. */
  lemma ShortExpiryLosesPause(opt: Options, nodes: set<NodeId>, skew: nat, delay: nat)
    returns (s: Cluster, lost: NodeId)
    requires nodes != {} && 0 < Expiry(opt) * N.SECOND <= PauseLimit(opt) + Skew(nodes, skew) + delay
    ensures CanReach(opt, nodes, s) && 0 in s.runs && s.runs[0].clean
    ensures F.IssuesMigrate(s, 0, PauseDone(0)) && F.CreatedWithin(s, 0, skew) && F.CompletedWithin(s, 0, delay)
    ensures lost in nodes && lost in s.nodes && !s.nodes[lost].paused
  {
    lost :| lost in nodes;
    var fast := if |nodes| > 1 then {lost} else {};
    var slow := OtherThan(nodes, fast);
    var c, d := Delays(Skew(nodes, skew), PauseLimit(opt), Expiry(opt) * N.SECOND, delay);
    s := LoseOne(opt, nodes, fast, c, d, lost);
    LostPause(opt, s, nodes, fast, c, d, lost, slow, skew, delay);
  }

  lemma LoseOne(opt: Options, nodes: set<NodeId>, fast: set<NodeId>, c: nat, d: nat, lost: NodeId)
    returns (s: Cluster)
    requires lost in nodes && fast <= nodes && Expiry(opt) > 0 && (lost in fast || c == 0)
    requires c <= d <= c + PauseLimit(opt) && d <= Expiry(opt) * N.SECOND
    ensures CanReach(opt, nodes, s)
    ensures Shape(opt, s, Expiry(opt) * N.SECOND, AfterLoss(nodes, fast, c, d, lost))
  {
    s := ReachExpiry(opt, nodes, fast, c, d);
    var end, answers := Expiry(opt) * N.SECOND, Two(nodes, fast, Answered(0, 0), Answered(c, d));
    assert Stands(opt, s, lost, answers[lost]);
    ExpireStands(opt, s, lost, answers[lost].created, answers[lost].completed);
    MoveShape(opt, s, end, answers, lost, Fire(lost, 0), Expired(answers[lost].created, answers[lost].completed));
    s := Then(opt, nodes, s, Fire(lost, 0));
  }

  lemma ExpireStands(opt: Options, s: Cluster, n: NodeId, c: int, d: int)
    requires Expiry(opt) > 0 && Stands(opt, s, n, Answered(c, d)) && N.Due(RecordOf(opt, c, d)) <= s.now
    ensures Enabled(s, Fire(n, 0)) && Stands(opt, Apply(opt, s, Fire(n, 0)), n, Expired(c, d))
  {
    FireOnAnswered(opt, c, d, s.now);
  }

  function AfterLoss(nodes: set<NodeId>, fast: set<NodeId>, c: int, d: int, lost: NodeId): map<NodeId, Stage>
    requires lost in nodes
  {
    var answered := Two(nodes, fast, Answered(0, 0), Answered(c, d));
    answered[lost := Expired(answered[lost].created, answered[lost].completed)]
  }

  /** When to create the slow request, and when to complete it. */
  lemma Delays(skew: nat, limit: nat, end: nat, delay: nat) returns (c: nat, d: nat)
    requires end <= limit + skew + delay
    ensures c <= skew && c <= d <= c + limit && d <= end <= d + delay
  {
    c := if skew < end then skew else end;
    d := if limit < end - c then c + limit else end;
  }

  lemma OtherThan(nodes: set<NodeId>, fast: set<NodeId>) returns (slow: NodeId)
    requires nodes != {} && (fast == {} || (|fast| == 1 && |nodes| > 1))
    ensures slow in nodes && slow !in fast
  {
    if nodes <= fast {
      Smaller(nodes, fast);
      assert false;
    }
    slow :| slow in nodes && slow !in fast;
  }

  lemma {:induction false} Smaller(a: set<NodeId>, b: set<NodeId>)
    requires a <= b
    ensures |a| <= |b|
  {
    if a != {} {
      var n :| n in a;
      Smaller(a - {n}, b - {n});
    }
  }

  lemma LostPause(opt: Options, s: Cluster, nodes: set<NodeId>, fast: set<NodeId>, c: nat, d: nat,
                  lost: NodeId, slow: NodeId, skew: nat, delay: nat)
    requires lost in nodes && slow in nodes && slow !in fast && Expiry(opt) * N.SECOND <= d + delay && c <= skew
    requires Shape(opt, s, Expiry(opt) * N.SECOND, AfterLoss(nodes, fast, c, d, lost))
    ensures F.IssuesMigrate(s, 0, PauseDone(0)) && F.CreatedWithin(s, 0, skew) && F.CompletedWithin(s, 0, delay)
    ensures 0 in s.runs && s.runs[0].clean && lost in s.nodes && !s.nodes[lost].paused
  {
    forall n | n in nodes
      ensures n in s.nodes && n in s.runs[0].rpcs && s.runs[0].rpcs[n] == Acked
      ensures s.nodes[n].done == map[0 := AnswerOf(opt, fast, c, d, n)]
      ensures n == lost ==> !s.nodes[n].paused
    {
      AnsweredAll(opt, s, nodes, fast, c, d, lost, n);
    }
    assert s.nodes[slow].done[0].completedAt == d;
  }

  function AnswerOf(opt: Options, fast: set<NodeId>, c: int, d: int, n: NodeId): N.Record {
    if n in fast then RecordOf(opt, 0, 0) else RecordOf(opt, c, d)
  }

  lemma AnsweredAll(opt: Options, s: Cluster, nodes: set<NodeId>, fast: set<NodeId>, c: nat, d: nat, lost: NodeId,
                    n: NodeId)
    requires lost in nodes && n in nodes && Shape(opt, s, Expiry(opt) * N.SECOND, AfterLoss(nodes, fast, c, d, lost))
    ensures n in s.nodes && n in s.runs[0].rpcs && s.runs[0].rpcs[n] == Acked
    ensures s.nodes[n].done == map[0 := AnswerOf(opt, fast, c, d, n)]
    ensures n == lost ==> !s.nodes[n].paused
  {
    assert Stands(opt, s, n, AfterLoss(nodes, fast, c, d, lost)[n]);
  }

  /** For any set of nodes and any bounds on skew and delay: all nodes are always paused when Migrate is issued if and
      only if the expiry sent exceeds the timeout sent, the skew and the delay together, or is not positive. */
  lemma ExpiryMustExceedTimeout(opt: Options, nodes: set<NodeId>, skew: nat, delay: nat)
    requires nodes != {}
    ensures PausedUntilMigrate(opt, nodes, skew, delay)
      <==> Expiry(opt) <= 0 || Expiry(opt) * N.SECOND > PauseLimit(opt) + Skew(nodes, skew) + delay
  {
    if Expiry(opt) <= 0 || Expiry(opt) * N.SECOND > PauseLimit(opt) + Skew(nodes, skew) + delay {
      forall s, r | CanReach(opt, nodes, s) && r in s.runs && s.runs[r].clean
        && F.IssuesMigrate(s, r, PauseDone(r)) && F.CreatedWithin(s, r, skew) && F.CompletedWithin(s, r, delay)
        ensures forall n :: n in nodes ==> n in s.nodes && s.nodes[n].paused
      {
        var steps :| IsRun(opt, Initial(nodes), steps, s);
        Reachable(opt, nodes, steps, s);
        NoSkewAlone(s, r, nodes, skew);
        F.AllPausedAtMigrate(opt, nodes, steps, s, r, Skew(nodes, skew), delay);
      }
    } else {
      var s, lost := ShortExpiryLosesPause(opt, nodes, skew, delay);
      assert lost in nodes && !s.nodes[lost].paused;
    }
  }

  lemma NoSkewAlone(s: Cluster, r: RunId, nodes: set<NodeId>, skew: nat)
    requires s.nodes.Keys == nodes && F.CreatedWithin(s, r, skew)
    ensures F.CreatedWithin(s, r, Skew(nodes, skew))
  {
    if |nodes| <= 1 {
      forall m, n | m in s.nodes && n in s.nodes
        ensures m == n
      {
        if m != n {
          Smaller({m, n}, nodes);
        }
      }
    }
  }

  /** In the durations that the operator configures, if they fit the 32 bits of whole seconds: with instant answers,
      what counts is the whole seconds of the expiry against those of the timeout; but an expiry of less than a second
      is sent as none. */
  lemma WholeSecondsDecide(opt: Options, nodes: set<NodeId>)
    requires nodes != {}
    requires opt.pauseExpiry < 0x8000_0000 * N.SECOND && opt.pauseTimeout < 0x8000_0000 * N.SECOND
    ensures PausedUntilMigrate(opt, nodes, 0, 0)
      <==> opt.pauseExpiry < N.SECOND || opt.pauseExpiry / N.SECOND > opt.pauseTimeout / N.SECOND
  {
    WholeSecondsFloor(opt.pauseExpiry);
    WholeSecondsFloor(opt.pauseTimeout);
    ExpiryMustExceedTimeout(opt, nodes, 0, 0);
  }

  /** So an expiry of a second or more that is longer than the timeout, but not by a whole second more, does not do:
      1.9 s against 1 s, for one. */
  lemma TruncationLosesPause(opt: Options, nodes: set<NodeId>)
    requires nodes != {} && N.SECOND <= opt.pauseExpiry < 0x8000_0000 * N.SECOND
    requires opt.pauseTimeout < opt.pauseExpiry < (opt.pauseTimeout / N.SECOND + 1) * N.SECOND
    ensures !PausedUntilMigrate(opt, nodes, 0, 0)
  {
    WholeSecondsDecide(opt, nodes);
  }

  /** And with less than a second of expiry nothing is ever resumed but by request: if the operator vanishes, a node
      can stay paused for any time, with no resume scheduled or travelling and no handler open. */
  lemma SubsecondExpiryNeverResumes(opt: Options, later: nat) returns (s: Cluster)
    requires opt.pauseExpiry < N.SECOND
    ensures CanReach(opt, {0}, s) && s.now == later && At(s, 0, Gone) && NoResumeTravels(s, 0)
    ensures 0 in s.nodes && s.nodes[0].paused && s.nodes[0].calls == map[] && s.nodes[0].timers == map[]
  {
    WholeSecondsFloor(opt.pauseExpiry);
    s := ReachPausing(opt, {0});
    var stages := AllFresh({0});
    s := OpenOne(opt, {0}, s, 0, stages, 0);
    stages := stages[0 := Open(0, true)];
    s := CloseOne(opt, {0}, s, 0, stages, 0);
    VanishForGood(opt, s, stages[0 := Answered(0, 0)], later);
    NoResumeYet(opt, s);
    s := Then(opt, {0}, s, Vanish(0));
    s := Then(opt, {0}, s, Tick(later));
  }

  predicate NoResumeTravels(s: Cluster, n: NodeId) {
    forall q :: q in s.travelling && q.n == n ==> !q.ResumeOf?
  }

  lemma VanishForGood(opt: Options, s: Cluster, stages: map<NodeId, Stage>, later: nat)
    requires Expiry(opt) <= 0 && stages.Keys == {0} && stages[0] == Answered(0, 0) && Shape(opt, s, 0, stages)
    ensures Enabled(s, Vanish(0)) && Enabled(Apply(opt, s, Vanish(0)), Tick(later))
    ensures 0 in s.nodes && s.nodes[0].paused && s.nodes[0].calls == map[] && s.nodes[0].timers == map[]
  {
    assert Stands(opt, s, 0, stages[0]);
    assert 0 in s.nodes.Keys;
  }

  lemma NoResumeYet(opt: Options, s: Cluster)
    requires CanReach(opt, {0}, s) && s.runs.Keys == {0} && At(s, 0, Pausing)
    ensures NoResumeTravels(s, 0)
  {
    var steps :| IsRun(opt, Initial({0}), steps, s);
    Reachable(opt, {0}, steps, s);
    assert 0 in s.nodes.Keys;
    forall q | q in s.travelling && q.n == 0
      ensures !q.ResumeOf?
    {
      NotReachedYet(opt, s, q.r);
    }
  }

  lemma NotReachedYet(opt: Options, s: Cluster, r: RunId)
    requires Inv(opt, s) && 0 in s.nodes && s.runs.Keys == {0} && At(s, 0, Pausing)
    ensures ResumeOf(r, 0) !in s.travelling
  {
    assert Tracked(opt, s, r, 0);
  }

  // ---------------------------------------------------------------------------------------------------
  // What giving up on a pause can lead to

  /** Run 0 and node 0 by themselves. */
  predicate Lone(s: Cluster, pc: Pc, rpc: Rpc, errored: bool, travelling: set<Request>) {
    && s.nodes == map[0 := N.NODE] && s.travelling == travelling && s.lock == Some(0)
    && s.runs.Keys == {0} && At(s, 0, pc) && s.runs[0].stack == R.StackAt(pc)
    && s.runs[0].rpcs == map[0 := rpc] && s.runs[0].errored == errored
  }

  lemma LockAlone(opt: Options, s: Cluster)
    requires Checking({0}, s) && At(s, 0, Locking)
    ensures Enabled(s, LockOk(0)) && Lone(Apply(opt, s, LockOk(0)), Pausing, Unsent, false, {})
  {
    assert s.nodes == map[0 := N.NODE];
    assert AllUnsent({0}) == map[0 := Unsent];
  }

  lemma SendPauseAlone(opt: Options, s: Cluster)
    requires Lone(s, Pausing, Unsent, false, {})
    ensures Enabled(s, SendPause(0, 0))
    ensures Lone(Apply(opt, s, SendPause(0, 0)), Pausing, Sent, false, {PauseOf(0, 0)})
  {
    assert map[0 := Unsent][0 := Sent] == map[0 := Sent];
    assert {} + {PauseOf(0, 0)} == {PauseOf(0, 0)};
  }

  lemma GiveUpAlone(opt: Options, s: Cluster)
    requires Lone(s, Pausing, Sent, false, {PauseOf(0, 0)})
    ensures Enabled(s, ReturnRpc(0, 0, false))
    ensures Lone(Apply(opt, s, ReturnRpc(0, 0, false)), Pausing, Failed, true, {PauseOf(0, 0)})
  {
    assert map[0 := Sent][0 := Failed] == map[0 := Failed];
  }

  lemma FailAlone(opt: Options, s: Cluster)
    requires Lone(s, Pausing, Failed, true, {PauseOf(0, 0)})
    ensures Enabled(s, PauseDone(0))
    ensures Lone(Apply(opt, s, PauseDone(0)), Resuming, Unsent, false, {PauseOf(0, 0)})
  {
    R.PopPops(s.runs[0].(failed := true), s.now, opt, s.nodes.Keys);
    assert s.nodes.Keys == {0} && AllUnsent({0}) == map[0 := Unsent];
  }

  lemma SendResumeAlone(opt: Options, s: Cluster)
    requires Lone(s, Resuming, Unsent, false, {PauseOf(0, 0)})
    ensures Enabled(s, SendResume(0, 0))
    ensures Lone(Apply(opt, s, SendResume(0, 0)), Resuming, Sent, false, {PauseOf(0, 0), ResumeOf(0, 0)})
  {
    assert map[0 := Unsent][0 := Sent] == map[0 := Sent];
  }

  lemma ServeResumeAlone(opt: Options, s: Cluster)
    requires Lone(s, Resuming, Sent, false, {PauseOf(0, 0), ResumeOf(0, 0)})
    ensures Enabled(s, ServeResume(0, 0)) && ResumeOf(0, 0) in Apply(opt, s, ServeResume(0, 0)).served
    ensures Lone(Apply(opt, s, ServeResume(0, 0)), Resuming, Sent, false, {PauseOf(0, 0)})
  {
    assert {PauseOf(0, 0), ResumeOf(0, 0)} - {ResumeOf(0, 0)} == {PauseOf(0, 0)};
    assert map[0 := N.NODE][0 := N.NODE] == map[0 := N.NODE];
  }

  lemma AckResumeAlone(opt: Options, s: Cluster)
    requires Lone(s, Resuming, Sent, false, {PauseOf(0, 0)}) && ResumeOf(0, 0) in s.served
    ensures Enabled(s, ReturnRpc(0, 0, true))
    ensures Lone(Apply(opt, s, ReturnRpc(0, 0, true)), Resuming, Acked, false, {PauseOf(0, 0)})
  {
    assert map[0 := Sent][0 := Acked] == map[0 := Acked];
  }

  /** Run 0 gives up on its pause of node 0, which still travels, and resumes the node. */
  lemma GiveUpOnPause(opt: Options) returns (s: Cluster)
    ensures CanReach(opt, {0}, s) && Lone(s, Resuming, Acked, false, {PauseOf(0, 0)})
  {
    BeginChecking(opt, {0});
    s := Then(opt, {0}, Initial({0}), Begin(0));
    s := PassHealth(opt, {0}, s);
    LockAlone(opt, s);
    s := Then(opt, {0}, s, LockOk(0));
    SendPauseAlone(opt, s);
    s := Then(opt, {0}, s, SendPause(0, 0));
    GiveUpAlone(opt, s);
    s := Then(opt, {0}, s, ReturnRpc(0, 0, false));
    FailAlone(opt, s);
    s := Then(opt, {0}, s, PauseDone(0));
    SendResumeAlone(opt, s);
    s := Then(opt, {0}, s, SendResume(0, 0));
    ServeResumeAlone(opt, s);
    s := Then(opt, {0}, s, ServeResume(0, 0));
    AckResumeAlone(opt, s);
    s := Then(opt, {0}, s, ReturnRpc(0, 0, true));
  }

  /** A client that gives up on a pause can find the node paused after all of its resume calls have succeeded. */
  lemma LatePauseAfterResume(opt: Options) returns (s: Cluster)
    ensures CanReach(opt, {0}, s)
    ensures Enabled(s, ResumeDone(0)) && !s.runs[0].errored && 0 in s.nodes && s.nodes[0].paused
  {
    s := GiveUpOnPause(opt);
    ArriveWhileResuming(opt, s);
    s := Then(opt, {0}, s, ArrivePause(0, 0));
    s := Then(opt, {0}, s, PauseTakesEffect(0, 0));
  }

  lemma ArriveWhileResuming(opt: Options, s: Cluster)
    requires Lone(s, Resuming, Acked, false, {PauseOf(0, 0)})
    ensures Enabled(s, ArrivePause(0, 0))
    ensures var t := Apply(opt, s, ArrivePause(0, 0));
      && Enabled(t, PauseTakesEffect(0, 0)) && Enabled(t, ResumeDone(0)) && !t.runs[0].errored
  {
  }

  /** Nor is the run's end the end of it: the pause can take effect when the run is finished and the lock is free. */
  lemma LatePauseAfterUnlock(opt: Options) returns (s: Cluster)
    ensures CanReach(opt, {0}, s) && At(s, 0, Finished) && s.lock == None
    ensures Enabled(s, PauseTakesEffect(0, 0)) && 0 in s.nodes && !s.nodes[0].paused
    ensures A.Abandoned(s, PauseOf(0, 0))
  {
    s := GiveUpOnPause(opt);
    LeaveAlone(opt, s, Resuming, ResumeDone(0));
    s := Then(opt, {0}, s, ResumeDone(0));
    LeaveAlone(opt, s, Releasing, UnlockReturns(0, true));
    s := Then(opt, {0}, s, UnlockReturns(0, true));
    ArriveLate(opt, s);
    s := Then(opt, {0}, s, ArrivePause(0, 0));
  }

  lemma ArriveLate(opt: Options, s: Cluster)
    requires Left(s)
    ensures Enabled(s, ArrivePause(0, 0))
    ensures var t := Apply(opt, s, ArrivePause(0, 0));
      && At(t, 0, Finished) && t.lock == None && Enabled(t, PauseTakesEffect(0, 0)) && A.Abandoned(t, PauseOf(0, 0))
      && 0 in t.nodes && !t.nodes[0].paused
  {
  }

  /** The run leaves one of its last two phases. */
  lemma LeaveAlone(opt: Options, s: Cluster, pc: Pc, step: Step)
    requires pc == Resuming || pc == Releasing
    requires Lone(s, pc, Acked, false, {PauseOf(0, 0)})
    requires step == (if pc == Resuming then ResumeDone(0) else UnlockReturns(0, true))
    ensures Enabled(s, step)
    ensures if pc == Resuming then Lone(Apply(opt, s, step), Releasing, Acked, false, {PauseOf(0, 0)})
      else Left(Apply(opt, s, step))
  {
    R.PopPops(s.runs[0], s.now, opt, s.nodes.Keys);
  }

  /** The run is over, and its pause still travels. */
  predicate Left(s: Cluster) {
    At(s, 0, Finished) && s.lock == None && s.nodes == map[0 := N.NODE] && s.travelling == {PauseOf(0, 0)}
  }
}
