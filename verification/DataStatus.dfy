/** The data-status attribute over whole runs of a cluster (docker/postgres-member/resource_agents/pgsql:546-594,
    799-833, 944-1034, 1036-1125). Every node runs its agent's operations one after the other; the writes of
    different nodes interleave freely; a node may fail anywhere; attribute writes succeed.

    An agent asks only once whether its Postgres is the primary, and goes on to write whatever becomes of Postgres
    meanwhile. */
module DataStatus {
  import opened Base
  import SlaveControl
  import MasterRight

  type Node = string

  datatype Op =
    | Idle
    | Promoting(done: nat)     // has disconnected the first `done` nodes of NODE_LIST
    | Promoted                 // pg_ctl has promoted Postgres; the promotion waits to see it as primary
    | Confirmed                // it has, and will write LATEST
    | Monitored                // a monitor has seen Postgres as primary, and will write LATEST
    | Reading                  // it has, and will read the rows
    | Controlling(done: nat, rows: seq<SlaveControl.Row>)

  /** Who wrote a status last, and in which promotion. */
  datatype Writer = Nobody | Promotion(who: Node) | Monitor(who: Node) | SlaveControl(who: Node, term: nat) | Itself

  datatype Cluster = Cluster(
    status: map<Node, string>,
    writer: map<Node, Writer>,
    ops: map<Node, Op>,
    primary: Option<Node>,     // the node whose Postgres runs as primary
    term: nat,                 // how often a node has become primary
    elected: Option<Node>      // the last one that did
  )

  function Status(s: Cluster, n: Node): string {
    if n in s.status then s.status[n] else ""
  }

  function WriterOf(s: Cluster, n: Node): Writer {
    if n in s.writer then s.writer[n] else Nobody
  }

  function OpOf(s: Cluster, n: Node): Op {
    if n in s.ops then s.ops[n] else Idle
  }

  const INITIAL := Cluster(map[], map[], map[], None, 0, None)

  datatype Step =
    | StartPromote(n: Node)
    | Disconnect(n: Node)      // one round of the promotion's loop over NODE_LIST
    | BecomePrimary(n: Node)   // pg_ctl promote
    | SeePrimary(n: Node)      // the promotion, or a monitor that begins, finds Postgres running as primary
    | WriteLatest(n: Node)     // and that is what comes of it
    | ReadRows(n: Node, rows: seq<SlaveControl.Row>)
    | Control(n: Node)         // one round of control_slave_status
    | Abandon(n: Node)         // an operation returns early
    | PostgresStops(n: Node)   // a demotion or a crash; an operation under way goes on
    | FindUnfit(n: Node)       // have_master_right gives up on the own data

  /** Some operation of the node as a primary is under way, or its Postgres is one. */
  predicate Leads(s: Cluster, n: Node) {
    s.primary == Some(n) || OpOf(s, n) != Idle
  }

  predicate Possible(all: seq<Node>, s: Cluster, step: Step) {
    && step.n in all
    && match step
       case StartPromote(n) => !Leads(s, n)
       case Disconnect(n) => OpOf(s, n).Promoting? && OpOf(s, n).done < |all|
       case BecomePrimary(n) => OpOf(s, n) == Promoting(|all|) && s.primary == None
       case SeePrimary(n) => s.primary == Some(n) && (OpOf(s, n) == Promoted || OpOf(s, n) == Idle)
       case WriteLatest(n) => OpOf(s, n) == Confirmed || OpOf(s, n) == Monitored
       case ReadRows(n, _) => OpOf(s, n) == Reading
       case Control(n) => OpOf(s, n).Controlling? && OpOf(s, n).done < |all|
       case Abandon(n) => OpOf(s, n) != Idle
       case PostgresStops(n) => s.primary == Some(n)
       case FindUnfit(n) => !Leads(s, n)
  }

  function Write(s: Cluster, n: Node, value: string, who: Writer): Cluster {
    s.(status := s.status[n := value], writer := s.writer[n := who])
  }

  function SetOp(s: Cluster, n: Node, op: Op): Cluster {
    s.(ops := s.ops[n := op])
  }

  function Apply(all: seq<Node>, s: Cluster, step: Step): Cluster
    requires Possible(all, s, step)
  {
    match step
    case StartPromote(n) => SetOp(s, n, Promoting(0))
    case Disconnect(n) =>
      var k := OpOf(s, n).done;
      SetOp(if all[k] == n then s else Write(s, all[k], "DISCONNECT", Promotion(n)), n, Promoting(k + 1))
    case BecomePrimary(n) => SetOp(s.(primary := Some(n), term := s.term + 1, elected := Some(n)), n, Promoted)
    case SeePrimary(n) => SetOp(s, n, if OpOf(s, n) == Promoted then Confirmed else Monitored)
    case WriteLatest(n) =>
      SetOp(Write(s, n, "LATEST", Monitor(n)), n, if OpOf(s, n) == Confirmed then Idle else Reading)
    case ReadRows(n, rows) => SetOp(s, n, Controlling(0, rows))
    case Control(n) =>
      var op := OpOf(s, n);
      var k := op.done;
      SetOp(if all[k] == n then s
            else Write(s, all[k], SlaveControl.StatusOf(op.rows, all[k]), Writer.SlaveControl(n, s.term)),
            n, if k + 1 == |all| then Idle else Controlling(k + 1, op.rows))
    case Abandon(n) => SetOp(s, n, Idle)
    case PostgresStops(n) => s.(primary := None)
    case FindUnfit(n) => Write(s, n, "DISCONNECT", Itself)
  }

  // ---------------------------------------------------------------------------------------------------
  // Rules

  predicate Passed(all: seq<Node>, s: Cluster, m: Node, j: nat) {
    OpOf(s, m).Promoting? && j < OpOf(s, m).done && j < |all|
  }

  /** A promotion under way on another node has disconnected this one. */
  ghost predicate Outdone(all: seq<Node>, s: Cluster, n: Node) {
    exists m: Node, j: nat :: m in all && m != n && Passed(all, s, m, j) && all[j] == n
  }

  /** The node whose status slave control is about to write. */
  function Target(all: seq<Node>, s: Cluster, step: Step): Node
    requires step.Control? && Possible(all, s, step)
  {
    all[OpOf(s, step.n).done]
  }

  /** What keeps late writes out, on top of a single running primary. A write of LATEST, and a write of slave
      control, can each be made to depend on two things: that no node has become primary after the writer, and
      that no promotion under way has disconnected the node whose status is written. Or promotions are ordered:
      one starts only when no node leads, which is what pacemaker does. */
  datatype Rule =
    | Ordered
    | Guarded(latestElected: bool, latestNotOutdone: bool, controlElected: bool, controlNotOutdone: bool)

  const ONE_PRIMARY := Guarded(false, false, false, false)

  ghost predicate Enabled(rule: Rule, all: seq<Node>, s: Cluster, step: Step) {
    && Possible(all, s, step)
    && match rule
       case Ordered => step.StartPromote? ==> forall m :: m in all ==> !Leads(s, m)
       case Guarded(latestElected, latestNotOutdone, controlElected, controlNotOutdone) =>
         && (step.WriteLatest? ==>
               (latestElected ==> s.elected == Some(step.n)) && (latestNotOutdone ==> !Outdone(all, s, step.n)))
         && (step.Control? ==>
               && (controlElected ==> s.elected == Some(step.n))
               && (controlNotOutdone ==> !Outdone(all, s, Target(all, s, step))))
  }

  ghost predicate IsRun(rule: Rule, all: seq<Node>, s: Cluster, steps: seq<Step>, end: Cluster)
    decreases steps
  {
    if steps == [] then s == end
    else Enabled(rule, all, s, steps[0]) && IsRun(rule, all, Apply(all, s, steps[0]), steps[1..], end)
  }

  // ---------------------------------------------------------------------------------------------------
  // Which statuses a step changes

  /** The step writes the node's status. */
  predicate Writes(all: seq<Node>, s: Cluster, step: Step, n: Node)
    requires Possible(all, s, step)
  {
    match step
    case Disconnect(m) => m != n && all[OpOf(s, m).done] == n
    case WriteLatest(m) => m == n
    case Control(m) => m != n && all[OpOf(s, m).done] == n
    case FindUnfit(m) => m == n
    case _ => false
  }

  lemma StatusChange(all: seq<Node>, s: Cluster, step: Step, n: Node)
    requires Possible(all, s, step)
    ensures var t := Apply(all, s, step);
      if !Writes(all, s, step, n) then Status(t, n) == Status(s, n) && WriterOf(t, n) == WriterOf(s, n)
      else if step.WriteLatest? then Status(t, n) == "LATEST"
      else if step.Control? then
        Status(t, n) == SlaveControl.StatusOf(OpOf(s, step.n).rows, n)
        && Status(t, n) != "LATEST" && Status(t, n) != ""
        && WriterOf(t, n) == Writer.SlaveControl(step.n, s.term)
      else Status(t, n) == "DISCONNECT"
  {
    if step.Control? {
      SlaveControl.StatusIsNeverLatest(OpOf(s, step.n).rows, n);
      SlaveControl.StatusIsNeverEmpty(OpOf(s, step.n).rows, n);
    }
  }

  /** Where a promotion's loop has been. */
  lemma PassedOrigin(all: seq<Node>, s: Cluster, step: Step, m: Node, j: nat)
    requires Possible(all, s, step) && Passed(all, Apply(all, s, step), m, j)
    ensures Passed(all, s, m, j) || (step == Disconnect(m) && j == OpOf(s, m).done)
  {
  }

  lemma OutdoneOrigin(all: seq<Node>, s: Cluster, step: Step, n: Node)
    requires Possible(all, s, step) && Outdone(all, Apply(all, s, step), n)
    ensures Outdone(all, s, n) || Writes(all, s, step, n)
  {
    var m: Node, j: nat :| m in all && m != n && Passed(all, Apply(all, s, step), m, j) && all[j] == n;
    PassedOrigin(all, s, step, m, j);
  }

  /** A node that another one overtakes has been disconnected by it. */
  lemma OvertakenIsOutdone(all: seq<Node>, s: Cluster, m: Node, n: Node)
    requires n in all && m != n && Possible(all, s, BecomePrimary(m))
    ensures Outdone(all, s, n)
  {
    var j :| 0 <= j < |all| && all[j] == n;
    assert Passed(all, s, m, j);
  }

  // ---------------------------------------------------------------------------------------------------
  // At most one LATEST

  ghost predicate OneLatest(all: seq<Node>, s: Cluster) {
    forall m, n :: m in all && n in all && Status(s, m) == "LATEST" && Status(s, n) == "LATEST" ==> m == n
  }

  /** Only the node elected last can be LATEST, and a promotion's loop leaves no LATEST behind it. */
  ghost predicate LatestInv(all: seq<Node>, s: Cluster) {
    forall n :: n in all && (Outdone(all, s, n) || s.elected != Some(n)) ==> Status(s, n) != "LATEST"
  }

  ghost predicate LatestInTime(all: seq<Node>, s: Cluster, step: Step) {
    step.WriteLatest? ==> s.elected == Some(step.n) && !Outdone(all, s, step.n)
  }

  lemma LatestInvStep(all: seq<Node>, s: Cluster, step: Step)
    requires LatestInv(all, s) && Possible(all, s, step) && LatestInTime(all, s, step)
    ensures LatestInv(all, Apply(all, s, step))
  {
    var t := Apply(all, s, step);
    forall n | n in all && (Outdone(all, t, n) || t.elected != Some(n))
      ensures Status(t, n) != "LATEST"
    {
      StaysNotLatest(all, s, step, n);
    }
  }

  lemma StaysNotLatest(all: seq<Node>, s: Cluster, step: Step, n: Node)
    requires Possible(all, s, step) && LatestInTime(all, s, step) && n in all
    requires Outdone(all, s, n) || s.elected != Some(n) ==> Status(s, n) != "LATEST"
    requires Outdone(all, Apply(all, s, step), n) || Apply(all, s, step).elected != Some(n)
    ensures Status(Apply(all, s, step), n) != "LATEST"
  {
    StatusChange(all, s, step, n);
    if Outdone(all, Apply(all, s, step), n) {
      OutdoneOrigin(all, s, step, n);
    }
    if step.BecomePrimary? && step.n != n {
      OvertakenIsOutdone(all, s, step.n, n);
    }
  }

  // ---------------------------------------------------------------------------------------------------
  // Who passes the gate

  predicate IsStreaming(status: string) {
    status == "STREAMING|SYNC" || status == "STREAMING|ASYNC"
  }

  /** What the last elected node left on another one. */
  predicate FromElected(s: Cluster, e: Node, m: Node) {
    && Status(s, m) != "" && Status(s, m) != "LATEST"
    && (IsStreaming(Status(s, m)) ==> WriterOf(s, m) == Writer.SlaveControl(e, s.term))
  }

  ghost predicate GateInv(all: seq<Node>, s: Cluster) {
    && (forall n :: n in all && Outdone(all, s, n) ==> Status(s, n) == "DISCONNECT")
    && (s.elected.Some? ==> forall m :: m in all && m != s.elected.value ==> FromElected(s, s.elected.value, m))
  }

  ghost predicate ControlInTime(all: seq<Node>, s: Cluster, step: Step)
    requires Possible(all, s, step)
  {
    step.Control? ==> s.elected == Some(step.n) && !Outdone(all, s, Target(all, s, step))
  }

  lemma StaysDisconnected(all: seq<Node>, s: Cluster, step: Step, n: Node)
    requires Possible(all, s, step) && LatestInTime(all, s, step) && ControlInTime(all, s, step)
    requires Outdone(all, s, n) ==> Status(s, n) == "DISCONNECT"
    requires Outdone(all, Apply(all, s, step), n)
    ensures Status(Apply(all, s, step), n) == "DISCONNECT"
  {
    StatusChange(all, s, step, n);
    OutdoneOrigin(all, s, step, n);
    if !step.Disconnect? {
      OutdoneByWrite(all, s, step, n);
    }
  }

  /** A write other than a disconnection does not make a node outdone. */
  lemma OutdoneByWrite(all: seq<Node>, s: Cluster, step: Step, n: Node)
    requires Possible(all, s, step) && Outdone(all, Apply(all, s, step), n) && !step.Disconnect?
    ensures Outdone(all, s, n)
  {
    var m: Node, j: nat :| m in all && m != n && Passed(all, Apply(all, s, step), m, j) && all[j] == n;
    PassedOrigin(all, s, step, m, j);
  }

  lemma FromElectedStays(all: seq<Node>, s: Cluster, step: Step, e: Node, m: Node)
    requires GateInv(all, s) && Possible(all, s, step) && LatestInTime(all, s, step) && ControlInTime(all, s, step)
    requires Apply(all, s, step).elected == Some(e) && m in all && m != e
    ensures FromElected(Apply(all, s, step), e, m)
  {
    StatusChange(all, s, step, m);
    if step.BecomePrimary? {
      OvertakenIsOutdone(all, s, e, m);
    } else {
      assert FromElected(s, e, m);
    }
  }

  lemma GateInvStep(all: seq<Node>, s: Cluster, step: Step)
    requires GateInv(all, s) && Possible(all, s, step) && LatestInTime(all, s, step) && ControlInTime(all, s, step)
    ensures GateInv(all, Apply(all, s, step))
  {
    var t := Apply(all, s, step);
    forall n | n in all && Outdone(all, t, n)
      ensures Status(t, n) == "DISCONNECT"
    {
      StaysDisconnected(all, s, step, n);
    }
    if t.elected.Some? {
      forall m | m in all && m != t.elected.value
        ensures FromElected(t, t.elected.value, m)
      {
        FromElectedStays(all, s, step, t.elected.value, m);
      }
    }
  }

  // ---------------------------------------------------------------------------------------------------
  // Pacemaker's order implies the guards

  ghost predicate OneLeader(all: seq<Node>, s: Cluster) {
    forall m, n :: m in all && n in all && Leads(s, m) && Leads(s, n) ==> m == n
  }

  /** Who runs as primary, or acts as one, was elected last. */
  ghost predicate ActsElected(all: seq<Node>, s: Cluster) {
    && (s.primary.Some? ==> s.elected == s.primary)
    && forall n :: n in all && OpOf(s, n) != Idle && !OpOf(s, n).Promoting? ==> s.elected == Some(n)
  }

  lemma OrderedStep(all: seq<Node>, s: Cluster, step: Step)
    requires OneLeader(all, s) && ActsElected(all, s) && Enabled(Ordered, all, s, step)
    ensures LatestInTime(all, s, step) && ControlInTime(all, s, step)
    ensures OneLeader(all, Apply(all, s, step)) && ActsElected(all, Apply(all, s, step))
  {
    OrderedInTime(all, s, step);
    OrderStays(all, s, step);
  }

  lemma OrderedInTime(all: seq<Node>, s: Cluster, step: Step)
    requires OneLeader(all, s) && ActsElected(all, s) && Enabled(Ordered, all, s, step)
    ensures LatestInTime(all, s, step) && ControlInTime(all, s, step)
  {
    if step.WriteLatest? || step.Control? {
      assert Leads(s, step.n);
      assert forall m: Node, j: nat :: m in all && Passed(all, s, m, j) ==> Leads(s, m);
    }
  }

  lemma OrderStays(all: seq<Node>, s: Cluster, step: Step)
    requires OneLeader(all, s) && ActsElected(all, s) && Enabled(Ordered, all, s, step)
    ensures OneLeader(all, Apply(all, s, step)) && ActsElected(all, Apply(all, s, step))
  {
    var t := Apply(all, s, step);
    assert forall m :: m != step.n ==> OpOf(t, m) == OpOf(s, m);
    if step.StartPromote? {
      assert forall m :: m in all && Leads(t, m) ==> m == step.n;
    } else {
      assert forall m :: Leads(t, m) ==> Leads(s, m) || m == step.n;
      assert Leads(t, step.n) ==> Leads(s, step.n);
    }
  }

  // ---------------------------------------------------------------------------------------------------
  // The theorems

  predicate GuardsLatest(rule: Rule) {
    rule.Ordered? || (rule.latestElected && rule.latestNotOutdone)
  }

  predicate GuardsGate(rule: Rule) {
    GuardsLatest(rule) && (rule.Ordered? || (rule.controlElected && rule.controlNotOutdone))
  }

  ghost predicate Inv(rule: Rule, all: seq<Node>, s: Cluster) {
    && LatestInv(all, s)
    && (GuardsGate(rule) ==> GateInv(all, s))
    && (rule.Ordered? ==> OneLeader(all, s) && ActsElected(all, s))
  }

  lemma InvStep(rule: Rule, all: seq<Node>, s: Cluster, step: Step)
    requires GuardsLatest(rule) && Inv(rule, all, s) && Enabled(rule, all, s, step)
    ensures Inv(rule, all, Apply(all, s, step))
  {
    if rule.Ordered? {
      OrderedStep(all, s, step);
    }
    LatestInvStep(all, s, step);
    if GuardsGate(rule) {
      GateInvStep(all, s, step);
    }
  }

  lemma {:induction false} InvRun(rule: Rule, all: seq<Node>, s: Cluster, steps: seq<Step>, end: Cluster)
    requires GuardsLatest(rule) && Inv(rule, all, s) && IsRun(rule, all, s, steps, end)
    ensures Inv(rule, all, end)
    decreases steps
  {
    if steps != [] {
      InvStep(rule, all, s, steps[0]);
      InvRun(rule, all, Apply(all, s, steps[0]), steps[1..], end);
    }
  }

  /** If LATEST is written only by the node elected last, and not once a promotion under way has disconnected it, or
      if promotions are ordered: at every moment of every run at most one node has data status LATEST. */
  lemma AtMostOneLatest(rule: Rule, all: seq<Node>, steps: seq<Step>, end: Cluster)
    requires GuardsLatest(rule) && IsRun(rule, all, INITIAL, steps, end)
    ensures OneLatest(all, end)
  {
    InvRun(rule, all, INITIAL, steps, end);
  }

  /** If n passes the master-right gate although another node was elected last, it was last written by that one, in
      its present term as the primary: as streaming synchronously or, in async mode, asynchronously. */
  predicate SoundAt(sync: bool, s: Cluster, n: Node) {
    (s.elected.Some? && n != s.elected.value && MasterRight.PassesGate(sync, Status(s, n)))
    ==> && (Status(s, n) == "STREAMING|SYNC" || (Status(s, n) == "STREAMING|ASYNC" && !sync))
        && WriterOf(s, n) == Writer.SlaveControl(s.elected.value, s.term)
  }

  ghost predicate GateIsSound(sync: bool, all: seq<Node>, s: Cluster) {
    forall n :: n in all ==> SoundAt(sync, s, n)
  }

  /** Slave control decides who passes: the synchronous streamers, and in async mode the asynchronous ones too. */
  lemma RecordedPasses(sync: bool, all: seq<Node>, s: Cluster, step: Step)
    requires step.Control? && Possible(all, s, step) && Target(all, s, step) != step.n
    ensures var t, n := Apply(all, s, step), Target(all, s, step);
      var status := SlaveControl.StatusOf(OpOf(s, step.n).rows, n);
      MasterRight.PassesGate(sync, Status(t, n)) <==>
        status == "STREAMING|SYNC" || (status == "STREAMING|ASYNC" && !sync)
  {
    StatusChange(all, s, step, Target(all, s, step));
    MasterRight.GateAdmits(sync, Status(Apply(all, s, step), Target(all, s, step)));
  }

  lemma GateAdmitsOnlyStreamers(sync: bool, rule: Rule, all: seq<Node>, steps: seq<Step>, end: Cluster)
    requires GuardsGate(rule) && IsRun(rule, all, INITIAL, steps, end)
    ensures GateIsSound(sync, all, end)
  {
    InvRun(rule, all, INITIAL, steps, end);
  }

  // ---------------------------------------------------------------------------------------------------
  // One run at a time: only late writes do harm

  /** LATEST is written by a node that is no longer the one elected last, or is about to be overtaken. */
  ghost predicate LateLatest(all: seq<Node>, s: Cluster, step: Step, n: Node) {
    step == WriteLatest(n) && (s.elected != Some(n) || Outdone(all, s, n))
  }

  ghost predicate LateControl(all: seq<Node>, s: Cluster, step: Step, n: Node)
    requires Possible(all, s, step)
  {
    step.Control? && step.n != n && Target(all, s, step) == n && (s.elected != Some(step.n) || Outdone(all, s, n))
  }

  predicate WrittenIn(all: seq<Node>, s: Cluster, steps: seq<Step>, n: Node)
    decreases steps
  {
    && steps != [] && Possible(all, s, steps[0])
    && (Writes(all, s, steps[0], n) || WrittenIn(all, Apply(all, s, steps[0]), steps[1..], n))
  }

  /** The steps hold a late write of n's status, of LATEST or, if asked for, of slave control too, and n's status is
      not written afterwards. */
  ghost predicate LateStands(all: seq<Node>, s: Cluster, steps: seq<Step>, n: Node, control: bool)
    decreases steps
  {
    && steps != [] && Possible(all, s, steps[0])
    && var t := Apply(all, s, steps[0]);
       || ((LateLatest(all, s, steps[0], n) || (control && LateControl(all, s, steps[0], n)))
           && !WrittenIn(all, t, steps[1..], n))
       || LateStands(all, t, steps[1..], n, control)
  }

  /** As long as n is not outdone and its status not written, no node but n itself becomes primary. */
  lemma UnwrittenStep(rule: Rule, all: seq<Node>, s: Cluster, step: Step, n: Node)
    requires n in all && Enabled(rule, all, s, step) && !Outdone(all, s, n) && !Writes(all, s, step, n)
    ensures var t := Apply(all, s, step);
      && !Outdone(all, t, n)
      && (t.elected == Some(n) || (t.elected == s.elected && t.term == s.term))
      && Status(t, n) == Status(s, n) && WriterOf(t, n) == WriterOf(s, n)
  {
    StatusChange(all, s, step, n);
    if Outdone(all, Apply(all, s, step), n) {
      OutdoneOrigin(all, s, step, n);
    }
    if step.BecomePrimary? && step.n != n {
      OvertakenIsOutdone(all, s, step.n, n);
    }
  }

  lemma {:induction false} Unwritten(rule: Rule, all: seq<Node>, s: Cluster, steps: seq<Step>, end: Cluster, n: Node)
    requires n in all && IsRun(rule, all, s, steps, end) && !Outdone(all, s, n) && !WrittenIn(all, s, steps, n)
    ensures end.elected == Some(n) || (end.elected == s.elected && end.term == s.term)
    ensures Status(end, n) == Status(s, n) && WriterOf(end, n) == WriterOf(s, n)
    decreases steps
  {
    if steps != [] {
      UnwrittenStep(rule, all, s, steps[0], n);
      Unwritten(rule, all, Apply(all, s, steps[0]), steps[1..], end, n);
    }
  }

  lemma {:induction false} UnwrittenStatus(rule: Rule, all: seq<Node>, s: Cluster, steps: seq<Step>, end: Cluster,
                                           n: Node)
    requires IsRun(rule, all, s, steps, end) && !WrittenIn(all, s, steps, n)
    ensures Status(end, n) == Status(s, n)
    decreases steps
  {
    if steps != [] {
      StatusChange(all, s, steps[0], n);
      UnwrittenStatus(rule, all, Apply(all, s, steps[0]), steps[1..], end, n);
    }
  }

  lemma {:induction false} StandingIsLatest(rule: Rule, all: seq<Node>, s: Cluster, steps: seq<Step>, end: Cluster,
                                            n: Node)
    requires IsRun(rule, all, s, steps, end) && LateStands(all, s, steps, n, false)
    ensures Status(end, n) == "LATEST"
    decreases steps
  {
    var t := Apply(all, s, steps[0]);
    if LateLatest(all, s, steps[0], n) && !WrittenIn(all, t, steps[1..], n) {
      UnwrittenStatus(rule, all, t, steps[1..], end, n);
    } else {
      StandingIsLatest(rule, all, t, steps[1..], end, n);
    }
  }

  /** n is LATEST at the end without having been elected last: its status is from a late write, or from before. */
  lemma {:induction false} LatestIsLate(rule: Rule, all: seq<Node>, s: Cluster, steps: seq<Step>, end: Cluster, n: Node)
    requires n in all && IsRun(rule, all, s, steps, end)
    requires Status(end, n) == "LATEST" && end.elected != Some(n)
    ensures LateStands(all, s, steps, n, false) || (Status(s, n) == "LATEST" && !WrittenIn(all, s, steps, n))
    decreases steps
  {
    if steps != [] {
      var t := Apply(all, s, steps[0]);
      LatestIsLate(rule, all, t, steps[1..], end, n);
      StatusChange(all, s, steps[0], n);
      if steps[0] == WriteLatest(n) && !LateLatest(all, s, steps[0], n) {
        TimelyWrite(all, s, n);
        if !WrittenIn(all, t, steps[1..], n) {
          Unwritten(rule, all, t, steps[1..], end, n);
        }
      }
    }
  }

  lemma TimelyWrite(all: seq<Node>, s: Cluster, n: Node)
    requires Possible(all, s, WriteLatest(n)) && !LateLatest(all, s, WriteLatest(n), n)
    ensures var t := Apply(all, s, WriteLatest(n)); t.elected == Some(n) && !Outdone(all, t, n)
  {
    if Outdone(all, Apply(all, s, WriteLatest(n)), n) {
      OutdoneByWrite(all, s, WriteLatest(n), n);
    }
  }

  /** In any run with a single running primary at a time, a node other than the one elected last ends as LATEST if
      and only if the run holds a late write of it that nothing overwrites. */
  lemma LatestElsewhere(all: seq<Node>, steps: seq<Step>, end: Cluster, n: Node)
    requires IsRun(ONE_PRIMARY, all, INITIAL, steps, end) && n in all && end.elected != Some(n)
    ensures Status(end, n) == "LATEST" <==> LateStands(all, INITIAL, steps, n, false)
  {
    if Status(end, n) == "LATEST" {
      LatestIsLate(ONE_PRIMARY, all, INITIAL, steps, end, n);
    }
    if LateStands(all, INITIAL, steps, n, false) {
      StandingIsLatest(ONE_PRIMARY, all, INITIAL, steps, end, n);
    }
  }

  /** So two nodes end as LATEST if and only if one of them owes it to such a write. */
  lemma TwoLatestNeedLateWrite(all: seq<Node>, steps: seq<Step>, end: Cluster)
    requires IsRun(ONE_PRIMARY, all, INITIAL, steps, end)
    ensures !OneLatest(all, end) <==>
      exists m, n :: m in all && n in all && m != n && Status(end, m) == "LATEST"
        && end.elected != Some(n) && LateStands(all, INITIAL, steps, n, false)
  {
    forall n | n in all && end.elected != Some(n)
      ensures Status(end, n) == "LATEST" <==> LateStands(all, INITIAL, steps, n, false)
    {
      LatestElsewhere(all, steps, end, n);
    }
  }

  /** Nodes that were overtaken, or will be, have a status. */
  ghost predicate HasStatus(all: seq<Node>, s: Cluster, n: Node) {
    Outdone(all, s, n) || (s.elected.Some? && s.elected != Some(n)) ==> Status(s, n) != ""
  }

  lemma {:induction false} UnsoundIsLate(sync: bool, rule: Rule, all: seq<Node>, s: Cluster, steps: seq<Step>,
                                         end: Cluster, n: Node)
    requires n in all && IsRun(rule, all, s, steps, end) && HasStatus(all, s, n) && !SoundAt(sync, end, n)
    ensures LateStands(all, s, steps, n, true) || !WrittenIn(all, s, steps, n)
    decreases steps
  {
    if steps != [] {
      var step, t, rest := steps[0], Apply(all, s, steps[0]), steps[1..];
      HasStatusStays(all, s, step, n);
      UnsoundIsLate(sync, rule, all, t, rest, end, n);
      if Writes(all, s, step, n) && !WrittenIn(all, t, rest, n) {
        LastWrite(sync, rule, all, s, step, rest, end, n);
      }
    }
  }

  lemma HasStatusStays(all: seq<Node>, s: Cluster, step: Step, n: Node)
    requires n in all && Possible(all, s, step) && HasStatus(all, s, n)
    ensures HasStatus(all, Apply(all, s, step), n)
  {
    StatusChange(all, s, step, n);
    if Outdone(all, Apply(all, s, step), n) {
      OutdoneOrigin(all, s, step, n);
    }
    if step.BecomePrimary? && step.n != n {
      OvertakenIsOutdone(all, s, step.n, n);
    }
  }

  /** The last write of a status that is not sound at the end is a late one. */
  lemma LastWrite(sync: bool, rule: Rule, all: seq<Node>, s: Cluster, step: Step, rest: seq<Step>, end: Cluster,
                  n: Node)
    requires n in all && Enabled(rule, all, s, step) && Writes(all, s, step, n) && !SoundAt(sync, end, n)
    requires IsRun(rule, all, Apply(all, s, step), rest, end) && !WrittenIn(all, Apply(all, s, step), rest, n)
    ensures LateLatest(all, s, step, n) || LateControl(all, s, step, n)
  {
    var t := Apply(all, s, step);
    StatusChange(all, s, step, n);
    UnwrittenStatus(rule, all, t, rest, end, n);
    if !LateLatest(all, s, step, n) && !LateControl(all, s, step, n) && (step.WriteLatest? || step.Control?) {
      if Outdone(all, t, n) {
        OutdoneByWrite(all, s, step, n);
      }
      Unwritten(rule, all, t, rest, end, n);
    }
  }

  /** In either mode, in any run with a single running primary at a time, a node that passes the gate at the end, not
      being the one elected last nor vouched for by it, owes that to a late write. */
  lemma UnsoundGateNeedsLateWrite(sync: bool, all: seq<Node>, steps: seq<Step>, end: Cluster, n: Node)
    requires IsRun(ONE_PRIMARY, all, INITIAL, steps, end) && n in all && !SoundAt(sync, end, n)
    ensures LateStands(all, INITIAL, steps, n, true)
  {
    UnsoundIsLate(sync, ONE_PRIMARY, all, INITIAL, steps, end, n);
    if !WrittenIn(all, INITIAL, steps, n) {
      Unwritten(ONE_PRIMARY, all, INITIAL, steps, end, n);
    }
  }

  // ---------------------------------------------------------------------------------------------------
  // Each guard is needed

  lemma {:induction false} Extend(rule: Rule, all: seq<Node>, s: Cluster, steps: seq<Step>, mid: Cluster, step: Step)
    requires IsRun(rule, all, s, steps, mid) && Enabled(rule, all, mid, step)
    ensures IsRun(rule, all, s, steps + [step], Apply(all, mid, step))
    decreases steps
  {
    if steps == [] {
      assert [step][1..] == [];
    } else {
      Extend(rule, all, Apply(all, s, steps[0]), steps[1..], mid, step);
      assert (steps + [step])[1..] == steps[1..] + [step];
    }
  }

  ghost predicate CanReach(rule: Rule, all: seq<Node>, s: Cluster) {
    exists steps :: IsRun(rule, all, INITIAL, steps, s)
  }

  lemma Then(rule: Rule, all: seq<Node>, s: Cluster, step: Step) returns (t: Cluster)
    requires CanReach(rule, all, s) && Enabled(rule, all, s, step)
    ensures CanReach(rule, all, t) && t == Apply(all, s, step)
  {
    var steps :| IsRun(rule, all, INITIAL, steps, s);
    Extend(rule, all, INITIAL, steps, s, step);
    t := Apply(all, s, step);
  }

  /** All other nodes are idle. */
  ghost predicate OnlyBetween(s: Cluster, a: Node, b: Node) {
    forall m :: m != a && m != b ==> OpOf(s, m) == Idle
  }

  /** A promotion's loop can always run to its end. */
  lemma {:induction false} Loop(rule: Rule, all: seq<Node>, s: Cluster, n: Node) returns (t: Cluster)
    requires rule.Guarded? && CanReach(rule, all, s) && n in all
    requires OpOf(s, n).Promoting? && OpOf(s, n).done <= |all|
    ensures CanReach(rule, all, t) && SameRoles(s, t, n) && OpOf(t, n) == Promoting(|all|)
    decreases |all| - OpOf(s, n).done
  {
    t := s;
    if OpOf(s, n).done < |all| {
      t := Then(rule, all, t, Disconnect(n));
      t := Loop(rule, all, t, n);
    }
  }

  ghost predicate SameRoles(s: Cluster, t: Cluster, n: Node) {
    && t.primary == s.primary && t.elected == s.elected && t.term == s.term
    && forall m :: m != n ==> OpOf(t, m) == OpOf(s, m)
  }

  lemma Promote(rule: Rule, all: seq<Node>, s: Cluster, n: Node) returns (t: Cluster)
    requires rule.Guarded? && CanReach(rule, all, s) && n in all && !Leads(s, n)
    ensures CanReach(rule, all, t) && SameRoles(s, t, n) && OpOf(t, n) == Promoting(|all|)
  {
    t := Then(rule, all, s, StartPromote(n));
    t := Loop(rule, all, t, n);
  }

  /** Node a has been promoted, and its promotion has seen Postgres as primary. */
  lemma FirstPrimary(rule: Rule, all: seq<Node>, a: Node) returns (s: Cluster)
    requires rule.Guarded? && a in all
    ensures CanReach(rule, all, s) && OpOf(s, a) == Confirmed && OnlyBetween(s, a, a)
    ensures s.primary == Some(a) && s.elected == Some(a) && s.term == 1
  {
    assert IsRun(rule, all, INITIAL, [], INITIAL);
    s := Promote(rule, all, INITIAL, a);
    var promoted := s;
    s := Then(rule, all, s, BecomePrimary(a));
    s := Then(rule, all, s, SeePrimary(a));
    assert forall m :: m != a ==> OpOf(s, m) == OpOf(promoted, m);
  }

  lemma NotOutdone(all: seq<Node>, s: Cluster, a: Node, b: Node, n: Node)
    requires OnlyBetween(s, a, b) && !OpOf(s, a).Promoting? && !OpOf(s, b).Promoting?
    ensures !Outdone(all, s, n)
  {
  }

  /** A promotion of b that was let through to the end makes b primary and LATEST. */
  lemma Complete(rule: Rule, all: seq<Node>, s: Cluster, a: Node, b: Node) returns (t: Cluster)
    requires rule.Guarded? && CanReach(rule, all, s) && b in all && a != b && OnlyBetween(s, a, b)
    requires OpOf(s, b) == Promoting(|all|) && s.primary == None && !OpOf(s, a).Promoting?
    ensures CanReach(rule, all, t) && Status(t, b) == "LATEST" && t.elected == Some(b)
    ensures OpOf(t, a) == OpOf(s, a) && OpOf(t, b) == Idle && OnlyBetween(t, a, b)
    ensures forall m :: m != b ==> Status(t, m) == Status(s, m) && WriterOf(t, m) == WriterOf(s, m)
  {
    t := Then(rule, all, s, BecomePrimary(b));
    t := Then(rule, all, t, SeePrimary(b));
    assert forall m :: m != b ==> OpOf(t, m) == OpOf(s, m);
    NotOutdone(all, t, a, b, b);
    t := Then(rule, all, t, WriteLatest(b));
    assert forall m :: m != b ==> OpOf(t, m) == OpOf(s, m);
  }

  /** Postgres of a stops in the middle of a's operation, and b is promoted from start to end. */
  lemma Succeed(rule: Rule, all: seq<Node>, s: Cluster, a: Node, b: Node) returns (t: Cluster)
    requires rule.Guarded? && CanReach(rule, all, s) && a in all && b in all && a != b && OnlyBetween(s, a, a)
    requires s.primary == Some(a) && !OpOf(s, a).Promoting?
    ensures CanReach(rule, all, t) && Status(t, b) == "LATEST" && t.elected == Some(b)
    ensures OpOf(t, a) == OpOf(s, a) && OpOf(t, b) == Idle && OnlyBetween(t, a, b)
  {
    t := Then(rule, all, s, PostgresStops(a));
    assert forall m :: OpOf(t, m) == OpOf(s, m);
    var stopped := t;
    t := Promote(rule, all, t, b);
    assert forall m :: m != b ==> OpOf(t, m) == OpOf(stopped, m);
    t := Complete(rule, all, t, a, b);
  }

  /** A promotion of b begins while a is primary. */
  lemma Overlap(rule: Rule, all: seq<Node>, s: Cluster, a: Node, b: Node) returns (t: Cluster)
    requires rule.Guarded? && CanReach(rule, all, s) && a in all && b in all && a != b && OnlyBetween(s, a, a)
    requires s.primary == Some(a)
    ensures CanReach(rule, all, t) && SameRoles(s, t, b) && OpOf(t, b) == Promoting(|all|) && OnlyBetween(t, a, b)
  {
    assert OpOf(s, b) == Idle;
    t := Promote(rule, all, s, b);
    assert forall m :: m != b ==> OpOf(t, m) == OpOf(s, m);
  }

  /** Nobody minds that the writer is no longer the one elected last: Postgres of node a dies when a's promotion has
      just seen it as primary, b is promoted, and then a's script goes on to write LATEST. */
  lemma DeadScriptMakesTwoLatest(rule: Rule, all: seq<Node>, a: Node, b: Node) returns (s: Cluster)
    requires rule.Guarded? && !rule.latestElected && a != b && a in all && b in all
    ensures CanReach(rule, all, s) && s.elected == Some(b)
    ensures Status(s, a) == "LATEST" && Status(s, b) == "LATEST"
  {
    s := FirstPrimary(rule, all, a);
    s := Succeed(rule, all, s, a, b);
    NotOutdone(all, s, a, b, a);
    s := Then(rule, all, s, WriteLatest(a));
  }

  /** Nobody minds a promotion under way: node b begins its promotion, and disconnects a, before a's own promotion
      writes LATEST; then Postgres of a stops, b becomes primary and LATEST too. */
  lemma OverlappingPromotionMakesTwoLatest(rule: Rule, all: seq<Node>, a: Node, b: Node) returns (s: Cluster)
    requires rule.Guarded? && !rule.latestNotOutdone && a != b && a in all && b in all
    ensures CanReach(rule, all, s) && s.elected == Some(b)
    ensures Status(s, a) == "LATEST" && Status(s, b) == "LATEST"
  {
    s := FirstPrimary(rule, all, a);
    s := Overlap(rule, all, s, a, b);
    var overlapping := s;
    s := Then(rule, all, s, WriteLatest(a));
    s := Then(rule, all, s, PostgresStops(a));
    assert forall m :: m != a ==> OpOf(s, m) == OpOf(overlapping, m);
    s := Complete(rule, all, s, a, b);
  }

  ghost predicate AlwaysOneLatest(rule: Rule, all: seq<Node>) {
    forall s :: CanReach(rule, all, s) ==> OneLatest(all, s)
  }

  /** In every cluster of two nodes or more, LATEST is unique on all runs if and only if both of its guards are kept,
      or promotions are ordered. The guards of slave control do not help. */
  lemma RuleDecidesOneLatest(rule: Rule, all: seq<Node>, a: Node, b: Node)
    requires a != b && a in all && b in all
    ensures AlwaysOneLatest(rule, all) <==> GuardsLatest(rule)
  {
    if GuardsLatest(rule) {
      forall s | CanReach(rule, all, s)
        ensures OneLatest(all, s)
      {
        var steps :| IsRun(rule, all, INITIAL, steps, s);
        AtMostOneLatest(rule, all, steps, s);
      }
    } else {
      var s := TwoLatest(rule, all, a, b);
    }
  }

  lemma TwoLatest(rule: Rule, all: seq<Node>, a: Node, b: Node) returns (s: Cluster)
    requires !GuardsLatest(rule) && a != b && a in all && b in all
    ensures CanReach(rule, all, s) && !OneLatest(all, s) && forall sync :: !SoundAt(sync, s, a)
  {
    if rule.latestElected {
      s := OverlappingPromotionMakesTwoLatest(rule, all, a, b);
    } else {
      s := DeadScriptMakesTwoLatest(rule, all, a, b);
    }
  }

  /** Slave control goes on until it has written the status of node k. */
  lemma {:induction false} ControlUpTo(rule: Rule, all: seq<Node>, s: Cluster, n: Node, k: nat) returns (t: Cluster)
    requires rule.Guarded? && CanReach(rule, all, s) && n in all
    requires OpOf(s, n).Controlling? && OpOf(s, n).done <= k < |all| && all[k] != n
    requires rule.controlElected ==> s.elected == Some(n)
    requires rule.controlNotOutdone ==> forall m :: m in all ==> !OpOf(s, m).Promoting?
    ensures CanReach(rule, all, t) && SameRoles(s, t, n)
    ensures Status(t, all[k]) == SlaveControl.StatusOf(OpOf(s, n).rows, all[k])
    ensures WriterOf(t, all[k]) == Writer.SlaveControl(n, s.term)
    decreases k - OpOf(s, n).done
  {
    t := Then(rule, all, s, Control(n));
    if OpOf(s, n).done < k {
      assert forall m :: m != n ==> OpOf(t, m) == OpOf(s, m);
      t := ControlUpTo(rule, all, t, n, k);
    }
  }

  lemma SyncText(row: SlaveControl.Row)
    requires row.state == "STREAMING" && row.syncState == "SYNC"
    ensures SlaveControl.StatusOf([row], row.name) == "STREAMING|SYNC"
  {
    assert "STREAMING" + "|" + "SYNC" == "STREAMING|SYNC";
  }

  /** Node a has been promoted, and its monitor is about to write what it has read: c streams synchronously. */
  lemma FirstControl(rule: Rule, all: seq<Node>, a: Node, c: Node) returns (s: Cluster)
    requires rule.Guarded? && a in all
    ensures CanReach(rule, all, s) && OnlyBetween(s, a, a)
    ensures OpOf(s, a) == Controlling(0, [SlaveControl.Row(c, "STREAMING", "SYNC")])
    ensures s.primary == Some(a) && s.elected == Some(a) && s.term == 1
  {
    s := FirstPrimary(rule, all, a);
    var first := s;
    s := Then(rule, all, s, Abandon(a));
    s := Then(rule, all, s, SeePrimary(a));
    assert forall m :: m != a ==> OpOf(s, m) == OpOf(first, m);
    NotOutdone(all, s, a, a, a);
    s := Then(rule, all, s, WriteLatest(a));
    s := Then(rule, all, s, ReadRows(a, [SlaveControl.Row(c, "STREAMING", "SYNC")]));
    assert forall m :: m != a ==> OpOf(s, m) == OpOf(first, m);
  }

  /** Nobody minds that slave control belongs to a node no longer elected last: Postgres of a dies, b is promoted,
      and then a's slave control goes on to write c, which passes the gate on a's word. */
  lemma DeadControlPassesGate(rule: Rule, all: seq<Node>, a: Node, b: Node, c: Node) returns (s: Cluster)
    requires rule.Guarded? && !rule.controlElected
    requires a != b && a != c && b != c && a in all && b in all && c in all
    ensures CanReach(rule, all, s) && s.elected == Some(b)
    ensures Status(s, c) == "STREAMING|SYNC" && WriterOf(s, c).SlaveControl? && WriterOf(s, c).who == a
  {
    SyncText(SlaveControl.Row(c, "STREAMING", "SYNC"));
    var k :| 0 <= k < |all| && all[k] == c;
    s := FirstControl(rule, all, a, c);
    s := Succeed(rule, all, s, a, b);
    s := ControlUpTo(rule, all, s, a, k);
  }

  /** Nobody minds a promotion under way: b disconnects c, a's slave control writes c again, Postgres of a stops, and
      b becomes primary. */
  lemma LateControlPassesGate(rule: Rule, all: seq<Node>, a: Node, b: Node, c: Node) returns (s: Cluster)
    requires rule.Guarded? && !rule.controlNotOutdone
    requires a != b && a != c && b != c && a in all && b in all && c in all
    ensures CanReach(rule, all, s) && s.elected == Some(b)
    ensures Status(s, c) == "STREAMING|SYNC" && WriterOf(s, c).SlaveControl? && WriterOf(s, c).who == a
  {
    SyncText(SlaveControl.Row(c, "STREAMING", "SYNC"));
    var k :| 0 <= k < |all| && all[k] == c;
    s := FirstControl(rule, all, a, c);
    s := Overlap(rule, all, s, a, b);
    s := ControlUpTo(rule, all, s, a, k);
    s := Then(rule, all, s, PostgresStops(a));
    s := Then(rule, all, s, BecomePrimary(b));
  }

  ghost predicate AlwaysSoundGate(sync: bool, rule: Rule, all: seq<Node>) {
    forall s :: CanReach(rule, all, s) ==> GateIsSound(sync, all, s)
  }

  /** In either mode, in every cluster of three nodes or more, the gate is sound on all runs if and only if all four
      guards are kept, or promotions are ordered. */
  lemma RuleDecidesGate(sync: bool, rule: Rule, all: seq<Node>, a: Node, b: Node, c: Node)
    requires a != b && a != c && b != c && a in all && b in all && c in all
    ensures AlwaysSoundGate(sync, rule, all) <==> GuardsGate(rule)
  {
    if GuardsGate(rule) {
      forall s | CanReach(rule, all, s)
        ensures GateIsSound(sync, all, s)
      {
        var steps :| IsRun(rule, all, INITIAL, steps, s);
        GateAdmitsOnlyStreamers(sync, rule, all, steps, s);
      }
    } else {
      var s, n := UnsoundGate(sync, rule, all, a, b, c);
    }
  }

  lemma UnsoundGate(sync: bool, rule: Rule, all: seq<Node>, a: Node, b: Node, c: Node) returns (s: Cluster, n: Node)
    requires !GuardsGate(rule) && a != b && a != c && b != c && a in all && b in all && c in all
    ensures CanReach(rule, all, s) && n in all && !SoundAt(sync, s, n)
  {
    if !GuardsLatest(rule) {
      n := a;
      s := TwoLatest(rule, all, a, b);
    } else {
      n := c;
      if rule.controlElected {
        s := LateControlPassesGate(rule, all, a, b, c);
      } else {
        s := DeadControlPassesGate(rule, all, a, b, c);
      }
    }
  }
}
