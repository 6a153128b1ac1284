/** The data-status attribute when all goes well: from any moment at which nobody leads, any node can be promoted and
    record the others, under every rule. And what a schedule of the cluster looks like, by its steps alone. */
module DataStatusReigns {
  import opened Base
  import opened DataStatus
  import SlaveControl

  // ---------------------------------------------------------------------------------------------------
  // One reign after the other

  /** No operation is under way and no Postgres runs as primary. */
  ghost predicate Vacant(s: Cluster) {
    s.primary == None && AllIdle(s)
  }

  ghost predicate AllIdle(s: Cluster) {
    forall m :: OpOf(s, m) == Idle
  }

  ghost predicate OnlyBusy(s: Cluster, n: Node) {
    forall m :: m != n ==> OpOf(s, m) == Idle
  }

  lemma OthersStay(all: seq<Node>, s: Cluster, step: Step)
    requires Possible(all, s, step)
    ensures forall m :: m != step.n ==> OpOf(Apply(all, s, step), m) == OpOf(s, m)
    ensures step.PostgresStops? ==> forall m :: OpOf(Apply(all, s, step), m) == OpOf(s, m)
  {
  }

  /** One more step of node n, which is the only one at work. */
  lemma Go(rule: Rule, all: seq<Node>, s: Cluster, step: Step) returns (t: Cluster)
    requires CanReach(rule, all, s) && Enabled(rule, all, s, step) && OnlyBusy(s, step.n)
    ensures CanReach(rule, all, t) && t == Apply(all, s, step) && OnlyBusy(t, step.n)
    ensures OpOf(t, step.n) == Idle ==> AllIdle(t)
  {
    t := Then(rule, all, s, step);
    OthersStay(all, s, step);
  }

  /** From index k on, the nodes other than n have the status that value gives them; no node has any other new one. */
  ghost predicate WrittenFrom(all: seq<Node>, s: Cluster, t: Cluster, n: Node, k: nat, value: Node -> string) {
    && (forall j :: k <= j < |all| && all[j] != n ==> Status(t, all[j]) == value(all[j]))
    && (forall m :: Status(t, m) == Status(s, m) || Status(t, m) == value(m))
    && Status(t, n) == Status(s, n)
  }

  /** One write, and those that come after it. */
  lemma WriteFirst(all: seq<Node>, s: Cluster, mid: Cluster, t: Cluster, n: Node, k: nat, value: Node -> string)
    requires k < |all| && WrittenFrom(all, mid, t, n, k + 1, value)
    requires forall m :: Status(mid, m) == if m == all[k] && m != n then value(m) else Status(s, m)
    ensures WrittenFrom(all, s, t, n, k, value)
  {
    assert all[k] != n ==> Status(mid, all[k]) == value(all[k]);
  }

  function Disconnected(n: Node): string {
    "DISCONNECT"
  }

  lemma {:induction false} DisconnectAll(rule: Rule, all: seq<Node>, s: Cluster, n: Node) returns (t: Cluster)
    requires CanReach(rule, all, s) && n in all && OpOf(s, n).Promoting? && OpOf(s, n).done <= |all|
    ensures CanReach(rule, all, t) && SameRoles(s, t, n) && OpOf(t, n) == Promoting(|all|)
    ensures WrittenFrom(all, s, t, n, OpOf(s, n).done, Disconnected)
    decreases |all| - OpOf(s, n).done
  {
    t := s;
    if OpOf(s, n).done < |all| {
      var next := Then(rule, all, s, Disconnect(n));
      t := DisconnectAll(rule, all, next, n);
      WriteFirst(all, s, next, t, n, OpOf(s, n).done, Disconnected);
    }
  }

  function Recorded(rows: seq<SlaveControl.Row>): Node -> string {
    (m: Node) => SlaveControl.StatusOf(rows, m)
  }

  lemma NobodyIsOutdone(all: seq<Node>, s: Cluster, n: Node, m: Node)
    requires OnlyBusy(s, n) && !OpOf(s, n).Promoting?
    ensures !Outdone(all, s, m)
  {
  }

  /** Slave control writes the nodes from the next one on. */
  lemma {:induction false} ControlAll(rule: Rule, all: seq<Node>, s: Cluster, n: Node) returns (t: Cluster)
    requires CanReach(rule, all, s) && n in all && OnlyBusy(s, n) && s.elected == Some(n)
    requires OpOf(s, n).Controlling? && OpOf(s, n).done < |all|
    ensures CanReach(rule, all, t) && SameRoles(s, t, n) && OpOf(t, n) == Idle
    ensures WrittenFrom(all, s, t, n, OpOf(s, n).done, Recorded(OpOf(s, n).rows))
    decreases |all| - OpOf(s, n).done
  {
    var k, rows := OpOf(s, n).done, OpOf(s, n).rows;
    NobodyIsOutdone(all, s, n, all[k]);
    var next := Go(rule, all, s, Control(n));
    t := next;
    if k + 1 < |all| {
      t := ControlAll(rule, all, next, n);
    }
    WriteFirst(all, s, next, t, n, k, Recorded(rows));
  }

  /** Node n is primary and LATEST, and busy with nothing. */
  ghost predicate Reigns(s: Cluster, n: Node) {
    s.primary == Some(n) && s.elected == Some(n) && Status(s, n) == "LATEST" && AllIdle(s)
  }

  /** A promotion makes the node LATEST and has disconnected all others. */
  lemma Crown(rule: Rule, all: seq<Node>, s: Cluster, n: Node) returns (t: Cluster)
    requires CanReach(rule, all, s) && Vacant(s) && n in all
    ensures CanReach(rule, all, t) && Reigns(t, n)
    ensures forall m :: m in all && m != n ==> Status(t, m) == "DISCONNECT"
  {
    t := Go(rule, all, s, StartPromote(n));
    t := DisconnectAll(rule, all, t, n);
    assert OnlyBusy(t, n);
    t := Go(rule, all, t, BecomePrimary(n));
    t := Go(rule, all, t, SeePrimary(n));
    NobodyIsOutdone(all, t, n, n);
    t := Go(rule, all, t, WriteLatest(n));
  }

  /** The primary's monitor records what Postgres says of the others. */
  lemma Record(rule: Rule, all: seq<Node>, s: Cluster, n: Node, rows: seq<SlaveControl.Row>) returns (t: Cluster)
    requires CanReach(rule, all, s) && Reigns(s, n) && n in all
    ensures CanReach(rule, all, t) && Reigns(t, n)
    ensures forall m :: m in all && m != n ==> Status(t, m) == SlaveControl.StatusOf(rows, m)
  {
    t := Go(rule, all, s, SeePrimary(n));
    NobodyIsOutdone(all, t, n, n);
    t := Go(rule, all, t, WriteLatest(n));
    t := Go(rule, all, t, ReadRows(n, rows));
    t := ControlAll(rule, all, t, n);
    assert OnlyBusy(t, n);
  }

  /** Under every rule, whenever nobody leads, any node can be promoted, disconnecting all others, and record them; and
      when its Postgres stops, nobody leads again, and the node itself can find its own data unfit. */
  lemma AnyNodeCanReign(rule: Rule, all: seq<Node>, s: Cluster, n: Node, rows: seq<SlaveControl.Row>)
    returns (crowned: Cluster, recorded: Cluster, after: Cluster)
    requires CanReach(rule, all, s) && Vacant(s) && n in all
    ensures CanReach(rule, all, crowned) && Reigns(crowned, n)
    ensures forall m :: m in all && m != n ==> Status(crowned, m) == "DISCONNECT"
    ensures CanReach(rule, all, recorded) && Reigns(recorded, n)
    ensures forall m :: m in all && m != n ==> Status(recorded, m) == SlaveControl.StatusOf(rows, m)
    ensures CanReach(rule, all, after) && Vacant(after) && forall m :: Status(after, m) == Status(recorded, m)
    ensures Enabled(rule, all, after, FindUnfit(n)) && !Enabled(rule, all, recorded, FindUnfit(n))
  {
    crowned := Crown(rule, all, s, n);
    recorded := Record(rule, all, crowned, n, rows);
    after := Go(rule, all, recorded, PostgresStops(n));
  }

  // ---------------------------------------------------------------------------------------------------
  // The steps of one node, and of the primaries

  /** By the steps alone: primaries take turns. */
  predicate TakeTurns(primary: Option<Node>, steps: seq<Step>)
    decreases steps
  {
    if steps == [] then true
    else
      match steps[0]
      case BecomePrimary(n) => primary == None && TakeTurns(Some(n), steps[1..])
      case PostgresStops(n) => primary == Some(n) && TakeTurns(None, steps[1..])
      case _ => TakeTurns(primary, steps[1..])
  }

  lemma {:induction false} PrimariesTakeTurns(rule: Rule, all: seq<Node>, s: Cluster, steps: seq<Step>, end: Cluster)
    requires IsRun(rule, all, s, steps, end)
    ensures TakeTurns(s.primary, steps)
    decreases steps
  {
    if steps != [] {
      PrimariesTakeTurns(rule, all, Apply(all, s, steps[0]), steps[1..], end);
    }
  }

  /** By the node's own steps alone, given whether its Postgres is primary: it does one thing at a time. It promotes
      Postgres when it has disconnected every node, writes LATEST after it has seen Postgres as primary, and once for
      that; slave control follows on a monitor's LATEST, and goes through the nodes once. */
  predicate InOrder(nodes: nat, op: Op, up: bool, n: Node, steps: seq<Step>)
    decreases steps
  {
    if steps == [] then true
    else if steps[0].n != n then InOrder(nodes, op, up, n, steps[1..])
    else
      match steps[0]
      case StartPromote(_) => op == Idle && !up && InOrder(nodes, Promoting(0), up, n, steps[1..])
      case Disconnect(_) =>
        op.Promoting? && op.done < nodes && InOrder(nodes, Promoting(op.done + 1), up, n, steps[1..])
      case BecomePrimary(_) => op == Promoting(nodes) && !up && InOrder(nodes, Promoted, true, n, steps[1..])
      case SeePrimary(_) =>
        && up && (op == Promoted || op == Idle)
        && InOrder(nodes, if op == Promoted then Confirmed else Monitored, up, n, steps[1..])
      case WriteLatest(_) =>
        && (op == Confirmed || op == Monitored)
        && InOrder(nodes, if op == Confirmed then Idle else Reading, up, n, steps[1..])
      case ReadRows(_, rows) => op == Reading && InOrder(nodes, Controlling(0, rows), up, n, steps[1..])
      case Control(_) =>
        && op.Controlling? && op.done < nodes
        && InOrder(nodes, if op.done + 1 < nodes then Controlling(op.done + 1, op.rows) else Idle, up, n, steps[1..])
      case Abandon(_) => op != Idle && InOrder(nodes, Idle, up, n, steps[1..])
      case PostgresStops(_) => up && InOrder(nodes, op, false, n, steps[1..])
      case FindUnfit(_) => op == Idle && !up && InOrder(nodes, op, up, n, steps[1..])
  }

  lemma {:induction false} OneAtATime(rule: Rule, all: seq<Node>, s: Cluster, steps: seq<Step>, end: Cluster, n: Node)
    requires IsRun(rule, all, s, steps, end)
    ensures InOrder(|all|, OpOf(s, n), s.primary == Some(n), n, steps)
    decreases steps
  {
    if steps != [] {
      OneAtATime(rule, all, Apply(all, s, steps[0]), steps[1..], end, n);
    }
  }
}
