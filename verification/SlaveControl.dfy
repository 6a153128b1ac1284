/** control_slave_status and pgsql_promote of docker/postgres-member/resource_agents/pgsql: what a primary writes
    about the other nodes. Cluster attribute writes succeed. */
module SlaveControl {
  import opened Base
  import opened StandbyList
  import P = StandbyPatterns

  /** One line of pg_stat_replication: application name, upper-case state, upper-case sync state. */
  datatype Row = Row(name: string, state: string, syncState: string)

  const CAN_NOT_PROMOTE := "-INFINITY"
  const CAN_PROMOTE := "100"

  function StatusText(row: Row): string {
    row.state + "|" + row.syncState
  }

  /** The first row of the target decides; a node without a row is disconnected. */
  function StatusOf(rows: seq<Row>, target: string): string {
    if rows == [] then "DISCONNECT"
    else if rows[0].name == target then StatusText(rows[0])
    else StatusOf(rows[1..], target)
  }

  lemma {:induction false} StatusOfRow(rows: seq<Row>, target: string, k: nat)
    requires forall i :: 0 <= i < k && i < |rows| ==> rows[i].name != target
    requires k == |rows| || (k < |rows| && rows[k].name == target)
    ensures StatusOf(rows, target) == if k < |rows| then StatusText(rows[k]) else "DISCONNECT"
  {
    if k > 0 {
      StatusOfRow(rows[1..], target, k - 1);
    }
  }

  /** A status with its separating bar is never LATEST: slave control cannot name a second latest node. */
  lemma {:induction false} StatusIsNeverLatest(rows: seq<Row>, target: string)
    ensures StatusOf(rows, target) != "LATEST"
  {
    if rows != [] {
      if rows[0].name == target {
        var s := StatusText(rows[0]);
        assert s[|rows[0].state|] == '|';
        assert '|' !in "LATEST";
      } else {
        StatusIsNeverLatest(rows[1..], target);
      }
    }
  }

  lemma {:induction false} StatusIsNeverEmpty(rows: seq<Row>, target: string)
    ensures StatusOf(rows, target) != ""
  {
    if rows != [] && rows[0].name != target {
      StatusIsNeverEmpty(rows[1..], target);
    }
  }

  // ---------------------------------------------------------------------------------------------------
  // The specification of a pass, target by target

  /** What the case statement does to the standby list in sync mode. */
  function Edited(l: seq<string>, target: string, status: string): seq<string> {
    if status == "STREAMING|SYNC" || status == "STREAMING|POTENTIAL" then l
    else if status == "STREAMING|ASYNC" then if target in l then l else l + [target]
    else Without(l, target)
  }

  function Pass(l: seq<string>, targets: seq<string>, me: string, rows: seq<Row>): seq<string> {
    if targets == [] then l
    else
      var n := |targets| - 1;
      var before := Pass(l, targets[..n], me, rows);
      if targets[n] == me then before else Edited(before, targets[n], StatusOf(rows, targets[n]))
  }

  function ScoreFor(sync: bool, nodes: nat, status: string): string {
    if status == "STREAMING|SYNC" then CAN_PROMOTE
    else if status == "STREAMING|ASYNC" && !sync && nodes <= 2 then CAN_PROMOTE
    else CAN_NOT_PROMOTE
  }

  /** The two attributes that a pass writes, and their values. */
  datatype Attribute = DataStatus(rows: seq<Row>) | MasterScore(rows: seq<Row>, sync: bool, nodes: nat) {
    function For(target: string): string {
      var status := StatusOf(rows, target);
      if DataStatus? then status else ScoreFor(sync, nodes, status)
    }
  }

  function Names(l: seq<string>): set<string> {
    set name | name in l
  }

  /** An attribute map after each target other than me, if it is in `scope`, got its value. */
  function Written(m: map<string, string>, targets: seq<string>, me: string, scope: set<string>,
                   a: Attribute): map<string, string>
  {
    if targets == [] then m
    else
      var n := |targets| - 1;
      var before := Written(m, targets[..n], me, scope, a);
      if targets[n] != me && targets[n] in scope then before[targets[n] := a.For(targets[n])] else before
  }

  lemma {:induction false} WrittenAt(m: map<string, string>, targets: seq<string>, me: string, scope: set<string>,
                                     a: Attribute, node: string)
    ensures var after := Written(m, targets, me, scope, a);
      if node in targets && node != me && node in scope then node in after && after[node] == a.For(node)
      else (node in after <==> node in m) && (node in m ==> after[node] == m[node])
  {
    if targets != [] {
      var n := |targets| - 1;
      WrittenAt(m, targets[..n], me, scope, a, node);
      assert node in targets <==> node in targets[..n] || node == targets[n];
    }
  }

  predicate Edits(l: seq<string>, nodes: seq<string>, me: string) {
    Distinct(l) && forall name :: name in l ==> name in nodes && name != me
  }

  /** After a pass over all of NODE_LIST the list is still free of duplicates and of strangers; it has every
      asynchronous streamer, no disconnected node and none in any other state, and has not changed its mind
      about synchronous and potential ones. */
  lemma {:induction false} PassMembership(l: seq<string>, targets: seq<string>, nodes: seq<string>, me: string,
                                          rows: seq<Row>, node: string)
    requires Edits(l, nodes, me) && forall t :: t in targets ==> t in nodes
    ensures var after := Pass(l, targets, me, rows);
      && Edits(after, nodes, me)
      && (node in after <==>
            if node !in targets || node == me then node in l
            else match StatusOf(rows, node)
              case "STREAMING|ASYNC" => true
              case "STREAMING|SYNC" => node in l
              case "STREAMING|POTENTIAL" => node in l
              case _ => false)
  {
    if targets != [] {
      var n := |targets| - 1;
      assert targets[n] in targets && forall t :: t in targets[..n] ==> t in targets;
      PassMembership(l, targets[..n], nodes, me, rows, node);
      assert node in targets <==> node in targets[..n] || node == targets[n];
    }
  }

  // ---------------------------------------------------------------------------------------------------
  // The agent on one node

  class Agent {
    const me: string
    const nodeList: seq<string>
    const sync: bool
    var conf: string                          // the line of rep_mode.conf
    var dataStatus: map<string, string>       // the permanent attribute data-status of every node
    var scores: map<string, string>           // the master score of every node that has one
    ghost var standbys: seq<string>

    ghost predicate Valid()
      reads this
    {
      && P.Unmistakable(nodeList)
      && Edits(standbys, nodeList, me)
      && conf == Conf(Join(standbys))
    }

    /** set_async_mode_all, run before the first start. */
    constructor (me: string, nodeList: seq<string>, sync: bool, dataStatus: map<string, string>, scores: map<string,
                 string>)
      requires P.Unmistakable(nodeList)
      ensures Valid() && standbys == [] && conf == "synchronous_standby_names = ''"
      ensures this.me == me && this.nodeList == nodeList && this.sync == sync
      ensures this.dataStatus == dataStatus && this.scores == scores
    {
      this.me, this.nodeList, this.sync := me, nodeList, sync;
      this.dataStatus, this.scores := dataStatus, scores;
      conf, standbys := "synchronous_standby_names = ''", [];
    }

    method LookUp(rows: seq<Row>, target: string) returns (status: string)
      ensures status == StatusOf(rows, target)
    {
      status := "DISCONNECT";
      for k := 0 to |rows|
        invariant status == "DISCONNECT"
        invariant forall i :: 0 <= i < k ==> rows[i].name != target
      {
        if rows[k].name == target {
          status := StatusText(rows[k]);
          StatusOfRow(rows, target, k);
          return;
        }
      }
      StatusOfRow(rows, target, |rows|);
    }

    lemma RightAboutTarget(target: string)
      requires Valid() && target in nodeList
      ensures AreNames(standbys) && IsName(target) && P.RightAbout(standbys, target)
    {
      assert P.OnlyItself(standbys, target);
      P.OnlyItselfIsRight(standbys, target);
    }

    method EnterSyncMode(target: string)
      requires Valid() && target in nodeList && target != me
      modifies this`conf, this`standbys
      ensures Valid() && standbys == if target in old(standbys) then old(standbys) else old(standbys) + [target]
    {
      RightAboutTarget(target);
      if !IsSyncMode(conf, target) {
        SetSyncAppends(standbys, target);
        conf := SetSyncMode(conf, target);
        standbys := standbys + [target];
      }
    }

    method LeaveSyncMode(target: string)
      requires Valid() && target in nodeList && target != me
      modifies this`conf, this`standbys
      ensures Valid() && standbys == Without(old(standbys), target)
    {
      RightAboutTarget(target);
      if IsSyncMode(conf, target) {
        conf := SetAsyncMode(conf, target);
        standbys := Without(standbys, target);
      } else {
        WithoutAbsent(standbys, target);
      }
    }

    /** The case statement for one target, pgsql:986-1031. */
    method Record(target: string, status: string)
      requires Valid() && target in nodeList && target != me
      modifies this
      ensures Valid()
      ensures standbys == if sync then Edited(old(standbys), target, status) else old(standbys)
      ensures dataStatus == old(dataStatus)[target := status]
      ensures scores == if target in old(scores)
        then old(scores)[target := ScoreFor(sync, |nodeList|, status)] else old(scores)
    {
      dataStatus := dataStatus[target := status];
      var score := CAN_NOT_PROMOTE;
      match status {
        case "STREAMING|SYNC" =>
          score := CAN_PROMOTE;
        case "STREAMING|ASYNC" =>
          if sync {
            EnterSyncMode(target);
          } else if |nodeList| <= 2 {
            score := CAN_PROMOTE;
          }
        case "STREAMING|POTENTIAL" =>
        case _ =>
          if sync {
            LeaveSyncMode(target);
          }
      }
      if target in scores {
        scores := scores[target := score];
      }
    }

    /** pgsql:944-1034. `rows` is None when psql fails. */
    method ControlSlaveStatus(rows: Option<seq<Row>>) returns (rc: int)
      requires Valid()
      modifies this
      ensures Valid()
      ensures rc == (if rows.None? then 1 else 0)
      ensures standbys == if rows.Some? && sync then Pass(old(standbys), nodeList, me, rows.value) else old(standbys)
      ensures dataStatus == if rows.None? then old(dataStatus)
        else Written(old(dataStatus), nodeList, me, Names(nodeList), DataStatus(rows.value))
      ensures scores == if rows.None? then old(scores)
        else Written(old(scores), nodeList, me, old(scores).Keys, MasterScore(rows.value, sync, |nodeList|))
    {
      if rows.None? {
        return 1;
      }
      ghost var statuses := DataStatus(rows.value);
      ghost var wanted := MasterScore(rows.value, sync, |nodeList|);
      for i := 0 to |nodeList|
        invariant Valid()
        invariant standbys == if sync then Pass(old(standbys), nodeList[..i], me, rows.value) else old(standbys)
        invariant dataStatus == Written(old(dataStatus), nodeList[..i], me, Names(nodeList), statuses)
        invariant scores == Written(old(scores), nodeList[..i], me, old(scores).Keys, wanted)
      {
        var target := nodeList[i];
        assert nodeList[..i + 1][..i] == nodeList[..i];
        if target == me {
          continue;
        }
        WrittenAt(old(scores), nodeList[..i], me, old(scores).Keys, wanted, target);
        var status := LookUp(rows.value, target);
        Record(target, status);
      }
      assert nodeList[..|nodeList|] == nodeList;
      return 0;
    }
  }

  lemma {:induction false} WithoutAbsent(l: seq<string>, x: string)
    requires x !in l
    ensures Without(l, x) == l
  {
    if l != [] {
      WithoutAbsent(l[1..], x);
    }
  }

  /** A pass leaves promotable exactly the nodes that stream synchronously and, in async mode with at most two
      nodes, the one that streams asynchronously. */
  lemma PassPromotes(scores: map<string, string>, nodes: seq<string>, me: string, rows: seq<Row>, sync: bool,
                     node: string)
    requires node in nodes && node != me && node in scores
    ensures var after := Written(scores, nodes, me, scores.Keys, MasterScore(rows, sync, |nodes|));
      var status := StatusOf(rows, node);
      node in after && (after[node] == CAN_PROMOTE <==>
        status == "STREAMING|SYNC" || (status == "STREAMING|ASYNC" && !sync && |nodes| <= 2))
  {
    WrittenAt(scores, nodes, me, scores.Keys, MasterScore(rows, sync, |nodes|), node);
  }

  /** With three nodes or more, and in sync mode with any number, only synchronous streamers are promotable. */
  lemma PassPromotesSyncOnly(scores: map<string, string>, nodes: seq<string>, me: string, rows: seq<Row>, sync: bool,
                             node: string)
    requires node in nodes && node != me && node in scores && (sync || |nodes| >= 3)
    ensures var after := Written(scores, nodes, me, scores.Keys, MasterScore(rows, sync, |nodes|));
      node in after && (after[node] == CAN_PROMOTE <==> StatusOf(rows, node) == "STREAMING|SYNC")
  {
    PassPromotes(scores, nodes, me, rows, sync, node);
  }
}
