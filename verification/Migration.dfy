/** The migrate step: pkg/failover/server.go:134-166 on the server, pkg/failover/failover.go:181-257 on the
    client, which waits until etcd shows the address that the server resolved. */
module Migration {
  import opened Base
  import Filters

  datatype Element = Element(uname: string, id: string)

  /** What pacemaker's commands answer: the query for the sync node (None: the query fails; Some(None): no such
      node), the address of a node id, and whether `crm resource migrate` to a host succeeds. */
  datatype Crm = Crm(sync: Option<Option<Element>>, resolve: string -> Option<string>, migrate: string -> bool)

  datatype Response = Migrated(to: string, address: string) | Unknown | NotFound

  /** The server's handler; `asked` is the host that pacemaker was told to migrate to, if it came to that. */
  method ServerMigrate(crm: Crm) returns (r: Response, asked: Option<string>)
    ensures r.Migrated? <==>
      && crm.sync.Some? && crm.sync.value.Some?
      && crm.resolve(crm.sync.value.value.id).Some? && crm.migrate(crm.sync.value.value.uname)
    ensures r.Migrated? ==>
      && asked == Some(r.to) && crm.sync == Some(Some(Element(r.to, crm.sync.value.value.id)))
      && crm.resolve(crm.sync.value.value.id) == Some(r.address)
    ensures r.NotFound? <==> crm.sync == Some(None)
    ensures asked.Some? <==> crm.sync.Some? && crm.sync.value.Some? && crm.resolve(crm.sync.value.value.id).Some?
  {
    asked := None;
    if crm.sync.None? {
      return Unknown, asked;
    }
    if crm.sync.value.None? {
      return NotFound, asked;
    }
    var sync := crm.sync.value.value;
    var address := crm.resolve(sync.id);
    if address.None? {
      return Unknown, asked;
    }
    asked := Some(sync.uname);
    if !crm.migrate(sync.uname) {
      return Unknown, asked;
    }
    return Migrated(sync.uname, address.value), asked;
  }

  datatype Channel =
    | Open                     // nothing sent
    | Blocked                  // sending for ever: the receiver has stopped listening
    | Closed                   // one value sent and received, then closed
    | Panicked                 // a second send, on the closed channel

  predicate Matches(kv: KV, hostKey: string, target: string) {
    kv.key == hostKey && kv.value == target
  }

  /** The goroutine's loop over what passes the filter. `listening`: the select of Migrate is still waiting when
      the goroutine first wants to send. */
  method Watch(kvs: seq<KV>, hostKey: string, target: string, listening: bool) returns (notify: Channel, sends: nat)
    ensures sends == if notify == Closed || notify == Panicked then 1 else 0
    ensures notify == Open <==> !SomeMatch(kvs, hostKey, target)
    ensures notify == Panicked <==> listening && TwoMatch(kvs, hostKey, target)
    ensures notify == Blocked <==> !listening && SomeMatch(kvs, hostKey, target)
    ensures notify == Closed ==> listening
  {
    notify, sends := Open, 0;
    ghost var first := 0;
    for i := 0 to |kvs|
      invariant sends == (if notify == Closed then 1 else 0)
      invariant notify == Open || (notify == Closed && listening)
      invariant notify == Open ==> NoMatch(kvs, i, hostKey, target)
      invariant notify == Closed ==> first < i && OnlyMatch(kvs, first, i, hostKey, target)
    {
      if Matches(kvs[i], hostKey, target) {
        if notify == Closed {
          notify := Panicked;
          return;
        }
        if !listening {
          notify := Blocked;
          return;
        }
        sends := sends + 1;
        notify := Closed;
        first := i;
      }
    }
  }

  /** All of NotifyWhenMaster, over everything its etcd stream delivers. */
  method NotifyWhenMaster(stream: seq<KV>, hostKey: string, target: string, listening: bool)
    returns (notify: Channel, sends: nat)
    ensures sends == if notify == Closed || notify == Panicked then 1 else 0
    ensures notify == Open <==> forall i: nat :: !Hit(stream, i, hostKey, target)
    ensures notify == Panicked <==> listening && MatchesTwice(stream, hostKey, target)
    ensures notify == Blocked <==> !listening && exists i: nat :: Hit(stream, i, hostKey, target)
    ensures notify == Closed ==> listening
  {
    var kvs := Filters.RevisionFilter(stream);
    FilteredMatches(stream, kvs, hostKey, target);
    notify, sends := Watch(kvs, hostKey, target, listening);
  }

  predicate NoMatch(kvs: seq<KV>, n: nat, hostKey: string, target: string)
    requires n <= |kvs|
  {
    forall j :: 0 <= j < n ==> !Matches(kvs[j], hostKey, target)
  }

  predicate OnlyMatch(kvs: seq<KV>, first: nat, n: nat, hostKey: string, target: string)
    requires first < n <= |kvs|
  {
    Matches(kvs[first], hostKey, target) && forall j :: 0 <= j < n && j != first ==> !Matches(kvs[j], hostKey, target)
  }

  ghost predicate SomeMatch(kvs: seq<KV>, hostKey: string, target: string) {
    exists i :: 0 <= i < |kvs| && Matches(kvs[i], hostKey, target)
  }

  ghost predicate TwoMatch(kvs: seq<KV>, hostKey: string, target: string) {
    exists i, j :: 0 <= i < j < |kvs| && Matches(kvs[i], hostKey, target) && Matches(kvs[j], hostKey, target)
  }

  /** Input i passes the revision filter and carries the target. */
  predicate Hit(stream: seq<KV>, i: nat, hostKey: string, target: string) {
    i < |stream| && Filters.IsRecord(stream, i) && Matches(stream[i], hostKey, target)
  }

  /** What the stream delivers next is a hit exactly if it is the target, at that key, at its newest revision so far. */
  lemma NextIsHit(stream: seq<KV>, kv: KV, hostKey: string, target: string)
    ensures Hit(stream + [kv], |stream|, hostKey, target)
      <==> kv.key == hostKey && kv.value == target && kv.rev > 0
           && forall x :: x in stream && x.key == hostKey ==> x.rev < kv.rev
  {
    var longer := stream + [kv];
    assert longer[|stream|] == kv && forall j :: 0 <= j < |stream| ==> longer[j] == stream[j];
  }

  /** The stream reaches the target value at two different, increasing revisions. */
  ghost predicate MatchesTwice(stream: seq<KV>, hostKey: string, target: string) {
    exists i: nat, j: nat :: i < j && Hit(stream, i, hostKey, target) && Hit(stream, j, hostKey, target)
  }

  /** kvs is what the filter makes of the stream, output k being its input at[k]. */
  ghost predicate LinesUp(stream: seq<KV>, kvs: seq<KV>, at: seq<nat>, hostKey: string, target: string) {
    && |at| == |kvs|
    && (forall k :: 0 <= k < |at| ==> (Matches(kvs[k], hostKey, target) <==> Hit(stream, at[k], hostKey, target)))
    && (forall j, k :: 0 <= j < k < |at| ==> at[j] < at[k])
    && (forall i: nat :: Hit(stream, i, hostKey, target) ==> i in at)
  }

  lemma RecordsLineUp(stream: seq<KV>, hostKey: string, target: string) returns (at: seq<nat>)
    ensures LinesUp(stream, Filters.Records(stream), at, hostKey, target)
  {
    at := Filters.RecordIndices(stream, |stream|);
    Filters.RecordsAreExactlyTheRecords(stream, |stream|);
    assert stream[..|stream|] == stream;
  }

  lemma SomeLinesUp(stream: seq<KV>, kvs: seq<KV>, at: seq<nat>, hostKey: string, target: string)
    requires LinesUp(stream, kvs, at, hostKey, target)
    ensures SomeMatch(kvs, hostKey, target) <==> exists i: nat :: Hit(stream, i, hostKey, target)
  {
    if i: nat :| Hit(stream, i, hostKey, target) {
      var p :| 0 <= p < |at| && at[p] == i;
      assert Matches(kvs[p], hostKey, target);
    }
  }

  lemma TwoLineUp(stream: seq<KV>, kvs: seq<KV>, at: seq<nat>, hostKey: string, target: string)
    requires LinesUp(stream, kvs, at, hostKey, target)
    ensures TwoMatch(kvs, hostKey, target) <==> MatchesTwice(stream, hostKey, target)
  {
    if i, j :| 0 <= i < j < |kvs| && Matches(kvs[i], hostKey, target) && Matches(kvs[j], hostKey, target) {
      assert Hit(stream, at[i], hostKey, target) && Hit(stream, at[j], hostKey, target) && at[i] < at[j];
    }
    if i: nat, j: nat :| i < j && Hit(stream, i, hostKey, target) && Hit(stream, j, hostKey, target) {
      var p :| 0 <= p < |at| && at[p] == i;
      var q :| 0 <= q < |at| && at[q] == j;
      assert p < q;
      assert Matches(kvs[p], hostKey, target) && Matches(kvs[q], hostKey, target);
    }
  }

  lemma FilteredMatches(stream: seq<KV>, kvs: seq<KV>, hostKey: string, target: string)
    requires kvs == Filters.Records(stream)
    ensures SomeMatch(kvs, hostKey, target) <==> exists i: nat :: Hit(stream, i, hostKey, target)
    ensures TwoMatch(kvs, hostKey, target) <==> MatchesTwice(stream, hostKey, target)
  {
    var at := RecordsLineUp(stream, hostKey, target);
    SomeLinesUp(stream, kvs, at, hostKey, target);
    TwoLineUp(stream, kvs, at, hostKey, target);
  }

  /** The target value stands at only one revision. */
  predicate OneRevision(stream: seq<KV>, hostKey: string, target: string) {
    forall i, j :: 0 <= i < |stream| && 0 <= j < |stream|
      && Matches(stream[i], hostKey, target) && Matches(stream[j], hostKey, target)
      ==> stream[i].rev == stream[j].rev
  }

  /** Then the goroutine never sends after closing, however often polling delivers that revision again. */
  lemma OneRevisionNeverPanics(stream: seq<KV>, hostKey: string, target: string)
    requires OneRevision(stream, hostKey, target)
    ensures !MatchesTwice(stream, hostKey, target)
  {
  }

  /** Two revisions are enough to panic: the master moves to the target, away and back while Migrate's caller
      has yet to end the stream. */
  lemma TwoRevisionsPanic(hostKey: string, target: string, other: string)
    requires target != other
    ensures MatchesTwice([KV(hostKey, target, 1), KV(hostKey, other, 2), KV(hostKey, target, 3)], hostKey, target)
  {
    var stream := [KV(hostKey, target, 1), KV(hostKey, other, 2), KV(hostKey, target, 3)];
    assert Hit(stream, 0, hostKey, target) && Hit(stream, 2, hostKey, target);
  }

  /** What pacemaker has to answer for the server to migrate. */
  predicate Migrates(crm: Crm) {
    && crm.sync.Some? && crm.sync.value.Some?
    && crm.resolve(crm.sync.value.value.id).Some? && crm.migrate(crm.sync.value.value.uname)
  }

  /** The client's step. The rpc may fail although the server did its work; the select then ends with the
      notification or with the expiry timer. The stream carries only what etcd held. The step succeeds exactly if
      the server migrates, its answer arrives, and the stream shows the address of the sync node before the timer. */
  method Migrate(crm: Crm, rpcFails: bool, stream: seq<KV>, ghost history: seq<KV>, hostKey: string, timerFirst: bool)
    returns (ok: bool, response: Response, notify: Channel)
    requires forall kv :: kv in stream ==> kv in history
    ensures response.Migrated? <==> Migrates(crm)
    ensures response.Migrated? ==>
      && crm.sync.value.value.uname == response.to
      && crm.resolve(crm.sync.value.value.id) == Some(response.address)
    ensures ok <==>
      && Migrates(crm) && !rpcFails && !timerFirst
      && exists i: nat :: Hit(stream, i, hostKey, response.address)
    ensures ok ==> exists kv :: kv in history && kv.key == hostKey && kv.value == response.address
    ensures ok ==> notify == Closed || notify == Panicked
    ensures notify == Panicked ==> response.Migrated? && !OneRevision(stream, hostKey, response.address)
  {
    ok, notify := false, Open;
    var asked;
    response, asked := ServerMigrate(crm);
    if rpcFails || !response.Migrated? {
      return;
    }
    var sends;
    notify, sends := NotifyWhenMaster(stream, hostKey, response.address, !timerFirst);
    if OneRevision(stream, hostKey, response.address) {
      OneRevisionNeverPanics(stream, hostKey, response.address);
    }
    ok := sends > 0;
    if ok {
      ghost var i: nat :| Hit(stream, i, hostKey, response.address);
      assert stream[i] in history;
    }
  }
}
