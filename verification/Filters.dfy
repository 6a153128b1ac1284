/** pkg/streams/filter.go and pkg/pacemaker/stream.go. A channel is the sequence of everything sent on it
    until it closes; a filter is the loop that drains its input channel. */
module Filters {
  import opened Base

  function Lookup<V>(m: map<string, V>, key: string, zero: V): V {
    if key in m then m[key] else zero
  }

  /** The kvs of a stream that carry the given key. */
  function ForKey(s: seq<KV>, key: string): (r: seq<KV>)
    ensures forall kv :: kv in r ==> kv in s && kv.key == key
    ensures forall kv :: kv in s && kv.key == key ==> kv in r
  {
    if s == [] then []
    else
      var rest := ForKey(s[..|s| - 1], key);
      if s[|s| - 1].key == key then rest + [s[|s| - 1]] else rest
  }

  lemma ForKeyAppend(s: seq<KV>, kv: KV, key: string)
    ensures ForKey(s + [kv], key) == if kv.key == key then ForKey(s, key) + [kv] else ForKey(s, key)
  {
    assert (s + [kv])[..|s|] == s;
  }

  function Last(s: seq<KV>): Option<KV> {
    if s == [] then None else Some(s[|s| - 1])
  }

  // ---------------------------------------------------------------------------------------------------
  // RevisionFilter

  /** Input i is a record: its revision is positive and above every earlier revision of its key. */
  predicate IsRecord(s: seq<KV>, i: nat)
    requires i < |s|
  {
    s[i].rev > 0 && forall j :: 0 <= j < i && s[j].key == s[i].key ==> s[j].rev < s[i].rev
  }

  function Records(s: seq<KV>): (r: seq<KV>)
    ensures forall kv :: kv in r ==> kv in s && kv.rev > 0
  {
    if s == [] then []
    else
      var rest := Records(s[..|s| - 1]);
      if IsRecord(s, |s| - 1) then rest + [s[|s| - 1]] else rest
  }

  /** The positions of the records among the first n inputs, in order. */
  function RecordIndices(s: seq<KV>, n: nat): (r: seq<nat>)
    requires n <= |s|
    ensures forall k :: 0 <= k < |r| ==> r[k] < n && IsRecord(s, r[k])
    ensures forall j, k :: 0 <= j < k < |r| ==> r[j] < r[k]
    ensures forall i: nat :: i < n && IsRecord(s, i) ==> i in r
  {
    if n == 0 then []
    else
      var rest := RecordIndices(s, n - 1);
      if IsRecord(s, n - 1) then rest + [n - 1] else rest
  }

  lemma RecordInPrefix(s: seq<KV>, i: nat, n: nat)
    requires i < n <= |s|
    ensures IsRecord(s[..n], i) <==> IsRecord(s, i)
  {
    assert forall j :: 0 <= j <= i ==> s[..n][j] == s[j];
  }

  /** Output k is the input at the kth record position: no record is left out, and their order is kept. */
  lemma {:induction false} RecordsAreExactlyTheRecords(s: seq<KV>, n: nat)
    requires n <= |s|
    ensures var out, at := Records(s[..n]), RecordIndices(s, n);
      |out| == |at| && forall k :: 0 <= k < |at| ==> out[k] == s[at[k]]
  {
    if n > 0 {
      RecordsAreExactlyTheRecords(s, n - 1);
      assert s[..n][..n - 1] == s[..n - 1];
      RecordInPrefix(s, n - 1, n);
    }
  }

  /** The map holds, for every key, the highest positive revision seen. */
  ghost predicate Tracks(last: map<string, int>, s: seq<KV>) {
    && (forall kv :: kv in s ==> kv.rev <= Lookup(last, kv.key, 0))
    && (forall key :: key in last ==> last[key] > 0 && exists kv :: kv in s && kv.key == key && kv.rev == last[key])
  }

  lemma TracksAppend(last: map<string, int>, s: seq<KV>, kv: KV)
    requires Tracks(last, s)
    ensures IsRecord(s + [kv], |s|) <==> kv.rev > Lookup(last, kv.key, 0)
    ensures Tracks(if kv.rev > Lookup(last, kv.key, 0) then last[kv.key := kv.rev] else last, s + [kv])
  {
    var t := s + [kv];
    assert forall j :: 0 <= j < |s| ==> t[j] in s;
    assert forall other :: other in t <==> other in s || other == kv;
    if kv.key in last {
      var seen :| seen in s && seen.key == kv.key && seen.rev == last[kv.key];
      var j :| 0 <= j < |s| && s[j] == seen;
      assert t[j] == seen;
    }
  }

  /** The loop of pkg/streams/filter.go:38-58 sends exactly the records of its input, in order. */
  method RevisionFilter(input: seq<KV>) returns (out: seq<KV>)
    ensures out == Records(input)
  {
    out := [];
    var lastRevisions: map<string, int> := map[];
    for i := 0 to |input|
      invariant out == Records(input[..i])
      invariant Tracks(lastRevisions, input[..i])
    {
      var kv := input[i];
      var previous := Lookup(lastRevisions, kv.key, 0);
      assert input[..i + 1] == input[..i] + [kv];
      TracksAppend(lastRevisions, input[..i], kv);
      RecordsAppend(input[..i], kv);
      if previous >= kv.rev {
      } else {
        out := out + [kv];
        lastRevisions := lastRevisions[kv.key := kv.rev];
      }
    }
    assert input[..|input|] == input;
  }

  lemma RecordsAppend(s: seq<KV>, kv: KV)
    ensures Records(s + [kv]) == if IsRecord(s + [kv], |s|) then Records(s) + [kv] else Records(s)
  {
    assert (s + [kv])[..|s|] == s;
  }

  predicate IncreasingPerKey(s: seq<KV>) {
    forall i, j :: 0 <= i < j < |s| && s[i].key == s[j].key ==> s[i].rev < s[j].rev
  }

  lemma {:induction false} RecordsIncrease(s: seq<KV>)
    ensures IncreasingPerKey(Records(s))
  {
    if s != [] {
      var n := |s| - 1;
      RecordsIncrease(s[..n]);
      if IsRecord(s, n) {
        var r := Records(s[..n]);
        forall i | 0 <= i < |r| && r[i].key == s[n].key
          ensures r[i].rev < s[n].rev
        {
          assert r[i] in s[..n];
        }
      }
    }
  }

  /** A stream that already increases per key passes unchanged, so filtering twice is filtering once. */
  lemma {:induction false} IncreasingIsKept(s: seq<KV>)
    requires IncreasingPerKey(s) && forall kv :: kv in s ==> kv.rev > 0
    ensures Records(s) == s
  {
    if s != [] {
      var n := |s| - 1;
      IncreasingIsKept(s[..n]);
      RecordsAppend(s[..n], s[n]);
      assert s[n] in s && s == s[..n] + [s[n]];
      assert IsRecord(s, n);
    }
  }

  lemma RecordsIdempotent(s: seq<KV>)
    ensures Records(Records(s)) == Records(s)
  {
    RecordsIncrease(s);
    IncreasingIsKept(Records(s));
  }

  /** kv has the highest positive revision that s holds for its key. */
  predicate IsNewest(s: seq<KV>, kv: KV) {
    kv in s && kv.rev > 0 && forall other :: other in s && other.key == kv.key ==> other.rev <= kv.rev
  }

  predicate Summarises(last: Option<KV>, s: seq<KV>, key: string) {
    match last
    case Some(kv) => kv.key == key && IsNewest(s, kv)
    case None => forall kv :: kv in s && kv.key == key ==> kv.rev <= 0
  }

  lemma SummaryAppend(last: Option<KV>, s: seq<KV>, kv: KV)
    requires Summarises(last, s, kv.key)
    ensures IsRecord(s + [kv], |s|) <==> kv.rev > (if last.Some? then last.value.rev else 0)
    ensures Summarises(if IsRecord(s + [kv], |s|) then Some(kv) else last, s + [kv], kv.key)
  {
    var t := s + [kv];
    assert forall j :: 0 <= j < |s| ==> t[j] in s;
    if last.Some? {
      var j :| 0 <= j < |s| && s[j] == last.value;
      assert t[j] == last.value;
    }
    assert forall other :: other in t <==> other in s || other == kv;
  }

  lemma {:induction false} LastRecordIsNewest(s: seq<KV>, key: string)
    ensures Summarises(Last(ForKey(Records(s), key)), s, key)
  {
    if s != [] {
      var prefix, kv := s[..|s| - 1], s[|s| - 1];
      assert s == prefix + [kv];
      LastRecordIsNewest(prefix, key);
      RecordsAppend(prefix, kv);
      if IsRecord(s, |prefix|) {
        ForKeyAppend(Records(prefix), kv, key);
      }
      if kv.key == key {
        SummaryAppend(Last(ForKey(Records(prefix), key)), prefix, kv);
      } else {
        assert forall other :: other in s <==> other in prefix || other == kv;
      }
    }
  }

  /** An etcd history never holds two kvs for one key at one revision. */
  predicate RevisionDetermines(s: seq<KV>) {
    forall a, b :: a in s && b in s && a.key == b.key && a.rev == b.rev ==> a == b
  }

  /** However a set of etcd kvs is reordered or duplicated, the last emission for each key is the same. */
  lemma LastEmissionIgnoresOrder(s: seq<KV>, t: seq<KV>, key: string)
    requires RevisionDetermines(s)
    requires forall kv :: kv in s <==> kv in t
    ensures Last(ForKey(Records(s), key)) == Last(ForKey(Records(t), key))
  {
    LastRecordIsNewest(s, key);
    LastRecordIsNewest(t, key);
  }

  // ---------------------------------------------------------------------------------------------------
  // DedupeFilter

  /** What a reader who replays the stream ends up holding for the key; a key never seen holds the empty value. */
  function Replay(s: seq<KV>, key: string): string {
    if s == [] then ""
    else if s[|s| - 1].key == key then s[|s| - 1].value
    else Replay(s[..|s| - 1], key)
  }

  lemma ReplayAppend(s: seq<KV>, kv: KV, key: string)
    ensures Replay(s + [kv], key) == if kv.key == key then kv.value else Replay(s, key)
  {
    assert (s + [kv])[..|s|] == s;
  }

  /** The kvs that change what a reader of the input holds. */
  function Changes(s: seq<KV>): (r: seq<KV>)
    ensures forall kv :: kv in r ==> kv in s
  {
    if s == [] then []
    else
      var prefix, kv := s[..|s| - 1], s[|s| - 1];
      if Replay(prefix, kv.key) == kv.value then Changes(prefix) else Changes(prefix) + [kv]
  }

  /** pkg/streams/filter.go:14-34: comparing with the last value sent drops exactly the inputs that repeat
      the last value received. */
  method DedupeFilter(input: seq<KV>) returns (out: seq<KV>)
    ensures out == Changes(input)
  {
    out := [];
    var lastValues: map<string, string> := map[];
    for i := 0 to |input|
      invariant out == Changes(input[..i])
      invariant forall key :: Lookup(lastValues, key, "") == Replay(input[..i], key)
    {
      var kv := input[i];
      var previousValue := Lookup(lastValues, kv.key, "");
      assert input[..i + 1][..i] == input[..i];
      if previousValue == kv.value {
      } else {
        out := out + [kv];
        lastValues := lastValues[kv.key := kv.value];
      }
    }
    assert input[..|input|] == input;
  }

  /** Replaying the output is replaying the input, for every key. */
  lemma {:induction false} DedupePreservesReplay(s: seq<KV>, key: string)
    ensures Replay(Changes(s), key) == Replay(s, key)
  {
    if s != [] {
      var prefix, kv := s[..|s| - 1], s[|s| - 1];
      DedupePreservesReplay(prefix, key);
      ReplayAppend(Changes(prefix), kv, key);
    }
  }

  /** The same at every moment: what has been sent once n inputs are in is a prefix of the final output and
      leaves the same state as those n inputs. */
  lemma {:induction false} DedupeAtEveryPrefix(s: seq<KV>, n: nat, key: string)
    requires n <= |s|
    ensures Changes(s[..n]) <= Changes(s)
    ensures Replay(Changes(s[..n]), key) == Replay(s[..n], key)
    decreases |s|
  {
    DedupePreservesReplay(s[..n], key);
    if n < |s| {
      DedupeAtEveryPrefix(s[..|s| - 1], n, key);
      assert s[..|s| - 1][..n] == s[..n];
    } else {
      assert s[..n] == s;
    }
  }

  function Values(s: seq<KV>): (r: seq<string>)
    ensures |r| == |s| && forall i :: 0 <= i < |s| ==> r[i] == s[i].value
  {
    seq(|s|, i requires 0 <= i < |s| => s[i].value)
  }

  function Final(values: seq<string>): string {
    if values == [] then "" else values[|values| - 1]
  }

  /** Drops every value equal to the one before it, the empty value standing before the first. */
  function Destutter(values: seq<string>): seq<string> {
    if values == [] then []
    else
      var prefix := values[..|values| - 1];
      if Final(values) == Final(prefix) then Destutter(prefix) else Destutter(prefix) + [Final(values)]
  }

  lemma {:induction false} ReplayIsFinal(s: seq<KV>, key: string)
    ensures Replay(s, key) == Final(Values(ForKey(s, key)))
  {
    if s != [] && s[|s| - 1].key != key {
      ReplayIsFinal(s[..|s| - 1], key);
    }
  }

  /** Key by key, the output is the destuttered input. */
  lemma {:induction false} DedupeDestutters(s: seq<KV>, key: string)
    ensures Values(ForKey(Changes(s), key)) == Destutter(Values(ForKey(s, key)))
  {
    if s != [] {
      var prefix, kv := s[..|s| - 1], s[|s| - 1];
      assert s == prefix + [kv];
      DedupeDestutters(prefix, key);
      ReplayIsFinal(prefix, key);
      OneMoreValue(prefix, Changes(prefix), kv, key);
    }
  }

  lemma OneMoreValue(input: seq<KV>, output: seq<KV>, kv: KV, key: string)
    requires Values(ForKey(output, key)) == Destutter(Values(ForKey(input, key)))
    ensures var repeats := kv.key == key && kv.value == Final(Values(ForKey(input, key)));
      var next := if repeats then output else output + [kv];
      Values(ForKey(next, key)) == Destutter(Values(ForKey(input + [kv], key)))
    ensures kv.key != key ==> Values(ForKey(output, key)) == Destutter(Values(ForKey(input + [kv], key)))
  {
    ForKeyAppend(input, kv, key);
    ForKeyAppend(output, kv, key);
    if kv.key == key {
      ValuesAppend(ForKey(input, key), kv);
      ValuesAppend(ForKey(output, key), kv);
      DestutterAppend(Values(ForKey(input, key)), kv.value);
    }
  }

  lemma ValuesAppend(s: seq<KV>, kv: KV)
    ensures Values(s + [kv]) == Values(s) + [kv.value]
  {
  }

  lemma DestutterAppend(values: seq<string>, v: string)
    ensures Destutter(values + [v]) == if v == Final(values) then Destutter(values) else Destutter(values) + [v]
  {
    assert (values + [v])[..|values|] == values;
  }

  lemma {:induction false} DestutterHasNoRepeats(values: seq<string>)
    ensures Final(Destutter(values)) == Final(values)
    ensures Destutter(values) != [] ==> Destutter(values)[0] != ""
    ensures forall i :: 0 < i < |Destutter(values)| ==> Destutter(values)[i - 1] != Destutter(values)[i]
  {
    if values != [] {
      DestutterHasNoRepeats(values[..|values| - 1]);
    }
  }

  // ---------------------------------------------------------------------------------------------------
  // The poll loop of pkg/pacemaker/stream.go:43-75, and pkg/pacemaker/pacemaker.go:54-78 behind it

  /** One reading of the cluster information base: the command or the parsing fails, or the document has or
      lacks quorum and the nth XPath finds the node with the nth attribute value, or finds nothing. */
  datatype Cib = Unreadable | Document(quorum: bool, found: seq<Option<string>>)

  /** Pacemaker.Get: no result without quorum. */
  function Get(cib: Cib): (nodes: Option<seq<Option<string>>>)
    ensures nodes.Some? <==> cib.Document? && cib.quorum
    ensures nodes.Some? ==> nodes.value == cib.found
  {
    match cib
    case Unreadable => None
    case Document(quorum, found) => if quorum then Some(found) else None
  }

  predicate Fits(cib: Cib, xpaths: nat) {
    cib.Document? ==> |cib.found| == xpaths
  }

  function Found(aliases: seq<string>, nodes: seq<Option<string>>): seq<KV>
    requires |nodes| == |aliases|
  {
    if aliases == [] then []
    else
      var n := |aliases| - 1;
      var rest := Found(aliases[..n], nodes[..n]);
      if nodes[n].Some? then rest + [KV(aliases[n], nodes[n].value, 0)] else rest
  }

  function Polled(aliases: seq<string>, cibs: seq<Cib>): seq<KV>
    requires forall cib :: cib in cibs ==> Fits(cib, |aliases|)
  {
    if cibs == [] then []
    else
      var rest, cib := Polled(aliases, cibs[..|cibs| - 1]), cibs[|cibs| - 1];
      assert cib in cibs && Fits(cib, |aliases|);
      if Get(cib).Some? then rest + Found(aliases, Get(cib).value) else rest
  }

  method PollStream(aliases: seq<string>, cibs: seq<Cib>) returns (out: seq<KV>)
    requires forall cib :: cib in cibs ==> Fits(cib, |aliases|)
    ensures out == Polled(aliases, cibs)
  {
    out := [];
    for i := 0 to |cibs|
      invariant forall cib :: cib in cibs[..i] ==> Fits(cib, |aliases|)
      invariant out == Polled(aliases, cibs[..i])
    {
      assert cibs[..i + 1][..i] == cibs[..i];
      assert cibs[i] in cibs;
      var nodes := Get(cibs[i]);
      if nodes.None? {
        continue;
      }
      ghost var before := out;
      for idx := 0 to |aliases|
        invariant out == before + Found(aliases[..idx], nodes.value[..idx])
      {
        assert aliases[..idx + 1][..idx] == aliases[..idx] && nodes.value[..idx + 1][..idx] == nodes.value[..idx];
        if nodes.value[idx].None? {
          continue;
        }
        out := out + [KV(aliases[idx], nodes.value[idx].value, 0)];
      }
      assert aliases[..|aliases|] == aliases && nodes.value[..|aliases|] == nodes.value;
    }
    assert cibs[..|cibs|] == cibs;
  }

  /** Everything pacemaker was seen to report for one XPath. */
  function Observed(cibs: seq<Cib>, idx: nat): seq<string>
    requires forall cib :: cib in cibs && cib.Document? ==> idx < |cib.found|
  {
    if cibs == [] then []
    else
      var rest, cib := Observed(cibs[..|cibs| - 1], idx), cibs[|cibs| - 1];
      assert cib in cibs;
      if Get(cib).Some? && Get(cib).value[idx].Some? then rest + [Get(cib).value[idx].value] else rest
  }

  lemma {:induction false} ForKeyConcat(a: seq<KV>, b: seq<KV>, key: string)
    ensures ForKey(a + b, key) == ForKey(a, key) + ForKey(b, key)
  {
    if b == [] {
      assert a + b == a;
    } else {
      var n := |b| - 1;
      assert (a + b)[..|a + b| - 1] == a + b[..n];
      ForKeyConcat(a, b[..n], key);
    }
  }

  lemma {:induction false} FoundForAlias(aliases: seq<string>, nodes: seq<Option<string>>, idx: nat)
    requires |nodes| == |aliases| && Distinct(aliases) && idx < |aliases|
    ensures ForKey(Found(aliases, nodes), aliases[idx])
      == if nodes[idx].Some? then [KV(aliases[idx], nodes[idx].value, 0)] else []
  {
    var n := |aliases| - 1;
    if nodes[n].Some? {
      ForKeyAppend(Found(aliases[..n], nodes[..n]), KV(aliases[n], nodes[n].value, 0), aliases[idx]);
    }
    if idx < n {
      FoundForAlias(aliases[..n], nodes[..n], idx);
    } else {
      NotFound(aliases[..n], nodes[..n], aliases[n]);
    }
  }

  lemma {:induction false} NotFound(aliases: seq<string>, nodes: seq<Option<string>>, key: string)
    requires |nodes| == |aliases| && key !in aliases
    ensures ForKey(Found(aliases, nodes), key) == []
  {
    if aliases != [] {
      var n := |aliases| - 1;
      NotFound(aliases[..n], nodes[..n], key);
      if nodes[n].Some? {
        ForKeyAppend(Found(aliases[..n], nodes[..n]), KV(aliases[n], nodes[n].value, 0), key);
      }
    }
  }

  /** What one more successful poll adds. */
  lemma FoundLast(aliases: seq<string>, before: seq<KV>, nodes: seq<Option<string>>, idx: nat)
    requires |nodes| == |aliases| && Distinct(aliases) && idx < |aliases|
    ensures Values(ForKey(before + Found(aliases, nodes), aliases[idx])) ==
      Values(ForKey(before, aliases[idx])) + (if nodes[idx].Some? then [nodes[idx].value] else [])
  {
    var found := Found(aliases, nodes);
    ForKeyConcat(before, found, aliases[idx]);
    FoundForAlias(aliases, nodes, idx);
    ValuesConcat(ForKey(before, aliases[idx]), ForKey(found, aliases[idx]));
  }

  lemma ValuesConcat(a: seq<KV>, b: seq<KV>)
    ensures Values(a + b) == Values(a) + Values(b)
  {
  }

  lemma {:induction false} PolledForAlias(aliases: seq<string>, cibs: seq<Cib>, idx: nat)
    requires Distinct(aliases) && idx < |aliases|
    requires forall cib :: cib in cibs ==> Fits(cib, |aliases|)
    ensures Values(ForKey(Polled(aliases, cibs), aliases[idx])) == Observed(cibs, idx)
  {
    if cibs != [] {
      var prefix, cib := cibs[..|cibs| - 1], cibs[|cibs| - 1];
      PolledForAlias(aliases, prefix, idx);
      assert cib in cibs && Fits(cib, |aliases|);
      if Get(cib).Some? {
        FoundLast(aliases, Polled(aliases, prefix), Get(cib).value, idx);
      }
    }
  }

  /** Poll loop and DedupeFilter together: per key, the stream is the destuttered history of what pacemaker
      reported under quorum. */
  lemma DedupedPollIsDestutteredHistory(aliases: seq<string>, cibs: seq<Cib>, idx: nat)
    requires Distinct(aliases) && idx < |aliases|
    requires forall cib :: cib in cibs ==> Fits(cib, |aliases|)
    ensures Values(ForKey(Changes(Polled(aliases, cibs)), aliases[idx])) == Destutter(Observed(cibs, idx))
  {
    PolledForAlias(aliases, cibs, idx);
    DedupeDestutters(Polled(aliases, cibs), aliases[idx]);
  }
}
