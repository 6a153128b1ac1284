/** set_async_mode for any host name. A dot in the name makes sed take it for a pattern that matches any character
    there, the list's commas included: when exactly is the edit still right? */
module StandbyPatterns {
  import opened Base
  import opened Shell
  import opened StandbyList

  /** Where sed finds x in the text, from left to right, each search starting behind the last match. */
  function Matches(s: string, x: string, from: nat): seq<nat>
    requires x != "" && from <= |s|
    decreases |s| - from
  {
    if from == |s| then []
    else if StartsLike(s[from..], x) then [from] + Matches(s, x, from + |x|)
    else Matches(s, x, from + 1)
  }

  /** How much text other than commas the matches take away. */
  function Removed(s: string, x: string, from: nat): nat
    requires x != "" && from <= |s|
    decreases |s| - from
  {
    if from == |s| then 0
    else if StartsLike(s[from..], x) then Weight(s[from..][..|x|]) + Removed(s, x, from + |x|)
    else Removed(s, x, from + 1)
  }

  lemma TailOfTail(s: string, from: nat, n: nat)
    requires from + n <= |s|
    ensures s[from..][n..] == s[from + n..] && s[from..] == s[from..][..n] + s[from + n..]
  {
  }

  /** Removing is counted right. */
  lemma {:induction false} RemovedWeighs(s: string, x: string, from: nat)
    requires x != "" && from <= |s|
    ensures Weight(RemoveAll(s[from..], x)) + Removed(s, x, from) == Weight(s[from..])
    decreases |s| - from
  {
    if from < |s| {
      var n := if StartsLike(s[from..], x) then |x| else 1;
      TailOfTail(s, from, n);
      WeightConcat(s[from..][..n], s[from + n..]);
      RemovedWeighs(s, x, from + n);
      if n == 1 && !StartsLike(s[from..], x) {
        WeightConcat([s[from]], RemoveAll(s[from + 1..], x));
        assert s[from..][..1] == [s[from]];
      }
    }
  }

  /** No match, nothing removed. */
  lemma {:induction false} NoMatchNoChange(s: string, x: string, from: nat)
    requires x != "" && from <= |s| && Matches(s, x, from) == []
    ensures RemoveAll(s[from..], x) == s[from..]
    decreases |s| - from
  {
    if from < |s| {
      TailOfTail(s, from, 1);
      assert s[from..][..1] == [s[from]];
      NoMatchNoChange(s, x, from + 1);
    }
  }

  /** One match, one gap. */
  lemma {:induction false} OneMatchOneGap(s: string, x: string, from: nat, at: nat)
    requires x != "" && from <= |s| && Matches(s, x, from) == [at]
    ensures from <= at && at + |x| <= |s|
    ensures RemoveAll(s[from..], x) == s[from..at] + s[at + |x|..]
    decreases |s| - from
  {
    if StartsLike(s[from..], x) {
      assert Matches(s, x, from)[0] == from && Matches(s, x, from)[1..] == Matches(s, x, from + |x|);
      TailOfTail(s, from, |x|);
      NoMatchNoChange(s, x, from + |x|);
      assert s[from..at] == "";
    } else {
      TailOfTail(s, from, 1);
      OneMatchOneGap(s, x, from + 1, at);
      assert s[from..at] == [s[from]] + s[from + 1..at];
    }
  }

  // ---------------------------------------------------------------------------------------------------
  // How much a match can take

  /** Text that begins with no comma and has no two in a row is at least half text; and more, if it ends with none. */
  lemma {:induction false} HalfIsText(t: string)
    requires NoDouble(t) && t != "" && t[0] != ','
    ensures 2 * Weight(t) >= |t|
    ensures t[|t| - 1] != ',' ==> 2 * Weight(t) > |t|
    decreases |t|
  {
    if |t| == 1 {
      assert t[1..] == "";
    } else if t[1] != ',' {
      NoDoubleTail(t);
      HalfIsText(t[1..]);
    } else if |t| == 2 {
      assert t[1..][1..] == "" && t[1..][0] == ',';
    } else {
      NoDoubleTail(t);
      NoDoubleTail(t[1..]);
      assert !(t[2 - 1] == ',' && t[2] == ',');
      assert t[1..][1..] == t[2..] && t[1..][0] == ',';
      HalfIsText(t[2..]);
    }
  }

  lemma {:induction false} CommaWeighsNothing(t: string, c: nat)
    requires c < |t| && t[c] == ','
    ensures Weight(t) < |t|
  {
    if c == 0 {
      WeightCommaFree(t[1..]);
    } else {
      CommaWeighsNothing(t[1..], c - 1);
    }
  }

  lemma {:induction false} NoDoubleSlice(s: string, from: nat, n: nat)
    requires NoDouble(s) && from + n <= |s|
    ensures NoDouble(s[from..][..n])
  {
    var t := s[from..][..n];
    forall i | 0 < i < |t|
      ensures !(t[i - 1] == ',' && t[i] == ',')
    {
      assert t[i] == s[from + i] && t[i - 1] == s[from + i - 1];
    }
  }

  /** A match of a name takes at least half of its length, and more if it does not end in a comma. */
  lemma MatchTakes(s: string, x: string, from: nat)
    requires NoDouble(s) && IsName(x) && from <= |s| && StartsLike(s[from..], x)
    ensures var t := s[from..][..|x|];
      2 * Weight(t) >= |x| && (t[|x| - 1] != ',' ==> 2 * Weight(t) > |x|)
  {
    NoDoubleSlice(s, from, |x|);
    var t := s[from..][..|x|];
    assert x[0] == t[0];
    HalfIsText(t);
  }

  lemma {:induction false} SomeOrHalf(s: string, x: string, from: nat)
    requires NoDouble(s) && IsName(x) && from <= |s|
    ensures Matches(s, x, from) == [] <==> Removed(s, x, from) == 0
    ensures Removed(s, x, from) > 0 ==> 2 * Removed(s, x, from) >= |x|
    decreases |s| - from
  {
    if from < |s| {
      if StartsLike(s[from..], x) {
        MatchTakes(s, x, from);
      } else {
        SomeOrHalf(s, x, from + 1);
      }
    }
  }

  // ---------------------------------------------------------------------------------------------------
  // The list's own entry

  /** x is an entry of the text, at this place. */
  predicate EntryAt(s: string, x: string, at: nat) {
    && at + |x| <= |s| && s[at..][..|x|] == x && CommaFree(x)
    && (at == 0 || s[at - 1] == ',')
  }

  lemma EntryMatches(s: string, x: string, at: nat)
    requires EntryAt(s, x, at)
    ensures StartsLike(s[at..], x) && Weight(s[at..][..|x|]) == |x|
  {
    WeightCommaFree(x);
  }

  /** A match that begins before the entry and ends inside it takes less than its length, and more than half. */
  lemma CrossingMatch(s: string, x: string, from: nat, at: nat)
    requires NoDouble(s) && IsName(x) && EntryAt(s, x, at)
    requires from < at < from + |x| && StartsLike(s[from..], x)
    ensures var w := Weight(s[from..][..|x|]); |x| < 2 * w && w < |x|
  {
    var t := s[from..][..|x|];
    MatchTakes(s, x, from);
    CommaWeighsNothing(t, at - 1 - from);
    var last := from + |x| - 1;
    assert t[|x| - 1] == s[last] == s[at..][..|x|][last - at];
    assert x[last - at] in x;
  }

  /** With the entry still ahead, more than half of its length is yet to be removed. */
  lemma {:induction false} EntryAhead(s: string, x: string, from: nat, at: nat)
    requires NoDouble(s) && IsName(x) && EntryAt(s, x, at) && from <= at
    ensures 2 * Removed(s, x, from) > |x|
    decreases at - from
  {
    if from == at {
      EntryMatches(s, x, at);
    } else if StartsLike(s[from..], x) {
      if from + |x| <= at {
        EntryAhead(s, x, from + |x|, at);
      } else {
        CrossingMatch(s, x, from, at);
      }
    } else {
      EntryAhead(s, x, from + 1, at);
    }
  }

  lemma FirstMatch(s: string, x: string, from: nat)
    requires x != "" && from <= |s| && StartsLike(s[from..], x)
    ensures from + |x| <= |s|
    ensures Matches(s, x, from) == [from] + Matches(s, x, from + |x|)
    ensures Removed(s, x, from) == Weight(s[from..][..|x|]) + Removed(s, x, from + |x|)
  {
  }

  lemma EntryFirst(s: string, x: string, at: nat)
    requires NoDouble(s) && IsName(x) && EntryAt(s, x, at)
    ensures Removed(s, x, at) == |x| <==> Matches(s, x, at) == [at]
  {
    EntryMatches(s, x, at);
    FirstMatch(s, x, at);
    SomeOrHalf(s, x, at + |x|);
    var rest := Matches(s, x, at + |x|);
    assert ([at] + rest)[1..] == rest;
  }

  lemma AnotherBefore(s: string, x: string, from: nat, at: nat)
    requires NoDouble(s) && IsName(x) && EntryAt(s, x, at) && from + |x| <= at && StartsLike(s[from..], x)
    ensures Removed(s, x, from) > |x|
  {
    FirstMatch(s, x, from);
    MatchTakes(s, x, from);
    EntryAhead(s, x, from + |x|, at);
  }

  lemma AnotherAcross(s: string, x: string, from: nat, at: nat)
    requires NoDouble(s) && IsName(x) && EntryAt(s, x, at) && from < at < from + |x| && StartsLike(s[from..], x)
    ensures Removed(s, x, from) != |x|
  {
    FirstMatch(s, x, from);
    CrossingMatch(s, x, from, at);
    SomeOrHalf(s, x, from + |x|);
  }

  lemma AnotherFirst(s: string, x: string, from: nat, at: nat)
    requires NoDouble(s) && IsName(x) && EntryAt(s, x, at) && from < at && StartsLike(s[from..], x)
    ensures Removed(s, x, from) != |x| && Matches(s, x, from) != [at]
  {
    FirstMatch(s, x, from);
    assert Matches(s, x, from)[0] == from;
    if from + |x| <= at {
      AnotherBefore(s, x, from, at);
    } else {
      AnotherAcross(s, x, from, at);
    }
  }

  /** Just the weight of the entry is removed if and only if the entry is the only match. */
  lemma {:induction false} OnlyTheEntry(s: string, x: string, from: nat, at: nat)
    requires NoDouble(s) && IsName(x) && EntryAt(s, x, at) && from <= at
    ensures Removed(s, x, from) == |x| <==> Matches(s, x, from) == [at]
    decreases at - from
  {
    if from == at {
      EntryFirst(s, x, at);
    } else if StartsLike(s[from..], x) {
      AnotherFirst(s, x, from, at);
    } else {
      OnlyTheEntry(s, x, from + 1, at);
    }
  }

  // ---------------------------------------------------------------------------------------------------
  // The edit

  /** Where the joined list has the entry. */
  function Place(l: seq<string>, x: string): nat
    requires x in l
  {
    if l[0] == x then 0 else |l[0]| + 1 + Place(l[1..], x)
  }

  lemma {:induction false} PlaceIsEntry(l: seq<string>, x: string) returns (k: nat)
    requires AreNames(l) && Distinct(l) && x in l
    ensures k < |l| && l[k] == x && Place(l, x) == |Ahead(l[..k])|
  {
    if l[0] == x {
      k := 0;
    } else {
      assert forall name :: name in l[1..] ==> name in l;
      var j := PlaceIsEntry(l[1..], x);
      k := j + 1;
      assert l[..k][0] == l[0] && l[..k][1..] == l[1..][..j];
    }
  }

  /** The list without the entry, as text. */
  lemma AroundEntry(l: seq<string>, x: string, k: nat)
    requires AreNames(l) && Distinct(l) && k < |l| && l[k] == x
    ensures var s, at := Join(l), |Ahead(l[..k])|;
      && EntryAt(s, x, at)
      && s[..at] + s[at + |x|..] == Join(l[..k] + [""] + l[k + 1..])
      && Without(l, x) == l[..k] + l[k + 1..]
  {
    var a, b := l[..k], l[k + 1..];
    SplitAt(l, k);
    JoinAround(a, [x], b);
    JoinAround(a, [""], b);
    TextAround(Ahead(a), x, Behind(b));
    NamesAreCommaFree([x]);
    WithoutAll(a, x);
    WithoutAll(b, x);
    WithoutEntry(a, x, b);
  }

  lemma TextAround(before: string, x: string, after: string)
    ensures var s := before + x + after;
      && s[|before|..][..|x|] == x && s[..|before|] == before && s[|before| + |x|..] == after
      && before + "" + after == before + after
      && (before != "" ==> s[|before| - 1] == before[|before| - 1])
  {
  }

  lemma {:induction false} WithoutAll(l: seq<string>, x: string)
    requires x !in l
    ensures Without(l, x) == l
  {
    if l != [] {
      WithoutAll(l[1..], x);
    }
  }

  /** On any duplicate-free list, and for any host name, the text edit of set_async_mode leaves exactly the list without
      x if and only if sed finds nothing but the entry x itself. */
  lemma SetAsyncDeletesPattern(l: seq<string>, x: string)
    requires AreNames(l) && IsName(x) && Distinct(l)
    ensures SetAsyncMode(Conf(Join(l)), x) == Conf(Join(Without(l, x)))
      <==> Matches(Join(l), x, 0) == if x in l then [Place(l, x)] else []
  {
    ListInJoined(l);
    JoinHasNoDouble(l);
    if l == [] {
      assert Matches("", x, 0) == [];
    } else if x in l {
      DeletesEntry(l, x);
      ConfIsInjective(Clean(RemoveAll(Join(l), x)), Join(Without(l, x)));
    } else {
      DeletesNothing(l, x);
      ConfIsInjective(Clean(RemoveAll(Join(l), x)), Join(Without(l, x)));
    }
  }

  lemma DeletesNothing(l: seq<string>, x: string)
    requires AreNames(l) && IsName(x) && x !in l
    ensures Clean(RemoveAll(Join(l), x)) == Join(Without(l, x)) <==> Matches(Join(l), x, 0) == []
  {
    var s := Join(l);
    WithoutAll(l, x);
    JoinHasNoDouble(l);
    SomeOrHalf(s, x, 0);
    assert s[0..] == s;
    if Matches(s, x, 0) == [] {
      NoMatchNoChange(s, x, 0);
      CleanKeepsJoin(l);
    } else {
      RemovedWeighs(s, x, 0);
      WeightClean(RemoveAll(s, x));
    }
  }

  lemma DeletesEntry(l: seq<string>, x: string)
    requires AreNames(l) && IsName(x) && Distinct(l) && x in l
    ensures Clean(RemoveAll(Join(l), x)) == Join(Without(l, x)) <==> Matches(Join(l), x, 0) == [Place(l, x)]
  {
    GapAtPlace(l, x);
    GapClosesExactly(Join(l), x, Place(l, x), Join(Without(l, x)));
  }

  lemma GapAtPlace(l: seq<string>, x: string)
    requires AreNames(l) && Distinct(l) && x in l
    ensures NoDouble(Join(l)) && EntryAt(Join(l), x, Place(l, x))
    ensures ClosesTo(Join(l), x, Place(l, x), Join(Without(l, x)))
  {
    JoinHasNoDouble(l);
    var k := PlaceIsEntry(l, x);
    GapCloses(l, x, k);
  }

  /** The clean-up of the text without the entry leads to the one wanted. */
  predicate ClosesTo(s: string, x: string, at: nat, wanted: string) {
    at + |x| <= |s| && Clean(s[..at] + s[at + |x|..]) == wanted
  }

  lemma GapCloses(l: seq<string>, x: string, k: nat)
    requires AreNames(l) && Distinct(l) && k < |l| && l[k] == x
    ensures var s, at := Join(l), |Ahead(l[..k])|;
      EntryAt(s, x, at) && ClosesTo(s, x, at, Join(Without(l, x)))
  {
    AroundEntry(l, x, k);
    var a, b := l[..k], l[k + 1..];
    assert AreNames(a) && AreNames(b);
    CleanClosesGap(a, b);
  }

  lemma GapClosesExactly(s: string, x: string, at: nat, wanted: string)
    requires NoDouble(s) && IsName(x) && EntryAt(s, x, at) && ClosesTo(s, x, at, wanted)
    ensures Clean(RemoveAll(s, x)) == wanted <==> Matches(s, x, 0) == [at]
  {
    OnlyTheEntry(s, x, 0, at);
    assert s[0..] == s && s[0..at] == s[..at];
    if Matches(s, x, 0) == [at] {
      OneMatchOneGap(s, x, 0, at);
    } else {
      RemovedWeighs(s, x, 0);
      WeightClean(RemoveAll(s, x));
      WeightClean(s[..at] + s[at + |x|..]);
      GapWeighs(s, x, at);
    }
  }

  lemma GapWeighs(s: string, x: string, at: nat)
    requires EntryAt(s, x, at)
    ensures Weight(s[..at] + s[at + |x|..]) + |x| == Weight(s)
  {
    EntryMatches(s, x, at);
    assert s == s[..at] + (s[at..][..|x|] + s[at + |x|..]);
    WeightConcat(s[..at], s[at..][..|x|] + s[at + |x|..]);
    WeightConcat(s[at..][..|x|], s[at + |x|..]);
    WeightConcat(s[..at], s[at + |x|..]);
  }

  /** A comma can be what the dot matches: the edit of the list a,b for the host a.b takes both entries. */
  lemma DotMatchesComma()
    ensures SetAsyncMode(Conf(Join(["a", "b"])), "a.b") != Conf(Join(["a", "b"]))
  {
    var l := ["a", "b"];
    assert l[1..] == ["b"] && Join(l) == "a,b";
    WithoutAll(l, "a.b");
    assert "a,b"[0..][..3] == "a,b" && Like("a.b", "a,b");
    assert StartsLike("a,b"[0..], "a.b");
    SetAsyncDeletesPattern(l, "a.b");
  }

  // ---------------------------------------------------------------------------------------------------
  // Names that are never mistaken

  /** In this list, neither sed nor grep takes anything for x but the entry x. */
  ghost predicate OnlyItself(l: seq<string>, x: string)
    requires x != ""
  {
    && Matches(Join(l), x, 0) == (if x in l then [Place(l, x)] else [])
    && (x !in l ==> forall i, j :: !Encloses(l, i, j, x))
  }

  /** Nor in any list that can be made of these names. */
  ghost predicate Unmistakable(nodes: seq<string>) {
    && AreNames(nodes)
    && forall l, x {:trigger OnlyItself(l, x)} :: Distinct(l) && ListOver(l, nodes) && x in nodes ==> OnlyItself(l, x)
  }

  predicate ListOver(l: seq<string>, nodes: seq<string>) {
    forall name :: name in l ==> name in nodes
  }

  /** The two functions that edit the list, and the one that reads it, do so as intended. */
  predicate RightAbout(l: seq<string>, x: string)
    requires x != ""
  {
    && (IsSyncMode(Conf(Join(l)), x) <==> x in l)
    && SetAsyncMode(Conf(Join(l)), x) == Conf(Join(Without(l, x)))
  }

  lemma OnlyItselfIsRight(l: seq<string>, x: string)
    requires AreNames(l) && IsName(x) && Distinct(l)
    ensures RightAbout(l, x) <==> OnlyItself(l, x)
  {
    SetAsyncDeletesPattern(l, x);
    IsSyncModeIsStretch(l, x);
    IsSyncModeIsMembership(l, x);
  }

  ghost predicate AlwaysRight(nodes: seq<string>) {
    && AreNames(nodes)
    && forall l, x {:trigger RightAbout(l, x)} :: Distinct(l) && ListOver(l, nodes) && x in nodes ==> RightAbout(l, x)
  }

  /** The agent's edits are right about every list over NODE_LIST exactly if its names are unmistakable. */
  lemma UnmistakableIsExact(nodes: seq<string>)
    ensures Unmistakable(nodes) <==> AlwaysRight(nodes)
  {
    if AreNames(nodes) {
      forall l, x | Distinct(l) && ListOver(l, nodes) && x in nodes
        ensures RightAbout(l, x) <==> OnlyItself(l, x)
      {
        OnlyItselfIsRight(l, x);
      }
    }
  }

  /** Names without dots, none of which contains another, are. */
  lemma PlainNamesAreUnmistakable(nodes: seq<string>)
    requires forall name :: name in nodes ==> IsPlain(name)
    requires forall a, b :: a in nodes && b in nodes && a != b ==> !Contains(a, b)
    ensures Unmistakable(nodes)
  {
    forall l, x | Distinct(l) && ListOver(l, nodes) && x in nodes
      ensures OnlyItself(l, x)
    {
      SetAsyncDeletes(l, x);
      IsSyncModeIsMembership(l, x);
      OnlyItselfIsRight(l, x);
    }
  }
}
