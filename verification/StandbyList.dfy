/** The synchronous standby list of docker/postgres-member/resource_agents/pgsql: one line of the file rep_mode.conf,
    edited as text by set_sync_mode and set_async_mode (pgsql:1215-1252). */
module StandbyList {
  import opened Base
  import opened Shell

  predicate IsNameChar(c: char) {
    'a' <= c <= 'z' || 'A' <= c <= 'Z' || '0' <= c <= '9' || c == '-' || c == '_' || c == '.'
  }

  /** A host name, as it may stand in NODE_LIST. Of its characters, sed and grep treat only the dot specially. */
  predicate IsName(s: string) {
    s != "" && s[0] != '-' && s[0] != '.' && forall i :: 0 <= i < |s| ==> IsNameChar(s[i])
  }

  /** A name that is not a pattern for anything but itself. */
  predicate IsPlain(s: string) {
    IsName(s) && '.' !in s
  }

  lemma PlainStarts(s: string, x: string)
    requires '.' !in x
    ensures StartsLike(s, x) <==> x <= s
  {
    PlainLike(x, if |x| <= |s| then s[..|x|] else s);
  }

  lemma PlainLike(x: string, text: string)
    requires '.' !in x
    ensures Like(x, text) <==> x == text
  {
  }

  predicate AreNames(l: seq<string>) {
    forall name :: name in l ==> IsName(name)
  }

  predicate CommaFree(s: string) {
    ',' !in s
  }

  function Join(l: seq<string>): string {
    if l == [] then "" else if |l| == 1 then l[0] else l[0] + "," + Join(l[1..])
  }

  const SETTING := "synchronous_" + "standby_" + "names"
  const HEAD := SETTING + " = "
  const PREFIX := HEAD + "'"

  /** The file's one line. */
  function Conf(list: string): string {
    PREFIX + list + "'"
  }

  // ---------------------------------------------------------------------------------------------------
  // The three shell functions, on the file's line

  function ListIn(conf: string): string {
    Cut2(conf, '\'')
  }

  function SetAsyncMode(conf: string, x: string): string
    requires x != ""
  {
    var list := ListIn(conf);
    if list != "" then Conf(TrimTail(Squeeze(TrimHead(RemoveAll(list, x))))) else conf
  }

  function SetSyncMode(conf: string, x: string): string {
    var list := ListIn(conf);
    if list != "" then Conf(list + "," + x) else Conf(x)
  }

  predicate IsSyncMode(conf: string, x: string) {
    GrepDelimited(conf, x)
  }

  // ---------------------------------------------------------------------------------------------------
  // Reading the file back

  lemma {:induction false} JoinChars(l: seq<string>)
    requires AreNames(l)
    ensures forall i :: 0 <= i < |Join(l)| ==> IsNameChar(Join(l)[i]) || Join(l)[i] == ','
    ensures l != [] ==> Join(l) != "" && Join(l)[0] != ',' && Join(l)[|Join(l)| - 1] != ','
  {
    if |l| > 1 {
      assert l[0] in l && forall name :: name in l[1..] ==> name in l;
      JoinChars(l[1..]);
      var s := Join(l);
      assert s[|s| - 1] == Join(l[1..])[|Join(l[1..])| - 1];
    } else if |l| == 1 {
      assert l[0] in l;
    }
  }

  lemma {:induction false} CutAt(a: string, b: string, delimiter: char)
    requires delimiter !in a
    ensures var s := a + [delimiter] + b;
      delimiter in s && Before(s, delimiter) == a && After(s, delimiter) == b
  {
    var s := a + [delimiter] + b;
    assert s[|a|] == delimiter;
    if a == [] {
      assert s[1..] == b;
    } else {
      CutAt(a[1..], b, delimiter);
      assert s[1..] == a[1..] + [delimiter] + b;
      assert a == [a[0]] + a[1..];
    }
  }

  lemma ListInConf(list: string)
    requires '\'' !in list
    ensures ListIn(Conf(list)) == list
  {
    CutAt(HEAD, list + "'", '\'');
    assert Conf(list) == HEAD + ['\''] + (list + "'");
    CutAt(list, "", '\'');
    assert list + "'" == list + ['\''] + "";
  }

  lemma ListInJoined(l: seq<string>)
    requires AreNames(l)
    ensures ListIn(Conf(Join(l))) == Join(l) && (Join(l) == "" <==> l == [])
  {
    JoinChars(l);
    ListInConf(Join(l));
  }

  // ---------------------------------------------------------------------------------------------------
  // set_sync_mode appends

  lemma {:induction false} JoinAppend(l: seq<string>, x: string)
    ensures Join(l + [x]) == if l == [] then x else Join(l) + "," + x
  {
    if l == [] {
      assert l + [x] == [x];
    } else {
      JoinAppend(l[1..], x);
      assert (l + [x])[1..] == l[1..] + [x];
      if |l| == 1 {
        assert l[1..] == [];
      } else {
        assert l[0] + "," + (Join(l[1..]) + "," + x) == l[0] + "," + Join(l[1..]) + "," + x;
      }
    }
  }

  lemma SetSyncAppends(l: seq<string>, x: string)
    requires AreNames(l)
    ensures SetSyncMode(Conf(Join(l)), x) == Conf(Join(l + [x]))
  {
    ListInJoined(l);
    JoinAppend(l, x);
  }

  // ---------------------------------------------------------------------------------------------------
  // set_async_mode removes

  function Without(l: seq<string>, x: string): (r: seq<string>)
    ensures forall name :: name in r <==> name in l && name != x
    ensures Distinct(l) ==> Distinct(r)
  {
    if l == [] then []
    else
      assert Distinct(l) ==> Distinct(l[1..]) && l[0] !in l[1..];
      var rest := Without(l[1..], x);
      if l[0] == x then rest else [l[0]] + rest
  }

  predicate OccursAt(s: string, x: string, i: nat) {
    i + |x| <= |s| && s[i..i + |x|] == x
  }

  predicate Contains(s: string, x: string) {
    exists i: nat :: i <= |s| && OccursAt(s, x, i)
  }

  function RemoveEach(l: seq<string>, x: string): (r: seq<string>)
    requires x != ""
    ensures |r| == |l|
  {
    if l == [] then [] else [RemoveAll(l[0], x)] + RemoveEach(l[1..], x)
  }

  /** No occurrence of a comma-free text reaches over a comma. */
  lemma PrefixStopsAtComma(a: string, rest: string, x: string)
    requires CommaFree(x)
    ensures x <= a + "," + rest <==> x <= a
  {
    var s := a + "," + rest;
    if |x| <= |a| {
      assert s[..|x|] == a[..|x|];
    } else {
      assert s[|a|] == ',' && x[|a|] in x;
    }
  }

  lemma RemoveHere(s: string, x: string)
    requires x != "" && StartsLike(s, x)
    ensures RemoveAll(s, x) == RemoveAll(s[|x|..], x)
  {
  }

  lemma RemoveLater(s: string, x: string)
    requires x != "" && s != "" && !StartsLike(s, x)
    ensures RemoveAll(s, x) == [s[0]] + RemoveAll(s[1..], x)
  {
  }

  lemma DropPrefix(a: string, n: nat, rest: string)
    requires n <= |a|
    ensures (a + "," + rest)[n..] == a[n..] + "," + rest
  {
  }

  lemma PrependTo(c: char, a: string, rest: string)
    ensures [c] + (a + "," + rest) == [c] + a + "," + rest
  {
  }

  lemma {:induction false} RemoveAcrossComma(a: string, rest: string, x: string)
    requires x != "" && CommaFree(x) && '.' !in x
    ensures RemoveAll(a + "," + rest, x) == RemoveAll(a, x) + "," + RemoveAll(rest, x)
    decreases |a|
  {
    var s := a + "," + rest;
    PrefixStopsAtComma(a, rest, x);
    PlainStarts(s, x);
    PlainStarts(a, x);
    if x <= a {
      RemoveHere(s, x);
      RemoveHere(a, x);
      DropPrefix(a, |x|, rest);
      RemoveAcrossComma(a[|x|..], rest, x);
    } else {
      RemoveLater(s, x);
      if a == "" {
        assert s[0] == ',' && s[1..] == rest;
      } else {
        RemoveLater(a, x);
        DropPrefix(a, 1, rest);
        RemoveAcrossComma(a[1..], rest, x);
        PrependTo(a[0], RemoveAll(a[1..], x), RemoveAll(rest, x));
      }
    }
  }

  lemma {:induction false} RemoveFromJoin(l: seq<string>, x: string)
    requires x != "" && CommaFree(x) && '.' !in x && forall name :: name in l ==> CommaFree(name)
    ensures RemoveAll(Join(l), x) == Join(RemoveEach(l, x))
  {
    if |l| > 1 {
      assert l[0] in l && forall name :: name in l[1..] ==> name in l;
      RemoveFromJoin(l[1..], x);
      RemoveAcrossComma(l[0], Join(l[1..]), x);
    }
  }

  lemma SliceOfTail(s: string, i: nat, n: nat)
    requires i + 1 + n <= |s|
    ensures s[1..][i..i + n] == s[i + 1..i + 1 + n]
  {
  }

  lemma ContainsStep(s: string, x: string)
    requires s != ""
    ensures Contains(s, x) <==> x <= s || Contains(s[1..], x)
  {
    if x <= s {
      assert OccursAt(s, x, 0);
    }
    if i: nat :| i <= |s| && OccursAt(s, x, i) {
      if i > 0 {
        SliceOfTail(s, i - 1, |x|);
        assert OccursAt(s[1..], x, i - 1);
      }
    }
    if i: nat :| i <= |s[1..]| && OccursAt(s[1..], x, i) {
      SliceOfTail(s, i, |x|);
      assert OccursAt(s, x, i + 1);
    }
  }

  lemma {:induction false} RemoveNothing(s: string, x: string)
    requires x != "" && '.' !in x
    ensures |RemoveAll(s, x)| <= |s|
    ensures !Contains(s, x) <==> |RemoveAll(s, x)| == |s|
    ensures !Contains(s, x) ==> RemoveAll(s, x) == s
    decreases |s|
  {
    if s != "" {
      ContainsStep(s, x);
      PlainStarts(s, x);
      if x <= s {
        RemoveNothing(s[|x|..], x);
      } else {
        RemoveNothing(s[1..], x);
      }
    }
  }

  lemma RemoveItself(x: string)
    requires x != ""
    ensures RemoveAll(x, x) == ""
  {
    assert x[..|x|] == x && x[|x|..] == "";
  }

  // ---------------------------------------------------------------------------------------------------
  // What the three clean-up substitutions do to the gap

  predicate NoDouble(s: string) {
    forall i :: 0 < i < |s| ==> !(s[i - 1] == ',' && s[i] == ',')
  }

  lemma {:induction false} JoinHasNoDouble(l: seq<string>)
    requires AreNames(l)
    ensures NoDouble(Join(l))
  {
    if |l| == 1 {
      assert l[0] in l;
    } else if |l| > 1 {
      assert l[0] in l && forall name :: name in l[1..] ==> name in l;
      JoinHasNoDouble(l[1..]);
      JoinChars(l[1..]);
    }
  }

  lemma NoDoubleTail(s: string)
    requires NoDouble(s) && s != ""
    ensures NoDouble(s[1..]) && !(",," <= s)
  {
    var tail := s[1..];
    forall i | 0 < i < |tail|
      ensures !(tail[i - 1] == ',' && tail[i] == ',')
    {
      assert tail[i] == s[i + 1] && tail[i - 1] == s[i + 1 - 1];
    }
    if |s| > 1 {
      assert !(s[1 - 1] == ',' && s[1] == ',');
    }
  }

  lemma {:induction false} SqueezeKeeps(s: string)
    requires NoDouble(s)
    ensures Squeeze(s) == s
  {
    if s != "" {
      NoDoubleTail(s);
      assert s == [s[0]] + s[1..];
      SqueezeKeeps(s[1..]);
    }
  }

  lemma SqueezeStep(whole: string)
    requires |whole| > 1 && (whole[0] != ',' || whole[1] != ',')
    ensures Squeeze(whole) == [whole[0]] + Squeeze(whole[1..])
  {
  }

  lemma SqueezeComma(t: string)
    requires NoDouble(t)
    ensures Squeeze(",," + t) == "," + t
  {
    var gap := ",," + t;
    assert gap[2..] == t;
    SqueezeKeeps(t);
  }

  lemma {:induction false} SqueezeGap(s: string, t: string)
    requires NoDouble(s) && NoDouble(t) && s != "" && s[|s| - 1] != ','
    ensures Squeeze(s + ",," + t) == s + "," + t
  {
    var whole := s + ",," + t;
    assert whole[0] == s[0] && (|s| > 1 ==> whole[1] == s[1]);
    if |s| == 1 {
      assert whole[1..] == ",," + t;
      SqueezeComma(t);
    } else {
      NoDoubleTail(s);
      assert !(s[1 - 1] == ',' && s[1] == ',');
      assert whole[1..] == s[1..] + ",," + t;
      SqueezeGap(s[1..], t);
      assert [s[0]] + (s[1..] + "," + t) == s + "," + t;
    }
    SqueezeStep(whole);
  }

  function Clean(s: string): string {
    TrimTail(Squeeze(TrimHead(s)))
  }

  lemma CleanKeepsJoin(l: seq<string>)
    requires AreNames(l)
    ensures Clean(Join(l)) == Join(l)
  {
    JoinChars(l);
    JoinHasNoDouble(l);
    SqueezeKeeps(Join(l));
  }

  lemma {:induction false} JoinConcat(a: seq<string>, b: seq<string>)
    requires b != []
    ensures Join(a + b) == if a == [] then Join(b) else Join(a) + "," + Join(b)
  {
    if a == [] {
      assert a + b == b;
    } else {
      assert (a + b)[1..] == a[1..] + b;
      JoinConcat(a[1..], b);
      if |a| > 1 {
        assert a[0] + "," + (Join(a[1..]) + "," + Join(b)) == a[0] + "," + Join(a[1..]) + "," + Join(b);
      } else {
        assert a[1..] + b == b;
      }
    }
  }

  lemma GapAtStart(b: seq<string>)
    requires AreNames(b)
    ensures Clean(Join([""] + b)) == Join(b)
  {
    if b == [] {
      assert [""] + b == [""];
    } else {
      var whole := "" + "," + Join(b);
      JoinConcat([""], b);
      assert whole[1..] == Join(b);
      CleanKeepsJoin(b);
      JoinChars(b);
    }
  }

  lemma GapInside(s: string, t: string)
    requires NoDouble(s) && s != "" && s[0] != ',' && s[|s| - 1] != ','
    requires NoDouble(t) && t != "" && t[|t| - 1] != ','
    ensures Clean(s + ",," + t) == s + "," + t
  {
    SqueezeGap(s, t);
    var whole := s + "," + t;
    assert whole[|whole| - 1] == t[|t| - 1];
    assert (s + ",," + t)[0] == s[0];
  }

  /** One emptied entry leaves a list that is cleaned into the list without that entry. */
  lemma CleanClosesGap(a: seq<string>, b: seq<string>)
    requires AreNames(a) && AreNames(b)
    ensures Clean(Join(a + [""] + b)) == Join(a + b)
  {
    if a == [] {
      GapAtStart(b);
      assert a + [""] + b == [""] + b && a + b == b;
    } else {
      JoinChars(a);
      JoinHasNoDouble(a);
      JoinAppend(a, "");
      if b == [] {
        assert a + [""] + b == a + [""] && a + b == a;
        EndsInComma(Join(a));
      } else {
        JoinChars(b);
        JoinHasNoDouble(b);
        JoinConcat(a + [""], b);
        JoinConcat(a, b);
        assert Join(a) + "," + "" + "," + Join(b) == Join(a) + ",," + Join(b);
        GapInside(Join(a), Join(b));
      }
    }
  }

  lemma EndsInComma(s: string)
    requires NoDouble(s) && s != "" && s[0] != ',' && s[|s| - 1] != ','
    ensures Clean(s + "," + "") == s
  {
    var whole := s + "," + "";
    assert whole == s + ",";
    assert NoDouble(whole);
    SqueezeKeeps(whole);
  }

  // ---------------------------------------------------------------------------------------------------
  // set_async_mode deletes the entry, exactly when no other entry contains the name

  predicate NoneContain(l: seq<string>, x: string) {
    forall name :: name in l && name != x ==> !Contains(name, x)
  }

  lemma {:induction false} RemoveEachEmpties(l: seq<string>, x: string)
    requires x != "" && '.' !in x && NoneContain(l, x) && x !in l
    ensures RemoveEach(l, x) == l && Without(l, x) == l
  {
    if l != [] {
      assert l[0] in l && forall name :: name in l[1..] ==> name in l;
      RemoveEachEmpties(l[1..], x);
      RemoveNothing(l[0], x);
    }
  }

  lemma {:induction false} WithoutConcat(a: seq<string>, b: seq<string>, x: string)
    ensures Without(a + b, x) == Without(a, x) + Without(b, x)
  {
    if a == [] {
      assert a + b == b;
    } else {
      assert (a + b)[1..] == a[1..] + b;
      WithoutConcat(a[1..], b, x);
    }
  }

  lemma {:induction false} RemoveEachConcat(a: seq<string>, b: seq<string>, x: string)
    requires x != ""
    ensures RemoveEach(a + b, x) == RemoveEach(a, x) + RemoveEach(b, x)
  {
    if a == [] {
      assert a + b == b;
    } else {
      assert (a + b)[1..] == a[1..] + b;
      RemoveEachConcat(a[1..], b, x);
    }
  }

  lemma WithoutEntry(a: seq<string>, x: string, b: seq<string>)
    requires Without(a, x) == a && Without(b, x) == b
    ensures Without(a + [x] + b, x) == a + b
  {
    var one := [x];
    assert one[1..] == [] && Without(one, x) == [];
    WithoutConcat(a + one, b, x);
    WithoutConcat(a, one, x);
    assert a + [] == a;
  }

  lemma EmptiedEntry(a: seq<string>, x: string, b: seq<string>)
    requires x != "" && RemoveEach(a, x) == a && RemoveEach(b, x) == b
    ensures RemoveEach(a + [x] + b, x) == a + [""] + b
  {
    var one := [x];
    RemoveItself(x);
    assert one[1..] == [] && RemoveEach(one, x) == [""];
    RemoveEachConcat(a + one, b, x);
    RemoveEachConcat(a, one, x);
  }

  lemma RemovalOfEntry(a: seq<string>, x: string, b: seq<string>)
    requires AreNames(a) && AreNames(b) && IsPlain(x) && x !in a && x !in b && NoneContain(a, x) && NoneContain(b, x)
    ensures Without(a + [x] + b, x) == a + b
    ensures Clean(Join(RemoveEach(a + [x] + b, x))) == Join(a + b)
  {
    RemoveEachEmpties(a, x);
    RemoveEachEmpties(b, x);
    WithoutEntry(a, x, b);
    EmptiedEntry(a, x, b);
    CleanClosesGap(a, b);
  }

  lemma SplitAt(l: seq<string>, k: nat)
    requires k < |l| && Distinct(l)
    ensures l == l[..k] + [l[k]] + l[k + 1..] && l[k] !in l[..k] && l[k] !in l[k + 1..]
  {
  }

  lemma RemovalDeletes(l: seq<string>, x: string)
    requires AreNames(l) && IsPlain(x) && Distinct(l) && NoneContain(l, x)
    ensures Clean(RemoveAll(Join(l), x)) == Join(Without(l, x))
  {
    NamesAreCommaFree(l);
    NamesAreCommaFree([x]);
    RemoveFromJoin(l, x);
    if x in l {
      var k :| 0 <= k < |l| && l[k] == x;
      SplitAt(l, k);
      RemovalOfEntry(l[..k], x, l[k + 1..]);
    } else {
      RemoveEachEmpties(l, x);
      CleanKeepsJoin(l);
    }
  }

  lemma NamesAreCommaFree(l: seq<string>)
    requires AreNames(l)
    ensures forall name :: name in l ==> CommaFree(name)
  {
  }

  /** The number of characters that are not commas. */
  function Weight(s: string): nat {
    if s == "" then 0 else (if s[0] == ',' then 0 else 1) + Weight(s[1..])
  }

  lemma {:induction false} WeightConcat(s: string, t: string)
    ensures Weight(s + t) == Weight(s) + Weight(t)
  {
    if s == "" {
      assert s + t == t;
    } else {
      assert (s + t)[1..] == s[1..] + t;
      WeightConcat(s[1..], t);
    }
  }

  lemma {:induction false} WeightSqueeze(s: string)
    ensures Weight(Squeeze(s)) == Weight(s)
  {
    if s != "" {
      if ",," <= s {
        assert s[1..][1..] == s[2..] && s[1] == ',';
        WeightSqueeze(s[2..]);
        WeightConcat(",", Squeeze(s[2..]));
      } else {
        WeightSqueeze(s[1..]);
        WeightConcat([s[0]], Squeeze(s[1..]));
      }
    }
  }

  lemma WeightClean(s: string)
    ensures Weight(Clean(s)) == Weight(s)
  {
    var t := Squeeze(TrimHead(s));
    WeightSqueeze(TrimHead(s));
    if t != "" && t[|t| - 1] == ',' {
      assert t == t[..|t| - 1] + ",";
      WeightConcat(t[..|t| - 1], ",");
    }
  }

  lemma {:induction false} WeightCommaFree(s: string)
    ensures Weight(s) <= |s|
    ensures CommaFree(s) ==> Weight(s) == |s|
  {
    if s != "" {
      WeightCommaFree(s[1..]);
    }
  }

  lemma WeightJoin(l: seq<string>)
    requires l != []
    ensures Weight(Join(l)) == Weight(l[0]) + Weight(Join(l[1..]))
  {
    if |l| > 1 {
      WeightConcat(l[0] + ",", Join(l[1..]));
      WeightConcat(l[0], ",");
      assert Weight(",") == 0;
    }
  }

  /** Removing x from every entry never leaves more text than dropping the entry x, and leaves less if another
      entry contains x. */
  lemma {:induction false} RemovalWeighs(l: seq<string>, x: string)
    requires AreNames(l) && IsPlain(x)
    ensures Weight(Join(RemoveEach(l, x))) <= Weight(Join(Without(l, x)))
    ensures !NoneContain(l, x) ==> Weight(Join(RemoveEach(l, x))) < Weight(Join(Without(l, x)))
  {
    if l != [] {
      var rest := l[1..];
      assert l[0] in l && forall name :: name in rest ==> name in l;
      RemovalWeighs(rest, x);
      WeightJoin(RemoveEach(l, x));
      assert RemoveEach(l, x)[1..] == RemoveEach(rest, x);
      RemoveNothing(l[0], x);
      WeightCommaFree(RemoveAll(l[0], x));
      WeightCommaFree(l[0]);
      if l[0] == x {
        RemoveItself(x);
      } else {
        WeightJoin(Without(l, x));
        assert Without(l, x)[1..] == Without(rest, x);
      }
      if !NoneContain(l, x) {
        var name :| name in l && name != x && Contains(name, x);
        assert name == l[0] || name in rest;
      }
    }
  }

  /** On a duplicate-free list of names, for a name without dots, the text edit of set_async_mode leaves exactly the
      list without x if and only if no other entry contains x as a substring. */
  lemma SetAsyncDeletes(l: seq<string>, x: string)
    requires AreNames(l) && IsPlain(x) && Distinct(l)
    ensures SetAsyncMode(Conf(Join(l)), x) == Conf(Join(Without(l, x))) <==> NoneContain(l, x)
  {
    ListInJoined(l);
    if l != [] {
      if NoneContain(l, x) {
        RemovalDeletes(l, x);
      } else {
        NamesAreCommaFree(l);
        NamesAreCommaFree([x]);
        RemoveFromJoin(l, x);
        RemovalWeighs(l, x);
        WeightClean(RemoveAll(Join(l), x));
        ConfIsInjective(Clean(RemoveAll(Join(l), x)), Join(Without(l, x)));
      }
    }
  }

  lemma ConfIsInjective(a: string, b: string)
    ensures Conf(a) == Conf(b) <==> a == b
  {
    assert Conf(a)[|PREFIX|..|Conf(a)| - 1] == a && Conf(b)[|PREFIX|..|Conf(b)| - 1] == b;
  }

  /** Removing pg1 damages pg10. */
  lemma RemovingPg1DamagesPg10()
    ensures SetAsyncMode(Conf(Join(["pg1", "pg10"])), "pg1") != Conf(Join(["pg10"]))
  {
    assert OccursAt("pg10", "pg1", 0) && "pg10" in ["pg1", "pg10"];
    assert Without(["pg1", "pg10"], "pg1") == ["pg10"] by {
      assert ["pg1", "pg10"][1..] == ["pg10"] && ["pg10"][1..] == [];
    }
    SetAsyncDeletes(["pg1", "pg10"], "pg1");
  }

  // ---------------------------------------------------------------------------------------------------
  // is_sync_mode is membership

  /** The list as a delimiter and the closing quote enclose it. */
  function Quoted(d: char, l: seq<string>): string {
    [d] + Join(l) + "'"
  }

  /** The text between two of the list's delimiters. */
  function Stretch(l: seq<string>, i: nat, j: nat): string
    requires i < j <= |l|
  {
    Join(l[i..j])
  }

  /** Two delimiters have an x-like text between them. */
  predicate Encloses(l: seq<string>, i: nat, j: nat, x: string) {
    i < j <= |l| && Like(x, Stretch(l, i, j))
  }

  /** A comma of the joined text parts the list in two. */
  lemma {:induction false} CommaParts(l: seq<string>, c: nat) returns (k: nat)
    requires AreNames(l) && c < |Join(l)| && Join(l)[c] == ','
    ensures 0 < k < |l| && Join(l)[..c] == Join(l[..k]) && Join(l)[c + 1..] == Join(l[k..])
  {
    assert l[0] in l && forall name :: name in l[1..] ==> name in l;
    if |l| > 1 {
      var n := |l[0]|;
      assert forall p :: 0 <= p < n ==> Join(l)[p] == l[0][p];
      if c == n {
        k := 1;
        assert l[..1] == [l[0]] && Join(l)[..n] == l[0] && Join(l)[n + 1..] == Join(l[1..]);
      } else {
        var j := CommaParts(l[1..], c - n - 1);
        k := j + 1;
        PartsGoOn(l, j, c);
      }
    }
  }

  lemma PartsGoOn(l: seq<string>, j: nat, c: nat)
    requires |l| > 1 && 0 < j < |l| - 1 && |l[0]| < c < |Join(l)|
    requires Join(l[1..])[..c - |l[0]| - 1] == Join(l[1..][..j])
    requires Join(l[1..])[c - |l[0]|..] == Join(l[1..][j..])
    ensures Join(l)[..c] == Join(l[..j + 1]) && Join(l)[c + 1..] == Join(l[j + 1..])
  {
    assert l[..j + 1][0] == l[0] && l[..j + 1][1..] == l[1..][..j];
    assert l[1..][j..] == l[j + 1..];
  }

  /** Delimiters in the quoted list: its ends and its commas. */
  lemma DelimitersOf(l: seq<string>, d: char, p: nat)
    requires AreNames(l) && p < |Quoted(d, l)| && IsDelimiter(Quoted(d, l)[p])
    ensures p == 0 || p == |Join(l)| + 1 || (p <= |Join(l)| && Join(l)[p - 1] == ',')
  {
    JoinChars(l);
    if 0 < p <= |Join(l)| {
      assert Quoted(d, l)[p] == Join(l)[p - 1];
    }
  }

  lemma QuotedSlice(l: seq<string>, d: char, p: nat, n: nat)
    requires p + n <= |Join(l)|
    ensures Quoted(d, l)[p + 1..p + 1 + n] == Join(l)[p..][..n]
  {
  }

  /** What follows a delimiter. */
  lemma SuffixAt(l: seq<string>, p: nat) returns (i: nat)
    requires AreNames(l) && l != [] && p <= |Join(l)| && (p == 0 || Join(l)[p - 1] == ',')
    ensures i < |l| && Join(l)[p..] == Join(l[i..])
  {
    if p == 0 {
      i := 0;
      assert Join(l)[0..] == Join(l) && l[0..] == l;
    } else {
      i := CommaParts(l, p - 1);
    }
  }

  /** What lies between the list's beginning and its nth character, a comma or the end. */
  lemma PrefixAt(l: seq<string>, n: nat) returns (j: nat)
    requires AreNames(l) && l != [] && n <= |Join(l)| && (n == |Join(l)| || Join(l)[n] == ',')
    ensures 0 < j <= |l| && Join(l)[..n] == Join(l[..j])
  {
    if n == |Join(l)| {
      j := |l|;
      assert Join(l)[..n] == Join(l) && l[..j] == l;
    } else {
      j := CommaParts(l, n);
    }
  }

  lemma FoundIsEnclosed(l: seq<string>, d: char, x: string, p: nat) returns (i: nat, j: nat)
    requires AreNames(l) && x != "" && DelimitedAt(Quoted(d, l), x, p)
    ensures Encloses(l, i, j, x)
  {
    var n, s := |x|, Join(l);
    DelimitersOf(l, d, p);
    DelimitersOf(l, d, p + n + 1);
    QuotedSlice(l, d, p, n);
    i := SuffixAt(l, p);
    var m := PrefixAt(l[i..], n);
    j := i + m;
    assert l[i..][..m] == l[i..j];
  }

  /** What stands before and after some entries in a row. */
  function Ahead(l: seq<string>): string {
    if l == [] then "" else Join(l) + ","
  }

  function Behind(l: seq<string>): string {
    if l == [] then "" else "," + Join(l)
  }

  lemma JoinAround(a: seq<string>, b: seq<string>, c: seq<string>)
    requires b != []
    ensures Join(a + b + c) == Ahead(a) + Join(b) + Behind(c)
  {
    JoinAhead(a, b);
    if c == [] {
      NothingAfter(a + b);
      NothingAfter(Join(a + b));
    } else {
      JoinConcat(a + b, c);
      Associate(Join(a + b), ",", Join(c));
    }
  }

  lemma JoinAhead(a: seq<string>, b: seq<string>)
    requires b != []
    ensures Join(a + b) == Ahead(a) + Join(b)
  {
    JoinConcat(a, b);
  }

  lemma EnclosedIsFound(l: seq<string>, d: char, x: string, i: nat, j: nat) returns (p: nat)
    requires IsDelimiter(d) && Encloses(l, i, j, x)
    ensures DelimitedAt(Quoted(d, l), x, p)
  {
    var before, after := Ahead(l[..i]), Behind(l[j..]);
    assert l == l[..i] + l[i..j] + l[j..];
    JoinAround(l[..i], l[i..j], l[j..]);
    p := |before|;
    Regroup(d, before, Stretch(l, i, j), after);
    DelimitedBetween([d] + before, Stretch(l, i, j), after + "'", x);
  }

  lemma Regroup(d: char, before: string, text: string, after: string)
    ensures [d] + (before + text + after) + "'" == ([d] + before) + text + (after + "'")
  {
  }

  lemma DelimitedBetween(a: string, text: string, b: string, x: string)
    requires a != "" && IsDelimiter(a[|a| - 1]) && b != "" && IsDelimiter(b[0]) && Like(x, text)
    ensures DelimitedAt(a + text + b, x, |a| - 1)
  {
    var t, p := a + text + b, |a| - 1;
    assert t[p] == a[p] && t[p + |x| + 1] == b[0];
    assert t[p + 1..p + 1 + |x|] == text;
  }

  /** No name can start inside the text before the list. */
  predicate NoWordStartsIn(head: string) {
    forall k :: 0 <= k < |head| - 1 && IsDelimiter(head[k]) ==> !IsNameChar(head[k + 1])
  }

  lemma FindWithHead(head: string, tail: string, x: string, j: nat)
    requires DelimitedAt(tail, x, j)
    ensures DelimitedAt(head + tail, x, |head| + j)
  {
    var conf, i := head + tail, |head| + j;
    assert tail[j + 1..j + 1 + |x|] == conf[i + 1..i + 1 + |x|];
  }

  lemma FindInTail(head: string, tail: string, x: string, i: nat)
    requires i >= |head| && DelimitedAt(head + tail, x, i)
    ensures DelimitedAt(tail, x, i - |head|)
  {
    var conf, j := head + tail, i - |head|;
    assert tail[j + 1..j + 1 + |x|] == conf[i + 1..i + 1 + |x|];
  }

  /** Before the list there is no delimiter that a name could follow. */
  lemma NotInHead(head: string, tail: string, i: nat)
    requires tail != "" && !IsNameChar(tail[0]) && NoWordStartsIn(head)
    requires i + 1 < |head + tail| && IsDelimiter((head + tail)[i]) && IsNameChar((head + tail)[i + 1])
    ensures i >= |head|
  {
    assert forall p :: 0 <= p < |head| ==> (head + tail)[p] == head[p];
  }

  predicate IsWord(s: string) {
    forall i :: 0 <= i < |s| ==> IsNameChar(s[i])
  }

  lemma SettingIsWord()
    ensures IsWord(SETTING)
  {
    assert IsWord("synchronous_");
    assert IsWord("standby_");
    assert IsWord("names");
  }

  lemma NoWordStartsInHead()
    ensures NoWordStartsIn(HEAD)
  {
    SettingIsWord();
    WordThenEquals(SETTING);
  }

  lemma WordThenEquals(word: string)
    requires IsWord(word)
    ensures NoWordStartsIn(word + " = ")
  {
    var s := word + " = ";
    assert s[|word|] == ' ' && s[|word| + 1] == '=' && s[|word| + 2] == ' ';
    assert forall k :: 0 <= k < |word| ==> s[k] == word[k];
  }

  lemma ConfSplits(l: seq<string>)
    ensures Conf(Join(l)) == HEAD + Quoted('\'', l)
  {
    var list := Join(l);
    assert HEAD + "'" + list + "'" == HEAD + ("'" + list + "'");
  }

  lemma FoundInConf(l: seq<string>, x: string, p: nat) returns (i: nat, j: nat)
    requires AreNames(l) && IsName(x) && DelimitedAt(Conf(Join(l)), x, p)
    ensures Encloses(l, i, j, x)
  {
    ConfSplits(l);
    NoWordStartsInHead();
    assert Conf(Join(l))[p + 1..p + 1 + |x|][0] == Conf(Join(l))[p + 1];
    NotInHead(HEAD, Quoted('\'', l), p);
    FindInTail(HEAD, Quoted('\'', l), x, p);
    i, j := FoundIsEnclosed(l, '\'', x, p - |HEAD|);
  }

  lemma InConf(l: seq<string>, x: string, i: nat, j: nat)
    requires AreNames(l) && Encloses(l, i, j, x)
    ensures IsSyncMode(Conf(Join(l)), x)
  {
    ConfSplits(l);
    var p := EnclosedIsFound(l, '\'', x, i, j);
    FindWithHead(HEAD, Quoted('\'', l), x, p);
  }

  /** grep finds a name exactly when some entries in a row, joined by their commas, match it as a pattern. */
  lemma IsSyncModeIsStretch(l: seq<string>, x: string)
    requires AreNames(l) && IsName(x)
    ensures IsSyncMode(Conf(Join(l)), x) <==> exists i, j :: Encloses(l, i, j, x)
  {
    if i: nat, j: nat :| Encloses(l, i, j, x) {
      InConf(l, x, i, j);
    }
    if IsSyncMode(Conf(Join(l)), x) {
      var p: nat :| p < |Conf(Join(l))| && DelimitedAt(Conf(Join(l)), x, p);
      var i, j := FoundInConf(l, x, p);
    }
  }

  lemma StretchOfOne(l: seq<string>, i: nat, j: nat)
    requires i < j <= |l|
    ensures j == i + 1 ==> Stretch(l, i, j) == l[i]
    ensures j > i + 1 ==> ',' in Stretch(l, i, j)
  {
    if j > i + 1 {
      assert Stretch(l, i, j)[|l[i]|] == ',';
    }
  }

  /** So it finds every entry, and, for a name without dots, nothing else. */
  lemma IsSyncModeIsMembership(l: seq<string>, x: string)
    requires AreNames(l) && IsName(x)
    ensures x in l ==> IsSyncMode(Conf(Join(l)), x)
    ensures IsPlain(x) ==> (IsSyncMode(Conf(Join(l)), x) <==> x in l)
  {
    IsSyncModeIsStretch(l, x);
    if x in l {
      var k :| 0 <= k < |l| && l[k] == x;
      StretchOfOne(l, k, k + 1);
      assert Encloses(l, k, k + 1, x);
    }
    if IsPlain(x) && IsSyncMode(Conf(Join(l)), x) {
      var i: nat, j: nat :| Encloses(l, i, j, x);
      StretchOfOne(l, i, j);
      PlainLike(x, Stretch(l, i, j));
    }
  }
}
