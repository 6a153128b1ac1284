/** WAL locations in docker/postgres-member/resource_agents/pgsql: Postgres prints them as "HI/LO" in hex without
    leading zeros, the agent pads both halves to eight digits and from then on compares them as text, the way
    sort does in the C locale. */
module WalLocation {
  import opened Base
  import opened Shell

  // ---------------------------------------------------------------------------------------------------
  // Hex numbers

  predicate IsHex(s: string) {
    forall i :: 0 <= i < |s| ==> '0' <= s[i] <= '9' || 'A' <= s[i] <= 'F'
  }

  function Digit(c: char): int {
    if c <= '9' then c as int - '0' as int else c as int - 'A' as int + 10
  }

  function Pow16(n: nat): nat {
    if n == 0 then 1 else 16 * Pow16(n - 1)
  }

  function Value(s: string): int {
    if s == [] then 0 else Digit(s[0]) * Pow16(|s| - 1) + Value(s[1..])
  }

  lemma {:induction false} ValueBound(s: string)
    requires IsHex(s)
    ensures 0 <= Value(s) < Pow16(|s|)
  {
    if s != [] {
      ValueBound(s[1..]);
      ScaleBound(Digit(s[0]), Pow16(|s| - 1));
    }
  }

  lemma ScaleBound(d: int, p: nat)
    requires 0 <= d <= 15
    ensures 0 <= d * p <= 15 * p
  {
  }

  lemma ScaleStep(d: int, e: int, p: nat)
    requires d < e
    ensures d * p + p <= e * p
  {
    assert (d + 1) * p <= e * p;
  }

  /** On hex text of one length, byte order is numeric order. */
  lemma {:induction false} TextOrderIsNumericOrder(a: string, b: string)
    requires IsHex(a) && IsHex(b) && |a| == |b|
    ensures TextLess(a, b) <==> Value(a) < Value(b)
    ensures a == b <==> Value(a) == Value(b)
  {
    if a != [] {
      var p := Pow16(|a| - 1);
      TextOrderIsNumericOrder(a[1..], b[1..]);
      ValueBound(a[1..]);
      ValueBound(b[1..]);
      if a[0] < b[0] {
        ScaleStep(Digit(a[0]), Digit(b[0]), p);
      } else if b[0] < a[0] {
        ScaleStep(Digit(b[0]), Digit(a[0]), p);
      } else {
        assert a == [a[0]] + a[1..] && b == [b[0]] + b[1..];
      }
    }
  }

  lemma {:induction false} Pow16Sum(m: nat, n: nat)
    ensures Pow16(m + n) == Pow16(m) * Pow16(n)
  {
    if m > 0 {
      Pow16Sum(m - 1, n);
    }
  }

  lemma {:induction false} ValueConcat(a: string, b: string)
    ensures Value(a + b) == Value(a) * Pow16(|b|) + Value(b)
  {
    if a == [] {
      assert a + b == b;
    } else {
      ValueConcat(a[1..], b);
      assert (a + b)[1..] == a[1..] + b;
      Pow16Sum(|a| - 1, |b|);
      Distribute(Digit(a[0]), Pow16(|a| - 1), Value(a[1..]), Pow16(|b|));
    }
  }

  lemma Distribute(d: int, p: int, v: int, q: int)
    ensures d * (p * q) + v * q == (d * p + v) * q
  {
  }

  lemma {:induction false} ZerosAreZero(n: int)
    ensures IsHex(Zeros(n)) && Value(Zeros(n)) == 0 && |Zeros(n)| == Max(n, 0)
  {
    if n > 0 {
      ZerosAreZero(n - 1);
      assert Zeros(n)[1..] == Zeros(n - 1);
    }
  }

  lemma PadKeepsValue(s: string)
    requires IsHex(s) && |s| <= 8
    ensures IsHex(Pad8(s)) && |Pad8(s)| == 8 && Value(Pad8(s)) == Value(s)
  {
    ZerosAreZero(8 - |s|);
    ValueConcat(Zeros(8 - |s|), s);
  }

  // ---------------------------------------------------------------------------------------------------
  // Locations

  /** What Postgres prints for a location, or nothing for a missing one. */
  ghost predicate IsLocation(text: string) {
    text == "" || exists high, low :: IsHalf(high) && IsHalf(low) && text == high + "/" + low
  }

  predicate IsHalf(s: string) {
    IsHex(s) && |s| <= 8
  }

  /** The 64-bit position that the text stands for. */
  function Position(text: string): int {
    Value(Cut1(text, '/')) * 0x1_0000_0000 + Value(Cut2(text, '/'))
  }

  function Padded(text: string): string {
    Pad8(Cut1(text, '/')) + Pad8(Cut2(text, '/'))
  }

  predicate IsEncoded(s: string) {
    |s| == 16 && IsHex(s)
  }

  lemma {:induction false} CutHex(high: string, low: string)
    requires IsHex(high)
    ensures var text := high + "/" + low;
      '/' in text && Before(text, '/') == high && After(text, '/') == low
  {
    var text := high + "/" + low;
    assert text[|high|] == '/';
    if high == [] {
      assert text[1..] == low;
    } else {
      CutHex(high[1..], low);
      assert text[1..] == high[1..] + "/" + low;
      assert high == [high[0]] + high[1..];
    }
  }

  lemma {:induction false} HexHasNoSlash(s: string)
    requires IsHex(s)
    ensures Before(s, '/') == s
  {
    if s != [] {
      HexHasNoSlash(s[1..]);
    }
  }

  /** Padding loses nothing: the padded text is 16 hex digits whose value is the 64-bit position. */
  lemma PaddedDecodes(text: string)
    requires IsLocation(text)
    ensures IsEncoded(Padded(text)) && Value(Padded(text)) == Position(text)
    ensures 0 <= Position(text) < 0x1_0000_0000_0000_0000
  {
    HalvesAreHex(text);
    JoinHalves(Cut1(text, '/'), Cut2(text, '/'));
  }

  lemma HalvesAreHex(text: string)
    requires IsLocation(text)
    ensures IsHex(Cut1(text, '/')) && |Cut1(text, '/')| <= 8
    ensures IsHex(Cut2(text, '/')) && |Cut2(text, '/')| <= 8
  {
    if text != "" {
      var high, low :| IsHalf(high) && IsHalf(low) && text == high + "/" + low;
      CutHex(high, low);
      HexHasNoSlash(low);
    }
  }

  lemma JoinHalves(high: string, low: string)
    requires IsHex(high) && |high| <= 8 && IsHex(low) && |low| <= 8
    ensures var joined := Pad8(high) + Pad8(low);
      && IsEncoded(joined) && Value(joined) == Value(high) * 0x1_0000_0000 + Value(low)
      && 0 <= Value(joined) < 0x1_0000_0000_0000_0000
  {
    PadKeepsValue(high);
    PadKeepsValue(low);
    var joined := Pad8(high) + Pad8(low);
    ValueConcat(Pad8(high), Pad8(low));
    Pow16Of8();
    ValueBound(joined);
  }

  lemma Pow16Of8()
    ensures Pow16(8) == 0x1_0000_0000 && Pow16(16) == 0x1_0000_0000_0000_0000
  {
    assert Pow16(4) == 0x1_0000;
    Pow16Sum(4, 4);
    Pow16Sum(8, 8);
  }

  /** Comparing padded locations as text is comparing them as 64-bit numbers. */
  lemma PaddedOrderIsPositionOrder(a: string, b: string)
    requires IsLocation(a) && IsLocation(b)
    ensures TextLess(Padded(a), Padded(b)) <==> Position(a) < Position(b)
    ensures Padded(a) == Padded(b) <==> Position(a) == Position(b)
  {
    PaddedDecodes(a);
    PaddedDecodes(b);
    TextOrderIsNumericOrder(Padded(a), Padded(b));
  }

  /** get_my_location after its query, pgsql:1154-1171: `output` is "replay|receive". */
  function GetMyLocation(output: string): string {
    Last(Padded(Cut1(output, '|')), Padded(Cut2(output, '|')))
  }

  lemma {:induction false} CutRow(replay: string, receive: string)
    requires '|' !in replay && '|' !in receive
    ensures var row := replay + "|" + receive; Cut1(row, '|') == replay && Cut2(row, '|') == receive
  {
    var row := replay + "|" + receive;
    assert row[|replay|] == '|';
    if replay == [] {
      assert row[1..] == receive;
      NoDelimiter(receive, '|');
    } else {
      CutRow(replay[1..], receive);
      assert row[1..] == replay[1..] + "|" + receive;
      assert replay == [replay[0]] + replay[1..];
    }
  }

  lemma {:induction false} NoDelimiter(s: string, delimiter: char)
    requires delimiter !in s
    ensures Before(s, delimiter) == s
  {
    if s != [] {
      NoDelimiter(s[1..], delimiter);
    }
  }

  lemma LocationHasNoBar(text: string)
    requires IsLocation(text)
    ensures '|' !in text
  {
    if text != "" {
      var high, low :| IsHalf(high) && IsHalf(low) && text == high + "/" + low;
      assert '|' !in high && '|' !in low;
    }
  }

  /** get_my_location prints the encoding of the larger of the two positions, a missing one counting as zero. */
  lemma MyLocationIsTheLarger(replay: string, receive: string)
    requires IsLocation(replay) && IsLocation(receive)
    ensures var mine := GetMyLocation(replay + "|" + receive);
      && IsEncoded(mine) && Value(mine) == Max(Position(replay), Position(receive))
      && (mine == Padded(replay) || mine == Padded(receive))
  {
    LocationHasNoBar(replay);
    LocationHasNoBar(receive);
    CutRow(replay, receive);
    PaddedDecodes(replay);
    PaddedDecodes(receive);
    PaddedOrderIsPositionOrder(replay, receive);
  }

  // ---------------------------------------------------------------------------------------------------
  // pgsql_pre_promote, pgsql:862-891

  /** Baselines are the attributes that show_master_baseline left on the nodes, empty where the location could
      not be read. A missing local one reads as the empty line, which sorts first. */
  method PrePromote(nodes: nat, sync: bool, promoted: string, me: string, baselines: map<string, string>)
    returns (rejected: bool)
    requires forall node :: node in baselines ==> baselines[node] == "" || IsEncoded(baselines[node])
    ensures rejected <==>
      && nodes >= 3 && sync && promoted != me && promoted in baselines
      && me in baselines && baselines[me] != ""
      && (baselines[promoted] == "" || Value(baselines[me]) > Value(baselines[promoted]))
  {
    rejected := false;
    if nodes >= 3 && sync && promoted != me {
      if promoted in baselines {
        var masterBaseline := baselines[promoted];
        var myMasterBaseline := if me in baselines then baselines[me] else "";
        var older := First(masterBaseline, myMasterBaseline);
        if masterBaseline != "" && myMasterBaseline != "" {
          TextOrderIsNumericOrder(masterBaseline, myMasterBaseline);
          TextOrderIsNumericOrder(myMasterBaseline, masterBaseline);
        }
        if older != myMasterBaseline {
          rejected := true;
        }
      }
    }
  }
}
