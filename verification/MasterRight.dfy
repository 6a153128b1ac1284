/** have_master_right of docker/postgres-member/resource_agents/pgsql (lines 1036-1125): a standby without a
    primary counts, in numbered note files, how often in a row it saw the same WAL locations, and claims the
    primary's role once the count is reached and its own location is the newest. */
module MasterRight {
  import opened Base
  import opened Shell
  import W = WalLocation

  /** One line of a note file: a node and its location. */
  datatype Line = Line(node: string, loc: string)
  type Note = seq<Line>

  /** The note files by number. Reading one that is not there gives nothing, like reading an empty one. */
  type Notes = map<nat, Note>

  function Text(files: Notes, k: nat): Note {
    if k in files then files[k] else []
  }

  const PROMOTE_ME := "1000"

  datatype Verdict =
    | OutOfDate                // the data status closes the gate
    | Unreadable               // the own location cannot be determined; the agent exits
    | NotYet
    | Unfit                    // counted to the end, but some other node is newer
    | Right

  /** The gate, pgsql:1050-1065; "" stands for an attribute that was never set. */
  predicate PassesGate(sync: bool, status: string) {
    status == "" || status == "STREAMING|SYNC" || status == "LATEST" || (!sync && status == "STREAMING|ASYNC")
  }

  /** Of what slave control and the agents write, each mode lets through the streamers that it trusts, the latest
      node, and one that nothing was ever written about. */
  lemma GateAdmits(sync: bool, status: string)
    ensures PassesGate(true, status) <==> status in {"", "STREAMING|SYNC", "LATEST"}
    ensures PassesGate(false, status) <==> status in {"", "STREAMING|SYNC", "LATEST", "STREAMING|ASYNC"}
    ensures !PassesGate(sync, "DISCONNECT") && !PassesGate(sync, "STREAMING|POTENTIAL")
  {
    assert "DISCONNECT"[0] == 'D' && |"STREAMING|POTENTIAL"| == 19;
  }

  /** The number of the last file in the unbroken run 1, 2, .., looking no further than `limit`. */
  function CountNotes(files: Notes, limit: int, k: nat): nat
    decreases limit - k
  {
    if k < limit && k + 1 in files then CountNotes(files, limit, k + 1) else k
  }

  /** sort -t " " -k 2,3 -r | head -1 | cut -d " " -f 2 */
  function Newest(note: Note): string {
    if note == [] then "" else Last(note[0].loc, Newest(note[1..]))
  }

  /** echo .. >> file, for each of these lines. */
  function Appended(files: Notes, k: nat, seen: Note): Notes {
    if seen == [] then files else files[k := Text(files, k) + seen]
  }

  lemma AppendMore(files: Notes, k: nat, seen: Note, line: Line)
    ensures var so := Appended(files, k, seen); so[k := Text(so, k) + [line]] == Appended(files, k, seen + [line])
  {
    if seen == [] {
      assert seen + [line] == [line];
    } else {
      assert Text(files, k) + seen + [line] == Text(files, k) + (seen + [line]);
    }
  }

  /** The last part of a call: the two newest files are compared. */
  function Decide(files: Notes, oldNumber: nat, checkCount: int, mine: string): (Notes, Verdict) {
    var newText := Text(files, oldNumber + 1);
    if Text(files, oldNumber) != newText then (map[0 := newText], NotYet)
    else if oldNumber + 1 < checkCount then (files, NotYet)
    else if Newest(newText) == mine then (files, Right)
    else (map[0 := newText], Unfit)
  }

  /** What one call does to the files once the gate is passed: `seen` has a line for every node whose location can
      be read, `mine` is the own location among them, "" if it is missing. */
  function Observe(files: Notes, checkCount: int, seen: Note, mine: string): (Notes, Verdict) {
    var oldNumber := CountNotes(files, checkCount, 0);
    Decide(Appended(files, oldNumber + 1, seen), oldNumber, checkCount, mine)
  }

  /** The lines that one call appends, for the nodes whose location attribute can be read. */
  function Lines(nodes: seq<string>, locations: map<string, string>): Note {
    if nodes == [] then []
    else
      var rest, node := Lines(nodes[..|nodes| - 1], locations), nodes[|nodes| - 1];
      if node in locations then rest + [Line(node, locations[node])] else rest
  }

  function Mine(nodes: seq<string>, locations: map<string, string>, me: string): string {
    if me in nodes && me in locations then locations[me] else ""
  }

  lemma OneMore(nodes: seq<string>, i: nat, locations: map<string, string>, me: string)
    requires i < |nodes|
    ensures var before, node := nodes[..i], nodes[i];
      && Lines(nodes[..i + 1], locations) ==
         (if node in locations then Lines(before, locations) + [Line(node, locations[node])]
          else Lines(before, locations))
      && Mine(nodes[..i + 1], locations, me) ==
         (if node in locations && node == me then locations[node] else Mine(before, locations, me))
  {
    assert nodes[..i + 1][..i] == nodes[..i];
    assert nodes[..i + 1] == nodes[..i] + [nodes[i]];
  }

  lemma {:induction false} LinesOf(nodes: seq<string>, locations: map<string, string>, node: string)
    ensures forall line :: line in Lines(nodes, locations) ==>
      line.node in nodes && line.node in locations && line.loc == locations[line.node]
    ensures node in nodes && node in locations ==> Line(node, locations[node]) in Lines(nodes, locations)
  {
    if nodes != [] {
      LinesOf(nodes[..|nodes| - 1], locations, node);
    }
  }

  class Agent {
    const me: string
    const nodeList: seq<string>
    const sync: bool
    const checkCount: int
    var files: Notes
    var dataStatus: string     // the own data status
    var score: string          // the own promotion score

    constructor (me: string, nodeList: seq<string>, sync: bool, checkCount: int, dataStatus: string, score: string)
      ensures files == map[] && this.dataStatus == dataStatus && this.score == score
      ensures this.me == me && this.nodeList == nodeList && this.sync == sync && this.checkCount == checkCount
    {
      this.me, this.nodeList, this.sync, this.checkCount := me, nodeList, sync, checkCount;
      this.files, this.dataStatus, this.score := map[], dataStatus, score;
    }

    /** `published`: show_xlog_location worked; `locations`: the location attributes that can be read. */
    method HaveMasterRight(published: bool, locations: map<string, string>) returns (verdict: Verdict)
      modifies this
      ensures (Standing(files, dataStatus), verdict) ==
        Call(sync, checkCount, old(Standing(files, dataStatus)),
             Turn(published, Lines(nodeList, locations), Mine(nodeList, locations, me)))
      ensures verdict == OutOfDate <==> !PassesGate(sync, old(dataStatus))
      ensures verdict == Unreadable <==> PassesGate(sync, old(dataStatus)) && !published
      ensures verdict == OutOfDate || verdict == Unreadable ==> files == old(files)
      ensures verdict != OutOfDate && verdict != Unreadable ==>
        (files, verdict) == Observe(old(files), checkCount, Lines(nodeList, locations), Mine(nodeList, locations, me))
      ensures dataStatus == if verdict == Unfit then "DISCONNECT" else old(dataStatus)
      ensures score == if verdict == Right then PROMOTE_ME else old(score)
    {
      if !PassesGate(sync, dataStatus) {
        return OutOfDate;
      }
      if !published {
        return Unreadable;
      }
      var oldNumber: nat := 0;
      while oldNumber < checkCount && oldNumber + 1 in files
        invariant CountNotes(files, checkCount, oldNumber) == CountNotes(files, checkCount, 0)
        decreases checkCount - oldNumber
      {
        oldNumber := oldNumber + 1;
      }
      var newNumber := oldNumber + 1;
      var mine := "";
      for i := 0 to |nodeList|
        invariant mine == Mine(nodeList[..i], locations, me)
        invariant files == Appended(old(files), newNumber, Lines(nodeList[..i], locations))
        invariant dataStatus == old(dataStatus) && score == old(score)
      {
        OneMore(nodeList, i, locations, me);
        var node := nodeList[i];
        if node !in locations {
          continue;
        }
        AppendMore(old(files), newNumber, Lines(nodeList[..i], locations), Line(node, locations[node]));
        files := files[newNumber := Text(files, newNumber) + [Line(node, locations[node])]];
        if node == me {
          mine := locations[node];
        }
      }
      assert nodeList[..|nodeList|] == nodeList;
      ghost var (decided, goal) := Decide(files, oldNumber, checkCount, mine);
      ghost var seen := Lines(nodeList, locations);
      assert (decided, goal) == Observe(old(files), checkCount, seen, Mine(nodeList, locations, me));
      var oldText, newText := Text(files, oldNumber), Text(files, newNumber);
      if oldText != newText {
        files := map[0 := newText];
        return NotYet;
      }
      if newNumber >= checkCount {
        if Newest(newText) == mine {
          score := PROMOTE_ME;
          return Right;
        }
        dataStatus := "DISCONNECT";
        files := map[0 := newText];
        return Unfit;
      }
      return NotYet;
    }
  }

  // ---------------------------------------------------------------------------------------------------
  // Any sequence of calls, the gate included

  /** A call of have_master_right with what it can read, or somebody else's write of the own data status. */
  datatype Turn = Turn(published: bool, seen: Note, mine: string) | Written(status: string)

  datatype Standing = Standing(files: Notes, status: string)

  /** What HaveMasterRight does, by its contract. */
  function Call(sync: bool, checkCount: int, s: Standing, turn: Turn): (Standing, Verdict)
    requires turn.Turn?
  {
    if !PassesGate(sync, s.status) then (s, OutOfDate)
    else if !turn.published then (s, Unreadable)
    else
      var (files, verdict) := Observe(s.files, checkCount, turn.seen, turn.mine);
      (Standing(files, if verdict == Unfit then "DISCONNECT" else s.status), verdict)
  }

  function After(sync: bool, checkCount: int, s: Standing, turns: seq<Turn>): Standing
    decreases |turns|
  {
    if turns == [] then s
    else
      var next := if turns[0].Turn? then Call(sync, checkCount, s, turns[0]).0 else s.(status := turns[0].status);
      After(sync, checkCount, next, turns[1..])
  }

  /** In either mode, once a call ends as Unfit, every later one is OutOfDate until somebody else writes the status. */
  lemma UnfitIsFinal(sync: bool, checkCount: int, s: Standing, unfit: Turn, turns: seq<Turn>, later: Turn)
    requires unfit.Turn? && Call(sync, checkCount, s, unfit).1 == Unfit && later.Turn?
    requires forall turn :: turn in turns ==> turn.Turn?
    ensures Call(sync, checkCount, After(sync, checkCount, s, [unfit] + turns), later).1 == OutOfDate
  {
    var next := Call(sync, checkCount, s, unfit).0;
    assert ([unfit] + turns)[1..] == turns;
    StaysOutOfDate(sync, checkCount, next, turns);
  }

  lemma {:induction false} StaysOutOfDate(sync: bool, checkCount: int, s: Standing, turns: seq<Turn>)
    requires !PassesGate(sync, s.status) && forall turn :: turn in turns ==> turn.Turn?
    ensures After(sync, checkCount, s, turns) == s
  {
    if turns != [] {
      StaysOutOfDate(sync, checkCount, s, turns[1..]);
    }
  }

  // ---------------------------------------------------------------------------------------------------
  // Any sequence of calls that pass the gate

  /** Calls that get past the gate, and the moments when the notes are removed: a start or a promotion. The monitor
      itself removes them after a call that found the right. */
  datatype Event = Called(seen: Note, mine: string) | Removed

  /** The files, and the observations recorded since the files were last removed. */
  datatype State = State(files: Notes, recorded: seq<Note>)

  function Play(checkCount: int, events: seq<Event>): State {
    if events == [] then State(map[], [])
    else
      var before := Play(checkCount, events[..|events| - 1]);
      match events[|events| - 1]
      case Removed => State(map[], [])
      case Called(seen, mine) =>
        var (files, verdict) := Observe(before.files, checkCount, seen, mine);
        if verdict == Right then State(map[], []) else State(files, before.recorded + [seen])
  }

  /** The files are 0, 1, .., top and all say the same. */
  ghost predicate Run(files: Notes, top: nat, note: Note) {
    && (forall k: nat :: k in files <==> k <= top)
    && (forall k: nat :: k in files ==> files[k] == note)
  }

  /** The last n entries are all this note. */
  predicate EndsWith(recorded: seq<Note>, n: nat, note: Note) {
    n <= |recorded| && forall i :: |recorded| - n <= i < |recorded| ==> recorded[i] == note
  }

  ghost predicate Counted(s: State, checkCount: int, top: nat, note: Note) {
    && Run(s.files, top, note)
    && (top > 0 ==> top < checkCount && note != [])
    && EndsWith(s.recorded, top + 1, note)
  }

  ghost predicate Inv(s: State, checkCount: int) {
    s.files == map[] || exists top: nat, note: Note :: Counted(s, checkCount, top, note)
  }

  lemma {:induction false} CountsToTop(files: Notes, checkCount: int, top: nat, note: Note, k: nat)
    requires Run(files, top, note) && k <= top && (top > 0 ==> top < checkCount)
    ensures CountNotes(files, checkCount, k) == top
    decreases top - k
  {
    if k < top {
      CountsToTop(files, checkCount, top, note, k + 1);
    }
  }

  lemma EndsMore(recorded: seq<Note>, n: nat, note: Note)
    requires EndsWith(recorded, n, note)
    ensures EndsWith(recorded + [note], n + 1, note)
    ensures forall seen :: EndsWith(recorded + [seen], 1, seen)
  {
  }

  /** What the new file says after a call, and the decision that follows. */
  lemma ObserveAt(files: Notes, checkCount: int, top: nat, seen: Note, mine: string)
    requires CountNotes(files, checkCount, 0) == top && top + 1 !in files
    ensures Observe(files, checkCount, seen, mine) ==
      Decide(if seen == [] then files else files[top + 1 := seen], top, checkCount, mine)
  {
    assert Text(files, top + 1) + seen == seen;
  }

  lemma CallDiffers(s: State, checkCount: int, top: nat, note: Note, seen: Note, mine: string)
    requires Counted(s, checkCount, top, note) && seen != note
    ensures Observe(s.files, checkCount, seen, mine) == (map[0 := seen], NotYet)
  {
    CountsToTop(s.files, checkCount, top, note, 0);
    ObserveAt(s.files, checkCount, top, seen, mine);
  }

  lemma CountOn(s: State, checkCount: int, top: nat, seen: Note, mine: string)
    requires Counted(s, checkCount, top, seen) && seen != [] && top + 1 < checkCount
    ensures var (files, verdict) := Observe(s.files, checkCount, seen, mine);
      verdict == NotYet && Counted(State(files, s.recorded + [seen]), checkCount, top + 1, seen)
  {
    CountsToTop(s.files, checkCount, top, seen, 0);
    ObserveAt(s.files, checkCount, top, seen, mine);
    EndsMore(s.recorded, top + 1, seen);
  }

  lemma CallAgrees(s: State, checkCount: int, top: nat, seen: Note, mine: string)
    requires Counted(s, checkCount, top, seen) && (seen == [] || top + 1 >= checkCount)
    ensures var (files, verdict) := Observe(s.files, checkCount, seen, mine);
      && (verdict == NotYet ==> top == 0 && files == s.files)
      && (verdict == Right ==> top + 1 >= checkCount && Newest(seen) == mine)
      && (verdict == Unfit ==> files == map[0 := seen])
      && (verdict == NotYet || verdict == Right || verdict == Unfit)
  {
    CountsToTop(s.files, checkCount, top, seen, 0);
    ObserveAt(s.files, checkCount, top, seen, mine);
    var after := if seen == [] then s.files else s.files[top + 1 := seen];
    assert Text(after, top) == seen && Text(after, top + 1) == seen;
  }

  /** One call on a counted state: it counts on, starts again from the new observation, or has the right. */
  lemma CallOnCounted(s: State, checkCount: int, top: nat, note: Note, seen: Note, mine: string)
    requires Counted(s, checkCount, top, note)
    ensures var (files, verdict) := Observe(s.files, checkCount, seen, mine);
      && (verdict != Right ==> Inv(State(files, s.recorded + [seen]), checkCount))
      && (verdict == Right ==> seen == note && top + 1 >= checkCount && Newest(seen) == mine)
      && (verdict == Right ==> EndsWith(s.recorded + [seen], top + 2, seen))
  {
    EndsMore(s.recorded, top + 1, note);
    var t := State(Observe(s.files, checkCount, seen, mine).0, s.recorded + [seen]);
    if seen != note {
      CallDiffers(s, checkCount, top, note, seen, mine);
      assert Counted(t, checkCount, 0, seen);
    } else if seen != [] && top + 1 < checkCount {
      CountOn(s, checkCount, top, seen, mine);
      assert Counted(t, checkCount, top + 1, seen);
    } else {
      CallAgrees(s, checkCount, top, seen, mine);
      if Observe(s.files, checkCount, seen, mine).1 != Right {
        assert Counted(t, checkCount, 0, seen);
      }
    }
  }

  lemma CallOnEmpty(s: State, checkCount: int, seen: Note, mine: string)
    requires s.files == map[]
    ensures var (files, verdict) := Observe(s.files, checkCount, seen, mine);
      && (verdict != Right ==> Inv(State(files, s.recorded + [seen]), checkCount))
      && (verdict == Right <==> checkCount <= 1 && seen == [] && mine == "")
  {
    var (files, verdict) := Observe(s.files, checkCount, seen, mine);
    assert CountNotes(s.files, checkCount, 0) == 0;
    assert Text(s.files, 1) + seen == seen;
    if files != map[] {
      assert Counted(State(files, s.recorded + [seen]), checkCount, 0, seen);
    }
  }

  /** After any sequence of calls the note files are a contiguous run 0..top with equal contents, equal to each
      of the last top + 1 observations. */
  lemma {:induction false} NotesAreACount(checkCount: int, events: seq<Event>)
    ensures Inv(Play(checkCount, events), checkCount)
  {
    if events != [] {
      var prefix := events[..|events| - 1];
      NotesAreACount(checkCount, prefix);
      var s := Play(checkCount, prefix);
      if events[|events| - 1].Called? {
        var Called(seen, mine) := events[|events| - 1];
        if s.files == map[] {
          CallOnEmpty(s, checkCount, seen, mine);
        } else {
          var top: nat, note: Note :| Counted(s, checkCount, top, note);
          CallOnCounted(s, checkCount, top, note, seen, mine);
        }
      }
    }
  }

  predicate Encoded(note: Note) {
    forall line :: line in note ==> W.IsEncoded(line.loc)
  }

  lemma {:induction false} NewestIsNewest(note: Note)
    requires Encoded(note) && note != []
    ensures W.IsEncoded(Newest(note))
    ensures exists line :: line in note && line.loc == Newest(note)
    ensures forall line :: line in note ==> W.Value(line.loc) <= W.Value(Newest(note))
  {
    var rest := note[1..];
    assert note[0] in note && forall line :: line in rest ==> line in note;
    if rest != [] {
      NewestIsNewest(rest);
      W.TextOrderIsNumericOrder(note[0].loc, Newest(rest));
    }
    forall line | line in note
      ensures W.Value(line.loc) <= W.Value(Newest(note))
    {
      assert line == note[0] || line in rest;
    }
  }

  /** With a check count of at least two: whatever calls came before, a call finds the right only if at least
      checkCount + 1 observations in a row, the last being its own, agreed on every location, its own location was
      among them, and no location is beyond its own. */
  lemma RightNeedsAgreement(checkCount: int, events: seq<Event>, seen: Note, me: string, mine: string)
    requires checkCount >= 2 && Encoded(seen)
    requires mine == "" || Line(me, mine) in seen
    requires Observe(Play(checkCount, events).files, checkCount, seen, mine).1 == Right
    ensures EndsWith(Play(checkCount, events).recorded + [seen], checkCount + 1, seen)
    ensures Line(me, mine) in seen
    ensures forall line :: line in seen ==> W.Value(line.loc) <= W.Value(mine)
  {
    NotesAreACount(checkCount, events);
    var s := Play(checkCount, events);
    if s.files == map[] {
      CallOnEmpty(s, checkCount, seen, mine);
    } else {
      var top: nat, note: Note :| Counted(s, checkCount, top, note);
      CallOnCounted(s, checkCount, top, note, seen, mine);
      NewestIsNewest(seen);
    }
  }

  /** One more call, from whatever the calls before left behind: it has the right, or is counted. */
  lemma CallCounts(s: State, checkCount: int, seen: Note, mine: string) returns (top: nat)
    requires Inv(s, checkCount) && checkCount >= 2 && seen != [] && Newest(seen) == mine
    ensures var (files, verdict) := Observe(s.files, checkCount, seen, mine);
      verdict == Right || Counted(State(files, s.recorded + [seen]), checkCount, top, seen)
  {
    top := 0;
    EndsMore(s.recorded, 0, seen);
    if s.files == map[] {
      assert CountNotes(s.files, checkCount, 0) == 0;
      ObserveAt(s.files, checkCount, 0, seen, mine);
    } else {
      var k: nat, note: Note :| Counted(s, checkCount, k, note);
      if seen != note {
        CallDiffers(s, checkCount, k, note, seen, mine);
      } else if k + 1 < checkCount {
        CountOn(s, checkCount, k, seen, mine);
        top := k + 1;
      } else {
        CallAgrees(s, checkCount, k, seen, mine);
        assert checkCount >= 2 ==> k > 0;
        CompleteCount(s, checkCount, seen, mine);
      }
    }
  }

  lemma PlayCalled(checkCount: int, events: seq<Event>, seen: Note, mine: string)
    ensures var s := Play(checkCount, events);
      var (files, verdict) := Observe(s.files, checkCount, seen, mine);
      Play(checkCount, events + [Called(seen, mine)]) ==
        if verdict == Right then State(map[], []) else State(files, s.recorded + [seen])
  {
    var more := events + [Called(seen, mine)];
    assert more[..|more| - 1] == events;
  }

  /** From any count on, equal observations are counted one by one. */
  lemma {:induction false} AgreementCounts(checkCount: int, events: seq<Event>, seen: Note, mine: string, top: nat,
                                           n: nat)
    requires seen != [] && top + n < checkCount && Counted(Play(checkCount, events), checkCount, top, seen)
    ensures Counted(Play(checkCount, events + Repeated(Called(seen, mine), n)), checkCount, top + n, seen)
  {
    if n == 0 {
      NothingAfter(events);
    } else {
      var call := Called(seen, mine);
      AgreementCounts(checkCount, events, seen, mine, top, n - 1);
      var before := events + Repeated(call, n - 1);
      CountOn(Play(checkCount, before), checkCount, top + n - 1, seen, mine);
      PlayCalled(checkCount, before, seen, mine);
      Associate(events, Repeated(call, n - 1), [call]);
    }
  }

  function Repeated<T>(x: T, n: nat): (r: seq<T>)
    ensures |r| == n && forall i :: 0 <= i < n ==> r[i] == x
  {
    if n == 0 then [] else Repeated(x, n - 1) + [x]
  }

  lemma CompleteCount(s: State, checkCount: int, seen: Note, mine: string)
    requires checkCount >= 2 && seen != [] && Newest(seen) == mine && Counted(s, checkCount, checkCount - 1, seen)
    ensures Observe(s.files, checkCount, seen, mine).1 == Right
  {
    CountsToTop(s.files, checkCount, checkCount - 1, seen, 0);
    ObserveAt(s.files, checkCount, checkCount - 1, seen, mine);
  }

  /** After these events, this call has the right. */
  predicate FindsRight(checkCount: int, events: seq<Event>, seen: Note, mine: string) {
    Observe(Play(checkCount, events).files, checkCount, seen, mine).1 == Right
  }

  lemma NextCall(checkCount: int, events: seq<Event>, seen: Note, mine: string) returns (top: nat)
    requires checkCount >= 2 && seen != [] && Newest(seen) == mine
    ensures FindsRight(checkCount, events, seen, mine)
      || (top < checkCount && Counted(Play(checkCount, events + [Called(seen, mine)]), checkCount, top, seen))
  {
    NotesAreACount(checkCount, events);
    top := CallCounts(Play(checkCount, events), checkCount, seen, mine);
    PlayCalled(checkCount, events, seen, mine);
  }

  lemma RightAfterCount(checkCount: int, events: seq<Event>, seen: Note, mine: string, top: nat)
    requires checkCount >= 2 && seen != [] && Newest(seen) == mine
    requires top < checkCount && Counted(Play(checkCount, events), checkCount, top, seen)
    ensures FindsRight(checkCount, events + Repeated(Called(seen, mine), checkCount - 1 - top), seen, mine)
  {
    AgreementCounts(checkCount, events, seen, mine, top, checkCount - 1 - top);
    var later := events + Repeated(Called(seen, mine), checkCount - 1 - top);
    CompleteCount(Play(checkCount, later), checkCount, seen, mine);
  }

  /** Whatever calls came before: among the next checkCount + 1 equal observations that show the own location as the
      newest, one gives the right. */
  lemma AgreementGivesRight(checkCount: int, events: seq<Event>, seen: Note, mine: string) returns (n: nat)
    requires checkCount >= 2 && seen != [] && Newest(seen) == mine
    ensures n <= checkCount && FindsRight(checkCount, events + Repeated(Called(seen, mine), n), seen, mine)
  {
    var call := Called(seen, mine);
    var top := NextCall(checkCount, events, seen, mine);
    if FindsRight(checkCount, events, seen, mine) {
      n := 0;
      NothingAfter(events);
    } else {
      n := checkCount - top;
      RightAfterCount(checkCount, events + [call], seen, mine, top);
      OneAndTheRest(events, call, n);
    }
  }

  lemma OneAndTheRest<T>(s: seq<T>, x: T, n: nat)
    requires n > 0
    ensures s + [x] + Repeated(x, n - 1) == s + Repeated(x, n)
  {
    FirstOfRepeated(x, n);
    Associate(s, [x], Repeated(x, n - 1));
  }

  lemma {:induction false} FirstOfRepeated<T>(x: T, n: nat)
    requires n > 0
    ensures Repeated(x, n) == [x] + Repeated(x, n - 1)
  {
  }

  /** The bound of two is exact: a node that cannot read a single location, its own included, gets the right on
      its very first call if and only if the check count is below two. */
  lemma BlindRightOnFirstCall(checkCount: int)
    ensures Observe(Play(checkCount, []).files, checkCount, [], "").1 == Right <==> checkCount < 2
  {
    CallOnEmpty(Play(checkCount, []), checkCount, [], "");
  }
}
