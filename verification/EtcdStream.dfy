/** pkg/etcd/stream.go: a watch sender and a poll sender share one output channel, and a third goroutine
    closes it. Each goroutine is a program counter; a step is one of its operations on the shared channel,
    context or wait group, and any goroutine may step next. */
module EtcdStream {
  import opened Base

  /** pkg/etcd/stream.go:104-112 */
  method Includes(candidates: seq<string>, elem: string) returns (found: bool)
    ensures found <==> elem in candidates
  {
    for i := 0 to |candidates|
      invariant elem !in candidates[..i]
    {
      if candidates[i] == elem {
        return true;
      }
    }
    assert candidates[..|candidates|] == candidates;
    return false;
  }

  datatype Watcher =
    | Watching                 // in the range over the watch channel
    | WatchSend(kv: KV)        // blocked on out <- event.Kv
    | WatchDone                // the range ended; about to run wg.Done
    | WatchCancel              // about to run cancel
    | WatchGone

  datatype Poller =
    | PollGet(k: nat)          // about to get the kth key; past the last key, about to enter the select
    | PollSend(k: nat, kv: KV) // blocked on out <- resp.Kvs[0]
    | PollWait                 // blocked in the select
    | PollDone
    | PollCancel
    | PollGone

  datatype Closer = Waiting | CloseDone | CloserGone

  datatype State = State(
    watcher: Watcher,
    poller: Poller,
    closer: Closer,
    waiting: int,              // the wait group's counter
    cancelled: bool,           // the stream's own context is done
    sent: seq<KV>
  )

  const INITIAL := State(Watching, PollGet(0), Waiting, 2, false, [])

  datatype Step =
    | ParentCancel             // the caller's context ends, and the stream's with it
    | WatchEvent(kv: KV)       // the watch delivers an event
    | WatchDeliver             // the consumer takes the watcher's kv
    | WatchEnd                 // the watch channel is closed
    | WatchWgDone
    | WatchRunCancel
    | GetOk(kv: KV)
    | GetNothing               // the get fails, or the key has no value
    | PollEnterSelect
    | PollDeliver
    | PollTimer                // the poll interval elapses first
    | PollStop                 // the select sees the context done
    | PollWgDone
    | PollRunCancel
    | CloseOut                 // wg.Wait returned
    | CloseDoneChannel

  predicate Enabled(keys: seq<string>, s: State, step: Step) {
    match step
    case ParentCancel => !s.cancelled
    case WatchEvent(_) => s.watcher.Watching?
    case WatchDeliver => s.watcher.WatchSend?
    case WatchEnd => s.watcher.Watching?
    case WatchWgDone => s.watcher.WatchDone?
    case WatchRunCancel => s.watcher.WatchCancel?
    case GetOk(kv) => s.poller.PollGet? && s.poller.k < |keys| && kv.key == keys[s.poller.k]
    case GetNothing => s.poller.PollGet? && s.poller.k < |keys|
    case PollEnterSelect => s.poller.PollGet? && s.poller.k >= |keys|
    case PollDeliver => s.poller.PollSend?
    case PollTimer => s.poller.PollWait?
    case PollStop => s.poller.PollWait? && s.cancelled
    case PollWgDone => s.poller.PollDone?
    case PollRunCancel => s.poller.PollCancel?
    case CloseOut => s.closer.Waiting? && s.waiting == 0
    case CloseDoneChannel => s.closer.CloseDone?
  }

  function Apply(keys: seq<string>, s: State, step: Step): State
    requires Enabled(keys, s, step)
  {
    match step
    case ParentCancel => s.(cancelled := true)
    case WatchEvent(kv) =>
      if kv.key in keys then s.(watcher := WatchSend(kv)) else s
    case WatchDeliver => s.(sent := s.sent + [s.watcher.kv], watcher := Watching)
    case WatchEnd => s.(watcher := WatchDone)
    case WatchWgDone => s.(waiting := s.waiting - 1, watcher := WatchCancel)
    case WatchRunCancel => s.(cancelled := true, watcher := WatchGone)
    case GetOk(kv) => s.(poller := PollSend(s.poller.k, kv))
    case GetNothing => s.(poller := PollGet(s.poller.k + 1))
    case PollEnterSelect => s.(poller := PollWait)
    case PollDeliver => s.(sent := s.sent + [s.poller.kv], poller := PollGet(s.poller.k + 1))
    case PollTimer => s.(poller := PollGet(0))
    case PollStop => s.(poller := PollDone)
    case PollWgDone => s.(waiting := s.waiting - 1, poller := PollCancel)
    case PollRunCancel => s.(cancelled := true, poller := PollGone)
    case CloseOut => s.(closer := CloseDone)
    case CloseDoneChannel => s.(closer := CloserGone)
  }

  /** A schedule: which operation happens next, any number of times. */
  predicate IsRun(keys: seq<string>, s: State, steps: seq<Step>, end: State)
    decreases steps
  {
    if steps == [] then s == end
    else Enabled(keys, s, steps[0]) && IsRun(keys, Apply(keys, s, steps[0]), steps[1..], end)
  }

  predicate OutClosed(s: State) {
    !s.closer.Waiting?
  }

  predicate WatcherHolds(s: State) {
    s.watcher.Watching? || s.watcher.WatchSend? || s.watcher.WatchDone?
  }

  predicate PollerHolds(s: State) {
    s.poller.PollGet? || s.poller.PollSend? || s.poller.PollWait? || s.poller.PollDone?
  }

  predicate Inv(keys: seq<string>, s: State) {
    && s.waiting == (if WatcherHolds(s) then 1 else 0) + (if PollerHolds(s) then 1 else 0)
    && (!s.closer.Waiting? ==> s.waiting == 0)
    && (s.watcher.WatchGone? ==> s.cancelled)
    && (s.watcher.WatchSend? ==> s.watcher.kv.key in keys)
    && (s.poller.PollSend? ==> s.poller.kv.key in keys && s.poller.k < |keys|)
    && (s.poller.PollGet? ==> s.poller.k <= |keys|)
    && (forall kv :: kv in s.sent ==> kv.key in keys)
  }

  lemma SendKeepsInv(keys: seq<string>, s: State, step: Step)
    requires Inv(keys, s) && Enabled(keys, s, step) && (step.WatchDeliver? || step.PollDeliver?)
    ensures Inv(keys, Apply(keys, s, step))
  {
    var t := Apply(keys, s, step);
    assert forall kv :: kv in t.sent ==> kv in s.sent || kv == t.sent[|t.sent| - 1];
  }

  lemma InvStep(keys: seq<string>, s: State, step: Step)
    requires Inv(keys, s) && Enabled(keys, s, step)
    ensures Inv(keys, Apply(keys, s, step))
  {
    if step.WatchDeliver? || step.PollDeliver? {
      SendKeepsInv(keys, s, step);
    } else {
      assert Apply(keys, s, step).sent == s.sent;
    }
  }

  lemma {:induction false} InvRun(keys: seq<string>, s: State, steps: seq<Step>, end: State)
    requires Inv(keys, s) && IsRun(keys, s, steps, end)
    ensures Inv(keys, end)
    decreases steps
  {
    if steps != [] {
      InvStep(keys, s, steps[0]);
      InvRun(keys, Apply(keys, s, steps[0]), steps[1..], end);
    }
  }

  // ---------------------------------------------------------------------------------------------------
  // Nothing is lost, sent twice or reordered

  /** By the schedule alone: what the watch delivered for the subscribed keys, and what the gets returned, in order. */
  function Watched(keys: seq<string>, steps: seq<Step>): seq<KV> {
    if steps == [] then []
    else (if steps[0].WatchEvent? && steps[0].kv.key in keys then [steps[0].kv] else []) + Watched(keys, steps[1..])
  }

  function Polled(steps: seq<Step>): seq<KV> {
    if steps == [] then [] else (if steps[0].GetOk? then [steps[0].kv] else []) + Polled(steps[1..])
  }

  /** c is a and b, each in its order, one interleaved with the other. */
  ghost predicate IsMerge(c: seq<KV>, a: seq<KV>, b: seq<KV>)
    decreases |c|
  {
    if c == [] then a == [] && b == []
    else
      var last := c[|c| - 1];
      || (a != [] && a[|a| - 1] == last && IsMerge(c[..|c| - 1], a[..|a| - 1], b))
      || (b != [] && b[|b| - 1] == last && IsMerge(c[..|c| - 1], a, b[..|b| - 1]))
  }

  lemma MergeAppend(c: seq<KV>, a: seq<KV>, b: seq<KV>, kv: KV)
    requires IsMerge(c, a, b)
    ensures IsMerge(c + [kv], a + [kv], b) && IsMerge(c + [kv], a, b + [kv])
  {
    assert (c + [kv])[..|c|] == c && (a + [kv])[..|a|] == a && (b + [kv])[..|b|] == b;
  }

  lemma {:induction false} MergeKeepsAll(c: seq<KV>, a: seq<KV>, b: seq<KV>)
    requires IsMerge(c, a, b)
    ensures multiset(c) == multiset(a) + multiset(b)
  {
    if c != [] {
      var last := c[|c| - 1];
      assert c == c[..|c| - 1] + [last];
      if a != [] && a[|a| - 1] == last && IsMerge(c[..|c| - 1], a[..|a| - 1], b) {
        MergeKeepsAll(c[..|c| - 1], a[..|a| - 1], b);
        assert a == a[..|a| - 1] + [last];
      } else {
        MergeKeepsAll(c[..|c| - 1], a, b[..|b| - 1]);
        assert b == b[..|b| - 1] + [last];
      }
    }
  }

  /** What the two senders hold in their hands. */
  function WatchHand(s: State): seq<KV> {
    if s.watcher.WatchSend? then [s.watcher.kv] else []
  }

  function PollHand(s: State): seq<KV> {
    if s.poller.PollSend? then [s.poller.kv] else []
  }

  /** What was sent is a merge of what the watch and the polls produced, but for what is in hand. */
  ghost predicate Conserved(s: State, watched: seq<KV>, polled: seq<KV>) {
    exists a, b :: IsMerge(s.sent, a, b) && watched == a + WatchHand(s) && polled == b + PollHand(s)
  }

  /** A sender takes something in hand, or nothing happens to either. */
  lemma Produced(keys: seq<string>, s: State, step: Step, a: seq<KV>, b: seq<KV>)
    requires IsMerge(s.sent, a, b) && Enabled(keys, s, step) && !step.WatchDeliver? && !step.PollDeliver?
    ensures var t := Apply(keys, s, step);
      && IsMerge(t.sent, a, b)
      && a + WatchHand(t) == a + WatchHand(s) + Watched(keys, [step])
      && b + PollHand(t) == b + PollHand(s) + Polled([step])
  {
    assert [step][1..] == [];
    NothingAfter(a);
    NothingAfter(b);
  }

  lemma Delivered(keys: seq<string>, s: State, step: Step, a: seq<KV>, b: seq<KV>) returns (c: seq<KV>, d: seq<KV>)
    requires IsMerge(s.sent, a, b) && Enabled(keys, s, step) && (step.WatchDeliver? || step.PollDeliver?)
    ensures var t := Apply(keys, s, step);
      && IsMerge(t.sent, c, d)
      && c + WatchHand(t) == a + WatchHand(s) + Watched(keys, [step])
      && d + PollHand(t) == b + PollHand(s) + Polled([step])
  {
    assert [step][1..] == [];
    if step.WatchDeliver? {
      c, d := a + [s.watcher.kv], b;
      MergeAppend(s.sent, a, b, s.watcher.kv);
    } else {
      c, d := a, b + [s.poller.kv];
      MergeAppend(s.sent, a, b, s.poller.kv);
    }
    NothingAfter(c);
    NothingAfter(d);
  }

  lemma ConservedStep(keys: seq<string>, s: State, step: Step, watched: seq<KV>, polled: seq<KV>)
    requires Conserved(s, watched, polled) && Enabled(keys, s, step)
    ensures Conserved(Apply(keys, s, step), watched + Watched(keys, [step]), polled + Polled([step]))
  {
    var a, b :| IsMerge(s.sent, a, b) && watched == a + WatchHand(s) && polled == b + PollHand(s);
    if step.WatchDeliver? || step.PollDeliver? {
      a, b := Delivered(keys, s, step, a, b);
    } else {
      Produced(keys, s, step, a, b);
    }
    assert IsMerge(Apply(keys, s, step).sent, a, b);
  }

  lemma {:induction false} ConservedRun(keys: seq<string>, s: State, steps: seq<Step>, end: State,
                                        watched: seq<KV>, polled: seq<KV>)
    requires Conserved(s, watched, polled) && IsRun(keys, s, steps, end)
    ensures Conserved(end, watched + Watched(keys, steps), polled + Polled(steps))
    decreases steps
  {
    if steps == [] {
      NothingAfter(watched);
      NothingAfter(polled);
    } else {
      var step, rest := steps[0], steps[1..];
      ConservedStep(keys, s, step, watched, polled);
      ConservedRun(keys, Apply(keys, s, step), rest, end, watched + Watched(keys, [step]), polled + Polled([step]));
      FirstThenRest(keys, steps);
      Associate(watched, Watched(keys, [step]), Watched(keys, rest));
      Associate(polled, Polled([step]), Polled(rest));
    }
  }

  lemma FirstThenRest(keys: seq<string>, steps: seq<Step>)
    requires steps != []
    ensures Watched(keys, steps) == Watched(keys, [steps[0]]) + Watched(keys, steps[1..])
    ensures Polled(steps) == Polled([steps[0]]) + Polled(steps[1..])
  {
    assert [steps[0]][1..] == [];
  }

  /** On every schedule: what was sent is a merge of all that the watch delivered for the subscribed keys and all that
      the gets returned, each in its order, but for the one kv that each sender may have in hand; so once the output
      is closed, all of it was sent, exactly once. */
  lemma NothingIsLost(keys: seq<string>, steps: seq<Step>, end: State)
    requires IsRun(keys, INITIAL, steps, end)
    ensures Conserved(end, Watched(keys, steps), Polled(steps))
    ensures OutClosed(end) ==>
      && IsMerge(end.sent, Watched(keys, steps), Polled(steps))
      && multiset(end.sent) == multiset(Watched(keys, steps)) + multiset(Polled(steps))
  {
    assert IsMerge(INITIAL.sent, [], []);
    assert Conserved(INITIAL, [], []);
    ConservedRun(keys, INITIAL, steps, end, [], []);
    NothingBefore(Watched(keys, steps));
    NothingBefore(Polled(steps));
    InvRun(keys, INITIAL, steps, end);
    if OutClosed(end) {
      ClosedIsComplete(end, Watched(keys, steps), Polled(steps));
    }
  }

  lemma ClosedIsComplete(s: State, watched: seq<KV>, polled: seq<KV>)
    requires Conserved(s, watched, polled) && !s.watcher.WatchSend? && !s.poller.PollSend?
    ensures IsMerge(s.sent, watched, polled) && multiset(s.sent) == multiset(watched) + multiset(polled)
  {
    var a, b :| IsMerge(s.sent, a, b) && watched == a + WatchHand(s) && polled == b + PollHand(s);
    NothingAfter(a);
    NothingAfter(b);
    MergeKeepsAll(s.sent, a, b);
  }

  // ---------------------------------------------------------------------------------------------------
  // Nothing is sent on a closed channel, or closed twice

  function Count(steps: seq<Step>, step: Step): nat {
    if steps == [] then 0 else (if steps[0] == step then 1 else 0) + Count(steps[1..], step)
  }

  predicate Sends(step: Step) {
    step.WatchDeliver? || step.PollDeliver?
  }

  predicate NoSendAfterClose(steps: seq<Step>) {
    steps != [] ==>
      && (steps[0] == CloseOut ==> forall step :: step in steps[1..] ==> !Sends(step))
      && NoSendAfterClose(steps[1..])
  }

  function One(b: bool): nat {
    if b then 1 else 0
  }

  /** How often each of the closing operations was done, told from the two states. */
  lemma {:induction false} CountsFit(keys: seq<string>, s: State, steps: seq<Step>, end: State)
    requires Inv(keys, s) && IsRun(keys, s, steps, end)
    ensures Inv(keys, end)
    ensures Count(steps, CloseOut) + One(OutClosed(s)) == One(OutClosed(end))
    ensures Count(steps, CloseDoneChannel) + One(Closed(s)) == One(Closed(end))
    ensures Count(steps, WatchWgDone) + One(!WatcherHolds(s)) == One(!WatcherHolds(end))
    ensures Count(steps, PollWgDone) + One(!PollerHolds(s)) == One(!PollerHolds(end))
    decreases steps
  {
    if steps != [] {
      InvStep(keys, s, steps[0]);
      CountsFit(keys, Apply(keys, s, steps[0]), steps[1..], end);
    }
  }

  lemma {:induction false} ClosedSendsNothing(keys: seq<string>, s: State, steps: seq<Step>, end: State)
    requires Inv(keys, s) && IsRun(keys, s, steps, end)
    ensures OutClosed(s) ==> forall step :: step in steps ==> !Sends(step)
    ensures NoSendAfterClose(steps)
    decreases steps
  {
    if steps != [] {
      InvStep(keys, s, steps[0]);
      ClosedSendsNothing(keys, Apply(keys, s, steps[0]), steps[1..], end);
      assert forall step :: step in steps <==> step == steps[0] || step in steps[1..];
    }
  }

  /** On every schedule, with cancellation at any point: the two channels are closed at most once, the output first
      and only after both senders have reported to the wait group, once each; nothing is sent after that; and only
      subscribed keys are sent. */
  lemma StreamIsSafe(keys: seq<string>, steps: seq<Step>, end: State)
    requires IsRun(keys, INITIAL, steps, end)
    ensures Count(steps, CloseDoneChannel) <= Count(steps, CloseOut) <= 1
    ensures Count(steps, WatchWgDone) <= 1 && Count(steps, PollWgDone) <= 1 && end.waiting >= 0
    ensures Count(steps, CloseOut) == 1 ==> Count(steps, WatchWgDone) == 1 && Count(steps, PollWgDone) == 1
    ensures NoSendAfterClose(steps)
    ensures forall kv :: kv in end.sent ==> kv.key in keys
  {
    CountsFit(keys, INITIAL, steps, end);
    ClosedSendsNothing(keys, INITIAL, steps, end);
  }

  // ---------------------------------------------------------------------------------------------------
  // Whatever the watch delivers can be sent

  lemma {:induction false} RunJoin(keys: seq<string>, s: State, a: seq<Step>, mid: State, b: seq<Step>, end: State)
    requires IsRun(keys, s, a, mid) && IsRun(keys, mid, b, end)
    ensures IsRun(keys, s, a + b, end)
    decreases a
  {
    if a == [] {
      NothingBefore(b);
    } else {
      assert (a + b)[1..] == a[1..] + b;
      RunJoin(keys, Apply(keys, s, a[0]), a[1..], mid, b, end);
    }
  }

  function Subscribed(keys: seq<string>, events: seq<KV>): seq<KV> {
    if events == [] then [] else (if events[0].key in keys then [events[0]] else []) + Subscribed(keys, events[1..])
  }

  ghost predicate CanReach(keys: seq<string>, s: State, end: State) {
    exists steps :: IsRun(keys, s, steps, end)
  }

  lemma Then(keys: seq<string>, s: State, mid: State, step: Step) returns (end: State)
    requires CanReach(keys, s, mid) && Enabled(keys, mid, step)
    ensures CanReach(keys, s, end) && end == Apply(keys, mid, step)
  {
    end := Apply(keys, mid, step);
    var steps :| IsRun(keys, s, steps, mid);
    assert [step][1..] == [];
    assert IsRun(keys, mid, [step], end);
    RunJoin(keys, s, steps, mid, [step], end);
  }

  lemma {:induction false} WatchAll(keys: seq<string>, s: State, mid: State, events: seq<KV>) returns (end: State)
    requires CanReach(keys, s, mid) && mid.watcher.Watching?
    ensures CanReach(keys, s, end) && end == mid.(sent := mid.sent + Subscribed(keys, events))
    decreases |events|
  {
    end := mid;
    if events == [] {
      NothingAfter(mid.sent);
    } else {
      end := Then(keys, s, end, WatchEvent(events[0]));
      if events[0].key in keys {
        end := Then(keys, s, end, WatchDeliver);
        Associate(mid.sent, [events[0]], Subscribed(keys, events[1..]));
      } else {
        NothingBefore(Subscribed(keys, events[1..]));
      }
      end := WatchAll(keys, s, end, events[1..]);
    }
  }

  lemma {:induction false} Close(keys: seq<string>, s: State, mid: State) returns (end: State)
    requires CanReach(keys, s, mid) && Inv(keys, mid) && WatchEnded(mid) && !mid.poller.PollSend?
    ensures CanReach(keys, s, end) && Closed(end) && end.sent == mid.sent
    decreases Left(keys, mid, 0)
  {
    end := mid;
    if !Closed(mid) {
      var step := NeverStuck(keys, mid);
      LeftShrinks(keys, mid, step, 0);
      InvStep(keys, mid, step);
      end := Then(keys, s, mid, step);
      end := Close(keys, s, end);
    }
  }

  /** For any events at all, there is a run in which the watch delivers them and ends, and in which exactly those of
      the subscribed keys are sent, before both channels are closed. */
  lemma EveryEventCanBeSent(keys: seq<string>, events: seq<KV>) returns (end: State)
    ensures CanReach(keys, INITIAL, end) && Closed(end) && end.sent == Subscribed(keys, events)
  {
    assert IsRun(keys, INITIAL, [], INITIAL);
    end := WatchAll(keys, INITIAL, INITIAL, events);
    NothingBefore(Subscribed(keys, events));
    end := Then(keys, INITIAL, end, WatchEnd);
    var steps :| IsRun(keys, INITIAL, steps, end);
    InvRun(keys, INITIAL, steps, end);
    end := Close(keys, INITIAL, end);
  }

  // ---------------------------------------------------------------------------------------------------
  // The poller polls until the context is done

  /** The keys that the poller asked for, by number. */
  function Asked(keys: seq<string>, s: State, steps: seq<Step>): seq<nat>
    decreases steps
  {
    if steps == [] || !Enabled(keys, s, steps[0]) then []
    else
      AskedIn(s, steps[0]) + Asked(keys, Apply(keys, s, steps[0]), steps[1..])
  }

  /** The key that the poller asks for next, if it goes on. */
  function NextKey(keys: seq<string>, s: State): nat {
    match s.poller
    case PollGet(k) => if k < |keys| then k else 0
    case PollSend(k, _) => if k + 1 < |keys| then k + 1 else 0
    case _ => 0
  }

  predicate InTurn(keys: seq<string>, asked: seq<nat>, first: nat) {
    if asked == [] then true
    else asked[0] == first && InTurn(keys, asked[1..], if first + 1 < |keys| then first + 1 else 0)
  }

  function AskedIn(s: State, step: Step): seq<nat> {
    if (step.GetOk? || step.GetNothing?) && s.poller.PollGet? then [s.poller.k] else []
  }

  lemma AskStep(keys: seq<string>, s: State, step: Step)
    requires Inv(keys, s) && Enabled(keys, s, step)
    ensures var next := NextKey(keys, Apply(keys, s, step));
      if step.GetOk? || step.GetNothing? then
        && AskedIn(s, step) == [NextKey(keys, s)]
        && next == (if NextKey(keys, s) + 1 < |keys| then NextKey(keys, s) + 1 else 0)
      else AskedIn(s, step) == [] && (next == NextKey(keys, s) || PollerStopped(Apply(keys, s, step)))
  {
  }

  /** The poller asks for the keys in turn, over and over, whatever each answer. */
  lemma {:induction false} AsksInTurn(keys: seq<string>, s: State, steps: seq<Step>, end: State)
    requires Inv(keys, s) && IsRun(keys, s, steps, end)
    ensures InTurn(keys, Asked(keys, s, steps), NextKey(keys, s))
    decreases steps
  {
    if steps != [] {
      var t, rest := Apply(keys, s, steps[0]), steps[1..];
      InvStep(keys, s, steps[0]);
      AskStep(keys, s, steps[0]);
      AsksInTurn(keys, t, rest, end);
      if AskedIn(s, steps[0]) == [] {
        NothingBefore(Asked(keys, t, rest));
      } else {
        assert ([NextKey(keys, s)] + Asked(keys, t, rest))[1..] == Asked(keys, t, rest);
      }
    }
  }

  lemma PollsInTurn(keys: seq<string>, steps: seq<Step>, end: State)
    requires IsRun(keys, INITIAL, steps, end)
    ensures InTurn(keys, Asked(keys, INITIAL, steps), 0)
    ensures PollerStopped(end) ==> end.cancelled
  {
    AsksInTurn(keys, INITIAL, steps, end);
    StopsCancelled(keys, INITIAL, steps, end);
  }

  predicate PollerStopped(s: State) {
    s.poller.PollDone? || s.poller.PollCancel? || s.poller.PollGone?
  }

  lemma {:induction false} StopsCancelled(keys: seq<string>, s: State, steps: seq<Step>, end: State)
    requires IsRun(keys, s, steps, end) && (PollerStopped(s) ==> s.cancelled)
    ensures PollerStopped(end) ==> end.cancelled
    decreases steps
  {
    if steps != [] {
      StopsCancelled(keys, Apply(keys, s, steps[0]), steps[1..], end);
    }
  }

  /** The most steps that the poller can take before it starts its next pass. */
  function PassLeft(keys: seq<string>, s: State): int {
    match s.poller
    case PollGet(k) => 2 * (|keys| - k) + 2
    case PollSend(k, _) => 2 * (|keys| - k) + 1
    case _ => 1
  }

  /** Until it has seen the context done, the poller can always move on, towards its next pass, whether the key it
      asks for has a value or not. */
  lemma PollerComesBack(keys: seq<string>, s: State, found: Option<string>) returns (step: Step)
    requires Inv(keys, s) && !PollerStopped(s)
    ensures Enabled(keys, s, step)
    ensures var t := Apply(keys, s, step);
      t.poller == PollGet(0) || (!PollerStopped(t) && 0 <= PassLeft(keys, t) < PassLeft(keys, s))
    ensures s.poller.PollGet? && s.poller.k < |keys| ==>
      step == match found case Some(value) => GetOk(KV(keys[s.poller.k], value, 1)) case None => GetNothing
  {
    match s.poller {
      case PollGet(k) =>
        if k >= |keys| {
          step := PollEnterSelect;
        } else if found.Some? {
          step := GetOk(KV(keys[k], found.value, 1));
        } else {
          step := GetNothing;
        }
      case PollSend(_, _) => step := PollDeliver;
      case PollWait => step := PollTimer;
    }
  }

  // ---------------------------------------------------------------------------------------------------
  // The caller can cancel

  /** The stream's context is done if and only if somebody has cancelled it. */
  lemma {:induction false} CancelledBySomebody(keys: seq<string>, s: State, steps: seq<Step>, end: State)
    requires IsRun(keys, s, steps, end)
    ensures end.cancelled <==> s.cancelled || ParentCancel in steps || WatchRunCancel in steps || PollRunCancel in steps
    decreases steps
  {
    if steps != [] {
      CancelledBySomebody(keys, Apply(keys, s, steps[0]), steps[1..], end);
      assert forall step :: step in steps <==> step == steps[0] || step in steps[1..];
    }
  }

  lemma {:induction false} Stop(keys: seq<string>, s: State, mid: State) returns (end: State)
    requires CanReach(keys, s, mid) && Inv(keys, mid) && mid.cancelled
    ensures CanReach(keys, s, end) && end.poller.PollGone? && end.watcher == mid.watcher
    decreases PollerLeft(keys, mid)
  {
    end := mid;
    if !mid.poller.PollGone? {
      var step := match mid.poller
        case PollGet(k) => if k < |keys| then GetNothing else PollEnterSelect
        case PollSend(_, _) => PollDeliver
        case PollWait => PollStop
        case PollDone => PollWgDone
        case _ => PollRunCancel;
      InvStep(keys, mid, step);
      end := Then(keys, s, mid, step);
      end := Stop(keys, s, end);
    }
  }

  /** At any moment of any run the caller can cancel, if nobody has, and from then on the poller can stop, whatever the
      watcher does. */
  lemma CancelStopsPoller(keys: seq<string>, steps: seq<Step>, s: State) returns (end: State)
    requires IsRun(keys, INITIAL, steps, s) && !s.cancelled
    ensures Enabled(keys, s, ParentCancel)
    ensures CanReach(keys, Apply(keys, s, ParentCancel), end) && end.poller.PollGone? && end.watcher == s.watcher
  {
    InvRun(keys, INITIAL, steps, s);
    var t := Apply(keys, s, ParentCancel);
    InvStep(keys, s, ParentCancel);
    assert IsRun(keys, t, [], t);
    end := Stop(keys, t, t);
  }

  // ---------------------------------------------------------------------------------------------------
  // With a consumer that keeps receiving, the end of the watch leads to closure

  predicate WatchEnded(s: State) {
    s.watcher.WatchDone? || s.watcher.WatchCancel? || s.watcher.WatchGone?
  }

  predicate Closed(s: State) {
    s.closer.CloserGone?
  }

  function Timers(steps: seq<Step>): nat {
    if steps == [] then 0 else (if steps[0] == PollTimer then 1 else 0) + Timers(steps[1..])
  }

  function Cancels(steps: seq<Step>): nat {
    if steps == [] then 0 else (if steps[0] == ParentCancel then 1 else 0) + Cancels(steps[1..])
  }

  /** One pass of the poll loop takes at most two steps a key and one to enter the select. */
  function PassLength(keys: seq<string>): nat {
    2 * |keys| + 1
  }

  function WatcherLeft(s: State): nat {
    match s.watcher case WatchDone => 2 case WatchCancel => 1 case _ => 0
  }

  function PollerLeft(keys: seq<string>, s: State): int {
    match s.poller
    case PollGet(k) => 3 + PassLength(keys) - 2 * k
    case PollSend(k, _) => 3 + PassLength(keys) - 2 * k - 1
    case PollWait => 3
    case PollDone => 2
    case PollCancel => 1
    case PollGone => 0
  }

  function CloserLeft(s: State): nat {
    match s.closer case Waiting => 2 case CloseDone => 1 case CloserGone => 0
  }

  /** The most steps left once the watch has ended, if the poll timer fires at most `timers` more times. */
  function Left(keys: seq<string>, s: State, timers: nat): int {
    WatcherLeft(s) + PollerLeft(keys, s) + CloserLeft(s) + timers * (PassLength(keys) + 1)
  }

  lemma LeftShrinks(keys: seq<string>, s: State, step: Step, timers: nat)
    requires Inv(keys, s) && WatchEnded(s) && Enabled(keys, s, step) && step != ParentCancel
    requires step == PollTimer ==> timers > 0
    ensures var t := Apply(keys, s, step);
      && WatchEnded(t)
      && 0 <= Left(keys, t, if step == PollTimer then timers - 1 else timers) < Left(keys, s, timers)
  {
    var t := Apply(keys, s, step);
    InvStep(keys, s, step);
    if step == PollTimer {
      assert timers * (PassLength(keys) + 1) == (timers - 1) * (PassLength(keys) + 1) + PassLength(keys) + 1;
    }
  }

  /** Until the channels are closed, some goroutine can move without waiting for the poll timer. */
  lemma NeverStuck(keys: seq<string>, s: State) returns (step: Step)
    requires Inv(keys, s) && WatchEnded(s) && !Closed(s)
    ensures Enabled(keys, s, step) && step != PollTimer && step != ParentCancel && !step.GetOk?
  {
    if s.watcher.WatchDone? { step := WatchWgDone; }
    else if s.watcher.WatchCancel? { step := WatchRunCancel; }
    else {
      match s.poller {
        case PollGet(k) => step := if k < |keys| then GetNothing else PollEnterSelect;
        case PollSend(_, _) => step := PollDeliver;
        case PollWait => step := PollStop;
        case PollDone => step := PollWgDone;
        case PollCancel => step := PollRunCancel;
        case PollGone => step := if s.closer.Waiting? then CloseOut else CloseDoneChannel;
      }
    }
  }

  lemma {:induction false} RunIsBounded(keys: seq<string>, s: State, steps: seq<Step>, end: State)
    requires Inv(keys, s) && WatchEnded(s) && IsRun(keys, s, steps, end)
    ensures WatchEnded(end) && |steps| <= Left(keys, s, Timers(steps)) + Cancels(steps)
    decreases steps
  {
    if steps == [] {
    } else {
      var t := Apply(keys, s, steps[0]);
      InvStep(keys, s, steps[0]);
      RunIsBounded(keys, t, steps[1..], end);
      if steps[0] != ParentCancel {
        LeftShrinks(keys, s, steps[0], Timers(steps));
      }
    }
  }

  /** Once the watch has ended, every schedule in which the poll timer beats the finished context only finitely
      often is finite, and one that can go no further has closed both channels, each exactly once. */
  lemma WatchEndLeadsToClosure(keys: seq<string>, before: seq<Step>, s: State, steps: seq<Step>, end: State)
    requires IsRun(keys, INITIAL, before, s) && WatchEnded(s) && IsRun(keys, s, steps, end)
    ensures |steps| <= Left(keys, s, Timers(steps)) + Cancels(steps)
    ensures (forall step :: step != PollTimer && step != ParentCancel ==> !Enabled(keys, end, step)) ==> Closed(end)
  {
    InvRun(keys, INITIAL, before, s);
    RunIsBounded(keys, s, steps, end);
    InvRun(keys, s, steps, end);
    if !Closed(end) {
      var step := NeverStuck(keys, end);
    }
  }

  // ---------------------------------------------------------------------------------------------------
  // And a fair select sees the finished context

  /** A schedule that never ends, and the states it goes through. */
  ghost predicate RunsForEver(keys: seq<string>, schedule: nat -> Step, states: nat -> State) {
    forall i: nat :: Follows(keys, schedule, states, i)
  }

  predicate Follows(keys: seq<string>, schedule: nat -> Step, states: nat -> State, i: nat) {
    Enabled(keys, states(i), schedule(i)) && states(i + 1) == Apply(keys, states(i), schedule(i))
  }

  ghost predicate CanStopLater(keys: seq<string>, states: nat -> State, i: nat) {
    exists j: nat :: i <= j && Enabled(keys, states(j), PollStop)
  }

  /** The select, if it finds the context done again and again, takes notice at some time. */
  ghost predicate SelectIsFair(keys: seq<string>, schedule: nat -> Step, states: nat -> State) {
    (forall i: nat :: CanStopLater(keys, states, i)) ==> exists j: nat :: schedule(j) == PollStop
  }

  lemma StepAt(keys: seq<string>, schedule: nat -> Step, states: nat -> State, i: nat)
    requires RunsForEver(keys, schedule, states)
    ensures Enabled(keys, states(i), schedule(i)) && states(i + 1) == Apply(keys, states(i), schedule(i))
  {
    assert Follows(keys, schedule, states, i);
  }

  lemma {:induction false} AtTime(keys: seq<string>, schedule: nat -> Step, states: nat -> State, i: nat, j: nat)
    requires RunsForEver(keys, schedule, states) && i <= j && Inv(keys, states(i)) && WatchEnded(states(i))
    ensures Inv(keys, states(j)) && WatchEnded(states(j))
    ensures states(i).cancelled ==> states(j).cancelled
    ensures PollerStopped(states(i)) ==> PollerStopped(states(j))
    decreases j
  {
    if i < j {
      AtTime(keys, schedule, states, i, j - 1);
      StepAt(keys, schedule, states, j - 1);
      InvStep(keys, states(j - 1), schedule(j - 1));
    }
  }

  lemma QuietStep(keys: seq<string>, schedule: nat -> Step, states: nat -> State, i: nat)
    requires RunsForEver(keys, schedule, states) && Inv(keys, states(i)) && WatchEnded(states(i)) && states(i).cancelled
    requires schedule(i) != PollTimer
    ensures Left(keys, states(i + 1), 0) < Left(keys, states(i), 0)
  {
    StepAt(keys, schedule, states, i);
    LeftShrinks(keys, states(i), schedule(i), 0);
  }

  /** Without timers every step uses up one of those left. */
  lemma {:induction false} QuietStepsRunOut(keys: seq<string>, schedule: nat -> Step, states: nat -> State, i: nat,
                                            n: nat)
    requires RunsForEver(keys, schedule, states) && Inv(keys, states(i)) && WatchEnded(states(i)) && states(i).cancelled
    requires forall j: nat :: i <= j < i + n ==> schedule(j) != PollTimer
    ensures Left(keys, states(i + n), 0) + n <= Left(keys, states(i), 0)
    decreases n
  {
    if n > 0 {
      var last := i + n - 1;
      QuietStepsRunOut(keys, schedule, states, i, n - 1);
      AtTime(keys, schedule, states, i, last);
      QuietStep(keys, schedule, states, last);
    }
  }

  lemma LeftIsNatural(keys: seq<string>, s: State)
    requires Inv(keys, s)
    ensures Left(keys, s, 0) >= 0
  {
  }

  lemma TimerFires(keys: seq<string>, schedule: nat -> Step, states: nat -> State, i: nat) returns (j: nat)
    requires RunsForEver(keys, schedule, states) && Inv(keys, states(i)) && WatchEnded(states(i)) && states(i).cancelled
    ensures i <= j && schedule(j) == PollTimer
  {
    LeftIsNatural(keys, states(i));
    var n := Left(keys, states(i), 0) + 1;
    if forall k: nat :: i <= k < i + n ==> schedule(k) != PollTimer {
      QuietStepsRunOut(keys, schedule, states, i, n);
      AtTime(keys, schedule, states, i, i + n);
      LeftIsNatural(keys, states(i + n));
      assert false;
    }
    j :| i <= j < i + n && schedule(j) == PollTimer;
  }

  /** Once the watcher's goroutine is gone, and has cancelled the context, a schedule can go on for ever only if the
      select is unfair: with a fair one the stream closes. */
  lemma OnlyUnfairStreamsGoOn(keys: seq<string>, schedule: nat -> Step, states: nat -> State)
    requires RunsForEver(keys, schedule, states) && Inv(keys, states(0)) && states(0).watcher.WatchGone?
    ensures !SelectIsFair(keys, schedule, states)
  {
    forall i: nat
      ensures CanStopLater(keys, states, i)
    {
      AtTime(keys, schedule, states, 0, i);
      var j := TimerFires(keys, schedule, states, i);
      AtTime(keys, schedule, states, 0, j);
      StepAt(keys, schedule, states, j);
    }
    if stop: nat :| schedule(stop) == PollStop {
      StepAt(keys, schedule, states, stop);
      AtTime(keys, schedule, states, 0, stop + 1);
      var j := TimerFires(keys, schedule, states, stop + 1);
      AtTime(keys, schedule, states, stop + 1, j);
      StepAt(keys, schedule, states, j);
    }
  }
}
