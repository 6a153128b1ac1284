/** pkg/cmd/proxy.go:60-87: the stream of one etcd key, the revision filter, the retrying fold and PgBouncer,
    run as one system. Every goroutine takes its steps whenever it likes, etcd changes at any time, and the
    stream may deliver any value the key ever held, in any order and any number of times. */
module Proxy {
  import opened Base
  import Filters
  import R = RetryFold

  /** The config file: the kv it was last written for, and whether that write got through to the end. */
  datatype File = NoFile | File(kv: KV, intact: bool)

  datatype Fold =
    | Idle                     // in the range, receiving
    | Writing(kv: KV)          // about to run GenerateConfig
    | Reloading(kv: KV)        // about to run Reload
    | Failed(kv: KV)           // in the select, receiving or waiting for the timer

  datatype State = State(
    history: seq<KV>,          // every revision of the key in etcd, oldest first
    hand: Option<KV>,          // what the filter is blocked on sending
    last: int,                 // lastRevisions[key]
    fold: Fold,
    held: int,                 // revision of the last kv the fold received, 0 before the first
    file: File,
    running: Option<KV>        // the kv whose host PgBouncer runs with
  )

  datatype Step =
    | Put(kv: KV)
    | Deliver(i: nat)          // the filter receives the ith revision from the stream
    | Handoff                  // the fold receives from the filter
    | WriteOk
    | WriteFails(torn: bool)   // torn: the file was truncated or half written
    | ReloadOk
    | ReloadFails(applied: bool) // applied: the command took effect although its answer was lost
    | RetryTimer
    | BouncerRestarts          // PgBouncer reads its file again

  const INITIAL := State([], None, 0, Idle, 0, NoFile, None)

  function Current(s: State): int {
    if s.history == [] then 0 else s.history[|s.history| - 1].rev
  }

  predicate Enabled(s: State, step: Step) {
    match step
    case Put(kv) => kv.rev > Current(s) && (s.history != [] ==> kv.key == s.history[0].key)
    case Deliver(i) => i < |s.history| && s.hand.None?
    case Handoff => s.hand.Some? && (s.fold.Idle? || s.fold.Failed?)
    case WriteOk => s.fold.Writing?
    case WriteFails(_) => s.fold.Writing?
    case ReloadOk => s.fold.Reloading? && s.file.File?
    case ReloadFails(_) => s.fold.Reloading? && s.file.File?
    case RetryTimer => s.fold.Failed?
    case BouncerRestarts => s.file.File? && s.file.intact
  }

  function Apply(s: State, step: Step): State
    requires Enabled(s, step)
  {
    match step
    case Put(kv) => s.(history := s.history + [kv])
    case Deliver(i) => if s.last >= s.history[i].rev then s else s.(hand := Some(s.history[i]))
    case Handoff => s.(fold := Writing(s.hand.value), held := s.hand.value.rev, last := s.hand.value.rev, hand := None)
    case WriteOk => s.(file := File(s.fold.kv, true), fold := Reloading(s.fold.kv))
    case WriteFails(torn) => s.(file := if torn then File(s.fold.kv, false) else s.file, fold := Failed(s.fold.kv))
    case ReloadOk => s.(running := Some(s.file.kv), fold := Idle)
    case ReloadFails(applied) =>
      s.(running := if applied then Some(s.file.kv) else s.running, fold := Failed(s.fold.kv))
    case RetryTimer => s.(fold := Writing(s.fold.kv))
    case BouncerRestarts => s.(running := Some(s.file.kv))
  }

  predicate IsRun(s: State, steps: seq<Step>, end: State)
    decreases steps
  {
    if steps == [] then s == end
    else Enabled(s, steps[0]) && IsRun(Apply(s, steps[0]), steps[1..], end)
  }

  // ---------------------------------------------------------------------------------------------------
  // PgBouncer never rolls back

  function FileRev(s: State): int {
    if s.file.File? then s.file.kv.rev else 0
  }

  function RunningRev(s: State): int {
    if s.running.Some? then s.running.value.rev else 0
  }

  /** The revision of the last kv the filter let through, received by the fold or not. */
  function EmittedRev(s: State): int {
    if s.hand.Some? then s.hand.value.rev else s.last
  }

  predicate Increasing(history: seq<KV>) {
    && (forall i :: 0 <= i < |history| ==> history[i].rev > 0)
    && (forall i, j :: 0 <= i < j < |history| ==> history[i].rev < history[j].rev)
  }

  predicate Chain(s: State) {
    0 <= RunningRev(s) <= FileRev(s) <= s.held <= EmittedRev(s) <= Current(s)
  }

  /** Whatever the system holds anywhere is a kv that etcd held at that kv's revision. */
  predicate Genuine(s: State) {
    && (s.running.Some? ==> s.running.value in s.history)
    && (s.file.File? ==> s.file.kv in s.history)
    && (s.hand.Some? ==> s.hand.value in s.history)
    && (!s.fold.Idle? ==> s.fold.kv in s.history)
  }

  predicate Inv(s: State) {
    && Increasing(s.history) && Chain(s) && Genuine(s)
    && s.held == s.last
    && (s.hand.Some? ==> s.hand.value.rev > s.last)
    && (!s.fold.Idle? ==> s.fold.kv.rev == s.held)
    && (s.fold.Reloading? ==> s.file == File(s.fold.kv, true))
    && (s.fold.Idle? ==>
          if s.held == 0 then s.running.None? && s.file.NoFile?
          else s.running.Some? && s.running.value.rev == s.held && s.file == File(s.running.value, true))
  }

  lemma InvStep(s: State, step: Step)
    requires Inv(s) && Enabled(s, step)
    ensures Inv(Apply(s, step)) && Advances(s, Apply(s, step))
  {
    match step {
      case Put(kv) => PutKeepsInv(s, kv);
      case Deliver(i) => DeliverKeepsInv(s, i);
      case Handoff => HandoffKeepsInv(s);
      case ReloadOk => ReloadKeepsInv(s, step);
      case ReloadFails(_) => ReloadKeepsInv(s, step);
      case _ => WriteKeepsInv(s, step);
    }
  }

  predicate Advances(s: State, t: State) {
    && s.history <= t.history
    && RunningRev(s) <= RunningRev(t) && FileRev(s) <= FileRev(t) && s.held <= t.held
    && EmittedRev(s) <= EmittedRev(t) && Current(s) <= Current(t)
  }

  lemma DeliverKeepsInv(s: State, i: nat)
    requires Inv(s) && Enabled(s, Deliver(i))
    ensures Inv(Apply(s, Deliver(i))) && Advances(s, Apply(s, Deliver(i)))
  {
    assert s.history[i] in s.history && s.history[i].rev <= Current(s);
  }

  lemma HandoffKeepsInv(s: State)
    requires Inv(s) && Enabled(s, Handoff)
    ensures Inv(Apply(s, Handoff)) && Advances(s, Apply(s, Handoff))
  {
  }

  lemma ReloadKeepsInv(s: State, step: Step)
    requires Inv(s) && Enabled(s, step) && (step.ReloadOk? || step.ReloadFails?)
    ensures Inv(Apply(s, step)) && Advances(s, Apply(s, step))
  {
  }

  lemma WriteKeepsInv(s: State, step: Step)
    requires Inv(s) && Enabled(s, step)
    requires step.WriteOk? || step.WriteFails? || step.RetryTimer? || step.BouncerRestarts?
    ensures Inv(Apply(s, step)) && Advances(s, Apply(s, step))
  {
  }

  lemma PutKeepsInv(s: State, kv: KV)
    requires Inv(s) && Enabled(s, Put(kv))
    ensures Inv(Apply(s, Put(kv))) && Advances(s, Apply(s, Put(kv)))
  {
    var t := Apply(s, Put(kv));
    assert forall other :: other in s.history ==> other in t.history;
    assert Increasing(t.history) by {
      assert forall i :: 0 <= i < |s.history| ==> s.history[i].rev <= Current(s);
    }
  }

  lemma SameRevisionSameKv(history: seq<KV>)
    requires Increasing(history)
    ensures forall a, b :: a in history && b in history && a.rev == b.rev ==> a == b
  {
  }

  lemma {:induction false} InvRun(s: State, steps: seq<Step>, end: State)
    requires Inv(s) && IsRun(s, steps, end)
    ensures Inv(end)
    ensures Advances(s, end)
    decreases steps
  {
    if steps != [] {
      InvStep(s, steps[0]);
      InvRun(Apply(s, steps[0]), steps[1..], end);
    }
  }

  /** Between any two moments of any schedule: at both, the revisions PgBouncer runs with, the file holds, the
      fold holds, the filter emitted and etcd has reached are in that order, and every one of them names a kv of
      etcd's history; and none of them is lower at the later moment. */
  lemma NeverRollsBack(before: seq<Step>, s: State, steps: seq<Step>, end: State)
    requires IsRun(INITIAL, before, s) && IsRun(s, steps, end)
    ensures Chain(s) && Chain(end) && Genuine(s) && Genuine(end)
    ensures RunningRev(s) <= RunningRev(end) && FileRev(s) <= FileRev(end) && s.held <= end.held
    ensures EmittedRev(s) <= EmittedRev(end) && Current(s) <= Current(end)
    ensures s.running.Some? ==> end.running.Some? && s.running.value in end.history
  {
    InvRun(INITIAL, before, s);
    InvRun(s, steps, end);
  }

  // ---------------------------------------------------------------------------------------------------
  // One kv at a time, the file before the reload

  datatype Phase = Resting | ToWrite | ToReload | AfterFailure

  function PhaseOf(fold: Fold): Phase {
    match fold
    case Idle => Resting
    case Writing(_) => ToWrite
    case Reloading(_) => ToReload
    case Failed(_) => AfterFailure
  }

  /** By the schedule alone: a kv is taken only between operations; an operation writes the file, and reloads only if
      that worked; and it is tried again only after it failed. */
  predicate InOrder(phase: Phase, steps: seq<Step>)
    decreases steps
  {
    if steps == [] then true
    else
      match steps[0]
      case Handoff => (phase == Resting || phase == AfterFailure) && InOrder(ToWrite, steps[1..])
      case RetryTimer => phase == AfterFailure && InOrder(ToWrite, steps[1..])
      case WriteOk => phase == ToWrite && InOrder(ToReload, steps[1..])
      case WriteFails(_) => phase == ToWrite && InOrder(AfterFailure, steps[1..])
      case ReloadOk => phase == ToReload && InOrder(Resting, steps[1..])
      case ReloadFails(_) => phase == ToReload && InOrder(AfterFailure, steps[1..])
      case _ => InOrder(phase, steps[1..])
  }

  lemma {:induction false} OneAtATime(s: State, steps: seq<Step>, end: State)
    requires IsRun(s, steps, end)
    ensures InOrder(PhaseOf(s.fold), steps)
    decreases steps
  {
    if steps != [] {
      OneAtATime(Apply(s, steps[0]), steps[1..], end);
    }
  }

  // ---------------------------------------------------------------------------------------------------
  // Nothing more can be said: each of them can lag behind the next

  lemma {:induction false} Extend(s: State, steps: seq<Step>, mid: State, step: Step)
    requires IsRun(s, steps, mid) && Enabled(mid, step)
    ensures IsRun(s, steps + [step], Apply(mid, step))
    decreases steps
  {
    if steps == [] {
      assert [step][1..] == [];
    } else {
      assert (steps + [step])[1..] == steps[1..] + [step];
      Extend(Apply(s, steps[0]), steps[1..], mid, step);
    }
  }

  ghost predicate CanReach(s: State) {
    exists steps :: IsRun(INITIAL, steps, s)
  }

  lemma Then(s: State, step: Step) returns (t: State)
    requires CanReach(s) && Enabled(s, step)
    ensures CanReach(t) && t == Apply(s, step)
  {
    var steps :| IsRun(INITIAL, steps, s);
    Extend(INITIAL, steps, s, step);
    t := Apply(s, step);
  }

  /** Etcd gets a new revision, and the stream delivers it to the filter. */
  lemma PutAndDeliver(s: State, kv: KV) returns (t: State)
    requires CanReach(s) && Enabled(s, Put(kv)) && s.hand.None? && s.last < kv.rev
    ensures CanReach(t) && t == s.(history := s.history + [kv], hand := Some(kv))
  {
    t := Then(s, Put(kv));
    t := Then(t, Deliver(|s.history|));
  }

  /** The first revision reaches PgBouncer; the second the file, its reload failing, with or without effect. */
  lemma FileAhead(key: string, value: string, applied: bool) returns (s: State)
    ensures CanReach(s) && s.hand.None? && s.fold == Failed(KV(key, value, 2)) && s.held == s.last == 2
    ensures s.file == File(KV(key, value, 2), true) && s.running == Some(KV(key, value, if applied then 2 else 1))
    ensures s.history == [KV(key, value, 1), KV(key, value, 2)]
  {
    assert IsRun(INITIAL, [], INITIAL);
    s := PutAndDeliver(INITIAL, KV(key, value, 1));
    s := Then(s, Handoff);
    s := Then(s, WriteOk);
    s := Then(s, ReloadOk);
    s := PutAndDeliver(s, KV(key, value, 2));
    s := Then(s, Handoff);
    s := Then(s, WriteOk);
    s := Then(s, ReloadFails(applied));
  }

  /** All five at once can be apart: PgBouncer runs with one revision, its file holds a newer one, the fold a newer
      one yet, the filter has let through a newer one, and etcd has another. A PgBouncer that restarts catches up with
      its file. */
  lemma EachCanLagBehind(key: string, value: string) returns (s: State)
    ensures CanReach(s) && 0 < RunningRev(s) < FileRev(s) < s.held < EmittedRev(s) < Current(s)
    ensures Enabled(s, BouncerRestarts) && RunningRev(Apply(s, BouncerRestarts)) == FileRev(s)
  {
    s := FileAhead(key, value, false);
    s := PutAndDeliver(s, KV(key, value, 3));
    s := Then(s, Handoff);
    s := Then(s, WriteFails(false));
    s := PutAndDeliver(s, KV(key, value, 4));
    s := Then(s, Put(KV(key, value, 5)));
  }

  /** An operation that reports failure can have done all of its work, or have left half a file, which no PgBouncer
      can start with. */
  lemma FailuresCanHaveEffects(key: string, value: string) returns (s: State, torn: State)
    ensures CanReach(s) && s.fold.Failed? && s.running == Some(s.fold.kv)
    ensures CanReach(torn) && torn.fold.Failed? && torn.file == File(torn.fold.kv, false)
    ensures !Enabled(torn, BouncerRestarts) && torn.running == s.running
  {
    s := FileAhead(key, value, true);
    torn := Then(s, RetryTimer);
    torn := Then(torn, WriteFails(true));
  }

  /** A newer kv need not wait for a failing one: whenever the fold has failed, it can take the kv in hand, and goes
      on with that, or it tries again with its own. */
  lemma NewerSupersedes(before: seq<Step>, s: State)
    requires IsRun(INITIAL, before, s) && s.fold.Failed?
    ensures s.hand.Some? ==>
      && Enabled(s, Handoff) && s.hand.value.rev > s.fold.kv.rev
      && Apply(s, Handoff).fold == Writing(s.hand.value) && Apply(s, Handoff).hand.None?
    ensures Enabled(s, RetryTimer) && Apply(s, RetryTimer) == s.(fold := Writing(s.fold.kv))
  {
    InvRun(INITIAL, before, s);
  }

  // ---------------------------------------------------------------------------------------------------
  // Once etcd is quiet and PgBouncer answers, every schedule ends at etcd's value

  predicate Converged(s: State) {
    && s.history != [] && s.hand.None? && s.fold.Idle?
    && s.running == Some(s.history[|s.history| - 1])
    && s.file == File(s.history[|s.history| - 1], true)
    && s.last == Current(s)
  }

  /** A step of a quiet system that changes something: no put, no failure, no delivery of a stale kv. */
  predicate Useful(s: State, step: Step) {
    && Enabled(s, step)
    && !step.Put? && !step.WriteFails? && !step.ReloadFails? && !step.BouncerRestarts?
    && (step.Deliver? ==> s.history[step.i].rev > s.last)
  }

  /** What may happen besides, without changing anything that matters. */
  predicate Idling(s: State, step: Step) {
    Enabled(s, step) && step.Deliver? && s.history[step.i].rev <= s.last
  }

  function NewerThan(history: seq<KV>, rev: int): nat {
    if history == [] then 0
    else NewerThan(history[..|history| - 1], rev) + if history[|history| - 1].rev > rev then 1 else 0
  }

  lemma {:induction false} FewerAreNewer(history: seq<KV>, low: int, high: int)
    requires low <= high
    ensures NewerThan(history, high) <= NewerThan(history, low)
    ensures (exists kv :: kv in history && low < kv.rev <= high) ==> NewerThan(history, high) < NewerThan(history, low)
  {
    if history != [] {
      FewerAreNewer(history[..|history| - 1], low, high);
      if kv :| kv in history && low < kv.rev <= high {
        assert kv in history[..|history| - 1] || kv == history[|history| - 1];
      }
    }
  }

  function FoldLeft(fold: Fold): nat {
    match fold case Idle => 0 case Reloading(_) => 1 case Writing(_) => 2 case Failed(_) => 3
  }

  function Rank(s: State): nat {
    4 * NewerThan(s.history, EmittedRev(s)) + (if s.hand.Some? then 3 else 0) + FoldLeft(s.fold)
  }

  lemma UsefulStepsRunOut(s: State, step: Step)
    requires Inv(s) && Useful(s, step)
    ensures Rank(Apply(s, step)) < Rank(s)
  {
    if step.Deliver? {
      assert s.history[step.i] in s.history;
      FewerAreNewer(s.history, s.last, s.history[step.i].rev);
    }
  }

  lemma CaughtUpIsConverged(s: State)
    requires Inv(s) && s.history != [] && s.fold.Idle? && s.hand.None? && s.last == Current(s)
    ensures Converged(s)
  {
    SameRevisionSameKv(s.history);
  }

  lemma UsefulUntilConverged(s: State)
    requires Inv(s) && s.history != [] && !Converged(s)
    ensures exists step :: Useful(s, step)
  {
    match s.fold {
      case Writing(_) => assert Useful(s, WriteOk);
      case Reloading(_) => assert Useful(s, ReloadOk);
      case Failed(_) => assert Useful(s, RetryTimer);
      case Idle =>
        if s.hand.Some? {
          assert Useful(s, Handoff);
        } else {
          if s.last == Current(s) {
            CaughtUpIsConverged(s);
          } else {
            assert Useful(s, Deliver(|s.history| - 1));
          }
        }
    }
  }

  predicate IsQuietRun(s: State, steps: seq<Step>, end: State)
    decreases steps
  {
    if steps == [] then s == end
    else (Useful(s, steps[0]) || Idling(s, steps[0])) && IsQuietRun(Apply(s, steps[0]), steps[1..], end)
  }

  function UsefulSteps(s: State, steps: seq<Step>): nat
    decreases steps
  {
    if steps == [] || !Enabled(s, steps[0]) then 0
    else (if Useful(s, steps[0]) then 1 else 0) + UsefulSteps(Apply(s, steps[0]), steps[1..])
  }

  lemma {:induction false} QuietRun(s: State, steps: seq<Step>, end: State)
    requires Inv(s) && IsQuietRun(s, steps, end)
    ensures Inv(end) && end.history == s.history
    ensures UsefulSteps(s, steps) + Rank(end) <= Rank(s)
    decreases steps
  {
    if steps != [] {
      InvStep(s, steps[0]);
      if Useful(s, steps[0]) {
        UsefulStepsRunOut(s, steps[0]);
      }
      QuietRun(Apply(s, steps[0]), steps[1..], end);
    }
  }

  /** From any reachable state, whatever the stream still delivers: a quiet run has at most Rank(s) useful
      steps, and one that has no useful step left runs PgBouncer with etcd's current value. */
  lemma QuietLeadsToConvergence(before: seq<Step>, s: State, steps: seq<Step>, end: State)
    requires IsRun(INITIAL, before, s) && s.history != [] && IsQuietRun(s, steps, end)
    ensures UsefulSteps(s, steps) <= Rank(s)
    ensures (forall step :: !Useful(end, step)) <==> Converged(end)
  {
    InvRun(INITIAL, before, s);
    QuietRun(s, steps, end);
    if !Converged(end) {
      UsefulUntilConverged(end);
    } else {
      assert forall i :: 0 <= i < |end.history| ==> end.history[i].rev <= Current(end);
    }
  }

  /** Nothing but a new put ends convergence. */
  lemma ConvergenceIsStable(before: seq<Step>, s: State, step: Step)
    requires IsRun(INITIAL, before, s) && Converged(s) && Enabled(s, step)
    ensures Converged(Apply(s, step)) <==> !step.Put?
  {
    InvRun(INITIAL, before, s);
    assert forall i :: 0 <= i < |s.history| ==> s.history[i].rev <= Current(s);
  }

  // ---------------------------------------------------------------------------------------------------
  // The stages are the revision filter and the retrying fold

  /** What one step delivers to the filter, and what the fold receives from it. */
  function Delivery(s: State, step: Step): seq<KV>
    requires Enabled(s, step)
  {
    if step.Deliver? then [s.history[step.i]] else []
  }

  function Receipt(s: State, step: Step): seq<KV>
    requires Enabled(s, step)
  {
    if step.Handoff? then [s.hand.value] else []
  }

  function Delivered(s: State, steps: seq<Step>): seq<KV>
    decreases steps
  {
    if steps == [] || !Enabled(s, steps[0]) then []
    else Delivery(s, steps[0]) + Delivered(Apply(s, steps[0]), steps[1..])
  }

  function Handed(s: State, steps: seq<Step>): seq<KV>
    decreases steps
  {
    if steps == [] || !Enabled(s, steps[0]) then []
    else Receipt(s, steps[0]) + Handed(Apply(s, steps[0]), steps[1..])
  }

  function InHand(s: State): seq<KV> {
    if s.hand.Some? then [s.hand.value] else []
  }

  predicate OneKey(history: seq<KV>) {
    forall i :: 0 <= i < |history| ==> history[i].key == history[0].key
  }

  /** The filter's map, which has at most this one key; a kv in hand is about to be noted. */
  function LastRevisions(s: State): map<string, int> {
    if s.history == [] || EmittedRev(s) <= 0 then map[] else map[s.history[0].key := EmittedRev(s)]
  }

  /** After these deliveries and receipts. */
  ghost predicate Filtering(s: State, delivered: seq<KV>, handed: seq<KV>) {
    && OneKey(s.history)
    && handed + InHand(s) == Filters.Records(delivered)
    && Filters.Tracks(LastRevisions(s), delivered)
  }

  lemma FilteringDelivery(s: State, i: nat, delivered: seq<KV>, handed: seq<KV>)
    requires Filtering(s, delivered, handed) && Enabled(s, Deliver(i)) && 0 <= s.last
    ensures Filtering(Apply(s, Deliver(i)), delivered + [s.history[i]], handed)
  {
    var kv, last := s.history[i], LastRevisions(s);
    assert Filters.Lookup(last, kv.key, 0) == s.last;
    Filters.TracksAppend(last, delivered, kv);
    Filters.RecordsAppend(delivered, kv);
    assert handed + [] == handed;
  }

  lemma FilteringHandoff(s: State, delivered: seq<KV>, handed: seq<KV>)
    requires Filtering(s, delivered, handed) && Enabled(s, Handoff)
    ensures Filtering(Apply(s, Handoff), delivered, handed + [s.hand.value])
  {
    assert handed + [s.hand.value] + [] == handed + [s.hand.value];
  }

  lemma FilteringPut(s: State, kv: KV, delivered: seq<KV>, handed: seq<KV>)
    requires Filtering(s, delivered, handed) && Enabled(s, Put(kv)) && EmittedRev(s) <= Current(s)
    ensures Filtering(Apply(s, Put(kv)), delivered, handed)
  {
    var t := Apply(s, Put(kv));
    assert forall i :: 0 <= i < |s.history| ==> t.history[i] == s.history[i];
    assert LastRevisions(t) == LastRevisions(s);
  }

  lemma FilteringStep(s: State, step: Step, delivered: seq<KV>, handed: seq<KV>)
    requires Filtering(s, delivered, handed) && Enabled(s, step) && 0 <= s.last && EmittedRev(s) <= Current(s)
    ensures Filtering(Apply(s, step), delivered + Delivery(s, step), handed + Receipt(s, step))
  {
    assert delivered + [] == delivered && handed + [] == handed;
    match step {
      case Deliver(i) => FilteringDelivery(s, i, delivered, handed);
      case Handoff => FilteringHandoff(s, delivered, handed);
      case Put(kv) => FilteringPut(s, kv, delivered, handed);
      case _ =>
    }
  }

  lemma {:induction false} FilteringRun(s: State, steps: seq<Step>, end: State, delivered: seq<KV>, handed: seq<KV>)
    requires Inv(s) && Filtering(s, delivered, handed) && IsRun(s, steps, end)
    ensures Filtering(end, delivered + Delivered(s, steps), handed + Handed(s, steps))
    decreases steps
  {
    if steps == [] {
      assert delivered + [] == delivered && handed + [] == handed;
    } else {
      var step, t, rest := steps[0], Apply(s, steps[0]), steps[1..];
      InvStep(s, step);
      FilteringStep(s, step, delivered, handed);
      FilteringRun(t, rest, end, delivered + Delivery(s, step), handed + Receipt(s, step));
      Associate(delivered, Delivery(s, step), Delivered(t, rest));
      Associate(handed, Receipt(s, step), Handed(t, rest));
    }
  }

  lemma FilteringStart()
    ensures Inv(INITIAL) && Filtering(INITIAL, [], [])
  {
  }

  /** On every schedule the filter has let through exactly what RevisionFilter sends for what the stream delivered. */
  lemma FilterIsRevisionFilter(steps: seq<Step>, end: State)
    requires IsRun(INITIAL, steps, end)
    ensures Handed(INITIAL, steps) + InHand(end) == Filters.Records(Delivered(INITIAL, steps))
  {
    FilteringStart();
    FilteringRun(INITIAL, steps, end, [], []);
    NothingBefore(Delivered(INITIAL, steps));
    NothingBefore(Handed(INITIAL, steps));
  }

  function MoveOf(s: State, step: Step): seq<R.Move>
    requires Enabled(s, step)
  {
    match step
    case Handoff => if s.fold.Idle? then [R.Take] else [R.Supersede]
    case ReloadOk => [R.Move.Apply]
    case RetryTimer => [R.Retry]
    case _ => []
  }

  function FoldMoves(s: State, steps: seq<Step>): seq<R.Move>
    decreases steps
  {
    if steps == [] || !Enabled(s, steps[0]) then []
    else MoveOf(s, steps[0]) + FoldMoves(Apply(s, steps[0]), steps[1..])
  }

  lemma {:induction false} FoldMovesFit(s: State, steps: seq<Step>, end: State)
    requires IsRun(s, steps, end)
    ensures R.Moves(!s.fold.Idle?, FoldMoves(s, steps), !end.fold.Idle?)
    ensures R.Taken(FoldMoves(s, steps)) == |Handed(s, steps)|
    decreases steps
  {
    if steps != [] {
      var t, rest := Apply(s, steps[0]), steps[1..];
      FoldMovesFit(t, rest, end);
      var moves := FoldMoves(s, steps);
      if MoveOf(s, steps[0]) == [] {
        assert moves == FoldMoves(t, rest);
      } else {
        assert moves[1..] == FoldMoves(t, rest);
      }
    }
  }

  /** Whenever the fold is idle, its attempts have been those of RetryFold on the kvs it received. */
  lemma FoldIsRetryFold(steps: seq<Step>, end: State)
    requires IsRun(INITIAL, steps, end) && end.fold.Idle?
    ensures var moves := FoldMoves(INITIAL, steps);
      R.FoldAll(|Handed(INITIAL, steps)|, R.Script(moves)) == (R.Log(0, moves), R.Returned)
  {
    FoldMovesFit(INITIAL, steps, end);
    R.IdleFoldIsFold(FoldMoves(INITIAL, steps));
  }
}
