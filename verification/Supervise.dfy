/** pkg/cmd/supervise.go:88-113 and pkg/etcd/updater.go: any number of supervisors push what they observe of
    pacemaker through a dedupe filter and a retrying fold into one etcd key, with no coordination between them.

    Observations may be stale or wrong; an operation may fail at any point, before or after its transaction
    committed; a supervisor may stop or start at any time. A transaction that has not committed when the
    operation returns, or when the process stops, never commits. */
module Supervise {
  import opened Base
  import Filters
  import R = RetryFold

  /** The values of the key after `If value = v Else put v`; an absent key equals no value. */
  function Updated(history: seq<string>, v: string): seq<string> {
    if history != [] && history[|history| - 1] == v then history else history + [v]
  }

  predicate NoRepeats(history: seq<string>) {
    forall i :: 0 < i < |history| ==> history[i - 1] != history[i]
  }

  /** The key as etcd keeps it. */
  class Key {
    var history: seq<string>

    constructor ()
      ensures history == []
    {
      history := [];
    }

    predicate Holds(v: string)
      reads this
    {
      history != [] && history[|history| - 1] == v
    }

    /** One transaction. Whatever the key held, it holds v afterwards; it is written only if it held something
        else, so that equal values never follow each other. */
    method CompareAndUpdate(v: string)
      modifies this
      ensures Holds(v) && old(history) <= history
      ensures history == old(history) <==> old(Holds(v))
      ensures NoRepeats(old(history)) ==> NoRepeats(history)
      ensures history == Updated(old(history), v)
    {
      if !Holds(v) {
        history := history + [v];
      }
    }
  }

  /** What an operation leaves in etcd, and whether it succeeds. `address` is corosync's answer, if any; `commits`
      says whether the transaction reaches etcd, `answered` whether its answer comes back. */
  function Outcome(history: seq<string>, address: Option<string>, commits: bool, answered: bool): (seq<string>, bool) {
    if address.None? || !commits then (history, false) else (Updated(history, address.value), answered)
  }

  /** The fold's operation, pkg/cmd/supervise.go:95-111. */
  method Operate(key: Key, address: Option<string>, commits: bool, answered: bool) returns (ok: bool)
    modifies key
    ensures ok <==> address.Some? && commits && answered
    ensures ok ==> key.Holds(address.value)
    ensures NoRepeats(old(key.history)) ==> NoRepeats(key.history)
    ensures (key.history, ok) == Outcome(old(key.history), address, commits, answered)
  {
    if address.None? {
      return false;
    }
    if commits {
      key.CompareAndUpdate(address.value);
    }
    return commits && answered;
  }

  lemma UpdateSetsValue(history: seq<string>, v: string)
    ensures var after := Updated(history, v);
      && after != [] && after[|after| - 1] == v && history <= after
      && Updated(after, v) == after
  {
  }

  datatype Fold =
    | Idle
    | Resolving(id: string)
    | Updating(id: string, addr: string)
    | Answering(id: string)    // the transaction has committed, the operation has not returned
    | Failed(id: string)

  datatype Supervisor = Supervisor(
    last: string,              // lastValues[key] of the dedupe filter, "" before the first
    hand: Option<string>,      // what the filter is blocked on sending
    fold: Fold
  )

  const FRESH := Supervisor("", None, Idle)

  type Name = nat

  datatype State = State(
    history: seq<string>,
    active: map<Name, Supervisor>,
    commits: map<Name, string>,  // the value of each supervisor's last committed transaction
    writer: Option<Name>         // who committed last
  )

  const INITIAL := State([], map[], map[], None)

  datatype Action =
    | Start                    // also a restart after Stop
    | Stop
    | Observe(id: string)      // the filter receives a node id from the poll loop
    | Handoff                  // the fold receives from the filter
    | ResolveOk
    | ResolveFails
    | Commit
    | UpdateFails              // without having committed
    | AnswerOk
    | AnswerLost               // committed, but the operation reports an error
    | RetryTimer

  datatype Step = Step(n: Name, action: Action)

  predicate CanDo(sup: Supervisor, action: Action) {
    match action
    case Start => false
    case Stop => true
    case Observe(_) => sup.hand.None?
    case Handoff => sup.hand.Some? && (sup.fold.Idle? || sup.fold.Failed?)
    case ResolveOk => sup.fold.Resolving?
    case ResolveFails => sup.fold.Resolving?
    case Commit => sup.fold.Updating?
    case UpdateFails => sup.fold.Updating?
    case AnswerOk => sup.fold.Answering?
    case AnswerLost => sup.fold.Answering?
    case RetryTimer => sup.fold.Failed?
  }

  predicate Enabled(s: State, step: Step) {
    if step.action.Start? then step.n !in s.active
    else step.n in s.active && CanDo(s.active[step.n], step.action)
  }

  /** `address` is what corosync resolves each node id to. */
  function ApplySupervisor(sup: Supervisor, action: Action, address: string -> string): Supervisor
    requires CanDo(sup, action) && !action.Stop?
  {
    match action
    case Observe(id) => if sup.last == id then sup else sup.(hand := Some(id))
    case Handoff => Supervisor(sup.hand.value, None, Resolving(sup.hand.value))
    case ResolveOk => sup.(fold := Updating(sup.fold.id, address(sup.fold.id)))
    case ResolveFails => sup.(fold := Failed(sup.fold.id))
    case Commit => sup.(fold := Answering(sup.fold.id))
    case UpdateFails => sup.(fold := Failed(sup.fold.id))
    case AnswerOk => sup.(fold := Idle)
    case AnswerLost => sup.(fold := Failed(sup.fold.id))
    case RetryTimer => sup.(fold := Resolving(sup.fold.id))
  }

  function Apply(s: State, step: Step, address: string -> string): State
    requires Enabled(s, step)
  {
    var Step(n, action) := step;
    match action
    case Start => s.(active := s.active[n := FRESH])
    case Stop => s.(active := s.active - {n})
    case Commit =>
      var addr := s.active[n].fold.addr;
      State(Updated(s.history, addr), s.active[n := ApplySupervisor(s.active[n], action, address)],
            s.commits[n := addr], Some(n))
    case _ => s.(active := s.active[n := ApplySupervisor(s.active[n], action, address)])
  }

  predicate IsRun(s: State, steps: seq<Step>, address: string -> string, end: State)
    decreases steps
  {
    if steps == [] then s == end
    else Enabled(s, steps[0]) && IsRun(Apply(s, steps[0], address), steps[1..], address, end)
  }

  // ---------------------------------------------------------------------------------------------------

  predicate Current(s: State, addr: string) {
    s.history != [] && s.history[|s.history| - 1] == addr
  }

  predicate SupervisorInv(s: State, n: Name, address: string -> string)
    requires n in s.active
  {
    var sup := s.active[n];
    match sup.fold
    case Idle => sup.last != "" ==> n in s.commits && s.commits[n] == address(sup.last)
    case Answering(id) => id == sup.last && n in s.commits && s.commits[n] == address(id)
    case Updating(id, addr) => id == sup.last && addr == address(id)
    case Resolving(id) => id == sup.last
    case Failed(id) => id == sup.last
  }

  predicate Inv(s: State, address: string -> string) {
    && NoRepeats(s.history)
    && (forall n :: n in s.active ==> SupervisorInv(s, n, address))
    && (forall n :: n in s.commits ==> s.writer.Some?)
    && (s.writer.Some? ==> s.writer.value in s.commits && Current(s, s.commits[s.writer.value]))
  }

  lemma InvStep(s: State, step: Step, address: string -> string)
    requires Inv(s, address) && Enabled(s, step)
    ensures Inv(Apply(s, step, address), address)
    ensures s.history <= Apply(s, step, address).history
  {
    var t := Apply(s, step, address);
    forall n | n in t.active
      ensures SupervisorInv(t, n, address)
    {
      assert n != step.n ==> t.active[n] == s.active[n] && SupervisorInv(s, n, address);
    }
  }

  lemma {:induction false} InvRun(s: State, steps: seq<Step>, address: string -> string, end: State)
    requires Inv(s, address) && IsRun(s, steps, address, end)
    ensures Inv(end, address) && s.history <= end.history
    decreases steps
  {
    if steps != [] {
      InvStep(s, steps[0], address);
      InvRun(Apply(s, steps[0], address), steps[1..], address, end);
    }
  }

  /** However the supervisors interleave, two consecutive values of the key differ. */
  lemma HistoryNeverRepeats(steps: seq<Step>, address: string -> string, end: State)
    requires IsRun(INITIAL, steps, address, end)
    ensures NoRepeats(end.history)
  {
    InvRun(INITIAL, steps, address, end);
  }

  /** The supervisor last observed `master`, passed it on, and its operation on it has returned. */
  predicate Finished(sup: Supervisor, master: string) {
    sup.last == master && sup.hand.None? && sup.fold.Idle?
  }

  predicate AllFinished(s: State, master: string) {
    s.active != map[] && forall n :: n in s.active ==> Finished(s.active[n], master)
  }

  /** A newer observation need not wait for a failing operation: whenever a supervisor's fold has failed, it can take
      the id in hand, and goes on with that, or it tries again with its own. */
  lemma NewerSupersedes(steps: seq<Step>, address: string -> string, s: State, n: Name)
    requires IsRun(INITIAL, steps, address, s) && n in s.active && s.active[n].fold.Failed?
    ensures s.active[n].hand.Some? ==>
      && Enabled(s, Step(n, Handoff))
      && Apply(s, Step(n, Handoff), address).active[n].fold == Resolving(s.active[n].hand.value)
    ensures Enabled(s, Step(n, RetryTimer))
      && Apply(s, Step(n, RetryTimer), address).active[n].fold == Resolving(s.active[n].last)
  {
    InvRun(INITIAL, steps, address, s);
    assert SupervisorInv(s, n, address);
  }

  predicate NoCommit(steps: seq<Step>) {
    forall step :: step in steps ==> !step.action.Commit?
  }

  /** At some point of the schedule the supervisor that committed last stops while etcd holds another address than
      the target, and from then on nobody commits. */
  predicate LeavesStale(s: State, steps: seq<Step>, address: string -> string, target: string)
    decreases steps
  {
    && steps != [] && Enabled(s, steps[0])
    && (StopsStale(s, steps, target) || LeavesStale(Apply(s, steps[0], address), steps[1..], address, target))
  }

  predicate StopsStale(s: State, steps: seq<Step>, target: string)
    requires steps != []
  {
    steps[0].action.Stop? && s.writer == Some(steps[0].n) && !Current(s, target) && NoCommit(steps[1..])
  }

  lemma {:induction false} NoCommitKeepsHistory(s: State, steps: seq<Step>, address: string -> string, end: State)
    requires IsRun(s, steps, address, end) && NoCommit(steps)
    ensures end.history == s.history
    decreases steps
  {
    if steps != [] {
      assert steps[0] in steps && forall step :: step in steps[1..] ==> step in steps;
      NoCommitKeepsHistory(Apply(s, steps[0], address), steps[1..], address, end);
    }
  }

  lemma {:induction false} StaleStays(s: State, steps: seq<Step>, address: string -> string, end: State, target: string)
    requires IsRun(s, steps, address, end) && LeavesStale(s, steps, address, target)
    ensures !Current(end, target)
    decreases steps
  {
    var t := Apply(s, steps[0], address);
    if StopsStale(s, steps, target) {
      NoCommitKeepsHistory(t, steps[1..], address, end);
    } else {
      StaleStays(t, steps[1..], address, end, target);
    }
  }

  /** The last writer is still there to repair its value, or the value is right. */
  predicate Attended(s: State, target: string) {
    s.writer.Some? ==> s.writer.value in s.active || Current(s, target)
  }

  lemma {:induction false} OtherwiseAttended(s: State, steps: seq<Step>, address: string -> string, end: State,
                                             target: string)
    requires IsRun(s, steps, address, end) && !LeavesStale(s, steps, address, target)
    requires NoCommit(steps) ==> Attended(s, target)
    ensures Attended(end, target)
    decreases steps
  {
    if steps != [] {
      var rest := steps[1..];
      assert NoCommit(rest) && !steps[0].action.Commit? ==> NoCommit(steps) by {
        assert forall step :: step in steps ==> step == steps[0] || step in rest;
      }
      OtherwiseAttended(Apply(s, steps[0], address), rest, address, end, target);
    }
  }

  /** Once all active supervisors have finished with the same master, etcd holds that master's address if and only
      if the schedule has no such stop, whatever stale writes were delayed and in whatever order they landed. */
  lemma Agreement(steps: seq<Step>, address: string -> string, end: State, master: string)
    requires IsRun(INITIAL, steps, address, end) && master != "" && AllFinished(end, master)
    ensures Current(end, address(master)) <==> !LeavesStale(INITIAL, steps, address, address(master))
  {
    var target := address(master);
    if LeavesStale(INITIAL, steps, address, target) {
      StaleStays(INITIAL, steps, address, end, target);
    } else {
      OtherwiseAttended(INITIAL, steps, address, end, target);
      InvRun(INITIAL, steps, address, end);
      var n :| n in end.active;
      assert SupervisorInv(end, n, address) && Finished(end.active[n], master);
      var w := end.writer.value;
      if w in end.active {
        assert SupervisorInv(end, w, address) && Finished(end.active[w], master);
      }
    }
  }

  lemma FinishedWrote(steps: seq<Step>, address: string -> string, end: State, master: string)
    requires IsRun(INITIAL, steps, address, end) && master != "" && AllFinished(end, master)
    ensures end.history != []
  {
    InvRun(INITIAL, steps, address, end);
    var n :| n in end.active;
    assert SupervisorInv(end, n, address) && Finished(end.active[n], master);
  }

  predicate NoStop(steps: seq<Step>) {
    forall step :: step in steps ==> !step.action.Stop?
  }

  lemma {:induction false} NoStopLeavesNothing(s: State, steps: seq<Step>, address: string -> string, target: string)
    requires NoStop(steps)
    ensures !LeavesStale(s, steps, address, target)
    decreases steps
  {
    if steps != [] && Enabled(s, steps[0]) {
      assert steps[0] in steps && forall step :: step in steps[1..] ==> step in steps;
      NoStopLeavesNothing(Apply(s, steps[0], address), steps[1..], address, target);
    }
  }

  /** So if no supervisor stops, agreement on the master is agreement in etcd. */
  lemma AgreementWithoutStops(steps: seq<Step>, address: string -> string, end: State, master: string)
    requires IsRun(INITIAL, steps, address, end) && master != "" && AllFinished(end, master) && NoStop(steps)
    ensures Current(end, address(master))
  {
    NoStopLeavesNothing(INITIAL, steps, address, address(master));
    Agreement(steps, address, end, master);
  }

  lemma {:induction false} Extend(s: State, steps: seq<Step>, mid: State, step: Step, address: string -> string)
    requires IsRun(s, steps, address, mid) && Enabled(mid, step)
    ensures IsRun(s, steps + [step], address, Apply(mid, step, address))
    decreases steps
  {
    if steps == [] {
      assert [step][1..] == [];
    } else {
      Extend(Apply(s, steps[0], address), steps[1..], mid, step, address);
      assert (steps + [step])[1..] == steps[1..] + [step];
    }
  }

  /** A supervisor with nothing to do takes an id all the way to the brink of its transaction. */
  lemma Prepare(steps: seq<Step>, s: State, n: Name, id: string, address: string -> string)
    returns (longer: seq<Step>, t: State)
    requires IsRun(INITIAL, steps, address, s) && n !in s.active && id != ""
    ensures IsRun(INITIAL, longer, address, t)
    ensures t == s.(active := s.active[n := Supervisor(id, None, Updating(id, address(id)))])
  {
    longer, t := steps, s;
    Extend(INITIAL, longer, t, Step(n, Start), address);
    longer, t := longer + [Step(n, Start)], Apply(t, Step(n, Start), address);
    Extend(INITIAL, longer, t, Step(n, Observe(id)), address);
    longer, t := longer + [Step(n, Observe(id))], Apply(t, Step(n, Observe(id)), address);
    Extend(INITIAL, longer, t, Step(n, Handoff), address);
    longer, t := longer + [Step(n, Handoff)], Apply(t, Step(n, Handoff), address);
    Extend(INITIAL, longer, t, Step(n, ResolveOk), address);
    longer, t := longer + [Step(n, ResolveOk)], Apply(t, Step(n, ResolveOk), address);
  }

  /** With stops it fails: supervisor 0 is slow with the old master, supervisor 1 finishes with the new one, then
      0 commits and dies. Supervisor 1 sees no further change, and the old address stays. */
  lemma StaleWriteOfStoppedSupervisorStays(address: string -> string, stale: string, master: string)
    returns (steps: seq<Step>, end: State)
    requires stale != "" && master != "" && address(stale) != address(master)
    ensures IsRun(INITIAL, steps, address, end) && AllFinished(end, master)
    ensures Current(end, address(stale)) && !Current(end, address(master))
  {
    steps, end := Prepare([], INITIAL, 0, stale, address);
    steps, end := Prepare(steps, end, 1, master, address);
    Extend(INITIAL, steps, end, Step(1, Commit), address);
    steps, end := steps + [Step(1, Commit)], Apply(end, Step(1, Commit), address);
    Extend(INITIAL, steps, end, Step(1, AnswerOk), address);
    steps, end := steps + [Step(1, AnswerOk)], Apply(end, Step(1, AnswerOk), address);
    steps, end := CommitAndDie(steps, end, stale, master, address);
  }

  lemma CommitAndDie(before: seq<Step>, s: State, stale: string, master: string, address: string -> string)
    returns (steps: seq<Step>, end: State)
    requires stale != "" && master != "" && address(stale) != address(master)
    requires IsRun(INITIAL, before, address, s) && s.active.Keys == {0, 1}
    requires s.active[0] == Supervisor(stale, None, Updating(stale, address(stale)))
    requires AllFinished(s.(active := s.active - {0}), master) && Current(s, address(master))
    ensures IsRun(INITIAL, steps, address, end) && AllFinished(end, master)
    ensures Current(end, address(stale)) && !Current(end, address(master))
  {
    steps, end := before, s;
    Extend(INITIAL, steps, end, Step(0, Commit), address);
    steps, end := steps + [Step(0, Commit)], Apply(end, Step(0, Commit), address);
    Extend(INITIAL, steps, end, Step(0, Stop), address);
    steps, end := steps + [Step(0, Stop)], Apply(end, Step(0, Stop), address);
    assert end.active == s.active - {0};
  }

  // ---------------------------------------------------------------------------------------------------
  // The steps of a supervisor's operation are its stages

  function Stages(resolved: bool, commits: bool, answered: bool): seq<Action> {
    if !resolved then [ResolveFails]
    else if !commits then [ResolveOk, UpdateFails]
    else [ResolveOk, Commit, if answered then AnswerOk else AnswerLost]
  }

  function StepsOf(n: Name, actions: seq<Action>): seq<Step> {
    if actions == [] then [] else [Step(n, actions[0])] + StepsOf(n, actions[1..])
  }

  /** Step by step, with nobody in between, an operation does what Operate does in one go; one that does not succeed
      is left to be tried again, or to be superseded. */
  lemma OperationInSteps(s: State, n: Name, address: string -> string, resolved: bool, commits: bool, answered: bool)
    returns (end: State)
    requires n in s.active && s.active[n].fold.Resolving?
    ensures IsRun(s, StepsOf(n, Stages(resolved, commits, answered)), address, end) && n in end.active
    ensures var answer := if resolved then Some(address(s.active[n].fold.id)) else None;
      (end.history, end.active[n].fold.Idle?) == Outcome(s.history, answer, commits, answered)
    ensures var fold := if resolved && commits && answered then Idle else Failed(s.active[n].fold.id);
      end.active == s.active[n := s.active[n].(fold := fold)]
  {
    end := s;
    NothingBefore([ResolveOk]);
    NothingBefore([ResolveFails]);
    if resolved {
      end := OneMore(s, n, [], end, ResolveOk, address);
      if commits {
        end := OneMore(s, n, [ResolveOk], end, Commit, address);
        assert [ResolveOk] + [Commit] == [ResolveOk, Commit];
        var last := if answered then AnswerOk else AnswerLost;
        end := OneMore(s, n, [ResolveOk, Commit], end, last, address);
        assert [ResolveOk, Commit] + [last] == Stages(true, true, answered);
      } else {
        end := OneMore(s, n, [ResolveOk], end, UpdateFails, address);
        assert [ResolveOk] + [UpdateFails] == Stages(true, false, answered);
      }
    } else {
      end := OneMore(s, n, [], end, ResolveFails, address);
    }
  }

  lemma OneMore(s: State, n: Name, actions: seq<Action>, mid: State, action: Action, address: string -> string)
    returns (end: State)
    requires IsRun(s, StepsOf(n, actions), address, mid) && Enabled(mid, Step(n, action))
    ensures IsRun(s, StepsOf(n, actions + [action]), address, end) && end == Apply(mid, Step(n, action), address)
  {
    Extend(s, StepsOf(n, actions), mid, Step(n, action), address);
    StepsOfAppend(n, actions, action);
    end := Apply(mid, Step(n, action), address);
  }

  lemma {:induction false} StepsOfAppend(n: Name, actions: seq<Action>, action: Action)
    ensures StepsOf(n, actions + [action]) == StepsOf(n, actions) + [Step(n, action)]
  {
    if actions != [] {
      assert (actions + [action])[1..] == actions[1..] + [action];
      StepsOfAppend(n, actions[1..], action);
    }
  }

  // ---------------------------------------------------------------------------------------------------
  // Each supervisor is the dedupe filter and the retrying fold

  /** What the steps have supervisor n do. */
  function Own(steps: seq<Step>, n: Name): seq<Action> {
    if steps == [] then []
    else if steps[0].n == n then [steps[0].action] + Own(steps[1..], n)
    else Own(steps[1..], n)
  }

  predicate Lives(sup: Supervisor, actions: seq<Action>, address: string -> string, end: Supervisor)
    decreases |actions|
  {
    if actions == [] then sup == end
    else
      && CanDo(sup, actions[0]) && !actions[0].Stop?
      && Lives(ApplySupervisor(sup, actions[0], address), actions[1..], address, end)
  }

  datatype Phase = Resting | ToResolve | ToUpdate | ToAnswer | AfterFailure

  function PhaseOf(fold: Fold): Phase {
    match fold
    case Idle => Resting
    case Resolving(_) => ToResolve
    case Updating(_, _) => ToUpdate
    case Answering(_) => ToAnswer
    case Failed(_) => AfterFailure
  }

  /** By the actions alone: an id is taken only between operations; an operation resolves it, and updates etcd only if
      that worked; and it is tried again only after it failed. */
  predicate InOrder(phase: Phase, actions: seq<Action>)
    decreases |actions|
  {
    if actions == [] then true
    else
      match actions[0]
      case Handoff => (phase == Resting || phase == AfterFailure) && InOrder(ToResolve, actions[1..])
      case RetryTimer => phase == AfterFailure && InOrder(ToResolve, actions[1..])
      case ResolveOk => phase == ToResolve && InOrder(ToUpdate, actions[1..])
      case ResolveFails => phase == ToResolve && InOrder(AfterFailure, actions[1..])
      case Commit => phase == ToUpdate && InOrder(ToAnswer, actions[1..])
      case UpdateFails => phase == ToUpdate && InOrder(AfterFailure, actions[1..])
      case AnswerOk => phase == ToAnswer && InOrder(Resting, actions[1..])
      case AnswerLost => phase == ToAnswer && InOrder(AfterFailure, actions[1..])
      case _ => InOrder(phase, actions[1..])
  }

  lemma {:induction false} OneAtATime(sup: Supervisor, actions: seq<Action>, address: string -> string, end: Supervisor)
    requires Lives(sup, actions, address, end)
    ensures InOrder(PhaseOf(sup.fold), actions)
    decreases |actions|
  {
    if actions != [] {
      OneAtATime(ApplySupervisor(sup, actions[0], address), actions[1..], address, end);
    }
  }

  /** A supervisor that does not stop lives by its own steps, whatever the others do in between. */
  lemma {:induction false} EachLives(s: State, steps: seq<Step>, address: string -> string, end: State, n: Name)
    requires IsRun(s, steps, address, end) && n in s.active && Stop !in Own(steps, n)
    ensures n in end.active && Lives(s.active[n], Own(steps, n), address, end.active[n])
    decreases steps
  {
    if steps != [] {
      var own, rest := Own(steps, n), Own(steps[1..], n);
      if steps[0].n == n {
        assert own[0] == steps[0].action && own[1..] == rest;
      }
      EachLives(Apply(s, steps[0], address), steps[1..], address, end, n);
    }
  }

  /** One key's kv for an observed node id. */
  function AsKV(id: string): KV {
    KV("", id, 0)
  }

  function Observation(action: Action): seq<KV> {
    if action.Observe? then [AsKV(action.id)] else []
  }

  function Receipt(sup: Supervisor, action: Action): seq<KV> {
    if action.Handoff? && sup.hand.Some? then [AsKV(sup.hand.value)] else []
  }

  function Observed(actions: seq<Action>): seq<KV> {
    if actions == [] then [] else Observation(actions[0]) + Observed(actions[1..])
  }

  function Received(sup: Supervisor, actions: seq<Action>, address: string -> string): seq<KV>
    decreases |actions|
  {
    if actions == [] || !CanDo(sup, actions[0]) || actions[0].Stop? then []
    else Receipt(sup, actions[0]) + Received(ApplySupervisor(sup, actions[0], address), actions[1..], address)
  }

  function InHand(sup: Supervisor): seq<KV> {
    if sup.hand.Some? then [AsKV(sup.hand.value)] else []
  }

  predicate Deduping(sup: Supervisor, observed: seq<KV>, received: seq<KV>) {
    && received + InHand(sup) == Filters.Changes(observed)
    && Filters.Replay(observed, "") == if sup.hand.Some? then sup.hand.value else sup.last
  }

  lemma DedupingObservation(sup: Supervisor, id: string, observed: seq<KV>, received: seq<KV>,
                            address: string -> string)
    requires Deduping(sup, observed, received) && sup.hand.None?
    ensures Deduping(ApplySupervisor(sup, Observe(id), address), observed + [AsKV(id)], received)
  {
    assert (observed + [AsKV(id)])[..|observed|] == observed;
    assert received + [] == received;
  }

  lemma DedupingStep(sup: Supervisor, action: Action, observed: seq<KV>, received: seq<KV>, address: string -> string)
    requires Deduping(sup, observed, received) && CanDo(sup, action) && !action.Stop?
    ensures var next := ApplySupervisor(sup, action, address);
      Deduping(next, observed + Observation(action), received + Receipt(sup, action))
  {
    assert observed + [] == observed && received + [] == received;
    match action {
      case Observe(id) => DedupingObservation(sup, id, observed, received, address);
      case Handoff => assert received + [AsKV(sup.hand.value)] + [] == received + [AsKV(sup.hand.value)];
      case _ =>
    }
  }

  lemma {:induction false} DedupingLife(sup: Supervisor, actions: seq<Action>, address: string -> string,
                                        end: Supervisor,
                                        observed: seq<KV>, received: seq<KV>)
    requires Deduping(sup, observed, received) && Lives(sup, actions, address, end)
    ensures Deduping(end, observed + Observed(actions), received + Received(sup, actions, address))
    decreases |actions|
  {
    if actions == [] {
      assert observed + [] == observed && received + [] == received;
    } else {
      var action, rest := actions[0], actions[1..];
      var next := ApplySupervisor(sup, action, address);
      DedupingStep(sup, action, observed, received, address);
      DedupingLife(next, rest, address, end, observed + Observation(action), received + Receipt(sup, action));
      Associate(observed, Observation(action), Observed(rest));
      Associate(received, Receipt(sup, action), Received(next, rest, address));
    }
  }

  /** What a supervisor's filter has let through is what DedupeFilter sends for what it observed. */
  lemma FilterIsDedupeFilter(actions: seq<Action>, address: string -> string, end: Supervisor)
    requires Lives(FRESH, actions, address, end)
    ensures Received(FRESH, actions, address) + InHand(end) == Filters.Changes(Observed(actions))
  {
    assert Deduping(FRESH, [], []);
    DedupingLife(FRESH, actions, address, end, [], []);
    NothingBefore(Observed(actions));
    NothingBefore(Received(FRESH, actions, address));
  }

  function MoveOf(sup: Supervisor, action: Action): seq<R.Move> {
    match action
    case Handoff => if sup.fold.Idle? then [R.Take] else [R.Supersede]
    case AnswerOk => [R.Move.Apply]
    case RetryTimer => [R.Retry]
    case _ => []
  }

  function FoldMoves(sup: Supervisor, actions: seq<Action>, address: string -> string): seq<R.Move>
    decreases |actions|
  {
    if actions == [] || !CanDo(sup, actions[0]) || actions[0].Stop? then []
    else MoveOf(sup, actions[0]) + FoldMoves(ApplySupervisor(sup, actions[0], address), actions[1..], address)
  }

  lemma {:induction false} FoldMovesFit(sup: Supervisor, actions: seq<Action>, address: string -> string,
                                        end: Supervisor)
    requires Lives(sup, actions, address, end)
    ensures R.Moves(!sup.fold.Idle?, FoldMoves(sup, actions, address), !end.fold.Idle?)
    ensures R.Taken(FoldMoves(sup, actions, address)) == |Received(sup, actions, address)|
    decreases |actions|
  {
    if actions != [] {
      var next, rest := ApplySupervisor(sup, actions[0], address), actions[1..];
      FoldMovesFit(next, rest, address, end);
      var moves := FoldMoves(sup, actions, address);
      if MoveOf(sup, actions[0]) == [] {
        assert moves == FoldMoves(next, rest, address);
      } else {
        assert moves[1..] == FoldMoves(next, rest, address);
      }
    }
  }

  /** Whenever a supervisor's fold is idle, its attempts have been those of RetryFold on what it received. */
  lemma FoldIsRetryFold(actions: seq<Action>, address: string -> string, end: Supervisor)
    requires Lives(FRESH, actions, address, end) && end.fold.Idle?
    ensures var moves := FoldMoves(FRESH, actions, address);
      R.FoldAll(|Received(FRESH, actions, address)|, R.Script(moves)) == (R.Log(0, moves), R.Returned)
  {
    FoldMovesFit(FRESH, actions, address, end);
    R.IdleFoldIsFold(FoldMoves(FRESH, actions, address));
  }
}
