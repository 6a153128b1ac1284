/** pkg/failover/pipeline.go: steps run in order, cleanup actions run last-in first-out.

    An action is a value of type A. What a call to it returns is decided by the environment, which may look
    at every call made before. */
module Pipeline {
  import opened Base

  type Env<!A, !E> = (seq<A>, A) -> Option<E>

  class PStep<A> {
    const action: A
    var deferred: seq<A>

    constructor (action: A)
      ensures this.action == action && deferred == []
    {
      this.action := action;
      deferred := [];
    }

    /** Overwrites the cleanup actions; it does not add to them. */
    method Defer(actions: seq<A>) returns (step: PStep<A>)
      modifies this
      ensures step == this && deferred == actions
    {
      deferred := actions;
      step := this;
    }
  }

  datatype Stage<A> = Stage(action: A, deferred: seq<A>)

  ghost function Plan<A>(steps: seq<PStep<A>>): (plan: seq<Stage<A>>)
    reads steps
    ensures |plan| == |steps|
    ensures forall i :: 0 <= i < |steps| ==> plan[i] == Stage(steps[i].action, steps[i].deferred)
  {
    if steps == [] then [] else [Stage(steps[0].action, steps[0].deferred)] + Plan(steps[1..])
  }

  /** The reference semantics, without a stack: a stage surrounds the stages after it, as nested
      try/finally blocks would, and what a cleanup action returns is dropped. */
  function Execute<A, E>(plan: seq<Stage<A>>, env: Env<A, E>, before: seq<A>): (seq<A>, Option<E>)
  {
    if plan == [] then (before, None)
    else
      var error := env(before, plan[0].action);
      var called := before + [plan[0].action];
      var (trace, result) := if error.Some? then (called, error) else Execute(plan[1..], env, called);
      (trace + Reverse(plan[0].deferred), result)
  }

  /** What is left of a run once the actions on the stack have been popped. */
  function Unwind<A, E>(run: (seq<A>, Option<E>), stack: seq<A>): (seq<A>, Option<E>) {
    (run.0 + Reverse(stack), run.1)
  }

  lemma EnterStage<A, E>(plan: seq<Stage<A>>, i: nat, env: Env<A, E>, trace: seq<A>, stack: seq<A>)
    requires i < |plan|
    ensures var error, called := env(trace, plan[i].action), trace + [plan[i].action];
      Unwind(Execute(plan[i..], env, trace), stack) ==
      Unwind(if error.Some? then (called, error) else Execute(plan[i + 1..], env, called), stack + plan[i].deferred)
  {
    var rest := plan[i..];
    assert rest[0] == plan[i] && rest[1..] == plan[i + 1..];
    ReverseConcat(stack, plan[i].deferred);
    var error, called := env(trace, plan[i].action), trace + [plan[i].action];
    var t := (if error.Some? then (called, error) else Execute(plan[i + 1..], env, called)).0;
    assert t + Reverse(plan[i].deferred) + Reverse(stack) == t + (Reverse(plan[i].deferred) + Reverse(stack));
  }

  lemma PopOne<A, E>(trace: seq<A>, result: Option<E>, stack: seq<A>)
    requires stack != []
    ensures Unwind((trace, result), stack) == Unwind((trace + [stack[|stack| - 1]], result), stack[..|stack| - 1])
  {
    var top, rest := stack[|stack| - 1], stack[..|stack| - 1];
    assert stack == rest + [top];
    ReverseConcat(rest, [top]);
    ReverseOne(top);
    assert Reverse(stack) == [top] + Reverse(rest);
    Associate(trace, [top], Reverse(rest));
  }

  method PushAll<A>(before: seq<A>, deferred: seq<A>) returns (stack: seq<A>)
    ensures stack == before + deferred
  {
    stack := before;
    for j := 0 to |deferred|
      invariant stack == before + deferred[..j]
    {
      stack := stack + [deferred[j]];
    }
  }

  /** The source's loop: push the cleanup actions, run the action, leave at the first error; the
      function's exit then pops the stack. */
  method Run<A, E>(steps: seq<PStep<A>>, env: Env<A, E>) returns (trace: seq<A>, result: Option<E>)
    ensures (trace, result) == Execute(Plan(steps), env, [])
  {
    trace, result := [], None;
    var stack: seq<A> := [];
    ghost var plan := Plan(steps);
    ghost var goal := Execute(plan, env, []);
    assert plan[0..] == plan && goal.0 + Reverse(stack) == goal.0;
    var i := 0;
    while i < |steps| && result.None?
      invariant 0 <= i <= |steps|
      invariant result.None? ==> Unwind(Execute(plan[i..], env, trace), stack) == goal
      invariant result.Some? ==> Unwind((trace, result), stack) == goal
      decreases |steps| - i
    {
      EnterStage(plan, i, env, trace, stack);
      stack := PushAll(stack, steps[i].deferred);
      result := env(trace, steps[i].action);
      trace := trace + [steps[i].action];
      i := i + 1;
    }
    assert result.None? ==> plan[i..] == [];

    while stack != []
      invariant Unwind((trace, result), stack) == goal
      decreases |stack|
    {
      PopOne(trace, result, stack);
      var deferred := stack[|stack| - 1];
      var ignored := env(trace, deferred);
      stack := stack[..|stack| - 1];
      trace := trace + [deferred];
    }
    assert trace + Reverse(stack) == trace;
  }

  // ---------------------------------------------------------------------------------------------------
  // What the semantics promises

  function Actions<A>(plan: seq<Stage<A>>): (r: seq<A>)
    ensures |r| == |plan|
  {
    if plan == [] then [] else [plan[0].action] + Actions(plan[1..])
  }

  function Deferred<A>(plan: seq<Stage<A>>): seq<A>
  {
    if plan == [] then [] else plan[0].deferred + Deferred(plan[1..])
  }

  /** Stage k is the first one whose action fails, k == |plan| meaning none does. */
  predicate StopsAt<A, E>(plan: seq<Stage<A>>, env: Env<A, E>, before: seq<A>, k: nat)
  {
    if plan == [] then k == 0
    else if env(before, plan[0].action).Some? then k == 0
    else k > 0 && StopsAt(plan[1..], env, before + [plan[0].action], k - 1)
  }

  function Started<A>(plan: seq<Stage<A>>, k: nat): (n: nat)
    ensures n <= |plan|
  {
    if k < |plan| then k + 1 else |plan|
  }

  lemma {:induction false} SomewhereStops<A, E>(plan: seq<Stage<A>>, env: Env<A, E>, before: seq<A>) returns (k: nat)
    ensures StopsAt(plan, env, before, k) && k <= |plan|
  {
    if plan == [] || env(before, plan[0].action).Some? {
      k := 0;
    } else {
      var m := SomewhereStops(plan[1..], env, before + [plan[0].action]);
      k := m + 1;
    }
  }

  lemma {:induction false} ExecuteTrace<A, E>(plan: seq<Stage<A>>, env: Env<A, E>, before: seq<A>, k: nat)
    requires StopsAt(plan, env, before, k)
    ensures k <= |plan|
    ensures var started := plan[..Started(plan, k)];
      Execute(plan, env, before).0 == before + (Actions(started) + Reverse(Deferred(started)))
  {
    if plan == [] {
    } else if k == 0 {
      var started := plan[..1];
      assert started[1..] == [] && Deferred(started) == plan[0].deferred + [];
      assert plan[0].deferred + [] == plan[0].deferred;
    } else {
      ExecuteTrace(plan[1..], env, before + [plan[0].action], k - 1);
      PrefixHead(plan, Started(plan, k));
      var inner := plan[1..][..Started(plan, k) - 1];
      Regroup(before, plan[0].action, Actions(inner), Reverse(Deferred(inner)), Reverse(plan[0].deferred));
    }
  }

  lemma PrefixHead<A>(plan: seq<Stage<A>>, n: nat)
    requires 0 < n <= |plan|
    ensures Actions(plan[..n]) == [plan[0].action] + Actions(plan[1..][..n - 1])
    ensures Reverse(Deferred(plan[..n])) == Reverse(Deferred(plan[1..][..n - 1])) + Reverse(plan[0].deferred)
  {
    assert plan[..n][1..] == plan[1..][..n - 1];
    ReverseConcat(plan[0].deferred, Deferred(plan[1..][..n - 1]));
  }

  lemma {:induction false} ExecuteResult<A, E>(plan: seq<Stage<A>>, env: Env<A, E>, before: seq<A>, k: nat)
    requires StopsAt(plan, env, before, k)
    ensures k <= |plan|
    ensures Execute(plan, env, before).1 ==
      if k < |plan| then env(before + Actions(plan[..k]), plan[k].action) else None
  {
    if plan == [] {
    } else if k == 0 {
      assert before + Actions(plan[..0]) == before;
    } else {
      ExecuteResult(plan[1..], env, before + [plan[0].action], k - 1);
      PrefixHead(plan, k);
      assert before + ([plan[0].action] + Actions(plan[1..][..k - 1]))
          == before + [plan[0].action] + Actions(plan[1..][..k - 1]);
    }
  }

  /** For every plan and every choice of failures: the trace is the actions up to and including the first
      failure followed by the exact reverse of every cleanup action of the started stages, and the result is
      what that first failing action returned. No answer of a cleanup action occurs on the right-hand side. */
  lemma ExecuteClosedForm<A, E>(plan: seq<Stage<A>>, env: Env<A, E>, before: seq<A>, k: nat)
    requires StopsAt(plan, env, before, k)
    ensures k <= |plan|
    ensures var started := plan[..Started(plan, k)];
      Execute(plan, env, before) == (
        before + (Actions(started) + Reverse(Deferred(started))),
        if k < |plan| then env(before + Actions(plan[..k]), plan[k].action) else None)
  {
    ExecuteTrace(plan, env, before, k);
    ExecuteResult(plan, env, before, k);
  }

  lemma Regroup<A>(before: seq<A>, a: A, rest: seq<A>, inner: seq<A>, outer: seq<A>)
    ensures before + [a] + (rest + inner) + outer == before + ([a] + rest + (inner + outer))
  {
  }

  lemma {:induction false} StopIsUnique<A, E>(plan: seq<Stage<A>>, env: Env<A, E>, before: seq<A>, j: nat, k: nat)
    requires StopsAt(plan, env, before, j) && StopsAt(plan, env, before, k)
    ensures j == k
  {
    if plan != [] && env(before, plan[0].action).None? {
      StopIsUnique(plan[1..], env, before + [plan[0].action], j - 1, k - 1);
    }
  }

  // ---------------------------------------------------------------------------------------------------
  // The failover, pkg/failover/failover.go:63-72

  datatype Action = HealthCheckClients | AcquireLock | Pause | Migrate | ReleaseLock | Resume | Unmigrate

  function FailoverPlan(): seq<Stage<Action>>
  {
    [Stage(HealthCheckClients, []), Stage(AcquireLock, [ReleaseLock]), Stage(Pause, [Resume]),
     Stage(Migrate, [Unmigrate])]
  }

  lemma PlanOfFour<A>(first: PStep<A>, second: PStep<A>, third: PStep<A>, fourth: PStep<A>)
    ensures Plan([first, second, third, fourth]) ==
      [Stage(first.action, first.deferred), Stage(second.action, second.deferred),
       Stage(third.action, third.deferred), Stage(fourth.action, fourth.deferred)]
  {
  }

  method FailoverSteps() returns (steps: seq<PStep<Action>>)
    ensures Plan(steps) == FailoverPlan()
  {
    var health := new PStep(HealthCheckClients);
    var acquire := new PStep(AcquireLock);
    acquire := acquire.Defer([ReleaseLock]);
    var pause := new PStep(Pause);
    pause := pause.Defer([Resume]);
    var migrate := new PStep(Migrate);
    migrate := migrate.Defer([Unmigrate]);
    PlanOfFour(health, acquire, pause, migrate);
    steps := [health, acquire, pause, migrate];
  }

  method FailoverRun<E>(env: Env<Action, E>) returns (trace: seq<Action>, result: Option<E>)
    ensures (trace, result) == Execute(FailoverPlan(), env, [])
  {
    var steps := FailoverSteps();
    trace, result := Run(steps, env);
  }

  /** The actions of the first n stages, and their cleanup in the order in which it runs. */
  function ActionsOf(n: nat): (r: seq<Action>)
    requires 1 <= n <= 4
    ensures |r| == n
  {
    match n
    case 1 => [HealthCheckClients]
    case 2 => [HealthCheckClients, AcquireLock]
    case 3 => [HealthCheckClients, AcquireLock, Pause]
    case _ => [HealthCheckClients, AcquireLock, Pause, Migrate]
  }

  function CleanupOf(n: nat): (r: seq<Action>)
    requires 1 <= n <= 4
    ensures |r| == n - 1
  {
    match n
    case 1 => []
    case 2 => [ReleaseLock]
    case 3 => [Resume, ReleaseLock]
    case _ => [Unmigrate, Resume, ReleaseLock]
  }

  /** Whatever fails, the failover's cleanup is a suffix of Unmigrate, Resume, ReleaseLock, and an action is
      undone exactly when it was started, whether or not it succeeded. */
  lemma FailoverCleanup<E>(env: Env<Action, E>) returns (started: nat)
    ensures 1 <= started <= 4
    ensures Execute(FailoverPlan(), env, []).0 == ActionsOf(started) + CleanupOf(started)
    ensures CleanupOf(started) == [Unmigrate, Resume, ReleaseLock][4 - started..]
    ensures Execute(FailoverPlan(), env, []).1.None? ==> started == 4
  {
    var plan := FailoverPlan();
    var k := SomewhereStops(plan, env, []);
    ExecuteTrace(plan, env, [], k);
    if k < 4 {
      ExecuteResult(plan, env, [], k);
      StopsAtFails(plan, env, [], k);
    }
    started := Started(plan, k);
    FailoverPrefix(started);
    CleanupIsSuffix(started);
    assert [] + (ActionsOf(started) + CleanupOf(started)) == ActionsOf(started) + CleanupOf(started);
  }

  lemma CleanupIsSuffix(n: nat)
    requires 1 <= n <= 4
    ensures CleanupOf(n) == [Unmigrate, Resume, ReleaseLock][4 - n..]
  {
    var all := [Unmigrate, Resume, ReleaseLock];
    assert all[3..] == [] && all[2..] == [ReleaseLock] && all[1..] == [Resume, ReleaseLock] && all[0..] == all;
  }

  lemma FailoverStage(n: nat)
    requires 2 <= n <= 4
    ensures FailoverPlan()[n - 1] == Stage(ActionsOf(n)[n - 1], [CleanupOf(n)[0]])
  {
    if n == 2 {
    } else if n == 3 {
    } else {
      assert n == 4;
    }
  }

  lemma FailoverGrows(n: nat)
    requires 2 <= n <= 4
    ensures ActionsOf(n) == ActionsOf(n - 1) + [ActionsOf(n)[n - 1]]
    ensures CleanupOf(n) == [CleanupOf(n)[0]] + CleanupOf(n - 1)
  {
    if n == 2 {
    } else if n == 3 {
    } else {
      assert n == 4;
    }
  }

  lemma {:induction false} FailoverPrefix(n: nat)
    requires 1 <= n <= 4
    ensures Actions(FailoverPlan()[..n]) == ActionsOf(n)
    ensures Reverse(Deferred(FailoverPlan()[..n])) == CleanupOf(n)
  {
    if n == 1 {
      var first := FailoverPlan()[..1];
      assert first == [Stage(HealthCheckClients, [])] && first[1..] == [];
      assert Deferred(first) == [] + Deferred(first[1..]);
    } else {
      FailoverPrefix(n - 1);
      FailoverStage(n);
      FailoverGrows(n);
      PrefixExtended(FailoverPlan(), n - 1, ActionsOf(n)[n - 1], CleanupOf(n)[0]);
    }
  }

  lemma PrefixExtended<A>(plan: seq<Stage<A>>, n: nat, a: A, undo: A)
    requires n < |plan| && plan[n] == Stage(a, [undo])
    ensures Actions(plan[..n + 1]) == Actions(plan[..n]) + [a]
    ensures Reverse(Deferred(plan[..n + 1])) == [undo] + Reverse(Deferred(plan[..n]))
  {
    PrefixGrows(plan, n);
    ReverseConcat(Deferred(plan[..n]), [undo]);
    ReverseOne(undo);
  }

  lemma ReverseOne<A>(a: A)
    ensures Reverse([a]) == [a]
  {
    assert [a][1..] == [] && Reverse<A>([]) == [];
  }

  lemma {:induction false} PrefixGrows<A>(plan: seq<Stage<A>>, n: nat)
    requires n < |plan|
    ensures Actions(plan[..n + 1]) == Actions(plan[..n]) + [plan[n].action]
    ensures Deferred(plan[..n + 1]) == Deferred(plan[..n]) + plan[n].deferred
  {
    if n == 0 {
      assert plan[..1][1..] == [];
    } else {
      PrefixGrows(plan[1..], n - 1);
      assert plan[..n + 1][1..] == plan[1..][..n] && plan[..n][1..] == plan[1..][..n - 1];
    }
  }

  lemma {:induction false} StopsAtFails<A, E>(plan: seq<Stage<A>>, env: Env<A, E>, before: seq<A>, k: nat)
    requires StopsAt(plan, env, before, k) && k < |plan|
    ensures env(before + Actions(plan[..k]), plan[k].action).Some?
  {
    if k == 0 {
      assert before + Actions(plan[..0]) == before;
    } else {
      StopsAtFails(plan[1..], env, before + [plan[0].action], k - 1);
      assert plan[..k][1..] == plan[1..][..k - 1];
      assert before + Actions(plan[..k]) == before + [plan[0].action] + Actions(plan[1..][..k - 1]);
    }
  }
}
