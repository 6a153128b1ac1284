/** pkg/streams/fold.go: apply an operation to every kv of a channel, retrying a failed one for ever unless a
    newer kv arrives first. Inputs are numbered 0 .. n - 1 in the order the channel delivers them.

    The environment is a script with one entry per attempt: the operation succeeds, or it fails and the
    select that follows wakes up on a receive or on the timer. Attempts after the end of the script succeed,
    which is how a script says that failures are finite. A receive yields the next input if there is one; once
    all inputs are through, only a closed channel can be received from, and it yields nil. */
module RetryFold {

  datatype Wake = Received | Elapsed
  datatype Outcome = Succeed | Fail(wake: Wake)
  datatype Attempt = Attempt(input: nat, ok: bool)
  datatype Exit = Returned | NilDereferenced

  function Head(script: seq<Outcome>): Outcome {
    if script == [] then Succeed else script[0]
  }

  function Tail(script: seq<Outcome>): (rest: seq<Outcome>)
    ensures script != [] ==> |rest| < |script|
  {
    if script == [] then [] else script[1..]
  }

  /** What happens from the moment input kv is in hand, input kv + 1 being the next to be received. */
  function Fold(n: nat, kv: nat, script: seq<Outcome>): (seq<Attempt>, Exit)
    requires kv < n
    decreases n - kv + |script|
  {
    match Head(script)
    case Succeed =>
      var (log, exit) := if kv + 1 < n then Fold(n, kv + 1, Tail(script)) else ([], Returned);
      ([Attempt(kv, true)] + log, exit)
    case Fail(Elapsed) =>
      var (log, exit) := Fold(n, kv, Tail(script));
      ([Attempt(kv, false)] + log, exit)
    case Fail(Received) =>
      var (log, exit) := if kv + 1 < n then Fold(n, kv + 1, Tail(script)) else ([], NilDereferenced);
      ([Attempt(kv, false)] + log, exit)
  }

  function FoldAll(n: nat, script: seq<Outcome>): (seq<Attempt>, Exit) {
    if n == 0 then ([], Returned) else Fold(n, 0, script)
  }

  /** With this log so far, continuing from input kv in hand completes the goal. */
  ghost predicate Leads(n: nat, kv: nat, script: seq<Outcome>, log: seq<Attempt>, goal: (seq<Attempt>, Exit)) {
    kv < n && log + Fold(n, kv, script).0 == goal.0 && Fold(n, kv, script).1 == goal.1
  }

  /** The input in hand is done with and the next one, if any, is to be received. */
  ghost predicate LeadsOn(n: nat, next: nat, script: seq<Outcome>, log: seq<Attempt>, goal: (seq<Attempt>, Exit)) {
    if next < n then Leads(n, next, script, log, goal) else goal == (log, Returned)
  }

  lemma OneAttempt(n: nat, kv: nat, script: seq<Outcome>, log: seq<Attempt>, goal: (seq<Attempt>, Exit))
    requires Leads(n, kv, script, log, goal)
    ensures var now := log + [Attempt(kv, Head(script) == Succeed)];
      match Head(script)
      case Succeed => LeadsOn(n, kv + 1, Tail(script), now, goal)
      case Fail(Elapsed) => Leads(n, kv, Tail(script), now, goal)
      case Fail(Received) =>
        if kv + 1 < n then Leads(n, kv + 1, Tail(script), now, goal) else goal == (now, NilDereferenced)
  {
    var later := Fold(n, kv, script).0;
    assert later == [later[0]] + later[1..];
    assert log + later == log + [later[0]] + later[1..];
    if later[1..] == [] {
      assert log + later == log + [later[0]];
    }
  }

  /** The source's range loop with its goto: `received` inputs have left the channel and the last of them is
      in hand. Running the operation on the nil kv of a closed channel dereferences it. */
  method Run(n: nat, script: seq<Outcome>) returns (log: seq<Attempt>, exit: Exit)
    ensures (log, exit) == FoldAll(n, script)
  {
    log, exit := [], Returned;
    var received, rest := 0, script;
    ghost var goal := FoldAll(n, script);
    assert n > 0 ==> log + Fold(n, 0, script).0 == Fold(n, 0, script).0;
    while received < n
      invariant received <= n
      invariant LeadsOn(n, received, rest, log, goal)
      decreases n - received
    {
      var kv := received;
      received := received + 1;
      ghost var taken := received;
      var attempting := true;
      while attempting
        invariant taken <= received == kv + 1 <= n
        invariant attempting ==> Leads(n, kv, rest, log, goal)
        invariant !attempting ==> LeadsOn(n, received, rest, log, goal)
        decreases attempting, n - received + |rest|
      {
        OneAttempt(n, kv, rest, log, goal);
        var outcome := Head(rest);
        log := log + [Attempt(kv, outcome == Succeed)];
        rest := Tail(rest);
        match outcome {
          case Succeed =>
            attempting := false;
          case Fail(Received) =>
            if received == n {
              return log, NilDereferenced;
            }
            kv := received;
            received := received + 1;
          case Fail(Elapsed) =>
        }
      }
    }
  }

  // ---------------------------------------------------------------------------------------------------
  // What every run promises

  /** An applied input gives way to the next one; a failed one is tried again or gives way to the next one. */
  predicate Follows(a: Attempt, b: Attempt) {
    b.input == a.input + 1 || (!a.ok && b.input == a.input)
  }

  predicate Linked(log: seq<Attempt>) {
    forall p :: 0 < p < |log| ==> Follows(log[p - 1], log[p])
  }

  /** The operation was applied to the input, or failed on it and the next input took its place. */
  predicate Settled(log: seq<Attempt>, input: nat) {
    exists p :: 0 <= p < |log| && log[p].input == input &&
      (log[p].ok || (p + 1 < |log| && log[p + 1].input == input + 1))
  }

  function Failures(script: seq<Outcome>): nat {
    if script == [] then 0 else Failures(script[1..]) + if script[0].Fail? then 1 else 0
  }

  /** The one way to fail: some attempt at the last input fails and the channel is found closed before the
      retry timer fires. `t` is the number of that attempt. */
  predicate ClosedMidRetry(n: nat, kv: nat, script: seq<Outcome>, t: nat)
    requires kv < n
  {
    && t < |script| && script[t] == Fail(Received)
    && kv + Advances(script[..t]) == n - 1
  }

  /** The number of inputs that a stretch of script moves past. */
  function Advances(script: seq<Outcome>): nat {
    if script == [] then 0 else (if script[0] == Fail(Elapsed) then 0 else 1) + Advances(script[1..])
  }

  lemma {:induction false} FoldLaws(n: nat, kv: nat, script: seq<Outcome>)
    requires kv < n
    ensures var (log, exit) := Fold(n, kv, script);
      && log != [] && log[0].input == kv && Linked(log)
      && |log| <= n - kv + Failures(script)
      && log[|log| - 1] == Attempt(n - 1, exit == Returned)
    decreases n - kv + |script|
  {
    var moves := Head(script) != Fail(Elapsed);
    var next := if moves then kv + 1 else kv;
    if next < n {
      FoldLaws(n, next, Tail(script));
      var log, later := Fold(n, kv, script).0, Fold(n, next, Tail(script)).0;
      assert log == [Attempt(kv, Head(script) == Succeed)] + later;
    }
  }

  /** Attempts start at the first input and never skip or move back; every received input is applied or
      superseded by the next one; a fold that returns has applied the last input it received; and there are at
      most as many attempts as inputs and failures together. */
  lemma EveryInputSettles(n: nat, script: seq<Outcome>)
    ensures var (log, exit) := FoldAll(n, script);
      && Linked(log)
      && (forall p, q :: 0 <= p < q < |log| ==> log[p].input <= log[q].input)
      && (forall i: nat :: i < n && (exit == Returned || i < n - 1) ==> Settled(log, i))
      && (exit == Returned && n > 0 ==> log != [] && log[|log| - 1] == Attempt(n - 1, true))
      && |log| <= n + Failures(script)
  {
    if n > 0 {
      FoldLaws(n, 0, script);
      var (log, exit) := FoldAll(n, script);
      forall p, q | 0 <= p < q < |log|
        ensures log[p].input <= log[q].input
      {
        LinkedNeverMovesBack(log, p, q);
      }
      forall i: nat | i < n && (exit == Returned || i < n - 1)
        ensures Settled(log, i)
      {
        var p := LastVisit(log, i);
      }
    }
  }

  lemma {:induction false} LinkedNeverMovesBack(log: seq<Attempt>, p: nat, q: nat)
    requires Linked(log) && p < q < |log|
    ensures log[p].input + (if log[p].ok then 1 else 0) <= log[q].input
  {
    assert Follows(log[q - 1], log[q]);
    if p < q - 1 {
      LinkedNeverMovesBack(log, p, q - 1);
    }
  }

  lemma LastVisit(log: seq<Attempt>, i: nat) returns (p: nat)
    requires Linked(log) && log != [] && log[0].input <= i <= log[|log| - 1].input
    ensures p < |log| && log[p].input == i && (p + 1 < |log| ==> log[p + 1].input == i + 1)
  {
    p := 0;
    while log[p].input < i || (p + 1 < |log| && log[p + 1].input == i)
      invariant p < |log| && log[p].input <= i
      decreases |log| - p
    {
      assert Follows(log[p], log[p + 1]);
      p := p + 1;
    }
    if p + 1 < |log| {
      assert Follows(log[p], log[p + 1]);
    }
  }

  /** An input is never attempted again once the operation was applied to it. */
  lemma {:induction false} AppliedOnce(n: nat, script: seq<Outcome>, p: nat, q: nat)
    requires n > 0
    requires var log := FoldAll(n, script).0; p < q < |log| && log[p].ok
    ensures var log := FoldAll(n, script).0; log[p].input < log[q].input
  {
    FoldLaws(n, 0, script);
    LinkedNeverMovesBack(FoldAll(n, script).0, p, q);
  }

  /** The fold returns unless, and only unless, the channel is closed in the middle of a retry. */
  lemma {:induction false} ReturnsUnlessClosedMidRetry(n: nat, kv: nat, script: seq<Outcome>)
    requires kv < n
    ensures Fold(n, kv, script).1 == NilDereferenced <==>
      exists t: nat :: ClosedMidRetry(n, kv, script, t)
    decreases n - kv + |script|
  {
    var moves := Head(script) != Fail(Elapsed);
    var next := if moves then kv + 1 else kv;
    if next < n {
      ReturnsUnlessClosedMidRetry(n, next, Tail(script));
    }
    if script != [] {
      forall t: nat | 0 < t < |script|
        ensures Advances(script[..t]) == (if moves then 1 else 0) + Advances(Tail(script)[..t - 1])
      {
        assert script[..t][1..] == Tail(script)[..t - 1];
      }
      if Fold(n, kv, script).1 == NilDereferenced {
        if next < n {
          var t: nat :| ClosedMidRetry(n, next, Tail(script), t);
          assert script[t + 1] == Tail(script)[t];
          assert ClosedMidRetry(n, kv, script, t + 1);
        } else {
          assert ClosedMidRetry(n, kv, script, 0);
        }
      }
      if t: nat :| ClosedMidRetry(n, kv, script, t) {
        if t == 0 {
          assert script[..0] == [];
        } else {
          assert next < n;
          assert ClosedMidRetry(n, next, Tail(script), t - 1);
        }
      }
    }
  }

  // ---------------------------------------------------------------------------------------------------
  // A fold inside a larger system, seen as the sequence of its moves

  /** It receives an input while idle; the operation succeeds; after a failure the timer fires, or it receives. */
  datatype Move = Take | Apply | Retry | Supersede

  /** The moves lead from one mode to the other; `busy`: an input is in hand. */
  predicate Moves(busy: bool, moves: seq<Move>, busyAfter: bool)
    decreases |moves|
  {
    if moves == [] then busy == busyAfter
    else if moves[0].Take? then !busy && Moves(true, moves[1..], busyAfter)
    else busy && Moves(!moves[0].Apply?, moves[1..], busyAfter)
  }

  function Taken(moves: seq<Move>): nat {
    if moves == [] then 0
    else (if moves[0].Take? || moves[0].Supersede? then 1 else 0) + Taken(moves[1..])
  }

  /** The outcomes that the environment chose. */
  function Script(moves: seq<Move>): seq<Outcome> {
    if moves == [] then []
    else
      var rest := Script(moves[1..]);
      match moves[0]
      case Take => rest
      case Apply => [Succeed] + rest
      case Retry => [Fail(Elapsed)] + rest
      case Supersede => [Fail(Received)] + rest
  }

  /** The attempts made, if `received` inputs had been received before. */
  function Log(received: nat, moves: seq<Move>): seq<Attempt>
    decreases |moves|
  {
    if moves == [] then []
    else if moves[0].Take? || received == 0 then Log(received + 1, moves[1..])
    else
      [Attempt(received - 1, moves[0].Apply?)]
        + Log(if moves[0].Supersede? then received + 1 else received, moves[1..])
  }

  lemma {:induction false} MovesAreFold(busy: bool, received: nat, moves: seq<Move>)
    requires Moves(busy, moves, false) && (busy ==> received > 0)
    ensures var n := received + Taken(moves);
      (Log(received, moves), Returned) ==
        if busy then Fold(n, received - 1, Script(moves))
        else if received < n then Fold(n, received, Script(moves))
        else ([], Returned)
    decreases |moves|
  {
    if moves != [] {
      var next := if moves[0].Take? || moves[0].Supersede? then received + 1 else received;
      MovesAreFold(!moves[0].Apply?, next, moves[1..]);
    }
  }

  /** Wherever a system's fold makes only moves of its kind and is idle at the end, its attempts are those of the
      fold run by itself on that many inputs, and its channel never closed in the middle of a retry. */
  lemma IdleFoldIsFold(moves: seq<Move>)
    requires Moves(false, moves, false)
    ensures FoldAll(Taken(moves), Script(moves)) == (Log(0, moves), Returned)
  {
    MovesAreFold(false, 0, moves);
  }
}
