/** One node's failover API and its PgBouncer: pkg/failover/server.go:90-132 over pkg/pgbouncer/pgbouncer.go:149-185.

    Any number of Pause handlers run at once. A handler takes its creation time on entry, PAUSE takes effect
    somewhere inside the call to PgBouncer, and once that call has returned the handler schedules its own RESUME.
    Nothing ever cancels a scheduled RESUME. Times are nanoseconds. */
module PauseNode {
  import opened Base

  const SECOND := 1_000_000_000

  // ---------------------------------------------------------------------------------------------------
  // PgBouncer's commands

  datatype Reply = Done | PgError(code: string, message: string) | OtherError

  const POOLER_ERROR := "08P01"
  const ALREADY_PAUSED := "already suspended/paused"
  const ALREADY_RESUMED := "pooler is not paused/suspended"

  /** What PgBouncer answers in a given state, if the command gets through; and its state afterwards. */
  function PauseCommand(paused: bool): (Reply, bool) {
    (if paused then PgError(POOLER_ERROR, ALREADY_PAUSED) else Done, true)
  }

  function ResumeCommand(paused: bool): (Reply, bool) {
    (if paused then Done else PgError(POOLER_ERROR, ALREADY_RESUMED), false)
  }

  predicate PauseSucceeds(reply: Reply) {
    reply == Done || reply == PgError(POOLER_ERROR, ALREADY_PAUSED)
  }

  predicate ResumeSucceeds(reply: Reply) {
    reply == Done || reply == PgError(POOLER_ERROR, ALREADY_RESUMED)
  }

  /** A command that gets through succeeds in either state, the reply telling whether it changed anything, and no reply
      passes for both commands but Done. */
  lemma CommandsAreIdempotent(paused: bool, reply: Reply)
    ensures PauseSucceeds(PauseCommand(paused).0) && PauseCommand(paused).1
    ensures ResumeSucceeds(ResumeCommand(paused).0) && !ResumeCommand(paused).1
    ensures PauseCommand(paused).0 == Done <==> PauseCommand(paused).1 != paused
    ensures ResumeCommand(paused).0 == Done <==> ResumeCommand(paused).1 != paused
    ensures PauseSucceeds(reply) && ResumeSucceeds(reply) ==> reply == Done
  {
    assert ALREADY_PAUSED[0] != ALREADY_RESUMED[0];
  }

  /** The errors that pass are these two: the code alone does not do, nor does the message. */
  lemma OnlyAlreadyPasses(code: string, message: string)
    ensures PauseSucceeds(PgError(code, message)) <==> code == "08P01" && message == "already suspended/paused"
    ensures ResumeSucceeds(PgError(code, message)) <==> code == "08P01" && message == "pooler is not paused/suspended"
    ensures !PauseSucceeds(OtherError) && !ResumeSucceeds(OtherError)
  {
  }

  // ---------------------------------------------------------------------------------------------------
  // The node

  type Id = nat

  /** A Pause handler that has not answered. */
  datatype Call = Call(createdAt: int, timeout: int, expiry: int, effected: bool)

  /** A Pause handler that answered without error. */
  datatype Record = Record(createdAt: int, expiry: int, completedAt: int)

  datatype Node = Node(
    paused: bool,
    began: Id,                 // the request whose PAUSE began the present paused stretch
    calls: map<Id, Call>,
    timers: map<Id, int>,      // scheduled resumes and when they are due
    done: map<Id, Record>
  )

  const NODE := Node(false, 0, map[], map[], map[])

  /** When the request's own resume runs: a sleep until a moment already past ends at once. */
  function Due(r: Record): int {
    Max(r.completedAt, r.createdAt + r.expiry * SECOND)
  }

  datatype Op =
    | Arrive(id: Id, timeout: int, expiry: int)
    | Effect(id: Id)
    | Succeed(id: Id)
    | Fail(id: Id)             // the handler answers Unknown or DeadlineExceeded; PAUSE had no effect
    | Fire(id: Id)             // a scheduled RESUME
    | Resume                   // a Resume request that gets through

  predicate OpEnabled(now: int, n: Node, op: Op) {
    match op
    case Arrive(id, _, _) => id !in n.calls && id !in n.done
    case Effect(id) => id in n.calls && !n.calls[id].effected
    case Succeed(id) => id in n.calls && n.calls[id].effected
    case Fail(id) => id in n.calls && !n.calls[id].effected
    case Fire(id) => id in n.timers && n.timers[id] <= now
    case Resume => true
  }

  function OpApply(now: int, n: Node, op: Op): Node
    requires OpEnabled(now, n, op)
  {
    match op
    case Arrive(id, timeout, expiry) => n.(calls := n.calls[id := Call(now, timeout, expiry, false)])
    case Effect(id) =>
      n.(paused := PauseCommand(n.paused).1, began := if n.paused then n.began else id,
         calls := n.calls[id := n.calls[id].(effected := true)])
    case Succeed(id) =>
      var record := Record(n.calls[id].createdAt, n.calls[id].expiry, now);
      n.(calls := n.calls - {id}, done := n.done[id := record],
         timers := if record.expiry > 0 then n.timers[id := Due(record)] else n.timers)
    case Fail(id) => n.(calls := n.calls - {id})
    case Fire(id) => n.(timers := n.timers - {id}, paused := ResumeCommand(n.paused).1)
    case Resume => n.(paused := ResumeCommand(n.paused).1)
  }

  /** A scheduled RESUME is not late. */
  predicate Punctual(n: Node, to: int) {
    forall id :: id in n.timers ==> to <= n.timers[id]
  }

  /** The request that began the paused stretch will end it: it is still inside its handler, or its resume is
      scheduled for the moment that Due says. */
  predicate WillEnd(n: Node) {
    || (n.began in n.calls && n.calls[n.began].effected)
    || (n.began in n.timers && n.began in n.done && n.timers[n.began] == Due(n.done[n.began]))
  }

  predicate NodeInv(now: int, n: Node) {
    && Punctual(n, now)
    && (forall id :: id in n.calls ==> id !in n.done && n.calls[id].expiry > 0)
    && (forall id :: id in n.timers ==> id in n.done && n.timers[id] == Due(n.done[id]))
    && (n.paused ==> WillEnd(n))
  }

  lemma OpKeepsNodeInv(now: int, n: Node, op: Op)
    requires NodeInv(now, n) && OpEnabled(now, n, op)
    requires op.Arrive? ==> op.expiry > 0
    ensures NodeInv(now, OpApply(now, n, op))
  {
  }

  // ---------------------------------------------------------------------------------------------------
  // The node alone, with requests from anyone at any time

  datatype State = State(now: int, node: Node)

  datatype Step = Do(op: Op) | Tick(to: int)

  const INITIAL := State(0, NODE)

  predicate Enabled(s: State, step: Step) {
    match step
    case Do(op) => OpEnabled(s.now, s.node, op)
    case Tick(to) => s.now <= to && Punctual(s.node, to)
  }

  function Apply(s: State, step: Step): State
    requires Enabled(s, step)
  {
    match step
    case Do(op) => s.(node := OpApply(s.now, s.node, op))
    case Tick(to) => s.(now := to)
  }

  predicate IsRun(s: State, steps: seq<Step>, end: State)
    decreases steps
  {
    if steps == [] then s == end
    else Enabled(s, steps[0]) && IsRun(Apply(s, steps[0]), steps[1..], end)
  }

  /** Every request of the run asks for a positive expiry. */
  predicate Expiring(steps: seq<Step>) {
    forall step :: step in steps && step.Do? && step.op.Arrive? ==> step.op.expiry > 0
  }

  lemma {:induction false} InvRun(s: State, steps: seq<Step>, end: State)
    requires NodeInv(s.now, s.node) && IsRun(s, steps, end) && Expiring(steps)
    ensures NodeInv(end.now, end.node) && s.now <= end.now
    decreases steps
  {
    if steps != [] {
      assert steps[0] in steps && forall step :: step in steps[1..] ==> step in steps;
      if steps[0].Do? {
        OpKeepsNodeInv(s.now, s.node, steps[0].op);
      }
      InvRun(Apply(s, steps[0]), steps[1..], end);
    }
  }

  /** In every reachable state a paused PgBouncer has a resume coming: scheduled, or about to be scheduled by the
      handler whose PAUSE took effect. */
  lemma PausedHasResumeComing(steps: seq<Step>, end: State)
    requires IsRun(INITIAL, steps, end) && Expiring(steps)
    ensures end.node.paused ==> WillEnd(end.node)
    ensures forall id :: id in end.node.timers ==> 0 <= end.now <= end.node.timers[id]
    ensures end.node.paused && end.node.calls == map[] ==> end.node.began in end.node.timers
  {
    InvRun(INITIAL, steps, end);
  }

  /** PgBouncer is paused in s and after every one of the steps. */
  predicate StaysPaused(s: State, steps: seq<Step>)
    decreases steps
  {
    s.node.paused && (steps != [] && Enabled(s, steps[0]) ==> StaysPaused(Apply(s, steps[0]), steps[1..]))
  }

  lemma {:induction false} StretchKeepsItsRequest(s: State, steps: seq<Step>, end: State, id: Id, createdAt: int,
                                                  expiry: int)
    requires NodeInv(s.now, s.node) && IsRun(s, steps, end) && StaysPaused(s, steps) && Expiring(steps)
    requires s.node.began == id
    requires id in s.node.calls ==> s.node.calls[id].createdAt == createdAt && s.node.calls[id].expiry == expiry
    requires id in s.node.done ==> s.node.done[id].createdAt == createdAt && s.node.done[id].expiry == expiry
    ensures end.node.began == id
    ensures (id in end.node.calls && end.node.calls[id].effected) || id in end.node.done
    ensures id in end.node.done ==> end.node.done[id].createdAt == createdAt && end.node.done[id].expiry == expiry
    ensures id in end.node.done ==> id in end.node.timers && end.now <= Due(end.node.done[id])
    decreases steps
  {
    if steps != [] {
      assert steps[0] in steps && forall step :: step in steps[1..] ==> step in steps;
      if steps[0].Do? {
        OpKeepsNodeInv(s.now, s.node, steps[0].op);
      }
      StretchKeepsItsRequest(Apply(s, steps[0]), steps[1..], end, id, createdAt, expiry);
    }
  }

  /** A paused stretch begins when the PAUSE of some request takes effect on an unpaused PgBouncer. As long as it
      lasts unbroken, that request's handler is still waiting for PgBouncer's answer, or the time is at most the
      later of the handler's completion and createdAt + expiry. Nothing else is needed to end it: no later request,
      no client. */
  lemma StretchIsBounded(before: seq<Step>, s: State, id: Id, steps: seq<Step>, end: State)
    requires IsRun(INITIAL, before, s) && Expiring(before) && !s.node.paused && Enabled(s, Do(Effect(id)))
    requires var t := Apply(s, Do(Effect(id)));
      IsRun(t, steps, end) && StaysPaused(t, steps) && Expiring(steps)
    ensures id in end.node.done ==>
      var record := end.node.done[id];
      && record.createdAt == s.node.calls[id].createdAt && record.expiry == s.node.calls[id].expiry
      && end.now <= Max(record.completedAt, record.createdAt + record.expiry * SECOND)
    ensures id !in end.node.done ==> id in end.node.calls && end.node.calls[id].effected
  {
    InvRun(INITIAL, before, s);
    OpKeepsNodeInv(s.now, s.node, Effect(id));
    var t := Apply(s, Do(Effect(id)));
    StretchKeepsItsRequest(t, steps, end, id, s.node.calls[id].createdAt, s.node.calls[id].expiry);
  }

  predicate AllExpire(steps: seq<Step>, expiry: int) {
    forall step :: step in steps && step.Do? && step.op.Arrive? ==> step.op.expiry == expiry
  }

  ghost predicate NeverAbandoned(expiry: int) {
    forall steps, end :: IsRun(INITIAL, steps, end) && AllExpire(steps, expiry) && end.node.paused ==> WillEnd(end.node)
  }

  /** Without an expiry PgBouncer can be left paused with no resume coming, at any later time. */
  lemma NoExpiryNoResume(expiry: int, timeout: int, later: nat) returns (steps: seq<Step>, end: State)
    requires expiry <= 0
    ensures IsRun(INITIAL, steps, end) && AllExpire(steps, expiry)
    ensures end.now == later && end.node.paused && end.node.calls == map[] && end.node.timers == map[]
  {
    steps := [Do(Arrive(0, timeout, expiry)), Do(Effect(0)), Do(Succeed(0)), Tick(later)];
    var s1 := Apply(INITIAL, steps[0]);
    var s2 := Apply(s1, steps[1]);
    var s3 := Apply(s2, steps[2]);
    end := Apply(s3, steps[3]);
    assert steps[3..] == [Tick(later)] && IsRun(s3, steps[3..], end);
    assert steps[2..][1..] == steps[3..] && IsRun(s2, steps[2..], end);
    assert steps[1..][1..] == steps[2..] && IsRun(s1, steps[1..], end);
  }

  /** So a positive expiry is exactly what the guarantee needs. */
  lemma ExpiryDecides(expiry: int)
    ensures NeverAbandoned(expiry) <==> expiry > 0
  {
    if expiry > 0 {
      forall steps, end | IsRun(INITIAL, steps, end) && AllExpire(steps, expiry) && end.node.paused
        ensures WillEnd(end.node)
      {
        PausedHasResumeComing(steps, end);
      }
    } else {
      var steps, end := NoExpiryNoResume(expiry, 0, 0);
    }
  }
}
