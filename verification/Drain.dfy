/** How long a drain can take, and for which children.

    With ideal timers: the endpoint delay, probes of the child until no request
    is active or the drain timeout is over, SIGTERM, and SIGKILL after the
    shutdown timeout. Times are in seconds from the start of the drain. A drain
    may begin before the child is launched; if the child is still missing when
    the probes are over, the drain returns and nothing signals it any more.
 */
module Drain {
  import opened Basics

  const PROBE_TIMEOUT := 2.0

  const PROBE_INTERVAL := 0.5

  const PROPAGATION_DELAY := 5.0

  const SHUTDOWN_TIMEOUT := 10.0

  /** Added to the drain timeout for the grace period of the Pod. */
  const GRACE_MARGIN := 20.0

  /** One look at the child: how long its two requests took, and whether they
      found no active request. The second is sent only if the first succeeds. */
  datatype Round = Round(slots: real, metrics: real, idle: bool)

  /** The looks a drain would take, one after the other. */
  type Course = nat -> Round

  predicate Possible(r: Round) {
    0.0 <= r.slots <= PROBE_TIMEOUT && 0.0 <= r.metrics <= PROBE_TIMEOUT
  }

  ghost predicate AllPossible(rounds: Course) {
    forall i: nat :: Possible(rounds(i))
  }

  /** A child that is never launched, because its configuration or artifact is
      refused at some time or never decided on; or one that is launched, when it
      exits by itself, and how long it takes after SIGTERM. */
  datatype Child =
    | NeverLaunched(refusedAt: Option<real>)
    | Launched(startsAt: real, exitsAt: Option<real>, afterTerm: Option<real>)

  predicate PossibleChild(c: Child) {
    c.Launched? ==>
      (c.exitsAt.Some? ==> c.startsAt <= c.exitsAt.value) && (c.afterTerm.Some? ==> 0.0 <= c.afterTerm.value)
  }

  /** `childDone` is closed. */
  predicate Gone(c: Child, now: real) {
    match c
    case NeverLaunched(refusedAt) => refusedAt.Some? && refusedAt.value <= now
    case Launched(_, exitsAt, _) => exitsAt.Some? && exitsAt.value <= now
  }

  predicate LaunchedBy(c: Child, now: real) {
    c.Launched? && c.startsAt <= now
  }

  /** How many more turns the loop can take: each takes half a second. */
  function Turns(now: real, deadline: real): nat {
    if now >= deadline then 0 else (2.0 * (deadline - now)).Floor + 1
  }

  /** The probe loop: when it is left, and whether `childDone` was closed. A
      probe succeeds only on a child that has been launched. */
  function LoopEnd(c: Child, now: real, deadline: real, rounds: Course, i: nat): (real, bool)
    requires AllPossible(rounds)
    decreases Turns(now, deadline)
  {
    if now >= deadline then (now, false)
    else if Gone(c, now) then (now, true)
    else
      assert Possible(rounds(i));
      var probed := now + rounds(i).slots + rounds(i).metrics;
      if rounds(i).idle && LaunchedBy(c, probed) then (probed, false)
      else LoopEnd(c, probed + PROBE_INTERVAL, deadline, rounds, i + 1)
  }

  /** How a drain returns, and when: `childDone` was closed during the probes,
      there was no child to signal, or the child exited or was sent SIGKILL. */
  datatype End = Done(time: real) | NoChild(time: real) | Exited(time: real) | Killed(time: real)

  function Max(a: real, b: real): real {
    if a >= b then a else b
  }

  /** The exit of a child that is sent SIGTERM at time `t`. */
  function ExitTime(c: Child, t: real): Option<real>
    requires c.Launched?
  {
    var prompted := if c.afterTerm.Some? then Some(t + c.afterTerm.value) else None;
    if c.exitsAt.None? then prompted
    else if prompted.None? || c.exitsAt.value <= prompted.value then Some(Max(t, c.exitsAt.value))
    else prompted
  }

  function Terminated(c: Child, now: real): End
    requires c.Launched?
  {
    var exit := ExitTime(c, now);
    if exit.Some? && exit.value <= now + SHUTDOWN_TIMEOUT then Exited(exit.value) else Killed(now + SHUTDOWN_TIMEOUT)
  }

  function Probed(timeout: nat, rounds: Course, c: Child): (real, bool)
    requires AllPossible(rounds)
  {
    LoopEnd(c, PROPAGATION_DELAY, PROPAGATION_DELAY + timeout as real, rounds, 0)
  }

  function Drained(timeout: nat, rounds: Course, c: Child): End
    requires AllPossible(rounds)
  {
    var loop := Probed(timeout, rounds, c);
    if loop.1 then Done(loop.0)
    else if !LaunchedBy(c, loop.0) then NoChild(loop.0)
    else Terminated(c, loop.0)
  }

  // ---- the probe loop -----------------------------------------------------------------------

  lemma {:induction false} LoopBound(c: Child, now: real, deadline: real, rounds: Course, i: nat)
    requires AllPossible(rounds)
    ensures var t := LoopEnd(c, now, deadline, rounds, i).0;
            now <= t && (now < deadline ==> t < deadline + 2.0 * PROBE_TIMEOUT + PROBE_INTERVAL)
                && (now >= deadline ==> t == now)
    decreases Turns(now, deadline)
  {
    if now < deadline && !Gone(c, now) {
      assert Possible(rounds(i));
      var probed := now + rounds(i).slots + rounds(i).metrics;
      if !(rounds(i).idle && LaunchedBy(c, probed)) {
        LoopBound(c, probed + PROBE_INTERVAL, deadline, rounds, i + 1);
      }
    }
  }

  /** The loop is left before its deadline only with a child, or for good. */
  lemma {:induction false} LoopWaits(c: Child, now: real, deadline: real, rounds: Course, i: nat)
    requires AllPossible(rounds)
    ensures var loop := LoopEnd(c, now, deadline, rounds, i);
            (loop.1 ==> Gone(c, loop.0)) && (!loop.1 ==> LaunchedBy(c, loop.0) || loop.0 >= deadline)
    decreases Turns(now, deadline)
  {
    if now < deadline && !Gone(c, now) {
      assert Possible(rounds(i));
      var probed := now + rounds(i).slots + rounds(i).metrics;
      if !(rounds(i).idle && LaunchedBy(c, probed)) {
        LoopWaits(c, probed + PROBE_INTERVAL, deadline, rounds, i + 1);
      }
    }
  }

  /** When round `i` begins. */
  function RoundAt(rounds: Course, i: nat): real {
    if i == 0 then PROPAGATION_DELAY
    else RoundAt(rounds, i - 1) + rounds(i - 1).slots + rounds(i - 1).metrics + PROBE_INTERVAL
  }

  function AnswerAt(rounds: Course, i: nat): real {
    RoundAt(rounds, i) + rounds(i).slots + rounds(i).metrics
  }

  /** The round begins in time, with a child not known to be gone. */
  predicate Probes(timeout: nat, rounds: Course, c: Child, i: nat) {
    RoundAt(rounds, i) < PROPAGATION_DELAY + timeout as real && !Gone(c, RoundAt(rounds, i))
  }

  /** And it finds a launched child without an active request. */
  predicate FindsIdle(rounds: Course, c: Child, i: nat) {
    rounds(i).idle && LaunchedBy(c, AnswerAt(rounds, i))
  }

  lemma {:induction false} LoopFrom(timeout: nat, rounds: Course, c: Child, i: nat) returns (n: nat)
    requires AllPossible(rounds)
    ensures n >= i && forall j :: i <= j < n ==> Probes(timeout, rounds, c, j) && !FindsIdle(rounds, c, j)
    ensures !Probes(timeout, rounds, c, n) || FindsIdle(rounds, c, n)
    ensures LoopEnd(c, RoundAt(rounds, i), PROPAGATION_DELAY + timeout as real, rounds, i) ==
            if Probes(timeout, rounds, c, n) then (AnswerAt(rounds, n), false)
            else (RoundAt(rounds, n), RoundAt(rounds, n) < PROPAGATION_DELAY + timeout as real)
    decreases Turns(RoundAt(rounds, i), PROPAGATION_DELAY + timeout as real)
  {
    n := i;
    assert Possible(rounds(i));
    if Probes(timeout, rounds, c, i) && !FindsIdle(rounds, c, i) {
      assert RoundAt(rounds, i + 1) == AnswerAt(rounds, i) + PROBE_INTERVAL;
      n := LoopFrom(timeout, rounds, c, i + 1);
    }
  }

  /** The probes are over with the first round that begins too late, or with a
      child that is gone, and otherwise with the first that finds a launched
      child without an active request; that round is waited for. */
  lemma ProbesEnd(timeout: nat, rounds: Course, c: Child) returns (n: nat)
    requires AllPossible(rounds)
    ensures forall j :: 0 <= j < n ==> Probes(timeout, rounds, c, j) && !FindsIdle(rounds, c, j)
    ensures !Probes(timeout, rounds, c, n) || FindsIdle(rounds, c, n)
    ensures Probed(timeout, rounds, c) ==
            if Probes(timeout, rounds, c, n) then (AnswerAt(rounds, n), false)
            else (RoundAt(rounds, n), RoundAt(rounds, n) < PROPAGATION_DELAY + timeout as real)
  {
    n := LoopFrom(timeout, rounds, c, 0);
  }

  /** SIGKILL is sent exactly when the child, with SIGTERM sent at the end of the
      probes, neither obeys within the shutdown timeout nor exits by itself in
      that time, and it is sent when that is over; a child that exits in time
      is waited for and no longer. */
  lemma KilledExactly(timeout: nat, rounds: Course, c: Child)
    requires AllPossible(rounds) && PossibleChild(c) && c.Launched? && !Probed(timeout, rounds, c).1
    requires c.startsAt <= Probed(timeout, rounds, c).0
    ensures var t, end := Probed(timeout, rounds, c).0, Drained(timeout, rounds, c);
            var obeys := c.afterTerm.Some? && c.afterTerm.value <= SHUTDOWN_TIMEOUT;
            var exits := c.exitsAt.Some? && c.exitsAt.value <= t + SHUTDOWN_TIMEOUT;
            && (end.Killed? <==> !obeys && !exits) && (end.Exited? <==> obeys || exits)
            && (end.Killed? ==> end.time == t + SHUTDOWN_TIMEOUT)
            && (obeys ==> end.time <= t + c.afterTerm.value) && (exits ==> end.time <= Max(t, c.exitsAt.value))
            && (end.Exited? ==> end.time >= t && ((obeys && end.time == t + c.afterTerm.value)
                                                 || (exits && end.time == Max(t, c.exitsAt.value))))
  {
  }

  // ---- when the drain settles the child -------------------------------------------------------

  /** Before `limit` there is no child left to wait for: none is ever launched, or
      the drain has seen it exit or sent it SIGKILL, or it has exited by itself. */
  ghost predicate Settled(timeout: nat, rounds: Course, c: Child, limit: real)
    requires AllPossible(rounds)
  {
    c.Launched? ==>
      || (c.exitsAt.Some? && c.exitsAt.value < limit)
      || (!Drained(timeout, rounds, c).NoChild? && Drained(timeout, rounds, c).time < limit)
  }

  /** Whenever the drain has a child, it is done before the timeout plus 19.5
      seconds. */
  lemma SignalledInTime(timeout: nat, rounds: Course, c: Child)
    requires AllPossible(rounds)
    ensures Drained(timeout, rounds, c).time < timeout as real + 19.5
  {
    LoopBound(c, PROPAGATION_DELAY, PROPAGATION_DELAY + timeout as real, rounds, 0);
  }

  /** For every timeout and every course of the probes: before the timeout plus
      19.5 seconds, inside the grace period of the Pod, the child has exited or
      been sent SIGKILL, if and only if it is never launched, launched before
      the probes are over, or exits by itself in that time. */
  lemma DrainBound(timeout: nat, rounds: Course, c: Child)
    requires AllPossible(rounds) && PossibleChild(c)
    ensures timeout as real + 19.5 < timeout as real + GRACE_MARGIN
    ensures Settled(timeout, rounds, c, timeout as real + 19.5) <==>
            || c.NeverLaunched?
            || c.startsAt <= Probed(timeout, rounds, c).0
            || (c.exitsAt.Some? && c.exitsAt.value < timeout as real + 19.5)
  {
    SignalledInTime(timeout, rounds, c);
    LoopWaits(c, PROPAGATION_DELAY, PROPAGATION_DELAY + timeout as real, rounds, 0);
  }

  /** So a child launched before the timeout runs out is always settled. */
  lemma EarlyChildSettled(timeout: nat, rounds: Course, c: Child)
    requires AllPossible(rounds) && PossibleChild(c) && LaunchedBy(c, PROPAGATION_DELAY + timeout as real)
    ensures Settled(timeout, rounds, c, timeout as real + 19.5)
  {
    LoopWaits(c, PROPAGATION_DELAY, PROPAGATION_DELAY + timeout as real, rounds, 0);
    DrainBound(timeout, rounds, c);
  }

  /** A child launched the timeout plus 9.5 seconds into the drain or later, when
      hashing its artifact took that long say, is never signalled: whatever the
      probes, it runs for as long as it likes. */
  lemma LateChildRuns(timeout: nat, rounds: Course, startsAt: real, limit: real)
    requires AllPossible(rounds) && startsAt >= timeout as real + 9.5
    ensures Drained(timeout, rounds, Launched(startsAt, None, Some(0.0))).NoChild?
    ensures !Settled(timeout, rounds, Launched(startsAt, None, Some(0.0)), limit)
  {
    var c := Launched(startsAt, None, Some(0.0));
    LoopBound(c, PROPAGATION_DELAY, PROPAGATION_DELAY + timeout as real, rounds, 0);
    LoopWaits(c, PROPAGATION_DELAY, PROPAGATION_DELAY + timeout as real, rounds, 0);
  }

  // ---- the bound is tight ------------------------------------------------------------------------

  const STUBBORN := Launched(0.0, None, None)

  function Before(r: Round, rounds: Course): Course {
    (i: nat) => if i == 0 then r else rounds(i - 1)
  }

  lemma {:induction false} Shifted(now: real, deadline: real, r: Round, rounds: Course, i: nat)
    requires Possible(r) && AllPossible(rounds) && AllPossible(Before(r, rounds))
    ensures LoopEnd(STUBBORN, now, deadline, Before(r, rounds), i + 1) == LoopEnd(STUBBORN, now, deadline, rounds, i)
    decreases Turns(now, deadline)
  {
    if now < deadline {
      assert Possible(rounds(i)) && Before(r, rounds)(i + 1) == rounds(i);
      var probed := now + rounds(i).slots + rounds(i).metrics;
      if !(rounds(i).idle && LaunchedBy(STUBBORN, probed)) {
        Shifted(probed + PROBE_INTERVAL, deadline, r, rounds, i + 1);
      }
    }
  }

  lemma FirstRound(now: real, deadline: real, r: Round, rounds: Course)
    requires now < deadline && Possible(r) && !r.idle && AllPossible(rounds)
    ensures AllPossible(Before(r, rounds))
    ensures LoopEnd(STUBBORN, now, deadline, Before(r, rounds), 0) ==
            LoopEnd(STUBBORN, now + r.slots + r.metrics + PROBE_INTERVAL, deadline, rounds, 0)
  {
    forall i: nat ensures Possible(Before(r, rounds)(i)) {
      if i > 0 { assert Possible(rounds(i - 1)); }
    }
    Shifted(now + r.slots + r.metrics + PROBE_INTERVAL, deadline, r, rounds, 0);
  }

  /** Rounds that take the loop from `now` exactly to `goal`. */
  lemma {:induction false} Reaches(now: real, goal: real, deadline: real, rest: Course, n: nat) returns (rounds: Course)
    requires goal - now >= PROBE_INTERVAL && goal < deadline && goal - now <= n as real && AllPossible(rest)
    ensures AllPossible(rounds)
    ensures LoopEnd(STUBBORN, now, deadline, rounds, 0) == LoopEnd(STUBBORN, goal, deadline, rest, 0)
    decreases n
  {
    if goal - now <= 4.5 {
      var half := (goal - now - 0.5) / 2.0;
      var r := Round(half, half, false);
      FirstRound(now, deadline, r, rest);
      rounds := Before(r, rest);
    } else {
      var later := Reaches(now + 1.5, goal, deadline, rest, n - 1);
      var r := Round(1.0, 0.0, false);
      FirstRound(now, deadline, r, later);
      rounds := Before(r, later);
    }
  }

  /** The bound cannot be improved: for every margin there are probes and a child
      that ignores SIGTERM with which the drain takes longer than that. */
  lemma DrainBoundTight(timeout: nat, margin: real) returns (rounds: Course)
    requires timeout >= 1 && 0.0 < margin <= 0.5
    ensures AllPossible(rounds) && Drained(timeout, rounds, STUBBORN) == Killed(timeout as real + 19.5 - margin)
  {
    var deadline := PROPAGATION_DELAY + timeout as real;
    var slow: Course := (i: nat) => Round(PROBE_TIMEOUT, PROBE_TIMEOUT, false);
    assert AllPossible(slow);
    rounds := Reaches(PROPAGATION_DELAY, deadline - margin, deadline, slow, timeout);
    assert Possible(slow(0));
    assert LoopEnd(STUBBORN, deadline - margin, deadline, slow, 0) ==
           LoopEnd(STUBBORN, deadline - margin + 4.5, deadline, slow, 1);
  }

  // ---- the drain, with its loop ---------------------------------------------------------------------

  /** `drain`. */
  method DrainChild(timeout: nat, rounds: Course, c: Child) returns (end: End)
    requires AllPossible(rounds)
    ensures end == Drained(timeout, rounds, c)
    ensures end.time < timeout as real + 19.5
  {
    SignalledInTime(timeout, rounds, c);
    var now := PROPAGATION_DELAY;
    var deadline := now + timeout as real;
    var i: nat := 0;
    while now < deadline
      invariant Probed(timeout, rounds, c) == LoopEnd(c, now, deadline, rounds, i)
      decreases Turns(now, deadline)
    {
      if Gone(c, now) { return Done(now); }
      assert Possible(rounds(i));
      now := now + rounds(i).slots + rounds(i).metrics;
      if rounds(i).idle && LaunchedBy(c, now) {
        assert Probed(timeout, rounds, c) == (now, false);
        break;
      }
      now := now + PROBE_INTERVAL;
      i := i + 1;
    }
    if !LaunchedBy(c, now) { return NoChild(now); }
    end := Terminate(now, c);
  }

  /** SIGTERM, and SIGKILL when the shutdown timer fires first. */
  method Terminate(now: real, c: Child) returns (end: End)
    requires c.Launched?
    ensures end == Terminated(c, now)
  {
    var exit := ExitTime(c, now);
    if exit.Some? && exit.value <= now + SHUTDOWN_TIMEOUT { return Exited(exit.value); }
    return Killed(now + SHUTDOWN_TIMEOUT);
  }
}
