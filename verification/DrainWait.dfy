/** The drain wait: poll, settle, re-check, until drained twice in a row or out of time. */
module DrainWait {
  import opened Options

  const DRAIN_POLL_MS: nat := 1000
  const DRAIN_SETTLE_MS: nat := 2000

  datatype DrainOutcome = Drained | Timeout

  /** One call of the probe: when, and what it said. */
  datatype Probe = Probe(at: nat, drained: bool)

  /** The last two probes both said drained. */
  predicate DrainedTwice(log: seq<Probe>) {
    |log| >= 2 && log[|log| - 2].drained && log[|log| - 1].drained
  }

  predicate PastDeadline(timeout: Option<nat>, now: nat) {
    timeout.Some? && now >= timeout.value
  }

  /** The last probe said busy, at or after the deadline. */
  predicate BusyAtDeadline(log: seq<Probe>, timeout: Option<nat>) {
    |log| >= 1 && !log[|log| - 1].drained && PastDeadline(timeout, log[|log| - 1].at)
  }

  /**
   * Whether `p` is the next probe after `log`: the first at once; after a drained answer the settle window and a
   * re-check; after a busy one, and only before the deadline, the poll interval; nothing after two drained in a row.
   */
  predicate Next(probe: nat -> bool, log: seq<Probe>, timeout: Option<nat>, p: Probe) {
    && p.drained == probe(|log|) && !DrainedTwice(log)
    && if log == [] then p.at == 0
       else
         var last := log[|log| - 1];
         if last.drained then p.at == last.at + DRAIN_SETTLE_MS
         else !PastDeadline(timeout, last.at) && p.at == last.at + DRAIN_POLL_MS
  }

  /** Every probe of the log came when it should. */
  predicate Scheduled(probe: nat -> bool, log: seq<Probe>, timeout: Option<nat>) {
    log == []
    || (Scheduled(probe, log[..|log| - 1], timeout) && Next(probe, log[..|log| - 1], timeout, log[|log| - 1]))
  }

  lemma ScheduledNext(probe: nat -> bool, log: seq<Probe>, timeout: Option<nat>, p: Probe)
    requires Scheduled(probe, log, timeout) && Next(probe, log, timeout, p)
    ensures Scheduled(probe, log + [p], timeout)
  {
    assert (log + [p])[..|log|] == log;
  }

  /** The schedule leaves no choice: of two logs of the same probe and timeout, one begins with the other. */
  lemma {:induction false} ScheduleUnique(probe: nat -> bool, a: seq<Probe>, b: seq<Probe>, timeout: Option<nat>)
    requires Scheduled(probe, a, timeout) && Scheduled(probe, b, timeout) && |a| <= |b|
    ensures a == b[..|a|]
    decreases |b|
  {
    if |a| < |b| {
      ScheduleUnique(probe, a, b[..|b| - 1], timeout);
      assert b[..|b| - 1][..|a|] == b[..|a|];
    } else if a != [] {
      var n := |a| - 1;
      ScheduleUnique(probe, a[..n], b[..n], timeout);
      assert a == a[..n] + [a[n]] && b == b[..n] + [b[n]];
    }
  }

  /** The time that so many polls take at least. */
  function PollTime(turns: nat): nat {
    if turns == 0 then 0 else PollTime(turns - 1) + DRAIN_POLL_MS
  }

  lemma {:induction false} PollTimeIs(turns: nat)
    ensures PollTime(turns) == 1000 * turns
  {
    if turns > 0 {
      PollTimeIs(turns - 1);
    }
  }

  /** The wait goes on: the last probe was busy, before the deadline, one poll interval ago. */
  predicate Waiting(log: seq<Probe>, timeout: Option<nat>, now: nat) {
    if log == [] then now == 0
    else
      var last := log[|log| - 1];
      !last.drained && !PastDeadline(timeout, last.at) && now == last.at + DRAIN_POLL_MS
  }

  /** The wait is over: drained twice in a row, or busy at the deadline. */
  predicate Over(log: seq<Probe>, timeout: Option<nat>, now: nat, outcome: DrainOutcome) {
    && log != [] && now == log[|log| - 1].at
    && (outcome == Drained <==> DrainedTwice(log)) && (outcome == Timeout <==> BusyAtDeadline(log, timeout))
  }

  /** The log after one turn: a probe, and if it says drained, another behind the settle window. */
  function TurnLog(probe: nat -> bool, log: seq<Probe>, now: nat): seq<Probe> {
    if probe(|log|) then log + [Probe(now, true)] + [Probe(now + DRAIN_SETTLE_MS, probe(|log| + 1))]
    else log + [Probe(now, false)]
  }

  lemma TurnScheduled(probe: nat -> bool, log: seq<Probe>, timeout: Option<nat>, now: nat)
    requires Scheduled(probe, log, timeout) && Waiting(log, timeout, now)
    ensures Scheduled(probe, TurnLog(probe, log, now), timeout)
  {
    ScheduledNext(probe, log, timeout, Probe(now, probe(|log|)));
    if probe(|log|) {
      ScheduledNext(probe, log + [Probe(now, true)], timeout, Probe(now + DRAIN_SETTLE_MS, probe(|log| + 1)));
    }
  }

  /** One turn of the loop. */
  method WaitTurn(probe: nat -> bool, timeout: Option<nat>, before: seq<Probe>, start: nat)
    returns (outcome: Option<DrainOutcome>, now: nat, log: seq<Probe>)
    requires Waiting(before, timeout, start)
    ensures log == TurnLog(probe, before, start) && |log| > |before|
    ensures if outcome.Some? then Over(log, timeout, now, outcome.value) && now <= start + DRAIN_SETTLE_MS
            else Waiting(log, timeout, now) && now >= start + DRAIN_POLL_MS
  {
    now := start;
    var drained := probe(|before|);
    log := before + [Probe(now, drained)];
    if drained {
      now := now + DRAIN_SETTLE_MS;
      var again := probe(|log|);
      log := log + [Probe(now, again)];
      if again {
        outcome := Some(Drained);
        return;
      }
    }
    if PastDeadline(timeout, now) {
      outcome := Some(Timeout);
      return;
    }
    now := now + DRAIN_POLL_MS;
    outcome := None;
  }

  /**
   * The wait, started at time 0 with an optional timeout. `probe(k)` is what the k-th call of the probe says; sleeps
   * are exact and probes take no time. Without a timeout the wait may go on forever, so it is watched for `turns`
   * turns of its loop; `outcome` is None while it is still waiting. `log` lists the probe calls made.
   */
  method WaitUntilDrained(probe: nat -> bool, timeout: Option<nat>, turns: nat)
    returns (outcome: Option<DrainOutcome>, now: nat, log: seq<Probe>)
    ensures Scheduled(probe, log, timeout)
    ensures outcome == Some(Drained) <==> DrainedTwice(log)
    ensures outcome == Some(Timeout) <==> BusyAtDeadline(log, timeout)
    ensures outcome.Some? ==> log != [] && now == log[|log| - 1].at
    ensures timeout.Some? ==> now < timeout.value + DRAIN_POLL_MS + DRAIN_SETTLE_MS
    ensures timeout.Some? && PollTime(turns) >= timeout.value + DRAIN_POLL_MS ==> outcome.Some?
    ensures outcome.None? && turns > 0 ==> |log| >= turns && !log[|log| - 1].drained
  {
    outcome, now, log := None, 0, [];
    var turn := 0;
    while turn < turns
      invariant turn <= turns && turn <= |log| && PollTime(turn) <= now
      invariant outcome.None? && Scheduled(probe, log, timeout) && Waiting(log, timeout, now)
    {
      TurnScheduled(probe, log, timeout, now);
      outcome, now, log := WaitTurn(probe, timeout, log, now);
      if outcome.Some? {
        return;
      }
      turn := turn + 1;
    }
  }
}
