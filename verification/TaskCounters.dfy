/**
 * Per-location task counters with removal at zero. Every atomic operation on the shared map is one step, so tasks
 * interleave between the increment, the decrement and the conditional removal in every possible way.
 */
module TaskCounters {

  /** Where a task stands; a task that has finished with the counters is no longer listed. */
  datatype Phase =
    | Started(loc: string)    // the global counter is up, the location's not yet
    | Live(loc: string)       // a live guard
    | Dropping(loc: string)   // the global counter is down, the location's not yet
    | Removing(loc: string)   // it took the location to zero and has still to try the removal

  /** The shared map of location counters, the global counter, and the tasks in flight. */
  datatype State = State(counts: map<string, int>, global: int, tasks: map<nat, Phase>)

  datatype Action =
    | Begin(task: nat, loc: string)
    | Increment(task: nat)
    | BeginDrop(task: nat)
    | Decrement(task: nat)
    | RemoveIfZero(task: nat)

  function Count(s: State, loc: string): int {
    if loc in s.counts then s.counts[loc] else 0
  }

  /** `exact` is the tracked counter, which removes at zero; the untracked layer removes at zero or below. */
  predicate TookToZero(exact: bool, previous: int) {
    if exact then previous == 1 else previous <= 1
  }

  predicate MayRemove(exact: bool, count: int) {
    if exact then count == 0 else count <= 0
  }

  predicate Step(exact: bool, s: State, a: Action, s': State) {
    match a
    case Begin(t, loc) =>
      t !in s.tasks && s' == s.(global := s.global + 1, tasks := s.tasks[t := Started(loc)])
    case Increment(t) =>
      && t in s.tasks && s.tasks[t].Started?
      && var loc := s.tasks[t].loc;
         s' == s.(counts := s.counts[loc := Count(s, loc) + 1], tasks := s.tasks[t := Live(loc)])
    case BeginDrop(t) =>
      && t in s.tasks && s.tasks[t].Live?
      && s' == s.(global := s.global - 1, tasks := s.tasks[t := Dropping(s.tasks[t].loc)])
    case Decrement(t) =>
      && t in s.tasks && s.tasks[t].Dropping?
      && var loc := s.tasks[t].loc;
         if loc !in s.counts then s' == s.(tasks := s.tasks - {t})
         else
           s' == s.(counts := s.counts[loc := s.counts[loc] - 1],
                    tasks := if TookToZero(exact, s.counts[loc]) then s.tasks[t := Removing(loc)] else s.tasks - {t})
    case RemoveIfZero(t) =>
      && t in s.tasks && s.tasks[t].Removing?
      && var loc := s.tasks[t].loc;
         s' == s.(counts := if loc in s.counts && MayRemove(exact, s.counts[loc]) then s.counts - {loc} else s.counts,
                  tasks := s.tasks - {t})
  }

  ghost predicate Run(exact: bool, run: seq<State>, actions: seq<Action>) {
    && |run| == |actions| + 1 && run[0] == State(map[], 0, map[])
    && forall k {:trigger actions[k]} | 0 <= k < |actions| :: Step(exact, run[k], actions[k], run[k + 1])
  }

  // ---- what every run keeps

  predicate Holds(p: Phase, loc: string) {
    (p.Live? || p.Dropping?) && p.loc == loc
  }

  predicate Counts(p: Phase) {
    p.Started? || p.Live?
  }

  /** The tasks whose increment of the location is still standing. */
  ghost function Holders(s: State, loc: string): set<nat> {
    set t | t in s.tasks && Holds(s.tasks[t], loc)
  }

  /** The tasks that the global counter counts. */
  ghost function Counted(s: State): set<nat> {
    set t | t in s.tasks && Counts(s.tasks[t])
  }

  ghost predicate CountsMatch(s: State) {
    forall loc :: Count(s, loc) == |Holders(s, loc)|
  }

  /** An entry at zero is one that some task is about to remove. */
  ghost predicate ZerosAwaitRemoval(s: State) {
    forall loc | loc in s.counts && s.counts[loc] == 0 :: exists t :: t in s.tasks && s.tasks[t] == Removing(loc)
  }

  ghost predicate Inv(s: State) {
    CountsMatch(s) && ZerosAwaitRemoval(s) && s.global == |Counted(s)|
  }

  /** How the holders of a location change when one task moves on. */
  lemma HoldersMove(s: State, s': State, t: nat, loc: string)
    requires t in s'.tasks ==> s'.tasks == s.tasks[t := s'.tasks[t]]
    requires t !in s'.tasks ==> s'.tasks == s.tasks - {t}
    ensures |Holders(s', loc)| == |Holders(s, loc)|
                                  - (if t in s.tasks && Holds(s.tasks[t], loc) then 1 else 0)
                                  + (if t in s'.tasks && Holds(s'.tasks[t], loc) then 1 else 0)
  {
    var rest := Holders(s, loc) - {t};
    assert Holders(s, loc) == if t in s.tasks && Holds(s.tasks[t], loc) then rest + {t} else rest;
    assert Holders(s', loc) == if t in s'.tasks && Holds(s'.tasks[t], loc) then rest + {t} else rest;
  }

  lemma CountedMoves(s: State, s': State, t: nat)
    requires t in s'.tasks ==> s'.tasks == s.tasks[t := s'.tasks[t]]
    requires t !in s'.tasks ==> s'.tasks == s.tasks - {t}
    ensures |Counted(s')| == |Counted(s)|
                             - (if t in s.tasks && Counts(s.tasks[t]) then 1 else 0)
                             + (if t in s'.tasks && Counts(s'.tasks[t]) then 1 else 0)
  {
    var rest := Counted(s) - {t};
    assert Counted(s) == if t in s.tasks && Counts(s.tasks[t]) then rest + {t} else rest;
    assert Counted(s') == if t in s'.tasks && Counts(s'.tasks[t]) then rest + {t} else rest;
  }

  /** A task that has not yet decremented finds its location, with a positive count. */
  lemma DroppingFinds(s: State, t: nat)
    requires Inv(s) && t in s.tasks && s.tasks[t].Dropping?
    ensures s.tasks[t].loc in s.counts && s.counts[s.tasks[t].loc] >= 1
  {
    var loc := s.tasks[t].loc;
    assert t in Holders(s, loc);
    assert Count(s, loc) == |Holders(s, loc)| >= 1;
  }

  lemma StepKeepsCounts(exact: bool, s: State, a: Action, s': State)
    requires Inv(s) && Step(exact, s, a, s')
    ensures CountsMatch(s') && s'.global == |Counted(s')|
  {
    var t := a.task;
    if a.Decrement? { DroppingFinds(s, t); }
    CountedMoves(s, s', t);
    forall loc ensures Count(s', loc) == |Holders(s', loc)| {
      HoldersMove(s, s', t, loc);
      assert Count(s, loc) == |Holders(s, loc)|;
    }
  }

  lemma StepKeepsZeros(exact: bool, s: State, a: Action, s': State)
    requires Inv(s) && Step(exact, s, a, s')
    ensures ZerosAwaitRemoval(s')
  {
    var t := a.task;
    if a.Decrement? { DroppingFinds(s, t); }
    forall loc | loc in s'.counts && s'.counts[loc] == 0
      ensures exists r :: r in s'.tasks && s'.tasks[r] == Removing(loc)
    {
      assert Count(s, loc) == |Holders(s, loc)| >= 0;
      if loc in s.counts && s.counts[loc] == 0 {
        var r :| r in s.tasks && s.tasks[r] == Removing(loc);
        assert r in s'.tasks && s'.tasks[r] == Removing(loc);
      } else {
        assert a.Decrement? && t in s'.tasks && s'.tasks[t] == Removing(loc);
      }
    }
  }

  lemma {:induction false} RunKeepsInv(exact: bool, run: seq<State>, actions: seq<Action>, n: nat)
    requires Run(exact, run, actions) && n < |run|
    ensures Inv(run[n])
    decreases n
  {
    if n == 0 {
      assert Counted(run[0]) == {};
      assert forall loc :: Holders(run[0], loc) == {};
    } else {
      RunKeepsInv(exact, run, actions, n - 1);
      StepKeepsCounts(exact, run[n - 1], actions[n - 1], run[n]);
      StepKeepsZeros(exact, run[n - 1], actions[n - 1], run[n]);
    }
  }

  /** No interleaving makes a counter negative, or lets a decrement miss its entry. */
  lemma NeverNegative(exact: bool, run: seq<State>, actions: seq<Action>, n: nat, loc: string)
    requires Run(exact, run, actions) && n < |run|
    ensures Count(run[n], loc) == |Holders(run[n], loc)|
    ensures Holders(run[n], loc) != {} ==> loc in run[n].counts
  {
    RunKeepsInv(exact, run, actions, n);
    assert Count(run[n], loc) == |Holders(run[n], loc)|;
  }

  predicate Quiescent(s: State) {
    forall t | t in s.tasks :: s.tasks[t].Live?
  }

  /**
   * At rest the map holds exactly the locations with live guards, each with their number, and the global counter
   * their total: nothing leaks, nothing is orphaned.
   */
  lemma QuiescentMapExact(exact: bool, run: seq<State>, actions: seq<Action>, n: nat)
    requires Run(exact, run, actions) && n < |run| && Quiescent(run[n])
    ensures var s := run[n];
            && (forall loc :: loc in s.counts <==> exists t :: t in s.tasks && s.tasks[t] == Live(loc))
            && (forall loc | loc in s.counts :: s.counts[loc] == |set t | t in s.tasks && s.tasks[t] == Live(loc)|)
            && s.global == |s.tasks|
  {
    RunKeepsInv(exact, run, actions, n);
    var s := run[n];
    assert Counted(s) == s.tasks.Keys;
    forall loc ensures Holders(s, loc) == (set t | t in s.tasks && s.tasks[t] == Live(loc))
               ensures loc in s.counts <==> Holders(s, loc) != {}
    {
      assert Count(s, loc) == |Holders(s, loc)|;
    }
    forall loc ensures loc in s.counts <==> exists t :: t in s.tasks && s.tasks[t] == Live(loc) {
      if loc in s.counts {
        var t :| t in Holders(s, loc);
        assert t in s.tasks && s.tasks[t] == Live(loc);
      }
      if t :| t in s.tasks && s.tasks[t] == Live(loc) {
        assert t in Holders(s, loc);
      }
    }
  }
}
