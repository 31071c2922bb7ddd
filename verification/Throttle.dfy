/** The failure-report throttle: at most one broadcast per key and cooldown, with a count of what it held back. */
module Throttle {
  type Key = (string, string)

  /** When the key last broadcast, and how many failures it has held back since. */
  datatype Entry = Entry(last: int, suppressed: nat)

  type Table = map<Key, Entry>

  datatype Decision = Decision(emit: bool, suppressed: nat)

  /** Elapsed time; a clock reading before the last one counts as none. */
  function Elapsed(now: int, last: int): int {
    if now >= last then now - last else 0
  }

  function Decide(table: Table, key: Key, cooldown: nat, now: int): (Decision, Entry) {
    if key !in table then (Decision(true, 0), Entry(now, 0))
    else if Elapsed(now, table[key].last) < cooldown then
      (Decision(false, table[key].suppressed + 1), table[key].(suppressed := table[key].suppressed + 1))
    else (Decision(true, table[key].suppressed), Entry(now, 0))
  }

  class ThrottleState {
    var lastEmitted: Table

    constructor ()
      ensures lastEmitted == map[]
    {
      lastEmitted := map[];
    }

    method ThrottleDecision(key: Key, cooldown: nat, now: int) returns (emit: bool, suppressed: nat)
      modifies this
      ensures Decision(emit, suppressed) == Decide(old(lastEmitted), key, cooldown, now).0
      ensures lastEmitted == old(lastEmitted)[key := Decide(old(lastEmitted), key, cooldown, now).1]
    {
      if key in lastEmitted {
        var entry := lastEmitted[key];
        if Elapsed(now, entry.last) < cooldown {
          suppressed := entry.suppressed + 1;
          lastEmitted := lastEmitted[key := entry.(suppressed := suppressed)];
          emit := false;
        } else {
          suppressed := entry.suppressed;
          lastEmitted := lastEmitted[key := Entry(now, 0)];
          emit := true;
        }
      } else {
        lastEmitted := lastEmitted[key := Entry(now, 0)];
        emit, suppressed := true, 0;
      }
    }
  }

  // ---- whole runs

  datatype Failure = Failure(key: Key, now: int)

  /** The table after the first `n` failures. */
  function After(failures: seq<Failure>, cooldown: nat, n: nat): Table
    requires n <= |failures|
  {
    if n == 0 then map[]
    else
      var before := After(failures, cooldown, n - 1);
      var f := failures[n - 1];
      before[f.key := Decide(before, f.key, cooldown, f.now).1]
  }

  /** The decision about the n-th failure. */
  function DecisionAt(failures: seq<Failure>, cooldown: nat, n: nat): Decision
    requires n < |failures|
  {
    Decide(After(failures, cooldown, n), failures[n].key, cooldown, failures[n].now).0
  }

  ghost predicate InOrder(failures: seq<Failure>) {
    forall j, k | 0 <= j <= k < |failures| :: failures[j].now <= failures[k].now
  }

  // ---- keys do not affect each other

  /** The failures of one key among the first `n`, in order. */
  function Of(failures: seq<Failure>, key: Key, n: nat): seq<Failure>
    requires n <= |failures|
  {
    if n == 0 then []
    else if failures[n - 1].key == key then Of(failures, key, n - 1) + [failures[n - 1]]
    else Of(failures, key, n - 1)
  }

  lemma {:induction false} AfterOfPrefix(failures: seq<Failure>, more: seq<Failure>, cooldown: nat, n: nat)
    requires n <= |failures|
    ensures After(failures + more, cooldown, n) == After(failures, cooldown, n)
    decreases n
  {
    if n > 0 {
      AfterOfPrefix(failures, more, cooldown, n - 1);
    }
  }

  predicate SameEntry(a: Table, b: Table, key: Key) {
    (key in a <==> key in b) && (key in a ==> a[key] == b[key])
  }

  /** A key's entry depends on its own failures alone: a run of just those leaves the same entry. */
  lemma {:induction false} KeysIndependent(failures: seq<Failure>, cooldown: nat, key: Key, n: nat)
    requires n <= |failures|
    ensures var own := Of(failures, key, n);
            SameEntry(After(failures, cooldown, n), After(own, cooldown, |own|), key)
    decreases n
  {
    if n > 0 {
      KeysIndependent(failures, cooldown, key, n - 1);
      if failures[n - 1].key == key {
        var own := Of(failures, key, n - 1);
        AfterOfPrefix(own, [failures[n - 1]], cooldown, |own|);
      }
    }
  }

  /** So does every decision about it. */
  lemma DecisionsIndependent(failures: seq<Failure>, cooldown: nat, n: nat)
    requires n < |failures|
    ensures var own := Of(failures, failures[n].key, n + 1);
            |own| > 0 && DecisionAt(failures, cooldown, n) == DecisionAt(own, cooldown, |own| - 1)
  {
    var key := failures[n].key;
    var own := Of(failures, key, n);
    KeysIndependent(failures, cooldown, key, n);
    AfterOfPrefix(own, [failures[n]], cooldown, |own|);
  }

  // ---- conservation

  predicate Emits(failures: seq<Failure>, cooldown: nat, key: Key, n: nat)
    requires n < |failures|
  {
    failures[n].key == key && DecisionAt(failures, cooldown, n).emit
  }

  /** How often the key broadcast among the first `n` failures. */
  function Emissions(failures: seq<Failure>, cooldown: nat, key: Key, n: nat): nat
    requires n <= |failures|
  {
    if n == 0 then 0
    else Emissions(failures, cooldown, key, n - 1) + if Emits(failures, cooldown, key, n - 1) then 1 else 0
  }

  /** What those broadcasts reported as held back. */
  function Reported(failures: seq<Failure>, cooldown: nat, key: Key, n: nat): nat
    requires n <= |failures|
  {
    if n == 0 then 0
    else
      Reported(failures, cooldown, key, n - 1)
      + if Emits(failures, cooldown, key, n - 1) then DecisionAt(failures, cooldown, n - 1).suppressed else 0
  }

  function Waiting(table: Table, key: Key): nat {
    if key in table then table[key].suppressed else 0
  }

  /** Every failure of a key that was not broadcast is reported by a later broadcast or still counted. */
  lemma {:induction false} NothingLost(failures: seq<Failure>, cooldown: nat, key: Key, n: nat)
    requires n <= |failures|
    ensures Reported(failures, cooldown, key, n) + Waiting(After(failures, cooldown, n), key)
            == |Of(failures, key, n)| - Emissions(failures, cooldown, key, n)
    decreases n
  {
    if n > 0 {
      NothingLost(failures, cooldown, key, n - 1);
    }
  }

  // ---- rate

  /** The j-th failure is the key's latest broadcast among the first `n`, and the table has its time. */
  ghost predicate IsLatest(failures: seq<Failure>, cooldown: nat, key: Key, n: nat, j: nat)
    requires n <= |failures|
  {
    && j < n && Emits(failures, cooldown, key, j)
    && (forall k | j < k < n :: !Emits(failures, cooldown, key, k))
    && key in After(failures, cooldown, n) && After(failures, cooldown, n)[key].last == failures[j].now
  }

  lemma {:induction false} LatestIsKnown(failures: seq<Failure>, cooldown: nat, key: Key, n: nat)
    returns (j: nat)
    requires n <= |failures|
    ensures if key in After(failures, cooldown, n) then IsLatest(failures, cooldown, key, n, j)
            else forall k | 0 <= k < n :: !Emits(failures, cooldown, key, k)
    decreases n
  {
    j := 0;
    if n > 0 {
      j := LatestIsKnown(failures, cooldown, key, n - 1);
      if Emits(failures, cooldown, key, n - 1) {
        j := n - 1;
      }
    }
  }

  /** Two broadcasts of a key are at least the cooldown apart. */
  lemma Spaced(failures: seq<Failure>, cooldown: nat, key: Key, j: nat, k: nat)
    requires InOrder(failures) && j < k < |failures|
    requires Emits(failures, cooldown, key, j) && Emits(failures, cooldown, key, k)
    ensures failures[k].now - failures[j].now >= cooldown
  {
    var i := LatestIsKnown(failures, cooldown, key, k);
    assert j <= i < k;
    assert failures[j].now <= failures[i].now <= failures[k].now;
  }

  /** How often the key broadcast in an interval, ends included. */
  function EmissionsIn(failures: seq<Failure>, cooldown: nat, key: Key, start: int, length: nat, n: nat): nat
    requires n <= |failures|
  {
    if n == 0 then 0
    else
      EmissionsIn(failures, cooldown, key, start, length, n - 1)
      + if Emits(failures, cooldown, key, n - 1) && start <= failures[n - 1].now <= start + length then 1 else 0
  }

  function Cooldowns(n: nat, cooldown: nat): nat {
    if n == 0 then 0 else Cooldowns(n - 1, cooldown) + cooldown
  }

  lemma {:induction false} CooldownsAre(n: nat, cooldown: nat)
    ensures Cooldowns(n, cooldown) == n * cooldown
  {
    if n > 0 {
      CooldownsAre(n - 1, cooldown);
      assert n * cooldown == (n - 1) * cooldown + cooldown;
    }
  }

  /** The last of `count` broadcasts in the interval is count - 1 cooldowns into it. */
  lemma {:induction false} LastIsLate(failures: seq<Failure>, cooldown: nat, key: Key, start: int, length: nat, n: nat)
    returns (j: nat)
    requires InOrder(failures) && n <= |failures|
    ensures var count := EmissionsIn(failures, cooldown, key, start, length, n);
            count > 0 ==>
              && j < n && Emits(failures, cooldown, key, j) && failures[j].now <= start + length
              && failures[j].now - start >= Cooldowns(count - 1, cooldown)
    decreases n
  {
    j := 0;
    if n > 0 {
      j := LastIsLate(failures, cooldown, key, start, length, n - 1);
      if EmissionsIn(failures, cooldown, key, start, length, n)
         > EmissionsIn(failures, cooldown, key, start, length, n - 1)
      {
        if EmissionsIn(failures, cooldown, key, start, length, n - 1) > 0 {
          Spaced(failures, cooldown, key, j, n - 1);
        }
        j := n - 1;
      }
    }
  }

  /** An interval of length `length` holds at most length / cooldown + 1 broadcasts of a key. */
  lemma RateBound(failures: seq<Failure>, cooldown: nat, key: Key, start: int, length: nat)
    requires InOrder(failures) && cooldown > 0
    ensures EmissionsIn(failures, cooldown, key, start, length, |failures|) <= length / cooldown + 1
  {
    var j := LastIsLate(failures, cooldown, key, start, length, |failures|);
    var count := EmissionsIn(failures, cooldown, key, start, length, |failures|);
    if count > 0 {
      CooldownsAre(count - 1, cooldown);
      QuotientAtLeast(count - 1, cooldown, length);
    }
  }

  lemma QuotientAtLeast(n: nat, divisor: nat, length: nat)
    requires divisor > 0 && n * divisor <= length
    ensures n <= length / divisor
  {
    var quotient := length / divisor;
    ProductGrows(quotient + 1, n, divisor);
    assert (quotient + 1) * divisor == quotient * divisor + divisor > length;
  }

  lemma {:induction false} ProductGrows(a: nat, b: nat, factor: nat)
    ensures a <= b ==> a * factor <= b * factor
    decreases b
  {
    if a < b {
      ProductGrows(a, b - 1, factor);
      assert b * factor == (b - 1) * factor + factor;
    }
  }
}
