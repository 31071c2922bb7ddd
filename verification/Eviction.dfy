/** Paced eviction: idle client connections are closed a batch per round so that they re-home on the successor. */
module Eviction {
  import opened Options

  const EVICT_BATCH_CAP: nat := 20

  /** A registered connection closer: the kind of connection, and the peer's address. */
  datatype Key = Key(kind: string, ip: string, port: nat)

  /** The peers of live dialogs, as host and port of their contacts. */
  type BusySet = set<(string, nat)>

  predicate IsBusy(busy: BusySet, key: Key) {
    (key.ip, key.port) in busy
  }

  /** A snapshot of the registry, in whatever order it is iterated. */
  ghost predicate Snapshot(order: seq<Key>, registered: set<Key>) {
    && (forall j, k | 0 <= j < k < |order| :: order[j] != order[k])
    && (forall key :: key in order <==> key in registered)
  }

  function IdleKeys(order: seq<Key>, busy: BusySet): seq<Key> {
    if order == [] then []
    else IdleKeys(order[..|order| - 1], busy) + (if IsBusy(busy, order[|order| - 1]) then [] else [order[|order| - 1]])
  }

  /** The next batch: the first idle keys, capped, but never none when there are some. */
  function SelectBatch(idle: seq<Key>, cap: nat): seq<Key> {
    var n := if cap < 1 then 1 else cap;
    if |idle| <= n then idle else idle[..n]
  }

  ghost function ToSet(keys: seq<Key>): set<Key> {
    set key | key in keys
  }

  lemma {:induction false} IdleKeysAre(order: seq<Key>, registered: set<Key>, busy: BusySet)
    requires Snapshot(order, registered)
    ensures forall key :: key in IdleKeys(order, busy) <==> key in registered && !IsBusy(busy, key)
    ensures forall j, k | 0 <= j < k < |IdleKeys(order, busy)| :: IdleKeys(order, busy)[j] != IdleKeys(order, busy)[k]
    decreases |order|
  {
    if order != [] {
      var front, last := order[..|order| - 1], order[|order| - 1];
      assert order == front + [last];
      assert Snapshot(front, registered - {last});
      IdleKeysAre(front, registered - {last}, busy);
      var idle := IdleKeys(front, busy);
      assert forall k | 0 <= k < |idle| :: idle[k] in idle && idle[k] != last;
    }
  }

  /** What other parts of the process do to the registry. */
  datatype RegistryEvent = Registers(key: Key) | Unregisters(key: Key)

  /** A closer that was called, under the key it was registered for. */
  datatype Closing = Closing(key: Key, closer: nat)

  function KeysOf(closed: seq<Closing>): (keys: seq<Key>)
    ensures |keys| == |closed| && forall k | 0 <= k < |closed| :: keys[k] == closed[k].key
  {
    seq(|closed|, k requires 0 <= k < |closed| => closed[k].key)
  }

  /** The closers called are of distinct keys out of the batch, no more than it has. */
  ghost predicate FromBatch(newly: seq<Closing>, batch: seq<Key>) {
    && |newly| <= |batch|
    && (forall k | 0 <= k < |newly| :: newly[k].key in batch)
    && (forall j, k | 0 <= j < k < |newly| :: newly[j].key != newly[k].key)
  }

  /** The closers called, when `marks` says for each key of the batch which closer was found for it, if any. */
  function Marked(batch: seq<Key>, marks: seq<Option<nat>>): seq<Closing>
    requires |marks| <= |batch|
  {
    if marks == [] then []
    else
      var n := |marks| - 1;
      Marked(batch, marks[..n]) + (if marks[n].Some? then [Closing(batch[n], marks[n].value)] else [])
  }

  lemma MarkedNext(batch: seq<Key>, marks: seq<Option<nat>>, mark: Option<nat>)
    requires |marks| < |batch|
    ensures Marked(batch, marks + [mark])
            == Marked(batch, marks) + (if mark.Some? then [Closing(batch[|marks|], mark.value)] else [])
  {
    assert (marks + [mark])[..|marks|] == marks;
  }

  ghost predicate DistinctKeys(keys: seq<Key>) {
    forall j, k | 0 <= j < k < |keys| :: keys[j] != keys[k]
  }

  lemma FromBatchNext(newly: seq<Closing>, done: seq<Key>, key: Key, mark: Option<nat>)
    requires FromBatch(newly, done) && key !in done
    ensures FromBatch(newly + (if mark.Some? then [Closing(key, mark.value)] else []), done + [key])
  {
    var longer := newly + (if mark.Some? then [Closing(key, mark.value)] else []);
    assert forall k | 0 <= k < |newly| :: longer[k] == newly[k] && newly[k].key in done;
  }

  lemma {:induction false} MarkedFromBatch(batch: seq<Key>, marks: seq<Option<nat>>)
    requires |marks| <= |batch| && DistinctKeys(batch)
    ensures FromBatch(Marked(batch, marks), batch[..|marks|])
    decreases |marks|
  {
    if marks != [] {
      var n := |marks| - 1;
      MarkedFromBatch(batch, marks[..n]);
      FromBatchNext(Marked(batch, marks[..n]), batch[..n], batch[n], marks[n]);
      assert batch[..|marks|] == batch[..n] + [batch[n]];
    }
  }

  lemma {:induction false} MarkedAll(batch: seq<Key>, marks: seq<Option<nat>>)
    requires |marks| <= |batch| && forall k | 0 <= k < |marks| :: marks[k].Some?
    ensures KeysOf(Marked(batch, marks)) == batch[..|marks|]
    decreases |marks|
  {
    if marks != [] {
      var n := |marks| - 1;
      MarkedAll(batch, marks[..n]);
      assert batch[..|marks|] == batch[..n] + [batch[n]];
    }
  }

  /** Nothing else happened: for each key done a closer was found, and it is gone from the registry. */
  ghost predicate AllDone(before: set<Key>, now: set<Key>, batch: seq<Key>, marks: seq<Option<nat>>) {
    && |marks| <= |batch| && now == before - ToSet(batch[..|marks|])
    && forall k | 0 <= k < |marks| :: marks[k].Some?
  }

  lemma NextRegistered(before: set<Key>, now: set<Key>, batch: seq<Key>, marks: seq<Option<nat>>)
    requires AllDone(before, now, batch, marks) && |marks| < |batch| && DistinctKeys(batch) && ToSet(batch) <= before
    ensures batch[|marks|] in now
    ensures forall closer :: AllDone(before, now - {batch[|marks|]}, batch, marks + [Some(closer)])
  {
    var i := |marks|;
    assert batch[i] in ToSet(batch);
    assert batch[..i + 1] == batch[..i] + [batch[i]];
  }

  /** A batch is made of distinct registered keys that are not busy, at most 20. */
  lemma BatchIs(order: seq<Key>, registered: set<Key>, busy: BusySet)
    requires Snapshot(order, registered)
    ensures var batch := SelectBatch(IdleKeys(order, busy), EVICT_BATCH_CAP);
            && DistinctKeys(batch) && ToSet(batch) <= registered && |batch| <= EVICT_BATCH_CAP
            && forall key | key in batch :: key in registered && !IsBusy(busy, key)
  {
    IdleKeysAre(order, registered, busy);
    var idle := IdleKeys(order, busy);
    var batch := SelectBatch(idle, EVICT_BATCH_CAP);
    assert forall k | 0 <= k < |batch| :: batch[k] == idle[k] && idle[k] in idle;
  }

  /** So are the keys of the closers called. */
  lemma ClosedFromBatch(batch: seq<Key>, marks: seq<Option<nat>>)
    requires |marks| == |batch| && DistinctKeys(batch)
    ensures FromBatch(Marked(batch, marks), batch)
    ensures (forall k | 0 <= k < |marks| :: marks[k].Some?) ==> KeysOf(Marked(batch, marks)) == batch
  {
    assert batch[..|marks|] == batch;
    MarkedFromBatch(batch, marks);
    if forall k | 0 <= k < |marks| :: marks[k].Some? { MarkedAll(batch, marks); }
  }

  /** The registry of closers, numbered as they are registered, and a record of every closer called. */
  class Evictor {
    var registered: map<Key, nat>
    var issued: nat
    var closed: seq<Closing>

    /** A closer is called at most once: it leaves the registry first. */
    ghost predicate Valid()
      reads this
    {
      && (forall key | key in registered :: registered[key] < issued && Closing(key, registered[key]) !in closed)
      && (forall call | call in closed :: call.closer < issued)
      && (forall j, k | 0 <= j < k < |closed| :: closed[j] != closed[k])
    }

    constructor ()
      ensures Valid() && registered == map[] && closed == []
    {
      registered, issued, closed := map[], 0, [];
    }

    /** A connection registers its closer; one registered under the same key before is forgotten. */
    method Register(key: Key)
      requires Valid()
      modifies this
      ensures Valid() && registered == old(registered)[key := old(issued)] && closed == old(closed)
    {
      registered := registered[key := issued];
      issued := issued + 1;
    }

    method Unregister(key: Key)
      requires Valid()
      modifies this
      ensures Valid() && registered == old(registered) - {key} && closed == old(closed) && issued == old(issued)
    {
      registered := registered - {key};
    }

    /** Connections come and go while the round sleeps. */
    method Pause(events: seq<RegistryEvent>)
      requires Valid()
      modifies this
      ensures Valid() && closed == old(closed)
      ensures events == [] ==> registered == old(registered)
    {
      for i := 0 to |events|
        invariant Valid() && closed == old(closed) && (events == [] ==> registered == old(registered))
      {
        match events[i]
        case Registers(key) => Register(key);
        case Unregisters(key) => Unregister(key);
      }
    }

    /** Takes a closer out of the registry and calls it. */
    method Close(key: Key)
      requires Valid() && key in registered
      modifies this
      ensures Valid() && registered == old(registered) - {key} && issued == old(issued)
      ensures closed == old(closed) + [Closing(key, old(registered)[key])]
    {
      var closer := registered[key];
      registered := registered - {key};
      closed := closed + [Closing(key, closer)];
    }

    /** Closes a connection if it is still registered, and pauses. */
    method CloseOne(key: Key, events: seq<RegistryEvent>) returns (did: bool)
      requires Valid()
      modifies this
      ensures Valid() && did == (key in old(registered))
      ensures if did then closed == old(closed) + [Closing(key, old(registered)[key])]
              else closed == old(closed) && registered == old(registered)
      ensures did && events == [] ==> registered.Keys == old(registered).Keys - {key}
    {
      did := key in registered;
      if did {
        Close(key);
        Pause(events);
      }
    }

    /** Closes the batch, one connection after the other; `pause(i)` is what happens in the pause after the i-th. */
    method CloseBatch(batch: seq<Key>, pause: nat -> seq<RegistryEvent>)
      returns (evicted: nat, ghost marks: seq<Option<nat>>)
      requires Valid() && DistinctKeys(batch)
      modifies this
      ensures Valid() && |marks| == |batch|
      ensures closed == old(closed) + Marked(batch, marks) && evicted == |Marked(batch, marks)|
      ensures (forall i :: pause(i) == []) && ToSet(batch) <= old(registered).Keys ==>
                AllDone(old(registered).Keys, registered.Keys, batch, marks)
    {
      evicted, marks := 0, [];
      ghost var calm := (forall i :: pause(i) == []) && ToSet(batch) <= old(registered).Keys;
      for i := 0 to |batch|
        invariant Valid() && |marks| == i
        invariant closed == old(closed) + Marked(batch, marks) && evicted == |Marked(batch, marks)|
        invariant calm ==> AllDone(old(registered).Keys, registered.Keys, batch, marks)
      {
        ghost var was := registered;
        if calm { NextRegistered(old(registered).Keys, was.Keys, batch, marks); }
        var did := CloseOne(batch[i], pause(i));
        ghost var mark := if did then Some(was[batch[i]]) else None;
        MarkedNext(batch, marks, mark);
        marks := marks + [mark];
        if did {
          evicted := evicted + 1;
        }
      }
    }

    /** One round; `gated` is the busy gate and `order` the iteration order of the registry. */
    method Round(gated: bool, busy: BusySet, order: seq<Key>, pause: nat -> seq<RegistryEvent>)
      returns (evicted: nat, ghost newly: seq<Closing>)
      requires Valid() && Snapshot(order, registered.Keys)
      modifies this
      ensures Valid()
      ensures gated ==> registered == old(registered) && closed == old(closed) && evicted == 0
      ensures closed == old(closed) + newly && |newly| == evicted <= EVICT_BATCH_CAP
      ensures forall k | 0 <= k < |newly| :: newly[k].key in old(registered) && !IsBusy(busy, newly[k].key)
      ensures forall j, k | 0 <= j < k < |newly| :: newly[j].key != newly[k].key
      ensures !gated && (forall i :: pause(i) == []) ==>
                && registered.Keys == AfterRound(old(registered).Keys, busy, order)
                && KeysOf(newly) == SelectBatch(IdleKeys(order, busy), EVICT_BATCH_CAP)
    {
      if gated {
        return 0, [];
      }
      var idle := FindIdle(order, busy);
      var batch := SelectBatch(idle, EVICT_BATCH_CAP);
      BatchIs(order, registered.Keys, busy);
      ghost var marks;
      evicted, marks := CloseBatch(batch, pause);
      newly := Marked(batch, marks);
      ClosedFromBatch(batch, marks);
    }
  }

  method FindIdle(order: seq<Key>, busy: BusySet) returns (idle: seq<Key>)
    ensures idle == IdleKeys(order, busy)
  {
    idle := [];
    for i := 0 to |order|
      invariant idle == IdleKeys(order[..i], busy)
    {
      assert order[..i + 1][..i] == order[..i];
      if !IsBusy(busy, order[i]) {
        idle := idle + [order[i]];
      }
    }
    assert order[..|order|] == order;
  }

  // ---- how many rounds it takes

  ghost function Idle(registered: set<Key>, busy: BusySet): set<Key> {
    set key | key in registered && !IsBusy(busy, key)
  }

  /** The registry after an undisturbed, ungated round. */
  ghost function AfterRound(registered: set<Key>, busy: BusySet, order: seq<Key>): set<Key> {
    registered - ToSet(SelectBatch(IdleKeys(order, busy), EVICT_BATCH_CAP))
  }

  /** A series of such rounds with a fixed busy set and no new registrations. */
  ghost predicate Rounds(registries: seq<set<Key>>, orders: seq<seq<Key>>, busy: BusySet) {
    && |registries| == |orders| + 1
    && forall k | 0 <= k < |orders| ::
         Snapshot(orders[k], registries[k]) && registries[k + 1] == AfterRound(registries[k], busy, orders[k])
  }

  lemma {:induction false} SetSize(keys: seq<Key>)
    requires forall j, k | 0 <= j < k < |keys| :: keys[j] != keys[k]
    ensures |ToSet(keys)| == |keys|
    decreases |keys|
  {
    if keys == [] {
      assert ToSet(keys) == {};
    } else {
      var front, last := keys[..|keys| - 1], keys[|keys| - 1];
      assert keys == front + [last];
      SetSize(front);
      assert ToSet(keys) == ToSet(front) + {last};
      assert last !in ToSet(front);
    }
  }

  lemma RoundShrinks(registered: set<Key>, busy: BusySet, order: seq<Key>)
    requires Snapshot(order, registered)
    ensures var registered' := AfterRound(registered, busy, order);
            var n := |Idle(registered, busy)|;
            && |Idle(registered', busy)| == (if n <= EVICT_BATCH_CAP then 0 else n - EVICT_BATCH_CAP)
            && registered' - Idle(registered', busy) == registered - Idle(registered, busy)
  {
    IdleKeysAre(order, registered, busy);
    var idle := IdleKeys(order, busy);
    var batch := SelectBatch(idle, EVICT_BATCH_CAP);
    var registered' := AfterRound(registered, busy, order);
    assert forall k | 0 <= k < |batch| :: batch[k] == idle[k] && idle[k] in idle;
    SetSize(idle);
    SetSize(batch);
    assert ToSet(idle) == Idle(registered, busy);
    assert ToSet(batch) <= Idle(registered, busy);
    assert Idle(registered', busy) == Idle(registered, busy) - ToSet(batch);
  }

  /** After k rounds, 20k idle connections fewer; the busy ones are untouched throughout. */
  lemma {:induction false} RoundsShrink(registries: seq<set<Key>>, orders: seq<seq<Key>>, busy: BusySet, k: nat)
    requires Rounds(registries, orders, busy) && k <= |orders|
    ensures var n := |Idle(registries[0], busy)|;
            && |Idle(registries[k], busy)| == (if n <= k * EVICT_BATCH_CAP then 0 else n - k * EVICT_BATCH_CAP)
            && registries[k] - Idle(registries[k], busy) == registries[0] - Idle(registries[0], busy)
    decreases k
  {
    if k > 0 {
      RoundsShrink(registries, orders, busy, k - 1);
      RoundShrinks(registries[k - 1], busy, orders[k - 1]);
    }
  }

  /** Exactly ceil(n / 20) rounds: then, and not before, only the busy connections are left. */
  lemma RoundsNeeded(registries: seq<set<Key>>, orders: seq<seq<Key>>, busy: BusySet, k: nat)
    requires Rounds(registries, orders, busy) && k <= |orders|
    ensures var n := |Idle(registries[0], busy)|;
            (registries[k] == (set key | key in registries[0] && IsBusy(busy, key)))
            <==> (n + EVICT_BATCH_CAP - 1) / EVICT_BATCH_CAP <= k
  {
    RoundsShrink(registries, orders, busy, k);
    var left := registries[0] - Idle(registries[0], busy);
    assert left == set key | key in registries[0] && IsBusy(busy, key);
    assert registries[k] == left <==> Idle(registries[k], busy) == {} by {
      if Idle(registries[k], busy) == {} {
        assert registries[k] - {} == registries[k];
      }
    }
    assert Idle(registries[k], busy) == {} <==> |Idle(registries[k], busy)| == 0;
  }
}
