/** The successor's UDP read pump: which datagrams it keeps, relays to the predecessor, buffers or drops. */
module SuccessorPump {
  import opened Options
  import opened CallIds

  const PENDING_CAP: nat := 64
  const PENDING_TTL_MS: int := 3000
  const MANIFEST_FRESH_MS: int := 10000

  /** A datagram as the SIP parser sees it; `stampable` says whether its Via can be stamped with the source. */
  datatype Message =
    | Garbage
    | Request(callId: Option<string>, cancel: bool, toTag: bool, stampable: bool)
    | Response(callId: Option<string>, stampable: bool)

  /** A datagram, numbered in order of arrival. */
  datatype Received = Received(uid: nat, m: Message)

  datatype Pending = Pending(at: int, d: Received)

  /** What the successor knows: the predecessor's call-ids, when it heard them, and what it is holding back. */
  datatype Runtime = Runtime(oldCalls: set<string>, manifestMs: int, pending: seq<Pending>)

  predicate PredecessorAlive(rt: Runtime, now: int) {
    rt.manifestMs > 0 && now - rt.manifestMs <= MANIFEST_FRESH_MS
  }

  datatype Verdict = Local | Relay | Buffer | Drop

  /** The decision about one datagram; `locallyKnown` says whether the successor itself has its call. */
  function Decide(rt: Runtime, m: Message, locallyKnown: bool, now: int): Verdict {
    if m.Garbage? || m.callId.None? then Local
    else
      var owned := OldCallKnown(rt.oldCalls, m.callId.value);
      if m.Request? then
        if (m.toTag || (m.cancel && owned)) && !locallyKnown then
          if PredecessorAlive(rt, now) then Relay else Buffer
        else Local
      else if owned then
        if PredecessorAlive(rt, now) then Relay else Drop
      else Local
  }

  function Buffered(rt: Runtime, p: Pending): Runtime {
    rt.(pending := (if |rt.pending| >= PENDING_CAP then rt.pending[1..] else rt.pending) + [p])
  }

  function Manifested(rt: Runtime, callIds: seq<string>, now: int): Runtime {
    Runtime(ToSet(callIds), now, [])
  }

  /** The runtime object that the pump and the manifest handler share. */
  class RollingRuntime {
    var oldCalls: set<string>
    var manifestMs: int
    var pending: seq<Pending>

    ghost function State(): Runtime
      reads this
    {
      Runtime(oldCalls, manifestMs, pending)
    }

    constructor ()
      ensures State() == Runtime({}, 0, [])
    {
      oldCalls, manifestMs, pending := {}, 0, [];
    }

    /** Replaces the manifest and hands over everything held back, for the flush task to forward. */
    method NoteManifest(callIds: seq<string>, now: int) returns (flush: seq<Pending>)
      modifies this
      ensures State() == Manifested(old(State()), callIds, now)
      ensures flush == old(pending)
    {
      oldCalls := {};
      for i := 0 to |callIds|
        invariant oldCalls == ToSet(callIds[..i])
        invariant pending == old(pending)
      {
        oldCalls := oldCalls + {callIds[i]};
      }
      assert callIds[..|callIds|] == callIds;
      manifestMs := now;
      flush := pending;
      pending := [];
    }

    method BufferPending(p: Pending)
      modifies this`pending
      ensures State() == Buffered(old(State()), p)
    {
      if |pending| >= PENDING_CAP {
        pending := pending[1..];
      }
      pending := pending + [p];
    }

    method PumpInbound(d: Received, locallyKnown: bool, now: int) returns (v: Verdict)
      modifies this`pending
      ensures v == Decide(old(State()), d.m, locallyKnown, now)
      ensures State() == if v == Buffer then Buffered(old(State()), Pending(now, d)) else old(State())
    {
      if d.m.Garbage? || d.m.callId.None? {
        return Local;
      }
      var callId := d.m.callId.value;
      var alive := manifestMs > 0 && now - manifestMs <= MANIFEST_FRESH_MS;
      if d.m.Request? {
        var owned := OldCallKnown(oldCalls, callId);
        var inDialogForPredecessor := (d.m.toTag || (d.m.cancel && owned)) && !locallyKnown;
        if inDialogForPredecessor {
          if alive {
            return Relay;
          }
          BufferPending(Pending(now, d));
          return Buffer;
        }
        return Local;
      }
      if OldCallKnown(oldCalls, callId) {
        return if alive then Relay else Drop;
      }
      v := Local;
    }
  }

  // ---- the ledger of a whole run

  datatype Fate = Injected | Relayed | DroppedResponse | Unusable | HeldBack | Evicted | Flushing | Expired

  /** A datagram as it was read: the message, and whether the successor itself had its call then. */
  datatype Arrival = Arrival(m: Message, locallyKnown: bool)

  /**
   * The runtime, the entries taken over by flush tasks, every datagram read so far and its fate, the relay POSTs and
   * local injections made, and the entries buffered since the last flush.
   */
  datatype Ledger = Ledger(
    rt: Runtime, flushing: seq<Pending>, arrived: seq<Arrival>, fates: seq<Fate>,
    relays: seq<nat>, injections: seq<nat>, since: seq<Pending>)

  datatype Event =
    | Datagram(m: Message, locallyKnown: bool, now: int)   // the pump reads one
    | Manifest(callIds: seq<string>, now: int)             // a manifest arrives
    | FlushOne(index: nat, now: int)                       // a flush task gets to one of its entries

  const EMPTY := Ledger(Runtime({}, 0, []), [], [], [], [], [], [])

  function Uids(entries: seq<Pending>): (uids: seq<nat>)
    ensures |uids| == |entries|
    ensures forall k | 0 <= k < |entries| :: uids[k] == entries[k].d.uid
  {
    seq(|entries|, k requires 0 <= k < |entries| => entries[k].d.uid)
  }

  /** The fate of a datagram the pump did not hand to the relay path. */
  function LocalFate(m: Message): Fate {
    if m.Garbage? || !m.stampable then Unusable else Injected
  }

  function Refate(fates: seq<Fate>, uids: seq<nat>, fate: Fate): (fates': seq<Fate>)
    ensures |fates'| == |fates|
    ensures forall u | 0 <= u < |fates| :: fates'[u] == if u in uids then fate else fates[u]
  {
    seq(|fates|, u requires 0 <= u < |fates| => if u in uids then fate else fates[u])
  }

  function HoldBack(s: Ledger, p: Pending): Ledger {
    var evicted := if |s.rt.pending| >= PENDING_CAP then [s.rt.pending[0].d.uid] else [];
    s.(rt := Buffered(s.rt, p), fates := Refate(s.fates, evicted, Evicted) + [HeldBack], since := s.since + [p])
  }

  function Step(s: Ledger, e: Event): Ledger {
    match e
    case Datagram(m, locallyKnown, now) =>
      var uid := |s.fates|;
      var s := s.(arrived := s.arrived + [Arrival(m, locallyKnown)]);
      (match Decide(s.rt, m, locallyKnown, now)
       case Local =>
         s.(fates := s.fates + [LocalFate(m)],
            injections := if LocalFate(m) == Injected then s.injections + [uid] else s.injections)
       case Relay => s.(fates := s.fates + [Relayed], relays := s.relays + [uid])
       case Drop => s.(fates := s.fates + [DroppedResponse])
       case Buffer => HoldBack(s, Pending(now, Received(uid, m))))
    case Manifest(callIds, now) =>
      s.(rt := Manifested(s.rt, callIds, now), flushing := s.flushing + s.rt.pending,
         fates := Refate(s.fates, Uids(s.rt.pending), Flushing), since := [])
    case FlushOne(index, now) =>
      if index >= |s.flushing| then s
      else
        var p := s.flushing[index];
        var late := now - p.at > PENDING_TTL_MS;
        s.(flushing := s.flushing[..index] + s.flushing[index + 1..],
           fates := Refate(s.fates, [p.d.uid], if late then Expired else Relayed),
           relays := if late then s.relays else s.relays + [p.d.uid])
  }

  function Run(events: seq<Event>): Ledger {
    if events == [] then EMPTY else Step(Run(events[..|events| - 1]), events[|events| - 1])
  }

  // ---- what every run keeps

  ghost predicate Distinct(uids: seq<nat>) {
    forall j, k | 0 <= j < k < |uids| :: uids[j] != uids[k]
  }

  /** The list holds exactly the datagrams of the given fate, each once. */
  ghost predicate Lists(uids: seq<nat>, fates: seq<Fate>, fate: Fate) {
    Distinct(uids) && forall u: nat :: u in uids <==> u < |fates| && fates[u] == fate
  }

  ghost function Newest(entries: seq<Pending>, cap: nat): seq<Pending> {
    if |entries| <= cap then entries else entries[|entries| - cap..]
  }

  ghost predicate Accounted(s: Ledger) {
    && Lists(Uids(s.rt.pending), s.fates, HeldBack)
    && Lists(Uids(s.flushing), s.fates, Flushing)
    && Lists(s.relays, s.fates, Relayed)
    && Lists(s.injections, s.fates, Injected)
    && s.rt.pending == Newest(s.since, PENDING_CAP)
  }

  lemma ListsNewFate(uids: seq<nat>, fates: seq<Fate>, fate: Fate, new_: Fate)
    requires Lists(uids, fates, fate)
    ensures Lists(if new_ == fate then uids + [|fates|] else uids, fates + [new_], fate)
  {
    if new_ == fate {
      var uids' := uids + [|fates|];
      assert forall k | 0 <= k < |uids| :: uids'[k] in uids;
      forall u: nat ensures u in uids' <==> u < |fates| + 1 && (fates + [new_])[u] == fate {
      }
    }
  }

  /** Taking datagrams out of one fate and into another leaves every other fate's list alone. */
  lemma ListsRefateOther(uids: seq<nat>, fates: seq<Fate>, fate: Fate, moved: seq<nat>, to: Fate, from: Fate)
    requires Lists(uids, fates, fate) && fate != from && fate != to
    requires forall u | u in moved :: u < |fates| && fates[u] == from
    ensures Lists(uids, Refate(fates, moved, to), fate)
  {
  }

  lemma ListsRefateInto(uids: seq<nat>, fates: seq<Fate>, fate: Fate, moved: seq<nat>, from: Fate)
    requires Lists(uids, fates, fate) && fate != from && Distinct(moved)
    requires forall u | u in moved :: u < |fates| && fates[u] == from
    ensures Lists(uids + moved, Refate(fates, moved, fate), fate)
  {
    var all := uids + moved;
    assert forall k | 0 <= k < |uids| :: uids[k] in uids;
    assert forall k | 0 <= k < |moved| :: moved[k] in moved;
    assert forall k | 0 <= k < |all| :: all[k] == if k < |uids| then uids[k] else moved[k - |uids|];
  }

  lemma WithoutOne(uids: seq<nat>, index: nat)
    requires index < |uids| && forall j, k | 0 <= j < k < |uids| :: uids[j] != uids[k]
    ensures var uids' := uids[..index] + uids[index + 1..];
            && (forall j, k | 0 <= j < k < |uids'| :: uids'[j] != uids'[k])
            && forall u: nat :: u in uids' <==> u in uids && u != uids[index]
  {
    var uids' := uids[..index] + uids[index + 1..];
    assert forall k | 0 <= k < |uids'| :: uids'[k] == if k < index then uids[k] else uids[k + 1];
    assert uids == uids[..index] + [uids[index]] + uids[index + 1..];
    forall u: nat ensures u in uids' <==> u in uids && u != uids[index] {
      if u in uids' {
        var k :| 0 <= k < |uids'| && uids'[k] == u;
        assert uids[if k < index then k else k + 1] == u;
      }
    }
  }

  lemma ListsRefateOut(uids: seq<nat>, fates: seq<Fate>, from: Fate, index: nat, to: Fate)
    requires Lists(uids, fates, from) && index < |uids| && from != to
    ensures Lists(uids[..index] + uids[index + 1..], Refate(fates, [uids[index]], to), from)
  {
    WithoutOne(uids, index);
  }

  lemma ListsEmptied(uids: seq<nat>, fates: seq<Fate>, from: Fate, to: Fate)
    requires Lists(uids, fates, from) && from != to
    ensures Lists([], Refate(fates, uids, to), from)
  {
  }

  lemma DatagramAccounted(s: Ledger, m: Message, locallyKnown: bool, now: int)
    requires Accounted(s) && Decide(s.rt, m, locallyKnown, now) != Buffer
    ensures Accounted(Step(s, Datagram(m, locallyKnown, now)))
  {
    var fate := match Decide(s.rt, m, locallyKnown, now)
                case Local => LocalFate(m)
                case Relay => Relayed
                case _ => DroppedResponse;
    ListsNewFate(Uids(s.rt.pending), s.fates, HeldBack, fate);
    ListsNewFate(Uids(s.flushing), s.fates, Flushing, fate);
    ListsNewFate(s.relays, s.fates, Relayed, fate);
    ListsNewFate(s.injections, s.fates, Injected, fate);
  }

  /** The oldest entry leaves a full buffer; its datagram is evicted. */
  lemma EvictionAccounted(s: Ledger)
    requires Accounted(s) && |s.rt.pending| >= PENDING_CAP
    ensures Accounted(s.(rt := s.rt.(pending := s.rt.pending[1..]),
                         fates := Refate(s.fates, [s.rt.pending[0].d.uid], Evicted),
                         since := s.rt.pending[1..]))
  {
    var uids, rest := Uids(s.rt.pending), s.rt.pending[1..];
    assert uids[0] in uids;
    ListsRefateOut(uids, s.fates, HeldBack, 0, Evicted);
    FirstLeaves(s.rt.pending);
    OthersKept(s, [uids[0]], Evicted, HeldBack);
  }

  lemma FirstLeaves(entries: seq<Pending>)
    requires entries != []
    ensures Uids(entries)[..0] + Uids(entries)[1..] == Uids(entries[1..])
  {
  }

  /** Moving datagrams that wait in one place touches none of the other lists. */
  lemma OthersKept(s: Ledger, moved: seq<nat>, to: Fate, from: Fate)
    requires Accounted(s) && forall u | u in moved :: u < |s.fates| && s.fates[u] == from
    requires from == HeldBack && to != Flushing && to != Relayed && to != Injected
    ensures Lists(Uids(s.flushing), Refate(s.fates, moved, to), Flushing)
    ensures Lists(s.relays, Refate(s.fates, moved, to), Relayed)
    ensures Lists(s.injections, Refate(s.fates, moved, to), Injected)
  {
    ListsRefateOther(Uids(s.flushing), s.fates, Flushing, moved, to, from);
    ListsRefateOther(s.relays, s.fates, Relayed, moved, to, from);
    ListsRefateOther(s.injections, s.fates, Injected, moved, to, from);
  }

  lemma AppendAccounted(s: Ledger, p: Pending)
    requires Accounted(s) && |s.rt.pending| < PENDING_CAP && p.d.uid == |s.fates|
    ensures Accounted(s.(rt := s.rt.(pending := s.rt.pending + [p]), fates := s.fates + [HeldBack],
                         since := s.since + [p]))
  {
    assert Uids(s.rt.pending + [p]) == Uids(s.rt.pending) + [|s.fates|];
    ListsNewFate(Uids(s.rt.pending), s.fates, HeldBack, HeldBack);
    ListsNewFate(Uids(s.flushing), s.fates, Flushing, HeldBack);
    ListsNewFate(s.relays, s.fates, Relayed, HeldBack);
    ListsNewFate(s.injections, s.fates, Injected, HeldBack);
  }

  lemma HoldBackAccounted(s: Ledger, p: Pending)
    requires Accounted(s) && p.d.uid == |s.fates|
    ensures Accounted(HoldBack(s, p))
  {
    if |s.rt.pending| >= PENDING_CAP {
      EvictionAccounted(s);
      var rest := s.rt.pending[1..];
      var t := s.(rt := s.rt.(pending := rest), fates := Refate(s.fates, [s.rt.pending[0].d.uid], Evicted),
                  since := rest);
      AppendAccounted(t, p);
      assert Newest(s.since + [p], PENDING_CAP) == rest + [p];
    } else {
      AppendAccounted(s, p);
      assert Refate(s.fates, [], Evicted) == s.fates;
    }
  }

  lemma ManifestAccounted(s: Ledger, callIds: seq<string>, now: int)
    requires Accounted(s)
    ensures Accounted(Step(s, Manifest(callIds, now)))
  {
    var moved := Uids(s.rt.pending);
    ListsEmptied(moved, s.fates, HeldBack, Flushing);
    ListsRefateInto(Uids(s.flushing), s.fates, Flushing, moved, HeldBack);
    assert Uids(s.flushing + s.rt.pending) == Uids(s.flushing) + moved;
    assert Uids([]) == [];
    ListsRefateOther(s.relays, s.fates, Relayed, moved, Flushing, HeldBack);
    ListsRefateOther(s.injections, s.fates, Injected, moved, Flushing, HeldBack);
  }

  lemma FlushAccounted(s: Ledger, index: nat, now: int)
    requires Accounted(s) && index < |s.flushing|
    ensures Accounted(Step(s, FlushOne(index, now)))
  {
    var p := s.flushing[index];
    var to := if now - p.at > PENDING_TTL_MS then Expired else Relayed;
    var uids := Uids(s.flushing);
    assert uids[index] in uids;
    ListsRefateOut(uids, s.fates, Flushing, index, to);
    assert Uids(s.flushing[..index] + s.flushing[index + 1..]) == uids[..index] + uids[index + 1..];
    ListsRefateOther(Uids(s.rt.pending), s.fates, HeldBack, [p.d.uid], to, Flushing);
    ListsRefateOther(s.injections, s.fates, Injected, [p.d.uid], to, Flushing);
    if to == Relayed {
      ListsRefateInto(s.relays, s.fates, Relayed, [p.d.uid], Flushing);
    } else {
      ListsRefateOther(s.relays, s.fates, Relayed, [p.d.uid], to, Flushing);
    }
  }

  lemma StepAccounted(s: Ledger, e: Event)
    requires Accounted(s)
    ensures Accounted(Step(s, e))
  {
    match e
    case Datagram(m, locallyKnown, now) =>
      var s' := s.(arrived := s.arrived + [Arrival(m, locallyKnown)]);
      if Decide(s.rt, m, locallyKnown, now) == Buffer {
        HoldBackAccounted(s', Pending(now, Received(|s.fates|, m)));
      } else {
        DatagramAccounted(s, m, locallyKnown, now);
      }
    case Manifest(callIds, now) =>
      ManifestAccounted(s, callIds, now);
    case FlushOne(index, now) =>
      if index < |s.flushing| { FlushAccounted(s, index, now); }
  }

  lemma EmptyAccounted()
    ensures Accounted(EMPTY)
  {
    assert Uids([]) == [];
  }

  /**
   * Conservation: after every run, each datagram has one fate, and the buffer, the flush tasks, the relay POSTs and
   * the injections hold exactly the datagrams of theirs, each once. So nothing is relayed twice, nothing is both
   * relayed and injected, and the buffer is the newest entries since the last flush, at most 64.
   */
  lemma {:induction false} RunAccounted(events: seq<Event>)
    ensures Accounted(Run(events))
    decreases |events|
  {
    if events == [] {
      EmptyAccounted();
    } else {
      RunAccounted(events[..|events| - 1]);
      StepAccounted(Run(events[..|events| - 1]), events[|events| - 1]);
    }
  }

  /** In particular no datagram is relayed twice, and none is both relayed and injected. */
  lemma RelayedAtMostOnce(events: seq<Event>)
    ensures var s := Run(events);
            && Distinct(s.relays) && Distinct(s.injections)
            && (forall u: nat | u in s.relays ::
                  u !in s.injections && u !in Uids(s.rt.pending) && u !in Uids(s.flushing))
            && |s.rt.pending| <= PENDING_CAP
  {
    RunAccounted(events);
  }

  // ---- which datagrams get which fate

  predicate IsFinal(fate: Fate) {
    fate != HeldBack && fate != Flushing
  }

  /** A request inside a dialog that the successor does not have. */
  predicate InDialog(a: Arrival) {
    a.m.Request? && a.m.toTag && a.m.callId.Some? && !a.locallyKnown
  }

  /** A request that the predecessor may have to answer: one inside a dialog, or a CANCEL. */
  predicate MayBeHeldBack(a: Arrival) {
    a.m.Request? && a.m.callId.Some? && !a.locallyKnown && (a.m.toTag || a.m.cancel)
  }

  /** The fates that a datagram may have. */
  predicate MayHave(a: Arrival, fate: Fate) {
    match fate
    case Injected => !a.m.Garbage? && a.m.stampable && !InDialog(a)
    case Unusable => (a.m.Garbage? || !a.m.stampable) && !InDialog(a)
    case DroppedResponse => a.m.Response? && a.m.callId.Some?
    case Relayed => MayBeHeldBack(a) || (a.m.Response? && a.m.callId.Some?)
    case _ => MayBeHeldBack(a)
  }

  ghost predicate FatesFit(s: Ledger) {
    |s.arrived| == |s.fates| && forall u | 0 <= u < |s.fates| :: MayHave(s.arrived[u], s.fates[u])
  }

  /** Only waiting datagrams change fate: from held back to evicted or flushing, from there to relayed or expired. */
  lemma StepFates(s: Ledger, e: Event, u: nat)
    requires Accounted(s) && u < |s.fates|
    ensures var s' := Step(s, e);
            && u < |s'.fates|
            && (s'.fates[u] == s.fates[u]
                || (s.fates[u] == HeldBack && (s'.fates[u] == Evicted || s'.fates[u] == Flushing))
                || (s.fates[u] == Flushing && (s'.fates[u] == Relayed || s'.fates[u] == Expired)))
  {
    assert forall k | 0 <= k < |s.rt.pending| :: Uids(s.rt.pending)[k] in Uids(s.rt.pending);
    assert forall k | 0 <= k < |s.flushing| :: Uids(s.flushing)[k] in Uids(s.flushing);
  }

  lemma StepFatesFit(s: Ledger, e: Event)
    requires Accounted(s) && FatesFit(s)
    ensures FatesFit(Step(s, e)) && s.arrived <= Step(s, e).arrived
  {
    var s' := Step(s, e);
    forall u | 0 <= u < |s'.fates| ensures MayHave(s'.arrived[u], s'.fates[u]) {
      if u < |s.fates| {
        StepFates(s, e, u);
        assert s'.arrived[u] == s.arrived[u] && MayHave(s.arrived[u], s.fates[u]);
      }
    }
  }

  lemma StepArrives(s: Ledger, e: Event)
    ensures Step(s, e).arrived == s.arrived + (if e.Datagram? then [Arrival(e.m, e.locallyKnown)] else [])
  {
  }

  /** The datagrams of a run, in order of arrival. */
  function Arrivals(events: seq<Event>): seq<Arrival> {
    if events == [] then []
    else
      var e := events[|events| - 1];
      Arrivals(events[..|events| - 1]) + (if e.Datagram? then [Arrival(e.m, e.locallyKnown)] else [])
  }

  /** After every run, each datagram read has one fate, and it is one that such a datagram may have. */
  lemma {:induction false} OneFateEach(events: seq<Event>)
    ensures Run(events).arrived == Arrivals(events) && FatesFit(Run(events))
    decreases |events|
  {
    if events != [] {
      var front, e := events[..|events| - 1], events[|events| - 1];
      OneFateEach(front);
      RunAccounted(front);
      StepFatesFit(Run(front), e);
      StepArrives(Run(front), e);
    }
  }

  /** A fate other than waiting is for good. */
  lemma {:induction false} FinalFateStays(events: seq<Event>, more: seq<Event>, u: nat)
    requires u < |Run(events).fates| && IsFinal(Run(events).fates[u])
    ensures u < |Run(events + more).fates| && Run(events + more).fates[u] == Run(events).fates[u]
    decreases |more|
  {
    if more == [] {
      assert events + more == events;
    } else {
      var front := events + more[..|more| - 1];
      FinalFateStays(events, more[..|more| - 1], u);
      RunAccounted(front);
      assert (events + more)[..|events + more| - 1] == front;
      StepFates(Run(front), more[|more| - 1], u);
    }
  }
}
