/**
 * Who answers for a call during a handover. The predecessor's dialogs only end; it pushes manifests of the ones
 * still live, which may arrive late, out of order or more than once; the successor decides about every datagram.
 */
module Ownership {
  import opened Options
  import opened CallIds
  import opened SuccessorPump

  /**
   * The predecessor's live dialogs, the manifests pushed so far (any of them may yet arrive), the successor with
   * everything it has read, whether it has applied a manifest, and whether the last one it applied could be read.
   */
  datatype Pair = Pair(live: set<Dialog>, pushed: set<seq<string>>, ledger: Ledger, applied: bool, readable: bool)

  /** `ids` lists the ids of the dialogs, in whatever order the dialog layer gives them. */
  ghost predicate ListsIds(live: set<Dialog>, ids: seq<string>) {
    forall id :: id in ids <==> exists d | d in live :: d.Id() == id
  }

  datatype Move =
    | EndCall(d: Dialog)                                 // a dialog of the predecessor ends
    | Push(ids: seq<string>)                             // the predecessor pushes a manifest
    | Arrive(manifest: seq<string>, now: int)            // a pushed manifest reaches the successor
    | Pump(m: Message, locallyKnown: bool, now: int)     // the successor reads a datagram
    | Flush(index: nat, now: int)                        // the successor gets to a datagram it has held back

  ghost predicate Step(s: Pair, move: Move, s': Pair) {
    match move
    case EndCall(d) => s' == s.(live := s.live - {d})
    case Push(ids) => ListsIds(s.live, ids) && s' == s.(pushed := s.pushed + {LiveCallIds(ids)})
    case Arrive(manifest, now) =>
      && manifest in s.pushed
      && s' == s.(ledger := SuccessorPump.Step(s.ledger, Manifest(ReadManifest(manifest), now)), applied := true,
                  readable := BodyBytes(manifest) <= MAX_BODY_BYTES)
    case Pump(m, locallyKnown, now) =>
      s' == s.(ledger := SuccessorPump.Step(s.ledger, Datagram(m, locallyKnown, now)))
    case Flush(index, now) =>
      s' == s.(ledger := SuccessorPump.Step(s.ledger, FlushOne(index, now)))
  }

  ghost predicate Init(s: Pair) {
    s.pushed == {} && s.ledger == EMPTY && !s.applied && s.readable
  }

  ghost predicate Run(run: seq<Pair>, moves: seq<Move>) {
    && |run| == |moves| + 1 && Init(run[0])
    && forall k {:trigger moves[k]} | 0 <= k < |moves| :: Step(run[k], moves[k], run[k + 1])
  }

  /** The manifest recognises every call in the set. */
  ghost predicate Recognises(known: set<string>, live: set<Dialog>) {
    forall d | d in live :: OldCallKnown(known, d.callId)
  }

  ghost predicate Inv(s: Pair) {
    && (forall manifest | manifest in s.pushed :: Recognises(ToSet(manifest), s.live))
    && (s.applied ==> if s.readable then Recognises(s.ledger.rt.oldCalls, s.live) else s.ledger.rt.oldCalls == {})
    && Accounted(s.ledger) && FatesFit(s.ledger)
  }

  lemma PushRecognises(live: set<Dialog>, ids: seq<string>)
    requires ListsIds(live, ids)
    ensures Recognises(ToSet(LiveCallIds(ids)), live)
  {
    forall d | d in live ensures OldCallKnown(ToSet(LiveCallIds(ids)), d.callId) {
      assert d.Id() in ids;
      LiveCallKnown(ids, d);
    }
  }

  /** What reading a datagram or flushing one leaves of the manifest: all of it. */
  lemma LedgerStep(s: Ledger, e: Event)
    requires Accounted(s) && FatesFit(s)
    ensures Accounted(SuccessorPump.Step(s, e)) && FatesFit(SuccessorPump.Step(s, e))
    ensures s.arrived <= SuccessorPump.Step(s, e).arrived
    ensures SuccessorPump.Step(s, e).rt.oldCalls == if e.Manifest? then ToSet(e.callIds) else s.rt.oldCalls
  {
    StepAccounted(s, e);
    StepFatesFit(s, e);
  }

  lemma StepKeepsInv(s: Pair, move: Move, s': Pair)
    requires Inv(s) && Step(s, move, s')
    ensures Inv(s')
  {
    match move
    case EndCall(d) =>
    case Push(ids) => PushRecognises(s.live, ids);
    case Arrive(manifest, now) =>
      LedgerStep(s.ledger, Manifest(ReadManifest(manifest), now));
      assert Recognises(ToSet(manifest), s.live);
    case Pump(m, locallyKnown, now) => LedgerStep(s.ledger, Datagram(m, locallyKnown, now));
    case Flush(index, now) => LedgerStep(s.ledger, FlushOne(index, now));
  }

  lemma {:induction false} RunKeepsInv(run: seq<Pair>, moves: seq<Move>, n: nat)
    requires Run(run, moves) && n < |run|
    ensures Inv(run[n])
    decreases n
  {
    if n == 0 {
      EmptyAccounted();
    } else {
      RunKeepsInv(run, moves, n - 1);
      StepKeepsInv(run[n - 1], moves[n - 1], run[n]);
    }
  }

  /** A response belongs to a call that the predecessor still has. */
  ghost predicate ForLiveCall(s: Pair, m: Message) {
    !m.Garbage? && m.callId.Some? && exists d | d in s.live :: d.callId == m.callId.value
  }

  /**
   * Ownership: once a manifest has been applied, and the last one applied could be read, a response for a call that
   * is live on the predecessor is never injected into the successor, whatever the order the manifests came in.
   */
  lemma ResponseNeverStolen(run: seq<Pair>, moves: seq<Move>, n: nat, m: Message, locallyKnown: bool, now: int)
    requires Run(run, moves) && n < |run| && run[n].applied && run[n].readable
    requires m.Response? && ForLiveCall(run[n], m)
    ensures Decide(run[n].ledger.rt, m, locallyKnown, now) in {Relay, Drop}
  {
    RunKeepsInv(run, moves, n);
  }

  /** Entries are only ever added, one for every datagram read. */
  lemma EntriesGrow(s: Pair, move: Move, s': Pair)
    requires Step(s, move, s')
    ensures s'.ledger.arrived
            == s.ledger.arrived + (if move.Pump? then [Arrival(move.m, move.locallyKnown)] else [])
  {
  }

  /** The datagram that a move reads is entered with its message, and its entry stays. */
  lemma {:induction false} EntryStays(run: seq<Pair>, moves: seq<Move>, k: nat, n: nat)
    requires Run(run, moves) && k < n < |run| && moves[k].Pump?
    ensures var u := |run[k].ledger.arrived|;
            u < |run[n].ledger.arrived| && run[n].ledger.arrived[u] == Arrival(moves[k].m, moves[k].locallyKnown)
    decreases n - k
  {
    EntriesGrow(run[n - 1], moves[n - 1], run[n]);
    if k + 1 < n {
      EntryStays(run, moves, k, n - 1);
    }
  }

  /**
   * A request inside a dialog that the successor does not have is never injected into it: ever after it is relayed,
   * or waits to be, or ran out of room or time waiting.
   */
  lemma RequestFate(run: seq<Pair>, moves: seq<Move>, k: nat, n: nat)
    requires Run(run, moves) && k < n < |run| && moves[k].Pump?
    requires InDialog(Arrival(moves[k].m, moves[k].locallyKnown))
    ensures var u := |run[k].ledger.fates|;
            u < |run[n].ledger.fates| && run[n].ledger.fates[u] in {Relayed, HeldBack, Flushing, Evicted, Expired}
  {
    EntryStays(run, moves, k, n);
    RunKeepsInv(run, moves, k);
    RunKeepsInv(run, moves, n);
    var u := |run[k].ledger.fates|;
    assert MayHave(run[n].ledger.arrived[u], run[n].ledger.fates[u]);
  }

  /** A fate other than waiting is for good, whatever either process does. */
  lemma FinalFateKept(s: Pair, move: Move, s': Pair, u: nat)
    requires Inv(s) && Step(s, move, s') && u < |s.ledger.fates| && IsFinal(s.ledger.fates[u])
    ensures u < |s'.ledger.fates| && s'.ledger.fates[u] == s.ledger.fates[u]
  {
    match move
    case Arrive(manifest, now) => StepFates(s.ledger, Manifest(ReadManifest(manifest), now), u);
    case Pump(m, locallyKnown, now) => StepFates(s.ledger, Datagram(m, locallyKnown, now), u);
    case Flush(index, now) => StepFates(s.ledger, FlushOne(index, now), u);
    case _ =>
  }

  lemma FateOfDecision(s: Ledger, m: Message, locallyKnown: bool, now: int)
    requires Decide(s.rt, m, locallyKnown, now) in {Relay, Drop}
    ensures var fates := SuccessorPump.Step(s, Datagram(m, locallyKnown, now)).fates;
            |fates| == |s.fates| + 1 && fates[|s.fates|] in {Relayed, DroppedResponse}
  {
  }

  /**
   * A response for a call that was live on the predecessor when it was read, after a manifest that could be read, is
   * never injected into the successor: ever after it is relayed or dropped.
   */
  lemma {:induction false} ResponseFate(run: seq<Pair>, moves: seq<Move>, k: nat, n: nat)
    requires Run(run, moves) && k < n < |run| && moves[k].Pump? && moves[k].m.Response?
    requires run[k].applied && run[k].readable && ForLiveCall(run[k], moves[k].m)
    ensures var u := |run[k].ledger.fates|;
            u < |run[n].ledger.fates| && run[n].ledger.fates[u] in {Relayed, DroppedResponse}
    decreases n - k
  {
    if k + 1 == n {
      ResponseNeverStolen(run, moves, k, moves[k].m, moves[k].locallyKnown, moves[k].now);
      FateOfDecision(run[k].ledger, moves[k].m, moves[k].locallyKnown, moves[k].now);
      assert Step(run[k], moves[k], run[n]);
    } else {
      ResponseFate(run, moves, k, n - 1);
      RunKeepsInv(run, moves, n - 1);
      FinalFateKept(run[n - 1], moves[n - 1], run[n], |run[k].ledger.fates|);
    }
  }

  /**
   * The exact condition: with a manifest applied, every live call is safe if and only if the last manifest applied
   * was no longer than the receiver reads, or no call is left.
   */
  lemma SafeIffReadable(run: seq<Pair>, moves: seq<Move>, n: nat)
    requires Run(run, moves) && n < |run| && run[n].applied
    ensures (forall m: Message, now: int | m.Response? && ForLiveCall(run[n], m) ::
               Decide(run[n].ledger.rt, m, false, now) != Local)
            <==> run[n].readable || run[n].live == {}
  {
    RunKeepsInv(run, moves, n);
    var s := run[n];
    if s.live != {} && !s.readable {
      var d :| d in s.live;
      var m := Response(Some(d.callId), true);
      assert ForLiveCall(s, m);
      assert Decide(s.ledger.rt, m, false, 0) == Local;
    }
  }

  /** With bodies that fit, every manifest is readable: no run leaves the safe states. */
  lemma {:induction false} ReadableWhileBodiesFit(run: seq<Pair>, moves: seq<Move>, n: nat)
    requires Run(run, moves) && n < |run|
    requires forall k, ids | 0 <= k < |moves| && moves[k] == Push(ids) :: BodyBytes(LiveCallIds(ids)) <= MAX_BODY_BYTES
    ensures run[n].readable && forall manifest | manifest in run[n].pushed :: BodyBytes(manifest) <= MAX_BODY_BYTES
    decreases n
  {
    if n > 0 {
      ReadableWhileBodiesFit(run, moves, n - 1);
      assert Step(run[n - 1], moves[n - 1], run[n]);
    }
  }

  /** A run that ends with a live call's response being read, and injected into the successor. */
  ghost predicate InjectsLiveResponse(run: seq<Pair>, moves: seq<Move>, live: set<Dialog>, d: Dialog) {
    && Run(run, moves) && |run| == 4 && run[2].applied && run[2].live == live && d in live
    && moves[2] == Pump(Response(Some(d.callId), true), false, 1)
    && run[3].ledger.fates == [Injected]
  }

  /** The failing family: whatever the live dialogs, one push too long for the receiver loses them all. */
  lemma OversizedManifestLosesCalls(live: set<Dialog>, ids: seq<string>, d: Dialog)
    requires d in live && ListsIds(live, ids) && BodyBytes(LiveCallIds(ids)) > MAX_BODY_BYTES
    ensures exists run: seq<Pair>, moves: seq<Move> :: InjectsLiveResponse(run, moves, live, d)
  {
    var s0, s1, s2 := OversizedPush(live, ids);
    var m := Response(Some(d.callId), true);
    var s3 := s2.(ledger := SuccessorPump.Step(s2.ledger, Datagram(m, false, 1)));
    NothingKnownInjects(s2.ledger, d.callId);
    var run, moves := ThreeMoves(s0, Push(ids), s1, Arrive(LiveCallIds(ids), 1), s2, Pump(m, false, 1), s3, live, d);
  }

  lemma OversizedPush(live: set<Dialog>, ids: seq<string>) returns (s0: Pair, s1: Pair, s2: Pair)
    requires ListsIds(live, ids) && BodyBytes(LiveCallIds(ids)) > MAX_BODY_BYTES
    ensures Init(s0) && Step(s0, Push(ids), s1) && Step(s1, Arrive(LiveCallIds(ids), 1), s2)
    ensures s2.live == live && s2.applied && KnowsNothing(s2.ledger)
  {
    var manifest := LiveCallIds(ids);
    s0 := Pair(live, {}, EMPTY, false, true);
    s1 := s0.(pushed := s0.pushed + {manifest});
    s2 := s1.(ledger := SuccessorPump.Step(EMPTY, Manifest([], 1)), applied := true, readable := false);
    assert ToSet([]) == {};
    OversizedStep(s1, manifest, s2);
  }

  lemma ThreeMoves(s0: Pair, a: Move, s1: Pair, b: Move, s2: Pair, c: Move, s3: Pair, live: set<Dialog>, d: Dialog)
    returns (run: seq<Pair>, moves: seq<Move>)
    requires Init(s0) && Step(s0, a, s1) && Step(s1, b, s2) && Step(s2, c, s3)
    requires s2.applied && s2.live == live && d in live && s3.ledger.fates == [Injected]
    requires c == Pump(Response(Some(d.callId), true), false, 1)
    ensures InjectsLiveResponse(run, moves, live, d)
  {
    run, moves := [s0, s1, s2, s3], [a, b, c];
    forall k | 0 <= k < 3 ensures Step(run[k], moves[k], run[k + 1]) {
      if k == 0 {
      } else if k == 1 {
      } else {
        assert k == 2;
      }
    }
  }

  /** A successor that knows no call of the predecessor and has read nothing yet. */
  predicate KnowsNothing(s: Ledger) {
    s.rt.oldCalls == {} && s.fates == []
  }

  lemma NothingKnownInjects(s: Ledger, callId: string)
    requires KnowsNothing(s)
    ensures SuccessorPump.Step(s, Datagram(Response(Some(callId), true), false, 1)).fates == [Injected]
  {
  }

  lemma OversizedStep(s: Pair, manifest: seq<string>, s': Pair)
    requires manifest in s.pushed && BodyBytes(manifest) > MAX_BODY_BYTES
    requires s' == s.(ledger := SuccessorPump.Step(s.ledger, Manifest([], 1)), applied := true, readable := false)
    ensures Step(s, Arrive(manifest, 1), s')
  {
  }
}
