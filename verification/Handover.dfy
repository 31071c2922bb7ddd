/**
 * The predecessor's side of a handover: from the termination signal through the loopback listener, the release of the
 * public sockets and the handoff loop to the end of the drain, with heartbeats arriving at any time.
 */
module Handover {
  import opened Options

  datatype Role = Idle | Predecessor

  datatype TransportKind = Udp | Stream

  /** How far the termination of this process has got. */
  datatype Phase =
    | Serving
    | BindingListener   // role set, loopback listener not yet bound
    | Swapping          // listener up, bound transports being swapped or closed
    | ClosingHttp
    | ReleasingUdp
    | PushingHandoff
    | Draining          // the handover window: live calls finish here
    | WindowOver        // drained or timed out; the loopback listener is cancelled
    | PlainDrain        // no handover, or one that failed

  datatype Process = Process(
    instance: nat,
    role: Role,
    phase: Phase,
    listenerUp: bool,
    bound: seq<TransportKind>,
    udpHeld: bool,
    httpOpen: bool,
    lastHello: int,
    foreignHellos: set<nat>,
    acceptedBy: Option<Answer>)

  /** Who served a handoff request: a process, and the role it had when it answered. */
  datatype Answer = Answer(instance: nat, role: Role)

  datatype Event =
    | Hello(instance: nat, now: int)             // a heartbeat arrives
    | Terminate(now: int)                        // the termination signal
    | ListenerBound                              // the loopback port was free
    | ListenerRefused                            // it was not
    | SwapNext                                   // the next bound transport is swapped to the relay or closed
    | SwapDone
    | HttpClosed
    | UdpReleased
    | HandoffAnswered(answer: Answer)            // a manifest push was answered
    | HandoffUnanswered                          // it was not, or was refused
    | HandoffGivenUp                             // the deadline has passed
    | DrainEnded

  predicate HeartbeatFresh(p: Process, now: int, freshMs: int) {
    p.lastHello != 0 && now - p.lastHello <= freshMs
  }

  /** The role marker in the answer to a manifest push. */
  function RoleMarker(answer: Answer): string {
    if answer.role == Predecessor then "predecessor" else "successor"
  }

  /** An answer of this very process carries the role it has now. */
  predicate Truthful(p: Process, answer: Answer) {
    answer.instance == p.instance ==> answer.role == p.role
  }

  predicate Step(freshMs: int, p: Process, e: Event, p': Process) {
    match e
    case Hello(instance, now) =>
      p' == if instance == p.instance then p
            else p.(lastHello := now, foreignHellos := p.foreignHellos + {instance})
    case Terminate(now) =>
      if p.role == Predecessor then p' == p
      else if !HeartbeatFresh(p, now, freshMs) then p.phase == Serving && p' == p.(phase := PlainDrain)
      else p.phase == Serving && p' == p.(role := Predecessor, phase := BindingListener)
    case ListenerBound =>
      p.phase == BindingListener && p' == p.(listenerUp := true, phase := Swapping)
    case ListenerRefused =>
      p.phase == BindingListener && p' == p.(phase := PlainDrain)
    case SwapNext =>
      && p.phase == Swapping && p.bound != []
      && p' == p.(bound := p.bound[1..], udpHeld := if p.bound[0] == Udp then false else p.udpHeld)
    case SwapDone =>
      p.phase == Swapping && p.bound == [] && p' == p.(phase := ClosingHttp)
    case HttpClosed =>
      p.phase == ClosingHttp && p' == p.(httpOpen := false, phase := ReleasingUdp)
    case UdpReleased =>
      p.phase == ReleasingUdp && p' == p.(udpHeld := false, phase := PushingHandoff)
    case HandoffAnswered(answer) =>
      && p.phase == PushingHandoff && Truthful(p, answer)
      && p' == if RoleMarker(answer) == "successor" then p.(phase := Draining, acceptedBy := Some(answer)) else p
    case HandoffUnanswered =>
      p.phase == PushingHandoff && p' == p
    case HandoffGivenUp =>
      p.phase == PushingHandoff && p' == p.(phase := Draining)
    case DrainEnded =>
      p.phase == Draining && p' == p.(phase := WindowOver, listenerUp := false)
  }

  /** A process whose transports have been created and that has heard nothing yet. */
  predicate Init(p: Process) {
    && p.role == Idle && p.phase == Serving && !p.listenerUp && p.udpHeld && p.httpOpen
    && p.lastHello == 0 && p.foreignHellos == {} && p.acceptedBy == None
  }

  ghost predicate Run(freshMs: int, run: seq<Process>, events: seq<Event>) {
    && |run| == |events| + 1 && Init(run[0])
    && forall k {:trigger events[k]} | 0 <= k < |events| :: Step(freshMs, run[k], events[k], run[k + 1])
  }

  // ---- what every run keeps

  /** Nothing public has been given up. */
  predicate Intact(start: Process, p: Process) {
    p.udpHeld && p.httpOpen && p.bound == start.bound
  }

  predicate InHandover(phase: Phase) {
    phase.BindingListener? || phase.Swapping? || phase.ClosingHttp? || phase.ReleasingUdp? || phase.PushingHandoff?
    || phase.Draining? || phase.WindowOver?
  }

  predicate Inv(start: Process, p: Process) {
    && p.instance == start.instance
    && (p.phase.Serving? || p.phase.BindingListener? || p.phase.PlainDrain? ==> Intact(start, p) && !p.listenerUp)
    && (InHandover(p.phase) ==> p.role == Predecessor)
    && (InHandover(p.phase) && !p.phase.BindingListener? ==> (p.listenerUp <==> !p.phase.WindowOver?))
    && (p.phase.ReleasingUdp? || p.phase.PushingHandoff? || p.phase.Draining? || p.phase.WindowOver? ==> !p.httpOpen)
    && (p.phase.PushingHandoff? || p.phase.Draining? || p.phase.WindowOver? ==> !p.udpHeld)
    && (p.role == Predecessor ==> p.foreignHellos != {})
    && (p.lastHello != 0 ==> p.foreignHellos != {})
    && (p.acceptedBy.Some? ==> p.acceptedBy.value.role == Idle && p.acceptedBy.value.instance != p.instance)
    && p.instance !in p.foreignHellos
  }

  lemma {:induction false} RunKeepsInv(freshMs: int, run: seq<Process>, events: seq<Event>, n: nat)
    requires Run(freshMs, run, events) && n < |run|
    ensures Inv(run[0], run[n])
    decreases n
  {
    if n > 0 {
      RunKeepsInv(freshMs, run, events, n - 1);
      assert Step(freshMs, run[n - 1], events[n - 1], run[n]);
    }
  }

  /**
   * The order of a handover: public UDP sockets are released only by a process in predecessor role; its loopback
   * relay listener is then up exactly until the window is over. A handover that failed has released nothing.
   */
  lemma ReleasedMeansRelayed(freshMs: int, run: seq<Process>, events: seq<Event>, n: nat)
    requires Run(freshMs, run, events) && n < |run|
    ensures !run[n].udpHeld || !run[n].httpOpen ==>
              run[n].role == Predecessor && (run[n].listenerUp <==> !run[n].phase.WindowOver?)
    ensures run[n].phase.PlainDrain? ==> Intact(run[0], run[n])
  {
    RunKeepsInv(freshMs, run, events, n);
  }

  ghost predicate Reachable(freshMs: int, p: Process) {
    exists run, events :: Run(freshMs, run, events) && run[|run| - 1] == p
  }

  lemma ReachableStep(freshMs: int, p: Process, e: Event, p': Process)
    requires Reachable(freshMs, p) && Step(freshMs, p, e, p')
    ensures Reachable(freshMs, p')
  {
    var run, events :| Run(freshMs, run, events) && run[|run| - 1] == p;
    assert Run(freshMs, run + [p'], events + [e]);
  }

  lemma ReachesRelease(freshMs: int)
    requires freshMs >= 0
    ensures exists p :: Reachable(freshMs, p) && p.phase.ReleasingUdp?
  {
    var p := Process(1, Idle, Serving, false, [], true, true, 0, {}, None);
    assert Run(freshMs, [p], []);
    var p1 := p.(lastHello := 5, foreignHellos := p.foreignHellos + {2});
    ReachableStep(freshMs, p, Hello(2, 5), p1);
    var p2 := p1.(role := Predecessor, phase := BindingListener);
    ReachableStep(freshMs, p1, Terminate(5), p2);
    var p3 := p2.(listenerUp := true, phase := Swapping);
    ReachableStep(freshMs, p2, ListenerBound, p3);
    var p4 := p3.(phase := ClosingHttp);
    ReachableStep(freshMs, p3, SwapDone, p4);
    var p5 := p4.(httpOpen := false, phase := ReleasingUdp);
    ReachableStep(freshMs, p4, HttpClosed, p5);
  }

  /** Taken without the end of the window, the first claim fails: a whole handover leaves no listener behind. */
  lemma ListenerGoneAfterWindow(freshMs: int)
    requires freshMs >= 0
    ensures exists p :: Reachable(freshMs, p) && !p.udpHeld && !p.listenerUp
  {
    ReachesRelease(freshMs);
    var p5 :| Reachable(freshMs, p5) && p5.phase.ReleasingUdp?;
    var p6 := p5.(udpHeld := false, phase := PushingHandoff);
    ReachableStep(freshMs, p5, UdpReleased, p6);
    var p7 := p6.(phase := Draining);
    ReachableStep(freshMs, p6, HandoffGivenUp, p7);
    var p8 := p7.(phase := WindowOver, listenerUp := false);
    ReachableStep(freshMs, p7, DrainEnded, p8);
  }

  /** The role never reverts. */
  lemma {:induction false} RoleNeverReverts(freshMs: int, run: seq<Process>, events: seq<Event>, m: nat, n: nat)
    requires Run(freshMs, run, events) && m <= n < |run| && run[m].role == Predecessor
    ensures run[n].role == Predecessor
    decreases n - m
  {
    if m < n {
      RoleNeverReverts(freshMs, run, events, m, n - 1);
      assert Step(freshMs, run[n - 1], events[n - 1], run[n]);
    }
  }

  /** The handoff loop ends accepted only by an answer of another process, one that was not in predecessor role. */
  lemma SelfEchoNeverAccepted(freshMs: int, run: seq<Process>, events: seq<Event>, n: nat)
    requires Run(freshMs, run, events) && n < |run| && run[n].acceptedBy.Some?
    ensures run[n].acceptedBy.value.instance != run[n].instance && run[n].acceptedBy.value.role != Predecessor
  {
    RunKeepsInv(freshMs, run, events, n);
  }

  /** A process that never hears a heartbeat of another instance never hands over and never gives anything up. */
  lemma {:induction false} LoneProcessNeverHandsOver(freshMs: int, run: seq<Process>, events: seq<Event>, n: nat)
    requires Run(freshMs, run, events) && n < |run|
    requires forall k | 0 <= k < |events| && events[k].Hello? :: events[k].instance == run[0].instance
    ensures run[n].role == Idle && run[n].foreignHellos == {} && Intact(run[0], run[n])
    decreases n
  {
    if n > 0 {
      LoneProcessNeverHandsOver(freshMs, run, events, n - 1);
      RunKeepsInv(freshMs, run, events, n - 1);
      RunKeepsInv(freshMs, run, events, n);
      assert Step(freshMs, run[n - 1], events[n - 1], run[n]);
    }
  }
}
