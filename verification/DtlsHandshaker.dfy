/**
 The handshake state machine (rtc-dtls/src/handshaker.rs) as the endpoint drives it
 (rtc-dtls/src/endpoint.rs:150-245), over the flights of DtlsFlights.
 */
module DtlsHandshaker {
  import opened Bytes
  import opened DtlsRecord
  import opened DtlsCache
  import opened DtlsTranscript
  import opened DtlsFlights

  datatype Phase = Errored | Preparing | Sending | Waiting | Done

  /** Connection state the machine works on; `sends` counts transmissions of the flight since `prepare`. */
  datatype Fsm = Fsm(
    phase: Phase,
    flight: Flight,
    completed: bool,
    rx: bool,
    retransmit: bool,
    count: nat,
    timer: bool,
    packets: seq<Prepared>,
    outgoing: seq<Prepared>,
    state: State,
    cache: seq<Item>,
    sends: nat)

  /** The flights' `parse` and `generate` as the machine calls them, and two settings. */
  datatype Setup = Setup(
    initialEpoch: nat,
    maxRetransmit: nat,
    parse: (Flight, State, seq<Item>) -> (State, Outcome),
    generate: (Flight, State, seq<Item>) -> Generated)

  /** The machine over the real flights. */
  function WithFlights(cfg: Config, cr: Crypto): Setup {
    Setup(cfg.initialEpoch, cfg.maxRetransmit,
          (f: Flight, st: State, cache: seq<Item>) => Parse(f, st, cache, cfg, cr),
          (f: Flight, st: State, cache: seq<Item>) => Generate(f, st, cache, cfg, cr))
  }

  function Rank(p: Phase): nat {
    match p
    case Preparing => 3
    case Sending => 2
    case Waiting => 1
    case _ => 0
  }

  /** A step of the machine; `ok` is false when the source returns an error. */
  datatype Stepped = Stepped(fsm: Fsm, ok: bool)

  function Renumbered(st: State, next: nat, epoch: nat, top: nat): State {
    st.(sendSequence := next, localEpoch := if epoch != top then top else st.localEpoch)
  }

  function PrepareStep(c: Fsm, s: Setup): Stepped {
    var c1 := c.(packets := [], count := 0, retransmit := HasRetransmit(c.flight), sends := 0);
    var g := s.generate(c.flight, c.state, c.cache);
    match g.packets
    case None => Stepped(c1.(state := g.state), false)
    case Some(pkts) =>
      var e := s.initialEpoch;
      var out := PreparedFrom(pkts, g.state.sendSequence, e);
      var top := HighestEpoch(out, e);
      Stepped(c1.(packets := out, state := Renumbered(g.state, g.state.sendSequence + Handshakes(pkts), e, top),
                  phase := Sending), true)
  }

  function SendStep(c: Fsm): Fsm {
    var c1 := c.(outgoing := c.outgoing + c.packets, sends := c.sends + 1);
    if IsLastSendFlight(c.flight) then c1.(phase := Done) else c1.(timer := true, phase := Waiting)
  }

  function WaitStep(c: Fsm, s: Setup): Stepped {
    if !c.rx then Stepped(c.(phase := Waiting), true)
    else
      var (st, outcome) := s.parse(c.flight, c.state, c.cache);
      var c1 := c.(rx := false, timer := false, state := st);
      match outcome
      case Stop(_, error) => if error then Stepped(c1, false) else Stepped(c1.(phase := Waiting), true)
      case Next(f) =>
        if IsLastRecvFlight(f) && c.flight == f then Stepped(c1.(phase := Done), true)
        else Stepped(c1.(flight := f, phase := Preparing), true)
  }

  /** `handshake()`: runs until it has to wait, is done or fails. */
  function HandshakeRun(c: Fsm, s: Setup): Stepped
    requires !c.completed
    decreases c.rx, Rank(c.phase)
  {
    match c.phase
    case Done => Stepped(c.(completed := true), true)
    case Errored => Stepped(c, false)
    case Preparing =>
      var r := PrepareStep(c, s);
      if !r.ok then r else HandshakeRun(r.fsm, s)
    case Sending => HandshakeRun(SendStep(c), s)
    case Waiting =>
      var r := WaitStep(c, s);
      if !r.ok || r.fsm.phase == Waiting then r else HandshakeRun(r.fsm, s)
  }

  /** What `handshake_timeout` does before it runs the machine again; `None` when it does nothing. */
  function OnTimeout(c: Fsm, s: Setup): Option<Fsm> {
    match c.phase
    case Waiting =>
      if c.retransmit then
        var n := c.count + 1;
        Some(c.(count := n, phase := if n > s.maxRetransmit then Errored else Sending))
      else Some(c.(timer := true))
    case Done => Some(c.(phase := Sending))
    case _ => None
  }

  function TimeoutRun(c: Fsm, s: Setup): Stepped
    requires !c.completed
  {
    match OnTimeout(c, s)
    case None => Stepped(c, true)
    case Some(c1) => HandshakeRun(c1, s)
  }

  class Conn {
    const s: Setup
    var phase: Phase
    var flight: Flight
    var completed: bool
    var rx: bool
    var retransmit: bool
    var count: nat
    var timer: bool
    var packets: seq<Prepared>
    var outgoing: seq<Prepared>
    var state: State
    var cache: seq<Item>
    ghost var sends: nat

    ghost function Value(): Fsm
      reads this
    {
      Fsm(phase, flight, completed, rx, retransmit, count, timer, packets, outgoing, state, cache, sends)
    }

    constructor (isClient: bool, s: Setup)
      ensures Value() == NewConn(isClient) && this.s == s
    {
      this.s := s;
      phase, flight, completed, rx := Preparing, if isClient then 1 else 0, false, false;
      retransmit, count, timer := false, 0, false;
      packets, outgoing, state, cache, sends := [], [], NEW_STATE, [], 0;
    }

    method PrepareFlight() returns (ok: bool)
      modifies this
      ensures Stepped(Value(), ok) == PrepareStep(old(Value()), s)
    {
      hide PreparedFrom, Handshakes, HighestEpoch, HasRetransmit, Renumbered;
      packets := [];
      count := 0;
      sends := 0;
      retransmit := HasRetransmit(flight);
      var g := s.generate(flight, state, cache);
      if g.packets == None {
        state := g.state;
        return false;
      }
      var epoch := s.initialEpoch;
      var out, next, top := Prepare(g.packets.value, g.state.sendSequence, epoch);
      packets := out;
      state := Renumbered(g.state, next, epoch, top);
      phase := Sending;
      ok := true;
    }

    method SendFlight()
      modifies this
      ensures Value() == SendStep(old(Value()))
    {
      outgoing := outgoing + packets;
      sends := sends + 1;
      if IsLastSendFlight(flight) {
        phase := Done;
      } else {
        timer := true;
        phase := Waiting;
      }
    }

    method WaitForFlight() returns (ok: bool)
      modifies this
      ensures Stepped(Value(), ok) == WaitStep(old(Value()), s)
    {
      ok := true;
      if rx {
        rx := false;
        timer := false;
        var (st, outcome) := s.parse(flight, state, cache);
        state := st;
        match outcome {
          case Stop(_, error) =>
            if error {
              return false;
            }
          case Next(f) =>
            if IsLastRecvFlight(f) && flight == f {
              phase := Done;
              return;
            }
            flight := f;
            phase := Preparing;
            return;
        }
      }
      phase := Waiting;
    }

    /** Terminates: each turn lowers the phase's rank or consumes the pending-receive flag. */
    method Handshake() returns (ok: bool)
      requires !completed
      modifies this
      ensures Stepped(Value(), ok) == HandshakeRun(old(Value()), s)
    {
      while true
        invariant !completed
        invariant HandshakeRun(old(Value()), s) == HandshakeRun(Value(), s)
        decreases rx, Rank(phase)
      {
        if phase == Done {
          completed := true;
          return true;
        }
        var previous := phase;
        match previous {
          case Preparing =>
            ok := PrepareFlight();
          case Sending =>
            SendFlight();
            ok := true;
          case Waiting =>
            ok := WaitForFlight();
          case _ =>
            return false;
        }
        if !ok {
          return;
        }
        if previous == phase && previous == Waiting {
          return;
        }
      }
    }

    method HandshakeTimeout() returns (ok: bool)
      requires !completed
      modifies this
      ensures Stepped(Value(), ok) == TimeoutRun(old(Value()), s)
    {
      if phase == Waiting {
        if retransmit {
          count := count + 1;
          phase := if count > s.maxRetransmit then Errored else Sending;
        } else {
          timer := true;
        }
      } else if phase == Done {
        phase := Sending;
      } else {
        return true;
      }
      ok := Handshake();
    }
  }

  function NewConn(isClient: bool): Fsm {
    Fsm(Preparing, if isClient then 1 else 0, false, false, false, 0, false, [], [], NEW_STATE, [], 0)
  }

  // ---------------------------------------------------------------- events at the endpoint

  function PushAll(cache: seq<Item>, items: seq<Item>): seq<Item>
    decreases |items|
  {
    if items == [] then cache else PushAll(Pushed(cache, items[0]), items[1..])
  }

  lemma {:induction false} PushAllKeeps(cache: seq<Item>, items: seq<Item>)
    ensures cache <= PushAll(cache, items)
    decreases |items|
  {
    if items != [] {
      PushAllKeeps(Pushed(cache, items[0]), items[1..]);
    }
  }

  /** A datagram was read, a timer ran out, a client connects, or messages were cached on the side. */
  datatype Event =
    | DatagramRead(items: seq<Item>, handshake: bool, ok: bool)
    | TimerFired
    | Connected
    | CachedAside(items: seq<Item>)

  function OnEvent(c: Fsm, e: Event, s: Setup): Fsm {
    match e
    case DatagramRead(items, handshake, ok) =>
      var c1 := c.(cache := PushAll(c.cache, items), rx := c.rx || handshake);
      if !ok || c.completed then c1 else HandshakeRun(c1, s).fsm
    case TimerFired =>
      if !c.timer then c
      else
        var c1 := c.(timer := false);
        if c.completed then c1 else TimeoutRun(c1, s).fsm
    case Connected => if c.completed then c else HandshakeRun(c, s).fsm
    case CachedAside(items) => c.(cache := PushAll(c.cache, items))
  }

  function RunEvents(c: Fsm, es: seq<Event>, s: Setup): Fsm
    decreases |es|
  {
    if es == [] then c else RunEvents(OnEvent(c, es[0], s), es[1..], s)
  }

  // ---------------------------------------------------------------- bounds, for any flights

  /** Inside a run: how often the current flight can have been sent. */
  ghost predicate Bounded(c: Fsm, s: Setup) {
    && c.sends <= 1 + s.maxRetransmit
    && (c.phase == Sending ==> c.sends <= c.count <= s.maxRetransmit)
    && (c.phase == Waiting ==> c.sends <= c.count + 1 && c.count <= s.maxRetransmit)
  }

  /** Between two calls the machine never rests in Done without having completed. */
  ghost predicate Settled(c: Fsm) {
    c.phase == Done ==> c.completed
  }

  /** `inv` survives each of the three steps of a machine that has not completed. */
  ghost predicate KeptBySteps(inv: Fsm -> bool, s: Setup) {
    && (forall c: Fsm :: inv(c) && c.phase == Preparing && !c.completed ==> inv(PrepareStep(c, s).fsm))
    && (forall c: Fsm :: inv(c) && c.phase == Sending && !c.completed ==> inv(SendStep(c)))
    && (forall c: Fsm :: inv(c) && c.phase == Waiting && !c.completed ==> inv(WaitStep(c, s).fsm))
  }

  /** What every step keeps, a whole call of `handshake` keeps; it completes only from Done. */
  lemma {:induction false} RunKeeps(c: Fsm, s: Setup, inv: Fsm -> bool)
    requires !c.completed && inv(c) && KeptBySteps(inv, s)
    ensures var r := HandshakeRun(c, s).fsm;
            inv(r.(completed := false)) && (r.completed <==> r.phase == Done)
    decreases c.rx, Rank(c.phase)
  {
    match c.phase
    case Done =>
    case Errored =>
    case Preparing =>
      if PrepareStep(c, s).ok {
        RunKeeps(PrepareStep(c, s).fsm, s, inv);
      }
    case Sending => RunKeeps(SendStep(c), s, inv);
    case Waiting =>
      if WaitStep(c, s).ok && WaitStep(c, s).fsm.phase != Waiting {
        RunKeeps(WaitStep(c, s).fsm, s, inv);
      }
  }

  lemma RunKeepsBound(c: Fsm, s: Setup)
    requires !c.completed && Bounded(c, s)
    ensures Bounded(HandshakeRun(c, s).fsm, s) && Settled(HandshakeRun(c, s).fsm)
  {
    StepsKeepBound(s);
    hide HandshakeRun, KeptBySteps;
    RunKeeps(c, s, (d: Fsm) => Bounded(d, s));
  }

  lemma StepsKeepBound(s: Setup)
    ensures KeptBySteps((d: Fsm) => Bounded(d, s), s)
  {
  }

  lemma EventKeepsBound(c: Fsm, e: Event, s: Setup)
    requires Bounded(c, s) && Settled(c)
    ensures Bounded(OnEvent(c, e, s), s) && Settled(OnEvent(c, e, s))
  {
    match e
    case DatagramRead(items, handshake, ok) =>
      if ok && !c.completed {
        RunKeepsBound(c.(cache := PushAll(c.cache, items), rx := c.rx || handshake), s);
      }
    case TimerFired =>
      if c.timer && !c.completed && OnTimeout(c.(timer := false), s).Some? {
        RunKeepsBound(OnTimeout(c.(timer := false), s).value, s);
      }
    case Connected =>
      if !c.completed {
        RunKeepsBound(c, s);
      }
    case CachedAside(_) =>
  }

  lemma {:induction false} EventsKeepBound(c: Fsm, es: seq<Event>, s: Setup)
    requires Bounded(c, s) && Settled(c)
    ensures Bounded(RunEvents(c, es, s), s) && Settled(RunEvents(c, es, s))
    decreases |es|
  {
    if es != [] {
      EventKeepsBound(c, es[0], s);
      EventsKeepBound(OnEvent(c, es[0], s), es[1..], s);
    }
  }

  /** In every run of a fresh connection a flight is sent at most 1 + maximum_retransmit_number times per `prepare`. */
  lemma RetransmissionBounded(isClient: bool, es: seq<Event>, s: Setup)
    ensures RunEvents(NewConn(isClient), es, s).sends <= 1 + s.maxRetransmit
  {
    EventsKeepBound(NewConn(isClient), es, s);
  }

  /** A retransmission is the very flight prepared before: same packets, same message sequence numbers. */
  lemma TimeoutResendsSame(c: Fsm, s: Setup)
    requires c.phase == Waiting && c.retransmit && !c.completed && !c.rx && !IsLastSendFlight(c.flight)
    requires c.count < s.maxRetransmit
    ensures TimeoutRun(c, s)
         == var sent := c.(outgoing := c.outgoing + c.packets, sends := c.sends + 1);
            Stepped(sent.(count := c.count + 1, timer := true), true)
  {
    var sending := c.(count := c.count + 1, phase := Sending);
    assert HandshakeRun(sending, s) == HandshakeRun(SendStep(sending), s);
    assert WaitStep(SendStep(sending), s).fsm.phase == Waiting;
  }

  /** A connection that has failed stays failed: no later event completes it, resends or moves its flight. */
  lemma {:induction false} ErroredIsAbsorbing(c: Fsm, es: seq<Event>, s: Setup)
    requires c.phase == Errored && !c.completed
    ensures var d := RunEvents(c, es, s);
            d.phase == Errored && !d.completed && d.outgoing == c.outgoing && d.flight == c.flight && d.state == c.state
    decreases |es|
  {
    if es != [] {
      ErroredIsAbsorbing(OnEvent(c, es[0], s), es[1..], s);
    }
  }
}
