/**
 Nomination between a controlling and a controlled ICE agent over a network that may drop, repeat and
 reorder messages (rtc-ice/src/agent/agent_selector.rs).
 */
module IceNomination {
  import opened Bytes
  import opened IceAgent

  /**
   Where a message sent along a path arrives: the receiver's local address and the source address it
   sees.  Address translation in between is allowed; `None` means the path is blocked.
   */
  datatype Net = Net(toControlled: Path -> Option<Path>, toControlling: Path -> Option<Path>)

  /** Answers return on the path of the request they answer. */
  ghost predicate ReturnsOnPath(net: Net) {
    forall p, q :: net.toControlled(p) == Some(q) && net.toControlling(q).Some? ==> net.toControlling(q) == Some(p)
  }

  datatype World = World(a: AgentState, b: AgentState)

  /**
   A message ever sent is delivered (again); or a timer fires, a candidate is added, or checks are
   started under the agent's role.  Whether a connection fails on the way is up to the clock.
   */
  datatype Step =
    | ToControlled(k: nat, env: Env)
    | ToControlling(k: nat, env: Env)
    | Tick(controlling: bool, env: Env)
    | NewLocal(controlling: bool, c: Candidate, env: Env)
    | NewRemote(controlling: bool, c: Candidate, env: Env)
    | Connect(controlling: bool, env: Env)

  predicate IsAlone(st: Step) {
    !st.ToControlled? && !st.ToControlling?
  }

  /** What an agent does by itself; one that has panicked is gone. */
  function Alone(s: AgentState, st: Step): AgentState
    requires IsAlone(st)
  {
    if s.panicked then s
    else
      match st
      case Tick(_, env) => Contact(s, env)
      case NewLocal(_, c, env) => AddLocal(s, c, env)
      case NewRemote(_, c, env) => AddRemote(s, c, env)
      case Connect(role, env) => Begin(s, role, env)
  }

  function Receive(s: AgentState, path: Option<Path>, p: Packet, env: Env): AgentState {
    if s.panicked || path == None then s else Inbound(s, path.value.local, path.value.remote, p, env)
  }

  function Next(w: World, st: Step, net: Net): World {
    match st
    case ToControlled(k, env) =>
      if k >= |w.a.out| then w
      else
        var e := w.a.out[k];
        w.(b := Receive(w.b, net.toControlled(Path(e.src, e.dst)), e.packet, env))
    case ToControlling(k, env) =>
      if k >= |w.b.out| then w
      else
        var e := w.b.out[k];
        w.(a := Receive(w.a, net.toControlling(Path(e.src, e.dst)), e.packet, env))
    case _ => if st.controlling then w.(a := Alone(w.a, st)) else w.(b := Alone(w.b, st))
  }

  function Run(w: World, steps: seq<Step>, net: Net): World
    decreases |steps|
  {
    if steps == [] then w else Run(Next(w, steps[0], net), steps[1..], net)
  }

  // ---------------------------------------------------------------- failure as freezing

  /** An agent that is frozen when its connection fails: it keeps its lists and does nothing more. */
  function Freeze(s: AgentState): AgentState {
    s.(failed := true, selected := None)
  }

  function Started(s: AgentState, role: bool): AgentState {
    s.(known := true, controlling := role)
  }

  function FrozenOwn(s: AgentState, st: Step): AgentState
    requires IsAlone(st) && !st.Connect?
  {
    if s.failed then s
    else
      match st
      case Tick(_, env) => if ContactFails(s, env) then Freeze(s) else Contact(s, env)
      case NewLocal(_, c, env) =>
        if c !in s.locals && ContactFails(s, env) then Freeze(WithLocal(s, c)) else AddLocal(s, c, env)
      case NewRemote(_, c, env) =>
        if c !in s.remotes && ContactFails(s, env) then Freeze(WithRemote(s, c)) else AddRemote(s, c, env)
  }

  /** Checks are started once, under the role of the step; then the clock decides as at any timer. */
  function FrozenAlone(s: AgentState, st: Step): AgentState
    requires IsAlone(st)
  {
    if !st.Connect? then FrozenOwn(s, st)
    else if s.known then s
    else FrozenOwn(Started(s, st.controlling), Tick(st.controlling, st.env))
  }

  function FrozenReceive(s: AgentState, path: Option<Path>, p: Packet, env: Env): AgentState {
    if s.failed || path == None then s
    else if Overtaken(s, path.value.local, path.value.remote, p, env)
    then Freeze(WithRemote(s, Reflexive(path.value.remote, env)))
    else Inbound(s, path.value.local, path.value.remote, p, env)
  }

  function FrozenNext(w: World, st: Step, net: Net): World {
    match st
    case ToControlled(k, env) =>
      if k >= |w.a.out| then w
      else
        var e := w.a.out[k];
        w.(b := FrozenReceive(w.b, net.toControlled(Path(e.src, e.dst)), e.packet, env))
    case ToControlling(k, env) =>
      if k >= |w.b.out| then w
      else
        var e := w.b.out[k];
        w.(a := FrozenReceive(w.a, net.toControlling(Path(e.src, e.dst)), e.packet, env))
    case _ => if st.controlling then w.(a := FrozenAlone(w.a, st)) else w.(b := FrozenAlone(w.b, st))
  }

  // ---------------------------------------------------------------- the invariant of the two agents

  /** An answer of the controlled agent: who asked, along which path, and that a USE-CANDIDATE was taken. */
  ghost predicate AnswerOf(a: AgentState, bHasSelected: bool, e: Envelope, net: Net) {
    exists j :: 0 <= j < |a.out| && AnswersAt(a.out[j], bHasSelected, e, net)
  }

  ghost predicate AnswersAt(q: Envelope, bHasSelected: bool, e: Envelope, net: Net) {
    && q.packet.Request? && e.packet.Success? && q.packet.id == e.packet.id
    && net.toControlled(Path(q.src, q.dst)) == Some(Path(e.src, e.dst))
    && (q.packet.useCandidate ==> bHasSelected)
  }

  ghost predicate Echoes(w: World, net: Net) {
    forall k :: 0 <= k < |w.b.out| && w.b.out[k].packet.Success? ==> AnswerOf(w.a, w.b.log != [], w.b.out[k], net)
  }

  /** The controlled agent has selected the controlling agent's nominated pair. */
  ghost predicate ControlledFollows(w: World, net: Net)
    requires Inv(w.a) && Inv(w.b)
  {
    w.b.log != [] ==>
      w.a.nominated.Some? && net.toControlled(PathOf(w.a, w.a.nominated.value)) == Some(PathOf(w.b, w.b.log[0]))
  }

  /** The controlling agent has selected its nominated pair, after the controlled agent selected. */
  ghost predicate ControllingAfter(w: World)
    requires Inv(w.a) && Inv(w.b)
  {
    w.a.log != [] ==>
      w.a.nominated.Some? && PathOf(w.a, w.a.log[0]) == PathOf(w.a, w.a.nominated.value) && w.b.log != []
  }

  /** Before checks are started an agent has sent, nominated and selected nothing. */
  ghost predicate Idle(s: AgentState) {
    !s.known ==> s.out == [] && s.pending == [] && s.nominated == None && s.log == [] && s.selected == None && !s.failed
  }

  /** The application was told of each selection, with the addresses of the pair. */
  ghost predicate Announced(s: AgentState)
    requires Inv(s)
  {
    |s.events| == |s.log| && (s.log != [] ==> s.events[0] == PathOf(s, s.log[0]))
  }

  ghost predicate WorldInv(w: World, net: Net) {
    && Inv(w.a) && Inv(w.b) && Idle(w.a) && Idle(w.b)
    && (w.a.known ==> w.a.controlling) && (w.b.known ==> !w.b.controlling)
    && Announced(w.a) && Announced(w.b)
    && Echoes(w, net) && ControlledFollows(w, net) && ControllingAfter(w)
  }

  // ---------------------------------------------------------------- steps of one agent

  lemma FreezeKeeps(s: AgentState)
    requires Inv(s)
    ensures Inv(Freeze(s))
  {
    var r := Freeze(s);
    forall i | 0 <= i < |r.pairs|
      ensures WfPair(r, r.pairs[i])
    {
      assert WfPair(s, s.pairs[i]);
    }
    forall k | 0 <= k < |r.out|
      ensures RequestOk(r, r.out[k])
    {
      assert RequestOk(s, s.out[k]);
    }
  }

  /** Growth apart from the failure flag, without a selection or an answer. */
  ghost predicate Silent(s: AgentState, r: AgentState) {
    && Grows(s, r.(failed := s.failed)) && r.log == s.log
    && forall k :: |s.out| <= k < |r.out| ==> r.out[k].packet.Request?
  }

  /** A step of one agent by itself that leaves its invariant. */
  ghost predicate Steady(s: AgentState, r: AgentState) {
    Inv(r) && Silent(s, r)
  }

  lemma QuietIsSteady(s: AgentState, r: AgentState)
    requires Inv(r) && Quiet(s, r)
    ensures Steady(s, r) && Steady(s, Freeze(r))
  {
    FreezeKeeps(r);
    hide Inv;
    assert r.(failed := s.failed) == r;
    var f := Freeze(r).(failed := s.failed);
    forall i | 0 <= i < |s.pairs|
      ensures SamePair(s.pairs[i], f.pairs[i])
    {
      assert SamePair(s.pairs[i], r.pairs[i]);
    }
  }

  lemma OwnKeeps(s: AgentState, st: Step)
    requires Inv(s) && IsAlone(st) && !st.Connect?
    ensures Steady(s, FrozenOwn(s, st))
  {
    hide Inv, Quiet, Steady, Contact, AddLocal, AddRemote, WithLocal, WithRemote, ContactFails, Freeze;
    NothingIsQuiet(s);
    QuietIsSteady(s, s);
    if !s.failed {
      match st
      case Tick(_, env) =>
        ContactKeeps(s, env);
        if !ContactFails(s, env) {
          QuietIsSteady(s, Contact(s, env));
        }
      case NewLocal(_, c, env) =>
        AddLocalKeeps(s, c, env);
        WithLocalKeeps(s, c);
        QuietIsSteady(s, if c !in s.locals && ContactFails(s, env) then WithLocal(s, c) else AddLocal(s, c, env));
      case NewRemote(_, c, env) =>
        AddRemoteKeeps(s, c, env);
        WithRemoteKeeps(s, c);
        QuietIsSteady(s, if c !in s.remotes && ContactFails(s, env) then WithRemote(s, c) else AddRemote(s, c, env));
    }
  }

  /** An agent whose checks have not been started only collects candidates. */
  lemma IdleStays(s: AgentState, st: Step)
    requires Idle(s) && !s.known && IsAlone(st) && !st.Connect?
    ensures Idle(FrozenOwn(s, st)) && !FrozenOwn(s, st).known
  {
    hide ContactControlling, ContactControlled, PairsWithLocal, PairsWithRemote;
  }

  lemma StartedKeeps(s: AgentState, role: bool)
    requires Inv(s) && Idle(s) && !s.known
    ensures Inv(Started(s, role))
  {
    var r := Started(s, role);
    forall i | 0 <= i < |r.pairs|
      ensures WfPair(r, r.pairs[i])
    {
      assert WfPair(s, s.pairs[i]);
    }
  }

  lemma PathSilent(s: AgentState, r: AgentState, i: nat)
    requires Inv(s) && Inv(r) && Silent(s, r) && i < |s.pairs|
    ensures PathOf(r, i) == PathOf(s, i)
  {
    assert SamePair(s.pairs[i], r.pairs[i]);
  }

  // ---------------------------------------------------------------- steps of the pair

  lemma EchoesStay(w: World, v: World, net: Net)
    requires Echoes(w, net) && w.a.out <= v.a.out && w.b.out <= v.b.out && w.b.log <= v.b.log
    requires forall k :: |w.b.out| <= k < |v.b.out| && v.b.out[k].packet.Success? ==>
               AnswerOf(v.a, v.b.log != [], v.b.out[k], net)
    ensures Echoes(v, net)
  {
    forall k | 0 <= k < |v.b.out| && v.b.out[k].packet.Success?
      ensures AnswerOf(v.a, v.b.log != [], v.b.out[k], net)
    {
      if k < |w.b.out| {
        assert AnswerOf(w.a, w.b.log != [], w.b.out[k], net);
        var j :| 0 <= j < |w.a.out| && AnswersAt(w.a.out[j], w.b.log != [], w.b.out[k], net);
        assert AnswersAt(v.a.out[j], v.b.log != [], v.b.out[k], net);
      }
    }
  }

  lemma SteadyControlling(w: World, r: AgentState, net: Net)
    requires WorldInv(w, net) && Steady(w.a, r) && Idle(r)
    ensures WorldInv(w.(a := r), net)
  {
    hide Wf, RequestOk, UniqueIds, PendingSent, PathOf;
    EchoesStay(w, w.(a := r), net);
    if w.a.nominated.Some? {
      PathSilent(w.a, r, w.a.nominated.value);
    }
    if w.a.log != [] {
      PathSilent(w.a, r, w.a.log[0]);
    }
  }

  lemma SteadyControlled(w: World, r: AgentState, net: Net)
    requires WorldInv(w, net) && Steady(w.b, r) && Idle(r)
    ensures WorldInv(w.(b := r), net)
  {
    hide Wf, RequestOk, UniqueIds, PendingSent, PathOf;
    EchoesStay(w, w.(b := r), net);
    if w.b.log != [] {
      PathSilent(w.b, r, w.b.log[0]);
    }
  }

  lemma OwnIsIdle(s: AgentState, st: Step)
    requires Inv(s) && Idle(s) && IsAlone(st) && !st.Connect?
    ensures Idle(FrozenOwn(s, st))
  {
    hide FrozenOwn, Inv;
    if s.known {
      OwnKeeps(s, st);
    } else {
      IdleStays(s, st);
    }
  }

  lemma StartControlling(w: World, net: Net)
    requires WorldInv(w, net) && !w.a.known
    ensures WorldInv(w.(a := Started(w.a, true)), net)
  {
    StartedKeeps(w.a, true);
    hide Wf, RequestOk, UniqueIds, PendingSent, PathOf;
    EchoesStay(w, w.(a := Started(w.a, true)), net);
  }

  lemma StartControlled(w: World, net: Net)
    requires WorldInv(w, net) && !w.b.known
    ensures WorldInv(w.(b := Started(w.b, false)), net)
  {
    StartedKeeps(w.b, false);
    hide Wf, RequestOk, UniqueIds, PendingSent, PathOf;
    EchoesStay(w, w.(b := Started(w.b, false)), net);
  }

  lemma AloneControlling(w: World, st: Step, net: Net)
    requires WorldInv(w, net) && IsAlone(st) && st.controlling
    ensures WorldInv(w.(a := FrozenAlone(w.a, st)), net)
  {
    hide FrozenOwn, Inv, Steady, Echoes, ControlledFollows, ControllingAfter, Announced, Idle;
    if !st.Connect? {
      OwnKeeps(w.a, st);
      OwnIsIdle(w.a, st);
      SteadyControlling(w, FrozenOwn(w.a, st), net);
    } else if !w.a.known {
      StartControlling(w, net);
      var v := w.(a := Started(w.a, true));
      OwnKeeps(v.a, Tick(true, st.env));
      OwnIsIdle(v.a, Tick(true, st.env));
      SteadyControlling(v, FrozenOwn(v.a, Tick(true, st.env)), net);
    }
  }

  lemma AloneControlled(w: World, st: Step, net: Net)
    requires WorldInv(w, net) && IsAlone(st) && !st.controlling
    ensures WorldInv(w.(b := FrozenAlone(w.b, st)), net)
  {
    hide FrozenOwn, Inv, Steady, Echoes, ControlledFollows, ControllingAfter, Announced, Idle;
    if !st.Connect? {
      OwnKeeps(w.b, st);
      OwnIsIdle(w.b, st);
      SteadyControlled(w, FrozenOwn(w.b, st), net);
    } else if !w.b.known {
      StartControlled(w, net);
      var v := w.(b := Started(w.b, false));
      OwnKeeps(v.b, Tick(false, st.env));
      OwnIsIdle(v.b, Tick(false, st.env));
      SteadyControlled(v, FrozenOwn(v.b, Tick(false, st.env)), net);
    }
  }

  /** A connection that fails in the middle of a call: the new candidate, then nothing more. */
  lemma OvertakenIsSteady(s: AgentState, local: Addr, from: Addr, p: Packet, env: Env)
    requires Inv(s) && Overtaken(s, local, from, p, env)
    ensures var r := Freeze(WithRemote(s, Reflexive(from, env))); Steady(s, r) && r.known
  {
    WithRemoteKeeps(s, Reflexive(from, env));
    hide WithRemote, Inv, Quiet;
    QuietIsSteady(s, WithRemote(s, Reflexive(from, env)));
  }

  /** What the controlled agent adds to its answers is an answer to the request that came in. */
  lemma NewAnswers(w: World, v: World, k: nat, net: Net)
    requires v.a == w.a && k < |w.a.out|
    requires forall i :: |w.b.out| <= i < |v.b.out| && v.b.out[i].packet.Success? ==>
               AnswersAt(w.a.out[k], v.b.log != [], v.b.out[i], net)
    ensures forall i :: |w.b.out| <= i < |v.b.out| && v.b.out[i].packet.Success? ==>
              AnswerOf(v.a, v.b.log != [], v.b.out[i], net)
  {
    hide AnswersAt;
  }

  /** A request reaches the controlled agent. */
  lemma RequestDelivered(w: World, k: nat, q: Path, env: Env, net: Net)
    requires WorldInv(w, net) && k < |w.a.out| && net.toControlled(Path(w.a.out[k].src, w.a.out[k].dst)) == Some(q)
    requires w.b.known && !w.b.failed && !Overtaken(w.b, q.local, q.remote, w.a.out[k].packet, env)
    ensures WorldInv(w.(b := Inbound(w.b, q.local, q.remote, w.a.out[k].packet, env)), net)
  {
    var e := w.a.out[k];
    var v := w.(b := Inbound(w.b, q.local, q.remote, e.packet, env));
    hide Wf, UniqueIds, PendingSent, Inbound, PathOf, Overtaken, Echoes;
    InboundAtControlled(w.b, q.local, q.remote, e.packet, env);
    NewAnswers(w, v, k, net);
    EchoesStay(w, v, net);
    if w.b.log != [] {
      PathStays(w.b, v.b, w.b.log[0]);
    } else if v.b.log != [] {
      assert RequestOk(w.a, w.a.out[k]);
    }
  }

  lemma UnknownHearsNothing(s: AgentState, path: Option<Path>, p: Packet, env: Env)
    requires !s.known
    ensures FrozenReceive(s, path, p, env) == s
  {
    hide FindAddr, HandleSuccess, HandleRequest, WithSender;
  }

  lemma DeliveredToControlled(w: World, k: nat, q: Path, env: Env, net: Net)
    requires WorldInv(w, net) && k < |w.a.out| && net.toControlled(Path(w.a.out[k].src, w.a.out[k].dst)) == Some(q)
    ensures WorldInv(w.(b := FrozenReceive(w.b, Some(q), w.a.out[k].packet, env)), net)
  {
    hide Inv, Echoes, ControlledFollows, ControllingAfter, Announced, Overtaken, Inbound, WithRemote, Steady;
    var p := w.a.out[k].packet;
    if !w.b.known {
      UnknownHearsNothing(w.b, Some(q), p, env);
      hide FrozenReceive;
    } else if !w.b.failed {
      if Overtaken(w.b, q.local, q.remote, p, env) {
        OvertakenIsSteady(w.b, q.local, q.remote, p, env);
        SteadyControlled(w, Freeze(WithRemote(w.b, Reflexive(q.remote, env))), net);
      } else {
        RequestDelivered(w, k, q, env, net);
      }
    }
  }

  /** An answer reaches the controlling agent: it can only be the controlled agent's, on the nominated path. */
  lemma AnswerIsForNominated(w: World, k: nat, net: Net, from: Addr)
    requires WorldInv(w, net) && ReturnsOnPath(net) && k < |w.b.out| && w.b.out[k].packet.Success?
    requires w.a.controlling && Awaits(w.a, w.b.out[k].packet.id, from)
    requires net.toControlling(Path(w.b.out[k].src, w.b.out[k].dst)).Some?
    ensures w.a.nominated.Some? && w.b.log != []
    ensures net.toControlling(Path(w.b.out[k].src, w.b.out[k].dst)) == Some(PathOf(w.a, w.a.nominated.value))
  {
    var e := w.b.out[k];
    assert AnswerOf(w.a, w.b.log != [], e, net);
    var j :| 0 <= j < |w.a.out| && AnswersAt(w.a.out[j], w.b.log != [], e, net);
    var i :| 0 <= i < |w.a.out| && w.a.out[i].packet == Request(e.packet.id, true, true) && w.a.out[i].dst == from;
    assert SameId(w.a.out[i], w.a.out[j]) && SameId(w.a.out[j], w.a.out[i]);
    assert i == j;
    assert RequestOk(w.a, w.a.out[i]);
  }

  lemma AnswerDelivered(w: World, k: nat, q: Path, env: Env, net: Net)
    requires WorldInv(w, net) && ReturnsOnPath(net)
    requires k < |w.b.out| && net.toControlling(Path(w.b.out[k].src, w.b.out[k].dst)) == Some(q)
    requires w.a.known && !w.a.failed && !Overtaken(w.a, q.local, q.remote, w.b.out[k].packet, env)
    ensures WorldInv(w.(a := Inbound(w.a, q.local, q.remote, w.b.out[k].packet, env)), net)
  {
    var e := w.b.out[k];
    var v := w.(a := Inbound(w.a, q.local, q.remote, e.packet, env));
    InboundAtControlling(w.a, q.local, q.remote, e.packet, env);
    if v.a.log != w.a.log {
      AnswerIsForNominated(w, k, net, q.remote);
    }
    hide Wf, UniqueIds, PendingSent, Inbound, PathOf, RequestOk, ReturnsOnPath, Overtaken;
    EchoesStay(w, v, net);
    if w.a.nominated.Some? {
      PathStays(w.a, v.a, w.a.nominated.value);
    }
    if w.a.log != [] {
      PathStays(w.a, v.a, w.a.log[0]);
    }
  }

  lemma DeliveredToControlling(w: World, k: nat, q: Path, env: Env, net: Net)
    requires WorldInv(w, net) && ReturnsOnPath(net)
    requires k < |w.b.out| && net.toControlling(Path(w.b.out[k].src, w.b.out[k].dst)) == Some(q)
    ensures WorldInv(w.(a := FrozenReceive(w.a, Some(q), w.b.out[k].packet, env)), net)
  {
    hide Inv, Echoes, ControlledFollows, ControllingAfter, Announced, Overtaken, Inbound, WithRemote, Steady,
      ReturnsOnPath;
    var p := w.b.out[k].packet;
    if !w.a.known {
      UnknownHearsNothing(w.a, Some(q), p, env);
      hide FrozenReceive;
    } else if !w.a.failed {
      if Overtaken(w.a, q.local, q.remote, p, env) {
        OvertakenIsSteady(w.a, q.local, q.remote, p, env);
        SteadyControlling(w, Freeze(WithRemote(w.a, Reflexive(q.remote, env))), net);
      } else {
        AnswerDelivered(w, k, q, env, net);
      }
    }
  }

  lemma NextKeeps(w: World, st: Step, net: Net)
    requires WorldInv(w, net) && ReturnsOnPath(net)
    ensures WorldInv(FrozenNext(w, st, net), net)
  {
    hide WorldInv, FrozenAlone, ReturnsOnPath;
    match st
    case ToControlled(k, env) =>
      if k < |w.a.out| {
        var path := net.toControlled(Path(w.a.out[k].src, w.a.out[k].dst));
        if path.Some? {
          hide FrozenReceive;
          DeliveredToControlled(w, k, path.value, env, net);
        }
      }
    case ToControlling(k, env) =>
      if k < |w.b.out| {
        var path := net.toControlling(Path(w.b.out[k].src, w.b.out[k].dst));
        if path.Some? {
          hide FrozenReceive;
          DeliveredToControlling(w, k, path.value, env, net);
        }
      }
    case _ =>
      if st.controlling {
        AloneControlling(w, st, net);
      } else {
        AloneControlled(w, st, net);
      }
  }

  // ---------------------------------------------------------------- a failed agent is as good as frozen

  /**
   `s` against the frozen `f`: after a failure they differ in the candidate lists only, of which `s`
   has no local one, and in that `s` may have panicked.
   */
  ghost predicate Follows(s: AgentState, f: AgentState) {
    s == if f.failed then f.(locals := [], remotes := s.remotes, panicked := s.panicked) else f
  }

  /** No local candidate is added to an agent whose connection has failed, and checks are started once. */
  predicate Orderly(w: World, st: Step) {
    && (st.NewLocal? ==> !(if st.controlling then w.a else w.b).failed)
    && (st.Connect? ==> !(if st.controlling then w.a else w.b).known)
  }

  predicate OrderlyRun(w: World, steps: seq<Step>, net: Net)
    decreases |steps|
  {
    steps == [] || (Orderly(w, steps[0]) && OrderlyRun(Next(w, steps[0], net), steps[1..], net))
  }

  lemma NoLocalsNoPairs(s: AgentState, c: Candidate)
    requires s.locals == []
    ensures WithRemote(s, c) == s.(remotes := s.remotes + [c])
  {
    assert s.pairs + [] == s.pairs;
  }

  lemma FailedAlone(s: AgentState, f: AgentState, st: Step)
    requires Follows(s, f) && f.failed && f.known && IsAlone(st) && !st.NewLocal? && !st.Connect?
    ensures Follows(Alone(s, st), f) && Alone(s, st).panicked == s.panicked
  {
    hide ContactControlling, ContactControlled, WithRemote;
    if st.NewRemote? {
      NoLocalsNoPairs(s, st.c);
    }
  }

  /** A live agent: it is frozen exactly where the source fails the connection. */
  lemma LiveOwn(s: AgentState, st: Step)
    requires Inv(s) && !s.failed && IsAlone(st) && !st.Connect?
    ensures Follows(Alone(s, st), FrozenOwn(s, st)) && !Alone(s, st).panicked
  {
    hide RequestOk, UniqueIds, PendingSent, Chosen, Wf, Contact, AddLocal, AddRemote, WithLocal, WithRemote,
      ContactFails;
    match st
    case Tick(_, env) => ContactKeeps(s, env);
    case NewLocal(_, c, env) =>
      AddLocalKeeps(s, c, env);
      WithLocalKeeps(s, c);
    case NewRemote(_, c, env) =>
      AddRemoteKeeps(s, c, env);
      WithRemoteKeeps(s, c);
  }

  lemma StartIsTick(s: AgentState, role: bool, env: Env)
    requires Idle(s) && !s.known && !s.panicked
    ensures Alone(s, Connect(role, env)) == Alone(Started(s, role), Tick(role, env))
  {
    hide ContactControlling, ContactControlled;
  }

  lemma AloneFollows(s: AgentState, f: AgentState, st: Step)
    requires Follows(s, f) && Inv(f) && Idle(f) && IsAlone(st)
    requires (st.NewLocal? ==> !s.failed) && (st.Connect? ==> !s.known)
    ensures Follows(Alone(s, st), FrozenAlone(f, st)) && Alone(s, st).panicked == s.panicked
  {
    if f.failed {
      FailedAlone(s, f, st);
    } else if st.Connect? {
      StartedKeeps(f, st.controlling);
      StartIsTick(s, st.controlling, st.env);
      hide Alone, FrozenOwn;
      LiveOwn(Started(f, st.controlling), Tick(st.controlling, st.env));
    } else {
      hide Alone, FrozenOwn;
      LiveOwn(f, st);
    }
  }

  lemma LiveReceive(s: AgentState, q: Path, p: Packet, env: Env)
    requires Inv(s) && s.known && !s.failed
    ensures Follows(Receive(s, Some(q), p, env), FrozenReceive(s, Some(q), p, env))
    ensures Receive(s, Some(q), p, env).panicked <==> Overtaken(s, q.local, q.remote, p, env)
  {
    WithRemoteKeeps(s, Reflexive(q.remote, env));
    hide Wf, UniqueIds, PendingSent, Chosen, RequestOk, Inbound, Overtaken, WithRemote;
    if s.controlling {
      InboundAtControlling(s, q.local, q.remote, p, env);
    } else {
      InboundAtControlled(s, q.local, q.remote, p, env);
    }
  }

  lemma FailedReceive(s: AgentState, q: Path, p: Packet, env: Env)
    requires s.failed && s.locals == []
    ensures Receive(s, Some(q), p, env) == s && !Overtaken(s, q.local, q.remote, p, env)
  {
    hide HandleSuccess, HandleRequest, WithSender;
  }

  /** A message that makes the agent panic, if it is still there. */
  predicate Unlucky(s: AgentState, path: Option<Path>, p: Packet, env: Env) {
    !s.panicked && path.Some? && Overtaken(s, path.value.local, path.value.remote, p, env)
  }

  lemma ReceiveFollows(s: AgentState, f: AgentState, path: Option<Path>, p: Packet, env: Env)
    requires Follows(s, f) && Inv(f)
    ensures Follows(Receive(s, path, p, env), FrozenReceive(f, path, p, env))
    ensures Receive(s, path, p, env).panicked <==> s.panicked || Unlucky(s, path, p, env)
  {
    if path.Some? {
      if f.failed {
        FailedReceive(s, path.value, p, env);
      } else if s.known {
        hide Receive, FrozenReceive, Overtaken;
        LiveReceive(f, path.value, p, env);
      } else {
        UnknownHearsNothing(s, path, p, env);
        hide FindAddr, HandleSuccess, HandleRequest, WithSender;
      }
    }
  }

  /** The step delivers a message that makes an agent panic. */
  predicate UnluckyStep(w: World, st: Step, net: Net) {
    match st
    case ToControlled(k, env) =>
      k < |w.a.out| && Unlucky(w.b, net.toControlled(Path(w.a.out[k].src, w.a.out[k].dst)), w.a.out[k].packet, env)
    case ToControlling(k, env) =>
      k < |w.b.out| && Unlucky(w.a, net.toControlling(Path(w.b.out[k].src, w.b.out[k].dst)), w.b.out[k].packet, env)
    case _ => false
  }

  predicate Panicked(w: World) {
    w.a.panicked || w.b.panicked
  }

  lemma NextFollows(w: World, v: World, st: Step, net: Net)
    requires WorldInv(v, net) && Follows(w.a, v.a) && Follows(w.b, v.b) && Orderly(w, st)
    ensures Follows(Next(w, st, net).a, FrozenNext(v, st, net).a)
    ensures Follows(Next(w, st, net).b, FrozenNext(v, st, net).b)
    ensures Panicked(Next(w, st, net)) <==> Panicked(w) || UnluckyStep(w, st, net)
  {
    hide Receive, FrozenReceive, Alone, FrozenAlone, Echoes, ControlledFollows, ControllingAfter, Announced, Inv,
      Unlucky;
    match st
    case ToControlled(k, env) =>
      if k < |w.a.out| {
        var e := w.a.out[k];
        ReceiveFollows(w.b, v.b, net.toControlled(Path(e.src, e.dst)), e.packet, env);
      }
    case ToControlling(k, env) =>
      if k < |w.b.out| {
        var e := w.b.out[k];
        ReceiveFollows(w.a, v.a, net.toControlling(Path(e.src, e.dst)), e.packet, env);
      }
    case _ =>
      if st.controlling {
        AloneFollows(w.a, v.a, st);
      } else {
        AloneFollows(w.b, v.b, st);
      }
  }

  // ---------------------------------------------------------------- runs

  ghost function FrozenRun(v: World, steps: seq<Step>, net: Net): (r: World)
    requires WorldInv(v, net) && ReturnsOnPath(net)
    ensures WorldInv(r, net)
    decreases |steps|
  {
    if steps == [] then v
    else
      NextKeeps(v, steps[0], net);
      FrozenRun(FrozenNext(v, steps[0], net), steps[1..], net)
  }

  /** Some step of the run delivers a message that makes an agent panic. */
  predicate UnluckyRun(w: World, steps: seq<Step>, net: Net)
    decreases |steps|
  {
    steps != [] && (UnluckyStep(w, steps[0], net) || UnluckyRun(Next(w, steps[0], net), steps[1..], net))
  }

  lemma {:induction false} RunFollows(w: World, v: World, steps: seq<Step>, net: Net)
    requires WorldInv(v, net) && ReturnsOnPath(net) && Follows(w.a, v.a) && Follows(w.b, v.b)
    requires OrderlyRun(w, steps, net)
    ensures Follows(Run(w, steps, net).a, FrozenRun(v, steps, net).a)
    ensures Follows(Run(w, steps, net).b, FrozenRun(v, steps, net).b)
    ensures Panicked(Run(w, steps, net)) <==> Panicked(w) || UnluckyRun(w, steps, net)
    decreases |steps|
  {
    hide Next, FrozenNext, WorldInv, Follows, ReturnsOnPath, UnluckyStep, Panicked;
    if steps != [] {
      NextKeeps(v, steps[0], net);
      NextFollows(w, v, steps[0], net);
      RunFollows(Next(w, steps[0], net), FrozenNext(v, steps[0], net), steps[1..], net);
    }
  }

  /** Two agents as configured, whatever role each was configured with. */
  function Start(roleA: bool, roleB: bool, lite: bool, maxA: nat, maxB: nat): World {
    World(NewAgent(roleA, false, maxA), NewAgent(roleB, lite, maxB))
  }

  ghost predicate Nominates(e: Envelope) {
    e.packet.Request? && e.packet.useCandidate
  }

  /** Every pair the agent ever selected it had found valid, and it has one selected only if it is the one. */
  ghost predicate SoundSelection(s: AgentState) {
    && |s.events| == |s.log| <= 1
    && (s.log != [] ==> s.log[0] < |s.pairs| && s.pairs[s.log[0]].state == Succeeded)
    && (s.selected.Some? ==> s.log == [s.selected.value])
  }

  /** What the two agents agree on. */
  ghost predicate Agreed(w: World, net: Net) {
    && (forall j, k :: 0 <= j < |w.a.out| && 0 <= k < |w.a.out| && Nominates(w.a.out[j]) && Nominates(w.a.out[k]) ==>
          w.a.out[j].src == w.a.out[k].src && w.a.out[j].dst == w.a.out[k].dst)
    && SoundSelection(w.a) && SoundSelection(w.b)
    && (w.a.events != [] ==> w.b.events != [] && net.toControlled(w.a.events[0]) == Some(w.b.events[0]))
  }

  lemma StartInv(roleA: bool, roleB: bool, lite: bool, maxA: nat, maxB: nat, net: Net)
    ensures WorldInv(Start(roleA, roleB, lite, maxA, maxB), net)
  {
  }

  lemma FrozenAgree(v: World, net: Net)
    requires WorldInv(v, net)
    ensures Agreed(v, net)
  {
    forall j, k | 0 <= j < |v.a.out| && 0 <= k < |v.a.out| && Nominates(v.a.out[j]) && Nominates(v.a.out[k])
      ensures v.a.out[j].src == v.a.out[k].src && v.a.out[j].dst == v.a.out[k].dst
    {
      assert RequestOk(v.a, v.a.out[j]) && RequestOk(v.a, v.a.out[k]);
    }
  }

  lemma FollowersAgree(w: World, v: World, net: Net)
    requires Agreed(v, net) && Follows(w.a, v.a) && Follows(w.b, v.b)
    ensures Agreed(w, net)
  {
  }

  /**
   Agreement, for any timing, any failures and any losses, repetitions and reorderings, as long as
   checks are started once and no local candidate is added to an agent whose connection has failed:
   only one pair ever carries USE-CANDIDATE; each side selects at most once, and only a pair it has
   found valid; the controlling side selects only after the controlled side has; and the two
   selections are the two ends of the same path.  An agent panics exactly when a request from an
   address it does not know reaches it after its connection was due to fail and before it did.
   */
  lemma NominationAgreement(roleA: bool, roleB: bool, lite: bool, maxA: nat, maxB: nat, steps: seq<Step>, net: Net)
    requires ReturnsOnPath(net) && OrderlyRun(Start(roleA, roleB, lite, maxA, maxB), steps, net)
    ensures Agreed(Run(Start(roleA, roleB, lite, maxA, maxB), steps, net), net)
    ensures var w := Start(roleA, roleB, lite, maxA, maxB);
            Panicked(Run(w, steps, net)) <==> UnluckyRun(w, steps, net)
  {
    var w := Start(roleA, roleB, lite, maxA, maxB);
    StartInv(roleA, roleB, lite, maxA, maxB, net);
    RunFollows(w, w, steps, net);
    hide WorldInv, Agreed, Follows, Run, FrozenRun, UnluckyRun;
    FrozenAgree(FrozenRun(w, steps, net), net);
    FollowersAgree(Run(w, steps, net), FrozenRun(w, steps, net), net);
  }
}
