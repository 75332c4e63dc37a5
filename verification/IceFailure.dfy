/**
 Why agreement needs its conditions, and how an agent panics.  Two runs in which the controlled agent
 selects, fails and selects a second time: it is given a local candidate, or it is started again
 first (rtc-ice/src/agent/mod.rs:274-290, 449-467, 549-566, 733-738).  One run in which a request is
 overtaken by the deadline for checking (rtc-ice/src/agent/mod.rs:531-540, 994-995).
 */
module IceFailure {
  import opened Bytes
  import opened IceAgent
  import opened IceNomination

  const OURS := Candidate(1, 9)
  const THEIRS := Candidate(2, 9)

  /** Every candidate is ready, every request young. */
  function Prompt(): Env {
    Env((n: nat) => true, (n: nat) => true, false, false, false, (n: nat, i: nat) => true, 5)
  }

  /** Nothing has come in on the selected pair for too long. */
  function Silence(): Env {
    Prompt().(lost := true)
  }

  /** Checking has taken too long. */
  function Late(): Env {
    Prompt().(expired := true)
  }

  /** A network without address translation. */
  function Swap(): Net {
    Net((p: Path) => Some(Path(p.remote, p.local)), (p: Path) => Some(Path(p.remote, p.local)))
  }

  lemma SwapReturns()
    ensures ReturnsOnPath(Swap())
  {
  }

  /** The pair of the two agents with one check sent. */
  function Checked(state: PairState, remotePriority: nat, controlling: bool, nominated: bool): Pair {
    Pair(0, 0, state, 1, 9, remotePriority, controlling, nominated)
  }

  /** Checks are started and there is one local candidate. */
  function ReadyA(): AgentState {
    NewAgent(true, false, 7).(known := true, locals := [OURS])
  }

  function ReadyB(): AgentState {
    NewAgent(false, false, 7).(known := true, locals := [THEIRS])
  }

  function Asking(): AgentState {
    ReadyA().(remotes := [THEIRS], pairs := [Checked(InProgress, 9, true, false)],
      pending := [Pending(0, 2, false)], nextId := 1, out := [Envelope(1, 2, Request(0, false, true))])
  }

  function Answering(): AgentState {
    ReadyB().(remotes := [Candidate(1, 5)], pairs := [Checked(InProgress, 5, false, false)],
      pending := [Pending(0, 1, false), Pending(1, 1, false)], nextId := 2,
      out := [Envelope(2, 1, Request(0, false, false)), Envelope(2, 1, Success(0)),
        Envelope(2, 1, Request(1, false, false))])
  }

  function Valid(): AgentState {
    Asking().(pairs := [Checked(Succeeded, 9, true, false)], pending := [])
  }

  function Nominating(): AgentState {
    Valid().(nominated := Some(0), pending := [Pending(1, 2, true)], nextId := 2,
      out := [Envelope(1, 2, Request(0, false, true)), Envelope(1, 2, Success(0)),
        Envelope(1, 2, Request(1, true, true))])
  }

  function Settled(): AgentState {
    Answering().(pairs := [Checked(Succeeded, 5, false, true)], pending := [Pending(1, 1, false)], selected := Some(0),
      out := Answering().out + [Envelope(2, 1, Success(1))], log := [0], events := [Path(2, 1)])
  }

  function Revived(): AgentState {
    Fail(Settled()).(locals := [THEIRS])
  }

  lemma OneTarget(p: Pair)
    requires p.state == Waiting && p.requests == 0
    ensures MarkAll([p], 7) == [p.(state := InProgress, requests := 1)] && Targets([p], 7) == [TargetOf(p)]
  {
    assert [p][..0] == [];
    assert MarkAll([p], 7) == MarkAll([], 7) + [Marked(p, 7)];
    assert Targets([p], 7) == Targets([], 7) + [TargetOf(p)];
  }

  /** A first check of a single pair. */
  lemma FirstCheck(s: AgentState, p: Pair, env: Env)
    requires s.pairs == [p] && p.state == Waiting && p.requests == 0 && s.maxRequests == 7
    ensures PingAll(s, env)
            == SendRequest(s.(pairs := [p.(state := InProgress, requests := 1)]), false, TargetOf(p), env)
  {
    OneTarget(p);
    var ts := [TargetOf(p)];
    var s1 := s.(pairs := [p.(state := InProgress, requests := 1)]);
    hide SendRequest;
    assert ts[..0] == [];
    assert PingEach(s1, ts[..0], env) == s1;
  }

  lemma NothingToPing(s: AgentState, env: Env)
    requires s.pairs == []
    ensures PingAll(s, env) == s
  {
  }

  /** The first candidate of the other side, met by an agent with one of its own. */
  lemma FirstPair(s: AgentState, c: Candidate)
    requires |s.locals| == 1 && s.remotes == []
    ensures var p := Pair(0, 0, Waiting, 0, s.locals[0].priority, c.priority, s.controlling, false);
            WithRemote(s, c) == s.(remotes := [c], pairs := s.pairs + [p])
  {
    var s1 := s.(remotes := s.remotes + [c]);
    assert s1.remotes == [c];
    assert PairsWithRemote(s1, 0, 0) == [];
    assert PairsWithRemote(s1, 0, 1) == [NewPair(s1, 0, 0)];
  }

  // ---------------------------------------------------------------- the steps

  lemma StepStart(role: bool)
    ensures Begin(NewAgent(role, false, 7), role, Prompt()) == NewAgent(role, false, 7).(known := true)
  {
    NothingToPing(NewAgent(role, false, 7).(known := true), Prompt());
    hide PingAll;
  }

  lemma StepLocal(role: bool, c: Candidate)
    ensures AddLocal(NewAgent(role, false, 7).(known := true), c, Prompt())
         == NewAgent(role, false, 7).(known := true, locals := [c])
  {
    var s := NewAgent(role, false, 7).(known := true);
    assert WithLocal(s, c) == s.(locals := [c]);
    NothingToPing(WithLocal(s, c), Prompt());
    hide PingAll, WithLocal;
  }

  lemma ChecksFirst(s: AgentState, env: Env)
    requires s.controlling && s.known && !s.failed && !env.expired && s.selected == None && s.nominated == None
    requires |s.pairs| == 1 && s.pairs[0].state == Waiting
    ensures Contact(s, env) == PingAll(s, env)
  {
    assert BestFrom(s.pairs, true, 0, None) == BestFrom(s.pairs, true, 1, None) == None;
    hide PingAll, BestFrom;
  }

  /** The controlling agent learns of the other side and checks the pair. */
  lemma StepAsk()
    ensures AddRemote(ReadyA(), THEIRS, Prompt()) == Asking()
  {
    var s := ReadyA();
    FirstPair(s, THEIRS);
    var s1 := WithRemote(s, THEIRS);
    ChecksFirst(s1, Prompt());
    FirstCheck(s1, s1.pairs[0], Prompt());
    hide PingAll, WithRemote, Contact;
  }

  /** The controlled agent has learned of its peer and checks the pair. */
  function Heard(): AgentState {
    Answering().(pending := [Pending(0, 1, false)], nextId := 1, out := [Envelope(2, 1, Request(0, false, false))])
  }

  /** A first remote candidate at the controlled agent is checked. */
  lemma FirstRemote(c: Candidate)
    ensures AddRemote(ReadyB(), c, Prompt())
         == ReadyB().(remotes := [c], pairs := [Checked(InProgress, c.priority, false, false)],
                      pending := [Pending(0, c.addr, false)], nextId := 1,
                      out := [Envelope(2, c.addr, Request(0, false, false))])
  {
    var s := ReadyB();
    FirstPair(s, c);
    var s1 := WithRemote(s, c);
    FirstCheck(s1, s1.pairs[0], Prompt());
    hide PingAll, WithRemote;
  }

  lemma StepHeard()
    ensures WithSender(ReadyB(), 1, Prompt()) == Heard() && |Heard().remotes| == 1
  {
    FirstRemote(Candidate(1, 5));
    hide AddRemote;
  }

  lemma StepAnswered()
    ensures HandleRequest(Heard(), 0, false, 0, 0, Prompt()) == Answering()
  {
    var s := Heard();
    assert FindPair(s.pairs, 0, 0, 0) == Some(0);
    var s1 := SendSuccess(s, 0, Target(0, 0));
    assert s1 == s.(out := s.out + [Envelope(2, 1, Success(0))]);
    assert StillAlive(s1.pending, 1, Prompt().alive) == [Pending(0, 1, false)];
    hide StillAlive;
    assert SendRequest(s1, false, Target(0, 0), Prompt()).out == Answering().out;
  }

  lemma Lookups()
    ensures FindAddr([THEIRS], 2, 0) == Some(0) && FindAddr([OURS], 1, 0) == Some(0) && FindAddr([], 1, 0) == None
  {
  }

  /** The controlled agent answers the check and sends its own. */
  lemma StepAnswer()
    ensures Inbound(ReadyB(), 2, 1, Request(0, false, true), Prompt()) == Answering()
  {
    hide WithSender, HandleRequest, HandleSuccess, FindAddr, Heard, Answering, Prompt;
    StepHeard();
    StepAnswered();
    Lookups();
  }

  lemma StepValid()
    ensures Inbound(Asking(), 1, 2, Success(0), Prompt()) == Valid()
  {
    var s := Asking();
    assert FindAddr(s.locals, 1, 0) == Some(0) && FindAddr(s.remotes, 2, 0) == Some(0);
    assert FindPair(s.pairs, 0, 0, 0) == Some(0);
    var young := StillAlive(s.pending, 1, Prompt().alive);
    assert young == [Pending(0, 2, false)];
    assert FindPending(young, 0, 0) == Some(0);
  }

  /** The other side's check makes the controlling agent nominate. */
  lemma StepNominate()
    ensures Inbound(Valid(), 1, 2, Request(0, false, false), Prompt()) == Nominating()
  {
    var s := Valid();
    assert FindAddr(s.locals, 1, 0) == Some(0) && FindAddr(s.remotes, 2, 0) == Some(0);
    assert FindPair(s.pairs, 0, 0, 0) == Some(0);
    assert BestFrom(s.pairs, false, 0, None) == BestFrom(s.pairs, false, 1, Some(0)) == Some(0);
    assert StillAlive([], 1, Prompt().alive) == [];
  }

  function Confirmed(): AgentState {
    Answering().(pairs := [Checked(Succeeded, 5, false, false)], pending := [Pending(1, 1, false)])
  }

  lemma BothYoung()
    ensures StillAlive(Answering().pending, 2, Prompt().alive) == Answering().pending
  {
    var ps := Answering().pending;
    assert ps[1..] == [Pending(1, 1, false)];
    assert StillAlive(ps[1..], 2, Prompt().alive) == [Pending(1, 1, false)];
  }

  /** The answer makes the pair valid at the controlled agent. */
  lemma StepConfirm()
    ensures Inbound(Answering(), 2, 1, Success(0), Prompt()) == Confirmed()
  {
    var s := Answering();
    assert FindAddr(s.locals, 2, 0) == Some(0) && FindAddr(s.remotes, 1, 0) == Some(0);
    assert FindPair(s.pairs, 0, 0, 0) == Some(0);
    BothYoung();
    assert FindPending(s.pending, 0, 0) == Some(0);
    hide FindAddr, FindPair, StillAlive, FindPending;
  }

  /** The USE-CANDIDATE request selects it. */
  lemma StepSelect()
    ensures Inbound(Confirmed(), 2, 1, Request(1, true, true), Prompt()) == Settled()
  {
    var s := Confirmed();
    assert FindAddr(s.locals, 2, 0) == Some(0) && FindAddr(s.remotes, 1, 0) == Some(0);
    assert FindPair(s.pairs, 0, 0, 0) == Some(0);
    hide FindAddr, FindPair;
  }

  lemma StepFail()
    ensures Contact(Settled(), Silence()) == Fail(Settled())
  {
  }

  /** A local candidate is added to the agent that failed. */
  lemma StepRevive()
    ensures AddLocal(Fail(Settled()), THEIRS, Prompt()) == Revived()
  {
    var s := Fail(Settled());
    assert s.pairs + [] == s.pairs;
  }

  lemma NoChecks(s: AgentState, env: Env)
    requires |s.pairs| == 1 && s.pairs[0].state == Succeeded
    ensures PingAll(s, env) == s
  {
    assert s.pairs[..0] == [];
    assert MarkAll(s.pairs, s.maxRequests) == MarkAll(s.pairs[..0], s.maxRequests) + [s.pairs[0]];
    assert Targets(s.pairs, s.maxRequests) == Targets(s.pairs[..0], s.maxRequests);
  }

  /** Or it is started again first, and then is like new but for the pairs it keeps. */
  lemma StepRestart()
    ensures Begin(Fail(Settled()), false, Prompt()) == Fail(Settled()).(failed := false)
    ensures AddLocal(Fail(Settled()).(failed := false), THEIRS, Prompt()) == Revived().(failed := false)
  {
    var s := Fail(Settled()).(failed := false);
    NoChecks(s, Prompt());
    assert s.pairs + [] == s.pairs;
    assert WithLocal(s, THEIRS) == Revived().(failed := false);
    NoChecks(Revived().(failed := false), Prompt());
    hide PingAll, WithLocal, Settled, Revived;
    var t := Settled();
    assert t.selected.Some? && !t.failed && !t.controlling && !t.lite && t.known && t.nominated == None by {
      Facts();
    }
    assert Revived() == Fail(t).(locals := [THEIRS]) by {
      Facts();
    }
  }

  lemma Facts()
    ensures var t := Settled(); t.selected.Some? && !t.failed && !t.controlling && !t.lite && t.known
    ensures Settled().nominated == None && Revived() == Fail(Settled()).(locals := [THEIRS])
  {
  }

  /** The peer becomes a new remote candidate, under the index it had before. */
  function HeardAgain(): AgentState {
    Revived().(remotes := [Candidate(1, 5)],
      pairs := [Checked(Succeeded, 5, false, true), Pair(0, 0, Waiting, 0, 9, 5, false, false)])
  }

  /** As `HeardAgain` after a restart, when the new pair is checked at once. */
  function CheckedAgain(): AgentState {
    HeardAgain().(failed := false,
      pairs := [Checked(Succeeded, 5, false, true), Checked(InProgress, 5, false, false)],
      pending := [Pending(1, 1, false), Pending(2, 1, false)], nextId := 3,
      out := Revived().out + [Envelope(2, 1, Request(2, false, false))])
  }

  lemma StepHeardAgain()
    ensures WithSender(Revived(), 1, Prompt()) == HeardAgain()
  {
    FirstPair(Revived(), Candidate(1, 5));
    assert Revived().pairs == [Checked(Succeeded, 5, false, true)];
    hide WithRemote;
  }

  /** A check of the second of two pairs, the first being valid. */
  lemma SecondCheck(s: AgentState, p: Pair, env: Env)
    requires |s.pairs| == 2 && s.pairs[0].state == Succeeded && s.pairs[1] == p && s.maxRequests == 7
    requires p.state == Waiting && p.requests == 0
    ensures PingAll(s, env)
         == SendRequest(s.(pairs := [s.pairs[0], p.(state := InProgress, requests := 1)]), false, TargetOf(p), env)
  {
    var ps := s.pairs;
    assert ps[..1] == [ps[0]] && ps[..1][..0] == [];
    assert MarkAll(ps[..1], 7) == [ps[0]] && Targets(ps[..1], 7) == [];
    assert MarkAll(ps, 7) == [ps[0], p.(state := InProgress, requests := 1)];
    var ts := Targets(ps, 7);
    assert ts == [TargetOf(p)] && ts[..0] == [];
    hide SendRequest, MarkAll, Targets;
    assert PingEach(s.(pairs := MarkAll(ps, 7)), ts[..0], env) == s.(pairs := MarkAll(ps, 7));
  }

  lemma YoungAgain()
    ensures StillAlive([Pending(1, 1, false)], 2, Prompt().alive) == [Pending(1, 1, false)]
  {
  }

  lemma StepCheckedAgain()
    ensures WithSender(Revived().(failed := false), 1, Prompt()) == CheckedAgain()
  {
    var s := Revived().(failed := false);
    FirstPair(s, Candidate(1, 5));
    assert s.pairs == [Checked(Succeeded, 5, false, true)];
    var s1 := WithRemote(s, Candidate(1, 5));
    assert s1 == HeardAgain().(failed := false);
    SecondCheck(s1, s1.pairs[1], Prompt());
    YoungAgain();
    hide WithRemote, PingAll, StillAlive;
  }

  /** A USE-CANDIDATE request on a valid pair selects it, selected before or not. */
  lemma StepSelects(s: AgentState, id: nat, env: Env)
    requires |s.locals| == 1 && |s.remotes| == 1 && !s.controlling && s.selected == None && s.pairs != []
    requires s.pairs[0].state == Succeeded && TargetOf(s.pairs[0]) == Target(0, 0)
    ensures HandleRequest(s, id, true, 0, 0, env).log == s.log + [0]
  {
    assert FindPair(s.pairs, 0, 0, 0) == Some(0);
    hide SendSuccess, FindPair, SendRequest;
  }

  /** The same USE-CANDIDATE request again: the old pair, still marked valid, is selected. */
  lemma StepSelectAgain()
    ensures Inbound(Revived(), 2, 1, Request(1, true, true), Prompt()).log == [0, 0]
  {
    Lookups();
    StepHeardAgain();
    var s, s1 := Revived(), HeardAgain();
    StepSelects(s1, 1, Prompt());
    assert s.locals == [THEIRS] && s.remotes == [] && s.known && !s.controlling && |s1.remotes| == 1 && s1.log == [0];
    hide WithSender, HandleRequest, HandleSuccess, FindAddr, Revived, HeardAgain, Prompt;
  }

  lemma StepSelectRestarted()
    ensures Inbound(Revived().(failed := false), 2, 1, Request(1, true, true), Prompt()).log == [0, 0]
  {
    Lookups();
    StepCheckedAgain();
    var s, s1 := Revived().(failed := false), CheckedAgain();
    StepSelects(s1, 1, Prompt());
    assert s.locals == [THEIRS] && s.remotes == [] && s.known && !s.controlling && |s1.remotes| == 1 && s1.log == [0];
    hide WithSender, HandleRequest, HandleSuccess, FindAddr, Revived, CheckedAgain, Prompt;
  }

  // ---------------------------------------------------------------- runs, step by step

  lemma {:induction false} RunSnoc(w: World, steps: seq<Step>, k: nat, net: Net)
    requires k < |steps|
    ensures Run(w, steps[..k + 1], net) == Next(Run(w, steps[..k], net), steps[k], net)
    decreases k
  {
    hide Next;
    assert steps[..k + 1][0] == steps[0];
    if k == 0 {
      assert steps[..1][1..] == [];
    } else {
      assert steps[..k + 1][1..] == steps[1..][..k] && steps[..k][1..] == steps[1..][..k - 1];
      RunSnoc(Next(w, steps[0], net), steps[1..], k - 1, net);
    }
  }

  lemma {:induction false} OrderlySnoc(w: World, steps: seq<Step>, k: nat, net: Net)
    requires k < |steps| && OrderlyRun(w, steps[..k], net) && Orderly(Run(w, steps[..k], net), steps[k])
    ensures OrderlyRun(w, steps[..k + 1], net)
    decreases k
  {
    hide Next, Orderly;
    assert steps[..k + 1][0] == steps[0];
    if k == 0 {
      assert steps[..1][1..] == [];
    } else {
      assert steps[..k + 1][1..] == steps[1..][..k] && steps[..k][1..] == steps[1..][..k - 1];
      OrderlySnoc(Next(w, steps[0], net), steps[1..], k - 1, net);
    }
  }

  function Initial(): World {
    Start(true, false, false, 7, 7)
  }

  /** After `k` steps. */
  function After(steps: seq<Step>, k: nat): World
    requires k <= |steps|
  {
    Run(Initial(), steps[..k], Swap())
  }

  predicate OrderlyTo(steps: seq<Step>, k: nat)
    requires k <= |steps|
  {
    OrderlyRun(Initial(), steps[..k], Swap())
  }

  lemma Advance(steps: seq<Step>, k: nat)
    requires k < |steps|
    ensures After(steps, k + 1) == Next(After(steps, k), steps[k], Swap())
    ensures OrderlyTo(steps, k) && Orderly(After(steps, k), steps[k]) ==> OrderlyTo(steps, k + 1)
  {
    RunSnoc(Initial(), steps, k, Swap());
    if OrderlyTo(steps, k) && Orderly(After(steps, k), steps[k]) {
      OrderlySnoc(Initial(), steps, k, Swap());
    }
  }

  lemma Ends(steps: seq<Step>)
    ensures After(steps, 0) == Initial() && After(steps, |steps|) == Run(Initial(), steps, Swap())
    ensures OrderlyTo(steps, 0) && (OrderlyTo(steps, |steps|) ==> OrderlyRun(Initial(), steps, Swap()))
  {
    assert steps[..|steps|] == steps;
  }

  /** How the two agents meet over `Swap`. */
  lemma Delivered(w: World, k: nat, env: Env)
    ensures k < |w.a.out| && !w.b.panicked ==>
              var e := w.a.out[k];
              Next(w, ToControlled(k, env), Swap()) == World(w.a, Inbound(w.b, e.dst, e.src, e.packet, env))
    ensures k < |w.b.out| && !w.a.panicked ==>
              var e := w.b.out[k];
              Next(w, ToControlling(k, env), Swap()) == World(Inbound(w.a, e.dst, e.src, e.packet, env), w.b)
  {
    hide Inbound;
  }

  /** Both agents are started and get a local candidate. */
  function Setup(): seq<Step> {
    var env := Prompt();
    [Connect(true, env), Connect(false, env), NewLocal(false, THEIRS, env), NewLocal(true, OURS, env)]
  }

  lemma RunSetup(steps: seq<Step>)
    requires Setup() <= steps
    ensures After(steps, 4) == World(ReadyA(), ReadyB()) && OrderlyTo(steps, 4)
  {
    hide Inbound, AddLocal, AddRemote, Begin, After, Contact, OrderlyTo;
    StepStart(true);
    StepStart(false);
    StepLocal(true, OURS);
    StepLocal(false, THEIRS);
    Ends(steps);
    Advance(steps, 0);
    Advance(steps, 1);
    Advance(steps, 2);
    Advance(steps, 3);
  }

  // ---------------------------------------------------------------- selecting twice

  /** The controlled agent selects and then fails. */
  function Fails(): seq<Step> {
    var env := Prompt();
    Setup() + [NewRemote(true, THEIRS, env), ToControlled(0, env), ToControlling(1, env), ToControlling(0, env),
               ToControlled(1, env), ToControlled(2, env), Tick(false, Silence())]
  }

  lemma FailsAt(steps: seq<Step>)
    requires Fails() <= steps
    ensures Setup() <= steps && |steps| >= 11
    ensures steps[4] == NewRemote(true, THEIRS, Prompt()) && steps[5] == ToControlled(0, Prompt())
    ensures steps[6] == ToControlling(1, Prompt()) && steps[7] == ToControlling(0, Prompt())
    ensures steps[8] == ToControlled(1, Prompt()) && steps[9] == ToControlled(2, Prompt())
    ensures steps[10] == Tick(false, Silence())
  {
  }

  lemma NextAsks()
    ensures Next(World(ReadyA(), ReadyB()), NewRemote(true, THEIRS, Prompt()), Swap()) == World(Asking(), ReadyB())
  {
    StepAsk();
    hide AddRemote, Asking;
  }

  lemma NextAnswers()
    ensures Next(World(Asking(), ReadyB()), ToControlled(0, Prompt()), Swap()) == World(Asking(), Answering())
  {
    StepAnswer();
    hide Inbound, Next, Answering;
    Delivered(World(Asking(), ReadyB()), 0, Prompt());
  }

  lemma NextValid()
    ensures Next(World(Asking(), Answering()), ToControlling(1, Prompt()), Swap()) == World(Valid(), Answering())
  {
    StepValid();
    hide Inbound, Next, Valid;
    Delivered(World(Asking(), Answering()), 1, Prompt());
  }

  lemma NextNominates()
    ensures Next(World(Valid(), Answering()), ToControlling(0, Prompt()), Swap()) == World(Nominating(), Answering())
  {
    StepNominate();
    hide Inbound, Next, Nominating;
    Delivered(World(Valid(), Answering()), 0, Prompt());
  }

  lemma NextConfirms()
    ensures Next(World(Nominating(), Answering()), ToControlled(1, Prompt()), Swap())
         == World(Nominating(), Confirmed())
  {
    StepConfirm();
    hide Inbound, Next, Confirmed;
    Delivered(World(Nominating(), Answering()), 1, Prompt());
  }

  lemma NextSelects()
    ensures Next(World(Nominating(), Confirmed()), ToControlled(2, Prompt()), Swap()) == World(Nominating(), Settled())
  {
    StepSelect();
    hide Inbound, Next, Settled;
    Delivered(World(Nominating(), Confirmed()), 2, Prompt());
  }

  lemma NextFails()
    ensures Next(World(Nominating(), Settled()), Tick(false, Silence()), Swap()) == World(Nominating(), Fail(Settled()))
  {
    StepFail();
    hide Contact, Nominating;
  }

  lemma RunFails(steps: seq<Step>)
    requires Fails() <= steps && |steps| >= 11
    ensures After(steps, 11) == World(Nominating(), Fail(Settled()))
  {
    hide Next, After, Fails, Setup, OrderlyTo, Orderly, Prompt, Silence, Swap, ReadyA, ReadyB, Asking, Answering,
      Valid, Nominating, Confirmed, Settled, Fail;
    FailsAt(steps);
    RunSetup(steps);
    NextAsks();
    Advance(steps, 4);
    NextAnswers();
    Advance(steps, 5);
    NextValid();
    Advance(steps, 6);
    NextNominates();
    Advance(steps, 7);
    NextConfirms();
    Advance(steps, 8);
    NextSelects();
    Advance(steps, 9);
    NextFails();
    Advance(steps, 10);
  }

  /** Then it is given a local candidate, and the request comes again. */
  function Revival(): seq<Step> {
    Fails() + [NewLocal(false, THEIRS, Prompt()), ToControlled(2, Prompt())]
  }

  lemma NextRevives()
    ensures var w := Next(World(Nominating(), Fail(Settled())), NewLocal(false, THEIRS, Prompt()), Swap());
            w == World(Nominating(), Revived()) && Fail(Settled()).failed
    ensures Next(World(Nominating(), Revived()), ToControlled(2, Prompt()), Swap()).b.log == [0, 0]
  {
    StepRevive();
    StepSelectAgain();
    hide Inbound, AddLocal;
    Delivered(World(Nominating(), Revived()), 2, Prompt());
  }

  lemma RunRevives()
    ensures |Revival()| == 13 && After(Revival(), 13).b.log == [0, 0] && After(Revival(), 11).b.failed
  {
    hide Next, After, Fails, OrderlyTo, Orderly, Prompt, Swap, Nominating, Settled, Revived, Fail;
    var steps := Revival();
    LengthOfFails();
    assert Fails() <= steps;
    RunFails(steps);
    NextRevives();
    Advance(steps, 11);
    Advance(steps, 12);
  }

  lemma LengthOfFails()
    ensures |Fails()| == 11
  {
  }

  /** Or it is started again before. */
  function Restart(): seq<Step> {
    Fails() + [Connect(false, Prompt()), NewLocal(false, THEIRS, Prompt()), ToControlled(2, Prompt())]
  }

  lemma NextRestarts()
    ensures Next(World(Nominating(), Fail(Settled())), Connect(false, Prompt()), Swap())
         == World(Nominating(), Fail(Settled()).(failed := false))
    ensures Next(World(Nominating(), Fail(Settled()).(failed := false)), NewLocal(false, THEIRS, Prompt()), Swap())
         == World(Nominating(), Revived().(failed := false))
    ensures Next(World(Nominating(), Revived().(failed := false)), ToControlled(2, Prompt()), Swap()).b.log == [0, 0]
    ensures Fail(Settled()).known
  {
    StepRestart();
    StepSelectRestarted();
    hide Inbound, AddLocal, Begin;
    Delivered(World(Nominating(), Revived().(failed := false)), 2, Prompt());
  }

  lemma RunRestarts()
    ensures |Restart()| == 14 && After(Restart(), 14).b.log == [0, 0]
    ensures After(Restart(), 11).b.known && !After(Restart(), 12).b.failed
  {
    hide Next, After, Fails, OrderlyTo, Orderly, Prompt, Swap, Nominating, Settled, Revived, Fail;
    var steps := Restart();
    LengthOfFails();
    assert Fails() <= steps;
    RunFails(steps);
    NextRestarts();
    Advance(steps, 11);
    Advance(steps, 12);
    Advance(steps, 13);
  }

  /**
   The controlled agent selects, fails, gets a local candidate and selects a second time, on the
   strength of a pair it checked before the failure.
   */
  lemma SelectsTwice()
    ensures ReturnsOnPath(Swap()) && |Revival()| == 13 && !Orderly(After(Revival(), 11), Revival()[11])
    ensures var w := Run(Initial(), Revival(), Swap()); w.b.log == [0, 0] && !Agreed(w, Swap())
  {
    hide Run, After, Fails, OrderlyTo;
    SwapReturns();
    LengthOfFails();
    RunRevives();
    Ends(Revival());
  }

  /** The same if the agent that failed is started again, though it gets its candidate after that. */
  lemma SelectsTwiceRestarted()
    ensures |Restart()| == 14 && !Orderly(After(Restart(), 11), Restart()[11])
    ensures Orderly(After(Restart(), 12), Restart()[12])
    ensures var w := Run(Initial(), Restart(), Swap()); w.b.log == [0, 0] && !Agreed(w, Swap())
  {
    hide Run, After, Fails, OrderlyTo;
    LengthOfFails();
    RunRestarts();
    Ends(Restart());
  }

  // ---------------------------------------------------------------- a panic

  /** The controlled agent checks a pair the controlling one does not know, and checking takes too long. */
  function Overtakes(): seq<Step> {
    Setup() + [NewRemote(false, OURS, Prompt()), ToControlling(0, Late())]
  }

  lemma StepPanic()
    ensures Inbound(ReadyA(), 1, 2, Request(0, false, false), Late()).panicked
  {
    Lookups();
    var s := ReadyA();
    assert Contact(WithRemote(s, Candidate(2, 5)), Late()) == Fail(WithRemote(s, Candidate(2, 5)));
    hide FindAddr, HandleRequest, WithRemote, Contact;
    assert WithSender(s, 2, Late()) == Fail(WithRemote(s, Candidate(2, 5)));
    hide WithSender;
  }

  lemma NextPanics()
    ensures var w := Next(World(ReadyA(), ReadyB()), NewRemote(false, OURS, Prompt()), Swap());
            Next(w, ToControlling(0, Late()), Swap()).a.panicked
  {
    FirstRemote(OURS);
    StepPanic();
    hide Inbound, AddRemote;
    Delivered(Next(World(ReadyA(), ReadyB()), NewRemote(false, OURS, Prompt()), Swap()), 0, Late());
  }

  /** An orderly run in which the controlling agent panics. */
  lemma RunPanics()
    ensures OrderlyRun(Initial(), Overtakes(), Swap()) && Panicked(Run(Initial(), Overtakes(), Swap()))
  {
    hide Next, After, Setup, Prompt, Late, Swap, ReadyA, ReadyB, Run, OrderlyTo, OrderlyRun;
    var steps := Overtakes();
    assert |Setup()| == 4 by {
      LengthOfSetup();
    }
    assert Setup() <= steps;
    RunSetup(steps);
    NextPanics();
    Advance(steps, 4);
    Advance(steps, 5);
    Ends(steps);
  }

  lemma LengthOfSetup()
    ensures |Setup()| == 4
  {
  }
}
