/**
 One ICE agent: candidate pairs, connectivity checks, nomination and selection
 (rtc-ice/src/agent/agent_selector.rs, rtc-ice/src/agent/mod.rs), for one session without restart.
 */
module IceAgent {
  import opened Bytes
  import IcePriority

  type Addr = nat

  datatype Candidate = Candidate(addr: Addr, priority: nat)

  datatype PairState = Waiting | InProgress | Failed | Succeeded

  datatype Pair = Pair(
    local: nat,
    remote: nat,
    state: PairState,
    requests: nat,
    localPriority: nat,
    remotePriority: nat,
    controlling: bool,
    nominated: bool)

  /** Binding requests and responses; `id` is the requester's fresh transaction id. */
  datatype Packet = Request(id: nat, useCandidate: bool, byControlling: bool) | Success(id: nat)

  datatype Envelope = Envelope(src: Addr, dst: Addr, packet: Packet)

  datatype Pending = Pending(id: nat, destination: Addr, useCandidate: bool)

  /** The addresses of a pair, as an agent knows them. */
  datatype Path = Path(local: Addr, remote: Addr)

  /**
   `known` says that the remote credentials are set, `panicked` that the source has indexed a list
   out of its bounds.  `out` is everything ever handed to the transport, `log` every pair ever
   selected and `events` what the application was told about it.
   */
  datatype AgentState = AgentState(
    controlling: bool,
    lite: bool,
    maxRequests: nat,
    locals: seq<Candidate>,
    remotes: seq<Candidate>,
    pairs: seq<Pair>,
    pending: seq<Pending>,
    nominated: Option<nat>,
    selected: Option<nat>,
    failed: bool,
    known: bool,
    panicked: bool,
    nextId: nat,
    out: seq<Envelope>,
    log: seq<nat>,
    events: seq<Path>)

  /**
   What the clock decides during a call: which candidates have waited long enough to be nominated,
   whether checking has taken too long, whether nothing was heard on the selected pair for too long,
   whether a keepalive is due, which pending requests are still young once `n` ids were drawn, and
   the priority computed for a peer-reflexive candidate.
   */
  datatype Env = Env(
    localReady: nat -> bool,
    remoteReady: nat -> bool,
    expired: bool,
    lost: bool,
    keepalive: bool,
    alive: (nat, nat) -> bool,
    reflexivePriority: nat)

  datatype Target = Target(local: nat, remote: nat)

  predicate InRange(s: AgentState, t: Target) {
    t.local < |s.locals| && t.remote < |s.remotes|
  }

  function Panic(s: AgentState): AgentState {
    s.(panicked := true)
  }

  function TargetOf(p: Pair): Target {
    Target(p.local, p.remote)
  }

  ghost predicate WfPair(s: AgentState, p: Pair) {
    p.local < |s.locals| && p.remote < |s.remotes|
  }

  ghost predicate Wf(s: AgentState) {
    && (forall i :: 0 <= i < |s.pairs| ==> WfPair(s, s.pairs[i]))
    && (s.nominated.Some? ==> s.nominated.value < |s.pairs|)
    && (s.selected.Some? ==> s.selected.value < |s.pairs|)
  }

  ghost predicate WfTargets(s: AgentState, ts: seq<Target>) {
    forall i :: 0 <= i < |ts| ==> ts[i].local < |s.locals| && ts[i].remote < |s.remotes|
  }

  // ---------------------------------------------------------------- searches

  function FindAddr(cs: seq<Candidate>, a: Addr, i: nat): (r: Option<nat>)
    requires i <= |cs|
    ensures r.Some? ==> i <= r.value < |cs| && cs[r.value].addr == a
    ensures forall j :: i <= j < (if r.Some? then r.value else |cs|) ==> cs[j].addr != a
    decreases |cs| - i
  {
    if i == |cs| then None else if cs[i].addr == a then Some(i) else FindAddr(cs, a, i + 1)
  }

  function FindPair(ps: seq<Pair>, local: nat, remote: nat, i: nat): (r: Option<nat>)
    requires i <= |ps|
    ensures r.Some? ==> i <= r.value < |ps| && ps[r.value].local == local && ps[r.value].remote == remote
    ensures forall j :: i <= j < (if r.Some? then r.value else |ps|) ==> ps[j].local != local || ps[j].remote != remote
    decreases |ps| - i
  {
    if i == |ps| then None
    else if ps[i].local == local && ps[i].remote == remote then Some(i)
    else FindPair(ps, local, remote, i + 1)
  }

  /** A pair's priority, under the role the agent had when the pair was added. */
  function Priority(p: Pair): nat {
    IcePriority.PriorityAt(p.controlling, p.localPriority, p.remotePriority)
  }

  /** Succeeded pairs only, or every pair that has not failed. */
  predicate Eligible(p: Pair, onlyValid: bool) {
    if onlyValid then p.state == Succeeded else p.state != Failed
  }

  /** The scan of both best-pair searches, from index `i` on with `best` so far. */
  function BestFrom(ps: seq<Pair>, onlyValid: bool, i: nat, best: Option<nat>): (r: Option<nat>)
    requires i <= |ps| && (best.Some? ==> best.value < |ps|)
    ensures r.Some? ==> r.value < |ps|
    decreases |ps| - i
  {
    if i == |ps| then best
    else BestFrom(ps, onlyValid, i + 1, Better(ps, onlyValid, i, best))
  }

  /** The first of the eligible pairs before `i` that have the highest priority. */
  ghost predicate IsBest(ps: seq<Pair>, onlyValid: bool, i: nat, best: Option<nat>)
    requires i <= |ps|
  {
    && (best == None ==> forall j :: 0 <= j < i ==> !Eligible(ps[j], onlyValid))
    && (best.Some? ==>
          && best.value < i && Eligible(ps[best.value], onlyValid)
          && (forall j :: 0 <= j < i && Eligible(ps[j], onlyValid) ==>
                Priority(ps[j]) <= Priority(ps[best.value]))
          && (forall j :: 0 <= j < best.value && Eligible(ps[j], onlyValid) ==>
                Priority(ps[j]) < Priority(ps[best.value])))
  }

  /** The best of the pairs up to and including `i`. */
  function Better(ps: seq<Pair>, onlyValid: bool, i: nat, best: Option<nat>): (r: Option<nat>)
    requires i < |ps| && (best.Some? ==> best.value < |ps|)
    ensures r.Some? ==> r.value < |ps|
  {
    if && Eligible(ps[i], onlyValid)
       && (best.Some? ==> Priority(ps[best.value]) < Priority(ps[i]))
    then Some(i) else best
  }

  lemma BetterIsBest(ps: seq<Pair>, onlyValid: bool, i: nat, best: Option<nat>)
    requires i < |ps| && IsBest(ps, onlyValid, i, best)
    ensures IsBest(ps, onlyValid, i + 1, Better(ps, onlyValid, i, best))
  {
    hide Priority, Eligible;
  }

  lemma {:induction false} BestIsBest(ps: seq<Pair>, onlyValid: bool, i: nat, best: Option<nat>)
    requires i <= |ps| && IsBest(ps, onlyValid, i, best)
    ensures IsBest(ps, onlyValid, |ps|, BestFrom(ps, onlyValid, i, best))
    decreases |ps| - i
  {
    if i < |ps| {
      BetterIsBest(ps, onlyValid, i, best);
      hide Better, IsBest;
      BestIsBest(ps, onlyValid, i + 1, Better(ps, onlyValid, i, best));
    }
  }

  // ---------------------------------------------------------------- sending

  function StillAlive(ps: seq<Pending>, n: nat, alive: (nat, nat) -> bool): seq<Pending> {
    if ps == [] then []
    else (if alive(n, ps[0].id) then [ps[0]] else []) + StillAlive(ps[1..], n, alive)
  }

  function SendRequest(s: AgentState, useCandidate: bool, t: Target, env: Env): (r: AgentState)
    ensures r.locals == s.locals && r.remotes == s.remotes && r.log == s.log
  {
    if !InRange(s, t) then Panic(s)
    else
      var src, dst := s.locals[t.local].addr, s.remotes[t.remote].addr;
      s.(pending := StillAlive(s.pending, s.nextId, env.alive) + [Pending(s.nextId, dst, useCandidate)],
         nextId := s.nextId + 1,
         out := s.out + [Envelope(src, dst, Request(s.nextId, useCandidate, s.controlling))])
  }

  function SendSuccess(s: AgentState, id: nat, t: Target): (r: AgentState)
    ensures r.locals == s.locals && r.remotes == s.remotes && r.log == s.log
  {
    if !InRange(s, t) then Panic(s)
    else s.(out := s.out + [Envelope(s.locals[t.local].addr, s.remotes[t.remote].addr, Success(id))])
  }

  predicate IsChecked(p: Pair) {
    p.state == Waiting || p.state == InProgress
  }

  function Marked(p: Pair, max: nat): Pair {
    if !IsChecked(p) then p
    else if p.requests > max then p.(state := Failed)
    else p.(state := InProgress, requests := p.requests + 1)
  }

  function MarkAll(ps: seq<Pair>, max: nat): seq<Pair> {
    if ps == [] then [] else MarkAll(ps[..|ps| - 1], max) + [Marked(ps[|ps| - 1], max)]
  }

  function Targets(ps: seq<Pair>, max: nat): seq<Target> {
    if ps == [] then []
    else
      var p := ps[|ps| - 1];
      Targets(ps[..|ps| - 1], max) + (if IsChecked(p) && p.requests <= max then [TargetOf(p)] else [])
  }

  function PingEach(s: AgentState, ts: seq<Target>, env: Env): (r: AgentState)
    ensures r.locals == s.locals && r.remotes == s.remotes
    decreases |ts|
  {
    if ts == [] then s
    else
      var n := |ts| - 1;
      SendRequest(PingEach(s, ts[..n], env), false, ts[n], env)
  }

  lemma {:induction false} TargetsWf(s: AgentState, ps: seq<Pair>, max: nat)
    requires forall i :: 0 <= i < |ps| ==> WfPair(s, ps[i])
    ensures WfTargets(s, Targets(ps, max))
  {
    if ps != [] {
      TargetsWf(s, ps[..|ps| - 1], max);
    }
  }

  lemma {:induction false} MarkAllAt(ps: seq<Pair>, max: nat)
    ensures |MarkAll(ps, max)| == |ps|
    ensures forall i :: 0 <= i < |ps| ==> MarkAll(ps, max)[i] == Marked(ps[i], max)
  {
    if ps != [] {
      MarkAllAt(ps[..|ps| - 1], max);
    }
  }

  function PingAll(s: AgentState, env: Env): (r: AgentState)
    ensures r.locals == s.locals && r.remotes == s.remotes
  {
    PingEach(s.(pairs := MarkAll(s.pairs, s.maxRequests)), Targets(s.pairs, s.maxRequests), env)
  }

  // ---------------------------------------------------------------- nomination and selection

  /** `nominate_pair`: the nominated pair is checked again, with USE-CANDIDATE. */
  function Nominate(s: AgentState, env: Env): (r: AgentState)
    ensures r.locals == s.locals && r.remotes == s.remotes && r.log == s.log
  {
    if s.nominated == None then s
    else if s.nominated.value >= |s.pairs| then Panic(s)
    else SendRequest(s, true, TargetOf(s.pairs[s.nominated.value]), env)
  }

  function Flag(ps: seq<Pair>, i: nat): seq<Pair>
    requires i < |ps|
  {
    ps[i := ps[i].(nominated := true)]
  }

  /** `set_selected_pair`: whatever the connection's state was, it is connected now. */
  function Select(s: AgentState, i: nat): AgentState
    requires i < |s.pairs|
  {
    if !InRange(s, TargetOf(s.pairs[i])) then Panic(s)
    else
      s.(pairs := Flag(s.pairs, i), selected := Some(i), failed := false, log := s.log + [i],
         events := s.events + [Path(s.locals[s.pairs[i].local].addr, s.remotes[s.pairs[i].remote].addr)])
  }

  /** Both candidates have waited long enough; `None` when one of them is not there. */
  function Ready(s: AgentState, p: Pair, env: Env): Option<bool> {
    if p.local >= |s.locals| then None
    else if !env.localReady(p.local) then Some(false)
    else if p.remote >= |s.remotes| then None
    else Some(env.remoteReady(p.remote))
  }

  /** The connection fails: both candidate lists are emptied, the pairs stay. */
  function Fail(s: AgentState): AgentState {
    if s.failed then s else s.(failed := true, selected := None, locals := [], remotes := [])
  }

  /** `validate_selected_pair`: a pair that has been silent for too long fails the connection. */
  function Validated(s: AgentState, env: Env): AgentState {
    if s.selected == None then s
    else if s.selected.value >= |s.pairs| || s.pairs[s.selected.value].remote >= |s.remotes| then Panic(s)
    else if env.lost then Fail(s)
    else s
  }

  function KeepAlive(s: AgentState, env: Env): AgentState {
    if s.selected == None then s
    else if s.selected.value >= |s.pairs| || !InRange(s, TargetOf(s.pairs[s.selected.value])) then Panic(s)
    else if env.keepalive then SendRequest(s, false, TargetOf(s.pairs[s.selected.value]), env)
    else s
  }

  /** The selected pair, if there still is one once it was validated, is kept alive. */
  function Maintain(s: AgentState, env: Env): AgentState {
    var v := Validated(s, env);
    if v.panicked then v else KeepAlive(v, env)
  }

  function ContactControlling(s: AgentState, env: Env): AgentState {
    if s.selected.Some? then Maintain(s, env)
    else if s.nominated.Some? then Nominate(s, env)
    else
      match BestFrom(s.pairs, true, 0, None)
      case None => PingAll(s, env)
      case Some(i) =>
        match Ready(s, s.pairs[i], env)
        case None => Panic(s)
        case Some(false) => PingAll(s, env)
        case Some(true) => Nominate(s.(pairs := Flag(s.pairs, i), nominated := Some(i)), env)
  }

  function ContactControlled(s: AgentState, env: Env): AgentState {
    if s.lite then Validated(s, env) else if s.selected.Some? then Maintain(s, env) else PingAll(s, env)
  }

  /**
   Nothing is sent before the remote credentials are set, nor by an agent that has failed; an agent
   that is still checking, so has no pair selected, fails when that has taken too long.
   */
  function Contact(s: AgentState, env: Env): (r: AgentState)
    ensures (r.locals == s.locals && r.remotes == s.remotes) || (r.locals == [] && r.remotes == [])
  {
    if !s.known || s.failed then s
    else if s.selected == None && env.expired then Fail(s)
    else if s.controlling then ContactControlling(s, env) else ContactControlled(s, env)
  }

  /** When a contact fails the connection. */
  predicate ContactFails(s: AgentState, env: Env) {
    s.known && !s.failed && if s.selected == None then env.expired else env.lost
  }

  // ---------------------------------------------------------------- inbound messages

  function FindPending(ps: seq<Pending>, id: nat, i: nat): (r: Option<nat>)
    requires i <= |ps|
    ensures r.Some? ==> i <= r.value < |ps| && ps[r.value].id == id
    ensures forall j :: i <= j < (if r.Some? then r.value else |ps|) ==> ps[j].id != id
    decreases |ps| - i
  {
    if i == |ps| then None else if ps[i].id == id then Some(i) else FindPending(ps, id, i + 1)
  }

  function Without(ps: seq<Pending>, i: nat): seq<Pending>
    requires i < |ps|
  {
    ps[..i] + ps[i + 1..]
  }

  function MarkSucceeded(s: AgentState, i: nat): AgentState
    requires i < |s.pairs|
  {
    s.(pairs := s.pairs[i := s.pairs[i].(state := Succeeded)])
  }

  /** A success response that came in at local candidate `local` from `from`, known as remote `remote`. */
  function HandleSuccess(s: AgentState, id: nat, local: nat, remote: nat, from: Addr, env: Env): AgentState {
    var young := StillAlive(s.pending, s.nextId, env.alive);
    match FindPending(young, id, 0)
    case None => s.(pending := young)
    case Some(k) =>
      var s1 := s.(pending := Without(young, k));
      if young[k].destination != from then s1
      else
        match FindPair(s.pairs, local, remote, 0)
        case None => s1
        case Some(i) =>
          var s2 := MarkSucceeded(s1, i);
          if s.controlling && young[k].useCandidate && s.selected == None then Select(s2, i) else s2
  }

  function NewPair(s: AgentState, local: nat, remote: nat): Pair
    requires local < |s.locals| && remote < |s.remotes|
  {
    Pair(local, remote, Waiting, 0, s.locals[local].priority, s.remotes[remote].priority, s.controlling, false)
  }

  function AddPair(s: AgentState, local: nat, remote: nat): AgentState
    requires local < |s.locals| && remote < |s.remotes|
  {
    s.(pairs := s.pairs + [NewPair(s, local, remote)])
  }

  /** The pair a request came in on is nominated if it is valid and the best there is. */
  function NominateBest(s: AgentState, i: nat, env: Env): (r: AgentState)
    requires i < |s.pairs|
    ensures r.log == s.log
  {
    if && s.pairs[i].state == Succeeded && s.nominated == None && s.selected == None
       && BestFrom(s.pairs, false, 0, None) == Some(i)
    then
      match Ready(s, s.pairs[i], env)
      case None => Panic(s)
      case Some(ready) => if ready then Nominate(s.(nominated := Some(i)), env) else s
    else s
  }

  function RequestAtControlling(s: AgentState, id: nat, local: nat, remote: nat, env: Env): AgentState
    requires local < |s.locals| && remote < |s.remotes|
  {
    var s1 := SendSuccess(s, id, Target(local, remote));
    match FindPair(s1.pairs, local, remote, 0)
    case None => AddPair(s1, local, remote)
    case Some(i) => NominateBest(s1, i, env)
  }

  /** What the controlled agent does with a request on its pair `i`. */
  function AnswerControlled(s: AgentState, id: nat, useCandidate: bool, i: nat, env: Env): AgentState
    requires i < |s.pairs|
  {
    var t := TargetOf(s.pairs[i]);
    if !useCandidate then SendRequest(SendSuccess(s, id, t), false, t, env)
    else if s.pairs[i].state == Succeeded then SendSuccess(if s.selected == None then Select(s, i) else s, id, t)
    else SendRequest(s, false, t, env)
  }

  function RequestAtControlled(s: AgentState, id: nat, useCandidate: bool, local: nat, remote: nat,
                               env: Env): AgentState
    requires local < |s.locals| && remote < |s.remotes|
  {
    match FindPair(s.pairs, local, remote, 0)
    case None => AnswerControlled(AddPair(s, local, remote), id, useCandidate, |s.pairs|, env)
    case Some(i) => AnswerControlled(s, id, useCandidate, i, env)
  }

  /** New pairs of one remote candidate with every local one. */
  function PairsWithRemote(s: AgentState, remote: nat, n: nat): seq<Pair>
    requires remote < |s.remotes| && n <= |s.locals|
  {
    if n == 0 then [] else PairsWithRemote(s, remote, n - 1) + [NewPair(s, n - 1, remote)]
  }

  function PairsWithLocal(s: AgentState, local: nat, n: nat): seq<Pair>
    requires local < |s.locals| && n <= |s.remotes|
  {
    if n == 0 then [] else PairsWithLocal(s, local, n - 1) + [NewPair(s, local, n - 1)]
  }

  lemma {:induction false} PairsWithRemoteWf(s: AgentState, remote: nat, n: nat)
    requires remote < |s.remotes| && n <= |s.locals|
    ensures forall i :: 0 <= i < |PairsWithRemote(s, remote, n)| ==> WfPair(s, PairsWithRemote(s, remote, n)[i])
  {
    if n > 0 {
      PairsWithRemoteWf(s, remote, n - 1);
    }
  }

  lemma {:induction false} PairsWithLocalWf(s: AgentState, local: nat, n: nat)
    requires local < |s.locals| && n <= |s.remotes|
    ensures forall i :: 0 <= i < |PairsWithLocal(s, local, n)| ==> WfPair(s, PairsWithLocal(s, local, n)[i])
  {
    if n > 0 {
      PairsWithLocalWf(s, local, n - 1);
    }
  }

  function WithRemote(s: AgentState, c: Candidate): AgentState {
    var s1 := s.(remotes := s.remotes + [c]);
    s1.(pairs := s.pairs + PairsWithRemote(s1, |s.remotes|, |s.locals|))
  }

  function WithLocal(s: AgentState, c: Candidate): AgentState {
    var s1 := s.(locals := s.locals + [c]);
    s1.(pairs := s.pairs + PairsWithLocal(s1, |s.locals|, |s.remotes|))
  }

  // ---------------------------------------------------------------- what one agent keeps, whatever it receives

  ghost function PathOf(s: AgentState, i: nat): Path
    requires Wf(s) && i < |s.pairs|
  {
    Path(s.locals[s.pairs[i].local].addr, s.remotes[s.pairs[i].remote].addr)
  }

  /** A request that this agent may have sent: USE-CANDIDATE only on the nominated pair. */
  ghost predicate RequestOk(s: AgentState, e: Envelope)
    requires Wf(s)
  {
    e.packet.Request? ==>
      && e.packet.id < s.nextId && e.packet.byControlling == s.controlling
      && (e.packet.useCandidate ==> s.nominated.Some? && PathOf(s, s.nominated.value) == Path(e.src, e.dst))
  }

  ghost predicate SameId(e: Envelope, f: Envelope) {
    e.packet.Request? && f.packet.Request? && e.packet.id == f.packet.id
  }

  ghost predicate UniqueIds(out: seq<Envelope>) {
    forall j, k :: 0 <= j < k < |out| ==> !SameId(out[j], out[k])
  }

  ghost predicate WasSent(out: seq<Envelope>, p: Pending, controlling: bool) {
    exists k :: 0 <= k < |out| && out[k].packet == Request(p.id, p.useCandidate, controlling)
      && out[k].dst == p.destination
  }

  ghost predicate PendingSent(s: AgentState) {
    forall i :: 0 <= i < |s.pending| ==> WasSent(s.out, s.pending[i], s.controlling)
  }

  /** Nominated and selected pairs are valid pairs, and a selection is made at most once. */
  ghost predicate Chosen(s: AgentState) {
    && (s.nominated.Some? ==>
          s.controlling && s.nominated.value < |s.pairs| && s.pairs[s.nominated.value].state == Succeeded)
    && |s.log| <= 1
    && (|s.log| == 1 ==> s.log[0] < |s.pairs| && s.pairs[s.log[0]].state == Succeeded)
    && (s.selected.Some? ==> s.log == [s.selected.value])
    && (|s.log| == 1 && !s.failed ==> s.selected.Some?)
  }

  ghost predicate Inv(s: AgentState) {
    && Wf(s) && !s.panicked
    && (forall k :: 0 <= k < |s.out| ==> RequestOk(s, s.out[k]))
    && UniqueIds(s.out) && PendingSent(s) && Chosen(s)
  }

  ghost predicate SamePair(p: Pair, q: Pair) {
    q.local == p.local && q.remote == p.remote && (p.state == Succeeded ==> q.state == Succeeded)
  }

  /** Nothing an agent has done is undone. */
  ghost predicate Grows(s: AgentState, r: AgentState) {
    && r.controlling == s.controlling && r.failed == s.failed && r.known == s.known && s.nextId <= r.nextId
    && s.locals <= r.locals && s.remotes <= r.remotes && s.out <= r.out && s.log <= r.log
    && (r.log == s.log ==> r.events == s.events)
    && |s.pairs| <= |r.pairs| && (forall i :: 0 <= i < |s.pairs| ==> SamePair(s.pairs[i], r.pairs[i]))
    && (s.nominated.Some? ==> r.nominated == s.nominated)
  }

  /** Growth without a selection and without an answer. */
  ghost predicate Quiet(s: AgentState, r: AgentState) {
    && Grows(s, r) && r.log == s.log && r.selected == s.selected
    && forall k :: |s.out| <= k < |r.out| ==> r.out[k].packet.Request?
  }

  lemma PathStays(s: AgentState, r: AgentState, i: nat)
    requires Wf(s) && Wf(r) && Grows(s, r) && i < |s.pairs|
    ensures PathOf(r, i) == PathOf(s, i)
  {
    assert SamePair(s.pairs[i], r.pairs[i]);
  }

  lemma GrowsTransitive(s: AgentState, r: AgentState, t: AgentState)
    requires Grows(s, r) && Grows(r, t)
    ensures Grows(s, t)
  {
    forall i | 0 <= i < |s.pairs|
      ensures SamePair(s.pairs[i], t.pairs[i])
    {
      assert SamePair(s.pairs[i], r.pairs[i]) && SamePair(r.pairs[i], t.pairs[i]);
    }
  }

  lemma QuietTransitive(s: AgentState, r: AgentState, t: AgentState)
    requires Quiet(s, r) && Quiet(r, t)
    ensures Quiet(s, t)
  {
    GrowsTransitive(s, r, t);
  }

  lemma {:induction false} StillAliveWithin(ps: seq<Pending>, n: nat, alive: (nat, nat) -> bool, i: nat)
    requires i < |StillAlive(ps, n, alive)|
    ensures StillAlive(ps, n, alive)[i] in ps
  {
    if alive(n, ps[0].id) {
      if i > 0 {
        StillAliveWithin(ps[1..], n, alive, i - 1);
      }
    } else {
      StillAliveWithin(ps[1..], n, alive, i);
    }
  }

  /** A state that differs only in pairs: same paths, Succeeded stays. */
  lemma PairsChanged(s: AgentState, r: AgentState)
    requires Inv(s) && Wf(r) && r == s.(pairs := r.pairs) && Grows(s, r)
    ensures Inv(r) && Quiet(s, r)
  {
    forall k | 0 <= k < |r.out|
      ensures RequestOk(r, r.out[k])
    {
      assert RequestOk(s, s.out[k]);
      if r.out[k].packet.Request? && r.out[k].packet.useCandidate {
        PathStays(s, r, s.nominated.value);
      }
    }
    assert s.nominated.Some? ==> SamePair(s.pairs[s.nominated.value], r.pairs[s.nominated.value]);
    assert |s.log| == 1 ==> SamePair(s.pairs[s.log[0]], r.pairs[s.log[0]]);
  }

  ghost predicate AllSent(out: seq<Envelope>, ps: seq<Pending>, controlling: bool) {
    forall i :: 0 <= i < |ps| ==> WasSent(out, ps[i], controlling)
  }

  /** Younger requests were sent, and so was the new one. */
  lemma PendingGrows(s: AgentState, out: seq<Envelope>, p: Pending, n: nat, alive: (nat, nat) -> bool)
    requires PendingSent(s) && s.out <= out && WasSent(out, p, s.controlling)
    ensures AllSent(out, StillAlive(s.pending, n, alive) + [p], s.controlling)
  {
    var young := StillAlive(s.pending, n, alive);
    hide WasSent;
    forall i | 0 <= i < |young|
      ensures WasSent(out, young[i], s.controlling)
    {
      StillAliveWithin(s.pending, n, alive, i);
      var j :| 0 <= j < |s.pending| && s.pending[j] == young[i];
      WasSentStays(s.out, out, s.pending[j], s.controlling);
    }
  }

  lemma SendRequestPending(s: AgentState, useCandidate: bool, t: Target, env: Env)
    requires PendingSent(s) && InRange(s, t)
    ensures PendingSent(SendRequest(s, useCandidate, t, env))
  {
    hide StillAlive, PendingSent;
    var r := SendRequest(s, useCandidate, t, env);
    var p := Pending(s.nextId, s.remotes[t.remote].addr, useCandidate);
    assert r.out[|s.out|].packet == Request(p.id, p.useCandidate, s.controlling);
    PendingGrows(s, r.out, p, s.nextId, env.alive);
    PendingSentIs(r, StillAlive(s.pending, s.nextId, env.alive) + [p]);
  }

  lemma PendingSentIs(s: AgentState, ps: seq<Pending>)
    requires s.pending == ps && AllSent(s.out, ps, s.controlling)
    ensures PendingSent(s)
  {
  }

  /** One more request was sent, on a path that allows it. */
  lemma RequestAdded(s: AgentState, r: AgentState, e: Envelope)
    requires Inv(s) && r == s.(pending := r.pending, nextId := s.nextId + 1, out := s.out + [e])
    requires e.packet.Request? && e.packet.id == s.nextId && RequestOk(s.(nextId := s.nextId + 1), e)
    ensures Wf(r) && UniqueIds(r.out) && Chosen(r) && Quiet(s, r)
    ensures forall k :: 0 <= k < |r.out| ==> RequestOk(r, r.out[k])
  {
    hide PendingSent;
    forall i | 0 <= i < |r.pairs|
      ensures WfPair(r, r.pairs[i]) && SamePair(s.pairs[i], r.pairs[i])
    {
      assert WfPair(s, s.pairs[i]);
    }
    forall k | 0 <= k < |s.out|
      ensures RequestOk(r, r.out[k]) && !SameId(r.out[k], r.out[|s.out|])
    {
      assert RequestOk(s, s.out[k]);
      assert r.out[k] == s.out[k];
    }
  }

  lemma SendRequestOuts(s: AgentState, useCandidate: bool, t: Target, env: Env)
    requires Inv(s) && t.local < |s.locals| && t.remote < |s.remotes|
    requires useCandidate ==> s.nominated.Some? && TargetOf(s.pairs[s.nominated.value]) == t
    ensures var r := SendRequest(s, useCandidate, t, env);
            && Wf(r) && UniqueIds(r.out) && Chosen(r) && Quiet(s, r)
            && forall k :: 0 <= k < |r.out| ==> RequestOk(r, r.out[k])
  {
    hide StillAlive, PendingSent, UniqueIds, Chosen, Quiet;
    var r := SendRequest(s, useCandidate, t, env);
    RequestAdded(s, r, r.out[|s.out|]);
  }

  lemma SendRequestKeeps(s: AgentState, useCandidate: bool, t: Target, env: Env)
    requires Inv(s) && t.local < |s.locals| && t.remote < |s.remotes|
    requires useCandidate ==> s.nominated.Some? && TargetOf(s.pairs[s.nominated.value]) == t
    ensures var r := SendRequest(s, useCandidate, t, env); Inv(r) && Quiet(s, r)
  {
    SendRequestPending(s, useCandidate, t, env);
    SendRequestOuts(s, useCandidate, t, env);
  }

  lemma {:induction false} PingEachKeeps(s: AgentState, ts: seq<Target>, env: Env)
    requires Inv(s) && WfTargets(s, ts)
    ensures var r := PingEach(s, ts, env); Inv(r) && Quiet(s, r)
    decreases |ts|
  {
    hide Inv, SendRequest;
    if ts == [] {
    } else {
      var n := |ts| - 1;
      PingEachKeeps(s, ts[..n], env);
      SendRequestKeeps(PingEach(s, ts[..n], env), false, ts[n], env);
      QuietTransitive(s, PingEach(s, ts[..n], env), PingEach(s, ts, env));
    }
  }

  lemma PingAllKeeps(s: AgentState, env: Env)
    requires Inv(s)
    ensures var r := PingAll(s, env); Inv(r) && Quiet(s, r)
  {
    hide RequestOk, UniqueIds, PendingSent, Chosen, PingEach, Targets, MarkAll;
    var r := s.(pairs := MarkAll(s.pairs, s.maxRequests));
    MarkAllAt(s.pairs, s.maxRequests);
    forall i | 0 <= i < |s.pairs|
      ensures SamePair(s.pairs[i], r.pairs[i]) && WfPair(r, r.pairs[i])
    {
      assert WfPair(s, s.pairs[i]);
    }
    PairsChanged(s, r);
    TargetsWf(s, s.pairs, s.maxRequests);
    PingEachKeeps(r, Targets(s.pairs, s.maxRequests), env);
    QuietTransitive(s, r, PingAll(s, env));
  }

  lemma NominateKeeps(s: AgentState, env: Env)
    requires Inv(s)
    ensures var r := Nominate(s, env); Inv(r) && Quiet(s, r)
  {
    if s.nominated.Some? {
      assert WfPair(s, s.pairs[s.nominated.value]);
      SendRequestKeeps(s, true, TargetOf(s.pairs[s.nominated.value]), env);
    }
  }

  lemma FlagKeeps(s: AgentState, i: nat)
    requires Inv(s) && i < |s.pairs|
    ensures var r := s.(pairs := Flag(s.pairs, i)); Inv(r) && Quiet(s, r)
  {
    hide RequestOk, UniqueIds, PendingSent, Chosen;
    var r := s.(pairs := Flag(s.pairs, i));
    forall j | 0 <= j < |s.pairs|
      ensures SamePair(s.pairs[j], r.pairs[j]) && WfPair(r, r.pairs[j])
    {
      assert WfPair(s, s.pairs[j]);
    }
    PairsChanged(s, r);
  }

  /** Nominating a valid pair when none is nominated. */
  lemma FirstNomination(s: AgentState, i: nat)
    requires Inv(s) && s.controlling && s.nominated == None && i < |s.pairs| && s.pairs[i].state == Succeeded
    ensures var r := s.(nominated := Some(i)); Inv(r) && Quiet(s, r)
  {
    var r := s.(nominated := Some(i));
    forall j | 0 <= j < |s.pairs|
      ensures SamePair(s.pairs[j], r.pairs[j]) && WfPair(r, r.pairs[j])
    {
      assert WfPair(s, s.pairs[j]);
    }
    forall k | 0 <= k < |r.out|
      ensures RequestOk(r, r.out[k])
    {
      assert RequestOk(s, s.out[k]);
    }
  }

  lemma NominateFirst(s: AgentState, i: nat, env: Env)
    requires Inv(s) && s.controlling && s.nominated == None && i < |s.pairs| && s.pairs[i].state == Succeeded
    ensures var r := s.(nominated := Some(i)); Wf(r) && Inv(Nominate(r, env)) && Quiet(s, Nominate(r, env))
  {
    FirstNomination(s, i);
    hide Inv, Nominate;
    var r := s.(nominated := Some(i));
    NominateKeeps(r, env);
    QuietTransitive(s, r, Nominate(r, env));
  }

  lemma ContactControllingKeeps(s: AgentState, env: Env)
    requires Inv(s) && s.controlling && (s.selected.Some? ==> !env.lost)
    ensures var r := ContactControlling(s, env); Inv(r) && Quiet(s, r)
  {
    hide RequestOk, UniqueIds, PendingSent, Chosen, BestFrom, Nominate, PingAll, SendRequest, Quiet;
    if s.selected.Some? {
      assert WfPair(s, s.pairs[s.selected.value]);
      SendRequestKeeps(s, false, TargetOf(s.pairs[s.selected.value]), env);
      NothingIsQuiet(s);
    } else if s.nominated.Some? {
      NominateKeeps(s, env);
    } else {
      BestIsBest(s.pairs, true, 0, None);
      var best := BestFrom(s.pairs, true, 0, None);
      PingAllKeeps(s, env);
      if best.Some? {
        assert WfPair(s, s.pairs[best.value]);
        var f := s.(pairs := Flag(s.pairs, best.value));
        FlagKeeps(s, best.value);
        NominateFirst(f, best.value, env);
        QuietTransitive(s, f, Nominate(f.(nominated := best), env));
      }
    }
  }

  lemma NothingIsQuiet(s: AgentState)
    ensures Quiet(s, s)
  {
  }

  /** A contact that does not fail the connection. */
  lemma ContactInvariant(s: AgentState, env: Env)
    requires Inv(s) && !ContactFails(s, env)
    ensures var r := Contact(s, env); Inv(r) && Quiet(s, r)
  {
    hide RequestOk, UniqueIds, PendingSent, Chosen, PingAll, SendRequest, Quiet, ContactControlling;
    NothingIsQuiet(s);
    if s.controlling {
      if s.known && !s.failed {
        ContactControllingKeeps(s, env);
      }
    } else {
      PingAllKeeps(s, env);
      if s.selected.Some? {
        assert WfPair(s, s.pairs[s.selected.value]);
        SendRequestKeeps(s, false, TargetOf(s.pairs[s.selected.value]), env);
      }
    }
  }

  lemma ContactGivesUp(s: AgentState, env: Env)
    requires Wf(s) && !s.panicked && ContactFails(s, env)
    ensures Contact(s, env) == Fail(s)
  {
    hide PingAll, SendRequest;
    if s.selected.Some? {
      assert WfPair(s, s.pairs[s.selected.value]);
    }
  }

  /** A timer step fails the connection, or keeps the invariant, selects nothing and answers nothing. */
  lemma ContactKeeps(s: AgentState, env: Env)
    requires Inv(s)
    ensures var r := Contact(s, env); if ContactFails(s, env) then r == Fail(s) else Inv(r) && Quiet(s, r)
  {
    if ContactFails(s, env) {
      ContactGivesUp(s, env);
    } else {
      ContactInvariant(s, env);
    }
  }

  /** New pairs, new candidates: everything known keeps its index. */
  lemma GrownKeeps(s: AgentState, r: AgentState)
    requires Inv(s) && Wf(r) && r == s.(locals := r.locals, remotes := r.remotes, pairs := r.pairs)
    requires s.locals <= r.locals && s.remotes <= r.remotes && s.pairs <= r.pairs
    ensures Inv(r) && Quiet(s, r)
  {
    forall i | 0 <= i < |s.pairs|
      ensures SamePair(s.pairs[i], r.pairs[i])
    {
    }
    forall k | 0 <= k < |r.out|
      ensures RequestOk(r, r.out[k])
    {
      assert RequestOk(s, s.out[k]);
      if r.out[k].packet.Request? && r.out[k].packet.useCandidate {
        PathStays(s, r, s.nominated.value);
      }
    }
  }

  lemma AddPairKeeps(s: AgentState, local: nat, remote: nat)
    requires Inv(s) && local < |s.locals| && remote < |s.remotes|
    ensures var r := AddPair(s, local, remote); Inv(r) && Quiet(s, r)
  {
    var r := AddPair(s, local, remote);
    forall i | 0 <= i < |r.pairs|
      ensures WfPair(r, r.pairs[i])
    {
      assert i < |s.pairs| ==> WfPair(s, s.pairs[i]);
    }
    GrownKeeps(s, r);
  }

  /** A state that differs in what was sent, by more answers only. */
  lemma AnswersAdded(s: AgentState, r: AgentState)
    requires Inv(s) && r == s.(out := r.out) && s.out <= r.out
    requires forall k :: |s.out| <= k < |r.out| ==> r.out[k].packet.Success?
    ensures Inv(r) && Grows(s, r)
  {
    forall i | 0 <= i < |s.pairs|
      ensures SamePair(s.pairs[i], r.pairs[i]) && WfPair(r, r.pairs[i])
    {
      assert WfPair(s, s.pairs[i]);
    }
    forall k | 0 <= k < |r.out|
      ensures RequestOk(r, r.out[k])
    {
      assert k < |s.out| ==> RequestOk(s, s.out[k]);
    }
    forall i | 0 <= i < |r.pending|
      ensures WasSent(r.out, r.pending[i], r.controlling)
    {
      WasSentStays(s.out, r.out, s.pending[i], s.controlling);
    }
  }

  /** An answer sent: everything but the transport's queue is as before. */
  lemma SendSuccessKeeps(s: AgentState, id: nat, t: Target)
    requires Inv(s) && t.local < |s.locals| && t.remote < |s.remotes|
    ensures var r := SendSuccess(s, id, t); Inv(r) && Grows(s, r)
  {
    hide Inv, Grows;
    AnswersAdded(s, SendSuccess(s, id, t));
  }

  lemma WasSentStays(a: seq<Envelope>, b: seq<Envelope>, p: Pending, controlling: bool)
    requires a <= b && WasSent(a, p, controlling)
    ensures WasSent(b, p, controlling)
  {
    var k :| 0 <= k < |a| && a[k].packet == Request(p.id, p.useCandidate, controlling) && a[k].dst == p.destination;
    assert b[k] == a[k];
  }

  /** Selecting a valid pair when none is selected. */
  lemma SelectKeeps(s: AgentState, i: nat)
    requires Inv(s) && !s.failed && s.selected == None && i < |s.pairs| && s.pairs[i].state == Succeeded
    ensures Inv(Select(s, i)) && Grows(s, Select(s, i)) && s.log == []
  {
    FlagKeeps(s, i);
    var f := s.(pairs := Flag(s.pairs, i));
    var r := Select(s, i);
    forall k | 0 <= k < |r.out|
      ensures RequestOk(r, r.out[k])
    {
      assert RequestOk(f, f.out[k]);
    }
    forall j | 0 <= j < |s.pairs|
      ensures WfPair(r, r.pairs[j])
    {
      assert WfPair(f, f.pairs[j]);
    }
  }

  // ---------------------------------------------------------------- a whole call

  lemma WithRemoteKeeps(s: AgentState, c: Candidate)
    requires Inv(s)
    ensures var r := WithRemote(s, c); Inv(r) && Quiet(s, r)
  {
    PairsWithRemoteWf(s.(remotes := s.remotes + [c]), |s.remotes|, |s.locals|);
    hide PairsWithRemote, RequestOk, UniqueIds, PendingSent, Chosen;
    GrownKeeps(s, WithRemote(s, c));
  }

  lemma WithLocalKeeps(s: AgentState, c: Candidate)
    requires Inv(s)
    ensures var r := WithLocal(s, c); Inv(r) && Quiet(s, r)
  {
    PairsWithLocalWf(s.(locals := s.locals + [c]), |s.locals|, |s.remotes|);
    hide PairsWithLocal, RequestOk, UniqueIds, PendingSent, Chosen;
    GrownKeeps(s, WithLocal(s, c));
  }

  /** `add_remote_candidate`, and `add_local_candidate` below: a new candidate is paired and a check is started. */
  function AddRemote(s: AgentState, c: Candidate, env: Env): AgentState {
    if c in s.remotes then s else Contact(WithRemote(s, c), env)
  }

  function AddLocal(s: AgentState, c: Candidate, env: Env): AgentState {
    if c in s.locals then s else Contact(WithLocal(s, c), env)
  }

  lemma AddRemoteKeeps(s: AgentState, c: Candidate, env: Env)
    requires Inv(s)
    ensures var r := AddRemote(s, c, env);
            if c !in s.remotes && ContactFails(s, env) then r == Fail(WithRemote(s, c))
            else Inv(r) && Quiet(s, r) && r.remotes != []
  {
    NothingIsQuiet(s);
    WithRemoteKeeps(s, c);
    assert ContactFails(WithRemote(s, c), env) == ContactFails(s, env) && WithRemote(s, c).remotes != [];
    hide Contact, WithRemote, Inv, Quiet, ContactFails;
    ContactKeeps(WithRemote(s, c), env);
    if !ContactFails(s, env) {
      QuietTransitive(s, WithRemote(s, c), Contact(WithRemote(s, c), env));
      QuietIsGrowth(WithRemote(s, c), Contact(WithRemote(s, c), env));
    }
  }

  lemma AddLocalKeeps(s: AgentState, c: Candidate, env: Env)
    requires Inv(s)
    ensures var r := AddLocal(s, c, env);
            if c !in s.locals && ContactFails(s, env) then r == Fail(WithLocal(s, c)) else Inv(r) && Quiet(s, r)
  {
    NothingIsQuiet(s);
    WithLocalKeeps(s, c);
    assert ContactFails(WithLocal(s, c), env) == ContactFails(s, env);
    hide Contact, WithLocal, Inv, Quiet, ContactFails;
    ContactKeeps(WithLocal(s, c), env);
    if !ContactFails(s, env) {
      QuietTransitive(s, WithLocal(s, c), Contact(WithLocal(s, c), env));
    }
  }

  function HandleRequest(s: AgentState, id: nat, useCandidate: bool, local: nat, remote: nat, env: Env): AgentState
    requires local < |s.locals| && remote < |s.remotes|
  {
    if s.controlling then RequestAtControlling(s, id, local, remote, env)
    else RequestAtControlled(s, id, useCandidate, local, remote, env)
  }

  /** Role attributes that make `handle_inbound` return an error. */
  predicate Refused(s: AgentState, p: Packet) {
    p.Request? && if s.controlling then p.byControlling || p.useCandidate else !p.byControlling
  }

  /** A request from an unknown address first adds it as a peer-reflexive remote candidate. */
  function WithSender(s: AgentState, from: Addr, env: Env): (r: AgentState)
    ensures FindAddr(s.remotes, from, 0) == None && r.remotes != [] ==>
              r.locals == s.locals && r.remotes == s.remotes + [Candidate(from, env.reflexivePriority)]
    ensures FindAddr(s.remotes, from, 0).Some? ==> r == s
  {
    if FindAddr(s.remotes, from, 0).Some? then s else AddRemote(s, Candidate(from, env.reflexivePriority), env)
  }

  /**
   A message that arrives at `local` from `from`, through `handle_read` and `handle_inbound`.  If
   contacting the new candidate fails the connection, its index is taken from an empty list.
   */
  function Inbound(s: AgentState, local: Addr, from: Addr, p: Packet, env: Env): AgentState {
    var l, r := FindAddr(s.locals, local, 0), FindAddr(s.remotes, from, 0);
    if !s.known || l == None || Refused(s, p) then s
    else
      match p
      case Success(id) => if r == None then s else HandleSuccess(s, id, l.value, r.value, from, env)
      case Request(id, useCandidate, _) =>
        var s1 := WithSender(s, from, env);
        if s1.remotes == [] then Panic(s1)
        else HandleRequest(s1, id, useCandidate, l.value, if r == None then |s1.remotes| - 1 else r.value, env)
  }

  function NewAgent(controlling: bool, lite: bool, maxRequests: nat): AgentState {
    AgentState(controlling, lite, maxRequests, [], [], [], [], None, None, false, false, false, 0, [], [], [])
  }

  /**
   `start_connectivity_checks`: the remote credentials become known, the role is set, a controlling
   agent forgets its nomination, and whatever the connection's state was, checking begins.
   */
  function Begin(s: AgentState, controlling: bool, env: Env): AgentState {
    Contact(s.(known := true, controlling := controlling, failed := false,
               nominated := if controlling then None else s.nominated), env)
  }

  // ---------------------------------------------------------------- what an inbound message can cause

  lemma PendingRemoved(s: AgentState, r: AgentState)
    requires Inv(s) && r == s.(pending := r.pending)
    requires forall i :: 0 <= i < |r.pending| ==> r.pending[i] in s.pending
    ensures Inv(r) && Grows(s, r)
  {
    forall i | 0 <= i < |r.pending|
      ensures WasSent(r.out, r.pending[i], r.controlling)
    {
      assert r.pending[i] in s.pending;
      var j :| 0 <= j < |s.pending| && s.pending[j] == r.pending[i];
      assert WasSent(s.out, s.pending[j], s.controlling);
    }
    forall j | 0 <= j < |s.pairs|
      ensures SamePair(s.pairs[j], r.pairs[j]) && WfPair(r, r.pairs[j])
    {
      assert WfPair(s, s.pairs[j]);
    }
    forall k | 0 <= k < |r.out|
      ensures RequestOk(r, r.out[k])
    {
      assert RequestOk(s, s.out[k]);
    }
  }

  lemma MarkSucceededKeeps(s: AgentState, i: nat)
    requires Inv(s) && i < |s.pairs|
    ensures Inv(MarkSucceeded(s, i)) && Quiet(s, MarkSucceeded(s, i))
  {
    hide RequestOk, UniqueIds, PendingSent, Chosen;
    var r := MarkSucceeded(s, i);
    forall j | 0 <= j < |s.pairs|
      ensures SamePair(s.pairs[j], r.pairs[j]) && WfPair(r, r.pairs[j])
    {
      assert WfPair(s, s.pairs[j]);
    }
    PairsChanged(s, r);
  }

  /** Waiting for an answer to a USE-CANDIDATE request sent to `from`. */
  ghost predicate Awaits(s: AgentState, id: nat, from: Addr) {
    WasSent(s.out, Pending(id, from, true), s.controlling)
  }

  /** A new selection is the pair the message came in on. */
  ghost predicate SelectsOn(s: AgentState, r: AgentState, local: Addr, from: Addr)
    requires Wf(r)
  {
    && s.log == [] && |r.log| == 1 && r.log[0] < |r.pairs| && PathOf(r, r.log[0]) == Path(local, from)
    && r.events == s.events + [Path(local, from)]
  }

  lemma YoungWasSent(s: AgentState, n: nat, alive: (nat, nat) -> bool, k: nat)
    requires Inv(s) && k < |StillAlive(s.pending, n, alive)|
    ensures WasSent(s.out, StillAlive(s.pending, n, alive)[k], s.controlling)
  {
    StillAliveWithin(s.pending, n, alive, k);
    var j :| 0 <= j < |s.pending| && s.pending[j] == StillAlive(s.pending, n, alive)[k];
    assert WasSent(s.out, s.pending[j], s.controlling);
  }

  lemma SuccessRemoves(s: AgentState, id: nat, env: Env)
    requires Inv(s)
    ensures var young := StillAlive(s.pending, s.nextId, env.alive);
            var k := FindPending(young, id, 0);
            && Inv(s.(pending := young)) && Grows(s, s.(pending := young))
            && (k.Some? ==>
                  && Inv(s.(pending := Without(young, k.value)))
                  && Grows(s, s.(pending := Without(young, k.value))))
  {
    hide Inv, Grows, FindPending;
    var young := StillAlive(s.pending, s.nextId, env.alive);
    forall i | 0 <= i < |young|
      ensures young[i] in s.pending
    {
      StillAliveWithin(s.pending, s.nextId, env.alive, i);
    }
    PendingRemoved(s, s.(pending := young));
    var k := FindPending(young, id, 0);
    if k.Some? {
      PendingRemoved(s, s.(pending := Without(young, k.value)));
    }
  }

  lemma QuietIsGrowth(s: AgentState, r: AgentState)
    requires Quiet(s, r)
    ensures Grows(s, r) && r.log == s.log && r.selected == s.selected
  {
  }

  lemma HandleSuccessKeeps(s: AgentState, id: nat, local: nat, remote: nat, from: Addr, env: Env)
    requires Inv(s) && !s.failed && local < |s.locals| && remote < |s.remotes| && s.remotes[remote].addr == from
    ensures var r := HandleSuccess(s, id, local, remote, from, env);
            && Inv(r) && Grows(s, r) && r.out == s.out && r.nominated == s.nominated
            && (r.log == s.log || (s.controlling && Awaits(s, id, from) && SelectsOn(s, r, s.locals[local].addr, from)))
  {
    hide RequestOk, UniqueIds, PendingSent, Chosen, Grows, StillAlive, WasSent;
    var young := StillAlive(s.pending, s.nextId, env.alive);
    SuccessRemoves(s, id, env);
    var k := FindPending(young, id, 0);
    if k.Some? {
      YoungWasSent(s, s.nextId, env.alive, k.value);
      var s1 := s.(pending := Without(young, k.value));
      var i := FindPair(s.pairs, local, remote, 0);
      if young[k.value].destination == from && i.Some? {
        MarkSucceededKeeps(s1, i.value);
        var s2 := MarkSucceeded(s1, i.value);
        QuietIsGrowth(s1, s2);
        GrowsTransitive(s, s1, s2);
        if s.controlling && young[k.value].useCandidate && s.selected == None {
          SelectKeeps(s2, i.value);
          GrowsTransitive(s, s2, Select(s2, i.value));
          assert young[k.value] == Pending(id, from, true);
        }
      }
    }
  }

  lemma NominateBestKeeps(s: AgentState, i: nat, env: Env)
    requires Inv(s) && s.controlling && i < |s.pairs|
    ensures Inv(NominateBest(s, i, env)) && Quiet(s, NominateBest(s, i, env))
  {
    hide RequestOk, UniqueIds, PendingSent, Chosen, Quiet, Nominate, BestFrom;
    NothingIsQuiet(s);
    assert WfPair(s, s.pairs[i]);
    if s.pairs[i].state == Succeeded && s.nominated == None {
      NominateFirst(s, i, env);
    }
  }

  lemma RequestAtControllingKeeps(s: AgentState, id: nat, local: nat, remote: nat, env: Env)
    requires Inv(s) && s.controlling && local < |s.locals| && remote < |s.remotes|
    ensures var r := RequestAtControlling(s, id, local, remote, env);
            Inv(r) && Grows(s, r) && r.log == s.log
  {
    hide RequestOk, UniqueIds, PendingSent, Chosen, Grows, NominateBest, AddPair, SendSuccess;
    var s1 := SendSuccess(s, id, Target(local, remote));
    SendSuccessKeeps(s, id, Target(local, remote));
    ControllingStays(s, s1);
    var i := FindPair(s1.pairs, local, remote, 0);
    if i == None {
      AddPairKeeps(s1, local, remote);
      GrowsTransitive(s, s1, AddPair(s1, local, remote));
    } else {
      NominateBestKeeps(s1, i.value, env);
      GrowsTransitive(s, s1, NominateBest(s1, i.value, env));
    }
  }

  /** Every answer among the new messages answers `id` along the path the request came in on. */
  ghost predicate Answers(s: AgentState, r: AgentState, id: nat, useCandidate: bool, local: Addr, from: Addr) {
    forall k :: |s.out| <= k < |r.out| && r.out[k].packet.Success? ==>
      r.out[k] == Envelope(local, from, Success(id)) && (useCandidate ==> r.log != [])
  }

  /** The selection that answers a USE-CANDIDATE request, if none was made before. */
  lemma FirstSelection(s: AgentState, i: nat)
    requires Inv(s) && !s.failed && i < |s.pairs| && s.pairs[i].state == Succeeded
    ensures var r := if s.selected == None then Select(s, i) else s;
            && Inv(r) && Grows(s, r) && r.log != [] && r.out == s.out
            && (r.log == s.log || SelectsOn(s, r, PathOf(s, i).local, PathOf(s, i).remote))
  {
    hide RequestOk, UniqueIds, PendingSent, Grows;
    NothingIsQuiet(s);
    QuietIsGrowth(s, s);
    assert WfPair(s, s.pairs[i]);
    if s.selected == None {
      SelectKeeps(s, i);
    }
  }

  lemma SelectsOnStays(s: AgentState, r: AgentState, t: AgentState, local: Addr, from: Addr)
    requires Wf(r) && Wf(t) && t == r.(out := t.out) && SelectsOn(s, r, local, from)
    ensures SelectsOn(s, t, local, from)
  {
  }

  lemma ControlledSelects(s: AgentState, id: nat, i: nat)
    requires Inv(s) && !s.failed && i < |s.pairs| && s.pairs[i].state == Succeeded
    ensures var s1 := if s.selected == None then Select(s, i) else s;
            var r := SendSuccess(s1, id, TargetOf(s.pairs[i]));
            && Inv(r) && Grows(s, r)
            && Answers(s, r, id, true, PathOf(s, i).local, PathOf(s, i).remote)
            && (r.log == s.log || SelectsOn(s, r, PathOf(s, i).local, PathOf(s, i).remote))
  {
    FirstSelection(s, i);
    assert WfPair(s, s.pairs[i]);
    var t := TargetOf(s.pairs[i]);
    var s1 := if s.selected == None then Select(s, i) else s;
    assert s1.locals == s.locals && s1.remotes == s.remotes;
    hide RequestOk, UniqueIds, PendingSent, Grows, Chosen, SelectsOn, Select;
    SendSuccessKeeps(s1, id, t);
    var r := SendSuccess(s1, id, t);
    GrowsTransitive(s, s1, r);
    if r.log != s.log {
      SelectsOnStays(s, s1, r, PathOf(s, i).local, PathOf(s, i).remote);
    }
  }

  lemma AnswerControlledKeeps(s: AgentState, id: nat, useCandidate: bool, i: nat, env: Env)
    requires Inv(s) && !s.failed && i < |s.pairs| && WfPair(s, s.pairs[i])
    ensures var r := AnswerControlled(s, id, useCandidate, i, env);
            var path := PathOf(s, i);
            && Inv(r) && Grows(s, r) && Answers(s, r, id, useCandidate, path.local, path.remote)
            && (r.log == s.log || (useCandidate && SelectsOn(s, r, path.local, path.remote)))
  {
    hide RequestOk, UniqueIds, PendingSent, Chosen, Grows;
    var t := TargetOf(s.pairs[i]);
    if !useCandidate {
      var s1 := SendSuccess(s, id, t);
      SendSuccessKeeps(s, id, t);
      SendRequestKeeps(s1, false, t, env);
      QuietIsGrowth(s1, SendRequest(s1, false, t, env));
      GrowsTransitive(s, s1, SendRequest(s1, false, t, env));
    } else if s.pairs[i].state == Succeeded {
      ControlledSelects(s, id, i);
    } else {
      SendRequestKeeps(s, false, t, env);
    }
  }

  lemma RequestAtControlledKeeps(s: AgentState, id: nat, useCandidate: bool, local: nat, remote: nat, env: Env)
    requires Inv(s) && !s.failed && local < |s.locals| && remote < |s.remotes|
    ensures var r := RequestAtControlled(s, id, useCandidate, local, remote, env);
            && Inv(r) && Grows(s, r)
            && Answers(s, r, id, useCandidate, s.locals[local].addr, s.remotes[remote].addr)
            && (r.log == s.log || (useCandidate && SelectsOn(s, r, s.locals[local].addr, s.remotes[remote].addr)))
  {
    hide RequestOk, UniqueIds, PendingSent, Chosen, Grows, AnswerControlled, Answers;
    var found := FindPair(s.pairs, local, remote, 0);
    if found == None {
      var s1 := AddPair(s, local, remote);
      AddPairKeeps(s, local, remote);
      QuietIsGrowth(s, s1);
      ControllingStays(s, s1);
      AnswerControlledKeeps(s1, id, useCandidate, |s.pairs|, env);
      var r := AnswerControlled(s1, id, useCandidate, |s.pairs|, env);
      GrowsTransitive(s, s1, r);
      AnswersAfterQuiet(s, s1, r, id, useCandidate, s.locals[local].addr, s.remotes[remote].addr);
    } else {
      assert WfPair(s, s.pairs[found.value]);
      AnswerControlledKeeps(s, id, useCandidate, found.value, env);
    }
  }

  /** The candidate a request from an unknown address adds. */
  function Reflexive(from: Addr, env: Env): Candidate {
    Candidate(from, env.reflexivePriority)
  }

  lemma WithSenderKeeps(s: AgentState, from: Addr, env: Env)
    requires Inv(s)
    ensures var r := WithSender(s, from, env);
            if FindAddr(s.remotes, from, 0) == None && ContactFails(s, env)
            then r == Fail(WithRemote(s, Reflexive(from, env)))
            else Inv(r) && Quiet(s, r) && r.remotes != []
  {
    hide AddRemote, Inv, ContactFails, Quiet, WithRemote;
    NothingIsQuiet(s);
    AddRemoteKeeps(s, Reflexive(from, env), env);
  }

  /** The message is one the agent acts on. */
  predicate Accepted(s: AgentState, local: Addr, p: Packet) {
    s.known && FindAddr(s.locals, local, 0).Some? && !Refused(s, p)
  }

  /** A request from an unknown address comes in when the connection is due to fail. */
  predicate Overtaken(s: AgentState, local: Addr, from: Addr, p: Packet, env: Env) {
    Accepted(s, local, p) && p.Request? && FindAddr(s.remotes, from, 0) == None && ContactFails(s, env)
  }

  /** Then the connection fails in the middle of the call and the new candidate's index is not there. */
  lemma OvertakenPanics(s: AgentState, local: Addr, from: Addr, p: Packet, env: Env)
    requires Inv(s) && Overtaken(s, local, from, p, env)
    ensures Inbound(s, local, from, p, env) == Panic(Fail(WithRemote(s, Reflexive(from, env))))
  {
    WithSenderKeeps(s, from, env);
    assert Fail(WithRemote(s, Reflexive(from, env))).remotes == [];
    hide WithSender, WithRemote, Inv, FindAddr, HandleRequest, HandleSuccess;
  }

  /**
   At the controlling agent: a selection needs an answer, from where it was asked, to a USE-CANDIDATE
   request.
   */
  lemma InboundAtControlling(s: AgentState, local: Addr, from: Addr, p: Packet, env: Env)
    requires Inv(s) && s.controlling && !s.failed
    ensures var r := Inbound(s, local, from, p, env);
            if Overtaken(s, local, from, p, env) then r == Panic(Fail(WithRemote(s, Reflexive(from, env))))
            else
              && Inv(r) && Grows(s, r)
              && (r.log == s.log || (p.Success? && Awaits(s, p.id, from) && SelectsOn(s, r, local, from)))
  {
    hide RequestOk, UniqueIds, PendingSent, Chosen, Grows, HandleSuccess, WithSender, RequestAtControlling, Awaits,
      SelectsOn, ContactFails, WithRemote;
    NothingIsQuiet(s);
    QuietIsGrowth(s, s);
    var l, r := FindAddr(s.locals, local, 0), FindAddr(s.remotes, from, 0);
    if !Accepted(s, local, p) {
    } else if p.Success? {
      if r.Some? {
        HandleSuccessKeeps(s, p.id, l.value, r.value, from, env);
      }
    } else if Overtaken(s, local, from, p, env) {
      OvertakenPanics(s, local, from, p, env);
    } else {
      WithSenderKeeps(s, from, env);
      var s1 := WithSender(s, from, env);
      QuietIsGrowth(s, s1);
      ControllingStays(s, s1);
      CandidatesStay(s, s1);
      var k := if r == None then |s1.remotes| - 1 else r.value;
      RequestAtControllingKeeps(s1, p.id, l.value, k, env);
      GrowsTransitive(s, s1, Inbound(s, local, from, p, env));
    }
  }

  lemma CandidatesStay(s: AgentState, r: AgentState)
    requires Grows(s, r)
    ensures s.locals <= r.locals && s.remotes <= r.remotes
  {
  }

  lemma ControllingStays(s: AgentState, r: AgentState)
    requires Grows(s, r)
    ensures r.controlling == s.controlling && r.failed == s.failed && r.known == s.known
  {
  }

  lemma AnswersAfterQuiet(s: AgentState, s1: AgentState, r: AgentState, id: nat, useCandidate: bool, local: Addr,
                          from: Addr)
    requires Quiet(s, s1) && Grows(s1, r) && Answers(s1, r, id, useCandidate, local, from)
    ensures Answers(s, r, id, useCandidate, local, from)
  {
    assert forall k :: 0 <= k < |s1.out| ==> r.out[k] == s1.out[k];
  }

  lemma ControlledOnRequest(s: AgentState, local: Addr, from: Addr, p: Packet, env: Env)
    requires Inv(s) && !s.controlling && !s.failed && Accepted(s, local, p) && p.Request?
    requires !Overtaken(s, local, from, p, env)
    ensures var r := Inbound(s, local, from, p, env);
            && Inv(r) && Grows(s, r) && Answers(s, r, p.id, p.useCandidate, local, from)
            && (r.log == s.log || (p.useCandidate && SelectsOn(s, r, local, from)))
  {
    hide RequestOk, UniqueIds, PendingSent, Chosen, Grows, WithSender, RequestAtControlled, Answers, ContactFails,
      WithRemote;
    var l, r := FindAddr(s.locals, local, 0), FindAddr(s.remotes, from, 0);
    WithSenderKeeps(s, from, env);
    var s1 := WithSender(s, from, env);
    QuietIsGrowth(s, s1);
    ControllingStays(s, s1);
    CandidatesStay(s, s1);
    var k := if r == None then |s1.remotes| - 1 else r.value;
    RequestAtControlledKeeps(s1, p.id, p.useCandidate, l.value, k, env);
    GrowsTransitive(s, s1, Inbound(s, local, from, p, env));
    AnswersAfterQuiet(s, s1, Inbound(s, local, from, p, env), p.id, p.useCandidate, local, from);
  }

  /** At the controlled agent: only a USE-CANDIDATE request selects, and it is answered only once selected. */
  lemma InboundAtControlled(s: AgentState, local: Addr, from: Addr, p: Packet, env: Env)
    requires Inv(s) && !s.controlling && !s.failed
    ensures var r := Inbound(s, local, from, p, env);
            if Overtaken(s, local, from, p, env) then r == Panic(Fail(WithRemote(s, Reflexive(from, env))))
            else
              && Inv(r) && Grows(s, r) && (p.Success? ==> r.out == s.out)
              && Answers(s, r, p.id, p.Request? && p.useCandidate, local, from)
              && (r.log == s.log || (p.Request? && p.useCandidate && SelectsOn(s, r, local, from)))
  {
    hide RequestOk, UniqueIds, PendingSent, Chosen, Grows, HandleSuccess, WithSender, RequestAtControlled, Awaits,
      SelectsOn, ContactFails, WithRemote;
    NothingIsQuiet(s);
    QuietIsGrowth(s, s);
    var l, r := FindAddr(s.locals, local, 0), FindAddr(s.remotes, from, 0);
    if !Accepted(s, local, p) {
    } else if p.Success? {
      if r.Some? {
        HandleSuccessKeeps(s, p.id, l.value, r.value, from, env);
      }
    } else if Overtaken(s, local, from, p, env) {
      OvertakenPanics(s, local, from, p, env);
    } else {
      ControlledOnRequest(s, local, from, p, env);
    }
  }

  /**
   Exactly when handling a message panics: an accepted request from an unknown address arrives at an
   agent that has not failed but whose connection is due to, and no timer has come in between.
   */
  lemma PanicsIff(s: AgentState, local: Addr, from: Addr, p: Packet, env: Env)
    requires Inv(s) && !s.failed
    ensures Inbound(s, local, from, p, env).panicked <==> Overtaken(s, local, from, p, env)
  {
    hide Overtaken, Inbound, WithRemote, Wf, RequestOk, UniqueIds, PendingSent, Chosen, Grows;
    if s.controlling {
      InboundAtControlling(s, local, from, p, env);
    } else {
      InboundAtControlled(s, local, from, p, env);
    }
  }

  // ---------------------------------------------------------------- selections of an agent that has failed

  /** The pair a message is about: the first one with the indices of the two addresses, if there is one. */
  function PairAsked(s: AgentState, local: Addr, from: Addr): Option<nat> {
    var l, r := FindAddr(s.locals, local, 0), FindAddr(s.remotes, from, 0);
    if l == None then None
    else FindPair(s.pairs, l.value, if r == None then |s.remotes| else r.value, 0)
  }

  lemma {:induction false} FindPairAppend(a: seq<Pair>, b: seq<Pair>, local: nat, remote: nat, i: nat)
    requires i <= |a|
    ensures FindPair(a, local, remote, i).Some? ==> FindPair(a + b, local, remote, i) == FindPair(a, local, remote, i)
    ensures FindPair(a, local, remote, i) == None
            ==> FindPair(a + b, local, remote, i) == FindPair(a + b, local, remote, |a|)
    decreases |a| - i
  {
    if i < |a| {
      assert (a + b)[i] == a[i];
      FindPairAppend(a, b, local, remote, i + 1);
    }
  }

  lemma {:induction false} NewPairsWait(s: AgentState, remote: nat, n: nat)
    requires remote < |s.remotes| && n <= |s.locals|
    ensures forall i :: 0 <= i < |PairsWithRemote(s, remote, n)| ==> PairsWithRemote(s, remote, n)[i].state == Waiting
  {
    if n > 0 {
      NewPairsWait(s, remote, n - 1);
    }
  }

  /** A failed agent that hears from an unknown address: nothing but the candidate and its new pairs is added. */
  lemma FailedWithSender(s: AgentState, from: Addr, env: Env, local: nat, remote: nat)
    requires s.failed
    requires var r := FindAddr(s.remotes, from, 0); remote == if r == None then |s.remotes| else r.value
    ensures var s1 := WithSender(s, from, env);
            var found, now := FindPair(s.pairs, local, remote, 0), FindPair(s1.pairs, local, remote, 0);
            && s1 == s.(remotes := s1.remotes, pairs := s1.pairs) && remote < |s1.remotes|
            && (now.Some? && s1.pairs[now.value].state == Succeeded <==>
                found.Some? && s.pairs[found.value].state == Succeeded)
  {
    if FindAddr(s.remotes, from, 0) == None {
      hide FindAddr, FindPair, PairsWithRemote;
      var s1 := s.(remotes := s.remotes + [Candidate(from, env.reflexivePriority)]);
      var more := PairsWithRemote(s1, |s.remotes|, |s.locals|);
      NewPairsWait(s1, |s.remotes|, |s.locals|);
      FindPairAppend(s.pairs, more, local, remote, 0);
      assert WithSender(s, from, env) == s1.(pairs := s.pairs + more);
    }
  }

  lemma AnswerControlledLog(s: AgentState, id: nat, useCandidate: bool, i: nat, env: Env)
    requires i < |s.pairs| && InRange(s, TargetOf(s.pairs[i]))
    ensures AnswerControlled(s, id, useCandidate, i, env).log != s.log <==>
            useCandidate && s.selected == None && s.pairs[i].state == Succeeded
  {
    hide StillAlive;
  }

  lemma RequestAtControlledLog(s: AgentState, id: nat, useCandidate: bool, local: nat, remote: nat, env: Env)
    requires local < |s.locals| && remote < |s.remotes|
    ensures var i := FindPair(s.pairs, local, remote, 0);
            RequestAtControlled(s, id, useCandidate, local, remote, env).log != s.log <==>
            useCandidate && s.selected == None && i.Some? && s.pairs[i.value].state == Succeeded
  {
    hide AnswerControlled;
    match FindPair(s.pairs, local, remote, 0)
    case None => AnswerControlledLog(AddPair(s, local, remote), id, useCandidate, |s.pairs|, env);
    case Some(i) => AnswerControlledLog(s, id, useCandidate, i, env);
  }

  /**
   When a controlled agent whose connection has failed selects all the same: exactly when it hears a
   USE-CANDIDATE request at one of its local candidates, all added since, and the pair with those
   indices, which dates from before the failure, was found valid then.
   */
  lemma FailedControlledSelectsIff(s: AgentState, local: Addr, from: Addr, p: Packet, env: Env)
    requires !s.controlling && s.failed && s.selected == None
    ensures Inbound(s, local, from, p, env).log != s.log <==>
            && s.known && p.Request? && p.byControlling && p.useCandidate
            && PairAsked(s, local, from).Some? && s.pairs[PairAsked(s, local, from).value].state == Succeeded
  {
    hide FindAddr, FindPair, WithSender, RequestAtControlled, HandleSuccess;
    var l, r := FindAddr(s.locals, local, 0), FindAddr(s.remotes, from, 0);
    if s.known && l.Some? && !Refused(s, p) {
      var remote := if r == None then |s.remotes| else r.value;
      if p.Success? {
        if r.Some? {
          HandleSuccessLog(s, p.id, l.value, remote, from, env);
        }
      } else {
        var s1 := WithSender(s, from, env);
        FailedWithSender(s, from, env, l.value, remote);
        RequestAtControlledLog(s1, p.id, p.useCandidate, l.value, remote, env);
      }
    }
  }

  /** An answer selects exactly when it answers a young USE-CANDIDATE request from where that was sent. */
  ghost predicate AnswersNomination(s: AgentState, id: nat, from: Addr, env: Env) {
    var young := StillAlive(s.pending, s.nextId, env.alive);
    var k := FindPending(young, id, 0);
    k.Some? && young[k.value].useCandidate && young[k.value].destination == from
  }

  lemma SelectLog(s: AgentState, i: nat)
    requires i < |s.pairs| && InRange(s, TargetOf(s.pairs[i]))
    ensures Select(s, i).log == s.log + [i]
  {
  }

  lemma HandleSuccessLog(s: AgentState, id: nat, local: nat, remote: nat, from: Addr, env: Env)
    requires local < |s.locals| && remote < |s.remotes|
    ensures HandleSuccess(s, id, local, remote, from, env).log != s.log <==>
            && s.controlling && s.selected == None && FindPair(s.pairs, local, remote, 0).Some?
            && AnswersNomination(s, id, from, env)
  {
    hide StillAlive, Select;
    var young := StillAlive(s.pending, s.nextId, env.alive);
    var k, i := FindPending(young, id, 0), FindPair(s.pairs, local, remote, 0);
    hide FindPair, FindPending;
    if k.Some? && i.Some? {
      SelectLog(MarkSucceeded(s.(pending := Without(young, k.value)), i.value), i.value);
    }
  }

  lemma RequestAtControllingLog(s: AgentState, id: nat, local: nat, remote: nat, env: Env)
    requires local < |s.locals| && remote < |s.remotes|
    ensures RequestAtControlling(s, id, local, remote, env).log == s.log
  {
    hide SendSuccess, NominateBest;
  }

  /** The controlling agent after a failure: exactly an answer to one of its old USE-CANDIDATE requests selects. */
  lemma FailedControllingSelectsIff(s: AgentState, local: Addr, from: Addr, p: Packet, env: Env)
    requires s.controlling && s.failed && s.selected == None
    ensures Inbound(s, local, from, p, env).log != s.log <==>
            && s.known && p.Success? && FindAddr(s.remotes, from, 0).Some? && PairAsked(s, local, from).Some?
            && AnswersNomination(s, p.id, from, env)
  {
    hide FindAddr, FindPair, WithSender, RequestAtControlling, HandleSuccess, AnswersNomination;
    var l, r := FindAddr(s.locals, local, 0), FindAddr(s.remotes, from, 0);
    if s.known && l.Some? && !Refused(s, p) {
      var remote := if r == None then |s.remotes| else r.value;
      if p.Success? {
        if r.Some? {
          HandleSuccessLog(s, p.id, l.value, remote, from, env);
        }
      } else {
        FailedWithSender(s, from, env, l.value, remote);
        RequestAtControllingLog(WithSender(s, from, env), p.id, l.value, remote, env);
      }
    }
  }

  lemma PingEachSnoc(s: AgentState, ts: seq<Target>, i: nat, env: Env)
    requires i < |ts|
    ensures PingEach(s, ts[..i + 1], env) == SendRequest(PingEach(s, ts[..i], env), false, ts[i], env)
  {
    hide SendRequest;
    assert ts[..i + 1][..i] == ts[..i];
  }

  lemma StillAliveSplit(ps: seq<Pending>, n: nat, alive: (nat, nat) -> bool, i: nat)
    requires i < |ps|
    ensures StillAlive(ps[i..], n, alive)
            == (if alive(n, ps[i].id) then [ps[i]] else []) + StillAlive(ps[i + 1..], n, alive)
  {
    assert ps[i..][1..] == ps[i + 1..];
  }

  lemma NoneAlive(n: nat, alive: (nat, nat) -> bool)
    ensures StillAlive([], n, alive) == []
  {
  }

  lemma PingNone(s: AgentState, env: Env)
    ensures PingEach(s, [], env) == s
  {
  }

  lemma BestIsBestOfAll(ps: seq<Pair>, onlyValid: bool)
    ensures IsBest(ps, onlyValid, |ps|, BestFrom(ps, onlyValid, 0, None))
  {
    BestIsBest(ps, onlyValid, 0, None);
  }

  // ---------------------------------------------------------------- the mutable agent

  /** The agent as the source keeps it; every method is proved to compute the function named in its contract. */
  class Agent {
    const lite: bool
    const maxRequests: nat
    var controlling: bool
    var locals: seq<Candidate>
    var remotes: seq<Candidate>
    var pairs: seq<Pair>
    var pending: seq<Pending>
    var nominated: Option<nat>
    var selected: Option<nat>
    var failed: bool
    var known: bool
    var panicked: bool
    var nextId: nat
    var out: seq<Envelope>
    var events: seq<Path>
    ghost var log: seq<nat>

    ghost function Value(): AgentState
      reads this
    {
      AgentState(controlling, lite, maxRequests, locals, remotes, pairs, pending, nominated, selected, failed, known,
                 panicked, nextId, out, log, events)
    }

    constructor (controlling: bool, lite: bool, maxRequests: nat)
      ensures Value() == NewAgent(controlling, lite, maxRequests)
    {
      this.lite, this.maxRequests, this.controlling := lite, maxRequests, controlling;
      locals, remotes, pairs, pending, out, log, events := [], [], [], [], [], [], [];
      nominated, selected, failed, known, panicked, nextId := None, None, false, false, false, 0;
    }

    method FindRemoteCandidate(a: Addr) returns (r: Option<nat>)
      ensures r == FindAddr(remotes, a, 0)
    {
      r := Search(remotes, a);
    }

    method FindLocalCandidate(a: Addr) returns (r: Option<nat>)
      ensures r == FindAddr(locals, a, 0)
    {
      r := Search(locals, a);
    }

    static method Search(cs: seq<Candidate>, a: Addr) returns (r: Option<nat>)
      ensures r == FindAddr(cs, a, 0)
    {
      var i := 0;
      while i < |cs|
        invariant 0 <= i <= |cs| && FindAddr(cs, a, 0) == FindAddr(cs, a, i)
      {
        if cs[i].addr == a {
          return Some(i);
        }
        i := i + 1;
      }
      r := None;
    }

    method FindPairIndex(local: nat, remote: nat) returns (r: Option<nat>)
      ensures r == FindPair(pairs, local, remote, 0)
    {
      var i := 0;
      while i < |pairs|
        invariant 0 <= i <= |pairs| && FindPair(pairs, local, remote, 0) == FindPair(pairs, local, remote, i)
      {
        if pairs[i].local == local && pairs[i].remote == remote {
          return Some(i);
        }
        i := i + 1;
      }
      r := None;
    }

    /** The first eligible pair of highest priority; `None` only when no pair is eligible. */
    method BestPair(onlyValid: bool) returns (best: Option<nat>)
      ensures best == BestFrom(pairs, onlyValid, 0, None)
      ensures IsBest(pairs, onlyValid, |pairs|, best)
    {
      hide Priority, IsBest;
      BestIsBestOfAll(pairs, onlyValid);
      best := None;
      var i := 0;
      while i < |pairs|
        invariant 0 <= i <= |pairs| && (best.Some? ==> best.value < |pairs|)
        invariant BestFrom(pairs, onlyValid, 0, None) == BestFrom(pairs, onlyValid, i, best)
      {
        if Eligible(pairs[i], onlyValid) {
          if best.Some? {
            if Priority(pairs[best.value]) < Priority(pairs[i]) {
              best := Some(i);
            }
          } else {
            best := Some(i);
          }
        }
        i := i + 1;
      }
    }

    method InvalidatePending(env: Env)
      modifies this`pending
      ensures pending == StillAlive(old(pending), nextId, env.alive)
    {
      pending := KeepYoung(pending, nextId, env.alive);
    }

    static method KeepYoung(ps: seq<Pending>, n: nat, alive: (nat, nat) -> bool) returns (temp: seq<Pending>)
      ensures temp == StillAlive(ps, n, alive)
    {
      hide StillAlive;
      temp := [];
      var i := 0;
      assert ps[0..] == ps && temp + StillAlive(ps, n, alive) == StillAlive(ps, n, alive);
      while i < |ps|
        invariant 0 <= i <= |ps|
        invariant StillAlive(ps, n, alive) == temp + StillAlive(ps[i..], n, alive)
      {
        StillAliveSplit(ps, n, alive, i);
        if alive(n, ps[i].id) {
          Assoc(temp, [ps[i]], StillAlive(ps[i + 1..], n, alive));
          temp := temp + [ps[i]];
        } else {
          assert [] + StillAlive(ps[i + 1..], n, alive) == StillAlive(ps[i + 1..], n, alive);
        }
        i := i + 1;
      }
      NoneAlive(n, alive);
      assert ps[i..] == [] && temp + [] == temp;
    }

    method SendBindingRequest(useCandidate: bool, t: Target, env: Env)
      modifies this
      ensures Value() == SendRequest(old(Value()), useCandidate, t, env)
    {
      hide StillAlive;
      if t.local >= |locals| || t.remote >= |remotes| {
        panicked := true;
        return;
      }
      InvalidatePending(env);
      var src, dst := locals[t.local].addr, remotes[t.remote].addr;
      pending := pending + [Pending(nextId, dst, useCandidate)];
      out := out + [Envelope(src, dst, Request(nextId, useCandidate, controlling))];
      nextId := nextId + 1;
    }

    method SendBindingSuccess(id: nat, t: Target)
      modifies this
      ensures Value() == SendSuccess(old(Value()), id, t)
    {
      if t.local >= |locals| || t.remote >= |remotes| {
        panicked := true;
        return;
      }
      out := out + [Envelope(locals[t.local].addr, remotes[t.remote].addr, Success(id))];
    }

    /** The pairs still being checked, and the marks their checks leave on the list. */
    method MarkPairs() returns (ts: seq<Target>)
      modifies this`pairs
      ensures pairs == MarkAll(old(pairs), maxRequests) && ts == Targets(old(pairs), maxRequests)
    {
      ts := [];
      var all, done, i := pairs, [], 0;
      while i < |all|
        invariant 0 <= i <= |all|
        invariant done == MarkAll(all[..i], maxRequests) && ts == Targets(all[..i], maxRequests)
      {
        assert all[..i + 1][..i] == all[..i];
        var p := all[i];
        if p.state == Waiting || p.state == InProgress {
          p := p.(state := InProgress);
          if p.requests > maxRequests {
            p := p.(state := Failed);
          } else {
            p := p.(requests := p.requests + 1);
            ts := ts + [TargetOf(p)];
          }
        }
        done := done + [p];
        i := i + 1;
      }
      assert all[..i] == all;
      pairs := done;
    }

    method PingAllCandidates(env: Env)
      modifies this
      ensures Value() == PingAll(old(Value()), env)
    {
      hide MarkAll, Targets, PingEach;
      var ts := MarkPairs();
      SendChecks(ts, env);
    }

    method SendChecks(ts: seq<Target>, env: Env)
      modifies this
      ensures Value() == PingEach(old(Value()), ts, env)
    {
      hide SendRequest, PingEach;
      ghost var start := Value();
      PingNone(start, env);
      assert ts[..0] == [];
      var i := 0;
      while i < |ts|
        invariant 0 <= i <= |ts| && Value() == PingEach(start, ts[..i], env)
      {
        PingEachSnoc(start, ts, i, env);
        SendBindingRequest(false, ts[i], env);
        i := i + 1;
      }
      assert ts[..i] == ts;
    }

    method NominatePair(env: Env)
      modifies this
      ensures Value() == Nominate(old(Value()), env)
    {
      hide SendRequest;
      if nominated.Some? {
        if nominated.value >= |pairs| {
          panicked := true;
          return;
        }
        SendBindingRequest(true, TargetOf(pairs[nominated.value]), env);
      }
    }

    method SetSelectedPair(i: nat)
      requires i < |pairs|
      modifies this
      ensures Value() == Select(old(Value()), i)
    {
      var p := pairs[i];
      if p.local >= |locals| || p.remote >= |remotes| {
        panicked := true;
      } else {
        pairs := Flag(pairs, i);
        selected := Some(i);
        failed := false;
        events := events + [Path(locals[p.local].addr, remotes[p.remote].addr)];
        log := log + [i];
      }
    }

    method CheckKeepalive(env: Env)
      modifies this
      ensures Value() == KeepAlive(old(Value()), env)
    {
      hide SendRequest;
      if selected.Some? {
        var i := selected.value;
        if i >= |pairs| || pairs[i].local >= |locals| || pairs[i].remote >= |remotes| {
          panicked := true;
          return;
        }
        if env.keepalive {
          SendBindingRequest(false, TargetOf(pairs[i]), env);
        }
      }
    }

    method ValidateSelectedPair(env: Env)
      modifies this
      ensures Value() == Validated(old(Value()), env)
    {
      if selected.Some? {
        if selected.value >= |pairs| || pairs[selected.value].remote >= |remotes| {
          panicked := true;
        } else if env.lost {
          GiveUp();
        }
      }
    }

    method MaintainSelectedPair(env: Env)
      modifies this
      ensures Value() == Maintain(old(Value()), env)
    {
      hide Validated, KeepAlive;
      ValidateSelectedPair(env);
      if !panicked {
        CheckKeepalive(env);
      }
    }

    /** Whether both candidates of a pair may be nominated by now. */
    method IsNominatable(p: Pair, env: Env) returns (r: Option<bool>)
      ensures r == Ready(Value(), p, env)
    {
      if p.local >= |locals| {
        return None;
      }
      if !env.localReady(p.local) {
        return Some(false);
      }
      if p.remote >= |remotes| {
        return None;
      }
      r := Some(env.remoteReady(p.remote));
    }

    method ContactCandidates(env: Env)
      modifies this
      ensures Value() ==
              if old(controlling) then ContactControlling(old(Value()), env) else ContactControlled(old(Value()), env)
    {
      hide PingAll, Maintain, Validated, Nominate, BestFrom;
      if !controlling {
        if lite {
          ValidateSelectedPair(env);
        } else if selected.Some? {
          MaintainSelectedPair(env);
        } else {
          PingAllCandidates(env);
        }
        return;
      }
      if selected.Some? {
        MaintainSelectedPair(env);
      } else if nominated.Some? {
        NominatePair(env);
      } else {
        var best := BestPair(true);
        if best == None {
          PingAllCandidates(env);
          return;
        }
        var ready := IsNominatable(pairs[best.value], env);
        if ready == None {
          panicked := true;
        } else if ready.value {
          pairs := pairs[best.value := pairs[best.value].(nominated := true)];
          nominated := best;
          NominatePair(env);
        } else {
          PingAllCandidates(env);
        }
      }
    }

    method HandleInboundBindingSuccess(id: nat, env: Env) returns (p: Option<Pending>)
      modifies this`pending
      ensures var young := StillAlive(old(pending), nextId, env.alive);
              var k := FindPending(young, id, 0);
              && p == (if k.Some? then Some(young[k.value]) else None)
              && pending == if k.Some? then Without(young, k.value) else young
    {
      hide StillAlive;
      InvalidatePending(env);
      var i := 0;
      while i < |pending|
        invariant 0 <= i <= |pending| && pending == StillAlive(old(pending), nextId, env.alive)
        invariant FindPending(pending, id, 0) == FindPending(pending, id, i)
      {
        if pending[i].id == id {
          p := Some(pending[i]);
          pending := pending[..i] + pending[i + 1..];
          return;
        }
        i := i + 1;
      }
      p := None;
    }

    method HandleSuccessResponse(id: nat, local: nat, remote: nat, from: Addr, env: Env)
      modifies this
      ensures Value() == HandleSuccess(old(Value()), id, local, remote, from, env)
    {
      hide StillAlive;
      var p := HandleInboundBindingSuccess(id, env);
      if p == None || p.value.destination != from {
        return;
      }
      var unselected := selected == None;
      var i := FindPairIndex(local, remote);
      if i.Some? {
        pairs := pairs[i.value := pairs[i.value].(state := Succeeded)];
        if controlling && p.value.useCandidate && unselected {
          SetSelectedPair(i.value);
        }
      }
    }

    method HandleBindingRequest(id: nat, useCandidate: bool, local: nat, remote: nat, env: Env)
      requires local < |locals| && remote < |remotes|
      modifies this
      ensures Value() == HandleRequest(old(Value()), id, useCandidate, local, remote, env)
    {
      if controlling {
        RequestToControlling(id, local, remote, env);
      } else {
        RequestToControlled(id, useCandidate, local, remote, env);
      }
    }

    method NominateIfBest(i: nat, env: Env)
      requires i < |pairs|
      modifies this
      ensures Value() == NominateBest(old(Value()), i, env)
    {
      hide Nominate, BestFrom, Ready;
      if pairs[i].state == Succeeded && nominated == None && selected == None {
        var best := BestPair(false);
        if best == Some(i) {
          var ready := IsNominatable(pairs[i], env);
          if ready == None {
            panicked := true;
          } else if ready.value {
            nominated := Some(i);
            NominatePair(env);
          }
        }
      }
    }

    method RequestToControlling(id: nat, local: nat, remote: nat, env: Env)
      requires local < |locals| && remote < |remotes|
      modifies this
      ensures Value() == RequestAtControlling(old(Value()), id, local, remote, env)
    {
      hide NominateBest, SendSuccess;
      SendBindingSuccess(id, Target(local, remote));
      var i := FindPairIndex(local, remote);
      if i.Some? {
        NominateIfBest(i.value, env);
      } else {
        AddPairAt(local, remote);
      }
    }

    method RequestToControlled(id: nat, useCandidate: bool, local: nat, remote: nat, env: Env)
      requires local < |locals| && remote < |remotes|
      modifies this
      ensures Value() == RequestAtControlled(old(Value()), id, useCandidate, local, remote, env)
    {
      hide SendRequest;
      var found := FindPairIndex(local, remote);
      if found == None {
        AddPairAt(local, remote);
        found := Some(|pairs| - 1);
      }
      var i := found.value;
      var t := Target(local, remote);
      if useCandidate {
        if pairs[i].state == Succeeded {
          if selected == None {
            SetSelectedPair(i);
          }
          SendBindingSuccess(id, t);
        } else {
          SendBindingRequest(false, t, env);
        }
      } else {
        SendBindingSuccess(id, t);
        SendBindingRequest(false, t, env);
      }
    }

    method AddPairAt(local: nat, remote: nat)
      requires local < |locals| && remote < |remotes|
      modifies this`pairs
      ensures pairs == old(pairs) + [NewPair(Value(), local, remote)]
    {
      var l, r := locals[local].priority, remotes[remote].priority;
      pairs := pairs + [Pair(local, remote, Waiting, 0, l, r, controlling, false)];
    }

    method PairRemote(c: Candidate)
      modifies this`remotes, this`pairs
      ensures Value() == WithRemote(old(Value()), c)
    {
      ghost var s1 := Value().(remotes := remotes + [c]);
      remotes := remotes + [c];
      assert pairs == pairs + [];
      var i := 0;
      while i < |locals|
        invariant 0 <= i <= |locals| && remotes == s1.remotes && |remotes| == |old(remotes)| + 1
        invariant pairs == old(pairs) + PairsWithRemote(s1, |old(remotes)|, i)
      {
        AddPairAt(i, |remotes| - 1);
        i := i + 1;
      }
    }

    method PairLocal(c: Candidate)
      modifies this`locals, this`pairs
      ensures Value() == WithLocal(old(Value()), c)
    {
      ghost var s1 := Value().(locals := locals + [c]);
      locals := locals + [c];
      assert pairs == pairs + [];
      var i := 0;
      while i < |remotes|
        invariant 0 <= i <= |remotes| && locals == s1.locals && |locals| == |old(locals)| + 1
        invariant pairs == old(pairs) + PairsWithLocal(s1, |old(locals)|, i)
      {
        AddPairAt(|locals| - 1, i);
        i := i + 1;
      }
    }

    method AddRemoteCandidate(c: Candidate, env: Env)
      modifies this
      ensures Value() == AddRemote(old(Value()), c, env)
    {
      hide Contact, WithRemote;
      if c in remotes {
        return;
      }
      PairRemote(c);
      RequestConnectivityCheck(env);
    }

    method AddLocalCandidate(c: Candidate, env: Env)
      modifies this
      ensures Value() == AddLocal(old(Value()), c, env)
    {
      hide Contact, WithLocal;
      if c in locals {
        return;
      }
      PairLocal(c);
      RequestConnectivityCheck(env);
    }

    method RequestConnectivityCheck(env: Env)
      modifies this
      ensures Value() == Contact(old(Value()), env)
    {
      hide ContactControlling, ContactControlled;
      if known && !failed {
        if selected == None && env.expired {
          GiveUp();
        } else {
          ContactCandidates(env);
        }
      }
    }

    /** `update_connection_state` when the connection fails. */
    method GiveUp()
      modifies this
      ensures Value() == Fail(old(Value()))
    {
      if !failed {
        selected := None;
        locals, remotes := [], [];
        failed := true;
      }
    }

    method StartConnectivityChecks(isControlling: bool, env: Env)
      modifies this
      ensures Value() == Begin(old(Value()), isControlling, env)
    {
      hide Contact;
      known, controlling, failed := true, isControlling, false;
      if isControlling {
        nominated := None;
      }
      RequestConnectivityCheck(env);
    }

    method HandleInbound(local: Addr, from: Addr, p: Packet, env: Env)
      modifies this
      ensures Value() == Inbound(old(Value()), local, from, p, env)
    {
      hide HandleSuccess, HandleRequest, AddRemote;
      var l := FindLocalCandidate(local);
      if l == None || !known {
        return;
      }
      if p.Request? && (if controlling then p.byControlling || p.useCandidate else !p.byControlling) {
        return;
      }
      var r := FindRemoteCandidate(from);
      if p.Success? {
        if r.Some? {
          HandleSuccessResponse(p.id, l.value, r.value, from, env);
        }
      } else {
        ghost var s1 := WithSender(Value(), from, env);
        if r == None {
          AddRemoteCandidate(Candidate(from, env.reflexivePriority), env);
        }
        assert Value() == s1;
        if remotes == [] {
          panicked := true;
          return;
        }
        if r == None {
          r := Some(|remotes| - 1);
        }
        HandleBindingRequest(p.id, p.useCandidate, l.value, r.value, env);
      }
    }
  }
}
