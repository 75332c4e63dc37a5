/**
 The STUN client (rtc-stun/src/client.rs) over its agent.  `PollEvent` hides failures while
 attempts remain by retransmitting; the module proves what whole runs of the client keep:
 every written transaction ends in exactly one event, no transaction is transmitted more than
 1 + maxAttempts times, and a client that is closed and drained has nothing left.
 */
module StunClient {
  import opened Bytes
  import opened StunAgent

  datatype ClientTransaction = ClientTransaction(id: TransactionId, attempt: nat, rto: Time, raw: Bytes)

  /** A queued datagram; `id` names the transaction it belongs to. */
  datatype Transmit = Transmit(id: TransactionId, message: Bytes)

  datatype ClientState = ClientState(
    agent: AgentState,
    maxAttempts: nat,
    rto: Time,
    closed: bool,
    transactions: map<TransactionId, ClientTransaction>,
    transmits: seq<Transmit>)

  function NextTimeout(ct: ClientTransaction, now: Time): Time {
    now + (ct.attempt + 1) * ct.rto
  }

  function OrInsert(m: map<TransactionId, ClientTransaction>, ct: ClientTransaction)
    : map<TransactionId, ClientTransaction>
  {
    if ct.id in m then m else m[ct.id := ct]
  }

  /** What one call hands back: the new state, the event returned and the datagrams queued. */
  datatype Polled = Polled(client: ClientState, event: Option<Event>, sent: seq<Transmit>)

  /** One turn of the `poll_event` loop; `now` is the instant it reads. */
  ghost function PollTurn(c: ClientState, now: Time): Polled
    requires c.agent.events != []
  {
    var e := c.agent.events[0];
    var agent := c.agent.(events := c.agent.events[1..]);
    if e.id !in c.transactions then Polled(c.(agent := agent), None, [])
    else
      var ct := c.transactions[e.id];
      var rest := c.transactions - {e.id};
      if ct.attempt >= c.maxAttempts || e.result.Response? then
        Polled(c.(agent := agent, transactions := rest), Some(e), [])
      else
        var again := ct.(attempt := ct.attempt + 1);
        var (agent', status) := Started(agent, ct.id, NextTimeout(again, now));
        var with := OrInsert(rest, again);
        if status.Err? then Polled(c.(agent := agent', transactions := with - {ct.id}), Some(e), [])
        else
          var t := Transmit(ct.id, ct.raw);
          Polled(c.(agent := agent', transactions := with, transmits := c.transmits + [t]), None, [t])
  }

  /** The whole loop; `clock(k)` is the instant read when `k` events are queued. */
  ghost function Poll(c: ClientState, clock: nat -> Time): (r: Polled)
    ensures |r.client.agent.events| <= |c.agent.events|
    ensures r.event.Some? ==> |r.client.agent.events| < |c.agent.events|
    ensures r.event == None ==> r.client.agent.events == []
    decreases |c.agent.events|
  {
    if c.agent.events == [] then Polled(c, None, [])
    else
      var turn := PollTurn(c, clock(|c.agent.events|));
      if turn.event.Some? then turn
      else
        var more := Poll(turn.client, clock);
        more.(sent := turn.sent + more.sent)
  }

  ghost function Written(c: ClientState, id: TransactionId, raw: Bytes, now: Time)
    : (r: (ClientState, Status, seq<Transmit>))
  {
    if c.closed then (c, Err(ClientClosed), [])
    else
      var ct := ClientTransaction(id, 0, c.rto, raw);
      var with := OrInsert(c.transactions, ct);
      var (agent, status) := Started(c.agent, id, NextTimeout(ct, now));
      if status.Err? then (c.(agent := agent, transactions := with), status, [])
      else
        var t := Transmit(id, raw);
        (c.(agent := agent, transactions := with, transmits := c.transmits + [t]), Ok, [t])
  }

  ghost function Read(c: ClientState, decoded: Option<Message>): (ClientState, Status) {
    if decoded == None then (c, Err(DecodeFailed))
    else
      var (agent, status) := Processed(c.agent, decoded.value);
      (c.(agent := agent), status)
  }

  ghost function TimedOut(c: ClientState, order: seq<TransactionId>): (ClientState, Status) {
    var (agent, status) := Collected(c.agent, order);
    (c.(agent := agent), status)
  }

  ghost function ShutDown(c: ClientState, order: seq<TransactionId>): (ClientState, Status) {
    if c.closed then (c, Err(ClientClosed))
    else
      var (agent, status) := Closed(c.agent, order);
      (c.(agent := agent, closed := true), status)
  }

  class Client {
    const agent: Agent
    const maxAttempts: nat
    const rto: Time
    var closed: bool
    var transactions: map<TransactionId, ClientTransaction>
    var transmits: seq<Transmit>

    ghost function State(): ClientState
      reads this, agent
    {
      ClientState(agent.State(), maxAttempts, rto, closed, transactions, transmits)
    }

    constructor (maxAttempts: nat, rto: Time)
      ensures State() == NewClient(maxAttempts, rto) && fresh(agent)
    {
      this.maxAttempts, this.rto := maxAttempts, rto;
      closed, transactions, transmits := false, map[], [];
      agent := new Agent();
    }

    method PollTransmit() returns (t: Option<Transmit>)
      modifies this
      ensures old(transmits) == [] ==> t == None && State() == old(State())
      ensures old(transmits) != [] ==>
                t == Some(old(transmits)[0]) && State() == old(State()).(transmits := old(transmits)[1..])
    {
      if transmits == [] {
        t := None;
      } else {
        t := Some(transmits[0]);
        transmits := transmits[1..];
      }
    }

    /** Body of the `poll_event` loop: takes one queued event and returns it, drops it or retransmits. */
    method TakeEvent(now: Time) returns (event: Option<Event>)
      requires agent.events != []
      modifies this, agent
      ensures State() == PollTurn(old(State()), now).client
      ensures event == PollTurn(old(State()), now).event
      ensures |agent.events| < |old(agent.events)|
    {
      var next := agent.PollEvent();
      var e := next.value;
      if e.id !in transactions {
        return None;
      }
      var ct := transactions[e.id];
      transactions := transactions - {e.id};
      if ct.attempt >= maxAttempts || e.result.Response? {
        return Some(e);
      }
      ct := ct.(attempt := ct.attempt + 1);
      transactions := OrInsert(transactions, ct);
      var status := agent.Start(ct.id, NextTimeout(ct, now));
      if status.Err? {
        transactions := transactions - {ct.id};
        return Some(e);
      }
      transmits := transmits + [Transmit(ct.id, ct.raw)];
      event := None;
    }

    method PollEvent(clock: nat -> Time) returns (event: Option<Event>)
      modifies this, agent
      ensures State() == Poll(old(State()), clock).client
      ensures event == Poll(old(State()), clock).event
    {
      hide PollTurn;
      while agent.events != []
        invariant Poll(old(State()), clock).client == Poll(State(), clock).client
        invariant Poll(old(State()), clock).event == Poll(State(), clock).event
        decreases |agent.events|
      {
        event := TakeEvent(clock(|agent.events|));
        if event.Some? {
          return;
        }
      }
      event := None;
    }

    method HandleRead(decoded: Option<Message>) returns (status: Status)
      modifies agent
      ensures (State(), status) == Read(old(State()), decoded)
    {
      if decoded == None {
        return Err(DecodeFailed);
      }
      status := agent.Process(decoded.value);
    }

    method HandleWrite(id: TransactionId, raw: Bytes, now: Time) returns (status: Status)
      modifies this, agent
      ensures (State(), status) == (Written(old(State()), id, raw, now).0, Written(old(State()), id, raw, now).1)
    {
      if closed {
        return Err(ClientClosed);
      }
      var ct := ClientTransaction(id, 0, rto, raw);
      var deadline := NextTimeout(ct, now);
      transactions := OrInsert(transactions, ct);
      status := agent.Start(id, deadline);
      if status.Err? {
        return;
      }
      transmits := transmits + [Transmit(id, raw)];
    }

    method HandleTimeout(now: Time) returns (status: Status, ghost order: seq<TransactionId>)
      modifies agent
      ensures (State(), status) == TimedOut(old(State()), order)
      ensures !old(agent.closed) ==> Enumerates(order, Due(old(agent.State()), now))
    {
      status, order := agent.Collect(now);
    }

    method HandleClose() returns (status: Status, ghost order: seq<TransactionId>)
      modifies this, agent
      ensures (State(), status) == ShutDown(old(State()), order)
      ensures !old(closed) && !old(agent.closed) ==> Enumerates(order, old(agent.transactions).Keys)
    {
      order := [];
      if closed {
        return Err(ClientClosed), [];
      }
      closed := true;
      status, order := agent.Close();
    }
  }

  function NewClient(maxAttempts: nat, rto: Time): ClientState {
    ClientState(NEW_AGENT, maxAttempts, rto, false, map[], [])
  }

  // ---------------------------------------------------------------- runs

  /** A client with the history of its run: what was written, every datagram ever queued, every event returned. */
  datatype World = World(
    client: ClientState,
    written: map<TransactionId, Bytes>,
    sent: multiset<Transmit>,
    delivered: seq<Event>)

  datatype Op =
    | OpWrite(id: TransactionId, raw: Bytes, now: Time)
    | OpRead(decoded: Option<Message>)
    | OpTimeout(deadline: Time, dueOrder: seq<TransactionId>)
    | OpClose(closeOrder: seq<TransactionId>)
    | OpPoll(clock: nat -> Time)
    | OpPollTransmit

  /** Ids are fresh (they are drawn at random) and the orders are those a hash map could yield. */
  ghost predicate Allowed(w: World, op: Op) {
    match op
    case OpWrite(id, _, _) => id !in w.written
    case OpTimeout(deadline, order) => Enumerates(order, Due(w.client.agent, deadline))
    case OpClose(order) => Enumerates(order, w.client.agent.transactions.Keys)
    case _ => true
  }

  ghost function AfterPoll(w: World, r: Polled): World {
    World(r.client, w.written, w.sent + multiset(r.sent),
          if r.event.Some? then w.delivered + [r.event.value] else w.delivered)
  }

  ghost function Step(w: World, op: Op): World {
    match op
    case OpWrite(id, raw, now) =>
      var (c, status, sent) := Written(w.client, id, raw, now);
      World(c, if status.Ok? then w.written[id := raw] else w.written, w.sent + multiset(sent), w.delivered)
    case OpRead(decoded) => w.(client := Read(w.client, decoded).0)
    case OpTimeout(_, order) => w.(client := TimedOut(w.client, order).0)
    case OpClose(order) => w.(client := ShutDown(w.client, order).0)
    case OpPoll(clock) => AfterPoll(w, Poll(w.client, clock))
    case OpPollTransmit =>
      if w.client.transmits == [] then w
      else w.(client := w.client.(transmits := w.client.transmits[1..]))
  }

  ghost function Run(w: World, ops: seq<Op>): World
    decreases |ops|
  {
    if ops == [] then w else Run(Step(w, ops[0]), ops[1..])
  }

  ghost predicate AllowedRun(w: World, ops: seq<Op>)
    decreases |ops|
  {
    ops != [] ==> Allowed(w, ops[0]) && AllowedRun(Step(w, ops[0]), ops[1..])
  }

  ghost function NewWorld(maxAttempts: nat, rto: Time): World {
    World(NewClient(maxAttempts, rto), map[], multiset{}, [])
  }

  datatype Kind = Any | Failure | Timeout

  predicate Is(e: Event, id: TransactionId, kind: Kind) {
    && e.id == id
    && match kind
       case Any => true
       case Failure => e.result.Failed?
       case Timeout => e.result == Failed(TransactionTimeOut)
  }

  /** How many of the events belong to `id` and are of the given kind. */
  ghost function Count(events: seq<Event>, id: TransactionId, kind: Kind): nat {
    if events == [] then 0
    else (if Is(events[0], id, kind) then 1 else 0) + Count(events[1..], id, kind)
  }

  ghost function Live(a: AgentState, id: TransactionId): nat {
    if id in a.transactions then 1 else 0
  }

  // ---------------------------------------------------------------- invariant

  /** How often the message written under `id` was queued for transmission. */
  ghost function Copies(w: World, id: TransactionId): nat
    requires id in w.written
  {
    w.sent[Transmit(id, w.written[id])]
  }

  /**
   Queue, agent map and client map for one id: an outstanding transaction is live or has a queued
   event, and failures queued plus the live entry never exceed one.
   */
  ghost predicate Linked(c: ClientState, id: TransactionId) {
    && (id in c.transactions ==>
          && c.transactions[id].id == id
          && (id in c.agent.transactions || Count(c.agent.events, id, Any) > 0))
    && Count(c.agent.events, id, Failure) + Live(c.agent, id) <= 1
  }

  /** The client against the history of a transaction that was written. */
  ghost predicate Accounted(w: World, id: TransactionId)
    requires id in w.written
  {
    if id in w.client.transactions then
      && Count(w.delivered, id, Any) == Count(w.delivered, id, Timeout) == 0
      && w.client.transactions[id].raw == w.written[id]
      && Copies(w, id) == w.client.transactions[id].attempt + 1
      && w.client.transactions[id].attempt <= w.client.maxAttempts
    else
      && Count(w.delivered, id, Any) == 1
      && Copies(w, id) <= w.client.maxAttempts + 1
      && (Count(w.delivered, id, Timeout) > 0 ==> w.client.closed || Copies(w, id) == w.client.maxAttempts + 1)
  }

  ghost predicate Unknown(w: World, id: TransactionId) {
    && id !in w.client.transactions
    && Count(w.client.agent.events, id, Failure) + Live(w.client.agent, id) == 0
    && Count(w.delivered, id, Any) == Count(w.delivered, id, Timeout) == 0
  }

  ghost predicate At(w: World, id: TransactionId) {
    && Linked(w.client, id)
    && if id in w.written then Accounted(w, id) else Unknown(w, id)
  }

  ghost predicate SentAsWritten(w: World, t: Transmit) {
    t in w.sent ==> t.id in w.written && t.message == w.written[t.id]
  }

  ghost predicate ClosedTogether(c: ClientState) {
    && c.closed == c.agent.closed
    && (c.closed ==> c.agent.transactions == map[])
  }

  ghost predicate Inv(w: World) {
    && ClosedTogether(w.client)
    && (forall id :: At(w, id))
    && (forall t :: SentAsWritten(w, t))
  }

  lemma {:induction false} CountAppend(a: seq<Event>, b: seq<Event>, id: TransactionId, kind: Kind)
    ensures Count(a + b, id, kind) == Count(a, id, kind) + Count(b, id, kind)
  {
    if a == [] {
      assert a + b == b;
    } else {
      assert (a + b)[1..] == a[1..] + b;
      CountAppend(a[1..], b, id, kind);
    }
  }

  lemma CountSnoc(a: seq<Event>, e: Event, id: TransactionId, kind: Kind)
    ensures Count(a + [e], id, kind) == Count(a, id, kind) + if Is(e, id, kind) then 1 else 0
  {
    CountAppend(a, [e], id, kind);
    assert [e][1..] == [];
  }

  lemma {:induction false} FailuresCount(order: seq<TransactionId>, e: Error, id: TransactionId, kind: Kind)
    requires Distinct(order) && kind != Timeout
    ensures Count(Failures(order, e), id, kind) == if id in order then 1 else 0
  {
    if order != [] {
      assert Failures(order, e)[1..] == Failures(order[1..], e);
      FailuresCount(order[1..], e, id, kind);
    }
  }

  /** A retransmission can be refused only by a closed agent. */
  lemma RestartRefusedOnlyWhenClosed(c: ClientState, deadline: Time)
    requires ClosedTogether(c) && c.agent.events != []
    requires Linked(c, c.agent.events[0].id)
    requires c.agent.events[0].result.Failed?
    ensures var e := c.agent.events[0];
            Started(c.agent.(events := c.agent.events[1..]), e.id, deadline).1.Err? <==> c.closed
  {
  }

  lemma TurnLinked(c: ClientState, now: Time, id: TransactionId)
    requires ClosedTogether(c) && c.agent.events != []
    requires Linked(c, id) && Linked(c, c.agent.events[0].id)
    ensures Linked(PollTurn(c, now).client, id) && ClosedTogether(PollTurn(c, now).client)
  {
    var e := c.agent.events[0];
    if e.id in c.transactions && e.result.Failed? {
      RestartRefusedOnlyWhenClosed(c,
        NextTimeout(c.transactions[e.id].(attempt := c.transactions[e.id].attempt + 1), now));
    }
  }

  /** A turn leaves every other transaction of the client and its copies as they were. */
  lemma TurnOther(w: World, now: Time, id: TransactionId)
    requires w.client.agent.events != [] && id != w.client.agent.events[0].id
    requires Linked(w.client, w.client.agent.events[0].id)
    requires id in w.written && Accounted(w, id)
    ensures Accounted(AfterPoll(w, PollTurn(w.client, now)), id)
  {
    var e := w.client.agent.events[0];
    CountSnoc(w.delivered, e, id, Any);
    CountSnoc(w.delivered, e, id, Timeout);
    var r := PollTurn(w.client, now);
    assert Transmit(id, w.written[id]) !in multiset(r.sent);
  }

  lemma TurnSelf(w: World, now: Time)
    requires ClosedTogether(w.client) && w.client.agent.events != []
    requires var id := w.client.agent.events[0].id; Linked(w.client, id) && id in w.written && Accounted(w, id)
    ensures Accounted(AfterPoll(w, PollTurn(w.client, now)), w.client.agent.events[0].id)
  {
    var e := w.client.agent.events[0];
    var r := PollTurn(w.client, now);
    if e.id in w.client.transactions {
      var ct := w.client.transactions[e.id];
      if ct.attempt >= w.client.maxAttempts || e.result.Response? {
        CountSnoc(w.delivered, e, e.id, Any);
        CountSnoc(w.delivered, e, e.id, Timeout);
      } else {
        RestartRefusedOnlyWhenClosed(w.client, NextTimeout(ct.(attempt := ct.attempt + 1), now));
        if w.client.closed {
          CountSnoc(w.delivered, e, e.id, Any);
          CountSnoc(w.delivered, e, e.id, Timeout);
        } else {
          assert r.sent == [Transmit(e.id, ct.raw)];
          assert multiset(r.sent) == multiset{Transmit(e.id, ct.raw)};
        }
      }
    }
  }

  lemma TurnUnknown(w: World, now: Time, id: TransactionId)
    requires ClosedTogether(w.client) && w.client.agent.events != []
    requires At(w, id) && Linked(w.client, w.client.agent.events[0].id)
    requires id !in w.written
    ensures Unknown(AfterPoll(w, PollTurn(w.client, now)), id)
  {
    var e := w.client.agent.events[0];
    CountSnoc(w.delivered, e, id, Any);
    CountSnoc(w.delivered, e, id, Timeout);
  }

  lemma TurnKeeps(w: World, now: Time)
    requires Inv(w) && w.client.agent.events != []
    ensures Inv(AfterPoll(w, PollTurn(w.client, now)))
  {
    var w' := AfterPoll(w, PollTurn(w.client, now));
    var e := w.client.agent.events[0];
    assert At(w, e.id);
    forall id
      ensures At(w', id)
    {
      assert At(w, id);
      TurnLinked(w.client, now, id);
      if id !in w.written {
        TurnUnknown(w, now, id);
      } else if id == e.id {
        TurnSelf(w, now);
      } else {
        TurnOther(w, now, id);
      }
    }
    forall t
      ensures SentAsWritten(w', t)
    {
      assert SentAsWritten(w, t);
    }
  }

  lemma AfterPollSplit(w: World, turn: Polled, more: Polled)
    requires turn.event == None
    ensures AfterPoll(AfterPoll(w, turn), more) == AfterPoll(w, more.(sent := turn.sent + more.sent))
  {
    assert multiset(turn.sent + more.sent) == multiset(turn.sent) + multiset(more.sent);
  }

  lemma {:induction false} PollKeeps(w: World, clock: nat -> Time)
    requires Inv(w)
    ensures Inv(AfterPoll(w, Poll(w.client, clock)))
    decreases |w.client.agent.events|
  {
    if w.client.agent.events == [] {
      assert AfterPoll(w, Poll(w.client, clock)) == w;
    } else {
      var now := clock(|w.client.agent.events|);
      var turn := PollTurn(w.client, now);
      TurnKeeps(w, now);
      if turn.event == None {
        PollKeeps(AfterPoll(w, turn), clock);
        AfterPollSplit(w, turn, Poll(turn.client, clock));
      }
    }
  }

  lemma WriteAt(w: World, id: TransactionId, raw: Bytes, now: Time, x: TransactionId)
    requires ClosedTogether(w.client) && !w.client.closed && id !in w.written
    requires At(w, id) && At(w, x) && SentAsWritten(w, Transmit(id, raw))
    ensures At(Step(w, OpWrite(id, raw, now)), x)
    ensures Written(w.client, id, raw, now).1.Ok?
  {
  }

  lemma WriteKeeps(w: World, id: TransactionId, raw: Bytes, now: Time)
    requires Inv(w) && id !in w.written
    ensures Inv(Step(w, OpWrite(id, raw, now)))
    ensures Written(w.client, id, raw, now).1.Ok? <==> !w.client.closed
  {
    var w' := Step(w, OpWrite(id, raw, now));
    if w.client.closed {
      assert w' == w;
    } else {
      assert At(w, id) && SentAsWritten(w, Transmit(id, raw));
      forall x
        ensures At(w', x)
      {
        assert At(w, x);
        WriteAt(w, id, raw, now, x);
      }
      WriteAt(w, id, raw, now, id);
      forall t
        ensures SentAsWritten(w', t)
      {
        assert SentAsWritten(w, t);
      }
    }
  }

  /** Replacing live entries by queued failures, one each, as `collect` and `close` do. */
  lemma QueueingKeeps(w: World, agent: AgentState, order: seq<TransactionId>, e: Error, closed: bool)
    requires Inv(w) && !w.client.closed
    requires Distinct(order)
    requires forall id :: id in order ==> id in w.client.agent.transactions
    requires agent.events == w.client.agent.events + Failures(order, e)
    requires agent.transactions == w.client.agent.transactions - (set id | id in order)
    requires agent.closed == closed && (closed ==> agent.transactions == map[])
    ensures Inv(w.(client := w.client.(agent := agent, closed := closed)))
  {
    var w' := w.(client := w.client.(agent := agent, closed := closed));
    forall id
      ensures At(w', id)
    {
      assert At(w, id);
      CountAppend(w.client.agent.events, Failures(order, e), id, Any);
      CountAppend(w.client.agent.events, Failures(order, e), id, Failure);
      FailuresCount(order, e, id, Any);
      FailuresCount(order, e, id, Failure);
    }
    forall t
      ensures SentAsWritten(w', t)
    {
      assert SentAsWritten(w, t);
    }
  }

  lemma ReadKeeps(w: World, m: Message)
    requires Inv(w)
    ensures Inv(Step(w, OpRead(Some(m))))
  {
    var w' := Step(w, OpRead(Some(m)));
    forall id
      ensures At(w', id)
    {
      assert At(w, id);
      if !w.client.closed {
        CountSnoc(w.client.agent.events, Event(m.transactionId, Response(m)), id, Any);
        CountSnoc(w.client.agent.events, Event(m.transactionId, Response(m)), id, Failure);
      }
    }
    forall t
      ensures SentAsWritten(w', t)
    {
      assert SentAsWritten(w, t);
    }
  }

  lemma PollTransmitKeeps(w: World)
    requires Inv(w)
    ensures Inv(Step(w, OpPollTransmit))
  {
    var w' := Step(w, OpPollTransmit);
    forall id
      ensures At(w', id)
    {
      assert At(w, id);
    }
    forall t
      ensures SentAsWritten(w', t)
    {
      assert SentAsWritten(w, t);
    }
  }

  lemma StepKeeps(w: World, op: Op)
    requires Inv(w) && Allowed(w, op)
    ensures Inv(Step(w, op))
  {
    match op
    case OpWrite(id, raw, now) => WriteKeeps(w, id, raw, now);
    case OpRead(decoded) =>
      if decoded.Some? {
        ReadKeeps(w, decoded.value);
      }
    case OpTimeout(_, order) =>
      if !w.client.closed {
        QueueingKeeps(w, Collected(w.client.agent, order).0, order, TransactionTimeOut, false);
      }
    case OpClose(order) =>
      if !w.client.closed {
        QueueingKeeps(w, Closed(w.client.agent, order).0, order, Error.AgentClosed, true);
      }
    case OpPoll(clock) => PollKeeps(w, clock);
    case OpPollTransmit => PollTransmitKeeps(w);
  }

  lemma {:induction false} RunKeeps(w: World, ops: seq<Op>)
    requires Inv(w) && AllowedRun(w, ops)
    ensures Inv(Run(w, ops))
    decreases |ops|
  {
    if ops != [] {
      StepKeeps(w, ops[0]);
      RunKeeps(Step(w, ops[0]), ops[1..]);
    }
  }

  lemma NewWorldInv(maxAttempts: nat, rto: Time)
    ensures Inv(NewWorld(maxAttempts, rto))
  {
    forall id
      ensures At(NewWorld(maxAttempts, rto), id)
    {
    }
  }

  // ---------------------------------------------------------------- what every run guarantees

  /**
   In every run every written transaction either is still outstanding and no event was returned
   for it, or was ended by exactly one event; an id never written gets no event.
   */
  lemma ExactlyOnce(maxAttempts: nat, rto: Time, ops: seq<Op>, id: TransactionId)
    requires AllowedRun(NewWorld(maxAttempts, rto), ops)
    ensures var w := Run(NewWorld(maxAttempts, rto), ops);
            Count(w.delivered, id, Any) ==
            if id in w.written && id !in w.client.transactions then 1 else 0
  {
    NewWorldInv(maxAttempts, rto);
    RunKeeps(NewWorld(maxAttempts, rto), ops);
    assert At(Run(NewWorld(maxAttempts, rto), ops), id);
  }

  /** Outstanding transactions are covered, and failures plus the live entry never exceed one per id. */
  lemma Coverage(maxAttempts: nat, rto: Time, ops: seq<Op>, id: TransactionId)
    requires AllowedRun(NewWorld(maxAttempts, rto), ops)
    ensures var c := Run(NewWorld(maxAttempts, rto), ops).client;
            && (id in c.transactions ==> id in c.agent.transactions || Count(c.agent.events, id, Any) > 0)
            && Count(c.agent.events, id, Failure) + Live(c.agent, id) <= 1
  {
    NewWorldInv(maxAttempts, rto);
    RunKeeps(NewWorld(maxAttempts, rto), ops);
    assert At(Run(NewWorld(maxAttempts, rto), ops), id);
  }

  /**
   Every datagram ever queued is the exact message written under its id, at most
   1 + maxAttempts times per transaction.
   */
  lemma BoundedRetransmission(maxAttempts: nat, rto: Time, ops: seq<Op>, t: Transmit)
    requires AllowedRun(NewWorld(maxAttempts, rto), ops)
    ensures var w := Run(NewWorld(maxAttempts, rto), ops);
            && (t in w.sent ==> t.id in w.written && t.message == w.written[t.id])
            && w.sent[t] <= 1 + maxAttempts
  {
    NewWorldInv(maxAttempts, rto);
    RunKeeps(NewWorld(maxAttempts, rto), ops);
    MaxAttemptsFixed(NewWorld(maxAttempts, rto), ops);
    var w := Run(NewWorld(maxAttempts, rto), ops);
    assert SentAsWritten(w, t) && At(w, t.id);
  }

  /** While the client is open, a timeout is reported only after all 1 + maxAttempts transmissions. */
  lemma TimeoutOnlyAfterAllAttempts(maxAttempts: nat, rto: Time, ops: seq<Op>, id: TransactionId)
    requires AllowedRun(NewWorld(maxAttempts, rto), ops)
    requires var w := Run(NewWorld(maxAttempts, rto), ops);
             Count(w.delivered, id, Timeout) > 0 && !w.client.closed
    ensures var w := Run(NewWorld(maxAttempts, rto), ops);
            id in w.written && Copies(w, id) == 1 + maxAttempts
  {
    NewWorldInv(maxAttempts, rto);
    RunKeeps(NewWorld(maxAttempts, rto), ops);
    MaxAttemptsFixed(NewWorld(maxAttempts, rto), ops);
    assert At(Run(NewWorld(maxAttempts, rto), ops), id);
  }

  lemma {:induction false} PollFixed(c: ClientState, clock: nat -> Time)
    ensures Poll(c, clock).client.maxAttempts == c.maxAttempts
    ensures Poll(c, clock).client.closed == c.closed
    decreases |c.agent.events|
  {
    if c.agent.events != [] {
      var turn := PollTurn(c, clock(|c.agent.events|));
      if turn.event == None {
        PollFixed(turn.client, clock);
      }
    }
  }

  lemma {:induction false} MaxAttemptsFixed(w: World, ops: seq<Op>)
    ensures Run(w, ops).client.maxAttempts == w.client.maxAttempts
    decreases |ops|
  {
    if ops != [] {
      if ops[0].OpPoll? {
        PollFixed(w.client, ops[0].clock);
      }
      MaxAttemptsFixed(Step(w, ops[0]), ops[1..]);
    }
  }

  // ---------------------------------------------------------------- shutdown

  /** Calling `poll_event` until it returns nothing. */
  ghost function Drain(w: World, clock: nat -> Time): World
    decreases |w.client.agent.events|
  {
    var r := Poll(w.client, clock);
    var w' := AfterPoll(w, r);
    if r.event == None then w' else Drain(w', clock)
  }

  lemma {:induction false} DrainKeeps(w: World, clock: nat -> Time)
    requires Inv(w)
    ensures var d := Drain(w, clock);
            && Inv(d) && d.client.agent.events == [] && d.client.closed == w.client.closed
            && d.written == w.written && w.delivered <= d.delivered
    decreases |w.client.agent.events|
  {
    PollKeeps(w, clock);
    PollFixed(w.client, clock);
    var r := Poll(w.client, clock);
    if r.event.Some? {
      DrainKeeps(AfterPoll(w, r), clock);
    }
  }

  lemma HoldsAt(w: World, id: TransactionId)
    requires Inv(w)
    ensures At(w, id) && ClosedTogether(w.client)
  {
  }

  /** A transaction has been reported once if it was written and is not outstanding, and else not at all. */
  lemma Reported(w: World, id: TransactionId)
    requires At(w, id)
    ensures id in w.client.transactions ==> id in w.written
    ensures Count(w.delivered, id, Any) == if id in w.written && id !in w.client.transactions then 1 else 0
  {
    hide Count, Linked;
  }

  lemma NothingLeft(w: World, id: TransactionId)
    requires At(w, id) && ClosedTogether(w.client) && w.client.closed && w.client.agent.events == []
    ensures id !in w.client.transactions
  {
    hide Accounted, Unknown;
  }

  lemma CloseReportsNothing(w: World, order: seq<TransactionId>)
    requires ClosedTogether(w.client) && Allowed(w, OpClose(order))
    ensures var w1 := Step(w, OpClose(order));
            w1.client.closed && w1.written == w.written && w1.delivered == w.delivered
  {
  }

  lemma CloseThenDrainFrom(w: World, order: seq<TransactionId>, clock: nat -> Time, id: TransactionId)
    requires Inv(w) && Allowed(w, OpClose(order))
    ensures var d := Drain(Step(w, OpClose(order)), clock);
            && id !in d.client.transactions
            && w.delivered <= d.delivered
            && Count(d.delivered[|w.delivered|..], id, Any) == if id in w.client.transactions then 1 else 0
  {
    hide Inv, Drain, Step, Count, At, ClosedTogether;
    HoldsAt(w, id);
    StepKeeps(w, OpClose(order));
    CloseReportsNothing(w, order);
    var w1 := Step(w, OpClose(order));
    DrainKeeps(w1, clock);
    var d := Drain(w1, clock);
    HoldsAt(d, id);
    Reported(w, id);
    Reported(d, id);
    NothingLeft(d, id);
    var returned := d.delivered[|w.delivered|..];
    assert d.delivered == w.delivered + returned;
    CountAppend(w.delivered, returned, id, Any);
  }

  /**
   After `handle_close`, at the end of any run, draining empties the client map and returns
   exactly one event for each transaction that was outstanding and none for any other id.
   */
  lemma CloseThenDrain(maxAttempts: nat, rto: Time, ops: seq<Op>, order: seq<TransactionId>,
                       clock: nat -> Time, id: TransactionId)
    requires AllowedRun(NewWorld(maxAttempts, rto), ops)
    requires Enumerates(order, Run(NewWorld(maxAttempts, rto), ops).client.agent.transactions.Keys)
    ensures var w := Run(NewWorld(maxAttempts, rto), ops);
            var d := Drain(Step(w, OpClose(order)), clock);
            && id !in d.client.transactions
            && w.delivered <= d.delivered
            && Count(d.delivered[|w.delivered|..], id, Any) == if id in w.client.transactions then 1 else 0
  {
    NewWorldInv(maxAttempts, rto);
    RunKeeps(NewWorld(maxAttempts, rto), ops);
    CloseThenDrainFrom(Run(NewWorld(maxAttempts, rto), ops), order, clock, id);
  }
}
