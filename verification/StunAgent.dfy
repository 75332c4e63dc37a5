/**
 The STUN transaction agent (rtc-stun/src/agent.rs): a map of live transactions with their
 deadlines, a closed flag and a queue of events.  A hash map is iterated in an unspecified order,
 so `Collect` and `Close` report the order in which they queued their events.
 */
module StunAgent {
  import opened Bytes

  datatype TransactionId = TransactionId(bytes: Bytes)
  type Time = int

  datatype Error =
    | AgentClosed
    | ClientClosed
    | TransactionExists
    | TransactionNotExists
    | TransactionStopped
    | TransactionTimeOut
    | DecodeFailed

  datatype Status = Ok | Err(error: Error)

  datatype Message = Message(transactionId: TransactionId, raw: Bytes)

  datatype Outcome = Response(message: Message) | Failed(error: Error)

  datatype Event = Event(id: TransactionId, result: Outcome)

  datatype AgentState = AgentState(transactions: map<TransactionId, Time>, closed: bool, events: seq<Event>)

  const NEW_AGENT := AgentState(map[], false, [])

  /** One failure event per id, in order. */
  function Failures(order: seq<TransactionId>, e: Error): (r: seq<Event>)
    ensures |r| == |order|
    ensures forall i :: 0 <= i < |r| ==> r[i] == Event(order[i], Failed(e))
  {
    if order == [] then [] else [Event(order[0], Failed(e))] + Failures(order[1..], e)
  }

  ghost predicate Distinct<T>(s: seq<T>) {
    forall i, j :: 0 <= i < j < |s| ==> s[i] != s[j]
  }

  /** `order` lists every element of `ids` once. */
  ghost predicate Enumerates(order: seq<TransactionId>, ids: set<TransactionId>) {
    && Distinct(order)
    && (forall id :: id in order <==> id in ids)
  }

  /** Transactions whose deadline lies before `deadline`. */
  ghost function Due(a: AgentState, deadline: Time): set<TransactionId> {
    set id | id in a.transactions && a.transactions[id] < deadline
  }

  ghost function Started(a: AgentState, id: TransactionId, deadline: Time): (AgentState, Status) {
    if a.closed then (a, Err(AgentClosed))
    else if id in a.transactions then (a, Err(TransactionExists))
    else (a.(transactions := a.transactions[id := deadline]), Ok)
  }

  ghost function Stopped(a: AgentState, id: TransactionId): (AgentState, Status) {
    if a.closed then (a, Err(AgentClosed))
    else if id !in a.transactions then (a, Err(TransactionNotExists))
    else (AgentState(a.transactions - {id}, false, a.events + [Event(id, Failed(TransactionStopped))]), Ok)
  }

  ghost function Processed(a: AgentState, m: Message): (AgentState, Status) {
    if a.closed then (a, Err(AgentClosed))
    else
      (AgentState(a.transactions - {m.transactionId}, false,
                  a.events + [Event(m.transactionId, Response(m))]), Ok)
  }

  ghost function Collected(a: AgentState, order: seq<TransactionId>): (AgentState, Status) {
    if a.closed then (a, Err(AgentClosed))
    else
      (AgentState(a.transactions - (set id | id in order), false,
                  a.events + Failures(order, TransactionTimeOut)), Ok)
  }

  ghost function Closed(a: AgentState, order: seq<TransactionId>): (AgentState, Status) {
    if a.closed then (a, Err(AgentClosed))
    else (AgentState(map[], true, a.events + Failures(order, Error.AgentClosed)), Ok)
  }

  class Agent {
    var transactions: map<TransactionId, Time>
    var closed: bool
    var events: seq<Event>

    ghost function State(): AgentState
      reads this
    {
      AgentState(transactions, closed, events)
    }

    constructor ()
      ensures State() == NEW_AGENT
    {
      transactions, closed, events := map[], false, [];
    }

    method PollEvent() returns (event: Option<Event>)
      modifies this
      ensures old(events) == [] ==> event == None && State() == old(State())
      ensures old(events) != [] ==>
                event == Some(old(events)[0]) && State() == old(State()).(events := old(events)[1..])
    {
      if events == [] {
        event := None;
      } else {
        event := Some(events[0]);
        events := events[1..];
      }
    }

    method Start(id: TransactionId, deadline: Time) returns (status: Status)
      modifies this
      ensures (State(), status) == Started(old(State()), id, deadline)
    {
      if closed {
        return Err(AgentClosed);
      }
      if id in transactions {
        return Err(TransactionExists);
      }
      transactions := transactions[id := deadline];
      status := Ok;
    }

    method Stop(id: TransactionId) returns (status: Status)
      modifies this
      ensures (State(), status) == Stopped(old(State()), id)
    {
      if closed {
        return Err(AgentClosed);
      }
      if id in transactions {
        transactions := transactions - {id};
        events := events + [Event(id, Failed(TransactionStopped))];
        status := Ok;
      } else {
        status := Err(TransactionNotExists);
      }
    }

    method Process(m: Message) returns (status: Status)
      modifies this
      ensures (State(), status) == Processed(old(State()), m)
    {
      if closed {
        return Err(AgentClosed);
      }
      transactions := transactions - {m.transactionId};
      events := events + [Event(m.transactionId, Response(m))];
      status := Ok;
    }

    /** The ids `Collect` removes, in the order the hash map yields them. */
    method DueIds(deadline: Time) returns (toRemove: seq<TransactionId>)
      ensures Enumerates(toRemove, Due(State(), deadline))
    {
      toRemove := [];
      var left := transactions.Keys;
      while left != {}
        invariant left <= transactions.Keys
        invariant Distinct(toRemove)
        invariant forall id :: id in toRemove <==> id in transactions.Keys - left && transactions[id] < deadline
        decreases left
      {
        var id :| id in left;
        if transactions[id] < deadline {
          DistinctSnoc(toRemove, id);
          toRemove := toRemove + [id];
        }
        left := left - {id};
      }
    }

    /** Ends every transaction whose deadline has passed and queues a timeout for each. */
    method Collect(deadline: Time) returns (status: Status, ghost order: seq<TransactionId>)
      modifies this
      ensures (State(), status) == Collected(old(State()), order)
      ensures !old(closed) ==> Enumerates(order, Due(old(State()), deadline))
    {
      order := [];
      if closed {
        return Err(AgentClosed), [];
      }
      var toRemove := DueIds(deadline);
      order := toRemove;
      Unregister(toRemove);
      QueueTimeouts(toRemove);
      status := Ok;
    }

    /** Second loop of `Collect`: un-registers the timed-out transactions. */
    method Unregister(toRemove: seq<TransactionId>)
      modifies this`transactions
      ensures transactions == old(transactions) - (set id | id in toRemove)
    {
      var i := 0;
      while i < |toRemove|
        invariant 0 <= i <= |toRemove|
        invariant transactions == old(transactions) - (set id | id in toRemove[..i])
      {
        assert toRemove[..i + 1] == toRemove[..i] + [toRemove[i]];
        transactions := transactions - {toRemove[i]};
        i := i + 1;
      }
      assert toRemove[..i] == toRemove;
    }

    /** Last loop of `Collect`: one timeout event per un-registered transaction. */
    method QueueTimeouts(toRemove: seq<TransactionId>)
      modifies this`events
      ensures events == old(events) + Failures(toRemove, TransactionTimeOut)
    {
      var i := 0;
      while i < |toRemove|
        invariant 0 <= i <= |toRemove|
        invariant events == old(events) + Failures(toRemove, TransactionTimeOut)[..i]
      {
        events := events + [Event(toRemove[i], Failed(TransactionTimeOut))];
        i := i + 1;
      }
    }

    /** Ends every transaction and refuses all later calls. */
    method Close() returns (status: Status, ghost order: seq<TransactionId>)
      modifies this
      ensures (State(), status) == Closed(old(State()), order)
      ensures !old(closed) ==> Enumerates(order, old(transactions).Keys)
    {
      order := [];
      if closed {
        return Err(AgentClosed), [];
      }
      var left := transactions.Keys;
      while left != {}
        invariant left <= transactions.Keys == old(transactions).Keys
        invariant !closed
        invariant Distinct(order)
        invariant forall id :: id in order <==> id in transactions.Keys - left
        invariant events == old(events) + Failures(order, Error.AgentClosed)
        decreases left
      {
        var id :| id in left;
        events := events + [Event(id, Failed(Error.AgentClosed))];
        FailuresSnoc(order, id, Error.AgentClosed);
        DistinctSnoc(order, id);
        order := order + [id];
        left := left - {id};
      }
      transactions := map[];
      closed := true;
      status := Ok;
    }

    /** The earliest deadline among the live transactions. */
    method PollTimeout() returns (deadline: Option<Time>)
      ensures deadline == None <==> transactions == map[]
      ensures deadline.Some? ==> deadline.value in transactions.Values
      ensures deadline.Some? ==> forall id :: id in transactions ==> deadline.value <= transactions[id]
    {
      deadline := None;
      var left := transactions.Keys;
      while left != {}
        invariant left <= transactions.Keys
        invariant deadline == None <==> transactions.Keys == left
        invariant deadline.Some? ==> deadline.value in transactions.Values
        invariant deadline.Some? ==> forall id :: id in transactions.Keys - left ==> deadline.value <= transactions[id]
        decreases left
      {
        var id :| id in left;
        if deadline == None || transactions[id] < deadline.value {
          deadline := Some(transactions[id]);
        }
        left := left - {id};
      }
    }
  }

  lemma DistinctSnoc<T>(s: seq<T>, x: T)
    requires Distinct(s) && x !in s
    ensures Distinct(s + [x])
  {
  }

  lemma FailuresSnoc(order: seq<TransactionId>, id: TransactionId, e: Error)
    ensures Failures(order + [id], e) == Failures(order, e) + [Event(id, Failed(e))]
  {
  }
}
