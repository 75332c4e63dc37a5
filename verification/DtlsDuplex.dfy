/**
 Client and server in one run: both send and receive, each through one handshake cache that its
 sending and its receiving half share (rtc-dtls/src/conn/mod.rs:243-300, 441-650).
 */
module DtlsDuplex {
  import opened Bytes
  import opened DtlsRecord
  import opened DtlsFragment
  import opened DtlsReceiver
  import opened DtlsDelivery
  import opened DtlsSender
  import opened DtlsEndToEnd
  import Cache = DtlsCache

  /** A connection; both halves hold the same cache. */
  datatype End = End(sender: Sender, receiver: Receiver)

  datatype Event =
    | Write(pkts: seq<Packet>)
    | Send(link: Link)
    | Arrive(datagram: Bytes, replayOk: nat -> bool)
    | Retry(rereadOk: nat -> bool)
    | KeysReady

  /** The sessions of the two directions: what the client and what the server sends. */
  datatype Duplex = Duplex(up: Session, down: Session)

  datatype World = World(client: End, server: End)

  datatype Step = Step(atClient: bool, event: Event)

  ghost predicate WfDuplex(d: Duplex) {
    && WfSession(d.up) && Protected(d.up) && d.up.fromClient
    && WfSession(d.down) && Protected(d.down) && !d.down.fromClient
  }

  function NetOpOf(ev: Event): NetOp
    requires !ev.Write? && !ev.Send?
  {
    match ev
    case Arrive(d, f) => Deliver(d, f)
    case Retry(f) => RereadQueue(f)
    case KeysReady => CipherInitialised
  }

  ghost function StepEnd(x: End, inbound: Session, ev: Event): End
    requires ev.Send? ==> WfQueue(x.sender, ev.link.mtu)
  {
    match ev
    case Write(pkts) => x.(sender := x.sender.(outgoing := x.sender.outgoing + pkts))
    case Send(link) =>
      var s := Flushed(x.sender, link).0;
      End(s, x.receiver.(cache := s.cache))
    case _ =>
      var r := Receive(inbound, x.receiver, NetOpOf(ev));
      End(x.sender.(cache := r.cache), r)
  }

  /** What can happen at `x`, whose peer is `y`: only what `y` has sent arrives. */
  ghost predicate Allowed(out: Session, x: End, y: End, ev: Event)
    requires WfSession(out)
  {
    match ev
    case Write(pkts) => QueueOf(out, pkts)
    case Send(link) => LinkOf(out, link) && WfQueue(x.sender, link.mtu)
    case Arrive(datagram, _) => datagram in y.sender.compacted
    case _ => true
  }

  ghost predicate CanStep(d: Duplex, w: World, st: Step)
    requires WfDuplex(d)
  {
    if st.atClient then Allowed(d.up, w.client, w.server, st.event)
    else Allowed(d.down, w.server, w.client, st.event)
  }

  ghost function StepWorld(d: Duplex, w: World, st: Step): World
    requires WfDuplex(d) && CanStep(d, w, st)
  {
    if st.atClient then w.(client := StepEnd(w.client, d.down, st.event))
    else w.(server := StepEnd(w.server, d.up, st.event))
  }

  ghost predicate CanRunAll(d: Duplex, w: World, steps: seq<Step>)
    requires WfDuplex(d)
    decreases |steps|
  {
    steps == [] || (CanStep(d, w, steps[0]) && CanRunAll(d, StepWorld(d, w, steps[0]), steps[1..]))
  }

  ghost function RunAll(d: Duplex, w: World, steps: seq<Step>): World
    requires WfDuplex(d) && CanRunAll(d, w, steps)
    decreases |steps|
  {
    if steps == [] then w else RunAll(d, StepWorld(d, w, steps[0]), steps[1..])
  }

  function Start(): World {
    World(End(IDLE, NewReceiver(true)), End(IDLE.(isClient := false), NewReceiver(false)))
  }

  // ---------------------------------------------------------------- how caches grow

  /** `b` is `a` followed by new messages of one side. */
  ghost predicate Extends(a: seq<Cache.Item>, b: seq<Cache.Item>, isClient: bool) {
    && a <= b
    && (forall j :: |a| <= j < |b| ==> b[j].isClient == isClient)
    && (Cache.Unique(a) ==> Cache.Unique(b))
  }

  lemma PushExtends(a: seq<Cache.Item>, x: Cache.Item)
    ensures Extends(a, Cache.Pushed(a, x), x.isClient)
  {
  }

  lemma ExtendsTrans(a: seq<Cache.Item>, b: seq<Cache.Item>, c: seq<Cache.Item>, isClient: bool)
    requires Extends(a, b, isClient) && Extends(b, c, isClient)
    ensures Extends(a, c, isClient)
  {
    hide Cache.Unique;
    forall j | |a| <= j < |c|
      ensures c[j].isClient == isClient
    {
      if j < |b| {
        assert c[j] == b[j];
      }
    }
  }

  lemma {:induction false} DrainExtends(s: Sender, link: Link)
    requires WfQueue(s, link.mtu)
    ensures DrainQueue(s, link).sender.isClient == s.isClient
    ensures Extends(s.cache, DrainQueue(s, link).sender.cache, s.isClient)
    decreases |s.outgoing|
  {
    hide Extends, NumberPacket;
    ExtendsSelf(s.cache, s.isClient);
    if s.outgoing != [] {
      var first := SendFirst(s, link);
      CachedExtends(s.cache, s.outgoing[0], s.isClient, link.mtu);
      if first.sent.Some? {
        DrainExtends(first.sender, link);
        ExtendsTrans(s.cache, first.sender.cache, DrainQueue(first.sender, link).sender.cache, s.isClient);
      }
    }
  }

  lemma ExtendsSelf(a: seq<Cache.Item>, isClient: bool)
    ensures Extends(a, a, isClient)
  {
  }

  lemma CachedExtends(cache: seq<Cache.Item>, p: Packet, isClient: bool, mtu: nat)
    requires WfPacket(p, mtu)
    ensures Extends(cache, Cached(cache, p, isClient), isClient)
  {
    hide Extends, FullBytes;
    match p
    case OtherPacket(_, _, _, _) => ExtendsSelf(cache, isClient);
    case HandshakePacket(m, epoch, _) =>
      PushExtends(cache, Cache.Item(m.typ, isClient, epoch, m.sequence, FullBytes(m)));
  }

  /** The receiver keeps its role and caches under the peer's name only. */
  ghost predicate Hears(r: Receiver, after: Receiver) {
    after.isClient == r.isClient && Extends(r.cache, after.cache, !r.isClient)
  }

  lemma HearsTrans(a: Receiver, b: Receiver, c: Receiver)
    requires Hears(a, b) && Hears(b, c)
    ensures Hears(a, c)
  {
    ExtendsTrans(a.cache, b.cache, c.cache, !a.isClient);
  }

  lemma TakenHears(r: Receiver, out: Bytes, epoch: U16, k: Keys)
    ensures Hears(r, DtlsReceiver.Taken(r, out, epoch, k))
  {
    hide Extends, Popped, Cache.Pushed;
    ExtendsSelf(r.cache, !r.isClient);
    var h := DecodeHandshakeHeader(out);
    if h.Ok? {
      PushExtends(r.cache, Cache.Item(h.value.typ, !r.isClient, epoch, h.value.messageSequence, out));
    }
  }

  lemma {:induction false} TakeAllHears(r: Receiver, k: Keys)
    ensures Hears(r, TakeAll(r, k))
    decreases |r.buffer.cache|
  {
    match PopResult(r.buffer)
    case Err(_) => ExtendsSelf(r.cache, !r.isClient);
    case Ok((out, epoch)) =>
      var next := DtlsReceiver.Taken(r, out, epoch, k);
      TakenHears(r, out, epoch, k);
      TakeAllHears(next, k);
      HearsTrans(r, next, TakeAll(next, k));
  }

  lemma PlainHears(r: Receiver, h: RecordHeader, pkt: Bytes, enqueue: bool, k: Keys)
    ensures Hears(r, HandlePlain(r, h, pkt, enqueue, k).receiver)
  {
    hide Extends, TakeAll, Pushed;
    ExtendsSelf(r.cache, !r.isClient);
    TakeAllHears(r.(buffer := Pushed(r.buffer, pkt).0), k);
  }

  lemma RecordHears(r: Receiver, pkt: Bytes, enqueue: bool, fresh_: bool, k: Keys)
    ensures Hears(r, HandleRecord(r, pkt, enqueue, fresh_, k).receiver)
  {
    hide Extends, HandlePlain, DecodeRecordHeader;
    ExtendsSelf(r.cache, !r.isClient);
    var h := DecodeRecordHeader(pkt);
    if h.Ok? {
      PlainHears(r, h.value, pkt, enqueue, k);
      if k.open(pkt).Some? {
        PlainHears(r, h.value, k.open(pkt).value, enqueue, k);
      }
    }
  }

  lemma {:induction false} AllHear(r: Receiver, pkts: seq<Bytes>, enqueue: bool, fresh_: nat -> bool, k: Keys)
    ensures Hears(r, HandleAll(r, pkts, enqueue, fresh_, k))
    decreases |pkts|
  {
    hide Extends, HandleRecord;
    ExtendsSelf(r.cache, !r.isClient);
    if pkts != [] {
      var next := HandleRecord(r, pkts[0], enqueue, fresh_(|pkts|), k).receiver;
      RecordHears(r, pkts[0], enqueue, fresh_(|pkts|), k);
      AllHear(next, pkts[1..], enqueue, fresh_, k);
      HearsTrans(r, next, HandleAll(next, pkts[1..], enqueue, fresh_, k));
    }
  }

  lemma {:induction false} RereadHears(r: Receiver, fresh_: nat -> bool, k: Keys)
    ensures Hears(r, Reread(r, fresh_, k))
    decreases |r.queued|
  {
    hide Extends, HandleRecord;
    ExtendsSelf(r.cache, !r.isClient);
    if r.queued != [] {
      var rest := r.(queued := r.queued[1..]);
      var next := HandleRecord(rest, r.queued[0], false, fresh_(|r.queued|), k).receiver;
      RecordHears(rest, r.queued[0], false, fresh_(|r.queued|), k);
      RereadKeepsQueue(rest, r.queued[0], fresh_(|r.queued|), k);
      RereadHears(next, fresh_, k);
      HearsTrans(r, next, Reread(next, fresh_, k));
    }
  }

  lemma ReceiveHears(s: Session, r: Receiver, op: NetOp)
    requires !op.CacheOwn?
    ensures Hears(r, Receive(s, r, op))
  {
    hide Extends, HandleAll, Reread, Unpack;
    ExtendsSelf(r.cache, !r.isClient);
    match op
    case Deliver(d, f) =>
      if Unpack(d).Ok? {
        AllHear(r, Unpack(d).value, true, f, s.keys);
      }
    case RereadQueue(f) => RereadHears(r, f, s.keys);
    case CipherInitialised =>
  }

  // ---------------------------------------------------------------- invariants of both directions

  ghost predicate Paired(x: End) {
    && x.sender.isClient == x.receiver.isClient
    && x.sender.cache == x.receiver.cache && Cache.Unique(x.sender.cache)
  }

  /** From `x` to `y`: what `x` has queued and sent belongs to the session, and `y` has taken no more. */
  ghost predicate Flows(s: Session, x: End, y: End)
    requires WfSession(s)
  {
    SenderInv(s, SendWorld(x.sender, [])) && Inv(With(s, x.sender), y.receiver)
  }

  ghost predicate Good(d: Duplex, w: World)
    requires WfDuplex(d)
  {
    Paired(w.client) && Paired(w.server) && Flows(d.up, w.client, w.server) && Flows(d.down, w.server, w.client)
  }

  /** New messages of the other side leave a session's copies as they were. */
  lemma CopiesKept(s: Session, a: seq<Cache.Item>, b: seq<Cache.Item>, n: nat)
    requires WfSession(s) && n <= |s.msgs| && Extends(a, b, !s.fromClient)
    requires CachedCopies(s, a, n) && TakenAreCached(s, a, n)
    ensures CachedCopies(s, b, n) && TakenAreCached(s, b, n)
  {
    hide SenderItem;
    assert forall j :: 0 <= j < |a| ==> a[j] == b[j];
  }

  lemma OwnKept(s: Session, a: seq<Cache.Item>, b: seq<Cache.Item>)
    requires WfSession(s) && Extends(a, b, !s.fromClient) && OwnCopies(s, a)
    ensures OwnCopies(s, b) && Released(a, s.fromClient) == Released(b, s.fromClient)
  {
    hide SenderItem;
    assert forall j :: 0 <= j < |a| ==> a[j] == b[j];
  }

  lemma InvMono(s: Session, more: set<nat>, r: Receiver)
    requires WfSession(s) && s.released <= more && Inv(s, r)
    ensures Inv(s.(released := more), r)
  {
    var t := s.(released := more);
    assert forall i :: 0 <= i < |s.msgs| ==> SenderItem(t, i) == SenderItem(s, i);
    BufferMono(s, more, r.buffer);
    QueueMono(s, more, r.queued);
    hide SenderItem, GenuineBuffer, QueuedFromWire;
  }

  lemma BufferMono(s: Session, more: set<nat>, b: BufferState)
    requires WfSession(s) && s.released <= more && GenuineBuffer(s, b)
    ensures GenuineBuffer(s.(released := more), b)
  {
    forall q, i | q in b.cache && 0 <= i < |b.cache[q]|
      ensures Genuine(s.(released := more), q, b.cache[q][i])
    {
      assert AllGenuine(s, q, b.cache[q]);
      assert Genuine(s, q, b.cache[q][i]);
    }
  }

  lemma QueueMono(s: Session, more: set<nat>, ws: seq<Bytes>)
    requires WfSession(s) && s.released <= more && QueuedFromWire(s, ws)
    ensures QueuedFromWire(s.(released := more), ws)
  {
    var t := s.(released := more);
    forall j | 0 <= j < |ws|
      ensures IsWire(t, ws[j])
    {
      assert IsWire(s, ws[j]);
      var x :| Legit(s, x) && ws[j] == OnWire(s, x);
      LegitMono(s, more, x);
      assert Legit(t, x) && ws[j] == OnWire(t, x);
    }
  }

  lemma WriteKeeps(out: Session, inb: Session, x: End, y: End, pkts: seq<Packet>)
    requires WfSession(out) && WfSession(inb) && Paired(x) && Flows(out, x, y) && Flows(inb, y, x)
    requires QueueOf(out, pkts)
    ensures var x' := StepEnd(x, inb, Write(pkts)); Paired(x') && Flows(out, x', y) && Flows(inb, y, x')
  {
    hide Inv, PacketOf, OwnCopies, AllEmitted;
    var x' := StepEnd(x, inb, Write(pkts));
    assert With(out, x'.sender) == With(out, x.sender);
  }

  lemma SendKeeps(out: Session, inb: Session, x: End, y: End, link: Link)
    requires WfSession(out) && Protected(out) && WfSession(inb) && out.fromClient != inb.fromClient
    requires Paired(x) && Flows(out, x, y) && Flows(inb, y, x)
    requires LinkOf(out, link) && WfQueue(x.sender, link.mtu)
    ensures var x' := StepEnd(x, inb, Send(link)); Paired(x') && Flows(out, x', y) && Flows(inb, y, x')
  {
    hide DrainQueue, Groups, OwnCopies, Released, AllEmitted, LinkOf, Protected, CachedCopies, TakenAreCached,
      GenuineBuffer, QueuedFromWire, Cache.Unique;
    var x' := StepEnd(x, inb, Send(link));
    FlushKeeps(out, SendWorld(x.sender, []), link);
    DrainLegit(out, x.sender, link);
    DrainExtends(x.sender, link);
    InvMono(With(out, x.sender), Released(x'.sender.cache, out.fromClient), y.receiver);
    CopiesKept(With(inb, y.sender), x.receiver.cache, x'.receiver.cache, |x.receiver.popped|);
  }

  lemma ReceiveKeepsBoth(out: Session, inb: Session, x: End, y: End, ev: Event)
    requires WfSession(out) && WfSession(inb) && Protected(inb) && out.fromClient != inb.fromClient
    requires Paired(x) && Flows(out, x, y) && Flows(inb, y, x)
    requires !ev.Write? && !ev.Send? && Allowed(out, x, y, ev)
    ensures var x' := StepEnd(x, inb, ev); Paired(x') && Flows(out, x', y) && Flows(inb, y, x')
  {
    hide Receive, OwnCopies, Released, CachedCopies, TakenAreCached, GenuineBuffer, QueuedFromWire, InOrderPrefix,
      Cache.Unique, Emitted, GoodCipher;
    var x' := StepEnd(x, inb, ev);
    var t := With(inb, y.sender);
    SameReceive(inb, t, x.receiver, NetOpOf(ev));
    ReceiveKeeps(t, x.receiver, NetOpOf(ev));
    ReceiveHears(inb, x.receiver, NetOpOf(ev));
    OwnKept(out, x.sender.cache, x'.sender.cache);
  }

  lemma SameReceive(s: Session, t: Session, r: Receiver, op: NetOp)
    requires s.keys == t.keys
    ensures Receive(s, r, op) == Receive(t, r, op)
  {
  }

  lemma EndKeeps(out: Session, inb: Session, x: End, y: End, ev: Event)
    requires WfSession(out) && Protected(out) && WfSession(inb) && Protected(inb) && out.fromClient != inb.fromClient
    requires Paired(x) && Flows(out, x, y) && Flows(inb, y, x) && Allowed(out, x, y, ev)
    ensures var x' := StepEnd(x, inb, ev); Paired(x') && Flows(out, x', y) && Flows(inb, y, x')
  {
    hide Paired, Flows, Protected;
    match ev
    case Write(pkts) => WriteKeeps(out, inb, x, y, pkts);
    case Send(link) => SendKeeps(out, inb, x, y, link);
    case _ => ReceiveKeepsBoth(out, inb, x, y, ev);
  }

  lemma {:induction false} RunKeepsGood(d: Duplex, w: World, steps: seq<Step>)
    requires WfDuplex(d) && Good(d, w) && CanRunAll(d, w, steps)
    ensures Good(d, RunAll(d, w, steps))
    decreases |steps|
  {
    if steps != [] {
      hide Paired, Flows, Protected, Allowed, StepEnd;
      var st := steps[0];
      if st.atClient {
        EndKeeps(d.up, d.down, w.client, w.server, st.event);
      } else {
        EndKeeps(d.down, d.up, w.server, w.client, st.event);
      }
      RunKeepsGood(d, StepWorld(d, w, st), steps[1..]);
    }
  }

  lemma StartIsGood(d: Duplex)
    requires WfDuplex(d)
    ensures Good(d, Start())
  {
  }

  /** Every reachable state of the two connections is good. */
  lemma ReachableIsGood(d: Duplex, steps: seq<Step>)
    requires WfDuplex(d) && CanRunAll(d, Start(), steps)
    ensures Good(d, RunAll(d, Start(), steps))
  {
    StartIsGood(d);
    RunKeepsGood(d, Start(), steps);
  }
}
