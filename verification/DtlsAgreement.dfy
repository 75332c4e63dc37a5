/**
 Transcript agreement over whole runs of client and server: the client hashes its last flight
 before it is sent, under predicted numbers; the server hashes what it has taken from the network
 (rtc-dtls/src/flight/flight4.rs, flight5.rs and flight6.rs, rtc-dtls/src/handshaker.rs:136-149).
 */
module DtlsAgreement {
  import opened Bytes
  import opened DtlsRecord
  import opened DtlsFragment
  import opened DtlsReceiver
  import opened DtlsDelivery
  import opened DtlsSender
  import opened DtlsEndToEnd
  import opened DtlsDuplex
  import Cache = DtlsCache
  import T = DtlsTranscript
  import F = DtlsFlights

  // ---------------------------------------------------------------- what both ends hold

  ghost function Server(w: World): seq<Cache.Item> {
    w.server.receiver.cache
  }

  ghost function Client(w: World): seq<Cache.Item> {
    w.client.sender.cache
  }

  /** What `y` has cached of `x`'s messages was cached by `x`, and is the message of its number. */
  lemma HeldIsSent(s: Session, x: End, y: End, item: Cache.Item)
    requires WfSession(s) && Flows(s, x, y) && item in y.receiver.cache && item.isClient == s.fromClient
    ensures var i := item.messageSequence;
            i < |y.receiver.popped| <= |s.msgs| && item == SenderItem(s, i) && item in x.sender.cache
  {
    hide GenuineBuffer, QueuedFromWire, TakenAreCached, AllEmitted, FullBytes;
    var t := With(s, x.sender);
    var j :| 0 <= j < |y.receiver.cache| && y.receiver.cache[j] == item;
    var i := item.messageSequence as nat;
    assert item == SenderItem(t, i) && SenderItem(t, i) == SenderItem(s, i);
    assert i in t.released;
    var k :| 0 <= k < |x.sender.cache| && x.sender.cache[k].isClient == s.fromClient
      && x.sender.cache[k].messageSequence as nat == i;
    assert x.sender.cache[k] == SenderItem(s, i);
  }

  /** What `x` has cached of its own is the message of its number. */
  lemma OwnIsSent(s: Session, x: End, y: End, item: Cache.Item)
    requires WfSession(s) && Flows(s, x, y) && item in x.sender.cache && item.isClient == s.fromClient
    ensures item.messageSequence < |s.msgs| && item == SenderItem(s, item.messageSequence)
  {
    hide Inv, AllEmitted, FullBytes;
    var j :| 0 <= j < |x.sender.cache| && x.sender.cache[j] == item;
  }

  /** What `y` has taken and can parse is in its cache. */
  lemma TakenIsHeld(s: Session, x: End, y: End, i: nat)
    requires WfSession(s) && Flows(s, x, y) && i < |s.msgs| && i < |y.receiver.popped|
    requires s.keys.parses(SenderItem(s, i).data)
    ensures SenderItem(s, i) in y.receiver.cache
  {
    hide GenuineBuffer, QueuedFromWire, CachedCopies, AllEmitted, FullBytes;
    var t := With(s, x.sender);
    assert SenderItem(t, i) == SenderItem(s, i);
  }

  /** Everything `x` has cached of its own has been taken by `y` and parses there. */
  ghost predicate AllTaken(s: Session, x: End, y: End)
    requires WfSession(s)
  {
    forall i :: 0 <= i < |s.msgs| && SenderItem(s, i) in x.sender.cache ==>
      i < |y.receiver.popped| && s.keys.parses(SenderItem(s, i).data)
  }

  /**
   Once each side has taken what the other has cached, every transcript is the same at both ends, in
   particular the one the server's Finished hashes and the client checks it against.
   */
  lemma TranscriptsAgree(d: Duplex, steps: seq<Step>, rules: seq<Cache.Rule>)
    requires WfDuplex(d) && CanRunAll(d, Start(), steps)
    requires var w := RunAll(d, Start(), steps);
             AllTaken(d.up, w.client, w.server) && AllTaken(d.down, w.server, w.client)
    ensures var w := RunAll(d, Start(), steps); Cache.Transcript(Client(w), rules) == Cache.Transcript(Server(w), rules)
  {
    ReachableIsGood(d, steps);
    var w := RunAll(d, Start(), steps);
    forall x, r | r in rules && Cache.Matches(x, r)
      ensures x in Client(w) <==> x in Server(w)
    {
      SameAtBoth(d, w, x);
    }
    hide Cache.Unique, Flows;
    assert Cache.AgreeOn(Client(w), Server(w), rules);
    Cache.TranscriptDependsOnContents(Client(w), Server(w), rules);
  }

  lemma SameAtBoth(d: Duplex, w: World, x: Cache.Item)
    requires WfDuplex(d) && Good(d, w) && AllTaken(d.up, w.client, w.server) && AllTaken(d.down, w.server, w.client)
    ensures x in Client(w) <==> x in Server(w)
  {
    hide Flows, Protected, SenderItem;
    if x.isClient {
      if x in Server(w) {
        HeldIsSent(d.up, w.client, w.server, x);
      }
      if x in Client(w) {
        OwnIsSent(d.up, w.client, w.server, x);
        TakenIsHeld(d.up, w.client, w.server, x.messageSequence);
      }
    } else {
      if x in Client(w) {
        HeldIsSent(d.down, w.server, w.client, x);
      }
      if x in Server(w) {
        OwnIsSent(d.down, w.server, w.client, x);
        TakenIsHeld(d.down, w.server, w.client, x.messageSequence);
      }
    }
  }

  // ---------------------------------------------------------------- the client's last flight

  /** Bodies of the client's last flight and the number its first message gets. */
  datatype LastFlight = LastFlight(
    cert: Option<Bytes>,
    key: Bytes,
    verify: Option<Bytes>,
    finished: Bytes,
    n: nat)

  function Messages(f: LastFlight): seq<T.Pending> {
    T.Unsent(f.cert, f.key, f.verify)
  }

  /** The messages the session hash covers: all but the CertificateVerify. */
  function KeyMessages(f: LastFlight): seq<T.Pending> {
    T.Unsent(f.cert, f.key, None)
  }

  ghost predicate WfFlight(f: LastFlight) {
    T.AllWf(Messages(f)) && |f.finished| < 0x100_0000
  }

  function Closing(f: LastFlight): seq<T.FlightPacket> {
    [T.FlightCipherSpec(0), T.FlightHandshake(T.Pending(FINISHED, f.finished), 1)]
  }

  /** The packets of flight 5 as `prepare` numbers them. */
  function PreparedFlight(f: LastFlight): seq<T.Prepared> {
    T.PreparedFrom(T.InFlight(Messages(f), 0) + Closing(f), f.n, 0)
  }

  /** Only the Finished, in epoch 1, is encrypted. */
  function ToPacket(p: T.Prepared): Packet {
    match p
    case PreparedHandshake(m, epoch) => HandshakePacket(m, epoch % 0x1_0000, epoch != 0)
    case PreparedCipherSpec(epoch) => OtherPacket(ChangeCipherSpec, [1], epoch % 0x1_0000, false)
  }

  function ToPackets(ps: seq<T.Prepared>): (r: seq<Packet>)
    ensures |r| == |ps| && forall i :: 0 <= i < |r| ==> r[i] == ToPacket(ps[i])
  {
    if ps == [] then [] else [ToPacket(ps[0])] + ToPackets(ps[1..])
  }

  lemma {:induction false} PrepareSplits(ps: seq<T.Pending>, rest: seq<T.FlightPacket>, n: nat)
    ensures |T.PreparedFrom(T.InFlight(ps, 0), n, 0)| == |ps|
    ensures T.PreparedFrom(T.InFlight(ps, 0) + rest, n, 0)
         == T.PreparedFrom(T.InFlight(ps, 0), n, 0) + T.PreparedFrom(rest, n + |ps|, 0)
  {
    hide T.Numbered;
    var pkts := T.InFlight(ps, 0) + rest;
    if ps == [] {
      assert pkts == rest;
    } else {
      assert pkts[0] == T.FlightHandshake(ps[0], 0) && pkts[1..] == T.InFlight(ps[1..], 0) + rest;
      PrepareSplits(ps[1..], rest, n + 1);
      assert T.InFlight(ps, 0)[1..] == T.InFlight(ps[1..], 0);
    }
  }

  function FinishedMessage(f: LastFlight): Message {
    T.Numbered(T.Pending(FINISHED, f.finished), f.n + |Messages(f)|)
  }

  /** What the numbered flight is made of: the messages under predicted numbers, then the closing packets. */
  lemma FlightPackets(f: LastFlight)
    ensures var ps := Messages(f);
            var pkts := ToPackets(PreparedFlight(f));
            && |pkts| == |ps| + 2
            && (forall i :: 0 <= i < |ps| ==> pkts[i] == HandshakePacket(T.Numbered(ps[i], f.n + i), 0, false))
            && pkts[|ps|] == OtherPacket(ChangeCipherSpec, [1], 0, false)
            && pkts[|ps| + 1] == HandshakePacket(FinishedMessage(f), 1, true)
  {
    hide T.Numbered, Messages, T.PreparedFrom, T.InFlight, Closing, ToPackets, FinishedMessage;
    var ps := Messages(f);
    PrepareSplits(ps, Closing(f), f.n);
    ClosingPrepared(f);
    assert PreparedFlight(f)[|ps|..] == T.PreparedFrom(Closing(f), f.n + |ps|, 0);
    forall i | 0 <= i < |ps|
      ensures PreparedFlight(f)[i] == T.PreparedHandshake(T.Numbered(ps[i], f.n + i), 0)
    {
      T.PrepareAssignsPredicted(ps, Closing(f), f.n, 0, i);
    }
    hide PreparedFlight;
  }

  lemma ClosingPrepared(f: LastFlight)
    ensures T.PreparedFrom(Closing(f), f.n + |Messages(f)|, 0)
         == [T.PreparedCipherSpec(0), T.PreparedHandshake(FinishedMessage(f), 1)]
  {
    hide T.Numbered, Messages;
    var at := f.n + |Messages(f)|;
    var last := Closing(f)[1..];
    assert last == [T.FlightHandshake(T.Pending(FINISHED, f.finished), 1)] && last[1..] == [];
    assert T.PreparedFrom(last[1..], at + 1, 0) == [];
    assert T.PreparedFrom(last, at, 0) == [T.PreparedHandshake(FinishedMessage(f), 1)];
    assert T.PreparedFrom(Closing(f), at, 0) == [T.PreparedCipherSpec(0)] + T.PreparedFrom(last, at, 0);
  }

  // ---------------------------------------------------------------- caching the flight

  ghost predicate AllPackets(pkts: seq<Packet>, mtu: nat) {
    forall i :: 0 <= i < |pkts| ==> WfPacket(pkts[i], mtu)
  }

  ghost function CachedAll(cache: seq<Cache.Item>, pkts: seq<Packet>, isClient: bool, mtu: nat): seq<Cache.Item>
    requires AllPackets(pkts, mtu)
    decreases |pkts|
  {
    if pkts == [] then cache
    else
      assert WfPacket(pkts[0], mtu);
      CachedAll(Cached(cache, pkts[0], isClient), pkts[1..], isClient, mtu)
  }

  /** A flush that succeeds has cached every queued handshake. */
  lemma {:induction false} DrainCaches(s: Sender, link: Link)
    requires WfQueue(s, link.mtu) && DrainQueue(s, link).sent.Some?
    ensures DrainQueue(s, link).sender.cache == CachedAll(s.cache, s.outgoing, s.isClient, link.mtu)
    decreases |s.outgoing|
  {
    hide NumberPacket, Cached;
    if s.outgoing != [] {
      DrainCaches(SendFirst(s, link).sender, link);
    }
  }

  lemma {:induction false} CachedAllAppend(cache: seq<Cache.Item>, a: seq<Packet>, b: seq<Packet>, isClient: bool,
                                           mtu: nat)
    requires AllPackets(a, mtu) && AllPackets(b, mtu)
    ensures AllPackets(a + b, mtu)
    ensures CachedAll(cache, a + b, isClient, mtu) == CachedAll(CachedAll(cache, a, isClient, mtu), b, isClient, mtu)
    decreases |a|
  {
    hide Cached;
    if a == [] {
      assert a + b == b;
    } else {
      assert WfPacket(a[0], mtu);
      assert (a + b)[0] == a[0] && (a + b)[1..] == a[1..] + b;
      CachedAllAppend(Cached(cache, a[0], isClient), a[1..], b, isClient, mtu);
    }
  }

  /** No message of the client numbered from `n` on is cached. */
  ghost predicate OwnBelow(cache: seq<Cache.Item>, n: nat) {
    forall j :: 0 <= j < |cache| && cache[j].isClient ==> cache[j].messageSequence < n
  }

  /** The handshake packets of `ps`, numbered from `n` on. */
  function Numbering(ps: seq<T.Pending>, n: nat): (r: seq<Packet>)
    ensures |r| == |ps| && forall i :: 0 <= i < |r| ==> r[i] == HandshakePacket(T.Numbered(ps[i], n + i), 0, false)
  {
    if ps == [] then [] else [HandshakePacket(T.Numbered(ps[0], n), 0, false)] + Numbering(ps[1..], n + 1)
  }

  lemma NumberedBelow(p: T.Pending, n: nat)
    requires n < 0x1_0000
    ensures T.Numbered(p, n) == Message(p.typ, n, p.body)
  {
  }

  /** A handshake whose number no own message has is added to the cache. */
  lemma FreshIsCached(cache: seq<Cache.Item>, m: Message, epoch: U16, encrypt: bool, mtu: nat)
    requires OwnBelow(cache, m.sequence) && WfPacket(HandshakePacket(m, epoch, encrypt), mtu)
    ensures Cached(cache, HandshakePacket(m, epoch, encrypt), true)
         == cache + [Cache.Item(m.typ, true, epoch, m.sequence, FullBytes(m))]
    ensures OwnBelow(Cached(cache, HandshakePacket(m, epoch, encrypt), true), m.sequence + 1)
  {
    hide FullBytes;
  }

  lemma ItemsCons(ps: seq<T.Pending>, n: nat)
    requires T.AllWf(ps) && ps != [] && n < 0x1_0000
    ensures |ps[0].body| < 0x100_0000 && T.AllWf(ps[1..])
    ensures var m := Message(ps[0].typ, n, ps[0].body);
            T.Items(ps, n, 0, true) == [Cache.Item(m.typ, true, 0, n, FullBytes(m))] + T.Items(ps[1..], n + 1, 0, true)
  {
    hide FullBytes;
    assert T.WfPending(ps[0]);
    NumberedBelow(ps[0], n);
  }

  /** Caching numbered messages adds exactly the items that were predicted. */
  lemma {:induction false} NumberingCached(cache: seq<Cache.Item>, ps: seq<T.Pending>, n: nat, mtu: nat)
    requires T.AllWf(ps) && AllPackets(Numbering(ps, n), mtu) && OwnBelow(cache, n) && n + |ps| <= 0x1_0000
    ensures CachedAll(cache, Numbering(ps, n), true, mtu) == cache + T.Items(ps, n, 0, true)
    ensures OwnBelow(cache + T.Items(ps, n, 0, true), n + |ps|)
    decreases |ps|
  {
    hide FullBytes, Cached, T.Items, T.Numbered, OwnBelow;
    var pkts := Numbering(ps, n);
    if ps == [] {
      assert cache + T.Items(ps, n, 0, true) == cache;
    } else {
      NumberedBelow(ps[0], n);
      ItemsCons(ps, n);
      var m := Message(ps[0].typ, n, ps[0].body);
      var item := Cache.Item(m.typ, true, 0, n, FullBytes(m));
      assert WfPacket(pkts[0], mtu) && pkts[0] == HandshakePacket(m, 0, false);
      FreshIsCached(cache, m, 0, false, mtu);
      assert pkts[1..] == Numbering(ps[1..], n + 1);
      NumberingCached(cache + [item], ps[1..], n + 1, mtu);
      Assoc(cache, [item], T.Items(ps[1..], n + 1, 0, true));
    }
  }

  function FinishedItem(f: LastFlight): Cache.Item
    requires |f.finished| < 0x100_0000
  {
    var m := FinishedMessage(f);
    Cache.Item(FINISHED, true, 1, m.sequence, FullBytes(m))
  }

  /**
   Sending the client's last flight leaves in its cache exactly what it predicted: the messages it
   hashed beforehand, under the numbers it hashed them with, and then the Finished.
   */
  lemma FlightCached(s: Sender, link: Link, f: LastFlight)
    requires WfFlight(f) && f.n + |Messages(f)| < 0x1_0000
    requires s.isClient && s.outgoing == ToPackets(PreparedFlight(f)) && OwnBelow(s.cache, f.n)
    requires WfQueue(s, link.mtu) && DrainQueue(s, link).sent.Some?
    ensures DrainQueue(s, link).sender.cache == s.cache + T.Items(Messages(f), f.n, 0, true) + [FinishedItem(f)]
  {
    hide DrainQueue, T.Numbered, Messages, FullBytes, ToPackets, PreparedFlight, CachedAll, OwnBelow, T.Items,
      FinishedMessage, Closing;
    var ps := Messages(f);
    var pkts := s.outgoing;
    DrainCaches(s, link);
    FlightPackets(f);
    var front, last := pkts[..|ps|], pkts[|ps|..];
    assert front == Numbering(ps, f.n);
    assert pkts == front + last;
    assert AllPackets(front, link.mtu) && AllPackets(last, link.mtu);
    CachedAllAppend(s.cache, front, last, true, link.mtu);
    NumberingCached(s.cache, ps, f.n, link.mtu);
    ClosingCached(s.cache + T.Items(ps, f.n, 0, true), last, f, link.mtu);
  }

  lemma OtherNotCached(cache: seq<Cache.Item>, p: Packet)
    requires p.OtherPacket?
    ensures Cached(cache, p, true) == cache
  {
  }

  lemma ClosingCached(cache: seq<Cache.Item>, last: seq<Packet>, f: LastFlight, mtu: nat)
    requires |f.finished| < 0x100_0000 && AllPackets(last, mtu) && f.n + |Messages(f)| < 0x1_0000
    requires |last| == 2 && last[0] == OtherPacket(ChangeCipherSpec, [1], 0, false)
    requires last[1] == HandshakePacket(FinishedMessage(f), 1, true)
    requires OwnBelow(cache, f.n + |Messages(f)|)
    ensures CachedAll(cache, last, true, mtu) == cache + [FinishedItem(f)]
  {
    hide FullBytes, Messages, Cached, T.Numbered, OwnBelow;
    NumberedBelow(T.Pending(FINISHED, f.finished), f.n + |Messages(f)|);
    assert WfPacket(last[1], mtu);
    FreshIsCached(cache, FinishedMessage(f), 1, true, mtu);
    OtherNotCached(cache, last[0]);
    assert last[1..] == [last[1]] && last[1..][1..] == [];
    assert CachedAll(Cached(cache, last[1], true), last[1..][1..], true, mtu) == Cached(cache, last[1], true);
    assert CachedAll(cache, last[1..], true, mtu) == Cached(cache, last[1], true);
  }

  // ---------------------------------------------------------------- agreement on the last flight

  lemma EndGrows(x: End, inb: Session, ev: Event)
    requires Paired(x) && (ev.Send? ==> WfQueue(x.sender, ev.link.mtu))
    ensures x.receiver.cache <= StepEnd(x, inb, ev).receiver.cache
  {
    hide Cache.Unique, DrainQueue, Receive, Groups;
    match ev
    case Write(_) =>
    case Send(link) => DrainExtends(x.sender, link);
    case _ => ReceiveHears(inb, x.receiver, NetOpOf(ev));
  }

  /** Both caches only grow. */
  lemma {:induction false} CachesGrow(d: Duplex, w: World, steps: seq<Step>)
    requires WfDuplex(d) && Good(d, w) && CanRunAll(d, w, steps)
    ensures Server(w) <= Server(RunAll(d, w, steps)) && Client(w) <= Client(RunAll(d, w, steps))
    decreases |steps|
  {
    if steps != [] {
      var next := StepWorld(d, w, steps[0]);
      assert RunAll(d, w, [steps[0]]) == next;
      RunKeepsGood(d, w, [steps[0]]);
      CachesGrow(d, next, steps[1..]);
      SameCache(w.client);
      SameCache(next.client);
      hide Protected, Flows, Paired, StepEnd;
      if steps[0].atClient {
        EndGrows(w.client, d.down, steps[0].event);
      } else {
        EndGrows(w.server, d.up, steps[0].event);
      }
    }
  }

  lemma SameCache(x: End)
    requires Paired(x)
    ensures x.sender.cache == x.receiver.cache
  {
  }

  /** The client about to send its last flight: its hellos are out and it holds the server's hello flight. */
  ghost predicate AboutToFinish(d: Duplex, w: World, f: LastFlight)
    requires WfDuplex(d)
  {
    && WfFlight(f) && |d.up.msgs| == f.n + |Messages(f)| + 1 && OwnBelow(Client(w), f.n)
    && (forall i :: 0 <= i < f.n ==> SenderItem(d.up, i).typ == CLIENT_HELLO && SenderItem(d.up, i) in Client(w))
    && (forall i :: 0 <= i < |d.down.msgs| && AskedFor(SenderItem(d.down, i)) ==> SenderItem(d.down, i) in Client(w))
  }

  ghost predicate AskedFor(x: Cache.Item) {
    exists r :: r in T.FinishedRules(0) && Cache.Matches(x, r)
  }

  ghost function WriteFlight(f: LastFlight): Step {
    Step(true, Write(ToPackets(PreparedFlight(f))))
  }

  /** `items` are the session's messages from `n` on, but for the Finished at the end. */
  ghost predicate IsFlight(s: Session, n: nat, items: seq<Cache.Item>)
    requires WfSession(s)
  {
    && |s.msgs| == n + |items| + 1
    && (forall i :: 0 <= i < |items| ==> SenderItem(s, n + i) == items[i])
    && SenderItem(s, n + |items|).typ == FINISHED
  }

  lemma ItemsAt(ps: seq<T.Pending>, n: nat, i: nat)
    requires T.AllWf(ps) && i < |ps| && n + i < 0x1_0000
    ensures |ps[i].body| < 0x100_0000
    ensures T.Items(ps, n, 0, true)[i]
            == Cache.Item(ps[i].typ, true, 0, n + i, FullBytes(Message(ps[i].typ, n + i, ps[i].body)))
  {
    hide FullBytes;
    assert T.WfPending(ps[i]);
    NumberedBelow(ps[i], n + i);
  }

  lemma FlightItem(s: Session, m: Message, encrypt: bool, epoch: U16)
    requires WfSession(s) && PacketOf(s, HandshakePacket(m, epoch, encrypt)) && s.fromClient
    ensures m.sequence < |s.msgs| && |m.body| < 0x100_0000
    ensures SenderItem(s, m.sequence) == Cache.Item(m.typ, true, epoch, m.sequence, FullBytes(m))
  {
    hide FullBytes;
  }

  lemma FlightItemAt(s: Session, ps: seq<T.Pending>, n: nat, i: nat)
    requires WfSession(s) && s.fromClient && T.AllWf(ps) && i < |ps| && n + i < 0x1_0000
    requires PacketOf(s, HandshakePacket(T.Numbered(ps[i], n + i), 0, false))
    ensures n + i < |s.msgs| && SenderItem(s, n + i) == T.Items(ps, n, 0, true)[i]
  {
    hide FullBytes, T.Items, T.Numbered, PacketOf, SenderItem, WfSession;
    NumberedBelow(ps[i], n + i);
    FlightItem(s, Message(ps[i].typ, n + i, ps[i].body), false, 0);
    ItemsAt(ps, n, i);
  }

  /** Messages of the session from `n` on are those of the flight, as the client predicted them. */
  lemma FlightItems(s: Session, f: LastFlight)
    requires WfSession(s) && s.fromClient && WfFlight(f) && |s.msgs| == f.n + |Messages(f)| + 1
    requires QueueOf(s, ToPackets(PreparedFlight(f)))
    ensures IsFlight(s, f.n, T.Items(Messages(f), f.n, 0, true))
  {
    hide T.Numbered, Messages, FullBytes, T.Items, PreparedFlight, Closing, PacketOf, SenderItem, ToPackets,
      FinishedMessage;
    var ps := Messages(f);
    var pkts := ToPackets(PreparedFlight(f));
    FlightPackets(f);
    assert f.n + |ps| < 0x1_0000;
    hide WfSession;
    forall i | 0 <= i < |ps|
      ensures SenderItem(s, f.n + i) == T.Items(ps, f.n, 0, true)[i]
    {
      assert PacketOf(s, pkts[i]);
      FlightItemAt(s, ps, f.n, i);
    }
    FinishedNumbered(f);
    assert PacketOf(s, pkts[|ps| + 1]);
    FlightItem(s, Message(FINISHED, f.n + |ps|, f.finished), true, 1);
  }

  lemma FinishedNumbered(f: LastFlight)
    requires f.n + |Messages(f)| < 0x1_0000
    ensures FinishedMessage(f) == Message(FINISHED, f.n + |Messages(f)|, f.finished)
  {
    hide Messages;
    NumberedBelow(T.Pending(FINISHED, f.finished), f.n + |Messages(f)|);
  }

  /** Which messages of the client the server must have taken for a rule to find what the client predicted. */
  ghost predicate FarEnough(d: Duplex, w: World, f: LastFlight, r: Cache.Rule)
    requires WfDuplex(d) && |d.up.msgs| == f.n + |Messages(f)| + 1
  {
    var taken := |w.server.receiver.popped|;
    && taken >= f.n + |KeyMessages(f)|
    && (r !in T.SessionRules(0) ==> taken == f.n + |Messages(f)|)
    && forall i :: 0 <= i < taken && i <= f.n + |Messages(f)| ==> d.up.keys.parses(SenderItem(d.up, i).data)
  }

  /** What the server holds of the client was cached before the flight or belongs to it. */
  lemma HeldWasPredicted(d: Duplex, w0: World, w: World, f: LastFlight, items: seq<Cache.Item>, x: Cache.Item,
                         r: Cache.Rule)
    requires WfDuplex(d) && Good(d, w) && AboutToFinish(d, w0, f) && IsFlight(d.up, f.n, items)
    requires r in T.FinishedRules(0) && Cache.Matches(x, r) && x.isClient && FarEnough(d, w, f, r)
    requires x in Server(w)
    ensures x in Client(w0) + items
  {
    hide Flows, Protected, SenderItem, Messages, KeyMessages, AskedFor, OwnBelow, WfFlight;
    HeldIsSent(d.up, w.client, w.server, x);
    var i := x.messageSequence as nat;
    if i == f.n + |items| {
      OnlyFinished(x, r);
      assert false;
    } else if i >= f.n {
      assert x == items[i - f.n];
    }
  }

  /** What the client had cached of its own is held by the server. */
  lemma EarlierIsHeld(d: Duplex, w0: World, w: World, f: LastFlight, x: Cache.Item, r: Cache.Rule)
    requires WfDuplex(d) && Good(d, w0) && Good(d, w) && AboutToFinish(d, w0, f)
    requires x.isClient && FarEnough(d, w, f, r) && x in Client(w0)
    ensures x in Server(w)
  {
    hide Flows, Protected, SenderItem, Messages, KeyMessages, AskedFor, WfFlight;
    OwnIsSent(d.up, w0.client, w0.server, x);
    var j :| 0 <= j < |Client(w0)| && Client(w0)[j] == x;
    TakenIsHeld(d.up, w.client, w.server, x.messageSequence);
  }

  /** A message of the flight that a rule asks for is held by the server. */
  lemma FlightIsHeld(d: Duplex, w0: World, w: World, f: LastFlight, i: nat, r: Cache.Rule)
    requires WfDuplex(d) && Good(d, w) && AboutToFinish(d, w0, f) && i < |Messages(f)|
    requires IsFlight(d.up, f.n, T.Items(Messages(f), f.n, 0, true))
    requires r in T.FinishedRules(0) && Cache.Matches(T.Items(Messages(f), f.n, 0, true)[i], r) && FarEnough(d, w, f, r)
    ensures T.Items(Messages(f), f.n, 0, true)[i] in Server(w)
  {
    hide Flows, Protected, SenderItem, Messages, KeyMessages, AskedFor, OwnBelow, T.FinishedRules, T.SessionRules;
    NotYetTaken(f, r, T.Items(Messages(f), f.n, 0, true)[i], i);
    TakenIsHeld(d.up, w.client, w.server, f.n + i);
  }

  lemma ClientItemAgrees(d: Duplex, w0: World, w: World, f: LastFlight, x: Cache.Item, r: Cache.Rule)
    requires WfDuplex(d) && Good(d, w0) && Good(d, w) && AboutToFinish(d, w0, f)
    requires QueueOf(d.up, ToPackets(PreparedFlight(f)))
    requires r in T.FinishedRules(0) && Cache.Matches(x, r) && x.isClient && FarEnough(d, w, f, r)
    ensures x in Server(w) <==> x in Client(w0) + T.Items(Messages(f), f.n, 0, true)
  {
    AboutBounds(d, w0, f);
    hide Good, Protected, T.Items, Messages, PreparedFlight, QueueOf, AboutToFinish, FarEnough, IsFlight,
      T.FinishedRules, WfSession, WfDuplex;
    FlightItems(d.up, f);
    var items := T.Items(Messages(f), f.n, 0, true);
    if x in Server(w) {
      HeldWasPredicted(d, w0, w, f, items, x, r);
    }
    if x in Client(w0) {
      EarlierIsHeld(d, w0, w, f, x, r);
    }
    if x in items {
      var i :| 0 <= i < |items| && items[i] == x;
      FlightIsHeld(d, w0, w, f, i, r);
    }
  }

  lemma OnlyFinished(x: Cache.Item, r: Cache.Rule)
    requires x.typ == FINISHED && r in T.FinishedRules(0) && Cache.Matches(x, r)
    ensures r !in T.SessionRules(0)
  {
  }

  lemma KeysFirst(f: LastFlight)
    ensures |KeyMessages(f)| <= |Messages(f)|
    ensures forall i :: |KeyMessages(f)| <= i < |Messages(f)| ==> Messages(f)[i].typ == CERTIFICATE_VERIFY
  {
  }

  /** The session rules ask for nothing after the key messages. */
  lemma NotYetTaken(f: LastFlight, r: Cache.Rule, x: Cache.Item, i: nat)
    requires WfFlight(f) && r in T.FinishedRules(0) && Cache.Matches(x, r)
    requires i < |Messages(f)| && x == T.Items(Messages(f), f.n, 0, true)[i]
    ensures r in T.SessionRules(0) ==> i < |KeyMessages(f)|
  {
    hide FullBytes;
    KeysFirst(f);
  }

  lemma ServerItemAgrees(d: Duplex, w0: World, w: World, f: LastFlight, x: Cache.Item, r: Cache.Rule)
    requires WfDuplex(d) && Good(d, w0) && Good(d, w) && AboutToFinish(d, w0, f) && Server(w0) <= Server(w)
    requires r in T.FinishedRules(0) && Cache.Matches(x, r) && !x.isClient
    ensures x in Server(w) <==> x in Client(w0) + T.Items(Messages(f), f.n, 0, true)
  {
    hide Flows, Protected, SenderItem, Messages, FullBytes;
    var items := T.Items(Messages(f), f.n, 0, true);
    assert x !in items;
    assert AskedFor(x);
    if x in Server(w) {
      OwnIsSent(d.down, w.server, w.client, x);
    }
    if x in Client(w0) {
      HeldIsSent(d.down, w0.server, w0.client, x);
    }
  }

  lemma FlightAgrees(d: Duplex, w0: World, w: World, f: LastFlight, rules: seq<Cache.Rule>)
    requires WfDuplex(d) && Good(d, w0) && Good(d, w) && AboutToFinish(d, w0, f) && Server(w0) <= Server(w)
    requires QueueOf(d.up, ToPackets(PreparedFlight(f)))
    requires forall r :: r in rules ==> r in T.FinishedRules(0) && FarEnough(d, w, f, r)
    ensures Cache.AgreeOn(Server(w), Client(w0) + T.Items(Messages(f), f.n, 0, true), rules)
  {
    hide Good, Protected, SenderItem, Messages, QueueOf, FarEnough, AboutToFinish, PreparedFlight;
    AboutBounds(d, w0, f);
    forall x, r | r in rules && Cache.Matches(x, r)
      ensures x in Server(w) <==> x in Client(w0) + T.Items(Messages(f), f.n, 0, true)
    {
      if x.isClient {
        ClientItemAgrees(d, w0, w, f, x, r);
      } else {
        ServerItemAgrees(d, w0, w, f, x, r);
      }
    }
  }

  /** Messages of the client, numbered from `n` on. */
  ghost predicate CountUp(items: seq<Cache.Item>, n: nat) {
    forall i :: 0 <= i < |items| ==> items[i].isClient && items[i].messageSequence == n + i
  }

  lemma UniqueAppend(cache: seq<Cache.Item>, items: seq<Cache.Item>, n: nat)
    requires Cache.Unique(cache) && OwnBelow(cache, n) && CountUp(items, n)
    ensures Cache.Unique(cache + items)
  {
  }

  lemma FlightUnique(cache: seq<Cache.Item>, ps: seq<T.Pending>, n: nat)
    requires T.AllWf(ps) && Cache.Unique(cache) && OwnBelow(cache, n) && n + |ps| <= 0x1_0000
    ensures Cache.Unique(cache + T.Items(ps, n, 0, true))
  {
    hide FullBytes, Cache.Unique, OwnBelow;
    var items := T.Items(ps, n, 0, true);
    forall i | 0 <= i < |items|
      ensures items[i].isClient && items[i].messageSequence == n + i
    {
      ItemsAt(ps, n, i);
    }
    UniqueAppend(cache, items, n);
  }

  /** Before its last flight the client has cached hellos only. */
  lemma NothingOfFlight(d: Duplex, w0: World, f: LastFlight)
    requires WfDuplex(d) && Good(d, w0) && AboutToFinish(d, w0, f)
    ensures T.NotYetSent(Client(w0), 0)
  {
    hide Flows, Protected, SenderItem, Messages;
    forall r, j | r in T.KeyRules(0) + T.FinishRules(0) && 0 <= j < |Client(w0)|
      ensures !Cache.Matches(Client(w0)[j], r)
    {
      var x := Client(w0)[j];
      if x.isClient {
        OwnIsSent(d.up, w0.client, w0.server, x);
      }
    }
  }

  /** What the two ends can say about each other's caches, from the run. */
  lemma FlightReaches(d: Duplex, before: seq<Step>, f: LastFlight, after: seq<Step>)
    requires WfDuplex(d) && CanRunAll(d, Start(), before)
    requires AboutToFinish(d, RunAll(d, Start(), before), f)
    requires CanRunAll(d, RunAll(d, Start(), before), [WriteFlight(f)] + after)
    ensures var w0 := RunAll(d, Start(), before);
            var w := RunAll(d, w0, [WriteFlight(f)] + after);
            && Good(d, w0) && Good(d, w) && Server(w0) <= Server(w)
            && QueueOf(d.up, ToPackets(PreparedFlight(f)))
            && T.NotYetSent(Client(w0), 0) && Cache.Unique(Server(w))
            && Cache.Unique(Client(w0) + T.Items(Messages(f), f.n, 0, true))
  {
    hide Flows, Protected, AboutToFinish, PreparedFlight, Messages;
    var w0 := RunAll(d, Start(), before);
    ReachableIsGood(d, before);
    RunKeepsGood(d, w0, [WriteFlight(f)] + after);
    CachesGrow(d, w0, [WriteFlight(f)] + after);
    NothingOfFlight(d, w0, f);
    AboutBounds(d, w0, f);
    FlightUnique(Client(w0), Messages(f), f.n);
    assert ([WriteFlight(f)] + after)[0] == WriteFlight(f);
    assert CanStep(d, w0, WriteFlight(f));
  }

  lemma AboutBounds(d: Duplex, w: World, f: LastFlight)
    requires WfDuplex(d) && AboutToFinish(d, w, f)
    ensures T.AllWf(Messages(f)) && OwnBelow(Client(w), f.n) && f.n + |Messages(f)| <= 0x1_0000
    ensures T.AllWf(KeyMessages(f)) && |d.up.msgs| == f.n + |Messages(f)| + 1
  {
    T.UnsentWf(f.cert, f.key, f.verify);
  }

  /**
   The extended master secret and the CertificateVerify signature.  In a run of client and server,
   the client holds the server's hello flight and hashes it with key messages it has yet to send,
   under predicted numbers; then it sends them, and the network does what it likes.  As soon as the
   server has taken them, the server hashes exactly the same bytes.
   */
  lemma SessionHashesAgree(d: Duplex, before: seq<Step>, f: LastFlight, after: seq<Step>)
    requires WfDuplex(d) && CanRunAll(d, Start(), before)
    requires AboutToFinish(d, RunAll(d, Start(), before), f)
    requires CanRunAll(d, RunAll(d, Start(), before), [WriteFlight(f)] + after)
    requires var w := RunAll(d, RunAll(d, Start(), before), [WriteFlight(f)] + after);
             forall r :: r in T.SessionRules(0) ==> FarEnough(d, w, f, r)
    ensures T.AllWf(KeyMessages(f))
    ensures var w0 := RunAll(d, Start(), before);
            var w := RunAll(d, w0, [WriteFlight(f)] + after);
            T.SessionHashInput(Server(w), 0, []) == T.SessionHashInput(Client(w0), 0, T.Marshalled(KeyMessages(f), f.n))
  {
    hide Good, Protected, AboutToFinish, FarEnough, RunAll, QueueOf, T.NotYetSent, Cache.Unique, T.Items, T.Unsent,
      T.Marshalled, T.SessionHashInput, PreparedFlight;
    var w0 := RunAll(d, Start(), before);
    var w := RunAll(d, w0, [WriteFlight(f)] + after);
    FlightReaches(d, before, f, after);
    AboutBounds(d, w0, f);
    SessionAmongFinished();
    FlightAgrees(d, w0, w, f, T.SessionRules(0));
    T.SessionTranscriptsAgree(Client(w0), Server(w), f.cert, f.key, f.verify, f.n, 0);
  }

  lemma SessionAmongFinished()
    ensures forall r :: r in T.SessionRules(0) ==> r in T.FinishedRules(0)
  {
  }

  /** The client's Finished: the server's cache, before the Finished itself arrives, gives the bytes it was made of. */
  lemma FinishedHashesAgree(d: Duplex, before: seq<Step>, f: LastFlight, after: seq<Step>)
    requires WfDuplex(d) && CanRunAll(d, Start(), before)
    requires AboutToFinish(d, RunAll(d, Start(), before), f)
    requires CanRunAll(d, RunAll(d, Start(), before), [WriteFlight(f)] + after)
    requires var w := RunAll(d, RunAll(d, Start(), before), [WriteFlight(f)] + after);
             forall r :: r in T.FinishedRules(0) ==> FarEnough(d, w, f, r)
    ensures T.AllWf(Messages(f))
    ensures var w0 := RunAll(d, Start(), before);
            var w := RunAll(d, w0, [WriteFlight(f)] + after);
            Cache.Transcript(Server(w), T.FinishedRules(0)) ==
            Cache.Transcript(Client(w0), T.FinishedRules(0)) + T.Marshalled(Messages(f), f.n)
  {
    hide Good, Protected, AboutToFinish, FarEnough, RunAll, QueueOf, T.NotYetSent, Cache.Unique, T.Items, T.Unsent,
      T.Marshalled, Cache.Transcript, PreparedFlight;
    var w0 := RunAll(d, Start(), before);
    var w := RunAll(d, w0, [WriteFlight(f)] + after);
    FlightReaches(d, before, f, after);
    AboutBounds(d, w0, f);
    FlightAgrees(d, w0, w, f, T.FinishedRules(0));
    T.FinishedTranscriptsAgree(Client(w0), Server(w), f.cert, f.key, f.verify, f.n, 0);
  }

  // ---------------------------------------------------------------- the server's Finished

  /** The server has taken all of the client's messages and parsed them. */
  ghost predicate ClientDone(d: Duplex, w: World)
    requires WfDuplex(d)
  {
    && |w.server.receiver.popped| == |d.up.msgs|
    && forall i :: 0 <= i < |d.up.msgs| ==> d.up.keys.parses(SenderItem(d.up, i).data)
  }

  /** The server's hello flight: cached by the server in `w`, and taken by the client in `later`. */
  ghost predicate HelloTaken(d: Duplex, w: World, later: World)
    requires WfDuplex(d)
  {
    forall i :: 0 <= i < |d.down.msgs| && AskedFor(SenderItem(d.down, i)) ==>
      && SenderItem(d.down, i) in Server(w)
      && i < |later.client.receiver.popped| && d.down.keys.parses(SenderItem(d.down, i).data)
  }

  lemma ClientHeldLater(d: Duplex, w: World, later: World, x: Cache.Item)
    requires WfDuplex(d) && Good(d, w) && Good(d, later) && Client(w) <= Client(later) && ClientDone(d, w)
    requires x.isClient
    ensures x in Server(w) <==> x in Client(later)
  {
    hide Flows, Protected, SenderItem;
    if x in Server(w) {
      HeldIsSent(d.up, w.client, w.server, x);
      assert x in Client(w);
    }
    if x in Client(later) {
      OwnIsSent(d.up, later.client, later.server, x);
      TakenIsHeld(d.up, w.client, w.server, x.messageSequence);
    }
  }

  lemma ServerHeldLater(d: Duplex, w: World, later: World, x: Cache.Item)
    requires WfDuplex(d) && Good(d, w) && Good(d, later) && HelloTaken(d, w, later)
    requires !x.isClient && AskedFor(x)
    ensures x in Server(w) <==> x in Client(later)
  {
    hide Flows, Protected, SenderItem, AskedFor;
    if x in Server(w) {
      OwnIsSent(d.down, w.server, w.client, x);
      TakenIsHeld(d.down, later.server, later.client, x.messageSequence);
    }
    if x in Client(later) {
      HeldIsSent(d.down, later.server, later.client, x);
    }
  }

  /**
   The server's Finished.  The server makes it when it has taken the whole of the client's last
   flight; the client checks it later, when its own cache has grown by what arrived in between.
   Both hash the same bytes.
   */
  lemma ServerFinishedHashesAgree(d: Duplex, before: seq<Step>, after: seq<Step>)
    requires WfDuplex(d) && CanRunAll(d, Start(), before) && ClientDone(d, RunAll(d, Start(), before))
    requires CanRunAll(d, RunAll(d, Start(), before), after)
    requires var w := RunAll(d, Start(), before); HelloTaken(d, w, RunAll(d, w, after))
    ensures var w := RunAll(d, Start(), before);
            Cache.Transcript(Server(w), T.FinishedRules(0))
            == Cache.Transcript(Client(RunAll(d, w, after)), T.FinishedRules(0))
  {
    var w := RunAll(d, Start(), before);
    var later := RunAll(d, w, after);
    ReachableIsGood(d, before);
    RunKeepsGood(d, w, after);
    CachesGrow(d, w, after);
    hide ClientDone, HelloTaken, RunAll, Flows, Protected, Cache.Unique;
    forall x, r | r in T.FinishedRules(0) && Cache.Matches(x, r)
      ensures x in Server(w) <==> x in Client(later)
    {
      assert AskedFor(x);
      if x.isClient {
        ClientHeldLater(d, w, later, x);
      } else {
        ServerHeldLater(d, w, later, x);
      }
    }
    assert Cache.AgreeOn(Server(w), Client(later), T.FinishedRules(0));
    Cache.TranscriptDependsOnContents(Server(w), Client(later), T.FinishedRules(0));
  }

  /** The handshake state of an end that is to make or to check a Finished for the first time. */
  ghost predicate MayFinish(st: F.State) {
    st.suite.Some? && st.verifyData == []
  }

  lemma SameHashAccepted(server: F.State, client: F.State, sent: seq<Cache.Item>, held: seq<Cache.Item>,
                         serverCfg: F.Config, clientCfg: F.Config, cr: F.Crypto)
    requires Cache.Transcript(sent, T.FinishedRules(0)) == Cache.Transcript(held, T.FinishedRules(0))
    requires serverCfg.initialEpoch == clientCfg.initialEpoch == 0
    requires MayFinish(server) && client.suite.Some? && server.master == client.master
    requires F.Generate6(server, sent, serverCfg, cr).packets.Some?
    ensures var data := F.Generate6(server, sent, serverCfg, cr).state.verifyData;
            match Cache.FullPull(held, client.recvSequence, [F.ServerFinishedRule(clientCfg)], cr.decode)
            case Messages(_, msgs) =>
              F.Parse5(client, held, clientCfg, cr).1.Next?
              <==> FINISHED in msgs && msgs[FINISHED].Finished? && msgs[FINISHED].verifyData == data
            case _ => F.Parse5(client, held, clientCfg, cr).1 == F.KEEP_READING
  {
    hide Cache.Transcript, Cache.FullPull, F.FinishedPackets, T.FinishedRules;
  }

  /**
   Flight 6 against flight 5: with equal master secrets, the client accepts a Finished that it has
   pulled if and only if it carries the verify data which the server generated.
   */
  lemma ServerFinishedAccepted(d: Duplex, before: seq<Step>, after: seq<Step>, server: F.State, client: F.State,
                               serverCfg: F.Config, clientCfg: F.Config, cr: F.Crypto)
    requires WfDuplex(d) && CanRunAll(d, Start(), before) && ClientDone(d, RunAll(d, Start(), before))
    requires CanRunAll(d, RunAll(d, Start(), before), after)
    requires var w := RunAll(d, Start(), before); HelloTaken(d, w, RunAll(d, w, after))
    requires serverCfg.initialEpoch == clientCfg.initialEpoch == 0
    requires MayFinish(server) && client.suite.Some? && server.master == client.master
    requires F.Generate6(server, Server(RunAll(d, Start(), before)), serverCfg, cr).packets.Some?
    ensures var w := RunAll(d, Start(), before);
            var data := F.Generate6(server, Server(w), serverCfg, cr).state.verifyData;
            var cache := Client(RunAll(d, w, after));
            match Cache.FullPull(cache, client.recvSequence, [F.ServerFinishedRule(clientCfg)], cr.decode)
            case Messages(_, msgs) =>
              F.Parse5(client, cache, clientCfg, cr).1.Next?
              <==> FINISHED in msgs && msgs[FINISHED].Finished? && msgs[FINISHED].verifyData == data
            case _ => F.Parse5(client, cache, clientCfg, cr).1 == F.KEEP_READING
  {
    hide RunAll, Cache.Transcript, Cache.FullPull, F.Generate6, F.Parse5, ClientDone, HelloTaken, WfDuplex, Start;
    ServerFinishedHashesAgree(d, before, after);
    var w := RunAll(d, Start(), before);
    SameHashAccepted(server, client, Server(w), Client(RunAll(d, w, after)), serverCfg, clientCfg, cr);
  }

  // ---------------------------------------------------------------- flight 5 and the master secret

  ghost predicate NotStarted(st: F.State) {
    st.suite.Some? && !st.suite.value.initialized
  }

  /** Flight 5 is a last flight, and under the extended master secret its key messages are what it hashes. */
  lemma FlightFive(st: F.State, cache: seq<Cache.Item>, cfg: F.Config, cr: F.Crypto) returns (f: LastFlight)
    requires F.Generate5(st, cache, cfg, cr).packets.Some?
    ensures WfFlight(f) && T.AllWf(KeyMessages(f)) && f.n == st.sendSequence
    ensures F.Generate5(st, cache, cfg, cr).packets.value == T.InFlight(Messages(f), 0) + Closing(f)
    ensures NotStarted(st) && st.ems ==>
              var after := F.Generate5(st, cache, cfg, cr).state;
              Some(after.master) == cr.extendedMaster(after.preMaster,
                cr.hash(T.SessionHashInput(cache, cfg.initialEpoch, T.Marshalled(KeyMessages(f), f.n))))
  {
    hide T.Marshalled, T.SessionHashInput, Cache.Transcript;
    var cert := if st.requestedCertificate then F.Body(F.Certificate(cfg.chain), cr) else None;
    var (st1, serverKey) := F.ServerKey(st, cache, cfg, cr);
    var key := F.Body(F.ClientKey(st, cfg), cr).value;
    var merged := F.Merged(cert, key, None, st1.sendSequence);
    var (st2, _) := F.StartClientSuite(st1, serverKey.value, merged, cache, cfg, cr);
    var (verify, _) := F.Proof(st2, merged, cache, cfg, cr);
    var g := F.FinishClient(st2, cert, key, verify, cache, cfg, cr);
    f := LastFlight(cert, key, verify, F.Body(F.Finished(g.state.verifyData), cr).value, st.sendSequence);
    F.UnsentShort(cert, key, verify);
    F.UnsentShort(cert, key, None);
  }

  /** The premaster secret the server derives from the client's key exchange. */
  function ServerPremaster(st: F.State, key: F.Msg, cfg: F.Config, cr: F.Crypto): Option<Bytes>
    requires key.ClientKeyExchange?
  {
    if cfg.psk then cr.pskFor(key.identityHint)
    else if st.keypair.Some? then cr.agree(key.publicKey, st.keypair.value) else Some([])
  }

  lemma ServerMaster(st: F.State, key: F.Msg, cache: seq<Cache.Item>, cfg: F.Config, cr: F.Crypto)
    requires key.ClientKeyExchange? && NotStarted(st) && st.ems && F.StartServerSuite(st, key, cache, cfg, cr).1
    ensures var pre := ServerPremaster(st, key, cfg, cr);
            && pre.Some?
            && Some(F.StartServerSuite(st, key, cache, cfg, cr).0.master)
               == cr.extendedMaster(pre.value, cr.hash(T.SessionHashInput(cache, cfg.initialEpoch, [])))
  {
    hide T.SessionHashInput;
  }

  /** Both ends that reached the same premaster secret derive the same extended master secret. */
  lemma MasterSecretsAgree(d: Duplex, before: seq<Step>, f: LastFlight, after: seq<Step>, cr: F.Crypto,
                           client: F.State, clientCfg: F.Config, server: F.State, serverCfg: F.Config, key: F.Msg)
    requires WfDuplex(d) && CanRunAll(d, Start(), before)
    requires AboutToFinish(d, RunAll(d, Start(), before), f)
    requires CanRunAll(d, RunAll(d, Start(), before), [WriteFlight(f)] + after)
    requires var w := RunAll(d, RunAll(d, Start(), before), [WriteFlight(f)] + after);
             && (forall r :: r in T.SessionRules(0) ==> FarEnough(d, w, f, r))
             && key.ClientKeyExchange? && F.StartServerSuite(server, key, Server(w), serverCfg, cr).1
    requires var g := F.Generate5(client, Client(RunAll(d, Start(), before)), clientCfg, cr);
             && g.packets == Some(T.InFlight(Messages(f), 0) + Closing(f)) && f.n == client.sendSequence
             && ServerPremaster(server, key, serverCfg, cr) == Some(g.state.preMaster)
    requires clientCfg.initialEpoch == serverCfg.initialEpoch == 0
    requires NotStarted(client) && client.ems && NotStarted(server) && server.ems
    ensures var w := RunAll(d, RunAll(d, Start(), before), [WriteFlight(f)] + after);
            F.StartServerSuite(server, key, Server(w), serverCfg, cr).0.master
            == F.Generate5(client, Client(RunAll(d, Start(), before)), clientCfg, cr).state.master
  {
    hide AboutToFinish, FarEnough, RunAll, CanRunAll, WfDuplex, T.SessionHashInput, F.Generate5, F.StartServerSuite,
      T.Marshalled, T.AllWf, T.InFlight, ServerPremaster;
    var w0 := RunAll(d, Start(), before);
    var w := RunAll(d, w0, [WriteFlight(f)] + after);
    SessionHashesAgree(d, before, f, after);
    ServerMaster(server, key, Server(w), serverCfg, cr);
    var g := FlightFive(client, Client(w0), clientCfg, cr);
    SameFlight(f, g);
  }

  /** The packets of a flight determine its messages. */
  lemma SameFlight(f: LastFlight, g: LastFlight)
    requires T.InFlight(Messages(f), 0) + Closing(f) == T.InFlight(Messages(g), 0) + Closing(g)
    ensures KeyMessages(f) == KeyMessages(g)
  {
    var a, b := T.InFlight(Messages(f), 0), T.InFlight(Messages(g), 0);
    assert |a| == |b|;
    assert forall i :: 0 <= i < |a| ==> (a + Closing(f))[i] == a[i] && (b + Closing(g))[i] == b[i];
    assert forall i :: 0 <= i < |a| ==> Messages(f)[i] == a[i].pending && Messages(g)[i] == b[i].pending;
  }
}
