/** Sender, network and receiver put together: what one side sends is what the other side takes. */
module DtlsEndToEnd {
  import opened Bytes
  import opened DtlsRecord
  import opened DtlsFragment
  import opened DtlsReceiver
  import opened DtlsDelivery
  import opened DtlsSender
  import Cache = DtlsCache

  /**
   Packets of the session: its messages under their epochs, encrypted after epoch 0, or packets that
   are not handshakes; encrypted ones leave room for what the cipher adds.
   */
  ghost predicate PacketOf(s: Session, p: Packet)
    requires WfSession(s)
  {
    && WfPacket(p, s.mtu)
    && match p
       case HandshakePacket(m, epoch, encrypt) =>
         && m.sequence < |s.msgs| && m == s.msgs[m.sequence] && epoch == s.epochs[m.sequence]
         && (encrypt <==> epoch != 0)
         && (encrypt ==> s.mtu + s.overhead < 0xFFF4 || |m.body| + s.overhead < 0xFFF4)
       case OtherPacket(contentType, content, _, encrypt) =>
         && contentType != Handshake && contentType != Invalid
         && (if encrypt then |content| + s.overhead < 0x1_0000 else content != [])
         && (contentType == ChangeCipherSpec ==> !encrypt)
  }

  /** The link protects records as the session's cipher does, or fails. */
  ghost predicate LinkOf(s: Session, link: Link) {
    && link.mtu == s.mtu
    && forall x :: Sendable(x, s.overhead) && link.protect(x).Some? ==> link.protect(x).value == OnWire(s, x)
  }

  /** Messages the sender has cached, which it does before it sends them. */
  ghost function Released(cache: seq<Cache.Item>, isClient: bool): set<nat> {
    set j | 0 <= j < |cache| && cache[j].isClient == isClient :: cache[j].messageSequence as nat
  }

  ghost predicate OwnCopies(s: Session, cache: seq<Cache.Item>)
    requires WfSession(s)
  {
    forall j :: 0 <= j < |cache| && cache[j].isClient == s.fromClient ==>
      cache[j].messageSequence < |s.msgs| && cache[j] == SenderItem(s, cache[j].messageSequence)
  }

  ghost predicate AllLegit(s: Session, xs: seq<Sent>)
    requires WfSession(s)
  {
    forall j :: 0 <= j < |xs| ==> Legit(s, xs[j])
  }

  ghost predicate AllEmitted(s: Session, ds: seq<Bytes>)
    requires WfSession(s)
  {
    forall j :: 0 <= j < |ds| ==> Emitted(s, ds[j])
  }

  // ---------------------------------------------------------------- more released messages never hurt

  lemma LegitMono(s: Session, more: set<nat>, x: Sent)
    requires WfSession(s) && s.released <= more && Legit(s, x)
    ensures Legit(s.(released := more), x)
  {
    if x.contentType == Handshake {
      var i, p :| CarriesPiece(s, x, i, p);
      assert CarriesPiece(s.(released := more), x, i, p);
    }
  }

  lemma EmittedMono(s: Session, more: set<nat>, d: Bytes)
    requires WfSession(s) && s.released <= more && Emitted(s, d)
    ensures Emitted(s.(released := more), d)
  {
    var t := s.(released := more);
    var ws: seq<Bytes> :| QueuedFromWire(s, ws) && d == Flatten(ws);
    forall j | 0 <= j < |ws|
      ensures IsWire(t, ws[j])
    {
      assert IsWire(s, ws[j]);
      var x :| Legit(s, x) && ws[j] == OnWire(s, x);
      LegitMono(s, more, x);
      assert Legit(t, x) && ws[j] == OnWire(t, x);
    }
    assert QueuedFromWire(t, ws);
  }

  // ---------------------------------------------------------------- numbered records are legitimate

  ghost predicate NumberedAs(x: Sent, kind: Kind, content: Bytes, link: Link) {
    && x.contentType == kind.contentType && x.epoch == kind.epoch && x.encrypt == kind.encrypt && x.content == content
    && x.number <= MAX_SEQUENCE_NUMBER && link.protect(x).Some?
  }

  lemma {:induction false} NumberAllContents(local: seq<nat>, kind: Kind, contents: seq<Bytes>, link: Link)
    requires kind.epoch < |local|
    requires NumberAll(local, kind, contents, link).sent.Some?
    ensures var xs := NumberAll(local, kind, contents, link).sent.value; |xs| == |contents|
    ensures forall j :: 0 <= j < |contents| ==>
              NumberedAs(NumberAll(local, kind, contents, link).sent.value[j], kind, contents[j], link)
    decreases |contents|
  {
    if contents != [] {
      var n := local[kind.epoch];
      NumberAllContents(local[kind.epoch := n + 1], kind, contents[1..], link);
    }
  }

  /** Every record made of a packet of the session is one the session allows. */
  lemma PacketLegit(s: Session, p: Packet, local: seq<nat>, link: Link)
    requires WfSession(s) && PacketOf(s, p) && LinkOf(s, link)
    requires p.HandshakePacket? ==> p.message.sequence in s.released
    requires NumberPacket(local, p, link).sent.Some?
    ensures AllLegit(s, NumberPacket(local, p, link).sent.value)
    ensures AllProtected(NumberPacket(local, p, link).sent.value, link)
  {
    var contents := Contents(p, s.mtu);
    NumberAllContents(Padded(local, p.epoch), KindOf(p), contents, link);
    var xs := NumberPacket(local, p, link).sent.value;
    forall j | 0 <= j < |xs|
      ensures Legit(s, xs[j]) && link.protect(xs[j]).Some?
    {
      assert NumberedAs(xs[j], KindOf(p), contents[j], link);
      if p.HandshakePacket? {
        PieceLegit(s, p.message.sequence, j, xs[j]);
      }
    }
  }

  lemma PieceLegit(s: Session, i: nat, j: nat, x: Sent)
    requires WfSession(s) && i < |s.msgs| && i in s.released
    requires PacketOf(s, HandshakePacket(s.msgs[i], s.epochs[i], x.encrypt))
    requires j < |Pieces(s.msgs[i].body, s.mtu, 0)|
    requires x.contentType == Handshake && x.epoch == s.epochs[i] && x.number <= MAX_SEQUENCE_NUMBER
    requires x.content == FragmentContents(s.msgs[i], Pieces(s.msgs[i].body, s.mtu, 0), s.mtu)[j]
    ensures Legit(s, x)
  {
    var p := Pieces(s.msgs[i].body, s.mtu, 0)[j];
    PiecesWithin(s.msgs[i].body, s.mtu, 0);
    assert IsPiece(s, i, p);
    PieceInside(s, i, p);
    assert CarriesPiece(s, x, i, p);
  }

  ghost predicate AllProtected(xs: seq<Sent>, link: Link) {
    forall j :: 0 <= j < |xs| ==> link.protect(xs[j]).Some?
  }

  // ---------------------------------------------------------------- emptying the queue

  ghost predicate QueueOf(s: Session, outgoing: seq<Packet>)
    requires WfSession(s)
  {
    forall j :: 0 <= j < |outgoing| ==> PacketOf(s, outgoing[j])
  }

  lemma CachedKeeps(s: Session, cache: seq<Cache.Item>, p: Packet)
    requires WfSession(s) && PacketOf(s, p) && OwnCopies(s, cache)
    ensures OwnCopies(s, Cached(cache, p, s.fromClient))
    ensures Released(cache, s.fromClient) <= Released(Cached(cache, p, s.fromClient), s.fromClient)
    ensures p.HandshakePacket? ==> p.message.sequence in Released(Cached(cache, p, s.fromClient), s.fromClient)
  {
    if p.HandshakePacket? {
      var m := p.message;
      assert SenderItem(s, m.sequence) == Cache.Item(m.typ, s.fromClient, p.epoch, m.sequence, FullBytes(m));
      var after := Cached(cache, p, s.fromClient);
      assert cache <= after;
      forall n | n in Released(cache, s.fromClient)
        ensures n in Released(after, s.fromClient)
      {
        var j :| 0 <= j < |cache| && cache[j].isClient == s.fromClient && cache[j].messageSequence as nat == n;
        assert after[j] == cache[j];
      }
      if Cache.Holds(cache, m.sequence, s.fromClient) {
        var j :| 0 <= j < |cache| && Cache.SameSlot(cache[j], m.sequence, s.fromClient);
        assert after[j].messageSequence as nat == m.sequence;
      } else {
        assert after[|cache|].messageSequence as nat == m.sequence;
      }
    }
  }

  ghost function With(s: Session, sender: Sender): Session {
    s.(released := Released(sender.cache, s.fromClient))
  }

  lemma {:induction false} DrainLegit(s: Session, sender: Sender, link: Link)
    requires WfSession(s) && LinkOf(s, link) && sender.isClient == s.fromClient
    requires QueueOf(s, sender.outgoing) && WfQueue(sender, link.mtu) && OwnCopies(s, sender.cache)
    ensures var d := DrainQueue(sender, link);
            && d.sender.isClient == s.fromClient && d.sender.compacted == sender.compacted
            && OwnCopies(s, d.sender.cache) && QueueOf(s, d.sender.outgoing)
            && Released(sender.cache, s.fromClient) <= Released(d.sender.cache, s.fromClient)
            && AllLegit(With(s, d.sender), OrNone(d.sent)) && AllProtected(OrNone(d.sent), link)
    decreases |sender.outgoing|
  {
    hide Released, LinkOf, NumberPacket, Legit;
    var d := DrainQueue(sender, link);
    if sender.outgoing != [] {
      var first := SendFirst(sender, link);
      CachedKeeps(s, sender.cache, sender.outgoing[0]);
      if first.sent.Some? {
        DrainLegit(s, first.sender, link);
        FirstLegit(s, sender, link);
        AllLegitMono(With(s, first.sender), With(s, d.sender).released, first.sent.value);
      }
    }
  }

  lemma WithKeepsLink(s: Session, sender: Sender, link: Link)
    requires LinkOf(s, link)
    ensures LinkOf(With(s, sender), link)
  {
    hide Released;
    assert forall x :: Sendable(x, s.overhead) ==> OnWire(With(s, sender), x) == OnWire(s, x);
  }

  /** The packet at the head of the queue, once it is cached. */
  lemma FirstLegit(s: Session, sender: Sender, link: Link)
    requires WfSession(s) && LinkOf(s, link) && sender.isClient == s.fromClient && sender.outgoing != []
    requires QueueOf(s, sender.outgoing) && WfQueue(sender, link.mtu) && OwnCopies(s, sender.cache)
    requires SendFirst(sender, link).sent.Some?
    ensures var first := SendFirst(sender, link);
            && AllLegit(With(s, first.sender), first.sent.value)
            && AllProtected(first.sent.value, link)
  {
    hide Released, LinkOf, NumberPacket, Legit;
    var first := SendFirst(sender, link);
    var p := sender.outgoing[0];
    CachedKeeps(s, sender.cache, p);
    WithKeepsLink(s, first.sender, link);
    PacketLegit(With(s, first.sender), p, sender.local, link);
  }

  lemma AllLegitMono(s: Session, more: set<nat>, xs: seq<Sent>)
    requires WfSession(s) && s.released <= more && AllLegit(s, xs)
    ensures AllLegit(s.(released := more), xs)
  {
    forall j | 0 <= j < |xs|
      ensures Legit(s.(released := more), xs[j])
    {
      LegitMono(s, more, xs[j]);
    }
  }

  lemma RawsFromWire(s: Session, xs: seq<Sent>, link: Link)
    requires WfSession(s) && LinkOf(s, link) && AllLegit(s, xs) && AllProtected(xs, link)
    ensures QueuedFromWire(s, Raws(xs, link))
  {
    var raws := Raws(xs, link);
    forall j | 0 <= j < |raws|
      ensures IsWire(s, raws[j])
    {
      assert Legit(s, xs[j]) && link.protect(xs[j]).Some?;
      assert raws[j] == OnWire(s, xs[j]);
    }
  }

  lemma SubsetFromWire(s: Session, raws: seq<Bytes>, group: seq<Bytes>)
    requires WfSession(s) && QueuedFromWire(s, raws)
    requires forall r :: r in group ==> r in raws
    ensures QueuedFromWire(s, group)
  {
    forall k | 0 <= k < |group|
      ensures IsWire(s, group[k])
    {
      assert group[k] in raws;
      var j :| 0 <= j < |raws| && raws[j] == group[k];
      assert IsWire(s, raws[j]);
    }
  }

  /** Packing legitimate records gives datagrams the network model allows. */
  lemma PackedEmitted(s: Session, xs: seq<Sent>, link: Link)
    requires WfSession(s) && Protected(s) && LinkOf(s, link) && AllLegit(s, xs) && AllProtected(xs, link)
    ensures AllEmitted(s, Joined(Groups(Raws(xs, link), link.mtu, [])))
  {
    var raws := Raws(xs, link);
    RawsFromWire(s, xs, link);
    WireWellFormed(s, raws);
    var groups := Groups(raws, link.mtu, []);
    forall i | 0 <= i < |groups|
      ensures Emitted(s, Joined(groups)[i])
    {
      UnpackCompacted(raws, link.mtu, i);
      SubsetFromWire(s, raws, groups[i]);
    }
  }

  // ---------------------------------------------------------------- whole runs

  ghost predicate SenderInv(s: Session, w: SendWorld)
    requires WfSession(s)
  {
    && w.sender.isClient == s.fromClient
    && QueueOf(s, w.sender.outgoing)
    && OwnCopies(s, w.sender.cache)
    && AllEmitted(With(s, w.sender), w.sender.compacted)
  }

  ghost predicate SendOpOf(s: Session, op: SendOp)
    requires WfSession(s)
  {
    match op
    case Enqueue(pkts) => QueueOf(s, pkts)
    case Flush(link) => LinkOf(s, link)
  }

  lemma FlushKeeps(s: Session, w: SendWorld, link: Link)
    requires WfSession(s) && Protected(s) && SenderInv(s, w) && LinkOf(s, link) && WfQueue(w.sender, link.mtu)
    ensures SenderInv(s, StepSend(w, Flush(link)))
  {
    DrainLegit(s, w.sender, link);
    var d := DrainQueue(w.sender, link);
    var t := With(s, d.sender);
    WithKeepsLink(s, d.sender, link);
    PackedEmitted(t, OrNone(d.sent), link);
    forall j | 0 <= j < |w.sender.compacted|
      ensures Emitted(t, w.sender.compacted[j])
    {
      EmittedMono(With(s, w.sender), t.released, w.sender.compacted[j]);
    }
  }

  lemma {:induction false} SenderRunKeeps(s: Session, w: SendWorld, ops: seq<SendOp>)
    requires WfSession(s) && Protected(s) && SenderInv(s, w) && CanRun(w, ops)
    requires forall j :: 0 <= j < |ops| ==> SendOpOf(s, ops[j])
    ensures SenderInv(s, RunSend(w, ops))
    decreases |ops|
  {
    if ops != [] {
      assert SendOpOf(s, ops[0]);
      if ops[0].Flush? {
        FlushKeeps(s, w, ops[0].link);
      }
      SenderRunKeeps(s, StepSend(w, ops[0]), ops[1..]);
    }
  }

  /** The network delivers only what the sender emitted. */
  ghost predicate DeliversFrom(compacted: seq<Bytes>, s: Session, ops: seq<NetOp>) {
    forall j :: 0 <= j < |ops| ==>
      match ops[j]
      case Deliver(d, _) => d in compacted
      case CacheOwn(item) => item.isClient != s.fromClient
      case _ => true
  }

  /**
   A sender flushes any packets of its handshake, with retransmissions and failures in between;
   the network delivers any of its datagrams, any number of times, in any order.  Then the receiver
   takes a gap-free, in-order prefix of the messages, each byte for byte the copy in the sender's
   own cache, caches nothing else under the sender's name, and caches all it takes that parses.
   */
  lemma SentIsTaken(s: Session, sends: seq<SendOp>, ops: seq<NetOp>)
    requires WfSession(s) && Protected(s) && CanRun(SendWorld(IDLE.(isClient := s.fromClient), []), sends)
    requires forall j :: 0 <= j < |sends| ==> SendOpOf(s, sends[j])
    requires DeliversFrom(RunSend(SendWorld(IDLE.(isClient := s.fromClient), []), sends).sender.compacted, s, ops)
    ensures var sender := RunSend(SendWorld(IDLE.(isClient := s.fromClient), []), sends).sender;
            var r := RunNetwork(s, NewReceiver(!s.fromClient), ops);
            && |r.popped| <= |s.msgs|
            && (forall i :: 0 <= i < |r.popped| ==>
                  SenderItem(s, i) in sender.cache && r.popped[i] == (SenderItem(s, i).data, s.epochs[i]))
            && CachedCopies(s, r.cache, |r.popped|) && TakenAreCached(s, r.cache, |r.popped|)
  {
    var w0 := SendWorld(IDLE.(isClient := s.fromClient), []);
    SenderRunKeeps(s, w0, sends);
    var sender := RunSend(w0, sends).sender;
    var t := With(s, sender);
    NetworkIsPossible(t, sender.compacted, ops);
    EndToEndDelivery(t, ops);
    SameNetwork(s, t, NewReceiver(!s.fromClient), ops);
    var r := RunNetwork(s, NewReceiver(!s.fromClient), ops);
    forall i | 0 <= i < |r.popped|
      ensures SenderItem(s, i) in sender.cache
    {
      assert i in t.released;
      var j :| 0 <= j < |sender.cache| && sender.cache[j].isClient == s.fromClient
        && sender.cache[j].messageSequence as nat == i;
    }
  }

  lemma NetworkIsPossible(t: Session, compacted: seq<Bytes>, ops: seq<NetOp>)
    requires WfSession(t) && AllEmitted(t, compacted) && DeliversFrom(compacted, t, ops)
    ensures PossibleRun(t, ops)
  {
  }

  lemma {:induction false} SameNetwork(s: Session, t: Session, r: Receiver, ops: seq<NetOp>)
    requires s.keys == t.keys
    ensures RunNetwork(s, r, ops) == RunNetwork(t, r, ops)
    decreases |ops|
  {
    if ops != [] {
      SameNetwork(s, t, Receive(s, r, ops[0]), ops[1..]);
    }
  }
}
