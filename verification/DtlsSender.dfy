/**
 The sending side of a DTLS connection (rtc-dtls/src/conn/mod.rs:243-386): handshake packets are
 cached and cut into fragments, every record takes the next number of its epoch, and the raw
 records are packed into datagrams.
 */
module DtlsSender {
  import opened Bytes
  import opened DtlsRecord
  import opened DtlsFragment
  import opened DtlsDelivery
  import Cache = DtlsCache

  /** A packet to send; `encrypt` is the source's `should_encrypt`. */
  datatype Packet =
    | HandshakePacket(message: Message, epoch: U16, encrypt: bool)
    | OtherPacket(contentType: ContentType, content: Bytes, epoch: U16, encrypt: bool)

  /** The transport a connection writes to: its MTU and its record protection, which may fail. */
  datatype Link = Link(mtu: nat, protect: Sent -> Option<Bytes>, nonce: nat -> nat)

  /** Lengths stay within the fields that carry them. */
  ghost predicate WfPacket(p: Packet, mtu: nat) {
    match p
    case HandshakePacket(m, _, _) => |m.body| < 0x100_0000 && (mtu < 0xFFF4 || |m.body| < 0xFFF4)
    case OtherPacket(_, content, _, _) => |content| < 0x1_0000
  }

  datatype Sender = Sender(
    isClient: bool,
    local: seq<nat>,
    outgoing: seq<Packet>,
    cache: seq<Cache.Item>,
    compacted: seq<Bytes>)

  /** Counters for epochs 0 to `epoch` at least. */
  ghost function Padded(local: seq<nat>, epoch: nat): (r: seq<nat>)
    ensures |r| > epoch && local <= r
    ensures forall e :: |local| <= e < |r| ==> r[e] == 0
    decreases epoch + 1 - |local|
  {
    if |local| > epoch then local else Padded(local + [0], epoch)
  }

  /** Outcome of numbering some records: the counters and, unless something failed, the records. */
  datatype Numbered = Numbered(local: seq<nat>, sent: Option<seq<Sent>>)

  /** `done` in front of what follows, unless that failed. */
  ghost function Prefix(done: seq<Sent>, rest: Option<seq<Sent>>): Option<seq<Sent>> {
    if rest == None then None else Some(done + rest.value)
  }

  lemma PrefixNothing(rest: Option<seq<Sent>>)
    ensures Prefix([], rest) == rest
  {
    if rest.Some? {
      assert [] + rest.value == rest.value;
    }
  }

  lemma PrefixTwice(a: seq<Sent>, b: seq<Sent>, rest: Option<seq<Sent>>)
    ensures Prefix(a, Prefix(b, rest)) == Prefix(a + b, rest)
  {
    if rest.Some? {
      assert a + (b + rest.value) == a + b + rest.value;
    }
  }

  /** What the records of one packet have in common. */
  datatype Kind = Kind(contentType: ContentType, epoch: U16, encrypt: bool)

  ghost function NumberAll(local: seq<nat>, kind: Kind, contents: seq<Bytes>, link: Link): Numbered
    requires kind.epoch < |local|
    decreases |contents|
  {
    if contents == [] then Numbered(local, Some([]))
    else
      var n := local[kind.epoch];
      var local' := local[kind.epoch := n + 1];
      var x := Sent(kind.contentType, kind.epoch, n, contents[0], link.nonce(n), kind.encrypt);
      if n > MAX_SEQUENCE_NUMBER || link.protect(x) == None then Numbered(local', None)
      else
        var rest := NumberAll(local', kind, contents[1..], link);
        Numbered(rest.local, Prefix([x], rest.sent))
  }

  ghost function Contents(p: Packet, mtu: nat): seq<Bytes>
    requires mtu > 0 && WfPacket(p, mtu)
  {
    match p
    case OtherPacket(_, content, _, _) => [content]
    case HandshakePacket(m, _, _) => FragmentContents(m, Pieces(m.body, mtu, 0), mtu)
  }

  ghost function FragmentContents(m: Message, ps: seq<Piece>, mtu: nat): (r: seq<Bytes>)
    requires |m.body| < 0x100_0000
    ensures |r| == |ps|
    ensures forall i :: 0 <= i < |r| && ps[i].offset + |ps[i].data| <= |m.body| ==> r[i] == FragmentBytes(m, ps[i])
  {
    if ps == [] then []
    else
      [if ps[0].offset + |ps[0].data| <= |m.body| then FragmentBytes(m, ps[0]) else []]
        + FragmentContents(m, ps[1..], mtu)
  }

  function KindOf(p: Packet): Kind {
    Kind(if p.HandshakePacket? then Handshake else p.contentType, p.epoch, p.encrypt)
  }

  ghost function NumberPacket(local: seq<nat>, p: Packet, link: Link): Numbered
    requires link.mtu > 0 && WfPacket(p, link.mtu)
  {
    NumberAll(Padded(local, p.epoch), KindOf(p), Contents(p, link.mtu), link)
  }

  ghost function Cached(cache: seq<Cache.Item>, p: Packet, isClient: bool): seq<Cache.Item>
    requires p.HandshakePacket? ==> |p.message.body| < 0x100_0000
  {
    match p
    case OtherPacket(_, _, _, _) => cache
    case HandshakePacket(m, epoch, _) =>
      Cache.Pushed(cache, Cache.Item(m.typ, isClient, epoch, m.sequence, FullBytes(m)))
  }

  /** Emptying the queue: the first failure drops everything numbered in this call. */
  datatype Drained = Drained(sender: Sender, sent: Option<seq<Sent>>)

  ghost predicate WfQueue(s: Sender, mtu: nat) {
    mtu > 0 && forall i :: 0 <= i < |s.outgoing| ==> WfPacket(s.outgoing[i], mtu)
  }

  /** The head of the queue: cached if it is a handshake, then numbered. */
  ghost function SendFirst(s: Sender, link: Link): Drained
    requires WfQueue(s, link.mtu) && s.outgoing != []
  {
    var p := s.outgoing[0];
    var n := NumberPacket(s.local, p, link);
    Drained(s.(local := n.local, outgoing := s.outgoing[1..], cache := Cached(s.cache, p, s.isClient)), n.sent)
  }

  ghost function DrainQueue(s: Sender, link: Link): Drained
    requires WfQueue(s, link.mtu)
    decreases |s.outgoing|
  {
    if s.outgoing == [] then Drained(s, Some([]))
    else
      var first := SendFirst(s, link);
      if first.sent == None then first
      else
        var rest := DrainQueue(first.sender, link);
        Drained(rest.sender, Prefix(first.sent.value, rest.sent))
  }

  /** The wire form of records that were protected. */
  ghost function Raws(sent: seq<Sent>, link: Link): (r: seq<Bytes>)
    ensures |r| == |sent|
    ensures forall i :: 0 <= i < |r| && link.protect(sent[i]).Some? ==> r[i] == link.protect(sent[i]).value
  {
    if sent == [] then []
    else (match link.protect(sent[0]) case None => [[]] case Some(w) => [w]) + Raws(sent[1..], link)
  }

  ghost function Flushed(s: Sender, link: Link): (Sender, seq<Sent>)
    requires WfQueue(s, link.mtu)
  {
    var d := DrainQueue(s, link);
    match d.sent
    case None => (d.sender, [])
    case Some(sent) =>
      (d.sender.(compacted := d.sender.compacted + Joined(Groups(Raws(sent, link), link.mtu, []))), sent)
  }

  class Conn {
    const isClient: bool
    const cache: Cache.HandshakeCache
    var local: seq<nat>
    var outgoing: seq<Packet>
    var compacted: seq<Bytes>

    ghost function State(): Sender
      reads this, cache
    {
      Sender(isClient, local, outgoing, cache.cache, compacted)
    }

    constructor (isClient: bool)
      ensures State() == Sender(isClient, [], [], [], []) && fresh(cache)
    {
      this.isClient := isClient;
      local, outgoing, compacted := [], [], [];
      cache := new Cache.HandshakeCache();
    }

    method WritePackets(pkts: seq<Packet>)
      modifies this`outgoing
      ensures State() == old(State()).(outgoing := old(outgoing) + pkts)
    {
      var i := 0;
      while i < |pkts|
        invariant 0 <= i <= |pkts|
        invariant outgoing == old(outgoing) + pkts[..i]
      {
        outgoing := outgoing + [pkts[i]];
        i := i + 1;
      }
    }

    method PadCounters(epoch: nat)
      modifies this`local
      ensures local == Padded(old(local), epoch)
    {
      while |local| <= epoch
        invariant Padded(local, epoch) == Padded(old(local), epoch)
        decreases epoch + 1 - |local|
      {
        local := local + [0];
      }
    }

    /** Takes the next record number of the epoch for each content, protects the record and collects it. */
    method NumberRecords(kind: Kind, contents: seq<Bytes>, link: Link)
      returns (raws: Option<seq<Bytes>>, ghost sent: Option<seq<Sent>>)
      requires kind.epoch < |local|
      modifies this`local
      ensures Numbered(local, sent) == NumberAll(old(local), kind, contents, link)
      ensures raws == if sent.Some? then Some(Raws(sent.value, link)) else None
    {
      var out: seq<Bytes> := [];
      ghost var done: seq<Sent> := [];
      var i := 0;
      assert contents[i..] == contents;
      PrefixNothing(NumberAll(local, kind, contents, link).sent);
      while i < |contents|
        invariant 0 <= i <= |contents| && kind.epoch < |local|
        invariant Follows(NumberAll(old(local), kind, contents, link), done,
                          NumberAll(local, kind, contents[i..], link))
        invariant out == Raws(done, link)
      {
        assert contents[i..][0] == contents[i] && contents[i..][1..] == contents[i + 1..];
        var n := local[kind.epoch];
        local := local[kind.epoch := n + 1];
        if n > MAX_SEQUENCE_NUMBER {
          return None, None;
        }
        var x := Sent(kind.contentType, kind.epoch, n, contents[i], link.nonce(n), kind.encrypt);
        var w := link.protect(x);
        if w == None {
          return None, None;
        }
        RawsSnoc(done, x, link);
        PrefixTwice(done, [x], NumberAll(local, kind, contents[i + 1..], link).sent);
        out := out + [w.value];
        done := done + [x];
        i := i + 1;
      }
      assert contents[i..] == [] && done + [] == done;
      raws, sent := Some(out), Some(done);
    }

    method ProcessPacket(p: Packet, link: Link) returns (raws: Option<seq<Bytes>>, ghost sent: Option<seq<Sent>>)
      requires link.mtu > 0 && WfPacket(p, link.mtu)
      modifies this`local
      ensures Numbered(local, sent) == NumberPacket(old(local), p, link)
      ensures raws == if sent.Some? then Some(Raws(sent.value, link)) else None
    {
      match p {
        case OtherPacket(_, content, epoch, _) =>
          PadCounters(epoch);
          raws, sent := NumberRecords(KindOf(p), [content], link);
        case HandshakePacket(m, epoch, _) =>
          var fragments := FragmentHandshake(link.mtu, m);
          assert fragments == Contents(p, link.mtu);
          PadCounters(epoch);
          raws, sent := NumberRecords(KindOf(p), fragments, link);
      }
    }

    method ProcessFirst(link: Link) returns (raws: Option<seq<Bytes>>, ghost sent: Option<seq<Sent>>)
      requires WfQueue(State(), link.mtu) && outgoing != []
      modifies this`local, this`outgoing, cache
      ensures Drained(State(), sent) == SendFirst(old(State()), link)
      ensures raws == if sent.Some? then Some(Raws(sent.value, link)) else None
    {
      var p := outgoing[0];
      assert WfPacket(p, link.mtu);
      outgoing := outgoing[1..];
      if p.HandshakePacket? {
        var _ := cache.Push(Cache.Item(p.message.typ, isClient, p.epoch, p.message.sequence, FullBytes(p.message)));
      }
      raws, sent := ProcessPacket(p, link);
    }

    method HandleOutgoingPackets(link: Link) returns (ok: bool, ghost sent: seq<Sent>)
      requires WfQueue(State(), link.mtu)
      modifies this, cache
      ensures (State(), sent) == Flushed(old(State()), link)
      ensures ok <==> DrainQueue(old(State()), link).sent.Some?
    {
      sent := [];
      var rawPackets: seq<Bytes> := [];
      PrefixNothing(DrainQueue(State(), link).sent);
      hide Groups, SendFirst;
      while outgoing != []
        invariant WfQueue(State(), link.mtu)
        invariant After(DrainQueue(old(State()), link), sent, DrainQueue(State(), link))
        invariant rawPackets == Raws(sent, link)
        decreases |outgoing|
      {
        ghost var before := State();
        ghost var records: Option<seq<Sent>>;
        var raws;
        raws, records := ProcessFirst(link);
        assert WfQueue(State(), link.mtu);
        if raws == None {
          return false, [];
        }
        RawsAppend(sent, records.value, link);
        PrefixTwice(sent, records.value, DrainQueue(State(), link).sent);
        rawPackets := rawPackets + raws.value;
        sent := sent + records.value;
      }
      assert sent + [] == sent;
      assert DrainQueue(old(State()), link) == Drained(State(), Some(sent));
      if rawPackets != [] {
        var datagrams := CompactRawPackets(rawPackets, link.mtu);
        compacted := compacted + datagrams;
      } else {
        assert Joined(Groups(rawPackets, link.mtu, [])) == [] && compacted + [] == compacted;
      }
      ok := true;
    }
  }

  /** `whole` is what numbering gives when `done` came first and `rest` is the remainder. */
  ghost predicate Follows(whole: Numbered, done: seq<Sent>, rest: Numbered) {
    whole == Numbered(rest.local, Prefix(done, rest.sent))
  }

  ghost predicate After(whole: Drained, done: seq<Sent>, rest: Drained) {
    whole == Drained(rest.sender, Prefix(done, rest.sent))
  }

  lemma {:induction false} RawsAppend(a: seq<Sent>, b: seq<Sent>, link: Link)
    ensures Raws(a + b, link) == Raws(a, link) + Raws(b, link)
  {
    if a == [] {
      assert a + b == b;
    } else {
      assert (a + b)[1..] == a[1..] + b;
      RawsAppend(a[1..], b, link);
    }
  }

  lemma RawsSnoc(a: seq<Sent>, x: Sent, link: Link)
    requires link.protect(x).Some?
    ensures Raws(a + [x], link) == Raws(a, link) + [link.protect(x).value]
  {
    RawsAppend(a, [x], link);
    assert [x][1..] == [];
  }

  // ---------------------------------------------------------------- record numbers

  ghost function At(local: seq<nat>, epoch: nat): nat {
    if epoch < |local| then local[epoch] else 0
  }

  ghost predicate Grows(a: seq<nat>, b: seq<nat>) {
    |a| <= |b| && forall e :: 0 <= e < |a| ==> a[e] <= b[e]
  }

  /** Within an epoch numbers strictly increase along the list. */
  ghost predicate Increasing(xs: seq<Sent>) {
    forall i, j :: 0 <= i < j < |xs| && xs[i].epoch == xs[j].epoch ==> xs[i].number < xs[j].number
  }

  /** The record's number was taken while its epoch's counter moved from `a` to `b`. */
  ghost predicate Taken(a: seq<nat>, b: seq<nat>, x: Sent) {
    At(a, x.epoch) <= x.number < At(b, x.epoch) && x.number <= MAX_SEQUENCE_NUMBER
  }

  ghost predicate AllTaken(a: seq<nat>, b: seq<nat>, xs: seq<Sent>) {
    Increasing(xs) && forall i :: 0 <= i < |xs| ==> Taken(a, b, xs[i])
  }

  lemma GrowsAt(a: seq<nat>, b: seq<nat>, e: nat)
    requires Grows(a, b)
    ensures At(a, e) <= At(b, e)
  {
  }

  lemma AllTakenAppend(a: seq<nat>, b: seq<nat>, c: seq<nat>, xs: seq<Sent>, ys: seq<Sent>)
    requires Grows(a, b) && Grows(b, c) && AllTaken(a, b, xs) && AllTaken(b, c, ys)
    ensures AllTaken(a, c, xs + ys)
  {
    var zs := xs + ys;
    forall i | 0 <= i < |zs|
      ensures Taken(a, c, zs[i])
    {
      GrowsAt(a, b, zs[i].epoch);
      GrowsAt(b, c, zs[i].epoch);
      if i < |xs| {
        assert Taken(a, b, xs[i]);
      } else {
        assert Taken(b, c, ys[i - |xs|]);
      }
    }
    forall i, j | 0 <= i < j < |zs| && zs[i].epoch == zs[j].epoch
      ensures zs[i].number < zs[j].number
    {
      if i < |xs| <= j {
        assert Taken(a, b, xs[i]) && Taken(b, c, ys[j - |xs|]);
      } else if j < |xs| {
        assert xs[i].number < xs[j].number;
      } else {
        assert ys[i - |xs|].number < ys[j - |xs|].number;
      }
    }
  }

  ghost function OrNone(sent: Option<seq<Sent>>): seq<Sent> {
    if sent.Some? then sent.value else []
  }

  lemma {:induction false} NumberAllTaken(local: seq<nat>, kind: Kind, contents: seq<Bytes>, link: Link)
    requires kind.epoch < |local|
    ensures var n := NumberAll(local, kind, contents, link);
            Grows(local, n.local) && AllTaken(local, n.local, OrNone(n.sent))
    decreases |contents|
  {
    if contents != [] {
      var k := local[kind.epoch];
      var local' := local[kind.epoch := k + 1];
      var x := Sent(kind.contentType, kind.epoch, k, contents[0], link.nonce(k), kind.encrypt);
      if k <= MAX_SEQUENCE_NUMBER && link.protect(x).Some? {
        NumberAllTaken(local', kind, contents[1..], link);
        var rest := NumberAll(local', kind, contents[1..], link);
        assert AllTaken(local, local', [x]);
        AllTakenAppend(local, local', rest.local, [x], OrNone(rest.sent));
      }
    }
  }

  lemma NumberPacketTaken(local: seq<nat>, p: Packet, link: Link)
    requires link.mtu > 0 && WfPacket(p, link.mtu)
    ensures var n := NumberPacket(local, p, link);
            Grows(local, n.local) && AllTaken(local, n.local, OrNone(n.sent))
  {
    var padded := Padded(local, p.epoch);
    NumberAllTaken(padded, KindOf(p), Contents(p, link.mtu), link);
    var n := NumberPacket(local, p, link);
    forall i | 0 <= i < |OrNone(n.sent)|
      ensures Taken(local, n.local, OrNone(n.sent)[i])
    {
      assert Taken(padded, n.local, OrNone(n.sent)[i]);
    }
  }

  lemma {:induction false} DrainTaken(s: Sender, link: Link)
    requires WfQueue(s, link.mtu)
    ensures var d := DrainQueue(s, link);
            Grows(s.local, d.sender.local) && AllTaken(s.local, d.sender.local, OrNone(d.sent))
    decreases |s.outgoing|
  {
    if s.outgoing != [] {
      NumberPacketTaken(s.local, s.outgoing[0], link);
      var first := SendFirst(s, link);
      if first.sent.Some? {
        DrainTaken(first.sender, link);
        var rest := DrainQueue(first.sender, link);
        AllTakenAppend(s.local, first.sender.local, rest.sender.local, first.sent.value, OrNone(rest.sent));
      }
    }
  }

  // ---------------------------------------------------------------- runs of the sender

  /** A sender and every record it has emitted. */
  datatype SendWorld = SendWorld(sender: Sender, log: seq<Sent>)

  datatype SendOp = Enqueue(pkts: seq<Packet>) | Flush(link: Link)

  ghost predicate CanSend(w: SendWorld, op: SendOp) {
    op.Flush? ==> WfQueue(w.sender, op.link.mtu)
  }

  ghost function StepSend(w: SendWorld, op: SendOp): SendWorld
    requires CanSend(w, op)
  {
    match op
    case Enqueue(pkts) => w.(sender := w.sender.(outgoing := w.sender.outgoing + pkts))
    case Flush(link) =>
      var (s, sent) := Flushed(w.sender, link);
      SendWorld(s, w.log + sent)
  }

  ghost predicate CanRun(w: SendWorld, ops: seq<SendOp>)
    decreases |ops|
  {
    ops == [] || (CanSend(w, ops[0]) && CanRun(StepSend(w, ops[0]), ops[1..]))
  }

  ghost function RunSend(w: SendWorld, ops: seq<SendOp>): SendWorld
    requires CanRun(w, ops)
    decreases |ops|
  {
    if ops == [] then w else RunSend(StepSend(w, ops[0]), ops[1..])
  }

  const IDLE := Sender(true, [], [], [], [])

  lemma {:induction false} RunTaken(w: SendWorld, ops: seq<SendOp>)
    requires CanRun(w, ops) && AllTaken([], w.sender.local, w.log)
    ensures AllTaken([], RunSend(w, ops).sender.local, RunSend(w, ops).log)
    decreases |ops|
  {
    if ops != [] {
      if ops[0].Flush? {
        DrainTaken(w.sender, ops[0].link);
        var d := DrainQueue(w.sender, ops[0].link);
        AllTakenAppend([], w.sender.local, d.sender.local, w.log, OrNone(d.sent));
      }
      RunTaken(StepSend(w, ops[0]), ops[1..]);
    }
  }

  /**
   Over any run of sends, retransmissions and failures, emitted records never repeat an
   (epoch, number) pair: numbers strictly increase within each epoch and stay below 2^48.
   */
  lemma RecordNumbersNeverRepeat(isClient: bool, ops: seq<SendOp>, i: nat, j: nat)
    requires CanRun(SendWorld(IDLE.(isClient := isClient), []), ops)
    requires i < j < |RunSend(SendWorld(IDLE.(isClient := isClient), []), ops).log|
    ensures var log := RunSend(SendWorld(IDLE.(isClient := isClient), []), ops).log;
            && log[i].number <= MAX_SEQUENCE_NUMBER && log[j].number <= MAX_SEQUENCE_NUMBER
            && (log[i].epoch == log[j].epoch ==> log[i].number < log[j].number)
  {
    RunTaken(SendWorld(IDLE.(isClient := isClient), []), ops);
    var w := RunSend(SendWorld(IDLE.(isClient := isClient), []), ops);
    assert Taken([], w.sender.local, w.log[i]) && Taken([], w.sender.local, w.log[j]);
  }
}
