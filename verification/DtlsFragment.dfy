/**
 Cutting handshake messages into fragments (rtc-dtls/src/conn/mod.rs:388-431, 805-818) and
 reassembling them (rtc-dtls/src/fragment_buffer/mod.rs).
 */
module DtlsFragment {
  import opened Bytes
  import opened DtlsRecord

  /** A handshake message: its header's length is the length of its marshalled body. */
  datatype Message = Message(typ: HandshakeType, sequence: U16, body: Bytes)

  ghost predicate WfMessage(m: Message) {
    |m.body| < 0x100_0000
  }

  /** The unfragmented form: what the sender caches and what reassembly must give back. */
  function FullBytes(m: Message): Bytes
    requires |m.body| < 0x100_0000
  {
    EncodeHandshakeHeader(HandshakeHeader(m.typ, |m.body|, m.sequence, 0, |m.body|)) + m.body
  }

  /** A stretch of a message body and where it starts. */
  datatype Piece = Piece(offset: nat, data: Bytes)

  /** The pieces of `body` from `at` on, each `mtu` bytes but the last; an empty body has one empty piece. */
  function Pieces(body: Bytes, mtu: nat, at: nat): (r: seq<Piece>)
    requires mtu > 0 && at <= |body|
    ensures r != [] && r[0].offset == at
    decreases |body| - at
  {
    if at + mtu >= |body| then [Piece(at, body[at..])]
    else [Piece(at, body[at..at + mtu])] + Pieces(body, mtu, at + mtu)
  }

  function Datas(ps: seq<Piece>): (r: seq<Bytes>)
    ensures |r| == |ps|
    ensures forall i :: 0 <= i < |r| ==> r[i] == ps[i].data
  {
    if ps == [] then [] else [ps[0].data] + Datas(ps[1..])
  }

  /** Every piece lies in the body, is a true copy and is no longer than the MTU. */
  lemma {:induction false} PiecesWithin(body: Bytes, mtu: nat, at: nat)
    requires mtu > 0 && at <= |body|
    ensures forall p :: p in Pieces(body, mtu, at) ==>
              && at <= p.offset && p.offset + |p.data| <= |body|
              && p.data == body[p.offset..p.offset + |p.data|]
              && |p.data| <= mtu
              && (p.data == [] ==> body[at..] == [])
    decreases |body| - at
  {
    if at + mtu < |body| {
      PiecesWithin(body, mtu, at + mtu);
    }
  }

  /** The pieces, one after the other, are the body. */
  lemma {:induction false} PiecesCover(body: Bytes, mtu: nat, at: nat)
    requires mtu > 0 && at <= |body|
    ensures Flatten(Datas(Pieces(body, mtu, at))) == body[at..]
    decreases |body| - at
  {
    if at + mtu < |body| {
      PiecesCover(body, mtu, at + mtu);
      assert Datas(Pieces(body, mtu, at))[1..] == Datas(Pieces(body, mtu, at + mtu));
      assert body[at..] == body[at..at + mtu] + body[at + mtu..];
    } else {
      assert Datas(Pieces(body, mtu, at))[1..] == [];
    }
  }

  function FragmentHeader(m: Message, p: Piece): HandshakeHeader
    requires |m.body| < 0x100_0000 && p.offset + |p.data| <= |m.body|
  {
    HandshakeHeader(m.typ, |m.body|, m.sequence, p.offset, |p.data|)
  }

  function FragmentBytes(m: Message, p: Piece): Bytes
    requires |m.body| < 0x100_0000 && p.offset + |p.data| <= |m.body|
  {
    EncodeHandshakeHeader(FragmentHeader(m, p)) + p.data
  }

  /** The stretches of `bytes` from `at` on, without their offsets. */
  function Cuts(bytes: Bytes, len: nat, at: nat): seq<Bytes>
    requires len > 0 && at <= |bytes|
    decreases |bytes| - at
  {
    if at + len >= |bytes| then [bytes[at..]] else [bytes[at..at + len]] + Cuts(bytes, len, at + len)
  }

  lemma {:induction false} CutsAreDatas(bytes: Bytes, len: nat, at: nat)
    requires len > 0 && at <= |bytes|
    ensures Datas(Pieces(bytes, len, at)) == Cuts(bytes, len, at)
    decreases |bytes| - at
  {
    if at + len < |bytes| {
      CutsAreDatas(bytes, len, at + len);
    }
  }

  method SplitBytes(bytes: Bytes, splitLen: nat) returns (splits: seq<Bytes>)
    requires splitLen > 0
    ensures splits == if bytes == [] then [] else Cuts(bytes, splitLen, 0)
  {
    splits := [];
    var i := 0;
    while i < |bytes|
      invariant 0 <= i
      invariant i < |bytes| ==> Cuts(bytes, splitLen, 0) == splits + Cuts(bytes, splitLen, i)
      invariant i >= |bytes| ==> splits == if bytes == [] then [] else Cuts(bytes, splitLen, 0)
    {
      var j := i + splitLen;
      if j > |bytes| {
        j := |bytes|;
      }
      assert j == |bytes| ==> bytes[i..j] == bytes[i..];
      splits := splits + [bytes[i..j]];
      i := i + splitLen;
    }
  }

  ghost predicate IsFragment(b: Bytes, m: Message, p: Piece)
    requires |m.body| < 0x100_0000
  {
    p.offset + |p.data| <= |m.body| && b == FragmentBytes(m, p)
  }

  ghost predicate FragmentsOf(out: seq<Bytes>, m: Message, ps: seq<Piece>)
    requires |m.body| < 0x100_0000
  {
    |out| == |ps| && forall i :: 0 <= i < |ps| ==> IsFragment(out[i], m, ps[i])
  }

  /** The stretches of a body, one and empty for an empty body, are the data of its pieces. */
  lemma PartsOfPieces(body: Bytes, mtu: nat)
    requires mtu > 0
    ensures Datas(Pieces(body, mtu, 0)) == if body == [] then [[]] else Cuts(body, mtu, 0)
    ensures Pieces(body, mtu, 0) != [] && Pieces(body, mtu, 0)[0].offset == 0
  {
    CutsAreDatas(body, mtu, 0);
    assert body[0..] == body;
  }

  lemma CutsNotEmpty(body: Bytes, mtu: nat)
    requires mtu > 0
    ensures Cuts(body, mtu, 0) != []
  {
  }

  lemma OneMoreFragment(out: seq<Bytes>, m: Message, ps: seq<Piece>, i: nat)
    requires |m.body| < 0x100_0000 && i < |ps| && |out| == i && FragmentsOf(out, m, ps[..i])
    requires ps[i].offset + |ps[i].data| <= |m.body|
    ensures FragmentsOf(out + [FragmentBytes(m, ps[i])], m, ps[..i + 1])
  {
    hide FragmentBytes;
    var more := out + [FragmentBytes(m, ps[i])];
    forall k | 0 <= k <= i
      ensures IsFragment(more[k], m, ps[..i + 1][k])
    {
      if k < i {
        assert IsFragment(out[k], m, ps[..i][k]);
      }
    }
  }

  method FragmentHandshake(mtu: nat, m: Message) returns (out: seq<Bytes>)
    requires mtu > 0 && |m.body| < 0x100_0000
    ensures FragmentsOf(out, m, Pieces(m.body, mtu, 0))
  {
    out := [];
    var parts := SplitBytes(m.body, mtu);
    PartsOfPieces(m.body, mtu);
    CutsNotEmpty(m.body, mtu);
    if parts == [] {
      parts := [[]];
    }
    ghost var ps := Pieces(m.body, mtu, 0);
    assert FragmentsOf(out, m, ps[..0]);
    hide Pieces, FragmentBytes, FragmentsOf, Cuts;
    var offset := 0;
    var i := 0;
    while i < |parts|
      invariant 0 <= i <= |parts| == |ps|
      invariant i < |parts| ==> offset == ps[i].offset
      invariant |out| == i && FragmentsOf(out, m, ps[..i])
    {
      PieceFits(m.body, mtu, i);
      OneMoreFragment(out, m, ps, i);
      var piece := Piece(offset, parts[i]);
      assert piece == ps[i];
      offset := offset + |parts[i]|;
      out := out + [FragmentBytes(m, piece)];
      i := i + 1;
    }
    assert ps[..i] == ps;
  }

  lemma PieceFits(body: Bytes, mtu: nat, i: nat)
    requires mtu > 0 && i < |Pieces(body, mtu, 0)|
    ensures var ps := Pieces(body, mtu, 0);
            var end := ps[i].offset + |ps[i].data|;
            end <= |body| && (i + 1 < |ps| ==> end == ps[i + 1].offset)
  {
    PiecesWithin(body, mtu, 0);
    PiecesAdjacent(body, mtu, 0, i);
    assert Pieces(body, mtu, 0)[i] in Pieces(body, mtu, 0);
  }

  lemma {:induction false} PiecesAdjacent(body: Bytes, mtu: nat, at: nat, i: nat)
    requires mtu > 0 && at <= |body| && i < |Pieces(body, mtu, at)|
    ensures var ps := Pieces(body, mtu, at);
            var end := ps[i].offset + |ps[i].data|;
            if i + 1 < |ps| then end == ps[i + 1].offset else end == |body|
    decreases i
  {
    if i > 0 {
      PiecesAdjacent(body, mtu, at + mtu, i - 1);
    }
  }

  // ---------------------------------------------------------------- fragment buffer

  const FRAGMENT_BUFFER_MAX_SIZE := 2_000_000

  datatype Fragment = Fragment(epoch: U16, header: HandshakeHeader, data: Bytes)

  type Cache = map<U16, seq<Fragment>>

  datatype BufferState = BufferState(cache: Cache, current: U16)

  const NEW_BUFFER := BufferState(map[], 0)

  function DataSize(frags: seq<Fragment>): nat {
    if frags == [] then 0 else |frags[0].data| + DataSize(frags[1..])
  }

  lemma {:induction false} DataSizeSnoc(frags: seq<Fragment>, f: Fragment)
    ensures DataSize(frags + [f]) == DataSize(frags) + |f.data|
  {
    if frags != [] {
      assert (frags + [f])[1..] == frags[1..] + [f];
      DataSizeSnoc(frags[1..], f);
    }
  }

  /** Total of buffered data over all messages. */
  ghost function CacheSize(cache: Cache): nat {
    if cache == map[] then 0
    else
      var q :| q in cache;
      DataSize(cache[q]) + CacheSize(cache - {q})
  }

  /** The sum does not depend on the order in which the map is walked. */
  lemma {:induction false} CacheSizeAt(cache: Cache, q: U16)
    requires q in cache
    ensures CacheSize(cache) == DataSize(cache[q]) + CacheSize(cache - {q})
    decreases |cache|
  {
    var p :| p in cache && CacheSize(cache) == DataSize(cache[p]) + CacheSize(cache - {p});
    if p != q {
      CacheSizeAt(cache - {p}, q);
      CacheSizeAt(cache - {q}, p);
      assert cache - {p} - {q} == cache - {q} - {p};
    }
  }

  function Add(cache: Cache, f: Fragment): Cache {
    var q := f.header.messageSequence;
    cache[q := (if q in cache then cache[q] else []) + [f]]
  }

  lemma AddSize(cache: Cache, f: Fragment)
    ensures CacheSize(Add(cache, f)) == CacheSize(cache) + |f.data|
  {
    var q := f.header.messageSequence;
    var more := Add(cache, f);
    CacheSizeAt(more, q);
    assert more - {q} == cache - {q};
    if q in cache {
      CacheSizeAt(cache, q);
      DataSizeSnoc(cache[q], f);
    } else {
      assert cache - {q} == cache;
      DataSizeSnoc([], f);
    }
  }

  /** Where the first handshake of `buf` ends: its header plus its full length, cut at the buffer's end. */
  function EndOf(h: HandshakeHeader, buf: Bytes): (end: nat)
    requires |buf| >= HANDSHAKE_HEADER_LENGTH
    ensures HANDSHAKE_HEADER_LENGTH <= end <= |buf|
  {
    var end := HANDSHAKE_HEADER_LENGTH + h.length;
    if end > |buf| then |buf| else end
  }

  /** The handshakes of one record, added one after the other; a broken header stops the walk. */
  ghost function AddAll(cache: Cache, epoch: U16, buf: Bytes): (Cache, Result<bool>)
    decreases |buf|
  {
    if buf == [] then (cache, Ok(true))
    else
      match DecodeHandshakeHeader(buf)
      case Err(e) => (cache, Err(e))
      case Ok(h) =>
        var end := EndOf(h, buf);
        AddAll(Add(cache, Fragment(epoch, h, buf[HANDSHAKE_HEADER_LENGTH..end])), epoch, buf[end..])
  }

  ghost function Pushed(s: BufferState, buf: Bytes): (BufferState, Result<bool>) {
    if CacheSize(s.cache) + |buf| >= FRAGMENT_BUFFER_MAX_SIZE then (s, Err(FragmentBufferOverflow))
    else
      match DecodeRecordHeader(buf)
      case Err(e) => (s, Err(e))
      case Ok(h) =>
        if h.contentType != Handshake then (s, Ok(false))
        else
          var (cache, r) := AddAll(s.cache, h.epoch, buf[RECORD_LAYER_HEADER_SIZE..]);
          (s.(cache := cache), r)
  }

  /** The first fragment that starts at `target`, if any. */
  function FirstAt(frags: seq<Fragment>, target: nat): (r: Option<Fragment>)
    ensures r.Some? ==> r.value in frags && r.value.header.fragmentOffset == target
    ensures r == None ==> forall f :: f in frags ==> f.header.fragmentOffset != target
  {
    if frags == [] then None
    else if frags[0].header.fragmentOffset == target then Some(frags[0])
    else FirstAt(frags[1..], target)
  }

  /** Bound on every offset a fragment can end at; offsets grow, so reassembly stops below it. */
  const OFFSET_BOUND := 0x200_0000

  ghost function Assemble(frags: seq<Fragment>, target: nat): Option<Bytes>
    requires target <= OFFSET_BOUND
    decreases OFFSET_BOUND - target
  {
    match FirstAt(frags, target)
    case None => None
    case Some(f) =>
      var end := f.header.fragmentOffset + f.header.fragmentLength;
      if end != f.header.length && f.header.fragmentLength != 0 then
        match Assemble(frags, end)
        case None => None
        case Some(rest) => Some(f.data + rest)
      else Some(f.data)
  }

  method AppendMessage(target: nat, frags: seq<Fragment>, raw: Bytes) returns (ok: bool, message: Bytes)
    requires target <= OFFSET_BOUND
    ensures ok <==> Assemble(frags, target).Some?
    ensures message == if ok then Assemble(frags, target).value + raw else raw
    decreases OFFSET_BOUND - target
  {
    message := raw;
    var i := 0;
    while i < |frags|
      invariant 0 <= i <= |frags|
      invariant FirstAt(frags, target) == FirstAt(frags[i..], target)
      invariant message == raw
    {
      var f := frags[i];
      assert frags[i..][0] == f && frags[i..][1..] == frags[i + 1..];
      if f.header.fragmentOffset == target {
        var end := f.header.fragmentOffset + f.header.fragmentLength;
        if end != f.header.length && f.header.fragmentLength != 0 {
          ok, message := AppendMessage(end, frags, message);
          if !ok {
            return;
          }
          assert f.data + Assemble(frags, end).value + raw == f.data + (Assemble(frags, end).value + raw);
        }
        message := f.data + message;
        ok := true;
        return;
      }
      i := i + 1;
    }
    ok := false;
  }

  /** What `pop` returns: the current message, whole, under a rewritten first header, and its epoch. */
  ghost function PopResult(s: BufferState): Result<(Bytes, U16)> {
    if s.current !in s.cache then Err(EmptyFragment)
    else
      var frags := s.cache[s.current];
      match Assemble(frags, 0)
      case None => Err(EmptyFragment)
      case Some(raw) =>
        assert frags != [];
        var h := frags[0].header.(fragmentOffset := 0, fragmentLength := frags[0].header.length);
        Ok((EncodeHandshakeHeader(h) + raw, frags[0].epoch))
  }

  ghost function Popped(s: BufferState): BufferState {
    if PopResult(s).Err? then s else BufferState(s.cache - {s.current}, (s.current + 1) % 0x1_0000)
  }

  class FragmentBuffer {
    var cache: Cache
    var current: U16

    ghost function State(): BufferState
      reads this
    {
      BufferState(cache, current)
    }

    constructor ()
      ensures State() == NEW_BUFFER
    {
      cache, current := map[], 0;
    }

    method Size() returns (size: nat)
      ensures size == CacheSize(cache)
    {
      size := 0;
      var left := cache;
      while left != map[]
        invariant left.Keys <= cache.Keys && forall q :: q in left ==> left[q] == cache[q]
        invariant size + CacheSize(left) == CacheSize(cache)
        decreases |left|
      {
        var q :| q in left;
        CacheSizeAt(left, q);
        var sum, i := 0, 0;
        while i < |left[q]|
          invariant 0 <= i <= |left[q]|
          invariant sum + DataSize(left[q][i..]) == DataSize(left[q])
        {
          assert left[q][i..][1..] == left[q][i + 1..];
          sum := sum + |left[q][i].data|;
          i := i + 1;
        }
        size := size + sum;
        left := left - {q};
      }
    }

    method Push(buf: Bytes) returns (r: Result<bool>)
      modifies this
      ensures (State(), r) == Pushed(old(State()), buf)
    {
      var currentSize := Size();
      if currentSize + |buf| >= FRAGMENT_BUFFER_MAX_SIZE {
        return Err(FragmentBufferOverflow);
      }
      var header := DecodeRecordHeader(buf);
      if header.Err? {
        return Err(header.error);
      }
      if header.value.contentType != Handshake {
        return Ok(false);
      }
      var rest := buf[RECORD_LAYER_HEADER_SIZE..];
      while rest != []
        invariant current == old(current)
        invariant AddAll(cache, header.value.epoch, rest)
               == AddAll(old(cache), header.value.epoch, buf[RECORD_LAYER_HEADER_SIZE..])
        decreases |rest|
      {
        var h := DecodeHandshakeHeader(rest);
        if h.Err? {
          return Err(h.error);
        }
        var end := EndOf(h.value, rest);
        cache := Add(cache, Fragment(header.value.epoch, h.value, rest[HANDSHAKE_HEADER_LENGTH..end]));
        rest := rest[end..];
      }
      return Ok(true);
    }

    method Pop() returns (r: Result<(Bytes, U16)>)
      modifies this
      ensures r == PopResult(old(State()))
      ensures State() == Popped(old(State()))
    {
      if current !in cache {
        return Err(EmptyFragment);
      }
      var frags := cache[current];
      assert frags == [] ==> Assemble(frags, 0) == None;
      hide EncodeHandshakeHeader, Assemble, FirstAt;
      var ok, raw := AppendMessage(0, frags, []);
      if !ok {
        return Err(EmptyFragment);
      }
      assert raw == Assemble(frags, 0).value;
      var first := frags[0].header.(fragmentOffset := 0, fragmentLength := frags[0].header.length);
      var out := EncodeHandshakeHeader(first) + raw;
      r := Ok((out, frags[0].epoch));
      assert r == PopResult(State());
      cache := cache - {current};
      current := (current + 1) % 0x1_0000;
    }
  }

  // ---------------------------------------------------------------- size bound, for arbitrary input

  lemma {:induction false} AddAllSize(cache: Cache, epoch: U16, buf: Bytes)
    ensures CacheSize(AddAll(cache, epoch, buf).0) <= CacheSize(cache) + |buf|
    decreases |buf|
  {
    if buf != [] && DecodeHandshakeHeader(buf).Ok? {
      var h := DecodeHandshakeHeader(buf).value;
      var end := EndOf(h, buf);
      var f := Fragment(epoch, h, buf[HANDSHAKE_HEADER_LENGTH..end]);
      AddSize(cache, f);
      AddAllSize(Add(cache, f), epoch, buf[end..]);
    }
  }

  lemma PushKeepsBound(s: BufferState, buf: Bytes)
    requires CacheSize(s.cache) < FRAGMENT_BUFFER_MAX_SIZE
    ensures CacheSize(Pushed(s, buf).0.cache) < FRAGMENT_BUFFER_MAX_SIZE
  {
    if |buf| >= RECORD_LAYER_HEADER_SIZE && DecodeRecordHeader(buf).Ok? {
      AddAllSize(s.cache, DecodeRecordHeader(buf).value.epoch, buf[RECORD_LAYER_HEADER_SIZE..]);
    }
  }

  lemma PopKeepsBound(s: BufferState)
    requires CacheSize(s.cache) < FRAGMENT_BUFFER_MAX_SIZE
    ensures CacheSize(Popped(s).cache) < FRAGMENT_BUFFER_MAX_SIZE
  {
    if PopResult(s).Ok? {
      CacheSizeAt(s.cache, s.current);
    }
  }

  datatype BufferOp = DoPush(buf: Bytes) | DoPop

  ghost function RunBuffer(s: BufferState, ops: seq<BufferOp>): BufferState
    decreases |ops|
  {
    if ops == [] then s
    else RunBuffer(if ops[0].DoPush? then Pushed(s, ops[0].buf).0 else Popped(s), ops[1..])
  }

  /** Whatever bytes arrive and whenever messages are popped, less than 2,000,000 bytes are buffered. */
  lemma {:induction false} BufferedDataBounded(s: BufferState, ops: seq<BufferOp>)
    requires CacheSize(s.cache) < FRAGMENT_BUFFER_MAX_SIZE
    ensures CacheSize(RunBuffer(s, ops).cache) < FRAGMENT_BUFFER_MAX_SIZE
    decreases |ops|
  {
    if ops != [] {
      if ops[0].DoPush? {
        PushKeepsBound(s, ops[0].buf);
        BufferedDataBounded(Pushed(s, ops[0].buf).0, ops[1..]);
      } else {
        PopKeepsBound(s);
        BufferedDataBounded(Popped(s), ops[1..]);
      }
    }
  }
}
