/** SCTP packets and their two decoders (rtc-sctp/src/packet.rs), for any chunk codec and any 32-bit checksum. */
module SctpPacket {
  import opened Bytes

  const PACKET_HEADER := 12
  const CHUNK_HEADER := 4
  const INIT := 1
  const INIT_ACK := 2
  const COOKIE_ECHO := 10

  datatype Error =
    | RawTooSmall
    | ChecksumMismatch
    | NotEnoughData
    | UnknownChunkType
    | ChunkHeaderInvalidLength
    | ChunkHeaderNotEnoughSpace
    | ChunkHeaderPaddingNonZero
    | ChunkRefused

  datatype Result<+T> = Ok(value: T) | Err(error: Error)

  datatype CommonHeader = CommonHeader(sourcePort: U16, destinationPort: U16, verificationTag: U32)

  datatype Packet<+C> = Packet(header: CommonHeader, chunks: seq<C>)

  /**
   The chunk types of the source: `decode` reads one chunk from the front of the bytes given, by its type
   byte, `valueLength` is the size of its value, `encode` writes it.
   */
  datatype Codec<!C> = Codec(
    decode: Bytes -> Option<C>,
    valueLength: C -> nat,
    encode: C -> Option<Bytes>)

  /** The chunk types the decoders dispatch on; HEARTBEAT-ACK (5) and CWR (13) are not among them. */
  predicate Known(t: Byte) {
    t <= 4 || 6 <= t <= 11 || t == 14 || t == 130 || t == 192
  }

  // ---------------------------------------------------------------- checksum and padding

  /** Bytes that bring `n` to a multiple of 4. */
  function Padding(n: nat): nat {
    (4 - n % 4) % 4
  }

  function Reverse4(b: Bytes): Bytes
    requires |b| == 4
  {
    [b[3], b[2], b[1], b[0]]
  }

  /** Little-endian writer and reader. */
  function PutU32Le(n: U32): (r: Bytes)
    ensures |r| == 4
  {
    Reverse4(PutU32(n))
  }

  function GetU32Le(b: Bytes): U32
    requires |b| >= 4
  {
    GetU32(Reverse4(b[..4]))
  }

  lemma U32LeRead(n: U32, rest: Bytes)
    ensures GetU32Le(PutU32Le(n) + rest) == n
  {
    hide PutU32, GetU32;
    assert Reverse4((PutU32Le(n) + rest)[..4]) == PutU32(n);
    U32RoundTrip(n);
  }

  /** The packet with four zeros in place of its checksum. */
  function Checksummed(raw: Bytes): Bytes
    requires |raw| >= PACKET_HEADER
  {
    raw[..8] + (Zeros(4) + raw[12..])
  }

  // ---------------------------------------------------------------- decoding

  function ReadCommon(raw: Bytes): CommonHeader
    requires |raw| >= PACKET_HEADER
  {
    CommonHeader(GetU16(raw), GetU16(raw[2..]), GetU32(raw[4..]))
  }

  /** What both decoders check first. */
  function ReadHeader(raw: Bytes, crc: Bytes -> U32): Result<CommonHeader> {
    if |raw| < PACKET_HEADER then Err(RawTooSmall)
    else if GetU32Le(raw[8..]) != crc(Checksummed(raw)) then Err(ChecksumMismatch)
    else Ok(ReadCommon(raw))
  }

  function Then<C>(x: C, r: Result<seq<C>>): Result<seq<C>> {
    match r
    case Ok(xs) => Ok([x] + xs)
    case Err(e) => Err(e)
  }

  /** The chunk loop from `offset` on. */
  function DecodeChunks<C>(c: Codec<C>, b: Bytes, offset: nat): Result<seq<C>>
    decreases |b| - offset
  {
    if offset == |b| then Ok([])
    else if offset + CHUNK_HEADER > |b| then Err(NotEnoughData)
    else if !Known(b[offset]) then Err(UnknownChunkType)
    else
      match c.decode(b[offset..])
      case None => Err(ChunkRefused)
      case Some(x) =>
        var n := c.valueLength(x);
        Then(x, DecodeChunks(c, b, offset + CHUNK_HEADER + n + Padding(n)))
  }

  function Unmarshal<C>(c: Codec<C>, raw: Bytes, crc: Bytes -> U32): Result<Packet<C>> {
    match ReadHeader(raw, crc)
    case Err(e) => Err(e)
    case Ok(h) =>
      match DecodeChunks(c, raw, PACKET_HEADER)
      case Err(e) => Err(e)
      case Ok(xs) => Ok(Packet(h, xs))
  }

  datatype ChunkHeader = ChunkHeader(typ: Byte, flags: Byte, valueLength: nat)

  /** Trailing bytes that are fewer than four count as padding and must be zero. */
  function ReadChunkHeader(b: Bytes): Result<ChunkHeader>
    requires |b| >= CHUNK_HEADER
  {
    var length := GetU16(b[2..]);
    if length < CHUNK_HEADER then Err(ChunkHeaderInvalidLength)
    else if length > |b| then Err(ChunkHeaderNotEnoughSpace)
    else if |b| - length < 4 && exists i :: length <= i < |b| && b[i] != 0 then Err(ChunkHeaderPaddingNonZero)
    else Ok(ChunkHeader(b[0], b[1], length - CHUNK_HEADER))
  }

  datatype PartialDecode = PartialDecode(
    header: CommonHeader,
    remaining: Bytes,
    firstChunkType: Byte,
    initiateTag: Option<U32>,
    cookie: Option<Bytes>)

  /** `Panics`: the source reads an initiate tag that is not there. */
  datatype PartialResult = Decoded(partial: PartialDecode) | Refused(error: Error) | Panics

  predicate IsInit(t: Byte) {
    t == INIT || t == INIT_ACK
  }

  function UnmarshalPartial(raw: Bytes, crc: Bytes -> U32): PartialResult {
    match ReadHeader(raw, crc)
    case Err(e) => Refused(e)
    case Ok(h) =>
      var b := raw[PACKET_HEADER..];
      if |b| < CHUNK_HEADER then Refused(NotEnoughData)
      else
        match ReadChunkHeader(b)
        case Err(e) => Refused(e)
        case Ok(ch) =>
          if IsInit(ch.typ) && |b| < CHUNK_HEADER + 4 then Panics
          else
            Decoded(PartialDecode(
                      h, b, ch.typ,
                      if IsInit(ch.typ) then Some(GetU32(b[CHUNK_HEADER..])) else None,
                      if ch.typ == COOKIE_ECHO then Some(b[CHUNK_HEADER..CHUNK_HEADER + ch.valueLength]) else None))
  }

  function Finish<C>(c: Codec<C>, p: PartialDecode): Result<Packet<C>> {
    match DecodeChunks(c, p.remaining, 0)
    case Err(e) => Err(e)
    case Ok(xs) => Ok(Packet(p.header, xs))
  }

  /** The loop does not depend on what precedes its offset. */
  lemma {:induction false} ChunksShift<C>(c: Codec<C>, front: Bytes, b: Bytes, offset: nat)
    ensures DecodeChunks(c, front + b, |front| + offset) == DecodeChunks(c, b, offset)
    decreases |b| - offset
  {
    if offset + CHUNK_HEADER <= |b| {
      assert (front + b)[|front| + offset..] == b[offset..];
      assert (front + b)[|front| + offset] == b[offset];
      if Known(b[offset]) && c.decode(b[offset..]).Some? {
        var n := c.valueLength(c.decode(b[offset..]).value);
        ChunksShift(c, front, b, offset + CHUNK_HEADER + n + Padding(n));
      }
    }
  }

  /**
   The two decoders agree: whenever the partial decoder accepts, finishing its work gives what the
   whole decoder gives, chunks and errors alike.
   */
  lemma FinishAgrees<C>(c: Codec<C>, raw: Bytes, crc: Bytes -> U32)
    requires UnmarshalPartial(raw, crc).Decoded?
    ensures Finish(c, UnmarshalPartial(raw, crc).partial) == Unmarshal(c, raw, crc)
  {
    hide GetU16, GetU32, GetU32Le;
    ChunksShift(c, raw[..PACKET_HEADER], raw[PACKET_HEADER..], 0);
    assert raw[..PACKET_HEADER] + raw[PACKET_HEADER..] == raw;
  }

  /** A codec whose chunks start with a valid chunk header, INIT ones with their tag. */
  ghost predicate ChecksHeaders<C(!new)>(c: Codec<C>) {
    forall b :: |b| >= CHUNK_HEADER && c.decode(b).Some? ==>
      ReadChunkHeader(b).Ok? && (IsInit(b[0]) ==> |b| >= CHUNK_HEADER + 4)
  }

  /** On packets the whole decoder accepts, the partial one refuses exactly those without chunks. */
  lemma PartialAcceptsIff<C(!new)>(c: Codec<C>, raw: Bytes, crc: Bytes -> U32)
    requires ChecksHeaders(c) && Unmarshal(c, raw, crc).Ok?
    ensures UnmarshalPartial(raw, crc).Decoded? <==> Unmarshal(c, raw, crc).value.chunks != []
  {
    hide GetU16, GetU32, GetU32Le, Padding;
    var b := raw[PACKET_HEADER..];
    if |b| >= CHUNK_HEADER {
      assert c.decode(b).Some?;
    }
  }

  // ---------------------------------------------------------------- encoding

  /** Chunks one after the other, each padded with zeros to a multiple of 4 of the whole. */
  function PutChunks<C>(c: Codec<C>, xs: seq<C>): Option<Bytes> {
    if xs == [] then Some([])
    else
      var front := PutChunks(c, xs[..|xs| - 1]);
      var e := c.encode(xs[|xs| - 1]);
      if front == None || e == None then None
      else
        var raw := front.value + e.value;
        Some(raw + Zeros(Padding(|raw|)))
  }

  lemma {:induction false} PutsIff<C>(c: Codec<C>, xs: seq<C>)
    ensures PutChunks(c, xs).Some? <==> forall i :: 0 <= i < |xs| ==> c.encode(xs[i]).Some?
  {
    if xs != [] {
      hide Padding;
      var n := |xs| - 1;
      PutsIff(c, xs[..n]);
      assert forall i :: 0 <= i < n ==> xs[..n][i] == xs[i];
    }
  }

  function PutCommon(h: CommonHeader): (r: Bytes)
    ensures |r| == 8
  {
    PutU16(h.sourcePort) + (PutU16(h.destinationPort) + PutU32(h.verificationTag))
  }

  function Marshal<C>(c: Codec<C>, p: Packet<C>, crc: Bytes -> U32): Option<Bytes> {
    match PutChunks(c, p.chunks)
    case None => None
    case Some(raw) =>
      var h := PutCommon(p.header);
      Some(h + (PutU32Le(crc(h + (Zeros(4) + raw))) + raw))
  }

  /** Where in a packet a chunk can stand to be read back. */
  datatype Place = Anywhere | OnlyLast | Nowhere

  predicate Stands(p: Place, last: bool) {
    p == Anywhere || (p == OnlyLast && last)
  }

  /** Encoded chunks have their declared size and a known type, and decode back in their places only. */
  ghost predicate LengthCorrect<C(!new)>(c: Codec<C>, place: C -> Place) {
    forall x: C :: c.encode(x).Some? ==> Carries(c, x, c.encode(x).value, place(x))
  }

  ghost predicate Carries<C(!new)>(c: Codec<C>, x: C, e: Bytes, p: Place) {
    && |e| == CHUNK_HEADER + c.valueLength(x) && Known(e[0])
    && forall rest :: |rest| % 4 == 0 ==> DecodesBefore(c, x, e, rest, p)
  }

  /** In front of `rest`, which starts on a multiple of 4, the chunk is read back if it can stand there. */
  ghost predicate DecodesBefore<C(!new)>(c: Codec<C>, x: C, e: Bytes, rest: Bytes, p: Place) {
    c.decode(e + (Zeros(Padding(c.valueLength(x))) + rest)) == Some(x) <==> Stands(p, rest == [])
  }

  /** Every chunk is in a place of its own. */
  ghost predicate AllStand<C(!new)>(xs: seq<C>, place: C -> Place) {
    forall i :: 0 <= i < |xs| ==> Stands(place(xs[i]), i == |xs| - 1)
  }

  /** Chunks in order, each with its own padding. */
  ghost function Laid<C>(c: Codec<C>, xs: seq<C>): Bytes
    requires forall i :: 0 <= i < |xs| ==> c.encode(xs[i]).Some?
  {
    if xs == [] then []
    else c.encode(xs[0]).value + (Zeros(Padding(c.valueLength(xs[0]))) + Laid(c, xs[1..]))
  }

  lemma {:induction false} LaidSnoc<C>(c: Codec<C>, xs: seq<C>)
    requires xs != [] && forall i :: 0 <= i < |xs| ==> c.encode(xs[i]).Some?
    ensures var n := |xs| - 1;
            Laid(c, xs) == Laid(c, xs[..n]) + (c.encode(xs[n]).value + Zeros(Padding(c.valueLength(xs[n]))))
  {
    hide Padding;
    var n := |xs| - 1;
    if n == 0 {
      assert xs[1..] == [];
      assert Laid(c, xs) == c.encode(xs[0]).value + (Zeros(Padding(c.valueLength(xs[0]))) + []);
    } else {
      LaidSnoc(c, xs[1..]);
      assert xs[..n][1..] == xs[1..][..n - 1];
      var e, z := c.encode(xs[0]).value, Zeros(Padding(c.valueLength(xs[0])));
      var rest := Laid(c, xs[1..][..n - 1]);
      var last := c.encode(xs[n]).value + Zeros(Padding(c.valueLength(xs[n])));
      assert e + (z + (rest + last)) == e + (z + rest) + last;
    }
  }

  lemma PaddingOfAligned(a: nat, n: nat)
    requires a % 4 == 0
    ensures Padding(a + n) == Padding(n) && (a + n + Padding(a + n)) % 4 == 0
  {
    assert (a + n) % 4 == n % 4;
  }

  /** The writer pads by the whole length, the reader by each value's: the same bytes. */
  lemma {:induction false} PutIsLaid<C(!new)>(c: Codec<C>, xs: seq<C>, place: C -> Place)
    requires LengthCorrect(c, place) && PutChunks(c, xs).Some?
    ensures forall i :: 0 <= i < |xs| ==> c.encode(xs[i]).Some?
    ensures PutChunks(c, xs).value == Laid(c, xs) && |Laid(c, xs)| % 4 == 0
  {
    hide Padding, Laid, LengthCorrect;
    if xs == [] {
      NothingLaid(c);
    } else {
      var n := |xs| - 1;
      PutIsLaid(c, xs[..n], place);
      LaidSnoc(c, xs);
      var front, e := Laid(c, xs[..n]), c.encode(xs[n]).value;
      EncodedLength(c, xs[n], place);
      PaddingOfAligned(|front|, |e|);
      PaddingOfAligned(CHUNK_HEADER, c.valueLength(xs[n]));
      Assoc(front, e, Zeros(Padding(|e|)));
    }
  }

  lemma NothingLaid<C>(c: Codec<C>)
    ensures Laid(c, []) == []
  {
  }

  lemma EncodedLength<C(!new)>(c: Codec<C>, x: C, place: C -> Place)
    requires LengthCorrect(c, place) && c.encode(x).Some?
    ensures |c.encode(x).value| == CHUNK_HEADER + c.valueLength(x)
  {
    assert Carries(c, x, c.encode(x).value, place(x));
  }

  lemma LaidCons<C>(c: Codec<C>, xs: seq<C>)
    requires xs != [] && forall i :: 0 <= i < |xs| ==> c.encode(xs[i]).Some?
    ensures |Laid(c, xs)| == |c.encode(xs[0]).value| + Padding(c.valueLength(xs[0])) + |Laid(c, xs[1..])|
  {
    hide Padding;
  }

  lemma {:induction false} LaidAligned<C(!new)>(c: Codec<C>, xs: seq<C>, place: C -> Place)
    requires LengthCorrect(c, place) && forall i :: 0 <= i < |xs| ==> c.encode(xs[i]).Some?
    ensures |Laid(c, xs)| % 4 == 0 && (xs != [] ==> Laid(c, xs) != [])
  {
    if xs != [] {
      LaidCons(c, xs);
      EncodedLength(c, xs[0], place);
      hide Padding, LengthCorrect, Laid;
      var n := c.valueLength(xs[0]);
      LaidAligned(c, xs[1..], place);
      ChunkAligned(n, |Laid(c, xs[1..])|);
    }
  }

  lemma ChunkAligned(n: nat, rest: nat)
    requires rest % 4 == 0
    ensures (CHUNK_HEADER + n + Padding(n) + rest) % 4 == 0
  {
    PaddingOfAligned(CHUNK_HEADER, n);
    hide Padding;
    assert (CHUNK_HEADER + n + Padding(n)) % 4 == 0;
  }

  /** One chunk off the front. */
  lemma DecodeStep<C>(c: Codec<C>, b: Bytes)
    requires |b| >= CHUNK_HEADER && Known(b[0])
    ensures DecodeChunks(c, b, 0) ==
            match c.decode(b)
            case None => Err(ChunkRefused)
            case Some(x) => Then(x, DecodeChunks(c, b, CHUNK_HEADER + c.valueLength(x) + Padding(c.valueLength(x))))
  {
    hide Padding, Then;
    assert b[0..] == b;
  }

  /** One chunk off the front, if it can stand there. */
  lemma DecodeFirst<C(!new)>(c: Codec<C>, x: C, e: Bytes, rest: Bytes, p: Place)
    requires Carries(c, x, e, p) && |rest| % 4 == 0
    ensures var b := e + (Zeros(Padding(c.valueLength(x))) + rest);
            if Stands(p, rest == []) then DecodeChunks(c, b, 0) == Then(x, DecodeChunks(c, rest, 0))
            else forall xs: seq<C> :: xs != [] && xs[0] == x ==> DecodeChunks(c, b, 0) != Ok(xs)
  {
    hide Padding, DecodeChunks;
    var n := c.valueLength(x);
    var z := Zeros(Padding(n));
    var b := e + (z + rest);
    assert b[0] == e[0];
    DecodeStep(c, b);
    assert DecodesBefore(c, x, e, rest, p);
    Assoc(e, z, rest);
    ChunksShift(c, e + z, rest, 0);
  }

  /** Laid out chunks are read back if and only if each is in a place of its own. */
  lemma {:induction false} LaidDecodesIff<C(!new)>(c: Codec<C>, xs: seq<C>, place: C -> Place)
    requires LengthCorrect(c, place) && forall i :: 0 <= i < |xs| ==> c.encode(xs[i]).Some?
    ensures DecodeChunks(c, Laid(c, xs), 0) == Ok(xs) <==> AllStand(xs, place)
  {
    if xs != [] {
      hide Padding, Carries, DecodeChunks, AllStand, Stands;
      var rest := Laid(c, xs[1..]);
      LaidAligned(c, xs[1..], place);
      LaidDecodesIff(c, xs[1..], place);
      DecodeFirst(c, xs[0], c.encode(xs[0]).value, rest, place(xs[0]));
      StandStep(xs, place);
      if xs[1..] == [] {
        NothingLaid(c);
      }
      ThenIs(xs, DecodeChunks(c, rest, 0));
    }
  }

  lemma StandStep<C(!new)>(xs: seq<C>, place: C -> Place)
    requires xs != []
    ensures AllStand(xs, place) <==> Stands(place(xs[0]), xs[1..] == []) && AllStand(xs[1..], place)
  {
    assert forall i :: 0 <= i < |xs| - 1 ==> xs[1..][i] == xs[i + 1];
  }

  lemma ThenIs<C>(xs: seq<C>, r: Result<seq<C>>)
    requires xs != []
    ensures Then(xs[0], r) == Ok(xs) <==> r == Ok(xs[1..])
  {
    assert [xs[0]] + xs[1..] == xs;
    if r.Ok? {
      assert ([xs[0]] + r.value)[1..] == r.value;
    }
  }

  lemma HeaderRead(h: CommonHeader, sum: U32, raw: Bytes)
    ensures var b := PutCommon(h) + (PutU32Le(sum) + raw);
            && ReadCommon(b) == h && GetU32Le(b[8..]) == sum && b[PACKET_HEADER..] == raw
            && Checksummed(b) == PutCommon(h) + (Zeros(4) + raw)
  {
    hide PutU16, PutU32, GetU16, GetU32, PutU32Le, GetU32Le;
    var b := PutCommon(h) + (PutU32Le(sum) + raw);
    var s, d, t := PutU16(h.sourcePort), PutU16(h.destinationPort), PutU32(h.verificationTag);
    var tail := PutU32Le(sum) + raw;
    assert b == s + (d + (t + tail));
    assert b[2..] == d + (t + tail) && b[4..] == t + tail && b[8..] == tail;
    U16Read(h.sourcePort, d + (t + tail));
    U16Read(h.destinationPort, t + tail);
    U32Read(h.verificationTag, tail);
    U32LeRead(sum, raw);
    assert b[..8] == PutCommon(h);
  }

  /**
   Unmarshalling a marshalled packet, checksum included, returns the same header and chunks if and
   only if every chunk is in a place where it can be read.
   */
  lemma PacketRoundTripIff<C(!new)>(c: Codec<C>, p: Packet<C>, crc: Bytes -> U32, place: C -> Place)
    requires LengthCorrect(c, place) && Marshal(c, p, crc).Some?
    ensures Unmarshal(c, Marshal(c, p, crc).value, crc) == Ok(p) <==> AllStand(p.chunks, place)
  {
    hide PutCommon, PutU32Le, Unmarshal, DecodeChunks, PutChunks, Laid, LengthCorrect, AllStand;
    PutIsLaid(c, p.chunks, place);
    LaidDecodesIff(c, p.chunks, place);
    FramedDecodes(c, p.header, PutChunks(c, p.chunks).value, crc);
  }

  /** Header and checksum in front of the chunks are read back, whatever the chunks. */
  lemma FramedDecodes<C>(c: Codec<C>, h: CommonHeader, raw: Bytes, crc: Bytes -> U32)
    ensures var b := PutCommon(h) + (PutU32Le(crc(PutCommon(h) + (Zeros(4) + raw))) + raw);
            Unmarshal(c, b, crc) ==
            match DecodeChunks(c, raw, 0)
            case Err(e) => Err(e)
            case Ok(xs) => Ok(Packet(h, xs))
  {
    hide PutCommon, ReadCommon, GetU32Le, PutU32Le, Checksummed, DecodeChunks;
    var sum := crc(PutCommon(h) + (Zeros(4) + raw));
    HeaderRead(h, sum, raw);
    var b := PutCommon(h) + (PutU32Le(sum) + raw);
    assert b[..PACKET_HEADER] + raw == b;
    ChunksShift(c, b[..PACKET_HEADER], raw, 0);
  }

  /** A packet without chunks: the whole decoder accepts what the partial one refuses. */
  lemma EmptyPacketSplits<C(!new)>(c: Codec<C>, h: CommonHeader, crc: Bytes -> U32)
    ensures Marshal(c, Packet(h, []), crc).Some?
    ensures var raw := Marshal(c, Packet(h, []), crc).value;
            && Unmarshal(c, raw, crc) == Ok(Packet(h, []))
            && UnmarshalPartial(raw, crc) == Refused(NotEnoughData)
  {
    hide PutCommon, ReadCommon, GetU32Le, PutU32Le, Checksummed;
    var sum := crc(PutCommon(h) + (Zeros(4) + []));
    HeaderRead(h, sum, []);
  }

  // ---------------------------------------------------------------- the imperative codec

  ghost function Collected<C>(xs: seq<C>, r: Result<seq<C>>): Result<seq<C>> {
    match r
    case Ok(ys) => Ok(xs + ys)
    case Err(e) => Err(e)
  }

  lemma CollectedStep<C>(xs: seq<C>, x: C, r: Result<seq<C>>)
    ensures Collected(xs, Then(x, r)) == Collected(xs + [x], r)
  {
    if r.Ok? {
      Assoc(xs, [x], r.value);
    }
  }

  lemma CollectedNothing<C>(xs: seq<C>, r: Result<seq<C>>)
    ensures Collected([], r) == r && Collected(xs, Ok([])) == Ok(xs)
  {
    assert r.Ok? ==> [] + r.value == r.value;
    assert xs + [] == xs;
  }

  /** The loop of both decoders; it ends because every chunk takes at least its header. */
  method ChunkLoop<C>(c: Codec<C>, b: Bytes, start: nat) returns (r: Result<seq<C>>)
    ensures r == DecodeChunks(c, b, start)
  {
    hide Then, Padding;
    var chunks: seq<C>, offset := [], start;
    CollectedNothing([], DecodeChunks(c, b, start));
    while true
      invariant DecodeChunks(c, b, start) == Collected(chunks, DecodeChunks(c, b, offset))
      decreases |b| - offset
    {
      if offset == |b| {
        CollectedNothing(chunks, Ok([]));
        return Ok(chunks);
      } else if offset + CHUNK_HEADER > |b| {
        return Err(NotEnoughData);
      }
      if !Known(b[offset]) {
        return Err(UnknownChunkType);
      }
      var x := c.decode(b[offset..]);
      if x == None {
        return Err(ChunkRefused);
      }
      var n := c.valueLength(x.value);
      var next := offset + CHUNK_HEADER + n + Padding(n);
      CollectedStep(chunks, x.value, DecodeChunks(c, b, next));
      chunks, offset := chunks + [x.value], next;
    }
  }

  method UnmarshalPacket<C>(c: Codec<C>, raw: Bytes, crc: Bytes -> U32) returns (r: Result<Packet<C>>)
    ensures r == Unmarshal(c, raw, crc)
  {
    hide DecodeChunks;
    var h := ReadHeader(raw, crc);
    if h.Err? {
      return Err(h.error);
    }
    var xs := ChunkLoop(c, raw, PACKET_HEADER);
    r := if xs.Err? then Err(xs.error) else Ok(Packet(h.value, xs.value));
  }

  method FinishPartial<C>(c: Codec<C>, p: PartialDecode) returns (r: Result<Packet<C>>)
    ensures r == Finish(c, p)
  {
    hide DecodeChunks;
    var xs := ChunkLoop(c, p.remaining, 0);
    r := if xs.Err? then Err(xs.error) else Ok(Packet(p.header, xs.value));
  }

  method MarshalPacket<C>(c: Codec<C>, p: Packet<C>, crc: Bytes -> U32) returns (r: Option<Bytes>)
    ensures r == Marshal(c, p, crc)
  {
    hide PutU16, PutU32, PutU32Le, Padding;
    var writer := PutCommon(p.header);
    var raw: Bytes, i := [], 0;
    while i < |p.chunks|
      invariant 0 <= i <= |p.chunks| && PutChunks(c, p.chunks[..i]) == Some(raw)
    {
      assert p.chunks[..i + 1][..i] == p.chunks[..i];
      var e := c.encode(p.chunks[i]);
      if e == None {
        PutChunksFails(c, p.chunks, i + 1);
        return None;
      }
      raw := raw + e.value;
      raw := raw + Zeros(Padding(|raw|));
      i := i + 1;
    }
    assert p.chunks[..i] == p.chunks;
    var sum := crc(writer + (Zeros(4) + raw));
    r := Some(writer + (PutU32Le(sum) + raw));
  }

  lemma {:induction false} PutChunksFails<C>(c: Codec<C>, xs: seq<C>, i: nat)
    requires i <= |xs| && PutChunks(c, xs[..i]) == None
    ensures PutChunks(c, xs) == None
    decreases |xs| - i
  {
    if i == |xs| {
      assert xs[..i] == xs;
    } else {
      assert xs[..i + 1][..i] == xs[..i];
      PutChunksFails(c, xs, i + 1);
    }
  }
}
