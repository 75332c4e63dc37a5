/**
 Eight of the chunk types an SCTP packet can hold (rtc-sctp/src/chunk): DATA, SACK, SHUTDOWN and its
 two answers, COOKIE-ECHO, COOKIE-ACK and FORWARD-TSN, as one codec for SctpPacket.
 */
module SctpChunks {
  import opened Bytes
  import opened SctpPacket

  const DATA: Byte := 0
  const SACK: Byte := 3
  const SHUTDOWN: Byte := 7
  const SHUTDOWN_ACK: Byte := 8
  const COOKIE_ACK: Byte := 11
  const SHUTDOWN_COMPLETE: Byte := 14
  const FORWARD_TSN: Byte := 192

  /** Identifiers of the payload of a DATA chunk; 58 stands for any other. */
  type Protocol = n: nat | n in {50, 51, 53, 56, 57, 58} witness 58

  /** A gap block of a SACK or a skipped stream of a FORWARD-TSN. */
  datatype Pair = Pair(first: U16, second: U16)

  datatype Flags = Flags(ending: bool, beginning: bool, unordered: bool, immediate: bool)

  datatype Chunk =
    | Data(flags: Flags, tsn: U32, stream: U16, sequence: U16, protocol: Protocol, user: Bytes)
    | Sack(cumulative: U32, credit: U32, gaps: seq<Pair>, duplicates: seq<U32>)
    | Shutdown(cumulative: U32)
    | ShutdownAck
    | CookieEcho(cookie: Bytes)
    | CookieAck
    | ShutdownComplete
    | ForwardTsn(newCumulative: U32, streams: seq<Pair>)

  function TypeOf(x: Chunk): Byte {
    match x
    case Data(_, _, _, _, _, _) => DATA
    case Sack(_, _, _, _) => SACK
    case Shutdown(_) => SHUTDOWN
    case ShutdownAck => SHUTDOWN_ACK
    case CookieEcho(_) => COOKIE_ECHO
    case CookieAck => COOKIE_ACK
    case ShutdownComplete => SHUTDOWN_COMPLETE
    case ForwardTsn(_, _) => FORWARD_TSN
  }

  function FlagsByte(f: Flags): Byte {
    (if f.ending then 1 else 0) + (if f.beginning then 2 else 0)
    + (if f.unordered then 4 else 0) + (if f.immediate then 8 else 0)
  }

  function FlagsFrom(b: Byte): Flags {
    Flags(b % 2 == 1, b / 2 % 2 == 1, b / 4 % 2 == 1, b / 8 % 2 == 1)
  }

  function ProtocolFrom(n: U32): Protocol {
    if n in {50, 51, 53, 56, 57} then n else 58
  }

  // ---------------------------------------------------------------- writing

  function PutPairs(ps: seq<Pair>): (r: Bytes)
    ensures |r| == 4 * |ps|
  {
    if ps == [] then [] else PutU16(ps[0].first) + (PutU16(ps[0].second) + PutPairs(ps[1..]))
  }

  function PutWords(ws: seq<U32>): (r: Bytes)
    ensures |r| == 4 * |ws|
  {
    if ws == [] then [] else PutU32(ws[0]) + PutWords(ws[1..])
  }

  function ValueLength(x: Chunk): nat {
    match x
    case Data(_, _, _, _, _, user) => 12 + |user|
    case Sack(_, _, gaps, duplicates) => 12 + |gaps| * 4 + |duplicates| * 4
    case Shutdown(_) => 4
    case CookieEcho(cookie) => |cookie|
    case ForwardTsn(_, streams) => 4 + 4 * |streams|
    case _ => 0
  }

  function Value(x: Chunk): (r: Bytes)
    ensures |r| == ValueLength(x)
  {
    match x
    case Data(_, tsn, stream, sequence, protocol, user) =>
      PutU32(tsn) + (PutU16(stream) + (PutU16(sequence) + (PutU32(protocol) + user)))
    case Sack(cumulative, credit, gaps, duplicates) =>
      PutU32(cumulative) + (PutU32(credit) + (PutU16(|gaps| % 0x1_0000) + (PutU16(|duplicates| % 0x1_0000)
      + (PutPairs(gaps) + PutWords(duplicates)))))
    case Shutdown(cumulative) => PutU32(cumulative)
    case CookieEcho(cookie) => cookie
    case ForwardTsn(newCumulative, streams) => PutU32(newCumulative) + PutPairs(streams)
    case _ => []
  }

  /** The longest value whose length, with the header, fits the length field. */
  const MAX_VALUE := 0xFFFB

  function ChunkFlags(x: Chunk): Byte {
    if x.Data? then FlagsByte(x.flags) else 0
  }

  /** The length field takes the low 16 bits of the length, whatever the value's length is. */
  function EncodeChunk(x: Chunk): (r: Option<Bytes>)
    ensures r.Some?
  {
    Some([TypeOf(x), ChunkFlags(x)] + (PutU16((CHUNK_HEADER + ValueLength(x)) % 0x1_0000) + Value(x)))
  }

  // ---------------------------------------------------------------- reading

  function ReadPairs(b: Bytes, n: nat): (r: seq<Pair>)
    requires |b| >= 4 * n
    ensures |r| == n
  {
    if n == 0 then [] else [Pair(GetU16(b), GetU16(b[2..]))] + ReadPairs(b[4..], n - 1)
  }

  function ReadWords(b: Bytes, n: nat): (r: seq<U32>)
    requires |b| >= 4 * n
    ensures |r| == n
  {
    if n == 0 then [] else [GetU32(b)] + ReadWords(b[4..], n - 1)
  }

  /** The stream loop of FORWARD-TSN runs to the end of the whole packet, not of the value. */
  function ReadStreams(v: Bytes, at: nat, end: nat): Option<seq<Pair>>
    requires at <= |v| <= end
    decreases end - at
  {
    if at == end then Some([])
    else if at + 4 > |v| then None
    else
      match ReadStreams(v, at + 4, end)
      case None => None
      case Some(ps) => Some([Pair(GetU16(v[at..]), GetU16(v[at + 2..]))] + ps)
  }

  /** A chunk of type `t` from its value `v` and the number `n` of bytes from its start to the packet's end. */
  function DecodeBody(t: Byte, flags: Byte, n: nat, v: Bytes): Option<Chunk>
    requires n >= CHUNK_HEADER + |v|
  {
    if t == DATA then
      if |v| < 12 then None
      else
        Some(Data(FlagsFrom(flags), GetU32(v), GetU16(v[4..]), GetU16(v[6..]), ProtocolFrom(GetU32(v[8..])), v[12..]))
    else if t == SACK then
      if |v| < 12 then None
      else
        var g, d := GetU16(v[8..]), GetU16(v[10..]);
        if |v| < 12 + 4 * g + 4 * d then None
        else Some(Sack(GetU32(v), GetU32(v[4..]), ReadPairs(v[12..], g), ReadWords(v[12 + 4 * g..], d)))
    else if t == SHUTDOWN then
      if n != CHUNK_HEADER + 4 || |v| < 4 then None else Some(Shutdown(GetU32(v)))
    else if t == SHUTDOWN_ACK then Some(ShutdownAck)
    else if t == COOKIE_ECHO then Some(CookieEcho(v))
    else if t == COOKIE_ACK then Some(CookieAck)
    else if t == SHUTDOWN_COMPLETE then Some(ShutdownComplete)
    else if t == FORWARD_TSN then
      if |v| < 4 then None
      else
        match ReadStreams(v, 4, n - CHUNK_HEADER)
        case None => None
        case Some(ps) => Some(ForwardTsn(GetU32(v), ps))
    else None
  }

  function DecodeChunk(b: Bytes): Option<Chunk> {
    if |b| < CHUNK_HEADER then None
    else
      match ReadChunkHeader(b)
      case Err(_) => None
      case Ok(h) => DecodeBody(h.typ, h.flags, |b|, b[CHUNK_HEADER..CHUNK_HEADER + h.valueLength])
  }

  function Chunks(): Codec<Chunk> {
    Codec(DecodeChunk, ValueLength, EncodeChunk)
  }

  /** SHUTDOWN and FORWARD-TSN measure themselves by the rest of the packet. */
  predicate MustBeLast(x: Chunk) {
    x.Shutdown? || x.ForwardTsn?
  }

  function PlaceOf(x: Chunk): Place {
    if ValueLength(x) > MAX_VALUE then Nowhere else if MustBeLast(x) then OnlyLast else Anywhere
  }

  // ---------------------------------------------------------------- the loops

  ghost function Onto(xs: seq<Pair>, r: Option<seq<Pair>>): Option<seq<Pair>> {
    if r == None then None else Some(xs + r.value)
  }

  /** The loop over the streams of a FORWARD-TSN; `end` counts to the end of the packet. */
  method StreamLoop(v: Bytes, end: nat) returns (r: Option<seq<Pair>>)
    requires 4 <= |v| <= end
    ensures r == ReadStreams(v, 4, end)
  {
    hide GetU16;
    var streams: seq<Pair>, offset, remaining := [], 4, end - 4;
    assert var all := ReadStreams(v, 4, end); all.Some? ==> [] + all.value == all.value;
    while remaining > 0
      invariant offset + remaining == end && offset <= |v|
      invariant ReadStreams(v, 4, end) == Onto(streams, ReadStreams(v, offset, end))
    {
      if |v| - offset < 4 {
        return None;
      }
      var s := Pair(GetU16(v[offset..]), GetU16(v[offset + 2..]));
      ghost var rest := ReadStreams(v, offset + 4, end);
      assert rest.Some? ==> streams + ([s] + rest.value) == streams + [s] + rest.value;
      offset := offset + 4;
      remaining := remaining - 4;
      streams := streams + [s];
    }
    assert streams + [] == streams;
    r := Some(streams);
  }

  /** The two loops over the gap blocks and the duplicates of a SACK. */
  method BlockLoops(b: Bytes, gapsLen: nat, duplicatesLen: nat) returns (gaps: seq<Pair>, duplicates: seq<U32>)
    requires |b| >= 4 * gapsLen + 4 * duplicatesLen
    ensures gaps == ReadPairs(b, gapsLen) && duplicates == ReadWords(b[4 * gapsLen..], duplicatesLen)
  {
    hide GetU16, GetU32;
    var reader := b;
    gaps := [];
    assert [] + ReadPairs(b, gapsLen) == ReadPairs(b, gapsLen);
    for i := 0 to gapsLen
      invariant reader == b[4 * i..] && ReadPairs(b, gapsLen) == gaps + ReadPairs(reader, gapsLen - i)
    {
      var g := Pair(GetU16(reader), GetU16(reader[2..]));
      Assoc(gaps, [g], ReadPairs(reader[4..], gapsLen - i - 1));
      assert reader[4..] == b[4 * (i + 1)..];
      gaps := gaps + [g];
      reader := reader[4..];
    }
    assert gaps + [] == gaps;
    ghost var words := reader;
    duplicates := [];
    assert [] + ReadWords(words, duplicatesLen) == ReadWords(words, duplicatesLen);
    for i := 0 to duplicatesLen
      invariant reader == words[4 * i..]
      invariant ReadWords(words, duplicatesLen) == duplicates + ReadWords(reader, duplicatesLen - i)
    {
      Assoc(duplicates, [GetU32(reader)], ReadWords(reader[4..], duplicatesLen - i - 1));
      assert reader[4..] == words[4 * (i + 1)..];
      duplicates := duplicates + [GetU32(reader)];
      reader := reader[4..];
    }
    assert duplicates + [] == duplicates;
  }

  // ---------------------------------------------------------------- values

  lemma FlagsRoundTrip(f: Flags)
    ensures FlagsFrom(FlagsByte(f)) == f
  {
  }

  lemma {:induction false} PairsRead(ps: seq<Pair>, rest: Bytes)
    ensures ReadPairs(PutPairs(ps) + rest, |ps|) == ps
  {
    if ps != [] {
      hide PutU16, GetU16;
      var a, b, tail := PutU16(ps[0].first), PutU16(ps[0].second), PutPairs(ps[1..]) + rest;
      var all := PutPairs(ps) + rest;
      assert all == a + (b + tail) && all[2..] == b + tail && all[4..] == tail;
      U16Read(ps[0].first, b + tail);
      U16Read(ps[0].second, tail);
      PairsRead(ps[1..], rest);
    }
  }

  lemma {:induction false} WordsRead(ws: seq<U32>)
    ensures ReadWords(PutWords(ws), |ws|) == ws
  {
    if ws != [] {
      hide PutU32, GetU32;
      var tail := PutWords(ws[1..]);
      assert PutWords(ws)[4..] == tail;
      U32Read(ws[0], tail);
      WordsRead(ws[1..]);
    }
  }

  /** The stream loop reads the streams written, unless more follows. */
  lemma {:induction false} StreamsRead(front: Bytes, ps: seq<Pair>, end: nat)
    requires end >= |front| + 4 * |ps|
    ensures ReadStreams(front + PutPairs(ps), |front|, end)
         == if end == |front| + 4 * |ps| then Some(ps) else None
    decreases |ps|
  {
    var v, at := front + PutPairs(ps), |front|;
    if ps != [] {
      hide PutU16, GetU16;
      var a, b, tail := PutU16(ps[0].first), PutU16(ps[0].second), PutPairs(ps[1..]);
      assert v == front + (a + (b + tail));
      assert v[at..] == a + (b + tail) && v[at + 2..] == b + tail;
      U16Read(ps[0].first, b + tail);
      U16Read(ps[0].second, tail);
      assert v == (front + (a + b)) + tail;
      StreamsRead(front + (a + b), ps[1..], end);
      assert [ps[0]] + ps[1..] == ps;
      assert ReadStreams(v, at + 4, end) == if end == at + 4 * |ps| then Some(ps[1..]) else None;
    }
  }

  lemma DataFields(a: Bytes, b: Bytes, c: Bytes, d: Bytes, user: Bytes)
    requires |a| == 4 && |b| == 2 && |c| == 2 && |d| == 4
    ensures var v := a + (b + (c + (d + user)));
            v[4..] == b + (c + (d + user)) && v[6..] == c + (d + user) && v[8..] == d + user && v[12..] == user
  {
  }

  lemma DataDecodes(x: Chunk, n: nat)
    requires x.Data? && n >= CHUNK_HEADER + ValueLength(x)
    ensures DecodeBody(DATA, FlagsByte(x.flags), n, Value(x)) == Some(x)
  {
    hide PutU16, GetU16, PutU32, GetU32, FlagsByte, FlagsFrom;
    var v := Value(x);
    var a, b, c, d := PutU32(x.tsn), PutU16(x.stream), PutU16(x.sequence), PutU32(x.protocol);
    DataFields(a, b, c, d, x.user);
    U32Read(x.tsn, b + (c + (d + x.user)));
    U16Read(x.stream, c + (d + x.user));
    U16Read(x.sequence, d + x.user);
    U32Read(x.protocol, x.user);
    FlagsRoundTrip(x.flags);
  }

  lemma SackDecodes(x: Chunk, n: nat)
    requires x.Sack? && ValueLength(x) <= MAX_VALUE && n >= CHUNK_HEADER + ValueLength(x)
    ensures DecodeBody(SACK, 0, n, Value(x)) == Some(x)
  {
    hide PutU16, GetU16, PutU32, GetU32, ReadPairs, ReadWords, PutPairs, PutWords;
    var v := Value(x);
    var a, b, c, d := PutU32(x.cumulative), PutU32(x.credit), PutU16(|x.gaps|), PutU16(|x.duplicates|);
    var gaps, words := PutPairs(x.gaps), PutWords(x.duplicates);
    var tail := gaps + words;
    assert v == a + (b + (c + (d + tail)));
    assert v[4..] == b + (c + (d + tail)) && v[8..] == c + (d + tail) && v[10..] == d + tail && v[12..] == tail;
    assert v[12 + 4 * |x.gaps|..] == words;
    U32Read(x.cumulative, b + (c + (d + tail)));
    U32Read(x.credit, c + (d + tail));
    U16Read(|x.gaps|, d + tail);
    U16Read(|x.duplicates|, tail);
    PairsRead(x.gaps, words);
    WordsRead(x.duplicates);
  }

  lemma ForwardDecodes(x: Chunk, n: nat)
    requires x.ForwardTsn? && n >= CHUNK_HEADER + ValueLength(x)
    ensures DecodeBody(FORWARD_TSN, 0, n, Value(x)) == if n == CHUNK_HEADER + ValueLength(x) then Some(x) else None
  {
    hide PutU32, GetU32, PutPairs, ReadStreams;
    U32Read(x.newCumulative, PutPairs(x.streams));
    StreamsRead(PutU32(x.newCumulative), x.streams, n - CHUNK_HEADER);
  }

  /** A value is read back, by the last-only types exactly when nothing follows. */
  lemma BodyDecodes(x: Chunk, n: nat)
    requires ValueLength(x) <= MAX_VALUE && n >= CHUNK_HEADER + ValueLength(x)
    ensures DecodeBody(TypeOf(x), ChunkFlags(x), n, Value(x)) == Some(x)
       <==> (MustBeLast(x) ==> n == CHUNK_HEADER + ValueLength(x))
  {
    hide PutU16, GetU16, PutU32, GetU32, FlagsByte, FlagsFrom, PutPairs, PutWords, ReadStreams, ReadPairs, ReadWords;
    match x
    case Data(_, _, _, _, _, _) => DataDecodes(x, n);
    case Sack(_, _, _, _) => SackDecodes(x, n);
    case ForwardTsn(_, _) => ForwardDecodes(x, n);
    case Shutdown(tsn) =>
      U32Read(tsn, []);
      assert PutU32(tsn) + [] == PutU32(tsn);
    case _ =>
  }

  // ---------------------------------------------------------------- whole chunks

  lemma ChunkHeaderRead(x: Chunk, rest: Bytes)
    requires ValueLength(x) <= MAX_VALUE && |rest| % 4 == 0
    ensures var n := ValueLength(x);
            var b := EncodeChunk(x).value + (Zeros(Padding(n)) + rest);
            && |b| == CHUNK_HEADER + n + Padding(n) + |rest|
            && ReadChunkHeader(b) == Ok(ChunkHeader(TypeOf(x), ChunkFlags(x), n))
            && b[CHUNK_HEADER..CHUNK_HEADER + n] == Value(x)
  {
    hide PutU16, GetU16, Value, ValueLength, TypeOf, ChunkFlags;
    var n := ValueLength(x);
    var z := Zeros(Padding(n));
    var e := EncodeChunk(x).value;
    var b := e + (z + rest);
    assert b[2..] == PutU16(CHUNK_HEADER + n) + (Value(x) + (z + rest));
    U16Read(CHUNK_HEADER + n, Value(x) + (z + rest));
    hide Padding;
    assert b[CHUNK_HEADER..CHUNK_HEADER + n] == Value(x);
    if |b| - (CHUNK_HEADER + n) < 4 {
      assert rest == [];
      assert forall i :: CHUNK_HEADER + n <= i < |b| ==> b[i] == z[i - CHUNK_HEADER - n];
    }
  }

  lemma AlignedLast(x: Chunk)
    requires MustBeLast(x)
    ensures Padding(ValueLength(x)) == 0
  {
  }

  lemma {:induction false} StreamsBound(v: Bytes, at: nat, end: nat)
    requires at <= |v| <= end && ReadStreams(v, at, end).Some?
    ensures at + 4 * |ReadStreams(v, at, end).value| <= |v|
    decreases end - at
  {
    hide GetU16;
    if at != end {
      StreamsBound(v, at + 4, end);
    }
  }

  /** What is read from a value is no longer than the value. */
  lemma BodyBound(t: Byte, flags: Byte, n: nat, v: Bytes)
    requires n >= CHUNK_HEADER + |v| && DecodeBody(t, flags, n, v).Some?
    ensures ValueLength(DecodeBody(t, flags, n, v).value) <= |v|
  {
    hide GetU16, GetU32, FlagsFrom, ProtocolFrom, ReadPairs, ReadWords, ReadStreams;
    if t == FORWARD_TSN {
      StreamsBound(v, 4, n - CHUNK_HEADER);
    }
  }

  /** No chunk longer than a length field can say is ever read. */
  lemma DecodedFits(b: Bytes)
    requires DecodeChunk(b).Some?
    ensures ValueLength(DecodeChunk(b).value) <= MAX_VALUE
  {
    hide DecodeBody, ValueLength, GetU16;
    var h := ReadChunkHeader(b).value;
    BodyBound(h.typ, h.flags, |b|, b[CHUNK_HEADER..CHUNK_HEADER + h.valueLength]);
  }

  lemma FittingDecodes(x: Chunk, rest: Bytes)
    requires ValueLength(x) <= MAX_VALUE && |rest| % 4 == 0
    ensures DecodesBefore(Chunks(), x, EncodeChunk(x).value, rest, PlaceOf(x))
  {
    ChunkHeaderRead(x, rest);
    hide ReadChunkHeader, DecodeBody, Value, ValueLength, TypeOf, ChunkFlags, Padding;
    var n := ValueLength(x);
    BodyDecodes(x, CHUNK_HEADER + n + Padding(n) + |rest|);
    if MustBeLast(x) {
      AlignedLast(x);
    }
  }

  lemma ChunkDecodes(x: Chunk, rest: Bytes)
    requires |rest| % 4 == 0
    ensures DecodesBefore(Chunks(), x, EncodeChunk(x).value, rest, PlaceOf(x))
  {
    if ValueLength(x) <= MAX_VALUE {
      FittingDecodes(x, rest);
    } else {
      hide DecodeChunk, EncodeChunk, ValueLength, Padding;
      var b := EncodeChunk(x).value + (Zeros(Padding(ValueLength(x))) + rest);
      if DecodeChunk(b).Some? {
        DecodedFits(b);
      }
    }
  }

  /** The codec meets what the packet needs of it. */
  lemma ChunksAreCorrect()
    ensures LengthCorrect(Chunks(), PlaceOf) && ChecksHeaders(Chunks())
  {
    forall x: Chunk
      ensures Carries(Chunks(), x, Chunks().encode(x).value, PlaceOf(x))
    {
      forall rest: Bytes | |rest| % 4 == 0
        ensures DecodesBefore(Chunks(), x, EncodeChunk(x).value, rest, PlaceOf(x))
      {
        ChunkDecodes(x, rest);
      }
      hide DecodesBefore, Value;
      assert Known(EncodeChunk(x).value[0]);
    }
    hide LengthCorrect, DecodeBody;
    forall b: Bytes | |b| >= CHUNK_HEADER && DecodeChunk(b).Some?
      ensures ReadChunkHeader(b).Ok? && (IsInit(b[0]) ==> |b| >= CHUNK_HEADER + 4)
    {
      NoInit(b);
    }
  }

  lemma NoInit(b: Bytes)
    requires |b| >= CHUNK_HEADER && DecodeChunk(b).Some?
    ensures ReadChunkHeader(b).Ok? && !IsInit(b[0])
  {
  }

  /** Every packet is written, whatever the lengths of its chunks. */
  lemma AlwaysWritten(p: Packet<Chunk>, crc: Bytes -> U32)
    ensures Marshal(Chunks(), p, crc).Some?
  {
    PutsIff(Chunks(), p.chunks);
    hide PutChunks, PutCommon;
  }

  /**
   A packet of these chunks is read back if and only if every chunk's length fits its length field
   and no SHUTDOWN and no FORWARD-TSN has another chunk behind it.
   */
  lemma ChunksRoundTripIff(p: Packet<Chunk>, crc: Bytes -> U32)
    ensures Marshal(Chunks(), p, crc).Some?
    ensures Unmarshal(Chunks(), Marshal(Chunks(), p, crc).value, crc) == Ok(p) <==>
            && (forall i :: 0 <= i < |p.chunks| ==> ValueLength(p.chunks[i]) <= MAX_VALUE)
            && (forall i :: 0 <= i < |p.chunks| - 1 ==> !MustBeLast(p.chunks[i]))
  {
    hide LengthCorrect, ChecksHeaders, Marshal, Unmarshal, ValueLength, Chunks;
    AlwaysWritten(p, crc);
    ChunksAreCorrect();
    PacketRoundTripIff(Chunks(), p, crc, PlaceOf);
    hide MustBeLast;
    var xs := p.chunks;
    if AllStand(xs, PlaceOf) {
      forall i | 0 <= i < |xs|
        ensures ValueLength(xs[i]) <= MAX_VALUE && (i < |xs| - 1 ==> !MustBeLast(xs[i]))
      {
        assert Stands(PlaceOf(xs[i]), i == |xs| - 1);
      }
    }
  }

  /** A SHUTDOWN in front of a COOKIE-ACK: the packet that is written is refused. */
  lemma ShutdownInFront(h: CommonHeader, crc: Bytes -> U32)
    ensures var p := Packet(h, [Shutdown(0), CookieAck]);
            && Marshal(Chunks(), p, crc).Some?
            && Unmarshal(Chunks(), Marshal(Chunks(), p, crc).value, crc) != Ok(p)
  {
    var p := Packet(h, [Shutdown(0), CookieAck]);
    hide Marshal, Unmarshal, Chunks;
    ChunksRoundTripIff(p, crc);
    assert MustBeLast(p.chunks[0]);
  }

  /** A cookie of 65532 bytes or more is written but never read. */
  lemma CookieTooLong(h: CommonHeader, cookie: Bytes, crc: Bytes -> U32)
    requires |cookie| > MAX_VALUE
    ensures var p := Packet(h, [CookieEcho(cookie)]);
            && Marshal(Chunks(), p, crc).Some?
            && Unmarshal(Chunks(), Marshal(Chunks(), p, crc).value, crc) != Ok(p)
  {
    var p := Packet(h, [CookieEcho(cookie)]);
    hide Marshal, Unmarshal, Chunks;
    ChunksRoundTripIff(p, crc);
    assert ValueLength(p.chunks[0]) > MAX_VALUE;
  }
}
