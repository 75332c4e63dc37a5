/**
 DTLS record and handshake headers and the packing of records into datagrams
 (rtc-dtls/src/record_layer, rtc-dtls/src/handshake/handshake_header.rs, conn/mod.rs:784-803).
 */
module DtlsRecord {
  import opened Bytes

  const RECORD_LAYER_HEADER_SIZE := 13
  const HANDSHAKE_HEADER_LENGTH := 12
  const MAX_SEQUENCE_NUMBER := 0xFFFF_FFFF_FFFF

  type U24 = n: nat | n < 0x100_0000

  datatype Error =
    | SequenceNumberOverflow
    | UnsupportedProtocolVersion
    | UnexpectedEof
    | InvalidPacketLength
    | FragmentBufferOverflow
    | EmptyFragment

  datatype Result<+T> = Ok(value: T) | Err(error: Error)

  datatype ContentType = ChangeCipherSpec | Alert | Handshake | ApplicationData | Invalid

  function ContentCode(t: ContentType): Byte {
    match t
    case ChangeCipherSpec => 20
    case Alert => 21
    case Handshake => 22
    case ApplicationData => 23
    case Invalid => 24
  }

  function ContentFrom(b: Byte): ContentType {
    match b
    case 20 => ChangeCipherSpec
    case 21 => Alert
    case 22 => Handshake
    case 23 => ApplicationData
    case _ => Invalid
  }

  datatype ProtocolVersion = ProtocolVersion(major: Byte, minor: Byte)

  const PROTOCOL_VERSION1_0 := ProtocolVersion(0xfe, 0xff)
  const PROTOCOL_VERSION1_2 := ProtocolVersion(0xfe, 0xfd)

  predicate Supported(v: ProtocolVersion) {
    v == PROTOCOL_VERSION1_0 || v == PROTOCOL_VERSION1_2
  }

  datatype RecordHeader = RecordHeader(
    contentType: ContentType,
    version: ProtocolVersion,
    epoch: U16,
    sequenceNumber: nat,
    contentLen: U16)

  /** The 13 bytes of a record header whose sequence number fits 48 bits. */
  function EncodeRecordHeader(h: RecordHeader): (b: Bytes)
    requires h.sequenceNumber <= MAX_SEQUENCE_NUMBER
    ensures |b| == RECORD_LAYER_HEADER_SIZE
  {
    [ContentCode(h.contentType), h.version.major, h.version.minor]
    + PutU16(h.epoch) + PutU48(h.sequenceNumber) + PutU16(h.contentLen)
  }

  function DecodeRecordHeader(b: Bytes): Result<RecordHeader> {
    if |b| < 11 then Err(UnexpectedEof)
    else
      var version := ProtocolVersion(b[1], b[2]);
      if !Supported(version) then Err(UnsupportedProtocolVersion)
      else if |b| < 13 then Err(UnexpectedEof)
      else Ok(RecordHeader(ContentFrom(b[0]), version, GetU16(b[3..]), GetU48(b[5..]), GetU16(b[11..])))
  }

  method MarshalRecordHeader(h: RecordHeader) returns (r: Result<Bytes>)
    ensures r.Err? <==> h.sequenceNumber > MAX_SEQUENCE_NUMBER
    ensures r.Ok? ==> r.value == EncodeRecordHeader(h)
  {
    if h.sequenceNumber > MAX_SEQUENCE_NUMBER {
      return Err(SequenceNumberOverflow);
    }
    var out: Bytes := [ContentCode(h.contentType)];
    out := out + [h.version.major];
    out := out + [h.version.minor];
    out := out + PutU16(h.epoch);
    out := out + PutU48(h.sequenceNumber);
    out := out + PutU16(h.contentLen);
    return Ok(out);
  }

  lemma RecordHeaderRoundTrip(h: RecordHeader, rest: Bytes)
    requires h.sequenceNumber <= MAX_SEQUENCE_NUMBER && Supported(h.version)
    ensures DecodeRecordHeader(EncodeRecordHeader(h) + rest) == Ok(h)
  {
    var b := EncodeRecordHeader(h) + rest;
    assert b[3..5] == PutU16(h.epoch);
    assert b[5..11] == PutU48(h.sequenceNumber);
    assert b[11..13] == PutU16(h.contentLen);
    U48RoundTrip(h.sequenceNumber);
    GetU48Prefix(b[5..], PutU48(h.sequenceNumber));
  }

  lemma GetU48Prefix(b: Bytes, p: Bytes)
    requires |p| == 6 <= |b| && b[..6] == p
    ensures GetU48(b) == GetU48(p)
  {
    assert forall i :: 0 <= i < 6 ==> b[i] == p[i];
  }

  // ---------------------------------------------------------------- handshake header

  /** Wire code of a handshake type; 21 stands for `HandshakeType::Invalid`. */
  type HandshakeType = t: nat | t in {0, 1, 2, 3, 11, 12, 13, 14, 15, 16, 20, 21}

  const CLIENT_HELLO: HandshakeType := 1
  const SERVER_HELLO: HandshakeType := 2
  const HELLO_VERIFY_REQUEST: HandshakeType := 3
  const CERTIFICATE: HandshakeType := 11
  const SERVER_KEY_EXCHANGE: HandshakeType := 12
  const CERTIFICATE_REQUEST: HandshakeType := 13
  const SERVER_HELLO_DONE: HandshakeType := 14
  const CERTIFICATE_VERIFY: HandshakeType := 15
  const CLIENT_KEY_EXCHANGE: HandshakeType := 16
  const FINISHED: HandshakeType := 20
  const INVALID_TYPE: HandshakeType := 21

  function HandshakeTypeFrom(b: Byte): HandshakeType {
    if b in {0, 1, 2, 3, 11, 12, 13, 14, 15, 16, 20} then b else INVALID_TYPE
  }

  datatype HandshakeHeader = HandshakeHeader(
    typ: HandshakeType,
    length: U24,
    messageSequence: U16,
    fragmentOffset: U24,
    fragmentLength: U24)

  function EncodeHandshakeHeader(h: HandshakeHeader): (b: Bytes)
    ensures |b| == HANDSHAKE_HEADER_LENGTH
  {
    [h.typ] + PutU24(h.length) + PutU16(h.messageSequence) + PutU24(h.fragmentOffset) + PutU24(h.fragmentLength)
  }

  function DecodeHandshakeHeader(b: Bytes): Result<HandshakeHeader> {
    if |b| < HANDSHAKE_HEADER_LENGTH then Err(UnexpectedEof)
    else
      Ok(HandshakeHeader(HandshakeTypeFrom(b[0]), GetU24(b[1..]), GetU16(b[4..]), GetU24(b[6..]), GetU24(b[9..])))
  }

  lemma HandshakeHeaderRoundTrip(h: HandshakeHeader, rest: Bytes)
    ensures DecodeHandshakeHeader(EncodeHandshakeHeader(h) + rest) == Ok(h)
  {
    var b := EncodeHandshakeHeader(h) + rest;
    GetU24At(b, 1, h.length);
    assert b[4..6] == PutU16(h.messageSequence);
    GetU24At(b, 6, h.fragmentOffset);
    GetU24At(b, 9, h.fragmentLength);
  }

  lemma GetU24At(b: Bytes, at: nat, n: U24)
    requires at + 3 <= |b| && b[at..at + 3] == PutU24(n)
    ensures GetU24(b[at..]) == n
  {
    U24RoundTrip(n);
    assert forall i :: 0 <= i < 3 ==> b[at..][i] == PutU24(n)[i];
  }

  // ---------------------------------------------------------------- datagrams

  /** A record whose length field counts its non-empty content. */
  ghost predicate WfRecord(r: Bytes) {
    |r| > RECORD_LAYER_HEADER_SIZE && GetU16(r[11..]) == |r| - RECORD_LAYER_HEADER_SIZE
  }

  ghost predicate AllWf(rs: seq<Bytes>) {
    forall r :: r in rs ==> WfRecord(r)
  }

  ghost function Unpack(buf: Bytes): Result<seq<Bytes>>
    decreases |buf|
  {
    if buf == [] then Ok([])
    else if |buf| <= RECORD_LAYER_HEADER_SIZE then Err(InvalidPacketLength)
    else
      var len := RECORD_LAYER_HEADER_SIZE + GetU16(buf[11..]);
      if len > |buf| then Err(InvalidPacketLength)
      else
        var rest := Unpack(buf[len..]);
        if rest.Err? then rest else Ok([buf[..len]] + rest.value)
  }

  /** `first` in front of an unpacked rest. */
  ghost function Prefixed(first: seq<Bytes>, rest: Result<seq<Bytes>>): Result<seq<Bytes>> {
    if rest.Err? then rest else Ok(first + rest.value)
  }

  lemma UnpackAt(buf: Bytes, offset: nat)
    requires offset + RECORD_LAYER_HEADER_SIZE < |buf|
    ensures var len := RECORD_LAYER_HEADER_SIZE + GetU16(buf[offset + 11..]);
            Unpack(buf[offset..]) ==
            if offset + len > |buf| then Err(InvalidPacketLength)
            else Prefixed([buf[offset..offset + len]], Unpack(buf[offset + len..]))
  {
    var len := RECORD_LAYER_HEADER_SIZE + GetU16(buf[offset + 11..]);
    assert buf[offset..][11..] == buf[offset + 11..];
    if offset + len <= |buf| {
      assert buf[offset..][..len] == buf[offset..offset + len];
      assert buf[offset..][len..] == buf[offset + len..];
    }
  }

  lemma UnpackShort(buf: Bytes)
    requires |buf| <= RECORD_LAYER_HEADER_SIZE
    ensures Unpack(buf) == if buf == [] then Ok([]) else Err(InvalidPacketLength)
  {
  }

  lemma PrefixedTwice(a: seq<Bytes>, b: seq<Bytes>, rest: Result<seq<Bytes>>)
    ensures Prefixed(a, Prefixed(b, rest)) == Prefixed(a + b, rest)
  {
    if rest.Ok? {
      assert a + (b + rest.value) == a + b + rest.value;
    }
  }

  method UnpackDatagram(buf: Bytes) returns (r: Result<seq<Bytes>>)
    ensures r == Unpack(buf)
  {
    var out: seq<Bytes> := [];
    var offset := 0;
    assert buf[offset..] == buf;
    assert Unpack(buf).Ok? ==> out + Unpack(buf).value == Unpack(buf).value;
    hide GetU16, Unpack;
    while |buf| != offset
      invariant 0 <= offset <= |buf|
      invariant Unpack(buf) == Prefixed(out, Unpack(buf[offset..]))
      decreases |buf| - offset
    {
      if |buf| - offset <= RECORD_LAYER_HEADER_SIZE {
        UnpackShort(buf[offset..]);
        return Err(InvalidPacketLength);
      }
      UnpackAt(buf, offset);
      var pktLen := RECORD_LAYER_HEADER_SIZE + GetU16(buf[offset + 11..]);
      if offset + pktLen > |buf| {
        return Err(InvalidPacketLength);
      }
      PrefixedTwice(out, [buf[offset..offset + pktLen]], Unpack(buf[offset + pktLen..]));
      out := out + [buf[offset..offset + pktLen]];
      offset := offset + pktLen;
    }
    UnpackShort([]);
    assert buf[offset..] == [] && out + [] == out;
    return Ok(out);
  }

  lemma {:induction false} UnpackOfRecords(rs: seq<Bytes>)
    requires AllWf(rs)
    ensures Unpack(Flatten(rs)) == Ok(rs)
  {
    if rs != [] {
      var buf := Flatten(rs);
      var r := rs[0];
      assert buf == r + Flatten(rs[1..]);
      assert WfRecord(r) && buf[11] == r[11] && buf[12] == r[12];
      assert buf[..|r|] == r && buf[|r|..] == Flatten(rs[1..]);
      UnpackOfRecords(rs[1..]);
      assert [r] + rs[1..] == rs;
    }
  }

  lemma {:induction false} UnpackedAreRecords(buf: Bytes)
    requires Unpack(buf).Ok?
    ensures Flatten(Unpack(buf).value) == buf
    ensures forall r :: r in Unpack(buf).value ==> |r| >= RECORD_LAYER_HEADER_SIZE && GetU16(r[11..]) == |r| - 13
    decreases |buf|
  {
    if buf != [] {
      var len := RECORD_LAYER_HEADER_SIZE + GetU16(buf[11..]);
      UnpackedAreRecords(buf[len..]);
      assert buf[..len][11] == buf[11] && buf[..len][12] == buf[12];
      assert buf == buf[..len] + buf[len..];
    }
  }

  /** The records each datagram holds: `cur` is being filled, `raws` are still to come. */
  ghost function Groups(raws: seq<Bytes>, mtu: nat, cur: seq<Bytes>): seq<seq<Bytes>> {
    if raws == [] then if Flatten(cur) == [] then [] else [cur]
    else if Flatten(cur) != [] && |Flatten(cur)| + |raws[0]| >= mtu then
      [cur] + Groups(raws[1..], mtu, [raws[0]])
    else
      Groups(raws[1..], mtu, cur + [raws[0]])
  }

  ghost function Joined(groups: seq<seq<Bytes>>): (r: seq<Bytes>)
    ensures |r| == |groups|
    ensures forall i :: 0 <= i < |r| ==> r[i] == Flatten(groups[i])
  {
    if groups == [] then [] else [Flatten(groups[0])] + Joined(groups[1..])
  }

  lemma JoinedCons(group: seq<Bytes>, groups: seq<seq<Bytes>>)
    ensures Joined([group] + groups) == [Flatten(group)] + Joined(groups)
  {
    hide Flatten;
    assert ([group] + groups)[1..] == groups;
  }

  ghost predicate StartsNew(raw: Bytes, mtu: nat, cur: seq<Bytes>) {
    Flatten(cur) != [] && |Flatten(cur)| + |raw| >= mtu
  }

  /** One turn of the packing loop. */
  lemma PackOne(raws: seq<Bytes>, i: nat, mtu: nat, cur: seq<Bytes>)
    requires i < |raws|
    ensures Joined(Groups(raws[i..], mtu, cur)) ==
            if StartsNew(raws[i], mtu, cur)
            then [Flatten(cur)] + Joined(Groups(raws[i + 1..], mtu, [raws[i]]))
            else Joined(Groups(raws[i + 1..], mtu, cur + [raws[i]]))
  {
    hide Flatten, Joined;
    assert raws[i..][0] == raws[i] && raws[i..][1..] == raws[i + 1..];
    if StartsNew(raws[i], mtu, cur) {
      JoinedCons(cur, Groups(raws[i + 1..], mtu, [raws[i]]));
    }
  }

  /** What is left when all records have been packed. */
  lemma PackLast(raws: seq<Bytes>, mtu: nat, cur: seq<Bytes>)
    ensures Joined(Groups(raws[|raws|..], mtu, cur)) == if Flatten(cur) == [] then [] else [Flatten(cur)]
  {
    hide Flatten;
  }

  /** Packs consecutive raw records into datagrams, starting a new one when the next would reach the MTU. */
  method CompactRawPackets(raws: seq<Bytes>, mtu: nat) returns (out: seq<Bytes>)
    ensures out == Joined(Groups(raws, mtu, []))
  {
    out := [];
    var current: Bytes := [];
    ghost var cur: seq<Bytes> := [];
    var i := 0;
    assert Flatten(cur) == [] && raws[0..] == raws;
    hide Groups, Joined, Flatten;
    while i < |raws|
      invariant 0 <= i <= |raws|
      invariant current == Flatten(cur)
      invariant Joined(Groups(raws, mtu, [])) == out + Joined(Groups(raws[i..], mtu, cur))
    {
      PackOne(raws, i, mtu, cur);
      if current != [] && |current| + |raws[i]| >= mtu {
        Assoc(out, [current], Joined(Groups(raws[i + 1..], mtu, [raws[i]])));
        out := out + [current];
        current, cur := [], [];
        assert cur + [raws[i]] == [raws[i]];
      }
      FlattenSnoc(cur, raws[i]);
      current, cur := current + raws[i], cur + [raws[i]];
      i := i + 1;
    }
    PackLast(raws, mtu, cur);
    if current != [] {
      out := out + [current];
    }
  }

  /** Nothing is lost, added or reordered by packing. */
  lemma {:induction false} GroupsPartition(raws: seq<Bytes>, mtu: nat, cur: seq<Bytes>)
    requires AllWf(raws) && AllWf(cur)
    ensures Flatten(Groups(raws, mtu, cur)) == cur + raws
    decreases raws
  {
    if raws == [] {
      if cur != [] {
        assert WfRecord(cur[0]);
        assert Flatten([cur]) == cur;
      }
    } else if Flatten(cur) != [] && |Flatten(cur)| + |raws[0]| >= mtu {
      GroupsPartition(raws[1..], mtu, [raws[0]]);
      var rest := Groups(raws[1..], mtu, [raws[0]]);
      assert ([cur] + rest)[1..] == rest;
      assert cur + ([raws[0]] + raws[1..]) == cur + raws;
    } else {
      GroupsPartition(raws[1..], mtu, cur + [raws[0]]);
      assert cur + [raws[0]] + raws[1..] == cur + raws;
    }
  }

  ghost predicate SharedFit(groups: seq<seq<Bytes>>, mtu: nat) {
    forall i :: 0 <= i < |groups| ==> |groups[i]| >= 2 ==> |Flatten(groups[i])| < mtu
  }

  /** Only a datagram that holds two or more records is sure to be shorter than the MTU. */
  lemma {:induction false} SharedDatagramsFit(raws: seq<Bytes>, mtu: nat, cur: seq<Bytes>)
    requires SharedFit([cur], mtu)
    requires AllWf(raws) && AllWf(cur)
    ensures SharedFit(Groups(raws, mtu, cur), mtu)
    decreases raws
  {
    assert [cur][0] == cur;
    if raws != [] {
      if Flatten(cur) != [] && |Flatten(cur)| + |raws[0]| >= mtu {
        SharedDatagramsFit(raws[1..], mtu, [raws[0]]);
      } else {
        FlattenSnoc(cur, raws[0]);
        if cur != [] {
          assert WfRecord(cur[0]);
        }
        SharedDatagramsFit(raws[1..], mtu, cur + [raws[0]]);
      }
    }
  }

  lemma {:induction false} InFlatten<T>(groups: seq<seq<T>>, i: nat, x: T)
    requires i < |groups| && x in groups[i]
    ensures x in Flatten(groups)
  {
    if i > 0 {
      InFlatten(groups[1..], i - 1, x);
    }
  }

  /** Unpacking the datagrams one after the other gives back exactly the records packed. */
  lemma UnpackCompacted(raws: seq<Bytes>, mtu: nat, i: nat)
    requires AllWf(raws)
    requires i < |Groups(raws, mtu, [])|
    ensures Flatten(Groups(raws, mtu, [])) == raws
    ensures Unpack(Joined(Groups(raws, mtu, []))[i]) == Ok(Groups(raws, mtu, [])[i])
    ensures forall r :: r in Groups(raws, mtu, [])[i] ==> r in raws
  {
    var groups := Groups(raws, mtu, []);
    GroupsPartition(raws, mtu, []);
    forall r | r in groups[i]
      ensures r in raws
    {
      InFlatten(groups, i, r);
    }
    UnpackOfRecords(groups[i]);
  }
}
