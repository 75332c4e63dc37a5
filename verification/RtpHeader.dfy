/** The RTP header codec with its three extension profiles (rtc-rtp/src/header.rs). */
module RtpHeader {
  import opened Bytes

  const HEADER_LENGTH := 4
  const CSRC_OFFSET := 12
  const ONE_BYTE := 0xBEDE
  const TWO_BYTE := 0x1000
  const RESERVED_ID := 0xF

  datatype Extension = Extension(id: Byte, payload: Bytes)

  datatype Header = Header(
    version: Byte,
    padding: bool,
    extension: bool,
    marker: bool,
    payloadType: Byte,
    sequenceNumber: U16,
    timestamp: U32,
    ssrc: U32,
    csrc: seq<U32>,
    profile: U16,
    extensions: seq<Extension>)

  datatype Error = SizeInsufficient | SizeInsufficientForExtension | BufferTooSmall | PayloadNot32BitWords | IdRange

  // ---------------------------------------------------------------- bit arithmetic on bytes

  /** Bitwise or of two `n`-bit numbers. */
  function Or(a: nat, b: nat, n: nat): nat {
    if n == 0 then 0 else (if a % 2 == 1 || b % 2 == 1 then 1 else 0) + 2 * Or(a / 2, b / 2, n - 1)
  }

  lemma {:induction false} OrBelow(a: nat, b: nat, n: nat, bound: nat)
    requires bound == Power(n)
    ensures Or(a, b, n) < bound
    decreases n
  {
    if n > 0 {
      OrBelow(a / 2, b / 2, n - 1, Power(n - 1));
    }
  }

  function Power(n: nat): nat {
    if n == 0 then 1 else 2 * Power(n - 1)
  }

  function Or8(a: Byte, b: Byte): Byte {
    OrBelow(a, b, 8, 256);
    Or(a, b, 8)
  }

  ghost predicate Disjoint(a: nat, b: nat, n: nat) {
    n == 0 || (!(a % 2 == 1 && b % 2 == 1) && Disjoint(a / 2, b / 2, n - 1))
  }

  /** Without a common bit, `|` is addition. */
  lemma {:induction false} OrIsSum(a: nat, b: nat, n: nat)
    requires Disjoint(a, b, n) && a < Power(n) && b < Power(n)
    ensures Or(a, b, n) == a + b
    decreases n
  {
    if n > 0 {
      OrIsSum(a / 2, b / 2, n - 1);
    }
  }

  lemma {:induction false} ZeroIsDisjoint(a: nat, n: nat)
    ensures Disjoint(a, 0, n)
    decreases n
  {
    if n > 0 {
      ZeroIsDisjoint(a / 2, n - 1);
    }
  }

  /** `x` moved `k` bits up. */
  function Shift(x: nat, k: nat): nat {
    if k == 0 then x else 2 * Shift(x, k - 1)
  }

  /** Left shift of a byte; bits moved out at the top are lost. */
  function Shl8(a: Byte, k: nat): Byte {
    Shift(a, k) % 0x100
  }

  /** Numbers that agree with `hi` and `m` above bit `j`, the second clear below it. */
  lemma {:induction false} ShiftedDisjoint(hi: nat, lo: nat, m: nat, j: nat, n: nat)
    requires lo < Power(j) && j <= n && Disjoint(hi, m, n - j)
    ensures Disjoint(Shift(hi, j) + lo, Shift(m, j), n)
    decreases n
  {
    if j > 0 {
      var a, b := Shift(hi, j - 1), Shift(m, j - 1);
      assert (2 * a + lo) / 2 == a + lo / 2 && (2 * b) / 2 == b && (2 * b) % 2 == 0;
      ShiftedDisjoint(hi, lo / 2, m, j - 1, n - 1);
    }
  }

  /** Setting a bit that is clear. */
  lemma SetBit(a: Byte, hi: nat, lo: nat, j: nat, unit: nat)
    requires j < 8 && unit == Power(j) == Shift(1, j) && lo < unit && hi % 2 == 0
    requires a == Shift(hi, j) + lo && a + unit < 0x100
    ensures Or8(a, unit) == a + unit
  {
    ZeroIsDisjoint(hi / 2, 8 - j - 1);
    assert Disjoint(hi, 1, 8 - j);
    ShiftedDisjoint(hi, lo, 1, j, 8);
    assert Power(8) == 256;
    hide Power, Shift, Disjoint;
    OrIsSum(a, unit, 8);
  }

  /** Filling the bits below a multiple of 2^j. */
  lemma FillLow(a: Byte, hi: nat, lo: Byte, j: nat)
    requires j <= 8 && a == Shift(hi, j) && lo < Power(j) && a + lo < 0x100
    ensures Or8(a, lo) == a + lo
  {
    ZeroIsDisjoint(hi, 8 - j);
    ShiftedDisjointLow(hi, lo, j, 8);
    assert Power(8) == 256;
    hide Power, Shift, Disjoint;
    OrIsSum(a, lo, 8);
  }

  lemma {:induction false} ShiftedDisjointLow(hi: nat, lo: nat, j: nat, n: nat)
    requires lo < Power(j) && j <= n
    ensures Disjoint(Shift(hi, j), lo, n)
    decreases n
  {
    if j == 0 {
      ZeroIsDisjoint(hi, n);
    } else {
      var a := Shift(hi, j - 1);
      assert (2 * a) / 2 == a && (2 * a) % 2 == 0;
      ShiftedDisjointLow(hi, lo / 2, j - 1, n - 1);
    }
  }

  // ---------------------------------------------------------------- sizes

  function PayloadBytes(es: seq<Extension>): nat {
    if es == [] then 0 else |es[0].payload| + PayloadBytes(es[1..])
  }

  function PerExtension(profile: U16): nat {
    if profile == ONE_BYTE then 1 else if profile == TWO_BYTE then 2 else 0
  }

  function ExtensionLength(h: Header): nat {
    PayloadBytes(h.extensions) + |h.extensions| * PerExtension(h.profile)
  }

  function MarshalSize(h: Header): nat {
    12 + |h.csrc| * 4 + if h.extension then 4 + (ExtensionLength(h) + 3) / 4 * 4 else 0
  }

  // ---------------------------------------------------------------- writing

  function FirstByte(h: Header): Byte {
    var b := Or8(Shl8(h.version, 6), |h.csrc| % 0x100);
    var b' := if h.padding then Or8(b, 32) else b;
    if h.extension then Or8(b', 16) else b'
  }

  function SecondByte(h: Header): Byte {
    if h.marker then Or8(h.payloadType, 128) else h.payloadType
  }

  function PutCsrcs(cs: seq<U32>): (r: Bytes)
    ensures |r| == |cs| * 4
  {
    if cs == [] then [] else PutCsrcs(cs[..|cs| - 1]) + PutU32(cs[|cs| - 1])
  }

  /** Length minus one is taken in 8 bits. */
  function PutOneByte(e: Extension): Bytes {
    [Or8(Shl8(e.id, 4), (|e.payload| % 0x100 + 0xFF) % 0x100)] + e.payload
  }

  function PutTwoByte(e: Extension): Bytes {
    [e.id, |e.payload| % 0x100] + e.payload
  }

  function PutElement(profile: U16, e: Extension): Bytes {
    if profile == ONE_BYTE then PutOneByte(e) else if profile == TWO_BYTE then PutTwoByte(e) else e.payload
  }

  function PutElements(profile: U16, es: seq<Extension>): Bytes {
    if es == [] then [] else PutElement(profile, es[0]) + PutElements(profile, es[1..])
  }

  /** The number of 32-bit words, computed in 16 bits. */
  function Words(length: nat): U16 {
    (length % 0x1_0000 + 3) % 0x1_0000 / 4
  }

  function PutFixed(b0: Byte, b1: Byte, sequenceNumber: U16, timestamp: U32, ssrc: U32): (r: Bytes)
    ensures |r| == 12
  {
    [b0, b1] + (PutU16(sequenceNumber) + (PutU32(timestamp) + PutU32(ssrc)))
  }

  function PutExtensions(h: Header): Bytes {
    var length, words := ExtensionLength(h), Words(ExtensionLength(h));
    PutU16(h.profile) + (PutU16(words) + (PutElements(h.profile, h.extensions)
                                            + Zeros(if words * 4 > length then words * 4 - length else 0)))
  }

  datatype Marshalled = Written(bytes: Bytes) | Refused(error: Error)

  predicate PlainProfile(profile: U16) {
    profile != ONE_BYTE && profile != TWO_BYTE
  }

  /** `marshal_to` into a buffer of `capacity` bytes. */
  function Marshal(h: Header, capacity: nat): Marshalled {
    var front := PutFront(h);
    if capacity < MarshalSize(h) then Refused(BufferTooSmall)
    else if !h.extension then Written(front)
    else if PlainProfile(h.profile) && ExtensionLength(h) % 4 != 0 then Refused(PayloadNot32BitWords)
    else if PlainProfile(h.profile) && |h.extensions| != 1 then Refused(IdRange)
    else Written(front + PutExtensions(h))
  }

  // ---------------------------------------------------------------- reading

  /** `Aborts`: the source reads past the end of its buffer and panics. */
  datatype Elements = Elements(extensions: seq<Extension>, rest: Bytes) | Aborts

  function Prepend(e: Extension, r: Elements): Elements {
    match r
    case Elements(es, rest) => Elements([e] + es, rest)
    case Aborts => Aborts
  }

  function High4(b: Byte): Byte {
    b / 16
  }

  function Low4(b: Byte): Byte {
    b % 16
  }

  /** Elements up to `left` bytes; an element may run over that end. */
  function ReadOneByte(b: Bytes, left: int): Elements
    decreases |b|
  {
    if left <= 0 then Elements([], b)
    else if b == [] then Aborts
    else if b[0] == 0 then ReadOneByte(b[1..], left - 1)
    else if High4(b[0]) == RESERVED_ID then Elements([], b[1..])
    else
      var length: int := Low4(b[0]) as int + 1;
      if |b| - 1 < length then Aborts
      else Prepend(Extension(High4(b[0]), b[1..1 + length]), ReadOneByte(b[1 + length..], left - 1 - length))
  }

  function ReadTwoByte(b: Bytes, left: int): Elements
    decreases |b|
  {
    if left <= 0 then Elements([], b)
    else if b == [] then Aborts
    else if b[0] == 0 then ReadTwoByte(b[1..], left - 1)
    else if |b| < 2 || |b| - 2 < b[1] then Aborts
    else
      var length: int := b[1];
      Prepend(Extension(b[0], b[2..2 + length]), ReadTwoByte(b[2 + length..], left - 2 - length))
  }

  function ReadElements(profile: U16, b: Bytes, length: nat): Elements
    requires length <= |b|
  {
    if profile == ONE_BYTE then ReadOneByte(b, length)
    else if profile == TWO_BYTE then ReadTwoByte(b, length)
    else Elements([Extension(0, b[..length])], b[length..])
  }

  function ReadCsrcs(b: Bytes, n: nat): (cs: seq<U32>)
    requires |b| >= n * 4
    ensures |cs| == n
  {
    if n == 0 then [] else ReadCsrcs(b, n - 1) + [GetU32(b[(n - 1) * 4..])]
  }

  datatype Unmarshalled = Parsed(header: Header, rest: Bytes) | Failed(error: Error) | Panics

  /** The header without its extensions, from its first twelve bytes and its sources. */
  function ReadFixed(b: Bytes, csrc: seq<U32>): Header
    requires |b| >= CSRC_OFFSET
  {
    Header(b[0] / 64, b[0] / 32 % 2 == 1, b[0] / 16 % 2 == 1, b[1] / 128 == 1, b[1] % 128,
           GetU16(b[2..]), GetU32(b[4..]), GetU32(b[8..]), csrc, 0, [])
  }

  function ReadExtensions(h: Header, b: Bytes): Unmarshalled {
    if |b| < 4 then Failed(SizeInsufficientForExtension)
    else
      var profile, length := GetU16(b), GetU16(b[2..]) * 4;
      if |b| - 4 < length then Failed(SizeInsufficientForExtension)
      else
        match ReadElements(profile, b[4..], length)
        case Aborts => Panics
        case Elements(es, rest) => Parsed(h.(profile := profile, extensions := es), rest)
  }

  function Unmarshal(b: Bytes): Unmarshalled {
    if |b| < HEADER_LENGTH then Failed(SizeInsufficient)
    else
      var cc := b[0] % 16;
      if |b| < CSRC_OFFSET + cc * 4 then Failed(SizeInsufficient)
      else
        var h := ReadFixed(b, ReadCsrcs(b[CSRC_OFFSET..], cc));
        var rest := b[CSRC_OFFSET + cc * 4..];
        if h.extension then ReadExtensions(h, rest) else Parsed(h, rest)
  }

  // ---------------------------------------------------------------- well-formed headers

  ghost predicate WfElement(profile: U16, e: Extension) {
    if profile == ONE_BYTE then e.id < RESERVED_ID && 1 <= |e.payload| <= 16 && !(e.id == 0 && |e.payload| == 1)
    else if profile == TWO_BYTE then e.id != 0 && |e.payload| < 0x100
    else e.id == 0 && |e.payload| % 4 == 0
  }

  ghost predicate WfExtensions(h: Header) {
    && (forall i :: 0 <= i < |h.extensions| ==> WfElement(h.profile, h.extensions[i]))
    && (PlainProfile(h.profile) ==> |h.extensions| == 1)
    && ExtensionLength(h) <= 65532
  }

  /** Every field fits its bits. */
  ghost predicate WfFront(h: Header) {
    h.version < 4 && h.payloadType < 128 && |h.csrc| < 16
  }

  ghost predicate WfHeader(h: Header) {
    && WfFront(h)
    && if h.extension then WfExtensions(h) else h.profile == 0 && h.extensions == []
  }

  // ---------------------------------------------------------------- round trip

  lemma ShiftBy(x: nat)
    ensures Shift(x, 4) == x * 16 && Shift(x, 5) == x * 32 && Shift(x, 6) == x * 64
  {
    assert Shift(x, 1) == 2 * x;
    assert Shift(x, 2) == 2 * Shift(x, 1);
    assert Shift(x, 3) == 2 * Shift(x, 2);
    assert Shift(x, 4) == 2 * Shift(x, 3);
    assert Shift(x, 5) == 2 * Shift(x, 4);
  }

  lemma VersionAndCount(v: Byte, c: Byte)
    requires v < 4 && c < 16
    ensures Or8(Shl8(v, 6), c) == v * 64 + c
  {
    assert Power(6) == 64;
    ShiftBy(v);
    assert Shl8(v, 6) == v * 64;
    hide Shift, Power, Or8, Shl8;
    FillLow(v * 64, v, c, 6);
  }

  lemma PaddingBit(v: Byte, c: Byte)
    requires v < 4 && c < 16
    ensures Or8(v * 64 + c, 32) == v * 64 + c + 32
  {
    assert Power(5) == 32 == Shift(1, 5);
    ShiftBy(v * 2);
    hide Shift, Power, Or8;
    SetBit(v * 64 + c, v * 2, c, 5, 32);
  }

  lemma ExtensionBit(v: Byte, p: nat, c: Byte)
    requires v < 4 && p < 2 && c < 16
    ensures Or8(v * 64 + p * 32 + c, 16) == v * 64 + p * 32 + c + 16
  {
    assert Power(4) == 16 == Shift(1, 4);
    ShiftBy(v * 4 + p * 2);
    hide Shift, Power, Or8;
    SetBit(v * 64 + p * 32 + c, v * 4 + p * 2, c, 4, 16);
  }

  lemma FirstByteIs(h: Header)
    requires h.version < 4 && |h.csrc| < 16
    ensures FirstByte(h) == h.version * 64 + (if h.padding then 32 else 0) + (if h.extension then 16 else 0) + |h.csrc|
  {
    hide Or8, Shl8;
    VersionAndCount(h.version, |h.csrc|);
    PaddingBit(h.version, |h.csrc|);
    ExtensionBit(h.version, if h.padding then 1 else 0, |h.csrc|);
  }

  lemma SecondByteIs(h: Header)
    requires h.payloadType < 128
    ensures SecondByte(h) == h.payloadType + if h.marker then 128 else 0
  {
    if h.marker {
      SetBit(h.payloadType, 0, h.payloadType, 7, 128);
    }
  }

  lemma IdAndLength(id: Byte, low: Byte)
    requires id < 16 && low < 16
    ensures Or8(Shl8(id, 4), low) == id * 16 + low
  {
    assert Power(4) == 16;
    ShiftBy(id);
    assert Shl8(id, 4) == id * 16;
    hide Shift, Power, Or8, Shl8;
    FillLow(id * 16, id, low, 4);
  }

  lemma OneByteHead(e: Extension)
    requires WfElement(ONE_BYTE, e)
    ensures PutOneByte(e) == [e.id * 16 + |e.payload| - 1] + e.payload
  {
    hide Or8, Shl8;
    assert (|e.payload| % 0x100 + 0xFF) % 0x100 == |e.payload| - 1;
    IdAndLength(e.id, |e.payload| - 1);
  }

  lemma ZerosStep(k: nat)
    requires k > 0
    ensures Zeros(k) == [0] + Zeros(k - 1)
  {
  }

  lemma {:induction false} OneBytePadding(k: nat, payload: Bytes)
    ensures ReadOneByte(Zeros(k) + payload, k) == Elements([], payload)
  {
    if k == 0 {
      assert Zeros(0) + payload == payload;
    } else {
      ZerosStep(k);
      assert (Zeros(k) + payload)[1..] == Zeros(k - 1) + payload;
      OneBytePadding(k - 1, payload);
    }
  }

  lemma {:induction false} TwoBytePadding(k: nat, payload: Bytes)
    ensures ReadTwoByte(Zeros(k) + payload, k) == Elements([], payload)
  {
    if k == 0 {
      assert Zeros(0) + payload == payload;
    } else {
      ZerosStep(k);
      assert (Zeros(k) + payload)[1..] == Zeros(k - 1) + payload;
      TwoBytePadding(k - 1, payload);
    }
  }

  lemma OneByteElement(e: Extension, b: Bytes, left: nat)
    requires WfElement(ONE_BYTE, e)
    ensures ReadOneByte(PutOneByte(e) + b, |PutOneByte(e)| + left) == Prepend(e, ReadOneByte(b, left))
  {
    OneByteHead(e);
    hide PutOneByte;
    var all := PutOneByte(e) + b;
    assert all[0] == e.id * 16 + (|e.payload| - 1);
    assert all[0] / 16 == e.id && all[0] % 16 == |e.payload| - 1;
    assert all[1..1 + |e.payload|] == e.payload;
    assert all[1 + |e.payload|..] == b;
  }

  lemma TwoByteHead(e: Extension)
    requires WfElement(TWO_BYTE, e)
    ensures PutTwoByte(e) == [e.id, |e.payload|] + e.payload
  {
  }

  lemma TwoByteElement(e: Extension, b: Bytes, left: nat)
    requires WfElement(TWO_BYTE, e)
    ensures ReadTwoByte(PutTwoByte(e) + b, |PutTwoByte(e)| + left) == Prepend(e, ReadTwoByte(b, left))
  {
    TwoByteHead(e);
    hide PutTwoByte;
    var all := PutTwoByte(e) + b;
    assert all[2..2 + |e.payload|] == e.payload;
    assert all[2 + |e.payload|..] == b;
  }

  lemma {:induction false} OneByteRoundTrip(es: seq<Extension>, k: nat, payload: Bytes)
    requires forall i :: 0 <= i < |es| ==> WfElement(ONE_BYTE, es[i])
    ensures ReadOneByte(PutElements(ONE_BYTE, es) + (Zeros(k) + payload), |PutElements(ONE_BYTE, es)| + k)
            == Elements(es, payload)
  {
    hide PutOneByte, ReadOneByte;
    var tail := Zeros(k) + payload;
    if es == [] {
      OneBytePadding(k, payload);
      assert PutElements(ONE_BYTE, es) + tail == tail;
    } else {
      var more := PutElements(ONE_BYTE, es[1..]);
      OneByteRoundTrip(es[1..], k, payload);
      OneByteElement(es[0], more + tail, |more| + k);
      Assoc(PutOneByte(es[0]), more, tail);
    }
  }

  lemma {:induction false} TwoByteRoundTrip(es: seq<Extension>, k: nat, payload: Bytes)
    requires forall i :: 0 <= i < |es| ==> WfElement(TWO_BYTE, es[i])
    ensures ReadTwoByte(PutElements(TWO_BYTE, es) + (Zeros(k) + payload), |PutElements(TWO_BYTE, es)| + k)
            == Elements(es, payload)
  {
    hide PutTwoByte, ReadTwoByte;
    var tail := Zeros(k) + payload;
    if es == [] {
      TwoBytePadding(k, payload);
      assert PutElements(TWO_BYTE, es) + tail == tail;
    } else {
      var more := PutElements(TWO_BYTE, es[1..]);
      TwoByteRoundTrip(es[1..], k, payload);
      TwoByteElement(es[0], more + tail, |more| + k);
      Assoc(PutTwoByte(es[0]), more, tail);
    }
  }

  /** The elements take exactly the length that the size computation counts. */
  lemma {:induction false} ElementsLength(profile: U16, es: seq<Extension>)
    ensures |PutElements(profile, es)| == PayloadBytes(es) + |es| * PerExtension(profile)
  {
    hide Or8, Shl8;
    if es != [] {
      ElementsLength(profile, es[1..]);
      assert |PutElement(profile, es[0])| == |es[0].payload| + PerExtension(profile);
    }
  }

  lemma {:induction false} CsrcRoundTrip(cs: seq<U32>, rest: Bytes)
    ensures ReadCsrcs(PutCsrcs(cs) + rest, |cs|) == cs
  {
    hide PutU32, GetU32;
    if cs != [] {
      var n := |cs| - 1;
      var last := PutU32(cs[n]);
      CsrcRoundTrip(cs[..n], last + rest);
      Assoc(PutCsrcs(cs[..n]), last, rest);
      DropFront(PutCsrcs(cs[..n]), last + rest);
      U32Read(cs[n], rest);
    }
  }

  lemma FixedRead(b0: Byte, b1: Byte, sequenceNumber: U16, timestamp: U32, ssrc: U32, tail: Bytes)
    ensures var b := PutFixed(b0, b1, sequenceNumber, timestamp, ssrc) + tail;
            && b[0] == b0 && b[1] == b1 && GetU16(b[2..]) == sequenceNumber
            && GetU32(b[4..]) == timestamp && GetU32(b[8..]) == ssrc && b[12..] == tail
  {
    hide PutU16, PutU32, GetU16, GetU32;
    var b := PutFixed(b0, b1, sequenceNumber, timestamp, ssrc) + tail;
    var s, t, r := PutU16(sequenceNumber), PutU32(timestamp), PutU32(ssrc);
    assert b[2..] == s + (t + (r + tail));
    assert b[4..] == t + (r + tail);
    assert b[8..] == r + tail;
    U16Read(sequenceNumber, t + (r + tail));
    U32Read(timestamp, r + tail);
    U32Read(ssrc, tail);
  }

  /** Bits read back from the first two bytes. */
  lemma BitsRead(version: nat, padding: bool, extension: bool, cc: nat, b0: Byte)
    requires version < 4 && cc < 16
    requires b0 == version * 64 + (if padding then 32 else 0) + (if extension then 16 else 0) + cc
    ensures b0 / 64 == version && (b0 / 32 % 2 == 1 <==> padding) && (b0 / 16 % 2 == 1 <==> extension) && b0 % 16 == cc
  {
    assert b0 / 16 == version * 4 + (if padding then 2 else 0) + (if extension then 1 else 0);
    assert b0 / 32 == version * 2 + if padding then 1 else 0;
  }

  lemma WordsFit(length: nat)
    requires length <= 65532
    ensures Words(length) == (length + 3) / 4 && length <= Words(length) * 4 < length + 4
  {
    assert length % 0x1_0000 == length;
    assert (length + 3) % 0x1_0000 == length + 3;
    assert Words(length) == (length + 3) / 4;
    hide Words;
  }

  lemma ElementsRoundTrip(h: Header, k: nat, payload: Bytes)
    requires WfExtensions(h) && (PlainProfile(h.profile) ==> k == 0)
    ensures var body := PutElements(h.profile, h.extensions);
            ReadElements(h.profile, body + (Zeros(k) + payload), |body| + k) == Elements(h.extensions, payload)
  {
    hide ReadOneByte, ReadTwoByte, PutOneByte, PutTwoByte;
    if h.profile == ONE_BYTE {
      OneByteRoundTrip(h.extensions, k, payload);
    } else if h.profile == TWO_BYTE {
      TwoByteRoundTrip(h.extensions, k, payload);
    } else {
      PlainElement(h.profile, h.extensions, payload);
    }
  }

  lemma PlainElement(profile: U16, es: seq<Extension>, payload: Bytes)
    requires PlainProfile(profile) && |es| == 1 && WfElement(profile, es[0])
    ensures var body := PutElements(profile, es);
            ReadElements(profile, body + (Zeros(0) + payload), |body|) == Elements(es, payload)
  {
    var p := es[0].payload;
    assert es == [Extension(0, p)];
    assert PutElements(profile, es) == p;
    var b := p + (Zeros(0) + payload);
    assert b[..|p|] == p && b[|p|..] == payload;
  }

  lemma {:induction false} PlainLength(profile: U16, es: seq<Extension>)
    requires PlainProfile(profile) && |es| == 1 && WfElement(profile, es[0])
    ensures (PayloadBytes(es) + |es| * PerExtension(profile)) % 4 == 0
  {
    assert PayloadBytes(es) == |es[0].payload| + PayloadBytes(es[1..]);
  }

  /** The extension block: profile, number of words, and that many words. */
  lemma BlockRead(g: Header, profile: U16, words: U16, body: Bytes, payload: Bytes, es: seq<Extension>)
    requires |body| == words * 4 && ReadElements(profile, body + payload, words * 4) == Elements(es, payload)
    ensures ReadExtensions(g, PutU16(profile) + (PutU16(words) + body) + payload)
         == Parsed(g.(profile := profile, extensions := es), payload)
  {
    hide PutU16, GetU16, ReadElements;
    var p, w, tail := PutU16(profile), PutU16(words), body + payload;
    var b := p + (w + body) + payload;
    assert b == p + (w + tail);
    assert b[2..] == w + tail && b[4..] == tail;
    U16Read(profile, w + tail);
    U16Read(words, tail);
  }

  lemma PaddedSize(h: Header)
    requires WfExtensions(h)
    ensures var words := Words(ExtensionLength(h));
            && ExtensionLength(h) == |PutElements(h.profile, h.extensions)|
            && ExtensionLength(h) <= words * 4 == (ExtensionLength(h) + 3) / 4 * 4
            && (PlainProfile(h.profile) ==> words * 4 == ExtensionLength(h))
  {
    WordsFit(ExtensionLength(h));
    ElementsLength(h.profile, h.extensions);
    if PlainProfile(h.profile) {
      PlainLength(h.profile, h.extensions);
    }
  }

  lemma ExtensionsRoundTrip(g: Header, h: Header, payload: Bytes)
    requires WfExtensions(h)
    ensures |PutExtensions(h)| == 4 + (ExtensionLength(h) + 3) / 4 * 4
    ensures ReadExtensions(g, PutExtensions(h) + payload)
            == Parsed(g.(profile := h.profile, extensions := h.extensions), payload)
  {
    PaddedSize(h);
    hide Words, PutU16, GetU16, ReadElements, PutElements, WfExtensions, Zeros, PlainProfile, ReadExtensions,
      ExtensionLength;
    var words := Words(ExtensionLength(h));
    var k := words * 4 - ExtensionLength(h);
    var body := PutElements(h.profile, h.extensions);
    ElementsRoundTrip(h, k, payload);
    Assoc(body, Zeros(k), payload);
    BlockRead(g, h.profile, words, body + Zeros(k), payload, h.extensions);
  }

  /** Everything of a header but its extensions. */
  function PutFront(h: Header): (r: Bytes)
    ensures |r| == CSRC_OFFSET + |h.csrc| * 4
  {
    PutFixed(FirstByte(h), SecondByte(h), h.sequenceNumber, h.timestamp, h.ssrc) + PutCsrcs(h.csrc)
  }

  lemma FrontRead(h: Header, tail: Bytes)
    requires WfFront(h)
    ensures var b := PutFront(h) + tail;
            && |b| >= CSRC_OFFSET + |h.csrc| * 4 && b[0] % 16 == |h.csrc| && b[CSRC_OFFSET + |h.csrc| * 4..] == tail
            && ReadFixed(b, ReadCsrcs(b[CSRC_OFFSET..], |h.csrc|)) == h.(profile := 0, extensions := [])
  {
    FirstByteIs(h);
    SecondByteIs(h);
    hide FirstByte, SecondByte, PutU16, PutU32, GetU16, GetU32, PutFixed, ReadCsrcs, PutCsrcs;
    BitsRead(h.version, h.padding, h.extension, |h.csrc|, FirstByte(h));
    assert SecondByte(h) / 128 == (if h.marker then 1 else 0) && SecondByte(h) % 128 == h.payloadType;
    var fixed, cs := PutFixed(FirstByte(h), SecondByte(h), h.sequenceNumber, h.timestamp, h.ssrc), PutCsrcs(h.csrc);
    Assoc(fixed, cs, tail);
    FixedRead(FirstByte(h), SecondByte(h), h.sequenceNumber, h.timestamp, h.ssrc, cs + tail);
    CsrcRoundTrip(h.csrc, tail);
  }

  lemma UnmarshalFront(h: Header, tail: Bytes)
    requires WfFront(h)
    ensures var g := h.(profile := 0, extensions := []);
            Unmarshal(PutFront(h) + tail) == if h.extension then ReadExtensions(g, tail) else Parsed(g, tail)
  {
    FrontRead(h, tail);
    hide PutFront, ReadFixed, ReadCsrcs, ReadExtensions, WfFront;
  }

  /**
   Round trip: a well-formed header marshals into any buffer of at least `marshal_size` bytes, takes
   exactly that many, and unmarshalling them followed by any payload returns the header and leaves
   exactly the payload.
   */
  lemma HeaderRoundTrip(h: Header, capacity: nat, payload: Bytes)
    requires WfHeader(h) && capacity >= MarshalSize(h)
    ensures var r := Marshal(h, capacity);
            && r.Written? && |r.bytes| == MarshalSize(h)
            && Unmarshal(r.bytes + payload) == Parsed(h, payload)
  {
    hide PutFront, Unmarshal, PutExtensions, ReadExtensions, WfElement, PayloadBytes, PerExtension;
    if h.extension {
      if PlainProfile(h.profile) {
        PlainLength(h.profile, h.extensions);
      }
      UnmarshalFront(h, PutExtensions(h) + payload);
      ExtensionsRoundTrip(h.(profile := 0, extensions := []), h, payload);
      Assoc(PutFront(h), PutExtensions(h), payload);
    } else {
      UnmarshalFront(h, payload);
    }
  }

  // ---------------------------------------------------------------- only well-formed headers are read

  ghost predicate AllWf(profile: U16, es: seq<Extension>) {
    forall i :: 0 <= i < |es| ==> WfElement(profile, es[i])
  }

  /** Elements that can be written, and that start within `left` bytes. */
  ghost predicate Within(profile: U16, r: Elements, left: int) {
    r.Elements? ==>
      AllWf(profile, r.extensions)
      && PayloadBytes(r.extensions) + |r.extensions| * PerExtension(profile) <= (if left > 0 then left + 256 else 0)
  }

  lemma WithinStep(profile: U16, e: Extension, r: Elements, left: int, n: nat)
    requires WfElement(profile, e) && left > 0 && n == |e.payload| + PerExtension(profile) <= 257
    requires Within(profile, r, left - n)
    ensures Within(profile, Prepend(e, r), left)
  {
    hide WfElement, PerExtension;
    if r.Elements? {
      var es := [e] + r.extensions;
      assert es[1..] == r.extensions;
      assert PayloadBytes(es) == |e.payload| + PayloadBytes(r.extensions);
      var k, m := PerExtension(profile), |r.extensions|;
      assert (m + 1) * k == m * k + k;
    }
  }

  lemma {:induction false} OneByteWithin(b: Bytes, left: int)
    ensures Within(ONE_BYTE, ReadOneByte(b, left), left)
    decreases |b|
  {
    if left > 0 && b != [] {
      if b[0] == 0 {
        OneByteWithin(b[1..], left - 1);
      } else if High4(b[0]) != RESERVED_ID && |b| - 1 >= Low4(b[0]) as int + 1 {
        var n: int := Low4(b[0]) as int + 1;
        OneByteWithin(b[1 + n..], left - 1 - n);
        WithinStep(ONE_BYTE, Extension(High4(b[0]), b[1..1 + n]), ReadOneByte(b[1 + n..], left - 1 - n), left, 1 + n);
      }
    }
  }

  lemma {:induction false} TwoByteWithin(b: Bytes, left: int)
    ensures Within(TWO_BYTE, ReadTwoByte(b, left), left)
    decreases |b|
  {
    if left > 0 && b != [] {
      if b[0] == 0 {
        TwoByteWithin(b[1..], left - 1);
      } else if |b| >= 2 && |b| - 2 >= b[1] {
        var n: int := b[1];
        TwoByteWithin(b[2 + n..], left - 2 - n);
        WithinStep(TWO_BYTE, Extension(b[0], b[2..2 + n]), ReadTwoByte(b[2 + n..], left - 2 - n), left, 2 + n);
      }
    }
  }

  /** What is read from a block of `length` bytes can be written, in at most a few bytes more. */
  lemma ReadWithin(profile: U16, b: Bytes, words: U16)
    requires words * 4 <= |b| && ReadElements(profile, b, words * 4).Elements?
    ensures var es := ReadElements(profile, b, words * 4).extensions;
            && AllWf(profile, es) && (PlainProfile(profile) ==> |es| == 1)
            && PayloadBytes(es) + |es| * PerExtension(profile) <= words * 4 + 256
            && (PlainProfile(profile) ==> PayloadBytes(es) == words * 4)
  {
    hide ReadOneByte, ReadTwoByte;
    if profile == ONE_BYTE {
      OneByteWithin(b, words * 4);
      OneByteOther(b, words * 4);
    } else if profile == TWO_BYTE {
      TwoByteWithin(b, words * 4);
      TwoByteNone(b);
    } else {
      var es := ReadElements(profile, b, words * 4).extensions;
      assert PayloadBytes(es) == |es[0].payload| + PayloadBytes(es[1..]);
    }
  }

  lemma TwoByteNone(b: Bytes)
    ensures ReadTwoByte(b, 0) == Elements([], b)
  {
  }

  /** More than 65532 bytes of extensions are written under a word count that is too small by far. */
  lemma TooLong(length: nat)
    requires length > 65532
    ensures Words(length) * 4 + 256 < length
  {
    var low := length % 0x1_0000;
    if length < 0x1_0000 {
      assert low == length && (low + 3) % 0x1_0000 == low + 3 - 0x1_0000;
    } else {
      assert low <= length - 0x1_0000;
      assert (low + 3) % 0x1_0000 <= low + 3;
    }
  }

  /** Whatever is read as a header fits its bits, and without extensions it has no profile either. */
  lemma ParsedFront(b: Bytes, h: Header, rest: Bytes)
    requires Unmarshal(b) == Parsed(h, rest)
    ensures WfFront(h) && (!h.extension ==> h.profile == 0 && h.extensions == [])
  {
    hide GetU16, GetU32, ReadElements;
  }

  /** The block is read with the word count that was written. */
  lemma BlockCount(g: Header, profile: U16, words: U16, tail: Bytes)
    ensures var b := PutU16(profile) + (PutU16(words) + tail);
            ReadExtensions(g, b) ==
            if |tail| < words * 4 then Failed(SizeInsufficientForExtension)
            else
              match ReadElements(profile, tail, words * 4)
              case Aborts => Panics
              case Elements(es, rest) => Parsed(g.(profile := profile, extensions := es), rest)
  {
    hide PutU16, GetU16, ReadElements;
    var p, w := PutU16(profile), PutU16(words);
    var b := p + (w + tail);
    assert b[2..] == w + tail && b[4..] == tail;
    U16Read(profile, w + tail);
    U16Read(words, tail);
  }

  /** Extensions that are read back as they were written were well-formed. */
  lemma ReadBackIsWf(g: Header, h: Header, payload: Bytes)
    requires ReadExtensions(g, PutExtensions(h) + payload)
          == Parsed(g.(profile := h.profile, extensions := h.extensions), payload)
    ensures WfExtensions(h)
  {
    hide PutU16, ReadElements, PutElements, Words, ReadExtensions, WfElement;
    var length := ExtensionLength(h);
    var words: nat := Words(length);
    var pad := Zeros(if words * 4 > length then words * 4 - length else 0);
    var tail := PutElements(h.profile, h.extensions) + pad + payload;
    assert PutExtensions(h) + payload == PutU16(h.profile) + (PutU16(words) + tail);
    BlockCount(g, h.profile, words, tail);
    ReadWithin(h.profile, tail, words);
    if length > 65532 {
      TooLong(length);
    }
  }

  /**
   The round trip is exact: a header is written, and read back with nothing of the payload lost, if
   and only if the buffer holds `marshal_size` bytes and the header is well-formed.
   */
  lemma HeaderRoundTripIff(h: Header, capacity: nat, payload: Bytes)
    ensures var r := Marshal(h, capacity);
            (r.Written? && Unmarshal(r.bytes + payload) == Parsed(h, payload))
            <==> capacity >= MarshalSize(h) && WfHeader(h)
  {
    hide PutFront, Unmarshal, PutExtensions, ReadExtensions, WfExtensions, MarshalSize;
    var r := Marshal(h, capacity);
    if capacity >= MarshalSize(h) && WfHeader(h) {
      HeaderRoundTrip(h, capacity, payload);
    }
    if r.Written? && Unmarshal(r.bytes + payload) == Parsed(h, payload) {
      ParsedFront(r.bytes + payload, h, payload);
      if h.extension {
        var g := h.(profile := 0, extensions := []);
        Assoc(PutFront(h), PutExtensions(h), payload);
        UnmarshalFront(h, PutExtensions(h) + payload);
        assert g.(profile := h.profile, extensions := h.extensions) == h;
        ReadBackIsWf(g, h, payload);
      }
    }
  }

  // ---------------------------------------------------------------- when reading panics

  /** A byte of padding, or an element of as many bytes as its head says. */
  ghost predicate IsPiece(profile: U16, x: Bytes) {
    x == [0] || (Announces(profile, x) && |x| == Announced(profile, x))
  }

  /** `x` begins with the head of an element. */
  ghost predicate Announces(profile: U16, x: Bytes) {
    x != [] && x[0] != 0 && if profile == ONE_BYTE then High4(x[0]) != RESERVED_ID else |x| >= 2
  }

  ghost function Announced(profile: U16, x: Bytes): nat
    requires Announces(profile, x)
  {
    if profile == ONE_BYTE then Low4(x[0]) as int + 2 else x[1] as int + 2
  }

  /** `x` ends before the element with which it begins, in its payload or already in its head. */
  ghost predicate CutOff(profile: U16, x: Bytes) {
    || (Announces(profile, x) && |x| < Announced(profile, x))
    || (profile == TWO_BYTE && |x| == 1 && x[0] != 0)
  }

  ghost predicate Pieces(profile: U16, ps: seq<Bytes>) {
    forall i :: 0 <= i < |ps| ==> IsPiece(profile, ps[i])
  }

  /** `b` is whole pieces and then, before `length` bytes are over, an element that is cut off. */
  ghost predicate CutAfter(profile: U16, b: Bytes, length: int, ps: seq<Bytes>, x: Bytes) {
    Pieces(profile, ps) && b == Flatten(ps) + x && |Flatten(ps)| < length && CutOff(profile, x)
  }

  ghost predicate Overruns(profile: U16, b: Bytes, length: int) {
    exists ps, x :: CutAfter(profile, b, length, ps, x)
  }

  lemma OverrunsHere(profile: U16, b: Bytes, length: int)
    requires length > 0 && CutOff(profile, b)
    ensures Overruns(profile, b, length)
  {
    assert Flatten<Byte>([]) + b == b;
    assert CutAfter(profile, b, length, [], b);
  }

  /** Past a whole piece the question stays the same. */
  lemma OverrunsLater(profile: U16, b: Bytes, length: int, n: nat)
    requires 0 < n <= |b| && length > 0 && IsPiece(profile, b[..n]) && !CutOff(profile, b)
    requires b[0] == 0 ==> n == 1
    requires Announces(profile, b) ==> n == Announced(profile, b)
    ensures Overruns(profile, b, length) <==> Overruns(profile, b[n..], length - n)
  {
    hide CutOff, Announces, Announced;
    if Overruns(profile, b[n..], length - n) {
      var ps, x :| CutAfter(profile, b[n..], length - n, ps, x);
      var qs := [b[..n]] + ps;
      assert qs[1..] == ps && Flatten(qs) == b[..n] + Flatten(ps);
      assert b == Flatten(qs) + x;
      assert CutAfter(profile, b, length, qs, x);
    }
    if Overruns(profile, b, length) {
      var ps, x :| CutAfter(profile, b, length, ps, x);
      assert ps == [] ==> b == x;
      FirstPiece(profile, b, n, ps, x);
      assert CutAfter(profile, b[n..], length - n, ps[1..], x);
    }
  }

  /** The head of a piece says how long it is. */
  lemma PieceLength(profile: U16, b: Bytes, n: nat, m: nat)
    requires 0 < n <= |b| && 0 < m <= |b| && IsPiece(profile, b[..n]) && IsPiece(profile, b[..m])
    requires b[0] == 0 ==> n == 1
    requires Announces(profile, b) ==> n == Announced(profile, b)
    ensures m == n
  {
    hide High4, Low4;
    var p := b[..m];
    assert p[0] == b[0] && (m > 1 ==> p[1] == b[1]);
  }

  lemma FirstPiece(profile: U16, b: Bytes, n: nat, ps: seq<Bytes>, x: Bytes)
    requires 0 < n <= |b| && ps != [] && Pieces(profile, ps) && b == Flatten(ps) + x
    requires IsPiece(profile, b[..n]) && (b[0] == 0 ==> n == 1)
    requires Announces(profile, b) ==> n == Announced(profile, b)
    ensures |Flatten(ps)| == n + |Flatten(ps[1..])| && b[n..] == Flatten(ps[1..]) + x
  {
    var p := ps[0];
    assert IsPiece(profile, p) && p != [];
    hide IsPiece, Announces, Announced;
    assert Flatten(ps) == p + Flatten(ps[1..]);
    hide Flatten;
    Assoc(p, Flatten(ps[1..]), x);
    DropFront(p, Flatten(ps[1..]) + x);
    PieceLength(profile, b, n, |p|);
  }

  /** One-byte elements: only what is cut off stops the loop, and padding or an element leads on. */
  lemma {:induction false} OneByteAborts(b: Bytes, left: int)
    requires left <= |b|
    ensures ReadOneByte(b, left).Aborts? <==> Overruns(ONE_BYTE, b, left)
    decreases |b|
  {
    hide High4, Low4, Overruns;
    if left <= 0 {
      NoneLeft(ONE_BYTE, b, left);
    } else if b[0] == 0 {
      OverrunsLater(ONE_BYTE, b, left, 1);
      OneByteAborts(b[1..], left - 1);
    } else if High4(b[0]) == RESERVED_ID {
      ReservedStops(b, left);
    } else {
      var n: int := Low4(b[0]) as int + 1;
      OneByteTurn(b, left, n);
      if |b| - 1 < n {
        OverrunsHere(ONE_BYTE, b, left);
      } else {
        OverrunsLater(ONE_BYTE, b, left, 1 + n);
        OneByteAborts(b[1 + n..], left - 1 - n);
      }
    }
  }

  lemma {:induction false} TwoByteAborts(b: Bytes, left: int)
    requires left <= |b|
    ensures ReadTwoByte(b, left).Aborts? <==> Overruns(TWO_BYTE, b, left)
    decreases |b|
  {
    hide Overruns, ReadTwoByte;
    if left <= 0 {
      NoneLeft(TWO_BYTE, b, left);
      TwoByteDone(b, left);
    } else {
      TwoByteTurn(b, left);
      if b[0] == 0 {
        OverrunsLater(TWO_BYTE, b, left, 1);
        TwoByteAborts(b[1..], left - 1);
      } else if |b| < 2 || |b| - 2 < b[1] {
        OverrunsHere(TWO_BYTE, b, left);
      } else {
        var n: int := b[1];
        OverrunsLater(TWO_BYTE, b, left, 2 + n);
        TwoByteAborts(b[2 + n..], left - 2 - n);
      }
    }
  }

  lemma NoneLeft(profile: U16, b: Bytes, left: int)
    requires left <= 0
    ensures !Overruns(profile, b, left)
  {
  }

  lemma HeadOfPieces(ps: seq<Bytes>, x: Bytes)
    requires Pieces(ONE_BYTE, ps) && (ps == [] ==> CutOff(ONE_BYTE, x))
    ensures var b := Flatten(ps) + x; b != [] && (b[0] == 0 || High4(b[0]) != RESERVED_ID)
  {
    hide High4, Low4;
    if ps != [] {
      assert IsPiece(ONE_BYTE, ps[0]);
    }
  }

  /** A reserved head ends the block. */
  lemma ReservedStops(b: Bytes, left: int)
    requires b != [] && b[0] != 0 && High4(b[0]) == RESERVED_ID
    ensures !Overruns(ONE_BYTE, b, left)
  {
    hide High4, Low4, Flatten;
    forall ps, x
      ensures !CutAfter(ONE_BYTE, b, left, ps, x)
    {
      if Pieces(ONE_BYTE, ps) && CutOff(ONE_BYTE, x) {
        HeadOfPieces(ps, x);
      }
    }
  }

  /** Where the extension block of a packet begins. */
  function BlockStart(b: Bytes): nat
    requires b != []
  {
    CSRC_OFFSET + b[0] % 16 * 4
  }

  /** The packet has an extension block, and is long enough for the length it declares. */
  predicate HasBlock(b: Bytes) {
    && b != [] && b[0] / 16 % 2 == 1 && |b| >= BlockStart(b) + 4
    && |b| >= BlockStart(b) + 4 + GetU16(b[BlockStart(b) + 2..]) * 4
  }

  /**
   Exactly which packets make reading panic: those with one- or two-byte extensions of which one
   begins inside the declared block and runs past the end of the packet.
   */
  lemma UnmarshalPanicsIff(b: Bytes)
    ensures Unmarshal(b) == Panics <==>
            && HasBlock(b)
            && var at := BlockStart(b);
               var profile := GetU16(b[at..]);
               !PlainProfile(profile) && Overruns(profile, b[at + 4..], GetU16(b[at + 2..]) * 4)
  {
    hide GetU16, GetU32, ReadOneByte, ReadTwoByte, Overruns, ReadCsrcs;
    if HasBlock(b) {
      var at := BlockStart(b);
      var length := GetU16(b[at + 2..]) * 4;
      assert b[at..][2..] == b[at + 2..] && b[at..][4..] == b[at + 4..];
      OneByteAborts(b[at + 4..], length);
      TwoByteAborts(b[at + 4..], length);
    } else if |b| >= CSRC_OFFSET && |b| >= BlockStart(b) + 4 {
      assert b[BlockStart(b)..][2..] == b[BlockStart(b) + 2..];
    }
  }

  // ---------------------------------------------------------------- the imperative codec

  lemma {:induction false} ElementsSnoc(profile: U16, es: seq<Extension>, i: nat)
    requires i < |es|
    ensures PutElements(profile, es[..i + 1]) == PutElements(profile, es[..i]) + PutElement(profile, es[i])
    decreases i
  {
    hide PutElement;
    if i == 0 {
      assert es[..1] == [es[0]];
      assert PutElements(profile, [es[0]]) == PutElement(profile, es[0]) + [];
    } else {
      var t := es[1..];
      assert es[..i + 1][1..] == t[..i] && es[..i][1..] == t[..i - 1];
      ElementsSnoc(profile, t, i - 1);
      Assoc(PutElement(profile, es[0]), PutElements(profile, t[..i - 1]), PutElement(profile, t[i - 1]));
    }
  }

  method PutCsrcLoop(cs: seq<U32>) returns (buf: Bytes)
    ensures buf == PutCsrcs(cs)
  {
    hide PutU32;
    buf := [];
    var i := 0;
    while i < |cs|
      invariant 0 <= i <= |cs| && buf == PutCsrcs(cs[..i])
    {
      assert cs[..i + 1][..i] == cs[..i];
      buf := buf + PutU32(cs[i]);
      i := i + 1;
    }
    assert cs[..i] == cs;
  }

  method PutExtensionLoop(profile: U16, es: seq<Extension>) returns (buf: Bytes)
    ensures buf == PutElements(profile, es)
  {
    buf := [];
    var i := 0;
    while i < |es|
      invariant 0 <= i <= |es| && buf == PutElements(profile, es[..i])
    {
      ElementsSnoc(profile, es, i);
      buf := buf + PutElement(profile, es[i]);
      i := i + 1;
    }
    assert es[..i] == es;
  }

  /** `marshal_to`: the bytes written, in the order they are put. */
  method MarshalTo(h: Header, capacity: nat) returns (r: Marshalled)
    ensures r == Marshal(h, capacity)
  {
    hide Or8, Shl8, PutU16, PutU32, PutCsrcs, PutElements, Words, ExtensionLength;
    if capacity < MarshalSize(h) {
      return Refused(BufferTooSmall);
    }
    var b0 := Or8(Shl8(h.version, 6), |h.csrc| % 0x100);
    if h.padding {
      b0 := Or8(b0, 32);
    }
    if h.extension {
      b0 := Or8(b0, 16);
    }
    var b1 := h.payloadType;
    if h.marker {
      b1 := Or8(b1, 128);
    }
    var buf := PutFixed(b0, b1, h.sequenceNumber, h.timestamp, h.ssrc);
    var cs := PutCsrcLoop(h.csrc);
    buf := buf + cs;
    if h.extension {
      var length := ExtensionLength(h);
      if PlainProfile(h.profile) && length % 4 != 0 {
        return Refused(PayloadNot32BitWords);
      }
      if PlainProfile(h.profile) && |h.extensions| != 1 {
        return Refused(IdRange);
      }
      var words: nat := Words(length);
      var block := PutU16(h.profile) + (PutU16(words) + []);
      var body := PutExtensionLoop(h.profile, h.extensions);
      var pad := Zeros(if words * 4 > length then words * 4 - length else 0);
      assert PutExtensions(h) == PutU16(h.profile) + (PutU16(words) + (body + pad));
      assert block + (body + pad) == PutExtensions(h);
      buf := buf + (block + (body + pad));
    }
    r := Written(buf);
  }

  method ReadCsrcLoop(b: Bytes, n: nat) returns (cs: seq<U32>)
    requires |b| >= n * 4
    ensures cs == ReadCsrcs(b, n)
  {
    hide GetU32;
    cs := [];
    var i := 0;
    while i < n
      invariant 0 <= i <= n && cs == ReadCsrcs(b, i)
    {
      cs := cs + [GetU32(b[i * 4..])];
      i := i + 1;
    }
  }

  /** The elements found so far, followed by what remains to be read. */
  ghost function Found(es: seq<Extension>, r: Elements): Elements {
    match r
    case Elements(more, rest) => Elements(es + more, rest)
    case Aborts => Aborts
  }

  lemma FoundStep(es: seq<Extension>, e: Extension, r: Elements)
    ensures Found(es, Prepend(e, r)) == Found(es + [e], r)
  {
    if r.Elements? {
      Assoc(es, [e], r.extensions);
    }
  }

  /** One turn of the loop, at an element that fits. */
  lemma OneByteTurn(b: Bytes, left: int, n: int)
    requires left > 0 && b != [] && b[0] != 0 && High4(b[0]) != RESERVED_ID && n == Low4(b[0]) as int + 1
    ensures ReadOneByte(b, left) == if |b| - 1 < n then Aborts
                                    else Prepend(Extension(High4(b[0]), b[1..1 + n]),
                                      ReadOneByte(b[1 + n..], left - 1 - n))
  {
    hide High4, Low4;
  }

  lemma OneByteOther(b: Bytes, left: int)
    ensures left <= 0 ==> ReadOneByte(b, left) == Elements([], b)
    ensures left > 0 && b == [] ==> ReadOneByte(b, left) == Aborts
    ensures left > 0 && b != [] && b[0] == 0 ==> ReadOneByte(b, left) == ReadOneByte(b[1..], left - 1)
    ensures left > 0 && b != [] && b[0] != 0 && High4(b[0]) == RESERVED_ID
            ==> ReadOneByte(b, left) == Elements([], b[1..])
  {
    hide High4, Low4;
  }

  method OneByteLoop(b: Bytes, length: nat) returns (r: Elements)
    ensures r == ReadOneByte(b, length)
  {
    hide High4, Low4, ReadOneByte;
    var rest, es := b, [];
    var left: int := length;
    while left > 0
      invariant ReadOneByte(b, length) == Found(es, ReadOneByte(rest, left))
      decreases |rest|
    {
      OneByteOther(rest, left);
      if rest == [] {
        return Aborts;
      }
      var head := rest[0];
      if head == 0 {
        rest, left := rest[1..], left - 1;
        continue;
      }
      if High4(head) == RESERVED_ID {
        return Elements(es, rest[1..]);
      }
      var n: int := Low4(head) as int + 1;
      OneByteTurn(rest, left, n);
      if |rest| - 1 < n {
        return Aborts;
      }
      var e := Extension(High4(head), rest[1..1 + n]);
      FoundStep(es, e, ReadOneByte(rest[1 + n..], left - 1 - n));
      es, rest, left := es + [e], rest[1 + n..], left - 1 - n;
    }
    OneByteOther(rest, left);
    r := Elements(es, rest);
  }

  /** One turn of the loop. */
  lemma TwoByteTurn(b: Bytes, left: int)
    requires left > 0
    ensures ReadTwoByte(b, left) ==
            if b == [] then Aborts
            else if b[0] == 0 then ReadTwoByte(b[1..], left - 1)
            else if |b| < 2 || |b| - 2 < b[1] then Aborts
            else
              var n: int := b[1];
              Prepend(Extension(b[0], b[2..2 + n]), ReadTwoByte(b[2 + n..], left - 2 - n))
  {
  }

  lemma TwoByteDone(b: Bytes, left: int)
    requires left <= 0
    ensures ReadTwoByte(b, left) == Elements([], b)
  {
  }

  lemma FoundNothing(es: seq<Extension>, r: Elements)
    ensures Found([], r) == r && (r.Elements? ==> Found(es, Elements([], r.rest)) == Elements(es, r.rest))
  {
    assert es + [] == es;
    if r.Elements? {
      assert [] + r.extensions == r.extensions;
    }
  }

  method TwoByteLoop(b: Bytes, length: nat) returns (r: Elements)
    ensures r == ReadTwoByte(b, length)
  {
    hide ReadTwoByte;
    var rest, es := b, [];
    var left: int := length;
    FoundNothing([], ReadTwoByte(b, length));
    while left > 0
      invariant ReadTwoByte(b, length) == Found(es, ReadTwoByte(rest, left))
      decreases |rest|
    {
      TwoByteTurn(rest, left);
      if rest == [] {
        return Aborts;
      }
      if rest[0] == 0 {
        rest, left := rest[1..], left - 1;
        continue;
      }
      if |rest| < 2 || |rest| - 2 < rest[1] {
        return Aborts;
      }
      var n: int := rest[1];
      var e := Extension(rest[0], rest[2..2 + n]);
      FoundStep(es, e, ReadTwoByte(rest[2 + n..], left - 2 - n));
      es, rest, left := es + [e], rest[2 + n..], left - 2 - n;
    }
    TwoByteDone(rest, left);
    r := Elements(es, rest);
  }

  method UnmarshalFrom(b: Bytes) returns (r: Unmarshalled)
    ensures r == Unmarshal(b)
  {
    hide ReadOneByte, ReadTwoByte, ReadCsrcs, GetU16, GetU32;
    if |b| < HEADER_LENGTH {
      return Failed(SizeInsufficient);
    }
    var cc := b[0] % 16;
    var offset := CSRC_OFFSET + cc * 4;
    if |b| < offset {
      return Failed(SizeInsufficient);
    }
    var cs := ReadCsrcLoop(b[CSRC_OFFSET..], cc);
    var h := ReadFixed(b, cs);
    var rest := b[offset..];
    if !h.extension {
      return Parsed(h, rest);
    }
    if |rest| < 4 {
      return Failed(SizeInsufficientForExtension);
    }
    var profile, length := GetU16(rest), GetU16(rest[2..]) * 4;
    if |rest| - 4 < length {
      return Failed(SizeInsufficientForExtension);
    }
    var body := rest[4..];
    var found;
    if profile == ONE_BYTE {
      found := OneByteLoop(body, length);
    } else if profile == TWO_BYTE {
      found := TwoByteLoop(body, length);
    } else {
      found := Elements([Extension(0, body[..length])], body[length..]);
    }
    r := if found == Aborts then Panics else Parsed(h.(profile := profile, extensions := found.extensions), found.rest);
  }
}
