/** STUN messages and their in-place encoder (rtc-stun/src/message.rs, rtc-stun/src/attributes.rs). */
module StunMessage {
  import opened Bytes

  const MAGIC_COOKIE := 0x2112A442
  const ATTR_HEADER := 4
  const HEADER := 20

  type TransactionId = b: Bytes | |b| == 12 witness [0, 0, 0, 0, 0, 0, 0, 0, 0, 0, 0, 0]

  type Bit = n: nat | n < 2
  type Bits3 = n: nat | n < 8
  type Bits4 = n: nat | n < 0x10
  type Bits5 = n: nat | n < 0x20
  type Bits6 = n: nat | n < 0x40

  /**
   Method and class by the bit groups the type field is made of: M3-M0, M6-M4, M11-M7 and the four
   bits above them, which the field does not carry; C0, C1 and the six bits above, likewise.
   */
  datatype MessageType = MessageType(a: Bits4, b: Bits3, d: Bits5, top: Bits4, c0: Bit, c1: Bit, rest: Bits6)

  const NO_TYPE := MessageType(0, 0, 0, 0, 0, 0, 0)

  /** An attribute as kept beside the raw bytes; `length` is what its 16-bit length field says. */
  datatype Attribute = Attribute(typ: U16, length: U16, value: Bytes)

  datatype MessageState = MessageState(
    typ: MessageType,
    length: nat,
    id: TransactionId,
    attributes: seq<Attribute>,
    raw: Bytes)

  datatype DecodeError = HeaderEof | BadCookie | ShortBuffer | ShortAttributeHeader | ShortAttributeValue

  // ---------------------------------------------------------------- the type field

  function MethodNumber(t: MessageType): U16 {
    t.a + t.b * 0x10 + t.d * 0x80 + t.top * 0x1000
  }

  function ClassNumber(t: MessageType): Byte {
    t.c0 + t.c1 * 2 + t.rest * 4
  }

  function TypeOf(methodNumber: U16, classNumber: Byte): MessageType {
    MessageType(methodNumber % 0x10, methodNumber / 0x10 % 8, methodNumber / 0x80 % 0x20, methodNumber / 0x1000,
                classNumber % 2, classNumber / 2 % 2, classNumber / 4)
  }

  /** The field interleaves the groups: M11-M7 C1 M6-M4 C0 M3-M0. */
  function TypeValue(t: MessageType): U16 {
    t.a + t.c0 * 0x10 + t.b * 0x20 + t.c1 * 0x100 + t.d * 0x200
  }

  function ReadType(v: U16): MessageType {
    MessageType(v % 0x10, v / 0x20 % 8, v / 0x200 % 0x20, 0, v / 0x10 % 2, v / 0x100 % 2, 0)
  }

  predicate WfType(t: MessageType) {
    MethodNumber(t) < 0x1000 && ClassNumber(t) < 4
  }

  lemma MethodParts(m: nat, x: nat, y: nat, z: nat)
    requires x == m / 0x10 && y == x / 8 && z == y / 0x20
    ensures m == m % 0x10 + (x % 8) * 0x10 + (y % 0x20) * 0x80 + z * 0x1000
  {
    assert y == y % 0x20 + z * 0x20;
    assert x == x % 8 + y * 8;
  }

  lemma MethodQuotients(m: nat)
    ensures m / 0x80 == m / 0x10 / 8 && m / 0x1000 == m / 0x80 / 0x20
  {
  }

  /** The groups stand for exactly the 16-bit methods and 8-bit classes. */
  lemma TypeOfNumbers(methodNumber: U16, classNumber: Byte)
    ensures var t := TypeOf(methodNumber, classNumber); MethodNumber(t) == methodNumber && ClassNumber(t) == classNumber
  {
    MethodQuotients(methodNumber);
    MethodParts(methodNumber, methodNumber / 0x10, methodNumber / 0x80, methodNumber / 0x1000);
    assert classNumber == classNumber % 2 + (classNumber / 2 % 2) * 2 + (classNumber / 4) * 4;
  }

  lemma ReadOfValue(t: MessageType)
    ensures ReadType(TypeValue(t)) == t.(top := 0, rest := 0)
  {
    var v := TypeValue(t);
    assert v / 0x10 == t.c0 + t.b * 2 + t.c1 * 0x10 + t.d * 0x20;
    assert v / 0x20 == t.b + t.c1 * 8 + t.d * 0x10;
    assert v / 0x100 == t.c1 + t.d * 2;
    assert v / 0x200 == t.d;
  }

  /** The type survives the two-byte field exactly when it fits 12 method bits and 2 class bits. */
  lemma TypeRoundTripIff(t: MessageType)
    ensures ReadType(TypeValue(t)) == t <==> WfType(t)
  {
    ReadOfValue(t);
    hide ReadType, TypeValue;
  }

  lemma Quotients(v: nat)
    ensures v / 0x20 == v / 0x10 / 2 && v / 0x100 == v / 0x20 / 8 && v / 0x200 == v / 0x100 / 2
  {
  }

  lemma ValueParts(v: nat, x: nat, y: nat, z: nat, w: nat, e: nat)
    requires x == v / 0x10 && y == x / 2 && z == y / 8 && w == z / 2 && e == w / 0x20
    ensures v == v % 0x10 + (x % 2) * 0x10 + (y % 8) * 0x20 + (z % 2) * 0x100 + (w % 0x20) * 0x200 + e * 0x4000
  {
    assert w == w % 0x20 + e * 0x20;
    assert z == z % 2 + w * 2;
    assert y == y % 8 + z * 8;
    assert x == x % 2 + y * 2;
  }

  lemma ValueOfRead(v: U16, e: nat)
    requires e == v / 0x200 / 0x20
    ensures v == TypeValue(ReadType(v)) + e * 0x4000
  {
    Quotients(v);
    ValueParts(v, v / 0x10, v / 0x20, v / 0x100, v / 0x200, e);
  }

  /** A two-byte field survives exactly when its two top bits are clear. */
  lemma TypeValueRoundTripIff(v: U16)
    ensures TypeValue(ReadType(v)) == v <==> v < 0x4000
  {
    hide ReadType;
    ValueOfRead(v, v / 0x200 / 0x20);
  }

  // ---------------------------------------------------------------- bytes of a message

  /** The low 16 bits, which the cast to `u16` keeps. */
  function Low16(n: nat): U16 {
    n % 0x1_0000
  }

  /** `length` rounded up to a multiple of 4. */
  function Padded(length: nat): (n: nat)
    ensures length <= n < length + 4
  {
    var n := 4 * (length / 4);
    if n < length then n + 4 else n
  }

  /** Padding is added exactly when the truncated length is no multiple of 4. */
  lemma PaddingNeeded(n: nat)
    ensures Low16(n) % 4 != 0 <==> Padded(n) != n
  {
  }

  /** An attribute on the wire, with its length field and zero padding. */
  function Tlv(typ: U16, value: Bytes): (r: Bytes)
    ensures |r| == ATTR_HEADER + Padded(|value|)
  {
    PutU16(typ) + (PutU16(Low16(|value|)) + (value + Zeros(Padded(|value|) - |value|)))
  }

  function Body(attributes: seq<Attribute>): Bytes {
    if attributes == [] then [] else Tlv(attributes[0].typ, attributes[0].value) + Body(attributes[1..])
  }

  function Header(typ: U16, length: nat, id: TransactionId): (r: Bytes)
    ensures |r| == HEADER
  {
    PutU16(typ) + (PutU16(Low16(length)) + (PutU32(MAGIC_COOKIE) + id))
  }

  /** The buffer is the header and the padded TLVs of the attribute list, and `length` counts the latter. */
  ghost predicate Spelled(typ: U16, length: nat, id: TransactionId, attributes: seq<Attribute>, raw: Bytes) {
    raw == Header(typ, length, id) + Body(attributes) && length == |Body(attributes)|
  }

  ghost predicate LengthsMatch(attributes: seq<Attribute>) {
    forall i :: 0 <= i < |attributes| ==> attributes[i].length == Low16(|attributes[i].value|)
  }

  /** What the encoder maintains. */
  ghost predicate Laid(typ: U16, length: nat, id: TransactionId, attributes: seq<Attribute>, raw: Bytes) {
    Spelled(typ, length, id, attributes, raw) && LengthsMatch(attributes)
  }

  ghost predicate Built(m: MessageState) {
    Laid(TypeValue(m.typ), m.length, m.id, m.attributes, m.raw)
  }

  lemma PaddedIsMultiple(length: nat)
    ensures Padded(length) % 4 == 0
  {
  }

  /** The body keeps 32-bit alignment. */
  lemma {:induction false} BodyIsAligned(attributes: seq<Attribute>)
    ensures |Body(attributes)| % 4 == 0
  {
    hide Padded, Tlv;
    if attributes != [] {
      PaddedIsMultiple(|attributes[0].value|);
      BodyIsAligned(attributes[1..]);
    }
  }

  // ---------------------------------------------------------------- writing in place

  function Overwrite(raw: Bytes, at: nat, bytes: Bytes): (r: Bytes)
    requires at + |bytes| <= |raw|
    ensures |r| == |raw|
  {
    raw[..at] + bytes + raw[at + |bytes|..]
  }

  /** The buffer cut or zero-filled to `n` bytes. */
  function Resized(raw: Bytes, n: nat): (r: Bytes)
    ensures |r| == n
  {
    if |raw| >= n then raw[..n] else raw + Zeros(n - |raw|)
  }

  function Grown(raw: Bytes, n: nat): (r: Bytes)
    ensures |r| >= n && |r| >= |raw|
  {
    if |raw| >= n then raw else Resized(raw, n)
  }

  function WithLength(raw: Bytes, length: nat): (r: Bytes)
    ensures |r| >= |raw|
  {
    Overwrite(Grown(raw, 4), 2, PutU16(Low16(length)))
  }

  function WithType(raw: Bytes, typ: U16): (r: Bytes)
    ensures |r| >= |raw|
  {
    Overwrite(Grown(raw, 2), 0, PutU16(typ))
  }

  function WithHeader(raw: Bytes, typ: U16, length: nat, id: TransactionId): (r: Bytes)
    ensures |r| >= HEADER
  {
    var filled := WithLength(WithType(Grown(raw, HEADER), typ), length);
    Overwrite(Overwrite(filled, 4, PutU32(MAGIC_COOKIE)), 8, id)
  }

  function AddedRaw(raw: Bytes, length: nat, typ: U16, value: Bytes): Bytes {
    WithLength(Resized(raw, HEADER + length) + Tlv(typ, value), length + ATTR_HEADER + Padded(|value|))
  }

  function Added(m: MessageState, typ: U16, value: Bytes): MessageState {
    m.(length := m.length + ATTR_HEADER + Padded(|value|),
       attributes := m.attributes + [Attribute(typ, Low16(|value|), value)],
       raw := AddedRaw(m.raw, m.length, typ, value))
  }

  lemma OverwriteAfter(p: Bytes, junk: Bytes, y: Bytes)
    requires |y| <= |junk|
    ensures Overwrite(p + junk, |p|, y) == p + (y + junk[|y|..])
  {
  }

  lemma OverwriteMiddle(p: Bytes, x: Bytes, q: Bytes, y: Bytes)
    requires |x| == |y|
    ensures Overwrite(p + (x + q), |p|, y) == p + (y + q)
  {
    assert (x + q)[|y|..] == q;
    OverwriteAfter(p, x + q, y);
  }

  lemma {:induction false} BodyAppend(a: seq<Attribute>, b: seq<Attribute>)
    ensures Body(a + b) == Body(a) + Body(b)
  {
    if a == [] {
      assert a + b == b;
    } else {
      assert (a + b)[1..] == a[1..] + b;
      BodyAppend(a[1..], b);
      Assoc(Tlv(a[0].typ, a[0].value), Body(a[1..]), Body(b));
    }
  }

  lemma BodySnoc(attributes: seq<Attribute>, a: Attribute)
    ensures Body(attributes + [a]) == Body(attributes) + Tlv(a.typ, a.value)
  {
    BodyAppend(attributes, [a]);
    assert Body([a]) == Tlv(a.typ, a.value) + [];
  }

  /** Rewriting the length field of a built message changes that field and nothing else. */
  lemma LengthRewritten(typ: U16, old_: nat, id: TransactionId, body: Bytes, length: nat)
    ensures WithLength(Header(typ, old_, id) + body, length) == Header(typ, length, id) + body
  {
    hide PutU16, PutU32, Low16, Padded;
    var t, tail := PutU16(typ), PutU32(MAGIC_COOKIE) + id;
    var x, y := PutU16(Low16(old_)), PutU16(Low16(length));
    assert Header(typ, old_, id) + body == t + (x + (tail + body));
    assert Header(typ, length, id) + body == t + (y + (tail + body));
    OverwriteMiddle(t, x, tail + body, y);
  }

  lemma TypeRewritten(old_: U16, length: nat, id: TransactionId, body: Bytes, typ: U16)
    ensures WithType(Header(old_, length, id) + body, typ) == Header(typ, length, id) + body
  {
    hide PutU16, PutU32, Low16, Padded;
    var x, y := PutU16(old_), PutU16(typ);
    var tail := PutU16(Low16(length)) + (PutU32(MAGIC_COOKIE) + id);
    assert Header(old_, length, id) + body == [] + (x + (tail + body));
    assert Header(typ, length, id) + body == [] + (y + (tail + body));
    OverwriteMiddle([], x, tail + body, y);
  }

  lemma IdRewritten(typ: U16, length: nat, old_: TransactionId, body: Bytes, id: TransactionId)
    ensures Overwrite(Header(typ, length, old_) + body, 8, id) == Header(typ, length, id) + body
  {
    hide PutU16, PutU32, Low16, Padded;
    var p := PutU16(typ) + (PutU16(Low16(length)) + PutU32(MAGIC_COOKIE));
    assert Header(typ, length, old_) + body == p + (old_ + body);
    assert Header(typ, length, id) + body == p + (id + body);
    OverwriteMiddle(p, old_, body, id);
  }

  /** `add` repairs the length field, whatever it said before. */
  lemma AddSpells(t: U16, field: nat, id: TransactionId, attributes: seq<Attribute>, a: Attribute)
    ensures var length := |Body(attributes)|;
            Spelled(t, length + ATTR_HEADER + Padded(|a.value|), id, attributes + [a],
                    AddedRaw(Header(t, field, id) + Body(attributes), length, a.typ, a.value))
  {
    hide PutU16, PutU32, Low16, Padded, Header, Body, WithLength;
    var more := Tlv(a.typ, a.value);
    var raw := Header(t, field, id) + Body(attributes);
    BodySnoc(attributes, a);
    assert Resized(raw, HEADER + |Body(attributes)|) == raw;
    Assoc(Header(t, field, id), Body(attributes), more);
    LengthRewritten(t, field, id, Body(attributes) + more, |Body(attributes)| + |more|);
  }

  lemma AddKeepsLaid(t: U16, length: nat, id: TransactionId, attributes: seq<Attribute>, raw: Bytes, typ: U16,
                     value: Bytes)
    requires Laid(t, length, id, attributes, raw)
    ensures Laid(t, length + ATTR_HEADER + Padded(|value|), id,
                 attributes + [Attribute(typ, Low16(|value|), value)], AddedRaw(raw, length, typ, value))
  {
    hide PutU16, PutU32, Low16, Padded, Header, Body, AddedRaw;
    AddSpells(t, length, id, attributes, Attribute(typ, Low16(|value|), value));
  }

  /** `add` keeps the invariant and appends one padded TLV. */
  lemma AddKeepsBuilt(m: MessageState, typ: U16, value: Bytes)
    requires Built(m)
    ensures Built(Added(m, typ, value))
  {
    hide Laid, TypeValue, AddedRaw, Padded, Low16;
    AddKeepsLaid(TypeValue(m.typ), m.length, m.id, m.attributes, m.raw, typ, value);
  }

  /** A written header over an empty buffer is the header and nothing else. */
  lemma HeaderWritten(typ: U16, length: nat, id: TransactionId)
    ensures WithHeader([], typ, length, id) == Header(typ, length, id)
  {
    hide PutU16, PutU32, Low16, Overwrite, Zeros;
    var t, l, c := PutU16(typ), PutU16(Low16(length)), PutU32(MAGIC_COOKIE);
    ZerosSplit(2, 18);
    ZerosSplit(2, 16);
    ZerosSplit(4, 12);
    assert Grown([], HEADER) == [] + (Zeros(2) + Zeros(18));
    OverwriteMiddle([], Zeros(2), Zeros(18), t);
    assert [] + (t + Zeros(18)) == t + (Zeros(2) + Zeros(16));
    OverwriteMiddle(t, Zeros(2), Zeros(16), l);
    assert t + (l + Zeros(16)) == (t + l) + (Zeros(4) + Zeros(12));
    OverwriteMiddle(t + l, Zeros(4), Zeros(12), c);
    assert (t + l) + (c + Zeros(12)) == (t + l + c) + (Zeros(12) + []);
    OverwriteMiddle(t + l + c, Zeros(12), [], id);
    assert (t + l + c) + (id + []) == Header(typ, length, id);
  }

  lemma ZerosSplit(a: nat, b: nat)
    ensures Zeros(a + b) == Zeros(a) + Zeros(b)
  {
  }

  // ---------------------------------------------------------------- reading

  datatype Parsed = Parsed(attributes: seq<Attribute>, error: Option<DecodeError>)

  /** An attribute type of an old draft is read as its successor. */
  function Compat(v: U16): U16 {
    if v == 0x8020 then 0x0020 else v
  }

  function ParseAttributes(b: Bytes): Parsed {
    if b == [] then Parsed([], None)
    else if |b| < ATTR_HEADER then Parsed([], Some(ShortAttributeHeader))
    else
      var n := GetU16(b[2..]);
      if |b| - ATTR_HEADER < Padded(n) then Parsed([], Some(ShortAttributeValue))
      else
        var rest := ParseAttributes(b[ATTR_HEADER + Padded(n)..]);
        Parsed([Attribute(Compat(GetU16(b)), n, b[ATTR_HEADER..ATTR_HEADER + n])] + rest.attributes, rest.error)
  }

  /** What the bytes of a message say. */
  datatype Wire = Wire(typ: U16, length: nat, id: TransactionId, attributes: seq<Attribute>)

  datatype Reading = Rejected(reason: DecodeError) | Read(wire: Wire, error: Option<DecodeError>)

  /** The header's fields as `decode` reads them. */
  datatype HeaderView = HeaderView(typ: U16, size: U16, cookie: nat, id: TransactionId)

  function HeaderOf(raw: Bytes): HeaderView
    requires |raw| >= HEADER
  {
    HeaderView(GetU16(raw), GetU16(raw[2..]), GetU32(raw[4..]), raw[8..HEADER])
  }

  function ReadWire(raw: Bytes): Reading {
    if |raw| < HEADER then Rejected(HeaderEof)
    else
      var h := HeaderOf(raw);
      if h.cookie != MAGIC_COOKIE then Rejected(BadCookie)
      else if |raw| < HEADER + h.size then Rejected(ShortBuffer)
      else
        var p := ParseAttributes(raw[HEADER..HEADER + h.size]);
        Read(Wire(h.typ, h.size, h.id, p.attributes), p.error)
  }

  datatype Decoding = Decoding(message: MessageState, error: Option<DecodeError>)

  /** `decode`: on an error after the header the message is left partly decoded. */
  function Decoded(m: MessageState): Decoding {
    match ReadWire(m.raw)
    case Rejected(e) => Decoding(m, Some(e))
    case Read(w, e) => Decoding(MessageState(ReadType(w.typ), w.length, w.id, w.attributes, m.raw), e)
  }

  lemma ParseTlv(typ: U16, value: Bytes, rest: Bytes)
    requires |value| < 0x1_0000
    ensures var p := ParseAttributes(rest);
            ParseAttributes(Tlv(typ, value) + rest)
              == Parsed([Attribute(Compat(typ), |value|, value)] + p.attributes, p.error)
  {
    assert Low16(|value|) == |value|;
    hide PutU16, GetU16, Padded, Low16, Compat;
    var b := Tlv(typ, value) + rest;
    var t, l := PutU16(typ), PutU16(|value|);
    var pad := Zeros(Padded(|value|) - |value|);
    assert b == t + (l + (value + (pad + rest)));
    assert b[2..] == l + (value + (pad + rest));
    U16Read(typ, b[2..]);
    U16Read(|value|, b[4..]);
    assert b == t + b[2..] && b[2..] == l + b[4..];
    assert b[ATTR_HEADER..ATTR_HEADER + |value|] == value;
    assert b[ATTR_HEADER + Padded(|value|)..] == rest;
  }

  /** Attributes that the wire format can carry unchanged. */
  ghost predicate Carried(a: Attribute) {
    a.length == |a.value| < 0x1_0000 && a.typ != 0x8020
  }

  lemma {:induction false} ParseBody(attributes: seq<Attribute>)
    requires forall i :: 0 <= i < |attributes| ==> Carried(attributes[i])
    ensures ParseAttributes(Body(attributes)) == Parsed(attributes, None)
  {
    if attributes != [] {
      var a := attributes[0];
      ParseBody(attributes[1..]);
      ParseTlv(a.typ, a.value, Body(attributes[1..]));
      assert a == Attribute(Compat(a.typ), |a.value|, a.value);
    }
  }

  lemma {:induction false} ParsedNeverOld(b: Bytes, i: nat)
    requires i < |ParseAttributes(b).attributes|
    ensures ParseAttributes(b).attributes[i].typ != 0x8020
  {
    if i > 0 {
      ParsedNeverOld(b[ATTR_HEADER + Padded(GetU16(b[2..]))..], i - 1);
    }
  }

  lemma {:induction false} ValuesWithinBody(attributes: seq<Attribute>, i: nat)
    requires i < |attributes|
    ensures |attributes[i].value| <= |Body(attributes)|
  {
    if i > 0 {
      ValuesWithinBody(attributes[1..], i - 1);
    }
  }

  lemma HeaderFields(typ: U16, length: nat, id: TransactionId, body: Bytes)
    ensures HeaderOf(Header(typ, length, id) + body) == HeaderView(typ, Low16(length), MAGIC_COOKIE, id)
  {
    var raw := Header(typ, length, id) + body;
    var t, l, c := PutU16(typ), PutU16(Low16(length)), PutU32(MAGIC_COOKIE);
    assert raw[2..] == l + (c + id + body);
    assert raw[4..] == c + (id + body);
    U32RoundTrip(MAGIC_COOKIE);
    assert GetU32(raw[4..]) == GetU32(c);
  }

  lemma ReadsHeaderAndBody(t: U16, length: nat, id: TransactionId, body: Bytes)
    requires |body| == length < 0x1_0000
    ensures var p := ParseAttributes(body);
            ReadWire(Header(t, length, id) + body) == Read(Wire(t, length, id, p.attributes), p.error)
  {
    hide HeaderOf, Header, ParseAttributes;
    var raw := Header(t, length, id) + body;
    HeaderFields(t, length, id, body);
    assert raw[HEADER..HEADER + length] == body;
  }

  ghost predicate NoneRetired(attributes: seq<Attribute>) {
    forall i :: 0 <= i < |attributes| ==> attributes[i].typ != 0x8020
  }

  lemma BodyCarries(attributes: seq<Attribute>, i: nat)
    requires |Body(attributes)| < 0x1_0000 && NoneRetired(attributes) && i < |attributes|
    requires attributes[i].length == Low16(|attributes[i].value|)
    ensures Carried(attributes[i])
  {
    hide Body;
    ValuesWithinBody(attributes, i);
  }

  lemma RetiredIsLost(attributes: seq<Attribute>, b: Bytes)
    requires ParseAttributes(b).attributes == attributes
    ensures NoneRetired(attributes)
  {
    forall i | 0 <= i < |attributes|
      ensures attributes[i].typ != 0x8020
    {
      ParsedNeverOld(b, i);
    }
  }

  lemma ParseBodyIff(attributes: seq<Attribute>)
    requires |Body(attributes)| < 0x1_0000
    requires forall i :: 0 <= i < |attributes| ==> attributes[i].length == Low16(|attributes[i].value|)
    ensures ParseAttributes(Body(attributes)) == Parsed(attributes, None) <==> NoneRetired(attributes)
  {
    if NoneRetired(attributes) {
      forall i | 0 <= i < |attributes|
        ensures Carried(attributes[i])
      {
        BodyCarries(attributes, i);
      }
      ParseBody(attributes);
    } else if ParseAttributes(Body(attributes)).attributes == attributes {
      RetiredIsLost(attributes, Body(attributes));
    }
  }

  lemma LaidRoundTripIff(t: U16, length: nat, id: TransactionId, attributes: seq<Attribute>, raw: Bytes)
    requires Laid(t, length, id, attributes, raw)
    ensures ReadWire(raw) == Read(Wire(t, length, id, attributes), None)
            <==> length < 0x1_0000 && NoneRetired(attributes)
  {
    hide Header, Body, ParseAttributes, NoneRetired, HeaderOf;
    if length < 0x1_0000 {
      ReadsHeaderAndBody(t, length, id, Body(attributes));
      ParseBodyIff(attributes);
    }
  }

  lemma LaidTypeRead(t: U16, length: nat, id: TransactionId, attributes: seq<Attribute>, raw: Bytes)
    requires Laid(t, length, id, attributes, raw)
    ensures ReadWire(raw).Read? ==> ReadWire(raw).wire.typ == t
  {
    hide ParseAttributes, Header, Body, HeaderOf;
    HeaderFields(t, length, id, Body(attributes));
  }

  /** What survives the wire. */
  ghost predicate Portable(m: MessageState) {
    WfType(m.typ) && m.length < 0x1_0000 && NoneRetired(m.attributes)
  }

  /**
   `decode` of a built message recovers its type, length, transaction id and attributes exactly when
   the type fits 14 bits, the body 65535 bytes, and no attribute has the retired type 0x8020.
   */
  lemma DecodeRoundTripIff(m: MessageState, other: MessageState)
    requires Built(m) && other.raw == m.raw
    ensures Decoded(other) == Decoding(m, None) <==> Portable(m)
  {
    hide TypeValue, ReadType, Laid, ReadWire, NoneRetired, WfType;
    LaidRoundTripIff(TypeValue(m.typ), m.length, m.id, m.attributes, m.raw);
    LaidTypeRead(TypeValue(m.typ), m.length, m.id, m.attributes, m.raw);
    TypeRoundTripIff(m.typ);
  }

  // ---------------------------------------------------------------- the mutable message

  /** All attributes added again, as `write_attributes` and a chain of setters do. */
  function AddedAll(m: MessageState, attributes: seq<Attribute>): MessageState
    decreases |attributes|
  {
    if attributes == [] then m
    else
      var n := |attributes| - 1;
      Added(AddedAll(m, attributes[..n]), attributes[n].typ, attributes[n].value)
  }

  /** `encode` writes the header with the old length, then adds every attribute to an empty body. */
  function Encoded(m: MessageState): MessageState {
    var start := m.(raw := WithHeader([], TypeValue(m.typ), m.length, m.id), length := 0, attributes := []);
    AddedAll(start, m.attributes).(attributes := m.attributes)
  }

  lemma ResizedTwice(raw: Bytes, first: nat, last: nat)
    requires first <= last
    ensures Resized(raw, last) == Resized(raw, first) + Resized(raw, last)[first..]
  {
  }

  lemma TlvWritten(base: Bytes, junk: Bytes, t: Bytes, l: Bytes, v: Bytes)
    requires |t| == |l| == 2 && |junk| == ATTR_HEADER + |v|
    ensures Overwrite(Overwrite(Overwrite(base + junk, |base|, t), |base| + 2, l), |base| + 4, v)
            == base + (t + (l + v))
  {
    OverwriteAfter(base, junk, t);
    assert base + (t + junk[2..]) == (base + t) + junk[2..];
    OverwriteAfter(base + t, junk[2..], l);
    assert (base + t) + (l + junk[2..][2..]) == (base + t + l) + junk[4..];
    OverwriteAfter(base + t + l, junk[4..], v);
    assert (base + t + l) + (v + junk[4..][|v|..]) == base + (t + (l + v));
  }

  lemma PaddingWritten(p: Bytes, more: nat)
    ensures Overwrite(Resized(p, |p| + more), |p|, Zeros(more)) == p + Zeros(more)
  {
  }

  lemma TlvPadded(base: Bytes, t: U16, v: Bytes, raw: Bytes)
    requires raw == base + (PutU16(t) + (PutU16(Low16(|v|)) + v))
                    + (if Padded(|v|) != |v| then Zeros(Padded(|v|) - |v|) else [])
    ensures raw == base + Tlv(t, v)
  {
    hide PutU16, PutU32, Low16, Padded;
    if Padded(|v|) == |v| {
      assert Zeros(Padded(|v|) - |v|) == [];
    }
  }

  lemma AddedAllSnoc(m: MessageState, all: seq<Attribute>, i: nat)
    requires i < |all|
    ensures AddedAll(m, all[..i + 1]) == Added(AddedAll(m, all[..i]), all[i].typ, all[i].value)
  {
    assert all[..i + 1][..i] == all[..i];
  }

  /** Setting the type or the transaction id of a built message keeps it built. */
  lemma SetTypeKeepsBuilt(m: MessageState, t: MessageType)
    requires Built(m)
    ensures Built(m.(typ := t, raw := WithType(m.raw, TypeValue(t))))
  {
    hide TypeValue, Header, Body, WithType, Overwrite;
    TypeRewritten(TypeValue(m.typ), m.length, m.id, Body(m.attributes), TypeValue(t));
  }

  lemma SetIdKeepsBuilt(m: MessageState, id: TransactionId)
    requires Built(m)
    ensures Built(m.(id := id, raw := Overwrite(m.raw, 8, id)))
  {
    hide TypeValue, Header, Body, WithType, Overwrite;
    IdRewritten(TypeValue(m.typ), m.length, m.id, Body(m.attributes), id);
  }

  lemma {:induction false} AddedAllKeepsBuilt(m: MessageState, attributes: seq<Attribute>)
    requires Built(m)
    ensures Built(AddedAll(m, attributes))
    decreases |attributes|
  {
    hide Built, Added;
    if attributes != [] {
      var n := |attributes| - 1;
      AddedAllKeepsBuilt(m, attributes[..n]);
      AddKeepsBuilt(AddedAll(m, attributes[..n]), attributes[n].typ, attributes[n].value);
    }
  }

  lemma {:induction false} AddedAllSpells(m: MessageState, t: U16, field: nat, attributes: seq<Attribute>)
    requires m.raw == Header(t, field, m.id) && m.length == 0 && m.attributes == []
    ensures var r := AddedAll(m, attributes);
            && r.id == m.id && r.typ == m.typ && r.length == |Body(attributes)|
            && r.raw == Header(t, if attributes == [] then field else r.length, m.id) + Body(attributes)
    decreases |attributes|
  {
    hide PutU16, PutU32, Low16, Padded, Header, AddedRaw;
    if attributes != [] {
      var n := |attributes| - 1;
      AddedAllSpells(m, t, field, attributes[..n]);
      assert attributes == attributes[..n] + [attributes[n]];
      AddSpells(t, if n == 0 then field else |Body(attributes[..n])|, m.id, attributes[..n], attributes[n]);
    }
  }

  /**
   `encode` gives a built message exactly when there is an attribute, or the length it was left with
   was zero: over an empty list the header keeps the length written before the reset.
   */
  lemma EncodeBuildsIff(m: MessageState)
    requires LengthsMatch(m.attributes)
    ensures Built(Encoded(m)) <==> m.attributes != [] || Low16(m.length) == 0
  {
    hide TypeValue, WithHeader, AddedAll, HeaderOf, PutU16, PutU32;
    var t := TypeValue(m.typ);
    HeaderWritten(t, m.length, m.id);
    AddedAllSpells(m.(raw := Header(t, m.length, m.id), length := 0, attributes := []), t, m.length, m.attributes);
    HeaderFields(t, m.length, m.id, []);
    HeaderFields(t, 0, m.id, []);
  }

  const NEW_MESSAGE := MessageState(NO_TYPE, 0, Zeros(12), [], Zeros(HEADER))

  /** A message without attributes but with a length left from before: `encode` keeps that length. */
  lemma EncodeKeepsStaleLength()
    ensures !Built(Encoded(NEW_MESSAGE.(length := 4)))
  {
    hide Built, Encoded;
    EncodeBuildsIff(NEW_MESSAGE.(length := 4));
  }

  class Message {
    var typ: MessageType
    var length: nat
    var id: TransactionId
    var attributes: seq<Attribute>
    var raw: Bytes

    ghost function Value(): MessageState
      reads this
    {
      MessageState(typ, length, id, attributes, raw)
    }

    constructor ()
      ensures Value() == NEW_MESSAGE
    {
      typ, length, id, attributes, raw := NO_TYPE, 0, Zeros(12), [], Zeros(HEADER);
    }

    method Reset()
      modifies this
      ensures Value() == old(Value()).(raw := [], length := 0, attributes := [])
    {
      raw, length, attributes := [], 0, [];
    }

    method Grow(n: nat, resize: bool)
      modifies this`raw
      ensures raw == if resize then Resized(old(raw), n) else Grown(old(raw), n)
    {
      if |raw| >= n {
        if resize {
          raw := raw[..n];
        }
        return;
      }
      raw := raw + Zeros(n - |raw|);
    }

    method WriteLength()
      modifies this`raw
      ensures raw == WithLength(old(raw), length)
    {
      Grow(4, false);
      raw := Overwrite(raw, 2, PutU16(Low16(length)));
    }

    method WriteType()
      modifies this`raw
      ensures raw == WithType(old(raw), TypeValue(typ))
    {
      Grow(2, false);
      raw := Overwrite(raw, 0, PutU16(TypeValue(typ)));
    }

    method SetType(t: MessageType)
      modifies this
      ensures Value() == old(Value()).(typ := t, raw := WithType(old(raw), TypeValue(t)))
    {
      typ := t;
      WriteType();
    }

    method SetTransactionId(i: TransactionId)
      requires |raw| >= HEADER
      modifies this
      ensures Value() == old(Value()).(id := i, raw := Overwrite(old(raw), 8, i))
    {
      id := i;
      raw := Overwrite(raw, 8, id);
    }

    method WriteHeader()
      modifies this`raw
      ensures raw == WithHeader(old(raw), TypeValue(typ), length, id)
    {
      Grow(HEADER, false);
      WriteType();
      WriteLength();
      raw := Overwrite(raw, 4, PutU32(MAGIC_COOKIE));
      raw := Overwrite(raw, 8, id);
    }

    /** Type, length and value of a new attribute, written field by field into the grown buffer. */
    method PutTlv(first: nat, t: U16, v: Bytes)
      modifies this`raw
      ensures raw == Resized(old(raw), first) + (PutU16(t) + (PutU16(Low16(|v|)) + v))
    {
      hide PutU16, Low16, Resized, Overwrite;
      ResizedTwice(raw, first, first + ATTR_HEADER + |v|);
      Grow(first + ATTR_HEADER + |v|, true);
      TlvWritten(Resized(old(raw), first), raw[first..], PutU16(t), PutU16(Low16(|v|)), v);
      raw := Overwrite(raw, first, PutU16(t));
      raw := Overwrite(raw, first + 2, PutU16(Low16(|v|)));
      raw := Overwrite(raw, first + 4, v);
    }

    /** The padding bytes are cleared explicitly. */
    method Pad(more: nat)
      modifies this`raw
      ensures raw == old(raw) + Zeros(more)
    {
      PaddingWritten(raw, more);
      var last := |raw| + more;
      Grow(last, true);
      raw := Overwrite(raw, last - more, Zeros(more));
    }

    method Add(t: U16, v: Bytes)
      modifies this
      ensures Value() == Added(old(Value()), t, v)
    {
      hide Low16, Padded, PutU16, Tlv, WithLength, Resized;
      PutTlv(HEADER + length, t, v);
      length := length + ATTR_HEADER + |v|;
      PaddingNeeded(|v|);
      if Low16(|v|) % 4 != 0 {
        var more := Padded(|v|) - |v|;
        Pad(more);
        length := length + more;
      }
      TlvPadded(Resized(old(raw), HEADER + old(length)), t, v, raw);
      attributes := attributes + [Attribute(t, Low16(|v|), v)];
      WriteLength();
    }

    method WriteAttributes()
      modifies this
      ensures Value() == AddedAll(old(Value()).(attributes := []), old(attributes)).(attributes := old(attributes))
    {
      var all := attributes;
      attributes := [];
      ghost var start := Value();
      assert AddedAll(start, all[..0]) == start;
      hide Added, AddedAll;
      var i := 0;
      while i < |all|
        invariant 0 <= i <= |all|
        invariant Value() == AddedAll(start, all[..i])
      {
        AddedAllSnoc(start, all, i);
        Add(all[i].typ, all[i].value);
        i := i + 1;
      }
      assert all[..i] == all;
      attributes := all;
    }

    method Encode()
      modifies this
      ensures Value() == Encoded(old(Value()))
    {
      raw := [];
      WriteHeader();
      length := 0;
      WriteAttributes();
    }

    method Decode() returns (error: Option<DecodeError>)
      modifies this
      ensures Decoding(Value(), error) == Decoded(old(Value()))
    {
      if |raw| < HEADER {
        return Some(HeaderEof);
      }
      var HeaderView(t, size, cookie, i) := HeaderOf(raw);
      var fullSize := HEADER + size;
      if cookie != MAGIC_COOKIE {
        return Some(BadCookie);
      }
      if |raw| < fullSize {
        return Some(ShortBuffer);
      }
      typ, length, id := ReadType(t), size, i;
      error := ReadAttributes(raw[HEADER..fullSize]);
    }

    /** The attribute loop of `decode`. */
    method ReadAttributes(body: Bytes) returns (error: Option<DecodeError>)
      modifies this`attributes
      ensures Parsed(attributes, error) == ParseAttributes(body)
    {
      attributes := [];
      var offset, b := 0, body;
      while offset < |body|
        invariant |b| == |body| - offset
        invariant ParseAttributes(body) == Parsed(attributes + ParseAttributes(b).attributes, ParseAttributes(b).error)
      {
        if |b| < ATTR_HEADER {
          return Some(ShortAttributeHeader);
        }
        var n := GetU16(b[2..]);
        var aTyp := Compat(GetU16(b));
        ghost var before := b;
        b := b[ATTR_HEADER..];
        offset := offset + ATTR_HEADER;
        if |b| < Padded(n) {
          return Some(ShortAttributeValue);
        }
        var value := b[..n];
        offset := offset + Padded(n);
        b := b[Padded(n)..];
        assert b == before[ATTR_HEADER + Padded(n)..] && value == before[ATTR_HEADER..ATTR_HEADER + n];
        Assoc(attributes, [Attribute(aTyp, n, value)], ParseAttributes(b).attributes);
        attributes := attributes + [Attribute(aTyp, n, value)];
      }
      error := None;
    }

    /** The value of the first attribute of the type. */
    method Get(t: U16) returns (v: Option<Bytes>)
      ensures v == FirstValue(attributes, t)
    {
      var i := 0;
      while i < |attributes|
        invariant 0 <= i <= |attributes|
        invariant FirstValue(attributes, t) == FirstValue(attributes[i..], t)
      {
        if attributes[i].typ == t {
          return Some(attributes[i].value);
        }
        i := i + 1;
      }
      v := None;
    }
  }

  function FirstValue(attributes: seq<Attribute>, t: U16): Option<Bytes> {
    if attributes == [] then None
    else if attributes[0].typ == t then Some(attributes[0].value)
    else FirstValue(attributes[1..], t)
  }
}
