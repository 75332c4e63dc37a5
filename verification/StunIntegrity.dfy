/**
 MESSAGE-INTEGRITY and FINGERPRINT (rtc-stun/src/integrity.rs, rtc-stun/src/fingerprint.rs), and
 `build` over every setter (rtc-stun/src/message.rs:442-449), for any keyed hash of 20 bytes and any
 32-bit checksum.
 */
module StunIntegrity {
  import opened Bytes
  import opened StunMessage

  const ATTR_MESSAGE_INTEGRITY := 0x0008
  const ATTR_FINGERPRINT := 0x8028
  const INTEGRITY_SIZE := 20
  const FINGERPRINT_SIZE := 4

  type Digest = b: Bytes | |b| == 20 witness [0, 0, 0, 0, 0, 0, 0, 0, 0, 0, 0, 0, 0, 0, 0, 0, 0, 0, 0, 0]

  datatype Verdict = NotFound | BadSize | Match | Mismatch

  /** What `add_to` hashes: the message so far, its length field already counting the new attribute. */
  function IntegrityInput(m: MessageState): Bytes {
    WithLength(m.raw, m.length + ATTR_HEADER + INTEGRITY_SIZE)
  }

  function IntegrityAdded(m: MessageState, hmac: Bytes -> Digest): MessageState {
    Added(m.(raw := IntegrityInput(m)), ATTR_MESSAGE_INTEGRITY, hmac(IntegrityInput(m)))
  }

  lemma FirstValueFrom(attributes: seq<Attribute>, t: U16, i: nat)
    requires i < |attributes|
    ensures FirstValue(attributes[i..], t)
         == if attributes[i].typ == t then Some(attributes[i].value) else FirstValue(attributes[i + 1..], t)
  {
    assert attributes[i..][0] == attributes[i] && attributes[i..][1..] == attributes[i + 1..];
  }

  method AddIntegrity(m: Message, hmac: Bytes -> Digest) returns (ok: bool)
    modifies m
    ensures ok <==> FirstValue(old(m.attributes), ATTR_FINGERPRINT) == None
    ensures m.Value() == if ok then IntegrityAdded(old(m.Value()), hmac) else old(m.Value())
  {
    var i := 0;
    hide Added;
    assert FirstValue([], ATTR_FINGERPRINT) == None && m.attributes[0..] == m.attributes;
    hide FirstValue;
    while i < |m.attributes|
      invariant 0 <= i <= |m.attributes| && m.Value() == old(m.Value()) && m.attributes == old(m.attributes)
      invariant FirstValue(m.attributes, ATTR_FINGERPRINT) == FirstValue(m.attributes[i..], ATTR_FINGERPRINT)
    {
      FirstValueFrom(m.attributes, ATTR_FINGERPRINT, i);
      if m.attributes[i].typ == ATTR_FINGERPRINT {
        return false;
      }
      i := i + 1;
    }
    assert m.attributes[i..] == [];
    var length := m.length;
    m.length := m.length + ATTR_HEADER + INTEGRITY_SIZE;
    m.WriteLength();
    var v := hmac(m.raw);
    m.length := length;
    m.Add(ATTR_MESSAGE_INTEGRITY, v);
    ok := true;
  }

  // ---------------------------------------------------------------- checking integrity

  function Sizes(attributes: seq<Attribute>): nat {
    if attributes == [] then 0 else ATTR_HEADER + Padded(attributes[0].length) + Sizes(attributes[1..])
  }

  /** Size of what follows the first MESSAGE-INTEGRITY; `after` once that has been passed. */
  function ReducedBy(attributes: seq<Attribute>, after: bool): nat {
    if attributes == [] then 0
    else
      (if after then ATTR_HEADER + Padded(attributes[0].length) else 0)
      + ReducedBy(attributes[1..], after || attributes[0].typ == ATTR_MESSAGE_INTEGRITY)
  }

  /** `check` needs the attribute list to fit inside the message, so that nothing underflows. */
  ghost predicate Checkable(m: MessageState) {
    var reduced := ReducedBy(m.attributes, false);
    reduced + ATTR_HEADER <= m.length && HEADER + m.length <= |m.raw| + reduced + ATTR_HEADER + INTEGRITY_SIZE
  }

  function CheckedLength(m: MessageState): nat
    requires Checkable(m)
  {
    m.length - ReducedBy(m.attributes, false)
  }

  /** What `check` hashes. */
  function CheckInput(m: MessageState): Bytes
    requires Checkable(m)
  {
    WithLength(m.raw, CheckedLength(m))[..HEADER + CheckedLength(m) - (ATTR_HEADER + INTEGRITY_SIZE)]
  }

  /** The message after `check` has put the length back. */
  function Restored(m: MessageState): MessageState
    requires Checkable(m)
  {
    m.(raw := WithLength(WithLength(m.raw, CheckedLength(m)), m.length))
  }

  function IntegrityVerdict(m: MessageState, hmac: Bytes -> Digest): Verdict
    requires FirstValue(m.attributes, ATTR_MESSAGE_INTEGRITY).Some? ==> Checkable(m)
  {
    match FirstValue(m.attributes, ATTR_MESSAGE_INTEGRITY)
    case None => NotFound
    case Some(v) => if v == hmac(CheckInput(m)) then Match else Mismatch
  }

  method CheckIntegrity(m: Message, hmac: Bytes -> Digest) returns (r: Verdict)
    requires FirstValue(m.attributes, ATTR_MESSAGE_INTEGRITY).Some? ==> Checkable(m.Value())
    modifies m
    ensures r == IntegrityVerdict(old(m.Value()), hmac)
    ensures var v := FirstValue(old(m.attributes), ATTR_MESSAGE_INTEGRITY);
            m.Value() == if v == None then old(m.Value()) else Restored(old(m.Value()))
  {
    var v := m.Get(ATTR_MESSAGE_INTEGRITY);
    if v == None {
      return NotFound;
    }
    var length := m.length;
    var afterIntegrity, sizeReduced, i := false, 0, 0;
    while i < |m.attributes|
      invariant 0 <= i <= |m.attributes|
      invariant ReducedBy(m.attributes, false) == sizeReduced + ReducedBy(m.attributes[i..], afterIntegrity)
    {
      var a := m.attributes[i];
      if afterIntegrity {
        sizeReduced := sizeReduced + Padded(a.length);
        sizeReduced := sizeReduced + ATTR_HEADER;
      }
      if a.typ == ATTR_MESSAGE_INTEGRITY {
        afterIntegrity := true;
      }
      i := i + 1;
    }
    m.length := m.length - sizeReduced;
    m.WriteLength();
    var startOfHmac := HEADER + m.length - (ATTR_HEADER + INTEGRITY_SIZE);
    var expected := hmac(m.raw[..startOfHmac]);
    m.length := length;
    m.WriteLength();
    r := if v.value == expected then Match else Mismatch;
  }

  /** Attributes whose length field is their length. */
  ghost predicate Exact(attributes: seq<Attribute>) {
    forall i :: 0 <= i < |attributes| ==> attributes[i].length == |attributes[i].value|
  }

  lemma {:induction false} SizesOfExact(attributes: seq<Attribute>)
    requires Exact(attributes)
    ensures Sizes(attributes) == |Body(attributes)|
  {
    if attributes != [] {
      SizesOfExact(attributes[1..]);
    }
  }

  lemma {:induction false} ReducedAfter(attributes: seq<Attribute>)
    ensures ReducedBy(attributes, true) == Sizes(attributes)
  {
    if attributes != [] {
      ReducedAfter(attributes[1..]);
    }
  }

  lemma {:induction false} ParsedSizes(b: Bytes)
    requires ParseAttributes(b).error == None
    ensures Sizes(ParseAttributes(b).attributes) == |b|
  {
    hide GetU16, Compat, Padded;
    if b != [] {
      ParsedSizes(b[ATTR_HEADER + Padded(GetU16(b[2..]))..]);
    }
  }

  lemma {:induction false} ReducedWithin(attributes: seq<Attribute>)
    requires FirstValue(attributes, ATTR_MESSAGE_INTEGRITY).Some?
    ensures ReducedBy(attributes, false) + ATTR_HEADER <= Sizes(attributes)
  {
    hide Padded;
    if attributes[0].typ == ATTR_MESSAGE_INTEGRITY {
      ReducedAfter(attributes[1..]);
    } else {
      ReducedWithin(attributes[1..]);
    }
  }

  /** Whatever was received: a decoded message with MESSAGE-INTEGRITY can be checked without underflow. */
  lemma DecodedIsCheckable(m: MessageState)
    requires ReadWire(m.raw).Read? && ReadWire(m.raw).error == None
    requires FirstValue(ReadWire(m.raw).wire.attributes, ATTR_MESSAGE_INTEGRITY).Some?
    ensures Decoded(m).error == None && Checkable(Decoded(m).message)
  {
    hide ParseAttributes, HeaderOf, ReadType, Sizes, ReducedBy, FirstValue;
    ParsedSizes(m.raw[HEADER..HEADER + HeaderOf(m.raw).size]);
    ReducedWithin(Decoded(m).message.attributes);
  }

  /** Only what follows the first MESSAGE-INTEGRITY counts. */
  lemma {:induction false} ReducedByLater(a: seq<Attribute>, mi: Attribute, later: seq<Attribute>)
    requires FirstValue(a, ATTR_MESSAGE_INTEGRITY) == None && mi.typ == ATTR_MESSAGE_INTEGRITY
    ensures ReducedBy(a + ([mi] + later), false) == Sizes(later)
  {
    var all := a + ([mi] + later);
    if a == [] {
      assert all[1..] == later;
      ReducedAfter(later);
    } else {
      assert all[1..] == a[1..] + ([mi] + later);
      ReducedByLater(a[1..], mi, later);
    }
  }

  lemma {:induction false} FirstIsFirst(a: seq<Attribute>, mi: Attribute, later: seq<Attribute>)
    requires FirstValue(a, mi.typ) == None
    ensures FirstValue(a + ([mi] + later), mi.typ) == Some(mi.value)
  {
    if a != [] {
      assert (a + ([mi] + later))[1..] == a[1..] + ([mi] + later);
      FirstIsFirst(a[1..], mi, later);
    }
  }

  lemma AddedAppends(m: MessageState, a: Attribute)
    requires a.length == |a.value|
    ensures var r := Added(m, a.typ, a.value);
            r.attributes == m.attributes + [a] && r.typ == m.typ && r.id == m.id
  {
    hide AddedRaw, Padded;
  }

  lemma {:induction false} AddedAllAppends(m: MessageState, later: seq<Attribute>)
    requires Exact(later)
    ensures var r := AddedAll(m, later);
            r.attributes == m.attributes + later && r.typ == m.typ && r.id == m.id
    decreases |later|
  {
    hide Added;
    if later == [] {
      assert m.attributes + later == m.attributes;
    } else {
      var n := |later| - 1;
      AddedAllAppends(m, later[..n]);
      AddedAppends(AddedAll(m, later[..n]), later[n]);
      Assoc(m.attributes, later[..n], [later[n]]);
      assert later == later[..n] + [later[n]];
    }
  }

  /** The message `build` starts from. */
  ghost function Blank(m: MessageState): MessageState {
    MessageState(m.typ, 0, m.id, [], Header(TypeValue(m.typ), 0, m.id))
  }

  lemma BlankIsBuilt(m: MessageState)
    ensures Built(Blank(m))
  {
    assert Header(TypeValue(m.typ), 0, m.id) + Body([]) == Header(TypeValue(m.typ), 0, m.id);
  }

  // ---------------------------------------------------------------- what is hashed, on both sides

  /** Bytes up to the attribute that carries the digest, length field set to `length`. */
  lemma CutBeforeAttribute(t: U16, field: nat, length: nat, id: TransactionId, before: Bytes, rest: Bytes)
    ensures WithLength(Header(t, field, id) + (before + rest), length)[..HEADER + |before|]
            == Header(t, length, id) + before
  {
    hide Header, WithLength;
    LengthRewritten(t, field, id, before + rest, length);
    Assoc(Header(t, length, id), before, rest);
  }

  lemma IntegrityInputIs(m: MessageState)
    requires Built(m)
    ensures IntegrityInput(m) == Header(TypeValue(m.typ), |Body(m.attributes)| + 24, m.id) + Body(m.attributes)
  {
    hide TypeValue, Header, Body, WithLength;
    LengthRewritten(TypeValue(m.typ), m.length, m.id, Body(m.attributes), m.length + 24);
  }

  /** A built message whose digest attribute comes first of its kind. */
  lemma CheckInputIs(s: MessageState, before: seq<Attribute>, mi: Attribute, later: seq<Attribute>)
    requires Built(s) && s.attributes == before + ([mi] + later)
    requires mi.typ == ATTR_MESSAGE_INTEGRITY && FirstValue(before, ATTR_MESSAGE_INTEGRITY) == None
    requires |mi.value| == INTEGRITY_SIZE && Exact(later)
    ensures Checkable(s) && CheckedLength(s) == |Body(before)| + 24
    ensures CheckInput(s) == Header(TypeValue(s.typ), |Body(before)| + 24, s.id) + Body(before)
  {
    assert Padded(INTEGRITY_SIZE) == INTEGRITY_SIZE;
    hide TypeValue, Header, WithLength, Padded, PutU16, ReducedBy, Sizes, FirstValue;
    ReducedByLater(before, mi, later);
    SizesOfExact(later);
    BodyAppend(before, [mi] + later);
    BodyAppend([mi], later);
    assert Body([mi]) == Tlv(mi.typ, mi.value) + [];
    CutBeforeAttribute(TypeValue(s.typ), s.length, CheckedLength(s), s.id, Body(before), Body([mi] + later));
  }

  /** With an earlier MESSAGE-INTEGRITY, `check` cuts the message before that one. */
  lemma {:induction false} ReducedByEarlier(a: seq<Attribute>, rest: seq<Attribute>)
    requires FirstValue(a, ATTR_MESSAGE_INTEGRITY).Some?
    ensures ReducedBy(a + rest, false) >= Sizes(rest)
  {
    assert (a + rest)[1..] == a[1..] + rest;
    if a[0].typ == ATTR_MESSAGE_INTEGRITY {
      ReducedAfter(a[1..] + rest);
      SizesAppend(a[1..], rest);
    } else {
      ReducedByEarlier(a[1..], rest);
    }
  }

  lemma {:induction false} SizesAppend(a: seq<Attribute>, b: seq<Attribute>)
    ensures Sizes(a + b) == Sizes(a) + Sizes(b)
  {
    if a == [] {
      assert a + b == b;
    } else {
      assert (a + b)[1..] == a[1..] + b;
      SizesAppend(a[1..], b);
    }
  }

  /** The message that is sent: integrity over `m`, then any further attributes. */
  ghost function Sent(m: MessageState, hmac: Bytes -> Digest, later: seq<Attribute>): MessageState {
    AddedAll(IntegrityAdded(m, hmac), later)
  }

  lemma LaidAfterField(t: U16, length: nat, id: TransactionId, attributes: seq<Attribute>, raw: Bytes, field: nat,
                       a: Attribute)
    requires Laid(t, length, id, attributes, raw) && a.length == |a.value|
    ensures Laid(t, length + ATTR_HEADER + Padded(|a.value|), id, attributes + [a],
                 AddedRaw(WithLength(raw, field), length, a.typ, a.value))
  {
    hide Header, Body, AddedRaw, WithLength, Padded;
    LengthRewritten(t, length, id, Body(attributes), field);
    AddSpells(t, field, id, attributes, a);
  }

  /** Adding an attribute to a built message whose length field was changed meanwhile. */
  lemma AddAfterField(m: MessageState, field: nat, a: Attribute)
    requires Built(m) && a.length == |a.value|
    ensures var r := Added(m.(raw := WithLength(m.raw, field)), a.typ, a.value);
            && Built(r) && r.attributes == m.attributes + [a] && r.typ == m.typ && r.id == m.id
            && r.length == m.length + ATTR_HEADER + Padded(|a.value|)
  {
    hide Laid, TypeValue, AddedRaw, WithLength, Padded;
    LaidAfterField(TypeValue(m.typ), m.length, m.id, m.attributes, m.raw, field, a);
  }

  lemma IntegrityAddedIsBuilt(m: MessageState, hmac: Bytes -> Digest)
    requires Built(m)
    ensures var mi := Attribute(ATTR_MESSAGE_INTEGRITY, INTEGRITY_SIZE, hmac(IntegrityInput(m)));
            var r := IntegrityAdded(m, hmac);
            Built(r) && r.attributes == m.attributes + [mi] && r.typ == m.typ && r.id == m.id
  {
    hide Built, Added, WithLength, Padded;
    AddAfterField(m, m.length + ATTR_HEADER + INTEGRITY_SIZE,
                  Attribute(ATTR_MESSAGE_INTEGRITY, INTEGRITY_SIZE, hmac(IntegrityInput(m))));
  }

  lemma SentIs(m: MessageState, hmac: Bytes -> Digest, later: seq<Attribute>)
    requires Built(m) && Exact(later)
    ensures var mi := Attribute(ATTR_MESSAGE_INTEGRITY, INTEGRITY_SIZE, hmac(IntegrityInput(m)));
            var s := Sent(m, hmac, later);
            Built(s) && s.attributes == m.attributes + ([mi] + later) && s.typ == m.typ && s.id == m.id
  {
    hide Built, IntegrityAdded, AddedAll, IntegrityInput;
    var mi := Attribute(ATTR_MESSAGE_INTEGRITY, INTEGRITY_SIZE, hmac(IntegrityInput(m)));
    IntegrityAddedIsBuilt(m, hmac);
    AddedAllKeepsBuilt(IntegrityAdded(m, hmac), later);
    AddedAllAppends(IntegrityAdded(m, hmac), later);
    Assoc(m.attributes, [mi], later);
  }

  lemma CheckRestores(s: MessageState)
    requires Built(s) && Checkable(s)
    ensures Restored(s) == s
  {
    hide TypeValue, Header, Body, WithLength, ReducedBy;
    LengthRewritten(TypeValue(s.typ), s.length, s.id, Body(s.attributes), CheckedLength(s));
    LengthRewritten(TypeValue(s.typ), CheckedLength(s), s.id, Body(s.attributes), s.length);
  }

  /**
   Integrity.  For any keyed hash: add MESSAGE-INTEGRITY to a built message that has none, add any
   further attributes, and `check` hashes exactly the bytes that `add_to` hashed, accepts, and leaves
   the message as it was.
   */
  lemma IntegrityChecks(m: MessageState, hmac: Bytes -> Digest, later: seq<Attribute>)
    requires Built(m) && Exact(later) && FirstValue(m.attributes, ATTR_MESSAGE_INTEGRITY) == None
    ensures var s := Sent(m, hmac, later);
            && Checkable(s) && CheckInput(s) == IntegrityInput(m)
            && IntegrityVerdict(s, hmac) == Match && Restored(s) == s
  {
    hide Built, Sent, IntegrityInput, CheckInput, Restored, Header, Body, TypeValue, Checkable, CheckedLength,
      FirstValue;
    var mi := Attribute(ATTR_MESSAGE_INTEGRITY, INTEGRITY_SIZE, hmac(IntegrityInput(m)));
    SentIs(m, hmac, later);
    IntegrityInputIs(m);
    CheckInputIs(Sent(m, hmac, later), m.attributes, mi, later);
    FirstIsFirst(m.attributes, mi, later);
    CheckRestores(Sent(m, hmac, later));
  }

  /** What is checked in `s` is what the digest was computed over in `m`. */
  ghost predicate SameInput(m: MessageState, s: MessageState) {
    Checkable(s) && CheckInput(s) == IntegrityInput(m)
  }

  /** The two sides hash the same bytes only if the message had no MESSAGE-INTEGRITY before. */
  lemma SameInputIff(m: MessageState, hmac: Bytes -> Digest, later: seq<Attribute>)
    requires Built(m) && Exact(later)
    ensures var s := Sent(m, hmac, later);
            SameInput(m, s) <==> FirstValue(m.attributes, ATTR_MESSAGE_INTEGRITY) == None
  {
    if FirstValue(m.attributes, ATTR_MESSAGE_INTEGRITY) == None {
      IntegrityChecks(m, hmac, later);
    } else {
      var mi := Attribute(ATTR_MESSAGE_INTEGRITY, INTEGRITY_SIZE, hmac(IntegrityInput(m)));
      var s := Sent(m, hmac, later);
      SentIs(m, hmac, later);
      IntegrityInputIs(m);
      ReducedByEarlier(m.attributes, [mi] + later);
      assert Exact([mi] + later);
      SizesOfExact([mi] + later);
      BodyAppend(m.attributes, [mi] + later);
    }
  }

  /** A message that has MESSAGE-INTEGRITY already. */
  ghost function SignedOnce(hmac: Bytes -> Digest): MessageState {
    IntegrityAdded(Blank(NEW_MESSAGE), hmac)
  }

  lemma SignedOnceIs(hmac: Bytes -> Digest)
    ensures Built(SignedOnce(hmac)) && FirstValue(SignedOnce(hmac).attributes, ATTR_MESSAGE_INTEGRITY).Some?
  {
    hide Built, Blank, IntegrityAdded;
    BlankIsBuilt(NEW_MESSAGE);
    BlankIsEmpty();
    IntegrityAddedIsBuilt(Blank(NEW_MESSAGE), hmac);
  }

  lemma BlankIsEmpty()
    ensures Blank(NEW_MESSAGE).attributes == []
  {
  }

  /** A second MESSAGE-INTEGRITY: what it was computed over is not what is checked. */
  lemma SecondIntegrityDiffers(hmac: Bytes -> Digest)
    ensures Built(SignedOnce(hmac)) && !SameInput(SignedOnce(hmac), Sent(SignedOnce(hmac), hmac, []))
  {
    hide Built, SignedOnce, Sent, Checkable, CheckInput, IntegrityInput, FirstValue;
    SignedOnceIs(hmac);
    SameInputIff(SignedOnce(hmac), hmac, []);
  }

  // ---------------------------------------------------------------- fingerprint

  function FingerprintInput(m: MessageState): Bytes {
    WithLength(m.raw, m.length + ATTR_HEADER + FINGERPRINT_SIZE)
  }

  function FingerprintAdded(m: MessageState, crc: Bytes -> U32): MessageState {
    Added(m.(raw := FingerprintInput(m)), ATTR_FINGERPRINT, PutU32(crc(FingerprintInput(m))))
  }

  method AddFingerprint(m: Message, crc: Bytes -> U32)
    modifies m
    ensures m.Value() == FingerprintAdded(old(m.Value()), crc)
  {
    hide Added, WithLength, PutU32;
    var l := m.length;
    m.length := m.length + ATTR_HEADER + FINGERPRINT_SIZE;
    m.WriteLength();
    var b := PutU32(crc(m.raw));
    m.length := l;
    m.Add(ATTR_FINGERPRINT, b);
  }

  function FingerprintCheckInput(m: MessageState): Bytes
    requires |m.raw| >= ATTR_HEADER + FINGERPRINT_SIZE
  {
    m.raw[..|m.raw| - (ATTR_HEADER + FINGERPRINT_SIZE)]
  }

  function FingerprintVerdict(m: MessageState, crc: Bytes -> U32): Verdict
    requires |m.raw| >= ATTR_HEADER + FINGERPRINT_SIZE
  {
    match FirstValue(m.attributes, ATTR_FINGERPRINT)
    case None => NotFound
    case Some(b) =>
      if |b| != FINGERPRINT_SIZE then BadSize
      else if GetU32(b) == crc(FingerprintCheckInput(m)) then Match else Mismatch
  }

  method CheckFingerprint(m: Message, crc: Bytes -> U32) returns (r: Verdict)
    requires |m.raw| >= ATTR_HEADER + FINGERPRINT_SIZE
    ensures r == FingerprintVerdict(m.Value(), crc)
  {
    var b := m.Get(ATTR_FINGERPRINT);
    if b == None {
      return NotFound;
    }
    if |b.value| != FINGERPRINT_SIZE {
      return BadSize;
    }
    var start := |m.raw| - (ATTR_HEADER + FINGERPRINT_SIZE);
    r := if GetU32(b.value) == crc(m.raw[..start]) then Match else Mismatch;
  }

  lemma FingerprintInputIs(m: MessageState)
    requires Built(m)
    ensures FingerprintInput(m) == Header(TypeValue(m.typ), |Body(m.attributes)| + 8, m.id) + Body(m.attributes)
  {
    hide TypeValue, Header, Body, WithLength;
    LengthRewritten(TypeValue(m.typ), m.length, m.id, Body(m.attributes), m.length + 8);
  }

  lemma FingerprintAddedIsBuilt(m: MessageState, crc: Bytes -> U32)
    requires Built(m)
    ensures var fp := Attribute(ATTR_FINGERPRINT, FINGERPRINT_SIZE, PutU32(crc(FingerprintInput(m))));
            var r := FingerprintAdded(m, crc);
            && Built(r) && r.attributes == m.attributes + [fp] && r.typ == m.typ && r.id == m.id
            && r.length == m.length + 8
  {
    hide Built, Added, WithLength, PutU32;
    AddAfterField(m, m.length + ATTR_HEADER + FINGERPRINT_SIZE,
                  Attribute(ATTR_FINGERPRINT, FINGERPRINT_SIZE, PutU32(crc(FingerprintInput(m)))));
  }

  lemma FingerprintLast(m: MessageState, crc: Bytes -> U32)
    requires Built(m)
    ensures var s := FingerprintAdded(m, crc); |s.raw| >= 8 && FingerprintCheckInput(s) == FingerprintInput(m)
  {
    hide TypeValue, Padded, PutU16, PutU32, Header, FingerprintAdded, FingerprintInput;
    var fp := Attribute(ATTR_FINGERPRINT, FINGERPRINT_SIZE, PutU32(crc(FingerprintInput(m))));
    var s := FingerprintAdded(m, crc);
    FingerprintAddedIsBuilt(m, crc);
    FingerprintInputIs(m);
    BodySnoc(m.attributes, fp);
    Assoc(Header(TypeValue(s.typ), s.length, s.id), Body(m.attributes), Tlv(fp.typ, fp.value));
  }

  /** FINGERPRINT covers the same bytes on both sides exactly when nothing is added after it. */
  lemma FingerprintSameInputIff(m: MessageState, crc: Bytes -> U32, later: seq<Attribute>)
    requires Built(m) && Exact(later)
    ensures var s := AddedAll(FingerprintAdded(m, crc), later);
            |s.raw| >= 8 && (FingerprintCheckInput(s) == FingerprintInput(m) <==> later == [])
  {
    var f := FingerprintAdded(m, crc);
    var s := AddedAll(f, later);
    FingerprintLast(m, crc);
    FingerprintAddedIsBuilt(m, crc);
    FingerprintInputIs(m);
    AddedAllKeepsBuilt(f, later);
    AddedAllAppends(f, later);
    BodyAppend(f.attributes, later);
    if later != [] {
      assert |Body(later)| > 0;
    }
  }

  ghost predicate SameFingerprintInput(m: MessageState, s: MessageState) {
    |s.raw| >= 8 && FingerprintCheckInput(s) == FingerprintInput(m)
  }

  /** An attribute after the FINGERPRINT: the checksum is taken over other bytes than it was made for. */
  lemma FingerprintNotLast(m: MessageState, crc: Bytes -> U32)
    requires Built(m)
    ensures !SameFingerprintInput(m, AddedAll(FingerprintAdded(m, crc), [Attribute(6, 0, [])]))
  {
    hide Built, FingerprintAdded, AddedAll, FingerprintInput, FingerprintCheckInput;
    FingerprintSameInputIff(m, crc, [Attribute(6, 0, [])]);
  }

  lemma FingerprintChecks(m: MessageState, crc: Bytes -> U32)
    requires Built(m) && FirstValue(m.attributes, ATTR_FINGERPRINT) == None
    ensures var s := FingerprintAdded(m, crc); |s.raw| >= 8 && FingerprintVerdict(s, crc) == Match
  {
    hide Built, FingerprintAdded, FingerprintInput, FingerprintCheckInput, FirstValue, PutU32, GetU32;
    var v := crc(FingerprintInput(m));
    var fp := Attribute(ATTR_FINGERPRINT, FINGERPRINT_SIZE, PutU32(v));
    FingerprintLast(m, crc);
    FingerprintAddedIsBuilt(m, crc);
    FirstIsFirst(m.attributes, fp, []);
    assert m.attributes + ([fp] + []) == m.attributes + [fp];
    U32RoundTrip(v);
  }

  // ---------------------------------------------------------------- sender to receiver

  /** The message that is sent: integrity over `m`, further attributes, and a fingerprint at the end. */
  ghost function Signed(m: MessageState, hmac: Bytes -> Digest, between: seq<Attribute>,
                        crc: Bytes -> U32): MessageState {
    FingerprintAdded(Sent(m, hmac, between), crc)
  }

  /**
   End to end: a message built with integrity, any further attributes and then a fingerprint, decoded
   by a receiver from its bytes, passes both checks there and is left as decoded.
   */
  lemma ReceiverAccepts(m: MessageState, hmac: Bytes -> Digest, between: seq<Attribute>, crc: Bytes -> U32,
                        receiver: MessageState)
    requires Built(m) && Exact(between) && FirstValue(m.attributes, ATTR_MESSAGE_INTEGRITY) == None
    requires FirstValue(m.attributes, ATTR_FINGERPRINT) == None && FirstValue(between, ATTR_FINGERPRINT) == None
    requires var s := Signed(m, hmac, between, crc); Portable(s) && receiver.raw == s.raw
    ensures var d := Decoded(receiver);
            && d.error == None && Checkable(d.message) && |d.message.raw| >= 8
            && IntegrityVerdict(d.message, hmac) == Match && Restored(d.message) == d.message
            && FingerprintVerdict(d.message, crc) == Match
  {
    hide Built, Sent, FingerprintAdded, Decoded, Portable, IntegrityVerdict, FingerprintVerdict, Checkable, Restored,
      FirstValue;
    var i := Sent(m, hmac, between);
    var mi := Attribute(ATTR_MESSAGE_INTEGRITY, INTEGRITY_SIZE, hmac(IntegrityInput(m)));
    SentIs(m, hmac, between);
    FingerprintAddedIsBuilt(i, crc);
    DecodeRoundTripIff(Signed(m, hmac, between, crc), receiver);
    FingerprintAfterIntegrity(m, hmac, between, crc);
    NoFingerprintYet(m.attributes, mi, between);
    FingerprintChecks(i, crc);
  }

  lemma {:induction false} NoFingerprintYet(a: seq<Attribute>, mi: Attribute, between: seq<Attribute>)
    requires FirstValue(a, ATTR_FINGERPRINT) == None && mi.typ == ATTR_MESSAGE_INTEGRITY
    requires FirstValue(between, ATTR_FINGERPRINT) == None
    ensures FirstValue(a + ([mi] + between), ATTR_FINGERPRINT) == None
  {
    var all := a + ([mi] + between);
    if a == [] {
      assert all[1..] == between;
    } else {
      assert all[1..] == a[1..] + ([mi] + between);
      NoFingerprintYet(a[1..], mi, between);
    }
  }

  lemma FingerprintAfterIntegrity(m: MessageState, hmac: Bytes -> Digest, between: seq<Attribute>, crc: Bytes -> U32)
    requires Built(m) && Exact(between) && FirstValue(m.attributes, ATTR_MESSAGE_INTEGRITY) == None
    ensures var s := Signed(m, hmac, between, crc);
            Checkable(s) && IntegrityVerdict(s, hmac) == Match && Restored(s) == s
  {
    hide Built, Sent, FingerprintAdded, IntegrityInput, FingerprintInput, CheckInput, Restored, Header, Body, TypeValue,
      Checkable, CheckedLength, FirstValue, PutU32;
    var i := Sent(m, hmac, between);
    var s := Signed(m, hmac, between, crc);
    var mi := Attribute(ATTR_MESSAGE_INTEGRITY, INTEGRITY_SIZE, hmac(IntegrityInput(m)));
    var fp := Attribute(ATTR_FINGERPRINT, FINGERPRINT_SIZE, PutU32(crc(FingerprintInput(i))));
    SentIs(m, hmac, between);
    FingerprintAddedIsBuilt(i, crc);
    assert m.attributes + ([mi] + between) + [fp] == m.attributes + ([mi] + (between + [fp]));
    IntegrityInputIs(m);
    CheckInputIs(s, m.attributes, mi, between + [fp]);
    FirstIsFirst(m.attributes, mi, between + [fp]);
    CheckRestores(s);
  }

  // ---------------------------------------------------------------- building

  datatype Setter =
    | SetType(typ: MessageType)
    | SetId(id: TransactionId)
    | AddAttribute(attrType: U16, value: Bytes)
    | SetIntegrity(hmac: Bytes -> Digest)
    | SetFingerprint(crc: Bytes -> U32)

  datatype Applied = Applied(message: MessageState, ok: bool)

  function Apply(m: MessageState, s: Setter): Applied
    requires |m.raw| >= HEADER
  {
    match s
    case SetType(t) => Applied(m.(typ := t, raw := WithType(m.raw, TypeValue(t))), true)
    case SetId(id) => Applied(m.(id := id, raw := Overwrite(m.raw, 8, id)), true)
    case AddAttribute(t, v) => Applied(Added(m, t, v), true)
    case SetIntegrity(hmac) =>
      if FirstValue(m.attributes, ATTR_FINGERPRINT) == None then Applied(IntegrityAdded(m, hmac), true)
      else Applied(m, false)
    case SetFingerprint(crc) => Applied(FingerprintAdded(m, crc), true)
  }

  /** Every setter, successful or not, keeps a built message built. */
  lemma ApplyKeepsBuilt(m: MessageState, s: Setter)
    requires Built(m)
    ensures Built(Apply(m, s).message)
  {
    match s
    case SetType(t) => SetTypeKeepsBuilt(m, t);
    case SetId(id) => SetIdKeepsBuilt(m, id);
    case AddAttribute(t, v) => AddKeepsBuilt(m, t, v);
    case SetIntegrity(hmac) => IntegrityAddedIsBuilt(m, hmac);
    case SetFingerprint(crc) => FingerprintAddedIsBuilt(m, crc);
  }

  method ApplyTo(m: Message, s: Setter) returns (ok: bool)
    requires |m.raw| >= HEADER
    modifies m
    ensures Applied(m.Value(), ok) == Apply(old(m.Value()), s)
  {
    ok := true;
    match s {
      case SetType(t) => m.SetType(t);
      case SetId(id) => m.SetTransactionId(id);
      case AddAttribute(t, v) => m.Add(t, v);
      case SetIntegrity(hmac) => ok := AddIntegrity(m, hmac);
      case SetFingerprint(crc) => AddFingerprint(m, crc);
    }
  }

  /** The setters in turn, up to the first that fails. */
  ghost function ApplyAll(m: MessageState, setters: seq<Setter>): (r: Applied)
    requires Built(m)
    ensures Built(r.message)
    decreases |setters|
  {
    if setters == [] then Applied(m, true)
    else
      ApplyKeepsBuilt(m, setters[0]);
      var r := Apply(m, setters[0]);
      if r.ok then ApplyAll(r.message, setters[1..]) else r
  }

  /** `build`: whatever the setters and wherever one of them fails, the message is built. */
  method Build(m: Message, setters: seq<Setter>) returns (ok: bool)
    modifies m
    ensures Built(Blank(old(m.Value()))) && Applied(m.Value(), ok) == ApplyAll(Blank(old(m.Value())), setters)
    ensures Built(m.Value())
  {
    m.Reset();
    HeaderWritten(TypeValue(m.typ), 0, m.id);
    m.WriteHeader();
    BlankIsBuilt(m.Value());
    ghost var start := m.Value();
    var i := 0;
    while i < |setters|
      invariant 0 <= i <= |setters| && Built(m.Value())
      invariant ApplyAll(start, setters) == ApplyAll(m.Value(), setters[i..])
    {
      ApplyKeepsBuilt(m.Value(), setters[i]);
      ok := ApplyTo(m, setters[i]);
      if !ok {
        return;
      }
      i := i + 1;
    }
    ok := true;
  }
}
