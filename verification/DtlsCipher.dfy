/**
 The record protection of the cipher suites (rtc-dtls/src/crypto): how GCM, CCM and CBC wrap a
 record around their primitive, and that the primitive's inverse makes the wrapping one.
 */
module DtlsCipher {
  import opened Bytes
  import opened DtlsRecord
  import DtlsFragment
  import opened DtlsReceiver
  import opened DtlsDelivery

  /** Header bytes a suite leaves alone: all but the length. */
  const KEPT := 11

  /**
   A suite: `explicit` bytes in front of the protected payload, which `nonce` draws at random, and
   the payload's protection given the header's other fields; it adds up to `expansion` bytes.
   */
  datatype Suite = Suite(
    explicit: nat,
    expansion: nat,
    nonce: nat -> Bytes,
    protect: (RecordHeader, Bytes, Bytes) -> Bytes,
    unprotect: (RecordHeader, Bytes, Bytes) -> Option<Bytes>)

  function Overhead(c: Suite): nat {
    c.explicit + c.expansion
  }

  /** The header without its length, which protection changes. */
  function Head(b: Bytes): Option<RecordHeader> {
    match DecodeRecordHeader(b)
    case Err(_) => None
    case Ok(h) => Some(h.(contentLen := 0))
  }

  /** `encrypt`: the length field counts the explicit bytes and the protected payload. */
  function Seal(c: Suite, raw: Bytes, n: nat): Bytes {
    match Head(raw)
    case None => raw
    case Some(h) =>
      var body := c.nonce(n) + c.protect(h, c.nonce(n), raw[RECORD_LAYER_HEADER_SIZE..]);
      raw[..KEPT] + PutU16(|body| % 0x1_0000) + body
  }

  /** `decrypt`: a change of cipher spec passes as it is, anything else is unprotected or refused. */
  function Open(c: Suite, r: Bytes): Option<Bytes> {
    match Head(r)
    case None => None
    case Some(h) =>
      if h.contentType == ChangeCipherSpec then Some(r)
      else if |r| <= RECORD_LAYER_HEADER_SIZE + c.explicit then None
      else
        var at := RECORD_LAYER_HEADER_SIZE + c.explicit;
        match c.unprotect(h, r[RECORD_LAYER_HEADER_SIZE..at], r[at..])
        case None => None
        case Some(p) => Some(r[..RECORD_LAYER_HEADER_SIZE] + p)
  }

  method Encrypt(c: Suite, raw: Bytes, n: nat) returns (r: Bytes)
    requires DecodeRecordHeader(raw).Ok?
    ensures r == Seal(c, raw, n)
  {
    var payload := raw[RECORD_LAYER_HEADER_SIZE..];
    var nonce := c.nonce(n);
    r := raw[..RECORD_LAYER_HEADER_SIZE];
    r := r + nonce;
    r := r + c.protect(Head(raw).value, nonce, payload);
    var len := (|r| - RECORD_LAYER_HEADER_SIZE) % 0x1_0000;
    r := r[..KEPT] + PutU16(len) + r[RECORD_LAYER_HEADER_SIZE..];
  }

  method Decrypt(c: Suite, r: Bytes) returns (d: Option<Bytes>)
    ensures d == Open(c, r)
  {
    var h := DecodeRecordHeader(r);
    if h.Err? {
      return None;
    }
    if h.value.contentType == ChangeCipherSpec {
      return Some(r);
    }
    if |r| <= RECORD_LAYER_HEADER_SIZE + c.explicit {
      return None;
    }
    var nonce := r[RECORD_LAYER_HEADER_SIZE..RECORD_LAYER_HEADER_SIZE + c.explicit];
    var out := r[RECORD_LAYER_HEADER_SIZE + c.explicit..];
    var p := c.unprotect(h.value.(contentLen := 0), nonce, out);
    if p == None {
      return None;
    }
    return Some(r[..RECORD_LAYER_HEADER_SIZE] + p.value);
  }

  // ---------------------------------------------------------------- every suite is good enough

  ghost predicate Inverts(c: Suite, h: RecordHeader, e: Bytes, p: Bytes) {
    var w := c.protect(h, e, p);
    0 < |w| <= |p| + c.expansion && c.unprotect(h, e, w) == Some(p)
  }

  /** Unprotecting inverts protecting, for every payload a record can carry. */
  ghost predicate GoodSuite(c: Suite) {
    && (forall n :: |c.nonce(n)| == c.explicit)
    && (forall h, e, p :: |e| == c.explicit && |p| < 0x1_0000 ==> Inverts(c, h, e, p))
  }

  /** `c` is what a session seals and opens its records with. */
  ghost predicate Uses(seal: (Bytes, nat) -> Bytes, open: Bytes -> Option<Bytes>, c: Suite) {
    (forall b, n :: seal(b, n) == Seal(c, b, n)) && (forall w :: open(w) == Open(c, w))
  }

  /** The length field does not matter for the rest of the header. */
  lemma SameHead(a: Bytes, b: Bytes)
    requires |a| >= RECORD_LAYER_HEADER_SIZE && |b| >= RECORD_LAYER_HEADER_SIZE && a[..KEPT] == b[..KEPT]
    ensures Head(a) == Head(b)
  {
    assert forall i :: 0 <= i < KEPT ==> a[i] == a[..KEPT][i] == b[..KEPT][i] == b[i];
    assert a[5..11] == b[5..11];
    GetU48Prefix(a[5..], a[5..11]);
    GetU48Prefix(b[5..], b[5..11]);
    hide GetU48;
  }

  /** A sealed record is one record, as long as its length field says, with the header it had. */
  lemma SealLayout(c: Suite, raw: Bytes, n: nat)
    requires GoodSuite(c) && Head(raw).Some? && |raw| - RECORD_LAYER_HEADER_SIZE + Overhead(c) < 0x1_0000
    ensures var w := Seal(c, raw, n);
            var at := RECORD_LAYER_HEADER_SIZE + c.explicit;
            && |w| > at && WfRecord(w) && Head(w) == Head(raw)
            && w[RECORD_LAYER_HEADER_SIZE..at] == c.nonce(n)
            && w[at..] == c.protect(Head(raw).value, c.nonce(n), raw[RECORD_LAYER_HEADER_SIZE..])
  {
    var h := Head(raw).value;
    var e, p := c.nonce(n), raw[RECORD_LAYER_HEADER_SIZE..];
    assert Inverts(c, h, e, p);
    var w := Seal(c, raw, n);
    hide DecodeRecordHeader;
    SameHead(w, raw);
    hide PutU16, GetU16, Head;
    var body := e + c.protect(h, e, p);
    assert w[11..] == PutU16(|body|) + body;
    U16Read(|body|, body);
  }

  lemma OpenSealed(c: Suite, raw: Bytes, n: nat)
    requires GoodSuite(c) && Head(raw).Some? && |raw| - RECORD_LAYER_HEADER_SIZE + Overhead(c) < 0x1_0000
    requires Head(raw).value.contentType != ChangeCipherSpec
    ensures var d := Open(c, Seal(c, raw, n));
            && d.Some? && |d.value| == |raw| && d.value[..KEPT] == raw[..KEPT]
            && d.value[RECORD_LAYER_HEADER_SIZE..] == raw[RECORD_LAYER_HEADER_SIZE..]
  {
    SealLayout(c, raw, n);
    assert Inverts(c, Head(raw).value, c.nonce(n), raw[RECORD_LAYER_HEADER_SIZE..]);
    hide Head, WfRecord;
  }

  lemma PlainHead(x: Sent)
    requires Fits(x)
    ensures Head(Plain(x)) == Some(RecordHeader(x.contentType, PROTOCOL_VERSION1_2, x.epoch, x.number, 0))
    ensures |Plain(x)| == RECORD_LAYER_HEADER_SIZE + |x.content|
    ensures Plain(x)[RECORD_LAYER_HEADER_SIZE..] == x.content
  {
    hide DecodeRecordHeader;
    RecordHeaderRoundTrip(RecordHeader(x.contentType, PROTOCOL_VERSION1_2, x.epoch, x.number, |x.content|), x.content);
  }

  lemma HeadDecodes(b: Bytes)
    requires Head(b).Some?
    ensures |b| >= RECORD_LAYER_HEADER_SIZE && DecodeRecordHeader(b).Ok?
    ensures DecodeRecordHeader(b).value.epoch == Head(b).value.epoch
    ensures DecodeRecordHeader(b).value.contentType == Head(b).value.contentType
  {
  }

  lemma SealedRecordOpens(c: Suite, x: Sent)
    requires GoodSuite(c) && Sendable(x, Overhead(c)) && x.encrypt
    ensures SealedOpens(Seal(c, Plain(x), x.nonce), x, w => Open(c, w))
  {
    hide Head, DecodeRecordHeader, WfRecord, Seal, Open;
    PlainHead(x);
    SealLayout(c, Plain(x), x.nonce);
    OpenSealed(c, Plain(x), x.nonce);
    var w := Seal(c, Plain(x), x.nonce);
    var d := Open(c, w).value;
    SameHead(d, Plain(x));
    HeadDecodes(w);
    HeadDecodes(d);
  }

  lemma OpenKeepsHeader(c: Suite, w: Bytes)
    ensures KeepsHeader(w, r => Open(c, r))
  {
    if Head(w).Some? {
      HeadDecodes(w);
    }
    hide Head;
  }

  /** Any suite whose unprotection inverts its protection delivers what the handshake needs. */
  lemma SuiteIsGood(seal: (Bytes, nat) -> Bytes, open: Bytes -> Option<Bytes>, c: Suite)
    requires GoodSuite(c) && Uses(seal, open, c)
    ensures GoodCipher(seal, open, Overhead(c))
  {
    forall x | Sendable(x, Overhead(c)) && x.encrypt
      ensures SealedOpens(seal(Plain(x), x.nonce), x, open)
    {
      SealedRecordOpens(c, x);
      assert open(seal(Plain(x), x.nonce)) == Open(c, Seal(c, Plain(x), x.nonce));
    }
    forall w
      ensures KeepsHeader(w, open)
    {
      OpenKeepsHeader(c, w);
      assert open(w) == Open(c, w);
    }
  }

  /** A change of cipher spec that was not encrypted passes unchanged in every epoch. */
  lemma CipherSpecPasses(c: Suite, x: Sent)
    requires Fits(x) && x.contentType == ChangeCipherSpec
    ensures Open(c, Plain(x)) == Some(Plain(x))
  {
    PlainHead(x);
  }

  // ---------------------------------------------------------------- GCM and CCM

  /** An AEAD primitive with its tag length and the four fixed bytes of the nonce. */
  datatype Aead = Aead(
    tag: nat,
    iv: Bytes,
    seal: (Bytes, Bytes, Bytes) -> Bytes,
    open: (Bytes, Bytes, Bytes) -> Option<Bytes>)

  ghost predicate AeadInverts(a: Aead, nonce: Bytes, data: Bytes, p: Bytes) {
    |a.seal(nonce, data, p)| == |p| + a.tag && a.open(nonce, data, a.seal(nonce, data, p)) == Some(p)
  }

  ghost predicate GoodAead(a: Aead) {
    a.tag > 0 && forall nonce, data, p :: |p| < 0x1_0000 ==> AeadInverts(a, nonce, data, p)
  }

  /** The 13 bytes that are authenticated with a payload of `len` bytes. */
  function AdditionalData(h: RecordHeader, len: nat): (b: Bytes)
    requires h.sequenceNumber <= MAX_SEQUENCE_NUMBER
    ensures |b| == 13
  {
    PutU16(h.epoch) + PutU48(h.sequenceNumber)
    + [ContentCode(h.contentType), h.version.major, h.version.minor] + PutU16(len % 0x1_0000)
  }

  function DataFor(h: RecordHeader, len: nat): Bytes {
    if h.sequenceNumber <= MAX_SEQUENCE_NUMBER then AdditionalData(h, len) else []
  }

  const EXPLICIT_NONCE := 8

  function OfAead(a: Aead, random: nat -> Bytes): Suite {
    Suite(EXPLICIT_NONCE, a.tag, random,
          (h: RecordHeader, e: Bytes, p: Bytes) => a.seal(a.iv + e, DataFor(h, |p|), p),
          (h: RecordHeader, e: Bytes, out: Bytes) =>
            if |out| < a.tag then None else a.open(a.iv + e, DataFor(h, |out| - a.tag), out))
  }

  lemma AeadSuiteIsGood(a: Aead, random: nat -> Bytes)
    requires GoodAead(a) && forall n :: |random(n)| == EXPLICIT_NONCE
    ensures GoodSuite(OfAead(a, random))
  {
    var c := OfAead(a, random);
    forall h, e, p | |e| == c.explicit && |p| < 0x1_0000
      ensures Inverts(c, h, e, p)
    {
      assert AeadInverts(a, a.iv + e, DataFor(h, |p|), p);
    }
  }

  // ---------------------------------------------------------------- CBC

  const BLOCK_SIZE := 16
  const MAC_SIZE := 20

  /** Encryption of whole blocks under an initial vector, and the MAC over header data and payload. */
  datatype Cbc = Cbc(
    encrypt: (Bytes, Bytes) -> Bytes,
    decrypt: (Bytes, Bytes) -> Option<Bytes>,
    mac: (Bytes, Bytes) -> Bytes)

  ghost predicate CbcInverts(b: Cbc, iv: Bytes, blocks: Bytes) {
    |b.encrypt(iv, blocks)| == |blocks| && b.decrypt(iv, b.encrypt(iv, blocks)) == Some(blocks)
  }

  ghost predicate GoodCbc(b: Cbc) {
    && (forall iv, blocks :: |blocks| % BLOCK_SIZE == 0 ==> CbcInverts(b, iv, blocks))
    && (forall data, p :: |b.mac(data, p)| == MAC_SIZE)
  }

  function Repeat(b: Byte, n: nat): (r: Bytes)
    ensures |r| == n && forall i :: 0 <= i < n ==> r[i] == b
  {
    seq(n, _ => b)
  }

  /** Fills the last block; every added byte holds the number of added bytes less one. */
  function Pad(p: Bytes): (r: Bytes)
    ensures |p| < |r| <= |p| + BLOCK_SIZE && |r| % BLOCK_SIZE == 0
  {
    var padding := BLOCK_SIZE - |p| % BLOCK_SIZE - 1;
    p + Repeat(padding, padding + 1)
  }

  function Unpad(data: Bytes): Option<Bytes> {
    var padding := if data == [] then 1 else data[|data| - 1];
    if padding + 1 > |data| then None
    else
      var begin := |data| - padding - 1;
      if exists i :: begin <= i < |data| - 1 && data[i] != padding then None else Some(data[..begin])
  }

  lemma UnpadPadded(p: Bytes)
    ensures Unpad(Pad(p)) == Some(p)
  {
    assert Pad(p)[..|p|] == p;
  }

  function CheckMac(b: Cbc, h: RecordHeader, d: Bytes): Option<Bytes> {
    if |d| < MAC_SIZE then None
    else
      var p := d[..|d| - MAC_SIZE];
      if d[|d| - MAC_SIZE..] == b.mac(DataFor(h, |p|), p) then Some(p) else None
  }

  function CbcOpen(b: Cbc, h: RecordHeader, iv: Bytes, out: Bytes): Option<Bytes> {
    match b.decrypt(iv, out)
    case None => None
    case Some(blocks) =>
      match Unpad(blocks)
      case None => None
      case Some(d) => CheckMac(b, h, d)
  }

  function OfCbc(b: Cbc, random: nat -> Bytes): Suite {
    Suite(BLOCK_SIZE, MAC_SIZE + BLOCK_SIZE, random,
          (h: RecordHeader, iv: Bytes, p: Bytes) => b.encrypt(iv, Pad(p + b.mac(DataFor(h, |p|), p))),
          (h: RecordHeader, iv: Bytes, out: Bytes) => CbcOpen(b, h, iv, out))
  }

  lemma CbcSuiteIsGood(b: Cbc, random: nat -> Bytes)
    requires GoodCbc(b) && forall n :: |random(n)| == BLOCK_SIZE
    ensures GoodSuite(OfCbc(b, random))
  {
    var c := OfCbc(b, random);
    forall h, iv, p | |iv| == c.explicit && |p| < 0x1_0000
      ensures Inverts(c, h, iv, p)
    {
      var mac := b.mac(DataFor(h, |p|), p);
      var d := p + mac;
      assert |mac| == MAC_SIZE;
      UnpadPadded(d);
      hide Pad, Unpad;
      assert CbcInverts(b, iv, Pad(d));
      assert d[..|d| - MAC_SIZE] == p && d[|d| - MAC_SIZE..] == mac;
    }
  }

  // ---------------------------------------------------------------- sessions under these suites

  /** GCM and CCM sessions: 8 bytes of nonce and the tag are what every encrypted record grows by. */
  lemma AeadSessionProtected(s: Session, a: Aead, random: nat -> Bytes)
    requires GoodAead(a) && forall n :: |random(n)| == EXPLICIT_NONCE
    requires Uses(s.seal, s.keys.open, OfAead(a, random)) && s.overhead == EXPLICIT_NONCE + a.tag
    ensures Protected(s)
  {
    hide GoodAead, GoodSuite, Uses, GoodCipher;
    AeadSuiteIsGood(a, random);
    SuiteIsGood(s.seal, s.keys.open, OfAead(a, random));
  }

  /** CBC sessions: the initial vector, the MAC and up to one block of padding. */
  lemma CbcSessionProtected(s: Session, b: Cbc, random: nat -> Bytes)
    requires GoodCbc(b) && forall n :: |random(n)| == BLOCK_SIZE
    requires Uses(s.seal, s.keys.open, OfCbc(b, random)) && s.overhead == BLOCK_SIZE + MAC_SIZE + BLOCK_SIZE
    ensures Protected(s)
  {
    hide GoodCbc, GoodSuite, Uses, GoodCipher;
    CbcSuiteIsGood(b, random);
    SuiteIsGood(s.seal, s.keys.open, OfCbc(b, random));
  }

  // ---------------------------------------------------------------- an instance

  /** The payload as it is, followed by a 16-byte tag: the shape of GCM without its secrecy. */
  function Tagged(): Aead {
    Aead(16, [0, 0, 0, 0],
         (nonce: Bytes, data: Bytes, p: Bytes) => p + Zeros(16),
         (nonce: Bytes, data: Bytes, out: Bytes) => if |out| < 16 then None else Some(out[..|out| - 16]))
  }

  function Instance(): Suite {
    OfAead(Tagged(), n => Zeros(EXPLICIT_NONCE))
  }

  lemma TaggedIsGood()
    ensures GoodAead(Tagged())
  {
    forall nonce: Bytes, data: Bytes, p: Bytes | |p| < 0x1_0000
      ensures AeadInverts(Tagged(), nonce, data, p)
    {
      assert (p + Zeros(16))[..|p|] == p;
    }
  }

  function Sealing(c: Suite): (Bytes, nat) -> Bytes {
    (b: Bytes, n: nat) => Seal(c, b, n)
  }

  function Opening(c: Suite): Bytes -> Option<Bytes> {
    (w: Bytes) => Open(c, w)
  }

  /** A session with any messages under the instance. */
  function Example(msgs: seq<DtlsFragment.Message>, epochs: seq<U16>, parses: Bytes -> bool): Session {
    var c := Instance();
    Session(msgs, epochs, {}, 1200, true, Overhead(c), Sealing(c), Keys(Opening(c), false, parses))
  }

  lemma SealLength(c: Suite, raw: Bytes, n: nat)
    requires Head(raw).Some?
    ensures |Seal(c, raw, n)| ==
            RECORD_LAYER_HEADER_SIZE + |c.nonce(n)|
            + |c.protect(Head(raw).value, c.nonce(n), raw[RECORD_LAYER_HEADER_SIZE..])|
  {
    hide PutU16;
    HeadDecodes(raw);
  }

  lemma SealExpands(x: Sent)
    requires Fits(x)
    ensures |Seal(Instance(), Plain(x), x.nonce)| == |Plain(x)| + 24
  {
    hide Seal, Head, Plain, DataFor;
    PlainHead(x);
    SealLength(Instance(), Plain(x), x.nonce);
  }

  /** Sessions under a cipher that makes every record 24 bytes longer exist. */
  lemma ExampleIsProtected(msgs: seq<DtlsFragment.Message>, epochs: seq<U16>, parses: Bytes -> bool)
    ensures var s := Example(msgs, epochs, parses);
            && Protected(s) && s.overhead == 24
            && forall x :: Sendable(x, 24) && x.encrypt ==> |OnWire(s, x)| == |Plain(x)| + 24
  {
    hide Seal, Open, Plain, GoodSuite;
    TaggedIsGood();
    AeadSuiteIsGood(Tagged(), n => Zeros(EXPLICIT_NONCE));
    SuiteIsGood(Sealing(Instance()), Opening(Instance()), Instance());
    forall x | Sendable(x, 24) && x.encrypt
      ensures |Seal(Instance(), Plain(x), x.nonce)| == |Plain(x)| + 24
    {
      SealExpands(x);
    }
  }
}
