/**
 Codecs of three handshake messages with variable layout: ClientHello and the two key exchanges
 (rtc-dtls/src/handshake), for any codec of extensions.
 */
module HandshakeCodec {
  import opened Bytes

  type RandomBytes = b: Bytes | |b| == 28 witness Zeros(28)

  datatype Error = CookieTooLong | UnexpectedEof | InvalidClientKeyExchange | BufferTooSmall

  /** `Panics`: the source indexes past the end of its buffer. */
  datatype Read<+T> = Ok(value: T) | Err(error: Error) | Panics

  // ---------------------------------------------------------------- ClientKeyExchange

  datatype ClientKey = ClientKey(identityHint: Bytes, publicKey: Bytes)

  function ClientKeySize(k: ClientKey): nat {
    if k.publicKey != [] then 1 + |k.publicKey| else 2 + |k.identityHint|
  }

  /** Lengths are cut to their field. */
  function PutClientKey(k: ClientKey): Read<Bytes> {
    if (k.identityHint != [] && k.publicKey != []) || (k.identityHint == [] && k.publicKey == [])
    then Err(InvalidClientKeyExchange)
    else if k.publicKey != [] then Ok([|k.publicKey| % 0x100] + k.publicKey)
    else Ok(PutU16(|k.identityHint| % 0x1_0000) + k.identityHint)
  }

  function GetClientKey(data: Bytes): Read<ClientKey> {
    if |data| < 2 then Panics
    else if |data| == GetU16(data) + 2 then Ok(ClientKey(data[2..], []))
    else if |data| != data[0] as int + 1 then Err(BufferTooSmall)
    else Ok(ClientKey([], data[1..]))
  }

  lemma ClientKeySizeIsLength(k: ClientKey)
    requires PutClientKey(k).Ok?
    ensures |PutClientKey(k).value| == ClientKeySize(k)
  {
  }

  /**
   PSK identity and public key are never taken for one another: what is written is read back exactly
   when it fits its length field.
   */
  lemma ClientKeyRoundTripIff(k: ClientKey)
    requires PutClientKey(k).Ok?
    ensures GetClientKey(PutClientKey(k).value) == Ok(k) <==> |k.publicKey| < 0x100 && |k.identityHint| < 0x1_0000
  {
    var data := PutClientKey(k).value;
    if k.publicKey != [] {
      var n := |k.publicKey| % 0x100;
      assert data[0] == n && data[1..] == k.publicKey;
      assert GetU16(data) == n * 0x100 + k.publicKey[0];
    } else {
      assert GetU16(data) == |k.identityHint| % 0x1_0000;
      assert data[2..] == k.identityHint;
    }
  }

  // ---------------------------------------------------------------- ServerKeyExchange

  const NAMED_CURVE := 3
  const UNSUPPORTED_CURVE_TYPE := 4
  const UNSUPPORTED_HASH := 9
  const UNSUPPORTED_SIGNATURE := 8

  /** Enumerations are kept as the numbers the source writes for them. */
  datatype ServerKey = ServerKey(
    identityHint: Bytes,
    curveType: Byte,
    namedCurve: U16,
    publicKey: Bytes,
    hash: Byte,
    signatureAlgorithm: Byte,
    signature: Bytes)

  function ReadCurveType(b: Byte): Byte {
    if b == NAMED_CURVE then NAMED_CURVE else UNSUPPORTED_CURVE_TYPE
  }

  function ReadCurve(v: U16): U16 {
    if v == 0x17 || v == 0x18 || v == 0x1d then v else 0
  }

  function ReadHash(b: Byte): Byte {
    if b <= 6 || b == 8 then b else UNSUPPORTED_HASH
  }

  function ReadSignatureAlgorithm(b: Byte): Byte {
    if b == 1 || b == 3 || b == 7 then b else UNSUPPORTED_SIGNATURE
  }

  function ServerKeySize(k: ServerKey): nat {
    if k.identityHint != [] then 2 + |k.identityHint| else 8 + |k.publicKey| + |k.signature|
  }

  function PutServerKey(k: ServerKey): Bytes {
    if k.identityHint != [] then PutU16(|k.identityHint| % 0x1_0000) + k.identityHint
    else
      [k.curveType] + (PutU16(k.namedCurve) + ([|k.publicKey| % 0x100] + (k.publicKey
      + ([k.hash, k.signatureAlgorithm] + (PutU16(|k.signature| % 0x1_0000) + k.signature)))))
  }

  function PskServerKey(hint: Bytes): ServerKey {
    ServerKey(hint, UNSUPPORTED_CURVE_TYPE, 0, [], UNSUPPORTED_HASH, UNSUPPORTED_SIGNATURE, [])
  }

  /** The layout without PSK identity, after the check for one. */
  function GetCurveKey(data: Bytes): Read<ServerKey>
    requires |data| >= 2
  {
    if |data| < 4 then Err(BufferTooSmall)
    else
      var offset := 4 + data[3] as int;
      if |data| < offset + 4 then Err(BufferTooSmall)
      else
        var n := GetU16(data[offset + 2..]);
        if |data| < offset + 4 + n then Err(BufferTooSmall)
        else
          Ok(ServerKey([], ReadCurveType(data[0]), ReadCurve(GetU16(data[1..])), data[4..offset],
                       ReadHash(data[offset]), ReadSignatureAlgorithm(data[offset + 1]),
                       data[offset + 4..offset + 4 + n]))
  }

  function GetServerKey(data: Bytes): Read<ServerKey> {
    if |data| < 2 then Panics
    else if |data| == GetU16(data) + 2 then Ok(PskServerKey(data[2..]))
    else GetCurveKey(data)
  }

  lemma ServerKeySizeIsLength(k: ServerKey)
    ensures |PutServerKey(k)| == ServerKeySize(k)
  {
  }

  /** Every named-curve message whose fields fit. */
  ghost predicate WfCurveKey(k: ServerKey) {
    && k.identityHint == [] && k.curveType == NAMED_CURVE
    && (k.namedCurve == 0x17 || k.namedCurve == 0x18 || k.namedCurve == 0x1d)
    && |k.publicKey| < 0x100 && |k.signature| < 0x1_0000
    && ReadHash(k.hash) == k.hash && ReadSignatureAlgorithm(k.signatureAlgorithm) == k.signatureAlgorithm
  }

  /** Reading the parts of a message one after the other. */
  lemma PartsRead(t: Byte, c: Bytes, pk: Bytes, h: Byte, a: Byte, n: Bytes, sig: Bytes)
    requires |c| == 2 && |pk| < 0x100 && |n| == 2 && GetU16(n) == |sig|
    ensures GetCurveKey([t] + (c + ([|pk|] + (pk + ([h, a] + (n + sig))))))
         == Ok(ServerKey([], ReadCurveType(t), ReadCurve(GetU16(c)), pk, ReadHash(h), ReadSignatureAlgorithm(a), sig))
  {
    hide ReadCurveType, ReadCurve, ReadHash, ReadSignatureAlgorithm, GetU16;
    var tail := [h, a] + (n + sig);
    var data := [t] + (c + ([|pk|] + (pk + tail)));
    var offset := 4 + |pk|;
    assert data[1..] == c + ([|pk|] + (pk + tail));
    U16Prefix(c, [|pk|] + (pk + tail));
    assert data[3..] == [|pk|] + (pk + tail);
    assert data[3] == |pk|;
    assert data[4..] == pk + tail;
    assert data[4..offset] == pk && data[offset..] == tail;
    TailRead(data, offset, h, a, n, sig);
    assert data[offset + 4..offset + 4 + |sig|] == data[offset + 4..];
  }

  lemma TailRead(data: Bytes, offset: nat, h: Byte, a: Byte, n: Bytes, sig: Bytes)
    requires offset <= |data| && data[offset..] == [h, a] + (n + sig) && |n| == 2
    ensures |data| == offset + 4 + |sig| && data[offset] == h && data[offset + 1] == a
    ensures GetU16(data[offset + 2..]) == GetU16(n) && data[offset + 4..] == sig
  {
    hide GetU16;
    var tail := data[offset..];
    assert data[offset] == tail[0] && data[offset + 1] == tail[1];
    assert data[offset + 2..] == tail[2..] == n + sig;
    U16Prefix(n, sig);
    assert data[offset + 4..] == tail[4..];
  }

  lemma CurveKeyRead(k: ServerKey)
    requires WfCurveKey(k)
    ensures var data := PutServerKey(k);
            |data| >= 8 && data[0] == 3 && data[1] == 0 && GetCurveKey(data) == Ok(k)
  {
    var c, n := PutU16(k.namedCurve), PutU16(|k.signature|);
    assert |k.publicKey| % 0x100 == |k.publicKey| && |k.signature| % 0x1_0000 == |k.signature|;
    assert c[0] == 0 && GetU16(c) == k.namedCurve && GetU16(n) == |k.signature|;
    hide PutU16, GetU16, GetCurveKey, ReadHash, ReadSignatureAlgorithm;
    PartsRead(k.curveType, c, k.publicKey, k.hash, k.signatureAlgorithm, n, k.signature);
  }

  lemma U16Prefix(b: Bytes, rest: Bytes)
    requires |b| >= 2
    ensures GetU16(b + rest) == GetU16(b)
  {
  }

  /**
   A named-curve message is read back exactly when it is not 770 bytes long: its first two bytes, read
   as the length of a PSK identity, are always 768.
   */
  lemma CurveKeyRoundTripIff(k: ServerKey)
    requires WfCurveKey(k)
    ensures GetServerKey(PutServerKey(k)) == Ok(k) <==> 8 + |k.publicKey| + |k.signature| != 770
  {
    CurveKeyRead(k);
    ServerKeySizeIsLength(k);
    hide PutServerKey, GetCurveKey;
  }

  /** A message that is mistaken: a 65-byte public key and a 697-byte signature. */
  lemma CurveKeyMistaken()
    ensures var k := ServerKey([], NAMED_CURVE, 0x17, Zeros(65), 4, 1, Zeros(697));
            WfCurveKey(k) && GetServerKey(PutServerKey(k)) != Ok(k)
  {
    CurveKeyRoundTripIff(ServerKey([], NAMED_CURVE, 0x17, Zeros(65), 4, 1, Zeros(697)));
  }

  /** A PSK identity that fits its field is always read back. */
  lemma PskServerKeyRoundTripIff(hint: Bytes)
    requires hint != []
    ensures GetServerKey(PutServerKey(PskServerKey(hint))) == Ok(PskServerKey(hint)) <==> |hint| < 0x1_0000
  {
    var data := PutServerKey(PskServerKey(hint));
    assert data[2..] == hint;
    U16Read(|hint| % 0x1_0000, hint);
    hide PutServerKey;
  }

  // ---------------------------------------------------------------- ClientHello

  /** Extensions: `encode` writes type, length and body, `decode` reads one from the front. */
  datatype Codec<!E> = Codec(encode: E -> Bytes, decode: Bytes -> Option<E>, size: E -> nat)

  datatype Hello<+E> = Hello(
    major: Byte,
    minor: Byte,
    time: U32,
    random: RandomBytes,
    cookie: Bytes,
    suites: seq<U16>,
    compression: Bytes,
    extensions: seq<E>)

  /** The number the source writes for a suite it does not know. */
  const UNSUPPORTED_SUITE := 0x00a9

  function ReadSuite(v: U16): U16 {
    if v == 0xc0ac || v == 0xc0ae || v == 0xc02b || v == 0xc02f || v == 0xc00a || v == 0xc014
       || v == 0xc0a4 || v == 0xc0a8 || v == 0x00a8
    then v else UNSUPPORTED_SUITE
  }

  function ExtensionSizes<E>(c: Codec<E>, es: seq<E>): nat {
    if es == [] then 0 else ExtensionSizes(c, es[..|es| - 1]) + c.size(es[|es| - 1])
  }

  function HelloSize<E>(c: Codec<E>, h: Hello<E>): nat {
    2 + 32 + 1 + (1 + |h.cookie|) + (2 + 2 * |h.suites|) + (1 + |h.compression|) + 2 + ExtensionSizes(c, h.extensions)
  }

  function PutSuites(suites: seq<U16>): (r: Bytes)
    ensures |r| == 2 * |suites|
  {
    if suites == [] then [] else PutSuites(suites[..|suites| - 1]) + PutU16(suites[|suites| - 1])
  }

  function PutExtensions<E>(c: Codec<E>, es: seq<E>): Bytes {
    if es == [] then [] else PutExtensions(c, es[..|es| - 1]) + c.encode(es[|es| - 1])
  }

  function PutFixed<E>(h: Hello<E>): (r: Bytes)
    ensures |r| == 35
  {
    [h.major, h.minor] + (PutU32(h.time) + (h.random + [0]))
  }

  /** Three vectors behind their lengths, each cut to its field. */
  function PutHello<E>(c: Codec<E>, h: Hello<E>): Read<Bytes> {
    if |h.cookie| > 255 then Err(CookieTooLong)
    else
      var es := PutExtensions(c, h.extensions);
      Ok(PutFixed(h)
         + ([|h.cookie|] + h.cookie)
         + (PutU16(2 * (|h.suites| % 0x1_0000) % 0x1_0000) + PutSuites(h.suites))
         + ([|h.compression| % 0x100] + h.compression)
         + (PutU16(|es| % 0x1_0000) + es))
  }

  ghost predicate SizesRight<E(!new)>(c: Codec<E>) {
    forall e :: c.size(e) == |c.encode(e)|
  }

  lemma {:induction false} ExtensionSizesAreLengths<E(!new)>(c: Codec<E>, es: seq<E>)
    requires SizesRight(c)
    ensures ExtensionSizes(c, es) == |PutExtensions(c, es)|
  {
    if es != [] {
      ExtensionSizesAreLengths(c, es[..|es| - 1]);
    }
  }

  /** `size` is the marshalled length, for every message that can be marshalled. */
  lemma HelloSizeIsLength<E(!new)>(c: Codec<E>, h: Hello<E>)
    requires SizesRight(c) && PutHello(c, h).Ok?
    ensures |PutHello(c, h).value| == HelloSize(c, h)
  {
    hide PutU16, PutFixed, PutSuites, PutExtensions;
    ExtensionSizesAreLengths(c, h.extensions);
  }

  // ---------------------------------------------------------------- reading a ClientHello

  /** A field and the bytes after it; `Short` when the input ends inside it. */
  datatype Part<+T> = Part(value: T, rest: Bytes) | Short

  function ReadVector(b: Bytes): Part<Bytes> {
    if b == [] || |b| - 1 < b[0] then Short
    else
      var n: int := b[0];
      Part(b[1..1 + n], b[1 + n..])
  }

  function ReadLongVector(b: Bytes): Part<Bytes> {
    if |b| < 2 || |b| - 2 < GetU16(b) then Short
    else Part(b[2..2 + GetU16(b)], b[2 + GetU16(b)..])
  }

  function GetSuites(b: Bytes, n: nat): (r: seq<U16>)
    requires |b| >= 2 * n
    ensures |r| == n
  {
    if n == 0 then [] else GetSuites(b, n - 1) + [ReadSuite(GetU16(b[2 * (n - 1)..]))]
  }

  function Half(n: nat): nat {
    n / 2
  }

  /** An odd trailing byte of the declared length is not part of the vector. */
  function ReadSuites(b: Bytes): Part<seq<U16>> {
    if |b| < 2 || |b| - 2 < 2 * Half(GetU16(b)) then Short
    else
      var n := Half(GetU16(b));
      Part(GetSuites(b[2..], n), b[2 + 2 * n..])
  }

  /** Methods other than the null one are dropped. */
  function Supported(ids: Bytes): Bytes {
    if ids == [] then []
    else Supported(ids[..|ids| - 1]) + if ids[|ids| - 1] == 0 then [0] else []
  }

  function Keep<E>(e: Option<E>, r: Read<seq<E>>): Read<seq<E>> {
    if r.Ok? && e.Some? then Ok([e.value] + r.value) else r
  }

  /** Extensions that cannot be read are skipped by their length field. */
  function ParseExtensions<E>(c: Codec<E>, b: Bytes, offset: nat): Read<seq<E>>
    decreases |b| - offset
  {
    if offset >= |b| then Ok([])
    else if offset + 4 > |b| then Panics
    else Keep(c.decode(b[offset..]), ParseExtensions(c, b, offset + 4 + GetU16(b[offset + 2..])))
  }

  function GetHello<E>(c: Codec<E>, b: Bytes): Read<Hello<E>> {
    if |b| < 35 then Err(UnexpectedEof)
    else
      match ReadVector(b[35..])
      case Short => Err(UnexpectedEof)
      case Part(cookie, b1) =>
        match ReadSuites(b1)
        case Short => Err(UnexpectedEof)
        case Part(suites, b2) =>
          match ReadVector(b2)
          case Short => Err(UnexpectedEof)
          case Part(ids, b3) =>
            match ReadLongVector(b3)
            case Short => Err(UnexpectedEof)
            case Part(block, _) =>
              match ParseExtensions(c, block, 0)
              case Ok(es) => Ok(Hello(b[0], b[1], GetU32(b[2..]), b[6..34], cookie, suites, Supported(ids), es))
              case Err(e) => Err(e)
              case Panics => Panics
  }

  ghost predicate AllDelimited<E(!new)>(c: Codec<E>, es: seq<E>) {
    forall i :: 0 <= i < |es| ==> Delimited(c, es[i], c.encode(es[i]))
  }

  /** An encoding that carries its own length and is read back whatever follows it. */
  ghost predicate Delimited<E(!new)>(c: Codec<E>, e: E, b: Bytes) {
    |b| >= 4 && GetU16(b[2..]) == |b| - 4 && forall rest :: c.decode(b + rest) == Some(e)
  }

  ghost predicate WfHello<E>(c: Codec<E>, h: Hello<E>) {
    && |h.cookie| < 0x100 && |h.suites| < 0x8000 && |h.compression| < 0x100
    && (forall i :: 0 <= i < |h.suites| ==> ReadSuite(h.suites[i]) == h.suites[i])
    && (forall i :: 0 <= i < |h.compression| ==> h.compression[i] == 0)
    && |PutExtensions(c, h.extensions)| < 0x1_0000
  }

  lemma VectorRead(v: Bytes, rest: Bytes)
    requires |v| < 0x100
    ensures ReadVector([|v|] + v + rest) == Part(v, rest)
  {
    var b := [|v|] + v + rest;
    assert b[1..1 + |v|] == v && b[1 + |v|..] == rest;
  }

  lemma LongVectorRead(v: Bytes, rest: Bytes)
    requires |v| < 0x1_0000
    ensures ReadLongVector(PutU16(|v|) + v + rest) == Part(v, rest)
  {
    hide PutU16, GetU16;
    var b := PutU16(|v|) + v + rest;
    assert b == PutU16(|v|) + (v + rest);
    U16Read(|v|, v + rest);
    assert b[2..2 + |v|] == v && b[2 + |v|..] == rest;
  }

  lemma {:induction false} SuitesRead(suites: seq<U16>, rest: Bytes)
    requires forall i :: 0 <= i < |suites| ==> ReadSuite(suites[i]) == suites[i]
    ensures GetSuites(PutSuites(suites) + rest, |suites|) == suites
  {
    hide PutU16, GetU16, ReadSuite;
    if suites != [] {
      var n := |suites| - 1;
      var last := PutU16(suites[n]);
      SuitesRead(suites[..n], last + rest);
      Assoc(PutSuites(suites[..n]), last, rest);
      assert (PutSuites(suites) + rest)[2 * n..] == last + rest;
      U16Read(suites[n], rest);
    }
  }

  lemma SuiteVectorRead(suites: seq<U16>, rest: Bytes)
    requires |suites| < 0x8000 && forall i :: 0 <= i < |suites| ==> ReadSuite(suites[i]) == suites[i]
    ensures ReadSuites(PutU16(2 * |suites|) + PutSuites(suites) + rest) == Part(suites, rest)
  {
    SuitesRead(suites, rest);
    hide PutU16, GetU16, ReadSuite, PutSuites, GetSuites, Half;
    var n := |suites|;
    var v, l := PutSuites(suites), PutU16(2 * n);
    var b := l + v + rest;
    Assoc(l, v, rest);
    U16Read(2 * n, v + rest);
    HalfOfDouble(n);
    assert b[2..] == v + rest;
    assert b[2 + 2 * n..] == rest;
  }

  lemma HalfOfDouble(n: nat)
    ensures Half(2 * n) == n
  {
  }

  lemma {:induction false} NullMethodsKept(ids: Bytes)
    requires forall i :: 0 <= i < |ids| ==> ids[i] == 0
    ensures Supported(ids) == ids
  {
    if ids != [] {
      NullMethodsKept(ids[..|ids| - 1]);
      assert ids == ids[..|ids| - 1] + [0];
    }
  }

  lemma {:induction false} ExtensionsShift<E>(c: Codec<E>, front: Bytes, b: Bytes, offset: nat)
    ensures ParseExtensions(c, front + b, |front| + offset) == ParseExtensions(c, b, offset)
    decreases |b| - offset
  {
    hide GetU16, Keep;
    if offset + 4 <= |b| {
      assert (front + b)[|front| + offset..] == b[offset..];
      assert (front + b)[|front| + offset + 2..] == b[offset + 2..];
      ExtensionsShift(c, front, b, offset + 4 + GetU16(b[offset + 2..]));
    }
  }

  lemma {:induction false} PutExtensionsCons<E>(c: Codec<E>, es: seq<E>)
    requires es != []
    ensures PutExtensions(c, es) == c.encode(es[0]) + PutExtensions(c, es[1..])
  {
    var n := |es| - 1;
    if n == 0 {
      assert es[..n] == [] && es[1..] == [];
    } else {
      PutExtensionsCons(c, es[..n]);
      assert es[..n][1..] == es[1..][..n - 1];
      Assoc(c.encode(es[0]), PutExtensions(c, es[1..][..n - 1]), c.encode(es[n]));
    }
  }

  /** One extension off the front. */
  lemma ExtensionFirst<E(!new)>(c: Codec<E>, e: E, b: Bytes, rest: Bytes)
    requires Delimited(c, e, b)
    ensures ParseExtensions(c, b + rest, 0) == Keep(Some(e), ParseExtensions(c, rest, 0))
  {
    var all := b + rest;
    assert all[2..] == b[2..] + rest && GetU16(all[2..]) == GetU16(b[2..]);
    hide GetU16, Keep;
    assert all[0..] == all && c.decode(all[0..]) == Some(e);
    assert ParseExtensions(c, all, 0) == Keep(Some(e), ParseExtensions(c, all, |b|));
    ExtensionsShift(c, b, rest, 0);
  }

  lemma {:induction false} ExtensionsRead<E(!new)>(c: Codec<E>, es: seq<E>)
    requires AllDelimited(c, es)
    ensures ParseExtensions(c, PutExtensions(c, es), 0) == Ok(es)
  {
    if es != [] {
      hide ParseExtensions, Delimited;
      assert Delimited(c, es[0], c.encode(es[0]));
      PutExtensionsCons(c, es);
      ExtensionFirst(c, es[0], c.encode(es[0]), PutExtensions(c, es[1..]));
      ExtensionsRead(c, es[1..]);
      assert [es[0]] + es[1..] == es;
    }
  }

  lemma FixedRead<E>(h: Hello<E>, rest: Bytes)
    ensures var b := PutFixed(h) + rest;
            && b[0] == h.major && b[1] == h.minor && GetU32(b[2..]) == h.time && b[6..34] == h.random && b[35..] == rest
  {
    hide PutU32, GetU32;
    var b := PutFixed(h) + rest;
    var tail := h.random + [0] + rest;
    assert b[2..] == PutU32(h.time) + tail;
    U32Read(h.time, tail);
  }

  lemma FieldsFit<E>(c: Codec<E>, h: Hello<E>)
    requires WfHello(c, h)
    ensures 2 * (|h.suites| % 0x1_0000) % 0x1_0000 == 2 * |h.suites|
    ensures |h.compression| % 0x100 == |h.compression|
    ensures |PutExtensions(c, h.extensions)| % 0x1_0000 == |PutExtensions(c, h.extensions)|
  {
    hide PutExtensions, ReadSuite;
  }

  /** The four vectors of a message, in order. */
  lemma VectorsRead<E(!new)>(c: Codec<E>, h: Hello<E>, trailing: Bytes)
    requires AllDelimited(c, h.extensions) && WfHello(c, h)
    ensures var block := PutExtensions(c, h.extensions);
            var b4 := PutU16(|block|) + block + trailing;
            var b3 := [|h.compression|] + h.compression + b4;
            var b2 := PutU16(2 * |h.suites|) + PutSuites(h.suites) + b3;
            && ReadVector([|h.cookie|] + h.cookie + b2) == Part(h.cookie, b2)
            && ReadSuites(b2) == Part(h.suites, b3)
            && ReadVector(b3) == Part(h.compression, b4) && Supported(h.compression) == h.compression
            && ReadLongVector(b4) == Part(block, trailing) && ParseExtensions(c, block, 0) == Ok(h.extensions)
  {
    hide ReadVector, ReadSuites, ReadLongVector, ParseExtensions, PutU16, PutSuites, PutExtensions, Supported,
      ReadSuite, AllDelimited;
    var block := PutExtensions(c, h.extensions);
    var b4 := PutU16(|block|) + block + trailing;
    var b3 := [|h.compression|] + h.compression + b4;
    VectorRead(h.cookie, PutU16(2 * |h.suites|) + PutSuites(h.suites) + b3);
    SuiteVectorRead(h.suites, b3);
    VectorRead(h.compression, b4);
    NullMethodsKept(h.compression);
    LongVectorRead(block, trailing);
    ExtensionsRead(c, h.extensions);
  }

  lemma Nested(f: Bytes, a: Bytes, b: Bytes, c: Bytes, d: Bytes, t: Bytes)
    ensures f + a + b + c + d + t == f + (a + (b + (c + (d + t))))
  {
  }

  lemma HelloLaidOut<E>(c: Codec<E>, h: Hello<E>, trailing: Bytes)
    requires WfHello(c, h)
    ensures var block := PutExtensions(c, h.extensions);
            PutHello(c, h).Ok? &&
            PutHello(c, h).value + trailing
              == PutFixed(h) + ([|h.cookie|] + h.cookie + (PutU16(2 * |h.suites|) + PutSuites(h.suites)
                                  + ([|h.compression|] + h.compression + (PutU16(|block|) + block + trailing))))
  {
    FieldsFit(c, h);
    hide PutU16, PutSuites, PutExtensions, ReadSuite, PutFixed;
    var block := PutExtensions(c, h.extensions);
    Nested(PutFixed(h), [|h.cookie|] + h.cookie, PutU16(2 * |h.suites|) + PutSuites(h.suites),
           [|h.compression|] + h.compression, PutU16(|block|) + block, trailing);
  }

  /** Reading goes through the vectors in order. */
  lemma HelloRead<E>(c: Codec<E>, h: Hello<E>, b1: Bytes, b2: Bytes, b3: Bytes, b4: Bytes, block: Bytes,
                     trailing: Bytes)
    requires ReadVector(b1) == Part(h.cookie, b2) && ReadSuites(b2) == Part(h.suites, b3)
    requires ReadVector(b3) == Part(h.compression, b4) && Supported(h.compression) == h.compression
    requires ReadLongVector(b4) == Part(block, trailing) && ParseExtensions(c, block, 0) == Ok(h.extensions)
    ensures GetHello(c, PutFixed(h) + b1) == Ok(h)
  {
    hide ReadVector, ReadSuites, ReadLongVector, ParseExtensions, Supported, PutFixed, GetU32;
    FixedRead(h, b1);
  }

  /** A well-formed ClientHello is read back through its extension loop, whatever follows it. */
  lemma HelloRoundTrip<E(!new)>(c: Codec<E>, h: Hello<E>, trailing: Bytes)
    requires AllDelimited(c, h.extensions) && WfHello(c, h)
    ensures PutHello(c, h).Ok? && GetHello(c, PutHello(c, h).value + trailing) == Ok(h)
  {
    hide ReadVector, ReadSuites, ReadLongVector, ParseExtensions, PutU16, PutSuites, PutExtensions, Supported,
      AllDelimited, PutFixed, PutHello, GetHello;
    HelloLaidOut(c, h, trailing);
    VectorsRead(c, h, trailing);
    var block := PutExtensions(c, h.extensions);
    var b4 := PutU16(|block|) + block + trailing;
    var b3 := [|h.compression|] + h.compression + b4;
    var b2 := PutU16(2 * |h.suites|) + PutSuites(h.suites) + b3;
    HelloRead(c, h, [|h.cookie|] + h.cookie + b2, b2, b3, b4, block, trailing);
  }

  // ---------------------------------------------------------------- the loops

  ghost function KeptSoFar<E>(es: seq<E>, r: Read<seq<E>>): Read<seq<E>> {
    if r.Ok? then Ok(es + r.value) else r
  }

  lemma KeptStep<E>(es: seq<E>, e: Option<E>, r: Read<seq<E>>)
    ensures KeptSoFar(es, Keep(e, r)) == KeptSoFar(if e.Some? then es + [e.value] else es, r)
    ensures KeptSoFar([], r) == r && KeptSoFar(es, Ok([])) == Ok(es)
  {
    if r.Ok? {
      assert [] + r.value == r.value;
      if e.Some? {
        Assoc(es, [e.value], r.value);
      }
    }
    assert es + [] == es;
  }

  /** The extension loop of `unmarshal`, which steps over what it does not understand. */
  method ExtensionLoop<E>(c: Codec<E>, b: Bytes) returns (r: Read<seq<E>>)
    ensures r == ParseExtensions(c, b, 0)
  {
    hide Keep, GetU16;
    var es: seq<E>, offset := [], 0;
    KeptStep(es, None, ParseExtensions(c, b, 0));
    while offset < |b|
      invariant ParseExtensions(c, b, 0) == KeptSoFar(es, ParseExtensions(c, b, offset))
      decreases |b| - offset
    {
      if offset + 4 > |b| {
        return Panics;
      }
      var e := c.decode(b[offset..]);
      var next := offset + 4 + GetU16(b[offset + 2..]);
      KeptStep(es, e, ParseExtensions(c, b, next));
      if e.Some? {
        es := es + [e.value];
      }
      offset := next;
    }
    KeptStep(es, None, Ok([]));
    r := Ok(es);
  }

  method SuiteLoop(b: Bytes, n: nat) returns (suites: seq<U16>)
    requires |b| >= 2 * n
    ensures suites == GetSuites(b, n)
  {
    hide ReadSuite, GetU16;
    suites := [];
    var i := 0;
    while i < n
      invariant 0 <= i <= n && suites == GetSuites(b, i)
    {
      suites := suites + [ReadSuite(GetU16(b[2 * i..]))];
      i := i + 1;
    }
  }

  method ReadSuiteVector(b: Bytes) returns (r: Part<seq<U16>>)
    ensures r == ReadSuites(b)
  {
    hide GetU16, Half, GetSuites;
    if |b| < 2 {
      return Short;
    }
    var n := Half(GetU16(b));
    if |b| - 2 < 2 * n {
      return Short;
    }
    var suites := SuiteLoop(b[2..], n);
    r := Part(suites, b[2 + 2 * n..]);
  }

  method CompressionLoop(ids: Bytes) returns (kept: Bytes)
    ensures kept == Supported(ids)
  {
    kept := [];
    var i := 0;
    while i < |ids|
      invariant 0 <= i <= |ids| && kept == Supported(ids[..i])
    {
      assert ids[..i + 1][..i] == ids[..i];
      if ids[i] == 0 {
        kept := kept + [0];
      }
      i := i + 1;
    }
    assert ids[..i] == ids;
  }

  method UnmarshalHello<E>(c: Codec<E>, b: Bytes) returns (r: Read<Hello<E>>)
    ensures r == GetHello(c, b)
  {
    hide GetU32, ParseExtensions, Supported, ReadVector, ReadSuites, ReadLongVector;
    if |b| < 35 {
      return Err(UnexpectedEof);
    }
    var cookie := ReadVector(b[35..]);
    if cookie == Short {
      return Err(UnexpectedEof);
    }
    var suites := ReadSuiteVector(cookie.rest);
    if suites == Short {
      return Err(UnexpectedEof);
    }
    var ids := ReadVector(suites.rest);
    if ids == Short {
      return Err(UnexpectedEof);
    }
    var kept := CompressionLoop(ids.value);
    var block := ReadLongVector(ids.rest);
    if block == Short {
      return Err(UnexpectedEof);
    }
    var es := ExtensionLoop(c, block.value);
    match es {
      case Ok(found) => r := Ok(Hello(b[0], b[1], GetU32(b[2..]), b[6..34], cookie.value, suites.value, kept, found));
      case Err(e) => r := Err(e);
      case Panics => r := Panics;
    }
  }

  method MarshalHello<E>(c: Codec<E>, h: Hello<E>) returns (r: Read<Bytes>)
    ensures r == PutHello(c, h)
  {
    hide PutU16, PutFixed;
    if |h.cookie| > 255 {
      return Err(CookieTooLong);
    }
    var suites: Bytes, i := [], 0;
    while i < |h.suites|
      invariant 0 <= i <= |h.suites| && suites == PutSuites(h.suites[..i])
    {
      assert h.suites[..i + 1][..i] == h.suites[..i];
      suites := suites + PutU16(h.suites[i]);
      i := i + 1;
    }
    assert h.suites[..i] == h.suites;
    var es: Bytes, j := [], 0;
    while j < |h.extensions|
      invariant 0 <= j <= |h.extensions| && es == PutExtensions(c, h.extensions[..j])
    {
      assert h.extensions[..j + 1][..j] == h.extensions[..j];
      es := es + c.encode(h.extensions[j]);
      j := j + 1;
    }
    assert h.extensions[..j] == h.extensions;
    r := Ok(PutFixed(h)
            + ([|h.cookie|] + h.cookie)
            + (PutU16(2 * (|h.suites| % 0x1_0000) % 0x1_0000) + suites)
            + ([|h.compression| % 0x100] + h.compression)
            + (PutU16(|es| % 0x1_0000) + es));
  }
}
