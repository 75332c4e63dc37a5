/** The seven hello extensions (rtc-dtls/src/extension) as a codec for HandshakeCodec. */
module DtlsExtensions {
  import opened Bytes
  import opened HandshakeCodec

  const SERVER_NAME: U16 := 0
  const SUPPORTED_CURVES: U16 := 10
  const POINT_FORMATS: U16 := 11
  const SIGNATURE_ALGORITHMS: U16 := 13
  const USE_SRTP: U16 := 14
  const EXTENDED_MASTER_SECRET: U16 := 23
  const RENEGOTIATION_INFO: U16 := 65281

  /** The number the source writes for a protection profile it does not know. */
  const UNSUPPORTED_PROFILE := 9

  /** Curves and profiles are kept as their numbers, a signature algorithm as its hash and signature bytes. */
  datatype Extension =
    | ServerName(name: Bytes)
    | Curves(curves: seq<U16>)
    | PointFormats(formats: Bytes)
    | SignatureAlgorithms(algorithms: seq<U16>)
    | UseSrtp(profiles: seq<U16>)
    | ExtendedMasterSecret(supported: bool)
    | RenegotiationInfo(connection: Byte)

  function TypeOf(e: Extension): U16 {
    match e
    case ServerName(_) => SERVER_NAME
    case Curves(_) => SUPPORTED_CURVES
    case PointFormats(_) => POINT_FORMATS
    case SignatureAlgorithms(_) => SIGNATURE_ALGORITHMS
    case UseSrtp(_) => USE_SRTP
    case ExtendedMasterSecret(_) => EXTENDED_MASTER_SECRET
    case RenegotiationInfo(_) => RENEGOTIATION_INFO
  }

  function ReadProfile(v: U16): U16 {
    if v == 1 || v == 2 || v == 7 || v == 8 then v else UNSUPPORTED_PROFILE
  }

  function ReadAlgorithm(v: U16): U16 {
    ReadHash(v / 0x100) * 0x100 + ReadSignatureAlgorithm(v % 0x100)
  }

  // ---------------------------------------------------------------- writing

  /** A length in its two bytes, which keep its low 16 bits. */
  function PutLength(n: nat): (r: Bytes)
    ensures |r| == 2
  {
    PutU16(n % 0x1_0000)
  }

  /** A list of numbers behind its length, and `more` behind it. */
  function PutList(xs: seq<U16>, more: Bytes): Bytes {
    PutLength(2 + 2 * |xs| + |more|) + (PutLength(2 * |xs|) + (PutSuites(xs) + more))
  }

  function Body(e: Extension): Bytes {
    match e
    case ServerName(name) =>
      PutLength(5 + |name|) + (PutLength(3 + |name|) + ([0] + (PutLength(|name|) + name)))
    case Curves(cs) => PutList(cs, [])
    case PointFormats(fs) => PutLength(1 + |fs|) + ([|fs| % 0x100] + fs)
    case SignatureAlgorithms(xs) => PutList(xs, [])
    case UseSrtp(ps) => PutList(ps, [0])
    case ExtendedMasterSecret(_) => PutLength(0)
    case RenegotiationInfo(b) => PutLength(1) + [b]
  }

  function Encode(e: Extension): Bytes {
    PutU16(TypeOf(e)) + Body(e)
  }

  function Size(e: Extension): nat {
    2 + match e
        case ServerName(name) => 2 + 2 + 1 + 2 + |name|
        case Curves(cs) => 2 + 2 + |cs| * 2
        case PointFormats(fs) => 2 + 1 + |fs|
        case SignatureAlgorithms(xs) => 2 + 2 + |xs| * 2
        case UseSrtp(ps) => 2 + 2 + |ps| * 2 + 1
        case ExtendedMasterSecret(_) => 2
        case RenegotiationInfo(_) => 3
  }

  // ---------------------------------------------------------------- reading

  function GetNumbers(b: Bytes, n: nat, f: U16 -> U16): (r: seq<U16>)
    requires |b| >= 2 * n
    ensures |r| == n
  {
    if n == 0 then [] else GetNumbers(b, n - 1, f) + [f(GetU16(b[2 * (n - 1)..]))]
  }

  /** The outer length is not looked at; an odd byte of the inner one is dropped. */
  function GetList(b: Bytes, f: U16 -> U16, more: nat): Option<seq<U16>> {
    if |b| < 4 then None
    else
      var n := Half(GetU16(b[2..]));
      if |b| < 4 + 2 * n + more then None else Some(GetNumbers(b[4..], n, f))
  }

  function GetName(b: Bytes, utf8: Bytes -> bool): Option<Bytes> {
    if |b| < 7 || b[4] != 0 then None
    else
      var n := GetU16(b[5..]);
      if |b| < 7 + n || !utf8(b[7..7 + n]) then None else Some(b[7..7 + n])
  }

  /** One extension from the front of the bytes; `utf8` says which names are text. */
  function Decode(b: Bytes, utf8: Bytes -> bool): Option<Extension> {
    if |b| < 4 then None
    else
      var t, v := GetU16(b), b[2..];
      if t == SERVER_NAME then var n := GetName(v, utf8); if n == None then None else Some(ServerName(n.value))
      else if t == SUPPORTED_CURVES then
        var cs := GetList(v, ReadCurve, 0); if cs == None then None else Some(Curves(cs.value))
      else if t == POINT_FORMATS then
        if |v| < 3 || |v| - 3 < v[2] then None else Some(PointFormats(v[3..3 + v[2] as int]))
      else if t == SIGNATURE_ALGORITHMS then
        var xs := GetList(v, ReadAlgorithm, 0); if xs == None then None else Some(SignatureAlgorithms(xs.value))
      else if t == USE_SRTP then
        var ps := GetList(v, ReadProfile, 1); if ps == None then None else Some(UseSrtp(ps.value))
      else if t == EXTENDED_MASTER_SECRET then Some(ExtendedMasterSecret(true))
      else if t == RENEGOTIATION_INFO then
        if GetU16(v) != 1 || |v| < 3 then None else Some(RenegotiationInfo(v[2]))
      else None
  }

  function Extensions(utf8: Bytes -> bool): Codec<Extension> {
    Codec(Encode, (b: Bytes) => Decode(b, utf8), Size)
  }

  /** The loop over the numbers of a list. */
  method NumberLoop(b: Bytes, n: nat, f: U16 -> U16) returns (xs: seq<U16>)
    requires |b| >= 2 * n
    ensures xs == GetNumbers(b, n, f)
  {
    hide GetU16;
    xs := [];
    for i := 0 to n
      invariant xs == GetNumbers(b, i, f)
    {
      xs := xs + [f(GetU16(b[2 * i..]))];
    }
  }

  // ---------------------------------------------------------------- what can be read back

  /** A list that fits its length fields, of numbers that the reader knows. */
  ghost predicate WfList(xs: seq<U16>, f: U16 -> U16) {
    |xs| <= 32766 && forall i :: 0 <= i < |xs| ==> f(xs[i]) == xs[i]
  }

  ghost predicate WfExtension(e: Extension, utf8: Bytes -> bool) {
    match e
    case ServerName(name) => |name| <= 65530 && utf8(name)
    case Curves(cs) => WfList(cs, ReadCurve)
    case PointFormats(fs) => |fs| < 0x100
    case SignatureAlgorithms(xs) => WfList(xs, ReadAlgorithm)
    case UseSrtp(ps) => WfList(ps, ReadProfile)
    case ExtendedMasterSecret(supported) => supported
    case RenegotiationInfo(_) => true
  }

  lemma LengthRead(n: nat, rest: Bytes)
    ensures GetU16(PutLength(n) + rest) == n % 0x1_0000
    ensures n < 0x1_0000 ==> GetU16(PutLength(n) + rest) == n
  {
    U16Read(n % 0x1_0000, rest);
    hide GetU16, PutU16;
  }

  lemma {:induction false} NumbersRead(xs: seq<U16>, f: U16 -> U16, rest: Bytes)
    ensures var r := GetNumbers(PutSuites(xs) + rest, |xs|, f); forall i :: 0 <= i < |xs| ==> r[i] == f(xs[i])
  {
    hide PutU16, GetU16;
    if xs != [] {
      var n := |xs| - 1;
      var last := PutU16(xs[n]);
      NumbersRead(xs[..n], f, last + rest);
      Assoc(PutSuites(xs[..n]), last, rest);
      assert (PutSuites(xs) + rest)[2 * n..] == last + rest;
      U16Read(xs[n], rest);
    }
  }

  /** A list whose length fits is read back if and only if its numbers are known. */
  lemma ListRead(xs: seq<U16>, more: Bytes, f: U16 -> U16, rest: Bytes)
    requires |xs| <= 32766
    ensures GetList(PutList(xs, more) + rest, f, |more|) == Some(xs) <==> WfList(xs, f)
  {
    hide PutLength, GetU16, PutSuites, GetNumbers, Half;
    var b := PutList(xs, more) + rest;
    var l, tail := PutLength(2 * |xs|), PutSuites(xs) + (more + rest);
    assert b[2..] == l + tail && b[4..] == tail;
    LengthRead(2 * |xs|, tail);
    HalfOfDouble(|xs|);
    NumbersRead(xs, f, more + rest);
    var r := GetNumbers(tail, |xs|, f);
    if WfList(xs, f) {
      assert r == xs;
    }
  }

  lemma NameRead(name: Bytes, utf8: Bytes -> bool, rest: Bytes)
    requires |name| <= 65530
    ensures GetName(Body(ServerName(name)) + rest, utf8) == Some(name) <==> utf8(name)
  {
    hide PutLength, GetU16;
    var b := Body(ServerName(name)) + rest;
    var l := PutLength(|name|);
    assert b[5..] == l + (name + rest);
    LengthRead(|name|, name + rest);
    assert b[7..7 + |name|] == name;
  }

  lemma FormatsRead(fs: Bytes, rest: Bytes)
    ensures var v := Body(PointFormats(fs)) + rest;
            |v| >= 3 && v[2] == |fs| % 0x100 && (|fs| < 0x100 ==> |v| >= 3 + |fs| && v[3..3 + |fs|] == fs)
  {
    hide PutLength;
    var v := Body(PointFormats(fs)) + rest;
    assert v == PutLength(1 + |fs|) + ([|fs| % 0x100] + (fs + rest));
    assert |fs| < 0x100 ==> v[3..3 + |fs|] == fs;
  }

  /** The encoding's size is the computed one, and its length field gives what follows it, cut to 16 bits. */
  lemma EncodedSize(e: Extension)
    ensures |Encode(e)| == Size(e) >= 4 && Encode(e)[2..] == Body(e)
    ensures GetU16(Body(e)) == (Size(e) - 4) % 0x1_0000
  {
    hide PutLength, GetU16, PutSuites;
    assert Encode(e)[2..] == Body(e);
    match e
    case ServerName(name) =>
      LengthRead(5 + |name|, PutLength(3 + |name|) + ([0] + (PutLength(|name|) + name)));
    case Curves(xs) => LengthRead(2 + 2 * |xs|, PutLength(2 * |xs|) + (PutSuites(xs) + []));
    case PointFormats(fs) => LengthRead(1 + |fs|, [|fs| % 0x100] + fs);
    case SignatureAlgorithms(xs) => LengthRead(2 + 2 * |xs|, PutLength(2 * |xs|) + (PutSuites(xs) + []));
    case UseSrtp(ps) => LengthRead(3 + 2 * |ps|, PutLength(2 * |ps|) + (PutSuites(ps) + [0]));
    case ExtendedMasterSecret(_) =>
      LengthRead(0, []);
      assert PutLength(0) + [] == PutLength(0);
    case RenegotiationInfo(b) => LengthRead(1, [b]);
  }

  lemma HeadRead(e: Extension, rest: Bytes)
    ensures var b := Encode(e) + rest; |b| >= 4 && GetU16(b) == TypeOf(e) && b[2..] == Body(e) + rest
  {
    EncodedSize(e);
    hide GetU16, PutU16, Body;
    assert Encode(e) + rest == PutU16(TypeOf(e)) + (Body(e) + rest);
    U16Read(TypeOf(e), Body(e) + rest);
  }

  /** An extension whose length fits its field is read back if and only if it is well-formed. */
  lemma DecodesIff(e: Extension, utf8: Bytes -> bool, rest: Bytes)
    requires Size(e) - 4 < 0x1_0000
    ensures Decode(Encode(e) + rest, utf8) == Some(e) <==> WfExtension(e, utf8)
  {
    HeadRead(e, rest);
    hide Encode, GetU16, GetList, GetName, PutLength, PutSuites, WfList;
    var v := Body(e) + rest;
    match e
    case ServerName(name) => NameRead(name, utf8, rest);
    case Curves(xs) => ListRead(xs, [], ReadCurve, rest);
    case PointFormats(fs) => FormatsRead(fs, rest);
    case SignatureAlgorithms(xs) => ListRead(xs, [], ReadAlgorithm, rest);
    case UseSrtp(ps) => ListRead(ps, [0], ReadProfile, rest);
    case ExtendedMasterSecret(_) =>
    case RenegotiationInfo(b) =>
      LengthRead(1, [b] + rest);
      assert v == PutLength(1) + ([b] + rest);
  }

  lemma WfFits(e: Extension, utf8: Bytes -> bool)
    requires WfExtension(e, utf8)
    ensures Size(e) - 4 < 0x1_0000
  {
  }

  /**
   Exactly the well-formed extensions carry their own length and are read back whatever follows:
   names that are text, lists that fit their length fields and hold known numbers, and an extended
   master secret extension that says yes.
   */
  lemma DelimitedIff(e: Extension, utf8: Bytes -> bool)
    ensures Delimited(Extensions(utf8), e, Encode(e)) <==> WfExtension(e, utf8)
  {
    EncodedSize(e);
    hide Encode, Decode, Body, Size, GetU16;
    if WfExtension(e, utf8) {
      WfFits(e, utf8);
      hide WfExtension;
      forall rest
        ensures Extensions(utf8).decode(Encode(e) + rest) == Some(e)
      {
        DecodesIff(e, utf8, rest);
      }
    }
    if Delimited(Extensions(utf8), e, Encode(e)) {
      hide WfExtension;
      assert Extensions(utf8).decode(Encode(e) + []) == Some(e);
      DecodesIff(e, utf8, []);
    }
  }

  /** A ClientHello with any of the repository's extensions is read back, whatever follows it. */
  lemma ClientHelloRoundTrip(h: Hello<Extension>, utf8: Bytes -> bool, trailing: Bytes)
    requires WfHello(Extensions(utf8), h)
    requires forall i :: 0 <= i < |h.extensions| ==> WfExtension(h.extensions[i], utf8)
    ensures var c := Extensions(utf8);
            PutHello(c, h).Ok? && |PutHello(c, h).value| == HelloSize(c, h)
            && GetHello(c, PutHello(c, h).value + trailing) == Ok(h)
  {
    var c := Extensions(utf8);
    hide PutHello, GetHello, Delimited, WfExtension, HelloSize, Encode, Decode, Size;
    forall i | 0 <= i < |h.extensions|
      ensures Delimited(c, h.extensions[i], c.encode(h.extensions[i]))
    {
      DelimitedIff(h.extensions[i], utf8);
    }
    HelloRoundTrip(c, h, trailing);
    forall e
      ensures c.size(e) == |c.encode(e)|
    {
      EncodedSize(e);
    }
    HelloSizeIsLength(c, h);
  }
}
