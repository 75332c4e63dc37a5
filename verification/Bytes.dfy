/** Bytes, big-endian integers and the small sequence facts every codec of the model uses. */
module Bytes {
  type Byte = b: int | 0 <= b < 0x100
  type Bytes = seq<Byte>

  type U16 = n: nat | n < 0x1_0000
  type U32 = n: nat | n < 0x1_0000_0000

  datatype Option<+T> = None | Some(value: T)

  /** Big-endian writers, as `write_u16`, `write_u24`, `put_u32` and `to_be_bytes` produce them. */
  function PutU16(n: nat): (r: Bytes)
    requires n < 0x1_0000
    ensures |r| == 2
  {
    [n / 0x100, n % 0x100]
  }

  function PutU24(n: nat): (r: Bytes)
    requires n < 0x100_0000
    ensures |r| == 3
  {
    [n / 0x1_0000] + PutU16(n % 0x1_0000)
  }

  function PutU32(n: nat): (r: Bytes)
    requires n < 0x1_0000_0000
    ensures |r| == 4
  {
    PutU16(n / 0x1_0000) + PutU16(n % 0x1_0000)
  }

  function PutU48(n: nat): (r: Bytes)
    requires n < 0x1_0000_0000_0000
    ensures |r| == 6
  {
    PutU16(n / 0x1_0000_0000) + PutU32(n % 0x1_0000_0000)
  }

  /** Readers: the integer held by the first bytes of `b`. */
  function GetU16(b: Bytes): (n: nat)
    requires |b| >= 2
    ensures n < 0x1_0000
  {
    b[0] as int * 0x100 + b[1] as int
  }

  function GetU24(b: Bytes): (n: nat)
    requires |b| >= 3
    ensures n < 0x100_0000
  {
    b[0] as int * 0x1_0000 + GetU16(b[1..])
  }

  function GetU32(b: Bytes): (n: nat)
    requires |b| >= 4
    ensures n < 0x1_0000_0000
  {
    GetU16(b) * 0x1_0000 + GetU16(b[2..])
  }

  function GetU48(b: Bytes): (n: nat)
    requires |b| >= 6
    ensures n < 0x1_0000_0000_0000
  {
    GetU16(b) * 0x1_0000_0000 + GetU32(b[2..])
  }

  lemma U24RoundTrip(n: nat)
    requires n < 0x100_0000
    ensures GetU24(PutU24(n)) == n
  {
    assert PutU24(n)[1..] == PutU16(n % 0x1_0000);
  }

  lemma U32RoundTrip(n: nat)
    requires n < 0x1_0000_0000
    ensures GetU32(PutU32(n)) == n
  {
    assert PutU32(n)[2..] == PutU16(n % 0x1_0000);
  }

  lemma U48RoundTrip(n: nat)
    requires n < 0x1_0000_0000_0000
    ensures GetU48(PutU48(n)) == n
  {
    assert PutU48(n)[2..] == PutU32(n % 0x1_0000_0000);
    U32RoundTrip(n % 0x1_0000_0000);
  }

  /** A number is read back whatever follows it. */
  lemma U16Read(n: U16, rest: Bytes)
    ensures GetU16(PutU16(n) + rest) == n
  {
  }

  lemma U32Read(n: U32, rest: Bytes)
    ensures GetU32(PutU32(n) + rest) == n
  {
    U32RoundTrip(n);
  }

  /** `n` zero bytes. */
  function Zeros(n: nat): (r: Bytes)
    ensures |r| == n
  {
    seq(n, _ => 0)
  }

  lemma Assoc<T>(a: seq<T>, b: seq<T>, c: seq<T>)
    ensures a + (b + c) == a + b + c
  {
  }

  /** Concatenation of a list of byte strings. */
  lemma DropFront<T>(a: seq<T>, b: seq<T>)
    ensures (a + b)[|a|..] == b && (a + b)[..|a|] == a
  {
  }

  function Flatten<T>(parts: seq<seq<T>>): seq<T> {
    if parts == [] then [] else parts[0] + Flatten(parts[1..])
  }

  lemma {:induction false} FlattenAppend<T>(a: seq<seq<T>>, b: seq<seq<T>>)
    ensures Flatten(a + b) == Flatten(a) + Flatten(b)
  {
    if a == [] {
      assert a + b == b;
    } else {
      assert (a + b)[1..] == a[1..] + b;
      FlattenAppend(a[1..], b);
    }
  }

  lemma FlattenSnoc<T>(a: seq<seq<T>>, x: seq<T>)
    ensures Flatten(a + [x]) == Flatten(a) + x
  {
    FlattenAppend(a, [x]);
    assert Flatten([x]) == x;
  }
}
