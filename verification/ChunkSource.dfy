/** Sources of bytes that are taken piece by piece up to a limit (rtc-sctp/src/util.rs:95-219). */
module ChunkSource {
  import opened Bytes

  /** What one `pop_chunk` yields, what it leaves, and how many whole chunks it used up. */
  datatype Popped<+S> = Popped(piece: Bytes, rest: S, consumed: nat)

  /** `BytesArray::pop_chunk`: empty chunks are skipped, a chunk over the limit is split. */
  function PopArray(chunks: seq<Bytes>, limit: nat): Popped<seq<Bytes>> {
    if chunks == [] then Popped([], [], 0)
    else if |chunks[0]| <= limit then
      if chunks[0] == [] then
        var r := PopArray(chunks[1..], limit);
        r.(consumed := r.consumed + 1)
      else Popped(chunks[0], chunks[1..], 1)
    else if limit > 0 then Popped(chunks[0][..limit], [chunks[0][limit..]] + chunks[1..], 0)
    else Popped([], chunks, 0)
  }

  /** `ByteSlice::pop_chunk`. */
  function PopSlice(data: Bytes, limit: nat): Popped<Bytes> {
    var n := if limit < |data| then limit else |data|;
    if n == 0 then Popped([], data, 0) else Popped(data[..n], data[n..], if n == |data| then 1 else 0)
  }

  /** Nothing is lost or reordered; a piece fits its limit; with room, an empty piece means the end. */
  lemma {:induction false} PopArrayConserves(chunks: seq<Bytes>, limit: nat)
    ensures var r := PopArray(chunks, limit);
            && r.piece + Flatten(r.rest) == Flatten(chunks) && |r.piece| <= limit
            && (limit > 0 ==> (r.piece == [] <==> Flatten(chunks) == []))
            && r.consumed + |r.rest| == |chunks|
  {
    if chunks != [] {
      var c, cs := chunks[0], chunks[1..];
      if c == [] {
        PopArrayConserves(cs, limit);
        assert Flatten(chunks) == Flatten(cs);
      } else if |c| <= limit {
      } else if limit > 0 {
        var rest := [c[limit..]] + cs;
        assert rest[1..] == cs;
        assert c[..limit] + (c[limit..] + Flatten(cs)) == c + Flatten(cs);
      }
    }
  }

  lemma PopSliceConserves(data: Bytes, limit: nat)
    ensures var r := PopSlice(data, limit);
            && r.piece + r.rest == data && |r.piece| <= limit
            && (limit > 0 ==> (r.piece == [] <==> data == []))
  {
  }

  // ---------------------------------------------------------------- draining

  datatype Drained<+S> = Drained(pieces: seq<Bytes>, left: S)

  function DrainArray(chunks: seq<Bytes>, limits: seq<nat>): Drained<seq<Bytes>>
    decreases |limits|
  {
    if limits == [] then Drained([], chunks)
    else
      var p := PopArray(chunks, limits[0]);
      var d := DrainArray(p.rest, limits[1..]);
      Drained([p.piece] + d.pieces, d.left)
  }

  function DrainSlice(data: Bytes, limits: seq<nat>): Drained<Bytes>
    decreases |limits|
  {
    if limits == [] then Drained([], data)
    else
      var p := PopSlice(data, limits[0]);
      var d := DrainSlice(p.rest, limits[1..]);
      Drained([p.piece] + d.pieces, d.left)
  }

  ghost predicate WithinLimits(pieces: seq<Bytes>, limits: seq<nat>) {
    |pieces| == |limits| && forall i :: 0 <= i < |pieces| ==> |pieces[i]| <= limits[i]
  }

  /** For any limits: what was yielded and what is left make up the original, and each piece fits. */
  lemma {:induction false} ArrayConserves(chunks: seq<Bytes>, limits: seq<nat>)
    ensures var d := DrainArray(chunks, limits);
            Flatten(d.pieces) + Flatten(d.left) == Flatten(chunks) && WithinLimits(d.pieces, limits)
    decreases |limits|
  {
    if limits != [] {
      hide PopArray;
      var p := PopArray(chunks, limits[0]);
      var d := DrainArray(p.rest, limits[1..]);
      PopArrayConserves(chunks, limits[0]);
      ArrayConserves(p.rest, limits[1..]);
      FirstPiece(p.piece, d.pieces, Flatten(d.left), Flatten(chunks), Flatten(p.rest));
    }
  }

  lemma {:induction false} SliceConserves(data: Bytes, limits: seq<nat>)
    ensures var d := DrainSlice(data, limits);
            Flatten(d.pieces) + d.left == data && WithinLimits(d.pieces, limits)
    decreases |limits|
  {
    if limits != [] {
      hide PopSlice;
      var p := PopSlice(data, limits[0]);
      var d := DrainSlice(p.rest, limits[1..]);
      PopSliceConserves(data, limits[0]);
      SliceConserves(p.rest, limits[1..]);
      FirstPiece(p.piece, d.pieces, d.left, data, p.rest);
    }
  }

  lemma FirstPiece(piece: Bytes, pieces: seq<Bytes>, left: Bytes, whole: Bytes, rest: Bytes)
    requires piece + rest == whole && Flatten(pieces) + left == rest
    ensures Flatten([piece] + pieces) + left == whole
  {
    assert ([piece] + pieces)[1..] == pieces;
    Assoc(piece, Flatten(pieces), left);
  }

  ghost predicate AllPositive(limits: seq<nat>) {
    forall i :: 0 <= i < |limits| ==> limits[i] > 0
  }

  /** With as many positive limits as there are bytes, everything has been yielded. */
  lemma {:induction false} ArrayExhausted(chunks: seq<Bytes>, limits: seq<nat>)
    requires AllPositive(limits) && |limits| >= |Flatten(chunks)|
    ensures Flatten(DrainArray(chunks, limits).left) == []
    decreases |limits|
  {
    if limits != [] {
      hide PopArray;
      PopArrayConserves(chunks, limits[0]);
      ArrayExhausted(PopArray(chunks, limits[0]).rest, limits[1..]);
    }
  }

  lemma {:induction false} SliceExhausted(data: Bytes, limits: seq<nat>)
    requires AllPositive(limits) && |limits| >= |data|
    ensures DrainSlice(data, limits).left == []
    decreases |limits|
  {
    if limits != [] {
      hide PopSlice;
      PopSliceConserves(data, limits[0]);
      SliceExhausted(PopSlice(data, limits[0]).rest, limits[1..]);
    }
  }

  /** Never ahead of the slice: a chunk boundary can only shorten a piece. */
  lemma {:induction false} ArrayNotAhead(chunks: seq<Bytes>, data: Bytes, limits: seq<nat>)
    requires |data| <= |Flatten(chunks)|
    ensures |DrainSlice(data, limits).left| <= |Flatten(DrainArray(chunks, limits).left)|
    decreases |limits|
  {
    if limits != [] {
      var p, q := PopArray(chunks, limits[0]), PopSlice(data, limits[0]);
      PopArrayConserves(chunks, limits[0]);
      PopSliceConserves(data, limits[0]);
      assert |q.rest| == if limits[0] < |data| then |data| - limits[0] else 0;
      hide PopArray, PopSlice;
      assert |Flatten(p.rest)| == |Flatten(chunks)| - |p.piece|;
      ArrayNotAhead(p.rest, q.rest, limits[1..]);
    }
  }

  lemma {:induction false} SplitsAt(a: Bytes, b: Bytes, c: Bytes, d: Bytes)
    requires a + b == c + d && |b| >= |d|
    ensures a <= c
  {
    assert a == (a + b)[..|a|];
    assert c == (c + d)[..|c|];
  }

  /**
   Refinement: the chunk array and the flat slice yield the same stream.  Under the same limits what
   the array has yielded is a prefix of what the slice has, and with enough positive limits both have
   yielded exactly the concatenation.
   */
  lemma ArrayRefinesSlice(chunks: seq<Bytes>, limits: seq<nat>)
    ensures Flatten(DrainArray(chunks, limits).pieces) <= Flatten(DrainSlice(Flatten(chunks), limits).pieces)
    ensures AllPositive(limits) && |limits| >= |Flatten(chunks)| ==>
              Flatten(DrainArray(chunks, limits).pieces) == Flatten(chunks)
                == Flatten(DrainSlice(Flatten(chunks), limits).pieces)
  {
    hide DrainArray, DrainSlice;
    var data := Flatten(chunks);
    var d, e := DrainArray(chunks, limits), DrainSlice(data, limits);
    ArrayConserves(chunks, limits);
    SliceConserves(data, limits);
    ArrayNotAhead(chunks, data, limits);
    SplitsAt(Flatten(d.pieces), Flatten(d.left), Flatten(e.pieces), e.left);
    if AllPositive(limits) && |limits| >= |data| {
      ArrayExhausted(chunks, limits);
      SliceExhausted(data, limits);
    }
  }

  // ---------------------------------------------------------------- the mutable sources

  class BytesArray {
    const chunks: array<Bytes>
    var consumed: nat

    ghost predicate Valid()
      reads this
    {
      consumed <= chunks.Length
    }

    ghost function Remaining(): seq<Bytes>
      reads this, chunks
      requires Valid()
    {
      chunks[consumed..]
    }

    constructor (chunks: array<Bytes>)
      ensures Valid() && this.chunks == chunks && Remaining() == chunks[..]
    {
      this.chunks := chunks;
      consumed := 0;
    }

    method PopChunk(limit: nat) returns (piece: Bytes, chunksConsumed: nat)
      requires Valid()
      modifies this, chunks
      ensures Valid()
      ensures Popped(piece, Remaining(), chunksConsumed) == PopArray(old(Remaining()), limit)
    {
      chunksConsumed := 0;
      while consumed < chunks.Length
        invariant Valid()
        invariant var r := PopArray(Remaining(), limit);
                  PopArray(old(Remaining()), limit) == r.(consumed := r.consumed + chunksConsumed)
      {
        var chunk := chunks[consumed];
        ghost var before := Remaining();
        if |chunk| <= limit {
          chunks[consumed] := [];
          consumed := consumed + 1;
          chunksConsumed := chunksConsumed + 1;
          assert Remaining() == before[1..];
          if chunk == [] {
            continue;
          }
          return chunk, chunksConsumed;
        } else if limit > 0 {
          chunks[consumed] := chunk[limit..];
          assert Remaining() == [chunk[limit..]] + before[1..];
          return chunk[..limit], chunksConsumed;
        } else {
          break;
        }
      }
      piece := [];
    }
  }

  class ByteSlice {
    var data: Bytes

    constructor (data: Bytes)
      ensures this.data == data
    {
      this.data := data;
    }

    method PopChunk(limit: nat) returns (piece: Bytes, chunksConsumed: nat)
      modifies this
      ensures Popped(piece, data, chunksConsumed) == PopSlice(old(data), limit)
    {
      var n := if limit < |data| then limit else |data|;
      if n == 0 {
        return [], 0;
      }
      piece := data[..n];
      data := data[|piece|..];
      chunksConsumed := if data == [] then 1 else 0;
    }
  }
}
