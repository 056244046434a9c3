/** The PNTS chunk (Points.h, Points.cpp): the point list of a layer. */
module PointsChunk {
  import opened Codec
  import opened TagNames
  import opened Chunks

  /** How many 12-byte strides the parse loop takes over a payload of `len` bytes. */
  function PointCount(len: nat): nat
  {
    (len + 11) / 12
  }

  /** The count is the ceiling of len / 12, and exactly len / 12 when 12 divides len. */
  lemma PointCountIsCeiling(len: nat)
    ensures 12 * PointCount(len) >= len
    ensures PointCount(len) == 0 || 12 * (PointCount(len) - 1) < len
    ensures len % 12 == 0 ==> PointCount(len) == len / 12
  {
  }

  /** The loop bound `header.length + LWO_CHUNK_DATA_OFFSET`, in `size_t` arithmetic. */
  function PointsEnd(len: nat): nat
  {
    SizeTOf(len + CHUNK_DATA_OFFSET)
  }

  /** The number of points the loop reads from a chunk of declared length `len`. */
  function PointsRead(len: nat): nat
  {
    if PointsEnd(len) <= CHUNK_DATA_OFFSET then 0 else PointCount(PointsEnd(len) - CHUNK_DATA_OFFSET)
  }

  /** The points of a length below 2^32 - 8 are ceil(len / 12); a length that wraps the bound reads none. */
  lemma PointsReadCount(len: nat)
    requires len < TWO_32
    ensures len + CHUNK_DATA_OFFSET < TWO_32 ==> PointsRead(len) == PointCount(len)
    ensures len + CHUNK_DATA_OFFSET >= TWO_32 ==> PointsRead(len) == 0
  {
  }

  /** The loop test `offset < header.length + 8` holds at offset 8 + 12 k exactly for the first PointsRead(len) values of k. */
  lemma PointsLoopTest(len: nat, k: nat)
    ensures CHUNK_DATA_OFFSET + 12 * k < PointsEnd(len) <==> k < PointsRead(len)
  {
  }

  /** Every point the loop reads lies inside the buffer. */
  predicate PointsFit(buf: Bytes, at: nat, len: nat)
  {
    PointsRead(len) == 0 || at + CHUNK_DATA_OFFSET + 12 * PointsRead(len) <= |buf|
  }

  /** `p` is point i of the chunk at `at`: the 12 bytes at payload offset 12 i are in the buffer and decode to `p`. */
  predicate PointAt(buf: Bytes, at: nat, i: nat, p: Vec12)
  {
    at + CHUNK_DATA_OFFSET + 12 * i + 12 <= |buf| && p == DecodeVec12(buf, at + CHUNK_DATA_OFFSET + 12 * i)
  }

  /** The points of the chunk at `at`: point i decoded from the 12 bytes at 8 + 12 i. */
  function DecodePoints(buf: Bytes, at: nat, len: nat): (ps: seq<Vec12>)
    requires PointsFit(buf, at, len)
    ensures |ps| == PointsRead(len)
  {
    seq(PointsRead(len), i requires 0 <= i < PointsRead(len) =>
      DecodeVec12(buf, at + CHUNK_DATA_OFFSET + 12 * i))
  }

  /** Point i covers exactly the 12 bytes at payload offset 12 i, in file order. */
  lemma DecodePointsLayout(buf: Bytes, at: nat, len: nat, i: nat)
    requires PointsFit(buf, at, len) && i < PointsRead(len)
    ensures EncodeVec12(DecodePoints(buf, at, len)[i]) == buf[at + 8 + 12 * i..at + 8 + 12 * i + 12]
  {
    Vec12RoundTrip(DecodePoints(buf, at, len)[i], buf, at + 8 + 12 * i);
  }

  class Points {
    var points: seq<Vec12>

    /** `Points()`: an empty PNTS chunk. */
    constructor ()
      ensures points == []
    {
      points := [];
    }

    /** The chunk value a layer stores. */
    function Value(): (c: Chunk)
      reads this
      ensures GetTag(c) == PNTS
      ensures c.PointsChunk? && c.points == points
    {
      PointsChunk(points)
    }

    /**
     * parse: read one point per 12 bytes from payload offset 8 while the
     * offset is below `header.length + 8`, appending each to the list.
     * `ok` is false where the source would read past the buffer.
     */
    method Parse(buf: Bytes, at: nat, header: ChunkHeader) returns (ok: bool)
      modifies this
      ensures ok <==> PointsFit(buf, at, header.length)
      ensures ok ==> points == old(points) + DecodePoints(buf, at, header.length)
    {
      var stride := 12;
      var bound := PointsEnd(header.length);
      var offset := CHUNK_DATA_OFFSET;
      ghost var read: seq<Vec12> := [];
      ghost var start := points;
      PointsLoopTest(header.length, 0);
      while offset < bound
        invariant offset == CHUNK_DATA_OFFSET + 12 * |read|
        invariant |read| <= PointsRead(header.length)
        invariant points == start + read
        invariant forall i :: 0 <= i < |read| ==> PointAt(buf, at, i, read[i])
        decreases PointsRead(header.length) - |read|
      {
        if at + offset + stride > |buf| {
          return false;
        }
        var point := DecodeVec12(buf, at + offset);
        points := points + [point];
        read := read + [point];
        offset := offset + stride;
        PointsLoopTest(header.length, |read|);
      }
      if |read| > 0 {
        assert PointAt(buf, at, |read| - 1, read[|read| - 1]);
      }
      ghost var decoded := DecodePoints(buf, at, header.length);
      assert read == decoded;
      return true;
    }

    /** size() and length(): the number of stored points. */
    function Size(): (n: nat)
      reads this
      ensures n == |points|
    {
      |points|
    }

    /** getDescription: "Vertices: " followed by the count in decimal. */
    function GetDescription(): (d: string)
      reads this
      ensures |d| > 10 && d[..10] == "Vertices: " && CanonicalDecimal(d[10..]) && DecimalValue(d[10..]) == Size()
    {
      Chunks.GetDescription(Value())
    }
  }
}
