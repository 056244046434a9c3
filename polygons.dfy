/** The POLS chunk (Polygons.h, Polygons.cpp): the polygon list of a layer. */
module PolygonsChunk {
  import opened Wrappers
  import opened Codec
  import opened TagNames
  import opened Chunks

  /** A polygon record at `pos` fits in the buffer: its leading U2 and its point indices. */
  predicate PolygonFits(buf: Bytes, pos: nat)
  {
    pos + 2 <= |buf| && pos + 2 + 2 * (U2At(buf, pos) % 256) <= |buf|
  }

  /**
   * One polygon record: the vertex count is the low byte of the leading U2
   * (the high byte is the flags, which are dropped), then that many U2 point
   * indices.
   */
  function PolygonAt(buf: Bytes, pos: nat): (p: Polygon)
    requires PolygonFits(buf, pos)
    ensures p.numVertices == U2At(buf, pos) % 256
    ensures |p.pointIndex| == p.numVertices
    ensures forall j :: 0 <= j < |p.pointIndex| ==> p.pointIndex[j] == U2At(buf, pos + 2 + 2 * j)
  {
    var n := U2At(buf, pos) % 256;
    Polygon(n, seq(n, j requires 0 <= j < n => U2At(buf, pos + 2 + 2 * j)))
  }

  /** The shape every parsed polygon has: fewer than 256 vertices, 16-bit indices, one per vertex. */
  predicate WellShaped(p: Polygon)
  {
    p.numVertices < 256 && |p.pointIndex| == p.numVertices &&
    forall j :: 0 <= j < |p.pointIndex| ==> p.pointIndex[j] < TWO_16
  }

  /** The bytes a polygon record occupies. */
  function RecordSize(p: Polygon): nat
  {
    2 + 2 * p.numVertices
  }

  /** The bytes a list of records occupies. */
  function TotalSize(ps: seq<Polygon>): nat
  {
    if ps == [] then 0 else RecordSize(ps[0]) + TotalSize(ps[1..])
  }

  lemma {:induction false} TotalSizeAppend(a: seq<Polygon>, b: seq<Polygon>)
    ensures TotalSize(a + b) == TotalSize(a) + TotalSize(b)
    decreases |a|
  {
    if a == [] {
      assert a + b == b;
    } else {
      assert (a + b)[1..] == a[1..] + b;
      TotalSizeAppend(a[1..], b);
    }
  }

  /**
   * parsePolygons as a function: the records from payload offset `off` while
   * `off < len`, payload starting at `base`. None where the loop would read
   * past the buffer.
   */
  function PolygonsFrom(buf: Bytes, base: nat, off: nat, len: nat): (r: Option<seq<Polygon>>)
    decreases len - off
  {
    if off >= len then Some([])
    else if !PolygonFits(buf, base + off) then None
    else
      var p := PolygonAt(buf, base + off);
      match PolygonsFrom(buf, base, off + RecordSize(p), len)
      case None => None
      case Some(rest) => Some([p] + rest)
  }

  /**
   * Every parsed polygon is well shaped, and the parse stops only once the
   * records reach the declared length.
   */
  lemma {:induction false} PolygonsShape(buf: Bytes, base: nat, off: nat, len: nat)
    requires PolygonsFrom(buf, base, off, len).Some?
    ensures var ps := PolygonsFrom(buf, base, off, len).value;
            (forall i :: 0 <= i < |ps| ==> WellShaped(ps[i])) && off + TotalSize(ps) >= len
    decreases len - off
  {
    if off < len {
      var p := PolygonAt(buf, base + off);
      var rest := PolygonsFrom(buf, base, off + RecordSize(p), len).value;
      PolygonsShape(buf, base, off + RecordSize(p), len);
      assert ([p] + rest)[1..] == rest;
    }
  }

  /**
   * The records lie back to back in file order: polygon i is the record at
   * payload offset off + (the sizes of the polygons before it), and that
   * offset is still below the declared length.
   */
  lemma {:induction false} PolygonsLayout(buf: Bytes, base: nat, off: nat, len: nat, i: nat)
    requires PolygonsFrom(buf, base, off, len).Some?
    requires i < |PolygonsFrom(buf, base, off, len).value|
    ensures var ps := PolygonsFrom(buf, base, off, len).value;
            var pos := off + TotalSize(ps[..i]);
            pos < len && PolygonFits(buf, base + pos) && ps[i] == PolygonAt(buf, base + pos)
    decreases i
  {
    var ps := PolygonsFrom(buf, base, off, len).value;
    var p := PolygonAt(buf, base + off);
    var rest := PolygonsFrom(buf, base, off + RecordSize(p), len).value;
    assert ps == [p] + rest;
    if i == 0 {
      assert ps[..0] == [];
    } else {
      PolygonsLayout(buf, base, off + RecordSize(p), len, i - 1);
      assert ps[..i] == [p] + rest[..i - 1];
      TotalSizeAppend([p], rest[..i - 1]);
      assert TotalSize([p]) == RecordSize(p) by {
        assert [p][1..] == [];
      }
    }
  }

  /** `polygons + rest`, when there is a rest. */
  function Prepend(ps: seq<Polygon>, r: Option<seq<Polygon>>): Option<seq<Polygon>>
  {
    match r
    case None => None
    case Some(rest) => Some(ps + rest)
  }

  /** One step of parsePolygons: a record that fits is the head of the rest; one that does not, stops the parse. */
  lemma PolygonsFromStep(buf: Bytes, base: nat, off: nat, len: nat, ps: seq<Polygon>)
    requires off < len
    ensures !PolygonFits(buf, base + off) ==> Prepend(ps, PolygonsFrom(buf, base, off, len)).None?
    ensures PolygonFits(buf, base + off) ==>
      var p := PolygonAt(buf, base + off);
      Prepend(ps, PolygonsFrom(buf, base, off, len)) == Prepend(ps + [p], PolygonsFrom(buf, base, off + RecordSize(p), len))
  {
    if PolygonFits(buf, base + off) {
      var p := PolygonAt(buf, base + off);
      match PolygonsFrom(buf, base, off + RecordSize(p), len)
      case None =>
      case Some(rest) =>
        assert ps + ([p] + rest) == (ps + [p]) + rest;
    }
  }

  /** The 4-byte polygon type at offset 8 of the chunk is "FACE". */
  predicate IsFace(buf: Bytes, at: nat)
    requires at + 12 <= |buf|
  {
    Is4(FixedString(buf, at + CHUNK_DATA_OFFSET, 4), 'F', 'A', 'C', 'E')
  }

  /**
   * The polygon list a freshly created POLS chunk holds after parse: the
   * FACE records, or none for any other polygon type. None where the source
   * would read past the buffer.
   */
  function PolygonsOfChunk(buf: Bytes, at: nat, len: nat): (r: Option<seq<Polygon>>)
    ensures at + 12 <= |buf| && !IsFace(buf, at) ==> r == Some([])
    ensures at + 12 > |buf| ==> r.None?
  {
    if at + 12 > |buf| then None
    else if IsFace(buf, at) then PolygonsFrom(buf, at + CHUNK_DATA_OFFSET, 4, len)
    else Some([])
  }

  class Polygons {
    var polygons: seq<Polygon>

    /** `Polygons()`: an empty POLS chunk. */
    constructor ()
      ensures polygons == []
    {
      polygons := [];
    }

    /** The chunk value a layer stores. */
    function Value(): (c: Chunk)
      reads this
      ensures GetTag(c) == POLS
      ensures c.PolygonsChunk? && c.polygons == polygons
    {
      PolygonsChunk(polygons)
    }

    /**
     * One pass of the outer loop of parsePolygons: the count/flags U2 at
     * `pos`, then the inner loop over the point indices. `ok` is false where
     * the source would read past the buffer.
     */
    method ReadPolygon(buf: Bytes, pos: nat) returns (ok: bool, polygon: Polygon)
      ensures ok <==> PolygonFits(buf, pos)
      ensures ok ==> polygon == PolygonAt(buf, pos)
    {
      if pos + 2 > |buf| {
        return false, Polygon(0, []);
      }
      var numVertFlags := U2At(buf, pos);
      var numVerts := numVertFlags % 256;
      var offset := pos + 2;
      var pointIndex: seq<nat> := [];
      var vertIndex := 0;
      while vertIndex < numVerts
        invariant 0 <= vertIndex <= numVerts
        invariant offset == pos + 2 + 2 * vertIndex
        invariant offset <= |buf|
        invariant |pointIndex| == vertIndex
        invariant forall j :: 0 <= j < vertIndex ==> pointIndex[j] == U2At(buf, pos + 2 + 2 * j)
      {
        if offset + 2 > |buf| {
          return false, Polygon(0, []);
        }
        pointIndex := pointIndex + [U2At(buf, offset)];
        offset := offset + 2;
        vertIndex := vertIndex + 1;
      }
      return true, Polygon(numVerts, pointIndex);
    }

    /**
     * parsePolygons: from payload offset 4, while the offset is below the
     * declared length, read one polygon record after another.
     */
    method ParsePolygons(buf: Bytes, base: nat, chunkLength: nat) returns (ok: bool, ps: seq<Polygon>)
      ensures ok <==> PolygonsFrom(buf, base, 4, chunkLength).Some?
      ensures ok ==> Some(ps) == PolygonsFrom(buf, base, 4, chunkLength)
    {
      ps := [];
      var offset := 4;
      if PolygonsFrom(buf, base, 4, chunkLength).Some? {
        assert [] + PolygonsFrom(buf, base, 4, chunkLength).value == PolygonsFrom(buf, base, 4, chunkLength).value;
      }
      while offset < chunkLength
        invariant Prepend(ps, PolygonsFrom(buf, base, offset, chunkLength)) == PolygonsFrom(buf, base, 4, chunkLength)
        decreases chunkLength - offset
      {
        var polygon;
        PolygonsFromStep(buf, base, offset, chunkLength, ps);
        ok, polygon := ReadPolygon(buf, base + offset);
        if !ok {
          return false, [];
        }
        ps := ps + [polygon];
        offset := offset + RecordSize(polygon);
      }
      assert ps + [] == ps;
      ok := true;
    }

    /**
     * parse: read the polygon type at offset 8; only for "FACE" is the list
     * replaced by the records that follow it. `ok` is false where the
     * source would read past the buffer.
     */
    method Parse(buf: Bytes, at: nat, header: ChunkHeader) returns (ok: bool)
      modifies this
      ensures ok <==> PolygonsOfChunk(buf, at, header.length).Some?
      ensures ok ==> at + 12 <= |buf|
      ensures ok && IsFace(buf, at) ==> polygons == PolygonsOfChunk(buf, at, header.length).value
      ensures ok && !IsFace(buf, at) ==> polygons == old(polygons)
      ensures !ok ==> polygons == old(polygons)
    {
      var offset := CHUNK_DATA_OFFSET;
      if at + offset + 4 > |buf| {
        return false;
      }
      var polygonType := FixedString(buf, at + offset, 4);
      if Is4(polygonType, 'F', 'A', 'C', 'E') {
        var ps;
        ok, ps := ParsePolygons(buf, at + offset, header.length);
        if ok {
          polygons := ps;
        }
      } else {
        ok := true;
      }
    }

    /** size of the polygon list. */
    function Size(): (n: nat)
      reads this
      ensures n == |polygons|
    {
      |polygons|
    }

    /** getDescription: "Polygons: " followed by the count in decimal. */
    function GetDescription(): (d: string)
      reads this
      ensures |d| > 10 && d[..10] == "Polygons: " && CanonicalDecimal(d[10..]) && DecimalValue(d[10..]) == Size()
    {
      Chunks.GetDescription(Value())
    }
  }
}
