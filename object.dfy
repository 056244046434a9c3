/**
 * LightWaveObject (LightWaveObject.h, LightWaveObject.cpp): the file and
 * chunk headers, the chunk walk of Read, and the layer accessors.
 *
 * The file arrives as a byte sequence, or None where reading it failed.
 * `size_t` is 32 bits wide, the width under which the 8-byte
 * LWO_CHUNK_HEADER that the walk steps over is laid out.
 */
module LightWave {
  import opened Wrappers
  import opened Codec
  import opened TagNames
  import opened Chunks
  import opened Walk
  import Pts = PointsChunk
  import Pol = PolygonsChunk
  import Tgs = TagsChunk
  import Srf = SurfaceChunk
  import Lyr = LayerChunk

  /** sizeof(LWO_FILE_HEADER_RAW): form 4, fileLength 4, id 4. */
  const FILE_HEADER_SIZE: nat := 12

  /** sizeof(LWO_CHUNK_HEADER): tag 4 and a 32-bit length. */
  const CHUNK_HEADER_SIZE: nat := 8

  /** LWO_FILE_HEADER. */
  datatype FileHeader = FileHeader(form: string, fileLength: nat, id: string)

  // ---------------------------------------------------------------------
  // Headers

  /**
   * parseFileHeader: form from bytes 0-3, the length as the U4 of bytes
   * 4-7 (an `int` stored into a `size_t`), id from bytes 8-11. None where
   * the 12-byte copy would read past the buffer.
   */
  function ParseFileHeader(buf: Bytes): (r: Option<FileHeader>)
    ensures r.Some? <==> |buf| >= FILE_HEADER_SIZE
    ensures r.Some? ==> r.value.fileLength == U4At(buf, 4)
  {
    if |buf| < FILE_HEADER_SIZE then None
    else
      SizeTOfInt32(U4At(buf, 4));
      Some(FileHeader(FixedString(buf, 0, 4), SizeTOf(Int32Of(U4At(buf, 4))), FixedString(buf, 8, 4)))
  }

  /** The 12 header bytes of a file with the given form bytes, length and id bytes. */
  function EncodeFileHeader(form: Bytes, fileLength: nat, id: Bytes): (r: Bytes)
    requires |form| == 4 && |id| == 4 && fileLength < TWO_32
    ensures |r| == FILE_HEADER_SIZE
  {
    form + EncodeU4(fileLength) + id
  }

  /** A buffer that begins with an encoded header parses back to that header. */
  lemma FileHeaderRoundTrip(form: Bytes, fileLength: nat, id: Bytes, buf: Bytes)
    requires |form| == 4 && |id| == 4 && fileLength < TWO_32
    requires |buf| >= FILE_HEADER_SIZE && buf[..FILE_HEADER_SIZE] == EncodeFileHeader(form, fileLength, id)
    ensures ParseFileHeader(buf) == Some(FileHeader(ToStr(form), fileLength, ToStr(id)))
  {
    var e := EncodeU4(fileLength);
    assert buf[0..4] == form && buf[8..12] == id;
    assert buf[4] == e[0] && buf[5] == e[1] && buf[6] == e[2] && buf[7] == e[3];
    U4RoundTrip(fileLength, 0, 0, 0, 0);
  }

  /** Re-encoding a parsed header gives back the first 12 bytes. */
  lemma FileHeaderEncodes(buf: Bytes)
    requires |buf| >= FILE_HEADER_SIZE
    ensures ParseFileHeader(buf).Some?
    ensures EncodeFileHeader(buf[0..4], ParseFileHeader(buf).value.fileLength, buf[8..12]) == buf[..FILE_HEADER_SIZE]
  {
    U4AtEncodes(buf, 4);
    assert buf[..FILE_HEADER_SIZE] == buf[0..4] + buf[4..8] + buf[8..12];
  }

  /**
   * parseChunkHeader at `offset`: the tag through the tag table, the length
   * as the U4 of the next four bytes. None where the 8-byte copy would read
   * past the buffer.
   */
  function ParseChunkHeader(buf: Bytes, offset: nat): (r: Option<ChunkHeader>)
    ensures r.Some? <==> offset + CHUNK_HEADER_SIZE <= |buf|
    ensures r.Some? ==> r.value.tag == TagFromString(FixedString(buf, offset, 4))
    ensures r.Some? ==> r.value.length == U4At(buf, offset + 4)
  {
    if offset + CHUNK_HEADER_SIZE > |buf| then None
    else
      SizeTOfInt32(U4At(buf, offset + 4));
      Some(ChunkHeader(TagFromString(FixedString(buf, offset, 4)), SizeTOf(Int32Of(U4At(buf, offset + 4)))))
  }

  /** The 8 header bytes of a chunk: the tag's name and the big-endian length. */
  function EncodeChunkHeader(t: ChunkTag, length: nat): (r: Bytes)
    requires t != UNKNOWN && length < TWO_32
    ensures |r| == CHUNK_HEADER_SIZE
  {
    TagRoundTrip(t);
    var name := TagToString(t);
    [name[0] as int, name[1] as int, name[2] as int, name[3] as int] + EncodeU4(length)
  }

  /** The four tag bytes of EncodeChunkHeader read back as the tag's name. */
  lemma TagBytesRead(t: ChunkTag, buf: Bytes, at: nat)
    requires t != UNKNOWN && at + 4 <= |buf|
    requires var name := TagToString(t); |name| == 4 && buf[at..at + 4] == [name[0] as int, name[1] as int, name[2] as int, name[3] as int]
    ensures FixedString(buf, at, 4) == TagToString(t)
  {
    var name := TagToString(t);
    var fs := FixedString(buf, at, 4);
    assert buf[at] == buf[at..at + 4][0] && buf[at + 1] == buf[at..at + 4][1];
    assert buf[at + 2] == buf[at..at + 4][2] && buf[at + 3] == buf[at..at + 4][3];
    assert fs[0] == name[0] && fs[1] == name[1] && fs[2] == name[2] && fs[3] == name[3];
  }

  /** A chunk header written for a known tag parses back to the same tag and length, wherever it sits. */
  lemma ChunkHeaderRoundTrip(t: ChunkTag, length: nat, buf: Bytes, at: nat)
    requires t != UNKNOWN && length < TWO_32
    requires at + CHUNK_HEADER_SIZE <= |buf| && buf[at..at + CHUNK_HEADER_SIZE] == EncodeChunkHeader(t, length)
    ensures ParseChunkHeader(buf, at) == Some(ChunkHeader(t, length))
  {
    TagRoundTrip(t);
    var e := EncodeChunkHeader(t, length);
    assert buf[at..at + 4] == e[..4];
    assert buf[at + 4..at + 8] == e[4..];
    TagBytesRead(t, buf, at);
    U4AtDecodes(buf, at + 4, length);
  }

  // ---------------------------------------------------------------------
  // The offset advance

  /**
   * The next chunk offset: past the 8 header bytes and the payload, plus a
   * pad byte when the length is odd, in integers that do not wrap.
   */
  function Advance(offset: nat, length: nat): (r: nat)
    ensures r == offset + CHUNK_HEADER_SIZE + PadLength(length)
    ensures r >= offset + CHUNK_HEADER_SIZE
  {
    if length % 2 == 0 then offset + CHUNK_HEADER_SIZE + length
    else offset + CHUNK_HEADER_SIZE + length + 1
  }

  /** The advance as written, in 32-bit `size_t` arithmetic. */
  function AdvanceAsWritten(offset: nat, length: nat): nat
  {
    if length % 2 == 0 then SizeTOf(offset + CHUNK_HEADER_SIZE + length)
    else SizeTOf(offset + CHUNK_HEADER_SIZE + length + 1)
  }

  /**
   * A chunk whose declared length is 0xFFFFFFF8 sends the as-written walk
   * back to the same offset: the header is read again and again, no end.
   * The corrected advance moves past the chunk.
   */
  lemma AdvanceAsWrittenStalls(offset: nat)
    requires offset < TWO_32
    ensures AdvanceAsWritten(offset, 0xFFFF_FFF8) == offset
    ensures Advance(offset, 0xFFFF_FFF8) > offset
  {
    assert offset + CHUNK_HEADER_SIZE + 0xFFFF_FFF8 == offset + TWO_32;
  }

  /** Below 2^32 the as-written advance is the corrected one. */
  lemma AdvanceAsWrittenAgrees(offset: nat, length: nat)
    requires offset + CHUNK_HEADER_SIZE + PadLength(length) < TWO_32
    ensures AdvanceAsWritten(offset, length) == Advance(offset, length)
  {
  }

  // ---------------------------------------------------------------------
  // What one chunk contributes

  /**
   * Chunk::create(tag) followed by parse, as a value; the tag must be one
   * create does not return null for. None where the parse would read past
   * the buffer.
   */
  function ParsedChunk(buf: Bytes, at: nat, h: ChunkHeader): (r: Option<Chunk>)
    requires h.tag != UNKNOWN
    ensures r.Some? ==> GetTag(r.value) == h.tag
    ensures InertTag(h.tag) ==> r == Create(h.tag)
    ensures h.tag == PNTS ==> (r.Some? <==> Pts.PointsFit(buf, at, h.length))
  {
    if h.tag == LAYR then
      match Lyr.LayerRecordAt(buf, at, h.length)
      case None => None
      case Some(rec) => Some(LayerChunk(rec.name, []))
    else if h.tag == PNTS then
      if Pts.PointsFit(buf, at, h.length) then Some(PointsChunk(Pts.DecodePoints(buf, at, h.length))) else None
    else if h.tag == POLS then
      match Pol.PolygonsOfChunk(buf, at, h.length)
      case None => None
      case Some(ps) => Some(PolygonsChunk(ps))
    else if h.tag == TAGS then
      match Tgs.TagsOfChunk(buf, at, h.length)
      case None => None
      case Some(ts) => Some(TagsChunk(ts))
    else if h.tag == SURF then
      match Srf.SurfaceOfChunk(buf, at, h.length)
      case None => None
      case Some(f) => Some(SurfaceChunk(f))
    else Some(Plain(h.tag))
  }

  /**
   * The event of the chunk at `offset` with header `h`: a new layer named
   * by its record, nothing for an UNKNOWN tag, the parsed chunk otherwise.
   * None where parsing would read past the buffer.
   */
  function EventAt(buf: Bytes, offset: nat, h: ChunkHeader): (r: Option<Event>)
    ensures h.tag == UNKNOWN ==> r == Some(SkipEv)
    ensures r.Some? && r.value.LayerEv? <==> h.tag == LAYR && Lyr.LayerRecordAt(buf, offset, h.length).Some?
    ensures r.Some? && r.value.ChunkEv? ==> h.tag != LAYR && h.tag != UNKNOWN && GetTag(r.value.chunk) == h.tag
  {
    if h.tag == LAYR then
      match Lyr.LayerRecordAt(buf, offset, h.length)
      case None => None
      case Some(rec) => Some(LayerEv(rec.name))
    else if h.tag == UNKNOWN then Some(SkipEv)
    else
      match ParsedChunk(buf, offset, h)
      case None => None
      case Some(c) => Some(ChunkEv(c))
  }

  /**
   * The events of the chunks from `offset` while the offset is at most the
   * declared file length. None where a header or a parse would read past
   * the buffer.
   */
  function Trace(buf: Bytes, offset: nat, fileLength: nat): Option<seq<Event>>
    decreases fileLength + 1 - offset
  {
    if offset > fileLength then Some([])
    else
      match ParseChunkHeader(buf, offset)
      case None => None
      case Some(h) =>
        match EventAt(buf, offset, h)
        case None => None
        case Some(e) =>
          match Trace(buf, Advance(offset, h.length), fileLength)
          case None => None
          case Some(rest) => Some([e] + rest)
  }

  /** `read` followed by the events still to come. */
  function Then(read: seq<Event>, r: Option<seq<Event>>): Option<seq<Event>>
  {
    if r.None? then None else Some(read + r.value)
  }

  /** One step of the walk's loop, in terms of Trace: the chunk's event joins those read. */
  lemma TraceStep(buf: Bytes, offset: nat, fileLength: nat, read: seq<Event>, h: ChunkHeader)
    requires offset <= fileLength
    requires ParseChunkHeader(buf, offset) == Some(h) && EventAt(buf, offset, h).Some?
    ensures Then(read, Trace(buf, offset, fileLength)) ==
            Then(read + [EventAt(buf, offset, h).value], Trace(buf, Advance(offset, h.length), fileLength))
  {
    var e := EventAt(buf, offset, h).value;
    var rest := Trace(buf, Advance(offset, h.length), fileLength);
    if rest.Some? {
      assert read + ([e] + rest.value) == read + [e] + rest.value;
    }
  }

  /** A header or a parse that would read past the buffer ends the walk in a fault. */
  lemma TraceFault(buf: Bytes, offset: nat, fileLength: nat)
    requires offset <= fileLength
    requires ParseChunkHeader(buf, offset).None? || EventAt(buf, offset, ParseChunkHeader(buf, offset).value).None?
    ensures Trace(buf, offset, fileLength).None?
  {
  }

  /** The walk meets one LAYR chunk per layer event and stores one chunk per chunk event, in file order. */
  lemma TraceEvents(buf: Bytes, offset: nat, fileLength: nat)
    requires Trace(buf, offset, fileLength).Some?
    ensures offset > fileLength ==> Trace(buf, offset, fileLength) == Some([])
    ensures offset <= fileLength ==>
              var h := ParseChunkHeader(buf, offset).value;
              var rest := Trace(buf, Advance(offset, h.length), fileLength);
              rest.Some? && EventAt(buf, offset, h).Some? &&
              Trace(buf, offset, fileLength).value == [EventAt(buf, offset, h).value] + rest.value
  {
  }

  // ---------------------------------------------------------------------
  // The result of Read

  /** The result code of Read; Fault where the C++ would read past its buffer. */
  datatype ReadStatus = ExitSuccess | ExitFailure | Fault

  /** EXIT_SUCCESS is 0, EXIT_FAILURE is 1. */
  function StatusCode(s: ReadStatus): int
    requires !s.Fault?
  {
    if s.ExitSuccess? then 0 else 1
  }

  /** The status Read returns and the layers it adds. */
  datatype Outcome = Outcome(status: ReadStatus, layers: seq<LayerData>)

  /**
   * What Read does with the file: failure when the file could not be read,
   * when bytes 0-3 are not "FORM" (checked first) or bytes 8-11 are not
   * "LWO2"; otherwise the walk from offset 12 and the layers it leaves.
   */
  function ReadOutcome(file: Option<Bytes>): (r: Outcome)
    ensures r.status != ExitSuccess ==> r.layers == []
    ensures file.None? ==> r.status == ExitFailure
    ensures file.Some? && |file.value| >= FILE_HEADER_SIZE && !Is4(FixedString(file.value, 0, 4), 'F', 'O', 'R', 'M') ==>
              r.status == ExitFailure
    ensures file.Some? && |file.value| >= FILE_HEADER_SIZE && !Is4(FixedString(file.value, 8, 4), 'L', 'W', 'O', '2') ==>
              r.status == ExitFailure
  {
    match file
    case None => Outcome(ExitFailure, [])
    case Some(buf) =>
      match ParseFileHeader(buf)
      case None => Outcome(Fault, [])
      case Some(h) =>
        if !Is4(h.form, 'F', 'O', 'R', 'M') then Outcome(ExitFailure, [])
        else if !Is4(h.id, 'L', 'W', 'O', '2') then Outcome(ExitFailure, [])
        else
          match Trace(buf, FILE_HEADER_SIZE, h.fileLength)
          case None => Outcome(Fault, [])
          case Some(evs) => Outcome(ExitSuccess, Finish(WalkOf(evs)))
  }

  /**
   * A successful read adds one layer per LAYR chunk, in file order, with
   * the names their records hold; the first of them begins with the chunks
   * met before any LAYR chunk.
   */
  lemma ReadLayers(buf: Bytes)
    requires ReadOutcome(Some(buf)).status == ExitSuccess
    ensures var h := ParseFileHeader(buf).value;
            Trace(buf, FILE_HEADER_SIZE, h.fileLength).Some? &&
            var evs := Trace(buf, FILE_HEADER_SIZE, h.fileLength).value;
            var ls := ReadOutcome(Some(buf)).layers;
            |ls| == |LayerNames(evs)| &&
            (forall i :: 0 <= i < |ls| ==> ls[i].name == LayerNames(evs)[i]) &&
            (|ls| > 0 ==> ls[0].chunks == Orphans(evs) + LayerChunks(evs, 0))
  {
    var h := ParseFileHeader(buf).value;
    WalkResult(Trace(buf, FILE_HEADER_SIZE, h.fileLength).value);
  }

  /** The value of a list of layer objects. */
  function LayersValueOf(ls: seq<Lyr.Layer>): (r: seq<LayerData>)
    reads ls
    ensures |r| == |ls|
  {
    if ls == [] then [] else LayersValueOf(ls[..|ls| - 1]) + [LayerData(ls[|ls| - 1].name, ls[|ls| - 1].chunks)]
  }

  lemma LayersValueSnoc(ls: seq<Lyr.Layer>, l: Lyr.Layer)
    ensures LayersValueOf(ls + [l]) == LayersValueOf(ls) + [LayerData(l.name, l.chunks)]
  {
    assert (ls + [l])[..|ls|] == ls;
  }

  /** Element i of the value is layer i's name and chunks. */
  lemma {:induction false} LayersValueAt(ls: seq<Lyr.Layer>, i: nat)
    requires i < |ls|
    ensures LayersValueOf(ls)[i] == LayerData(ls[i].name, ls[i].chunks)
    decreases |ls|
  {
    if i < |ls| - 1 {
      LayersValueAt(ls[..|ls| - 1], i);
    }
  }

  // ---------------------------------------------------------------------
  // The layer accessors

  /**
   * `*_layers[layerIndex]` followed by `getChunk(tag)`: the chunk found,
   * None where the index is out of range, no chunk has the tag (a null
   * pointer the caller dereferences) or an emptied entry is met first.
   */
  function ChunkOf(ls: seq<LayerData>, layerIndex: int, tag: ChunkTag): (r: Option<Chunk>)
    ensures r.Some? ==> 0 <= layerIndex < |ls| && GetTag(r.value) == tag
    ensures r.Some? <==> 0 <= layerIndex < |ls| && Lyr.FindFrom(ls[layerIndex].chunks, tag, 0).Hit?
  {
    if layerIndex < 0 || layerIndex >= |ls| then None
    else
      var entries := ls[layerIndex].chunks;
      match Lyr.FindFrom(entries, tag, 0)
      case Hit(k) => Some(entries[k].chunk)
      case Miss => None
      case NullEntry => None
  }

  /** GetPointsByLayer: the point list of the layer's first PNTS chunk. */
  function PointsOf(ls: seq<LayerData>, layerIndex: int): (r: Option<seq<Vec12>>)
    ensures r.Some? <==> ChunkOf(ls, layerIndex, PNTS).Some? && ChunkOf(ls, layerIndex, PNTS).value.PointsChunk?
  {
    match ChunkOf(ls, layerIndex, PNTS)
    case Some(PointsChunk(ps)) => Some(ps)
    case _ => None
  }

  /** GetPolsByLayer: the polygon list of the layer's first POLS chunk. */
  function PolsOf(ls: seq<LayerData>, layerIndex: int): (r: Option<seq<Polygon>>)
    ensures r.Some? <==> ChunkOf(ls, layerIndex, POLS).Some? && ChunkOf(ls, layerIndex, POLS).value.PolygonsChunk?
  {
    match ChunkOf(ls, layerIndex, POLS)
    case Some(PolygonsChunk(ps)) => Some(ps)
    case _ => None
  }

  /**
   * After a read, a lookup in the first layer never meets an emptied entry:
   * it finds the first chunk with the tag among the orphans and that
   * layer's own chunks, or there is none.
   */
  lemma FirstLayerLookup(evs: seq<Event>, tag: ChunkTag)
    requires |LayerNames(evs)| > 0
    ensures !Lyr.FindFrom(Expected(evs)[0].chunks, tag, 0).NullEntry?
  {
    var entries := Expected(evs)[0].chunks;
    assert entries == Orphans(evs) + LayerChunks(evs, 0);
    OrphansPresent(evs);
    LayerChunksPresent(evs, 0);
    assert forall j :: 0 <= j < |entries| ==> entries[j].Present?;
  }

  /**
   * After a read of a file with chunks before its first LAYR chunk, every
   * lookup in a later layer meets an emptied entry first: the orphan list
   * is handed on to each new layer after the first has taken its chunks.
   */
  lemma LaterLayerLookup(evs: seq<Event>, layerIndex: nat, tag: ChunkTag)
    requires |Orphans(evs)| > 0 && 0 < layerIndex < |LayerNames(evs)|
    ensures Lyr.FindFrom(Expected(evs)[layerIndex].chunks, tag, 0).NullEntry?
    ensures ChunkOf(Expected(evs), layerIndex, tag).None?
  {
    var entries := Expected(evs)[layerIndex].chunks;
    assert entries == MovedOuts(|Orphans(evs)|) + LayerChunks(evs, layerIndex);
    assert entries[0].MovedOut?;
    assert Lyr.NoMatchBetween(entries, tag, 0, 0);
  }

  /**
   * The chunks of one file, each created by the factory and parsed: the
   * value of the object, `ok` false where the parse would read past the
   * buffer.
   */
  method ParseCreated(buf: Bytes, at: nat, header: ChunkHeader) returns (ok: bool, c: Chunk)
    requires header.tag != UNKNOWN
    ensures ok <==> ParsedChunk(buf, at, header).Some?
    ensures ok ==> c == ParsedChunk(buf, at, header).value
  {
    if header.tag == LAYR {
      var layer := new Lyr.Layer();
      ok := layer.Parse(buf, at, header);
      c := layer.Value();
    } else if header.tag == PNTS {
      var points := new Pts.Points();
      ok := points.Parse(buf, at, header);
      c := points.Value();
    } else if header.tag == POLS {
      var polygons := new Pol.Polygons();
      ok := polygons.Parse(buf, at, header);
      c := polygons.Value();
    } else if header.tag == TAGS {
      var tags := new Tgs.Tags();
      ok := tags.Parse(buf, at, header);
      c := tags.Value();
    } else if header.tag == SURF {
      var surface := new Srf.Surface();
      ok := surface.Parse(buf, at, header);
      c := surface.Value();
    } else {
      // the default parse changes nothing
      ok, c := true, Create(header.tag).value;
    }
  }

  /**
   * The loop over the orphan list: each entry is moved to the layer, in
   * order, leaving an emptied pointer behind.
   */
  method AttachOrphans(layer: Lyr.Layer, orphans: seq<Entry>) returns (remaining: seq<Entry>)
    modifies layer
    ensures layer.chunks == old(layer.chunks) + orphans
    ensures layer.name == old(layer.name)
    ensures remaining == MovedOuts(|orphans|)
  {
    remaining := orphans;
    var i := 0;
    while i < |remaining|
      invariant 0 <= i <= |orphans| && |remaining| == |orphans|
      invariant layer.chunks == old(layer.chunks) + orphans[..i]
      invariant layer.name == old(layer.name)
      invariant remaining == MovedOuts(i) + orphans[i..]
    {
      layer.AddChunk(remaining[i]);
      assert orphans[..i + 1] == orphans[..i] + [orphans[i]];
      remaining := remaining[i := MovedOut];
      assert remaining == MovedOuts(i + 1) + orphans[i + 1..];
      i := i + 1;
    }
  }

  class LightWaveObject {
    var layers: seq<Lyr.Layer>

    /** A new object has no layers. */
    constructor ()
      ensures layers == []
    {
      layers := [];
    }

    /** The layers' names and chunk lists. */
    function LayersValue(): (r: seq<LayerData>)
      reads this, layers
      ensures |r| == |layers|
    {
      LayersValueOf(layers)
    }

    /**
     * The locals of the walk agree with the walk state `st`: the layers
     * pushed since the start follow `before`, the current layer (a layer
     * object not yet pushed) and the orphan list are the state's.
     */
    ghost predicate Agrees(st: WalkState, before: seq<LayerData>, current: Lyr.Layer?, orphans: seq<Entry>)
      reads this, layers, current
    {
      LayersValueOf(layers) == before + st.done &&
      (current == null <==> st.current.None?) &&
      (current != null ==> current !in layers && st.current.value == LayerData(current.name, current.chunks)) &&
      orphans == st.orphans
    }

    /** layers_.push_back(layer): the layer's value joins the others. */
    method PushLayer(layer: Lyr.Layer)
      modifies this
      ensures layers == old(layers) + [layer]
      ensures LayersValueOf(layers) == old(LayersValueOf(layers)) + [LayerData(layer.name, layer.chunks)]
    {
      LayersValueSnoc(layers, layer);
      layers := layers + [layer];
    }

    /**
     * A LAYR chunk: push the current layer if there is one, parse the new
     * layer and move the orphans into it. `ok` is false where the parse
     * would read past the buffer.
     */
    method BeginLayer(buf: Bytes, offset: nat, header: ChunkHeader, current: Lyr.Layer?, orphans: seq<Entry>,
                      ghost st: WalkState, ghost before: seq<LayerData>)
      returns (ok: bool, newLayer: Lyr.Layer, remaining: seq<Entry>)
      requires header.tag == LAYR
      requires Agrees(st, before, current, orphans)
      modifies this
      ensures ok <==> EventAt(buf, offset, header).Some?
      ensures fresh(newLayer)
      ensures ok ==> Agrees(StepWalk(st, EventAt(buf, offset, header).value), before, newLayer, remaining)
    {
      ghost var done := st.done + if current == null then [] else [st.current.value];
      if current != null {
        PushLayer(current);
        assert before + st.done + [st.current.value] == before + done;
      }
      assert LayersValueOf(layers) == before + done;
      ok, newLayer, remaining := OpenLayer(buf, offset, header, orphans);
      assert ok ==> StepWalk(st, EventAt(buf, offset, header).value) ==
                    WalkState(done, Some(LayerData(newLayer.name, newLayer.chunks)), remaining);
    }

    /**
     * The new layer of a LAYR chunk: created, parsed, and given the orphans
     * in order, which leaves them emptied.
     */
    static method OpenLayer(buf: Bytes, offset: nat, header: ChunkHeader, orphans: seq<Entry>)
      returns (ok: bool, newLayer: Lyr.Layer, remaining: seq<Entry>)
      requires header.tag == LAYR
      ensures fresh(newLayer)
      ensures ok <==> EventAt(buf, offset, header).Some?
      ensures ok ==> EventAt(buf, offset, header).value == LayerEv(newLayer.name)
      ensures ok ==> newLayer.chunks == orphans && remaining == MovedOuts(|orphans|)
    {
      newLayer := new Lyr.Layer();
      ok := newLayer.Parse(buf, offset, header);
      remaining := orphans;
      if ok {
        remaining := AttachOrphans(newLayer, orphans);
        assert [] + orphans == orphans;
      }
    }

    /**
     * Any other chunk: create it; when create gives an object, parse it and
     * store it in the current layer, or in the orphan list while there is
     * no layer. `ok` is false where the parse would read past the buffer.
     */
    method StoreChunk(buf: Bytes, offset: nat, header: ChunkHeader, current: Lyr.Layer?, orphans: seq<Entry>,
                      ghost st: WalkState, ghost before: seq<LayerData>)
      returns (ok: bool, orphans': seq<Entry>)
      requires header.tag != LAYR
      requires Agrees(st, before, current, orphans)
      modifies current
      ensures ok <==> EventAt(buf, offset, header).Some?
      ensures ok ==> Agrees(StepWalk(st, EventAt(buf, offset, header).value), before, current, orphans')
    {
      orphans' := orphans;
      if header.tag == UNKNOWN {
        return true, orphans';
      }
      var chunk;
      ok, chunk := ParseCreated(buf, offset, header);
      if !ok {
        return;
      }
      if current != null {
        current.AddChunk(Present(chunk));
      } else {
        orphans' := orphans + [Present(chunk)];
      }
    }

    /** One chunk of the loop: a LAYR chunk begins a layer, any other is stored. */
    method ReadChunk(buf: Bytes, offset: nat, header: ChunkHeader, current: Lyr.Layer?, orphans: seq<Entry>,
                     ghost st: WalkState, ghost before: seq<LayerData>)
      returns (ok: bool, current': Lyr.Layer?, orphans': seq<Entry>)
      requires Agrees(st, before, current, orphans)
      modifies this, current
      ensures current' != null ==> current' == current || fresh(current')
      ensures ok <==> EventAt(buf, offset, header).Some?
      ensures ok ==> Agrees(StepWalk(st, EventAt(buf, offset, header).value), before, current', orphans')
    {
      if header.tag == LAYR {
        ok, current', orphans' := BeginLayer(buf, offset, header, current, orphans, st, before);
      } else {
        current' := current;
        ok, orphans' := StoreChunk(buf, offset, header, current, orphans, st, before);
      }
    }

    /**
     * Read, from the file's bytes: validate the header, then walk the
     * chunks while the offset is at most the declared length, pushing each
     * layer when the next one starts and the last one at the end. The
     * layers are appended to those the object already has.
     */
    method Read(file: Option<Bytes>) returns (status: ReadStatus)
      modifies this
      ensures status == ReadOutcome(file).status
      ensures status != Fault ==> LayersValue() == old(LayersValue()) + ReadOutcome(file).layers
    {
      if file.None? {
        return ExitFailure;
      }
      var buf := file.value;
      var fileHeader := ParseFileHeader(buf);
      if fileHeader.None? {
        return Fault;
      }
      if !Is4(fileHeader.value.form, 'F', 'O', 'R', 'M') {
        return ExitFailure;
      }
      if !Is4(fileHeader.value.id, 'L', 'W', 'O', '2') {
        return ExitFailure;
      }
      var ok := WalkChunks(buf, fileHeader.value.fileLength);
      return if ok then ExitSuccess else Fault;
    }

    /**
     * The loop of Read: from offset 12 while the offset is at most the
     * declared length, each chunk read and stored as its tag says, then the
     * last layer pushed. `ok` is false where a header or a parse would read
     * past the buffer.
     */
    method WalkChunks(buf: Bytes, fileLength: nat) returns (ok: bool)
      modifies this
      ensures ok <==> Trace(buf, FILE_HEADER_SIZE, fileLength).Some?
      ensures ok ==> LayersValue() == old(LayersValue()) + Finish(WalkOf(Trace(buf, FILE_HEADER_SIZE, fileLength).value))
    {
      var offset := FILE_HEADER_SIZE;
      var orphanedChunks: seq<Entry> := [];
      var currentLayer: Lyr.Layer? := null;
      ghost var evs: seq<Event> := [];
      ghost var st := START;
      ghost var before := LayersValue();
      if Trace(buf, offset, fileLength).Some? {
        assert [] + Trace(buf, offset, fileLength).value == Trace(buf, offset, fileLength).value;
      }
      while offset <= fileLength
        invariant Trace(buf, FILE_HEADER_SIZE, fileLength) == Then(evs, Trace(buf, offset, fileLength))
        invariant st == WalkOf(evs)
        invariant Agrees(st, before, currentLayer, orphanedChunks)
        invariant currentLayer != null ==> fresh(currentLayer)
        decreases fileLength as int + 1 - offset as int
      {
        var chunkHeader := ParseChunkHeader(buf, offset);
        if chunkHeader.None? {
          TraceFault(buf, offset, fileLength);
          return false;
        }
        var header := chunkHeader.value;
        ok, currentLayer, orphanedChunks := ReadChunk(buf, offset, header, currentLayer, orphanedChunks, st, before);
        if !ok {
          TraceFault(buf, offset, fileLength);
          return false;
        }
        ghost var e := EventAt(buf, offset, header).value;
        TraceStep(buf, offset, fileLength, evs, header);
        WalkSnoc(evs, e);
        evs, st := evs + [e], StepWalk(st, e);
        offset := Advance(offset, header.length);
      }
      assert Trace(buf, offset, fileLength) == Some([]);
      assert evs + [] == evs;
      PushLast(currentLayer, orphanedChunks, st, before);
      return true;
    }

    /** After the loop: the last layer, if any, is pushed. */
    method PushLast(current: Lyr.Layer?, ghost orphans: seq<Entry>, ghost st: WalkState, ghost before: seq<LayerData>)
      requires Agrees(st, before, current, orphans)
      modifies this
      ensures LayersValueOf(layers) == before + Finish(st)
    {
      if current != null {
        PushLayer(current);
        assert before + st.done + [st.current.value] == before + (st.done + [st.current.value]);
      }
    }

    /** GetNumLayers: the number of layers parsed. */
    function GetNumLayers(): (n: nat)
      reads this, layers
      ensures n == |LayersValue()|
    {
      |layers|
    }

    /**
     * GetPointsByLayer: the points of the layer's first PNTS chunk; `ok` is
     * false where the source indexes past the layers or dereferences a null
     * pointer.
     */
    method GetPointsByLayer(layerIndex: int) returns (ok: bool, points: seq<Vec12>)
      ensures ok <==> PointsOf(LayersValue(), layerIndex).Some?
      ensures ok ==> points == PointsOf(LayersValue(), layerIndex).value
    {
      var found, chunk := FindLayerChunk(layerIndex, PNTS);
      if !found || !chunk.PointsChunk? {
        return false, [];
      }
      return true, chunk.points;
    }

    /**
     * GetPolsByLayer: the polygons of the layer's first POLS chunk; `ok` is
     * false where the source indexes past the layers or dereferences a null
     * pointer.
     */
    method GetPolsByLayer(layerIndex: int) returns (ok: bool, pols: seq<Polygon>)
      ensures ok <==> PolsOf(LayersValue(), layerIndex).Some?
      ensures ok ==> pols == PolsOf(LayersValue(), layerIndex).value
    {
      var found, chunk := FindLayerChunk(layerIndex, POLS);
      if !found || !chunk.PolygonsChunk? {
        return false, [];
      }
      return true, chunk.polygons;
    }

    /** The layer lookup both accessors begin with. */
    method FindLayerChunk(layerIndex: int, tag: ChunkTag) returns (found: bool, chunk: Chunk)
      ensures found <==> ChunkOf(LayersValue(), layerIndex, tag).Some?
      ensures found ==> chunk == ChunkOf(LayersValue(), layerIndex, tag).value
    {
      if layerIndex < 0 || layerIndex >= |layers| {
        return false, DEFAULT_CHUNK;
      }
      var layer := layers[layerIndex];
      LayersValueAt(layers, layerIndex);
      var ok, r := layer.GetChunk(tag);
      if !ok || r.None? {
        return false, DEFAULT_CHUNK;
      }
      return true, r.value;
    }
  }
}
