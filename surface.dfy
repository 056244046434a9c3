/**
 * The SURF chunk (Surface.h, Surface.cpp): a surface's name and source
 * strings, then a list of sub-chunks, each a 4-byte tag, a U2 size and a
 * payload. The recognised sub-chunks set the surface's fields.
 */
module SurfaceChunk {
  import opened Wrappers
  import opened Codec
  import opened TagNames
  import opened LWUtils
  import opened Chunks

  /** The fields after one sub-chunk, and the chunk offset just past what was consumed. */
  datatype StepResult = StepResult(fields: SurfaceFields, next: nat)

  /** The tags whose payload is a float then a VX: DIFF, LUMI, SPEC, REFL, TRAN, TRNL and GLOS. */
  predicate FloatVxTag(t: SurfaceSubChunkTag)
  {
    t in {DIFF, LUMI, SPEC, REFL, TRAN, TRNL, GLOS}
  }

  /** The field a float-and-VX sub-chunk sets. */
  function SetFloat(f: SurfaceFields, t: SurfaceSubChunkTag, w: Word4): SurfaceFields
    requires FloatVxTag(t)
  {
    match t
    case DIFF => f.(diff := w)
    case LUMI => f.(lumi := w)
    case SPEC => f.(spec := w)
    case REFL => f.(refl := w)
    case TRAN => f.(tran := w)
    case TRNL => f.(trnl := w)
    case GLOS => f.(glossiness := w)
  }

  /** Reading back the field a float-and-VX sub-chunk sets. */
  function GetFloat(f: SurfaceFields, t: SurfaceSubChunkTag): Word4
    requires FloatVxTag(t)
  {
    match t
    case DIFF => f.diff
    case LUMI => f.lumi
    case SPEC => f.spec
    case REFL => f.refl
    case TRAN => f.tran
    case TRNL => f.trnl
    case GLOS => f.glossiness
  }

  /** SetFloat stores the value in its own field, and setting a field twice keeps the last value. */
  lemma SetFloatGet(f: SurfaceFields, t: SurfaceSubChunkTag, w: Word4, w': Word4)
    requires FloatVxTag(t)
    ensures GetFloat(SetFloat(f, t, w), t) == w
    ensures SetFloat(SetFloat(f, t, w'), t, w) == SetFloat(f, t, w)
    ensures SetFloat(f, t, GetFloat(f, t)) == f
  {
  }

  /** The sub-chunk skip: the offset after the 6-byte header moves on by the declared size. */
  function Skip(offset: nat, size: nat): (r: nat)
    ensures r >= offset
  {
    offset + size
  }

  /**
   * The sub-chunk skip as written: `offset += subChunkSize` with `short
   * subChunkSize`, so a size of 0x8000 or more moves the unsigned offset
   * backwards, modulo 2^32.
   */
  function SkipAsWritten(offset: nat, size: nat): nat
    requires offset < TWO_32 && size < TWO_16
  {
    SizeTOf(offset + Int16Of(size))
  }

  /**
   * The discrepancy: a sub-chunk declaring size 0xFFFA brings the offset
   * back to the sub-chunk's own tag, so the loop reads it again forever; the
   * unsigned size moves past it.
   */
  lemma SkipAsWrittenStalls(offset: nat)
    requires offset + 6 < TWO_32
    ensures SkipAsWritten(offset + 6, 0xFFFA) == offset
    ensures Skip(offset + 6, 0xFFFA) > offset
  {
  }

  /**
   * One pass of the sub-chunk loop at chunk offset `off` of the chunk at
   * `at`. None where the source would read past the buffer.
   */
  function Step(buf: Bytes, at: nat, off: nat, f: SurfaceFields): Option<StepResult>
  {
    if at + off + 6 > |buf| then None
    else StepTagged(buf, at, off, f, SurfaceTagFromString(FixedString(buf, at + off, 4)))
  }

  /** The switch on the sub-chunk tag `tag`, read at chunk offset `off`. */
  function StepTagged(buf: Bytes, at: nat, off: nat, f: SurfaceFields, tag: SurfaceSubChunkTag): Option<StepResult>
    requires at + off + 6 <= |buf|
  {
    var size := U2At(buf, at + off + 4);
    var o := off + 6;
    var p := at + o;
    if tag == COLR then
      if p + 12 <= |buf| && VxFits(buf, p + 12) then
        var vx := Vx(buf, p + 12);
        Some(StepResult(f.(color := DecodeCol12(buf, p), envIndex := vx.value), o + 12 + vx.width))
      else None
    else if FloatVxTag(tag) then
      if FloatVxFits(buf, p) then
        Some(StepResult(SetFloat(f, tag, FloatBytesAt(buf, p)), o + 4 + Vx(buf, p + 4).width))
      else None
    else if tag == SMAN then
      if p + 4 <= |buf| then Some(StepResult(f.(maxSmoothingAngle := FloatBytesAt(buf, p)), o + 4)) else None
    else
      Some(StepResult(f, Skip(o, size)))
  }

  /** The sub-chunk tag at chunk offset `off`. */
  function TagAt(buf: Bytes, at: nat, off: nat): SurfaceSubChunkTag
    requires at + off + 4 <= |buf|
  {
    SurfaceTagFromString(FixedString(buf, at + off, 4))
  }

  /**
   * What one sub-chunk does: COLR sets only the color and the environment
   * index and consumes 6 + 12 + (2 or 4) bytes; each float-and-VX tag sets only
   * its own field and consumes 6 + 4 + (2 or 4); SMAN sets only the maximum
   * smoothing angle and consumes 6 + 4; every other tag changes nothing and
   * consumes 6 + its declared size.
   */
  lemma StepEffects(buf: Bytes, at: nat, off: nat, f: SurfaceFields)
    requires Step(buf, at, off, f).Some?
    ensures at + off + 6 <= |buf|
    ensures var r := Step(buf, at, off, f).value; var t := TagAt(buf, at, off);
            (t == COLR ==> r.fields == f.(color := r.fields.color, envIndex := r.fields.envIndex) &&
                           r.fields.color == DecodeCol12(buf, at + off + 6) &&
                           (r.next == off + 20 || r.next == off + 22)) &&
            (FloatVxTag(t) ==> r.fields == SetFloat(f, t, GetFloat(r.fields, t)) &&
                               WordBytes(GetFloat(r.fields, t)) == buf[at + off + 6..at + off + 10] &&
                               (r.next == off + 12 || r.next == off + 14)) &&
            (t == SMAN ==> r.fields == f.(maxSmoothingAngle := r.fields.maxSmoothingAngle) &&
                           WordBytes(r.fields.maxSmoothingAngle) == buf[at + off + 6..at + off + 10] &&
                           r.next == off + 10) &&
            (t != COLR && !FloatVxTag(t) && t != SMAN ==> r.fields == f && r.next == off + 6 + U2At(buf, at + off + 4))
  {
    var t := TagAt(buf, at, off);
    var p := at + off + 6;
    if FloatVxTag(t) {
      SetFloatGet(f, t, FloatBytesAt(buf, p), FloatBytesAt(buf, p));
    }
  }

  /** Every sub-chunk moves the offset forward by at least its 6-byte header. */
  lemma StepAdvances(buf: Bytes, at: nat, off: nat, f: SurfaceFields)
    requires Step(buf, at, off, f).Some?
    ensures Step(buf, at, off, f).value.next >= off + 6
  {
  }

  /** The sub-chunk loop: one step after another while the offset is at most `limit`. */
  function SubChunks(buf: Bytes, at: nat, off: nat, limit: nat, f: SurfaceFields): Option<SurfaceFields>
    decreases limit + 1 - off
  {
    if off > limit then Some(f)
    else
      var r := Step(buf, at, off, f);
      if r.None? then None
      else
        StepAdvances(buf, at, off, f);
        SubChunks(buf, at, r.value.next, limit, r.value.fields)
  }

  /** One unfolding of the loop: a step that fails ends it, one that succeeds goes on from its result. */
  lemma SubChunksStep(buf: Bytes, at: nat, off: nat, limit: nat, f: SurfaceFields)
    requires off <= limit
    ensures Step(buf, at, off, f).None? ==> SubChunks(buf, at, off, limit, f).None?
    ensures Step(buf, at, off, f).Some? ==>
      SubChunks(buf, at, off, limit, f) == SubChunks(buf, at, Step(buf, at, off, f).value.next, limit, Step(buf, at, off, f).value.fields)
  {
  }

  /** The chunk offset of the first sub-chunk: after the padded name and the padded source, terminators included. */
  function SubChunksStart(buf: Bytes, at: nat): Option<nat>
  {
    match ZStringAt(buf, at + CHUNK_DATA_OFFSET)
    case None => None
    case Some(name) =>
      var o := CHUNK_DATA_OFFSET + PadLength(|name|);
      match ZStringAt(buf, at + o)
      case None => None
      case Some(source) => Some(o + PadLength(|source|))
  }

  /**
   * parse as a function of the fields before it: skip name and source,
   * then run the sub-chunk loop while the offset is at most `header.length`.
   */
  function SurfaceFrom(buf: Bytes, at: nat, len: nat, f: SurfaceFields): Option<SurfaceFields>
  {
    match SubChunksStart(buf, at)
    case None => None
    case Some(o) => SubChunks(buf, at, o, len, f)
  }

  /** Without its name and source nothing is parsed. */
  lemma StartFails(buf: Bytes, at: nat, len: nat, f: SurfaceFields)
    requires ZStringAt(buf, at + CHUNK_DATA_OFFSET).None? ||
             ZStringAt(buf, at + CHUNK_DATA_OFFSET + PadLength(|ZStringAt(buf, at + CHUNK_DATA_OFFSET).value|)).None?
    ensures SurfaceFrom(buf, at, len, f).None?
  {
  }

  /** With them, parse is the sub-chunk loop from the offset past both. */
  lemma StartSucceeds(buf: Bytes, at: nat, len: nat, f: SurfaceFields, o: nat)
    requires SubChunksStart(buf, at) == Some(o)
    ensures SurfaceFrom(buf, at, len, f) == SubChunks(buf, at, o, len, f)
  {
  }

  /** The fields of a freshly created SURF chunk after parse. */
  function SurfaceOfChunk(buf: Bytes, at: nat, len: nat): Option<SurfaceFields>
  {
    SurfaceFrom(buf, at, len, DEFAULT_SURFACE)
  }

  /**
   * The sub-chunks start 8 + pad(|name| + 1) + pad(|source| + 1) bytes into
   * the chunk, where |name| and |source| do not count their terminators.
   */
  lemma SubChunksStartOffset(buf: Bytes, at: nat)
    requires SubChunksStart(buf, at).Some?
    ensures var nz := FirstZero(buf, at + CHUNK_DATA_OFFSET).value;
            var name := nz - (at + CHUNK_DATA_OFFSET);
            var sz := FirstZero(buf, at + CHUNK_DATA_OFFSET + PadLength(name + 1)).value;
            var source := sz - (at + CHUNK_DATA_OFFSET + PadLength(name + 1));
            SubChunksStart(buf, at).value == CHUNK_DATA_OFFSET + PadLength(name + 1) + PadLength(source + 1)
  {
  }

  /** With no sub-chunk read, the surface keeps the default color: zero red, green and blue. */
  lemma NoSubChunksDefaultColor(buf: Bytes, at: nat, len: nat)
    requires SubChunksStart(buf, at).Some? && SubChunksStart(buf, at).value > len
    ensures SurfaceOfChunk(buf, at, len) == Some(DEFAULT_SURFACE)
    ensures SurfaceOfChunk(buf, at, len).value.color == Col12(FLOAT_ZERO, FLOAT_ZERO, FLOAT_ZERO)
  {
  }

  /** The loop reads only sub-chunks without COLR keeps the color it started with. */
  lemma {:induction false} ColorWithoutColr(buf: Bytes, at: nat, off: nat, limit: nat, f: SurfaceFields)
    requires SubChunks(buf, at, off, limit, f).Some?
    requires forall o :: off <= o <= limit && at + o + 4 <= |buf| ==> TagAt(buf, at, o) != COLR
    ensures SubChunks(buf, at, off, limit, f).value.color == f.color
    decreases limit + 1 - off
  {
    if off <= limit {
      var r := Step(buf, at, off, f).value;
      StepEffects(buf, at, off, f);
      StepAdvances(buf, at, off, f);
      assert r.fields.color == f.color;
      ColorWithoutColr(buf, at, r.next, limit, r.fields);
    }
  }

  class Surface {
    var color: Col12
    var diff: Word4
    var lumi: Word4
    var spec: Word4
    var refl: Word4
    var tran: Word4
    var trnl: Word4
    var glossiness: Word4
    var sharpness: Word4
    var bump: Word4
    var maxSmoothingAngle: Word4
    var envIndex: nat

    /** `Surface()`: the initialisers of Surface.h. */
    constructor ()
      ensures Fields() == DEFAULT_SURFACE
    {
      color := Col12(FLOAT_ZERO, FLOAT_ZERO, FLOAT_ZERO);
      diff := FLOAT_ONE;
      lumi, spec, refl, tran, trnl := FLOAT_ZERO, FLOAT_ZERO, FLOAT_ZERO, FLOAT_ZERO, FLOAT_ZERO;
      glossiness, sharpness, bump := FLOAT_ZERO, FLOAT_ZERO, FLOAT_ZERO;
      maxSmoothingAngle := FLOAT_MINUS_ONE;
      envIndex := 0;
    }

    /** All fields as one value. */
    function Fields(): SurfaceFields
      reads this
    {
      SurfaceFields(color, diff, lumi, spec, refl, tran, trnl, glossiness, sharpness, bump, maxSmoothingAngle, envIndex)
    }

    /** The chunk value a layer stores. */
    function Value(): (c: Chunk)
      reads this
      ensures GetTag(c) == SURF
      ensures c.SurfaceChunk? && c.surface == Fields()
    {
      SurfaceChunk(Fields())
    }

    /** getColor */
    function GetColor(): (c: Col12)
      reads this
      ensures c == Fields().color
    {
      color
    }

    /** The assignment in a float-and-VX case of the switch. */
    method SetFloatField(t: SurfaceSubChunkTag, w: Word4)
      requires FloatVxTag(t)
      modifies this
      ensures Fields() == SetFloat(old(Fields()), t, w)
    {
      match t
      case DIFF => diff := w;
      case LUMI => lumi := w;
      case SPEC => spec := w;
      case REFL => refl := w;
      case TRAN => tran := w;
      case TRNL => trnl := w;
      case GLOS => glossiness := w;
    }

    /** The COLR case: a COL12 colour then a VX environment index. */
    method ParseColorSubChunk(buf: Bytes, at: nat, offset: nat) returns (ok: bool, next: nat)
      requires at + offset + 6 <= |buf|
      modifies this
      ensures ok <==> StepTagged(buf, at, offset, old(Fields()), COLR).Some?
      ensures ok ==> Fields() == StepTagged(buf, at, offset, old(Fields()), COLR).value.fields
      ensures ok ==> next == StepTagged(buf, at, offset, old(Fields()), COLR).value.next
    {
      next := offset + 6;
      if at + next + 12 > |buf| || !VxFits(buf, at + next + 12) {
        return false, next;
      }
      color, next := ParseCol12Value(buf, at + next, next);
      envIndex, next := ParseVxValues(buf, at + next, next);
      ok := true;
    }

    /** A float-and-VX case: the float goes to the field of `tag`, the VX is read and dropped. */
    method ParseFloatSubChunk(buf: Bytes, at: nat, offset: nat, tag: SurfaceSubChunkTag) returns (ok: bool, next: nat)
      requires at + offset + 6 <= |buf| && FloatVxTag(tag)
      modifies this
      ensures ok <==> StepTagged(buf, at, offset, old(Fields()), tag).Some?
      ensures ok ==> Fields() == StepTagged(buf, at, offset, old(Fields()), tag).value.fields
      ensures ok ==> next == StepTagged(buf, at, offset, old(Fields()), tag).value.next
    {
      next := offset + 6;
      if !FloatVxFits(buf, at + next) {
        return false, next;
      }
      var w, vxValue;
      w, vxValue, next := ParseFloatVxValues(buf, at + next, next);
      assert w == FloatBytesAt(buf, at + offset + 6);
      SetFloatField(tag, w);
      ok := true;
    }

    /** The SMAN case: a float, the maximum smoothing angle. */
    method ParseSmoothingSubChunk(buf: Bytes, at: nat, offset: nat) returns (ok: bool, next: nat)
      requires at + offset + 6 <= |buf|
      modifies this
      ensures ok <==> StepTagged(buf, at, offset, old(Fields()), SMAN).Some?
      ensures ok ==> Fields() == StepTagged(buf, at, offset, old(Fields()), SMAN).value.fields
      ensures ok ==> next == StepTagged(buf, at, offset, old(Fields()), SMAN).value.next
    {
      next := offset + 6;
      if at + next + 4 > |buf| {
        return false, next;
      }
      maxSmoothingAngle, next := ParseFloatValue(buf, at + next, next);
      assert maxSmoothingAngle == FloatBytesAt(buf, at + offset + 6);
      ok := true;
    }

    /**
     * One pass of the sub-chunk loop: the tag, the size, and the switch on
     * the tag. `ok` is false where the source would read past the buffer.
     */
    method ParseSubChunk(buf: Bytes, at: nat, offset: nat) returns (ok: bool, next: nat)
      modifies this
      ensures ok <==> Step(buf, at, offset, old(Fields())).Some?
      ensures ok ==> Fields() == Step(buf, at, offset, old(Fields())).value.fields
      ensures ok ==> next == Step(buf, at, offset, old(Fields())).value.next
      ensures ok ==> next >= offset + 6
    {
      if at + offset + 6 > |buf| {
        return false, offset;
      }
      var subChunkTag := SurfaceTagFromString(FixedString(buf, at + offset, 4));
      var subChunkSize := U2At(buf, at + offset + 4);
      if subChunkTag == COLR {
        ok, next := ParseColorSubChunk(buf, at, offset);
      } else if FloatVxTag(subChunkTag) {
        ok, next := ParseFloatSubChunk(buf, at, offset, subChunkTag);
      } else if subChunkTag == SMAN {
        ok, next := ParseSmoothingSubChunk(buf, at, offset);
      } else {
        next := Skip(offset + 6, subChunkSize);
        ok := true;
      }
      if ok {
        StepAdvances(buf, at, offset, old(Fields()));
      }
    }

    /**
     * parse: skip the zero-terminated name and source, each padded to even,
     * then handle sub-chunks while the offset is at most `header.length`.
     */
    method Parse(buf: Bytes, at: nat, header: ChunkHeader) returns (ok: bool)
      modifies this
      ensures ok <==> SurfaceFrom(buf, at, header.length, old(Fields())).Some?
      ensures ok ==> Fields() == SurfaceFrom(buf, at, header.length, old(Fields())).value
    {
      ghost var f := Fields();
      var offset := CHUNK_DATA_OFFSET;
      var name := ZStringAt(buf, at + offset);
      if name.None? {
        StartFails(buf, at, header.length, f);
        return false;
      }
      offset := offset + PadLength(|name.value|);
      var source := ZStringAt(buf, at + offset);
      if source.None? {
        StartFails(buf, at, header.length, f);
        return false;
      }
      offset := offset + PadLength(|source.value|);
      assert SubChunksStart(buf, at) == Some(offset);
      StartSucceeds(buf, at, header.length, f, offset);
      ok := ParseSubChunks(buf, at, offset, header.length);
    }

    /** The sub-chunk loop of parse, from chunk offset `start` while the offset is at most `limit`. */
    method ParseSubChunks(buf: Bytes, at: nat, start: nat, limit: nat) returns (ok: bool)
      modifies this
      ensures ok <==> SubChunks(buf, at, start, limit, old(Fields())).Some?
      ensures ok ==> Fields() == SubChunks(buf, at, start, limit, old(Fields())).value
    {
      var offset := start;
      ghost var total := SubChunks(buf, at, offset, limit, Fields());
      while offset <= limit
        invariant SubChunks(buf, at, offset, limit, Fields()) == total
        decreases limit + 1 - offset
      {
        ghost var f := Fields();
        SubChunksStep(buf, at, offset, limit, f);
        ok, offset := ParseSubChunk(buf, at, offset);
        if !ok {
          return false;
        }
      }
      ok := true;
    }
  }
}
