/**
 * The chunk variants of the object file (Chunk.h, Chunk.cpp and the
 * per-variant headers) as one tagged union, with the factory `create`,
 * `getTag` and `getDescription`.
 *
 * A chunk object is parsed once, right after it is created, and is not
 * changed after it has been stored in a layer; the parsers of the variants
 * (Points, Polygons, Tags, Surface, Layer) are classes in their own modules,
 * and what a layer stores is the value of the parsed object.
 */
module Chunks {
  import opened Wrappers
  import opened Codec
  import opened TagNames

  /** LWO_CHUNK_HEADER: a chunk's tag and its declared payload length. */
  datatype ChunkHeader = ChunkHeader(tag: ChunkTag, length: nat)

  /** LWO_CHUNK_DATA_OFFSET: the payload starts 8 bytes after the chunk's first byte. */
  const CHUNK_DATA_OFFSET: nat := 8

  /** POLYGON: a vertex count and the point indices of the polygon. */
  datatype Polygon = Polygon(numVertices: nat, pointIndex: seq<nat>)

  /** The fields of a Surface object, floats as their in-memory bytes. */
  datatype SurfaceFields = SurfaceFields(
    color: Col12,
    diff: Word4, lumi: Word4, spec: Word4, refl: Word4, tran: Word4, trnl: Word4,
    glossiness: Word4, sharpness: Word4, bump: Word4,
    maxSmoothingAngle: Word4,
    envIndex: nat)

  /** The initialisers of Surface.h: color zero, diffuse 1.0, max smoothing angle -1.0, the rest zero. */
  const DEFAULT_SURFACE: SurfaceFields := SurfaceFields(
    Col12(FLOAT_ZERO, FLOAT_ZERO, FLOAT_ZERO),
    FLOAT_ONE, FLOAT_ZERO, FLOAT_ZERO, FLOAT_ZERO, FLOAT_ZERO, FLOAT_ZERO,
    FLOAT_ZERO, FLOAT_ZERO, FLOAT_ZERO,
    FLOAT_MINUS_ONE,
    0)

  /**
   * A chunk. `Plain(tag)` is the base class and every variant that keeps the
   * default parse and description (VMAP, PTAG, VMAD, VMPA, ENVL, CLIP, BBOX,
   * DESC, TEXT, ICON); the others carry what their parse fills in.
   */
  datatype Chunk =
    | Plain(tag: ChunkTag)
    | LayerChunk(name: string, chunks: seq<Entry>)
    | PointsChunk(points: seq<Vec12>)
    | PolygonsChunk(polygons: seq<Polygon>)
    | TagsChunk(tags: seq<string>)
    | SurfaceChunk(surface: SurfaceFields)

  /**
   * An element of a layer's chunk list (a `unique_ptr<Chunk>`): a chunk, or
   * an emptied pointer whose chunk has been moved elsewhere.
   */
  datatype Entry = Present(chunk: Chunk) | MovedOut

  /** `Chunk()`: the default-constructed chunk has tag UNKNOWN. */
  const DEFAULT_CHUNK: Chunk := Plain(UNKNOWN)

  /** The tags whose variants keep the default parse. */
  predicate InertTag(t: ChunkTag)
  {
    t in {VMAP, PTAG, VMAD, VMPA, ENVL, CLIP, BBOX, DESC, TEXT, ICON}
  }

  /** getTag: the tag the variant's constructor passed to Chunk. */
  function GetTag(c: Chunk): ChunkTag
  {
    match c
    case Plain(t) => t
    case LayerChunk(_, _) => LAYR
    case PointsChunk(_) => PNTS
    case PolygonsChunk(_) => POLS
    case TagsChunk(_) => TAGS
    case SurfaceChunk(_) => SURF
  }

  /** Chunk::create: a default-constructed object of the variant for the tag; null for UNKNOWN. */
  function Create(t: ChunkTag): (r: Option<Chunk>)
    ensures r.Some? <==> t != UNKNOWN
    ensures r.Some? ==> GetTag(r.value) == t
    ensures t == LAYR ==> r == Some(LayerChunk("", []))
    ensures InertTag(t) ==> r == Some(Plain(t))
  {
    match t
    case LAYR => Some(LayerChunk("", []))
    case PNTS => Some(PointsChunk([]))
    case POLS => Some(PolygonsChunk([]))
    case TAGS => Some(TagsChunk([]))
    case SURF => Some(SurfaceChunk(DEFAULT_SURFACE))
    case UNKNOWN => None
    case _ => Some(Plain(t))
  }

  /** Tags::getDescription: every tag followed by ", ". */
  function TagsDescription(tags: seq<string>): string
  {
    if tags == [] then "" else TagsDescription(tags[..|tags| - 1]) + tags[|tags| - 1] + ", "
  }

  /** The description of a list is the descriptions of its parts, one tag contributing `tag, `. */
  lemma {:induction false} TagsDescriptionConcat(a: seq<string>, b: seq<string>)
    ensures TagsDescription(a + b) == TagsDescription(a) + TagsDescription(b)
    ensures TagsDescription([]) == "" && |b| == 1 ==> TagsDescription(b) == b[0] + ", "
    decreases |b|
  {
    if b == [] {
      assert a + b == a;
    } else {
      var b' := b[..|b| - 1];
      assert (a + b)[..|a + b| - 1] == a + b';
      assert (a + b)[|a + b| - 1] == b[|b| - 1];
      TagsDescriptionConcat(a, b');
      if |b| == 1 {
        assert b' == [];
      }
    }
  }

  /**
   * getDescription, dispatched on the variant: "Vertices: n" for points,
   * "Polygons: n" for polygons, the tag list for tags, "" for the rest
   * (the base class's default).
   */
  function GetDescription(c: Chunk): (d: string)
    ensures c.PointsChunk? ==> |d| > 10 && d[..10] == "Vertices: " && CanonicalDecimal(d[10..]) && DecimalValue(d[10..]) == |c.points|
    ensures c.PolygonsChunk? ==> |d| > 10 && d[..10] == "Polygons: " && CanonicalDecimal(d[10..]) && DecimalValue(d[10..]) == |c.polygons|
    ensures c.TagsChunk? ==> d == TagsDescription(c.tags)
    ensures !(c.PointsChunk? || c.PolygonsChunk? || c.TagsChunk?) ==> d == ""
  {
    match c
    case PointsChunk(ps) =>
      var d := "Vertices: " + NatToString(|ps|);
      assert d[10..] == NatToString(|ps|);
      d
    case PolygonsChunk(ps) =>
      var d := "Polygons: " + NatToString(|ps|);
      assert d[10..] == NatToString(|ps|);
      d
    case TagsChunk(ts) => TagsDescription(ts)
    case _ => ""
  }
}
