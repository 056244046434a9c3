# LWO2 object reader

This project models the part of the LightWave object viewer that reads a
LightWave LWO2 object file. It covers five pieces:

- the byte codec of `ChunkDefinitions.h` and `LWUtils`: U2/U4 integers,
  padded and zero-terminated strings, VX indices, floats and the VEC12 and
  COL12 triples;
- the chunk tag tables and the chunk factory;
- the parsers of the PNTS, POLS, TAGS, SURF and LAYR chunks;
- `LightWaveObject::Read`: the file header, the walk over the chunks, how
  chunks are gathered into layers, and the layer accessors;
- `ObjectReader`: `ReadObjectFile` and `TransferMeshDataFromLWO`, which turn
  the first layer's points and polygons into a vertex list and a 16-bit
  index list. Each polygon of three or more vertices becomes a triangle fan
  with reversed winding.

Each C++ class keeps its form in the model:

- The chunk classes (`Points`, `Polygons`, `Tags`, `Surface`, `Layer`),
  `LightWaveObject` and `ObjectReader` are Dafny classes. Their methods
  update the fields the C++ updates.
- Their loops are `while` loops. Each is proved against a specification
  function over the byte sequence, for example `DecodePoints`,
  `PolygonsFrom`, `TagsFrom`, `SubChunks`, `Trace`/`WalkOf` and `MeshOf`.
- The pure helpers (byte conversions, tag tables, offset arithmetic) are
  functions and lemmas.

The conventions are these:

- A file is a `seq<byte>`.
- A float is a `Word4`, its four bytes in memory. Nothing computes with
  floats.
- `size_t` and `unsigned` are 32 bits wide, written out where they wrap.
- Where the C++ would read past its buffer, index out of range, or
  dereference a null pointer, the model reports a fault instead:
  - in a method, `ok == false`;
  - in a function, `None`;
  - for `Read`, the status `Fault`.

  This means the chunk parsers, `Read` and `ReadObjectFile` need no precondition on the buffer size. The value parsers (`LWUtils.ParseVxValues`, `ParseFloatValue`, `ParseCol12Value`, `ParseFloatVxValues` and the `Surface` sub-chunk readers built on them) require the bytes they read; their callers check that room and fault before calling them.

Modules:

| Module | Models |
|---|---|
| `Wrappers` | `Option` |
| `Codec` | byte-level conversions |
| `TagNames` | tag enums and their string tables |
| `LWUtils` | the value parsers |
| `Chunks` | `Chunk`, the factory and descriptions |
| `PointsChunk`, `PolygonsChunk`, `TagsChunk`, `SurfaceChunk`, `LayerChunk` | the chunk classes |
| `Walk` | the layer bookkeeping of `Read`, stated over the sequence of chunk events |
| `LightWave` | `LightWaveObject` |
| `MeshReader` | `ObjectReader` |

## Model

| member | source | states |
|---|---|---|
| Codec.U2 | LightWaveObject/Chunks/ChunkDefinitions.h:122-125 | the value is below 2^16, with the first byte as the high byte and the second as the low byte |
| Codec.U2At | LightWaveObject/Chunks/ChunkDefinitions.h:122-125 | a U2 read at an offset is below 2^16 |
| Codec.EncodeU2 | LightWaveObject/Chunks/ChunkDefinitions.h:122-125 | the big-endian encoding of a 16-bit value is two bytes |
| Codec.U2RoundTrip | LightWaveObject/Chunks/ChunkDefinitions.h:122-125 | decoding an encoded U2 gives the value back, and encoding any two decoded bytes gives the bytes back |
| Codec.U4 | LightWaveObject/Chunks/ChunkDefinitions.h:128-133 | a U4 is below 2^32 |
| Codec.U4At | LightWaveObject/Chunks/ChunkDefinitions.h:128-133 | a U4 read at an offset is below 2^32 |
| Codec.EncodeU4 | LightWaveObject/Chunks/ChunkDefinitions.h:128-133 | the big-endian encoding of a 32-bit value is four bytes |
| Codec.U4RoundTrip | LightWaveObject/Chunks/ChunkDefinitions.h:128-133 | U4 decoding and encoding are inverse in both directions |
| Codec.U4AtEncodes | LightWaveObject/Chunks/ChunkDefinitions.h:128-133 | re-encoding a U4 read from a buffer gives back the four bytes it was read from |
| Codec.U4AtDecodes | LightWaveObject/Chunks/ChunkDefinitions.h:128-133 | reading a U4 where a value's encoding is stored gives that value |
| Codec.Int32Of | LightWaveObject/Chunks/ChunkDefinitions.h:128-133 | the `int` result of the macro lies in the signed 32-bit range, equals the unsigned value modulo 2^32, and is negative exactly when the top bit is set |
| Codec.SizeTOf | LightWaveObject/LightWaveObject.cpp:254 | storing into a 32-bit `size_t` gives a value below 2^32 that is congruent modulo 2^32 and is the identity on values already in range |
| Codec.SizeTOfInt32 | LightWaveObject/LightWaveObject.cpp:274 | a U4 passed through `int` into `size_t` comes back unchanged |
| Codec.Int16Of | LightWaveObject/Chunks/Surface.cpp:37 | a U2 stored into a `short` lies in the signed 16-bit range and is congruent modulo 2^16 |
| Codec.SignedChar | LightWaveObject/LWUtils.cpp:139 | a buffer byte read as a signed `char` lies in [-128, 128) and is congruent modulo 256 |
| Codec.PadLength | LightWaveObject/Chunks/ChunkDefinitions.h:143 | the padded length is even and is the length or one more |
| Codec.PadLengthIsLeastEven | LightWaveObject/Chunks/ChunkDefinitions.h:143 | the padded length is at most any even bound at or above the length, and even lengths are unchanged |
| Codec.VxLength | LightWaveObject/Chunks/ChunkDefinitions.h:146 | the width is 2 or 4, and it is 2 exactly for indexes below 0xFF00 |
| Codec.ToStrInjective | LightWaveObject/Chunks/ChunkDefinitions.h:197 | two byte ranges that give the same string are the same bytes |
| Codec.FixedString | LightWaveObject/Chunks/ChunkDefinitions.h:188-198 | a fixed-size string has n characters, each of them the byte at that place |
| Codec.FirstZeroSpec | LightWaveObject/Chunks/ChunkDefinitions.h:191 | the terminator scan finds the first zero byte at or after the start, or reports that no zero byte follows |
| Codec.FirstZeroIs | LightWaveObject/Chunks/ChunkDefinitions.h:191 | a zero byte with no zero byte before it, from the start on, is the one the scan finds |
| Codec.ZStringAt | LightWaveObject/Chunks/ChunkDefinitions.h:188-198 | a zero-terminated string exists exactly when a zero byte follows, and its length counts the terminator |
| Codec.ZStringAtSpec | LightWaveObject/Chunks/ChunkDefinitions.h:188-198 | a zero-terminated string exists exactly when a zero byte follows; it holds the bytes up to and including the terminator, the terminator last and no zero before it |
| Codec.ConvertBytesToString | LightWaveObject/Chunks/ChunkDefinitions.h:188-198 | the scan loop succeeds exactly when a zero byte follows; its string is the bytes up to and including the first zero, and it agrees with `ZStringAt` |
| Codec.FloatBytesAt | LightWaveObject/Chunks/ChunkDefinitions.h:136-140 | the float `memcpy` keeps the four bytes in their order |
| Codec.Swap4 | LightWaveObject/Chunks/ChunkDefinitions.h:161-164 | byte k of the result is byte 3 - k of the input |
| Codec.Swap4Involution | LightWaveObject/Chunks/ChunkDefinitions.h:149-167 | swapping twice is the identity, and a swap changes nothing only for palindromic bytes |
| Codec.LeFloatAt | LightWaveObject/Chunks/ChunkDefinitions.h:149-167 | the converted float holds the four buffer bytes in reverse order |
| Codec.LeFloatInjective | LightWaveObject/Chunks/ChunkDefinitions.h:149-167 | two equal converted floats come from the same four buffer bytes |
| Codec.EncodeVec12 | LightWaveObject/Chunks/ChunkDefinitions.h:179-185 | a VEC12 occupies 12 bytes |
| Codec.Vec12RoundTrip | LightWaveObject/Chunks/ChunkDefinitions.h:179-185 | decoding and encoding a VEC12 are inverse in both directions, so X, Y and Z each come from their own four bytes, byte-swapped |
| Codec.Col12Covers12Bytes | LightWaveObject/Chunks/ChunkDefinitions.h:170-176 | two COL12 decodes are equal exactly when their 12 source bytes are equal |
| Codec.NatToString | ObjectReader.cpp:177 | `to_string` of a count gives decimal digits with no leading zero, whose value is the count |
| Codec.NatToStringUnique | ObjectReader.cpp:177 | a digit string with no leading zero that spells n is `to_string(n)`, so the description contracts pin the text exactly |
| TagNames.Is4Iff | LightWaveObject/LWUtils.cpp:9 | the four-character comparison holds exactly when the tag is that four-character string |
| TagNames.TagRoundTrip | LightWaveObject/LWUtils.cpp:8-51 | converting a chunk tag to its string and back gives the tag |
| TagNames.TagRecognisedIsName | LightWaveObject/LWUtils.cpp:8-51 | a string recognised as a tag is that tag's name |
| TagNames.TagFromStringUnknownIff | LightWaveObject/LWUtils.cpp:8-26 | a string maps to UNKNOWN exactly when it is no tag's name; recognised strings have four characters |
| TagNames.SurfaceTagRoundTrip | LightWaveObject/LWUtils.cpp:58-90 | every surface sub-chunk tag other than UNKNOWN is recognised from its name |
| TagNames.SurfaceTagRecognisedIsName | LightWaveObject/LWUtils.cpp:58-90 | a string recognised as a sub-chunk tag is that tag's name |
| TagNames.SurfaceTagTable | LightWaveObject/LWUtils.cpp:58-90 | distinct sub-chunk tags have distinct names, and a string maps to UNKNOWN exactly when it is no tag's name |
| LWUtils.VxAsWrittenAlwaysTwoBytes | LightWaveObject/LWUtils.cpp:137-149 | as written, the index is always read as a two-byte U2 |
| LWUtils.VxAsWrittenMisreadsFourByteIndex | LightWaveObject/LWUtils.cpp:139 | a four-byte index FF 00 00 07 is read as the two-byte 0xFF00, while the corrected reading gives 0xFF000007 over four bytes |
| LWUtils.Vx | LightWaveObject/LWUtils.cpp:137-149 | the index is four bytes (a U4) exactly when its first byte is 0xFF, and two bytes (a U2) otherwise |
| LWUtils.VxWidthMatchesVxLength | LightWaveObject/Chunks/ChunkDefinitions.h:146 | the width read agrees with the width `CONVERT_VX_LENGTH` gives for the index's first U2 |
| LWUtils.ParseVxValues | LightWaveObject/LWUtils.cpp:137-149 | returns the VX index, and advances the offset by its width (2 or 4) |
| LWUtils.ParseFloatValue | LightWaveObject/LWUtils.cpp:98-101 | returns the four bytes as they are, and advances the offset by 4 |
| LWUtils.ParseCol12Value | LightWaveObject/LWUtils.cpp:109-112 | returns the decoded COL12, and advances the offset by 12 |
| LWUtils.ParseFloatVxValues | LightWaveObject/LWUtils.cpp:120-128 | returns the float bytes and then the VX index read after them, and advances the offset by 6 or 8 |
| Chunks.Create | LightWaveObject/Chunks/Chunk.cpp:24-62 | the factory yields a chunk exactly for the known tags, that chunk carries the tag, a layer starts empty, and the inert kinds are plain |
| Chunks.TagsDescriptionConcat | LightWaveObject/Chunks/Tags.cpp:7-13 | the description of a tag list is the concatenation of "tag, " per tag |
| Chunks.GetDescription | LightWaveObject/Chunks/Chunk.cpp:93-95 | "Vertices: n" or "Polygons: n" with n the count in decimal digits without a leading zero, the tag list for TAGS, and "" for every other chunk |
| PointsChunk.PointCountIsCeiling | LightWaveObject/Chunks/Points.cpp:36 | the loop reads ceil(length / 12) points, so a length that is not a multiple of 12 reads one partial point |
| PointsChunk.PointsReadCount | LightWaveObject/Chunks/Points.cpp:36 | with the 32-bit loop bound `length + 8`, the count is ceil(length / 12), or zero when that bound wraps |
| PointsChunk.PointsLoopTest | LightWaveObject/Chunks/Points.cpp:36 | the kth loop test passes exactly when k is below the number of points read |
| PointsChunk.DecodePoints | LightWaveObject/Chunks/Points.cpp:32-44 | the decoded list has one point per loop iteration |
| PointsChunk.DecodePointsLayout | LightWaveObject/Chunks/Points.cpp:32-44 | point i is the VEC12 of the 12 bytes at chunk offset 8 + 12 i |
| PointsChunk.Points.constructor | LightWaveObject/Chunks/Points.h:22 | a new chunk holds no points |
| PointsChunk.Points.Value | LightWaveObject/Chunks/Points.cpp:17-19 | the chunk value is a PNTS chunk holding exactly the point list |
| PointsChunk.Points.Parse | LightWaveObject/Chunks/Points.cpp:32-44 | succeeds exactly when every point the loop reads lies in the buffer, and then appends exactly the decoded points |
| PointsChunk.Points.Size | LightWaveObject/Chunks/Points.cpp:50-52 | size is the number of points held |
| PointsChunk.Points.GetDescription | LightWaveObject/Chunks/Points.cpp:9-11 | "Vertices: " followed by decimal digits with no leading zero whose value is the size, which `Codec.NatToStringUnique` shows is `to_string(size())` |
| PolygonsChunk.PolygonAt | LightWaveObject/Chunks/Polygons.cpp:46-64 | a polygon record has the low byte of its first U2 as its vertex count, and one U2 index per vertex after it |
| PolygonsChunk.PolygonsShape | LightWaveObject/Chunks/Polygons.cpp:37-68 | every parsed polygon has as many indices as its count, and the records reach the chunk length |
| PolygonsChunk.PolygonsLayout | LightWaveObject/Chunks/Polygons.cpp:37-68 | polygon i is the record at offset 4 plus the sizes of the records before it, which lies below the chunk length |
| PolygonsChunk.PolygonsOfChunk | LightWaveObject/Chunks/Polygons.cpp:14-22 | a chunk whose type is not "FACE" parses to no polygons, and a chunk too short for the type tag is a fault |
| PolygonsChunk.Polygons.constructor | LightWaveObject/Chunks/Polygons.h:24 | a new chunk holds no polygons |
| PolygonsChunk.Polygons.Value | LightWaveObject/Chunks/Polygons.cpp:28-30 | the chunk value is a POLS chunk holding exactly the polygon list |
| PolygonsChunk.Polygons.ReadPolygon | LightWaveObject/Chunks/Polygons.cpp:46-64 | reads one polygon record exactly when it lies in the buffer |
| PolygonsChunk.Polygons.ParsePolygons | LightWaveObject/Chunks/Polygons.cpp:37-68 | the loop succeeds exactly when the specified record sequence does, and returns exactly those polygons |
| PolygonsChunk.Polygons.Parse | LightWaveObject/Chunks/Polygons.cpp:14-22 | a FACE chunk replaces the list with its parsed polygons; any other type leaves the list as it was |
| PolygonsChunk.Polygons.Size | LightWaveObject/Chunks/Polygons.cpp:8 | size is the number of polygons held |
| PolygonsChunk.Polygons.GetDescription | LightWaveObject/Chunks/Polygons.cpp:7-9 | "Polygons: " followed by decimal digits with no leading zero whose value is the size, which `Codec.NatToStringUnique` shows is `to_string(size())` |
| TagsChunk.CStringAtSpec | LightWaveObject/Chunks/Tags.cpp:25 | `string(rawBuffer + offset)` exists exactly when a zero byte follows, and holds the non-zero bytes before it |
| TagsChunk.TagsReachEnd | LightWaveObject/Chunks/Tags.cpp:18-32 | the parsed tags with their padding reach the end bound |
| TagsChunk.TagsLayout | LightWaveObject/Chunks/Tags.cpp:18-32 | tag i is the string at the offset after the padded tags before it, below the end bound |
| TagsChunk.TagsAsWrittenDropsLastTag | LightWaveObject/Chunks/Tags.cpp:22 | with the bound as written, a 14-byte chunk "Default", "Glass" yields only "Default"; the corrected bound yields both |
| TagsChunk.Tags.constructor | LightWaveObject/Chunks/Tags.h:19 | a new chunk holds no tags |
| TagsChunk.Tags.Value | LightWaveObject/Chunks/Tags.h:19 | the chunk value is a TAGS chunk holding exactly the tag list |
| TagsChunk.Tags.Parse | LightWaveObject/Chunks/Tags.cpp:18-32 | the loop succeeds exactly when every string in the chunk has its terminator, and then appends exactly the specified tags in order |
| TagsChunk.Tags.GetDescription | LightWaveObject/Chunks/Tags.cpp:7-13 | each tag followed by ", ", as `Chunks.GetDescription` gives for the chunk |
| SurfaceChunk.SetFloatGet | LightWaveObject/Chunks/Surface.cpp:46-66 | storing a float field and reading it back gives the value; a second store overrides the first; storing a field's own value changes nothing |
| SurfaceChunk.Skip | LightWaveObject/Chunks/Surface.cpp:108-113 | skipping a sub-chunk never moves the offset backwards |
| SurfaceChunk.SkipAsWrittenStalls | LightWaveObject/Chunks/Surface.cpp:37 | as written, a size of 0xFFFA stored in a `short` sends the offset back to the start of the sub-chunk; the corrected skip moves forward |
| SurfaceChunk.StepEffects | LightWaveObject/Chunks/Surface.cpp:29-114 | a sub-chunk step changes only its own field. COLR sets the colour and the envelope. The float tags set their float. SMAN sets the smoothing angle. Other tags skip their size. Each step moves past exactly what it reads |
| SurfaceChunk.StepAdvances | LightWaveObject/Chunks/Surface.cpp:29-114 | every sub-chunk step moves past at least its 6-byte header, so the loop ends |
| SurfaceChunk.SubChunksStartOffset | LightWaveObject/Chunks/Surface.cpp:17-25 | the sub-chunks start after the padded name and the padded source |
| SurfaceChunk.NoSubChunksDefaultColor | LightWaveObject/Chunks/Surface.h:21-32 | a surface with no sub-chunks keeps every default, including a black colour |
| SurfaceChunk.ColorWithoutColr | LightWaveObject/Chunks/Surface.cpp:42-45 | without a COLR sub-chunk the colour is unchanged |
| SurfaceChunk.Surface.constructor | LightWaveObject/Chunks/Surface.h:21-32 | a new surface has the declared defaults: diffuse 1.0, smoothing angle -1.0, everything else zero |
| SurfaceChunk.Surface.Value | LightWaveObject/Chunks/Surface.h:21-32 | the chunk value is a SURF chunk holding exactly the fields |
| SurfaceChunk.Surface.GetColor | LightWaveObject/Chunks/Surface.cpp:7-9 | returns the colour field |
| SurfaceChunk.Surface.SetFloatField | LightWaveObject/Chunks/Surface.cpp:46-66 | sets the one float field the tag names and leaves the rest |
| SurfaceChunk.Surface.ParseColorSubChunk | LightWaveObject/Chunks/Surface.cpp:42-45 | stores the COLR colour and envelope index and the next offset, and faults exactly as specified |
| SurfaceChunk.Surface.ParseFloatSubChunk | LightWaveObject/Chunks/Surface.cpp:46-66 | stores the float of a DIFF/LUMI/SPEC/REFL/TRAN/TRNL/GLOS sub-chunk and the next offset, and faults exactly as specified |
| SurfaceChunk.Surface.ParseSmoothingSubChunk | LightWaveObject/Chunks/Surface.cpp:67-69 | stores the SMAN angle and the next offset, and faults exactly as specified |
| SurfaceChunk.Surface.ParseSubChunk | LightWaveObject/Chunks/Surface.cpp:31-114 | one iteration of the loop body: the new fields and offset are the specified step, and at least 6 bytes further on |
| SurfaceChunk.Surface.ParseSubChunks | LightWaveObject/Chunks/Surface.cpp:29-115 | the loop succeeds exactly when the specified sub-chunk sequence does, and leaves its fields |
| SurfaceChunk.Surface.Parse | LightWaveObject/Chunks/Surface.cpp:14-116 | the whole parse (name, source, sub-chunks) succeeds exactly when the specification does, with its fields |
| LayerChunk.LayerRecordLayout | LightWaveObject/Chunks/Layer.cpp:65-93 | number at offset 8, flags at 10, pivot at 12-23, the name zero-terminated from 24, and the parent U2 after the padded name exactly when that offset is below length + 8, otherwise 0xFFFFFFFF |
| LayerChunk.LayerNameAsWrittenOverruns | LightWaveObject/Chunks/Layer.cpp:79 | as written, a non-empty name read from the 25-byte copy runs past the copy; only an empty name reads correctly |
| LayerChunk.FindFrom | LightWaveObject/Chunks/Layer.cpp:36-52 | the search finds the first entry with the tag, misses when none has it, and meets an emptied entry exactly when one comes before any match |
| LayerChunk.Layer.constructor | LightWaveObject/Chunks/Layer.h:12 | a new layer has no chunks and an empty name |
| LayerChunk.Layer.Value | LightWaveObject/Chunks/Layer.cpp:58-60 | the chunk value is a LAYR chunk with the layer's name and entries |
| LayerChunk.Layer.AddChunk | LightWaveObject/Chunks/Layer.cpp:7-10 | appends the entry at the end and keeps the name |
| LayerChunk.Layer.Size | LightWaveObject/Chunks/Layer.cpp:99-101 | size is the number of entries |
| LayerChunk.Layer.GetChunkAt | LightWaveObject/Chunks/Layer.cpp:18-28 | false past the end, leaving the caller's chunk as it was. Otherwise the copy keeps only the entry's tag, as the slicing assignment does. An emptied entry is a fault |
| LayerChunk.Layer.GetChunk | LightWaveObject/Chunks/Layer.cpp:36-52 | the scan returns the first chunk with the tag or none, and faults exactly when it meets an emptied entry first |
| LayerChunk.Layer.Parse | LightWaveObject/Chunks/Layer.cpp:65-93 | succeeds exactly when the layer record can be read, stores its name, and leaves the entries |
| Walk.MovedOuts | LightWaveObject/LightWaveObject.cpp:77-79 | after the orphans have been moved into a layer, the orphan list holds n emptied entries |
| Walk.WalkFinish | LightWaveObject/LightWaveObject.cpp:53-114 | the loop's layer bookkeeping followed by the final push yields, in file order, one layer per LAYR chunk |
| Walk.WalkResult | LightWaveObject/LightWaveObject.cpp:53-114 | layer i carries the ith layer name. The first layer holds the orphans, then its own chunks. Each later layer holds one emptied entry per orphan, then its own chunks |
| Walk.SkipStoresNothing | LightWaveObject/LightWaveObject.cpp:84-85 | a chunk with an unknown tag changes neither the walk nor the layers |
| LightWave.ParseFileHeader | LightWaveObject/LightWaveObject.cpp:264-278 | the header reads when the buffer holds 12 bytes, its length being the U4 at offset 4 |
| LightWave.EncodeFileHeader | LightWaveObject/Chunks/ChunkDefinitions.h:34-38 | a file header occupies 12 bytes |
| LightWave.FileHeaderRoundTrip | LightWaveObject/LightWaveObject.cpp:264-278 | parsing an encoded header gives its form, length and id |
| LightWave.FileHeaderEncodes | LightWaveObject/LightWaveObject.cpp:264-278 | re-encoding a parsed header gives the 12 bytes back |
| LightWave.ParseChunkHeader | LightWaveObject/LightWaveObject.cpp:243-257 | the header reads when 8 bytes remain; its tag is the first four bytes mapped through the tag table, its length the U4 after them |
| LightWave.EncodeChunkHeader | LightWaveObject/Chunks/ChunkDefinitions.h:52-55 | a chunk header occupies 8 bytes |
| LightWave.TagBytesRead | LightWaveObject/LightWaveObject.cpp:252 | four bytes that spell a tag's name read as that name |
| LightWave.ChunkHeaderRoundTrip | LightWaveObject/LightWaveObject.cpp:243-257 | parsing an encoded chunk header gives its tag and length |
| LightWave.Advance | LightWaveObject/LightWaveObject.cpp:103-108 | the next chunk starts after the 8-byte header and the padded length |
| LightWave.AdvanceAsWrittenStalls | LightWaveObject/LightWaveObject.cpp:103-108 | as written, with 32-bit `size_t`, a length of 0xFFFFFFF8 leaves the offset where it was, so the loop never ends; the corrected advance moves on |
| LightWave.AdvanceAsWrittenAgrees | LightWaveObject/LightWaveObject.cpp:103-108 | the advance as written and the corrected one agree whenever the sum does not wrap |
| LightWave.ParsedChunk | LightWaveObject/LightWaveObject.cpp:84-89 | the created and parsed chunk carries its header's tag, an inert kind is the bare factory product, and a PNTS chunk parses exactly when its points fit |
| LightWave.EventAt | LightWaveObject/LightWaveObject.cpp:59-100 | an unknown tag stores nothing. A LAYR chunk begins a layer exactly when its record reads. Every other chunk is stored under its own tag |
| LightWave.TraceEvents | LightWaveObject/LightWaveObject.cpp:53-109 | the walk past the file length has no events; otherwise it is the event at the offset followed by the walk from the next offset |
| LightWave.ReadOutcome | LightWaveObject/LightWaveObject.cpp:17-117 | an unreadable file, a form other than FORM or an id other than LWO2 fails and adds no layers; only success adds layers |
| LightWave.ReadLayers | LightWaveObject/LightWaveObject.cpp:53-116 | a successful read adds one layer per LAYR chunk with its name, and the first of them starts with the orphaned chunks |
| LightWave.LayersValueOf | LightWaveObject/LightWaveObject.h:36 | the layer values correspond one to one with the layer objects |
| LightWave.ChunkOf | LightWaveObject/Chunks/Layer.cpp:36-52 | a chunk is found only in an existing layer, carries the tag sought, and is found exactly when that layer's scan hits |
| LightWave.PointsOf | LightWaveObject/LightWaveObject.cpp:159-168 | the points exist exactly when the layer's first PNTS lookup finds a points chunk |
| LightWave.PolsOf | LightWaveObject/LightWaveObject.cpp:175-184 | the polygons exist exactly when the layer's first POLS lookup finds a polygons chunk |
| LightWave.FirstLayerLookup | LightWaveObject/LightWaveObject.cpp:77-79 | no lookup in the first layer meets an emptied entry |
| LightWave.LaterLayerLookup | LightWaveObject/LightWaveObject.cpp:77-79 | when chunks preceded the first LAYR, every lookup in a later layer meets an emptied entry first and finds nothing |
| LightWave.ParseCreated | LightWaveObject/LightWaveObject.cpp:84-89 | creating and parsing a chunk succeeds exactly as specified, giving the specified chunk |
| LightWave.AttachOrphans | LightWaveObject/LightWaveObject.cpp:77-79 | the layer gains the orphans in order and keeps its name, and the orphan list is left holding emptied entries |
| LightWave.LightWaveObject.constructor | LightWaveObject/LightWaveObject.h:36 | a new object has no layers |
| LightWave.LightWaveObject.LayersValue | LightWaveObject/LightWaveObject.h:36 | one layer value per layer object |
| LightWave.LightWaveObject.PushLayer | LightWaveObject/LightWaveObject.cpp:66 | appends the layer to the layer list |
| LightWave.LightWaveObject.BeginLayer | LightWaveObject/LightWaveObject.cpp:60-80 | a LAYR chunk pushes the previous layer, starts a new one with the orphans, and keeps the walk invariant; it faults exactly when the record cannot be read |
| LightWave.LightWaveObject.OpenLayer | LightWaveObject/LightWaveObject.cpp:70-79 | the new layer is created and parsed and takes the orphans in order, leaving them emptied; it faults exactly when its record cannot be read |
| LightWave.LightWaveObject.StoreChunk | LightWaveObject/LightWaveObject.cpp:81-100 | any other chunk is stored in the current layer or among the orphans, keeping the walk invariant; it faults exactly when its parse would |
| LightWave.LightWaveObject.ReadChunk | LightWaveObject/LightWaveObject.cpp:59-100 | one iteration of the chunk loop keeps the walk invariant, and faults exactly as specified |
| LightWave.LightWaveObject.WalkChunks | LightWaveObject/LightWaveObject.cpp:46-114 | the loop succeeds exactly when the specified walk does, and appends the layers of that walk |
| LightWave.LightWaveObject.PushLast | LightWaveObject/LightWaveObject.cpp:111-114 | the last layer is saved, so the layers are the finished walk |
| LightWave.LightWaveObject.Read | LightWaveObject/LightWaveObject.cpp:17-117 | the status is that of `ReadOutcome`, and the layers gain exactly its layers |
| LightWave.LightWaveObject.GetNumLayers | LightWaveObject/LightWaveObject.cpp:150-152 | the number of layers |
| LightWave.LightWaveObject.GetPointsByLayer | LightWaveObject/LightWaveObject.cpp:159-168 | the points of the layer's first PNTS chunk; a fault for a missing layer or chunk |
| LightWave.LightWaveObject.GetPolsByLayer | LightWaveObject/LightWaveObject.cpp:175-184 | the polygons of the layer's first POLS chunk; a fault for a missing layer or chunk |
| LightWave.LightWaveObject.FindLayerChunk | LightWaveObject/LightWaveObject.cpp:162-165 | the layer lookup and its scan: found exactly when `ChunkOf` finds it, giving that chunk |
| MeshReader.Word | ObjectReader.cpp:134-136 | a WORD index is below 2^16, at most the value, and the value itself when it fits |
| MeshReader.WordOfUnsigned | ObjectReader.cpp:158 | truncating to WORD after an `unsigned` wrap gives what truncating the exact value gives |
| MeshReader.Words | ObjectReader.cpp:134-162 | each stored index is the WORD of its value |
| MeshReader.FaceVertices | ObjectReader.cpp:94-168 | a face contributes one vertex per polygon vertex |
| MeshReader.FanShape | ObjectReader.cpp:134-167 | an n-vertex fan has 3 (n - 2) indices. Triangle k is (b+k+2, b+k+1, b), the winding reversed. Every index lies in the face's own vertex range |
| MeshReader.MeshShape | ObjectReader.cpp:89-173 | the transfer succeeds exactly when every face names existing points. It then emits a vertex per face vertex and 3 (n - 2) indices per face, counts the skipped polygons, colours every vertex white, and every index names an emitted vertex |
| MeshReader.PolygonEmits | ObjectReader.cpp:94-168 | a face appends its vertices at the current offset, with their positions and the face normal, and its fan of triangles on top of the earlier lists, which stay as they were |
| MeshReader.PolygonSkipped | ObjectReader.cpp:169-172 | a polygon of at most two vertices only adds one to the skipped count |
| MeshReader.TransferOf | ObjectReader.cpp:66-181 | no layers is a failure that transfers nothing, and a transfer that does not succeed leaves an empty mesh |
| MeshReader.ReadAcceptedAsWrittenInverts | ObjectReader.cpp:25 | as written, EXIT_SUCCESS is treated as a failed read and EXIT_FAILURE as a success |
| MeshReader.ReadAccepted | ObjectReader.cpp:25 | the corrected test accepts exactly a result of EXIT_SUCCESS (0) |
| MeshReader.LoadOf | ObjectReader.cpp:10-43 | a missing file gives "The file does not exist", and a failed read gives "The file could not be read" |
| MeshReader.AsWrittenNeverLoads | ObjectReader.cpp:25 | as written, no file ever loads |
| MeshReader.LoadsFirstLayer | ObjectReader.cpp:10-43 | with the corrected test, a file whose first layer has points and polygons that fit loads, its mesh being that of those polygons |
| MeshReader.CopyPoints | ObjectReader.cpp:80-85 | the temporary list holds one vertex per point, with that point's position |
| MeshReader.ObjectReader.constructor | ObjectReader.h:30-34 | nothing is loaded and the lists are empty |
| MeshReader.ObjectReader.EmitFace | ObjectReader.cpp:96-167 | appends the face's vertices and its fan's WORD indices from the given offset, and leaves the loaded flag |
| MeshReader.ObjectReader.EmitPolygon | ObjectReader.cpp:90-172 | one iteration: the lists and counters afterwards are those of the specified mesh with this polygon added, and it faults exactly when the face names a missing point |
| MeshReader.ObjectReader.EmitPolygons | ObjectReader.cpp:89-173 | the loop succeeds exactly when the specified mesh exists, and appends its vertices and WORD indices and counts its skipped polygons |
| MeshReader.ObjectReader.TransferMeshData | ObjectReader.cpp:66-181 | the status is that of `TransferOf`. With no layers nothing changes. On success the mesh is appended, and the reason becomes the skip warning when polygons were skipped |
| MeshReader.ObjectReader.ReadObjectFile | ObjectReader.cpp:10-43 | the reader's state afterwards is `LoadOf`. A failure gives its reason, with nothing loaded and empty lists. A load gives the mesh's vertices and WORD indices, the warning and the loaded flag |
| MeshReader.ObjectReader.LoadRead | ObjectReader.cpp:24-42 | after `Read`, the state is that of `LoadAfter`. An empty transfer reason becomes "Could not transfer mesh data from object file" |

## Left out

- File I/O: `LightWaveObject::read` (LightWaveObject.cpp:191-236) is not modelled. The file's bytes, or None where reading failed, are a parameter of `Read`.
- The existence check `std::filesystem::exists` (ObjectReader.cpp:18) is the parameter `fileExists`.
- Console output (the `cerr`/`cout` lines) is not modelled.
- `LightWaveObject::displayStatistics` (LightWaveObject.cpp:122-144) is not modelled: it only prints. The accessors it uses (`Layer.GetChunkAt`, the descriptions) are modelled.
- `Chunk::read` (Chunk.cpp:79-88) is not modelled. It is never called, and its `memcpy` copies from the new buffer into the file buffer, the reverse of its comment.
- `ObjectReader::GetIndices` and `GetVertices` (ObjectReader.cpp:49-59) are not modelled as members, because they only copy a field. The model states the fields directly.
- The getters `GetNumLayers`, `GetNumTriangles` and `GetNumNonTriangles` declared in ObjectReader.h have no definition in the source, and the fields behind them are never set. They are not part of this model.
- The inert chunk classes (VMAP, PTAG, VMAD, VMPA, ENVL, CLIP, BBOX, DESC, TEXT, ICON) are kept as a tag only. Their `parse` is the empty default.
- Floating point: floats are kept as their four bytes and never computed with.
- The face normal (`XMVector3Normalize` of a cross product, ObjectReader.cpp:110-120) is the parameter `normalOf`.
- `Layer::parse` decodes the tag, length, number, flags, pivot, name and parent and then keeps only the name (Layer.cpp:74-92). The model decodes the number, flags, pivot, name and parent (`LayerChunk.LayerRecordAt`) and drops all but the name, as the source does. It does not re-read the tag and length at Layer.cpp:74-75; the walk already has them from the chunk header.
- The tag scan of Layer.cpp:74 is not modelled. `CONVERT_BYTES_TO_STRING(rawChunk.tag)` has no fixed size, so it scans for a zero byte from the start of the 25-byte copy. It reads past the copy when bytes 0-24 of the chunk hold no zero. Its result only feeds the discarded tag field.
- The headers and the code disagree on some member names: `Polygons.h` declares `polygons_`, the code uses `_polygons`; `Layer.h` declares `chunks_` and `name_`, the code uses `_chunks` and `_name`. The model follows the code.
- `Read` is declared with one argument (LightWaveObject.h:20) but called with two (ObjectReader.cpp:25). The model uses the declared form.
- `size_t` and `unsigned` are taken to be 32 bits wide: the model is of the 32-bit build, where the cooked chunk header `LWO_CHUNK_HEADER` (ChunkDefinitions.h:58-61), whose size is the walk's step `CHUNK_HEADER_SIZE` (LightWaveObject.cpp:48), is 8 bytes. In a 64-bit build that struct is 16 bytes, so every advance overshoots by 8 and every chunk after the first is misread; there the stall of the LightWaveObject.cpp:103-108 finding needs the length 0xFFFFFFF0 instead of 0xFFFFFFF8.
- Offsets inside the chunk parsers are unbounded naturals. Files of 4 GiB or more are outside the model.
- The 16-bit `WORD` truncation of indices is written out (`MeshReader.Word`). So is the `unsigned` counter wrap (`MeshReader.WordOfUnsigned`).
- When a fault is reported (`ok == false`, `Fault`, `LoadFault`), the state left behind is not specified, because the source's behaviour there is undefined.
- SurfaceChunk.Surface.Parse: keeps the loop bound `offset <= header.length` as written (Surface.cpp:29), where the chunk's data ends at `header.length + 8`. A sub-chunk starting after that bound is too short to hold any field the parser stores, so only a trailing empty or unknown sub-chunk goes unread.
- Four behaviours are modelled as written even though the LWO2 format says otherwise:
  - the polygon vertex count is the low byte of the first U2 (Polygons.cpp:49);
  - polygon point indices are plain U2 values, not VX indices (Polygons.cpp:58);
  - `CONVERT_FLOAT_BYTES` copies float bytes without the byte swap that `CONVERT_LE_FLOAT` applies (ChunkDefinitions.h:136-140);
  - a four-byte VX index is the whole U4 after the 0xFF marker (LWUtils.cpp:139-141, `LWUtils.Vx`), where the format takes only its low 24 bits.
- Orphaned chunks are moved into the first layer but never cleared from the orphan list (LightWaveObject.cpp:77-79). Each later layer therefore begins with emptied entries, and every lookup in such a layer dereferences a null pointer (`LightWave.LaterLayerLookup`). The model keeps this as written, with the dereference reported as a fault.

- LWUtils.Vx: models the corrected code of the Findings row LightWaveObject/LWUtils.cpp:139: it reads a four-byte index after a leading 0xFF, where the source always reads two bytes.
- LWUtils.ParseVxValues: models the corrected code of the Findings row LightWaveObject/LWUtils.cpp:139: it reads a four-byte index after a leading 0xFF, where the source always reads two bytes.
- LWUtils.ParseFloatVxValues: models the corrected code of the Findings row LightWaveObject/LWUtils.cpp:139: it reads the VX index with the corrected test.
- SurfaceChunk.Surface.ParseColorSubChunk: models the corrected code of the Findings row LightWaveObject/LWUtils.cpp:139: it reads the envelope index with the corrected VX test.
- SurfaceChunk.Surface.ParseFloatSubChunk: models the corrected code of the Findings row LightWaveObject/LWUtils.cpp:139: it reads the VX index with the corrected test.
- SurfaceChunk.Skip: models the corrected code of the Findings row LightWaveObject/Chunks/Surface.cpp:37: it skips by the unsigned sub-chunk size, where the source adds a `short`.
- SurfaceChunk.StepEffects: models the corrected code of the Findings row LightWaveObject/Chunks/Surface.cpp:37: it uses the corrected VX test (LWUtils.cpp:139) and the unsigned skip.
- SurfaceChunk.StepAdvances: models the corrected code of the Findings row LightWaveObject/Chunks/Surface.cpp:37: it holds for the unsigned skip only; the `short` skip as written can go backwards.
- SurfaceChunk.Surface.ParseSubChunk: models the corrected code of the Findings row LightWaveObject/Chunks/Surface.cpp:37: it uses the corrected VX test (LWUtils.cpp:139) and the unsigned skip.
- SurfaceChunk.Surface.ParseSubChunks: models the corrected code of the Findings row LightWaveObject/Chunks/Surface.cpp:37: it uses the corrected VX test (LWUtils.cpp:139) and the unsigned skip, so the loop always ends.
- SurfaceChunk.Surface.Parse: models the corrected code of the Findings row LightWaveObject/Chunks/Surface.cpp:37: it uses the corrected VX test (LWUtils.cpp:139) and the unsigned skip, so the loop always ends.
- TagsChunk.TagsReachEnd: models the corrected code of the Findings row LightWaveObject/Chunks/Tags.cpp:22: it is stated for the walk up to `header.length + 8`.
- TagsChunk.TagsLayout: models the corrected code of the Findings row LightWaveObject/Chunks/Tags.cpp:22: it is stated for the walk up to `header.length + 8`.
- TagsChunk.Tags.Parse: models the corrected code of the Findings row LightWaveObject/Chunks/Tags.cpp:22: it reads tags up to `header.length + 8`, where the source stops once the offset exceeds `header.length`.
- LayerChunk.LayerRecordLayout: models the corrected code of the Findings row LightWaveObject/Chunks/Layer.cpp:79: it reads the name from the chunk buffer at offset 24, not from the 25-byte copy.
- LayerChunk.Layer.Parse: models the corrected code of the Findings row LightWaveObject/Chunks/Layer.cpp:79: it reads the name from the chunk buffer at offset 24, not from the 25-byte copy.
- LightWave.Advance: models the corrected code of the Findings row LightWaveObject/LightWaveObject.cpp:103-108: it advances without the 32-bit wrap.
- LightWave.ParsedChunk: models the corrected code of the Findings rows LightWaveObject/LWUtils.cpp:139, LightWaveObject/Chunks/Tags.cpp:22, LightWaveObject/Chunks/Surface.cpp:37 and LightWaveObject/Chunks/Layer.cpp:79: it parses chunks with the corrected parsers.
- LightWave.EventAt: models the corrected code of the Findings rows LightWaveObject/LWUtils.cpp:139, LightWaveObject/Chunks/Tags.cpp:22, LightWaveObject/Chunks/Surface.cpp:37 and LightWaveObject/Chunks/Layer.cpp:79: it parses chunks with the corrected parsers.
- LightWave.TraceEvents: models the corrected code of the Findings row LightWaveObject/LightWaveObject.cpp:103-108 and of the Findings rows LightWaveObject/LWUtils.cpp:139, LightWaveObject/Chunks/Tags.cpp:22, LightWaveObject/Chunks/Surface.cpp:37 and LightWaveObject/Chunks/Layer.cpp:79: it walks with the corrected advance and the corrected chunk parsers, so a length of 0xFFFFFFF8 moves on where the source loops forever.
- LightWave.ReadOutcome: models the corrected code of the Findings row LightWaveObject/LightWaveObject.cpp:103-108 and of the Findings rows LightWaveObject/LWUtils.cpp:139, LightWaveObject/Chunks/Tags.cpp:22, LightWaveObject/Chunks/Surface.cpp:37 and LightWaveObject/Chunks/Layer.cpp:79: it walks with the corrected advance and the corrected chunk parsers.
- LightWave.ReadLayers: models the corrected code of the Findings row LightWaveObject/LightWaveObject.cpp:103-108 and of the Findings rows LightWaveObject/LWUtils.cpp:139, LightWaveObject/Chunks/Tags.cpp:22, LightWaveObject/Chunks/Surface.cpp:37 and LightWaveObject/Chunks/Layer.cpp:79: it is stated for the corrected walk and parsers.
- LightWave.LightWaveObject.WalkChunks: models the corrected code of the Findings row LightWaveObject/LightWaveObject.cpp:103-108 and of the Findings rows LightWaveObject/LWUtils.cpp:139, LightWaveObject/Chunks/Tags.cpp:22, LightWaveObject/Chunks/Surface.cpp:37 and LightWaveObject/Chunks/Layer.cpp:79: it walks with the corrected advance and the corrected chunk parsers.
- LightWave.LightWaveObject.Read: models the corrected code of the Findings row LightWaveObject/LightWaveObject.cpp:103-108 and of the Findings rows LightWaveObject/LWUtils.cpp:139, LightWaveObject/Chunks/Tags.cpp:22, LightWaveObject/Chunks/Surface.cpp:37 and LightWaveObject/Chunks/Layer.cpp:79: it walks with the corrected advance and the corrected chunk parsers: a TAGS chunk keeps its last tag, a layer name is read from the chunk, and a length of 0xFFFFFFF8 does not stall.
- MeshReader.LoadOf: models the corrected code of the Findings row ObjectReader.cpp:25: it accepts a read that returned EXIT_SUCCESS, where the source rejects it, and reads through the corrected `Read`.
- MeshReader.LoadsFirstLayer: models the corrected code of the Findings row ObjectReader.cpp:25: it is stated for the corrected acceptance test and the corrected `Read`.
- MeshReader.ObjectReader.ReadObjectFile: models the corrected code of the Findings row ObjectReader.cpp:25: it accepts a read that returned EXIT_SUCCESS, where the source rejects it, and reads through the corrected `Read`.
- MeshReader.ObjectReader.LoadRead: models the corrected code of the Findings row ObjectReader.cpp:25: it accepts a read that returned EXIT_SUCCESS, where the source rejects it.

## Findings

| source | as written | input that shows it | evidently intended | confidence | as-written member | corrected member |
|---|---|---|---|---|---|---|
| LightWaveObject/LWUtils.cpp:139 | `buffer[0] == 255` compares a signed `char` (-128..127) with 255, so it is never true and every VX index is read as two bytes | the index bytes FF 00 00 07 are read as 0xFF00 over two bytes | a first byte of 0xFF marks a four-byte index | not executed | LWUtils.VxAsWrittenMisreadsFourByteIndex | LWUtils.Vx |
| LightWaveObject/LightWaveObject.cpp:103-108 | the chunk length is a U4 passed through `int` into a 32-bit `size_t`, and the advance wraps, so a length of 0xFFFFFFF8 leaves the offset unchanged and the loop never ends | a chunk header whose length bytes are FF FF FF F8, at an offset within the file length | the offset moves past the header and the padded length | not executed | LightWave.AdvanceAsWrittenStalls | LightWave.Advance |
| LightWaveObject/Chunks/Surface.cpp:37 | the sub-chunk size is stored in a `short`, so a size of 0xFFFA becomes -6 and the skip returns the offset to the sub-chunk's start, looping forever | an unknown sub-chunk whose size bytes are FF FA | sizes are unsigned 16-bit values and the skip moves forward | not executed | SurfaceChunk.SkipAsWrittenStalls | SurfaceChunk.Skip |
| LightWaveObject/Chunks/Layer.cpp:79 | the name is read from `rawChunk.name`, the one-byte tail of the 25-byte local copy, so any non-empty name is read past the copy | a LAYR chunk whose name is "Layer 1" | the name is read from the chunk buffer at offset 24 | not executed | LayerChunk.LayerNameAsWrittenOverruns | LayerChunk.Layer.Parse |
| LightWaveObject/Chunks/Tags.cpp:22 | the loop runs while `offset <= header.length`, but the offset counts from the chunk header and the data ends at `header.length + 8`, so tags starting in the last 7 bytes, after `header.length`, are dropped | a 14-byte TAGS chunk holding "Default" and "Glass" yields only "Default" | every tag of the chunk is read, up to `header.length + 8` | not executed | TagsChunk.TagsAsWrittenDropsLastTag | TagsChunk.Tags.Parse |
| ObjectReader.cpp:25 | `!lwObject->Read(...)` treats EXIT_SUCCESS (0) as a failure and EXIT_FAILURE (1) as a success, so a readable file is reported as unreadable and no file ever loads | any existing LWO2 file | the file is read when `Read` returns EXIT_SUCCESS | not executed | MeshReader.AsWrittenNeverLoads | MeshReader.LoadsFirstLayer |
