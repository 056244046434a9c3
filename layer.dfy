/**
 * The LAYR chunk (Layer.h, Layer.cpp): a layer's header record and the list
 * of chunks that belong to the layer.
 */
module LayerChunk {
  import opened Wrappers
  import opened Codec
  import opened TagNames
  import opened Chunks

  /** sizeof(LWO_CHUNK_LAYER_RAW): tag 4, length 4, number 2, flags 2, pivot 12, first name byte 1. */
  const LAYER_RAW_SIZE: nat := 25

  /** The offset of the name in the raw layer record. */
  const LAYER_NAME_OFFSET: nat := 24

  /** `parent = -1` stored in an `unsigned`. */
  const NO_PARENT: nat := 0xFFFF_FFFF

  /** LWO_CHUNK_LAYER: the fields parse decodes. */
  datatype LayerRecord = LayerRecord(number: nat, flags: nat, pivot: Vec12, name: string, parent: nat)

  /**
   * The layer record of the chunk at `at` with declared length `len`, the
   * name read at chunk offset 24 (terminator included). The parent U2
   * follows the padded name when that offset is below `len + 8` (`size_t`
   * arithmetic); otherwise the parent is -1. None where the source would
   * read past the buffer.
   */
  function LayerRecordAt(buf: Bytes, at: nat, len: nat): Option<LayerRecord>
  {
    if at + LAYER_RAW_SIZE > |buf| then None
    else match ZStringAt(buf, at + LAYER_NAME_OFFSET)
      case None => None
      case Some(name) =>
        var offsetToParent := LAYER_RAW_SIZE - 1 + PadLength(|name|);
        var number, flags, pivot := U2At(buf, at + 8), U2At(buf, at + 10), DecodeVec12(buf, at + 12);
        if offsetToParent < SizeTOf(len + CHUNK_DATA_OFFSET) then
          if at + offsetToParent + 2 > |buf| then None
          else Some(LayerRecord(number, flags, pivot, name, U2At(buf, at + offsetToParent)))
        else Some(LayerRecord(number, flags, pivot, name, NO_PARENT))
  }

  /**
   * The layout of the record: number at offset 8, flags at 10, pivot in the
   * 12 bytes from 12, the zero-terminated name from 24, and a parent U2
   * exactly when 24 + pad(|name|) < len + 8 (|name| counting the
   * terminator), the sentinel 0xFFFFFFFF otherwise.
   */
  lemma LayerRecordLayout(buf: Bytes, at: nat, len: nat)
    requires LayerRecordAt(buf, at, len).Some?
    requires len + CHUNK_DATA_OFFSET < TWO_32
    ensures var r := LayerRecordAt(buf, at, len).value;
            var offsetToParent := LAYER_NAME_OFFSET + PadLength(|r.name|);
            at + LAYER_RAW_SIZE <= |buf| &&
            r.number == U2At(buf, at + 8) && r.flags == U2At(buf, at + 10) &&
            EncodeVec12(r.pivot) == buf[at + 12..at + 24] &&
            Some(r.name) == ZStringAt(buf, at + LAYER_NAME_OFFSET) &&
            (offsetToParent < len + CHUNK_DATA_OFFSET ==> at + offsetToParent + 2 <= |buf| && r.parent == U2At(buf, at + offsetToParent)) &&
            (offsetToParent >= len + CHUNK_DATA_OFFSET ==> r.parent == NO_PARENT)
  {
    Vec12RoundTrip(LayerRecordAt(buf, at, len).value.pivot, buf, at + 12);
  }

  /**
   * parse as written reads the name from the 25-byte local copy of the raw
   * record, whose byte 24 is only the name's first byte.
   */
  function LayerNameAsWritten(buf: Bytes, at: nat): Option<string>
    requires at + LAYER_RAW_SIZE <= |buf|
  {
    ZStringAt(buf[at..at + LAYER_RAW_SIZE], LAYER_NAME_OFFSET)
  }

  /**
   * The discrepancy: for every non-empty name the as-written read runs off
   * the end of the copy (None) while the name is there in the chunk; only
   * an empty name (the terminator alone) matches.
   */
  lemma LayerNameAsWrittenOverruns(buf: Bytes, at: nat)
    requires at + LAYER_RAW_SIZE <= |buf|
    ensures buf[at + LAYER_NAME_OFFSET] != 0 ==> LayerNameAsWritten(buf, at).None?
    ensures buf[at + LAYER_NAME_OFFSET] == 0 ==> LayerNameAsWritten(buf, at) == ZStringAt(buf, at + LAYER_NAME_OFFSET)
  {
    var copy := buf[at..at + LAYER_RAW_SIZE];
    assert copy[LAYER_NAME_OFFSET] == buf[at + LAYER_NAME_OFFSET];
    if buf[at + LAYER_NAME_OFFSET] == 0 {
      assert copy[LAYER_NAME_OFFSET..LAYER_NAME_OFFSET + 1] == buf[at + LAYER_NAME_OFFSET..at + LAYER_NAME_OFFSET + 1];
    } else {
      assert FirstZero(copy, LAYER_NAME_OFFSET + 1) == None;
    }
  }

  /** The outcome of the search for a tag: the index of the first match, no match, or a null entry met first. */
  datatype Search = Hit(index: nat) | Miss | NullEntry

  /** Every entry in [k, j) holds a chunk, and none of those chunks has the tag. */
  predicate NoMatchBetween(entries: seq<Entry>, tag: ChunkTag, k: nat, j: nat)
    requires k <= j <= |entries|
  {
    forall i :: k <= i < j ==> entries[i].Present? && GetTag(entries[i].chunk) != tag
  }

  /**
   * getChunk(tag) as a function: the first entry from `k` on whose chunk has
   * the tag. Each entry is dereferenced, so an emptied entry met before a
   * match is a null dereference.
   */
  function FindFrom(entries: seq<Entry>, tag: ChunkTag, k: nat): (r: Search)
    requires k <= |entries|
    decreases |entries| - k
    ensures r.Hit? ==> k <= r.index < |entries| && entries[r.index].Present? && GetTag(entries[r.index].chunk) == tag
    ensures r.Hit? ==> NoMatchBetween(entries, tag, k, r.index)
    ensures r.Miss? ==> NoMatchBetween(entries, tag, k, |entries|)
    ensures r.NullEntry? <==> exists j :: k <= j < |entries| && entries[j].MovedOut? && NoMatchBetween(entries, tag, k, j)
  {
    if k == |entries| then Miss
    else if entries[k].MovedOut? then NullEntry
    else if GetTag(entries[k].chunk) == tag then Hit(k)
    else FindFrom(entries, tag, k + 1)
  }

  class Layer {
    var chunks: seq<Entry>
    var name: string

    /** `Layer()`: no chunks and an empty name. */
    constructor ()
      ensures chunks == [] && name == ""
    {
      chunks := [];
      name := "";
    }

    /** The chunk value this layer is. */
    function Value(): (c: Chunk)
      reads this
      ensures GetTag(c) == LAYR
      ensures c.LayerChunk? && c.name == name && c.chunks == chunks
    {
      LayerChunk(name, chunks)
    }

    /** addChunk: append at the end; the earlier entries and the name are unchanged. */
    method AddChunk(chunk: Entry)
      modifies this
      ensures chunks == old(chunks) + [chunk]
      ensures name == old(name)
    {
      chunks := chunks + [chunk];
    }

    /** size: the number of entries. */
    function Size(): (n: nat)
      reads this
      ensures n == |chunks|
    {
      |chunks|
    }

    /**
     * getChunk(chunk, index): false for an index past the end, leaving the
     * caller's `chunk` as it was; otherwise `chunk` is assigned the entry's
     * chunk, which copies its base part, the tag. `ok` is false where the
     * entry is an emptied pointer, which the source dereferences.
     */
    method GetChunkAt(chunk: Chunk, chunkIndex: nat) returns (ok: bool, found: bool, result: Chunk)
      ensures ok <==> chunkIndex >= |chunks| || chunks[chunkIndex].Present?
      ensures ok ==> (found <==> chunkIndex < |chunks|)
      ensures ok && found ==> result == Plain(GetTag(chunks[chunkIndex].chunk))
      ensures ok && !found ==> result == chunk
    {
      if chunkIndex >= |chunks| {
        return true, false, chunk;
      }
      if chunks[chunkIndex].MovedOut? {
        return false, false, chunk;
      }
      return true, true, Plain(GetTag(chunks[chunkIndex].chunk));
    }

    /**
     * getChunk(tag): scan the entries in order and return the first whose
     * tag matches, None when none does; `ok` is false where an emptied entry
     * is dereferenced first.
     */
    method GetChunk(tag: ChunkTag) returns (ok: bool, r: Option<Chunk>)
      ensures ok <==> !FindFrom(chunks, tag, 0).NullEntry?
      ensures ok && FindFrom(chunks, tag, 0).Hit? ==> r == Some(chunks[FindFrom(chunks, tag, 0).index].chunk)
      ensures ok && FindFrom(chunks, tag, 0).Miss? ==> r == None
    {
      var i := 0;
      while i < |chunks|
        invariant 0 <= i <= |chunks|
        invariant FindFrom(chunks, tag, i) == FindFrom(chunks, tag, 0)
      {
        var prospective := chunks[i];
        if prospective.MovedOut? {
          return false, None;
        }
        if GetTag(prospective.chunk) == tag {
          return true, Some(prospective.chunk);
        }
        i := i + 1;
      }
      return true, None;
    }

    /**
     * parse: decode the layer record; only the name is kept. `ok` is false
     * where the source would read past the buffer.
     */
    method Parse(buf: Bytes, at: nat, header: ChunkHeader) returns (ok: bool)
      modifies this
      ensures ok <==> LayerRecordAt(buf, at, header.length).Some?
      ensures ok ==> name == LayerRecordAt(buf, at, header.length).value.name
      ensures !ok ==> name == old(name)
      ensures chunks == old(chunks)
    {
      if at + LAYER_RAW_SIZE > |buf| {
        return false;
      }
      var cookedName := ZStringAt(buf, at + LAYER_NAME_OFFSET);
      if cookedName.None? {
        return false;
      }
      // number, flags and pivot are decoded and dropped
      var number, flags, pivot := U2At(buf, at + 8), U2At(buf, at + 10), DecodeVec12(buf, at + 12);
      var adjustedStringLen := PadLength(|cookedName.value|);
      var offsetToParent := LAYER_RAW_SIZE - 1 + adjustedStringLen;
      var parent: nat;
      if offsetToParent < SizeTOf(header.length + CHUNK_DATA_OFFSET) {
        if at + offsetToParent + 2 > |buf| {
          return false;
        }
        parent := U2At(buf, at + offsetToParent);
      } else {
        parent := NO_PARENT;
      }
      name := cookedName.value;
      ok := true;
    }
  }
}
