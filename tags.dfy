/** The TAGS chunk (Tags.h, Tags.cpp): the ordered list of tag strings. */
module TagsChunk {
  import opened Wrappers
  import opened Codec
  import opened TagNames
  import opened Chunks

  /**
   * `string(const char*)`: the bytes from `at` up to, and not including, the
   * first zero byte. None where the buffer holds no zero byte from `at` on.
   */
  function CStringAt(buf: Bytes, at: nat): Option<string>
  {
    match FirstZero(buf, at)
    case None => None
    case Some(z) => Some(ToStr(buf[at..z]))
  }

  /** The string is there iff a terminator is; it is the nonzero bytes before the terminator. */
  lemma CStringAtSpec(buf: Bytes, at: nat)
    ensures CStringAt(buf, at).Some? <==> FirstZero(buf, at).Some?
    ensures CStringAt(buf, at).Some? ==> var s := CStringAt(buf, at).value;
              at + |s| < |buf| && buf[at + |s|] == 0 &&
              forall j :: 0 <= j < |s| ==> s[j] as int == buf[at + j] && buf[at + j] != 0
  {
    FirstZeroSpec(buf, at);
  }

  /** The bytes a tag occupies: its characters and the terminator, padded to even. */
  function TagSize(tag: string): nat
  {
    PadLength(|tag| + 1)
  }

  /** The bytes a list of tags occupies. */
  function TagsSize(ts: seq<string>): nat
  {
    if ts == [] then 0 else TagSize(ts[0]) + TagsSize(ts[1..])
  }

  lemma {:induction false} TagsSizeAppend(a: seq<string>, b: seq<string>)
    ensures TagsSize(a + b) == TagsSize(a) + TagsSize(b)
    decreases |a|
  {
    if a == [] {
      assert a + b == b;
    } else {
      assert (a + b)[1..] == a[1..] + b;
      TagsSizeAppend(a[1..], b);
    }
  }

  /**
   * The loop of parse as a function: read a tag at chunk offset `off` while
   * `off < end`, then skip its padded size. None where the source would read
   * past the buffer.
   */
  function TagsFrom(buf: Bytes, at: nat, off: nat, end: nat): Option<seq<string>>
    decreases end - off
  {
    if off >= end then Some([])
    else
      var tag := CStringAt(buf, at + off);
      if tag.None? then None
      else
        var rest := TagsFrom(buf, at, off + TagSize(tag.value), end);
        if rest.None? then None else Some([tag.value] + rest.value)
  }

  /**
   * parse as written: the loop runs while `offset <= header.length`, an
   * offset that counts the 8 header bytes compared with a length that does
   * not.
   */
  function TagsAsWritten(buf: Bytes, at: nat, len: nat): Option<seq<string>>
  {
    TagsFrom(buf, at, CHUNK_DATA_OFFSET, len + 1)
  }

  /** parse with the bound the code intends: every tag that starts inside the payload, that is below `header.length + 8`. */
  function TagsOfChunk(buf: Bytes, at: nat, len: nat): Option<seq<string>>
  {
    TagsFrom(buf, at, CHUNK_DATA_OFFSET, len + CHUNK_DATA_OFFSET)
  }

  /** The tags read reach the bound: their padded sizes add up to at least `end - off`. */
  lemma {:induction false} TagsReachEnd(buf: Bytes, at: nat, off: nat, end: nat)
    requires TagsFrom(buf, at, off, end).Some?
    ensures off + TagsSize(TagsFrom(buf, at, off, end).value) >= end
    decreases end - off
  {
    if off < end {
      var ts := TagsFrom(buf, at, off, end).value;
      var tag := CStringAt(buf, at + off).value;
      TagsReachEnd(buf, at, off + TagSize(tag), end);
      assert ts[1..] == TagsFrom(buf, at, off + TagSize(tag), end).value;
    }
  }

  /**
   * The tags lie back to back in file order: tag i is the string at chunk
   * offset off + (the sizes of the tags before it), and that offset is below
   * the bound.
   */
  lemma {:induction false} TagsLayout(buf: Bytes, at: nat, off: nat, end: nat, i: nat)
    requires TagsFrom(buf, at, off, end).Some?
    requires i < |TagsFrom(buf, at, off, end).value|
    ensures var ts := TagsFrom(buf, at, off, end).value;
            var pos := off + TagsSize(ts[..i]);
            pos < end && CStringAt(buf, at + pos) == Some(ts[i])
    decreases i
  {
    var ts := TagsFrom(buf, at, off, end).value;
    var tag := CStringAt(buf, at + off).value;
    var rest := TagsFrom(buf, at, off + TagSize(tag), end).value;
    assert ts == [tag] + rest;
    if i == 0 {
      assert ts[..0] == [];
    } else {
      TagsLayout(buf, at, off + TagSize(tag), end, i - 1);
      assert ts[..i] == [tag] + rest[..i - 1];
      TagsSizeAppend([tag], rest[..i - 1]);
      assert [tag][1..] == [];
    }
  }

  /**
   * As written, the second tag of a 14-byte payload "Default\0Glass\0" is
   * dropped: it starts at chunk offset 16, above the declared length. With
   * the corrected bound both tags are read.
   */
  lemma TagsAsWrittenDropsLastTag()
    ensures var buf: Bytes := [0x54, 0x41, 0x47, 0x53, 0, 0, 0, 14,
                               0x44, 0x65, 0x66, 0x61, 0x75, 0x6C, 0x74, 0,
                               0x47, 0x6C, 0x61, 0x73, 0x73, 0];
            TagsAsWritten(buf, 0, 14) == Some([ToStr(buf[8..15])]) &&
            TagsOfChunk(buf, 0, 14) == Some([ToStr(buf[8..15]), ToStr(buf[16..21])])
  {
    var buf: Bytes := [0x54, 0x41, 0x47, 0x53, 0, 0, 0, 14,
                       0x44, 0x65, 0x66, 0x61, 0x75, 0x6C, 0x74, 0,
                       0x47, 0x6C, 0x61, 0x73, 0x73, 0];
    var first, second := ToStr(buf[8..15]), ToStr(buf[16..21]);
    FirstZeroIs(buf, 8, 15);
    assert CStringAt(buf, 8) == Some(first);
    assert TagSize(first) == 8;
    FirstZeroIs(buf, 16, 21);
    assert CStringAt(buf, 16) == Some(second);
    assert TagSize(second) == 6;
    assert TagsFrom(buf, 0, 16, 15) == Some([]);
    assert TagsFrom(buf, 0, 22, 22) == Some([]);
    assert [second] + [] == [second];
    assert TagsFrom(buf, 0, 16, 22) == Some([second]);
    assert [first] + [] == [first];
    assert TagsFrom(buf, 0, 8, 15) == Some([first]);
    assert [first] + [second] == [first, second];
    assert TagsFrom(buf, 0, 8, 22) == Some([first, second]);
  }

  /** One step of the loop: a readable tag heads the rest; an unreadable one makes the parse fail. */
  lemma TagsFromStep(buf: Bytes, at: nat, off: nat, end: nat, read: seq<string>)
    requires off < end
    ensures CStringAt(buf, at + off).None? ==> Prefix(read, TagsFrom(buf, at, off, end)).None?
    ensures CStringAt(buf, at + off).Some? ==>
      var tag := CStringAt(buf, at + off).value;
      Prefix(read, TagsFrom(buf, at, off, end)) == Prefix(read + [tag], TagsFrom(buf, at, off + TagSize(tag), end))
  {
    if CStringAt(buf, at + off).Some? {
      var tag := CStringAt(buf, at + off).value;
      match TagsFrom(buf, at, off + TagSize(tag), end)
      case None =>
      case Some(rest) =>
        assert read + ([tag] + rest) == (read + [tag]) + rest;
    }
  }

  /** The same step, stated for a tag already read and the offset past it. */
  lemma TagsFromNext(buf: Bytes, at: nat, off: nat, end: nat, read: seq<string>, tag: string, next: nat)
    requires off < end && CStringAt(buf, at + off) == Some(tag) && next == off + TagSize(tag)
    ensures Prefix(read, TagsFrom(buf, at, off, end)) == Prefix(read + [tag], TagsFrom(buf, at, next, end))
  {
    TagsFromStep(buf, at, off, end, read);
  }

  /** `read + rest`, when there is a rest. */
  function Prefix(read: seq<string>, r: Option<seq<string>>): Option<seq<string>>
  {
    match r
    case None => None
    case Some(rest) => Some(read + rest)
  }

  class Tags {
    var tags: seq<string>

    /** `Tags()`: an empty TAGS chunk. */
    constructor ()
      ensures tags == []
    {
      tags := [];
    }

    /** The chunk value a layer stores. */
    function Value(): (c: Chunk)
      reads this
      ensures GetTag(c) == TAGS
      ensures c.TagsChunk? && c.tags == tags
    {
      TagsChunk(tags)
    }

    /**
     * parse, with the corrected bound: from chunk offset 8, while the offset
     * is below `header.length + 8`, read a zero-terminated string, append it
     * and skip it with its terminator, padded to even.
     */
    method Parse(buf: Bytes, at: nat, header: ChunkHeader) returns (ok: bool)
      modifies this
      ensures ok <==> TagsOfChunk(buf, at, header.length).Some?
      ensures ok ==> tags == old(tags) + TagsOfChunk(buf, at, header.length).value
    {
      var offset := CHUNK_DATA_OFFSET;
      var end := header.length + CHUNK_DATA_OFFSET;
      ghost var read: seq<string> := [];
      ghost var start := tags;
      ghost var total := TagsFrom(buf, at, offset, end);
      if total.Some? {
        assert [] + total.value == total.value;
      }
      while offset < end
        invariant tags == start + read
        invariant Prefix(read, TagsFrom(buf, at, offset, end)) == total
        decreases end - offset
      {
        var tag := CStringAt(buf, at + offset);
        if tag.None? {
          TagsFromStep(buf, at, offset, end, read);
          return false;
        }
        var stringLen := |tag.value| + 1;
        var next := offset + if stringLen % 2 == 0 then stringLen else stringLen + 1;
        TagsFromNext(buf, at, offset, end, read, tag.value, next);
        tags := tags + [tag.value];
        read := read + [tag.value];
        offset := next;
      }
      assert read + [] == read;
      return true;
    }

    /** getDescription: every tag followed by ", ", in order. */
    method GetDescription() returns (desc: string)
      ensures desc == TagsDescription(tags)
      ensures desc == Chunks.GetDescription(Value())
    {
      desc := "";
      var i := 0;
      while i < |tags|
        invariant 0 <= i <= |tags|
        invariant desc == TagsDescription(tags[..i])
      {
        assert tags[..i + 1][..i] == tags[..i];
        desc := desc + tags[i] + ", ";
        i := i + 1;
      }
      assert tags[..i] == tags;
    }
  }
}
