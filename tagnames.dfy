/**
 * The tag tables of LWUtils.cpp: four-letter chunk tags and surface
 * sub-chunk tags to their enumerations, and chunk tags back to text.
 */
module TagNames {

  /**
   * `tag == "abcd"` for a four-letter literal, compared letter by letter
   * (Is4Iff shows the two are the same test).
   */
  predicate Is4(tag: string, a: char, b: char, c: char, d: char)
  {
    |tag| == 4 && tag[0] == a && tag[1] == b && tag[2] == c && tag[3] == d
  }

  lemma Is4Iff(tag: string, a: char, b: char, c: char, d: char)
    ensures Is4(tag, a, b, c, d) <==> tag == [a, b, c, d]
  {
  }

  /** ChunkTag: the fifteen top-level chunk kinds the reader knows, and UNKNOWN. */
  datatype ChunkTag =
    | LAYR | PNTS | VMAP | POLS | TAGS | PTAG | VMAD | VMPA
    | ENVL | CLIP | SURF | BBOX | DESC | TEXT | ICON | UNKNOWN

  /** convertTagStringTagToEnum: the first listed name equal to the string, else UNKNOWN. */
  function TagFromString(tag: string): ChunkTag
  {
    if Is4(tag, 'L','A','Y','R') then LAYR
    else if Is4(tag, 'P','N','T','S') then PNTS
    else if Is4(tag, 'V','M','A','P') then VMAP
    else if Is4(tag, 'P','O','L','S') then POLS
    else if Is4(tag, 'T','A','G','S') then TAGS
    else if Is4(tag, 'P','T','A','G') then PTAG
    else if Is4(tag, 'V','M','A','D') then VMAD
    else if Is4(tag, 'V','M','P','A') then VMPA
    else if Is4(tag, 'E','N','V','L') then ENVL
    else if Is4(tag, 'C','L','I','P') then CLIP
    else if Is4(tag, 'S','U','R','F') then SURF
    else if Is4(tag, 'B','B','O','X') then BBOX
    else if Is4(tag, 'D','E','S','C') then DESC
    else if Is4(tag, 'T','E','X','T') then TEXT
    else if Is4(tag, 'I','C','O','N') then ICON
    else UNKNOWN
  }

  /** convertTagEnumToString */
  function TagToString(t: ChunkTag): string
  {
    match t
    case LAYR => "LAYR"
    case PNTS => "PNTS"
    case VMAP => "VMAP"
    case POLS => "POLS"
    case TAGS => "TAGS"
    case PTAG => "PTAG"
    case VMAD => "VMAD"
    case VMPA => "VMPA"
    case ENVL => "ENVL"
    case CLIP => "CLIP"
    case SURF => "SURF"
    case BBOX => "BBOX"
    case DESC => "DESC"
    case TEXT => "TEXT"
    case ICON => "ICON"
    case UNKNOWN => "UNKNOWN"
  }

  /** Converting a tag to text and back gives the tag, UNKNOWN included. */
  lemma TagRoundTrip(t: ChunkTag)
    ensures TagFromString(TagToString(t)) == t
  {
  }

  /** A string the table recognises is the name of the tag it maps to. */
  lemma TagRecognisedIsName(s: string)
    requires TagFromString(s) != UNKNOWN
    ensures TagToString(TagFromString(s)) == s
  {
  }

  /**
   * A string maps to UNKNOWN exactly when it is none of the fifteen names
   * TagToString gives the known tags; every recognised string has four letters.
   */
  lemma TagFromStringUnknownIff(s: string)
    ensures TagFromString(s) == UNKNOWN <==> forall t :: t != UNKNOWN ==> TagToString(t) != s
    ensures TagFromString(s) != UNKNOWN ==> |s| == 4
  {
    if TagFromString(s) != UNKNOWN {
      TagRecognisedIsName(s);
    } else {
      forall t | t != UNKNOWN ensures TagToString(t) != s {
        TagRoundTrip(t);
      }
    }
  }

  /** SurfaceSubChunkTag: the 28 surface sub-chunk kinds, and UNKNOWN (here SUB_UNKNOWN). */
  datatype SurfaceSubChunkTag =
    | COLR | DIFF | LUMI | SPEC | REFL | TRAN | TRNL | GLOS | BLOK | SHRP
    | BUMP | SIDE | SMAN | RFOP | RIMG | RSAN | RBLR | RIND | TROP | TIMG
    | TBLR | CLRH | CLRF | ADTR | GLOW | LINE | ALPH | VCOL | SUB_UNKNOWN

  /** convertSurfaceTagStringToEnum */
  function SurfaceTagFromString(tag: string): SurfaceSubChunkTag
  {
    if Is4(tag, 'C','O','L','R') then COLR
    else if Is4(tag, 'D','I','F','F') then DIFF
    else if Is4(tag, 'L','U','M','I') then LUMI
    else if Is4(tag, 'S','P','E','C') then SPEC
    else if Is4(tag, 'R','E','F','L') then REFL
    else if Is4(tag, 'T','R','A','N') then TRAN
    else if Is4(tag, 'T','R','N','L') then TRNL
    else if Is4(tag, 'G','L','O','S') then GLOS
    else if Is4(tag, 'B','L','O','K') then BLOK
    else if Is4(tag, 'S','H','R','P') then SHRP
    else if Is4(tag, 'B','U','M','P') then BUMP
    else if Is4(tag, 'S','I','D','E') then SIDE
    else if Is4(tag, 'S','M','A','N') then SMAN
    else if Is4(tag, 'R','F','O','P') then RFOP
    else if Is4(tag, 'R','I','M','G') then RIMG
    else if Is4(tag, 'R','S','A','N') then RSAN
    else if Is4(tag, 'R','B','L','R') then RBLR
    else if Is4(tag, 'R','I','N','D') then RIND
    else if Is4(tag, 'T','R','O','P') then TROP
    else if Is4(tag, 'T','I','M','G') then TIMG
    else if Is4(tag, 'T','B','L','R') then TBLR
    else if Is4(tag, 'C','L','R','H') then CLRH
    else if Is4(tag, 'C','L','R','F') then CLRF
    else if Is4(tag, 'A','D','T','R') then ADTR
    else if Is4(tag, 'G','L','O','W') then GLOW
    else if Is4(tag, 'L','I','N','E') then LINE
    else if Is4(tag, 'A','L','P','H') then ALPH
    else if Is4(tag, 'V','C','O','L') then VCOL
    else SUB_UNKNOWN
  }

  /**
   * The four-letter name of each surface sub-chunk kind. The source has no
   * such function; it is the reference the string table is checked against.
   */
  function SurfaceTagName(t: SurfaceSubChunkTag): string
    requires t != SUB_UNKNOWN
  {
    match t
    case COLR => "COLR"
    case DIFF => "DIFF"
    case LUMI => "LUMI"
    case SPEC => "SPEC"
    case REFL => "REFL"
    case TRAN => "TRAN"
    case TRNL => "TRNL"
    case GLOS => "GLOS"
    case BLOK => "BLOK"
    case SHRP => "SHRP"
    case BUMP => "BUMP"
    case SIDE => "SIDE"
    case SMAN => "SMAN"
    case RFOP => "RFOP"
    case RIMG => "RIMG"
    case RSAN => "RSAN"
    case RBLR => "RBLR"
    case RIND => "RIND"
    case TROP => "TROP"
    case TIMG => "TIMG"
    case TBLR => "TBLR"
    case CLRH => "CLRH"
    case CLRF => "CLRF"
    case ADTR => "ADTR"
    case GLOW => "GLOW"
    case LINE => "LINE"
    case ALPH => "ALPH"
    case VCOL => "VCOL"
  }

  lemma SurfaceTagRoundTrip0(t: SurfaceSubChunkTag)
    requires t == COLR || t == DIFF || t == LUMI || t == SPEC || t == REFL || t == TRAN || t == TRNL
    ensures SurfaceTagFromString(SurfaceTagName(t)) == t
  {
  }

  lemma SurfaceTagRoundTrip1(t: SurfaceSubChunkTag)
    requires t == GLOS || t == BLOK || t == SHRP || t == BUMP || t == SIDE || t == SMAN || t == RFOP
    ensures SurfaceTagFromString(SurfaceTagName(t)) == t
  {
  }

  lemma SurfaceTagRoundTrip2(t: SurfaceSubChunkTag)
    requires t == RIMG || t == RSAN || t == RBLR || t == RIND || t == TROP || t == TIMG || t == TBLR
    ensures SurfaceTagFromString(SurfaceTagName(t)) == t
  {
  }

  lemma SurfaceTagRoundTrip3(t: SurfaceSubChunkTag)
    requires t == CLRH || t == CLRF || t == ADTR || t == GLOW || t == LINE || t == ALPH || t == VCOL
    ensures SurfaceTagFromString(SurfaceTagName(t)) == t
  {
  }

  /** Each of the 28 names maps back to its own kind. */
  lemma SurfaceTagRoundTrip(t: SurfaceSubChunkTag)
    requires t != SUB_UNKNOWN
    ensures SurfaceTagFromString(SurfaceTagName(t)) == t
  {
    if t == COLR || t == DIFF || t == LUMI || t == SPEC || t == REFL || t == TRAN || t == TRNL {
      SurfaceTagRoundTrip0(t);
    } else if t == GLOS || t == BLOK || t == SHRP || t == BUMP || t == SIDE || t == SMAN || t == RFOP {
      SurfaceTagRoundTrip1(t);
    } else if t == RIMG || t == RSAN || t == RBLR || t == RIND || t == TROP || t == TIMG || t == TBLR {
      SurfaceTagRoundTrip2(t);
    } else {
      SurfaceTagRoundTrip3(t);
    }
  }

  lemma SurfaceTagRecognised0(s: string)
    requires SurfaceTagFromString(s) == COLR || SurfaceTagFromString(s) == DIFF || SurfaceTagFromString(s) == LUMI || SurfaceTagFromString(s) == SPEC || SurfaceTagFromString(s) == REFL || SurfaceTagFromString(s) == TRAN || SurfaceTagFromString(s) == TRNL
    ensures SurfaceTagName(SurfaceTagFromString(s)) == s
  {
  }

  lemma SurfaceTagRecognised1(s: string)
    requires SurfaceTagFromString(s) == GLOS || SurfaceTagFromString(s) == BLOK || SurfaceTagFromString(s) == SHRP || SurfaceTagFromString(s) == BUMP || SurfaceTagFromString(s) == SIDE || SurfaceTagFromString(s) == SMAN || SurfaceTagFromString(s) == RFOP
    ensures SurfaceTagName(SurfaceTagFromString(s)) == s
  {
  }

  lemma SurfaceTagRecognised2(s: string)
    requires SurfaceTagFromString(s) == RIMG || SurfaceTagFromString(s) == RSAN || SurfaceTagFromString(s) == RBLR || SurfaceTagFromString(s) == RIND || SurfaceTagFromString(s) == TROP || SurfaceTagFromString(s) == TIMG || SurfaceTagFromString(s) == TBLR
    ensures SurfaceTagName(SurfaceTagFromString(s)) == s
  {
  }

  lemma SurfaceTagRecognised3(s: string)
    requires SurfaceTagFromString(s) == CLRH || SurfaceTagFromString(s) == CLRF || SurfaceTagFromString(s) == ADTR || SurfaceTagFromString(s) == GLOW || SurfaceTagFromString(s) == LINE || SurfaceTagFromString(s) == ALPH || SurfaceTagFromString(s) == VCOL
    ensures SurfaceTagName(SurfaceTagFromString(s)) == s
  {
  }

  /** A string the table recognises is the name of the kind it maps to. */
  lemma SurfaceTagRecognisedIsName(s: string)
    requires SurfaceTagFromString(s) != SUB_UNKNOWN
    ensures SurfaceTagName(SurfaceTagFromString(s)) == s
  {
    var t := SurfaceTagFromString(s);
    if t == COLR || t == DIFF || t == LUMI || t == SPEC || t == REFL || t == TRAN || t == TRNL {
      SurfaceTagRecognised0(s);
    } else if t == GLOS || t == BLOK || t == SHRP || t == BUMP || t == SIDE || t == SMAN || t == RFOP {
      SurfaceTagRecognised1(s);
    } else if t == RIMG || t == RSAN || t == RBLR || t == RIND || t == TROP || t == TIMG || t == TBLR {
      SurfaceTagRecognised2(s);
    } else {
      SurfaceTagRecognised3(s);
    }
  }

  /**
   * The table maps the 28 names to 28 distinct kinds, and every other
   * string to UNKNOWN.
   */
  lemma SurfaceTagTable(t: SurfaceSubChunkTag, u: SurfaceSubChunkTag, s: string)
    ensures t != SUB_UNKNOWN && u != SUB_UNKNOWN && t != u ==> SurfaceTagName(t) != SurfaceTagName(u)
    ensures SurfaceTagFromString(s) == SUB_UNKNOWN <==>
              forall v :: v != SUB_UNKNOWN ==> SurfaceTagName(v) != s
  {
    if t != SUB_UNKNOWN && u != SUB_UNKNOWN {
      SurfaceTagRoundTrip(t);
      SurfaceTagRoundTrip(u);
    }
    if SurfaceTagFromString(s) != SUB_UNKNOWN {
      SurfaceTagRecognisedIsName(s);
    } else {
      forall v | v != SUB_UNKNOWN ensures SurfaceTagName(v) != s {
        SurfaceTagRoundTrip(v);
      }
    }
  }
}
