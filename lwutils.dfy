/**
 * The value parsers of LWUtils.cpp. Each reads from a position `at` of the
 * buffer and returns the value together with the caller's offset advanced by
 * the number of bytes consumed (the source's `unsigned& offset` out-parameter).
 */
module LWUtils {
  import opened Codec

  /** A variable-length index and the number of bytes it occupies. */
  datatype VxRead = VxRead(value: nat, width: nat)

  /**
   * parseVxValues as written: `buffer[0] == 255` compares a signed `char`
   * (-128..127) with 255, so the four-byte branch is never taken.
   */
  function VxAsWritten(buf: Bytes, at: nat): (r: VxRead)
    requires at + 2 <= |buf|
  {
    var twoByte := VxRead(U2At(buf, at), 2);
    var fourByte := if at + 4 <= |buf| then VxRead(U4At(buf, at), 4) else twoByte;
    if SignedChar(buf[at]) == 255 then fourByte else twoByte
  }

  /** As written, every VX is read as two bytes, whatever its first byte. */
  lemma VxAsWrittenAlwaysTwoBytes(buf: Bytes, at: nat)
    requires at + 2 <= |buf|
    ensures VxAsWritten(buf, at) == VxRead(U2At(buf, at), 2)
  {
  }

  /**
   * The discrepancy: the four-byte index FF 00 00 07 is read as the two-byte
   * value 0xFF00, a value CONVERT_VX_LENGTH itself says needs four bytes,
   * and the offset falls two bytes short.
   */
  lemma VxAsWrittenMisreadsFourByteIndex()
    ensures VxAsWritten([0xFF, 0x00, 0x00, 0x07], 0) == VxRead(0xFF00, 2)
    ensures VxLength(0xFF00) == 4
    ensures Vx([0xFF, 0x00, 0x00, 0x07], 0) == VxRead(0xFF00_0007, 4)
  {
  }

  /** The bytes a VX at `at` needs: two, or four when the first byte is 0xFF. */
  predicate VxFits(buf: Bytes, at: nat)
  {
    at + 2 <= |buf| && (buf[at] == 0xFF ==> at + 4 <= |buf|)
  }

  /**
   * parseVxValues with the corrected comparison (first byte 0xFF means
   * a four-byte index). The four-byte value is the unmasked U4, as the branch
   * computes it; it is assigned to an `unsigned`, so it is not negative.
   */
  function Vx(buf: Bytes, at: nat): (r: VxRead)
    requires VxFits(buf, at)
    ensures r.width == 2 || r.width == 4
    ensures r.width == 4 <==> buf[at] == 0xFF
    ensures r.width == 2 ==> r.value == U2At(buf, at)
    ensures r.width == 4 ==> r.value == U4At(buf, at)
  {
    if buf[at] == 0xFF then VxRead(U4At(buf, at), 4) else VxRead(U2At(buf, at), 2)
  }

  /**
   * The two forms of the width rule agree: the width Vx consumes is the width
   * CONVERT_VX_LENGTH gives for the index's first two bytes.
   */
  lemma VxWidthMatchesVxLength(buf: Bytes, at: nat)
    requires VxFits(buf, at)
    ensures Vx(buf, at).width == VxLength(U2At(buf, at))
  {
    var v := U2At(buf, at);
    assert v / 256 == buf[at];
    if buf[at] == 0xFF {
      assert v >= 0xFF00;
    } else {
      assert v < 0xFF00;
    }
  }

  /** parseVxValues */
  method ParseVxValues(buffer: Bytes, at: nat, offset: nat) returns (uval: nat, next: nat)
    requires VxFits(buffer, at)
    ensures uval == Vx(buffer, at).value
    ensures next == offset + Vx(buffer, at).width
    ensures next == offset + 2 || next == offset + 4
  {
    if buffer[at] == 0xFF {
      uval := U4At(buffer, at);
      next := offset + 4;
    } else {
      uval := U2At(buffer, at);
      next := offset + 2;
    }
  }

  /** parseFloatValue: a float copied without byte swap; the offset moves by exactly 4. */
  method ParseFloatValue(buffer: Bytes, at: nat, offset: nat) returns (fval: Word4, next: nat)
    requires at + 4 <= |buffer|
    ensures WordBytes(fval) == buffer[at..at + 4]
    ensures next == offset + 4
  {
    fval := FloatBytesAt(buffer, at);
    next := offset + 4;
  }

  /** parseCol12Value: a COL12 (three swapped floats); the offset moves by sizeof(COL12) = 12. */
  method ParseCol12Value(buffer: Bytes, at: nat, offset: nat) returns (col: Col12, next: nat)
    requires at + 12 <= |buffer|
    ensures col == DecodeCol12(buffer, at)
    ensures next == offset + 12
  {
    col := DecodeCol12(buffer, at);
    next := offset + 12;
  }

  /** The bytes parseFloatVxValues needs: a float, then a VX right after it. */
  predicate FloatVxFits(buf: Bytes, at: nat)
  {
    at + 4 <= |buf| && VxFits(buf, at + 4)
  }

  /**
   * parseFloatVxValues: a float copied without byte swap, then the VX that
   * starts 4 bytes later; the offset moves by 4 + (2 or 4).
   */
  method ParseFloatVxValues(buffer: Bytes, at: nat, offset: nat) returns (fval: Word4, vx: nat, next: nat)
    requires FloatVxFits(buffer, at)
    ensures WordBytes(fval) == buffer[at..at + 4]
    ensures vx == Vx(buffer, at + 4).value
    ensures next == offset + 4 + Vx(buffer, at + 4).width
    ensures next == offset + 6 || next == offset + 8
  {
    fval, next := ParseFloatValue(buffer, at, offset);
    vx, next := ParseVxValues(buffer, at + 4, next);
  }
}
