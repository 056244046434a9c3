/**
 * Byte codec of the LWO2 reader (the helper macros and inline functions of
 * ChunkDefinitions.h): big-endian integers, the even-padding rule for strings,
 * the variable-length index width rule, string extraction and 4-byte floats.
 *
 * A file is a sequence of bytes. A float is kept as the four bytes it occupies
 * in memory (a `Word4`), never as a number: only byte order and offsets matter.
 */
module Codec {
  import opened Wrappers

  type byte = x: int | 0 <= x < 256
  type Bytes = seq<byte>

  const TWO_16: int := 0x1_0000
  const TWO_32: int := 0x1_0000_0000

  // ---------------------------------------------------------------------
  // Integers

  /** CONVERT_U2_BYTES_TO_INT: the big-endian 16-bit value of two bytes. */
  function U2(b0: byte, b1: byte): (r: nat)
    ensures r < TWO_16
    ensures r / 256 == b0 && r % 256 == b1
  {
    b0 * 256 + b1
  }

  function U2At(buf: Bytes, i: nat): (r: nat)
    requires i + 2 <= |buf|
    ensures r < TWO_16
  {
    U2(buf[i], buf[i + 1])
  }

  /** The two bytes whose big-endian value is `v`: the inverse of U2. */
  function EncodeU2(v: nat): (r: Bytes)
    requires v < TWO_16
    ensures |r| == 2
  {
    [v / 256, v % 256]
  }

  lemma U2RoundTrip(v: nat, b0: byte, b1: byte)
    requires v < TWO_16
    ensures U2(EncodeU2(v)[0], EncodeU2(v)[1]) == v
    ensures EncodeU2(U2(b0, b1)) == [b0, b1]
  {
  }

  /**
   * The unsigned big-endian 32-bit value of four bytes, as the shifts and ors
   * of CONVERT_U4_BYTES_TO_INT compute it before the final `int` cast.
   */
  function U4(b0: byte, b1: byte, b2: byte, b3: byte): (r: nat)
    ensures r < TWO_32
  {
    b0 * 0x100_0000 + b1 * 0x1_0000 + b2 * 0x100 + b3
  }

  function U4At(buf: Bytes, i: nat): (r: nat)
    requires i + 4 <= |buf|
    ensures r < TWO_32
  {
    U4(buf[i], buf[i + 1], buf[i + 2], buf[i + 3])
  }

  /** The four bytes whose big-endian value is `v`, most significant first. */
  function EncodeU4(v: nat): (r: Bytes)
    requires v < TWO_32
    ensures |r| == 4
  {
    var a := v / 256;
    var b := a / 256;
    [b / 256, b % 256, a % 256, v % 256]
  }

  /** U4 reads back the value EncodeU4 writes, and EncodeU4 writes back the bytes U4 read. */
  lemma U4RoundTrip(v: nat, b0: byte, b1: byte, b2: byte, b3: byte)
    requires v < TWO_32
    ensures var e := EncodeU4(v); U4(e[0], e[1], e[2], e[3]) == v
    ensures EncodeU4(U4(b0, b1, b2, b3)) == [b0, b1, b2, b3]
  {
    var a := v / 256;
    var b := a / 256;
    assert v == a * 256 + v % 256;
    assert a == b * 256 + a % 256;
    assert b == (b / 256) * 256 + b % 256;
    var r := U4(b0, b1, b2, b3);
    var r1 := b0 * 0x1_0000 + b1 * 0x100 + b2;
    var r2 := b0 * 0x100 + b1;
    assert r == r1 * 256 + b3;
    assert r1 == r2 * 256 + b2;
    assert r / 256 == r1 && r % 256 == b3;
    assert r1 / 256 == r2 && r1 % 256 == b2;
    assert r2 / 256 == b0 && r2 % 256 == b1;
  }

  /** EncodeU4 writes back the four bytes U4At read at `i`, as a list. */
  lemma U4AtBytes(buf: Bytes, i: nat)
    requires i + 4 <= |buf|
    ensures EncodeU4(U4At(buf, i)) == [buf[i], buf[i + 1], buf[i + 2], buf[i + 3]]
  {
    U4RoundTrip(0, buf[i], buf[i + 1], buf[i + 2], buf[i + 3]);
  }

  /** EncodeU4 writes back the slice U4At read at `i`. */
  lemma U4AtEncodes(buf: Bytes, i: nat)
    requires i + 4 <= |buf|
    ensures EncodeU4(U4At(buf, i)) == buf[i..i + 4]
  {
    U4AtBytes(buf, i);
    assert buf[i..i + 4] == [buf[i], buf[i + 1], buf[i + 2], buf[i + 3]];
  }

  /** U4At reads back a value EncodeU4 wrote at `i`. */
  lemma U4AtDecodes(buf: Bytes, i: nat, v: nat)
    requires v < TWO_32 && i + 4 <= |buf| && buf[i..i + 4] == EncodeU4(v)
    ensures U4At(buf, i) == v
  {
    var e := EncodeU4(v);
    assert buf[i] == e[0] && buf[i + 1] == e[1] && buf[i + 2] == e[2] && buf[i + 3] == e[3];
    U4RoundTrip(v, 0, 0, 0, 0);
  }

  /**
   * The `int` cast of CONVERT_U4_BYTES_TO_INT on a 32-bit two's-complement
   * machine: values of 2^31 and above become negative.
   */
  function Int32Of(v: nat): (r: int)
    requires v < TWO_32
    ensures -0x8000_0000 <= r < 0x8000_0000
    ensures (v - r) % TWO_32 == 0
    ensures r < 0 <==> v >= 0x8000_0000
  {
    if v < 0x8000_0000 then v else v - TWO_32
  }

  /**
   * Conversion to `size_t`, and the result of `size_t` arithmetic: the value
   * modulo 2^32. The model targets the 32-bit build, the one in which
   * `sizeof(LWO_CHUNK_HEADER)` is the 8 bytes of a chunk header.
   */
  function SizeTOf(i: int): (r: nat)
    ensures r < TWO_32
    ensures (i - r) % TWO_32 == 0
    ensures 0 <= i < TWO_32 ==> r == i
  {
    i % TWO_32
  }

  /** Storing the `int` a U4 macro returns in a `size_t` gives back the unsigned value. */
  lemma SizeTOfInt32(v: nat)
    requires v < TWO_32
    ensures SizeTOf(Int32Of(v)) == v
  {
  }

  /** `short` conversion of a 16-bit unsigned value (two's complement). */
  function Int16Of(v: nat): (r: int)
    requires v < TWO_16
    ensures -0x8000 <= r < 0x8000
    ensures (v - r) % TWO_16 == 0
  {
    if v < 0x8000 then v else v - TWO_16
  }

  /** A `char` byte compared as the signed `char` of the compiler the source targets. */
  function SignedChar(b: byte): (r: int)
    ensures -128 <= r < 128
    ensures (b - r) % 256 == 0
  {
    if b < 128 then b else b - 256
  }

  // ---------------------------------------------------------------------
  // Length rules

  /** CONVERT_STRING_LENGTH: a length rounded up to the next even number. */
  function PadLength(len: nat): (r: nat)
    ensures r % 2 == 0
    ensures len <= r <= len + 1
  {
    if len % 2 == 0 then len else len + 1
  }

  /** PadLength is the least even number not below its argument. */
  lemma PadLengthIsLeastEven(len: nat, m: nat)
    requires m % 2 == 0 && len <= m
    ensures PadLength(len) <= m
    ensures len % 2 == 0 ==> PadLength(len) == len
  {
  }

  /** CONVERT_VX_LENGTH: the byte width of a variable-length index value. */
  function VxLength(index: nat): (r: nat)
    ensures r == 2 || r == 4
    ensures r == 2 <==> index < 0xFF00
  {
    if index < 0xFF00 then 2 else 4
  }

  // ---------------------------------------------------------------------
  // Strings

  /** `string(bytes, n)`: every byte becomes one character. */
  function ToStr(b: Bytes): (s: string)
    ensures |s| == |b|
  {
    seq(|b|, i requires 0 <= i < |b| => b[i] as char)
  }

  /** Character i of the string is byte i. */
  lemma ToStrSpec(b: Bytes)
    ensures forall i :: 0 <= i < |b| ==> ToStr(b)[i] as int == b[i]
  {
  }

  lemma ToStrInjective(a: Bytes, b: Bytes)
    requires ToStr(a) == ToStr(b)
    ensures a == b
  {
    assert |a| == |b|;
    forall i | 0 <= i < |a| ensures a[i] == b[i] {
      assert ToStr(a)[i] == ToStr(b)[i];
    }
  }

  lemma ToStrAppend(a: Bytes, b: Bytes)
    ensures ToStr(a + b) == ToStr(a) + ToStr(b)
  {
  }

  /** CONVERT_BYTES_TO_STRING with a fixed size n > 0: exactly the n bytes at `at`. */
  function FixedString(buf: Bytes, at: nat, n: nat): (s: string)
    requires at + n <= |buf|
    ensures |s| == n
    ensures forall i :: 0 <= i < n ==> s[i] as int == buf[at + i]
  {
    ToStr(buf[at..at + n])
  }

  /** The position of the first zero byte at or after `at`, if the buffer holds one. */
  function FirstZero(buf: Bytes, at: nat): (r: Option<nat>)
    decreases |buf| - at
    ensures r.Some? ==> at <= r.value < |buf|
  {
    if at >= |buf| then None
    else if buf[at] == 0 then Some(at)
    else FirstZero(buf, at + 1)
  }

  /** What FirstZero finds: a zero byte with no zero byte before it, or no zero byte at all. */
  lemma {:induction false} FirstZeroSpec(buf: Bytes, at: nat)
    ensures var r := FirstZero(buf, at);
            (r.Some? ==> at <= r.value < |buf| && buf[r.value] == 0 && forall j :: at <= j < r.value ==> buf[j] != 0) &&
            (r.None? ==> forall j :: at <= j < |buf| ==> buf[j] != 0)
    decreases |buf| - at
  {
    if at < |buf| && buf[at] != 0 {
      FirstZeroSpec(buf, at + 1);
    }
  }

  /** A zero byte with no zero byte before it is the one FirstZero finds. */
  lemma {:induction false} FirstZeroIs(buf: Bytes, at: nat, z: nat)
    requires at <= z < |buf| && buf[z] == 0
    requires forall j :: at <= j < z ==> buf[j] != 0
    ensures FirstZero(buf, at) == Some(z)
    decreases z - at
  {
    if at < z {
      FirstZeroIs(buf, at + 1, z);
    }
  }

  /**
   * CONVERT_BYTES_TO_STRING with fixed size 0: the bytes from `at` up to AND
   * INCLUDING the first zero byte. None when the buffer holds no zero byte
   * from `at` on: the source would read past the end of its buffer.
   */
  function ZStringAt(buf: Bytes, at: nat): (r: Option<string>)
    ensures r.Some? <==> FirstZero(buf, at).Some?
    ensures r.Some? ==> |r.value| == FirstZero(buf, at).value - at + 1
  {
    match FirstZero(buf, at)
    case None => None
    case Some(z) => Some(ToStr(buf[at..z + 1]))
  }

  /**
   * The string is there iff a terminator is; its length is the terminator's
   * position + 1, it ends with the terminator and holds no earlier zero, and
   * its characters are the buffer's bytes.
   */
  lemma ZStringAtSpec(buf: Bytes, at: nat)
    ensures var r := ZStringAt(buf, at);
            (r.Some? <==> FirstZero(buf, at).Some?) &&
            (r.Some? ==> |r.value| == FirstZero(buf, at).value - at + 1 && r.value[|r.value| - 1] == 0 as char) &&
            (r.Some? ==> forall j :: 0 <= j < |r.value| - 1 ==> r.value[j] != 0 as char) &&
            (r.Some? ==> forall j :: 0 <= j < |r.value| ==> r.value[j] as int == buf[at + j])
  {
    FirstZeroSpec(buf, at);
  }

  /**
   * The loop of CONVERT_BYTES_TO_STRING with fixed size 0: scan for the
   * terminator, then count it. `ok` is false where the source would run off
   * the end of the buffer.
   */
  method ConvertBytesToString(buf: Bytes, at: nat) returns (ok: bool, s: string)
    ensures ok <==> FirstZero(buf, at).Some?
    ensures ok ==> at < |buf| && 0 < |s| <= |buf| - at
    ensures ok ==> s == ToStr(buf[at..at + |s|])
    ensures ok ==> buf[at + |s| - 1] == 0 && forall j :: at <= j < at + |s| - 1 ==> buf[j] != 0
    ensures ok ==> Some(s) == ZStringAt(buf, at)
  {
    var len := 0;
    while at + len < |buf| && buf[at + len] != 0
      invariant at + len <= |buf| || len == 0
      invariant forall j :: at <= j < at + len ==> buf[j] != 0
      decreases |buf| - at - len
    {
      len := len + 1;
    }
    if at + len >= |buf| {
      FirstZeroSpec(buf, at);
      return false, "";
    }
    FirstZeroIs(buf, at, at + len);
    len := len + 1;
    s := ToStr(buf[at..at + len]);
    ok := true;
  }

  // ---------------------------------------------------------------------
  // Floats, vectors and colors

  /** The four in-memory bytes of a 32-bit float, in address order. */
  datatype Word4 = Word4(b0: byte, b1: byte, b2: byte, b3: byte)

  function WordBytes(w: Word4): (r: Bytes)
    ensures |r| == 4
  {
    [w.b0, w.b1, w.b2, w.b3]
  }

  /** CONVERT_FLOAT_BYTES: a plain copy of four bytes, with no byte reordering. */
  function FloatBytesAt(buf: Bytes, i: nat): (w: Word4)
    requires i + 4 <= |buf|
    ensures WordBytes(w) == buf[i..i + 4]
  {
    Word4(buf[i], buf[i + 1], buf[i + 2], buf[i + 3])
  }

  /** The byte swap of CONVERT_LE_FLOAT: destination byte k is source byte 3 - k. */
  function Swap4(w: Word4): (r: Word4)
    ensures forall k :: 0 <= k < 4 ==> WordBytes(r)[k] == WordBytes(w)[3 - k]
  {
    Word4(w.b3, w.b2, w.b1, w.b0)
  }

  lemma Swap4Involution(w: Word4)
    ensures Swap4(Swap4(w)) == w
    ensures Swap4(w) == w <==> w.b0 == w.b3 && w.b1 == w.b2
  {
  }

  /** CONVERT_LE_FLOAT: copy the four bytes, then reverse them. */
  function LeFloatAt(buf: Bytes, i: nat): (w: Word4)
    requires i + 4 <= |buf|
    ensures WordBytes(w) == [buf[i + 3], buf[i + 2], buf[i + 1], buf[i]]
  {
    Swap4(FloatBytesAt(buf, i))
  }

  /** VEC12: three floats X, Y, Z. */
  datatype Vec12 = Vec12(x: Word4, y: Word4, z: Word4)

  /** COL12: three floats r, g, b. */
  datatype Col12 = Col12(r: Word4, g: Word4, b: Word4)

  /** The in-memory bit patterns of the float constants the source uses. */
  const FLOAT_ZERO: Word4 := Word4(0, 0, 0, 0)
  const FLOAT_ONE: Word4 := Word4(0x00, 0x00, 0x80, 0x3F)
  const FLOAT_MINUS_ONE: Word4 := Word4(0x00, 0x00, 0x80, 0xBF)

  /** CONVERT_VEC12_BYTES: three byte-swapped floats at offsets 0, 4 and 8. */
  function DecodeVec12(buf: Bytes, i: nat): Vec12
    requires i + 12 <= |buf|
  {
    Vec12(LeFloatAt(buf, i), LeFloatAt(buf, i + 4), LeFloatAt(buf, i + 8))
  }

  /** CONVERT_COL12_BYTES: three byte-swapped floats at offsets 0, 4 and 8. */
  function DecodeCol12(buf: Bytes, i: nat): Col12
    requires i + 12 <= |buf|
  {
    Col12(LeFloatAt(buf, i), LeFloatAt(buf, i + 4), LeFloatAt(buf, i + 8))
  }

  /** The 12 file bytes (big-endian floats) that decode to `v`. */
  function EncodeVec12(v: Vec12): (r: Bytes)
    ensures |r| == 12
  {
    WordBytes(Swap4(v.x)) + WordBytes(Swap4(v.y)) + WordBytes(Swap4(v.z))
  }

  /**
   * VEC12 decoding reads exactly the 12 bytes at `i`: decoding an encoding
   * gives the vector back, and encoding a decoded vector gives those 12 bytes.
   */
  lemma Vec12RoundTrip(v: Vec12, buf: Bytes, i: nat)
    requires i + 12 <= |buf|
    ensures DecodeVec12(EncodeVec12(v), 0) == v
    ensures EncodeVec12(DecodeVec12(buf, i)) == buf[i..i + 12]
  {
    var e := EncodeVec12(v);
    Swap4Involution(v.x);
    Swap4Involution(v.y);
    Swap4Involution(v.z);
    assert e[0..4] == WordBytes(Swap4(v.x));
    assert e[4..8] == WordBytes(Swap4(v.y));
    assert e[8..12] == WordBytes(Swap4(v.z));
    var d := DecodeVec12(buf, i);
    assert EncodeVec12(d) == buf[i..i + 12];
  }

  /** Equal byte-swapped floats come from equal bytes: the swap is undone by swapping again. */
  lemma LeFloatInjective(buf: Bytes, i: nat, buf': Bytes, j: nat)
    requires i + 4 <= |buf| && j + 4 <= |buf'|
    requires LeFloatAt(buf, i) == LeFloatAt(buf', j)
    ensures buf[i..i + 4] == buf'[j..j + 4]
  {
    Swap4Involution(FloatBytesAt(buf, i));
    Swap4Involution(FloatBytesAt(buf', j));
    assert FloatBytesAt(buf, i) == FloatBytesAt(buf', j);
  }

  /** COL12 decoding depends on the 12 bytes at `i` and on nothing else. */
  lemma Col12Covers12Bytes(buf: Bytes, i: nat, buf': Bytes, j: nat)
    requires i + 12 <= |buf| && j + 12 <= |buf'|
    ensures DecodeCol12(buf, i) == DecodeCol12(buf', j) <==> buf[i..i + 12] == buf'[j..j + 12]
  {
    var a, b := buf[i..i + 12], buf'[j..j + 12];
    if DecodeCol12(buf, i) == DecodeCol12(buf', j) {
      LeFloatInjective(buf, i, buf', j);
      LeFloatInjective(buf, i + 4, buf', j + 4);
      LeFloatInjective(buf, i + 8, buf', j + 8);
      assert a == buf[i..i + 4] + buf[i + 4..i + 8] + buf[i + 8..i + 12];
      assert b == buf'[j..j + 4] + buf'[j + 4..j + 8] + buf'[j + 8..j + 12];
    }
    if a == b {
      forall k | i <= k < i + 12 ensures buf[k] == buf'[j + (k - i)] {
        assert a[k - i] == buf[k] && b[k - i] == buf'[j + (k - i)];
      }
      assert LeFloatAt(buf, i + 4) == LeFloatAt(buf', j + 4);
      assert LeFloatAt(buf, i + 8) == LeFloatAt(buf', j + 8);
    }
  }

  // ---------------------------------------------------------------------
  // Decimal text

  function DigitChar(d: nat): (c: char)
    requires d < 10
  {
    ('0' as int + d) as char
  }

  function DigitValue(c: char): int
  {
    c as int - '0' as int
  }

  /** The number a string of decimal digits spells. */
  function DecimalValue(s: string): int
  {
    if s == [] then 0 else DecimalValue(s[..|s| - 1]) * 10 + DigitValue(s[|s| - 1])
  }

  /** A nonempty string of decimal digits with no leading zero, as `to_string` writes them. */
  predicate CanonicalDecimal(s: string)
  {
    |s| >= 1 && (forall i :: 0 <= i < |s| ==> '0' <= s[i] <= '9') && (|s| > 1 ==> s[0] != '0')
  }

  /** `to_string` of a non-negative number: its decimal digits, most significant first. */
  function NatToString(n: nat): (s: string)
    ensures CanonicalDecimal(s)
    ensures DecimalValue(s) == n
  {
    if n < 10 then [DigitChar(n)]
    else
      var prefix := NatToString(n / 10);
      var s := prefix + [DigitChar(n % 10)];
      assert s[..|s| - 1] == prefix;
      s
  }

  /** Digits led by a nonzero digit spell a positive number. */
  lemma {:induction false} LeadingDigitPositive(s: string)
    requires |s| >= 1 && s[0] != '0'
    requires forall i :: 0 <= i < |s| ==> '0' <= s[i] <= '9'
    ensures DecimalValue(s) >= 1
  {
    if |s| > 1 {
      LeadingDigitPositive(s[..|s| - 1]);
    }
  }

  /**
   * The canonical decimal spelling of a number is unique: any string of
   * digits without a leading zero that spells `n` is `to_string(n)`.
   */
  lemma {:induction false} NatToStringUnique(s: string, n: nat)
    requires CanonicalDecimal(s) && DecimalValue(s) == n
    ensures s == NatToString(n)
  {
    if |s| == 1 {
      assert s == [DigitChar(n)];
    } else {
      var p := s[..|s| - 1];
      LeadingDigitPositive(p);
      assert n / 10 == DecimalValue(p) && n % 10 == DigitValue(s[|s| - 1]);
      NatToStringUnique(p, n / 10);
      assert s == p + [DigitChar(n % 10)];
    }
  }
}
