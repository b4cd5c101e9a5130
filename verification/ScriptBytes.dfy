/**
 Bytes and the numbers Bitcoin Script reads from them. A script number is little-endian with a sign
 bit in the top of its last byte.
 */
module ScriptBytes {
  type byte = b: int | 0 <= b < 256

  function Pow2(e: nat): (r: nat)
    ensures r >= 1
  {
    if e == 0 then 1 else 2 * Pow2(e - 1)
  }

  /** The value of little-endian bytes. */
  function LittleEndian(b: seq<byte>): nat {
    if b == [] then 0 else b[0] + 256 * LittleEndian(b[1..])
  }

  /** The low `width` bytes of v, least significant first. */
  function ToLittleEndian(v: nat, width: nat): (b: seq<byte>)
    ensures |b| == width
  {
    if width == 0 then [] else [v % 256] + ToLittleEndian(v / 256, width - 1)
  }

  /** Script's bin2num. */
  function Bin2Num(b: seq<byte>): int {
    if b == [] then 0
    else
      var last := b[|b| - 1];
      if last < 128 then LittleEndian(b)
      else 0 - LittleEndian(b[..|b| - 1] + [last - 128])
  }

  /** Script's num2bin for a non-negative number that fits. */
  function Num2Bin(v: nat, width: nat): (b: seq<byte>)
    ensures |b| == width
  {
    ToLittleEndian(v, width)
  }

  lemma {:induction false} Pow2Sum(a: nat, b: nat)
    ensures Pow2(a + b) == Pow2(a) * Pow2(b)
  {
    if a > 0 {
      Pow2Sum(a - 1, b);
      assert 2 * (Pow2(a - 1) * Pow2(b)) == (2 * Pow2(a - 1)) * Pow2(b);
    }
  }

  lemma Pow2Byte(e: nat)
    ensures Pow2(e + 8) == 256 * Pow2(e)
  {
    assert Pow2(e + 8) == 2 * Pow2(e + 7) == 4 * Pow2(e + 6) == 8 * Pow2(e + 5) == 16 * Pow2(e + 4);
    assert Pow2(e + 4) == 2 * Pow2(e + 3) == 4 * Pow2(e + 2) == 8 * Pow2(e + 1) == 16 * Pow2(e);
  }

  lemma {:induction false} Pow2Monotone(a: nat, b: nat)
    requires a <= b
    ensures Pow2(a) <= Pow2(b)
  {
    if a < b { Pow2Monotone(a, b - 1); }
  }

  lemma Pow2Square(e: nat, f: nat, v: nat)
    requires f == 2 * e && Pow2(e) == v
    ensures Pow2(f) == v * v
  {
    Pow2Sum(e, e);
  }

  lemma Pow2At256(e: nat)
    requires e == 256
    ensures Pow2(e) == 0x1_0000000000000000_0000000000000000_0000000000000000_0000000000000000
  {
    Pow2Byte(0);
    Pow2Square(8, 16, 0x100);
    Pow2Square(16, 32, 0x1_0000);
    Pow2Square(32, 64, 0x1_0000_0000);
    Pow2Square(64, 128, 0x1_0000_0000_0000_0000);
    Pow2Square(128, 256, 0x1_0000_0000_0000_0000_0000_0000_0000_0000);
  }

  /** Writing then reading loses nothing that fits in the width. */
  lemma {:induction false} LittleEndianRoundTrip(v: nat, width: nat)
    requires v < Pow2(8 * width)
    ensures LittleEndian(ToLittleEndian(v, width)) == v
  {
    if width > 0 {
      Pow2Byte(8 * (width - 1));
      assert v / 256 < Pow2(8 * (width - 1));
      LittleEndianRoundTrip(v / 256, width - 1);
      var b := ToLittleEndian(v, width);
      assert b[1..] == ToLittleEndian(v / 256, width - 1);
    }
  }

  lemma {:induction false} LittleEndianBound(b: seq<byte>)
    ensures LittleEndian(b) < Pow2(8 * |b|)
  {
    if b != [] {
      LittleEndianBound(b[1..]);
      Pow2Byte(8 * (|b| - 1));
    }
  }

  lemma TimesByte(x: int, p: int, y: int)
    ensures 256 * (x + p * y) == 256 * x + (256 * p) * y
  {
  }

  lemma {:induction false} LittleEndianAppend(a: seq<byte>, b: seq<byte>)
    ensures LittleEndian(a + b) == LittleEndian(a) + Pow2(8 * |a|) * LittleEndian(b)
  {
    if a == [] {
      assert a + b == b;
    } else {
      LittleEndianAppend(a[1..], b);
      assert (a + b)[1..] == a[1..] + b;
      Pow2Byte(8 * (|a| - 1));
      TimesByte(LittleEndian(a[1..]), Pow2(8 * (|a| - 1)), LittleEndian(b));
    }
  }

  /** The last byte written carries the sign bit exactly when the value fills the width. */
  lemma {:induction false} TopByte(v: nat, width: nat)
    requires width > 0 && v < Pow2(8 * width)
    ensures ToLittleEndian(v, width)[width - 1] < 128 <==> v < Pow2(8 * width - 1)
  {
    if width == 1 {
      assert Pow2(8) == 2 * Pow2(7);
      Pow2Byte(0);
    } else {
      Pow2Byte(8 * (width - 1));
      Pow2Byte(8 * (width - 1) - 1);
      TopByte(v / 256, width - 1);
      var b, c := ToLittleEndian(v, width), ToLittleEndian(v / 256, width - 1);
      assert b[width - 1] == c[width - 2];
    }
  }

  lemma Bin2NumOfNum2Bin(v: nat, width: nat)
    requires width > 0 && v < Pow2(8 * width - 1)
    ensures Bin2Num(Num2Bin(v, width)) == v
  {
    Pow2Monotone(8 * width - 1, 8 * width);
    LittleEndianRoundTrip(v, width);
    TopByte(v, width);
  }
}
