/**
 The minimal push of a scalar, as the referee builds it on chain and as the SDK builds it off chain,
 and the checker script spliced from it.
 */
module ScriptSplice {
  import opened ScriptBytes

  const OP_1_BASE: nat := 80
  const PUSH_64: byte := 64

  /** The number of bytes a script number needs so that its sign bit stays clear. */
  function Width(k: nat): (w: nat)
    ensures w >= 1
  {
    if k < 128 then 1 else 1 + Width(k / 256)
  }

  /** The push both sides must produce. */
  function Push(k: nat): seq<byte>
    requires Width(k) < 76
  {
    if k == 0 then [0]
    else if k <= 16 then [OP_1_BASE + k]
    else [Width(k)] + ToLittleEndian(k, Width(k))
  }

  lemma {:induction false} WidthExact(k: nat, w: nat)
    requires w >= 1
    ensures k < Pow2(8 * w - 1) <==> Width(k) <= w
  {
    if w == 1 {
      Pow2Byte(0);
      assert Pow2(8) == 2 * Pow2(7);
    } else {
      Pow2Byte(8 * (w - 1) - 1);
      WidthExact(k / 256, w - 1);
      if k < 128 {
        Pow2Monotone(7, 8 * w - 1);
        WidthExact(k, 1);
      }
    }
  }

  /** The contract's threshold ladder, largest bound first, each rung overwriting the size. */
  method PushOnChain(k: nat) returns (out: seq<byte>)
    requires k < Pow2(256)
    ensures Width(k) <= 33 && out == Push(k)
  {
    hide Width, Pow2;
    Pow2Monotone(256, 8 * 33 - 1);
    WidthExact(k, 33);
    var sz: nat := 33;
    var s: nat := 32;
    while s >= 1
      invariant s <= 32
      invariant sz == if Width(k) <= s + 1 then s + 1 else Width(k)
      decreases s
    {
      WidthExact(k, s);
      if k < Pow2(8 * s - 1) {
        sz := s;
      }
      s := s - 1;
    }
    out := [sz] + Num2Bin(k, sz);
    if k <= 16 {
      out := OneByte(k + OP_1_BASE);
    }
    if k == 0 {
      out := [0];
    }
  }

  function OneByte(v: nat): (b: seq<byte>)
    requires v < 256
    ensures b == [v] && b == Num2Bin(v, 1)
  {
    assert ToLittleEndian(v, 1) == [v % 256] + ToLittleEndian(v / 256, 0);
    [v]
  }

  /** The SDK's byte loop. */
  method BytesOf(n: nat) returns (bytes: seq<byte>)
    ensures bytes == ToLittleEndian(n, Digits(n))
  {
    bytes := [];
    var a := n;
    while a > 0
      invariant Digits(n) == |bytes| + Digits(a)
      invariant ToLittleEndian(n, Digits(n)) == bytes + ToLittleEndian(a, Digits(a))
    {
      assert ToLittleEndian(a, Digits(a)) == [a % 256] + ToLittleEndian(a / 256, Digits(a / 256));
      assert bytes + ([a % 256] + ToLittleEndian(a / 256, Digits(a / 256)))
          == (bytes + [a % 256]) + ToLittleEndian(a / 256, Digits(a / 256));
      bytes := bytes + [a % 256];
      a := a / 256;
    }
    assert bytes + ToLittleEndian(0, 0) == bytes;
  }

  /** The SDK's push: the bytes of n, then a zero byte if the sign bit would be set. */
  method PushOffChain(n: nat) returns (out: seq<byte>)
    requires n < Pow2(256)
    ensures Width(n) <= 33 && out == Push(n)
  {
    hide Width, Pow2, Digits, ToLittleEndian;
    Pow2Monotone(256, 8 * 33 - 1);
    WidthExact(n, 33);
    if n == 0 {
      return [0];
    }
    if n <= 16 {
      return [OP_1_BASE + n];
    }
    var bytes := BytesOf(n);
    DigitsWidth(n);
    if bytes[|bytes| - 1] >= 128 {
      ZeroByte(n, Digits(n));
      bytes := bytes + [0];
    }
    assert |bytes| == Width(n);
    out := [|bytes|] + bytes;
  }

  /** The number of base-256 digits. */
  function Digits(n: nat): nat {
    if n == 0 then 0 else 1 + Digits(n / 256)
  }

  lemma {:induction false} ZeroByte(n: nat, d: nat)
    requires d >= Digits(n)
    ensures ToLittleEndian(n, d + 1) == ToLittleEndian(n, d) + [0]
  {
    if d > 0 {
      ZeroByte(n / 256, d - 1);
      assert [n % 256] + (ToLittleEndian(n / 256, d - 1) + [0]) == ToLittleEndian(n, d) + [0];
    } else {
      assert ToLittleEndian(n, 1) == [0];
    }
  }

  /** The padded width is the digit count, plus one when the last digit has its top bit set. */
  lemma {:induction false} DigitsWidth(n: nat)
    requires n > 0
    ensures Digits(n) >= 1
    ensures var last := ToLittleEndian(n, Digits(n))[Digits(n) - 1];
            Width(n) == if last >= 128 then Digits(n) + 1 else Digits(n)
  {
    if n < 256 {
      assert Digits(n) == 1 && ToLittleEndian(n, 1) == [n];
      assert Width(n) == if n < 128 then 1 else 1 + Width(0);
    } else {
      DigitsWidth(n / 256);
      var d := Digits(n / 256);
      assert ToLittleEndian(n, d + 1) == [n % 256] + ToLittleEndian(n / 256, d);
      assert ToLittleEndian(n, d + 1)[d] == ToLittleEndian(n / 256, d)[d - 1];
    }
  }

  // ----- reading a push back -----

  datatype Parsed = Bad | Read(k: int, rest: seq<byte>)

  /** How Script reads one number push off the front of a script. */
  function ReadPush(s: seq<byte>): Parsed {
    if s == [] then Bad
    else if s[0] == 0 then Read(0, s[1..])
    else if s[0] < 76 then
      if |s| < 1 + s[0] then Bad else Read(Bin2Num(s[1..1 + s[0]]), s[1 + s[0]..])
    else if 81 <= s[0] <= 96 then Read(s[0] - OP_1_BASE, s[1..])
    else Bad
  }

  lemma PushReadBack(k: nat, tail: seq<byte>)
    requires Width(k) < 76
    ensures ReadPush(Push(k) + tail) == Read(k, tail)
  {
    var s := Push(k) + tail;
    if k > 16 {
      var w := Width(k);
      assert s[1..1 + w] == ToLittleEndian(k, w) && s[1 + w..] == tail;
      WidthExact(k, w);
      Bin2NumOfNum2Bin(k, w);
    } else {
      assert s[1..] == tail;
    }
  }

  /** No shorter byte string is read as k. */
  lemma PushMinimal(k: nat, b: seq<byte>)
    requires k > 0 && Bin2Num(b) == k
    ensures |b| >= Width(k)
  {
    var n := |b| - 1;
    var last := b[n];
    assert last < 128;
    LittleEndianBound(b[..n]);
    LittleEndianAppend(b[..n], [last]);
    assert b == b[..n] + [last];
    assert LittleEndian([last]) == last;
    ShiftBound(LittleEndian(b[..n]), Pow2(8 * n), last);
    assert Pow2(8 * |b|) == 2 * Pow2(8 * |b| - 1);
    Pow2Byte(8 * n);
    WidthExact(k, |b|);
  }

  lemma ShiftBound(low: nat, p: nat, last: nat)
    requires low < p && last < 128
    ensures low + p * last < 128 * p
  {
    assert p * last <= p * 127;
  }

  // ----- the spliced checker script -----

  function CheckerScript(base: seq<byte>, pushK: seq<byte>, out: seq<byte>, body: seq<byte>): seq<byte> {
    (([PUSH_64] + base) + pushK) + (([PUSH_64] + out) + body)
  }

  datatype Claim = Claim(base: seq<byte>, k: int, out: seq<byte>, body: seq<byte>)

  datatype MaybeClaim = NoClaim | Claims(claim: Claim)

  /** How the network reads the script: two 64-byte pushes around a number push, then the body. */
  function ReadChecker(s: seq<byte>): MaybeClaim {
    if |s| < 65 || s[0] != PUSH_64 then NoClaim
    else
      match ReadPush(s[65..])
      case Bad => NoClaim
      case Read(k, t) =>
        if |t| < 65 || t[0] != PUSH_64 then NoClaim
        else Claims(Claim(s[1..65], k, t[1..65], t[65..]))
  }

  /** A spliced script carries exactly its base, scalar, product and body: nothing else could have
      produced the same bytes. */
  lemma CheckerReadBack(base: seq<byte>, k: nat, out: seq<byte>, body: seq<byte>)
    requires |base| == 64 && |out| == 64 && Width(k) < 76
    ensures ReadChecker(CheckerScript(base, Push(k), out, body)) == Claims(Claim(base, k, out, body))
  {
    hide Push, ReadPush;
    var tail := ([PUSH_64] + out) + body;
    var s := CheckerScript(base, Push(k), out, body);
    assert s[1..65] == base;
    assert s[65..] == Push(k) + tail;
    PushReadBack(k, tail);
    assert tail[1..65] == out && tail[65..] == body;
  }

  /** With a product that is not 64 bytes the network reads a different claim: the width checks in
      the referee are needed. */
  lemma UncheckedWidthForges(base: seq<byte>, k: nat, shown: seq<byte>, extra: seq<byte>, body: seq<byte>)
    requires |base| == 64 && |shown| == 64 && extra != [] && Width(k) < 76
    ensures ReadChecker(CheckerScript(base, Push(k), shown + extra, body))
         == Claims(Claim(base, k, shown, extra + body))
  {
    CheckerReadBack(base, k, shown, extra + body);
    assert ([PUSH_64] + (shown + extra)) + body == ([PUSH_64] + shown) + (extra + body);
  }
}
