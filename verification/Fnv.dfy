/** FNV-1a over 64 bits (section 2 of draft-eastlake-fnv), as fnv1a64 computes it in
components/alpha_hwr/schedule_codec.cpp:141-148 and tools/write_bench.py:413-415.

The hash value is a number below 2^64; the exclusive or is taken bit by bit and the
multiplication modulo 2^64. Each half of a step can be undone, so two inputs of equal
length that differ in a single byte never share a hash.
*/
module Fnv {
  import opened Numbers

  const OFFSET_BASIS := 0xcbf29ce484222325
  const TWO_64 := 0x1_0000_0000_0000_0000

  // The exclusive or of the two lowest bits.
  function LowXor(x: nat, y: nat): (bit: nat)
    ensures bit <= 1
  {
    if x % 2 == y % 2 then 0 else 1
  }

  // The n low bits of the exclusive or.
  function XorBits(x: nat, y: nat, n: nat): nat
    decreases n
  {
    if n == 0 then 0
    else LowXor(x, y) + 2 * XorBits(x / 2, y / 2, n - 1)
  }

  function Multiply(h: nat): nat {
    (h * 0x100000001b3) % TWO_64
  }

  function Step(h: nat, b: byte): nat {
    Multiply(XorBits(h, b, 64))
  }

  function Fold(h: nat, data: seq<byte>): nat
    decreases |data|
  {
    if |data| == 0 then h else Step(Fold(h, data[..|data| - 1]), data[|data| - 1])
  }

  function Fnv1a(data: seq<byte>): nat {
    Fold(OFFSET_BASIS, data)
  }

  /** fnv1a64, the loop of the source. */
  method Fnv1a64(data: seq<byte>) returns (h: nat)
    ensures h == Fnv1a(data)
  {
    h := OFFSET_BASIS;
    for i := 0 to |data|
      invariant h == Fold(OFFSET_BASIS, data[..i])
    {
      assert data[..i + 1][..i] == data[..i];
      h := XorBits(h, data[i], 64);
      h := Multiply(h);
    }
    assert data[..|data|] == data;
  }

  // ---------------------------------------------------------------------------
  // Each half of a step can be undone
  // ---------------------------------------------------------------------------

  function Pow2(n: nat): nat {
    if n == 0 then 1 else 2 * Pow2(n - 1)
  }

  lemma {:induction false} XorBitsBound(x: nat, y: nat, n: nat)
    ensures XorBits(x, y, n) < Pow2(n)
    decreases n
  {
    if n == 0 {
    } else {
      XorBitsBound(x / 2, y / 2, n - 1);
    }
  }

  /** The same bits exclusive-ored into two numbers leave them apart. */
  lemma {:induction false} XorBitsInjective(x: nat, z: nat, y: nat, n: nat)
    requires x < Pow2(n) && z < Pow2(n)
    ensures XorBits(x, y, n) == XorBits(z, y, n) <==> x == z
    decreases n
  {
    if n == 0 {
    } else {
      XorBitsInjective(x / 2, z / 2, y / 2, n - 1);
      BitsAndRest(LowXor(x, y), XorBits(x / 2, y / 2, n - 1), LowXor(z, y), XorBits(z / 2, y / 2, n - 1));
      BitsAndRest(x % 2, x / 2, z % 2, z / 2);
    }
  }

  lemma BitsAndRest(b: nat, q: nat, c: nat, r: nat)
    requires b <= 1 && c <= 1
    ensures b + 2 * q == c + 2 * r <==> b == c && q == r
  {}

  lemma {:induction false} XorBitsCommutes(x: nat, y: nat, n: nat)
    ensures XorBits(x, y, n) == XorBits(y, x, n)
    decreases n
  {
    if n == 0 {
    } else {
      XorBitsCommutes(x / 2, y / 2, n - 1);
    }
  }

  /** The prime is odd, so multiplying by it modulo 2^64 loses nothing: its inverse is
  0xce965057aff6957b. */
  lemma MultiplyInjective(a: nat, b: nat)
    requires a < TWO_64 && b < TWO_64
    ensures Multiply(a) == Multiply(b) <==> a == b
  {
    if Multiply(a) == Multiply(b) {
      var d := a - b;
      var t := (a * 0x100000001b3) / TWO_64 - (b * 0x100000001b3) / TWO_64;
      assert d * 0x100000001b3 == t * TWO_64;
      var k := (0x100000001b3 * 0xce965057aff6957b - 1) / TWO_64;
      assert 0x100000001b3 * 0xce965057aff6957b == 1 + k * TWO_64;
      var u := t * 0xce965057aff6957b - d * k;
      assert d == u * TWO_64;
    }
  }

  lemma Pow2By8(n: nat)
    ensures Pow2(n + 8) == 256 * Pow2(n)
  {
    assert Pow2(n + 2) == 4 * Pow2(n);
    assert Pow2(n + 4) == 4 * Pow2(n + 2);
    assert Pow2(n + 6) == 4 * Pow2(n + 4);
  }

  lemma Pow2Of64()
    ensures Pow2(64) == TWO_64
  {
    Pow2By8(0); Pow2By8(8); Pow2By8(16); Pow2By8(24);
    Pow2By8(32); Pow2By8(40); Pow2By8(48); Pow2By8(56);
  }

  lemma StepInjective(h: nat, g: nat, b: byte)
    requires h < TWO_64 && g < TWO_64
    ensures Step(h, b) < TWO_64
    ensures Step(h, b) == Step(g, b) <==> h == g
  {
    hide Multiply, XorBits;
    Pow2Of64();
    XorBitsBound(h, b, 64);
    XorBitsBound(g, b, 64);
    MultiplyInjective(XorBits(h, b, 64), XorBits(g, b, 64));
    XorBitsInjective(h, g, b, 64);
    MultiplyBound(XorBits(h, b, 64));
  }

  lemma MultiplyBound(h: nat)
    ensures Multiply(h) < TWO_64
  {}

  lemma StepSeparates(h: nat, b: byte, c: byte)
    requires h < TWO_64
    ensures Step(h, b) == Step(h, c) <==> b == c
  {
    hide Multiply, XorBits;
    Pow2Of64();
    XorBitsBound(h, b, 64);
    XorBitsBound(h, c, 64);
    MultiplyInjective(XorBits(h, b, 64), XorBits(h, c, 64));
    XorBitsCommutes(h, b, 64);
    XorBitsCommutes(h, c, 64);
    XorBitsInjective(b, c, h, 64);
  }

  // ---------------------------------------------------------------------------
  // One byte is never lost
  // ---------------------------------------------------------------------------

  lemma {:induction false} FoldBound(h: nat, data: seq<byte>)
    requires h < TWO_64
    ensures Fold(h, data) < TWO_64
    decreases |data|
  {
    hide Step;
    if |data| == 0 {
    } else {
      var front := data[..|data| - 1];
      FoldBound(h, front);
      StepInjective(Fold(h, front), Fold(h, front), data[|data| - 1]);
    }
  }

  lemma {:induction false} FoldConcat(h: nat, x: seq<byte>, y: seq<byte>)
    ensures Fold(h, x + y) == Fold(Fold(h, x), y)
    decreases |y|
  {
    hide Step;
    if |y| == 0 {
      assert x + y == x;
    } else {
      assert (x + y)[..|x + y| - 1] == x + y[..|y| - 1];
      FoldConcat(h, x, y[..|y| - 1]);
    }
  }

  lemma {:induction false} FoldInjective(h: nat, g: nat, x: seq<byte>)
    requires h < TWO_64 && g < TWO_64
    ensures Fold(h, x) == Fold(g, x) <==> h == g
    decreases |x|
  {
    hide Step;
    if |x| == 0 {
    } else {
      FoldBound(h, x[..|x| - 1]);
      FoldBound(g, x[..|x| - 1]);
      FoldInjective(h, g, x[..|x| - 1]);
      StepInjective(Fold(h, x[..|x| - 1]), Fold(g, x[..|x| - 1]), x[|x| - 1]);
    }
  }

  // The two inputs agree everywhere but at k.
  predicate DifferOnlyAt(x: seq<byte>, y: seq<byte>, k: nat) {
    |x| == |y| && k < |x| && x[k] != y[k] &&
    forall i :: 0 <= i < |x| && i != k ==> x[i] == y[i]
  }

  /** Two inputs of equal length that differ in exactly one byte never hash alike. */
  lemma {:induction false} OneByteTells(x: seq<byte>, y: seq<byte>, k: nat)
    requires DifferOnlyAt(x, y, k)
    ensures Fnv1a(x) != Fnv1a(y)
    decreases |x|
  {
    hide Step;
    var n := |x| - 1;
    FoldBound(OFFSET_BASIS, x[..n]);
    FoldBound(OFFSET_BASIS, y[..n]);
    if k == n {
      assert x[..n] == y[..n];
      StepSeparates(Fold(OFFSET_BASIS, x[..n]), x[n], y[n]);
    } else {
      OneByteTells(x[..n], y[..n], k);
      StepInjective(Fold(OFFSET_BASIS, x[..n]), Fold(OFFSET_BASIS, y[..n]), x[n]);
    }
  }

  // ---------------------------------------------------------------------------
  // Published values
  // ---------------------------------------------------------------------------

  lemma {:induction false} XorNothing(x: nat, n: nat)
    requires x < Pow2(n)
    ensures XorBits(x, 0, n) == x
    decreases n
  {
    if n == 0 {
    } else {
      XorNothing(x / 2, n - 1);
    }
  }

  lemma Doubled(q: nat, k: nat)
    requires k > 0
    ensures Pow2(k) * q == 2 * (Pow2(k - 1) * q)
  {}

  lemma Halves(y: nat, r: nat)
    ensures (2 * y + r) / 2 == y + r / 2 && (2 * y + r) % 2 == r % 2
  {}

  // Only as many bits as the smaller number has are touched.
  lemma {:induction false} XorLow(q: nat, r: nat, b: nat, k: nat, n: nat)
    requires r < Pow2(k) && b < Pow2(k)
    ensures XorBits(Pow2(k) * q + r, b, k + n) == XorBits(r, b, k) + Pow2(k) * XorBits(q, 0, n)
    decreases k
  {
    if k == 0 {
    } else {
      var y, z := Pow2(k - 1) * q, XorBits(q, 0, n);
      Doubled(q, k);
      Doubled(z, k);
      Halves(y, r);
      XorLow(q, r / 2, b / 2, k - 1, n);
      XorTop(2 * y + r, b, k + n);
      XorTop(r, b, k);
      hide XorBits, Pow2;
    }
  }

  lemma XorTop(x: nat, b: nat, n: nat)
    requires n > 0
    ensures XorBits(x, b, n) == LowXor(x, b) + 2 * XorBits(x / 2, b / 2, n - 1)
  {}

  lemma Pow2Of8()
    ensures Pow2(8) == 0x100
  {
    Pow2By8(0);
  }

  lemma XorByte(q: nat, r: byte, b: byte)
    requires q < Pow2(56)
    ensures XorBits(0x100 * q + r, b, 64) == 0x100 * q + XorBits(r, b, 8)
  {
    hide XorBits, Pow2;
    Pow2Of8();
    var p, k, n := Pow2(8), 8, 56;
    XorLow(q, r, b, k, n);
    XorNothing(q, n);
    assert p * q == 0x100 * q;
  }

  lemma Pow2Of56()
    ensures Pow2(56) == 0x100_0000_0000_0000
  {
    Pow2By8(0); Pow2By8(8); Pow2By8(16); Pow2By8(24); Pow2By8(32); Pow2By8(40); Pow2By8(48);
  }

  // 00100101 and 01100001.
  lemma LastByte()
    ensures XorBits(0x25, 0x61, 8) == 0x44
  {
    assert XorBits(1, 3, 4) == 2 && XorBits(2, 6, 5) == 4 && XorBits(4, 12, 6) == 8;
    assert XorBits(9, 24, 7) == 17;
  }

  lemma OneByte(h: nat, b: byte)
    ensures Fold(h, [b]) == Step(h, b)
  {
    assert [b][..0] == [];
    hide Step;
  }

  /** The value that the draft gives for "a". */
  lemma PublishedValue()
    ensures Fnv1a([0x61]) == 0xAF63_DC4C_8601_EC8C
  {
    hide XorBits, Pow2, Fold;
    LastByte();
    Pow2Of56();
    XorByte(0xCBF2_9CE4_8422_23, 0x25, 0x61);
    OneByte(OFFSET_BASIS, 0x61);
  }
}
