/** One changed cell always shows in the schedule hash: its times moved, the cell switched
on, or switched off.

Below 2^40 the prime of the hash is 435. A byte under 64 moves the register by less than
64 when it is added, so two registers that part inside a cell keep a known distance
modulo 2^40 until the cell ends, and that distance is never a multiple of 2^40.
*/
module CellHash {
  import opened Text
  import opened Numbers
  import opened Fnv
  import opened ScheduleCodec
  import opened LayerImages
  import opened UploadPrinter

  const TWO_40 := 0x100_0000_0000

  // ---------------------------------------------------------------------------
  // How far one byte moves the register
  // ---------------------------------------------------------------------------

  // What the exclusive or with y adds to x.
  function Moved(x: nat, y: nat, n: nat): int {
    XorBits(x, y, n) - x
  }

  /** By no more than the byte itself. */
  lemma {:induction false} MovedAtMost(x: nat, y: nat, n: nat)
    requires x < Pow2(n)
    ensures -(y as int) <= Moved(x, y, n) <= y
    decreases n
  {
    if n == 0 {
    } else {
      MovedAtMost(x / 2, y / 2, n - 1);
      MovedByLowest(x, y);
      assert x == x % 2 + 2 * (x / 2) && y == y % 2 + 2 * (y / 2);
    }
  }

  lemma MovedByLowest(x: nat, y: nat)
    ensures -(y % 2) <= LowXor(x, y) - x % 2 <= y % 2
  {}

  // Different bytes move a register differently.
  lemma MovedApart(h: nat, b: byte, c: byte)
    requires h < TWO_64
    ensures Moved(h, b, 64) == Moved(h, c, 64) <==> b == c
  {
    Pow2Of64();
    hide XorBits;
    StepSeparates(h, b, c);
  }

  lemma MovedByZero(h: nat)
    requires h < TWO_64
    ensures Moved(h, 0, 64) == 0
  {
    Pow2Of64();
    MovedAtMost(h, 0, 64);
  }

  // ---------------------------------------------------------------------------
  // Two registers at a distance
  // ---------------------------------------------------------------------------

  predicate Apart(h: int, g: int, d: int) {
    (h - g - d) % TWO_40 == 0
  }

  // Modulo 2^40 a multiplication is one by 435.
  lemma MultipliedBy435(h: nat, g: nat, d: int)
    requires Apart(h, g, d)
    ensures Apart(Multiply(h), Multiply(g), 435 * d)
  {
    var k := (h - g - d) / TWO_40;
    var m := (h * 0x100000001b3) / TWO_64 - (g * 0x100000001b3) / TWO_64;
    assert h - g - d == k * TWO_40;
    assert Multiply(h) - Multiply(g) == (h - g) * 0x100000001b3 - m * TWO_64;
    assert Multiply(h) - Multiply(g) - 435 * d ==
           (h - g + k * 435 - m * 0x100_0000) * TWO_40;
  }

  lemma MovedOn(h: nat, g: nat, b: byte, c: byte, d: int)
    requires Apart(h, g, d)
    ensures Apart(XorBits(h, b, 64), XorBits(g, c, 64), d + Moved(h, b, 64) - Moved(g, c, 64))
  {
    hide XorBits;
  }

  lemma StepApart(h: nat, g: nat, b: byte, c: byte, d: int)
    requires Apart(h, g, d)
    ensures Apart(Step(h, b), Step(g, c), 435 * (d + Moved(h, b, 64) - Moved(g, c, 64)))
  {
    hide XorBits, Multiply, Apart, Moved;
    MovedOn(h, g, b, c, d);
    MultipliedBy435(XorBits(h, b, 64), XorBits(g, c, 64), d + Moved(h, b, 64) - Moved(g, c, 64));
  }

  lemma ApartDiffer(h: int, g: int, d: int)
    requires Apart(h, g, d) && d % TWO_40 != 0
    ensures h != g
  {}

  // Before the multiplication of the last byte the distance needs only to be no multiple.
  lemma LastStep(h: nat, g: nat, b: byte, c: byte, d: int)
    requires h < TWO_64 && g < TWO_64 && Apart(h, g, d)
    requires (d + Moved(h, b, 64) - Moved(g, c, 64)) % TWO_40 != 0
    ensures Step(h, b) != Step(g, c)
  {
    hide XorBits, Multiply, Apart, Moved;
    var x, y := XorBits(h, b, 64), XorBits(g, c, 64);
    MovedOn(h, g, b, c, d);
    ApartDiffer(x, y, d + Moved(h, b, 64) - Moved(g, c, 64));
    Pow2Of64();
    XorBitsBound(h, b, 64);
    XorBitsBound(g, c, 64);
    MultiplyInjective(x, y);
  }

  // ---------------------------------------------------------------------------
  // The times of a cell
  // ---------------------------------------------------------------------------

  // At a distance between 435 and most, either way.
  ghost predicate Near(h: int, g: int, most: int) {
    exists d :: Within(d, most) && Apart(h, g, d)
  }

  predicate Within(d: int, most: int) {
    435 <= d <= most || -most <= d <= -435
  }

  lemma MovedBySmall(h: nat, b: byte)
    requires h < TWO_64 && b < 64
    ensures -63 <= Moved(h, b, 64) <= 63
  {
    Pow2Of64();
    hide Moved;
    MovedAtMost(h, b, 64);
  }

  lemma Begins(h: nat, b: byte, c: byte)
    requires h < TWO_64 && b < 64 && c < 64 && b != c
    ensures Near(Step(h, b), Step(h, c), 435 * 126)
  {
    var e := Moved(h, b, 64) - Moved(h, c, 64);
    MovedBySmall(h, b);
    MovedBySmall(h, c);
    MovedApart(h, b, c);
    StepApart(h, h, b, c, 0);
    hide Moved, Apart, Step;
    assert Within(435 * e, 435 * 126);
  }

  lemma GoesOn(h: nat, g: nat, b: byte, c: byte, most: int)
    requires h < TWO_64 && g < TWO_64 && b < 64 && c < 64 && Near(h, g, most)
    ensures Near(Step(h, b), Step(g, c), 435 * (most + 126))
  {
    var d :| Within(d, most) && Apart(h, g, d);
    var e := d + Moved(h, b, 64) - Moved(g, c, 64);
    MovedBySmall(h, b);
    MovedBySmall(g, c);
    StepApart(h, g, b, c, d);
    hide Moved, Apart, Step;
    assert Within(435 * e, 435 * (most + 126));
  }

  lemma NoMultiple(d: int, most: int, m: int, k: int)
    requires Within(d, most) && most + 126 < TWO_40 && -63 <= m <= 63 && -63 <= k <= 63
    ensures (d + m - k) % TWO_40 != 0
  {}

  lemma EndsApart(h: nat, g: nat, b: byte, c: byte, most: int)
    requires h < TWO_64 && g < TWO_64 && b < 64 && c < 64 && Near(h, g, most)
    requires most + 126 < TWO_40
    ensures Step(h, b) != Step(g, c)
  {
    hide Moved, Apart, Step, Within;
    var d :| Within(d, most) && Apart(h, g, d);
    MovedBySmall(h, b);
    MovedBySmall(g, c);
    NoMultiple(d, most, Moved(h, b, 64), Moved(g, c, 64));
    LastStep(h, g, b, c, d);
  }

  // Equal so far, or at a distance that n bytes can have brought about.
  ghost predicate Parted(h: nat, g: nat, n: nat) {
    h == g || Near(h, g, Most(n))
  }

  function Most(n: nat): nat {
    if n == 0 then 0 else 435 * (Most(n - 1) + 126)
  }

  lemma PartedOn(h: nat, g: nat, b: byte, c: byte, n: nat)
    requires h < TWO_64 && g < TWO_64 && b < 64 && c < 64 && Parted(h, g, n)
    ensures Parted(Step(h, b), Step(g, c), n + 1)
  {
    hide Near, Step;
    if h != g {
      GoesOn(h, g, b, c, Most(n));
    } else if b != c {
      Begins(h, b, c);
      NearWithin(Step(h, b), Step(h, c), 435 * 126, Most(n + 1));
    }
  }

  lemma NearWithin(h: int, g: int, most: int, more: int)
    requires Near(h, g, most) && most <= more
    ensures Near(h, g, more)
  {
    hide Apart;
  }

  predicate AllSmall(x: seq<byte>) {
    forall i :: 0 <= i < |x| ==> x[i] < 64
  }

  lemma {:induction false} FoldParted(h: nat, x: seq<byte>, y: seq<byte>)
    requires h < TWO_64 && |x| == |y| && AllSmall(x) && AllSmall(y)
    ensures Parted(Fold(h, x), Fold(h, y), |x|)
    decreases |x|
  {
    hide Near, Step, Most;
    if |x| == 0 {
    } else {
      var n := |x| - 1;
      FoldBound(h, x[..n]);
      FoldBound(h, y[..n]);
      FoldParted(h, x[..n], y[..n]);
      PartedOn(Fold(h, x[..n]), Fold(h, y[..n]), x[n], y[n], n);
    }
  }

  /** Up to four different bytes below 64 take a register to different registers. */
  lemma {:induction false} SmallBytesTell(h: nat, x: seq<byte>, y: seq<byte>)
    requires h < TWO_64 && |x| == |y| <= 4 && AllSmall(x) && AllSmall(y)
    ensures Fold(h, x) == Fold(h, y) <==> x == y
    decreases |x|
  {
    hide Near, Step;
    if |x| == 0 {
    } else {
      var n := |x| - 1;
      var front, back := x[..n], y[..n];
      assert x == front + [x[n]] && y == back + [y[n]];
      FoldBound(h, front);
      FoldBound(h, back);
      FoldParted(h, front, back);
      SmallBytesTell(h, front, back);
      if front == back {
        StepSeparates(Fold(h, front), x[n], y[n]);
      } else {
        MostOfThree(n);
        EndsApart(Fold(h, front), Fold(h, back), x[n], y[n], Most(n));
      }
    }
  }

  lemma MostOfThree(n: nat)
    requires n <= 3
    ensures Most(n) + 126 < TWO_40
  {
    assert Most(0) == 0 && Most(1) == 435 * 126 && Most(2) == 435 * (435 * 126 + 126);
  }

  // ---------------------------------------------------------------------------
  // A cell switched on
  // ---------------------------------------------------------------------------

  // 435 to the fifth leaves more modulo 2^40 than the bytes behind it can make up for.
  lemma SwitchDistance(e: seq<int>)
    requires |e| == 6 && (e[0] == 1 || e[0] == -1) && -2 <= e[1] <= 2
    requires forall i :: 2 <= i < 6 ==> -63 <= e[i] <= 63
    ensures (435 * (435 * (435 * (435 * (435 * e[0] + e[1]) + e[2]) + e[3]) + e[4]) + e[5]) % TWO_40 != 0
  {
    var rest := 435 * (435 * (435 * (435 * e[1] + e[2]) + e[3]) + e[4]) + e[5];
    assert -77_000_000_000 <= rest <= 77_000_000_000;
    var total := 435 * 435 * 435 * 435 * 435 * e[0] + rest;
    assert 435 * 435 * 435 * 435 * 435 == 14 * TWO_40 + 182490983011;
  }

  // What byte n of the one input moves its register by, and of the other the other.
  function MovedAt(h: nat, x: seq<byte>, y: seq<byte>, n: nat): int
    requires n < |x| == |y|
  {
    Moved(Fold(h, x[..n]), x[n], 64) - Moved(Fold(h, y[..n]), y[n], 64)
  }

  // The distance after n bytes.
  function Distance(h: nat, x: seq<byte>, y: seq<byte>, n: nat): int
    requires n <= |x| == |y|
  {
    if n == 0 then 0 else 435 * (Distance(h, x, y, n - 1) + MovedAt(h, x, y, n - 1))
  }

  lemma FoldOne(h: nat, x: seq<byte>, n: nat)
    requires n < |x|
    ensures Fold(h, x[..n + 1]) == Step(Fold(h, x[..n]), x[n])
  {
    assert x[..n + 1][..n] == x[..n];
  }

  lemma {:induction false} DistanceIsApart(h: nat, x: seq<byte>, y: seq<byte>, n: nat)
    requires n <= |x| == |y|
    ensures Apart(Fold(h, x[..n]), Fold(h, y[..n]), Distance(h, x, y, n))
  {
    hide Moved, Step, Fold;
    if n == 0 {
      assert x[..0] == y[..0];
    } else {
      hide Apart;
      DistanceIsApart(h, x, y, n - 1);
      FoldOne(h, x, n - 1);
      FoldOne(h, y, n - 1);
      StepApart(Fold(h, x[..n - 1]), Fold(h, y[..n - 1]), x[n - 1], y[n - 1], Distance(h, x, y, n - 1));
    }
  }

  predicate SwitchedOn(x: seq<byte>, y: seq<byte>) {
    && |x| == |y| == 6 && x[0] == 1 && x[1] == 2 && AllSmall(x)
    && (forall i :: 0 <= i < 6 ==> y[i] == 0)
  }

  lemma SwitchMoves(h: nat, x: seq<byte>, y: seq<byte>, n: nat)
    requires h < TWO_64 && SwitchedOn(x, y) && n < 6
    ensures -63 <= MovedAt(h, x, y, n) <= 63
    ensures n == 0 ==> MovedAt(h, x, y, n) == 1 || MovedAt(h, x, y, n) == -1
    ensures n == 1 ==> -2 <= MovedAt(h, x, y, n) <= 2
  {
    hide Moved, Fold;
    FoldBound(h, x[..n]);
    FoldBound(h, y[..n]);
    MovedByZero(Fold(h, y[..n]));
    Pow2Of64();
    MovedAtMost(Fold(h, x[..n]), x[n], 64);
    if n == 0 {
      assert x[..0] == y[..0];
      MovedApart(Fold(h, x[..0]), 1, 0);
    }
  }

  lemma SwitchTells(h: nat, x: seq<byte>, y: seq<byte>)
    requires h < TWO_64 && SwitchedOn(x, y)
    ensures Fold(h, x) != Fold(h, y)
  {
    hide MovedAt, Fold, Step, Apart;
    var e := seq(6, n requires 0 <= n < 6 => MovedAt(h, x, y, n));
    forall n | 0 <= n < 6
      ensures -63 <= e[n] <= 63 && (n == 0 ==> e[n] == 1 || e[n] == -1) && (n == 1 ==> -2 <= e[n] <= 2)
    {
      SwitchMoves(h, x, y, n);
    }
    SwitchDistance(e);
    FiveDistances(h, x, y, e);
    DistanceIsApart(h, x, y, 5);
    FoldBound(h, x[..5]);
    FoldBound(h, y[..5]);
    LastOfSix(h, x, y);
  }

  lemma FiveDistances(h: nat, x: seq<byte>, y: seq<byte>, e: seq<int>)
    requires |x| == |y| == |e| == 6 && forall n :: 0 <= n < 6 ==> e[n] == MovedAt(h, x, y, n)
    ensures Distance(h, x, y, 5) + e[5] ==
            435 * (435 * (435 * (435 * (435 * e[0] + e[1]) + e[2]) + e[3]) + e[4]) + e[5]
  {
    hide MovedAt;
    assert Distance(h, x, y, 1) == 435 * e[0];
    assert Distance(h, x, y, 2) == 435 * (435 * e[0] + e[1]);
    assert Distance(h, x, y, 3) == 435 * (435 * (435 * e[0] + e[1]) + e[2]);
    assert Distance(h, x, y, 4) == 435 * (435 * (435 * (435 * e[0] + e[1]) + e[2]) + e[3]);
  }

  lemma LastOfSix(h: nat, x: seq<byte>, y: seq<byte>)
    requires h < TWO_64 && |x| == |y| == 6
    requires Apart(Fold(h, x[..5]), Fold(h, y[..5]), Distance(h, x, y, 5))
    requires (Distance(h, x, y, 5) + MovedAt(h, x, y, 5)) % TWO_40 != 0
    ensures Fold(h, x) != Fold(h, y)
  {
    hide Moved, Fold, Step, Apart, Distance;
    assert x[..6] == x && y[..6] == y;
    FoldOne(h, x, 5);
    FoldOne(h, y, 5);
    FoldBound(h, x[..5]);
    FoldBound(h, y[..5]);
    LastStep(Fold(h, x[..5]), Fold(h, y[..5]), x[5], y[5], Distance(h, x, y, 5));
  }

  // ---------------------------------------------------------------------------
  // The theorem
  // ---------------------------------------------------------------------------

  lemma SameTimesSameEntry(a: Entry, b: Entry)
    requires IsEntry(a) && IsEntry(b) && CellOf(a) == CellOf(b)
    ensures CellBytes(Some(a))[2..] == CellBytes(Some(b))[2..] <==> a == b
  {
    var x, y := CellBytes(Some(a)), CellBytes(Some(b));
    if x[2..] == y[2..] {
      assert x[2..][0] == y[2..][0] && x[2..][1] == y[2..][1];
      assert x[2..][2] == y[2..][2] && x[2..][3] == y[2..][3];
    }
  }

  // The six bytes of two different contents of a cell part any register.
  lemma CellTells(h: nat, r: Option<Entry>, s: Option<Entry>)
    requires h < TWO_64 && r != s && (r.Some? ==> IsEntry(r.value)) && (s.Some? ==> IsEntry(s.value))
    requires r.Some? && s.Some? ==> CellOf(r.value) == CellOf(s.value)
    ensures Fold(h, CellBytes(r)) != Fold(h, CellBytes(s))
  {
    hide Fold;
    var x, y := CellBytes(r), CellBytes(s);
    if r.None? {
      SwitchTells(h, y, x);
    } else if s.None? {
      SwitchTells(h, x, y);
    } else {
      assert x == [1, 2] + x[2..] && y == [1, 2] + y[2..];
      FoldConcat(h, [1, 2], x[2..]);
      FoldConcat(h, [1, 2], y[2..]);
      FoldBound(h, [1, 2]);
      SameTimesSameEntry(r.value, s.value);
      SmallBytesTell(Fold(h, [1, 2]), x[2..], y[2..]);
    }
  }

  // Equal everywhere but in one cell.
  ghost predicate OneCellDiffers(es: seq<Entry>, fs: seq<Entry>, layer: nat, day: nat) {
    && Lookup(es, layer, day) != Lookup(fs, layer, day)
    && (forall l: nat, d: nat :: (l, d) != (layer, day) ==> Lookup(es, l, d) == Lookup(fs, l, d))
  }

  lemma SameOutside(es: seq<Entry>, fs: seq<Entry>, layer: nat, day: nat, enabled: bool, i: nat)
    requires IsGrid(es) && IsGrid(fs) && layer < 5 && day < 7
    requires OneCellDiffers(es, fs, layer, day)
    requires i < 211 && !(layer * 42 + day * 6 <= i < layer * 42 + day * 6 + 6)
    ensures HashedBytes(BuiltImages(es), enabled)[i] == HashedBytes(BuiltImages(fs), enabled)[i]
  {
    GridIsStorable(es);
    GridIsStorable(fs);
    hide Lookup, CellByte, BuiltImages;
    if i < 210 {
      BuiltByte(es, enabled, i);
      BuiltByte(fs, enabled, i);
    }
  }

  /** Two schedules that differ in exactly one cell, in its times or in whether it is on,
  never have the same hash. */
  lemma OneCellTells(es: seq<Entry>, fs: seq<Entry>, layer: nat, day: nat, enabled: bool)
    requires IsGrid(es) && IsGrid(fs) && layer < 5 && day < 7
    requires OneCellDiffers(es, fs, layer, day)
    ensures ScheduleHash(BuiltImages(es), enabled) != ScheduleHash(BuiltImages(fs), enabled)
  {
    GridIsStorable(es);
    GridIsStorable(fs);
    hide HashedByte, CellBytes, BuiltImages, Fold, HashText;
    var x, y := HashedBytes(BuiltImages(es), enabled), HashedBytes(BuiltImages(fs), enabled);
    var at := layer * 42 + day * 6;
    forall i | 0 <= i < 211 && !(at <= i < at + 6)
      ensures x[i] == y[i]
    {
      SameOutside(es, fs, layer, day, enabled, i);
    }
    CellSlice(es, enabled, layer, day);
    CellSlice(fs, enabled, layer, day);
    assert x[..at] == y[..at] && x[at + 6..] == y[at + 6..];
    var h := Fold(OFFSET_BASIS, x[..at]);
    FoldBound(OFFSET_BASIS, x[..at]);
    CellTells(h, Lookup(es, layer, day), Lookup(fs, layer, day));
    PartsTell(x, y, at);
    HashesDiffer(x, y);
  }

  lemma PartsTell(x: seq<byte>, y: seq<byte>, at: nat)
    requires |x| == |y| && at + 6 <= |x| && x[..at] == y[..at] && x[at + 6..] == y[at + 6..]
    requires Fold(Fold(OFFSET_BASIS, x[..at]), x[at..at + 6]) != Fold(Fold(OFFSET_BASIS, x[..at]), y[at..at + 6])
    ensures Fnv1a(x) != Fnv1a(y)
  {
    hide Fold;
    assert x == x[..at] + x[at..at + 6] + x[at + 6..];
    assert y == y[..at] + y[at..at + 6] + y[at + 6..];
    var h := Fold(OFFSET_BASIS, x[..at]);
    FoldBound(OFFSET_BASIS, x[..at]);
    FoldBound(h, x[at..at + 6]);
    FoldBound(h, y[at..at + 6]);
    FoldConcat(OFFSET_BASIS, x[..at] + x[at..at + 6], x[at + 6..]);
    FoldConcat(OFFSET_BASIS, y[..at] + y[at..at + 6], y[at + 6..]);
    FoldConcat(OFFSET_BASIS, x[..at], x[at..at + 6]);
    FoldConcat(OFFSET_BASIS, y[..at], y[at..at + 6]);
    FoldInjective(Fold(h, x[at..at + 6]), Fold(h, y[at..at + 6]), x[at + 6..]);
  }
}
