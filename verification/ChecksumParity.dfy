/** Besides bursts: the generator of the checksum has an even number of terms, so every
odd number of wrong bits is caught, wherever they stand.
*/
module ChecksumParity {
  import opened CrcTable
  import opened Crc
  import opened FrameCheck

  /** Whether an odd number of the n uppermost bits is set. */
  predicate Parity(a: bv16, n: nat)
    decreases n
  {
    n > 0 && TopBit(a) != Parity(Shifted(a), n - 1)
  }

  lemma {:induction false} ParityLinear(a: bv16, b: bv16, n: nat)
    ensures Parity(Sum(a, b), n) == (Parity(a, n) != Parity(b, n))
    decreases n
  {
    hide TopBit, Shifted, Sum;
    if n == 0 {
    } else {
      TopBitLinear(a, b);
      ShiftedLinear(a, b);
      ParityLinear(Shifted(a), Shifted(b), n - 1);
    }
  }

  function ShiftedTimes(a: bv16, n: nat): bv16
    decreases n
  {
    if n == 0 then a else ShiftedTimes(Shifted(a), n - 1)
  }

  lemma {:induction false} OneBitMore(a: bv16, n: nat)
    ensures Parity(a, n + 1) == (Parity(a, n) != TopBit(ShiftedTimes(a, n)))
    decreases n
  {
    hide TopBit, Shifted;
    if n == 0 {
    } else {
      OneBitMore(Shifted(a), n - 1);
    }
  }

  lemma FourShifts(a: bv16)
    ensures Shifted(Shifted(Shifted(Shifted(a)))) == a << 4
  {}

  lemma SixteenShifts(a: bv16)
    ensures (((a << 4) << 4) << 4) << 4 == 0
  {}

  lemma FourTimes(a: bv16, n: nat)
    ensures ShiftedTimes(a, n + 4) == ShiftedTimes(a << 4, n)
  {
    hide Shifted;
    FourShifts(a);
    var b := Shifted(a);
    var c := Shifted(b);
    assert ShiftedTimes(a, n + 4) == ShiftedTimes(b, n + 3) == ShiftedTimes(c, n + 2);
    assert ShiftedTimes(c, n + 2) == ShiftedTimes(Shifted(c), n + 1) == ShiftedTimes(Shifted(Shifted(c)), n);
  }

  lemma ShiftedOut(a: bv16)
    ensures ShiftedTimes(a, 16) == 0
  {
    FourTimes(a, 12);
    FourTimes(a << 4, 8);
    FourTimes((a << 4) << 4, 4);
    FourTimes(((a << 4) << 4) << 4, 0);
    SixteenShifts(a);
  }

  // A shifted register has fifteen bits to count.
  lemma FifteenBits(a: bv16)
    ensures Parity(Shifted(a), 16) == Parity(Shifted(a), 15)
  {
    OneBitMore(Shifted(a), 15);
    ShiftedOut(a);
    assert ShiftedTimes(a, 16) == ShiftedTimes(Shifted(a), 15);
    assert !TopBit(0);
    hide Shifted, TopBit;
  }

  lemma {:induction false} ZeroIsEven(n: nat)
    ensures !Parity(0, n)
  {
    assert Shifted(0) == 0 && !TopBit(0);
    hide Shifted, TopBit;
    if n == 0 {
    } else {
      ZeroIsEven(n - 1);
    }
  }

  lemma TopIsOdd()
    ensures Parity(0x8000, 16)
  {
    assert TopBit(0x8000) && Shifted(0x8000) == 0;
    ZeroIsEven(15);
  }

  // Three terms below the top one.
  lemma GeneratorIsOdd()
    ensures Parity(0x1021, 16)
  {
    assert Parity(0x8000, 1) && Parity(0x4000, 2) && Parity(0x2000, 3) && Parity(0x1000, 4);
    assert Parity(0x0800, 5) && !Parity(0x8400, 6) && !Parity(0x4200, 7) && !Parity(0x2100, 8);
    assert !Parity(0x1080, 9) && !Parity(0x0840, 10) && !Parity(0x0420, 11) && !Parity(0x0210, 12);
    assert Parity(0x8108, 13) && Parity(0x4084, 14) && Parity(0x2042, 15);
  }

  /** A step of the checksum never changes the parity of the register. */
  lemma StepKeepsParity(a: bv16)
    ensures Parity(BitStep(a), 16) == Parity(a, 16)
  {
    FifteenBits(a);
    GeneratorIsOdd();
    ParityLinear(Shifted(a), 0x1021, 16);
    assert Parity(a, 16) == (TopBit(a) != Parity(Shifted(a), 15));
    hide Parity, Shifted, TopBit, Sum;
  }

  lemma FeedBitParity(crc: bv16, bit: bool)
    ensures Parity(FeedBit(crc, bit), 16) == (Parity(crc, 16) != bit)
  {
    StepKeepsParity(Sum(crc, BitWord(bit)));
    ParityLinear(crc, BitWord(bit), 16);
    TopIsOdd();
    ZeroIsEven(16);
    hide Parity, Sum, BitStep;
  }

  function Ones(bits: seq<bool>): nat {
    if bits == [] then 0 else Ones(bits[..|bits| - 1]) + if bits[|bits| - 1] then 1 else 0
  }

  lemma {:induction false} FeedBitsParity(bits: seq<bool>)
    ensures Parity(FeedBits(0, bits), 16) == (Ones(bits) % 2 == 1)
  {
    if bits == [] {
      ZeroIsEven(16);
    } else {
      hide Parity, FeedBit;
      FeedBitsParity(bits[..|bits| - 1]);
      FeedBitParity(FeedBits(0, bits[..|bits| - 1]), bits[|bits| - 1]);
    }
  }

  // Where two messages differ, bit by bit.
  function WrongBits(x: seq<byte>, y: seq<byte>): (wrong: seq<bool>)
    requires |x| == |y|
  {
    seq(8 * |x|, i requires 0 <= i < 8 * |x| => Bits(x)[i] != Bits(y)[i])
  }

  lemma BitsDiffer(x: seq<byte>, y: seq<byte>)
    requires |x| == |y|
    ensures Bits(Xor(x, y)) == WrongBits(x, y)
  {
    hide Bits, Xor;
    forall i | 0 <= i < 8 * |x|
      ensures Bits(Xor(x, y))[i] == WrongBits(x, y)[i]
    {
      BitsOfXor(x, y, i);
    }
  }

  /** Every odd number of wrong bits behind the start byte of an accepted frame, of any
  length and however far apart, makes the frame rejected. */
  lemma OddErrorsRejected(frame: seq<byte>, corrupted: seq<byte>)
    requires FrameCrcValid(frame)
    requires |corrupted| == |frame| && corrupted[0] == frame[0]
    requires Ones(WrongBits(frame[1..], corrupted[1..])) % 2 == 1
    ensures !FrameCrcValid(corrupted)
  {
    assert |frame| >= 4;
    hide FrameCrcValid, Bits, FeedBits, Ones, Parity, WrongBits, Xor;
    var x, y := frame[1..], corrupted[1..];
    SeenByItsBits(frame, corrupted);
    BitsDiffer(x, y);
    FeedBitsParity(Bits(Xor(x, y)));
    ZeroIsEven(16);
  }
}
