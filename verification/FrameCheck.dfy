/** The checksum test of a received frame (components/alpha_hwr/frame_parser.cpp:204-212)
and what it catches.

For an accepted frame, a pattern of bit errors goes unnoticed exactly when the
pattern, fed on its own to an empty register, leaves it empty. No burst of at most
sixteen bits does that, wherever it falls and however long the frame is.
*/
module FrameCheck {
  import opened CrcTable
  import opened Crc

  /** frame_crc_valid: the word in the last two bytes is the checksum of everything
  between the start byte and them. */
  predicate FrameCrcValid(frame: seq<byte>) {
    |frame| >= 4 &&
    CrcRead(frame[1..|frame| - 2]) == U16At(frame, |frame| - 2)
  }

  // ---------------------------------------------------------------------------
  // Accepting is feeding to zero
  // ---------------------------------------------------------------------------

  function ComplementByte(b: byte): byte {
    b ^ 0xFF
  }

  // What follows the start byte, with the transmitted checksum uncomplemented.
  function Covered(frame: seq<byte>): seq<byte>
    requires |frame| >= 4
  {
    var n := |frame|;
    frame[1..n - 2] + [ComplementByte(frame[n - 2]), ComplementByte(frame[n - 1])]
  }

  lemma ComplementU16(hi: byte, lo: byte)
    ensures Hi(Complement(U16(hi, lo))) == ComplementByte(hi)
    ensures Lo(Complement(U16(hi, lo))) == ComplementByte(lo)
  {}

  lemma ComplementTwice(a: bv16)
    ensures Complement(Complement(a)) == a
  {}

  lemma AcceptedFeedsToZero(frame: seq<byte>)
    requires |frame| >= 4
    ensures FrameCrcValid(frame) <==> Feed(CRC_INIT, Covered(frame)) == 0
  {
    var n := |frame|;
    var body, sent := frame[1..n - 2], U16At(frame, n - 2);
    ComplementU16(frame[n - 2], frame[n - 1]);
    assert Covered(frame) == body + U16Bytes(Complement(sent));
    FeedConcat(CRC_INIT, body, U16Bytes(Complement(sent)));
    FeedOwnRegister(Feed(CRC_INIT, body), Complement(sent));
    ComplementTwice(sent);
    ComplementTwice(Feed(CRC_INIT, body));
  }

  lemma ComplementSum(x: byte, y: byte)
    ensures ComplementByte(SumByte(x, y)) == SumByte(ComplementByte(x), y)
  {}

  // The frame with the error pattern added behind its start byte.
  function Corrupted(frame: seq<byte>, error: seq<byte>): seq<byte>
    requires |frame| > 0 && |error| == |frame| - 1
  {
    [frame[0]] + Xor(frame[1..], error)
  }

  lemma CoveredCorrupted(frame: seq<byte>, error: seq<byte>)
    requires |frame| >= 4 && |error| == |frame| - 1
    ensures Covered(Corrupted(frame, error)) == Xor(Covered(frame), error)
  {
    var n := |frame|;
    ComplementSum(frame[n - 2], error[n - 3]);
    ComplementSum(frame[n - 1], error[n - 2]);
    var x, y := Covered(Corrupted(frame, error)), Xor(Covered(frame), error);
    forall i | 0 <= i < n - 1
      ensures x[i] == y[i]
    {
      if i < n - 3 {
        assert x[i] == Corrupted(frame, error)[i + 1] == Xor(frame[1..], error)[i];
      }
    }
  }

  /** Of an accepted frame, the corrupted copy is accepted too exactly when the
  error pattern by itself leaves an empty register empty. */
  lemma UndetectedErrors(frame: seq<byte>, error: seq<byte>)
    requires FrameCrcValid(frame)
    requires |error| == |frame| - 1
    ensures FrameCrcValid(Corrupted(frame, error)) <==> Feed(0, error) == 0
  {
    AcceptedFeedsToZero(frame);
    AcceptedFeedsToZero(Corrupted(frame, error));
    CoveredCorrupted(frame, error);
    FeedLinear(CRC_INIT, 0, Covered(frame), error);
    SumUnit(CRC_INIT);
    SumCommutes(0, Feed(0, error));
    SumUnit(Feed(0, error));
  }

  // ---------------------------------------------------------------------------
  // Bits
  // ---------------------------------------------------------------------------

  predicate TopBitOfByte(y: byte) {
    y & 0x80 != 0
  }

  function ShiftedByte(y: byte): byte {
    y << 1
  }

  // The n most significant bits of a byte, first bit on the wire first.
  function ByteBits(y: byte, n: nat): (bits: seq<bool>)
    ensures |bits| == n
    decreases n
  {
    if n == 0 then [] else [TopBitOfByte(y)] + ByteBits(ShiftedByte(y), n - 1)
  }

  function Bits(data: seq<byte>): (bits: seq<bool>)
    ensures |bits| == 8 * |data|
  {
    if |data| == 0 then [] else ByteBits(data[0], 8) + Bits(data[1..])
  }

  function BitWord(bit: bool): bv16 {
    if bit then 0x8000 else 0
  }

  function FeedBit(crc: bv16, bit: bool): bv16 {
    BitStep(Sum(crc, BitWord(bit)))
  }

  function FeedBits(crc: bv16, bits: seq<bool>): bv16
    decreases |bits|
  {
    if |bits| == 0 then crc
    else FeedBit(FeedBits(crc, bits[..|bits| - 1]), bits[|bits| - 1])
  }

  lemma {:induction false} FeedBitsConcat(crc: bv16, x: seq<bool>, y: seq<bool>)
    ensures FeedBits(crc, x + y) == FeedBits(FeedBits(crc, x), y)
    decreases |y|
  {
    if |y| == 0 {
      assert x + y == x;
    } else {
      var front := y[..|y| - 1];
      assert (x + y)[..|x + y| - 1] == x + front;
      FeedBitsConcat(crc, x, front);
    }
  }

  // The top bit of a byte standing high, and the rest of it one step later.
  lemma HighSteps(y: byte)
    ensures BitStep(High(y)) == Sum(BitStep(BitWord(TopBitOfByte(y))), High(ShiftedByte(y)))
  {}

  function ShiftedBy(y: byte, n: nat): byte
    decreases n
  {
    if n == 0 then y else ShiftedBy(ShiftedByte(y), n - 1)
  }

  // Feeding a byte bit by bit, n bits in: what is still to come stands high.
  lemma {:induction false} LoadedVersusBits(crc: bv16, y: byte, n: nat)
    ensures Steps(Sum(crc, High(y)), n) ==
            Sum(FeedBits(crc, ByteBits(y, n)), High(ShiftedBy(y, n)))
    decreases n
  {
    if n == 0 {
    } else {
      var bit, rest := TopBitOfByte(y), ShiftedByte(y);
      StepsFirst(Sum(crc, High(y)), n);
      BitStepLinear(crc, High(y));
      BitStepLinear(crc, BitWord(bit));
      HighSteps(y);
      SumAssociates(BitStep(crc), BitStep(BitWord(bit)), High(rest));
      LoadedVersusBits(FeedBit(crc, bit), rest, n - 1);
      FeedBitsConcat(crc, [bit], ByteBits(rest, n - 1));
      assert [bit][..0] == [];
      assert FeedBits(crc, [bit]) == FeedBit(crc, bit);
    }
  }

  lemma ShiftedByEight(y: byte, n: nat)
    requires n == 8
    ensures ShiftedBy(y, n) == 0
  {
    var y1 := ShiftedByte(y);
    var y2 := ShiftedByte(y1);
    var y3 := ShiftedByte(y2);
    var y4 := ShiftedByte(y3);
    var y5 := ShiftedByte(y4);
    var y6 := ShiftedByte(y5);
    var y7 := ShiftedByte(y6);
    assert ShiftedBy(y, n) == ShiftedBy(y1, n - 1) == ShiftedBy(y2, n - 2) == ShiftedBy(y3, n - 3);
    assert ShiftedBy(y3, n - 3) == ShiftedBy(y4, n - 4) == ShiftedBy(y5, n - 5) == ShiftedBy(y6, n - 6);
    assert ShiftedBy(y6, n - 6) == ShiftedBy(y7, n - 7) == ShiftedBy(ShiftedByte(y7), n - 8);
    assert ShiftedByte(y7) == 0;
  }

  lemma FeedByteIsBits(crc: bv16, b: byte)
    ensures FeedByte(crc, b) == FeedBits(crc, ByteBits(b, 8))
  {
    var n := 8;
    LoadedVersusBits(crc, b, n);
    EightStepsIsSteps(Load(crc, b), n);
    ShiftedByEight(b, n);
    assert High(0) == 0;
    SumUnit(FeedBits(crc, ByteBits(b, 8)));
  }

  lemma {:induction false} FeedIsBits(crc: bv16, data: seq<byte>)
    ensures Feed(crc, data) == FeedBits(crc, Bits(data))
    decreases |data|
  {
    if |data| == 0 {
    } else {
      FeedByteIsBits(crc, data[0]);
      FeedIsBits(FeedByte(crc, data[0]), data[1..]);
      FeedBitsConcat(crc, ByteBits(data[0], 8), Bits(data[1..]));
    }
  }

  // ---------------------------------------------------------------------------
  // Sixteen bits never cancel
  // ---------------------------------------------------------------------------

  // The single bit at position j, for j <= 15.
  function BitAt(j: nat): bv16 {
    if j == 0 then 1 else BitAt(j - 1) << 1
  }

  predicate LowestBitIs(crc: bv16, m: bv16) {
    crc & m != 0 && crc & (m - 1) == 0
  }

  predicate OneBit(m: bv16) {
    m != 0 && m & (m - 1) == 0
  }

  // The generator has its lowest bit set, so a step that ends in a zero was a
  // plain shift, and the lowest set bit came from one position below.
  lemma LowestBitBack(crc: bv16, bit: bool, m: bv16)
    requires OneBit(m) && m & 0x8000 == 0
    requires LowestBitIs(FeedBit(crc, bit), m << 1)
    ensures LowestBitIs(crc, m)
  {}

  // Fewer bits than the position cannot have lifted the lowest bit that high.
  lemma {:induction false} LowestBitTakesTime(bits: seq<bool>, j: nat)
    requires |bits| <= j <= 15
    ensures !LowestBitIs(FeedBits(0, bits), BitAt(j))
    decreases |bits|
  {
    BitAtIsOneBit(j);
    if |bits| == 0 {
    } else {
      var front := bits[..|bits| - 1];
      LowestBitTakesTime(front, j - 1);
      BitAtIsOneBit(j - 1);
      if LowestBitIs(FeedBits(0, bits), BitAt(j)) {
        LowestBitBack(FeedBits(0, front), bits[|bits| - 1], BitAt(j - 1));
      }
    }
  }

  lemma {:induction false} BitAtIsOneBit(j: nat)
    requires j <= 15
    ensures OneBit(BitAt(j))
    ensures j < 15 ==> BitAt(j) & 0x8000 == 0
    ensures j == 15 ==> BitAt(j) == 0x8000
  {
    assert BitAt(0) == 0x1 && BitAt(1) == 0x2 && BitAt(2) == 0x4 && BitAt(3) == 0x8;
    assert BitAt(4) == 0x10 && BitAt(5) == 0x20 && BitAt(6) == 0x40 && BitAt(7) == 0x80;
    assert BitAt(8) == 0x100 && BitAt(9) == 0x200 && BitAt(10) == 0x400 && BitAt(11) == 0x800;
    assert BitAt(12) == 0x1000 && BitAt(13) == 0x2000 && BitAt(14) == 0x4000 && BitAt(15) == 0x8000;
  }

  /** At most sixteen bits, fed to an empty register, empty it only if all are zero. */
  lemma {:induction false} SixteenBitsNeverCancel(bits: seq<bool>)
    requires |bits| <= 16
    requires FeedBits(0, bits) == 0
    ensures forall i :: 0 <= i < |bits| ==> !bits[i]
    decreases |bits|
  {
    if |bits| == 0 {
    } else {
      var front, last := bits[..|bits| - 1], bits[|bits| - 1];
      var crc := FeedBits(0, front);
      BitStepNonZero(Sum(crc, BitWord(last)));
      SumZero(crc, BitWord(last));
      if last {
        BitAtIsOneBit(15);
        LowestBitTakesTime(front, 15);
      }
      SixteenBitsNeverCancel(front);
    }
  }

  // Zeros leave an empty register empty and a nonempty one nonempty.
  lemma {:induction false} ZerosKeep(crc: bv16, bits: seq<bool>)
    requires forall i :: 0 <= i < |bits| ==> !bits[i]
    ensures FeedBits(crc, bits) == 0 <==> crc == 0
    decreases |bits|
  {
    if |bits| == 0 {
    } else {
      var front := bits[..|bits| - 1];
      ZerosKeep(crc, front);
      SumUnit(FeedBits(crc, front));
      BitStepNonZero(FeedBits(crc, front));
    }
  }

  // ---------------------------------------------------------------------------
  // Bursts
  // ---------------------------------------------------------------------------

  // Every set bit lies in the sixteen positions from p on.
  ghost predicate BurstFrom(bits: seq<bool>, p: nat) {
    forall i :: 0 <= i < |bits| && bits[i] ==> p <= i < p + 16
  }

  lemma ThreeParts(bits: seq<bool>, from: nat, to: nat)
    requires from <= to <= |bits|
    ensures bits == bits[..from] + bits[from..to] + bits[to..]
  {}

  lemma NoneSet(bits: seq<bool>)
    ensures (forall i :: 0 <= i < |bits| ==> !bits[i]) ==> FeedBits(0, bits) == 0
  {
    if forall i :: 0 <= i < |bits| ==> !bits[i] {
      ZerosKeep(0, bits);
    }
  }

  // The register after a burst is the one after its window, shifted on.
  lemma OnlyTheWindow(bits: seq<bool>, p: nat, from: nat, to: nat)
    requires BurstFrom(bits, p) && from == (if p < |bits| then p else |bits|)
    requires to == if p + 16 < |bits| then p + 16 else |bits|
    ensures FeedBits(0, bits) == 0 <==> FeedBits(0, bits[from..to]) == 0
  {
    var before, window, after := bits[..from], bits[from..to], bits[to..];
    ZerosKeep(0, before);
    ZerosKeep(FeedBits(0, window), after);
    hide FeedBits, BurstFrom;
    ThreeParts(bits, from, to);
    FeedBitsConcat(0, before + window, after);
    FeedBitsConcat(0, before, window);
  }

  lemma BurstIsSeen(bits: seq<bool>, p: nat)
    requires BurstFrom(bits, p)
    ensures FeedBits(0, bits) == 0 <==> forall i :: 0 <= i < |bits| ==> !bits[i]
  {
    var from := if p < |bits| then p else |bits|;
    var to := if p + 16 < |bits| then p + 16 else |bits|;
    hide FeedBits;
    OnlyTheWindow(bits, p, from, to);
    NoneSet(bits);
    if FeedBits(0, bits) == 0 {
      SixteenBitsNeverCancel(bits[from..to]);
      assert forall i :: from <= i < to ==> bits[i] == bits[from..to][i - from];
    }
  }

  lemma ByteSumBits(x: byte, y: byte)
    ensures TopBitOfByte(SumByte(x, y)) == (TopBitOfByte(x) != TopBitOfByte(y))
    ensures ShiftedByte(SumByte(x, y)) == SumByte(ShiftedByte(x), ShiftedByte(y))
  {}

  lemma {:induction false} ByteBitsOfSum(x: byte, y: byte, n: nat, i: nat)
    requires i < n
    ensures ByteBits(SumByte(x, y), n)[i] == (ByteBits(x, n)[i] != ByteBits(y, n)[i])
    decreases n
  {
    hide SumByte, TopBitOfByte, ShiftedByte;
    ByteSumBits(x, y);
    if i == 0 {
    } else {
      ByteBitsOfSum(ShiftedByte(x), ShiftedByte(y), n - 1, i - 1);
    }
  }

  /** Bit i of a sum of messages is set where their bits i differ. */
  lemma {:induction false} BitsOfXor(x: seq<byte>, y: seq<byte>, i: nat)
    requires |x| == |y| && i < 8 * |x|
    ensures Bits(Xor(x, y))[i] == (Bits(x)[i] != Bits(y)[i])
    decreases |x|
  {
    assert Xor(x, y)[1..] == Xor(x[1..], y[1..]);
    if i < 8 {
      ByteBitsOfSum(x[0], y[0], 8, i);
    } else {
      BitsOfXor(x[1..], y[1..], i - 8);
    }
  }

  lemma ZeroBitsZeroByte(b: byte, n: nat)
    requires n == 8
    requires forall i :: 0 <= i < n ==> !ByteBits(b, n)[i]
    ensures b == 0
  {
    var b1 := ShiftedByte(b);
    var b2 := ShiftedByte(b1);
    var b3 := ShiftedByte(b2);
    var b4 := ShiftedByte(b3);
    var b5 := ShiftedByte(b4);
    var b6 := ShiftedByte(b5);
    var b7 := ShiftedByte(b6);
    var bits := ByteBits(b, n);
    assert bits[0] == TopBitOfByte(b);
    assert bits[1..] == ByteBits(b1, n - 1) && bits[1] == TopBitOfByte(b1);
    assert bits[2..] == ByteBits(b2, n - 2) && bits[2] == TopBitOfByte(b2);
    assert bits[3..] == ByteBits(b3, n - 3) && bits[3] == TopBitOfByte(b3);
    assert bits[4..] == ByteBits(b4, n - 4) && bits[4] == TopBitOfByte(b4);
    assert bits[5..] == ByteBits(b5, n - 5) && bits[5] == TopBitOfByte(b5);
    assert bits[6..] == ByteBits(b6, n - 6) && bits[6] == TopBitOfByte(b6);
    assert bits[7..] == ByteBits(b7, n - 7) && bits[7] == TopBitOfByte(b7);
  }

  lemma {:induction false} ZeroBitsZeroBytes(data: seq<byte>)
    requires forall i :: 0 <= i < |Bits(data)| ==> !Bits(data)[i]
    ensures forall k :: 0 <= k < |data| ==> data[k] == 0
    decreases |data|
  {
    if |data| == 0 {
    } else {
      var head, tail := ByteBits(data[0], 8), Bits(data[1..]);
      assert Bits(data) == head + tail;
      assert forall i :: 0 <= i < 8 ==> head[i] == Bits(data)[i];
      ZeroBitsZeroByte(data[0], 8);
      assert forall i :: 0 <= i < |tail| ==> tail[i] == Bits(data)[i + 8];
      ZeroBitsZeroBytes(data[1..]);
      assert forall k :: 0 < k < |data| ==> data[k] == data[1..][k - 1];
    }
  }

  lemma SumByteInverse(x: byte, y: byte)
    ensures SumByte(x, SumByte(x, y)) == y
    ensures SumByte(x, y) == 0 <==> x == y
  {}

  lemma ZeroXorEqual(x: seq<byte>, y: seq<byte>)
    requires |x| == |y|
    requires forall k :: 0 <= k < |x| ==> Xor(x, y)[k] == 0
    ensures x == y
  {
    forall k | 0 <= k < |x|
      ensures x[k] == y[k]
    {
      SumByteInverse(x[k], y[k]);
      assert Xor(x, y)[k] == 0;
    }
  }

  // The pattern that turns one frame into the other.
  lemma ErrorBetween(frame: seq<byte>, corrupted: seq<byte>)
    requires |corrupted| == |frame| > 0 && corrupted[0] == frame[0]
    ensures Corrupted(frame, Xor(frame[1..], corrupted[1..])) == corrupted
  {
    var x, y := frame[1..], corrupted[1..];
    forall k | 0 <= k < |x|
      ensures Xor(x, Xor(x, y))[k] == y[k]
    {
      SumByteInverse(x[k], y[k]);
    }
    assert Xor(x, Xor(x, y)) == y;
    assert corrupted == [corrupted[0]] + y;
  }

  /** A changed frame is accepted like the accepted one it came from exactly when the bits
  in which they differ, fed on their own, leave the register empty. */
  lemma SeenByItsBits(frame: seq<byte>, corrupted: seq<byte>)
    requires FrameCrcValid(frame) && |corrupted| == |frame| && corrupted[0] == frame[0]
    ensures FrameCrcValid(corrupted) <==> FeedBits(0, Bits(Xor(frame[1..], corrupted[1..]))) == 0
  {
    assert |frame| >= 4;
    hide FrameCrcValid, Feed, FeedBits, Bits, Xor, Corrupted;
    ErrorBetween(frame, corrupted);
    UndetectedErrors(frame, Xor(frame[1..], corrupted[1..]));
    FeedIsBits(0, Xor(frame[1..], corrupted[1..]));
  }

  lemma NoDifference(x: seq<byte>, y: seq<byte>)
    requires |x| == |y| && forall i :: 0 <= i < |Bits(Xor(x, y))| ==> !Bits(Xor(x, y))[i]
    ensures x == y
  {
    hide Bits, Xor;
    ZeroBitsZeroBytes(Xor(x, y));
    ZeroXorEqual(x, y);
  }

  /** Every burst of at most sixteen bits, anywhere between offset 1 and the last
  checksum byte of an accepted frame of any length, makes the frame rejected. The
  position p counts bits from offset 1. */
  lemma BurstRejected(frame: seq<byte>, corrupted: seq<byte>, p: nat)
    requires FrameCrcValid(frame)
    requires |corrupted| == |frame| && corrupted != frame && corrupted[0] == frame[0]
    requires forall i :: 0 <= i < 8 * (|frame| - 1) && Bits(frame[1..])[i] != Bits(corrupted[1..])[i]
               ==> p <= i < p + 16
    ensures !FrameCrcValid(corrupted)
  {
    assert |frame| >= 4;
    hide FrameCrcValid, FeedBits, Bits, Xor;
    var x, y := frame[1..], corrupted[1..];
    assert frame == [frame[0]] + x && corrupted == [corrupted[0]] + y;
    SeenByItsBits(frame, corrupted);
    BurstOfDifference(x, y, p);
    BurstIsSeen(Bits(Xor(x, y)), p);
    if FeedBits(0, Bits(Xor(x, y))) == 0 {
      NoDifference(x, y);
    }
  }

  lemma BurstOfDifference(x: seq<byte>, y: seq<byte>, p: nat)
    requires |x| == |y|
    requires forall i :: 0 <= i < 8 * |x| && Bits(x)[i] != Bits(y)[i] ==> p <= i < p + 16
    ensures BurstFrom(Bits(Xor(x, y)), p)
  {
    hide Bits, Xor;
    forall i | 0 <= i < 8 * |x| && Bits(Xor(x, y))[i]
      ensures p <= i < p + 16
    {
      BitsOfXor(x, y, i);
    }
  }

  /** Sixteen is the most that can be promised: the generator itself is a burst of
  seventeen bits, and it goes unnoticed. */
  lemma GeneratorUnseen()
    ensures Feed(0, [0x88, 0x10, 0x80]) == 0
  {
    FeedTwo(0, 0x88, 0x10);
    FeedSnoc(0, [0x88, 0x10], 0x80);
    assert [0x88, 0x10] + [0x80 as byte] == [0x88, 0x10, 0x80];
    assert FeedByte(0, 0x88) == 0x1080 && FeedByte(0x1080, 0x10) == 0x8000 && FeedByte(0x8000, 0x80) == 0;
  }

  function Zeros(n: nat): (z: seq<byte>)
    ensures |z| == n
  {
    if n == 0 then [] else [0] + Zeros(n - 1)
  }

  lemma {:induction false} ZerosFeedToZero(n: nat)
    ensures Feed(0, Zeros(n)) == 0
  {
    if n == 0 {
    } else {
      assert High(0) == 0;
      FeedByteZero(0, 0);
      ZerosFeedToZero(n - 1);
    }
  }

  // The seventeen-bit burst, k bytes behind the start byte of a frame of n bytes.
  function SeventeenBits(k: nat, n: nat): (error: seq<byte>)
    requires k + 4 <= n
    ensures |error| == n - 1
  {
    Zeros(k) + [0x88, 0x10, 0x80] + Zeros(n - 4 - k)
  }

  /** ... wherever it falls: every accepted frame stays accepted under it, and is another
  frame. */
  lemma SeventeenBitsEscape(frame: seq<byte>, k: nat)
    requires FrameCrcValid(frame) && k + 4 <= |frame|
    ensures var corrupted := Corrupted(frame, SeventeenBits(k, |frame|));
            FrameCrcValid(corrupted) && corrupted != frame
  {
    var error, rest := SeventeenBits(k, |frame|), Zeros(|frame| - 4 - k);
    FeedConcat(0, Zeros(k) + [0x88, 0x10, 0x80], rest);
    FeedConcat(0, Zeros(k), [0x88, 0x10, 0x80]);
    ZerosFeedToZero(k);
    ZerosFeedToZero(|rest|);
    GeneratorUnseen();
    SameFeed(rest);
    UndetectedErrors(frame, error);
    hide FrameCrcValid, Feed, Zeros;
    SumByteChanges(frame[1..][k]);
    assert error[k] == 0x88 && Corrupted(frame, error)[k + 1] == Xor(frame[1..], error)[k];
  }

  lemma SameFeed(zeros: seq<byte>)
    requires zeros == Zeros(|zeros|)
    ensures Feed(0, zeros) == 0
  {
    ZerosFeedToZero(|zeros|);
  }

  lemma SumByteChanges(x: byte)
    ensures SumByte(x, 0x88) != x
  {}
}
