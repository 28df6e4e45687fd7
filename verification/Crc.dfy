/** CRC-16-CCITT as the telegrams use it (components/alpha_hwr/codec.cpp:46-58)
and as the capture scanner recomputes it (tools/geni_capture_scan.py:243-252).

Feed is the reference: one bit at a time, one byte after another. The firmware's
table-driven loop and the scanner's nested bit loop are both proved to compute it,
so they agree with each other on every byte sequence.
*/
module Crc {
  import opened CrcTable

  type byte = bv8

  const CRC_INIT: bv16 := 0xFFFF

  // A byte added at the top of the register.
  function Load(crc: bv16, b: byte): bv16 {
    Sum(crc, High(b))
  }

  /** One byte into the register: add it at the top, then eight steps. */
  function FeedByte(crc: bv16, b: byte): bv16 {
    EightSteps(Load(crc, b))
  }

  function Feed(crc: bv16, data: seq<byte>): bv16
    decreases |data|
  {
    if |data| == 0 then crc else Feed(FeedByte(crc, data[0]), data[1..])
  }

  function Complement(crc: bv16): bv16 {
    crc ^ 0xFFFF
  }

  /** The checksum of a READ/INFO/EXECUTE telegram: preset, fed, complemented. */
  function CrcRead(data: seq<byte>): bv16 {
    Complement(Feed(CRC_INIT, data))
  }

  // ---------------------------------------------------------------------------
  // The step is linear over GF(2), and invertible
  // ---------------------------------------------------------------------------

  lemma SumCommutes(a: bv16, b: bv16)
    ensures Sum(a, b) == Sum(b, a)
  {}

  lemma SumAssociates(a: bv16, b: bv16, c: bv16)
    ensures Sum(Sum(a, b), c) == Sum(a, Sum(b, c))
  {}

  lemma SumZero(a: bv16, b: bv16)
    ensures Sum(a, b) == 0 <==> a == b
  {}

  lemma SumUnit(a: bv16)
    ensures Sum(a, 0) == a
  {}

  lemma SumExchanges(a: bv16, b: bv16, u: bv16, v: bv16)
    ensures Sum(Sum(a, b), Sum(u, v)) == Sum(Sum(a, u), Sum(b, v))
  {
    SumAssociates(a, b, Sum(u, v));
    SumAssociates(b, u, v);
    SumCommutes(b, u);
    SumAssociates(u, b, v);
    SumAssociates(a, u, Sum(b, v));
  }

  // Whatever is added to both sides drops out.
  lemma SumDropsOut(a: bv16, b: bv16, p: bv16)
    ensures Sum(Sum(a, p), Sum(b, p)) == Sum(a, b)
  {
    SumExchanges(a, p, b, p);
    SumZero(p, p);
    SumUnit(Sum(a, b));
  }

  lemma ShiftedLinear(a: bv16, b: bv16)
    ensures Shifted(Sum(a, b)) == Sum(Shifted(a), Shifted(b))
  {}

  lemma TopBitLinear(a: bv16, b: bv16)
    ensures TopBit(Sum(a, b)) == (TopBit(a) != TopBit(b))
  {}

  lemma BitStepLinear(a: bv16, b: bv16)
    ensures BitStep(Sum(a, b)) == Sum(BitStep(a), BitStep(b))
  {
    var u, v, g: bv16 := Shifted(a), Shifted(b), 0x1021;
    ShiftedLinear(a, b);
    TopBitLinear(a, b);
    if TopBit(a) && TopBit(b) {
      SumDropsOut(u, v, g);
    } else if TopBit(a) {
      SumAssociates(u, v, g);
      SumCommutes(v, g);
      SumAssociates(u, g, v);
    } else if TopBit(b) {
      SumAssociates(u, v, g);
    }
  }

  lemma EightStepsLinear(a: bv16, b: bv16)
    ensures EightSteps(Sum(a, b)) == Sum(EightSteps(a), EightSteps(b))
  {
    var a1, b1 := BitStep(a), BitStep(b);
    var a2, b2 := BitStep(a1), BitStep(b1);
    var a3, b3 := BitStep(a2), BitStep(b2);
    var a4, b4 := BitStep(a3), BitStep(b3);
    var a5, b5 := BitStep(a4), BitStep(b4);
    var a6, b6 := BitStep(a5), BitStep(b5);
    var a7, b7 := BitStep(a6), BitStep(b6);
    BitStepLinear(a, b);
    BitStepLinear(a1, b1);
    BitStepLinear(a2, b2);
    BitStepLinear(a3, b3);
    BitStepLinear(a4, b4);
    BitStepLinear(a5, b5);
    BitStepLinear(a6, b6);
    BitStepLinear(a7, b7);
  }

  /** Only the zero register steps to zero. */
  lemma BitStepNonZero(a: bv16)
    ensures BitStep(a) == 0 <==> a == 0
  {}

  lemma EightStepsNonZero(a: bv16)
    ensures EightSteps(a) == 0 <==> a == 0
  {}

  // Addition of two bytes over GF(2).
  function SumByte(x: byte, y: byte): byte {
    x ^ y
  }

  /** Byte-wise sum of two messages. */
  function Xor(x: seq<byte>, y: seq<byte>): (z: seq<byte>)
    requires |x| == |y|
    ensures |z| == |x|
    ensures forall i :: 0 <= i < |z| ==> z[i] == SumByte(x[i], y[i])
  {
    seq(|x|, i requires 0 <= i < |x| => SumByte(x[i], y[i]))
  }

  lemma HighLinear(x: byte, y: byte)
    ensures High(SumByte(x, y)) == Sum(High(x), High(y))
  {}

  lemma FeedByteLinear(a: bv16, b: bv16, x: byte, y: byte)
    ensures FeedByte(Sum(a, b), SumByte(x, y)) == Sum(FeedByte(a, x), FeedByte(b, y))
  {
    HighLinear(x, y);
    SumExchanges(a, b, High(x), High(y));
    EightStepsLinear(Load(a, x), Load(b, y));
  }

  /** The register after a sum of messages is the sum of the registers. */
  lemma {:induction false} FeedLinear(a: bv16, b: bv16, x: seq<byte>, y: seq<byte>)
    requires |x| == |y|
    ensures Feed(Sum(a, b), Xor(x, y)) == Sum(Feed(a, x), Feed(b, y))
    decreases |x|
  {
    if |x| == 0 {
    } else {
      FeedByteLinear(a, b, x[0], y[0]);
      FeedLinear(FeedByte(a, x[0]), FeedByte(b, y[0]), x[1..], y[1..]);
      assert Xor(x, y)[1..] == Xor(x[1..], y[1..]);
    }
  }

  lemma {:induction false} FeedConcat(crc: bv16, x: seq<byte>, y: seq<byte>)
    ensures Feed(crc, x + y) == Feed(Feed(crc, x), y)
    decreases |x|
  {
    if |x| == 0 {
      assert x + y == y;
    } else {
      assert (x + y)[1..] == x[1..] + y;
      FeedConcat(FeedByte(crc, x[0]), x[1..], y);
    }
  }

  lemma FeedSnoc(crc: bv16, x: seq<byte>, b: byte)
    ensures Feed(crc, x + [b]) == FeedByte(Feed(crc, x), b)
  {
    FeedConcat(crc, x, [b]);
    assert [b][1..] == [];
  }

  // ---------------------------------------------------------------------------
  // The table-driven form
  // ---------------------------------------------------------------------------

  function Hi(v: bv16): byte {
    ((v >> 8) & 0xFF) as byte
  }

  function Lo(v: bv16): byte {
    (v & 0xFF) as byte
  }

  // The table index: the byte added to the top half of the register.
  function TableIndex(crc: bv16, b: byte): byte {
    SumByte(Hi(crc), b)
  }

  function ShiftUp(crc: bv16): bv16 {
    crc << 8
  }

  function LowHalf(crc: bv16): bv16 {
    crc & 0xFF
  }

  lemma LoadSplits(crc: bv16, b: byte)
    ensures Load(crc, b) == Sum(LowHalf(crc), High(TableIndex(crc, b)))
  {}

  // Eight zeros at the top mean eight plain shifts.
  lemma LowHalfShiftsUp(crc: bv16)
    ensures EightSteps(LowHalf(crc)) == ShiftUp(crc)
  {}

  /** One table lookup does the work of eight bit steps. */
  lemma TableStep(crc: bv16, b: byte)
    ensures Sum(ShiftUp(crc), Entry(TableIndex(crc, b))) == FeedByte(crc, b)
  {
    var i := TableIndex(crc, b);
    TableEntry(i);
    LoadSplits(crc, b);
    EightStepsLinear(LowHalf(crc), High(i));
    LowHalfShiftsUp(crc);
  }

  /** calc_crc16: the table-driven loop computes the bit-serial register. */
  method CalcCrc16(data: seq<byte>, init: bv16) returns (crc: bv16)
    ensures crc == Feed(init, data)
  {
    crc := init;
    for i := 0 to |data|
      invariant crc == Feed(init, data[..i])
    {
      TableStep(crc, data[i]);
      FeedSnoc(init, data[..i], data[i]);
      assert data[..i + 1] == data[..i] + [data[i]];
      crc := Sum(ShiftUp(crc), Entry(TableIndex(crc, data[i])));
    }
    assert data[..|data|] == data;
  }

  /** calc_crc16_read, with its default preset. */
  method CalcCrc16Read(data: seq<byte>) returns (crc: bv16)
    ensures crc == CrcRead(data)
  {
    crc := CalcCrc16(data, CRC_INIT);
    crc := Complement(crc);
  }

  // ---------------------------------------------------------------------------
  // The scanner's bit-serial form
  // ---------------------------------------------------------------------------

  function Steps(crc: bv16, n: nat): bv16 {
    if n == 0 then crc else BitStep(Steps(crc, n - 1))
  }

  lemma {:induction false} StepsFirst(crc: bv16, n: nat)
    requires n > 0
    ensures Steps(crc, n) == Steps(BitStep(crc), n - 1)
    decreases n
  {
    hide BitStep;
    if n == 1 {
      assert Steps(crc, n - 1) == crc;
    } else {
      StepsFirst(crc, n - 1);
    }
  }

  lemma EightStepsIsSteps(crc: bv16, n: nat)
    requires n == 8
    ensures Steps(crc, n) == EightSteps(crc)
  {
    var s1 := Steps(crc, n - 7);
    assert s1 == BitStep(Steps(crc, n - 8));
    var s2 := Steps(crc, n - 6);
    var s3 := Steps(crc, n - 5);
    var s4 := Steps(crc, n - 4);
    var s5 := Steps(crc, n - 3);
    var s6 := Steps(crc, n - 2);
    var s7 := Steps(crc, n - 1);
    assert s2 == BitStep(s1) && s3 == BitStep(s2) && s4 == BitStep(s3);
    assert s5 == BitStep(s4) && s6 == BitStep(s5) && s7 == BitStep(s6);
  }

  /** crc16 of the capture scanner: a bit loop inside a byte loop. It returns
  what the firmware's table-driven calc_crc16_read returns. */
  method BitSerialCrc16(data: seq<byte>) returns (crc: bv16)
    ensures crc == CrcRead(data)
  {
    crc := CRC_INIT;
    for i := 0 to |data|
      invariant crc == Feed(CRC_INIT, data[..i])
    {
      FeedSnoc(CRC_INIT, data[..i], data[i]);
      assert data[..i + 1] == data[..i] + [data[i]];
      crc := Load(crc, data[i]);
      ghost var loaded := crc;
      for k := 0 to 8
        invariant crc == Steps(loaded, k)
      {
        crc := if TopBit(crc) then Sum(Shifted(crc), 0x1021) else Shifted(crc);
      }
      EightStepsIsSteps(loaded, 8);
    }
    assert data[..|data|] == data;
    crc := Complement(crc);
  }

  // ---------------------------------------------------------------------------
  // Big-endian words (codec.cpp:85-95)
  // ---------------------------------------------------------------------------

  function U16(hi: byte, lo: byte): bv16 {
    High(hi) | (lo as bv16)
  }

  function U16Bytes(v: bv16): seq<byte> {
    [Hi(v), Lo(v)]
  }

  function U16At(data: seq<byte>, offset: nat): bv16
    requires offset + 2 <= |data|
  {
    U16(data[offset], data[offset + 1])
  }

  lemma HiLoOfU16(hi: byte, lo: byte)
    ensures Hi(U16(hi, lo)) == hi
    ensures Lo(U16(hi, lo)) == lo
  {}

  lemma U16OfHiLo(v: bv16)
    ensures U16(Hi(v), Lo(v)) == v
  {}

  /** Decoding at any offset gives v exactly when the two bytes there are the
  encoding of v. */
  lemma U16RoundTrip(data: seq<byte>, offset: nat, v: bv16)
    requires offset + 2 <= |data|
    ensures U16At(data, offset) == v <==> data[offset..offset + 2] == U16Bytes(v)
  {
    HiLoOfU16(data[offset], data[offset + 1]);
    U16OfHiLo(v);
    assert data[offset..offset + 2] == [data[offset], data[offset + 1]];
  }

  // A byte empties the register when the register is that byte, standing high.
  lemma FeedByteZero(crc: bv16, b: byte)
    ensures FeedByte(crc, b) == 0 <==> crc == High(b)
  {
    EightStepsNonZero(Load(crc, b));
    SumZero(crc, High(b));
  }

  // After its own high byte, a register is its low byte, standing high.
  lemma FeedOwnHigh(v: bv16)
    ensures FeedByte(v, Hi(v)) == High(Lo(v))
  {}

  /** A message followed by a word feeds to zero exactly when the word is the
  message's own register. This is what "the checksum matches" means. */
  lemma FeedOwnRegister(crc: bv16, v: bv16)
    ensures Feed(crc, U16Bytes(v)) == 0 <==> crc == v
  {
    FeedTwo(crc, Hi(v), Lo(v));
    FeedByteZero(FeedByte(crc, Hi(v)), Lo(v));
    FeedOwnHigh(v);
    FeedByteInjective(crc, v, Hi(v));
  }

  lemma FeedTwo(crc: bv16, x: byte, y: byte)
    ensures Feed(crc, [x, y]) == FeedByte(FeedByte(crc, x), y)
  {
    assert [x, y] == [x] + [y];
    FeedSnoc(crc, [x], y);
    FeedSnoc(crc, [], x);
    assert [] + [x] == [x];
  }

  lemma FeedByteInjective(a: bv16, b: bv16, x: byte)
    ensures FeedByte(a, x) == FeedByte(b, x) <==> a == b
  {
    if FeedByte(a, x) == FeedByte(b, x) {
      EightStepsLinear(Load(a, x), Load(b, x));
      SumZero(FeedByte(a, x), FeedByte(b, x));
      EightStepsNonZero(Sum(Load(a, x), Load(b, x)));
      SumDropsOut(a, b, High(x));
      SumZero(a, b);
    }
  }

  /** The published check value of CRC-16/GENIBUS: what the nine digits give. */
  lemma CheckValue()
    ensures CrcRead([0x31, 0x32, 0x33, 0x34, 0x35, 0x36, 0x37, 0x38, 0x39]) == 0xD64E
  {
    assert FeedByte(0xFFFF, 0x31) == 0xC782 && FeedByte(0xC782, 0x32) == 0x3DBA;
    assert FeedByte(0x3DBA, 0x33) == 0x5BCE && FeedByte(0x5BCE, 0x34) == 0x5349;
    assert FeedByte(0x5349, 0x35) == 0x4560 && FeedByte(0x4560, 0x36) == 0x2EF4;
    assert FeedByte(0x2EF4, 0x37) == 0x7718 && FeedByte(0x7718, 0x38) == 0xA12B;
    assert FeedByte(0xA12B, 0x39) == 0x29B1;
    hide FeedByte;
    FeedThree(0xFFFF, 0x31, 0x32, 0x33);
    FeedThree(0x5BCE, 0x34, 0x35, 0x36);
    FeedThree(0x2EF4, 0x37, 0x38, 0x39);
    FeedConcat(0xFFFF, [0x31, 0x32, 0x33], [0x34, 0x35, 0x36]);
    FeedConcat(0xFFFF, [0x31, 0x32, 0x33] + [0x34, 0x35, 0x36], [0x37, 0x38, 0x39]);
    assert [0x31, 0x32, 0x33] + [0x34, 0x35, 0x36] + [0x37, 0x38, 0x39 as byte] ==
           [0x31, 0x32, 0x33, 0x34, 0x35, 0x36, 0x37, 0x38, 0x39];
  }

  lemma FeedThree(crc: bv16, x: byte, y: byte, z: byte)
    ensures Feed(crc, [x, y, z]) == FeedByte(FeedByte(FeedByte(crc, x), y), z)
  {
    hide FeedByte;
    assert [x, y, z] == [x, y] + [z];
    FeedSnoc(crc, [x, y], z);
    FeedTwo(crc, x, y);
  }
}
