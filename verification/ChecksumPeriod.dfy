/** Two wrong bits: the bit steps of the checksum come round after 32767 of them and not
before, so two wrong bits cancel only at a multiple of that distance, which is 4096 bytes.

A register stands for a polynomial over GF(2), a step for multiplying it by x modulo the
generator. Times multiplies two of them; x raised to the powers in question is then
computed by squaring instead of step by step.
*/
module ChecksumPeriod {
  import opened CrcTable
  import opened Crc
  import opened FrameCheck
  import opened ChecksumParity

  const PERIOD := 32767

  // ---------------------------------------------------------------------------
  // Many steps
  // ---------------------------------------------------------------------------

  lemma {:induction false} StepsCompose(a: bv16, m: nat, n: nat)
    ensures Steps(Steps(a, m), n) == Steps(a, m + n)
    decreases n
  {
    hide BitStep;
    if n == 0 {
    } else {
      StepsCompose(a, m, n - 1);
    }
  }

  lemma StepsCommute(a: bv16, m: nat, n: nat)
    ensures Steps(Steps(a, m), n) == Steps(Steps(a, n), m)
  {
    StepsCompose(a, m, n);
    StepsCompose(a, n, m);
  }

  lemma BitStepInjective(a: bv16, b: bv16)
    ensures BitStep(a) == BitStep(b) <==> a == b
  {
    hide BitStep, Sum;
    BitStepLinear(a, b);
    BitStepNonZero(Sum(a, b));
    SumZero(BitStep(a), BitStep(b));
    SumZero(a, b);
  }

  lemma {:induction false} StepsInjective(a: bv16, b: bv16, n: nat)
    ensures Steps(a, n) == Steps(b, n) <==> a == b
  {
    hide BitStep;
    if n == 0 {
    } else {
      BitStepInjective(Steps(a, n - 1), Steps(b, n - 1));
      StepsInjective(a, b, n - 1);
    }
  }

  // ---------------------------------------------------------------------------
  // Multiplication, Horner's way: from the uppermost bit of a down
  // ---------------------------------------------------------------------------

  function Chosen(bit: bool, b: bv16): bv16 {
    if bit then b else 0
  }

  function Term(s: bv16, a: bv16, b: bv16): bv16 {
    Sum(BitStep(s), Chosen(TopBit(a), b))
  }

  // The n uppermost bits of a.
  function Horner(s: bv16, a: bv16, b: bv16, n: nat): bv16
    decreases n
  {
    if n == 0 then s else Horner(Term(s, a, b), Shifted(a), b, n - 1)
  }

  function FourTerms(s: bv16, a: bv16, b: bv16): bv16 {
    var a1 := Shifted(a);
    var a2 := Shifted(a1);
    Term(Term(Term(Term(s, a, b), a1, b), a2, b), Shifted(a2), b)
  }

  function Times(a: bv16, b: bv16): bv16 {
    FourTerms(FourTerms(FourTerms(FourTerms(0, a, b), a << 4, b), (a << 4) << 4, b), ((a << 4) << 4) << 4, b)
  }

  lemma FourOfHorner(s: bv16, a: bv16, b: bv16, n: nat)
    requires n >= 4
    ensures Horner(s, a, b, n) == Horner(FourTerms(s, a, b), a << 4, b, n - 4)
  {
    hide Term, Shifted;
    FourShifts(a);
    var a1 := Shifted(a);
    var a2 := Shifted(a1);
    var s2 := Term(Term(s, a, b), a1, b);
    assert Horner(s, a, b, n) == Horner(Term(s, a, b), a1, b, n - 1) == Horner(s2, a2, b, n - 2);
    assert Horner(s2, a2, b, n - 2) == Horner(Term(s2, a2, b), Shifted(a2), b, n - 3);
  }

  lemma TimesIsHorner(a: bv16, b: bv16)
    ensures Times(a, b) == Horner(0, a, b, 16)
  {
    hide FourTerms;
    var a4 := a << 4;
    var a8 := a4 << 4;
    var s4 := FourTerms(0, a, b);
    var s8 := FourTerms(s4, a4, b);
    var s12 := FourTerms(s8, a8, b);
    FourOfHorner(0, a, b, 16);
    FourOfHorner(s4, a4, b, 12);
    FourOfHorner(s8, a8, b, 8);
    FourOfHorner(s12, a8 << 4, b, 4);
  }

  lemma ChosenLinear(p: bool, q: bool, b: bv16)
    ensures Chosen(p != q, b) == Sum(Chosen(p, b), Chosen(q, b))
  {
    hide Sum;
    SumUnit(b);
    SumUnit(0);
    SumCommutes(0, b);
    SumZero(b, b);
  }

  lemma {:induction false} HornerLinear(s: bv16, r: bv16, a: bv16, c: bv16, b: bv16, n: nat)
    ensures Horner(Sum(s, r), Sum(a, c), b, n) == Sum(Horner(s, a, b, n), Horner(r, c, b, n))
    decreases n
  {
    hide Sum, Shifted, TopBit, BitStep, Chosen;
    if n == 0 {
    } else {
      ShiftedLinear(a, c);
      TopBitLinear(a, c);
      ChosenLinear(TopBit(a), TopBit(c), b);
      BitStepLinear(s, r);
      SumExchanges(BitStep(s), BitStep(r), Chosen(TopBit(a), b), Chosen(TopBit(c), b));
      HornerLinear(Term(s, a, b), Term(r, c, b), Shifted(a), Shifted(c), b, n - 1);
    }
  }

  lemma {:induction false} OneTermMore(s: bv16, a: bv16, b: bv16, n: nat)
    ensures Horner(s, a, b, n + 1) == Term(Horner(s, a, b, n), ShiftedTimes(a, n), b)
    decreases n
  {
    hide Term, Shifted;
    if n == 0 {
      assert Horner(s, a, b, 1) == Horner(Term(s, a, b), Shifted(a), b, 0);
    } else {
      OneTermMore(Term(s, a, b), Shifted(a), b, n - 1);
    }
  }

  lemma NothingChosen(s: bv16, b: bv16)
    ensures Term(s, 0, b) == BitStep(s) && Shifted(0) == 0
  {
    SumUnit(BitStep(s));
  }

  lemma {:induction false} HornerOfZero(s: bv16, b: bv16, n: nat)
    ensures Horner(s, 0, b, n) == Steps(s, n)
    decreases n
  {
    NothingChosen(s, b);
    hide Term, Shifted, BitStep;
    if n == 0 {
    } else {
      HornerOfZero(BitStep(s), b, n - 1);
      StepsFirst(s, n);
    }
  }

  // The uppermost bit of a apart from the rest.
  lemma TimesSplits(a: bv16, b: bv16)
    ensures BitStep(Times(a, b)) == Sum(Times(Shifted(a), b), Steps(Chosen(TopBit(a), b), 16))
  {
    var top, rest := Chosen(TopBit(a), b), Shifted(a);
    assert BitStep(0) == 0;
    SumCommutes(0, top);
    SumUnit(top);
    SumCommutes(0, rest);
    SumUnit(rest);
    hide Sum, Shifted, TopBit, BitStep, Chosen, Times;
    TimesIsHorner(a, b);
    TimesIsHorner(rest, b);
    assert Horner(0, a, b, 16) == Horner(top, rest, b, 15);
    HornerLinear(0, top, rest, 0, b, 15);
    SumCommutes(rest, 0);
    HornerOfZero(top, b, 15);
    BitStepLinear(Horner(0, rest, b, 15), Steps(top, 15));
    LastTermIsEmpty(a, b);
  }

  lemma LastTermIsEmpty(a: bv16, b: bv16)
    ensures Horner(0, Shifted(a), b, 16) == BitStep(Horner(0, Shifted(a), b, 15))
  {
    hide Shifted, BitStep, Sum;
    OneTermMore(0, Shifted(a), b, 15);
    ShiftedOut(a);
    assert ShiftedTimes(a, 16) == ShiftedTimes(Shifted(a), 15);
    NothingChosen(Horner(0, Shifted(a), b, 15), b);
  }

  lemma {:induction false} StepsOfZero(n: nat)
    ensures Steps(0, n) == 0
  {
    assert BitStep(0) == 0;
    hide BitStep;
    if n == 0 {
    } else {
      StepsOfZero(n - 1);
    }
  }

  lemma {:induction false} StepsLinear(a: bv16, b: bv16, n: nat)
    ensures Steps(Sum(a, b), n) == Sum(Steps(a, n), Steps(b, n))
  {
    hide BitStep, Sum;
    if n == 0 {
    } else {
      StepsLinear(a, b, n - 1);
      BitStepLinear(Steps(a, n - 1), Steps(b, n - 1));
    }
  }

  lemma TimesLinear(a: bv16, c: bv16, b: bv16)
    ensures Times(Sum(a, c), b) == Sum(Times(a, b), Times(c, b))
  {
    SumUnit(0);
    hide Times, Sum;
    TimesIsHorner(Sum(a, c), b);
    TimesIsHorner(a, b);
    TimesIsHorner(c, b);
    HornerLinear(0, 0, a, c, b, 16);
  }

  // Stepping a factor steps the product, if the generator counts as zero.
  lemma TimesOfStep(a: bv16, b: bv16)
    requires TopBit(a) ==> Times(0x1021, b) == Steps(b, 16)
    ensures Times(BitStep(a), b) == BitStep(Times(a, b))
  {
    TimesSplits(a, b);
    StepsOfZero(16);
    SumUnit(Times(Shifted(a), b));
    TimesLinear(Shifted(a), 0x1021, b);
    hide Times, Sum, TopBit, Shifted, Steps;
  }

  lemma TimesOne(b: bv16)
    ensures Times(1, b) == b
  {
    SumUnit(0);
    SumCommutes(0, b);
    SumUnit(b);
    assert BitStep(0) == 0;
    hide BitStep, Sum;
  }

  // Below the sixteenth power there is only one bit, and it never reaches the top.
  lemma SmallPower(k: nat)
    requires k <= 15
    ensures Steps(1, k) == BitAt(k)
    ensures k < 15 ==> !TopBit(Steps(1, k))
  {
    BitAtIsOneBit(k);
    if k == 0 {
    } else {
      SmallPower(k - 1);
      ShiftedPower(BitAt(k - 1));
    }
  }

  lemma ShiftedPower(a: bv16)
    requires !TopBit(a)
    ensures BitStep(a) == a << 1
  {}

  lemma {:induction false} TimesSmallPower(k: nat, b: bv16)
    requires k <= 15
    ensures Times(Steps(1, k), b) == Steps(b, k)
  {
    hide Times, BitStep, TopBit, BitAt;
    if k == 0 {
      TimesOne(b);
    } else {
      SmallPower(k - 1);
      TimesSmallPower(k - 1, b);
      TimesOfStep(Steps(1, k - 1), b);
    }
  }

  // The generator is zero: x to the sixteenth is what remains of it.
  lemma GeneratorVanishes(n: nat)
    ensures Times(0x1021, Steps(1, n)) == Steps(Steps(1, n), 16)
  {
    var b := Steps(1, n);
    TermsOfGenerator();
    hide Times, BitStep, Sum, Steps;
    TimesLinear(Steps(1, 12), Sum(Steps(1, 5), Steps(1, 0)), b);
    TimesLinear(Steps(1, 5), Steps(1, 0), b);
    TimesSmallPower(12, b);
    TimesSmallPower(5, b);
    TimesSmallPower(0, b);
    StepsLinear(Steps(1, 12), Sum(Steps(1, 5), Steps(1, 0)), n);
    StepsLinear(Steps(1, 5), Steps(1, 0), n);
    StepsCommute(1, n, 12);
    StepsCommute(1, n, 5);
    StepsCommute(1, n, 0);
    StepsCommute(1, n, 16);
  }

  lemma TermsOfGenerator()
    ensures Steps(1, 16) == 0x1021 == Sum(Steps(1, 12), Sum(Steps(1, 5), Steps(1, 0)))
  {
    SmallPower(15);
    SmallPower(12);
    SmallPower(5);
    BitAtIsOneBit(15);
    assert Steps(1, 16) == BitStep(Steps(1, 15));
    assert BitAt(5) == 0x20 && BitAt(8) == 0x100 && BitAt(12) == 0x1000;
  }

  /** Multiplying by x to the m is m steps. */
  lemma {:induction false} TimesPower(m: nat, n: nat)
    ensures Times(Steps(1, m), Steps(1, n)) == Steps(1, m + n)
    decreases m
  {
    hide Times, BitStep, TopBit;
    if m == 0 {
      TimesOne(Steps(1, n));
    } else {
      GeneratorVanishes(n);
      TimesPower(m - 1, n);
      TimesOfStep(Steps(1, m - 1), Steps(1, n));
    }
  }

  // ---------------------------------------------------------------------------
  // The period
  // ---------------------------------------------------------------------------

  predicate ComesRound(n: nat) {
    Steps(1, n) == 1
  }

  lemma Squared(n: nat, a: bv16)
    requires Steps(1, n) == a
    ensures Steps(1, 2 * n) == Times(a, a)
  {
    hide Times;
    TimesPower(n, n);
  }

  // x raised to the powers of two.
  lemma PowersBySquaring()
    ensures Steps(1, 8) == 0x100 && Steps(1, 16) == 0x1021 && Steps(1, 32) == 0x3730
    ensures Steps(1, 64) == 0xB861 && Steps(1, 128) == 0xAEFC && Steps(1, 256) == 0x8E29
    ensures Steps(1, 512) == 0x13FC && Steps(1, 1024) == 0x36C4 && Steps(1, 2048) == 0xFD50
    ensures Steps(1, 4096) == 0xAA9E && Steps(1, 8192) == 0x881C && Steps(1, 16384) == 0x4458
    ensures Steps(1, 32768) == 2
  {
    FirstSquares();
    LastSquares();
    hide Times, Steps;
    TermsOfGenerator();
    Squared(16, 0x1021);
    Squared(32, 0x3730);
    Squared(64, 0xB861);
    Squared(128, 0xAEFC);
    Squared(256, 0x8E29);
    Squared(512, 0x13FC);
    Squared(1024, 0x36C4);
    Squared(2048, 0xFD50);
    Squared(4096, 0xAA9E);
    Squared(8192, 0x881C);
    Squared(16384, 0x4458);
    EighthPower();
  }

  lemma EighthPower()
    ensures Steps(1, 8) == 0x100
  {
    SmallPower(8);
    assert BitAt(4) == 0x10 && BitAt(6) == 0x40 && BitAt(8) == 0x100;
  }

  lemma FirstSquares()
    ensures Times(0x1021, 0x1021) == 0x3730 && Times(0x3730, 0x3730) == 0xB861
    ensures Times(0xB861, 0xB861) == 0xAEFC && Times(0xAEFC, 0xAEFC) == 0x8E29
    ensures Times(0x8E29, 0x8E29) == 0x13FC
  {}

  lemma LastSquares()
    ensures Times(0x13FC, 0x13FC) == 0x36C4 && Times(0x36C4, 0x36C4) == 0xFD50
    ensures Times(0xFD50, 0xFD50) == 0xAA9E && Times(0xAA9E, 0xAA9E) == 0x881C
    ensures Times(0x881C, 0x881C) == 0x4458 && Times(0x4458, 0x4458) == 2
  {}

  lemma PeriodComesRound()
    ensures ComesRound(PERIOD)
  {
    PowersBySquaring();
    StepsCompose(1, 1, PERIOD);
    StepsCompose(1, PERIOD, 1);
    assert Steps(1, 1) == BitStep(Steps(1, 0)) == 2;
    hide Steps;
    StepsInjective(Steps(1, PERIOD), 1, 1);
  }

  lemma ShorterDoNot()
    ensures !ComesRound(217) && !ComesRound(1057) && !ComesRound(4681)
  {
    PowersBySquaring();
    ShortProducts();
    assert Steps(1, 1) == BitStep(Steps(1, 0)) == 2;
    hide Times, Steps;
    TimesPower(1, 8);
    TimesPower(16, 64);
    TimesPower(80, 9);
    TimesPower(128, 89);
    TimesPower(1, 32);
    TimesPower(1024, 33);
    TimesPower(64, 9);
    TimesPower(512, 73);
    TimesPower(4096, 585);
  }

  lemma ShortProducts()
    ensures Times(2, 0x100) == 0x200 && Times(0x1021, 0xB861) == 0xEB23
    ensures Times(0xEB23, 0x200) == 0xDE8A && Times(0xAEFC, 0xDE8A) == 0x48E3
    ensures Times(2, 0x3730) == 0x6E60 && Times(0x36C4, 0x6E60) == 0xF2AF
    ensures Times(0xB861, 0x200) == 0x8FA6 && Times(0x13FC, 0x8FA6) == 0x4500
    ensures Times(0xAA9E, 0x4500) == 0x2C42
  {}

  lemma RoundAndOn(m: nat, n: nat)
    requires ComesRound(m)
    ensures ComesRound(m + n) <==> ComesRound(n)
  {
    StepsCompose(1, m, n);
  }

  lemma {:induction false} RoundManyTimes(q: nat, m: nat)
    requires ComesRound(m)
    ensures ComesRound(q * m)
    decreases q
  {
    assert Steps(1, 0) == 1;
    hide Steps;
    if q == 0 {
    } else {
      RoundManyTimes(q - 1, m);
      RoundAndOn(m, (q - 1) * m);
      assert q * m == m + (q - 1) * m;
    }
  }

  lemma RoundRemainder(n: nat, m: nat)
    requires m > 0 && ComesRound(m)
    ensures ComesRound(n) <==> ComesRound(n % m)
  {
    hide ComesRound;
    RoundManyTimes(n / m, m);
    RoundAndOn(n / m * m, n % m);
  }

  // Euclid's algorithm on two distances that come round.
  lemma {:induction false} CommonDivisor(a: nat, b: nat) returns (g: nat, p: nat, q: nat)
    requires b > 0 && ComesRound(a) && ComesRound(b)
    ensures g > 0 && ComesRound(g) && a == p * g && b == q * g
    decreases b
  {
    hide ComesRound;
    RoundRemainder(a, b);
    if a % b == 0 {
      g, p, q := b, a / b, 1;
    } else {
      var c, d;
      g, c, d := CommonDivisor(b, a % b);
      p, q := a / b * c + d, c;
      assert a == a / b * (c * g) + d * g;
    }
  }

  // 32767 is the product of these three primes.
  predicate OfPeriod(prime: nat) {
    prime == 7 || prime == 31 || prime == 151
  }

  lemma SmallFactor(d: nat, e: nat)
    requires OfPeriod(d * e) && d <= 12
    ensures d == 1 || e == 1
  {
    assert d == 2 ==> d * e == 2 * e;
    assert d == 3 ==> d * e == 3 * e;
    assert d == 4 ==> d * e == 4 * e;
    assert d == 5 ==> d * e == 5 * e;
    assert d == 6 ==> d * e == 6 * e;
    assert d == 7 ==> d * e == 7 * e;
    assert d == 8 ==> d * e == 8 * e;
    assert d == 9 ==> d * e == 9 * e;
    assert d == 10 ==> d * e == 10 * e;
    assert d == 11 ==> d * e == 11 * e;
    assert d == 12 ==> d * e == 12 * e;
  }

  lemma OnlyTrivialFactors(d: nat, e: nat)
    requires OfPeriod(d * e)
    ensures d == 1 || e == 1
  {
    if d <= 12 {
      SmallFactor(d, e);
    } else if e <= 12 {
      SmallFactor(e, d);
    } else {
      AtLeast(d, e, 13, 13);
    }
  }

  lemma AtLeast(d: nat, e: nat, b: nat, c: nat)
    requires d >= b && e >= c
    ensures d * e >= b * c
  {
    var more := d - b;
    assert d * e == b * e + more * e;
    var rest := e - c;
    assert b * e == b * c + b * rest;
  }

  lemma Cancels(m: int, x: int, y: int)
    requires m > 0 && m * x == m * y
    ensures x == y
  {
    var d := x - y;
    assert m * d == 0;
    if d > 0 {
      AtLeast(m, d, 1, 1);
    }
  }

  lemma RestOfPrime(prime: int, p: int, g: int, n: int, k: int, r: int)
    requires prime == k * p + r && p * g == prime * n
    ensures r * g == prime * (g - k * n)
  {
    assert prime * g == k * (p * g) + r * g;
    assert k * (prime * n) == prime * (k * n);
  }

  lemma RestOfFactor(prime: int, p: int, g: int, n: int, k: int, r: int)
    requires p == k * prime + r && p * g == prime * n
    ensures r * g == prime * (n - k * g)
  {
    assert p * g == prime * (k * g) + r * g;
  }

  // A prime that divides p * g, but is above p, divides g.
  lemma {:induction false} DividesSecond(prime: nat, p: nat, g: nat, n: int) returns (q: int)
    requires OfPeriod(prime) && 0 < p < prime && p * g == prime * n
    ensures g == prime * q
    decreases p
  {
    if p == 1 {
      q := n;
    } else {
      var k, r := prime / p, prime % p;
      assert prime == k * p + r;
      RestOfPrime(prime, p, g, n, k, r);
      if r == 0 {
        OnlyTrivialFactors(k, p);
      }
      q := DividesSecond(prime, r, g, g - k * n);
    }
  }

  lemma Quotient(prime: nat, p: nat, g: nat, n: nat, q: int)
    requires OfPeriod(prime) && p * g == prime * n && g == prime * q
    ensures q >= 0 && p * q == n
  {
    assert prime * (p * q) == prime * n;
    Cancels(prime, p * q, n);
  }

  lemma DividesEither(prime: nat, p: nat, g: nat, n: nat) returns (first: bool, q: nat)
    requires OfPeriod(prime) && g > 0 && p * g == prime * n
    ensures first ==> p == prime * q && q * g == n
    ensures !first ==> g == prime * q && p * q == n
  {
    var k, r := p / prime, p % prime;
    assert p == k * prime + r;
    RestOfFactor(prime, p, g, n, k, r);
    first := r == 0;
    if first {
      q := k;
      Cancels(prime, n, k * g);
    } else {
      var d := DividesSecond(prime, r, g, n - k * g);
      Quotient(prime, p, g, n, d);
      q := d;
    }
  }

  // A proper divisor divides one of the three distances that do not come round.
  lemma ProperDivisor(p: nat, g: nat) returns (k: nat)
    requires p >= 2 && p * g == PERIOD
    ensures k * g == 217 || k * g == 1057 || k * g == 4681
  {
    var by7, a := DividesEither(7, p, g, 4681);
    if by7 {
      k := a;
    } else {
      var by31, b := DividesEither(31, p, a, 151);
      if by31 {
        k := b;
        assert k * g == 7 * (b * a);
      } else {
        OnlyTrivialFactors(p, b);
        k := 1;
      }
    }
  }

  lemma RemainderIsProper(g: nat, p: nat, q: nat, r: nat)
    requires p * g == PERIOD && q * g == r && 0 < r < PERIOD
    ensures p >= 2
  {
    if p == 1 {
      AtLeast(q, g, 1, g);
    }
  }

  lemma RemaindersDoNot(r: nat)
    requires 0 < r < PERIOD
    ensures !ComesRound(r)
  {
    hide ComesRound;
    if ComesRound(r) {
      PeriodComesRound();
      var g, p, q := CommonDivisor(PERIOD, r);
      RemainderIsProper(g, p, q, r);
      var k := ProperDivisor(p, g);
      RoundManyTimes(k, g);
      ShorterDoNot();
    }
  }

  /** The steps come round after 32767 of them, and after no other number but the
  multiples of that. */
  lemma PeriodIsExact(n: nat)
    ensures ComesRound(n) <==> n % PERIOD == 0
  {
    PeriodComesRound();
    RoundRemainder(n, PERIOD);
    assert Steps(1, 0) == 1;
    hide Steps;
    if n % PERIOD != 0 {
      RemaindersDoNot(n % PERIOD);
    }
  }

  // ---------------------------------------------------------------------------
  // Two wrong bits
  // ---------------------------------------------------------------------------

  lemma {:induction false} ZerosAreSteps(crc: bv16, bits: seq<bool>)
    requires forall i :: 0 <= i < |bits| ==> !bits[i]
    ensures FeedBits(crc, bits) == Steps(crc, |bits|)
    decreases |bits|
  {
    hide BitStep, Sum;
    if |bits| == 0 {
    } else {
      ZerosAreSteps(crc, bits[..|bits| - 1]);
      SumUnit(FeedBits(crc, bits[..|bits| - 1]));
    }
  }

  // Two set bits, one distance apart: the second step cancels the first exactly when the
  // register has come round in between.
  lemma TwoBitsCancel(distance: nat)
    requires distance > 0
    ensures FeedBit(Steps(FeedBit(0, true), distance - 1), true) == 0 <==> distance % PERIOD == 0
  {
    var top := BitWord(true);
    PeriodIsExact(distance);
    SmallPower(15);
    BitAtIsOneBit(15);
    hide BitStep, Sum, BitAt;
    SumCommutes(0, top);
    SumUnit(top);
    StepsFirst(top, distance);
    BitStepNonZero(Sum(Steps(top, distance), top));
    SumZero(Steps(top, distance), top);
    StepsCommute(1, 15, distance);
    StepsInjective(Steps(1, distance), 1, 15);
  }

  lemma FeedTwoBits(bits: seq<bool>, i: nat, j: nat)
    requires i < j < |bits|
    requires forall k :: 0 <= k < |bits| ==> (bits[k] <==> k == i || k == j)
    ensures FeedBits(0, bits) == 0 <==> (j - i) % PERIOD == 0
  {
    hide FeedBits, FeedBit;
    var before, between, after := bits[..i], bits[i + 1..j], bits[j + 1..];
    assert bits == before + [true] + between + [true] + after;
    ZerosKeep(0, before);
    ZerosAreSteps(FeedBit(0, true), between);
    FeedOne(0, true);
    FeedOne(Steps(FeedBit(0, true), j - i - 1), true);
    FeedBitsConcat(0, before, [true]);
    FeedBitsConcat(0, before + [true], between);
    FeedBitsConcat(0, before + [true] + between, [true]);
    FeedBitsConcat(0, before + [true] + between + [true], after);
    ZerosKeep(FeedBit(Steps(FeedBit(0, true), j - i - 1), true), after);
    TwoBitsCancel(j - i);
  }

  lemma FeedOne(crc: bv16, bit: bool)
    ensures FeedBits(crc, [bit]) == FeedBit(crc, bit)
  {
    assert [bit][..0] == [];
  }

  /** Two wrong bits behind the start byte of an accepted frame go unnoticed exactly when
  their distance is a multiple of 32767 bits; so in a frame of up to 4096 bytes, and in
  any telegram, never. */
  lemma TwoWrongBits(frame: seq<byte>, corrupted: seq<byte>, i: nat, j: nat)
    requires FrameCrcValid(frame)
    requires |corrupted| == |frame| && corrupted[0] == frame[0]
    requires i < j < 8 * (|frame| - 1)
    requires forall k :: 0 <= k < 8 * (|frame| - 1) ==>
               (Bits(frame[1..])[k] != Bits(corrupted[1..])[k] <==> k == i || k == j)
    ensures FrameCrcValid(corrupted) <==> (j - i) % PERIOD == 0
    ensures |frame| <= 4096 ==> !FrameCrcValid(corrupted)
  {
    hide FrameCrcValid, Bits, FeedBits, Xor;
    var x, y := frame[1..], corrupted[1..];
    SeenByItsBits(frame, corrupted);
    BitsDiffer(x, y);
    FeedTwoBits(Bits(Xor(x, y)), i, j);
  }
}
