/**
 How few flipped bits an accepted frame can hide.

 The register started at one bit runs through a cycle of length 32767, so two
 flipped bits escape exactly when their distance is a multiple of 32767. With
 the parity result of CrcTheory this gives minimum distance four to every frame
 of fewer than 4096 bytes, far beyond the 255 bytes this protocol uses.
 */
module CrcDistance {
  import opened Crc
  import opened CrcTheory

  const ONE: bv16 := 0x8000
  const ORDER: nat := 32767

  /** The register after `n` steps from a lone top bit: the `n`-th power of the generator's root. */
  function Power(n: nat): bv16 { Shift(ONE, n) }

  /** Squaring is linear over exclusive-or, so it is a table of sixteen images. */
  function Square(c: bv16): bv16 {
    ((0 - ((c >> 15) & 1)) & 0x8000) ^ ((0 - ((c >> 14) & 1)) & 0x2000) ^
    ((0 - ((c >> 13) & 1)) & 0x0800) ^ ((0 - ((c >> 12) & 1)) & 0x0200) ^
    ((0 - ((c >> 11) & 1)) & 0x0080) ^ ((0 - ((c >> 10) & 1)) & 0x0020) ^
    ((0 - ((c >> 9) & 1)) & 0x0008) ^ ((0 - ((c >> 8) & 1)) & 0x0002) ^
    ((0 - ((c >> 7) & 1)) & 0xA001) ^ ((0 - ((c >> 6) & 1)) & 0xD801) ^
    ((0 - ((c >> 5) & 1)) & 0xC601) ^ ((0 - ((c >> 4) & 1)) & 0xC181) ^
    ((0 - ((c >> 3) & 1)) & 0xC061) ^ ((0 - ((c >> 2) & 1)) & 0xC019) ^
    ((0 - ((c >> 1) & 1)) & 0xC007) ^ ((0 - (c & 1)) & 0x6001)
  }

  lemma SquareOfStep(c: bv16)
    ensures Square(BitStep(c)) == BitStep(BitStep(Square(c)))
  {
  }

  lemma SquareOfOne()
    ensures Square(ONE) == ONE
  {
  }

  lemma {:induction false} SquareOfPower(n: nat)
    ensures Square(Power(n)) == Power(2 * n)
  {
    hide Square, BitStep;
    if n == 0 {
      SquareOfOne();
    } else {
      SquareOfPower(n - 1);
      SquareOfStep(Power(n - 1));
      assert Power(2 * n) == BitStep(Power(2 * n - 1));
    }
  }

  /** The same power by repeated squaring. */
  function FastPower(n: nat): bv16 {
    if n == 0 then ONE
    else if n % 2 == 0 then Square(FastPower(n / 2))
    else BitStep(FastPower(n - 1))
  }

  lemma {:induction false} FastPowerIsPower(n: nat)
    ensures FastPower(n) == Power(n)
  {
    hide Square, BitStep;
    if n > 0 && n % 2 == 0 {
      FastPowerIsPower(n / 2);
      SquareOfPower(n / 2);
    } else if n > 0 {
      FastPowerIsPower(n - 1);
    }
  }

  lemma Power217()
    ensures Power(217) == 0x3E55
  {
    hide Power;
    assert FastPower(1) == 0x4000;
    assert FastPower(2) == 0x2000;
    assert FastPower(3) == 0x1000;
    assert FastPower(6) == 0x0200;
    assert FastPower(12) == 0x0008;
    assert FastPower(13) == 0x0004;
    assert FastPower(26) == 0xC019;
    assert FastPower(27) == 0xC00D;
    assert FastPower(54) == 0xC079;
    assert FastPower(108) == 0xDFE1;
    assert FastPower(216) == 0x7CAA;
    assert FastPower(217) == 0x3E55;
    FastPowerIsPower(217);
  }

  lemma Power1057()
    ensures Power(1057) == 0xCE41
  {
    hide Power;
    assert FastPower(1) == 0x4000;
    assert FastPower(2) == 0x2000;
    assert FastPower(4) == 0x0800;
    assert FastPower(8) == 0x0080;
    assert FastPower(16) == 0xA001;
    assert FastPower(32) == 0xE801;
    assert FastPower(33) == 0xD401;
    assert FastPower(66) == 0xC221;
    assert FastPower(132) == 0x0608;
    assert FastPower(264) == 0xC049;
    assert FastPower(528) == 0xD861;
    assert FastPower(1056) == 0xDC81;
    assert FastPower(1057) == 0xCE41;
    FastPowerIsPower(1057);
  }

  lemma Power4681()
    ensures Power(4681) == 0x8C69
  {
    hide Power;
    assert FastPower(1) == 0x4000;
    assert FastPower(2) == 0x2000;
    assert FastPower(4) == 0x0800;
    assert FastPower(8) == 0x0080;
    assert FastPower(9) == 0x0040;
    assert FastPower(18) == 0xD801;
    assert FastPower(36) == 0xC281;
    assert FastPower(72) == 0x6008;
    assert FastPower(73) == 0x3004;
    assert FastPower(146) == 0xCA19;
    assert FastPower(292) == 0xC169;
    assert FastPower(584) == 0x1E62;
    assert FastPower(585) == 0x0F31;
    assert FastPower(1170) == 0x672B;
    assert FastPower(2340) == 0x8E4C;
    assert FastPower(4680) == 0x58D1;
    assert FastPower(4681) == 0x8C69;
    FastPowerIsPower(4681);
  }

  lemma Power32767()
    ensures Power(32767) == 0x8000
  {
    hide Power;
    assert FastPower(1) == 0x4000;
    assert FastPower(2) == 0x2000;
    assert FastPower(3) == 0x1000;
    assert FastPower(6) == 0x0200;
    assert FastPower(7) == 0x0100;
    assert FastPower(14) == 0x0002;
    assert FastPower(15) == 0x0001;
    assert FastPower(30) == 0x6001;
    assert FastPower(31) == 0x9001;
    assert FastPower(62) == 0xE201;
    assert FastPower(63) == 0xD101;
    assert FastPower(126) == 0xC203;
    assert FastPower(127) == 0xC100;
    assert FastPower(254) == 0xA002;
    assert FastPower(255) == 0x5001;
    assert FastPower(510) == 0x4201;
    assert FastPower(511) == 0x8101;
    assert FastPower(1022) == 0xE003;
    assert FastPower(1023) == 0xD000;
    assert FastPower(2046) == 0xA200;
    assert FastPower(2047) == 0x5100;
    assert FastPower(4094) == 0x2202;
    assert FastPower(4095) == 0x1101;
    assert FastPower(8190) == 0x6203;
    assert FastPower(8191) == 0x9100;
    assert FastPower(16382) == 0x8202;
    assert FastPower(16383) == 0x4101;
    assert FastPower(32766) == 0x4003;
    assert FastPower(32767) == 0x8000;
    FastPowerIsPower(32767);
  }

  ghost predicate Period(n: nat) { Power(n) == ONE }

  /** The cycle closes after 32767 steps, and after none of the three maximal divisors of that. */
  lemma OrderIsPeriod()
    ensures Period(ORDER)
  {
    hide Power;
    Power32767();
  }

  lemma NoShorterPeriod()
    ensures !Period(217) && !Period(1057) && !Period(4681)
  {
    hide Power;
    Power217();
    Power1057();
    Power4681();
  }

  lemma PeriodSum(m: nat, n: nat)
    requires Period(m)
    ensures Period(m + n) <==> Period(n)
  {
    hide Shift;
    ShiftAdd(ONE, m, n);
  }

  lemma {:induction false} PeriodMultiple(m: nat, k: nat)
    requires Period(m)
    ensures Period(k * m)
  {
    hide BitStep;
    if k > 0 {
      PeriodMultiple(m, k - 1);
      PeriodSum(m, (k - 1) * m);
      assert m + (k - 1) * m == k * m;
    }
  }

  /** The remainder of one period by another is a period. */
  lemma PeriodRemainder(m: nat, n: nat)
    requires m > 0 && Period(m)
    ensures Period(n) <==> Period(n % m)
  {
    hide Period;
    PeriodMultiple(m, n / m);
    PeriodSum(n / m * m, n % m);
    assert n / m * m + n % m == n;
  }

  function Gcd(m: nat, n: nat): (g: nat)
    requires m > 0
    ensures 0 < g <= m
    decreases m
  {
    if n % m == 0 then m else Gcd(n % m, m)
  }

  lemma CombineMultiples(q: nat, d: nat, c: nat, g: nat)
    ensures q * (d * g) + c * g == (q * d + c) * g
  {
  }

  lemma {:induction false} GcdDivides(m: nat, n: nat) returns (a: nat, b: nat)
    requires m > 0
    ensures m == a * Gcd(m, n) && n == b * Gcd(m, n)
    decreases m
  {
    if n % m == 0 {
      a, b := 1, n / m;
    } else {
      var g := Gcd(n % m, m);
      var c, d := GcdDivides(n % m, m);
      a, b := d, n / m * d + c;
      CombineMultiples(n / m, d, c, g);
    }
  }

  lemma {:induction false} PeriodGcd(m: nat, n: nat)
    requires m > 0 && Period(m) && Period(n)
    ensures Period(Gcd(m, n))
    decreases m
  {
    hide Period;
    if n % m != 0 {
      PeriodRemainder(m, n);
      PeriodGcd(n % m, m);
    }
  }

  /** 32767 = 7 * 31 * 151, so of the numbers up to its square root four divide it. */
  lemma LowDivisor(d: nat, e: nat)
    requires d * e == 32767 && 0 < d <= 80
    ensures d == 1 || d == 7 || d == 31
  {
    if d <= 20 {
    } else if d <= 40 {
    } else if d <= 60 {
    }
  }

  lemma HighDivisor(d: nat, e: nat)
    requires d * e == 32767 && 80 < d <= 181
    ensures d == 151
  {
    if d <= 100 {
    } else if d <= 120 {
    } else if d <= 140 {
    } else if d <= 160 {
    }
  }

  /** A proper divisor divides one of the three products of two primes. */
  lemma ProperDivisor(d: nat, e: nat) returns (k: nat)
    requires d * e == 32767 && 0 < d < 32767
    ensures k * d == 217 || k * d == 1057 || k * d == 4681
  {
    if d <= 80 {
      LowDivisor(d, e);
      k := 217 / d;
    } else if d <= 181 {
      HighDivisor(d, e);
      k := 7;
    } else {
      k := 1;
      if e >= 182 {
        ProductAtLeast(d, e);
      } else if e <= 80 {
        assert e != 0;
        LowDivisor(e, d);
      } else {
        HighDivisor(e, d);
      }
    }
  }

  lemma ProductAtLeast(d: nat, e: nat)
    requires d >= 182 && e >= 182
    ensures d * e >= 33124
  {
    assert d * e >= 182 * e;
  }

  /** The root of the generator has order exactly 32767. */
  lemma PeriodExact(n: nat)
    ensures Period(n) <==> n % ORDER == 0
  {
    hide Power, Period, Gcd;
    OrderIsPeriod();
    PeriodRemainder(ORDER, n);
    var r := n % ORDER;
    if r == 0 {
      PeriodMultiple(ORDER, 0);
      assert 0 * ORDER == 0;
    } else if Period(r) {
      var g := Gcd(r, ORDER);
      var _, e := GcdDivides(r, ORDER);
      PeriodGcd(r, ORDER);
      var k := ProperDivisor(g, e);
      PeriodMultiple(g, k);
      NoShorterPeriod();
    }
  }

  // ---------------------------------------------------------------------
  // Two flipped bits.

  lemma StepsToLowBit()
    ensures Shift(ONE, 15) == 1
  {
    Shift8(ONE);
    ShiftAdd(ONE, 8, 7);
    var w := Shift(ONE, 8);
    assert Shift(w, 1) == BitStep(Shift(w, 0));
    assert Shift(w, 3) == BitStep(BitStep(Shift(w, 1)));
    assert Shift(w, 5) == BitStep(BitStep(Shift(w, 3)));
    assert Shift(w, 7) == BitStep(BitStep(Shift(w, 5)));
  }

  lemma LowBitPeriod(d: nat)
    ensures Shift(1, d) == 1 <==> Period(d)
  {
    hide Shift;
    StepsToLowBit();
    ShiftAdd(ONE, 15, d);
    ShiftAdd(ONE, d, 15);
    if Shift(1, d) == 1 {
      ShiftInjective(Power(d), ONE, 15);
    }
  }

  lemma TwoBitWindow(window: seq<bool>)
    requires |window| >= 2 && window[0] && window[|window| - 1]
    requires forall i :: 0 < i < |window| - 1 ==> !window[i]
    ensures RunBits(0, window) == 0 <==> (|window| - 1) % ORDER == 0
  {
    hide Xor, BitStep, Shift, Period, ORDER;
    var d := |window| - 1;
    var gap := window[1..d];
    assert window == ([true] + gap) + [true];
    RunBitsConcat(0, [true] + gap, [true]);
    RunBitsConcat(0, [true], gap);
    OneBit(0);
    var s := RunBits(0, [true]);
    RunBitsClear(s, gap);
    OneBit(Shift(s, d - 1));
    XorZero(0, 1);
    BitStepZero(Xor(Shift(s, d - 1), 1));
    XorZero(Shift(s, d - 1), 1);
    ShiftAdd(1, 1, d - 1);
    ShiftOnce(1);
    LowBitPeriod(d);
    PeriodExact(d);
  }

  lemma OneBit(crc: bv16)
    ensures RunBits(crc, [true]) == BitStep(Xor(crc, 1))
  {
    hide Xor, BitStep;
    assert [true][..0] == [];
  }

  lemma ShiftOnce(crc: bv16)
    ensures Shift(crc, 1) == BitStep(crc)
  {
    hide BitStep;
    assert Shift(crc, 0) == crc;
  }

  /** Two flipped bits go unnoticed exactly when 32767 divides their distance. */
  lemma DoubleErrorExact(frame: seq<Byte>, error: seq<Byte>, first: nat, second: nat)
    requires HasValidCrc(frame) && |error| == |frame|
    requires first < second < |Bits(error)|
    requires forall i :: 0 <= i < |Bits(error)| ==> (Bits(error)[i] <==> i == first || i == second)
    ensures HasValidCrc(Corrupt(frame, error)) <==> (second - first) % ORDER == 0
  {
    hide Run, RunBits, Bits, Corrupt, HasValidCrc, ORDER;
    var bits := Bits(error);
    Syndrome(frame, error);
    RunIsRunBits(0, error);
    TrimClear(bits, first, second + 1);
    TwoBitWindow(bits[first..second + 1]);
  }

  lemma {:induction false} NoneSet(bits: seq<bool>)
    requires Ones(bits) == 0
    ensures forall i :: 0 <= i < |bits| ==> !bits[i]
  {
    if bits != [] {
      NoneSet(bits[..|bits| - 1]);
    }
  }

  lemma {:induction false} OneSet(bits: seq<bool>) returns (at: nat)
    requires Ones(bits) == 1
    ensures at < |bits|
    ensures forall i :: 0 <= i < |bits| ==> (bits[i] <==> i == at)
  {
    var n := |bits| - 1;
    if bits[n] {
      NoneSet(bits[..n]);
      at := n;
    } else {
      at := OneSet(bits[..n]);
    }
  }

  lemma {:induction false} TwoSet(bits: seq<bool>) returns (first: nat, second: nat)
    requires Ones(bits) == 2
    ensures first < second < |bits|
    ensures forall i :: 0 <= i < |bits| ==> (bits[i] <==> i == first || i == second)
  {
    var n := |bits| - 1;
    if bits[n] {
      first := OneSet(bits[..n]);
      second := n;
    } else {
      first, second := TwoSet(bits[..n]);
    }
  }

  /** One, two or three flipped bits are always caught in a frame of fewer than 4096 bytes. */
  lemma UpToThreeErrorsDetected(frame: seq<Byte>, error: seq<Byte>)
    requires HasValidCrc(frame) && |error| == |frame| < 4096
    requires 1 <= Ones(Bits(error)) <= 3
    ensures !HasValidCrc(Corrupt(frame, error))
  {
    hide Run, RunBits, Corrupt, HasValidCrc;
    if Ones(Bits(error)) == 2 {
      var first, second := TwoSet(Bits(error));
      DoubleErrorExact(frame, error, first, second);
    } else {
      OddErrorDetected(frame, error);
    }
  }

  // ---------------------------------------------------------------------
  // Neither bound can be improved.

  /** The generator's own coefficients: four set bits spanning seventeen positions. */
  const GENERATOR_PATTERN: seq<Byte> := [0x03, 0x40, 0x01]

  lemma GeneratorVanishes()
    ensures Run(0, GENERATOR_PATTERN) == 0
  {
    assert GENERATOR_PATTERN[..2] == [0x03, 0x40];
    assert [0x03 as Byte, 0x40][..1] == [0x03];
    assert [0x03 as Byte][..0] == [];
    assert Run(0, [0x03]) == ByteStep(0, 0x03);
    assert Run(0, [0x03, 0x40]) == ByteStep(Run(0, [0x03]), 0x40);
    Shift8(0x03);
    assert ByteStep(0, 0x03) == 0x0140;
    Shift8(0x0140 ^ 0x40);
    Shift8(0x01 ^ 0x01);
  }

  /** A four-bit error spanning seventeen bits that every frame hides. */
  lemma FourErrorsCanHide(frame: seq<Byte>, error: seq<Byte>)
    requires HasValidCrc(frame) && |error| == |frame|
    requires error[..3] == GENERATOR_PATTERN && forall i :: 3 <= i < |error| ==> error[i] == 0
    ensures Ones(Bits(error)) == 4 && HasValidCrc(Corrupt(frame, error))
  {
    hide Run, Corrupt, HasValidCrc;
    ZeroResidue(frame);
    Syndrome(frame, error);
    GeneratorVanishes();
    RunZeroTail(error, 3);
    PatternOnes();
    OnesZeroTail(error, 3);
  }

  lemma PatternOnes()
    ensures Ones(Bits(GENERATOR_PATTERN)) == 4
  {
    var b := Bits(GENERATOR_PATTERN);
    assert b == [
      true, true, false, false, false, false, false, false,
      false, false, false, false, false, false, true, false,
      true, false, false, false, false, false, false, false];
    hide Bits;
    OnesClear(b, 17);
    assert b[..17][..16] == b[..16];
    OnesClear(b[..16], 15);
    assert b[..16][..15] == b[..15] && b[..15][..14] == b[..14];
    OnesClear(b[..14], 2);
    assert b[..14][..2] == b[..2] == [true, true] && [true, true][..1] == [true] && [true][..0] == [];
    assert Ones([true]) == 1;
  }

  /** Zero bytes add no one bits. */
  lemma {:induction false} OnesZeroTail(error: seq<Byte>, n: nat)
    requires n <= |error| && forall i :: n <= i < |error| ==> error[i] == 0
    ensures Ones(Bits(error)) == Ones(Bits(error[..n]))
  {
    if n == |error| {
      assert error[..n] == error;
    } else {
      var k := |error| - 1;
      OnesZeroTail(error[..k], n);
      assert error[..k][..n] == error[..n];
      OnesClear(Bits(error), 8 * k);
      assert Bits(error)[..8 * k] == Bits(error[..k]);
    }
  }

  lemma {:induction false} OnesClear(bits: seq<bool>, n: nat)
    requires n <= |bits| && forall i :: n <= i < |bits| ==> !bits[i]
    ensures Ones(bits) == Ones(bits[..n])
    decreases |bits|
  {
    if n == |bits| {
      assert bits[..n] == bits;
    } else {
      var before := bits[..|bits| - 1];
      OnesClear(before, n);
      assert before[..n] == bits[..n];
    }
  }

  lemma {:induction false} RunZeroTail(error: seq<Byte>, n: nat)
    requires n <= |error| && Run(0, error[..n]) == 0
    requires forall i :: n <= i < |error| ==> error[i] == 0
    ensures Run(0, error) == 0
  {
    hide ByteStep;
    if n == |error| {
      assert error[..n] == error;
    } else {
      var k := |error| - 1;
      assert error[..k][..n] == error[..n];
      RunZeroTail(error[..k], n);
      ByteStepOfZero();
    }
  }

  lemma ByteStepOfZero()
    ensures ByteStep(0, 0) == 0
  {
    ShiftZero(0, 8);
  }
}
