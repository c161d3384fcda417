/**
 Two flipped bits. They cancel in the register exactly if their distance is a period of the
 generator: 93 for the CRC-8, and more than any telemetry frame for the CRC-16.
 */
module DoubleFlips {
  import opened Gf2
  import opened Bytes
  import Crc8
  import Crc16

  // ----- Periods of a generator -----

  /** Clocking the generator's own value d times brings it back: x^d is 1 modulo the generator. */
  ghost predicate Period(g: Bits, d: nat)
    requires Generator(g)
  {
    Run(g, Zeros(d), g) == g
  }

  lemma ZerosAppend(r: Bits, a: nat, b: nat, g: Bits)
    requires Generator(g) && |r| == |g|
    ensures Run(r, Zeros(a + b), g) == Run(Run(r, Zeros(a), g), Zeros(b), g)
  {
    assert Zeros(a + b) == Zeros(a) + Zeros(b);
    RunAppend(r, Zeros(a), Zeros(b), g);
  }

  /** A period stays one when another is taken away, and when another is added. */
  lemma PeriodDifference(g: Bits, a: nat, b: nat)
    requires Generator(g) && Period(g, b)
    ensures Period(g, a + b) <==> Period(g, a)
  {
    ZerosAppend(g, b, a, g);
  }

  lemma {:induction false} PeriodMultiple(g: Bits, k: nat, d: nat)
    requires Generator(g) && Period(g, d)
    ensures Period(g, k * d)
  {
    if k > 0 {
      PeriodMultiple(g, k - 1, d);
      PeriodDifference(g, (k - 1) * d, d);
      assert (k - 1) * d + d == k * d;
    }
  }

  /** Two periods have a common divisor that is one too. */
  lemma {:induction false} PeriodDivisor(g: Bits, a: nat, b: nat) returns (d: nat, i: nat, j: nat)
    requires Generator(g) && a > 0 && b > 0 && Period(g, a) && Period(g, b)
    ensures d > 0 && Period(g, d) && a == i * d && b == j * d
    decreases a + b
  {
    if a == b {
      d, i, j := a, 1, 1;
    } else if a > b {
      PeriodDifference(g, a - b, b);
      d, i, j := PeriodDivisor(g, a - b, b);
      assert (i + j) * d == i * d + j * d;
      i := i + j;
    } else {
      PeriodDifference(g, b - a, a);
      d, i, j := PeriodDivisor(g, a, b - a);
      assert (i + j) * d == i * d + j * d;
      j := i + j;
    }
  }

  // ----- Two flips -----

  /** Exactly the bits at i and j are set. */
  ghost predicate TwoSet(e: Bits, i: nat, j: nat) {
    i < j < |e| && forall k :: 0 <= k < |e| ==> (e[k] <==> k == i || k == j)
  }

  lemma TwoInvisible(e: Bits, i: nat, j: nat, g: Bits)
    requires Generator(g) && TwoSet(e, i, j)
    ensures Invisible(e, g) <==> Period(g, j - i)
  {
    hide Run;
    var (d, z) := (j - i, Zeros(|g|));
    var core := [true] + Zeros(d - 1) + [true];
    assert e == Zeros(i) + core + Zeros(|e| - j - 1);
    InvisibleCore(i, core, |e| - j - 1, g);
    TwoSteps(d, g);
  }

  /** The first flip loads the generator, and the second must find it there again. */
  lemma TwoSteps(d: nat, g: Bits)
    requires Generator(g) && d > 0
    ensures Invisible([true] + Zeros(d - 1) + [true], g) <==> Period(g, d)
  {
    hide Run;
    var z := Zeros(|g|);
    RunCons(z, true, Zeros(d - 1) + [true], g);
    assert [true] + Zeros(d - 1) + [true] == [true] + (Zeros(d - 1) + [true]);
    assert Step(z, true, g) == g;
    var r := Run(g, Zeros(d - 1), g);
    RunAppend(g, Zeros(d - 1), [true], g);
    RunAppend(g, Zeros(d - 1), [false], g);
    assert Zeros(d) == Zeros(d - 1) + [false];
    OneStep(r, true, g);
    OneStep(r, false, g);
    FlipsStep(r, g);
  }

  lemma OneStep(r: Bits, x: bool, g: Bits)
    requires Generator(g) && |r| == |g|
    ensures Run(r, [x], g) == Step(r, x, g)
  {
    assert [x][..0] == [];
  }

  lemma FlipsStep(r: Bits, g: Bits)
    requires Generator(g) && |r| == |g|
    ensures Step(r, true, g) == Zeros(|g|) <==> Step(r, false, g) == g
  {
    SelfXor(Step(r, false, g), g);
    assert Step(r, true, g) == Xor(Step(r, false, g), g);
  }

  // ----- The CRC-8: 93 -----

  lemma OneMore(x: bv8, y: bv8, n: nat)
    requires ByteBits(x) == Run(Crc8.G8, Zeros(n), Crc8.G8) && Crc8.Shift(x) == y
    ensures ByteBits(y) == Run(Crc8.G8, Zeros(n + 1), Crc8.G8)
  {
    hide ByteBits, Crc8.Shift;
    Crc8.ShiftIsStep(x);
    ZerosAppend(Crc8.G8, n, 1, Crc8.G8);
    assert Zeros(1) == [false];
    OneStep(ByteBits(x), false, Crc8.G8);
  }

  lemma EightMore(x: bv8, y: bv8, n: nat)
    requires ByteBits(x) == Run(Crc8.G8, Zeros(n), Crc8.G8) && Crc8.Table(x) == y
    ensures ByteBits(y) == Run(Crc8.G8, Zeros(n + 8), Crc8.G8)
  {
    hide ByteBits, Crc8.Table;
    Crc8.TableIsEightSteps(x);
    ZerosAppend(Crc8.G8, n, 8, Crc8.G8);
  }

  lemma GeneratorByte()
    ensures ByteBits(0xD5) == Crc8.G8 == Run(Crc8.G8, Zeros(0), Crc8.G8)
  {
  }

  lemma ShiftValues()
    ensures Crc8.Shift(0xD5) == 0x7F
    ensures Crc8.Shift(0x7F) == 0xFE
    ensures Crc8.Shift(0xFE) == 0x29
    ensures Crc8.Shift(0x29) == 0x52
    ensures Crc8.Shift(0x52) == 0xA4
    ensures Crc8.Shift(0xA4) == 0x9D
    ensures Crc8.Shift(0x9D) == 0xEF
  {
  }

  lemma TableValuesTo31()
    ensures Crc8.Table(0xEF) == 0xAB
    ensures Crc8.Table(0xAB) == 0xC8
    ensures Crc8.Table(0xC8) == 0x5B
  {
  }

  lemma TableValuesTo53()
    ensures Crc8.Table(0xA4) == 0xB5
    ensures Crc8.Table(0xB5) == 0x32
    ensures Crc8.Table(0x32) == 0x89
    ensures Crc8.Table(0x89) == 0x13
    ensures Crc8.Table(0x13) == 0xF8
    ensures Crc8.Table(0xF8) == 0xAD
  {
  }

  lemma TableValuesTo93()
    ensures Crc8.Table(0xAD) == 0x49
    ensures Crc8.Table(0x49) == 0x61
    ensures Crc8.Table(0x61) == 0xEC
    ensures Crc8.Table(0xEC) == 0x01
    ensures Crc8.Table(0x01) == 0xD5
  {
  }

  lemma SmallPowers()
    ensures !Period(Crc8.G8, 1) && !Period(Crc8.G8, 3) && !Period(Crc8.G8, 31)
  {
    hide Run, ByteBits, Crc8.Shift, Crc8.Table;
    GeneratorByte();
    ShiftValues();
    TableValuesTo31();
    OneMore(0xD5, 0x7F, 0);
    OneMore(0x7F, 0xFE, 1);
    OneMore(0xFE, 0x29, 2);
    OneMore(0x29, 0x52, 3);
    OneMore(0x52, 0xA4, 4);
    OneMore(0xA4, 0x9D, 5);
    OneMore(0x9D, 0xEF, 6);
    EightMore(0xEF, 0xAB, 7);
    EightMore(0xAB, 0xC8, 15);
    EightMore(0xC8, 0x5B, 23);
    OtherByte(0x7F);
    OtherByte(0x29);
    OtherByte(0x5B);
  }

  lemma OtherByte(x: bv8)
    requires x != 0xD5
    ensures ByteBits(x) != Crc8.G8
  {
    hide ByteBits;
    GeneratorByte();
    if ByteBits(x) == Crc8.G8 {
      ByteBitsInjective(x, 0xD5);
    }
  }

  lemma NinetyThree()
    ensures Period(Crc8.G8, 93)
  {
    hide Run, ByteBits, Crc8.Shift, Crc8.Table;
    GeneratorByte();
    ShiftValues();
    TableValuesTo53();
    TableValuesTo93();
    OneMore(0xD5, 0x7F, 0);
    OneMore(0x7F, 0xFE, 1);
    OneMore(0xFE, 0x29, 2);
    OneMore(0x29, 0x52, 3);
    OneMore(0x52, 0xA4, 4);
    EightMore(0xA4, 0xB5, 5);
    EightMore(0xB5, 0x32, 13);
    EightMore(0x32, 0x89, 21);
    EightMore(0x89, 0x13, 29);
    EightMore(0x13, 0xF8, 37);
    EightMore(0xF8, 0xAD, 45);
    EightMore(0xAD, 0x49, 53);
    EightMore(0x49, 0x61, 61);
    EightMore(0x61, 0xEC, 69);
    EightMore(0xEC, 0x01, 77);
    EightMore(0x01, 0xD5, 85);
  }

  lemma TenTimesTen(i: nat, d: nat)
    requires 10 <= i && 10 <= d
    ensures i * d >= 100
  {
    assert i * d >= 10 * d;
  }

  lemma DivisorsOf93(i: nat, d: nat)
    requires i * d == 93
    ensures d == 1 || d == 3 || d == 31 || d == 93
  {
    if 9 < d && 9 < i {
      TenTimesTen(i, d);
    } else if d <= 9 {
      assert d == 0 || d == 1 || d == 2 || d == 3 || d == 4 || d == 5 || d == 6 || d == 7 || d == 8 || d == 9;
    } else {
      assert i == 0 || i == 1 || i == 2 || i == 3 || i == 4 || i == 5 || i == 6 || i == 7 || i == 8 || i == 9;
    }
  }

  /** The order of x modulo the CRC-8 generator is 93. */
  lemma PeriodIff(d: nat)
    requires d > 0
    ensures Period(Crc8.G8, d) <==> d % 93 == 0
  {
    hide Period;
    NinetyThree();
    if Period(Crc8.G8, d) {
      var t, i, j := PeriodDivisor(Crc8.G8, 93, d);
      DivisorsOf93(i, t);
      SmallPowers();
    } else if d % 93 == 0 {
      PeriodMultiple(Crc8.G8, d / 93, 93);
      assert false;
    }
  }

  /**
   Two flipped bits pass the radio's test, in a region of any length, exactly if they lie a multiple of 93
   bits apart.
   */
  lemma DoubleFlipPassesIff(region: Message, e: Message, i: nat, j: nat)
    requires Crc8.Passes(region) && |e| == |region| && TwoSet(MessageBits(e), i, j)
    ensures Crc8.Passes(Flip(region, e)) <==> (j - i) % 93 == 0
  {
    hide Period, Run, MessageBits, Invisible, Crc8.Crc8, Crc8.Passes;
    Crc8.PassesAfterError(region, e);
    TwoInvisible(MessageBits(e), i, j, Crc8.G8);
    PeriodIff(j - i);
  }

  // ----- The CRC-16: longer than a telemetry frame -----

  lemma OneMore16(x: bv16, y: bv16, n: nat)
    requires Crc16.WordBits(x) == Run(Crc16.G16, Zeros(n), Crc16.G16) && Crc16.Shift(x) == y
    ensures Crc16.WordBits(y) == Run(Crc16.G16, Zeros(n + 1), Crc16.G16)
  {
    hide Crc16.WordBits, Crc16.Shift;
    Crc16.ShiftIsStep(x);
    ZerosAppend(Crc16.G16, n, 1, Crc16.G16);
    assert Zeros(1) == [false];
    OneStep(Crc16.WordBits(x), false, Crc16.G16);
  }

  lemma EightMore16(x: bv16, y: bv16, n: nat)
    requires Crc16.WordBits(x) == Run(Crc16.G16, Zeros(n), Crc16.G16) && Crc16.EightShifts(x) == y
    ensures Crc16.WordBits(y) == Run(Crc16.G16, Zeros(n + 8), Crc16.G16)
  {
    hide Crc16.WordBits, Crc16.EightShifts;
    Crc16.EightShiftsIsRun(x);
    ZerosAppend(Crc16.G16, n, 8, Crc16.G16);
  }

  /** The generator's register after r single clocks, and after q whole bytes of clocks. */
  function AfterClocks(r: nat): bv16 {
    match r
    case 0 => 0x1021
    case 1 => 0x2042
    case 2 => 0x4084
    case 3 => 0x8108
    case 4 => 0x1231
    case 5 => 0x2462
    case 6 => 0x48C4
    case _ => 0x9188
  }

  function AfterBytes(q: nat): bv16 {
    match q
    case 0 => 0x1021
    case 1 => 0x3331
    case 2 => 0x3730
    case 3 => 0x76B4
    case 4 => 0xAA51
    case 5 => 0x45A0
    case 6 => 0xB861
    case _ => 0x47D3
  }

  lemma ClockValues(r: nat)
    requires 0 < r < 8
    ensures Crc16.Shift(AfterClocks(r - 1)) == AfterClocks(r)
  {
  }

  lemma ByteValues(q: nat)
    requires 0 < q < 8
    ensures Crc16.EightShifts(AfterBytes(q - 1)) == AfterBytes(q)
  {
  }

  lemma GeneratorWord()
    ensures Crc16.WordBits(0x1021) == Crc16.G16 == Run(Crc16.G16, Zeros(0), Crc16.G16)
  {
    hide Crc16.WordBits;
    forall i | 0 <= i < 16
      ensures Crc16.WordBits(0x1021)[i] == Crc16.G16[i]
    {
      Crc16.WordBit(0x1021, i);
    }
  }

  lemma {:induction false} Clocked(r: nat)
    requires r < 8
    ensures Crc16.WordBits(AfterClocks(r)) == Run(Crc16.G16, Zeros(r), Crc16.G16)
  {
    hide Run, Crc16.WordBits, Crc16.Shift;
    GeneratorWord();
    if r > 0 {
      Clocked(r - 1);
      ClockValues(r);
      OneMore16(AfterClocks(r - 1), AfterClocks(r), r - 1);
    }
  }

  lemma {:induction false} ByteClocked(q: nat)
    requires q < 8
    ensures Crc16.WordBits(AfterBytes(q)) == Run(Crc16.G16, Zeros(8 * q), Crc16.G16)
  {
    hide Run, Crc16.WordBits, Crc16.EightShifts;
    GeneratorWord();
    if q > 0 {
      ByteClocked(q - 1);
      ByteValues(q);
      EightMore16(AfterBytes(q - 1), AfterBytes(q), 8 * (q - 1));
    }
  }

  lemma ValuesDiffer(q: nat, r: nat)
    requires 0 < q < 8 && r < 8
    ensures AfterBytes(q) != AfterClocks(r)
  {
  }

  /** No period of the CRC-16 generator is as short as a telemetry frame. */
  lemma NoShortPeriod(d: nat)
    requires 0 < d <= 56
    ensures !Period(Crc16.G16, d)
  {
    hide Run, Crc16.WordBits, AfterBytes, AfterClocks;
    var q := (d + 7) / 8;
    var r := 8 * q - d;
    ByteClocked(q);
    Clocked(r);
    ValuesDiffer(q, r);
    ZerosAppend(Crc16.G16, d, r, Crc16.G16);
    if Period(Crc16.G16, d) {
      Crc16.WordBitsInjective(AfterBytes(q), AfterClocks(r));
    }
  }

  /** Any two flipped bits of a telemetry frame's checked bytes, at most seven of them, are caught. */
  lemma TelemetryDoubleFlipCaught(region: Message, e: Message, i: nat, j: nat)
    requires Crc16.Passes(region) && |e| == |region| <= 7 && TwoSet(MessageBits(e), i, j)
    ensures !Crc16.Passes(Flip(region, e))
  {
    hide Period, Run, Invisible, Crc16.Passes;
    Crc16.PassesAfterError(region, e);
    TwoInvisible(MessageBits(e), i, j, Crc16.G16);
    NoShortPeriod(j - i);
  }
}
