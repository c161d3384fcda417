/** The table-driven CRC-8 of the radio frames, with generator x^8 + x^7 + x^6 + x^4 + x^2 + 1. */
module Crc8 {
  import opened Gf2
  import opened Bytes

  /** The low coefficients of the generator: 0xD5. */
  const G8: Bits := [true, true, false, true, false, true, false, true]

  function Column(
    col: bv8,
    c0: bv8, c1: bv8, c2: bv8, c3: bv8, c4: bv8, c5: bv8, c6: bv8, c7: bv8,
    c8: bv8, c9: bv8, cA: bv8, cB: bv8, cC: bv8, cD: bv8, cE: bv8, cF: bv8): bv8
  {
    match col
    case 0 => c0
    case 1 => c1
    case 2 => c2
    case 3 => c3
    case 4 => c4
    case 5 => c5
    case 6 => c6
    case 7 => c7
    case 8 => c8
    case 9 => c9
    case 10 => cA
    case 11 => cB
    case 12 => cC
    case 13 => cD
    case 14 => cE
    case _ => cF
  }

  /** The constant 256-entry table, in its sixteen rows of sixteen. */
  function Table(index: bv8): bv8 {
    Entry(index >> 4, index & 0xF)
  }

  function Entry(row: bv8, col: bv8): bv8 {
    match row
    case 0x0 => Column(col, 0x00, 0xD5, 0x7F, 0xAA, 0xFE, 0x2B, 0x81, 0x54,
                       0x29, 0xFC, 0x56, 0x83, 0xD7, 0x02, 0xA8, 0x7D)
    case 0x1 => Column(col, 0x52, 0x87, 0x2D, 0xF8, 0xAC, 0x79, 0xD3, 0x06,
                       0x7B, 0xAE, 0x04, 0xD1, 0x85, 0x50, 0xFA, 0x2F)
    case 0x2 => Column(col, 0xA4, 0x71, 0xDB, 0x0E, 0x5A, 0x8F, 0x25, 0xF0,
                       0x8D, 0x58, 0xF2, 0x27, 0x73, 0xA6, 0x0C, 0xD9)
    case 0x3 => Column(col, 0xF6, 0x23, 0x89, 0x5C, 0x08, 0xDD, 0x77, 0xA2,
                       0xDF, 0x0A, 0xA0, 0x75, 0x21, 0xF4, 0x5E, 0x8B)
    case 0x4 => Column(col, 0x9D, 0x48, 0xE2, 0x37, 0x63, 0xB6, 0x1C, 0xC9,
                       0xB4, 0x61, 0xCB, 0x1E, 0x4A, 0x9F, 0x35, 0xE0)
    case 0x5 => Column(col, 0xCF, 0x1A, 0xB0, 0x65, 0x31, 0xE4, 0x4E, 0x9B,
                       0xE6, 0x33, 0x99, 0x4C, 0x18, 0xCD, 0x67, 0xB2)
    case 0x6 => Column(col, 0x39, 0xEC, 0x46, 0x93, 0xC7, 0x12, 0xB8, 0x6D,
                       0x10, 0xC5, 0x6F, 0xBA, 0xEE, 0x3B, 0x91, 0x44)
    case 0x7 => Column(col, 0x6B, 0xBE, 0x14, 0xC1, 0x95, 0x40, 0xEA, 0x3F,
                       0x42, 0x97, 0x3D, 0xE8, 0xBC, 0x69, 0xC3, 0x16)
    case 0x8 => Column(col, 0xEF, 0x3A, 0x90, 0x45, 0x11, 0xC4, 0x6E, 0xBB,
                       0xC6, 0x13, 0xB9, 0x6C, 0x38, 0xED, 0x47, 0x92)
    case 0x9 => Column(col, 0xBD, 0x68, 0xC2, 0x17, 0x43, 0x96, 0x3C, 0xE9,
                       0x94, 0x41, 0xEB, 0x3E, 0x6A, 0xBF, 0x15, 0xC0)
    case 0xA => Column(col, 0x4B, 0x9E, 0x34, 0xE1, 0xB5, 0x60, 0xCA, 0x1F,
                       0x62, 0xB7, 0x1D, 0xC8, 0x9C, 0x49, 0xE3, 0x36)
    case 0xB => Column(col, 0x19, 0xCC, 0x66, 0xB3, 0xE7, 0x32, 0x98, 0x4D,
                       0x30, 0xE5, 0x4F, 0x9A, 0xCE, 0x1B, 0xB1, 0x64)
    case 0xC => Column(col, 0x72, 0xA7, 0x0D, 0xD8, 0x8C, 0x59, 0xF3, 0x26,
                       0x5B, 0x8E, 0x24, 0xF1, 0xA5, 0x70, 0xDA, 0x0F)
    case 0xD => Column(col, 0x20, 0xF5, 0x5F, 0x8A, 0xDE, 0x0B, 0xA1, 0x74,
                       0x09, 0xDC, 0x76, 0xA3, 0xF7, 0x22, 0x88, 0x5D)
    case 0xE => Column(col, 0xD6, 0x03, 0xA9, 0x7C, 0x28, 0xFD, 0x57, 0x82,
                       0xFF, 0x2A, 0x80, 0x55, 0x01, 0xD4, 0x7E, 0xAB)
    case _ => Column(col, 0x84, 0x51, 0xFB, 0x2E, 0x7A, 0xAF, 0x05, 0xD0,
                     0xAD, 0x78, 0xD2, 0x07, 0x53, 0x86, 0x2C, 0xF9)
  }

  function Crc8(m: Message): bv8 {
    if m == [] then 0 else Table(Sum(Crc8(m[..|m| - 1]), m[|m| - 1]))
  }

  /** The loop over `len` bytes from `start`, one table look-up a byte. */
  method CrsfCrc8(buffer: array<bv8>, start: nat, len: nat) returns (crc: bv8)
    requires len < 256 && start + len <= buffer.Length
    ensures crc == Crc8(buffer[start..start + len])
  {
    hide Table;
    crc := 0;
    for i := 0 to len
      invariant crc == Crc8(buffer[start..start + i])
    {
      assert buffer[start..start + i + 1][..i] == buffer[start..start + i];
      crc := Table(Sum(crc, buffer[start + i]));
    }
  }

  // ----- The table is eight clocks of the division register -----

  function Shift(r: bv8): bv8 {
    if r & 0x80 != 0 then (r << 1) ^ 0xD5 else r << 1
  }

  function EightShifts(r: bv8): bv8 {
    Shift(Shift(Shift(Shift(Shift(Shift(Shift(Shift(r))))))))
  }

  /** The table's first row. */
  function FirstRow(col: bv8): bv8 {
    Column(col, 0x00, 0xD5, 0x7F, 0xAA, 0xFE, 0x2B, 0x81, 0x54, 0x29, 0xFC, 0x56, 0x83, 0xD7, 0x02, 0xA8, 0x7D)
  }

  /** The same row with k added to every entry. */
  function FirstRowPlus(k: bv8, col: bv8): bv8 {
    Column(
      col,
      Sum(k, 0x00), Sum(k, 0xD5), Sum(k, 0x7F), Sum(k, 0xAA),
      Sum(k, 0xFE), Sum(k, 0x2B), Sum(k, 0x81), Sum(k, 0x54),
      Sum(k, 0x29), Sum(k, 0xFC), Sum(k, 0x56), Sum(k, 0x83),
      Sum(k, 0xD7), Sum(k, 0x02), Sum(k, 0xA8), Sum(k, 0x7D))
  }

  /** The table's first column. */
  function Head(row: bv8): bv8 {
    match row
    case 0x0 => 0x00
    case 0x1 => 0x52
    case 0x2 => 0xA4
    case 0x3 => 0xF6
    case 0x4 => 0x9D
    case 0x5 => 0xCF
    case 0x6 => 0x39
    case 0x7 => 0x6B
    case 0x8 => 0xEF
    case 0x9 => 0xBD
    case 0xA => 0x4B
    case 0xB => 0x19
    case 0xC => 0x72
    case 0xD => 0x20
    case 0xE => 0xD6
    case _ => 0x84
  }

  lemma FirstRowClocks(col: bv8)
    requires col < 16
    ensures FirstRow(col) == EightShifts(col)
  {
  }

  lemma HeadClocks(row: bv8)
    requires row < 16
    ensures Head(row) == EightShifts(row << 4)
  {
  }

  lemma PlusAdds(k: bv8, col: bv8)
    ensures FirstRowPlus(k, col) == Sum(k, FirstRow(col))
  {
    hide Sum;
  }

  // Every row of the table is the first one with the row's head added.

  lemma RowsAreShifted0(row: bv8, col: bv8)
    requires row < 4
    ensures Entry(row, col) == FirstRowPlus(Head(row), col)
  {
    hide Column;
    match row
    case 0x0 => assert Entry(row, col) == FirstRowPlus(0x00, col);
    case 0x1 => assert Entry(row, col) == FirstRowPlus(0x52, col);
    case 0x2 => assert Entry(row, col) == FirstRowPlus(0xA4, col);
    case _ => assert Entry(row, col) == FirstRowPlus(0xF6, col);
  }

  lemma RowsAreShifted1(row: bv8, col: bv8)
    requires 4 <= row < 8
    ensures Entry(row, col) == FirstRowPlus(Head(row), col)
  {
    hide Column;
    match row
    case 0x4 => assert Entry(row, col) == FirstRowPlus(0x9D, col);
    case 0x5 => assert Entry(row, col) == FirstRowPlus(0xCF, col);
    case 0x6 => assert Entry(row, col) == FirstRowPlus(0x39, col);
    case _ => assert Entry(row, col) == FirstRowPlus(0x6B, col);
  }

  lemma RowsAreShifted2(row: bv8, col: bv8)
    requires 8 <= row < 12
    ensures Entry(row, col) == FirstRowPlus(Head(row), col)
  {
    hide Column;
    match row
    case 0x8 => assert Entry(row, col) == FirstRowPlus(0xEF, col);
    case 0x9 => assert Entry(row, col) == FirstRowPlus(0xBD, col);
    case 0xA => assert Entry(row, col) == FirstRowPlus(0x4B, col);
    case _ => assert Entry(row, col) == FirstRowPlus(0x19, col);
  }

  lemma RowsAreShifted3(row: bv8, col: bv8)
    requires 12 <= row < 16
    ensures Entry(row, col) == FirstRowPlus(Head(row), col)
  {
    hide Column;
    match row
    case 0xC => assert Entry(row, col) == FirstRowPlus(0x72, col);
    case 0xD => assert Entry(row, col) == FirstRowPlus(0x20, col);
    case 0xE => assert Entry(row, col) == FirstRowPlus(0xD6, col);
    case _ => assert Entry(row, col) == FirstRowPlus(0x84, col);
  }

  lemma ShiftedBit(r: bv8, i: nat)
    requires i < 8
    ensures BitOf(Shift(r), i) == ((i < 7 && BitOf(r, i + 1)) != (BitOf(r, 0) && i in {0, 1, 3, 5, 7}))
  {
  }

  lemma ShiftIsStep(r: bv8)
    ensures ByteBits(Shift(r)) == Step(ByteBits(r), false, G8)
  {
    hide BitOf, Shift;
    forall i | 0 <= i < 8
      ensures ByteBits(Shift(r))[i] == Step(ByteBits(r), false, G8)[i]
    {
      ShiftedBit(r, i);
    }
  }

  lemma RunOneMoreZero(r: Bits, n: nat)
    requires |r| == 8
    ensures Run(r, Zeros(n + 1), G8) == Step(Run(r, Zeros(n), G8), false, G8)
  {
    assert Zeros(n + 1)[..n] == Zeros(n);
  }

  lemma EightShiftsIsRun(x: bv8)
    ensures ByteBits(EightShifts(x)) == Run(ByteBits(x), Zeros(8), G8)
  {
    hide Shift, BitOf;
    var y := x;
    for i := 0 to 8
      invariant ByteBits(y) == Run(ByteBits(x), Zeros(i), G8)
      invariant i == 0 ==> y == x
      invariant i == 1 ==> y == Shift(x)
      invariant i == 2 ==> y == Shift(Shift(x))
      invariant i == 3 ==> y == Shift(Shift(Shift(x)))
      invariant i == 4 ==> y == Shift(Shift(Shift(Shift(x))))
      invariant i == 5 ==> y == Shift(Shift(Shift(Shift(Shift(x)))))
      invariant i == 6 ==> y == Shift(Shift(Shift(Shift(Shift(Shift(x))))))
      invariant i == 7 ==> y == Shift(Shift(Shift(Shift(Shift(Shift(Shift(x)))))))
      invariant i == 8 ==> y == EightShifts(x)
    {
      ShiftIsStep(y);
      RunOneMoreZero(ByteBits(x), i);
      y := Shift(y);
    }
  }

  /** Clocking is linear, so the two halves of an index can be clocked apart. */
  lemma EightShiftsAdds(a: bv8, b: bv8)
    ensures EightShifts(Sum(a, b)) == Sum(EightShifts(a), EightShifts(b))
  {
    hide EightShifts, ByteBits, Sum, Run;
    EightShiftsIsRun(a);
    EightShiftsIsRun(b);
    EightShiftsIsRun(Sum(a, b));
    ByteBitsAdd(a, b);
    ByteBitsAdd(EightShifts(a), EightShifts(b));
    RunAdds(ByteBits(a), ByteBits(b), Zeros(8), Zeros(8), G8);
    assert Xor(Zeros(8), Zeros(8)) == Zeros(8);
    ByteBitsInjective(EightShifts(Sum(a, b)), Sum(EightShifts(a), EightShifts(b)));
  }

  lemma Halves(x: bv8)
    ensures x >> 4 < 16 && x & 0xF < 16 && x == Sum((x >> 4) << 4, x & 0xF)
  {
  }

  lemma TableClocks(x: bv8)
    ensures Table(x) == EightShifts(x)
  {
    hide Entry, Head, FirstRow, FirstRowPlus, EightShifts, Sum;
    Halves(x);
    var (row, col) := (x >> 4, x & 0xF);
    if row < 4 { RowsAreShifted0(row, col); }
    else if row < 8 { RowsAreShifted1(row, col); }
    else if row < 12 { RowsAreShifted2(row, col); }
    else { RowsAreShifted3(row, col); }
    PlusAdds(Head(row), col);
    HeadClocks(row);
    FirstRowClocks(col);
    EightShiftsAdds(row << 4, col);
  }

  /** Every one of the 256 table entries is the register after eight clocks from its index. */
  lemma TableIsEightSteps(x: bv8)
    ensures ByteBits(Table(x)) == Run(ByteBits(x), Zeros(8), G8)
  {
    hide Table, EightShifts, Run;
    TableClocks(x);
    EightShiftsIsRun(x);
  }

  // ----- What the loop computes -----

  lemma TableReadsByte(crc: bv8, b: bv8)
    ensures ByteBits(Table(Sum(crc, b))) == Run(ByteBits(crc), ByteBits(b), G8)
  {
    hide Table, BitOf;
    TableIsEightSteps(Sum(crc, b));
    ByteBitsAdd(crc, b);
    ReadIsLoad(ByteBits(crc), ByteBits(b), 0, G8);
    assert ByteBits(b) + Zeros(0) == ByteBits(b);
  }

  /** The CRC is the division register after all the bits of the message. */
  lemma {:induction false} Crc8IsRegister(m: Message)
    ensures ByteBits(Crc8(m)) == Run(Zeros(8), MessageBits(m), G8)
    decreases |m|
  {
    hide Table;
    if m == [] {
      assert ByteBits(0) == Zeros(8);
    } else {
      hide BitOf, Sum;
      var n := |m| - 1;
      Crc8IsRegister(m[..n]);
      TableReadsByte(Crc8(m[..n]), m[n]);
      RunAppend(Zeros(8), MessageBits(m[..n]), ByteBits(m[n]), G8);
    }
  }

  /** The CRC is the one and only remainder of message * x^8 modulo the generator. */
  lemma Crc8IsRemainder(m: Message, crc: bv8)
    ensures crc == Crc8(m) <==> exists q :: Divides(MessageBits(m), q, ByteBits(crc), G8)
  {
    hide Table, BitOf;
    Crc8IsRegister(m);
    if crc == Crc8(m) {
      RunIsRemainder(MessageBits(m), G8);
      assert Divides(MessageBits(m), Quotient(MessageBits(m), G8), ByteBits(crc), G8);
    }
    if q :| Divides(MessageBits(m), q, ByteBits(crc), G8) {
      RemainderIsUnique(MessageBits(m), q, ByteBits(crc), G8);
      ByteBitsInjective(crc, Crc8(m));
    }
  }

  lemma TableZero(x: bv8)
    ensures Table(x) == 0 <==> x == 0
  {
    hide Table;
    TableIsEightSteps(x);
    RunOverZeros(ByteBits(x), 8, G8);
    assert ByteBits(0) == Zeros(8);
    if Table(x) == 0 { ByteBitsInjective(x, 0); }
    if x == 0 { ByteBitsInjective(Table(x), 0); }
  }

  /** A nonzero byte followed by zeros never has checksum zero. */
  lemma {:induction false} CrcOfLoneByte(b: bv8, n: nat)
    requires b != 0
    ensures Crc8([b] + seq(n, _ => 0)) != 0
    decreases n
  {
    hide Table;
    var m := [b] + seq(n, _ => 0);
    if n == 0 {
      assert m[..|m| - 1] == [];
      TableZero(b);
    } else {
      CrcOfLoneByte(b, n - 1);
      assert m[..|m| - 1] == [b] + seq(n - 1, _ => 0);
      TableZero(Crc8(m[..|m| - 1]));
    }
  }

  // ----- Error detection -----

  /** The receiver's test on type, payload and the trailing CRC byte. */
  predicate Passes(region: Message) {
    region != [] && Crc8(region[..|region| - 1]) == region[|region| - 1]
  }

  lemma PassesMeansInvisible(region: Message)
    requires region != []
    ensures Passes(region) <==> Invisible(MessageBits(region), G8)
  {
    hide Table, BitOf, ByteBits;
    var n := |region| - 1;
    var m, c := region[..n], region[n];
    Crc8IsRegister(m);
    ZeroAfterOwnValue(Zeros(8), MessageBits(m), ByteBits(c), G8);
    if ByteBits(Crc8(m)) == ByteBits(c) { ByteBitsInjective(Crc8(m), c); }
  }

  /** After an accepted region is hit by an error, it passes again exactly when the error is invisible. */
  lemma PassesAfterError(region: Message, e: Message)
    requires Passes(region) && |e| == |region|
    ensures Passes(Flip(region, e)) <==> Invisible(MessageBits(e), G8)
  {
    hide Table, Crc8;
    PassesMeansInvisible(region);
    PassesMeansInvisible(Flip(region, e));
    MessageBitsFlip(region, e);
    ErrorSeen(Zeros(8), MessageBits(region), MessageBits(e), G8);
  }

  /** Any odd number of flipped bits is caught, in a region of any length. */
  lemma OddFlipsCaught(region: Message, e: Message)
    requires Passes(region) && |e| == |region| && Parity(MessageBits(e))
    ensures !Passes(Flip(region, e))
  {
    hide Table, Crc8;
    PassesAfterError(region, e);
    GeneratorHasEvenWeight();
    OddErrorSeen(MessageBits(e), G8);
  }

  lemma GeneratorHasEvenWeight()
    ensures Parity(G8)
  {
    for i := 0 to 8
      invariant Parity(G8[..i]) == [false, true, false, false, true, true, false, false, true][i]
    {
      assert G8[..i + 1][..i] == G8[..i];
    }
    assert G8[..8] == G8;
  }

  /** Any error confined to eight consecutive bits is caught, byte-aligned or not. */
  lemma BurstCaught(region: Message, e: Message)
    requires Passes(region) && |e| == |region| && BurstWithin(MessageBits(e), 8)
    ensures Passes(Flip(region, e)) <==> MessageBits(e) == Zeros(8 * |e|)
  {
    hide Table, Crc8;
    PassesAfterError(region, e);
    BurstSeen(MessageBits(e), G8);
  }

  /**
   Nine bits are one too many: of all error patterns on nine consecutive bits, the pattern of
   the generator is the only one that slips through.
   */
  lemma NineBitBurst(region: Message, e: Message, before: nat, word: Bits, after: nat)
    requires Passes(region) && |e| == |region| && |word| == 9
    requires MessageBits(e) == Zeros(before) + word + Zeros(after)
    ensures Passes(Flip(region, e)) <==> word == Zeros(9) || word == [true] + G8
  {
    hide Table, Crc8;
    PassesAfterError(region, e);
    LongerBurstSeen(before, word, after, G8);
  }
}
