/**
 The CRC-16 of the telemetry frames: generator x^16 + x^12 + x^5 + 1, register preset to ones.
 The code has neither table nor bit loop; it folds a whole byte in with five shifts.
 */
module Crc16 {
  import opened Gf2
  import opened Bytes

  /** The low coefficients of the generator, x^12 + x^5 + 1, highest power first: 0x1021. */
  const G16: Bits := seq(16, i => i == 15 - 12 || i == 15 - 5 || i == 15 - 0)

  // The five assignments that fold one byte into the register.

  function SwapBytes(crc: bv16): bv16 { (crc >> 8) | (crc << 8) }

  function Sum16(a: bv16, b: bv16): bv16 { a ^ b }

  function Fold4(crc: bv16): bv16 { crc ^ ((crc & 0xFF) >> 4) }

  function Fold12(crc: bv16): bv16 { crc ^ (crc << 12) }

  function Fold5(crc: bv16): bv16 { crc ^ ((crc & 0xFF) << 5) }

  function FoldByte(crc: bv16, b: bv8): bv16 {
    Fold5(Fold12(Fold4(Sum16(SwapBytes(crc), b as bv16))))
  }

  function Crc16(m: Message): bv16 {
    if m == [] then 0xFFFF else FoldByte(Crc16(m[..|m| - 1]), m[|m| - 1])
  }

  /** The loop over the first `size` bytes; the null check of the original is the empty range. */
  method CalCheckCrc(buffer: array<bv8>, start: nat, size: nat) returns (crc: bv16)
    requires size < 256 && start + size <= buffer.Length
    ensures crc == Crc16(buffer[start..start + size])
  {
    hide SwapBytes, Sum16, Fold4, Fold12, Fold5;
    crc := 0xFFFF;
    for i := 0 to size
      invariant crc == Crc16(buffer[start..start + i])
    {
      assert buffer[start..start + i + 1][..i] == buffer[start..start + i];
      crc := SwapBytes(crc);
      crc := Sum16(crc, buffer[start + i] as bv16);
      crc := Fold4(crc);
      crc := Fold12(crc);
      crc := Fold5(crc);
    }
  }

  // ----- Folding is eight clocks of the division register -----

  function Twice(r: bv16): bv16 { r << 1 }

  function Shift(r: bv16): bv16 {
    if r & 0x8000 != 0 then Sum16(Twice(r), 0x1021) else Twice(r)
  }

  function EightShifts(r: bv16): bv16 {
    Shift(Shift(Shift(Shift(Shift(Shift(Shift(Shift(r))))))))
  }

  function Top(r: bv16): bv16 { r & 0xFF00 }

  function Raise(b: bv8): bv16 { b as bv16 << 8 }

  function LowToTop(r: bv16): bv16 { r << 8 }

  lemma Fold4PassesTop(x: bv16, l: bv16)
    requires l & 0xFF == 0
    ensures Fold4(Sum16(x, l)) == Sum16(Fold4(x), l)
  {
  }

  lemma Fold12PassesTop(x: bv16, l: bv16)
    requires l & 0xFF == 0
    ensures Fold12(Sum16(x, l)) == Sum16(Fold12(x), l)
  {
    ShiftDropsTop(x, l);
    SumReorders(x, l, x << 12);
  }

  lemma ShiftDropsTop(x: bv16, l: bv16)
    requires l & 0xFF == 0
    ensures Sum16(x, l) << 12 == x << 12
  {
  }

  lemma SumReorders(x: bv16, l: bv16, k: bv16)
    ensures (x ^ l) ^ k == (x ^ k) ^ l
  {
  }

  lemma Fold5PassesTop(x: bv16, l: bv16)
    requires l & 0xFF == 0
    ensures Fold5(Sum16(x, l)) == Sum16(Fold5(x), l)
  {
  }

  lemma SwapSplits(crc: bv16, b: bv8)
    ensures Sum16(SwapBytes(crc), b as bv16)
            == Sum16(SwapBytes(Top(Sum16(crc, Raise(b)))), LowToTop(crc))
    ensures LowToTop(crc) & 0xFF == 0
  {
  }

  /** Only the byte on top of the register is really folded; the low byte just moves up. */
  lemma FoldByteSplits(crc: bv16, b: bv8)
    ensures FoldByte(crc, b) == Sum16(FoldByte(Top(Sum16(crc, Raise(b))), 0), LowToTop(crc))
  {
    hide Fold4, Fold5, Fold12, Sum16, SwapBytes, Top, LowToTop;
    SwapSplits(crc, b);
    var l := LowToTop(crc);
    var x := SwapBytes(Top(Sum16(crc, Raise(b))));
    SumWithZero(x);
    Fold4PassesTop(x, l);
    Fold12PassesTop(Fold4(x), l);
    Fold5PassesTop(Fold12(Fold4(x)), l);
  }

  lemma SumWithZero(x: bv16)
    ensures Sum16(x, 0 as bv8 as bv16) == x
  {
  }

  /** Folding a lone top byte is eight clocks. */
  lemma FoldTopIsEightShifts(y: bv16)
    ensures FoldByte(Top(y), 0) == EightShifts(Top(y))
  {
  }

  // ----- The register as coefficients -----

  function HighByte(r: bv16): bv8 { (r >> 8) as bv8 }

  function LowByte(r: bv16): bv8 { (r & 0xFF) as bv8 }

  function WordBits(r: bv16): (bits: Bits)
    ensures |bits| == 16
  {
    ByteBits(HighByte(r)) + ByteBits(LowByte(r))
  }

  /** The mask of bit i of a word, counting from the most significant. */
  function Mask16(i: nat): (m: bv16)
    requires i < 16
  {
    match i
    case 0 => 0x8000
    case 1 => 0x4000
    case 2 => 0x2000
    case 3 => 0x1000
    case 4 => 0x0800
    case 5 => 0x0400
    case 6 => 0x0200
    case 7 => 0x0100
    case 8 => 0x0080
    case 9 => 0x0040
    case 10 => 0x0020
    case 11 => 0x0010
    case 12 => 0x0008
    case 13 => 0x0004
    case 14 => 0x0002
    case _ => 0x0001
  }

  predicate Bit(r: bv16, i: nat)
    requires i < 16
  {
    r & Mask16(i) != 0
  }

  lemma HighBit(r: bv16, i: nat)
    requires i < 8
    ensures BitOf(HighByte(r), i) == Bit(r, i)
  {
  }

  lemma LowBit(r: bv16, i: nat)
    requires i < 8
    ensures BitOf(LowByte(r), i) == Bit(r, 8 + i)
  {
  }

  lemma WordBit(r: bv16, i: nat)
    requires i < 16
    ensures WordBits(r)[i] == Bit(r, i)
  {
    hide Bit, HighByte, LowByte, BitOf;
    if i < 8 { HighBit(r, i); } else { LowBit(r, i - 8); }
  }

  lemma BitOfTwice(r: bv16, i: nat)
    requires i < 16
    ensures Bit(Twice(r), i) == (i < 15 && Bit(r, i + 1))
  {
  }

  lemma BitOfGenerator(i: nat)
    requires i < 16
    ensures Bit(0x1021, i) == G16[i]
  {
  }

  lemma TopBit(r: bv16)
    ensures Shift(r) == if Bit(r, 0) then Sum16(Twice(r), 0x1021) else Twice(r)
  {
  }

  lemma ShiftIsStep(r: bv16)
    ensures WordBits(Shift(r)) == Step(WordBits(r), false, G16)
  {
    TopBit(r);
    hide Shift, WordBits, Bit, Sum16, Twice;
    WordBitsAdd(Twice(r), 0x1021);
    forall i | 0 <= i < 16
      ensures WordBits(0x1021)[i] == G16[i]
      ensures WordBits(Twice(r))[i] == (WordBits(r)[1..] + [false])[i]
    {
      WordBit(0x1021, i);
      BitOfGenerator(i);
      WordBit(Twice(r), i);
      BitOfTwice(r, i);
      if i < 15 { WordBit(r, i + 1); }
    }
    WordBit(r, 0);
    assert WordBits(0x1021) == G16;
    assert WordBits(Twice(r)) == WordBits(r)[1..] + [false];
  }

  lemma EightShiftsIsRun(x: bv16)
    ensures WordBits(EightShifts(x)) == Run(WordBits(x), Zeros(8), G16)
  {
    hide Shift, WordBits;
    var y := x;
    for i := 0 to 8
      invariant WordBits(y) == Run(WordBits(x), Zeros(i), G16)
      invariant i == 0 ==> y == x
      invariant i == 1 ==> y == Shift(x)
      invariant i == 2 ==> y == Shift(Shift(x))
      invariant i == 3 ==> y == Shift(Shift(Shift(x)))
      invariant i == 4 ==> y == Shift(Shift(Shift(Shift(x))))
      invariant i == 5 ==> y == Shift(Shift(Shift(Shift(Shift(x)))))
      invariant i == 6 ==> y == Shift(Shift(Shift(Shift(Shift(Shift(x))))))
      invariant i == 7 ==> y == Shift(Shift(Shift(Shift(Shift(Shift(Shift(x)))))))
      invariant i == 8 ==> y == EightShifts(x)
    {
      ShiftIsStep(y);
      assert Zeros(i + 1)[..i] == Zeros(i);
      y := Shift(y);
    }
  }

  lemma WordBitsAdd(a: bv16, b: bv16)
    ensures WordBits(Sum16(a, b)) == Xor(WordBits(a), WordBits(b))
  {
    HalvesAdd(a, b);
    hide Sum16, Sum, HighByte, LowByte, ByteBits;
    ByteBitsAdd(HighByte(a), HighByte(b));
    ByteBitsAdd(LowByte(a), LowByte(b));
  }

  lemma HalvesAdd(a: bv16, b: bv16)
    ensures HighByte(Sum16(a, b)) == Sum(HighByte(a), HighByte(b))
    ensures LowByte(Sum16(a, b)) == Sum(LowByte(a), LowByte(b))
  {
  }

  lemma WordParts(y: bv16, b: bv8)
    ensures HighByte(Raise(b)) == b && LowByte(Raise(b)) == 0
    ensures HighByte(Top(y)) == HighByte(y) && LowByte(Top(y)) == 0
    ensures HighByte(LowToTop(y)) == LowByte(y) && LowByte(LowToTop(y)) == 0
    ensures ByteBits(0) == Zeros(8)
  {
  }

  /** Folding a byte in is reading its eight bits. */
  lemma FoldReadsByte(crc: bv16, b: bv8)
    ensures WordBits(FoldByte(crc, b)) == Run(WordBits(crc), ByteBits(b), G16)
  {
    hide FoldByte, Sum16, HighByte, LowByte, Top, LowToTop, ByteBits, EightShifts, Raise, Run;
    var y := Sum16(crc, Raise(b));
    WordParts(y, b);
    WordParts(crc, b);
    LowByteKept(crc, b);
    FoldByteSplits(crc, b);
    FoldTopIsEightShifts(y);
    EightShiftsIsRun(Top(y));
    ReadIsLoad(WordBits(crc), ByteBits(b), 8, G16);
    WordBitsAdd(crc, Raise(b));
    var low := ByteBits(LowByte(y));
    assert WordBits(y) == Xor(WordBits(Top(y)), Zeros(8) + low);
    RunAdds(WordBits(Top(y)), Zeros(8) + low, Zeros(8), Zeros(8), G16);
    assert Xor(Zeros(8), Zeros(8)) == Zeros(8);
    ZerosMoveUp(low, 8, G16);
    WordBitsAdd(FoldByte(Top(y), 0), LowToTop(crc));
  }

  lemma LowByteKept(crc: bv16, b: bv8)
    ensures LowByte(Sum16(crc, Raise(b))) == LowByte(crc)
  {
  }

  // ----- What the loop computes -----

  const PRESET: Bits := WordBits(0xFFFF)

  lemma PresetIsOnes()
    ensures PRESET == seq(16, _ => true)
  {
    forall i | 0 <= i < 16
      ensures PRESET[i]
    {
      WordBit(0xFFFF, i);
    }
  }

  /** The CRC is the division register, started from all ones, after all the bits of the message. */
  lemma {:induction false} Crc16IsRegister(m: Message)
    ensures WordBits(Crc16(m)) == Run(PRESET, MessageBits(m), G16) && PRESET == seq(16, _ => true)
    decreases |m|
  {
    PresetIsOnes();
    hide FoldByte, ByteBits, HighByte, LowByte;
    if m != [] {
      var n := |m| - 1;
      Crc16IsRegister(m[..n]);
      FoldReadsByte(Crc16(m[..n]), m[n]);
      RunAppend(PRESET, MessageBits(m[..n]), ByteBits(m[n]), G16);
    }
  }

  function FirstWordComplemented(m: Message): Bits
    requires |m| >= 2
  {
    Xor(MessageBits(m), PRESET + Zeros(8 * |m| - 16))
  }

  /**
   Presetting the register to ones is complementing the first sixteen bits: the CRC is the one and
   only remainder of that polynomial * x^16.
   */
  lemma Crc16IsRemainder(m: Message, crc: bv16)
    requires |m| >= 2
    ensures crc == Crc16(m)
            <==> exists q :: Divides(FirstWordComplemented(m), q, WordBits(crc), G16)
  {
    Crc16IsRegister(m);
    hide Crc16, ByteBits, HighByte, LowByte, Run, Divides, WordBits, MessageBits;
    var poly := FirstWordComplemented(m);
    PresetIsComplement(PRESET, MessageBits(m), 8 * |m| - 16, G16);
    if crc == Crc16(m) {
      RunIsRemainder(poly, G16);
      assert Divides(poly, Quotient(poly, G16), WordBits(crc), G16);
    }
    if q :| Divides(poly, q, WordBits(crc), G16) {
      RemainderIsUnique(poly, q, WordBits(crc), G16);
      WordBitsInjective(crc, Crc16(m));
    }
  }

  lemma WordBitsInjective(a: bv16, b: bv16)
    requires WordBits(a) == WordBits(b)
    ensures a == b
  {
    HalvesDetermine(a, b);
    WordBitsSplit(a, HighByte(b), LowByte(b));
  }

  lemma HalvesDetermine(a: bv16, b: bv16)
    ensures HighByte(a) == HighByte(b) && LowByte(a) == LowByte(b) ==> a == b
  {
  }

  // ----- Error detection -----

  /** A region passes when its last two bytes are the CRC of the rest, high byte first. */
  predicate Passes(region: Message) {
    var n := |region| - 2;
    n >= 0 && region[n] == HighByte(Crc16(region[..n])) && region[n + 1] == LowByte(Crc16(region[..n]))
  }

  /** Running the same CRC on over its own two bytes leaves zero, and only they do. */
  lemma PassesMeansZeroResidue(region: Message)
    requires |region| >= 2
    ensures Passes(region) <==> Crc16(region) == 0
  {
    hide Crc16, HighByte, LowByte, ByteBits, Run, MessageBits, WordBits;
    var n := |region| - 2;
    var m, hi, lo := region[..n], region[n], region[n + 1];
    var r := WordBits(Crc16(m));
    var tail := ByteBits(hi) + ByteBits(lo);
    MessageBitsTail(region);
    Crc16IsRegister(m);
    Crc16IsRegister(region);
    ZeroAfterOwnValue(PRESET, MessageBits(m), tail, G16);
    ZeroWord(Crc16(region));
    WordBitsSplit(Crc16(m), hi, lo);
  }

  lemma MessageBitsTail(m: Message)
    requires |m| >= 2
    ensures MessageBits(m) == MessageBits(m[..|m| - 2]) + (ByteBits(m[|m| - 2]) + ByteBits(m[|m| - 1]))
  {
    hide ByteBits;
    var n := |m| - 2;
    assert m[..n + 1][..n] == m[..n];
  }

  lemma WordBitsSplit(r: bv16, hi: bv8, lo: bv8)
    ensures WordBits(r) == ByteBits(hi) + ByteBits(lo) <==> hi == HighByte(r) && lo == LowByte(r)
  {
    hide HighByte, LowByte, BitOf;
    if WordBits(r) == ByteBits(hi) + ByteBits(lo) {
      assert ByteBits(hi) == WordBits(r)[..8] == ByteBits(HighByte(r));
      assert ByteBits(lo) == WordBits(r)[8..] == ByteBits(LowByte(r));
      ByteBitsInjective(hi, HighByte(r));
      ByteBitsInjective(lo, LowByte(r));
    }
  }

  lemma ZeroWord(r: bv16)
    ensures WordBits(r) == Zeros(16) <==> r == 0
  {
    assert WordBits(0) == Zeros(16) by {
      WordParts(0, 0);
      assert HighByte(0) == 0 && LowByte(0) == 0;
    }
    if WordBits(r) == Zeros(16) { WordBitsInjective(r, 0); }
  }

  lemma PassesAfterError(region: Message, e: Message)
    requires Passes(region) && |e| == |region|
    ensures Passes(Flip(region, e)) <==> Invisible(MessageBits(e), G16)
  {
    PassesMeansZeroResidue(region);
    PassesMeansZeroResidue(Flip(region, e));
    hide Crc16, Passes;
    Crc16IsRegister(region);
    Crc16IsRegister(Flip(region, e));
    MessageBitsFlip(region, e);
    ErrorSeen(PRESET, MessageBits(region), MessageBits(e), G16);
    ZeroWord(Crc16(region));
    ZeroWord(Crc16(Flip(region, e)));
  }

  /** Any odd number of flipped bits, or any error within sixteen consecutive bits, is caught. */
  lemma ErrorsCaught(region: Message, e: Message)
    requires Passes(region) && |e| == |region|
    requires Parity(MessageBits(e)) || (BurstWithin(MessageBits(e), 16) && MessageBits(e) != Zeros(8 * |e|))
    ensures !Passes(Flip(region, e))
  {
    PassesAfterError(region, e);
    hide Passes;
    if Parity(MessageBits(e)) {
      GeneratorHasEvenWeight();
      OddErrorSeen(MessageBits(e), G16);
    } else {
      BurstSeen(MessageBits(e), G16);
    }
  }

  lemma GeneratorHasEvenWeight()
    ensures Parity(G16)
  {
    for i := 0 to 16
      invariant Parity(G16[..i]) == (4 <= i <= 10 || i == 16)
    {
      assert G16[..i + 1][..i] == G16[..i];
    }
    assert G16[..16] == G16;
  }
}
