/** Bytes as coefficient sequences, most significant bit first, as the serial line sends them. */
module Bytes {
  import opened Gf2

  type Message = seq<bv8>

  /** The mask of bit i, counting from the most significant. */
  function Mask(i: nat): (m: bv8)
    requires i < 8
  {
    match i
    case 0 => 0x80
    case 1 => 0x40
    case 2 => 0x20
    case 3 => 0x10
    case 4 => 0x08
    case 5 => 0x04
    case 6 => 0x02
    case _ => 0x01
  }

  predicate BitOf(b: bv8, i: nat)
    requires i < 8
  {
    b & Mask(i) != 0
  }

  function Sum(a: bv8, b: bv8): bv8 {
    a ^ b
  }

  function ByteBits(b: bv8): (bits: Bits)
    ensures |bits| == 8
    ensures forall i :: 0 <= i < 8 ==> bits[i] == BitOf(b, i)
  {
    seq(8, i requires 0 <= i < 8 => BitOf(b, i))
  }

  function MessageBits(m: Message): (bits: Bits)
    ensures |bits| == 8 * |m|
  {
    if m == [] then [] else MessageBits(m[..|m| - 1]) + ByteBits(m[|m| - 1])
  }

  /** Flips, in every byte of m, the bits set in the byte of e at the same place. */
  function Flip(m: Message, e: Message): (f: Message)
    requires |m| == |e|
    ensures |f| == |m|
  {
    seq(|m|, i requires 0 <= i < |m| => Sum(m[i], e[i]))
  }

  lemma ByteBitsInjective(a: bv8, b: bv8)
    requires ByteBits(a) == ByteBits(b)
    ensures a == b
  {
    assert forall i :: 0 <= i < 8 ==> BitOf(a, i) == BitOf(b, i) by {
      assert forall i :: 0 <= i < 8 ==> ByteBits(a)[i] == ByteBits(b)[i];
    }
    assert BitOf(a, 0) == BitOf(b, 0) && BitOf(a, 1) == BitOf(b, 1) && BitOf(a, 2) == BitOf(b, 2);
    assert BitOf(a, 3) == BitOf(b, 3) && BitOf(a, 4) == BitOf(b, 4) && BitOf(a, 5) == BitOf(b, 5);
    assert BitOf(a, 6) == BitOf(b, 6) && BitOf(a, 7) == BitOf(b, 7);
  }

  lemma SumUnderMask(a: bv8, b: bv8, m: bv8)
    requires a & m == 0 || a & m == m
    requires b & m == 0 || b & m == m
    ensures ((a ^ b) & m != 0) <==> ((a & m != 0) != (b & m != 0))
  {
    assert (a ^ b) & m == (a & m) ^ (b & m);
  }

  lemma MaskIsOneBit(a: bv8, i: nat)
    requires i < 8
    ensures a & Mask(i) == 0 || a & Mask(i) == Mask(i)
  {
  }

  lemma BitOfSum(a: bv8, b: bv8, i: nat)
    requires i < 8
    ensures BitOf(Sum(a, b), i) == (BitOf(a, i) != BitOf(b, i))
  {
    hide Mask;
    MaskIsOneBit(a, i);
    MaskIsOneBit(b, i);
    SumUnderMask(a, b, Mask(i));
  }

  lemma ByteBitsAdd(a: bv8, b: bv8)
    ensures ByteBits(Sum(a, b)) == Xor(ByteBits(a), ByteBits(b))
  {
    hide BitOf, Sum;
    forall i | 0 <= i < 8
      ensures ByteBits(Sum(a, b))[i] == Xor(ByteBits(a), ByteBits(b))[i]
    {
      BitOfSum(a, b, i);
    }
  }

  lemma {:induction false} MessageBitsFlip(m: Message, e: Message)
    requires |m| == |e|
    ensures MessageBits(Flip(m, e)) == Xor(MessageBits(m), MessageBits(e))
    decreases |m|
  {
    if m != [] {
      var n := |m| - 1;
      MessageBitsFlip(m[..n], e[..n]);
      assert Flip(m, e)[..n] == Flip(m[..n], e[..n]);
      hide ByteBits, BitOf, Sum;
      ByteBitsAdd(m[n], e[n]);
      XorAppend(MessageBits(m[..n]), MessageBits(e[..n]), ByteBits(m[n]), ByteBits(e[n]));
    }
  }
}
