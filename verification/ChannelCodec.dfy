/**
 The 0x16 "RC channels packed" payload: sixteen 11-bit channels in twenty-two bytes, least
 significant bits first. The unpacking repeats after eight channels, that is eleven bytes.
 */
module ChannelCodec {
  import opened Bytes

  type Channel = bv16

  // The eight shift-and-mask expressions, in 32-bit arithmetic as C promotes them.

  function Field0(a: bv8, b: bv8): Channel { ((a as bv32 | (b as bv32 << 8)) & 0x07FF) as bv16 }

  function Field1(a: bv8, b: bv8): Channel { (((a as bv32 >> 3) | (b as bv32 << 5)) & 0x07FF) as bv16 }

  function Field2(a: bv8, b: bv8, c: bv8): Channel {
    (((a as bv32 >> 6) | (b as bv32 << 2) | (c as bv32 << 10)) & 0x07FF) as bv16
  }

  function Field3(a: bv8, b: bv8): Channel { (((a as bv32 >> 1) | (b as bv32 << 7)) & 0x07FF) as bv16 }

  function Field4(a: bv8, b: bv8): Channel { (((a as bv32 >> 4) | (b as bv32 << 4)) & 0x07FF) as bv16 }

  function Field5(a: bv8, b: bv8, c: bv8): Channel {
    (((a as bv32 >> 7) | (b as bv32 << 1) | (c as bv32 << 9)) & 0x07FF) as bv16
  }

  function Field6(a: bv8, b: bv8): Channel { (((a as bv32 >> 2) | (b as bv32 << 6)) & 0x07FF) as bv16 }

  function Field7(a: bv8, b: bv8): Channel { (((a as bv32 >> 5) | (b as bv32 << 3)) & 0x07FF) as bv16 }

  function GroupField(b: Message, k: nat): Channel
    requires |b| == 11 && k < 8
  {
    match k
    case 0 => Field0(b[0], b[1])
    case 1 => Field1(b[1], b[2])
    case 2 => Field2(b[2], b[3], b[4])
    case 3 => Field3(b[4], b[5])
    case 4 => Field4(b[5], b[6])
    case 5 => Field5(b[6], b[7], b[8])
    case 6 => Field6(b[8], b[9])
    case _ => Field7(b[9], b[10])
  }

  function UnpackGroup(b: Message): (ch: seq<Channel>)
    requires |b| == 11
    ensures |ch| == 8
  {
    seq(8, k requires 0 <= k < 8 => GroupField(b, k))
  }

  lemma GroupFields(b: Message, ch: seq<Channel>)
    requires |b| == 11 && |ch| == 8
    requires ch[0] == Field0(b[0], b[1]) && ch[1] == Field1(b[1], b[2]) && ch[2] == Field2(b[2], b[3], b[4])
    requires ch[3] == Field3(b[4], b[5]) && ch[4] == Field4(b[5], b[6]) && ch[5] == Field5(b[6], b[7], b[8])
    requires ch[6] == Field6(b[8], b[9]) && ch[7] == Field7(b[9], b[10])
    ensures ch == UnpackGroup(b)
  {
    hide Field0, Field1, Field2, Field3, Field4, Field5, Field6, Field7;
  }

  function Unpack(payload: Message): (ch: seq<Channel>)
    requires |payload| == 22
    ensures |ch| == 16
  {
    UnpackGroup(payload[..11]) + UnpackGroup(payload[11..])
  }

  // ----- Bit positions, least significant first -----

  predicate ByteBit(b: bv8, i: nat)
    requires i < 8
  {
    BitOf(b, 7 - i)
  }

  function ChannelMask(j: nat): bv16
    requires j < 11
  {
    match j
    case 0 => 0x001
    case 1 => 0x002
    case 2 => 0x004
    case 3 => 0x008
    case 4 => 0x010
    case 5 => 0x020
    case 6 => 0x040
    case 7 => 0x080
    case 8 => 0x100
    case 9 => 0x200
    case _ => 0x400
  }

  predicate ChannelBit(c: Channel, j: nat)
    requires j < 11
  {
    c & ChannelMask(j) != 0
  }

  /** Bit k of the payload read as one little-endian number. */
  predicate PayloadBit(payload: Message, k: nat)
    requires k < 8 * |payload|
  {
    ByteBit(payload[k / 8], k % 8)
  }

  /** Bit k of the channels laid end to end, eleven bits each. */
  predicate StreamBit(ch: seq<Channel>, k: nat)
    requires k < 11 * |ch|
  {
    ChannelBit(ch[k / 11], k % 11)
  }

  lemma Field0Bits(a: bv8, b: bv8, j: nat)
    requires j < 11
    ensures ChannelBit(Field0(a, b), j) == if j < 8 then ByteBit(a, j) else ByteBit(b, j - 8)
  {
  }

  lemma Field1Bits(a: bv8, b: bv8, j: nat)
    requires j < 11
    ensures ChannelBit(Field1(a, b), j) == if j < 5 then ByteBit(a, j + 3) else ByteBit(b, j - 5)
  {
  }

  lemma Field2LowBits(a: bv8, b: bv8, c: bv8, j: nat)
    requires j < 6
    ensures ChannelBit(Field2(a, b, c), j)
            == if j < 2 then ByteBit(a, j + 6) else ByteBit(b, j - 2)
  {
  }

  lemma Field2MiddleBits(a: bv8, b: bv8, c: bv8, j: nat)
    requires 6 <= j < 10
    ensures ChannelBit(Field2(a, b, c), j) == ByteBit(b, j - 2)
  {
  }

  lemma Field2TopBit(a: bv8, b: bv8, c: bv8)
    ensures ChannelBit(Field2(a, b, c), 10) == ByteBit(c, 0)
  {
  }

  lemma Field3Bits(a: bv8, b: bv8, j: nat)
    requires j < 11
    ensures ChannelBit(Field3(a, b), j) == if j < 7 then ByteBit(a, j + 1) else ByteBit(b, j - 7)
  {
  }

  lemma Field4Bits(a: bv8, b: bv8, j: nat)
    requires j < 11
    ensures ChannelBit(Field4(a, b), j) == if j < 4 then ByteBit(a, j + 4) else ByteBit(b, j - 4)
  {
  }

  lemma Field5LowBits(a: bv8, b: bv8, c: bv8, j: nat)
    requires j < 6
    ensures ChannelBit(Field5(a, b, c), j)
            == if j < 1 then ByteBit(a, j + 7) else ByteBit(b, j - 1)
  {
  }

  lemma Field5HighBits(a: bv8, b: bv8, c: bv8, j: nat)
    requires 6 <= j < 11
    ensures ChannelBit(Field5(a, b, c), j)
            == if j < 9 then ByteBit(b, j - 1) else ByteBit(c, j - 9)
  {
  }

  lemma Field6Bits(a: bv8, b: bv8, j: nat)
    requires j < 11
    ensures ChannelBit(Field6(a, b), j) == if j < 6 then ByteBit(a, j + 2) else ByteBit(b, j - 6)
  {
  }

  lemma Field7Bits(a: bv8, b: bv8, j: nat)
    requires j < 11
    ensures ChannelBit(Field7(a, b), j) == if j < 3 then ByteBit(a, j + 5) else ByteBit(b, j - 3)
  {
  }

  lemma GroupBits(b: Message, k: nat, j: nat)
    requires |b| == 11 && k < 8 && j < 11
    ensures ChannelBit(UnpackGroup(b)[k], j) == PayloadBit(b, 11 * k + j)
  {
    hide Field0, Field1, Field2, Field3, Field4, Field5, Field6, Field7, ChannelBit, ByteBit;
    match k
    case 0 => Field0Bits(b[0], b[1], j);
    case 1 => Field1Bits(b[1], b[2], j);
    case 2 =>
      if j < 6 { Field2LowBits(b[2], b[3], b[4], j); }
      else if j < 10 { Field2MiddleBits(b[2], b[3], b[4], j); }
      else { Field2TopBit(b[2], b[3], b[4]); }
    case 3 => Field3Bits(b[4], b[5], j);
    case 4 => Field4Bits(b[5], b[6], j);
    case 5 => if j < 6 { Field5LowBits(b[6], b[7], b[8], j); } else { Field5HighBits(b[6], b[7], b[8], j); }
    case 6 => Field6Bits(b[8], b[9], j);
    case _ => Field7Bits(b[9], b[10], j);
  }

  /** Unpacking slices the payload: channel c is bits 11c to 11c+10 of the little-endian number. */
  lemma UnpackSlices(payload: Message, c: nat, j: nat)
    requires |payload| == 22 && c < 16 && j < 11
    ensures ChannelBit(Unpack(payload)[c], j) == PayloadBit(payload, 11 * c + j)
  {
    hide UnpackGroup, ChannelBit, ByteBit;
    if c < 8 {
      GroupBits(payload[..11], c, j);
    } else {
      GroupBits(payload[11..], c - 8, j);
      var k := 11 * (c - 8) + j;
      assert 11 * c + j == k + 88 && (k + 88) / 8 == k / 8 + 11 && (k + 88) % 8 == k % 8;
    }
  }

  // ----- The packer -----

  function Select(bit: bool, mask: bv8): bv8 { if bit then mask else 0 }

  function Assemble(b0: bool, b1: bool, b2: bool, b3: bool, b4: bool, b5: bool, b6: bool, b7: bool): bv8 {
    Select(b0, 1) | Select(b1, 2) | Select(b2, 4) | Select(b3, 8)
    | Select(b4, 16) | Select(b5, 32) | Select(b6, 64) | Select(b7, 128)
  }

  function PackByte(ch: seq<Channel>, i: nat): bv8
    requires |ch| == 16 && i < 22
  {
    var k := 8 * i;
    Assemble(StreamBit(ch, k), StreamBit(ch, k + 1), StreamBit(ch, k + 2), StreamBit(ch, k + 3),
             StreamBit(ch, k + 4), StreamBit(ch, k + 5), StreamBit(ch, k + 6), StreamBit(ch, k + 7))
  }

  /** The sender: the channels' eleven low bits laid end to end and cut into bytes. */
  function Pack(ch: seq<Channel>): (payload: Message)
    requires |ch| == 16
    ensures |payload| == 22
  {
    seq(22, i requires 0 <= i < 22 => PackByte(ch, i))
  }

  /** Values an 11-bit field can hold. */
  predicate Channels(ch: seq<Channel>) {
    |ch| == 16 && forall c :: 0 <= c < 16 ==> ch[c] < 0x800
  }

  lemma AssembledBit(
    b0: bool, b1: bool, b2: bool, b3: bool, b4: bool, b5: bool, b6: bool, b7: bool, t: nat)
    requires t < 8
    ensures ByteBit(Assemble(b0, b1, b2, b3, b4, b5, b6, b7), t)
            == match t case 0 => b0 case 1 => b1 case 2 => b2 case 3 => b3
                       case 4 => b4 case 5 => b5 case 6 => b6 case _ => b7
  {
  }

  lemma PackSlices(ch: seq<Channel>, k: nat)
    requires |ch| == 16 && k < 176
    ensures PayloadBit(Pack(ch), k) == StreamBit(ch, k)
  {
    hide ByteBit, ChannelBit, Assemble, StreamBit;
    var i, t := k / 8, k % 8;
    var n := 8 * i;
    AssembledBit(StreamBit(ch, n), StreamBit(ch, n + 1), StreamBit(ch, n + 2), StreamBit(ch, n + 3),
                 StreamBit(ch, n + 4), StreamBit(ch, n + 5), StreamBit(ch, n + 6), StreamBit(ch, n + 7), t);
  }

  lemma ByteDetermined(a: bv8, b: bv8)
    requires forall t :: 0 <= t < 8 ==> ByteBit(a, t) == ByteBit(b, t)
    ensures a == b
  {
    hide BitOf;
    forall i | 0 <= i < 8
      ensures ByteBits(a)[i] == ByteBits(b)[i]
    {
      assert ByteBit(a, 7 - i) == ByteBit(b, 7 - i);
    }
    assert ByteBits(a) == ByteBits(b);
    ByteBitsInjective(a, b);
  }

  lemma ChannelDetermined(a: Channel, b: Channel)
    requires a < 0x800 && b < 0x800
    requires forall j :: 0 <= j < 11 ==> ChannelBit(a, j) == ChannelBit(b, j)
    ensures a == b
  {
    assert ChannelBit(a, 0) == ChannelBit(b, 0) && ChannelBit(a, 1) == ChannelBit(b, 1);
    assert ChannelBit(a, 2) == ChannelBit(b, 2) && ChannelBit(a, 3) == ChannelBit(b, 3);
    assert ChannelBit(a, 4) == ChannelBit(b, 4) && ChannelBit(a, 5) == ChannelBit(b, 5);
    assert ChannelBit(a, 6) == ChannelBit(b, 6) && ChannelBit(a, 7) == ChannelBit(b, 7);
    assert ChannelBit(a, 8) == ChannelBit(b, 8) && ChannelBit(a, 9) == ChannelBit(b, 9);
    assert ChannelBit(a, 10) == ChannelBit(b, 10);
  }

  lemma GroupInRange(b: Message, k: nat)
    requires |b| == 11 && k < 8
    ensures UnpackGroup(b)[k] < 0x800
  {
  }

  /** Decoding what was packed gives the channels back. */
  lemma UnpackPack(ch: seq<Channel>)
    requires Channels(ch)
    ensures Unpack(Pack(ch)) == ch
  {
    hide Pack, ChannelBit, ByteBit, UnpackGroup;
    var p := Pack(ch);
    forall c | 0 <= c < 16
      ensures Unpack(p)[c] == ch[c]
    {
      UnpackInRange(p, c);
      forall j | 0 <= j < 11
        ensures ChannelBit(Unpack(p)[c], j) == ChannelBit(ch[c], j)
      {
        UnpackSlices(p, c, j);
        PackSlices(ch, 11 * c + j);
        assert (11 * c + j) / 11 == c && (11 * c + j) % 11 == j;
      }
      ChannelDetermined(Unpack(p)[c], ch[c]);
    }
  }

  lemma UnpackInRange(payload: Message, c: nat)
    requires |payload| == 22 && c < 16
    ensures Unpack(payload)[c] < 0x800
  {
    hide UnpackGroup;
    if c < 8 { GroupInRange(payload[..11], c); } else { GroupInRange(payload[11..], c - 8); }
  }

  /** Every 22-byte payload is the packing of what it decodes to, so the codec is a bijection. */
  lemma PackUnpack(payload: Message)
    requires |payload| == 22
    ensures Channels(Unpack(payload)) && Pack(Unpack(payload)) == payload
  {
    hide Pack, ChannelBit, ByteBit, UnpackGroup, Unpack;
    forall c | 0 <= c < 16
      ensures Unpack(payload)[c] < 0x800
    {
      UnpackInRange(payload, c);
    }
    var p := Pack(Unpack(payload));
    forall i | 0 <= i < 22
      ensures p[i] == payload[i]
    {
      forall t | 0 <= t < 8
        ensures ByteBit(p[i], t) == ByteBit(payload[i], t)
      {
        var k := 8 * i + t;
        assert k / 8 == i && k % 8 == t;
        PackSlices(Unpack(payload), k);
        UnpackSlices(payload, k / 11, k % 11);
      }
      ByteDetermined(p[i], payload[i]);
    }
  }
}
