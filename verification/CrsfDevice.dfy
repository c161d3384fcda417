/** The serial radio device: the receive scanner with its frame check, and the telemetry sender. */
module CrsfDevice {
  import opened Gf2
  import opened Bytes
  import opened ChannelCodec
  import Crc8
  import Crc16
  import DoubleFlips

  const FLIGHT_CONTROLLER: bv8 := 0xC8
  const CUSTOMER_CMD: bv8 := 0x31
  const REV_DATA: bv8 := 0x03
  const SET_STATUS: bv8 := 0x04
  const FRAME_LENGTH: bv8 := 24
  const PACKET_SIZE := 26
  const UART_BUFFER := 512
  const RETURN_INFO := 32
  const MAX_PAYLOAD := 4

  /** A call to one of the two registered callbacks, with the data its pointer leads to. */
  datatype Delivery = Channels16(channels: seq<Channel>) | Mode(data: Message)

  predicate IsModeCommand(packet: Message)
    requires |packet| == PACKET_SIZE
  {
    packet[0] == CUSTOMER_CMD && packet[1] == REV_DATA
  }

  /** Address, length and checksum of a channel frame are right. */
  predicate IsChannelFrame(packet: Message)
    requires |packet| == PACKET_SIZE
  {
    packet[0] == FLIGHT_CONTROLLER && packet[1] == FRAME_LENGTH && Crc8.Passes(packet[2..])
  }

  /** The checksum has overwritten the last of the 22 payload bytes before they are decoded. */
  function DecodedPayload(packet: Message): (p: Message)
    requires |packet| == PACKET_SIZE
    ensures |p| == 22
  {
    packet[3..24] + [packet[25]]
  }

  function PacketDeliveries(packet: Message): seq<Delivery>
    requires |packet| == PACKET_SIZE
  {
    if IsModeCommand(packet) then [Mode(packet[2..])]
    else if IsChannelFrame(packet) then [Channels16(Unpack(DecodedPayload(packet)))]
    else []
  }

  // ----- What one scan of a received buffer delivers -----

  /** The two passes over the buffer look for different packets. */
  datatype Pass = Frames | Modes

  predicate FoundAt(pass: Pass, rx: Message, i: nat) {
    && i + PACKET_SIZE <= |rx|
    && match pass
       case Frames => IsChannelFrame(rx[i..i + PACKET_SIZE])
       case Modes => IsModeCommand(rx[i..i + PACKET_SIZE])
  }

  /** The positions below n at which the pass finds its packet, in scanning order. */
  function Offsets(pass: Pass, rx: Message, n: nat): seq<nat> {
    if n == 0 then []
    else Offsets(pass, rx, n - 1) + if FoundAt(pass, rx, n - 1) then [n - 1] else []
  }

  function DeliveriesFrom(rx: Message, i: nat): seq<Delivery> {
    if i + PACKET_SIZE <= |rx| then PacketDeliveries(rx[i..i + PACKET_SIZE]) else []
  }

  function DeliveriesAt(rx: Message, offsets: seq<nat>): seq<Delivery> {
    if offsets == [] then []
    else
      var k := |offsets| - 1;
      DeliveriesAt(rx, offsets[..k]) + DeliveriesFrom(rx, offsets[k])
  }

  function ScanDeliveries(rx: Message): seq<Delivery> {
    DeliveriesAt(rx, Offsets(Frames, rx, |rx|)) + DeliveriesAt(rx, Offsets(Modes, rx, |rx|))
  }

  /** A pass lists every place of its packet below n exactly once, from left to right, overlapping or not. */
  lemma {:induction false} OffsetsExact(pass: Pass, rx: Message, n: nat)
    ensures var offsets := Offsets(pass, rx, n);
      && (forall i, j :: 0 <= i < j < |offsets| ==> offsets[i] < offsets[j])
      && (forall i: nat :: i in offsets <==> i < n && FoundAt(pass, rx, i))
  {
    hide FoundAt;
    if n > 0 {
      OffsetsExact(pass, rx, n - 1);
      var before := Offsets(pass, rx, n - 1);
      assert forall k :: 0 <= k < |before| ==> before[k] in before;
    }
  }

  // ----- What a scan must call, on the call list itself -----

  /**
   An intact channel frame starts at i: address, length, and the checksum of the 23 bytes behind them. Or a
   mode command does.
   */
  predicate Starts(pass: Pass, rx: Message, i: nat) {
    && i + 26 <= |rx|
    && match pass
       case Frames => rx[i] == 0xC8 && rx[i + 1] == 24 && Crc8.Crc8(rx[i + 2..i + 25]) == rx[i + 25]
       case Modes => rx[i] == 0x31 && rx[i + 1] == 0x03
  }

  /**
   The callback for the packet at i: the sixteen channels of the payload, the checksum in place of its last
   byte, or the 24 bytes of the mode command.
   */
  function Call(pass: Pass, rx: Message, i: nat): Delivery
    requires i + 26 <= |rx|
  {
    match pass
    case Frames => Channels16(Unpack(rx[i + 3..i + 24] + [rx[i + 25]]))
    case Modes => Mode(rx[i + 2..i + 26])
  }

  ghost predicate Ascending(places: seq<nat>) {
    forall i, j :: 0 <= i < j < |places| ==> places[i] < places[j]
  }

  /** One call for each place where the pass's packet starts, from left to right, and for no other. */
  ghost predicate Called(pass: Pass, rx: Message, calls: seq<Delivery>, places: seq<nat>) {
    && |calls| == |places| && Ascending(places) && (forall i: nat :: i in places <==> Starts(pass, rx, i))
    && forall k :: 0 <= k < |places| ==> places[k] + 26 <= |rx| && calls[k] == Call(pass, rx, places[k])
  }

  /** First all channel frames, then all mode commands. */
  ghost predicate Scanned(rx: Message, calls: seq<Delivery>, frames: seq<nat>, modes: seq<nat>) {
    |calls| == |frames| + |modes|
    && Called(Frames, rx, calls[..|frames|], frames) && Called(Modes, rx, calls[|frames|..], modes)
  }

  lemma InPacket(rx: Message, at: nat, i: nat, j: nat)
    requires at + 26 <= |rx| && i <= j <= 26
    ensures rx[at..at + 26][i..j] == rx[at + i..at + j]
  {
    var packet := rx[at..at + 26];
    forall k | 0 <= k < j - i
      ensures packet[i..j][k] == rx[at + i..at + j][k]
    {
      assert packet[i + k] == rx[at + i + k];
    }
  }

  lemma PacketBytes(pass: Pass, rx: Message, i: nat)
    ensures FoundAt(pass, rx, i) <==> Starts(pass, rx, i)
    ensures FoundAt(pass, rx, i) ==> i < i + 26 <= |rx| && DeliveriesFrom(rx, i) == [Call(pass, rx, i)]
  {
    hide Crc8.Crc8, Unpack;
    if i + PACKET_SIZE <= |rx| {
      var packet := rx[i..i + PACKET_SIZE];
      FrameTest(packet);
      assert packet[0] == rx[i] && packet[1] == rx[i + 1] && packet[25] == rx[i + 25];
      InPacket(rx, i, 2, 25);
      InPacket(rx, i, 3, 24);
      InPacket(rx, i, 2, 26);
    }
  }

  /** Every listed place causes exactly one callback, with the channels or the bytes found there. */
  lemma {:induction false} OneDeliveryEach(pass: Pass, rx: Message, offsets: seq<nat>)
    requires forall k :: 0 <= k < |offsets| ==> FoundAt(pass, rx, offsets[k])
    ensures |DeliveriesAt(rx, offsets)| == |offsets|
    ensures forall k :: 0 <= k < |offsets| ==>
              offsets[k] + 26 <= |rx| && DeliveriesAt(rx, offsets)[k] == Call(pass, rx, offsets[k])
    decreases |offsets|
  {
    hide FoundAt, DeliveriesFrom, Call;
    if offsets != [] {
      var k := |offsets| - 1;
      OneDeliveryEach(pass, rx, offsets[..k]);
      PacketBytes(pass, rx, offsets[k]);
    }
  }

  lemma PlacesExact(pass: Pass, rx: Message)
    ensures var places := Offsets(pass, rx, |rx|);
      Ascending(places) && (forall i: nat :: i in places <==> Starts(pass, rx, i))
      && forall k :: 0 <= k < |places| ==> FoundAt(pass, rx, places[k])
  {
    var places := Offsets(pass, rx, |rx|);
    OffsetsExact(pass, rx, |rx|);
    hide *;
    forall k | 0 <= k < |places|
      ensures FoundAt(pass, rx, places[k])
    {
      assert places[k] in places;
    }
    forall i: nat
      ensures i in places <==> Starts(pass, rx, i)
    {
      PacketBytes(pass, rx, i);
    }
  }

  lemma PassExact(pass: Pass, rx: Message)
    ensures Called(pass, rx, DeliveriesAt(rx, Offsets(pass, rx, |rx|)), Offsets(pass, rx, |rx|))
  {
    PlacesExact(pass, rx);
    OneDeliveryEach(pass, rx, Offsets(pass, rx, |rx|));
    hide Offsets, DeliveriesAt, Starts, FoundAt, Call, Ascending;
  }

  /** What a scan delivers is exactly that. */
  lemma ScanExact(rx: Message) returns (frames: seq<nat>, modes: seq<nat>)
    ensures Scanned(rx, ScanDeliveries(rx), frames, modes)
  {
    frames, modes := Offsets(Frames, rx, |rx|), Offsets(Modes, rx, |rx|);
    PassExact(Frames, rx);
    PassExact(Modes, rx);
    var (a, b) := (DeliveriesAt(rx, frames), DeliveriesAt(rx, modes));
    assert |a| == |frames| && |b| == |modes|;
    hide DeliveriesAt, Offsets;
    assert (a + b)[..|frames|] == a && (a + b)[|frames|..] == b;
  }

  /** The class's own buffers; `received` and `written` log the callbacks and what was handed to the port. */
  class Crsf {
    const inBuffer: array<bv8>
    const crsfData: array<bv8>
    const channels: array<Channel>
    const uartBuffer: array<bv8>
    const transferBackData: array<bv8>
    var received: seq<Delivery>
    var written: seq<Message>

    ghost predicate Valid() {
      && inBuffer.Length == PACKET_SIZE && crsfData.Length == PACKET_SIZE && channels.Length == 16
      && uartBuffer.Length == UART_BUFFER && transferBackData.Length == RETURN_INFO
      && inBuffer != crsfData && inBuffer != uartBuffer && inBuffer != transferBackData
      && crsfData != uartBuffer && crsfData != transferBackData && uartBuffer != transferBackData
    }

    constructor ()
      ensures Valid() && received == [] && written == []
    {
      inBuffer := new bv8[PACKET_SIZE];
      crsfData := new bv8[PACKET_SIZE];
      channels := new Channel[16];
      uartBuffer := new bv8[UART_BUFFER];
      transferBackData := new bv8[RETURN_INFO];
      received, written := [], [];
    }

    method DecodeFirstEight()
      requires Valid()
      modifies channels
      ensures channels[..8] == UnpackGroup(crsfData[3..14])
    {
      hide Field0, Field1, Field2, Field3, Field4, Field5, Field6, Field7, UnpackGroup;
      channels[0] := Field0(crsfData[3], crsfData[4]);
      channels[1] := Field1(crsfData[4], crsfData[5]);
      channels[2] := Field2(crsfData[5], crsfData[6], crsfData[7]);
      channels[3] := Field3(crsfData[7], crsfData[8]);
      channels[4] := Field4(crsfData[8], crsfData[9]);
      channels[5] := Field5(crsfData[9], crsfData[10], crsfData[11]);
      channels[6] := Field6(crsfData[11], crsfData[12]);
      channels[7] := Field7(crsfData[12], crsfData[13]);
      GroupFields(crsfData[3..14], channels[..8]);
    }

    method DecodeLastEight()
      requires Valid()
      modifies channels
      ensures channels[..8] == old(channels[..8]) && channels[8..] == UnpackGroup(crsfData[14..25])
    {
      hide Field0, Field1, Field2, Field3, Field4, Field5, Field6, Field7, UnpackGroup;
      channels[8] := Field0(crsfData[14], crsfData[15]);
      channels[9] := Field1(crsfData[15], crsfData[16]);
      channels[10] := Field2(crsfData[16], crsfData[17], crsfData[18]);
      channels[11] := Field3(crsfData[18], crsfData[19]);
      channels[12] := Field4(crsfData[19], crsfData[20]);
      channels[13] := Field5(crsfData[20], crsfData[21], crsfData[22]);
      channels[14] := Field6(crsfData[22], crsfData[23]);
      channels[15] := Field7(crsfData[23], crsfData[24]);
      GroupFields(crsfData[14..25], channels[8..]);
    }

    /** Decodes the sixteen channels in place and hands them to the data callback. */
    method UpdateChannels()
      requires Valid()
      modifies channels, this`received
      ensures channels[..] == if crsfData[1] == FRAME_LENGTH then Unpack(crsfData[3..25]) else old(channels[..])
      ensures received == old(received) + [Channels16(channels[..])]
    {
      hide UnpackGroup;
      if crsfData[1] == FRAME_LENGTH {
        DecodeFirstEight();
        DecodeLastEight();
        assert crsfData[3..25][..11] == crsfData[3..14] && crsfData[3..25][11..] == crsfData[14..25];
        assert channels[..] == channels[..8] + channels[8..];
      }
      received := received + [Channels16(channels[..])];
    }

    /**
     Checks one packet of `len` bytes at input[at]. The length byte of a frame must keep the copy
     inside the 26-byte buffer; the scanner passes only 24.
     */
    method ReadPacket(input: array<bv8>, at: nat, len: nat)
      requires Valid() && input != inBuffer && input != crsfData
      requires PACKET_SIZE <= len ==> at + PACKET_SIZE <= input.Length
      requires PACKET_SIZE <= len && input[at] == FLIGHT_CONTROLLER ==> input[at + 1] <= FRAME_LENGTH
      modifies inBuffer, crsfData, channels, this`received
      ensures received == old(received) +
                          if len < PACKET_SIZE then [] else PacketDeliveries(input[at..at + PACKET_SIZE])
      ensures received == old(received) || received[|received| - 1].Mode?
              || channels[..] == received[|received| - 1].channels
    {
      if len < PACKET_SIZE {
        return;
      }
      ghost var packet := input[at..at + PACKET_SIZE];
      assert packet[0] == input[at] && packet[1] == input[at + 1];
      hide PacketDeliveries, Crc8.Crc8, Unpack;
      if input[at] == CUSTOMER_CMD && input[at + 1] == REV_DATA {
        received := received + [Mode(input[at + 2..at + PACKET_SIZE])];
        assert packet[2..] == input[at + 2..at + PACKET_SIZE];
        ModeDelivered(packet);
      } else if input[at] == FLIGHT_CONTROLLER {
        assert packet[2..25] == input[at + 2..at + 25] && packet[3..24] == input[at + 3..at + 24];
        FrameDelivered(packet);
        ReadFrame(input, at);
      } else {
        OtherIgnored(packet);
      }
    }

    /** The rest of ReadPacket, for a packet that carries the flight controller's address. */
    method ReadFrame(input: array<bv8>, at: nat)
      requires Valid() && input != inBuffer && input != crsfData
      requires at + PACKET_SIZE <= input.Length
      requires input[at] == FLIGHT_CONTROLLER && input[at + 1] <= FRAME_LENGTH
      modifies inBuffer, crsfData, channels, this`received
      ensures
        if input[at + 1] == FRAME_LENGTH && Crc8.Crc8(input[at + 2..at + 25]) == input[at + 25] then
          && channels[..] == Unpack(input[at + 3..at + 24] + [input[at + 25]])
          && received == old(received) + [Channels16(channels[..])]
        else
          received == old(received)
    {
      hide Crc8.Crc8, Unpack;
      ghost var region := input[at + 2..at + 25];
      var frameLength, index := CopyFrame(input, at);
      if index == frameLength + 1 {
        inBuffer[index] := input[at + 25];
        var crc := 0;
        if inBuffer[1] < 25 {
          crc := Crc8.CrsfCrc8(inBuffer, 2, frameLength - 1);
        }
        if frameLength == 24 {
          assert inBuffer[2..25] == region;
          assert crc == Crc8.Crc8(region) && inBuffer[25] == input[at + 25];
        }
        inBuffer[24] := crc;
        assert inBuffer[0] == input[at + 0] && inBuffer[1] == input[at + 1];
        if inBuffer[1] == FRAME_LENGTH && inBuffer[0] == FLIGHT_CONTROLLER {
          if crc == inBuffer[25] {
            forall k | 0 <= k < PACKET_SIZE {
              crsfData[k] := inBuffer[k];
            }
            assert forall k :: 3 <= k < 24 ==> crsfData[k] == input[at + k];
            assert crsfData[3..25] == input[at + 3..at + 24] + [input[at + 25]];
            UpdateChannels();
          }
        }
      }
      assert input[at + 2..at + 25] == region;
    }

    /** Address, length, and as many bytes as the length says; `index` is where the copy stopped. */
    method CopyFrame(input: array<bv8>, at: nat) returns (frameLength: nat, index: nat)
      requires Valid() && input != inBuffer
      requires at + PACKET_SIZE <= input.Length && input[at + 1] <= FRAME_LENGTH
      modifies inBuffer
      ensures frameLength <= 24 && (frameLength == 24 <==> input[at + 1] == FRAME_LENGTH)
      ensures index == if frameLength < 1 then 2 else frameLength + 1
      ensures inBuffer[1] < 25
      ensures forall k :: 0 <= k < index ==> inBuffer[k] == input[at + k]
    {
      inBuffer[0] := input[at];
      inBuffer[1] := input[at + 1];
      LengthAsNat(input[at + 1]);
      frameLength := input[at + 1] as nat;
      index := 2;
      while index < frameLength + 1
        invariant 2 <= index && (index == 2 || index <= frameLength + 1)
        invariant forall k :: 0 <= k < index ==> inBuffer[k] == input[at + k]
      {
        inBuffer[index] := input[at + index];
        index := index + 1;
      }
    }

    /** One wake-up of the receive thread: `rx` is what the serial port returned, empty if it failed. */
    method ReceiveOnce(rx: Message) returns (ghost frames: seq<nat>, ghost modes: seq<nat>)
      requires Valid() && |rx| <= UART_BUFFER
      modifies inBuffer, crsfData, channels, uartBuffer, this`received
      ensures received == old(received) + ScanDeliveries(rx)
      ensures Scanned(rx, ScanDeliveries(rx), frames, modes)
    {
      frames, modes := ScanExact(rx);
      hide FoundAt, DeliveriesFrom, Offsets, DeliveriesAt, PacketDeliveries, Scanned;
      forall k | 0 <= k < UART_BUFFER {
        uartBuffer[k] := if k < |rx| then rx[k] else 0;
      }
      var count := 0;
      if |rx| >= PACKET_SIZE { count := |rx| - PACKET_SIZE + 1; }
      NoneAtStart(Frames, rx);
      for i := 0 to count
        invariant forall k :: 0 <= k < |rx| ==> uartBuffer[k] == rx[k]
        invariant received == old(received) + DeliveriesAt(rx, Offsets(Frames, rx, i))
      {
        assert rx[i..i + PACKET_SIZE] == uartBuffer[i..i + PACKET_SIZE];
        NextOffset(Frames, rx, i);
        if uartBuffer[i] == FLIGHT_CONTROLLER && uartBuffer[i + 1] == FRAME_LENGTH {
          ReadPacket(uartBuffer, i, PACKET_SIZE);
        }
      }
      NoneAtEnd(Frames, rx, count);
      NoneAtStart(Modes, rx);
      for i := 0 to count
        invariant forall k :: 0 <= k < |rx| ==> uartBuffer[k] == rx[k]
        invariant received == old(received) + DeliveriesAt(rx, Offsets(Frames, rx, |rx|))
                                            + DeliveriesAt(rx, Offsets(Modes, rx, i))
      {
        assert rx[i..i + PACKET_SIZE] == uartBuffer[i..i + PACKET_SIZE];
        NextOffset(Modes, rx, i);
        if uartBuffer[i] == CUSTOMER_CMD && uartBuffer[i + 1] == REV_DATA {
          ReadPacket(uartBuffer, i, PACKET_SIZE);
        }
      }
      NoneAtEnd(Modes, rx, count);
    }

    /** Hands bytes to the serial port; what a non-blocking write returns is up to the port. */
    method UartWrite(bytes: Message) returns (result: int)
      modifies this`written
      ensures written == old(written) + [bytes]
    {
      written := written + [bytes];
      result := *;
    }

    /** Sends `len` payload bytes under a status id; -1 and nothing sent when there are more than four. */
    method DataTransferBack(payload: array<bv8>, at: nat, id: bv8, len: nat) returns (result: int)
      requires len <= MAX_PAYLOAD ==> at + len <= payload.Length
      modifies this`written
      ensures len > MAX_PAYLOAD ==> result == -1 && written == old(written)
      ensures len <= MAX_PAYLOAD ==> written == old(written) + [StatusFrame(id, payload[at..at + len])]
    {
      hide Crc16.Crc16, Crc16.HighByte, Crc16.LowByte;
      if len > MAX_PAYLOAD {
        return -1;
      }
      var data := new bv8[MAX_PAYLOAD + 6](_ => 0);
      FillStatus(data, payload, at, id, len);
      ghost var body := [id] + payload[at..at + len];
      assert data[2..2 + (len + 1)] == body;
      var crc := Crc16.CalCheckCrc(data, 2, len + 1);
      data[len + 3] := Crc16.HighByte(crc);
      data[len + 4] := Crc16.LowByte(crc);
      assert data[2..len + 3] == body;
      assert data[..len + 5] == [data[0], data[1]] + data[2..len + 3] + [data[len + 3], data[len + 4]];
      result := UartWrite(data[..len + 5]);
    }

    method FillStatus(data: array<bv8>, payload: array<bv8>, at: nat, id: bv8, len: nat)
      requires data != payload && data.Length == MAX_PAYLOAD + 6 && len <= MAX_PAYLOAD && at + len <= payload.Length
      modifies data
      ensures data[0] == CUSTOMER_CMD && data[1] == SET_STATUS && data[2..len + 3] == [id] + payload[at..at + len]
    {
      data[0] := CUSTOMER_CMD;
      data[1] := SET_STATUS;
      data[2] := id;
      for k := 0 to len
        invariant data[0] == CUSTOMER_CMD && data[1] == SET_STATUS && data[2] == id
        invariant data[3..3 + k] == payload[at..at + k]
      {
        data[3 + k] := payload[at + k];
        assert data[3..3 + (k + 1)] == data[3..3 + k] + [data[3 + k]];
      }
      assert data[2..len + 3] == [data[2]] + data[3..3 + len];
    }

    /** Stores status bytes; a range beyond the 32 bytes is refused as a whole. */
    method SetTransferBackData(data: array<bv8>, offset: nat, len: nat)
      requires Valid() && data != transferBackData && len <= data.Length
      modifies transferBackData
      ensures transferBackData[..] ==
                if len + offset > RETURN_INFO then old(transferBackData[..])
                else old(transferBackData[..offset]) + data[..len] + old(transferBackData[offset + len..])
    {
      if len + offset <= RETURN_INFO {
        forall k | 0 <= k < len {
          transferBackData[offset + k] := data[k];
        }
      }
    }

    /** All eight status blocks, ids 1 to 8. */
    method UpgradeTransferBackData()
      requires Valid()
      modifies this`written
      ensures written == old(written) + StatusFrames(transferBackData[..], [1, 2, 3, 4, 5, 6, 7, 8])
    {
      hide StatusFrame, IdByte, StatusFrames;
      ghost var status, ids := transferBackData[..], [];
      var result;
      NoStatusFrames(status);
      for i := 1 to 9
        invariant ids == [1, 2, 3, 4, 5, 6, 7, 8][..i - 1]
        invariant written == old(written) + StatusFrames(status, ids)
      {
        result := DataTransferBack(transferBackData, (i - 1) * 4, IdByte(i), 4);
        assert transferBackData[(i - 1) * 4..(i - 1) * 4 + 4] == Block(status, i);
        StatusFramesPush(status, ids, i);
        ids := ids + [i];
      }
      assert ids == [1, 2, 3, 4, 5, 6, 7, 8] && transferBackData[..] == status;
    }

    /** One round of the running transmit thread, which sends blocks 3, 1 and 2 only. */
    method TransmitRound()
      requires Valid()
      modifies this`written
      ensures written == old(written) + StatusFrames(transferBackData[..], [3, 1, 2])
    {
      hide StatusFrame, IdByte, StatusFrames;
      ghost var status := transferBackData[..];
      NoStatusFrames(status);
      var result := DataTransferBack(transferBackData, 8, IdByte(3), 4);
      StatusFramesPush(status, [], 3);
      result := DataTransferBack(transferBackData, 0, IdByte(1), 4);
      StatusFramesPush(status, [3], 1);
      result := DataTransferBack(transferBackData, 4, IdByte(2), 4);
      StatusFramesPush(status, [3, 1], 2);
      assert [] + [3] == [3] && [3] + [1] == [3, 1] && [3, 1] + [2] == [3, 1, 2];
      assert transferBackData[8..12] == Block(status, 3) && transferBackData[0..4] == Block(status, 1);
      assert transferBackData[4..8] == Block(status, 2);
    }
  }

  lemma LengthAsNat(b: bv8)
    requires b <= FRAME_LENGTH
    ensures b as nat <= 24 && b < 25 && (b == FRAME_LENGTH <==> b as nat == 24)
  {
  }

  lemma FrameTest(packet: Message)
    requires |packet| == PACKET_SIZE
    ensures IsChannelFrame(packet) <==>
            && packet[0] == FLIGHT_CONTROLLER && packet[1] == FRAME_LENGTH
            && Crc8.Crc8(packet[2..25]) == packet[25]
  {
    hide Crc8.Crc8;
    assert packet[2..][..23] == packet[2..25];
  }

  lemma ModeDelivered(packet: Message)
    requires |packet| == PACKET_SIZE && IsModeCommand(packet)
    ensures PacketDeliveries(packet) == [Mode(packet[2..])]
  {
  }

  lemma FrameDelivered(packet: Message)
    requires |packet| == PACKET_SIZE && packet[0] == FLIGHT_CONTROLLER
    ensures PacketDeliveries(packet)
            == if packet[1] == FRAME_LENGTH && Crc8.Crc8(packet[2..25]) == packet[25]
               then [Channels16(Unpack(packet[3..24] + [packet[25]]))] else []
  {
    hide Crc8.Crc8, Unpack;
    FrameTest(packet);
  }

  lemma OtherIgnored(packet: Message)
    requires |packet| == PACKET_SIZE && packet[0] != FLIGHT_CONTROLLER && !IsModeCommand(packet)
    ensures PacketDeliveries(packet) == []
  {
  }

  /** What the guard of a pass lets through to ReadPacket at position i. */
  predicate Guard(pass: Pass, rx: Message, i: nat)
    requires i + PACKET_SIZE <= |rx|
  {
    match pass
    case Frames => rx[i] == FLIGHT_CONTROLLER && rx[i + 1] == FRAME_LENGTH
    case Modes => rx[i] == CUSTOMER_CMD && rx[i + 1] == REV_DATA
  }

  lemma NoneAtStart(pass: Pass, rx: Message)
    ensures DeliveriesAt(rx, Offsets(pass, rx, 0)) == []
  {
  }

  lemma NextOffset(pass: Pass, rx: Message, i: nat)
    requires i + PACKET_SIZE <= |rx|
    ensures DeliveriesAt(rx, Offsets(pass, rx, i + 1)) == DeliveriesAt(rx, Offsets(pass, rx, i)) +
              if Guard(pass, rx, i) then PacketDeliveries(rx[i..i + PACKET_SIZE]) else []
  {
    var packet := rx[i..i + PACKET_SIZE];
    assert packet[0] == rx[i] && packet[1] == rx[i + 1];
    FrameTest(packet);
    hide IsChannelFrame;
    var before := Offsets(pass, rx, i);
    if FoundAt(pass, rx, i) {
      assert (before + [i])[..|before|] == before;
    } else {
      assert Offsets(pass, rx, i + 1) == before;
      assert Guard(pass, rx, i) ==> PacketDeliveries(packet) == [];
    }
  }

  /** No packet starts where fewer than 26 bytes remain. */
  lemma {:induction false} NoneAtEnd(pass: Pass, rx: Message, count: nat)
    requires count == if |rx| < PACKET_SIZE then 0 else |rx| - PACKET_SIZE + 1
    ensures Offsets(pass, rx, |rx|) == Offsets(pass, rx, count)
  {
    for n := count to |rx|
      invariant Offsets(pass, rx, n) == Offsets(pass, rx, count)
    {
    }
  }

  // ----- Telemetry frames -----

  function StatusFrame(id: bv8, payload: Message): Message {
    var crc := Crc16.Crc16([id] + payload);
    [CUSTOMER_CMD, SET_STATUS] + ([id] + payload) + [Crc16.HighByte(crc), Crc16.LowByte(crc)]
  }

  lemma Regrouped<T>(a: T, b: T, c: T, s: seq<T>, t: seq<T>)
    ensures [a, b] + ([c] + s) + t == [a, b, c] + s + t
  {
  }

  /** The frame byte by byte: two header bytes, the id, the payload, and the checksum of both, high byte first. */
  lemma StatusFrameBytes(id: bv8, payload: Message)
    ensures var crc := Crc16.Crc16([id] + payload);
      StatusFrame(id, payload) == [0x31, 0x04, id] + payload + [Crc16.HighByte(crc), Crc16.LowByte(crc)]
  {
    hide Crc16.Crc16, Crc16.HighByte, Crc16.LowByte;
    var crc := Crc16.Crc16([id] + payload);
    Regrouped(CUSTOMER_CMD, SET_STATUS, id, payload, [Crc16.HighByte(crc), Crc16.LowByte(crc)]);
  }

  function IdByte(id: nat): bv8
    requires id <= 8
  {
    id as bv8
  }

  /** The four status bytes that travel under an id. */
  function Block(status: Message, id: nat): Message
    requires |status| == RETURN_INFO && 1 <= id <= 8
  {
    status[(id - 1) * 4..(id - 1) * 4 + 4]
  }

  function StatusFrames(status: Message, ids: seq<nat>): seq<Message>
    requires |status| == RETURN_INFO && forall k :: 0 <= k < |ids| ==> 1 <= ids[k] <= 8
  {
    if ids == [] then []
    else
      var k := |ids| - 1;
      StatusFrames(status, ids[..k]) + [StatusFrame(IdByte(ids[k]), Block(status, ids[k]))]
  }

  lemma NoStatusFrames(status: Message)
    requires |status| == RETURN_INFO
    ensures StatusFrames(status, []) == []
  {
  }

  lemma StatusFramesPush(status: Message, ids: seq<nat>, id: nat)
    requires |status| == RETURN_INFO && 1 <= id <= 8
    requires forall k :: 0 <= k < |ids| ==> 1 <= ids[k] <= 8
    ensures StatusFrames(status, ids + [id]) == StatusFrames(status, ids) + [StatusFrame(IdByte(id), Block(status, id))]
  {
    hide StatusFrame, IdByte, Block;
    assert (ids + [id])[..|ids|] == ids;
  }

  // ----- The receiving end of the telemetry -----

  /** A remote that checks a frame and stores its four bytes where the id says. */
  function Apply(store: Message, frame: Message): (store': Message)
    requires |store| == RETURN_INFO
    ensures |store'| == RETURN_INFO
  {
    if |frame| == 9 && frame[0] == CUSTOMER_CMD && frame[1] == SET_STATUS && Crc16.Passes(frame[2..])
       && 1 <= frame[2] <= 8 then
      IdRange(frame[2]);
      var k := (frame[2] as nat - 1) * 4;
      store[..k] + frame[3..7] + store[k + 4..]
    else store
  }

  lemma IdRange(id: bv8)
    requires 1 <= id <= 8
    ensures 1 <= id as nat <= 8
  {
  }

  lemma IdRoundTrip(id: nat)
    requires 1 <= id <= 8
    ensures 1 <= IdByte(id) <= 8 && IdByte(id) as nat == id
  {
  }

  function ApplyAll(store: Message, frames: seq<Message>): (store': Message)
    requires |store| == RETURN_INFO
    ensures |store'| == RETURN_INFO
  {
    if frames == [] then store
    else Apply(ApplyAll(store, frames[..|frames| - 1]), frames[|frames| - 1])
  }

  /** Every frame the device builds passes its checksum: the residue over id, payload and checksum is zero. */
  lemma StatusFramePasses(id: bv8, payload: Message)
    ensures Crc16.Passes(StatusFrame(id, payload)[2..])
    ensures Crc16.Crc16(StatusFrame(id, payload)[2..]) == 0
  {
    hide Crc16.Crc16, Crc16.HighByte, Crc16.LowByte;
    var region := StatusFrame(id, payload)[2..];
    assert region[..|region| - 2] == [id] + payload;
    Crc16.PassesMeansZeroResidue(region);
  }

  lemma ApplyStatusFrame(store: Message, status: Message, id: nat)
    requires |store| == |status| == RETURN_INFO && 1 <= id <= 8
    ensures Apply(store, StatusFrame(IdByte(id), Block(status, id)))
            == store[..(id - 1) * 4] + Block(status, id) + store[(id - 1) * 4 + 4..]
  {
    hide Crc16.Passes, Crc16.Crc16, Crc16.HighByte, Crc16.LowByte, IdByte;
    StatusFramePasses(IdByte(id), Block(status, id));
    IdRoundTrip(id);
    var frame := StatusFrame(IdByte(id), Block(status, id));
    assert frame[3..7] == Block(status, id);
  }

  /** What arrives, in any order and with any repetition: exactly the blocks whose ids were sent. */
  lemma {:induction false} BlocksArrive(store: Message, status: Message, ids: seq<nat>, i: nat)
    requires |store| == |status| == RETURN_INFO && i < RETURN_INFO
    requires forall k :: 0 <= k < |ids| ==> 1 <= ids[k] <= 8
    ensures ApplyAll(store, StatusFrames(status, ids))[i] == if i / 4 + 1 in ids then status[i] else store[i]
    decreases |ids|
  {
    hide Apply, StatusFrame, IdByte;
    if ids != [] {
      var k := |ids| - 1;
      BlocksArrive(store, status, ids[..k], i);
      var frames := StatusFrames(status, ids);
      assert frames[..|frames| - 1] == StatusFrames(status, ids[..k]);
      ApplyStatusFrame(ApplyAll(store, StatusFrames(status, ids[..k])), status, ids[k]);
      assert ids == ids[..k] + [ids[k]];
    }
  }

  /** The eight frames of a full upgrade rebuild the whole status array at the remote. */
  lemma UpgradeRebuilds(store: Message, status: Message)
    requires |store| == |status| == RETURN_INFO
    ensures ApplyAll(store, StatusFrames(status, [1, 2, 3, 4, 5, 6, 7, 8])) == status
  {
    hide ApplyAll, StatusFrames;
    var ids := [1, 2, 3, 4, 5, 6, 7, 8];
    forall i | 0 <= i < RETURN_INFO
      ensures ApplyAll(store, StatusFrames(status, ids))[i] == status[i]
    {
      BlocksArrive(store, status, ids, i);
      assert ids[i / 4] == i / 4 + 1;
    }
  }

  /** The transmit thread keeps only the first twelve status bytes of the remote up to date. */
  lemma RoundRefreshesTwelve(store: Message, status: Message)
    requires |store| == |status| == RETURN_INFO
    ensures ApplyAll(store, StatusFrames(status, [3, 1, 2])) == status[..12] + store[12..]
  {
    hide ApplyAll, StatusFrames, StatusFrame;
    var ids := [3, 1, 2];
    var r := ApplyAll(store, StatusFrames(status, ids));
    forall i | 0 <= i < RETURN_INFO
      ensures r[i] == if i < 12 then status[i] else store[i]
    {
      BlocksArrive(store, status, ids, i);
      FirstThree(i);
    }
  }

  lemma FirstThree(i: nat)
    ensures i / 4 + 1 in [3, 1, 2] <==> i < 12
  {
  }

  // ----- Channel frames end to end -----

  /** The frame a transmitter sends: address, length, type, packed channels, checksum. */
  function ChannelFrame(kind: bv8, ch: seq<Channel>): (packet: Message)
    requires |ch| == 16
    ensures |packet| == PACKET_SIZE
  {
    var body := [kind] + Pack(ch);
    [FLIGHT_CONTROLLER, FRAME_LENGTH] + body + [Crc8.Crc8(body)]
  }

  /** The channels the callback receives when the frame arrives intact. */
  function DeliveredChannels(kind: bv8, ch: seq<Channel>): (d: seq<Channel>)
    requires |ch| == 16
    ensures |d| == 16
  {
    Unpack(DecodedPayload(ChannelFrame(kind, ch)))
  }

  lemma FrameIsFrame(kind: bv8, ch: seq<Channel>)
    requires |ch| == 16
    ensures IsChannelFrame(ChannelFrame(kind, ch))
  {
    hide Crc8.Crc8, Pack;
    FrameTest(ChannelFrame(kind, ch));
    assert ChannelFrame(kind, ch)[2..25] == [kind] + Pack(ch);
  }

  lemma FrameAccepted(kind: bv8, ch: seq<Channel>)
    requires |ch| == 16
    ensures PacketDeliveries(ChannelFrame(kind, ch)) == [Channels16(DeliveredChannels(kind, ch))]
  {
    hide Crc8.Crc8, Pack, Unpack;
    FrameIsFrame(kind, ch);
  }

  /** A buffer that holds a sent frame, wherever in it, causes the callback with that frame's channels. */
  lemma SentFrameHeard(rx: Message, at: nat, kind: bv8, ch: seq<Channel>)
    requires |ch| == 16 && at + PACKET_SIZE <= |rx| && rx[at..at + PACKET_SIZE] == ChannelFrame(kind, ch)
    ensures Channels16(DeliveredChannels(kind, ch)) in ScanDeliveries(rx)
  {
    hide Crc8.Crc8, Pack, Unpack, Offsets, DeliveriesAt, ChannelFrame;
    var packet := ChannelFrame(kind, ch);
    var frames, modes := ScanExact(rx);
    FrameIsFrame(kind, ch);
    FrameTest(packet);
    assert packet[0] == rx[at] && packet[1] == rx[at + 1] && packet[25] == rx[at + 25];
    InPacket(rx, at, 2, 25);
    InPacket(rx, at, 3, 24);
    assert Starts(Frames, rx, at);
    var k :| 0 <= k < |frames| && frames[k] == at;
    var calls := ScanDeliveries(rx);
    assert calls[k] == calls[..|frames|][k];
  }

  /** Every packet the receiver accepts is the frame of exactly one type and one set of channels. */
  lemma AcceptedIsSent(packet: Message, kind: bv8, ch: seq<Channel>)
    requires |packet| == PACKET_SIZE && Channels(ch)
    ensures IsChannelFrame(packet) && kind == packet[2] && ch == Unpack(packet[3..25])
            <==> packet == ChannelFrame(kind, ch)
  {
    hide Crc8.Crc8, Pack, Unpack;
    FrameTest(packet);
    PackUnpack(packet[3..25]);
    UnpackPack(ch);
    assert packet[2..25] == [packet[2]] + packet[3..25];
    assert packet == packet[..2] + packet[2..25] + [packet[25]];
    var body := [kind] + Pack(ch);
    if packet == ChannelFrame(kind, ch) {
      assert packet[2..25] == body && packet[3..25] == Pack(ch);
    }
  }

  /** The payload that is decoded is the sent one with its last byte replaced by the checksum. */
  lemma PayloadAsDecoded(kind: bv8, ch: seq<Channel>)
    requires |ch| == 16
    ensures DecodedPayload(ChannelFrame(kind, ch)) == Pack(ch)[..21] + [Crc8.Crc8([kind] + Pack(ch))]
  {
    hide Crc8.Crc8, Pack;
  }

  /** Channels 1 to 15 arrive as sent, whatever the frame. */
  lemma FifteenChannelsSurvive(kind: bv8, ch: seq<Channel>, c: nat)
    requires Channels(ch) && c < 15
    ensures DeliveredChannels(kind, ch)[c] == ch[c]
  {
    hide Crc8.Crc8, Pack, Unpack, ChannelBit, ByteBit, ChannelFrame, DecodedPayload;
    PayloadAsDecoded(kind, ch);
    var p, d := DecodedPayload(ChannelFrame(kind, ch)), DeliveredChannels(kind, ch);
    UnpackInRange(p, c);
    forall j | 0 <= j < 11
      ensures ChannelBit(d[c], j) == ChannelBit(ch[c], j)
    {
      var k := 11 * c + j;
      UnpackSlices(p, c, j);
      PackSlices(ch, k);
      assert k < 168 && k / 11 == c && k % 11 == j;
      assert p[k / 8] == Pack(ch)[k / 8];
    }
    ChannelDetermined(d[c], ch[c]);
  }

  /** Channel 16 arrives with its three low bits intact and the checksum in place of the eight high ones. */
  lemma SixteenthChannel(kind: bv8, ch: seq<Channel>, j: nat)
    requires Channels(ch) && j < 11
    ensures ChannelBit(DeliveredChannels(kind, ch)[15], j)
            == if j < 3 then ChannelBit(ch[15], j) else ByteBit(Crc8.Crc8([kind] + Pack(ch)), j - 3)
  {
    hide Crc8.Crc8, Pack, Unpack, ChannelBit, ByteBit, ChannelFrame, DecodedPayload;
    PayloadAsDecoded(kind, ch);
    var p, k := DecodedPayload(ChannelFrame(kind, ch)), 165 + j;
    UnpackSlices(p, 15, j);
    if j < 3 {
      PackSlices(ch, k);
      assert k / 8 == 20 && k / 11 == 15 && k % 11 == j;
      assert p[20] == Pack(ch)[20];
    } else {
      assert k / 8 == 21 && k % 8 == j - 3;
    }
  }

  /** All sixteen channels arrive exactly when the frame's checksum happens to equal its last payload byte. */
  lemma AllChannelsSurviveIff(kind: bv8, ch: seq<Channel>)
    requires Channels(ch)
    ensures DeliveredChannels(kind, ch) == ch <==> Crc8.Crc8([kind] + Pack(ch)) == Pack(ch)[21]
  {
    hide Crc8.Crc8, Pack, Unpack, ChannelFrame, DecodedPayload;
    PayloadAsDecoded(kind, ch);
    var p := DecodedPayload(ChannelFrame(kind, ch));
    UnpackPack(ch);
    PackUnpack(p);
    if Crc8.Crc8([kind] + Pack(ch)) == Pack(ch)[21] {
      assert p == Pack(ch);
    }
    if Unpack(p) == ch {
      assert p[21] == Pack(ch)[21];
    }
  }

  /** With all sticks at zero the sixteenth channel does arrive wrong. */
  lemma ZeroChannelsArriveWrong(kind: bv8, ch: seq<Channel>)
    requires kind != 0 && ch == seq(16, _ => 0)
    ensures Channels(ch) && DeliveredChannels(kind, ch) != ch
  {
    PackZeros(ch);
    hide *;
    assert Pack(ch)[21] == 0;
    Crc8.CrcOfLoneByte(kind, 22);
    AllChannelsSurviveIff(kind, ch);
  }

  lemma PackZeros(ch: seq<Channel>)
    requires ch == seq(16, _ => 0)
    ensures Channels(ch) && Pack(ch) == seq(22, _ => 0)
  {
    forall i | 0 <= i < 22
      ensures Pack(ch)[i] == 0
    {
      assert forall k: nat :: k < 176 ==> !StreamBit(ch, k);
      hide StreamBit;
      assert Assemble(false, false, false, false, false, false, false, false) == 0;
    }
  }

  /**
   An accepted channel frame that is damaged behind its length byte, by an odd number of flipped
   bits or by a burst of at most eight, causes no callback at all.
   */
  lemma DamagedFrameDropped(packet: Message, e: Message)
    requires |packet| == PACKET_SIZE && IsChannelFrame(packet) && |e| == PACKET_SIZE - 2
    requires Parity(MessageBits(e)) || (BurstWithin(MessageBits(e), 8) && MessageBits(e) != Zeros(8 * |e|))
    ensures PacketDeliveries(packet[..2] + Flip(packet[2..], e)) == []
  {
    hide Crc8.Passes;
    var damaged := packet[..2] + Flip(packet[2..], e);
    if Parity(MessageBits(e)) {
      Crc8.OddFlipsCaught(packet[2..], e);
    } else {
      Crc8.BurstCaught(packet[2..], e);
    }
    assert damaged[2..] == Flip(packet[2..], e);
  }

  /** Two flipped bits are dropped too, unless they lie exactly 93 or 186 bits apart. */
  lemma DoubleFlipDroppedIff(packet: Message, e: Message, i: nat, j: nat)
    requires |packet| == PACKET_SIZE && IsChannelFrame(packet) && |e| == PACKET_SIZE - 2
    requires DoubleFlips.TwoSet(MessageBits(e), i, j)
    ensures PacketDeliveries(packet[..2] + Flip(packet[2..], e)) == [] <==> j - i != 93 && j - i != 186
  {
    hide Crc8.Passes, MessageBits, Unpack;
    var damaged := packet[..2] + Flip(packet[2..], e);
    DoubleFlips.DoubleFlipPassesIff(packet[2..], e, i, j);
    assert damaged[2..] == Flip(packet[2..], e);
  }
}
