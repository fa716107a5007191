/** The PLP packet header of lib/link.cc: packet type, sequence number, extended sequence numbers. */
module Packets {
  import opened Bytes

  // EPOC numbers run from 0 to MAX_SEQ (seqMask 0x7ff).
  const MAX_SEQ: nat := 0x7ff

  datatype Packet =
    | Data(number: nat, payload: seq<byte>)
    | Ack(number: nat)
    | NewLink(number: nat)
    | Disconnect
    | Unknown

  /** Byte i of a buffer; reading past its content finds `stale`, the byte left in memory. */
  function ByteAt(buff: seq<byte>, i: nat, stale: byte): byte {
    if i < |buff| then buff[i] else stale
  }

  function Discard(buff: seq<byte>, n: nat): seq<byte> {
    if n <= |buff| then buff[n..] else []
  }

  /** How `receive` reads a frame. */
  function Decode(buff: seq<byte>, stale: byte): Packet {
    var first := ByteAt(buff, 0, stale);
    var low := first % 16;
    var number := if low >= 8 then ByteAt(buff, 1, stale) * 8 + low % 8 else low;
    var payload := Discard(buff, if low >= 8 then 2 else 1);
    match first / 16
    case 3 => Data(number, payload)
    case 0 => Ack(number)
    case 2 => NewLink(number)
    case 1 => Disconnect
    case _ => Unknown
  }

  /** The data frame that `transmit` builds. */
  function DataFrame(number: nat, payload: seq<byte>): seq<byte>
    requires number <= MAX_SEQ
  {
    if number > 7 then [0x38 + number % 8, number / 8] + payload else [0x30 + number] + payload
  }

  /** The acknowledgement that `sendAck` builds; the number may be -1 before the first handshake. */
  function AckFrame(number: int): seq<byte>
    requires -1 <= number <= MAX_SEQ
  {
    if number > 7 then [8 + number % 8, number / 8] else [number % 256]
  }

  /** The request that `transmit` builds from an empty buffer; only the low byte of the sum is kept. */
  function RequestFrame(number: nat): seq<byte> {
    [(0x20 + number) % 256]
  }

  /**
   * The frames byte for byte: numbers up to 7 are in the first byte, larger ones have their low three bits there, and
   * the rest in a second byte.
   */
  lemma FrameBytes(number: nat, payload: seq<byte>)
    requires number <= 2047
    ensures number <= 7 ==> DataFrame(number, payload) == [0x30 + number] + payload && AckFrame(number) == [number]
    ensures number > 7 ==> && DataFrame(number, payload) == [0x38 + number % 8, number / 8] + payload
                           && AckFrame(number) == [8 + number % 8, number / 8]
    ensures RequestFrame(number) == [(32 + number) % 256]
  {
  }

  /** How a frame is read, whatever made it. */
  lemma FramesRead(number: nat, payload: seq<byte>, stale: byte)
    requires number <= 2047
    ensures number <= 7 ==> && Decode([0x30 + number] + payload, stale) == Data(number, payload)
                            && Decode([number] + payload, stale) == Ack(number)
                            && Decode([0x20 + number] + payload, stale) == NewLink(number)
    ensures var low, high := number % 8, number / 8;
            && Decode([0x38 + low, high] + payload, stale) == Data(number, payload)
            && Decode([0x08 + low, high] + payload, stale) == Ack(number)
            && Decode([0x28 + low, high] + payload, stale) == NewLink(number)
  {
    FirstByte(number % 8, 0);
    FirstByte(number % 8, 2);
    FirstByte(number % 8, 3);
    var low, high := number % 8, number / 8;
    if number <= 7 {
      assert ([0x30 + number] + payload)[1..] == payload;
    }
    assert ([0x38 + low, high] + payload)[2..] == payload;
    assert high * 8 + low == number;
  }

  lemma FirstByte(low: nat, kind: nat)
    requires low < 8
    ensures (16 * kind + low) / 16 == kind && (16 * kind + low) % 16 == low && low % 8 == low
    ensures (16 * kind + 8 + low) / 16 == kind && (16 * kind + 8 + low) % 16 == 8 + low && (8 + low) % 8 == low
  {
  }

  lemma DataFrameDecodes(number: nat, payload: seq<byte>, stale: byte)
    requires number <= MAX_SEQ
    ensures Decode(DataFrame(number, payload), stale) == Data(number, payload)
    ensures |DataFrame(number, payload)| <= |payload| + 2
  {
    var f := DataFrame(number, payload);
    if number > 7 {
      assert f[0] / 16 == 3 && f[0] % 16 == 8 + number % 8;
      assert f[2..] == payload;
    } else {
      assert f[0] / 16 == 3 && f[0] % 16 == number;
      assert f[1..] == payload;
    }
  }

  lemma AckFrameDecodes(number: nat, stale: byte)
    requires number <= MAX_SEQ
    ensures Decode(AckFrame(number), stale) == Ack(number)
  {
    InTwoParts(number);
    if number > 7 {
      assert AckFrame(number) == [8 + number % 8, number / 8];
    } else {
      assert AckFrame(number) == [number];
    }
    hide AckFrame;
  }

  /** A number in two bytes, and in one. */
  lemma InTwoParts(number: nat)
    ensures number / 8 * 8 + number % 8 == number && (8 + number % 8) % 8 == number % 8
    ensures (8 + number % 8) / 16 == 0 && (8 + number % 8) % 16 == 8 + number % 8
    ensures number <= 7 ==> number / 16 == 0 && number % 16 == number == number % 256
  {
  }

  /** Before any handshake the receive number is -1, and its acknowledgement is not one. */
  lemma NoAckBeforeHandshake(stale: byte)
    ensures Decode(AckFrame(-1), stale) == Unknown
  {
    assert AckFrame(-1) == [255];
  }
}
