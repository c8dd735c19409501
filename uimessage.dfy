/**
 * The UIMessage wire format: a fixed 16-byte packet laid out as struct
 * format '<BBBB8sBHB' -- start byte, device id, control word (acknowledge
 * bit and 7-bit function code), data length, eight data bytes, auxiliary
 * byte, little-endian checksum, end byte.
 */
module UIMessageCodec {
  import opened Wrappers
  import opened Bytes
  import Crc

  const PACKET_LENGTH := 16

  /** Start byte of a packet whose checksum is to be verified. */
  const SOM_CHECKSUM := 0xAA
  /** A start byte that is accepted but whose meaning is unknown. */
  const SOM_UNKNOWN := 0xAC
  /** Start byte of a packet without a checksum. */
  const SOM_NO_CHECKSUM := 0xAD
  const EOM := 0xCC

  /** A decoded packet; integer fields are Python integers and may be out of range until packed. */
  datatype UIMessage = UIMessage(
    deviceId: int,
    functionCode: int,
    data: seq<byte>,
    needChecksum: bool,
    needAck: bool,
    auxByte: int,
    checksum: int)

  /** A message built with the constructor's defaults: checksummed, no acknowledge, zero aux byte and checksum. */
  function NewMessage(deviceId: int, functionCode: int, data: seq<byte>): UIMessage {
    UIMessage(deviceId, functionCode, data, true, false, 0, 0)
  }

  datatype CodecError =
    | StructError          // a field does not fit its struct code, or the packet is not 16 bytes
    | BadStartOfMessage
    | BadEndOfMessage
    | BadDataLength

  /**
   * `(int(need_ack) << 7) | function_code` on unbounded integers: the OR sets
   * bit 7, which adds 128 exactly when bit 7 (in two's complement) was clear.
   */
  function ControlWord(needAck: bool, functionCode: int): int {
    if needAck && (functionCode / 128) % 2 == 0 then functionCode + 128 else functionCode
  }

  lemma ControlWordOfFunctionCode(needAck: bool, functionCode: int)
    requires 0 <= functionCode < 0x80
    ensures ControlWord(needAck, functionCode) == (if needAck then 0x80 else 0) + functionCode
  {
  }

  function StartByte(needChecksum: bool): byte {
    if needChecksum then SOM_CHECKSUM else SOM_NO_CHECKSUM
  }

  /** Whether every field of `m` except the checksum fits its struct code. */
  predicate HeaderFits(m: UIMessage) {
    IsByte(m.deviceId) && IsByte(ControlWord(m.needAck, m.functionCode)) &&
    |m.data| < 256 && IsByte(m.auxByte)
  }

  /** Bytes 1 to 12 of the packet: the part the checksum covers. */
  function Body(m: UIMessage): seq<byte>
    requires HeaderFits(m)
  {
    [m.deviceId, ControlWord(m.needAck, m.functionCode), |m.data|] + ZeroPad8(m.data) + [m.auxByte]
  }

  /** The inner `pack`: all fields of `m` with the given checksum, or the struct error. */
  function Pack(m: UIMessage, checksum: int): (r: Result<seq<byte>, CodecError>)
    ensures r.Ok? <==> HeaderFits(m) && 0 <= checksum <= 0xFFFF
    ensures r.Ok? ==> |r.value| == PACKET_LENGTH && r.value[1..13] == Body(m)
  {
    if HeaderFits(m) && 0 <= checksum <= 0xFFFF then
      var out := [StartByte(m.needChecksum)] + Body(m) + LittleEndian(checksum, 2) + [EOM];
      assert out[1..13] == Body(m);
      Ok(out)
    else
      Err(StructError)
  }

  /** Whether `serialize` succeeds: the fields fit, and so does the stored checksum, which is packed first in every case. */
  predicate Serializable(m: UIMessage) {
    HeaderFits(m) && 0 <= m.checksum <= 0xFFFF
  }

  /** The checksum field `serialize` writes. */
  function StampedChecksum(m: UIMessage): int
    requires HeaderFits(m)
  {
    if m.needChecksum then Crc.Crc16(Body(m)) else m.checksum
  }

  /**
   * `serialize`: pack with the stored checksum; when a checksum is needed,
   * pack again with the CRC of bytes 1 to 12 of that first packet.
   */
  function Serialize(m: UIMessage): (r: Result<seq<byte>, CodecError>)
    ensures r.Ok? <==> Serializable(m)
    ensures r.Ok? ==> |r.value| == PACKET_LENGTH
    ensures r.Ok? ==> r.value[0] == StartByte(m.needChecksum) && r.value[15] == EOM
    ensures r.Ok? ==> r.value[1] == m.deviceId && r.value[2] == ControlWord(m.needAck, m.functionCode)
    ensures r.Ok? ==> r.value[3] == |m.data| && r.value[4..12] == ZeroPad8(m.data) && r.value[12] == m.auxByte
    ensures r.Ok? ==> r.value[1..13] == Body(m)
    ensures r.Ok? ==> FromLittleEndian(r.value[13..15]) == StampedChecksum(m)
    ensures r.Ok? && m.needChecksum ==> FromLittleEndian(r.value[13..15]) == Crc.Crc16(r.value[1..13])
  {
    match Pack(m, m.checksum)
    case Err(e) => Err(e)
    case Ok(out) =>
      var r := if m.needChecksum then Pack(m, Crc.Crc16(out[1..13])) else Ok(out);
      assert r.Ok? ==> r.value[1..13] == Body(m) && r.value[13..15] == LittleEndian(StampedChecksum(m), 2);
      FromLittleEndianInverse(StampedChecksum(m), 2);
      r
  }

  /** `deserialize`: unpack, check start byte, end byte and data length, keep `data_length` data bytes. */
  function Deserialize(packet: seq<byte>): (r: Result<UIMessage, CodecError>)
    ensures r.Ok? <==>
      |packet| == PACKET_LENGTH && packet[0] in {SOM_CHECKSUM, SOM_UNKNOWN, SOM_NO_CHECKSUM} &&
      packet[15] == EOM && packet[3] <= 8
    ensures |packet| != PACKET_LENGTH ==> r == Err(StructError)
    ensures |packet| == PACKET_LENGTH && packet[0] !in {SOM_CHECKSUM, SOM_UNKNOWN, SOM_NO_CHECKSUM} ==>
      r == Err(BadStartOfMessage)
    ensures r.Ok? ==> 0 <= r.value.functionCode < 0x80 && |r.value.data| <= 8
    ensures r.Ok? ==>
      && r.value.deviceId == packet[1]
      && r.value.needChecksum == (packet[0] == SOM_CHECKSUM)
      && r.value.needAck == (packet[2] >= 0x80)
      && ControlWord(r.value.needAck, r.value.functionCode) == packet[2]
      && r.value.data == packet[4..4 + packet[3]]
      && r.value.auxByte == packet[12]
      && r.value.checksum == FromLittleEndian(packet[13..15])
  {
    if |packet| != PACKET_LENGTH then Err(StructError)
    else if packet[0] !in {SOM_CHECKSUM, SOM_UNKNOWN, SOM_NO_CHECKSUM} then Err(BadStartOfMessage)
    else if packet[15] != EOM then Err(BadEndOfMessage)
    else if packet[3] > 8 then Err(BadDataLength)
    else Ok(UIMessage(
      packet[1],
      packet[2] % 0x80,
      packet[4..4 + packet[3]],
      packet[0] == SOM_CHECKSUM,
      packet[2] >= 0x80,
      packet[12],
      FromLittleEndian(packet[13..15])))
  }

  /** The gateways' checksum gate: a packet that needs a checksum passes only if its field is the CRC of bytes 1 to 12. */
  function ChecksumAccepted(packet: seq<byte>, needChecksum: bool, checksum: int): (ok: bool)
    requires |packet| == PACKET_LENGTH
    ensures !needChecksum ==> ok
    ensures ok && needChecksum ==> checksum == Crc.Crc16(packet[1..13])
  {
    !needChecksum || Crc.Crc16(packet[1..13]) == checksum
  }

  /** A decodable packet whose start byte is 0xAC or 0xAD passes the gate whatever its checksum field holds. */
  lemma UncheckedStartPassesGate(packet: seq<byte>, checksum: int)
    requires Deserialize(packet).Ok? && packet[0] != SOM_CHECKSUM
    ensures !Deserialize(packet).value.needChecksum
    ensures ChecksumAccepted(packet, Deserialize(packet).value.needChecksum, checksum)
  {
  }

  /** Decoding a serialized message gives it back, with the checksum field it was sent with. */
  lemma RoundTrip(m: UIMessage)
    requires Serializable(m) && 0 <= m.functionCode < 0x80 && |m.data| <= 8
    ensures Deserialize(Serialize(m).value) == Ok(m.(checksum := StampedChecksum(m)))
  {
    var p := Serialize(m).value;
    ControlWordOfFunctionCode(m.needAck, m.functionCode);
    assert p[4..4 + p[3]] == ZeroPad8(m.data)[..|m.data|];
    assert ZeroPad8(m.data)[..|m.data|] == m.data;
  }

  /** A canonical packet: known start byte other than 0xAC, zero padding, and a valid checksum when one is needed. */
  predicate Canonical(packet: seq<byte>) {
    |packet| == PACKET_LENGTH && packet[0] in {SOM_CHECKSUM, SOM_NO_CHECKSUM} && packet[15] == EOM &&
    packet[3] <= 8 && (forall i :: 4 + packet[3] <= i < 12 ==> packet[i] == 0) &&
    ChecksumAccepted(packet, packet[0] == SOM_CHECKSUM, FromLittleEndian(packet[13..15]))
  }

  /** A packet is its start byte, bytes 1 to 12, checksum field and end byte. */
  lemma PacketParts(p: seq<byte>, q: seq<byte>)
    requires |p| == PACKET_LENGTH && |q| == PACKET_LENGTH
    requires p[0] == q[0] && p[1..13] == q[1..13] && p[13..15] == q[13..15] && p[15] == q[15]
    ensures p == q
  {
    assert p == [p[0]] + p[1..13] + p[13..15] + [p[15]];
    assert q == [q[0]] + q[1..13] + q[13..15] + [q[15]];
  }

  /** The bytes 1 to 12 of a canonical packet are the body of the message it decodes to. */
  lemma CanonicalBody(packet: seq<byte>)
    requires Canonical(packet)
    ensures Deserialize(packet).Ok? && HeaderFits(Deserialize(packet).value)
    ensures Body(Deserialize(packet).value) == packet[1..13]
  {
    var m := Deserialize(packet).value;
    assert ControlWord(m.needAck, m.functionCode) == packet[2];
    assert ZeroPad8(m.data) == packet[4..12];
  }

  /** Re-serializing a decoded canonical packet reproduces it byte for byte. */
  lemma ReserializeCanonical(packet: seq<byte>)
    requires Canonical(packet)
    ensures Deserialize(packet).Ok? && Serialize(Deserialize(packet).value) == Ok(packet)
  {
    CanonicalBody(packet);
    var m := Deserialize(packet).value;
    var p := Serialize(m).value;
    LittleEndianInverse(packet[13..15]);
    LittleEndianInverse(p[13..15]);
    PacketParts(p, packet);
  }

  /** Every serialized message that needs a checksum passes the gateways' gate. */
  lemma SerializedPassesGate(m: UIMessage)
    requires Serializable(m)
    ensures var p := Serialize(m).value;
      Deserialize(p).Ok? ==> ChecksumAccepted(p, Deserialize(p).value.needChecksum, Deserialize(p).value.checksum)
  {
  }

  /** `serialize` writes the true length of over-long data, which `deserialize` then refuses. */
  lemma OverlongDataIsRefused(m: UIMessage)
    requires Serializable(m) && |m.data| > 8
    ensures Deserialize(Serialize(m).value) == Err(BadDataLength)
  {
  }
}
