/**
 * The first, single-file gateway (`uir_gateway.py`).  Its UIMessage
 * carries the data-length byte as a field of its own: `serialize` writes
 * that field as given, and `deserialize` keeps all eight data bytes and
 * never checks it.  Without a checksum the packet carries the placeholder
 * 0xFFFF.  Its `crc16` is the same loop as the packaged one, so the model
 * shares `Crc`.  `UIDevice` keeps no changing state: `handle_message`
 * only writes replies to the socket the request came from, or raises.
 */
module Legacy {
  import opened Wrappers
  import opened Bytes
  import opened Constants
  import opened Transport
  import Crc
  import Codec = UIMessageCodec

  /** The checksum field of a packet without a checksum, and of the first pass of one with. */
  const PLACEHOLDER_CHECKSUM := 0xFFFF

  datatype Message = Message(
    deviceId: int,
    functionCode: int,
    dataLength: int,
    data: seq<byte>,
    needChecksum: bool,
    needAck: bool,
    auxByte: int,
    checksum: int)

  /** A message built with the dataclass defaults: checksummed, no acknowledge, zero aux byte and checksum. */
  function NewMessage(deviceId: int, functionCode: int, dataLength: int, data: seq<byte>): Message {
    Message(deviceId, functionCode, dataLength, data, true, false, 0, 0)
  }

  /** The Python exceptions the legacy code can raise. */
  datatype Exception =
    | StructError          // a field does not fit its struct code, or a buffer is too short
    | AssertionError       // a failed `assert`
    | IndexError           // `msg.data[0]` of empty data
    | ValueError           // `bytes([...])` with an element outside 0..255
    | NotImplementedError  // a protocol parameter other than the CAN bitrate

  /** Whether every field of `m` except the checksum fits its struct code. */
  predicate HeaderFits(m: Message) {
    IsByte(m.deviceId) && IsByte(Codec.ControlWord(m.needAck, m.functionCode)) &&
    IsByte(m.dataLength) && IsByte(m.auxByte)
  }

  /** Bytes 1 to 12 of the packet: the part the checksum covers; data is cut or zero-padded to eight bytes. */
  function Body(m: Message): seq<byte>
    requires HeaderFits(m)
  {
    [m.deviceId, Codec.ControlWord(m.needAck, m.functionCode), m.dataLength] + ZeroPad8(m.data) + [m.auxByte]
  }

  /** The `struct.pack` call with the given checksum field. */
  function Pack(m: Message, checksum: int): (r: Result<seq<byte>, Exception>)
    ensures r.Ok? <==> HeaderFits(m) && 0 <= checksum <= 0xFFFF
    ensures r.Ok? ==> |r.value| == Codec.PACKET_LENGTH && r.value[1..13] == Body(m)
    ensures r.Ok? ==> r.value[0] == Codec.StartByte(m.needChecksum) && r.value[15] == Codec.EOM
    ensures r.Ok? ==> FromLittleEndian(r.value[13..15]) == checksum
  {
    if HeaderFits(m) && 0 <= checksum <= 0xFFFF then
      var out := [Codec.StartByte(m.needChecksum)] + Body(m) + LittleEndian(checksum, 2) + [Codec.EOM];
      assert out[1..13] == Body(m) && out[13..15] == LittleEndian(checksum, 2);
      FromLittleEndianInverse(checksum, 2);
      Ok(out)
    else
      Err(StructError)
  }

  /** The checksum field `serialize(checksum)` ends up writing. */
  function WrittenChecksum(m: Message, checksum: Option<int>): int
    requires HeaderFits(m)
  {
    if checksum.Some? then checksum.value
    else if m.needChecksum then Crc.Crc16(Body(m))
    else PLACEHOLDER_CHECKSUM
  }

  /**
   * `serialize(checksum)`: pack with the given checksum, or the placeholder;
   * when none was given and one is needed, serialize again with the CRC of
   * bytes 1 to 12 of the first packet.  The placeholder lies outside those
   * bytes, so the second pass is the last.
   */
  function Serialize(m: Message, checksum: Option<int>): (r: Result<seq<byte>, Exception>)
    decreases if checksum.None? then 1 else 0
    ensures r.Ok? <==> HeaderFits(m) && (checksum.Some? ==> 0 <= checksum.value <= 0xFFFF)
    ensures r.Ok? ==> |r.value| == Codec.PACKET_LENGTH && r.value[1..13] == Body(m)
    ensures r.Ok? ==> r.value[0] == Codec.StartByte(m.needChecksum) && r.value[15] == Codec.EOM
    ensures r.Ok? ==> FromLittleEndian(r.value[13..15]) == WrittenChecksum(m, checksum)
    ensures r.Ok? && checksum.None? && m.needChecksum ==> FromLittleEndian(r.value[13..15]) == Crc.Crc16(r.value[1..13])
    ensures r.Ok? && checksum.None? && !m.needChecksum ==> FromLittleEndian(r.value[13..15]) == PLACEHOLDER_CHECKSUM
  {
    match Pack(m, if checksum.Some? then checksum.value else PLACEHOLDER_CHECKSUM)
    case Err(e) => Err(e)
    case Ok(out) =>
      if checksum.None? && m.needChecksum then Serialize(m, Some(Crc.Crc16(out[1..13]))) else Ok(out)
  }

  /** `deserialize`: unpack and check start and end byte; the data-length byte and all eight data bytes are kept as they are. */
  function Deserialize(packet: seq<byte>): (r: Result<Message, Exception>)
    ensures r.Ok? <==>
      |packet| == Codec.PACKET_LENGTH && packet[0] in {Codec.SOM_CHECKSUM, Codec.SOM_UNKNOWN, Codec.SOM_NO_CHECKSUM} &&
      packet[15] == Codec.EOM
    ensures |packet| != Codec.PACKET_LENGTH ==> r == Err(StructError)
    ensures r.Err? && |packet| == Codec.PACKET_LENGTH ==> r == Err(AssertionError)
    ensures r.Ok? ==>
      && r.value.deviceId == packet[1]
      && r.value.needChecksum == (packet[0] == Codec.SOM_CHECKSUM)
      && r.value.needAck == (packet[2] >= 0x80)
      && 0 <= r.value.functionCode < 0x80
      && Codec.ControlWord(r.value.needAck, r.value.functionCode) == packet[2]
      && r.value.dataLength == packet[3] && r.value.data == packet[4..12]
      && r.value.auxByte == packet[12]
      && r.value.checksum == FromLittleEndian(packet[13..15])
  {
    if |packet| != Codec.PACKET_LENGTH then Err(StructError)
    else if packet[0] !in {Codec.SOM_CHECKSUM, Codec.SOM_UNKNOWN, Codec.SOM_NO_CHECKSUM} then Err(AssertionError)
    else if packet[15] != Codec.EOM then Err(AssertionError)
    else Ok(Message(
      packet[1],
      packet[2] % 0x80,
      packet[3],
      packet[4..12],
      packet[0] == Codec.SOM_CHECKSUM,
      packet[2] >= 0x80,
      packet[12],
      FromLittleEndian(packet[13..15])))
  }

  /** A message without a checksum is written with the placeholder, whatever its own checksum field holds. */
  lemma IgnoresStoredChecksum(m: Message, c: int)
    requires !m.needChecksum
    ensures Serialize(m, None) == Serialize(m.(checksum := c), None)
  {
  }

  /** A packet laid out from `m` decodes to `m`, with the data padded to eight bytes and the checksum the packet carries. */
  lemma DecodeLaidOut(m: Message, p: seq<byte>)
    requires HeaderFits(m) && 0 <= m.functionCode < 0x80
    requires |p| == Codec.PACKET_LENGTH && p[1..13] == Body(m)
    requires p[0] == Codec.StartByte(m.needChecksum) && p[15] == Codec.EOM
    ensures Deserialize(p) == Ok(m.(data := ZeroPad8(m.data), checksum := FromLittleEndian(p[13..15])))
  {
    var b := Body(m);
    var cw := Codec.ControlWord(m.needAck, m.functionCode);
    Codec.ControlWordOfFunctionCode(m.needAck, m.functionCode);
    assert cw % 0x80 == m.functionCode && (cw >= 0x80 <==> m.needAck);
    assert b[0] == m.deviceId && b[1] == cw && b[2] == m.dataLength && b[3..11] == ZeroPad8(m.data) && b[11] == m.auxByte;
    assert p[1] == b[0] && p[2] == b[1] && p[3] == b[2] && p[4..12] == b[3..11] && p[12] == b[11];
  }

  /** Decoding a serialized message gives back every field, with the data padded to eight bytes and the checksum written. */
  lemma RoundTrip(m: Message)
    requires HeaderFits(m) && 0 <= m.functionCode < 0x80
    ensures Serialize(m, None).Ok?
    ensures Deserialize(Serialize(m, None).value) ==
      Ok(m.(data := ZeroPad8(m.data), checksum := WrittenChecksum(m, None)))
  {
    DecodeLaidOut(m, Serialize(m, None).value);
  }

  /** Serializing a decoded packet with its own checksum field reproduces it, for either start byte that `serialize` writes. */
  lemma ReserializeExact(packet: seq<byte>)
    requires |packet| == Codec.PACKET_LENGTH && packet[0] in {Codec.SOM_CHECKSUM, Codec.SOM_NO_CHECKSUM}
    requires packet[15] == Codec.EOM
    ensures Deserialize(packet).Ok?
    ensures var m := Deserialize(packet).value; Serialize(m, Some(m.checksum)) == Ok(packet)
  {
    var m := Deserialize(packet).value;
    assert Codec.ControlWord(m.needAck, m.functionCode) == packet[2];
    assert Body(m) == packet[1..13];
    var p := Serialize(m, Some(m.checksum)).value;
    LittleEndianInverse(packet[13..15]);
    LittleEndianInverse(p[13..15]);
    Codec.PacketParts(p, packet);
  }

  /** Every serialized message passes the checksum gate of `main`. */
  lemma SerializedPassesGate(m: Message)
    requires HeaderFits(m)
    ensures var p := Serialize(m, None).value;
      Deserialize(p).Ok? && Codec.ChecksumAccepted(p, Deserialize(p).value.needChecksum, Deserialize(p).value.checksum)
  {
  }

  /** The `UIDevice` dataclass. */
  datatype Device = Device(
    nodeId: int,
    groupIds: seq<int>,
    canBitrate: int,
    serialNumber: int,
    manufacturerId: int,
    vendorId: int)

  /** `UIDevice(...)` with `__post_init__`: no group ids means broadcast and the node id. */
  function NewDevice(nodeId: int, groupIds: seq<int>, canBitrate: int, serialNumber: int,
                     manufacturerId: int, vendorId: int): (d: Device)
    ensures d.groupIds != []
    ensures groupIds != [] ==> d.groupIds == groupIds
    ensures groupIds == [] ==> GLOBAL_GROUP_ID in d.groupIds && nodeId in d.groupIds && |d.groupIds| == 2
    ensures d.nodeId == nodeId && d.canBitrate == canBitrate && d.serialNumber == serialNumber
    ensures d.manufacturerId == manufacturerId && d.vendorId == vendorId
  {
    Device(nodeId, if groupIds == [] then [GLOBAL_GROUP_ID, nodeId] else groupIds,
           canBitrate, serialNumber, manufacturerId, vendorId)
  }

  /** The device `main` serves: a UIM2523 at its default node id, with every other field defaulted. */
  function MainDevice(): (d: Device)
    ensures d.nodeId == UIM2523_NODE_ID && d.groupIds == [GLOBAL_GROUP_ID, UIM2523_NODE_ID]
    ensures d.canBitrate == DEFAULT_CAN_BITRATE && d.serialNumber == DEFAULT_SERIAL_NUMBER
    ensures d.manufacturerId == DEFAULT_MANUFACTURER_ID && d.vendorId == DEFAULT_VENDOR_ID
  {
    NewDevice(UIM2523_NODE_ID, [], DEFAULT_CAN_BITRATE, DEFAULT_SERIAL_NUMBER,
              DEFAULT_MANUFACTURER_ID, DEFAULT_VENDOR_ID)
  }

  /** The effect of handling one message: the replies written, and the exception raised, if any. */
  datatype Outcome = Outcome(sent: seq<Message>, error: Option<Exception>)

  const Quiet := Outcome([], None)

  /** `send_message`: the reply is written when it serializes; otherwise serializing raises and nothing is written. */
  function SendOutcome(reply: Message): Outcome {
    if HeaderFits(reply) then Outcome([reply], None) else Outcome([], Some(StructError))
  }

  /** The packets a sequence of replies puts on the socket. */
  function Written(msgs: seq<Message>): (r: seq<seq<byte>>)
    requires forall m <- msgs :: HeaderFits(m)
    ensures |r| == |msgs|
  {
    if msgs == [] then [] else [Serialize(msgs[0], None).value] + Written(msgs[1..])
  }

  /** The packets of two reply sequences, one after the other. */
  lemma {:induction false} WrittenAppend(a: seq<Message>, b: seq<Message>)
    requires forall m <- a :: HeaderFits(m)
    requires forall m <- b :: HeaderFits(m)
    ensures Written(a + b) == Written(a) + Written(b)
  {
    if a == [] {
      assert a + b == b;
    } else {
      assert (a + b)[0] == a[0] && (a + b)[1..] == a[1..] + b;
      WrittenAppend(a[1..], b);
      var head := [Serialize(a[0], None).value];
      assert Written(a + b) == head + Written(a[1..] + b);
      ConcatAssociative(head, Written(a[1..]), Written(b));
    }
  }

  /** The CAN bitrate reply: index 5 and the current bitrate, padded to eight bytes, with data length 2. */
  function BitrateReply(d: Device): Result<Message, Exception> {
    if IsByte(d.canBitrate) then
      Ok(NewMessage(d.nodeId, PROTOCOL_PARAMETER, 2, [CAN_BITRATE, d.canBitrate, 0, 0, 0, 0, 0, 0]))
    else
      Err(ValueError)
  }

  /** `struct.pack('<LHH', serial_number, manufacturer_id, vendor_id)`. */
  function SerialNumberData(d: Device): Result<seq<byte>, Exception> {
    if 0 <= d.serialNumber < Pow256(4) && 0 <= d.manufacturerId < Pow256(2) && 0 <= d.vendorId < Pow256(2) then
      Ok(LittleEndian(d.serialNumber, 4) + LittleEndian(d.manufacturerId, 2) + LittleEndian(d.vendorId, 2))
    else
      Err(StructError)
  }

  function Failed(e: Exception): Outcome {
    Outcome([], Some(e))
  }

  /** Sends the reply, or raises what building it raised. */
  function SendResult(reply: Result<Message, Exception>): Outcome {
    match reply
    case Err(e) => Failed(e)
    case Ok(r) => SendOutcome(r)
  }

  /** The protocol-parameter branch: only the CAN bitrate is served, read with data length 1 or written with 2. */
  function ProtocolParameter(d: Device, msg: Message): (o: Outcome)
    ensures |o.sent| <= 1 && (o.error != None ==> o.sent == [])
    ensures o.error == Some(IndexError) <==> msg.data == []
    ensures o.error == Some(NotImplementedError) <==> msg.data != [] && msg.data[0] != CAN_BITRATE
    ensures o.sent != [] ==> msg.data[0] == CAN_BITRATE && msg.dataLength in {1, 2}
    ensures forall r <- o.sent :: r.deviceId == d.nodeId && r.dataLength == 2 && r.data == [CAN_BITRATE, d.canBitrate, 0, 0, 0, 0, 0, 0]
  {
    if |msg.data| == 0 then Failed(IndexError)
    else if msg.data[0] != CAN_BITRATE then Failed(NotImplementedError)
    else if msg.dataLength == 1 then SendResult(BitrateReply(d))
    else if msg.dataLength == 2 then
      if |msg.data| < 2 then Failed(StructError) else SendResult(BitrateReply(d))
    else Quiet
  }

  /** The serial-number branch: a read, or a write of four little-endian bytes that is acknowledged but not stored. */
  function SerialNumber(d: Device, msg: Message): (o: Outcome)
    ensures |o.sent| <= 1 && (o.error != None ==> o.sent == [])
    ensures o.error == Some(AssertionError) <==> !msg.needAck && msg.dataLength != 4
    ensures forall r <- o.sent :: r.deviceId == d.nodeId && r.functionCode == SERIAL_NUMBER && r.dataLength == 8 && |r.data| == 8
  {
    if !msg.needAck && msg.dataLength != 4 then Failed(AssertionError)
    else if !msg.needAck && |msg.data| < 4 then Failed(StructError)
    else
      match SerialNumberData(d)
      case Err(e) => Failed(e)
      case Ok(data) => SendOutcome(NewMessage(d.nodeId, SERIAL_NUMBER, 8, data))
  }

  /** `handle_message`: the whole effect of one request on one device. */
  function Handle(d: Device, msg: Message): (o: Outcome)
    ensures |o.sent| <= 1
    ensures forall r <- o.sent :: r.deviceId == d.nodeId && r.needChecksum && !r.needAck && HeaderFits(r)
    ensures o.error.Some? ==> o.sent == []
    ensures msg.deviceId !in d.groupIds ==> o == Quiet
    ensures msg.functionCode !in {MODEL, PROTOCOL_PARAMETER, SERIAL_NUMBER} ==> o == Quiet
  {
    if msg.deviceId !in d.groupIds then Quiet
    else if msg.functionCode == MODEL then
      if !msg.needAck then Failed(AssertionError)
      else SendOutcome(NewMessage(d.nodeId, MODEL, 8, MODEL_DATA))
    else if msg.functionCode == PROTOCOL_PARAMETER then ProtocolParameter(d, msg)
    else if msg.functionCode == SERIAL_NUMBER then SerialNumber(d, msg)
    else Quiet
  }

  /** A device built without group ids answers to broadcast and to its node id. */
  lemma DefaultGroupsAddressed(nodeId: int, canBitrate: int, serialNumber: int, manufacturerId: int,
                               vendorId: int, msg: Message)
    requires msg.deviceId == GLOBAL_GROUP_ID || msg.deviceId == nodeId
    ensures msg.deviceId in NewDevice(nodeId, [], canBitrate, serialNumber, manufacturerId, vendorId).groupIds
  {
  }

  /** GET MODEL answers with the fixed model record; without the acknowledge bit it fails its assertion. */
  lemma ModelReply(d: Device, msg: Message)
    requires msg.deviceId in d.groupIds && msg.functionCode == MODEL && IsByte(d.nodeId)
    ensures Handle(d, msg) ==
      if msg.needAck then Outcome([Message(d.nodeId, MODEL, 8, MODEL_DATA, true, false, 0, 0)], None)
      else Outcome([], Some(AssertionError))
  {
  }

  /**
   * A CAN bitrate request of data length 1 or 2 answers with index 5 and the
   * bitrate the device holds (which it never changes); any other length
   * answers nothing.
   */
  lemma BitrateReplyOnly(d: Device, msg: Message)
    requires msg.deviceId in d.groupIds && msg.functionCode == PROTOCOL_PARAMETER
    requires |msg.data| == 8 && msg.data[0] == CAN_BITRATE && IsByte(d.nodeId) && IsByte(d.canBitrate)
    ensures msg.dataLength in {1, 2} ==>
      Handle(d, msg) == Outcome([Message(d.nodeId, PROTOCOL_PARAMETER, 2,
                                         [CAN_BITRATE, d.canBitrate, 0, 0, 0, 0, 0, 0], true, false, 0, 0)], None)
    ensures msg.dataLength !in {1, 2} ==> Handle(d, msg) == Quiet
  {
  }

  /** A protocol parameter other than the CAN bitrate raises NotImplementedError. */
  lemma OtherParameter(d: Device, msg: Message)
    requires msg.deviceId in d.groupIds && msg.functionCode == PROTOCOL_PARAMETER
    requires |msg.data| > 0 && msg.data[0] != CAN_BITRATE
    ensures Handle(d, msg) == Outcome([], Some(NotImplementedError))
  {
  }

  /** SERIAL NUMBER answers with serial number, manufacturer and vendor, each little-endian, to a read and to a well-formed write alike. */
  lemma SerialNumberReply(d: Device, msg: Message)
    requires msg.deviceId in d.groupIds && msg.functionCode == SERIAL_NUMBER && IsByte(d.nodeId)
    requires msg.needAck || (msg.dataLength == 4 && |msg.data| >= 4)
    requires 0 <= d.serialNumber < Pow256(4) && 0 <= d.manufacturerId < Pow256(2) && 0 <= d.vendorId < Pow256(2)
    ensures var o := Handle(d, msg);
      && o.error == None && |o.sent| == 1
      && o.sent[0].functionCode == SERIAL_NUMBER && o.sent[0].dataLength == 8 && |o.sent[0].data| == 8
      && FromLittleEndian(o.sent[0].data[..4]) == d.serialNumber
      && FromLittleEndian(o.sent[0].data[4..6]) == d.manufacturerId
      && FromLittleEndian(o.sent[0].data[6..]) == d.vendorId
  {
    var data := Handle(d, msg).sent[0].data;
    assert data[..4] == LittleEndian(d.serialNumber, 4);
    assert data[4..6] == LittleEndian(d.manufacturerId, 2);
    assert data[6..] == LittleEndian(d.vendorId, 2);
    FromLittleEndianInverse(d.serialNumber, 4);
    FromLittleEndianInverse(d.manufacturerId, 2);
    FromLittleEndianInverse(d.vendorId, 2);
  }

  /** A serial-number write must carry data length 4. */
  lemma SerialNumberWriteLength(d: Device, msg: Message)
    requires msg.deviceId in d.groupIds && msg.functionCode == SERIAL_NUMBER
    requires !msg.needAck && msg.dataLength != 4
    ensures Handle(d, msg) == Outcome([], Some(AssertionError))
  {
  }

  /** One outcome after another: the second's replies follow, and its exception is the one left. */
  function Then(sent: seq<Message>, o: Outcome): Outcome {
    Outcome(sent + o.sent, o.error)
  }

  /** `for device in devices: device.handle_message(s, msg)`: an exception ends the loop. */
  function Dispatch(devices: seq<Device>, msg: Message): (o: Outcome)
    ensures |o.sent| <= |devices|
    ensures forall r <- o.sent :: HeaderFits(r)
  {
    if devices == [] then Quiet
    else
      var first := Handle(devices[0], msg);
      if first.error.Some? then first else Then(first.sent, Dispatch(devices[1..], msg))
  }

  /**
   * One pass of `main`'s loop over a read: an empty read (the client hung up)
   * sends nothing and raises nothing, the client is closed instead; otherwise
   * decode, drop a packet whose checksum fails, hand the message to every device.
   */
  function Receive(devices: seq<Device>, packet: seq<byte>): (o: Outcome)
    ensures forall r <- o.sent :: HeaderFits(r)
    ensures packet == [] ==> o == Quiet
    ensures packet != [] && |packet| != Codec.PACKET_LENGTH ==> o == Failed(StructError)
  {
    if packet == [] then Quiet
    else match Deserialize(packet)
    case Err(e) => Failed(e)
    case Ok(msg) =>
      if Codec.ChecksumAccepted(packet, msg.needChecksum, msg.checksum) then Dispatch(devices, msg) else Quiet
  }

  /** A packet that needs a checksum and whose field is not the CRC of bytes 1 to 12 reaches no device. */
  lemma BadChecksumDropped(devices: seq<Device>, packet: seq<byte>)
    requires Deserialize(packet).Ok? && Deserialize(packet).value.needChecksum
    requires Crc.Crc16(packet[1..13]) != Deserialize(packet).value.checksum
    ensures Receive(devices, packet) == Quiet
  {
  }

  /** A packet the legacy `serialize` wrote reaches every device, as the message it decodes to. */
  lemma SerializedDispatched(devices: seq<Device>, m: Message)
    requires HeaderFits(m)
    ensures Serialize(m, None).Ok? && Deserialize(Serialize(m, None).value).Ok?
    ensures Receive(devices, Serialize(m, None).value) ==
      Dispatch(devices, Deserialize(Serialize(m, None).value).value)
  {
    SerializedPassesGate(m);
  }

  /** Only the devices a message is addressed to answer it. */
  lemma {:induction false} UnaddressedSilent(devices: seq<Device>, msg: Message)
    requires forall d <- devices :: msg.deviceId !in d.groupIds
    ensures Dispatch(devices, msg) == Quiet
    decreases |devices|
  {
    if devices != [] {
      assert devices[0] in devices;
      assert forall d <- devices[1..] :: d in devices;
      UnaddressedSilent(devices[1..], msg);
    }
  }

  /** `main`'s single device answers GET MODEL sent to broadcast or to node 2 with one model record from node 2. */
  lemma MainDeviceModel(msg: Message)
    requires msg.deviceId in {GLOBAL_GROUP_ID, UIM2523_NODE_ID} && msg.functionCode == MODEL && msg.needAck
    ensures Dispatch([MainDevice()], msg) ==
      Outcome([Message(UIM2523_NODE_ID, MODEL, 8, MODEL_DATA, true, false, 0, 0)], None)
  {
    var d := MainDevice();
    ModelReply(d, msg);
    assert [d][1..] == [];
  }

  /** `send_message`. */
  method SendMessage(transport: Sink, msg: Message) returns (err: Option<Exception>)
    modifies transport
    ensures err == SendOutcome(msg).error
    ensures transport.written == old(transport.written) + Written(SendOutcome(msg).sent)
  {
    match Serialize(msg, None)
    case Err(e) =>
      err := Some(e);
    case Ok(packet) =>
      transport.Write(packet);
      err := None;
  }

  /** `handle_message`, writing its reply to the transport. */
  method HandleMessage(d: Device, transport: Sink, msg: Message) returns (err: Option<Exception>)
    modifies transport
    ensures err == Handle(d, msg).error
    ensures transport.written == old(transport.written) + Written(Handle(d, msg).sent)
  {
    if msg.deviceId !in d.groupIds {
      return None;
    }
    if msg.functionCode == MODEL {
      if !msg.needAck {
        return Some(AssertionError);
      }
      err := SendMessage(transport, NewMessage(d.nodeId, MODEL, 8, MODEL_DATA));
      return;
    }
    if msg.functionCode == PROTOCOL_PARAMETER {
      err := HandleProtocolParameter(d, transport, msg);
      return;
    }
    if msg.functionCode == SERIAL_NUMBER {
      err := HandleSerialNumber(d, transport, msg);
      return;
    }
    err := None;
  }

  method HandleProtocolParameter(d: Device, transport: Sink, msg: Message) returns (err: Option<Exception>)
    modifies transport
    ensures err == ProtocolParameter(d, msg).error
    ensures transport.written == old(transport.written) + Written(ProtocolParameter(d, msg).sent)
  {
    if |msg.data| == 0 {
      return Some(IndexError);
    }
    var index := msg.data[0];
    if index != CAN_BITRATE {
      return Some(NotImplementedError);
    }
    if msg.dataLength == 2 && |msg.data| < 2 {
      return Some(StructError);
    } else if msg.dataLength != 1 && msg.dataLength != 2 {
      return None;
    }
    if !IsByte(d.canBitrate) {
      return Some(ValueError);
    }
    err := SendMessage(transport, NewMessage(d.nodeId, PROTOCOL_PARAMETER, 2,
                                             [CAN_BITRATE, d.canBitrate, 0, 0, 0, 0, 0, 0]));
  }

  method HandleSerialNumber(d: Device, transport: Sink, msg: Message) returns (err: Option<Exception>)
    modifies transport
    ensures err == SerialNumber(d, msg).error
    ensures transport.written == old(transport.written) + Written(SerialNumber(d, msg).sent)
  {
    if !msg.needAck {
      if msg.dataLength != 4 {
        return Some(AssertionError);
      }
      if |msg.data| < 4 {
        return Some(StructError);
      }
    }
    match SerialNumberData(d)
    case Err(e) =>
      err := Some(e);
    case Ok(data) =>
      err := SendMessage(transport, NewMessage(d.nodeId, SERIAL_NUMBER, 8, data));
  }

  /** Dispatch over the devices from `i` on, once the device at `i` has answered without raising. */
  lemma DispatchStep(devices: seq<Device>, i: nat, msg: Message)
    requires i < |devices| && Handle(devices[i], msg).error == None
    ensures Dispatch(devices[i..], msg) == Then(Handle(devices[i], msg).sent, Dispatch(devices[i + 1..], msg))
  {
    assert devices[i..][0] == devices[i] && devices[i..][1..] == devices[i + 1..];
  }

  /** Dispatch over the devices from `i` on, when the device at `i` raises. */
  lemma DispatchStop(devices: seq<Device>, i: nat, msg: Message)
    requires i < |devices| && Handle(devices[i], msg).error.Some?
    ensures Dispatch(devices[i..], msg) == Handle(devices[i], msg)
  {
    assert devices[i..][0] == devices[i];
  }

  /** The receive step of `main` for one packet from a client socket, writing the replies to that socket. */
  method ServePacket(transport: Sink, devices: seq<Device>, packet: seq<byte>) returns (err: Option<Exception>, closed: bool)
    modifies transport
    ensures closed <==> packet == []
    ensures err == Receive(devices, packet).error
    ensures transport.written == old(transport.written) + Written(Receive(devices, packet).sent)
  {
    closed := packet == [];
    if closed {
      return None, closed;
    }
    var decoded := Deserialize(packet);
    if decoded.Err? {
      return Some(decoded.error), closed;
    }
    var msg := decoded.value;
    if msg.needChecksum && Crc.Crc16(packet[1..13]) != msg.checksum {
      return None, closed;
    }
    ghost var whole := Dispatch(devices, msg);
    assert Receive(devices, packet) == whole;
    ghost var sent: seq<Message> := [];
    assert devices[0..] == devices;
    err := None;
    var i := 0;
    while i < |devices|
      invariant 0 <= i <= |devices| && err == None
      invariant forall r <- sent :: HeaderFits(r)
      invariant whole == Then(sent, Dispatch(devices[i..], msg))
      invariant transport.written == old(transport.written) + Written(sent)
    {
      ghost var h := Handle(devices[i], msg);
      err := HandleMessage(devices[i], transport, msg);
      if err.Some? {
        DispatchStop(devices, i, msg);
        assert whole.sent == sent + [] == sent;
        return;
      }
      DispatchStep(devices, i, msg);
      WrittenAppend(sent, h.sent);
      ConcatAssociative(old(transport.written), Written(sent), Written(h.sent));
      ConcatAssociative(sent, h.sent, Dispatch(devices[i + 1..], msg).sent);
      sent := sent + h.sent;
      i := i + 1;
    }
    assert devices[i..] == [];
    assert whole.sent == sent + [] == sent;
  }
}
