/**
 * The simulated UIM2523 gateway device (`SimUIGateway`): it filters
 * messages by address, answers GET MODEL and GET SERIAL NUMBER, and reads
 * or writes its CAN bitrate.  Replies are written to the transport the
 * request came from.  `Handle` says what one call does; the class runs it
 * in place on the `canBitrate` field and the transport's log.
 */
module Device {
  import opened Wrappers
  import opened Bytes
  import opened Constants
  import opened UIMessageCodec
  import opened Transport

  /** The Python exceptions a handler can raise. */
  datatype DeviceError =
    | IndexError    // `msg.data[0]` of an empty protocol-parameter request
    | ValueError    // a written bitrate that is no CANBitrate member
    | StructPackError   // a reply field that does not fit its struct code

  /** The device settings the handlers read but never change. */
  datatype Settings = Settings(nodeId: int, groupId: int, serialNumber: int, manufacturerId: int, vendorId: int)

  /** The effect of one handler call: the bitrate afterwards, the messages written, and the exception raised, if any. */
  datatype Outcome = Outcome(canBitrate: int, sent: seq<UIMessage>, error: Option<DeviceError>)

  function Quiet(canBitrate: int): Outcome {
    Outcome(canBitrate, [], None)
  }

  /** `send_message`: the reply is written when it serializes; otherwise serializing raises and nothing is written. */
  function SendOutcome(canBitrate: int, reply: UIMessage): Outcome {
    if Serializable(reply) then Outcome(canBitrate, [reply], None)
    else Outcome(canBitrate, [], Some(StructPackError))
  }

  /** The packets a sequence of replies puts on the transport. */
  function Written(msgs: seq<UIMessage>): (r: seq<seq<byte>>)
    requires forall m <- msgs :: Serializable(m)
    ensures |r| == |msgs|
  {
    if msgs == [] then [] else [Serialize(msgs[0]).value] + Written(msgs[1..])
  }

  /** The packets of two reply sequences, one after the other. */
  lemma {:induction false} WrittenAppend(a: seq<UIMessage>, b: seq<UIMessage>)
    requires forall m <- a :: Serializable(m)
    requires forall m <- b :: Serializable(m)
    ensures Written(a + b) == Written(a) + Written(b)
  {
    if a == [] {
      assert a + b == b;
    } else {
      assert (a + b)[0] == a[0] && (a + b)[1..] == a[1..] + b;
      WrittenAppend(a[1..], b);
      var head := [Serialize(a[0]).value];
      assert Written(a + b) == head + Written(a[1..] + b);
      ConcatAssociative(head, Written(a[1..]), Written(b));
    }
  }

  /** Whether the device answers to `msg`: broadcast, its node id or its group id. */
  predicate Addressed(d: Settings, msg: UIMessage) {
    msg.deviceId in {GLOBAL_GROUP_ID, d.nodeId, d.groupId}
  }

  /** `handle_get_model`. */
  function GetModel(d: Settings, canBitrate: int): (o: Outcome)
    ensures o.canBitrate == canBitrate && |o.sent| <= 1
    ensures o.error == None <==> IsByte(d.nodeId)
    ensures o.error != None ==> o.error == Some(StructPackError) && o.sent == []
    ensures o.error == None ==> |o.sent| == 1
    ensures forall r <- o.sent :: r.deviceId == d.nodeId && r.functionCode == MODEL && r.data == MODEL_DATA
  {
    SendOutcome(canBitrate, NewMessage(d.nodeId, MODEL, MODEL_DATA))
  }

  /** `struct.pack('<LHH', serial_number, manufacturer_id, vendor_id)`. */
  function SerialNumberData(d: Settings): Result<seq<byte>, DeviceError> {
    if 0 <= d.serialNumber < Pow256(4) && 0 <= d.manufacturerId < Pow256(2) && 0 <= d.vendorId < Pow256(2) then
      Ok(LittleEndian(d.serialNumber, 4) + LittleEndian(d.manufacturerId, 2) + LittleEndian(d.vendorId, 2))
    else
      Err(StructPackError)
  }

  /** `handle_get_serial_number`. */
  function GetSerialNumber(d: Settings, canBitrate: int): (o: Outcome)
    ensures o.canBitrate == canBitrate && |o.sent| <= 1
    ensures o.error == None <==>
      IsByte(d.nodeId) && 0 <= d.serialNumber < Pow256(4) && 0 <= d.manufacturerId < Pow256(2) && 0 <= d.vendorId < Pow256(2)
    ensures o.error != None ==> o.error == Some(StructPackError) && o.sent == []
    ensures o.error == None ==> |o.sent| == 1
    ensures forall r <- o.sent :: r.deviceId == d.nodeId && r.functionCode == SERIAL_NUMBER && |r.data| == 8
  {
    match SerialNumberData(d)
    case Err(e) => Outcome(canBitrate, [], Some(e))
    case Ok(data) => SendOutcome(canBitrate, NewMessage(d.nodeId, SERIAL_NUMBER, data))
  }

  /**
   * `handle_protocol_parameter`: only the CAN bitrate (index 5) is served.
   * A write stores the new value before checking that it names a bitrate;
   * read or write, the reply carries the value held afterwards.
   */
  function ProtocolParameter(d: Settings, canBitrate: int, msg: UIMessage): (o: Outcome)
    ensures |o.sent| <= 1 && (o.error != None ==> o.sent == [])
    ensures o.error == Some(IndexError) <==> msg.data == []
    ensures o.error == Some(ValueError) <==>
      |msg.data| > 1 && msg.data[0] == CAN_BITRATE && !IsCanBitrate(msg.data[1])
    ensures o.canBitrate == if |msg.data| > 1 && msg.data[0] == CAN_BITRATE then msg.data[1] else canBitrate
    ensures o.sent != [] ==> msg.data[0] == CAN_BITRATE
    ensures |msg.data| > 0 && msg.data[0] == CAN_BITRATE && o.error == None ==> |o.sent| == 1
    ensures |msg.data| > 0 && msg.data[0] != CAN_BITRATE ==> o == Quiet(canBitrate)
    ensures forall r <- o.sent :: r.deviceId == d.nodeId && r.functionCode == PROTOCOL_PARAMETER && r.data == [CAN_BITRATE, o.canBitrate]
  {
    if |msg.data| == 0 then Outcome(canBitrate, [], Some(IndexError))
    else if msg.data[0] != CAN_BITRATE then Quiet(canBitrate)
    else
      var rate := if |msg.data| > 1 then msg.data[1] else canBitrate;
      if |msg.data| > 1 && !IsCanBitrate(rate) then Outcome(rate, [], Some(ValueError))
      else if !IsByte(rate) then Outcome(rate, [], Some(StructPackError))
      else SendOutcome(rate, NewMessage(d.nodeId, PROTOCOL_PARAMETER, [CAN_BITRATE, rate]))
  }

  /** `handle_message`: the whole effect of one request. */
  function Handle(d: Settings, canBitrate: int, msg: UIMessage): (o: Outcome)
    ensures |o.sent| <= 1
    ensures forall r <- o.sent :: r.deviceId == d.nodeId && r.needChecksum && !r.needAck && Serializable(r)
    ensures o.error.Some? ==> o.sent == []
    ensures !Addressed(d, msg) ==> o == Quiet(canBitrate)
    ensures o.canBitrate != canBitrate ==>
      msg.functionCode == PROTOCOL_PARAMETER && |msg.data| > 1 && msg.data[0] == CAN_BITRATE &&
      o.canBitrate == msg.data[1]
  {
    if !Addressed(d, msg) then Quiet(canBitrate)
    else if msg.functionCode == MODEL && msg.needAck then GetModel(d, canBitrate)
    else if msg.functionCode == SERIAL_NUMBER && msg.needAck then GetSerialNumber(d, canBitrate)
    else if msg.functionCode == PROTOCOL_PARAMETER then ProtocolParameter(d, canBitrate, msg)
    else Quiet(canBitrate)
  }

  /** GET MODEL with acknowledge answers with the fixed model record from the device's node id. */
  lemma ModelReply(d: Settings, canBitrate: int, msg: UIMessage)
    requires Addressed(d, msg) && msg.functionCode == MODEL && msg.needAck && IsByte(d.nodeId)
    ensures Handle(d, canBitrate, msg) ==
      Outcome(canBitrate, [UIMessage(d.nodeId, MODEL, MODEL_DATA, true, false, 0, 0)], None)
  {
  }

  /** GET SERIAL NUMBER with acknowledge answers with serial number, manufacturer and vendor, each little-endian. */
  lemma SerialNumberReply(d: Settings, canBitrate: int, msg: UIMessage)
    requires Addressed(d, msg) && msg.functionCode == SERIAL_NUMBER && msg.needAck && IsByte(d.nodeId)
    requires 0 <= d.serialNumber < Pow256(4) && 0 <= d.manufacturerId < Pow256(2) && 0 <= d.vendorId < Pow256(2)
    ensures var o := Handle(d, canBitrate, msg);
      && o.canBitrate == canBitrate && o.error == None && |o.sent| == 1
      && o.sent[0].functionCode == SERIAL_NUMBER && |o.sent[0].data| == 8
      && FromLittleEndian(o.sent[0].data[..4]) == d.serialNumber
      && FromLittleEndian(o.sent[0].data[4..6]) == d.manufacturerId
      && FromLittleEndian(o.sent[0].data[6..]) == d.vendorId
  {
    var data := Handle(d, canBitrate, msg).sent[0].data;
    assert data[..4] == LittleEndian(d.serialNumber, 4);
    assert data[4..6] == LittleEndian(d.manufacturerId, 2);
    assert data[6..] == LittleEndian(d.vendorId, 2);
    FromLittleEndianInverse(d.serialNumber, 4);
    FromLittleEndianInverse(d.manufacturerId, 2);
    FromLittleEndianInverse(d.vendorId, 2);
  }

  /** A bitrate write stores `data[1]`; a valid one is echoed back, an invalid one raises before any reply. */
  lemma BitrateWrite(d: Settings, canBitrate: int, msg: UIMessage)
    requires Addressed(d, msg) && msg.functionCode == PROTOCOL_PARAMETER && IsByte(d.nodeId)
    requires |msg.data| > 1 && msg.data[0] == CAN_BITRATE
    ensures var o := Handle(d, canBitrate, msg);
      && o.canBitrate == msg.data[1]
      && (IsCanBitrate(msg.data[1]) ==>
            o.sent == [NewMessage(d.nodeId, PROTOCOL_PARAMETER, [CAN_BITRATE, msg.data[1]])] && o.error == None)
      && (!IsCanBitrate(msg.data[1]) ==> o.sent == [] && o.error == Some(ValueError))
  {
  }

  /** A bitrate read leaves the bitrate alone and reports it. */
  lemma BitrateRead(d: Settings, canBitrate: int, msg: UIMessage)
    requires Addressed(d, msg) && msg.functionCode == PROTOCOL_PARAMETER && IsByte(d.nodeId) && IsByte(canBitrate)
    requires msg.data == [CAN_BITRATE]
    ensures Handle(d, canBitrate, msg) ==
      Outcome(canBitrate, [NewMessage(d.nodeId, PROTOCOL_PARAMETER, [CAN_BITRATE, canBitrate])], None)
  {
  }

  /** Requests the device does not serve send nothing and change nothing. */
  lemma Unserved(d: Settings, canBitrate: int, msg: UIMessage)
    requires
      || (msg.functionCode == PROTOCOL_PARAMETER && |msg.data| > 0 && msg.data[0] != CAN_BITRATE)
      || (msg.functionCode in {MODEL, SERIAL_NUMBER} && !msg.needAck)
      || msg.functionCode !in {MODEL, SERIAL_NUMBER, PROTOCOL_PARAMETER}
    ensures Handle(d, canBitrate, msg) == Quiet(canBitrate)
  {
  }

  /** A protocol-parameter request without data fails at `data[0]` and changes nothing. */
  lemma EmptyProtocolParameter(d: Settings, canBitrate: int, msg: UIMessage)
    requires Addressed(d, msg) && msg.functionCode == PROTOCOL_PARAMETER && msg.data == []
    ensures Handle(d, canBitrate, msg) == Outcome(canBitrate, [], Some(IndexError))
  {
  }

  class SimUIGateway {
    const nodeId: int
    const groupId: int
    var canBitrate: int
    const serialNumber: int
    const manufacturerId: int
    const vendorId: int

    /** `__init__`; an absent group id means the node id. */
    constructor (nodeId: int, groupId: Option<int>, canBitrate: int, serialNumber: int,
                 manufacturerId: int, vendorId: int)
      ensures this.nodeId == nodeId && this.groupId == (if groupId.Some? then groupId.value else nodeId)
      ensures this.canBitrate == canBitrate && this.serialNumber == serialNumber
      ensures this.manufacturerId == manufacturerId && this.vendorId == vendorId
    {
      this.nodeId := nodeId;
      this.groupId := if groupId.Some? then groupId.value else nodeId;
      this.canBitrate := canBitrate;
      this.serialNumber, this.manufacturerId, this.vendorId := serialNumber, manufacturerId, vendorId;
    }

    function Config(): Settings {
      Settings(nodeId, groupId, serialNumber, manufacturerId, vendorId)
    }

    method SendMessage(transport: Sink, msg: UIMessage) returns (err: Option<DeviceError>)
      modifies transport
      ensures err == if Serializable(msg) then None else Some(StructPackError)
      ensures transport.written == old(transport.written) + if Serializable(msg) then [Serialize(msg).value] else []
    {
      match Serialize(msg)
      case Err(_) =>
        err := Some(StructPackError);
      case Ok(packet) =>
        transport.Write(packet);
        err := None;
    }

    method HandleGetModel(transport: Sink) returns (err: Option<DeviceError>)
      modifies transport
      ensures var o := GetModel(Config(), canBitrate);
        err == o.error && transport.written == old(transport.written) + Written(o.sent)
    {
      err := SendMessage(transport, NewMessage(nodeId, MODEL, MODEL_DATA));
    }

    method HandleGetSerialNumber(transport: Sink) returns (err: Option<DeviceError>)
      modifies transport
      ensures var o := GetSerialNumber(Config(), canBitrate);
        err == o.error && transport.written == old(transport.written) + Written(o.sent)
    {
      match SerialNumberData(Config())
      case Err(e) =>
        err := Some(e);
      case Ok(data) =>
        err := SendMessage(transport, NewMessage(nodeId, SERIAL_NUMBER, data));
    }

    method HandleProtocolParameter(transport: Sink, msg: UIMessage) returns (err: Option<DeviceError>)
      modifies this, transport
      ensures var o := ProtocolParameter(Config(), old(canBitrate), msg);
        && canBitrate == o.canBitrate && err == o.error
        && transport.written == old(transport.written) + Written(o.sent)
    {
      if |msg.data| == 0 {
        return Some(IndexError);
      }
      var param := msg.data[0];
      var isWrite := |msg.data| > 1;
      if param == CAN_BITRATE {
        if isWrite {
          canBitrate := msg.data[1];
          if !IsCanBitrate(canBitrate) {
            return Some(ValueError);
          }
        }
        if !IsByte(canBitrate) {
          return Some(StructPackError);
        }
        err := SendMessage(transport, NewMessage(nodeId, PROTOCOL_PARAMETER, [CAN_BITRATE, canBitrate]));
        return;
      }
      err := None;
    }

    method HandleMessage(transport: Sink, msg: UIMessage) returns (err: Option<DeviceError>)
      modifies this, transport
      ensures var o := Handle(Config(), old(canBitrate), msg);
        && canBitrate == o.canBitrate && err == o.error
        && transport.written == old(transport.written) + Written(o.sent)
    {
      if msg.deviceId !in {GLOBAL_GROUP_ID, nodeId, groupId} {
        return None;
      }
      if msg.functionCode == MODEL && msg.needAck {
        err := HandleGetModel(transport);
        return;
      }
      if msg.functionCode == SERIAL_NUMBER && msg.needAck {
        err := HandleGetSerialNumber(transport);
        return;
      }
      if msg.functionCode == PROTOCOL_PARAMETER {
        err := HandleProtocolParameter(transport, msg);
        return;
      }
      err := None;
    }
  }
}
