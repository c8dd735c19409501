/**
 * The TCP-to-CAN bridge: packets from TCP clients pass the checksum gate,
 * are handed to the local simulated gateway and are then forwarded to the
 * CAN bus as SimpleCAN3.0 frames; frames from the bus are translated back
 * and written to every connected client.  The bus is the log of frames
 * sent, each client a Sink.
 */
module Bridge {
  import opened Wrappers
  import opened Bytes
  import opened UIMessageCodec
  import opened SimpleCan
  import opened Constants
  import opened Device
  import opened Transport
  import Crc

  /** A CAN frame as the CAN library's message object carries it. */
  datatype CanFrame = CanFrame(arbitrationId: int, isExtended: bool, dlc: int, data: seq<byte>)

  /** Producer id of the bridge variant that speaks for the "user master controller". */
  const MASTER_PRODUCER_ID := 4

  datatype BridgeError =
    | DlcOutOfRange               // the `0 <= dlc <= 8` assertion on an inbound frame
    | DecodeFailed(codec: CodecError)
    | DeviceFailed(device: DeviceError)

  /** Python's `s[:n]` for `n >= 0`. */
  function Prefix(s: seq<byte>, n: nat): (r: seq<byte>)
    ensures |r| <= |s| && |r| <= n && r == s[..|r|]
    ensures n <= |s| ==> |r| == n
    ensures n >= |s| ==> r == s
  {
    if n <= |s| then s[..n] else s
  }

  /** A frame the bridge may put on the bus: extended identifier, at most 8 data bytes, dlc matching. */
  predicate WellFormedFrame(f: CanFrame) {
    f.isExtended && 0 <= f.arbitrationId < EXTENDED_ID_LIMIT && f.dlc == |f.data| <= 8
  }

  /** `on_can_message`'s translation: the producer becomes the device id, the control word splits into acknowledge bit and function code. */
  function Inbound(frame: CanFrame): (r: Result<UIMessage, BridgeError>)
    ensures r.Ok? <==> 0 <= frame.dlc <= 8
    ensures r.Ok? ==> Serializable(r.value) && r.value.needChecksum && |r.value.data| <= 8
  {
    if !(0 <= frame.dlc <= 8) then Err(DlcOutOfRange)
    else
      var id := FromArbitrationId(frame.arbitrationId);
      Ok(UIMessage(id.producerId, id.controlWord % 0x80, Prefix(frame.data, frame.dlc),
                   true, id.controlWord >= 0x80, 0, 0))
  }

  /** The frame `tcp_server` sends for `msg`: producer, consumer `device_id`, control `(need_ack << 7) | function_code`. */
  function Outbound(producerId: int, msg: UIMessage): (f: CanFrame)
    ensures f.isExtended && 0 <= f.arbitrationId < EXTENDED_ID_LIMIT
    ensures f.data == msg.data && f.dlc == |msg.data|
    ensures |msg.data| <= 8 ==> WellFormedFrame(f)
  {
    var id := Identifier(producerId, msg.deviceId, ControlWord(msg.needAck, msg.functionCode));
    CanFrame(ArbitrationId(id), true, |msg.data|, msg.data)
  }

  /** The identifier of an outbound frame decodes to the low bits of producer, device id and control word. */
  lemma OutboundIdentifier(producerId: int, msg: UIMessage)
    ensures FromArbitrationId(Outbound(producerId, msg).arbitrationId) ==
      Identifier(producerId % 0x80, msg.deviceId % 0x80, ControlWord(msg.needAck, msg.functionCode) % 0x100)
  {
    var id := Identifier(producerId, msg.deviceId, ControlWord(msg.needAck, msg.functionCode));
    PackIgnoresHighBits(id);
    UnpackPack(Identifier(producerId % 0x80, msg.deviceId % 0x80, ControlWord(msg.needAck, msg.functionCode) % 0x100));
  }

  /** Inbound translation of a frame whose identifier decodes to `producerId`, `consumerId`, `controlWord`. */
  lemma InboundFields(frame: CanFrame, producerId: int, consumerId: int, controlWord: int)
    requires 0 <= frame.dlc <= 8
    requires FromArbitrationId(frame.arbitrationId) == Identifier(producerId, consumerId, controlWord)
    ensures Inbound(frame) == Ok(UIMessage(producerId, controlWord % 0x80, Prefix(frame.data, frame.dlc),
                                          true, controlWord >= 0x80, 0, 0))
  {
  }

  /** Frames sent by the master-controller variant carry producer 4 and the message's own fields. */
  lemma MasterOutbound(msg: UIMessage)
    requires 0 <= msg.deviceId < 0x80 && 0 <= msg.functionCode < 0x80 && |msg.data| <= 8
    ensures var f := Outbound(MASTER_PRODUCER_ID, msg);
      && WellFormedFrame(f) && f.data == msg.data
      && FromArbitrationId(f.arbitrationId) ==
           Identifier(MASTER_PRODUCER_ID, msg.deviceId, (if msg.needAck then 0x80 else 0) + msg.functionCode)
  {
    var cw := ControlWord(msg.needAck, msg.functionCode);
    ControlWordOfFunctionCode(msg.needAck, msg.functionCode);
    DivMod(0, msg.deviceId, 0x80);
    DivMod(0, cw, 0x100);
    DivMod(0, MASTER_PRODUCER_ID, 0x80);
    assert msg.deviceId % 0x80 == msg.deviceId && cw % 0x100 == cw && MASTER_PRODUCER_ID % 0x80 == MASTER_PRODUCER_ID;
    OutboundIdentifier(MASTER_PRODUCER_ID, msg);
    assert FromArbitrationId(Outbound(MASTER_PRODUCER_ID, msg).arbitrationId) == Identifier(MASTER_PRODUCER_ID, msg.deviceId, cw);
  }

  /** Frames forwarded by the module's UIM2523 gateway name node 2 as their producer. */
  lemma GatewayProducer(msg: UIMessage)
    ensures FromArbitrationId(Outbound(UIM2523_NODE_ID, msg).arbitrationId).producerId == UIM2523_NODE_ID
  {
    OutboundIdentifier(UIM2523_NODE_ID, msg);
  }

  /** Reading back a frame the bridge sent recovers function code, acknowledge bit and data; the device id becomes the producer. */
  lemma Loopback(producerId: int, msg: UIMessage)
    requires 0 <= producerId < 0x80 && 0 <= msg.functionCode < 0x80 && |msg.data| <= 8
    ensures Inbound(Outbound(producerId, msg)) ==
      Ok(UIMessage(producerId, msg.functionCode, msg.data, true, msg.needAck, 0, 0))
  {
    var cw := ControlWord(msg.needAck, msg.functionCode);
    ControlWordOfFunctionCode(msg.needAck, msg.functionCode);
    OutboundIdentifier(producerId, msg);
    DivMod(0, producerId, 0x80);
    DivMod(0, cw, 0x100);
    DivMod(if msg.needAck then 1 else 0, msg.functionCode, 0x80);
    var f := Outbound(producerId, msg);
    assert FromArbitrationId(f.arbitrationId) == Identifier(producerId, msg.deviceId % 0x80, cw);
    assert cw % 0x80 == msg.functionCode && (cw >= 0x80) == msg.needAck;
    assert Prefix(f.data, f.dlc) == msg.data;
    InboundFields(f, producerId, msg.deviceId % 0x80, cw);
    assert UIMessage(producerId, cw % 0x80, Prefix(f.data, f.dlc), true, cw >= 0x80, 0, 0) ==
      UIMessage(producerId, msg.functionCode, msg.data, true, msg.needAck, 0, 0);
  }

  /** The per-packet result of `tcp_server`'s loop body. */
  datatype Status = Forwarded | Dropped | Failed(error: BridgeError)

  datatype PacketOutcome = PacketOutcome(canBitrate: int, sent: seq<UIMessage>, frames: seq<CanFrame>, status: Status)

  /**
   * One packet: decode it, drop it if it fails the checksum, hand it to
   * the local gateway `d`, then forward it with `d`'s node id as producer.
   * An exception in decoding or in the gateway ends the loop there.
   */
  function ProcessPacket(d: Settings, canBitrate: int, packet: seq<byte>): (o: PacketOutcome)
    ensures forall m <- o.sent :: Serializable(m)
  {
    match Deserialize(packet)
    case Err(e) => PacketOutcome(canBitrate, [], [], Failed(DecodeFailed(e)))
    case Ok(msg) =>
      if !ChecksumAccepted(packet, msg.needChecksum, msg.checksum) then
        PacketOutcome(canBitrate, [], [], Dropped)
      else
        var h := Handle(d, canBitrate, msg);
        if h.error.Some? then PacketOutcome(h.canBitrate, h.sent, [], Failed(DeviceFailed(h.error.value)))
        else PacketOutcome(h.canBitrate, h.sent, [Outbound(d.nodeId, msg)], Forwarded)
  }

  /**
   * At most one frame per packet, and only for a forwarded one; only a
   * 16-byte packet gets past `struct.unpack`; a packet is dropped exactly
   * when it decodes but fails the checksum gate, and a dropped packet
   * changes nothing.
   */
  lemma PacketOutcomes(d: Settings, canBitrate: int, packet: seq<byte>)
    ensures var o := ProcessPacket(d, canBitrate, packet);
      && |o.frames| <= 1 && (o.frames != [] <==> o.status == Forwarded)
      && (forall f <- o.frames :: WellFormedFrame(f))
      && (o.status != Failed(DecodeFailed(StructError)) ==> |packet| == PACKET_LENGTH)
      && (o.status == Dropped <==>
          Deserialize(packet).Ok? &&
          !ChecksumAccepted(packet, Deserialize(packet).value.needChecksum, Deserialize(packet).value.checksum))
      && (o.status == Dropped ==> o.canBitrate == canBitrate && o.sent == [])
      && (o.status == Forwarded ==>
          Deserialize(packet).Ok? && o.frames == [Outbound(d.nodeId, Deserialize(packet).value)])
  {
  }

  /** An accepted packet is forwarded to the bus even when the local gateway is not addressed. */
  lemma ForwardedWhateverAddress(d: Settings, canBitrate: int, packet: seq<byte>)
    requires Deserialize(packet).Ok?
    requires var m := Deserialize(packet).value; ChecksumAccepted(packet, m.needChecksum, m.checksum) && !Addressed(d, m)
    ensures ProcessPacket(d, canBitrate, packet) ==
      PacketOutcome(canBitrate, [], [Outbound(d.nodeId, Deserialize(packet).value)], Forwarded)
  {
  }

  /** A correctly serialized message from a client is forwarded with its own data. */
  lemma SerializedIsForwarded(d: Settings, canBitrate: int, m: UIMessage)
    requires Serializable(m) && 0 <= m.functionCode < 0x80 && |m.data| <= 8
    requires Handle(d, canBitrate, m.(checksum := StampedChecksum(m))).error == None
    ensures var o := ProcessPacket(d, canBitrate, Serialize(m).value);
      o.status == Forwarded && o.frames[0].data == m.data && o.frames[0].dlc == |m.data|
  {
    RoundTrip(m);
    SerializedPassesGate(m);
  }

  datatype SessionOutcome = SessionOutcome(canBitrate: int, sent: seq<UIMessage>, frames: seq<CanFrame>, error: Option<BridgeError>)

  /** `tcp_server`'s read loop over the packets a client sends; an empty read, or the end of the chunks read, closes it. */
  function RunSession(d: Settings, canBitrate: int, chunks: seq<seq<byte>>): (o: SessionOutcome)
    ensures forall m <- o.sent :: Serializable(m)
    decreases |chunks|, 1
  {
    if chunks == [] || chunks[0] == [] then SessionOutcome(canBitrate, [], [], None)
    else ReadPacket(d, canBitrate, chunks[0], chunks[1..])
  }

  /** The loop body on one packet read, then the rest of the session unless the packet raised. */
  function ReadPacket(d: Settings, canBitrate: int, packet: seq<byte>, more: seq<seq<byte>>): (o: SessionOutcome)
    ensures forall m <- o.sent :: Serializable(m)
    decreases |more| + 1, 0
  {
    var p := ProcessPacket(d, canBitrate, packet);
    if p.status.Failed? then SessionOutcome(p.canBitrate, p.sent, [], Some(p.status.error))
    else
      var rest := RunSession(d, p.canBitrate, more);
      SessionOutcome(rest.canBitrate, p.sent + rest.sent, p.frames + rest.frames, rest.error)
  }

  /** A decodable packet with start byte 0xAC or 0xAD is never dropped by the gate, whatever its checksum field. */
  lemma UncheckedNeverDropped(d: Settings, canBitrate: int, packet: seq<byte>)
    requires Deserialize(packet).Ok? && packet[0] != SOM_CHECKSUM
    ensures ProcessPacket(d, canBitrate, packet).status != Dropped
  {
    PacketOutcomes(d, canBitrate, packet);
    var m := Deserialize(packet).value;
    UncheckedStartPassesGate(packet, m.checksum);
  }

  /**
   * The checksum gate at work: a checksummed packet with any one body byte
   * (device id through auxiliary byte) changed and its checksum field kept
   * is dropped, unless it no longer decodes at all.
   */
  lemma CorruptedPacketDropped(d: Settings, canBitrate: int, m: UIMessage, k: nat, b: byte)
    requires Serializable(m) && m.needChecksum
    requires 1 <= k < 13 && b != Serialize(m).value[k]
    ensures var q := Serialize(m).value[k := b];
      Deserialize(q).Err? || ProcessPacket(d, canBitrate, q).status == Dropped
  {
    var p := Serialize(m).value;
    var q := p[k := b];
    if Deserialize(q).Ok? {
      assert q[1..13] == p[1..k] + [b] + p[k + 1..13];
      assert p[1..13] == p[1..k] + [p[k]] + p[k + 1..13];
      Crc.SingleByteChangeDetected(p[1..k], b, p[k], p[k + 1..13]);
      assert q[13..15] == p[13..15];
      PacketOutcomes(d, canBitrate, q);
    }
  }

  /** A session puts only well-formed frames on the bus, at most one per packet read. */
  lemma {:induction false} SessionFrames(d: Settings, canBitrate: int, chunks: seq<seq<byte>>)
    ensures var o := RunSession(d, canBitrate, chunks);
      (forall f <- o.frames :: WellFormedFrame(f)) && |o.frames| <= |chunks|
    decreases |chunks|
  {
    if chunks != [] && chunks[0] != [] {
      assert RunSession(d, canBitrate, chunks) == ReadPacket(d, canBitrate, chunks[0], chunks[1..]);
      var p := ProcessPacket(d, canBitrate, chunks[0]);
      PacketOutcomes(d, canBitrate, chunks[0]);
      if !p.status.Failed? {
        SessionFrames(d, p.canBitrate, chunks[1..]);
      }
    }
  }

  /** One read of the session loop: the first packet's outcome followed by the rest of the session, unless it failed. */
  lemma SessionStep(d: Settings, canBitrate: int, chunks: seq<seq<byte>>)
    requires chunks != [] && chunks[0] != []
    ensures var p := ProcessPacket(d, canBitrate, chunks[0]);
      var o := RunSession(d, canBitrate, chunks);
      if p.status.Failed? then
        p.frames == [] && o == SessionOutcome(p.canBitrate, p.sent, [], Some(p.status.error))
      else
        var rest := RunSession(d, p.canBitrate, chunks[1..]);
        o == SessionOutcome(rest.canBitrate, p.sent + rest.sent, p.frames + rest.frames, rest.error)
  {
    assert RunSession(d, canBitrate, chunks) == ReadPacket(d, canBitrate, chunks[0], chunks[1..]);
  }

  /** The loop invariant of `Serve` carried over one packet read from `chunks[i]`. */
  lemma SessionAdvance(d: Settings, canBitrate: int, chunks: seq<seq<byte>>, i: nat,
                       sent: seq<UIMessage>, frames: seq<CanFrame>, whole: SessionOutcome)
    requires i < |chunks| && chunks[i] != []
    requires var rest := RunSession(d, canBitrate, chunks[i..]);
      whole == SessionOutcome(rest.canBitrate, sent + rest.sent, frames + rest.frames, rest.error)
    ensures var p := ProcessPacket(d, canBitrate, chunks[i]);
      if p.status.Failed? then
        whole == SessionOutcome(p.canBitrate, sent + p.sent, frames + p.frames, Some(p.status.error))
      else
        var rest := RunSession(d, p.canBitrate, chunks[i + 1..]);
        whole == SessionOutcome(rest.canBitrate, (sent + p.sent) + rest.sent, (frames + p.frames) + rest.frames, rest.error)
  {
    assert chunks[i..][0] == chunks[i] && chunks[i..][1..] == chunks[i + 1..];
    SessionStep(d, canBitrate, chunks[i..]);
    var p := ProcessPacket(d, canBitrate, chunks[i]);
    if p.status.Failed? {
      assert frames + p.frames == frames + [];
    } else {
      var rest := RunSession(d, p.canBitrate, chunks[i + 1..]);
      ConcatAssociative(sent, p.sent, rest.sent);
      ConcatAssociative(frames, p.frames, rest.frames);
    }
  }

  /** A transport log that grows by the packets of `b` after those of `a`. */
  lemma LogAppend(log: seq<seq<byte>>, a: seq<UIMessage>, b: seq<UIMessage>)
    requires forall m <- a :: Serializable(m)
    requires forall m <- b :: Serializable(m)
    ensures (log + Written(a)) + Written(b) == log + Written(a + b)
  {
    WrittenAppend(a, b);
  }

  /** Python's `list.remove`: drop the first occurrence. */
  function RemoveFirst<T(==)>(s: seq<T>, x: T): (r: seq<T>)
    requires x in s
    ensures |r| == |s| - 1
  {
    if s[0] == x then s[1..] else [s[0]] + RemoveFirst(s[1..], x)
  }

  /** `list.remove` takes away exactly one copy of the element and nothing else. */
  lemma {:induction false} RemoveFirstMultiset<T>(s: seq<T>, x: T)
    requires x in s
    ensures multiset(RemoveFirst(s, x)) == multiset(s) - multiset{x}
  {
    assert s == [s[0]] + s[1..];
    if s[0] != x {
      RemoveFirstMultiset(s[1..], x);
    }
  }

  /** `list.remove` drops exactly the first occurrence: what comes before it and after it is kept, in order. */
  lemma {:induction false} RemoveFirstAt<T>(s: seq<T>, x: T, i: nat)
    requires i < |s| && s[i] == x && x !in s[..i]
    ensures RemoveFirst(s, x) == s[..i] + s[i + 1..]
  {
    if i == 0 {
      assert s[..0] + s[1..] == s[1..];
    } else {
      var t := s[1..];
      assert s[0] != x by { assert s[0] == s[..i][0]; }
      assert x !in t[..i - 1] by { assert t[..i - 1] == s[..i][1..]; }
      RemoveFirstAt(t, x, i - 1);
      assert RemoveFirst(s, x) == [s[0]] + (t[..i - 1] + t[i..]);
      assert s[..i] + s[i + 1..] == [s[0]] + (t[..i - 1] + t[i..]) by {
        assert t[..i - 1] == s[1..i] && t[i..] == s[i + 1..];
        assert s[..i] == [s[0]] + s[1..i];
      }
    }
  }

  /** Removing a writer that was appended to a list not holding it restores the list. */
  lemma {:induction false} RemoveAppended<T>(s: seq<T>, x: T)
    requires x !in s
    ensures RemoveFirst(s + [x], x) == s
  {
    if s != [] {
      assert (s + [x])[1..] == s[1..] + [x];
      RemoveAppended(s[1..], x);
    }
  }

  predicate Distinct<T(==)>(s: seq<T>) {
    forall i, j :: 0 <= i < j < |s| ==> s[i] != s[j]
  }

  class Bridge {
    /** The local simulated gateway, whose node id is the producer of forwarded frames. */
    const gateway: SimUIGateway
    /** `tcp_sinks`: the writers of the connected clients. */
    var sinks: seq<Sink>
    /** The frames sent to the CAN bus. */
    var bus: seq<CanFrame>

    /** The module's start: a UIM2523 gateway at its reserved node id with default settings, no clients, nothing sent. */
    constructor ()
      ensures fresh(gateway) && gateway.Config() == Settings(UIM2523_NODE_ID, UIM2523_NODE_ID, DEFAULT_SERIAL_NUMBER,
                                                             DEFAULT_MANUFACTURER_ID, DEFAULT_VENDOR_ID)
      ensures gateway.canBitrate == DEFAULT_CAN_BITRATE && sinks == [] && bus == []
    {
      gateway := new SimUIGateway(UIM2523_NODE_ID, None, DEFAULT_CAN_BITRATE, DEFAULT_SERIAL_NUMBER,
                                  DEFAULT_MANUFACTURER_ID, DEFAULT_VENDOR_ID);
      sinks, bus := [], [];
    }

    /** `on_can_message`: translate the frame and write its serialization to every sink, in list order. */
    method OnCanMessage(frame: CanFrame) returns (err: Option<BridgeError>)
      requires Distinct(sinks)
      modifies set s <- sinks
      ensures Inbound(frame).Err? ==>
        err == Some(DlcOutOfRange) && forall s <- sinks :: s.written == old(s.written)
      ensures Inbound(frame).Ok? ==>
        err == None && forall s <- sinks :: s.written == old(s.written) + [Serialize(Inbound(frame).value).value]
    {
      match Inbound(frame)
      case Err(e) =>
        err := Some(e);
      case Ok(msg) =>
        for i := 0 to |sinks|
          invariant forall j :: 0 <= j < i ==> sinks[j].written == old(sinks[j].written) + [Serialize(msg).value]
          invariant forall j :: i <= j < |sinks| ==> sinks[j].written == old(sinks[j].written)
        {
          sinks[i].Write(Serialize(msg).value);
        }
        err := None;
    }

    /** A client connects: its writer joins `tcp_sinks`. */
    method Connect(writer: Sink)
      requires Distinct(sinks) && writer !in sinks
      modifies this`sinks
      ensures Distinct(sinks) && sinks == old(sinks) + [writer]
    {
      sinks := sinks + [writer];
    }

    /** The handler exits: its writer leaves `tcp_sinks`. */
    method Disconnect(writer: Sink)
      requires writer in sinks
      modifies this`sinks
      ensures sinks == RemoveFirst(old(sinks), writer)
    {
      var i := 0;
      while sinks[i] != writer
        invariant 0 <= i < |sinks| && writer !in sinks[..i] && writer in sinks[i..]
        decreases |sinks| - i
      {
        assert sinks[..i + 1] == sinks[..i] + [sinks[i]];
        assert sinks[i..] == [sinks[i]] + sinks[i + 1..];
        i := i + 1;
      }
      RemoveFirstAt(sinks, writer, i);
      sinks := sinks[..i] + sinks[i + 1..];
    }

    /** One iteration of `tcp_server`'s loop for a packet read from `writer`'s client. */
    method HandlePacket(writer: Sink, packet: seq<byte>) returns (status: Status)
      modifies gateway, writer, this`bus
      ensures var o := ProcessPacket(gateway.Config(), old(gateway.canBitrate), packet);
        && gateway.canBitrate == o.canBitrate && status == o.status
        && writer.written == old(writer.written) + Written(o.sent)
        && bus == old(bus) + o.frames
    {
      match Deserialize(packet)
      case Err(e) =>
        return Failed(DecodeFailed(e));
      case Ok(msg) =>
        if msg.needChecksum {
          var crc := Crc.ComputeCrc16(packet[1..13]);
          if crc != msg.checksum {
            return Dropped;
          }
        }
        var err := gateway.HandleMessage(writer, msg);
        if err.Some? {
          return Failed(DeviceFailed(err.value));
        }
        var id := Identifier(gateway.nodeId, msg.deviceId, ControlWord(msg.needAck, msg.functionCode));
        bus := bus + [CanFrame(ArbitrationId(id), true, |msg.data|, msg.data)];
        status := Forwarded;
    }

    /**
     * One pass of `tcp_server`'s loop on the read `chunks[i]`: `HandlePacket`,
     * and where it leaves the session (`whole`) that had sent `sent` and
     * `frames` before this read.
     */
    method ReadOne(writer: Sink, chunks: seq<seq<byte>>, i: nat, ghost d: Settings,
                   ghost sent: seq<UIMessage>, ghost frames: seq<CanFrame>, ghost whole: SessionOutcome)
        returns (status: Status, ghost p: PacketOutcome)
      requires i < |chunks| && chunks[i] != [] && d == gateway.Config()
      requires var rest := RunSession(d, gateway.canBitrate, chunks[i..]);
        whole == SessionOutcome(rest.canBitrate, sent + rest.sent, frames + rest.frames, rest.error)
      modifies gateway, writer, this`bus
      ensures forall m <- p.sent :: Serializable(m)
      ensures writer.written == old(writer.written) + Written(p.sent) && bus == old(bus) + p.frames
      ensures status == p.status && gateway.canBitrate == p.canBitrate
      ensures status.Failed? ==>
        whole == SessionOutcome(p.canBitrate, sent + p.sent, frames + p.frames, Some(status.error))
      ensures !status.Failed? ==>
        var rest := RunSession(d, p.canBitrate, chunks[i + 1..]);
        whole == SessionOutcome(rest.canBitrate, (sent + p.sent) + rest.sent, (frames + p.frames) + rest.frames, rest.error)
    {
      p := ProcessPacket(d, gateway.canBitrate, chunks[i]);
      SessionAdvance(d, gateway.canBitrate, chunks, i, sent, frames, whole);
      status := HandlePacket(writer, chunks[i]);
    }

    /** `tcp_server`'s read loop for one client whose reads return `chunks` in turn. */
    method ReadLoop(writer: Sink, chunks: seq<seq<byte>>) returns (err: Option<BridgeError>)
      modifies gateway, writer, this`bus
      ensures var o := RunSession(gateway.Config(), old(gateway.canBitrate), chunks);
        && gateway.canBitrate == o.canBitrate && err == o.error
        && writer.written == old(writer.written) + Written(o.sent)
        && bus == old(bus) + o.frames
    {
      ghost var d := gateway.Config();
      ghost var whole := RunSession(d, old(gateway.canBitrate), chunks);
      ghost var sent: seq<UIMessage> := [];
      ghost var frames: seq<CanFrame> := [];
      var i := 0;
      err := None;
      while i < |chunks| && chunks[i] != []
        invariant 0 <= i <= |chunks|
        invariant forall m <- sent :: Serializable(m)
        invariant writer.written == old(writer.written) + Written(sent) && bus == old(bus) + frames
        invariant var rest := RunSession(d, gateway.canBitrate, chunks[i..]);
          whole == SessionOutcome(rest.canBitrate, sent + rest.sent, frames + rest.frames, rest.error)
        decreases |chunks| - i
      {
        var status, p := ReadOne(writer, chunks, i, d, sent, frames, whole);
        LogAppend(old(writer.written), sent, p.sent);
        ConcatAssociative(old(bus), frames, p.frames);
        sent, frames := sent + p.sent, frames + p.frames;
        if status.Failed? {
          err := Some(status.error);
          break;
        }
        i := i + 1;
      }
      assert err == whole.error && sent == whole.sent && frames == whole.frames && gateway.canBitrate == whole.canBitrate by {
        if err.None? {
          assert chunks[i..] == [] || chunks[i..][0] == [];
        }
      }
      assert whole == RunSession(gateway.Config(), old(gateway.canBitrate), chunks);
    }

    /**
     * `tcp_server` for one client: the writer is in `tcp_sinks` while the read
     * loop runs and is removed when it ends, whether by an empty read or by an exception.
     */
    method Serve(writer: Sink, chunks: seq<seq<byte>>) returns (err: Option<BridgeError>)
      requires Distinct(sinks) && writer !in sinks
      modifies this, gateway, writer
      ensures sinks == old(sinks)
      ensures var o := RunSession(gateway.Config(), old(gateway.canBitrate), chunks);
        && gateway.canBitrate == o.canBitrate && err == o.error
        && writer.written == old(writer.written) + Written(o.sent)
        && bus == old(bus) + o.frames
    {
      Connect(writer);
      err := ReadLoop(writer, chunks);
      RemoveAppended(old(sinks), writer);
      Disconnect(writer);
    }
  }
}
