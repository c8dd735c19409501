# uir-gateway in Dafny

This project models the core of uir-gateway. uir-gateway emulates a UIROBOT
UIM2523 TCP-to-CAN gateway: TCP clients send 16-byte UIMessage packets. A
simulated gateway device answers some of them. Every accepted packet is also
forwarded to a CAN bus as a SimpleCAN3.0 extended frame, and frames from the
bus are translated back and written to every connected client.

Modules:

- `Bytes`, `Wrappers`, `Constants`, `Transport`: bytes, the little-endian
  layouts of Python's `struct`, Option/Result, the protocol numbers, and a
  transport seen as the log of what was written to it (`Sink`).
- `Crc`: the packet checksum, which is CRC-16/MODBUS. It is defined as a
  left fold (`Register`) and computed by the source's nested loop
  (`ComputeCrc16`). The check value for "123456789" is proved. The
  `crc16` of `uir_gateway.py` is the same loop and is modelled by the same
  members.
- `UIMessageCodec`: `UIMessage.serialize`/`deserialize` of
  `src/uir/uimessage.py`, with their round trips.
- `SimpleCan`: the SimpleCAN3.0 identifier packer of `src/uir/simplecan.py`
  (also duplicated in `src/uir/gateway.py`), with both inverse laws.
- `Device`: `SimUIGateway` as a class whose `canBitrate` changes in place.
  `Handle` is the function that specifies one request.
- `Bridge`: the TCP/CAN bridge of `src/uir/util/gateway.py`. It covers:
  - the inbound and outbound translations;
  - the checksum gate;
  - `tcp_sinks`;
  - the per-client read loop, as a class over the bus log and the sink list.
- `Legacy`: the single-file `uir_gateway.py`. It covers:
  - its codec, where `data_length` is a separate field and the checksum
    placeholder is 0xFFFF;
  - `UIDevice`;
  - the checksum gate and the device loop of `main`.

Python's unbounded integers are `int`. `x & (2^k-1)` and `x >> k` become
Euclidean `%` and `/`, which agree with Python for every integer. A
`struct.pack` field that does not fit its code is a `StructError` result.
Other raised exceptions are error values that end the loop they occur in.

## Model

| member | source | states |
|---|---|---|
| Crc.Crc16 | src/uir/uimessage.py:16-22 | the checksum is a 16-bit value, and 0xFFFF for empty input |
| Crc.RegisterSnoc | src/uir/uimessage.py:18-21 | one more input byte is one more XOR-and-eight-rounds step applied to the register |
| Crc.Crc16Snoc | src/uir/uimessage.py:18-21 | the checksum of `a + [b]` is one step from the checksum of `a` |
| Crc.RegisterTrace | src/uir/uimessage.py:18-21 | a register that steps through a trace, byte by byte, ends in the trace's last value |
| Crc.RegisterAppend | src/uir/uimessage.py:18-21 | feeding `a + t` is feeding `a`, then feeding `t` from the register `a` left |
| Crc.RegisterInjective | src/uir/uimessage.py:18-21 | two registers that end equal after the same input were equal before it: each XOR-and-eight-rounds step loses nothing |
| Crc.RegisterDetectsChange | src/uir/uimessage.py:16-22 | two inputs that differ in exactly one byte, anywhere, leave different registers |
| Crc.SingleByteChangeDetected | src/uir/uimessage.py:16-22 | two inputs that differ in exactly one byte, anywhere, have different checksums |
| Crc.CheckValue | src/uir/uimessage.py:16-22 | the checksum of ASCII "123456789" is 0x4B37, the CRC-16/MODBUS check value |
| Crc.ComputeCrc16 | src/uir/uimessage.py:16-22 | the in-place nested loop computes exactly the fold `Crc16` |
| Bytes.FromLittleEndianInverse | src/uir/uimessage.py:11 | decoding an `<H` field gives back every value below 2^16 |
| Bytes.LittleEndianInverse | src/uir/uimessage.py:11 | encoding the decoded value gives back every byte string |
| Bytes.ZeroPad8 | src/uir/uimessage.py:11 | an `8s` field is eight bytes: the data, cut or padded with zeros |
| UIMessageCodec.ControlWordOfFunctionCode | src/uir/uimessage.py:41 | for a 7-bit function code, `(need_ack << 7) \| code` is 0x80 or 0, plus the code |
| UIMessageCodec.Pack | src/uir/uimessage.py:36-47 | packing succeeds exactly when every field fits; the result is 16 bytes whose bytes 1..12 are the body |
| UIMessageCodec.Serialize | src/uir/uimessage.py:35-54 | fails exactly when a field or the stored checksum does not fit. A result is 16 bytes with start byte 0xAA or 0xAD, end byte 0xCC and the data length in byte 3. With `need_checksum`, bytes 13..14 are the CRC of bytes 1..12; without it they are the stored checksum |
| UIMessageCodec.Deserialize | src/uir/uimessage.py:57-90 | succeeds exactly for 16 bytes with a known start byte, end byte 0xCC and data length at most 8. A packet that is not 16 bytes is a struct error, and an unknown start byte is refused as such. Every field is read from its place: `need_checksum` exactly for start byte 0xAA, `need_ack` from bit 7 of the control word, a 7-bit function code that with `need_ack` rebuilds the control word, data cut to the length byte, and the little-endian checksum |
| UIMessageCodec.ChecksumAccepted | src/uir/util/gateway.py:74-76 | a packet that needs no checksum always passes; one that passes while needing a checksum carries the CRC of bytes 1..12 (its partner is `SerializedPassesGate`) |
| UIMessageCodec.UncheckedStartPassesGate | src/uir/uimessage.py:69-75 | a decodable packet with start byte 0xAC or 0xAD needs no checksum, and passes the gate whatever its checksum field holds |
| UIMessageCodec.RoundTrip | src/uir/uimessage.py:35-90 | decoding a serialized message gives it back, with the checksum that was written |
| UIMessageCodec.ReserializeCanonical | src/uir/uimessage.py:35-90 | a canonical packet (zero padding, valid checksum, start byte other than 0xAC) is reproduced byte for byte by decode-then-encode |
| UIMessageCodec.SerializedPassesGate | src/uir/util/gateway.py:74-76 | every serialized message passes the bridge's checksum gate |
| UIMessageCodec.OverlongDataIsRefused | src/uir/uimessage.py:42-72 | data longer than 8 bytes serializes with its true length, and `deserialize` then refuses it |
| SimpleCan.ArbitrationId | src/uir/simplecan.py:49-59 | the packed identifier fits 29 bits |
| SimpleCan.FromArbitrationId | src/uir/simplecan.py:61-72 | unpacked ids have 7 bits and the control word 8 |
| SimpleCan.FieldsRead | src/uir/simplecan.py:49-72 | each field of a packed value is read back by the shift and mask that `from_arbitration_id` uses |
| SimpleCan.ArbitrationIdLayout | src/uir/simplecan.py:20-38 | bits 8..13 and 18 stay clear, and the SID is the two five-bit low parts |
| SimpleCan.UnpackPack | src/uir/simplecan.py:49-72 | unpacking a packed identifier with in-range fields gives it back |
| SimpleCan.PackUnpack | src/uir/simplecan.py:49-72 | packing an unpacked 29-bit identifier with clear reserved bits gives it back |
| SimpleCan.PackIgnoresHighBits | src/uir/simplecan.py:49-59 | only the low 7 bits of each id and the low 8 of the control word reach the identifier |
| Transport.Sink.Write | src/uir/device.py:19-27 | a `send` or `write` appends exactly one packet to the transport's log |
| Device.Written | src/uir/device.py:47-54 | one packet is written per reply |
| Device.WrittenAppend | src/uir/device.py:47-54 | the packets of two reply sequences are the concatenation of their packets |
| Device.Handle | src/uir/device.py:56-87 | at most one reply, always from the node id, checksummed and serializable; no reply after an exception; an unaddressed message changes nothing; the bitrate changes only by a CAN-bitrate protocol-parameter write, to `data[1]` |
| Device.ModelReply | src/uir/device.py:90-100 | GET MODEL with ack answers with the fixed model record |
| Device.SerialNumberReply | src/uir/device.py:102-114 | GET SERIAL NUMBER with ack answers with serial number, manufacturer and vendor, each little-endian and each read back exactly |
| Device.BitrateWrite | src/uir/device.py:116-136 | a write stores `data[1]` before validating it; a valid value is echoed back; an invalid one raises ValueError with no reply |
| Device.BitrateRead | src/uir/device.py:116-136 | a read leaves the bitrate alone and reports it |
| Device.Unserved | src/uir/device.py:56-139 | other parameters, MODEL or SERIAL NUMBER without ack, and other function codes send nothing and change nothing |
| Device.EmptyProtocolParameter | src/uir/device.py:118 | a protocol-parameter request without data raises IndexError and changes nothing |
| Device.GetModel | src/uir/device.py:90-100 | exactly one reply, from the node id with function code MODEL and the model record, unless the node id does not fit a byte, which raises struct.error with no reply; the bitrate is unchanged |
| Device.GetSerialNumber | src/uir/device.py:102-114 | exactly one SERIAL NUMBER reply of eight bytes from the node id, exactly when the node id and the three numbers fit their struct codes; otherwise struct.error with no reply; the bitrate is unchanged |
| Device.ProtocolParameter | src/uir/device.py:116-139 | IndexError exactly for empty data; ValueError exactly for a CAN-bitrate write of a value outside the enumeration. The bitrate afterwards is `data[1]` for a CAN-bitrate write and unchanged otherwise. A reply is sent only for the CAN bitrate, always when nothing was raised, and carries `[5, bitrate afterwards]`; any other parameter is ignored with nothing sent and the bitrate unchanged |
| Device.SimUIGateway.constructor | src/uir/device.py:31-45 | the fields are as given; a missing group id means the node id |
| Device.SimUIGateway.SendMessage | src/uir/device.py:47-54 | the serialized message is written once, or `serialize` raises and nothing is written |
| Device.SimUIGateway.HandleGetModel | src/uir/device.py:90-100 | writes what `GetModel` specifies |
| Device.SimUIGateway.HandleGetSerialNumber | src/uir/device.py:102-114 | writes or raises what `GetSerialNumber` specifies |
| Device.SimUIGateway.HandleProtocolParameter | src/uir/device.py:116-139 | updates the bitrate and writes or raises what `ProtocolParameter` specifies |
| Device.SimUIGateway.HandleMessage | src/uir/device.py:56-87 | the new bitrate, the exception and the packets written are those of `Handle` |
| Bridge.Prefix | src/uir/util/gateway.py:42 | `data[:dlc]` is the first `dlc` bytes, or all of them |
| Bridge.Inbound | src/uir/util/gateway.py:32-50 | the translation fails exactly when `dlc` is outside 0..8; the result is checksummed, serializable and at most 8 data bytes long |
| Bridge.Outbound | src/uir/util/gateway.py:83-95 | the forwarded frame has an extended identifier below 2^29 and the message's data, with `dlc` its length; it is well formed when the data fit 8 bytes (its partners are `OutboundIdentifier` and `Loopback`) |
| Bridge.GatewayProducer | src/uir/util/gateway.py:25-84 | frames forwarded by the module's UIM2523 gateway carry producer id 2 |
| Bridge.OutboundIdentifier | src/uir/util/gateway.py:83-95 | an outbound identifier decodes to the low bits of producer, device id and control word |
| Bridge.MasterOutbound | src/uir/gateway.py:150-164 | this variant's frames are well formed, carry producer 4 and keep the message's device id, control word and data |
| Bridge.Loopback | src/uir/util/gateway.py:32-95 | reading back a frame the bridge sent recovers function code, ack bit and data |
| Bridge.ProcessPacket | src/uir/util/gateway.py:64-95 | every reply a packet causes is serializable |
| Bridge.PacketOutcomes | src/uir/util/gateway.py:64-95 | at most one well-formed frame per packet, and only for a forwarded one. Only a 16-byte packet gets past `unpack`. A packet is dropped exactly when it decodes but fails the checksum gate, and a dropped packet changes nothing. A forwarded frame comes from the gateway's node id and the decoded message |
| Bridge.ForwardedWhateverAddress | src/uir/util/gateway.py:79-95 | an accepted packet goes to the bus even when the local gateway is not addressed |
| Bridge.SerializedIsForwarded | src/uir/util/gateway.py:71-95 | a correctly serialized client message is forwarded with its own data and length |
| Bridge.RunSession | src/uir/util/gateway.py:59-100 | every reply of a session is serializable |
| Bridge.ReadPacket | src/uir/util/gateway.py:63-95 | every reply of one read and the rest of the session is serializable |
| Bridge.CorruptedPacketDropped | src/uir/util/gateway.py:71-76 | a serialized 0xAA packet with any one of bytes 1 to 12 changed and its checksum field kept either fails to decode or is dropped by the gate |
| Bridge.UncheckedNeverDropped | src/uir/util/gateway.py:71-76 | a decodable packet with start byte 0xAC or 0xAD is never dropped by the gate, whatever its checksum field holds |
| Bridge.SessionFrames | src/uir/util/gateway.py:63-95 | a session sends only well-formed frames, at most one per packet read |
| Bridge.SessionAdvance | src/uir/util/gateway.py:63-95 | the read loop's invariant carries over one packet |
| Bridge.RemoveFirst | src/uir/util/gateway.py:98 | `list.remove` of an element the list holds shortens the list by one |
| Bridge.RemoveFirstMultiset | src/uir/util/gateway.py:98 | `list.remove` takes away exactly one copy of the element and keeps every other element with its count |
| Bridge.RemoveFirstAt | src/uir/util/gateway.py:98 | `list.remove` drops the first occurrence and keeps everything before and after it, in order |
| Bridge.RemoveAppended | src/uir/util/gateway.py:60-98 | removing the writer that was appended restores `tcp_sinks` |
| Bridge.Bridge.constructor | src/uir/util/gateway.py:25-29 | a fresh gateway at the UIM2523 node id 2, with its group id defaulted to the node id and every other setting defaulted; an empty sink list and an empty bus |
| Bridge.Bridge.OnCanMessage | src/uir/util/gateway.py:32-56 | a bad `dlc` raises and writes nothing; otherwise every sink gets exactly the serialized translation |
| Bridge.Bridge.Connect | src/uir/util/gateway.py:60 | the writer is appended to `tcp_sinks` |
| Bridge.Bridge.Disconnect | src/uir/util/gateway.py:97-98 | the writer's first occurrence is removed from `tcp_sinks` |
| Bridge.Bridge.HandlePacket | src/uir/util/gateway.py:64-95 | the new bitrate, status, written packets and bus frames are those of `ProcessPacket` |
| Bridge.Bridge.ReadOne | src/uir/util/gateway.py:63-95 | one loop pass performs `ProcessPacket` and advances the session invariant |
| Bridge.Bridge.ReadLoop | src/uir/util/gateway.py:62-96 | the bitrate, exception, written packets and bus frames are those of `RunSession` |
| Bridge.Bridge.Serve | src/uir/util/gateway.py:59-100 | as `ReadLoop`, and `tcp_sinks` is the same afterwards whether the loop ended by an empty read or by an exception |
| Legacy.Pack | uir_gateway.py:86-96 | packing succeeds exactly when every field and the checksum fit; 16 bytes, with the body in bytes 1..12 and the checksum in 13..14 |
| Legacy.Serialize | uir_gateway.py:85-102 | fails exactly when a field or a given checksum does not fit. A result is 16 bytes with start byte 0xAA/0xAD, end byte 0xCC and `data_length` as given in byte 3. Without a given checksum, bytes 13..14 are the CRC of bytes 1..12 when one is needed, and 0xFFFF otherwise |
| Legacy.Deserialize | uir_gateway.py:104-136 | fails with struct.error unless 16 bytes, and with AssertionError for a bad start or end byte. Otherwise every field is read from its place: device id, `need_checksum` exactly for start byte 0xAA, `need_ack` from bit 7 and a 7-bit function code that together rebuild the control word, `data_length` and all eight data bytes unchecked, the auxiliary byte and the little-endian checksum |
| Legacy.IgnoresStoredChecksum | uir_gateway.py:94-100 | without `need_checksum`, the stored checksum does not affect the packet |
| Legacy.DecodeLaidOut | uir_gateway.py:104-136 | a packet laid out from a message decodes to it, with eight data bytes and the packet's checksum |
| Legacy.RoundTrip | uir_gateway.py:85-136 | decoding a serialized message recovers every field, with data padded to 8 bytes and the checksum written (the CRC or 0xFFFF) |
| Legacy.ReserializeExact | uir_gateway.py:85-136 | serializing a decoded packet with its own checksum reproduces it, for start bytes 0xAA and 0xAD |
| Legacy.SerializedPassesGate | uir_gateway.py:271-273 | every serialized message passes `main`'s checksum gate |
| Legacy.NewDevice | uir_gateway.py:154-165 | after `__post_init__` the group ids are never empty; empty ones become broadcast and the node id |
| Legacy.MainDevice | uir_gateway.py:243-247 | `main`'s device is node 2, answers to groups 0 and 2, and has every other setting defaulted |
| Legacy.MainDeviceModel | uir_gateway.py:243-276 | `main`'s device answers GET MODEL sent to broadcast or node 2 with exactly one model record from node 2 |
| Legacy.DefaultGroupsAddressed | uir_gateway.py:163-170 | a default device answers to broadcast and to its node id |
| Legacy.Written | uir_gateway.py:148-151 | one packet is written per reply |
| Legacy.WrittenAppend | uir_gateway.py:148-151 | the packets of two reply sequences are the concatenation of their packets |
| Legacy.Handle | uir_gateway.py:167-233 | at most one reply, from the node id, checksummed and serializable; none after an exception; unaddressed messages and other function codes get nothing |
| Legacy.ModelReply | uir_gateway.py:172-184 | GET MODEL with ack answers with the model record and data length 8; without ack it fails its assertion |
| Legacy.ProtocolParameter | uir_gateway.py:186-210 | IndexError exactly for empty data, NotImplementedError exactly for another parameter index; a reply only for the CAN bitrate with data length 1 or 2, and it carries `[5, can_bitrate, 0 x 6]` with data length 2 |
| Legacy.SerialNumber | uir_gateway.py:212-233 | AssertionError exactly for a write whose data length is not 4; at most one reply, an eight-byte SERIAL NUMBER record with data length 8 from the node id |
| Legacy.BitrateReplyOnly | uir_gateway.py:186-208 | CAN bitrate with data length 1 or 2 answers `[5, can_bitrate, 0 x 6]` with data length 2, the bitrate the device holds, which a write never changes; any other length answers nothing |
| Legacy.OtherParameter | uir_gateway.py:209-210 | any other protocol parameter raises NotImplementedError |
| Legacy.SerialNumberReply | uir_gateway.py:212-233 | a read, or a write with data length 4, answers with serial number, manufacturer and vendor, each little-endian and each read back exactly |
| Legacy.SerialNumberWriteLength | uir_gateway.py:215-216 | a serial-number write whose data length is not 4 fails its assertion |
| Legacy.Dispatch | uir_gateway.py:275-276 | at most one reply per device, all serializable |
| Legacy.Receive | uir_gateway.py:261-276 | an empty read (the client hung up) sends nothing and raises nothing; a non-empty read that is not 16 bytes raises struct.error; every reply to a packet is serializable |
| Legacy.BadChecksumDropped | uir_gateway.py:271-273 | a packet that needs a checksum and fails it reaches no device |
| Legacy.SerializedDispatched | uir_gateway.py:268-276 | a packet written by `serialize` reaches every device as the message it decodes to |
| Legacy.UnaddressedSilent | uir_gateway.py:168-170 | when no device is addressed, the loop writes nothing and raises nothing |
| Legacy.SendMessage | uir_gateway.py:148-151 | the serialized message is written once, or `serialize` raises and nothing is written |
| Legacy.HandleMessage | uir_gateway.py:167-233 | the exception and the packets written are those of `Handle` |
| Legacy.HandleProtocolParameter | uir_gateway.py:186-210 | the exception and the packets written are those of `ProtocolParameter` |
| Legacy.HandleSerialNumber | uir_gateway.py:212-233 | the exception and the packets written are those of `SerialNumber` |
| Legacy.ServePacket | uir_gateway.py:261-276 | the client is closed exactly on an empty read; the exception and the packets written to the client are those of `Receive` over all devices in order |

## Left out

- Sockets, `select`, `asyncio` and python-can are not modelled. This covers `accept`, the `clients` list, `start_server`, the `Notifier`, `can.Bus`, `writer.close`/`wait_closed`, and `main`/`sync_main` in every file. A client's reads are a sequence of byte strings. A transport is the log of what was written to it. The bus is the log of frames sent.
- The `CAN_INTERFACE` environment check and every `print` are left out. They only produce output or exit the process.
- Partial TCP reads are not modelled. Each read is taken as one packet. An empty read means the client hung up: the bridge ends that client's session and `main` closes the socket, with nothing raised. A non-empty read that is not 16 bytes raises struct.error as `unpack` does. Removing the closed socket from `clients` is not modelled, since the `clients` list is not.
- `crc16`'s `poly` parameter is fixed at 0xA001. No caller passes another value.
- `CANBitrate(...).name` is used only for printing. Only its ValueError on a value outside 0..4 is modelled.
- The `from . import crc16, GatewayNodeID, UIDevice, UIMessage` at `src/uir/gateway.py:8` names things the package does not define. So that file's `gateway.handle_message(Socketlike(writer), msg)` and `Socketlike` are not modelled. Its identifier packer and `on_can_message` use the same expressions as `src/uir/simplecan.py` and `src/uir/util/gateway.py` and are modelled once. Its outbound frame with producer 4 is `Bridge.MasterOutbound`.
- Bridge.Bridge.OnCanMessage: does not model a `tcp_sinks` list that holds the same writer twice. It requires the sinks to be distinct because each connection appends its own writer once.
- Bridge.Bridge.Connect: requires the writer not to be in `tcp_sinks` already, for the same reason.
- The interleaving of `on_can_message` callbacks with a client's read loop is not modelled. Each method runs to completion on its own.
- An exception raised in `main`'s loop in `uir_gateway.py` ends the server. The model returns it as the outcome's error and stops the device loop there.
