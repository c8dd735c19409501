/** The numbers the gateway protocol assigns to function codes, reserved ids and parameters. */
module Constants {
  import opened Bytes

  // Function codes, without the acknowledge bit
  const PROTOCOL_PARAMETER := 0x01
  const WAKE_NODE := 0x06
  const MODEL := 0x0B
  const SERIAL_NUMBER := 0x0C
  const ERROR_REPORT := 0x0F
  const SYSTEM_OPERATION := 0x7E

  /** Model number the simulated UIM2523 gateway reports. */
  const GATEWAY_MODEL_UIM2523: seq<byte> := [0x19, 0x17]

  /** GET MODEL reply data: the model number, two reserved bytes, firmware version 0x69 0x7A, two reserved bytes. */
  const MODEL_DATA: seq<byte> := GATEWAY_MODEL_UIM2523 + [0x00, 0x00, 0x69, 0x7A, 0x00, 0x00]

  // Defaults of a simulated device's settings
  const DEFAULT_CAN_BITRATE: int := KBPS_500
  const DEFAULT_SERIAL_NUMBER := 1234512345
  const DEFAULT_MANUFACTURER_ID := 0x4141
  const DEFAULT_VENDOR_ID := 0x4242

  // Reserved node ids
  const MASTER_NODE_ID := 4
  const UIM2523_NODE_ID := 2
  const UIM2513_NODE_ID := 3

  /** The group id every device answers to. */
  const GLOBAL_GROUP_ID := 0

  // Protocol parameter indices
  const RS232_BAUD := 1
  const CAN_BITRATE := 5
  const NODE_ID := 7

  // CAN bitrate codes: 1000, 800, 500, 250 and 125 kbit/s
  const KBPS_1000 := 0
  const KBPS_800 := 1
  const KBPS_500 := 2
  const KBPS_250 := 3
  const KBPS_125 := 4

  /** Whether `v` names a member of the CAN bitrate enumeration. */
  predicate IsCanBitrate(v: int) {
    KBPS_1000 <= v <= KBPS_125
  }
}
