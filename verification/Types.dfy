/** Machine integers, node names and the command record shared by every layer of the relay. */
module Types {

  datatype Option<+T> = None | Some(value: T)

  type u8 = x: int | 0 <= x < 0x100
  type u16 = x: int | 0 <= x < 0x1_0000
  type u32 = x: int | 0 <= x < 0x1_0000_0000

  const TWO_32: int := 0x1_0000_0000

  /** The C++ conversion of an `int` to an unsigned field: truncation to the low bits. */
  function ToU8(x: int): u8 { x % 0x100 }

  function ToU16(x: int): u16 { x % 0x1_0000 }

  function ToU32(x: int): u32 { x % 0x1_0000_0000 }

  /** The target text of a command: empty for the hub itself, else a node's MAC address. */
  datatype NodeId = HubItself | Mac(address: nat)

  /** The type text of a command, as told apart by the string comparisons of the dispatchers. */
  datatype Kind = SetIntervalKind | ResetNodeKind | IrTimingKind | TestKind | HubStatusKind | OtherKind(text: string)

  /**
   * The payload text of a command after JSON parsing. A numeric field is `None` when it is absent
   * or not a 32-bit integer, which is when the firmware falls back to its default.
   */
  datatype Payload =
    | Malformed
    | Fields(intervalSec: Option<int>, level: Option<int>, led: Option<int>, timings: Option<seq<u16>>)

  datatype Command = Command(target: NodeId, kind: Kind, payload: Payload, cmdId: u16)

  /** `field | default` of the JSON library. */
  function OrElse(field: Option<int>, default: int): int {
    if field.Some? then field.value else default
  }
}
