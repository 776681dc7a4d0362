/**
 * Wire format of the BLE messages (packed, little-endian) and the translation of a command into
 * the packet that the hub writes.
 */
module Packets {
  import opened Types

  const SENSOR_DATA: u8 := 0x01
  const IR_TIMING: u8 := 0x02
  const HUB_READY: u8 := 0x10
  const SET_INTERVAL: u8 := 0x12
  const RESET_NODE: u8 := 0x13
  const TEST_CMD: u8 := 0x14
  const NODE_INFO: u8 := 0x20
  const CMD_ACK: u8 := 0x21

  const BLE_MAX_WRITE_SIZE: nat := 500
  const IR_HEADER_SIZE: nat := 5

  datatype Packet =
    | HubReady
    | SetInterval(cmdId: u16, sec: u16)
    | ResetNode(cmdId: u16, level: u8)
    | TestCmd(cmdId: u16, led: u8)
    | IrTiming(cmdId: u16, timings: seq<u16>)
    | NodeInfo(nodeType: u8, batteryMv: u16, fwMajor: u8, fwMinor: u8)
    | CmdAck(cmdId: u16, success: u8)

  // ---------- Byte layout ----------

  function Word(x: u16): seq<u8> { [x % 0x100, x / 0x100] }

  function Words(ws: seq<u16>): (b: seq<u8>)
    ensures |b| == 2 * |ws|
  {
    if ws == [] then [] else Words(ws[..|ws| - 1]) + Word(ws[|ws| - 1])
  }

  function IrHeader(id: u16, count: u16): (b: seq<u8>)
    ensures |b| == IR_HEADER_SIZE
  {
    [IR_TIMING] + Word(id) + Word(count)
  }

  function Encode(p: Packet): seq<u8> {
    match p
    case HubReady => [HUB_READY]
    case SetInterval(id, sec) => [SET_INTERVAL] + Word(id) + Word(sec)
    case ResetNode(id, level) => [RESET_NODE] + Word(id) + [level]
    case TestCmd(id, led) => [TEST_CMD] + Word(id) + [led]
    case IrTiming(id, ws) => IrHeader(id, ToU16(|ws|)) + Words(ws)
    case NodeInfo(t, mv, major, minor) => [NODE_INFO, t] + Word(mv) + [major, minor]
    case CmdAck(id, success) => [CMD_ACK] + Word(id) + [success]
  }

  /** The 16-bit field at offset `i`. */
  function ReadWord(b: seq<u8>, i: nat): u16
    requires i + 2 <= |b|
  {
    b[i] as int + 0x100 * (b[i + 1] as int)
  }

  /** `n` consecutive 16-bit fields starting at offset `i`. */
  function ReadWords(b: seq<u8>, i: nat, n: nat): (ws: seq<u16>)
    requires i + 2 * n <= |b|
    ensures |ws| == n
  {
    if n == 0 then [] else ReadWords(b, i, n - 1) + [ReadWord(b, i + 2 * (n - 1))]
  }

  /**
   * A receiver dispatches on the first byte, checks the minimum size and ignores what follows. The
   * node reads HUB_READY, SET_INTERVAL, RESET_NODE and TEST_CMD, the hub NODE_INFO and CMD_ACK; for
   * IR_TIMING there is a layout but no receiver yet.
   */
  function Decode(b: seq<u8>): Option<Packet> {
    if |b| < 1 then None
    else if b[0] == HUB_READY then Some(HubReady)
    else if b[0] == SET_INTERVAL && 5 <= |b| then Some(SetInterval(ReadWord(b, 1), ReadWord(b, 3)))
    else if b[0] == RESET_NODE && 4 <= |b| then Some(ResetNode(ReadWord(b, 1), b[3]))
    else if b[0] == TEST_CMD && 4 <= |b| then Some(TestCmd(ReadWord(b, 1), b[3]))
    else if b[0] == IR_TIMING && 5 <= |b| && 5 + 2 * ReadWord(b, 3) <= |b| then
      Some(IrTiming(ReadWord(b, 1), ReadWords(b, 5, ReadWord(b, 3))))
    else if b[0] == NODE_INFO && 6 <= |b| then Some(NodeInfo(b[1], ReadWord(b, 2), b[4], b[5]))
    else if b[0] == CMD_ACK && 4 <= |b| then Some(CmdAck(ReadWord(b, 1), b[3]))
    else None
  }

  /** The 16-bit element count of an IR packet can describe its timing list. */
  predicate Encodable(p: Packet) { p.IrTiming? ==> |p.timings| < 0x1_0000 }

  // ---------- Round trips ----------

  lemma {:induction false} ReadWordsInvertsWords(head: seq<u8>, ws: seq<u16>, tail: seq<u8>)
    ensures ReadWords(head + Words(ws) + tail, |head|, |ws|) == ws
  {
    if ws != [] {
      var front, last := ws[..|ws| - 1], ws[|ws| - 1];
      assert head + Words(ws) + tail == head + Words(front) + (Word(last) + tail);
      ReadWordsInvertsWords(head, front, Word(last) + tail);
    }
  }

  lemma WordsAppend(ws: seq<u16>, x: u16)
    ensures Words(ws + [x]) == Words(ws) + Word(x)
  {
    assert (ws + [x])[..|ws + [x]| - 1] == ws;
  }

  lemma Join(b: seq<u8>, i: nat, j: nat, k: nat)
    requires i <= j <= k <= |b|
    ensures b[i..j] + b[j..k] == b[i..k]
  {
  }

  lemma {:induction false} WordsInvertsReadWords(b: seq<u8>, i: nat, n: nat)
    requires i + 2 * n <= |b|
    ensures Words(ReadWords(b, i, n)) == b[i..i + 2 * n]
  {
    if n > 0 {
      var front, last := ReadWords(b, i, n - 1), ReadWord(b, i + 2 * (n - 1));
      WordsInvertsReadWords(b, i, n - 1);
      WordsAppend(front, last);
      WordOfReadWord(b, i + 2 * (n - 1));
      Join(b, i, i + 2 * (n - 1), i + 2 * n);
    }
  }

  lemma ReadWordOfWord(b: seq<u8>, i: nat, x: u16)
    requires i + 2 <= |b| && b[i..i + 2] == Word(x)
    ensures ReadWord(b, i) == x
  {
    assert b[i] == b[i..i + 2][0] && b[i + 1] == b[i..i + 2][1];
  }

  lemma IrHeaderFields(id: u16, count: u16, rest: seq<u8>)
    ensures var b := IrHeader(id, count) + rest;
      b[0] == IR_TIMING && ReadWord(b, 1) == id && ReadWord(b, 3) == count
  {
    var b := IrHeader(id, count) + rest;
    assert b[1..3] == Word(id) && b[3..5] == Word(count);
    ReadWordOfWord(b, 1, id);
    ReadWordOfWord(b, 3, count);
  }

  lemma CountFits(n: nat)
    requires n < 0x1_0000
    ensures ToU16(n) == n
  {
  }

  lemma EncodeIr(id: u16, ws: seq<u16>)
    requires |ws| < 0x1_0000
    ensures Encode(IrTiming(id, ws)) == IrHeader(id, |ws|) + Words(ws)
  {
    CountFits(|ws|);
  }

  lemma Regroup(a: seq<u8>, b: seq<u8>, c: seq<u8>)
    ensures a + b + c == a + (b + c)
  {
  }

  lemma DecodeIr(b: seq<u8>, id: u16, ws: seq<u16>)
    requires |ws| < 0x1_0000 && 5 + 2 * |ws| <= |b| && b[0] == IR_TIMING
    requires ReadWord(b, 1) == id && ReadWord(b, 3) == |ws| && ReadWords(b, 5, |ws|) == ws
    ensures Decode(b) == Some(IrTiming(id, ws))
  {
  }

  lemma DecodeInvertsIr(id: u16, ws: seq<u16>, tail: seq<u8>)
    requires |ws| < 0x1_0000
    ensures Decode(Encode(IrTiming(id, ws)) + tail) == Some(IrTiming(id, ws))
  {
    var head, body := IrHeader(id, |ws|), Words(ws);
    EncodeIr(id, ws);
    ReadWordsInvertsWords(head, ws, tail);
    IrHeaderFields(id, |ws|, body + tail);
    Regroup(head, body, tail);
    DecodeIr(head + body + tail, id, ws);
  }

  /** Decoding recovers every packet, whatever bytes follow it in the characteristic. */
  lemma DecodeInvertsEncode(p: Packet, tail: seq<u8>)
    requires Encodable(p)
    ensures Decode(Encode(p) + tail) == Some(p)
  {
    if p.IrTiming? {
      DecodeInvertsIr(p.cmdId, p.timings, tail);
    }
  }

  lemma WordOfReadWord(b: seq<u8>, i: nat)
    requires i + 2 <= |b|
    ensures Word(ReadWord(b, i)) == b[i..i + 2]
  {
  }

  lemma HeaderPrefix(b: seq<u8>, id: u16, count: u16)
    requires 5 <= |b| && b[0] == IR_TIMING && Word(id) == b[1..3] && Word(count) == b[3..5]
    ensures IrHeader(id, count) == b[..5]
  {
    assert b[..5] == [b[0]] + b[1..3] + b[3..5];
  }

  lemma IrBytes(b: seq<u8>, id: u16, ws: seq<u16>)
    requires |ws| < 0x1_0000 && 5 + 2 * |ws| <= |b|
    requires IrHeader(id, |ws|) == b[..5] && Words(ws) == b[5..5 + 2 * |ws|]
    ensures Encode(IrTiming(id, ws)) == b[..5 + 2 * |ws|]
  {
    EncodeIr(id, ws);
    Join(b, 0, 5, 5 + 2 * |ws|);
    assert b[0..5] == b[..5] && b[0..5 + 2 * |ws|] == b[..5 + 2 * |ws|];
  }

  lemma IrPrefix(b: seq<u8>, id: u16, ws: seq<u16>)
    requires |ws| < 0x1_0000 && 5 + 2 * |ws| <= |b| && b[0] == IR_TIMING
    requires Word(id) == b[1..3] && Word(|ws|) == b[3..5] && ws == ReadWords(b, 5, |ws|)
    ensures Encode(IrTiming(id, ws)) <= b
  {
    WordsInvertsReadWords(b, 5, |ws|);
    HeaderPrefix(b, id, |ws|);
    IrBytes(b, id, ws);
  }

  /** A receiver that accepts a byte string has read the encoding of a packet at its front. */
  lemma EncodeInvertsDecode(b: seq<u8>)
    requires Decode(b).Some?
    ensures Encodable(Decode(b).value) && Encode(Decode(b).value) <= b
  {
    var p := Decode(b).value;
    match p
    case HubReady =>
    case SetInterval(_, _) =>
      WordOfReadWord(b, 1);
      WordOfReadWord(b, 3);
      assert Encode(p) == b[..5];
    case ResetNode(_, _) =>
      WordOfReadWord(b, 1);
      assert Encode(p) == b[..4];
    case TestCmd(_, _) =>
      WordOfReadWord(b, 1);
      assert Encode(p) == b[..4];
    case IrTiming(id, ws) =>
      WordOfReadWord(b, 1);
      WordOfReadWord(b, 3);
      IrPrefix(b, id, ws);
    case NodeInfo(_, _, _, _) =>
      WordOfReadWord(b, 2);
      assert Encode(p) == b[..6];
    case CmdAck(_, _) =>
      WordOfReadWord(b, 1);
      assert Encode(p) == b[..4];
  }

  /** What a receiver accepts is exactly the encoding of a packet followed by ignored bytes. */
  lemma DecodeAcceptsExactlyEncodings(b: seq<u8>, p: Packet)
    requires Encodable(p)
    ensures Decode(b) == Some(p) <==> Encode(p) <= b
  {
    if Encode(p) <= b {
      assert b == Encode(p) + b[|Encode(p)|..];
      DecodeInvertsEncode(p, b[|Encode(p)|..]);
    }
    if Decode(b) == Some(p) {
      EncodeInvertsDecode(b);
    }
  }

  /** No packet's bytes start another packet's bytes; in particular encodings are distinct. */
  lemma EncodingsArePrefixFree(p: Packet, q: Packet)
    requires Encodable(p) && Encodable(q)
    requires Encode(p) <= Encode(q)
    ensures p == q
  {
    DecodeInvertsEncode(p, Encode(q)[|Encode(p)|..]);
    DecodeInvertsEncode(q, []);
    assert Encode(q) == Encode(p) + Encode(q)[|Encode(p)|..] == Encode(q) + [];
  }

  // ---------- From a command to its packet ----------

  /** The packet that the type handlers build, or `None` where they give up before writing. */
  function PacketFor(c: Command): Option<Packet> {
    if c.kind == SetIntervalKind then
      if c.payload.Malformed? then None
      else Some(SetInterval(c.cmdId, ToU16(OrElse(c.payload.intervalSec, 60))))
    else if c.kind == ResetNodeKind then
      if c.payload.Malformed? then None
      else Some(ResetNode(c.cmdId, ToU8(OrElse(c.payload.level, 0))))
    else if c.kind == IrTimingKind then
      if c.payload.Malformed? || c.payload.timings.None? || c.payload.timings.value == [] then None
      else
        var ws := c.payload.timings.value;
        var count := ToU16(|ws|);
        if IR_HEADER_SIZE + 2 * count > BLE_MAX_WRITE_SIZE then None else Some(IrTiming(c.cmdId, ws[..count]))
    else if c.kind == TestKind then
      Some(TestCmd(c.cmdId, if c.payload.Malformed? then 0 else ToU8(OrElse(c.payload.led, 0))))
    else None
  }

  // ---------- What each handler makes of a command ----------

  /** SET_INTERVAL: the number given, in its low 16 bits; 60 if there is none; nothing if unparsable. */
  lemma SetIntervalPacket(c: Command)
    requires c.kind == SetIntervalKind
    ensures c.payload.Malformed? ==> PacketFor(c) == None
    ensures c.payload.Fields? ==> PacketFor(c).Some? && PacketFor(c).value.SetInterval?
    ensures c.payload.Fields? ==>
      var p, field := PacketFor(c).value, c.payload.intervalSec;
      && p.cmdId == c.cmdId
      && (field.None? ==> p.sec == 60)
      && (field.Some? && 0 <= field.value < 65536 ==> p.sec == field.value)
      && (field.Some? ==> (field.value - p.sec) % 65536 == 0)
  {
  }

  /** RESET_NODE: the level given, in its low 8 bits; 0 if there is none; nothing if unparsable. */
  lemma ResetNodePacket(c: Command)
    requires c.kind == ResetNodeKind
    ensures c.payload.Malformed? ==> PacketFor(c) == None
    ensures c.payload.Fields? ==> PacketFor(c).Some? && PacketFor(c).value.ResetNode?
    ensures c.payload.Fields? ==>
      var p, field := PacketFor(c).value, c.payload.level;
      && p.cmdId == c.cmdId
      && (field.None? ==> p.level == 0)
      && (field.Some? && 0 <= field.value < 256 ==> p.level == field.value)
      && (field.Some? ==> (field.value - p.level) % 256 == 0)
  {
  }

  /** TEST: the number given, in its low 8 bits; 0 if there is none or the payload does not parse. */
  lemma TestPacket(c: Command)
    requires c.kind == TestKind
    ensures PacketFor(c).Some? && PacketFor(c).value.TestCmd?
    ensures var p := PacketFor(c).value;
      && p.cmdId == c.cmdId
      && (c.payload.Malformed? || c.payload.led.None? ==> p.led == 0)
      && (c.payload.Fields? && c.payload.led.Some? ==>
            && (0 <= c.payload.led.value < 256 ==> p.led == c.payload.led.value)
            && (c.payload.led.value - p.led) % 256 == 0)
  {
  }

  /** IR_TIMING: nothing without timings or with too many of them. Every other type gives nothing. */
  lemma OtherPackets(c: Command)
    ensures c.kind == IrTimingKind && (c.payload.Malformed? || c.payload.timings.None?) ==> PacketFor(c) == None
    ensures c.kind == IrTimingKind && c.payload.Fields? && c.payload.timings.Some? ==>
      var n := |c.payload.timings.value|;
      n == 0 || 247 < n < 65536 ==> PacketFor(c) == None
    ensures c.kind == HubStatusKind || c.kind.OtherKind? ==> PacketFor(c) == None
  {
  }

  /** The bytes of the packets, field by field: little-endian, with their tags. */
  lemma PacketBytes(id: u16, sec: u16, b: u8, major: u8, minor: u8)
    ensures Encode(HubReady) == [0x10]
    ensures Encode(SetInterval(id, sec)) == [0x12, id % 256, id / 256, sec % 256, sec / 256]
    ensures Encode(ResetNode(id, b)) == [0x13, id % 256, id / 256, b]
    ensures Encode(TestCmd(id, b)) == [0x14, id % 256, id / 256, b]
    ensures Encode(CmdAck(id, b)) == [0x21, id % 256, id / 256, b]
    ensures Encode(NodeInfo(b, sec, major, minor)) == [0x20, b, sec % 256, sec / 256, major, minor]
  {
  }

  /** The same for IR timings: five bytes of header, then value after value. */
  lemma IrPacketBytes(id: u16, ws: seq<u16>, k: nat)
    requires k < |ws| < 65536
    ensures var bytes := Encode(IrTiming(id, ws));
      && |bytes| == 5 + 2 * |ws|
      && bytes[..5] == [0x02, id % 256, id / 256, |ws| % 256, |ws| / 256]
      && bytes[5 + 2 * k] == ws[k] % 256 && bytes[6 + 2 * k] == ws[k] / 256
  {
    EncodeIr(id, ws);
    WordAt(ws, k);
  }

  lemma {:induction false} WordAt(ws: seq<u16>, k: nat)
    requires k < |ws|
    ensures Words(ws)[2 * k] == ws[k] % 256 && Words(ws)[2 * k + 1] == ws[k] / 256
  {
    if k < |ws| - 1 {
      WordAt(ws[..|ws| - 1], k);
    }
  }

  /** Every write fits the BLE limit, names the command's id, and is decoded as the packet meant. */
  lemma WritesAreFaithful(c: Command)
    requires PacketFor(c).Some?
    ensures var p := PacketFor(c).value;
      && |Encode(p)| <= BLE_MAX_WRITE_SIZE
      && Encodable(p)
      && Decode(Encode(p)) == Some(p)
      && (p.SetInterval? || p.ResetNode? || p.TestCmd? || p.IrTiming?)
      && p.cmdId == c.cmdId
  {
    var p := PacketFor(c).value;
    DecodeInvertsEncode(p, []);
    assert Encode(p) + [] == Encode(p);
  }

  /**
   * The handler alone: its element count is a 16-bit variable, so an accepted IR command is sent
   * whole exactly when it has at most 247 timings.
   */
  lemma IrTimingSentWhole(c: Command)
    requires c.kind == IrTimingKind && PacketFor(c).Some?
    ensures PacketFor(c).value.timings == c.payload.timings.value <==> |c.payload.timings.value| <= 247
  {
    var ws := c.payload.timings.value;
    if |ws| <= 247 {
      assert ws[..|ws|] == ws;
    } else {
      assert |PacketFor(c).value.timings| <= 247;
    }
  }

  /** The payload field, with its terminating zero. */
  const PAYLOAD_SIZE: nat := 256

  function Joined(texts: seq<string>): string {
    if texts == [] then ""
    else if |texts| == 1 then texts[0]
    else Joined(texts[..|texts| - 1]) + "," + texts[|texts| - 1]
  }

  lemma {:induction false} JoinedLength(texts: seq<string>)
    requires texts != [] && forall k :: 0 <= k < |texts| ==> texts[k] != ""
    ensures |Joined(texts)| >= 2 * |texts| - 1
  {
    if |texts| > 1 {
      JoinedLength(texts[..|texts| - 1]);
    }
  }

  /**
   * With the payload field around it the handler never meets a longer list: every IR command with
   * timings whose list, in whatever texts its values are written, fits the field is sent whole.
   */
  lemma IrTimingThatFitsIsSent(c: Command, texts: seq<string>)
    requires c.kind == IrTimingKind && c.payload.Fields? && c.payload.timings.Some?
    requires |texts| == |c.payload.timings.value| > 0 && forall k :: 0 <= k < |texts| ==> texts[k] != ""
    requires |"[" + Joined(texts) + "]"| < PAYLOAD_SIZE
    ensures PacketFor(c) == Some(IrTiming(c.cmdId, c.payload.timings.value))
  {
    JoinedLength(texts);
    var ws := c.payload.timings.value;
    assert ws[..|ws|] == ws;
  }

  /** A remark on the 16-bit count: a list of 65537, which no payload holds, would go out as one value. */
  lemma IrTimingWrapExample(ws: seq<u16>)
    requires |ws| == 65537
    ensures var c := Command(Mac(7), IrTimingKind, Fields(None, None, None, Some(ws)), 1);
      PacketFor(c) == Some(IrTiming(1, [ws[0]]))
  {
    assert ws[..1] == [ws[0]];
  }

  // ---------- The IR packet buffer, filled in place ----------

  lemma WordsTake(ws: seq<u16>, i: nat)
    requires i < |ws|
    ensures Words(ws[..i + 1]) == Words(ws[..i]) + Word(ws[i])
  {
    assert ws[..i + 1][..i] == ws[..i];
  }

  /** memcpy of a 16-bit value into the packet buffer. */
  method PutWord(pkt: array<u8>, at: nat, w: u16)
    requires at + 2 <= pkt.Length
    modifies pkt
    ensures pkt[..at + 2] == old(pkt[..at]) + [w % 256, w / 256]
    ensures forall k :: at + 2 <= k < pkt.Length ==> pkt[k] == old(pkt[k])
  {
    pkt[at] := w % 0x100;
    pkt[at + 1] := w / 0x100;
  }

  method FillIrHeader(pkt: array<u8>, cmdId: u16, count: u16)
    requires IR_HEADER_SIZE <= pkt.Length
    modifies pkt
    ensures pkt[..IR_HEADER_SIZE] == IrHeader(cmdId, count)
    ensures forall k :: IR_HEADER_SIZE <= k < pkt.Length ==> pkt[k] == old(pkt[k])
  {
    pkt[0] := IR_TIMING;
    assert pkt[..1] == [IR_TIMING];
    PutWord(pkt, 1, cmdId);
    PutWord(pkt, 3, count);
  }

  /** Header and timing loop of handleIrTiming; the bytes after the packet stay unused. */
  method FillIrTiming(pkt: array<u8>, cmdId: u16, timings: seq<u16>)
    requires |timings| < 0x1_0000 && IR_HEADER_SIZE + 2 * |timings| <= pkt.Length
    modifies pkt
    ensures pkt[..IR_HEADER_SIZE + 2 * |timings|] == Encode(IrTiming(cmdId, timings))
    ensures forall k :: IR_HEADER_SIZE + 2 * |timings| <= k < pkt.Length ==> pkt[k] == old(pkt[k])
  {
    FillIrHeader(pkt, cmdId, |timings|);
    for i := 0 to |timings|
      invariant pkt[..5 + i * 2] == IrHeader(cmdId, |timings|) + Words(timings[..i])
      invariant forall k :: 5 + 2 * |timings| <= k < pkt.Length ==> pkt[k] == old(pkt[k])
    {
      PutWord(pkt, 5 + i * 2, timings[i]);
      WordsTake(timings, i);
    }
    assert timings[..|timings|] == timings;
    assert ToU16(|timings|) == |timings|;
  }

  /** handleIrTiming up to the write: the buffer and the length passed to bleSendToNode. */
  method BuildIrTiming(c: Command) returns (ok: bool, pkt: array<u8>, len: nat)
    requires c.kind == IrTimingKind
    ensures ok <==> PacketFor(c).Some?
    ensures ok ==> len <= pkt.Length == BLE_MAX_WRITE_SIZE
    ensures ok ==> len == IR_HEADER_SIZE + 2 * |PacketFor(c).value.timings|
    ensures ok ==> pkt[..len] == Encode(PacketFor(c).value)
  {
    pkt, len := new u8[BLE_MAX_WRITE_SIZE], 0;
    if c.payload.Malformed? || c.payload.timings.None? || |c.payload.timings.value| == 0 {
      return false, pkt, len;
    }
    var timings := c.payload.timings.value;
    var count := ToU16(|timings|);
    len := 1 + 2 + 2 + (count as int) * 2;
    if len > BLE_MAX_WRITE_SIZE {
      return false, pkt, len;
    }
    FillIrTiming(pkt, c.cmdId, timings[..count]);
    ok := true;
  }
}
