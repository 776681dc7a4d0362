/** The sensor node: its persistent sleep interval and what it does with a configuration write. */
module NodeState {
  import opened Types
  import opened Packets

  const MIN_INTERVAL: u16 := 10
  const MAX_INTERVAL: u16 := 3600
  const DEFAULT_INTERVAL: u16 := 60

  /** What lies in 10..3600 is kept as it is; anything else goes to the nearer end. */
  function Clamp(sec: u16): (r: u16)
    ensures 10 <= sec <= 3600 ==> r == sec
    ensures sec < 10 ==> r == 10
    ensures 3600 < sec ==> r == 3600
  {
    if sec < MIN_INTERVAL then MIN_INTERVAL else if sec > MAX_INTERVAL then MAX_INTERVAL else sec
  }

  predicate InRange(sec: u16) { MIN_INTERVAL <= sec <= MAX_INTERVAL }

  // ---------- The node as a value ----------

  /** `stored` is the flash key; `isOpen` tells whether the storage handle is open. */
  datatype Node = Node(stored: Option<u16>, interval: u16, isOpen: bool)

  function Restore(stored: Option<u16>): u16 {
    if stored.Some? && InRange(stored.value) then stored.value else DEFAULT_INTERVAL
  }

  function AfterBegin(n: Node): Node { n.(interval := Restore(n.stored), isOpen := true) }

  function AfterEnd(n: Node): Node { n.(isOpen := false) }

  function AfterClear(n: Node): Node {
    n.(stored := if n.isOpen then None else n.stored, interval := DEFAULT_INTERVAL)
  }

  function AfterSet(n: Node, sec: u16): Node {
    n.(interval := Clamp(sec), stored := if n.isOpen then Some(Clamp(sec)) else n.stored)
  }

  /** Power-on, wake-up or restart: memory starts over and storage is opened. */
  function AfterBoot(n: Node): Node { AfterBegin(Node(n.stored, DEFAULT_INTERVAL, false)) }

  /** What a configuration write does, and the bytes the node notifies in return. */
  datatype Reaction = Reaction(node: Node, ack: Option<seq<u8>>)

  function OnWrite(n: Node, bytes: seq<u8>, connected: bool): Reaction {
    match Decode(bytes)
    case Some(SetInterval(id, sec)) =>
      Reaction(AfterSet(n, sec), if id != 0 && connected then Some(Encode(CmdAck(id, 1))) else None)
    case Some(ResetNode(_, level)) =>
      Reaction(AfterBoot(AfterEnd(if level >= 1 then AfterClear(n) else n)), None)
    case Some(TestCmd(id, _)) =>
      Reaction(n, if connected then Some(Encode(CmdAck(id, 1))) else None)
    case _ => Reaction(n, None)
  }

  // ---------- What the node does, seen from outside ----------

  /** After a boot storage is open, flash is as before, and the interval is the stored one if in range. */
  lemma BootOpensStorage(n: Node)
    ensures var m := AfterBoot(n);
      && m.isOpen && m.stored == n.stored
      && (n.stored.Some? && 10 <= n.stored.value <= 3600 ==> m.interval == n.stored.value)
      && (n.stored.None? || !(10 <= n.stored.value <= 3600) ==> m.interval == 60)
  {
  }

  /** The node answers with a success for the id of the packet, or not at all. */
  predicate AnswersTo(ack: Option<seq<u8>>, id: u16) { ack == Some([0x21, id % 256, id / 256, 1]) }

  /** A disconnected node never answers, and neither does one that gets a reset or an unknown packet. */
  lemma AnswersOnlyWhenConnected(n: Node, bytes: seq<u8>, connected: bool)
    ensures var ack, p := OnWrite(n, bytes, connected).ack, Decode(bytes);
      ack.Some? <==>
        && connected && p.Some?
        && (p.value.TestCmd? || (p.value.SetInterval? && p.value.cmdId != 0))
    ensures var ack, p := OnWrite(n, bytes, connected).ack, Decode(bytes);
      ack.Some? ==> AnswersTo(ack, p.value.cmdId)
  {
    var p := Decode(bytes);
    if OnWrite(n, bytes, connected).ack.Some? {
      PacketBytes(p.value.cmdId, 0, 1, 0, 0);
    }
  }

  /** SET_INTERVAL stores only while storage is open; RESET_NODE erases only then, and reopens it. */
  lemma WriteEffects(n: Node, bytes: seq<u8>, connected: bool)
    ensures var m, p := OnWrite(n, bytes, connected).node, Decode(bytes);
      && (p.Some? && p.value.SetInterval? ==>
            && m.isOpen == n.isOpen
            && m.interval == (if p.value.sec < 10 then 10 else if p.value.sec > 3600 then 3600 else p.value.sec)
            && m.stored == (if n.isOpen then Some(m.interval) else n.stored))
      && (p.Some? && p.value.ResetNode? ==>
            && m.isOpen
            && m.stored == (if p.value.level >= 1 && n.isOpen then None else n.stored)
            && m.interval == (if m.stored.Some? && 10 <= m.stored.value <= 3600 then m.stored.value else 60))
      && (p.None? || !(p.value.SetInterval? || p.value.ResetNode?) ==> m == n)
  {
  }

  // ---------- The firmware's objects ----------

  /** The flash namespace, which outlives every boot. */
  class Preferences {
    var interval: Option<u16>

    constructor (interval: Option<u16>)
      ensures this.interval == interval
    {
      this.interval := interval;
    }
  }

  class NodeState {
    const prefs: Preferences
    var sleepInterval: u16
    var isOpen: bool

    function Value(): Node
      reads this, prefs
    {
      Node(prefs.interval, sleepInterval, isOpen)
    }

    constructor (prefs: Preferences)
      ensures this.prefs == prefs && Value() == Node(prefs.interval, DEFAULT_INTERVAL, false)
    {
      this.prefs := prefs;
      sleepInterval, isOpen := DEFAULT_INTERVAL, false;
    }

    method Begin()
      modifies this
      ensures Value() == AfterBegin(old(Value()))
      ensures isOpen
      ensures prefs.interval.Some? && 10 <= prefs.interval.value <= 3600 ==> sleepInterval == prefs.interval.value
      ensures prefs.interval.None? || !(10 <= prefs.interval.value <= 3600) ==> sleepInterval == 60
    {
      sleepInterval := if prefs.interval.Some? then prefs.interval.value else DEFAULT_INTERVAL;
      if sleepInterval < MIN_INTERVAL || sleepInterval > MAX_INTERVAL {
        sleepInterval := DEFAULT_INTERVAL;
      }
      isOpen := true;
    }

    method End()
      modifies this
      ensures Value() == AfterEnd(old(Value()))
      ensures !isOpen && sleepInterval == old(sleepInterval)
    {
      if isOpen {
        isOpen := false;
      }
    }

    method Clear()
      modifies this, prefs
      ensures Value() == AfterClear(old(Value()))
      ensures sleepInterval == 60 && isOpen == old(isOpen)
      ensures prefs.interval == if old(isOpen) then None else old(prefs.interval)
    {
      if isOpen {
        prefs.interval := None;
      }
      sleepInterval := DEFAULT_INTERVAL;
    }

    method SetSleepInterval(sec: u16)
      modifies this, prefs
      ensures Value() == AfterSet(old(Value()), sec)
      ensures 10 <= sec <= 3600 ==> sleepInterval == sec
      ensures sec < 10 ==> sleepInterval == 10
      ensures 3600 < sec ==> sleepInterval == 3600
      ensures prefs.interval == if old(isOpen) then Some(sleepInterval) else old(prefs.interval)
      ensures isOpen == old(isOpen)
    {
      var s := sec;
      if s < MIN_INTERVAL { s := MIN_INTERVAL; }
      if s > MAX_INTERVAL { s := MAX_INTERVAL; }
      sleepInterval := s;
      if isOpen {
        prefs.interval := Some(s);
      }
    }
  }

  class SensorNode {
    var state: NodeState
    var deviceConnected: bool
    var hubReady: bool

    /** ble_peripheral_init on the given flash. */
    constructor (prefs: Preferences)
      ensures fresh(state) && state.prefs == prefs
      ensures state.Value() == AfterBoot(Node(prefs.interval, DEFAULT_INTERVAL, false))
      ensures !deviceConnected && !hubReady
    {
      var s := new NodeState(prefs);
      s.Begin();
      state := s;
      deviceConnected, hubReady := false, false;
    }

    /** ConfigCB::onWrite. A restart replaces the program's memory and keeps the flash. */
    method HandleWrite(bytes: seq<u8>) returns (ack: Option<seq<u8>>)
      modifies this, state, state.prefs
      ensures state.prefs == old(state.prefs)
      ensures Reaction(state.Value(), ack) == OnWrite(old(state.Value()), bytes, old(deviceConnected))
      ensures var p := Decode(bytes);
        var restarted := p.Some? && p.value.ResetNode?;
        && deviceConnected == (!restarted && old(deviceConnected))
        && hubReady == (!restarted && (old(hubReady) || p == Some(HubReady)))
    {
      ack := None;
      match Decode(bytes)
      case Some(HubReady) =>
        hubReady := true;
      case Some(SetInterval(id, sec)) =>
        state.SetSleepInterval(sec);
        if id != 0 && deviceConnected {
          ack := Some(Encode(CmdAck(id, 1)));
        }
      case Some(ResetNode(_, level)) =>
        if level >= 1 {
          state.Clear();
        }
        state.End();
        var s := new NodeState(state.prefs);
        s.Begin();
        state := s;
        deviceConnected, hubReady := false, false;
      case Some(TestCmd(id, _)) =>
        if deviceConnected {
          ack := Some(Encode(CmdAck(id, 1)));
        }
      case _ =>
    }
  }

  // ---------- Over many wake-ups ----------

  /** A boot, the storage closing before sleep, or a write (which can still come after that). */
  datatype Event = Boot | Sleep | Write(bytes: seq<u8>, connected: bool)

  function Apply(n: Node, e: Event): Node {
    match e
    case Boot => AfterBoot(n)
    case Sleep => AfterEnd(n)
    case Write(bytes, connected) => OnWrite(n, bytes, connected).node
  }

  /** Closing storage before sleep changes nothing else; waking up is a boot; a write is its reaction. */
  lemma EventEffects(n: Node, bytes: seq<u8>, connected: bool)
    ensures Apply(n, Sleep) == Node(n.stored, n.interval, false)
    ensures Apply(n, Boot) == AfterBoot(n)
    ensures Apply(n, Write(bytes, connected)) == OnWrite(n, bytes, connected).node
  {
  }

  function Live(n: Node, es: seq<Event>): Node {
    if es == [] then n else Apply(Live(n, es[..|es| - 1]), es[|es| - 1])
  }

  /** Whatever flash held, from the first boot on the interval is between 10 and 3600 seconds. */
  lemma {:induction false} IntervalAlwaysInRange(n: Node, es: seq<Event>)
    requires es != [] && es[0] == Boot
    ensures 10 <= Live(n, es).interval <= 3600
  {
    if |es| > 1 {
      IntervalAlwaysInRange(n, es[..|es| - 1]);
    }
  }

  /** An event that writes flash: a set or a factory reset while storage is open. */
  predicate TouchesFlash(n: Node, e: Event) {
    n.isOpen && e.Write? &&
    match Decode(e.bytes)
    case Some(SetInterval(_, _)) => true
    case Some(ResetNode(_, level)) => level >= 1
    case _ => false
  }

  predicate Quiet(n: Node, es: seq<Event>) {
    es == [] || (Quiet(n, es[..|es| - 1]) && !TouchesFlash(Live(n, es[..|es| - 1]), es[|es| - 1]))
  }

  lemma {:induction false} FlashSurvives(n: Node, es: seq<Event>)
    requires Quiet(n, es)
    ensures Live(n, es).stored == n.stored
  {
    if es != [] {
      FlashSurvives(n, es[..|es| - 1]);
    }
  }

  /** A value set while storage is open is what every later boot restores, until flash is touched. */
  lemma {:induction false} SetIsRestored(
    n: Node, bytes: seq<u8>, connected: bool, id: u16, sec: u16, later: seq<Event>)
    requires n.isOpen && Decode(bytes) == Some(SetInterval(id, sec))
    requires Quiet(Apply(n, Write(bytes, connected)), later)
    ensures var restored := AfterBoot(Live(Apply(n, Write(bytes, connected)), later)).interval;
      && (10 <= sec <= 3600 ==> restored == sec)
      && (sec < 10 ==> restored == 10)
      && (3600 < sec ==> restored == 3600)
  {
    FlashSurvives(Apply(n, Write(bytes, connected)), later);
  }

  /** After a factory reset with open storage every later boot yields 60, until flash is touched. */
  lemma {:induction false} ClearIsRemembered(
    n: Node, bytes: seq<u8>, connected: bool, id: u16, level: u8, later: seq<Event>)
    requires n.isOpen && Decode(bytes) == Some(ResetNode(id, level)) && level >= 1
    requires Quiet(Apply(n, Write(bytes, connected)), later)
    ensures AfterBoot(Live(Apply(n, Write(bytes, connected)), later)).interval == 60
  {
    FlashSurvives(Apply(n, Write(bytes, connected)), later);
  }

  /** A value set after storage closed holds for the current wake only. */
  lemma {:induction false} LateSetIsForgotten(
    n: Node, bytes: seq<u8>, connected: bool, id: u16, sec: u16, later: seq<Event>)
    requires !n.isOpen && Decode(bytes) == Some(SetInterval(id, sec))
    requires Quiet(Apply(n, Write(bytes, connected)), later)
    ensures var current := Apply(n, Write(bytes, connected)).interval;
      && (10 <= sec <= 3600 ==> current == sec)
      && (sec < 10 ==> current == 10)
      && (3600 < sec ==> current == 3600)
    ensures AfterBoot(Live(Apply(n, Write(bytes, connected)), later)) == AfterBoot(n)
  {
    FlashSurvives(Apply(n, Write(bytes, connected)), later);
  }
}
