/**
 * The pending pool under its two tasks. The MQTT task dispatches commands; the loop task flushes.
 * Each lock region, clock reading and send is one step, so any number of steps of the other task
 * can fall between a pop, its send and the pushFront after a failure.
 *
 * The state carries, besides what the hub stores, a serial number and the true stamp time in every
 * queued item and the history of what became of each command.
 */
module HubMachine {
  import opened Types
  import opened Packets
  import P = PendingPool
  import T = SlotTable

  /** Ring size, slot count and TTL in milliseconds. */
  datatype Config = Config(cap: nat, slots: nat, ttl: nat)

  ghost predicate Sane(c: Config) { 0 < c.cap && 0 < c.slots && 0 < c.ttl < TWO_32 }

  /** A parked command: `serial` numbers the dispatches, `at` is the true time behind `stamp`. */
  datatype Item = Item(cmd: Command, stamp: u32, serial: nat, at: nat)

  /** dispatchCommand: after a failed send, and after reading the clock for the push. */
  datatype MqttTask = Idle | Unsent(serial: nat) | Stamped(item: Item)

  /** Where the loop task stands with the command it popped. */
  datatype Phase = Held | Failed | Restamped

  /**
   * flushNodePending. `left` is the length of the queue just after the pop and `pushes` the number
   * of commands that the MQTT task has added to it since.
   */
  datatype LoopTask =
    | Resting
    | Popping(node: NodeId)
    | Carrying(node: NodeId, item: Item, phase: Phase, left: nat, pushes: nat)

  datatype State = State(
    table: T.Table<Item>,
    clock: nat,
    mqtt: MqttTask,
    loop: LoopTask,
    // history
    dispatched: seq<Command>,
    direct: seq<nat>,
    refused: seq<Item>,
    pushed: seq<Item>,
    expired: seq<Item>,
    flushed: seq<Item>,
    lost: seq<Item>)

  datatype Action =
    | Tick(ms: nat)
    | Dispatch(cmd: Command, sent: bool)
    | StampPush
    | CommitPush
    | BeginFlush(node: NodeId)
    | PopNext
    | SendHeld(sent: bool)
    | StampFront
    | CommitFront

  function Boot(c: Config): State {
    State(seq(c.slots, _ => T.Free), 0, Idle, Resting, [], [], [], [], [], [], [])
  }

  /** The TTL test of pop at true time `now`. */
  function LiveAt(c: Config, now: nat): Item -> bool {
    (i: Item) => P.Age(ToU32(now), i.stamp) < c.ttl
  }

  /** A send can succeed only for a command that yields a packet; hub commands are not parked. */
  ghost predicate Enabled(c: Config, s: State, a: Action) {
    match a
    case Tick(_) => true
    case Dispatch(cmd, sent) => s.mqtt.Idle? && cmd.target != HubItself && (sent ==> PacketFor(cmd).Some?)
    case StampPush => s.mqtt.Unsent? && s.mqtt.serial < |s.dispatched|
    case CommitPush => s.mqtt.Stamped?
    case BeginFlush(_) => s.loop.Resting?
    case PopNext => s.loop.Popping?
    case SendHeld(sent) => s.loop.Carrying? && s.loop.phase == Held && (sent ==> PacketFor(s.loop.item.cmd).Some?)
    case StampFront => s.loop.Carrying? && s.loop.phase == Failed
    case CommitFront => s.loop.Carrying? && s.loop.phase == Restamped
  }

  function DoDispatch(s: State, cmd: Command, sent: bool): State {
    var serial := |s.dispatched|;
    var s1 := s.(dispatched := s.dispatched + [cmd]);
    if sent then s1.(direct := s.direct + [serial]) else s1.(mqtt := Unsent(serial))
  }

  /** A successful push for the node in the loop task's hands is counted there. */
  function Noticed(l: LoopTask, n: NodeId): LoopTask {
    if l.Carrying? && l.node == n then l.(pushes := l.pushes + 1) else l
  }

  function DoCommitPush(c: Config, s: State): State
    requires s.mqtt.Stamped?
  {
    var item := s.mqtt.item;
    var (table, ok) := T.Push(s.table, c.cap, item.cmd.target, item);
    var s1 := s.(table := table, mqtt := Idle);
    if ok then s1.(pushed := s.pushed + [item], loop := Noticed(s.loop, item.cmd.target))
    else s1.(refused := s.refused + [item])
  }

  function DoPop(c: Config, s: State): State
    requires s.loop.Popping?
  {
    var node := s.loop.node;
    var r := T.Pop(s.table, node, LiveAt(c, s.clock));
    var s1 := s.(table := r.table, expired := s.expired + r.dropped);
    match r.got
    case None => s1.(loop := Resting)
    case Some(item) =>
      var i := T.Find(s.table, node);
      s1.(loop := Carrying(node, item, Held, if i < |r.table| && r.table[i].Used? then |r.table[i].queue| else 0, 0))
  }

  function DoCommitFront(c: Config, s: State): State
    requires s.loop.Carrying?
  {
    var (table, ok) := T.PushFront(s.table, c.cap, s.loop.node, s.loop.item);
    var s1 := s.(table := table, loop := Resting);
    if ok then s1 else s1.(lost := s.lost + [s.loop.item])
  }

  function Apply(c: Config, s: State, a: Action): State
    requires Enabled(c, s, a)
  {
    match a
    case Tick(ms) => s.(clock := s.clock + ms)
    case Dispatch(cmd, sent) => DoDispatch(s, cmd, sent)
    case StampPush =>
      s.(mqtt := Stamped(Item(s.dispatched[s.mqtt.serial], ToU32(s.clock), s.mqtt.serial, s.clock)))
    case CommitPush => DoCommitPush(c, s)
    case BeginFlush(n) => s.(loop := Popping(n))
    case PopNext => DoPop(c, s)
    case SendHeld(sent) =>
      if sent then s.(loop := Popping(s.loop.node), flushed := s.flushed + [s.loop.item])
      else s.(loop := s.loop.(phase := Failed))
    case StampFront =>
      var item := s.loop.item.(stamp := ToU32(s.clock), at := s.clock);
      s.(loop := s.loop.(item := item, phase := Restamped))
    case CommitFront => DoCommitFront(c, s)
  }

  /** The state after a run, or `None` if some step of it cannot be taken. */
  ghost function Run(c: Config, run: seq<Action>): Option<State> {
    if run == [] then Some(Boot(c))
    else
      var before := Run(c, run[..|run| - 1]);
      if before.Some? && Enabled(c, before.value, run[|run| - 1])
      then Some(Apply(c, before.value, run[|run| - 1]))
      else None
  }
}
