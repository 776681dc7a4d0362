/**
 * The whole relay: the server with its id counter and command log, lossy channels that deliver at
 * most once, any number of hubs (each the two-task machine), nodes with their stored interval, and
 * acknowledgements on their way back through a bounded queue.
 *
 * Next to what the programs store, the state carries provenance: which submitted command a message,
 * an execution, an acknowledgement or a log row goes back to.
 */
module EndToEnd {
  import opened Types
  import opened Packets
  import opened CommandLog
  import H = HubMachine
  import N = NodeState

  /** Hub parameters and the capacity of a hub's acknowledgement queue. */
  datatype Config = Config(hub: H.Config, ackCap: nat)

  /** A submitted command with its final id. */
  datatype Issued = Issued(hub: HubId, request: Request)

  /** A request in progress at the server: commands `first..first+count` of the issue history. */
  datatype Send = Send(hub: HubId, first: nat, count: nat, published: bool, saved: nat)

  datatype Tagged = Tagged(cmd: Command, origin: nat)

  datatype Message = Message(hub: HubId, cmds: seq<Tagged>)

  /** An acknowledgement of execution number `exec`. */
  datatype Ack = Ack(id: u16, success: bool, exec: nat)

  datatype UpMessage = UpMessage(hub: HubId, ack: Ack)

  /** `origins` numbers the issued command behind each dispatch of the hub's history. */
  datatype Hub = Hub(core: H.State, origins: seq<nat>, inbox: seq<Tagged>, acks: seq<Ack>)

  /** A packet acted on by a node, and the interval the node had afterwards. */
  datatype Exec = Exec(node: NodeId, packet: Packet, interval: u16, origin: nat)

  /** A log row; `proof` is the execution whose acknowledgement settled it. */
  datatype LogRow = LogRow(row: Row, origin: nat, proof: Option<nat>)

  datatype Net = Net(
    counter: nat,
    issued: seq<Issued>,
    sends: seq<Send>,
    rows: seq<LogRow>,
    down: seq<Message>,
    hubs: map<HubId, Hub>,
    nodes: map<NodeId, N.Node>,
    execs: seq<Exec>,
    up: seq<UpMessage>)

  /**
   * What became of one write: whether the node received it (it did if the write was acknowledged),
   * whether the node saw itself connected, and whether the hub got its notification.
   */
  datatype Radio = Radio(received: bool, connected: bool, notified: bool)

  datatype Action =
    | Submit(hub: HubId, requests: seq<Request>)
    | Publish(i: nat)
    | PublishFails(i: nat)
    | SaveRow(i: nat)
    | LoseDown(i: nat)
    | Deliver(i: nat)
    | HubCommand(h: HubId)
    | HubStep(h: HubId, step: H.Action, radio: Radio)
    | NodeEvent(node: NodeId, event: N.Event)
    | DrainAck(h: HubId, published: bool)
    | LoseUp(i: nat)
    | ProcessAck(i: nat, now: nat)
    | RebootHub(h: HubId)
    | RestartServer

  function NewHub(c: Config): Hub { Hub(H.Boot(c.hub), [], [], []) }

  function Start(c: Config, hubs: set<HubId>, nodes: map<NodeId, N.Node>): Net {
    Net(0, [], [], [], [], map h | h in hubs :: NewHub(c), nodes, [], [])
  }

  // ---------- Commands on the wire ----------

  /** The id as the hub reads it: 0 unless it is a 32-bit integer, then its low 16 bits. */
  function WireId(id: int): u16 {
    if -0x8000_0000 <= id < 0x8000_0000 then ToU16(id) else 0
  }

  /** Ids that fit 16 bits are kept, other 32-bit ones lose their high bits, and anything else reads as 0. */
  lemma WireIdOf(id: int)
    ensures 0 <= id <= 65535 ==> WireId(id) == id
    ensures -2147483648 <= id <= 2147483647 ==> (id - WireId(id)) % 65536 == 0
    ensures id < -2147483648 || id > 2147483647 ==> WireId(id) == 0
  {
  }

  function OnWire(r: Request): Command { Command(r.target, r.kind, r.payload, WireId(r.cmdId)) }

  function Without<T>(s: seq<T>, i: nat): (r: seq<T>)
    requires i < |s|
    ensures forall x :: x in r ==> x in s
  {
    s[..i] + s[i + 1..]
  }

  /** The commands `first..first+count` of the history, as sent to the hub. */
  function Envelope(issued: seq<Issued>, first: nat, count: nat): (r: seq<Tagged>)
    requires first + count <= |issued|
    ensures |r| == count
    ensures forall k :: 0 <= k < count ==> r[k] == Tagged(OnWire(issued[first + k].request), first + k)
  {
    seq(count, k requires 0 <= k < count => Tagged(OnWire(issued[first + k].request), first + k))
  }

  function IssueAll(hub: HubId, rs: seq<Request>): (r: seq<Issued>)
    ensures |r| == |rs| && forall k :: 0 <= k < |rs| ==> r[k] == Issued(hub, rs[k])
  {
    seq(|rs|, k requires 0 <= k < |rs| => Issued(hub, rs[k]))
  }

  // ---------- The log with provenance ----------

  function SettleAll(rows: seq<LogRow>, m: UpMessage, now: nat): (r: seq<LogRow>)
    ensures |r| == |rows|
    ensures forall k :: 0 <= k < |rows| ==>
      r[k] == if Matches(rows[k].row, m.hub, m.ack.id)
              then LogRow(Settle(rows[k].row, m.ack.success, now), rows[k].origin, Some(m.ack.exec))
              else rows[k]
  {
    seq(|rows|, k requires 0 <= k < |rows| =>
      if Matches(rows[k].row, m.hub, m.ack.id)
      then LogRow(Settle(rows[k].row, m.ack.success, now), rows[k].origin, Some(m.ack.exec))
      else rows[k])
  }

  function Plain(rows: seq<LogRow>): (r: seq<Row>)
    ensures |r| == |rows| && forall k :: 0 <= k < |rows| ==> r[k] == rows[k].row
  {
    seq(|rows|, k requires 0 <= k < |rows| => rows[k].row)
  }

  /** With provenance erased, processing an acknowledgement is the update of the command log. */
  lemma SettleAllIsTheUpdate(rows: seq<LogRow>, m: UpMessage, now: nat)
    ensures Plain(SettleAll(rows, m, now)) == AckRows(Plain(rows), m.hub, m.ack.id, m.ack.success, now)
  {
  }

  // ---------- Steps ----------

  /** The write that a hub step attempts, if it gets as far as one. */
  function Attempted(hub: Hub, step: H.Action): Option<Tagged> {
    if step.Dispatch? && hub.inbox != [] && PacketFor(hub.inbox[0].cmd).Some? then Some(hub.inbox[0])
    else if step.SendHeld? && hub.core.loop.Carrying? && PacketFor(hub.core.loop.item.cmd).Some?
         && hub.core.loop.item.serial < |hub.origins| then
      Some(Tagged(hub.core.loop.item.cmd, hub.origins[hub.core.loop.item.serial]))
    else None
  }

  predicate Reported(step: H.Action) { (step.Dispatch? || step.SendHeld?) && step.sent }

  ghost predicate Enabled(c: Config, s: Net, a: Action) {
    match a
    case Submit(_, _) => true
    case Publish(i) => i < |s.sends| && !s.sends[i].published && s.sends[i].first + s.sends[i].count <= |s.issued|
    case PublishFails(i) => i < |s.sends| && !s.sends[i].published
    case SaveRow(i) =>
      && i < |s.sends| && s.sends[i].published && s.sends[i].saved < s.sends[i].count
      && s.sends[i].first + s.sends[i].count <= |s.issued|
    case LoseDown(i) => i < |s.down|
    case Deliver(i) => i < |s.down| && s.down[i].hub in s.hubs && s.hubs[s.down[i].hub].inbox == []
    case HubCommand(h) => h in s.hubs && s.hubs[h].inbox != [] && s.hubs[h].core.mqtt.Idle?
      && s.hubs[h].inbox[0].cmd.target == HubItself
    case HubStep(h, step, radio) =>
      && h in s.hubs && H.Enabled(c.hub, s.hubs[h].core, step)
      && (step.Dispatch? ==> s.hubs[h].inbox != [] && step.cmd == s.hubs[h].inbox[0].cmd)
      && (radio.received ==>
            && Attempted(s.hubs[h], step).Some?
            && Attempted(s.hubs[h], step).value.cmd.target in s.nodes)
      && (Reported(step) ==> radio.received)
    case NodeEvent(node, event) => node in s.nodes && !event.Write?
    case DrainAck(h, _) => h in s.hubs && s.hubs[h].acks != []
    case LoseUp(i) => i < |s.up|
    case ProcessAck(i, _) => i < |s.up|
    case RebootHub(h) => h in s.hubs
    case RestartServer => true
  }

  /** handleCmdAck: a full queue drops the acknowledgement. */
  function Enqueue(c: Config, hub: Hub, bytes: seq<u8>, exec: nat): Hub {
    match Decode(bytes)
    case Some(CmdAck(id, success)) =>
      if |hub.acks| < c.ackCap then hub.(acks := hub.acks + [Ack(id, success != 0, exec)]) else hub
    case _ => hub
  }

  /** An acknowledgement is lost here only to a full queue; anything else that arrives is ignored. */
  lemma AckQueued(c: Config, hub: Hub, id: u16, success: u8, exec: nat)
    ensures var bytes := [0x21, id % 256, id / 256, success];
      Enqueue(c, hub, bytes, exec) ==
        if |hub.acks| < c.ackCap then hub.(acks := hub.acks + [Ack(id, success != 0, exec)]) else hub
  {
    PacketBytes(id, 0, success, 0, 0);
    DecodeInvertsEncode(CmdAck(id, success), []);
    assert Encode(CmdAck(id, success)) + [] == Encode(CmdAck(id, success));
  }

  /** A node receives a write of hub `h`, acts on it, and may notify the hub. */
  function Receive(c: Config, s: Net, h: HubId, t: Tagged, radio: Radio): Net
    requires PacketFor(t.cmd).Some? && t.cmd.target in s.nodes && h in s.hubs
  {
    var bytes := Encode(PacketFor(t.cmd).value);
    match Decode(bytes)
    case None => s
    case Some(p) =>
      var r := N.OnWrite(s.nodes[t.cmd.target], bytes, radio.connected);
      var s1 := s.(nodes := s.nodes[t.cmd.target := r.node],
                   execs := s.execs + [Exec(t.cmd.target, p, r.node.interval, t.origin)]);
      if r.ack.Some? && radio.notified then
        s1.(hubs := s1.hubs[h := Enqueue(c, s1.hubs[h], r.ack.value, |s.execs|)])
      else s1
  }

  /** The hub after its step, with the command it dispatched moved from the inbox to the history. */
  ghost function StepHub(c: Config, hub: Hub, step: H.Action): Hub
    requires H.Enabled(c.hub, hub.core, step) && (step.Dispatch? ==> hub.inbox != [])
  {
    var moved :=
      if step.Dispatch? then hub.(origins := hub.origins + [hub.inbox[0].origin], inbox := hub.inbox[1..])
      else hub;
    moved.(core := H.Apply(c.hub, hub.core, step))
  }

  function DoSaveRow(s: Net, i: nat): Net
    requires i < |s.sends| && s.sends[i].saved < s.sends[i].count && s.sends[i].first + s.sends[i].count <= |s.issued|
  {
    var k := s.sends[i].first + s.sends[i].saved;
    s.(rows := s.rows + [LogRow(NewRow(s.sends[i].hub, s.issued[k].request), k, None)],
       sends := s.sends[i := s.sends[i].(saved := s.sends[i].saved + 1)])
  }

  function DoDrain(s: Net, h: HubId, published: bool): Net
    requires h in s.hubs && s.hubs[h].acks != []
  {
    var ack := s.hubs[h].acks[0];
    var s1 := s.(hubs := s.hubs[h := s.hubs[h].(acks := s.hubs[h].acks[1..])]);
    if published then s1.(up := s.up + [UpMessage(h, ack)]) else s1
  }

  ghost function Apply(c: Config, s: Net, a: Action): Net
    requires Enabled(c, s, a)
  {
    match a
    case Submit(hub, rs) =>
      var (given, counter) := AssignIds(s.counter, rs);
      s.(counter := counter,
         issued := s.issued + IssueAll(hub, given),
         sends := s.sends + [Send(hub, |s.issued|, |given|, false, 0)])
    case Publish(i) =>
      var x := s.sends[i];
      s.(sends := s.sends[i := x.(published := true)],
         down := s.down + [Message(x.hub, Envelope(s.issued, x.first, x.count))])
    case PublishFails(i) => s.(sends := Without(s.sends, i))
    case SaveRow(i) => DoSaveRow(s, i)
    case LoseDown(i) => s.(down := Without(s.down, i))
    case Deliver(i) =>
      var m := s.down[i];
      s.(down := Without(s.down, i), hubs := s.hubs[m.hub := s.hubs[m.hub].(inbox := m.cmds)])
    case HubCommand(h) => s.(hubs := s.hubs[h := s.hubs[h].(inbox := s.hubs[h].inbox[1..])])
    case HubStep(h, step, radio) =>
      var s1 := s.(hubs := s.hubs[h := StepHub(c, s.hubs[h], step)]);
      if radio.received then Receive(c, s1, h, Attempted(s.hubs[h], step).value, radio) else s1
    case NodeEvent(node, event) => s.(nodes := s.nodes[node := N.Apply(s.nodes[node], event)])
    case DrainAck(h, published) => DoDrain(s, h, published)
    case LoseUp(i) => s.(up := Without(s.up, i))
    case ProcessAck(i, now) => s.(up := Without(s.up, i), rows := SettleAll(s.rows, s.up[i], now))
    case RebootHub(h) => s.(hubs := s.hubs[h := NewHub(c)])
    case RestartServer => s.(counter := 0, sends := [])
  }

  ghost function Run(c: Config, start: Net, run: seq<Action>): Option<Net> {
    if run == [] then Some(start)
    else
      var before := Run(c, start, run[..|run| - 1]);
      if before.Some? && Enabled(c, before.value, run[|run| - 1])
      then Some(Apply(c, before.value, run[|run| - 1]))
      else None
  }
}
