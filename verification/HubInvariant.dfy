/** The inductive invariant of the two-task hub, one conjunct and one preservation lemma at a time. */
module HubInvariant {
  import opened Types
  import opened HubMachine
  import T = SlotTable

  // ---------- Items and tasks ----------

  /** An item is a dispatched command with a stamp taken at a true time not after now. */
  ghost predicate ItemOk(s: State, i: Item) {
    && i.serial < |s.dispatched| && i.cmd == s.dispatched[i.serial]
    && i.at <= s.clock && i.stamp == ToU32(i.at)
  }

  /** A queue holds items of its own node. */
  ghost predicate SlotOk(s: State, slot: T.Slot<Item>) {
    slot.Used? ==>
      && slot.node != HubItself
      && forall k :: 0 <= k < |slot.queue| ==> ItemOk(s, slot.queue[k]) && slot.queue[k].cmd.target == slot.node
  }

  ghost predicate TableOk(c: Config, s: State) {
    && |s.table| == c.slots
    && T.Valid(s.table, c.cap)
    && forall j :: 0 <= j < |s.table| ==> SlotOk(s, s.table[j])
  }

  ghost predicate MqttOk(s: State) {
    match s.mqtt
    case Idle => true
    case Unsent(serial) => serial + 1 == |s.dispatched| && s.dispatched[serial].target != HubItself
    case Stamped(item) => ItemOk(s, item) && item.serial + 1 == |s.dispatched| && item.cmd.target != HubItself
  }

  /**
   * A node whose command is in the loop task's hands keeps its slot, and its queue is what the pop
   * left plus what the MQTT task pushed since; the pop left room for the command.
   */
  ghost predicate LoopOk(c: Config, s: State) {
    s.loop.Carrying? ==>
      && ItemOk(s, s.loop.item) && s.loop.item.cmd.target == s.loop.node
      && s.loop.left < c.cap
      && T.Find(s.table, s.loop.node) < |s.table|
      && |s.table[T.Find(s.table, s.loop.node)].queue| == s.loop.left + s.loop.pushes
  }

  /** The node that the loop task is flushing. */
  predicate Flushing(s: State, n: NodeId) {
    !s.loop.Resting? && s.loop.node == n
  }

  /** An empty queue keeps its slot only while its node is being flushed. */
  ghost predicate NoHollow(s: State) {
    forall j :: 0 <= j < |s.table| && s.table[j].Used? && s.table[j].queue == [] ==> Flushing(s, s.table[j].node)
  }

  ghost predicate StructureOk(c: Config, s: State) {
    TableOk(c, s) && MqttOk(s) && LoopOk(c, s) && NoHollow(s)
  }

  lemma BootOk(c: Config)
    requires Sane(c)
    ensures StructureOk(c, Boot(c))
  {
  }

  /** The loop task only ever carries commands for nodes. */
  lemma HeldForANode(c: Config, s: State)
    requires StructureOk(c, s) && s.loop.Carrying?
    ensures s.loop.item.cmd.target != HubItself
  {
    assert SlotOk(s, s.table[T.Find(s.table, s.loop.node)]);
  }

  /** A slot written with items of its node keeps the table well-formed. */
  lemma WriteKeepsTable(c: Config, s: State, s1: State, n: NodeId, q: seq<Item>)
    requires TableOk(c, s) && T.Target(s.table, n) < |s.table|
    requires s1.table == s.table[T.Target(s.table, n) := T.Used(n, q)]
    requires s1.dispatched == s.dispatched && s1.clock == s.clock
    requires |q| <= c.cap && SlotOk(s, T.Used(n, q))
    ensures TableOk(c, s1)
  {
    T.WriteShape(s.table, c.cap, n, q);
    forall j | 0 <= j < |s.table|
      ensures SlotOk(s1, s1.table[j])
    {
      assert SlotOk(s, s.table[j]);
    }
  }

  /** Both pushes write the node's queue extended at one end, or leave the table alone. */
  lemma QueueOk(c: Config, s: State, n: NodeId)
    requires TableOk(c, s) && n != HubItself
    ensures SlotOk(s, T.Used(n, T.QueueOf(s.table, n)))
  {
    if T.Find(s.table, n) < |s.table| {
      assert SlotOk(s, s.table[T.Find(s.table, n)]);
    }
  }

  lemma PushKeepsTable(c: Config, s: State)
    requires Sane(c) && TableOk(c, s) && MqttOk(s) && s.mqtt.Stamped?
    ensures TableOk(c, DoCommitPush(c, s))
  {
    var item := s.mqtt.item;
    var n := item.cmd.target;
    T.PushShape(s.table, c.cap, n, item);
    if T.Push(s.table, c.cap, n, item).1 {
      QueueOk(c, s, n);
      WriteKeepsTable(c, s, DoCommitPush(c, s), n, T.QueueOf(s.table, n) + [item]);
    }
  }

  lemma PushKeepsTasks(c: Config, s: State)
    requires Sane(c) && TableOk(c, s) && LoopOk(c, s) && NoHollow(s) && s.mqtt.Stamped?
    ensures LoopOk(c, DoCommitPush(c, s)) && NoHollow(DoCommitPush(c, s))
  {
    var item := s.mqtt.item;
    var n := item.cmd.target;
    T.PushShape(s.table, c.cap, n, item);
    if T.Push(s.table, c.cap, n, item).1 {
      T.WriteShape(s.table, c.cap, n, T.QueueOf(s.table, n) + [item]);
    }
  }

  lemma PushKeeps(c: Config, s: State)
    requires Sane(c) && StructureOk(c, s) && s.mqtt.Stamped?
    ensures StructureOk(c, DoCommitPush(c, s))
  {
    PushKeepsTable(c, s);
    PushKeepsTasks(c, s);
  }

  lemma PopKeepsTable(c: Config, s: State)
    requires TableOk(c, s) && s.loop.Popping?
    ensures TableOk(c, DoPop(c, s))
  {
    var n, i := s.loop.node, T.Find(s.table, s.loop.node);
    var s1 := DoPop(c, s);
    if i < |s.table| {
      assert SlotOk(s, s.table[i]);
      var q := s.table[i].queue;
      var k := T.FirstLive(q, LiveAt(c, s.clock));
      if k < |q| {
        WriteKeepsTable(c, s, s1, n, q[k + 1..]);
      } else {
        T.AbsErase(s.table, i);
        assert forall j :: 0 <= j < |s.table| ==> SlotOk(s, s.table[j]);
        assert forall j :: 0 <= j < |s.table| ==> SlotOk(s1, s1.table[j]);
      }
    }
  }

  lemma PopKeeps(c: Config, s: State)
    requires Sane(c) && StructureOk(c, s) && s.loop.Popping?
    ensures StructureOk(c, DoPop(c, s))
  {
    var n, i := s.loop.node, T.Find(s.table, s.loop.node);
    PopKeepsTable(c, s);
    if i < |s.table| {
      assert SlotOk(s, s.table[i]);
      var q := s.table[i].queue;
      var k := T.FirstLive(q, LiveAt(c, s.clock));
      if k < |q| {
        T.WriteShape(s.table, c.cap, n, q[k + 1..]);
      }
    }
  }

  lemma FrontKeeps(c: Config, s: State)
    requires Sane(c) && StructureOk(c, s) && s.loop.Carrying?
    ensures StructureOk(c, DoCommitFront(c, s))
  {
    var n := s.loop.node;
    var q := [s.loop.item] + T.QueueOf(s.table, n);
    var s1 := DoCommitFront(c, s);
    T.PushShape(s.table, c.cap, n, s.loop.item);
    T.FindUnique(s.table, T.Find(s.table, n));
    if s1.table != s.table {
      assert SlotOk(s, s.table[T.Find(s.table, n)]);
      WriteKeepsTable(c, s, s1, n, q);
    }
  }

  /** Items stay well-formed as the clock advances and commands are dispatched. */
  lemma TableSurvives(c: Config, s: State, s1: State)
    requires TableOk(c, s) && s1.table == s.table
    requires s.dispatched <= s1.dispatched && s.clock <= s1.clock
    ensures TableOk(c, s1)
  {
    forall j | 0 <= j < |s.table|
      ensures SlotOk(s1, s1.table[j])
    {
      assert SlotOk(s, s.table[j]);
    }
  }

  /** The steps that leave the table alone. */
  lemma QuietStepKeeps(c: Config, s: State, a: Action)
    requires StructureOk(c, s) && Enabled(c, s, a) && !a.CommitPush? && !a.PopNext? && !a.CommitFront?
    ensures StructureOk(c, Apply(c, s, a))
  {
    TableSurvives(c, s, Apply(c, s, a));
  }

  lemma StructureKept(c: Config, s: State, a: Action)
    requires Sane(c) && StructureOk(c, s) && Enabled(c, s, a)
    ensures StructureOk(c, Apply(c, s, a))
  {
    match a
    case CommitPush => PushKeeps(c, s);
    case PopNext => PopKeeps(c, s);
    case CommitFront => FrontKeeps(c, s);
    case _ => QuietStepKeeps(c, s, a);
  }
}
