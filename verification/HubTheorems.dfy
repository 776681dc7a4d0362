/** What holds in every run of the two-task hub. */
module HubTheorems {
  import opened Types
  import opened Packets
  import opened HubMachine
  import opened HubInvariant
  import opened HubLedger
  import opened HubOrder
  import T = SlotTable

  // ---------- Every run ----------

  ghost predicate Reachable(c: Config, s: State) {
    exists run :: Run(c, run) == Some(s)
  }

  lemma {:induction false} RunKeepsStructure(c: Config, run: seq<Action>)
    requires Sane(c) && Run(c, run).Some?
    ensures StructureOk(c, Run(c, run).value)
    decreases |run|
  {
    if run == [] {
      BootOk(c);
    } else {
      RunKeepsStructure(c, run[..|run| - 1]);
      StructureKept(c, Run(c, run[..|run| - 1]).value, run[|run| - 1]);
    }
  }

  lemma {:induction false} RunKeepsLedger(c: Config, run: seq<Action>, id: nat)
    requires Sane(c) && Run(c, run).Some?
    ensures LedgerOk(Run(c, run).value, id)
    decreases |run|
  {
    if run == [] {
      InFreeTable(Boot(c).table, id);
    } else {
      RunKeepsStructure(c, run[..|run| - 1]);
      RunKeepsLedger(c, run[..|run| - 1], id);
      LedgerKept(c, Run(c, run[..|run| - 1]).value, run[|run| - 1], id);
    }
  }

  lemma {:induction false} RunKeepsOrder(c: Config, run: seq<Action>, n: NodeId)
    requires Sane(c) && Run(c, run).Some?
    ensures OrderOk(Run(c, run).value, n)
    decreases |run|
  {
    if run == [] {
      assert Track(Boot(c), n) == [];
    } else {
      RunKeepsStructure(c, run[..|run| - 1]);
      RunKeepsOrder(c, run[..|run| - 1], n);
      OrderKept(c, Run(c, run[..|run| - 1]).value, run[|run| - 1], n);
    }
  }

  // ---------- Conservation ----------

  /**
   * Every dispatched command is in exactly one place: sent directly, refused, expired, flushed,
   * lost, in one of the tasks' hands, or parked; and what is parked sits in its target's slot.
   */
  lemma Conservation(c: Config, s: State, id: nat)
    requires Sane(c) && Reachable(c, s)
    ensures Settled(s, id) + WithMqtt(s.mqtt, id) + WithLoop(s.loop, id) + InTable(s.table, id)
      == if id < |s.dispatched| then 1 else 0
    ensures forall j, k :: 0 <= j < |s.table| && s.table[j].Used? && 0 <= k < |s.table[j].queue| ==>
      var item := s.table[j].queue[k];
      && item.serial < |s.dispatched| && item.cmd == s.dispatched[item.serial]
      && item.cmd.target == s.table[j].node
  {
    var run :| Run(c, run) == Some(s);
    RunKeepsLedger(c, run, id);
    RunKeepsStructure(c, run);
    forall j, k | 0 <= j < |s.table| && s.table[j].Used? && 0 <= k < |s.table[j].queue|
      ensures ItemOk(s, s.table[j].queue[k]) && s.table[j].queue[k].cmd.target == s.table[j].node
    {
      assert SlotOk(s, s.table[j]);
    }
  }

  /**
   * A command is lost at pushFront exactly when the MQTT task has filled the room that the pop
   * left, which takes at least one push for the node since; the node's slot is always still there.
   */
  lemma LostOnlyToPushes(c: Config, s: State)
    requires Sane(c) && Reachable(c, s) && Enabled(c, s, CommitFront)
    ensures T.Find(s.table, s.loop.node) < |s.table|
    ensures Apply(c, s, CommitFront).lost != s.lost <==> s.loop.left + s.loop.pushes == c.cap
    ensures Apply(c, s, CommitFront).lost != s.lost ==> s.loop.pushes > 0
  {
    var run :| Run(c, run) == Some(s);
    RunKeepsStructure(c, run);
    T.PushShape(s.table, c.cap, s.loop.node, s.loop.item);
    assert |s.lost + [s.loop.item]| != |s.lost|;
  }

  lemma {:induction false} RunKeepsTally(c: Config, run: seq<Action>)
    requires Sane(c) && Run(c, run).Some?
    ensures Tally(Run(c, run).value) == |Run(c, run).value.dispatched|
    decreases |run|
  {
    if run == [] {
      T.TotalOfFree(Boot(c).table);
    } else {
      RunKeepsStructure(c, run[..|run| - 1]);
      RunKeepsTally(c, run[..|run| - 1]);
      TallyKept(c, Run(c, run[..|run| - 1]).value, run[|run| - 1]);
    }
  }

  /**
   * totalPending tells how many commands are parked: in every reachable state it is what is left of
   * the dispatched commands once those settled and those in the tasks' hands are taken off.
   */
  lemma TotalPendingAddsUp(c: Config, s: State)
    requires Sane(c) && Reachable(c, s)
    ensures T.Total(s.table) ==
      |s.dispatched| - |s.direct| - |s.refused| - |s.expired| - |s.flushed| - |s.lost|
      - (if s.mqtt.Idle? then 0 else 1) - (if s.loop.Carrying? then 1 else 0)
  {
    var run :| Run(c, run) == Some(s);
    RunKeepsTally(c, run);
  }

  // ---------- The tasks run freely ----------

  predicate OfMqttTask(a: Action) { a.Dispatch? || a.StampPush? || a.CommitPush? }

  predicate OfLoopTask(a: Action) {
    a.BeginFlush? || a.PopNext? || a.SendHeld? || a.StampFront? || a.CommitFront?
  }

  /**
   * Neither task ever waits for the other: what each may do next does not depend on where the other
   * one stands, and in every reachable state each of them has a next step.
   */
  lemma TasksNeverWait(c: Config, s: State, a: Action, mqtt: MqttTask, loop: LoopTask)
    requires Sane(c) && Reachable(c, s)
    ensures a.Tick? ==> Enabled(c, s, a)
    ensures OfMqttTask(a) ==> (Enabled(c, s.(loop := loop), a) <==> Enabled(c, s, a))
    ensures OfLoopTask(a) ==> (Enabled(c, s.(mqtt := mqtt), a) <==> Enabled(c, s, a))
    ensures s.mqtt.Idle? ==>
      forall cmd: Command, sent :: cmd.target != HubItself && (sent ==> PacketFor(cmd).Some?) ==>
        Enabled(c, s, Dispatch(cmd, sent))
    ensures s.mqtt.Unsent? ==> Enabled(c, s, StampPush)
    ensures s.mqtt.Stamped? ==> Enabled(c, s, CommitPush)
    ensures s.loop.Resting? ==> forall n :: Enabled(c, s, BeginFlush(n))
    ensures s.loop.Popping? ==> Enabled(c, s, PopNext)
    ensures s.loop.Carrying? ==>
      match s.loop.phase
      case Held =>
        && Enabled(c, s, SendHeld(false))
        && (PacketFor(s.loop.item.cmd).Some? ==> Enabled(c, s, SendHeld(true)))
      case Failed => Enabled(c, s, StampFront)
      case Restamped => Enabled(c, s, CommitFront)
  {
    var run :| Run(c, run) == Some(s);
    RunKeepsStructure(c, run);
  }

  // ---------- Order ----------

  /**
   * For each node, what the flush has delivered is an in-order subsequence of what was pushed, each
   * command at most once, through any number of retries, expiries and slot changes.
   */
  lemma DeliveredInPushOrder(c: Config, s: State, n: NodeId)
    requires Sane(c) && Reachable(c, s)
    ensures Subsequence(Of(s.flushed, n), Of(s.pushed, n))
    ensures Increasing(Of(s.flushed, n))
  {
    var run :| Run(c, run) == Some(s);
    RunKeepsOrder(c, run, n);
    var f, t := Of(s.flushed, n), Track(s, n);
    assert forall i :: 0 <= i < |f| ==> f[i] == t[i];
    IncreasingSubset(f, Of(s.pushed, n));
  }

  // ---------- Slots ----------

  /** Slots whose queue has run empty. */
  function Hollow(t: T.Table<Item>): nat {
    if t == [] then 0 else (if t[0].Used? && t[0].queue == [] then 1 else 0) + Hollow(t[1..])
  }

  lemma {:induction false} ActiveIsBusyOrHollow(t: T.Table<Item>)
    ensures T.Active(t) == T.Busy(t) + Hollow(t)
  {
    if t != [] {
      ActiveIsBusyOrHollow(t[1..]);
    }
  }

  lemma {:induction false} HollowCounts(t: T.Table<Item>)
    requires forall i, j :: 0 <= i < j < |t| ==> !(Empty(t[i]) && Empty(t[j]))
    ensures Hollow(t) <= 1
    ensures Hollow(t) == 0 <==> forall j :: 0 <= j < |t| ==> !Empty(t[j])
  {
    if t != [] {
      HollowCounts(t[1..]);
      assert forall j :: 0 < j < |t| ==> t[j] == t[1..][j - 1];
      if Empty(t[0]) {
        assert forall j :: 0 <= j < |t[1..]| ==> !Empty(t[1..][j]);
      }
    }
  }

  predicate Empty(slot: T.Slot<Item>) { slot.Used? && slot.queue == [] }

  /**
   * activeSlots counts the nodes with parked commands, plus at most one: the node being flushed,
   * while its queue is empty. Outside a flush it is exact.
   */
  lemma SlotCountAccurate(c: Config, s: State)
    requires Sane(c) && Reachable(c, s)
    ensures T.Busy(s.table) <= T.Active(s.table) <= T.Busy(s.table) + 1
    ensures T.Active(s.table) == T.Busy(s.table) + 1 <==>
      exists j :: 0 <= j < |s.table| && Empty(s.table[j]) && Flushing(s, s.table[j].node)
    ensures s.loop.Resting? ==> T.Active(s.table) == T.Busy(s.table)
  {
    var run :| Run(c, run) == Some(s);
    RunKeepsStructure(c, run);
    ActiveIsBusyOrHollow(s.table);
    HollowCounts(s.table);
  }

  // ---------- A run that the TTL was meant to exclude ----------

  lemma RunStep(c: Config, run: seq<Action>, a: Action)
    requires Run(c, run).Some? && Enabled(c, Run(c, run).value, a)
    ensures Run(c, run + [a]) == Some(Apply(c, Run(c, run).value, a))
  {
    assert (run + [a])[..|run + [a]| - 1] == run;
  }

  /** A run that parks one command at time 0. */
  lemma ParkOne(c: Config, cmd: Command) returns (run: seq<Action>)
    requires Sane(c) && cmd.target != HubItself
    ensures Run(c, run).Some?
    ensures var s := Run(c, run).value;
      && s.clock == 0 && s.loop.Resting? && s.mqtt.Idle? && s.lost == []
      && T.QueueOf(s.table, cmd.target) == [Item(cmd, 0, 0, 0)]
  {
    var n, item := cmd.target, Item(cmd, 0, 0, 0);
    RunStep(c, [], Dispatch(cmd, false));
    run := [] + [Dispatch(cmd, false)];
    RunStep(c, run, StampPush);
    run := run + [StampPush];
    RunStep(c, run, CommitPush);
    QueueAfterPush(Run(c, run).value.table, c.cap, n, item, n);
    T.PushShape(Run(c, run).value.table, c.cap, n, item);
    run := run + [CommitPush];
  }

  /** Parked for exactly 2^32 ms, an expired command looks fresh and is handed out to be sent. */
  lemma WrapRevivesExample(c: Config, cmd: Command) returns (run: seq<Action>)
    requires Sane(c) && cmd.target != HubItself
    ensures Run(c, run).Some?
    ensures Run(c, run).value.clock == TWO_32
    ensures Run(c, run).value.loop == Carrying(cmd.target, Item(cmd, 0, 0, 0), Held, 0, 0)
  {
    run := ParkOne(c, cmd);
    RunStep(c, run, Tick(TWO_32));
    run := run + [Tick(TWO_32)];
    RunStep(c, run, BeginFlush(cmd.target));
    run := run + [BeginFlush(cmd.target)];
    assert LiveAt(c, TWO_32)(Item(cmd, 0, 0, 0));
    RunStep(c, run, PopNext);
    run := run + [PopNext];
  }

  // ---------- A run that loses a command ----------

  /** The MQTT task parks one more command for the node whose command the loop task holds. */
  lemma ParkBehind(c: Config, run: seq<Action>, cmd: Command) returns (longer: seq<Action>)
    requires Sane(c) && Run(c, run).Some? && cmd.target != HubItself
    requires var s := Run(c, run).value;
      && s.mqtt.Idle? && s.loop.Carrying? && s.loop.node == cmd.target && s.loop.phase == Held
      && |T.QueueOf(s.table, cmd.target)| < c.cap
    ensures Run(c, longer).Some?
    ensures var s, t := Run(c, run).value, Run(c, longer).value;
      && t.mqtt.Idle? && t.loop.Carrying? && t.loop.node == cmd.target && t.loop.phase == Held
      && t.loop.item == s.loop.item && t.lost == s.lost
      && |T.QueueOf(t.table, cmd.target)| == |T.QueueOf(s.table, cmd.target)| + 1
  {
    var s := Run(c, run).value;
    RunKeepsStructure(c, run);
    var item := Item(cmd, ToU32(s.clock), |s.dispatched|, s.clock);
    RunStep(c, run, Dispatch(cmd, false));
    longer := run + [Dispatch(cmd, false)];
    RunStep(c, longer, StampPush);
    longer := longer + [StampPush];
    RunStep(c, longer, CommitPush);
    QueueAfterPush(s.table, c.cap, cmd.target, item, cmd.target);
    T.PushShape(s.table, c.cap, cmd.target, item);
    longer := longer + [CommitPush];
  }

  lemma {:induction false} FillBehind(c: Config, run: seq<Action>, cmd: Command, room: nat)
    returns (longer: seq<Action>)
    requires Sane(c) && Run(c, run).Some? && cmd.target != HubItself
    requires var s := Run(c, run).value;
      && s.mqtt.Idle? && s.loop.Carrying? && s.loop.node == cmd.target && s.loop.phase == Held
      && |T.QueueOf(s.table, cmd.target)| + room == c.cap
    ensures Run(c, longer).Some?
    ensures var s, t := Run(c, run).value, Run(c, longer).value;
      && t.loop.Carrying? && t.loop.node == cmd.target && t.loop.phase == Held
      && t.loop.item == s.loop.item && t.lost == s.lost
      && |T.QueueOf(t.table, cmd.target)| == c.cap
    decreases room
  {
    longer := run;
    if room > 0 {
      longer := ParkBehind(c, run, cmd);
      longer := FillBehind(c, longer, cmd, room - 1);
    }
  }

  /** Popped, overtaken by as many pushes as the queue holds, not sent: the first command is lost. */
  lemma LossExample(c: Config, cmd: Command) returns (run: seq<Action>)
    requires Sane(c) && cmd.target != HubItself
    ensures Run(c, run).Some?
    ensures var s := Run(c, run).value; |s.lost| == 1 && s.lost[0].serial == 0 && s.loop.Resting?
  {
    run := ParkOne(c, cmd);
    RunStep(c, run, BeginFlush(cmd.target));
    run := run + [BeginFlush(cmd.target)];
    RunStep(c, run, PopNext);
    run := run + [PopNext];
    run := FillBehind(c, run, cmd, c.cap);
    RunStep(c, run, SendHeld(false));
    run := run + [SendHeld(false)];
    RunStep(c, run, StampFront);
    run := run + [StampFront];
    RunKeepsStructure(c, run);
    var s := Run(c, run).value;
    T.PushShape(s.table, c.cap, cmd.target, s.loop.item);
    RunStep(c, run, CommitFront);
    run := run + [CommitFront];
  }
}
