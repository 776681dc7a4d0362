/**
 * Each task left alone: from the start of a flush to its end with no step of the MQTT task in
 * between, the machine does what the recursive flush of the node's queue does; and a dispatch with
 * no step of the loop task in between does what dispatchCommand does.
 */
module HubFlush {
  import opened Types
  import opened Packets
  import opened Environment
  import opened HubMachine
  import opened HubInvariant
  import opened HubRefinement
  import D = Dispatcher
  import F = FlushSpec
  import P = PendingPool
  import R = HubTheorems
  import T = SlotTable

  // ---------- What the loop task is told ----------

  /** Steps of the loop task after `BeginFlush`, and the passing of time. */
  predicate LoopStep(a: Action) { a.Tick? || a.PopNext? || a.SendHeld? || a.StampFront? || a.CommitFront? }

  /** A reading or send result of the step is the next answer of the oracle. */
  ghost predicate Answers(c: Config, o: Oracle, w: Cursor, s: State, a: Action)
    requires Enabled(c, s, a)
  {
    match a
    case Dispatch(cmd, sent) => PacketFor(cmd).Some? ==> o.radio(w.sends) == sent
    case StampPush => o.clock(w.ticks) == s.clock
    case PopNext => T.Find(s.table, s.loop.node) < |s.table| ==> o.clock(w.ticks) == s.clock
    case SendHeld(sent) => PacketFor(s.loop.item.cmd).Some? ==> o.radio(w.sends) == sent
    case StampFront => o.clock(w.ticks) == s.clock
    case _ => true
  }

  /** A command is written to its target if it has a packet. */
  function Written(w: Cursor, cmd: Command, sent: bool): Cursor {
    match PacketFor(cmd)
    case None => w
    case Some(p) => w.(sends := w.sends + 1, air := w.air + [Attempt(cmd.target, Encode(p), sent)])
  }

  /** The answers consumed and the writes made once the step is taken. */
  ghost function Observed(c: Config, w: Cursor, s: State, a: Action): Cursor
    requires Enabled(c, s, a)
  {
    match a
    case Dispatch(cmd, sent) => Written(w, cmd, sent)
    case StampPush => w.(ticks := w.ticks + 1)
    case PopNext => if T.Find(s.table, s.loop.node) < |s.table| then w.(ticks := w.ticks + 1) else w
    case SendHeld(sent) => Written(w, s.loop.item.cmd, sent)
    case StampFront => w.(ticks := w.ticks + 1)
    case _ => w
  }

  // ---------- What it still has to do ----------

  /** Flushing a node's queue, whatever its link. */
  function Finish(c: Config, o: Oracle, w: Cursor, t: T.Table<P.Entry>, n: NodeId): (Cursor, T.Table<P.Entry>) {
    var i := T.Find(t, n);
    if i == |t| then (w, t)
    else
      var (w1, rest) := F.FlushQueue(F.HubRules(o, c.ttl), o, w, t[i].queue);
      (w1, t[i := F.SlotAfter(n, rest)])
  }

  /** pushFront with the next clock reading. */
  function PutBack(c: Config, o: Oracle, w: Cursor, t: T.Table<P.Entry>, n: NodeId, cmd: Command)
    : (Cursor, T.Table<P.Entry>)
  {
    (w.(ticks := w.ticks + 1), T.PushFront(t, c.cap, n, P.Entry(cmd, Millis(o, w.ticks))).0)
  }

  /** Sending the command in hand and going on with the queue, or putting it back. */
  function SendOn(c: Config, o: Oracle, w: Cursor, t: T.Table<P.Entry>, n: NodeId, cmd: Command)
    : (Cursor, T.Table<P.Entry>)
  {
    var (w1, ok) := F.TrySend(F.HubRules(o, c.ttl), o, w, cmd);
    if ok then Finish(c, o, w1, t, n) else PutBack(c, o, w1, t, n, cmd)
  }

  /** How the flush in progress ends when the loop task is left alone from here on. */
  function Outcome(c: Config, o: Oracle, w: Cursor, s: State): (Cursor, T.Table<P.Entry>) {
    var t := StripTable(s.table);
    match s.loop
    case Resting => (w, t)
    case Popping(n) => Finish(c, o, w, t, n)
    case Carrying(n, item, Held, _, _) => SendOn(c, o, w, t, n, item.cmd)
    case Carrying(n, item, Failed, _, _) => PutBack(c, o, w, t, n, item.cmd)
    case Carrying(n, item, Restamped, _, _) => (w, T.PushFront(t, c.cap, n, Strip(item)).0)
  }

  // ---------- No step changes how it ends ----------

  lemma StripValid(t: T.Table<Item>, cap: nat)
    requires T.Valid(t, cap)
    ensures T.Valid(StripTable(t), cap)
  {
  }

  /** A pop of the pool's table does not change how the flush of the node ends. */
  lemma PopFinish(c: Config, o: Oracle, w: Cursor, t: T.Table<P.Entry>, n: NodeId)
    requires T.Valid(t, c.cap) && T.Find(t, n) < |t|
    ensures var r := T.Pop(t, n, P.Fresh(Millis(o, w.ticks), c.ttl));
      var w1 := w.(ticks := w.ticks + 1);
      Finish(c, o, w, t, n) == if r.got.Some? then SendOn(c, o, w1, r.table, n, r.got.value.cmd) else (w1, r.table)
  {
    var u := F.HubRules(o, c.ttl);
    assert u.live(w.ticks) == P.Fresh(Millis(o, w.ticks), c.ttl);
    D.TurnRefinesFlush(u, o, c.cap, w, t, n);
    var i, r := T.Find(t, n), T.Pop(t, n, u.live(w.ticks));
    if r.got.Some? {
      var after := F.SlotAfter(n, F.FlushQueue(u, o, w, t[i].queue).1);
      assert r.table[i := after] == t[i := after];
    }
  }

  lemma PopOutcome(c: Config, o: Oracle, w: Cursor, s: State)
    requires Enabled(c, s, PopNext) && Answers(c, o, w, s, PopNext) && T.Valid(s.table, c.cap)
    ensures Outcome(c, o, Observed(c, w, s, PopNext), DoPop(c, s)) == Outcome(c, o, w, s)
  {
    var t, n := StripTable(s.table), s.loop.node;
    SearchesAgree(s.table, n);
    PopStripped(c, s.clock, s.table, n);
    if T.Find(t, n) < |t| {
      StripValid(s.table, c.cap);
      PopFinish(c, o, w, t, n);
    }
  }

  lemma SendOutcome(c: Config, o: Oracle, w: Cursor, s: State, sent: bool)
    requires Enabled(c, s, SendHeld(sent)) && Answers(c, o, w, s, SendHeld(sent))
    ensures Outcome(c, o, Observed(c, w, s, SendHeld(sent)), Apply(c, s, SendHeld(sent))) == Outcome(c, o, w, s)
  {
  }

  lemma StepOutcome(c: Config, o: Oracle, w: Cursor, s: State, a: Action)
    requires LoopStep(a) && Enabled(c, s, a) && Answers(c, o, w, s, a) && T.Valid(s.table, c.cap)
    ensures Outcome(c, o, Observed(c, w, s, a), Apply(c, s, a)) == Outcome(c, o, w, s)
  {
    if a.PopNext? {
      PopOutcome(c, o, w, s);
    } else if a.SendHeld? {
      SendOutcome(c, o, w, s, a.sent);
    } else if a.CommitFront? {
      PushesStripped(s.table, c.cap, s.loop.node, s.loop.item);
    }
  }

  // ---------- A whole segment ----------

  ghost function RunFrom(c: Config, s: State, run: seq<Action>): Option<State>
    decreases |run|
  {
    if run == [] then Some(s)
    else if Enabled(c, s, run[0]) then RunFrom(c, Apply(c, s, run[0]), run[1..])
    else None
  }

  /** The oracle gives what the segment read and heard, in order. */
  ghost predicate Agrees(c: Config, o: Oracle, w: Cursor, s: State, run: seq<Action>)
    requires RunFrom(c, s, run).Some?
    decreases |run|
  {
    run != [] ==>
      && Answers(c, o, w, s, run[0])
      && Agrees(c, o, Observed(c, w, s, run[0]), Apply(c, s, run[0]), run[1..])
  }

  ghost function ObservedAll(c: Config, w: Cursor, s: State, run: seq<Action>): Cursor
    requires RunFrom(c, s, run).Some?
    decreases |run|
  {
    if run == [] then w
    else ObservedAll(c, Observed(c, w, s, run[0]), Apply(c, s, run[0]), run[1..])
  }

  lemma {:induction false} SegmentOutcome(c: Config, o: Oracle, w: Cursor, s: State, run: seq<Action>)
    requires Sane(c) && StructureOk(c, s) && RunFrom(c, s, run).Some?
    requires (forall i :: 0 <= i < |run| ==> LoopStep(run[i])) && Agrees(c, o, w, s, run)
    ensures Outcome(c, o, ObservedAll(c, w, s, run), RunFrom(c, s, run).value) == Outcome(c, o, w, s)
    decreases |run|
  {
    if run != [] {
      StepOutcome(c, o, w, s, run[0]);
      StructureKept(c, s, run[0]);
      SegmentOutcome(c, o, Observed(c, w, s, run[0]), Apply(c, s, run[0]), run[1..]);
    }
  }

  lemma FlushBegins(c: Config, o: Oracle, w: Cursor, s: State, n: NodeId)
    requires Enabled(c, s, BeginFlush(n)) && o.link(w.links)
    ensures F.FlushNode(F.HubRules(o, c.ttl), o, w, StripTable(s.table), n)
      == Outcome(c, o, w.(links := w.links + 1), Apply(c, s, BeginFlush(n)))
  {
  }

  /**
   * From any reachable state in which the loop task rests: if it begins a flush of a connected node
   * and gets to its end without a step of the MQTT task, then table, readings consumed and writes
   * made are those of the recursive flush under the readings and send results of the segment.
   */
  lemma LoopTaskAloneIsFlushNode(c: Config, o: Oracle, w: Cursor, s: State, n: NodeId, run: seq<Action>)
    requires Sane(c) && R.Reachable(c, s) && Enabled(c, s, BeginFlush(n)) && o.link(w.links)
    requires var s0 := Apply(c, s, BeginFlush(n));
      && RunFrom(c, s0, run).Some? && RunFrom(c, s0, run).value.loop.Resting?
      && (forall i :: 0 <= i < |run| ==> LoopStep(run[i]))
      && Agrees(c, o, w.(links := w.links + 1), s0, run)
    ensures var s0 := Apply(c, s, BeginFlush(n));
      F.FlushNode(F.HubRules(o, c.ttl), o, w, StripTable(s.table), n)
      == (ObservedAll(c, w.(links := w.links + 1), s0, run), StripTable(RunFrom(c, s0, run).value.table))
  {
    var pre :| Run(c, pre) == Some(s);
    R.RunKeepsStructure(c, pre);
    StructureKept(c, s, BeginFlush(n));
    FlushBegins(c, o, w, s, n);
    SegmentOutcome(c, o, w.(links := w.links + 1), Apply(c, s, BeginFlush(n)), run);
  }

  // ---------- The MQTT task ----------

  /** Steps of the MQTT task after `Dispatch`, and the passing of time. */
  predicate PushStep(a: Action) { a.Tick? || a.StampPush? || a.CommitPush? }

  /** How the dispatch in progress ends when the MQTT task is left alone from here on. */
  function ParkOutcome(c: Config, o: Oracle, w: Cursor, s: State): (Cursor, T.Table<P.Entry>)
    requires s.mqtt.Unsent? ==> s.mqtt.serial < |s.dispatched|
  {
    var t := StripTable(s.table);
    match s.mqtt
    case Idle => (w, t)
    case Unsent(serial) =>
      var cmd := s.dispatched[serial];
      (w.(ticks := w.ticks + 1), T.Push(t, c.cap, cmd.target, P.Entry(cmd, Millis(o, w.ticks))).0)
    case Stamped(item) => (w, T.Push(t, c.cap, item.cmd.target, Strip(item)).0)
  }

  lemma PushStepOutcome(c: Config, o: Oracle, w: Cursor, s: State, a: Action)
    requires PushStep(a) && Enabled(c, s, a) && Answers(c, o, w, s, a) && MqttOk(s)
    ensures Apply(c, s, a).mqtt.Unsent? ==> Apply(c, s, a).mqtt.serial < |Apply(c, s, a).dispatched|
    ensures ParkOutcome(c, o, Observed(c, w, s, a), Apply(c, s, a)) == ParkOutcome(c, o, w, s)
  {
    if a.CommitPush? {
      PushesStripped(s.table, c.cap, s.mqtt.item.cmd.target, s.mqtt.item);
    }
  }

  lemma {:induction false} PushSegment(c: Config, o: Oracle, w: Cursor, s: State, run: seq<Action>)
    requires Sane(c) && StructureOk(c, s) && RunFrom(c, s, run).Some?
    requires (forall i :: 0 <= i < |run| ==> PushStep(run[i])) && Agrees(c, o, w, s, run)
    ensures StructureOk(c, RunFrom(c, s, run).value)
    ensures ParkOutcome(c, o, ObservedAll(c, w, s, run), RunFrom(c, s, run).value) == ParkOutcome(c, o, w, s)
    decreases |run|
  {
    if run != [] {
      PushStepOutcome(c, o, w, s, run[0]);
      StructureKept(c, s, run[0]);
      PushSegment(c, o, Observed(c, w, s, run[0]), Apply(c, s, run[0]), run[1..]);
    }
  }

  lemma DispatchBegins(c: Config, o: Oracle, w: Cursor, s: State, cmd: Command, sent: bool)
    requires Enabled(c, s, Dispatch(cmd, sent)) && Answers(c, o, w, s, Dispatch(cmd, sent))
    ensures var s0 := Apply(c, s, Dispatch(cmd, sent));
      && (s0.mqtt.Unsent? ==> s0.mqtt.serial < |s0.dispatched|)
      && F.DispatchOn(F.HubRules(o, c.ttl), o, c.cap, w, StripTable(s.table), cmd)
        == ParkOutcome(c, o, Observed(c, w, s, Dispatch(cmd, sent)), s0)
  {
  }

  /**
   * From any reachable state in which the MQTT task is idle: a dispatch that gets to its end without
   * a step of the loop task leaves the table, consumes the readings and makes the writes of
   * dispatchCommand under the readings and the send result of the segment.
   */
  lemma MqttTaskAloneIsDispatch(c: Config, o: Oracle, w: Cursor, s: State, cmd: Command, sent: bool, run: seq<Action>)
    requires Sane(c) && R.Reachable(c, s) && Enabled(c, s, Dispatch(cmd, sent))
    requires RunFrom(c, s, [Dispatch(cmd, sent)] + run).Some? && Agrees(c, o, w, s, [Dispatch(cmd, sent)] + run)
    requires RunFrom(c, s, [Dispatch(cmd, sent)] + run).value.mqtt.Idle?
    requires forall i :: 0 <= i < |run| ==> PushStep(run[i])
    ensures var whole := [Dispatch(cmd, sent)] + run;
      F.DispatchOn(F.HubRules(o, c.ttl), o, c.cap, w, StripTable(s.table), cmd)
      == (ObservedAll(c, w, s, whole), StripTable(RunFrom(c, s, whole).value.table))
  {
    var pre :| Run(c, pre) == Some(s);
    R.RunKeepsStructure(c, pre);
    var a, whole := Dispatch(cmd, sent), [Dispatch(cmd, sent)] + run;
    assert whole[0] == a && whole[1..] == run;
    StructureKept(c, s, a);
    DispatchBegins(c, o, w, s, cmd, sent);
    PushSegment(c, o, Observed(c, w, s, a), Apply(c, s, a), run);
  }

  // ---------- Every segment has its oracle ----------

  lemma {:induction false} AgreesLater(c: Config, o: Oracle, p: Oracle, w: Cursor, s: State, run: seq<Action>)
    requires RunFrom(c, s, run).Some? && Agrees(c, o, w, s, run)
    requires forall k :: w.ticks <= k ==> o.clock(k) == p.clock(k)
    requires forall k :: w.sends <= k ==> o.radio(k) == p.radio(k)
    ensures Agrees(c, p, w, s, run)
    decreases |run|
  {
    if run != [] {
      AgreesLater(c, o, p, Observed(c, w, s, run[0]), Apply(c, s, run[0]), run[1..]);
    }
  }

  function Patched<X>(f: nat -> X, from: nat, to: nat, x: X): nat -> X {
    (k: nat) => if from <= k < to then x else f(k)
  }

  /** Whatever a segment read and heard, some oracle answers so. */
  lemma {:induction false} SomeOracleAgrees(c: Config, w: Cursor, s: State, run: seq<Action>) returns (o: Oracle)
    requires RunFrom(c, s, run).Some?
    ensures Agrees(c, o, w, s, run) && forall k :: o.link(k)
    decreases |run|
  {
    if run == [] {
      o := Oracle(_ => 0, _ => true, _ => true);
    } else {
      var a := run[0];
      var w1 := Observed(c, w, s, a);
      var p := SomeOracleAgrees(c, w1, Apply(c, s, a), run[1..]);
      o := Oracle(
        Patched(p.clock, w.ticks, w1.ticks, s.clock),
        _ => true,
        Patched(p.radio, w.sends, w1.sends, (a.SendHeld? || a.Dispatch?) && a.sent));
      AgreesLater(c, p, o, w1, Apply(c, s, a), run[1..]);
    }
  }
}
