/** Order: what the flush delivers to a node is an in-order subsequence of what was parked for it. */
module HubOrder {
  import opened Types
  import opened HubMachine
  import opened HubInvariant
  import T = SlotTable

  // ---------- Sequences of serials ----------

  predicate Increasing(a: seq<nat>) {
    forall i, j :: 0 <= i < j < |a| ==> a[i] < a[j]
  }

  predicate Subsequence(a: seq<nat>, b: seq<nat>)
    decreases |b|
  {
    if a == [] then true
    else if b == [] then false
    else if a[|a| - 1] == b[|b| - 1] then Subsequence(a[..|a| - 1], b[..|b| - 1])
    else Subsequence(a, b[..|b| - 1])
  }

  lemma {:induction false} IncreasingSubset(a: seq<nat>, b: seq<nat>)
    requires Increasing(a) && Increasing(b)
    requires forall x :: x in a ==> x in b
    ensures Subsequence(a, b)
    decreases |b|
  {
    if a != [] {
      var last := a[|a| - 1];
      assert last in b;
      var j :| 0 <= j < |b| && b[j] == last;
      var b1 := b[..|b| - 1];
      var a1 := if j == |b| - 1 then a[..|a| - 1] else a;
      forall x | x in a1
        ensures x in b1
      {
        var i :| 0 <= i < |a1| && a1[i] == x;
        assert a[i] == x && x in b;
        var k :| 0 <= k < |b| && b[k] == x;
        assert b1[k] == x;
      }
      IncreasingSubset(a1, b1);
    }
  }

  /**
   * Of one node: the serials pushed, those delivered or still on their way, and a bound that the
   * next push will reach.
   */
  ghost predicate InOrder(pushed: seq<nat>, track: seq<nat>, next: nat) {
    && Increasing(pushed)
    && Increasing(track)
    && (forall i :: 0 <= i < |pushed| ==> pushed[i] < next)
    && (forall i :: 0 <= i < |track| ==> track[i] in pushed)
  }

  lemma OrderAppend(pushed: seq<nat>, track: seq<nat>, x: nat)
    requires InOrder(pushed, track, x)
    ensures InOrder(pushed + [x], track + [x], x + 1)
  {
  }

  lemma OrderLater(pushed: seq<nat>, track: seq<nat>, next: nat, later: nat)
    requires InOrder(pushed, track, next) && next <= later
    ensures InOrder(pushed, track, later)
  {
  }

  lemma OrderDrop(pushed: seq<nat>, a: seq<nat>, b: seq<nat>, d: seq<nat>, next: nat)
    requires InOrder(pushed, a + b + d, next)
    ensures InOrder(pushed, a + d, next)
  {
    var full, kept := a + b + d, a + d;
    forall i | 0 <= i < |kept|
      ensures kept[i] == full[if i < |a| then i else i + |b|]
    {
    }
  }

  // ---------- Histories of one node ----------

  /** Serials of the items of node `n`, in order. */
  function Of(h: seq<Item>, n: NodeId): seq<nat> {
    if h == [] then []
    else
      var front, last := Of(h[..|h| - 1], n), h[|h| - 1];
      if last.cmd.target == n then front + [last.serial] else front
  }

  lemma OfAppend(h: seq<Item>, x: Item, n: NodeId)
    ensures Of(h + [x], n) == if x.cmd.target == n then Of(h, n) + [x.serial] else Of(h, n)
  {
    assert (h + [x])[..|h + [x]| - 1] == h;
  }

  function Serials(q: seq<Item>): seq<nat> {
    if q == [] then [] else [q[0].serial] + Serials(q[1..])
  }

  function InHand(l: LoopTask, n: NodeId): seq<nat> {
    if l.Carrying? && l.node == n then [l.item.serial] else []
  }

  /** Delivered, then in the loop task's hands, then queued: the node's commands in order. */
  function Track(s: State, n: NodeId): seq<nat> {
    Of(s.flushed, n) + InHand(s.loop, n) + Serials(T.QueueOf(s.table, n))
  }

  /** Everything pushed so far is older than whatever the MQTT task will push next. */
  function NextSerial(s: State): nat {
    match s.mqtt
    case Idle => |s.dispatched|
    case Unsent(serial) => serial
    case Stamped(item) => item.serial
  }

  ghost predicate OrderOk(s: State, n: NodeId) {
    InOrder(Of(s.pushed, n), Track(s, n), NextSerial(s))
  }

  lemma {:induction false} SerialsConcat(a: seq<Item>, b: seq<Item>)
    ensures Serials(a + b) == Serials(a) + Serials(b)
  {
    if a == [] {
      assert a + b == b;
    } else {
      assert (a + b)[1..] == a[1..] + b;
      SerialsConcat(a[1..], b);
    }
  }

  // ---------- Steps ----------

  /** A write to another node's slot does not show in this node's queue. */
  lemma QueueElsewhere(t: T.Table<Item>, t1: T.Table<Item>, i: nat, n: NodeId)
    requires |t| == |t1| && i < |t| && t1 == t[i := t1[i]]
    requires !T.Holds(t[i], n) && !T.Holds(t1[i], n) && T.Find(t1, n) == T.Find(t, n)
    ensures T.QueueOf(t1, n) == T.QueueOf(t, n)
  {
  }

  /** Writing a queue to the slot of node `m` does not show in another node's queue. */
  lemma WriteElsewhere(t: T.Table<Item>, cap: nat, m: NodeId, q: seq<Item>, n: NodeId)
    requires T.Valid(t, cap) && |q| <= cap && T.Target(t, m) < |t|
    ensures T.QueueOf(t[T.Target(t, m) := T.Used(m, q)], n) == if m == n then q else T.QueueOf(t, n)
  {
    T.WriteShape(t, cap, m, q);
    if m != n {
      QueueElsewhere(t, t[T.Target(t, m) := T.Used(m, q)], T.Target(t, m), n);
    }
  }

  /** What the two pushes do to the queue of any node. */
  lemma QueueAfterPush(t: T.Table<Item>, cap: nat, m: NodeId, x: Item, n: NodeId)
    requires T.Valid(t, cap) && 0 < cap
    ensures var (t1, ok) := T.Push(t, cap, m, x);
      T.QueueOf(t1, n) == T.QueueOf(t, n) + if ok && m == n then [x] else []
    ensures var (t1, ok) := T.PushFront(t, cap, m, x);
      T.QueueOf(t1, n) == (if ok && m == n then [x] else []) + T.QueueOf(t, n)
  {
    T.PushShape(t, cap, m, x);
    var i, q := T.Target(t, m), T.QueueOf(t, m);
    if i < |t| && |q| < cap {
      WriteElsewhere(t, cap, m, q + [x], n);
      WriteElsewhere(t, cap, m, [x] + q, n);
    }
  }

  /** The serials of a node's queue after the two pushes. */
  lemma PushedSerials(t: T.Table<Item>, cap: nat, m: NodeId, x: Item, n: NodeId)
    requires T.Valid(t, cap) && 0 < cap
    ensures var (t1, ok) := T.Push(t, cap, m, x);
      Serials(T.QueueOf(t1, n)) == Serials(T.QueueOf(t, n)) + if ok && m == n then [x.serial] else []
    ensures var (t1, ok) := T.PushFront(t, cap, m, x);
      Serials(T.QueueOf(t1, n)) == (if ok && m == n then [x.serial] else []) + Serials(T.QueueOf(t, n))
  {
    QueueAfterPush(t, cap, m, x, n);
    var q := T.QueueOf(t, n);
    SerialsConcat(q, [x]);
    SerialsConcat([x], q);
    SerialsConcat(q, []);
    SerialsConcat([], q);
  }

  lemma Regroup(a: seq<nat>, b: seq<nat>, d: seq<nat>, e: seq<nat>)
    ensures a + [] + (b + d + e) == a + b + (d + e)
    ensures a + d + e == a + (d + e)
    ensures a + [] + (d + e) == a + d + e
    ensures a + [] + e == a + e
  {
  }

  lemma AppendTail(a: seq<nat>, b: seq<nat>, d: seq<nat>)
    ensures a + (b + d) == a + b + d && b + [] == b
  {
  }

  /** Whether the pending push of the MQTT task will be accepted. */
  function Accepted(c: Config, s: State): bool
    requires s.mqtt.Stamped?
  {
    T.Push(s.table, c.cap, s.mqtt.item.cmd.target, s.mqtt.item).1
  }

  lemma PushTrack(c: Config, s: State, n: NodeId)
    requires Sane(c) && T.Valid(s.table, c.cap) && s.mqtt.Stamped?
    ensures var s1, x := DoCommitPush(c, s), s.mqtt.item;
      if Accepted(c, s) && x.cmd.target == n then
        Of(s1.pushed, n) == Of(s.pushed, n) + [x.serial] && Track(s1, n) == Track(s, n) + [x.serial]
      else
        Of(s1.pushed, n) == Of(s.pushed, n) && Track(s1, n) == Track(s, n)
  {
    var x, q := s.mqtt.item, Serials(T.QueueOf(s.table, n));
    OfAppend(s.pushed, x, n);
    PushedSerials(s.table, c.cap, x.cmd.target, x, n);
    AppendTail(Of(s.flushed, n) + InHand(s.loop, n), q, [x.serial]);
  }

  /** A step that leaves the node's track, or cuts a piece out of it, keeps the order. */
  lemma OrderCut(s: State, s1: State, n: NodeId, a: seq<nat>, b: seq<nat>, d: seq<nat>)
    requires OrderOk(s, n) && Track(s, n) == a + b + d && Track(s1, n) == a + d
    requires Of(s1.pushed, n) == Of(s.pushed, n) && NextSerial(s) <= NextSerial(s1)
    ensures OrderOk(s1, n)
  {
    OrderDrop(Of(s.pushed, n), a, b, d, NextSerial(s));
    OrderLater(Of(s.pushed, n), a + d, NextSerial(s), NextSerial(s1));
  }

  lemma OrderSame(s: State, s1: State, n: NodeId)
    requires OrderOk(s, n) && Track(s1, n) == Track(s, n)
    requires Of(s1.pushed, n) == Of(s.pushed, n) && NextSerial(s) <= NextSerial(s1)
    ensures OrderOk(s1, n)
  {
    OrderLater(Of(s.pushed, n), Track(s, n), NextSerial(s), NextSerial(s1));
  }

  lemma PushOrder(c: Config, s: State, n: NodeId)
    requires Sane(c) && StructureOk(c, s) && s.mqtt.Stamped? && OrderOk(s, n)
    ensures OrderOk(DoCommitPush(c, s), n)
  {
    PushTrack(c, s, n);
    OrderAppend(Of(s.pushed, n), Track(s, n), s.mqtt.item.serial);
    OrderLater(Of(s.pushed, n), Track(s, n), s.mqtt.item.serial, s.mqtt.item.serial + 1);
    assert NextSerial(DoCommitPush(c, s)) == s.mqtt.item.serial + 1;
  }

  /** What a pop does to the queue of any node. */
  lemma QueueAfterPop(t: T.Table<Item>, cap: nat, m: NodeId, live: Item -> bool, n: NodeId)
    requires T.Valid(t, cap)
    ensures var r := T.Pop(t, m, live);
      var gone := if m == n then r.dropped + (if r.got.Some? then [r.got.value] else []) else [];
      T.QueueOf(t, n) == gone + T.QueueOf(r.table, n)
  {
    var i := T.Find(t, m);
    var r := T.Pop(t, m, live);
    if i < |t| {
      var q := t[i].queue;
      var k := T.FirstLive(q, live);
      if k < |q| {
        T.WriteShape(t, cap, m, q[k + 1..]);
      } else {
        T.AbsErase(t, i);
        ErasedElsewhere(t, i, n);
      }
      if m == n {
        assert k < |q| ==> q == q[..k] + [q[k]] + q[k + 1..];
      } else {
        QueueElsewhere(t, r.table, i, n);
      }
    }
  }

  lemma ErasedElsewhere(t: T.Table<Item>, i: nat, n: NodeId)
    requires T.Distinct(t) && i < |t| && t[i].Used? && T.Distinct(t[i := T.Free])
    ensures T.Find(t[i := T.Free], n) == if t[i].node == n then |t| else T.Find(t, n)
  {
    if t[i].node == n {
      T.FindUnique(t, i);
    } else {
      T.FindElsewhere(t, i, T.Free, n);
    }
  }

  /** A pop takes the dropped items and then the one it returns off the front of the node's queue. */
  lemma PoppedSerials(c: Config, s: State, n: NodeId)
    requires T.Valid(s.table, c.cap) && s.loop.Popping?
    ensures var s1 := DoPop(c, s);
      Serials(T.QueueOf(s.table, n)) == Dropped(c, s, n) + InHand(s1.loop, n) + Serials(T.QueueOf(s1.table, n))
  {
    var r := T.Pop(s.table, s.loop.node, LiveAt(c, s.clock));
    var q, q1 := T.QueueOf(s.table, n), T.QueueOf(r.table, n);
    QueueAfterPop(s.table, c.cap, s.loop.node, LiveAt(c, s.clock), n);
    if s.loop.node == n {
      var taken := if r.got.Some? then [r.got.value] else [];
      SerialsConcat(r.dropped + taken, q1);
      SerialsConcat(r.dropped, taken);
      assert InHand(DoPop(c, s).loop, n) == Serials(taken);
    } else {
      assert q == [] + q1 == q1;
      assert [] + [] + Serials(q1) == Serials(q1);
    }
  }

  lemma PopTrack(c: Config, s: State, n: NodeId)
    requires T.Valid(s.table, c.cap) && s.loop.Popping?
    ensures var s1 := DoPop(c, s);
      var rest := InHand(s1.loop, n) + Serials(T.QueueOf(s1.table, n));
      && (Track(s, n) == Of(s.flushed, n) + Dropped(c, s, n) + rest)
      && (Track(s1, n) == Of(s.flushed, n) + rest)
  {
    var s1 := DoPop(c, s);
    PoppedSerials(c, s, n);
    Regroup(Of(s.flushed, n), Dropped(c, s, n), InHand(s1.loop, n), Serials(T.QueueOf(s1.table, n)));
  }

  /** What the next pop will discard of node `n`. */
  function Dropped(c: Config, s: State, n: NodeId): seq<nat>
    requires s.loop.Popping?
  {
    if s.loop.node == n then Serials(T.Pop(s.table, n, LiveAt(c, s.clock)).dropped) else []
  }

  lemma PopOrder(c: Config, s: State, n: NodeId)
    requires Sane(c) && StructureOk(c, s) && s.loop.Popping? && OrderOk(s, n)
    ensures OrderOk(DoPop(c, s), n)
  {
    var s1 := DoPop(c, s);
    PopTrack(c, s, n);
    OrderCut(s, s1, n, Of(s.flushed, n), Dropped(c, s, n), InHand(s1.loop, n) + Serials(T.QueueOf(s1.table, n)));
  }

  /** The pending pushFront restores the node's commands in order, or drops the one in hand. */
  lemma FrontTrack(c: Config, s: State, n: NodeId)
    requires Sane(c) && T.Valid(s.table, c.cap) && s.loop.Carrying?
    ensures var kept := if T.PushFront(s.table, c.cap, s.loop.node, s.loop.item).1 then InHand(s.loop, n) else [];
      Track(DoCommitFront(c, s), n) == Of(s.flushed, n) + (kept + Serials(T.QueueOf(s.table, n)))
  {
    var q := Serials(T.QueueOf(s.table, n));
    PushedSerials(s.table, c.cap, s.loop.node, s.loop.item, n);
    Regroup(Of(s.flushed, n), [], InHand(s.loop, n), q);
    Regroup(Of(s.flushed, n), [], [], q);
    assert [] + q == q;
  }

  lemma FrontOrder(c: Config, s: State, n: NodeId)
    requires Sane(c) && StructureOk(c, s) && s.loop.Carrying? && OrderOk(s, n)
    ensures OrderOk(DoCommitFront(c, s), n)
  {
    var f, hand, q := Of(s.flushed, n), InHand(s.loop, n), Serials(T.QueueOf(s.table, n));
    FrontTrack(c, s, n);
    if T.PushFront(s.table, c.cap, s.loop.node, s.loop.item).1 {
      Regroup(f, [], hand, q);
      OrderSame(s, DoCommitFront(c, s), n);
    } else {
      assert [] + q == q;
      OrderCut(s, DoCommitFront(c, s), n, f, hand, q);
    }
  }

  lemma SendTrack(s: State, n: NodeId)
    requires s.loop.Carrying? && s.loop.item.cmd.target == s.loop.node
    ensures Track(s.(loop := Popping(s.loop.node), flushed := s.flushed + [s.loop.item]), n) == Track(s, n)
  {
    OfAppend(s.flushed, s.loop.item, n);
  }

  /** The steps that touch neither a queue nor the delivered commands. */
  lemma QuietStepTrack(c: Config, s: State, a: Action, n: NodeId)
    requires Enabled(c, s, a) && !a.CommitPush? && !a.PopNext? && !a.CommitFront? && !a.SendHeld?
    ensures var s1 := Apply(c, s, a);
      Track(s1, n) == Track(s, n) && Of(s1.pushed, n) == Of(s.pushed, n)
  {
  }

  lemma QuietStepSerial(c: Config, s: State, a: Action)
    requires Enabled(c, s, a) && MqttOk(s) && !a.CommitPush? && !a.PopNext? && !a.CommitFront?
    ensures NextSerial(s) <= NextSerial(Apply(c, s, a))
  {
  }

  lemma SendOrder(c: Config, s: State, sent: bool, n: NodeId)
    requires StructureOk(c, s) && Enabled(c, s, SendHeld(sent)) && OrderOk(s, n)
    ensures OrderOk(Apply(c, s, SendHeld(sent)), n)
  {
    SendTrack(s, n);
    OrderSame(s, Apply(c, s, SendHeld(sent)), n);
  }

  lemma OrderKept(c: Config, s: State, a: Action, n: NodeId)
    requires Sane(c) && StructureOk(c, s) && Enabled(c, s, a) && OrderOk(s, n)
    ensures OrderOk(Apply(c, s, a), n)
  {
    match a
    case CommitPush => PushOrder(c, s, n);
    case PopNext => PopOrder(c, s, n);
    case CommitFront => FrontOrder(c, s, n);
    case SendHeld(sent) => SendOrder(c, s, sent, n);
    case _ =>
      QuietStepTrack(c, s, a, n);
      QuietStepSerial(c, s, a);
      OrderSame(s, Apply(c, s, a), n);
  }
}
