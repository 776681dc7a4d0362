/** Conservation: every dispatched command is, at every moment, in exactly one place. */
module HubLedger {
  import opened Types
  import opened HubMachine
  import opened HubInvariant
  import T = SlotTable

  // ---------- Counting the places of one serial ----------

  function CountIds(ids: seq<nat>, id: nat): nat {
    if ids == [] then 0 else (if ids[0] == id then 1 else 0) + CountIds(ids[1..], id)
  }

  function Count(q: seq<Item>, id: nat): nat {
    if q == [] then 0 else (if q[0].serial == id then 1 else 0) + Count(q[1..], id)
  }

  function InSlot(slot: T.Slot<Item>, id: nat): nat {
    if slot.Used? then Count(slot.queue, id) else 0
  }

  function InTable(t: T.Table<Item>, id: nat): nat {
    if t == [] then 0 else InSlot(t[0], id) + InTable(t[1..], id)
  }

  function WithMqtt(m: MqttTask, id: nat): nat {
    match m
    case Idle => 0
    case Unsent(serial) => if serial == id then 1 else 0
    case Stamped(item) => if item.serial == id then 1 else 0
  }

  function WithLoop(l: LoopTask, id: nat): nat {
    if l.Carrying? && l.item.serial == id then 1 else 0
  }

  /** Settled one way or another: sent directly, refused by push, expired, flushed, or lost. */
  function Settled(s: State, id: nat): nat {
    CountIds(s.direct, id) + Count(s.refused, id) + Count(s.expired, id) + Count(s.flushed, id) + Count(s.lost, id)
  }

  /** Number of places in which the command with this serial is. */
  function Places(s: State, id: nat): nat {
    Settled(s, id) + WithMqtt(s.mqtt, id) + WithLoop(s.loop, id) + InTable(s.table, id)
  }

  ghost predicate LedgerOk(s: State, id: nat) {
    Places(s, id) == if id < |s.dispatched| then 1 else 0
  }

  lemma {:induction false} CountIdsAppend(a: seq<nat>, x: nat, id: nat)
    ensures CountIds(a + [x], id) == CountIds(a, id) + if x == id then 1 else 0
  {
    if a != [] {
      assert (a + [x])[1..] == a[1..] + [x];
      CountIdsAppend(a[1..], x, id);
    }
  }

  lemma {:induction false} CountConcat(a: seq<Item>, b: seq<Item>, id: nat)
    ensures Count(a + b, id) == Count(a, id) + Count(b, id)
  {
    if a == [] {
      assert a + b == b;
    } else {
      assert (a + b)[1..] == a[1..] + b;
      CountConcat(a[1..], b, id);
    }
  }

  lemma CountAppend(a: seq<Item>, x: Item, id: nat)
    ensures Count(a + [x], id) == Count(a, id) + if x.serial == id then 1 else 0
    ensures Count([x] + a, id) == Count(a, id) + if x.serial == id then 1 else 0
  {
    CountConcat(a, [x], id);
    CountConcat([x], a, id);
  }

  lemma {:induction false} InTableUpdate(t: T.Table<Item>, i: nat, slot: T.Slot<Item>, id: nat)
    requires i < |t|
    ensures InTable(t[i := slot], id) == InTable(t, id) - InSlot(t[i], id) + InSlot(slot, id)
  {
    if i == 0 {
      assert t[0 := slot][1..] == t[1..];
    } else {
      assert t[i := slot][1..] == t[1..][i - 1 := slot];
      InTableUpdate(t[1..], i - 1, slot, id);
    }
  }

  lemma {:induction false} InFreeTable(t: T.Table<Item>, id: nat)
    requires forall j :: 0 <= j < |t| ==> t[j].Free?
    ensures InTable(t, id) == 0
  {
    if t != [] {
      InFreeTable(t[1..], id);
    }
  }

  // ---------- One lemma per table operation ----------

  lemma PushCounts(t: T.Table<Item>, cap: nat, n: NodeId, x: Item, id: nat)
    requires T.Valid(t, cap) && 0 < cap
    ensures var (t1, ok) := T.Push(t, cap, n, x);
      InTable(t1, id) == InTable(t, id) + if ok && x.serial == id then 1 else 0
    ensures var (t1, ok) := T.PushFront(t, cap, n, x);
      InTable(t1, id) == InTable(t, id) + if ok && x.serial == id then 1 else 0
  {
    T.PushShape(t, cap, n, x);
    var i, q := T.Target(t, n), T.QueueOf(t, n);
    if i < |t| {
      InTableUpdate(t, i, T.Used(n, q + [x]), id);
      InTableUpdate(t, i, T.Used(n, [x] + q), id);
      CountAppend(q, x, id);
    }
  }

  lemma PopCounts(t: T.Table<Item>, n: NodeId, live: Item -> bool, id: nat)
    ensures var r := T.Pop(t, n, live);
      InTable(t, id) == InTable(r.table, id) + Count(r.dropped, id)
        + if r.got.Some? && r.got.value.serial == id then 1 else 0
  {
    var i := T.Find(t, n);
    if i < |t| {
      var q := t[i].queue;
      var k := T.FirstLive(q, live);
      if k < |q| {
        InTableUpdate(t, i, T.Used(n, q[k + 1..]), id);
        assert q == q[..k] + ([q[k]] + q[k + 1..]);
        CountConcat(q[..k], [q[k]] + q[k + 1..], id);
        CountAppend(q[k + 1..], q[k], id);
      } else {
        InTableUpdate(t, i, T.Free, id);
      }
    }
  }

  // ---------- The law ----------

  lemma PushLedger(c: Config, s: State, id: nat)
    requires Sane(c) && T.Valid(s.table, c.cap) && s.mqtt.Stamped?
    ensures Places(DoCommitPush(c, s), id) == Places(s, id)
  {
    PushCounts(s.table, c.cap, s.mqtt.item.cmd.target, s.mqtt.item, id);
    CountAppend(s.refused, s.mqtt.item, id);
  }

  lemma PopLedger(c: Config, s: State, id: nat)
    requires s.loop.Popping?
    ensures Places(DoPop(c, s), id) == Places(s, id)
  {
    var live := LiveAt(c, s.clock);
    PopCounts(s.table, s.loop.node, live, id);
    CountConcat(s.expired, T.Pop(s.table, s.loop.node, live).dropped, id);
  }

  lemma FrontLedger(c: Config, s: State, id: nat)
    requires Sane(c) && T.Valid(s.table, c.cap) && s.loop.Carrying?
    ensures Places(DoCommitFront(c, s), id) == Places(s, id)
  {
    PushCounts(s.table, c.cap, s.loop.node, s.loop.item, id);
    CountAppend(s.lost, s.loop.item, id);
  }

  /** The steps that leave the table alone. */
  lemma QuietLedger(c: Config, s: State, a: Action, id: nat)
    requires Enabled(c, s, a) && MqttOk(s) && LedgerOk(s, id)
    requires !a.CommitPush? && !a.PopNext? && !a.CommitFront?
    ensures LedgerOk(Apply(c, s, a), id)
  {
    if a.Dispatch? {
      CountIdsAppend(s.direct, |s.dispatched|, id);
    } else if a.SendHeld? {
      CountAppend(s.flushed, s.loop.item, id);
    }
  }

  /** No step creates, duplicates or forgets a command. */
  lemma LedgerKept(c: Config, s: State, a: Action, id: nat)
    requires Sane(c) && StructureOk(c, s) && Enabled(c, s, a)
    requires LedgerOk(s, id)
    ensures LedgerOk(Apply(c, s, a), id)
  {
    if a.CommitPush? {
      PushLedger(c, s, id);
    } else if a.PopNext? {
      PopLedger(c, s, id);
    } else if a.CommitFront? {
      FrontLedger(c, s, id);
    } else {
      QuietLedger(c, s, a, id);
    }
  }

  // ---------- The counts ----------

  /** All dispatched commands, counted by where they are. */
  function Tally(s: State): nat {
    |s.direct| + |s.refused| + |s.expired| + |s.flushed| + |s.lost| + T.Total(s.table)
    + (if s.mqtt.Idle? then 0 else 1) + (if s.loop.Carrying? then 1 else 0)
  }

  lemma TallyKept(c: Config, s: State, a: Action)
    requires Sane(c) && T.Valid(s.table, c.cap) && Enabled(c, s, a)
    requires Tally(s) == |s.dispatched|
    ensures Tally(Apply(c, s, a)) == |Apply(c, s, a).dispatched|
  {
    if a.CommitPush? {
      T.PushTotal(s.table, c.cap, s.mqtt.item.cmd.target, s.mqtt.item);
    } else if a.CommitFront? {
      T.PushTotal(s.table, c.cap, s.loop.node, s.loop.item);
    } else if a.PopNext? {
      T.PopTotal(s.table, s.loop.node, LiveAt(c, s.clock));
    }
  }
}
