/** The table steps of the two-task hub are the pool's own operations, with the history erased. */
module HubRefinement {
  import opened Types
  import opened HubMachine
  import P = PendingPool
  import T = SlotTable

  /** What the hub really stores of an item. */
  function Strip(i: Item): P.Entry { P.Entry(i.cmd, i.stamp) }

  function StripQueue(q: seq<Item>): (r: seq<P.Entry>)
    ensures |r| == |q| && forall k :: 0 <= k < |q| ==> r[k] == Strip(q[k])
  {
    seq(|q|, k requires 0 <= k < |q| => Strip(q[k]))
  }

  function StripSlot(slot: T.Slot<Item>): T.Slot<P.Entry> {
    match slot
    case Free => T.Free
    case Used(n, q) => T.Used(n, StripQueue(q))
  }

  function StripTable(t: T.Table<Item>): (r: T.Table<P.Entry>)
    ensures |r| == |t| && forall j :: 0 <= j < |t| ==> r[j] == StripSlot(t[j])
  {
    seq(|t|, j requires 0 <= j < |t| => StripSlot(t[j]))
  }

  lemma SearchesAgree(t: T.Table<Item>, n: NodeId)
    ensures T.Find(StripTable(t), n) == T.Find(t, n)
    ensures T.FindFree(StripTable(t)) == T.FindFree(t)
  {
    var u := StripTable(t);
    var a, b := T.Find(t, n), T.Find(u, n);
    assert a < |t| ==> T.Holds(u[a], n);
    assert b < |t| ==> T.Holds(t[b], n);
    var f, g := T.FindFree(t), T.FindFree(u);
    assert f < |t| ==> u[f].Free?;
    assert g < |t| ==> t[g].Free?;
  }

  lemma UpdateStripped(t: T.Table<Item>, i: nat, slot: T.Slot<Item>)
    requires i < |t|
    ensures StripTable(t[i := slot]) == StripTable(t)[i := StripSlot(slot)]
  {
  }

  lemma ClaimStripped(t: T.Table<Item>, n: NodeId)
    ensures T.Claim(StripTable(t), n) == (StripTable(T.Claim(t, n).0), T.Claim(t, n).1)
  {
    SearchesAgree(t, n);
    var f := T.FindFree(t);
    if T.Find(t, n) == |t| && f < |t| {
      UpdateStripped(t, f, T.Used(n, []));
      assert StripQueue([]) == [];
    }
  }

  lemma PushesStripped(t: T.Table<Item>, cap: nat, n: NodeId, x: Item)
    ensures T.Push(StripTable(t), cap, n, Strip(x)) == (StripTable(T.Push(t, cap, n, x).0), T.Push(t, cap, n, x).1)
    ensures T.PushFront(StripTable(t), cap, n, Strip(x))
      == (StripTable(T.PushFront(t, cap, n, x).0), T.PushFront(t, cap, n, x).1)
  {
    ClaimStripped(t, n);
    var (t1, i) := T.Claim(t, n);
    if i < |t| {
      var q := t1[i].queue;
      UpdateStripped(t1, i, T.Used(n, q + [x]));
      UpdateStripped(t1, i, T.Used(n, [x] + q));
      assert StripQueue(q + [x]) == StripQueue(q) + [Strip(x)];
      assert StripQueue([x] + q) == [Strip(x)] + StripQueue(q);
    }
  }

  lemma FirstLiveStripped(c: Config, now: nat, q: seq<Item>)
    ensures T.FirstLive(StripQueue(q), P.Fresh(ToU32(now), c.ttl)) == T.FirstLive(q, LiveAt(c, now))
  {
    var live, young := LiveAt(c, now), P.Fresh(ToU32(now), c.ttl);
    assert forall i: Item :: live(i) == young(Strip(i));
    var a, b := T.FirstLive(q, live), T.FirstLive(StripQueue(q), young);
    assert a < |q| ==> young(StripQueue(q)[a]);
    assert b < |q| ==> live(q[b]);
  }

  lemma PopStripped(c: Config, now: nat, t: T.Table<Item>, n: NodeId)
    ensures var r := T.Pop(t, n, LiveAt(c, now));
      T.Pop(StripTable(t), n, P.Fresh(ToU32(now), c.ttl)) ==
        T.Popped(StripTable(r.table), StripQueue(r.dropped), if r.got.Some? then Some(Strip(r.got.value)) else None)
  {
    SearchesAgree(t, n);
    var i := T.Find(t, n);
    if i < |t| {
      var q := t[i].queue;
      FirstLiveStripped(c, now, q);
      var k := T.FirstLive(q, LiveAt(c, now));
      if k < |q| {
        UpdateStripped(t, i, T.Used(n, q[k + 1..]));
        assert StripQueue(q[k + 1..]) == StripQueue(q)[k + 1..];
        assert StripQueue(q[..k]) == StripQueue(q)[..k];
      } else {
        UpdateStripped(t, i, T.Free);
      }
    } else {
      assert StripQueue([]) == [];
    }
  }

  /**
   * With serials and true times erased, the three table steps of the machine are push, pop and
   * pushFront of the pool at the 32-bit readings that the hub took, with the same verdicts.
   */
  lemma MachineStepsAreThePools(c: Config, s: State)
    ensures s.mqtt.Stamped? ==>
      var x := s.mqtt.item;
      (StripTable(DoCommitPush(c, s).table), T.Push(s.table, c.cap, x.cmd.target, x).1)
      == T.Push(StripTable(s.table), c.cap, x.cmd.target, P.Entry(x.cmd, x.stamp))
    ensures s.loop.Carrying? ==>
      var x := s.loop.item;
      (StripTable(DoCommitFront(c, s).table), T.PushFront(s.table, c.cap, s.loop.node, x).1)
      == T.PushFront(StripTable(s.table), c.cap, s.loop.node, P.Entry(x.cmd, x.stamp))
    ensures s.loop.Popping? ==>
      var r := T.Pop(StripTable(s.table), s.loop.node, P.Fresh(ToU32(s.clock), c.ttl));
      var s1 := DoPop(c, s);
      && StripTable(s1.table) == r.table
      && (r.got.Some? <==> s1.loop.Carrying?)
      && (r.got.Some? ==> r.got.value == Strip(s1.loop.item))
  {
    if s.mqtt.Stamped? {
      PushesStripped(s.table, c.cap, s.mqtt.item.cmd.target, s.mqtt.item);
    }
    if s.loop.Carrying? {
      PushesStripped(s.table, c.cap, s.loop.node, s.loop.item);
    }
    if s.loop.Popping? {
      PopStripped(c, s.clock, s.table, s.loop.node);
    }
  }
}
