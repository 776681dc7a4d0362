/** Commands that could not be sent, kept per node in a fixed array of slots. */
module PendingPool {
  import opened Types
  import opened RingBuffer
  import opened Environment
  import T = SlotTable

  /** A command with the 32-bit clock reading taken when it was (last) queued. */
  datatype Entry = Entry(cmd: Command, queuedAt: u32)

  /** Time since `stamp` in wrapping 32-bit milliseconds. */
  function Age(now: u32, stamp: u32): u32 { ToU32(now - stamp) }

  /** The TTL test of pop. */
  function Fresh(now: u32, ttl: nat): Entry -> bool {
    (e: Entry) => Age(now, e.queuedAt) < ttl
  }

  class PoolSlot {
    const queue: ThreadSafeQueue<Entry>
    var nodeId: NodeId
    var used: bool

    constructor (capacity: nat)
      requires 0 < capacity
      ensures fresh(queue) && fresh(queue.buf) && queue.Valid() && queue.items == []
      ensures !used && queue.buf.Length == capacity
    {
      queue := new ThreadSafeQueue(capacity);
      nodeId, used := HubItself, false;
    }
  }

  /** The loop of pop: dead entries are taken out until a live one or the end of the queue. */
  method TakeLive(queue: ThreadSafeQueue<Entry>, live: Entry -> bool, previous: Entry)
    returns (ok: bool, out: Entry, ghost dropped: seq<Entry>)
    requires queue.Valid()
    modifies queue
    ensures queue.Valid()
    ensures forall k :: 0 <= k < |dropped| ==> !live(dropped[k])
    ensures ok ==> live(out) && old(queue.items) == dropped + [out] + queue.items
    ensures !ok ==> out == previous && old(queue.items) == dropped && queue.items == []
  {
    dropped := [];
    var more, cmd := queue.Pop(previous);
    while more
      invariant queue.Valid()
      invariant forall k :: 0 <= k < |dropped| ==> !live(dropped[k])
      invariant more ==> old(queue.items) == dropped + [cmd] + queue.items
      invariant !more ==> old(queue.items) == dropped && queue.items == []
      decreases more, |queue.items|
    {
      if live(cmd) {
        return true, cmd, dropped;
      }
      dropped := dropped + [cmd];
      ghost var before := queue.items;
      more, cmd := queue.Pop(previous);
      assert dropped + before == old(queue.items);
    }
    return false, previous, dropped;
  }

  lemma TakenIsFirstLive(q: seq<Entry>, live: Entry -> bool, dropped: seq<Entry>, out: Entry, rest: seq<Entry>)
    requires q == dropped + [out] + rest && live(out)
    requires forall k :: 0 <= k < |dropped| ==> !live(dropped[k])
    ensures var k := T.FirstLive(q, live); k < |q| && out == q[k] && rest == q[k + 1..]
  {
    var k := |dropped|;
    assert q[k] == out && q[k + 1..] == rest;
    forall j | 0 <= j < k
      ensures !live(q[j])
    {
      assert q[j] == dropped[j];
    }
  }

  lemma NoneIsLive(q: seq<Entry>, live: Entry -> bool)
    requires forall k :: 0 <= k < |q| ==> !live(q[k])
    ensures T.FirstLive(q, live) == |q|
  {
  }

  /** The slots are pairwise apart, object by object. */
  ghost predicate Apart(slots: seq<PoolSlot>) {
    forall i, j :: 0 <= i < j < |slots| ==>
      && slots[i] != slots[j]
      && slots[i].queue != slots[j].queue
      && slots[i].queue.buf != slots[j].queue.buf
  }

  method NewSlots(n: nat, cap: nat) returns (made: seq<PoolSlot>, ghost parts: set<object>)
    requires 0 < cap
    ensures |made| == n && Apart(made) && fresh(parts)
    ensures forall i :: 0 <= i < n ==> made[i] in parts && made[i].queue in parts && made[i].queue.buf in parts
    ensures forall i :: 0 <= i < n ==>
      !made[i].used && made[i].queue.Valid() && made[i].queue.items == [] && made[i].queue.buf.Length == cap
  {
    made, parts := [], {};
    for k := 0 to n
      invariant |made| == k && Apart(made) && fresh(parts)
      invariant forall i :: 0 <= i < k ==> made[i] in parts && made[i].queue in parts && made[i].queue.buf in parts
      invariant forall i :: 0 <= i < k ==>
        !made[i].used && made[i].queue.Valid() && made[i].queue.items == [] && made[i].queue.buf.Length == cap
    {
      var slot := new PoolSlot(cap);
      made := made + [slot];
      parts := parts + {slot, slot.queue, slot.queue.buf};
    }
  }

  class PendingPool {
    const slots: seq<PoolSlot>
    const cap: nat
    const ttl: nat
    /** The slot array as a value. */
    ghost var table: T.Table<Entry>

    /** Every object of the pool. */
    ghost const repr: set<object>

    /** No two slots share an object. */
    ghost predicate Separate() {
      && this in repr
      && (forall i :: 0 <= i < |slots| ==>
            slots[i] in repr && slots[i].queue in repr && slots[i].queue.buf in repr)
      && Apart(slots)
    }

    /** A free slot's ring is empty, which is why a claimed slot need not be cleared. */
    ghost predicate SlotMatches(i: nat)
      requires i < |slots| && i < |table|
      reads this, slots[i], slots[i].queue, slots[i].queue.buf
    {
      var s := slots[i];
      && s.queue.Valid()
      && s.queue.buf.Length == cap
      && (s.used ==> table[i] == T.Used(s.nodeId, s.queue.items))
      && (!s.used ==> table[i] == T.Free && s.queue.items == [])
    }

    ghost predicate Valid()
      reads repr
    {
      && 0 < cap
      && Separate()
      && |table| == |slots|
      && T.Valid(table, cap)
      && forall i :: 0 <= i < |slots| ==> SlotMatches(i)
    }

    constructor (slotCount: nat, cap: nat, ttl: nat)
      requires 0 < cap
      ensures Valid() && fresh(repr)
      ensures this.cap == cap && this.ttl == ttl && table == seq(slotCount, _ => T.Free)
    {
      this.cap, this.ttl := cap, ttl;
      var made;
      ghost var parts;
      made, parts := NewSlots(slotCount, cap);
      slots := made;
      repr := {this} + parts;
      table := seq(slotCount, _ => T.Free);
    }

    /** strcmp over the used slots: the first one of the node, or the number of slots. */
    method FindSlot(nodeId: NodeId) returns (i: nat)
      requires Valid()
      ensures i == T.Find(table, nodeId)
    {
      i := 0;
      while i < |slots|
        invariant i <= |slots|
        invariant forall k :: 0 <= k < i ==> !T.Holds(table[k], nodeId)
      {
        assert SlotMatches(i);
        if slots[i].used && slots[i].nodeId == nodeId {
          return;
        }
        i := i + 1;
      }
    }

    /** Work on slot `i` alone leaves every other slot as it was. */
    twostate lemma OthersMatch(i: nat)
      requires old(Valid()) && i < |slots| && |table| == |slots|
      requires forall k :: 0 <= k < |slots| && k != i ==> table[k] == old(table[k])
      requires forall k :: 0 <= k < |slots| && k != i ==>
        unchanged(slots[k]) && unchanged(slots[k].queue) && unchanged(slots[k].queue.buf)
      ensures forall k :: 0 <= k < |slots| && k != i ==> SlotMatches(k)
    {
      forall k | 0 <= k < |slots| && k != i
        ensures SlotMatches(k)
      {
        assert old(SlotMatches(k));
      }
    }

    method ClaimSlot(i: nat, nodeId: NodeId)
      requires Valid() && i < |slots| && table[i].Free? && T.Find(table, nodeId) == |table|
      modifies this, slots[i]
      ensures Valid() && table == old(table)[i := T.Used(nodeId, [])]
    {
      assert SlotMatches(i);
      slots[i].used := true;
      slots[i].nodeId := nodeId;
      table := table[i := T.Used(nodeId, [])];
      OthersMatch(i);
    }

    method FindOrCreate(nodeId: NodeId) returns (i: nat)
      requires Valid()
      modifies repr
      ensures Valid()
      ensures (table, i) == T.Claim(old(table), nodeId)
    {
      i := FindSlot(nodeId);
      if i < |slots| {
        return;
      }
      i := 0;
      while i < |slots| && slots[i].used
        invariant i <= |slots|
        invariant forall k :: 0 <= k < i ==> table[k].Used?
      {
        assert SlotMatches(i);
        i := i + 1;
      }
      if i < |slots| {
        assert SlotMatches(i);
        ClaimSlot(i, nodeId);
      }
    }

    method Append(i: nat, e: Entry) returns (ok: bool)
      requires Valid() && i < |slots| && table[i].Used?
      modifies this, slots[i].queue, slots[i].queue.buf
      ensures Valid()
      ensures ok <==> |old(table[i].queue)| < cap
      ensures table == if ok then old(table)[i := T.Used(old(table[i].node), old(table[i].queue) + [e])] else old(table)
    {
      assert SlotMatches(i);
      ok := slots[i].queue.Push(e);
      if ok {
        table := table[i := T.Used(table[i].node, table[i].queue + [e])];
      }
      OthersMatch(i);
    }

    method Prepend(i: nat, e: Entry) returns (ok: bool)
      requires Valid() && i < |slots| && table[i].Used?
      modifies this, slots[i].queue, slots[i].queue.buf
      ensures Valid()
      ensures ok <==> |old(table[i].queue)| < cap
      ensures table == if ok then old(table)[i := T.Used(old(table[i].node), [e] + old(table[i].queue))] else old(table)
    {
      assert SlotMatches(i);
      ok := slots[i].queue.PushFront(e);
      if ok {
        table := table[i := T.Used(table[i].node, [e] + table[i].queue)];
      }
      OthersMatch(i);
    }

    /** `queued_at` is read before the lock is taken. */
    method Push(nodeId: NodeId, cmd: Command, world: World) returns (ok: bool)
      requires Valid() && world !in repr
      modifies repr, world
      ensures Valid()
      ensures world.at == old(world.at).(ticks := old(world.at).ticks + 1)
      ensures var e := Entry(cmd, Millis(world.oracle, old(world.at).ticks));
        (table, ok) == T.Push(old(table), cap, nodeId, e)
    {
      var now := world.ReadMillis();
      var i := FindOrCreate(nodeId);
      if i == |slots| {
        return false;
      }
      ok := Append(i, Entry(cmd, now));
    }

    /** The command is stamped again, so its age restarts. */
    method PushFront(nodeId: NodeId, cmd: Command, world: World) returns (ok: bool)
      requires Valid() && world !in repr
      modifies repr, world
      ensures Valid()
      ensures world.at == old(world.at).(ticks := old(world.at).ticks + 1)
      ensures var e := Entry(cmd, Millis(world.oracle, old(world.at).ticks));
        (table, ok) == T.PushFront(old(table), cap, nodeId, e)
    {
      var now := world.ReadMillis();
      var i := FindOrCreate(nodeId);
      if i == |slots| {
        return false;
      }
      ok := Prepend(i, Entry(cmd, now));
    }

    /** pop on slot `i`, which is released when nothing live remains. */
    method Drain(i: nat, live: Entry -> bool, previous: Entry) returns (ok: bool, out: Entry)
      requires Valid() && i < |slots| && table[i].Used?
      modifies this, slots[i], slots[i].queue
      ensures Valid()
      ensures var q := old(table[i].queue);
        var k := T.FirstLive(q, live);
        && ok == (k < |q|)
        && out == (if ok then q[k] else previous)
        && table == old(table)[i := if ok then T.Used(old(table[i].node), q[k + 1..]) else T.Free]
    {
      assert SlotMatches(i);
      ghost var q := table[i].queue;
      ghost var dropped;
      ok, out, dropped := TakeLive(slots[i].queue, live, previous);
      if ok {
        TakenIsFirstLive(q, live, dropped, out, slots[i].queue.items);
        table := table[i := T.Used(table[i].node, slots[i].queue.items)];
      } else {
        NoneIsLive(q, live);
        slots[i].used := false;
        table := table[i := T.Free];
      }
      OthersMatch(i);
    }

    /** The clock is read under the lock, and only when the node has a slot. */
    method Pop(nodeId: NodeId, world: World, previous: Entry) returns (ok: bool, out: Entry)
      requires Valid() && world !in repr
      modifies repr, world
      ensures Valid()
      ensures var found := T.Find(old(table), nodeId) < |old(table)|;
        world.at == if found then old(world.at).(ticks := old(world.at).ticks + 1) else old(world.at)
      ensures var r := T.Pop(old(table), nodeId, Fresh(Millis(world.oracle, old(world.at).ticks), ttl));
        && table == r.table
        && ok == r.got.Some?
        && out == if ok then r.got.value else previous
    {
      var i := FindSlot(nodeId);
      if i == |slots| {
        return false, previous;
      }
      var now := world.ReadMillis();
      ok, out := Drain(i, Fresh(now, ttl), previous);
    }

    method ActiveSlots() returns (n: nat)
      requires Valid()
      ensures n == T.Active(table)
    {
      n := 0;
      for i := 0 to |slots|
        invariant n + T.Active(table[i..]) == T.Active(table)
      {
        assert SlotMatches(i);
        assert table[i..][1..] == table[i + 1..];
        if slots[i].used { n := n + 1; }
      }
    }

    method TotalPending() returns (n: nat)
      requires Valid()
      ensures n == T.Total(table)
    {
      n := 0;
      for i := 0 to |slots|
        invariant n + T.Total(table[i..]) == T.Total(table)
      {
        assert SlotMatches(i);
        assert table[i..][1..] == table[i + 1..];
        if slots[i].used { n := n + slots[i].queue.count; }
      }
    }

    /** The next slot with work at or after `from`, and the index to continue from. */
    method NextNode(from: nat) returns (found: bool, next: nat, nodeId: NodeId)
      requires Valid()
      ensures found ==> from < next <= |table| && T.HasWork(table[next - 1]) && table[next - 1].node == nodeId
      ensures found ==> forall k :: from <= k < next - 1 ==> !T.HasWork(table[k])
      ensures !found ==> forall k :: from <= k < |table| ==> !T.HasWork(table[k])
    {
      var i := from;
      while i < |slots|
        invariant from <= i
        invariant forall k :: from <= k < i && k < |table| ==> !T.HasWork(table[k])
      {
        assert SlotMatches(i);
        if slots[i].used && slots[i].queue.count > 0 {
          return true, i + 1, slots[i].nodeId;
        }
        i := i + 1;
      }
      return false, from, HubItself;
    }
  }
}
