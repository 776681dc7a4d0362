/** The command dispatcher: immediate sending, parking, and flushing, over the shared pool. */
module Dispatcher {
  import opened Types
  import opened Packets
  import opened Environment
  import opened PendingPool
  import opened FlushSpec
  import T = SlotTable

  /** What the rest of the hub says of itself when asked for a status report. */
  datatype Vitals = Vitals(bleConnected: nat, freeHeap: u32, uptimeMs: u32, mqttConnected: bool)

  datatype Status = Status(vitals: Vitals, pendingSlots: nat, pendingCommands: nat)

  /** A pop of a queue and what follows it, in terms of the first live entry. */
  lemma {:induction false} FlushByPop(u: Rules, o: Oracle, w: Cursor, q: seq<Entry>)
    ensures var k := T.FirstLive(q, u.live(w.ticks));
      var w1 := w.(ticks := w.ticks + 1);
      FlushQueue(u, o, w, q) ==
        if k == |q| then (w1, None)
        else
          var (w2, ok) := TrySend(u, o, w1, q[k].cmd);
          if ok then FlushQueue(u, o, w2, q[k + 1..])
          else (w2.(ticks := w2.ticks + 1), Some([Entry(q[k].cmd, Millis(o, w2.ticks))] + q[k + 1..]))
    decreases |q|
  {
    if q != [] && !u.live(w.ticks)(q[0]) {
      FlushByPop(u, o, w, q[1..]);
      var k := T.FirstLive(q[1..], u.live(w.ticks));
      assert k < |q[1..]| ==> q[1..][k + 1..] == q[k + 2..];
    }
  }

  /**
   * One turn of the flush loop at the table: a pop that releases the slot, or a pop and a delivery
   * that leave a shorter queue to flush, or a pop, a failed send and a pushFront, which never fails.
   */
  lemma TurnRefinesFlush(u: Rules, o: Oracle, cap: nat, w: Cursor, t: T.Table<Entry>, node: NodeId)
    requires T.Valid(t, cap) && T.Find(t, node) < |t|
    ensures var i := T.Find(t, node);
      var (w1, rest) := FlushQueue(u, o, w, t[i].queue);
      var r := T.Pop(t, node, u.live(w.ticks));
      match r.got
      case None => w1 == w.(ticks := w.ticks + 1) && r.table == t[i := SlotAfter(node, rest)]
      case Some(e) =>
        var (w2, ok) := TrySend(u, o, w.(ticks := w.ticks + 1), e.cmd);
        if ok then
          && T.Find(r.table, node) == i && |r.table[i].queue| < |t[i].queue|
          && r.table == t[i := T.Used(node, r.table[i].queue)]
          && FlushQueue(u, o, w2, r.table[i].queue) == (w1, rest)
        else
          && w1 == w2.(ticks := w2.ticks + 1)
          && T.PushFront(r.table, cap, node, Entry(e.cmd, Millis(o, w2.ticks))) == (t[i := SlotAfter(node, rest)], true)
  {
    var i := T.Find(t, node);
    FlushByPop(u, o, w, t[i].queue);
    var t1 := T.Pop(t, node, u.live(w.ticks)).table;
    if t1[i].Used? {
      T.FindUnique(t1, i);
      var after := SlotAfter(node, FlushQueue(u, o, w, t[i].queue).1);
      assert t1[i := after] == t[i := after];
    }
  }

  lemma {:induction false} SkipIdle(u: Rules, o: Oracle, w: Cursor, t: T.Table<Entry>, i: nat, j: nat)
    requires i <= j <= |t| && forall k :: i <= k < j ==> !T.HasWork(t[k])
    ensures FlushFrom(u, o, w, t, i) == FlushFrom(u, o, w, t, j)
    decreases j - i
  {
    if i < j {
      SkipIdle(u, o, w, t, i + 1, j);
    }
  }

  /** The walk goes past idle slots to slot `i`, flushes its node, and goes on behind it. */
  lemma WalkOn(u: Rules, o: Oracle, w: Cursor, t: T.Table<Entry>, done: nat, i: nat, visits: seq<NodeId>)
    requires done <= i < |t| && T.HasWork(t[i]) && forall k :: done <= k < i ==> !T.HasWork(t[k])
    ensures var (w1, t1) := FlushNode(u, o, w, t, t[i].node);
      var before, after := FlushFrom(u, o, w, t, done), FlushFrom(u, o, w1, t1, i + 1);
      && before.0 == after.0 && before.1 == after.1
      && visits + before.2 == visits + [t[i].node] + after.2
  {
    SkipIdle(u, o, w, t, done, i);
  }

  class CmdDispatcher {
    const pool: PendingPool
    const world: World

    ghost predicate Valid()
      reads pool, pool.repr
    {
      pool.Valid() && world !in pool.repr
    }

    ghost function TheRules(): Rules { HubRules(world.oracle, pool.ttl) }

    constructor (pool: PendingPool, world: World)
      requires pool.Valid() && world !in pool.repr
      ensures Valid() && this.pool == pool && this.world == world
    {
      this.pool, this.world := pool, world;
    }

    /** Routes to the handler of the type, which builds a packet and writes it to the target. */
    method TrySend(cmd: Command) returns (ok: bool)
      modifies world
      ensures (world.at, ok) == FlushSpec.TrySend(TheRules(), world.oracle, old(world.at), cmd)
      ensures match PacketFor(cmd)
        case None => !ok && world.at == old(world.at)
        case Some(p) => world.at.air == old(world.at).air + [Attempt(cmd.target, Encode(p), ok)]
    {
      if cmd.kind == IrTimingKind {
        var built, pkt, len := BuildIrTiming(cmd);
        if !built {
          return false;
        }
        ok := world.Write(cmd.target, pkt[..len]);
      } else {
        match PacketFor(cmd)
        case None => ok := false;
        case Some(p) => ok := world.Write(cmd.target, Encode(p));
      }
    }

    /** HUB_STATUS; any other hub command is ignored. */
    method HandleHubCommand(cmd: Command, vitals: Vitals) returns (report: Option<Status>)
      requires Valid()
      ensures cmd.kind == HubStatusKind ==>
        report == Some(Status(vitals, T.Active(pool.table), T.Total(pool.table)))
      ensures cmd.kind != HubStatusKind ==> report == None
    {
      if cmd.kind != HubStatusKind {
        return None;
      }
      var slots := pool.ActiveSlots();
      var commands := pool.TotalPending();
      return Some(Status(vitals, slots, commands));
    }

    /**
     * Sends at once, whatever is parked, and parks on failure; a refused push goes unnoticed.
     * Commands for the hub itself touch neither pool nor radio.
     */
    method DispatchCommand(cmd: Command, vitals: Vitals) returns (report: Option<Status>)
      requires Valid()
      modifies pool.repr, world
      ensures Valid()
      ensures cmd.target == HubItself ==> pool.table == old(pool.table) && world.at == old(world.at)
      ensures cmd.target == HubItself ==>
        report == if cmd.kind != HubStatusKind then None
                  else Some(Status(vitals, T.Active(pool.table), T.Total(pool.table)))
      ensures cmd.target != HubItself ==> report == None
      ensures cmd.target != HubItself ==>
        (world.at, pool.table) == DispatchOn(TheRules(), world.oracle, pool.cap, old(world.at), old(pool.table), cmd)
      ensures cmd.target != HubItself ==>
        var (w, sent) := FlushSpec.TrySend(TheRules(), world.oracle, old(world.at), cmd);
        if sent then pool.table == old(pool.table) && world.at == w
        else
          && pool.table == T.Push(old(pool.table), pool.cap, cmd.target, Entry(cmd, Millis(world.oracle, w.ticks))).0
          && world.at == w.(ticks := w.ticks + 1)
    {
      if cmd.target == HubItself {
        report := HandleHubCommand(cmd, vitals);
        return;
      }
      report := None;
      var sent := TrySend(cmd);
      if sent {
        return;
      }
      var parked := pool.Push(cmd.target, cmd, world);
    }

    /** One turn of the flush loop on the node's slot `i`, queue `q`: pop, send, put back on failure. */
    method FlushOne(node: NodeId, ghost i: nat, ghost q: seq<Entry>) returns (more: bool, ghost rest: seq<Entry>)
      requires Valid() && i == T.Find(pool.table, node)
      requires i < |pool.table| ==> pool.table[i].queue == q
      modifies pool.repr, world
      ensures Valid()
      ensures i == |pool.table| ==> !more && pool.table == old(pool.table) && world.at == old(world.at)
      ensures i < |pool.table| ==>
        var goal := FlushQueue(TheRules(), world.oracle, old(world.at), q);
        if more then
          && |rest| < |q|
          && pool.table == old(pool.table)[i := T.Used(node, rest)]
          && FlushQueue(TheRules(), world.oracle, world.at, rest) == goal
        else
          && world.at == goal.0
          && pool.table == old(pool.table)[i := SlotAfter(node, goal.1)]
    {
      if i < |pool.table| {
        TurnRefinesFlush(TheRules(), world.oracle, pool.cap, world.at, pool.table, node);
      }
      var cmd := Entry(Command(node, OtherKind(""), Malformed, 0), 0);
      more, cmd := pool.Pop(node, world, cmd);
      rest := if more then pool.table[i].queue else [];
      if more {
        var sent := TrySend(cmd.cmd);
        if !sent {
          var restored := pool.PushFront(node, cmd.cmd, world);
          more := false;
        }
      }
    }

    /** Sends what is parked for one node until a send fails; the failed command goes back first. */
    method FlushNodePending(node: NodeId)
      requires Valid()
      modifies pool.repr, world
      ensures Valid()
      ensures (world.at, pool.table) == FlushNode(TheRules(), world.oracle, old(world.at), old(pool.table), node)
    {
      var up := world.IsConnected();
      if !up {
        return;
      }
      ghost var i := T.Find(pool.table, node);
      ghost var t, q, w := pool.table, if i < |pool.table| then pool.table[i].queue else [], world.at;
      ghost var goal := FlushQueue(TheRules(), world.oracle, w, q);
      var more := true;
      while more
        invariant Valid()
        invariant i == |t| ==> pool.table == t && world.at == w
        invariant i < |t| && more ==> pool.table == t[i := T.Used(node, q)]
        invariant i < |t| && more ==> FlushQueue(TheRules(), world.oracle, world.at, q) == goal
        invariant i < |t| && !more ==> world.at == goal.0 && pool.table == t[i := SlotAfter(node, goal.1)]
        decreases more, |q|
      {
        if i < |t| {
          T.FindUnique(pool.table, i);
        }
        more, q := FlushOne(node, i, q);
      }
    }

    /** Walks the slots by index and flushes each node that has work when its slot is reached. */
    method FlushAllPending() returns (ghost visits: seq<NodeId>)
      requires Valid()
      modifies pool.repr, world
      ensures Valid()
      ensures (world.at, pool.table, visits) == FlushFrom(TheRules(), world.oracle, old(world.at), old(pool.table), 0)
    {
      ghost var u, o := TheRules(), world.oracle;
      ghost var goal := FlushFrom(u, o, world.at, pool.table, 0);
      visits := [];
      var found, idx, node := pool.NextNode(0);
      ghost var done: nat := 0;
      while found
        invariant Valid() && done <= |pool.table|
        invariant found ==> done < idx <= |pool.table| && T.HasWork(pool.table[idx - 1])
        invariant found ==> pool.table[idx - 1].node == node
        invariant forall k :: done <= k < (if found then idx - 1 else |pool.table|) ==>
          !T.HasWork(pool.table[k])
        invariant var (w, t, rest) := FlushFrom(u, o, world.at, pool.table, done);
          goal.0 == w && goal.1 == t && goal.2 == visits + rest
        decreases |pool.slots| - done, found
      {
        WalkOn(u, o, world.at, pool.table, done, idx - 1, visits);
        FlushNodePending(node);
        visits := visits + [node];
        done := idx;
        found, idx, node := pool.NextNode(idx);
      }
      SkipIdle(u, o, world.at, pool.table, done, |pool.table|);
      assert visits + [] == visits;
    }
  }
}
