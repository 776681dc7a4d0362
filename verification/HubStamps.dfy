/**
 * Time in every run: the stamp of a command is the clock at its last stamping step, and the time
 * limit counts from there.
 */
module HubStamps {
  import opened Types
  import opened HubMachine
  import opened HubInvariant
  import opened HubLedger
  import F = FlushSpec
  import R = HubTheorems
  import T = SlotTable

  // ---------- The clock and the stamping steps of a run ----------

  function Elapsed(run: seq<Action>): nat {
    if run == [] then 0
    else
      var a := run[|run| - 1];
      Elapsed(run[..|run| - 1]) + if a.Tick? then a.ms else 0
  }

  /** The clock moves with the ticks of a run and nothing else. */
  lemma {:induction false} ClockIsElapsed(c: Config, run: seq<Action>)
    requires Run(c, run).Some?
    ensures Run(c, run).value.clock == Elapsed(run)
    decreases |run|
  {
    if run != [] {
      ClockIsElapsed(c, run[..|run| - 1]);
    }
  }

  /** Step `p` reads the clock for the command with this serial, to push it or to put it back. */
  ghost predicate IsStamp(c: Config, run: seq<Action>, p: nat, serial: nat) {
    && p < |run| && Run(c, run[..p]).Some?
    && var s := Run(c, run[..p]).value;
       || (run[p].StampPush? && s.mqtt == Unsent(serial))
       || (run[p].StampFront? && s.loop.Carrying? && s.loop.item.serial == serial)
  }

  ghost predicate LastStamp(c: Config, run: seq<Action>, p: nat, serial: nat) {
    && IsStamp(c, run, p, serial)
    && forall q :: p < q < |run| ==> !IsStamp(c, run, q, serial)
  }

  /** The item's time is the clock at the last stamping step of its serial. */
  ghost predicate Timed(c: Config, run: seq<Action>, y: Item) {
    exists p: nat :: LastStamp(c, run, p, y.serial) && y.at == Elapsed(run[..p])
  }

  // ---------- Where items are ----------

  predicate Parked(t: T.Table<Item>, y: Item) {
    exists j, k :: 0 <= j < |t| && t[j].Used? && 0 <= k < |t[j].queue| && t[j].queue[k] == y
  }

  /** Anywhere but in the loop task's hands. */
  predicate Elsewhere(s: State, y: Item) {
    || Parked(s.table, y)
    || y in s.expired || y in s.flushed || y in s.lost || y in s.refused
  }

  predicate ItemIn(s: State, y: Item) {
    s.mqtt == Stamped(y) || (s.loop.Carrying? && s.loop.item == y) || Elsewhere(s, y)
  }

  lemma {:induction false} Occurs(q: seq<Item>, y: Item)
    requires y in q
    ensures Count(q, y.serial) >= 1
  {
    if q[0] != y {
      Occurs(q[1..], y);
    }
  }

  lemma {:induction false} ParkedCounts(t: T.Table<Item>, y: Item)
    requires Parked(t, y)
    ensures InTable(t, y.serial) >= 1
  {
    var j, k :| 0 <= j < |t| && t[j].Used? && 0 <= k < |t[j].queue| && t[j].queue[k] == y;
    if j == 0 {
      Occurs(t[0].queue, y);
    } else {
      assert t[1..][j - 1] == t[j];
      ParkedCounts(t[1..], y);
    }
  }

  lemma ElsewhereCounts(s: State, y: Item)
    requires Elsewhere(s, y)
    ensures Settled(s, y.serial) + InTable(s.table, y.serial) >= 1
  {
    if Parked(s.table, y) {
      ParkedCounts(s.table, y);
    } else if y in s.expired {
      Occurs(s.expired, y);
    } else if y in s.flushed {
      Occurs(s.flushed, y);
    } else if y in s.lost {
      Occurs(s.lost, y);
    } else {
      Occurs(s.refused, y);
    }
  }

  // ---------- One step ----------

  lemma PushParked(t: T.Table<Item>, cap: nat, n: NodeId, x: Item, y: Item)
    requires T.Valid(t, cap) && 0 < cap
    ensures Parked(T.Push(t, cap, n, x).0, y) ==> Parked(t, y) || y == x
    ensures Parked(T.PushFront(t, cap, n, x).0, y) ==> Parked(t, y) || y == x
  {
    T.PushShape(t, cap, n, x);
    var i, q := T.Target(t, n), T.QueueOf(t, n);
    if i < |t| {
      WrittenParked(t, i, n, q + [x], y);
      WrittenParked(t, i, n, [x] + q, y);
      assert y in q ==> Parked(t, y);
    }
  }

  lemma WrittenParked(t: T.Table<Item>, i: nat, n: NodeId, q: seq<Item>, y: Item)
    requires i < |t|
    ensures Parked(t[i := T.Used(n, q)], y) ==> Parked(t, y) || y in q
  {
    var t1 := t[i := T.Used(n, q)];
    if Parked(t1, y) {
      var j, k :| 0 <= j < |t1| && t1[j].Used? && 0 <= k < |t1[j].queue| && t1[j].queue[k] == y;
      if j != i {
        assert t[j].queue[k] == y;
      }
    }
  }

  lemma PopParked(t: T.Table<Item>, n: NodeId, live: Item -> bool, y: Item)
    ensures var r := T.Pop(t, n, live);
      Parked(r.table, y) || y in r.dropped || r.got == Some(y) ==> Parked(t, y)
  {
    var i := T.Find(t, n);
    if i < |t| {
      var q := t[i].queue;
      var k := T.FirstLive(q, live);
      assert forall m :: 0 <= m < |q| && q[m] == y ==> Parked(t, y);
      if k < |q| {
        WrittenParked(t, i, n, q[k + 1..], y);
      } else {
        FreedParked(t, i, y);
      }
    }
  }

  lemma FreedParked(t: T.Table<Item>, i: nat, y: Item)
    requires i < |t|
    ensures Parked(t[i := T.Free], y) ==> Parked(t, y)
  {
    var t1 := t[i := T.Free];
    if Parked(t1, y) {
      var j, k :| 0 <= j < |t1| && t1[j].Used? && 0 <= k < |t1[j].queue| && t1[j].queue[k] == y;
      assert t[j].queue[k] == y;
    }
  }

  /** A step that stamps nothing moves items around but makes no new ones. */
  lemma MovesOnly(c: Config, s: State, a: Action, y: Item)
    requires Sane(c) && T.Valid(s.table, c.cap) && Enabled(c, s, a) && !a.StampPush? && !a.StampFront?
    requires ItemIn(Apply(c, s, a), y)
    ensures ItemIn(s, y)
  {
    if a.CommitPush? {
      PushParked(s.table, c.cap, s.mqtt.item.cmd.target, s.mqtt.item, y);
    } else if a.CommitFront? {
      PushParked(s.table, c.cap, s.loop.node, s.loop.item, y);
    } else if a.PopNext? {
      PopParked(s.table, s.loop.node, LiveAt(c, s.clock), y);
    }
  }

  /** A push stamp makes one item, timed now; no other item has its serial. */
  lemma StampsForPush(c: Config, s: State, y: Item)
    requires Enabled(c, s, StampPush) && LedgerOk(s, s.mqtt.serial) && ItemIn(Apply(c, s, StampPush), y)
    ensures if y.serial == s.mqtt.serial then y.at == s.clock else ItemIn(s, y)
  {
    if Elsewhere(s, y) {
      ElsewhereCounts(s, y);
    }
  }

  /** The stamp after a failed send renews the item in hand; no other item has its serial. */
  lemma StampsForFront(c: Config, s: State, y: Item)
    requires Enabled(c, s, StampFront) && LedgerOk(s, s.loop.item.serial) && ItemIn(Apply(c, s, StampFront), y)
    ensures if y.serial == s.loop.item.serial then y.at == s.clock else ItemIn(s, y)
  {
    if Elsewhere(s, y) {
      ElsewhereCounts(s, y);
    }
  }

  // ---------- Every run ----------

  lemma NothingAtBoot(c: Config, y: Item)
    ensures !ItemIn(Boot(c), y)
  {
  }

  lemma StampLater(c: Config, front: seq<Action>, a: Action, q: nat, serial: nat)
    requires q < |front|
    ensures IsStamp(c, front + [a], q, serial) == IsStamp(c, front, q, serial)
    ensures (front + [a])[..q] == front[..q]
  {
    assert (front + [a])[..q] == front[..q];
  }

  lemma TimedLater(c: Config, front: seq<Action>, a: Action, y: Item)
    requires Timed(c, front, y) && !IsStamp(c, front + [a], |front|, y.serial)
    ensures Timed(c, front + [a], y)
  {
    var p: nat :| LastStamp(c, front, p, y.serial) && y.at == Elapsed(front[..p]);
    var run := front + [a];
    StampLater(c, front, a, p, y.serial);
    forall q | p < q < |run|
      ensures !IsStamp(c, run, q, y.serial)
    {
      if q < |front| {
        StampLater(c, front, a, q, y.serial);
      }
    }
    assert LastStamp(c, run, p, y.serial);
  }

  lemma TimedNow(c: Config, front: seq<Action>, a: Action, y: Item)
    requires Run(c, front).Some? && IsStamp(c, front + [a], |front|, y.serial)
    requires y.at == Run(c, front).value.clock
    ensures Timed(c, front + [a], y)
  {
    var run := front + [a];
    assert run[..|front|] == front;
    ClockIsElapsed(c, front);
    assert LastStamp(c, run, |front|, y.serial);
  }

  /**
   * In every run, whatever became of a command since, its time is the clock at the last step that
   * stamped it: the push, or the last time it was put back after a failed send.
   */
  lemma {:induction false} ItemsAreTimed(c: Config, run: seq<Action>, y: Item)
    requires Sane(c) && Run(c, run).Some? && ItemIn(Run(c, run).value, y)
    ensures Timed(c, run, y)
    decreases |run|
  {
    if run == [] {
      NothingAtBoot(c, y);
    } else {
      var front, a := run[..|run| - 1], run[|run| - 1];
      var s := Run(c, front).value;
      R.RunKeepsStructure(c, front);
      R.RunKeepsLedger(c, front, y.serial);
      assert run == front + [a] && run[..|front|] == front;
      if IsStamp(c, run, |front|, y.serial) {
        if a.StampPush? {
          StampsForPush(c, s, y);
        } else {
          StampsForFront(c, s, y);
        }
        TimedNow(c, front, a, y);
      } else {
        StepKeepsItem(c, front, a, y);
        ItemsAreTimed(c, front, y);
        TimedLater(c, front, a, y);
      }
    }
  }

  /** An item not stamped by the last step was there before it. */
  lemma StepKeepsItem(c: Config, front: seq<Action>, a: Action, y: Item)
    requires Sane(c) && Run(c, front).Some? && Enabled(c, Run(c, front).value, a)
    requires !IsStamp(c, front + [a], |front|, y.serial) && ItemIn(Apply(c, Run(c, front).value, a), y)
    ensures ItemIn(Run(c, front).value, y)
  {
    var s := Run(c, front).value;
    assert (front + [a])[..|front|] == front;
    R.RunKeepsStructure(c, front);
    if a.StampPush? {
      R.RunKeepsLedger(c, front, s.mqtt.serial);
      StampsForPush(c, s, y);
    } else if a.StampFront? {
      R.RunKeepsLedger(c, front, s.loop.item.serial);
      StampsForFront(c, s, y);
    } else {
      MovesOnly(c, s, a, y);
    }
  }

  // ---------- Expiry ----------

  /** The TTL test on an item: dead means old, and live means young unless held beyond the wrap. */
  lemma TestOnItem(c: Config, s: State, i: Item)
    requires Sane(c) && ItemOk(s, i)
    ensures !LiveAt(c, s.clock)(i) ==> s.clock - i.at >= c.ttl
    ensures LiveAt(c, s.clock)(i) && s.clock - i.at < TWO_32 ==> s.clock - i.at < c.ttl
  {
    F.AgeWraps(s.clock, i.at);
  }

  /** The time passed in a run since the last step that stamped this serial, which was step `p`. */
  ghost predicate StampedAgo(c: Config, run: seq<Action>, p: nat, serial: nat, age: nat) {
    LastStamp(c, run, p, serial) && Elapsed(run) == Elapsed(run[..p]) + age
  }

  lemma AgeOfParked(c: Config, run: seq<Action>, y: Item) returns (p: nat)
    requires Sane(c) && Run(c, run).Some? && Parked(Run(c, run).value.table, y) && ItemOk(Run(c, run).value, y)
    ensures StampedAgo(c, run, p, y.serial, Run(c, run).value.clock - y.at)
  {
    ItemsAreTimed(c, run, y);
    ClockIsElapsed(c, run);
    var last: nat :| LastStamp(c, run, last, y.serial) && y.at == Elapsed(run[..last]);
    p := last;
  }

  /**
   * In every run, across clock wrap: a command that a pop discards was last stamped, by its push or
   * by a retry, at least a TTL of ticks ago; one that it returns, less than a TTL ago, unless it was
   * stamped 2^32 ms ago or more.
   */
  lemma ExpiryExact(c: Config, run: seq<Action>, k: nat)
    requires Sane(c) && Run(c, run).Some? && Enabled(c, Run(c, run).value, PopNext)
    ensures var s := Run(c, run).value;
      var r := T.Pop(s.table, s.loop.node, LiveAt(c, s.clock));
      && (k < |r.dropped| ==>
            exists p: nat, age: nat :: StampedAgo(c, run, p, r.dropped[k].serial, age) && age >= c.ttl)
      && (r.got.Some? ==>
            exists p: nat, age: nat ::
              StampedAgo(c, run, p, r.got.value.serial, age) && (age < c.ttl || age >= TWO_32))
  {
    var s := Run(c, run).value;
    var r := T.Pop(s.table, s.loop.node, LiveAt(c, s.clock));
    R.RunKeepsStructure(c, run);
    var i := T.Find(s.table, s.loop.node);
    if i < |s.table| {
      assert SlotOk(s, s.table[i]);
      var q := s.table[i].queue;
      if k < |r.dropped| {
        assert r.dropped[k] == q[k];
        TestOnItem(c, s, q[k]);
        var p := AgeOfParked(c, run, q[k]);
      }
      if r.got.Some? {
        var f := T.FirstLive(q, LiveAt(c, s.clock));
        TestOnItem(c, s, q[f]);
        var p := AgeOfParked(c, run, q[f]);
      }
    }
  }
}
