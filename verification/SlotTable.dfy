/**
 * The pending pool as a value: an indexed table of slots, each free or holding one node's queue,
 * and its meaning as a map from node to queue.
 */
module SlotTable {
  import opened Types

  datatype Slot<T> = Free | Used(node: NodeId, queue: seq<T>)

  type Table<T> = seq<Slot<T>>

  // ---------- Searches ----------

  predicate Holds<T>(s: Slot<T>, n: NodeId) { s.Used? && s.node == n }

  predicate HasWork<T>(s: Slot<T>) { s.Used? && s.queue != [] }

  /** Index of the first slot of node `n`, or the table length. */
  function Find<T>(t: Table<T>, n: NodeId): (i: nat)
    ensures i <= |t|
    ensures i < |t| ==> Holds(t[i], n)
    ensures forall k :: 0 <= k < i ==> !Holds(t[k], n)
  {
    if t == [] || Holds(t[0], n) then 0 else 1 + Find(t[1..], n)
  }

  /** Index of the first free slot, or the table length. */
  function FindFree<T>(t: Table<T>): (i: nat)
    ensures i <= |t|
    ensures i < |t| ==> t[i].Free?
    ensures forall k :: 0 <= k < i ==> t[k].Used?
  {
    if t == [] || t[0].Free? then 0 else 1 + FindFree(t[1..])
  }

  /** Index of the first live item of a queue, or the queue length. */
  function FirstLive<T>(q: seq<T>, live: T -> bool): (k: nat)
    ensures k <= |q|
    ensures k < |q| ==> live(q[k])
    ensures forall j :: 0 <= j < k ==> !live(q[j])
  {
    if q == [] || live(q[0]) then 0 else 1 + FirstLive(q[1..], live)
  }

  // ---------- Invariant ----------

  ghost predicate Distinct<T>(t: Table<T>) {
    forall i, j :: 0 <= i < |t| && 0 <= j < |t| && t[i].Used? && t[j].Used? && t[i].node == t[j].node ==> i == j
  }

  ghost predicate Valid<T>(t: Table<T>, cap: nat) {
    && Distinct(t)
    && forall i :: 0 <= i < |t| && t[i].Used? ==> |t[i].queue| <= cap
  }

  // ---------- Operations ----------

  /** The slot of `n`, claimed from the free ones if it has none; the table length on failure. */
  function Claim<T>(t: Table<T>, n: NodeId): (r: (Table<T>, nat))
    ensures |r.0| == |t| && r.1 <= |t|
    ensures r.1 < |t| ==> Holds(r.0[r.1], n)
  {
    var i := Find(t, n);
    var f := FindFree(t);
    if i < |t| then (t, i)
    else if f < |t| then (t[f := Used(n, [])], f)
    else (t, |t|)
  }

  function Push<T>(t: Table<T>, cap: nat, n: NodeId, e: T): (Table<T>, bool) {
    var (t1, i) := Claim(t, n);
    if i == |t| then (t1, false)
    else if |t1[i].queue| >= cap then (t1, false)
    else (t1[i := Used(n, t1[i].queue + [e])], true)
  }

  function PushFront<T>(t: Table<T>, cap: nat, n: NodeId, e: T): (Table<T>, bool) {
    var (t1, i) := Claim(t, n);
    if i == |t| then (t1, false)
    else if |t1[i].queue| >= cap then (t1, false)
    else (t1[i := Used(n, [e] + t1[i].queue)], true)
  }

  /** `dropped` are the dead items that were discarded on the way to `got`. */
  datatype Popped<T> = Popped(table: Table<T>, dropped: seq<T>, got: Option<T>)

  function Pop<T>(t: Table<T>, n: NodeId, live: T -> bool): Popped<T> {
    var i := Find(t, n);
    if i == |t| then Popped(t, [], None)
    else
      var q := t[i].queue;
      var k := FirstLive(q, live);
      if k < |q| then Popped(t[i := Used(n, q[k + 1..])], q[..k], Some(q[k]))
      else Popped(t[i := Free], q, None)
  }

  // ---------- Counts ----------

  function Active<T>(t: Table<T>): nat {
    if t == [] then 0 else (if t[0].Used? then 1 else 0) + Active(t[1..])
  }

  function Total<T>(t: Table<T>): nat {
    if t == [] then 0 else (if t[0].Used? then |t[0].queue| else 0) + Total(t[1..])
  }

  /** Number of slots with a non-empty queue. */
  function Busy<T>(t: Table<T>): nat {
    if t == [] then 0 else (if HasWork(t[0]) then 1 else 0) + Busy(t[1..])
  }

  /** Nodes with work at or after slot `i`, in slot order. */
  function WorkFrom<T>(t: Table<T>, i: nat): seq<NodeId>
    requires i <= |t|
    decreases |t| - i
  {
    if i == |t| then [] else (if HasWork(t[i]) then [t[i].node] else []) + WorkFrom(t, i + 1)
  }

  /** Number of slots with work from `i` up to `j`. */
  function WorkBetween<T>(t: Table<T>, i: nat, j: nat): nat
    requires i <= j <= |t|
    decreases j - i
  {
    if i == j then 0 else (if HasWork(t[i]) then 1 else 0) + WorkBetween(t, i + 1, j)
  }

  lemma {:induction false} WorkAgrees<T>(t: Table<T>, t1: Table<T>, i: nat, j: nat)
    requires i <= j <= |t| == |t1|
    requires forall k :: i <= k < |t| ==> t[k] == t1[k]
    ensures WorkFrom(t, i) == WorkFrom(t1, i)
    ensures WorkBetween(t, i, j) == WorkBetween(t1, i, j)
    decreases |t| - i
  {
    if i < |t| {
      WorkAgrees(t, t1, i + 1, if i < j then j else i + 1);
    }
  }

  // ---------- Meaning as a map ----------

  function Abs<T>(t: Table<T>): map<NodeId, seq<T>> {
    if t == [] then map[]
    else if t[0].Used? then Abs(t[1..])[t[0].node := t[0].queue]
    else Abs(t[1..])
  }

  lemma {:induction false} AbsLookup<T>(t: Table<T>, n: NodeId)
    ensures n in Abs(t) <==> Find(t, n) < |t|
    ensures n in Abs(t) ==> Abs(t)[n] == t[Find(t, n)].queue
  {
    if t != [] {
      AbsLookup(t[1..], n);
    }
  }

  lemma {:induction false} AbsSize<T>(t: Table<T>)
    requires Distinct(t)
    ensures |Abs(t)| == Active(t)
    ensures Active(t) <= |t|
    ensures Active(t) == |t| <==> FindFree(t) == |t|
  {
    if t != [] {
      AbsSize(t[1..]);
      if t[0].Used? {
        AbsLookup(t[1..], t[0].node);
      }
    }
  }

  /** With distinct names the first slot of a node is its only slot. */
  lemma FindUnique<T>(t: Table<T>, i: nat)
    requires Distinct(t) && i < |t| && t[i].Used?
    ensures Find(t, t[i].node) == i
  {
  }

  /** Reference pool over the map; the two numbers are the queue and slot limits. */
  function MapPush<T>(m: map<NodeId, seq<T>>, cap: nat, slots: nat, n: NodeId, e: T): (map<NodeId, seq<T>>, bool) {
    if n in m then (if |m[n]| < cap then (m[n := m[n] + [e]], true) else (m, false))
    else if |m| < slots then (m[n := [e]], true)
    else (m, false)
  }

  function MapPushFront<T>(m: map<NodeId, seq<T>>, cap: nat, slots: nat, n: NodeId, e: T): (map<NodeId, seq<T>>, bool) {
    if n in m then (if |m[n]| < cap then (m[n := [e] + m[n]], true) else (m, false))
    else if |m| < slots then (m[n := [e]], true)
    else (m, false)
  }

  /** Replacing one slot leaves the lookup of every node named by neither version unchanged. */
  lemma FindElsewhere<T>(t: Table<T>, i: nat, s: Slot<T>, k: NodeId)
    requires Distinct(t) && i < |t| && Distinct(t[i := s])
    requires !Holds(t[i], k) && !Holds(s, k)
    ensures Find(t[i := s], k) == Find(t, k)
  {
    var t1 := t[i := s];
    if Find(t, k) < |t| {
      FindUnique(t1, Find(t, k));
    } else if Find(t1, k) < |t| {
      FindUnique(t, Find(t1, k));
    }
  }

  /** Writing a queue of node `n` to its slot, or to a free slot when it has none. */
  lemma AbsWrite<T>(t: Table<T>, i: nat, n: NodeId, q: seq<T>)
    requires Distinct(t) && i < |t|
    requires Holds(t[i], n) || (t[i].Free? && Find(t, n) == |t|)
    ensures Distinct(t[i := Used(n, q)])
    ensures Abs(t[i := Used(n, q)]) == Abs(t)[n := q]
  {
    var t1 := t[i := Used(n, q)];
    forall k | k != n
      ensures k in Abs(t1) <==> k in Abs(t)
      ensures k in Abs(t) ==> Abs(t1)[k] == Abs(t)[k]
    {
      AbsLookup(t, k);
      AbsLookup(t1, k);
      FindElsewhere(t, i, Used(n, q), k);
    }
    AbsLookup(t1, n);
    FindUnique(t1, i);
  }

  lemma AbsErase<T>(t: Table<T>, i: nat)
    requires Distinct(t) && i < |t| && t[i].Used?
    ensures Distinct(t[i := Free])
    ensures Abs(t[i := Free]) == Abs(t) - {t[i].node}
  {
    var t1 := t[i := Free];
    forall k
      ensures k in Abs(t1) <==> k in Abs(t) && k != t[i].node
      ensures k in Abs(t1) ==> Abs(t1)[k] == Abs(t)[k]
    {
      AbsLookup(t, k);
      AbsLookup(t1, k);
      if k != t[i].node {
        FindElsewhere(t, i, Free, k);
      }
    }
  }

  /**
   * Push and pushFront act as on the map: they fail exactly when the node's queue is full or the
   * node is new and every slot is used, and they touch no other node.
   */
  lemma PushRefinesMap<T>(t: Table<T>, cap: nat, n: NodeId, e: T)
    requires Valid(t, cap) && 0 < cap
    ensures var r := Push(t, cap, n, e);
      && Valid(r.0, cap) && |r.0| == |t|
      && (Abs(r.0), r.1) == MapPush(Abs(t), cap, |t|, n, e)
    ensures var r := PushFront(t, cap, n, e);
      && Valid(r.0, cap) && |r.0| == |t|
      && (Abs(r.0), r.1) == MapPushFront(Abs(t), cap, |t|, n, e)
  {
    AbsLookup(t, n);
    AbsSize(t);
    var (t1, i) := Claim(t, n);
    if i < |t| {
      var q := if t[i].Used? then t[i].queue else [];
      assert t1[i].queue == q;
      AbsWrite(t, i, n, q + [e]);
      AbsWrite(t, i, n, [e] + q);
      assert t1[i := Used(n, q + [e])] == t[i := Used(n, q + [e])];
      assert t1[i := Used(n, [e] + q)] == t[i := Used(n, [e] + q)];
      assert n !in Abs(t) ==> q == [] && |Abs(t)| < |t|;
      assert [] + [e] == [e] == [e] + [];
    } else {
      assert n !in Abs(t) && |Abs(t)| == |t|;
    }
  }

  /**
   * Pop returns the first live item, discards exactly the dead ones before it, and releases the
   * node exactly when nothing live remained; other nodes are untouched.
   */
  lemma PopRefinesMap<T>(t: Table<T>, cap: nat, n: NodeId, live: T -> bool)
    requires Valid(t, cap)
    ensures var r := Pop(t, n, live);
      && Valid(r.table, cap) && |r.table| == |t|
      && (r.got.Some? ==> n in Abs(t) && n in Abs(r.table) && live(r.got.value))
      && (r.got.Some? ==> Abs(t)[n] == r.dropped + [r.got.value] + Abs(r.table)[n])
      && (r.got.Some? ==> Abs(r.table) == Abs(t)[n := Abs(r.table)[n]])
      && (r.got.None? ==> Abs(r.table) == Abs(t) - {n} && r.dropped == if n in Abs(t) then Abs(t)[n] else [])
      && (forall e :: e in r.dropped ==> !live(e))
  {
    AbsLookup(t, n);
    var i := Find(t, n);
    if i < |t| {
      var q := t[i].queue;
      var k := FirstLive(q, live);
      if k < |q| {
        AbsWrite(t, i, n, q[k + 1..]);
        assert q == q[..k] + [q[k]] + q[k + 1..];
      } else {
        AbsErase(t, i);
      }
    } else {
      assert Abs(t) - {n} == Abs(t);
    }
  }

  // ---------- What the operations do to the counts ----------

  function QueueLength<T>(slot: Slot<T>): nat { if slot.Used? then |slot.queue| else 0 }

  lemma {:induction false} TotalUpdate<T>(t: Table<T>, i: nat, slot: Slot<T>)
    requires i < |t|
    ensures Total(t[i := slot]) == Total(t) - QueueLength(t[i]) + QueueLength(slot)
  {
    if i == 0 {
      assert t[0 := slot][1..] == t[1..];
    } else {
      assert t[i := slot][1..] == t[1..][i - 1 := slot];
      TotalUpdate(t[1..], i - 1, slot);
    }
  }

  lemma {:induction false} TotalOfFree<T>(t: Table<T>)
    requires forall i :: 0 <= i < |t| ==> t[i].Free?
    ensures Total(t) == 0
  {
    if t != [] {
      TotalOfFree(t[1..]);
    }
  }

  /** Every accepted command counts once, whichever end it goes to; a refused one does not. */
  lemma PushTotal<T>(t: Table<T>, cap: nat, n: NodeId, e: T)
    requires Valid(t, cap) && 0 < cap
    ensures var (t1, ok) := Push(t, cap, n, e); Total(t1) == Total(t) + if ok then 1 else 0
    ensures var (t1, ok) := PushFront(t, cap, n, e); Total(t1) == Total(t) + if ok then 1 else 0
  {
    PushShape(t, cap, n, e);
    var i, q := Target(t, n), QueueOf(t, n);
    if i < |t| {
      TotalUpdate(t, i, Used(n, q + [e]));
      TotalUpdate(t, i, Used(n, [e] + q));
    }
  }

  /** A pop takes away what it drops and what it returns. */
  lemma PopTotal<T>(t: Table<T>, n: NodeId, live: T -> bool)
    ensures var r := Pop(t, n, live);
      Total(t) == Total(r.table) + |r.dropped| + if r.got.Some? then 1 else 0
  {
    var i := Find(t, n);
    if i < |t| {
      var q := t[i].queue;
      var k := FirstLive(q, live);
      TotalUpdate(t, i, if k < |q| then Used(n, q[k + 1..]) else Free);
    }
  }

  /** The nodes with work are found in slot order, each at its slot. */
  lemma {:induction false} WorkFromAt<T>(t: Table<T>, i: nat, j: nat)
    requires i <= j < |t| && HasWork(t[j])
    ensures WorkBetween(t, i, j) < |WorkFrom(t, i)|
    ensures WorkFrom(t, i)[WorkBetween(t, i, j)] == t[j].node
    decreases j - i
  {
    if i < j {
      WorkFromAt(t, i + 1, j);
    }
  }

  lemma {:induction false} WorkFromCounts<T>(t: Table<T>, i: nat)
    requires i <= |t|
    ensures |WorkFrom(t, i)| == Busy(t[i..])
    decreases |t| - i
  {
    if i < |t| {
      assert t[i..][1..] == t[i + 1..];
      WorkFromCounts(t, i + 1);
    }
  }

  // ---------- Shape of the operations ----------

  function QueueOf<T>(t: Table<T>, n: NodeId): seq<T> {
    if Find(t, n) < |t| then t[Find(t, n)].queue else []
  }

  /** The slot that findOrCreate answers with, or the table length. */
  function Target<T>(t: Table<T>, n: NodeId): nat {
    if Find(t, n) < |t| then Find(t, n) else FindFree(t)
  }

  /** Writing a queue to the slot of `n`, which may be a fresh one. */
  lemma WriteShape<T>(t: Table<T>, cap: nat, n: NodeId, q: seq<T>)
    requires Valid(t, cap) && |q| <= cap && Target(t, n) < |t|
    ensures var t1 := t[Target(t, n) := Used(n, q)];
      && Valid(t1, cap)
      && Find(t1, n) == Target(t, n)
      && forall k :: k != n ==> Find(t1, k) == Find(t, k)
  {
    var i := Target(t, n);
    AbsWrite(t, i, n, q);
    var t1 := t[i := Used(n, q)];
    FindUnique(t1, i);
    forall k | k != n
      ensures Find(t1, k) == Find(t, k)
    {
      FindElsewhere(t, i, Used(n, q), k);
    }
  }

  /** Push and pushFront write one queue or change nothing. */
  lemma PushShape<T>(t: Table<T>, cap: nat, n: NodeId, e: T)
    requires Valid(t, cap) && 0 < cap
    ensures var i := Target(t, n);
      var ok := i < |t| && |QueueOf(t, n)| < cap;
      && Push(t, cap, n, e) == (if ok then t[i := Used(n, QueueOf(t, n) + [e])] else t, ok)
      && PushFront(t, cap, n, e) == (if ok then t[i := Used(n, [e] + QueueOf(t, n))] else t, ok)
  {
    var i := Target(t, n);
    if i < |t| {
      var a, b := Used(n, QueueOf(t, n) + [e]), Used(n, [e] + QueueOf(t, n));
      assert Claim(t, n).0[i := a] == t[i := a] && Claim(t, n).0[i := b] == t[i := b];
    }
  }
}
