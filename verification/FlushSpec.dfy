/**
 * Flushing without interference, as recursive functions of the slot table, the oracle and the
 * answers consumed so far, and what a flush does to a queue and to the whole table.
 */
module FlushSpec {
  import opened Types
  import opened Packets
  import opened Environment
  import opened PendingPool
  import T = SlotTable

  // ---------- Clock arithmetic ----------

  lemma AgeWraps(now: nat, at: nat)
    requires at <= now
    ensures Age(ToU32(now), ToU32(at)) == ToU32(now - at)
  {
  }

  /**
   * The 32-bit test agrees with the true age exactly when the entry was held under 2^32 ms or its
   * wrapped age is not below the TTL; an entry held longer can look fresh again.
   */
  lemma TtlTestExact(now: nat, at: nat, ttl: nat)
    requires at <= now && ttl < TWO_32
    ensures (Age(ToU32(now), ToU32(at)) < ttl <==> now - at < ttl)
      <==> (now - at < TWO_32 || ToU32(now - at) >= ttl)
  {
    AgeWraps(now, at);
  }

  // ---------- Specification ----------

  /** The bytes that a type handler passes to the radio, or `None` where it gives up before. */
  function BytesFor(c: Command): Option<seq<u8>> {
    match PacketFor(c)
    case None => None
    case Some(p) => Some(Encode(p))
  }

  /** What a flush takes as given: the bytes of a command, and what is live at the k-th reading. */
  datatype Rules = Rules(bytes: Command -> Option<seq<u8>>, live: nat -> Entry -> bool)

  function HubRules(o: Oracle, ttl: nat): Rules {
    Rules(BytesFor, (k: nat) => Fresh(Millis(o, k), ttl))
  }

  /** The write of a command, if it gets as far as one. */
  function WriteOf(u: Rules, c: Command, ok: bool): seq<Attempt> {
    if u.bytes(c).Some? then [Attempt(c.target, u.bytes(c).value, ok)] else []
  }

  /** trySend: the answers consumed, the write if one was made, and the verdict. */
  function TrySend(u: Rules, o: Oracle, w: Cursor, c: Command): (Cursor, bool) {
    if u.bytes(c).None? then (w, false)
    else
      var ok := o.radio(w.sends);
      (w.(sends := w.sends + 1, air := w.air + WriteOf(u, c, ok)), ok)
  }

  /** dispatchCommand for a node: send at once, or park with the next clock reading. */
  function DispatchOn(u: Rules, o: Oracle, cap: nat, w: Cursor, t: T.Table<Entry>, c: Command)
    : (Cursor, T.Table<Entry>)
  {
    var (w1, sent) := TrySend(u, o, w, c);
    if sent then (w1, t)
    else (w1.(ticks := w1.ticks + 1), T.Push(t, cap, c.target, Entry(c, Millis(o, w1.ticks))).0)
  }

  /**
   * Flushing one queue: `None` when the slot is released, else what remains in it. A clock reading
   * serves the run of dead entries in front of a live one.
   */
  function FlushQueue(u: Rules, o: Oracle, w: Cursor, q: seq<Entry>): (Cursor, Option<seq<Entry>>)
    decreases |q|
  {
    if q == [] then (w.(ticks := w.ticks + 1), None)
    else if !u.live(w.ticks)(q[0]) then FlushQueue(u, o, w, q[1..])
    else
      var (w1, ok) := TrySend(u, o, w.(ticks := w.ticks + 1), q[0].cmd);
      if ok then FlushQueue(u, o, w1, q[1..])
      else (w1.(ticks := w1.ticks + 1), Some([Entry(q[0].cmd, Millis(o, w1.ticks))] + q[1..]))
  }

  function SlotAfter(n: NodeId, rest: Option<seq<Entry>>): T.Slot<Entry> {
    if rest.None? then T.Free else T.Used(n, rest.value)
  }

  function FlushNode(u: Rules, o: Oracle, w: Cursor, t: T.Table<Entry>, n: NodeId): (r: (Cursor, T.Table<Entry>))
    ensures |r.1| == |t|
  {
    var i := T.Find(t, n);
    var w1 := w.(links := w.links + 1);
    if !o.link(w.links) || i == |t| then (w1, t)
    else
      var (w2, rest) := FlushQueue(u, o, w1, t[i].queue);
      (w2, t[i := SlotAfter(n, rest)])
  }

  /** The index walk of flushAllPending from slot `i`, with the nodes it flushes. */
  function FlushFrom(u: Rules, o: Oracle, w: Cursor, t: T.Table<Entry>, i: nat): (Cursor, T.Table<Entry>, seq<NodeId>)
    requires i <= |t|
    decreases |t| - i
  {
    if i == |t| then (w, t, [])
    else if !T.HasWork(t[i]) then FlushFrom(u, o, w, t, i + 1)
    else
      var n := t[i].node;
      var (w1, t1) := FlushNode(u, o, w, t, n);
      var (w2, t2, visits) := FlushFrom(u, o, w1, t1, i + 1);
      (w2, t2, [n] + visits)
  }

  // ---------- What a flush does ----------

  /**
   * How a flush gets through a queue: for each entry taken, whether it was delivered. The length
   * is the position of the command that failed, or the queue length when none did.
   */
  function Progress(u: Rules, o: Oracle, w: Cursor, q: seq<Entry>): (p: seq<bool>)
    ensures |p| <= |q|
    decreases |q|
  {
    if q == [] then []
    else if !u.live(w.ticks)(q[0]) then [false] + Progress(u, o, w, q[1..])
    else
      var (w1, ok) := TrySend(u, o, w.(ticks := w.ticks + 1), q[0].cmd);
      if ok then [true] + Progress(u, o, w1, q[1..]) else []
  }

  /** The acknowledged writes of the delivered entries, in queue order. */
  function Writes(u: Rules, q: seq<Entry>, p: seq<bool>): seq<Attempt>
    requires |p| <= |q|
  {
    if p == [] then []
    else (if p[0] then WriteOf(u, q[0].cmd, true) else []) + Writes(u, q[1..], p[1..])
  }

  /** The state of a flush after its first entry, when that entry did not block it. */
  function Next(u: Rules, o: Oracle, w: Cursor, e: Entry): Cursor {
    if !u.live(w.ticks)(e) then w else TrySend(u, o, w.(ticks := w.ticks + 1), e.cmd).0
  }

  /**
   * A flush ends either with the slot released or with the failed command back at the head under a
   * new stamp and the exact rest of the queue behind it.
   */
  lemma {:induction false} FlushLeaves(u: Rules, o: Oracle, w: Cursor, q: seq<Entry>)
    ensures var (w1, rest) := FlushQueue(u, o, w, q);
      var stop := |Progress(u, o, w, q)|;
      && w.ticks < w1.ticks && w1.links == w.links
      && (rest.None? <==> stop == |q|)
      && (rest.Some? ==> rest.value == [Entry(q[stop].cmd, Millis(o, w1.ticks - 1))] + q[stop + 1..])
    decreases |q|
  {
    if q != [] {
      FlushLeaves(u, o, Next(u, o, w, q[0]), q[1..]);
    }
  }

  /** The writes of a flush: the delivered commands in queue order, then the failed one. */
  lemma {:induction false} FlushWrites(u: Rules, o: Oracle, w: Cursor, q: seq<Entry>)
    ensures var p := Progress(u, o, w, q);
      FlushQueue(u, o, w, q).0.air
      == w.air + (Writes(u, q, p) + (if |p| < |q| then WriteOf(u, q[|p|].cmd, false) else []))
    decreases |q|
  {
    if q != [] {
      var w1 := Next(u, o, w, q[0]);
      FlushWrites(u, o, w1, q[1..]);
      if u.live(w.ticks)(q[0]) {
        assert w1.air == w.air + WriteOf(u, q[0].cmd, o.radio(w.sends));
      }
    }
  }

  /**
   * Entry by entry: what was delivered has bytes; what was taken and not delivered was dead at one
   * of the flush's clock readings.
   */
  lemma {:induction false} FlushSkipsOnlyExpired(u: Rules, o: Oracle, w: Cursor, q: seq<Entry>, d: nat)
    requires d < |Progress(u, o, w, q)|
    ensures Progress(u, o, w, q)[d] ==> u.bytes(q[d].cmd).Some?
    ensures !Progress(u, o, w, q)[d] ==>
      exists tick :: w.ticks <= tick < FlushQueue(u, o, w, q).0.ticks && !u.live(tick)(q[d])
    decreases |q|
  {
    FlushLeaves(u, o, w, q);
    if d == 0 {
      assert !Progress(u, o, w, q)[0] ==> !u.live(w.ticks)(q[0]);
    } else {
      FlushSkipsOnlyExpired(u, o, Next(u, o, w, q[0]), q[1..], d - 1);
    }
  }

  // ---------- The whole walk ----------

  /** The surroundings were asked no less often, and all earlier writes are still there. */
  predicate NotAfter(a: Cursor, b: Cursor) {
    a.ticks <= b.ticks && a.links <= b.links && a.sends <= b.sends && a.air <= b.air
  }

  lemma {:induction false} QueueAdvances(u: Rules, o: Oracle, w: Cursor, q: seq<Entry>)
    ensures NotAfter(w, FlushQueue(u, o, w, q).0)
    decreases |q|
  {
    if q != [] {
      QueueAdvances(u, o, Next(u, o, w, q[0]), q[1..]);
    }
  }

  lemma NodeAdvances(u: Rules, o: Oracle, w: Cursor, t: T.Table<Entry>, n: NodeId)
    ensures NotAfter(w, FlushNode(u, o, w, t, n).0)
  {
    if T.Find(t, n) < |t| {
      QueueAdvances(u, o, w.(links := w.links + 1), t[T.Find(t, n)].queue);
    }
  }

  lemma {:induction false} WalkAdvances(u: Rules, o: Oracle, w: Cursor, t: T.Table<Entry>, i: nat)
    requires i <= |t|
    ensures NotAfter(w, FlushFrom(u, o, w, t, i).0)
    decreases |t| - i
  {
    if i < |t| {
      if !T.HasWork(t[i]) {
        WalkAdvances(u, o, w, t, i + 1);
      } else {
        var (w1, t1) := FlushNode(u, o, w, t, t[i].node);
        NodeAdvances(u, o, w, t, t[i].node);
        WalkAdvances(u, o, w1, t1, i + 1);
      }
    }
  }

  /** The answers that the walk from slot `i` has consumed when it starts flushing slot `j`. */
  function TurnAt(u: Rules, o: Oracle, w: Cursor, t: T.Table<Entry>, i: nat, j: nat): Cursor
    requires i <= j < |t|
    decreases j - i
  {
    if i == j then w.(links := w.links + 1)
    else if !T.HasWork(t[i]) then TurnAt(u, o, w, t, i + 1, j)
    else
      var (w1, t1) := FlushNode(u, o, w, t, t[i].node);
      TurnAt(u, o, w1, t1, i + 1, j)
  }

  /**
   * Although slots are emptied and released during the index walk, it flushes the nodes that had
   * work at its start, each once and in slot order, and asks for the link once per node.
   */
  lemma {:induction false} WalkFlushesEachOnce(u: Rules, o: Oracle, w: Cursor, t: T.Table<Entry>, i: nat)
    requires T.Distinct(t) && i <= |t|
    ensures var (w1, t1, visits) := FlushFrom(u, o, w, t, i);
      && |t1| == |t|
      && visits == T.WorkFrom(t, i)
      && w1.links == w.links + |visits|
    decreases |t| - i
  {
    if i < |t| {
      if !T.HasWork(t[i]) {
        WalkFlushesEachOnce(u, o, w, t, i + 1);
      } else {
        var w1, t1 := TurnOf(u, o, w, t, i);
        T.WorkAgrees(t, t1, i + 1, i + 1);
        WalkFlushesEachOnce(u, o, w1, t1, i + 1);
      }
    }
  }

  /** One turn of the walk: only the visited slot can change, and exactly as its flush says. */
  lemma TurnOf(u: Rules, o: Oracle, w: Cursor, t: T.Table<Entry>, i: nat) returns (w1: Cursor, t1: T.Table<Entry>)
    requires T.Distinct(t) && i < |t| && T.HasWork(t[i])
    ensures (w1, t1) == FlushNode(u, o, w, t, t[i].node)
    ensures |t1| == |t| && T.Distinct(t1) && w1.links == w.links + 1 && NotAfter(w, w1)
    ensures forall j :: 0 <= j < |t| && j != i ==> t1[j] == t[j]
    ensures if o.link(w.links)
      then (w1, t1[i]) == FlushedSlot(u, o, w.(links := w.links + 1), t[i])
      else t1[i] == t[i]
  {
    var r := FlushNode(u, o, w, t, t[i].node);
    w1, t1 := r.0, r.1;
    T.FindUnique(t, i);
    FlushLeaves(u, o, w.(links := w.links + 1), t[i].queue);
    NodeAdvances(u, o, w, t, t[i].node);
  }

  /** A slot flushed from a cursor on, and the cursor afterwards. */
  function FlushedSlot(u: Rules, o: Oracle, w: Cursor, slot: T.Slot<Entry>): (Cursor, T.Slot<Entry>)
    requires slot.Used?
  {
    var (w1, rest) := FlushQueue(u, o, w, slot.queue);
    (w1, SlotAfter(slot.node, rest))
  }

  /** Slot `j` has work and its node's link is up at its turn in the walk from slot `i`. */
  predicate FlushedInWalk(o: Oracle, w: Cursor, t: T.Table<Entry>, i: nat, j: nat)
    requires i <= |t| && j < |t|
  {
    i <= j && T.HasWork(t[j]) && o.link(w.links + T.WorkBetween(t, i, j))
  }

  /** Slot `j` ends as its own flush leaves it, and that flush lies between the walk's two ends. */
  ghost predicate SettledInWalk(u: Rules, o: Oracle, w: Cursor, t: T.Table<Entry>, i: nat, j: nat)
    requires i <= j < |t| && T.HasWork(t[j])
  {
    var (w2, t2, _) := FlushFrom(u, o, w, t, i);
    var turn := TurnAt(u, o, w, t, i, j);
    var (w1, slot) := FlushedSlot(u, o, turn, t[j]);
    && turn.links == w.links + T.WorkBetween(t, i, j) + 1
    && NotAfter(w, turn) && NotAfter(w1, w2)
    && j < |t2| && t2[j] == slot
  }

  /** Slot `j` is settled by its flush if the walk flushes it, and is left as it was if not. */
  ghost predicate SettledOrSame(u: Rules, o: Oracle, w: Cursor, t: T.Table<Entry>, i: nat, j: nat)
    requires i <= |t| && j < |t|
  {
    var t1 := FlushFrom(u, o, w, t, i).1;
    && |t1| == |t|
    && if FlushedInWalk(o, w, t, i, j) then SettledInWalk(u, o, w, t, i, j) else t1[j] == t[j]
  }

  /** The walk's first turn is on slot `i` and settles it. */
  lemma OwnTurn(u: Rules, o: Oracle, w: Cursor, t: T.Table<Entry>, i: nat, w1: Cursor, t1: T.Table<Entry>)
    requires T.Distinct(t) && i < |t| == |t1| && T.HasWork(t[i])
    requires (w1, t1) == FlushNode(u, o, w, t, t[i].node) && SettledOrSame(u, o, w1, t1, i + 1, i)
    ensures SettledOrSame(u, o, w, t, i, i)
  {
    var w2, t2 := TurnOf(u, o, w, t, i);
    WalkAdvances(u, o, w1, t1, i + 1);
  }

  /** The walk's first turn is on a slot before `j`. */
  lemma LaterTurn(u: Rules, o: Oracle, w: Cursor, t: T.Table<Entry>, i: nat, j: nat, w1: Cursor, t1: T.Table<Entry>)
    requires T.Distinct(t) && i < |t| == |t1| && i != j < |t| && T.HasWork(t[i])
    requires (w1, t1) == FlushNode(u, o, w, t, t[i].node) && SettledOrSame(u, o, w1, t1, i + 1, j)
    ensures SettledOrSame(u, o, w, t, i, j)
  {
    var w2, t2 := TurnOf(u, o, w, t, i);
    T.WorkAgrees(t, t1, i + 1, if i < j then j else i + 1);
  }

  /**
   * Slot by slot: a slot with work whose node's link was up at its turn ends exactly as the flush
   * of its queue from that turn on leaves it, and every other slot is left as it was.
   */
  lemma {:induction false} WalkSettlesSlot(u: Rules, o: Oracle, w: Cursor, t: T.Table<Entry>, i: nat, j: nat)
    requires T.Distinct(t) && i <= |t| && j < |t|
    ensures SettledOrSame(u, o, w, t, i, j)
    decreases |t| - i
  {
    if i < |t| {
      if !T.HasWork(t[i]) {
        WalkSettlesSlot(u, o, w, t, i + 1, j);
      } else {
        var w1, t1 := TurnOf(u, o, w, t, i);
        WalkSettlesSlot(u, o, w1, t1, i + 1, j);
        if i == j {
          OwnTurn(u, o, w, t, i, w1, t1);
        } else {
          LaterTurn(u, o, w, t, i, j, w1, t1);
        }
      }
    }
  }

  /** The send of a command failed: no handler had bytes for it, or a write among the given ones did. */
  ghost predicate SendFailed(u: Rules, before: seq<Attempt>, after: seq<Attempt>, c: Command) {
    u.bytes(c).Some? ==>
      exists a :: |before| <= a < |after| && after[a] == Attempt(c.target, u.bytes(c).value, false)
  }

  lemma FlushFails(u: Rules, o: Oracle, w: Cursor, q: seq<Entry>)
    ensures var stop := |Progress(u, o, w, q)|;
      stop < |q| ==> SendFailed(u, w.air, FlushQueue(u, o, w, q).0.air, q[stop].cmd)
  {
    var p := Progress(u, o, w, q);
    FlushWrites(u, o, w, q);
    if |p| < |q| && u.bytes(q[|p|].cmd).Some? {
      var after := FlushQueue(u, o, w, q).0.air;
      var a := |after| - 1;
      assert after[a] == Attempt(q[|p|].cmd.target, u.bytes(q[|p|].cmd).value, false);
    }
  }

  /**
   * The state after flushAllPending: a slot whose node was connected at its turn is free, or its
   * head is the command whose send failed in this very walk, under a clock reading of this walk and
   * with the exact rest of the old queue behind it.
   */
  lemma WalkLeavesFreeOrFailedHead(u: Rules, o: Oracle, w: Cursor, t: T.Table<Entry>, j: nat)
    requires T.Distinct(t) && j < |t| && FlushedInWalk(o, w, t, 0, j)
    ensures var (w1, t1, _) := FlushFrom(u, o, w, t, 0);
      var q := t[j].queue;
      var turn := TurnAt(u, o, w, t, 0, j);
      var stop, k := |Progress(u, o, turn, q)|, FlushQueue(u, o, turn, q).0.ticks - 1;
      && |t1| == |t|
      && if stop == |q| then t1[j] == T.Free
         else
           && w.ticks <= k < w1.ticks
           && t1[j] == T.Used(t[j].node, [Entry(q[stop].cmd, Millis(o, k))] + q[stop + 1..])
           && SendFailed(u, w.air, w1.air, q[stop].cmd)
  {
    WalkSettlesSlot(u, o, w, t, 0, j);
    var q, turn := t[j].queue, TurnAt(u, o, w, t, 0, j);
    FlushLeaves(u, o, turn, q);
    FlushFails(u, o, turn, q);
    var w1, w2 := FlushFrom(u, o, w, t, 0).0, FlushQueue(u, o, turn, q).0;
    var stop := |Progress(u, o, turn, q)|;
    if stop < |q| && u.bytes(q[stop].cmd).Some? {
      var failed := Attempt(q[stop].cmd.target, u.bytes(q[stop].cmd).value, false);
      var a :| |turn.air| <= a < |w2.air| && w2.air[a] == failed;
      assert w1.air[a] == w2.air[a];
    }
  }

  // ---------- A command that can never be sent ----------

  /** Repeated flushes of one queue, the k-th starting at `turns[k]`: the writes and what remains. */
  function FlushAgain(u: Rules, o: Oracle, turns: seq<Cursor>, q: seq<Entry>): (seq<Attempt>, Option<seq<Entry>>) {
    if turns == [] then ([], Some(q))
    else
      var (w1, rest) := FlushQueue(u, o, turns[0].(air := []), q);
      if rest.None? then (w1.air, None)
      else
        var (later, end) := FlushAgain(u, o, turns[1..], rest.value);
        (w1.air + later, end)
  }

  /** Each flush reads the clock less than a TTL after the stamp left by the one before. */
  ghost predicate Spaced(o: Oracle, ttl: nat, turns: seq<Cursor>, stamp: nat) {
    turns != [] ==>
      && stamp <= o.clock(turns[0].ticks) < stamp + ttl
      && Spaced(o, ttl, turns[1..], o.clock(turns[0].ticks + 1))
  }

  /**
   * A head that no handler can send, flushed any number of times before its TTL runs out, stays at
   * the head with everything behind it untouched: each failed retry stamps it again, so it never
   * expires, and nothing is written.
   */
  lemma {:induction false} BlockedHead(o: Oracle, ttl: nat, turns: seq<Cursor>, q: seq<Entry>, stamp: nat)
    requires q != [] && PacketFor(q[0].cmd).None? && q[0].queuedAt == ToU32(stamp)
    requires ttl < TWO_32 && Spaced(o, ttl, turns, stamp)
    ensures var (writes, end) := FlushAgain(HubRules(o, ttl), o, turns, q);
      && writes == []
      && end.Some? && |end.value| == |q|
      && end.value[0].cmd == q[0].cmd && end.value[1..] == q[1..]
      && (turns != [] ==> end.value[0].queuedAt == Millis(o, turns[|turns| - 1].ticks + 1))
    decreases |turns|
  {
    if turns != [] {
      var u := HubRules(o, ttl);
      var (w1, rest) := FlushQueue(u, o, turns[0].(air := []), q);
      AgeWraps(o.clock(turns[0].ticks), stamp);
      assert u.bytes(q[0].cmd).None?;
      assert rest == Some([Entry(q[0].cmd, Millis(o, turns[0].ticks + 1))] + q[1..]);
      BlockedHead(o, ttl, turns[1..], rest.value, o.clock(turns[0].ticks + 1));
    }
  }
}
