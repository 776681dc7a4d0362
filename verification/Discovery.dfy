/**
 * The queue of discovered addresses: the scan callback fills it in several separately locked steps
 * while the loop task takes from it. Capacity is any number.
 */
module Discovery {
  import opened Types

  /** Node addresses as the scanner reports them. */
  type Address = nat

  /** onResult after each of its checks has passed. */
  datatype Scan =
    | Idle
    | NotConnected(addr: Address)
    | NotPending(addr: Address)
    | HasSlot(addr: Address)
    | HasRoom(addr: Address)

  /** `accepted` and `taken` are histories; `refused` counts pushes that found the queue full. */
  datatype State = State(queue: seq<Address>, scan: Scan, accepted: seq<Address>, taken: seq<Address>, refused: nat)

  datatype Action =
    | See(addr: Address, connected: bool)
    | CheckPending
    | CheckSlot(free: bool)
    | CheckFull
    | Push
    | Take

  predicate Enabled(s: State, a: Action) {
    match a
    case See(_, _) => s.scan.Idle?
    case CheckPending => s.scan.NotConnected?
    case CheckSlot(_) => s.scan.NotPending?
    case CheckFull => s.scan.HasSlot?
    case Push => s.scan.HasRoom?
    case Take => true
  }

  function Apply(cap: nat, s: State, a: Action): State
    requires Enabled(s, a)
  {
    match a
    case See(addr, connected) => if connected then s else s.(scan := NotConnected(addr))
    case CheckPending => s.(scan := if s.scan.addr in s.queue then Idle else NotPending(s.scan.addr))
    case CheckSlot(free) => s.(scan := if free then HasSlot(s.scan.addr) else Idle)
    case CheckFull => s.(scan := if |s.queue| >= cap then Idle else HasRoom(s.scan.addr))
    case Push =>
      if |s.queue| >= cap then s.(scan := Idle, refused := s.refused + 1)
      else s.(scan := Idle, queue := s.queue + [s.scan.addr], accepted := s.accepted + [s.scan.addr])
    case Take =>
      if s.queue == [] then s else s.(queue := s.queue[1..], taken := s.taken + [s.queue[0]])
  }

  function Run(cap: nat, run: seq<Action>): Option<State> {
    if run == [] then Some(State([], Idle, [], [], 0))
    else
      var before := Run(cap, run[..|run| - 1]);
      if before.Some? && Enabled(before.value, run[|run| - 1])
      then Some(Apply(cap, before.value, run[|run| - 1]))
      else None
  }

  ghost predicate NoDuplicates(q: seq<Address>) {
    forall i, j :: 0 <= i < j < |q| ==> q[i] != q[j]
  }

  /** What holds between any two steps. */
  ghost predicate Clean(cap: nat, s: State) {
    && NoDuplicates(s.queue) && |s.queue| <= cap
    && s.refused == 0
    && s.accepted == s.taken + s.queue
    && (s.scan.NotPending? || s.scan.HasSlot? || s.scan.HasRoom? ==> s.scan.addr !in s.queue)
    && (s.scan.HasRoom? ==> |s.queue| < cap)
  }

  lemma CleanKept(cap: nat, s: State, a: Action)
    requires Clean(cap, s) && Enabled(s, a)
    ensures Clean(cap, Apply(cap, s, a))
  {
  }

  /**
   * In every interleaving the queue never holds an address twice, a push that got through the
   * checks always finds room, and the loop task takes the accepted addresses in order.
   */
  lemma {:induction false} QueueStaysClean(cap: nat, run: seq<Action>)
    requires Run(cap, run).Some?
    ensures var s := Run(cap, run).value;
      && NoDuplicates(s.queue) && |s.queue| <= cap
      && s.refused == 0
      && s.accepted == s.taken + s.queue
      && Clean(cap, s)
  {
    if run != [] {
      QueueStaysClean(cap, run[..|run| - 1]);
      CleanKept(cap, Run(cap, run[..|run| - 1]).value, run[|run| - 1]);
    }
  }

  /** The loop task can take the oldest address whatever the scan callback is doing, and only that. */
  lemma TakesOldest(cap: nat, s: State)
    ensures Enabled(s, Take)
    ensures Apply(cap, s, Take) ==
      if s.queue == [] then s else s.(queue := s.queue[1..], taken := s.taken + [s.queue[0]])
  {
  }

  // ---------- What gets into the queue ----------

  /** The checks of one scan result with nothing in between. */
  function ScanAlone(cap: nat, s: State, addr: Address, connected: bool, free: bool): State
    requires s.scan.Idle?
  {
    var s1 := Apply(cap, s, See(addr, connected));
    if s1.scan.Idle? then s1
    else
      var s2 := Apply(cap, s1, CheckPending);
      if s2.scan.Idle? then s2
      else
        var s3 := Apply(cap, s2, CheckSlot(free));
        if s3.scan.Idle? then s3
        else
          var s4 := Apply(cap, s3, CheckFull);
          if s4.scan.Idle? then s4 else Apply(cap, s4, Push)
  }

  /** An address seen is queued exactly when it is not connected, not queued, and slot and room are there. */
  lemma ScanOutcome(cap: nat, s: State, addr: Address, connected: bool, free: bool)
    requires s.scan.Idle?
    ensures ScanAlone(cap, s, addr, connected, free) ==
      if !connected && addr !in s.queue && free && |s.queue| < cap
      then s.(queue := s.queue + [addr], accepted := s.accepted + [addr])
      else s
  {
  }

  /** The address was seen unconnected and then a slot found free, no other result seen in between. */
  ghost predicate Gated(run: seq<Action>, addr: Address, seen: nat, slot: nat) {
    && seen < slot < |run|
    && run[seen] == See(addr, false) && run[slot] == CheckSlot(true)
    && forall i :: seen < i < slot ==> !run[i].See?
  }

  /** The scan in progress goes back to an unconnected result, and to a free slot if past that check. */
  ghost predicate ScanGated(run: seq<Action>, scan: Scan, seen: nat, slot: nat) {
    match scan
    case Idle => true
    case NotConnected(a) => seen < |run| && run[seen] == See(a, false) && NoSeeAfter(run, seen)
    case NotPending(a) => seen < |run| && run[seen] == See(a, false) && NoSeeAfter(run, seen)
    case HasSlot(a) => Gated(run, a, seen, slot)
    case HasRoom(a) => Gated(run, a, seen, slot)
  }

  predicate NoSeeAfter(run: seq<Action>, seen: nat) { forall i :: seen < i < |run| ==> !run[i].See? }

  lemma {:induction false} ScanHasGates(cap: nat, run: seq<Action>) returns (seen: nat, slot: nat)
    requires Run(cap, run).Some?
    ensures ScanGated(run, Run(cap, run).value.scan, seen, slot)
  {
    seen, slot := 0, 0;
    if run != [] {
      var front, a := run[..|run| - 1], run[|run| - 1];
      seen, slot := ScanHasGates(cap, front);
      if a.See? {
        seen := |front|;
      } else if a.CheckSlot? {
        slot := |front|;
      }
    }
  }

  /**
   * In every run an address gets into the queue only after the scanner saw it unconnected and a slot
   * was free for it since, with no other result seen in between.
   */
  lemma {:induction false} QueuedOnlyThroughGates(cap: nat, run: seq<Action>, k: nat) returns (seen: nat, slot: nat)
    requires Run(cap, run).Some? && k < |Run(cap, run).value.accepted|
    ensures Gated(run, Run(cap, run).value.accepted[k], seen, slot)
  {
    var front, a := run[..|run| - 1], run[|run| - 1];
    if k < |Run(cap, front).value.accepted| {
      seen, slot := QueuedOnlyThroughGates(cap, front, k);
    } else {
      seen, slot := ScanHasGates(cap, front);
    }
  }
}
