/**
 * The BLE connection slots. A slot's client pointer doubles as the pool of client objects to reuse:
 * a slot that is not used keeps the object of its last connection until someone takes it.
 */
module ClientSlots {
  import opened Types

  /** Client objects, numbered by creation. */
  type Client = nat

  /** `ready` tells whether the configuration characteristic is set. */
  datatype Slot = Slot(client: Option<Client>, used: bool, addr: nat, ready: bool)

  // ---------- Searches ----------

  /** Index of the first slot satisfying the predicate, or the number of slots. */
  function First(nodes: seq<Slot>, pred: Slot -> bool): (i: nat)
    ensures i <= |nodes|
    ensures i < |nodes| ==> pred(nodes[i])
    ensures forall k :: 0 <= k < i ==> !pred(nodes[k])
  {
    if nodes == [] || pred(nodes[0]) then 0 else 1 + First(nodes[1..], pred)
  }

  function IsEmpty(): Slot -> bool { (s: Slot) => !s.used }

  function IsReusable(): Slot -> bool { (s: Slot) => !s.used && s.client.Some? }

  function IsBare(): Slot -> bool { (s: Slot) => !s.used && s.client.None? }

  function IsUsedBy(c: Client): Slot -> bool { (s: Slot) => s.used && s.client == Some(c) }

  function FindEmptySlot(nodes: seq<Slot>): (i: nat)
    ensures i <= |nodes| && (forall k :: 0 <= k < i ==> nodes[k].used)
    ensures i < |nodes| ==> !nodes[i].used
  {
    First(nodes, IsEmpty())
  }

  // ---------- Updates ----------

  /** The first unused slot that keeps a client. */
  predicate TakenAt(nodes: seq<Slot>, i: nat) {
    && i < |nodes| && !nodes[i].used && nodes[i].client.Some?
    && forall k :: 0 <= k < i ==> nodes[k].used || nodes[k].client.None?
  }

  /** The first unused slot that keeps none. */
  predicate StashedAt(nodes: seq<Slot>, i: nat) {
    && i < |nodes| && !nodes[i].used && nodes[i].client.None?
    && forall k :: 0 <= k < i ==> nodes[k].used || nodes[k].client.Some?
  }

  /** The first slot in use by the client. */
  predicate UsedAt(nodes: seq<Slot>, i: nat, c: Client) {
    && i < |nodes| && nodes[i].used && nodes[i].client == Some(c)
    && forall k :: 0 <= k < i ==> !(nodes[k].used && nodes[k].client == Some(c))
  }

  /** findReusableClient: the client taken out of the first unused slot that keeps one. */
  function TakeReusable(nodes: seq<Slot>): (r: (seq<Slot>, Option<Client>))
    ensures |r.0| == |nodes|
    ensures forall k :: 0 <= k < |nodes| ==>
      r.0[k] == if TakenAt(nodes, k) then nodes[k].(client := None) else nodes[k]
    ensures forall k :: 0 <= k < |nodes| && TakenAt(nodes, k) ==> r.1 == nodes[k].client
    ensures r.1.None? <==> forall k :: 0 <= k < |nodes| ==> nodes[k].used || nodes[k].client.None?
  {
    var i := First(nodes, IsReusable());
    if i == |nodes| then (nodes, None) else (nodes[i := nodes[i].(client := None)], nodes[i].client)
  }

  /** stashClient: into the first unused slot without a client; the object leaks if there is none. */
  function Stash(nodes: seq<Slot>, c: Client): (r: seq<Slot>)
    ensures |r| == |nodes|
    ensures forall k :: 0 <= k < |nodes| ==>
      r[k] == if StashedAt(nodes, k) then nodes[k].(client := Some(c)) else nodes[k]
  {
    var i := First(nodes, IsBare());
    if i == |nodes| then nodes else nodes[i := nodes[i].(client := Some(c))]
  }

  /** onDisconnect: the slot in use by the client, if any, is freed and keeps the object. */
  function Dropped(nodes: seq<Slot>, c: Client): (r: seq<Slot>)
    ensures |r| == |nodes|
    ensures forall k :: 0 <= k < |nodes| ==>
      r[k] == if UsedAt(nodes, k, c) then nodes[k].(used := false, ready := false) else nodes[k]
  {
    var i := First(nodes, IsUsedBy(c));
    if i == |nodes| then nodes else nodes[i := nodes[i].(used := false, ready := false)]
  }

  function CleanedUp(nodes: seq<Slot>): (r: seq<Slot>)
    ensures |r| == |nodes|
    ensures forall k :: 0 <= k < |nodes| ==>
      r[k] == if !nodes[k].used && nodes[k].client.Some? then nodes[k].(ready := false) else nodes[k]
  {
    seq(|nodes|, k requires 0 <= k < |nodes| =>
      if !nodes[k].used && nodes[k].client.Some? then nodes[k].(ready := false) else nodes[k])
  }

  // ---------- The slot array of the firmware ----------

  class BleCentral {
    const nodes: array<Slot>
    var doScan: bool
    var created: nat   // client objects made so far

    constructor (count: nat)
      ensures fresh(nodes) && nodes[..] == Start(count).nodes && created == Start(count).created && !doScan
    {
      nodes := new Slot[count](_ => Slot(None, false, 0, false));
      doScan, created := false, 0;
    }

    method FindSlotIndex(pred: Slot -> bool) returns (i: nat)
      ensures i == First(nodes[..], pred)
    {
      i := 0;
      while i < nodes.Length
        invariant i <= nodes.Length
        invariant First(nodes[..], pred) == i + First(nodes[i..], pred)
      {
        assert nodes[i..][1..] == nodes[i + 1..];
        if pred(nodes[i]) {
          return;
        }
        i := i + 1;
      }
    }

    method FindReusableClient() returns (c: Option<Client>)
      modifies nodes
      ensures (nodes[..], c) == TakeReusable(old(nodes[..]))
      ensures forall k :: 0 <= k < nodes.Length && TakenAt(old(nodes[..]), k) ==>
        c == old(nodes[k]).client && nodes[k] == old(nodes[k]).(client := None)
      ensures forall k :: 0 <= k < nodes.Length && !TakenAt(old(nodes[..]), k) ==> nodes[k] == old(nodes[k])
    {
      var i := FindSlotIndex(IsReusable());
      if i == nodes.Length {
        return None;
      }
      c := nodes[i].client;
      nodes[i] := nodes[i].(client := None);
    }

    method StashClient(c: Client)
      modifies nodes
      ensures nodes[..] == Stash(old(nodes[..]), c)
      ensures forall k :: 0 <= k < nodes.Length ==>
        nodes[k] == if StashedAt(old(nodes[..]), k) then old(nodes[k]).(client := Some(c)) else old(nodes[k])
    {
      var i := FindSlotIndex(IsBare());
      if i < nodes.Length {
        nodes[i] := nodes[i].(client := Some(c));
      }
    }

    method OnDisconnect(c: Client)
      modifies this, nodes
      ensures nodes[..] == Dropped(old(nodes[..]), c) && doScan
      ensures forall k :: 0 <= k < nodes.Length && nodes[k] != old(nodes[k]) ==>
        && old(nodes[k]).used && old(nodes[k]).client == Some(c)
        && nodes[k] == old(nodes[k]).(used := false, ready := false)
      ensures forall k :: 0 <= k < nodes.Length && UsedAt(old(nodes[..]), k, c) ==> !nodes[k].used
    {
      var i := FindSlotIndex(IsUsedBy(c));
      if i < nodes.Length {
        nodes[i] := nodes[i].(used := false, ready := false);
      }
      doScan := true;
    }

    /** acquireClient: a kept client, else a new one if the BLE stack can make it. */
    method AcquireClient(canCreate: bool) returns (c: Option<Client>)
      modifies nodes, this`created
      ensures var (taken, kept) := TakeReusable(old(nodes[..]));
        if kept.Some? then nodes[..] == taken && c == kept && created == old(created)
        else
          && nodes[..] == old(nodes[..])
          && c == (if canCreate then Some(old(created)) else None)
          && created == old(created) + (if canCreate then 1 else 0)
    {
      c := FindReusableClient();
      if c.None? && canCreate {
        c := Some(created);
        created := created + 1;
      }
    }

    method RegisterNode(slot: nat, client: Client, addr: nat, ready: bool)
      requires slot < nodes.Length
      modifies nodes
      ensures nodes[..] == old(nodes[..])[slot := Slot(Some(client), true, addr, ready)]
    {
      nodes[slot] := nodes[slot].(client := Some(client));
      nodes[slot] := nodes[slot].(ready := ready);
      nodes[slot] := nodes[slot].(addr := addr);
      nodes[slot] := nodes[slot].(used := true);
    }

    /**
     * connectToNode when no callback falls in between; `link` says what the BLE stack answers. In
     * the steps of the connect machine below it is one of its runs.
     */
    method ConnectToNode(addr: nat, link: Answers) returns (ok: bool)
      modifies nodes, this`created
      ensures nodes[..] == ConnectAlone(Idle(old(nodes[..]), old(created)), addr, link).nodes
      ensures created == ConnectAlone(Idle(old(nodes[..]), old(created)), addr, link).created
      ensures ok <==> (
        && FindEmptySlot(old(nodes[..])) < nodes.Length
        && (link.canCreate || First(old(nodes[..]), IsReusable()) < nodes.Length)
        && link.connects && link.discovers)
    {
      AloneOutcome(nodes[..], created, addr, link);
      var slot := FindSlotIndex(IsEmpty());
      if slot == nodes.Length {
        return false;
      }
      var client := AcquireClient(link.canCreate);
      if client.None? {
        return false;
      }
      if !link.connects || !link.discovers {
        StashClient(client.value);
        return false;
      }
      RegisterNode(slot, client.value, addr, link.ready);
      ok := true;
    }

    method CleanupDisconnected()
      modifies nodes
      ensures nodes[..] == CleanedUp(old(nodes[..]))
      ensures forall k :: 0 <= k < nodes.Length ==>
        if old(nodes[k]).used || old(nodes[k]).client.None? then nodes[k] == old(nodes[k])
        else nodes[k] == old(nodes[k]).(ready := false)
    {
      for i := 0 to nodes.Length
        invariant forall k :: 0 <= k < i ==> nodes[k] == CleanedUp(old(nodes[..]))[k]
        invariant forall k :: i <= k < nodes.Length ==> nodes[k] == old(nodes[k])
      {
        if !nodes[i].used && nodes[i].client.Some? {
          nodes[i] := nodes[i].(ready := false);
        }
      }
    }
  }

  // ---------- Connecting, with callbacks in between ----------

  /**
   * connectToNode: the slot was found, a client acquired, the link made, the service subscribed.
   * `spare` remembers an unused slot without a client from the moment of acquisition: the found
   * slot itself, or else the one the client was taken from. From `Claimed` on the slot owns the
   * client and only its other fields are still to be set.
   */
  datatype Connect =
    | NotConnecting
    | Found(slot: nat, disturbed: bool)
    | Acquired(slot: nat, client: Client, spare: nat)
    | Linked(slot: nat, client: Client, spare: nat)
    | Subscribed(slot: nat, client: Client, spare: nat)
    | Failing(slot: nat, client: Client, spare: nat)
    | Claimed(slot: nat)
    | Described(slot: nat)

  /** `created` counts the client objects ever made and `lost` holds those overwritten in a slot. */
  datatype State = State(nodes: seq<Slot>, created: nat, connect: Connect, lost: set<Client>)

  /** `Disconnect` is the callback of the BLE host task; it can come at any moment. */
  datatype Action =
    | Cleanup
    | FindSlot
    | Acquire(canCreate: bool)
    | Link(ok: bool)
    | Discover(ok: bool)
    | PutBack
    | SetClient
    | Describe(addr: nat, ready: bool)
    | SetUsed
    | Disconnect(client: Client)

  function Start(slots: nat): State {
    State(seq(slots, _ => Slot(None, false, 0, false)), 0, NotConnecting, {})
  }

  predicate Enabled(s: State, a: Action) {
    match a
    case Cleanup => s.connect.NotConnecting?
    case FindSlot => s.connect.NotConnecting?
    case Acquire(_) => s.connect.Found?
    case Link(_) => s.connect.Acquired?
    case Discover(_) => s.connect.Linked?
    case PutBack => s.connect.Failing?
    case SetClient => s.connect.Subscribed? && s.connect.slot < |s.nodes|
    case Describe(_, _) => s.connect.Claimed? && s.connect.slot < |s.nodes|
    case SetUsed => s.connect.Described? && s.connect.slot < |s.nodes|
    case Disconnect(_) => true
  }

  function DoAcquire(s: State, canCreate: bool): State
    requires s.connect.Found?
  {
    var slot := s.connect.slot;
    var i := First(s.nodes, IsReusable());
    var (nodes, c) := TakeReusable(s.nodes);
    match c
    case Some(c) =>
      var spare := if slot < |nodes| && nodes[slot].client.None? then slot else i;
      s.(nodes := nodes, connect := Acquired(slot, c, spare))
    case None =>
      if canCreate then s.(created := s.created + 1, connect := Acquired(slot, s.created, slot))
      else s.(connect := NotConnecting)
  }

  function DoSetClient(s: State): State
    requires s.connect.Subscribed? && s.connect.slot < |s.nodes|
  {
    var slot := s.connect.slot;
    var before := s.nodes[slot].client;
    s.(nodes := s.nodes[slot := s.nodes[slot].(client := Some(s.connect.client))],
       connect := Claimed(slot),
       lost := if before.Some? then s.lost + {before.value} else s.lost)
  }

  function DoDisconnect(s: State, c: Client): State {
    var nodes := Dropped(s.nodes, c);
    var disturbed := s.connect.Found? && nodes != s.nodes;
    s.(nodes := nodes, connect := if disturbed then s.connect.(disturbed := true) else s.connect)
  }

  function Apply(s: State, a: Action): State
    requires Enabled(s, a)
  {
    match a
    case Cleanup => s.(nodes := CleanedUp(s.nodes))
    case FindSlot =>
      var slot := FindEmptySlot(s.nodes);
      if slot == |s.nodes| then s else s.(connect := Found(slot, false))
    case Acquire(canCreate) => DoAcquire(s, canCreate)
    case Link(ok) =>
      var Acquired(slot, c, spare) := s.connect;
      s.(connect := if ok then Linked(slot, c, spare) else Failing(slot, c, spare))
    case Discover(ok) =>
      var Linked(slot, c, spare) := s.connect;
      s.(connect := if ok then Subscribed(slot, c, spare) else Failing(slot, c, spare))
    case PutBack => s.(nodes := Stash(s.nodes, s.connect.client), connect := NotConnecting)
    case SetClient => DoSetClient(s)
    case Describe(addr, ready) =>
      var slot := s.connect.slot;
      s.(nodes := s.nodes[slot := s.nodes[slot].(addr := addr, ready := ready)], connect := Described(slot))
    case SetUsed =>
      var slot := s.connect.slot;
      s.(nodes := s.nodes[slot := s.nodes[slot].(used := true)], connect := NotConnecting)
    case Disconnect(c) => DoDisconnect(s, c)
  }

  /** What the BLE stack answers during one connect. */
  datatype Answers = Answers(canCreate: bool, connects: bool, discovers: bool, ready: bool)

  function Idle(nodes: seq<Slot>, created: nat): State { State(nodes, created, NotConnecting, {}) }

  /** All steps of one connect, one after the other. */
  function ConnectAlone(s: State, addr: nat, link: Answers): State
    requires s.connect.NotConnecting?
  {
    var s1 := Apply(s, FindSlot);
    if s1.connect.NotConnecting? then s1
    else
      var s2 := Apply(s1, Acquire(link.canCreate));
      if s2.connect.NotConnecting? then s2
      else
        ConnectOn(s2, addr, link)
  }

  /** From the acquired client on. */
  function ConnectOn(s: State, addr: nat, link: Answers): State
    requires s.connect.Acquired? && s.connect.slot < |s.nodes|
  {
    var s1 := Apply(s, Link(link.connects));
    if s1.connect.Failing? then Apply(s1, PutBack)
    else
      var s2 := Apply(s1, Discover(link.discovers));
      if s2.connect.Failing? then Apply(s2, PutBack)
      else Apply(Apply(Apply(s2, SetClient), Describe(addr, link.ready)), SetUsed)
  }

  lemma OnOutcome(s: State, addr: nat, link: Answers)
    requires s.connect.Acquired? && s.connect.slot < |s.nodes|
    ensures var s1, c := ConnectOn(s, addr, link), s.connect.client;
      && s1.created == s.created
      && s1.nodes ==
        if link.connects && link.discovers
        then s.nodes[s.connect.slot := Slot(Some(c), true, addr, link.ready)]
        else Stash(s.nodes, c)
  {
  }

  lemma AloneOutcome(nodes: seq<Slot>, created: nat, addr: nat, link: Answers)
    ensures var s1 := ConnectAlone(Idle(nodes, created), addr, link);
      var (taken, kept) := TakeReusable(nodes);
      var client := if kept.Some? then kept.value else created;
      if FindEmptySlot(nodes) == |nodes| || (kept.None? && !link.canCreate) then
        s1.nodes == nodes && s1.created == created
      else
        && s1.created == (if kept.Some? then created else created + 1)
        && s1.nodes ==
          if link.connects && link.discovers
          then taken[FindEmptySlot(nodes) := Slot(Some(client), true, addr, link.ready)]
          else Stash(taken, client)
  {
    var s1 := Apply(Idle(nodes, created), FindSlot);
    if s1.connect.Found? {
      var s2 := Apply(s1, Acquire(link.canCreate));
      if s2.connect.Acquired? {
        OnOutcome(s2, addr, link);
      }
    }
  }

  function Run(slots: nat, run: seq<Action>): Option<State> {
    if run == [] then Some(Start(slots))
    else
      var before := Run(slots, run[..|run| - 1]);
      if before.Some? && Enabled(before.value, run[|run| - 1])
      then Some(Apply(before.value, run[|run| - 1]))
      else None
  }

  // ---------- Owners ----------

  function CountSlots(nodes: seq<Slot>, c: Client): nat {
    if nodes == [] then 0 else (if nodes[0].client == Some(c) then 1 else 0) + CountSlots(nodes[1..], c)
  }

  function InHand(k: Connect): Option<Client> {
    if k.Acquired? || k.Linked? || k.Subscribed? || k.Failing? then Some(k.client) else None
  }

  /** The slots that keep the client object, plus the connect in progress if it does. */
  function Owners(s: State, c: Client): nat {
    CountSlots(s.nodes, c) + if InHand(s.connect) == Some(c) then 1 else 0
  }

  function Kept(nodes: seq<Slot>): nat {
    if nodes == [] then 0 else (if nodes[0].client.Some? then 1 else 0) + Kept(nodes[1..])
  }

  lemma {:induction false} CountUpdate(nodes: seq<Slot>, i: nat, slot: Slot, c: Client)
    requires i < |nodes|
    ensures CountSlots(nodes[i := slot], c) ==
      CountSlots(nodes, c) - (if nodes[i].client == Some(c) then 1 else 0) + (if slot.client == Some(c) then 1 else 0)
    ensures Kept(nodes[i := slot]) ==
      Kept(nodes) - (if nodes[i].client.Some? then 1 else 0) + (if slot.client.Some? then 1 else 0)
  {
    if i == 0 {
      assert nodes[0 := slot][1..] == nodes[1..];
    } else {
      assert nodes[i := slot][1..] == nodes[1..][i - 1 := slot];
      CountUpdate(nodes[1..], i - 1, slot, c);
    }
  }

  lemma {:induction false} SameClients(a: seq<Slot>, b: seq<Slot>, c: Client)
    requires |a| == |b| && forall k :: 0 <= k < |a| ==> a[k].client == b[k].client
    ensures CountSlots(a, c) == CountSlots(b, c) && Kept(a) == Kept(b)
  {
    if a != [] {
      SameClients(a[1..], b[1..], c);
    }
  }

  lemma {:induction false} KeptBound(nodes: seq<Slot>)
    ensures Kept(nodes) <= |nodes|
    ensures (exists k :: 0 <= k < |nodes| && nodes[k].client.None?) ==> Kept(nodes) < |nodes|
  {
    if nodes != [] {
      KeptBound(nodes[1..]);
      if nodes[0].client.Some? && exists k :: 0 <= k < |nodes| && nodes[k].client.None? {
        var k :| 0 <= k < |nodes| && nodes[k].client.None?;
        assert nodes[1..][k - 1].client.None?;
      }
    }
  }

  lemma {:induction false} StartCounts(slots: nat, c: Client)
    ensures CountSlots(Start(slots).nodes, c) == 0 && Kept(Start(slots).nodes) == 0
  {
    if slots > 0 {
      assert Start(slots).nodes[1..] == Start(slots - 1).nodes;
      StartCounts(slots - 1, c);
    }
  }

  // ---------- Invariant ----------

  predicate Bare(nodes: seq<Slot>, i: nat) { i < |nodes| && !nodes[i].used && nodes[i].client.None? }

  /** Used slots have clients; the connect in progress keeps an unused slot and a bare one. */
  ghost predicate ShapeOk(s: State) {
    && (forall k :: 0 <= k < |s.nodes| && s.nodes[k].used ==> s.nodes[k].client.Some?)
    && match s.connect
       case NotConnecting => true
       case Found(slot, disturbed) =>
         && slot < |s.nodes| && !s.nodes[slot].used
         && (!disturbed ==> slot == FindEmptySlot(s.nodes))
       case Claimed(slot) => slot < |s.nodes| && !s.nodes[slot].used && s.nodes[slot].client.Some?
       case Described(slot) => slot < |s.nodes| && !s.nodes[slot].used && s.nodes[slot].client.Some?
       case _ =>
         && s.connect.slot < |s.nodes| && !s.nodes[s.connect.slot].used
         && Bare(s.nodes, s.connect.spare)
         && (s.connect.spare == s.connect.slot <==> s.nodes[s.connect.slot].client.None?)
  }

  /** Each client ever created has one owner, or none once it has been overwritten. */
  ghost predicate OwnersOk(s: State, c: Client) {
    && Owners(s, c) == (if c < s.created && c !in s.lost then 1 else 0)
    && (c in s.lost ==> c < s.created)
  }

  ghost predicate SizeOk(s: State) {
    s.created == Kept(s.nodes) + (if InHand(s.connect).Some? then 1 else 0) + |s.lost|
  }

  lemma DroppedShape(nodes: seq<Slot>, c: Client)
    ensures |Dropped(nodes, c)| == |nodes|
    ensures forall k :: 0 <= k < |nodes| ==> Dropped(nodes, c)[k].client == nodes[k].client
    ensures forall k :: 0 <= k < |nodes| && !nodes[k].used ==> !Dropped(nodes, c)[k].used
  {
  }

  lemma AcquireShape(s: State, canCreate: bool)
    requires ShapeOk(s) && s.connect.Found?
    ensures ShapeOk(DoAcquire(s, canCreate))
  {
  }

  lemma DisconnectShape(s: State, c: Client)
    requires ShapeOk(s)
    ensures ShapeOk(DoDisconnect(s, c))
  {
    DroppedShape(s.nodes, c);
  }

  lemma ShapeKept(s: State, a: Action)
    requires ShapeOk(s) && Enabled(s, a)
    ensures ShapeOk(Apply(s, a))
  {
    match a
    case Disconnect(c) => DisconnectShape(s, c);
    case Acquire(canCreate) => AcquireShape(s, canCreate);
    case _ =>
  }

  /** A slot whose client pointer is rewritten, and the counts that go with it. */
  lemma Rewrite(nodes: seq<Slot>, i: nat, to: Option<Client>, c: Client)
    requires i < |nodes|
    ensures CountSlots(nodes[i := nodes[i].(client := to)], c) ==
      CountSlots(nodes, c) - (if nodes[i].client == Some(c) then 1 else 0) + (if to == Some(c) then 1 else 0)
    ensures Kept(nodes[i := nodes[i].(client := to)]) ==
      Kept(nodes) - (if nodes[i].client.Some? then 1 else 0) + (if to.Some? then 1 else 0)
    ensures nodes[i].client == Some(c) ==> CountSlots(nodes, c) > 0
  {
    CountUpdate(nodes, i, nodes[i].(client := to), c);
    CountUpdate(nodes, i, nodes[i].(client := None), c);
  }

  /** What a step does to the counts, apart from the three steps that move a client. */
  lemma OtherCounts(s: State, a: Action, c: Client)
    requires ShapeOk(s) && Enabled(s, a) && !a.Acquire? && !a.PutBack? && !a.SetClient?
    ensures var s1 := Apply(s, a);
      && Owners(s1, c) == Owners(s, c) && Kept(s1.nodes) == Kept(s.nodes)
      && InHand(s1.connect) == InHand(s.connect) && s1.created == s.created && s1.lost == s.lost
  {
    if a.Disconnect? {
      DroppedShape(s.nodes, a.client);
    }
    SameClients(s.nodes, Apply(s, a).nodes, c);
  }

  lemma OwnersKept(s: State, a: Action, c: Client)
    requires ShapeOk(s) && Enabled(s, a) && OwnersOk(s, c)
    ensures OwnersOk(Apply(s, a), c)
  {
    match a
    case Acquire(_) =>
      var i := First(s.nodes, IsReusable());
      if i < |s.nodes| {
        Rewrite(s.nodes, i, None, c);
      }
    case PutBack =>
      assert IsBare()(s.nodes[s.connect.spare]);
      Rewrite(s.nodes, First(s.nodes, IsBare()), Some(s.connect.client), c);
    case SetClient => Rewrite(s.nodes, s.connect.slot, Some(s.connect.client), c);
    case _ => OtherCounts(s, a, c);
  }

  lemma SetClientSize(s: State)
    requires ShapeOk(s) && Enabled(s, SetClient) && SizeOk(s) && forall c :: OwnersOk(s, c)
    ensures SizeOk(Apply(s, SetClient))
  {
    var before := s.nodes[s.connect.slot].client;
    var c := if before.Some? then before.value else 0;
    Rewrite(s.nodes, s.connect.slot, Some(s.connect.client), c);
    assert OwnersOk(s, c);
  }

  lemma SizeKept(s: State, a: Action)
    requires ShapeOk(s) && Enabled(s, a) && SizeOk(s) && forall c :: OwnersOk(s, c)
    ensures SizeOk(Apply(s, a))
  {
    if a.Acquire? {
      var i := First(s.nodes, IsReusable());
      if i < |s.nodes| {
        Rewrite(s.nodes, i, None, 0);
      }
    } else if a.PutBack? {
      assert IsBare()(s.nodes[s.connect.spare]);
      Rewrite(s.nodes, First(s.nodes, IsBare()), Some(s.connect.client), 0);
    } else if a.SetClient? {
      SetClientSize(s);
    } else {
      OtherCounts(s, a, 0);
    }
  }

  // ---------- What holds in every run ----------

  ghost predicate Reachable(slots: nat, s: State) { exists run :: Run(slots, run) == Some(s) }

  lemma {:induction false} RunKeepsShape(slots: nat, run: seq<Action>)
    requires Run(slots, run).Some?
    ensures ShapeOk(Run(slots, run).value) && |Run(slots, run).value.nodes| == slots
    decreases |run|
  {
    if run != [] {
      var s, a := Run(slots, run[..|run| - 1]).value, run[|run| - 1];
      RunKeepsShape(slots, run[..|run| - 1]);
      ShapeKept(s, a);
    }
  }

  lemma {:induction false} RunKeepsOwners(slots: nat, run: seq<Action>, c: Client)
    requires Run(slots, run).Some?
    ensures OwnersOk(Run(slots, run).value, c)
    decreases |run|
  {
    if run == [] {
      StartCounts(slots, c);
    } else {
      RunKeepsShape(slots, run[..|run| - 1]);
      RunKeepsOwners(slots, run[..|run| - 1], c);
      OwnersKept(Run(slots, run[..|run| - 1]).value, run[|run| - 1], c);
    }
  }

  lemma {:induction false} RunKeepsSize(slots: nat, run: seq<Action>)
    requires Run(slots, run).Some?
    ensures SizeOk(Run(slots, run).value)
    decreases |run|
  {
    if run == [] {
      StartCounts(slots, 0);
    } else {
      var front := run[..|run| - 1];
      RunKeepsShape(slots, front);
      RunKeepsSize(slots, front);
      forall c
        ensures OwnersOk(Run(slots, front).value, c)
      {
        RunKeepsOwners(slots, front, c);
      }
      SizeKept(Run(slots, front).value, run[|run| - 1]);
    }
  }

  /**
   * In every run, disconnects landing anywhere, a client object has exactly one owner (a slot or
   * the connect in progress) unless it was overwritten, and then it has none for good. At most one
   * object per slot is ever created, plus one for each that was overwritten.
   */
  lemma OneOwnerUnlessOverwritten(slots: nat, s: State, c: Client)
    requires Reachable(slots, s)
    ensures Owners(s, c) == if c < s.created && c !in s.lost then 1 else 0
    ensures s.created <= slots + |s.lost|
  {
    var run :| Run(slots, run) == Some(s);
    RunKeepsShape(slots, run);
    RunKeepsOwners(slots, run, c);
    RunKeepsSize(slots, run);
    KeptBound(s.nodes);
    if InHand(s.connect).Some? {
      assert s.nodes[s.connect.spare].client.None?;
    }
  }

  /** A failed connect always finds a slot to put its client back into. */
  lemma StashNeverLeaks(slots: nat, s: State)
    requires Reachable(slots, s) && Enabled(s, PutBack)
    ensures Bare(s.nodes, First(s.nodes, IsBare()))
    ensures Owners(Apply(s, PutBack), s.connect.client) == 1
  {
    var run :| Run(slots, run) == Some(s);
    RunKeepsShape(slots, run);
    RunKeepsOwners(slots, run, s.connect.client);
    assert IsBare()(s.nodes[s.connect.spare]);
    OwnersKept(s, PutBack, s.connect.client);
  }

  /**
   * Registration overwrites a client exactly when the acquisition went past the found slot: that
   * slot kept a client and a lower one was freed with its client in the meantime.
   */
  lemma OverwriteIsDecidedAtAcquire(slots: nat, s: State)
    requires Reachable(slots, s)
    ensures Enabled(s, SetClient) ==>
      (Apply(s, SetClient).lost != s.lost <==> s.connect.spare != s.connect.slot)
    ensures s.connect.Found? ==> s.connect.slot < |s.nodes| && forall canCreate ::
      var slot, s1 := s.connect.slot, DoAcquire(s, canCreate);
      s1.connect.Acquired? ==>
        (s1.connect.spare != slot <==> s.nodes[slot].client.Some? && First(s.nodes, IsReusable()) < slot)
  {
    var run :| Run(slots, run) == Some(s);
    RunKeepsShape(slots, run);
    if Enabled(s, SetClient) {
      var before := s.nodes[s.connect.slot].client;
      if before.Some? {
        RunKeepsOwners(slots, run, before.value);
        Rewrite(s.nodes, s.connect.slot, None, before.value);
      }
    }
  }

  /** Until the next acquisition a client in hand keeps its slot and its spare. */
  lemma {:induction false} HandKeepsSlot(s: State, mid: seq<Action>, from: Connect)
    requires RunFrom(s, mid).Some? && forall i :: 0 <= i < |mid| ==> !mid[i].Acquire?
    requires InHand(from).Some? && SameHand(s.connect, from)
    ensures SameHand(RunFrom(s, mid).value.connect, from)
    decreases |mid|
  {
    if mid != [] {
      HandKeepsSlot(Apply(s, mid[0]), mid[1..], from);
    }
  }

  predicate SameHand(now: Connect, from: Connect)
    requires InHand(from).Some?
  {
    InHand(now).Some? ==> now.slot == from.slot && now.spare == from.spare
  }

  /** Without an acquisition no client gets into the hand. */
  lemma {:induction false} HandStaysEmpty(s: State, mid: seq<Action>)
    requires RunFrom(s, mid).Some? && forall i :: 0 <= i < |mid| ==> !mid[i].Acquire?
    requires InHand(s.connect).None?
    ensures InHand(RunFrom(s, mid).value.connect).None?
    decreases |mid|
  {
    if mid != [] {
      HandStaysEmpty(Apply(s, mid[0]), mid[1..]);
    }
  }

  function RunFrom(s: State, run: seq<Action>): Option<State>
    decreases |run|
  {
    if run == [] then Some(s)
    else if Enabled(s, run[0]) then RunFrom(Apply(s, run[0]), run[1..])
    else None
  }

  lemma {:induction false} ReachableOn(slots: nat, s: State, run: seq<Action>)
    requires Reachable(slots, s) && RunFrom(s, run).Some?
    ensures Reachable(slots, RunFrom(s, run).value)
    decreases |run|
  {
    if run != [] {
      var pre :| Run(slots, pre) == Some(s);
      var longer := RunStep(slots, pre, run[0], Apply(s, run[0]));
      ReachableOn(slots, Apply(s, run[0]), run[1..]);
    }
  }

  /**
   * Over any run from an acquisition to the registration that follows it: the registration
   * overwrites a client if and only if, at the acquisition, the found slot kept a client and there
   * was one to take below it.
   */
  lemma OverwriteExactly(slots: nat, s: State, canCreate: bool, mid: seq<Action>)
    requires Reachable(slots, s) && Enabled(s, Acquire(canCreate))
    requires forall i :: 0 <= i < |mid| ==> !mid[i].Acquire?
    requires RunFrom(Apply(s, Acquire(canCreate)), mid).Some?
    requires Enabled(RunFrom(Apply(s, Acquire(canCreate)), mid).value, SetClient)
    ensures var s1, slot := RunFrom(Apply(s, Acquire(canCreate)), mid).value, s.connect.slot;
      && slot < |s.nodes|
      && (Apply(s1, SetClient).lost != s1.lost
          <==> s.nodes[slot].client.Some? && First(s.nodes, IsReusable()) < slot)
  {
    var pre :| Run(slots, pre) == Some(s);
    var s0 := Apply(s, Acquire(canCreate));
    var longer := RunStep(slots, pre, Acquire(canCreate), s0);
    OverwriteIsDecidedAtAcquire(slots, s);
    ReachableOn(slots, s0, mid);
    OverwriteIsDecidedAtAcquire(slots, RunFrom(s0, mid).value);
    if InHand(s0.connect).Some? {
      HandKeepsSlot(s0, mid, s0.connect);
    } else {
      HandStaysEmpty(s0, mid);
    }
  }

  /**
   * Between connects cleanup can run at any time: it takes the characteristic from every unused slot
   * that keeps a client, and leaves clients, addresses and slots in use alone.
   */
  lemma CleanupOnlyForgets(s: State)
    requires s.connect.NotConnecting?
    ensures Enabled(s, Cleanup) && Enabled(s, FindSlot)
    ensures var s1 := Apply(s, Cleanup);
      && s1 == s.(nodes := s1.nodes) && |s1.nodes| == |s.nodes|
      && forall k :: 0 <= k < |s.nodes| ==>
           if s.nodes[k].used || s.nodes[k].client.None? then s1.nodes[k] == s.nodes[k]
           else s1.nodes[k] == s.nodes[k].(ready := false)
  {
  }

  /** In every reachable state the connect can go on, with either answer of the BLE stack. */
  lemma ConnectNeverStuck(slots: nat, s: State, answer: bool, addr: nat)
    requires Reachable(slots, s)
    ensures s.connect.NotConnecting? ==> Enabled(s, FindSlot) && Enabled(s, Cleanup)
    ensures s.connect.Found? ==> Enabled(s, Acquire(answer))
    ensures s.connect.Acquired? ==> Enabled(s, Link(answer))
    ensures s.connect.Linked? ==> Enabled(s, Discover(answer))
    ensures s.connect.Failing? ==> Enabled(s, PutBack)
    ensures s.connect.Subscribed? ==> Enabled(s, SetClient)
    ensures s.connect.Claimed? ==> Enabled(s, Describe(addr, answer))
    ensures s.connect.Described? ==> Enabled(s, SetUsed)
  {
    var run :| Run(slots, run) == Some(s);
    RunKeepsShape(slots, run);
  }

  // ---------- Disconnects over runs ----------

  lemma {:induction false} TwoOwners(nodes: seq<Slot>, i: nat, j: nat, c: Client)
    requires i < j < |nodes| && nodes[i].client == Some(c) && nodes[j].client == Some(c)
    ensures CountSlots(nodes, c) >= 2
  {
    CountUpdate(nodes, i, nodes[i].(client := None), c);
    CountUpdate(nodes[i := nodes[i].(client := None)], j, nodes[j].(client := None), c);
  }

  /**
   * In every reachable state a disconnect of a client can come at once. Afterwards no slot is in use
   * by that client, every slot in use by another one is as before, and nothing else changes but the
   * freed slot, which keeps its client.
   */
  lemma DisconnectFreesItsSlot(slots: nat, s: State, c: Client)
    requires Reachable(slots, s)
    ensures Enabled(s, Disconnect(c))
    ensures var s1 := Apply(s, Disconnect(c));
      && |s1.nodes| == |s.nodes| && s1.created == s.created && s1.lost == s.lost
      && forall k :: 0 <= k < |s.nodes| ==>
           s1.nodes[k] ==
             if s.nodes[k].used && s.nodes[k].client == Some(c) then s.nodes[k].(used := false, ready := false)
             else s.nodes[k]
  {
    var run :| Run(slots, run) == Some(s);
    RunKeepsOwners(slots, run, c);
    forall i, j | 0 <= i < j < |s.nodes| && s.nodes[i].client == Some(c) && s.nodes[j].client == Some(c)
      ensures false
    {
      TwoOwners(s.nodes, i, j, c);
    }
  }

  // ---------- When no callback falls between the search and the acquisition ----------

  /** No disconnect arrives while a slot has been found and no client acquired yet. */
  ghost predicate Atomic(slots: nat, run: seq<Action>) {
    run == [] || (
      var front, a := run[..|run| - 1], run[|run| - 1];
      && Atomic(slots, front)
      && (a.Disconnect? && Run(slots, front).Some? ==> !Run(slots, front).value.connect.Found?))
  }

  /** Nothing was overwritten, and nothing is about to be. */
  ghost predicate Undisturbed(s: State) {
    && s.lost == {}
    && (s.connect.Found? ==> !s.connect.disturbed)
    && (InHand(s.connect).Some? ==> s.connect.spare == s.connect.slot)
  }

  /** Every slot below the found one is in use, so the acquisition cannot take its client there. */
  lemma AcquireAtFound(s: State, canCreate: bool)
    requires ShapeOk(s) && Undisturbed(s) && s.connect.Found?
    ensures Undisturbed(DoAcquire(s, canCreate))
  {
    var slot := s.connect.slot;
    assert forall k :: 0 <= k < slot ==> !IsEmpty()(s.nodes[k]);
    assert s.nodes[slot].client.Some? ==> IsReusable()(s.nodes[slot]);
  }

  lemma AtomicStep(s: State, a: Action)
    requires ShapeOk(s) && Undisturbed(s) && Enabled(s, a)
    requires a.Disconnect? ==> !s.connect.Found?
    ensures Undisturbed(Apply(s, a))
  {
    if a.Acquire? {
      AcquireAtFound(s, a.canCreate);
    } else if a.SetClient? {
      assert s.nodes[s.connect.slot].client.None?;
    }
  }

  lemma {:induction false} AtomicRunsLoseNothing(slots: nat, run: seq<Action>)
    requires Run(slots, run).Some? && Atomic(slots, run)
    ensures Undisturbed(Run(slots, run).value)
    decreases |run|
  {
    if run != [] {
      var front := run[..|run| - 1];
      AtomicRunsLoseNothing(slots, front);
      RunKeepsShape(slots, front);
      AtomicStep(Run(slots, front).value, run[|run| - 1]);
    }
  }

  /**
   * With the search and the acquisition as one step, registration never overwrites a client, every
   * object has exactly one owner, and no more objects than slots are ever created.
   */
  lemma OwnershipWhenAtomic(slots: nat, run: seq<Action>, c: Client)
    requires Run(slots, run).Some? && Atomic(slots, run)
    ensures var s := Run(slots, run).value;
      && Owners(s, c) == (if c < s.created then 1 else 0)
      && s.created <= slots
      && (Enabled(s, SetClient) ==> s.nodes[s.connect.slot].client.None?)
  {
    AtomicRunsLoseNothing(slots, run);
    RunKeepsShape(slots, run);
    OneOwnerUnlessOverwritten(slots, Run(slots, run).value, c);
  }

  // ---------- A run that loses a client ----------

  lemma RunStep(slots: nat, run: seq<Action>, a: Action, s1: State) returns (longer: seq<Action>)
    requires Run(slots, run).Some? && Enabled(Run(slots, run).value, a)
    requires Apply(Run(slots, run).value, a) == s1
    ensures longer == run + [a] && Run(slots, longer) == Some(s1)
  {
    longer := run + [a];
    assert longer[..|longer| - 1] == run;
  }

  const BARE: Slot := Slot(None, false, 0, false)

  /** The first connect succeeds and takes slot 0. */
  lemma FirstConnect() returns (run: seq<Action>)
    ensures Run(2, run) == Some(State([Slot(Some(0), true, 10, true), BARE], 1, NotConnecting, {}))
  {
    assert Start(2).nodes == [BARE, BARE];
    run := RunStep(2, [], FindSlot, State([BARE, BARE], 0, Found(0, false), {}));
    run := RunStep(2, run, Acquire(true), State([BARE, BARE], 1, Acquired(0, 0, 0), {}));
    run := RunStep(2, run, Link(true), State([BARE, BARE], 1, Linked(0, 0, 0), {}));
    run := RunStep(2, run, Discover(true), State([BARE, BARE], 1, Subscribed(0, 0, 0), {}));
    run := RunStep(2, run, SetClient, State([Slot(Some(0), false, 0, false), BARE], 1, Claimed(0), {}));
    run := RunStep(2, run, Describe(10, true), State([Slot(Some(0), false, 10, true), BARE], 1, Described(0), {}));
    run := RunStep(2, run, SetUsed, State([Slot(Some(0), true, 10, true), BARE], 1, NotConnecting, {}));
  }

  lemma SecondIsEmpty(a: Slot, b: Slot)
    requires a.used && !b.used
    ensures FindEmptySlot([a, b]) == 1
  {
    var nodes, i := [a, b], FindEmptySlot([a, b]);
    assert !IsEmpty()(nodes[0]) && IsEmpty()(nodes[1]);
    assert i != 0 && i < 2;
  }

  /** The second connect fails and leaves its client in slot 1. */
  lemma SecondConnectFails() returns (run: seq<Action>)
    ensures var busy, kept := Slot(Some(0), true, 10, true), Slot(Some(1), false, 0, false);
      Run(2, run) == Some(State([busy, kept], 2, NotConnecting, {}))
  {
    var busy, kept := Slot(Some(0), true, 10, true), Slot(Some(1), false, 0, false);
    run := FirstConnect();
    SecondIsEmpty(busy, BARE);
    run := RunStep(2, run, FindSlot, State([busy, BARE], 1, Found(1, false), {}));
    run := RunStep(2, run, Acquire(true), State([busy, BARE], 2, Acquired(1, 1, 1), {}));
    run := RunStep(2, run, Link(false), State([busy, BARE], 2, Failing(1, 1, 1), {}));
    run := RunStep(2, run, PutBack, State([busy, kept], 2, NotConnecting, {}));
  }

  /**
   * A disconnect between the search and the acquisition: slot 1 is found, slot 0 is freed, its
   * client is taken, and registering it in slot 1 overwrites the client kept there.
   */
  lemma LostClientExample() returns (run: seq<Action>)
    ensures Run(2, run).Some?
    ensures Run(2, run).value.lost == {1} && Owners(Run(2, run).value, 1) == 0
  {
    var busy, kept := Slot(Some(0), true, 10, true), Slot(Some(1), false, 0, false);
    var freed, taken := Slot(Some(0), false, 10, false), Slot(None, false, 10, false);
    run := SecondConnectFails();
    SecondIsEmpty(busy, kept);
    run := RunStep(2, run, FindSlot, State([busy, kept], 2, Found(1, false), {}));
    run := RunStep(2, run, Disconnect(0), State([freed, kept], 2, Found(1, true), {}));
    run := RunStep(2, run, Acquire(true), State([taken, kept], 2, Acquired(1, 0, 0), {}));
    run := RunStep(2, run, Link(true), State([taken, kept], 2, Linked(1, 0, 0), {}));
    run := RunStep(2, run, Discover(true), State([taken, kept], 2, Subscribed(1, 0, 0), {}));
    run := RunStep(2, run, SetClient, State([taken, Slot(Some(0), false, 0, false)], 2, Claimed(1), {1}));
    RunKeepsOwners(2, run, 1);
  }
}
