/**
 * At most once: no channel, queue or table of the relay ever duplicates a command, an
 * acknowledgement or a log row.
 */
module EndToEndOnce {
  import opened Types
  import opened Packets
  import opened CommandLog
  import opened EndToEnd
  import opened EndToEndSafety
  import H = HubMachine
  import N = NodeState

  // ---------- Sums over sequences ----------

  function Sum<X>(xs: seq<X>, f: X -> nat): nat {
    if xs == [] then 0 else f(xs[0]) + Sum(xs[1..], f)
  }

  lemma {:induction false} SumConcat<X>(xs: seq<X>, ys: seq<X>, f: X -> nat)
    ensures Sum(xs + ys, f) == Sum(xs, f) + Sum(ys, f)
  {
    if xs == [] {
      assert xs + ys == ys;
    } else {
      assert (xs + ys)[1..] == xs[1..] + ys;
      SumConcat(xs[1..], ys, f);
    }
  }

  lemma SumAppend<X>(xs: seq<X>, x: X, f: X -> nat)
    ensures Sum(xs + [x], f) == Sum(xs, f) + f(x)
  {
    SumConcat(xs, [x], f);
    assert [x][1..] == [];
  }

  lemma SumWithout<X>(xs: seq<X>, i: nat, f: X -> nat)
    requires i < |xs|
    ensures Sum(xs, f) == Sum(Without(xs, i), f) + f(xs[i])
  {
    SumConcat(xs[..i], xs[i + 1..], f);
    SumConcat(xs[..i], xs[i..], f);
    assert xs == xs[..i] + xs[i..] && xs[i..][1..] == xs[i + 1..];
  }

  lemma SumUpdate<X>(xs: seq<X>, i: nat, x: X, f: X -> nat)
    requires i < |xs|
    ensures Sum(xs[i := x], f) == Sum(xs, f) - f(xs[i]) + f(x)
  {
    SumWithout(xs, i, f);
    SumWithout(xs[i := x], i, f);
    assert Without(xs[i := x], i) == Without(xs, i);
  }

  lemma {:induction false} SumZero<X>(xs: seq<X>, f: X -> nat)
    requires forall k :: 0 <= k < |xs| ==> f(xs[k]) == 0
    ensures Sum(xs, f) == 0
  {
    if xs != [] {
      SumZero(xs[1..], f);
    }
  }

  // ---------- Where a command can be ----------

  function TagIs(k: nat): Tagged -> nat { (t: Tagged) => if t.origin == k then 1 else 0 }

  function IdIs(k: nat): nat -> nat { (o: nat) => if o == k then 1 else 0 }

  function Carries(k: nat): Message -> nat { (m: Message) => Sum(m.cmds, TagIs(k)) }

  /** An unpublished request still holds its commands. */
  function Holds(k: nat): Send -> nat {
    (x: Send) => if !x.published && x.first <= k < x.first + x.count then 1 else 0
  }

  function AtHub(hub: Hub, k: nat): nat { Sum(hub.inbox, TagIs(k)) + Sum(hub.origins, IdIs(k)) }

  /** In requests not yet published, on the way down, and at its hub: waiting or dispatched. */
  function Copies(s: Net, k: nat): nat
    requires k < |s.issued|
  {
    var h := s.issued[k].hub;
    Sum(s.sends, Holds(k)) + Sum(s.down, Carries(k)) + if h in s.hubs then AtHub(s.hubs[h], k) else 0
  }

  /** The copies of command `k` that a step loses, or takes out of the relay. */
  ghost function Lost(c: Config, s: Net, a: Action, k: nat): nat
    requires Enabled(c, s, a)
  {
    match a
    case PublishFails(i) => Holds(k)(s.sends[i])
    case LoseDown(i) => Carries(k)(s.down[i])
    case HubCommand(h) => TagIs(k)(s.hubs[h].inbox[0])
    case RebootHub(h) => AtHub(s.hubs[h], k)
    case RestartServer => Sum(s.sends, Holds(k))
    case _ => 0
  }

  // ---------- Tags stay with their hub ----------

  lemma NoForeignTags(s: Net, h: HubId, ts: seq<Tagged>, k: nat)
    requires TagsOk(s, h, ts) && (k >= |s.issued| || s.issued[k].hub != h)
    ensures Sum(ts, TagIs(k)) == 0
  {
    forall j | 0 <= j < |ts|
      ensures TagIs(k)(ts[j]) == 0
    {
      assert TagOk(s, h, ts[j]);
    }
    SumZero(ts, TagIs(k));
  }

  lemma NothingOfTheUnissued(c: Config, s: Net, k: nat)
    requires FlowOk(c, s) && k >= |s.issued|
    ensures Sum(s.sends, Holds(k)) == 0 && Sum(s.down, Carries(k)) == 0
    ensures forall h :: h in s.hubs ==> AtHub(s.hubs[h], k) == 0
  {
    forall j | 0 <= j < |s.sends|
      ensures Holds(k)(s.sends[j]) == 0
    {
      assert SendOk(s, s.sends[j]);
    }
    SumZero(s.sends, Holds(k));
    forall j | 0 <= j < |s.down|
      ensures Carries(k)(s.down[j]) == 0
    {
      NoForeignTags(s, s.down[j].hub, s.down[j].cmds, k);
    }
    SumZero(s.down, Carries(k));
    forall h | h in s.hubs
      ensures AtHub(s.hubs[h], k) == 0
    {
      HubHasNothing(c, s, h, s.hubs[h], k);
    }
  }

  lemma HubHasNothing(c: Config, s: Net, h: HubId, hub: Hub, k: nat)
    requires HubOk(c, s, h, hub) && k >= |s.issued|
    ensures AtHub(hub, k) == 0
  {
    NoForeignTags(s, h, hub.inbox, k);
    forall j | 0 <= j < |hub.origins|
      ensures IdIs(k)(hub.origins[j]) == 0
    {
      assert TagOk(s, h, Tagged(hub.core.dispatched[j], hub.origins[j]));
    }
    SumZero(hub.origins, IdIs(k));
  }

  /** An envelope carries each command of its request once. */
  lemma {:induction false} EnvelopeCarries(ts: seq<Tagged>, first: nat, k: nat)
    requires forall j :: 0 <= j < |ts| ==> ts[j].origin == first + j
    ensures Sum(ts, TagIs(k)) == if first <= k < first + |ts| then 1 else 0
  {
    if ts != [] {
      assert forall j :: 0 <= j < |ts| - 1 ==> ts[1..][j] == ts[j + 1];
      EnvelopeCarries(ts[1..], first + 1, k);
    }
  }

  // ---------- Steps ----------

  lemma SubmitCopies(c: Config, s: Net, hub: HubId, rs: seq<Request>, k: nat)
    requires FlowOk(c, s) && k < |Apply(c, s, Submit(hub, rs)).issued|
    ensures Copies(Apply(c, s, Submit(hub, rs)), k) == if k < |s.issued| then Copies(s, k) else 1
  {
    var s1 := Apply(c, s, Submit(hub, rs));
    SumAppend(s.sends, s1.sends[|s.sends|], Holds(k));
    if k >= |s.issued| {
      NothingOfTheUnissued(c, s, k);
    }
  }

  lemma PublishCopies(c: Config, s: Net, i: nat, k: nat)
    requires Enabled(c, s, Publish(i)) && k < |s.issued|
    ensures Copies(Apply(c, s, Publish(i)), k) == Copies(s, k)
  {
    var x := s.sends[i];
    var m := Message(x.hub, Envelope(s.issued, x.first, x.count));
    SumUpdate(s.sends, i, x.(published := true), Holds(k));
    SumAppend(s.down, m, Carries(k));
    EnvelopeCarries(m.cmds, x.first, k);
  }

  lemma DeliverCopies(c: Config, s: Net, i: nat, k: nat)
    requires FlowOk(c, s) && Enabled(c, s, Deliver(i)) && k < |s.issued|
    ensures Copies(Apply(c, s, Deliver(i)), k) == Copies(s, k)
  {
    var m := s.down[i];
    SumWithout(s.down, i, Carries(k));
    if m.hub != s.issued[k].hub {
      NoForeignTags(s, m.hub, m.cmds, k);
    }
  }

  /** What a hub step does to the commands at the hub. */
  lemma StepHubCopies(c: Config, hub: Hub, step: H.Action, k: nat)
    requires H.Enabled(c.hub, hub.core, step) && (step.Dispatch? ==> hub.inbox != [])
    ensures AtHub(StepHub(c, hub, step), k) == AtHub(hub, k)
  {
    if step.Dispatch? {
      SumAppend(hub.origins, hub.inbox[0].origin, IdIs(k));
    }
  }

  lemma HubStepCopies(c: Config, s: Net, h: HubId, step: H.Action, radio: Radio, k: nat)
    requires Enabled(c, s, HubStep(h, step, radio)) && k < |s.issued|
    ensures Apply(c, s, HubStep(h, step, radio)).issued == s.issued
    ensures Copies(Apply(c, s, HubStep(h, step, radio)), k) == Copies(s, k)
  {
    StepHubCopies(c, s.hubs[h], step, k);
  }

  /** Hub commands and restarts of a hub other than the command's own do not concern it. */
  lemma HubLocalCopies(c: Config, s: Net, a: Action, k: nat)
    requires FlowOk(c, s) && Enabled(c, s, a) && k < |s.issued| && (a.HubCommand? || a.RebootHub?)
    ensures Copies(Apply(c, s, a), k) + Lost(c, s, a, k) == Copies(s, k)
  {
    if a.h != s.issued[k].hub {
      assert HubOk(c, s, a.h, s.hubs[a.h]);
      ForeignHubHasNothing(c, s, a.h, s.hubs[a.h], k);
    }
  }

  lemma ForeignHubHasNothing(c: Config, s: Net, h: HubId, hub: Hub, k: nat)
    requires HubOk(c, s, h, hub) && k < |s.issued| && s.issued[k].hub != h
    ensures AtHub(hub, k) == 0 && (hub.inbox != [] ==> TagIs(k)(hub.inbox[0]) == 0)
  {
    NoForeignTags(s, h, hub.inbox, k);
    forall j | 0 <= j < |hub.origins|
      ensures IdIs(k)(hub.origins[j]) == 0
    {
      assert TagOk(s, h, Tagged(hub.core.dispatched[j], hub.origins[j]));
    }
    SumZero(hub.origins, IdIs(k));
  }

  lemma ChannelCopies(c: Config, s: Net, a: Action, k: nat)
    requires Enabled(c, s, a) && k < |s.issued|
    requires a.PublishFails? || a.SaveRow? || a.LoseDown? || a.RestartServer?
    ensures Apply(c, s, a).issued == s.issued
    ensures Copies(Apply(c, s, a), k) + Lost(c, s, a, k) == Copies(s, k)
  {
    if a.PublishFails? {
      SumWithout(s.sends, a.i, Holds(k));
    } else if a.SaveRow? {
      SumUpdate(s.sends, a.i, s.sends[a.i].(saved := s.sends[a.i].saved + 1), Holds(k));
    } else if a.LoseDown? {
      SumWithout(s.down, a.i, Carries(k));
    }
  }

  lemma OtherCopies(c: Config, s: Net, a: Action, k: nat)
    requires Enabled(c, s, a) && k < |s.issued|
    requires a.NodeEvent? || a.DrainAck? || a.LoseUp? || a.ProcessAck?
    ensures Apply(c, s, a).issued == s.issued && Copies(Apply(c, s, a), k) == Copies(s, k)
  {
  }

  /** No step duplicates a command, and each loses exactly what it names. */
  lemma StepCopies(c: Config, s: Net, a: Action, k: nat)
    requires FlowOk(c, s) && Enabled(c, s, a) && k < |Apply(c, s, a).issued|
    ensures k >= |s.issued| ==> Copies(Apply(c, s, a), k) == 1 && Lost(c, s, a, k) == 0
    ensures k < |s.issued| ==> Copies(Apply(c, s, a), k) + Lost(c, s, a, k) == Copies(s, k)
  {
    if a.Submit? {
      SubmitCopies(c, s, a.hub, a.requests, k);
    } else {
      OnlySubmitIssues(c, s, a);
      if a.Publish? {
        PublishCopies(c, s, a.i, k);
      } else if a.Deliver? {
        DeliverCopies(c, s, a.i, k);
      } else if a.HubStep? {
        HubStepCopies(c, s, a.h, a.step, a.radio, k);
      } else if a.HubCommand? || a.RebootHub? {
        HubLocalCopies(c, s, a, k);
      } else if a.PublishFails? || a.SaveRow? || a.LoseDown? || a.RestartServer? {
        ChannelCopies(c, s, a, k);
      } else {
        OtherCopies(c, s, a, k);
      }
    }
  }

  lemma OnlySubmitIssues(c: Config, s: Net, a: Action)
    requires Enabled(c, s, a) && !a.Submit?
    ensures Apply(c, s, a).issued == s.issued
  {
  }

  // ---------- Rows ----------

  function RowIs(k: nat): LogRow -> nat { (r: LogRow) => if r.origin == k then 1 else 0 }

  /** A request whose row for command `k` is not saved yet. */
  function Unsaved(k: nat): Send -> nat {
    (x: Send) => if x.first + x.saved <= k < x.first + x.count then 1 else 0
  }

  function RowsFor(s: Net, k: nat): nat { Sum(s.rows, RowIs(k)) + Sum(s.sends, Unsaved(k)) }

  /** The rows that will never be saved because of a step. */
  ghost function RowsGivenUp(c: Config, s: Net, a: Action, k: nat): nat
    requires Enabled(c, s, a)
  {
    match a
    case PublishFails(i) => Unsaved(k)(s.sends[i])
    case RestartServer => Sum(s.sends, Unsaved(k))
    case _ => 0
  }

  lemma {:induction false} SettleKeepsOrigins(rows: seq<LogRow>, rows1: seq<LogRow>, k: nat)
    requires |rows| == |rows1| && forall r :: 0 <= r < |rows| ==> rows1[r].origin == rows[r].origin
    ensures Sum(rows1, RowIs(k)) == Sum(rows, RowIs(k))
  {
    if rows != [] {
      SettleKeepsOrigins(rows[1..], rows1[1..], k);
    }
  }

  lemma RowsOfTheUnissued(c: Config, s: Net, k: nat)
    requires SendsOk(s) && k >= |s.issued|
    requires forall r :: 0 <= r < |s.rows| ==> s.rows[r].origin < |s.issued|
    ensures RowsFor(s, k) == 0
  {
    forall j | 0 <= j < |s.sends|
      ensures Unsaved(k)(s.sends[j]) == 0
    {
      assert SendOk(s, s.sends[j]);
    }
    SumZero(s.sends, Unsaved(k));
    SumZero(s.rows, RowIs(k));
  }

  lemma RequestRows(c: Config, s: Net, a: Action, k: nat)
    requires SendsOk(s) && Enabled(c, s, a)
    requires forall r :: 0 <= r < |s.rows| ==> s.rows[r].origin < |s.issued|
    requires a.Submit? || a.Publish? || a.PublishFails? || a.SaveRow?
    ensures RowsFor(Apply(c, s, a), k) + RowsGivenUp(c, s, a, k)
      == RowsFor(s, k) + if |s.issued| <= k < |Apply(c, s, a).issued| then 1 else 0
  {
    var s1 := Apply(c, s, a);
    if a.Submit? {
      SumAppend(s.sends, s1.sends[|s.sends|], Unsaved(k));
    } else if a.Publish? {
      SumUpdate(s.sends, a.i, s.sends[a.i].(published := true), Unsaved(k));
    } else if a.PublishFails? {
      SumWithout(s.sends, a.i, Unsaved(k));
    } else {
      SumUpdate(s.sends, a.i, s.sends[a.i].(saved := s.sends[a.i].saved + 1), Unsaved(k));
      SumAppend(s.rows, s1.rows[|s.rows|], RowIs(k));
    }
  }

  lemma OtherRows(c: Config, s: Net, a: Action, k: nat)
    requires Enabled(c, s, a) && !a.Submit? && !a.Publish? && !a.PublishFails? && !a.SaveRow?
    ensures RowsFor(Apply(c, s, a), k) + RowsGivenUp(c, s, a, k) == RowsFor(s, k)
  {
    if a.ProcessAck? {
      SettleKeepsOrigins(s.rows, Apply(c, s, a).rows, k);
    }
  }

  /** No step duplicates or drops a saved row, and each gives up only the rows it names. */
  lemma StepRows(c: Config, s: Net, a: Action, k: nat)
    requires SendsOk(s) && Enabled(c, s, a)
    requires forall r :: 0 <= r < |s.rows| ==> s.rows[r].origin < |s.issued|
    ensures k >= |s.issued| ==> RowsFor(s, k) == 0
    ensures RowsFor(Apply(c, s, a), k) + RowsGivenUp(c, s, a, k)
      == RowsFor(s, k) + if |s.issued| <= k < |Apply(c, s, a).issued| then 1 else 0
  {
    if k >= |s.issued| {
      RowsOfTheUnissued(c, s, k);
    }
    if a.Submit? || a.Publish? || a.PublishFails? || a.SaveRow? {
      RequestRows(c, s, a, k);
    } else {
      OnlySubmitIssues(c, s, a);
      OtherRows(c, s, a, k);
    }
  }

  ghost predicate OriginsOk(s: Net) { forall r :: 0 <= r < |s.rows| ==> s.rows[r].origin < |s.issued| }

  lemma OriginsKept(c: Config, s: Net, a: Action)
    requires SendsOk(s) && OriginsOk(s) && Enabled(c, s, a)
    ensures OriginsOk(Apply(c, s, a))
  {
  }

  // ---------- Acknowledgements ----------

  function AckIs(e: nat): Ack -> nat { (a: Ack) => if a.exec == e then 1 else 0 }

  function UpIs(e: nat): UpMessage -> nat { (m: UpMessage) => if m.ack.exec == e then 1 else 0 }

  /** Acknowledgements of execution `e` at hub `h` and on the way up. */
  function AcksAt(s: Net, h: HubId, e: nat): nat {
    Sum(s.up, UpIs(e)) + if h in s.hubs then Sum(s.hubs[h].acks, AckIs(e)) else 0
  }

  /** The acknowledgements that a step loses or hands to the server. */
  ghost function AcksGone(c: Config, s: Net, a: Action, h: HubId, e: nat): nat
    requires Enabled(c, s, a)
  {
    match a
    case LoseUp(i) => UpIs(e)(s.up[i])
    case ProcessAck(i, _) => UpIs(e)(s.up[i])
    case DrainAck(g, published) => if g == h && !published then AckIs(e)(s.hubs[g].acks[0]) else 0
    case RebootHub(g) => if g == h then Sum(s.hubs[g].acks, AckIs(e)) else 0
    case _ => 0
  }

  /** A node answers the write, the hub hears it and has room for it. */
  ghost predicate NewAck(c: Config, s: Net, a: Action, h: HubId)
    requires Enabled(c, s, a)
  {
    && a.HubStep? && a.h == h && a.radio.received && a.radio.connected && a.radio.notified
    && |s.hubs[h].acks| < c.ackCap
    && var p := PacketFor(Attempted(s.hubs[h], a.step).value.cmd).value;
       p.TestCmd? || (p.SetInterval? && p.cmdId != 0)
  }

  ghost predicate AcksOnce(s: Net) { forall h, e: nat :: AcksAt(s, h, e) <= 1 }

  lemma AcksOfTheFuture(c: Config, s: Net, h: HubId, e: nat)
    requires FlowOk(c, s) && e >= |s.execs|
    ensures AcksAt(s, h, e) == 0
  {
    forall j | 0 <= j < |s.up|
      ensures UpIs(e)(s.up[j]) == 0
    {
      assert AckOk(s, s.up[j].hub, s.up[j].ack);
    }
    SumZero(s.up, UpIs(e));
    if h in s.hubs {
      assert HubOk(c, s, h, s.hubs[h]);
      forall j | 0 <= j < |s.hubs[h].acks|
        ensures AckIs(e)(s.hubs[h].acks[j]) == 0
      {
        assert AckOk(s, h, s.hubs[h].acks[j]);
      }
      SumZero(s.hubs[h].acks, AckIs(e));
    }
  }

  /** A received write adds its acknowledgement exactly when it is a new one. */
  lemma HubStepAcks(c: Config, s: Net, a: Action, g: HubId, e: nat)
    requires a.HubStep? && Enabled(c, s, a)
    ensures AcksAt(Apply(c, s, a), g, e) == AcksAt(s, g, e) + if e == |s.execs| && NewAck(c, s, a, g) then 1 else 0
  {
    var s1 := s.(hubs := s.hubs[a.h := StepHub(c, s.hubs[a.h], a.step)]);
    if a.radio.received {
      ReceiveAcks(c, s1, a.h, Attempted(s.hubs[a.h], a.step).value, a.radio, g, e);
    }
  }

  lemma ReceiveAcks(c: Config, s: Net, h: HubId, t: Tagged, radio: Radio, g: HubId, e: nat)
    requires PacketFor(t.cmd).Some? && t.cmd.target in s.nodes && h in s.hubs
    ensures var p := PacketFor(t.cmd).value;
      var answered := radio.connected && (p.TestCmd? || (p.SetInterval? && p.cmdId != 0));
      AcksAt(Receive(c, s, h, t, radio), g, e) == AcksAt(s, g, e) +
        if answered && radio.notified && |s.hubs[h].acks| < c.ackCap && g == h && e == |s.execs| then 1 else 0
  {
    WritesAreFaithful(t.cmd);
    ReactionOk(s.nodes[t.cmd.target], t.cmd, radio.connected);
    N.AnswersOnlyWhenConnected(s.nodes[t.cmd.target], Encode(PacketFor(t.cmd).value), radio.connected);
    if PacketFor(t.cmd).value.TestCmd? || PacketFor(t.cmd).value.SetInterval? {
      SumAppend(s.hubs[h].acks, Ack(PacketFor(t.cmd).value.cmdId, true, |s.execs|), AckIs(e));
    }
  }

  lemma DrainAcks(c: Config, s: Net, h: HubId, published: bool, e: nat)
    requires Enabled(c, s, DrainAck(h, published))
    ensures AcksAt(DoDrain(s, h, published), h, e) + AcksGone(c, s, DrainAck(h, published), h, e) == AcksAt(s, h, e)
  {
    SumAppend(s.up, UpMessage(h, s.hubs[h].acks[0]), UpIs(e));
  }

  /** The steps of one hub leave the acknowledgements at others alone. */
  lemma DrainElsewhere(c: Config, s: Net, h: HubId, published: bool, g: HubId, e: nat)
    requires FlowOk(c, s) && AcksOnce(s) && Enabled(c, s, DrainAck(h, published)) && g != h
    ensures AcksAt(DoDrain(s, h, published), g, e) <= 1
  {
    var ack := s.hubs[h].acks[0];
    SumAppend(s.up, UpMessage(h, ack), UpIs(e));
    assert AcksAt(s, h, e) <= 1 && AcksAt(s, g, e) <= 1;
    if ack.exec == e && g in s.hubs {
      OneHubOnly(c, s, h, g, e);
    }
  }

  /** All acknowledgements of an execution are at the hub of its command. */
  lemma OneHubOnly(c: Config, s: Net, h: HubId, g: HubId, e: nat)
    requires FlowOk(c, s) && h in s.hubs && g in s.hubs && g != h
    requires s.hubs[h].acks != [] && s.hubs[h].acks[0].exec == e
    ensures Sum(s.hubs[g].acks, AckIs(e)) == 0
  {
    assert HubOk(c, s, h, s.hubs[h]) && HubOk(c, s, g, s.hubs[g]);
    assert AckOk(s, h, s.hubs[h].acks[0]);
    forall j | 0 <= j < |s.hubs[g].acks|
      ensures AckIs(e)(s.hubs[g].acks[j]) == 0
    {
      assert AckOk(s, g, s.hubs[g].acks[j]);
    }
    SumZero(s.hubs[g].acks, AckIs(e));
  }

  lemma OtherAcks(c: Config, s: Net, a: Action, g: HubId, e: nat)
    requires Enabled(c, s, a) && !a.HubStep? && !a.DrainAck?
    ensures AcksAt(Apply(c, s, a), g, e) + AcksGone(c, s, a, g, e) == AcksAt(s, g, e)
  {
    if a.LoseUp? || a.ProcessAck? {
      SumWithout(s.up, a.i, UpIs(e));
    }
  }

  /**
   * No step makes, duplicates or loses an acknowledgement other than as named: a new one is that of
   * the write just acted on, and one goes only by a loss, a restart, or into the server's hands.
   */
  lemma StepAcks(c: Config, s: Net, a: Action, h: HubId, e: nat)
    requires Enabled(c, s, a) && (a.DrainAck? ==> a.h == h)
    ensures AcksAt(Apply(c, s, a), h, e) + AcksGone(c, s, a, h, e)
      == AcksAt(s, h, e) + if e == |s.execs| && NewAck(c, s, a, h) then 1 else 0
  {
    if a.HubStep? {
      HubStepAcks(c, s, a, h, e);
    } else if a.DrainAck? {
      DrainAcks(c, s, a.h, a.published, e);
    } else {
      OtherAcks(c, s, a, h, e);
    }
  }

  lemma AcksOnceKept(c: Config, s: Net, a: Action)
    requires FlowOk(c, s) && AcksOnce(s) && Enabled(c, s, a)
    ensures AcksOnce(Apply(c, s, a))
  {
    forall g, e: nat
      ensures AcksAt(Apply(c, s, a), g, e) <= 1
    {
      assert AcksAt(s, g, e) <= 1;
      AcksOfTheFuture(c, s, g, |s.execs|);
      if a.DrainAck? && a.h != g {
        DrainElsewhere(c, s, a.h, a.published, g, e);
      } else {
        StepAcks(c, s, a, g, e);
      }
    }
  }

  // ---------- Every run ----------

  /** The copies of command `k` that the steps of a run have lost. */
  ghost function LostInAll(c: Config, start: Net, run: seq<Action>, k: nat): nat
    requires Run(c, start, run).Some?
    decreases |run|
  {
    if run == [] then 0
    else
      var front := run[..|run| - 1];
      LostInAll(c, start, front, k) + Lost(c, Run(c, start, front).value, run[|run| - 1], k)
  }

  /** The rows of command `k` that the steps of a run have given up. */
  ghost function GivenUpInAll(c: Config, start: Net, run: seq<Action>, k: nat): nat
    requires Run(c, start, run).Some?
    decreases |run|
  {
    if run == [] then 0
    else
      var front := run[..|run| - 1];
      GivenUpInAll(c, start, front, k) + RowsGivenUp(c, Run(c, start, front).value, run[|run| - 1], k)
  }

  lemma NoneLostBefore(c: Config, s: Net, a: Action, k: nat)
    requires FlowOk(c, s) && Enabled(c, s, a) && k >= |s.issued|
    ensures Lost(c, s, a, k) == 0 && (OriginsOk(s) ==> RowsGivenUp(c, s, a, k) == 0)
  {
    NothingOfTheUnissued(c, s, k);
    if OriginsOk(s) {
      RowsOfTheUnissued(c, s, k);
    }
    if a.PublishFails? {
      SumWithout(s.sends, a.i, Holds(k));
      SumWithout(s.sends, a.i, Unsaved(k));
    } else if a.LoseDown? {
      SumWithout(s.down, a.i, Carries(k));
    }
  }

  /**
   * Every issued command is accounted for in every run: it is in exactly one place (an unpublished
   * request, a message on its way, its hub's inbox or its hub's dispatches since the last restart),
   * or exactly one step has lost it or taken it out. The same holds of its log row.
   */
  lemma {:induction false} EveryCommandAccountedFor(
    c: Config, hubs: set<HubId>, nodes: map<NodeId, N.Node>, run: seq<Action>, k: nat)
    requires H.Sane(c.hub) && Run(c, Start(c, hubs, nodes), run).Some?
    ensures var start := Start(c, hubs, nodes);
      var s := Run(c, start, run).value;
      && OriginsOk(s)
      && (if k < |s.issued|
          then
            && Copies(s, k) + LostInAll(c, start, run, k) == 1
            && RowsFor(s, k) + GivenUpInAll(c, start, run, k) == 1
          else LostInAll(c, start, run, k) == 0 && GivenUpInAll(c, start, run, k) == 0)
    decreases |run|
  {
    if run != [] {
      var front, a := run[..|run| - 1], run[|run| - 1];
      var s := Run(c, Start(c, hubs, nodes), front).value;
      RunKeepsFlow(c, hubs, nodes, front);
      EveryCommandAccountedFor(c, hubs, nodes, front, k);
      OriginsKept(c, s, a);
      if k >= |s.issued| {
        NoneLostBefore(c, s, a, k);
      }
      if k < |Apply(c, s, a).issued| {
        StepCopies(c, s, a, k);
      }
      IssuedGrows(c, s, a);
      StepRows(c, s, a, k);
    }
  }

  lemma IssuedGrows(c: Config, s: Net, a: Action)
    requires Enabled(c, s, a)
    ensures s.issued <= Apply(c, s, a).issued
  {
    if !a.Submit? {
      OnlySubmitIssues(c, s, a);
    }
  }

  lemma {:induction false} RunKeepsAcks(c: Config, hubs: set<HubId>, nodes: map<NodeId, N.Node>, run: seq<Action>)
    requires H.Sane(c.hub) && Run(c, Start(c, hubs, nodes), run).Some?
    ensures AcksOnce(Run(c, Start(c, hubs, nodes), run).value)
    decreases |run|
  {
    if run != [] {
      var front := run[..|run| - 1];
      RunKeepsFlow(c, hubs, nodes, front);
      RunKeepsAcks(c, hubs, nodes, front);
      AcksOnceKept(c, Run(c, Start(c, hubs, nodes), front).value, run[|run| - 1]);
    }
  }

  lemma {:induction false} AtMostOnce<X>(xs: seq<X>, f: X -> nat, i: nat, j: nat)
    requires i < j < |xs| && f(xs[i]) > 0 && f(xs[j]) > 0
    ensures Sum(xs, f) > 1
  {
    SumWithout(xs, j, f);
    SumWithout(Without(xs, j), i, f);
  }

  /**
   * In every run: no hub dispatches an issued command twice between restarts; no command has two log
   * rows; and no execution has two acknowledgements, at its hub or on their way up.
   */
  lemma NothingTwice(
    c: Config, hubs: set<HubId>, nodes: map<NodeId, N.Node>, run: seq<Action>, h: HubId, i: nat, j: nat)
    requires H.Sane(c.hub) && Run(c, Start(c, hubs, nodes), run).Some? && i < j
    ensures var s := Run(c, Start(c, hubs, nodes), run).value;
      && (h in s.hubs && j < |s.hubs[h].origins| ==> s.hubs[h].origins[i] != s.hubs[h].origins[j])
      && (j < |s.rows| ==> s.rows[i].origin != s.rows[j].origin)
      && (j < |s.up| ==> s.up[i].ack.exec != s.up[j].ack.exec)
      && (h in s.hubs && j < |s.hubs[h].acks| ==> s.hubs[h].acks[i].exec != s.hubs[h].acks[j].exec)
  {
    var s := Run(c, Start(c, hubs, nodes), run).value;
    RunKeepsFlow(c, hubs, nodes, run);
    RunKeepsAcks(c, hubs, nodes, run);
    if h in s.hubs && j < |s.hubs[h].origins| && s.hubs[h].origins[i] == s.hubs[h].origins[j] {
      var k := s.hubs[h].origins[i];
      assert HubOk(c, s, h, s.hubs[h]) && TagOk(s, h, Tagged(s.hubs[h].core.dispatched[i], k));
      EveryCommandAccountedFor(c, hubs, nodes, run, k);
      AtMostOnce(s.hubs[h].origins, IdIs(k), i, j);
    }
    if j < |s.rows| && s.rows[i].origin == s.rows[j].origin {
      EveryCommandAccountedFor(c, hubs, nodes, run, s.rows[i].origin);
      AtMostOnce(s.rows, RowIs(s.rows[i].origin), i, j);
    }
    if j < |s.up| && s.up[i].ack.exec == s.up[j].ack.exec {
      assert AcksAt(s, h, s.up[i].ack.exec) <= 1;
      AtMostOnce(s.up, UpIs(s.up[i].ack.exec), i, j);
    }
    if h in s.hubs && j < |s.hubs[h].acks| && s.hubs[h].acks[i].exec == s.hubs[h].acks[j].exec {
      assert AcksAt(s, h, s.hubs[h].acks[i].exec) <= 1;
      AtMostOnce(s.hubs[h].acks, AckIs(s.hubs[h].acks[i].exec), i, j);
    }
  }
}
