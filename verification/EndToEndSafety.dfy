/** What a settled log row proves about the node, over every run of the relay. */
module EndToEndSafety {
  import opened Types
  import opened Packets
  import opened CommandLog
  import opened EndToEnd
  import H = HubMachine
  import I = HubInvariant
  import N = NodeState

  // ---------- Provenance ----------

  ghost predicate TagOk(s: Net, h: HubId, t: Tagged) {
    && t.origin < |s.issued|
    && s.issued[t.origin].hub == h
    && t.cmd == OnWire(s.issued[t.origin].request)
  }

  ghost predicate TagsOk(s: Net, h: HubId, ts: seq<Tagged>) {
    forall k :: 0 <= k < |ts| ==> TagOk(s, h, ts[k])
  }

  /** Packets that a node answers. */
  predicate Answers(p: Packet) { p.SetInterval? || p.TestCmd? }

  /** The node acted on exactly the packet of the command it goes back to. */
  ghost predicate ExecOk(s: Net, e: Exec) {
    && e.origin < |s.issued|
    && e.node == s.issued[e.origin].request.target != HubItself
    && PacketFor(OnWire(s.issued[e.origin].request)) == Some(e.packet)
    && (e.packet.SetInterval? ==> e.interval == N.Clamp(e.packet.sec))
  }

  /** An acknowledgement on its way through hub `h`. */
  ghost predicate AckOk(s: Net, h: HubId, a: Ack) {
    && a.success
    && a.exec < |s.execs|
    && s.execs[a.exec].origin < |s.issued| && s.issued[s.execs[a.exec].origin].hub == h
    && Answers(s.execs[a.exec].packet)
    && s.execs[a.exec].packet.cmdId == a.id
  }

  ghost predicate CoreOk(c: Config, s: Net, h: HubId, hub: Hub) {
    && I.StructureOk(c.hub, hub.core)
    && |hub.origins| == |hub.core.dispatched|
    && forall k :: 0 <= k < |hub.origins| ==> TagOk(s, h, Tagged(hub.core.dispatched[k], hub.origins[k]))
  }

  ghost predicate HubOk(c: Config, s: Net, h: HubId, hub: Hub) {
    && CoreOk(c, s, h, hub)
    && TagsOk(s, h, hub.inbox)
    && forall k :: 0 <= k < |hub.acks| ==> AckOk(s, h, hub.acks[k])
  }

  ghost predicate SendOk(s: Net, x: Send) {
    && x.first + x.count <= |s.issued|
    && forall k :: x.first <= k < x.first + x.count ==> s.issued[k].hub == x.hub
  }

  /** A successful row names an execution of its own command that the node answers. */
  ghost predicate RowOk(s: Net, r: LogRow) {
    && r.origin < |s.issued|
    && r.row.request == s.issued[r.origin].request
    && r.row.hub == s.issued[r.origin].hub
    && r.row.status != Fail
    && (r.row.status == Success ==>
          && r.proof.Some? && r.proof.value < |s.execs|
          && s.execs[r.proof.value].origin == r.origin
          && Answers(s.execs[r.proof.value].packet)
          && s.execs[r.proof.value].packet.cmdId == r.row.request.cmdId)
  }

  ghost predicate SendsOk(s: Net) { forall k :: 0 <= k < |s.sends| ==> SendOk(s, s.sends[k]) }

  ghost predicate DownOk(s: Net) { forall k :: 0 <= k < |s.down| ==> TagsOk(s, s.down[k].hub, s.down[k].cmds) }

  ghost predicate HubsOk(c: Config, s: Net) { forall h :: h in s.hubs ==> HubOk(c, s, h, s.hubs[h]) }

  ghost predicate ExecsOk(s: Net) { forall k :: 0 <= k < |s.execs| ==> ExecOk(s, s.execs[k]) }

  ghost predicate UpOk(s: Net) { forall k :: 0 <= k < |s.up| ==> AckOk(s, s.up[k].hub, s.up[k].ack) }

  ghost predicate RowsOk(s: Net) { forall k :: 0 <= k < |s.rows| ==> RowOk(s, s.rows[k]) }

  /** Everything except the rows, which need the ids to be unambiguous. */
  ghost predicate FlowOk(c: Config, s: Net) {
    SendsOk(s) && DownOk(s) && HubsOk(c, s) && ExecsOk(s) && UpOk(s)
  }

  /** The commands that a node acknowledges, as a caller can tell. */
  predicate Answerable(r: Request) {
    && r.target != HubItself
    && (r.kind == TestKind || (r.kind == SetIntervalKind && !r.payload.Malformed?))
  }

  /** No command has the id that another one, for the same hub, is acknowledged by. */
  ghost predicate Unambiguous(issued: seq<Issued>) {
    forall i, j :: 0 <= i < |issued| && 0 <= j < |issued| && Confused(issued[i], issued[j]) ==> i == j
  }

  predicate Confused(a: Issued, b: Issued) {
    a.hub == b.hub && Answerable(a.request) && b.request.cmdId == WireId(a.request.cmdId)
  }

  // ---------- Histories only grow ----------

  ghost predicate Grows(s: Net, s1: Net) { s.issued <= s1.issued && s.execs <= s1.execs }

  lemma PrefixAt<T>(a: seq<T>, b: seq<T>, k: nat)
    requires a <= b && k < |a|
    ensures a[k] == b[k]
  {
  }

  lemma TagsGrow(s: Net, s1: Net, h: HubId, ts: seq<Tagged>)
    requires Grows(s, s1) && TagsOk(s, h, ts)
    ensures TagsOk(s1, h, ts)
  {
    forall k | 0 <= k < |ts|
      ensures TagOk(s1, h, ts[k])
    {
      assert TagOk(s, h, ts[k]);
    }
  }

  lemma AckGrows(s: Net, s1: Net, h: HubId, a: Ack)
    requires Grows(s, s1) && AckOk(s, h, a)
    ensures AckOk(s1, h, a)
  {
    PrefixAt(s.execs, s1.execs, a.exec);
  }

  lemma HubGrows(c: Config, s: Net, s1: Net, h: HubId, hub: Hub)
    requires Grows(s, s1) && HubOk(c, s, h, hub)
    ensures HubOk(c, s1, h, hub)
  {
    TagsGrow(s, s1, h, hub.inbox);
    forall k | 0 <= k < |hub.origins|
      ensures TagOk(s1, h, Tagged(hub.core.dispatched[k], hub.origins[k]))
    {
      assert TagOk(s, h, Tagged(hub.core.dispatched[k], hub.origins[k]));
    }
    forall k | 0 <= k < |hub.acks|
      ensures AckOk(s1, h, hub.acks[k])
    {
      AckGrows(s, s1, h, hub.acks[k]);
    }
  }

  lemma RowGrows(s: Net, s1: Net, r: LogRow)
    requires Grows(s, s1) && RowOk(s, r)
    ensures RowOk(s1, r)
  {
    if r.row.status == Success {
      PrefixAt(s.execs, s1.execs, r.proof.value);
    }
  }

  /** A step keeps whatever part of the flow it does not touch. */
  lemma FlowGrows(c: Config, s: Net, s1: Net)
    requires FlowOk(c, s) && Grows(s, s1)
    ensures s1.sends == s.sends ==> SendsOk(s1)
    ensures s1.down == s.down ==> DownOk(s1)
    ensures s1.execs == s.execs ==> ExecsOk(s1)
    ensures s1.up == s.up ==> UpOk(s1)
    ensures forall h :: h in s.hubs && h in s1.hubs && s1.hubs[h] == s.hubs[h] ==> HubOk(c, s1, h, s1.hubs[h])
  {
    forall k | 0 <= k < |s.sends|
      ensures SendOk(s1, s.sends[k])
    {
      assert SendOk(s, s.sends[k]);
    }
    forall k | 0 <= k < |s.down|
      ensures TagsOk(s1, s.down[k].hub, s.down[k].cmds)
    {
      TagsGrow(s, s1, s.down[k].hub, s.down[k].cmds);
    }
    forall k | 0 <= k < |s.execs|
      ensures ExecOk(s1, s.execs[k])
    {
      assert ExecOk(s, s.execs[k]);
    }
    forall k | 0 <= k < |s.up|
      ensures AckOk(s1, s.up[k].hub, s.up[k].ack)
    {
      AckGrows(s, s1, s.up[k].hub, s.up[k].ack);
    }
    forall h | h in s.hubs
      ensures HubOk(c, s1, h, s.hubs[h])
    {
      HubGrows(c, s, s1, h, s.hubs[h]);
    }
  }

  lemma RowsGrow(s: Net, s1: Net)
    requires RowsOk(s) && Grows(s, s1) && s1.rows == s.rows
    ensures RowsOk(s1)
  {
    forall k | 0 <= k < |s.rows|
      ensures RowOk(s1, s.rows[k])
    {
      RowGrows(s, s1, s.rows[k]);
    }
  }

  // ---------- Steps: the server's side ----------

  lemma SubmitFlow(c: Config, s: Net, hub: HubId, rs: seq<Request>)
    requires FlowOk(c, s)
    ensures FlowOk(c, Apply(c, s, Submit(hub, rs))) && Grows(s, Apply(c, s, Submit(hub, rs)))
  {
    var s1 := Apply(c, s, Submit(hub, rs));
    FlowGrows(c, s, s1);
    forall k | 0 <= k < |s1.sends|
      ensures SendOk(s1, s1.sends[k])
    {
      if k < |s.sends| {
        assert SendOk(s, s.sends[k]);
      }
    }
  }

  lemma PublishFlow(c: Config, s: Net, i: nat)
    requires FlowOk(c, s) && Enabled(c, s, Publish(i))
    ensures FlowOk(c, Apply(c, s, Publish(i))) && Grows(s, Apply(c, s, Publish(i)))
  {
    var s1, x := Apply(c, s, Publish(i)), s.sends[i];
    FlowGrows(c, s, s1);
    assert SendOk(s, x);
    forall k | 0 <= k < |s1.sends|
      ensures SendOk(s1, s1.sends[k])
    {
      assert SendOk(s, s.sends[k]);
    }
    var m := Envelope(s.issued, x.first, x.count);
    assert TagsOk(s1, x.hub, m);
    forall k | 0 <= k < |s1.down|
      ensures TagsOk(s1, s1.down[k].hub, s1.down[k].cmds)
    {
      if k < |s.down| {
        assert TagsOk(s, s.down[k].hub, s.down[k].cmds);
      }
    }
  }

  /** Steps that take an element out of a channel or a list, or advance a send. */
  lemma RequestFlow(c: Config, s: Net, a: Action)
    requires FlowOk(c, s) && Enabled(c, s, a)
    requires a.PublishFails? || a.SaveRow?
    ensures FlowOk(c, Apply(c, s, a)) && Grows(s, Apply(c, s, a))
  {
    var s1 := Apply(c, s, a);
    FlowGrows(c, s, s1);
    forall k | 0 <= k < |s1.sends|
      ensures SendOk(s1, s1.sends[k])
    {
      assert SendOk(s, s.sends[if a.SaveRow? || k < a.i then k else k + 1]);
    }
  }

  lemma ChannelFlow(c: Config, s: Net, a: Action)
    requires FlowOk(c, s) && Enabled(c, s, a)
    requires a.LoseDown? || a.NodeEvent? || a.RestartServer?
    ensures FlowOk(c, Apply(c, s, a)) && Grows(s, Apply(c, s, a))
  {
    var s1 := Apply(c, s, a);
    FlowGrows(c, s, s1);
    if a.LoseDown? {
      forall k | 0 <= k < |s1.down|
        ensures TagsOk(s1, s1.down[k].hub, s1.down[k].cmds)
      {
        var m := s.down[if k < a.i then k else k + 1];
        assert TagsOk(s, m.hub, m.cmds);
      }
    }
  }

  lemma UpFlow(c: Config, s: Net, a: Action)
    requires FlowOk(c, s) && Enabled(c, s, a) && (a.LoseUp? || a.ProcessAck?)
    ensures FlowOk(c, Apply(c, s, a)) && Grows(s, Apply(c, s, a))
  {
    var s1 := Apply(c, s, a);
    FlowGrows(c, s, s1);
    forall k | 0 <= k < |s1.up|
      ensures AckOk(s1, s1.up[k].hub, s1.up[k].ack)
    {
      var m := s.up[if k < a.i then k else k + 1];
      assert AckOk(s, m.hub, m.ack);
    }
  }

  // ---------- Steps: the hub's side ----------

  /** Replacing one hub by a well-formed one, with channels as the given step leaves them. */
  lemma HubWritten(c: Config, s: Net, s1: Net, h: HubId, hub: Hub)
    requires FlowOk(c, s) && s1.hubs == s.hubs[h := hub] && HubOk(c, s, h, hub)
    requires s1.issued == s.issued && s1.execs == s.execs && s1.sends == s.sends
    requires DownOk(s1) && UpOk(s1)
    ensures FlowOk(c, s1) && Grows(s, s1)
  {
    FlowGrows(c, s, s1);
    HubGrows(c, s, s1, h, hub);
    assert forall k :: k in s1.hubs ==> HubOk(c, s1, k, s1.hubs[k]);
  }

  lemma DeliverFlow(c: Config, s: Net, i: nat)
    requires FlowOk(c, s) && Enabled(c, s, Deliver(i))
    ensures FlowOk(c, Apply(c, s, Deliver(i))) && Grows(s, Apply(c, s, Deliver(i)))
  {
    var s1, m := Apply(c, s, Deliver(i)), s.down[i];
    assert HubOk(c, s, m.hub, s.hubs[m.hub]) && TagsOk(s, m.hub, m.cmds);
    forall k | 0 <= k < |s1.down|
      ensures TagsOk(s1, s1.down[k].hub, s1.down[k].cmds)
    {
      var d := s.down[if k < i then k else k + 1];
      assert TagsOk(s, d.hub, d.cmds);
      TagsGrow(s, s1, d.hub, d.cmds);
    }
    FlowGrows(c, s, s1);
    HubWritten(c, s, s1, m.hub, s.hubs[m.hub].(inbox := m.cmds));
  }

  lemma DrainFlow(c: Config, s: Net, h: HubId, published: bool)
    requires FlowOk(c, s) && Enabled(c, s, DrainAck(h, published))
    ensures FlowOk(c, DoDrain(s, h, published)) && Grows(s, DoDrain(s, h, published))
  {
    var s1, hub := DoDrain(s, h, published), s.hubs[h];
    assert HubOk(c, s, h, hub);
    assert AckOk(s, h, hub.acks[0]);
    FlowGrows(c, s, s1);
    forall k | 0 <= k < |s1.up|
      ensures AckOk(s1, s1.up[k].hub, s1.up[k].ack)
    {
      if k < |s.up| {
        assert AckOk(s, s.up[k].hub, s.up[k].ack);
      }
    }
    HubWritten(c, s, s1, h, hub.(acks := hub.acks[1..]));
  }

  lemma LocalFlow(c: Config, s: Net, a: Action)
    requires H.Sane(c.hub) && FlowOk(c, s) && Enabled(c, s, a) && (a.HubCommand? || a.RebootHub?)
    ensures FlowOk(c, Apply(c, s, a)) && Grows(s, Apply(c, s, a))
  {
    var s1, hub := Apply(c, s, a), s.hubs[a.h];
    assert HubOk(c, s, a.h, hub);
    I.BootOk(c.hub);
    FlowGrows(c, s, s1);
    HubWritten(c, s, s1, a.h, s1.hubs[a.h]);
  }

  /** A hub's own step only ever dispatches what came in, under the same provenance. */
  lemma StepHubOk(c: Config, s: Net, h: HubId, hub: Hub, step: H.Action)
    requires H.Sane(c.hub) && HubOk(c, s, h, hub) && H.Enabled(c.hub, hub.core, step)
    requires step.Dispatch? ==> hub.inbox != [] && step.cmd == hub.inbox[0].cmd
    ensures HubOk(c, s, h, StepHub(c, hub, step))
  {
    I.StructureKept(c.hub, hub.core, step);
    var hub1 := StepHub(c, hub, step);
    assert hub1.core.dispatched == hub.core.dispatched + if step.Dispatch? then [step.cmd] else [];
    forall k | 0 <= k < |hub1.origins|
      ensures TagOk(s, h, Tagged(hub1.core.dispatched[k], hub1.origins[k]))
    {
      if k < |hub.origins| {
        assert TagOk(s, h, Tagged(hub.core.dispatched[k], hub.origins[k]));
      } else {
        assert TagOk(s, h, hub.inbox[0]);
      }
    }
  }

  /** Whatever a hub writes goes back to a command issued for that hub and a node. */
  lemma AttemptedOk(c: Config, s: Net, h: HubId, hub: Hub, step: H.Action)
    requires HubOk(c, s, h, hub) && H.Enabled(c.hub, hub.core, step) && Attempted(hub, step).Some?
    requires step.Dispatch? ==> step.cmd == hub.inbox[0].cmd
    ensures TagOk(s, h, Attempted(hub, step).value)
    ensures PacketFor(Attempted(hub, step).value.cmd).Some?
    ensures Attempted(hub, step).value.cmd.target != HubItself
  {
    if step.SendHeld? {
      I.HeldForANode(c.hub, hub.core);
      var serial := hub.core.loop.item.serial;
      assert TagOk(s, h, Tagged(hub.core.dispatched[serial], hub.origins[serial]));
    } else {
      assert TagOk(s, h, hub.inbox[0]);
    }
  }

  /** What a node does with a faithful write: the execution and the acknowledgement it can send. */
  lemma ReactionOk(n: N.Node, cmd: Command, connected: bool)
    requires PacketFor(cmd).Some?
    ensures var p := PacketFor(cmd).value;
      var r := N.OnWrite(n, Encode(p), connected);
      && Decode(Encode(p)) == Some(p)
      && (p.SetInterval? ==> r.node.interval == N.Clamp(p.sec))
      && (r.ack.Some? ==> Answers(p) && Decode(r.ack.value) == Some(CmdAck(p.cmdId, 1)))
  {
    var p := PacketFor(cmd).value;
    WritesAreFaithful(cmd);
    var ack := CmdAck(p.cmdId, 1);
    DecodeInvertsEncode(ack, []);
    assert Encode(ack) + [] == Encode(ack);
  }

  lemma ReceiveFlow(c: Config, s: Net, h: HubId, t: Tagged, radio: Radio)
    requires FlowOk(c, s) && h in s.hubs && TagOk(s, h, t)
    requires PacketFor(t.cmd).Some? && t.cmd.target in s.nodes && t.cmd.target != HubItself
    ensures FlowOk(c, Receive(c, s, h, t, radio)) && Grows(s, Receive(c, s, h, t, radio))
    ensures Receive(c, s, h, t, radio).rows == s.rows
  {
    var p := PacketFor(t.cmd).value;
    var n := s.nodes[t.cmd.target];
    ReactionOk(n, t.cmd, radio.connected);
    var r := N.OnWrite(n, Encode(p), radio.connected);
    var e := Exec(t.cmd.target, p, r.node.interval, t.origin);
    var s1 := s.(nodes := s.nodes[t.cmd.target := r.node], execs := s.execs + [e]);
    FlowGrows(c, s, s1);
    forall k | 0 <= k < |s1.execs|
      ensures ExecOk(s1, s1.execs[k])
    {
      if k < |s.execs| {
        assert ExecOk(s, s.execs[k]);
      }
    }
    assert FlowOk(c, s1);
    if r.ack.Some? && radio.notified {
      assert HubOk(c, s1, h, s1.hubs[h]);
      var hub := Enqueue(c, s1.hubs[h], r.ack.value, |s.execs|);
      assert AckOk(s1, h, Ack(p.cmdId, true, |s.execs|));
      assert HubOk(c, s1, h, hub);
      HubWritten(c, s1, s1.(hubs := s1.hubs[h := hub]), h, hub);
    }
  }

  lemma HubStepFlow(c: Config, s: Net, h: HubId, step: H.Action, radio: Radio)
    requires H.Sane(c.hub) && FlowOk(c, s) && Enabled(c, s, HubStep(h, step, radio))
    ensures FlowOk(c, Apply(c, s, HubStep(h, step, radio))) && Grows(s, Apply(c, s, HubStep(h, step, radio)))
    ensures Apply(c, s, HubStep(h, step, radio)).rows == s.rows
  {
    var hub := s.hubs[h];
    assert HubOk(c, s, h, hub);
    StepHubOk(c, s, h, hub, step);
    var s1 := s.(hubs := s.hubs[h := StepHub(c, hub, step)]);
    FlowGrows(c, s, s1);
    HubWritten(c, s, s1, h, StepHub(c, hub, step));
    if radio.received {
      AttemptedOk(c, s, h, hub, step);
      ReceiveFlow(c, s1, h, Attempted(hub, step).value, radio);
    }
  }

  lemma FlowKept(c: Config, s: Net, a: Action)
    requires H.Sane(c.hub) && FlowOk(c, s) && Enabled(c, s, a)
    ensures FlowOk(c, Apply(c, s, a)) && Grows(s, Apply(c, s, a))
  {
    if a.HubStep? {
      HubStepFlow(c, s, a.h, a.step, a.radio);
    } else if a.Submit? {
      SubmitFlow(c, s, a.hub, a.requests);
    } else if a.Publish? {
      PublishFlow(c, s, a.i);
    } else if a.Deliver? {
      DeliverFlow(c, s, a.i);
    } else if a.DrainAck? {
      DrainFlow(c, s, a.h, a.published);
    } else if a.HubCommand? || a.RebootHub? {
      LocalFlow(c, s, a);
    } else if a.PublishFails? || a.SaveRow? {
      RequestFlow(c, s, a);
    } else if a.LoseUp? || a.ProcessAck? {
      UpFlow(c, s, a);
    } else {
      ChannelFlow(c, s, a);
    }
  }

  // ---------- Steps: the rows ----------

  /** With unambiguous ids, an acknowledgement can only match the row of its own command. */
  lemma AckFindsItsRow(c: Config, s: Net, h: HubId, a: Ack, r: LogRow)
    requires FlowOk(c, s) && Unambiguous(s.issued) && AckOk(s, h, a) && RowOk(s, r) && Matches(r.row, h, a.id)
    ensures s.execs[a.exec].origin == r.origin
  {
    var e := s.execs[a.exec];
    assert ExecOk(s, e);
    WritesAreFaithful(OnWire(s.issued[e.origin].request));
    assert Confused(s.issued[e.origin], s.issued[r.origin]);
  }

  lemma ProcessAckRows(c: Config, s: Net, i: nat, now: nat)
    requires FlowOk(c, s) && RowsOk(s) && Unambiguous(s.issued) && Enabled(c, s, ProcessAck(i, now))
    ensures RowsOk(Apply(c, s, ProcessAck(i, now)))
  {
    var s1, m := Apply(c, s, ProcessAck(i, now)), s.up[i];
    assert AckOk(s, m.hub, m.ack);
    forall k | 0 <= k < |s1.rows|
      ensures RowOk(s1, s1.rows[k])
    {
      assert RowOk(s, s.rows[k]);
      if Matches(s.rows[k].row, m.hub, m.ack.id) {
        AckFindsItsRow(c, s, m.hub, m.ack, s.rows[k]);
      }
    }
  }

  lemma SaveRowRows(c: Config, s: Net, i: nat)
    requires FlowOk(c, s) && RowsOk(s) && Enabled(c, s, SaveRow(i))
    ensures RowsOk(DoSaveRow(s, i))
  {
    var s1 := DoSaveRow(s, i);
    assert SendOk(s, s.sends[i]);
    forall k | 0 <= k < |s1.rows|
      ensures RowOk(s1, s1.rows[k])
    {
      if k < |s.rows| {
        assert RowOk(s, s.rows[k]);
      }
    }
  }

  lemma RowsKept(c: Config, s: Net, a: Action)
    requires H.Sane(c.hub) && FlowOk(c, s) && RowsOk(s) && Unambiguous(s.issued) && Enabled(c, s, a)
    ensures RowsOk(Apply(c, s, a))
  {
    FlowKept(c, s, a);
    match a
    case ProcessAck(i, now) => ProcessAckRows(c, s, i, now);
    case SaveRow(i) => SaveRowRows(c, s, i);
    case HubStep(h, step, radio) =>
      HubStepFlow(c, s, h, step, radio);
      RowsGrow(s, Apply(c, s, a));
    case _ => RowsGrow(s, Apply(c, s, a));
  }

  // ---------- Every run ----------

  lemma {:induction false} RunKeepsFlow(c: Config, hubs: set<HubId>, nodes: map<NodeId, N.Node>, run: seq<Action>)
    requires H.Sane(c.hub) && Run(c, Start(c, hubs, nodes), run).Some?
    ensures FlowOk(c, Run(c, Start(c, hubs, nodes), run).value)
    decreases |run|
  {
    if run == [] {
      I.BootOk(c.hub);
    } else {
      RunKeepsFlow(c, hubs, nodes, run[..|run| - 1]);
      FlowKept(c, Run(c, Start(c, hubs, nodes), run[..|run| - 1]).value, run[|run| - 1]);
    }
  }

  lemma {:induction false} RunKeepsRows(c: Config, hubs: set<HubId>, nodes: map<NodeId, N.Node>, run: seq<Action>)
    requires H.Sane(c.hub) && Run(c, Start(c, hubs, nodes), run).Some?
    requires Unambiguous(Run(c, Start(c, hubs, nodes), run).value.issued)
    ensures RowsOk(Run(c, Start(c, hubs, nodes), run).value)
    decreases |run|
  {
    if run != [] {
      var front := run[..|run| - 1];
      var s := Run(c, Start(c, hubs, nodes), front).value;
      RunKeepsFlow(c, hubs, nodes, front);
      FlowKept(c, s, run[|run| - 1]);
      assert Unambiguous(s.issued);
      RunKeepsRows(c, hubs, nodes, front);
      RowsKept(c, s, run[|run| - 1]);
    }
  }

  /** The node that a row addresses acted on the very command of that row. */
  ghost predicate ExecutedFor(s: Net, r: LogRow, e: Exec) {
    && e.origin == r.origin
    && e.node == r.row.request.target
    && var q := r.row.request;
       && (q.kind == SetIntervalKind ==> IsIntervalOf(q, e))
       && (q.kind == TestKind ==> e.packet.TestCmd? && e.packet.cmdId == q.cmdId && LedOf(q, e.packet.led))
  }

  /** A SET_INTERVAL with the request's id and number (60 if none), and the interval that comes of it. */
  ghost predicate IsIntervalOf(q: Request, e: Exec) {
    && e.packet.SetInterval? && e.packet.cmdId == q.cmdId
    && q.payload.Fields?
    && var field, sec := q.payload.intervalSec, e.packet.sec;
       && (field.None? ==> sec == 60)
       && (field.Some? && 0 <= field.value < 65536 ==> sec == field.value)
       && (field.Some? ==> (field.value - sec) % 65536 == 0)
       && e.interval == if sec < 10 then 10 else if sec > 3600 then 3600 else sec
  }

  predicate LedOf(q: Request, led: u8) {
    && (q.payload.Malformed? || q.payload.led.None? ==> led == 0)
    && (q.payload.Fields? && q.payload.led.Some? ==> (q.payload.led.value - led) % 256 == 0)
  }

  ghost predicate NoFailures(s: Net) { forall k :: 0 <= k < |s.rows| ==> s.rows[k].row.status != Fail }

  lemma NoFailuresKept(c: Config, s: Net, a: Action)
    requires H.Sane(c.hub) && FlowOk(c, s) && NoFailures(s) && Enabled(c, s, a)
    ensures NoFailures(Apply(c, s, a))
  {
    if a.ProcessAck? {
      assert AckOk(s, s.up[a.i].hub, s.up[a.i].ack);
    } else if a.HubStep? {
      HubStepFlow(c, s, a.h, a.step, a.radio);
    }
  }

  /** No row ever becomes a failure, whatever ids the commands have. */
  lemma {:induction false} NoRowEverFails(c: Config, hubs: set<HubId>, nodes: map<NodeId, N.Node>, run: seq<Action>)
    requires H.Sane(c.hub) && Run(c, Start(c, hubs, nodes), run).Some?
    ensures NoFailures(Run(c, Start(c, hubs, nodes), run).value)
    decreases |run|
  {
    if run != [] {
      var front := run[..|run| - 1];
      NoRowEverFails(c, hubs, nodes, front);
      RunKeepsFlow(c, hubs, nodes, front);
      NoFailuresKept(c, Run(c, Start(c, hubs, nodes), front).value, run[|run| - 1]);
    }
  }

  /** Every success in the log goes back to an execution of that very command. */
  ghost predicate Truthful(s: Net) {
    forall k :: 0 <= k < |s.rows| && s.rows[k].row.status == Success ==>
      exists e :: e in s.execs && ExecutedFor(s, s.rows[k], e)
  }

  /**
   * In every interleaving of server, channels, hub tasks, reconnects, reboots and repeated sends,
   * as long as no command has the id that another is acknowledged by: a row is a success only if
   * the node it addresses acted on that very command (for SET_INTERVAL, it then set its interval to
   * the clamped 16-bit value), and rows of types that are never acknowledged stay pending.
   */
  lemma SuccessMeansExecuted(c: Config, hubs: set<HubId>, nodes: map<NodeId, N.Node>, run: seq<Action>)
    requires H.Sane(c.hub) && Run(c, Start(c, hubs, nodes), run).Some?
    requires Unambiguous(Run(c, Start(c, hubs, nodes), run).value.issued)
    ensures var s := Run(c, Start(c, hubs, nodes), run).value;
      && Truthful(s)
      && forall k :: 0 <= k < |s.rows| && !Acknowledged(s.rows[k].row.request.kind) ==> s.rows[k].row.status == Pending
  {
    var s := Run(c, Start(c, hubs, nodes), run).value;
    RunKeepsFlow(c, hubs, nodes, run);
    RunKeepsRows(c, hubs, nodes, run);
    forall k | 0 <= k < |s.rows| && s.rows[k].row.status == Success
      ensures Acknowledged(s.rows[k].row.request.kind)
      ensures exists e :: e in s.execs && ExecutedFor(s, s.rows[k], e)
    {
      SuccessOfRow(c, s, k);
    }
    forall k | 0 <= k < |s.rows|
      ensures s.rows[k].row.status != Fail
    {
      assert RowOk(s, s.rows[k]);
    }
  }

  /** Types of command that a node acknowledges. */
  predicate Acknowledged(k: Kind) { k == SetIntervalKind || k == TestKind }

  lemma SuccessOfRow(c: Config, s: Net, k: nat)
    requires FlowOk(c, s) && RowsOk(s) && k < |s.rows| && s.rows[k].row.status == Success
    ensures Acknowledged(s.rows[k].row.request.kind)
    ensures exists e :: e in s.execs && ExecutedFor(s, s.rows[k], e)
  {
    var r := s.rows[k];
    assert RowOk(s, r);
    var e := s.execs[r.proof.value];
    assert ExecOk(s, e);
    AnswerableShape(s, r, e);
    assert e in s.execs && ExecutedFor(s, r, e);
  }

  lemma AnswerableShape(s: Net, r: LogRow, e: Exec)
    requires ExecOk(s, e) && RowOk(s, r) && e.origin == r.origin
    requires Answers(e.packet) && e.packet.cmdId == r.row.request.cmdId
    ensures Acknowledged(r.row.request.kind) && ExecutedFor(s, r, e)
  {
    var c := OnWire(r.row.request);
    if c.kind == SetIntervalKind {
      SetIntervalPacket(c);
    } else if c.kind == TestKind {
      TestPacket(c);
    } else if c.kind == ResetNodeKind {
      ResetNodePacket(c);
    } else {
      OtherPackets(c);
    }
  }
}
