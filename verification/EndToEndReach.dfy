/**
 * What the relay can do: from any state, after at most a restart of the hub, any request of commands
 * that nodes acknowledge can get all the way through, directly or by way of the pending pool.
 */
module EndToEndReach {
  import opened Types
  import opened Packets
  import opened CommandLog
  import opened EndToEnd
  import opened EndToEndSafety
  import opened EndToEndIds
  import H = HubMachine
  import N = NodeState
  import T = SlotTable

  // ---------- Nobody waits ----------

  /**
   * Whatever the rest of the relay is doing: anything on its way can be lost or arrive (at a hub that
   * has worked off its last message), rows can be saved at any time after the publish, a hub can take
   * any step its two tasks can take, nodes can wake and sleep, and servers and hubs can restart.
   */
  lemma NobodyWaits(c: Config, s: Net, i: nat, h: HubId, n: NodeId, rs: seq<Request>)
    ensures Enabled(c, s, Submit(h, rs)) && Enabled(c, s, RestartServer)
    ensures i < |s.down| ==> Enabled(c, s, LoseDown(i))
    ensures i < |s.down| && s.down[i].hub in s.hubs && s.hubs[s.down[i].hub].inbox == [] ==> Enabled(c, s, Deliver(i))
    ensures i < |s.up| ==> Enabled(c, s, LoseUp(i)) && Enabled(c, s, ProcessAck(i, 0))
    ensures n in s.nodes ==> Enabled(c, s, NodeEvent(n, N.Boot)) && Enabled(c, s, NodeEvent(n, N.Sleep))
  {
  }

  lemma RequestsWaitForNobody(c: Config, s: Net, i: nat)
    requires i < |s.sends| && s.sends[i].first + s.sends[i].count <= |s.issued|
    ensures !s.sends[i].published ==> Enabled(c, s, Publish(i)) && Enabled(c, s, PublishFails(i))
    ensures s.sends[i].published && s.sends[i].saved < s.sends[i].count ==> Enabled(c, s, SaveRow(i))
  {
  }

  lemma HubsWaitForNobody(c: Config, s: Net, h: HubId, step: H.Action)
    requires h in s.hubs
    ensures Enabled(c, s, RebootHub(h))
    ensures s.hubs[h].acks != [] ==> Enabled(c, s, DrainAck(h, true)) && Enabled(c, s, DrainAck(h, false))
    ensures s.hubs[h].inbox != [] && s.hubs[h].core.mqtt.Idle? ==>
      var cmd := s.hubs[h].inbox[0].cmd;
      if cmd.target == HubItself then Enabled(c, s, HubCommand(h))
      else Enabled(c, s, HubStep(h, H.Dispatch(cmd, false), Radio(false, false, false)))
    ensures H.Enabled(c.hub, s.hubs[h].core, step) && !step.Dispatch? && !Reported(step) ==>
      Enabled(c, s, HubStep(h, step, Radio(false, false, false)))
  {
  }

  // ---------- A hub with nothing to do ----------

  ghost predicate Ready(s: Net, h: HubId) {
    h in s.hubs && s.hubs[h].inbox == [] && s.hubs[h].acks == [] && s.hubs[h].core.mqtt.Idle?
  }

  /** A restart brings any hub there and changes nothing else. */
  lemma RebootReadies(c: Config, start: Net, run: seq<Action>, h: HubId) returns (longer: seq<Action>)
    requires Run(c, start, run).Some? && h in Run(c, start, run).value.hubs
    ensures Run(c, start, longer).Some?
    ensures var s, t := Run(c, start, run).value, Run(c, start, longer).value;
      Ready(t, h) && t.hubs[h].core == H.Boot(c.hub) && t == s.(hubs := s.hubs[h := t.hubs[h]])
  {
    var s;
    longer, s := Step(c, start, run, RebootHub(h));
  }

  // ---------- The way there ----------

  /** A request is submitted, published and delivered whole and in order. */
  lemma Carry(c: Config, start: Net, run: seq<Action>, h: HubId, rs: seq<Request>) returns (longer: seq<Action>)
    requires Run(c, start, run).Some? && Ready(Run(c, start, run).value, h)
    ensures Run(c, start, longer).Some?
    ensures var s, t := Run(c, start, run).value, Run(c, start, longer).value;
      var given := AssignIds(s.counter, rs).0;
      && |given| == |rs|
      && t.issued == s.issued + IssueAll(h, given)
      && t.sends == s.sends + [Send(h, |s.issued|, |rs|, true, 0)]
      && t.hubs == s.hubs[h := s.hubs[h].(inbox := Envelope(t.issued, |s.issued|, |rs|))]
      && t.rows == s.rows && t.down == s.down && t.execs == s.execs && t.up == s.up && t.nodes == s.nodes
  {
    var s0 := Run(c, start, run).value;
    AssignKeepsRequests(s0.counter, rs);
    var s;
    longer, s := Step(c, start, run, Submit(h, rs));
    longer, s := Step(c, start, longer, Publish(|s0.sends|));
    longer, s := Step(c, start, longer, Deliver(|s0.down|));
    assert s.down == s0.down;
  }

  /** A command that its node acknowledges. */
  ghost predicate Good(s: Net, t: Tagged) {
    && PacketFor(t.cmd).Some? && EndToEndSafety.Answers(PacketFor(t.cmd).value)
    && t.cmd.cmdId != 0 && t.cmd.target != HubItself && t.cmd.target in s.nodes
  }

  /** The first command of the inbox is sent and acted on, and the hub hears of it. */
  lemma DispatchOne(c: Config, s: Net, h: HubId) returns (a: Action)
    requires c.ackCap > 0
    requires h in s.hubs && s.hubs[h].inbox != [] && s.hubs[h].acks == [] && s.hubs[h].core.mqtt.Idle?
    requires Good(s, s.hubs[h].inbox[0])
    ensures Enabled(c, s, a)
    ensures var t, x := Apply(c, s, a), s.hubs[h].inbox[0];
      && t == s.(hubs := t.hubs, nodes := t.nodes, execs := t.execs)
      && t.nodes.Keys == s.nodes.Keys && h in t.hubs && t.hubs == s.hubs[h := t.hubs[h]]
      && t.hubs[h].inbox == s.hubs[h].inbox[1..] && t.hubs[h].core.mqtt.Idle?
      && t.hubs[h].acks == [Ack(x.cmd.cmdId, true, |s.execs|)]
      && |t.execs| == |s.execs| + 1 && s.execs <= t.execs && ActsOn(t.execs[|s.execs|], x)
  {
    var x := s.hubs[h].inbox[0];
    WritesAreFaithful(x.cmd);
    ReactionOk(s.nodes[x.cmd.target], x.cmd, true);
    a := HubStep(h, H.Dispatch(x.cmd, true), Radio(true, true, true));
  }

  /** After that its acknowledgement goes to the server. */
  lemma WorkOne(c: Config, start: Net, run: seq<Action>, h: HubId) returns (longer: seq<Action>)
    requires c.ackCap > 0 && Run(c, start, run).Some?
    requires var s := Run(c, start, run).value;
      && h in s.hubs && s.hubs[h].inbox != [] && s.hubs[h].acks == [] && s.hubs[h].core.mqtt.Idle?
      && Good(s, s.hubs[h].inbox[0])
    ensures Run(c, start, longer).Some?
    ensures var s, t := Run(c, start, run).value, Run(c, start, longer).value;
      var x := s.hubs[h].inbox[0];
      && t == s.(hubs := t.hubs, nodes := t.nodes, execs := t.execs, up := t.up)
      && t.nodes.Keys == s.nodes.Keys && h in t.hubs && t.hubs == s.hubs[h := t.hubs[h]]
      && t.hubs[h].inbox == s.hubs[h].inbox[1..] && t.hubs[h].acks == []
      && t.hubs[h].core.mqtt.Idle?
      && |t.execs| == |s.execs| + 1 && s.execs <= t.execs
      && ActsOn(t.execs[|s.execs|], x)
      && t.up == s.up + [UpMessage(h, Ack(x.cmd.cmdId, true, |s.execs|))]
  {
    var s := Run(c, start, run).value;
    var a := DispatchOne(c, s, h);
    longer, s := Step(c, start, run, a);
    longer, s := Step(c, start, longer, DrainAck(h, true));
  }

  /** An execution of this very command. */
  ghost predicate ActsOn(e: Exec, x: Tagged) {
    e.origin == x.origin && e.node == x.cmd.target && PacketFor(x.cmd) == Some(e.packet)
  }

  /** Acknowledgements of these commands, by executions numbered from `first` on. */
  function AcksOf(h: HubId, xs: seq<Tagged>, first: nat): seq<UpMessage> {
    if xs == [] then []
    else [UpMessage(h, Ack(xs[0].cmd.cmdId, true, first))] + AcksOf(h, xs[1..], first + 1)
  }

  lemma {:induction false} AcksOfAll(h: HubId, xs: seq<Tagged>, first: nat)
    ensures |AcksOf(h, xs, first)| == |xs|
    ensures forall k :: 0 <= k < |xs| ==>
      var m := AcksOf(h, xs, first)[k]; m.hub == h && m.ack.success && m.ack.id == xs[k].cmd.cmdId
  {
    if xs != [] {
      AcksOfAll(h, xs[1..], first + 1);
    }
  }

  ghost predicate AllActOn(es: seq<Exec>, xs: seq<Tagged>) {
    |es| == |xs| && forall k :: 0 <= k < |xs| ==> ActsOn(es[k], xs[k])
  }

  /** All commands of the inbox, one after the other. */
  lemma {:induction false} WorkAll(c: Config, start: Net, run: seq<Action>, h: HubId, xs: seq<Tagged>)
    returns (longer: seq<Action>, es: seq<Exec>)
    requires c.ackCap > 0 && Run(c, start, run).Some?
    requires var s := Run(c, start, run).value;
      && h in s.hubs && s.hubs[h].inbox == xs && s.hubs[h].acks == [] && s.hubs[h].core.mqtt.Idle?
      && forall k :: 0 <= k < |xs| ==> Good(s, xs[k])
    ensures Run(c, start, longer).Some? && AllActOn(es, xs)
    ensures var s, t := Run(c, start, run).value, Run(c, start, longer).value;
      && Ready(t, h) && t.hubs == s.hubs[h := t.hubs[h]] && t.nodes.Keys == s.nodes.Keys
      && t.execs == s.execs + es && t.up == s.up + AcksOf(h, xs, |s.execs|)
      && t.issued == s.issued && t.sends == s.sends && t.rows == s.rows && t.down == s.down
    decreases |xs|
  {
    longer, es := run, [];
    if xs != [] {
      var s := Run(c, start, run).value;
      longer := WorkOne(c, start, run, h);
      var s1 := Run(c, start, longer).value;
      var e := s1.execs[|s.execs|];
      longer, es := WorkAll(c, start, longer, h, xs[1..]);
      FirstOfAll(s.execs, e, es, xs);
      AcksRegroup(s.up, h, xs, |s.execs|);
      assert s1.execs == s.execs + [e];
      es := [e] + es;
    }
  }

  lemma FirstOfAll(before: seq<Exec>, e: Exec, es: seq<Exec>, xs: seq<Tagged>)
    requires xs != [] && ActsOn(e, xs[0]) && AllActOn(es, xs[1..])
    ensures AllActOn([e] + es, xs)
    ensures before + [e] + es == before + ([e] + es)
  {
  }

  lemma AcksRegroup(up: seq<UpMessage>, h: HubId, xs: seq<Tagged>, first: nat)
    requires xs != []
    ensures up + [UpMessage(h, Ack(xs[0].cmd.cmdId, true, first))] + AcksOf(h, xs[1..], first + 1)
      == up + AcksOf(h, xs, first)
  {
  }

  // ---------- The way back ----------

  /** The history has these requests from position `first` on. */
  ghost predicate Spells(issued: seq<Issued>, first: nat, given: seq<Request>) {
    first + |given| <= |issued| && forall k :: 0 <= k < |given| ==> issued[first + k].request == given[k]
  }

  /** The state once the next row of request `i` is saved. */
  ghost function OneSaved(s: Net, i: nat): Net
    requires i < |s.sends| && s.sends[i].first + s.sends[i].count <= |s.issued|
    requires s.sends[i].saved < s.sends[i].count
  {
    var x := s.sends[i];
    var at := x.first + x.saved;
    s.(rows := s.rows + [LogRow(NewRow(x.hub, s.issued[at].request), at, None)],
       sends := s.sends[i := x.(saved := x.saved + 1)])
  }

  lemma SaveOne(c: Config, start: Net, run: seq<Action>, s: Net, i: nat) returns (longer: seq<Action>)
    requires Run(c, start, run) == Some(s)
    requires i < |s.sends| && s.sends[i].published && s.sends[i].first + s.sends[i].count <= |s.issued|
    requires s.sends[i].saved < s.sends[i].count
    ensures Run(c, start, longer) == Some(OneSaved(s, i))
  {
    var t;
    longer, t := Step(c, start, run, SaveRow(i));
  }

  /** The state once `n` more rows of request `i` are saved. */
  ghost function Saved(s: Net, i: nat, n: nat): (t: Net)
    requires i < |s.sends| && s.sends[i].published && s.sends[i].first + s.sends[i].count <= |s.issued|
    requires s.sends[i].saved + n <= s.sends[i].count
    ensures t == s.(rows := t.rows, sends := s.sends[i := s.sends[i].(saved := s.sends[i].saved + n)])
  {
    if n == 0 then s else OneSaved(Saved(s, i, n - 1), i)
  }

  /** They are the pending rows of the request's commands, in order. */
  lemma {:induction false} SavedRows(s: Net, i: nat, given: seq<Request>) returns (added: seq<LogRow>)
    requires i < |s.sends| && s.sends[i].published && s.sends[i].first + s.sends[i].count <= |s.issued|
    requires s.sends[i].saved == 0 && |given| <= s.sends[i].count && Spells(s.issued, s.sends[i].first, given)
    ensures Saved(s, i, |given|).rows == s.rows + added && |added| == |given|
    ensures forall k :: 0 <= k < |given| ==> added[k].row == NewRow(s.sends[i].hub, given[k])
    decreases |given|
  {
    added := [];
    if given != [] {
      var n := |given| - 1;
      added := SavedRows(s, i, given[..n]);
      var before, after := Saved(s, i, n), Saved(s, i, n + 1);
      var row := after.rows[|after.rows| - 1];
      assert s.issued[s.sends[i].first + n].request == given[n];
      assert s.rows + added + [row] == s.rows + (added + [row]);
      added := added + [row];
    }
  }

  /** All rows of a published request. */
  lemma {:induction false} SaveAll(c: Config, start: Net, run: seq<Action>, s: Net, i: nat, n: nat)
    returns (longer: seq<Action>)
    requires Run(c, start, run) == Some(s)
    requires i < |s.sends| && s.sends[i].published && s.sends[i].first + s.sends[i].count <= |s.issued|
    requires s.sends[i].saved + n <= s.sends[i].count
    ensures Run(c, start, longer) == Some(Saved(s, i, n))
  {
    longer := run;
    if n > 0 {
      longer := SaveAll(c, start, run, s, i, n - 1);
      longer := SaveOne(c, start, longer, Saved(s, i, n - 1), i);
    }
  }

  /** A row of the hub and id of an acknowledgement that has not failed. */
  predicate Named(r: LogRow, m: UpMessage) {
    r.row.hub == m.hub && r.row.request.cmdId == m.ack.id && r.row.status != Fail
  }

  predicate OnlySettled(rows: seq<LogRow>, rows1: seq<LogRow>) {
    && |rows1| == |rows|
    && forall r :: 0 <= r < |rows| ==>
         && rows1[r].row.request == rows[r].row.request && rows1[r].row.hub == rows[r].row.hub
         && (rows1[r].row.status == rows[r].row.status || rows1[r].row.status == Success)
  }

  /** An acknowledgement of success leaves no row it names pending, and takes nothing back. */
  lemma AckSettles(c: Config, start: Net, run: seq<Action>, u: nat) returns (longer: seq<Action>)
    requires Run(c, start, run).Some?
    requires var s := Run(c, start, run).value; u < |s.up| && s.up[u].ack.success
    ensures Run(c, start, longer).Some?
    ensures var s, t := Run(c, start, run).value, Run(c, start, longer).value;
      && t == s.(rows := t.rows, up := s.up[..u] + s.up[u + 1..])
      && OnlySettled(s.rows, t.rows)
      && forall r :: 0 <= r < |s.rows| && Named(s.rows[r], s.up[u]) ==> t.rows[r].row.status == Success
  {
    var s;
    longer, s := Step(c, start, run, ProcessAck(u, 0));
  }

  /** All acknowledgements behind the first ones. */
  lemma {:induction false} SettleAllFrom(
    c: Config, start: Net, run: seq<Action>, pre: seq<UpMessage>, ms: seq<UpMessage>)
    returns (longer: seq<Action>)
    requires Run(c, start, run).Some? && Run(c, start, run).value.up == pre + ms
    requires forall k :: 0 <= k < |ms| ==> ms[k].ack.success
    ensures Run(c, start, longer).Some?
    ensures var s, t := Run(c, start, run).value, Run(c, start, longer).value;
      && t == s.(rows := t.rows, up := pre)
      && OnlySettled(s.rows, t.rows)
      && forall k, r :: 0 <= k < |ms| && 0 <= r < |s.rows| && Named(s.rows[r], ms[k]) ==>
           t.rows[r].row.status == Success
    decreases |ms|
  {
    longer := run;
    var s := Run(c, start, run).value;
    if ms == [] {
      assert s.up == pre;
    } else {
      longer := AckSettles(c, start, run, |pre|);
      var s1 := Run(c, start, longer).value;
      assert s1.up == pre + ms[1..];
      longer := SettleAllFrom(c, start, longer, pre, ms[1..]);
      var t := Run(c, start, longer).value;
      forall k, r | 0 <= k < |ms| && 0 <= r < |s.rows| && Named(s.rows[r], ms[k])
        ensures t.rows[r].row.status == Success
      {
        if k > 0 {
          assert Named(s1.rows[r], ms[1..][k - 1]);
        }
      }
    }
  }

  // ---------- All the way ----------

  /** Commands that nodes of the relay acknowledge, with ids that fit the wire. */
  ghost predicate Acknowledgeable(s: Net, given: seq<Request>) {
    forall k :: 0 <= k < |given| ==>
      && Answerable(given[k]) && given[k].target in s.nodes
      && WireId(given[k].cmdId) == given[k].cmdId != 0
  }

  lemma GoodOnWire(s: Net, r: Request, origin: nat)
    requires Answerable(r) && r.target in s.nodes && WireId(r.cmdId) == r.cmdId != 0
    ensures Good(s, Tagged(OnWire(r), origin))
  {
    if r.kind == TestKind {
      TestPacket(OnWire(r));
    } else {
      SetIntervalPacket(OnWire(r));
    }
  }

  /** The commands given out for a request, as they go to the hub. */
  function Letters(given: seq<Request>, first: nat): (xs: seq<Tagged>)
    ensures |xs| == |given| && forall k :: 0 <= k < |given| ==> xs[k] == Tagged(OnWire(given[k]), first + k)
  {
    seq(|given|, k requires 0 <= k < |given| => Tagged(OnWire(given[k]), first + k))
  }

  /** The way there: every command of the request is acted on, and its acknowledgement under way. */
  lemma GoThere(c: Config, start: Net, run: seq<Action>, h: HubId, rs: seq<Request>)
    returns (longer: seq<Action>, es: seq<Exec>)
    requires c.ackCap > 0 && Run(c, start, run).Some?
    requires var s := Run(c, start, run).value;
      Ready(s, h) && Acknowledgeable(s, AssignIds(s.counter, rs).0)
    ensures Run(c, start, longer).Some?
    ensures var s, t := Run(c, start, run).value, Run(c, start, longer).value;
      var given := AssignIds(s.counter, rs).0;
      var xs := Letters(given, |s.issued|);
      && |given| == |rs| && AllActOn(es, xs) && Ready(t, h)
      && t.issued == s.issued + IssueAll(h, given)
      && t.sends == s.sends + [Send(h, |s.issued|, |rs|, true, 0)]
      && t.execs == s.execs + es && t.up == s.up + AcksOf(h, xs, |s.execs|)
      && t.rows == s.rows && t.down == s.down
  {
    var s := Run(c, start, run).value;
    var given := AssignIds(s.counter, rs).0;
    longer := Carry(c, start, run, h, rs);
    var s1 := Run(c, start, longer).value;
    var xs := Letters(given, |s.issued|);
    assert s1.hubs[h].inbox == xs;
    forall k | 0 <= k < |xs|
      ensures Good(s1, xs[k])
    {
      GoodOnWire(s1, given[k], |s.issued| + k);
    }
    longer, es := WorkAll(c, start, longer, h, xs);
  }

  /** One acknowledgement of success for each command of a request. */
  ghost predicate AnswerRequest(ms: seq<UpMessage>, hub: HubId, given: seq<Request>) {
    && |ms| == |given|
    && forall k :: 0 <= k < |given| ==> ms[k].hub == hub && ms[k].ack.success && ms[k].ack.id == given[k].cmdId
  }

  /** One successful row for each command of a request. */
  ghost predicate AllSucceeded(rows: seq<LogRow>, hub: HubId, given: seq<Request>) {
    && |rows| == |given|
    && forall k :: 0 <= k < |given| ==>
         rows[k].row.request == given[k] && rows[k].row.hub == hub && rows[k].row.status == Success
  }

  lemma AcksAnswer(h: HubId, given: seq<Request>, first: nat, e: nat)
    requires forall k :: 0 <= k < |given| ==> WireId(given[k].cmdId) == given[k].cmdId
    ensures AnswerRequest(AcksOf(h, Letters(given, first), e), h, given)
  {
    AcksOfAll(h, Letters(given, first), e);
  }

  lemma IssuedSpells(issued: seq<Issued>, h: HubId, given: seq<Request>)
    ensures Spells(issued + IssueAll(h, given), |issued|, given)
  {
    var all := issued + IssueAll(h, given);
    forall k | 0 <= k < |given|
      ensures all[|issued| + k].request == given[k]
    {
      assert all[|issued| + k] == IssueAll(h, given)[k];
    }
  }

  /** The way back: the rows are saved, and the acknowledgements settle them. */
  lemma GoBack(c: Config, start: Net, run: seq<Action>, i: nat, x: Send, given: seq<Request>,
               pre: seq<UpMessage>, ms: seq<UpMessage>)
    returns (longer: seq<Action>)
    requires Run(c, start, run).Some?
    requires var s := Run(c, start, run).value;
      && i < |s.sends| && s.sends[i] == x && x.published && x.saved == 0 && x.count == |given|
      && Spells(s.issued, x.first, given) && s.up == pre + ms && AnswerRequest(ms, x.hub, given)
    ensures Run(c, start, longer).Some?
    ensures var s, t := Run(c, start, run).value, Run(c, start, longer).value;
      && t == s.(rows := t.rows, sends := t.sends, up := pre)
      && |s.rows| <= |t.rows| && AllSucceeded(t.rows[|s.rows|..], x.hub, given)
  {
    var s := Run(c, start, run).value;
    longer := SaveAll(c, start, run, s, i, x.count);
    longer := SettleAllFrom(c, start, longer, pre, ms);
    var added := SavedRows(s, i, given);
    NewRowsSettled(s.rows, added, Run(c, start, longer).value.rows, x.hub, given, ms);
  }

  lemma NewRowsSettled(rows: seq<LogRow>, saved: seq<LogRow>, rows1: seq<LogRow>,
                       hub: HubId, given: seq<Request>, ms: seq<UpMessage>)
    requires AnswerRequest(ms, hub, given) && |saved| == |given|
    requires forall k :: 0 <= k < |given| ==> saved[k].row == NewRow(hub, given[k])
    requires OnlySettled(rows + saved, rows1)
    requires forall k, r :: 0 <= k < |ms| && 0 <= r < |rows + saved| && Named((rows + saved)[r], ms[k]) ==>
      rows1[r].row.status == Success
    ensures |rows| <= |rows1| && AllSucceeded(rows1[|rows|..], hub, given)
  {
    var all, added := rows + saved, rows1[|rows|..];
    forall k | 0 <= k < |given|
      ensures added[k].row.request == given[k] && added[k].row.hub == hub && added[k].row.status == Success
    {
      var r := |rows| + k;
      assert all[r] == saved[k] && added[k] == rows1[r];
      assert Named(all[r], ms[k]);
    }
  }

  /**
   * From any state with the hub ready, any request of acknowledgeable commands can get through: in
   * some continuation every command is acted on once, in order, and every new row is a success.
   */
  lemma AnyRequestCanGetThrough(c: Config, start: Net, run: seq<Action>, h: HubId, rs: seq<Request>)
    returns (longer: seq<Action>)
    requires c.ackCap > 0 && Run(c, start, run).Some?
    requires var s := Run(c, start, run).value;
      Ready(s, h) && Acknowledgeable(s, AssignIds(s.counter, rs).0)
    ensures Run(c, start, longer).Some?
    ensures var s, t := Run(c, start, run).value, Run(c, start, longer).value;
      var given := AssignIds(s.counter, rs).0;
      && |given| == |rs| && Ready(t, h) && t.up == s.up && t.down == s.down
      && s.execs <= t.execs && AllActOn(t.execs[|s.execs|..], Letters(given, |s.issued|))
      && |s.rows| <= |t.rows| && AllSucceeded(t.rows[|s.rows|..], h, given)
  {
    var s := Run(c, start, run).value;
    var given := AssignIds(s.counter, rs).0;
    var es;
    longer, es := GoThere(c, start, run, h, rs);
    var s1 := Run(c, start, longer).value;
    assert s1.execs[|s.execs|..] == es;
    IssuedSpells(s.issued, h, given);
    AcksAnswer(h, given, |s.issued|, |s.execs|);
    var x, ms := Send(h, |s.issued|, |rs|, true, 0), AcksOf(h, Letters(given, |s.issued|), |s.execs|);
    longer := GoBack(c, start, longer, |s.sends|, x, given, s.up, ms);
  }

  // ---------- By way of the pending pool ----------

  /** Parked at a hub that has just started, and then popped: the command is in the loop task's hands. */
  lemma ParkedAndPopped(c: H.Config, s: H.State, cmd: Command)
    requires H.Sane(c) && s == H.Boot(c) && cmd.target != HubItself
    ensures var item := H.Item(cmd, 0, 0, 0);
      var s1 := s.(dispatched := [cmd], mqtt := H.Unsent(0));
      var s2 := s1.(mqtt := H.Stamped(item));
      var s3 := H.DoCommitPush(c, s2);
      var s4 := s3.(loop := H.Popping(cmd.target));
      var s5 := H.DoPop(c, s4);
      && H.Enabled(c, s, H.Dispatch(cmd, false)) && H.Apply(c, s, H.Dispatch(cmd, false)) == s1
      && H.Enabled(c, s1, H.StampPush) && H.Apply(c, s1, H.StampPush) == s2
      && H.Enabled(c, s2, H.CommitPush) && H.Enabled(c, s3, H.BeginFlush(cmd.target))
      && H.Apply(c, s3, H.BeginFlush(cmd.target)) == s4
      && H.Enabled(c, s4, H.PopNext)
      && s5.loop.Carrying? && s5.loop.item == item && s5.loop.phase == H.Held && s5.mqtt.Idle?
  {
    T.PushShape(s.table, c.cap, cmd.target, H.Item(cmd, 0, 0, 0));
    var t := T.Push(s.table, c.cap, cmd.target, H.Item(cmd, 0, 0, 0)).0;
    assert T.FindFree(s.table) == 0;
    assert t[0] == T.Used(cmd.target, [H.Item(cmd, 0, 0, 0)]);
    assert T.Find(t, cmd.target) == 0;
    assert H.LiveAt(c, 0)(H.Item(cmd, 0, 0, 0));
  }

  /** A hub step without a write: the hub steps, and nothing else changes. */
  lemma HubAlone(c: Config, start: Net, run: seq<Action>, s: Net, h: HubId, hub: Hub, step: H.Action)
    returns (longer: seq<Action>)
    requires h in s.hubs && Run(c, start, run) == Some(s.(hubs := s.hubs[h := hub]))
    requires H.Enabled(c.hub, hub.core, step) && !Reported(step)
    requires step.Dispatch? ==> hub.inbox != [] && step.cmd == hub.inbox[0].cmd
    ensures Run(c, start, longer) == Some(s.(hubs := s.hubs[h := StepHub(c, hub, step)]))
  {
    var t;
    longer, t := Step(c, start, run, HubStep(h, step, Radio(false, false, false)));
    assert s.hubs[h := hub][h := StepHub(c, hub, step)] == s.hubs[h := StepHub(c, hub, step)];
  }

  /** The hub about to push, and the hub about to pop, the first command of its inbox. */
  function Stamped(c: H.Config, hub: Hub): Hub
    requires hub.inbox != []
  {
    var cmd := hub.inbox[0].cmd;
    Hub(H.Boot(c).(dispatched := [cmd], mqtt := H.Stamped(H.Item(cmd, 0, 0, 0))),
        [hub.inbox[0].origin], hub.inbox[1..], hub.acks)
  }

  function Popping(c: H.Config, hub: Hub): Hub
    requires hub.inbox != []
  {
    var parked := H.DoCommitPush(c, Stamped(c, hub).core);
    Stamped(c, hub).(core := parked.(loop := H.Popping(hub.inbox[0].cmd.target)))
  }

  lemma StampedSteps(c: Config, hub: Hub)
    requires H.Sane(c.hub) && hub.core == H.Boot(c.hub) && hub.origins == []
    requires hub.inbox != [] && hub.inbox[0].cmd.target != HubItself
    ensures var cmd := hub.inbox[0].cmd;
      && H.Enabled(c.hub, hub.core, H.Dispatch(cmd, false))
      && var unsent := StepHub(c, hub, H.Dispatch(cmd, false));
         H.Enabled(c.hub, unsent.core, H.StampPush) && StepHub(c, unsent, H.StampPush) == Stamped(c.hub, hub)
  {
    ParkedAndPopped(c.hub, hub.core, hub.inbox[0].cmd);
    var first := H.Dispatch(hub.inbox[0].cmd, false);
    UnsentStep(c, hub);
    assert StepHub(c, StepHub(c, hub, first), H.StampPush).core == Stamped(c.hub, hub).core;
  }

  lemma UnsentStep(c: Config, hub: Hub)
    requires hub.core == H.Boot(c.hub) && hub.origins == []
    requires hub.inbox != [] && hub.inbox[0].cmd.target != HubItself
    ensures var x := hub.inbox[0];
      StepHub(c, hub, H.Dispatch(x.cmd, false)) ==
        Hub(hub.core.(dispatched := [x.cmd], mqtt := H.Unsent(0)), [x.origin], hub.inbox[1..], hub.acks)
  {
  }

  lemma Park(c: Config, start: Net, run: seq<Action>, s: Net, h: HubId, hub: Hub) returns (longer: seq<Action>)
    requires H.Sane(c.hub) && h in s.hubs && Run(c, start, run) == Some(s.(hubs := s.hubs[h := hub]))
    requires hub.core == H.Boot(c.hub) && hub.origins == []
    requires hub.inbox != [] && hub.inbox[0].cmd.target != HubItself
    ensures Run(c, start, longer) == Some(s.(hubs := s.hubs[h := Stamped(c.hub, hub)]))
  {
    var first := H.Dispatch(hub.inbox[0].cmd, false);
    StampedSteps(c, hub);
    longer := HubAlone(c, start, run, s, h, hub, first);
    longer := HubAlone(c, start, longer, s, h, StepHub(c, hub, first), H.StampPush);
  }

  /** The first command of a restarted hub is not sent but parked, and then popped by the loop task. */
  lemma ParkAndPop(c: Config, start: Net, run: seq<Action>, s: Net, h: HubId, hub: Hub) returns (longer: seq<Action>)
    requires H.Sane(c.hub) && h in s.hubs && Run(c, start, run) == Some(s.(hubs := s.hubs[h := hub]))
    requires hub.core == H.Boot(c.hub) && hub.origins == []
    requires hub.inbox != [] && hub.inbox[0].cmd.target != HubItself
    ensures var popping := Popping(c.hub, hub);
      Run(c, start, longer) == Some(s.(hubs := s.hubs[h := popping.(core := H.DoPop(c.hub, popping.core))]))
  {
    longer := Park(c, start, run, s, h, hub);
    ParkedAndPopped(c.hub, hub.core, hub.inbox[0].cmd);
    var stamped := Stamped(c.hub, hub);
    longer := HubAlone(c, start, longer, s, h, stamped, H.CommitPush);
    var parked := StepHub(c, stamped, H.CommitPush);
    assert parked == stamped.(core := H.DoCommitPush(c.hub, stamped.core));
    longer := HubAlone(c, start, longer, s, h, parked, H.BeginFlush(hub.inbox[0].cmd.target));
    assert StepHub(c, parked, H.BeginFlush(hub.inbox[0].cmd.target)) == Popping(c.hub, hub);
    longer := HubAlone(c, start, longer, s, h, Popping(c.hub, hub), H.PopNext);
  }

  lemma InItsHands(c: Config, hub: Hub)
    requires H.Sane(c.hub) && hub.inbox != [] && hub.inbox[0].cmd.target != HubItself
    ensures var core := H.DoPop(c.hub, Popping(c.hub, hub).core);
      core.loop.Carrying? && core.loop.phase == H.Held && core.loop.item == H.Item(hub.inbox[0].cmd, 0, 0, 0)
  {
    ParkedAndPopped(c.hub, H.Boot(c.hub), hub.inbox[0].cmd);
  }

  /** From there the flush sends it, and the node acts on it and answers. */
  lemma ParkedCanGetThrough(c: Config, start: Net, run: seq<Action>, h: HubId) returns (longer: seq<Action>)
    requires H.Sane(c.hub) && c.ackCap > 0 && Run(c, start, run).Some?
    requires var s := Run(c, start, run).value;
      && h in s.hubs && s.hubs[h].core == H.Boot(c.hub) && s.hubs[h].origins == [] && s.hubs[h].acks == []
      && s.hubs[h].inbox != [] && Good(s, s.hubs[h].inbox[0])
    ensures Run(c, start, longer).Some?
    ensures var s, t := Run(c, start, run).value, Run(c, start, longer).value;
      var x := s.hubs[h].inbox[0];
      && |t.execs| == |s.execs| + 1 && s.execs <= t.execs && ActsOn(t.execs[|s.execs|], x)
      && t.up == s.up + [UpMessage(h, Ack(x.cmd.cmdId, true, |s.execs|))]
  {
    var s0 := Run(c, start, run).value;
    var hub, x := s0.hubs[h], s0.hubs[h].inbox[0];
    InItsHands(c, hub);
    assert s0.hubs[h := hub] == s0.hubs;
    longer := ParkAndPop(c, start, run, s0, h, hub);
    var popping := Popping(c.hub, hub);
    longer := SendAndDrain(c, start, longer, h, popping.(core := H.DoPop(c.hub, popping.core)), x);
  }

  lemma SendAndDrain(c: Config, start: Net, run: seq<Action>, h: HubId, hub: Hub, x: Tagged)
    returns (longer: seq<Action>)
    requires c.ackCap > 0 && Run(c, start, run).Some?
    requires var s := Run(c, start, run).value; h in s.hubs && s.hubs[h] == hub && Good(s, x)
    requires hub.core.loop.Carrying? && hub.core.loop.phase == H.Held && hub.core.loop.item == H.Item(x.cmd, 0, 0, 0)
    requires hub.origins == [x.origin] && hub.acks == []
    ensures Run(c, start, longer).Some?
    ensures var s, t := Run(c, start, run).value, Run(c, start, longer).value;
      && |t.execs| == |s.execs| + 1 && s.execs <= t.execs && ActsOn(t.execs[|s.execs|], x)
      && t.up == s.up + [UpMessage(h, Ack(x.cmd.cmdId, true, |s.execs|))]
  {
    var s := Run(c, start, run).value;
    var a := SendPopped(c, s, h, hub, x);
    longer, s := Step(c, start, run, a);
    longer, s := Step(c, start, longer, DrainAck(h, true));
  }

  /** The loop task sends the command in its hands; the node acts on it and answers. */
  lemma SendPopped(c: Config, s: Net, h: HubId, hub: Hub, x: Tagged) returns (a: Action)
    requires c.ackCap > 0 && h in s.hubs && s.hubs[h] == hub && Good(s, x)
    requires hub.core.loop.Carrying? && hub.core.loop.phase == H.Held && hub.core.loop.item == H.Item(x.cmd, 0, 0, 0)
    requires hub.origins == [x.origin] && hub.acks == []
    ensures Enabled(c, s, a)
    ensures var t := Apply(c, s, a);
      && |t.execs| == |s.execs| + 1 && s.execs <= t.execs && ActsOn(t.execs[|s.execs|], x)
      && t.up == s.up && h in t.hubs && t.hubs[h].acks == [Ack(x.cmd.cmdId, true, |s.execs|)]
  {
    WritesAreFaithful(x.cmd);
    ReactionOk(s.nodes[x.cmd.target], x.cmd, true);
    a := HubStep(h, H.SendHeld(true), Radio(true, true, true));
  }
}
