/** For which ids the command log tells the truth: exactly, and for automatic ids in particular. */
module EndToEndIds {
  import opened Types
  import opened CommandLog
  import opened EndToEnd
  import opened EndToEndSafety
  import H = HubMachine
  import N = NodeState

  // ---------- Runs, step by step ----------

  /** The commands ask for automatic ids, and the server is not restarted. */
  ghost predicate AutomaticStep(a: Action) {
    && !a.RestartServer?
    && (a.Submit? ==> forall k :: 0 <= k < |a.requests| ==> a.requests[k].cmdId == 0)
  }

  ghost predicate Automatic(run: seq<Action>) {
    forall i :: 0 <= i < |run| ==> AutomaticStep(run[i])
  }

  lemma Step(c: Config, start: Net, run: seq<Action>, a: Action) returns (longer: seq<Action>, s: Net)
    requires Run(c, start, run).Some? && Enabled(c, Run(c, start, run).value, a)
    ensures longer == run + [a] && s == Apply(c, Run(c, start, run).value, a)
    ensures Run(c, start, longer) == Some(s)
    ensures Automatic(run) && AutomaticStep(a) ==> Automatic(longer)
  {
    longer := run + [a];
    assert longer[..|longer| - 1] == run;
    s := Apply(c, Run(c, start, run).value, a);
  }

  function Given(counter: nat, r: Request): Request {
    if r.cmdId == 0 then r.(cmdId := NextId(counter)) else r
  }

  lemma SubmitOne(c: Config, s: Net, hub: HubId, r: Request)
    ensures Apply(c, s, Submit(hub, [r])) ==
      s.(counter := if r.cmdId == 0 then NextId(s.counter) else s.counter,
         issued := s.issued + [Issued(hub, Given(s.counter, r))],
         sends := s.sends + [Send(hub, |s.issued|, 1, false, 0)])
  {
    var rs, given := [r], Given(s.counter, r);
    assert rs[..|rs| - 1] == [];
    assert AssignIds(s.counter, rs).0 == [] + [given];
    assert IssueAll(hub, [] + [given]) == [Issued(hub, given)];
  }

  lemma PublishOne(c: Config, s: Net, i: nat)
    requires i < |s.sends| && s.down == []
    requires var x := s.sends[i]; x.count == 1 && !x.published && x.first < |s.issued|
    ensures var x := s.sends[i];
      Apply(c, s, Publish(i)) ==
      s.(sends := s.sends[i := x.(published := true)],
         down := [Message(x.hub, [Tagged(OnWire(s.issued[x.first].request), x.first)])])
  {
    var x := s.sends[i];
    assert Envelope(s.issued, x.first, 1) == [Tagged(OnWire(s.issued[x.first].request), x.first)];
  }

  // ---------- A run that misleads the log ----------

  const AWAKE: N.Node := N.Node(None, 60, true)

  /** One hub and one node. */
  function Pair(c: Config, hub: HubId, node: NodeId): Net { Start(c, {hub}, map[node := AWAKE]) }

  /** Commands were asked for, each on its own, and nothing else has happened. */
  ghost predicate Asked(c: Config, hub: HubId, node: NodeId, s: Net) {
    && |s.sends| == |s.issued|
    && (forall k :: 0 <= k < |s.sends| ==> s.sends[k] == Send(s.issued[k].hub, k, 1, false, 0))
    && s.hubs == map[hub := NewHub(c)] && s.nodes == map[node := AWAKE]
    && s.down == [] && s.execs == [] && s.up == [] && s.rows == []
  }

  lemma NothingAsked(c: Config, hub: HubId, node: NodeId)
    ensures Asked(c, hub, node, Pair(c, hub, node))
  {
    assert Pair(c, hub, node).hubs == map[hub := NewHub(c)];
  }

  lemma AskOne(c: Config, hub: HubId, node: NodeId, run: seq<Action>, to: HubId, r: Request)
    returns (longer: seq<Action>)
    requires Run(c, Pair(c, hub, node), run).Some? && Asked(c, hub, node, Run(c, Pair(c, hub, node), run).value)
    ensures Run(c, Pair(c, hub, node), longer).Some? && (Automatic(run) && r.cmdId == 0 ==> Automatic(longer))
    ensures var s, t := Run(c, Pair(c, hub, node), run).value, Run(c, Pair(c, hub, node), longer).value;
      Asked(c, hub, node, t) && t.issued == s.issued + [Issued(to, Given(s.counter, r))]
  {
    var s := Run(c, Pair(c, hub, node), run).value;
    SubmitOne(c, s, to, r);
    longer, s := Step(c, Pair(c, hub, node), run, Submit(to, [r]));
  }

  lemma AskLast(c: Config, hub: HubId, node: NodeId, run: seq<Action>, x: Issued) returns (longer: seq<Action>)
    requires Run(c, Pair(c, hub, node), run).Some? && Asked(c, hub, node, Run(c, Pair(c, hub, node), run).value)
    requires x.request.cmdId != 0
    ensures Run(c, Pair(c, hub, node), longer).Some?
    ensures var s, t := Run(c, Pair(c, hub, node), run).value, Run(c, Pair(c, hub, node), longer).value;
      Asked(c, hub, node, t) && t.issued == s.issued + [x]
  {
    longer := AskOne(c, hub, node, run, x.hub, x.request);
  }

  /** Any history of ids can be asked for; here its first `n` commands. */
  lemma {:induction false} AskAll(c: Config, hub: HubId, node: NodeId, h: seq<Issued>, n: nat)
    returns (run: seq<Action>)
    requires n <= |h| && forall k :: 0 <= k < |h| ==> h[k].request.cmdId != 0
    ensures Run(c, Pair(c, hub, node), run).Some?
    ensures var s := Run(c, Pair(c, hub, node), run).value; Asked(c, hub, node, s) && s.issued == h[..n]
  {
    if n == 0 {
      run := [];
      NothingAsked(c, hub, node);
    } else {
      run := AskAll(c, hub, node, h, n - 1);
      assert h[..n] == h[..n - 1] + [h[n - 1]];
      run := AskLast(c, hub, node, run, h[n - 1]);
    }
  }

  /** The hub holding a command in its inbox sends it, and the node's answer arrives. */
  lemma Dispatched(c: Config, s: Net, hub: HubId, i: nat, r: Request) returns (a: Action)
    requires H.Sane(c.hub) && c.ackCap > 0 && Answerable(r) && WireId(r.cmdId) != 0
    requires s.hubs == map[hub := NewHub(c).(inbox := [Tagged(OnWire(r), i)])]
    requires s.nodes == map[r.target := AWAKE] && s.execs == []
    ensures Enabled(c, s, a) && a.HubStep?
    ensures var t := Apply(c, s, a);
      && t == s.(hubs := t.hubs, nodes := t.nodes, execs := t.execs)
      && |t.execs| == 1 && t.execs[0].origin == i
      && hub in t.hubs && t.hubs[hub].acks == [Ack(WireId(r.cmdId), true, 0)]
  {
    var command := OnWire(r);
    ReactionOk(AWAKE, command, true);
    a := HubStep(hub, H.Dispatch(command, true), Radio(true, true, true));
  }

  /** Command `i` was executed and its acknowledgement is on the way, but no row is saved. */
  ghost predicate Answered(s: Net, i: nat) {
    && i < |s.issued|
    && |s.execs| == 1 && s.execs[0].origin == i
    && s.up == [UpMessage(s.issued[i].hub, Ack(WireId(s.issued[i].request.cmdId), true, 0))]
    && s.rows == [] && s.down == []
  }

  lemma Delivered(c: Config, start: Net, run: seq<Action>, hub: HubId, i: nat) returns (longer: seq<Action>)
    requires Run(c, start, run).Some?
    requires var s := Run(c, start, run).value;
      i < |s.issued| && s.issued[i].hub == hub && Asked(c, hub, s.issued[i].request.target, s)
    ensures Run(c, start, longer).Some? && (Automatic(run) ==> Automatic(longer))
    ensures var s, t := Run(c, start, run).value, Run(c, start, longer).value;
      && t == s.(hubs := t.hubs, sends := t.sends)
      && t.sends == s.sends[i := Send(hub, i, 1, true, 0)]
      && t.hubs == map[hub := NewHub(c).(inbox := [Tagged(OnWire(s.issued[i].request), i)])]
  {
    var s := Run(c, start, run).value;
    PublishOne(c, s, i);
    longer, s := Step(c, start, run, Publish(i));
    longer, s := Step(c, start, longer, Deliver(0));
  }

  lemma Answer(c: Config, start: Net, run: seq<Action>, hub: HubId, i: nat) returns (longer: seq<Action>)
    requires H.Sane(c.hub) && c.ackCap > 0 && Run(c, start, run).Some?
    requires var s := Run(c, start, run).value;
      && i < |s.issued| && s.issued[i].hub == hub && Asked(c, hub, s.issued[i].request.target, s)
      && Answerable(s.issued[i].request) && WireId(s.issued[i].request.cmdId) != 0
    ensures Run(c, start, longer).Some? && (Automatic(run) ==> Automatic(longer))
    ensures var s, t := Run(c, start, run).value, Run(c, start, longer).value;
      && t.issued == s.issued && t.counter == s.counter && Answered(t, i)
      && t.sends == s.sends[i := Send(hub, i, 1, true, 0)]
  {
    var r := Run(c, start, run).value.issued[i].request;
    longer := Delivered(c, start, run, hub, i);
    var s := Run(c, start, longer).value;
    var a := Dispatched(c, s, hub, i, r);
    longer, s := Step(c, start, longer, a);
    longer, s := Step(c, start, longer, DrainAck(hub, true));
  }

  /** A row that is a success although no execution in the history is one of its command. */
  ghost predicate FalseSuccess(s: Net) {
    && |s.rows| > 0 && s.rows[0].row.status == Success
    && forall e :: e in s.execs ==> !ExecutedFor(s, s.rows[0], e)
  }

  /** Command `j` is published, lost on the way, and its row saved. */
  lemma LostAndSaved(c: Config, start: Net, run: seq<Action>, y: nat, j: nat) returns (longer: seq<Action>)
    requires Run(c, start, run).Some?
    requires var s := Run(c, start, run).value;
      && s.down == [] && s.rows == []
      && j < |s.issued| && y < |s.sends| && s.sends[y] == Send(s.issued[j].hub, j, 1, false, 0)
    ensures Run(c, start, longer).Some? && (Automatic(run) ==> Automatic(longer))
    ensures var s, t := Run(c, start, run).value, Run(c, start, longer).value;
      && t.issued == s.issued && t.execs == s.execs && t.up == s.up
      && t.rows == [LogRow(NewRow(s.issued[j].hub, s.issued[j].request), j, None)]
  {
    var s := Run(c, start, run).value;
    PublishOne(c, s, y);
    longer, s := Step(c, start, run, Publish(y));
    longer, s := Step(c, start, longer, LoseDown(0));
    longer, s := Step(c, start, longer, SaveRow(y));
  }

  lemma SettledFalsely(c: Config, s: Net, i: nat, j: nat)
    requires i < |s.issued| && j < |s.issued| && i != j && Confused(s.issued[i], s.issued[j])
    requires |s.execs| == 1 && s.execs[0].origin == i
    requires s.up == [UpMessage(s.issued[i].hub, Ack(WireId(s.issued[i].request.cmdId), true, 0))]
    requires s.rows == [LogRow(NewRow(s.issued[j].hub, s.issued[j].request), j, None)]
    ensures Enabled(c, s, ProcessAck(0, 0))
    ensures var t := Apply(c, s, ProcessAck(0, 0)); t.issued == s.issued && FalseSuccess(t)
  {
    var t := Apply(c, s, ProcessAck(0, 0));
    assert t.rows[0].row.status == Success && t.rows[0].origin == j;
  }

  /** The acknowledgement of command `i` settles the row of command `j`, which was never executed. */
  lemma Mislead(c: Config, start: Net, run: seq<Action>, y: nat, i: nat, j: nat) returns (longer: seq<Action>)
    requires Run(c, start, run).Some?
    requires var s := Run(c, start, run).value;
      && Answered(s, i) && i != j && j < |s.issued| && Confused(s.issued[i], s.issued[j])
      && y < |s.sends| && s.sends[y] == Send(s.issued[j].hub, j, 1, false, 0)
    ensures Run(c, start, longer).Some? && (Automatic(run) ==> Automatic(longer))
    ensures var s, t := Run(c, start, run).value, Run(c, start, longer).value;
      t.issued == s.issued && FalseSuccess(t)
  {
    longer := LostAndSaved(c, start, run, y, j);
    var s := Run(c, start, longer).value;
    SettledFalsely(c, s, i, j);
    longer, s := Step(c, start, longer, ProcessAck(0, 0));
  }

  /** From two commands with a confusable id, asked for but not sent, to a false success. */
  lemma AskedThenMisled(c: Config, start: Net, run: seq<Action>, i: nat, j: nat) returns (longer: seq<Action>)
    requires H.Sane(c.hub) && c.ackCap > 0 && Run(c, start, run).Some?
    requires var s := Run(c, start, run).value;
      && i < |s.issued| && j < |s.issued| && i != j && Confused(s.issued[i], s.issued[j])
      && s.issued[j].request.cmdId != 0
      && Asked(c, s.issued[i].hub, s.issued[i].request.target, s)
    ensures Run(c, start, longer).Some? && (Automatic(run) ==> Automatic(longer))
    ensures var s, t := Run(c, start, run).value, Run(c, start, longer).value;
      t.issued == s.issued && FalseSuccess(t)
  {
    longer := Answer(c, start, run, Run(c, start, run).value.issued[i].hub, i);
    longer := Mislead(c, start, longer, j, i, j);
  }

  // ---------- Which histories are safe ----------

  ghost predicate Reaches(c: Config, hubs: set<HubId>, nodes: map<NodeId, N.Node>, run: seq<Action>, h: seq<Issued>) {
    && Run(c, Start(c, hubs, nodes), run).Some?
    && Run(c, Start(c, hubs, nodes), run).value.issued == h
  }

  /** In every run that issues exactly these commands, every success goes back to an execution. */
  ghost predicate AlwaysTruthful(c: Config, h: seq<Issued>) {
    forall hubs, nodes, run :: Reaches(c, hubs, nodes, run, h) ==> Truthful(Run(c, Start(c, hubs, nodes), run).value)
  }

  /**
   * A list of issued commands is safe, in every run, exactly when none of them has the id that
   * another one for the same hub is acknowledged by. (The server never issues id 0.)
   */
  lemma TruthfulExactlyWhenUnambiguous(c: Config, h: seq<Issued>)
    requires H.Sane(c.hub) && c.ackCap > 0
    requires forall k :: 0 <= k < |h| ==> h[k].request.cmdId != 0
    ensures Unambiguous(h) <==> AlwaysTruthful(c, h)
  {
    if Unambiguous(h) {
      forall hubs, nodes, run | Reaches(c, hubs, nodes, run, h)
        ensures Truthful(Run(c, Start(c, hubs, nodes), run).value)
      {
        SuccessMeansExecuted(c, hubs, nodes, run);
      }
    } else {
      var i, j :| 0 <= i < |h| && 0 <= j < |h| && Confused(h[i], h[j]) && i != j;
      var hub, node := h[i].hub, h[i].request.target;
      var run := AskAll(c, hub, node, h, |h|);
      assert h[..|h|] == h;
      run := AskedThenMisled(c, Pair(c, hub, node), run, i, j);
      assert Reaches(c, {hub}, map[node := AWAKE], run, h);
      assert !Truthful(Run(c, Pair(c, hub, node), run).value);
    }
  }

  // ---------- Automatic ids ----------

  ghost predicate Numbered(s: Net) {
    && s.counter == IdAfter(0, |s.issued|)
    && forall k :: 0 <= k < |s.issued| ==> s.issued[k].request.cmdId == IdAfter(0, k + 1)
  }

  lemma SubmitNumbers(c: Config, s: Net, hub: HubId, rs: seq<Request>)
    requires Numbered(s) && forall k :: 0 <= k < |rs| ==> rs[k].cmdId == 0
    ensures Numbered(Apply(c, s, Submit(hub, rs)))
  {
    AssignAutomatic(s.counter, rs);
    IdAfterAdds(0, |s.issued|, |rs|);
    var s1 := Apply(c, s, Submit(hub, rs));
    forall k | 0 <= k < |s1.issued|
      ensures s1.issued[k].request.cmdId == IdAfter(0, k + 1)
    {
      if k >= |s.issued| {
        IdAfterAdds(0, |s.issued|, k - |s.issued| + 1);
      }
    }
  }

  lemma OthersKeepIds(c: Config, s: Net, a: Action)
    requires Enabled(c, s, a) && !a.Submit? && !a.RestartServer?
    ensures Apply(c, s, a).issued == s.issued && Apply(c, s, a).counter == s.counter
  {
  }

  lemma {:induction false} AutomaticIds(c: Config, start: Net, run: seq<Action>)
    requires start.counter == 0 && start.issued == []
    requires Run(c, start, run).Some? && Automatic(run)
    ensures Numbered(Run(c, start, run).value)
    decreases |run|
  {
    if run != [] {
      var front, a := run[..|run| - 1], run[|run| - 1];
      AutomaticIds(c, start, front);
      var s := Run(c, start, front).value;
      if a.Submit? {
        SubmitNumbers(c, s, a.hub, a.requests);
      } else {
        OthersKeepIds(c, s, a);
      }
    }
  }

  /** Numbered ids fit the 16-bit field and are never 0. */
  lemma NumberedFit(s: Net, k: nat)
    requires Numbered(s) && k < |s.issued|
    ensures WireId(s.issued[k].request.cmdId) == s.issued[k].request.cmdId == k % 65535 + 1
  {
    IdClosedForm(0, k + 1);
  }

  lemma NumberedUpToWrap(s: Net)
    requires Numbered(s) && |s.issued| <= 65535
    ensures Unambiguous(s.issued)
  {
    forall k | 0 <= k < |s.issued|
      ensures WireId(s.issued[k].request.cmdId) == s.issued[k].request.cmdId == k + 1
    {
      NumberedFit(s, k);
    }
  }

  /** In every run of automatic ids, they fit the 16-bit field, are never 0, and repeat after 65535. */
  lemma AutomaticIdsFit(c: Config, start: Net, run: seq<Action>, k: nat)
    requires start.counter == 0 && start.issued == []
    requires Run(c, start, run).Some? && Automatic(run) && k < |Run(c, start, run).value.issued|
    ensures var id := Run(c, start, run).value.issued[k].request.cmdId; WireId(id) == id == k % 65535 + 1
  {
    AutomaticIds(c, start, run);
    NumberedFit(Run(c, start, run).value, k);
  }

  const PING: Request := Request(Mac(1), TestKind, Fields(None, None, None, None), 0)

  lemma {:induction false} AskPings(c: Config, n: nat) returns (run: seq<Action>)
    ensures Run(c, Pair(c, 0, Mac(1)), run).Some? && Automatic(run)
    ensures var s := Run(c, Pair(c, 0, Mac(1)), run).value;
      && Asked(c, 0, Mac(1), s) && |s.issued| == n
      && forall k :: 0 <= k < n ==> s.issued[k] == Issued(0, PING.(cmdId := s.issued[k].request.cmdId))
  {
    if n == 0 {
      run := [];
      NothingAsked(c, 0, Mac(1));
    } else {
      run := AskPings(c, n - 1);
      run := AskOne(c, 0, Mac(1), run, 0, PING);
    }
  }

  /** When the first id comes round again, its acknowledgement can settle the wrong row. */
  lemma WrapMisleads(c: Config, n: nat, j: nat) returns (run: seq<Action>)
    requires H.Sane(c.hub) && c.ackCap > 0 && 0 < j < n && j % 65535 == 0
    ensures Run(c, Pair(c, 0, Mac(1)), run).Some? && Automatic(run)
    ensures var s := Run(c, Pair(c, 0, Mac(1)), run).value; |s.issued| == n && FalseSuccess(s)
  {
    run := AskPings(c, n);
    AutomaticIdsFit(c, Pair(c, 0, Mac(1)), run, 0);
    AutomaticIdsFit(c, Pair(c, 0, Mac(1)), run, j);
    run := AskedThenMisled(c, Pair(c, 0, Mac(1)), run, 0, j);
  }

  /** A run from the start that issues `n` commands, all with automatic ids. */
  ghost predicate Issues(c: Config, hubs: set<HubId>, nodes: map<NodeId, N.Node>, run: seq<Action>, n: nat) {
    && Automatic(run)
    && Run(c, Start(c, hubs, nodes), run).Some?
    && |Run(c, Start(c, hubs, nodes), run).value.issued| == n
  }

  /**
   * Exactly how many commands a server that hands out every id and is not restarted can issue with
   * a truthful log in every run: 65535.
   */
  lemma TruthfulExactlyUpToWrap(c: Config, n: nat)
    requires H.Sane(c.hub) && c.ackCap > 0
    ensures n <= 65535 <==> forall hubs, nodes, run :: Issues(c, hubs, nodes, run, n) ==>
      Truthful(Run(c, Start(c, hubs, nodes), run).value)
  {
    if n <= 65535 {
      forall hubs, nodes, run | Issues(c, hubs, nodes, run, n)
        ensures Truthful(Run(c, Start(c, hubs, nodes), run).value)
      {
        AutomaticIds(c, Start(c, hubs, nodes), run);
        NumberedUpToWrap(Run(c, Start(c, hubs, nodes), run).value);
        SuccessMeansExecuted(c, hubs, nodes, run);
      }
    } else {
      var run := WrapMisleads(c, n, 65535);
      assert Issues(c, {0}, map[Mac(1) := AWAKE], run, n);
      assert !Truthful(Run(c, Pair(c, 0, Mac(1)), run).value);
    }
  }

  /** A restart of the server starts the counter over: two commands are enough. */
  lemma RestartExample(c: Config) returns (run: seq<Action>)
    requires H.Sane(c.hub) && c.ackCap > 0
    ensures Run(c, Pair(c, 0, Mac(1)), run).Some?
    ensures var s := Run(c, Pair(c, 0, Mac(1)), run).value; |s.issued| == 2 && FalseSuccess(s)
  {
    var start := Pair(c, 0, Mac(1));
    run := AskPings(c, 1);
    AutomaticIdsFit(c, start, run, 0);
    run := Answer(c, start, run, 0, 0);
    var s;
    run, s := Step(c, start, run, RestartServer);
    SubmitOne(c, s, 0, PING);
    run, s := Step(c, start, run, Submit(0, [PING]));
    run := Mislead(c, start, run, 0, 0, 1);
  }
}
