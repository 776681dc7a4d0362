/** The nodes of the relay: each is what its own history of writes, boots and sleeps makes of it. */
module EndToEndNodes {
  import opened Types
  import opened Packets
  import opened EndToEnd
  import opened EndToEndSafety
  import H = HubMachine
  import N = NodeState

  /** What a step means to node `n`: nothing, its own event, or a write that it received. */
  ghost function EventsOf(c: Config, s: Net, a: Action, n: NodeId): seq<N.Event>
    requires Enabled(c, s, a)
  {
    match a
    case NodeEvent(node, event) => if node == n then [event] else []
    case HubStep(h, step, radio) =>
      if radio.received && Attempted(s.hubs[h], step).value.cmd.target == n then
        [N.Write(Encode(PacketFor(Attempted(s.hubs[h], step).value.cmd).value), radio.connected)]
      else []
    case _ => []
  }

  ghost function History(c: Config, start: Net, run: seq<Action>, n: NodeId): seq<N.Event>
    requires Run(c, start, run).Some?
    decreases |run|
  {
    if run == [] then []
    else
      var front := run[..|run| - 1];
      History(c, start, front, n) + EventsOf(c, Run(c, start, front).value, run[|run| - 1], n)
  }

  lemma LiveOn(n: N.Node, es: seq<N.Event>, more: seq<N.Event>)
    requires |more| <= 1
    ensures N.Live(n, es + more) == if more == [] then N.Live(n, es) else N.Apply(N.Live(n, es), more[0])
  {
    if more == [] {
      assert es + more == es;
    } else {
      assert (es + more)[..|es + more| - 1] == es;
    }
  }

  lemma StepOnNode(c: Config, s: Net, a: Action, n: NodeId)
    requires Enabled(c, s, a) && n in s.nodes
    ensures var s1, es := Apply(c, s, a), EventsOf(c, s, a, n);
      && s1.nodes.Keys == s.nodes.Keys && |es| <= 1
      && s1.nodes[n] == if es == [] then s.nodes[n] else N.Apply(s.nodes[n], es[0])
  {
    if a.HubStep? && a.radio.received {
      var t := Attempted(s.hubs[a.h], a.step).value;
      WritesAreFaithful(t.cmd);
    }
  }

  /**
   * In every run each node is what its own events make of it, one after the other, and no step of
   * the relay touches it in any other way; so what is proved of a node's life holds in the relay.
   */
  lemma {:induction false} NodeFollowsItsHistory(c: Config, start: Net, run: seq<Action>, n: NodeId)
    requires Run(c, start, run).Some? && n in start.nodes
    ensures n in Run(c, start, run).value.nodes
    ensures Run(c, start, run).value.nodes[n] == N.Live(start.nodes[n], History(c, start, run, n))
    decreases |run|
  {
    if run != [] {
      var front, a := run[..|run| - 1], run[|run| - 1];
      NodeFollowsItsHistory(c, start, front, n);
      var s := Run(c, start, front).value;
      StepOnNode(c, s, a, n);
      LiveOn(start.nodes[n], History(c, start, front, n), EventsOf(c, s, a, n));
    }
  }
}
