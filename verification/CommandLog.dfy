/** The server's command ids and the table of command log rows. */
module CommandLog {
  import opened Types

  /** Hubs are told apart by name only. */
  type HubId = nat

  /** A command as a client submits it; id 0 asks for an automatic one. */
  datatype Request = Request(target: NodeId, kind: Kind, payload: Payload, cmdId: int)

  datatype Status = Pending | Success | Fail

  datatype Row = Row(request: Request, hub: HubId, status: Status, ackedAt: Option<nat>)

  function NewRow(hub: HubId, r: Request): Row { Row(r, hub, Pending, None) }

  // ---------- Ids ----------

  function NextId(counter: nat): (id: nat)
    ensures 1 <= id <= 65535
  {
    counter % 65535 + 1
  }

  /** The counter after `k` automatic ids; for `k > 0` also the k-th id handed out. */
  function IdAfter(counter: nat, k: nat): nat {
    if k == 0 then counter else NextId(IdAfter(counter, k - 1))
  }

  lemma NextOfNext(x: nat)
    ensures NextId(NextId(x)) == NextId(x + 1)
  {
    var q, r := x / 65535, x % 65535;
    assert x == 65535 * q + r;
    if r == 65534 {
      assert x + 1 == 65535 * (q + 1);
    } else {
      assert x + 1 == 65535 * q + (r + 1);
    }
  }

  lemma {:induction false} IdClosedForm(counter: nat, k: nat)
    requires k > 0
    ensures IdAfter(counter, k) == (counter + k - 1) % 65535 + 1
  {
    if k > 1 {
      IdClosedForm(counter, k - 1);
      NextOfNext(counter + k - 2);
    }
  }

  lemma {:induction false} IdAfterAdds(counter: nat, n: nat, k: nat)
    ensures IdAfter(IdAfter(counter, n), k) == IdAfter(counter, n + k)
  {
    if k > 0 {
      IdAfterAdds(counter, n, k - 1);
    }
  }

  lemma SameResidue(a: nat, b: nat)
    requires a <= b
    ensures a % 65535 == b % 65535 <==> (b - a) % 65535 == 0
  {
    var p, q := a / 65535, b / 65535;
    var d := b % 65535 - a % 65535;
    assert b - a == 65535 * (q - p) + d;
    if d < 0 {
      assert b - a == 65535 * (q - p - 1) + (d + 65535);
    }
  }

  /** Ids repeat with period 65535 exactly: closer ones differ, and the wrap reuses every id. */
  lemma IdsRepeatWithPeriod(counter: nat, i: nat, j: nat)
    requires 0 < i <= j
    ensures IdAfter(counter, i) == IdAfter(counter, j) <==> (j - i) % 65535 == 0
  {
    IdClosedForm(counter, i);
    IdClosedForm(counter, j);
    SameResidue(counter + i - 1, counter + j - 1);
  }

  lemma {:induction false} FirstIds(k: nat)
    requires k <= 65535
    ensures IdAfter(0, k) == k
  {
    if k > 0 {
      FirstIds(k - 1);
    }
  }

  /** Ids given to a list of requests, and the counter afterwards. */
  function AssignIds(counter: nat, rs: seq<Request>): (seq<Request>, nat) {
    if rs == [] then ([], counter)
    else
      var (front, c) := AssignIds(counter, rs[..|rs| - 1]);
      var r := rs[|rs| - 1];
      if r.cmdId == 0 then (front + [r.(cmdId := NextId(c))], NextId(c)) else (front + [r], c)
  }

  lemma {:induction false} AssignKeepsRequests(counter: nat, rs: seq<Request>)
    ensures |AssignIds(counter, rs).0| == |rs|
    ensures forall k :: 0 <= k < |rs| ==>
      AssignIds(counter, rs).0[k] == rs[k].(cmdId := AssignIds(counter, rs).0[k].cmdId)
    ensures forall k :: 0 <= k < |rs| && rs[k].cmdId != 0 ==> AssignIds(counter, rs).0[k] == rs[k]
    ensures forall k :: 0 <= k < |rs| ==> AssignIds(counter, rs).0[k].cmdId != 0
  {
    if rs != [] {
      AssignKeepsRequests(counter, rs[..|rs| - 1]);
    }
  }

  /** When all ids are automatic, the k-th command gets the k-th id. */
  lemma {:induction false} AssignAutomatic(counter: nat, rs: seq<Request>)
    requires forall k :: 0 <= k < |rs| ==> rs[k].cmdId == 0
    ensures |AssignIds(counter, rs).0| == |rs|
    ensures AssignIds(counter, rs).1 == IdAfter(counter, |rs|)
    ensures forall k :: 0 <= k < |rs| ==> AssignIds(counter, rs).0[k].cmdId == IdAfter(counter, k + 1)
  {
    if rs != [] {
      AssignAutomatic(counter, rs[..|rs| - 1]);
    }
  }

  // ---------- Acknowledgements ----------

  predicate Matches(r: Row, hub: HubId, id: int) {
    r.hub == hub && r.request.cmdId == id && r.status == Pending
  }

  function Settle(r: Row, success: bool, now: nat): Row {
    r.(status := if success then Success else Fail, ackedAt := Some(now))
  }

  /** The filtered UPDATE of one acknowledgement. */
  function AckRows(rows: seq<Row>, hub: HubId, id: int, success: bool, now: nat): (r: seq<Row>)
    ensures |r| == |rows|
    ensures forall k :: 0 <= k < |rows| ==>
      r[k] == if Matches(rows[k], hub, id) then Settle(rows[k], success, now) else rows[k]
  {
    seq(|rows|, k requires 0 <= k < |rows| =>
      if Matches(rows[k], hub, id) then Settle(rows[k], success, now) else rows[k])
  }

  // ---------- The objects ----------

  class SqliteRepository {
    var rows: seq<Row>

    constructor ()
      ensures rows == []
    {
      rows := [];
    }

    method SaveCommandLog(r: Row)
      modifies this
      ensures rows == old(rows) + [r]
    {
      rows := rows + [r];
    }

    /** UPDATE ... WHERE hub_id = ? AND cmd_id = ? AND status = 'pending', row by row. */
    method UpdateCommandAck(hub: HubId, id: int, success: bool, now: nat)
      modifies this
      ensures |rows| == |old(rows)|
      ensures forall k :: 0 <= k < |rows| ==>
        var r := old(rows)[k];
        if r.hub == hub && r.request.cmdId == id && r.status == Pending
        then rows[k] == Row(r.request, r.hub, if success then Success else Fail, Some(now))
        else rows[k] == r
      ensures rows == AckRows(old(rows), hub, id, success, now)
    {
      for i := 0 to |rows|
        invariant |rows| == |old(rows)|
        invariant forall k :: 0 <= k < i ==> rows[k] == AckRows(old(rows), hub, id, success, now)[k]
        invariant forall k :: i <= k < |rows| ==> rows[k] == old(rows)[k]
      {
        var r := rows[i];
        if r.hub == hub && r.request.cmdId == id && r.status == Pending {
          rows := rows[i := r.(status := if success then Success else Fail, ackedAt := Some(now))];
        }
      }
    }
  }

  function NewRows(hub: HubId, rs: seq<Request>): (r: seq<Row>)
    ensures |r| == |rs| && forall k :: 0 <= k < |rs| ==> r[k] == Row(rs[k], hub, Pending, None)
  {
    seq(|rs|, k requires 0 <= k < |rs| => NewRow(hub, rs[k]))
  }

  class SensorService {
    const repo: SqliteRepository
    var cmdIdCounter: nat

    constructor (repo: SqliteRepository)
      ensures this.repo == repo && cmdIdCounter == 0
    {
      this.repo, cmdIdCounter := repo, 0;
    }

    method NextCmdId() returns (id: nat)
      modifies this
      ensures id == cmdIdCounter == NextId(old(cmdIdCounter))
    {
      cmdIdCounter := (cmdIdCounter % 65535) + 1;
      return cmdIdCounter;
    }

    /** Ids are filled into the caller's list; rows are saved only after a publish that succeeds. */
    method SendCommand(hub: HubId, commands: array<Request>, published: bool)
      modifies this, repo, commands
      ensures (commands[..], cmdIdCounter) == AssignIds(old(cmdIdCounter), old(commands[..]))
      ensures repo.rows == old(repo.rows) + if published then NewRows(hub, commands[..]) else []
    {
      ghost var submitted := commands[..];
      for i := 0 to commands.Length
        invariant (commands[..i], cmdIdCounter) == AssignIds(old(cmdIdCounter), submitted[..i])
        invariant commands[i..] == submitted[i..]
        invariant repo.rows == old(repo.rows)
      {
        assert submitted[..i + 1][..i] == submitted[..i] && commands[i] == submitted[i..][0];
        if commands[i].cmdId == 0 {
          var id := NextCmdId();
          commands[i] := commands[i].(cmdId := id);
        }
        assert commands[..i + 1] == commands[..i] + [commands[i]];
        assert commands[i + 1..] == submitted[i..][1..];
      }
      assert submitted[..commands.Length] == submitted && commands[..commands.Length] == commands[..];
      if !published {
        return;
      }
      for i := 0 to commands.Length
        invariant repo.rows == old(repo.rows) + NewRows(hub, commands[..i])
        invariant (commands[..], cmdIdCounter) == AssignIds(old(cmdIdCounter), submitted)
      {
        repo.SaveCommandLog(NewRow(hub, commands[i]));
        assert NewRows(hub, commands[..i + 1]) == NewRows(hub, commands[..i]) + [NewRow(hub, commands[i])];
      }
    }

    method ProcessAck(hub: HubId, id: int, success: bool, now: nat)
      modifies repo
      ensures repo.rows == AckRows(old(repo.rows), hub, id, success, now)
    {
      repo.UpdateCommandAck(hub, id, success, now);
    }
  }

  // ---------- The log against its history ----------

  datatype Event = Saved(hub: HubId, request: Request) | Acked(hub: HubId, id: int, success: bool, at: nat)

  function Replay(es: seq<Event>): seq<Row> {
    if es == [] then []
    else
      var rows := Replay(es[..|es| - 1]);
      match es[|es| - 1]
      case Saved(hub, r) => rows + [NewRow(hub, r)]
      case Acked(hub, id, success, at) => AckRows(rows, hub, id, success, at)
  }

  /** The first acknowledgement in `es` for a hub and id. */
  function FirstAck(es: seq<Event>, hub: HubId, id: int): Option<Event> {
    if es == [] then None
    else if es[0].Acked? && es[0].hub == hub && es[0].id == id then Some(es[0])
    else FirstAck(es[1..], hub, id)
  }

  lemma {:induction false} FirstAckAppend(es: seq<Event>, e: Event, hub: HubId, id: int)
    ensures FirstAck(es + [e], hub, id) ==
      if FirstAck(es, hub, id).Some? then FirstAck(es, hub, id)
      else if e.Acked? && e.hub == hub && e.id == id then Some(e) else None
    ensures FirstAck(es, hub, id).Some? ==> FirstAck(es, hub, id).value.Acked?
  {
    if es != [] {
      assert (es + [e])[1..] == es[1..] + [e];
      FirstAckAppend(es[1..], e, hub, id);
    }
  }

  /** The row saved at event `p`, as the acknowledgements after `p` leave it. */
  function Expected(es: seq<Event>, p: nat): Row
    requires p < |es| && es[p].Saved?
  {
    var hub, r := es[p].hub, es[p].request;
    match FirstAck(es[p + 1..], hub, r.cmdId)
    case None => Row(r, hub, Pending, None)
    case Some(a) =>
      if a.Acked? then Row(r, hub, if a.success then Success else Fail, Some(a.at)) else Row(r, hub, Pending, None)
  }

  lemma FrontSlices(es: seq<Event>, p: nat)
    requires p + 1 < |es|
    ensures var front := es[..|es| - 1];
      front[..p] == es[..p] && es[p + 1..] == front[p + 1..] + [es[|es| - 1]]
  {
  }

  /**
   * A row's status and time are those of the first acknowledgement of its hub and id that comes
   * after it was saved, and pending if there is none. So a settled row never changes, a repeated
   * acknowledgement does nothing, and one that comes before its row is lost on it.
   */
  lemma {:induction false} RowFollowsFirstAck(es: seq<Event>, p: nat)
    requires p < |es| && es[p].Saved?
    ensures |Replay(es[..p])| < |Replay(es)|
    ensures Replay(es)[|Replay(es[..p])|] == Expected(es, p)
  {
    var front, e := es[..|es| - 1], es[|es| - 1];
    if p < |es| - 1 {
      FrontSlices(es, p);
      RowFollowsFirstAck(front, p);
      FirstAckAppend(front[p + 1..], e, es[p].hub, es[p].request.cmdId);
    }
  }

  /** Every row comes from a save: the rows are the saves, in order. */
  lemma {:induction false} RowsAreTheSaves(es: seq<Event>, k: nat) returns (p: nat)
    requires k < |Replay(es)|
    ensures p < |es| && es[p].Saved? && |Replay(es[..p])| == k
  {
    var front := es[..|es| - 1];
    if k < |Replay(front)| {
      p := RowsAreTheSaves(front, k);
      FrontSlices(es, p);
    } else {
      p := |es| - 1;
    }
  }

  // ---------- Automatic ids in the log ----------

  /** What clients and hubs ask of the service. */
  datatype Call =
    | Order(hub: HubId, requests: seq<Request>, published: bool)
    | Reply(hub: HubId, id: int, success: bool, at: nat)

  /** The log and the counter of a fresh service after some calls. */
  function Serve(calls: seq<Call>): (seq<Row>, nat) {
    if calls == [] then ([], 0)
    else
      var (rows, counter) := Serve(calls[..|calls| - 1]);
      match calls[|calls| - 1]
      case Order(hub, rs, published) =>
        var (given, next) := AssignIds(counter, rs);
        (rows + if published then NewRows(hub, given) else [], next)
      case Reply(hub, id, success, at) => (AckRows(rows, hub, id, success, at), counter)
  }

  /** The number of commands ordered. */
  function Ordered(calls: seq<Call>): nat {
    if calls == [] then 0
    else
      var last := calls[|calls| - 1];
      Ordered(calls[..|calls| - 1]) + if last.Order? then |last.requests| else 0
  }

  predicate AllAutomatic(calls: seq<Call>) {
    forall i, k :: 0 <= i < |calls| && calls[i].Order? && 0 <= k < |calls[i].requests| ==>
      calls[i].requests[k].cmdId == 0
  }

  /** Row k has the `nth[k]`-th of the first `n` ids, and later rows have later ids. */
  ghost predicate Numbering(rows: seq<Row>, nth: seq<nat>, n: nat) {
    && |nth| == |rows|
    && (forall k :: 0 <= k < |rows| ==> 0 < nth[k] <= n && rows[k].request.cmdId == IdAfter(0, nth[k]))
    && forall a, b :: 0 <= a < b < |rows| ==> nth[a] < nth[b]
  }

  lemma NumberMore(rows: seq<Row>, nth: seq<nat>, n: nat, hub: HubId, rs: seq<Request>) returns (more: seq<nat>)
    requires Numbering(rows, nth, n) && forall k :: 0 <= k < |rs| ==> rs[k].cmdId == 0
    ensures Numbering(rows + NewRows(hub, AssignIds(IdAfter(0, n), rs).0), more, n + |rs|)
  {
    AssignAutomatic(IdAfter(0, n), rs);
    more := nth + seq(|rs|, k => n + k + 1);
    forall k | 0 <= k < |rs|
      ensures AssignIds(IdAfter(0, n), rs).0[k].cmdId == IdAfter(0, n + k + 1)
    {
      IdAfterAdds(0, n, k + 1);
    }
  }

  lemma {:induction false} ServeNumbers(calls: seq<Call>) returns (nth: seq<nat>)
    requires AllAutomatic(calls)
    ensures Serve(calls).1 == IdAfter(0, Ordered(calls))
    ensures Numbering(Serve(calls).0, nth, Ordered(calls))
  {
    nth := [];
    if calls != [] {
      var front, last := calls[..|calls| - 1], calls[|calls| - 1];
      nth := ServeNumbers(front);
      if last.Order? {
        AssignAutomatic(Serve(front).1, last.requests);
        IdAfterAdds(0, Ordered(front), |last.requests|);
        if last.published {
          nth := NumberMore(Serve(front).0, nth, Ordered(front), last.hub, last.requests);
        }
      }
    }
  }

  /**
   * From an empty log on, while at most 65535 commands were ordered, all with automatic ids, an
   * acknowledgement settles at most one row: two rows that it changes are the same one.
   */
  lemma AckSettlesAtMostOne(calls: seq<Call>, hub: HubId, id: int, success: bool, now: nat, i: nat, j: nat)
    requires AllAutomatic(calls) && Ordered(calls) <= 65535
    requires var rows := Serve(calls).0;
      && i < |rows| && AckRows(rows, hub, id, success, now)[i] != rows[i]
      && j < |rows| && AckRows(rows, hub, id, success, now)[j] != rows[j]
    ensures i == j
  {
    var nth := ServeNumbers(calls);
    if i != j {
      var a, b := if i < j then i else j, if i < j then j else i;
      FirstIds(nth[a]);
      FirstIds(nth[b]);
    }
  }
}
