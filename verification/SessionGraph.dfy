/** Nodes of one DAG run, and what each mutex section of a session does to them. */
module SessionGraph {
  import opened Common

  datatype Status = Held | Submitted | Succeeded | Failed

  datatype Node = Node(deps: seq<string>, status: Status)

  type Nodes = map<string, Node>

  predicate DepsSucceeded(nodes: Nodes, deps: seq<string>) {
    forall d :: d in deps ==> d in nodes && nodes[d].status == Succeeded
  }

  predicate IsReady(nodes: Nodes, id: string) {
    id in nodes && nodes[id].status == Held && DepsSucceeded(nodes, nodes[id].deps)
  }

  function Ready(nodes: Nodes): set<string> {
    set id | id in nodes && IsReady(nodes, id)
  }

  function WithStatus(nodes: Nodes, status: Status): set<string> {
    set id | id in nodes && nodes[id].status == status
  }

  function Report(nodes: Nodes, id: string, success: bool): Nodes {
    if id in nodes then nodes[id := nodes[id].(status := if success then Succeeded else Failed)] else nodes
  }

  function Mark(nodes: Nodes, id: string): Nodes {
    if id in nodes && nodes[id].status == Held then nodes[id := nodes[id].(status := Submitted)] else nodes
  }

  /** All held nodes of ids become submitted. */
  function MarkAll(nodes: Nodes, ids: set<string>): Nodes {
    map id | id in nodes :: if id in ids && nodes[id].status == Held then nodes[id].(status := Submitted) else nodes[id]
  }

  lemma MarkAllStep(nodes: Nodes, ids: set<string>, id: string)
    requires id in nodes
    ensures Mark(MarkAll(nodes, ids), id) == MarkAll(nodes, ids + {id})
  {}

  function Bit(nodes: Nodes, id: string, status: Status): nat {
    if id in nodes && nodes[id].status == status then 1 else 0
  }

  lemma StatusCountStep(nodes: Nodes, rest: set<string>, id: string, status: Status)
    requires id in rest && rest <= nodes.Keys
    ensures |WithStatus(nodes, status) - (rest - {id})| ==
            |WithStatus(nodes, status) - rest| + Bit(nodes, id, status)
  {
    var counted, more := WithStatus(nodes, status) - rest, WithStatus(nodes, status) - (rest - {id});
    if nodes[id].status == status {
      assert more == counted + {id} && id !in counted;
    } else {
      assert more == counted;
    }
  }

  /** Outside rest this many nodes are held, submitted, succeeded and failed. */
  ghost predicate Tallied(nodes: Nodes, rest: set<string>, held: nat, submitted: nat, succeeded: nat, failed: nat) {
    && held == |WithStatus(nodes, Held) - rest|
    && submitted == |WithStatus(nodes, Submitted) - rest|
    && succeeded == |WithStatus(nodes, Succeeded) - rest|
    && failed == |WithStatus(nodes, Failed) - rest|
  }

  lemma TallyGrows(nodes: Nodes, rest: set<string>, id: string, h: nat, u: nat, s: nat, f: nat)
    requires id in rest && rest <= nodes.Keys && Tallied(nodes, rest, h, u, s, f)
    ensures Tallied(nodes, rest - {id},
              h + Bit(nodes, id, Held), u + Bit(nodes, id, Submitted),
              s + Bit(nodes, id, Succeeded), f + Bit(nodes, id, Failed))
  {
    StatusCountStep(nodes, rest, id, Held);
    StatusCountStep(nodes, rest, id, Submitted);
    StatusCountStep(nodes, rest, id, Succeeded);
    StatusCountStep(nodes, rest, id, Failed);
  }

  lemma TallyStarts(nodes: Nodes)
    ensures Tallied(nodes, nodes.Keys, 0, 0, 0, 0)
  {
    forall st: Status ensures WithStatus(nodes, st) - nodes.Keys == {} {}
  }

  /** Same nodes, same dependencies; statuses may differ. */
  ghost predicate SameGraph(a: Nodes, b: Nodes) {
    a.Keys == b.Keys && forall id :: id in a ==> a[id].deps == b[id].deps
  }

  ghost predicate AllHeld(nodes: Nodes) {
    forall id :: id in nodes ==> nodes[id].status == Held
  }

  /** The four statuses share out the nodes, so the four counts add up to their number. */
  lemma CountsAddUp(nodes: Nodes)
    ensures |WithStatus(nodes, Held)| + |WithStatus(nodes, Submitted)| + |WithStatus(nodes, Succeeded)|
            + |WithStatus(nodes, Failed)| == |nodes|
  {
    var h, u, s, f := WithStatus(nodes, Held), WithStatus(nodes, Submitted),
      WithStatus(nodes, Succeeded), WithStatus(nodes, Failed);
    assert nodes.Keys == h + u + s + f;
    assert |h + u| == |h| + |u|;
    assert |h + u + s| == |h + u| + |s|;
    assert |h + u + s + f| == |h + u + s| + |f|;
  }

  lemma TallyEnds(nodes: Nodes, h: nat, u: nat, s: nat, f: nat)
    requires Tallied(nodes, {}, h, u, s, f)
    ensures h == |WithStatus(nodes, Held)| && u == |WithStatus(nodes, Submitted)|
    ensures s == |WithStatus(nodes, Succeeded)| && f == |WithStatus(nodes, Failed)|
    ensures h + u + s + f == |nodes|
  {
    forall st: Status ensures WithStatus(nodes, st) - {} == WithStatus(nodes, st) {}
    CountsAddUp(nodes);
  }

  // The record of Submit calls of a session whose calls do not overlap.

  datatype Attempt = Attempt(node: string, ok: bool)

  function Calls(batch: seq<string>, refused: set<string>): seq<Attempt> {
    seq(|batch|, i requires 0 <= i < |batch| => Attempt(batch[i], batch[i] !in refused))
  }

  lemma CallsStep(batch: seq<string>, i: nat, refused: set<string>)
    requires i < |batch|
    ensures Calls(batch[..i + 1], refused) == Calls(batch[..i], refused) + [Attempt(batch[i], batch[i] !in refused)]
    ensures Elements(batch[..i + 1]) == Elements(batch[..i]) + {batch[i]}
  {
    assert batch[..i + 1] == batch[..i] + [batch[i]];
  }

  ghost predicate Attempted(log: seq<Attempt>, id: string) {
    exists k :: 0 <= k < |log| && log[k].node == id
  }

  /** A node is submitted again only after an attempt that was refused: an accepted one is last. */
  ghost predicate OnlyRefusedRetried(log: seq<Attempt>) {
    forall i, j :: 0 <= i < j < |log| && log[i].node == log[j].node ==> !log[i].ok
  }

  ghost predicate LogMatches(nodes: Nodes, log: seq<Attempt>) {
    && OnlyRefusedRetried(log)
    && (forall k :: 0 <= k < |log| ==> log[k].node in nodes)
    && (forall k :: 0 <= k < |log| && log[k].ok ==> nodes[log[k].node].status != Held)
    && (forall id :: id in nodes && nodes[id].status == Submitted ==> Attempted(log, id))
  }

  /** Every call comes after calls for all the dependencies of its node: the first submissions
      are a linear extension of the dependency order. */
  ghost predicate LinearExtension(nodes: Nodes, log: seq<Attempt>) {
    && (forall id :: id in nodes && nodes[id].status == Succeeded ==> Attempted(log, id))
    && (forall k :: 0 <= k < |log| && log[k].node in nodes ==>
          forall d :: d in nodes[log[k].node].deps ==> d in nodes && Attempted(log[..k], d))
  }

  lemma ReportKeepsLog(nodes: Nodes, log: seq<Attempt>, id: string, success: bool)
    requires LogMatches(nodes, log)
    ensures LogMatches(Report(nodes, id, success), log)
    ensures LinearExtension(nodes, log) && Attempted(log, id) ==> LinearExtension(Report(nodes, id, success), log)
  {}

  /** Submitting a batch of ready nodes to its end keeps both. */
  lemma BatchKeepsLog(nodes: Nodes, log: seq<Attempt>, batch: seq<string>, refused: set<string>)
    requires LogMatches(nodes, log) && IsOrderingOf(batch, Ready(nodes))
    ensures LogMatches(MarkAll(nodes, Ready(nodes) - refused), log + Calls(batch, refused))
  {
    var nodes', log' := MarkAll(nodes, Ready(nodes) - refused), log + Calls(batch, refused);
    forall k | |log| <= k < |log'|
      ensures log'[k].node in Ready(nodes) && log'[k].node == batch[k - |log|]
    {
      assert batch[k - |log|] in batch;
      OrderingMembers(batch, Ready(nodes), batch[k - |log|]);
    }
    forall id | id in nodes' && nodes'[id].status == Submitted
      ensures Attempted(log', id)
    {
      if nodes[id].status == Submitted {
        var k :| 0 <= k < |log| && log[k].node == id;
        assert log'[k].node == id;
      } else {
        OrderingMembers(batch, Ready(nodes), id);
        var k :| 0 <= k < |batch| && batch[k] == id;
        assert log'[|log| + k].node == id;
      }
    }
  }

  lemma BatchKeepsOrder(nodes: Nodes, log: seq<Attempt>, batch: seq<string>, refused: set<string>)
    requires LinearExtension(nodes, log) && IsOrderingOf(batch, Ready(nodes))
    ensures LinearExtension(MarkAll(nodes, Ready(nodes) - refused), log + Calls(batch, refused))
  {
    var log' := log + Calls(batch, refused);
    forall id | Attempted(log, id) ensures Attempted(log', id) {
      var k :| 0 <= k < |log| && log[k].node == id;
      assert log'[k].node == id;
    }
    forall k, d | 0 <= k < |log'| && log'[k].node in nodes && d in nodes[log'[k].node].deps
      ensures d in nodes && Attempted(log'[..k], d)
    {
      if k < |log| {
        assert log'[..k] == log[..k];
      } else {
        assert batch[k - |log|] in batch;
        OrderingMembers(batch, Ready(nodes), batch[k - |log|]);
        assert Attempted(log, d);
        var j :| 0 <= j < |log| && log[j].node == d;
        assert log'[..k][j].node == d;
      }
    }
  }
}
