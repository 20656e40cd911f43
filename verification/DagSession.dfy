/** DagSession as an object, each call of Start and NodeDone returning before the next begins. */
module DagSession {
  import opened Common
  import opened SessionGraph

  datatype SessionError = UnknownNode(id: string) | SubmitFailed(node: string)

  /** The error of a batch: of some refused node of it, and none exactly if there is no such node. */
  predicate FirstErrorOf(err: Option<SessionError>, batch: seq<string>, refused: set<string>) {
    && (err.None? <==> Elements(batch) !! refused)
    && (err.Some? ==> err.value.SubmitFailed? && err.value.node in batch && err.value.node in refused)
  }

  /** The error after one more call. */
  function ErrorAfter(err: Option<SessionError>, id: string, refused: set<string>): Option<SessionError> {
    if id in refused && err.None? then Some(SubmitFailed(id)) else err
  }

  /** Where nodes, log and error stand after the first i calls of a batch. */
  ghost predicate BatchDone(start: Nodes, log: seq<Attempt>, batch: seq<string>, refused: set<string>, i: int,
                            nodes: Nodes, attempts: seq<Attempt>, err: Option<SessionError>)
  {
    && 0 <= i <= |batch|
    && nodes == MarkAll(start, Elements(batch[..i]) - refused)
    && attempts == log + Calls(batch[..i], refused)
    && FirstErrorOf(err, batch[..i], refused)
  }

  lemma BatchBegins(start: Nodes, log: seq<Attempt>, batch: seq<string>, refused: set<string>)
    ensures BatchDone(start, log, batch, refused, 0, start, log, None)
  {
    assert batch[..0] == [];
    assert MarkAll(start, {}) == start;
    assert Elements(batch[..0]) - refused == {};
  }

  lemma FirstErrorGrows(err: Option<SessionError>, batch: seq<string>, refused: set<string>, i: nat)
    requires i < |batch| && FirstErrorOf(err, batch[..i], refused)
    ensures FirstErrorOf(ErrorAfter(err, batch[i], refused), batch[..i + 1], refused)
  {
    CallsStep(batch, i, refused);
    assert batch[..i + 1] == batch[..i] + [batch[i]];
  }

  lemma MarkGrows(nodes: Nodes, start: Nodes, batch: seq<string>, refused: set<string>, i: nat)
    requires i < |batch| && batch[i] in start
    requires nodes == MarkAll(start, Elements(batch[..i]) - refused)
    ensures (if batch[i] in refused then nodes else Mark(nodes, batch[i]))
         == MarkAll(start, Elements(batch[..i + 1]) - refused)
  {
    var accepted := Elements(batch[..i]) - refused;
    CallsStep(batch, i, refused);
    MarkAllStep(start, accepted, batch[i]);
    assert Elements(batch[..i + 1]) - refused == if batch[i] in refused then accepted else accepted + {batch[i]};
  }

  lemma OneMoreCall(start: Nodes, log: seq<Attempt>, batch: seq<string>, refused: set<string>, i: nat,
                    nodes: Nodes, attempts: seq<Attempt>, err: Option<SessionError>)
    requires i < |batch| && Elements(batch) <= start.Keys && BatchDone(start, log, batch, refused, i, nodes, attempts, err)
    ensures batch[i] in nodes
    ensures BatchDone(start, log, batch, refused, i + 1,
              if batch[i] in refused then nodes else Mark(nodes, batch[i]),
              attempts + [Attempt(batch[i], batch[i] !in refused)],
              ErrorAfter(err, batch[i], refused))
  {
    assert batch[i] in Elements(batch);
    MarkGrows(nodes, start, batch, refused, i);
    FirstErrorGrows(err, batch, refused, i);
    CallsStep(batch, i, refused);
  }

  lemma NothingToMark(nodes: Nodes, log: seq<Attempt>, refused: set<string>)
    ensures MarkAll(nodes, Elements([]) - refused) == nodes == MarkAll(nodes, {} - refused)
    ensures log + Calls([], refused) == log
  {}

  class DagSession {
    var nodes: Nodes
    /** Every call made to the submitter so far, and whether it returned nil. */
    ghost var attempts: seq<Attempt>

    ghost predicate Valid()
      reads this
    {
      LogMatches(nodes, attempts)
    }

    ghost predicate Orderly()
      reads this
    {
      LinearExtension(nodes, attempts)
    }

    constructor ()
      ensures Valid() && Orderly() && nodes == map[] && attempts == []
    {
      nodes := map[];
      attempts := [];
    }

    /** Must be called before Start. */
    method AddNode(id: string, deps: seq<string>)
      requires Valid() && attempts == []
      modifies this
      ensures Valid() && nodes == old(nodes)[id := Node(deps, Held)] && attempts == []
      ensures old(Orderly()) ==> Orderly()
    {
      nodes := nodes[id := Node(deps, Held)];
    }

    method AllDepsSucceeded(n: Node) returns (all: bool)
      ensures all == DepsSucceeded(nodes, n.deps)
    {
      for i := 0 to |n.deps|
        invariant DepsSucceeded(nodes, n.deps[..i])
      {
        var d := n.deps[i];
        if d !in nodes || nodes[d].status != Succeeded {
          assert d in n.deps;
          return false;
        }
      }
      assert n.deps[..|n.deps|] == n.deps;
      return true;
    }

    /** The order of the result is the map's iteration order: any. */
    method CollectReady() returns (ready: seq<string>)
      ensures IsOrderingOf(ready, Ready(nodes))
    {
      ready := [];
      var rest := nodes.Keys;
      while rest != {}
        invariant rest <= nodes.Keys
        invariant IsOrderingOf(ready, Ready(nodes) - rest)
        decreases rest
      {
        var id :| id in rest;
        ghost var before := ready;
        if nodes[id].status == Held {
          var all := AllDepsSucceeded(nodes[id]);
          if all {
            ready := ready + [id];
            assert Elements(ready) == Elements(before) + {id};
          }
        }
        assert Ready(nodes) - (rest - {id}) == Ready(nodes) - rest + (if IsReady(nodes, id) then {id} else {});
        rest := rest - {id};
      }
      assert Ready(nodes) - rest == Ready(nodes);
    }

    /** One goroutine: the call of Submit, which returns nil if ok, then the mark under the mutex. */
    method SubmitOne(id: string, ok: bool)
      requires id in nodes
      modifies this
      ensures nodes == if ok then Mark(old(nodes), id) else old(nodes)
      ensures attempts == old(attempts) + [Attempt(id, ok)]
    {
      attempts := attempts + [Attempt(id, ok)];
      if ok && nodes[id].status == Held {
        nodes := nodes[id := nodes[id].(status := Submitted)];
      }
    }

    /** One goroutine per node, all finished on return. They touch different nodes, so their
        order does not show. refused: the nodes whose Submit returns an error this time. */
    method SubmitBatch(batch: seq<string>, refused: set<string>) returns (err: Option<SessionError>)
      requires Elements(batch) <= nodes.Keys
      modifies this
      ensures nodes == MarkAll(old(nodes), Elements(batch) - refused)
      ensures attempts == old(attempts) + Calls(batch, refused)
      ensures FirstErrorOf(err, batch, refused)
    {
      err := None;
      ghost var start, log := nodes, attempts;
      BatchBegins(start, log, batch, refused);
      for i := 0 to |batch|
        invariant BatchDone(start, log, batch, refused, i, nodes, attempts, err)
      {
        var id := batch[i];
        OneMoreCall(start, log, batch, refused, i, nodes, attempts, err);
        SubmitOne(id, id !in refused);
        if id in refused && err.None? { err := Some(SubmitFailed(id)); }
      }
      assert batch[..|batch|] == batch;
    }

    /** What Start does, and NodeDone after a success: collect under the mutex, then submit. */
    method SubmitReady(refused: set<string>) returns (err: Option<SessionError>, ghost batch: seq<string>)
      requires Valid()
      modifies this
      ensures Valid() && (old(Orderly()) ==> Orderly())
      ensures IsOrderingOf(batch, Ready(old(nodes)))
      ensures attempts == old(attempts) + Calls(batch, refused)
      ensures nodes == MarkAll(old(nodes), Ready(old(nodes)) - refused)
      ensures err.None? <==> Ready(old(nodes)) !! refused
      ensures err.Some? ==> err.value.SubmitFailed? && err.value.node in batch && err.value.node in refused
    {
      var ready := CollectReady();
      batch := ready;
      BatchKeepsLog(nodes, attempts, ready, refused);
      if LinearExtension(nodes, attempts) { BatchKeepsOrder(nodes, attempts, ready, refused); }
      err := SubmitBatch(ready, refused);
    }

    method Start(refused: set<string>) returns (err: Option<SessionError>, ghost batch: seq<string>)
      requires Valid()
      modifies this
      ensures Valid() && (old(Orderly()) ==> Orderly())
      ensures IsOrderingOf(batch, Ready(old(nodes)))
      ensures attempts == old(attempts) + Calls(batch, refused)
      ensures nodes == MarkAll(old(nodes), Ready(old(nodes)) - refused)
      ensures err.None? <==> Ready(old(nodes)) !! refused
      ensures err.Some? ==> err.value.SubmitFailed? && err.value.node in batch && err.value.node in refused
    {
      err, batch := SubmitReady(refused);
    }

    /** Reporting a node nobody submitted is not refused by the code; only then can the order of
        submissions leave the dependency order. */
    method NodeDone(id: string, success: bool, refused: set<string>)
      returns (err: Option<SessionError>, ghost batch: seq<string>)
      requires Valid()
      modifies this
      ensures Valid()
      ensures old(Orderly()) && Attempted(old(attempts), id) ==> Orderly()
      ensures id !in old(nodes) ==>
        err == Some(UnknownNode(id)) && batch == [] && nodes == old(nodes) && attempts == old(attempts)
      ensures id in old(nodes) ==>
        var reported := Report(old(nodes), id, success);
        var ready := if success then Ready(reported) else {};
        && IsOrderingOf(batch, ready)
        && nodes == MarkAll(reported, ready - refused)
        && attempts == old(attempts) + Calls(batch, refused)
        && (err.None? <==> ready !! refused)
        && (err.Some? ==> err.value.SubmitFailed? && err.value.node in batch && err.value.node in refused)
      ensures (err.Some? && err.value.UnknownNode?) <==> id !in old(nodes)
    {
      batch := [];
      if id !in nodes {
        return Some(UnknownNode(id)), [];
      }
      nodes := nodes[id := nodes[id].(status := if success then Succeeded else Failed)];
      ReportKeepsLog(old(nodes), attempts, id, success);
      assert nodes == Report(old(nodes), id, success);
      if success {
        err, batch := SubmitReady(refused);
      } else {
        NothingToMark(nodes, attempts, refused);
        err := SubmitBatch([], refused);
      }
    }

    /** The loop the two listings share. */
    method Select(wanted: set<Status>) returns (out: seq<string>)
      ensures IsOrderingOf(out, set id | id in nodes && nodes[id].status in wanted)
    {
      out := [];
      var rest := nodes.Keys;
      while rest != {}
        invariant rest <= nodes.Keys
        invariant IsOrderingOf(out, set id | id in nodes && nodes[id].status in wanted && id !in rest)
        decreases rest
      {
        var id :| id in rest;
        ghost var before := out;
        if nodes[id].status in wanted {
          out := out + [id];
          assert Elements(out) == Elements(before) + {id};
        }
        rest := rest - {id};
      }
    }

    method HeldNodes() returns (out: seq<string>)
      ensures IsOrderingOf(out, WithStatus(nodes, Held))
    {
      out := Select({Held});
      assert WithStatus(nodes, Held) == set id | id in nodes && nodes[id].status in {Held};
    }

    method SubmittedNodes() returns (out: seq<string>)
      ensures IsOrderingOf(out, WithStatus(nodes, Submitted) + WithStatus(nodes, Succeeded))
    {
      out := Select({Submitted, Succeeded});
      assert WithStatus(nodes, Submitted) + WithStatus(nodes, Succeeded)
          == set id | id in nodes && nodes[id].status in {Submitted, Succeeded};
    }

    static method CountIn(status: Status, held: nat, submitted: nat, succeeded: nat, failed: nat)
      returns (h: nat, u: nat, s: nat, f: nat)
      ensures h == held + if status == Held then 1 else 0
      ensures u == submitted + if status == Submitted then 1 else 0
      ensures s == succeeded + if status == Succeeded then 1 else 0
      ensures f == failed + if status == Failed then 1 else 0
    {
      h, u, s, f := held, submitted, succeeded, failed;
      match status {
        case Held => h := h + 1;
        case Submitted => u := u + 1;
        case Succeeded => s := s + 1;
        case Failed => f := f + 1;
      }
    }

    method NodeCount() returns (held: nat, submitted: nat, succeeded: nat, failed: nat)
      ensures held == |WithStatus(nodes, Held)| && submitted == |WithStatus(nodes, Submitted)|
      ensures succeeded == |WithStatus(nodes, Succeeded)| && failed == |WithStatus(nodes, Failed)|
      ensures held + submitted + succeeded + failed == |nodes|
    {
      held, submitted, succeeded, failed := 0, 0, 0, 0;
      var all := nodes;
      var rest := all.Keys;
      TallyStarts(all);
      while rest != {}
        invariant rest <= all.Keys
        invariant Tallied(all, rest, held, submitted, succeeded, failed)
        decreases rest
      {
        var id :| id in rest;
        TallyGrows(all, rest, id, held, submitted, succeeded, failed);
        held, submitted, succeeded, failed := CountIn(all[id].status, held, submitted, succeeded, failed);
        rest := rest - {id};
      }
      TallyEnds(all, held, submitted, succeeded, failed);
    }
  }
}
