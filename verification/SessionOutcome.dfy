/** Where interleaved session runs end up: always at the same statuses, and after boundedly many
    steps. */
module SessionOutcome {
  import opened Common
  import opened SessionGraph
  import opened SessionSystem

  /** Orderly, no Submit fails, and NodeDone reports success exactly for the nodes of wins. */
  ghost predicate IsFair(s: State, e: Event, wins: set<string>) {
    && IsOrderly(s, e)
    && (e.Done? ==> (e.success <==> e.id in wins))
    && (e.Return? ==> e.ok)
  }

  ghost predicate IsFairRun(s: State, es: seq<Event>, wins: set<string>) {
    es == [] || (IsFairRun(s, es[..|es| - 1], wins) && IsRun(s, es) && IsFair(After(s, es[..|es| - 1]), es[|es| - 1], wins))
  }

  /** Started, no goroutine at work, every submitted node reported. */
  ghost predicate Quiescent(s: State) {
    s.started && AllFinished(s) && forall id :: id in s.calls ==> id in s.reported
  }

  lemma {:induction false} FairIsOrderly(s: State, es: seq<Event>, wins: set<string>)
    requires IsFairRun(s, es, wins)
    ensures IsRun(s, es) && IsOrderlyRun(s, es)
  {
    if es != [] {
      FairIsOrderly(s, es[..|es| - 1], wins);
    }
  }

  // The set of nodes that get submitted.

  /** All of id's dependencies exist, are in x, and will succeed. */
  ghost predicate Eligible(nodes: Nodes, wins: set<string>, x: set<string>, id: string)
    requires id in nodes
  {
    forall d :: d in nodes[id].deps ==> d in nodes && d in x && d in wins
  }

  ghost predicate IsClosed(nodes: Nodes, wins: set<string>, x: set<string>) {
    forall id :: id in nodes && Eligible(nodes, wins, x, id) ==> id in x
  }

  ghost predicate IsLeastFixpoint(nodes: Nodes, wins: set<string>, x: set<string>) {
    && x <= nodes.Keys
    && (forall id :: id in nodes ==> (id in x <==> Eligible(nodes, wins, x, id)))
    && (forall y: set<string> :: IsClosed(nodes, wins, y) ==> x <= y)
  }

  ghost predicate OutcomesMatch(nodes: Nodes, wins: set<string>) {
    forall id :: id in nodes ==>
      && (nodes[id].status == Succeeded ==> id in wins)
      && (nodes[id].status == Failed ==> id !in wins)
  }

  ghost predicate NoneRefused(s: State) {
    forall t :: 0 <= t < |s.tasks| ==> !s.tasks[t].pc.Refused?
  }

  ghost predicate FairInv(s: State, wins: set<string>) {
    OrderlyInv(s) && BasicInv(s) && OutcomesMatch(s.nodes, wins) && NoneRefused(s)
  }

  ghost predicate TasksWithin(s: State, y: set<string>) {
    forall t :: 0 <= t < |s.tasks| ==> s.tasks[t].node in y
  }

  lemma StepKeepsNoneRefused(s: State, e: Event, wins: set<string>)
    requires NoneRefused(s) && Enabled(s, e) && IsFair(s, e, wins)
    ensures NoneRefused(Step(s, e))
  {}

  lemma StepKeepsOutcomes(s: State, e: Event, wins: set<string>)
    requires OutcomesMatch(s.nodes, wins) && Enabled(s, e) && IsFair(s, e, wins)
    ensures OutcomesMatch(Step(s, e).nodes, wins)
  {}

  lemma StepKeepsFairInv(s: State, e: Event, wins: set<string>)
    requires FairInv(s, wins) && Enabled(s, e) && IsFair(s, e, wins)
    ensures FairInv(Step(s, e), wins)
  {
    StepKeepsOrderlyInv(s, e);
    StepKeepsTasksKnown(s, e);
    StepKeepsReadyTakenCareOf(s, e);
    StepKeepsNoneRefused(s, e, wins);
    StepKeepsOutcomes(s, e, wins);
  }

  /** At rest no node is ready. */
  lemma NothingReadyAtRest(s: State, wins: set<string>)
    requires FairInv(s, wins) && Quiescent(s)
    ensures Ready(s.nodes) == {}
  {
    forall id ensures !TakenCareOf(s, id) {}
  }

  lemma ClosedOnSameGraph(nodes: Nodes, nodes': Nodes, wins: set<string>, y: set<string>)
    requires SameGraph(nodes, nodes') && IsClosed(nodes, wins, y)
    ensures IsClosed(nodes', wins, y)
  {
    forall id | id in nodes' && Eligible(nodes', wins, y, id) ensures id in y {
      assert id in nodes.Keys;
      assert Eligible(nodes, wins, y, id) by {
        forall d | d in nodes[id].deps ensures d in nodes && d in y && d in wins {
          assert d in nodes'.Keys;
        }
      }
    }
  }

  lemma CallsWithin(s: State, wins: set<string>, y: set<string>)
    requires FairInv(s, wins) && TasksWithin(s, y)
    ensures forall d :: d in s.calls ==> d in y
  {
    forall d | d in s.calls ensures d in y { assert TaskBegun(s, d); }
  }

  lemma TaskIsEligible(s: State, wins: set<string>, y: set<string>, t: nat)
    requires FairInv(s, wins) && t < |s.tasks| && forall d :: d in s.calls ==> d in y
    ensures Eligible(s.nodes, wins, y, s.tasks[t].node)
  {
    forall d | d in s.nodes[s.tasks[t].node].deps ensures d in s.nodes && d in y && d in wins {
      assert d in s.reported;
    }
  }

  lemma NewTaskIsWithin(s: State, e: Event, wins: set<string>, y: set<string>, t: nat)
    requires FairInv(s, wins) && Enabled(s, e) && FairInv(Step(s, e), wins)
    requires IsClosed(Step(s, e).nodes, wins, y) && TasksWithin(s, y)
    requires |s.tasks| <= t < |Step(s, e).tasks|
    ensures Step(s, e).tasks[t].node in y
  {
    CallsWithin(s, wins, y);
    assert Step(s, e).calls == s.calls;
    TaskIsEligible(Step(s, e), wins, y, t);
  }

  /** Whatever closed set bounds the tasks so far bounds those of the next step. */
  lemma StepKeepsTasksWithin(s: State, e: Event, wins: set<string>, y: set<string>)
    requires FairInv(s, wins) && Enabled(s, e) && IsFair(s, e, wins)
    requires IsClosed(s.nodes, wins, y) && TasksWithin(s, y)
    ensures IsClosed(Step(s, e).nodes, wins, y) && TasksWithin(Step(s, e), y)
  {
    StepKeepsTasksKnown(s, e);
    StepKeepsFairInv(s, e, wins);
    ClosedOnSameGraph(s.nodes, Step(s, e).nodes, wins, y);
    forall t | |s.tasks| <= t < |Step(s, e).tasks| ensures Step(s, e).tasks[t].node in y {
      NewTaskIsWithin(s, e, wins, y, t);
    }
  }

  lemma {:induction false} FairInvariant(s: State, es: seq<Event>, wins: set<string>)
    requires Init(s) && IsFairRun(s, es, wins)
    ensures IsRun(s, es) && FairInv(After(s, es), wins) && SameGraph(s.nodes, After(s, es).nodes)
  {
    FairIsOrderly(s, es, wins);
    OrderlyInvariant(s, es);
    if es != [] {
      FairInvariant(s, es[..|es| - 1], wins);
      StepKeepsFairInv(After(s, es[..|es| - 1]), es[|es| - 1], wins);
    }
  }

  lemma {:induction false} TasksStayWithin(s: State, es: seq<Event>, wins: set<string>, y: set<string>)
    requires Init(s) && IsFairRun(s, es, wins) && IsClosed(s.nodes, wins, y)
    ensures IsRun(s, es) && IsClosed(After(s, es).nodes, wins, y) && TasksWithin(After(s, es), y)
  {
    FairInvariant(s, es, wins);
    if es != [] {
      var n := |es| - 1;
      FairInvariant(s, es[..n], wins);
      TasksStayWithin(s, es[..n], wins, y);
      StepKeepsTasksWithin(After(s, es[..n]), es[n], wins, y);
    }
  }

  /** At quiescence the nodes ever submitted are exactly the least fixpoint of "all dependencies
      exist, are in the set and succeed"; those have their reported status, all others, on cycles,
      below a failure or below an unknown node, are still held. */
  lemma {:induction false} QuiescentOutcome(s: State, es: seq<Event>, wins: set<string>)
    requires Init(s) && IsFairRun(s, es, wins) && IsRun(s, es) && Quiescent(After(s, es))
    ensures var t, x := After(s, es), Elements(After(s, es).calls);
      && IsLeastFixpoint(s.nodes, wins, x)
      && SameGraph(s.nodes, t.nodes)
      && (forall id :: id in s.nodes ==>
            t.nodes[id].status == (if id !in x then Held else if id in wins then Succeeded else Failed))
  {
    FairInvariant(s, es, wins);
    var t, x := After(s, es), Elements(After(s, es).calls);
    NothingReadyAtRest(t, wins);
    forall id | id in s.nodes ensures id in x <==> Eligible(s.nodes, wins, x, id) {
      assert id in t.nodes.Keys;
      if id in x {
        assert TaskBegun(t, id);
        forall d | d in s.nodes[id].deps ensures d in s.nodes && d in x && d in wins {
          assert d in t.nodes && t.nodes[d].status == Succeeded;
          assert d in t.nodes.Keys && d in t.reported;
        }
      } else {
        if Eligible(s.nodes, wins, x, id) {
          forall d | d in t.nodes[id].deps ensures d in t.nodes && t.nodes[d].status == Succeeded {
            assert d in s.nodes.Keys && d in t.calls && d in t.reported;
          }
          assert DepsSucceeded(t.nodes, t.nodes[id].deps) && id !in Ready(t.nodes);
        }
      }
    }
    forall y: set<string> | IsClosed(s.nodes, wins, y) ensures x <= y {
      TasksStayWithin(s, es, wins, y);
      forall id | id in x ensures id in y {
        assert TaskBegun(t, id);
      }
    }
    forall id | id in x ensures id in s.nodes {
      assert id in t.nodes.Keys;
    }
  }

  /** Confluence: two runs on the same graph with the same winners that come to rest leave every
      node in the same status, whatever the map iteration, scheduling and completion orders. */
  lemma {:induction false} Confluence(s: State, es: seq<Event>, es': seq<Event>, wins: set<string>)
    requires Init(s) && IsFairRun(s, es, wins) && IsFairRun(s, es', wins) && IsRun(s, es) && IsRun(s, es')
    requires Quiescent(After(s, es)) && Quiescent(After(s, es'))
    ensures After(s, es).nodes == After(s, es').nodes
    ensures Elements(After(s, es).calls) == Elements(After(s, es').calls)
  {
    QuiescentOutcome(s, es, wins);
    QuiescentOutcome(s, es', wins);
    var x, x' := Elements(After(s, es).calls), Elements(After(s, es').calls);
    assert IsClosed(s.nodes, wins, x) && IsClosed(s.nodes, wins, x');
    var a, b := After(s, es).nodes, After(s, es').nodes;
    assert a.Keys == b.Keys;
    forall id | id in a ensures a[id] == b[id] {
      assert id in s.nodes.Keys;
    }
  }

  // Every run comes to rest.

  function Remaining(pc: Pc): nat {
    match pc
    case Collected => 3
    case Calling => 2
    case Accepted => 1
    case _ => 0
  }

  function Work(tasks: seq<Task>): nat {
    if tasks == [] then 0 else Work(tasks[..|tasks| - 1]) + Remaining(tasks[|tasks| - 1].pc)
  }

  lemma {:induction false} WorkUpdate(tasks: seq<Task>, i: nat, task: Task)
    requires i < |tasks|
    ensures Work(tasks[i := task]) + Remaining(tasks[i].pc) == Work(tasks) + Remaining(task.pc)
  {
    var n := |tasks| - 1;
    if i == n {
      assert tasks[i := task][..n] == tasks[..n];
    } else {
      assert tasks[i := task][..n] == tasks[..n][i := task];
      WorkUpdate(tasks[..n], i, task);
    }
  }

  lemma {:induction false} WorkSpawned(tasks: seq<Task>, batch: seq<string>)
    ensures Work(tasks + Spawned(batch)) == Work(tasks) + 3 * |batch|
  {
    if batch == [] {
      assert tasks + Spawned(batch) == tasks;
    } else {
      var n := |batch| - 1;
      WorkSpawned(tasks, batch[..n]);
      assert (tasks + Spawned(batch))[..|tasks| + n] == tasks + Spawned(batch[..n]);
    }
  }

  function CollectsLeft(s: State): int {
    |s.nodes| - |s.reported| + if s.started then 0 else 1
  }

  /** collects * (3 * nodes + 1) + work, see WeightClosed. */
  function Weight(collects: int, nodes: nat, work: nat): nat {
    if collects <= 0 then work else 3 * nodes + 1 + Weight(collects - 1, nodes, work)
  }

  /** Reports and the start still to come, each worth more than the goroutines it can spawn. */
  function Measure(s: State): nat {
    Weight(CollectsLeft(s), |s.nodes|, Work(s.tasks))
  }

  lemma {:induction false} WeightClosed(collects: nat, nodes: nat, work: nat)
    ensures Weight(collects, nodes, work) == collects * (3 * nodes + 1) + work
  {
    if collects > 0 {
      var c := 3 * nodes + 1;
      WeightClosed(collects - 1, nodes, work);
      assert (collects - 1) * c == collects * c - c;
    }
  }

  lemma {:induction false} WeightOrder(collects: int, nodes: nat, work: nat, more: nat)
    ensures Weight(collects, nodes, work + more) == Weight(collects, nodes, work) + more
  {
    if collects > 0 {
      WeightOrder(collects - 1, nodes, work, more);
    }
  }

  lemma WeightDrops(collects: int, nodes: nat, work: nat, batch: nat)
    requires batch <= nodes && collects > 0
    ensures Weight(collects - 1, nodes, work + 3 * batch) < Weight(collects, nodes, work)
  {
    WeightOrder(collects - 1, nodes, work, 3 * batch);
  }

  lemma BatchIsSmall(s: State, e: Event)
    requires Enabled(s, e) && (e.Start? || e.Done?)
    ensures |e.batch| <= |s.nodes|
  {
    OrderingLength(e.batch, Collects(s, e));
    assert Collects(s, e) <= s.nodes.Keys;
    SubsetSize(Collects(s, e), s.nodes.Keys);
  }

  lemma StepKeepsSize(s: State, e: Event)
    requires Enabled(s, e)
    ensures |Step(s, e).nodes| == |s.nodes|
  {
    assert Step(s, e).nodes.Keys == s.nodes.Keys;
    assert |Step(s, e).nodes| == |Step(s, e).nodes.Keys|;
  }

  lemma OrderlyReportsFit(s: State)
    requires OrderlyInv(s)
    ensures |s.reported| <= |s.nodes|
  {
    assert s.reported <= s.nodes.Keys;
    SubsetSize(s.reported, s.nodes.Keys);
  }

  lemma CollectsCountDown(s: State, e: Event)
    requires OrderlyInv(s) && Enabled(s, e) && IsOrderly(s, e)
    ensures CollectsLeft(Step(s, e)) == CollectsLeft(s) - if e.Start? || e.Done? then 1 else 0
    ensures e.Start? || e.Done? ==> CollectsLeft(s) > 0
  {
    StepKeepsSize(s, e);
    OrderlyReportsFit(s);
    if e.Done? {
      assert TaskBegun(s, e.id) && e.id in s.nodes;
      assert s.reported + {e.id} <= s.nodes.Keys;
      SubsetSize(s.reported + {e.id}, s.nodes.Keys);
    }
  }

  lemma WorkOfStep(s: State, e: Event)
    requires Enabled(s, e)
    ensures if e.Start? || e.Done? then Work(Step(s, e).tasks) == Work(s.tasks) + 3 * |e.batch|
            else Work(Step(s, e).tasks) < Work(s.tasks)
  {
    if e.Start? || e.Done? {
      WorkSpawned(s.tasks, e.batch);
    } else {
      WorkUpdate(s.tasks, e.t, Step(s, e).tasks[e.t]);
    }
  }

  lemma MeasureFalls(s: State, s': State, collects: bool, batch: nat)
    requires |s'.nodes| == |s.nodes| && batch <= |s.nodes|
    requires if collects
             then CollectsLeft(s') == CollectsLeft(s) - 1 >= 0 && Work(s'.tasks) == Work(s.tasks) + 3 * batch
             else CollectsLeft(s') == CollectsLeft(s) && Work(s'.tasks) < Work(s.tasks)
    ensures Measure(s') < Measure(s)
  {
    if collects {
      WeightDrops(CollectsLeft(s), |s.nodes|, Work(s.tasks), batch);
    } else {
      WeightOrder(CollectsLeft(s), |s.nodes|, Work(s'.tasks), Work(s.tasks) - Work(s'.tasks));
    }
  }

  /** A start or a first report counts down the first part by one and spawns at most n goroutines;
      every other step finishes part of a goroutine's work. */
  lemma StepsUseUpMeasure(s: State, e: Event)
    requires OrderlyInv(s) && Enabled(s, e) && IsOrderly(s, e)
    ensures Measure(Step(s, e)) < Measure(s)
  {
    StepKeepsSize(s, e);
    CollectsCountDown(s, e);
    WorkOfStep(s, e);
    if e.Start? || e.Done? {
      BatchIsSmall(s, e);
      MeasureFalls(s, Step(s, e), true, |e.batch|);
    } else {
      MeasureFalls(s, Step(s, e), false, 0);
    }
  }

  /** Every orderly run, refused submits included, is at most (n + 1) * (3n + 1) steps long for n
      nodes. */
  lemma {:induction false} RunsAreBounded(s: State, es: seq<Event>)
    requires Init(s) && IsOrderlyRun(s, es) && IsRun(s, es)
    ensures |es| + Measure(After(s, es)) <= (|s.nodes| + 1) * (3 * |s.nodes| + 1)
    ensures |es| <= (|s.nodes| + 1) * (3 * |s.nodes| + 1)
  {
    OrderlyInvariant(s, es);
    if es == [] {
      WeightClosed(|s.nodes| + 1, |s.nodes|, 0);
    } else {
      var n := |es| - 1;
      RunsAreBounded(s, es[..n]);
      OrderlyInvariant(s, es[..n]);
      StepsUseUpMeasure(After(s, es[..n]), es[n]);
    }
  }

  /** A state that is not at rest has a next step, so no run gets stuck earlier. */
  lemma NoDeadlock(s: State, wins: set<string>) returns (e: Event)
    requires !Quiescent(s) && OrderlyInv(s)
    ensures Enabled(s, e) && IsFair(s, e, wins)
  {
    if !s.started {
      var batch := OrderingExists(Ready(s.nodes));
      e := Start(batch);
    } else if !AllFinished(s) {
      var t :| 0 <= t < |s.tasks| && IsOutstanding(s.tasks[t].pc);
      e := match s.tasks[t].pc
        case Collected => Begin(t)
        case Calling => Return(t, true)
        case _ => MarkSubmitted(t);
    } else {
      var id :| id in s.calls && id !in s.reported;
      var ready := if id in s.nodes && id in wins then Ready(Report(s.nodes, id, true)) else {};
      var batch := OrderingExists(ready);
      e := Done(id, id in wins, batch);
    }
  }

  /** Every fair run extends to a fair run at rest; with Confluence, to one and the same end. */
  lemma {:induction false} EveryRunComesToRest(s: State, es: seq<Event>, wins: set<string>) returns (full: seq<Event>)
    requires Init(s) && IsFairRun(s, es, wins) && IsRun(s, es)
    ensures es <= full && IsFairRun(s, full, wins) && IsRun(s, full) && Quiescent(After(s, full))
    decreases (|s.nodes| + 1) * (3 * |s.nodes| + 1) - |es|
  {
    FairIsOrderly(s, es, wins);
    FairInvariant(s, es, wins);
    if Quiescent(After(s, es)) {
      full := es;
    } else {
      var e := NoDeadlock(After(s, es), wins);
      full := Extend(s, es, e);
      assert full[..|es|] == es;
      FairIsOrderly(s, full, wins);
      RunsAreBounded(s, full);
      full := EveryRunComesToRest(s, full, wins);
    }
  }

  // All nodes succeed on a sound graph.

  /** Dependencies are registered and the graph is acyclic, as witnessed by rank. */
  ghost predicate IsSound(nodes: Nodes, rank: map<string, nat>) {
    forall id, d :: id in nodes && d in nodes[id].deps ==> d in nodes && id in rank && d in rank && rank[d] < rank[id]
  }

  lemma {:induction false} ClosedSetIsEverything(nodes: Nodes, wins: set<string>, x: set<string>, rank: map<string, nat>, id: string)
    requires IsSound(nodes, rank) && nodes.Keys <= wins && IsClosed(nodes, wins, x) && id in nodes
    ensures id in x
    decreases if id in rank then rank[id] else 0, if nodes[id].deps == [] then 0 else 1
  {
    forall d | d in nodes[id].deps ensures d in nodes && d in x && d in wins {
      assert d in nodes && d in rank;
      ClosedSetIsEverything(nodes, wins, x, rank, d);
    }
    assert Eligible(nodes, wins, x, id);
  }

  function Reports(es: seq<Event>): nat {
    if es == [] then 0 else Reports(es[..|es| - 1]) + if es[|es| - 1].Done? then 1 else 0
  }

  lemma ReportIsNew(s: State, e: Event)
    requires OrderlyInv(s) && Enabled(s, e) && IsOrderly(s, e)
    ensures |Step(s, e).reported| == |s.reported| + if e.Done? then 1 else 0
  {
    if e.Done? { assert TaskBegun(s, e.id); }
  }

  lemma {:induction false} ReportsCounted(s: State, es: seq<Event>)
    requires Init(s) && IsOrderlyRun(s, es) && IsRun(s, es)
    ensures Reports(es) == |After(s, es).reported|
  {
    if es != [] {
      var n := |es| - 1;
      ReportsCounted(s, es[..n]);
      OrderlyInvariant(s, es[..n]);
      ReportIsNew(After(s, es[..n]), es[n]);
    }
  }

  /** On a finite acyclic graph with registered dependencies, when no Submit fails and every
      submitted node is reported successful, a run at rest has every node Succeeded, after exactly
      one report for each. */
  lemma {:induction false} AllNodesSucceed(s: State, es: seq<Event>, wins: set<string>, rank: map<string, nat>)
    requires Init(s) && IsFairRun(s, es, wins) && IsRun(s, es) && Quiescent(After(s, es))
    requires IsSound(s.nodes, rank) && s.nodes.Keys <= wins
    ensures WithStatus(After(s, es).nodes, Succeeded) == s.nodes.Keys
    ensures Reports(es) == |s.nodes|
  {
    QuiescentOutcome(s, es, wins);
    FairIsOrderly(s, es, wins);
    OrderlyInvariant(s, es);
    ReportsCounted(s, es);
    var t, x := After(s, es), Elements(After(s, es).calls);
    forall id | id in s.nodes ensures id in x {
      ClosedSetIsEverything(s.nodes, wins, x, rank, id);
    }
    assert t.reported == s.nodes.Keys;
  }

  /** Twice the held plus the submitted nodes, as NodeCount gives them. */
  function Pending(nodes: Nodes): nat {
    2 * |WithStatus(nodes, Held)| + |WithStatus(nodes, Submitted)|
  }

  lemma ReportShrinksPending(nodes: Nodes, id: string, success: bool)
    requires id in nodes && nodes[id].status in {Held, Submitted}
    ensures Pending(Report(nodes, id, success)) < Pending(nodes)
  {
    var h, u := WithStatus(nodes, Held), WithStatus(nodes, Submitted);
    var after := Report(nodes, id, success);
    assert WithStatus(after, Held) == h - {id} && WithStatus(after, Submitted) == u - {id};
    assert id in h + u;
  }

  lemma MarkShrinksPending(nodes: Nodes, id: string)
    ensures Pending(Mark(nodes, id)) <= Pending(nodes)
  {
    var h, u := WithStatus(nodes, Held), WithStatus(nodes, Submitted);
    if id in h {
      assert WithStatus(Mark(nodes, id), Held) == h - {id};
      assert WithStatus(Mark(nodes, id), Submitted) == u + {id};
    }
  }

  /** Every report makes the pending weight smaller and nothing makes it larger, while the number
      of nodes, which the four counts add up to, stays. */
  lemma ReportsShrinkPending(s: State, e: Event)
    requires OrderlyInv(s) && Enabled(s, e) && IsOrderly(s, e)
    ensures Pending(Step(s, e).nodes) <= Pending(s.nodes)
    ensures e.Done? ==> Pending(Step(s, e).nodes) < Pending(s.nodes)
    ensures |Step(s, e).nodes| == |s.nodes|
  {
    StepKeepsSize(s, e);
    if e.Done? {
      assert TaskBegun(s, e.id) && e.id in s.nodes;
      ReportShrinksPending(s.nodes, e.id, e.success);
    } else if e.MarkSubmitted? {
      MarkShrinksPending(s.nodes, s.tasks[e.t].node);
    }
  }

  // Cycles.

  lemma {:induction false} PathDescends(nodes: Nodes, calls: seq<string>, path: seq<string>, i: nat, m: nat) returns (k: nat)
    requires CallsOrdered(nodes, calls) && IsDependencyPath(nodes, path)
    requires i < |path| && m <= |calls| && path[0] in calls[..m]
    ensures k + i <= m && path[i] in calls[..k]
  {
    if i == 0 {
      k := m;
    } else {
      var before := PathDescends(nodes, calls, path, i - 1, m);
      k :| 0 <= k < before && calls[k] == path[i - 1];
      assert CallOrdered(nodes, calls, k);
      assert path[i - 1 + 1] in nodes[path[i - 1]].deps;
    }
  }

  /** A node on a dependency cycle is never submitted, on any orderly run. */
  lemma {:induction false} CyclesStayHeld(s: State, es: seq<Event>, cycle: seq<string>)
    requires Init(s) && IsOrderlyRun(s, es) && IsRun(s, es)
    requires |cycle| > 1 && IsDependencyPath(s.nodes, cycle) && cycle[|cycle| - 1] == cycle[0]
    ensures cycle[0] !in After(s, es).calls
    ensures cycle[0] in After(s, es).nodes && After(s, es).nodes[cycle[0]].status == Held
  {
    SubmissionOrder(s, es);
    OrderlyInvariant(s, es);
    var calls := After(s, es).calls;
    if cycle[0] in calls {
      var m := |calls|;
      assert calls[..m] == calls;
      while m > 0
        invariant 0 <= m <= |calls| && cycle[0] in calls[..m]
      {
        m := PathDescends(s.nodes, calls, cycle, |cycle| - 1, m);
      }
    }
    assert cycle[0] in s.nodes.Keys;
  }
}
