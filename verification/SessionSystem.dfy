/** A session whose Start, NodeDone and Submit calls overlap: atomic steps are the mutex sections,
    the beginning of each Submit call, and its return. */
module SessionSystem {
  import opened Common
  import opened SessionGraph

  /** One goroutine of submitBatch, from its collection under the mutex to its end. */
  datatype Pc =
    | Collected  // chosen by collectReady, Submit not called yet
    | Calling    // inside Submit
    | Accepted   // Submit returned nil, the mutex not yet taken
    | Marked     // done
    | Refused    // Submit returned an error; done

  datatype Task = Task(node: string, pc: Pc)

  /** calls: the nodes of the Submit calls begun so far, in order. reported: nodes NodeDone has
      been called for. Both only describe the run; the code keeps neither. */
  datatype State = State(nodes: Nodes, tasks: seq<Task>, started: bool, reported: set<string>, calls: seq<string>)

  /** batch: the ready nodes in the order the map happened to yield them. */
  datatype Event =
    | Start(batch: seq<string>)
    | Done(id: string, success: bool, batch: seq<string>)
    | Begin(t: nat)
    | Return(t: nat, ok: bool)
    | MarkSubmitted(t: nat)

  /** What collectReady finds under the mutex of this event; empty for a failure. */
  function Collects(s: State, e: Event): set<string> {
    match e
    case Start(_) => Ready(s.nodes)
    case Done(id, success, _) => if id in s.nodes && success then Ready(Report(s.nodes, id, true)) else {}
    case _ => {}
  }

  ghost predicate Enabled(s: State, e: Event) {
    match e
    case Start(batch) => IsOrderingOf(batch, Collects(s, e))
    case Done(_, _, batch) => IsOrderingOf(batch, Collects(s, e))
    case Begin(t) => t < |s.tasks| && s.tasks[t].pc.Collected?
    case Return(t, _) => t < |s.tasks| && s.tasks[t].pc.Calling?
    case MarkSubmitted(t) => t < |s.tasks| && s.tasks[t].pc.Accepted?
  }

  function Spawned(batch: seq<string>): seq<Task> {
    seq(|batch|, i requires 0 <= i < |batch| => Task(batch[i], Collected))
  }

  function Goto(s: State, t: nat, pc: Pc): State
    requires t < |s.tasks|
  {
    s.(tasks := s.tasks[t := s.tasks[t].(pc := pc)])
  }

  ghost function Step(s: State, e: Event): State
    requires Enabled(s, e)
  {
    match e
    case Start(batch) => s.(tasks := s.tasks + Spawned(batch), started := true)
    case Done(id, success, batch) =>
      s.(nodes := Report(s.nodes, id, success), tasks := s.tasks + Spawned(batch),
         reported := if id in s.nodes then s.reported + {id} else s.reported)
    case Begin(t) => Goto(s, t, Calling).(calls := s.calls + [s.tasks[t].node])
    case Return(t, ok) => Goto(s, t, if ok then Accepted else Refused)
    case MarkSubmitted(t) => Goto(s, t, Marked).(nodes := Mark(s.nodes, s.tasks[t].node))
  }

  ghost predicate Init(s: State) {
    AllHeld(s.nodes) && s.tasks == [] && !s.started && s.reported == {} && s.calls == []
  }

  ghost predicate IsRun(s: State, es: seq<Event>)
    decreases |es|, 0
  {
    es == [] || (IsRun(s, es[..|es| - 1]) && Enabled(After(s, es[..|es| - 1]), es[|es| - 1]))
  }

  ghost function After(s: State, es: seq<Event>): State
    requires IsRun(s, es)
    decreases |es|, 1
  {
    if es == [] then s else Step(After(s, es[..|es| - 1]), es[|es| - 1])
  }

  /** Environment of the safety results: a node is reported at most once, only after a Submit for
      it has begun, and Start is called once. */
  ghost predicate IsOrderly(s: State, e: Event) {
    && (e.Start? ==> !s.started)
    && (e.Done? ==> e.id in s.calls && e.id !in s.reported)
  }

  ghost predicate IsOrderlyRun(s: State, es: seq<Event>) {
    es == [] || (IsOrderlyRun(s, es[..|es| - 1]) && IsRun(s, es) && IsOrderly(After(s, es[..|es| - 1]), es[|es| - 1]))
  }

  lemma {:induction false} OrderlyRunIsRun(s: State, es: seq<Event>)
    requires IsOrderlyRun(s, es)
    ensures IsRun(s, es)
  {}

  lemma {:induction false} Extend(s: State, es: seq<Event>, e: Event) returns (more: seq<Event>)
    requires IsRun(s, es) && Enabled(After(s, es), e)
    ensures more == es + [e] && IsRun(s, more) && After(s, more) == Step(After(s, es), e)
    ensures IsOrderlyRun(s, es) && IsOrderly(After(s, es), e) ==> IsOrderlyRun(s, more)
  {
    more := es + [e];
    assert more[..|es|] == es;
  }

  // Without any assumption on who reports what.

  predicate IsOutstanding(pc: Pc) {
    pc.Collected? || pc.Calling? || pc.Accepted?
  }

  /** Some goroutine will still decide about id, or its Submit has returned an error. */
  ghost predicate TakenCareOf(s: State, id: string) {
    exists t :: 0 <= t < |s.tasks| && s.tasks[t].node == id && s.tasks[t].pc != Marked
  }

  ghost predicate TasksKnown(s: State) {
    forall t :: 0 <= t < |s.tasks| ==>
      s.tasks[t].node in s.nodes && (s.tasks[t].pc.Marked? ==> s.nodes[s.tasks[t].node].status != Held)
  }

  ghost predicate ReadyTakenCareOf(s: State) {
    s.started ==> forall id :: id in Ready(s.nodes) ==> TakenCareOf(s, id)
  }

  ghost predicate BasicInv(s: State) {
    TasksKnown(s) && ReadyTakenCareOf(s)
  }

  lemma CollectedTask(s: State, e: Event, id: string) returns (t: nat)
    requires Enabled(s, e) && id in Collects(s, e)
    ensures |s.tasks| <= t < |Step(s, e).tasks| && Step(s, e).tasks[t] == Task(id, Collected)
  {
    OrderingMembers(e.batch, Collects(s, e), id);
    var k :| 0 <= k < |e.batch| && e.batch[k] == id;
    t := |s.tasks| + k;
  }

  lemma NewTaskWasReady(s: State, e: Event, t: nat)
    requires Enabled(s, e) && |s.tasks| <= t < |Step(s, e).tasks|
    ensures Step(s, e).tasks[t].node in Collects(s, e) && Step(s, e).tasks[t].pc == Collected
    ensures Step(s, e).tasks[t] == Task(e.batch[t - |s.tasks|], Collected)
  {
    assert e.batch[t - |s.tasks|] in e.batch;
    OrderingMembers(e.batch, Collects(s, e), e.batch[t - |s.tasks|]);
  }

  lemma StepKeepsTasksKnown(s: State, e: Event)
    requires TasksKnown(s) && Enabled(s, e)
    ensures TasksKnown(Step(s, e)) && SameGraph(s.nodes, Step(s, e).nodes)
  {
    var s' := Step(s, e);
    forall t | |s.tasks| <= t < |s'.tasks| ensures s'.tasks[t].node in s'.nodes && !s'.tasks[t].pc.Marked? {
      NewTaskWasReady(s, e, t);
    }
  }

  lemma StepKeepsReadyTakenCareOf(s: State, e: Event)
    requires BasicInv(s) && Enabled(s, e)
    ensures ReadyTakenCareOf(Step(s, e))
  {
    var s' := Step(s, e);
    forall id | s'.started && id in Ready(s'.nodes) ensures TakenCareOf(s', id) {
      if id in Collects(s, e) {
        var t := CollectedTask(s, e, id);
      } else {
        assert id in Ready(s.nodes);
        var t :| 0 <= t < |s.tasks| && s.tasks[t].node == id && s.tasks[t].pc != Marked;
        assert s'.tasks[t].node == id && s'.tasks[t].pc != Marked;
      }
    }
  }

  lemma {:induction false} BasicInvariant(s: State, es: seq<Event>)
    requires Init(s) && IsRun(s, es)
    ensures BasicInv(After(s, es)) && SameGraph(s.nodes, After(s, es).nodes)
  {
    if es != [] {
      BasicInvariant(s, es[..|es| - 1]);
      StepKeepsTasksKnown(After(s, es[..|es| - 1]), es[|es| - 1]);
      StepKeepsReadyTakenCareOf(After(s, es[..|es| - 1]), es[|es| - 1]);
    }
  }

  /** No ready node is forgotten. In every state of every run after Start, whatever is reported, a
      held node whose dependencies have all succeeded has a goroutine still at work on it or one
      whose Submit returned an error. */
  lemma {:induction false} NoReadyNodeForgotten(s: State, es: seq<Event>, id: string)
    requires Init(s) && IsRun(s, es) && After(s, es).started && id in Ready(After(s, es).nodes)
    ensures exists t :: 0 <= t < |After(s, es).tasks| && After(s, es).tasks[t].node == id &&
              (IsOutstanding(After(s, es).tasks[t].pc) || After(s, es).tasks[t].pc.Refused?)
  {
    BasicInvariant(s, es);
    var t :| 0 <= t < |After(s, es).tasks| && After(s, es).tasks[t].node == id && After(s, es).tasks[t].pc != Marked;
    assert IsOutstanding(After(s, es).tasks[t].pc) || After(s, es).tasks[t].pc.Refused?;
  }

  /** A late Submit return never overwrites what was reported: only NodeDone of that very node
      changes a status that is no longer held, and only a goroutine for it submits a held one. */
  lemma LateReturnsAreHarmless(s: State, e: Event, id: string)
    requires Enabled(s, e) && id in s.nodes
    ensures id in Step(s, e).nodes
    ensures Step(s, e).nodes[id] != s.nodes[id] ==>
      || (e.Done? && e.id == id)
      || (e.MarkSubmitted? && s.tasks[e.t].node == id && s.nodes[id].status == Held && Step(s, e).nodes[id].status == Submitted)
  {}

  /** A report of a node nobody registered changes nothing and submits nothing. */
  lemma UnknownReportChangesNothing(s: State, e: Event)
    requires Enabled(s, e) && e.Done? && e.id !in s.nodes
    ensures e.batch == [] && Step(s, e) == s
  {
    OrderingLength(e.batch, {});
  }

  ghost predicate MarkedFor(s: State, id: string) {
    exists t :: 0 <= t < |s.tasks| && s.tasks[t] == Task(id, Marked)
  }

  /** Where a status comes from: submitted from a goroutine for that very node that has finished,
      succeeded or failed from a report. */
  ghost predicate StatusesExplained(s: State) {
    && (forall id :: id in s.nodes && s.nodes[id].status == Submitted ==> MarkedFor(s, id))
    && (forall id :: id in s.nodes && s.nodes[id].status in {Succeeded, Failed} ==> id in s.reported)
  }

  lemma StepKeepsStatusesExplained(s: State, e: Event)
    requires StatusesExplained(s) && Enabled(s, e)
    ensures StatusesExplained(Step(s, e))
  {
    var s' := Step(s, e);
    forall id | id in s'.nodes && s'.nodes[id].status == Submitted ensures MarkedFor(s', id) {
      if s.nodes[id].status == Submitted {
        var t :| 0 <= t < |s.tasks| && s.tasks[t] == Task(id, Marked);
        assert s'.tasks[t] == Task(id, Marked);
      } else {
        assert s'.tasks[e.t] == Task(id, Marked);
      }
    }
  }

  lemma {:induction false} AlwaysExplained(s: State, es: seq<Event>)
    requires Init(s) && IsRun(s, es)
    ensures StatusesExplained(After(s, es))
  {
    if es != [] {
      AlwaysExplained(s, es[..|es| - 1]);
      StepKeepsStatusesExplained(After(s, es[..|es| - 1]), es[|es| - 1]);
    }
  }

  // With orderly reports.

  ghost predicate TaskBegun(s: State, id: string) {
    exists t :: 0 <= t < |s.tasks| && s.tasks[t].node == id && s.tasks[t].pc != Collected
  }

  ghost predicate OrderlyInv(s: State) {
    && (forall t :: 0 <= t < |s.tasks| ==>
          s.tasks[t].node in s.nodes && DepsSucceeded(s.nodes, s.nodes[s.tasks[t].node].deps))
    && (forall t :: 0 <= t < |s.tasks| && s.tasks[t].pc != Collected ==> s.tasks[t].node in s.calls)
    && (forall id :: id in s.calls ==> TaskBegun(s, id))
    && (forall id :: id in s.reported ==> id in s.calls && id in s.nodes)
    && (forall id :: id in s.nodes ==> (s.nodes[id].status in {Succeeded, Failed} <==> id in s.reported))
    && (forall id :: id in s.nodes && s.nodes[id].status == Submitted ==> id in s.calls)
  }

  lemma SuccessesStay(s: State, e: Event, id: string)
    requires OrderlyInv(s) && Enabled(s, e) && IsOrderly(s, e)
    requires id in s.nodes && s.nodes[id].status == Succeeded
    ensures id in Step(s, e).nodes && Step(s, e).nodes[id].status == Succeeded
  {}

  lemma StepKeepsTaskBegun(s: State, e: Event, id: string)
    requires Enabled(s, e) && TaskBegun(s, id)
    ensures TaskBegun(Step(s, e), id)
  {
    var t :| 0 <= t < |s.tasks| && s.tasks[t].node == id && s.tasks[t].pc != Collected;
    assert Step(s, e).tasks[t].node == id && Step(s, e).tasks[t].pc != Collected;
  }

  lemma StepKeepsDepsSucceeded(s: State, e: Event)
    requires OrderlyInv(s) && Enabled(s, e) && IsOrderly(s, e)
    ensures var s' := Step(s, e);
      forall t :: 0 <= t < |s'.tasks| ==>
        s'.tasks[t].node in s'.nodes && DepsSucceeded(s'.nodes, s'.nodes[s'.tasks[t].node].deps)
  {
    var s' := Step(s, e);
    forall t | 0 <= t < |s'.tasks|
      ensures s'.tasks[t].node in s'.nodes && DepsSucceeded(s'.nodes, s'.nodes[s'.tasks[t].node].deps)
    {
      if t < |s.tasks| {
        forall d | d in s.nodes[s.tasks[t].node].deps ensures d in s'.nodes && s'.nodes[d].status == Succeeded {
          SuccessesStay(s, e, d);
        }
      } else {
        NewTaskWasReady(s, e, t);
      }
    }
  }

  lemma StepKeepsCallsBegun(s: State, e: Event)
    requires OrderlyInv(s) && Enabled(s, e)
    ensures var s' := Step(s, e);
      && (forall t :: 0 <= t < |s'.tasks| && s'.tasks[t].pc != Collected ==> s'.tasks[t].node in s'.calls)
      && (forall id :: id in s'.calls ==> TaskBegun(s', id))
  {
    var s' := Step(s, e);
    forall t | 0 <= t < |s'.tasks| && s'.tasks[t].pc != Collected ensures s'.tasks[t].node in s'.calls {
      if t >= |s.tasks| { NewTaskWasReady(s, e, t); }
    }
    forall id | id in s'.calls ensures TaskBegun(s', id) {
      if id in s.calls {
        StepKeepsTaskBegun(s, e, id);
      } else {
        assert s'.tasks[e.t].node == id && s'.tasks[e.t].pc != Collected;
      }
    }
  }

  lemma StepKeepsOrderlyInv(s: State, e: Event)
    requires OrderlyInv(s) && Enabled(s, e) && IsOrderly(s, e)
    ensures OrderlyInv(Step(s, e))
  {
    StepKeepsDepsSucceeded(s, e);
    StepKeepsCallsBegun(s, e);
  }

  lemma {:induction false} OrderlyInvariant(s: State, es: seq<Event>)
    requires Init(s) && IsOrderlyRun(s, es)
    ensures IsRun(s, es) && OrderlyInv(After(s, es)) && BasicInv(After(s, es))
    ensures SameGraph(s.nodes, After(s, es).nodes)
  {
    OrderlyRunIsRun(s, es);
    BasicInvariant(s, es);
    if es != [] {
      OrderlyInvariant(s, es[..|es| - 1]);
      StepKeepsOrderlyInv(After(s, es[..|es| - 1]), es[|es| - 1]);
    }
  }

  /** path[i + 1] is a dependency of path[i]. */
  ghost predicate IsDependencyPath(nodes: Nodes, path: seq<string>) {
    forall i :: 0 <= i < |path| - 1 ==> path[i] in nodes && path[i + 1] in nodes[path[i]].deps
  }

  lemma {:induction false} AncestorsSucceeded(s: State, path: seq<string>, i: nat)
    requires OrderlyInv(s) && IsDependencyPath(s.nodes, path) && 0 < i < |path|
    requires exists t :: 0 <= t < |s.tasks| && s.tasks[t].node == path[0]
    ensures path[i] in s.nodes && s.nodes[path[i]].status == Succeeded && path[i] in s.calls
    decreases i
  {
    if i > 1 {
      AncestorsSucceeded(s, path, i - 1);
      assert TaskBegun(s, path[i - 1]);
    }
    var t :| 0 <= t < |s.tasks| && s.tasks[t].node == path[i - 1];
    assert path[i - 1 + 1] in s.nodes[path[i - 1]].deps;
  }

  /** Ancestor safety and fast-fail: on every interleaved orderly run, when Submit is called for a
      node every transitive ancestor is registered, has been submitted, and has succeeded. So no
      descendant of a failed or unknown node is ever submitted. */
  lemma {:induction false} AncestorSafety(s: State, es: seq<Event>, t: nat, path: seq<string>, i: nat)
    requires Init(s) && IsOrderlyRun(s, es) && IsRun(s, es) && Enabled(After(s, es), Begin(t))
    requires IsDependencyPath(s.nodes, path) && 0 < i < |path| && path[0] == After(s, es).tasks[t].node
    ensures var a := After(s, es);
      path[i] in a.nodes && a.nodes[path[i]].status == Succeeded && path[i] in a.calls
  {
    OrderlyInvariant(s, es);
    AncestorsSucceeded(After(s, es), path, i);
  }

  ghost predicate CallOrdered(nodes: Nodes, calls: seq<string>, k: nat)
    requires k < |calls|
  {
    calls[k] in nodes && forall d :: d in nodes[calls[k]].deps ==> d in calls[..k]
  }

  ghost predicate CallsOrdered(nodes: Nodes, calls: seq<string>) {
    forall k :: 0 <= k < |calls| ==> CallOrdered(nodes, calls, k)
  }

  /** Every Submit call comes after the calls for all dependencies: the order of first
      submissions is a linear extension of the dependency order, interleaved or not. */
  lemma {:induction false} SubmissionOrder(s: State, es: seq<Event>)
    requires Init(s) && IsOrderlyRun(s, es) && IsRun(s, es)
    ensures CallsOrdered(s.nodes, After(s, es).calls)
  {
    if es != [] {
      var n := |es| - 1;
      var before, calls := After(s, es[..n]), After(s, es).calls;
      SubmissionOrder(s, es[..n]);
      OrderlyInvariant(s, es[..n]);
      assert calls == before.calls || (es[n].Begin? && calls == before.calls + [before.tasks[es[n].t].node]);
      forall k | 0 <= k < |calls| ensures CallOrdered(s.nodes, calls, k) {
        if k < |before.calls| {
          assert CallOrdered(s.nodes, before.calls, k);
          assert calls[..k] == before.calls[..k];
        } else {
          assert calls[..k] == before.calls && calls[k] == before.tasks[es[n].t].node;
          assert DepsSucceeded(before.nodes, before.nodes[calls[k]].deps);
          assert calls[k] in before.nodes.Keys;
        }
      }
    }
  }

  // Submitting twice.

  /** No node has two goroutines whose Submit may still be, or has been, accepted. */
  ghost predicate NoDoubleSubmit(s: State) {
    forall i, j :: 0 <= i < j < |s.tasks| && s.tasks[i].node == s.tasks[j].node ==>
      s.tasks[i].pc.Refused? || s.tasks[j].pc.Refused?
  }

  /** The event collects no node that a goroutine is still at work on. */
  ghost predicate CollectsOnlyIdle(s: State, e: Event) {
    forall t :: 0 <= t < |s.tasks| && IsOutstanding(s.tasks[t].pc) ==> s.tasks[t].node !in Collects(s, e)
  }

  /** A node is put in danger of a second accepted Submit exactly by a Start or NodeDone that
      finds it ready while a goroutine collected earlier has not yet marked it. */
  lemma DoubleSubmitExactly(s: State, e: Event)
    requires TasksKnown(s) && NoDoubleSubmit(s) && Enabled(s, e)
    ensures NoDoubleSubmit(Step(s, e)) <==> CollectsOnlyIdle(s, e)
  {
    var s' := Step(s, e);
    if CollectsOnlyIdle(s, e) {
      forall t | |s.tasks| <= t < |s'.tasks|
        ensures s'.tasks[t].node in Collects(s, e) && s'.tasks[t].node == e.batch[t - |s.tasks|]
      {
        NewTaskWasReady(s, e, t);
      }
    } else {
      var t :| 0 <= t < |s.tasks| && IsOutstanding(s.tasks[t].pc) && s.tasks[t].node in Collects(s, e);
      var u := CollectedTask(s, e, s.tasks[t].node);
      assert s'.tasks[t] == s.tasks[t] && s'.tasks[u].node == s'.tasks[t].node;
    }
  }

  // From danger to two accepted submits, and back.

  predicate WasAccepted(pc: Pc) {
    pc.Accepted? || pc.Marked?
  }

  /** Submit has returned nil to two goroutines of one node. */
  ghost predicate SubmittedTwice(s: State) {
    exists i, j :: 0 <= i < j < |s.tasks| && s.tasks[i].node == s.tasks[j].node
                   && WasAccepted(s.tasks[i].pc) && WasAccepted(s.tasks[j].pc)
  }

  predicate IsGoroutineEvent(e: Event) {
    e.Begin? || e.Return? || e.MarkSubmitted?
  }

  /** more goes on from es with goroutines only: no further call of Start or NodeDone. */
  predicate GoroutinesOnly(es: seq<Event>, more: seq<Event>) {
    es <= more && forall k :: |es| <= k < |more| ==> IsGoroutineEvent(more[k])
  }

  /** The goroutines alone can bring about two accepted submits of one node. */
  ghost predicate CanSubmitTwice(s: State, es: seq<Event>) {
    exists more :: GoroutinesOnly(es, more) && IsRun(s, more) && SubmittedTwice(After(s, more))
  }

  /** A goroutine that is not refused can get its nil, the others standing still. */
  lemma {:induction false} GetsAccepted(s: State, es: seq<Event>, t: nat) returns (more: seq<Event>)
    requires IsRun(s, es) && t < |After(s, es).tasks| && !After(s, es).tasks[t].pc.Refused?
    ensures GoroutinesOnly(es, more) && IsRun(s, more) && |After(s, more).tasks| == |After(s, es).tasks|
    ensures After(s, more).tasks == After(s, es).tasks[t := After(s, more).tasks[t]]
    ensures After(s, more).tasks[t].node == After(s, es).tasks[t].node && WasAccepted(After(s, more).tasks[t].pc)
  {
    more := es;
    if After(s, more).tasks[t].pc.Collected? { more := Extend(s, more, Begin(t)); }
    if After(s, more).tasks[t].pc.Calling? { more := Extend(s, more, Return(t, true)); }
  }

  lemma {:induction false} PairGetsAccepted(s: State, es: seq<Event>, i: nat, j: nat) returns (more: seq<Event>)
    requires IsRun(s, es) && i < j < |After(s, es).tasks| && After(s, es).tasks[i].node == After(s, es).tasks[j].node
    requires !After(s, es).tasks[i].pc.Refused? && !After(s, es).tasks[j].pc.Refused?
    ensures GoroutinesOnly(es, more) && IsRun(s, more) && SubmittedTwice(After(s, more))
  {
    var mid := GetsAccepted(s, es, i);
    more := GetsAccepted(s, mid, j);
    var tasks := After(s, more).tasks;
    assert tasks[i] == After(s, mid).tasks[i] && tasks[i].node == tasks[j].node;
  }

  lemma {:induction false} DangerComesTrue(s: State, es: seq<Event>)
    requires IsRun(s, es) && !NoDoubleSubmit(After(s, es))
    ensures CanSubmitTwice(s, es)
  {
    var tasks := After(s, es).tasks;
    var i, j :| 0 <= i < j < |tasks| && tasks[i].node == tasks[j].node && !tasks[i].pc.Refused? && !tasks[j].pc.Refused?;
    var more := PairGetsAccepted(s, es, i, j);
  }

  lemma GoroutineEventIsSafe(s: State, e: Event)
    requires NoDoubleSubmit(s) && TasksKnown(s) && Enabled(s, e) && IsGoroutineEvent(e)
    ensures NoDoubleSubmit(Step(s, e))
  {
    DoubleSubmitExactly(s, e);
  }

  lemma {:induction false} GoroutinesKeepSafe(s: State, es: seq<Event>, more: seq<Event>)
    requires Init(s) && IsRun(s, es) && IsRun(s, more) && GoroutinesOnly(es, more) && NoDoubleSubmit(After(s, es))
    ensures NoDoubleSubmit(After(s, more))
    decreases |more|
  {
    if more != es {
      var n := |more| - 1;
      GoroutinesKeepSafe(s, es, more[..n]);
      BasicInvariant(s, more[..n]);
      GoroutineEventIsSafe(After(s, more[..n]), more[n]);
    }
  }

  /** A state is in danger exactly when its goroutines, left to themselves, can get two accepted
      submits of one node. */
  lemma {:induction false} DangerExactly(s: State, es: seq<Event>)
    requires Init(s) && IsRun(s, es)
    ensures NoDoubleSubmit(After(s, es)) <==> !CanSubmitTwice(s, es)
  {
    if NoDoubleSubmit(After(s, es)) {
      forall more | GoroutinesOnly(es, more) && IsRun(s, more) ensures !SubmittedTwice(After(s, more)) {
        GoroutinesKeepSafe(s, es, more);
      }
    } else {
      DangerComesTrue(s, es);
    }
  }

  /** At no point of the run can the goroutines left to themselves submit a node twice. */
  ghost predicate NeverDoubles(s: State, es: seq<Event>)
    requires IsRun(s, es)
  {
    !CanSubmitTwice(s, es) && (es != [] ==> NeverDoubles(s, es[..|es| - 1]))
  }

  ghost predicate AlwaysIdleCollects(s: State, es: seq<Event>)
    requires IsRun(s, es)
  {
    es != [] ==> AlwaysIdleCollects(s, es[..|es| - 1]) && CollectsOnlyIdle(After(s, es[..|es| - 1]), es[|es| - 1])
  }

  /** So a run is one from none of whose points the goroutines could have gone on to submit a node
      twice, both times with a nil result, exactly when none of its calls of Start and NodeDone
      collects a node that is still being worked on. */
  lemma {:induction false} DoubleFreeRunsExactly(s: State, es: seq<Event>)
    requires Init(s) && IsRun(s, es)
    ensures NeverDoubles(s, es) <==> AlwaysIdleCollects(s, es)
  {
    DangerExactly(s, es);
    if es != [] {
      var n := |es| - 1;
      DoubleFreeRunsExactly(s, es[..n]);
      BasicInvariant(s, es[..n]);
      DangerExactly(s, es[..n]);
      if NeverDoubles(s, es[..n]) {
        DoubleSubmitExactly(After(s, es[..n]), es[n]);
      }
    }
  }

  ghost predicate AllFinished(s: State) {
    forall t :: 0 <= t < |s.tasks| ==> !IsOutstanding(s.tasks[t].pc)
  }

  /** If every Start and NodeDone begins after the goroutines of the earlier ones are finished,
      each node has at most one Submit that is not refused. */
  ghost predicate IsSerialRun(s: State, es: seq<Event>) {
    es == [] || (IsSerialRun(s, es[..|es| - 1]) && IsRun(s, es) &&
      (es[|es| - 1].Start? || es[|es| - 1].Done? ==>
         AllFinished(After(s, es[..|es| - 1]))))
  }

  lemma {:induction false} SerialRunsSubmitOnce(s: State, es: seq<Event>)
    requires Init(s) && IsSerialRun(s, es)
    ensures IsRun(s, es) && NoDoubleSubmit(After(s, es))
  {
    if es != [] {
      var n := |es| - 1;
      SerialRunsSubmitOnce(s, es[..n]);
      BasicInvariant(s, es[..n]);
      DoubleSubmitExactly(After(s, es[..n]), es[n]);
    }
  }

  function TwoHeld(a: string, b: string): Nodes {
    map[a := Node([], Held), b := Node([], Held)]
  }

  lemma CollectsBoth(s: State, a: string, b: string)
    requires a != b && s == State(TwoHeld(a, b), [], false, {}, [])
    ensures Enabled(s, Start([a, b]))
    ensures Step(s, Start([a, b])) == State(TwoHeld(a, b), [Task(a, Collected), Task(b, Collected)], true, {}, [])
  {
    assert Ready(s.nodes) == {a, b} == Elements([a, b]);
  }

  lemma CollectsSecondAgain(s: State, a: string, b: string)
    requires a != b && s == State(TwoHeld(a, b), [Task(a, Calling), Task(b, Collected)], true, {}, [a])
    ensures Enabled(s, Done(a, true, [b]))
    ensures Step(s, Done(a, true, [b])).tasks == [Task(a, Calling), Task(b, Collected), Task(b, Collected)]
    ensures Step(s, Done(a, true, [b])).calls == [a]
  {
    assert Ready(Report(s.nodes, a, true)) == {b} == Elements([b]);
  }

  lemma BeginsFirst(s: State, a: string, b: string)
    requires s == State(TwoHeld(a, b), [Task(a, Collected), Task(b, Collected)], true, {}, [])
    ensures Enabled(s, Begin(0))
    ensures Step(s, Begin(0)) == State(TwoHeld(a, b), [Task(a, Calling), Task(b, Collected)], true, {}, [a])
  {
    assert Step(s, Begin(0)).tasks == [Task(a, Calling), Task(b, Collected)];
    assert Step(s, Begin(0)).calls == [a];
  }

  lemma {:induction false} BothCollected(a: string, b: string) returns (s: State, es: seq<Event>)
    requires a != b
    ensures Init(s) && s.nodes.Keys == {a, b} && IsOrderlyRun(s, es) && IsRun(s, es) && |es| == 1
    ensures After(s, es) == State(TwoHeld(a, b), [Task(a, Collected), Task(b, Collected)], true, {}, [])
  {
    s := State(TwoHeld(a, b), [], false, {}, []);
    CollectsBoth(s, a, b);
    es := Extend(s, [], Start([a, b]));
  }

  lemma {:induction false} FirstIsCalled(a: string, b: string) returns (s: State, es: seq<Event>)
    requires a != b
    ensures Init(s) && s.nodes.Keys == {a, b} && IsOrderlyRun(s, es) && IsRun(s, es) && |es| == 2
    ensures After(s, es) == State(TwoHeld(a, b), [Task(a, Calling), Task(b, Collected)], true, {}, [a])
  {
    s, es := BothCollected(a, b);
    BeginsFirst(After(s, es), a, b);
    es := Extend(s, es, Begin(0));
  }

  lemma {:induction false} CollectedAgain(a: string, b: string) returns (s: State, es: seq<Event>)
    requires a != b
    ensures Init(s) && s.nodes.Keys == {a, b} && IsOrderlyRun(s, es) && IsRun(s, es) && |es| == 3
    ensures After(s, es).calls == [a]
    ensures After(s, es).tasks == [Task(a, Calling), Task(b, Collected), Task(b, Collected)]
  {
    s, es := FirstIsCalled(a, b);
    CollectsSecondAgain(After(s, es), a, b);
    es := Extend(s, es, Done(a, true, [b]));
  }

  /** Overlapping calls do submit a node twice, even with orderly reports: two independent nodes
      are collected by Start, the first is submitted and reported before the second's goroutine
      has run, and NodeDone collects the second again. */
  lemma {:induction false} DoubleSubmitHappens(a: string, b: string) returns (s: State, es: seq<Event>)
    requires a != b
    ensures Init(s) && s.nodes.Keys == {a, b} && IsOrderlyRun(s, es) && IsRun(s, es) && |es| == 5
    ensures After(s, es).calls == [a, b, b]
  {
    s, es := CollectedAgain(a, b);
    es := Extend(s, es, Begin(1));
    assert After(s, es).tasks == [Task(a, Calling), Task(b, Calling), Task(b, Collected)];
    es := Extend(s, es, Begin(2));
  }
}
