/** Any number of sessions submitting through one shared NodeAttemptQueue: every Submit call of a
    session's goroutine is one thread of the queue. */
module SessionsOverQueue {
  import opened Common
  import opened SessionGraph
  import S = SessionSystem
  import Q = QueueSystem
  import QueueProgress

  /** The goroutine, task of session, on whose behalf a queue thread runs. */
  datatype Owner = Owner(session: nat, task: nat)

  datatype State = State(sessions: seq<S.State>, queue: Q.State, owners: seq<Owner>)

  datatype Event =
    | Local(k: nat, e: S.Event)      // a mutex section of session k
    | Begin(k: nat, t: nat)          // goroutine t of session k calls queue.Submit
    | Inside(q: Q.Event)             // a thread moves inside the queue
    | Return(i: nat)                 // thread i's Submit returns to its goroutine

  predicate HasReturned(pc: Q.Pc) {
    pc.Returned? || pc.GaveUp?
  }

  predicate ReturnedNil(pc: Q.Pc) {
    pc.Returned? && pc.ok
  }

  ghost predicate Enabled(s: State, e: Event) {
    match e
    case Local(k, se) =>
      k < |s.sessions| && (se.Start? || se.Done? || se.MarkSubmitted?) && S.Enabled(s.sessions[k], se)
    case Begin(k, t) => k < |s.sessions| && S.Enabled(s.sessions[k], S.Begin(t))
    case Inside(q) => !q.Call? && Q.Enabled(s.queue, q)
    case Return(i) =>
      && i < |s.queue.threads| && i < |s.owners| && HasReturned(s.queue.threads[i])
      && s.owners[i].session < |s.sessions|
      && S.Enabled(s.sessions[s.owners[i].session], S.Return(s.owners[i].task, true))
  }

  ghost function SessionStep(s: State, k: nat, e: S.Event): State
    requires k < |s.sessions| && S.Enabled(s.sessions[k], e)
  {
    s.(sessions := s.sessions[k := S.Step(s.sessions[k], e)])
  }

  ghost function Step(s: State, e: Event): State
    requires Enabled(s, e)
  {
    match e
    case Local(k, se) => SessionStep(s, k, se)
    case Begin(k, t) => SessionStep(s, k, S.Begin(t)).(queue := Q.Step(s.queue, Q.Call), owners := s.owners + [Owner(k, t)])
    case Inside(q) => s.(queue := Q.Step(s.queue, q))
    case Return(i) => SessionStep(s, s.owners[i].session, S.Return(s.owners[i].task, ReturnedNil(s.queue.threads[i])))
  }

  ghost predicate Init(s: State) {
    (forall k :: 0 <= k < |s.sessions| ==> S.Init(s.sessions[k])) && Q.Init(s.queue) && s.owners == []
  }

  ghost predicate IsRun(s: State, es: seq<Event>)
    decreases |es|, 0
  {
    es == [] || (IsRun(s, es[..|es| - 1]) && Enabled(After(s, es[..|es| - 1]), es[|es| - 1]))
  }

  ghost function After(s: State, es: seq<Event>): State
    requires IsRun(s, es)
    decreases |es|, 1
  {
    if es == [] then s else Step(After(s, es[..|es| - 1]), es[|es| - 1])
  }

  /** Each session is reported to in an orderly way. */
  ghost predicate IsOrderly(s: State, e: Event)
    requires Enabled(s, e)
  {
    e.Local? ==> S.IsOrderly(s.sessions[e.k], e.e)
  }

  ghost predicate IsOrderlyRun(s: State, es: seq<Event>) {
    es == [] || (IsOrderlyRun(s, es[..|es| - 1]) && IsRun(s, es) && IsOrderly(After(s, es[..|es| - 1]), es[|es| - 1]))
  }

  // Each part, seen alone, performs one of its own runs.

  /** What the queue does at an event, if anything. */
  function QueueEvent(e: Event): Option<Q.Event> {
    match e
    case Begin(_, _) => Some(Q.Call)
    case Inside(q) => Some(q)
    case _ => None
  }

  lemma QueueStep(s: State, e: Event)
    requires Enabled(s, e)
    ensures var q := QueueEvent(e);
      && (q.None? ==> Step(s, e).queue == s.queue)
      && (q.Some? ==> Q.Enabled(s.queue, q.value) && Step(s, e).queue == Q.Step(s.queue, q.value))
    ensures |Step(s, e).sessions| == |s.sessions|
  {}

  lemma QueueProjectionGrows(q0: Q.State, qs: seq<Q.Event>, before: State, e: Event) returns (more: seq<Q.Event>)
    requires Enabled(before, e) && Q.IsRun(q0, qs) && Q.After(q0, qs) == before.queue
    ensures more == qs + match QueueEvent(e) { case None => [] case Some(q) => [q] }
    ensures Q.IsRun(q0, more) && Q.After(q0, more) == Step(before, e).queue
  {
    QueueStep(before, e);
    more := qs;
    var q := QueueEvent(e);
    if q.Some? {
      more := qs + [q.value];
      assert more[..|qs|] == qs;
    }
  }

  function QueueEvents(es: seq<Event>): seq<Q.Event> {
    if es == [] then []
    else
      var n := |es| - 1;
      QueueEvents(es[..n]) + match QueueEvent(es[n]) { case None => [] case Some(q) => [q] }
  }

  lemma {:induction false} QueueProjection(s: State, es: seq<Event>) returns (qs: seq<Q.Event>)
    requires IsRun(s, es)
    ensures qs == QueueEvents(es)
    ensures Q.IsRun(s.queue, qs) && Q.After(s.queue, qs) == After(s, es).queue
    ensures |After(s, es).sessions| == |s.sessions|
  {
    qs := [];
    if es != [] {
      var n := |es| - 1;
      qs := QueueProjection(s, es[..n]);
      qs := QueueProjectionGrows(s.queue, qs, After(s, es[..n]), es[n]);
      QueueStep(After(s, es[..n]), es[n]);
    }
  }

  /** Apart from new calls, the queue does what the composition's events say. */
  lemma {:induction false} QueueEventsAreInside(es: seq<Event>, q: Q.Event)
    requires !q.Call?
    ensures q in QueueEvents(es) <==> Inside(q) in es
  {
    if es != [] {
      var n := |es| - 1;
      QueueEventsAreInside(es[..n], q);
      assert es == es[..n] + [es[n]];
    }
  }

  /** What session k does at an event, if anything. */
  ghost function SessionEvent(s: State, e: Event, k: nat): Option<S.Event>
    requires Enabled(s, e)
  {
    match e
    case Local(j, se) => if j == k then Some(se) else None
    case Begin(j, t) => if j == k then Some(S.Begin(t)) else None
    case Inside(_) => None
    case Return(i) => if s.owners[i].session == k
      then Some(S.Return(s.owners[i].task, ReturnedNil(s.queue.threads[i]))) else None
  }

  lemma SessionMoves(s: State, e: Event, k: nat)
    requires Enabled(s, e) && k < |s.sessions|
    ensures |Step(s, e).sessions| == |s.sessions|
    ensures var se := SessionEvent(s, e, k);
      && (se.None? ==> Step(s, e).sessions[k] == s.sessions[k])
      && (se.Some? ==>
            && S.Enabled(s.sessions[k], se.value) && Step(s, e).sessions[k] == S.Step(s.sessions[k], se.value)
            && (IsOrderly(s, e) ==> S.IsOrderly(s.sessions[k], se.value)))
  {}

  lemma SessionProjectionGrows(s0: S.State, ses: seq<S.Event>, before: State, e: Event, k: nat, orderly: bool)
    returns (more: seq<S.Event>)
    requires Enabled(before, e) && k < |before.sessions| && (orderly ==> IsOrderly(before, e))
    requires S.IsRun(s0, ses) && S.After(s0, ses) == before.sessions[k] && (orderly ==> S.IsOrderlyRun(s0, ses))
    ensures |Step(before, e).sessions| == |before.sessions|
    ensures S.IsRun(s0, more) && S.After(s0, more) == Step(before, e).sessions[k]
    ensures orderly ==> S.IsOrderlyRun(s0, more)
  {
    SessionMoves(before, e, k);
    more := ses;
    var se := SessionEvent(before, e, k);
    if se.Some? {
      more := S.Extend(s0, ses, se.value);
      assert more[..|ses|] == ses;
    }
  }

  lemma {:induction false} SessionProjection(s: State, es: seq<Event>, k: nat) returns (ses: seq<S.Event>)
    requires IsRun(s, es) && k < |s.sessions|
    ensures |After(s, es).sessions| == |s.sessions|
    ensures S.IsRun(s.sessions[k], ses) && S.After(s.sessions[k], ses) == After(s, es).sessions[k]
    ensures IsOrderlyRun(s, es) ==> S.IsOrderlyRun(s.sessions[k], ses)
  {
    ses := [];
    if es != [] {
      var n := |es| - 1;
      ses := SessionProjection(s, es[..n], k);
      ses := SessionProjectionGrows(s.sessions[k], ses, After(s, es[..n]), es[n], k, IsOrderlyRun(s, es));
    }
  }

  // How goroutines and queue threads correspond.

  ghost predicate OwnerValid(s: State, i: nat)
    requires i < |s.owners|
  {
    s.owners[i].session < |s.sessions| && s.owners[i].task < |s.sessions[s.owners[i].session].tasks|
  }

  function TaskOf(s: State, i: nat): S.Task
    requires i < |s.owners|
    requires s.owners[i].session < |s.sessions| && s.owners[i].task < |s.sessions[s.owners[i].session].tasks|
  {
    s.sessions[s.owners[i].session].tasks[s.owners[i].task]
  }

  /** How far the goroutine of a thread can be. */
  ghost predicate Corresponds(task: S.Pc, thread: Q.Pc) {
    match task
    case Collected => false
    case Calling => true
    case Accepted => ReturnedNil(thread)
    case Marked => ReturnedNil(thread)
    case Refused => HasReturned(thread) && !ReturnedNil(thread)
  }

  ghost predicate Owned(s: State, k: nat, t: nat) {
    Owner(k, t) in s.owners
  }

  ghost predicate OwnersDistinct(s: State) {
    forall i, j :: 0 <= i < j < |s.owners| ==> s.owners[i] != s.owners[j]
  }

  ghost predicate OwnersCorrespond(s: State) {
    && |s.owners| == |s.queue.threads|
    && (forall i :: 0 <= i < |s.owners| ==> OwnerValid(s, i) && Corresponds(TaskOf(s, i).pc, s.queue.threads[i]))
  }

  ghost predicate BegunAreOwned(s: State) {
    forall k, t :: 0 <= k < |s.sessions| && 0 <= t < |s.sessions[k].tasks| && !s.sessions[k].tasks[t].pc.Collected? ==>
      Owned(s, k, t)
  }

  ghost predicate Linked(s: State) {
    OwnersDistinct(s) && OwnersCorrespond(s) && BegunAreOwned(s)
  }

  lemma StepKeepsCorrespondence(s: State, e: Event)
    requires OwnersDistinct(s) && OwnersCorrespond(s) && Enabled(s, e)
    ensures OwnersCorrespond(Step(s, e))
  {
    var s' := Step(s, e);
    forall i | 0 <= i < |s'.owners|
      ensures OwnerValid(s', i) && Corresponds(TaskOf(s', i).pc, s'.queue.threads[i])
    {
      if i < |s.owners| { assert s'.owners[i] == s.owners[i] && OwnerValid(s, i); }
    }
  }

  lemma StepKeepsBegunOwned(s: State, e: Event)
    requires BegunAreOwned(s) && Enabled(s, e)
    ensures BegunAreOwned(Step(s, e))
  {
    var s' := Step(s, e);
    forall k, t | 0 <= k < |s'.sessions| && 0 <= t < |s'.sessions[k].tasks| && !s'.sessions[k].tasks[t].pc.Collected?
      ensures Owned(s', k, t)
    {
      if e.Local? && e.k == k && t >= |s.sessions[k].tasks| {
        S.NewTaskWasReady(s.sessions[k], e.e, t);
      }
      assert Owned(s, k, t) || e == Begin(k, t);
    }
  }

  lemma StepKeepsOwnersDistinct(s: State, e: Event)
    requires OwnersDistinct(s) && OwnersCorrespond(s) && Enabled(s, e)
    ensures OwnersDistinct(Step(s, e))
  {
    if e.Begin? {
      forall i | 0 <= i < |s.owners| ensures s.owners[i] != Owner(e.k, e.t) {
        assert OwnerValid(s, i) && Corresponds(TaskOf(s, i).pc, s.queue.threads[i]);
      }
    }
  }

  lemma StepKeepsLinked(s: State, e: Event)
    requires Linked(s) && Enabled(s, e)
    ensures Linked(Step(s, e))
  {
    StepKeepsCorrespondence(s, e);
    StepKeepsBegunOwned(s, e);
    StepKeepsOwnersDistinct(s, e);
  }

  lemma {:induction false} AlwaysLinked(s: State, es: seq<Event>)
    requires Init(s) && IsRun(s, es)
    ensures Linked(After(s, es))
  {
    if es != [] {
      AlwaysLinked(s, es[..|es| - 1]);
      StepKeepsLinked(After(s, es[..|es| - 1]), es[|es| - 1]);
    } else {
      assert forall k :: 0 <= k < |s.sessions| ==> S.Init(s.sessions[k]);
    }
  }

  /** However many sessions share the queue, at most cap of their submits are inside the inner
      submitter at any moment, and the mark Stats reports is never above cap. */
  lemma {:induction false} SharedBound(s: State, es: seq<Event>)
    requires Init(s) && IsRun(s, es)
    ensures Count(After(s, es).queue.threads, Q.InInner) <= s.queue.cap
    ensures After(s, es).queue.max <= s.queue.cap
  {
    var qs := QueueProjection(s, es);
    Q.BoundedRelease(s.queue, qs);
    Q.HighWaterExact(s.queue, qs);
  }

  // From the inner submitter's answer to the node.

  /** Thread i runs for node id of session k. */
  ghost predicate RunsFor(a: State, i: nat, k: nat, id: string) {
    && i < |a.owners| && i < |a.queue.threads| && OwnerValid(a, i)
    && a.owners[i].session == k && TaskOf(a, i).node == id
  }

  /** In the run, the inner submitter has returned nil to a thread that runs for node id. */
  ghost predicate InnerAccepted(a: State, es: seq<Event>, i: nat, k: nat, id: string) {
    RunsFor(a, i, k, id) && Inside(Q.InnerDone(i, true)) in es
  }

  /** A thread's program counter against the answers it has been given. */
  lemma {:induction false} AnswersOfThread(s: State, es: seq<Event>, i: nat)
    requires Init(s) && IsRun(s, es) && i < |After(s, es).queue.threads|
    ensures var pc := After(s, es).queue.threads[i];
      && (forall ok :: Inside(Q.InnerDone(i, ok)) in es <==> Q.HasAnswer(pc) && pc.ok == ok)
      && (pc.GaveUp? <==> Inside(Q.Cancel(i)) in es)
  {
    var qs := QueueProjection(s, es);
    Q.ResultIsInnerAnswer(s.queue, qs, i);
    forall ok ensures Q.InnerDone(i, ok) in qs <==> Inside(Q.InnerDone(i, ok)) in es {
      QueueEventsAreInside(es, Q.InnerDone(i, ok));
    }
    QueueEventsAreInside(es, Q.Cancel(i));
  }

  /** A goroutine's Submit has returned nil only if the inner submitter has returned nil to its thread,
      and an error only if the inner submitter has returned one or the wait was canceled. */
  lemma {:induction false} GoroutineGetsInnerAnswer(s: State, es: seq<Event>, i: nat)
    requires Init(s) && IsRun(s, es) && i < |After(s, es).owners|
    ensures var a := After(s, es); i < |a.queue.threads| && OwnerValid(a, i)
    ensures var pc := TaskOf(After(s, es), i).pc;
      && (pc.Accepted? || pc.Marked? ==> Inside(Q.InnerDone(i, true)) in es)
      && (pc.Refused? ==> Inside(Q.InnerDone(i, false)) in es || Inside(Q.Cancel(i)) in es)
      && (pc.Refused? ==> Inside(Q.InnerDone(i, true)) !in es)
  {
    AlwaysLinked(s, es);
    assert OwnerValid(After(s, es), i) && Corresponds(TaskOf(After(s, es), i).pc, After(s, es).queue.threads[i]);
    AnswersOfThread(s, es, i);
  }

  /** A node is submitted only after the inner submitter returned nil for a goroutine of that node. */
  lemma {:induction false} SubmittedMeansInnerNil(s: State, es: seq<Event>, k: nat, id: string) returns (i: nat)
    requires Init(s) && IsRun(s, es) && k < |s.sessions| && |After(s, es).sessions| == |s.sessions|
    requires id in After(s, es).sessions[k].nodes && After(s, es).sessions[k].nodes[id].status == Submitted
    ensures InnerAccepted(After(s, es), es, i, k, id)
  {
    var a := After(s, es);
    AlwaysLinked(s, es);
    var ses := SessionProjection(s, es, k);
    S.AlwaysExplained(s.sessions[k], ses);
    var t :| 0 <= t < |a.sessions[k].tasks| && a.sessions[k].tasks[t] == S.Task(id, S.Marked);
    assert Owned(a, k, t);
    i :| 0 <= i < |a.owners| && a.owners[i] == Owner(k, t);
    GoroutineGetsInnerAnswer(s, es, i);
  }

  /** A submit canceled while it waited leaves its node alone: an unreported node for which the inner
      submitter has not returned nil, because its submits gave up, failed or are still going on, is
      held. */
  lemma {:induction false} CanceledNodeStaysHeld(s: State, es: seq<Event>, k: nat, id: string)
    requires Init(s) && IsRun(s, es) && k < |s.sessions| && |After(s, es).sessions| == |s.sessions|
    requires id in After(s, es).sessions[k].nodes && id !in After(s, es).sessions[k].reported
    requires forall i :: !InnerAccepted(After(s, es), es, i, k, id)
    ensures After(s, es).sessions[k].nodes[id].status == Held
  {
    var ses := SessionProjection(s, es, k);
    S.AlwaysExplained(s.sessions[k], ses);
    if After(s, es).sessions[k].nodes[id].status == Submitted {
      var i := SubmittedMeansInnerNil(s, es, k, id);
    }
  }

  /** The other way round: once a goroutine whose thread was answered nil has ended, its node is not
      held any more. */
  lemma {:induction false} InnerNilIsNotLost(s: State, es: seq<Event>, i: nat, k: nat, id: string)
    requires Init(s) && IsRun(s, es) && k < |s.sessions| && |After(s, es).sessions| == |s.sessions|
    requires InnerAccepted(After(s, es), es, i, k, id) && !S.IsOutstanding(TaskOf(After(s, es), i).pc)
    ensures id in After(s, es).sessions[k].nodes && After(s, es).sessions[k].nodes[id].status != Held
  {
    GoroutineGetsInnerAnswer(s, es, i);
    var ses := SessionProjection(s, es, k);
    S.BasicInvariant(s.sessions[k], ses);
    assert TaskOf(After(s, es), i) == After(s, es).sessions[k].tasks[After(s, es).owners[i].task];
  }

  /** No goroutine is left hanging in Submit: with at least one slot, while one is inside, its own call
      can return or some thread of the queue can move, without any wait being canceled; and by
      QueueProgress.RunsAreBounded the queue's threads have only so many moves. */
  lemma {:induction false} SubmitComesBack(s: State, es: seq<Event>, k: nat, t: nat) returns (e: Event)
    requires Init(s) && s.queue.cap > 0 && IsRun(s, es) && k < |After(s, es).sessions|
    requires t < |After(s, es).sessions[k].tasks| && After(s, es).sessions[k].tasks[t].pc.Calling?
    ensures Enabled(After(s, es), e)
    ensures (e.Return? && e.i < |After(s, es).owners| && After(s, es).owners[e.i] == Owner(k, t))
         || (e.Inside? && !e.q.Cancel?)
  {
    var a := After(s, es);
    AlwaysLinked(s, es);
    assert Owned(a, k, t);
    var i :| 0 <= i < |a.owners| && a.owners[i] == Owner(k, t);
    assert OwnerValid(a, i);
    if QueueProgress.IsDone(a.queue.threads[i]) {
      e := Return(i);
    } else {
      var qs := QueueProjection(s, es);
      var q := QueueProgress.SomeThreadCanMove(s.queue, qs, i);
      e := Inside(q);
    }
  }

  /** The end-to-end guarantee: with orderly reports, when a thread of the shared queue is inside
      the inner submitter for some session's node, every transitive ancestor of that node is
      registered in that session and has succeeded. */
  lemma {:induction false} InnerSubmitIsSafe(s: State, es: seq<Event>, i: nat, path: seq<string>, j: nat)
    requires Init(s) && IsOrderlyRun(s, es) && IsRun(s, es)
    requires i < |After(s, es).queue.threads| && i < |After(s, es).owners| && OwnerValid(After(s, es), i)
    requires After(s, es).queue.threads[i].Inner?
    requires var o := After(s, es).owners[i];
      && S.IsDependencyPath(After(s, es).sessions[o.session].nodes, path) && 0 < j < |path|
      && path[0] == TaskOf(After(s, es), i).node
    ensures var nodes := After(s, es).sessions[After(s, es).owners[i].session].nodes;
      path[j] in nodes && nodes[path[j]].status == Succeeded
  {
    var a := After(s, es);
    var qs := QueueProjection(s, es);
    var o := a.owners[i];
    var ses := SessionProjection(s, es, o.session);
    S.OrderlyInvariant(s.sessions[o.session], ses);
    assert a.sessions[o.session].tasks[o.task].node == path[0];
    S.AncestorsSucceeded(a.sessions[o.session], path, j);
  }
}
