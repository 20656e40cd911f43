/** Calls of the object against the interleaved session: one call's goroutines end the same way in
    every order, and one such order runs them one after the other. */
module SessionRefinement {
  import opened Common
  import opened SessionGraph
  import opened SessionSystem
  import Object = DagSession

  // Every order of one call's goroutines ends the same way.

  /** What the mutex section of a call leaves in the nodes. */
  ghost function Reported(a: State, e: Event): Nodes {
    if e.Done? then Report(a.nodes, e.id, e.success) else a.nodes
  }

  ghost function MarkedSince(b: State, n: nat): set<string> {
    set t | n <= t < |b.tasks| && b.tasks[t].pc.Marked? :: b.tasks[t].node
  }

  ghost function RefusedSince(b: State, n: nat): set<string> {
    set t | n <= t < |b.tasks| && b.tasks[t].pc.Refused? :: b.tasks[t].node
  }

  ghost function BegunSince(b: State, n: nat): set<string> {
    set t | n <= t < |b.tasks| && !b.tasks[t].pc.Collected? :: b.tasks[t].node
  }

  /** A call that began in a is in progress in b: its goroutines are the last ones. */
  ghost predicate InProgress(a: State, batch: seq<string>, b: State) {
    && |b.tasks| == |a.tasks| + |batch|
    && (forall t :: 0 <= t < |a.tasks| ==> b.tasks[t] == a.tasks[t])
    && (forall t :: |a.tasks| <= t < |b.tasks| ==> b.tasks[t].node == batch[t - |a.tasks|])
    && (forall i, j :: 0 <= i < j < |batch| ==> batch[i] != batch[j])
  }

  /** From a to b, Submit has been called once for each node of ids, in some order. */
  ghost predicate CalledOnce(a: State, b: State, ids: set<string>) {
    a.calls <= b.calls && IsOrderingOf(b.calls[|a.calls|..], ids)
  }

  /** The nodes and calls of b are explained by how far each goroutine of the call is. */
  ghost predicate Explained(a: State, reported: Nodes, b: State) {
    && b.nodes == MarkAll(reported, MarkedSince(b, |a.tasks|))
    && CalledOnce(a, b, BegunSince(b, |a.tasks|))
  }

  lemma CallBegins(a: State, e: Event)
    requires (e.Start? || e.Done?) && Enabled(a, e)
    ensures InProgress(a, e.batch, Step(a, e)) && Explained(a, Reported(a, e), Step(a, e))
  {
    var b := Step(a, e);
    assert MarkedSince(b, |a.tasks|) == {} && BegunSince(b, |a.tasks|) == {};
    assert MarkAll(Reported(a, e), {}) == Reported(a, e);
  }

  /** The goroutines of earlier calls are done, so it is one of this call's that moves. */
  lemma MoverIsNew(a: State, batch: seq<string>, b: State, e: Event)
    requires AllFinished(a) && InProgress(a, batch, b) && Enabled(b, e) && IsGoroutineEvent(e)
    ensures |a.tasks| <= e.t < |b.tasks| && InProgress(a, batch, Step(b, e))
    ensures forall t :: |a.tasks| <= t < |b.tasks| && b.tasks[t].node == b.tasks[e.t].node ==> t == e.t
  {}

  lemma MarkedGrows(b: State, e: Event, n: nat)
    requires Enabled(b, e) && IsGoroutineEvent(e) && n <= e.t
    ensures MarkedSince(Step(b, e), n) == MarkedSince(b, n) + if e.MarkSubmitted? then {b.tasks[e.t].node} else {}
  {
    var b' := Step(b, e);
    forall id | id in MarkedSince(b, n) ensures id in MarkedSince(b', n) {
      var t :| n <= t < |b.tasks| && b.tasks[t].pc.Marked? && b.tasks[t].node == id;
      assert b'.tasks[t] == b.tasks[t];
    }
    if e.MarkSubmitted? { assert b'.tasks[e.t] == Task(b.tasks[e.t].node, Marked); }
  }

  lemma BegunGrows(b: State, e: Event, n: nat)
    requires Enabled(b, e) && IsGoroutineEvent(e) && n <= e.t
    ensures BegunSince(Step(b, e), n) == BegunSince(b, n) + if e.Begin? then {b.tasks[e.t].node} else {}
  {
    var b' := Step(b, e);
    forall id | id in BegunSince(b, n) ensures id in BegunSince(b', n) {
      var t :| n <= t < |b.tasks| && !b.tasks[t].pc.Collected? && b.tasks[t].node == id;
      assert !b'.tasks[t].pc.Collected? && b'.tasks[t].node == id;
    }
    if e.Begin? { assert b'.tasks[e.t] == Task(b.tasks[e.t].node, Calling); }
  }

  lemma CallsGrow(a: State, b: State, e: Event, n: nat)
    requires Enabled(b, e) && IsGoroutineEvent(e) && n <= e.t && CalledOnce(a, b, BegunSince(b, n))
    requires forall t :: n <= t < |b.tasks| && b.tasks[t].node == b.tasks[e.t].node ==> t == e.t
    ensures CalledOnce(a, Step(b, e), BegunSince(Step(b, e), n))
  {
    BegunGrows(b, e, n);
    if e.Begin? {
      var id := b.tasks[e.t].node;
      OrderingGrows(b.calls[|a.calls|..], BegunSince(b, n), id);
      assert Step(b, e).calls[|a.calls|..] == b.calls[|a.calls|..] + [id];
    }
  }

  lemma NodesGrow(reported: Nodes, b: State, e: Event, n: nat)
    requires Enabled(b, e) && IsGoroutineEvent(e) && n <= e.t && b.tasks[e.t].node in reported
    requires b.nodes == MarkAll(reported, MarkedSince(b, n))
    ensures Step(b, e).nodes == MarkAll(reported, MarkedSince(Step(b, e), n))
  {
    MarkedGrows(b, e, n);
    if e.MarkSubmitted? { MarkAllStep(reported, MarkedSince(b, n), b.tasks[e.t].node); }
  }

  lemma StepKeepsExplained(a: State, batch: seq<string>, reported: Nodes, b: State, e: Event)
    requires AllFinished(a) && InProgress(a, batch, b) && Enabled(b, e) && IsGoroutineEvent(e)
    requires Explained(a, reported, b) && Elements(batch) <= reported.Keys
    ensures InProgress(a, batch, Step(b, e)) && Explained(a, reported, Step(b, e))
  {
    MoverIsNew(a, batch, b, e);
    assert b.tasks[e.t].node in Elements(batch);
    NodesGrow(reported, b, e, |a.tasks|);
    CallsGrow(a, b, e, |a.tasks|);
  }

  lemma {:induction false} CallIsExplained(s: State, es: seq<Event>, e: Event, more: seq<Event>)
    requires IsRun(s, es) && AllFinished(After(s, es)) && (e.Start? || e.Done?) && Enabled(After(s, es), e)
    requires GoroutinesOnly(es + [e], more) && IsRun(s, more)
    ensures InProgress(After(s, es), e.batch, After(s, more))
    ensures Explained(After(s, es), Reported(After(s, es), e), After(s, more))
    decreases |more|
  {
    var a := After(s, es);
    if more == es + [e] {
      var first := Extend(s, es, e);
      CallBegins(a, e);
    } else {
      var n := |more| - 1;
      CallIsExplained(s, es, e, more[..n]);
      assert Collects(a, e) <= Reported(a, e).Keys;
      StepKeepsExplained(a, e.batch, Reported(a, e), After(s, more[..n]), more[n]);
    }
  }

  /** When the goroutines are done each collected node has been called, and is marked or refused. */
  lemma AllSettled(a: State, batch: seq<string>, ids: set<string>, b: State)
    requires InProgress(a, batch, b) && AllFinished(b) && IsOrderingOf(batch, ids)
    ensures MarkedSince(b, |a.tasks|) == ids - RefusedSince(b, |a.tasks|)
    ensures BegunSince(b, |a.tasks|) == ids
  {
    var n := |a.tasks|;
    forall id | id in ids
      ensures id in BegunSince(b, n) && (id in MarkedSince(b, n) <==> id !in RefusedSince(b, n))
    {
      OrderingMembers(batch, ids, id);
      var j :| 0 <= j < |batch| && batch[j] == id;
      assert b.tasks[n + j].node == id && !IsOutstanding(b.tasks[n + j].pc);
      assert forall t :: n <= t < |b.tasks| && b.tasks[t].node == id ==> t == n + j;
    }
    forall t | n <= t < |b.tasks| ensures b.tasks[t].node in ids {
      OrderingMembers(batch, ids, batch[t - n]);
    }
  }

  /** However the goroutines of one call are interleaved, when they are done the nodes are those of
      the mutex section with every collected node marked but the refused ones, and Submit has been
      called once for each collected node. */
  lemma {:induction false} EveryOrderEndsAlike(s: State, es: seq<Event>, e: Event, more: seq<Event>)
    requires IsRun(s, es) && AllFinished(After(s, es)) && (e.Start? || e.Done?) && Enabled(After(s, es), e)
    requires GoroutinesOnly(es + [e], more) && IsRun(s, more) && AllFinished(After(s, more))
    ensures var a, b := After(s, es), After(s, more);
      && b.nodes == MarkAll(Reported(a, e), Collects(a, e) - RefusedSince(b, |a.tasks|))
      && CalledOnce(a, b, Collects(a, e))
  {
    CallIsExplained(s, es, e, more);
    AllSettled(After(s, es), e.batch, Collects(After(s, es), e), After(s, more));
  }

  /** From es on, the call e runs to its end with exactly the nodes of refused refused. */
  ghost predicate Completes(s: State, es: seq<Event>, e: Event, more: seq<Event>, refused: set<string>) {
    && IsRun(s, es) && Enabled(After(s, es), e) && GoroutinesOnly(es + [e], more) && IsRun(s, more)
    && AllFinished(After(s, more))
    && RefusedSince(After(s, more), |After(s, es).tasks|) == Collects(After(s, es), e) * refused
  }

  /** The session system and the object stand at the same nodes, no goroutine at work. */
  ghost predicate Agrees(s: State, es: seq<Event>, nodes: Nodes) {
    IsRun(s, es) && AllFinished(After(s, es)) && After(s, es).nodes == nodes
  }

  lemma {:induction false} CallAgrees(s: State, es: seq<Event>, e: Event, more: seq<Event>, refused: set<string>, nodes: Nodes)
    requires Agrees(s, es, nodes) && (e.Start? || e.Done?) && Completes(s, es, e, more, refused)
    ensures var a := After(s, es);
      && After(s, more).nodes == MarkAll(Reported(a, e), Collects(a, e) - refused)
      && CalledOnce(a, After(s, more), Collects(a, e))
  {
    EveryOrderEndsAlike(s, es, e, more);
    var a := After(s, es);
    assert Collects(a, e) - Collects(a, e) * refused == Collects(a, e) - refused;
  }

  /** The object's Start ends where every interleaving of the call's goroutines ends, with the same
      submits made: its loop over the batch stands for all of them. */
  method StartAgrees(session: Object.DagSession, refused: set<string>, ghost s: State, ghost es: seq<Event>)
    returns (err: Option<Object.SessionError>, ghost batch: seq<string>)
    requires session.Valid() && Agrees(s, es, session.nodes)
    modifies session
    ensures session.attempts == old(session.attempts) + Calls(batch, refused)
    ensures forall order, more :: Completes(s, es, Start(order), more, refused) ==>
              && Agrees(s, more, session.nodes)
              && CalledOnce(After(s, es), After(s, more), Elements(batch))
  {
    ghost var before := session.nodes;
    err, batch := session.Start(refused);
    forall order, more | Completes(s, es, Start(order), more, refused)
      ensures Agrees(s, more, session.nodes)
      ensures CalledOnce(After(s, es), After(s, more), Elements(batch))
    {
      CallAgrees(s, es, Start(order), more, refused, before);
    }
  }

  /** The same for NodeDone. */
  method NodeDoneAgrees(session: Object.DagSession, id: string, success: bool, refused: set<string>,
                        ghost s: State, ghost es: seq<Event>)
    returns (err: Option<Object.SessionError>, ghost batch: seq<string>)
    requires session.Valid() && Agrees(s, es, session.nodes)
    modifies session
    ensures session.attempts == old(session.attempts) + Calls(batch, refused)
    ensures forall order, more :: Completes(s, es, Done(id, success, order), more, refused) ==>
              && Agrees(s, more, session.nodes)
              && CalledOnce(After(s, es), After(s, more), Elements(batch))
  {
    ghost var before := session.nodes;
    err, batch := session.NodeDone(id, success, refused);
    ghost var ready := if id in before && success then Ready(Report(before, id, true)) else {};
    assert Elements(batch) == ready;
    forall order, more | Completes(s, es, Done(id, success, order), more, refused)
      ensures Agrees(s, more, session.nodes)
      ensures CalledOnce(After(s, es), After(s, more), Elements(batch))
    {
      CallAgrees(s, es, Done(id, success, order), more, refused, before);
    }
  }

  // And one order runs them one after the other.

  /** The last |batch| goroutines are those of batch, the first i of them and all older ones done. */
  ghost predicate BatchAt(a: State, batch: seq<string>, i: nat) {
    && i <= |batch| <= |a.tasks|
    && (forall t :: 0 <= t < |a.tasks| - |batch| + i ==> !IsOutstanding(a.tasks[t].pc))
    && (forall j :: i <= j < |batch| ==> a.tasks[|a.tasks| - |batch| + j] == Task(batch[j], Collected))
  }

  /** From a to b the goroutine of one node has run. */
  ghost predicate Ran(a: State, b: State, id: string, ok: bool) {
    && b.calls == a.calls + [id] && b.started == a.started && b.reported == a.reported
    && b.nodes == if ok then Mark(a.nodes, id) else a.nodes
  }

  /** From a to b the goroutines of the first i nodes of batch have run. */
  ghost predicate RanAll(a: State, b: State, batch: seq<string>, refused: set<string>, i: nat)
    requires i <= |batch|
  {
    && b.calls == a.calls + batch[..i] && b.started == a.started && b.reported == a.reported
    && b.nodes == MarkAll(a.nodes, Elements(batch[..i]) - refused)
  }

  lemma RanOneMore(a: State, b: State, c: State, batch: seq<string>, refused: set<string>, i: nat)
    requires i < |batch| && batch[i] in a.nodes
    requires RanAll(a, b, batch, refused, i) && Ran(b, c, batch[i], batch[i] !in refused)
    ensures RanAll(a, c, batch, refused, i + 1)
  {
    var accepted := Elements(batch[..i]) - refused;
    CallsStep(batch, i, refused);
    MarkAllStep(a.nodes, accepted, batch[i]);
    assert Elements(batch[..i + 1]) - refused == if batch[i] in refused then accepted else accepted + {batch[i]};
    assert batch[..i + 1] == batch[..i] + [batch[i]];
  }

  /** Goroutine i of the batch has just moved, to pc. */
  ghost predicate MovedTo(a: State, b: State, batch: seq<string>, i: nat, pc: Pc) {
    && i < |batch| <= |a.tasks|
    && b.tasks == a.tasks[|a.tasks| - |batch| + i := Task(batch[i], pc)]
    && b.started == a.started && b.reported == a.reported
  }

  lemma {:induction false} ExtendSerial(s: State, es: seq<Event>, e: Event) returns (more: seq<Event>)
    requires IsSerialRun(s, es) && IsRun(s, es) && Enabled(After(s, es), e)
    requires e.Start? || e.Done? ==> AllFinished(After(s, es))
    ensures more == es + [e] && IsSerialRun(s, more) && IsRun(s, more) && After(s, more) == Step(After(s, es), e)
  {
    more := Extend(s, es, e);
    assert more[..|es|] == es;
  }

  lemma {:induction false} Submits(s: State, es: seq<Event>, batch: seq<string>, i: nat, ok: bool) returns (full: seq<Event>)
    requires IsSerialRun(s, es) && IsRun(s, es) && BatchAt(After(s, es), batch, i) && i < |batch|
    ensures es <= full && IsSerialRun(s, full) && IsRun(s, full)
    ensures MovedTo(After(s, es), After(s, full), batch, i, if ok then Accepted else Refused)
    ensures After(s, full).calls == After(s, es).calls + [batch[i]] && After(s, full).nodes == After(s, es).nodes
  {
    var t := |After(s, es).tasks| - |batch| + i;
    assert After(s, es).tasks[t] == Task(batch[i], Collected);
    full := ExtendSerial(s, es, Begin(t));
    full := ExtendSerial(s, full, Return(t, ok));
  }

  lemma OneMoreDone(a: State, b: State, batch: seq<string>, i: nat, pc: Pc)
    requires BatchAt(a, batch, i) && MovedTo(a, b, batch, i, pc) && !IsOutstanding(pc)
    ensures BatchAt(b, batch, i + 1)
  {}

  lemma MarksMoved(a: State, b: State, batch: seq<string>, i: nat)
    requires MovedTo(a, b, batch, i, Accepted)
    ensures var t := |a.tasks| - |batch| + i;
      && Enabled(b, MarkSubmitted(t))
      && MovedTo(a, Step(b, MarkSubmitted(t)), batch, i, Marked)
      && Step(b, MarkSubmitted(t)).nodes == Mark(b.nodes, batch[i]) && Step(b, MarkSubmitted(t)).calls == b.calls
  {
    var t := |a.tasks| - |batch| + i;
    assert b.tasks[t] == Task(batch[i], Accepted);
  }

  /** One goroutine from Begin to its end. */
  lemma {:induction false} RunGoroutine(s: State, es: seq<Event>, batch: seq<string>, i: nat, ok: bool) returns (full: seq<Event>)
    requires IsSerialRun(s, es) && IsRun(s, es) && BatchAt(After(s, es), batch, i) && i < |batch|
    ensures es <= full && IsSerialRun(s, full) && IsRun(s, full) && BatchAt(After(s, full), batch, i + 1)
    ensures Ran(After(s, es), After(s, full), batch[i], ok)
  {
    var a := After(s, es);
    var mid := Submits(s, es, batch, i, ok);
    full := mid;
    if ok {
      MarksMoved(a, After(s, mid), batch, i);
      full := ExtendSerial(s, mid, MarkSubmitted(|a.tasks| - |batch| + i));
    }
    OneMoreDone(a, After(s, full), batch, i, if ok then Marked else Refused);
  }

  lemma {:induction false} FinishBatch(s: State, es: seq<Event>, batch: seq<string>, refused: set<string>) returns (full: seq<Event>)
    requires IsSerialRun(s, es) && IsRun(s, es) && BatchAt(After(s, es), batch, 0)
    requires Elements(batch) <= After(s, es).nodes.Keys
    ensures es <= full && IsSerialRun(s, full) && IsRun(s, full) && AllFinished(After(s, full))
    ensures RanAll(After(s, es), After(s, full), batch, refused, |batch|)
  {
    full := es;
    var a := After(s, es);
    assert batch[..0] == [];
    assert RanAll(a, a, batch, refused, 0);
    for i := 0 to |batch|
      invariant es <= full && IsSerialRun(s, full) && IsRun(s, full) && BatchAt(After(s, full), batch, i)
      invariant RanAll(a, After(s, full), batch, refused, i)
    {
      var before := After(s, full);
      assert batch[i] in Elements(batch);
      full := RunGoroutine(s, full, batch, i, batch[i] !in refused);
      RanOneMore(a, before, After(s, full), batch, refused, i);
    }
  }

  lemma BatchStarts(a: State, e: Event)
    requires (e.Start? || e.Done?) && Enabled(a, e) && AllFinished(a)
    ensures BatchAt(Step(a, e), e.batch, 0) && Elements(e.batch) <= Step(a, e).nodes.Keys
    ensures Step(a, e).nodes == Reported(a, e) && Step(a, e).calls == a.calls
  {}

  /** After any serial run whose goroutines are all done, a further Start or NodeDone in which the
      nodes of refused are refused can run to its end, leaving the statuses and the submissions
      that the object's contract states for the same batch. */
  lemma {:induction false} CallIsSerialRun(s: State, es: seq<Event>, e: Event, refused: set<string>) returns (full: seq<Event>)
    requires IsSerialRun(s, es) && IsRun(s, es) && AllFinished(After(s, es))
    requires (e.Start? || e.Done?) && Enabled(After(s, es), e)
    ensures es + [e] <= full && IsSerialRun(s, full) && IsRun(s, full) && AllFinished(After(s, full))
    ensures var a, b := After(s, es), After(s, full);
      && b.nodes == MarkAll(Reported(a, e), Collects(a, e) - refused)
      && b.calls == a.calls + e.batch
  {
    BatchStarts(After(s, es), e);
    var first := ExtendSerial(s, es, e);
    full := FinishBatch(s, first, e.batch, refused);
    assert e.batch[..|e.batch|] == e.batch;
  }
}
