/** The dispatcher over the JSON store as cmd/ingress runs it: the process may be killed at any
    moment and started again, the stream and the store file outlive it. */
module DurableDispatcher {
  import opened Common
  import opened RunStates
  import opened RunStores
  import Recs = RunRecords
  import RunGate
  import Gate = GateSystem
  import Disk = CrashDisk
  import C = CrashGate
  import D = Dispatcher
  import opened DispatcherDelivery
  import opened DispatcherAcks

  /** d: the dispatcher of the present or last process, with the stream. c: its store and its Admit
      calls. first: the dispatcher as that process started it. */
  datatype State = State(d: D.State, c: C.State, first: D.State)

  datatype Event =
    | Dispatch(d: D.Event)     // a step outside Admit
    | InAdmit(c: C.Event)      // runFn returns, or a store call takes a step
    | ProcessEnds              // killed, or finished
    | Restart(cfg: D.Config)

  predicate IsAdmitStep(e: C.Event) {
    e.RunDone? || e.CallStore? || e.WritePart? || e.FileStep?
  }

  ghost predicate Enabled(s: State, e: Event)
    requires C.Wf(s.c)
  {
    match e
    case Dispatch(de) => s.c.disk.process.Up? && !de.GateMove? && D.Enabled(s.d, de)
    case InAdmit(ce) => s.c.disk.process.Up? && !s.d.main.Exited? && IsAdmitStep(ce) && C.Enabled(s.c, ce)
    case ProcessEnds => C.Enabled(s.c, C.Crash)
    case Restart(_) => C.Enabled(s.c, C.Reopen)
  }

  function StartOf(cfg: D.Config, stream: D.Stream, m: Recs.Records): D.State {
    D.State(cfg, D.LoopTop, 0, 0, 0, false, [], Gate.State(m, [], []), stream, false, [])
  }

  lemma AdmitStepStaysUp(c: C.State, e: C.Event)
    requires C.Wf(c) && C.Enabled(c, e) && IsAdmitStep(e)
    ensures C.Step(c, e).disk.process.Up?
  {}

  ghost function Step(s: State, e: Event): State
    requires C.Wf(s.c) && Enabled(s, e)
  {
    match e
    case Dispatch(de) =>
      State(D.Step(s.d, de),
        if de.ConsumeEntry? then C.Step(s.c, C.Spawn(s.d.stream.runOf[de.entry])) else s.c,
        s.first)
    case InAdmit(ce) =>
      AdmitStepStaysUp(s.c, ce);
      State(s.d.(gate := C.GateView(C.Step(s.c, ce))), C.Step(s.c, ce), s.first)
    case ProcessEnds => s.(c := C.Step(s.c, C.Crash))
    case Restart(cfg) =>
      var c := C.Step(s.c, C.Reopen);
      var d := StartOf(cfg, s.d.stream, c.base);
      State(d, c, d)
  }

  /** A process that has just opened the store and starts to dispatch. */
  ghost predicate Init(s: State) {
    && C.Init(s.c) && D.Init(s.d) && s.first == s.d
    && s.d == StartOf(s.d.cfg, s.d.stream, s.c.base)
  }

  /** Wf always holds, by DispatcherProjection below, so it excludes no run. */
  ghost predicate IsRun(s: State, es: seq<Event>)
    decreases |es|, 0
  {
    es == [] ||
    var n := |es| - 1;
    IsRun(s, es[..n]) && C.Wf(After(s, es[..n]).c) && Enabled(After(s, es[..n]), es[n])
  }

  ghost function After(s: State, es: seq<Event>): State
    requires IsRun(s, es)
    decreases |es|, 1
  {
    if es == [] then s else Step(After(s, es[..|es| - 1]), es[|es| - 1])
  }

  // Seen from the store: one run of the crashable gate.

  /** What the store and its callers do at an event, if anything. */
  ghost function StoreEvent(s: State, e: Event): Option<C.Event>
    requires C.Wf(s.c) && Enabled(s, e)
  {
    match e
    case Dispatch(de) => if de.ConsumeEntry? then Some(C.Spawn(s.d.stream.runOf[de.entry])) else None
    case InAdmit(ce) => Some(ce)
    case ProcessEnds => Some(C.Crash)
    case Restart(_) => Some(C.Reopen)
  }

  lemma StoreStep(s: State, e: Event)
    requires C.Wf(s.c) && Enabled(s, e)
    ensures var ce := StoreEvent(s, e);
      && (ce.None? ==> Step(s, e).c == s.c)
      && (ce.Some? ==> C.Enabled(s.c, ce.value) && Step(s, e).c == C.Step(s.c, ce.value))
    ensures C.Wf(Step(s, e).c)
  {
    if StoreEvent(s, e).Some? { C.StepKeepsWf(s.c, StoreEvent(s, e).value); }
  }

  lemma StoreProjectionGrows(c0: C.State, ces: seq<C.Event>, before: State, e: Event) returns (more: seq<C.Event>)
    requires C.Wf(before.c) && Enabled(before, e) && C.IsRun(c0, ces) && C.After(c0, ces) == before.c
    ensures ces <= more && C.IsRun(c0, more) && C.After(c0, more) == Step(before, e).c
  {
    StoreStep(before, e);
    more := ces;
    var ce := StoreEvent(before, e);
    if ce.Some? { more := C.Extend(c0, ces, ce.value); }
  }

  lemma {:induction false} StoreProjectionFrom(s: State, es: seq<Event>, ces: seq<C.Event>, more: seq<Event>)
    returns (ces': seq<C.Event>)
    requires es <= more && IsRun(s, es) && IsRun(s, more)
    requires C.IsRun(s.c, ces) && C.After(s.c, ces) == After(s, es).c
    ensures ces <= ces' && C.IsRun(s.c, ces') && C.After(s.c, ces') == After(s, more).c
    decreases |more|
  {
    ces' := ces;
    if more != es {
      var n := |more| - 1;
      ces' := StoreProjectionFrom(s, es, ces, more[..n]);
      ces' := StoreProjectionGrows(s.c, ces', After(s, more[..n]), more[n]);
    }
  }

  // Seen from one process: one run of the dispatcher.

  /** Dispatcher and store show the same gate, and this process began from what it loaded. */
  ghost predicate Coupled(s: State) {
    && C.Wf(s.c) && D.Init(s.first)
    && (s.c.disk.process.Up? ==> s.d.gate == C.GateView(s.c) && s.first.gate == Gate.State(s.c.base, [], []))
  }

  lemma OutsideAdmit(s: State, e: Event)
    requires Coupled(s) && Enabled(s, e) && e.Dispatch?
    ensures Coupled(Step(s, e))
  {
    StoreStep(s, e);
    GateStep(s.d, e.d);
  }

  /** A goroutine whose Admit call can move is inside Admit. */
  lemma MoverIsAdmitting(first: D.Stream, d: D.State, g: Gate.Event)
    requires Inv(first, d) && !d.main.Exited? && Gate.Enabled(d.gate, g) && !g.Spawn?
    ensures D.Enabled(d, D.GateMove(g)) && D.Step(d, D.GateMove(g)) == d.(gate := Gate.Step(d.gate, g))
  {
    assert WorkerMatchesCaller(d, g.i);
  }

  lemma InsideAdmit(s: State, e: Event) returns (de: Option<D.Event>)
    requires Coupled(s) && Inv(s.first.stream, s.d) && Enabled(s, e) && e.InAdmit?
    ensures de.None? ==> Step(s, e).d == s.d
    ensures de.Some? ==> D.Enabled(s.d, de.value) && Step(s, e).d == D.Step(s.d, de.value)
    ensures Coupled(Step(s, e))
  {
    StoreStep(s, e);
    var g := C.StepRefinesGate(s.c, e.c);
    de := None;
    if g.Some? {
      MoverIsAdmitting(s.first.stream, s.d, g.value);
      de := Some(D.GateMove(g.value));
    }
  }

  /** What the dispatcher does at an event of a running process, if anything. */
  lemma DispatcherStep(s: State, e: Event) returns (de: Option<D.Event>)
    requires Coupled(s) && Inv(s.first.stream, s.d) && Enabled(s, e) && (e.Dispatch? || e.InAdmit?)
    ensures de.None? ==> Step(s, e).d == s.d
    ensures de.Some? ==> D.Enabled(s.d, de.value) && Step(s, e).d == D.Step(s.d, de.value)
    ensures Step(s, e).first == s.first && Coupled(Step(s, e))
  {
    if e.Dispatch? {
      OutsideAdmit(s, e);
      de := Some(e.d);
    } else {
      de := InsideAdmit(s, e);
    }
  }

  lemma MovesOnTrans(a: D.Stream, b: D.Stream, c: D.Stream)
    requires MovesOnFrom(a, b) && MovesOnFrom(b, c)
    ensures MovesOnFrom(a, c)
  {}

  lemma OutsideSteps(s: State, e: Event)
    requires Coupled(s) && Inv(s.first.stream, s.d) && Enabled(s, e) && (e.ProcessEnds? || e.Restart?)
    ensures Coupled(Step(s, e)) && Step(s, e).d.stream == s.d.stream
    ensures e.ProcessEnds? ==> Step(s, e).d == s.d && Step(s, e).first == s.first
    ensures e.Restart? ==> Step(s, e).first == Step(s, e).d
  {
    StoreStep(s, e);
  }

  /** What the present or last process has done is a run of the dispatcher; and over all processes
      entries only move forward. */
  lemma {:induction false} DispatcherProjection(s: State, es: seq<Event>) returns (ds: seq<D.Event>)
    requires Init(s) && IsRun(s, es)
    ensures var t := After(s, es);
      && Coupled(t) && D.IsRun(t.first, ds) && D.After(t.first, ds) == t.d
      && Inv(t.first.stream, t.d) && MovesOnFrom(s.d.stream, t.first.stream)
  {
    ds := [];
    if es != [] {
      var n := |es| - 1;
      var before := After(s, es[..n]);
      ds := DispatcherProjection(s, es[..n]);
      if es[n].Dispatch? || es[n].InAdmit? {
        var de := DispatcherStep(before, es[n]);
        if de.Some? { ds := D.Extend(before.first, ds, de.value); }
      } else {
        OutsideSteps(before, es[n]);
        if es[n].Restart? {
          ds := [];
          MovesOnTrans(s.d.stream, before.first.stream, before.d.stream);
        }
      }
    }
    DeliveryInvariant(After(s, es).first, ds);
  }

  // Acks and the disk.

  /** x was acked by the process now running, not by an earlier one. */
  ghost predicate AckedNow(t: State, x: string) {
    t.c.disk.process.Up? && x in t.d.stream.acked && x !in t.first.stream.acked && x in t.d.stream.runOf
  }

  predicate IsOver(state: Option<RunState>) {
    state in {Some(Finished), Some(Canceled)}
  }

  /** After any kills and restarts: when an entry has been acked, the record on disk is terminal
      exactly when the run is not lagging, and is then what memory says; and if the ack was safe when
      this process started, the record on disk is finished exactly when the run is not lagging. */
  lemma {:induction false} AckedOnDiskExactly(s: State, es: seq<Event>, x: string)
    requires Init(s) && IsRun(s, es) && AckedNow(After(s, es), x)
    requires RunGate.Walkable(s.c.base, After(s, es).d.stream.runOf[x])
    ensures var t, id := After(s, es), After(s, es).d.stream.runOf[x];
      && (IsOver(C.OnDisk(t.c, id)) <==> id !in t.c.lagging)
      && (id !in t.c.lagging ==> id in t.d.gate.records && C.OnDisk(t.c, id) == Some(t.d.gate.records[id].state))
      && x in t.first.stream.runOf
      && (AckIsSafe(t.first, x) ==> (C.OnDisk(t.c, id) == Some(Finished) <==> id !in t.c.lagging))
  {
    var t, id := After(s, es), After(s, es).d.stream.runOf[x];
    var ds := DispatcherProjection(s, es);
    var ces := StoreProjectionFrom(s, [], [], es);
    var i := AckHasAdmit(t.first, ds, x);
    C.RestartableAdmission(s.c, ces, id, i);
    if AckIsSafe(t.first, x) { AckedRecordIsFinished(t.first, ds, x); }
  }

  lemma StreamStep(s: State, e: Event)
    requires C.Wf(s.c) && Enabled(s, e)
    ensures var st, st' := s.d.stream, Step(s, e).d.stream;
      st'.runOf == st.runOf && st'.undelivered <= st.undelivered && st.acked <= st'.acked
  {
    if e.Dispatch? { StreamFrame(s.d, e.d); }
  }

  lemma {:induction false} LastStepKeepsAcks(s: State, es: seq<Event>)
    requires es != [] && IsRun(s, es)
    ensures After(s, es[..|es| - 1]).d.stream.acked <= After(s, es).d.stream.acked
  {
    StreamStep(After(s, es[..|es| - 1]), es[|es| - 1]);
  }

  lemma {:induction false} AcksStay(s: State, es: seq<Event>, more: seq<Event>)
    requires IsRun(s, es) && es <= more && IsRun(s, more)
    ensures After(s, es).d.stream.acked <= After(s, more).d.stream.acked
    decreases |more|
  {
    if more != es {
      AcksStay(s, es, more[..|more| - 1]);
      LastStepKeepsAcks(s, more);
    }
  }

  /** An ack whose run was not lagging is safe for ever: no later kill, failure or restart changes
      the state on disk. */
  lemma {:induction false} SettledAckIsForever(s: State, es: seq<Event>, more: seq<Event>, x: string)
    requires Init(s) && IsRun(s, es) && es <= more && IsRun(s, more) && AckedNow(After(s, es), x)
    requires RunGate.Walkable(s.c.base, After(s, es).d.stream.runOf[x])
    requires After(s, es).d.stream.runOf[x] !in After(s, es).c.lagging
    ensures x in After(s, more).d.stream.acked
    ensures var id := After(s, es).d.stream.runOf[x];
      IsOver(C.OnDisk(After(s, more).c, id)) && C.OnDisk(After(s, more).c, id) == C.OnDisk(After(s, es).c, id)
  {
    var id := After(s, es).d.stream.runOf[x];
    AckedOnDiskExactly(s, es, x);
    AcksStay(s, es, more);
    var ces := StoreProjectionFrom(s, [], [], es);
    var ces' := StoreProjectionFrom(s, es, ces, more);
    C.SavedOutcomeIsForever(s.c, ces, ces', id, C.OnDisk(After(s, es).c, id).value);
  }

  // After the process has ended.

  /** No entry still to be delivered carries id. */
  ghost predicate NoneLeft(st: D.Stream, id: string) {
    forall y :: y in st.undelivered && y in st.runOf ==> st.runOf[y] != id
  }

  /** Nobody admits id; file and memory hold v for it. */
  ghost predicate Untouched(c: C.State, id: string, v: Option<Recs.RunRecord>) {
    && C.Wf(c) && Load(c.disk.file).Some? && Recs.Get(Load(c.disk.file).value, id) == v
    && (forall i :: 0 <= i < |c.callers| ==> c.callers[i].runId != id)
    && (c.disk.process.Up? ==> Recs.Get(C.Visible(c), id) == v && Recs.Get(c.disk.process.memory, id) == v)
  }

  lemma OthersLeaveAlone(m: Recs.Records, c: Gate.Caller, id: string)
    requires Gate.AtStore(c.pc) && c.runId != id
    ensures Recs.Get(Recs.Apply(m, Gate.OpOf(c)), id) == Recs.Get(m, id)
  {}

  lemma FinishKeepsUntouched(initial: File, c: C.State, ok: bool, id: string, v: Option<Recs.RunRecord>)
    requires Untouched(c, id, v) && Disk.Inv(initial, c.disk) && C.Enabled(c, C.FileStep(ok))
    requires C.Finishes(c, C.FileStep(ok))
    ensures Untouched(C.Step(c, C.FileStep(ok)), id, v)
  {
    C.StepKeepsWf(c, C.FileStep(ok));
    if ok { C.RenameShows(initial, c); }
  }

  lemma CallKeepsUntouched(c: C.State, i: nat, id: string, v: Option<Recs.RunRecord>)
    requires Untouched(c, id, v) && C.Enabled(c, C.CallStore(i))
    ensures Untouched(C.Step(c, C.CallStore(i)), id, v)
  {
    C.StepKeepsWf(c, C.CallStore(i));
    OthersLeaveAlone(c.disk.process.memory, c.callers[i], id);
  }

  lemma OtherStepsKeepUntouched(c: C.State, e: C.Event, id: string, v: Option<Recs.RunRecord>)
    requires Untouched(c, id, v) && C.Enabled(c, e) && e != C.Spawn(id) && !e.CallStore? && !C.Finishes(c, e)
    ensures Untouched(C.Step(c, e), id, v)
  {
    C.StepKeepsWf(c, e);
  }

  lemma StoreStepKeepsUntouched(initial: File, c: C.State, e: C.Event, id: string, v: Option<Recs.RunRecord>)
    requires Untouched(c, id, v) && Disk.Inv(initial, c.disk) && C.Enabled(c, e) && e != C.Spawn(id)
    ensures Untouched(C.Step(c, e), id, v)
  {
    if e.CallStore? {
      CallKeepsUntouched(c, e.i, id, v);
    } else if C.Finishes(c, e) {
      FinishKeepsUntouched(initial, c, e.ok, id, v);
    } else {
      OtherStepsKeepUntouched(c, e, id, v);
    }
  }

  lemma StepKeepsUntouched(initial: File, s: State, e: Event, id: string, v: Option<Recs.RunRecord>)
    requires C.Wf(s.c) && Enabled(s, e) && Disk.Inv(initial, s.c.disk)
    requires Untouched(s.c, id, v) && NoneLeft(s.d.stream, id)
    ensures Untouched(Step(s, e).c, id, v) && NoneLeft(Step(s, e).d.stream, id)
  {
    StreamStep(s, e);
    StoreStep(s, e);
    var ce := StoreEvent(s, e);
    if ce.Some? { StoreStepKeepsUntouched(initial, s.c, ce.value, id, v); }
  }

  lemma {:induction false} StaysUntouched(s: State, es: seq<Event>, more: seq<Event>, id: string, v: Option<Recs.RunRecord>)
    requires Init(s) && IsRun(s, es) && es <= more && IsRun(s, more)
    requires Untouched(After(s, es).c, id, v) && NoneLeft(After(s, es).d.stream, id)
    ensures Untouched(After(s, more).c, id, v)
    ensures NoneLeft(After(s, more).d.stream, id)
    decreases |more|
  {
    if more != es {
      var n := |more| - 1;
      StaysUntouched(s, es, more[..n], id, v);
      var ces := StoreProjectionFrom(s, [], [], more[..n]);
      C.AlwaysWf(s.c, ces);
      StepKeepsUntouched(s.c.disk.file, After(s, more[..n]), more[n], id, v);
    }
  }

  /** With no process running and no entry left that carries id, its record on disk is final. */
  lemma {:induction false} DiskIsFinal(s: State, es: seq<Event>, more: seq<Event>, id: string)
    requires Init(s) && IsRun(s, es) && es <= more && IsRun(s, more)
    requires After(s, es).c.disk.process.Down? && NoneLeft(After(s, es).d.stream, id)
    ensures C.OnDisk(After(s, more).c, id) == C.OnDisk(After(s, es).c, id)
  {
    var ces := StoreProjectionFrom(s, [], [], es);
    C.AlwaysWf(s.c, ces);
    var v := Recs.Get(Load(After(s, es).c.disk.file).value, id);
    StaysUntouched(s, es, more, id, v);
  }

  lemma {:induction false} Extend(s: State, es: seq<Event>, e: Event) returns (more: seq<Event>)
    requires IsRun(s, es) && C.Wf(After(s, es).c) && Enabled(After(s, es), e)
    ensures more == es + [e] && IsRun(s, more) && After(s, more) == Step(After(s, es), e) && C.Wf(After(s, more).c)
  {
    more := es + [e];
    assert more[..|es|] == es;
    StoreStep(After(s, es), e);
  }

  lemma EndKeepsDisk(s: State)
    requires C.Wf(s.c) && s.c.disk.process.Up?
    ensures Enabled(s, ProcessEnds) && Step(s, ProcessEnds).c.disk.process.Down?
    ensures Step(s, ProcessEnds).d == s.d && Step(s, ProcessEnds).c.disk.file == s.c.disk.file
  {}

  lemma {:induction false} AlwaysCoupled(s: State, es: seq<Event>)
    requires Init(s) && IsRun(s, es)
    ensures Coupled(After(s, es))
  {
    var ds := DispatcherProjection(s, es);
  }

  lemma {:induction false} EndChangesNothing(s: State, es: seq<Event>) returns (ended: seq<Event>)
    requires Init(s) && IsRun(s, es) && After(s, es).c.disk.process.Up?
    ensures ended == es + [ProcessEnds] && IsRun(s, ended) && After(s, ended).c.disk.process.Down?
    ensures After(s, ended).d == After(s, es).d && After(s, ended).c.disk.file == After(s, es).c.disk.file
  {
    AlwaysCoupled(s, es);
    EndKeepsDisk(After(s, es));
    ended := Extend(s, es, ProcessEnds);
  }

  /** What every future finds on disk once the process has ended. */
  ghost predicate EveryFuture(s: State, ended: seq<Event>, id: string, over: bool) {
    forall more :: ended <= more && IsRun(s, more) ==> IsOver(C.OnDisk(After(s, more).c, id)) == over
  }

  lemma {:induction false} FutureIsDecided(s: State, ended: seq<Event>, id: string)
    requires Init(s) && IsRun(s, ended)
    requires After(s, ended).c.disk.process.Down? && NoneLeft(After(s, ended).d.stream, id)
    ensures forall over :: EveryFuture(s, ended, id, over) <==> IsOver(C.OnDisk(After(s, ended).c, id)) == over
  {
    forall more | ended <= more && IsRun(s, more)
      ensures C.OnDisk(After(s, more).c, id) == C.OnDisk(After(s, ended).c, id)
    {
      DiskIsFinal(s, ended, more, id);
    }
  }

  /** If the process ends now, the outcome of an acked run that no other entry carries is on disk in
      every future exactly when the run is not lagging; the entry of a lagging one stays acked and its
      record short of terminal in every future, since nothing will admit it again. */
  lemma {:induction false} AckSurvivesExactly(s: State, es: seq<Event>, x: string)
    requires Init(s) && IsRun(s, es) && AckedNow(After(s, es), x)
    requires RunGate.Walkable(s.c.base, After(s, es).d.stream.runOf[x])
    requires NoneLeft(After(s, es).d.stream, After(s, es).d.stream.runOf[x])
    ensures var t, id, ended := After(s, es), After(s, es).d.stream.runOf[x], es + [ProcessEnds];
      && IsRun(s, ended)
      && (EveryFuture(s, ended, id, true) <==> id !in t.c.lagging)
      && (EveryFuture(s, ended, id, false) <==> id in t.c.lagging)
      && forall more :: ended <= more && IsRun(s, more) ==> x in After(s, more).d.stream.acked
  {
    AckedOnDiskExactly(s, es, x);
    var ended := EndChangesNothing(s, es);
    FutureIsDecided(s, ended, After(s, es).d.stream.runOf[x]);
    forall more | ended <= more && IsRun(s, more) ensures x in After(s, more).d.stream.acked {
      AcksStay(s, ended, more);
    }
  }

  lemma RestartShows(s: State, cfg: D.Config)
    requires C.Wf(s.c) && s.c.disk.process.Down? && Load(s.c.disk.file).Some?
    ensures Enabled(s, Restart(cfg))
    ensures var s' := Step(s, Restart(cfg));
      && s'.c.disk.process.Up? && s'.d == StartOf(cfg, s.d.stream, Load(s.c.disk.file).value) && s'.first == s'.d
  {}

  /** A process that has ended can always be started again, with any configuration: its dispatcher is at
      the start of its loop, with the entries as they were left and the records the file holds. */
  lemma {:induction false} RestartBeginsAfresh(s: State, es: seq<Event>, cfg: D.Config) returns (more: seq<Event>)
    requires Init(s) && IsRun(s, es) && After(s, es).c.disk.process.Down?
    ensures more == es + [Restart(cfg)] && IsRun(s, more) && After(s, more).c.disk.process.Up?
    ensures var t, d := After(s, es), After(s, more).d;
      && D.Init(d) && d.cfg == cfg && d.stream == t.d.stream && Load(t.c.disk.file) == Some(d.gate.records)
  {
    var ces := StoreProjectionFrom(s, [], [], es);
    C.AlwaysWf(s.c, ces);
    RestartShows(After(s, es), cfg);
    more := Extend(s, es, Restart(cfg));
    AlwaysCoupled(s, more);
  }

  /** x was pending when the present process started, or is when none is running. */
  ghost predicate LeftPending(t: State, x: string) {
    x in if t.c.disk.process.Up? then t.first.stream.pending else t.d.stream.pending
  }

  lemma StepKeepsLeftPending(s: State, e: Event, x: string)
    requires C.Wf(s.c) && Enabled(s, e) && LeftPending(s, x) && s.first.stream.pending <= s.d.stream.pending
    ensures LeftPending(Step(s, e), x)
  {
    if e.InAdmit? { AdmitStepStaysUp(s.c, e.c); }
  }

  /** An entry pending when a process ends, because its Admit failed or its ack did or the process was
      killed in between, is pending in every future: dispatch itself never takes it up again. */
  lemma {:induction false} PendingAtEndIsForever(s: State, es: seq<Event>, more: seq<Event>, x: string)
    requires Init(s) && IsRun(s, es) && es <= more && IsRun(s, more) && LeftPending(After(s, es), x)
    ensures LeftPending(After(s, more), x) && x in After(s, more).d.stream.pending
    decreases |more|
  {
    if more != es {
      var n := |more| - 1;
      PendingAtEndIsForever(s, es, more[..n], x);
      var ds := DispatcherProjection(s, more[..n]);
      StepKeepsLeftPending(After(s, more[..n]), more[n], x);
    }
    var ds := DispatcherProjection(s, more);
  }

  // An ack whose outcome is lost.

  /** One worker handles x for id, left at running by an earlier process; its record is at state in
      memory and still running on disk. */
  ghost predicate Handling(t: State, x: string, id: string, w: D.WorkerPc, pc: Gate.Pc, state: RunState) {
    && C.Stale(t.c, id, C.One(id, state), [Gate.Caller(id, pc)]) && t.d.gate == C.GateView(t.c)
    && t.d.main == D.LoopTop && t.d.workers == [D.Worker(x, w)]
    && t.d.stream.runOf == map[x := id] && t.d.stream.undelivered == {} && t.first.stream.acked == {}
  }

  lemma {:induction false} DispatchGoes(s: State, es: seq<Event>, de: D.Event) returns (more: seq<Event>)
    requires IsRun(s, es) && C.Wf(After(s, es).c) && After(s, es).c.disk.process.Up?
    requires !de.GateMove? && !de.ConsumeEntry? && D.Enabled(After(s, es).d, de)
    ensures IsRun(s, more) && After(s, more) == After(s, es).(d := D.Step(After(s, es).d, de))
  {
    more := Extend(s, es, Dispatch(de));
  }

  lemma StoreRefuses(c: C.State, id: string, state: RunState, pc: Gate.Pc)
    requires C.Stale(c, id, C.One(id, state), [Gate.Caller(id, pc)])
    requires Gate.AtStore(pc) && !pc.AtTerminal? && state == Running
    ensures C.Enabled(c, C.CallStore(0))
    ensures C.Stale(C.Step(c, C.CallStore(0)), id, C.One(id, state), [Gate.Caller(id, Gate.Resume(pc, Some(Recs.AlreadyExists)))])
  {
    C.Refuses(id, state, pc);
    C.OtherStepsChangeNothing(c, C.CallStore(0));
    C.StepKeepsWf(c, C.CallStore(0));
  }

  lemma {:induction false} RefusedGoes(s: State, es: seq<Event>, x: string, id: string, pc: Gate.Pc) returns (more: seq<Event>)
    requires IsRun(s, es) && Handling(After(s, es), x, id, D.Admitting, pc, Running)
    requires pc.AtEnqueue? || pc.AtAdmitted? || pc.AtRunning?
    ensures IsRun(s, more)
    ensures Handling(After(s, more), x, id, D.Admitting, Gate.Resume(pc, Some(Recs.AlreadyExists)), Running)
  {
    StoreRefuses(After(s, es).c, id, Running, pc);
    more := Extend(s, es, InAdmit(C.CallStore(0)));
  }

  lemma RunReturns(c: C.State, id: string)
    requires C.Stale(c, id, C.One(id, Running), [Gate.Caller(id, Gate.InRun)])
    ensures C.Enabled(c, C.RunDone(0, true))
    ensures C.Stale(C.Step(c, C.RunDone(0, true)), id, C.One(id, Running), [Gate.Caller(id, Gate.AtTerminal(true))])
  {}

  /** The terminal update reaches memory and its persist fails. */
  lemma TerminalPersistFails(c: C.State, id: string)
    requires C.Stale(c, id, C.One(id, Running), [Gate.Caller(id, Gate.AtTerminal(true))])
    ensures C.Enabled(c, C.CallStore(0))
    ensures var c' := C.Step(c, C.CallStore(0));
      && C.Saving(c', id) && C.Enabled(c', C.FileStep(false))
      && C.Stale(C.Step(c', C.FileStep(false)), id, C.One(id, Finished), [Gate.Caller(id, Gate.Returned(true))])
      && id in C.Step(c', C.FileStep(false)).lagging
  {
    assert Recs.Apply(C.One(id, Running), Recs.UpdateOp(id, Running, Finished)) == C.One(id, Finished);
  }

  /** Main is in its loop, nobody at work, x to be delivered. */
  ghost predicate Looping(t: State, x: string, id: string, main: D.MainPc) {
    && C.Stale(t.c, id, C.One(id, Running), []) && t.d.gate == C.GateView(t.c)
    && t.d.main == main && t.d.workers == [] && t.d.cfg == D.Config(1, 0, false, false) && !t.d.ctxDone
    && t.d.stream == D.Stream({x}, {}, {}, map[x := id]) && t.first.stream.acked == {}
  }

  lemma RunningAtStart(x: string, id: string) returns (s: State)
    ensures Init(s) && Looping(s, x, id, D.LoopTop) && s.c.base == C.One(id, Running) && s.d.tokens == 0
  {
    var m := C.One(id, Running);
    var c := C.State(Disk.State(Whole(m), Disk.Up(m, Disk.Idle, Absent), [], false), [], [], None, m, {}, map[]);
    assert C.Terminals(m) == map[];
    var d := StartOf(D.Config(1, 0, false, false), D.Stream({x}, {}, {}, map[x := id]), m);
    s := State(d, c, d);
  }

  lemma {:induction false} TakesSlot(s: State, x: string, id: string) returns (es: seq<Event>)
    requires Looping(s, x, id, D.LoopTop) && s.d.tokens == 0
    ensures IsRun(s, es) && Looping(After(s, es), x, id, D.Rechecking(true))
  {
    es := DispatchGoes(s, [], D.MainGoes);
    es := DispatchGoes(s, es, D.TakeSlot);
  }

  lemma ConsumeShows(t: State, x: string, id: string)
    requires Looping(t, x, id, D.Consuming)
    ensures Enabled(t, Dispatch(D.ConsumeEntry(x)))
    ensures Handling(Step(t, Dispatch(D.ConsumeEntry(x))), x, id, D.Admitting, Gate.AtEnqueue, Running)
  {
    C.StepKeepsWf(t.c, C.Spawn(id));
  }

  lemma {:induction false} Consumes(x: string, id: string) returns (s: State, es: seq<Event>)
    ensures Init(s) && s.d.stream == D.Stream({x}, {}, {}, map[x := id]) && s.c.base == C.One(id, Running)
    ensures IsRun(s, es) && Handling(After(s, es), x, id, D.Admitting, Gate.AtEnqueue, Running)
  {
    s := RunningAtStart(x, id);
    es := TakesSlot(s, x, id);
    es := DispatchGoes(s, es, D.MainGoes);
    ConsumeShows(After(s, es), x, id);
    es := Extend(s, es, Dispatch(D.ConsumeEntry(x)));
  }

  lemma {:induction false} PersistLags(s: State, es: seq<Event>, x: string, id: string) returns (more: seq<Event>)
    requires IsRun(s, es) && Handling(After(s, es), x, id, D.Admitting, Gate.AtTerminal(true), Running)
    ensures IsRun(s, more) && Handling(After(s, more), x, id, D.Admitting, Gate.Returned(true), Finished)
    ensures id in After(s, more).c.lagging
  {
    TerminalPersistFails(After(s, es).c, id);
    more := Extend(s, es, InAdmit(C.CallStore(0)));
    more := Extend(s, more, InAdmit(C.FileStep(false)));
  }

  lemma {:induction false} AdmitLags(s: State, es: seq<Event>, x: string, id: string) returns (more: seq<Event>)
    requires IsRun(s, es) && Handling(After(s, es), x, id, D.Admitting, Gate.InRun, Running)
    ensures IsRun(s, more) && Handling(After(s, more), x, id, D.Admitting, Gate.Returned(true), Finished)
    ensures id in After(s, more).c.lagging
  {
    RunReturns(After(s, es).c, id);
    more := Extend(s, es, InAdmit(C.RunDone(0, true)));
    more := PersistLags(s, more, x, id);
  }

  lemma {:induction false} AcksIt(s: State, es: seq<Event>, x: string, id: string) returns (more: seq<Event>)
    requires IsRun(s, es) && Handling(After(s, es), x, id, D.Admitting, Gate.Returned(true), Finished)
    ensures IsRun(s, more) && AckedNow(After(s, more), x) && After(s, more).c == After(s, es).c
    ensures After(s, more).d.stream.runOf == map[x := id] && After(s, more).d.stream.undelivered == {}
  {
    more := DispatchGoes(s, es, D.AdmitReturns(0));
    more := DispatchGoes(s, more, D.AckReturns(0, true, true));
  }

  lemma {:induction false} AdmitsUpToRun(s: State, es: seq<Event>, x: string, id: string) returns (more: seq<Event>)
    requires IsRun(s, es) && Handling(After(s, es), x, id, D.Admitting, Gate.AtEnqueue, Running)
    ensures IsRun(s, more) && Handling(After(s, more), x, id, D.Admitting, Gate.InRun, Running)
  {
    more := RefusedGoes(s, es, x, id, Gate.AtEnqueue);
    more := RefusedGoes(s, more, x, id, Gate.AtAdmitted);
    more := RefusedGoes(s, more, x, id, Gate.AtRunning);
  }

  lemma {:induction false} AckedWhileLagging(x: string, id: string) returns (s: State, es: seq<Event>)
    ensures Init(s) && s.d.stream == D.Stream({x}, {}, {}, map[x := id]) && s.c.base == C.One(id, Running)
    ensures IsRun(s, es) && AckedNow(After(s, es), x) && id in After(s, es).c.lagging
    ensures C.OnDisk(After(s, es).c, id) == Some(Running) && After(s, es).d.stream.undelivered == {}
  {
    var served;
    s, served := Consumes(x, id);
    served := AdmitsUpToRun(s, served, x, id);
    served := AdmitLags(s, served, x, id);
    es := AcksIt(s, served, x, id);
  }

  /** It happens: a run left at running is delivered again and succeeds, the persist of its terminal
      update fails, the entry is acked, the process ends. From then on, whatever happens, the entry is
      acked and the record on disk says running. */
  lemma {:induction false} AckedOutcomeIsLost(x: string, id: string) returns (s: State, ended: seq<Event>)
    ensures Init(s) && s.d.stream == D.Stream({x}, {}, {}, map[x := id]) && s.c.base == C.One(id, Running)
    ensures IsRun(s, ended)
    ensures forall more :: ended <= more && IsRun(s, more) ==>
              x in After(s, more).d.stream.acked && C.OnDisk(After(s, more).c, id) == Some(Running)
  {
    var es;
    s, es := AckedWhileLagging(x, id);
    ended := EndChangesNothing(s, es);
    forall more | ended <= more && IsRun(s, more)
      ensures x in After(s, more).d.stream.acked && C.OnDisk(After(s, more).c, id) == Some(Running)
    {
      DiskIsFinal(s, ended, more, id);
      AcksStay(s, ended, more);
    }
  }
}
