/** Concurrent Admit calls over a JSON store, in a process that may be killed at any moment,
    inside a persist included, and restarted on the same file any number of times. */
module CrashGate {
  import opened Common
  import opened RunStates
  import opened RunRecords
  import opened RunStores
  import opened RunGate
  import Disk = CrashDisk
  import Gate = GateSystem

  /** The caller that holds the store's mutex while persisting, and the records before its call. */
  datatype Saver = Saver(i: nat, before: Records)

  /** base: records loaded when this process opened the store.
      lagging: run ids whose last change failed to persist, none having succeeded since.
      firstSaved: the first terminal state of each run that ever reached the file. */
  datatype State = State(
    disk: Disk.State,
    callers: seq<Gate.Caller>,
    attempts: seq<Gate.Attempt>,
    saver: Option<Saver>,
    base: Records,
    lagging: set<string>,
    firstSaved: map<string, RunState>)

  datatype Event =
    | Spawn(runId: string)
    | RunDone(i: nat, ok: bool)
    | CallStore(i: nat)
    | WritePart
    | FileStep(ok: bool)
    | Crash
    | Reopen

  /** The records other callers can see: a call in progress has not happened yet. */
  function Visible(s: State): Records
    requires s.disk.process.Up?
  {
    if s.saver.Some? then s.saver.value.before else s.disk.process.memory
  }

  function GateView(s: State): Gate.State
    requires s.disk.process.Up?
  {
    Gate.State(Visible(s), s.callers, s.attempts)
  }

  ghost predicate Wf(s: State) {
    && (s.saver.Some? <==> s.disk.process.Up? && s.disk.process.phase.Next?)
    && (s.saver.Some? ==>
          var Saver(i, before) := s.saver.value;
          && i < |s.callers| && Gate.AtStore(s.callers[i].pc)
          && Mutates(before, Gate.OpOf(s.callers[i]))
          && s.disk.process.memory == Apply(before, Gate.OpOf(s.callers[i])))
    && (!s.disk.unsaved ==> s.lagging == {})
    && (s.disk.process.Down? ==> s.callers == [] && s.attempts == [])
  }

  ghost predicate Enabled(s: State, e: Event)
    requires Wf(s)
  {
    match e
    case Spawn(_) => s.disk.process.Up?
    case RunDone(i, _) => s.disk.process.Up? && i < |s.callers| && s.callers[i].pc.InRun?
    case CallStore(i) => s.disk.process.Up? && s.disk.process.phase.Idle? &&
                         i < |s.callers| && Gate.AtStore(s.callers[i].pc)
    case WritePart => Disk.Enabled(s.disk, Disk.WritePart)
    case FileStep(ok) => Disk.Enabled(s.disk, Disk.FileStep(ok))
    case Crash => Disk.Enabled(s.disk, Disk.Crash)
    case Reopen => Disk.Enabled(s.disk, Disk.Reopen)
  }

  function Terminals(m: Records): map<string, RunState> {
    map id | id in m && IsTerminal(m[id].state) :: m[id].state
  }

  function WithGate(s: State, g: Gate.State): State {
    s.(callers := g.callers, attempts := g.attempts)
  }

  /** The persist in progress ends, well or not, and its caller goes on. */
  ghost function FinishCall(s: State, ok: bool): State
    requires Wf(s) && s.saver.Some?
  {
    var i := s.saver.value.i;
    var fault := if ok then NoFault else FaultAt(s.disk.process.phase.step);
    WithGate(s, Gate.Step(GateView(s), Gate.StoreCall(i, fault))).(
      disk := Disk.Step(s.disk, Disk.FileStep(ok)),
      saver := None,
      lagging := if ok then {} else s.lagging + {s.callers[i].runId},
      firstSaved := if ok then Terminals(s.disk.process.memory) + s.firstSaved else s.firstSaved)
  }

  ghost function Step(s: State, e: Event): State
    requires Wf(s) && Enabled(s, e)
  {
    match e
    case Spawn(id) => WithGate(s, Gate.Step(GateView(s), Gate.Spawn(id)))
    case RunDone(i, ok) => WithGate(s, Gate.Step(GateView(s), Gate.RunDone(i, ok)))
    case CallStore(i) =>
      var op, m := Gate.OpOf(s.callers[i]), s.disk.process.memory;
      if Mutates(m, op) then
        s.(disk := Disk.Step(s.disk, Disk.Mutate(Apply(m, op))), saver := Some(Saver(i, m)))
      else WithGate(s, Gate.Step(GateView(s), Gate.StoreCall(i, NoFault)))
    case WritePart => s.(disk := Disk.Step(s.disk, Disk.WritePart))
    case FileStep(ok) =>
      if ok && s.disk.process.phase.step != RenameTemp
      then s.(disk := Disk.Step(s.disk, Disk.FileStep(true)))
      else FinishCall(s, ok)
    case Crash => s.(disk := Disk.Step(s.disk, Disk.Crash), callers := [], attempts := [], saver := None)
    case Reopen => s.(disk := Disk.Step(s.disk, Disk.Reopen), base := Load(s.disk.file).value, lagging := {})
  }

  predicate Finishes(s: State, e: Event)
    requires Disk.Enabled(s.disk, Disk.FileStep(true)) || !e.FileStep?
  {
    e.FileStep? && (!e.ok || s.disk.process.phase.step == RenameTemp)
  }

  lemma FinishKeepsWf(s: State, ok: bool)
    requires Wf(s) && s.saver.Some? && (ok ==> s.disk.process.phase.step == RenameTemp)
    ensures Wf(FinishCall(s, ok))
  {}

  lemma StepKeepsWf(s: State, e: Event)
    requires Wf(s) && Enabled(s, e)
    ensures Wf(Step(s, e))
  {
    if Finishes(s, e) { FinishKeepsWf(s, e.ok); }
  }

  /** A process that has just opened a readable file and admitted nothing. */
  ghost predicate Init(s: State) {
    && Disk.Init(s.disk) && s.callers == [] && s.attempts == [] && s.saver == None
    && s.base == s.disk.process.memory && s.lagging == {}
    && s.firstSaved == Terminals(s.base)
  }

  /** Wf always holds, by AlwaysWf below, so it excludes no run. */
  ghost predicate IsRun(s: State, es: seq<Event>)
    decreases |es|, 0
  {
    es == [] ||
    var n := |es| - 1;
    IsRun(s, es[..n]) && Wf(After(s, es[..n])) && Enabled(After(s, es[..n]), es[n])
  }

  ghost function After(s: State, es: seq<Event>): State
    requires IsRun(s, es)
    decreases |es|, 1
  {
    if es == [] then s else Step(After(s, es[..|es| - 1]), es[|es| - 1])
  }

  /** Each step is one step of the interleaved gate over atomic store calls, or invisible to it. */
  lemma StepRefinesGate(s: State, e: Event) returns (g: Option<Gate.Event>)
    requires Wf(s) && Enabled(s, e) && s.disk.process.Up? && !e.Crash?
    ensures Step(s, e).disk.process.Up? && Step(s, e).base == s.base
    ensures g.None? ==> GateView(Step(s, e)) == GateView(s)
    ensures g.Some? ==> Gate.Enabled(GateView(s), g.value) && (g.value.Spawn? ==> e.Spawn?)
    ensures g.Some? ==> GateView(Step(s, e)) == Gate.Step(GateView(s), g.value)
  {
    match e
    case Spawn(id) => g := Some(Gate.Spawn(id));
    case RunDone(i, ok) => g := Some(Gate.RunDone(i, ok));
    case CallStore(i) =>
      g := if Mutates(s.disk.process.memory, Gate.OpOf(s.callers[i])) then None
           else Some(Gate.StoreCall(i, NoFault));
    case WritePart => g := None;
    case FileStep(ok) =>
      if ok && s.disk.process.phase.step != RenameTemp {
        g := None;
      } else {
        g := Some(Gate.StoreCall(s.saver.value.i, if ok then NoFault else FaultAt(s.disk.process.phase.step)));
      }
  }

  /** Each step is one step of the crashable disk, or leaves it alone. */
  lemma StepRefinesDisk(initial: File, s: State, e: Event)
    requires Wf(s) && Enabled(s, e) && Disk.Inv(initial, s.disk)
    ensures Disk.Inv(initial, Step(s, e).disk)
  {
    match e
    case CallStore(i) =>
      var op, m := Gate.OpOf(s.callers[i]), s.disk.process.memory;
      if Mutates(m, op) { Disk.StepKeepsInv(initial, s.disk, Disk.Mutate(Apply(m, op))); }
    case WritePart => Disk.StepKeepsInv(initial, s.disk, Disk.WritePart);
    case FileStep(ok) => Disk.StepKeepsInv(initial, s.disk, Disk.FileStep(ok));
    case Crash => Disk.StepKeepsInv(initial, s.disk, Disk.Crash);
    case Reopen => Disk.StepKeepsInv(initial, s.disk, Disk.Reopen);
    case _ =>
  }

  lemma {:induction false} AlwaysWf(s: State, es: seq<Event>)
    requires Init(s) && IsRun(s, es)
    ensures Wf(After(s, es)) && Disk.Inv(s.disk.file, After(s, es).disk)
  {
    if es != [] {
      var n := |es| - 1;
      AlwaysWf(s, es[..n]);
      StepKeepsWf(After(s, es[..n]), es[n]);
      StepRefinesDisk(s.disk.file, After(s, es[..n]), es[n]);
    }
  }

  /** What a process can have done since it opened the store is a run of the interleaved gate
      that started from the records it loaded. */
  lemma {:induction false} Reachable(s: State, es: seq<Event>) returns (ges: seq<Gate.Event>)
    requires Init(s) && IsRun(s, es)
    ensures var t := After(s, es);
      t.disk.process.Up? ==>
        && Gate.IsRun(Gate.State(t.base, [], []), ges)
        && Gate.After(Gate.State(t.base, [], []), ges) == GateView(t)
  {
    ges := [];
    if es != [] && After(s, es).disk.process.Up? {
      var n := |es| - 1;
      var before, e := After(s, es[..n]), es[n];
      AlwaysWf(s, es[..n]);
      if !e.Reopen? {
        ges := Reachable(s, es[..n]);
        var g := StepRefinesGate(before, e);
        if g.Some? {
          assert (ges + [g.value])[..|ges|] == ges;
          ges := ges + [g.value];
        }
      }
    }
  }

  // Memory against file, for one run id.

  /** The file is never ahead of what callers see; it is behind exactly for lagging ids; and it
      is terminal exactly when a terminal state has been recorded as saved first. */
  ghost predicate FileFollows(s: State, id: string) {
    && Load(s.disk.file).Some?
    && var f := Load(s.disk.file).value;
    && Walkable(f, id)
    && (Gate.Stage(f, id) == 4 <==> id in s.firstSaved)
    && (id in s.firstSaved ==> s.firstSaved[id] == f[id].state)
    && (s.disk.process.Up? ==>
          if id in s.lagging then Gate.Stage(f, id) < Gate.Stage(Visible(s), id)
          else Get(f, id) == Get(Visible(s), id))
  }

  lemma MutationAdvances(m: Records, c: Gate.Caller)
    requires Gate.AtStore(c.pc) && Mutates(m, Gate.OpOf(c))
    ensures Get(Apply(m, Gate.OpOf(c)), c.runId) != Get(m, c.runId)
  {}

  lemma FailedPersistKeepsFileFollows(s: State, id: string)
    requires Wf(s) && s.saver.Some? && FileFollows(s, id) && Gate.Inv(s.base, GateView(s), id)
    ensures FileFollows(FinishCall(s, false), id) && FinishCall(s, false).firstSaved == s.firstSaved
  {
    var c := s.callers[s.saver.value.i];
    Gate.StoreCallMovesOneStage(s.saver.value.before, c, id);
    MutationAdvances(s.saver.value.before, c);
  }

  lemma RenameShows(initial: File, s: State)
    requires Wf(s) && s.saver.Some? && s.disk.process.phase.step == RenameTemp && Disk.Inv(initial, s.disk)
    ensures var t := FinishCall(s, true);
      && t.disk.process.Up? && t.disk.file == Whole(s.disk.process.memory) && Visible(t) == s.disk.process.memory
      && t.lagging == {} && t.firstSaved == Terminals(s.disk.process.memory) + s.firstSaved
  {}

  lemma RenameSaves(initial: File, s: State, id: string)
    requires Wf(s) && s.saver.Some? && s.disk.process.phase.step == RenameTemp
    requires FileFollows(s, id) && Disk.Inv(initial, s.disk) && Gate.Inv(s.base, GateView(s), id)
    ensures Walkable(s.disk.process.memory, id)
    ensures id in s.firstSaved ==> Get(s.disk.process.memory, id) == Get(Load(s.disk.file).value, id)
  {
    Gate.StoreCallMovesOneStage(s.saver.value.before, s.callers[s.saver.value.i], id);
  }

  lemma RenameKeepsFileFollows(initial: File, s: State, id: string)
    requires Wf(s) && s.saver.Some? && s.disk.process.phase.step == RenameTemp
    requires FileFollows(s, id) && Disk.Inv(initial, s.disk) && Gate.Inv(s.base, GateView(s), id)
    ensures FileFollows(FinishCall(s, true), id)
    ensures id in s.firstSaved ==> id in FinishCall(s, true).firstSaved && FinishCall(s, true).firstSaved[id] == s.firstSaved[id]
  {
    RenameSaves(initial, s, id);
    RenameShows(initial, s);
  }

  lemma FinishKeepsFileFollows(initial: File, s: State, ok: bool, id: string)
    requires Wf(s) && s.saver.Some? && Enabled(s, FileStep(ok)) && (ok ==> s.disk.process.phase.step == RenameTemp)
    requires FileFollows(s, id) && Disk.Inv(initial, s.disk) && Gate.Inv(s.base, GateView(s), id)
    ensures FileFollows(FinishCall(s, ok), id)
    ensures id in s.firstSaved ==> id in FinishCall(s, ok).firstSaved && FinishCall(s, ok).firstSaved[id] == s.firstSaved[id]
  {
    if ok { RenameKeepsFileFollows(initial, s, id); } else { FailedPersistKeepsFileFollows(s, id); }
  }

  /** Only the end of a persist, a crash and a restart change what is visible or on disk. */
  lemma OtherStepsChangeNothing(s: State, e: Event)
    requires Wf(s) && Enabled(s, e) && s.disk.process.Up? && !e.Crash? && !Finishes(s, e)
    ensures var t := Step(s, e);
      && t.disk.process.Up? && Visible(t) == Visible(s) && t.disk.file == s.disk.file
      && t.lagging == s.lagging && t.firstSaved == s.firstSaved
  {
    if e.CallStore? && !Mutates(s.disk.process.memory, Gate.OpOf(s.callers[e.i])) {
      assert Apply(s.disk.process.memory, Gate.OpOf(s.callers[e.i])) == s.disk.process.memory;
    }
  }

  lemma StepKeepsFileFollows(initial: File, s: State, e: Event, id: string)
    requires Wf(s) && Enabled(s, e) && FileFollows(s, id) && Disk.Inv(initial, s.disk)
    requires s.disk.process.Up? ==> Gate.Inv(s.base, GateView(s), id)
    ensures FileFollows(Step(s, e), id)
    ensures id in s.firstSaved ==> id in Step(s, e).firstSaved && Step(s, e).firstSaved[id] == s.firstSaved[id]
  {
    if Finishes(s, e) {
      FinishKeepsFileFollows(initial, s, e.ok, id);
    } else if s.disk.process.Up? && !e.Crash? {
      OtherStepsChangeNothing(s, e);
    }
  }

  lemma {:induction false} AlwaysFileFollows(s: State, es: seq<Event>, id: string)
    requires Init(s) && IsRun(s, es) && Walkable(s.base, id)
    ensures FileFollows(After(s, es), id) && Walkable(After(s, es).base, id)
    ensures After(s, es).disk.process.Up? ==> Gate.Inv(After(s, es).base, GateView(After(s, es)), id)
  {
    if es != [] {
      var n := |es| - 1;
      AlwaysWf(s, es[..n]);
      AlwaysFileFollows(s, es[..n], id);
      StepKeepsFileFollows(s.disk.file, After(s, es[..n]), es[n], id);
    }
    var t := After(s, es);
    if t.disk.process.Up? {
      var ges := Reachable(s, es);
      Gate.Invariant(Gate.State(t.base, [], []), ges, id);
    }
  }

  /** State of the record that a restart would find on disk. */
  function OnDisk(s: State, id: string): Option<RunState> {
    match Load(s.disk.file)
    case None => None
    case Some(f) => if id in f then Some(f[id].state) else None
  }

  lemma SavedMeansTerminalOnDisk(s: State, id: string)
    requires FileFollows(s, id)
    ensures OnDisk(s, id) in {Some(Finished), Some(Canceled)} <==> id in s.firstSaved
    ensures id in s.firstSaved ==> OnDisk(s, id) == Some(s.firstSaved[id])
  {}

  /** Kill the process at any step, a persist included, restart it and admit again, any number of
      times and by any number of callers. When some Admit has run runFn and returned, the record
      on disk is terminal exactly when the run is not lagging, that is, unless its last change
      failed to persist and no persist of this process has succeeded since; and then it is the
      first terminal state that ever reached the disk and what memory says too. */
  lemma {:induction false} RestartableAdmission(s: State, es: seq<Event>, id: string, i: nat)
    requires Init(s) && IsRun(s, es) && Walkable(s.base, id)
    requires i < |After(s, es).callers| && After(s, es).callers[i].runId == id
    requires After(s, es).callers[i].pc.Returned?
    ensures var t := After(s, es);
      && t.disk.process.Up?
      && (OnDisk(t, id) in {Some(Finished), Some(Canceled)} <==> id !in t.lagging)
      && (!t.disk.unsaved ==> id !in t.lagging)
      && (id !in t.lagging ==>
            && id in t.firstSaved && OnDisk(t, id) == Some(t.firstSaved[id])
            && id in Visible(t) && Visible(t)[id].state == t.firstSaved[id])
  {
    AlwaysWf(s, es);
    AlwaysFileFollows(s, es, id);
    SavedMeansTerminalOnDisk(After(s, es), id);
  }

  lemma {:induction false} LastStepKeepsFirstSaved(s: State, es: seq<Event>, id: string)
    requires Init(s) && es != [] && IsRun(s, es) && Walkable(s.base, id)
    requires id in After(s, es[..|es| - 1]).firstSaved
    ensures id in After(s, es).firstSaved
    ensures After(s, es).firstSaved[id] == After(s, es[..|es| - 1]).firstSaved[id]
  {
    var n := |es| - 1;
    AlwaysWf(s, es[..n]);
    AlwaysFileFollows(s, es[..n], id);
    StepKeepsFileFollows(s.disk.file, After(s, es[..n]), es[n], id);
  }

  /** The first saved state of id is outcome. */
  ghost predicate HasSaved(s: State, es: seq<Event>, id: string, outcome: RunState)
    requires IsRun(s, es)
  {
    id in After(s, es).firstSaved && After(s, es).firstSaved[id] == outcome
  }

  lemma {:induction false} FirstSavedIsForever(s: State, es: seq<Event>, more: seq<Event>, id: string, outcome: RunState)
    requires Init(s) && IsRun(s, es) && Walkable(s.base, id) && es <= more && IsRun(s, more)
    requires HasSaved(s, es, id, outcome)
    ensures HasSaved(s, more, id, outcome)
    decreases |more|
  {
    if more != es {
      FirstSavedIsForever(s, es, more[..|more| - 1], id, outcome);
      LastStepKeepsFirstSaved(s, more, id);
    }
  }

  /** A terminal state that has reached the disk stays there through every later crash, restart,
      failure and Admit. */
  lemma {:induction false} SavedOutcomeIsForever(s: State, es: seq<Event>, more: seq<Event>, id: string, outcome: RunState)
    requires Init(s) && IsRun(s, es) && Walkable(s.base, id) && es <= more && IsRun(s, more)
    requires IsTerminal(outcome) && OnDisk(After(s, es), id) == Some(outcome)
    ensures OnDisk(After(s, more), id) == Some(outcome)
  {
    AlwaysFileFollows(s, es, id);
    SavedMeansTerminalOnDisk(After(s, es), id);
    FirstSavedIsForever(s, es, more, id, outcome);
    AlwaysFileFollows(s, more, id);
    SavedMeansTerminalOnDisk(After(s, more), id);
  }

  // What a caller can rely on before the call.

  /** A persist of a call for id fails. */
  ghost predicate FailsFor(s: State, e: Event, id: string)
    requires Wf(s) && Enabled(s, e)
  {
    e == FileStep(false) && s.callers[s.saver.value.i].runId == id
  }

  /** From es to more, no persist of a call for id has failed. */
  ghost predicate NoFailureSince(s: State, es: seq<Event>, more: seq<Event>, id: string)
    requires es <= more && IsRun(s, more)
    decreases |more|
  {
    more == es ||
    var n := |more| - 1;
    NoFailureSince(s, es, more[..n], id) && !FailsFor(After(s, more[..n]), more[n], id)
  }

  lemma OnlyFailuresLag(s: State, e: Event, id: string)
    requires Wf(s) && Enabled(s, e) && id !in s.lagging && !FailsFor(s, e, id)
    ensures id !in Step(s, e).lagging
  {}

  lemma {:induction false} CleanRunDoesNotLag(s: State, es: seq<Event>, more: seq<Event>, id: string)
    requires es <= more && IsRun(s, es) && IsRun(s, more)
    requires id !in After(s, es).lagging && NoFailureSince(s, es, more, id)
    ensures id !in After(s, more).lagging
    decreases |more|
  {
    if more != es {
      var n := |more| - 1;
      CleanRunDoesNotLag(s, es, more[..n], id);
      OnlyFailuresLag(After(s, more[..n]), more[n], id);
    }
  }

  /** The form to use before the call: if a run is not lagging when it is admitted, and until the
      Admit returns no persist of any call for that run fails, whatever else fails or crashes, then
      the record is terminal on disk, at its first saved state, and memory agrees. */
  lemma {:induction false} CleanAdmitIsDurable(s: State, es: seq<Event>, more: seq<Event>, id: string, i: nat)
    requires Init(s) && IsRun(s, es) && Walkable(s.base, id) && es <= more && IsRun(s, more)
    requires id !in After(s, es).lagging && NoFailureSince(s, es, more, id)
    requires i < |After(s, more).callers| && After(s, more).callers[i].runId == id
    requires After(s, more).callers[i].pc.Returned?
    ensures var t := After(s, more);
      && t.disk.process.Up? && OnDisk(t, id) in {Some(Finished), Some(Canceled)}
      && id in t.firstSaved && OnDisk(t, id) == Some(t.firstSaved[id])
      && id in Visible(t) && Visible(t)[id].state == t.firstSaved[id]
  {
    CleanRunDoesNotLag(s, es, more, id);
    RestartableAdmission(s, more, id, i);
  }

  // Persists that succeed are not enough.

  /** A process whose file says running for id, with these callers, nobody persisting, and memory m. */
  ghost predicate Stale(s: State, id: string, m: Records, callers: seq<Gate.Caller>) {
    && Wf(s) && s.disk.process.Up? && s.disk.process.phase.Idle? && s.saver == None
    && s.disk.process.memory == m && s.callers == callers
    && s.disk.file == Whole(map[id := RunRecord(id, Running, "")])
  }

  lemma {:induction false} Extend(s: State, es: seq<Event>, e: Event) returns (more: seq<Event>)
    requires IsRun(s, es) && Wf(After(s, es)) && Enabled(After(s, es), e)
    ensures more == es + [e] && IsRun(s, more) && After(s, more) == Step(After(s, es), e) && Wf(After(s, more))
  {
    more := es + [e];
    assert more[..|es|] == es;
    StepKeepsWf(After(s, es), e);
  }

  predicate NoFileSteps(es: seq<Event>, k: nat) {
    forall j :: k <= j < |es| ==> !es[j].FileStep?
  }

  /** more goes on from es without touching the file system. */
  predicate Quietly(es: seq<Event>, more: seq<Event>) {
    es <= more && NoFileSteps(more, |es|)
  }

  lemma {:induction false} QuietlyOn(es: seq<Event>, mid: seq<Event>, more: seq<Event>)
    requires Quietly(es, mid) && Quietly(mid, more)
    ensures Quietly(es, more)
  {}

  function One(id: string, state: RunState): Records {
    map[id := RunRecord(id, state, "")]
  }

  /** A record at running refuses all but the terminal update, a finished one all of them. */
  lemma Refuses(id: string, state: RunState, pc: Gate.Pc)
    requires Gate.AtStore(pc) && (state == Finished || (state == Running && !pc.AtTerminal?))
    ensures !Mutates(One(id, state), Gate.OpOf(Gate.Caller(id, pc)))
    ensures pc.AtEnqueue? ==> ReplyTo(One(id, state), Gate.OpOf(Gate.Caller(id, pc))).error == Some(AlreadyExists)
  {}

  /** A store call that memory refuses only moves its caller. */
  lemma {:induction false} RefusedGoes(s: State, es: seq<Event>, id: string, state: RunState, cs: seq<Gate.Caller>, pc: Gate.Pc, next: Gate.Pc)
    returns (more: seq<Event>)
    requires IsRun(s, es) && Stale(After(s, es), id, One(id, state), cs + [Gate.Caller(id, pc)])
    requires Gate.AtStore(pc) && (state == Finished || (state == Running && !pc.AtTerminal?))
    requires next == Gate.Resume(pc, Some(AlreadyExists))
    ensures IsRun(s, more) && Quietly(es, more)
    ensures Stale(After(s, more), id, One(id, state), cs + [Gate.Caller(id, next)])
    ensures After(s, more).lagging == After(s, es).lagging
  {
    Refuses(id, state, pc);
    OtherStepsChangeNothing(After(s, es), CallStore(|cs|));
    more := Extend(s, es, CallStore(|cs|));
    assert After(s, more).callers == cs + [Gate.Caller(id, next)];
  }

  lemma {:induction false} SpawnGoes(s: State, es: seq<Event>, id: string, m: Records, cs: seq<Gate.Caller>) returns (more: seq<Event>)
    requires IsRun(s, es) && Stale(After(s, es), id, m, cs)
    ensures IsRun(s, more) && Quietly(es, more)
    ensures Stale(After(s, more), id, m, cs + [Gate.Caller(id, Gate.AtEnqueue)])
    ensures After(s, more).lagging == After(s, es).lagging
  {
    more := Extend(s, es, Spawn(id));
  }

  lemma {:induction false} RunGoes(s: State, es: seq<Event>, id: string, m: Records, cs: seq<Gate.Caller>) returns (more: seq<Event>)
    requires IsRun(s, es) && Stale(After(s, es), id, m, cs + [Gate.Caller(id, Gate.InRun)])
    ensures IsRun(s, more) && Quietly(es, more)
    ensures Stale(After(s, more), id, m, cs + [Gate.Caller(id, Gate.AtTerminal(true))])
    ensures After(s, more).lagging == After(s, es).lagging
  {
    more := Extend(s, es, RunDone(|cs|, true));
    assert After(s, more).callers == cs + [Gate.Caller(id, Gate.AtTerminal(true))];
  }

  /** One Admit on a record at running or finished, from its beginning to the end of runFn. */
  lemma {:induction false} AdmitsUpToRunEnd(s: State, es: seq<Event>, id: string, state: RunState, cs: seq<Gate.Caller>)
    returns (more: seq<Event>)
    requires IsRun(s, es) && Stale(After(s, es), id, One(id, state), cs) && state in {Running, Finished}
    ensures IsRun(s, more) && Stale(After(s, more), id, One(id, state), cs + [Gate.Caller(id, Gate.AtTerminal(true))])
    ensures After(s, more).lagging == After(s, es).lagging && Quietly(es, more)
  {
    var es1 := SpawnGoes(s, es, id, One(id, state), cs);
    var es2 := RefusedGoes(s, es1, id, state, cs, Gate.AtEnqueue, Gate.AtAdmitted);
    QuietlyOn(es, es1, es2);
    var es3 := RefusedGoes(s, es2, id, state, cs, Gate.AtAdmitted, Gate.AtRunning);
    QuietlyOn(es, es2, es3);
    var es4 := RefusedGoes(s, es3, id, state, cs, Gate.AtRunning, Gate.InRun);
    QuietlyOn(es, es3, es4);
    more := RunGoes(s, es4, id, One(id, state), cs);
    QuietlyOn(es, es4, more);
  }

  /** The terminal update is in memory and about to be persisted. */
  ghost predicate Saving(s: State, id: string) {
    && Wf(s) && s.disk.process == Disk.Up(One(id, Finished), Disk.Next(CreateTemp), Absent)
    && s.saver == Some(Saver(0, One(id, Running)))
    && s.callers == [Gate.Caller(id, Gate.AtTerminal(true))] && s.disk.file == Whole(One(id, Running))
  }

  lemma {:induction false} TerminalPersistStarts(s: State, es: seq<Event>, id: string) returns (more: seq<Event>)
    requires IsRun(s, es) && Stale(After(s, es), id, One(id, Running), [Gate.Caller(id, Gate.AtTerminal(true))])
    ensures IsRun(s, more) && Saving(After(s, more), id)
  {
    assert Apply(One(id, Running), UpdateOp(id, Running, Finished)) == One(id, Finished);
    more := Extend(s, es, CallStore(0));
  }

  lemma {:induction false} TerminalPersistFails(s: State, es: seq<Event>, id: string) returns (more: seq<Event>)
    requires IsRun(s, es) && Saving(After(s, es), id)
    ensures IsRun(s, more) && Stale(After(s, more), id, One(id, Finished), [Gate.Caller(id, Gate.Returned(true))])
    ensures id in After(s, more).lagging
  {
    more := Extend(s, es, FileStep(false));
  }

  lemma FirstAdmitLags(id: string) returns (s: State, first: seq<Event>)
    ensures Init(s) && IsRun(s, first) && id in After(s, first).lagging
    ensures Stale(After(s, first), id, One(id, Finished), [Gate.Caller(id, Gate.Returned(true))])
  {
    var m := One(id, Running);
    s := State(Disk.State(Whole(m), Disk.Up(m, Disk.Idle, Absent), [], false), [], [], None, m, {}, map[]);
    assert Terminals(m) == map[];
    first := AdmitsUpToRunEnd(s, [], id, Running, []);
    first := TerminalPersistStarts(s, first, id);
    first := TerminalPersistFails(s, first, id);
  }

  lemma {:induction false} SecondAdmitReturns(s: State, first: seq<Event>, id: string) returns (es: seq<Event>)
    requires IsRun(s, first)
    requires Stale(After(s, first), id, One(id, Finished), [Gate.Caller(id, Gate.Returned(true))])
    ensures IsRun(s, es) && Quietly(first, es) && After(s, es).lagging == After(s, first).lagging
    ensures Stale(After(s, es), id, One(id, Finished), [Gate.Caller(id, Gate.Returned(true)), Gate.Caller(id, Gate.Returned(true))])
  {
    var done := [Gate.Caller(id, Gate.Returned(true))];
    var mid := AdmitsUpToRunEnd(s, first, id, Finished, done);
    es := RefusedGoes(s, mid, id, Finished, done, Gate.AtTerminal(true), Gate.Returned(true));
    QuietlyOn(first, mid, es);
    assert done + done == [Gate.Caller(id, Gate.Returned(true)), Gate.Caller(id, Gate.Returned(true))];
  }

  /** An Admit none of whose own persists failed can return with the disk still saying running: an
      earlier Admit in the same process changed memory and failed to persist, and the later one finds
      nothing left to change. This is the lagging case of RestartableAdmission. */
  lemma {:induction false} LaggingHappens(id: string) returns (s: State, es: seq<Event>, second: nat)
    ensures Init(s) && IsRun(s, es) && second <= |es|
    ensures After(s, es).callers == [Gate.Caller(id, Gate.Returned(true)), Gate.Caller(id, Gate.Returned(true))]
    ensures NoFileSteps(es, second)
    ensures IsRun(s, es[..second]) && |After(s, es[..second]).callers| == 1
    ensures OnDisk(After(s, es), id) == Some(Running) && id in After(s, es).lagging
  {
    var first;
    s, first := FirstAdmitLags(id);
    second := |first|;
    es := SecondAdmitReturns(s, first, id);
    assert es[..second] == first;
  }
}
