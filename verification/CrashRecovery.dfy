/** A store that was killed can be reopened and used: from every crashed state a restart and one Admit
    bring the run's record to its end on disk. */
module CrashRecovery {
  import opened Common
  import opened RunStates
  import opened CrashGate
  import Recs = RunRecords
  import Stores = RunStores
  import RunGate
  import Disk = CrashDisk
  import Gate = GateSystem

  /** One caller, for id, at pc; nobody is persisting and nothing has failed. */
  ghost predicate Alone(t: State, base: Recs.Records, id: string, pc: Gate.Pc) {
    && Wf(t) && t.disk.process.Up? && t.disk.process.phase.Idle? && t.saver == None
    && t.callers == [Gate.Caller(id, pc)] && t.lagging == {} && t.base == base
  }

  /** That caller's call is being persisted, step next. */
  ghost predicate Persisting(t: State, base: Recs.Records, id: string, pc: Gate.Pc, step: Recs.PersistStep) {
    && Wf(t) && t.disk.process.Up? && t.disk.process.phase == Disk.Next(step)
    && t.saver.Some? && t.saver.value.i == 0 && Gate.AtStore(pc)
    && t.callers == [Gate.Caller(id, pc)] && t.lagging == {} && t.base == base
  }

  function NextStep(step: Recs.PersistStep): Recs.PersistStep {
    match step
    case CreateTemp => Recs.WriteTemp
    case WriteTemp => Recs.CloseTemp
    case _ => Recs.RenameTemp
  }

  lemma {:induction false} FileStepGoes(s: State, es: seq<Event>, base: Recs.Records, id: string, pc: Gate.Pc, step: Recs.PersistStep) returns (more: seq<Event>)
    requires IsRun(s, es) && Persisting(After(s, es), base, id, pc, step) && step != Recs.RenameTemp
    ensures IsRun(s, more) && es <= more && Persisting(After(s, more), base, id, pc, NextStep(step))
  {
    more := Extend(s, es, FileStep(true));
  }

  lemma {:induction false} RenameGoes(s: State, es: seq<Event>, base: Recs.Records, id: string, pc: Gate.Pc) returns (more: seq<Event>)
    requires IsRun(s, es) && Persisting(After(s, es), base, id, pc, Recs.RenameTemp)
    ensures IsRun(s, more) && es <= more && Alone(After(s, more), base, id, Gate.Resume(pc, None))
  {
    more := Extend(s, es, FileStep(true));
  }

  lemma {:induction false} PersistGoes(s: State, es: seq<Event>, base: Recs.Records, id: string, pc: Gate.Pc) returns (more: seq<Event>)
    requires IsRun(s, es) && Persisting(After(s, es), base, id, pc, Recs.CreateTemp)
    ensures IsRun(s, more) && es <= more && Alone(After(s, more), base, id, Gate.Resume(pc, None))
  {
    more := FileStepGoes(s, es, base, id, pc, Recs.CreateTemp);
    more := FileStepGoes(s, more, base, id, pc, Recs.WriteTemp);
    more := FileStepGoes(s, more, base, id, pc, Recs.CloseTemp);
    more := RenameGoes(s, more, base, id, pc);
  }

  lemma CallShows(t: State, base: Recs.Records, id: string, pc: Gate.Pc)
    requires Alone(t, base, id, pc) && Gate.AtStore(pc)
    ensures Enabled(t, CallStore(0))
    ensures var t' := Step(t, CallStore(0));
      Persisting(t', base, id, pc, Recs.CreateTemp) || Alone(t', base, id, Gate.Resume(pc, None))
  {
    StepKeepsWf(t, CallStore(0));
    assert t.callers[0] == Gate.Caller(id, pc);
  }

  /** A store call none of whose file operations fails comes back. */
  lemma {:induction false} StoreGoes(s: State, es: seq<Event>, base: Recs.Records, id: string, pc: Gate.Pc) returns (more: seq<Event>)
    requires IsRun(s, es) && Alone(After(s, es), base, id, pc) && Gate.AtStore(pc)
    ensures IsRun(s, more) && es <= more && Alone(After(s, more), base, id, Gate.Resume(pc, None))
  {
    CallShows(After(s, es), base, id, pc);
    more := Extend(s, es, CallStore(0));
    if Persisting(After(s, more), base, id, pc, Recs.CreateTemp) {
      more := PersistGoes(s, more, base, id, pc);
    }
  }

  lemma {:induction false} RunGoes(s: State, es: seq<Event>, base: Recs.Records, id: string, ok: bool) returns (more: seq<Event>)
    requires IsRun(s, es) && Alone(After(s, es), base, id, Gate.InRun)
    ensures IsRun(s, more) && es <= more && Alone(After(s, more), base, id, Gate.AtTerminal(ok))
  {
    more := Extend(s, es, RunDone(0, ok));
  }

  lemma ReopenShows(t: State)
    requires Wf(t) && t.disk.process.Down? && Stores.Load(t.disk.file).Some?
    ensures Enabled(t, Reopen)
    ensures var t' := Step(t, Reopen);
      && Wf(t') && t'.disk.process == Disk.Up(Stores.Load(t.disk.file).value, Disk.Idle, Stores.Absent) && t'.saver == None
      && t'.callers == [] && t'.lagging == {} && t'.base == Visible(t') == Stores.Load(t.disk.file).value
      && t'.disk.file == t.disk.file
  {}

  /** A killed process can always be started again, on exactly the records its file holds. */
  lemma {:induction false} RestartLoadsTheFile(s: State, es: seq<Event>) returns (more: seq<Event>)
    requires Init(s) && IsRun(s, es) && After(s, es).disk.process.Down?
    ensures more == es + [Reopen] && IsRun(s, more)
    ensures var t, t' := After(s, es), After(s, more);
      && t'.disk.process.Up? && t'.disk.file == t.disk.file && Stores.Load(t.disk.file) == Some(Visible(t'))
      && t'.callers == [] && t'.lagging == {} && t'.base == Visible(t')
    ensures After(s, more).disk.process.phase.Idle? && Wf(After(s, more)) && After(s, more).saver == None
  {
    AlwaysWf(s, es);
    ReopenShows(After(s, es));
    more := Extend(s, es, Reopen);
  }

  lemma {:induction false} SpawnGoes(s: State, es: seq<Event>, base: Recs.Records, id: string) returns (more: seq<Event>)
    requires IsRun(s, es) && Wf(After(s, es)) && After(s, es).disk.process.Up? && After(s, es).disk.process.phase.Idle?
    requires After(s, es).saver == None && After(s, es).callers == [] && After(s, es).lagging == {} && After(s, es).base == base
    ensures IsRun(s, more) && es <= more && Alone(After(s, more), base, id, Gate.AtEnqueue)
  {
    more := Extend(s, es, Spawn(id));
  }

  /** The only caller decides, unless the record was terminal when the process loaded it. */
  lemma {:induction false} SoleCallerDecides(s: State, es: seq<Event>, base: Recs.Records, id: string, ok: bool)
    requires Init(s) && IsRun(s, es) && RunGate.Walkable(s.base, id)
    requires Alone(After(s, es), base, id, Gate.Returned(ok))
    ensures var now := Visible(After(s, es));
      id in now && now[id].state ==
        if id in base && IsTerminal(base[id].state) then base[id].state else if ok then Finished else Canceled
  {
    var t := After(s, es);
    AlwaysFileFollows(s, es, id);
    var ges := Reachable(s, es);
    var g := Gate.State(base, [], []);
    assert t.callers[0] == Gate.Caller(id, Gate.Returned(ok));
    Gate.ConcurrentAdmits(g, ges, id, 0);
    if Gate.Stage(base, id) < 4 {
      Gate.FirstAttemptHasReturned(g, ges, id);
    }
  }

  /** Restart and one whole Admit. */
  lemma {:induction false} RestartAndAdmit(s: State, es: seq<Event>, id: string, ok: bool)
    returns (more: seq<Event>, base: Recs.Records)
    requires Init(s) && IsRun(s, es) && After(s, es).disk.process.Down?
    ensures es <= more && IsRun(s, more) && Alone(After(s, more), base, id, Gate.Returned(ok))
    ensures Stores.Load(After(s, es).disk.file) == Some(base)
  {
    more := RestartLoadsTheFile(s, es);
    base := After(s, more).base;
    more := SpawnGoes(s, more, base, id);
    more := StoreGoes(s, more, base, id, Gate.AtEnqueue);
    more := StoreGoes(s, more, base, id, Gate.AtAdmitted);
    more := StoreGoes(s, more, base, id, Gate.AtRunning);
    more := RunGoes(s, more, base, id, ok);
    more := StoreGoes(s, more, base, id, Gate.AtTerminal(ok));
  }

  /** Recovery: whatever was going on when the process was killed, restarting it and admitting the run
      once, without failures, ends with the record terminal on disk: at the outcome that was there, or
      else at this one. */
  lemma {:induction false} RestartAndAdmitRecovers(s: State, es: seq<Event>, id: string, ok: bool) returns (more: seq<Event>)
    requires Init(s) && IsRun(s, es) && RunGate.Walkable(s.base, id) && After(s, es).disk.process.Down?
    ensures es <= more && IsRun(s, more)
    ensures After(s, more).callers == [Gate.Caller(id, Gate.Returned(ok))]
    ensures var was := OnDisk(After(s, es), id);
      OnDisk(After(s, more), id) ==
        if was in {Some(Finished), Some(Canceled)} then was else Some(if ok then Finished else Canceled)
  {
    var base;
    more, base := RestartAndAdmit(s, es, id, ok);
    SoleCallerDecides(s, more, base, id, ok);
    assert After(s, more).callers[0] == Gate.Caller(id, Gate.Returned(ok));
    RestartableAdmission(s, more, id, 0);
  }
}
