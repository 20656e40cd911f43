/** A JSON store whose process may die between any two file operations of a persist. */
module CrashDisk {
  import opened Common
  import opened RunRecords
  import opened RunStores

  /** Where the process is: Idle, or holding the mutex with this file step to do next. */
  datatype Phase = Idle | Next(step: PersistStep)

  /** temp is the temporary file of the persist in progress. */
  datatype Process = Down | Up(memory: Records, phase: Phase, temp: File)

  /** renames is the history of completed renames, oldest first; unsaved says that a persist of
      this process failed and none has succeeded since. */
  datatype State = State(file: File, process: Process, renames: seq<Records>, unsaved: bool)

  datatype Event =
    | Mutate(to: Records)    // a store call changes memory and starts persisting
    | WritePart              // some of the data, not all, reaches the temporary file
    | FileStep(ok: bool)     // the next file operation succeeds, or fails and is cleaned up
    | Crash
    | Reopen

  predicate Enabled(s: State, e: Event) {
    match e
    case Mutate(_) => s.process.Up? && s.process.phase.Idle?
    case WritePart => s.process.Up? && s.process.phase == Next(WriteTemp)
    case FileStep(_) => s.process.Up? && s.process.phase.Next?
    case Crash => s.process.Up?
    case Reopen => s.process.Down? && Load(s.file).Some?
  }

  function FileStepDone(s: State, p: Process): State
    requires p.Up? && p.phase.Next?
  {
    match p.phase.step
    case CreateTemp => s.(process := Up(p.memory, Next(WriteTemp), Empty))
    case WriteTemp => s.(process := Up(p.memory, Next(CloseTemp), Whole(p.memory)))
    case CloseTemp => s.(process := p.(phase := Next(RenameTemp)))
    case RenameTemp =>
      State(p.temp, Up(p.memory, Idle, Absent), s.renames + [p.memory], false)
  }

  function Step(s: State, e: Event): State
    requires Enabled(s, e)
  {
    match e
    case Mutate(to) => s.(process := Up(to, Next(CreateTemp), Absent))
    case WritePart => s.(process := s.process.(temp := Torn))
    case FileStep(ok) =>
      if ok then FileStepDone(s, s.process)
      else s.(process := Up(s.process.memory, Idle, Absent), unsaved := true)
    case Crash => s.(process := Down)
    case Reopen => s.(process := Up(Load(s.file).value, Idle, Absent), unsaved := false)
  }

  /** A store just opened on a readable file. */
  ghost predicate Init(s: State) {
    && Load(s.file).Some?
    && s.process == Up(Load(s.file).value, Idle, Absent)
    && s.renames == [] && !s.unsaved
  }

  predicate IsRun(s: State, es: seq<Event>)
    decreases |es|, 0
  {
    es == [] || (IsRun(s, es[..|es| - 1]) && Enabled(After(s, es[..|es| - 1]), es[|es| - 1]))
  }

  function After(s: State, es: seq<Event>): State
    requires IsRun(s, es)
    decreases |es|, 1
  {
    if es == [] then s else Step(After(s, es[..|es| - 1]), es[|es| - 1])
  }

  /** The file is the initial one until the first completed rename, and from then on exactly the
      snapshot of the last one. */
  ghost predicate FileIsSnapshot(initial: File, s: State) {
    s.file == if s.renames == [] then initial else Whole(s.renames[|s.renames| - 1])
  }

  ghost predicate Inv(initial: File, s: State) {
    && Load(initial).Some?
    && FileIsSnapshot(initial, s)
    && (s.process.Up? ==>
          && (s.process.phase in {Next(CloseTemp), Next(RenameTemp)} ==> s.process.temp == Whole(s.process.memory))
          && (s.process.phase.Idle? && !s.unsaved ==> Load(s.file) == Some(s.process.memory)))
  }

  lemma StepKeepsInv(initial: File, s: State, e: Event)
    requires Inv(initial, s) && Enabled(s, e)
    ensures Inv(initial, Step(s, e))
  {}

  /** Whatever crashes, torn writes and failures happen, at every moment the store file is the
      initial one or one complete snapshot, never a torn write, so the store can be reopened; and
      with no unrecovered failure the idle process agrees with its file. */
  lemma {:induction false} FileIsAlwaysComplete(s: State, es: seq<Event>)
    requires Init(s) && IsRun(s, es)
    ensures Inv(s.file, After(s, es))
    ensures Load(After(s, es).file).Some? && !After(s, es).file.Torn?
    ensures After(s, es).process.Down? ==> Enabled(After(s, es), Event.Reopen)
  {
    if es != [] {
      FileIsAlwaysComplete(s, es[..|es| - 1]);
      StepKeepsInv(s.file, After(s, es[..|es| - 1]), es[|es| - 1]);
    }
  }

  /** A mutation returns nil exactly at a successful rename. At that moment the file is the whole
      memory, so changes whose own persists failed earlier are durable too. Every other step
      leaves the file as it was. */
  lemma {:induction false} OnlyRenameChangesTheFile(s: State, es: seq<Event>, e: Event)
    requires Init(s) && IsRun(s, es) && Enabled(After(s, es), e)
    ensures var before, after := After(s, es), Step(After(s, es), e);
            if e == FileStep(true) && before.process.phase == Next(RenameTemp)
            then after.file == Whole(before.process.memory) && after.process.memory == before.process.memory
            else after.file == before.file
  {
    FileIsAlwaysComplete(s, es);
  }

  /** What the temporary file holds at each step of a persist; between persists there is none. */
  predicate TempFits(p: Process) {
    p.Up? ==>
      match p.phase
      case Idle => p.temp == Absent
      case Next(CreateTemp) => p.temp == Absent
      case Next(WriteTemp) => p.temp == Empty || p.temp == Torn
      case _ => p.temp == Whole(p.memory)
  }

  /** No persist, failed or not, leaves its temporary file behind, and what is renamed is whole. */
  lemma {:induction false} NoTempLeftBehind(s: State, es: seq<Event>)
    requires Init(s) && IsRun(s, es)
    ensures TempFits(After(s, es).process)
  {
    if es != [] {
      NoTempLeftBehind(s, es[..|es| - 1]);
    }
  }

  /** A persist of the present process has failed and none has succeeded since. */
  function FailedSinceSave(s: State, es: seq<Event>): bool
    requires IsRun(s, es)
  {
    if es == [] then false
    else
      var n := |es| - 1;
      var before := After(s, es[..n]);
      match es[n]
      case FileStep(ok) => if ok then before.process.phase != Next(RenameTemp) && FailedSinceSave(s, es[..n]) else true
      case Reopen => false
      case _ => FailedSinceSave(s, es[..n])
  }

  /** Between persists, memory and file can only differ after a failure that no later success, and no
      restart, has made good. */
  lemma {:induction false} DiffersOnlyAfterFailure(s: State, es: seq<Event>)
    requires Init(s) && IsRun(s, es)
    ensures After(s, es).unsaved == FailedSinceSave(s, es)
    ensures After(s, es).process.Up? && After(s, es).process.phase.Idle? && !FailedSinceSave(s, es) ==>
              Load(After(s, es).file) == Some(After(s, es).process.memory)
  {
    FileIsAlwaysComplete(s, es);
    if es != [] {
      DiffersOnlyAfterFailure(s, es[..|es| - 1]);
    }
  }

  lemma {:induction false} Extend(s: State, es: seq<Event>, e: Event) returns (more: seq<Event>)
    requires IsRun(s, es) && Enabled(After(s, es), e)
    ensures more == es + [e] && IsRun(s, more) && After(s, more) == Step(After(s, es), e)
  {
    more := es + [e];
    assert more[..|es|] == es;
  }

  /** A persist none of whose four file operations fails ends: the caller gets its nil, and the file is
      the new memory, whatever was there before. */
  lemma {:induction false} PersistCompletes(s: State, es: seq<Event>, to: Records)
    requires IsRun(s, es) && Enabled(After(s, es), Mutate(to))
    ensures var saved := es + [Mutate(to)] + [FileStep(true)] + [FileStep(true)] + [FileStep(true)] + [FileStep(true)];
      && IsRun(s, saved)
      && After(s, saved) == State(Whole(to), Up(to, Idle, Absent), After(s, es).renames + [to], false)
  {
    var more := Extend(s, es, Mutate(to));
    more := Extend(s, more, FileStep(true));
    more := Extend(s, more, FileStep(true));
    more := Extend(s, more, FileStep(true));
    more := Extend(s, more, FileStep(true));
  }
}
