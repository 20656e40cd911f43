/** The ingress gate: record a run, walk it through its lifecycle around runFn, report. */
module RunGate {
  import opened Common
  import opened RunStates
  import opened RunRecords
  import opened RunStores

  datatype AdmitError = EnqueueFailed(error: StoreError) | RunFailed

  /** Error returned, whether runFn was called, and the record runFn would read on entry. */
  datatype Admission = Admission(error: Option<AdmitError>, ran: bool, seen: Option<RunRecord>)

  /** The persist outcomes met by the four store calls of one Admit. */
  datatype Faults = Faults(enqueue: Fault, admitted: Fault, running: Fault, terminal: Fault)

  function NewRecord(id: string): RunRecord {
    RunRecord(id, Queued, "")
  }

  function EndState(ok: bool): RunState {
    if ok then Finished else Canceled
  }

  predicate EnqueueRejected(d: Durable, id: string, fault: Fault) {
    JsonReply(d, EnqueueOp(NewRecord(id)), fault).error !in {None, Some(AlreadyExists)}
  }

  function AfterEnqueue(d: Durable, id: string, f: Faults): Durable {
    JsonApply(d, EnqueueOp(NewRecord(id)), f.enqueue)
  }

  function AtRunStart(d: Durable, id: string, f: Faults): Durable {
    JsonApply(JsonApply(AfterEnqueue(d, id, f), UpdateOp(id, Queued, AdmittedToDag), f.admitted),
      UpdateOp(id, AdmittedToDag, Running), f.running)
  }

  function AfterAdmit(d: Durable, id: string, ok: bool, f: Faults): Durable {
    if EnqueueRejected(d, id, f.enqueue) then AfterEnqueue(d, id, f)
    else JsonApply(AtRunStart(d, id, f), UpdateOp(id, Running, EndState(ok)), f.terminal)
  }

  class RunGate {
    const store: JsonRunStore?

    constructor (store: JsonRunStore?)
      ensures this.store == store
    {
      this.store := store;
    }

    /** runFn is a call into unseen code; runOk is whether it returns nil. */
    method Admit(id: string, runOk: bool, f: Faults) returns (a: Admission)
      modifies if store != null then {store, store.disk} else {}
      ensures store == null ==> a == Admission(if runOk then None else Some(RunFailed), true, None)
      ensures store != null ==>
        && store.Contents() == AfterAdmit(old(store.Contents()), id, runOk, f)
        && (a.ran <==> id in old(store.records) || f.enqueue.NoFault?)
        && (a.ran ==> a.seen == Get(AtRunStart(old(store.Contents()), id, f).memory, id))
        && a.error == (if !a.ran then Some(EnqueueFailed(PersistFailed(f.enqueue.step)))
                       else if runOk then None else Some(RunFailed))
        && (!a.ran ==> store.records == old(store.records)[id := NewRecord(id)] && store.disk.file == old(store.disk.file))
    {
      if store == null {
        return Admission(if runOk then None else Some(RunFailed), true, None);
      }
      var enqErr := store.Enqueue(NewRecord(id), f.enqueue);
      if enqErr.Some? && enqErr.value != AlreadyExists {
        return Admission(Some(EnqueueFailed(enqErr.value)), false, None);
      }
      var ignored := store.UpdateState(id, Queued, AdmittedToDag, f.admitted);
      ignored := store.UpdateState(id, AdmittedToDag, Running, f.running);
      var seen := store.Get(id);
      if runOk {
        ignored := store.UpdateState(id, Running, Finished, f.terminal);
      } else {
        ignored := store.UpdateState(id, Running, Canceled, f.terminal);
      }
      a := Admission(if runOk then None else Some(RunFailed), true, seen);
    }
  }

  // What one Admit means for the record it is about.

  /** States from which the two ignored updates do bring the record to running. */
  predicate OnPath(s: RunState) {
    s in {Queued, AdmittedToDag, Running, Finished, Canceled}
  }

  predicate Walkable(m: Records, id: string) {
    id !in m || OnPath(m[id].state)
  }

  predicate RunningOrLater(m: Records, id: string) {
    id in m && m[id].state in {Running, Finished, Canceled}
  }

  lemma UpdateMoves(m: Records, id: string, from: RunState, to: RunState)
    requires id in m && ValidateTransition(from, to)
    ensures Apply(m, UpdateOp(id, from, to)) ==
            if m[id].state == from then m[id := m[id].(state := to)] else m
  {}

  /** The gate's comment promises a record at running before runFn starts and terminal after it.
      That holds exactly when the record was not parked (held, resumed, or an unknown state)
      when Admit was called: a parked run is executed all the same and left parked. A record
      already terminal is executed again and keeps its first outcome. */
  lemma AdmitMovesUnparkedRuns(d: Durable, id: string, ok: bool, f: Faults)
    requires !EnqueueRejected(d, id, f.enqueue)
    ensures RunningOrLater(AtRunStart(d, id, f).memory, id) <==> Walkable(d.memory, id)
    ensures var m := AfterAdmit(d, id, ok, f).memory;
            && id in m
            && (IsTerminal(m[id].state) <==> Walkable(d.memory, id))
            && m[id].state == (if id in d.memory && (IsTerminal(d.memory[id].state) || !OnPath(d.memory[id].state))
                               then d.memory[id].state else if ok then Finished else Canceled)
    ensures forall other :: other != id ==>
              Get(AfterAdmit(d, id, ok, f).memory, other) == Get(d.memory, other)
  {
    var m1 := AfterEnqueue(d, id, f).memory;
    var m2 := Apply(m1, UpdateOp(id, Queued, AdmittedToDag));
    UpdateMoves(m1, id, Queued, AdmittedToDag);
    UpdateMoves(m2, id, AdmittedToDag, Running);
    UpdateMoves(AtRunStart(d, id, f).memory, id, Running, EndState(ok));
  }

  /** Every run is in the store before runFn is called, and admitting again never changes a
      record that an earlier Admit has carried to its end. */
  lemma RecordedBeforeRunAndStable(d: Durable, id: string, ok: bool, f: Faults, ok': bool, f': Faults)
    requires !EnqueueRejected(d, id, f.enqueue)
    ensures id in AfterEnqueue(d, id, f).memory
    ensures !EnqueueRejected(AfterAdmit(d, id, ok, f), id, f'.enqueue)
    ensures AfterAdmit(AfterAdmit(d, id, ok, f), id, ok', f') == AfterAdmit(d, id, ok, f)
  {
    var d1 := AfterAdmit(d, id, ok, f);
    AdmitMovesUnparkedRuns(d, id, ok, f);
    RefusedCallChangesNothing(d1, EnqueueOp(NewRecord(id)), f'.enqueue);
    RefusedCallChangesNothing(d1, UpdateOp(id, Queued, AdmittedToDag), f'.admitted);
    RefusedCallChangesNothing(d1, UpdateOp(id, AdmittedToDag, Running), f'.running);
    RefusedCallChangesNothing(d1, UpdateOp(id, Running, EndState(ok')), f'.terminal);
  }
}
