/** Any number of Admit calls in progress at once, interleaved at every store call. */
module GateSystem {
  import opened Common
  import opened RunStates
  import opened RunRecords
  import opened RunStores
  import opened RunGate

  /** The next thing an Admit call does. InRun is inside runFn. */
  datatype Pc =
    | AtEnqueue
    | AtAdmitted
    | AtRunning
    | InRun
    | AtTerminal(ok: bool)
    | Returned(ok: bool)
    | Rejected

  datatype Caller = Caller(runId: string, pc: Pc)

  /** One attempt at the terminal update, in the order the store saw them. */
  datatype Attempt = Attempt(runId: string, ok: bool)

  datatype State = State(records: Records, callers: seq<Caller>, attempts: seq<Attempt>)

  datatype Event = Spawn(runId: string) | StoreCall(i: nat, fault: Fault) | RunDone(i: nat, ok: bool)

  predicate AtStore(pc: Pc) {
    pc.AtEnqueue? || pc.AtAdmitted? || pc.AtRunning? || pc.AtTerminal?
  }

  function OpOf(c: Caller): Op
    requires AtStore(c.pc)
  {
    match c.pc
    case AtEnqueue => EnqueueOp(NewRecord(c.runId))
    case AtAdmitted => UpdateOp(c.runId, Queued, AdmittedToDag)
    case AtRunning => UpdateOp(c.runId, AdmittedToDag, Running)
    case AtTerminal(ok) => UpdateOp(c.runId, Running, EndState(ok))
  }

  /** Where an Admit goes on after its store call returned err. */
  function Resume(pc: Pc, err: Option<StoreError>): Pc
    requires AtStore(pc)
  {
    match pc
    case AtEnqueue => if err in {None, Some(AlreadyExists)} then AtAdmitted else Rejected
    case AtAdmitted => AtRunning
    case AtRunning => InRun
    case AtTerminal(ok) => Returned(ok)
  }

  predicate Enabled(s: State, e: Event) {
    match e
    case Spawn(_) => true
    case StoreCall(i, _) => i < |s.callers| && AtStore(s.callers[i].pc)
    case RunDone(i, _) => i < |s.callers| && s.callers[i].pc.InRun?
  }

  function Move(s: State, i: nat, pc: Pc): State
    requires i < |s.callers|
  {
    s.(callers := s.callers[i := s.callers[i].(pc := pc)])
  }

  function Step(s: State, e: Event): State
    requires Enabled(s, e)
  {
    match e
    case Spawn(id) => s.(callers := s.callers + [Caller(id, AtEnqueue)])
    case StoreCall(i, fault) =>
      var c := s.callers[i];
      var err := JsonReply(Durable(s.records, Absent), OpOf(c), fault).error;
      Move(s, i, Resume(c.pc, err)).(
        records := Apply(s.records, OpOf(c)),
        attempts := if c.pc.AtTerminal? then s.attempts + [Attempt(c.runId, c.pc.ok)] else s.attempts)
    case RunDone(i, ok) => Move(s, i, AtTerminal(ok))
  }

  ghost predicate Init(s: State) {
    s.callers == [] && s.attempts == []
  }

  predicate IsRun(s: State, es: seq<Event>)
    decreases |es|, 0
  {
    es == [] || (IsRun(s, es[..|es| - 1]) && Enabled(After(s, es[..|es| - 1]), es[|es| - 1]))
  }

  function After(s: State, es: seq<Event>): State
    requires IsRun(s, es)
    decreases |es|, 1
  {
    if es == [] then s else Step(After(s, es[..|es| - 1]), es[|es| - 1])
  }

  lemma {:induction false} PrefixIsRun(s: State, es: seq<Event>, k: nat)
    requires IsRun(s, es) && k <= |es|
    ensures IsRun(s, es[..k])
    decreases |es|
  {
    if k == |es| {
      assert es[..k] == es;
    } else {
      PrefixIsRun(s, es[..|es| - 1], k);
      assert es[..|es| - 1][..k] == es[..k];
    }
  }

  // What is invariant, for one run id.

  /** How far a record has come: 0 absent, 1 queued, 2 admitted, 3 running, 4 terminal. */
  function Stage(m: Records, id: string): nat {
    if id !in m then 0
    else match m[id].state
      case Queued => 1
      case AdmittedToDag => 2
      case Running => 3
      case _ => 4
  }

  /** The stage a caller relies on once it has come this far. */
  function StageReached(pc: Pc): nat {
    match pc
    case AtEnqueue => 0
    case AtAdmitted => 1
    case AtRunning => 2
    case InRun => 3
    case AtTerminal(_) => 3
    case Returned(_) => 4
    case Rejected => 1
  }

  function FirstAttempt(attempts: seq<Attempt>, id: string): Option<bool> {
    if attempts == [] then None else
      var n := |attempts| - 1;
      var earlier := FirstAttempt(attempts[..n], id);
      if earlier.Some? then earlier
      else if attempts[n].runId == id then Some(attempts[n].ok) else None
  }

  ghost predicate CallersCovered(s: State, id: string) {
    forall i :: 0 <= i < |s.callers| && s.callers[i].runId == id ==>
      StageReached(s.callers[i].pc) <= Stage(s.records, id)
  }

  /** The terminal value is the outcome of the first caller to reach the terminal update. */
  ghost predicate FirstAttemptDecides(m0: Records, m: Records, attempts: seq<Attempt>, id: string) {
    if Stage(m0, id) == 4 then Get(m, id) == Get(m0, id)
    else match FirstAttempt(attempts, id)
      case None => Stage(m, id) < 4
      case Some(ok) => id in m && m[id].state == EndState(ok)
  }

  ghost predicate Inv(m0: Records, s: State, id: string) {
    Walkable(s.records, id) && CallersCovered(s, id) && FirstAttemptDecides(m0, s.records, s.attempts, id)
  }

  /** One store call of one caller, seen from one run id: the record stays or moves to the next
      stage, and a terminal record stays. */
  lemma StoreCallMovesOneStage(m: Records, c: Caller, id: string)
    requires AtStore(c.pc) && Walkable(m, id)
    requires c.runId == id ==> StageReached(c.pc) <= Stage(m, id)
    ensures var m' := Apply(m, OpOf(c));
      && Walkable(m', id)
      && Stage(m, id) <= Stage(m', id) <= Stage(m, id) + 1
      && (Stage(m, id) == 4 || c.runId != id ==> Get(m', id) == Get(m, id))
      && (Stage(m', id) == Stage(m, id) ==> Get(m', id) == Get(m, id))
      && (c.runId == id ==> forall err :: StageReached(Resume(c.pc, err)) <= Stage(m', id))
      && (c.runId == id && c.pc.AtTerminal? && Stage(m, id) < 4 ==> m'[id].state == EndState(c.pc.ok))
      && (c.runId == id && !c.pc.AtTerminal? && Stage(m, id) < 4 ==> Stage(m', id) < 4)
  {
    if c.runId == id && !c.pc.AtEnqueue? {
      UpdateMoves(m, id, OpOf(c).from, OpOf(c).to);
    }
  }

  lemma StoreCallKeepsCallers(s: State, e: Event, id: string)
    requires Walkable(s.records, id) && CallersCovered(s, id) && Enabled(s, e) && e.StoreCall?
    ensures CallersCovered(Step(s, e), id)
  {
    StoreCallMovesOneStage(s.records, s.callers[e.i], id);
  }

  /** Before the terminal update nobody decides anything. */
  lemma EarlierCallDecidesNothing(m0: Records, m: Records, m': Records, attempts: seq<Attempt>, id: string)
    requires FirstAttemptDecides(m0, m, attempts, id)
    requires Stage(m, id) == 4 ==> Get(m', id) == Get(m, id)
    requires Stage(m, id) < 4 ==> Stage(m', id) < 4
    ensures FirstAttemptDecides(m0, m', attempts, id)
  {}

  /** An attempt decides its own run if nobody has, and no other run. */
  lemma AttemptDecides(m0: Records, m: Records, m': Records, attempts: seq<Attempt>, a: Attempt, id: string)
    requires FirstAttemptDecides(m0, m, attempts, id)
    requires Stage(m, id) == 4 || a.runId != id ==> Get(m', id) == Get(m, id)
    requires Stage(m, id) < 4 && a.runId == id ==> id in m' && m'[id].state == EndState(a.ok)
    ensures FirstAttemptDecides(m0, m', attempts + [a], id)
  {
    assert (attempts + [a])[..|attempts|] == attempts;
  }

  lemma StoreCallKeepsFirstAttempt(m0: Records, s: State, e: Event, id: string)
    requires Inv(m0, s, id) && Enabled(s, e) && e.StoreCall?
    ensures FirstAttemptDecides(m0, Step(s, e).records, Step(s, e).attempts, id)
  {
    var c := s.callers[e.i];
    var m' := Apply(s.records, OpOf(c));
    StoreCallMovesOneStage(s.records, c, id);
    if c.pc.AtTerminal? {
      AttemptDecides(m0, s.records, m', s.attempts, Attempt(c.runId, c.pc.ok), id);
    } else {
      EarlierCallDecidesNothing(m0, s.records, m', s.attempts, id);
    }
  }

  lemma StepKeepsInv(m0: Records, s: State, e: Event, id: string)
    requires Inv(m0, s, id) && Enabled(s, e)
    ensures Inv(m0, Step(s, e), id)
    ensures Stage(s.records, id) <= Stage(Step(s, e).records, id) <= Stage(s.records, id) + 1
    ensures Stage(s.records, id) == 4 ==> Get(Step(s, e).records, id) == Get(s.records, id)
  {
    if e.StoreCall? {
      StoreCallMovesOneStage(s.records, s.callers[e.i], id);
      StoreCallKeepsCallers(s, e, id);
      StoreCallKeepsFirstAttempt(m0, s, e, id);
    }
  }

  lemma {:induction false} Invariant(s: State, es: seq<Event>, id: string)
    requires Init(s) && Walkable(s.records, id) && IsRun(s, es)
    ensures Inv(s.records, After(s, es), id)
  {
    if es != [] {
      Invariant(s, es[..|es| - 1], id);
      StepKeepsInv(s.records, After(s, es[..|es| - 1]), es[|es| - 1], id);
    }
  }

  /** On every interleaving of any number of Admit calls: while runFn is in progress the record is
      running or later; a caller that ran runFn returns with the record terminal; the terminal
      value is the outcome of the first caller to reach the terminal update. Persist failures
      change none of it. */
  lemma {:induction false} ConcurrentAdmits(s: State, es: seq<Event>, id: string, i: nat)
    requires Init(s) && Walkable(s.records, id) && IsRun(s, es)
    requires i < |After(s, es).callers| && After(s, es).callers[i].runId == id
    ensures var t := After(s, es);
      && (t.callers[i].pc.InRun? ==> RunningOrLater(t.records, id))
      && (t.callers[i].pc.Returned? ==>
            && id in t.records && IsTerminal(t.records[id].state)
            && (if Stage(s.records, id) == 4 then t.records[id] == s.records[id]
                else FirstAttempt(t.attempts, id).Some? &&
                     t.records[id].state == if FirstAttempt(t.attempts, id).value then Finished else Canceled))
  {
    Invariant(s, es, id);
  }

  function StageAt(s: State, es: seq<Event>, k: nat, id: string): nat
    requires k <= |es| && IsRun(s, es)
  {
    PrefixIsRun(s, es, k);
    Stage(After(s, es[..k]).records, id)
  }

  lemma {:induction false} StagesClimb(s: State, es: seq<Event>, j: nat, k: nat, id: string)
    requires Init(s) && Walkable(s.records, id) && IsRun(s, es) && j <= k <= |es|
    ensures StageAt(s, es, j, id) <= StageAt(s, es, k, id)
    ensures k == j + 1 ==> StageAt(s, es, k, id) <= StageAt(s, es, j, id) + 1
    decreases k
  {
    if j < k {
      StagesClimb(s, es, j, k - 1, id);
      PrefixIsRun(s, es, k - 1);
      PrefixIsRun(s, es, k);
      assert es[..k][..k - 1] == es[..k - 1];
      Invariant(s, es[..k - 1], id);
      StepKeepsInv(s.records, After(s, es[..k - 1]), es[k - 1], id);
    }
  }

  /** The record goes through queued, admitted, running, terminal in this order, each stage
      between its first and its present one entered by exactly one step. */
  lemma {:induction false} EachStageEnteredOnce(s: State, es: seq<Event>, id: string, v: nat) returns (k: nat)
    requires Init(s) && Walkable(s.records, id) && IsRun(s, es)
    requires StageAt(s, es, 0, id) <= v < StageAt(s, es, |es|, id)
    ensures k < |es| && StageAt(s, es, k, id) == v && StageAt(s, es, k + 1, id) == v + 1
    ensures forall j :: 0 <= j < |es| && j != k ==>
              !(StageAt(s, es, j, id) == v && StageAt(s, es, j + 1, id) == v + 1)
  {
    k := |es|;
    while StageAt(s, es, k, id) > v
      invariant k <= |es|
      invariant k < |es| ==> StageAt(s, es, k + 1, id) > v
      decreases k
    {
      k := k - 1;
      StagesClimb(s, es, k, k + 1, id);
    }
    StagesClimb(s, es, k, k + 1, id);
    forall j | 0 <= j < |es| && j != k
      ensures !(StageAt(s, es, j, id) == v && StageAt(s, es, j + 1, id) == v + 1)
    {
      if j < k { StagesClimb(s, es, j + 1, k, id); } else { StagesClimb(s, es, k + 1, j, id); }
    }
  }

  lemma {:induction false} Extend(s: State, es: seq<Event>, e: Event) returns (more: seq<Event>)
    requires IsRun(s, es) && Enabled(After(s, es), e)
    ensures more == es + [e] && IsRun(s, more) && After(s, more) == Step(After(s, es), e)
  {
    more := es + [e];
    assert more[..|es|] == es;
  }

  // What one Admit has done, by the events of the run.

  /** The run is known to the store, or this enqueue's persist does not fail. */
  predicate EnqueueGoesThrough(m: Records, id: string, fault: Fault) {
    id in m || fault.NoFault?
  }

  /** Whether caller i's first store call, its enqueue, has been made, and whether it went through. */
  function FirstCall(s: State, es: seq<Event>, i: nat): Option<bool>
    requires IsRun(s, es)
  {
    if es == [] then None
    else
      var n := |es| - 1;
      var before, earlier := After(s, es[..n]), FirstCall(s, es[..n], i);
      if earlier.None? && es[n].StoreCall? && es[n].i == i
      then Some(EnqueueGoesThrough(before.records, before.callers[i].runId, es[n].fault))
      else earlier
  }

  function StoreCalls(es: seq<Event>, i: nat): nat {
    if es == [] then 0
    else StoreCalls(es[..|es| - 1], i) + if es[|es| - 1].StoreCall? && es[|es| - 1].i == i then 1 else 0
  }

  /** What caller i's runFn has returned, oldest first. */
  function RunResults(es: seq<Event>, i: nat): seq<bool> {
    if es == [] then []
    else RunResults(es[..|es| - 1], i) + if es[|es| - 1].RunDone? && es[|es| - 1].i == i then [es[|es| - 1].ok] else []
  }

  /** Where an Admit is, from what it has done. */
  ghost predicate HasDone(pc: Pc, first: Option<bool>, calls: nat, results: seq<bool>) {
    && (pc.AtEnqueue? <==> calls == 0)
    && (pc.AtEnqueue? <==> first == None)
    && (pc.Rejected? <==> first == Some(false))
    && (pc.AtAdmitted? || pc.Rejected? <==> calls == 1)
    && (pc.AtRunning? <==> calls == 2)
    && (pc.InRun? || pc.AtTerminal? <==> calls == 3)
    && (pc.Returned? <==> calls == 4)
    && results == (if pc.AtTerminal? || pc.Returned? then [pc.ok] else [])
  }

  lemma StepKeepsHasDone(s: State, e: Event, i: nat, first: Option<bool>, calls: nat, results: seq<bool>)
    requires Enabled(s, e) && i < |s.callers| && HasDone(s.callers[i].pc, first, calls, results)
    ensures var mine := e.StoreCall? && e.i == i;
      HasDone(Step(s, e).callers[i].pc,
        if first.None? && mine then Some(EnqueueGoesThrough(s.records, s.callers[i].runId, e.fault)) else first,
        if mine then calls + 1 else calls,
        if e.RunDone? && e.i == i then results + [e.ok] else results)
  {}

  lemma {:induction false} NotYetSpawned(s: State, es: seq<Event>, i: nat)
    requires Init(s) && IsRun(s, es) && i >= |After(s, es).callers|
    ensures FirstCall(s, es, i) == None && StoreCalls(es, i) == 0 && RunResults(es, i) == []
  {
    if es != [] {
      NotYetSpawned(s, es[..|es| - 1], i);
    }
  }

  /** An Admit, seen from the events of the run: it has been rejected exactly when its first store call
      met no record of the run and failed to persist, and then it makes no other store call and runFn
      is never called; otherwise it makes four store calls, runFn is called once, between the third
      and the fourth, and Admit returns what runFn returned. */
  lemma {:induction false} AdmitFollowsEvents(s: State, es: seq<Event>, i: nat)
    requires Init(s) && IsRun(s, es) && i < |After(s, es).callers|
    ensures var pc := After(s, es).callers[i].pc;
      && (pc.Rejected? <==> FirstCall(s, es, i) == Some(false))
      && (pc.Rejected? ==> StoreCalls(es, i) == 1 && RunResults(es, i) == [])
      && (pc.AtEnqueue? <==> FirstCall(s, es, i) == None)
      && (pc.InRun? || pc.AtTerminal? <==> StoreCalls(es, i) == 3)
      && (pc.Returned? <==> StoreCalls(es, i) == 4)
      && StoreCalls(es, i) <= 4
      && RunResults(es, i) == (if pc.AtTerminal? || pc.Returned? then [pc.ok] else [])
    ensures HasDone(After(s, es).callers[i].pc, FirstCall(s, es, i), StoreCalls(es, i), RunResults(es, i))
  {
    var n := |es| - 1;
    var before := After(s, es[..n]);
    if i < |before.callers| {
      AdmitFollowsEvents(s, es[..n], i);
      StepKeepsHasDone(before, es[n], i, FirstCall(s, es[..n], i), StoreCalls(es[..n], i), RunResults(es[..n], i));
    } else {
      NotYetSpawned(s, es[..n], i);
    }
  }

  // Runs that are parked when they are admitted.

  /** Store calls leave a parked record alone. */
  lemma ParkedRefuses(m: Records, c: Caller, id: string)
    requires AtStore(c.pc) && !Walkable(m, id)
    ensures Get(Apply(m, OpOf(c)), id) == Get(m, id)
  {}

  lemma StepKeepsParked(s: State, e: Event, id: string)
    requires Enabled(s, e) && !Walkable(s.records, id)
    ensures Get(Step(s, e).records, id) == Get(s.records, id)
  {
    if e.StoreCall? {
      ParkedRefuses(s.records, s.callers[e.i], id);
    }
  }

  /** A held, resumed or unknown record is the same after any number of Admit calls of that run. */
  lemma {:induction false} ParkedStaysParked(s: State, es: seq<Event>, id: string)
    requires IsRun(s, es) && !Walkable(s.records, id)
    ensures Get(After(s, es).records, id) == Get(s.records, id)
  {
    if es != [] {
      ParkedStaysParked(s, es[..|es| - 1], id);
      StepKeepsParked(After(s, es[..|es| - 1]), es[|es| - 1], id);
    }
  }

  /** A faultless store call of the only caller. */
  lemma {:induction false} OnlyCallerGoes(s: State, es: seq<Event>, id: string, pc: Pc) returns (more: seq<Event>)
    requires IsRun(s, es) && After(s, es).callers == [Caller(id, pc)]
    requires pc.AtEnqueue? || pc.AtAdmitted? || pc.AtRunning?
    ensures IsRun(s, more) && After(s, more).callers == [Caller(id, Resume(pc, None))]
  {
    more := Extend(s, es, StoreCall(0, NoFault));
  }

  /** One caller alone reaches runFn, whatever the record. */
  lemma {:induction false} ReachesRun(s: State, id: string) returns (es: seq<Event>)
    requires Init(s)
    ensures IsRun(s, es) && After(s, es).callers == [Caller(id, InRun)]
  {
    es := Extend(s, [], Spawn(id));
    es := OnlyCallerGoes(s, es, id, AtEnqueue);
    es := OnlyCallerGoes(s, es, id, AtAdmitted);
    es := OnlyCallerGoes(s, es, id, AtRunning);
  }

  /** So one Admit alone has runFn in progress on a parked record, which is still what it was. */
  lemma {:induction false} ParkedRunIsExecuted(s: State, id: string) returns (es: seq<Event>)
    requires Init(s) && !Walkable(s.records, id)
    ensures IsRun(s, es) && After(s, es).callers == [Caller(id, InRun)]
    ensures Get(After(s, es).records, id) == Get(s.records, id)
  {
    es := ReachesRun(s, id);
    ParkedStaysParked(s, es, id);
  }

  /** What run_gate.go promises about one run, in one state. */
  ghost predicate LifecycleShows(s: State, id: string) {
    forall i :: 0 <= i < |s.callers| && s.callers[i].runId == id ==>
      && (s.callers[i].pc.InRun? ==> RunningOrLater(s.records, id))
      && (s.callers[i].pc.Returned? ==> id in s.records && IsTerminal(s.records[id].state))
  }

  /** The promise, running inside runFn and terminal after it, is kept on every interleaving exactly
      when the run was not held, resumed or unknown at the start. */
  lemma {:induction false} LifecycleExactly(s: State, id: string)
    requires Init(s)
    ensures (forall es :: IsRun(s, es) ==> LifecycleShows(After(s, es), id)) <==> Walkable(s.records, id)
  {
    if Walkable(s.records, id) {
      forall es | IsRun(s, es) ensures LifecycleShows(After(s, es), id) {
        Invariant(s, es, id);
      }
    } else {
      var es := ParkedRunIsExecuted(s, id);
      assert After(s, es).callers[0] == Caller(id, InRun);
    }
  }

  // Which callers a record and an attempt come from.

  ghost predicate HasCaller(s: State, id: string) {
    exists i :: 0 <= i < |s.callers| && s.callers[i].runId == id
  }

  ghost predicate HasReturned(s: State, id: string, ok: bool) {
    exists i :: 0 <= i < |s.callers| && s.callers[i] == Caller(id, Returned(ok))
  }

  lemma StepKeepsHasCaller(s: State, e: Event, id: string)
    requires Enabled(s, e) && HasCaller(s, id)
    ensures HasCaller(Step(s, e), id)
  {
    var i :| 0 <= i < |s.callers| && s.callers[i].runId == id;
    assert Step(s, e).callers[i].runId == id;
  }

  /** Only callers of a run change its record. */
  lemma {:induction false} ChangeHasCaller(s: State, es: seq<Event>, id: string)
    requires IsRun(s, es) && Get(After(s, es).records, id) != Get(s.records, id)
    ensures HasCaller(After(s, es), id)
  {
    if es != [] {
      var n := |es| - 1;
      var before := After(s, es[..n]);
      if Get(before.records, id) != Get(s.records, id) {
        ChangeHasCaller(s, es[..n], id);
        StepKeepsHasCaller(before, es[n], id);
      } else {
        assert After(s, es).callers[es[n].i].runId == id;
      }
    }
  }

  lemma StepKeepsHasReturned(s: State, e: Event, id: string, ok: bool)
    requires Enabled(s, e) && HasReturned(s, id, ok)
    ensures HasReturned(Step(s, e), id, ok)
  {
    var i :| 0 <= i < |s.callers| && s.callers[i] == Caller(id, Returned(ok));
    assert Step(s, e).callers[i] == s.callers[i];
  }

  /** The first attempt is that of a caller which has returned with the same outcome. */
  lemma {:induction false} FirstAttemptHasReturned(s: State, es: seq<Event>, id: string)
    requires Init(s) && IsRun(s, es) && FirstAttempt(After(s, es).attempts, id).Some?
    ensures HasReturned(After(s, es), id, FirstAttempt(After(s, es).attempts, id).value)
  {
    var n := |es| - 1;
    var before, after := After(s, es[..n]), After(s, es);
    if after.attempts == before.attempts || FirstAttempt(before.attempts, id).Some? {
      assert after.attempts == before.attempts || after.attempts[..|before.attempts|] == before.attempts;
      FirstAttemptHasReturned(s, es[..n], id);
      StepKeepsHasReturned(before, es[n], id, FirstAttempt(before.attempts, id).value);
    } else {
      assert after.attempts[..|before.attempts|] == before.attempts;
      assert after.callers[es[n].i] == Caller(id, Returned(after.attempts[|before.attempts|].ok));
    }
  }

  /** A caller whose runFn returned nil, and who is the only caller of its run to have returned,
      leaves the record finished, unless it was canceled at the start. */
  lemma {:induction false} SoleReturnDecides(s: State, es: seq<Event>, id: string, i: nat)
    requires Init(s) && Walkable(s.records, id) && IsRun(s, es)
    requires i < |After(s, es).callers| && After(s, es).callers[i] == Caller(id, Returned(true))
    requires !HasReturned(After(s, es), id, false)
    requires id in s.records ==> s.records[id].state != Canceled
    ensures id in After(s, es).records && After(s, es).records[id].state == Finished
  {
    ConcurrentAdmits(s, es, id, i);
    if Stage(s.records, id) < 4 {
      FirstAttemptHasReturned(s, es, id);
    }
  }
}
