/** The contents of a run store and the meaning of each store operation on them. */
module RunRecords {
  import opened Common
  import opened RunStates

  datatype RunRecord = RunRecord(runId: string, state: RunState, payload: string)

  type Records = map<string, RunRecord>

  datatype PersistStep = CreateTemp | WriteTemp | CloseTemp | RenameTemp

  datatype StoreError =
    | AlreadyExists
    | NotFound
    | StateMismatch(expected: RunState, got: RunState)
    | InvalidTransition(from: RunState, to: RunState)
    | PersistFailed(step: PersistStep)

  /** Contents after an operation, and the error it returned. */
  datatype Outcome = Outcome(records: Records, error: Option<StoreError>)

  function Enqueue(m: Records, rec: RunRecord): Outcome {
    if rec.runId in m then Outcome(m, Some(AlreadyExists))
    else Outcome(m[rec.runId := rec], None)
  }

  function Get(m: Records, id: string): Option<RunRecord> {
    if id in m then Some(m[id]) else None
  }

  function UpdateState(m: Records, id: string, from: RunState, to: RunState): Outcome {
    if id !in m then Outcome(m, Some(NotFound))
    else if m[id].state != from then Outcome(m, Some(StateMismatch(from, m[id].state)))
    else if !ValidateTransition(from, to) then Outcome(m, Some(InvalidTransition(from, to)))
    else Outcome(m[id := m[id].(state := to)], None)
  }

  function ListByState(m: Records, state: RunState): set<RunRecord> {
    set id | id in m && m[id].state == state :: m[id]
  }

  function Delete(m: Records, id: string): Outcome {
    if id !in m then Outcome(m, Some(NotFound))
    else Outcome(m - {id}, None)
  }

  // Histories of operations, in the order the store's mutex serialises them.

  datatype Op =
    | EnqueueOp(rec: RunRecord)
    | GetOp(id: string)
    | UpdateOp(id: string, from: RunState, to: RunState)
    | ListOp(state: RunState)
    | DeleteOp(id: string)

  datatype Reply =
    | Answer(error: Option<StoreError>)
    | Record(found: Option<RunRecord>)
    | Listing(listed: set<RunRecord>)

  function Apply(m: Records, op: Op): Records {
    match op
    case EnqueueOp(rec) => Enqueue(m, rec).records
    case UpdateOp(id, from, to) => UpdateState(m, id, from, to).records
    case DeleteOp(id) => Delete(m, id).records
    case _ => m
  }

  function ReplyTo(m: Records, op: Op): Reply {
    match op
    case EnqueueOp(rec) => Answer(Enqueue(m, rec).error)
    case GetOp(id) => Record(Get(m, id))
    case UpdateOp(id, from, to) => Answer(UpdateState(m, id, from, to).error)
    case ListOp(state) => Listing(ListByState(m, state))
    case DeleteOp(id) => Answer(Delete(m, id).error)
  }

  // What a caller can conclude from one reply.

  /** Enqueue is accepted exactly for an id that Get does not find; then Get finds that record. */
  lemma EnqueueThenGet(m: Records, rec: RunRecord, other: string)
    ensures var m', reply := Apply(m, EnqueueOp(rec)), ReplyTo(m, EnqueueOp(rec));
      && reply == Answer(if Get(m, rec.runId) == None then None else Some(AlreadyExists))
      && (reply == Answer(None) ==> ReplyTo(m', GetOp(rec.runId)) == Record(Some(rec)))
      && (reply != Answer(None) ==> m' == m)
      && (other != rec.runId ==> Get(m', other) == Get(m, other))
  {}

  /** Delete is accepted exactly for an id that Get finds. After it Get finds nothing, an update finds
      nothing, and the id can be enqueued afresh. */
  lemma DeleteThenGet(m: Records, rec: RunRecord, from: RunState, to: RunState, other: string)
    ensures var id := rec.runId;
      var m', reply := Apply(m, DeleteOp(id)), ReplyTo(m, DeleteOp(id));
      && reply == Answer(if Get(m, id) == None then Some(NotFound) else None)
      && ReplyTo(m', GetOp(id)) == Record(None)
      && ReplyTo(m', UpdateOp(id, from, to)) == Answer(Some(NotFound)) && Apply(m', UpdateOp(id, from, to)) == m'
      && ReplyTo(m', EnqueueOp(rec)) == Answer(None) && Get(Apply(m', EnqueueOp(rec)), id) == Some(rec)
      && (other != id ==> Get(m', other) == Get(m, other))
  {}

  /** What each error of an update tells: a missing id is one that Get does not find; a mismatch names
      the state asked for and the present one, and repeating the call from the present one succeeds
      exactly if that move is permitted; an invalid transition names a move no store would accept. */
  lemma UpdateThenGet(m: Records, id: string, from: RunState, to: RunState)
    ensures var m', reply, found := Apply(m, UpdateOp(id, from, to)), ReplyTo(m, UpdateOp(id, from, to)), Get(m, id);
      && reply.Answer? && reply.error != Some(AlreadyExists)
      && (reply.error.Some? ==> m' == m)
      && (reply.error == Some(NotFound) <==> found == None)
      && (reply.error.None? ==> found.Some? && found.value.state == from && Get(m', id) == Some(found.value.(state := to)))
      && (reply.error.Some? && reply.error.value.StateMismatch? ==>
            && reply.error.value.expected == from && reply.error.value.got == found.value.state != from
            && var again := ReplyTo(m, UpdateOp(id, reply.error.value.got, to));
               again == Answer(None) <==> ValidateTransition(reply.error.value.got, to))
      && (reply.error.Some? && reply.error.value.InvalidTransition? ==>
            && reply.error == Some(InvalidTransition(from, to)) && found.value.state == from
            && forall any: Records :: ReplyTo(any, UpdateOp(id, from, to)) != Answer(None))
  {}

  /** A run can be canceled from its present state exactly while it is live. */
  lemma LiveRunsCanBeCanceled(m: Records, id: string)
    requires id in m
    ensures var now := m[id].state;
      var m', reply := Apply(m, UpdateOp(id, now, Canceled)), ReplyTo(m, UpdateOp(id, now, Canceled));
      if IsLive(now) then reply == Answer(None) && Get(m', id) == Some(m[id].(state := Canceled))
      else reply == Answer(Some(InvalidTransition(now, Canceled))) && m' == m
  {
    TransitionsExactly(m[id].state, Canceled);
  }

  /** What a listing holds is what Get returns, for the ids in that state and no others. */
  lemma ListedIsStored(m: Records, state: RunState, r: RunRecord)
    ensures r in ListByState(m, state) <==> r.state == state && exists id :: Get(m, id) == Some(r)
  {
    if r in ListByState(m, state) {
      var id :| id in m && m[id].state == state && m[id] == r;
      assert Get(m, id) == Some(r);
    }
  }

  function After(m: Records, ops: seq<Op>): Records {
    if ops == [] then m else Apply(After(m, ops[..|ops| - 1]), ops[|ops| - 1])
  }

  /** The k-th operation is an UpdateState of id that changes the record. */
  predicate Wins(m: Records, ops: seq<Op>, k: nat, id: string)
    requires k < |ops|
  {
    ops[k].UpdateOp? && ops[k].id == id &&
    UpdateState(After(m, ops[..k]), id, ops[k].from, ops[k].to).error.None?
  }

  function WinCount(m: Records, ops: seq<Op>, id: string): nat {
    if ops == [] then 0
    else WinCount(m, ops[..|ops| - 1], id) + if Wins(m, ops, |ops| - 1, id) then 1 else 0
  }

  lemma AfterGrows(m: Records, ops: seq<Op>, op: Op)
    ensures After(m, ops + [op]) == Apply(After(m, ops), op)
  {
    assert (ops + [op])[..|ops|] == ops;
  }

  lemma {:induction false} AfterSplit(m: Records, ops: seq<Op>, k: nat)
    requires k <= |ops|
    ensures After(m, ops) == After(After(m, ops[..k]), ops[k..])
    decreases |ops|
  {
    if k == |ops| {
      assert ops[..k] == ops && ops[k..] == [];
    } else {
      var before, last := ops[..|ops| - 1], ops[|ops| - 1];
      AfterSplit(m, before, k);
      assert before[..k] == ops[..k] && ops[k..] == before[k..] + [last] && ops == before + [last];
      AfterGrows(m, before, last);
      AfterGrows(After(m, ops[..k]), before[k..], last);
    }
  }

  /** While a record is not deleted it stays, and its rank climbs by at least one per winning
      update; nothing but a winning update touches it. */
  lemma {:induction false} RankClimbs(m: Records, ops: seq<Op>, id: string)
    requires id in m && DeleteOp(id) !in ops
    ensures id in After(m, ops)
    ensures Rank(m[id].state) + WinCount(m, ops, id) <= Rank(After(m, ops)[id].state)
    ensures WinCount(m, ops, id) == 0 ==> After(m, ops)[id] == m[id]
    ensures After(m, ops)[id].payload == m[id].payload && After(m, ops)[id].runId == m[id].runId
  {
    if ops != [] {
      var n := |ops| - 1;
      RankClimbs(m, ops[..n], id);
      assert ops[n] in ops;
    }
  }

  lemma {:induction false} WinCounted(m: Records, ops: seq<Op>, k: nat, id: string)
    requires k < |ops| && Wins(m, ops, k, id)
    ensures WinCount(m, ops, id) >= 1
  {
    var n := |ops| - 1;
    if k < n {
      assert ops[..n][..k] == ops[..k];
      WinCounted(m, ops[..n], k, id);
    }
  }

  /** UpdateState is a compare-and-swap without ABA: of all the calls with one expected state,
      by any number of callers in any order, at most one changes the record while it lives. */
  lemma AtMostOneWinnerPerState(m: Records, ops: seq<Op>, id: string, i: nat, j: nat)
    requires id in m && DeleteOp(id) !in ops
    requires i < j < |ops| && Wins(m, ops, i, id) && Wins(m, ops, j, id)
    ensures ops[i].from != ops[j].from
    ensures Rank(ops[i].to) <= Rank(ops[j].from)
  {
    var upto := ops[..i + 1];
    var mid := After(m, upto);
    assert upto[..i] == ops[..i] && upto[i] == ops[i];
    RankClimbs(m, ops[..i], id);
    assert mid[id].state == ops[i].to;
    TransitionRaisesRank(ops[i].from, ops[i].to);
    var head := ops[..j];
    AfterSplit(m, head, i + 1);
    assert head[..i + 1] == upto;
    RankClimbs(mid, head[i + 1..], id);
  }

  /** A record changes state at most five times in its life, and a terminal record never. */
  lemma BoundedLife(m: Records, ops: seq<Op>, id: string)
    requires id in m && DeleteOp(id) !in ops
    ensures WinCount(m, ops, id) <= MAX_RANK
    ensures IsTerminal(m[id].state) ==> Get(After(m, ops), id) == Some(m[id])
  {
    RankClimbs(m, ops, id);
  }
}
