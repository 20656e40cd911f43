/** The two run stores as objects: InMemoryRunStore, and JsonRunStore over a file. */
module RunStores {
  import opened Common
  import opened RunStates
  import opened RunRecords

  /** What a path can hold: nothing, an empty file, a torn write, or one marshalled map. */
  datatype File = Absent | Empty | Torn | Whole(records: Records)

  /** The file step that fails during one persist, if any. */
  datatype Fault = NoFault | FaultAt(step: PersistStep)

  /** Reading the store file: None when its contents cannot be unmarshalled. */
  function Load(file: File): Option<Records> {
    match file
    case Absent => Some(map[])
    case Empty => Some(map[])
    case Torn => None
    case Whole(m) => Some(m)
  }

  /** Memory and file of a JSON store. */
  datatype Durable = Durable(memory: Records, file: File)

  predicate Mutates(m: Records, op: Op) {
    !op.GetOp? && !op.ListOp? && ReplyTo(m, op).error.None?
  }

  /** One store call: memory changes first and stays changed; the file follows only when every
      persist step succeeds. */
  function JsonApply(d: Durable, op: Op, fault: Fault): Durable {
    var m := Apply(d.memory, op);
    Durable(m, if Mutates(d.memory, op) && fault.NoFault? then Whole(m) else d.file)
  }

  function JsonReply(d: Durable, op: Op, fault: Fault): Reply {
    if Mutates(d.memory, op) && fault.FaultAt? then Answer(Some(PersistFailed(fault.step)))
    else ReplyTo(d.memory, op)
  }

  /** A refused call leaves memory and file alone. */
  lemma RefusedCallChangesNothing(d: Durable, op: Op, fault: Fault)
    requires ReplyTo(d.memory, op).Answer? && ReplyTo(d.memory, op).error.Some?
    ensures JsonApply(d, op, fault) == d && JsonReply(d, op, fault) == ReplyTo(d.memory, op)
  {}

  /** An accepted update changes the state in memory, and the file when the persist succeeds. */
  lemma AcceptedUpdate(d: Durable, id: string, from: RunState, to: RunState, fault: Fault)
    requires id in d.memory && d.memory[id].state == from && ValidateTransition(from, to)
    ensures var m := d.memory[id := d.memory[id].(state := to)];
      && JsonApply(d, UpdateOp(id, from, to), fault) == Durable(m, if fault.NoFault? then Whole(m) else d.file)
      && JsonReply(d, UpdateOp(id, from, to), fault) ==
         Answer(if fault.NoFault? then None else Some(PersistFailed(fault.step)))
  {}

  function MatchingIds(m: Records, state: RunState): set<string> {
    set id | id in m && m[id].state == state
  }

  /** rs holds the records in the given state, one entry for each of their ids, in some order. */
  ghost predicate Lists(rs: seq<RunRecord>, m: Records, state: RunState) {
    && (forall r :: r in rs <==> r.state == state && exists id :: RunRecords.Get(m, id) == Some(r))
    && |rs| == |MatchingIds(m, state)|
  }

  /** The matching ids the loop has visited. */
  ghost function Outside(m: Records, state: RunState, rest: set<string>): set<string> {
    MatchingIds(m, state) - rest
  }

  ghost function RecordsOf(m: Records, ids: set<string>): set<RunRecord> {
    set id | id in m && id in ids :: m[id]
  }

  /** out holds the records of ids, one entry each. */
  ghost predicate Holds(out: seq<RunRecord>, m: Records, ids: set<string>) {
    Elements(out) == RecordsOf(m, ids) && |out| == |ids|
  }

  lemma HoldsOneMore(out: seq<RunRecord>, m: Records, ids: set<string>, id: string)
    requires Holds(out, m, ids) && id in m && id !in ids
    ensures Holds(out + [m[id]], m, ids + {id})
  {
    assert Elements(out + [m[id]]) == Elements(out) + {m[id]};
    assert RecordsOf(m, ids + {id}) == RecordsOf(m, ids) + {m[id]};
  }

  lemma OneFewer(m: Records, state: RunState, rest: set<string>, id: string)
    requires id in rest && rest <= m.Keys
    ensures id !in Outside(m, state, rest)
    ensures Outside(m, state, rest - {id}) == Outside(m, state, rest) + if m[id].state == state then {id} else {}
  {}

  lemma HoldsAllLists(out: seq<RunRecord>, m: Records, state: RunState)
    requires Holds(out, m, Outside(m, state, {}))
    ensures Lists(out, m, state)
  {
    assert Outside(m, state, {}) == MatchingIds(m, state);
    forall r ensures r in out <==> r.state == state && exists id :: RunRecords.Get(m, id) == Some(r) {
      assert r in out <==> r in Elements(out);
      assert RecordsOf(m, MatchingIds(m, state)) == ListByState(m, state);
      ListedIsStored(m, state, r);
    }
  }

  /** Iterating over a map visits the keys in no fixed order; both stores filter as they go. */
  method CollectByState(m: Records, state: RunState) returns (out: seq<RunRecord>)
    ensures Lists(out, m, state)
  {
    out := [];
    var rest := m.Keys;
    assert Outside(m, state, rest) == {};
    while rest != {}
      invariant rest <= m.Keys
      invariant Holds(out, m, Outside(m, state, rest))
      decreases rest
    {
      var id :| id in rest;
      OneFewer(m, state, rest, id);
      if m[id].state == state {
        HoldsOneMore(out, m, Outside(m, state, rest), id);
        out := out + [m[id]];
      }
      rest := rest - {id};
    }
    HoldsAllLists(out, m, state);
  }

  class InMemoryRunStore {
    var records: Records

    constructor ()
      ensures records == map[]
    {
      records := map[];
    }

    method Enqueue(rec: RunRecord) returns (err: Option<StoreError>)
      modifies this
      ensures records == Apply(old(records), EnqueueOp(rec))
      ensures Answer(err) == ReplyTo(old(records), EnqueueOp(rec))
    {
      if rec.runId in records {
        return Some(AlreadyExists);
      }
      records := records[rec.runId := rec];
      err := None;
    }

    method Get(id: string) returns (found: Option<RunRecord>)
      ensures Record(found) == ReplyTo(records, GetOp(id))
    {
      found := if id in records then Some(records[id]) else None;
    }

    method UpdateState(id: string, from: RunState, to: RunState) returns (err: Option<StoreError>)
      modifies this
      ensures records == Apply(old(records), UpdateOp(id, from, to))
      ensures Answer(err) == ReplyTo(old(records), UpdateOp(id, from, to))
    {
      if id !in records {
        return Some(NotFound);
      }
      var r := records[id];
      if r.state != from {
        return Some(StateMismatch(from, r.state));
      }
      if !ValidateTransition(from, to) {
        return Some(InvalidTransition(from, to));
      }
      records := records[id := r.(state := to)];
      err := None;
    }

    method ListByState(state: RunState) returns (out: seq<RunRecord>)
      ensures Lists(out, records, state)
    {
      out := CollectByState(records, state);
    }

    method Delete(id: string) returns (err: Option<StoreError>)
      modifies this
      ensures records == Apply(old(records), DeleteOp(id))
      ensures Answer(err) == ReplyTo(old(records), DeleteOp(id))
    {
      if id !in records {
        return Some(NotFound);
      }
      records := records - {id};
      err := None;
    }
  }

  /** The file system object a JSON store writes; it outlives the store. */
  class Disk {
    var file: File

    constructor (initial: File)
      ensures file == initial
    {
      file := initial;
    }
  }

  class JsonRunStore {
    const disk: Disk
    var records: Records

    ghost function Contents(): Durable
      reads this, disk
    {
      Durable(records, disk.file)
    }

    constructor (disk: Disk, loaded: Records)
      ensures this.disk == disk && records == loaded
    {
      this.disk := disk;
      this.records := loaded;
    }

    /** NewJsonRunStore: an unreadable file yields an error and no store. */
    static method Open(disk: Disk) returns (store: JsonRunStore?)
      ensures store == null <==> disk.file.Torn?
      ensures store != null ==> fresh(store) && store.disk == disk
      ensures Load(disk.file) == if store == null then None else Some(store.records)
      ensures disk.file.Absent? || disk.file.Empty? ==> store.records == map[]
      ensures disk.file.Whole? ==> store.records == disk.file.records
    {
      match disk.file
      case Torn => store := null;
      case Whole(m) =>
        assert Load(disk.file) == Some(m);
        store := new JsonRunStore(disk, m);
      case _ => store := new JsonRunStore(disk, map[]);
    }

    method Persist(fault: Fault) returns (err: Option<StoreError>)
      modifies disk
      ensures disk.file == if fault.NoFault? then Whole(records) else old(disk.file)
      ensures err == if fault.NoFault? then None else Some(PersistFailed(fault.step))
    {
      var data := Whole(records);
      if fault.FaultAt? && fault.step.CreateTemp? {
        return Some(PersistFailed(CreateTemp));
      }
      var temp := Empty;
      if fault.FaultAt? && fault.step.WriteTemp? {
        temp := Torn;
        return Some(PersistFailed(WriteTemp));
      }
      temp := data;
      if fault.FaultAt? && fault.step.CloseTemp? {
        return Some(PersistFailed(CloseTemp));
      }
      if fault.FaultAt? && fault.step.RenameTemp? {
        return Some(PersistFailed(RenameTemp));
      }
      disk.file := temp;
      err := None;
    }

    method Enqueue(rec: RunRecord, fault: Fault) returns (err: Option<StoreError>)
      modifies this, disk
      ensures Contents() == JsonApply(old(Contents()), EnqueueOp(rec), fault)
      ensures Answer(err) == JsonReply(old(Contents()), EnqueueOp(rec), fault)
    {
      if rec.runId in records {
        return Some(AlreadyExists);
      }
      records := records[rec.runId := rec];
      err := Persist(fault);
    }

    method Get(id: string) returns (found: Option<RunRecord>)
      ensures Record(found) == JsonReply(Contents(), GetOp(id), NoFault)
    {
      found := if id in records then Some(records[id]) else None;
    }

    method UpdateState(id: string, from: RunState, to: RunState, fault: Fault)
      returns (err: Option<StoreError>)
      modifies this, disk
      ensures Contents() == JsonApply(old(Contents()), UpdateOp(id, from, to), fault)
      ensures Answer(err) == JsonReply(old(Contents()), UpdateOp(id, from, to), fault)
    {
      if id !in records {
        return Some(NotFound);
      }
      var r := records[id];
      if r.state != from {
        err := Some(StateMismatch(from, r.state));
        RefusedCallChangesNothing(Contents(), UpdateOp(id, from, to), fault);
      } else if !ValidateTransition(from, to) {
        err := Some(InvalidTransition(from, to));
        RefusedCallChangesNothing(Contents(), UpdateOp(id, from, to), fault);
      } else {
        AcceptedUpdate(Contents(), id, from, to, fault);
        records := records[id := r.(state := to)];
        err := Persist(fault);
      }
    }

    method ListByState(state: RunState) returns (out: seq<RunRecord>)
      ensures Lists(out, records, state)
    {
      out := CollectByState(records, state);
    }

    method Delete(id: string, fault: Fault) returns (err: Option<StoreError>)
      modifies this, disk
      ensures Contents() == JsonApply(old(Contents()), DeleteOp(id), fault)
      ensures Answer(err) == JsonReply(old(Contents()), DeleteOp(id), fault)
    {
      if id !in records {
        return Some(NotFound);
      }
      records := records - {id};
      err := Persist(fault);
    }
  }

  // Sequences of calls on one JSON store, with process restarts in between.

  datatype Event = Call(op: Op, fault: Fault) | Reopen

  function Step(d: Durable, e: Event): Durable {
    match e
    case Call(op, fault) => JsonApply(d, op, fault)
    case Reopen => if Load(d.file).Some? then Durable(Load(d.file).value, d.file) else d
  }

  function JsonRun(d: Durable, es: seq<Event>): Durable {
    if es == [] then d else Step(JsonRun(d, es[..|es| - 1]), es[|es| - 1])
  }

  /** The replies to the calls of es, reopens giving none. */
  function JsonReplies(d: Durable, es: seq<Event>): seq<Reply> {
    if es == [] then [] else
      var before := es[..|es| - 1];
      match es[|es| - 1]
      case Call(op, fault) => JsonReplies(d, before) + [JsonReply(JsonRun(d, before), op, fault)]
      case Reopen => JsonReplies(d, before)
  }

  function Ops(es: seq<Event>): seq<Op> {
    if es == [] then [] else
      var before := Ops(es[..|es| - 1]);
      match es[|es| - 1]
      case Call(op, _) => before + [op]
      case Reopen => before
  }

  function MemoryReplies(m: Records, ops: seq<Op>): seq<Reply> {
    if ops == [] then []
    else MemoryReplies(m, ops[..|ops| - 1]) + [ReplyTo(After(m, ops[..|ops| - 1]), ops[|ops| - 1])]
  }

  ghost predicate Faultless(es: seq<Event>) {
    forall i :: 0 <= i < |es| && es[i].Call? ==> es[i].fault.NoFault?
  }

  /** While persists succeed the JSON store answers every call as the in-memory store does,
      wherever the process is restarted, and the file always holds the whole memory. */
  lemma {:induction false} JsonSimulatesMemory(d: Durable, es: seq<Event>)
    requires Load(d.file) == Some(d.memory) && Faultless(es)
    ensures JsonReplies(d, es) == MemoryReplies(d.memory, Ops(es))
    ensures JsonRun(d, es).memory == After(d.memory, Ops(es))
    ensures Load(JsonRun(d, es).file) == Some(JsonRun(d, es).memory)
  {
    if es != [] {
      var n := |es| - 1;
      var before := es[..n];
      JsonSimulatesMemory(d, before);
      if es[n].Call? {
        var ops := Ops(before);
        assert Ops(es) == ops + [es[n].op];
        assert (ops + [es[n].op])[..|ops|] == ops;
        assert es[n].fault.NoFault?;
        assert !Mutates(After(d.memory, ops), es[n].op) ==>
            Apply(After(d.memory, ops), es[n].op) == After(d.memory, ops);
      }
    }
  }

  lemma JsonRunGrows(d: Durable, es: seq<Event>, e: Event)
    ensures JsonRun(d, es + [e]) == Step(JsonRun(d, es), e)
    ensures JsonReplies(d, es + [e]) == JsonReplies(d, es) +
              (if e.Call? then [JsonReply(JsonRun(d, es), e.op, e.fault)] else [])
  {
    assert (es + [e])[..|es|] == es;
  }

  lemma {:induction false} JsonRunSplit(d: Durable, es: seq<Event>, k: nat)
    requires k <= |es|
    ensures JsonRun(d, es) == JsonRun(JsonRun(d, es[..k]), es[k..])
    decreases |es|
  {
    if k == |es| {
      assert es[..k] == es && es[k..] == [];
    } else {
      var before := es[..|es| - 1];
      JsonRunSplit(d, before, k);
      assert before[..k] == es[..k];
      assert es[k..] == before[k..] + [es[|es| - 1]];
      JsonRunGrows(JsonRun(d, es[..k]), before[k..], es[|es| - 1]);
    }
  }

  /** The replies of rest on top of those of head. */
  ghost predicate RepliesSplit(d: Durable, head: seq<Event>, rest: seq<Event>, all: seq<Event>) {
    JsonReplies(d, all) == JsonReplies(d, head) + JsonReplies(JsonRun(d, head), rest)
  }

  lemma RepliesSplitGrows(d: Durable, head: seq<Event>, rest: seq<Event>, all: seq<Event>, e: Event)
    requires RepliesSplit(d, head, rest, all) && JsonRun(d, all) == JsonRun(JsonRun(d, head), rest)
    ensures RepliesSplit(d, head, rest + [e], all + [e])
  {
    JsonRunGrows(d, all, e);
    JsonRunGrows(JsonRun(d, head), rest, e);
  }

  lemma {:induction false} JsonRepliesSplit(d: Durable, es: seq<Event>, k: nat)
    requires k <= |es|
    ensures RepliesSplit(d, es[..k], es[k..], es)
    decreases |es|
  {
    if k == |es| {
      assert es[..k] == es && es[k..] == [];
    } else {
      var before := es[..|es| - 1];
      JsonRepliesSplit(d, before, k);
      JsonRunSplit(d, before, k);
      assert before[..k] == es[..k];
      assert es[k..] == before[k..] + [es[|es| - 1]];
      assert es == before + [es[|es| - 1]];
      RepliesSplitGrows(d, es[..k], before[k..], before, es[|es| - 1]);
    }
  }

  /** Inserting a restart anywhere in a faultless history changes no reply. */
  lemma {:induction false} ReopenIsInvisible(d: Durable, es: seq<Event>, k: nat)
    requires Load(d.file) == Some(d.memory) && Faultless(es) && k <= |es|
    ensures JsonReplies(d, es[..k] + [Reopen] + es[k..]) == JsonReplies(d, es)
    ensures JsonRun(d, es[..k] + [Reopen] + es[k..]) == JsonRun(d, es)
  {
    var head, tail := es[..k], es[k..];
    var mid := JsonRun(d, head);
    JsonSimulatesMemory(d, head);
    assert (head + [Reopen])[..k] == head;
    assert JsonRun(d, head + [Reopen]) == mid;
    var all := head + [Reopen] + tail;
    assert all[..k + 1] == head + [Reopen] && all[k + 1..] == tail;
    JsonRunSplit(d, all, k + 1);
    JsonRunSplit(d, es, k);
    JsonRepliesSplit(d, all, k + 1);
    JsonRepliesSplit(d, es, k);
  }

  /** With faults but no restart, memory is still the in-memory store's: the CAS argument does
      not need the disk. One later successful mutation makes every earlier change durable. */
  lemma {:induction false} FaultsOnlyDelayDurability(d: Durable, es: seq<Event>)
    requires Reopen !in es
    ensures JsonRun(d, es).memory == After(d.memory, Ops(es))
    ensures es != [] && es[|es| - 1].fault.NoFault? &&
            Mutates(JsonRun(d, es[..|es| - 1]).memory, es[|es| - 1].op)
            ==> JsonRun(d, es).file == Whole(After(d.memory, Ops(es)))
  {
    if es != [] {
      var n := |es| - 1;
      assert es[n] in es;
      FaultsOnlyDelayDurability(d, es[..n]);
      var ops := Ops(es[..n]);
      assert (ops + [es[n].op])[..|ops|] == ops;
    }
  }

  /** Faults do show across a restart: an Enqueue whose persist failed exists until the restart
      and not after it. */
  lemma FaultThenReopenForgets(rec: RunRecord, step: PersistStep)
    ensures var d := Durable(map[], Absent);
            var es := [Call(EnqueueOp(rec), FaultAt(step))];
            && Get(JsonRun(d, es).memory, rec.runId) == Some(rec)
            && Get(JsonRun(d, es + [Reopen]).memory, rec.runId) == None
  {
    var d := Durable(map[], Absent);
    var es := [Call(EnqueueOp(rec), FaultAt(step))];
    assert es[..0] == [];
    assert JsonRun(d, es) == Step(JsonRun(d, es[..0]), es[0]);
    assert (es + [Reopen])[..1] == es;
  }
}
