# Run control of pipeline-lite-poc, modelled and proved

This project models the concurrent run-control code of pipeline-lite-poc in Dafny and proves what it
guarantees on every interleaving, crash point and failure, and exactly where it stops doing so.

| file | what it models |
|---|---|
| `RunStates.dfy`, `RunRecords.dfy` | the run state machine and the meaning of each store operation |
| `RunStores.dfy` | `InMemoryRunStore` and `JsonRunStore` as objects; restarts between calls |
| `CrashDisk.dfy` | the JSON store's file under crashes between any two file operations |
| `RunGate.dfy` | `RunGate.Admit` as a method over the JSON store |
| `GateSystem.dfy` | any number of `Admit` calls interleaved at every store call |
| `CrashGate.dfy` | interleaved `Admit` calls over the crashable disk, with restarts |
| `CrashRecovery.dfy` | a killed store is reopened and one `Admit` brings a run to its end |
| `AttemptQueue.dfy`, `QueueSystem.dfy` | `NodeAttemptQueue` as an object, and run by any number of goroutines |
| `QueueProgress.dfy` | every `Submit` comes to an end |
| `SessionGraph.dfy`, `DagSession.dfy` | `DagSession` as an object whose calls do not overlap |
| `SessionSystem.dfy`, `SessionOutcome.dfy` | overlapping session calls: safety, confluence, termination |
| `SessionRefinement.dfy` | the object's calls end as every interleaving of one call's goroutines does |
| `SessionsOverQueue.dfy` | any number of sessions over one shared queue |
| `Dispatcher.dfy`, `DispatcherSlots.dfy` | the `dispatch` loop: slots, the final wait, limits, order |
| `DispatcherLoop.dfy` | when main leaves its loop, goes round again and stops consuming |
| `DispatcherDelivery.dfy` | dispatcher, gate and stream together: delivery states, and the Admit behind each ack |
| `DispatcherAcks.dfy` | when an acked entry's record is finished |
| `DurableDispatcher.dfy` | the dispatcher over the crashable store, with kills and restarts; the stream outlives them |
| `JobNames.dfy` | Kubernetes job names |

A transition system is a state, a datatype of atomic events, `Enabled` and `Step`; a run is a sequence of
events, and results are about `After(s, es)` for every run `es`. Events carry what the code does not
decide: map iteration order, scheduling, persist and submit failures, context cancellation, reports.

Findings, each with the exact condition and a concrete run:

* A held, resumed or unknown run is executed by `Admit` all the same and keeps its state; the lifecycle
  promised at pkg/ingress/run_gate.go:45-54 holds, on every interleaving, exactly for the other states
  (`AdmitMovesUnparkedRuns` for one call, `LifecycleExactly` for any number, `ParkedRunIsExecuted`).
* The goroutines of a session left to themselves can have two submits of one node accepted from some
  point of a run on exactly when one of its `Start` and `NodeDone` calls has collected a node whose
  goroutine from an earlier call has not finished (`DoubleFreeRunsExactly`, `DangerExactly`,
  `DoubleSubmitHappens`).
* The `break` at cmd/ingress/main.go:212 leaves only the `select`. A run that takes that arm waits for
  ever; in a run that reaches `wg.Wait` without it the goroutines have only so many steps left, one of
  them can always move until the wait can be passed, and then it can (`WaitIsPassed`, `PhantomHappens`).
  With a labelled break every wait that is reached ends (`LabelledBreakRepairs`).
* `Admit` may return with no failed persist of its own while the disk still says running, when an
  earlier change of that run in the same process failed to persist; exactly then
  (`RestartableAdmission`, `LaggingHappens`). A run that is not lagging when it is admitted and has no
  failed persist until the call returns is terminal on disk (`CleanAdmitIsDurable`).
* An acked entry's record is finished on every run exactly when, before dispatching, there is no slot,
  or the record is finished, or it is absent, queued, admitted or running and no other entry with that
  run id can be dispatched (`AckedMeansFinishedExactly`); in every other case it can be acked canceled
  or parked (`UnsafeIsAckedUnfinished`).
* Over the JSON store an acked run's record on disk is terminal exactly when the run is not lagging; if
  the process ends while it is lagging and no other entry carries the run id, the entry stays acked and
  the record short of terminal in every future (`AckedOnDiskExactly`, `AckSurvivesExactly`,
  `AckedOutcomeIsLost`). An entry pending when a process ends stays pending in every future
  (`PendingAtEndIsForever`): cmd/ingress/main.go:24 leaves its recovery to XCLAIM, which `dispatch` does
  not call.
* Job names are at most 63 bytes for nodes of at most 59 bytes, and whole names of different runs and
  nodes collide exactly when the same text is cut at different hyphens (`NameShape`,
  `WholeNamesCollideExactly`).

## Model

| member | source | states |
|---|---|---|
| RunStates.TableIsAcyclic | pkg/store/run_store.go:37-45 | no sequence of permitted transitions revisits a state or has more than five moves; only terminal (or unlisted) states have no way out |
| RunStates.TransitionsExactly | pkg/store/run_store.go:37-45 | the permitted moves are one step along the lifecycle, queued straight to admitted, and every live state to canceled; no others |
| RunRecords.EnqueueThenGet | pkg/store/memory_run_store.go:24-42 | accepted exactly for an id Get does not find, and then Get finds that record; other ids untouched |
| RunRecords.UpdateThenGet | pkg/store/memory_run_store.go:44-61 | the new state Get finds, and what each error tells: the id is missing, the present state and whether repeating from it succeeds, or that no store would accept the move |
| RunRecords.DeleteThenGet | pkg/store/memory_run_store.go:75-83 | after it Get and UpdateState find nothing and the id can be enqueued afresh |
| RunRecords.LiveRunsCanBeCanceled | pkg/store/run_store.go:37-60 | a run can be canceled from its present state exactly while that is neither terminal nor unknown |
| RunRecords.ListedIsStored | pkg/store/memory_run_store.go:63-73 | a listing holds exactly the records Get returns in that state |
| RunRecords.RankClimbs | pkg/store/memory_run_store.go:44-61 | over any history without a delete, a record stays, keeps its payload, and its rank rises by at least one per update that takes effect |
| RunRecords.AtMostOneWinnerPerState | pkg/store/memory_run_store.go:44-61 | of all UpdateState calls with the same from, at most one changes a live record: compare-and-swap without ABA |
| RunRecords.BoundedLife | pkg/store/run_store.go:37-90 | a record changes state at most five times and a terminal record never |
| RunStores.CollectByState | pkg/store/memory_run_store.go:63-73 | the listing loop returns one entry per id in the given state, each the record Get returns for it, in some order |
| RunStores.InMemoryRunStore.Enqueue | pkg/store/memory_run_store.go:24-35 | stores a new record, refuses a known id with AlreadyExists |
| RunStores.InMemoryRunStore.UpdateState | pkg/store/memory_run_store.go:44-61 | moves the record only from the expected state along a permitted edge, with the source's error in each other case |
| RunStores.InMemoryRunStore.Delete | pkg/store/memory_run_store.go:75-83 | removes the record or reports NotFound |
| RunStores.JsonRunStore.Open | pkg/store/json_run_store.go:30-50 | absent or empty file opens empty, a whole snapshot opens as saved, an unreadable one yields no store |
| RunStores.JsonRunStore.Persist | pkg/store/json_run_store.go:60-90 | the file becomes the whole memory if every step succeeds and is untouched otherwise |
| RunStores.JsonRunStore.Enqueue | pkg/store/json_run_store.go:98-109 | memory changes before the persist and stays changed when it fails |
| RunStores.JsonRunStore.UpdateState | pkg/store/json_run_store.go:118-135 | same compare-and-swap as in memory, then persist; a failed persist is reported and not rolled back |
| RunStores.JsonRunStore.Delete | pkg/store/json_run_store.go:149-157 | same for deletion |
| RunStores.JsonSimulatesMemory | pkg/store/json_run_store.go:28-157 | while persists succeed, every reply equals the in-memory store's, with restarts anywhere, and file equals memory |
| RunStores.ReopenIsInvisible | pkg/store/json_run_store.go:30-50 | inserting a restart anywhere changes no reply and no final state |
| RunStores.FaultsOnlyDelayDurability | pkg/store/json_run_store.go:118-135 | failed persists never disturb memory, and the next successful mutation makes all earlier changes durable |
| RunStores.FaultThenReopenForgets | pkg/store/json_run_store.go:98-109 | a record whose persist failed exists until the restart and not after |
| CrashDisk.FileIsAlwaysComplete | pkg/store/json_run_store.go:52-90 | with crashes, torn writes and failures anywhere, the file is the initial one or exactly the snapshot of the last completed rename, so a restart can load it |
| CrashDisk.OnlyRenameChangesTheFile | pkg/store/json_run_store.go:84-89 | a nil persist leaves the file equal to the whole memory; every other step leaves the file as it was |
| CrashDisk.PersistCompletes | pkg/store/json_run_store.go:60-90 | a persist whose four file operations succeed ends with the file equal to the new memory |
| CrashDisk.NoTempLeftBehind | pkg/store/json_run_store.go:66-90 | between persists a running process has no temporary file, and the one renamed is a whole snapshot |
| CrashDisk.DiffersOnlyAfterFailure | pkg/store/json_run_store.go:60-90 | between persists memory and file differ only after a failure that no later rename or restart has made good |
| RunGate.RunGate.Admit | pkg/ingress/run_gate.go:55-108 | runFn is called exactly if the run was in the store or its enqueue was saved, otherwise the error is the enqueue's and only the queued record is left in memory; the store afterwards, the record runFn would see, and the error, with and without a store |
| RunGate.AdmitMovesUnparkedRuns | pkg/ingress/run_gate.go:62-107 | the record is running or later when runFn starts, and terminal after, exactly when it was not held, resumed or unknown before; the terminal value is the outcome unless one was already there; other records are untouched |
| RunGate.RecordedBeforeRunAndStable | pkg/ingress/run_gate.go:53-72 | the run is in the store before runFn, and admitting again changes nothing |
| GateSystem.StepKeepsInv | pkg/ingress/run_gate.go:62-107 | each event of any caller keeps the gate invariant and moves the record at most one stage forward |
| GateSystem.AdmitFollowsEvents | pkg/ingress/run_gate.go:62-108 | a caller is rejected exactly if its first store call met no record and failed to persist, and then calls the store once and runFn never; otherwise four store calls, runFn once after the third, and Admit returns runFn's result |
| GateSystem.ConcurrentAdmits | pkg/ingress/run_gate.go:55-108 | on every interleaving runFn runs with the record running or later, returned callers find it terminal, and its value is the outcome of the first caller to reach the terminal update |
| GateSystem.EachStageEnteredOnce | pkg/ingress/run_gate.go:14-15 | queued, admitted, running, terminal are entered in this order, each by exactly one step of one caller |
| GateSystem.LifecycleExactly | pkg/ingress/run_gate.go:45-108 | running inside runFn and terminal after it, for every caller on every interleaving, exactly when the run was not held, resumed or unknown at the start |
| GateSystem.ParkedStaysParked | pkg/ingress/run_gate.go:75-107 | any number of interleaved Admit calls leaves a parked record as it was |
| GateSystem.ParkedRunIsExecuted | pkg/ingress/run_gate.go:75-90 | from every parked record one Admit reaches runFn with the record unchanged |
| GateSystem.SoleReturnDecides | pkg/ingress/run_gate.go:92-107 | a nil return, no other caller of the run having returned an error, leaves the record finished unless it was canceled before |
| CrashGate.StepRefinesGate | pkg/store/json_run_store.go:98-135 | each micro-step under the store's mutex is one atomic gate step or invisible |
| CrashGate.Reachable | pkg/ingress/run_gate.go:55-108 | what a process does between restarts is a run of the interleaved gate from the records it loaded |
| CrashGate.RestartableAdmission | pkg/ingress/run_gate.go:62-107 | after any crashes and restarts, when an Admit has returned the disk record is terminal iff its last change is not an unrecovered failed persist, and then equals the first terminal state ever saved and memory |
| CrashGate.SavedOutcomeIsForever | pkg/store/json_run_store.go:118-135 | a terminal state that reached the disk survives every later crash, failure and Admit |
| CrashGate.CleanAdmitIsDurable | pkg/ingress/run_gate.go:62-107 | a run not lagging at some moment and without a failed persist for it until an Admit has returned is terminal on disk, at its first saved state, with memory agreeing, whatever else fails or crashes |
| CrashGate.LaggingHappens | pkg/ingress/run_gate.go:92-107 | a run in which an Admit with no failed persist returns while the disk says running |
| CrashRecovery.RestartLoadsTheFile | pkg/store/json_run_store.go:30-50 | from every crashed state the store opens on exactly what the file holds |
| CrashRecovery.RestartAndAdmitRecovers | pkg/ingress/run_gate.go:62-107 | from every crashed state a restart and one Admit without failures end with the record terminal on disk: the outcome that was there, or else this one |
| AttemptQueue.NodeAttemptQueue.RecordPeak | pkg/session/attempt_queue.go:68-77 | the CAS loop ends with the maximum of all recorded values and fails at most cur minus the initial mark times, whatever rivals record |
| AttemptQueue.NodeAttemptQueue.Track | pkg/session/attempt_queue.go:67-77 | the new in-flight count is recorded: the mark ends as the maximum of the old mark, the count and what the rivals recorded in time, within the slots |
| AttemptQueue.NodeAttemptQueue.Submit | pkg/session/attempt_queue.go:50-85 | counters, slot, exact mark and result of one call; a canceled wait changes neither slot nor mark |
| AttemptQueue.HighestIsMaximum | pkg/session/attempt_queue.go:69-77 | the specification of the mark is a maximum |
| QueueSystem.BoundedRelease | pkg/session/attempt_queue.go:50-85 | for any number of goroutines at most the semaphore's size are in the inner submitter; total is the number of calls begun, blocked the number of calls that found no slot free |
| QueueSystem.HighWaterExact | pkg/session/attempt_queue.go:67-77 | the mark never exceeds the true peak, the peak never the slots; the mark is the peak whenever no thread is in its loop; at most cur failed CAS attempts per thread |
| QueueSystem.ResultIsInnerAnswer | pkg/session/attempt_queue.go:60-84 | a thread on its way out or returned has been in the inner submitter exactly once and carries its answer, any other has not, and it has given up exactly if its wait was canceled |
| QueueProgress.RunsAreBounded | pkg/session/attempt_queue.go:50-85 | c calls of Submit make at most c(2 cap + 11) steps in all, lost CAS rounds included |
| QueueProgress.SomeThreadCanMove | pkg/session/attempt_queue.go:50-85 | with at least one slot, while a Submit has not returned some thread can move without a canceled wait |
| QueueSystem.CanceledTakesNothing | pkg/session/attempt_queue.go:60-64 | giving up happens only while waiting and touches nothing else |
| QueueSystem.ReleaseNeverBlocks | pkg/session/attempt_queue.go:79-82 | the deferred receive always finds a token |
| QueueSystem.AllSlotsReturned | pkg/session/attempt_queue.go:79-84 | when all submits have returned no slot is taken and the mark is the true peak |
| SessionGraph.CountsAddUp | pkg/session/dag_session.go:231-247 | the four NodeCount numbers add up to the number of nodes |
| SessionGraph.BatchKeepsLog | pkg/session/dag_session.go:167-200 | submitting a ready batch keeps: an accepted submit of a node is its last one |
| SessionGraph.BatchKeepsOrder | pkg/session/dag_session.go:131-200 | submitting a ready batch keeps submissions a linear extension of the dependency order |
| DagSession.DagSession.AddNode | pkg/session/dag_session.go:90-94 | registers a held node |
| DagSession.DagSession.AllDepsSucceeded | pkg/session/dag_session.go:146-154 | true exactly when every dependency is registered and succeeded |
| DagSession.DagSession.CollectReady | pkg/session/dag_session.go:131-142 | lists the held nodes with all dependencies succeeded, each once |
| DagSession.DagSession.SubmitOne | pkg/session/dag_session.go:180-191 | one goroutine: the Submit call is recorded, and on nil a node still held becomes submitted |
| DagSession.DagSession.SubmitBatch | pkg/session/dag_session.go:167-200 | accepted held nodes become submitted, others keep their status, an error names a refused node of the batch |
| DagSession.DagSession.SubmitReady | pkg/session/dag_session.go:99-102 | the collect-then-submit step that Start and a successful NodeDone share, with the same errors |
| DagSession.DagSession.Start | pkg/session/dag_session.go:98-103 | exactly the ready nodes are submitted; both log invariants are kept; an error is a failed submit of a refused node of the batch, and there is one exactly if a ready node is refused |
| DagSession.DagSession.NodeDone | pkg/session/dag_session.go:107-127 | the report, then on success exactly the newly ready nodes; UnknownNode exactly for a node not registered, and no change; any other error names a refused node of the batch; failure submits nothing |
| DagSession.DagSession.HeldNodes | pkg/session/dag_session.go:205-215 | lists the held nodes, each once |
| DagSession.DagSession.SubmittedNodes | pkg/session/dag_session.go:218-228 | lists the submitted and succeeded nodes, each once |
| DagSession.DagSession.NodeCount | pkg/session/dag_session.go:231-247 | the four counts, adding up to the number of nodes |
| SessionSystem.NoReadyNodeForgotten | pkg/session/dag_session.go:131-200 | in every interleaved state after Start a ready held node has a goroutine at work or one whose submit failed, whatever is reported |
| SessionSystem.LateReturnsAreHarmless | pkg/session/dag_session.go:186-190 | only NodeDone of a node changes its status once it is not held |
| SessionSystem.UnknownReportChangesNothing | pkg/session/dag_session.go:107-113 | reporting a node nobody registered collects nothing and changes nothing |
| SessionSystem.AncestorSafety | pkg/session/dag_session.go:107-154 | at every Submit call all transitive ancestors are registered, submitted and succeeded: fast-fail on every interleaving |
| SessionSystem.SubmissionOrder | pkg/session/dag_session.go:98-200 | the order of submissions is a linear extension of the dependency order, overlapping calls included |
| SessionSystem.DoubleSubmitExactly | pkg/session/dag_session.go:100-101 | a step endangers at-most-once exactly when it collects a node whose goroutine is still at work |
| SessionSystem.DangerExactly | pkg/session/dag_session.go:167-200 | the goroutines alone can get two submits of one node accepted exactly when two goroutines of one node exist of which neither is refused |
| SessionSystem.DoubleFreeRunsExactly | pkg/session/dag_session.go:98-200 | from no point of a run can the goroutines alone get two submits of one node accepted, exactly when no Start or NodeDone of the run collects a node still being worked on |
| SessionSystem.SerialRunsSubmitOnce | pkg/session/dag_session.go:98-200 | if calls do not overlap, each node has at most one submit that is not refused |
| SessionSystem.DoubleSubmitHappens | pkg/session/dag_session.go:44 | a five-event orderly run that submits a node twice |
| SessionOutcome.QuiescentOutcome | pkg/session/dag_session.go:98-200 | at rest the submitted nodes are the least fixpoint of "dependencies exist, are submitted and succeed", and every status follows from it |
| SessionOutcome.Confluence | pkg/session/dag_session.go:98-200 | two runs at rest with the same winners end in the same statuses |
| SessionOutcome.RunsAreBounded | pkg/session/dag_session.go:98-200 | an orderly run over n nodes has at most (n+1)(3n+1) events |
| SessionOutcome.NoDeadlock | pkg/session/dag_session.go:167-200 | a state not at rest has a next event |
| SessionOutcome.EveryRunComesToRest | pkg/session/dag_session.go:98-200 | every fair run extends to one at rest |
| SessionOutcome.AllNodesSucceed | pkg/session/dag_session.go:107-200 | on an acyclic graph with registered dependencies all nodes end succeeded after exactly one report each |
| SessionOutcome.ReportsShrinkPending | pkg/session/dag_session.go:231-247 | twice held plus submitted falls with every report and never rises, the node count staying |
| SessionOutcome.CyclesStayHeld | pkg/session/dag_session.go:144-154 | a node on a dependency cycle is never submitted |
| SessionRefinement.EveryOrderEndsAlike | pkg/session/dag_session.go:167-200 | every interleaving of one call's goroutines that ends leaves the reported nodes with all collected ones marked but those refused, each submitted once |
| SessionRefinement.CallIsSerialRun | pkg/session/dag_session.go:98-127 | such an ending exists for every set of refused nodes: the goroutines run one after the other |
| SessionRefinement.StartAgrees | pkg/session/dag_session.go:98-103 | the object's Start ends in the nodes, and with the submits, of every interleaving with the same nodes refused |
| SessionRefinement.NodeDoneAgrees | pkg/session/dag_session.go:107-127 | the same for NodeDone, the unknown node included |
| SessionsOverQueue.QueueProjection | pkg/session/attempt_queue.go:50-85 | in the composition the queue performs one of its own runs |
| SessionsOverQueue.SessionProjection | pkg/session/dag_session.go:177-192 | in the composition each session performs one of its own runs, orderly if the composition is |
| SessionsOverQueue.SharedBound | pkg/session/attempt_queue.go:26-45 | any number of sessions together never exceed the slots in the inner submitter |
| SessionsOverQueue.SubmittedMeansInnerNil | pkg/session/dag_session.go:182-190 | a submitted node has a queue thread to which, in the run, the inner submitter returned nil |
| SessionsOverQueue.CanceledNodeStaysHeld | pkg/session/dag_session.go:182-185 | an unreported node for which the inner submitter has returned nil to no thread is held |
| SessionsOverQueue.GoroutineGetsInnerAnswer | pkg/session/dag_session.go:182-190 | a goroutine's Submit returned nil only if the inner submitter returned nil to its thread, and an error only if it returned one or the wait was canceled |
| SessionsOverQueue.InnerNilIsNotLost | pkg/session/dag_session.go:186-190 | once a goroutine answered nil has ended its node is not held |
| SessionsOverQueue.SubmitComesBack | pkg/session/attempt_queue.go:50-85 | while a goroutine is in Submit, its call can return or some thread can move |
| SessionsOverQueue.InnerSubmitIsSafe | pkg/session/dag_session.go:182-190 | whenever a thread is in the inner submitter, all ancestors of its node have succeeded |
| DispatcherSlots.SlotAccounting | cmd/ingress/main.go:189-286 | without the ctx.Done arm tokens equal the goroutines' slots plus main's, at most the limit, and none at exit |
| DispatcherSlots.PhantomNeverExits | cmd/ingress/main.go:207-220 | with it main never passes wg.Wait |
| DispatcherSlots.WaitIsPassed | cmd/ingress/main.go:280-286 | at the wait without the arm: an exit is reachable, every continuation has at most the goroutines' remaining steps, and until the exit the wait can be passed or a goroutine can move; with the arm no continuation exits |
| DispatcherSlots.LabelledBreakRepairs | cmd/ingress/main.go:207-213 | with the break leaving the loop the accounting always holds and a reached wait ends |
| DispatcherSlots.PhantomHappens | cmd/ingress/main.go:194-213 | three events that take the arm |
| DispatcherSlots.DispatchCounts | cmd/ingress/main.go:191-278 | maxRuns and once are respected; at exit dispatched equals acked plus failed admits plus failed acks |
| DispatcherSlots.OneSlotIsSequential | cmd/ingress/main.go:187-189 | with one slot each entry's admit and ack attempt are over before the next consume |
| DispatcherLoop.LoopIsLeftForReason | cmd/ingress/main.go:194-278 | main leaves its loop only if the context is done, maxRuns is used up or once has been served |
| DispatcherLoop.EmptyPollGoesRound | cmd/ingress/main.go:226-234 | after an empty poll or a consume error main's next step gives the slot back and it is at the top of its loop |
| DispatcherLoop.StopMeansNoMoreRuns | cmd/ingress/main.go:194-225 | once the context is done or the limit reached nothing is dispatched but an entry already being consumed |
| DispatcherLoop.StopIsPrompt | cmd/ingress/main.go:194-282 | from then on main takes at most four steps of its own |
| DispatcherLoop.StopAtTopWaits | cmd/ingress/main.go:194-201 | with a reason to stop at the top of the loop main's next own step is to the wait, and no continuation takes the ctx.Done arm |
| DispatcherDelivery.DeliveryInvariant | cmd/ingress/main.go:226-273 | each entry is in one delivery state and only moves forward, entries pending at the start stay pending, each goroutine handles its own new entry, each new ack comes from an Admit that returned nil |
| DispatcherDelivery.ConsumedByEvents | cmd/ingress/main.go:226-237 | an entry is undelivered until it is consumed, and one whose payload could not be read is pending and unhandled from then on |
| DispatcherDelivery.AckedByEvents | cmd/ingress/main.go:261-265 | an entry is acked exactly when an ack of its goroutine has been applied |
| DispatcherDelivery.SettledByEvents | cmd/ingress/main.go:243-268 | a goroutine reports acked, failed ack or failed admit exactly by what Admit and XACK returned to it, each at most once |
| DispatcherDelivery.SettlementTells | cmd/ingress/main.go:257-268 | settled as acked means acked on the stream; a failed admit, or none yet, means pending |
| DispatcherDelivery.GateProjection | cmd/ingress/main.go:243-254 | the dispatcher's admits are one run of the interleaved gate |
| DispatcherDelivery.AckedMeansTerminal | cmd/ingress/main.go:247-265 | repeated or known run ids included, an acked entry's record is terminal, at the first outcome reached |
| DispatcherDelivery.ChangeHasEntry | cmd/ingress/main.go:243-254 | a record changes only after an entry with its run id has been delivered |
| DispatcherAcks.AckedMeansFinished | cmd/ingress/main.go:226-273 | for a safe entry: acked means an Admit returned nil and the record is finished; if its run id is unshared, a changed record means the entry is acked and finished, or pending |
| DispatcherAcks.UnsafeIsAckedUnfinished | cmd/ingress/main.go:247-265 | every entry that is not safe can be acked with its record canceled or still parked |
| DispatcherAcks.AckedMeansFinishedExactly | cmd/ingress/main.go:182-273 | acked implies finished on every run exactly when the entry is safe, a condition on limits, record and other entries before the start |
| DurableDispatcher.DispatcherProjection | cmd/ingress/main.go:121-165 | what each process does over the crashable store is a run of the dispatcher from the records it loaded, and over all processes entries only move forward |
| DurableDispatcher.StoreProjectionFrom | cmd/ingress/main.go:121-165 | the store and its admits perform one run of the crashable gate |
| DurableDispatcher.AckedOnDiskExactly | cmd/ingress/main.go:247-265 | after any kills and restarts an acked entry's record on disk is terminal, and for a safe entry finished, exactly when its run is not lagging, and then equals memory |
| DurableDispatcher.SettledAckIsForever | cmd/ingress/main.go:261-265 | an ack whose run was not lagging keeps its record on disk through every later kill, failure and restart |
| DurableDispatcher.AckSurvivesExactly | cmd/ingress/main.go:261-265 | if the process ends now, every future has an acked, unshared run terminal on disk exactly when it is not lagging, and none has it when it is; the entry stays acked |
| DurableDispatcher.AckedOutcomeIsLost | cmd/ingress/main.go:247-265 | a run whose terminal persist fails, acked before the process ends: acked for ever, running on disk for ever |
| DurableDispatcher.RestartBeginsAfresh | cmd/ingress/main.go:104-165 | a process that has ended can be started again with any configuration, with the entries as left and the records the file holds |
| DurableDispatcher.PendingAtEndIsForever | cmd/ingress/main.go:257-260 | an entry pending when a process ends is pending in every future |
| JobNames.NameShape | cmd/ingress/main.go:570-582 | when the slice is in range, what the name starts and ends with, and exactly when it has at most 63 bytes |
| JobNames.NameDeterminesNode | cmd/ingress/main.go:570-582 | over a suffix-free node set a name, cut or whole, determines its node |
| JobNames.CollisionsForOneNode | cmd/ingress/main.go:575-581 | two runs share a node's name exactly when the kept parts of their ids agree |
| JobNames.WholeNamesAreInjective | cmd/ingress/main.go:571-574 | over a suffix-free node set whole names are injective in run id and node |
| JobNames.WholeNamesCollideExactly | cmd/ingress/main.go:571-574 | in general whole names collide exactly when the same text is cut at different hyphens |
| JobNames.PipelineNodesAreSuffixFree | cmd/ingress/main.go:309-439 | the node sets of both ingress pipelines are suffix-free |

## Left out

- Redis, go-redis, Kubernetes, Kueue, dag-go and spawner: the stream is undelivered, pending and acked entries, `runFn` and the inner `Submit` are events with arbitrary results. A failed ack may or may not have taken effect.
- `ReclaimStale`, `Pending` and stream `Enqueue` of pkg/queue/redis_streams.go: `dispatch` does not call the first, only logs the second, and takes the entries of the third as given, those added during a run as undelivered from its start.
- `dispatch` is a transition system and not a method with a loop, because its claims are about interleavings of its goroutines; the same holds for the interleaved halves of the session, the queue and the gate.
- `nodeEntry` pointers and the `RunRecord` map values are modelled as map values; no code path modelled here keeps a pointer across the mutex except to read the node id.
- Overlapping `AddNode` and `Start`, and `Enqueue` with a state other than queued by other users of the store: `AddNode` requires that nothing has been submitted, as its comment demands.
- Orderly reports (a node reported at most once and only after its Submit began) are a stated premise of ancestor safety, order, confluence and termination; the code does not check it.
- Holds, resumes and deletes by other parties during an `Admit`: the interleaved gate has only `Admit` calls.
- JSON encoding, temporary file names, left-over temporary files and timestamps: files are values, marshalling is exact.
- Store files not written by the store itself, such as one holding JSON `null`: a file is absent, empty, torn or a whole snapshot.
- First-come order of blocked submits: it depends on the Go runtime's channel queue.
- `ListByState` order, `bootstrapRecovery`, pkg/observe, pkg/adapter, the spec builders and command lines: lookup, logging and formatting.
