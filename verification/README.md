# Verified model of the transactional ChangeSet protocol

The project models how typed changes reach a live scene and what is promised about them:

- a **ChangeSet** is an ordered list of creates, parameter writes and connections with the conditions it rests on
  (`Contracts`, `ContractChecks`, `Codec`, `CodecRecords`);
- the **executor** runs it against a scene whose calls may fail at any time, with just-in-time checks, a journal of
  inverses, a reverse rollback, a classified receipt, a bounded receipt cache and a sticky write freeze (`Hom`,
  `Preflight`, `Coverage`, `Policy`, `Admission`, `Executor`, with the laws in `SceneGraph`, `Transactions`,
  `ExecutorSpec`, `Served`, `TrackedSteps`, `SamplingSpec`, `Runs`; what the gate demands in `GateFacts`, how long receipts
  are remembered in `Retention`, what created nodes carry in `CreatedNodes`);
- reads that raise and are swallowed are in `Glances`; `SeenGate` and `LostWires` say what still holds then;
- what conditions mean for scenes is in `Acts`, `WeakestPre`, `LocatedRuns`, `Postconditions`, `Pins`, `Restoring` (when
  a rollback goes through), `RecoveryTruth`, `ReplaySafety`, `Confinement`;
- the **repository** is a persisted state machine over rows, approvals, receipts and an event log, changed by atomic
  transactions (`RepositorySpec`, `EventLog`, `Repository`; each transaction told from the tables in `Transitions`);
- the **service** joins executor and repository across lost requests, lost replies and restarts (`ServiceSpec`,
  `Service`, `CriticalScenes`, what each answer of the bridge leads to in `Evidence` and
  `ApplyCalls`, the whole system in `Protocol`, `ProtocolSafety`, `ProtocolSteady`, `ProtocolRuns`,
  `Unreadable`, and the service's calls as steps of it in `ServiceRuns`);
- five smaller algorithms stand by themselves: `UnionFind`, `Layout`, `BoundingBox`, `SceneScan`, `Workspace`;
- six modules hold concrete cases: `LockShadow`, `ReplayFlip`, `RecoveryGap`, `AmbiguousRollback` and `SwallowedReads` show
  where a law fails without its condition, `SystemRun` that the hypotheses of the system laws can be met.

Code that changes things step by step is modelled by classes and loops (`Executor`, `Hom`, `Repository`, `Service`,
`Workspace`, `Layout`, `UnionFind`, `SceneScan`, `Coverage`, `Policy`, `ContractChecks`); each of their methods is proved
equal to, or inside, a specification on values, and the laws over whole runs are proved about those specifications. An
apply call of the service is several steps of the system; `ServiceRuns` proves it to be a chain of them.

## Assumptions

- A call of the scene that returns normally has taken effect. `parm.set` and `setInput` may raise after taking effect;
  a `createNode` that raises has made no node, and so has one whose name is taken. A write touches its own slot only.
  Parameter names are independent slots.
- Reads tell the truth or raise. Most raises fail the step; those of the guarded reads (`inputs`, `inputConnections`,
  `userData`, the two lock queries) are swallowed and answer "no source", "output 0", "no key" and "not locked". Each pass
  over the scene, and each look at an input, may be hit on its own. The executor is proved for all of this. The laws that
  speak of `Admitted` and `ApplyOutcome`, the service and the system runs among them, are about requests and facts none of
  whose guarded reads was swallowed (`Served.ServedTruly`).
- Canonical JSON and SHA-256 are injective: the digest of a ChangeSet is its value. Parameter values are their canonical
  JSON text. The revision of a manifest is any function of its identity facts; nothing about that function is used.
- One queue runs requests in the order they were issued, each as a whole; service calls are serialized; nothing but apply
  requests writes the scene of a system run, and a reply or a receipt crosses the wire only if the decoder accepts it.
- Paths are lists of segments below the scene root, and the root itself is never a wire source or a write target.
- Clocks are integers. Counts, text lengths and identifier formats are unbounded.
- Exception messages can be stored in a receipt, so the transaction phase never raises.

## Where the code does less than it says

Each of these is a theorem with the exact condition next to it, or a concrete counterexample beside the condition:

- A sample write that raises after taking effect is not journaled, because the journal entry follows the write
  (`Runs.TornSampleStays`, exact condition `Runs.TornSampleExactly`).
- The lock gate compares paths, but facts keep the last reference per id; a read dependency or precondition that names a
  locked node by its id at another path opens the gate (`LockShadow.LockedTargetIsWritten`, exact condition
  `Confinement.LockGateExact`).
- After its receipt is evicted, an applied ChangeSet can run again (`ReplayFlip.EvictedReplayRepeats`, exact condition
  `ReplaySafety.AppliedLeavesSceneIff`). The service never sends such a change again, so the system law is not affected.
- A receipt with an error code cannot be decoded (`Codec.ReceiptRoundTrip`). Every failing receipt has one, so the service
  never learns of a clean rollback: no run records RolledBack, and recovery makes the outcome critical
  (`Unreadable.NeverRolledBack`, `Unreadable.RollbackReadsAsCritical`).
- Recovery does not check that the postconditions a change carries are the derived ones; a change with weaker ones can be
  called applied without its writes (`RecoveryGap.UncoveredIsCalledApplied`). The verdict is right if and only if every
  derived postcondition holds in the same facts (`RecoveryTruth.AppliedVerdictIsTrueIff`). The system law asks that
  proposed changes carry their derived postconditions.
- The manual exit from a critical outcome takes a preflight that refuses for an absent scene, although its documentation
  says a live half-written scene is refused (`ServiceSpec.HalfCreatedIsResolved`). In a live scene bound to the change the
  exit is refused if and only if none of the nodes the change creates is there and not all its postconditions hold
  (`CriticalScenes.RefusedInScene`).
- A rollback of a connection whose old source shares its mirrored id with another node fails without any failing call, and
  writes freeze (`AmbiguousRollback.RewireCannotBeUndone`, `AmbiguousRollback.FreezesByItself`). Without failing calls a
  transaction freezes if and only if it is not applied and some wire replaced by an operation that ran came from such a
  node (`Executor.ChangeSetExecutor.Apply`, `Restoring.RestorableIff`).
- A swallowed read of an input is journaled as "no source", so a rollback can report the scene restored, freeze nothing and
  lose a wire (`SwallowedReads.WireLost`). A rolled-back run leaves the scene as it was if and only if every wire of that
  scene it replaced was read truly when it was journaled (`LostWires.RestoredIff`, `Executor.ChangeSetExecutor.Transact`).
- A swallowed id read hides a second node of an id, and the transaction may then work on the wrong node
  (`SwallowedReads.SecondNodeUnseen`). A passing gate pins its references if and only if it saw every node with an id in use
  (`SeenGate.SeenPinsIff`, `SeenGate.ReadyIff`).
- A swallowed lock read lets a locked node be written (`SwallowedReads.LockedIsWritten`); the gate sees the lock if and only
  if it was read and the last reference of the key carries the path (`Confinement.LockGateExact`).

## Model

| member | source | states |
|---|---|---|
| `Runs.AllOrNothing` | houdini_side/changeset_executor.py:1543-1834 | Over every run of apply and sample calls with arbitrary failures of the scene: while writes are not frozen, the scene is the first one with exactly the operations of the applied ChangeSets run in order, and without the wires that rolled-back ones had misread. Assumed: sample writes that raise had no effect, and where guarded reads were swallowed no node of an id in use went unseen. |
| `Runs.NothingLost` | houdini_side/changeset_executor.py:1543-1682 | A request none of whose guarded reads was swallowed meets those assumptions and loses no wire. |
| `Runs.FrozenForever` | houdini_side/changeset_executor.py:1543-1558 | From the first frozen state on, no call of a run writes anything. |
| `Runs.CacheAlwaysOk` | houdini_side/changeset_executor.py:1563-1571 | In every state of every run the receipt cache is within its bound and holds at most one digest per change. |
| `Runs.TornSampleStays` | houdini_side/changeset_executor.py:1796-1803 | The assumption on sample writes is needed: a concrete sample cycle whose write raises after taking effect ends unfrozen with the scene changed. |
| `Runs.TornSampleExactly` | houdini_side/changeset_executor.py:1796-1825 | For all samples: a torn write leaves the scene as found if and only if an earlier sample of the cycle wrote the slot or the value is the one found. |
| `Executor.ChangeSetExecutor.Apply` | houdini_side/changeset_executor.py:1543-1682 | One apply call, its guarded reads swallowed or not: rejected without a write (an ambiguous snapshot included), replayed from the cache, or run as a transaction whose receipt tells the truth if the gate saw every node with an id in use; a rollback then leaves the scene as it was if and only if every replaced wire was read truly. Without failing calls a new transaction ends Applied if and only if the checked run and its postconditions succeed, and it freezes if and only if it is not applied and some operation that ran replaced a wire from a node that shares its id. |
| `Executor.ChangeSetExecutor.Transact` | houdini_side/changeset_executor.py:1607-1682 | Applied means every operation took effect, checked unless a read was swallowed, with every postcondition as it was read; RolledBack means the scene of before without the misread wires, so the very scene of before if and only if every replaced wire was read truly; anything else freezes; nothing outside the footprint changes. All this if the gate saw every node with an id in use. Without failing calls both verdicts are exact, as for Apply, and the receipt lists exactly the operations that ran, the verdict of each postcondition, and one rollback result per operation done. |
| `Executor.ChangeSetExecutor.RunOperations` | houdini_side/changeset_executor.py:1607-1616 | The forward loop stops at the first failure with a journal that undoes everything done so far; without failing calls it stops exactly before the first operation whose checks fail, with one inverse per operation done. |
| `Executor.ChangeSetExecutor.Reconcile` | houdini_side/changeset_executor.py:1618-1646 | Every verdict is one that guarded reads of the scene after the writes can lead to, and the true one if none was swallowed; raising means a failing call or an ambiguous reference. |
| `Executor.ChangeSetExecutor.ExecuteCreate` | houdini_side/changeset_executor.py:2955-2987 | Creates, journals, then mirrors the identity key by key; a failure part-way through the mirroring still leaves a journal that undoes the node. What a created node carries in the end is `CreatedNodes.AppliedCarries`. |
| `Executor.ChangeSetExecutor.ExecuteSetParm` | houdini_side/changeset_executor.py:2989-3011 | Checks the old value just in time and journals before writing; a write that raises, with or without effect, is covered by the journal. |
| `Executor.ChangeSetExecutor.ExecuteConnect` | houdini_side/changeset_executor.py:3013-3049 | Checks the old source just in time as it is read, including its identity when this ChangeSet created it, and journals the source as read before connecting; a misread source still leaves a journal that differs from the true one in that wire only. |
| `Executor.ChangeSetExecutor.VerifyCreatedIdentity` | houdini_side/changeset_executor.py:3051-3079 | Passing means the node carries every identity fact of the create that made it. |
| `CreatedNodes.VerifiedIff` | houdini_side/changeset_executor.py:3051-3079 | Told from the ChangeSet: the check passes if and only if the node is at the path of its create, of its type, and carries its id, workspace, capability and role, the schema version and the run of the ChangeSet. |
| `CreatedNodes.AppliedCarries` | houdini_side/changeset_executor.py:2955-2987 | After a request that ended Applied every node it creates is there, is the only one with its id, and carries that identity, the run id of the ChangeSet included. |
| `CreatedNodes.OwnNodePasses` | houdini_side/changeset_executor.py:558-628 | In that scene a manifest of that run and workspace that lists the node meets every ownership check of the next preflight. |
| `CreatedNodes.OthersRefuse` | houdini_side/changeset_executor.py:558-628 | A manifest of another run, or one that does not list the node, is refused. |
| `Executor.ChangeSetExecutor.RollbackCreate` | houdini_side/changeset_executor.py:3121-3164 | Passing means exactly that the created node is gone with everything below it; a sound inverse fails only if a call of the scene does. |
| `Executor.ChangeSetExecutor.RollbackParm` | houdini_side/changeset_executor.py:3166-3184 | Passing means exactly that the old value is back; a sound inverse fails only if a call of the scene does. |
| `Executor.ChangeSetExecutor.RollbackWire` | houdini_side/changeset_executor.py:3186-3210 | Passing means exactly that the journaled source, or none, is connected, even if the read-back was swallowed; a sound inverse fails only if a call of the scene does or the source's id is ambiguous, and in the latter case, its id being seen, it always fails. |
| `Executor.ChangeSetExecutor.SafeRollback` | houdini_side/changeset_executor.py:3083-3105 | When the reverse pass completes and every inverse passed, the scene is what undoing the whole journal gives. Without failing calls it completes, and every inverse passes if and only if no journaled old source shares its id with another node. |
| `LostWires.RestoredIff` | houdini_side/changeset_executor.py:3083-3210 | Undoing a journal gives the first scene back if and only if every wire of that scene that the run replaced was read truly when it was journaled; of several entries about one input the oldest decides. |
| `LostWires.UndoneShown` | houdini_side/changeset_executor.py:3577-3600 | In any case it gives the first scene without exactly the misread wires. |
| `SwallowedReads.WireLost` | houdini_side/changeset_executor.py:3577-3600 | A concrete outcome: an input whose reading raises twice is journaled as empty, the run fails, the rollback passes, nothing is frozen, and the wire is gone. |
| `SwallowedReads.CarelessJournal` | houdini_side/changeset_executor.py:3013-3049 | The journal behind it: as it was read it leads a rollback to the scene without the wire, as it should have been read it leads back to the first scene. |
| `Served.ServedTruly` | houdini_side/changeset_executor.py:1543-1682 | Where no guarded read was swallowed, the outcome is that of the checked run. |
| `Restoring.RestorableIff` | houdini_side/changeset_executor.py:3083-3210 | For every prefix that ran: its journal can be undone if and only if no wire it replaced, told from the first scene and the operations alone, came from a node that shares its id. |
| `Restoring.UniqueIdsSuffice` | houdini_side/changeset_executor.py:3083-3210 | Where no id is mirrored twice, every failed run without failing calls is rolled back. |
| `AmbiguousRollback.RewireCannotBeUndone` | houdini_side/changeset_executor.py:3186-3210 | A concrete admitted ChangeSet in a scene with two nodes of one id neither succeeds nor can be rolled back. |
| `AmbiguousRollback.FreezesByItself` | houdini_side/changeset_executor.py:1607-1682 | The executor applied to it freezes without a failing call. |
| `Executor.ChangeSetExecutor.CacheReceipt` | houdini_side/changeset_executor.py:1736-1739 | Inserting a receipt keeps the order of the cache, its bound and the one-digest rule; only the oldest receipt of a full cache goes. |
| `ExecutorSpec.CacheInOrder` | houdini_side/changeset_executor.py:1736-1739 | The cache after an insertion is the cache before it, without its oldest receipt if it was full, and then the new receipt. |
| `Retention.InsertionKeeps` | houdini_side/changeset_executor.py:1736-1739 | Every receipt of the cache is still found after an insertion, one place older, except the oldest one of a full cache. |
| `Retention.FoundIff` | houdini_side/changeset_executor.py:1563-1739 | Over every run: a receipt is found later if and only if fewer receipts than the bound were cached since, itself included (as long as its change did not run again). |
| `Retention.StillFound` | houdini_side/changeset_executor.py:1563-1739 | While fewer receipts than the bound were cached since, its change has not run again, and the same receipt is found. |
| `Retention.RetryIsAnswered` | houdini_side/changeset_executor.py:1563-1571 | So within the bound a retry changes nothing and is answered from the receipt: an applied change as already applied with no operation of its own, any other one word for word. |
| `Executor.ChangeSetExecutor.ReceiptOf` | houdini_side/changeset_executor.py:1518-1539 | A receipt query reads the cache only: a stale epoch is refused if and only if there is one, another digest under the same id if and only if there is one and the epoch is not stale; otherwise it answers exactly what is cached. |
| `Executor.ChangeSetExecutor.SampleSensitivity` | houdini_side/changeset_executor.py:1743-1834 | A sample cycle that does not freeze leaves the scene exactly as found, up to one torn write; a frozen executor writes nothing. Sampled means that there was one capture per target, and that capture i holds the value of target i at the node target i names. Without failing calls: sampled, or refused for the epoch, or refused for the first target with a problem, by that problem. |
| `Executor.ChangeSetExecutor.WriteSamples` | houdini_side/changeset_executor.py:1790-1802 | The scene is the one found with exactly the samples written so far, later ones over earlier ones, and a torn one where it took effect; each capture is the scene after one more sample. |
| `SamplingSpec.WrittenHolds` | houdini_side/changeset_executor.py:1790-1802 | A sampled slot holds the value of the last sample of it. |
| `SamplingSpec.CaptureShows` | houdini_side/changeset_executor.py:1790-1802 | Capture i shows sample i, and differs from the scene found in slots sampled so far only. |
| `Executor.ChangeSetExecutor.RestoreSamples` | houdini_side/changeset_executor.py:1804-1822 | The restore phase undoes every journaled sample in reverse or reports that it could not. |
| `Transactions.ReadyStep` | eee_agent/changesets/contracts.py:1053-1234 | Forward-reference rule, forwards: after each operation every reference of the remaining ones resolves to its own node or to one that a strictly earlier operation creates. |
| `Transactions.ReadyResolves` | houdini_side/changeset_executor.py:3551-3562 | At each operation every reference it uses resolves to the node at the path it carries. |
| `Transactions.ExecIsWrite` | houdini_side/changeset_executor.py:2931-2953 | A checked execution that succeeds has the same effect as the unconditional writes. |
| `Transactions.JournalParm` | houdini_side/changeset_executor.py:2989-3011 | Journaling then writing a parameter keeps the transaction invariant: undoing the journal gives the first scene, and no inverse needs a node that the reverse pass destroys before it. |
| `Transactions.JournalWire` | houdini_side/changeset_executor.py:3013-3049 | The same for connections, wires from and to created nodes included. |
| `Transactions.JournalCreate` | houdini_side/changeset_executor.py:2955-2987 | The same for creates, nested creates included. |
| `Transactions.UndoKeepsSound` | houdini_side/changeset_executor.py:3083-3210 | Forward-reference rule, backwards: running the last inverse leaves every earlier one resolvable. |
| `SceneGraph.DestroyUndoesCreate` | houdini_side/changeset_executor.py:3121-3164 | Destroying a freshly added node gives the very scene back, whatever was written on the node. |
| `ExecutorSpec.ClassifiedRolledBack` | houdini_side/changeset_executor.py:3212-3232 | A failure is classified RolledBack if and only if the pass completed and every inverse passed, Partial if and only if it completed and some but not all inverses passed, CriticalRecovery otherwise; only after RolledBack is the scene called unchanged. |
| `ExecutorSpec.CacheStaysOk` | houdini_side/changeset_executor.py:1701-1739 | The bound and the one-digest rule survive every insertion the conflict check lets through, and the new receipt is found again. |
| `Glances.WithinAdded` | houdini_side/changeset_executor.py:2955-2987 | The index of mirrored ids holds no wrong node after a create added to it, and stays exact if it was. |
| `ExecutorSpec.WireReadBack` | houdini_side/changeset_executor.py:3186-3210 | Reading an input back tells whether the right source was connected; a swallowed read never passes a wrong one. |
| `Preflight.PassesPins` | houdini_side/changeset_executor.py:341-420 | A passing preflight none of whose guarded reads was swallowed pins every reference whose identity is a precondition to the node at its path, with no second node of that id. |
| `SeenGate.SeenPinsIff` | houdini_side/changeset_executor.py:341-420 | Whatever was swallowed, such a reference has its node at its path with its type and id; it is pinned if and only if every node with its id was seen when ids were indexed. |
| `SeenGate.ReadyIff` | houdini_side/changeset_executor.py:1572-1595 | For what passes the gate: every reference of the run resolves and what it creates is absent if and only if no node with an id in use went unseen. |
| `SwallowedReads.SecondNodeUnseen` | houdini_side/changeset_executor.py:473-490 | A concrete preflight that passes over an ambiguous reference, and an index that then leads to the wrong node. |
| `Preflight.KnownCreatesAbsent` | houdini_side/changeset_executor.py:630-652 | A preflight that raises nothing has found every node to be created absent by id and by path. |
| `Admission.AdmittedReady` | houdini_side/changeset_executor.py:1572-1595 | What passes the gate starts in a scene where every reference resolves or comes from a strictly earlier create, and what it creates is absent. |
| `Admission.SnapshotClear` | houdini_side/changeset_executor.py:3449-3467 | After a preflight that raised nothing the snapshot, read the same way, refuses if and only if a parameter or input named by a postcondition is on an ambiguous node. |
| `GateFacts.KnownIff` | houdini_side/changeset_executor.py:341-652 | Preflight reports facts if and only if the scene is of the epoch the ChangeSet was made for, the manifest is of this very scene, and every reference names one node that is of its type and owned as the manifest says, or is a declared create that is nowhere yet. A stale epoch is told as such. |
| `GateFacts.MandatoryIff` | houdini_side/changeset_executor.py:1286-1342 | The conditions a ChangeSet has to carry are exactly: its scene, its manifest revision, the absence of each node it creates, the identity of each existing node it creates in, wires from, or is the first to write a slot of, and the old values of those slots. |
| `GateFacts.AdmittedFor` | houdini_side/changeset_executor.py:1572-1595 | What passes the gate was made for this very scene and this very revision of the manifest, and asks for no backup. |
| `GateFacts.OneRevision` | houdini_side/changeset_executor.py:1286-1342 | So it passes under one revision of one workspace only, whatever happens to the scene. |
| `GateFacts.AdmittedNames` | eee_agent/changesets/policy.py:108-242 | What passes the gate creates no node under an id of the manifest, and lists every node it creates, writes to or wires from as affected. |
| `GateFacts.CheckpointCoversFootprint` | houdini_side/changeset_executor.py:1286-1460 | What passes the gate has in its checkpoint every parameter and every input of existing nodes that it can change, and every existing node it uses. |
| `Admission.UsedRefPinned` | houdini_side/changeset_executor.py:1286-1343 | Every reference an operation uses is created earlier or has its identity among the derived preconditions. |
| `Admission.SameSlotSameTarget` | eee_agent/changesets/contracts.py:190-218 | Writes of one slot carry the same target reference. |
| `Coverage.DerivePreconditions` | houdini_side/changeset_executor.py:1286-1342 | The loop with its set of seen slots derives exactly the mandatory preconditions. |
| `Coverage.DerivePostconditions` | houdini_side/changeset_executor.py:1345-1378 | The loop with its dictionary of slots derives exactly one condition per slot, for its last write. |
| `WeakestPre.DerivedConditionsAreExact` | houdini_side/changeset_executor.py:1286-1378 | Where references name their nodes and created nodes are absent, a run without failing calls goes through if and only if the derived old values hold, later expected values chain from earlier writes, first expected values on created nodes are the defaults, and node types are known. |
| `WeakestPre.RunIff` | houdini_side/changeset_executor.py:2931-3049 | The same, under the same hypotheses, for every prefix of the operations. |
| `LocatedRuns.LocatedRunIff` | houdini_side/changeset_executor.py:2931-3079 | Without those hypotheses, creates included: every prefix goes through if and only if each operation resolves its nodes, by id first, among those there are by then, the ones created here are who they should be, and its slot holds what it expects. |
| `LocatedRuns.WritesAreActsAlong` | houdini_side/changeset_executor.py:2931-3049 | Slot calculus for every list of operations: the writes amount to acts on the nodes found along the way, so a slot holds its last word, a new node starts with its defaults, and the rest is untouched. |
| `LocatedRuns.MovedTargetRuns` | houdini_side/changeset_executor.py:3551-3562 | So identity is not part of what a run needs: a write to a node that moved goes through while its identity condition fails. |
| `WeakestPre.SlotsNeverAlias` | eee_agent/changesets/policy.py:175-187 | Operations that write the same place of the scene share a slot key. |
| `Postconditions.PostconditionsFollow` | houdini_side/changeset_executor.py:1345-1378 | A run that goes through meets every derived postcondition, as the executor judges it: the last write of each slot wins. |
| `Postconditions.AppliedIff` | houdini_side/changeset_executor.py:1286-1378 | For an admitted ChangeSet with the derived postconditions, a run without failing calls ends Applied if and only if values chain, defaults agree and node types are known. |
| `Acts.WritesAreActs` | houdini_side/changeset_executor.py:2931-3049 | The same for lists without creates, where resolution never moves during the run. |
| `Pins.PreconditionsPin` | eee_agent/changesets/service.py:561-642 | A scene reached within the footprint where all preconditions pass again is the scene from before, even if the manifest changed meanwhile. |
| `Pins.PostconditionsPin` | eee_agent/changesets/service.py:861-905 | If preflight raises nothing and every expected postcondition holds, all the writes are in place already. |
| `Pins.PostconditionsPinAfter` | eee_agent/changesets/service.py:561-642 | The same for an interrupted run: the scene is the one the whole run would have made. |
| `Pins.CreatesNeverLookDone` | eee_agent/changesets/service.py:861-905 | A ChangeSet with a create never looks done: its node would have to be absent and present. |
| `Pins.ServiceCheckIsStricter` | houdini_side/changeset_executor.py:883-903 | Whatever passes the service check passes the executor check on the same scene. |
| `Pins.HoldingWritesAreNoOp` | houdini_side/changeset_executor.py:2989-3049 | For lists without creates whose targets are located: if the last write of every slot is in place, running all the writes changes nothing. |
| `Pins.WritesConverge` | houdini_side/changeset_executor.py:2989-3049 | For lists without creates whose targets are located: scenes that agree off the written slots end up equal. |
| `RecoveryTruth.DoneIff` | eee_agent/changesets/service.py:605-642 | Wherever a run was interrupted, if preflight can look, references name their nodes and what is to be written exists: the scene is the one the whole change makes if and only if every derived postcondition holds in the facts. |
| `RecoveryTruth.AppliedVerdictIsTrueIff` | eee_agent/changesets/service.py:623-642 | A recovery that calls such a change applied on the facts is right if and only if every derived postcondition holds in them, so always when the change carries them all. |
| `ReplaySafety.AppliedLeavesSceneIff` | houdini_side/changeset_executor.py:1563-1598 | A run that ends Applied leaves the scene as found if and only if its postconditions held to begin with. |
| `ReplaySafety.EvictedReplay` | houdini_side/changeset_executor.py:1736-1739 | Replaying an applied ChangeSet in the scene it left, its receipt evicted, changes nothing unless writes freeze. |
| `ReplayFlip.EvictedReplayRepeats` | houdini_side/changeset_executor.py:1736-1739 | With another applied ChangeSet in between, the replay runs a second time: a concrete run of three calls. |
| `Confinement.OwnedConfinement` | eee_agent/changesets/policy.py:108-296 | For an owned workspace, in every outcome, if every node with an id in use was seen: nodes added are declared creates, none is lost, and a node that was there and differs is the very node a manifest entry describes. |
| `Confinement.ScopedConfinement` | eee_agent/changesets/policy.py:299-315 | Likewise a scoped patch creates nothing and changes only nodes whose ids were granted. |
| `Confinement.LockGateExact` | houdini_side/changeset_executor.py:1706-1734 | The lock gate sees a target if and only if its lock was read as locked and the last collected reference with its key carries its path (given that no other key has that path). |
| `Confinement.LockedUntouched` | houdini_side/changeset_executor.py:1706-1734 | Where no later reference shadows a changed target, no outcome changes a locked node whose lock was read. |
| `SwallowedReads.LockedIsWritten` | houdini_side/changeset_executor.py:858-862 | A concrete locked node that is written because reading its lock raised. |
| `LockShadow.LockedTargetIsWritten` | houdini_side/changeset_executor.py:1720-1734 | A locked node of the workspace is written: a concrete scene, manifest and ChangeSet that pass the whole gate. |
| `Policy.EvaluatePolicy` | eee_agent/changesets/policy.py:108-242 | The loops collect a denial if and only if a rule is broken, and each code if and only if its rule is. |
| `Policy.RiskAgreesIff` | eee_agent/changesets/policy.py:108-210 | The declared risk is accepted if and only if it lists exactly the effects the operations have, whether one of them wires, how many there are, exactly the paths they write, wire from or create, and whether one uses a node that is neither owned nor created. |
| `Policy.OwnedRulesIff` | eee_agent/changesets/policy.py:245-296 | An owned change is accepted if and only if there is a manifest of its workspace and scene, it creates nodes of that workspace only, each target is created here or stands in the manifest under its id with place and type, and each source is created here, stands in the manifest, or is unknown to it and declared as read. |
| `Policy.ScopedRulesIff` | eee_agent/changesets/policy.py:299-315 | A scoped patch is accepted if and only if it creates nothing and every node it writes to or wires from was granted by its id. |
| `Policy.OwnedDenials` | eee_agent/changesets/policy.py:245-296 | No denial if and only if the ownership rules hold for every operation. |
| `ContractChecks.ValidateCreatedReferences` | eee_agent/changesets/contracts.py:1111-1234 | The dictionary checks accept a ChangeSet if and only if every embedded reference obeys the forward-reference rule. |
| `ContractChecks.AcceptedIff` | eee_agent/changesets/contracts.py:1111-1139 | Deciding by id first, then by path, is the same as comparing with every create. |
| `ContractChecks.UniqueNodeRefs` | eee_agent/changesets/contracts.py:190-218 | Accepts exactly the lists without a shared id or path. |
| `ContractChecks.UniqueCreatedNodes` | eee_agent/changesets/contracts.py:1053-1070 | Accepts exactly the lists whose creates share no id and no path. |
| `ContractChecks.FreezeConditions` | eee_agent/changesets/contracts.py:729-752 | Accepts exactly the lists with one condition per subject and no node both absent and present. |
| `Repository.ChangeSetRepository.Propose` | eee_agent/changesets/repository.py:1484-1602 | Insert, approval, transition and two events as one transaction equal to the specified one; a refusal part-way restores every table. |
| `Repository.ChangeSetRepository.Decide` | eee_agent/changesets/repository.py:1604-1824 | Approves, rejects or expires together with the ChangeSet; which one is `Transitions.DecidesIff`. |
| `Repository.ChangeSetRepository.BeginApply` | eee_agent/changesets/repository.py:1828-1885 | Crosses into Applying with a consumed approval bound to the change; consumes it at most once. |
| `Repository.ChangeSetRepository.CompleteApply` | eee_agent/changesets/repository.py:1887-1946 | Stores receipt and state together, or answers an identical completion without an event. |
| `Repository.ChangeSetRepository.CompleteBootstrap` | eee_agent/changesets/repository.py:1948-2091 | The same with the first manifest of a session. |
| `Repository.ChangeSetRepository.RecoverToApproved` | eee_agent/changesets/repository.py:2093-2131 | Only from Applying with a consumed approval. |
| `Repository.ChangeSetRepository.RecoverCritical` | eee_agent/changesets/repository.py:2133-2190 | Only from CriticalRecovery with a consumed approval. |
| `Repository.ChangeSetRepository.TransitionState` | eee_agent/changesets/repository.py:2209-2230 | Compare-and-set along the transition table. |
| `Transitions.ProposesIff` | eee_agent/changesets/repository.py:1484-1602 | A new change is stored, awaiting approval with exactly the request given, if and only if its session and run are known and the request is a pending one for this very change under an unused id; nothing else changes. |
| `Transitions.DecidesIff` | eee_agent/changesets/repository.py:1604-1824 | A decision is taken if and only if the approval is pending and the digest is the one stored. It is Expired if and only if now is later than the expiry, whatever was asked; in time it is Approved, bound to the given scene, if and only if that was asked, and Rejected otherwise; row, time and author agree. |
| `Transitions.DecidesNot` | eee_agent/changesets/repository.py:1604-1711 | Which refusal a decision meets: an unknown change, another digest, an expired approval, one decided before. |
| `Transitions.BeginsIff` | eee_agent/changesets/repository.py:1828-1885 | An apply begins if and only if the change is Approved for its own scene and its approval was used before or is still in time; the first time uses it up, a later one leaves it as it is. |
| `Transitions.CompletesIff` | eee_agent/changesets/repository.py:1887-1946 | A first receipt is stored, with the state its status calls for, if and only if the change is being applied and the receipt is from its scene or claims no outcome. |
| `Transitions.BootstrapsIff` | eee_agent/changesets/repository.py:1948-2091 | With a first manifest: if and only if the receipt is a success, the manifest is of its session, run and scene and of the one workspace its creates name, and neither workspace nor session is taken. |
| `Transitions.RecoversIff` | eee_agent/changesets/repository.py:2093-2190 | Back to Approved exactly from Applying, to Recovered exactly from CriticalRecovery; approval and receipt stay. |
| `Transitions.RunsRemember` | eee_agent/changesets/repository.py:1484-2190 | Over any run no record is lost or rewritten: ChangeSets, approval requests, receipts and manifests stay, decisions only go forward, and the scene an approval was given for never changes. |
| `Transitions.RunsReferenced` | eee_agent/changesets/repository.py:1484-2190 | After every run stored changes are of known sessions and runs, approval ids are unique, and each session works in a workspace of its own. |
| `RepositorySpec.RunsKeep` | eee_agent/changesets/repository.py:104-129 | After every run of the combined transactions: AwaitingApproval iff Pending; Approved has an Approved or Consumed approval; Applying and later a Consumed one bound to the change; what was approved, rejected or consumed was so no later than its expiry, and what expired was decided after it; a receipt iff settled, agreeing with the state; Proposed and Stale never committed. |
| `RepositorySpec.PerformKeeps` | eee_agent/changesets/repository.py:1484-2190 | Each transaction keeps that invariant. |
| `RepositorySpec.ConsumedForever` | eee_agent/changesets/repository.py:2281-2320 | A consumed approval is never consumed or rewritten again, over any run. |
| `RepositorySpec.RunsLog` | eee_agent/changesets/repository.py:1517-2190 | After every run the events of each change fold to its stored state, each starting where the previous ended, along legal transitions. |
| `RepositorySpec.PerformLogs` | eee_agent/changesets/repository.py:1517-2190 | Each transaction keeps the log in step and only appends to it. |
| `RepositorySpec.AppliedOnce` | eee_agent/changesets/repository.py:104-129 | In a legal log a change is reported applied at most once, and nothing follows. |
| `EventLog.RunsLogAll` | eee_agent/changesets/repository.py:1484-2190 | After every run the log tells for each change the decision that is stored (a consumed approval as approved), exactly the stored outcome, and exactly the first manifests that exist. |
| `EventLog.ReportsAppended` | eee_agent/changesets/repository.py:1484-2190 | Every transaction appends exactly the events it returns for notification. |
| `RepositorySpec.RepeatedProposal` | eee_agent/changesets/repository.py:1518-1529 | Proposing a stored change again reports its present state and appends nothing; another ChangeSet under its id is refused. |
| `RepositorySpec.RepeatedCompletion` | eee_agent/changesets/repository.py:1914-1921 | Completing again changes nothing and succeeds if and only if the receipt is the stored one, carries no error code, and the change was not resolved to Recovered. |
| `Service.ChangeSetService.RecoverOne` | eee_agent/changesets/service.py:561-642 | Recovery equals the specified verdict on what the bridge answered, asks for the receipt first and for the facts only if there is none, and never asks for a write. It stays open, with the tables unchanged, if and only if the bridge is away. |
| `Service.ChangeSetService.RecoverCritical` | eee_agent/changesets/service.py:473-552 | The manual exit equals its specified verdict and never asks for a write. It stays open, with the tables unchanged, if and only if the preflight failed for now. |
| `Evidence.WaitsIff` | eee_agent/changesets/service.py:586-610 | A recovery waits if and only if the receipt query failed for now, or there is no receipt and the preflight failed for now. |
| `Evidence.RecoversTo` | eee_agent/changesets/service.py:561-642 | Told from the answers alone, exactly when an interrupted change becomes Approved, RolledBack or CriticalRecovery, that it becomes Applied only on evidence, and that it stays Applying only if the bridge is away or a first manifest cannot be stored. |
| `Evidence.RecoveryStores` | eee_agent/changesets/service.py:586-642 | What is stored: a fitting receipt as it is; otherwise one that claims no operation and admits that the scene may have changed, or, when the scene shows the change done, one that names every operation. |
| `Evidence.LeavesCriticalIff` | eee_agent/changesets/service.py:473-552 | A critical change stays if and only if the preflight failed for now, or reported facts of its scene without all its postconditions; otherwise it becomes Recovered and nothing but its state changes. |
| `ApplyCalls.RecoversNothing` | eee_agent/changesets/service.py:561-584 | Recovery leaves every change alone that is not being applied: a settled one is answered from its receipt, any other by its state. |
| `ApplyCalls.ExitsNothing` | eee_agent/changesets/service.py:473-512 | So does the manual exit with every change that does not wait for it. |
| `Service.ChangeSetService.Apply` | eee_agent/changesets/service.py:410-461 | Equals the specified call on what the bridge answered; sends exactly the requests that specification names: one, behind the barrier and with the approval consumed, or none. |
| `Evidence.AppliesNothing` | eee_agent/changesets/service.py:410-432 | A settled change is only read back, and one whose interrupted attempt cannot be told yet is left alone: no request, and the tables stay. |
| `Evidence.AppliesOnReply` | eee_agent/changesets/service.py:433-461 | A fitting reply is what is stored and what is answered. |
| `ApplyCalls.RequestsIff` | eee_agent/changesets/service.py:410-461 | An apply call sends a request, exactly one and for the stored change, if and only if no other change is being applied or unresolved, its workspace is that of its session, and it is Approved for its own scene with an approval used before or still in time, or was interrupted and found never to have begun. |
| `ApplyCalls.AppliesOnSilence` | eee_agent/changesets/service.py:433-461 | A request without a fitting reply ends in the state that the answers to the recovery after it call for; the call reports what was stored, and fails if nothing is settled. |
| `Evidence.ManifestOfSession` | eee_agent/changesets/service.py:734-742 | A request carries the stored manifest of the workspace the change names, and only if that is of its session; none if it names none. |
| `Service.ChangeSetService.Attempt` | eee_agent/changesets/service.py:433-461 | A request is sent exactly when the barrier is clear, the workspace is found and the change crosses from Approved into Applying; then the receipt is stored or the attempt recovered. |
| `ServiceRuns.ApplyIsChain` | eee_agent/changesets/service.py:410-461 | One apply call with honest answers, whatever happens between request and reply, is a chain of steps of the system: a recovery if one is due, the request, what the bridge does, and the delivery or a second recovery. |
| `ServiceRuns.CallKeeps` | eee_agent/changesets/service.py:410-642 | Apply, recovery and manual exit each keep the invariant of the system. |
| `ServiceRuns.ServiceScene` | eee_agent/changesets/service.py:410-642 | Over every run of service calls: at rest, with no outcome waiting for the user, the scene is the one the account was opened with plus exactly the changes logged as applied since; at most one change is under way or unresolved. |
| `ServiceRuns.ApplyKeeps` | eee_agent/changesets/service.py:410-461 | The class itself: after a call in a system that satisfies the invariant, every honest course leads to a system with the database the call left, and the invariant holds again. |
| `ServiceSpec.BackToApprovedIff` | eee_agent/changesets/service.py:605-621 | A change goes back to Approved if and only if no receipt exists and all preconditions were reported to hold. |
| `ServiceSpec.AppliedOnEvidence` | eee_agent/changesets/service.py:561-642 | A recovery calls a change applied if and only if there is a fitting success receipt, or facts under which preconditions fail and at least one, and every, expected postcondition holds. |
| `ServiceSpec.HalfCreatedIsResolved` | eee_agent/changesets/service.py:526-537 | If anything to be created is still in the live scene, preflight raises, and the outcome is resolved as if the scene were gone. |
| `CriticalScenes.RefusedInScene` | eee_agent/changesets/service.py:473-552 | In a live scene bound to the change, wherever its run was interrupted: the manual exit is refused if and only if none of the nodes it creates is there and not all its postconditions hold. |
| `CriticalScenes.KnownAfterIff` | houdini_side/changeset_executor.py:341-420 | Preflight can look at what an interrupted change left if and only if no node is there that was not before. |
| `ServiceSpec.StartKeepsSingleFlight` | eee_agent/changesets/service.py:722-732 | The barrier: entering Applying keeps at most one change under way or unresolved. |
| `ServiceSpec.RecoveryIsAct` | eee_agent/changesets/service.py:561-642 | A recovery changes the tables by at most one transaction and never begins an apply. |
| `ProtocolRuns.SceneSinceResolve` | eee_agent/changesets/service.py:410-642 | Across lost requests, replies and receipts, restarts, retries and outcomes the user resolved: whenever nothing is under way and nothing waits for the user, the scene is the one at the last manual exit (or the first one) with exactly the changes run that the event log reports as applied since. |
| `ProtocolRuns.SceneIsAccountedFor` | eee_agent/changesets/service.py:410-642 | As long as nothing was left to the user, that is the first scene with exactly the changes run that the event log reports as applied. |
| `ProtocolRuns.SettledMeans` | eee_agent/changesets/service.py:410-642 | At the step that makes a row Applied the scene is the accounted one before it plus all its writes; at a step that made it RolledBack it would be the one before (no run takes such a step, see `Unreadable.NeverRolledBack`). |
| `ProtocolRuns.AlwaysSingleFlight` | eee_agent/changesets/service.py:722-732 | Over every run of serialized calls at most one change is Applying or CriticalRecovery, and tables and log agree. |
| `ProtocolRuns.NextKeeps` | eee_agent/changesets/service.py:410-642 | Every single step of the system keeps the invariant behind these, with the account it leads to. |
| `ProtocolSafety.Executed` | houdini_side/changeset_executor.py:1563-1682 | One execution of a request that has not run leaves a reachable scene and a truthful receipt. |
| `ProtocolSafety.SettlesTruly` | eee_agent/changesets/service.py:561-642 | A recovery that settles a change says what the scene shows. |
| `SystemRun.OneChangeApplied` | eee_agent/changesets/service.py:410-461 | The laws are not about nothing: a run of five steps takes a change from its proposal to Applied and moves the scene. |
| `SystemRun.OneCallApplied` | eee_agent/changesets/service.py:410-461 | The same as a run of calls: the last three steps are one apply call with an honest course. |
| `Unreadable.NeverRolledBack` | eee_agent/changesets/codec.py:682-724 | Because failing receipts cannot be decoded, no run of the system ever records a change as RolledBack. |
| `Unreadable.OnlyAppliedIsTold` | eee_agent/houdini_bridge/client.py:989-1041 | A receipt query after a request has run answers with the receipt if and only if the change was applied; any failing receipt cannot be decoded and reads as a permanent error. |
| `Unreadable.RollbackReadsAsCritical` | eee_agent/changesets/service.py:586-603 | From the cached receipt of a clean rollback: the query for it is a permanent error, and the recovery records the change as critical. |
| `RecoveryGap.UncoveredIsCalledApplied` | eee_agent/changesets/service.py:623-642 | Recovery does not ask whether the carried postconditions are the derived ones: a concrete change whose write is missing is called applied. |
| `Codec.ReceiptRoundTrip` | eee_agent/changesets/codec.py:169-184 | A receipt survives encode and decode if and only if it carries no error code. |
| `CodecRecords.ChangeSetRoundTrip` | eee_agent/changesets/codec.py:579-638 | A ChangeSet survives encode and decode if and only if it can be constructed. |
| `CodecRecords.OperationRoundTrip` | eee_agent/changesets/codec.py:324-363 | Every operation survives. |
| `CodecRecords.ConditionRoundTrip` | eee_agent/changesets/codec.py:366-434 | Every condition survives. |
| `CodecRecords.DecodedIsValid` | eee_agent/changesets/codec.py:579-638 | Whatever the decoder returns had exactly the required keys and could have been constructed. |
| `CodecRecords.ManifestRoundTrip` | eee_agent/changesets/codec.py:544-576 | A manifest survives if and only if its structure holds up and its revision is that of its facts. |
| `UnionFind.MeshComponentCount` | eval/geometry_assertions.py:156-171 | The count is the number of connected components of the relation of sharing a face, lone vertices included. |
| `UnionFind.Find` | eval/geometry_assertions.py:158-162 | Finds the root of the tree, terminates, and halving changes no root. |
| `UnionFind.Union` | eval/geometry_assertions.py:164-169 | Joining two roots joins exactly the two components of the linked vertices. |
| `UnionFind.LinkJoins` | eval/geometry_assertions.py:164-169 | One more link connects exactly what was connected or lies on its two sides. |
| `UnionFind.JoinedConnects` | eval/geometry_assertions.py:164-169 | Linking every vertex of a face to its first one connects what sharing a face connects. |
| `Layout.LayeredLayout` | houdini_side/changeset_executor.py:936-974 | Terminates on every graph; distinct nodes get distinct positions; without cycles a column is the longest way upstream and every edge goes strictly right. The nodes of a column stand one step below each other in the order given. |
| `Layout.DepthTable.Depth` | houdini_side/changeset_executor.py:952-961 | The memoised recursion terminates on cyclic graphs and is exact on acyclic ones. |
| `BoundingBox.TransformBox` | houdini_side/changeset_executor.py:1229-1254 | The result is tight around the images of the corners with a nonzero weight, or the input if there is none. |
| `BoundingBox.ContainsImages` | houdini_side/changeset_executor.py:1229-1254 | For affine matrices the result contains the image of every point of the box. |
| `BoundingBox.LeastBox` | houdini_side/changeset_executor.py:1229-1254 | For affine matrices no smaller box contains all images. |
| `SceneScan.ScanScene` | houdini_side/workspace_inspector.py:117-148 | On a tree: the levels one after the other, each the children of the previous one in order, every node below the root exactly once, or the too-large error if and only if there are more than the bound; terminates on any graph. |
| `SceneScan.RequireUniqueIds` | houdini_side/workspace_inspector.py:157-169 | Conflicts if and only if a wanted id occurs twice; otherwise finds exactly the live wanted ids. |
| `SceneScan.ClashMeans` | houdini_side/workspace_inspector.py:157-169 | On a scan without repetitions a clash is two different nodes with one id. |
| `Workspace.HealthyIffAgrees` | eee_agent/changesets/workspace_service.py:386-444 | Healthy if and only if the live facts agree with the manifest: the final comparison of revisions never changes the verdict. |
| `Workspace.ConflictIff` | eee_agent/changesets/workspace_service.py:386-444 | Conflict if and only if something foreign was seen, or every node was and the first that differs differs in what it is. |
| `Workspace.BindsIff` | eee_agent/changesets/workspace_service.py:517-572 | A bind is possible if and only if the selection shows every node of the manifest as it is known, and nothing else. |
| `Workspace.SelectionRefused` | eee_agent/changesets/workspace_service.py:311-346 | Why a selection is refused: empty, without metadata, incomplete or of another schema, or of more than one workspace or run; locked only if none of these. |
| `Workspace.HealthyAfterBind` | eee_agent/changesets/workspace_service.py:517-572 | Inspecting the unchanged scene right after a bind is Healthy. |
| `Workspace.BindKeepsIdentity` | eee_agent/changesets/repository.py:639-660 | A bind keeps node ids, root ids, types, capabilities, roles, session and creating run. |
| `Workspace.BindsKeepIdentity` | eee_agent/changesets/repository.py:639-660 | So does any sequence of binds. |
| `Workspace.WorkspaceStore.Bind` | eee_agent/changesets/workspace_service.py:517-572 | A bind stores the refreshed manifest or nothing, and changes no identity. |
| `Workspace.WorkspaceStore.BindWorkspace` | eee_agent/changesets/repository.py:886-960 | Compare and update; an unchanged manifest stores and reports nothing. |
| `Workspace.WorkspaceStore.Switch` | eee_agent/changesets/workspace_service.py:590-637 | Switches if and only if the expected workspace is active and the scene agrees with the manifest. |
| `Hom.Scene.SetParm` | houdini_side/changeset_executor.py:3003-3011 | The assumed scene: a parameter write that returns has taken effect; one that raises may have. |

## Left out

- Executor.ChangeSetExecutor.Apply: revisions, timestamps and the texts of errors in receipts are not modelled; an error
  code is only known to be present or absent.
- Executor.ChangeSetExecutor.SampleSensitivity: cooking and the geometry results of a sample are outside the model; a cook
  that raises is a failing read.
- WeakestPre.DerivedConditionsAreExact: identity and absence conditions are hypotheses, because a run does not need them
  (`LocatedRuns.MovedTargetRuns`); the exact condition without them is `LocatedRuns.LocatedRunIff`.
- WeakestPre.RunIff: has the same hypotheses.
- ProtocolRuns.SceneSinceResolve: says nothing while an outcome waits for the user, and nothing after a manual exit taken
  while requests could still be on their way, until the next one taken with none; sampling and scratch operations are not
  steps of that system.
- RecoveryTruth.DoneIff: speaks of scenes where the references name their nodes and what is to be written exists.
- Pins.PreconditionsPin: swallowed reads in the preflight of a recovery are outside the service and system laws.
- Service.ChangeSetService.RecoverOne: a bridge that is not configured at all is the same as one that answers "not available".
- CriticalScenes.RefusedInScene: facts are maps, so the checks for repeated keys and for the kinds of the condition results
  hold by construction; only their number is compared.
- Codec.ReceiptRoundTrip: revisions and the completion time are not among the fields; condition results are their verdicts.
- CodecRecords.ChangeSetRoundTrip: a set is stored as some list of its elements, the sorted order is not modelled; base
  revision, creation time and schema version are not among the fields.
- CodecRecords.ManifestRoundTrip: the update time and the schema version are not among the fields.
- UnionFind.MeshComponentCount: reading the file, including negative indices, is outside; faces come as lists of valid indices.
- SceneScan.ScanScene: a child list that cannot be read is outside the model.
- Approval records have no codec here: they would only add an easy member.
- Captures, scratch sandboxes, node deletion, the socket, the handshake and the queue itself are not modelled.
- Plain row primitives that bypass the combined transactions (`insert_*`, `transition_changeset`, `update_approval`,
  `consume_approval`) are not modelled, nor are SQL text, row decoding and storage digests.
- Choosing what to cook or render, the agent middleware, prompts, tracing and the panels are not modelled.
