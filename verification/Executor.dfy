/** The transactional executor: ordered effects with a journal, reverse rollback, classification, receipt cache. */
module Executor {
  import opened Wrappers
  import opened Contracts
  import opened SceneGraph
  import opened Transactions
  import opened Glances
  import opened Preflight
  import opened Hom
  import opened Admission
  import opened SeenGate
  import opened LostWires
  import opened ExecutorSpec
  import opened Restoring
  import opened Served
  import opened TrackedSteps
  import Sampling = SamplingSpec

  class ChangeSetExecutor {
    const scene: Scene
    const cacheMax: nat
    var binding: Binding
    var cache: Cache
    var frozen: bool
    /** The created identities and the run of the transaction at work. */
    var env: TxEnv
    /** The transaction at work: nodes by mirrored id, inverses, and operations done. */
    var index: Index
    var journal: seq<Inverse>
    var applied: seq<string>
    /** The journal as true reads would have made it. */
    ghost var truth: seq<Inverse>

    ghost predicate Valid()
      reads this, scene
    {
      Tree(scene.graph) && CacheOk(cache, cacheMax)
    }

    ghost function View(): BridgeState
      reads this, scene
    {
      BridgeState(scene.graph, cache, frozen)
    }

    constructor (scene: Scene, binding: Binding, cacheMax: nat)
      requires Tree(scene.graph) && cacheMax > 0
      ensures this.scene == scene && this.binding == binding && this.cacheMax == cacheMax
      ensures Valid() && View() == BridgeState(scene.graph, [], false)
    {
      this.scene, this.binding, this.cacheMax := scene, binding, cacheMax;
      cache, frozen := [], false;
      env := TxEnv(map[], "", map[]);
      index, journal, applied, truth := map[], [], [], [];
    }

    // ---- forward operations ----------------------------------------------

    /** What holds in every transaction, even if a node of an id in use went unseen. */
    ghost predicate Running()
      reads this, scene
    {
      && Tree(scene.graph) && IndexWithin(scene.graph, index) && env.defaults == scene.defaults
      && MadeBelowRoot(journal) && (scene.misread ==> scene.faulted)
    }

    ghost predicate InTx(g0: Graph, ops: seq<Operation>)
      reads this, scene
    {
      Tracked(g0, scene.graph, FootprintOf(ops), truth, journal, scene.misread)
    }

    /** At operation `k`; the rest is known if every node of an id in use was seen. */
    ghost predicate Executing(g0: Graph, ops: seq<Operation>, k: nat, told: bool)
      reads this, scene
    {
      && Running() && k < |ops|
      && (told ==> InTx(g0, ops) && Ready(scene.graph, env, ops, k))
    }

    /** After operation `k`, or after it raised. */
    ghost predicate Stepped(g0: Graph, ops: seq<Operation>, k: nat, told: bool, raised: bool, g: Graph,
                            before: seq<Inverse>)
      reads this, scene
      requires k < |ops|
    {
      && StepKept(g0, g, env, ops, k, told, raised, scene.graph, before, truth, journal, scene.faulted, scene.misread)
      && (!raised ==> Running())
    }

    /** The identity check on a created node before it is used. */
    method VerifyCreatedIdentity(p: Path, r: NodeRef) returns (raised: bool)
      requires IsCreatedRef(env, r)
      modifies scene`faulted
      ensures raised ==> scene.faulted || !VerifiedCreated(scene.graph, env, p, r)
      ensures !raised ==> VerifiedCreated(scene.graph, env, p, r) && scene.faulted == old(scene.faulted)
      ensures old(scene.faulted) ==> scene.faulted
    {
      raised := scene.Read();
      if !raised { raised := !VerifiedCreated(scene.graph, env, p, r); }
    }

    /** A reference is used only if it resolved, and if it was created here, only as the node it names. */
    method VerifyUse(f: Found, r: NodeRef) returns (raised: bool)
      modifies scene`faulted
      ensures raised ==> scene.faulted || !f.At? || !UseOk(scene.graph, env, f.path, r)
      ensures !raised ==> f.At? && UseOk(scene.graph, env, f.path, r)
      ensures old(scene.faulted) ==> scene.faulted
    {
      raised := scene.Read();
      if raised || !f.At? { return true; }
      if IsCreatedRef(env, r) { raised := VerifyCreatedIdentity(f.path, r); }
    }

    method SetMirror(p: Path, key: MirrorKey, v: string, ghost base: Graph, ghost intended: map<MirrorKey, string>)
      returns (raised: bool)
      requires Mirroring(base, scene.graph, p, intended) && key in intended && v == intended[key]
      modifies scene
      ensures Mirroring(base, scene.graph, p, intended)
      ensures !raised ==> scene.graph[p].mirror == old(scene.graph[p].mirror)[key := v]
      ensures !raised ==> scene.faulted == old(scene.faulted)
      ensures raised ==> scene.faulted
      ensures scene.misread == old(scene.misread)
    {
      MirrorStep(base, scene.graph, p, intended, key);
      raised := scene.SetUserData(p, key, v);
    }

    /** Mirrors the six ownership keys, the node id first; any step may fail. */
    method MirrorIdentity(p: Path, op: Operation) returns (raised: bool)
      requires op.CreateNode? && p in scene.graph && scene.graph[p].mirror == map[]
      modifies scene
      ensures Mirroring(old(scene.graph), scene.graph, p, FullMirror(env, op))
      ensures !raised ==> scene.graph[p].mirror == FullMirror(env, op) && scene.faulted == old(scene.faulted)
      ensures !raised ==> MirrorOf(scene.graph[p], NodeIdKey) == Some(op.nodeId)
      ensures raised ==> scene.faulted
      ensures scene.misread == old(scene.misread)
    {
      ghost var base, intended := scene.graph, FullMirror(env, op);
      raised := SetMirror(p, NodeIdKey, op.nodeId, base, intended);
      if raised { return; }
      raised := SetMirror(p, WorkspaceKey, op.workspaceId, base, intended);
      if raised { return; }
      raised := SetMirror(p, CapabilityKey, op.capability, base, intended);
      if raised { return; }
      raised := SetMirror(p, RoleKey, op.role, base, intended);
      if raised { return; }
      raised := SetMirror(p, SchemaKey, SUPPORTED_SCHEMA, base, intended);
      if raised { return; }
      raised := SetMirror(p, RunKey, env.runId, base, intended);
    }

    method ExecuteCreate(op: Operation, ghost g0: Graph, ghost ops: seq<Operation>, ghost k: nat, ghost told: bool)
      returns (raised: bool)
      requires Executing(g0, ops, k, told) && ops[k] == op && op.CreateNode?
      modifies scene, this`index, this`journal, this`applied, this`truth
      ensures Stepped(g0, ops, k, told, raised, old(scene.graph), old(truth))
      ensures !raised ==> applied == old(applied) + [op.opId]
      ensures raised ==> applied == old(applied) || (scene.faulted && applied == old(applied) + [op.opId])
      ensures old(scene.faulted) ==> scene.faulted
      ensures old(scene.misread) ==> scene.misread
    {
      hide Tracked, Ready, IndexWithin, ExecOp, Write, VerifiedCreated, Resolve, FullMirror, Lookup, Tree, StepKept,
        MadeBelowRoot, CreatedPath, FootprintOf, UseOk;
      ghost var g, mis := scene.graph, scene.misread;
      ResolveInScene(g, index, op.parent);
      if told { CreateChecks(g, index, env, ops, k); }
      var f := Resolve(scene.graph, index, op.parent);
      raised := VerifyUse(f, op.parent);
      if !raised { raised := scene.CreateNode(f.path, op.kind, op.name); }
      if raised {
        KeptUnmoved(g0, g, env, ops, k, told, truth, journal, scene.faulted, mis, scene.misread);
        return;
      }
      var p := f.path + [op.name];
      ghost var t := UndoCreate(CreatedPath(op), FullMirror(env, op), CreatedPath(op));
      journal, truth := journal + [UndoCreate(CreatedPath(op), FullMirror(env, op), p)], truth + [t];
      applied := applied + [op.opId];
      index := index[op.nodeId := Lookup(index, op.nodeId) + {p}];
      raised := MirrorIdentity(p, op);
      assert scene.graph == g[p := scene.graph[p]];
      KeptCreate(g0, g, env, ops, k, told, raised, f.path, scene.graph[p], old(truth), old(journal), scene.faulted,
                 scene.misread);
      if !raised {
        WithinAdded(g, old(index), p, scene.graph[p], op.nodeId);
        KeptRunning(g0, g, env, ops, k, told, scene.graph, old(truth), truth, journal, scene.faulted, scene.misread);
      }
    }

    method ExecuteSetParm(op: Operation, ghost g0: Graph, ghost ops: seq<Operation>, ghost k: nat, ghost told: bool)
      returns (raised: bool)
      requires Executing(g0, ops, k, told) && ops[k] == op && op.SetParm?
      modifies scene, this`journal, this`applied, this`truth
      ensures Stepped(g0, ops, k, told, raised, old(scene.graph), old(truth))
      ensures !raised ==> applied == old(applied) + [op.opId]
      ensures raised ==> applied == old(applied) || (scene.faulted && applied == old(applied) + [op.opId])
      ensures old(scene.faulted) ==> scene.faulted
      ensures old(scene.misread) ==> scene.misread
    {
      hide Tracked, Ready, IndexWithin, ExecOp, Write, VerifiedCreated, Resolve, Tree, StepKept, MadeBelowRoot, FootprintOf,
        UseOk;
      ghost var g, mis := scene.graph, scene.misread;
      if told { ParmChecks(g, index, env, ops, k); }
      var f := Resolve(scene.graph, index, op.target);
      raised := VerifyUse(f, op.target);
      if raised || ParmAt(scene.graph, f.path, op.parm) != Some(op.expectedOld) {
        KeptUnmoved(g0, g, env, ops, k, told, truth, journal, scene.faulted, mis, scene.misread);
        return true;
      }
      var current := ParmAt(scene.graph, f.path, op.parm);
      var inv := UndoParm(op.target, op.parm, current.value);
      journal, truth := journal + [inv], truth + [inv];
      raised := scene.SetParm(f.path, op.parm, op.value);
      KeptParm(g0, g, env, ops, k, told, raised, scene.graph, f.path, old(truth), old(journal), scene.faulted,
               scene.misread);
      if raised { return; }
      applied := applied + [op.opId];
      WithinKept(g, scene.graph, index);
      KeptRunning(g0, g, env, ops, k, told, scene.graph, old(truth), truth, journal, scene.faulted, scene.misread);
    }

    /** Both ends first, then the wire that is there against the one expected. */
    method CheckConnect(op: Operation, f: Found, s: Found, ghost ops: seq<Operation>, ghost k: nat, ghost told: bool)
      returns (raised: bool, prior: Option<WireRef>)
      requires k < |ops| && ops[k] == op && op.ConnectInput? && (scene.misread ==> scene.faulted)
      requires told ==> IndexWithin(scene.graph, index) && Ready(scene.graph, env, ops, k) && f == At(op.target.path)
                        && s == At(op.source.path) && UseOk(scene.graph, env, f.path, op.target)
                        && UseOk(scene.graph, env, s.path, op.source)
      modifies scene`faulted, scene`misread
      ensures told && raised ==> scene.faulted || !ConnectExpected(scene.graph, env, op)
      ensures !raised ==> f.At? && s.At? && ShownSource(ReadWire(scene.graph, f.path, op.input), prior)
                          && (!scene.misread ==> prior == ReadWire(scene.graph, f.path, op.input))
      ensures told && !raised && !scene.misread ==> ConnectExpected(scene.graph, env, op)
      ensures old(scene.faulted) ==> scene.faulted
      ensures old(scene.misread) ==> scene.misread
      ensures scene.misread ==> scene.faulted
    {
      hide Ready, IndexWithin, VerifiedCreated, WireEqual, ReadWire, ShownSource, OldSourceOk, UseOk;
      prior := None;
      raised := scene.Read();
      if raised || !f.At? || !s.At? { return true, None; }
      raised := VerifyEndpoints(op, f.path, s.path);
      if raised { return; }
      prior := ReadInput(f.path, op.input);
      if !WireEqual(prior, op.expectedOldSource) { return true, prior; }
      raised := VerifyOldSource(op, ops, k, told);
    }

    /** The wire that is replaced is journaled as it was read: without a source, if reading the inputs raised. */
    method ExecuteConnect(op: Operation, ghost g0: Graph, ghost ops: seq<Operation>, ghost k: nat, ghost told: bool)
      returns (raised: bool)
      requires Executing(g0, ops, k, told) && ops[k] == op && op.ConnectInput?
      modifies scene, this`journal, this`applied, this`truth
      ensures Stepped(g0, ops, k, told, raised, old(scene.graph), old(truth))
      ensures !raised ==> applied == old(applied) + [op.opId]
      ensures raised ==> applied == old(applied) || (scene.faulted && applied == old(applied) + [op.opId])
      ensures old(scene.faulted) ==> scene.faulted
      ensures old(scene.misread) ==> scene.misread
    {
      hide Tracked, Ready, IndexWithin, ExecOp, Write, VerifiedCreated, Resolve, Tree, StepKept, MadeBelowRoot, FootprintOf,
        WireEqual, ReadWire, ShownSource, OldSourceOk, UseOk, IsCreatedRef;
      ghost var g, mis := scene.graph, scene.misread;
      ResolveInScene(g, index, op.target);
      if told { ConnectChecks(g, index, env, ops, k); }
      var f, s := Resolve(scene.graph, index, op.target), Resolve(scene.graph, index, op.source);
      var prior;
      raised, prior := CheckConnect(op, f, s, ops, k, told);
      if raised {
        KeptUnmoved(g0, g, env, ops, k, told, truth, journal, scene.faulted, mis, scene.misread);
        return;
      }
      ghost var t := UndoWire(op.target, op.input, ReadWire(g, f.path, op.input));
      if told { TrackedAnyway(g0, g, FootprintOf(ops), truth, journal, mis, scene.misread); }
      journal, truth := journal + [UndoWire(op.target, op.input, prior)], truth + [t];
      raised := scene.SetInput(f.path, op.input, Some(Wire(s.path, op.output)));
      KeptWire(g0, g, env, ops, k, told, raised, scene.graph, f.path, s.path, prior, old(truth), old(journal),
               scene.faulted, scene.misread);
      if raised { return; }
      applied := applied + [op.opId];
      WithinKept(g, scene.graph, index);
      KeptRunning(g0, g, env, ops, k, told, scene.graph, old(truth), truth, journal, scene.faulted, scene.misread);
    }

    /** The source of an input as guarded reads tell it. */
    method ReadInput(p: Path, i: nat) returns (source: Option<WireRef>)
      requires scene.misread ==> scene.faulted
      modifies scene`faulted, scene`misread
      ensures ShownSource(ReadWire(scene.graph, p, i), source)
      ensures source != ReadWire(scene.graph, p, i) ==> scene.faulted && scene.misread
      ensures old(scene.faulted) ==> scene.faulted
      ensures old(scene.misread) ==> scene.misread
      ensures scene.misread ==> scene.faulted
    {
      var v := scene.Glance();
      ShownWire(scene.graph, v, p, i);
      source := ReadWire(v, p, i);
    }

    /** An expected old source that this transaction created has its full identity checked as well. */
    method VerifyOldSource(op: Operation, ghost ops: seq<Operation>, ghost k: nat, ghost told: bool)
      returns (raised: bool)
      requires k < |ops| && ops[k] == op && op.ConnectInput?
      requires told ==> IndexWithin(scene.graph, index) && Ready(scene.graph, env, ops, k)
      modifies scene`faulted
      ensures told && raised ==> scene.faulted || !OldSourceOk(scene.graph, env, op.expectedOldSource)
      ensures told && !raised ==> OldSourceOk(scene.graph, env, op.expectedOldSource)
      ensures old(scene.faulted) ==> scene.faulted
    {
      hide IndexWithin, Ready, VerifiedCreated, Resolve, Locate;
      raised := false;
      var prior := op.expectedOldSource;
      if prior.Some? && IsCreatedRef(env, prior.value.source) {
        var q := Resolve(scene.graph, index, prior.value.source);
        if told { OldSourceFound(scene.graph, index, env, ops, k); }
        if !q.At? { return true; }
        raised := VerifyCreatedIdentity(q.path, prior.value.source);
      }
    }

    method VerifyEndpoints(op: Operation, target: Path, source: Path) returns (raised: bool)
      requires op.ConnectInput?
      modifies scene`faulted
      ensures raised ==> scene.faulted || !UseOk(scene.graph, env, target, op.target)
                         || !UseOk(scene.graph, env, source, op.source)
      ensures !raised ==> UseOk(scene.graph, env, target, op.target) && UseOk(scene.graph, env, source, op.source)
      ensures !raised ==> scene.faulted == old(scene.faulted)
      ensures old(scene.faulted) ==> scene.faulted
    {
      raised := false;
      if IsCreatedRef(env, op.target) {
        raised := VerifyCreatedIdentity(target, op.target);
        if raised { return; }
      }
      if IsCreatedRef(env, op.source) {
        raised := VerifyCreatedIdentity(source, op.source);
      }
    }

    method ExecuteOp(op: Operation, ghost g0: Graph, ghost ops: seq<Operation>, ghost k: nat, ghost told: bool)
      returns (raised: bool)
      requires Executing(g0, ops, k, told) && ops[k] == op
      modifies scene, this`index, this`journal, this`applied, this`truth
      ensures Stepped(g0, ops, k, told, raised, old(scene.graph), old(truth))
      ensures !raised ==> applied == old(applied) + [op.opId]
      ensures raised ==> applied == old(applied) || (scene.faulted && applied == old(applied) + [op.opId])
      ensures old(scene.faulted) ==> scene.faulted
      ensures old(scene.misread) ==> scene.misread
    {
      hide Running, InTx, Ready, StepDone, StepJournaled;
      match op {
        case CreateNode(_, _, _, _, _, _, _, _) => raised := ExecuteCreate(op, g0, ops, k, told);
        case SetParm(_, _, _, _, _) => raised := ExecuteSetParm(op, g0, ops, k, told);
        case ConnectInput(_, _, _, _, _, _) => raised := ExecuteConnect(op, g0, ops, k, told);
      }
    }

    // ---- rollback --------------------------------------------------------

    ghost predicate RollingBack(g0: Graph, fp: Footprint)
      reads this, scene
    {
      Tree(g0) && Tree(scene.graph) && Confined(g0, scene.graph, fp)
    }

    /** Destroys a created node only while it is at its path and every mirrored key is unset or as intended. */
    method RollbackCreate(inv: Inverse, ghost g0: Graph, ghost fp: Footprint, ghost index: Index, ghost told: bool)
      returns (passed: bool)
      requires inv.UndoCreate? && inv.path != [] && Tree(scene.graph)
      requires told ==> Aimed(fp, index, inv) && RollingBack(g0, fp)
      modifies scene
      ensures Tree(scene.graph)
      ensures told ==>
                RollingBack(g0, fp) && UndoDone(old(scene.graph), fp, index, inv, passed, scene.graph, scene.faulted)
      ensures old(scene.faulted) ==> scene.faulted
      ensures scene.misread == old(scene.misread)
    {
      hide Tree, Confined;
      ghost var g := scene.graph;
      if inv.made !in scene.graph {
        if told { DestroyAbsent(g, inv.path); }
        return inv.path !in scene.graph;
      }
      var raised := scene.Read();
      if raised || inv.made != inv.path { return false; }
      if !MirrorMatches(scene.graph[inv.path].mirror, inv.mirror) { return false; }
      if told { ConfinedDestroy(g0, g, fp, inv.path); }
      DestroyKeepsTree(g, inv.path);
      raised := scene.Destroy(inv.path);
      passed := !raised && inv.path !in scene.graph;
      assert inv.path !in Destroyed(g, inv.path);
    }

    method RollbackParm(inv: Inverse, index: Index, ghost g0: Graph, ghost fp: Footprint, ghost told: bool)
      returns (passed: bool)
      requires inv.UndoParm? && Tree(scene.graph)
      requires told ==> Aimed(fp, index, inv) && RollingBack(g0, fp)
      modifies scene
      ensures Tree(scene.graph)
      ensures told ==>
                RollingBack(g0, fp) && UndoDone(old(scene.graph), fp, index, inv, passed, scene.graph, scene.faulted)
      ensures old(scene.faulted) ==> scene.faulted
      ensures scene.misread == old(scene.misread)
    {
      hide Tree, Confined, SameShape;
      ghost var g := scene.graph;
      if told { AimedResolves(g, fp, index, inv); }
      var f := Resolve(scene.graph, index, inv.target);
      if !f.At? { return false; }
      if ParmAt(g, f.path, inv.parm).Some? {
        ParmKeepsTree(g, f.path, inv.parm, inv.prior);
        if told { ConfinedParm(g0, g, fp, f.path, inv.parm, inv.prior); }
      }
      var raised := scene.SetParm(f.path, inv.parm, inv.prior);
      if raised { return false; }
      raised := scene.Read();
      passed := !raised && ParmAt(scene.graph, f.path, inv.parm) == Some(inv.prior);
    }

    method RollbackWire(inv: Inverse, index: Index, ghost g0: Graph, ghost fp: Footprint, ghost told: bool)
      returns (passed: bool)
      requires inv.UndoWire? && Tree(scene.graph) && (scene.misread ==> scene.faulted)
      requires told ==> Aimed(fp, index, inv) && RollingBack(g0, fp)
      modifies scene
      ensures Tree(scene.graph) && (scene.misread ==> scene.faulted)
      ensures told ==>
                RollingBack(g0, fp) && UndoDone(old(scene.graph), fp, index, inv, passed, scene.graph, scene.faulted)
      ensures old(scene.faulted) ==> scene.faulted
      ensures old(scene.misread) ==> scene.misread
    {
      hide Tree, Confined, SameShape, Aimed, SourceAimed, SourceKnown, ReadWire, WireEqual, ShownSource, Resolve;
      ghost var g := scene.graph;
      var f := Resolve(scene.graph, index, inv.target);
      if told { AimedResolves(g, fp, index, inv); }
      if !f.At? { return false; }
      var w: Option<Wire> := None;
      if inv.source.Some? {
        var s := Resolve(scene.graph, index, inv.source.value.source);
        if told && InverseSound(g, fp, inv) && SourceAimed(index, inv) { SourceFound(g, fp, index, inv); }
        if !s.At? { return false; }
        w := Some(Wire(s.path, inv.source.value.output));
      }
      if f.path in g && Connectable(g, w) {
        InputKeepsTree(g, f.path, inv.input, w);
        if told { AimedSlot(fp, index, inv); ConfinedInput(g0, g, fp, f.path, inv.input, w); }
      }
      var raised := scene.SetInput(f.path, inv.input, w);
      if raised { return false; }
      raised := scene.Read();
      var back := ReadInput(f.path, inv.input);
      passed := !raised && WireEqual(back, inv.source);
      if told { WireUndone(g, fp, index, inv, w, back, passed, scene.faulted); }
    }

    method RollbackOne(inv: Inverse, index: Index, ghost g0: Graph, ghost fp: Footprint, ghost told: bool)
      returns (passed: bool)
      requires Tree(scene.graph) && (scene.misread ==> scene.faulted) && (inv.UndoCreate? ==> inv.path != [])
      requires told ==> Aimed(fp, index, inv) && RollingBack(g0, fp)
      modifies scene
      ensures Tree(scene.graph) && (scene.misread ==> scene.faulted)
      ensures told ==>
                RollingBack(g0, fp) && UndoDone(old(scene.graph), fp, index, inv, passed, scene.graph, scene.faulted)
      ensures old(scene.faulted) ==> scene.faulted
      ensures old(scene.misread) ==> scene.misread
    {
      hide Tree, Confined, Aimed, UndoDone;
      match inv {
        case UndoCreate(_, _, _) => passed := RollbackCreate(inv, g0, fp, index, told);
        case UndoParm(_, _, _) => passed := RollbackParm(inv, index, g0, fp, told);
        case UndoWire(_, _, _) => passed := RollbackWire(inv, index, g0, fp, told);
      }
    }

    /** Runs the inverses in strict reverse order; a failing one does not stop the rest. */
    method SafeRollback(ghost g0: Graph, ghost fp: Footprint, ghost told: bool) returns (results: seq<bool>, ok: bool)
      requires Tree(scene.graph) && MadeBelowRoot(journal) && (scene.misread ==> scene.faulted)
      requires told ==> Tracked(g0, scene.graph, fp, truth, journal, scene.misread)
      modifies scene
      ensures Tree(scene.graph) && (if ok then |results| == |journal| else results == [])
      ensures told ==> RollingBack(g0, fp)
      ensures told && ok && AllPassed(results) ==> scene.graph == UndoAll(old(scene.graph), journal)
      ensures told && !scene.faulted ==> ok && (AllPassed(results) <==> Restorable(old(scene.graph), journal))
      ensures old(scene.faulted) ==> scene.faulted
      ensures old(scene.misread) ==> scene.misread
      ensures scene.misread ==> scene.faulted
    {
      hide Tree, Confined, InverseSound, JournalOrdered, SourceAimed, SourceUnique, SourceKnown, Aimed, Tracked, Shown,
        IndexWithin, IndexExact, UndoDone;
      var raised := scene.Read();
      if told { TrackedSound(g0, scene.graph, fp, truth, journal, old(scene.misread)); }
      if raised { return [], false; }
      var v := scene.Glance();
      var index := IndexOf(v);
      ShownIndex(scene.graph, v, index);
      if told { AllAimed(scene.graph, fp, index, journal); }
      ghost var goal := UndoAll(scene.graph, journal);
      assert journal[..|journal|] == journal;
      var n := |journal|;
      results, ok := [], true;
      while n > 0
        invariant 0 <= n <= |journal| && Tree(scene.graph) && (scene.misread ==> scene.faulted)
        invariant told ==> RollingBack(g0, fp) && Unwinding(goal, scene.graph, fp, journal, n, results)
        invariant |results| == |journal| - n
        invariant told && v == old(scene.graph) && AllPassed(results) ==> AimedFrom(index, journal, n)
        invariant told && !scene.faulted && AimedFrom(index, journal, n) ==> AllPassed(results)
        invariant old(scene.faulted) ==> scene.faulted
        invariant old(scene.misread) ==> scene.misread
        invariant v != old(scene.graph) ==> scene.faulted
      {
        ghost var g := scene.graph;
        assert journal[n - 1] in journal;
        var passed := RollbackOne(journal[n - 1], index, g0, fp, told);
        if told {
          UnwindStep(goal, g, scene.graph, fp, index, journal, n, results, passed, scene.faulted);
        }
        results := results + [passed];
        n := n - 1;
      }
      assert journal[..0] == [];
      if told && v == old(scene.graph) { AimedAll(index, old(scene.graph), journal); }
    }

    // ---- apply -----------------------------------------------------------

    /** Runs the operations in order until one raises. */
    method RunOperations(ops: seq<Operation>, ghost g0: Graph, ghost told: bool) returns (raised: bool)
      requires ops != [] && Executing(g0, ops, 0, told) && g0 == scene.graph
      requires applied == [] && journal == [] && truth == []
      modifies scene, this`index, this`journal, this`applied, this`truth
      ensures Tree(scene.graph) && MadeBelowRoot(journal) && (scene.misread ==> scene.faulted)
      ensures told ==> InTx(g0, ops)
      ensures told && !scene.faulted ==> Stopped(g0, env, ops, scene.graph, truth)
      ensures told && !raised ==> scene.graph == Writes(g0, env, ops) && KindsKnown(env, ops)
      ensures told && !raised && !scene.misread ==> ExecOps(g0, env, ops) == Some(scene.graph)
      ensures applied <= OpIds(ops) && (!raised ==> applied == OpIds(ops))
      ensures told && !scene.faulted ==> applied == OpIds(ops)[..Reached(g0, env, ops, |ops|)]
      ensures told && raised ==> scene.faulted || ExecOps(g0, env, ops).None?
      ensures old(scene.faulted) ==> scene.faulted
      ensures old(scene.misread) ==> scene.misread
    {
      hide Tracked, Ready, IndexWithin, ExecOp, FootprintOf, JournalAlong, InverseOf, Reached, Tree, Write, KindsKnown, OpIds;
      JournalStart(g0, env, ops);
      NoKinds(env);
      var i := 0;
      raised := false;
      assert ops[..0] == [];
      while i < |ops|
        invariant 0 <= i <= |ops| && Running()
        invariant told ==> InTx(g0, ops) && Ready(scene.graph, env, ops, i)
        invariant told ==> scene.graph == Writes(g0, env, ops[..i]) && KindsKnown(env, ops[..i])
        invariant told && !scene.misread ==>
                    ExecOps(g0, env, ops[..i]) == Some(scene.graph) && truth == JournalAlong(g0, env, ops[..i])
        invariant applied == OpIds(ops)[..i]
        invariant old(scene.faulted) ==> scene.faulted
        invariant old(scene.misread) ==> scene.misread
      {
        ghost var g := scene.graph;
        assert ops[..i + 1][..i] == ops[..i];
        raised := ExecuteOp(ops[i], g0, ops, i, told);
        assert OpIds(ops)[..i] + [ops[i].opId] == OpIds(ops)[..i + 1];
        if raised {
          if told && !scene.faulted {
            NoneBeyond(g0, env, ops, i + 1);
            ReachedIs(g0, env, ops, |ops|, i);
          }
          return;
        }
        if told { KindsNext(env, ops, i); }
        if told && !scene.misread { JournalNext(g0, env, ops, i); }
        i := i + 1;
      }
      assert ops[..i] == ops;
      if told && !scene.misread { ReachedIs(g0, env, ops, |ops|, |ops|); }
    }

    /** Re-reads the scene and evaluates the expected postconditions, each on what is read for it. */
    method Reconcile(cs: ChangeSet) returns (raised: bool, results: seq<bool>)
      requires scene.misread ==> scene.faulted
      modifies scene`faulted, scene`misread
      ensures raised ==> results == [] && (scene.faulted || ReadBackRaises(scene.graph, cs))
      ensures !raised ==> |results| == |cs.postconditions|
                          && forall i :: 0 <= i < |results| ==> PostSeen(scene.graph, cs, cs.postconditions[i], results[i])
      ensures !raised && !scene.misread ==>
                results == PostResults(scene.graph, cs, cs.postconditions) && !ReadBackRaises(scene.graph, cs)
      ensures old(scene.faulted) ==> scene.faulted
      ensures old(scene.misread) ==> scene.misread
      ensures scene.misread ==> scene.faulted
    {
      hide ReadBackRaises, PostHolds, Shown;
      results := [];
      raised := scene.Read();
      if raised { return; }
      var ids := scene.Glance();
      if ReadBackRaises(ids, cs) { return true, []; }
      for i := 0 to |cs.postconditions|
        invariant |results| == i && (scene.misread ==> scene.faulted) && (ids != scene.graph ==> scene.misread)
        invariant forall j :: 0 <= j < i ==> PostSeen(scene.graph, cs, cs.postconditions[j], results[j])
        invariant !scene.misread ==> forall j :: 0 <= j < i ==> results[j] == PostHolds(scene.graph, cs, cs.postconditions[j])
        invariant old(scene.faulted) ==> scene.faulted
        invariant old(scene.misread) ==> scene.misread
      {
        var v := scene.Glance();
        results := results + [PostHolds(v, cs, cs.postconditions[i], ids)];
      }
    }

    /** Remembers a terminal receipt, evicting the oldest beyond the bound. */
    method CacheReceipt(key: CacheKey, r: Receipt)
      requires CacheOk(cache, cacheMax) && cacheMax > 0
      requires CacheGet(cache, key).None? && !DigestConflict(cache, key.0, key.1)
      modifies this`cache
      ensures cache == CacheAdd(old(cache), key, r, cacheMax) && CacheOk(cache, cacheMax)
      ensures cache == old(cache)[(if |old(cache)| < cacheMax then 0 else 1)..] + [(key, r)]
    {
      CacheStaysOk(cache, key, r, cacheMax);
      ghost var longer := cache + [(key, r)];
      cache := cache + [(key, r)];
      ghost var dropped := 0;
      while |cache| > cacheMax
        invariant 0 <= dropped <= |longer| && cache == longer[dropped..]
        invariant dropped > 0 ==> |cache| >= cacheMax
      {
        cache := cache[1..];
        dropped := dropped + 1;
      }
    }

    /** The forward half of a transaction: run, then reconcile. */
    method Attempt(cs: ChangeSet, ghost g0: Graph, ghost told: bool)
      returns (success: bool, post: seq<bool>, code: string)
      requires cs.operations != [] && Executing(g0, cs.operations, 0, told) && g0 == scene.graph
      requires applied == [] && journal == [] && truth == []
      requires told && !scene.misread ==> Clear(g0, cs)
      modifies scene, this`index, this`journal, this`applied, this`truth
      ensures Tree(scene.graph) && MadeBelowRoot(journal) && (scene.misread ==> scene.faulted)
      ensures told ==> InTx(g0, cs.operations)
      ensures told && !scene.faulted ==> Stopped(g0, env, cs.operations, scene.graph, truth)
      ensures told && success ==> SeenSuccess(g0, cs, env, scene.graph, applied, scene.misread)
      ensures applied <= OpIds(cs.operations)
      ensures success ==> applied == OpIds(cs.operations) && |post| == |cs.postconditions| && AllPassed(post)
      ensures told && !scene.faulted ==>
                post == VerdictsOf(g0, cs, env)
                && applied == OpIds(cs.operations)[..Reached(g0, env, cs.operations, |cs.operations|)]
      ensures told && !success ==> scene.faulted || !ShouldSucceed(g0, cs, env)
      ensures old(scene.faulted) ==> scene.faulted
      ensures old(scene.misread) ==> scene.misread
    {
      hide Tracked, Ready, IndexWithin, ExecOps, PostsHold, PostResults, AllPassed, FootprintOf, Stopped, Tree,
        ReadBackRaises, Clear, PostSeen;
      success, post := false, [];
      var raised := RunOperations(cs.operations, g0, told);
      if raised { return false, [], "apply.write_error"; }
      ghost var mis := scene.misread;
      raised, post := Reconcile(cs);
      if raised {
        if told {
          TrackedAnyway(g0, scene.graph, FootprintOf(cs.operations), truth, journal, mis, scene.misread);
          if !scene.faulted { ReadBackNever(g0, cs, env, scene.graph); }
        }
        return false, [], "apply.reconciliation_error";
      }
      if told { TrackedAnyway(g0, scene.graph, FootprintOf(cs.operations), truth, journal, mis, scene.misread); }
      if !scene.misread { PostVerdict(scene.graph, cs); }
      success := AllPassed(post);
      if success { PostsSeen(scene.graph, cs, post); }
      code := "apply.postcondition_failed";
    }

    /** Sets up the transaction state from what the gate was shown; nothing is written yet. */
    method Begin(cs: ChangeSet, ws: Option<Manifest>, sight: Sight)
      requires Tree(scene.graph) && ValidChangeSet(cs) && (scene.misread ==> scene.faulted)
      requires Sees(scene.graph, sight) && SeenAdmitted(sight, binding, cs, ws)
      modifies this`env, this`index, this`journal, this`applied, this`truth
      ensures env == EnvOf(scene.defaults, cs) && applied == [] && journal == [] && truth == [] && binding == cs.binding
      ensures Executing(scene.graph, cs.operations, 0, IdsTold(scene.graph, sight.ids, cs.operations))
    {
      hide Tree, Confined, Ready, AdmissionError, FootprintOf, Tracked, CreatedIdentity, IndexWithin, IndexExact, Shown,
        IdsTold, CreatedReferencesOk, ConsistentConditions, UniqueRefs;
      AdmittedFacts(sight.facts, binding, cs, ws, sight.ids, sight.wires, sight.start);
      env := EnvOf(scene.defaults, cs);
      index := IndexOf(sight.start);
      journal, applied, truth := [], [], [];
      ShownIndex(scene.graph, sight.start, index);
      ReadyIff(scene.graph, sight, binding, cs, ws, env);
      TrackedStart(scene.graph, cs.operations, scene.misread);
    }

    /** The write transaction of an admitted ChangeSet: it always ends in a receipt. What it promises rests on the gate
        having seen every node with an id in use. */
    method Transact(cs: ChangeSet, ws: Option<Manifest>, sight: Sight) returns (r: Receipt, ghost lost: Lost)
      requires Tree(scene.graph) && ValidChangeSet(cs) && !frozen && (scene.misread ==> scene.faulted)
      requires Sees(scene.graph, sight) && SeenAdmitted(sight, binding, cs, ws)
      requires !scene.misread ==> sight == Plain(scene.graph)
      modifies scene, this`frozen, this`env, this`index, this`journal, this`applied, this`truth
      ensures env == EnvOf(scene.defaults, cs)
      ensures Tree(scene.graph) && ReceiptShape(cs, r, frozen)
      ensures IdsTold(old(scene.graph), sight.ids, cs.operations) ==>
                TxServed(old(scene.graph), cs, env, r, scene.graph, frozen, lost, scene.misread)
      ensures !scene.faulted ==> CleanVerdict(old(scene.graph), scene.defaults, cs, r, frozen)
      ensures IdsTold(old(scene.graph), sight.ids, cs.operations) && r.status == RolledBack ==>
                (scene.graph == old(scene.graph) <==> ReadTruly(old(scene.graph), journal))
      ensures scene.misread ==> scene.faulted
      ensures old(scene.faulted) ==> scene.faulted
      ensures old(scene.misread) ==> scene.misread
    {
      hide Tree, Confined, Ready, IndexWithin, ExecOps, PostsHold, AdmissionError, FootprintOf, Tracked, CreatedIdentity,
        ShouldSucceed, Stopped, Restorable, Undoable, CreatedReferencesOk, ConsistentConditions, UniqueRefs, Sees, IdsTold,
        Clear, ReadTruly, TxServed;
      ghost var g0 := scene.graph;
      ghost var told := IdsTold(g0, sight.ids, cs.operations);
      lost := map[];
      if !scene.misread {
        ToldPlainly(g0, cs.operations);
        AdmittedClear(g0, binding, cs, ws);
      }
      Begin(cs, ws, sight);
      var success, post, code := Attempt(cs, g0, told);
      if success {
        r := Receipt(cs.changeId, Applied, binding, applied, post, [], false, None, None);
        if told {
          AppliedServed(g0, cs, env, r, scene.graph, truth, journal, scene.misread);
          if !scene.misread { SucceededShould(g0, cs, env, scene.graph, applied); }
        }
      } else {
        if told { TrackedAnyway(g0, scene.graph, FootprintOf(cs.operations), truth, journal, scene.misread, scene.misread); }
        if !scene.faulted {
          StoppedUndoable(g0, binding, cs, ws, scene.defaults, scene.graph, truth);
          StoppedLength(g0, env, cs.operations, scene.graph, truth);
        }
        r, lost := FinishFailed(cs, g0, told, post, code);
      }
    }

    /** The failing half of a transaction: roll back, classify truthfully, freeze on uncertainty. */
    method FinishFailed(cs: ChangeSet, ghost g0: Graph, ghost told: bool, post: seq<bool>, code: string)
      returns (r: Receipt, ghost lost: Lost)
      requires Tree(scene.graph) && MadeBelowRoot(journal) && (scene.misread ==> scene.faulted)
      requires told ==> InTx(g0, cs.operations)
      requires binding == cs.binding && !frozen && applied <= OpIds(cs.operations)
      modifies scene, this`frozen
      ensures r.appliedOps == applied && r.postResults == post
      ensures told && !scene.faulted ==> |r.rollbackResults| == |journal|
      ensures Tree(scene.graph) && ReceiptShape(cs, r, frozen) && r.status != Applied
      ensures told ==> TxServed(g0, cs, env, r, scene.graph, frozen, lost, scene.misread)
      ensures told && r.status == RolledBack ==> (scene.graph == g0 <==> ReadTruly(g0, journal))
      ensures told && !scene.faulted ==> (r.status == RolledBack <==> Restorable(old(scene.graph), journal))
      ensures scene.misread ==> scene.faulted
      ensures old(scene.faulted) ==> scene.faulted
      ensures old(scene.misread) ==> scene.misread
    {
      hide Tree, Confined, FootprintOf, ClassifyFailure, Tracked, AllPassed, Restorable, UndoAll, ReadTruly, LostBy, TxServed;
      ghost var h := scene.graph;
      var results, ok := SafeRollback(g0, FootprintOf(cs.operations), told);
      ClassifiedRolledBack(results, ok);
      var verdict := ClassifyFailure(results, ok);
      frozen := verdict.0 != RolledBack;
      r := Receipt(cs.changeId, verdict.0, binding, applied, post, results, verdict.1, Some(code), None);
      lost := map[];
      if told {
        lost := LostBy(g0, journal);
        FailedServed(g0, cs, env, r, h, scene.graph, frozen, truth, journal, old(scene.misread), scene.misread);
      }
    }

    /** The guarded reads of the gate and of the snapshot, each pass on its own. */
    method Look() returns (sight: Sight)
      requires scene.misread ==> scene.faulted
      modifies scene`faulted, scene`misread
      ensures Sees(scene.graph, sight) && (!scene.misread ==> sight == Plain(scene.graph))
      ensures old(scene.faulted) ==> scene.faulted
      ensures old(scene.misread) ==> scene.misread
      ensures scene.misread ==> scene.faulted
    {
      var ids := scene.Glance();
      var facts := scene.Glance();
      var wires := scene.Glance();
      var start := scene.Glance();
      sight := Sight(facts, ids, wires, start);
    }

    /** One admitted request in, one reply out; every rejection comes with zero writes. The flags of the scene tell of
        this request alone. */
    method Apply(cs: ChangeSet, ws: Option<Manifest>) returns (reply: Reply, ghost sight: Sight, ghost lost: Lost)
      requires Valid() && cacheMax > 0 && ValidChangeSet(cs)
      modifies scene, this`cache, this`frozen, this`env, this`index, this`journal, this`applied, this`truth
      ensures Valid()
      ensures ServedOutcome(old(View()), View(), binding, cacheMax, cs, ws, EnvOf(scene.defaults, cs), scene.faulted,
                            scene.misread, sight, lost, reply)
      ensures !scene.misread ==>
                ApplyOutcome(old(View()), View(), binding, cacheMax, cs, ws, EnvOf(scene.defaults, cs), scene.faulted, reply)
      ensures !scene.faulted && CacheGet(old(cache), (cs.changeId, cs)).None? && reply.Replied? ==>
                CleanVerdict(old(scene.graph), scene.defaults, cs, reply.receipt, frozen)
      ensures NewlyRolledBack(old(cache), cs, reply) && IdsTold(old(scene.graph), sight.ids, cs.operations) ==>
                (scene.graph == old(scene.graph) <==> ReadTruly(old(scene.graph), journal))
      ensures scene.misread ==> scene.faulted
    {
      hide Tree, Confined, CleanVerdict, AdmissionError, CreatedReferencesOk, ConsistentConditions, UniqueRefs, TxServed,
        ApplyOutcome, CacheOk, ExecOps, PostsHold, CacheAdd, CreatedIdentity, ShouldSucceed, Sees, IdsTold, ReadTruly,
        ReceiptShape;
      ghost var pre, env := View(), EnvOf(scene.defaults, cs);
      scene.faulted, scene.misread := false, false;
      reply, sight, lost := Rejected(WriteFrozen), Plain(scene.graph), map[];
      if !frozen {
        reply, sight, lost := Serve(cs, ws);
      }
      if !scene.misread {
        ServedTruly(pre, View(), binding, cacheMax, cs, ws, env, scene.faulted, sight, lost, reply);
      }
    }

    method Serve(cs: ChangeSet, ws: Option<Manifest>) returns (reply: Reply, ghost sight: Sight, ghost lost: Lost)
      requires Valid() && cacheMax > 0 && ValidChangeSet(cs) && !frozen && !scene.faulted && !scene.misread
      modifies scene, this`cache, this`frozen, this`env, this`index, this`journal, this`applied, this`truth
      ensures Valid()
      ensures ServedOutcome(old(View()), View(), binding, cacheMax, cs, ws, EnvOf(scene.defaults, cs), scene.faulted,
                            scene.misread, sight, lost, reply)
      ensures !scene.faulted && CacheGet(old(cache), (cs.changeId, cs)).None? && reply.Replied? ==>
                CleanVerdict(old(scene.graph), scene.defaults, cs, reply.receipt, frozen)
      ensures NewlyRolledBack(old(cache), cs, reply) && IdsTold(old(scene.graph), sight.ids, cs.operations) ==>
                (scene.graph == old(scene.graph) <==> ReadTruly(old(scene.graph), journal))
      ensures scene.misread ==> scene.faulted
    {
      hide Tree, Confined, CleanVerdict, AdmissionError, CreatedReferencesOk, ConsistentConditions, UniqueRefs, TxServed,
        CacheOk, ExecOps, PostsHold, CacheAdd, CreatedIdentity, ShouldSucceed, Sees, IdsTold, ReadTruly, ReceiptShape;
      sight, lost := Plain(scene.graph), map[];
      var key := (cs.changeId, cs);
      var cached := CacheGet(cache, key);
      if cached.Some? { return Replied(Replay(cached.value)), sight, lost; }
      if DigestConflict(cache, cs.changeId, cs) { return Rejected(ReceiptConflict), sight, lost; }
      var raised := scene.Read();
      if raised { return Rejected(ReadFailed), sight, lost; }
      var seen := Look();
      sight := seen;
      var e := SeenError(seen, binding, cs, ws);
      if e.Some? { return Rejected(e.value), sight, lost; }
      var r;
      r, lost := Transact(cs, ws, seen);
      CacheReceipt(key, r);
      reply := Replied(r);
    }

    /** The receipt query: it reads the cache only. A stale epoch is refused before that, another digest under the same
        id next; otherwise the answer is the receipt that is cached, or that there is none. */
    function ReceiptOf(changeId: string, digest: Digest, epoch: Option<int>): (r: Result<Option<Receipt>, Code>)
      reads this
      ensures r == Err(StaleScene) <==> epoch.Some? && epoch.value != binding.epoch
      ensures r.Err? && r.error != StaleScene <==>
                (epoch.Some? ==> epoch.value == binding.epoch)
                && exists e :: e in cache && e.0.0 == changeId && e.0.1 != digest
      ensures r.Err? ==> r.error in {StaleScene, ReceiptConflict}
      ensures r == Ok(None) ==> (changeId, digest) !in CachedKeys(cache)
      ensures r.Ok? && r.value.Some? ==> ((changeId, digest), r.value.value) in cache
    {
      CacheGetIn(cache, (changeId, digest));
      if epoch.Some? && epoch.value != binding.epoch then Err(StaleScene) else
      if DigestConflict(cache, changeId, digest) then Err(ReceiptConflict) else
      Ok(CacheGet(cache, (changeId, digest)))
    }

    // ---- sensitivity sampling --------------------------------------------

    /** Ids are read through guarded reads; whichever nodes they lead to, the values found there are the true ones. */
    method ResolveProbes(targets: seq<Sampling.SampleTarget>)
      returns (probes: Result<seq<Sampling.Probe>, Sampling.SampleReply>, ghost ids: Graph)
      modifies scene`faulted, scene`misread
      ensures Shown(scene.graph, ids) && (ids != scene.graph ==> scene.faulted)
      ensures old(scene.faulted) ==> scene.faulted
      ensures probes.Ok? ==> |probes.value| == |targets| && Sampling.Originals(scene.graph, probes.value)
      ensures probes.Ok? ==> forall i :: 0 <= i < |targets| ==>
                Locate(ids, Sampling.ProbeRef(targets[i])) == At(probes.value[i].path)
                && probes.value[i].parm == targets[i].parm && probes.value[i].value == targets[i].value
      ensures probes.Err? ==> Sampling.FirstProblem(ids, scene.graph, targets, probes.error)
      ensures probes.Err? ==> probes.error in {Sampling.SampleInvalid, Sampling.SampleRejected(OwnershipAmbiguous)}
    {
      hide Shown, Locate, Resolve, Sampling.Problem, Sampling.FirstProblem;
      var v := scene.Glance();
      ids := v;
      var idx := IndexOf(v);
      ghost var hit := scene.faulted;
      var found: seq<Sampling.Probe> := [];
      for i := 0 to |targets|
        invariant scene.faulted == hit
        invariant |found| == i && Sampling.Originals(scene.graph, found)
        invariant forall k :: 0 <= k < i ==>
                    Locate(ids, Sampling.ProbeRef(targets[k])) == At(found[k].path)
                    && found[k].parm == targets[k].parm && found[k].value == targets[k].value
        invariant forall k :: 0 <= k < i ==> Sampling.Problem(ids, scene.graph, targets[k]).None?
      {
        ResolveExact(v, idx, Sampling.ProbeRef(targets[i]));
        var f := Resolve(v, idx, Sampling.ProbeRef(targets[i]));
        Sampling.ProblemIs(ids, scene.graph, targets, i);
        if f.Ambiguous? { return Err(Sampling.SampleRejected(OwnershipAmbiguous)), ids; }
        if f.Missing? { return Err(Sampling.SampleInvalid), ids; }
        var original := ParmAt(scene.graph, f.path, targets[i].parm);
        if original.None? { return Err(Sampling.SampleInvalid), ids; }
        found := found + [Sampling.Probe(f.path, targets[i].parm, targets[i].value, original.value)];
      }
      probes := Ok(found);
    }

    /** Writes the samples one by one and captures the scene after each; `done` counts the writes that returned, `torn`
        names the one that raised after taking effect. */
    method WriteSamples(probes: seq<Sampling.Probe>, ghost g0: Graph)
      returns (failed: bool, done: nat, ghost torn: Option<nat>, ghost captures: seq<Graph>)
      requires g0 == scene.graph && Sampling.Originals(g0, probes)
      modifies scene
      ensures done <= |probes| && (torn.Some? ==> failed && torn.value == done < |probes|)
      ensures !failed ==> done == |probes| == |captures|
      ensures failed ==> scene.faulted
      ensures old(scene.faulted) ==> scene.faulted
      ensures var open := Sampling.Slots(probes[..done]) + (if torn.Some? then {Sampling.SlotOf(probes[done])} else {});
              Sampling.AgreeOff(g0, scene.graph, open)
      ensures scene.graph == Sampling.Written(g0, probes[..if torn.Some? then done + 1 else done])
      ensures Sampling.Captured(g0, probes, captures)
      ensures torn.Some? ==> ParmAt(scene.graph, probes[done].path, probes[done].parm) == Some(probes[done].value)
      ensures Sampling.Present(scene.graph, probes)
    {
      hide Sampling.AgreeOff, Sampling.Present, Sampling.Slots, Sampling.Written;
      Sampling.PresentAtStart(g0, probes);
      Sampling.WrittenNone(g0, probes);
      done, torn, captures, failed := 0, None, [], false;
      while done < |probes|
        invariant done <= |probes| && |captures| == done
        invariant Sampling.AgreeOff(g0, scene.graph, Sampling.Slots(probes[..done]))
        invariant Sampling.Present(scene.graph, probes)
        invariant scene.graph == Sampling.Written(g0, probes[..done]) && Sampling.Captured(g0, probes, captures)
        invariant old(scene.faulted) ==> scene.faulted
      {
        var p := probes[done];
        ghost var g := scene.graph;
        Sampling.ProbePresent(g, probes, done);
        Sampling.PresentKept(g, probes, p.path, p.parm, p.value);
        Sampling.AgreeWrite(g0, g, Sampling.Slots(probes[..done]), p.path, p.parm, p.value);
        Sampling.WrittenNext(g0, probes, done);
        var raised := scene.SetParm(p.path, p.parm, p.value);
        if raised {
          if scene.graph != g { torn := Some(done); }
          assert Sampling.Slots(probes[..done]) + {} == Sampling.Slots(probes[..done]);
          return true, done, torn, captures;
        }
        Sampling.SlotsSnoc(probes[..done], p);
        assert probes[..done + 1] == probes[..done] + [p];
        done := done + 1;
        raised := scene.Read();
        if raised {
          assert Sampling.Slots(probes[..done]) + {} == Sampling.Slots(probes[..done]);
          return true, done, None, captures;
        }
        captures := captures + [scene.graph];
      }
      assert Sampling.Slots(probes[..done]) + {} == Sampling.Slots(probes[..done]);
    }

    /** Restores the journaled writes in reverse order, each verified by a read-back; stops at the first failure. */
    method RestoreSamples(written: seq<Sampling.Probe>, ghost g0: Graph, ghost torn: set<(Path, string)>)
      returns (ok: bool)
      requires Sampling.Originals(g0, written)
      requires Sampling.AgreeOff(g0, scene.graph, Sampling.Slots(written) + torn)
      requires Sampling.Present(scene.graph, written)
      modifies scene
      ensures ok ==> Sampling.AgreeOff(g0, scene.graph, torn - Sampling.Slots(written))
      ensures forall s :: s in torn - Sampling.Slots(written) ==>
                ParmAt(scene.graph, s.0, s.1) == ParmAt(old(scene.graph), s.0, s.1)
      ensures !ok ==> scene.faulted
      ensures old(scene.faulted) ==> scene.faulted
    {
      hide Sampling.AgreeOff, Sampling.Present, Sampling.Slots, Sampling.OpenSlots;
      var n := |written|;
      Sampling.OpenAtStart(written, torn);
      Sampling.AgreeWider(g0, scene.graph, Sampling.Slots(written) + torn, Sampling.OpenSlots(written, n, torn));
      while n > 0
        invariant 0 <= n <= |written|
        invariant Sampling.AgreeOff(g0, scene.graph, Sampling.OpenSlots(written, n, torn))
        invariant Sampling.Present(scene.graph, written)
        invariant old(scene.faulted) ==> scene.faulted
        invariant forall s :: s in torn - Sampling.Slots(written) ==>
                    ParmAt(scene.graph, s.0, s.1) == ParmAt(old(scene.graph), s.0, s.1)
      {
        var p := written[n - 1];
        ghost var g := scene.graph;
        ghost var open := Sampling.OpenSlots(written, n, torn);
        Sampling.WrittenSlot(written, n - 1);
        Sampling.ProbePresent(g, written, n - 1);
        Sampling.PresentKept(g, written, p.path, p.parm, p.original);
        Sampling.AgreeRestore(g0, g, open, p.path, p.parm, p.original);
        Sampling.OpenStep(written, n, torn);
        Sampling.AgreeWider(g0, WithParm(g, p.path, p.parm, p.original), open - {Sampling.SlotOf(p)},
                            Sampling.OpenSlots(written, n - 1, torn));
        var raised := scene.SetParm(p.path, p.parm, p.original);
        if raised { return false; }
        raised := scene.Read();
        if raised || ParmAt(scene.graph, p.path, p.parm) != Some(p.original) { return false; }
        n := n - 1;
      }
      Sampling.OpenAtEnd(written, torn);
      Sampling.AgreeWider(g0, scene.graph, Sampling.OpenSlots(written, 0, torn), torn - Sampling.Slots(written));
      ok := true;
    }

    /** One sample-and-restore cycle. It ends with the scene of `AfterRestore`, or it freezes writes; sampled means that
        each capture shows the value of its target at the node the target names. The flags of the scene tell of this
        request alone. */
    method SampleSensitivity(epoch: int, targets: seq<Sampling.SampleTarget>)
      returns (reply: Sampling.SampleReply, ghost probes: seq<Sampling.Probe>, ghost torn: Option<nat>,
               ghost captures: seq<Graph>, ghost ids: Graph)
      requires Tree(scene.graph)
      modifies scene, this`frozen
      ensures old(frozen) ==> frozen && reply == Sampling.SampleRejected(WriteFrozen) && scene.graph == old(scene.graph)
      ensures !old(frozen) ==> (frozen <==> reply == Sampling.SampleRestoreFailed)
      ensures Sampling.Originals(old(scene.graph), probes)
      ensures torn.Some? ==> torn.value < |probes|
      ensures torn.Some? && !frozen ==> reply == Sampling.SampleAborted
      ensures !frozen ==> scene.graph == Sampling.AfterRestore(old(scene.graph), probes, torn)
      ensures reply == Sampling.Sampled ==> |probes| == |targets| == |captures| && torn.None?
      ensures Sampling.Captured(old(scene.graph), probes, captures)
      ensures reply == Sampling.Sampled ==> forall i :: 0 <= i < |targets| ==>
                Locate(ids, Sampling.ProbeRef(targets[i])) == At(probes[i].path)
                && ParmAt(captures[i], probes[i].path, targets[i].parm) == Some(targets[i].value)
      ensures Shown(old(scene.graph), ids) && (ids != old(scene.graph) ==> scene.faulted)
      ensures !old(frozen) && !scene.faulted ==>
                if epoch != binding.epoch then reply == Sampling.SampleRejected(StaleScene)
                else reply == Sampling.Sampled || Sampling.FirstProblem(ids, old(scene.graph), targets, reply)
      ensures reply == Sampling.Sampled ==>
                epoch == binding.epoch && forall t :: t in targets ==> Sampling.Problem(ids, old(scene.graph), t).None?
    {
      hide Sampling.AgreeOff, Tree, Sampling.Written, Sampling.Captured, Sampling.Problem, Shown;
      scene.faulted, scene.misread := false, false;
      ghost var g0 := scene.graph;
      ShownRefl(g0);
      probes, torn, captures, ids := [], None, [], g0;
      Sampling.NothingCaptured(g0, []);
      if frozen { return Sampling.SampleRejected(WriteFrozen), [], None, [], ids; }
      if epoch != binding.epoch { return Sampling.SampleRejected(StaleScene), [], None, [], ids; }
      var resolved;
      resolved, ids := ResolveProbes(targets);
      if resolved.Err? { return resolved.error, [], None, [], ids; }
      var raised := scene.Read();
      if raised { return Sampling.SampleRejected(ReadFailed), [], None, [], ids; }
      probes := resolved.value;
      var failed, done;
      failed, done, torn, captures := WriteSamples(resolved.value, g0);
      ghost var slot := if torn.Some? then {Sampling.SlotOf(probes[done])} else {};
      ghost var left := scene.graph;
      Sampling.PresentPrefix(scene.graph, resolved.value, done);
      var ok := RestoreSamples(resolved.value[..done], g0, slot);
      if !ok {
        frozen := true;
        return Sampling.SampleRestoreFailed, probes, torn, captures, ids;
      }
      if torn.Some? && Sampling.SlotOf(probes[done]) !in Sampling.Slots(probes[..done]) {
        assert slot - Sampling.Slots(probes[..done]) == slot;
        Sampling.AgreeOne(g0, scene.graph, probes[done].path, probes[done].parm, probes[done].value);
      } else {
        assert slot - Sampling.Slots(probes[..done]) == {};
        Sampling.AgreeNowhere(g0, scene.graph);
      }
      reply := if failed then Sampling.SampleAborted else Sampling.Sampled;
      if !failed { Sampling.AllShown(ids, g0, targets, probes, captures); }
    }
  }
}
