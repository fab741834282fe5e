/** What the gate in front of a transaction demands, check by check, told from the scene, the manifest and the ChangeSet. */
module GateFacts {
  import opened Wrappers
  import opened Contracts
  import opened SceneGraph
  import opened Transactions
  import opened Preflight
  import opened Admission
  import Coverage
  import Policy
  import Confinement

  // ---- references --------------------------------------------------------

  /** The one node a reference names: by its id alone if it has one, by its path otherwise. */
  ghost predicate Names(g: Graph, r: NodeRef, p: Path) {
    && p in g && p != []
    && (if r.nodeId.Some? then Mirrors(g, r.nodeId.value) == {p} else p == r.path)
  }

  /** The node says that it is the one referred to, in the schema that is understood, of the workspace that is asked for or
      at hand; and the manifest at hand, of the run that made the node, lists it as it is. */
  predicate OwnedAsSaid(n: Node, p: Path, r: NodeRef, ws: Option<Manifest>)
    requires p != []
  {
    && MirrorOf(n, NodeIdKey) == r.nodeId && MirrorOf(n, SchemaKey) == Some("1")
    && (if r.workspaceId.Some? then MirrorOf(n, WorkspaceKey) == r.workspaceId
        else ws.Some? ==> MirrorOf(n, WorkspaceKey) == Some(ws.value.workspaceId))
    && (ws.Some? ==> MirrorOf(n, RunKey) == Some(ws.value.createdByRun) && Lists(ws.value, n, p, r))
  }

  predicate Lists(ws: Manifest, n: Node, p: Path, r: NodeRef)
    requires p != []
  {
    exists o :: o in ws.nodes && Some(o.nodeId) == r.nodeId && o.path == p && o.kind == n.kind && o.parentPath == p[..|p| - 1]
                && Some(o.capability) == MirrorOf(n, CapabilityKey) && Some(o.role) == MirrorOf(n, RoleKey)
  }

  /** A reference to a node that is there: it names one node, of the type it expects, owned as said if it has an id. */
  ghost predicate Stands(g: Graph, r: NodeRef, ws: Option<Manifest>) {
    exists p :: Names(g, r, p) && g[p].kind == r.kind && (r.nodeId.Some? ==> OwnedAsSaid(g[p], p, r, ws))
  }

  /** A node to be created is nowhere yet: no node has its id, and nothing is at its path. */
  ghost predicate Absent(g: Graph, r: NodeRef) {
    r.path !in g && (r.nodeId.Some? ==> Mirrors(g, r.nodeId.value) == {})
  }

  ghost predicate RefFine(g: Graph, cs: ChangeSet, ws: Option<Manifest>, r: NodeRef) {
    if r.nodeId.Some? && r.nodeId.value in CreatedIds(cs.operations) then Absent(g, r) else Stands(g, r, ws)
  }

  lemma RefFineIff(g: Graph, cs: ChangeSet, ws: Option<Manifest>, r: NodeRef)
    ensures RefFine(g, cs, ws, r) <==> RefOk(g, cs, ws, r) && ResolutionError(g, KeyOf(r)).None?
  {
    hide CreatedIds, Mirrors;
    if r.nodeId.Some? && r.nodeId.value in CreatedIds(cs.operations) {
      AbsentIff(g, r);
    } else {
      StandsIff(g, r, ws);
    }
  }

  lemma AbsentIff(g: Graph, r: NodeRef)
    requires r.nodeId.Some?
    ensures Absent(g, r) <==> CreateTargetOk(g, r) && ResolutionError(g, KeyOf(r)).None?
  {
    hide Mirrors;
    var m := Mirrors(g, r.nodeId.value);
    if |m| == 0 { assert m == {}; }
  }

  lemma NamesIff(g: Graph, r: NodeRef, p: Path)
    requires p != []
    ensures Names(g, r, p) <==> LocateKey(g, KeyOf(r)) == At(p) && p in g
  {
  }

  lemma StandsIff(g: Graph, r: NodeRef, ws: Option<Manifest>)
    ensures Stands(g, r, ws) <==> ExistingOk(g, r, ws) && ResolutionError(g, KeyOf(r)).None?
  {
    hide Mirrors, LocateKey, OwnedFactsOk, OwnedAsSaid;
    if Stands(g, r, ws) {
      var p :| Names(g, r, p) && g[p].kind == r.kind && (r.nodeId.Some? ==> OwnedAsSaid(g[p], p, r, ws));
      NamedThere(g, r, p);
      NamesIff(g, r, p);
      if r.nodeId.Some? { OwnedIff(g[p], p, r, ws); }
    }
    if ExistingOk(g, r, ws) {
      var p := LocateKey(g, KeyOf(r)).path;
      NamesIff(g, r, p);
      if r.nodeId.Some? { OwnedIff(g[p], p, r, ws); }
    }
  }

  lemma NamedThere(g: Graph, r: NodeRef, p: Path)
    requires Names(g, r, p)
    ensures p in g && p != []
  {
  }

  lemma OwnedIff(n: Node, p: Path, r: NodeRef, ws: Option<Manifest>)
    requires r.nodeId.Some? && p != []
    ensures OwnedAsSaid(n, p, r, ws) <==> OwnedFactsOk(n, p, r, ws)
  {
    if ws.Some? {
      if Lists(ws.value, n, p, r) {
        var o :| o in ws.value.nodes && Some(o.nodeId) == r.nodeId && o.path == p && o.kind == n.kind
                 && o.parentPath == p[..|p| - 1]
                 && Some(o.capability) == MirrorOf(n, CapabilityKey) && Some(o.role) == MirrorOf(n, RoleKey);
        assert ManifestAgrees(o, r.nodeId.value, p, n);
      }
      if o :| o in ws.value.nodes && ManifestAgrees(o, r.nodeId.value, p, n) {
        assert Some(o.nodeId) == r.nodeId;
      }
    }
  }

  // ---- preflight ---------------------------------------------------------

  /** Preflight reports facts if and only if the scene is of the epoch the ChangeSet was made for, the manifest is of this
      very scene, and every reference is fine. A stale epoch is told as such. */
  lemma KnownIff(g: Graph, binding: Binding, cs: ChangeSet, ws: Option<Manifest>)
    ensures Run(g, binding, cs, ws).Known?
       <==> binding.epoch == cs.binding.epoch && (ws.Some? ==> ws.value.binding == binding)
            && forall r :: r in CollectRefs(cs) ==> RefFine(g, cs, ws, r)
    ensures Run(g, binding, cs, ws) == Raised(StaleScene) <==> binding.epoch != cs.binding.epoch
  {
    hide RefOk, ResolutionError, CollectRefs, GatherFacts, RefFine;
    forall r ensures RefFine(g, cs, ws, r) <==> RefOk(g, cs, ws, r) && ResolutionError(g, KeyOf(r)).None? {
      RefFineIff(g, cs, ws, r);
    }
    NeverStaleScene(g, CollectRefs(cs));
  }

  lemma {:induction false} NeverStaleScene(g: Graph, rs: seq<NodeRef>)
    ensures FirstResolutionError(g, rs) != Some(StaleScene)
  {
    if rs != [] { NeverStaleScene(g, rs[1..]); }
  }

  // ---- what a ChangeSet has to rest on -----------------------------------

  ghost predicate NotMadeHere(ops: seq<Operation>, r: NodeRef) {
    forall i :: 0 <= i < |ops| && ops[i].CreateNode? ==> r.nodeId != Some(ops[i].nodeId)
  }

  predicate SetsParm(op: Operation, k: Key, parm: string) {
    op.SetParm? && KeyOf(op.target) == k && op.parm == parm
  }

  predicate SetsInput(op: Operation, k: Key, input: nat) {
    op.ConnectInput? && KeyOf(op.target) == k && op.input == input
  }

  /** The operation is the first to write its slot. */
  predicate Opens(ops: seq<Operation>, i: nat)
    requires i < |ops|
  {
    match ops[i]
    case CreateNode(_, _, _, _, _, _, _, _) => false
    case SetParm(_, target, parm, _, _) => forall j :: 0 <= j < i ==> !SetsParm(ops[j], KeyOf(target), parm)
    case ConnectInput(_, target, input, _, _, _) => forall j :: 0 <= j < i ==> !SetsInput(ops[j], KeyOf(target), input)
  }

  /** An operation rests on the absence of what it creates; on the identity of every existing node that it creates in, wires
      from, or is the first to write a slot of; and on the old value of that slot. */
  ghost predicate RestsAt(ops: seq<Operation>, i: nat, c: Condition)
    requires i < |ops|
  {
    var op := ops[i];
    match c
    case NodeAbsent(p, id) => op.CreateNode? && CreatedPath(op) == p && op.nodeId == id
    case NodeIdentityEquals(r) =>
      NotMadeHere(ops, r) && (if op.CreateNode? then op.parent == r
                              else (Opens(ops, i) && op.target == r) || (op.ConnectInput? && op.source == r))
    case ParmValueEquals(target, parm, value) =>
      NotMadeHere(ops, target) && Opens(ops, i) && op.SetParm?
      && op.target == target && op.parm == parm && op.expectedOld == value
    case WireInputEquals(target, input, wire) =>
      NotMadeHere(ops, target) && Opens(ops, i) && op.ConnectInput?
      && op.target == target && op.input == input && op.expectedOldSource == wire
    case _ => false
  }

  /** A ChangeSet rests on its scene, on its manifest, and on what its operations rest on. */
  ghost predicate RestsOn(ops: seq<Operation>, binding: Binding, ws: Option<Manifest>, c: Condition) {
    match c
    case SceneBindingEquals(b) => b == binding
    case WorkspaceRevisionEquals(w, v) => ws.Some? && w == ws.value.workspaceId && v == ws.value.revision
    case _ => exists i :: 0 <= i < |ops| && RestsAt(ops, i, c)
  }

  /** The conditions a ChangeSet has to carry are exactly those it rests on. */
  lemma MandatoryIff(ops: seq<Operation>, binding: Binding, ws: Option<Manifest>, c: Condition)
    ensures c in Coverage.MandatoryPreconditions(ops, binding, ws) <==> RestsOn(ops, binding, ws, c)
  {
    hide RestsAt, Coverage.PreconditionsAt;
    forall i | 0 <= i < |ops| ensures c in Coverage.PreconditionsAt(ops, i) <==> RestsAt(ops, i, c) {
      RestsAtIff(ops, i, c);
    }
    if c.SceneBindingEquals? || c.WorkspaceRevisionEquals? { NoHeader(ops, c); }
  }

  lemma NoHeader(ops: seq<Operation>, c: Condition)
    requires c.SceneBindingEquals? || c.WorkspaceRevisionEquals?
    ensures forall i :: 0 <= i < |ops| ==> !RestsAt(ops, i, c)
  {
  }

  lemma RestsAtIff(ops: seq<Operation>, i: nat, c: Condition)
    requires i < |ops|
    ensures c in Coverage.PreconditionsAt(ops, i) <==> RestsAt(ops, i, c)
  {
    hide Opens, NotMadeHere, Coverage.FirstWrite, Coverage.TargetsCreated;
    if !ops[i].CreateNode? { OpensIff(ops, i); }
    forall r ensures NotMadeHere(ops, r) <==> !Coverage.TargetsCreated(ops, r) { MadeHereIff(ops, r); }
  }

  lemma OpensIff(ops: seq<Operation>, i: nat)
    requires i < |ops| && !ops[i].CreateNode?
    ensures Opens(ops, i) <==> Coverage.FirstWrite(ops, i)
  {
    forall j | 0 <= j < i
      ensures Coverage.SameSlot(ops[j], ops[i])
         <==> if ops[i].SetParm? then SetsParm(ops[j], KeyOf(ops[i].target), ops[i].parm)
              else SetsInput(ops[j], KeyOf(ops[i].target), ops[i].input)
    {
    }
  }

  lemma MadeHereIff(ops: seq<Operation>, r: NodeRef)
    ensures NotMadeHere(ops, r) <==> !Coverage.TargetsCreated(ops, r)
  {
  }

  // ---- the gate ----------------------------------------------------------

  /** An admitted ChangeSet was made for this very scene, and for this very revision of the manifest. */
  lemma AdmittedFor(g: Graph, binding: Binding, cs: ChangeSet, ws: Option<Manifest>)
    requires Admitted(g, binding, cs, ws)
    ensures cs.binding == binding && !cs.risk.requiresBackup
    ensures ws.Some? ==> ws.value.binding == binding
                         && WorkspaceRevisionEquals(ws.value.workspaceId, ws.value.revision) in cs.preconditions
  {
    hide Run, Policy.Allowed;
    AdmittedFacts(g, binding, cs, ws);
    PassesKnown(g, binding, cs, ws);
    KnownIff(g, binding, cs, ws);
    RevisionMandatory(cs, ws);
  }

  lemma RevisionMandatory(cs: ChangeSet, ws: Option<Manifest>)
    requires Coverage.Covered(cs, ws)
    ensures ws.Some? ==> WorkspaceRevisionEquals(ws.value.workspaceId, ws.value.revision) in cs.preconditions
  {
    if ws.Some? {
      assert WorkspaceRevisionEquals(ws.value.workspaceId, ws.value.revision)
             in Coverage.MandatoryPreconditions(cs.operations, cs.binding, ws);
    }
  }

  /** So no ChangeSet is admitted under two revisions of one workspace, whatever happened to the scene. */
  lemma OneRevision(g: Graph, h: Graph, binding: Binding, cs: ChangeSet, w: Manifest, w': Manifest)
    requires Admitted(g, binding, cs, Some(w)) && Admitted(h, binding, cs, Some(w'))
    ensures w'.workspaceId == w.workspaceId && w'.revision == w.revision
  {
    hide Run, Policy.Allowed, Coverage.Covered;
    AdmittedFor(g, binding, cs, Some(w));
    AdmittedFacts(h, binding, cs, Some(w'));
    PassesCondition(h, binding, cs, Some(w'), WorkspaceRevisionEquals(w.workspaceId, w.revision));
  }

  /** An admitted ChangeSet creates no node under an id that the manifest lists, and names every node it writes to, wires
      from or creates among the affected ones. */
  lemma AdmittedNames(g: Graph, binding: Binding, cs: ChangeSet, ws: Option<Manifest>, i: nat)
    requires Admitted(g, binding, cs, ws) && i < |cs.operations|
    ensures cs.operations[i].CreateNode? ==>
              CreatedRef(cs.operations[i]) in cs.affected
              && (ws.Some? ==> forall o :: o in ws.value.nodes ==> o.nodeId != cs.operations[i].nodeId)
    ensures !cs.operations[i].CreateNode? ==> cs.operations[i].target in cs.affected
    ensures cs.operations[i].ConnectInput? ==> cs.operations[i].source in cs.affected
  {
    hide Run, Coverage.Covered, Policy.ModeRules, Policy.RiskAgrees, SnapshotAmbiguous;
    var op := cs.operations[i];
    if op.CreateNode? {
      assert CreatedRef(op) in Policy.CreatedRefs(cs.operations);
    } else {
      assert op.target in Policy.Targets(cs.operations);
      if op.ConnectInput? { assert op.source in Policy.Sources(cs.operations); }
    }
  }

  /** Whatever an admitted ChangeSet can change of the nodes that are there is in its checkpoint: each parameter and each
      input of its footprint, and each node it uses. */
  lemma CheckpointCoversFootprint(g: Graph, binding: Binding, cs: ChangeSet, ws: Option<Manifest>)
    requires ValidChangeSet(cs) && Admitted(g, binding, cs, ws)
    ensures forall s :: s in FootprintOf(cs.operations).parms && s.0 !in CreatedPaths(cs.operations) ==>
              exists snap :: snap in cs.checkpoint.parms && (snap.target.path, snap.parm) == s
    ensures forall s :: s in FootprintOf(cs.operations).wires && s.0 !in CreatedPaths(cs.operations) ==>
              exists snap :: snap in cs.checkpoint.wires && (snap.target.path, snap.input) == s
    ensures forall i, r | 0 <= i < |cs.operations| && r in UsedRefs(cs.operations[i]) ::
              !Coverage.TargetsCreated(cs.operations, r) ==> r in cs.checkpoint.nodes
  {
    hide AdmissionError, ValidChangeSet, Coverage.TargetsCreated;
    AdmittedFacts(g, binding, cs, ws);
    var ops, plan := cs.operations, cs.checkpoint;
    forall i, r | 0 <= i < |ops| && r in UsedRefs(ops[i]) && !Coverage.TargetsCreated(ops, r)
      ensures r in plan.nodes
    {
      assert r in Coverage.CheckpointNodesAt(ops, i);
    }
    forall s | s in FootprintOf(ops).parms && s.0 !in CreatedPaths(ops)
      ensures exists snap :: snap in plan.parms && (snap.target.path, snap.parm) == s
    {
      var i :| 0 <= i < |ops| && ops[i].SetParm? && (ops[i].target.path, ops[i].parm) == s;
      Confinement.TargetNotCreated(cs, i);
      assert ParmSnapshot(ops[i].target, ops[i].parm) in plan.parms;
    }
    forall s | s in FootprintOf(ops).wires && s.0 !in CreatedPaths(ops)
      ensures exists snap :: snap in plan.wires && (snap.target.path, snap.input) == s
    {
      var i :| 0 <= i < |ops| && ops[i].ConnectInput? && (ops[i].target.path, ops[i].input) == s;
      Confinement.TargetNotCreated(cs, i);
      assert WireSnapshot(ops[i].target, ops[i].input) in plan.wires;
    }
  }
}
