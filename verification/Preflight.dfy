/** The read-only preflight: facts about every reference of a ChangeSet, and its preconditions against them. */
module Preflight {
  import opened Wrappers
  import opened Contracts
  import opened SceneGraph
  import opened Transactions

  datatype Code =
    | WriteFrozen | ReceiptConflict | BackupUnavailable | StaleScene | Stale | OwnershipAmbiguous | ReadFailed
    | PreconditionFailed | MandatoryOmitted | PolicyDenied

  // ---- references --------------------------------------------------------

  function RefsInOrder(op: Operation): seq<NodeRef> {
    match op
    case CreateNode(_, parent, _, _, _, _, _, _) => [parent, CreatedRef(op)]
    case SetParm(_, target, _, _, _) => [target]
    case ConnectInput(_, target, _, source, _, _) => [target, source]
  }

  function ConditionRef(c: Condition): seq<NodeRef> {
    match c
    case NodeIdentityEquals(node) => [node]
    case ParmValueEquals(target, _, _) => [target]
    case WireInputEquals(target, _, _) => [target]
    case _ => []
  }

  function AllOpRefs(ops: seq<Operation>): (rs: seq<NodeRef>)
    ensures forall r :: r in rs <==> exists i :: 0 <= i < |ops| && r in RefsInOrder(ops[i])
  {
    if ops == [] then [] else
    var front := ops[..|ops| - 1];
    assert forall i :: 0 <= i < |front| ==> front[i] == ops[i];
    AllOpRefs(front) + RefsInOrder(ops[|ops| - 1])
  }

  function AllConditionRefs(cs: seq<Condition>): (rs: seq<NodeRef>)
    ensures forall r :: r in rs <==> exists i :: 0 <= i < |cs| && r in ConditionRef(cs[i])
  {
    if cs == [] then [] else
    var front := cs[..|cs| - 1];
    assert forall i :: 0 <= i < |front| ==> front[i] == cs[i];
    AllConditionRefs(front) + ConditionRef(cs[|cs| - 1])
  }

  predicate SameSpot(a: NodeRef, b: NodeRef) {
    a.nodeId == b.nodeId && a.path == b.path
  }

  predicate HasSpot(rs: seq<NodeRef>, r: NodeRef) {
    exists q :: q in rs && SameSpot(q, r)
  }

  /** Keeps the first reference of every (id, path) pair. */
  function Dedup(rs: seq<NodeRef>): (out: seq<NodeRef>)
    ensures forall r :: r in out ==> r in rs
    ensures forall r :: r in rs ==> HasSpot(out, r)
  {
    if rs == [] then [] else
    var front, last := Dedup(rs[..|rs| - 1]), rs[|rs| - 1];
    assert rs == rs[..|rs| - 1] + [last];
    if HasSpot(front, last) then front else
    HasSpotAppend(front, last);
    front + [last]
  }

  lemma HasSpotAppend(rs: seq<NodeRef>, last: NodeRef)
    ensures forall r :: HasSpot(rs, r) ==> HasSpot(rs + [last], r)
    ensures HasSpot(rs + [last], last)
  {
    assert (rs + [last])[|rs|] == last && SameSpot(last, last);
    forall r | HasSpot(rs, r) ensures HasSpot(rs + [last], r) {
      var q :| q in rs && SameSpot(q, r);
      assert q in rs + [last];
    }
  }

  /** Every reference preflight looks at, in the order it looks. */
  function CollectRefs(cs: ChangeSet): seq<NodeRef> {
    Dedup(cs.affected + cs.readDeps + AllOpRefs(cs.operations) + AllConditionRefs(cs.preconditions))
  }

  /** The facts dictionary keeps one entry per key, and the last reference with a key wins. */
  function LastWithKey(rs: seq<NodeRef>, k: Key): (r: Option<NodeRef>)
    ensures r.Some? <==> exists q :: q in rs && KeyOf(q) == k
    ensures r.Some? ==> r.value in rs && KeyOf(r.value) == k
  {
    if rs == [] then None else
    if KeyOf(rs[|rs| - 1]) == k then Some(rs[|rs| - 1]) else LastWithKey(rs[..|rs| - 1], k)
  }

  function RequestedFor(rs: seq<NodeRef>, k: Key): (r: NodeRef)
    requires k in KeysOf(rs)
    ensures r in rs && KeyOf(r) == k
  {
    LastWithKey(rs, k).value
  }

  function KeysOf(rs: seq<NodeRef>): set<Key> {
    set r | r in rs :: KeyOf(r)
  }

  // ---- resolution --------------------------------------------------------

  /** Preflight resolves an owned reference by its id alone, an external one by its path alone. */
  function LocateKey(g: Graph, k: Key): Found {
    match k
    case ById(id) =>
      var m := Mirrors(g, id);
      if |m| > 1 then Ambiguous else if |m| == 1 then At(TheOnly(m)) else Missing
    case ByPath(p) => if p in g then At(p) else Missing
  }

  lemma LocatedInScene(g: Graph, k: Key)
    ensures LocateKey(g, k).At? ==> LocateKey(g, k).path in g
  {
  }

  /** The parent of the scene root cannot be read. */
  function ResolutionError(g: Graph, k: Key): Option<Code> {
    var f := LocateKey(g, k);
    if f.Ambiguous? then Some(OwnershipAmbiguous) else if f == At([]) then Some(ReadFailed) else None
  }

  function FirstResolutionError(g: Graph, rs: seq<NodeRef>): (e: Option<Code>)
    ensures e.None? <==> forall r :: r in rs ==> ResolutionError(g, KeyOf(r)).None?
  {
    if rs == [] then None else
    var e := ResolutionError(g, KeyOf(rs[0]));
    if e.Some? then e else FirstResolutionError(g, rs[1..])
  }

  // ---- verification of references ----------------------------------------

  predicate ManifestAgrees(o: OwnedNode, id: string, p: Path, n: Node)
    requires p != []
  {
    && o.nodeId == id && o.path == p && o.kind == n.kind && o.parentPath == Parent(p)
    && MirrorOf(n, CapabilityKey) == Some(o.capability)
    && MirrorOf(n, RoleKey) == Some(o.role)
  }

  predicate OwnedFactsOk(n: Node, p: Path, r: NodeRef, ws: Option<Manifest>)
    requires r.nodeId.Some? && p != []
  {
    && MirrorOf(n, NodeIdKey) == r.nodeId
    && (r.workspaceId.Some? ==> MirrorOf(n, WorkspaceKey) == r.workspaceId)
    && (r.workspaceId.None? && ws.Some? ==> MirrorOf(n, WorkspaceKey) == Some(ws.value.workspaceId))
    && MirrorOf(n, SchemaKey) == Some(SUPPORTED_SCHEMA)
    && (ws.Some? ==>
          && MirrorOf(n, RunKey) == Some(ws.value.createdByRun)
          && exists o :: o in ws.value.nodes && ManifestAgrees(o, r.nodeId.value, p, n))
  }

  predicate ExistingOk(g: Graph, r: NodeRef, ws: Option<Manifest>, ids: Graph := g) {
    var f := LocateKey(ids, KeyOf(r));
    && f.At? && f.path in g && f.path != []
    && g[f.path].kind == r.kind
    && (r.nodeId.Some? ==> OwnedFactsOk(g[f.path], f.path, r, ws))
  }

  predicate CreateTargetOk(g: Graph, r: NodeRef) {
    LocateKey(g, KeyOf(r)).Missing? && r.path !in g
  }

  predicate RefOk(g: Graph, cs: ChangeSet, ws: Option<Manifest>, r: NodeRef, ids: Graph := g) {
    if r.nodeId.Some? && r.nodeId.value in CreatedIds(cs.operations)
    then CreateTargetOk(ids, r) else ExistingOk(g, r, ws, ids)
  }

  // ---- facts -------------------------------------------------------------

  /** What was asked for, and the node it resolved to with its path. */
  datatype NodeFact = NodeFact(requested: NodeRef, actual: Option<(Path, Node)>)

  datatype Facts = Facts(binding: Binding, workspaceId: Option<string>, revision: Option<string>,
                         nodes: map<Key, NodeFact>,
                         parms: map<(Key, string), Option<string>>,
                         wires: map<(Key, nat), Option<WireRef>>,
                         results: seq<bool>, allHold: bool)

  datatype Outcome = Raised(code: Code) | Known(facts: Facts)

  function ActualOf(g: Graph, k: Key, ids: Graph := g): Option<(Path, Node)> {
    var f := LocateKey(ids, k);
    if f.At? && f.path in g then Some((f.path, g[f.path])) else None
  }

  function ParmReadAt(g: Graph, k: Key, name: string, ids: Graph := g): Option<string> {
    var f := LocateKey(ids, k);
    if f.At? then ParmAt(g, f.path, name) else None
  }

  function WireReadAt(g: Graph, k: Key, i: nat, ids: Graph := g): Option<WireRef> {
    var f := LocateKey(ids, k);
    if f.At? then ReadWire(g, f.path, i) else None
  }

  predicate IsCreatedId(cs: ChangeSet, r: NodeRef) {
    r.nodeId.Some? && r.nodeId.value in CreatedIds(cs.operations)
  }

  function ParmKeys(cs: ChangeSet): set<(Key, string)> {
    (set i | 0 <= i < |cs.operations| && cs.operations[i].SetParm? && !IsCreatedId(cs, cs.operations[i].target)
       :: (KeyOf(cs.operations[i].target), cs.operations[i].parm))
    + (set c | c in cs.preconditions && c.ParmValueEquals? && !IsCreatedId(cs, c.target) :: (KeyOf(c.target), c.parm))
  }

  function WireKeys(cs: ChangeSet): set<(Key, nat)> {
    (set i | 0 <= i < |cs.operations| && cs.operations[i].ConnectInput? && !IsCreatedId(cs, cs.operations[i].target)
       :: (KeyOf(cs.operations[i].target), cs.operations[i].input))
    + (set c | c in cs.preconditions && c.WireInputEquals? && !IsCreatedId(cs, c.target) :: (KeyOf(c.target), c.input))
  }

  predicate IdentityHolds(actual: Option<(Path, Node)>, r: NodeRef) {
    && actual.Some?
    && actual.value.0 == r.path
    && actual.value.1.kind == r.kind
    && (r.nodeId.Some? ==> MirrorOf(actual.value.1, NodeIdKey) == r.nodeId)
    && (r.workspaceId.Some? ==> MirrorOf(actual.value.1, WorkspaceKey) == r.workspaceId)
  }

  predicate ConditionHolds(g: Graph, binding: Binding, cs: ChangeSet, ws: Option<Manifest>, c: Condition,
                           ids: Graph := g, wires: Graph := g)
  {
    match c
    case SceneBindingEquals(b) => binding == b
    case WorkspaceRevisionEquals(w, v) => ws.Some? && ws.value.workspaceId == w && ws.value.revision == v
    case NodeIdentityEquals(node) => IdentityHolds(ActualOf(g, KeyOf(node), ids), node)
    case ParmValueEquals(target, parm, value) =>
      !IsCreatedId(cs, target) && ParmReadAt(g, KeyOf(target), parm, ids) == Some(value)
    case WireInputEquals(target, input, wire) =>
      WireEqual(if IsCreatedId(cs, target) then None else WireReadAt(wires, KeyOf(target), input, ids), wire)
    case NodeAbsent(path, _) => path !in g
  }

  function GatherFacts(g: Graph, binding: Binding, cs: ChangeSet, ws: Option<Manifest>, ids: Graph := g,
                       wires: Graph := g): Facts
  {
    var refs := CollectRefs(cs);
    Facts(binding,
          if ws.Some? then Some(ws.value.workspaceId) else None,
          if ws.Some? then Some(ws.value.revision) else None,
          NodeFacts(g, refs, ids), ParmFacts(g, cs, ids), WireFacts(wires, cs, ids),
          Results(g, binding, cs, ws, cs.preconditions, ids, wires),
          forall c :: c in cs.preconditions ==> ConditionHolds(g, binding, cs, ws, c, ids, wires))
  }

  function NodeFacts(g: Graph, refs: seq<NodeRef>, ids: Graph := g): map<Key, NodeFact> {
    map k | k in KeysOf(refs) :: NodeFact(RequestedFor(refs, k), ActualOf(g, k, ids))
  }

  function ParmFacts(g: Graph, cs: ChangeSet, ids: Graph := g): map<(Key, string), Option<string>> {
    map s | s in ParmKeys(cs) :: ParmReadAt(g, s.0, s.1, ids)
  }

  function WireFacts(g: Graph, cs: ChangeSet, ids: Graph := g): map<(Key, nat), Option<WireRef>> {
    map s | s in WireKeys(cs) :: WireReadAt(g, s.0, s.1, ids)
  }

  function Results(g: Graph, binding: Binding, cs: ChangeSet, ws: Option<Manifest>, conds: seq<Condition>,
                   ids: Graph := g, wires: Graph := g): (r: seq<bool>)
    ensures |r| == |conds|
            && forall i :: 0 <= i < |conds| ==> r[i] == ConditionHolds(g, binding, cs, ws, conds[i], ids, wires)
  {
    if conds == [] then [] else
    [ConditionHolds(g, binding, cs, ws, conds[0], ids, wires)] + Results(g, binding, cs, ws, conds[1..], ids, wires)
  }

  /** Three passes over the scene: ids are indexed, then each reference is looked at, then the wires. Where every
      guarded read succeeds, all of them show the scene itself. */
  function Run(g: Graph, binding: Binding, cs: ChangeSet, ws: Option<Manifest>, ids: Graph := g, wires: Graph := g)
    : Outcome
  {
    if binding.epoch != cs.binding.epoch then Raised(StaleScene) else
    if ws.Some? && ws.value.binding != binding then Raised(Stale) else
    var refs := CollectRefs(cs);
    var e := FirstResolutionError(ids, refs);
    if e.Some? then Raised(e.value) else
    if exists r :: r in refs && !RefOk(g, cs, ws, r, ids) then Raised(Stale) else
    Known(GatherFacts(g, binding, cs, ws, ids, wires))
  }

  /** A preflight that raised nothing and reported every precondition to hold. */
  predicate Passes(g: Graph, binding: Binding, cs: ChangeSet, ws: Option<Manifest>, ids: Graph := g, wires: Graph := g)
  {
    var o := Run(g, binding, cs, ws, ids, wires);
    o.Known? && o.facts.allHold
  }

  function LockedPaths(f: Facts): set<Path> {
    set k | k in f.nodes && f.nodes[k].actual.Some? && f.nodes[k].actual.value.1.locked :: f.nodes[k].requested.path
  }

  /** Targets of writes and sources of wires. */
  function ChangedTargets(ops: seq<Operation>): set<NodeRef> {
    set i, r | 0 <= i < |ops| && !ops[i].CreateNode? && r in UsedRefs(ops[i]) :: r
  }

  predicate LockedChange(f: Facts, ops: seq<Operation>) {
    exists r :: r in ChangedTargets(ops) && r.path in LockedPaths(f)
  }

  // ---- consequences ------------------------------------------------------

  lemma CollectsAll(cs: ChangeSet, r: NodeRef)
    requires r in cs.affected || r in cs.readDeps
             || (exists i :: 0 <= i < |cs.operations| && r in RefsInOrder(cs.operations[i]))
             || (exists c :: c in cs.preconditions && r in ConditionRef(c))
    ensures HasSpot(CollectRefs(cs), r)
  {
    var all := cs.affected + cs.readDeps + AllOpRefs(cs.operations) + AllConditionRefs(cs.preconditions);
    if c :| c in cs.preconditions && r in ConditionRef(c) {
      var i :| 0 <= i < |cs.preconditions| && cs.preconditions[i] == c;
      assert r in AllConditionRefs(cs.preconditions);
    }
    assert r in all;
  }

  /** A passing preflight has seen every reference whose identity condition the ChangeSet supplies, at its path and
      as the only node with its id. */
  lemma PassesSees(g: Graph, binding: Binding, cs: ChangeSet, ws: Option<Manifest>, r: NodeRef, ids: Graph, wires: Graph)
    requires Passes(g, binding, cs, ws, ids, wires) && NodeIdentityEquals(r) in cs.preconditions
    ensures LocateKey(ids, KeyOf(r)) == At(r.path) && r.path != []
    ensures r.path in g && g[r.path].kind == r.kind && (r.nodeId.Some? ==> MirrorOf(g[r.path], NodeIdKey) == r.nodeId)
    ensures r.workspaceId.Some? ==> MirrorOf(g[r.path], WorkspaceKey) == r.workspaceId
  {
    hide CollectRefs, RefOk;
    assert ConditionHolds(g, binding, cs, ws, NodeIdentityEquals(r), ids, wires);
    assert r in ConditionRef(NodeIdentityEquals(r));
    CollectsAll(cs, r);
    var q :| q in CollectRefs(cs) && SameSpot(q, r);
    KnownRefsOk(g, binding, cs, ws, q, ids, wires);
    assert KeyOf(q) == KeyOf(r);
  }

  /** Where every guarded read succeeds, it pins the reference. */
  lemma PassesPins(g: Graph, binding: Binding, cs: ChangeSet, ws: Option<Manifest>, r: NodeRef)
    requires Passes(g, binding, cs, ws) && NodeIdentityEquals(r) in cs.preconditions
    ensures Pinned(g, r) && g[r.path].kind == r.kind
    ensures LocateKey(g, KeyOf(r)) == At(r.path)
  {
    hide CollectRefs, RefOk, Run;
    PassesSees(g, binding, cs, ws, r, g, g);
  }

  lemma PassesCondition(g: Graph, binding: Binding, cs: ChangeSet, ws: Option<Manifest>, c: Condition)
    requires Passes(g, binding, cs, ws) && c in cs.preconditions
    ensures ConditionHolds(g, binding, cs, ws, c)
  {
  }

  lemma PassesKnown(g: Graph, binding: Binding, cs: ChangeSet, ws: Option<Manifest>, ids: Graph := g, wires: Graph := g)
    requires Passes(g, binding, cs, ws, ids, wires)
    ensures Run(g, binding, cs, ws, ids, wires).Known?
  {
  }

  lemma PinnedByKey(g: Graph, r: NodeRef)
    requires Pinned(g, r)
    ensures LocateKey(g, KeyOf(r)) == At(r.path)
  {
  }

  /** A preflight that raised nothing found every node to be created absent, by id and by path. */
  lemma KnownCreatesAbsent(g: Graph, binding: Binding, cs: ChangeSet, ws: Option<Manifest>, m: int, ids: Graph := g,
                           wires: Graph := g)
    requires Run(g, binding, cs, ws, ids, wires).Known? && ValidChangeSet(cs)
    requires 0 <= m < |cs.operations| && cs.operations[m].CreateNode?
    ensures CreatedPath(cs.operations[m]) !in ids && Mirrors(ids, cs.operations[m].nodeId) == {}
  {
    var op := cs.operations[m];
    assert CreatedRef(op) in RefsInOrder(op);
    CollectsAll(cs, CreatedRef(op));
    var q :| q in CollectRefs(cs) && SameSpot(q, CreatedRef(op));
    assert op.nodeId in CreatedIds(cs.operations);
    KnownRefsOk(g, binding, cs, ws, q, ids, wires);
    TargetAbsent(ids, q);
  }

  lemma KnownRefsOk(g: Graph, binding: Binding, cs: ChangeSet, ws: Option<Manifest>, q: NodeRef, ids: Graph := g,
                    wires: Graph := g)
    requires Run(g, binding, cs, ws, ids, wires).Known? && q in CollectRefs(cs)
    ensures RefOk(g, cs, ws, q, ids) && ResolutionError(ids, KeyOf(q)).None?
  {
    hide RefOk, ResolutionError, GatherFacts, CollectRefs;
  }

  lemma TargetAbsent(g: Graph, q: NodeRef)
    requires CreateTargetOk(g, q)
    ensures q.path !in g && (q.nodeId.Some? ==> Mirrors(g, q.nodeId.value) == {})
  {
  }

  /** Where every reference is among the affected nodes, preflight looks at those only. */
  lemma CollectsAffected(cs: ChangeSet)
    requires forall q :: q in cs.readDeps ==> q in cs.affected
    requires forall i, q :: 0 <= i < |cs.operations| && q in RefsInOrder(cs.operations[i]) ==> q in cs.affected
    requires forall i, q :: 0 <= i < |cs.preconditions| && q in ConditionRef(cs.preconditions[i]) ==> q in cs.affected
    ensures forall q :: q in CollectRefs(cs) ==> q in cs.affected
  {
    hide Dedup, AllOpRefs, AllConditionRefs, HasSpot;
    var all := cs.affected + cs.readDeps + AllOpRefs(cs.operations) + AllConditionRefs(cs.preconditions);
    forall q | q in all ensures q in cs.affected { }
  }

  lemma PassesIf(g: Graph, binding: Binding, cs: ChangeSet, ws: Option<Manifest>)
    requires binding.epoch == cs.binding.epoch && (ws.Some? ==> ws.value.binding == binding)
    requires forall r :: r in CollectRefs(cs) ==> RefOk(g, cs, ws, r) && ResolutionError(g, KeyOf(r)).None?
    requires forall c :: c in cs.preconditions ==> ConditionHolds(g, binding, cs, ws, c)
    ensures Passes(g, binding, cs, ws)
  {
    hide CollectRefs, RefOk, ResolutionError, ConditionHolds, NodeFacts, ParmFacts, WireFacts, Results;
  }

  /** Without locked nodes no path is locked. */
  lemma NothingLocked(g: Graph, binding: Binding, cs: ChangeSet, ws: Option<Manifest>)
    requires forall p :: p in g ==> !g[p].locked
    ensures LockedPaths(GatherFacts(g, binding, cs, ws)) == {}
  {
    hide CollectRefs, ConditionHolds, LocateKey;
    var f := GatherFacts(g, binding, cs, ws);
    assert f.nodes == NodeFacts(g, CollectRefs(cs));
  }
}
