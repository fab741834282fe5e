/** The ChangeSet data model and the construction-time rules of a ChangeSet. */
module Contracts {
  import opened Wrappers

  /** A node path as its segments below the scene root; the root is []. */
  type Path = seq<string>

  datatype Binding = Binding(instance: string, epoch: int)

  datatype NodeRef = NodeRef(nodeId: Option<string>, path: Path, kind: string, workspaceId: Option<string>)

  datatype WireRef = WireRef(source: NodeRef, output: nat)

  datatype Operation =
    | CreateNode(opId: string, parent: NodeRef, nodeId: string, kind: string, name: string,
                 workspaceId: string, capability: string, role: string)
    | SetParm(opId: string, target: NodeRef, parm: string, value: string, expectedOld: string)
    | ConnectInput(opId: string, target: NodeRef, input: nat, source: NodeRef, output: nat,
                   expectedOldSource: Option<WireRef>)

  datatype Condition =
    | SceneBindingEquals(binding: Binding)
    | WorkspaceRevisionEquals(workspaceId: string, revision: string)
    | NodeIdentityEquals(node: NodeRef)
    | ParmValueEquals(target: NodeRef, parm: string, value: string)
    | WireInputEquals(target: NodeRef, input: nat, wire: Option<WireRef>)
    | NodeAbsent(path: Path, nodeId: string)

  datatype Effect = NodeCreateEffect | ParmSetEffect | WireConnectEffect

  datatype Permission = OwnedWorkspace | ScopedPatch | ProjectChange

  datatype RiskSummary = RiskSummary(touchesExternal: bool, changesWiring: bool, requiresBackup: bool,
                                     operationCount: int, effects: set<Effect>, affectedPaths: set<Path>)

  datatype ParmSnapshot = ParmSnapshot(target: NodeRef, parm: string)

  datatype WireSnapshot = WireSnapshot(target: NodeRef, input: nat)

  datatype CheckpointPlan = CheckpointPlan(nodes: seq<NodeRef>, parms: seq<ParmSnapshot>, wires: seq<WireSnapshot>)

  datatype OwnedNode = OwnedNode(nodeId: string, path: Path, kind: string, parentPath: Path,
                                 capability: string, role: string)

  datatype Manifest = Manifest(workspaceId: string, sessionId: string, binding: Binding, revision: string,
                               roots: seq<OwnedNode>, nodes: seq<OwnedNode>, createdByRun: string)

  datatype ChangeSet = ChangeSet(changeId: string, sessionId: string, runId: string, binding: Binding,
                                 workspaceId: Option<string>, permission: Permission, scopedIds: set<string>,
                                 operations: seq<Operation>, affected: seq<NodeRef>, readDeps: seq<NodeRef>,
                                 preconditions: seq<Condition>, postconditions: seq<Condition>,
                                 risk: RiskSummary, checkpoint: CheckpointPlan)

  datatype ReceiptStatus = Applied | AlreadyApplied | RolledBack | Partial | CriticalRecovery

  datatype Receipt = Receipt(changeId: string, status: ReceiptStatus, binding: Binding, appliedOps: seq<string>,
                             postResults: seq<bool>, rollbackResults: seq<bool>, sceneMayHaveChanged: bool,
                             errorCode: Option<string>, errorMessage: Option<string>)

  /** What a reference is identified by: its stable id when it has one, else its path.
      An identifier never contains '/', so the two kinds of key never collide. */
  datatype Key = ById(id: string) | ByPath(path: Path)

  function KeyOf(r: NodeRef): Key {
    if r.nodeId.Some? then ById(r.nodeId.value) else ByPath(r.path)
  }

  /** Canonical JSON and SHA-256 are taken as one injective function: the digest of a ChangeSet is its value. */
  type Digest = ChangeSet

  function CreatedPath(op: Operation): Path
    requires op.CreateNode?
  {
    op.parent.path + [op.name]
  }

  /** The reference later operations must use for the node that `op` creates. */
  function CreatedRef(op: Operation): NodeRef
    requires op.CreateNode?
  {
    NodeRef(Some(op.nodeId), CreatedPath(op), op.kind, Some(op.workspaceId))
  }

  function CreatedIds(ops: seq<Operation>): set<string> {
    set m | 0 <= m < |ops| && ops[m].CreateNode? :: ops[m].nodeId
  }

  function CreatedPaths(ops: seq<Operation>): set<Path> {
    set m | 0 <= m < |ops| && ops[m].CreateNode? :: CreatedPath(ops[m])
  }

  /** The references an operation resolves when it runs. */
  function UsedRefs(op: Operation): set<NodeRef> {
    match op
    case CreateNode(_, parent, _, _, _, _, _, _) => {parent}
    case SetParm(_, target, _, _, _) => {target}
    case ConnectInput(_, target, _, source, _, _) => {target, source}
  }

  /** Every reference an operation carries, the expected old source included. */
  function OpRefs(op: Operation): set<NodeRef> {
    if op.ConnectInput? && op.expectedOldSource.Some?
    then UsedRefs(op) + {op.expectedOldSource.value.source}
    else UsedRefs(op)
  }

  function ConditionRefs(c: Condition): set<NodeRef> {
    match c
    case NodeIdentityEquals(node) => {node}
    case ParmValueEquals(target, _, _) => {target}
    case WireInputEquals(target, _, wire) => if wire.Some? then {target, wire.value.source} else {target}
    case _ => {}
  }

  predicate UniqueCreated(ops: seq<Operation>) {
    forall i, j :: 0 <= i < j < |ops| && ops[i].CreateNode? && ops[j].CreateNode?
      ==> ops[i].nodeId != ops[j].nodeId && CreatedPath(ops[i]) != CreatedPath(ops[j])
  }

  /** A reference that shares the id or the path of a created node is exactly that node's reference,
      and the creating operation comes before `limit`. */
  predicate CreatedRefOk(ops: seq<Operation>, r: NodeRef, limit: int) {
    forall m :: 0 <= m < |ops| && ops[m].CreateNode?
                && (r.nodeId == Some(ops[m].nodeId) || r.path == CreatedPath(ops[m]))
      ==> r == CreatedRef(ops[m]) && m < limit
  }

  predicate MentionsCreated(ops: seq<Operation>, r: NodeRef) {
    (r.nodeId.Some? && r.nodeId.value in CreatedIds(ops)) || r.path in CreatedPaths(ops)
  }

  /** The forward-reference rule over every place where a ChangeSet embeds a reference. */
  predicate CreatedReferencesOk(cs: ChangeSet) {
    var ops, n := cs.operations, |cs.operations|;
    && (forall i, r :: 0 <= i < n && r in OpRefs(ops[i]) ==> CreatedRefOk(ops, r, i))
    && (forall r :: r in cs.affected ==> CreatedRefOk(ops, r, n))
    && (forall r :: r in cs.readDeps ==> CreatedRefOk(ops, r, n))
    && (forall c, r :: c in cs.preconditions && r in ConditionRefs(c)
          ==> CreatedRefOk(ops, r, n) && !MentionsCreated(ops, r))
    && (forall c, r :: c in cs.postconditions && r in ConditionRefs(c) ==> CreatedRefOk(ops, r, n))
    && (forall r :: r in cs.checkpoint.nodes ==> CreatedRefOk(ops, r, n) && !MentionsCreated(ops, r))
    && (forall s :: s in cs.checkpoint.parms ==> CreatedRefOk(ops, s.target, n) && !MentionsCreated(ops, s.target))
    && (forall s :: s in cs.checkpoint.wires ==> CreatedRefOk(ops, s.target, n) && !MentionsCreated(ops, s.target))
  }

  /** No two references of the list share a stable id or a path. */
  predicate UniqueRefs(refs: seq<NodeRef>) {
    forall i, j :: 0 <= i < j < |refs|
      ==> refs[i].path != refs[j].path && (refs[i].nodeId.Some? ==> refs[i].nodeId != refs[j].nodeId)
  }

  /** No two manifest entries share an id or a path. */
  predicate UniqueNodes(nodes: seq<OwnedNode>) {
    forall i, j :: 0 <= i < j < |nodes| ==> nodes[i].nodeId != nodes[j].nodeId && nodes[i].path != nodes[j].path
  }

  predicate IsPostcondition(c: Condition) {
    c.NodeIdentityEquals? || c.ParmValueEquals? || c.WireInputEquals?
  }

  /** What two conditions of one list may not share. */
  predicate SameConditionSlot(a: Condition, b: Condition) {
    match (a, b)
    case (SceneBindingEquals(_), SceneBindingEquals(_)) => true
    case (WorkspaceRevisionEquals(w, _), WorkspaceRevisionEquals(v, _)) => w == v
    case (NodeIdentityEquals(m), NodeIdentityEquals(n)) => KeyOf(m) == KeyOf(n)
    case (ParmValueEquals(m, p, _), ParmValueEquals(n, q, _)) => KeyOf(m) == KeyOf(n) && p == q
    case (WireInputEquals(m, i, _), WireInputEquals(n, j, _)) => KeyOf(m) == KeyOf(n) && i == j
    case (NodeAbsent(p, x), NodeAbsent(q, y)) => p == q && x == y
    case _ => false
  }

  predicate ConsistentConditions(cs: seq<Condition>) {
    && (forall i, j :: 0 <= i < j < |cs| ==> !SameConditionSlot(cs[i], cs[j]))
    && (forall a, b :: a in cs && b in cs && a.NodeAbsent? && b.NodeIdentityEquals? ==> a.path != b.node.path)
  }

  /** The ChangeSets that can be constructed at all. */
  predicate ValidChangeSet(cs: ChangeSet) {
    && cs.operations != []
    && (forall i, j :: 0 <= i < j < |cs.operations| ==> cs.operations[i].opId != cs.operations[j].opId)
    && UniqueCreated(cs.operations)
    && UniqueRefs(cs.affected)
    && UniqueRefs(cs.readDeps)
    && ConsistentConditions(cs.preconditions)
    && ConsistentConditions(cs.postconditions)
    && (forall c :: c in cs.postconditions ==> IsPostcondition(c))
    && CreatedReferencesOk(cs)
  }

  /** Without creates there is nothing a reference could clash with. */
  lemma NothingCreated(cs: ChangeSet)
    requires forall i :: 0 <= i < |cs.operations| ==> !cs.operations[i].CreateNode?
    ensures CreatedReferencesOk(cs)
  {
  }
}
