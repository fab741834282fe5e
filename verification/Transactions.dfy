/** The write transaction as values: what each operation does, what it journals, and what undoing the journal gives. */
module Transactions {
  import opened Wrappers
  import opened Contracts
  import opened SceneGraph

  const SUPPORTED_SCHEMA := "1"

  /** What a transaction reads besides the scene: the parameters each node type starts with,
      the run, and the capability and role of every node the transaction creates. */
  datatype TxEnv = TxEnv(defaults: map<string, map<string, string>>, runId: string,
                         created: map<string, (string, string)>)

  function CreatedIdentity(ops: seq<Operation>): map<string, (string, string)>
    requires UniqueCreated(ops)
  {
    map m | 0 <= m < |ops| && ops[m].CreateNode? :: ops[m].nodeId := (ops[m].capability, ops[m].role)
  }

  predicate IsCreatedRef(env: TxEnv, r: NodeRef) {
    r.nodeId.Some? && r.nodeId.value in env.created
  }

  function FullMirror(env: TxEnv, op: Operation): map<MirrorKey, string>
    requires op.CreateNode?
  {
    map[NodeIdKey := op.nodeId, WorkspaceKey := op.workspaceId, CapabilityKey := op.capability,
        RoleKey := op.role, SchemaKey := SUPPORTED_SCHEMA, RunKey := env.runId]
  }

  function BareNode(env: TxEnv, op: Operation): Node
    requires op.CreateNode? && op.kind in env.defaults
  {
    Node(op.kind, map[], env.defaults[op.kind], map[], false)
  }

  function NewNode(env: TxEnv, op: Operation): Node
    requires op.CreateNode? && op.kind in env.defaults
  {
    BareNode(env, op).(mirror := FullMirror(env, op))
  }

  /** The identity check on a node of this transaction before it is used. */
  predicate VerifiedCreated(g: Graph, env: TxEnv, p: Path, r: NodeRef)
    requires IsCreatedRef(env, r)
  {
    && p in g
    && MirrorOf(g[p], NodeIdKey) == r.nodeId
    && MirrorOf(g[p], WorkspaceKey) == Some(if r.workspaceId.Some? then r.workspaceId.value else "")
    && MirrorOf(g[p], CapabilityKey) == Some(env.created[r.nodeId.value].0)
    && MirrorOf(g[p], RoleKey) == Some(env.created[r.nodeId.value].1)
    && MirrorOf(g[p], SchemaKey) == Some(SUPPORTED_SCHEMA)
    && MirrorOf(g[p], RunKey) == Some(env.runId)
    && p == r.path
    && g[p].kind == r.kind
  }

  predicate UseOk(g: Graph, env: TxEnv, p: Path, r: NodeRef) {
    IsCreatedRef(env, r) ==> VerifiedCreated(g, env, p, r)
  }

  // ---- forward execution -------------------------------------------------

  /** The effect an operation stands for, whatever the slot held before. */
  function Write(g: Graph, env: TxEnv, op: Operation): Graph {
    match op
    case CreateNode(_, parent, _, kind, name, _, _, _) =>
      var f := Locate(g, parent);
      if f.At? && f.path + [name] !in g && kind in env.defaults then g[f.path + [name] := NewNode(env, op)] else g
    case SetParm(_, target, parm, value, _) =>
      var f := Locate(g, target);
      if f.At? && ParmAt(g, f.path, parm).Some? then WithParm(g, f.path, parm, value) else g
    case ConnectInput(_, target, input, source, output, _) =>
      var f, s := Locate(g, target), Locate(g, source);
      if f.At? && s.At? then WithInput(g, f.path, input, Some(Wire(s.path, output))) else g
  }

  function Writes(g: Graph, env: TxEnv, ops: seq<Operation>): Graph {
    if ops == [] then g else Write(Writes(g, env, ops[..|ops| - 1]), env, ops[|ops| - 1])
  }

  /** One operation with its just-in-time checks, when no call of the scene fails. */
  function ExecOp(g: Graph, env: TxEnv, op: Operation): Option<Graph> {
    match op
    case CreateNode(_, parent, _, kind, name, _, _, _) =>
      var f := Locate(g, parent);
      if f.At? && UseOk(g, env, f.path, parent) && kind in env.defaults && f.path + [name] !in g
      then Some(g[f.path + [name] := NewNode(env, op)]) else None
    case SetParm(_, target, parm, value, expectedOld) =>
      var f := Locate(g, target);
      if f.At? && UseOk(g, env, f.path, target) && ParmAt(g, f.path, parm) == Some(expectedOld)
      then Some(WithParm(g, f.path, parm, value)) else None
    case ConnectInput(_, target, input, source, output, expectedOldSource) =>
      var f, s := Locate(g, target), Locate(g, source);
      if f.At? && s.At? && UseOk(g, env, f.path, target) && UseOk(g, env, s.path, source)
         && WireEqual(ReadWire(g, f.path, input), expectedOldSource) && OldSourceOk(g, env, expectedOldSource)
      then Some(WithInput(g, f.path, input, Some(Wire(s.path, output)))) else None
  }

  predicate OldSourceOk(g: Graph, env: TxEnv, prior: Option<WireRef>) {
    prior.Some? && IsCreatedRef(env, prior.value.source) ==>
      var f := Locate(g, prior.value.source);
      f.At? && VerifiedCreated(g, env, f.path, prior.value.source)
  }

  function ExecOps(g: Graph, env: TxEnv, ops: seq<Operation>): Option<Graph> {
    if ops == [] then Some(g) else
    var before := ExecOps(g, env, ops[..|ops| - 1]);
    if before.None? then None else ExecOp(before.value, env, ops[|ops| - 1])
  }

  predicate KindsKnown(env: TxEnv, ops: seq<Operation>) {
    forall i :: 0 <= i < |ops| && ops[i].CreateNode? ==> ops[i].kind in env.defaults
  }

  /** A checked execution that succeeds has exactly the unconditional effect. */
  lemma {:induction false} ExecIsWrite(g: Graph, env: TxEnv, ops: seq<Operation>)
    requires ExecOps(g, env, ops).Some?
    ensures ExecOps(g, env, ops).value == Writes(g, env, ops)
  {
    if ops != [] {
      ExecIsWrite(g, env, ops[..|ops| - 1]);
    }
  }

  lemma {:induction false} ExecKinds(g: Graph, env: TxEnv, ops: seq<Operation>)
    requires ExecOps(g, env, ops).Some?
    ensures KindsKnown(env, ops)
  {
    if ops != [] {
      var front := ops[..|ops| - 1];
      ExecKinds(g, env, front);
      forall i | 0 <= i < |ops| && ops[i].CreateNode? ensures ops[i].kind in env.defaults {
        if i < |front| { assert front[i] == ops[i]; }
      }
    }
  }

  lemma {:induction false} ExecPrefix(g: Graph, env: TxEnv, ops: seq<Operation>, k: nat)
    requires k <= |ops| && ExecOps(g, env, ops).Some?
    ensures ExecOps(g, env, ops[..k]).Some?
    decreases |ops|
  {
    if k == |ops| {
      assert ops[..k] == ops;
    } else {
      assert ops[..|ops| - 1][..k] == ops[..k];
      ExecPrefix(g, env, ops[..|ops| - 1], k);
    }
  }

  // ---- resolution along the run -----------------------------------------

  /** The reference is created by an operation from `k` on, before operation `j`. */
  predicate CreatedBetween(ops: seq<Operation>, k: int, j: int, r: NodeRef) {
    exists m :: 0 <= k <= m < j <= |ops| && ops[m].CreateNode? && r == CreatedRef(ops[m])
  }

  ghost predicate RefReady(g: Graph, env: TxEnv, ops: seq<Operation>, k: int, j: int, r: NodeRef)
    requires 0 <= j < |ops|
  {
    CreatedBetween(ops, k, j, r)
    || ((r in UsedRefs(ops[j]) || IsCreatedRef(env, r)) ==> Pinned(g, r) && UseOk(g, env, r.path, r))
  }

  /** From operation `k` on, every reference an operation resolves is either in the scene at its own path,
      or created by an earlier one of these operations; and what is to be created is absent. */
  ghost predicate Ready(g: Graph, env: TxEnv, ops: seq<Operation>, k: int) {
    && 0 <= k <= |ops|
    && UniqueCreated(ops)
    && env.created == CreatedIdentity(ops)
    && (forall j, r :: k <= j < |ops| && r in OpRefs(ops[j]) ==> RefReady(g, env, ops, k, j, r))
    && (forall m :: k <= m < |ops| && ops[m].CreateNode? ==>
          CreatedPath(ops[m]) !in g && Mirrors(g, ops[m].nodeId) == {})
  }

  lemma ReadyResolves(g: Graph, env: TxEnv, ops: seq<Operation>, k: int, r: NodeRef)
    requires Ready(g, env, ops, k) && k < |ops| && r in UsedRefs(ops[k])
    ensures Pinned(g, r) && UseOk(g, env, r.path, r) && Locate(g, r) == At(r.path)
  {
    assert RefReady(g, env, ops, k, k, r);
  }

  lemma CreatedMirrors(g: Graph, env: TxEnv, op: Operation, p: Path, n: Node)
    requires op.CreateNode? && p !in g && p != []
    requires NodeIdKey in n.mirror ==> n.mirror[NodeIdKey] == op.nodeId
    ensures forall id :: id != op.nodeId ==> Mirrors(g[p := n], id) == Mirrors(g, id)
    ensures Mirrors(g[p := n], op.nodeId) == Mirrors(g, op.nodeId) + (if NodeIdKey in n.mirror then {p} else {})
  {
  }

  /** Executing the next operation keeps the rest of the run resolvable. */
  lemma ReadyStep(g: Graph, env: TxEnv, ops: seq<Operation>, k: int, h: Graph)
    requires Ready(g, env, ops, k) && k < |ops| && ExecOp(g, env, ops[k]) == Some(h)
    ensures Ready(h, env, ops, k + 1)
  {
    if ops[k].CreateNode? {
      ReadyResolves(g, env, ops, k, ops[k].parent);
      ReadyStepCreate(g, env, ops, k, h);
    } else {
      SlotShape(g, env, ops[k], h);
      ReadyStepSlot(g, env, ops, k, h);
    }
  }

  lemma SlotShape(g: Graph, env: TxEnv, op: Operation, h: Graph)
    requires !op.CreateNode? && ExecOp(g, env, op) == Some(h)
    ensures g.Keys == h.Keys && forall p :: p in g ==> g[p].mirror == h[p].mirror && g[p].kind == h[p].kind
  {
  }

  lemma ReadyStepSlot(g: Graph, env: TxEnv, ops: seq<Operation>, k: int, h: Graph)
    requires Ready(g, env, ops, k) && k < |ops| && !ops[k].CreateNode?
    requires g.Keys == h.Keys && forall p :: p in g ==> g[p].mirror == h[p].mirror && g[p].kind == h[p].kind
    ensures Ready(h, env, ops, k + 1)
  {
    SameMirrors(g, h);
    forall j, r | k + 1 <= j < |ops| && r in OpRefs(ops[j]) ensures RefReady(h, env, ops, k + 1, j, r) {
      assert RefReady(g, env, ops, k, j, r);
      if CreatedBetween(ops, k, j, r) {
        assert CreatedBetween(ops, k + 1, j, r);
      }
    }
  }

  lemma ReadyStepCreate(g: Graph, env: TxEnv, ops: seq<Operation>, k: int, h: Graph)
    requires Ready(g, env, ops, k) && k < |ops| && ops[k].CreateNode? && ops[k].kind in env.defaults
    requires h == g[CreatedPath(ops[k]) := NewNode(env, ops[k])]
    ensures Ready(h, env, ops, k + 1)
  {
    var op, p := ops[k], CreatedPath(ops[k]);
    CreatedMirrors(g, env, op, p, NewNode(env, op));
    forall j, r | k + 1 <= j < |ops| && r in OpRefs(ops[j]) ensures RefReady(h, env, ops, k + 1, j, r) {
      RefReadyCreate(g, env, ops, k, h, j, r);
    }
  }

  lemma RefReadyCreate(g: Graph, env: TxEnv, ops: seq<Operation>, k: int, h: Graph, j: int, r: NodeRef)
    requires 0 <= k < j < |ops| && ops[k].CreateNode? && ops[k].kind in env.defaults
    requires UniqueCreated(ops) && env.created == CreatedIdentity(ops)
    requires CreatedPath(ops[k]) !in g && Mirrors(g, ops[k].nodeId) == {}
    requires h == g[CreatedPath(ops[k]) := NewNode(env, ops[k])]
    requires RefReady(g, env, ops, k, j, r)
    ensures RefReady(h, env, ops, k + 1, j, r)
  {
    var op, p := ops[k], CreatedPath(ops[k]);
    CreatedMirrors(g, env, op, p, NewNode(env, op));
    if r == CreatedRef(op) {
      assert env.created[op.nodeId] == (op.capability, op.role);
      assert Pinned(h, r) && VerifiedCreated(h, env, p, r);
    } else if CreatedBetween(ops, k, j, r) {
      var m :| k <= m < j && ops[m].CreateNode? && r == CreatedRef(ops[m]);
      assert m != k;
      assert CreatedBetween(ops, k + 1, j, r);
    }
  }

  // ---- the journal -------------------------------------------------------

  datatype Inverse =
    | UndoCreate(path: Path, mirror: map<MirrorKey, string>, made: Path)
    | UndoParm(target: NodeRef, parm: string, prior: string)
    | UndoWire(target: NodeRef, input: nat, source: Option<WireRef>)

  /** What an inverse is meant to do. A created node is known by its path, and by where it was made. */
  function Undo(g: Graph, inv: Inverse): Graph {
    match inv
    case UndoCreate(path, _, _) => Destroyed(g, path)
    case UndoParm(target, parm, prior) => if target.path in g then WithParm(g, target.path, parm, prior) else g
    case UndoWire(target, input, source) =>
      if target.path in g then WithInput(g, target.path, input, WireOf(source)) else g
  }

  /** What an operation journals when it runs in `g`. */
  function InverseOf(g: Graph, env: TxEnv, op: Operation): Inverse {
    match op
    case CreateNode(_, _, _, _, _, _, _, _) => UndoCreate(CreatedPath(op), FullMirror(env, op), CreatedPath(op))
    case SetParm(_, target, parm, _, expectedOld) => UndoParm(target, parm, expectedOld)
    case ConnectInput(_, target, input, _, _, _) => UndoWire(target, input, ReadWire(g, target.path, input))
  }

  /** The journal of a run that went through. */
  function JournalAlong(g: Graph, env: TxEnv, ops: seq<Operation>): (journal: seq<Inverse>)
    requires ExecOps(g, env, ops).Some?
    ensures |journal| == |ops|
  {
    if ops == [] then [] else
    var front := ops[..|ops| - 1];
    JournalAlong(g, env, front) + [InverseOf(ExecOps(g, env, front).value, env, ops[|ops| - 1])]
  }

  /** Undoing a journal in strict reverse order. */
  function UndoAll(g: Graph, journal: seq<Inverse>): Graph {
    if journal == [] then g else UndoAll(Undo(g, journal[|journal| - 1]), journal[..|journal| - 1])
  }

  function UndonePaths(inv: Inverse): set<Path> {
    match inv
    case UndoCreate(path, _, _) => {path}
    case UndoParm(target, _, _) => {target.path}
    case UndoWire(target, _, source) => {target.path} + (if source.Some? then {source.value.source.path} else {})
  }

  function FootprintOf(ops: seq<Operation>): Footprint {
    Footprint(CreatedPaths(ops),
              set m | 0 <= m < |ops| && ops[m].SetParm? :: (ops[m].target.path, ops[m].parm),
              set m | 0 <= m < |ops| && ops[m].ConnectInput? :: (ops[m].target.path, ops[m].input))
  }

  /** Every intended key is unset or has the intended value. */
  predicate MirrorMatches(mirror: map<MirrorKey, string>, intended: map<MirrorKey, string>) {
    forall k :: k in intended && k in mirror ==> mirror[k] == intended[k]
  }

  ghost predicate InverseSound(g: Graph, fp: Footprint, inv: Inverse) {
    && (forall p :: p in UndonePaths(inv) ==> p in g)
    && match inv
       case UndoCreate(path, mirror, made) =>
         path in fp.created && path != [] && made == path && MirrorMatches(g[path].mirror, mirror)
       case UndoParm(target, parm, _) =>
         Pinned(g, target) && (target.path, parm) in fp.parms && ParmAt(g, target.path, parm).Some?
       case UndoWire(target, input, source) =>
         Pinned(g, target) && (target.path, input) in fp.wires
         && (source.Some? ==> SourceSound(g, source.value.source))
  }

  /** The source as it was read is still the node at that path. */
  ghost predicate SourceSound(g: Graph, r: NodeRef) {
    r.path in g && r.path != [] && g[r.path].kind == r.kind
    && (r.nodeId.Some? ==> MirrorOf(g[r.path], NodeIdKey) == r.nodeId)
    && (r.workspaceId.Some? ==> MirrorOf(g[r.path], WorkspaceKey) == r.workspaceId)
  }

  /** No stable id is mirrored twice. */
  ghost predicate UniqueMirrors(g: Graph) {
    forall p, id :: p in g && p != [] && MirrorOf(g[p], NodeIdKey) == Some(id) ==> Mirrors(g, id) == {p}
  }

  /** No inverse needs a node that the reverse pass has destroyed by then. */
  ghost predicate JournalOrdered(journal: seq<Inverse>) {
    forall k, j, p :: 0 <= k < j < |journal| && journal[j].UndoCreate? && p in UndonePaths(journal[k])
      ==> !(journal[j].path <= p)
  }

  /** What every step of a transaction keeps. */
  ghost predicate TxInv(g0: Graph, g: Graph, fp: Footprint, journal: seq<Inverse>) {
    && Tree(g0)
    && Tree(g)
    && Confined(g0, g, fp)
    && UndoAll(g, journal) == g0
    && (forall inv :: inv in journal ==> InverseSound(g, fp, inv))
    && JournalOrdered(journal)
  }

  lemma UndoAllLast(g: Graph, journal: seq<Inverse>, inv: Inverse)
    ensures UndoAll(g, journal + [inv]) == UndoAll(Undo(g, inv), journal)
  {
    assert (journal + [inv])[..|journal|] == journal;
  }

  lemma SoundAcross(g: Graph, h: Graph, fp: Footprint, journal: seq<Inverse>)
    requires forall inv :: inv in journal ==> InverseSound(g, fp, inv)
    requires SameShape(g, h)
    ensures forall inv :: inv in journal ==> InverseSound(h, fp, inv)
  {
    SameMirrors(g, h);
    forall inv | inv in journal ensures InverseSound(h, fp, inv) {
      assert InverseSound(g, fp, inv);
    }
  }

  /** The scenes differ at most in parameter values and inputs. */
  ghost predicate SameShape(g: Graph, h: Graph) {
    g.Keys == h.Keys
    && forall p :: p in g ==>
         g[p].mirror == h[p].mirror && g[p].kind == h[p].kind && g[p].parms.Keys == h[p].parms.Keys
  }

  /** A slot write from `g` to `h` whose inverse leads from either scene back to `g`. */
  lemma JournalSlot(g0: Graph, g: Graph, h: Graph, fp: Footprint, journal: seq<Inverse>, inv: Inverse)
    requires TxInv(g0, g, fp, journal)
    requires !inv.UndoCreate? && InverseSound(g, fp, inv)
    requires Undo(h, inv) == g
    requires Tree(h) && Confined(g0, h, fp)
    requires SameShape(g, h)
    ensures TxInv(g0, h, fp, journal + [inv])
  {
    UndoAllLast(h, journal, inv);
    SoundAcross(g, h, fp, journal + [inv]);
    var full := journal + [inv];
    forall k, j, p | 0 <= k < j < |full| && full[j].UndoCreate? && p in UndonePaths(full[k])
      ensures !(full[j].path <= p)
    {
      assert full[k] == journal[k] && full[j] == journal[j];
    }
  }

  lemma UndoneParm(g: Graph, r: NodeRef, name: string, prior: string, v: string)
    requires ParmAt(g, r.path, name) == Some(prior)
    ensures Undo(g, UndoParm(r, name, prior)) == g
    ensures Undo(WithParm(g, r.path, name, v), UndoParm(r, name, prior)) == g
  {
    assert g[r.path].parms[name := prior] == g[r.path].parms;
    assert g[r.path].parms[name := v][name := prior] == g[r.path].parms;
  }

  lemma UndoneWire(g: Graph, r: NodeRef, i: nat, w: Option<Wire>)
    requires Tree(g) && r.path in g
    ensures WireOf(ReadWire(g, r.path, i)) == InputAt(g, r.path, i)
    ensures ReadWire(g, r.path, i).Some? ==> SourceSound(g, ReadWire(g, r.path, i).value.source)
    ensures Undo(g, UndoWire(r, i, ReadWire(g, r.path, i))) == g
    ensures Undo(WithInput(g, r.path, i, w), UndoWire(r, i, ReadWire(g, r.path, i))) == g
  {
    var was := InputAt(g, r.path, i);
    assert WireOf(ReadWire(g, r.path, i)) == was;
    var h := WithInput(g, r.path, i, w);
    assert WithInput(g, r.path, i, was)[r.path].inputs == g[r.path].inputs;
    assert WithInput(h, r.path, i, was)[r.path].inputs == g[r.path].inputs;
  }

  lemma InputKeepsTree(g: Graph, p: Path, i: nat, w: Option<Wire>)
    requires Tree(g) && p in g && (w.Some? ==> w.value.src in g && w.value.src != [])
    ensures Tree(WithInput(g, p, i, w)) && SameShape(g, WithInput(g, p, i, w))
  {
    var h := WithInput(g, p, i, w);
    forall q, j | q in h && j in h[q].inputs ensures h[q].inputs[j].src in h && h[q].inputs[j].src != [] { }
  }

  lemma ParmKeepsTree(g: Graph, p: Path, name: string, v: string)
    requires Tree(g) && ParmAt(g, p, name).Some?
    ensures Tree(WithParm(g, p, name, v)) && SameShape(g, WithParm(g, p, name, v))
  {
    var h := WithParm(g, p, name, v);
    forall q, j | q in h && j in h[q].inputs ensures h[q].inputs[j].src in h && h[q].inputs[j].src != [] { }
    assert g[p].parms[name := v].Keys == g[p].parms.Keys;
  }

  lemma TxParts(g0: Graph, g: Graph, fp: Footprint, journal: seq<Inverse>)
    requires TxInv(g0, g, fp, journal)
    ensures Tree(g0) && Tree(g) && Confined(g0, g, fp) && SameShape(g, g)
  {
  }

  /** Journaling the old value before a parameter write: sound whether or not the write takes effect. */
  lemma JournalParm(g0: Graph, g: Graph, fp: Footprint, journal: seq<Inverse>, r: NodeRef, name: string,
                    prior: string, v: string)
    requires TxInv(g0, g, fp, journal) && Pinned(g, r) && (r.path, name) in fp.parms
    requires ParmAt(g, r.path, name) == Some(prior)
    ensures TxInv(g0, g, fp, journal + [UndoParm(r, name, prior)])
    ensures TxInv(g0, WithParm(g, r.path, name, v), fp, journal + [UndoParm(r, name, prior)])
  {
    hide TxInv, Tree, Confined, SameShape, Undo;
    TxParts(g0, g, fp, journal);
    UndoneParm(g, r, name, prior, v);
    ParmKeepsTree(g, r.path, name, v);
    ConfinedParm(g0, g, fp, r.path, name, v);
    JournalSlot(g0, g, g, fp, journal, UndoParm(r, name, prior));
    JournalSlot(g0, g, WithParm(g, r.path, name, v), fp, journal, UndoParm(r, name, prior));
  }

  lemma JournalWire(g0: Graph, g: Graph, fp: Footprint, journal: seq<Inverse>, r: NodeRef, i: nat, w: Wire)
    requires TxInv(g0, g, fp, journal) && Pinned(g, r) && (r.path, i) in fp.wires && w.src in g && w.src != []
    ensures TxInv(g0, g, fp, journal + [UndoWire(r, i, ReadWire(g, r.path, i))])
    ensures TxInv(g0, WithInput(g, r.path, i, Some(w)), fp, journal + [UndoWire(r, i, ReadWire(g, r.path, i))])
  {
    hide TxInv, Tree, Confined, SameShape, Undo, ReadWire;
    TxParts(g0, g, fp, journal);
    UndoneWire(g, r, i, Some(w));
    ConfinedInput(g0, g, fp, r.path, i, Some(w));
    InputKeepsTree(g, r.path, i, Some(w));
    JournalSlot(g0, g, g, fp, journal, UndoWire(r, i, ReadWire(g, r.path, i)));
    JournalSlot(g0, g, WithInput(g, r.path, i, Some(w)), fp, journal, UndoWire(r, i, ReadWire(g, r.path, i)));
  }

  lemma SoundPastCreate(g: Graph, fp: Footprint, journal: seq<Inverse>, env: TxEnv, op: Operation, n: Node)
    requires forall inv :: inv in journal ==> InverseSound(g, fp, inv)
    requires op.CreateNode? && CreatedPath(op) !in g && Mirrors(g, op.nodeId) == {}
    requires NodeIdKey in n.mirror ==> n.mirror[NodeIdKey] == op.nodeId
    ensures forall inv :: inv in journal ==> InverseSound(g[CreatedPath(op) := n], fp, inv)
  {
    var h := g[CreatedPath(op) := n];
    CreatedMirrors(g, env, op, CreatedPath(op), n);
    forall inv | inv in journal ensures InverseSound(h, fp, inv) {
      assert InverseSound(g, fp, inv);
    }
  }

  /** Journaling a create right after the node exists: sound however far the identity mirror got. */
  lemma JournalCreate(g0: Graph, g: Graph, fp: Footprint, journal: seq<Inverse>, env: TxEnv, op: Operation,
                      n: Node, mirror: map<MirrorKey, string>)
    requires TxInv(g0, g, fp, journal) && op.CreateNode?
    requires op.parent.path in g && CreatedPath(op) !in g && CreatedPath(op) in fp.created
    requires Mirrors(g, op.nodeId) == {} && n.inputs == map[]
    requires NodeIdKey in n.mirror ==> n.mirror[NodeIdKey] == op.nodeId
    requires MirrorMatches(n.mirror, mirror)
    ensures TxInv(g0, g[CreatedPath(op) := n], fp, journal + [UndoCreate(CreatedPath(op), mirror, CreatedPath(op))])
  {
    hide Confined;
    var p := CreatedPath(op);
    var inv := UndoCreate(p, mirror, p);
    var h := g[p := n];
    UndoAllLast(h, journal, inv);
    DestroyUndoesCreate(g, p, n);
    ConfinedNode(g0, g, fp, p, n);
    CreateKeepsTree(g, op.parent.path, op.name, n);
    NothingBelow(g, p);
    SoundPastCreate(g, fp, journal, env, op, n);
    forall k, j, q | 0 <= k < j < |journal + [inv]| && (journal + [inv])[j].UndoCreate?
                     && q in UndonePaths((journal + [inv])[k])
      ensures !((journal + [inv])[j].path <= q)
    {
      assert (journal + [inv])[k] == journal[k];
      assert InverseSound(g, fp, journal[k]);
    }
  }

  // ---- the reverse pass --------------------------------------------------

  /** Undoing the last inverse keeps every earlier inverse applicable: what it needs is not below what was destroyed. */
  lemma UndoKeepsSound(g: Graph, fp: Footprint, journal: seq<Inverse>)
    requires journal != [] && JournalOrdered(journal)
    requires forall inv :: inv in journal ==> InverseSound(g, fp, inv)
    ensures var h := Undo(g, journal[|journal| - 1]);
            forall inv :: inv in journal[..|journal| - 1] ==> InverseSound(h, fp, inv)
  {
    var n := |journal| - 1;
    var last, front := journal[n], journal[..n];
    if last.UndoCreate? {
      forall inv | inv in front ensures InverseSound(Undo(g, last), fp, inv) {
        var k :| 0 <= k < n && journal[k] == inv;
        assert forall p :: p in UndonePaths(journal[k]) ==> !(last.path <= p);
        SoundPastDestroy(g, fp, inv, last.path);
      }
    } else {
      assert InverseSound(g, fp, last);
      assert forall inv :: inv in front ==> inv in journal;
      SoundAcross(g, Undo(g, last), fp, front);
    }
  }

  lemma SoundPastDestroy(g: Graph, fp: Footprint, inv: Inverse, d: Path)
    requires InverseSound(g, fp, inv) && forall p :: p in UndonePaths(inv) ==> !(d <= p)
    ensures InverseSound(Destroyed(g, d), fp, inv)
  {
    var h := Destroyed(g, d);
    assert forall p :: p in UndonePaths(inv) ==> p in h && h[p].mirror == g[p].mirror && h[p].parms == g[p].parms;
    if !inv.UndoCreate? && inv.target.nodeId.Some? {
      var id := inv.target.nodeId.value;
      assert Mirrors(g, id) == {inv.target.path};
      assert inv.target.path in Mirrors(h, id);
      assert Mirrors(h, id) <= Mirrors(g, id);
    }
  }

  lemma OrderedPrefix(journal: seq<Inverse>, n: nat)
    requires n <= |journal| && JournalOrdered(journal)
    ensures JournalOrdered(journal[..n])
  {
  }

  /** What the rollback index must know about an inverse to aim it. */
  ghost predicate Aimed(fp: Footprint, index: Index, inv: Inverse) {
    match inv
    case UndoCreate(path, _, made) => path in fp.created && path != [] && made == path
    case UndoParm(target, parm, _) =>
      (target.path, parm) in fp.parms && (target.nodeId.Some? ==> Lookup(index, target.nodeId.value) <= {target.path})
    case UndoWire(target, input, source) =>
      (target.path, input) in fp.wires && (target.nodeId.Some? ==> Lookup(index, target.nodeId.value) <= {target.path})
  }

  /** The index knows the source to be connected again by its id. */
  ghost predicate SourceKnown(index: Index, inv: Inverse) {
    inv.UndoWire? && inv.source.Some? && inv.source.value.source.nodeId.Some? ==>
      inv.source.value.source.path in Lookup(index, inv.source.value.source.nodeId.value)
  }

  /** No second node mirrors the id of the source to be connected again. */
  ghost predicate SourceAimed(index: Index, inv: Inverse) {
    inv.UndoWire? && inv.source.Some? && inv.source.value.source.nodeId.Some? ==>
      Lookup(index, inv.source.value.source.nodeId.value) == {inv.source.value.source.path}
  }

  /** The source to be connected again is the only node with its id. */
  ghost predicate SourceUnique(g: Graph, inv: Inverse) {
    inv.UndoWire? && inv.source.Some? && inv.source.value.source.nodeId.Some? ==>
      Mirrors(g, inv.source.value.source.nodeId.value) == {inv.source.value.source.path}
  }

  ghost predicate Restorable(g: Graph, journal: seq<Inverse>) {
    forall inv :: inv in journal ==> SourceUnique(g, inv)
  }
}
