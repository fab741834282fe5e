/** Runs with every reference resolved as the executor resolves it along the way: neither identities nor absence are
    assumed, and creates may come in between. */
module LocatedRuns {
  import opened Wrappers
  import opened Contracts
  import opened SceneGraph
  import opened Transactions
  import opened Preflight
  import opened Acts
  import opened WeakestPre

  // ---- nodes along a run -------------------------------------------------

  function CreateHere(s: Graph, env: TxEnv, op: Operation): Option<Path>
    requires op.CreateNode?
  {
    var f := Locate(s, op.parent);
    if f.At? && f.path + [op.name] !in s && op.kind in env.defaults then Some(f.path + [op.name]) else None
  }

  /** The nodes after some operations: those of the first scene, and what was created where its parent was found. Slots
      are as in the first scene, or as they start. */
  function Skeleton(g: Graph, env: TxEnv, ops: seq<Operation>): Graph {
    if ops == [] then g else
    var s, op := Skeleton(g, env, ops[..|ops| - 1]), ops[|ops| - 1];
    if op.CreateNode? && CreateHere(s, env, op).Some?
    then s[CreateHere(s, env, op).value := Transactions.NewNode(env, op)] else s
  }

  /** The act of an operation, its references resolved among the nodes there are by then. */
  function ActAlong(s: Graph, env: TxEnv, op: Operation): Act {
    if !op.CreateNode? then ActIn(s, op) else
    var p := CreateHere(s, env, op);
    if p.Some? then NewNode(p.value, Transactions.NewNode(env, op)) else Nothing
  }

  function ActsAlong(g: Graph, env: TxEnv, ops: seq<Operation>): (acts: seq<Act>)
    ensures |acts| == |ops|
  {
    if ops == [] then [] else
    var front := ops[..|ops| - 1];
    ActsAlong(g, env, front) + [ActAlong(Skeleton(g, env, front), env, ops[|ops| - 1])]
  }

  /** The scenes have the same nodes, and differ in their slots at most. */
  ghost predicate SameNodes(s: Graph, h: Graph) {
    s.Keys == h.Keys && forall p :: p in s ==> h[p].kind == s[p].kind && h[p].mirror == s[p].mirror
  }

  lemma SameNodesLocate(s: Graph, h: Graph, r: NodeRef)
    requires SameNodes(s, h)
    ensures Locate(h, r) == Locate(s, r)
  {
    SameMirrors(s, h);
  }

  lemma StepIsAct(s: Graph, h: Graph, env: TxEnv, op: Operation)
    requires SameNodes(s, h)
    ensures Write(h, env, op) == Perform(h, ActAlong(s, env, op))
    ensures SameNodes(if op.CreateNode? && CreateHere(s, env, op).Some?
                      then s[CreateHere(s, env, op).value := Transactions.NewNode(env, op)] else s, Write(h, env, op))
  {
    hide Locate, Transactions.NewNode;
    match op {
      case CreateNode(_, parent, _, _, _, _, _, _) => SameNodesLocate(s, h, parent);
      case SetParm(_, target, _, _, _) => SameNodesLocate(s, h, target);
      case ConnectInput(_, target, _, source, _, _) =>
        SameNodesLocate(s, h, target);
        SameNodesLocate(s, h, source);
        LocatedIn(h, target);
    }
  }

  lemma LocatedIn(g: Graph, r: NodeRef)
    ensures Locate(g, r).At? ==> Locate(g, r).path in g
  {
  }

  /** Slot calculus for every list of operations: the writes amount to acts on the nodes found along the way, so a slot
      holds its last word, a new node starts with its defaults, and everything else is untouched. */
  lemma {:induction false} WritesAreActsAlong(g: Graph, env: TxEnv, ops: seq<Operation>)
    ensures Writes(g, env, ops) == Performs(g, ActsAlong(g, env, ops))
    ensures SameNodes(Skeleton(g, env, ops), Writes(g, env, ops))
    decreases |ops|
  {
    hide Write, Perform, ActAlong, SameNodes, CreateHere;
    if ops == [] {
      assert SameNodes(g, g) by { NodesRefl(g); }
    } else {
      var front := ops[..|ops| - 1];
      WritesAreActsAlong(g, env, front);
      assert ActsAlong(g, env, ops)[..|ops| - 1] == ActsAlong(g, env, front);
      StepIsAct(Skeleton(g, env, front), Writes(g, env, front), env, ops[|ops| - 1]);
    }
  }

  lemma NodesRefl(g: Graph)
    ensures SameNodes(g, g)
  {
  }

  // ---- when a run goes through -------------------------------------------

  /** How a wire of the run reads back. */
  function SeenWire(s: Graph, w: Option<Wire>): Option<WireRef> {
    if w.Some? && w.value.src in s then Some(WireRef(NodeSeen(s, w.value.src), w.value.output)) else None
  }

  /** The operation finds its nodes among those there are, wherever they are, those created here are who they should be,
      and its slot holds what it expects. */
  predicate FindsAlong(g: Graph, env: TxEnv, ops: seq<Operation>, i: int)
    requires 0 <= i < |ops|
  {
    var s, acts := Skeleton(g, env, ops[..i]), ActsAlong(g, env, ops[..i]);
    match ops[i]
    case CreateNode(_, parent, _, _, _, _, _, _) =>
      CreateHere(s, env, ops[i]).Some? && UseOk(s, env, Locate(s, parent).path, parent)
    case SetParm(_, target, parm, _, expectedOld) =>
      var f := Locate(s, target);
      f.At? && UseOk(s, env, f.path, target) && LastParm(g, acts, f.path, parm) == Some(expectedOld)
    case ConnectInput(_, target, input, source, _, prior) =>
      var f, q := Locate(s, target), Locate(s, source);
      && f.At? && q.At? && UseOk(s, env, f.path, target) && UseOk(s, env, q.path, source)
      && WireEqual(SeenWire(s, LastWire(g, acts, f.path, input)), prior) && OldSourceOk(s, env, prior)
  }

  lemma SameUse(s: Graph, h: Graph, env: TxEnv, p: Path, r: NodeRef)
    requires SameNodes(s, h)
    ensures UseOk(h, env, p, r) <==> UseOk(s, env, p, r)
  {
  }

  lemma SameOldSource(s: Graph, h: Graph, env: TxEnv, prior: Option<WireRef>)
    requires SameNodes(s, h)
    ensures OldSourceOk(h, env, prior) <==> OldSourceOk(s, env, prior)
  {
    if prior.Some? { SameNodesLocate(s, h, prior.value.source); }
  }

  lemma ReadsSeen(s: Graph, h: Graph, p: Path, i: nat)
    requires SameNodes(s, h)
    ensures ReadWire(h, p, i) == SeenWire(s, InputAt(h, p, i))
  {
  }

  lemma StepAlong(g: Graph, env: TxEnv, ops: seq<Operation>, i: int)
    requires 0 <= i < |ops|
    ensures ExecOp(Writes(g, env, ops[..i]), env, ops[i]).Some? <==> FindsAlong(g, env, ops, i)
  {
    hide Locate, ActsAlong, Performs, LastParm, LastWire, Skeleton, SameNodes, UseOk, OldSourceOk, WireEqual, SeenWire,
      ReadWire, Writes;
    var s, acts, h := Skeleton(g, env, ops[..i]), ActsAlong(g, env, ops[..i]), Writes(g, env, ops[..i]);
    WritesAreActsAlong(g, env, ops[..i]);
    assert s.Keys == h.Keys by { NodeKeys(s, h); }
    match ops[i] {
      case CreateNode(_, parent, _, _, _, _, _, _) =>
        SameNodesLocate(s, h, parent);
        if Locate(s, parent).At? { SameUse(s, h, env, Locate(s, parent).path, parent); }
      case SetParm(_, target, parm, _, _) =>
        SameNodesLocate(s, h, target);
        if Locate(s, target).At? {
          SameUse(s, h, env, Locate(s, target).path, target);
          ParmAfter(g, acts, Locate(s, target).path, parm);
        }
      case ConnectInput(_, target, input, source, _, prior) =>
        SameNodesLocate(s, h, target);
        SameNodesLocate(s, h, source);
        SameOldSource(s, h, env, prior);
        if Locate(s, target).At? && Locate(s, source).At? {
          SameUse(s, h, env, Locate(s, target).path, target);
          SameUse(s, h, env, Locate(s, source).path, source);
          WireAfter(g, acts, Locate(s, target).path, input);
          ReadsSeen(s, h, Locate(s, target).path, input);
        }
    }
  }

  lemma NodeKeys(s: Graph, h: Graph)
    requires SameNodes(s, h)
    ensures s.Keys == h.Keys
  {
  }

  /** The exact condition: a run without failing calls goes through if and only if every operation finds its nodes among
      those there are by then, and the value it expects. Nodes that moved are followed by their ids. */
  lemma {:induction false} LocatedRunIff(g: Graph, env: TxEnv, ops: seq<Operation>, k: int)
    requires 0 <= k <= |ops|
    ensures ExecOps(g, env, ops[..k]).Some? <==> forall i :: 0 <= i < k ==> FindsAlong(g, env, ops, i)
    decreases k
  {
    hide FindsAlong, ExecOp, Writes;
    if k > 0 {
      assert ops[..k][..k - 1] == ops[..k - 1];
      LocatedRunIff(g, env, ops, k - 1);
      if ExecOps(g, env, ops[..k - 1]).Some? {
        ExecIsWrite(g, env, ops[..k - 1]);
        StepAlong(g, env, ops, k - 1);
      }
    }
  }

  /** So an identity condition is no part of what a run needs: a write to a node that moved goes through, although the
      node is not where its reference says. */
  lemma MovedTargetRuns(g: Graph, env: TxEnv, op: Operation, p: Path)
    requires op.SetParm? && op.target.nodeId.Some? && env.created == map[]
    requires Mirrors(g, op.target.nodeId.value) == {p} && op.target.path != p
    requires ParmAt(g, p, op.parm) == Some(op.expectedOld)
    ensures ExecOps(g, env, [op]) == Some(WithParm(g, p, op.parm, op.value))
    ensures !IdentityHolds(ActualOf(g, KeyOf(op.target)), op.target)
  {
    assert [op][..0] == [];
  }
}
