/** Operations with their references resolved: what each slot of the scene holds after a list of writes. */
module Acts {
  import opened Wrappers
  import opened Contracts
  import opened SceneGraph
  import opened Transactions

  datatype Act =
    | NewNode(path: Path, node: Node)
    | PutParm(path: Path, parm: string, value: string)
    | PutWire(path: Path, input: nat, wire: Wire)
    | Nothing

  function Perform(g: Graph, a: Act): Graph {
    match a
    case NewNode(path, node) => g[path := node]
    case PutParm(path, parm, value) => if ParmAt(g, path, parm).Some? then WithParm(g, path, parm, value) else g
    case PutWire(path, input, wire) => if path in g then WithInput(g, path, input, Some(wire)) else g
    case Nothing => g
  }

  function Performs(g: Graph, acts: seq<Act>): Graph {
    if acts == [] then g else Perform(Performs(g, acts[..|acts| - 1]), acts[|acts| - 1])
  }

  /** What an act makes of a parameter slot. */
  function ParmWord(a: Act, p: Path, n: string, before: Option<string>): Option<string> {
    match a
    case NewNode(path, node) => if path == p then (if n in node.parms then Some(node.parms[n]) else None) else before
    case PutParm(path, parm, value) => if path == p && parm == n && before.Some? then Some(value) else before
    case _ => before
  }

  /** What an act makes of a wire slot of a node that is there or not. */
  function WireWord(a: Act, p: Path, i: nat, there: bool, before: Option<Wire>): Option<Wire> {
    match a
    case NewNode(path, node) => if path == p then (if i in node.inputs then Some(node.inputs[i]) else None) else before
    case PutWire(path, input, wire) => if path == p && input == i && there then Some(wire) else before
    case _ => before
  }

  /** The last word on a parameter slot. */
  function LastParm(g: Graph, acts: seq<Act>, p: Path, n: string): Option<string> {
    if acts == [] then ParmAt(g, p, n) else
    ParmWord(acts[|acts| - 1], p, n, LastParm(g, acts[..|acts| - 1], p, n))
  }

  /** The last word on a wire slot. */
  function LastWire(g: Graph, acts: seq<Act>, p: Path, i: nat): Option<Wire> {
    if acts == [] then InputAt(g, p, i) else
    WireWord(acts[|acts| - 1], p, i, KeyAfter(g, acts[..|acts| - 1], p), LastWire(g, acts[..|acts| - 1], p, i))
  }

  predicate KeyAfter(g: Graph, acts: seq<Act>, p: Path) {
    p in g || exists a :: a in acts && a.NewNode? && a.path == p
  }

  lemma {:induction false} KeysAfter(g: Graph, acts: seq<Act>, p: Path)
    ensures p in Performs(g, acts) <==> KeyAfter(g, acts, p)
  {
    if acts != [] {
      var front, last := acts[..|acts| - 1], acts[|acts| - 1];
      KeysAfter(g, front, p);
      assert acts == front + [last];
    }
  }

  /** Reading a slot after the writes gives its last word. */
  lemma {:induction false} ParmAfter(g: Graph, acts: seq<Act>, p: Path, n: string)
    ensures ParmAt(Performs(g, acts), p, n) == LastParm(g, acts, p, n)
  {
    if acts != [] {
      ParmAfter(g, acts[..|acts| - 1], p, n);
      match acts[|acts| - 1] {
        case PutParm(path, parm, value) => ParmAfter(g, acts[..|acts| - 1], path, parm);
        case _ =>
      }
    }
  }

  lemma {:induction false} WireAfter(g: Graph, acts: seq<Act>, p: Path, i: nat)
    ensures InputAt(Performs(g, acts), p, i) == LastWire(g, acts, p, i)
  {
    if acts != [] {
      WireAfter(g, acts[..|acts| - 1], p, i);
      KeysAfter(g, acts[..|acts| - 1], p);
    }
  }

  /** Writes without creates keep every node, its type, its mirror and its lock. */
  lemma {:induction false} FrameAfter(g: Graph, acts: seq<Act>)
    requires forall a :: a in acts ==> !a.NewNode?
    ensures Performs(g, acts).Keys == g.Keys
    ensures forall p :: p in g ==>
              Performs(g, acts)[p].(parms := g[p].parms, inputs := g[p].inputs) == g[p]
  {
    if acts != [] {
      var front, last := acts[..|acts| - 1], acts[|acts| - 1];
      assert acts == front + [last];
      FrameAfter(g, front);
    }
  }

  /** Two scenes with the same nodes and the same slots are the same scene. */
  lemma SameSlots(g: Graph, h: Graph)
    requires g.Keys == h.Keys
    requires forall p :: p in g ==> h[p].(parms := g[p].parms, inputs := g[p].inputs) == g[p]
    requires forall p, n :: p in g ==> ParmAt(g, p, n) == ParmAt(h, p, n)
    requires forall p, i: nat :: p in g ==> InputAt(g, p, i) == InputAt(h, p, i)
    ensures g == h
  {
    forall p | p in g ensures g[p] == h[p] {
      assert g[p].parms == h[p].parms by {
        forall n ensures (n in g[p].parms <==> n in h[p].parms) && (n in g[p].parms ==> g[p].parms[n] == h[p].parms[n]) {
          assert ParmAt(g, p, n) == ParmAt(h, p, n);
        }
      }
      assert g[p].inputs == h[p].inputs by {
        forall i: nat ensures (i in g[p].inputs <==> i in h[p].inputs)
                              && (i in g[p].inputs ==> g[p].inputs[i] == h[p].inputs[i]) {
          assert InputAt(g, p, i) == InputAt(h, p, i);
        }
      }
    }
  }

  /** A scene that differs from another inside a footprint only, with nothing created and every slot of the
      footprint equal, is that other scene. */
  lemma ConfinedAndEqual(g: Graph, h: Graph, fp: Footprint)
    requires Confined(g, h, fp) && g.Keys == h.Keys
    requires forall s :: s in fp.parms && s.0 in g ==> ParmAt(g, s.0, s.1) == ParmAt(h, s.0, s.1)
    requires forall s :: s in fp.wires && s.0 in g ==> InputAt(g, s.0, s.1) == InputAt(h, s.0, s.1)
    ensures g == h
  {
    forall p, n | p in g ensures ParmAt(g, p, n) == ParmAt(h, p, n) {
      if (p, n) in fp.parms { assert (p, n).0 in g; }
    }
    forall p, i: nat | p in g ensures InputAt(g, p, i) == InputAt(h, p, i) {
      if (p, i) in fp.wires { assert (p, i).0 in g; }
    }
    SameSlots(g, h);
  }

  // ---- resolved operations -----------------------------------------------

  /** The act of an operation whose references stand for the nodes at their own paths. */
  function ActAt(env: TxEnv, op: Operation): Act {
    match op
    case CreateNode(_, _, _, kind, _, _, _, _) =>
      if kind in env.defaults then NewNode(CreatedPath(op), Transactions.NewNode(env, op)) else Nothing
    case SetParm(_, target, parm, value, _) => PutParm(target.path, parm, value)
    case ConnectInput(_, target, input, source, output, _) => PutWire(target.path, input, Wire(source.path, output))
  }

  function ActsAt(env: TxEnv, ops: seq<Operation>): (acts: seq<Act>)
    ensures |acts| == |ops| && forall i :: 0 <= i < |ops| ==> acts[i] == ActAt(env, ops[i])
  {
    seq(|ops|, i requires 0 <= i < |ops| => ActAt(env, ops[i]))
  }

  /** The act of an operation in a scene where its references resolve by id first. */
  function ActIn(g: Graph, op: Operation): Act {
    match op
    case CreateNode(_, _, _, _, _, _, _, _) => Nothing
    case SetParm(_, target, parm, value, _) =>
      var f := Locate(g, target);
      if f.At? then PutParm(f.path, parm, value) else Nothing
    case ConnectInput(_, target, input, source, output, _) =>
      var f, s := Locate(g, target), Locate(g, source);
      if f.At? && s.At? then PutWire(f.path, input, Wire(s.path, output)) else Nothing
  }

  function ActsIn(g: Graph, ops: seq<Operation>): (acts: seq<Act>)
    ensures |acts| == |ops| && forall i :: 0 <= i < |ops| ==> acts[i] == ActIn(g, ops[i])
  {
    seq(|ops|, i requires 0 <= i < |ops| => ActIn(g, ops[i]))
  }

  predicate NoCreates(ops: seq<Operation>) {
    forall i :: 0 <= i < |ops| ==> !ops[i].CreateNode?
  }

  lemma SameLocations(g: Graph, h: Graph, r: NodeRef)
    requires g.Keys == h.Keys && forall p :: p in g ==> g[p].mirror == h[p].mirror
    ensures Locate(g, r) == Locate(h, r)
  {
    SameMirrors(g, h);
  }

  /** Without creates, resolution never moves during a run. */
  lemma {:induction false} WritesAreActs(g: Graph, env: TxEnv, ops: seq<Operation>)
    requires NoCreates(ops)
    ensures Writes(g, env, ops) == Performs(g, ActsIn(g, ops))
    decreases |ops|
  {
    if ops != [] {
      var front, last := ops[..|ops| - 1], ops[|ops| - 1];
      assert ActsIn(g, ops)[..|ops| - 1] == ActsIn(g, front);
      WritesAreActs(g, env, front);
      var h := Writes(g, env, front);
      FrameAfter(g, ActsIn(g, front));
      SameLocations(g, h, last.target);
      if last.ConnectInput? { SameLocations(g, h, last.source); }
    }
  }
}
