/** The mutable scene as a value: nodes by path, and the effect of each write the executor may issue. */
module SceneGraph {
  import opened Wrappers
  import opened Contracts

  datatype MirrorKey = WorkspaceKey | NodeIdKey | CapabilityKey | RoleKey | SchemaKey | RunKey

  datatype Wire = Wire(src: Path, output: nat)

  datatype Node = Node(kind: string, mirror: map<MirrorKey, string>, parms: map<string, string>,
                       inputs: map<nat, Wire>, locked: bool)

  type Graph = map<Path, Node>

  function Parent(p: Path): Path
    requires p != []
  {
    p[..|p| - 1]
  }

  /** Every node but the root has its parent in the scene, and every wire comes from a node below the root. */
  ghost predicate Tree(g: Graph) {
    && [] in g
    && (forall p {:trigger Parent(p)} :: p in g && p != [] ==> Parent(p) in g)
    && (forall p, i :: p in g && i in g[p].inputs ==> g[p].inputs[i].src in g && g[p].inputs[i].src != [])
  }

  lemma {:induction false} PrefixClosed(g: Graph, p: Path, q: Path)
    requires Tree(g) && q in g && p <= q
    ensures p in g
    decreases |q|
  {
    if p != q {
      PrefixClosed(g, p, Parent(q));
    }
  }

  // ---- writes ------------------------------------------------------------

  function WithParm(g: Graph, p: Path, name: string, v: string): Graph
    requires p in g
  {
    g[p := g[p].(parms := g[p].parms[name := v])]
  }

  function WithInput(g: Graph, p: Path, i: nat, w: Option<Wire>): Graph
    requires p in g
  {
    g[p := g[p].(inputs := if w.Some? then g[p].inputs[i := w.value] else g[p].inputs - {i})]
  }

  function WithMirror(g: Graph, p: Path, k: MirrorKey, v: string): Graph
    requires p in g
  {
    g[p := g[p].(mirror := g[p].mirror[k := v])]
  }

  function WithoutSources(inputs: map<nat, Wire>, d: Path): map<nat, Wire> {
    map i | i in inputs && !(d <= inputs[i].src) :: inputs[i]
  }

  /** Destroying a node takes its whole subtree and disconnects every wire that came from it. */
  function Destroyed(g: Graph, d: Path): Graph {
    map q | q in g && !(d <= q) :: g[q].(inputs := WithoutSources(g[q].inputs, d))
  }

  /** Below an absent path there is no node and no wire source. */
  lemma NothingBelow(g: Graph, d: Path)
    requires Tree(g) && d !in g
    ensures forall q :: q in g ==> !(d <= q)
    ensures forall q, i :: q in g && i in g[q].inputs ==> !(d <= g[q].inputs[i].src)
  {
    forall q | q in g ensures !(d <= q) {
      if d <= q { PrefixClosed(g, d, q); }
    }
  }

  lemma DestroyAbsent(g: Graph, d: Path)
    requires Tree(g) && d !in g
    ensures Destroyed(g, d) == g
  {
    NothingBelow(g, d);
    assert forall q :: q in g ==> WithoutSources(g[q].inputs, d) == g[q].inputs;
  }

  /** Destroying a node that was added to a fresh path gives the scene back, whatever was written on the node. */
  lemma DestroyUndoesCreate(g: Graph, d: Path, n: Node)
    requires Tree(g) && d !in g
    ensures Destroyed(g[d := n], d) == g
  {
    NothingBelow(g, d);
    DestroyAbsent(g, d);
    assert Destroyed(g[d := n], d).Keys == g.Keys;
  }

  lemma DestroyKeepsTree(g: Graph, d: Path)
    requires Tree(g) && d != []
    ensures Tree(Destroyed(g, d))
  {
    var h := Destroyed(g, d);
    forall p {:trigger Parent(p)} | p in h && p != [] ensures Parent(p) in h {
      assert d <= Parent(p) ==> d <= p;
    }
  }

  lemma CreateKeepsTree(g: Graph, parent: Path, name: string, n: Node)
    requires Tree(g) && parent in g && n.inputs == map[]
    ensures Tree(g[parent + [name] := n]) || parent + [name] in g
  {
    var d := parent + [name];
    if d !in g {
      forall p {:trigger Parent(p)} | p in g[d := n] && p != [] ensures Parent(p) in g[d := n] {
        if p == d { assert Parent(p) == parent; }
      }
    }
  }

  // ---- identity ----------------------------------------------------------

  function MirrorOf(n: Node, k: MirrorKey): Option<string> {
    if k in n.mirror then Some(n.mirror[k]) else None
  }

  /** The nodes that mirror a stable id; the scene root is never one of them. */
  function Mirrors(g: Graph, id: string): set<Path> {
    set p | p in g && p != [] && MirrorOf(g[p], NodeIdKey) == Some(id)
  }

  datatype Found = Ambiguous | Missing | At(path: Path)

  function TheOnly(s: set<Path>): (p: Path)
    requires |s| == 1
    ensures s == {p}
  {
    var p :| p in s;
    assert |s - {p}| == 0;
    p
  }

  /** An index maps each mirrored id to its nodes; it may lag behind the scene. */
  type Index = map<string, set<Path>>

  function Lookup(index: Index, id: string): set<Path> {
    if id in index then index[id] else {}
  }

  ghost predicate IndexExact(g: Graph, index: Index) {
    forall id :: Lookup(index, id) == Mirrors(g, id)
  }

  /** Resolution of a reference by the executor: the stable id first, then the path. */
  function Resolve(g: Graph, index: Index, r: NodeRef): Found {
    if r.nodeId.None? then (if r.path in g then At(r.path) else Missing) else
    var m := Lookup(index, r.nodeId.value);
    if |m| > 1 then Ambiguous else
    if |m| == 1 then At(TheOnly(m)) else
    if r.path in g then At(r.path) else Missing
  }

  /** Resolution against an index that agrees with the scene. */
  function Locate(g: Graph, r: NodeRef): Found {
    if r.nodeId.None? then (if r.path in g then At(r.path) else Missing) else
    var m := Mirrors(g, r.nodeId.value);
    if |m| > 1 then Ambiguous else
    if |m| == 1 then At(TheOnly(m)) else
    if r.path in g then At(r.path) else Missing
  }

  /** The reference names a node of the scene at the very path it carries, and no other node mirrors its id. */
  ghost predicate Pinned(g: Graph, r: NodeRef) {
    r.path in g && r.path != [] && (r.nodeId.Some? ==> Mirrors(g, r.nodeId.value) == {r.path})
  }

  lemma PinnedResolves(g: Graph, r: NodeRef)
    requires Pinned(g, r)
    ensures Locate(g, r) == At(r.path)
  {
  }

  lemma SameMirrors(g: Graph, h: Graph)
    requires g.Keys == h.Keys && forall p :: p in g ==> g[p].mirror == h[p].mirror
    ensures forall id :: Mirrors(g, id) == Mirrors(h, id)
  {
  }

  // ---- reads -------------------------------------------------------------

  function ParmAt(g: Graph, p: Path, name: string): Option<string> {
    if p in g && name in g[p].parms then Some(g[p].parms[name]) else None
  }

  function InputAt(g: Graph, p: Path, i: nat): Option<Wire> {
    if p in g && i in g[p].inputs then Some(g[p].inputs[i]) else None
  }

  /** The typed source read back from an input. */
  function ReadWire(g: Graph, p: Path, i: nat): Option<WireRef> {
    if p in g && i in g[p].inputs && g[p].inputs[i].src in g then
      var w := g[p].inputs[i];
      var n := g[w.src];
      Some(WireRef(NodeRef(MirrorOf(n, NodeIdKey), w.src, n.kind, MirrorOf(n, WorkspaceKey)), w.output))
    else None
  }

  /** Path, type and output always count; id and workspace count only when the expectation declares them. */
  predicate WireEqual(actual: Option<WireRef>, expected: Option<WireRef>) {
    if expected.None? then actual.None? else
    && actual.Some?
    && actual.value.source.path == expected.value.source.path
    && actual.value.source.kind == expected.value.source.kind
    && actual.value.output == expected.value.output
    && (expected.value.source.nodeId.Some? ==> actual.value.source.nodeId == expected.value.source.nodeId)
    && (expected.value.source.workspaceId.Some? ==>
          actual.value.source.workspaceId == expected.value.source.workspaceId)
  }

  function WireOf(w: Option<WireRef>): Option<Wire> {
    if w.Some? then Some(Wire(w.value.source.path, w.value.output)) else None
  }

  // ---- footprints --------------------------------------------------------

  /** What a transaction may touch: the nodes it creates and the slots it writes on other nodes. */
  datatype Footprint = Footprint(created: set<Path>, parms: set<(Path, string)>, wires: set<(Path, nat)>)

  /** The scenes differ only inside the footprint, and no node of the first scene is gone. */
  ghost predicate Confined(g: Graph, h: Graph, fp: Footprint) {
    && g.Keys <= h.Keys <= g.Keys + fp.created
    && fp.created !! g.Keys
    && forall p :: p in g ==>
         && h[p].kind == g[p].kind && h[p].mirror == g[p].mirror && h[p].locked == g[p].locked
         && h[p].parms.Keys == g[p].parms.Keys
         && (forall n :: (p, n) !in fp.parms ==> ParmAt(h, p, n) == ParmAt(g, p, n))
         && (forall i: nat :: (p, i) !in fp.wires ==> InputAt(h, p, i) == InputAt(g, p, i))
  }

  lemma ConfinedParm(g: Graph, h: Graph, fp: Footprint, p: Path, name: string, v: string)
    requires Confined(g, h, fp) && ParmAt(h, p, name).Some? && (p in fp.created || (p, name) in fp.parms)
    ensures Confined(g, WithParm(h, p, name, v), fp)
  {
    var k := WithParm(h, p, name, v);
    forall q, n | q in g && (q, n) !in fp.parms ensures ParmAt(k, q, n) == ParmAt(h, q, n) { }
    forall q, i: nat | q in g && (q, i) !in fp.wires ensures InputAt(k, q, i) == InputAt(h, q, i) { }
  }

  lemma ConfinedInput(g: Graph, h: Graph, fp: Footprint, p: Path, i: nat, w: Option<Wire>)
    requires Confined(g, h, fp) && p in h && (p in fp.created || (p, i) in fp.wires)
    ensures Confined(g, WithInput(h, p, i, w), fp)
  {
    var k := WithInput(h, p, i, w);
    forall q, n | q in g && (q, n) !in fp.parms ensures ParmAt(k, q, n) == ParmAt(h, q, n) { }
    forall q, j: nat | q in g && (q, j) !in fp.wires ensures InputAt(k, q, j) == InputAt(h, q, j) { }
  }

  /** Adding or overwriting a created node keeps confinement. */
  lemma ConfinedNode(g: Graph, h: Graph, fp: Footprint, p: Path, n: Node)
    requires Confined(g, h, fp) && p in fp.created
    ensures Confined(g, h[p := n], fp)
  {
    var k := h[p := n];
    forall q, m | q in g && (q, m) !in fp.parms ensures ParmAt(k, q, m) == ParmAt(h, q, m) { }
    forall q, j: nat | q in g && (q, j) !in fp.wires ensures InputAt(k, q, j) == InputAt(h, q, j) { }
  }

  /** Destroying a created node cannot reach a node of the first scene, nor an input outside the footprint. */
  lemma ConfinedDestroy(g: Graph, h: Graph, fp: Footprint, d: Path)
    requires Tree(g) && Confined(g, h, fp) && d in fp.created
    ensures Confined(g, Destroyed(h, d), fp)
  {
    var k := Destroyed(h, d);
    NothingBelow(g, d);
    forall q, m | q in g && (q, m) !in fp.parms ensures ParmAt(k, q, m) == ParmAt(h, q, m) { }
    forall q, j: nat | q in g && (q, j) !in fp.wires ensures InputAt(k, q, j) == InputAt(g, q, j) {
      assert InputAt(h, q, j) == InputAt(g, q, j);
    }
  }

  lemma ConfinedRefl(g: Graph, fp: Footprint)
    requires fp.created !! g.Keys
    ensures Confined(g, g, fp)
  {
  }
}
