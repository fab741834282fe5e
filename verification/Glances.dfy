/** What guarded reads show of the scene: a read that raises is swallowed and answers "no key", "not locked",
    "no input" or "output 0". */
module Glances {
  import opened Wrappers
  import opened Contracts
  import opened SceneGraph

  predicate ShownNode(n: Node, v: Node) {
    && v.kind == n.kind && v.parms == n.parms && (v.locked ==> n.locked)
    && (forall k :: k in v.mirror ==> k in n.mirror && v.mirror[k] == n.mirror[k])
    && (forall i :: i in v.inputs ==> i in n.inputs && ShownInput(n.inputs[i], v.inputs[i]))
  }

  predicate ShownInput(w: Wire, v: Wire) {
    v.src == w.src && (v.output == w.output || v.output == 0)
  }

  /** `v` is a way the scene `g` may look through guarded reads. */
  predicate Shown(g: Graph, v: Graph) {
    v.Keys == g.Keys && forall p :: p in g ==> ShownNode(g[p], v[p])
  }

  lemma ShownRefl(g: Graph)
    ensures Shown(g, g)
  {
  }

  lemma ShownOne(g: Graph, p: Path, v: Node)
    requires p in g && ShownNode(g[p], v)
    ensures Shown(g, g[p := v])
  {
  }

  /** An input that is not read looks empty. */
  lemma ShownUnread(g: Graph, p: Path, i: nat)
    requires p in g
    ensures Shown(g, WithInput(g, p, i, None))
  {
  }

  /** Ids are hidden, never invented. */
  lemma ShownMirrors(g: Graph, v: Graph, id: string)
    requires Shown(g, v)
    ensures Mirrors(v, id) <= Mirrors(g, id)
  {
  }

  lemma ShownMirrorOf(g: Graph, v: Graph, p: Path, k: MirrorKey)
    requires Shown(g, v) && p in g
    ensures p in v && (MirrorOf(v[p], k).Some? ==> MirrorOf(g[p], k) == MirrorOf(v[p], k))
  {
  }

  /** What one request was shown before its transaction: node facts, the ids behind them, the wires, and the ids that
      the snapshot and the operations resolve by. */
  datatype Sight = Sight(facts: Graph, ids: Graph, wires: Graph, start: Graph)

  predicate Sees(g: Graph, s: Sight) {
    Shown(g, s.facts) && Shown(g, s.ids) && Shown(g, s.wires) && Shown(g, s.start)
  }

  function Plain(g: Graph): Sight {
    Sight(g, g, g, g)
  }

  // ---- wires as they are read --------------------------------------------

  predicate ShownRef(r: NodeRef, v: NodeRef) {
    && v.path == r.path && v.kind == r.kind
    && (v.nodeId.Some? ==> v.nodeId == r.nodeId) && (v.workspaceId.Some? ==> v.workspaceId == r.workspaceId)
  }

  /** What a guarded read of an input may answer when `w` is the truth. */
  predicate ShownSource(w: Option<WireRef>, v: Option<WireRef>) {
    v.Some? ==> w.Some? && ShownRef(w.value.source, v.value.source)
                && (v.value.output == w.value.output || v.value.output == 0)
  }

  lemma ShownWire(g: Graph, v: Graph, p: Path, i: nat)
    requires Shown(g, v)
    ensures ShownSource(ReadWire(g, p, i), ReadWire(v, p, i))
  {
    if p in v && i in v[p].inputs && v[p].inputs[i].src in v {
      assert ShownInput(g[p].inputs[i], v[p].inputs[i]);
      assert ShownNode(g[v[p].inputs[i].src], v[v[p].inputs[i].src]);
    }
  }

  // ---- the index as it is read -------------------------------------------

  /** An index that may miss nodes, but holds no wrong ones. */
  ghost predicate IndexWithin(g: Graph, index: Index) {
    forall id :: Lookup(index, id) <= Mirrors(g, id)
  }

  lemma ShownIndex(g: Graph, v: Graph, index: Index)
    requires Shown(g, v) && IndexExact(v, index)
    ensures IndexWithin(g, index)
  {
    forall id ensures Lookup(index, id) <= Mirrors(g, id) {
      ShownMirrors(g, v, id);
    }
  }

  lemma ResolveInScene(g: Graph, index: Index, r: NodeRef)
    requires IndexWithin(g, index)
    ensures Resolve(g, index, r).At? ==> Resolve(g, index, r).path in g
  {
    if r.nodeId.Some? { assert Lookup(index, r.nodeId.value) <= Mirrors(g, r.nodeId.value); }
  }

  /** A pinned reference is found even if its id was not read: its path finds it. */
  lemma ResolvePinned(g: Graph, index: Index, r: NodeRef)
    requires IndexWithin(g, index) && Pinned(g, r)
    ensures Resolve(g, index, r) == At(r.path)
  {
    if r.nodeId.Some? {
      var m := Lookup(index, r.nodeId.value);
      assert m <= Mirrors(g, r.nodeId.value);
      if m != {} { assert m == {r.path}; }
    }
  }

  lemma WithinKept(g: Graph, h: Graph, index: Index)
    requires IndexWithin(g, index)
    requires g.Keys == h.Keys && forall p :: p in g ==> g[p].mirror == h[p].mirror
    ensures IndexWithin(h, index)
  {
    SameMirrors(g, h);
    forall id ensures Lookup(index, id) <= Mirrors(h, id) { assert Lookup(index, id) <= Mirrors(g, id); }
  }

  /** A created node that carries its id joins the index: it holds no wrong node then, and if it was exact it stays so. */
  lemma WithinAdded(g: Graph, index: Index, p: Path, n: Node, id: string)
    requires IndexWithin(g, index) && p !in g && p != [] && MirrorOf(n, NodeIdKey) == Some(id)
    ensures IndexWithin(g[p := n], index[id := Lookup(index, id) + {p}])
    ensures IndexExact(g, index) ==> IndexExact(g[p := n], index[id := Lookup(index, id) + {p}])
  {
    var next, h := index[id := Lookup(index, id) + {p}], g[p := n];
    forall k ensures Lookup(next, k) <= Mirrors(h, k) && (IndexExact(g, index) ==> Lookup(next, k) == Mirrors(h, k)) {
      assert Lookup(index, k) <= Mirrors(g, k) && (IndexExact(g, index) ==> Lookup(index, k) == Mirrors(g, k));
      assert Mirrors(h, k) == Mirrors(g, k) + (if k == id then {p} else {});
    }
  }
}
