/** The scene as the host application offers it: every call may raise, and a raising write may have taken effect. */
module Hom {
  import opened Wrappers
  import opened Contracts
  import opened SceneGraph
  import opened Glances

  /** A wire can only come from a node below the scene root. */
  predicate Connectable(g: Graph, w: Option<Wire>) {
    w.Some? ==> w.value.src in g && w.value.src != []
  }

  class Scene {
    var graph: Graph
    const defaults: map<string, map<string, string>>
    /** Set once some call raised although the request could be met. */
    ghost var faulted: bool
    /** Set once a guarded read swallowed a raise and answered something else than the scene. */
    ghost var misread: bool

    constructor (graph: Graph, defaults: map<string, map<string, string>>)
      ensures this.graph == graph && this.defaults == defaults && !faulted && !misread
    {
      this.graph, this.defaults, this.faulted, this.misread := graph, defaults, false, false;
    }

    /** One pass of guarded reads: a read that raises is swallowed, so the scene may look poorer than it is. */
    method Glance() returns (v: Graph)
      modifies this`faulted, this`misread
      ensures Shown(graph, v)
      ensures v != graph ==> faulted && misread
      ensures v == graph ==> faulted == old(faulted) && misread == old(misread)
    {
      v := *;
      if v == graph || !Shown(graph, v) {
        v := graph;
        ShownRefl(graph);
      } else {
        faulted, misread := true, true;
      }
    }

    /** The reads of one step: they change nothing, but any of them may raise. */
    method Read() returns (raised: bool)
      modifies this`faulted
      ensures raised ==> faulted
      ensures !raised ==> faulted == old(faulted)
    {
      raised := *;
      if raised { faulted := true; }
    }

    method SetParm(p: Path, name: string, v: string) returns (raised: bool)
      modifies this
      ensures old(faulted) ==> faulted
      ensures !raised ==> ParmAt(old(graph), p, name).Some? && graph == WithParm(old(graph), p, name, v)
      ensures raised ==> graph == old(graph)
                         || (ParmAt(old(graph), p, name).Some? && graph == WithParm(old(graph), p, name, v))
      ensures raised && ParmAt(old(graph), p, name).Some? ==> faulted
      ensures !raised ==> faulted == old(faulted)
      ensures misread == old(misread)
    {
      if ParmAt(graph, p, name).None? { return true; }
      if * { faulted := true; return true; }
      graph := WithParm(graph, p, name, v);
      if * { faulted := true; return true; }
      raised := false;
    }

    method SetInput(p: Path, i: nat, w: Option<Wire>) returns (raised: bool)
      modifies this
      ensures old(faulted) ==> faulted
      ensures !raised ==> p in old(graph) && Connectable(old(graph), w)
                          && graph == WithInput(old(graph), p, i, w)
      ensures raised ==> graph == old(graph)
                         || (p in old(graph) && Connectable(old(graph), w)
                             && graph == WithInput(old(graph), p, i, w))
      ensures raised && p in old(graph) && Connectable(old(graph), w) ==> faulted
      ensures !raised ==> faulted == old(faulted)
      ensures misread == old(misread)
    {
      if p !in graph || !Connectable(graph, w) { return true; }
      if * { faulted := true; return true; }
      graph := WithInput(graph, p, i, w);
      if * { faulted := true; return true; }
      raised := false;
    }

    /** A raising create made no node. An occupied name or an unknown type raises. */
    method CreateNode(parent: Path, kind: string, name: string) returns (raised: bool)
      modifies this
      ensures old(faulted) ==> faulted
      ensures raised ==> graph == old(graph)
      ensures !raised ==> parent in old(graph) && parent + [name] !in old(graph) && kind in defaults
                          && graph == old(graph)[parent + [name] := Node(kind, map[], defaults[kind], map[], false)]
      ensures raised && parent in old(graph) && parent + [name] !in old(graph) && kind in defaults ==> faulted
      ensures !raised ==> faulted == old(faulted)
      ensures misread == old(misread)
    {
      if parent !in graph || parent + [name] in graph || kind !in defaults { return true; }
      if * { faulted := true; return true; }
      graph := graph[parent + [name] := Node(kind, map[], defaults[kind], map[], false)];
      raised := false;
    }

    method SetUserData(p: Path, k: MirrorKey, v: string) returns (raised: bool)
      requires p in graph
      modifies this
      ensures old(faulted) ==> faulted
      ensures !raised ==> graph == WithMirror(old(graph), p, k, v)
      ensures raised ==> graph == old(graph) || graph == WithMirror(old(graph), p, k, v)
      ensures raised ==> faulted
      ensures !raised ==> faulted == old(faulted)
      ensures misread == old(misread)
    {
      if * { faulted := true; return true; }
      graph := WithMirror(graph, p, k, v);
      if * { faulted := true; return true; }
      raised := false;
    }

    method Destroy(p: Path) returns (raised: bool)
      requires p != []
      modifies this
      ensures old(faulted) ==> faulted
      ensures !raised ==> graph == Destroyed(old(graph), p)
      ensures raised ==> graph == old(graph) || graph == Destroyed(old(graph), p)
      ensures raised && p in old(graph) ==> faulted
      ensures !raised ==> faulted == old(faulted)
      ensures misread == old(misread)
    {
      if p !in graph { return true; }
      if * { faulted := true; return true; }
      graph := Destroyed(graph, p);
      if * { faulted := true; return true; }
      raised := false;
    }
  }
}
