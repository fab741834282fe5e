/** Who may be touched: the nodes a ChangeSet changes are the ones its permission covers, whatever the outcome. */
module Confinement {
  import opened Wrappers
  import opened Contracts
  import opened SceneGraph
  import opened Transactions
  import opened Glances
  import opened Preflight
  import opened Admission
  import opened SeenGate
  import opened LostWires
  import opened ExecutorSpec
  import opened Served
  import Coverage
  import Policy

  /** Something about the node at `p` differs between the scenes. */
  ghost predicate Touched(g: Graph, h: Graph, p: Path) {
    p in g && (p in h ==> g[p] != h[p])
  }

  /** Every difference inside a footprint is a written slot. */
  lemma TouchedSlot(g: Graph, h: Graph, fp: Footprint, p: Path)
    requires Confined(g, h, fp) && Touched(g, h, p)
    ensures (exists n :: (p, n) in fp.parms) || (exists i: nat :: (p, i) in fp.wires)
  {
    if forall n :: ParmAt(h, p, n) == ParmAt(g, p, n) {
      assert g[p].parms == h[p].parms by {
        assert forall n :: n in g[p].parms ==> ParmAt(h, p, n) == ParmAt(g, p, n);
      }
      if forall i: nat :: InputAt(h, p, i) == InputAt(g, p, i) {
        SameInputs(g, h, p);
      } else {
        var i: nat :| InputAt(h, p, i) != InputAt(g, p, i);
        assert (p, i) in fp.wires;
      }
    } else {
      var n :| ParmAt(h, p, n) != ParmAt(g, p, n);
      assert (p, n) in fp.parms;
    }
  }

  lemma SameInputs(g: Graph, h: Graph, p: Path)
    requires p in g && p in h && forall i: nat :: InputAt(h, p, i) == InputAt(g, p, i)
    ensures g[p].inputs == h[p].inputs
  {
    forall i: nat ensures i in g[p].inputs <==> i in h[p].inputs {
      assert InputAt(h, p, i) == InputAt(g, p, i);
    }
    forall i: nat | i in g[p].inputs ensures g[p].inputs[i] == h[p].inputs[i] {
      assert InputAt(h, p, i) == InputAt(g, p, i);
    }
  }

  /** A touched node of the scene from before is the target of a write, and the write names it as it is. */
  lemma TouchedIsTarget(g: Graph, s: Sight, h: Graph, binding: Binding, cs: ChangeSet, ws: Option<Manifest>, p: Path)
    returns (i: int)
    requires ValidChangeSet(cs) && Sees(g, s) && SeenAdmitted(s, binding, cs, ws) && IdsTold(g, s.ids, cs.operations)
    requires Confined(g, h, FootprintOf(cs.operations)) && Touched(g, h, p)
    ensures 0 <= i < |cs.operations| && !cs.operations[i].CreateNode? && cs.operations[i].target.path == p
    ensures cs.operations[i].target !in Policy.CreatedRefs(cs.operations)
    ensures !Coverage.TargetsCreated(cs.operations, cs.operations[i].target)
    ensures NodeIdentityEquals(cs.operations[i].target) in cs.preconditions
    ensures Pinned(g, cs.operations[i].target)
  {
    hide AdmissionError, CollectRefs, GatherFacts, ValidChangeSet, Passes, Coverage.Covered, Policy.AffectedListed, Sees;
    hide Confined, Policy.ModeRules, Touched;
    var ops := cs.operations;
    TouchedSlot(g, h, FootprintOf(ops), p);
    i :| 0 <= i < |ops| && !ops[i].CreateNode? && ops[i].target.path == p;
    AdmittedFacts(s.facts, binding, cs, ws, s.ids, s.wires, s.start);
    TouchedIsOld(g, h, cs, p);
    TargetNotCreated(cs, i);
    UsedRefPinned(cs, ws, i, ops[i].target);
    assert OpIdsTold(g, s.ids, ops[i]);
    SeenPinsIff(g, s, binding, cs, ws, ops[i].target);
  }

  lemma TouchedIsOld(g: Graph, h: Graph, cs: ChangeSet, p: Path)
    requires Confined(g, h, FootprintOf(cs.operations)) && Touched(g, h, p)
    ensures p !in CreatedPaths(cs.operations)
  {
  }

  lemma TargetNotCreated(cs: ChangeSet, i: int)
    requires ValidChangeSet(cs) && 0 <= i < |cs.operations| && !cs.operations[i].CreateNode?
    requires cs.operations[i].target.path !in CreatedPaths(cs.operations)
    ensures cs.operations[i].target !in Policy.CreatedRefs(cs.operations)
    ensures !Coverage.TargetsCreated(cs.operations, cs.operations[i].target)
  {
    hide ValidChangeSet;
    if Coverage.TargetsCreated(cs.operations, cs.operations[i].target) {
      CreatedRefFound(cs, i, cs.operations[i].target);
    }
  }

  /** The node at `p` is the one a manifest entry describes, by id, place, kind, capability, role, workspace and run. */
  predicate OwnedHere(g: Graph, ws: Manifest, p: Path) {
    && p in g && p != []
    && MirrorOf(g[p], WorkspaceKey) == Some(ws.workspaceId)
    && MirrorOf(g[p], RunKey) == Some(ws.createdByRun)
    && exists o :: o in ws.nodes && ManifestAgrees(o, o.nodeId, p, g[p])
                   && MirrorOf(g[p], NodeIdKey) == Some(o.nodeId)
  }

  /** An owned target that preflight passed is the node the manifest describes. */
  lemma OwnedTarget(g: Graph, s: Sight, binding: Binding, cs: ChangeSet, ws: Manifest, r: NodeRef)
    requires Sees(g, s) && Passes(s.facts, binding, cs, Some(ws), s.ids, s.wires)
    requires NodeIdentityEquals(r) in cs.preconditions
    requires !Coverage.TargetsCreated(cs.operations, r) && r.nodeId.Some? && r.workspaceId == Some(ws.workspaceId)
    ensures OwnedHere(g, ws, r.path)
  {
    hide CollectRefs, GatherFacts, ResolutionError, Passes, Run, OwnedHere, Sees;
    PassesSees(s.facts, binding, cs, Some(ws), r, s.ids, s.wires);
    PassesIdentity(s.facts, binding, cs, Some(ws), r, s.ids, s.wires);
    assert r in ConditionRef(NodeIdentityEquals(r));
    CollectsAll(cs, r);
    var q :| q in CollectRefs(cs) && SameSpot(q, r);
    PassesKnown(s.facts, binding, cs, Some(ws), s.ids, s.wires);
    KnownRefsOk(s.facts, binding, cs, Some(ws), q, s.ids, s.wires);
    assert KeyOf(q) == KeyOf(r);
    assert ExistingOk(s.facts, q, Some(ws), s.ids);
    SeesParts(g, s);
    OwnedAsShown(g, s.facts, ws, r.path, q);
  }

  /** Keys that were read are the true ones. */
  lemma OwnedAsShown(g: Graph, v: Graph, ws: Manifest, p: Path, q: NodeRef)
    requires Shown(g, v) && p in v && p != [] && q.nodeId.Some? && OwnedFactsOk(v[p], p, q, Some(ws))
    requires MirrorOf(v[p], WorkspaceKey) == Some(ws.workspaceId)
    ensures OwnedHere(g, ws, p)
  {
    var o :| o in ws.nodes && ManifestAgrees(o, q.nodeId.value, p, v[p]);
    assert ShownNode(g[p], v[p]);
    assert ManifestAgrees(o, o.nodeId, p, g[p]);
  }

  lemma PassesIdentity(g: Graph, binding: Binding, cs: ChangeSet, ws: Option<Manifest>, r: NodeRef, ids: Graph,
                       wires: Graph)
    requires Passes(g, binding, cs, ws, ids, wires) && NodeIdentityEquals(r) in cs.preconditions
    ensures IdentityHolds(ActualOf(g, KeyOf(r), ids), r)
  {
    assert ConditionHolds(g, binding, cs, ws, NodeIdentityEquals(r), ids, wires);
  }

  /** What an outcome that changed the scene came through, unless an id in use went unseen. */
  lemma ChangedServed(pre: BridgeState, post: BridgeState, binding: Binding, cacheMax: nat, cs: ChangeSet,
                      ws: Option<Manifest>, env: TxEnv, faulted: bool, misread: bool, s: Sight, lost: Lost, reply: Reply)
    requires ServedOutcome(pre, post, binding, cacheMax, cs, ws, env, faulted, misread, s, lost, reply)
    requires post.graph != pre.graph && (misread ==> IdsTold(pre.graph, s.ids, cs.operations))
    ensures Sees(pre.graph, s) && SeenAdmitted(s, binding, cs, ws) && IdsTold(pre.graph, s.ids, cs.operations)
    ensures Confined(pre.graph, post.graph, FootprintOf(cs.operations))
  {
    hide AdmissionError, Sees, IdsTold, Confined, FootprintOf, ReceiptShape, CacheAdd, CacheGet, DigestConflict, ExecOps,
      PostsHold, PostSeen, Writes, Without;
    ToldPlainly(pre.graph, cs.operations);
  }

  /** A ChangeSet over an owned workspace: in every outcome, success, rollback, partial failure or rejection, the
      only nodes added are declared creates, none is lost, and a node that was there and differs afterwards is one
      the manifest describes. */
  lemma OwnedConfinement(pre: BridgeState, post: BridgeState, binding: Binding, cacheMax: nat, cs: ChangeSet,
                         ws: Option<Manifest>, env: TxEnv, faulted: bool, misread: bool, s: Sight, lost: Lost, reply: Reply,
                         p: Path)
    requires ServedOutcome(pre, post, binding, cacheMax, cs, ws, env, faulted, misread, s, lost, reply)
    requires misread ==> IdsTold(pre.graph, s.ids, cs.operations)
    requires ValidChangeSet(cs) && cs.permission == OwnedWorkspace
    ensures p in pre.graph ==> p in post.graph
    ensures p in post.graph && p !in pre.graph ==> p in CreatedPaths(cs.operations)
    ensures Touched(pre.graph, post.graph, p) ==> ws.Some? && OwnedHere(pre.graph, ws.value, p)
  {
    hide AdmissionError, ValidChangeSet, FootprintOf, Passes, OwnedHere, Coverage.Covered, Policy.AffectedListed, ServedOutcome,
      Sees, IdsTold;
    if post.graph != pre.graph {
      ChangedServed(pre, post, binding, cacheMax, cs, ws, env, faulted, misread, s, lost, reply);
      FootprintCreates(cs.operations);
      if Touched(pre.graph, post.graph, p) {
        var i := TouchedIsTarget(pre.graph, s, post.graph, binding, cs, ws, p);
        AdmittedFacts(s.facts, binding, cs, ws, s.ids, s.wires, s.start);
        var t := cs.operations[i].target;
        assert t in Policy.Targets(cs.operations);
        OwnedTarget(pre.graph, s, binding, cs, ws.value, t);
      }
    }
  }

  lemma FootprintCreates(ops: seq<Operation>)
    ensures FootprintOf(ops).created == CreatedPaths(ops)
  {
  }

  /** A scoped ChangeSet creates nothing and changes nothing but nodes whose ids were granted. */
  lemma ScopedConfinement(pre: BridgeState, post: BridgeState, binding: Binding, cacheMax: nat, cs: ChangeSet,
                          ws: Option<Manifest>, env: TxEnv, faulted: bool, misread: bool, s: Sight, lost: Lost,
                          reply: Reply, p: Path)
    requires ServedOutcome(pre, post, binding, cacheMax, cs, ws, env, faulted, misread, s, lost, reply)
    requires misread ==> IdsTold(pre.graph, s.ids, cs.operations)
    requires ValidChangeSet(cs) && cs.permission == ScopedPatch
    ensures p in pre.graph <==> p in post.graph
    ensures Touched(pre.graph, post.graph, p) ==>
              exists id :: id in cs.scopedIds && Mirrors(pre.graph, id) == {p}
  {
    hide AdmissionError, ValidChangeSet, FootprintOf, Passes, Coverage.Covered, Policy.AffectedListed, ServedOutcome, Sees,
      IdsTold;
    if post.graph != pre.graph {
      ChangedServed(pre, post, binding, cacheMax, cs, ws, env, faulted, misread, s, lost, reply);
      FootprintCreates(cs.operations);
      AdmittedFacts(s.facts, binding, cs, ws, s.ids, s.wires, s.start);
      NoCreatedRefs(cs.operations);
      if Touched(pre.graph, post.graph, p) {
        var i := TouchedIsTarget(pre.graph, s, post.graph, binding, cs, ws, p);
        var t := cs.operations[i].target;
        assert t in Policy.Targets(cs.operations);
        assert Policy.InScope(cs, t) && Pinned(pre.graph, t);
      }
    }
  }

  lemma NoCreatedRefs(ops: seq<Operation>)
    requires Policy.CreatedRefs(ops) == {}
    ensures CreatedPaths(ops) == {}
  {
    if p :| p in CreatedPaths(ops) {
      var m :| 0 <= m < |ops| && ops[m].CreateNode? && CreatedPath(ops[m]) == p;
      assert CreatedRef(ops[m]) in Policy.CreatedRefs(ops);
    }
  }

  // ---- locks -------------------------------------------------------------

  /** The lock gate looks a locked node up by the path of the last collected reference with its key. It sees the
      target exactly when the lock was read and that reference carries the target's own path. */
  lemma LockGateExact(s: Sight, binding: Binding, cs: ChangeSet, ws: Option<Manifest>, t: NodeRef)
    requires Run(s.facts, binding, cs, ws, s.ids, s.wires).Known? && KeyOf(t) in KeysOf(CollectRefs(cs))
    requires LocateKey(s.ids, KeyOf(t)) == At(t.path) && t.path in s.facts
    requires forall q :: q in CollectRefs(cs) && q.path == t.path ==> KeyOf(q) == KeyOf(t)
    ensures t.path in LockedPaths(Run(s.facts, binding, cs, ws, s.ids, s.wires).facts)
       <==> s.facts[t.path].locked && RequestedFor(CollectRefs(cs), KeyOf(t)).path == t.path
  {
    hide CollectRefs, Results;
    var f := Run(s.facts, binding, cs, ws, s.ids, s.wires).facts;
    assert f.nodes == NodeFacts(s.facts, CollectRefs(cs), s.ids);
    assert f.nodes[KeyOf(t)].actual == Some((t.path, s.facts[t.path]));
    if t.path in LockedPaths(f) {
      var k :| k in f.nodes && f.nodes[k].actual.Some? && f.nodes[k].actual.value.1.locked
               && f.nodes[k].requested.path == t.path;
      assert f.nodes[k].requested in CollectRefs(cs);
    }
  }

  /** Where no later reference shadows a changed target, no outcome changes a locked node whose lock was read. */
  lemma LockedUntouched(pre: BridgeState, post: BridgeState, binding: Binding, cacheMax: nat, cs: ChangeSet,
                        ws: Option<Manifest>, env: TxEnv, faulted: bool, misread: bool, s: Sight, lost: Lost, reply: Reply,
                        p: Path)
    requires ServedOutcome(pre, post, binding, cacheMax, cs, ws, env, faulted, misread, s, lost, reply)
    requires (misread ==> IdsTold(pre.graph, s.ids, cs.operations)) && ValidChangeSet(cs)
    requires forall t :: t in ChangedTargets(cs.operations) && KeyOf(t) in KeysOf(CollectRefs(cs))
               ==> RequestedFor(CollectRefs(cs), KeyOf(t)).path == t.path
    requires p in pre.graph && pre.graph[p].locked && (misread ==> p in s.facts && s.facts[p].locked)
    ensures !Touched(pre.graph, post.graph, p)
  {
    hide AdmissionError, ValidChangeSet, FootprintOf, ServedOutcome, CollectRefs, Run, Pinned, ChangedTargets, Confined, Sees,
      IdsTold;
    var g := pre.graph;
    if Touched(g, post.graph, p) {
      ChangedServed(pre, post, binding, cacheMax, cs, ws, env, faulted, misread, s, lost, reply);
      PlainIfTrue(pre, post, binding, cacheMax, cs, ws, env, faulted, misread, s, lost, reply);
      var i := TouchedIsTarget(g, s, post.graph, binding, cs, ws, p);
      assert cs.operations[i].target in ChangedTargets(cs.operations) by { TargetChanged(cs.operations, i); }
      GateClosed(g, s, binding, cs, ws, i, cs.operations[i].target);
    }
  }

  lemma TargetChanged(ops: seq<Operation>, i: int)
    requires 0 <= i < |ops| && !ops[i].CreateNode?
    ensures ops[i].target in UsedRefs(ops[i]) && ops[i].target in ChangedTargets(ops)
  {
    assert ops[i].target in UsedRefs(ops[i]);
  }

  lemma PlainIfTrue(pre: BridgeState, post: BridgeState, binding: Binding, cacheMax: nat, cs: ChangeSet,
                    ws: Option<Manifest>, env: TxEnv, faulted: bool, misread: bool, s: Sight, lost: Lost, reply: Reply)
    requires ServedOutcome(pre, post, binding, cacheMax, cs, ws, env, faulted, misread, s, lost, reply)
    requires post.graph != pre.graph
    ensures !misread ==> s == Plain(pre.graph)
  {
    hide AdmissionError, Sees, IdsTold, CacheAdd, CacheGet, DigestConflict, TxServed;
  }

  /** An unshadowed target of a write, or source of a wire, whose lock was read never gets past the gate. */
  lemma GateClosed(g: Graph, s: Sight, binding: Binding, cs: ChangeSet, ws: Option<Manifest>, i: int, t: NodeRef)
    requires 0 <= i < |cs.operations| && !cs.operations[i].CreateNode? && t in UsedRefs(cs.operations[i]) && Sees(g, s)
    requires NodeIdentityEquals(t) in cs.preconditions
    requires t.path in s.facts && s.facts[t.path].locked
    requires KeyOf(t) in KeysOf(CollectRefs(cs)) ==> RequestedFor(CollectRefs(cs), KeyOf(t)).path == t.path
    ensures !SeenAdmitted(s, binding, cs, ws)
  {
    hide CollectRefs, Policy.Allowed, Coverage.Covered, Run, LockedPaths, LocateKey, Sees, SnapshotAmbiguous;
    assert t in RefsInOrder(cs.operations[i]);
    CollectsAll(cs, t);
    var q :| q in CollectRefs(cs) && SameSpot(q, t);
    assert KeyOf(q) == KeyOf(t);
    if Passes(s.facts, binding, cs, ws, s.ids, s.wires) {
      assert t in ChangedTargets(cs.operations);
      PassesSees(s.facts, binding, cs, ws, t, s.ids, s.wires);
      LockSeen(s, binding, cs, ws, t);
    }
  }

  lemma LockSeen(s: Sight, binding: Binding, cs: ChangeSet, ws: Option<Manifest>, t: NodeRef)
    requires Run(s.facts, binding, cs, ws, s.ids, s.wires).Known? && KeyOf(t) in KeysOf(CollectRefs(cs))
    requires LocateKey(s.ids, KeyOf(t)) == At(t.path) && t.path in s.facts && s.facts[t.path].locked
    requires RequestedFor(CollectRefs(cs), KeyOf(t)).path == t.path
    ensures t.path in LockedPaths(Run(s.facts, binding, cs, ws, s.ids, s.wires).facts)
  {
    hide CollectRefs, Results;
    var f := Run(s.facts, binding, cs, ws, s.ids, s.wires).facts;
    assert f.nodes == NodeFacts(s.facts, CollectRefs(cs), s.ids);
    assert f.nodes[KeyOf(t)].actual == Some((t.path, s.facts[t.path]));
  }
}
