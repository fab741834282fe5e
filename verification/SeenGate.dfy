/** The gate when guarded reads may have been swallowed: what it still proves, and exactly when it proves the rest. */
module SeenGate {
  import opened Wrappers
  import opened Contracts
  import opened SceneGraph
  import opened Transactions
  import opened Glances
  import opened Preflight
  import opened Admission
  import Coverage

  function SeenError(s: Sight, binding: Binding, cs: ChangeSet, ws: Option<Manifest>): Option<Code> {
    AdmissionError(s.facts, binding, cs, ws, s.ids, s.wires, s.start)
  }

  predicate SeenAdmitted(s: Sight, binding: Binding, cs: ChangeSet, ws: Option<Manifest>) {
    SeenError(s, binding, cs, ws).None?
  }

  /** Of the ids that the operations use or create, no node went unseen when ids were indexed. */
  ghost predicate IdsTold(g: Graph, ids: Graph, ops: seq<Operation>) {
    forall i :: 0 <= i < |ops| ==> OpIdsTold(g, ids, ops[i])
  }

  ghost predicate OpIdsTold(g: Graph, ids: Graph, op: Operation) {
    && (forall r :: r in UsedRefs(op) ==> RefTold(g, ids, r))
    && (op.CreateNode? ==> Mirrors(ids, op.nodeId) == Mirrors(g, op.nodeId))
  }

  ghost predicate RefTold(g: Graph, ids: Graph, r: NodeRef) {
    r.nodeId.Some? ==> Mirrors(ids, r.nodeId.value) == Mirrors(g, r.nodeId.value)
  }

  /** A passing preflight finds every reference with an identity condition at its path with its type and its id; it
      pins the reference if and only if it saw every node with that id. */
  lemma SeenPinsIff(g: Graph, s: Sight, binding: Binding, cs: ChangeSet, ws: Option<Manifest>, r: NodeRef)
    requires Sees(g, s) && Passes(s.facts, binding, cs, ws, s.ids, s.wires) && NodeIdentityEquals(r) in cs.preconditions
    ensures r.path in g && r.path != [] && g[r.path].kind == r.kind
    ensures r.nodeId.Some? ==> MirrorOf(g[r.path], NodeIdKey) == r.nodeId && Mirrors(s.ids, r.nodeId.value) == {r.path}
    ensures r.workspaceId.Some? ==> MirrorOf(g[r.path], WorkspaceKey) == r.workspaceId
    ensures Pinned(g, r) <==> RefTold(g, s.ids, r)
  {
    hide Passes;
    PassesSees(s.facts, binding, cs, ws, r, s.ids, s.wires);
    ShownMirrorOf(g, s.facts, r.path, NodeIdKey);
    ShownMirrorOf(g, s.facts, r.path, WorkspaceKey);
  }

  /** Everything a transaction starts from, references and absent nodes, is as the gate saw it if and only if no node
      with an id in use went unseen. */
  lemma ReadyIff(g: Graph, s: Sight, binding: Binding, cs: ChangeSet, ws: Option<Manifest>, env: TxEnv)
    requires ValidChangeSet(cs) && Sees(g, s) && SeenAdmitted(s, binding, cs, ws)
    requires env.created == CreatedIdentity(cs.operations)
    ensures CreatedPaths(cs.operations) !! g.Keys
    ensures Ready(g, env, cs.operations, 0) <==> IdsTold(g, s.ids, cs.operations)
  {
    hide AdmissionError, ValidChangeSet, Passes, Ready, Sees;
    var ops := cs.operations;
    AdmittedFacts(s.facts, binding, cs, ws, s.ids, s.wires, s.start);
    PassesKnown(s.facts, binding, cs, ws, s.ids, s.wires);
    assert Shown(g, s.ids) by { SeesParts(g, s); }
    forall m | 0 <= m < |ops| && ops[m].CreateNode?
      ensures CreatedPath(ops[m]) !in g && Mirrors(s.ids, ops[m].nodeId) == {}
    {
      KnownCreatesAbsent(s.facts, binding, cs, ws, m, s.ids, s.wires);
    }
    if Ready(g, env, ops, 0) {
      forall i | 0 <= i < |ops| ensures OpIdsTold(g, s.ids, ops[i]) { ToldIfReady(g, s, binding, cs, ws, env, i); }
    }
    if IdsTold(g, s.ids, ops) { ReadyIfTold(g, s, binding, cs, ws, env); }
  }

  lemma SeesParts(g: Graph, s: Sight)
    requires Sees(g, s)
    ensures Shown(g, s.ids) && Shown(g, s.facts)
  {
  }

  lemma ToldIfReady(g: Graph, s: Sight, binding: Binding, cs: ChangeSet, ws: Option<Manifest>, env: TxEnv, i: int)
    requires ValidChangeSet(cs) && Sees(g, s) && SeenAdmitted(s, binding, cs, ws)
    requires env.created == CreatedIdentity(cs.operations) && Ready(g, env, cs.operations, 0) && 0 <= i < |cs.operations|
    ensures OpIdsTold(g, s.ids, cs.operations[i])
  {
    hide AdmissionError, ValidChangeSet, Passes, Sees, Pinned;
    var ops := cs.operations;
    AdmittedFacts(s.facts, binding, cs, ws, s.ids, s.wires, s.start);
    assert Shown(g, s.ids) by { SeesParts(g, s); }
    forall r | r in UsedRefs(ops[i]) ensures RefTold(g, s.ids, r) {
      assert RefReady(g, env, ops, 0, i, r);
      if CreatedBetween(ops, 0, i, r) {
        var m :| 0 <= m < i && ops[m].CreateNode? && r == CreatedRef(ops[m]);
        ShownMirrors(g, s.ids, ops[m].nodeId);
      } else if Coverage.TargetsCreated(ops, r) {
        CreatedRefFound(cs, i, r);
      } else {
        UsedRefPinned(cs, ws, i, r);
        SeenPinsIff(g, s, binding, cs, ws, r);
      }
    }
    if ops[i].CreateNode? { ShownMirrors(g, s.ids, ops[i].nodeId); }
  }

  lemma ReadyIfTold(g: Graph, s: Sight, binding: Binding, cs: ChangeSet, ws: Option<Manifest>, env: TxEnv)
    requires ValidChangeSet(cs) && Sees(g, s) && SeenAdmitted(s, binding, cs, ws)
    requires env.created == CreatedIdentity(cs.operations) && IdsTold(g, s.ids, cs.operations)
    ensures Ready(g, env, cs.operations, 0)
  {
    hide AdmissionError, Passes, Sees, Pinned, Mirrors, CreatedReferencesOk, ConsistentConditions, UniqueRefs, RefReady;
    var ops := cs.operations;
    AdmittedFacts(s.facts, binding, cs, ws, s.ids, s.wires, s.start);
    PassesKnown(s.facts, binding, cs, ws, s.ids, s.wires);
    assert Shown(g, s.ids) by { SeesParts(g, s); }
    forall j, r | 0 <= j < |ops| && r in OpRefs(ops[j]) ensures RefReady(g, env, ops, 0, j, r) {
      RefReadyIfTold(g, s, binding, cs, ws, env, j, r);
    }
    forall m | 0 <= m < |ops| && ops[m].CreateNode?
      ensures CreatedPath(ops[m]) !in g && Mirrors(g, ops[m].nodeId) == {}
    {
      KnownCreatesAbsent(s.facts, binding, cs, ws, m, s.ids, s.wires);
      assert OpIdsTold(g, s.ids, ops[m]);
    }
  }

  lemma RefReadyIfTold(g: Graph, s: Sight, binding: Binding, cs: ChangeSet, ws: Option<Manifest>, env: TxEnv, j: int,
                       r: NodeRef)
    requires ValidChangeSet(cs) && Sees(g, s) && SeenAdmitted(s, binding, cs, ws)
    requires env.created == CreatedIdentity(cs.operations) && IdsTold(g, s.ids, cs.operations)
    requires 0 <= j < |cs.operations| && r in OpRefs(cs.operations[j])
    ensures RefReady(g, env, cs.operations, 0, j, r)
  {
    hide AdmissionError, Passes, Sees, Pinned, ValidChangeSet;
    var ops := cs.operations;
    AdmittedFacts(s.facts, binding, cs, ws, s.ids, s.wires, s.start);
    if Coverage.TargetsCreated(ops, r) {
      CreatedRefFound(cs, j, r);
    } else if r in UsedRefs(ops[j]) {
      UsedRefPinned(cs, ws, j, r);
      SeenPinsIff(g, s, binding, cs, ws, r);
      assert OpIdsTold(g, s.ids, ops[j]);
    }
  }
}
