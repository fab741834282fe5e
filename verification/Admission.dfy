/** The zero-write gate in front of a transaction, and what passing it guarantees. */
module Admission {
  import opened Wrappers
  import opened Contracts
  import opened SceneGraph
  import opened Transactions
  import opened Preflight
  import Coverage
  import Policy

  /** The snapshot before the transaction resolves the references preflight looked at, and every parameter and input
      that a postcondition speaks of. */
  predicate SnapshotAmbiguous(g: Graph, cs: ChangeSet) {
    (exists r :: r in CollectRefs(cs) && Locate(g, r).Ambiguous?) || PostTargetAmbiguous(g, cs)
  }

  predicate PostTargetAmbiguous(g: Graph, cs: ChangeSet) {
    exists c :: c in cs.postconditions && (c.ParmValueEquals? || c.WireInputEquals?) && Locate(g, c.target).Ambiguous?
  }

  /** What preflight raised nothing about is not ambiguous in the snapshot either, read the same way. */
  lemma SnapshotClear(g: Graph, binding: Binding, cs: ChangeSet, ws: Option<Manifest>, ids: Graph, wires: Graph)
    requires Run(g, binding, cs, ws, ids, wires).Known?
    ensures SnapshotAmbiguous(ids, cs) <==> PostTargetAmbiguous(ids, cs)
  {
    hide RefOk, GatherFacts, CollectRefs;
    forall r | r in CollectRefs(cs) ensures !Locate(ids, r).Ambiguous? {
      assert ResolutionError(ids, KeyOf(r)).None?;
    }
  }

  /** The checks before the first write in the order they are made; the first that fails names the rejection. The
      snapshot has an index of its own, `start`. */
  function AdmissionError(g: Graph, binding: Binding, cs: ChangeSet, ws: Option<Manifest>, ids: Graph := g,
                          wires: Graph := g, start: Graph := g): Option<Code>
  {
    if cs.risk.requiresBackup then Some(BackupUnavailable) else
    var o := Run(g, binding, cs, ws, ids, wires);
    if o.Raised? then Some(o.code) else
    if !o.facts.allHold then Some(PreconditionFailed) else
    if LockedChange(o.facts, cs.operations) then Some(Stale) else
    if !Coverage.Covered(cs, ws) then Some(MandatoryOmitted) else
    if !Policy.Allowed(cs, ws, LockedPaths(o.facts), {}) then Some(Code.PolicyDenied) else
    if SnapshotAmbiguous(start, cs) then Some(OwnershipAmbiguous) else None
  }

  predicate Admitted(g: Graph, binding: Binding, cs: ChangeSet, ws: Option<Manifest>, ids: Graph := g,
                     wires: Graph := g, start: Graph := g)
  {
    AdmissionError(g, binding, cs, ws, ids, wires, start).None?
  }

  function EnvOf(defaults: map<string, map<string, string>>, cs: ChangeSet): TxEnv
    requires UniqueCreated(cs.operations)
  {
    TxEnv(defaults, cs.runId, CreatedIdentity(cs.operations))
  }

  lemma AdmittedFacts(g: Graph, binding: Binding, cs: ChangeSet, ws: Option<Manifest>, ids: Graph := g,
                      wires: Graph := g, start: Graph := g)
    requires Admitted(g, binding, cs, ws, ids, wires, start)
    ensures Passes(g, binding, cs, ws, ids, wires) && Coverage.Covered(cs, ws)
    ensures Policy.AffectedListed(cs) && Policy.ModeRules(cs, ws)
    ensures binding == cs.binding
  {
    assert SceneBindingEquals(cs.binding) in Coverage.MandatoryPreconditions(cs.operations, cs.binding, ws);
    assert ConditionHolds(g, binding, cs, ws, SceneBindingEquals(cs.binding), ids, wires);
  }

  lemma {:induction false} FirstWriteExists(ops: seq<Operation>, i: int) returns (j: int)
    requires 0 <= i < |ops| && !ops[i].CreateNode?
    ensures 0 <= j <= i && (j == i || Coverage.SameSlot(ops[j], ops[i])) && Coverage.FirstWrite(ops, j)
    ensures !ops[j].CreateNode?
    decreases i
  {
    if Coverage.FirstWrite(ops, i) {
      j := i;
    } else {
      var k :| 0 <= k < i && Coverage.SameSlot(ops[k], ops[i]);
      j := FirstWriteExists(ops, k);
    }
  }

  /** Listed references that share a key are the same reference. */
  lemma ListedByKey(cs: ChangeSet, a: NodeRef, b: NodeRef)
    requires UniqueRefs(cs.affected) && a in cs.affected && b in cs.affected
    requires KeyOf(a) == KeyOf(b) || a.path == b.path
    ensures a == b
  {
    var i :| 0 <= i < |cs.affected| && cs.affected[i] == a;
    var j :| 0 <= j < |cs.affected| && cs.affected[j] == b;
    assert i == j;
  }

  lemma TargetListed(cs: ChangeSet, i: int)
    requires Policy.AffectedListed(cs) && 0 <= i < |cs.operations| && !cs.operations[i].CreateNode?
    ensures cs.operations[i].target in cs.affected
  {
    assert cs.operations[i].target in Policy.Targets(cs.operations);
  }

  /** Writes of the same slot carry the same target reference. */
  lemma SameSlotSameTarget(cs: ChangeSet, i: int, j: int)
    requires ValidChangeSet(cs) && Policy.AffectedListed(cs)
    requires 0 <= i < |cs.operations| && 0 <= j < |cs.operations|
    requires Coverage.SameSlot(cs.operations[i], cs.operations[j])
    ensures cs.operations[i].target == cs.operations[j].target
  {
    TargetListed(cs, i);
    TargetListed(cs, j);
    ListedByKey(cs, cs.operations[i].target, cs.operations[j].target);
  }

  lemma MandatoryHolds(cs: ChangeSet, ws: Option<Manifest>, i: int, c: Condition)
    requires Coverage.Covered(cs, ws) && 0 <= i < |cs.operations|
    requires c in Coverage.PreconditionsAt(cs.operations, i)
    ensures c in cs.preconditions
  {
    assert c in Coverage.MandatoryPreconditions(cs.operations, cs.binding, ws);
  }

  /** Every reference an operation uses is created earlier in the ChangeSet or has its identity as a precondition. */
  lemma UsedRefPinned(cs: ChangeSet, ws: Option<Manifest>, i: int, r: NodeRef)
    requires ValidChangeSet(cs) && Coverage.Covered(cs, ws) && Policy.AffectedListed(cs)
    requires 0 <= i < |cs.operations| && r in UsedRefs(cs.operations[i])
    requires !Coverage.TargetsCreated(cs.operations, r)
    ensures NodeIdentityEquals(r) in cs.preconditions
  {
    var ops := cs.operations;
    if ops[i].CreateNode? || (ops[i].ConnectInput? && r == ops[i].source) {
      MandatoryHolds(cs, ws, i, NodeIdentityEquals(r));
    } else {
      var j := FirstWriteExists(ops, i);
      if j != i { SameSlotSameTarget(cs, j, i); }
      MandatoryHolds(cs, ws, j, NodeIdentityEquals(r));
    }
  }

  lemma CreatedRefFound(cs: ChangeSet, i: int, r: NodeRef)
    requires ValidChangeSet(cs) && 0 <= i < |cs.operations| && r in OpRefs(cs.operations[i])
    requires Coverage.TargetsCreated(cs.operations, r)
    ensures CreatedBetween(cs.operations, 0, i, r)
  {
    var ops := cs.operations;
    assert CreatedRefOk(ops, r, i);
    var m :| 0 <= m < |ops| && ops[m].CreateNode? && ops[m].nodeId == r.nodeId.value;
    assert r == CreatedRef(ops[m]) && m < i;
  }

  /** The forward-reference rule at work: an admitted ChangeSet starts in a scene where every reference of every
      operation is present at its path or comes from a strictly earlier create, and what it creates is absent. */
  lemma AdmittedReady(g: Graph, binding: Binding, cs: ChangeSet, ws: Option<Manifest>, env: TxEnv)
    requires ValidChangeSet(cs) && Admitted(g, binding, cs, ws)
    requires env.created == CreatedIdentity(cs.operations)
    ensures Ready(g, env, cs.operations, 0)
    ensures CreatedPaths(cs.operations) !! g.Keys
  {
    var ops := cs.operations;
    AdmittedFacts(g, binding, cs, ws);
    forall j, r | 0 <= j < |ops| && r in OpRefs(ops[j]) ensures RefReady(g, env, ops, 0, j, r) {
      if Coverage.TargetsCreated(ops, r) {
        CreatedRefFound(cs, j, r);
      } else if r in UsedRefs(ops[j]) {
        UsedRefPinned(cs, ws, j, r);
        PassesPins(g, binding, cs, ws, r);
      }
    }
    forall m | 0 <= m < |ops| && ops[m].CreateNode?
      ensures CreatedPath(ops[m]) !in g && Mirrors(g, ops[m].nodeId) == {}
    {
      KnownCreatesAbsent(g, binding, cs, ws, m);
    }
  }

  /** What a ChangeSet of a single parameter write is about. */
  lemma SingleWrite(op: Operation)
    requires op.SetParm?
    ensures CreatedIds([op]) == {} && CreatedPaths([op]) == {} && ChangedTargets([op]) == {op.target}
    ensures Policy.Targets([op]) == {op.target} && Policy.Sources([op]) == {} && Policy.CreatedRefs([op]) == {}
    ensures Policy.Parents([op]) == {} && Policy.Effects([op]) == {ParmSetEffect}
  {
    assert [op][0] == op && op.target in UsedRefs([op][0]);
  }
}
