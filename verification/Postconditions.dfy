/** A run that goes through meets every derived postcondition: the last write of each slot wins. */
module Postconditions {
  import opened Wrappers
  import opened Contracts
  import opened SceneGraph
  import opened Transactions
  import opened Preflight
  import opened Admission
  import opened ExecutorSpec
  import opened Acts
  import opened WeakestPre
  import Coverage

  /** The reference names the node at its path, and the node is as the reference says. */
  ghost predicate Confirmed(g: Graph, r: NodeRef) {
    Pinned(g, r) && IdentityHolds(Some((r.path, g[r.path])), r)
  }

  lemma StepKeepsConfirmed(h: Graph, env: TxEnv, ops: seq<Operation>, k: int, next: Graph, r: NodeRef)
    requires Ready(h, env, ops, k) && 0 <= k < |ops| && ExecOp(h, env, ops[k]) == Some(next) && Confirmed(h, r)
    ensures Confirmed(next, r)
  {
    if ops[k].CreateNode? {
      CreateDone(h, env, ops, k);
      assert Mirrors(h, ops[k].nodeId) == {};
      CreatedMirrors(h, env, ops[k], CreatedPath(ops[k]), Transactions.NewNode(env, ops[k]));
    } else {
      SlotShape(h, env, ops[k], next);
      SameMirrors(h, next);
    }
  }

  lemma NewlyConfirmed(h: Graph, env: TxEnv, ops: seq<Operation>, k: int, next: Graph)
    requires Ready(h, env, ops, k) && 0 <= k < |ops| && ops[k].CreateNode? && ExecOp(h, env, ops[k]) == Some(next)
    ensures Confirmed(next, CreatedRef(ops[k]))
  {
    CreateDone(h, env, ops, k);
    assert Mirrors(h, ops[k].nodeId) == {};
    CreatedMirrors(h, env, ops[k], CreatedPath(ops[k]), Transactions.NewNode(env, ops[k]));
  }

  function SceneAfter(g: Graph, env: TxEnv, ops: seq<Operation>, k: int): Graph
    requires 0 <= k <= |ops|
  {
    Performs(g, ActsAt(env, ops[..k]))
  }

  lemma StepOfRun(g: Graph, cs: ChangeSet, env: TxEnv, k: int)
    requires Anchored(g, cs, env) && 0 <= k < |cs.operations| && ExecOps(g, env, cs.operations).Some?
    ensures var h, next := SceneAfter(g, env, cs.operations, k), SceneAfter(g, env, cs.operations, k + 1);
            && Ready(h, env, cs.operations, k) && ExecOp(h, env, cs.operations[k]) == Some(next)
  {
    hide Anchored, Ready, ExecOp;
    var ops := cs.operations;
    AnchoredReady(g, cs, env);
    AnchoredValid(g, cs, env);
    ExecPrefix(g, env, ops, k);
    ExecPrefix(g, env, ops, k + 1);
    PrefixRun(g, env, ops, k);
    PrefixRun(g, env, ops, k + 1);
    assert ops[..k + 1][..k] == ops[..k];
  }

  lemma {:induction false} StaysConfirmed(g: Graph, cs: ChangeSet, env: TxEnv, r: NodeRef, from: int, k: int)
    requires Anchored(g, cs, env) && 0 <= from <= k <= |cs.operations| && ExecOps(g, env, cs.operations).Some?
    requires Confirmed(SceneAfter(g, env, cs.operations, from), r)
    ensures Confirmed(SceneAfter(g, env, cs.operations, k), r)
    decreases k
  {
    hide Anchored, Ready, ExecOp, ExecOps, Confirmed, SceneAfter;
    if k > from {
      StaysConfirmed(g, cs, env, r, from, k - 1);
      StepOfRun(g, cs, env, k - 1);
      StepKeepsConfirmed(SceneAfter(g, env, cs.operations, k - 1), env, cs.operations, k - 1,
                         SceneAfter(g, env, cs.operations, k), r);
    }
  }

  lemma CreatedConfirmed(g: Graph, cs: ChangeSet, env: TxEnv, m: int)
    requires Anchored(g, cs, env) && 0 <= m < |cs.operations| && ExecOps(g, env, cs.operations).Some?
    requires cs.operations[m].CreateNode?
    ensures Confirmed(SceneAfter(g, env, cs.operations, |cs.operations|), CreatedRef(cs.operations[m]))
  {
    hide Anchored, Ready, ExecOp, Confirmed;
    StepOfRun(g, cs, env, m);
    NewlyConfirmed(SceneAfter(g, env, cs.operations, m), env, cs.operations, m, SceneAfter(g, env, cs.operations, m + 1));
    StaysConfirmed(g, cs, env, CreatedRef(cs.operations[m]), m + 1, |cs.operations|);
  }

  /** Every reference a run used is confirmed in the scene it leaves. */
  lemma UsedConfirmed(g: Graph, cs: ChangeSet, env: TxEnv, i: int, r: NodeRef)
    requires Anchored(g, cs, env) && 0 <= i < |cs.operations| && ExecOps(g, env, cs.operations).Some?
    requires r in UsedRefs(cs.operations[i])
    ensures Confirmed(SceneAfter(g, env, cs.operations, |cs.operations|), r)
  {
    hide Ready, ExecOp, ValidChangeSet;
    if Coverage.TargetsCreated(cs.operations, r) {
      CreatedRefFound(cs, i, r);
      var m :| 0 <= m < i && cs.operations[m].CreateNode? && r == CreatedRef(cs.operations[m]);
      CreatedConfirmed(g, cs, env, m);
    } else {
      assert SceneAfter(g, env, cs.operations, 0) == g;
      StaysConfirmed(g, cs, env, r, 0, |cs.operations|);
    }
  }

  lemma LastIsLatest(ops: seq<Operation>, i: int)
    requires 0 <= i < |ops| && !ops[i].CreateNode? && Coverage.LastWrite(ops, i)
    ensures LatestWithin(ops, i, |ops|) == i
  {
    var m := LatestWithin(ops, i, |ops|);
    assert Coverage.SameSlot(ops[i], ops[i]);
  }

  /** Success implies every derived postcondition, judged the way the executor judges it. */
  lemma PostconditionsFollow(g: Graph, cs: ChangeSet, env: TxEnv, c: Condition)
    requires Anchored(g, cs, env) && ExecOps(g, env, cs.operations).Some?
    requires c in Coverage.MandatoryPostconditions(cs.operations)
    ensures PostHolds(ExecOps(g, env, cs.operations).value, cs, c)
  {
    hide Anchored, Ready, ExecOp, CollectRefs, Confirmed, PostHolds;
    var ops, n := cs.operations, |cs.operations|;
    var i :| 0 <= i < n && Coverage.LastWrite(ops, i) && c == Coverage.NewValueCondition(ops[i]);
    assert ops[..n] == ops;
    AnchoredReady(g, cs, env);
    AnchoredValid(g, cs, env);
    PrefixRun(g, env, ops, n);
    RunIff(g, cs, env, n);
    match ops[i] {
      case CreateNode(_, _, _, _, _, _, _, _) => CreatedPostHolds(g, cs, env, i);
      case SetParm(_, target, parm, value, _) =>
        UsedConfirmed(g, cs, env, i, target);
        LastIsLatest(ops, i);
        ParmHeld(g, cs, env, i, n);
        ParmAfter(g, ActsAt(env, ops), target.path, parm);
        ParmPostHolds(SceneAfter(g, env, ops, n), cs, target, parm, value);
      case ConnectInput(_, target, input, source, output, _) =>
        UsedConfirmed(g, cs, env, i, target);
        UsedConfirmed(g, cs, env, i, source);
        LastIsLatest(ops, i);
        WireHeld(g, cs, env, i, n);
        WireAfter(g, ActsAt(env, ops), target.path, input);
        WirePostHolds(SceneAfter(g, env, ops, n), cs, target, input, source, output);
    }
  }

  lemma CreatedPostHolds(g: Graph, cs: ChangeSet, env: TxEnv, i: int)
    requires Anchored(g, cs, env) && ExecOps(g, env, cs.operations).Some?
    requires 0 <= i < |cs.operations| && cs.operations[i].CreateNode?
    ensures PostHolds(SceneAfter(g, env, cs.operations, |cs.operations|), cs, NodeIdentityEquals(CreatedRef(cs.operations[i])))
  {
    hide Anchored, Ready, ExecOp, CollectRefs;
    CreatedConfirmed(g, cs, env, i);
    var r := CreatedRef(cs.operations[i]);
    assert r in RefsInOrder(cs.operations[i]);
    CollectsAll(cs, r);
    var q :| q in CollectRefs(cs) && SameSpot(q, r);
    assert KeyOf(q) == KeyOf(r);
    PinnedResolves(SceneAfter(g, env, cs.operations, |cs.operations|), r);
  }

  lemma ParmPostHolds(h: Graph, cs: ChangeSet, r: NodeRef, parm: string, value: string)
    requires Confirmed(h, r) && ParmAt(h, r.path, parm) == Some(value)
    ensures PostHolds(h, cs, ParmValueEquals(r, parm, value))
  {
    PinnedResolves(h, r);
  }

  lemma WirePostHolds(h: Graph, cs: ChangeSet, r: NodeRef, i: nat, source: NodeRef, output: nat)
    requires Confirmed(h, r) && Confirmed(h, source) && InputAt(h, r.path, i) == Some(Wire(source.path, output))
    ensures PostHolds(h, cs, WireInputEquals(r, i, Some(WireRef(source, output))))
  {
    PinnedResolves(h, r);
  }

  /** For an admitted ChangeSet whose postconditions are the derived ones, a run without failing calls ends Applied
      exactly when the values line up: this is the law the executor is built on. */
  lemma AppliedIff(g: Graph, binding: Binding, cs: ChangeSet, ws: Option<Manifest>, env: TxEnv)
    requires Tree(g) && ValidChangeSet(cs) && Admitted(g, binding, cs, ws)
    requires env.created == CreatedIdentity(cs.operations)
    requires forall c :: c in cs.postconditions ==> c in Coverage.MandatoryPostconditions(cs.operations)
    ensures ShouldSucceed(g, cs, env)
       <==> ChainsAgree(g, cs.operations) && DefaultsAgree(env, cs.operations) && KindsKnown(env, cs.operations)
  {
    hide Anchored, AdmissionError, ConditionHolds, ValidChangeSet, Tree, PostHolds, ChainsAgree, DefaultsAgree, KindsKnown,
      ExecOps, DerivedOldValuesHold, CreatedIdentity, Coverage.MandatoryPostconditions;
    AdmittedAnchored(g, binding, cs, ws, env);
    AdmittedOldValues(g, binding, cs, ws);
    DerivedConditionsAreExact(g, binding, cs, ws, env);
    if ExecOps(g, env, cs.operations).Some? {
      forall c | c in cs.postconditions ensures PostHolds(ExecOps(g, env, cs.operations).value, cs, c) {
        PostconditionsFollow(g, cs, env, c);
      }
    }
  }

  lemma AdmittedOldValues(g: Graph, binding: Binding, cs: ChangeSet, ws: Option<Manifest>)
    requires ValidChangeSet(cs) && Admitted(g, binding, cs, ws)
    ensures DerivedOldValuesHold(g, binding, cs, ws)
  {
    hide AdmissionError, ConditionHolds, ValidChangeSet, CollectRefs, GatherFacts;
    AdmittedFacts(g, binding, cs, ws);
    forall i | 0 <= i < |cs.operations| && !cs.operations[i].CreateNode? && Coverage.FirstWrite(cs.operations, i)
               && !Coverage.TargetsCreated(cs.operations, cs.operations[i].target)
      ensures ConditionHolds(g, binding, cs, ws, Coverage.OldValueCondition(cs.operations[i]))
    {
      MandatoryHolds(cs, ws, i, Coverage.OldValueCondition(cs.operations[i]));
      PassesCondition(g, binding, cs, ws, Coverage.OldValueCondition(cs.operations[i]));
    }
  }
}
