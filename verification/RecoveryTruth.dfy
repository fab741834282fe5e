/** When a recovery that calls a change applied is right: exactly when the derived postconditions hold in the facts. */
module RecoveryTruth {
  import opened Wrappers
  import opened Contracts
  import opened SceneGraph
  import opened Transactions
  import opened Preflight
  import opened Admission
  import opened ExecutorSpec
  import opened Acts
  import opened Pins
  import opened WeakestPre
  import ServiceSpec
  import Coverage
  import Policy

  /** A postcondition judged from facts; wires are compared the way the executor compares them. */
  predicate FactHolds(f: Facts, c: Condition) {
    match c
    case NodeIdentityEquals(node) => KeyOf(node) in f.nodes && IdentityHolds(f.nodes[KeyOf(node)].actual, node)
    case ParmValueEquals(target, parm, value) =>
      (KeyOf(target), parm) in f.parms && f.parms[(KeyOf(target), parm)] == Some(value)
    case WireInputEquals(target, input, wire) =>
      (KeyOf(target), input) in f.wires && WireEqual(f.wires[(KeyOf(target), input)], wire)
    case _ => false
  }

  /** Every derived postcondition holds, whether the change carries it or not. */
  predicate DerivedHold(f: Facts, ops: seq<Operation>) {
    forall c :: c in Coverage.MandatoryPostconditions(ops) ==> FactHolds(f, c)
  }

  /** The parameters that are to be written exist. */
  predicate ParmsPresent(g: Graph, ops: seq<Operation>) {
    forall i :: 0 <= i < |ops| && ops[i].SetParm? && !Coverage.TargetsCreated(ops, ops[i].target) ==>
      ParmAt(g, ops[i].target.path, ops[i].parm).Some?
  }

  // ---- creates -----------------------------------------------------------

  /** Unchecked writes make every node they are to create. */
  lemma {:induction false} WritesCreate(g: Graph, env: TxEnv, ops: seq<Operation>, k: int)
    requires Ready(g, env, ops, 0) && KindsKnown(env, ops) && 0 <= k <= |ops|
    ensures Ready(Writes(g, env, ops[..k]), env, ops, k)
    ensures forall m :: 0 <= m < k && ops[m].CreateNode? ==> CreatedPath(ops[m]) in Writes(g, env, ops[..k])
    decreases k
  {
    hide Ready, KindsKnown, Write;
    if k > 0 {
      assert ops[..k][..k - 1] == ops[..k - 1];
      WritesCreate(g, env, ops, k - 1);
      WriteStep(Writes(g, env, ops[..k - 1]), env, ops, k - 1);
    } else {
      assert ops[..0] == [];
    }
  }

  lemma WriteStep(h: Graph, env: TxEnv, ops: seq<Operation>, k: int)
    requires 0 <= k < |ops| && Ready(h, env, ops, k) && KindsKnown(env, ops)
    ensures Ready(Write(h, env, ops[k]), env, ops, k + 1) && h.Keys <= Write(h, env, ops[k]).Keys
    ensures ops[k].CreateNode? ==> CreatedPath(ops[k]) in Write(h, env, ops[k])
  {
    hide Ready, VerifiedCreated;
    if ops[k].CreateNode? {
      CreateDone(h, env, ops, k);
      ReadyResolves(h, env, ops, k, ops[k].parent);
      ReadyStepCreate(h, env, ops, k, Write(h, env, ops[k]));
    } else {
      SlotWriteShape(h, env, ops[k]);
      ReadyStepSlot(h, env, ops, k, Write(h, env, ops[k]));
    }
  }

  lemma SlotWriteShape(h: Graph, env: TxEnv, op: Operation)
    requires !op.CreateNode?
    ensures Write(h, env, op).Keys == h.Keys
    ensures forall p :: p in h ==> Write(h, env, op)[p].mirror == h[p].mirror && Write(h, env, op)[p].kind == h[p].kind
  {
  }

  // ---- slots -------------------------------------------------------------

  lemma TargetsLocated(g: Graph, cs: ChangeSet, env: TxEnv, i: int)
    requires Anchored(g, cs, env) && NoCreates(cs.operations) && 0 <= i < |cs.operations|
    ensures !Coverage.TargetsCreated(cs.operations, cs.operations[i].target)
    ensures Locate(g, cs.operations[i].target) == At(cs.operations[i].target.path) && cs.operations[i].target.path in g
    ensures KeyLocated(g, cs.operations[i].target)
    ensures cs.operations[i].ConnectInput? ==>
              Locate(g, cs.operations[i].source) == At(cs.operations[i].source.path) && cs.operations[i].source.path in g
  {
    hide ValidChangeSet, Policy.AffectedListed;
    var op := cs.operations[i];
    assert CreatedIds(cs.operations) == {};
    assert op.target in UsedRefs(op);
    PinnedByKey(g, op.target);
    if op.ConnectInput? { assert op.source in UsedRefs(op) && Pinned(g, op.source); }
  }

  /** With slots that exist and never alias, writes that change nothing find every last value in place. */
  lemma NoOpHolds(g: Graph, cs: ChangeSet, env: TxEnv, i: int)
    requires Anchored(g, cs, env) && NoCreates(cs.operations) && ParmsPresent(g, cs.operations)
    requires Writes(g, env, cs.operations) == g
    requires 0 <= i < |cs.operations| && Coverage.LastWrite(cs.operations, i)
    ensures SlotHolds(g, cs.operations[i])
  {
    hide Anchored, Locate, Performs, LastParm, LastWire, Writes, KeyLocated;
    var ops, acts := cs.operations, ActsIn(g, cs.operations);
    WritesAreActs(g, env, ops);
    AnchoredValid(g, cs, env);
    TargetsLocated(g, cs, env, i);
    var p := ops[i].target.path;
    if ops[i].SetParm? {
      ParmAfter(g, acts, p, ops[i].parm);
      var m := LastActOnParm(g, acts, p, ops[i].parm);
      assert acts[i] == ActIn(g, ops[i]);
      assert m >= i;
      TargetsLocated(g, cs, env, m);
      SlotsNeverAlias(cs, m, i);
    } else {
      WireAfter(g, acts, p, ops[i].input);
      var m := LastActOnWire(g, acts, p, ops[i].input);
      assert acts[i] == ActIn(g, ops[i]);
      assert m >= i;
      TargetsLocated(g, cs, env, m);
      SlotsNeverAlias(cs, m, i);
    }
  }

  /** A slot holds its last value exactly when the facts meet the derived postcondition. */
  lemma SlotHoldsIff(g: Graph, binding: Binding, cs: ChangeSet, ws: Option<Manifest>, env: TxEnv, i: int)
    requires Anchored(g, cs, env) && NoCreates(cs.operations) && Run(g, binding, cs, ws).Known?
    requires 0 <= i < |cs.operations|
    ensures SlotHolds(g, cs.operations[i])
       <==> FactHolds(Run(g, binding, cs, ws).facts, Coverage.NewValueCondition(cs.operations[i]))
  {
    hide Run, Anchored, CollectRefs, ReadWire;
    var op := cs.operations[i];
    KnownFacts(g, binding, cs, ws);
    TargetsLocated(g, cs, env, i);
    if op.ConnectInput? { ReadsAs(g, cs, env, i, op); }
  }

  lemma ReadsAs(g: Graph, cs: ChangeSet, env: TxEnv, i: int, op: Operation)
    requires Anchored(g, cs, env) && NoCreates(cs.operations) && 0 <= i < |cs.operations|
    requires cs.operations[i] == op && op.ConnectInput?
    ensures WireEqual(ReadWire(g, op.target.path, op.input), Some(WireRef(op.source, op.output)))
       <==> InputAt(g, op.target.path, op.input) == Some(Wire(op.source.path, op.output))
  {
    hide ValidChangeSet, Policy.AffectedListed;
    assert CreatedIds(cs.operations) == {};
    assert op.source in UsedRefs(op);
    assert IdentityHolds(Some((op.source.path, g[op.source.path])), op.source);
  }

  // ---- the truth of a verdict --------------------------------------------

  /** The writes are in place exactly when every derived postcondition holds in the facts. */
  lemma InPlaceIff(g: Graph, binding: Binding, cs: ChangeSet, ws: Option<Manifest>, env: TxEnv)
    requires Anchored(g, cs, env) && NoCreates(cs.operations) && ParmsPresent(g, cs.operations)
    requires Run(g, binding, cs, ws).Known?
    ensures Writes(g, env, cs.operations) == g <==> DerivedHold(Run(g, binding, cs, ws).facts, cs.operations)
  {
    hide Anchored, Run, FactHolds, SlotHolds, Writes, KeyLocated, Locate;
    var ops, f := cs.operations, Run(g, binding, cs, ws).facts;
    forall i | 0 <= i < |ops|
      ensures SlotHolds(g, ops[i]) <==> FactHolds(f, Coverage.NewValueCondition(ops[i]))
      ensures KeyLocated(g, ops[i].target) && (ops[i].ConnectInput? ==> Locate(g, ops[i].source).At?)
    {
      SlotHoldsIff(g, binding, cs, ws, env, i);
      TargetsLocated(g, cs, env, i);
    }
    if Writes(g, env, ops) == g {
      forall c | c in Coverage.MandatoryPostconditions(ops) ensures FactHolds(f, c) {
        var i :| 0 <= i < |ops| && Coverage.LastWrite(ops, i) && c == Coverage.NewValueCondition(ops[i]);
        NoOpHolds(g, cs, env, i);
      }
    }
    if DerivedHold(f, ops) {
      forall i | 0 <= i < |ops| && Coverage.LastWrite(ops, i) ensures SlotHolds(g, ops[i]) {
        assert Coverage.NewValueCondition(ops[i]) in Coverage.MandatoryPostconditions(ops);
      }
      HoldingWritesAreNoOp(g, env, ops);
    }
  }

  lemma InterruptedConverges(base: Graph, g: Graph, binding: Binding, cs: ChangeSet, env: TxEnv)
    requires ValidChangeSet(cs) && NoCreates(cs.operations) && env.created == CreatedIdentity(cs.operations)
    requires Interrupted(base, g, binding, cs)
    ensures Writes(base, env, cs.operations) == Writes(g, env, cs.operations)
  {
    hide AdmissionError, Confined, ValidChangeSet, CreatedIdentity, Ready;
    if g != base {
      var ws :| Admitted(base, binding, cs, ws) && Confined(base, g, FootprintOf(cs.operations));
      AdmittedReady(base, binding, cs, ws, env);
      forall i | 0 <= i < |cs.operations|
        ensures Locate(base, cs.operations[i].target) == At(cs.operations[i].target.path)
        ensures cs.operations[i].ConnectInput? ==> Locate(base, cs.operations[i].source).At?
      {
        NoCreateResolves(base, env, cs.operations, i, cs.operations[i].target);
        if cs.operations[i].ConnectInput? { NoCreateResolves(base, env, cs.operations, i, cs.operations[i].source); }
      }
      WritesConverge(base, g, env, cs.operations);
    }
  }

  /** The law of a recovered change: wherever its run was interrupted, if preflight can look at the scene, references
      name their nodes, and what is to be written exists, then the scene is the one the whole change makes if and only
      if every derived postcondition holds in the facts. */
  lemma DoneIff(base: Graph, g: Graph, binding: Binding, cs: ChangeSet, ws: Option<Manifest>, env: TxEnv)
    requires Anchored(g, cs, env) && ParmsPresent(g, cs.operations) && KindsKnown(env, cs.operations)
    requires Interrupted(base, g, binding, cs) && Run(g, binding, cs, ws).Known?
    ensures g == Writes(base, env, cs.operations) <==> DerivedHold(Run(g, binding, cs, ws).facts, cs.operations)
  {
    hide Anchored, Run, Writes, ValidChangeSet, KindsKnown, ParmsPresent, Interrupted, CreatedIdentity, NoCreates;
    AnchoredParts(g, cs, env);
    if NoCreates(cs.operations) {
      InterruptedConverges(base, g, binding, cs, env);
      InPlaceIff(g, binding, cs, ws, env);
    } else {
      CreatesNotDone(base, g, binding, cs, ws, env);
    }
  }

  lemma AnchoredParts(g: Graph, cs: ChangeSet, env: TxEnv)
    requires Anchored(g, cs, env)
    ensures ValidChangeSet(cs) && env.created == CreatedIdentity(cs.operations) && Ready(g, env, cs.operations, 0)
  {
    AnchoredReady(g, cs, env);
  }

  lemma CreatesNotDone(base: Graph, g: Graph, binding: Binding, cs: ChangeSet, ws: Option<Manifest>, env: TxEnv)
    requires Anchored(g, cs, env) && KindsKnown(env, cs.operations) && !NoCreates(cs.operations)
    requires Interrupted(base, g, binding, cs) && Run(g, binding, cs, ws).Known?
    ensures g != Writes(base, env, cs.operations) && !DerivedHold(Run(g, binding, cs, ws).facts, cs.operations)
  {
    hide Anchored, Run, Writes, ValidChangeSet, KindsKnown, CreatedIdentity, AdmissionError, Confined, Ready, FactHolds;
    var ops := cs.operations;
    AnchoredParts(g, cs, env);
    var m :| 0 <= m < |ops| && ops[m].CreateNode?;
    KnownCreatesAbsent(g, binding, cs, ws, m);
    if base != g {
      var ws0 :| Admitted(base, binding, cs, ws0) && Confined(base, g, FootprintOf(ops));
      AdmittedReady(base, binding, cs, ws0, env);
    }
    WritesCreate(base, env, ops, |ops|);
    assert ops[..|ops|] == ops;
    CreatedNotHeld(g, binding, cs, ws, m);
    assert Coverage.LastWrite(ops, m);
    assert Coverage.NewValueCondition(ops[m]) in Coverage.MandatoryPostconditions(ops);
  }

  lemma CreatedNotHeld(g: Graph, binding: Binding, cs: ChangeSet, ws: Option<Manifest>, m: int)
    requires ValidChangeSet(cs) && Run(g, binding, cs, ws).Known?
    requires 0 <= m < |cs.operations| && cs.operations[m].CreateNode?
    ensures !FactHolds(Run(g, binding, cs, ws).facts, Coverage.NewValueCondition(cs.operations[m]))
  {
    hide Run, ValidChangeSet, CollectRefs;
    CreatedIdentityFails(g, binding, cs, ws, m);
  }

  /** A recovery that calls the change applied on the facts is right if and only if every derived postcondition holds
      in those very facts; for a change that carries them all it is therefore always right. */
  lemma AppliedVerdictIsTrueIff(base: Graph, g: Graph, binding: Binding, cs: ChangeSet, ws: Option<Manifest>, env: TxEnv)
    requires Anchored(g, cs, env) && ParmsPresent(g, cs.operations) && KindsKnown(env, cs.operations)
    requires Interrupted(base, g, binding, cs) && Run(g, binding, cs, ws).Known?
    requires ServiceSpec.SettlesApplied(ServiceSpec.Judge(cs, ws, Err(ServiceSpec.ReceiptUnavailable),
                                                          Ok(Run(g, binding, cs, ws).facts)))
    ensures g == Writes(base, env, cs.operations) <==> DerivedHold(Run(g, binding, cs, ws).facts, cs.operations)
    ensures Coverage.PostconditionsCovered(cs) ==> g == Writes(base, env, cs.operations)
  {
    hide Anchored, Run, Writes, KindsKnown, ParmsPresent, Interrupted, FactHolds, ServicePostHolds;
    var f := Run(g, binding, cs, ws).facts;
    DoneIff(base, g, binding, cs, ws, env);
    if Coverage.PostconditionsCovered(cs) {
      forall c | c in Coverage.MandatoryPostconditions(cs.operations) ensures FactHolds(f, c) {
        assert c in cs.postconditions && ServicePostHolds(f, c);
        StricterFact(f, c);
      }
    }
  }

  lemma StricterFact(f: Facts, c: Condition)
    requires ServicePostHolds(f, c)
    ensures FactHolds(f, c)
  {
  }
}
