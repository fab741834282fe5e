/** What a read-only look at the scene proves about an interrupted ChangeSet: passing preconditions mean the
    scene from before, passing postconditions mean the scene after all writes. */
module Pins {
  import opened Wrappers
  import opened Contracts
  import opened SceneGraph
  import opened Transactions
  import opened Preflight
  import opened Admission
  import opened ExecutorSpec
  import opened Acts
  import Coverage
  import Policy

  // ---- preconditions pin the scene from before ---------------------------

  lemma KnownKeysKept(g: Graph, h: Graph, binding: Binding, cs: ChangeSet, ws: Option<Manifest>)
    requires ValidChangeSet(cs) && Confined(g, h, FootprintOf(cs.operations))
    requires Run(h, binding, cs, ws).Known?
    ensures h.Keys == g.Keys
  {
    forall p | p in h ensures p in g {
      if p in CreatedPaths(cs.operations) {
        var m :| 0 <= m < |cs.operations| && cs.operations[m].CreateNode? && CreatedPath(cs.operations[m]) == p;
        KnownCreatesAbsent(h, binding, cs, ws, m);
      }
    }
  }

  lemma CreatedTargetPath(cs: ChangeSet, i: int, r: NodeRef)
    requires ValidChangeSet(cs) && 0 <= i < |cs.operations| && r in OpRefs(cs.operations[i])
    requires Coverage.TargetsCreated(cs.operations, r)
    ensures r.path in CreatedPaths(cs.operations)
  {
    CreatedRefFound(cs, i, r);
  }

  /** The first write of the slot that operation `i` writes has its old value as a precondition. */
  lemma FirstOldValue(cs: ChangeSet, ws: Option<Manifest>, g: Graph, i: int) returns (j: int)
    requires ValidChangeSet(cs) && Coverage.Covered(cs, ws) && Policy.AffectedListed(cs)
    requires CreatedPaths(cs.operations) !! g.Keys
    requires 0 <= i < |cs.operations| && !cs.operations[i].CreateNode? && cs.operations[i].target.path in g
    ensures 0 <= j < |cs.operations| && !cs.operations[j].CreateNode?
    ensures cs.operations[j].target == cs.operations[i].target
    ensures cs.operations[j].SetParm? <==> cs.operations[i].SetParm?
    ensures cs.operations[i].SetParm? ==> cs.operations[j].parm == cs.operations[i].parm
    ensures cs.operations[i].ConnectInput? ==> cs.operations[j].input == cs.operations[i].input
    ensures Coverage.OldValueCondition(cs.operations[j]) in cs.preconditions
    ensures NodeIdentityEquals(cs.operations[j].target) in cs.preconditions
    ensures !IsCreatedId(cs, cs.operations[j].target)
  {
    var ops := cs.operations;
    j := FirstWriteExists(ops, i);
    if j != i { SameSlotSameTarget(cs, j, i); }
    if Coverage.TargetsCreated(ops, ops[j].target) { CreatedTargetPath(cs, j, ops[j].target); }
    MandatoryHolds(cs, ws, j, Coverage.OldValueCondition(ops[j]));
    MandatoryHolds(cs, ws, j, NodeIdentityEquals(ops[j].target));
  }

  lemma ParmPinned(g: Graph, binding: Binding, cs: ChangeSet, ws: Option<Manifest>, op: Operation)
    requires Passes(g, binding, cs, ws) && op.SetParm? && !IsCreatedId(cs, op.target)
    requires Coverage.OldValueCondition(op) in cs.preconditions && NodeIdentityEquals(op.target) in cs.preconditions
    ensures ParmAt(g, op.target.path, op.parm) == Some(op.expectedOld)
  {
    hide Pinned;
    PassesPins(g, binding, cs, ws, op.target);
    assert ConditionHolds(g, binding, cs, ws, Coverage.OldValueCondition(op));
  }

  lemma WirePinned(g: Graph, binding: Binding, cs: ChangeSet, ws: Option<Manifest>, op: Operation)
    requires Tree(g) && Passes(g, binding, cs, ws) && op.ConnectInput? && !IsCreatedId(cs, op.target)
    requires Coverage.OldValueCondition(op) in cs.preconditions && NodeIdentityEquals(op.target) in cs.preconditions
    ensures InputAt(g, op.target.path, op.input) == WireOf(op.expectedOldSource)
  {
    hide Pinned, Passes, CollectRefs, GatherFacts;
    PassesPins(g, binding, cs, ws, op.target);
    PassesCondition(g, binding, cs, ws, Coverage.OldValueCondition(op));
  }

  /** The scene a run of the change may have left when it was interrupted: untouched, or inside the footprint of an
      admitted change. */
  ghost predicate Interrupted(base: Graph, g: Graph, binding: Binding, cs: ChangeSet) {
    || g == base
    || exists ws :: Admitted(base, binding, cs, ws) && Confined(base, g, FootprintOf(cs.operations))
  }

  /** A scene reached from an admitted one within the footprint, where preflight passes again, is the same scene;
      the workspace manifest may have changed in between. */
  lemma PreconditionsPin(g: Graph, h: Graph, binding: Binding, cs: ChangeSet, ws: Option<Manifest>,
                         ws': Option<Manifest>)
    requires ValidChangeSet(cs) && Admitted(g, binding, cs, ws) && Passes(h, binding, cs, ws')
    requires Tree(g) && Tree(h) && Confined(g, h, FootprintOf(cs.operations))
    ensures h == g
  {
    hide Passes, AdmissionError, Tree;
    var ops, fp := cs.operations, FootprintOf(cs.operations);
    AdmittedFacts(g, binding, cs, ws);
    PassesKnown(h, binding, cs, ws');
    KnownKeysKept(g, h, binding, cs, ws');
    forall s | s in fp.parms && s.0 in g ensures ParmAt(g, s.0, s.1) == ParmAt(h, s.0, s.1) {
      var i :| 0 <= i < |ops| && ops[i].SetParm? && s == (ops[i].target.path, ops[i].parm);
      var j := FirstOldValue(cs, ws, g, i);
      ParmPinned(g, binding, cs, ws, ops[j]);
      ParmPinned(h, binding, cs, ws', ops[j]);
    }
    forall s | s in fp.wires && s.0 in g ensures InputAt(g, s.0, s.1) == InputAt(h, s.0, s.1) {
      var i :| 0 <= i < |ops| && ops[i].ConnectInput? && s == (ops[i].target.path, ops[i].input);
      var j := FirstOldValue(cs, ws, g, i);
      WirePinned(g, binding, cs, ws, ops[j]);
      WirePinned(h, binding, cs, ws', ops[j]);
    }
    ConfinedAndEqual(g, h, fp);
  }

  // ---- postconditions pin the scene after --------------------------------

  /** The slot already holds what the operation would write. */
  predicate SlotHolds(g: Graph, op: Operation) {
    match op
    case CreateNode(_, _, _, _, _, _, _, _) => false
    case SetParm(_, target, parm, value, _) =>
      var f := Locate(g, target);
      f.At? && ParmAt(g, f.path, parm) == Some(value)
    case ConnectInput(_, target, input, source, output, _) =>
      var f, s := Locate(g, target), Locate(g, source);
      f.At? && s.At? && InputAt(g, f.path, input) == Some(Wire(s.path, output))
  }

  /** A target that resolves by its key alone. */
  predicate KeyLocated(g: Graph, r: NodeRef) {
    LocateKey(g, KeyOf(r)).At? && Locate(g, r) == LocateKey(g, KeyOf(r))
  }

  /** The last act on a parameter slot, or -1 when no act touches it. */
  lemma {:induction false} LastActOnParm(g: Graph, acts: seq<Act>, p: Path, n: string) returns (m: int)
    requires forall a :: a in acts ==> !a.NewNode?
    ensures -1 <= m < |acts|
    ensures forall k :: m < k < |acts| ==> !(acts[k].PutParm? && acts[k].path == p && acts[k].parm == n)
    ensures m >= 0 ==> acts[m].PutParm? && acts[m].path == p && acts[m].parm == n
    ensures LastParm(g, acts, p, n)
         == if m < 0 || ParmAt(g, p, n).None? then ParmAt(g, p, n) else Some(acts[m].value)
  {
    m := -1;
    if acts != [] {
      var front, last := acts[..|acts| - 1], acts[|acts| - 1];
      assert acts == front + [last];
      m := LastActOnParm(g, front, p, n);
      if last.PutParm? && last.path == p && last.parm == n { m := |acts| - 1; }
    }
  }

  lemma {:induction false} LastActOnWire(g: Graph, acts: seq<Act>, p: Path, i: nat) returns (m: int)
    requires forall a :: a in acts ==> !a.NewNode?
    ensures -1 <= m < |acts|
    ensures forall k :: m < k < |acts| ==> !(acts[k].PutWire? && acts[k].path == p && acts[k].input == i)
    ensures m >= 0 ==> acts[m].PutWire? && acts[m].path == p && acts[m].input == i
    ensures LastWire(g, acts, p, i) == if m < 0 || p !in g then InputAt(g, p, i) else Some(acts[m].wire)
  {
    m := -1;
    if acts != [] {
      var front, last := acts[..|acts| - 1], acts[|acts| - 1];
      assert acts == front + [last];
      m := LastActOnWire(g, front, p, i);
      if last.PutWire? && last.path == p && last.input == i { m := |acts| - 1; }
    }
  }

  lemma LaterActSameSlot(g: Graph, ops: seq<Operation>, m: int, k: int)
    requires 0 <= m < k < |ops| && Coverage.SameSlot(ops[m], ops[k])
    requires KeyLocated(g, ops[m].target) && KeyLocated(g, ops[k].target)
    requires ActIn(g, ops[m]) != Nothing && (ops[k].ConnectInput? ==> Locate(g, ops[k].source).At?)
    ensures ops[m].SetParm? ==> ActIn(g, ops[k]).PutParm? && ActIn(g, ops[k]).path == ActIn(g, ops[m]).path
                                && ActIn(g, ops[k]).parm == ActIn(g, ops[m]).parm
    ensures ops[m].ConnectInput? ==> ActIn(g, ops[k]).PutWire? && ActIn(g, ops[k]).path == ActIn(g, ops[m]).path
                                     && ActIn(g, ops[k]).input == ActIn(g, ops[m]).input
  {
  }

  /** Every reference the writes use resolves by its key. */
  predicate WritesLocated(g: Graph, ops: seq<Operation>) {
    forall i :: 0 <= i < |ops| && !ops[i].CreateNode? ==>
      KeyLocated(g, ops[i].target) && (ops[i].ConnectInput? ==> Locate(g, ops[i].source).At?)
  }

  /** If the last write of every slot is already in place, running all the writes changes nothing,
      intermediate values included. */
  lemma HoldingWritesAreNoOp(g: Graph, env: TxEnv, ops: seq<Operation>)
    requires NoCreates(ops) && WritesLocated(g, ops)
    requires forall i :: 0 <= i < |ops| && Coverage.LastWrite(ops, i) ==> SlotHolds(g, ops[i])
    ensures Writes(g, env, ops) == g
  {
    var acts := ActsIn(g, ops);
    WritesAreActs(g, env, ops);
    FrameAfter(g, acts);
    var h := Performs(g, acts);
    forall p, n | p in g ensures ParmAt(g, p, n) == ParmAt(h, p, n) {
      HeldParm(g, ops, p, n);
      ParmAfter(g, acts, p, n);
    }
    forall p, i: nat | p in g ensures InputAt(g, p, i) == InputAt(h, p, i) {
      HeldWire(g, ops, p, i);
      WireAfter(g, acts, p, i);
    }
    SameSlots(g, h);
  }

  lemma HeldParm(g: Graph, ops: seq<Operation>, p: Path, n: string)
    requires NoCreates(ops) && WritesLocated(g, ops)
    requires forall i :: 0 <= i < |ops| && Coverage.LastWrite(ops, i) ==> SlotHolds(g, ops[i])
    ensures LastParm(g, ActsIn(g, ops), p, n) == ParmAt(g, p, n)
  {
    var acts := ActsIn(g, ops);
    var m := LastActOnParm(g, acts, p, n);
    if m >= 0 {
      forall k | m < k < |ops| ensures !Coverage.SameSlot(ops[m], ops[k]) {
        if Coverage.SameSlot(ops[m], ops[k]) { LaterActSameSlot(g, ops, m, k); }
      }
      assert Coverage.LastWrite(ops, m);
      assert SlotHolds(g, ops[m]);
    }
  }

  lemma HeldWire(g: Graph, ops: seq<Operation>, p: Path, i: nat)
    requires NoCreates(ops) && WritesLocated(g, ops)
    requires forall i :: 0 <= i < |ops| && Coverage.LastWrite(ops, i) ==> SlotHolds(g, ops[i])
    ensures LastWire(g, ActsIn(g, ops), p, i) == InputAt(g, p, i)
  {
    var acts := ActsIn(g, ops);
    var m := LastActOnWire(g, acts, p, i);
    if m >= 0 {
      forall k | m < k < |ops| ensures !Coverage.SameSlot(ops[m], ops[k]) {
        if Coverage.SameSlot(ops[m], ops[k]) { LaterActSameSlot(g, ops, m, k); }
      }
      assert Coverage.LastWrite(ops, m);
      assert SlotHolds(g, ops[m]);
    }
  }

  /** Two scenes that agree off the written slots end up in the same scene. */
  lemma WritesConverge(g: Graph, h: Graph, env: TxEnv, ops: seq<Operation>)
    requires NoCreates(ops) && Confined(g, h, FootprintOf(ops))
    requires forall i :: 0 <= i < |ops| ==> Locate(g, ops[i].target) == At(ops[i].target.path)
    requires forall i :: 0 <= i < |ops| && ops[i].ConnectInput? ==> Locate(g, ops[i].source).At?
    ensures Writes(g, env, ops) == Writes(h, env, ops)
  {
    var acts := ActsIn(g, ops);
    assert g.Keys == h.Keys;
    forall i | 0 <= i < |ops| ensures ActIn(g, ops[i]) == ActIn(h, ops[i]) {
      SameLocations(g, h, ops[i].target);
      if ops[i].ConnectInput? { SameLocations(g, h, ops[i].source); }
    }
    assert ActsIn(h, ops) == acts;
    WritesAreActs(g, env, ops);
    WritesAreActs(h, env, ops);
    FrameAfter(g, acts);
    FrameAfter(h, acts);
    var g', h' := Performs(g, acts), Performs(h, acts);
    forall p, n | p in g ensures ParmAt(g', p, n) == ParmAt(h', p, n) {
      ConvergeParm(g, h, ops, p, n);
    }
    forall p, i: nat | p in g ensures InputAt(g', p, i) == InputAt(h', p, i) {
      ConvergeWire(g, h, ops, p, i);
    }
    SameSlots(g', h');
  }

  lemma WrittenParmHasAct(g: Graph, ops: seq<Operation>, p: Path, n: string)
    requires forall i :: 0 <= i < |ops| && !ops[i].CreateNode? ==> Locate(g, ops[i].target) == At(ops[i].target.path)
    ensures (p, n) in FootprintOf(ops).parms ==>
              exists k :: 0 <= k < |ops| && ActIn(g, ops[k]).PutParm? && ActIn(g, ops[k]).path == p
                          && ActIn(g, ops[k]).parm == n
  {
    hide Locate;
    if (p, n) in FootprintOf(ops).parms {
      var i :| 0 <= i < |ops| && ops[i].SetParm? && (p, n) == (ops[i].target.path, ops[i].parm);
      assert ActIn(g, ops[i]).PutParm?;
    }
  }

  lemma ConvergeParm(g: Graph, h: Graph, ops: seq<Operation>, p: Path, n: string)
    requires NoCreates(ops) && Confined(g, h, FootprintOf(ops)) && p in g
    requires forall i :: 0 <= i < |ops| ==> Locate(g, ops[i].target) == At(ops[i].target.path)
    ensures ParmAt(Performs(g, ActsIn(g, ops)), p, n) == ParmAt(Performs(h, ActsIn(g, ops)), p, n)
  {
    hide Locate;
    var acts := ActsIn(g, ops);
    ParmAfter(g, acts, p, n);
    ParmAfter(h, acts, p, n);
    var m := LastActOnParm(g, acts, p, n);
    var m' := LastActOnParm(h, acts, p, n);
    assert m == m';
    WrittenParmHasAct(g, ops, p, n);
  }

  lemma ConvergeWire(g: Graph, h: Graph, ops: seq<Operation>, p: Path, i: nat)
    requires NoCreates(ops) && Confined(g, h, FootprintOf(ops)) && p in g
    requires forall i :: 0 <= i < |ops| ==> Locate(g, ops[i].target) == At(ops[i].target.path)
    requires forall i :: 0 <= i < |ops| && ops[i].ConnectInput? ==> Locate(g, ops[i].source).At?
    ensures InputAt(Performs(g, ActsIn(g, ops)), p, i) == InputAt(Performs(h, ActsIn(g, ops)), p, i)
  {
    hide Locate;
    var acts := ActsIn(g, ops);
    WireAfter(g, acts, p, i);
    WireAfter(h, acts, p, i);
    var m := LastActOnWire(g, acts, p, i);
    var m' := LastActOnWire(h, acts, p, i);
    assert m == m';
  }

  // ---- the postcondition check of the service ----------------------------

  /** A postcondition judged from preflight facts: values must be exactly the expected ones. */
  predicate ServicePostHolds(f: Facts, c: Condition) {
    match c
    case NodeIdentityEquals(node) => KeyOf(node) in f.nodes && IdentityHolds(f.nodes[KeyOf(node)].actual, node)
    case ParmValueEquals(target, parm, value) =>
      (KeyOf(target), parm) in f.parms && f.parms[(KeyOf(target), parm)] == Some(value)
    case WireInputEquals(target, input, wire) =>
      (KeyOf(target), input) in f.wires && f.wires[(KeyOf(target), input)] == wire
    case _ => false
  }

  predicate ServicePostsHold(f: Facts, cs: ChangeSet) {
    forall c :: c in cs.postconditions ==> ServicePostHolds(f, c)
  }

  lemma GatheredLocated(g: Graph, binding: Binding, cs: ChangeSet, ws: Option<Manifest>, r: NodeRef)
    requires Run(g, binding, cs, ws).Known? && KeyOf(r) in KeysOf(CollectRefs(cs)) && !IsCreatedId(cs, r)
    ensures KeyLocated(g, r)
  {
    hide CollectRefs, GatherFacts, ResolutionError;
    var q :| q in CollectRefs(cs) && KeyOf(q) == KeyOf(r);
    KnownRefsOk(g, binding, cs, ws, q);
    assert ExistingOk(g, q, ws);
    KeyDecides(g, r);
  }

  lemma UsedCollected(cs: ChangeSet, i: int, r: NodeRef)
    requires 0 <= i < |cs.operations| && !cs.operations[i].CreateNode? && r in UsedRefs(cs.operations[i])
    ensures KeyOf(r) in KeysOf(CollectRefs(cs))
  {
    assert r in RefsInOrder(cs.operations[i]);
    CollectsAll(cs, r);
    var q :| q in CollectRefs(cs) && SameSpot(q, r);
  }

  lemma KnownFacts(g: Graph, binding: Binding, cs: ChangeSet, ws: Option<Manifest>)
    requires Run(g, binding, cs, ws).Known?
    ensures var f := Run(g, binding, cs, ws).facts;
            && f.nodes == NodeFacts(g, CollectRefs(cs)) && f.parms == ParmFacts(g, cs) && f.wires == WireFacts(g, cs)
  {
  }

  /** A ChangeSet with a create never looks done to the recovery: its created node would have to be both absent
      for preflight and present for the postcondition. */
  lemma CreatesNeverLookDone(g: Graph, binding: Binding, cs: ChangeSet, ws: Option<Manifest>)
    requires ValidChangeSet(cs) && Run(g, binding, cs, ws).Known? && Coverage.PostconditionsCovered(cs)
    requires ServicePostsHold(Run(g, binding, cs, ws).facts, cs)
    ensures NoCreates(cs.operations)
  {
    var ops := cs.operations;
    forall m | 0 <= m < |ops| ensures !ops[m].CreateNode? {
      if ops[m].CreateNode? {
        CreatedIdentityFails(g, binding, cs, ws, m);
        assert Coverage.LastWrite(ops, m);
      }
    }
  }

  lemma CreatedIdentityFails(g: Graph, binding: Binding, cs: ChangeSet, ws: Option<Manifest>, m: int)
    requires ValidChangeSet(cs) && Run(g, binding, cs, ws).Known?
    requires 0 <= m < |cs.operations| && cs.operations[m].CreateNode?
    ensures !ServicePostHolds(Run(g, binding, cs, ws).facts, Coverage.NewValueCondition(cs.operations[m]))
  {
    hide Run, CollectRefs, ValidChangeSet;
    KnownCreatesAbsent(g, binding, cs, ws, m);
    KnownFacts(g, binding, cs, ws);
  }

  lemma LastWriteHolds(g: Graph, binding: Binding, cs: ChangeSet, ws: Option<Manifest>, i: int)
    requires Tree(g) && Run(g, binding, cs, ws).Known? && Coverage.PostconditionsCovered(cs)
    requires ServicePostsHold(Run(g, binding, cs, ws).facts, cs) && NoCreates(cs.operations)
    requires WritesLocated(g, cs.operations)
    requires 0 <= i < |cs.operations| && Coverage.LastWrite(cs.operations, i)
    ensures SlotHolds(g, cs.operations[i])
  {
    hide CollectRefs, GatherFacts, Run;
    var op := cs.operations[i];
    KnownFacts(g, binding, cs, ws);
    assert Coverage.NewValueCondition(op) in Coverage.MandatoryPostconditions(cs.operations);
    assert ServicePostHolds(Run(g, binding, cs, ws).facts, Coverage.NewValueCondition(op));
    if op.ConnectInput? {
      var p := Locate(g, op.target).path;
      assert ReadWire(g, p, op.input) == Some(WireRef(op.source, op.output));
      SourceIsThere(g, op.source);
    }
  }

  lemma SourceIsThere(g: Graph, r: NodeRef)
    requires r.path in g && r.path != [] && MirrorOf(g[r.path], NodeIdKey) == r.nodeId && Locate(g, r).At?
    ensures Locate(g, r) == At(r.path)
  {
    if r.nodeId.Some? {
      assert r.path in Mirrors(g, r.nodeId.value);
    }
  }

  /** What recovery concludes is true: preflight raised nothing and every expected postcondition holds, so the scene
      is one in which all the operations are in place already. */
  lemma PostconditionsPin(g: Graph, binding: Binding, cs: ChangeSet, ws: Option<Manifest>, env: TxEnv)
    requires Tree(g) && ValidChangeSet(cs) && Run(g, binding, cs, ws).Known? && Coverage.PostconditionsCovered(cs)
    requires ServicePostsHold(Run(g, binding, cs, ws).facts, cs)
    ensures NoCreates(cs.operations) && Writes(g, env, cs.operations) == g
  {
    hide Run, Tree;
    var ops := cs.operations;
    CreatesNeverLookDone(g, binding, cs, ws);
    forall i | 0 <= i < |ops|
      ensures KeyLocated(g, ops[i].target) && (ops[i].ConnectInput? ==> Locate(g, ops[i].source).At?)
    {
      UsedCollected(cs, i, ops[i].target);
      GatheredLocated(g, binding, cs, ws, ops[i].target);
      if ops[i].ConnectInput? {
        UsedCollected(cs, i, ops[i].source);
        GatheredLocated(g, binding, cs, ws, ops[i].source);
      }
    }
    forall i | 0 <= i < |ops| && Coverage.LastWrite(ops, i) ensures SlotHolds(g, ops[i]) {
      LastWriteHolds(g, binding, cs, ws, i);
    }
    HoldingWritesAreNoOp(g, env, ops);
  }

  /** The same conclusion after an interrupted run: the scene is the one the whole run would have made. */
  lemma PostconditionsPinAfter(g: Graph, h: Graph, binding: Binding, cs: ChangeSet, ws: Option<Manifest>,
                               ws': Option<Manifest>, env: TxEnv)
    requires ValidChangeSet(cs) && Admitted(g, binding, cs, ws) && Tree(h)
    requires Confined(g, h, FootprintOf(cs.operations)) && env.created == CreatedIdentity(cs.operations)
    requires Run(h, binding, cs, ws').Known? && ServicePostsHold(Run(h, binding, cs, ws').facts, cs)
    ensures h == Writes(g, env, cs.operations)
  {
    hide Run, Tree, Confined, AdmissionError;
    var ops := cs.operations;
    AdmittedFacts(g, binding, cs, ws);
    PostconditionsPin(h, binding, cs, ws', env);
    AdmittedReady(g, binding, cs, ws, env);
    forall i | 0 <= i < |ops|
      ensures Locate(g, ops[i].target) == At(ops[i].target.path)
      ensures ops[i].ConnectInput? ==> Locate(g, ops[i].source).At?
    {
      NoCreateResolves(g, env, ops, i, ops[i].target);
      if ops[i].ConnectInput? { NoCreateResolves(g, env, ops, i, ops[i].source); }
    }
    WritesConverge(g, h, env, ops);
  }

  lemma NoCreateResolves(g: Graph, env: TxEnv, ops: seq<Operation>, i: int, r: NodeRef)
    requires Ready(g, env, ops, 0) && NoCreates(ops) && 0 <= i < |ops| && r in UsedRefs(ops[i])
    ensures Locate(g, r) == At(r.path)
  {
    assert RefReady(g, env, ops, 0, i, r);
  }

  /** Whatever passes the check of the service passes the check of the executor on the same scene. */
  lemma ServiceCheckIsStricter(g: Graph, binding: Binding, cs: ChangeSet, ws: Option<Manifest>, c: Condition)
    requires Run(g, binding, cs, ws).Known? && ServicePostHolds(Run(g, binding, cs, ws).facts, c)
    ensures PostHolds(g, cs, c)
  {
    hide CollectRefs, GatherFacts, Run;
    KnownFacts(g, binding, cs, ws);
    match c {
      case NodeIdentityEquals(node) => KeyDecides(g, node);
      case ParmValueEquals(target, parm, value) => KeyDecides(g, target);
      case WireInputEquals(target, input, wire) =>
        WireTargetCollected(cs, target, input);
        GatheredLocated(g, binding, cs, ws, target);
      case _ =>
    }
  }

  lemma KeyDecides(g: Graph, r: NodeRef)
    ensures LocateKey(g, KeyOf(r)).At? ==> Locate(g, r) == LocateKey(g, KeyOf(r))
  {
  }

  lemma WireTargetCollected(cs: ChangeSet, r: NodeRef, i: nat)
    requires (KeyOf(r), i) in WireKeys(cs)
    ensures KeyOf(r) in KeysOf(CollectRefs(cs)) && !IsCreatedId(cs, r)
  {
    hide CollectRefs;
    if k :| 0 <= k < |cs.operations| && cs.operations[k].ConnectInput? && !IsCreatedId(cs, cs.operations[k].target)
            && KeyOf(cs.operations[k].target) == KeyOf(r) {
      UsedCollected(cs, k, cs.operations[k].target);
    } else {
      var c :| c in cs.preconditions && c.WireInputEquals? && !IsCreatedId(cs, c.target) && KeyOf(c.target) == KeyOf(r);
      assert c.target in ConditionRef(c);
      CollectsAll(cs, c.target);
      var q :| q in CollectRefs(cs) && SameSpot(q, c.target);
    }
  }
}
