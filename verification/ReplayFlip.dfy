/** Two ChangeSets that undo each other, and a cache too small for both: sending the first one again repeats it. */
module ReplayFlip {
  import opened Wrappers
  import opened Contracts
  import opened SceneGraph
  import opened Transactions
  import opened Glances
  import opened Preflight
  import opened Admission
  import opened ExecutorSpec
  import opened Served
  import opened Runs
  import Coverage
  import Policy

  const Box := NodeRef(None, ["box"], "null", None)
  const FlipBinding := Binding("houdini", 1)

  /** One node with one parameter. */
  function Holding(v: string): Graph {
    map[[] := Node("root", map[], map[], map[], false), ["box"] := Node("null", map[], map["tx" := v], map[], false)]
  }

  /** Sets the parameter from one value to another. */
  function Flip(id: string, before: string, after: string): ChangeSet {
    ChangeSet(id, "s", "run", FlipBinding, None, ProjectChange, {},
              [SetParm("op", Box, "tx", after, before)], [Box], [],
              [SceneBindingEquals(FlipBinding), NodeIdentityEquals(Box), ParmValueEquals(Box, "tx", before)],
              [ParmValueEquals(Box, "tx", after)],
              RiskSummary(true, false, false, 1, {ParmSetEffect}, {["box"]}),
              CheckpointPlan([Box], [ParmSnapshot(Box, "tx")], []))
  }

  lemma FlipRefs(id: string, before: string, after: string)
    ensures forall r :: r in CollectRefs(Flip(id, before, after)) <==> r == Box
  {
    hide CollectRefs;
    OnlyBox(Flip(id, before, after));
  }

  lemma OnlyBox(cs: ChangeSet)
    requires cs.affected == [Box] && cs.readDeps == []
    requires forall i, q :: 0 <= i < |cs.operations| && q in RefsInOrder(cs.operations[i]) ==> q == Box
    requires forall i, q :: 0 <= i < |cs.preconditions| && q in ConditionRef(cs.preconditions[i]) ==> q == Box
    ensures forall r :: r in CollectRefs(cs) <==> r == Box
  {
    hide CollectRefs;
    CollectsAffected(cs);
    CollectsAll(cs, Box);
    var q :| q in CollectRefs(cs) && SameSpot(q, Box);
  }

  lemma FlipValid(id: string, before: string, after: string)
    ensures ValidChangeSet(Flip(id, before, after))
  {
    hide CreatedReferencesOk;
    NothingCreated(Flip(id, before, after));
  }

  lemma FlipKnown(id: string, before: string, after: string)
    ensures var o := Run(Holding(before), FlipBinding, Flip(id, before, after), None);
            o.Known? && o.facts.allHold && LockedPaths(o.facts) == {}
  {
    hide CollectRefs, LockedPaths, ConditionHolds;
    var g, cs := Holding(before), Flip(id, before, after);
    FlipRefs(id, before, after);
    forall c | c in cs.preconditions ensures ConditionHolds(g, FlipBinding, cs, None, c) {
      FlipHolds(id, before, after, c);
    }
    NothingLocked(g, FlipBinding, cs, None);
  }

  lemma FlipHolds(id: string, before: string, after: string, c: Condition)
    requires c in Flip(id, before, after).preconditions
    ensures ConditionHolds(Holding(before), FlipBinding, Flip(id, before, after), None, c)
  {
  }

  lemma FlipAllowed(id: string, before: string, after: string)
    ensures Coverage.Covered(Flip(id, before, after), None)
    ensures Policy.Allowed(Flip(id, before, after), None, {}, {})
  {
    var cs := Flip(id, before, after);
    var op := cs.operations[0];
    SingleWrite(op);
    assert cs.operations == [op];
    FlipCovered(id, before, after);
    assert Policy.External(cs.operations, None, Box);
    assert Policy.RiskAgrees(cs, None);
  }

  lemma FlipCovered(id: string, before: string, after: string)
    ensures Coverage.Covered(Flip(id, before, after), None)
  {
  }

  lemma FlipAdmitted(id: string, before: string, after: string)
    ensures Admitted(Holding(before), FlipBinding, Flip(id, before, after), None)
  {
    hide Run, Coverage.Covered, Policy.Allowed, LockedPaths, SnapshotAmbiguous;
    FlipKnown(id, before, after);
    FlipAllowed(id, before, after);
    FlipSnapshot(id, before, after);
  }

  lemma FlipSnapshot(id: string, before: string, after: string)
    ensures !SnapshotAmbiguous(Holding(before), Flip(id, before, after))
  {
    hide Run, SnapshotAmbiguous;
    var g, cs := Holding(before), Flip(id, before, after);
    FlipKnown(id, before, after);
    SnapshotClear(g, FlipBinding, cs, None, g, g);
  }

  function FlipReceipt(id: string): Receipt {
    Receipt(id, Applied, FlipBinding, ["op"], [true], [], false, None, None)
  }

  function After(v: string, id: string, before: string, after: string): BridgeState {
    BridgeState(Holding(v), [((id, Flip(id, before, after)), FlipReceipt(id))], false)
  }

  lemma FlipOutcome(id: string, before: string, after: string, env: TxEnv)
    requires env.created == map[]
    ensures TxOutcome(Holding(before), Flip(id, before, after), env, FlipReceipt(id), Holding(after), false)
  {
    hide PostHolds;
    var g, h, cs := Holding(before), Holding(after), Flip(id, before, after);
    assert cs.operations[..0] == [];
    FlipWrites(before, after);
    FlipTree(after);
    assert ExecOp(g, env, cs.operations[0]) == Some(h);
    assert ExecOps(g, env, cs.operations) == Some(h);
    FlipConfined(id, before, after);
    FlipPosts(id, before, after);
    assert OpIds(cs.operations) == ["op"];
  }

  lemma FlipPosts(id: string, before: string, after: string)
    ensures PostsHold(Holding(after), Flip(id, before, after))
  {
  }

  lemma FlipTree(v: string)
    ensures Tree(Holding(v))
  {
  }

  lemma FlipWrites(before: string, after: string)
    ensures Holding(after) == WithParm(Holding(before), ["box"], "tx", after)
  {
    assert map["tx" := before]["tx" := after] == map["tx" := after];
    var g, h := Holding(before), Holding(after);
    assert WithParm(g, ["box"], "tx", after)[["box"]] == h[["box"]];
  }

  lemma FlipConfined(id: string, before: string, after: string)
    ensures Confined(Holding(before), Holding(after), FootprintOf(Flip(id, before, after).operations))
  {
    hide Confined;
    var ops := Flip(id, before, after).operations;
    SingleWrite(ops[0]);
    assert ops == [ops[0]];
    assert ops[0].SetParm? && (["box"], "tx") in FootprintOf(ops).parms;
    ConfinedRefl(Holding(before), FootprintOf(ops));
    ConfinedParm(Holding(before), Holding(before), FootprintOf(ops), ["box"], "tx", after);
    FlipWrites(before, after);
  }

  /** An apply call that meets an empty cache or one with another change in it. */
  lemma FlipApply(proc: Process, pre: BridgeState, id: string, before: string, after: string)
    requires proc.binding == FlipBinding && proc.cacheMax == 1 && pre.graph == Holding(before) && !pre.frozen
    requires |pre.cache| <= 1 && forall e :: e in pre.cache ==> e.0.0 != id
    ensures ValidChangeSet(Flip(id, before, after))
    ensures ApplyOutcome(pre, After(after, id, before, after), proc.binding, proc.cacheMax, Flip(id, before, after), None,
                         EnvOf(proc.defaults, Flip(id, before, after)), false, Replied(FlipReceipt(id)))
  {
    hide AdmissionError, TxOutcome, ValidChangeSet;
    var cs := Flip(id, before, after);
    FlipValid(id, before, after);
    FlipAdmitted(id, before, after);
    NoCreatesNoIdentity(cs);
    FlipOutcome(id, before, after, EnvOf(proc.defaults, cs));
    CacheGetIn(pre.cache, (id, cs));
    assert CacheAdd(pre.cache, (id, cs), FlipReceipt(id), 1) == [((id, cs), FlipReceipt(id))];
  }

  /** All its reads tell the truth. */
  function FlipCall(id: string, before: string, after: string): Call {
    ApplyCall(Flip(id, before, after), None, false, false, Plain(Holding(before)), map[], Replied(FlipReceipt(id)))
  }

  lemma FlipStep(proc: Process, pre: BridgeState, id: string, before: string, after: string)
    requires proc.binding == FlipBinding && proc.cacheMax == 1 && pre.graph == Holding(before) && !pre.frozen
    requires |pre.cache| <= 1 && forall e :: e in pre.cache ==> e.0.0 != id
    ensures Step(proc, pre, FlipCall(id, before, after), After(after, id, before, after))
  {
    hide ApplyOutcome, ServedOutcome, Flip, CreatedReferencesOk, ConsistentConditions, UniqueRefs;
    var cs := Flip(id, before, after);
    FlipApply(proc, pre, id, before, after);
    TruthIsServed(pre, After(after, id, before, after), proc.binding, proc.cacheMax, cs, None, EnvOf(proc.defaults, cs),
                  false, Replied(FlipReceipt(id)));
  }

  lemma NoCreatesNoIdentity(cs: ChangeSet)
    requires ValidChangeSet(cs) && forall i :: 0 <= i < |cs.operations| ==> !cs.operations[i].CreateNode?
    ensures CreatedIdentity(cs.operations) == map[]
  {
  }

  /** A replay is not harmless in general: with another applied ChangeSet in between, a ChangeSet whose receipt was
      evicted runs a second time, and the scene is no longer what the last new ChangeSet left. */
  lemma EvictedReplayRepeats(proc: Process) returns (states: seq<BridgeState>, calls: seq<Call>)
    requires proc.binding == FlipBinding && proc.cacheMax == 1
    ensures IsRun(proc, states, calls) && |calls| == 3
    ensures forall i :: 0 <= i < 3 ==> AppliedNow(calls[i]) && calls[i].reply.receipt.rollbackResults == []
    ensures calls[0] == calls[2] && calls[0] != calls[1]
    ensures states[1].graph == states[3].graph != states[2].graph
  {
    hide Step, ValidChangeSet, Tree;
    var set1, set0 := FlipCall("a", "0", "1"), FlipCall("b", "1", "0");
    var s0 := BridgeState(Holding("0"), [], false);
    var s1, s2 := After("1", "a", "0", "1"), After("0", "b", "1", "0");
    states, calls := [s0, s1, s2, s1], [set1, set0, set1];
    FlipStep(proc, s0, "a", "0", "1");
    FlipStep(proc, s1, "b", "1", "0");
    FlipStep(proc, s2, "a", "0", "1");
    FlipTree("0");
    FlipValid("a", "0", "1");
    FlipValid("b", "1", "0");
    assert Holding("1")[["box"]].parms["tx"] != Holding("0")[["box"]].parms["tx"];
  }
}
