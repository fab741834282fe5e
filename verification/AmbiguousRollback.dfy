/** A run without failing calls that cannot be rolled back: the wire it replaced comes from a node that shares its id. */
module AmbiguousRollback {
  import opened Wrappers
  import opened Contracts
  import opened SceneGraph
  import opened Transactions
  import opened Preflight
  import opened Admission
  import opened ExecutorSpec
  import opened WeakestPre
  import opened Restoring
  import opened Hom
  import opened Executor
  import Coverage
  import Policy

  const Target := NodeRef(None, ["target"], "null", None)
  const Source := NodeRef(None, ["source"], "null", None)
  const Twin := NodeRef(None, ["one"], "null", None)
  const TwinBinding := Binding("houdini", 1)

  function Plain(): Node {
    Node("null", map[], map[], map[], false)
  }

  /** Two nodes mirror one id; the first of them is wired into the target. */
  function TwinScene(): Graph {
    map[[] := Node("root", map[], map[], map[], false),
        ["one"] := Plain().(mirror := map[NodeIdKey := "x"]), ["two"] := Plain().(mirror := map[NodeIdKey := "x"]),
        ["source"] := Plain(), ["target"] := Plain().(inputs := map[0 := Wire(["one"], 0)])]
  }

  const Held := Some(WireRef(Twin, 0))

  function Operations(held: Option<WireRef>): seq<Operation> {
    [ConnectInput("first", Target, 0, Source, 0, held), ConnectInput("second", Target, 0, Source, 0, None)]
  }

  /** Connects another source in place of the one that is held, then expects the input to be empty. */
  function Rewire(held: Option<WireRef> := Held): ChangeSet {
    ChangeSet("c", "s", "run", TwinBinding, None, ProjectChange, {}, Operations(held), [Target, Source], [],
              [SceneBindingEquals(TwinBinding), NodeIdentityEquals(Target), WireInputEquals(Target, 0, held),
               NodeIdentityEquals(Source)],
              [WireInputEquals(Target, 0, Some(WireRef(Source, 0)))],
              RiskSummary(true, true, false, 2, {WireConnectEffect}, {["target"], ["source"]}),
              CheckpointPlan([Target, Source], [], [WireSnapshot(Target, 0)]))
  }

  lemma TwoConnects(held: Option<WireRef>)
    ensures CreatedIds(Operations(held)) == {} && CreatedPaths(Operations(held)) == {}
    ensures Policy.Targets(Operations(held)) == {Target} && Policy.Sources(Operations(held)) == {Source}
    ensures Policy.CreatedRefs(Operations(held)) == {} && Policy.Parents(Operations(held)) == {}
    ensures Policy.Effects(Operations(held)) == {WireConnectEffect}
  {
    var ops := Operations(held);
    assert ops[0].target == Target && ops[0].source == Source;
    assert ops[1].target == Target && ops[1].source == Source;
    assert Policy.EffectOf(ops[0]) == WireConnectEffect && Policy.EffectOf(ops[1]) == WireConnectEffect;
  }

  /** References by path only. */
  predicate ByPathOnly(held: Option<WireRef>) {
    held.Some? ==> held.value.source.nodeId.None?
  }

  lemma RewireValid(held: Option<WireRef>)
    requires ByPathOnly(held)
    ensures ValidChangeSet(Rewire(held))
  {
    hide CreatedReferencesOk;
    NothingCreated(Rewire(held));
  }

  /** A scene with both ends, nothing locked, and the input as it is held. */
  predicate Fitting(g: Graph, held: Option<WireRef>) {
    && ["target"] in g && g[["target"]].kind == "null" && ["source"] in g && g[["source"]].kind == "null"
    && WireEqual(ReadWire(g, ["target"], 0), held)
    && forall p :: p in g ==> !g[p].locked
  }

  lemma RewireHolds(g: Graph, held: Option<WireRef>, c: Condition)
    requires Fitting(g, held) && c in Rewire(held).preconditions
    ensures ConditionHolds(g, TwinBinding, Rewire(held), None, c)
  {
    hide WireEqual, ReadWire;
    TwoConnects(held);
  }

  lemma RewireOk(g: Graph, held: Option<WireRef>, r: NodeRef)
    requires Fitting(g, held) && r in Rewire(held).affected
    ensures RefOk(g, Rewire(held), None, r) && ResolutionError(g, KeyOf(r)).None?
  {
    TwoConnects(held);
  }

  lemma RewireKnown(g: Graph, held: Option<WireRef>)
    requires Fitting(g, held)
    ensures var o := Run(g, TwinBinding, Rewire(held), None);
            o.Known? && o.facts.allHold && LockedPaths(o.facts) == {}
  {
    hide CollectRefs, LockedPaths, ConditionHolds, RefOk, ResolutionError, FirstResolutionError, Results, NodeFacts,
      ParmFacts, WireFacts, WireEqual, ReadWire;
    var cs := Rewire(held);
    CollectsAffected(cs);
    forall r | r in CollectRefs(cs) ensures RefOk(g, cs, None, r) && ResolutionError(g, KeyOf(r)).None? {
      RewireOk(g, held, r);
    }
    forall c | c in cs.preconditions ensures ConditionHolds(g, TwinBinding, cs, None, c) { RewireHolds(g, held, c); }
    NothingLocked(g, TwinBinding, cs, None);
  }

  lemma RewireCovered(held: Option<WireRef>)
    ensures Coverage.Covered(Rewire(held), None)
  {
    TwoConnects(held);
    var ops := Operations(held);
    assert Coverage.SameSlot(ops[0], ops[1]);
  }

  lemma RewireSnapshot(g: Graph, held: Option<WireRef>)
    requires Fitting(g, held)
    ensures !SnapshotAmbiguous(g, Rewire(held))
  {
    hide Run, SnapshotAmbiguous;
    RewireKnown(g, held);
    SnapshotClear(g, TwinBinding, Rewire(held), None, g, g);
  }

  lemma RewireAdmitted(g: Graph, held: Option<WireRef>)
    requires Fitting(g, held)
    ensures Admitted(g, TwinBinding, Rewire(held), None)
  {
    hide Run, Coverage.Covered, LockedPaths, SnapshotAmbiguous;
    RewireKnown(g, held);
    RewireCovered(held);
    RewireSnapshot(g, held);
    TwoConnects(held);
    assert Policy.External(Operations(held), None, Target);
    assert Policy.RiskAgrees(Rewire(held), None);
  }

  lemma RewireRun(env: TxEnv)
    requires env.created == map[]
    ensures ExecOps(TwinScene(), env, Operations(Held)[..1]).Some? && ExecOps(TwinScene(), env, Operations(Held)).None?
  {
    var g, ops := TwinScene(), Operations(Held);
    assert ops[..1][..0] == [] && ops[..1][0] == ops[0] && ops[..|ops| - 1] == ops[..1];
  }

  /** The example passes the gate, its second operation cannot run, and the first one has replaced a wire from a node
      that shares its id. */
  lemma RewireCannotBeUndone(defaults: map<string, map<string, string>>)
    ensures Tree(TwinScene()) && ValidChangeSet(Rewire())
    ensures Admitted(TwinScene(), TwinBinding, Rewire(), None)
    ensures !ShouldSucceed(TwinScene(), Rewire(), EnvOf(defaults, Rewire())) && !Undoable(TwinScene(), defaults, Rewire())
  {
    hide ValidChangeSet, AdmissionError, ExecOps, ReplacedSourcesUnique, Reached, Tree, CreatedIdentity;
    RewireValid(Held);
    assert Fitting(TwinScene(), Held) by { TwinFits(); }
    RewireAdmitted(TwinScene(), Held);
    RewireTree();
    var g, ops, env := TwinScene(), Operations(Held), EnvOf(defaults, Rewire());
    NoIdentities();
    RewireRun(env);
    assert ops[..2] == ops;
    ReachedIs(g, env, ops, 2, 1);
    ReplacesTwin();
  }

  lemma TwinFits()
    ensures Fitting(TwinScene(), Held)
  {
  }

  lemma RewireTree()
    ensures Tree(TwinScene())
  {
  }

  lemma NoIdentities()
    ensures UniqueCreated(Rewire().operations) && CreatedIdentity(Rewire().operations) == map[]
  {
  }

  lemma ReplacesTwin()
    ensures !ReplacedSourcesUnique(TwinScene(), Operations(Held), 1)
  {
    var g := TwinScene();
    assert HeldWire(g, Operations(Held), 0, 0) == Some(Wire(["one"], 0));
    assert ["two"] in Mirrors(g, "x");
    assert !ReplacedOk(g, Operations(Held), 0);
  }

  lemma Answered(pre: BridgeState, post: BridgeState, cacheMax: nat, env: TxEnv, reply: Reply)
    requires ApplyOutcome(pre, post, TwinBinding, cacheMax, Rewire(), None, env, false, reply)
    requires !pre.frozen && pre.cache == [] && Admitted(pre.graph, TwinBinding, Rewire(), None)
    ensures reply.Replied?
  {
    hide AdmissionError, TxOutcome, Rewire;
  }

  /** On the real executor: unless some call of the scene fails, the call is answered and writes end up frozen. */
  method FreezesByItself(defaults: map<string, map<string, string>>) returns (scene: Scene, reply: Reply, frozen: bool)
    ensures !scene.faulted ==> reply.Replied? && frozen
  {
    hide Tree, ValidChangeSet, TwinScene, Rewire, ApplyOutcome, AdmissionError, ShouldSucceed, Undoable, UniqueCreated;
    RewireCannotBeUndone(defaults);
    NoIdentities();
    scene := new Scene(TwinScene(), defaults);
    var executor := new ChangeSetExecutor(scene, TwinBinding, 1);
    ghost var before := executor.View();
    ghost var sight, lost;
    reply, sight, lost := executor.Apply(Rewire(), None);
    if !scene.faulted { Answered(before, executor.View(), 1, EnvOf(scene.defaults, Rewire()), reply); }
    frozen := executor.frozen;
  }
}
