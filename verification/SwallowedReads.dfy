/** What a swallowed read can do: three scenes in which one of them makes the difference. */
module SwallowedReads {
  import opened Wrappers
  import opened Contracts
  import opened SceneGraph
  import opened Transactions
  import opened Glances
  import opened Preflight
  import opened Admission
  import opened SeenGate
  import opened LostWires
  import opened ExecutorSpec
  import opened Served
  import AmbiguousRollback
  import ReplayFlip
  import Coverage

  const Target := AmbiguousRollback.Target
  const Source := AmbiguousRollback.Source

  // ---- a lost wire -------------------------------------------------------

  /** The target without its wire, which is how it looks when reading its inputs raises. */
  function Blank(): Graph {
    map[[] := Node("root", map[], map[], map[], false), ["one"] := AmbiguousRollback.Plain(),
        ["source"] := AmbiguousRollback.Plain(), ["target"] := AmbiguousRollback.Plain()]
  }

  function Wired(): Graph {
    Blank()[["target"] := AmbiguousRollback.Plain().(inputs := map[0 := Wire(["one"], 0)])]
  }

  /** Expects no wire, connects one, and then expects none again. */
  function Careless(): ChangeSet {
    AmbiguousRollback.Rewire(None)
  }

  /** What the first operation journals when the input is not read, and what it should journal. */
  const Journaled := [UndoWire(Target, 0, None)]
  const True := [UndoWire(Target, 0, Some(WireRef(NodeRef(None, ["one"], "null", None), 0)))]

  const LostReceipt :=
    Receipt("c", RolledBack, AmbiguousRollback.TwinBinding, ["first"], [], [true], false, Some("apply.write_error"), None)

  function Before(): BridgeState {
    BridgeState(Wired(), [], false)
  }

  function After(): BridgeState {
    BridgeState(Blank(), [(("c", Careless()), LostReceipt)], false)
  }

  lemma WiredShown()
    ensures Shown(Wired(), Blank()) && Tree(Wired()) && Tree(Blank())
  {
    hide Blank, Tree;
    BlankIs(None);
    BlankTree();
    ShownUnread(Wired(), ["target"], 0);
  }

  lemma BlankTree()
    ensures Tree(Blank()) && Tree(Wired())
  {
    hide Tree;
    assert Tree(Blank()) by { BlankOnly(); }
    InputKeepsTree(Blank(), ["target"], 0, Some(Wire(["one"], 0)));
    assert map[][0 := Wire(["one"], 0)] == map[0 := Wire(["one"], 0)];
    assert WithInput(Blank(), ["target"], 0, Some(Wire(["one"], 0)))[["target"]] == Wired()[["target"]];
  }

  lemma BlankOnly()
    ensures Tree(Blank())
  {
  }

  lemma WiredReads()
    ensures ReadWire(Wired(), ["target"], 0) == True[0].source && ReadWire(Blank(), ["target"], 0) == None
    ensures InputAt(Wired(), ["target"], 0) == Some(Wire(["one"], 0)) && InputAt(Blank(), ["target"], 0).None?
    ensures AmbiguousRollback.Fitting(Blank(), None)
  {
    hide Tree, Shown;
  }

  lemma BlankIs(w: Option<Wire>)
    ensures Blank() == WithInput(Wired(), ["target"], 0, None)
    ensures Blank() == WithInput(WithInput(Wired(), ["target"], 0, w), ["target"], 0, None)
  {
    hide Tree, Shown;
    var g, p: Path := Wired(), ["target"];
    assert g[p].inputs - {0} == map[];
    assert WithInput(g, p, 0, None)[p] == Blank()[p];
    assert WithInput(g, p, 0, w)[p].inputs - {0} == map[];
    assert WithInput(WithInput(g, p, 0, w), p, 0, None)[p] == Blank()[p];
  }

  lemma CarelessConfined()
    ensures Confined(Wired(), Blank(), FootprintOf(Careless().operations))
    ensures (["target"], 0) in FootprintOf(Careless().operations).wires
  {
    hide Confined, Blank;
    var ops := Careless().operations;
    AmbiguousRollback.TwoConnects(None);
    BlankIs(None);
    assert ops[0].ConnectInput? && (ops[0].target.path, ops[0].input) == (["target"], 0);
    NothingMade(ops);
    ConfinedRefl(Wired(), FootprintOf(ops));
    ConfinedInput(Wired(), Wired(), FootprintOf(ops), ["target"], 0, None);
  }

  lemma NothingMade(ops: seq<Operation>)
    requires CreatedPaths(ops) == {}
    ensures FootprintOf(ops).created == {}
  {
  }

  lemma WireIsLost()
    ensures LostFrom(Wired(), map[(["target"], 0) := None]) && Without(Wired(), map[(["target"], 0) := None]) == Blank()
  {
    hide Blank, LostFrom, Without;
    WiredReads();
    BlankIs(None);
    WithoutOne(Wired(), ["target"], 0);
  }

  /** The journal of the first operation, its inputs unread, leads a rollback away from the first scene. */
  lemma CarelessJournal(env: TxEnv)
    ensures var h := Write(Wired(), env, Careless().operations[0]);
            && ShownJournal(True, Journaled) && UndoAll(h, True) == Wired()
            && UndoAll(h, Journaled) == Blank() && !ReadTruly(Wired(), Journaled)
  {
    hide Blank, Tree, InputAt, ReadWire;
    WiredShown();
    WiredReads();
    var g, op := Wired(), Careless().operations[0];
    var h := WithInput(g, ["target"], 0, Some(Wire(["source"], 0)));
    CarelessWrite(env);
    BlankIs(Some(Wire(["source"], 0)));
    UndoneWire(g, Target, 0, Some(Wire(["source"], 0)));
    OnlyUndo(h, True[0]);
    OnlyUndo(h, Journaled[0]);
    assert Misread(g, Journaled, 0);
  }

  lemma CarelessWrite(env: TxEnv)
    ensures Write(Wired(), env, Careless().operations[0]) == WithInput(Wired(), ["target"], 0, Some(Wire(["source"], 0)))
  {
  }

  lemma OnlyUndo(g: Graph, inv: Inverse)
    ensures UndoAll(g, [inv]) == Undo(g, inv)
  {
    assert [inv][..0] == [];
  }

  /** A rollback that reports the scene restored and freezes nothing, although a wire is gone: its input was read as
      empty by the gate and again just before the write, so it was journaled as empty. */
  lemma WireLost(defaults: map<string, map<string, string>>)
    ensures ValidChangeSet(Careless())
    ensures ServedOutcome(Before(), After(), AmbiguousRollback.TwinBinding, 1, Careless(), None,
                          EnvOf(defaults, Careless()), true, true, Plain(Blank()), map[(["target"], 0) := None],
                          Replied(LostReceipt))
    ensures LostReceipt.status == RolledBack && !LostReceipt.sceneMayHaveChanged && !After().frozen
    ensures InputAt(Before().graph, ["target"], 0).Some? && InputAt(After().graph, ["target"], 0).None?
  {
    hide AdmissionError, ValidChangeSet, Confined, FootprintOf, Blank, AmbiguousRollback.Rewire, Tree, Shown, CreatedIdentity,
      LostFrom, Without, Writes, UniqueCreated, ReceiptShape;
    AmbiguousRollback.RewireValid(None);
    WiredShown();
    WiredReads();
    CarelessFacts();
    AmbiguousRollback.RewireAdmitted(Blank(), None);
    CarelessConfined();
    WireIsLost();
    LostShape();
    var key := (Careless().changeId, Careless());
    assert CacheGet([], key).None? && CacheAdd([], key, LostReceipt, 1) == [(key, LostReceipt)];
  }

  lemma LostShape()
    ensures ReceiptShape(Careless(), LostReceipt, false)
  {
    assert OpIds(Careless().operations)[..1] == ["first"];
  }

  lemma CarelessFacts()
    ensures Careless().changeId == "c" && Careless().binding == AmbiguousRollback.TwinBinding
    ensures UniqueCreated(Careless().operations)
  {
    AmbiguousRollback.RewireValid(None);
  }

  // ---- a locked node -----------------------------------------------------

  function Locked(v: string): Graph {
    ReplayFlip.Holding(v)[["box"] := ReplayFlip.Holding(v)[["box"]].(locked := true)]
  }

  /** The gate lets a change of a locked node through when reading its lock raised: the node looks unlocked. */
  lemma LockedIsWritten(env: TxEnv)
    requires env.created == map[]
    ensures var cs := ReplayFlip.Flip("c", "0", "1");
            && ValidChangeSet(cs) && Locked("0")[["box"]].locked
            && Sees(Locked("0"), Plain(ReplayFlip.Holding("0")))
            && SeenAdmitted(Plain(ReplayFlip.Holding("0")), ReplayFlip.FlipBinding, cs, None)
            && IdsTold(Locked("0"), ReplayFlip.Holding("0"), cs.operations)
            && ExecOps(Locked("0"), env, cs.operations) == Some(Locked("1"))
  {
    hide AdmissionError, ValidChangeSet, Coverage.PostconditionsCovered, ExecOp;
    var cs := ReplayFlip.Flip("c", "0", "1");
    ReplayFlip.FlipValid("c", "0", "1");
    ReplayFlip.FlipAdmitted("c", "0", "1");
    LockedStep(env);
    assert cs.operations[..0] == [];
  }

  lemma LockedStep(env: TxEnv)
    requires env.created == map[]
    ensures ExecOp(Locked("0"), env, ReplayFlip.Flip("c", "0", "1").operations[0]) == Some(Locked("1"))
  {
    var g := Locked("0");
    assert Locate(g, ReplayFlip.Box) == At(["box"]);
    assert g[["box"]].parms["tx" := "1"] == map["tx" := "1"];
    assert WithParm(g, ["box"], "tx", "1")[["box"]] == Locked("1")[["box"]];
    assert WithParm(g, ["box"], "tx", "1") == Locked("1");
  }

  // ---- a second node -----------------------------------------------------

  const Named := NodeRef(Some("n"), ["box"], "null", None)

  function Signed(): Node {
    Node("null", map[NodeIdKey := "n", SchemaKey := SUPPORTED_SCHEMA], map["tx" := "0"], map[], false)
  }

  /** Two nodes with one id. */
  function Doubled(): Graph {
    map[[] := Node("root", map[], map[], map[], false), ["box"] := Signed(), ["copy"] := Signed()]
  }

  /** The same with the id of one of them unread. */
  function CopyHidden(): Graph {
    Doubled()[["copy"] := Signed().(mirror := map[])]
  }

  function BoxHidden(): Graph {
    Doubled()[["box"] := Signed().(mirror := map[])]
  }

  function Renamed(): ChangeSet {
    ReplayFlip.Flip("c", "0", "1").(operations := [SetParm("op", Named, "tx", "1", "0")], affected := [Named],
      preconditions := [SceneBindingEquals(ReplayFlip.FlipBinding), NodeIdentityEquals(Named),
                        ParmValueEquals(Named, "tx", "0")])
  }

  lemma HidingMirrors()
    ensures Mirrors(Doubled(), "n") == {["box"], ["copy"]}
    ensures Mirrors(CopyHidden(), "n") == {["box"]} && Mirrors(BoxHidden(), "n") == {["copy"]}
    ensures Shown(Doubled(), CopyHidden()) && Shown(Doubled(), BoxHidden())
  {
    hide Mirrors, Shown;
    DoubledMirrors();
    CopyMirrors();
    BoxMirrors();
    ShownOne(Doubled(), ["copy"], Signed().(mirror := map[]));
    ShownOne(Doubled(), ["box"], Signed().(mirror := map[]));
  }

  lemma DoubledMirrors()
    ensures Mirrors(Doubled(), "n") == {["box"], ["copy"]}
  {
  }

  lemma CopyMirrors()
    ensures Mirrors(CopyHidden(), "n") == {["box"]}
  {
  }

  lemma BoxMirrors()
    ensures Mirrors(BoxHidden(), "n") == {["copy"]}
  {
  }

  lemma RenamedRefs()
    ensures forall r :: r in CollectRefs(Renamed()) ==> r == Named
    ensures CreatedIds(Renamed().operations) == {}
  {
    hide CollectRefs;
    CollectsAffected(Renamed());
  }

  lemma BoxFound()
    ensures LocateKey(CopyHidden(), KeyOf(Named)) == At(["box"])
    ensures ["box"] in CopyHidden() && CopyHidden()[["box"]] == Signed()
  {
    HidingMirrors();
    hide Mirrors;
  }

  lemma RenamedSeen()
    ensures RefOk(CopyHidden(), Renamed(), None, Named) && ResolutionError(CopyHidden(), KeyOf(Named)).None?
  {
    BoxFound();
    RenamedRefs();
    hide CollectRefs, Mirrors, LocateKey, CopyHidden, KeyOf;
  }

  lemma RenamedHolds(c: Condition)
    requires c in Renamed().preconditions
    ensures ConditionHolds(CopyHidden(), ReplayFlip.FlipBinding, Renamed(), None, c)
  {
    BoxFound();
    RenamedRefs();
    hide CollectRefs, Mirrors, LocateKey, CopyHidden, KeyOf, CreatedIds;
  }

  /** Preflight passes although the reference is ambiguous; and an index that misses the right node instead leads to
      the wrong one. */
  lemma SecondNodeUnseen()
    ensures Sees(Doubled(), Plain(CopyHidden()))
    ensures Passes(CopyHidden(), ReplayFlip.FlipBinding, Renamed(), None)
    ensures NodeIdentityEquals(Named) in Renamed().preconditions && !Pinned(Doubled(), Named)
    ensures Resolve(Doubled(), IndexOf(BoxHidden()), Named) == At(["copy"])
  {
    hide CollectRefs, RefOk, ResolutionError, ConditionHolds, Resolve, Mirrors, CopyHidden, BoxHidden, Doubled, Passes;
    HidingMirrors();
    WrongNode();
    RenamedRefs();
    RenamedSeen();
    forall c | c in Renamed().preconditions
      ensures ConditionHolds(CopyHidden(), ReplayFlip.FlipBinding, Renamed(), None, c)
    {
      RenamedHolds(c);
    }
    PassesIf(CopyHidden(), ReplayFlip.FlipBinding, Renamed(), None);
    assert ["copy"] in Mirrors(Doubled(), "n");
  }

  lemma WrongNode()
    ensures Resolve(Doubled(), IndexOf(BoxHidden()), Named) == At(["copy"])
  {
    HidingMirrors();
    hide Mirrors, BoxHidden, Doubled;
    assert Lookup(IndexOf(BoxHidden()), "n") == {["copy"]};
  }
}
