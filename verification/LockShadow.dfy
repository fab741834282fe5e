/** A scene and a ChangeSet for which the lock gate stays open over a locked target. */
module LockShadow {
  import opened Wrappers
  import opened Contracts
  import opened SceneGraph
  import opened Transactions
  import opened Preflight
  import opened Admission
  import Coverage
  import Policy

  const ShadowedTarget := NodeRef(Some("n"), ["box"], "null", Some("w"))
  const Shadow := NodeRef(Some("n"), ["elsewhere"], "null", Some("w"))
  const ShadowBinding := Binding("houdini", 1)
  const ShadowOwned := OwnedNode("n", ["box"], "null", [], "geometry", "output")
  const ShadowManifest := Manifest("w", "s", ShadowBinding, "r", [ShadowOwned], [ShadowOwned], "run")

  /** A locked node of the workspace below the scene root. */
  const ShadowScene: Graph :=
    map[[] := Node("root", map[], map[], map[], false),
        ["box"] := Node("null", map[NodeIdKey := "n", WorkspaceKey := "w", CapabilityKey := "geometry",
                                    RoleKey := "output", SchemaKey := SUPPORTED_SCHEMA, RunKey := "run"],
                        map["tx" := "0"], map[], true)]

  /** One write to the locked node, and a read dependency that names the node by its id at a path where it is not. */
  const ShadowChange :=
    ChangeSet("c", "s", "run", ShadowBinding, Some("w"), OwnedWorkspace, {},
              [SetParm("op", ShadowedTarget, "tx", "1", "0")], [ShadowedTarget], [Shadow],
              [SceneBindingEquals(ShadowBinding), WorkspaceRevisionEquals("w", "r"),
               NodeIdentityEquals(ShadowedTarget), ParmValueEquals(ShadowedTarget, "tx", "0")],
              [ParmValueEquals(ShadowedTarget, "tx", "1")],
              RiskSummary(false, false, false, 1, {ParmSetEffect}, {["box"]}),
              CheckpointPlan([ShadowedTarget], [ParmSnapshot(ShadowedTarget, "tx")], []))

  lemma DedupNext(rs: seq<NodeRef>, last: NodeRef)
    ensures Dedup(rs + [last]) == if HasSpot(Dedup(rs), last) then Dedup(rs) else Dedup(rs) + [last]
  {
    assert (rs + [last])[..|rs|] == rs;
  }

  lemma ConditionRefsNext(cs: seq<Condition>, last: Condition)
    ensures AllConditionRefs(cs + [last]) == AllConditionRefs(cs) + ConditionRef(last)
  {
    assert (cs + [last])[..|cs|] == cs;
  }

  lemma ShadowConditionRefs()
    ensures AllConditionRefs(ShadowChange.preconditions) == [ShadowedTarget, ShadowedTarget]
  {
    var c := ShadowChange.preconditions;
    ConditionRefsNext([], c[0]);
    ConditionRefsNext([c[0]], c[1]);
    ConditionRefsNext([c[0], c[1]], c[2]);
    ConditionRefsNext([c[0], c[1], c[2]], c[3]);
    assert c == [c[0], c[1], c[2]] + [c[3]];
    assert [c[0], c[1], c[2]] == [c[0], c[1]] + [c[2]];
    assert [c[0], c[1]] == [c[0]] + [c[1]];
    assert [c[0]] == [] + [c[0]];
  }

  lemma DedupAgain(rs: seq<NodeRef>, t: NodeRef)
    requires t in rs
    ensures Dedup(rs + [t]) == Dedup(rs)
  {
    DedupNext(rs, t);
  }

  lemma DedupThrice(rs: seq<NodeRef>, t: NodeRef)
    requires t in rs
    ensures Dedup(rs + [t] + [t, t]) == Dedup(rs)
  {
    hide Dedup;
    DedupAgain(rs, t);
    DedupAgain(rs + [t], t);
    DedupAgain(rs + [t] + [t], t);
    assert rs + [t] + [t, t] == rs + [t] + [t] + [t];
  }

  lemma DedupPair(t: NodeRef, q: NodeRef)
    requires !SameSpot(t, q)
    ensures Dedup([t] + [q]) == [t] + [q]
  {
    hide Dedup, HasSpot;
    SpotsOfTwo(t, q);
    DedupNext([], t);
    assert [] + [t] == [t];
    DedupNext([t], q);
  }

  lemma DedupTwo(t: NodeRef, q: NodeRef)
    requires !SameSpot(t, q)
    ensures Dedup([t] + [q] + [t] + [t, t]) == [t] + [q]
  {
    hide Dedup;
    DedupPair(t, q);
    assert ([t] + [q])[0] == t;
    DedupThrice([t] + [q], t);
  }

  lemma SpotsOfTwo(t: NodeRef, q: NodeRef)
    requires !SameSpot(t, q)
    ensures Dedup([]) == [] && !HasSpot([], t) && !HasSpot([t], q) && HasSpot([t] + [q], t)
  {
    assert ([t] + [q])[0] == t && SameSpot(t, t);
  }

  lemma ShadowRefs()
    ensures CollectRefs(ShadowChange) == [ShadowedTarget, Shadow]
  {
    hide Dedup, AllOpRefs, AllConditionRefs;
    DedupTwo(ShadowedTarget, Shadow);
    ShadowConditionRefs();
    SingleOpRefs(ShadowChange.operations[0]);
    assert ShadowChange.operations == [ShadowChange.operations[0]];
  }

  lemma SingleOpRefs(op: Operation)
    ensures AllOpRefs([op]) == RefsInOrder(op)
  {
    assert [op][..0] == [];
  }

  lemma ShadowLocated()
    ensures Mirrors(ShadowScene, "n") == {["box"]} && LocateKey(ShadowScene, ById("n")) == At(["box"])
  {
  }

  lemma ShadowOk(r: NodeRef)
    requires r in {ShadowedTarget, Shadow}
    ensures RefOk(ShadowScene, ShadowChange, Some(ShadowManifest), r) && ResolutionError(ShadowScene, KeyOf(r)).None?
  {
    hide LocateKey;
    ShadowLocated();
    assert ShadowOwned in ShadowManifest.nodes;
    assert ManifestAgrees(ShadowOwned, "n", ["box"], ShadowScene[["box"]]);
    SingleWrite(ShadowChange.operations[0]);
    assert ShadowChange.operations == [ShadowChange.operations[0]];
  }

  lemma ShadowHolds(c: Condition)
    requires c in ShadowChange.preconditions
    ensures ConditionHolds(ShadowScene, ShadowBinding, ShadowChange, Some(ShadowManifest), c)
  {
    hide LocateKey;
    ShadowLocated();
    SingleWrite(ShadowChange.operations[0]);
    assert ShadowChange.operations == [ShadowChange.operations[0]];
  }

  lemma KeysOfTwo(t: NodeRef, q: NodeRef)
    requires KeyOf(t) == KeyOf(q)
    ensures KeysOf([t, q]) == {KeyOf(t)}
  {
    assert [t, q][0] == t;
  }

  lemma ShadowFacts()
    ensures LockedPaths(GatherFacts(ShadowScene, ShadowBinding, ShadowChange, Some(ShadowManifest))) == {["elsewhere"]}
  {
    hide CollectRefs, LocateKey, ConditionHolds;
    ShadowRefs();
    ShadowLocated();
    var f := GatherFacts(ShadowScene, ShadowBinding, ShadowChange, Some(ShadowManifest));
    assert f.nodes == NodeFacts(ShadowScene, [ShadowedTarget, Shadow]);
    KeysOfTwo(ShadowedTarget, Shadow);
    assert f.nodes[ById("n")] == NodeFact(Shadow, Some((["box"], ShadowScene[["box"]])));
  }

  lemma ShadowKnown()
    ensures Run(ShadowScene, ShadowBinding, ShadowChange, Some(ShadowManifest)).Known?
    ensures var f := Run(ShadowScene, ShadowBinding, ShadowChange, Some(ShadowManifest)).facts;
            f.allHold && LockedPaths(f) == {["elsewhere"]}
  {
    hide CollectRefs, RefOk, ResolutionError, LockedPaths, ConditionHolds;
    ShadowRefs();
    ShadowOk(ShadowedTarget);
    ShadowOk(Shadow);
    ShadowFacts();
    forall c | c in ShadowChange.preconditions
      ensures ConditionHolds(ShadowScene, ShadowBinding, ShadowChange, Some(ShadowManifest), c)
    {
      ShadowHolds(c);
    }
  }

  lemma ShadowAllowed()
    ensures ValidChangeSet(ShadowChange)
    ensures Coverage.Covered(ShadowChange, Some(ShadowManifest))
    ensures Policy.Allowed(ShadowChange, Some(ShadowManifest), {["elsewhere"]}, {})
  {
    var cs, ops, t := ShadowChange, ShadowChange.operations, ShadowedTarget;
    SingleWrite(ops[0]);
    assert ops == [ops[0]];
    ShadowValid();
    ShadowCovered();
    assert ShadowOwned in ShadowManifest.nodes;
    assert Policy.OwnedMatch(ShadowManifest, t);
    assert Policy.RiskAgrees(cs, Some(ShadowManifest));
  }

  lemma ShadowValid()
    ensures ValidChangeSet(ShadowChange)
  {
    hide CreatedReferencesOk;
    var ops := ShadowChange.operations;
    assert ops == [ops[0]];
    NothingCreated(ShadowChange);
  }

  lemma ShadowCovered()
    ensures Coverage.Covered(ShadowChange, Some(ShadowManifest))
  {
    var ops := ShadowChange.operations;
    SingleWrite(ops[0]);
    assert ops == [ops[0]];
  }

  lemma ShadowSnapshot()
    ensures !SnapshotAmbiguous(ShadowScene, ShadowChange)
  {
    hide Run, SnapshotAmbiguous;
    ShadowKnown();
    SnapshotClear(ShadowScene, ShadowBinding, ShadowChange, Some(ShadowManifest), ShadowScene, ShadowScene);
    assert Mirrors(ShadowScene, "n") == {["box"]};
  }

  /** The gate is not closed in general: a locked node of the workspace is written when a read dependency names it
      by its id at another path, because the facts keep the last reference per id and the gate compares paths. */
  lemma LockedTargetIsWritten(env: TxEnv)
    requires env.created == map[]
    ensures ValidChangeSet(ShadowChange)
    ensures Admitted(ShadowScene, ShadowBinding, ShadowChange, Some(ShadowManifest))
    ensures ShadowScene[["box"]].locked
    ensures ExecOps(ShadowScene, env, ShadowChange.operations) == Some(WithParm(ShadowScene, ["box"], "tx", "1"))
  {
    hide Run, Coverage.Covered, Policy.Allowed, ValidChangeSet, LockedPaths, SnapshotAmbiguous;
    ShadowKnown();
    ShadowAllowed();
    ShadowSnapshot();
    var g, ops := ShadowScene, ShadowChange.operations;
    assert Mirrors(g, "n") == {["box"]};
    assert ops[..0] == [];
    SingleWrite(ops[0]);
    assert ops == [ops[0]];
  }
}
