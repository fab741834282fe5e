/** What a created node carries after an applied change, told from the ChangeSet alone, and that its own workspace takes
    it for its own. */
module CreatedNodes {
  import opened Wrappers
  import opened Contracts
  import opened SceneGraph
  import opened Transactions
  import opened Glances
  import opened LostWires
  import opened Preflight
  import opened Admission
  import opened SeenGate
  import opened ExecutorSpec
  import opened Served
  import RecoveryTruth

  /** The node is of the asked type and says who it is: its id, workspace, capability and role, the schema, and the run of
      the ChangeSet. */
  predicate Carries(n: Node, cs: ChangeSet, op: Operation)
    requires op.CreateNode?
  {
    && n.kind == op.kind
    && MirrorOf(n, NodeIdKey) == Some(op.nodeId)
    && MirrorOf(n, WorkspaceKey) == Some(op.workspaceId)
    && MirrorOf(n, CapabilityKey) == Some(op.capability)
    && MirrorOf(n, RoleKey) == Some(op.role)
    && MirrorOf(n, SchemaKey) == Some("1")
    && MirrorOf(n, RunKey) == Some(cs.runId)
  }

  /** The first `k` creates have left their nodes, each the only one with its id. */
  ghost predicate Made(h: Graph, cs: ChangeSet, k: nat)
    requires k <= |cs.operations|
  {
    forall m :: 0 <= m < k && cs.operations[m].CreateNode? ==> MadeAt(h, cs, m)
  }

  ghost predicate MadeAt(h: Graph, cs: ChangeSet, m: nat)
    requires m < |cs.operations| && cs.operations[m].CreateNode?
  {
    && CreatedPath(cs.operations[m]) in h && Carries(h[CreatedPath(cs.operations[m])], cs, cs.operations[m])
    && Mirrors(h, cs.operations[m].nodeId) == {CreatedPath(cs.operations[m])}
  }

  lemma {:induction false} RunMakes(g: Graph, cs: ChangeSet, defaults: map<string, map<string, string>>, k: nat)
    requires UniqueCreated(cs.operations) && Ready(g, EnvOf(defaults, cs), cs.operations, 0)
    requires KindsKnown(EnvOf(defaults, cs), cs.operations) && k <= |cs.operations|
    ensures Ready(Writes(g, EnvOf(defaults, cs), cs.operations[..k]), EnvOf(defaults, cs), cs.operations, k)
    ensures Made(Writes(g, EnvOf(defaults, cs), cs.operations[..k]), cs, k)
  {
    hide Ready, KindsKnown, Write, Made, UniqueCreated, EnvOf;
    var env, ops := EnvOf(defaults, cs), cs.operations;
    if k > 0 {
      assert ops[..k][..k - 1] == ops[..k - 1];
      RunMakes(g, cs, defaults, k - 1);
      var h := Writes(g, env, ops[..k - 1]);
      RecoveryTruth.WriteStep(h, env, ops, k - 1);
      if ops[k - 1].CreateNode? {
        CreateMakes(h, cs, defaults, k - 1);
      } else {
        SlotMakes(h, cs, env, k - 1);
      }
    } else {
      assert ops[..0] == [];
      NothingMade(g, cs);
    }
  }

  lemma NothingMade(g: Graph, cs: ChangeSet)
    ensures Made(g, cs, 0)
  {
  }

  lemma CreateMakes(h: Graph, cs: ChangeSet, defaults: map<string, map<string, string>>, k: nat)
    requires UniqueCreated(cs.operations) && k < |cs.operations| && cs.operations[k].CreateNode?
    requires Ready(h, EnvOf(defaults, cs), cs.operations, k) && KindsKnown(EnvOf(defaults, cs), cs.operations)
    requires Made(h, cs, k)
    ensures Made(Write(h, EnvOf(defaults, cs), cs.operations[k]), cs, k + 1)
  {
    hide Ready, Write, UseOk, Carries, Mirrors;
    var env, ops := EnvOf(defaults, cs), cs.operations;
    var op, p := ops[k], CreatedPath(ops[k]);
    var n := NewNode(env, op);
    CreateDone(h, env, ops, k);
    ReadyAbsent(h, env, ops, k);
    CreateWrites(h, env, ops, k);
    CreatedMirrors(h, env, op, p, n);
    NewCarries(cs, defaults, op);
    var next := h[p := n];
    forall m | 0 <= m < k + 1 && ops[m].CreateNode? ensures MadeAt(next, cs, m) {
      if m < k {
        assert MadeAt(h, cs, m);
        assert ops[m].nodeId != op.nodeId;
      }
    }
  }

  lemma ReadyAbsent(h: Graph, env: TxEnv, ops: seq<Operation>, k: nat)
    requires Ready(h, env, ops, k) && k < |ops| && ops[k].CreateNode?
    ensures CreatedPath(ops[k]) !in h && Mirrors(h, ops[k].nodeId) == {}
  {
  }

  lemma CreateWrites(h: Graph, env: TxEnv, ops: seq<Operation>, k: nat)
    requires Ready(h, env, ops, k) && k < |ops| && ops[k].CreateNode? && ops[k].kind in env.defaults
    ensures Write(h, env, ops[k]) == h[CreatedPath(ops[k]) := NewNode(env, ops[k])]
  {
    hide Ready, NewNode;
    ReadyResolves(h, env, ops, k, ops[k].parent);
    CreateDone(h, env, ops, k);
  }

  lemma NewCarries(cs: ChangeSet, defaults: map<string, map<string, string>>, op: Operation)
    requires UniqueCreated(cs.operations) && op.CreateNode? && op.kind in defaults
    ensures Carries(NewNode(EnvOf(defaults, cs), op), cs, op)
  {
    hide CreatedIdentity, UniqueCreated;
  }

  lemma SlotMakes(h: Graph, cs: ChangeSet, env: TxEnv, k: nat)
    requires k < |cs.operations| && !cs.operations[k].CreateNode? && Made(h, cs, k)
    ensures Made(Write(h, env, cs.operations[k]), cs, k + 1)
  {
    hide Write, Mirrors;
    var next := Write(h, env, cs.operations[k]);
    RecoveryTruth.SlotWriteShape(h, env, cs.operations[k]);
    SameMirrors(h, next);
    forall m | 0 <= m < k + 1 && cs.operations[m].CreateNode? ensures MadeAt(next, cs, m) {
      assert MadeAt(h, cs, m);
    }
  }

  /** After a request that ended Applied, every node it creates is there, is the only one with its id, and carries what the
      ChangeSet says. */
  lemma AppliedCarries(pre: BridgeState, post: BridgeState, binding: Binding, cacheMax: nat, cs: ChangeSet,
                       ws: Option<Manifest>, defaults: map<string, map<string, string>>, faulted: bool, misread: bool,
                       s: Sight, lost: Lost, reply: Reply, m: nat)
    requires ValidChangeSet(cs)
    requires ServedOutcome(pre, post, binding, cacheMax, cs, ws, EnvOf(defaults, cs), faulted, misread, s, lost, reply)
    requires misread ==> IdsTold(pre.graph, s.ids, cs.operations)
    requires !pre.frozen && CacheGet(pre.cache, (cs.changeId, cs)).None? && reply.Replied? && reply.receipt.status == Applied
    requires m < |cs.operations| && cs.operations[m].CreateNode?
    ensures MadeAt(post.graph, cs, m)
  {
    hide AdmissionError, Sees, IdsTold, CacheAdd, CacheGet, DigestConflict, Confined, FootprintOf, ReceiptShape, ExecOps,
      PostsHold, PostSeen, Without, LostFrom, MadeAt, Writes, KindsKnown, CreatedReferencesOk, ConsistentConditions,
      UniqueRefs, Ready, CreatedIdentity;
    var env, ops := EnvOf(defaults, cs), cs.operations;
    ToldPlainly(pre.graph, ops);
    ReadyIff(pre.graph, s, binding, cs, ws, env);
    RunMakes(pre.graph, cs, defaults, |ops|);
    assert ops[..|ops|] == ops;
  }

  // ---- the next look at it -----------------------------------------------

  /** The manifest entry of a created node. */
  function EntryFor(op: Operation): OwnedNode
    requires op.CreateNode?
  {
    OwnedNode(op.nodeId, CreatedPath(op), op.kind, op.parent.path, op.capability, op.role)
  }

  /** A manifest of the run that lists the node takes it for its own: the next preflight raises nothing about it. */
  lemma OwnNodePasses(h: Graph, cs: ChangeSet, m: nat, ws: Manifest)
    requires m < |cs.operations| && cs.operations[m].CreateNode? && MadeAt(h, cs, m)
    requires ws.workspaceId == cs.operations[m].workspaceId && ws.createdByRun == cs.runId
    requires EntryFor(cs.operations[m]) in ws.nodes
    ensures ExistingOk(h, CreatedRef(cs.operations[m]), Some(ws))
    ensures ResolutionError(h, KeyOf(CreatedRef(cs.operations[m]))).None?
  {
    hide Mirrors;
    var op := cs.operations[m];
    var p := CreatedPath(op);
    assert LocateKey(h, KeyOf(CreatedRef(op))) == At(p);
    assert Parent(p) == op.parent.path;
    assert ManifestAgrees(EntryFor(op), op.nodeId, p, h[p]);
  }

  /** And only such a manifest does: another run or workspace is refused. */
  lemma OthersRefuse(h: Graph, cs: ChangeSet, m: nat, ws: Manifest)
    requires m < |cs.operations| && cs.operations[m].CreateNode? && MadeAt(h, cs, m)
    requires ws.createdByRun != cs.runId || (forall o :: o in ws.nodes ==> o.nodeId != cs.operations[m].nodeId)
    ensures !ExistingOk(h, CreatedRef(cs.operations[m]), Some(ws))
  {
    hide Mirrors;
    var op := cs.operations[m];
    assert LocateKey(h, KeyOf(CreatedRef(op))) == At(CreatedPath(op));
  }

  // ---- the check before a created node is used ---------------------------

  /** The check passes exactly on a node that is where the reference says and carries what the ChangeSet says. */
  lemma VerifiedIff(h: Graph, cs: ChangeSet, defaults: map<string, map<string, string>>, m: nat, p: Path)
    requires UniqueCreated(cs.operations) && m < |cs.operations| && cs.operations[m].CreateNode?
    ensures IsCreatedRef(EnvOf(defaults, cs), CreatedRef(cs.operations[m]))
    ensures VerifiedCreated(h, EnvOf(defaults, cs), p, CreatedRef(cs.operations[m]))
       <==> p in h && p == CreatedPath(cs.operations[m])
            && Carries(h[p], cs, cs.operations[m])
  {
    var op := cs.operations[m];
    assert CreatedIdentity(cs.operations)[op.nodeId] == (op.capability, op.role);
  }
}
