/** Sending a ChangeSet again after its receipt has left the cache. */
module ReplaySafety {
  import opened Wrappers
  import opened Contracts
  import opened SceneGraph
  import opened Transactions
  import opened Preflight
  import opened Admission
  import opened ExecutorSpec
  import opened Acts
  import opened Pins
  import Coverage

  /** In an admitted scene where the postconditions hold already, the last write of every slot is in place. */
  lemma HeldSlot(g: Graph, cs: ChangeSet, env: TxEnv, i: int)
    requires Ready(g, env, cs.operations, 0) && NoCreates(cs.operations) && Coverage.PostconditionsCovered(cs)
    requires PostsHold(g, cs) && 0 <= i < |cs.operations| && Coverage.LastWrite(cs.operations, i)
    ensures SlotHolds(g, cs.operations[i])
  {
    hide Ready, CollectRefs;
    var op := cs.operations[i];
    assert Coverage.NewValueCondition(op) in Coverage.MandatoryPostconditions(cs.operations);
    assert PostHolds(g, cs, Coverage.NewValueCondition(op));
    NoCreateResolves(g, env, cs.operations, i, op.target);
    if op.ConnectInput? {
      NoCreateResolves(g, env, cs.operations, i, op.source);
    }
  }

  lemma TargetByKey(g: Graph, env: TxEnv, ops: seq<Operation>, i: int)
    requires Ready(g, env, ops, 0) && NoCreates(ops) && 0 <= i < |ops|
    ensures KeyLocated(g, ops[i].target) && (ops[i].ConnectInput? ==> Locate(g, ops[i].source).At?)
  {
    assert RefReady(g, env, ops, 0, i, ops[i].target);
    if ops[i].ConnectInput? { NoCreateResolves(g, env, ops, i, ops[i].source); }
  }

  /** Where a create is admitted its postcondition cannot hold yet. */
  lemma CreateNotHeld(g: Graph, cs: ChangeSet, env: TxEnv)
    requires Ready(g, env, cs.operations, 0) && Coverage.PostconditionsCovered(cs) && PostsHold(g, cs)
    ensures NoCreates(cs.operations)
  {
    hide PostHolds;
    forall m | 0 <= m < |cs.operations| ensures !cs.operations[m].CreateNode? {
      if cs.operations[m].CreateNode? {
        assert Coverage.LastWrite(cs.operations, m);
        CreatePostFails(g, cs, env, m);
      }
    }
  }

  lemma CreatePostFails(g: Graph, cs: ChangeSet, env: TxEnv, m: int)
    requires Ready(g, env, cs.operations, 0) && 0 <= m < |cs.operations| && cs.operations[m].CreateNode?
    ensures !PostHolds(g, cs, Coverage.NewValueCondition(cs.operations[m]))
  {
    hide CollectRefs;
    assert Mirrors(g, cs.operations[m].nodeId) == {};
  }

  lemma HeldWritesNothing(g: Graph, binding: Binding, cs: ChangeSet, ws: Option<Manifest>, env: TxEnv)
    requires ValidChangeSet(cs) && Admitted(g, binding, cs, ws) && PostsHold(g, cs)
    requires env.created == CreatedIdentity(cs.operations)
    ensures Writes(g, env, cs.operations) == g
  {
    hide Admitted, ValidChangeSet, PostsHold, Ready, SlotHolds, CreatedIdentity;
    var ops := cs.operations;
    AdmittedFacts(g, binding, cs, ws);
    assert Coverage.PostconditionsCovered(cs);
    AdmittedReady(g, binding, cs, ws, env);
    CreateNotHeld(g, cs, env);
    forall i | 0 <= i < |ops|
      ensures KeyLocated(g, ops[i].target) && (ops[i].ConnectInput? ==> Locate(g, ops[i].source).At?)
    {
      TargetByKey(g, env, ops, i);
    }
    forall i | 0 <= i < |ops| && Coverage.LastWrite(ops, i) ensures SlotHolds(g, ops[i]) {
      HeldSlot(g, cs, env, i);
    }
    HoldingWritesAreNoOp(g, env, ops);
  }

  /** A run that ends Applied leaves the scene as it found it exactly when its postconditions held to begin with. */
  lemma AppliedLeavesSceneIff(pre: BridgeState, post: BridgeState, binding: Binding, cacheMax: nat, cs: ChangeSet,
                              ws: Option<Manifest>, env: TxEnv, faulted: bool, reply: Reply)
    requires ApplyOutcome(pre, post, binding, cacheMax, cs, ws, env, faulted, reply) && ValidChangeSet(cs)
    requires env.created == CreatedIdentity(cs.operations)
    requires reply.Replied? && reply.receipt.status == Applied
    ensures post.graph == pre.graph <==> PostsHold(pre.graph, cs)
  {
    hide AdmissionError, ValidChangeSet, PostsHold, Confined, FootprintOf, CreatedIdentity, ExecOps, CacheAdd, CacheGet;
    assert Admitted(pre.graph, binding, cs, ws);
    ExecIsWrite(pre.graph, env, cs.operations);
    if PostsHold(pre.graph, cs) {
      HeldWritesNothing(pre.graph, binding, cs, ws, env);
    }
  }

  /** Replaying an applied ChangeSet in the scene it left, with its receipt no longer cached: unless writes freeze,
      nothing changes. */
  lemma EvictedReplay(s0: BridgeState, s1: BridgeState, s2: BridgeState, s3: BridgeState, binding: Binding,
                      cacheMax: nat, cs: ChangeSet, ws: Option<Manifest>, ws': Option<Manifest>, env: TxEnv,
                      faulted: bool, faulted': bool, reply: Reply, reply': Reply)
    requires ValidChangeSet(cs) && env.created == CreatedIdentity(cs.operations)
    requires ApplyOutcome(s0, s1, binding, cacheMax, cs, ws, env, faulted, reply)
    requires reply.Replied? && reply.receipt.status == Applied
    requires s2.graph == s1.graph && ApplyOutcome(s2, s3, binding, cacheMax, cs, ws', env, faulted', reply')
    ensures !s3.frozen ==> s3.graph == s1.graph
  {
    hide AdmissionError, ValidChangeSet, PostsHold, Confined, FootprintOf, CreatedIdentity, ExecOps, CacheAdd, CacheGet;
    assert PostsHold(s1.graph, cs);
    if reply'.Replied? && reply'.receipt.status == Applied {
      AppliedLeavesSceneIff(s2, s3, binding, cacheMax, cs, ws', env, faulted', reply');
    }
  }
}
