/** What an apply request comes to, whatever its guarded reads were told. */
module Served {
  import opened Wrappers
  import opened Contracts
  import opened SceneGraph
  import opened Transactions
  import opened Glances
  import opened Preflight
  import opened Admission
  import opened SeenGate
  import opened LostWires
  import opened ExecutorSpec

  /** All or nothing as far as reads were told the truth: Applied means every operation took effect, and its
      postconditions hold as they were read; RolledBack means the scene of before without the wires that were read
      wrongly; nothing outside the footprint changes. */
  ghost predicate TxServed(g: Graph, cs: ChangeSet, env: TxEnv, r: Receipt, h: Graph, frozen: bool, lost: Lost,
                           misread: bool)
  {
    && Tree(h) && Confined(g, h, FootprintOf(cs.operations)) && ReceiptShape(cs, r, frozen)
    && (r.status == Applied ==> h == Writes(g, env, cs.operations) && KindsKnown(env, cs.operations))
    && (r.status == Applied ==> forall c :: c in cs.postconditions ==> PostSeen(h, cs, c, true))
    && (r.status == Applied && !misread ==> ExecOps(g, env, cs.operations) == Some(h) && PostsHold(h, cs))
    && (r.status == RolledBack ==> h == Without(g, lost))
    && LostFrom(g, lost) && lost.Keys <= FootprintOf(cs.operations).wires && (!misread ==> lost == map[])
  }

  /** The request ran, and was rolled back. */
  predicate NewlyRolledBack(cache: Cache, cs: ChangeSet, reply: Reply) {
    CacheGet(cache, (cs.changeId, cs)).None? && reply.Replied? && reply.receipt.status == RolledBack
  }

  /** The outcome of a request. What the transaction promises rests on one thing only: that the gate saw every node
      with an id that the operations use or create. */
  ghost predicate ServedOutcome(pre: BridgeState, post: BridgeState, binding: Binding, cacheMax: nat, cs: ChangeSet,
                                ws: Option<Manifest>, env: TxEnv, faulted: bool, misread: bool, sight: Sight, lost: Lost,
                                reply: Reply)
  {
    var key := (cs.changeId, cs);
    if pre.frozen then reply == Rejected(WriteFrozen) && post == pre && lost == map[] else
    if CacheGet(pre.cache, key).Some?
    then reply == Replied(Replay(CacheGet(pre.cache, key).value)) && post == pre && lost == map[] else
    if DigestConflict(pre.cache, cs.changeId, cs) then reply == Rejected(ReceiptConflict) && post == pre && lost == map[] else
    || (faulted && reply == Rejected(ReadFailed) && post == pre && lost == map[])
    || (&& Sees(pre.graph, sight) && (!misread ==> sight == Plain(pre.graph))
        && var e := SeenError(sight, binding, cs, ws);
           if e.Some? then reply == Rejected(e.value) && post == pre && lost == map[] else
           && reply.Replied? && post.cache == CacheAdd(pre.cache, key, reply.receipt, cacheMax)
           && Tree(post.graph) && ReceiptShape(cs, reply.receipt, post.frozen)
           && (IdsTold(pre.graph, sight.ids, cs.operations) ==>
                 TxServed(pre.graph, cs, env, reply.receipt, post.graph, post.frozen, lost, misread)))
  }

  lemma ToldPlainly(g: Graph, ops: seq<Operation>)
    ensures IdsTold(g, g, ops)
  {
  }

  lemma TruthServed(g: Graph, cs: ChangeSet, env: TxEnv, r: Receipt, h: Graph, frozen: bool, lost: Lost)
    requires TxServed(g, cs, env, r, h, frozen, lost, false)
    ensures TxOutcome(g, cs, env, r, h, frozen)
  {
    hide Tree, Confined, FootprintOf, ExecOps, PostsHold, PostSeen, Without, ReceiptShape;
    WithoutNothing(g);
  }

  /** Where no guarded read was swallowed, the outcome is that of the checked run. */
  lemma ServedTruly(pre: BridgeState, post: BridgeState, binding: Binding, cacheMax: nat, cs: ChangeSet,
                    ws: Option<Manifest>, env: TxEnv, faulted: bool, sight: Sight, lost: Lost, reply: Reply)
    requires ServedOutcome(pre, post, binding, cacheMax, cs, ws, env, faulted, false, sight, lost, reply)
    ensures ApplyOutcome(pre, post, binding, cacheMax, cs, ws, env, faulted, reply)
  {
    hide TxServed, TxOutcome, IdsTold, AdmissionError, CacheAdd, DigestConflict, CacheGet;
    if !pre.frozen && CacheGet(pre.cache, (cs.changeId, cs)).None? && !DigestConflict(pre.cache, cs.changeId, cs)
       && reply.Replied? {
      ToldPlainly(pre.graph, cs.operations);
      TruthServed(pre.graph, cs, env, reply.receipt, post.graph, post.frozen, lost);
    }
  }

  lemma TruthIsTxServed(g: Graph, cs: ChangeSet, env: TxEnv, r: Receipt, h: Graph, frozen: bool)
    requires TxOutcome(g, cs, env, r, h, frozen)
    ensures TxServed(g, cs, env, r, h, frozen, map[], false)
  {
    hide Tree, Confined, FootprintOf, ExecOps, PostsHold, PostSeen, Without, Writes, ReceiptShape, KindsKnown;
    WithoutNothing(g);
    if r.status == Applied {
      ExecIsWrite(g, env, cs.operations);
      ExecKinds(g, env, cs.operations);
      forall c | c in cs.postconditions ensures PostSeen(h, cs, c, true) { PostSeenPlainly(h, cs, c); }
    }
  }

  lemma PostSeenPlainly(h: Graph, cs: ChangeSet, c: Condition)
    requires PostsHold(h, cs) && c in cs.postconditions
    ensures PostSeen(h, cs, c, true)
  {
    hide PostHolds;
    ShownRefl(h);
    assert PostHolds(h, cs, c, h);
  }

  /** And the other way round: what the checked run comes to is an outcome. */
  lemma TruthIsServed(pre: BridgeState, post: BridgeState, binding: Binding, cacheMax: nat, cs: ChangeSet,
                      ws: Option<Manifest>, env: TxEnv, faulted: bool, reply: Reply)
    requires ApplyOutcome(pre, post, binding, cacheMax, cs, ws, env, faulted, reply)
    ensures ServedOutcome(pre, post, binding, cacheMax, cs, ws, env, faulted, false, Plain(pre.graph), map[], reply)
  {
    hide TxServed, AdmissionError, CacheAdd, DigestConflict, CacheGet, IdsTold, ExecOps, PostsHold, Confined, FootprintOf;
    var g := pre.graph;
    ShownRefl(g);
    if !pre.frozen && CacheGet(pre.cache, (cs.changeId, cs)).None? && !DigestConflict(pre.cache, cs.changeId, cs)
       && reply.Replied? {
      TruthIsTxServed(g, cs, env, reply.receipt, post.graph, post.frozen);
    }
  }
}
