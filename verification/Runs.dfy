/** Whole runs of the executor: any sequence of calls, with any failures of the scene along the way. */
module Runs {
  import opened Wrappers
  import opened Contracts
  import opened SceneGraph
  import opened Transactions
  import opened Glances
  import opened Admission
  import opened SeenGate
  import opened LostWires
  import opened ExecutorSpec
  import opened Served
  import Sampling = SamplingSpec

  datatype Call =
    | ApplyCall(cs: ChangeSet, ws: Option<Manifest>, faulted: bool, misread: bool, sight: Sight, lost: Lost, reply: Reply)
    | SampleCall(answer: Sampling.SampleReply, probes: seq<Sampling.Probe>, torn: Option<nat>)

  /** What never changes in one executor process. */
  datatype Process = Process(binding: Binding, cacheMax: nat, defaults: map<string, map<string, string>>)

  ghost predicate SampleOutcome(pre: BridgeState, post: BridgeState, answer: Sampling.SampleReply,
                                probes: seq<Sampling.Probe>, torn: Option<nat>)
  {
    && post.cache == pre.cache
    && (pre.frozen ==> post.frozen && post.graph == pre.graph)
    && Sampling.Originals(pre.graph, probes)
    && (torn.Some? ==> torn.value < |probes|)
    && (!post.frozen ==> post.graph == Sampling.AfterRestore(pre.graph, probes, torn))
  }

  ghost predicate Step(proc: Process, pre: BridgeState, call: Call, post: BridgeState) {
    match call
    case ApplyCall(cs, ws, faulted, misread, sight, lost, reply) =>
      ValidChangeSet(cs)
      && ServedOutcome(pre, post, proc.binding, proc.cacheMax, cs, ws, EnvOf(proc.defaults, cs), faulted, misread, sight,
                       lost, reply)
    case SampleCall(answer, probes, torn) => SampleOutcome(pre, post, answer, probes, torn)
  }

  predicate ValidCalls(calls: seq<Call>) {
    forall c :: c in calls && c.ApplyCall? ==> ValidChangeSet(c.cs)
  }

  ghost predicate IsRun(proc: Process, states: seq<BridgeState>, calls: seq<Call>) {
    && |states| == |calls| + 1 && ValidCalls(calls)
    && proc.cacheMax > 0
    && Tree(states[0].graph) && CacheOk(states[0].cache, proc.cacheMax)
    && forall i :: 0 <= i < |calls| ==> Step(proc, states[i], calls[i], states[i + 1])
  }

  predicate AppliedNow(call: Call) {
    call.ApplyCall? && call.reply.Replied? && call.reply.receipt.status == Applied
  }

  /** The specification: run the applied ChangeSets in order; of the others nothing stays but the wires they lost. */
  function AppliedOnly(proc: Process, g: Graph, calls: seq<Call>): Graph
    requires ValidCalls(calls)
  {
    if calls == [] then g else
    var before := AppliedOnly(proc, g, calls[..|calls| - 1]);
    var last := calls[|calls| - 1];
    assert last in calls;
    if AppliedNow(last) then Writes(before, EnvOf(proc.defaults, last.cs), last.cs.operations) else
    if last.ApplyCall? then Without(before, last.lost) else before
  }

  predicate Torn(call: Call) {
    call.SampleCall? && call.torn.Some?
  }

  /** If guarded reads of a request were swallowed, its gate still saw every node with an id that it uses. */
  ghost predicate Told(pre: BridgeState, call: Call) {
    call.ApplyCall? && call.misread ==> IdsTold(pre.graph, call.sight.ids, call.cs.operations)
  }

  /** One call: from a writable state either the scene moves by exactly what was applied, or only misread wires are
      lost, or writes are frozen. */
  lemma OneCall(proc: Process, pre: BridgeState, call: Call, post: BridgeState)
    requires Step(proc, pre, call, post) && Told(pre, call) && !Torn(call) && !post.frozen && !pre.frozen
    ensures AppliedNow(call) ==> post.graph == Writes(pre.graph, EnvOf(proc.defaults, call.cs), call.cs.operations)
    ensures !AppliedNow(call) ==> post.graph == if call.ApplyCall? then Without(pre.graph, call.lost) else pre.graph
  {
    hide Confined, FootprintOf, AdmissionError, PostsHold, CreatedIdentity, ExecOps, PostSeen, IdsTold, Writes, Without, Sees,
      CacheAdd, CacheGet, DigestConflict, ValidChangeSet;
    WithoutNothing(pre.graph);
    if call.ApplyCall? { ToldPlainly(pre.graph, call.cs.operations); }
  }

  lemma FrozenCall(proc: Process, pre: BridgeState, call: Call, post: BridgeState)
    requires Step(proc, pre, call, post) && pre.frozen
    ensures post.frozen && post.graph == pre.graph && !AppliedNow(call)
  {
  }

  lemma CallKeepsCache(proc: Process, pre: BridgeState, call: Call, post: BridgeState)
    requires Step(proc, pre, call, post) && proc.cacheMax > 0 && CacheOk(pre.cache, proc.cacheMax)
    ensures CacheOk(post.cache, proc.cacheMax)
  {
    hide Confined, AdmissionError, TxServed, CacheOk, CacheAdd, ReceiptShape, Sees, IdsTold;
    if call.ApplyCall? && call.reply.Replied? && post.cache != pre.cache {
      CacheStaysOk(pre.cache, (call.cs.changeId, call.cs), call.reply.receipt, proc.cacheMax);
    }
  }

  /** Once frozen, a run writes nothing more. */
  lemma {:induction false} FrozenForever(proc: Process, states: seq<BridgeState>, calls: seq<Call>, i: nat, j: nat)
    requires IsRun(proc, states, calls) && i <= j < |states| && states[i].frozen
    ensures states[j].frozen && states[j].graph == states[i].graph
    decreases j - i
  {
    hide Step, CacheOk, Tree;
    if i < j {
      FrozenForever(proc, states, calls, i, j - 1);
      FrozenCall(proc, states[j - 1], calls[j - 1], states[j]);
    }
  }

  /** The cache never outgrows its bound and never holds two digests of one change. */
  lemma {:induction false} CacheAlwaysOk(proc: Process, states: seq<BridgeState>, calls: seq<Call>, j: nat)
    requires IsRun(proc, states, calls) && j < |states|
    ensures CacheOk(states[j].cache, proc.cacheMax)
  {
    hide Step, CacheOk, Tree;
    if j > 0 {
      CacheAlwaysOk(proc, states, calls, j - 1);
      CallKeepsCache(proc, states[j - 1], calls[j - 1], states[j]);
    }
  }

  /** All or nothing over any run of apply and sample calls: while writes are not frozen, the scene is the first
      one with exactly the operations of the applied ChangeSets run in order, and without the wires that rolled-back
      ones had read wrongly. */
  lemma {:induction false} AllOrNothing(proc: Process, states: seq<BridgeState>, calls: seq<Call>)
    requires IsRun(proc, states, calls)
    requires forall i :: 0 <= i < |calls| ==> Told(states[i], calls[i]) && !Torn(calls[i])
    requires !states[|calls|].frozen
    ensures states[|calls|].graph == AppliedOnly(proc, states[0].graph, calls)
    decreases |calls|
  {
    hide Step, Told, Torn, Tree, Without, Writes;
    if calls != [] {
      var n := |calls| - 1;
      assert Step(proc, states[n], calls[n], states[n + 1]);
      if states[n].frozen { FrozenCall(proc, states[n], calls[n], states[n + 1]); }
      var earlier, fewer := states[..n + 1], calls[..n];
      forall i | 0 <= i < n
        ensures Step(proc, earlier[i], fewer[i], earlier[i + 1]) && Told(earlier[i], fewer[i]) && !Torn(fewer[i])
      {
        assert Step(proc, states[i], calls[i], states[i + 1]) && Told(states[i], calls[i]);
      }
      AllOrNothing(proc, earlier, fewer);
      OneCall(proc, states[n], calls[n], states[n + 1]);
    }
  }

  /** A request none of whose guarded reads was swallowed loses no wire. */
  lemma NothingLost(proc: Process, pre: BridgeState, call: Call, post: BridgeState)
    requires Step(proc, pre, call, post) && call.ApplyCall? && !call.misread
    ensures Told(pre, call) && Without(pre.graph, call.lost) == pre.graph
  {
    hide Confined, FootprintOf, AdmissionError, PostsHold, CreatedIdentity, ExecOps, PostSeen, Writes, Without, CacheAdd,
      CacheGet, DigestConflict, ValidChangeSet, IdsTold, Sees;
    WithoutNothing(pre.graph);
    ToldPlainly(pre.graph, call.cs.operations);
  }

  /** Without the assumption on sample writes the law fails: a write that raises after taking effect is not
      journaled, so the cycle ends unfrozen with the sampled value left in the scene. */
  lemma TornSampleStays(path: Path, node: Node, binding: Binding)
    requires path != [] && node.parms == map["tx" := "0"]
    ensures var g := map[path := node];
            var probes := [Sampling.Probe(path, "tx", "1", "0")];
            var pre, post := BridgeState(g, [], false), BridgeState(WithParm(g, path, "tx", "1"), [], false);
            SampleOutcome(pre, post, Sampling.SampleAborted, probes, Some(0)) && post.graph != pre.graph
  {
    var g := map[path := node];
    assert WithParm(g, path, "tx", "1")[path].parms["tx"] == "1";
    assert Sampling.Slots([Sampling.Probe(path, "tx", "1", "0")][..0]) == {};
  }

  /** Exactly when a torn sample leaves the scene changed: no earlier sample of the cycle wrote the slot, and the
      value differs from the one found. */
  lemma TornSampleExactly(g: Graph, probes: seq<Sampling.Probe>, k: nat)
    requires Sampling.Originals(g, probes) && k < |probes|
    ensures Sampling.AfterRestore(g, probes, Some(k)) == g
       <==> Sampling.SlotOf(probes[k]) in Sampling.Slots(probes[..k]) || probes[k].value == probes[k].original
  {
    var p := probes[k];
    var h := WithParm(g, p.path, p.parm, p.value);
    assert ParmAt(g, p.path, p.parm) == Some(p.original);
    assert ParmAt(h, p.path, p.parm) == Some(p.value);
    if p.value == p.original {
      assert g[p.path].parms[p.parm := p.value] == g[p.path].parms;
    }
  }
}
