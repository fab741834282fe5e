/** The construction-time checks of a ChangeSet as the loops that make them. */
module ContractChecks {
  import opened Wrappers
  import opened Contracts

  // ---- references --------------------------------------------------------

  /** One pass with a dictionary of ids and one of paths. */
  method UniqueNodeRefs(refs: seq<NodeRef>) returns (ok: bool)
    ensures ok <==> UniqueRefs(refs)
  {
    var byId: map<string, NodeRef>, byPath: map<Path, NodeRef> := map[], map[];
    for i := 0 to |refs|
      invariant UniqueRefs(refs[..i])
      invariant byId.Keys == set k | 0 <= k < i && refs[k].nodeId.Some? :: refs[k].nodeId.value
      invariant byPath.Keys == set k | 0 <= k < i :: refs[k].path
    {
      var r := refs[i];
      if r.nodeId.Some? {
        if r.nodeId.value in byId { return false; }
        byId := byId[r.nodeId.value := r];
      }
      if r.path in byPath { return false; }
      byPath := byPath[r.path := r];
    }
    assert refs[..|refs|] == refs;
    ok := true;
  }

  method UniqueCreatedNodes(ops: seq<Operation>) returns (ok: bool)
    ensures ok <==> UniqueCreated(ops)
  {
    var ids: set<string>, paths: set<Path> := {}, {};
    for i := 0 to |ops|
      invariant UniqueCreated(ops[..i])
      invariant ids == CreatedIds(ops[..i]) && paths == CreatedPaths(ops[..i])
    {
      CreatedNext(ops, i);
      if ops[i].CreateNode? {
        if ops[i].nodeId in ids { return false; }
        ids := ids + {ops[i].nodeId};
        if CreatedPath(ops[i]) in paths { return false; }
        paths := paths + {CreatedPath(ops[i])};
      }
    }
    assert ops[..|ops|] == ops;
    ok := true;
  }

  lemma CreatedNext(ops: seq<Operation>, i: nat)
    requires i < |ops|
    ensures var id, path := CreatedIds(ops[..i]), CreatedPaths(ops[..i]);
            && CreatedIds(ops[..i + 1]) == id + (if ops[i].CreateNode? then {ops[i].nodeId} else {})
            && CreatedPaths(ops[..i + 1]) == path + (if ops[i].CreateNode? then {CreatedPath(ops[i])} else {})
  {
    var before, after := ops[..i], ops[..i + 1];
    assert after == before + [ops[i]];
    forall id ensures id in CreatedIds(after) <==> id in CreatedIds(before) || (ops[i].CreateNode? && id == ops[i].nodeId) {
      if id in CreatedIds(before) {
        var m :| 0 <= m < |before| && before[m].CreateNode? && before[m].nodeId == id;
        assert after[m].CreateNode? && after[m].nodeId == id;
      }
      assert after[i] == ops[i];
    }
    forall p
      ensures p in CreatedPaths(after) <==> p in CreatedPaths(before) || (ops[i].CreateNode? && p == CreatedPath(ops[i]))
    {
      if p in CreatedPaths(before) {
        var m :| 0 <= m < |before| && before[m].CreateNode? && CreatedPath(before[m]) == p;
        assert after[m].CreateNode? && CreatedPath(after[m]) == p;
      }
      assert after[i] == ops[i];
    }
  }

  // ---- the forward-reference rule ----------------------------------------

  /** A created reference with the operation that creates it. */
  type Producer = (NodeRef, nat)

  /** The dictionaries of created nodes. */
  predicate Indexed(ops: seq<Operation>, n: nat, byId: map<string, Producer>, byPath: map<Path, Producer>)
    requires n <= |ops|
  {
    && (forall m :: 0 <= m < n && ops[m].CreateNode? ==>
          && ops[m].nodeId in byId && byId[ops[m].nodeId] == (CreatedRef(ops[m]), m)
          && CreatedPath(ops[m]) in byPath && byPath[CreatedPath(ops[m])] == (CreatedRef(ops[m]), m))
    && (forall id :: id in byId ==> exists m :: 0 <= m < n && ops[m].CreateNode? && ops[m].nodeId == id)
    && (forall p :: p in byPath ==> exists m :: 0 <= m < n && ops[m].CreateNode? && CreatedPath(ops[m]) == p)
  }

  lemma IndexNone(ops: seq<Operation>)
    ensures Indexed(ops, 0, map[], map[])
  {
  }

  lemma IndexNext(ops: seq<Operation>, i: nat, byId: map<string, Producer>, byPath: map<Path, Producer>)
    requires UniqueCreated(ops) && i < |ops| && Indexed(ops, i, byId, byPath)
    ensures !ops[i].CreateNode? ==> Indexed(ops, i + 1, byId, byPath)
    ensures ops[i].CreateNode? ==>
              Indexed(ops, i + 1, byId[ops[i].nodeId := (CreatedRef(ops[i]), i)],
                      byPath[CreatedPath(ops[i]) := (CreatedRef(ops[i]), i)])
  {
    hide CreatedPath, CreatedRef;
    if !ops[i].CreateNode? {
      forall id | id in byId ensures exists m :: 0 <= m < i + 1 && ops[m].CreateNode? && ops[m].nodeId == id {
        var m :| 0 <= m < i && ops[m].CreateNode? && ops[m].nodeId == id;
      }
    }
  }

  method IndexCreates(ops: seq<Operation>) returns (byId: map<string, Producer>, byPath: map<Path, Producer>)
    requires UniqueCreated(ops)
    ensures Indexed(ops, |ops|, byId, byPath)
  {
    hide Indexed, UniqueCreated;
    IndexNone(ops);
    byId, byPath := map[], map[];
    for i := 0 to |ops|
      invariant Indexed(ops, i, byId, byPath)
    {
      IndexNext(ops, i, byId, byPath);
      if ops[i].CreateNode? {
        byId := byId[ops[i].nodeId := (CreatedRef(ops[i]), i)];
        byPath := byPath[CreatedPath(ops[i]) := (CreatedRef(ops[i]), i)];
      }
    }
  }

  /** The id decides when it is a created one, else the path does. */
  predicate RefAccepted(r: NodeRef, limit: nat, byId: map<string, Producer>, byPath: map<Path, Producer>) {
    if r.nodeId.Some? && r.nodeId.value in byId
    then r == byId[r.nodeId.value].0 && byId[r.nodeId.value].1 < limit
    else r.path in byPath ==> r == byPath[r.path].0 && byPath[r.path].1 < limit
  }

  /** Operations that create the same id or the same path are the same operation. */
  lemma OneCreator(ops: seq<Operation>, k: int, m: int)
    requires UniqueCreated(ops) && 0 <= k < |ops| && 0 <= m < |ops| && ops[k].CreateNode? && ops[m].CreateNode?
    requires ops[k].nodeId == ops[m].nodeId || CreatedPath(ops[k]) == CreatedPath(ops[m])
    ensures k == m
  {
  }

  lemma OkAtCreator(ops: seq<Operation>, r: NodeRef, limit: int, m: int)
    requires UniqueCreated(ops) && 0 <= m < |ops| && ops[m].CreateNode?
    requires r.nodeId == Some(ops[m].nodeId) || r.path == CreatedPath(ops[m])
    ensures CreatedRefOk(ops, r, limit) <==> r == CreatedRef(ops[m]) && m < limit
  {
    if r == CreatedRef(ops[m]) && m < limit {
      forall k | 0 <= k < |ops| && ops[k].CreateNode? && (r.nodeId == Some(ops[k].nodeId) || r.path == CreatedPath(ops[k]))
        ensures r == CreatedRef(ops[k]) && k < limit
      {
        OneCreator(ops, k, m);
      }
    }
  }

  /** Looking at one dictionary is enough: a reference that shares an id or a path with a created node is accepted
      exactly when it is that node's own reference and the node comes earlier. */
  lemma AcceptedIff(ops: seq<Operation>, r: NodeRef, limit: nat, byId: map<string, Producer>, byPath: map<Path, Producer>)
    requires UniqueCreated(ops) && Indexed(ops, |ops|, byId, byPath)
    ensures RefAccepted(r, limit, byId, byPath) <==> CreatedRefOk(ops, r, limit)
  {
    hide UniqueCreated, CreatedPath, CreatedRef;
    if r.nodeId.Some? && r.nodeId.value in byId {
      var m :| 0 <= m < |ops| && ops[m].CreateNode? && ops[m].nodeId == r.nodeId.value;
      OkAtCreator(ops, r, limit, m);
    } else if r.path in byPath {
      var m :| 0 <= m < |ops| && ops[m].CreateNode? && CreatedPath(ops[m]) == r.path;
      OkAtCreator(ops, r, limit, m);
    }
  }

  lemma MentionedIff(ops: seq<Operation>, r: NodeRef, byId: map<string, Producer>, byPath: map<Path, Producer>)
    requires Indexed(ops, |ops|, byId, byPath)
    ensures MentionsCreated(ops, r) <==> (r.nodeId.Some? && r.nodeId.value in byId) || r.path in byPath
  {
  }

  method CheckRefs(ops: seq<Operation>, refs: seq<NodeRef>, limit: nat, byId: map<string, Producer>,
                   byPath: map<Path, Producer>)
    returns (ok: bool)
    requires UniqueCreated(ops) && Indexed(ops, |ops|, byId, byPath)
    ensures ok <==> forall r :: r in refs ==> CreatedRefOk(ops, r, limit)
  {
    hide CreatedRefOk, RefAccepted, Indexed, UniqueCreated;
    for i := 0 to |refs|
      invariant forall k :: 0 <= k < i ==> CreatedRefOk(ops, refs[k], limit)
    {
      AcceptedIff(ops, refs[i], limit, byId, byPath);
      if !RefAccepted(refs[i], limit, byId, byPath) { return false; }
    }
    ok := true;
  }

  method NoneCreated(ops: seq<Operation>, refs: seq<NodeRef>, byId: map<string, Producer>, byPath: map<Path, Producer>)
    returns (ok: bool)
    requires Indexed(ops, |ops|, byId, byPath)
    ensures ok <==> forall r :: r in refs ==> !MentionsCreated(ops, r)
  {
    hide MentionsCreated, Indexed;
    for i := 0 to |refs|
      invariant forall k :: 0 <= k < i ==> !MentionsCreated(ops, refs[k])
    {
      MentionedIff(ops, refs[i], byId, byPath);
      if (refs[i].nodeId.Some? && refs[i].nodeId.value in byId) || refs[i].path in byPath { return false; }
    }
    ok := true;
  }

  function RefsOf(op: Operation): (refs: seq<NodeRef>)
    ensures forall r :: r in refs <==> r in OpRefs(op)
  {
    match op
    case CreateNode(_, parent, _, _, _, _, _, _) => [parent]
    case SetParm(_, target, _, _, _) => [target]
    case ConnectInput(_, target, _, source, _, prior) =>
      if prior.Some? then [target, source, prior.value.source] else [target, source]
  }

  function RefsIn(c: Condition): (refs: seq<NodeRef>)
    ensures forall r :: r in refs <==> r in ConditionRefs(c)
  {
    match c
    case NodeIdentityEquals(node) => [node]
    case ParmValueEquals(target, _, _) => [target]
    case WireInputEquals(target, _, wire) => if wire.Some? then [target, wire.value.source] else [target]
    case _ => []
  }

  function ConditionsRefs(cs: seq<Condition>): (refs: seq<NodeRef>)
    ensures forall r :: r in refs <==> exists c :: c in cs && r in ConditionRefs(c)
  {
    if cs == [] then [] else
    assert cs == cs[..|cs| - 1] + [cs[|cs| - 1]];
    ConditionsRefs(cs[..|cs| - 1]) + RefsIn(cs[|cs| - 1])
  }

  function ParmTargets(snaps: seq<ParmSnapshot>): (refs: seq<NodeRef>)
    ensures forall r :: r in refs <==> exists s :: s in snaps && s.target == r
  {
    if snaps == [] then [] else
    assert snaps == snaps[..|snaps| - 1] + [snaps[|snaps| - 1]];
    ParmTargets(snaps[..|snaps| - 1]) + [snaps[|snaps| - 1].target]
  }

  function WireTargets(snaps: seq<WireSnapshot>): (refs: seq<NodeRef>)
    ensures forall r :: r in refs <==> exists s :: s in snaps && s.target == r
  {
    if snaps == [] then [] else
    assert snaps == snaps[..|snaps| - 1] + [snaps[|snaps| - 1]];
    WireTargets(snaps[..|snaps| - 1]) + [snaps[|snaps| - 1].target]
  }

  function SnapshotRefs(plan: CheckpointPlan): (refs: seq<NodeRef>)
    ensures forall r :: r in refs <==> r in plan.nodes || (exists s :: s in plan.parms && s.target == r)
                                       || (exists s :: s in plan.wires && s.target == r)
  {
    plan.nodes + ParmTargets(plan.parms) + WireTargets(plan.wires)
  }

  /** The references of a ChangeSet that only have to be exact. */
  function AggregateRefs(cs: ChangeSet): seq<NodeRef> {
    cs.affected + cs.readDeps + ConditionsRefs(cs.preconditions) + ConditionsRefs(cs.postconditions)
    + SnapshotRefs(cs.checkpoint)
  }

  lemma AggregateIff(cs: ChangeSet)
    ensures CreatedReferencesOk(cs)
       <==> && (forall i, r :: 0 <= i < |cs.operations| && r in OpRefs(cs.operations[i]) ==>
                  CreatedRefOk(cs.operations, r, i))
            && (forall r :: r in AggregateRefs(cs) ==> CreatedRefOk(cs.operations, r, |cs.operations|))
            && (forall r :: r in ConditionsRefs(cs.preconditions) + SnapshotRefs(cs.checkpoint) ==>
                  !MentionsCreated(cs.operations, r))
  {
    hide CreatedRefOk, MentionsCreated, OpRefs, ConditionRefs, ConditionsRefs, SnapshotRefs;
  }

  /** Indexes the creates, then checks every place where a ChangeSet embeds a reference. */
  method ValidateCreatedReferences(cs: ChangeSet) returns (ok: bool)
    requires UniqueCreated(cs.operations)
    ensures ok <==> CreatedReferencesOk(cs)
  {
    hide CreatedRefOk, MentionsCreated, OpRefs, CreatedReferencesOk, Indexed, UniqueCreated, ConditionsRefs, SnapshotRefs,
      AggregateRefs;
    var ops := cs.operations;
    AggregateIff(cs);
    var byId, byPath := IndexCreates(ops);
    for i := 0 to |ops|
      invariant forall k, r :: 0 <= k < i && r in OpRefs(ops[k]) ==> CreatedRefOk(ops, r, k)
    {
      ok := CheckRefs(ops, RefsOf(ops[i]), i, byId, byPath);
      if !ok { return; }
    }
    ok := CheckRefs(ops, AggregateRefs(cs), |ops|, byId, byPath);
    if !ok { return; }
    ok := NoneCreated(ops, ConditionsRefs(cs.preconditions) + SnapshotRefs(cs.checkpoint), byId, byPath);
  }

  // ---- conditions --------------------------------------------------------

  /** What a condition is about. */
  datatype Subject =
    | TheBinding | OfWorkspace(id: string) | OfNode(key: Key) | OfParm(key: Key, parm: string)
    | OfInput(key: Key, input: nat) | OfAbsence(path: Path, id: string)

  function SubjectOf(c: Condition): Subject {
    match c
    case SceneBindingEquals(_) => TheBinding
    case WorkspaceRevisionEquals(w, _) => OfWorkspace(w)
    case NodeIdentityEquals(node) => OfNode(KeyOf(node))
    case ParmValueEquals(target, parm, _) => OfParm(KeyOf(target), parm)
    case WireInputEquals(target, input, _) => OfInput(KeyOf(target), input)
    case NodeAbsent(path, id) => OfAbsence(path, id)
  }

  lemma SubjectDecides(a: Condition, b: Condition)
    ensures SameConditionSlot(a, b) <==> SubjectOf(a) == SubjectOf(b)
  {
  }

  /** One pass: no subject twice, and no node both absent and present. */
  method FreezeConditions(cs: seq<Condition>) returns (ok: bool)
    ensures ok <==> ConsistentConditions(cs)
  {
    hide SameConditionSlot, SubjectOf;
    var seen: set<Subject> := {};
    var absent: set<Path>, present: set<Path> := {}, {};
    for i := 0 to |cs|
      invariant seen == set k | 0 <= k < i :: SubjectOf(cs[k])
      invariant forall k, l :: 0 <= k < l < i ==> !SameConditionSlot(cs[k], cs[l])
      invariant absent == set k | 0 <= k < i && cs[k].NodeAbsent? :: cs[k].path
      invariant present == set k | 0 <= k < i && cs[k].NodeIdentityEquals? :: cs[k].node.path
    {
      var c := cs[i];
      forall k | 0 <= k < i ensures SameConditionSlot(cs[k], c) <==> SubjectOf(cs[k]) == SubjectOf(c) {
        SubjectDecides(cs[k], c);
      }
      if SubjectOf(c) in seen { return false; }
      seen := seen + {SubjectOf(c)};
      if c.NodeAbsent? { absent := absent + {c.path}; }
      if c.NodeIdentityEquals? { present := present + {c.node.path}; }
    }
    ok := absent !! present;
    if ok {
      forall a, b | a in cs && b in cs && a.NodeAbsent? && b.NodeIdentityEquals? ensures a.path != b.node.path {
        assert a.path in absent && b.node.path in present;
      }
    } else {
      var p :| p in absent && p in present;
      var k :| 0 <= k < |cs| && cs[k].NodeAbsent? && cs[k].path == p;
      var l :| 0 <= l < |cs| && cs[l].NodeIdentityEquals? && cs[l].node.path == p;
      assert cs[k] in cs && cs[l] in cs;
    }
  }
}
