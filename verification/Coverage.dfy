/** The conditions the executor derives from the operations, and the check that a ChangeSet carries them all. */
module Coverage {
  import opened Wrappers
  import opened Contracts

  predicate TargetsCreated(ops: seq<Operation>, r: NodeRef) {
    r.nodeId.Some? && r.nodeId.value in CreatedIds(ops)
  }

  predicate SameSlot(a: Operation, b: Operation) {
    || (a.SetParm? && b.SetParm? && KeyOf(a.target) == KeyOf(b.target) && a.parm == b.parm)
    || (a.ConnectInput? && b.ConnectInput? && KeyOf(a.target) == KeyOf(b.target) && a.input == b.input)
  }

  predicate FirstWrite(ops: seq<Operation>, i: int)
    requires 0 <= i < |ops|
  {
    forall j :: 0 <= j < i ==> !SameSlot(ops[j], ops[i])
  }

  predicate LastWrite(ops: seq<Operation>, i: int)
    requires 0 <= i < |ops|
  {
    forall j :: i < j < |ops| ==> !SameSlot(ops[i], ops[j])
  }

  function OldValueCondition(op: Operation): Condition
    requires !op.CreateNode?
  {
    match op
    case SetParm(_, target, parm, _, expectedOld) => ParmValueEquals(target, parm, expectedOld)
    case ConnectInput(_, target, input, _, _, prior) => WireInputEquals(target, input, prior)
  }

  function NewValueCondition(op: Operation): Condition {
    match op
    case CreateNode(_, _, _, _, _, _, _, _) => NodeIdentityEquals(CreatedRef(op))
    case SetParm(_, target, parm, value, _) => ParmValueEquals(target, parm, value)
    case ConnectInput(_, target, input, source, output, _) =>
      WireInputEquals(target, input, Some(WireRef(source, output)))
  }

  /** The preconditions operation `i` calls for: absence of what it creates, identity of what it uses, and the
      old value of a slot that no earlier operation writes; nothing about nodes created by this ChangeSet. */
  function PreconditionsAt(ops: seq<Operation>, i: int): set<Condition>
    requires 0 <= i < |ops|
  {
    var op := ops[i];
    match op
    case CreateNode(_, parent, nodeId, _, _, _, _, _) =>
      {NodeAbsent(CreatedPath(op), nodeId)} + (if TargetsCreated(ops, parent) then {} else {NodeIdentityEquals(parent)})
    case SetParm(_, target, _, _, _) =>
      if !TargetsCreated(ops, target) && FirstWrite(ops, i)
      then {NodeIdentityEquals(target), OldValueCondition(op)} else {}
    case ConnectInput(_, target, _, source, _, _) =>
      (if !TargetsCreated(ops, target) && FirstWrite(ops, i)
       then {NodeIdentityEquals(target), OldValueCondition(op)} else {})
      + (if TargetsCreated(ops, source) then {} else {NodeIdentityEquals(source)})
  }

  function HeaderConditions(binding: Binding, ws: Option<Manifest>): set<Condition> {
    {SceneBindingEquals(binding)}
    + (if ws.Some? then {WorkspaceRevisionEquals(ws.value.workspaceId, ws.value.revision)} else {})
  }

  function MandatoryPreconditions(ops: seq<Operation>, binding: Binding, ws: Option<Manifest>): set<Condition> {
    HeaderConditions(binding, ws) + set i, c | 0 <= i < |ops| && c in PreconditionsAt(ops, i) :: c
  }

  function MandatoryPostconditions(ops: seq<Operation>): set<Condition> {
    set i | 0 <= i < |ops| && LastWrite(ops, i) :: NewValueCondition(ops[i])
  }

  function CheckpointNodesAt(ops: seq<Operation>, i: int): set<NodeRef>
    requires 0 <= i < |ops|
  {
    set r | r in UsedRefs(ops[i]) && !TargetsCreated(ops, r)
  }

  predicate CheckpointCovered(cs: ChangeSet) {
    var ops, plan := cs.operations, cs.checkpoint;
    && (forall i, r :: 0 <= i < |ops| && r in CheckpointNodesAt(ops, i) ==> r in plan.nodes)
    && (forall i :: 0 <= i < |ops| && ops[i].SetParm? && !TargetsCreated(ops, ops[i].target)
          ==> ParmSnapshot(ops[i].target, ops[i].parm) in plan.parms)
    && (forall i :: 0 <= i < |ops| && ops[i].ConnectInput? && !TargetsCreated(ops, ops[i].target)
          ==> WireSnapshot(ops[i].target, ops[i].input) in plan.wires)
  }

  predicate PostconditionsCovered(cs: ChangeSet) {
    forall c :: c in MandatoryPostconditions(cs.operations) ==> c in cs.postconditions
  }

  /** The gate before the first write: every derived fact is supplied. */
  predicate Covered(cs: ChangeSet, ws: Option<Manifest>) {
    && (forall c :: c in MandatoryPreconditions(cs.operations, cs.binding, ws) ==> c in cs.preconditions)
    && PostconditionsCovered(cs)
    && CheckpointCovered(cs)
  }

  /** The slot of an operation as the derivation loop keys it. */
  datatype Slot = ParmSlot(key: Key, parm: string) | WireSlot(key: Key, input: nat)

  function SlotOf(op: Operation): Slot
    requires !op.CreateNode?
  {
    if op.SetParm? then ParmSlot(KeyOf(op.target), op.parm) else WireSlot(KeyOf(op.target), op.input)
  }

  lemma SameSlotIff(a: Operation, b: Operation)
    ensures SameSlot(a, b) <==> !a.CreateNode? && !b.CreateNode? && SlotOf(a) == SlotOf(b)
  {
  }

  predicate LastWithin(ops: seq<Operation>, i: int, k: int)
    requires 0 <= i < k <= |ops|
  {
    forall j :: i < j < k ==> !SameSlot(ops[i], ops[j])
  }

  /** `origin` lists exactly the operations before `k` that no later one before `k` overwrites. */
  predicate Tracks(ops: seq<Operation>, k: int, origin: seq<int>)
    requires 0 <= k <= |ops|
  {
    && (forall x :: 0 <= x < |origin| ==> 0 <= origin[x] < k && LastWithin(ops, origin[x], k))
    && (forall i :: 0 <= i < k && LastWithin(ops, i, k) ==> i in origin)
  }

  lemma TrackNew(ops: seq<Operation>, k: int, origin: seq<int>)
    requires 0 <= k < |ops| && Tracks(ops, k, origin)
    requires forall x :: 0 <= x < |origin| ==> !SameSlot(ops[origin[x]], ops[k])
    ensures Tracks(ops, k + 1, origin + [k])
  {
    forall i | 0 <= i < k + 1 && LastWithin(ops, i, k + 1) ensures i in origin + [k] {
      assert i < k ==> LastWithin(ops, i, k);
      assert (origin + [k])[|origin|] == k;
    }
  }

  lemma TrackOverwrite(ops: seq<Operation>, k: int, origin: seq<int>, x: int)
    requires 0 <= k < |ops| && Tracks(ops, k, origin) && 0 <= x < |origin|
    requires forall y :: 0 <= y < |origin| ==> (SameSlot(ops[origin[y]], ops[k]) <==> y == x)
    ensures Tracks(ops, k + 1, origin[x := k])
  {
    var next := origin[x := k];
    forall i | 0 <= i < k + 1 && LastWithin(ops, i, k + 1) ensures i in next {
      assert next[x] == k;
      if i < k {
        assert LastWithin(ops, i, k) && !SameSlot(ops[i], ops[k]);
        var y :| 0 <= y < |origin| && origin[y] == i;
        assert next[y] == i;
      }
    }
  }

  /** The dictionary of the loop: where in the list the condition of each written slot sits. */
  predicate Places(ops: seq<Operation>, origin: seq<int>, at: map<Slot, nat>)
    requires forall x :: 0 <= x < |origin| ==> 0 <= origin[x] < |ops|
  {
    && (forall s :: s in at ==>
          at[s] < |origin| && !ops[origin[at[s]]].CreateNode? && SlotOf(ops[origin[at[s]]]) == s)
    && (forall x :: 0 <= x < |origin| && !ops[origin[x]].CreateNode? ==>
          SlotOf(ops[origin[x]]) in at && at[SlotOf(ops[origin[x]])] == x)
  }

  predicate Emitted(ops: seq<Operation>, origin: seq<int>, post: seq<Condition>)
    requires forall x :: 0 <= x < |origin| ==> 0 <= origin[x] < |ops|
  {
    |post| == |origin| && forall x :: 0 <= x < |post| ==> post[x] == NewValueCondition(ops[origin[x]])
  }

  ghost predicate LoopState(ops: seq<Operation>, k: int, origin: seq<int>, at: map<Slot, nat>, post: seq<Condition>)
    requires 0 <= k <= |ops|
  {
    |post| <= k && Tracks(ops, k, origin) && Places(ops, origin, at) && Emitted(ops, origin, post)
  }

  lemma StepCreate(ops: seq<Operation>, k: int, origin: seq<int>, at: map<Slot, nat>, post: seq<Condition>)
    requires 0 <= k < |ops| && LoopState(ops, k, origin, at, post) && ops[k].CreateNode?
    ensures LoopState(ops, k + 1, origin + [k], at, post + [NewValueCondition(ops[k])])
  {
    TrackNew(ops, k, origin);
  }

  lemma StepNewSlot(ops: seq<Operation>, k: int, origin: seq<int>, at: map<Slot, nat>, post: seq<Condition>)
    requires 0 <= k < |ops| && LoopState(ops, k, origin, at, post)
    requires !ops[k].CreateNode? && SlotOf(ops[k]) !in at
    ensures LoopState(ops, k + 1, origin + [k], at[SlotOf(ops[k]) := |post|], post + [NewValueCondition(ops[k])])
  {
    forall y | 0 <= y < |origin| ensures !SameSlot(ops[origin[y]], ops[k]) {
      SameSlotIff(ops[origin[y]], ops[k]);
    }
    TrackNew(ops, k, origin);
  }

  lemma StepKnownSlot(ops: seq<Operation>, k: int, origin: seq<int>, at: map<Slot, nat>, post: seq<Condition>)
    requires 0 <= k < |ops| && LoopState(ops, k, origin, at, post)
    requires !ops[k].CreateNode? && SlotOf(ops[k]) in at
    ensures at[SlotOf(ops[k])] < |post| == |origin|
    ensures LoopState(ops, k + 1, origin[at[SlotOf(ops[k])] := k], at,
                      post[at[SlotOf(ops[k])] := NewValueCondition(ops[k])])
  {
    var x := at[SlotOf(ops[k])];
    forall y | 0 <= y < |origin| ensures SameSlot(ops[origin[y]], ops[k]) <==> y == x {
      SameSlotIff(ops[origin[y]], ops[k]);
    }
    TrackOverwrite(ops, k, origin, x);
  }

  /** One pass over the operations; a later write of a slot overwrites the condition of the earlier one in place. */
  method DerivePostconditions(ops: seq<Operation>) returns (post: seq<Condition>)
    ensures (set c | c in post) == MandatoryPostconditions(ops)
    ensures |post| <= |ops|
  {
    post := [];
    var at: map<Slot, nat> := map[];
    ghost var origin: seq<int> := [];
    for k := 0 to |ops|
      invariant LoopState(ops, k, origin, at, post)
    {
      var op := ops[k];
      if op.CreateNode? {
        StepCreate(ops, k, origin, at, post);
        post, origin := post + [NewValueCondition(op)], origin + [k];
      } else if SlotOf(op) in at {
        StepKnownSlot(ops, k, origin, at, post);
        var x := at[SlotOf(op)];
        post, origin := post[x := NewValueCondition(op)], origin[x := k];
      } else {
        StepNewSlot(ops, k, origin, at, post);
        at := at[SlotOf(op) := |post|];
        post, origin := post + [NewValueCondition(op)], origin + [k];
      }
    }
    EmittedAll(ops, origin, post);
  }

  lemma EmittedAll(ops: seq<Operation>, origin: seq<int>, post: seq<Condition>)
    requires Tracks(ops, |ops|, origin) && Emitted(ops, origin, post)
    ensures (set c | c in post) == MandatoryPostconditions(ops)
  {
    forall c ensures c in post <==> c in MandatoryPostconditions(ops) {
      if c in post {
        var x :| 0 <= x < |post| && post[x] == c;
        assert LastWrite(ops, origin[x]);
      }
      if c in MandatoryPostconditions(ops) {
        var i :| 0 <= i < |ops| && LastWrite(ops, i) && c == NewValueCondition(ops[i]);
        assert LastWithin(ops, i, |ops|);
        var x :| 0 <= x < |origin| && origin[x] == i;
        assert post[x] == c;
      }
    }
  }

  /** One pass over the operations; a slot already seen gets no old-value condition. */
  method DerivePreconditions(ops: seq<Operation>, binding: Binding, ws: Option<Manifest>) returns (pre: seq<Condition>)
    ensures (set c | c in pre) == MandatoryPreconditions(ops, binding, ws)
  {
    pre := [SceneBindingEquals(binding)];
    if ws.Some? {
      pre := pre + [WorkspaceRevisionEquals(ws.value.workspaceId, ws.value.revision)];
    }
    var seen: set<Slot> := {};
    for k := 0 to |ops|
      invariant forall c :: c in pre <==>
                  c in HeaderConditions(binding, ws) || exists i :: 0 <= i < k && c in PreconditionsAt(ops, i)
      invariant seen == set i | 0 <= i < k && !ops[i].CreateNode? :: SlotOf(ops[i])
    {
      var op := ops[k];
      var added: seq<Condition> := [];
      if op.CreateNode? {
        added := [NodeAbsent(CreatedPath(op), op.nodeId)];
        if !TargetsCreated(ops, op.parent) {
          added := added + [NodeIdentityEquals(op.parent)];
        }
      } else {
        var first := SlotOf(op) !in seen;
        seen := seen + {SlotOf(op)};
        FirstWriteBySlot(ops, k);
        assert first == FirstWrite(ops, k);
        if !TargetsCreated(ops, op.target) && first {
          added := [NodeIdentityEquals(op.target), OldValueCondition(op)];
        }
        if op.ConnectInput? && !TargetsCreated(ops, op.source) {
          added := added + [NodeIdentityEquals(op.source)];
        }
      }
      assert forall c :: c in added <==> c in PreconditionsAt(ops, k);
      pre := pre + added;
    }
  }

  lemma FirstWriteBySlot(ops: seq<Operation>, k: int)
    requires 0 <= k < |ops| && !ops[k].CreateNode?
    ensures FirstWrite(ops, k) <==> forall i :: 0 <= i < k && !ops[i].CreateNode? ==> SlotOf(ops[i]) != SlotOf(ops[k])
  {
    assert forall i :: 0 <= i < k && !ops[i].CreateNode? ==>
        (SlotOf(ops[i]) == SlotOf(ops[k]) <==> SameSlot(ops[i], ops[k]));
  }
}
