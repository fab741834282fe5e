/** The derived conditions are exact: a run without failing calls succeeds if and only if the derived old values
    hold, each later write expects what the previous one wrote, and first writes on new nodes expect the defaults. */
module WeakestPre {
  import opened Wrappers
  import opened Contracts
  import opened SceneGraph
  import opened Transactions
  import opened Preflight
  import opened Admission
  import opened ExecutorSpec
  import opened Acts
  import Coverage
  import Policy

  /** The identity half of the derived preconditions: everything used and not created is in the scene as its
      reference says, and everything to be created is absent. */
  ghost predicate Anchored(g: Graph, cs: ChangeSet, env: TxEnv) {
    && Tree(g) && ValidChangeSet(cs) && Policy.AffectedListed(cs)
    && env.created == CreatedIdentity(cs.operations)
    && (forall i, r :: 0 <= i < |cs.operations| && r in UsedRefs(cs.operations[i])
                       && !Coverage.TargetsCreated(cs.operations, r)
          ==> Pinned(g, r) && IdentityHolds(Some((r.path, g[r.path])), r))
    && (forall m :: 0 <= m < |cs.operations| && cs.operations[m].CreateNode?
          ==> CreatedPath(cs.operations[m]) !in g && Mirrors(g, cs.operations[m].nodeId) == {})
  }

  lemma AdmittedAnchored(g: Graph, binding: Binding, cs: ChangeSet, ws: Option<Manifest>, env: TxEnv)
    requires Tree(g) && ValidChangeSet(cs) && Admitted(g, binding, cs, ws)
    requires env.created == CreatedIdentity(cs.operations)
    ensures Anchored(g, cs, env)
  {
    hide AdmissionError, Passes, ValidChangeSet, Tree, CreatedIdentity, CollectRefs, IdentityHolds, Mirrors,
      Policy.AffectedListed, Policy.ModeRules, Coverage.Covered;
    AdmittedFacts(g, binding, cs, ws);
    forall i, r | 0 <= i < |cs.operations| && r in UsedRefs(cs.operations[i])
                  && !Coverage.TargetsCreated(cs.operations, r)
      ensures Pinned(g, r) && IdentityHolds(Some((r.path, g[r.path])), r)
    {
      UsedRefPinned(cs, ws, i, r);
      PassesPins(g, binding, cs, ws, r);
      PassedIdentity(g, binding, cs, ws, r);
      assert IdentityHolds(Some((r.path, g[r.path])), r);
    }
    forall m | 0 <= m < |cs.operations| && cs.operations[m].CreateNode?
      ensures CreatedPath(cs.operations[m]) !in g && Mirrors(g, cs.operations[m].nodeId) == {}
    {
      AdmittedAbsent(g, binding, cs, ws, m);
    }
  }

  lemma PassedIdentity(g: Graph, binding: Binding, cs: ChangeSet, ws: Option<Manifest>, r: NodeRef)
    requires Passes(g, binding, cs, ws) && NodeIdentityEquals(r) in cs.preconditions
    ensures IdentityHolds(ActualOf(g, KeyOf(r)), r) && ActualOf(g, KeyOf(r)) == Some((r.path, g[r.path]))
  {
    hide CollectRefs;
    PassesPins(g, binding, cs, ws, r);
    assert ConditionHolds(g, binding, cs, ws, NodeIdentityEquals(r));
  }

  lemma AdmittedAbsent(g: Graph, binding: Binding, cs: ChangeSet, ws: Option<Manifest>, m: int)
    requires ValidChangeSet(cs) && Admitted(g, binding, cs, ws)
    requires 0 <= m < |cs.operations| && cs.operations[m].CreateNode?
    ensures CreatedPath(cs.operations[m]) !in g && Mirrors(g, cs.operations[m].nodeId) == {}
  {
    hide CollectRefs, ValidChangeSet;
    AdmittedFacts(g, binding, cs, ws);
    KnownCreatesAbsent(g, binding, cs, ws, m);
  }

  lemma AnchoredReady(g: Graph, cs: ChangeSet, env: TxEnv)
    requires Anchored(g, cs, env)
    ensures Ready(g, env, cs.operations, 0)
  {
    var ops := cs.operations;
    forall j, r | 0 <= j < |ops| && r in OpRefs(ops[j]) ensures RefReady(g, env, ops, 0, j, r) {
      if Coverage.TargetsCreated(ops, r) { CreatedRefFound(cs, j, r); }
    }
  }

  // ---- what a slot holds before an operation -----------------------------

  /** The latest of the first `k` operations that writes the slot of operation `i`, or -1. */
  function LatestWithin(ops: seq<Operation>, i: int, k: int): (m: int)
    requires 0 <= i < |ops| && 0 <= k <= |ops|
    ensures -1 <= m < k && (m >= 0 ==> Coverage.SameSlot(ops[m], ops[i]))
    ensures forall j :: m < j < k ==> !Coverage.SameSlot(ops[j], ops[i])
  {
    if k == 0 then -1 else if Coverage.SameSlot(ops[k - 1], ops[i]) then k - 1 else LatestWithin(ops, i, k - 1)
  }

  /** The one of the first `k` operations that creates the target of operation `i`, or -1. */
  function CreatorWithin(ops: seq<Operation>, i: int, k: int): (m: int)
    requires 0 <= i < |ops| && 0 <= k <= |ops| && !ops[i].CreateNode?
    ensures -1 <= m < k && (m >= 0 ==> ops[m].CreateNode? && CreatedRef(ops[m]) == ops[i].target)
    ensures m < 0 ==> forall j :: 0 <= j < k && ops[j].CreateNode? ==> CreatedRef(ops[j]) != ops[i].target
  {
    if k == 0 then -1 else
    if ops[k - 1].CreateNode? && CreatedRef(ops[k - 1]) == ops[i].target then k - 1 else CreatorWithin(ops, i, k - 1)
  }

  /** What the parameter of operation `i` holds after the first `k` operations, told from the operations. */
  function HeldParm(g: Graph, env: TxEnv, ops: seq<Operation>, i: int, k: int): Option<string>
    requires 0 <= i < |ops| && 0 <= k <= |ops| && ops[i].SetParm?
  {
    var m, c := LatestWithin(ops, i, k), CreatorWithin(ops, i, k);
    if m >= 0 then Some(ops[m].value) else
    if c >= 0 then (if ops[c].kind in env.defaults && ops[i].parm in env.defaults[ops[c].kind]
                    then Some(env.defaults[ops[c].kind][ops[i].parm]) else None)
    else ParmAt(g, ops[i].target.path, ops[i].parm)
  }

  function HeldWire(g: Graph, ops: seq<Operation>, i: int, k: int): Option<Wire>
    requires 0 <= i < |ops| && 0 <= k <= |ops| && ops[i].ConnectInput?
  {
    var m, c := LatestWithin(ops, i, k), CreatorWithin(ops, i, k);
    if m >= 0 then Some(Wire(ops[m].source.path, ops[m].output)) else
    if c >= 0 then None else InputAt(g, ops[i].target.path, ops[i].input)
  }

  /** How a node reads back as a wire source: a node of this ChangeSet by its reference, any other as it is. */
  function SeenAs(g: Graph, ops: seq<Operation>, p: Path, k: int): NodeRef
    requires 0 <= k <= |ops|
  {
    if k == 0 then (if p in g then NodeSeen(g, p) else NodeRef(None, p, "", None)) else
    if ops[k - 1].CreateNode? && CreatedPath(ops[k - 1]) == p then CreatedRef(ops[k - 1]) else SeenAs(g, ops, p, k - 1)
  }

  function NodeSeen(g: Graph, p: Path): NodeRef
    requires p in g
  {
    NodeRef(MirrorOf(g[p], NodeIdKey), p, g[p].kind, MirrorOf(g[p], WorkspaceKey))
  }

  function HeldSource(g: Graph, ops: seq<Operation>, i: int, k: int): Option<WireRef>
    requires 0 <= i < |ops| && 0 <= k <= |ops| && ops[i].ConnectInput?
  {
    var w := HeldWire(g, ops, i, k);
    if w.None? then None else Some(WireRef(SeenAs(g, ops, w.value.src, k), w.value.output))
  }

  /** Operation `i` finds what it expects. */
  predicate Finds(g: Graph, env: TxEnv, ops: seq<Operation>, i: int)
    requires 0 <= i < |ops|
  {
    match ops[i]
    case CreateNode(_, _, _, kind, _, _, _, _) => kind in env.defaults
    case SetParm(_, _, _, _, expectedOld) => HeldParm(g, env, ops, i, i) == Some(expectedOld)
    case ConnectInput(_, _, _, _, _, prior) => WireEqual(HeldSource(g, ops, i, i), prior)
  }

  // ---- slots and references never alias ----------------------------------

  /** Two writes hit the same slot of the scene exactly when they carry the same key: no aliasing. */
  lemma SlotsNeverAlias(cs: ChangeSet, i: int, j: int)
    requires ValidChangeSet(cs) && Policy.AffectedListed(cs)
    requires 0 <= i < |cs.operations| && 0 <= j < |cs.operations|
    requires !cs.operations[i].CreateNode? && !cs.operations[j].CreateNode?
    ensures cs.operations[i].target.path == cs.operations[j].target.path
       <==> KeyOf(cs.operations[i].target) == KeyOf(cs.operations[j].target)
  {
    TargetListed(cs, i);
    TargetListed(cs, j);
    if cs.operations[i].target.path == cs.operations[j].target.path
       || KeyOf(cs.operations[i].target) == KeyOf(cs.operations[j].target) {
      ListedByKey(cs, cs.operations[i].target, cs.operations[j].target);
    }
  }

  /** A used reference at the path of a created node is the reference of that node, created strictly earlier. */
  lemma CreatedPathUse(cs: ChangeSet, i: int, c: int, r: NodeRef)
    requires ValidChangeSet(cs) && 0 <= i < |cs.operations| && 0 <= c < |cs.operations|
    requires r in UsedRefs(cs.operations[i]) && cs.operations[c].CreateNode?
    ensures r.path == CreatedPath(cs.operations[c]) ==> r == CreatedRef(cs.operations[c]) && c < i
  {
    assert r in OpRefs(cs.operations[i]);
    assert CreatedRefOk(cs.operations, r, i);
  }

  // ---- reading slots along the run ---------------------------------------

  /** Among the first `k` operations, writes do what they announce: the parameter slots they hit exist. */
  predicate SlotsExist(g: Graph, env: TxEnv, ops: seq<Operation>, k: int)
    requires 0 <= k <= |ops|
  {
    && (forall i :: 0 <= i < k ==> Finds(g, env, ops, i))
  }

  lemma {:induction false} ParmHeld(g: Graph, cs: ChangeSet, env: TxEnv, i: int, k: int)
    requires Anchored(g, cs, env) && 0 <= k <= |cs.operations|
    requires 0 <= i < |cs.operations| && cs.operations[i].SetParm?
    requires SlotsExist(g, env, cs.operations, k)
    ensures LastParm(g, ActsAt(env, cs.operations[..k]), cs.operations[i].target.path, cs.operations[i].parm)
         == HeldParm(g, env, cs.operations, i, k)
    decreases k
  {
    hide Anchored, Finds, HeldParm, ActAt;
    var ops := cs.operations;
    AnchoredValid(g, cs, env);
    if k == 0 {
      HeldAtStart(g, env, ops, i);
    } else {
      var acts := ActsAt(env, ops[..k]);
      assert acts[..k - 1] == ActsAt(env, ops[..k - 1]);
      ParmHeld(g, cs, env, i, k - 1);
      assert Finds(g, env, ops, k - 1);
      if ops[k - 1].SetParm? && Coverage.SameSlot(ops[k - 1], ops[i]) {
        SlotsNeverAlias(cs, i, k - 1);
        ParmHeld(g, cs, env, k - 1, k - 1);
        FoundParm(g, env, ops, k - 1);
      }
      HeldParmStep(g, cs, env, i, k);
    }
  }

  lemma HeldAtStart(g: Graph, env: TxEnv, ops: seq<Operation>, i: int)
    requires 0 <= i < |ops| && ops[i].SetParm?
    ensures HeldParm(g, env, ops, i, 0) == ParmAt(g, ops[i].target.path, ops[i].parm)
  {
  }

  /** How one more operation changes what slot `i` holds, in the scene and as told from the operations. */
  lemma HeldParmStep(g: Graph, cs: ChangeSet, env: TxEnv, i: int, k: int)
    requires ValidChangeSet(cs) && Policy.AffectedListed(cs) && 0 < k <= |cs.operations|
    requires 0 <= i < |cs.operations| && cs.operations[i].SetParm? && Finds(g, env, cs.operations, k - 1)
    requires cs.operations[k - 1].SetParm? && Coverage.SameSlot(cs.operations[k - 1], cs.operations[i]) ==>
               HeldParm(g, env, cs.operations, i, k - 1).Some?
    ensures HeldParm(g, env, cs.operations, i, k)
         == ParmWord(ActAt(env, cs.operations[k - 1]), cs.operations[i].target.path, cs.operations[i].parm,
                     HeldParm(g, env, cs.operations, i, k - 1))
  {
    hide ValidChangeSet, Policy.AffectedListed;
    var ops := cs.operations;
    if ops[k - 1].CreateNode? {
      KnownKind(g, env, ops, k - 1);
      CreatedPathUse(cs, i, k - 1, ops[i].target);
      if ops[i].target.path == CreatedPath(ops[k - 1]) { NoWriteBeforeCreate(cs, i, k - 1); }
    } else {
      SlotsNeverAlias(cs, i, k - 1);
    }
  }

  lemma AnchoredValid(g: Graph, cs: ChangeSet, env: TxEnv)
    requires Anchored(g, cs, env)
    ensures ValidChangeSet(cs) && Policy.AffectedListed(cs) && Tree(g)
  {
  }

  lemma KnownKind(g: Graph, env: TxEnv, ops: seq<Operation>, k: int)
    requires 0 <= k < |ops| && ops[k].CreateNode? && Finds(g, env, ops, k)
    ensures ops[k].kind in env.defaults
  {
  }

  lemma FoundParm(g: Graph, env: TxEnv, ops: seq<Operation>, k: int)
    requires 0 <= k < |ops| && ops[k].SetParm? && Finds(g, env, ops, k)
    ensures HeldParm(g, env, ops, k, k).Some?
  {
  }

  /** No operation writes a node before the one that creates it. */
  lemma NoWriteBeforeCreate(cs: ChangeSet, i: int, c: int)
    requires ValidChangeSet(cs) && Policy.AffectedListed(cs)
    requires 0 <= i < |cs.operations| && !cs.operations[i].CreateNode?
    requires 0 <= c < |cs.operations| && cs.operations[c].CreateNode?
    requires cs.operations[i].target.path == CreatedPath(cs.operations[c])
    ensures LatestWithin(cs.operations, i, c) == -1 && CreatorWithin(cs.operations, i, c + 1) == c
  {
    var ops := cs.operations;
    var m := LatestWithin(ops, i, c);
    if m >= 0 {
      SlotsNeverAlias(cs, i, m);
      CreatedPathUse(cs, m, c, ops[m].target);
    }
    CreatedPathUse(cs, i, c, ops[i].target);
  }

  lemma {:induction false} WireHeld(g: Graph, cs: ChangeSet, env: TxEnv, i: int, k: int)
    requires Anchored(g, cs, env) && 0 <= k <= |cs.operations|
    requires 0 <= i < |cs.operations| && cs.operations[i].ConnectInput?
    requires SlotsExist(g, env, cs.operations, k)
    ensures LastWire(g, ActsAt(env, cs.operations[..k]), cs.operations[i].target.path, cs.operations[i].input)
         == HeldWire(g, cs.operations, i, k)
    decreases k
  {
    hide Anchored, Finds, HeldWire, ActAt, KeyAfter;
    var ops := cs.operations;
    AnchoredValid(g, cs, env);
    if k == 0 {
      WireAtStart(g, ops, i);
    } else {
      var acts := ActsAt(env, ops[..k]);
      assert acts[..k - 1] == ActsAt(env, ops[..k - 1]);
      WireHeld(g, cs, env, i, k - 1);
      assert Finds(g, env, ops, k - 1);
      if ops[k - 1].ConnectInput? && Coverage.SameSlot(ops[k - 1], ops[i]) {
        SlotsNeverAlias(cs, i, k - 1);
        TargetThere(g, cs, env, k - 1);
      }
      HeldWireStep(g, cs, env, i, k, KeyAfter(g, acts[..k - 1], ops[i].target.path));
    }
  }

  lemma WireAtStart(g: Graph, ops: seq<Operation>, i: int)
    requires 0 <= i < |ops| && ops[i].ConnectInput?
    ensures HeldWire(g, ops, i, 0) == InputAt(g, ops[i].target.path, ops[i].input)
  {
  }

  lemma HeldWireStep(g: Graph, cs: ChangeSet, env: TxEnv, i: int, k: int, there: bool)
    requires ValidChangeSet(cs) && Policy.AffectedListed(cs) && 0 < k <= |cs.operations|
    requires 0 <= i < |cs.operations| && cs.operations[i].ConnectInput? && Finds(g, env, cs.operations, k - 1)
    requires cs.operations[k - 1].ConnectInput? && Coverage.SameSlot(cs.operations[k - 1], cs.operations[i]) ==> there
    ensures HeldWire(g, cs.operations, i, k)
         == WireWord(ActAt(env, cs.operations[k - 1]), cs.operations[i].target.path, cs.operations[i].input, there,
                     HeldWire(g, cs.operations, i, k - 1))
  {
    hide ValidChangeSet, Policy.AffectedListed;
    var ops := cs.operations;
    if ops[k - 1].CreateNode? {
      KnownKind(g, env, ops, k - 1);
      CreatedPathUse(cs, i, k - 1, ops[i].target);
      if ops[i].target.path == CreatedPath(ops[k - 1]) { NoWriteBeforeCreate(cs, i, k - 1); }
    } else {
      SlotsNeverAlias(cs, i, k - 1);
    }
  }

  /** The target of an operation exists when the operation runs. */
  lemma TargetThere(g: Graph, cs: ChangeSet, env: TxEnv, k: int)
    requires Anchored(g, cs, env) && 0 <= k < |cs.operations| && !cs.operations[k].CreateNode?
    requires SlotsExist(g, env, cs.operations, k)
    ensures KeyAfter(g, ActsAt(env, cs.operations[..k]), cs.operations[k].target.path)
  {
    var ops := cs.operations;
    var r := ops[k].target;
    if Coverage.TargetsCreated(ops, r) {
      CreatedRefFound(cs, k, r);
      var m :| 0 <= m < k && ops[m].CreateNode? && r == CreatedRef(ops[m]);
      assert Finds(g, env, ops, m);
      var acts := ActsAt(env, ops[..k]);
      assert acts[m] == ActAt(env, ops[m]);
      assert acts[m] in acts;
    }
  }

  lemma {:induction false} SeenAfter(g: Graph, env: TxEnv, ops: seq<Operation>, p: Path, k: int)
    requires 0 <= k <= |ops| && SlotsExist(g, env, ops, k)
    requires p in Performs(g, ActsAt(env, ops[..k]))
    ensures NodeSeen(Performs(g, ActsAt(env, ops[..k])), p) == SeenAs(g, ops, p, k)
    decreases k
  {
    hide Finds, ActAt;
    if k > 0 {
      var acts := ActsAt(env, ops[..k]);
      assert acts[..k - 1] == ActsAt(env, ops[..k - 1]);
      var h := Performs(g, acts[..k - 1]);
      assert Finds(g, env, ops, k - 1);
      SeenStep(g, h, env, ops, p, k - 1);
      if p in h { SeenAfter(g, env, ops, p, k - 1); }
    }
  }

  lemma SeenStep(g: Graph, h: Graph, env: TxEnv, ops: seq<Operation>, p: Path, k: int)
    requires 0 <= k < |ops| && Finds(g, env, ops, k) && p in Perform(h, ActAt(env, ops[k]))
    ensures ops[k].CreateNode? && CreatedPath(ops[k]) == p ==>
              NodeSeen(Perform(h, ActAt(env, ops[k])), p) == CreatedRef(ops[k])
    ensures !(ops[k].CreateNode? && CreatedPath(ops[k]) == p) ==>
              p in h && NodeSeen(Perform(h, ActAt(env, ops[k])), p) == NodeSeen(h, p)
  {
  }

  // ---- the run -----------------------------------------------------------

  /** A successful prefix leaves exactly its acts, and the rest of the run resolvable. */
  lemma {:induction false} PrefixRun(g: Graph, env: TxEnv, ops: seq<Operation>, k: int)
    requires Ready(g, env, ops, 0) && 0 <= k <= |ops| && ExecOps(g, env, ops[..k]).Some?
    requires Tree(g)
    ensures ExecOps(g, env, ops[..k]).value == Performs(g, ActsAt(env, ops[..k]))
    ensures Ready(Performs(g, ActsAt(env, ops[..k])), env, ops, k)
    ensures Tree(Performs(g, ActsAt(env, ops[..k])))
    decreases k
  {
    hide Ready, Tree, ExecOp;
    if k > 0 {
      assert ops[..k][..k - 1] == ops[..k - 1];
      PrefixRun(g, env, ops, k - 1);
      var acts := ActsAt(env, ops[..k]);
      assert acts[..k - 1] == ActsAt(env, ops[..k - 1]);
      var h := Performs(g, acts[..k - 1]);
      var next := ExecOps(g, env, ops[..k]).value;
      assert ExecOp(h, env, ops[k - 1]) == Some(next);
      OneAct(h, env, ops, k - 1, next);
      ReadyStep(h, env, ops, k - 1, next);
    }
  }

  lemma OneAct(h: Graph, env: TxEnv, ops: seq<Operation>, k: int, next: Graph)
    requires Tree(h) && Ready(h, env, ops, k) && 0 <= k < |ops| && ExecOp(h, env, ops[k]) == Some(next)
    ensures next == Perform(h, ActAt(env, ops[k])) && Tree(next)
  {
    hide Ready, Tree, SameShape, VerifiedCreated;
    match ops[k] {
      case CreateNode(_, parent, _, kind, name, _, _, _) =>
        CreateDone(h, env, ops, k);
        CreateKeepsTree(h, parent.path, name, Transactions.NewNode(env, ops[k]));
      case SetParm(_, target, parm, value, _) =>
        ReadyResolves(h, env, ops, k, target);
        ParmKeepsTree(h, target.path, parm, value);
      case ConnectInput(_, target, input, source, output, _) =>
        ReadyResolves(h, env, ops, k, target);
        ReadyResolves(h, env, ops, k, source);
        InputKeepsTree(h, target.path, input, Some(Wire(source.path, output)));
    }
  }

  /** When the references are in order, an operation goes through exactly when its slot holds what it expects. */
  lemma StepIff(h: Graph, env: TxEnv, ops: seq<Operation>, k: int)
    requires Ready(h, env, ops, k) && 0 <= k < |ops|
    ensures match ops[k]
            case CreateNode(_, _, _, kind, _, _, _, _) => ExecOp(h, env, ops[k]).Some? <==> kind in env.defaults
            case SetParm(_, target, parm, _, expectedOld) =>
              ExecOp(h, env, ops[k]).Some? <==> ParmAt(h, target.path, parm) == Some(expectedOld)
            case ConnectInput(_, target, input, _, _, prior) =>
              ExecOp(h, env, ops[k]).Some? <==> WireEqual(ReadWire(h, target.path, input), prior)
  {
    hide VerifiedCreated, Ready;
    match ops[k] {
      case CreateNode(_, _, _, _, _, _, _, _) => CreateDone(h, env, ops, k);
      case SetParm(_, target, _, _, _) => ReadyResolves(h, env, ops, k, target);
      case ConnectInput(_, target, _, source, _, prior) =>
        ReadyResolves(h, env, ops, k, target);
        ReadyResolves(h, env, ops, k, source);
        OldSourceReady(h, env, ops, k);
    }
  }

  lemma OldSourceReady(h: Graph, env: TxEnv, ops: seq<Operation>, k: int)
    requires Ready(h, env, ops, k) && k < |ops| && ops[k].ConnectInput?
    ensures OldSourceOk(h, env, ops[k].expectedOldSource)
  {
    if ops[k].expectedOldSource.Some? {
      var r := ops[k].expectedOldSource.value.source;
      assert r in OpRefs(ops[k]);
      assert RefReady(h, env, ops, k, k, r);
    }
  }

  /** Operation `k` goes through in the scene its predecessors leave exactly when it finds what it expects. */
  lemma GoesThroughIff(g: Graph, cs: ChangeSet, env: TxEnv, k: int)
    requires Anchored(g, cs, env) && 0 <= k < |cs.operations|
    requires SlotsExist(g, env, cs.operations, k)
    requires var h := Performs(g, ActsAt(env, cs.operations[..k])); Ready(h, env, cs.operations, k) && Tree(h)
    ensures ExecOp(Performs(g, ActsAt(env, cs.operations[..k])), env, cs.operations[k]).Some?
       <==> Finds(g, env, cs.operations, k)
  {
    hide Anchored, Ready, SlotsExist, ExecOp;
    var ops := cs.operations;
    var acts := ActsAt(env, ops[..k]);
    var h := Performs(g, acts);
    StepIff(h, env, ops, k);
    match ops[k] {
      case CreateNode(_, _, _, _, _, _, _, _) =>
      case SetParm(_, target, parm, _, _) =>
        ParmHeld(g, cs, env, k, k);
        ParmAfter(g, acts, target.path, parm);
      case ConnectInput(_, target, input, _, _, prior) =>
        SourceHeld(g, cs, env, k, k);
    }
  }

  lemma SourceHeld(g: Graph, cs: ChangeSet, env: TxEnv, i: int, k: int)
    requires Anchored(g, cs, env) && 0 <= k <= |cs.operations|
    requires 0 <= i < |cs.operations| && cs.operations[i].ConnectInput?
    requires SlotsExist(g, env, cs.operations, k) && Tree(Performs(g, ActsAt(env, cs.operations[..k])))
    ensures ReadWire(Performs(g, ActsAt(env, cs.operations[..k])), cs.operations[i].target.path, cs.operations[i].input)
         == HeldSource(g, cs.operations, i, k)
  {
    hide Anchored, SlotsExist;
    var ops := cs.operations;
    var acts := ActsAt(env, ops[..k]);
    var h := Performs(g, acts);
    WireHeld(g, cs, env, i, k);
    WireAfter(g, acts, ops[i].target.path, ops[i].input);
    var w := InputAt(h, ops[i].target.path, ops[i].input);
    if w.Some? {
      SeenAfter(g, env, ops, w.value.src, k);
    }
  }

  lemma RunNext(g: Graph, cs: ChangeSet, env: TxEnv, k: int)
    requires Anchored(g, cs, env) && 0 <= k < |cs.operations|
    requires ExecOps(g, env, cs.operations[..k]).Some? <==> SlotsExist(g, env, cs.operations, k)
    ensures ExecOps(g, env, cs.operations[..k + 1]).Some? <==> SlotsExist(g, env, cs.operations, k + 1)
  {
    hide Anchored, Ready, Finds, ExecOp, Tree, CreatedReferencesOk, Performs, ActsAt;
    var ops := cs.operations;
    assert ops[..k + 1][..k] == ops[..k];
    if ExecOps(g, env, ops[..k]).Some? {
      AnchoredReady(g, cs, env);
      AnchoredValid(g, cs, env);
      PrefixRun(g, env, ops, k);
      GoesThroughIff(g, cs, env, k);
    }
  }

  /** The whole run goes through exactly when every operation finds what it expects. */
  lemma {:induction false} RunIff(g: Graph, cs: ChangeSet, env: TxEnv, k: int)
    requires Anchored(g, cs, env) && 0 <= k <= |cs.operations|
    ensures ExecOps(g, env, cs.operations[..k]).Some? <==> SlotsExist(g, env, cs.operations, k)
    decreases k
  {
    if k == 0 {
      NoneRun(g, env, cs.operations);
    } else {
      hide Anchored, ExecOps, SlotsExist;
      RunIff(g, cs, env, k - 1);
      RunNext(g, cs, env, k - 1);
    }
  }

  lemma NoneRun(g: Graph, env: TxEnv, ops: seq<Operation>)
    ensures ExecOps(g, env, ops[..0]).Some? && SlotsExist(g, env, ops, 0)
  {
  }

  // ---- the derived conditions --------------------------------------------

  /** The old-value preconditions derived from the operations hold in the scene. */
  predicate DerivedOldValuesHold(g: Graph, binding: Binding, cs: ChangeSet, ws: Option<Manifest>) {
    forall i :: 0 <= i < |cs.operations| && !cs.operations[i].CreateNode? && Coverage.FirstWrite(cs.operations, i)
                && !Coverage.TargetsCreated(cs.operations, cs.operations[i].target)
      ==> ConditionHolds(g, binding, cs, ws, Coverage.OldValueCondition(cs.operations[i]))
  }

  /** Every later write of a slot expects what the write just before it put there. */
  predicate ChainsAgree(g: Graph, ops: seq<Operation>) {
    forall i :: 0 <= i < |ops| && !ops[i].CreateNode? && LatestWithin(ops, i, i) >= 0 ==>
      var m := LatestWithin(ops, i, i);
      if ops[i].SetParm? then ops[i].expectedOld == ops[m].value
      else WireEqual(Some(WireRef(SeenAs(g, ops, ops[m].source.path, i), ops[m].output)), ops[i].expectedOldSource)
  }

  /** The first write on a node of this ChangeSet expects the default of its type, or no wire. */
  predicate DefaultsAgree(env: TxEnv, ops: seq<Operation>) {
    forall i :: 0 <= i < |ops| && !ops[i].CreateNode? && LatestWithin(ops, i, i) < 0 && CreatorWithin(ops, i, i) >= 0 ==>
      var kind := ops[CreatorWithin(ops, i, i)].kind;
      if ops[i].SetParm? then kind in env.defaults && ops[i].parm in env.defaults[kind]
                              && env.defaults[kind][ops[i].parm] == ops[i].expectedOld
      else ops[i].expectedOldSource.None?
  }

  lemma CreatorIffCreated(cs: ChangeSet, i: int)
    requires ValidChangeSet(cs) && 0 <= i < |cs.operations| && !cs.operations[i].CreateNode?
    ensures CreatorWithin(cs.operations, i, i) >= 0 <==> Coverage.TargetsCreated(cs.operations, cs.operations[i].target)
  {
    var ops := cs.operations;
    if Coverage.TargetsCreated(ops, ops[i].target) {
      CreatedRefFound(cs, i, ops[i].target);
    }
  }

  lemma LatestIffNotFirst(ops: seq<Operation>, i: int)
    requires 0 <= i < |ops|
    ensures LatestWithin(ops, i, i) < 0 <==> Coverage.FirstWrite(ops, i)
  {
  }

  /** The old-value condition of a first write on an existing node is what the operation itself will check. */
  lemma DerivedIsChecked(g: Graph, binding: Binding, cs: ChangeSet, ws: Option<Manifest>, env: TxEnv, i: int)
    requires Anchored(g, cs, env) && 0 <= i < |cs.operations| && !cs.operations[i].CreateNode?
    requires !Coverage.TargetsCreated(cs.operations, cs.operations[i].target)
    requires LatestWithin(cs.operations, i, i) < 0
    ensures ConditionHolds(g, binding, cs, ws, Coverage.OldValueCondition(cs.operations[i]))
       <==> Finds(g, env, cs.operations, i)
  {
    hide ValidChangeSet, ConditionHolds, WireEqual, ReadWire, LocateKey, HeldSource;
    var op := cs.operations[i];
    assert Pinned(g, op.target);
    AnchoredValid(g, cs, env);
    CreatorIffCreated(cs, i);
    PinnedByKey(g, op.target);
    OldValueRead(g, binding, cs, ws, i);
    if op.ConnectInput? {
      ExistingSeen(g, cs, env, i);
    }
  }

  lemma OldValueRead(g: Graph, binding: Binding, cs: ChangeSet, ws: Option<Manifest>, i: int)
    requires 0 <= i < |cs.operations| && !cs.operations[i].CreateNode?
    requires !Coverage.TargetsCreated(cs.operations, cs.operations[i].target)
    requires LocateKey(g, KeyOf(cs.operations[i].target)) == At(cs.operations[i].target.path)
    ensures ConditionHolds(g, binding, cs, ws, Coverage.OldValueCondition(cs.operations[i]))
       <==> var op := cs.operations[i];
            if op.SetParm? then ParmAt(g, op.target.path, op.parm) == Some(op.expectedOld)
            else WireEqual(ReadWire(g, op.target.path, op.input), op.expectedOldSource)
  {
    hide LocateKey, WireEqual, ReadWire;
  }

  lemma ExistingSeen(g: Graph, cs: ChangeSet, env: TxEnv, i: int)
    requires Anchored(g, cs, env) && 0 <= i < |cs.operations| && cs.operations[i].ConnectInput?
    requires LatestWithin(cs.operations, i, i) < 0 && CreatorWithin(cs.operations, i, i) < 0
    ensures HeldSource(g, cs.operations, i, i) == ReadWire(g, cs.operations[i].target.path, cs.operations[i].input)
  {
    var w := InputAt(g, cs.operations[i].target.path, cs.operations[i].input);
    if w.Some? {
      SeenInScene(g, cs.operations, w.value.src, i);
    }
  }

  lemma {:induction false} SeenInScene(g: Graph, ops: seq<Operation>, p: Path, k: int)
    requires p in g && 0 <= k <= |ops|
    requires forall m :: 0 <= m < |ops| && ops[m].CreateNode? ==> CreatedPath(ops[m]) !in g
    ensures SeenAs(g, ops, p, k) == NodeSeen(g, p)
    decreases k
  {
    if k > 0 { SeenInScene(g, ops, p, k - 1); }
  }

  lemma FindsIff(g: Graph, binding: Binding, cs: ChangeSet, ws: Option<Manifest>, env: TxEnv, i: int)
    requires Anchored(g, cs, env) && 0 <= i < |cs.operations|
    ensures Finds(g, env, cs.operations, i) <==> SplitAt(g, binding, cs, ws, env, i)
  {
    hide Anchored, ConditionHolds, SeenAs, WireEqual;
    if !cs.operations[i].CreateNode? {
      AnchoredValid(g, cs, env);
      CreatorIffCreated(cs, i);
      if LatestWithin(cs.operations, i, i) < 0 && CreatorWithin(cs.operations, i, i) < 0 {
        DerivedIsChecked(g, binding, cs, ws, env, i);
      }
      NoneEqualsNone(cs.operations[i]);
    }
  }

  lemma NoneEqualsNone(op: Operation)
    ensures op.ConnectInput? ==> (WireEqual(None, op.expectedOldSource) <==> op.expectedOldSource.None?)
  {
  }

  /** The weakest precondition. With the identities in order, running all operations with their checks succeeds if
      and only if the derived old values hold, chained writes agree, first writes on new nodes expect the defaults,
      and the node types are known. */
  lemma DerivedConditionsAreExact(g: Graph, binding: Binding, cs: ChangeSet, ws: Option<Manifest>, env: TxEnv)
    requires Anchored(g, cs, env)
    ensures ExecOps(g, env, cs.operations).Some?
       <==> DerivedOldValuesHold(g, binding, cs, ws) && ChainsAgree(g, cs.operations)
            && DefaultsAgree(env, cs.operations) && KindsKnown(env, cs.operations)
  {
    hide Anchored, ConditionHolds, SeenAs, WireEqual, ValidChangeSet;
    var ops := cs.operations;
    AnchoredValid(g, cs, env);
    assert ops[..|ops|] == ops;
    RunIff(g, cs, env, |ops|);
    forall i | 0 <= i < |ops| && !ops[i].CreateNode? ensures Classified(ops, i) {
      LatestIffNotFirst(ops, i);
      CreatorIffCreated(cs, i);
    }
    forall i | 0 <= i < |ops| ensures Finds(g, env, ops, i) <==> SplitAt(g, binding, cs, ws, env, i) {
      FindsIff(g, binding, cs, ws, env, i);
    }
    SplitAll(g, binding, cs, ws, env);
  }

  /** The part of the four conditions that concerns operation `i`. */
  predicate SplitAt(g: Graph, binding: Binding, cs: ChangeSet, ws: Option<Manifest>, env: TxEnv, i: int)
    requires 0 <= i < |cs.operations|
  {
    var ops, op := cs.operations, cs.operations[i];
    if op.CreateNode? then op.kind in env.defaults else
    var m, c := LatestWithin(ops, i, i), CreatorWithin(ops, i, i);
    if m >= 0 then
      (if op.SetParm? then op.expectedOld == ops[m].value
       else WireEqual(Some(WireRef(SeenAs(g, ops, ops[m].source.path, i), ops[m].output)), op.expectedOldSource))
    else if c >= 0 then
      (if op.SetParm? then ops[c].kind in env.defaults && op.parm in env.defaults[ops[c].kind]
                           && env.defaults[ops[c].kind][op.parm] == op.expectedOld
       else op.expectedOldSource.None?)
    else ConditionHolds(g, binding, cs, ws, Coverage.OldValueCondition(op))
  }

  lemma SplitAll(g: Graph, binding: Binding, cs: ChangeSet, ws: Option<Manifest>, env: TxEnv)
    requires forall i :: 0 <= i < |cs.operations| && !cs.operations[i].CreateNode? ==> Classified(cs.operations, i)
    ensures (forall i :: 0 <= i < |cs.operations| ==> SplitAt(g, binding, cs, ws, env, i))
       <==> DerivedOldValuesHold(g, binding, cs, ws) && ChainsAgree(g, cs.operations)
            && DefaultsAgree(env, cs.operations) && KindsKnown(env, cs.operations)
  {
    hide ConditionHolds, SeenAs, WireEqual, Coverage.TargetsCreated, Coverage.FirstWrite;
    var ops := cs.operations;
    assert forall i :: 0 <= i < |ops| && !ops[i].CreateNode? ==> Classified(ops, i);
    if forall i :: 0 <= i < |ops| ==> SplitAt(g, binding, cs, ws, env, i) {
      forall i | 0 <= i < |ops| && !ops[i].CreateNode? && Coverage.FirstWrite(ops, i)
                 && !Coverage.TargetsCreated(ops, ops[i].target)
        ensures ConditionHolds(g, binding, cs, ws, Coverage.OldValueCondition(ops[i]))
      {
        assert Classified(ops, i) && SplitAt(g, binding, cs, ws, env, i);
      }
      assert KindsKnown(env, ops) by {
        forall i | 0 <= i < |ops| && ops[i].CreateNode? ensures ops[i].kind in env.defaults {
          assert SplitAt(g, binding, cs, ws, env, i);
        }
      }
      assert forall i :: 0 <= i < |ops| ==> SplitAt(g, binding, cs, ws, env, i);
      SplitChains(g, binding, cs, ws, env);
    }
    if DerivedOldValuesHold(g, binding, cs, ws) && ChainsAgree(g, ops) && DefaultsAgree(env, ops) && KindsKnown(env, ops) {
      forall i | 0 <= i < |ops| ensures SplitAt(g, binding, cs, ws, env, i) {
        if !ops[i].CreateNode? { assert Classified(ops, i); }
      }
    }
  }

  lemma SplitChains(g: Graph, binding: Binding, cs: ChangeSet, ws: Option<Manifest>, env: TxEnv)
    requires forall i :: 0 <= i < |cs.operations| ==> SplitAt(g, binding, cs, ws, env, i)
    ensures ChainsAgree(g, cs.operations) && DefaultsAgree(env, cs.operations)
  {
    hide ConditionHolds, SeenAs, WireEqual;
    var ops := cs.operations;
    forall i | 0 <= i < |ops| && !ops[i].CreateNode? && LatestWithin(ops, i, i) >= 0
      ensures var m := LatestWithin(ops, i, i);
              if ops[i].SetParm? then ops[i].expectedOld == ops[m].value
              else WireEqual(Some(WireRef(SeenAs(g, ops, ops[m].source.path, i), ops[m].output)), ops[i].expectedOldSource)
    {
      assert SplitAt(g, binding, cs, ws, env, i);
    }
    forall i | 0 <= i < |ops| && !ops[i].CreateNode? && LatestWithin(ops, i, i) < 0 && CreatorWithin(ops, i, i) >= 0
      ensures var kind := ops[CreatorWithin(ops, i, i)].kind;
              if ops[i].SetParm? then kind in env.defaults && ops[i].parm in env.defaults[kind]
                                      && env.defaults[kind][ops[i].parm] == ops[i].expectedOld
              else ops[i].expectedOldSource.None?
    {
      assert SplitAt(g, binding, cs, ws, env, i);
    }
  }

  /** The scan for earlier writes and creates agrees with the terms of the derivation. */
  predicate Classified(ops: seq<Operation>, i: int)
    requires 0 <= i < |ops| && !ops[i].CreateNode?
  {
    && (LatestWithin(ops, i, i) < 0 <==> Coverage.FirstWrite(ops, i))
    && (CreatorWithin(ops, i, i) >= 0 <==> Coverage.TargetsCreated(ops, ops[i].target))
  }
}
