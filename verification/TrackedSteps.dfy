/** The steps of a transaction whose reads may be swallowed: what each of them keeps, up to the verdict. */
module TrackedSteps {
  import opened Wrappers
  import opened Contracts
  import opened SceneGraph
  import opened Transactions
  import opened Glances
  import opened Preflight
  import opened Admission
  import opened LostWires
  import opened ExecutorSpec
  import opened Restoring
  import opened Served

  /** What every step of a transaction keeps: the journal as true reads would have made it undoes the run, and the
      journal as it was read differs from it in wires only. */
  ghost predicate Tracked(g0: Graph, g: Graph, fp: Footprint, truth: seq<Inverse>, journal: seq<Inverse>, misread: bool) {
    && TxInv(g0, g, fp, truth) && ShownJournal(truth, journal) && Replaced(g0, g, truth)
    && (!misread ==> journal == truth)
  }

  lemma TrackedStart(g: Graph, ops: seq<Operation>, misread: bool)
    requires Tree(g) && CreatedPaths(ops) !! g.Keys
    ensures Tracked(g, g, FootprintOf(ops), [], [], misread)
  {
    hide Tree, Confined;
    TxStart(g, ops);
  }

  lemma TrackedCreate(g0: Graph, g: Graph, env: TxEnv, ops: seq<Operation>, k: nat, truth: seq<Inverse>,
                      journal: seq<Inverse>, n: Node, misread: bool)
    requires Tracked(g0, g, FootprintOf(ops), truth, journal, misread) && Ready(g, env, ops, k)
    requires k < |ops| && ops[k].CreateNode? && n.inputs == map[] && MirrorMatches(n.mirror, FullMirror(env, ops[k]))
    ensures var inv := UndoCreate(CreatedPath(ops[k]), FullMirror(env, ops[k]), CreatedPath(ops[k]));
            Tracked(g0, g[CreatedPath(ops[k]) := n], FootprintOf(ops), truth + [inv], journal + [inv], misread)
  {
    hide TxInv, Ready, ShownJournal, Replaced, FullMirror;
    var inv, p := UndoCreate(CreatedPath(ops[k]), FullMirror(env, ops[k]), CreatedPath(ops[k])), CreatedPath(ops[k]);
    CreateDone(g, env, ops, k);
    TxCreate(g0, g, env, ops, k, truth, n);
    ShownNext(truth, journal, inv, inv);
    NewOutside(g0, g, FootprintOf(ops), truth, ops, k);
    ReplacedStep(g0, g, g[p := n], truth, inv);
  }

  lemma NewOutside(g0: Graph, g: Graph, fp: Footprint, truth: seq<Inverse>, ops: seq<Operation>, k: int)
    requires TxInv(g0, g, fp, truth) && fp == FootprintOf(ops) && 0 <= k < |ops| && ops[k].CreateNode?
    ensures CreatedPath(ops[k]) !in g0
  {
    InFootprint(ops, k);
  }

  lemma TrackedParm(g0: Graph, g: Graph, env: TxEnv, ops: seq<Operation>, k: nat, truth: seq<Inverse>,
                    journal: seq<Inverse>, misread: bool)
    requires Tracked(g0, g, FootprintOf(ops), truth, journal, misread) && Ready(g, env, ops, k)
    requires k < |ops| && ops[k].SetParm? && ParmAt(g, ops[k].target.path, ops[k].parm) == Some(ops[k].expectedOld)
    ensures var inv := UndoParm(ops[k].target, ops[k].parm, ops[k].expectedOld);
            && ops[k].target.path in g
            && Tracked(g0, g, FootprintOf(ops), truth + [inv], journal + [inv], misread)
            && Tracked(g0, WithParm(g, ops[k].target.path, ops[k].parm, ops[k].value), FootprintOf(ops), truth + [inv],
                       journal + [inv], misread)
  {
    hide TxInv, Ready, ShownJournal, Replaced, FootprintOf;
    var inv := UndoParm(ops[k].target, ops[k].parm, ops[k].expectedOld);
    TxParm(g0, g, env, ops, k, truth);
    ShownNext(truth, journal, inv, inv);
    ReplacedStep(g0, g, g, truth, inv);
    ReplacedStep(g0, g, WithParm(g, ops[k].target.path, ops[k].parm, ops[k].value), truth, inv);
  }

  lemma TrackedWire(g0: Graph, g: Graph, env: TxEnv, ops: seq<Operation>, k: nat, truth: seq<Inverse>,
                    journal: seq<Inverse>, seen: Option<WireRef>, misread: bool)
    requires Tracked(g0, g, FootprintOf(ops), truth, journal, misread) && Ready(g, env, ops, k)
    requires k < |ops| && ops[k].ConnectInput? && Tree(g)
    requires ShownSource(ReadWire(g, ops[k].target.path, ops[k].input), seen)
    requires !misread ==> seen == ReadWire(g, ops[k].target.path, ops[k].input)
    ensures ops[k].target.path in g && ops[k].source.path in g && ops[k].source.path != []
    ensures var t := UndoWire(ops[k].target, ops[k].input, ReadWire(g, ops[k].target.path, ops[k].input));
            var v := UndoWire(ops[k].target, ops[k].input, seen);
            && Tracked(g0, g, FootprintOf(ops), truth + [t], journal + [v], misread)
            && Tracked(g0, WithInput(g, ops[k].target.path, ops[k].input, Some(Wire(ops[k].source.path, ops[k].output))),
                       FootprintOf(ops), truth + [t], journal + [v], misread)
  {
    hide TxInv, Ready, ShownJournal, Replaced, FootprintOf, ShownSource, ReadWire;
    var p, i := ops[k].target.path, ops[k].input;
    var t := UndoWire(ops[k].target, i, ReadWire(g, p, i));
    TxWire(g0, g, env, ops, k, truth);
    ShownNext(truth, journal, t, UndoWire(ops[k].target, i, seen));
    UndoneWire(g, ops[k].target, i, None);
    ReplacedStep(g0, g, g, truth, t);
    ReplacedStep(g0, g, WithInput(g, p, i, Some(Wire(ops[k].source.path, ops[k].output))), truth, t);
  }

  /** What a rollback has to know about a transaction that stopped. */
  lemma TrackedSound(g0: Graph, g: Graph, fp: Footprint, truth: seq<Inverse>, journal: seq<Inverse>, misread: bool)
    requires Tracked(g0, g, fp, truth, journal, misread)
    ensures Tree(g0) && Tree(g) && Confined(g0, g, fp) && JournalOrdered(journal)
    ensures forall inv :: inv in journal ==> InverseSound(g, fp, inv)
  {
    hide Tree, Confined, InverseSound, JournalOrdered, ShownJournal, Replaced, UndoAll;
    ShownSound(g, fp, truth, journal);
    ShownOrdered(truth, journal);
  }

  /** The rest of the run stays resolvable, whatever was read of wires. */
  lemma ReadyAfter(g: Graph, env: TxEnv, ops: seq<Operation>, k: nat, h: Graph)
    requires Ready(g, env, ops, k) && k < |ops| && h == Write(g, env, ops[k])
    requires ops[k].CreateNode? ==> ops[k].kind in env.defaults
    ensures Ready(h, env, ops, k + 1)
  {
    hide Ready;
    if ops[k].CreateNode? {
      CreateDone(g, env, ops, k);
      ReadyResolves(g, env, ops, k, ops[k].parent);
      ReadyStepCreate(g, env, ops, k, h);
    } else {
      ReadyStepSlot(g, env, ops, k, h);
    }
  }

  /** No create is journaled for the scene root. */
  predicate MadeBelowRoot(journal: seq<Inverse>) {
    forall inv :: inv in journal && inv.UndoCreate? ==> inv.path != []
  }

  lemma TrackedAnyway(g0: Graph, g: Graph, fp: Footprint, truth: seq<Inverse>, journal: seq<Inverse>, before: bool,
                      misread: bool)
    requires Tracked(g0, g, fp, truth, journal, before) && (before ==> misread)
    ensures Tracked(g0, g, fp, truth, journal, misread)
    ensures !before ==> journal == truth
  {
    hide TxInv, ShownJournal, Replaced;
  }

  /** After operation `k` ran from `g` to `h`, or raised. */
  ghost predicate StepKept(g0: Graph, g: Graph, env: TxEnv, ops: seq<Operation>, k: nat, told: bool, raised: bool, h: Graph,
                           before: seq<Inverse>, truth: seq<Inverse>, journal: seq<Inverse>, faulted: bool, misread: bool)
    requires k < |ops|
  {
    && Tree(h) && MadeBelowRoot(journal) && (misread ==> faulted)
    && (told ==>
          && Tracked(g0, h, FootprintOf(ops), truth, journal, misread)
          && StepDone(g, env, ops[k], raised, h, faulted, misread)
          && StepJournaled(g, env, ops[k], before, raised, h, truth, faulted)
          && (!raised ==> Ready(h, env, ops, k + 1)))
  }

  /** A step that raised before it wrote anything: a call failed, or a check did. */
  lemma KeptUnmoved(g0: Graph, g: Graph, env: TxEnv, ops: seq<Operation>, k: nat, told: bool, truth: seq<Inverse>,
                    journal: seq<Inverse>, faulted: bool, before: bool, misread: bool)
    requires k < |ops| && Tree(g) && MadeBelowRoot(journal) && (misread ==> faulted) && (before ==> misread)
    requires told ==> Tracked(g0, g, FootprintOf(ops), truth, journal, before)
    requires told && !faulted ==> ExecOp(g, env, ops[k]).None?
    ensures StepKept(g0, g, env, ops, k, told, true, g, truth, truth, journal, faulted, misread)
  {
    hide Tree, Tracked, ExecOp, FootprintOf;
    if told { TrackedAnyway(g0, g, FootprintOf(ops), truth, journal, before, misread); }
  }

  lemma KeptRunning(g0: Graph, g: Graph, env: TxEnv, ops: seq<Operation>, k: nat, told: bool, h: Graph,
                    before: seq<Inverse>, truth: seq<Inverse>, journal: seq<Inverse>, faulted: bool, misread: bool)
    requires k < |ops| && StepKept(g0, g, env, ops, k, told, false, h, before, truth, journal, faulted, misread)
    ensures Tree(h) && MadeBelowRoot(journal) && (misread ==> faulted)
  {
    hide Tree, Tracked, StepDone, StepJournaled, MadeBelowRoot;
  }

  // ---- a parameter write -------------------------------------------------

  lemma ParmChecks(g: Graph, index: Index, env: TxEnv, ops: seq<Operation>, k: nat)
    requires IndexWithin(g, index) && Ready(g, env, ops, k) && k < |ops| && ops[k].SetParm?
    ensures var op := ops[k];
            && Resolve(g, index, op.target) == At(op.target.path) && UseOk(g, env, op.target.path, op.target)
            && (ParmAt(g, op.target.path, op.parm) != Some(op.expectedOld) ==> ExecOp(g, env, op).None?)
            && (ParmAt(g, op.target.path, op.parm) == Some(op.expectedOld) ==>
                  ExecOp(g, env, op) == Some(Write(g, env, op))
                  && Write(g, env, op) == WithParm(g, op.target.path, op.parm, op.value))
  {
    hide Ready, IndexWithin, UseOk, Resolve, Locate, Pinned;
    ReadyResolves(g, env, ops, k, ops[k].target);
    ResolvePinned(g, index, ops[k].target);
  }

  lemma KeptParm(g0: Graph, g: Graph, env: TxEnv, ops: seq<Operation>, k: nat, told: bool, raised: bool, h: Graph, p: Path,
                 truth: seq<Inverse>, journal: seq<Inverse>, faulted: bool, misread: bool)
    requires k < |ops| && ops[k].SetParm? && Tree(g) && MadeBelowRoot(journal) && (misread ==> faulted)
    requires ParmAt(g, p, ops[k].parm) == Some(ops[k].expectedOld)
    requires h == WithParm(g, p, ops[k].parm, ops[k].value) || (raised && h == g)
    requires raised ==> faulted
    requires told ==>
               && Tracked(g0, g, FootprintOf(ops), truth, journal, misread) && Ready(g, env, ops, k)
               && p == ops[k].target.path
               && ExecOp(g, env, ops[k]) == Some(Write(g, env, ops[k]))
               && Write(g, env, ops[k]) == WithParm(g, p, ops[k].parm, ops[k].value)
    ensures var inv := UndoParm(ops[k].target, ops[k].parm, ops[k].expectedOld);
            StepKept(g0, g, env, ops, k, told, raised, h, truth, truth + [inv], journal + [inv], faulted, misread)
  {
    hide Tree, Tracked, ExecOp, Write, FootprintOf, Ready, SameShape;
    ParmKeepsTree(g, p, ops[k].parm, ops[k].value);
    if told {
      TrackedParm(g0, g, env, ops, k, truth, journal, misread);
      if !raised { ReadyAfter(g, env, ops, k, h); }
    }
  }

  // ---- a connection ------------------------------------------------------

  /** The wire that is there is the one the operation expects. */
  predicate ConnectExpected(g: Graph, env: TxEnv, op: Operation)
    requires op.ConnectInput?
  {
    WireEqual(ReadWire(g, op.target.path, op.input), op.expectedOldSource) && OldSourceOk(g, env, op.expectedOldSource)
  }

  lemma ConnectChecks(g: Graph, index: Index, env: TxEnv, ops: seq<Operation>, k: nat)
    requires IndexWithin(g, index) && Ready(g, env, ops, k) && k < |ops| && ops[k].ConnectInput? && Tree(g)
    ensures var op := ops[k];
            && Resolve(g, index, op.target) == At(op.target.path) && UseOk(g, env, op.target.path, op.target)
            && Resolve(g, index, op.source) == At(op.source.path) && UseOk(g, env, op.source.path, op.source)
            && op.target.path in g && op.source.path in g && op.source.path != []
            && Write(g, env, op) == WithInput(g, op.target.path, op.input, Some(Wire(op.source.path, op.output)))
            && (ExecOp(g, env, op).Some? <==> ConnectExpected(g, env, op))
            && (ExecOp(g, env, op).Some? ==> ExecOp(g, env, op) == Some(Write(g, env, op)))
  {
    hide Ready, IndexWithin, UseOk, Resolve, Locate, WireEqual, ReadWire, OldSourceOk;
    ReadyResolves(g, env, ops, k, ops[k].target);
    ResolvePinned(g, index, ops[k].target);
    ReadyResolves(g, env, ops, k, ops[k].source);
    ResolvePinned(g, index, ops[k].source);
  }

  lemma KeptWire(g0: Graph, g: Graph, env: TxEnv, ops: seq<Operation>, k: nat, told: bool, raised: bool, h: Graph, p: Path,
                 s: Path, prior: Option<WireRef>, truth: seq<Inverse>, journal: seq<Inverse>, faulted: bool, misread: bool)
    requires k < |ops| && ops[k].ConnectInput? && Tree(g) && MadeBelowRoot(journal) && (misread ==> faulted) && p in g
    requires (raised && h == g)
             || (s in g && s != [] && h == WithInput(g, p, ops[k].input, Some(Wire(s, ops[k].output))))
    requires ShownSource(ReadWire(g, p, ops[k].input), prior) && (!misread ==> prior == ReadWire(g, p, ops[k].input))
    requires raised && s in g && s != [] ==> faulted
    requires told ==>
               && Tracked(g0, g, FootprintOf(ops), truth, journal, misread) && Ready(g, env, ops, k)
               && p == ops[k].target.path && s == ops[k].source.path && s in g && s != []
               && Write(g, env, ops[k]) == WithInput(g, p, ops[k].input, Some(Wire(s, ops[k].output)))
               && (!misread ==> ExecOp(g, env, ops[k]) == Some(Write(g, env, ops[k])))
    ensures var t := UndoWire(ops[k].target, ops[k].input, ReadWire(g, p, ops[k].input));
            var v := UndoWire(ops[k].target, ops[k].input, prior);
            StepKept(g0, g, env, ops, k, told, raised, h, truth, truth + [t], journal + [v], faulted, misread)
  {
    hide Tree, Tracked, ExecOp, Write, FootprintOf, Ready, SameShape, ReadWire, ShownSource;
    if h != g { InputKeepsTree(g, p, ops[k].input, Some(Wire(s, ops[k].output))); }
    if told {
      TrackedWire(g0, g, env, ops, k, truth, journal, prior, misread);
      if !raised { ReadyAfter(g, env, ops, k, h); }
    }
  }

  // ---- a create ----------------------------------------------------------

  lemma CreateChecks(g: Graph, index: Index, env: TxEnv, ops: seq<Operation>, k: nat)
    requires IndexWithin(g, index) && Ready(g, env, ops, k) && k < |ops| && ops[k].CreateNode?
    ensures var op := ops[k];
            && Resolve(g, index, op.parent) == At(op.parent.path) && UseOk(g, env, op.parent.path, op.parent)
            && op.parent.path in g && CreatedPath(op) !in g && CreatedPath(op) == op.parent.path + [op.name]
            && (op.kind !in env.defaults ==> ExecOp(g, env, op).None?)
            && (op.kind in env.defaults ==>
                  ExecOp(g, env, op) == Some(Write(g, env, op))
                  && Write(g, env, op) == g[CreatedPath(op) := NewNode(env, op)])
  {
    hide Ready, IndexWithin, UseOk, Resolve, Pinned, Transactions.NewNode;
    ReadyResolves(g, env, ops, k, ops[k].parent);
    ResolvePinned(g, index, ops[k].parent);
    CreateDone(g, env, ops, k);
  }

  lemma KeptCreate(g0: Graph, g: Graph, env: TxEnv, ops: seq<Operation>, k: nat, told: bool, raised: bool, parent: Path,
                   n: Node, truth: seq<Inverse>, journal: seq<Inverse>, faulted: bool, misread: bool)
    requires k < |ops| && ops[k].CreateNode? && Tree(g) && MadeBelowRoot(journal) && (misread ==> faulted)
    requires parent in g && parent + [ops[k].name] !in g && ops[k].kind in env.defaults
    requires n == BareNode(env, ops[k]).(mirror := n.mirror) && MirrorMatches(n.mirror, FullMirror(env, ops[k]))
    requires if raised then faulted else n.mirror == FullMirror(env, ops[k])
    requires told ==>
               && Tracked(g0, g, FootprintOf(ops), truth, journal, misread) && Ready(g, env, ops, k)
               && parent == ops[k].parent.path && CreatedPath(ops[k]) == parent + [ops[k].name]
               && ExecOp(g, env, ops[k]) == Some(Write(g, env, ops[k]))
               && Write(g, env, ops[k]) == g[CreatedPath(ops[k]) := NewNode(env, ops[k])]
    ensures var t := UndoCreate(CreatedPath(ops[k]), FullMirror(env, ops[k]), CreatedPath(ops[k]));
            var v := t.(made := parent + [ops[k].name]);
            StepKept(g0, g, env, ops, k, told, raised, g[parent + [ops[k].name] := n], truth, truth + [t], journal + [v],
                     faulted, misread)
  {
    hide Tree, Tracked, ExecOp, Write, FootprintOf, Ready, FullMirror, Transactions.NewNode;
    CreateKeepsTree(g, parent, ops[k].name, n);
    assert CreatedPath(ops[k]) != [];
    if told {
      TrackedCreate(g0, g, env, ops, k, truth, journal, n, misread);
      if !raised {
        assert n == NewNode(env, ops[k]) by { Fresh(env, ops[k], n); }
        ReadyAfter(g, env, ops, k, g[CreatedPath(ops[k]) := n]);
      }
    }
  }

  lemma Fresh(env: TxEnv, op: Operation, n: Node)
    requires op.CreateNode? && op.kind in env.defaults
    requires n == BareNode(env, op).(mirror := FullMirror(env, op))
    ensures n == NewNode(env, op)
  {
  }

  lemma NoKinds(env: TxEnv)
    ensures KindsKnown(env, [])
  {
  }

  lemma KindsNext(env: TxEnv, ops: seq<Operation>, i: nat)
    requires i < |ops| && KindsKnown(env, ops[..i]) && (ops[i].CreateNode? ==> ops[i].kind in env.defaults)
    ensures KindsKnown(env, ops[..i + 1])
  {
    var next := ops[..i + 1];
    forall j | 0 <= j < |next| && next[j].CreateNode? ensures next[j].kind in env.defaults {
      if j < i { assert ops[..i][j] == next[j]; }
    }
  }

  lemma OldSourceFound(g: Graph, index: Index, env: TxEnv, ops: seq<Operation>, k: nat)
    requires IndexWithin(g, index) && Ready(g, env, ops, k) && k < |ops| && ops[k].ConnectInput?
    requires ops[k].expectedOldSource.Some? && IsCreatedRef(env, ops[k].expectedOldSource.value.source)
    ensures var r := ops[k].expectedOldSource.value.source;
            Resolve(g, index, r) == At(r.path) && Locate(g, r) == At(r.path)
  {
    hide Pinned, IndexWithin;
    var r := ops[k].expectedOldSource.value.source;
    assert RefReady(g, env, ops, k, k, r);
    ResolvePinned(g, index, r);
    PinnedResolves(g, r);
  }

  // ---- reading the scene back --------------------------------------------

  /** No reference that preflight looked at is ambiguous. */
  predicate Clear(g: Graph, cs: ChangeSet) {
    forall r :: r in CollectRefs(cs) ==> !Locate(g, r).Ambiguous?
  }

  lemma AdmittedClear(g: Graph, binding: Binding, cs: ChangeSet, ws: Option<Manifest>)
    requires Admitted(g, binding, cs, ws)
    ensures Clear(g, cs)
  {
    hide CollectRefs, Run, Locate;
  }

  /** A run adds no second node to any id, so a read-back that raises means a postcondition that cannot hold. */
  lemma ReadBackNever(g: Graph, cs: ChangeSet, env: TxEnv, h: Graph)
    requires Tree(g) && Ready(g, env, cs.operations, 0) && Clear(g, cs)
    requires ExecOps(g, env, cs.operations) == Some(h) && ReadBackRaises(h, cs)
    ensures !ShouldSucceed(g, cs, env)
  {
    hide CollectRefs, Ready, Tree, ExecOps, PostsHold, ReadBackRaises;
    var ops := cs.operations;
    assert ops[..|ops|] == ops;
    RunIds(g, env, ops, |ops|);
    forall r | r in CollectRefs(cs) ensures !Locate(h, r).Ambiguous? {
      assert !Locate(g, r).Ambiguous?;
      IdKept(g, h, ops, r);
    }
    ReadBackFails(h, cs);
  }

  lemma IdKept(g: Graph, h: Graph, ops: seq<Operation>, r: NodeRef)
    requires IdsAlong(g, h, ops, |ops|) && !Locate(g, r).Ambiguous?
    ensures !Locate(h, r).Ambiguous?
  {
    if r.nodeId.Some? && r.nodeId.value in CreatedIds(ops) {
      var m :| 0 <= m < |ops| && ops[m].CreateNode? && ops[m].nodeId == r.nodeId.value;
      assert Mirrors(h, ops[m].nodeId) == {CreatedPath(ops[m])};
    }
  }

  /** The forward half went through: everything took effect, and every postcondition held as it was read. */
  ghost predicate SeenSuccess(g: Graph, cs: ChangeSet, env: TxEnv, h: Graph, applied: seq<string>, misread: bool) {
    && h == Writes(g, env, cs.operations) && KindsKnown(env, cs.operations) && applied == OpIds(cs.operations)
    && (forall c :: c in cs.postconditions ==> PostSeen(h, cs, c, true))
    && (!misread ==> Succeeded(g, cs, env, h, applied))
  }

  lemma PostsSeen(h: Graph, cs: ChangeSet, post: seq<bool>)
    requires |post| == |cs.postconditions| && AllPassed(post)
    requires forall i :: 0 <= i < |post| ==> PostSeen(h, cs, cs.postconditions[i], post[i])
    ensures forall c :: c in cs.postconditions ==> PostSeen(h, cs, c, true)
  {
    hide PostSeen;
  }

  // ---- the verdict -------------------------------------------------------

  lemma AppliedServed(g: Graph, cs: ChangeSet, env: TxEnv, r: Receipt, h: Graph, truth: seq<Inverse>,
                      journal: seq<Inverse>, misread: bool)
    requires Tracked(g, h, FootprintOf(cs.operations), truth, journal, misread)
    requires SeenSuccess(g, cs, env, h, r.appliedOps, misread)
    requires r.status == Applied && ReceiptShape(cs, r, false)
    ensures TxServed(g, cs, env, r, h, false, map[], misread)
  {
    hide Tree, Confined, FootprintOf, ExecOps, PostsHold, PostSeen, ReceiptShape, KindsKnown, ShownJournal, Replaced, UndoAll,
      JournalOrdered, InverseSound;
  }

  lemma TrulyIfTold(g: Graph, h: Graph, journal: seq<Inverse>)
    requires Replaced(g, h, journal)
    ensures ReadTruly(g, journal)
  {
  }

  lemma LostInside(g: Graph, h: Graph, fp: Footprint, journal: seq<Inverse>)
    requires forall inv :: inv in journal ==> InverseSound(h, fp, inv)
    ensures LostBy(g, journal).Keys <= fp.wires
  {
    forall s | s in LostBy(g, journal) ensures s in fp.wires {
      var k :| 0 <= k < |journal| && Misread(g, journal, k) && (journal[k].target.path, journal[k].input) == s;
      assert journal[k] in journal;
    }
  }

  lemma FailedServed(g: Graph, cs: ChangeSet, env: TxEnv, r: Receipt, h: Graph, x: Graph, frozen: bool,
                     truth: seq<Inverse>, journal: seq<Inverse>, before: bool, misread: bool)
    requires Tracked(g, h, FootprintOf(cs.operations), truth, journal, before) && (before ==> misread)
    requires Tree(x) && Confined(g, x, FootprintOf(cs.operations))
    requires ReceiptShape(cs, r, frozen) && r.status != Applied
    requires r.status == RolledBack ==> x == UndoAll(h, journal)
    ensures TxServed(g, cs, env, r, x, frozen, LostBy(g, journal), misread)
    ensures r.status == RolledBack ==> (x == g <==> ReadTruly(g, journal))
  {
    hide Tree, Confined, FootprintOf, ExecOps, PostsHold, PostSeen, ReceiptShape, KindsKnown, ShownJournal, Replaced, UndoAll,
      JournalOrdered, InverseSound, LostBy, ReadTruly, LostFrom, Without, AllPassed;
    var fp := FootprintOf(cs.operations);
    TrackedSound(g, h, fp, truth, journal, before);
    UndoneShown(g, h, fp, truth, journal);
    RestoredIff(g, h, fp, truth, journal);
    LostInside(g, h, fp, journal);
    if !before {
      TrulyIfTold(g, h, journal);
      NothingLostIff(g, journal);
    }
  }
}
