/** When a rollback can go through: exactly when no source it has to connect again shares its id with another node. */
module Restoring {
  import opened Wrappers
  import opened Contracts
  import opened SceneGraph
  import opened Transactions
  import opened Admission
  import opened ExecutorSpec
  import opened WeakestPre
  import Coverage
  import Policy

  // ---- how far a run gets ------------------------------------------------

  /** The length of the longest prefix of the first `n` operations that goes through. */
  function Reached(g: Graph, env: TxEnv, ops: seq<Operation>, n: nat): (k: nat)
    requires n <= |ops|
    ensures k <= n && ExecOps(g, env, ops[..k]).Some?
  {
    if n == 0 || ExecOps(g, env, ops[..n]).Some? then n else Reached(g, env, ops, n - 1)
  }

  lemma {:induction false} ReachedIs(g: Graph, env: TxEnv, ops: seq<Operation>, n: nat, k: nat)
    requires k <= n <= |ops| && ExecOps(g, env, ops[..k]).Some? && (k < n ==> ExecOps(g, env, ops[..k + 1]).None?)
    ensures Reached(g, env, ops, n) == k
  {
    hide ExecOps;
    if k < n {
      assert ops[..n][..k + 1] == ops[..k + 1];
      NoneBeyond(g, env, ops[..n], k + 1);
      ReachedIs(g, env, ops, n - 1, k);
    }
  }

  /** Where a run without failing calls stands when it stops: at the end, or before the first operation that cannot
      run; the journal holds one inverse for each operation done. */
  ghost predicate Stopped(g: Graph, env: TxEnv, ops: seq<Operation>, h: Graph, journal: seq<Inverse>) {
    var done := ops[..Reached(g, env, ops, |ops|)];
    ExecOps(g, env, done) == Some(h) && journal == JournalAlong(g, env, done)
  }

  /** The journal entry of one operation, or nothing when it did not run. */
  ghost predicate StepJournaled(g: Graph, env: TxEnv, op: Operation, before: seq<Inverse>, raised: bool, h: Graph,
                                after: seq<Inverse>, faulted: bool)
  {
    && (!raised ==> after == before + [InverseOf(g, env, op)])
    && (raised && !faulted ==> h == g && after == before)
  }

  lemma JournalNext(g: Graph, env: TxEnv, ops: seq<Operation>, i: nat)
    requires i < |ops| && ExecOps(g, env, ops[..i + 1]).Some?
    ensures ExecOps(g, env, ops[..i]).Some?
    ensures JournalAlong(g, env, ops[..i + 1])
         == JournalAlong(g, env, ops[..i]) + [InverseOf(ExecOps(g, env, ops[..i]).value, env, ops[i])]
  {
    assert ops[..i + 1][..i] == ops[..i];
  }

  lemma {:induction false} JournalAt(g: Graph, env: TxEnv, ops: seq<Operation>, k: nat, i: nat)
    requires i < k <= |ops| && ExecOps(g, env, ops[..k]).Some?
    ensures ExecOps(g, env, ops[..i]).Some?
    ensures JournalAlong(g, env, ops[..k])[i] == InverseOf(ExecOps(g, env, ops[..i]).value, env, ops[i])
    decreases k
  {
    hide ExecOps, InverseOf;
    JournalNext(g, env, ops, k - 1);
    if i < k - 1 { JournalAt(g, env, ops, k - 1, i); }
  }

  // ---- ids along a run ---------------------------------------------------

  /** The first `k` operations leave the nodes of every other id alone and give each new id one node. */
  ghost predicate IdsAlong(g: Graph, h: Graph, ops: seq<Operation>, k: nat)
    requires k <= |ops|
  {
    && (forall id :: id !in CreatedIds(ops) ==> Mirrors(h, id) == Mirrors(g, id))
    && (forall m :: 0 <= m < k && ops[m].CreateNode? ==> Mirrors(h, ops[m].nodeId) == {CreatedPath(ops[m])})
  }

  lemma {:induction false} RunIds(g: Graph, env: TxEnv, ops: seq<Operation>, k: nat)
    requires Tree(g) && Ready(g, env, ops, 0) && k <= |ops| && ExecOps(g, env, ops[..k]).Some?
    ensures IdsAlong(g, ExecOps(g, env, ops[..k]).value, ops, k)
  {
    hide Ready, Tree, ExecOp;
    if k > 0 {
      assert ops[..k][..k - 1] == ops[..k - 1];
      RunIds(g, env, ops, k - 1);
      PrefixRun(g, env, ops, k - 1);
      StepIds(g, ExecOps(g, env, ops[..k - 1]).value, env, ops, k - 1, ExecOps(g, env, ops[..k]).value);
    }
  }

  lemma StepIds(g: Graph, h: Graph, env: TxEnv, ops: seq<Operation>, k: nat, next: Graph)
    requires k < |ops| && Ready(h, env, ops, k) && ExecOp(h, env, ops[k]) == Some(next) && IdsAlong(g, h, ops, k)
    ensures IdsAlong(g, next, ops, k + 1)
  {
    hide IdsAlong, ExecOp;
    if ops[k].CreateNode? {
      CreateDone(h, env, ops, k);
      CreateIds(g, h, env, ops, k);
    } else {
      SlotShape(h, env, ops[k], next);
      SlotIds(g, h, ops, k, next);
    }
  }

  lemma CreateIds(g: Graph, h: Graph, env: TxEnv, ops: seq<Operation>, k: nat)
    requires k < |ops| && ops[k].CreateNode? && ops[k].kind in env.defaults && UniqueCreated(ops)
    requires CreatedPath(ops[k]) !in h && Mirrors(h, ops[k].nodeId) == {} && IdsAlong(g, h, ops, k)
    ensures IdsAlong(g, h[CreatedPath(ops[k]) := Transactions.NewNode(env, ops[k])], ops, k + 1)
  {
    var n := Transactions.NewNode(env, ops[k]);
    CreatedMirrors(h, env, ops[k], CreatedPath(ops[k]), n);
    assert n.mirror[NodeIdKey] == ops[k].nodeId;
    hide Transactions.NewNode, Mirrors, CreatedPath;
    assert ops[k].nodeId in CreatedIds(ops);
  }

  lemma SlotIds(g: Graph, h: Graph, ops: seq<Operation>, k: nat, next: Graph)
    requires k < |ops| && !ops[k].CreateNode? && IdsAlong(g, h, ops, k)
    requires h.Keys == next.Keys && forall p :: p in h ==> h[p].mirror == next[p].mirror
    ensures IdsAlong(g, next, ops, k + 1)
  {
    SameMirrors(h, next);
  }

  // ---- the sources a rollback has to connect again ------------------------

  /** No second node of the scene mirrors the id of the node at `p`. */
  ghost predicate OwnsItsId(g: Graph, p: Path) {
    p in g && NodeIdKey in g[p].mirror ==> Mirrors(g, g[p].mirror[NodeIdKey]) == {p}
  }

  /** Every wire that one of the first `k` operations replaces comes from a node that does not share its id. What is
      replaced is told from the scene before the run and from the operations. */
  ghost predicate ReplacedSourcesUnique(g: Graph, ops: seq<Operation>, k: nat)
    requires k <= |ops|
  {
    forall i :: 0 <= i < k ==> ReplacedOk(g, ops, i)
  }

  ghost predicate ReplacedOk(g: Graph, ops: seq<Operation>, i: nat)
    requires i < |ops|
  {
    ops[i].ConnectInput? && HeldWire(g, ops, i, i).Some? ==> OwnsItsId(g, HeldWire(g, ops, i, i).value.src)
  }

  /** The source as it is seen: created by an earlier operation, or in the first scene as it is there. */
  lemma {:induction false} SeenOrigin(g: Graph, ops: seq<Operation>, p: Path, k: int)
    requires 0 <= k <= |ops|
    ensures (exists m :: 0 <= m < k && ops[m].CreateNode? && CreatedPath(ops[m]) == p
                         && SeenAs(g, ops, p, k) == CreatedRef(ops[m]))
            || ((forall m :: 0 <= m < k && ops[m].CreateNode? ==> CreatedPath(ops[m]) != p)
                && SeenAs(g, ops, p, k) == SeenAs(g, ops, p, 0))
  {
    if k > 0 { SeenOrigin(g, ops, p, k - 1); }
  }

  /** One journaled wire: its source can be connected again exactly when the replaced node owns its id. */
  lemma SourceUniqueIff(g: Graph, cs: ChangeSet, env: TxEnv, k: nat, i: nat, h: Graph)
    requires Anchored(g, cs, env) && i < k <= |cs.operations| && cs.operations[i].ConnectInput?
    requires IdsAlong(g, h, cs.operations, k)
    requires HeldWire(g, cs.operations, i, i).Some?
    ensures SourceUnique(h, UndoWire(cs.operations[i].target, cs.operations[i].input, HeldSource(g, cs.operations, i, i)))
       <==> OwnsItsId(g, HeldWire(g, cs.operations, i, i).value.src)
  {
    hide ValidChangeSet, HeldWire, Policy.AffectedListed;
    var ops := cs.operations;
    var p := HeldWire(g, ops, i, i).value.src;
    SeenOrigin(g, ops, p, i);
    if m :| 0 <= m < i && ops[m].CreateNode? && CreatedPath(ops[m]) == p && SeenAs(g, ops, p, i) == CreatedRef(ops[m]) {
      assert p !in g;
    } else if p in g {
      if NodeIdKey in g[p].mirror && p != [] { OldIdKept(g, h, cs, env, k, p); }
    }
  }

  lemma OldIdKept(g: Graph, h: Graph, cs: ChangeSet, env: TxEnv, k: nat, p: Path)
    requires Anchored(g, cs, env) && k <= |cs.operations| && IdsAlong(g, h, cs.operations, k)
    requires p in g && p != [] && NodeIdKey in g[p].mirror
    ensures Mirrors(h, g[p].mirror[NodeIdKey]) == Mirrors(g, g[p].mirror[NodeIdKey])
  {
    hide ValidChangeSet, Policy.AffectedListed;
    var id := g[p].mirror[NodeIdKey];
    assert p in Mirrors(g, id);
  }

  /** The journal of a prefix that went through can be undone exactly when the sources it replaced are unique. */
  lemma RestorableIff(g: Graph, cs: ChangeSet, env: TxEnv, k: nat)
    requires Anchored(g, cs, env) && k <= |cs.operations| && ExecOps(g, env, cs.operations[..k]).Some?
    ensures Restorable(ExecOps(g, env, cs.operations[..k]).value, JournalAlong(g, env, cs.operations[..k]))
       <==> ReplacedSourcesUnique(g, cs.operations, k)
  {
    hide Anchored, Ready, Tree, ExecOps, ExecOp, HeldWire, SourceUnique, JournalAlong, OwnsItsId, HeldSource, IdsAlong;
    var ops, h, journal := cs.operations, ExecOps(g, env, cs.operations[..k]).value, JournalAlong(g, env, cs.operations[..k]);
    AnchoredReady(g, cs, env);
    AnchoredValid(g, cs, env);
    RunIds(g, env, ops, k);
    forall i | 0 <= i < k ensures SourceUnique(h, journal[i]) <==> ReplacedOk(g, ops, i) {
      EntryIff(g, cs, env, k, i);
    }
    if Restorable(h, journal) {
      forall i | 0 <= i < k ensures ReplacedOk(g, ops, i) { assert journal[i] in journal; }
    }
    if ReplacedSourcesUnique(g, ops, k) {
      forall inv | inv in journal ensures SourceUnique(h, inv) {
        var i :| 0 <= i < |journal| && journal[i] == inv;
        assert ReplacedOk(g, ops, i);
      }
    }
  }

  lemma EntryIff(g: Graph, cs: ChangeSet, env: TxEnv, k: nat, i: nat)
    requires Anchored(g, cs, env) && i < k <= |cs.operations| && ExecOps(g, env, cs.operations[..k]).Some?
    requires IdsAlong(g, ExecOps(g, env, cs.operations[..k]).value, cs.operations, k)
    ensures SourceUnique(ExecOps(g, env, cs.operations[..k]).value, JournalAlong(g, env, cs.operations[..k])[i])
       <==> ReplacedOk(g, cs.operations, i)
  {
    hide Anchored, Ready, Tree, ExecOps, ExecOp, HeldWire, JournalAlong, OwnsItsId, SlotsExist, IdsAlong, Mirrors;
    var ops := cs.operations;
    AnchoredReady(g, cs, env);
    AnchoredValid(g, cs, env);
    JournalAt(g, env, ops, k, i);
    if ops[i].ConnectInput? {
      RunIff(g, cs, env, i);
      PrefixRun(g, env, ops, i);
      SourceHeld(g, cs, env, i, i);
      if HeldWire(g, ops, i, i).Some? {
        SourceUniqueIff(g, cs, env, k, i, ExecOps(g, env, ops[..k]).value);
      }
    }
  }

  lemma JournalStart(g: Graph, env: TxEnv, ops: seq<Operation>)
    ensures ExecOps(g, env, ops[..0]) == Some(g) && JournalAlong(g, env, ops[..0]) == []
  {
  }

  /** What a failed run without failing calls needs to be rolled back: of the operations it gets to do, none replaces a
      wire whose source shares its id with another node. */
  ghost predicate Undoable(g: Graph, defaults: map<string, map<string, string>>, cs: ChangeSet)
    requires UniqueCreated(cs.operations)
  {
    ReplacedSourcesUnique(g, cs.operations, Reached(g, EnvOf(defaults, cs), cs.operations, |cs.operations|))
  }

  lemma StoppedLength(g: Graph, env: TxEnv, ops: seq<Operation>, h: Graph, journal: seq<Inverse>)
    requires Stopped(g, env, ops, h, journal)
    ensures |journal| == Reached(g, env, ops, |ops|)
  {
    hide ExecOps;
  }

  lemma StoppedUndoable(g: Graph, binding: Binding, cs: ChangeSet, ws: Option<Manifest>,
                        defaults: map<string, map<string, string>>, h: Graph, journal: seq<Inverse>)
    requires Tree(g) && ValidChangeSet(cs) && Admitted(g, binding, cs, ws)
    requires Stopped(g, EnvOf(defaults, cs), cs.operations, h, journal)
    ensures Restorable(h, journal) <==> Undoable(g, defaults, cs)
  {
    hide Anchored, AdmissionError, Tree, CreatedIdentity, Restorable, ReplacedSourcesUnique, ExecOps, JournalAlong,
      CreatedReferencesOk, ConsistentConditions, UniqueRefs;
    var env := EnvOf(defaults, cs);
    AdmittedAnchored(g, binding, cs, ws, env);
    RestorableIff(g, cs, env, Reached(g, env, cs.operations, |cs.operations|));
  }

  /** The verdicts of a run that goes through and can be read back; of any other there are none. */
  function VerdictsOf(g: Graph, cs: ChangeSet, env: TxEnv): seq<bool> {
    var h := ExecOps(g, env, cs.operations);
    if h.Some? && !ReadBackRaises(h.value, cs) then PostResults(h.value, cs, cs.postconditions) else []
  }

  /** The outcome when no call fails: applied exactly when the checked run and its postconditions succeed, frozen exactly
      when they do not and the run cannot be undone. The receipt names exactly the operations that ran, and has a
      verdict for each postcondition if all did, and for each inverse if they were undone. */
  ghost predicate CleanVerdict(g: Graph, defaults: map<string, map<string, string>>, cs: ChangeSet, r: Receipt,
                               frozen: bool)
    requires UniqueCreated(cs.operations)
  {
    && (r.status == Applied <==> ShouldSucceed(g, cs, EnvOf(defaults, cs)))
    && (frozen <==> r.status != Applied && !Undoable(g, defaults, cs))
    && r.postResults == VerdictsOf(g, cs, EnvOf(defaults, cs))
    && var n := Reached(g, EnvOf(defaults, cs), cs.operations, |cs.operations|);
       r.appliedOps == OpIds(cs.operations)[..n] && (r.status != Applied ==> |r.rollbackResults| == n)
  }

  lemma ReplacedNotRoot(g: Graph, cs: ChangeSet, env: TxEnv, i: nat)
    requires Anchored(g, cs, env) && i < |cs.operations| && cs.operations[i].ConnectInput?
    requires HeldWire(g, cs.operations, i, i).Some?
    ensures HeldWire(g, cs.operations, i, i).value.src != []
  {
    hide CreatedReferencesOk, ConsistentConditions, UniqueRefs, UniqueCreated, Policy.AffectedListed;
    var ops, m := cs.operations, LatestWithin(cs.operations, i, i);
    if m >= 0 {
      assert ops[m].source in UsedRefs(ops[m]);
      if Coverage.TargetsCreated(ops, ops[m].source) { CreatedRefFound(cs, m, ops[m].source); }
    }
  }

  /** Where no id is mirrored twice, every failed run without failing calls is rolled back. */
  lemma UniqueIdsSuffice(g: Graph, binding: Binding, cs: ChangeSet, ws: Option<Manifest>,
                         defaults: map<string, map<string, string>>)
    requires Tree(g) && ValidChangeSet(cs) && Admitted(g, binding, cs, ws) && UniqueMirrors(g)
    ensures Undoable(g, defaults, cs)
  {
    hide Anchored, AdmissionError, Tree, CreatedIdentity, HeldWire, CreatedReferencesOk, ConsistentConditions, UniqueRefs,
      ExecOps;
    var env, ops := EnvOf(defaults, cs), cs.operations;
    AdmittedAnchored(g, binding, cs, ws, env);
    forall i | 0 <= i < |ops| ensures ReplacedOk(g, ops, i) {
      if ops[i].ConnectInput? && HeldWire(g, ops, i, i).Some? {
        ReplacedNotRoot(g, cs, env, i);
        var p := HeldWire(g, ops, i, i).value.src;
        assert p in g && NodeIdKey in g[p].mirror ==> MirrorOf(g[p], NodeIdKey) == Some(g[p].mirror[NodeIdKey]);
      }
    }
  }
}
