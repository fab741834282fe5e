/** What the executor promises, as predicates over the state of the bridge before and after a call. */
module ExecutorSpec {
  import opened Wrappers
  import opened Contracts
  import opened SceneGraph
  import opened Transactions
  import opened Glances
  import opened Preflight
  import opened Admission

  type CacheKey = (string, Digest)

  /** An ordered dictionary of receipts, oldest first. */
  type Cache = seq<(CacheKey, Receipt)>

  datatype BridgeState = BridgeState(graph: Graph, cache: Cache, frozen: bool)

  datatype Reply = Rejected(code: Code) | Replied(receipt: Receipt)

  ghost predicate CacheOk(cache: Cache, cacheMax: nat) {
    && |cache| <= cacheMax
    && forall i, j :: 0 <= i < j < |cache| ==> cache[i].0.0 != cache[j].0.0
  }

  /** One operation done: without a raise it had its effect, checked unless a guarded read was swallowed; a raise means
      a call failed or a check did. */
  ghost predicate StepDone(g: Graph, env: TxEnv, op: Operation, raised: bool, h: Graph, faulted: bool, misread: bool) {
    && (!raised ==> h == Write(g, env, op) && (!misread ==> ExecOp(g, env, op) == Some(h)))
    && (!raised && op.CreateNode? ==> op.kind in env.defaults)
    && (raised ==> faulted || ExecOp(g, env, op).None?)
  }

  // ---- steps of a running transaction ------------------------------------

  lemma ResolveExact(g: Graph, index: Index, r: NodeRef)
    requires IndexExact(g, index)
    ensures Resolve(g, index, r) == Locate(g, r)
  {
    if r.nodeId.Some? {
      assert Lookup(index, r.nodeId.value) == Mirrors(g, r.nodeId.value);
    }
  }

  lemma CreateDone(g: Graph, env: TxEnv, ops: seq<Operation>, k: int)
    requires Ready(g, env, ops, k) && k < |ops| && ops[k].CreateNode?
    ensures CreatedPath(ops[k]) !in g && ops[k].parent.path in g
    ensures ExecOp(g, env, ops[k])
         == if ops[k].kind in env.defaults then Some(g[CreatedPath(ops[k]) := NewNode(env, ops[k])]) else None
  {
    ReadyResolves(g, env, ops, k, ops[k].parent);
  }

  lemma InFootprint(ops: seq<Operation>, k: int)
    requires 0 <= k < |ops|
    ensures ops[k].CreateNode? ==> CreatedPath(ops[k]) in FootprintOf(ops).created
    ensures ops[k].SetParm? ==> (ops[k].target.path, ops[k].parm) in FootprintOf(ops).parms
    ensures ops[k].ConnectInput? ==> (ops[k].target.path, ops[k].input) in FootprintOf(ops).wires
  {
  }

  lemma TxCreate(g0: Graph, g: Graph, env: TxEnv, ops: seq<Operation>, k: int, journal: seq<Inverse>, n: Node)
    requires TxInv(g0, g, FootprintOf(ops), journal) && Ready(g, env, ops, k) && k < |ops| && ops[k].CreateNode?
    requires n.inputs == map[] && MirrorMatches(n.mirror, FullMirror(env, ops[k]))
    ensures TxInv(g0, g[CreatedPath(ops[k]) := n], FootprintOf(ops),
                  journal + [UndoCreate(CreatedPath(ops[k]), FullMirror(env, ops[k]), CreatedPath(ops[k]))])
  {
    hide TxInv;
    ReadyResolves(g, env, ops, k, ops[k].parent);
    InFootprint(ops, k);
    JournalCreate(g0, g, FootprintOf(ops), journal, env, ops[k], n, FullMirror(env, ops[k]));
  }

  lemma TxParm(g0: Graph, g: Graph, env: TxEnv, ops: seq<Operation>, k: int, journal: seq<Inverse>)
    requires TxInv(g0, g, FootprintOf(ops), journal) && Ready(g, env, ops, k) && k < |ops| && ops[k].SetParm?
    requires ParmAt(g, ops[k].target.path, ops[k].parm) == Some(ops[k].expectedOld)
    ensures ops[k].target.path in g
    ensures TxInv(g0, g, FootprintOf(ops), journal + [UndoParm(ops[k].target, ops[k].parm, ops[k].expectedOld)])
    ensures TxInv(g0, WithParm(g, ops[k].target.path, ops[k].parm, ops[k].value), FootprintOf(ops),
                  journal + [UndoParm(ops[k].target, ops[k].parm, ops[k].expectedOld)])
  {
    hide TxInv;
    ReadyResolves(g, env, ops, k, ops[k].target);
    InFootprint(ops, k);
    JournalParm(g0, g, FootprintOf(ops), journal, ops[k].target, ops[k].parm, ops[k].expectedOld, ops[k].value);
  }

  lemma TxWire(g0: Graph, g: Graph, env: TxEnv, ops: seq<Operation>, k: int, journal: seq<Inverse>)
    requires TxInv(g0, g, FootprintOf(ops), journal) && Ready(g, env, ops, k) && k < |ops| && ops[k].ConnectInput?
    ensures ops[k].target.path in g && ops[k].source.path in g && ops[k].source.path != []
    ensures var j := journal + [UndoWire(ops[k].target, ops[k].input, ReadWire(g, ops[k].target.path, ops[k].input))];
            && TxInv(g0, g, FootprintOf(ops), j)
            && TxInv(g0, WithInput(g, ops[k].target.path, ops[k].input,
                                   Some(Wire(ops[k].source.path, ops[k].output))), FootprintOf(ops), j)
  {
    hide TxInv;
    ReadyResolves(g, env, ops, k, ops[k].target);
    ReadyResolves(g, env, ops, k, ops[k].source);
    InFootprint(ops, k);
    JournalWire(g0, g, FootprintOf(ops), journal, ops[k].target, ops[k].input,
                Wire(ops[k].source.path, ops[k].output));
  }

  /** The node at `p` carries part of the mirror being written; nothing else differs from `base`. */
  ghost predicate Mirroring(base: Graph, g: Graph, p: Path, intended: map<MirrorKey, string>) {
    && p in base && p in g
    && g == base[p := g[p]]
    && g[p] == base[p].(mirror := g[p].mirror)
    && MirrorMatches(g[p].mirror, intended)
  }

  lemma MirrorStep(base: Graph, g: Graph, p: Path, intended: map<MirrorKey, string>, k: MirrorKey)
    requires Mirroring(base, g, p, intended) && k in intended
    ensures Mirroring(base, WithMirror(g, p, k, intended[k]), p, intended)
  {
  }

  // ---- steps of a rollback -----------------------------------------------

  /** One inverse run: passing means exactly the intended undo, and takes a source that is aimed, if it is known by its
      id; a sound inverse with its source aimed fails only if a call of the scene does. */
  ghost predicate UndoDone(g: Graph, fp: Footprint, index: Index, inv: Inverse, passed: bool, h: Graph, faulted: bool) {
    && (passed ==> h == Undo(g, inv) && (SourceKnown(index, inv) ==> SourceAimed(index, inv)))
    && (!passed ==> faulted || !InverseSound(g, fp, inv) || !SourceAimed(index, inv))
  }

  lemma AimedResolves(g: Graph, fp: Footprint, index: Index, inv: Inverse)
    requires !inv.UndoCreate? && Aimed(fp, index, inv)
    ensures var f := Resolve(g, index, inv.target);
            (f.At? ==> f.path == inv.target.path) && (inv.target.path in g ==> f.At?)
  {
    if inv.target.nodeId.Some? {
      var m := Lookup(index, inv.target.nodeId.value);
      assert m == {} || m == {inv.target.path};
    }
  }

  /** A source with its id mirrored twice is ambiguous: no rollback can connect it again. */
  lemma SourceResolves(g: Graph, index: Index, inv: Inverse)
    requires inv.UndoWire? && inv.source.Some? && SourceKnown(index, inv)
    ensures var s := inv.source.value.source;
            && (SourceAimed(index, inv) && s.path in g ==> Resolve(g, index, s) == At(s.path))
            && (!SourceAimed(index, inv) ==> Resolve(g, index, s).Ambiguous?)
  {
    var s := inv.source.value.source;
    if s.nodeId.Some? && !SourceAimed(index, inv) {
      TwoOrMore(Lookup(index, s.nodeId.value), s.path);
    }
  }

  /** What a rollback needs to know about a journal, however much of the ids its index saw. */
  lemma AllAimed(g: Graph, fp: Footprint, index: Index, journal: seq<Inverse>)
    requires IndexWithin(g, index) && forall inv :: inv in journal ==> InverseSound(g, fp, inv)
    ensures forall inv :: inv in journal ==> Aimed(fp, index, inv)
    ensures IndexExact(g, index) ==> forall inv :: inv in journal ==>
              SourceKnown(index, inv) && (SourceAimed(index, inv) <==> SourceUnique(g, inv))
  {
    hide InverseSound, Aimed, SourceAimed, SourceUnique, SourceKnown, IndexExact, IndexWithin;
    forall inv | inv in journal
      ensures Aimed(fp, index, inv)
      ensures IndexExact(g, index) ==> SourceKnown(index, inv) && (SourceAimed(index, inv) <==> SourceUnique(g, inv))
    {
      JournalAimed(g, fp, index, inv);
    }
  }

  lemma JournalAimed(g: Graph, fp: Footprint, index: Index, inv: Inverse)
    requires IndexWithin(g, index) && InverseSound(g, fp, inv)
    ensures Aimed(fp, index, inv)
    ensures IndexExact(g, index) ==> SourceKnown(index, inv) && (SourceAimed(index, inv) <==> SourceUnique(g, inv))
  {
    if !inv.UndoCreate? && inv.target.nodeId.Some? {
      assert Lookup(index, inv.target.nodeId.value) <= Mirrors(g, inv.target.nodeId.value);
    }
    if inv.UndoWire? && inv.source.Some? && inv.source.value.source.nodeId.Some? {
      var id := inv.source.value.source.nodeId.value;
      assert IndexExact(g, index) ==> Lookup(index, id) == Mirrors(g, id);
    }
  }

  lemma TwoOrMore(s: set<Path>, p: Path)
    requires p in s && s != {p}
    ensures |s| > 1
  {
    var q :| q in s && q != p;
    assert |s| == |s - {p, q}| + 2;
  }

  /** Reading an input back after it was set tells whether the right source was connected: even a swallowed read never
      passes a wrong one. */
  lemma WireReadBack(g: Graph, p: Path, i: nat, w: Option<Wire>, source: Option<WireRef>, back: Option<WireRef>)
    requires p in g && (w.Some? ==> w.value.src in g) && (w.Some? <==> source.Some?)
    requires w.Some? ==> w.value.output == source.value.output
    requires ShownSource(ReadWire(WithInput(g, p, i, w), p, i), back)
    ensures WireEqual(back, source) ==> w == WireOf(source)
    ensures back == ReadWire(WithInput(g, p, i, w), p, i) && w == WireOf(source) ==>
              (source.Some? ==> SourceSound(g, source.value.source)) ==> WireEqual(back, source)
  {
  }

  /** A source that does not resolve was not sound or not aimed; one that is both resolves to its path. */
  lemma SourceFound(g: Graph, fp: Footprint, index: Index, inv: Inverse)
    requires inv.UndoWire? && inv.source.Some? && InverseSound(g, fp, inv) && SourceAimed(index, inv)
    ensures Resolve(g, index, inv.source.value.source) == At(inv.source.value.source.path)
    ensures inv.source.value.source.path in g && inv.source.value.source.path != []
  {
  }

  /** An input set back, and read back through guarded reads. */
  lemma WireUndone(g: Graph, fp: Footprint, index: Index, inv: Inverse, w: Option<Wire>, back: Option<WireRef>,
                   passed: bool, faulted: bool)
    requires inv.UndoWire? && inv.target.path in g && (w.Some? <==> inv.source.Some?) && (w.Some? ==> w.value.src in g)
    requires w.Some? ==> Resolve(g, index, inv.source.value.source) == At(w.value.src)
                         && w.value.output == inv.source.value.output
    requires var now := ReadWire(WithInput(g, inv.target.path, inv.input, w), inv.target.path, inv.input);
             ShownSource(now, back) && (back != now ==> faulted)
    requires (passed ==> WireEqual(back, inv.source)) && (!passed ==> faulted || !WireEqual(back, inv.source))
    ensures UndoDone(g, fp, index, inv, passed, WithInput(g, inv.target.path, inv.input, w), faulted)
  {
    hide SourceAimed, SourceKnown, Resolve, ReadWire, WireEqual, ShownSource;
    WireReadBack(g, inv.target.path, inv.input, w, inv.source, back);
    if inv.source.Some? && SourceKnown(index, inv) { SourceResolves(g, index, inv); }
    if inv.source.None? { NoSource(index, inv); }
    if inv.source.Some? && InverseSound(g, fp, inv) && SourceAimed(index, inv) { SourceFound(g, fp, index, inv); }
  }

  lemma AimedSlot(fp: Footprint, index: Index, inv: Inverse)
    requires inv.UndoWire? && Aimed(fp, index, inv)
    ensures (inv.target.path, inv.input) in fp.wires
  {
  }

  lemma NoSource(index: Index, inv: Inverse)
    requires inv.UndoWire? && inv.source.None?
    ensures SourceAimed(index, inv)
  {
  }

  function MirroredIds(g: Graph): set<string> {
    set p | p in g && p != [] && NodeIdKey in g[p].mirror :: g[p].mirror[NodeIdKey]
  }

  /** One pass over the scene: every mirrored id with its nodes. */
  function IndexOf(g: Graph): (index: Index)
    ensures IndexExact(g, index)
  {
    var index := map id | id in MirroredIds(g) :: Mirrors(g, id);
    assert forall id :: id !in MirroredIds(g) ==> Mirrors(g, id) == {};
    index
  }

  predicate AllPassed(results: seq<bool>) {
    forall i :: 0 <= i < |results| ==> results[i]
  }

  /** Every source journaled from `n` on is aimed. */
  ghost predicate AimedFrom(index: Index, journal: seq<Inverse>, n: int) {
    forall k :: 0 <= n <= k < |journal| ==> SourceAimed(index, journal[k])
  }

  lemma AimedAll(index: Index, g: Graph, journal: seq<Inverse>)
    requires forall inv :: inv in journal ==> (SourceAimed(index, inv) <==> SourceUnique(g, inv))
    ensures AimedFrom(index, journal, 0) <==> Restorable(g, journal)
  {
    hide SourceAimed, SourceUnique;
    if AimedFrom(index, journal, 0) {
      forall inv | inv in journal ensures SourceUnique(g, inv) {
        var k :| 0 <= k < |journal| && journal[k] == inv;
        assert SourceAimed(index, journal[k]);
      }
    }
    if Restorable(g, journal) {
      forall k | 0 <= k < |journal| ensures SourceAimed(index, journal[k]) { assert journal[k] in journal; }
    }
  }

  /** The reverse pass with `n` inverses to go: as long as all passed, undoing the rest leads where undoing all does. */
  ghost predicate Unwinding(goal: Graph, g: Graph, fp: Footprint, journal: seq<Inverse>, n: int, results: seq<bool>) {
    && 0 <= n <= |journal|
    && |results| == |journal| - n
    && (AllPassed(results) ==>
          UndoAll(g, journal[..n]) == goal && forall inv :: inv in journal[..n] ==> InverseSound(g, fp, inv))
  }

  lemma UnwindStep(goal: Graph, g: Graph, h: Graph, fp: Footprint, index: Index, journal: seq<Inverse>, n: int,
                   results: seq<bool>, passed: bool, faulted: bool)
    requires Unwinding(goal, g, fp, journal, n, results) && n > 0 && JournalOrdered(journal)
    requires UndoDone(g, fp, index, journal[n - 1], passed, h, faulted)
    ensures Unwinding(goal, h, fp, journal, n - 1, results + [passed])
    ensures AllPassed(results) && SourceAimed(index, journal[n - 1]) && !passed ==> faulted
    ensures passed && SourceKnown(index, journal[n - 1]) ==> SourceAimed(index, journal[n - 1])
    ensures AllPassed(results + [passed]) <==> AllPassed(results) && passed
  {
    var done := results + [passed];
    assert AllPassed(done) <==> AllPassed(results) && passed by {
      if AllPassed(done) {
        assert done[|results|] == passed;
        forall i | 0 <= i < |results| ensures results[i] { assert done[i] == results[i]; }
      }
    }
    var front := journal[..n];
    assert front[n - 1] == journal[n - 1] && front[..n - 1] == journal[..n - 1];
    if AllPassed(results) {
      assert front[n - 1] in front;
      assert InverseSound(g, fp, journal[n - 1]);
      if passed {
        OrderedPrefix(journal, n);
        UndoKeepsSound(g, fp, front);
      }
    }
  }

  function CountPassed(results: seq<bool>): nat {
    if results == [] then 0 else (if results[0] then 1 else 0) + CountPassed(results[1..])
  }

  predicate SomePassed(results: seq<bool>) {
    exists i :: 0 <= i < |results| && results[i]
  }

  lemma {:induction false} CountAll(results: seq<bool>)
    ensures CountPassed(results) <= |results|
    ensures CountPassed(results) == |results| <==> AllPassed(results)
    ensures CountPassed(results) == 0 <==> !SomePassed(results)
  {
    if results != [] {
      CountAll(results[1..]);
      if AllPassed(results) {
        forall i | 0 <= i < |results[1..]| ensures results[1..][i] { assert results[1..][i] == results[i + 1]; }
      }
      if AllPassed(results[1..]) && results[0] {
        forall i | 0 <= i < |results| ensures results[i] { assert i > 0 ==> results[i] == results[1..][i - 1]; }
      }
      if SomePassed(results[1..]) {
        var i :| 0 <= i < |results[1..]| && results[1..][i];
        assert results[i + 1];
      }
      if SomePassed(results) && !results[0] {
        var i :| 0 <= i < |results| && results[i];
        assert results[1..][i - 1];
      }
    }
  }

  /** Status of a failed transaction, and whether the scene may have changed. */
  function ClassifyFailure(results: seq<bool>, rollbackOk: bool): (ReceiptStatus, bool) {
    if !rollbackOk then (CriticalRecovery, true) else
    if results == [] then (RolledBack, false) else
    if CountPassed(results) == |results| then (RolledBack, false) else
    if CountPassed(results) == 0 then (CriticalRecovery, true) else (Partial, true)
  }

  /** A failure is called rolled back exactly when the pass completed and every inverse passed, partial when some did and
      some did not, and critical otherwise. */
  lemma ClassifiedRolledBack(results: seq<bool>, rollbackOk: bool)
    ensures ClassifyFailure(results, rollbackOk).0 == RolledBack <==> rollbackOk && AllPassed(results)
    ensures ClassifyFailure(results, rollbackOk).0 == Partial <==> rollbackOk && SomePassed(results) && !AllPassed(results)
    ensures ClassifyFailure(results, rollbackOk).0 in {RolledBack, Partial, CriticalRecovery}
    ensures ClassifyFailure(results, rollbackOk).1 <==> ClassifyFailure(results, rollbackOk).0 != RolledBack
  {
    CountAll(results);
  }

  // ---- postconditions ----------------------------------------------------

  function FoundNode(g: Graph, r: NodeRef, ids: Graph := g): Option<(Path, Node)> {
    var f := Locate(ids, r);
    if f.At? && f.path in g then Some((f.path, g[f.path])) else None
  }

  /** A postcondition against the scene after the writes. Identity is judged for collected references only. */
  predicate PostHolds(g: Graph, cs: ChangeSet, c: Condition, ids: Graph := g) {
    match c
    case NodeIdentityEquals(node) =>
      KeyOf(node) in KeysOf(CollectRefs(cs)) && IdentityHolds(FoundNode(g, node, ids), node)
    case ParmValueEquals(target, parm, value) =>
      var f := Locate(ids, target);
      f.At? && ParmAt(g, f.path, parm) == Some(value)
    case WireInputEquals(target, input, wire) =>
      var f := Locate(ids, target);
      !f.Ambiguous? && WireEqual(if f.At? then ReadWire(g, f.path, input) else None, wire)
    case _ => false
  }

  /** Only these kinds of postconditions can be judged. */
  predicate Judged(c: Condition) {
    c.NodeIdentityEquals? || c.ParmValueEquals? || c.WireInputEquals?
  }

  /** Reading the scene back after the writes raises. */
  predicate ReadBackRaises(ids: Graph, cs: ChangeSet) {
    SnapshotAmbiguous(ids, cs) || exists c :: c in cs.postconditions && !Judged(c)
  }

  lemma ReadBackFails(g: Graph, cs: ChangeSet)
    requires ReadBackRaises(g, cs) && forall r :: r in CollectRefs(cs) ==> !Locate(g, r).Ambiguous?
    ensures !PostsHold(g, cs)
  {
    hide CollectRefs, Locate, IdentityHolds, FoundNode, ReadWire, WireEqual;
    if PostTargetAmbiguous(g, cs) {
      var c :| c in cs.postconditions && (c.ParmValueEquals? || c.WireInputEquals?) && Locate(g, c.target).Ambiguous?;
      assert !PostHolds(g, cs, c);
    } else {
      var c :| c in cs.postconditions && !Judged(c);
      assert !PostHolds(g, cs, c);
    }
  }

  /** The verdict on a postcondition is one that guarded reads of the scene can lead to. */
  ghost predicate PostSeen(g: Graph, cs: ChangeSet, c: Condition, verdict: bool) {
    exists v, ids :: Shown(g, v) && Shown(g, ids) && verdict == PostHolds(v, cs, c, ids)
  }

  function PostResults(g: Graph, cs: ChangeSet, conds: seq<Condition>): (r: seq<bool>)
    ensures |r| == |conds| && forall i :: 0 <= i < |conds| ==> r[i] == PostHolds(g, cs, conds[i])
  {
    if conds == [] then [] else [PostHolds(g, cs, conds[0])] + PostResults(g, cs, conds[1..])
  }

  predicate PostsHold(g: Graph, cs: ChangeSet) {
    forall c :: c in cs.postconditions ==> PostHolds(g, cs, c)
  }

  // ---- the receipt cache -------------------------------------------------

  function CacheGet(cache: Cache, key: CacheKey): Option<Receipt> {
    if cache == [] then None else
    if cache[0].0 == key then Some(cache[0].1) else CacheGet(cache[1..], key)
  }

  function CachedKeys(cache: Cache): set<CacheKey> {
    set e | e in cache :: e.0
  }

  predicate DigestConflict(cache: Cache, changeId: string, digest: Digest) {
    exists e :: e in cache && e.0.0 == changeId && e.0.1 != digest
  }

  /** Adds the newest receipt and drops the oldest ones beyond the bound. */
  function CacheAdd(cache: Cache, key: CacheKey, r: Receipt, cacheMax: nat): Cache {
    var longer := cache + [(key, r)];
    if |longer| > cacheMax then longer[|longer| - cacheMax..] else longer
  }

  /** A cached success answers again as already applied; any other cached receipt answers verbatim. */
  function Replay(r: Receipt): Receipt {
    if r.status in {Applied, AlreadyApplied}
    then r.(status := AlreadyApplied, appliedOps := [], rollbackResults := [], sceneMayHaveChanged := false,
            errorCode := None, errorMessage := None)
    else r
  }

  lemma {:induction false} CacheGetIn(cache: Cache, key: CacheKey)
    ensures CacheGet(cache, key).Some? <==> exists e :: e in cache && e.0 == key
    ensures CacheGet(cache, key).Some? ==> (key, CacheGet(cache, key).value) in cache
  {
    if cache != [] {
      CacheGetIn(cache[1..], key);
      assert cache == [cache[0]] + cache[1..];
    }
  }

  /** The bound and the one-digest-per-change rule survive an insertion that the conflict check let through. */
  lemma CacheStaysOk(cache: Cache, key: CacheKey, r: Receipt, cacheMax: nat)
    requires CacheOk(cache, cacheMax) && cacheMax > 0
    requires CacheGet(cache, key).None? && !DigestConflict(cache, key.0, key.1)
    ensures CacheOk(CacheAdd(cache, key, r, cacheMax), cacheMax)
    ensures CacheGet(CacheAdd(cache, key, r, cacheMax), key) == Some(r)
  {
    CacheGetIn(cache, key);
    var longer := cache + [(key, r)];
    forall i | 0 <= i < |cache| ensures cache[i].0.0 != key.0 {
      assert cache[i] in cache;
    }
    var next := CacheAdd(cache, key, r, cacheMax);
    CacheGetIn(next, key);
    assert next[|next| - 1] == (key, r);
    forall e | e in next && e.0 == key ensures e == (key, r) {
      var i :| 0 <= i < |next| && next[i] == e;
    }
  }

  /** The receipts stay in the order of their insertion; only the oldest of a full cache goes. */
  lemma CacheInOrder(cache: Cache, key: CacheKey, r: Receipt, cacheMax: nat)
    requires CacheOk(cache, cacheMax) && cacheMax > 0
    ensures |cache| <= cacheMax
    ensures CacheAdd(cache, key, r, cacheMax) == cache[(if |cache| < cacheMax then 0 else 1)..] + [(key, r)]
  {
  }

  // ---- the outcome of an apply request -----------------------------------

  function OpIds(ops: seq<Operation>): (ids: seq<string>)
    ensures |ids| == |ops| && forall i :: 0 <= i < |ops| ==> ids[i] == ops[i].opId
  {
    seq(|ops|, i requires 0 <= i < |ops| => ops[i].opId)
  }

  /** How every receipt of a new transaction reads: the operations done, as far as they came; the verdicts behind the
      status; and whether the scene may have changed, which freezes writes. */
  ghost predicate ReceiptShape(cs: ChangeSet, r: Receipt, frozen: bool) {
    && r.changeId == cs.changeId && r.binding == cs.binding && r.status != AlreadyApplied
    && r.appliedOps <= OpIds(cs.operations)
    && (r.status == Applied ==>
          r.appliedOps == OpIds(cs.operations) && |r.postResults| == |cs.postconditions| && AllPassed(r.postResults)
          && r.rollbackResults == [])
    && (r.status == RolledBack ==> AllPassed(r.rollbackResults))
    && (r.status == Partial <==> SomePassed(r.rollbackResults) && !AllPassed(r.rollbackResults))
    && (r.status == CriticalRecovery ==> !SomePassed(r.rollbackResults))
    && (frozen <==> r.status in {Partial, CriticalRecovery})
    && (r.sceneMayHaveChanged <==> frozen)
    && (r.errorCode.None? <==> r.status == Applied)
  }

  /** All or nothing: Applied means the checked run of every operation, RolledBack means the untouched scene,
      anything else freezes; and no outcome reaches outside the footprint. */
  ghost predicate TxOutcome(g: Graph, cs: ChangeSet, env: TxEnv, r: Receipt, h: Graph, frozen: bool) {
    && Tree(h) && Confined(g, h, FootprintOf(cs.operations)) && ReceiptShape(cs, r, frozen)
    && (r.status == Applied ==> ExecOps(g, env, cs.operations) == Some(h) && PostsHold(h, cs))
    && (r.status == RolledBack ==> h == g)
  }

  ghost predicate ApplyOutcome(pre: BridgeState, post: BridgeState, binding: Binding, cacheMax: nat,
                               cs: ChangeSet, ws: Option<Manifest>, env: TxEnv, faulted: bool, reply: Reply)
  {
    var key := (cs.changeId, cs);
    if pre.frozen then reply == Rejected(WriteFrozen) && post == pre else
    if CacheGet(pre.cache, key).Some? then reply == Replied(Replay(CacheGet(pre.cache, key).value)) && post == pre else
    if DigestConflict(pre.cache, cs.changeId, cs) then reply == Rejected(ReceiptConflict) && post == pre else
    || (faulted && reply == Rejected(ReadFailed) && post == pre)
    || (var e := AdmissionError(pre.graph, binding, cs, ws);
        if e.Some? then reply == Rejected(e.value) && post == pre else
        && reply.Replied?
        && post.cache == CacheAdd(pre.cache, key, reply.receipt, cacheMax)
        && TxOutcome(pre.graph, cs, env, reply.receipt, post.graph, post.frozen))
  }

  /** An operation that cannot run leaves the whole run without a result. */
  lemma {:induction false} NoneBeyond(g: Graph, env: TxEnv, ops: seq<Operation>, k: nat)
    requires k <= |ops|
    ensures ExecOps(g, env, ops[..k]).None? ==> ExecOps(g, env, ops).None?
  {
    if ExecOps(g, env, ops).Some? {
      ExecPrefix(g, env, ops, k);
    }
  }

  lemma TxStart(g: Graph, ops: seq<Operation>)
    requires Tree(g) && CreatedPaths(ops) !! g.Keys
    ensures TxInv(g, g, FootprintOf(ops), [])
  {
    ConfinedRefl(g, FootprintOf(ops));
  }

  lemma PostVerdict(g: Graph, cs: ChangeSet)
    ensures AllPassed(PostResults(g, cs, cs.postconditions)) <==> PostsHold(g, cs)
  {
    var r := PostResults(g, cs, cs.postconditions);
    if AllPassed(r) {
      forall c | c in cs.postconditions ensures PostHolds(g, cs, c) {
        var i :| 0 <= i < |cs.postconditions| && cs.postconditions[i] == c;
        assert r[i];
      }
    }
  }

  /** The forward half went through: every operation had its checked effect and every postcondition holds. */
  ghost predicate Succeeded(g: Graph, cs: ChangeSet, env: TxEnv, h: Graph, applied: seq<string>) {
    ExecOps(g, env, cs.operations) == Some(h) && PostsHold(h, cs) && applied == OpIds(cs.operations)
  }

  lemma SucceededShould(g: Graph, cs: ChangeSet, env: TxEnv, h: Graph, applied: seq<string>)
    requires Succeeded(g, cs, env, h, applied)
    ensures ShouldSucceed(g, cs, env)
  {
  }

  /** What a run without failing calls must do. */
  ghost predicate ShouldSucceed(g: Graph, cs: ChangeSet, env: TxEnv) {
    var h := ExecOps(g, env, cs.operations);
    h.Some? && PostsHold(h.value, cs)
  }
}
