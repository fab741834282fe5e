/** Receipts that cannot cross the wire: every failing receipt carries an error code, and the decoder refuses it. */
module Unreadable {
  import opened Wrappers
  import opened Contracts
  import opened Transactions
  import opened SceneGraph
  import opened Admission
  import opened Glances
  import opened LostWires
  import opened ExecutorSpec
  import opened Served
  import opened RepositorySpec
  import opened ServiceSpec
  import opened Protocol
  import opened ProtocolSafety
  import opened ProtocolSteady
  import opened ProtocolRuns
  import Codec
  import Coverage
  import SeenGate

  predicate OnlySuccessReadable(r: Receipt) {
    Readable(r) ==> StateForReceipt(r.status) == Lifecycle.Applied
  }

  ghost predicate WireInv(s: System) {
    && (forall e :: e in s.bridge.cache ==> OnlySuccessReadable(e.1))
    && (s.inbox.Some? ==> StateForReceipt(s.inbox.value.status) == Lifecycle.Applied)
    && (forall id :: id in s.tables.rows ==> s.tables.rows[id].state != Lifecycle.RolledBack)
  }

  lemma ExecutedReadable(setup: Setup, pre: BridgeState, post: BridgeState, cs: ChangeSet, ws: Option<Manifest>,
                         faulted: bool, reply: Reply)
    requires ValidChangeSet(cs) && forall e :: e in pre.cache ==> OnlySuccessReadable(e.1)
    requires ApplyOutcome(pre, post, setup.proc.binding, setup.proc.cacheMax, cs, ws, EnvOf(setup.proc.defaults, cs),
                          faulted, reply)
    ensures forall e :: e in post.cache ==> OnlySuccessReadable(e.1)
    ensures reply.Replied? ==> OnlySuccessReadable(reply.receipt)
  {
    hide AdmissionError, Confined, FootprintOf, Tree, PostsHold, CacheAdd, CreatedIdentity, ExecOps, DigestConflict,
      Codec.ValidReceipt;
    var key := (cs.changeId, cs);
    CacheGetIn(pre.cache, key);
    if reply.Replied? { CacheAdded(pre.cache, key, reply.receipt, setup.proc.cacheMax); }
  }

  /** A transaction other than a completion never reaches RolledBack; a completion reaches what its receipt says. */
  lemma RolledBackOnlyByReceipt(t: Tables, act: Act, id: string)
    requires id in Perform(t, act).0.rows && Perform(t, act).0.rows[id].state == Lifecycle.RolledBack
    ensures (id in t.rows && t.rows[id].state == Lifecycle.RolledBack)
            || (act.DoComplete? && StateForReceipt(act.receipt.status) == Lifecycle.RolledBack)
  {
    hide ReadBack, ApprovalIdTaken, BootstrapBound, BootstrapStored, BoundReceipt, CreatedWorkspaces;
  }

  lemma JudgedNotRolledBack(s: System, cs: ChangeSet, ws: Option<Manifest>, ra: ReceiptAnswer, fa: FactsAnswer)
    requires WireInv(s) && HonestReceipt(s, cs, ra) && Judge(cs, ws, ra, fa).Settle?
    ensures StateForReceipt(Judge(cs, ws, ra, fa).receipt.status) != Lifecycle.RolledBack
  {
    hide FactsMatch, LooksDone, Readable;
    CacheGetIn(s.bridge.cache, (cs.changeId, cs));
  }

  lemma NextKeepsWire(setup: Setup, s: System, e: Protocol.Event, s': System)
    requires WireInv(s) && Next(setup, s, e, s')
    ensures WireInv(s')
  {
    hide ApplyOutcome, Readable, Perform, Complete, RecoverOne, HonestReceipt, HonestFacts, ValidChangeSet, Start,
      Coverage.PostconditionsCovered, Codec.ValidReceipt, RecoverCriticalOne, OnlySuccessReadable, Judge;
    match e {
      case Administer(act) => NoneRolledBack(s.tables, act);
      case Begin(id, now, sent) => StartRows(s.tables, id, now);
      case Execute(faulted, reply, arrives) =>
        ExecutedReadable(setup, s.bridge, s'.bridge, s.queue[0].cs, s.queue[0].ws, faulted, reply);
        if s'.inbox.Some? { ReadableSucceeds(reply.receipt); }
      case Deliver =>
        var cs := s.tables.rows[s.inbox.value.changeId].changeset;
        CompletionIsAct(s.tables, cs, s.inbox.value, setup.factory);
        NoneRolledBack(s.tables, CompletionAct(cs, s.inbox.value, setup.factory));
      case Recover(id, ra, fa) =>
        RecoveryIsAct(s.tables, id, setup.factory, ra, fa);
        if RecoveryAct(s.tables, id, setup.factory, ra, fa).Some? {
          var cs := s.tables.rows[id].changeset;
          if Judge(cs, WorkspaceFor(s.tables, cs).value, ra, fa).Settle? {
            JudgedNotRolledBack(s, cs, WorkspaceFor(s.tables, cs).value, ra, fa);
          }
          NoneRolledBack(s.tables, RecoveryAct(s.tables, id, setup.factory, ra, fa).value);
        }
      case Resolve(id, fa) =>
        ResolveIsAct(s.tables, id, fa);
        NoneRolledBack(s.tables, DoRecoverCritical(id));
      case _ =>
    }
  }

  lemma ReadableSucceeds(r: Receipt)
    requires Readable(r) && OnlySuccessReadable(r)
    ensures StateForReceipt(r.status) == Lifecycle.Applied
  {
  }

  lemma NoneRolledBack(t: Tables, act: Act)
    requires forall id :: id in t.rows ==> t.rows[id].state != Lifecycle.RolledBack
    requires act.DoComplete? ==> StateForReceipt(act.receipt.status) != Lifecycle.RolledBack
    ensures forall id :: id in Perform(t, act).0.rows ==> Perform(t, act).0.rows[id].state != Lifecycle.RolledBack
  {
    hide Perform;
    forall id | id in Perform(t, act).0.rows ensures Perform(t, act).0.rows[id].state != Lifecycle.RolledBack {
      if Perform(t, act).0.rows[id].state == Lifecycle.RolledBack { RolledBackOnlyByReceipt(t, act, id); }
    }
  }

  lemma StartRows(t: Tables, id: string, now: int)
    requires forall k :: k in t.rows ==> t.rows[k].state != Lifecycle.RolledBack
    ensures forall k :: k in Start(t, id, now).0.rows ==> Start(t, id, now).0.rows[k].state != Lifecycle.RolledBack
  {
    hide BeginApply;
    assert Perform(t, DoBegin(id, now)) == BeginApply(t, id, now);
    NoneRolledBack(t, DoBegin(id, now));
  }

  /** In the system as deployed no change is ever recorded as RolledBack: the receipt of a clean rollback cannot be
      read by the service, which then records the outcome as critical. */
  lemma {:induction false} NeverRolledBack(setup: Setup, g0: Graph, states: seq<System>, events: seq<Protocol.Event>,
                                           k: nat)
    requires IsSystemRun(setup, g0, states, events) && k < |states|
    ensures WireInv(states[k])
    ensures forall id :: id in states[k].tables.rows ==> states[k].tables.rows[id].state != Lifecycle.RolledBack
  {
    hide Next, OnlySuccessReadable;
    if k > 0 {
      NeverRolledBack(setup, g0, states, events, k - 1);
      NextKeepsWire(setup, states[k - 1], events[k - 1], states[k]);
    }
  }

  /** A receipt query that gets through: looked up by the executor, encoded there and decoded here. What cannot be decoded
      is an invalid response, and that is no transient error. */
  function QueryAnswer(cache: Cache, binding: Binding, cs: ChangeSet): ReceiptAnswer {
    if binding.epoch != cs.binding.epoch || DigestConflict(cache, cs.changeId, cs) then Err(Permanent) else
    var cached := CacheGet(cache, (cs.changeId, cs));
    if cached.None? then Err(ReceiptUnavailable) else
    var decoded := Codec.DecodeReceipt(Codec.EncodeReceipt(cached.value));
    if decoded.Some? then Ok(decoded.value) else Err(Permanent)
  }

  lemma ServedIsCached(pre: BridgeState, post: BridgeState, binding: Binding, cacheMax: nat, cs: ChangeSet,
                       ws: Option<Manifest>, env: TxEnv, faulted: bool, misread: bool, sight: Sight, lost: Lost,
                       reply: Reply)
    requires ServedOutcome(pre, post, binding, cacheMax, cs, ws, env, faulted, misread, sight, lost, reply)
    requires CacheOk(pre.cache, cacheMax) && cacheMax > 0 && !pre.frozen
    requires CacheGet(pre.cache, (cs.changeId, cs)).None? && reply.Replied?
    ensures CacheGet(post.cache, (cs.changeId, cs)) == Some(reply.receipt) && CacheOk(post.cache, cacheMax)
    ensures reply.receipt.binding == cs.binding && reply.receipt.status != AlreadyApplied
    ensures reply.receipt.errorCode.None? <==> reply.receipt.status == ReceiptStatus.Applied
  {
    hide TxServed, SeenGate.SeenError, SeenGate.IdsTold, CacheAdd, CacheOk, DigestConflict, CacheGet;
    CacheStaysOk(pre.cache, (cs.changeId, cs), reply.receipt, cacheMax);
  }

  lemma NoConflict(cache: Cache, cs: ChangeSet, cacheMax: nat)
    requires CacheOk(cache, cacheMax) && CacheGet(cache, (cs.changeId, cs)).Some?
    ensures !DigestConflict(cache, cs.changeId, cs)
  {
    CacheGetIn(cache, (cs.changeId, cs));
    var k :| 0 <= k < |cache| && cache[k] == ((cs.changeId, cs), CacheGet(cache, (cs.changeId, cs)).value);
    forall e | e in cache && e.0.0 == cs.changeId ensures e.0.1 == cs {
      var j :| 0 <= j < |cache| && cache[j] == e;
      assert j == k;
    }
  }

  /** The receipt of a request that was just run is told to a recovery if and only if the change was applied; a failing
      one, a clean rollback included, reads as a permanent error. */
  lemma OnlyAppliedIsTold(pre: BridgeState, post: BridgeState, binding: Binding, cacheMax: nat, cs: ChangeSet,
                          ws: Option<Manifest>, env: TxEnv, faulted: bool, misread: bool, sight: Sight, lost: Lost,
                          reply: Reply)
    requires ServedOutcome(pre, post, binding, cacheMax, cs, ws, env, faulted, misread, sight, lost, reply)
    requires CacheOk(pre.cache, cacheMax) && cacheMax > 0 && !pre.frozen && binding == cs.binding
    requires CacheGet(pre.cache, (cs.changeId, cs)).None? && reply.Replied? && Codec.ValidReceipt(reply.receipt)
    ensures QueryAnswer(post.cache, binding, cs)
         == if reply.receipt.status == ReceiptStatus.Applied then Ok(reply.receipt) else Err(Permanent)
  {
    hide ServedOutcome, CacheOk, CacheGet, DigestConflict, Codec.ValidReceipt, Codec.EncodeReceipt, Codec.DecodeReceipt;
    ServedIsCached(pre, post, binding, cacheMax, cs, ws, env, faulted, misread, sight, lost, reply);
    NoConflict(post.cache, cs, cacheMax);
    Codec.ReceiptRoundTrip(reply.receipt);
  }

  /** So a recovery after a clean rollback makes the change critical. */
  lemma RollbackReadsAsCritical(pre: BridgeState, post: BridgeState, binding: Binding, cacheMax: nat, cs: ChangeSet,
                                ws: Option<Manifest>, env: TxEnv, faulted: bool, misread: bool, sight: Sight, lost: Lost,
                                reply: Reply, t: Tables, factory: ManifestFactory, fa: FactsAnswer)
    requires ServedOutcome(pre, post, binding, cacheMax, cs, ws, env, faulted, misread, sight, lost, reply)
    requires CacheOk(pre.cache, cacheMax) && cacheMax > 0 && !pre.frozen && binding == cs.binding
    requires CacheGet(pre.cache, (cs.changeId, cs)).None? && reply.Replied? && Codec.ValidReceipt(reply.receipt)
    requires reply.receipt.status == ReceiptStatus.RolledBack
    requires JointInv(t) && cs.changeId in t.rows && t.rows[cs.changeId] == Row(cs, Lifecycle.Applying)
    requires WorkspaceFor(t, cs).Ok? && factory(cs, CriticalReceipt(cs, None)).None?
    ensures var t' := RecoverOne(t, cs.changeId, factory, QueryAnswer(post.cache, binding, cs), fa).0;
            cs.changeId in t'.rows && t'.rows[cs.changeId].state == Lifecycle.CriticalRecovery
  {
    hide ServedOutcome, CacheOk, CacheGet, Codec.ValidReceipt, QueryAnswer, RecoverOne, JointInv;
    OnlyAppliedIsTold(pre, post, binding, cacheMax, cs, ws, env, faulted, misread, sight, lost, reply);
    PermanentIsCritical(t, cs.changeId, factory, fa);
  }

  lemma PermanentIsCritical(t: Tables, id: string, factory: ManifestFactory, fa: FactsAnswer)
    requires JointInv(t) && id in t.rows && t.rows[id].state == Lifecycle.Applying
    requires WorkspaceFor(t, t.rows[id].changeset).Ok?
    requires factory(t.rows[id].changeset, CriticalReceipt(t.rows[id].changeset, None)).None?
    ensures var t' := RecoverOne(t, id, factory, Err(Permanent), fa).0;
            id in t'.rows && t'.rows[id].state == Lifecycle.CriticalRecovery
  {
    hide ReadBack, Codec.ValidReceipt, BoundReceipt;
    IdOf(t, id);
    NoReceiptYet(t, id);
    CriticalFits(t.rows[id].changeset);
  }

  lemma CriticalFits(cs: ChangeSet)
    ensures BoundReceipt(cs, CriticalReceipt(cs, None))
  {
  }
}
