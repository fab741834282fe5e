/** What every step of the system keeps, even while an outcome waits for the user. */
module ProtocolSteady {
  import opened Wrappers
  import opened Contracts
  import opened SceneGraph
  import opened Transactions
  import opened Preflight
  import opened Admission
  import opened ExecutorSpec
  import opened Pins
  import opened RepositorySpec
  import opened ServiceSpec
  import opened Runs
  import opened Protocol
  import opened ProtocolSafety
  import Coverage
  import Codec

  /** Transactions never change a stored ChangeSet, and only a proposal adds one. */
  lemma ActKeepsChanges(t: Tables, act: Act)
    ensures SameChanges(t.rows, Perform(t, act).0.rows)
    ensures forall id :: id in Perform(t, act).0.rows && id !in t.rows ==>
              act.DoPropose? && act.cs.changeId == id && Perform(t, act).0.rows[id].changeset == act.cs
  {
    hide Propose, Decide, BeginApply, CompleteApply, CompleteBootstrap, RecoverToApproved, RepositorySpec.RecoverCritical,
      SameChanges;
    match act {
      case DoPropose(cs, a) => ProposeChanges(t, cs, a);
      case DoDecide(id, digest, approve, now, binding) => DecideChanges(t, id, digest, approve, now, binding);
      case DoComplete(r) => CompleteChanges(t, r);
      case DoBootstrap(r, w) => BootstrapChanges(t, r, w);
      case _ => OneRowChanges(t, act);
    }
  }

  lemma ProposeChanges(t: Tables, cs: ChangeSet, a: Approval)
    ensures SameChanges(t.rows, Propose(t, cs, a).0.rows)
    ensures forall id :: id in Propose(t, cs, a).0.rows && id !in t.rows ==>
              cs.changeId == id && Propose(t, cs, a).0.rows[id].changeset == cs
  {
    hide ApprovalIdTaken;
  }

  /** Moving one row. */
  lemma MovedChanges(t: Tables, t': Tables, id: string, next: Lifecycle)
    requires id in t.rows && t'.rows == t.rows[id := t.rows[id].(state := next)]
    ensures SameChanges(t.rows, t'.rows) && t'.rows.Keys == t.rows.Keys
  {
  }

  lemma SelfChanges(t: Tables)
    ensures SameChanges(t.rows, t.rows)
  {
  }

  lemma DecideChanges(t: Tables, id: string, digest: Digest, approve: bool, now: int, binding: Option<Binding>)
    ensures SameChanges(t.rows, Decide(t, id, digest, approve, now, binding).0.rows)
    ensures Decide(t, id, digest, approve, now, binding).0.rows.Keys == t.rows.Keys
  {
    hide Decided, SameChanges;
    SelfChanges(t);
    var t' := Decide(t, id, digest, approve, now, binding).0;
    if t' != t { MovedChanges(t, t', id, t'.rows[id].state); }
  }

  lemma CompleteChanges(t: Tables, r: Receipt)
    ensures SameChanges(t.rows, CompleteApply(t, r).0.rows) && CompleteApply(t, r).0.rows.Keys == t.rows.Keys
  {
    hide ReadBack, BoundReceipt, SameChanges;
    SelfChanges(t);
    if CompleteApply(t, r).0 != t { MovedChanges(t, CompleteApply(t, r).0, r.changeId, StateForReceipt(r.status)); }
  }

  lemma BootstrapChanges(t: Tables, r: Receipt, w: Manifest)
    ensures SameChanges(t.rows, CompleteBootstrap(t, r, w).0.rows)
    ensures CompleteBootstrap(t, r, w).0.rows.Keys == t.rows.Keys
  {
    hide BootstrapBound, BootstrapStored, CreatedWorkspaces, SameChanges;
    SelfChanges(t);
    if CompleteBootstrap(t, r, w).0 != t {
      MovedChanges(t, CompleteBootstrap(t, r, w).0, r.changeId, Lifecycle.Applied);
    }
  }

  lemma OneRowChanges(t: Tables, act: Act)
    requires act.DoBegin? || act.DoRecoverApproved? || act.DoRecoverCritical?
    ensures SameChanges(t.rows, Perform(t, act).0.rows) && Perform(t, act).0.rows.Keys == t.rows.Keys
  {
    hide Decided, SameChanges;
    SelfChanges(t);
    var t' := Perform(t, act).0;
    if t' != t {
      MovedChanges(t, t', act.id, if act.DoBegin? then Lifecycle.Applying
                                  else if act.DoRecoverApproved? then Lifecycle.Approved else Lifecycle.Recovered);
    }
  }

  /** A change that has been begun stays so, unless a recovery gives it back. */
  lemma CommittedStays(t: Tables, act: Act, id: string)
    requires id in t.rows && Committed(t.rows[id].state)
    requires act.DoRecoverApproved? ==> act.id != id
    ensures id in Perform(t, act).0.rows && Committed(Perform(t, act).0.rows[id].state)
  {
    hide ReadBack, ApprovalIdTaken, BootstrapBound, BootstrapStored, BoundReceipt, CreatedWorkspaces, Decided;
  }

  /** The tables moved on: every begun change that the cache or the queue knows is still begun. */
  lemma SteadyTables(s: System, t': Tables, gone: set<string>)
    requires Steady(s) && SameChanges(s.tables.rows, t'.rows) && GoodRows(t')
    requires forall id :: id in s.tables.rows && Committed(s.tables.rows[id].state) && id !in gone ==>
               Committed(t'.rows[id].state)
    requires forall e :: e in s.bridge.cache ==> e.0.0 !in gone
    requires forall q :: q in s.queue ==> q.cs.changeId !in gone
    ensures Steady(s.(tables := t'))
  {
    hide Tree, GoodRows;
  }

  lemma GoodAfter(t: Tables, act: Act)
    requires GoodRows(t)
    requires act.DoPropose? ==> ValidChangeSet(act.cs) && Coverage.PostconditionsCovered(act.cs)
    ensures GoodRows(Perform(t, act).0)
  {
    hide ValidChangeSet, Coverage.PostconditionsCovered, Perform;
    ActKeepsChanges(t, act);
  }

  lemma ActSteady(s: System, act: Act)
    requires Steady(s) && !act.DoRecoverApproved?
    requires act.DoPropose? ==> ValidChangeSet(act.cs) && Coverage.PostconditionsCovered(act.cs)
    ensures Steady(s.(tables := Perform(s.tables, act).0))
  {
    hide Steady, Perform, ValidChangeSet, Coverage.PostconditionsCovered, GoodRows, SameChanges, Committed;
    SteadyParts(s);
    ActKeepsChanges(s.tables, act);
    GoodAfter(s.tables, act);
    forall id | id in s.tables.rows && Committed(s.tables.rows[id].state)
      ensures id in Perform(s.tables, act).0.rows && Committed(Perform(s.tables, act).0.rows[id].state)
    {
      CommittedStays(s.tables, act, id);
    }
    SteadyTables(s, Perform(s.tables, act).0, {});
  }

  lemma SteadyParts(s: System)
    requires Steady(s)
    ensures GoodRows(s.tables) && Tree(s.bridge.graph)
    ensures CacheKnown(s.tables, s.bridge.cache) && QueueKnown(s.tables, s.queue)
  {
  }

  /** Giving a change back to Approved: no receipt of it is cached, no request for it waits. */
  lemma BackSteady(s: System, id: string)
    requires Steady(s) && s.queue == [] && forall e :: e in s.bridge.cache ==> e.0.0 != id
    ensures Steady(s.(tables := Perform(s.tables, DoRecoverApproved(id)).0))
  {
    hide Steady, Perform, GoodRows, SameChanges, Committed;
    var act := DoRecoverApproved(id);
    SteadyParts(s);
    ActKeepsChanges(s.tables, act);
    GoodAfter(s.tables, act);
    forall k | k in s.tables.rows && Committed(s.tables.rows[k].state) && k !in {id}
      ensures k in Perform(s.tables, act).0.rows && Committed(Perform(s.tables, act).0.rows[k].state)
    {
      CommittedStays(s.tables, act, k);
    }
    SteadyTables(s, Perform(s.tables, act).0, {id});
  }

  lemma InboxSteady(s: System, inbox: Option<Receipt>)
    requires Steady(s)
    ensures Steady(s.(inbox := inbox))
  {
    hide GoodRows, Tree, CacheKnown, QueueKnown;
  }

  lemma BeginSteady(s: System, id: string, now: int, sent: bool, ws: Option<Manifest>)
    requires Steady(s) && JointInv(s.tables) && Start(s.tables, id, now).1.Ok?
    ensures var cs := s.tables.rows[id].changeset;
            Steady(s.(tables := Start(s.tables, id, now).0, inbox := None,
                      queue := if sent then s.queue + [Request(cs, ws)] else s.queue))
  {
    hide GoodRows, Tree, CacheKnown, JointInv, Start, Perform;
    var t' := Start(s.tables, id, now).0;
    StartShape(s.tables, id, now);
    StartIsBegin(s.tables, id, now);
    ActSteady(s, DoBegin(id, now));
    IdOf(s.tables, id);
    assert Steady(s.(tables := t'));
  }

  lemma StartIsBegin(t: Tables, id: string, now: int)
    requires Start(t, id, now).1.Ok?
    ensures Start(t, id, now).0 == Perform(t, DoBegin(id, now)).0
  {
    hide BeginApply;
  }

  /** A request leaves a tree behind and caches at most its own receipt. */
  lemma ExecutedSteady(setup: Setup, pre: BridgeState, post: BridgeState, cs: ChangeSet, ws: Option<Manifest>,
                       faulted: bool, reply: Reply)
    requires ValidChangeSet(cs) && Tree(pre.graph)
    requires ApplyOutcome(pre, post, setup.proc.binding, setup.proc.cacheMax, cs, ws, EnvOf(setup.proc.defaults, cs),
                          faulted, reply)
    ensures Tree(post.graph) && forall e :: e in post.cache ==> e in pre.cache || e.0 == (cs.changeId, cs)
  {
    hide AdmissionError, Confined, FootprintOf, Tree, PostsHold, CacheAdd, CreatedIdentity, ExecOps, DigestConflict;
    if reply.Replied? { CacheAdded(pre.cache, (cs.changeId, cs), reply.receipt, setup.proc.cacheMax); }
  }

  lemma ExecuteSteady(setup: Setup, s: System, s': System, faulted: bool, reply: Reply, arrives: bool)
    requires Steady(s) && Next(setup, s, Execute(faulted, reply, arrives), s')
    ensures Steady(s')
  {
    hide GoodRows, Tree, ApplyOutcome, Readable, ValidChangeSet;
    var q := s.queue[0];
    assert q in s.queue;
    ExecuteOnce(setup, s, s', faulted, reply, arrives);
    forall r | r in s'.queue ensures r in s.queue { }
  }

  lemma ExecuteOnce(setup: Setup, s: System, s': System, faulted: bool, reply: Reply, arrives: bool)
    requires Steady(s) && Next(setup, s, Execute(faulted, reply, arrives), s')
    ensures Tree(s'.bridge.graph)
    ensures forall e :: e in s'.bridge.cache ==> e in s.bridge.cache || e.0 == (s.queue[0].cs.changeId, s.queue[0].cs)
  {
    hide GoodRows, Tree, ApplyOutcome, Readable;
    ExecutedSteady(setup, s.bridge, s'.bridge, s.queue[0].cs, s.queue[0].ws, faulted, reply);
  }

  lemma ForgetSteady(s: System, cache: Cache, frozen: bool)
    requires Steady(s) && forall c :: c in cache ==> c in s.bridge.cache
    ensures Steady(s.(bridge := s.bridge.(cache := cache, frozen := frozen)))
  {
    hide GoodRows, Tree, QueueKnown;
  }

  lemma LoseSteady(s: System)
    requires Steady(s)
    ensures Steady(s.(queue := []))
  {
    hide GoodRows, Tree, CacheKnown;
  }

  /** The transaction of a manual exit, if it comes to one. */
  lemma ResolveIsAct(t: Tables, id: string, fa: FactsAnswer)
    ensures RecoverCriticalOne(t, id, fa).0 == t
            || (RecoverCriticalOne(t, id, fa).0 == Perform(t, DoRecoverCritical(id)).0
                && id in t.rows && t.rows[id].state == Lifecycle.CriticalRecovery)
  {
    hide JudgeCritical, StoredReceipt, WorkspaceFor, RepositorySpec.RecoverCritical;
  }

  lemma RecoverSteady(setup: Setup, s: System, s': System, id: string, ra: ReceiptAnswer, fa: FactsAnswer)
    requires Steady(s) && JointInv(s.tables) && Next(setup, s, Recover(id, ra, fa), s')
    ensures Steady(s')
  {
    hide Steady, JointInv, Perform, RecoverOne, Judge, Codec.ValidReceipt, HonestFacts, CompletionAct, CacheGet;
    var t := s.tables;
    InboxSteady(s, None);
    RecoveryIsAct(t, id, setup.factory, ra, fa);
    var act := RecoveryAct(t, id, setup.factory, ra, fa);
    if act.Some? {
      if act.value.DoRecoverApproved? {
        var cs, ws := t.rows[id].changeset, WorkspaceFor(t, t.rows[id].changeset).value;
        NotCompletion(cs, setup.factory, Judge(cs, ws, ra, fa));
        BackToApprovedIff(cs, ws, ra, fa);
        IdOf(t, id);
        SteadyParts(s);
        CachedFor(t, s.bridge.cache, id);
        BackSteady(s.(inbox := None), id);
      } else {
        RecoveryNotPropose(t, id, setup.factory, ra, fa);
        ActSteady(s.(inbox := None), act.value);
      }
    }
  }

  lemma NotCompletion(cs: ChangeSet, factory: ManifestFactory, v: Verdict)
    ensures v.Settle? ==> !CompletionAct(cs, v.receipt, factory).DoRecoverApproved?
  {
  }

  lemma RecoveryNotPropose(t: Tables, id: string, factory: ManifestFactory, ra: ReceiptAnswer, fa: FactsAnswer)
    ensures RecoveryAct(t, id, factory, ra, fa).Some? ==> !RecoveryAct(t, id, factory, ra, fa).value.DoPropose?
    ensures RecoveryAct(t, id, factory, ra, fa).Some? && RecoveryAct(t, id, factory, ra, fa).value.DoRecoverApproved? ==>
              RecoveryAct(t, id, factory, ra, fa).value.id == id
  {
    hide Judge, WorkspaceFor;
  }

  /** Every step keeps what is steady. */
  lemma NextSteady(setup: Setup, s: System, e: Protocol.Event, s': System)
    requires Steady(s) && JointInv(s.tables) && Next(setup, s, e, s')
    ensures Steady(s')
  {
    hide Steady, JointInv, Perform, ApplyOutcome, ValidChangeSet, Codec.ValidReceipt, Complete, RecoverOne, Start,
      Coverage.PostconditionsCovered, HonestFacts, HonestReceipt, RecoverCriticalOne, CompletionAct;
    match e {
      case Administer(act) => ActSteady(s, act);
      case Rebind(workspaces) => RebindSteady(s, workspaces);
      case Begin(id, now, sent) =>
        if Start(s.tables, id, now).1.Ok? {
          StartShape(s.tables, id, now);
          BeginSteady(s, id, now, sent, WorkspaceFor(s.tables, s.tables.rows[id].changeset).value);
        } else {
          StartRefused(s.tables, id, now);
        }
      case Execute(faulted, reply, arrives) => ExecuteSteady(setup, s, s', faulted, reply, arrives);
      case Deliver =>
        var cs := s.tables.rows[s.inbox.value.changeId].changeset;
        CompletionIsAct(s.tables, cs, s.inbox.value, setup.factory);
        PlainCompletion(cs, s.inbox.value, setup.factory);
        ActSteady(s, CompletionAct(cs, s.inbox.value, setup.factory));
        InboxSteady(s.(tables := s'.tables), None);
      case LoseReply => InboxSteady(s, None);
      case LoseRequests => LoseSteady(s);
      case Forget(cache, frozen) => ForgetSteady(s, cache, frozen);
      case Recover(id, ra, fa) => RecoverSteady(setup, s, s', id, ra, fa);
      case Resolve(id, fa) =>
        ResolveIsAct(s.tables, id, fa);
        ActSteady(s, DoRecoverCritical(id));
        InboxSteady(s.(tables := s'.tables), None);
    }
  }

  lemma PlainCompletion(cs: ChangeSet, r: Receipt, factory: ManifestFactory)
    ensures !CompletionAct(cs, r, factory).DoPropose? && !CompletionAct(cs, r, factory).DoRecoverApproved?
  {
  }

  lemma RebindSteady(s: System, workspaces: map<string, Manifest>)
    requires Steady(s)
    ensures Steady(s.(tables := s.tables.(workspaces := workspaces)))
  {
    hide Tree, ValidChangeSet, Coverage.PostconditionsCovered;
  }

  lemma StartRefused(t: Tables, id: string, now: int)
    requires Start(t, id, now).1.Err?
    ensures Start(t, id, now).0 == t
  {
  }
}
