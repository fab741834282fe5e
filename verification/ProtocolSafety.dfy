/** Every step of the system keeps the scene accounted for by the event log. */
module ProtocolSafety {
  import opened Wrappers
  import opened Contracts
  import opened SceneGraph
  import opened Transactions
  import opened Preflight
  import opened Admission
  import opened ExecutorSpec
  import opened Pins
  import opened RepositorySpec
  import opened ServiceSpec
  import opened Runs
  import opened Protocol
  import Coverage
  import Codec

  // ---- the account -------------------------------------------------------

  predicate SameChanges(rows: map<string, Row>, rows': map<string, Row>) {
    forall id :: id in rows ==> id in rows' && rows'[id].changeset == rows[id].changeset
  }

  lemma {:induction false} AccountedSame(setup: Setup, g: Graph, rows: map<string, Row>, rows': map<string, Row>,
                                         events: seq<RepositorySpec.Event>)
    requires SameChanges(rows, rows') && LoggedKnown(rows, events)
    ensures Accounted(setup, g, rows', events) == Accounted(setup, g, rows, events)
  {
    hide EffectOf;
    if events != [] {
      var front, last := events[..|events| - 1], events[|events| - 1];
      assert last in events;
      AccountedSame(setup, g, rows, rows', front);
      if last.StateChanged? {
        SameEffect(setup, Accounted(setup, g, rows, front), rows, rows', last.changeId);
      }
    }
  }

  lemma SameEffect(setup: Setup, g: Graph, rows: map<string, Row>, rows': map<string, Row>, id: string)
    requires SameChanges(rows, rows') && id in rows
    ensures EffectOf(setup, g, rows', id) == EffectOf(setup, g, rows, id)
  {
  }

  predicate NothingApplied(events: seq<RepositorySpec.Event>) {
    forall e :: e in events && e.StateChanged? ==> e.next != Lifecycle.Applied
  }

  lemma {:induction false} AccountedQuiet(setup: Setup, g: Graph, rows: map<string, Row>,
                                          events: seq<RepositorySpec.Event>, later: seq<RepositorySpec.Event>)
    requires NothingApplied(later)
    ensures Accounted(setup, g, rows, events + later) == Accounted(setup, g, rows, events)
  {
    hide EffectOf;
    if later == [] {
      assert events + later == events;
    } else {
      var front, last := later[..|later| - 1], later[|later| - 1];
      assert last in later;
      AccountedQuiet(setup, g, rows, events, front);
      assert (events + later)[..|events + later| - 1] == events + front;
      assert (events + later)[|events + later| - 1] == last;
    }
  }

  lemma AccountedApplied(setup: Setup, g: Graph, rows: map<string, Row>, events: seq<RepositorySpec.Event>,
                         id: string, later: seq<RepositorySpec.Event>)
    requires NothingApplied(later)
    ensures Accounted(setup, g, rows, events + ([StateChanged(id, Lifecycle.Applying, Lifecycle.Applied)] + later))
         == EffectOf(setup, Accounted(setup, g, rows, events), rows, id)
  {
    hide EffectOf;
    var move := StateChanged(id, Lifecycle.Applying, Lifecycle.Applied);
    AccountedQuiet(setup, g, rows, events + [move], later);
    assert events + ([move] + later) == events + [move] + later;
    assert (events + [move])[..|events|] == events;
  }

  /** Events that report no application leave the account as it is. */
  lemma BaseQuiet(setup: Setup, acc: Account, t: Tables, t': Tables, more: seq<RepositorySpec.Event>)
    requires SameChanges(t.rows, t'.rows) && LoggedKnown(t.rows, t.events) && acc.from <= |t.events|
    requires t'.events == t.events + more && NothingApplied(more)
    ensures BaseOf(setup, acc, t') == BaseOf(setup, acc, t)
  {
    hide Accounted, NothingApplied;
    var since := t.events[acc.from..];
    assert t'.events[acc.from..] == since + more;
    assert LoggedKnown(t.rows, since);
    AccountedQuiet(setup, acc.scene, t'.rows, since, more);
    AccountedSame(setup, acc.scene, t.rows, t'.rows, since);
  }

  // ---- steps that leave the scene and its requests alone -----------------

  predicate SameFlight(t: Tables, t': Tables) {
    && SameChanges(t.rows, t'.rows)
    && (forall id :: id in t'.rows && t'.rows[id].state == Lifecycle.Applying ==>
          id in t.rows && t.rows[id].state == Lifecycle.Applying)
    && (forall id :: id in t.rows && t.rows[id].state == Lifecycle.Applying ==>
          t'.rows[id].state == Lifecycle.Applying)
    && (forall id :: id in t.rows && Committed(t.rows[id].state) ==> Committed(t'.rows[id].state))
  }

  lemma CarriedOver(setup: Setup, acc: Account, s: System, t': Tables, more: seq<RepositorySpec.Event>)
    requires Consistent(setup, acc, s) && SameFlight(s.tables, t') && GoodRows(t')
    requires t'.events == s.tables.events + more && NothingApplied(more) && LoggedKnown(t'.rows, t'.events)
    ensures Consistent(setup, acc, s.(tables := t'))
  {
    hide BaseOf, NothingApplied, InFlight, GoodRows, LoggedKnown, Tree;
    var t := s.tables;
    BaseQuiet(setup, acc, t, t', more);
    var base := BaseOf(setup, acc, t);
    forall id | id in t'.rows && t'.rows[id].state == Lifecycle.Applying
      ensures UniqueCreated(t'.rows[id].changeset.operations) && InFlight(setup, base, s.(tables := t'), id)
    {
      GoodRow(t', id);
      GoodRow(t, id);
      assert InFlight(setup, base, s, id);
      FlightKept(setup, base, s, t', id);
    }
  }

  lemma GoodRow(t: Tables, id: string)
    requires GoodRows(t) && id in t.rows
    ensures ValidChangeSet(t.rows[id].changeset) && Coverage.PostconditionsCovered(t.rows[id].changeset)
    ensures UniqueCreated(t.rows[id].changeset.operations)
  {
  }

  lemma FlightKept(setup: Setup, base: Graph, s: System, t': Tables, id: string)
    requires id in s.tables.rows && id in t'.rows && t'.rows[id].changeset == s.tables.rows[id].changeset
    requires UniqueCreated(t'.rows[id].changeset.operations) && InFlight(setup, base, s, id)
    ensures InFlight(setup, base, s.(tables := t'), id)
  {
    hide Truthful, Interrupted;
  }

  /** Moving a change that has not been begun to a state other than Applying. */
  lemma MovedFlight(t: Tables, t': Tables, id: string, next: Lifecycle)
    requires id in t.rows && t'.rows == t.rows[id := t.rows[id].(state := next)] && GoodRows(t)
    requires !Committed(t.rows[id].state) && next != Lifecycle.Applying
    ensures SameFlight(t, t') && GoodRows(t')
  {
    hide ValidChangeSet, Coverage.PostconditionsCovered;
  }

  lemma MovedKnown(t: Tables, t': Tables, id: string, next: Lifecycle, more: seq<RepositorySpec.Event>)
    requires id in t.rows && t'.rows == t.rows[id := t.rows[id].(state := next)] && LoggedKnown(t.rows, t.events)
    requires t'.events == t.events + more && forall e :: e in more && e.StateChanged? ==> e.changeId == id
    ensures LoggedKnown(t'.rows, t'.events)
  {
  }

  lemma ProposedKeeps(setup: Setup, acc: Account, s: System, cs: ChangeSet, a: Approval)
    requires Consistent(setup, acc, s) && ValidChangeSet(cs) && Coverage.PostconditionsCovered(cs)
    ensures Consistent(setup, acc, s.(tables := Propose(s.tables, cs, a).0))
  {
    hide ValidChangeSet, Coverage.PostconditionsCovered, BaseOf, ApprovalIdTaken, Consistent;
    var t, t' := s.tables, Propose(s.tables, cs, a).0;
    ConsistentRows(setup, acc, s);
    if t' != t {
      CarriedOver(setup, acc, s, t', [ChangeProposed(cs.changeId, Lifecycle.AwaitingApproval),
                                     ApprovalRequested(cs.changeId)]);
    }
  }

  lemma DecidedKeeps(setup: Setup, acc: Account, s: System, id: string, digest: Digest, approve: bool, now: int,
                     binding: Option<Binding>)
    requires Consistent(setup, acc, s)
    ensures Consistent(setup, acc, s.(tables := Decide(s.tables, id, digest, approve, now, binding).0))
  {
    hide GoodRows, LoggedKnown, SameFlight, Consistent, Decided;
    var t, t' := s.tables, Decide(s.tables, id, digest, approve, now, binding).0;
    ConsistentRows(setup, acc, s);
    if t' != t {
      var d := RepositorySpec.Outcome(t.approvals[id], approve, now);
      var more := [ApprovalDecided(id, d), StateChanged(id, Lifecycle.AwaitingApproval, StateForDecision(d))];
      MovedFlight(t, t', id, StateForDecision(d));
      MovedKnown(t, t', id, StateForDecision(d), more);
      CarriedOver(setup, acc, s, t', more);
    }
  }

  lemma RebindKeeps(setup: Setup, acc: Account, s: System, workspaces: map<string, Manifest>)
    requires Consistent(setup, acc, s)
    ensures Consistent(setup, acc, s.(tables := s.tables.(workspaces := workspaces)))
  {
    hide BaseOf, Consistent;
    ConsistentRows(setup, acc, s);
    CarriedOver(setup, acc, s, s.tables.(workspaces := workspaces), []);
  }

  lemma ConsistentRows(setup: Setup, acc: Account, s: System)
    requires Consistent(setup, acc, s)
    ensures GoodRows(s.tables) && LoggedKnown(s.tables.rows, s.tables.events)
  {
  }

  // ---- requests ----------------------------------------------------------

  predicate Idle(t: Tables) {
    forall id :: id in t.rows ==> t.rows[id].state != Lifecycle.Applying
  }

  /** What is known when a request is pending or a change is under way. */
  lemma UnderWay(setup: Setup, acc: Account, s: System, id: string)
    requires Consistent(setup, acc, s) && id in s.tables.rows && s.tables.rows[id].state == Lifecycle.Applying
    ensures UniqueCreated(s.tables.rows[id].changeset.operations)
    ensures InFlight(setup, BaseOf(setup, acc, s.tables), s, id)
    ensures Tree(BaseOf(setup, acc, s.tables)) && Tree(s.bridge.graph)
  {
    hide BaseOf, InFlight, Tree;
    GoodRow(s.tables, id);
  }

  /** Rebuilds consistency while one change is under way. */
  lemma StillUnderWay(setup: Setup, acc: Account, s: System, s': System, id: string)
    requires Consistent(setup, acc, s) && SingleFlight(s.tables) && s'.tables == s.tables
    requires id in s.tables.rows && s.tables.rows[id].state == Lifecycle.Applying
    requires UniqueCreated(s.tables.rows[id].changeset.operations)
    requires InFlight(setup, BaseOf(setup, acc, s.tables), s', id)
    requires Tree(s'.bridge.graph) && CacheKnown(s.tables, s'.bridge.cache)
    ensures Consistent(setup, acc, s')
  {
    hide BaseOf, InFlight, Tree, GoodRows, LoggedKnown, CacheKnown;
  }

  /** A change that may begin: nothing else is under way, and it becomes the one that is. */
  lemma StartShape(t: Tables, id: string, now: int)
    requires Start(t, id, now).1.Ok?
    ensures var t' := Start(t, id, now).0;
            && Idle(t) && id in t.rows && t.rows[id].state == Lifecycle.Approved
            && t'.rows == t.rows[id := t.rows[id].(state := Lifecycle.Applying)]
            && t'.events == t.events + [StateChanged(id, Lifecycle.Approved, Lifecycle.Applying)]
            && forall k :: k in t'.rows && t'.rows[k].state == Lifecycle.Applying ==> k == id
  {
  }

  lemma BeginKeepsScene(setup: Setup, acc: Account, s: System, id: string, now: int, sent: bool, ws: Option<Manifest>)
    requires Consistent(setup, acc, s) && Start(s.tables, id, now).1.Ok?
    ensures var cs := s.tables.rows[id].changeset;
            Consistent(setup, acc, s.(tables := Start(s.tables, id, now).0, inbox := None,
                                     queue := if sent then s.queue + [Request(cs, ws)] else s.queue))
  {
    hide BaseOf, Tree, NothingApplied, GoodRows, LoggedKnown, InFlight, Start;
    var t, t' := s.tables, Start(s.tables, id, now).0;
    StartShape(t, id, now);
    var cs := t.rows[id].changeset;
    var s' := s.(tables := t', inbox := None, queue := if sent then s.queue + [Request(cs, ws)] else s.queue);
    var base, more := BaseOf(setup, acc, t), [StateChanged(id, Lifecycle.Approved, Lifecycle.Applying)];
    BeginQuiet(id);
    MovedKnown(t, t', id, Lifecycle.Applying, more);
    StillGood(t, t', id, Lifecycle.Applying);
    GoodRow(t', id);
    BaseQuiet(setup, acc, t, t', more);
    forall e | e in s.bridge.cache ensures e.0.0 != id {
      assert Committed(t.rows[e.0.0].state);
    }
    FreshFlight(setup, base, s', id, ws);
  }

  lemma StillGood(t: Tables, t': Tables, id: string, next: Lifecycle)
    requires GoodRows(t) && id in t.rows && t'.rows == t.rows[id := t.rows[id].(state := next)]
    ensures GoodRows(t')
  {
    hide ValidChangeSet, Coverage.PostconditionsCovered;
  }

  /** A change whose request has not run. */
  lemma FreshFlight(setup: Setup, base: Graph, s: System, id: string, ws: Option<Manifest>)
    requires id in s.tables.rows && UniqueCreated(s.tables.rows[id].changeset.operations)
    requires s.queue == [] || s.queue == [Request(s.tables.rows[id].changeset, ws)]
    requires s.bridge.graph == base && s.inbox.None? && forall e :: e in s.bridge.cache ==> e.0.0 != id
    ensures InFlight(setup, base, s, id)
  {
  }

  lemma BeginQuiet(id: string)
    ensures NothingApplied([StateChanged(id, Lifecycle.Approved, Lifecycle.Applying)])
  {
  }

  lemma LoseRequestsKeeps(setup: Setup, acc: Account, s: System)
    requires Consistent(setup, acc, s)
    ensures Consistent(setup, acc, s.(queue := []))
  {
    hide BaseOf, Tree, GoodRows, LoggedKnown, CacheKnown, Truthful;
  }

  lemma LoseReplyKeeps(setup: Setup, acc: Account, s: System)
    requires Consistent(setup, acc, s)
    ensures Consistent(setup, acc, s.(inbox := None))
  {
    hide BaseOf, Tree, GoodRows, LoggedKnown, CacheKnown, Truthful, Interrupted;
  }

  lemma ForgetKeeps(setup: Setup, acc: Account, s: System, cache: Cache, frozen: bool)
    requires Consistent(setup, acc, s) && forall c :: c in cache ==> c in s.bridge.cache
    ensures Consistent(setup, acc, s.(bridge := s.bridge.(cache := cache, frozen := frozen)))
  {
    hide BaseOf, Tree, GoodRows, LoggedKnown, Truthful, Interrupted;
  }

  // ---- the bridge runs a request -----------------------------------------

  lemma NotCached(cache: Cache, key: CacheKey)
    requires forall e :: e in cache ==> e.0.0 != key.0
    ensures CacheGet(cache, key).None? && !DigestConflict(cache, key.0, key.1)
  {
    CacheGetIn(cache, key);
  }

  lemma CacheAdded(cache: Cache, key: CacheKey, r: Receipt, cacheMax: nat)
    ensures forall e :: e in CacheAdd(cache, key, r, cacheMax) ==> e in cache || e == (key, r)
  {
  }

  /** One execution of a request that has not run: the scene stays reachable and the receipt tells the truth. */
  lemma Executed(setup: Setup, pre: BridgeState, post: BridgeState, cs: ChangeSet, ws: Option<Manifest>,
                 faulted: bool, reply: Reply)
    requires ValidChangeSet(cs) && Tree(pre.graph) && forall e :: e in pre.cache ==> e.0.0 != cs.changeId
    requires ApplyOutcome(pre, post, setup.proc.binding, setup.proc.cacheMax, cs, ws, EnvOf(setup.proc.defaults, cs),
                          faulted, reply)
    ensures Tree(post.graph) && Interrupted(pre.graph, post.graph, setup.proc.binding, cs)
    ensures reply.Replied? ==> reply.receipt.changeId == cs.changeId
                               && Truthful(setup, pre.graph, post.graph, cs, reply.receipt)
    ensures forall e :: e in post.cache ==> e in pre.cache || (reply.Replied? && e == ((cs.changeId, cs), reply.receipt))
  {
    hide AdmissionError, Confined, FootprintOf, Tree, PostsHold, CacheAdd, CreatedIdentity, ExecOps, DigestConflict;
    var env := EnvOf(setup.proc.defaults, cs);
    NotCached(pre.cache, (cs.changeId, cs));
    if reply.Replied? {
      assert Admitted(pre.graph, setup.proc.binding, cs, ws);
      CacheAdded(pre.cache, (cs.changeId, cs), reply.receipt, setup.proc.cacheMax);
      if reply.receipt.status == ReceiptStatus.Applied { ExecIsWrite(pre.graph, env, cs.operations); }
    }
  }

  lemma IdOf(t: Tables, id: string)
    requires JointInv(t) && id in t.rows
    ensures t.rows[id].changeset.changeId == id
  {
    assert RowOk(t, id);
  }

  lemma ExecuteKeeps(setup: Setup, acc: Account, s: System, s': System, faulted: bool, reply: Reply, arrives: bool)
    requires Consistent(setup, acc, s) && SingleFlight(s.tables) && JointInv(s.tables)
    requires Next(setup, s, Execute(faulted, reply, arrives), s')
    ensures Consistent(setup, acc, s')
  {
    hide BaseOf, Tree, GoodRows, LoggedKnown, Truthful, Interrupted, ApplyOutcome, Readable, SingleFlight, JointInv;
    var t := s.tables;
    assert !Idle(t);
    var id :| id in t.rows && t.rows[id].state == Lifecycle.Applying;
    var base := BaseOf(setup, acc, t);
    UnderWay(setup, acc, s, id);
    var cs, ws := s.queue[0].cs, s.queue[0].ws;
    assert cs == t.rows[id].changeset;
    IdOf(t, id);
    Executed(setup, s.bridge, s'.bridge, cs, ws, faulted, reply);
    assert InFlight(setup, base, s', id);
    StillUnderWay(setup, acc, s, s', id);
  }

  // ---- a change is settled -----------------------------------------------

  /** A completion either stores nothing or moves the change to the state of its receipt. */
  lemma CompletionShape(t: Tables, cs: ChangeSet, r: Receipt, factory: ManifestFactory)
    returns (later: seq<RepositorySpec.Event>)
    requires JointInv(t) && r.changeId in t.rows && t.rows[r.changeId].state == Lifecycle.Applying
    ensures var t', next := Complete(t, cs, r, factory).0, StateForReceipt(r.status);
            t' == t || (t'.rows == t.rows[r.changeId := t.rows[r.changeId].(state := next)]
                        && t'.events == t.events + ([StateChanged(r.changeId, Lifecycle.Applying, next)] + later))
    ensures NothingApplied(later) && forall e :: e in later ==> !e.StateChanged?
  {
    hide ReadBack, BootstrapBound, CreatedWorkspaces, JointInv, RowOk;
    RowOf(t, r.changeId);
    NoReceiptYet(t, r.changeId);
    var w, reported := factory(cs, r), OutcomeReported(r.changeId, r.status);
    later := if w.Some? then [reported, WorkspaceCreated(w.value.workspaceId)] else [reported];
    var t', next := Complete(t, cs, r, factory).0, StateForReceipt(r.status);
    if t' != t {
      var move := StateChanged(r.changeId, Lifecycle.Applying, next);
      if w.Some? {
        assert [move] + later == [move, reported, WorkspaceCreated(w.value.workspaceId)];
      } else {
        assert [move] + later == [move, reported];
      }
    }
  }

  lemma NoReceiptYet(t: Tables, id: string)
    requires JointInv(t) && id in t.rows && t.rows[id].state == Lifecycle.Applying
    ensures id !in t.receipts
  {
    assert RowOk(t, id);
  }

  /** Nothing under way, no requests, and the scene is the accounted one. */
  lemma Rested(setup: Setup, acc: Account, s: System)
    requires GoodRows(s.tables) && LoggedKnown(s.tables.rows, s.tables.events)
    requires Tree(s.bridge.graph) && CacheKnown(s.tables, s.bridge.cache) && Idle(s.tables)
    requires s.bridge.graph == BaseOf(setup, acc, s.tables)
    requires s.queue == [] && s.inbox.None? && acc.from <= |s.tables.events|
    ensures Consistent(setup, acc, s)
  {
    hide BaseOf, Tree, GoodRows, LoggedKnown, CacheKnown, InFlight;
  }

  /** The last change under way left the state Applying. */
  lemma NowIdle(t: Tables, t': Tables, id: string, next: Lifecycle)
    requires SingleFlight(t) && id in t.rows && t.rows[id].state == Lifecycle.Applying && next != Lifecycle.Applying
    requires t'.rows == t.rows[id := t.rows[id].(state := next)]
    ensures Idle(t')
  {
  }

  lemma CacheStillKnown(t: Tables, t': Tables, id: string, next: Lifecycle, cache: Cache)
    requires CacheKnown(t, cache) && id in t.rows && t'.rows == t.rows[id := t.rows[id].(state := next)]
    requires Committed(next) || forall e :: e in cache ==> e.0.0 != id
    ensures CacheKnown(t', cache)
  {
  }

  lemma SettledAccount(setup: Setup, acc: Account, t: Tables, t': Tables, id: string, next: Lifecycle,
                       later: seq<RepositorySpec.Event>)
    requires LoggedKnown(t.rows, t.events) && id in t.rows && NothingApplied(later) && acc.from <= |t.events|
    requires UniqueCreated(t.rows[id].changeset.operations)
    requires t'.rows == t.rows[id := t.rows[id].(state := next)]
    requires t'.events == t.events + ([StateChanged(id, Lifecycle.Applying, next)] + later)
    ensures next == Lifecycle.Applied ==>
              BaseOf(setup, acc, t') == Writes(BaseOf(setup, acc, t), EnvOf(setup.proc.defaults, t.rows[id].changeset),
                                               t.rows[id].changeset.operations)
    ensures next != Lifecycle.Applied ==> BaseOf(setup, acc, t') == BaseOf(setup, acc, t)
  {
    hide Accounted, Writes, CreatedIdentity;
    var since, more := t.events[acc.from..], [StateChanged(id, Lifecycle.Applying, next)] + later;
    assert t'.events[acc.from..] == since + more;
    assert LoggedKnown(t.rows, since);
    AccountedSame(setup, acc.scene, t.rows, t'.rows, since);
    if next == Lifecycle.Applied {
      AccountedApplied(setup, acc.scene, t'.rows, since, id, later);
    } else {
      AccountedQuiet(setup, acc.scene, t'.rows, since, more);
    }
  }

  /** Settling the change under way, on a receipt that agrees with the scene. */
  lemma CompletedKeeps(setup: Setup, acc: Account, s: System, r: Receipt)
    requires Consistent(setup, acc, s) && JointInv(s.tables) && SingleFlight(s.tables)
    requires r.changeId in s.tables.rows && s.tables.rows[r.changeId].state == Lifecycle.Applying
    requires s.queue == [] || StateForReceipt(r.status) == Lifecycle.CriticalRecovery
    requires var cs := s.tables.rows[r.changeId].changeset;
             var base, next := BaseOf(setup, acc, s.tables), StateForReceipt(r.status);
             && UniqueCreated(cs.operations)
             && (next == Lifecycle.Applied ==>
                   s.bridge.graph == Writes(base, EnvOf(setup.proc.defaults, cs), cs.operations))
             && (next == Lifecycle.RolledBack ==> s.bridge.graph == base)
    ensures var cs := s.tables.rows[r.changeId].changeset;
            var s' := s.(tables := Complete(s.tables, cs, r, setup.factory).0, inbox := None);
            Critical(s'.tables) || Consistent(setup, acc, s')
  {
    hide BaseOf, Complete, Consistent, GoodRows, LoggedKnown, JointInv, SingleFlight, CacheKnown, NothingApplied,
      Writes, CreatedIdentity, Tree, Idle;
    var t, id, next := s.tables, r.changeId, StateForReceipt(r.status);
    var cs := t.rows[id].changeset;
    var t' := Complete(t, cs, r, setup.factory).0;
    var later := CompletionShape(t, cs, r, setup.factory);
    if t' == t {
      LoseReplyKeeps(setup, acc, s);
    } else if next == Lifecycle.CriticalRecovery {
      assert t'.rows[id].state == next;
    } else {
      ConsistentParts(setup, acc, s);
      SettledAccount(setup, acc, t, t', id, next, later);
      MovedKnown(t, t', id, next, [StateChanged(id, Lifecycle.Applying, next)] + later);
      StillGood(t, t', id, next);
      NowIdle(t, t', id, next);
      CacheStillKnown(t, t', id, next, s.bridge.cache);
      Rested(setup, acc, s.(tables := t', inbox := None));
    }
  }

  lemma ConsistentParts(setup: Setup, acc: Account, s: System)
    requires Consistent(setup, acc, s)
    ensures GoodRows(s.tables) && LoggedKnown(s.tables.rows, s.tables.events) && Tree(s.bridge.graph)
    ensures CacheKnown(s.tables, s.bridge.cache) && acc.from <= |s.tables.events|
  {
    hide BaseOf, InFlight, GoodRows, LoggedKnown, Tree, CacheKnown;
  }

  lemma DeliverKeeps(setup: Setup, acc: Account, s: System, s': System)
    requires Consistent(setup, acc, s) && JointInv(s.tables) && SingleFlight(s.tables)
    requires Next(setup, s, Deliver, s')
    ensures Critical(s'.tables) || Consistent(setup, acc, s')
  {
    hide BaseOf, Tree, GoodRows, LoggedKnown, Interrupted, Complete, SingleFlight, JointInv, CacheKnown, Critical,
      Writes, CreatedIdentity;
    var t, r := s.tables, s.inbox.value;
    assert !Idle(t);
    var id :| id in t.rows && t.rows[id].state == Lifecycle.Applying;
    UnderWay(setup, acc, s, id);
    CompletedKeeps(setup, acc, s, r);
  }

  // ---- recovery ----------------------------------------------------------

  /** Passing preconditions say that the interrupted change left nothing behind. */
  lemma NothingLeft(setup: Setup, base: Graph, g: Graph, cs: ChangeSet, ws: Option<Manifest>)
    requires ValidChangeSet(cs) && Tree(base) && Tree(g) && Interrupted(base, g, setup.proc.binding, cs)
    requires Passes(g, setup.proc.binding, cs, ws)
    ensures g == base
  {
    hide Passes, Admitted, Confined, FootprintOf, Tree, ValidChangeSet;
    if g != base {
      var ws0 :| Admitted(base, setup.proc.binding, cs, ws0) && Confined(base, g, FootprintOf(cs.operations));
      PreconditionsPin(base, g, setup.proc.binding, cs, ws0, ws);
    }
  }

  /** Passing postconditions say that the scene is the one after all of its writes. */
  lemma AllThere(setup: Setup, base: Graph, g: Graph, cs: ChangeSet, ws: Option<Manifest>)
    requires ValidChangeSet(cs) && Coverage.PostconditionsCovered(cs)
    requires Tree(base) && Tree(g) && Interrupted(base, g, setup.proc.binding, cs)
    requires Run(g, setup.proc.binding, cs, ws).Known?
    requires ServicePostsHold(Run(g, setup.proc.binding, cs, ws).facts, cs)
    ensures g == Writes(base, EnvOf(setup.proc.defaults, cs), cs.operations)
  {
    hide Run, Admitted, Confined, FootprintOf, Tree, Coverage.PostconditionsCovered, ServicePostsHold, UniqueRefs,
      ConsistentConditions, CreatedReferencesOk;
    var env := EnvOf(setup.proc.defaults, cs);
    if g == base {
      PostconditionsPin(g, setup.proc.binding, cs, ws, env);
    } else {
      var ws0 :| Admitted(base, setup.proc.binding, cs, ws0) && Confined(base, g, FootprintOf(cs.operations));
      PostconditionsPinAfter(base, g, setup.proc.binding, cs, ws0, ws, env);
    }
  }

  lemma CachedFor(t: Tables, cache: Cache, id: string)
    requires CacheKnown(t, cache) && id in t.rows && t.rows[id].changeset.changeId == id
    ensures var key := (id, t.rows[id].changeset);
            && (CacheGet(cache, key).None? ==> forall e :: e in cache ==> e.0.0 != id)
            && (CacheGet(cache, key).Some? ==> exists e :: e in cache && e == (key, CacheGet(cache, key).value))
  {
    CacheGetIn(cache, (id, t.rows[id].changeset));
  }

  lemma HonestPasses(setup: Setup, s: System, cs: ChangeSet, ws: Option<Manifest>, fa: FactsAnswer)
    requires HonestFacts(setup, s, cs, ws, fa) && fa.Ok? && fa.value.allHold
    ensures Passes(s.bridge.graph, setup.proc.binding, cs, ws)
  {
    hide Run;
  }

  lemma BackKeeps(setup: Setup, acc: Account, s: System, id: string, ws: Option<Manifest>, ra: ReceiptAnswer,
                  fa: FactsAnswer)
    requires Consistent(setup, acc, s) && JointInv(s.tables) && SingleFlight(s.tables)
    requires id in s.tables.rows && s.tables.rows[id].state == Lifecycle.Applying
    requires HonestReceipt(s, s.tables.rows[id].changeset, ra)
    requires HonestFacts(setup, s, s.tables.rows[id].changeset, ws, fa)
    requires Judge(s.tables.rows[id].changeset, ws, ra, fa).BackToApproved?
    ensures Consistent(setup, acc, s.(tables := RecoverToApproved(s.tables, id).0, inbox := None))
  {
    hide BaseOf, Consistent, GoodRows, LoggedKnown, JointInv, SingleFlight, CacheKnown, NothingApplied,
      Writes, CreatedIdentity, Tree, Idle, HonestFacts, CacheGet, Interrupted, FactsMatch, Truthful, ValidChangeSet;
    var t, t', cs := s.tables, RecoverToApproved(s.tables, id).0, s.tables.rows[id].changeset;
    BackToApprovedIff(cs, ws, ra, fa);
    ConsistentParts(setup, acc, s);
    GoodRow(t, id);
    IdOf(t, id);
    UnderWay(setup, acc, s, id);
    HonestPasses(setup, s, cs, ws, fa);
    NothingLeft(setup, BaseOf(setup, acc, t), s.bridge.graph, cs, ws);
    CachedFor(t, s.bridge.cache, id);
    if t' == t {
      LoseReplyKeeps(setup, acc, s);
    } else {
      var more := [StateChanged(id, Lifecycle.Applying, Lifecycle.Approved)];
      NothingMore();
      SettledAccount(setup, acc, t, t', id, Lifecycle.Approved, []);
      MovedKnown(t, t', id, Lifecycle.Approved, more);
      StillGood(t, t', id, Lifecycle.Approved);
      NowIdle(t, t', id, Lifecycle.Approved);
      CacheStillKnown(t, t', id, Lifecycle.Approved, s.bridge.cache);
      Rested(setup, acc, s.(tables := t', inbox := None));
    }
  }

  lemma NothingMore()
    ensures NothingApplied([])
  {
  }

  /** A recovery that settles the change says what the scene shows. */
  lemma SettlesTruly(setup: Setup, base: Graph, s: System, id: string, ws: Option<Manifest>, ra: ReceiptAnswer,
                     fa: FactsAnswer)
    requires id in s.tables.rows && s.tables.rows[id].changeset.changeId == id && CacheKnown(s.tables, s.bridge.cache)
    requires ValidChangeSet(s.tables.rows[id].changeset) && Coverage.PostconditionsCovered(s.tables.rows[id].changeset)
    requires InFlight(setup, base, s, id) && Tree(base) && Tree(s.bridge.graph)
    requires HonestReceipt(s, s.tables.rows[id].changeset, ra)
    requires HonestFacts(setup, s, s.tables.rows[id].changeset, ws, fa)
    requires Judge(s.tables.rows[id].changeset, ws, ra, fa).Settle?
    ensures var cs := s.tables.rows[id].changeset;
            var next := StateForReceipt(Judge(cs, ws, ra, fa).receipt.status);
            && (next == Lifecycle.CriticalRecovery || s.queue == [])
            && (next == Lifecycle.Applied ==>
                  s.bridge.graph == Writes(base, EnvOf(setup.proc.defaults, cs), cs.operations))
            && (next == Lifecycle.RolledBack ==> s.bridge.graph == base)
  {
    hide Run, Interrupted, FactsMatch, ValidChangeSet, Coverage.PostconditionsCovered, Tree, CacheGet, ServicePostsHold,
      Writes, CreatedIdentity, Codec.ValidReceipt;
    var cs := s.tables.rows[id].changeset;
    CachedFor(s.tables, s.bridge.cache, id);
    if ra.Err? && fa.Ok? && LooksDone(cs, fa.value) && s.queue == [] {
      AllThere(setup, base, s.bridge.graph, cs, ws);
    }
  }

  lemma RecoverKeeps(setup: Setup, acc: Account, s: System, s': System, id: string, ra: ReceiptAnswer, fa: FactsAnswer)
    requires Consistent(setup, acc, s) && JointInv(s.tables) && SingleFlight(s.tables)
    requires Next(setup, s, Recover(id, ra, fa), s')
    ensures Critical(s'.tables) || Consistent(setup, acc, s')
  {
    hide BaseOf, GoodRows, LoggedKnown, JointInv, SingleFlight, CacheKnown, Consistent, Judge, Complete, Critical,
      Writes, CreatedIdentity, Tree, HonestFacts, HonestReceipt, InFlight, Codec.ValidReceipt, RecoverToApproved;
    var t := s.tables;
    LoseReplyKeeps(setup, acc, s);
    if id in t.rows && t.rows[id].state == Lifecycle.Applying && WorkspaceFor(t, t.rows[id].changeset).Ok? {
      var cs, ws := t.rows[id].changeset, WorkspaceFor(t, t.rows[id].changeset).value;
      var base := BaseOf(setup, acc, t);
      ConsistentParts(setup, acc, s);
      GoodRow(t, id);
      IdOf(t, id);
      UnderWay(setup, acc, s, id);
      match Judge(cs, ws, ra, fa) {
        case Wait =>
        case BackToApproved => BackKeeps(setup, acc, s, id, ws, ra, fa);
        case Settle(r) =>
          SettlesThis(cs, ws, ra, fa);
          SettlesTruly(setup, base, s, id, ws, ra, fa);
          CompletedKeeps(setup, acc, s, r);
      }
    }
  }
}
