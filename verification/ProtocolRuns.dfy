/** Every run of the whole system: what the tables say is what the scene holds. */
module ProtocolRuns {
  import opened Wrappers
  import opened Contracts
  import opened SceneGraph
  import opened Transactions
  import opened Preflight
  import opened Admission
  import opened ExecutorSpec
  import opened Pins
  import opened RepositorySpec
  import opened ServiceSpec
  import opened Runs
  import opened Protocol
  import opened ProtocolSafety
  import opened ProtocolSteady
  import Coverage
  import Codec

  // ---- every step --------------------------------------------------------

  /** What was left to the user stays on record. */
  lemma UnresolvedStays(t: Tables, act: Act)
    requires Unresolved(t)
    ensures Unresolved(Perform(t, act).0)
  {
    hide ReadBack, ApprovalIdTaken, BootstrapBound, BootstrapStored, BoundReceipt, CreatedWorkspaces;
    var id :| id in t.rows && t.rows[id].state in {Lifecycle.CriticalRecovery, Lifecycle.Recovered};
    var t' := Perform(t, act).0;
    assert id in t'.rows && t'.rows[id].state in {Lifecycle.CriticalRecovery, Lifecycle.Recovered};
  }

  /** What every transaction keeps, whether or not it begins an apply. */
  ghost predicate TablesInv(t: Tables) {
    JointInv(t) && LogInv(t) && SingleFlight(t)
  }

  lemma ActKeepsTables(t: Tables, act: Act)
    requires TablesInv(t) && ValidAct(act) && !act.DoBegin?
    ensures TablesInv(Perform(t, act).0) && (Unresolved(t) ==> Unresolved(Perform(t, act).0))
  {
    hide JointInv, LogInv, SingleFlight, Perform, Unresolved;
    PerformKeeps(t, act);
    PerformLogs(t, act);
    OthersKeepSingleFlight(t, act);
    if Unresolved(t) { UnresolvedStays(t, act); }
  }

  lemma StartKeepsTables(t: Tables, id: string, now: int)
    requires TablesInv(t)
    ensures TablesInv(Start(t, id, now).0) && (Unresolved(t) ==> Unresolved(Start(t, id, now).0))
  {
    hide JointInv, LogInv, SingleFlight, BeginApply, Unresolved, WriteAvailable;
    var act := DoBegin(id, now);
    assert Perform(t, act) == BeginApply(t, id, now);
    PerformKeeps(t, act);
    PerformLogs(t, act);
    StartKeepsSingleFlight(t, id, now);
    if Unresolved(t) { UnresolvedStays(t, act); }
  }

  lemma NextKeepsTables(setup: Setup, s: System, e: Protocol.Event, s': System)
    requires TablesInv(s.tables) && Next(setup, s, e, s')
    ensures TablesInv(s'.tables) && (Unresolved(s.tables) ==> Unresolved(s'.tables))
  {
    hide JointInv, LogInv, SingleFlight, Perform, Unresolved, Start, ApplyOutcome, TablesInv, ValidChangeSet,
      Codec.ValidReceipt, Complete, RecoverOne, RecoverCriticalOne, Coverage.PostconditionsCovered, HonestFacts,
      HonestReceipt;
    match e {
      case Administer(act) => ActKeepsTables(s.tables, act);
      case Rebind(workspaces) => RebindTables(s.tables, workspaces);
      case Begin(id, now, sent) => StartKeepsTables(s.tables, id, now);
      case Deliver =>
        var cs := s.tables.rows[s.inbox.value.changeId].changeset;
        CompletionIsAct(s.tables, cs, s.inbox.value, setup.factory);
        ActKeepsTables(s.tables, CompletionAct(cs, s.inbox.value, setup.factory));
      case Recover(id, ra, fa) => RecoverKeepsTables(s.tables, id, setup.factory, ra, fa);
      case Resolve(id, fa) =>
        ResolveIsAct(s.tables, id, fa);
        ActKeepsTables(s.tables, DoRecoverCritical(id));
      case _ =>
    }
  }

  lemma RebindTables(t: Tables, workspaces: map<string, Manifest>)
    requires TablesInv(t)
    ensures TablesInv(t.(workspaces := workspaces))
    ensures Unresolved(t) ==> Unresolved(t.(workspaces := workspaces))
  {
    hide Codec.ValidReceipt, ApprovalOk, ReceiptAgrees, BoundReceipt;
    var t' := t.(workspaces := workspaces);
    forall id | id in t'.rows ensures RowOk(t', id) { assert RowOk(t, id); }
    SameLog(t, t');
  }

  lemma RecoverKeepsTables(t: Tables, id: string, factory: ManifestFactory, ra: ReceiptAnswer, fa: FactsAnswer)
    requires TablesInv(t) && (ra.Ok? ==> Codec.ValidReceipt(ra.value))
    ensures var t' := RecoverOne(t, id, factory, ra, fa).0;
            TablesInv(t') && (Unresolved(t) ==> Unresolved(t'))
  {
    hide TablesInv, Unresolved, Perform, RecoverOne, Judge, Codec.ValidReceipt;
    RecoveryIsAct(t, id, factory, ra, fa);
    if RecoveryAct(t, id, factory, ra, fa).Some? {
      var cs := t.rows[id].changeset;
      SettlesThis(cs, WorkspaceFor(t, cs).value, ra, fa);
      ActKeepsTables(t, RecoveryAct(t, id, factory, ra, fa).value);
    }
  }

  // ---- outcomes that wait for the user -----------------------------------

  /** Only the manual exit takes a critical outcome away. */
  lemma CriticalStays(t: Tables, act: Act)
    requires Critical(t) && !act.DoRecoverCritical?
    ensures Critical(Perform(t, act).0)
  {
    hide ReadBack, ApprovalIdTaken, BootstrapBound, BootstrapStored, BoundReceipt, CreatedWorkspaces, Decided;
    var id :| id in t.rows && t.rows[id].state == Lifecycle.CriticalRecovery;
    assert id in Perform(t, act).0.rows && Perform(t, act).0.rows[id].state == Lifecycle.CriticalRecovery;
  }

  lemma CriticalWaits(setup: Setup, s: System, e: Protocol.Event, s': System)
    requires Critical(s.tables) && Next(setup, s, e, s') && (e.Resolve? ==> s'.tables == s.tables)
    ensures Critical(s'.tables)
  {
    hide Critical, Perform, Start, ApplyOutcome, ValidChangeSet, Codec.ValidReceipt, Complete, RecoverOne,
      RecoverCriticalOne, Coverage.PostconditionsCovered, HonestFacts, HonestReceipt, CompletionAct, Judge, WorkspaceFor;
    match e {
      case Administer(act) => CriticalStays(s.tables, act);
      case Rebind(workspaces) => assert Critical(s'.tables) by { CriticalRebound(s.tables, workspaces); }
      case Begin(id, now, sent) =>
        if Start(s.tables, id, now).1.Ok? {
          StartIsBegin(s.tables, id, now);
          CriticalStays(s.tables, DoBegin(id, now));
        } else {
          StartRefused(s.tables, id, now);
        }
      case Deliver =>
        var cs := s.tables.rows[s.inbox.value.changeId].changeset;
        CompletionIsAct(s.tables, cs, s.inbox.value, setup.factory);
        NotResolving(cs, s.inbox.value, setup.factory);
        CriticalStays(s.tables, CompletionAct(cs, s.inbox.value, setup.factory));
      case Recover(id, ra, fa) =>
        RecoveryIsAct(s.tables, id, setup.factory, ra, fa);
        var act := RecoveryAct(s.tables, id, setup.factory, ra, fa);
        if act.Some? {
          RecoveryNotResolve(s.tables, id, setup.factory, ra, fa);
          CriticalStays(s.tables, act.value);
        }
      case _ =>
    }
  }

  lemma CriticalRebound(t: Tables, workspaces: map<string, Manifest>)
    ensures Critical(t) <==> Critical(t.(workspaces := workspaces))
  {
  }

  lemma NotResolving(cs: ChangeSet, r: Receipt, factory: ManifestFactory)
    ensures !CompletionAct(cs, r, factory).DoRecoverCritical?
  {
  }

  lemma RecoveryNotResolve(t: Tables, id: string, factory: ManifestFactory, ra: ReceiptAnswer, fa: FactsAnswer)
    ensures RecoveryAct(t, id, factory, ra, fa).Some? ==>
              !RecoveryAct(t, id, factory, ra, fa).value.DoRecoverCritical?
  {
    hide Judge, WorkspaceFor;
  }

  /** A logged change is a stored one. */
  lemma {:induction false} MentionedKnown(events: seq<RepositorySpec.Event>, e: RepositorySpec.Event)
    requires e in events && e.StateChanged?
    ensures StateOf(events, e.changeId).Some?
  {
    if e != events[|events| - 1] {
      assert events == events[..|events| - 1] + [events[|events| - 1]];
      MentionedKnown(events[..|events| - 1], e);
    }
  }

  lemma LogKnown(t: Tables)
    requires LogInv(t)
    ensures LoggedKnown(t.rows, t.events)
  {
    forall e | e in t.events && e.StateChanged? ensures e.changeId in t.rows {
      MentionedKnown(t.events, e);
      assert StateOf(t.events, e.changeId) == StoredState(t, e.changeId);
    }
  }

  /** The manual exit, with no request on its way, opens an account that the scene agrees with. */
  lemma ResolveOpens(setup: Setup, s: System, id: string, fa: FactsAnswer, s': System)
    requires Next(setup, s, Resolve(id, fa), s') && s'.tables != s.tables && s.queue == []
    requires TablesInv(s'.tables) && SingleFlight(s.tables) && Steady(s')
    ensures Consistent(setup, Account(s'.bridge.graph, |s'.tables.events|), s')
  {
    hide RecoverCriticalOne, HonestFacts, JointInv, LogInv, GoodRows, LoggedKnown, Tree, CacheKnown, QueueKnown, InFlight;
    ResolveIsAct(s.tables, id, fa);
    LogKnown(s'.tables);
    NoneUnderWay(s.tables, id);
    assert EventsSince(s'.tables.events, |s'.tables.events|) == [];
    Rested(setup, Account(s'.bridge.graph, |s'.tables.events|), s');
  }

  lemma NoneUnderWay(t: Tables, id: string)
    requires SingleFlight(t) && id in t.rows && t.rows[id].state == Lifecycle.CriticalRecovery
    ensures Idle(Perform(t, DoRecoverCritical(id)).0)
  {
  }

  // ---- every step --------------------------------------------------------

  /** Every step of the system keeps the invariant, with the account it leads to. */
  lemma NextKeeps(setup: Setup, acc: Option<Account>, s: System, e: Protocol.Event, s': System)
    requires Inv(setup, acc, s) && Next(setup, s, e, s')
    ensures Inv(setup, AccountAfter(acc, s, e, s'), s')
  {
    hide Consistent, JointInv, LogInv, SingleFlight, Critical, Next, Steady;
    NextKeepsTables(setup, s, e, s');
    NextSteady(setup, s, e, s');
    if e.Resolve? && s'.tables != s.tables {
      if s.queue == [] { ResolveOpens(setup, s, e.id, e.fa, s'); }
    } else if Critical(s.tables) {
      CriticalWaits(setup, s, e, s');
    } else if acc.Some? {
      NextKeepsScene(setup, acc.value, s, e, s');
    }
  }

  lemma NextKeepsScene(setup: Setup, acc: Account, s: System, e: Protocol.Event, s': System)
    requires Consistent(setup, acc, s) && JointInv(s.tables) && SingleFlight(s.tables) && Next(setup, s, e, s')
    requires !Critical(s.tables)
    ensures Critical(s'.tables) || Consistent(setup, acc, s')
  {
    hide Consistent, JointInv, SingleFlight, ApplyOutcome, ValidChangeSet, Codec.ValidReceipt,
      Complete, RecoverOne, RecoverCriticalOne, Coverage.PostconditionsCovered, HonestFacts, HonestReceipt, Start, Propose,
      Decide;
    match e {
      case Administer(act) =>
        if act.DoPropose? {
          ProposedKeeps(setup, acc, s, act.cs, act.approval);
        } else {
          DecidedKeeps(setup, acc, s, act.id, act.digest, act.approve, act.now, act.binding);
        }
      case Rebind(workspaces) => RebindKeeps(setup, acc, s, workspaces);
      case Begin(id, now, sent) =>
        if Start(s.tables, id, now).1.Ok? {
          StartShape(s.tables, id, now);
          BeginKeepsScene(setup, acc, s, id, now, sent, WorkspaceFor(s.tables, s.tables.rows[id].changeset).value);
        } else {
          StartRefused(s.tables, id, now);
        }
      case Execute(faulted, reply, arrives) => ExecuteKeeps(setup, acc, s, s', faulted, reply, arrives);
      case Deliver => DeliverKeeps(setup, acc, s, s');
      case LoseReply => LoseReplyKeeps(setup, acc, s);
      case LoseRequests => LoseRequestsKeeps(setup, acc, s);
      case Forget(cache, frozen) => ForgetKeeps(setup, acc, s, cache, frozen);
      case Recover(id, ra, fa) => RecoverKeeps(setup, acc, s, s', id, ra, fa);
      case Resolve(id, fa) =>
        ResolveIsAct(s.tables, id, fa);
        LoseReplyKeeps(setup, acc, s);
    }
  }

  // ---- whole runs --------------------------------------------------------

  /** Nothing stored, nothing asked for, nothing cached. */
  ghost predicate Initial(g0: Graph, s: System) {
    && Tree(g0) && s.bridge.graph == g0 && s.bridge.cache == []
    && s.tables.rows == map[] && s.tables.approvals == map[] && s.tables.receipts == map[] && s.tables.events == []
    && s.queue == [] && s.inbox.None?
  }

  ghost predicate IsSystemRun(setup: Setup, g0: Graph, states: seq<System>, events: seq<Protocol.Event>) {
    Chain(setup, states, events) && Initial(g0, states[0])
  }

  /** The account a run has reached. */
  function AccountAt(states: seq<System>, events: seq<Protocol.Event>, k: nat): Option<Account>
    requires k < |states| && |states| == |events| + 1
  {
    if k == 0 then Some(Account(states[0].bridge.graph, 0))
    else AccountAfter(AccountAt(states, events, k - 1), states[k - 1], events[k - 1], states[k])
  }

  lemma {:induction false} AlwaysInv(setup: Setup, g0: Graph, states: seq<System>, events: seq<Protocol.Event>, k: nat)
    requires IsSystemRun(setup, g0, states, events) && k < |states|
    ensures Inv(setup, AccountAt(states, events, k), states[k])
  {
    hide Inv, Next, AccountAfter;
    if k == 0 {
      StartsInv(setup, g0, states[0]);
    } else {
      AlwaysInv(setup, g0, states, events, k - 1);
      NextKeeps(setup, AccountAt(states, events, k - 1), states[k - 1], events[k - 1], states[k]);
    }
  }

  lemma StartsInv(setup: Setup, g0: Graph, s: System)
    requires Initial(g0, s)
    ensures Inv(setup, Some(Account(s.bridge.graph, 0)), s)
  {
    hide Tree;
  }

  /** Across lost requests, lost replies, lost receipts, restarts and outcomes the user resolved: whenever nothing is
      under way and nothing waits for the user, the scene is the one the account was opened with, plus exactly the
      changes that the log reports as applied since. */
  lemma SceneSinceResolve(setup: Setup, g0: Graph, states: seq<System>, events: seq<Protocol.Event>, k: nat)
    requires IsSystemRun(setup, g0, states, events) && k < |states|
    requires Idle(states[k].tables) && !Critical(states[k].tables) && AccountAt(states, events, k).Some?
    ensures states[k].bridge.graph == BaseOf(setup, AccountAt(states, events, k).value, states[k].tables)
    ensures states[k].queue == []
  {
    hide Next, Initial, Inv, BaseOf, Critical, Idle;
    AlwaysInv(setup, g0, states, events, k);
    RestMeans(setup, AccountAt(states, events, k).value, states[k]);
  }

  /** At rest the invariant says where the scene stands. */
  lemma RestMeans(setup: Setup, acc: Account, s: System)
    requires Inv(setup, Some(acc), s) && Idle(s.tables) && !Critical(s.tables)
    ensures s.bridge.graph == BaseOf(setup, acc, s.tables) && s.queue == []
  {
    hide JointInv, LogInv, SingleFlight, BaseOf, Critical, Tree, GoodRows, CacheKnown, LoggedKnown, Steady, InFlight;
  }

  /** A resolved outcome stays on record, so until there is one the first account stands. */
  lemma {:induction false} FirstAccount(setup: Setup, g0: Graph, states: seq<System>, events: seq<Protocol.Event>, k: nat)
    requires IsSystemRun(setup, g0, states, events) && k < |states| && !Unresolved(states[k].tables)
    ensures AccountAt(states, events, k) == Some(Account(g0, 0))
  {
    hide Next, Unresolved, TablesInv;
    if k > 0 {
      AlwaysTables(setup, g0, states, events, k - 1);
      NextKeepsTables(setup, states[k - 1], events[k - 1], states[k]);
      FirstAccount(setup, g0, states, events, k - 1);
      if events[k - 1].Resolve? && states[k].tables != states[k - 1].tables {
        ResolvedOnRecord(setup, states[k - 1], events[k - 1].id, events[k - 1].fa, states[k]);
      }
    }
  }

  lemma AlwaysTables(setup: Setup, g0: Graph, states: seq<System>, events: seq<Protocol.Event>, k: nat)
    requires IsSystemRun(setup, g0, states, events) && k < |states|
    ensures TablesInv(states[k].tables)
  {
    hide IsSystemRun, JointInv, LogInv, SingleFlight, Consistent, Steady;
    AlwaysInv(setup, g0, states, events, k);
  }

  lemma ResolvedOnRecord(setup: Setup, s: System, id: string, fa: FactsAnswer, s': System)
    requires Next(setup, s, Resolve(id, fa), s') && s'.tables != s.tables
    ensures Unresolved(s'.tables)
  {
    hide RecoverCriticalOne, HonestFacts;
    ResolveIsAct(s.tables, id, fa);
    assert id in s'.tables.rows && s'.tables.rows[id].state in {Lifecycle.CriticalRecovery, Lifecycle.Recovered};
  }

  /** The same from the first scene, as long as nothing was left to the user. */
  lemma SceneIsAccountedFor(setup: Setup, g0: Graph, states: seq<System>, events: seq<Protocol.Event>, k: nat)
    requires IsSystemRun(setup, g0, states, events) && k < |states|
    requires Idle(states[k].tables) && !Unresolved(states[k].tables)
    ensures states[k].bridge.graph == Accounted(setup, g0, states[k].tables.rows, states[k].tables.events)
    ensures states[k].queue == []
  {
    hide IsSystemRun, Accounted, Idle;
    FirstAccount(setup, g0, states, events, k);
    SceneSinceResolve(setup, g0, states, events, k);
    assert EventsSince(states[k].tables.events, 0) == states[k].tables.events;
  }

  /** At any time at most one change is being applied or unresolved. */
  lemma AlwaysSingleFlight(setup: Setup, g0: Graph, states: seq<System>, events: seq<Protocol.Event>, k: nat)
    requires IsSystemRun(setup, g0, states, events) && k < |states|
    ensures SingleFlight(states[k].tables) && JointInv(states[k].tables) && LogInv(states[k].tables)
  {
    hide IsSystemRun, JointInv, LogInv, SingleFlight;
    AlwaysTables(setup, g0, states, events, k);
  }

  // ---- what a settled row means ------------------------------------------

  /** Administration and beginning leave a change under way under way. */
  lemma OthersLeaveApplying(t: Tables, act: Act, id: string)
    requires id in t.rows && t.rows[id].state == Lifecycle.Applying
    requires act.DoPropose? || act.DoDecide? || act.DoBegin?
    ensures id in Perform(t, act).0.rows && Perform(t, act).0.rows[id].state == Lifecycle.Applying
  {
    hide ApprovalIdTaken;
  }

  lemma StartLeavesApplying(t: Tables, k: string, now: int, id: string)
    requires id in t.rows && t.rows[id].state == Lifecycle.Applying
    ensures id in Start(t, k, now).0.rows && Start(t, k, now).0.rows[id].state == Lifecycle.Applying
  {
    OthersLeaveApplying(t, DoBegin(k, now), id);
  }

  /** The account moves on with a completion exactly when the change was applied. */
  lemma CompletionAccount(setup: Setup, acc: Account, t: Tables, r: Receipt, id: string)
    requires JointInv(t) && GoodRows(t) && LoggedKnown(t.rows, t.events) && r.changeId in t.rows && acc.from <= |t.events|
    requires id in t.rows && t.rows[id].state == Lifecycle.Applying && SingleFlight(t)
    requires id in Complete(t, t.rows[r.changeId].changeset, r, setup.factory).0.rows
    requires Complete(t, t.rows[r.changeId].changeset, r, setup.factory).0.rows[id].state != Lifecycle.Applying
    ensures AccountStep(setup, acc, t, Complete(t, t.rows[r.changeId].changeset, r, setup.factory).0, id)
  {
    hide JointInv, SingleFlight, BaseOf, LoggedKnown, NothingApplied, Writes, CreatedIdentity, GoodRows, Complete;
    var cs := t.rows[r.changeId].changeset;
    if t.rows[r.changeId].state == Lifecycle.Applying {
      var later := CompletionShape(t, cs, r, setup.factory);
      GoodRow(t, id);
      SettledAccount(setup, acc, t, Complete(t, cs, r, setup.factory).0, id, StateForReceipt(r.status), later);
    } else {
      CompletionRefused(t, cs, r, setup.factory);
    }
  }

  lemma CompletionRefused(t: Tables, cs: ChangeSet, r: Receipt, factory: ManifestFactory)
    requires r.changeId in t.rows && t.rows[r.changeId].state != Lifecycle.Applying
    ensures Complete(t, cs, r, factory).0 == t
  {
    hide ReadBack, BootstrapBound, BootstrapStored, CreatedWorkspaces;
  }

  /** From one table state to the next the account gained the writes of `id`, or none if it was not applied. */
  ghost predicate AccountStep(setup: Setup, acc: Account, t: Tables, t': Tables, id: string)
    requires id in t.rows && id in t'.rows
  {
    var base := BaseOf(setup, acc, t);
    && (t'.rows[id].state == Lifecycle.Applied ==>
          BaseOf(setup, acc, t') == EffectOf(setup, base, t.rows, id))
    && (t'.rows[id].state == Lifecycle.RolledBack ==> BaseOf(setup, acc, t') == base)
  }

  lemma SettlingStep(setup: Setup, acc: Account, s: System, e: Protocol.Event, s': System, id: string)
    requires JointInv(s.tables) && SingleFlight(s.tables) && GoodRows(s.tables)
    requires LoggedKnown(s.tables.rows, s.tables.events) && acc.from <= |s.tables.events| && Next(setup, s, e, s')
    requires id in s.tables.rows && s.tables.rows[id].state == Lifecycle.Applying
    requires id in s'.tables.rows && s'.tables.rows[id].state in {Lifecycle.Applied, Lifecycle.RolledBack}
    ensures AccountStep(setup, acc, s.tables, s'.tables, id)
  {
    hide JointInv, SingleFlight, GoodRows, LoggedKnown, AccountStep, Perform, Start, ApplyOutcome, ValidChangeSet,
      Codec.ValidReceipt, Complete, Judge, Coverage.PostconditionsCovered, HonestFacts, HonestReceipt, WorkspaceFor;
    match e {
      case Administer(act) => OthersLeaveApplying(s.tables, act, id);
      case Begin(k, now, sent) => StartLeavesApplying(s.tables, k, now, id);
      case Deliver => CompletionAccount(setup, acc, s.tables, s.inbox.value, id);
      case Recover(k, ra, fa) =>
        if k in s.tables.rows && WorkspaceFor(s.tables, s.tables.rows[k].changeset).Ok? {
          var cs, ws := s.tables.rows[k].changeset, WorkspaceFor(s.tables, s.tables.rows[k].changeset).value;
          IdOf(s.tables, k);
          SettlesThis(cs, ws, ra, fa);
          if Judge(cs, ws, ra, fa).Settle? && s.tables.rows[k].state == Lifecycle.Applying {
            CompletionAccount(setup, acc, s.tables, Judge(cs, ws, ra, fa).receipt, id);
          }
        }
      case _ =>
    }
  }

  /** At the step that makes a row Applied the scene is the one before the change plus all of its writes; at the step
      that makes it RolledBack the scene is the one before it. (No step of these runs does the latter, because the
      decoder refuses failing receipts: Unreadable.NeverRolledBack.) */
  lemma SettledMeans(setup: Setup, g0: Graph, states: seq<System>, events: seq<Protocol.Event>, k: nat, id: string)
    requires IsSystemRun(setup, g0, states, events) && k < |events|
    requires id in states[k].tables.rows && states[k].tables.rows[id].state == Lifecycle.Applying
    requires id in states[k + 1].tables.rows && AccountAt(states, events, k).Some?
    ensures var base := BaseOf(setup, AccountAt(states, events, k).value, states[k].tables);
            && (states[k + 1].tables.rows[id].state == Lifecycle.Applied ==>
                  states[k + 1].bridge.graph == EffectOf(setup, base, states[k].tables.rows, id))
            && (states[k + 1].tables.rows[id].state == Lifecycle.RolledBack ==> states[k + 1].bridge.graph == base)
  {
    hide JointInv, LogInv, SingleFlight, BaseOf, EffectOf, Next, Critical, Consistent, Steady, AccountAt, TablesInv;
    var s, s' := states[k], states[k + 1];
    if s'.tables.rows[id].state in {Lifecycle.Applied, Lifecycle.RolledBack} {
      var acc := AccountAt(states, events, k).value;
      AlwaysInv(setup, g0, states, events, k);
      AlwaysTables(setup, g0, states, events, k);
      NothingCritical(s.tables, id);
      ConsistentParts(setup, acc, s);
      SettlingStep(setup, acc, s, events[k], s', id);
      AfterSettling(setup, s, events[k], s', id);
      SameAccount(setup, states, events, k, id);
      SettledAlone(setup, s, events[k], s', id);
      SceneSinceResolve(setup, g0, states, events, k + 1);
    }
  }

  lemma NothingCritical(t: Tables, id: string)
    requires TablesInv(t) && id in t.rows && t.rows[id].state == Lifecycle.Applying
    ensures !Critical(t) && SingleFlight(t) && JointInv(t)
  {
    hide JointInv, LogInv;
  }

  lemma SameAccount(setup: Setup, states: seq<System>, events: seq<Protocol.Event>, k: nat, id: string)
    requires Chain(setup, states, events) && k < |events| && SingleFlight(states[k].tables)
    requires id in states[k].tables.rows && states[k].tables.rows[id].state == Lifecycle.Applying
    ensures AccountAt(states, events, k + 1) == AccountAt(states, events, k)
  {
    hide Next, RecoverCriticalOne;
    if events[k].Resolve? {
      ResolveNothing(setup, states[k], events[k].id, events[k].fa, states[k + 1], id);
    }
  }

  lemma ResolveNothing(setup: Setup, s: System, k: string, fa: FactsAnswer, s': System, id: string)
    requires Next(setup, s, Resolve(k, fa), s') && SingleFlight(s.tables)
    requires id in s.tables.rows && s.tables.rows[id].state == Lifecycle.Applying
    ensures s'.tables == s.tables
  {
    hide RecoverCriticalOne, HonestFacts;
    ResolveIsAct(s.tables, k, fa);
  }

  /** When the change under way is settled well, nothing else can have become critical. */
  lemma SettledAlone(setup: Setup, s: System, e: Protocol.Event, s': System, id: string)
    requires TablesInv(s.tables) && Next(setup, s, e, s')
    requires id in s.tables.rows && s.tables.rows[id].state == Lifecycle.Applying
    requires id in s'.tables.rows && s'.tables.rows[id].state in {Lifecycle.Applied, Lifecycle.RolledBack}
    ensures !Critical(s'.tables)
  {
    hide JointInv, LogInv, SingleFlight, Perform, Start, ApplyOutcome, ValidChangeSet, Codec.ValidReceipt, Complete,
      RecoverOne, Coverage.PostconditionsCovered, HonestFacts, HonestReceipt, WorkspaceFor, RecoverCriticalOne, Judge,
      RecoveryAct;
    match e {
      case Administer(act) => OthersLeaveApplying(s.tables, act, id);
      case Begin(k, now, sent) => StartLeavesApplying(s.tables, k, now, id);
      case Deliver =>
        var cs := s.tables.rows[s.inbox.value.changeId].changeset;
        CompletionIsAct(s.tables, cs, s.inbox.value, setup.factory);
        NoneCritical(s.tables, CompletionAct(cs, s.inbox.value, setup.factory), id);
      case Recover(k, ra, fa) =>
        RecoveryIsAct(s.tables, k, setup.factory, ra, fa);
        if RecoveryAct(s.tables, k, setup.factory, ra, fa).Some? {
          NoneCritical(s.tables, RecoveryAct(s.tables, k, setup.factory, ra, fa).value, id);
        }
      case Resolve(k, fa) => ResolveNothing(setup, s, k, fa, s', id);
      case _ =>
    }
  }

  lemma NoneCritical(t: Tables, act: Act, id: string)
    requires SingleFlight(t) && !act.DoBegin? && id in t.rows && t.rows[id].state == Lifecycle.Applying
    requires id in Perform(t, act).0.rows && Perform(t, act).0.rows[id].state != Lifecycle.CriticalRecovery
    ensures !Critical(Perform(t, act).0)
  {
    hide Perform;
    OthersKeepSingleFlight(t, act);
    forall k | k in Perform(t, act).0.rows ensures Perform(t, act).0.rows[k].state != Lifecycle.CriticalRecovery {
      assert Blocks(Perform(t, act).0.rows[k].state) ==> k == id;
    }
  }

  /** Once the change under way is settled, nothing is under way. */
  lemma AfterSettling(setup: Setup, s: System, e: Protocol.Event, s': System, id: string)
    requires SingleFlight(s.tables) && JointInv(s.tables) && Next(setup, s, e, s')
    requires id in s.tables.rows && s.tables.rows[id].state == Lifecycle.Applying
    requires id in s'.tables.rows && s'.tables.rows[id].state != Lifecycle.Applying
    ensures Idle(s'.tables)
  {
    hide SingleFlight, JointInv, Perform, Start, ApplyOutcome, ValidChangeSet, Codec.ValidReceipt, Complete, RecoverOne,
      Coverage.PostconditionsCovered, HonestFacts, HonestReceipt, WorkspaceFor, RecoverCriticalOne, Judge;
    match e {
      case Administer(act) => OthersLeaveApplying(s.tables, act, id);
      case Begin(k, now, sent) => StartLeavesApplying(s.tables, k, now, id);
      case Deliver =>
        var cs := s.tables.rows[s.inbox.value.changeId].changeset;
        CompletionIsAct(s.tables, cs, s.inbox.value, setup.factory);
        NoneLeft(s.tables, CompletionAct(cs, s.inbox.value, setup.factory), id);
      case Recover(k, ra, fa) =>
        RecoveryIsAct(s.tables, k, setup.factory, ra, fa);
        if RecoveryAct(s.tables, k, setup.factory, ra, fa).Some? {
          NoneLeft(s.tables, RecoveryAct(s.tables, k, setup.factory, ra, fa).value, id);
        }
      case Resolve(k, fa) =>
        ResolveIsAct(s.tables, k, fa);
        NoneLeft(s.tables, DoRecoverCritical(k), id);
      case _ =>
    }
  }

  lemma NoneLeft(t: Tables, act: Act, id: string)
    requires SingleFlight(t) && !act.DoBegin? && id in t.rows && t.rows[id].state == Lifecycle.Applying
    requires id in Perform(t, act).0.rows && Perform(t, act).0.rows[id].state != Lifecycle.Applying
    ensures Idle(Perform(t, act).0)
  {
    hide Perform;
    OthersKeepSingleFlight(t, act);
    forall k | k in Perform(t, act).0.rows ensures Perform(t, act).0.rows[k].state != Lifecycle.Applying {
      assert Blocks(Perform(t, act).0.rows[k].state) ==> k == id;
    }
  }
}
