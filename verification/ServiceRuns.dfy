/** The calls of the service as courses of the system: what one call does to the database is what steps of the system
    do, so the laws over system runs hold of the service class. */
module ServiceRuns {
  import opened Wrappers
  import opened Contracts
  import opened SceneGraph
  import opened RepositorySpec
  import opened ServiceSpec
  import opened Protocol
  import opened ProtocolSafety
  import opened ProtocolSteady
  import opened ProtocolRuns
  import Codec
  import Service

  // ---- what the bridge answered ------------------------------------------

  /** The answers to one recovery are about the state they were asked in. */
  ghost predicate Honest(setup: Setup, s: System, id: string, a: Answers) {
    && (a.ra.Ok? ==> Codec.ValidReceipt(a.ra.value))
    && (id in s.tables.rows ==>
          && HonestReceipt(s, s.tables.rows[id].changeset, a.ra)
          && HonestExit(setup, s, id, a.fa))
  }

  ghost predicate HonestExit(setup: Setup, s: System, id: string, fa: FactsAnswer) {
    id in s.tables.rows && WorkspaceFor(s.tables, s.tables.rows[id].changeset).Ok? ==>
      HonestFacts(setup, s, s.tables.rows[id].changeset, WorkspaceFor(s.tables, s.tables.rows[id].changeset).value, fa)
  }

  /** While the service waits for a reply only the bridge moves, and messages get lost. */
  predicate Meanwhile(e: Protocol.Event) {
    e.Execute? || e.LoseReply? || e.LoseRequests? || e.Forget?
  }

  // ---- one apply call ----------------------------------------------------

  /** What one apply call met: the answers to a first recovery, what happened between request and reply, the reply, and
      the answers to a second recovery. */
  datatype Course = Course(first: Answers, states: seq<System>, events: seq<Protocol.Event>, reply: ReceiptAnswer,
                           second: Answers)

  predicate UnderWay(t: Tables, id: string) {
    id in t.rows && t.rows[id].state == Lifecycle.Applying
  }

  function AfterRecovery(setup: Setup, s: System, id: string, a: Answers): System {
    s.(tables := ServiceSpec.RecoverOne(s.tables, id, setup.factory, a.ra, a.fa).0, inbox := None)
  }

  function AfterFirst(setup: Setup, s: System, id: string, first: Answers): System {
    if UnderWay(s.tables, id) then AfterRecovery(setup, s, id, first) else s
  }

  function AfterRequest(s: System, id: string, now: int): System
    requires Sends(s.tables, id, now)
  {
    var cs := s.tables.rows[id].changeset;
    s.(tables := BeginApply(s.tables, id, now).0, inbox := None,
       queue := s.queue + [Request(cs, WorkspaceFor(s.tables, cs).value)])
  }

  /** The call comes as far as its request. */
  predicate Requests(setup: Setup, s: System, id: string, now: int, first: Answers) {
    BeforeAttempt(s.tables, id, setup.factory, first).Some? && Sends(AfterFirst(setup, s, id, first).tables, id, now)
  }

  ghost predicate HonestWait(setup: Setup, s: System, id: string, now: int, c: Course)
    requires Sends(s.tables, id, now)
  {
    && Chain(setup, c.states, c.events) && c.states[0] == AfterRequest(s, id, now)
    && (forall e :: e in c.events ==> Meanwhile(e))
    && var heard := c.states[|c.events|];
       && (c.reply.Ok? ==> heard.inbox == Some(c.reply.value))
       && (c.reply.Err? || !ReceiptValid(s.tables.rows[id].changeset, c.reply.value) ==> Honest(setup, heard, id, c.second))
  }

  ghost predicate HonestCourse(setup: Setup, s: System, id: string, now: int, c: Course) {
    && (UnderWay(s.tables, id) ==> Honest(setup, s, id, c.first))
    && (Requests(setup, s, id, now, c.first) ==> HonestWait(setup, AfterFirst(setup, s, id, c.first), id, now, c))
  }

  /** The system when the call returns: the database as the call left it, the rest as the bridge left it. */
  function AfterApply(setup: Setup, s: System, id: string, now: int, c: Course): System {
    var t := ApplyOne(s.tables, id, now, setup.factory, c.first, c.reply, c.second).0;
    if Requests(setup, s, id, now, c.first) && |c.states| == |c.events| + 1
    then c.states[|c.events|].(tables := t, inbox := None)
    else AfterFirst(setup, s, id, c.first).(tables := t)
  }

  // ---- a call is a chain of steps ----------------------------------------

  lemma Extended(setup: Setup, run: seq<System>, steps: seq<Protocol.Event>, e: Protocol.Event, s': System)
    requires Chain(setup, run, steps) && Next(setup, run[|steps|], e, s')
    ensures Chain(setup, run + [s'], steps + [e])
  {
    hide Next;
  }

  /** Two chains that meet. */
  lemma Joined(setup: Setup, run: seq<System>, steps: seq<Protocol.Event>, more: seq<System>, next: seq<Protocol.Event>)
    requires Chain(setup, run, steps) && Chain(setup, more, next) && run[|steps|] == more[0]
    ensures Chain(setup, run + more[1..], steps + next)
    ensures (run + more[1..])[|steps + next|] == more[|next|]
  {
    hide Next;
    var states, events := run + more[1..], steps + next;
    forall i | 0 <= i < |events| ensures Next(setup, states[i], events[i], states[i + 1]) {
      if i >= |steps| {
        assert states[i] == more[i - |steps|] && states[i + 1] == more[i + 1 - |steps|] && events[i] == next[i - |steps|];
      }
    }
  }

  lemma RecoveryStep(setup: Setup, s: System, id: string, a: Answers)
    requires Honest(setup, s, id, a)
    ensures Next(setup, s, Recover(id, a.ra, a.fa), AfterRecovery(setup, s, id, a))
  {
    hide HonestReceipt, HonestFacts, ServiceSpec.RecoverOne, WorkspaceFor, Codec.ValidReceipt;
  }

  lemma ExitStep(setup: Setup, s: System, id: string, fa: FactsAnswer)
    requires HonestExit(setup, s, id, fa)
    ensures Next(setup, s, Resolve(id, fa), s.(tables := RecoverCriticalOne(s.tables, id, fa).0, inbox := None))
  {
    hide HonestFacts, RecoverCriticalOne, WorkspaceFor;
  }

  lemma RequestStep(setup: Setup, s: System, id: string, now: int)
    requires Sends(s.tables, id, now)
    ensures Next(setup, s, Begin(id, now, true), AfterRequest(s, id, now))
  {
    hide BeginApply, WorkspaceFor, WriteAvailable;
  }

  /** What the bridge does on its own leaves the database alone, and only readable receipts arrive. */
  lemma {:induction false} BridgeOnly(setup: Setup, states: seq<System>, events: seq<Protocol.Event>, k: nat)
    requires Chain(setup, states, events) && k < |states| && states[0].inbox.None?
    requires forall e :: e in events ==> Meanwhile(e)
    ensures states[k].tables == states[0].tables
    ensures states[k].inbox.Some? ==> Readable(states[k].inbox.value)
  {
    hide Next, Readable;
    if k > 0 {
      BridgeOnly(setup, states, events, k - 1);
      BridgeStep(setup, states[k - 1], events[k - 1], states[k]);
    }
  }

  lemma BridgeStep(setup: Setup, s: System, e: Protocol.Event, s': System)
    requires Next(setup, s, e, s') && Meanwhile(e)
    ensures s'.tables == s.tables && (s'.inbox.None? || s'.inbox == s.inbox || Readable(s'.inbox.value))
  {
    hide ExecutorSpec.ApplyOutcome, Readable;
  }

  /** The last step of an attempt: the receipt is stored, or the attempt is recovered. */
  lemma ReplyStep(setup: Setup, s: System, id: string, reply: ReceiptAnswer, second: Answers) returns (e: Protocol.Event)
    requires id in s.tables.rows && s.tables.rows[id].changeset.changeId == id
    requires reply.Ok? ==> s.inbox == Some(reply.value) && Readable(reply.value)
    requires reply.Err? || !ReceiptValid(s.tables.rows[id].changeset, reply.value) ==> Honest(setup, s, id, second)
    ensures Next(setup, s, e, s.(tables := AfterReply(s.tables, s.tables.rows[id].changeset, setup.factory, reply,
                                                      second).0, inbox := None))
    ensures e == Deliver || e == Recover(id, second.ra, second.fa)
  {
    hide Honest, Codec.ValidReceipt, Complete, ServiceSpec.RecoverOne, BoundReceipt;
    if reply.Ok? && ReceiptValid(s.tables.rows[id].changeset, reply.value) {
      e := Deliver;
    } else {
      e := Recover(id, second.ra, second.fa);
      RecoveryStep(setup, s, id, second);
    }
  }

  /** Beginning leaves the ChangeSet as it is. */
  lemma BegunRow(t: Tables, id: string, now: int)
    requires Sends(t, id, now)
    ensures id in BeginApply(t, id, now).0.rows && BeginApply(t, id, now).0.rows[id].changeset == t.rows[id].changeset
  {
    hide WriteAvailable, WorkspaceFor;
  }

  /** From barrier to verdict: three stretches of steps, of which only the middle one moves the bridge. */
  lemma AttemptIsChain(setup: Setup, s: System, id: string, now: int, c: Course)
    returns (run: seq<System>, steps: seq<Protocol.Event>)
    requires id in s.tables.rows && s.tables.rows[id].changeset.changeId == id
    requires Sends(s.tables, id, now) && HonestWait(setup, s, id, now, c)
    ensures Chain(setup, run, steps) && run[0] == s && forall e :: e in steps ==> OfApply(e, id, now)
    ensures |c.states| == |c.events| + 1
    ensures run[|steps|] == c.states[|c.events|].(tables := Attempt(s.tables, id, now, setup.factory, c.reply, c.second).0,
                                                   inbox := None)
  {
    hide Next, Honest, AfterReply, BeginApply, WriteAvailable, WorkspaceFor, ReceiptValid, Readable;
    var cs := s.tables.rows[id].changeset;
    RequestStep(setup, s, id, now);
    BegunRow(s.tables, id, now);
    BridgeOnly(setup, c.states, c.events, |c.events|);
    var heard := c.states[|c.events|];
    assert Chain(setup, [s, c.states[0]], [Begin(id, now, true)]);
    Joined(setup, [s, c.states[0]], [Begin(id, now, true)], c.states, c.events);
    run, steps := [s, c.states[0]] + c.states[1..], [Begin(id, now, true)] + c.events;
    var e := ReplyStep(setup, heard, id, c.reply, c.second);
    var end := heard.(tables := AfterReply(heard.tables, cs, setup.factory, c.reply, c.second).0, inbox := None);
    Extended(setup, run, steps, e, end);
    run, steps := run + [end], steps + [e];
  }

  /** The steps that belong to one apply call. */
  predicate OfApply(e: Protocol.Event, id: string, now: int) {
    Meanwhile(e) || e == Begin(id, now, true) || e == Deliver || (e.Recover? && e.id == id)
  }

  /** What a call leaves in the database: the attempt's tables if it comes to one, else those of the recovery. */
  lemma ApplyTables(setup: Setup, s: System, id: string, now: int, c: Course)
    ensures var s1 := AfterFirst(setup, s, id, c.first);
            && (BeforeAttempt(s.tables, id, setup.factory, c.first).Some? ==> id in s.tables.rows)
            && ApplyOne(s.tables, id, now, setup.factory, c.first, c.reply, c.second).0
               == if BeforeAttempt(s.tables, id, setup.factory, c.first).Some?
                  then Attempt(s1.tables, id, now, setup.factory, c.reply, c.second).0 else s1.tables
  {
    hide ServiceSpec.RecoverOne, Attempt, StoredRecovery;
  }

  /** One apply call, whatever it met, is a chain of steps of the system: none, a recovery, or a recovery if one was
      due, then the request, what the bridge does meanwhile, and the verdict. */
  lemma ApplyIsChain(setup: Setup, s: System, id: string, now: int, c: Course)
    returns (run: seq<System>, steps: seq<Protocol.Event>)
    requires JointInv(s.tables) && HonestCourse(setup, s, id, now, c)
    ensures Chain(setup, run, steps) && run[0] == s && run[|steps|] == AfterApply(setup, s, id, now, c)
    ensures forall e :: e in steps ==> OfApply(e, id, now)
  {
    hide JointInv, Next, Honest, HonestWait, ServiceSpec.RecoverOne, Attempt, Sends, ApplyOne, BeforeAttempt;
    run, steps := [s], [];
    ApplyTables(setup, s, id, now, c);
    var s1 := AfterFirst(setup, s, id, c.first);
    if UnderWay(s.tables, id) {
      RecoveryStep(setup, s, id, c.first);
      Extended(setup, run, steps, Recover(id, c.first.ra, c.first.fa), s1);
      run, steps := run + [s1], steps + [Recover(id, c.first.ra, c.first.fa)];
      RecoveryLeaves(s.tables, id, setup.factory, c.first.ra, c.first.fa, id);
    }
    if id in s.tables.rows { IdOf(s.tables, id); }
    if Requests(setup, s, id, now, c.first) {
      var more, next := AttemptIsChain(setup, s1, id, now, c);
      Joined(setup, run, steps, more, next);
      run, steps := run + more[1..], steps + next;
    } else if BeforeAttempt(s.tables, id, setup.factory, c.first).Some? {
      NoAttempt(s1.tables, id, now, setup.factory, c.reply, c.second);
    }
  }

  /** An attempt that sends nothing changes nothing. */
  lemma NoAttempt(t: Tables, id: string, now: int, factory: ManifestFactory, reply: ReceiptAnswer, second: Answers)
    requires !Sends(t, id, now)
    ensures Attempt(t, id, now, factory, reply, second).0 == t
  {
    hide WriteAvailable, WorkspaceFor, AfterReply;
  }

  // ---- runs of calls -----------------------------------------------------

  /** A call of the service with what it met, or something that happened between calls. */
  datatype ServiceCall =
    | Applying(id: string, now: int, course: Course)
    | Recovering(id: string, answers: Answers)
    | Resolving(id: string, fa: FactsAnswer)
    | Between(event: Protocol.Event)

  /** Between calls users propose and decide, manifests change, and the bridge moves. */
  predicate Outside(e: Protocol.Event) {
    e.Administer? || e.Rebind? || Meanwhile(e)
  }

  ghost predicate CallStep(setup: Setup, s: System, c: ServiceCall, s': System) {
    match c
    case Applying(id, now, course) => HonestCourse(setup, s, id, now, course) && s' == AfterApply(setup, s, id, now, course)
    case Recovering(id, a) => Honest(setup, s, id, a) && s' == AfterRecovery(setup, s, id, a)
    case Resolving(id, fa) =>
      HonestExit(setup, s, id, fa) && s' == s.(tables := RecoverCriticalOne(s.tables, id, fa).0, inbox := None)
    case Between(e) => Outside(e) && Next(setup, s, e, s')
  }

  ghost predicate IsCallRun(setup: Setup, g0: Graph, states: seq<System>, calls: seq<ServiceCall>) {
    && |states| == |calls| + 1 && Initial(g0, states[0])
    && forall i :: 0 <= i < |calls| ==> CallStep(setup, states[i], calls[i], states[i + 1])
  }

  /** The manual exit opens a new account from the scene as it is; there is none if requests may be on their way. */
  function AccountAfterCall(acc: Option<Account>, s: System, c: ServiceCall, s': System): Option<Account> {
    if c.Resolving? && s'.tables != s.tables
    then (if s.queue == [] then Some(Account(s'.bridge.graph, |s'.tables.events|)) else None)
    else acc
  }

  function AccountAtCall(states: seq<System>, calls: seq<ServiceCall>, k: nat): Option<Account>
    requires k < |states| && |states| == |calls| + 1
  {
    if k == 0 then Some(Account(states[0].bridge.graph, 0))
    else AccountAfterCall(AccountAtCall(states, calls, k - 1), states[k - 1], calls[k - 1], states[k])
  }

  /** A chain without a manual exit stays within one account. */
  lemma {:induction false} ChainKeeps(setup: Setup, acc: Option<Account>, run: seq<System>, steps: seq<Protocol.Event>,
                                      k: nat)
    requires Chain(setup, run, steps) && k < |run| && Inv(setup, acc, run[0]) && forall e :: e in steps ==> !e.Resolve?
    ensures Inv(setup, acc, run[k])
  {
    hide Inv, Next;
    if k > 0 {
      ChainKeeps(setup, acc, run, steps, k - 1);
      NextKeeps(setup, acc, run[k - 1], steps[k - 1], run[k]);
    }
  }

  /** Every call keeps the invariant of the system. */
  lemma CallKeeps(setup: Setup, acc: Option<Account>, s: System, c: ServiceCall, s': System)
    requires Inv(setup, acc, s) && CallStep(setup, s, c, s')
    ensures Inv(setup, AccountAfterCall(acc, s, c, s'), s')
  {
    hide Inv, Next, Honest, HonestExit, HonestCourse, ServiceSpec.RecoverOne, RecoverCriticalOne, AfterApply;
    match c {
      case Applying(id, now, course) =>
        InvTables(setup, acc, s);
        var run, steps := ApplyIsChain(setup, s, id, now, course);
        ChainKeeps(setup, acc, run, steps, |steps|);
      case Recovering(id, a) =>
        RecoveryStep(setup, s, id, a);
        NextKeeps(setup, acc, s, Recover(id, a.ra, a.fa), s');
      case Resolving(id, fa) =>
        ExitStep(setup, s, id, fa);
        NextKeeps(setup, acc, s, Resolve(id, fa), s');
      case Between(e) => NextKeeps(setup, acc, s, e, s');
    }
  }

  lemma InvTables(setup: Setup, acc: Option<Account>, s: System)
    requires Inv(setup, acc, s)
    ensures JointInv(s.tables) && LogInv(s.tables) && SingleFlight(s.tables)
  {
    hide JointInv, LogInv, SingleFlight, Steady, Consistent, Critical;
  }

  lemma {:induction false} CallRunsKeep(setup: Setup, g0: Graph, states: seq<System>, calls: seq<ServiceCall>, k: nat)
    requires IsCallRun(setup, g0, states, calls) && k < |states|
    ensures Inv(setup, AccountAtCall(states, calls, k), states[k])
  {
    hide Inv, CallStep, AccountAfterCall;
    if k == 0 {
      StartsInv(setup, g0, states[0]);
    } else {
      CallRunsKeep(setup, g0, states, calls, k - 1);
      CallKeeps(setup, AccountAtCall(states, calls, k - 1), states[k - 1], calls[k - 1], states[k]);
    }
  }

  /** Over every run of service calls with honest answers: whenever nothing is under way and nothing waits for the user,
      the scene is the one the account was opened with, plus exactly the changes the log reports as applied since; and
      at any time at most one change is being applied or unresolved. */
  lemma ServiceScene(setup: Setup, g0: Graph, states: seq<System>, calls: seq<ServiceCall>, k: nat)
    requires IsCallRun(setup, g0, states, calls) && k < |states|
    ensures SingleFlight(states[k].tables) && JointInv(states[k].tables) && LogInv(states[k].tables)
    ensures Idle(states[k].tables) && !Critical(states[k].tables) && AccountAtCall(states, calls, k).Some? ==>
              && states[k].bridge.graph == BaseOf(setup, AccountAtCall(states, calls, k).value, states[k].tables)
              && states[k].queue == []
  {
    hide CallStep, Initial, Inv, JointInv, LogInv, SingleFlight, Idle, Critical, BaseOf;
    CallRunsKeep(setup, g0, states, calls, k);
    InvTables(setup, AccountAtCall(states, calls, k), states[k]);
    if Idle(states[k].tables) && !Critical(states[k].tables) && AccountAtCall(states, calls, k).Some? {
      RestMeans(setup, AccountAtCall(states, calls, k).value, states[k]);
    }
  }

  // ---- the class ---------------------------------------------------------

  /** A call of the class in a system that satisfies the laws: if its answers were honest, the database it leaves is
      that of a state in which the laws hold again, and what it sent is what that course sends. */
  method ApplyKeeps(service: Service.ChangeSetService, ghost setup: Setup, ghost acc: Option<Account>, ghost s: System,
                    id: string, now: int)
    returns (r: Recovery, ghost first: Answers, ghost reply: ReceiptAnswer, ghost second: Answers)
    requires service.Tables() == s.tables && service.factory == setup.factory && Inv(setup, acc, s)
    modifies service.repository, service.bridge
    ensures service.bridge.sent == old(service.bridge.sent) + ApplyRequests(s.tables, id, now, setup.factory, first)
    ensures forall states, events ::
              var c := Course(first, states, events, reply, second);
              HonestCourse(setup, s, id, now, c) ==>
                && service.Tables() == AfterApply(setup, s, id, now, c).tables
                && Inv(setup, acc, AfterApply(setup, s, id, now, c))
  {
    hide Inv, HonestCourse, ApplyOne, JointInv, ApplyRequests, AfterFirst;
    InvTables(setup, acc, s);
    r, first, reply, second := service.Apply(id, now);
    forall states, events | HonestCourse(setup, s, id, now, Course(first, states, events, reply, second))
      ensures var c := Course(first, states, events, reply, second);
              && service.Tables() == AfterApply(setup, s, id, now, c).tables
              && Inv(setup, acc, AfterApply(setup, s, id, now, c))
    {
      var c := Course(first, states, events, reply, second);
      CallKeeps(setup, acc, s, ServiceCall.Applying(id, now, c), AfterApply(setup, s, id, now, c));
    }
  }
}
