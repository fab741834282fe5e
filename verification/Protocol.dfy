/** The whole system: the database, the bridge with its scene, and the requests and replies between them, any of
    which may be lost. Requests reach the bridge in the order they were issued, and nothing else writes the scene. */
module Protocol {
  import opened Wrappers
  import opened Contracts
  import opened SceneGraph
  import opened Transactions
  import opened Preflight
  import opened Admission
  import opened ExecutorSpec
  import opened Pins
  import opened RepositorySpec
  import opened ServiceSpec
  import opened Runs
  import Coverage
  import Codec

  datatype Request = Request(cs: ChangeSet, ws: Option<Manifest>)

  datatype System = System(tables: Tables, bridge: BridgeState, queue: seq<Request>, inbox: Option<Receipt>)

  /** What never changes: the bridge process and the rule that builds first manifests. */
  datatype Setup = Setup(proc: Process, factory: ManifestFactory)

  datatype Event =
    | Administer(act: Act)
    | Rebind(workspaces: map<string, Manifest>)
    | Begin(id: string, now: int, sent: bool)
    | Execute(faulted: bool, reply: Reply, arrives: bool)
    | Deliver
    | LoseReply
    | LoseRequests
    | Forget(cache: Cache, frozen: bool)
    | Recover(id: string, ra: ReceiptAnswer, fa: FactsAnswer)
    | Resolve(id: string, fa: FactsAnswer)

  /** A receipt that the decoder of the other side accepts. */
  predicate Readable(r: Receipt) {
    Codec.ValidReceipt(r) && r.errorCode.None?
  }

  /** A receipt query is answered from the cache, once everything asked for earlier has run. */
  predicate HonestReceipt(s: System, cs: ChangeSet, ra: ReceiptAnswer) {
    && (ra.Ok? ==> s.queue == [] && CacheGet(s.bridge.cache, (cs.changeId, cs)) == Some(ra.value) && Readable(ra.value))
    && (ra == Err(ReceiptUnavailable) ==> s.queue == [] && CacheGet(s.bridge.cache, (cs.changeId, cs)).None?)
  }

  predicate HonestFacts(setup: Setup, s: System, cs: ChangeSet, ws: Option<Manifest>, fa: FactsAnswer) {
    fa.Ok? ==> s.queue == [] && Run(s.bridge.graph, setup.proc.binding, cs, ws) == Known(fa.value)
  }

  /** One step of the system. Service calls are serialized; a call that recovers has given up on its reply. */
  ghost predicate Next(setup: Setup, s: System, e: Event, s': System) {
    match e
    case Administer(act) =>
      (act.DoPropose? || act.DoDecide?) && ValidAct(act) && s' == s.(tables := Perform(s.tables, act).0)
      && (act.DoPropose? ==> ValidChangeSet(act.cs) && Coverage.PostconditionsCovered(act.cs))
    case Rebind(workspaces) => s' == s.(tables := s.tables.(workspaces := workspaces))
    case Begin(id, now, sent) =>
      var (t, a) := Start(s.tables, id, now);
      && (a.Ok? ==> WorkspaceFor(s.tables, s.tables.rows[id].changeset).Ok?)
      && s' == s.(tables := t, inbox := if a.Ok? then None else s.inbox,
                  queue := if a.Ok? && sent
                           then s.queue + [Request(s.tables.rows[id].changeset,
                                                   WorkspaceFor(s.tables, s.tables.rows[id].changeset).value)]
                           else s.queue)
    case Execute(faulted, reply, arrives) =>
      && s.queue != [] && s'.tables == s.tables && s'.queue == s.queue[1..]
      && ValidChangeSet(s.queue[0].cs)
      && ApplyOutcome(s.bridge, s'.bridge, setup.proc.binding, setup.proc.cacheMax, s.queue[0].cs, s.queue[0].ws,
                      EnvOf(setup.proc.defaults, s.queue[0].cs), faulted, reply)
      && s'.inbox == if arrives && reply.Replied? && Readable(reply.receipt) then Some(reply.receipt) else None
    case Deliver =>
      && s.inbox.Some? && s.inbox.value.changeId in s.tables.rows
      && Codec.ValidReceipt(s.inbox.value) && ReceiptValid(s.tables.rows[s.inbox.value.changeId].changeset, s.inbox.value)
      && s' == s.(inbox := None,
                  tables := Complete(s.tables, s.tables.rows[s.inbox.value.changeId].changeset, s.inbox.value,
                                     setup.factory).0)
    case LoseReply => s' == s.(inbox := None)
    case LoseRequests => s' == s.(queue := [])
    case Forget(cache, frozen) =>
      (forall c :: c in cache ==> c in s.bridge.cache) && s' == s.(bridge := s.bridge.(cache := cache, frozen := frozen))
    case Recover(id, ra, fa) =>
      && (ra.Ok? ==> Codec.ValidReceipt(ra.value))
      && (id in s.tables.rows ==>
            && HonestReceipt(s, s.tables.rows[id].changeset, ra)
            && (WorkspaceFor(s.tables, s.tables.rows[id].changeset).Ok? ==>
                  HonestFacts(setup, s, s.tables.rows[id].changeset,
                              WorkspaceFor(s.tables, s.tables.rows[id].changeset).value, fa)))
      && s' == s.(tables := RecoverOne(s.tables, id, setup.factory, ra, fa).0, inbox := None)
    case Resolve(id, fa) =>
      && (id in s.tables.rows && WorkspaceFor(s.tables, s.tables.rows[id].changeset).Ok? ==>
            HonestFacts(setup, s, s.tables.rows[id].changeset,
                        WorkspaceFor(s.tables, s.tables.rows[id].changeset).value, fa))
      && s' == s.(tables := RecoverCriticalOne(s.tables, id, fa).0, inbox := None)
  }

  /** One step after the other. */
  ghost predicate Chain(setup: Setup, states: seq<System>, events: seq<Event>) {
    |states| == |events| + 1 && forall i :: 0 <= i < |events| ==> Next(setup, states[i], events[i], states[i + 1])
  }

  // ---- the specification -------------------------------------------------

  function EffectOf(setup: Setup, g: Graph, rows: map<string, Row>, id: string): Graph {
    if id in rows && UniqueCreated(rows[id].changeset.operations)
    then Writes(g, EnvOf(setup.proc.defaults, rows[id].changeset), rows[id].changeset.operations) else g
  }

  /** The scene the event log accounts for: the first one with every change it reports as applied, in log order. */
  function Accounted(setup: Setup, g: Graph, rows: map<string, Row>, events: seq<RepositorySpec.Event>): Graph {
    if events == [] then g else
    var before := Accounted(setup, g, rows, events[..|events| - 1]);
    match events[|events| - 1]
    case StateChanged(id, _, next) => if next == Lifecycle.Applied then EffectOf(setup, before, rows, id) else before
    case _ => before
  }

  /** Where an account starts: a scene, and how much of the log was written by then. */
  datatype Account = Account(scene: Graph, from: nat)

  function EventsSince(events: seq<RepositorySpec.Event>, from: nat): seq<RepositorySpec.Event> {
    if from <= |events| then events[from..] else []
  }

  /** The scene the log accounts for since the account was opened. */
  function BaseOf(setup: Setup, acc: Account, t: Tables): Graph {
    Accounted(setup, acc.scene, t.rows, EventsSince(t.events, acc.from))
  }

  /** The user resolving a critical outcome opens a new account from the scene as it is; there is none if requests may
      still be on their way. */
  function AccountAfter(acc: Option<Account>, s: System, e: Event, s': System): Option<Account> {
    if e.Resolve? && s'.tables != s.tables
    then (if s.queue == [] then Some(Account(s'.bridge.graph, |s'.tables.events|)) else None)
    else acc
  }

  /** Some outcome waits for the user. */
  predicate Critical(t: Tables) {
    exists id :: id in t.rows && t.rows[id].state == Lifecycle.CriticalRecovery
  }

  /** Some outcome was left to the user to judge. */
  predicate Unresolved(t: Tables) {
    exists id :: id in t.rows && t.rows[id].state in {Lifecycle.CriticalRecovery, Lifecycle.Recovered}
  }

  /** A receipt tells the truth about the one run of a change that started from `base`. */
  ghost predicate Truthful(setup: Setup, base: Graph, g: Graph, cs: ChangeSet, r: Receipt)
    requires UniqueCreated(cs.operations)
  {
    && r.status != AlreadyApplied
    && (r.status == ReceiptStatus.Applied ==> g == Writes(base, EnvOf(setup.proc.defaults, cs), cs.operations))
    && (r.status == ReceiptStatus.RolledBack ==> g == base)
  }

  ghost predicate GoodRows(t: Tables) {
    forall id :: id in t.rows ==>
      ValidChangeSet(t.rows[id].changeset) && Coverage.PostconditionsCovered(t.rows[id].changeset)
  }

  /** Receipts are cached only for changes that have been begun. */
  predicate CacheKnown(t: Tables, cache: Cache) {
    forall e :: e in cache ==>
      e.0.0 in t.rows && e.0.1 == t.rows[e.0.0].changeset && Committed(t.rows[e.0.0].state)
  }

  predicate LoggedKnown(rows: map<string, Row>, events: seq<RepositorySpec.Event>) {
    forall e :: e in events && e.StateChanged? ==> e.changeId in rows
  }

  ghost predicate InFlight(setup: Setup, base: Graph, s: System, id: string)
    requires id in s.tables.rows && UniqueCreated(s.tables.rows[id].changeset.operations)
  {
    var cs, g := s.tables.rows[id].changeset, s.bridge.graph;
    if s.queue == [] then
      && Interrupted(base, g, setup.proc.binding, cs)
      && (s.inbox.Some? ==> s.inbox.value.changeId == id && Truthful(setup, base, g, cs, s.inbox.value))
      && (forall e :: e in s.bridge.cache && e.0.0 == id ==> Truthful(setup, base, g, cs, e.1))
    else
      && (exists ws :: s.queue == [Request(cs, ws)]) && g == base && s.inbox.None?
      && (forall e :: e in s.bridge.cache ==> e.0.0 != id)
  }

  /** Requests wait only for changes that have been begun. */
  predicate QueueKnown(t: Tables, queue: seq<Request>) {
    forall q :: q in queue ==>
      q.cs.changeId in t.rows && q.cs == t.rows[q.cs.changeId].changeset && Committed(t.rows[q.cs.changeId].state)
  }

  /** What holds whatever was left to the user. */
  ghost predicate Steady(s: System) {
    && GoodRows(s.tables) && Tree(s.bridge.graph)
    && CacheKnown(s.tables, s.bridge.cache) && QueueKnown(s.tables, s.queue)
  }

  /** While nothing waits for the user: the scene is accounted for, or exactly one change is under way. */
  ghost predicate Consistent(setup: Setup, acc: Account, s: System) {
    var t := s.tables;
    var base := BaseOf(setup, acc, t);
    && GoodRows(t) && LoggedKnown(t.rows, t.events) && acc.from <= |t.events|
    && Tree(base) && Tree(s.bridge.graph)
    && CacheKnown(t, s.bridge.cache)
    && (forall id :: id in t.rows && t.rows[id].state == Lifecycle.Applying ==> InFlight(setup, base, s, id))
    && ((forall id :: id in t.rows ==> t.rows[id].state != Lifecycle.Applying) ==>
          s.bridge.graph == base && s.queue == [] && s.inbox.None?)
  }

  ghost predicate Inv(setup: Setup, acc: Option<Account>, s: System) {
    && JointInv(s.tables) && LogInv(s.tables) && SingleFlight(s.tables)
    && Steady(s)
    && (Critical(s.tables) || acc.None? || Consistent(setup, acc.value, s))
  }
}
