/** What the service decides from the answers of the bridge, and what it then stores. */
module ServiceSpec {
  import opened Wrappers
  import opened Contracts
  import opened SceneGraph
  import opened Preflight
  import opened Pins
  import opened RepositorySpec
  import Codec
  import ExecutorSpec

  /** A call of the bridge that gave no result: for now, for good, or because the receipt is not there. */
  datatype BridgeError = Transient | ReceiptUnavailable | Permanent

  type ReceiptAnswer = Result<Receipt, BridgeError>
  type FactsAnswer = Result<Facts, BridgeError>

  /** Builds the manifest of a first apply from its receipt, if there is one to build. */
  type ManifestFactory = (ChangeSet, Receipt) -> Option<Manifest>

  datatype Problem = Repo(error: RepoError) | BridgeUnavailable | CriticalRequired | ApplyFailed

  /** One recovery: still open, or a state with the receipt that was stored for it. */
  datatype Recovery = Failed(problem: Problem) | Open | Reached(state: Lifecycle, receipt: Option<Receipt>)

  // ---- reading the evidence ----------------------------------------------

  predicate FactsMatch(cs: ChangeSet, ws: Option<Manifest>, f: Facts) {
    && f.binding == cs.binding
    && f.workspaceId == (if ws.Some? then Some(ws.value.workspaceId) else None)
    && f.revision == (if ws.Some? then Some(ws.value.revision) else None)
    && |f.results| == |cs.preconditions|
    && (f.allHold <==> forall i :: 0 <= i < |f.results| ==> f.results[i])
  }

  function PostVerdicts(f: Facts, conds: seq<Condition>): (r: seq<bool>)
    ensures |r| == |conds| && forall i :: 0 <= i < |conds| ==> r[i] == ServicePostHolds(f, conds[i])
  {
    seq(|conds|, i requires 0 <= i < |conds| => ServicePostHolds(f, conds[i]))
  }

  predicate LooksDone(cs: ChangeSet, f: Facts) {
    cs.postconditions != [] && ServicePostsHold(f, cs)
  }

  predicate ReceiptValid(cs: ChangeSet, r: Receipt) {
    r.changeId == cs.changeId && BoundReceipt(cs, r)
  }

  function CriticalReceipt(cs: ChangeSet, facts: Option<Facts>): (r: Receipt)
    ensures Codec.ValidReceipt(r) && ReceiptValid(cs, r) && r.errorCode.None?
    ensures StateForReceipt(r.status) == Lifecycle.CriticalRecovery
  {
    var post := if facts.Some? then PostVerdicts(facts.value, cs.postconditions)
                else seq(|cs.postconditions|, _ => false);
    Receipt(cs.changeId, ReceiptStatus.CriticalRecovery, if facts.Some? then facts.value.binding else cs.binding, [],
            post, [], true, None, None)
  }

  function DoneReceipt(cs: ChangeSet, f: Facts): (r: Receipt)
    requires LooksDone(cs, f)
    ensures Codec.ValidReceipt(r) && ReceiptValid(cs, r) && r.errorCode.None?
    ensures StateForReceipt(r.status) == Lifecycle.Applied
  {
    Receipt(cs.changeId, ReceiptStatus.AlreadyApplied, cs.binding,
            ExecutorSpec.OpIds(cs.operations), PostVerdicts(f, cs.postconditions), [], false, None, None)
  }

  // ---- the verdict of a recovery -----------------------------------------

  datatype Verdict = Wait | BackToApproved | Settle(receipt: Receipt)

  /** The receipt first, then the facts; anything unclear is critical. */
  function Judge(cs: ChangeSet, ws: Option<Manifest>, ra: ReceiptAnswer, fa: FactsAnswer): Verdict {
    if ra.Ok? then Settle(if ReceiptValid(cs, ra.value) then ra.value else CriticalReceipt(cs, None)) else
    if ra.error.Transient? then Wait else
    if ra.error.Permanent? then Settle(CriticalReceipt(cs, None)) else
    if fa.Err? then (if fa.error.Transient? then Wait else Settle(CriticalReceipt(cs, None))) else
    if !FactsMatch(cs, ws, fa.value) then Settle(CriticalReceipt(cs, Some(fa.value))) else
    if fa.value.allHold then BackToApproved else
    if LooksDone(cs, fa.value) then Settle(DoneReceipt(cs, fa.value)) else
    Settle(CriticalReceipt(cs, Some(fa.value)))
  }

  function Complete(t: Tables, cs: ChangeSet, r: Receipt, factory: ManifestFactory): (Tables, Answer) {
    var w := factory(cs, r);
    if w.Some? then CompleteBootstrap(t, r, w.value) else CompleteApply(t, r)
  }

  function FromAnswer(a: Answer, receipt: Option<Receipt>): Recovery {
    if a.Err? then Failed(Repo(a.error)) else Reached(a.value.state, receipt)
  }

  /** The manifest of the workspace a ChangeSet names. */
  function WorkspaceFor(t: Tables, cs: ChangeSet): Result<Option<Manifest>, Problem> {
    if cs.workspaceId.None? then Ok(None) else
    if cs.workspaceId.value !in t.workspaces then Err(Repo(NotFound)) else
    var w := t.workspaces[cs.workspaceId.value];
    if w.sessionId != cs.sessionId then Err(CriticalRequired) else Ok(Some(w))
  }

  /** Reading back the receipt of a settled change. */
  function StoredReceipt(t: Tables, id: string): Result<Receipt, Problem> {
    if id !in t.receipts then Err(Repo(NotFound)) else
    var r := ReadBack(t.receipts[id]);
    if r.None? then Err(Repo(RecordCorrupt)) else Ok(r.value)
  }

  function StoredRecovery(t: Tables, id: string, s: Lifecycle): Recovery {
    var r := StoredReceipt(t, id);
    if r.Err? then Failed(r.error) else Reached(s, Some(r.value))
  }

  /** Recovery of one change, given what the bridge answered. */
  function RecoverOne(t: Tables, id: string, factory: ManifestFactory, ra: ReceiptAnswer, fa: FactsAnswer)
    : (Tables, Recovery)
  {
    if id !in t.rows then (t, Failed(Repo(NotFound))) else
    var cs, s := t.rows[id].changeset, t.rows[id].state;
    if s in {Lifecycle.Applied, Lifecycle.RolledBack, Lifecycle.CriticalRecovery} then (t, StoredRecovery(t, id, s)) else
    if s != Lifecycle.Applying then (t, Reached(s, None)) else
    var ws := WorkspaceFor(t, cs);
    if ws.Err? then (t, Failed(ws.error)) else
    match Judge(cs, ws.value, ra, fa)
    case Wait => (t, Open)
    case BackToApproved => var (t', a) := RecoverToApproved(t, id); (t', FromAnswer(a, None))
    case Settle(r) => var (t', a) := Complete(t, cs, r, factory); (t', FromAnswer(a, Some(r)))
  }

  // ---- resolving a critical outcome --------------------------------------

  datatype CriticalVerdict = StillOpen | Refused | Resolved

  function JudgeCritical(cs: ChangeSet, fa: FactsAnswer): CriticalVerdict {
    if fa.Err? then (if fa.error.Transient? then StillOpen else Resolved) else
    if fa.value.binding != cs.binding then Resolved else
    if LooksDone(cs, fa.value) then Resolved else Refused
  }

  function RecoverCriticalOne(t: Tables, id: string, fa: FactsAnswer): (Tables, Recovery) {
    if id !in t.rows then (t, Failed(Repo(NotFound))) else
    var cs, s := t.rows[id].changeset, t.rows[id].state;
    if s in {Lifecycle.Applied, Lifecycle.RolledBack, Lifecycle.Recovered} then (t, StoredRecovery(t, id, s)) else
    if s != Lifecycle.CriticalRecovery then (t, Reached(s, None)) else
    var ws := WorkspaceFor(t, cs);
    if ws.Err? then (t, Failed(ws.error)) else
    match JudgeCritical(cs, fa)
    case StillOpen => (t, Open)
    case Refused => (t, Reached(Lifecycle.CriticalRecovery, None))
    case Resolved => var (t', a) := RepositorySpec.RecoverCritical(t, id); (t', FromAnswer(a, None))
  }

  /** A preflight of a live scene that still holds something of what the change was to create raises, and the refusal
      is then taken for an absent scene: the outcome is resolved although the scene is there and half-written. */
  lemma HalfCreatedIsResolved(g: Graph, binding: Binding, cs: ChangeSet, ws: Option<Manifest>, m: int)
    requires ValidChangeSet(cs) && 0 <= m < |cs.operations| && cs.operations[m].CreateNode?
    requires CreatedPath(cs.operations[m]) in g || Mirrors(g, cs.operations[m].nodeId) != {}
    ensures Run(g, binding, cs, ws).Raised? && JudgeCritical(cs, Err(Permanent)) == Resolved
  {
    hide Run, ValidChangeSet;
    if Run(g, binding, cs, ws).Known? { KnownCreatesAbsent(g, binding, cs, ws, m); }
  }

  /** The manual exit is refused exactly when the scene is there, preflight raises nothing, and not all expected
      postconditions hold. */
  lemma RefusedIff(cs: ChangeSet, fa: FactsAnswer)
    ensures JudgeCritical(cs, fa) == Refused <==> fa.Ok? && fa.value.binding == cs.binding && !LooksDone(cs, fa.value)
  {
  }

  // ---- applying ----------------------------------------------------------

  /** Receipt and facts as one recovery got them. */
  datatype Answers = Answers(ra: ReceiptAnswer, fa: FactsAnswer)

  /** One apply call: an earlier attempt is recovered first; then barrier, transaction, one request, and either the
      receipt is stored or the attempt is recovered. */
  function ApplyOne(t: Tables, id: string, now: int, factory: ManifestFactory, first: Answers, reply: ReceiptAnswer,
                    second: Answers): (Tables, Recovery)
  {
    if id !in t.rows then (t, Failed(Repo(NotFound))) else
    var s := t.rows[id].state;
    if s in {Lifecycle.Applied, Lifecycle.RolledBack, Lifecycle.CriticalRecovery} then (t, StoredRecovery(t, id, s)) else
    if s != Lifecycle.Applying then Attempt(t, id, now, factory, reply, second) else
    var (t', r) := RecoverOne(t, id, factory, first.ra, first.fa);
    if r.Open? then (t', Failed(BridgeUnavailable)) else
    if r.Failed? || r.receipt.Some? then (t', r) else Attempt(t', id, now, factory, reply, second)
  }

  function Attempt(t: Tables, id: string, now: int, factory: ManifestFactory, reply: ReceiptAnswer, second: Answers)
    : (Tables, Recovery)
  {
    if id !in t.rows then (t, Failed(Repo(NotFound))) else
    var cs := t.rows[id].changeset;
    if !WriteAvailable(t, id) then (t, Failed(CriticalRequired)) else
    var ws := WorkspaceFor(t, cs);
    if ws.Err? then (t, Failed(ws.error)) else
    var (t', a) := BeginApply(t, id, now);
    if a.Err? then (t', Failed(Repo(a.error))) else AfterReply(t', cs, factory, reply, second)
  }

  function AfterReply(t: Tables, cs: ChangeSet, factory: ManifestFactory, reply: ReceiptAnswer, second: Answers)
    : (Tables, Recovery)
  {
    if reply.Ok? && ReceiptValid(cs, reply.value) then
      var (t', a) := Complete(t, cs, reply.value, factory);
      (t', FromAnswer(a, Some(reply.value)))
    else
      var (t', r) := RecoverOne(t, cs.changeId, factory, second.ra, second.fa);
      (t', if r.Failed? || (r.Reached? && r.receipt.Some?) then r else Failed(ApplyFailed))
  }

  /** Where an apply call stands when it comes to the barrier, if it comes that far. */
  function BeforeAttempt(t: Tables, id: string, factory: ManifestFactory, first: Answers): Option<Tables> {
    if id !in t.rows || t.rows[id].state in {Lifecycle.Applied, Lifecycle.RolledBack, Lifecycle.CriticalRecovery}
    then None else
    if t.rows[id].state != Lifecycle.Applying then Some(t) else
    var (t', r) := RecoverOne(t, id, factory, first.ra, first.fa);
    if r.Reached? && r.receipt.None? then Some(t') else None
  }

  /** An attempt gets as far as its request. */
  predicate Sends(t: Tables, id: string, now: int) {
    id in t.rows && WriteAvailable(t, id) && WorkspaceFor(t, t.rows[id].changeset).Ok? && BeginApply(t, id, now).1.Ok?
  }

  /** The requests of one attempt: the change with the manifest of its workspace, once or not at all. */
  function AttemptRequests(t: Tables, id: string, now: int): seq<(ChangeSet, Option<Manifest>)> {
    if Sends(t, id, now) then [(t.rows[id].changeset, WorkspaceFor(t, t.rows[id].changeset).value)] else []
  }

  function ApplyRequests(t: Tables, id: string, now: int, factory: ManifestFactory, first: Answers)
    : seq<(ChangeSet, Option<Manifest>)>
  {
    var before := BeforeAttempt(t, id, factory, first);
    if before.Some? then AttemptRequests(before.value, id, now) else []
  }

  // ---- what is heard from the bridge -------------------------------------

  /** An answer of the bridge, with what it answers: a request to write, a receipt query, a look at the scene. */
  datatype Heard =
    | Served(cs: ChangeSet, ws: Option<Manifest>, ra: ReceiptAnswer)
    | Told(cs: ChangeSet, ra: ReceiptAnswer)
    | Looked(cs: ChangeSet, ws: Option<Manifest>, fa: FactsAnswer)

  /** A recovery hears about an interrupted change only: its receipt, and the facts if there is no receipt. */
  function RecoveryHeard(t: Tables, id: string, a: Answers): seq<Heard> {
    if id !in t.rows || t.rows[id].state != Lifecycle.Applying then [] else
    var cs := t.rows[id].changeset;
    if WorkspaceFor(t, cs).Err? then [] else
    [Told(cs, a.ra)] + (if a.ra == Err(ReceiptUnavailable) then [Looked(cs, WorkspaceFor(t, cs).value, a.fa)] else [])
  }

  function ExitHeard(t: Tables, id: string, fa: FactsAnswer): seq<Heard> {
    if id !in t.rows || t.rows[id].state != Lifecycle.CriticalRecovery then [] else
    var cs := t.rows[id].changeset;
    if WorkspaceFor(t, cs).Err? then [] else [Looked(cs, WorkspaceFor(t, cs).value, fa)]
  }

  function AttemptHeard(t: Tables, id: string, now: int, reply: ReceiptAnswer, second: Answers): seq<Heard> {
    if !Sends(t, id, now) then [] else
    var cs := t.rows[id].changeset;
    [Served(cs, WorkspaceFor(t, cs).value, reply)]
    + (if reply.Ok? && ReceiptValid(cs, reply.value) then []
       else RecoveryHeard(BeginApply(t, id, now).0, cs.changeId, second))
  }

  function ApplyHeard(t: Tables, id: string, now: int, factory: ManifestFactory, first: Answers, reply: ReceiptAnswer,
                      second: Answers): seq<Heard>
  {
    var before := BeforeAttempt(t, id, factory, first);
    RecoveryHeard(t, id, first) + (if before.Some? then AttemptHeard(before.value, id, now, reply, second) else [])
  }

  // ---- the barrier -------------------------------------------------------

  predicate Blocks(s: Lifecycle) {
    s in {Lifecycle.Applying, Lifecycle.CriticalRecovery}
  }

  /** No change other than this one is being applied or unresolved. */
  predicate WriteAvailable(t: Tables, id: string) {
    forall k :: k in t.rows && Blocks(t.rows[k].state) ==> k == id
  }

  /** At most one change is being applied or unresolved. */
  predicate SingleFlight(t: Tables) {
    forall i, j :: i in t.rows && j in t.rows && Blocks(t.rows[i].state) && Blocks(t.rows[j].state) ==> i == j
  }

  /** The only way into Applying: barrier first, then the transaction. */
  function Start(t: Tables, id: string, now: int): (Tables, Result<Done, Problem>) {
    if !WriteAvailable(t, id) then (t, Err(CriticalRequired)) else
    var (t', a) := BeginApply(t, id, now);
    (t', if a.Ok? then Ok(a.value) else Err(Repo(a.error)))
  }

  lemma StartKeepsSingleFlight(t: Tables, id: string, now: int)
    requires SingleFlight(t)
    ensures SingleFlight(Start(t, id, now).0)
    ensures Start(t, id, now).1.Ok? ==>
              forall k :: k in t.rows && k != id ==> !Blocks(Start(t, id, now).0.rows[k].state)
  {
  }

  /** Every other transaction lets a change block only if it blocked before. */
  lemma OthersKeepSingleFlight(t: Tables, act: Act)
    requires SingleFlight(t) && !act.DoBegin?
    ensures SingleFlight(Perform(t, act).0)
    ensures forall k :: k in Perform(t, act).0.rows && Blocks(Perform(t, act).0.rows[k].state)
              ==> k in t.rows && Blocks(t.rows[k].state)
  {
    hide SingleFlight, ReadBack, ApprovalIdTaken, BootstrapBound, BootstrapStored, BoundReceipt, CreatedWorkspaces;
    var t' := Perform(t, act).0;
    forall k | k in t'.rows && Blocks(t'.rows[k].state) ensures k in t.rows && Blocks(t.rows[k].state) { }
    StillSingle(t, t');
  }

  lemma StillSingle(t: Tables, t': Tables)
    requires SingleFlight(t)
    requires forall k :: k in t'.rows && Blocks(t'.rows[k].state) ==> k in t.rows && Blocks(t.rows[k].state)
    ensures SingleFlight(t')
  {
  }

  // ---- recovery is sound -------------------------------------------------

  /** A recovery gives the change back for another attempt only when the bridge said that no receipt exists and that
      every precondition holds. */
  lemma BackToApprovedIff(cs: ChangeSet, ws: Option<Manifest>, ra: ReceiptAnswer, fa: FactsAnswer)
    ensures Judge(cs, ws, ra, fa).BackToApproved?
       <==> ra == Err(ReceiptUnavailable) && fa.Ok? && FactsMatch(cs, ws, fa.value) && fa.value.allHold
  {
  }

  predicate SettlesApplied(v: Verdict) {
    v.Settle? && StateForReceipt(v.receipt.status) == Lifecycle.Applied
  }

  /** A recovery calls a change applied only on a receipt of success that fits it, or on facts under which its
      preconditions fail and its expected postconditions, at least one, all hold. */
  lemma AppliedOnEvidence(cs: ChangeSet, ws: Option<Manifest>, ra: ReceiptAnswer, fa: FactsAnswer)
    ensures SettlesApplied(Judge(cs, ws, ra, fa))
       <==> || (ra.Ok? && ReceiptValid(cs, ra.value) && StateForReceipt(ra.value.status) == Lifecycle.Applied)
            || (ra == Err(ReceiptUnavailable) && fa.Ok? && FactsMatch(cs, ws, fa.value) && !fa.value.allHold
                && LooksDone(cs, fa.value))
  {
  }

  /** A receipt that is stored for a change is one about it. */
  lemma SettlesThis(cs: ChangeSet, ws: Option<Manifest>, ra: ReceiptAnswer, fa: FactsAnswer)
    requires ra.Ok? ==> Codec.ValidReceipt(ra.value)
    ensures var v := Judge(cs, ws, ra, fa);
            v.Settle? ==> ReceiptValid(cs, v.receipt) && Codec.ValidReceipt(v.receipt)
  {
    hide Codec.ValidReceipt, FactsMatch, LooksDone;
  }

  // ---- recovery as a transaction -----------------------------------------

  function CompletionAct(cs: ChangeSet, r: Receipt, factory: ManifestFactory): Act {
    var w := factory(cs, r);
    if w.Some? then DoBootstrap(r, w.value) else DoComplete(r)
  }

  lemma CompletionIsAct(t: Tables, cs: ChangeSet, r: Receipt, factory: ManifestFactory)
    ensures Complete(t, cs, r, factory) == Perform(t, CompletionAct(cs, r, factory))
  {
  }

  /** The transaction a recovery ends in, if any. */
  function RecoveryAct(t: Tables, id: string, factory: ManifestFactory, ra: ReceiptAnswer, fa: FactsAnswer): Option<Act>
  {
    if id !in t.rows || t.rows[id].state != Lifecycle.Applying then None else
    var cs := t.rows[id].changeset;
    var ws := WorkspaceFor(t, cs);
    if ws.Err? then None else
    match Judge(cs, ws.value, ra, fa)
    case Wait => None
    case BackToApproved => Some(DoRecoverApproved(id))
    case Settle(r) => Some(CompletionAct(cs, r, factory))
  }

  /** A recovery changes the tables by at most one transaction, and never begins an apply. */
  lemma RecoveryIsAct(t: Tables, id: string, factory: ManifestFactory, ra: ReceiptAnswer, fa: FactsAnswer)
    ensures var act := RecoveryAct(t, id, factory, ra, fa);
            && (act.Some? ==> !act.value.DoBegin?)
            && RecoverOne(t, id, factory, ra, fa).0 == if act.Some? then Perform(t, act.value).0 else t
  {
    hide Judge, CompleteApply, CompleteBootstrap, RecoverToApproved, StoredReceipt, WorkspaceFor;
  }

  /** Completions and recoveries leave every approval and every ChangeSet as it is. */
  lemma CompletionLeaves(t: Tables, cs: ChangeSet, r: Receipt, factory: ManifestFactory, id: string)
    ensures Complete(t, cs, r, factory).0.approvals == t.approvals
    ensures id in t.rows ==> id in Complete(t, cs, r, factory).0.rows
                             && Complete(t, cs, r, factory).0.rows[id].changeset == t.rows[id].changeset
  {
    hide ReadBack, BootstrapBound, BootstrapStored, BoundReceipt, CreatedWorkspaces;
  }

  lemma RecoveryLeaves(t: Tables, k: string, factory: ManifestFactory, ra: ReceiptAnswer, fa: FactsAnswer, id: string)
    ensures RecoverOne(t, k, factory, ra, fa).0.approvals == t.approvals
    ensures id in t.rows ==> id in RecoverOne(t, k, factory, ra, fa).0.rows
                             && RecoverOne(t, k, factory, ra, fa).0.rows[id].changeset == t.rows[id].changeset
  {
    hide Complete, Judge, StoredReceipt, WorkspaceFor;
    if k in t.rows && WorkspaceFor(t, t.rows[k].changeset).Ok? {
      var cs := t.rows[k].changeset;
      var v := Judge(cs, WorkspaceFor(t, cs).value, ra, fa);
      if v.Settle? { CompletionLeaves(t, cs, v.receipt, factory, id); }
    }
  }

  /** A change that entered Applying has its approval consumed. */
  lemma BegunConsumed(t: Tables, id: string, now: int)
    requires BeginApply(t, id, now).1.Ok?
    ensures var t' := BeginApply(t, id, now).0;
            id in t'.approvals && t'.approvals[id].decision == Decision.Consumed && t.rows[id].state == Lifecycle.Approved
  {
  }
}
