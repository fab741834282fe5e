/** The persisted state machine as values: tables, the combined transactions, and what every run of them keeps. */
module RepositorySpec {
  import opened Wrappers
  import opened Contracts
  import Codec

  datatype Lifecycle =
    | Proposed | AwaitingApproval | Approved | Applying | Applied | RolledBack | CriticalRecovery | Recovered
    | Stale | Rejected | Expired

  datatype Decision = Pending | Approved | Rejected | Expired | Consumed

  /** Instance and epoch are bound together or not at all. */
  datatype Approval = Approval(approvalId: string, changeId: string, digest: Digest, decision: Decision, byUser: bool,
                               requestedAt: int, decidedAt: Option<int>, expiresAt: int, bound: Option<Binding>)

  datatype Row = Row(changeset: ChangeSet, state: Lifecycle)

  datatype Event =
    | ChangeProposed(changeId: string, state: Lifecycle)
    | ApprovalRequested(changeId: string)
    | ApprovalDecided(changeId: string, decision: Decision)
    | StateChanged(changeId: string, prior: Lifecycle, next: Lifecycle)
    | ChangeRecovered(changeId: string, prior: Lifecycle, next: Lifecycle)
    | OutcomeReported(changeId: string, status: ReceiptStatus)
    | WorkspaceCreated(workspaceId: string)

  datatype Tables = Tables(sessions: set<string>, runs: set<string>, rows: map<string, Row>,
                           approvals: map<string, Approval>, receipts: map<string, Receipt>, events: seq<Event>,
                           workspaces: map<string, Manifest>, active: map<string, string>)

  datatype RepoError =
    | NotFound | CasConflict | InvalidTransition | ApprovalRequired | DigestMismatch | ProposalConflict
    | SessionNotFound | RunNotFound | ApprovalExists | ApprovalExpired | AlreadyConsumed | BindingUnavailable
    | BindingMismatch | ReceiptConflict | RecordCorrupt | IdentityConflict | WorkspaceActive | InvalidArgument
    | StorageRefused

  datatype Done = Done(state: Lifecycle, events: seq<Event>)

  type Answer = Result<Done, RepoError>

  function Transitions(s: Lifecycle): set<Lifecycle> {
    match s
    case Proposed => {Lifecycle.AwaitingApproval}
    case AwaitingApproval => {Lifecycle.Approved, Lifecycle.Rejected, Lifecycle.Expired}
    case Approved => {Lifecycle.Applying, Lifecycle.Stale}
    case Applying => {Lifecycle.Applied, Lifecycle.RolledBack, Lifecycle.CriticalRecovery, Lifecycle.Approved}
    case CriticalRecovery => {Lifecycle.Recovered}
    case _ => {}
  }

  function ApprovalTransitions(d: Decision): set<Decision> {
    match d
    case Pending => {Decision.Approved, Decision.Rejected, Decision.Expired}
    case Approved => {Decision.Expired}
    case _ => {}
  }

  /** The approval records that can be constructed at all. */
  predicate ValidApproval(a: Approval) {
    && a.requestedAt < a.expiresAt
    && match a.decision
       case Pending => a.decidedAt.None? && !a.byUser && a.bound.None?
       case Approved => a.decidedAt.Some? && a.byUser && a.bound.Some?
       case Consumed => a.decidedAt.Some? && a.byUser && a.bound.Some?
       case Rejected => a.decidedAt.Some? && a.byUser && a.bound.None?
       case Expired => a.decidedAt.Some? && !a.byUser && a.bound.None?
  }

  function StateForReceipt(s: ReceiptStatus): Lifecycle {
    match s
    case Applied => Lifecycle.Applied
    case AlreadyApplied => Lifecycle.Applied
    case RolledBack => Lifecycle.RolledBack
    case Partial => Lifecycle.CriticalRecovery
    case CriticalRecovery => Lifecycle.CriticalRecovery
  }

  /** What reading a stored receipt gives back, or nothing when the record cannot be decoded. */
  function ReadBack(r: Receipt): Option<Receipt> {
    Codec.DecodeReceipt(Codec.EncodeReceipt(r))
  }

  predicate BoundReceipt(cs: ChangeSet, r: Receipt) {
    r.status in {ReceiptStatus.Applied, ReceiptStatus.AlreadyApplied, ReceiptStatus.RolledBack} ==>
      r.binding == cs.binding
  }

  // ---- the combined transactions -----------------------------------------

  function Moved(t: Tables, id: string, next: Lifecycle, events: seq<Event>): Tables
    requires id in t.rows
  {
    t.(rows := t.rows[id := t.rows[id].(state := next)], events := t.events + events)
  }

  predicate ApprovalIdTaken(t: Tables, approvalId: string) {
    exists k :: k in t.approvals && t.approvals[k].approvalId == approvalId
  }

  function Propose(t: Tables, cs: ChangeSet, a: Approval): (Tables, Answer) {
    var id := cs.changeId;
    var events := [ChangeProposed(id, Lifecycle.AwaitingApproval), ApprovalRequested(id)];
    if a.decision != Decision.Pending || a.changeId != id then (t, Err(InvalidArgument)) else
    if a.digest != cs then (t, Err(DigestMismatch)) else
    if id in t.rows then
      if t.rows[id].changeset != cs then (t, Err(ProposalConflict)) else
      if id !in t.approvals then (t, Err(ApprovalRequired)) else (t, Ok(Done(t.rows[id].state, [])))
    else
    if cs.sessionId !in t.sessions then (t, Err(SessionNotFound)) else
    if cs.runId !in t.runs then (t, Err(RunNotFound)) else
    if id in t.approvals then (t, Err(ApprovalExists)) else
    if ApprovalIdTaken(t, a.approvalId) then (t, Err(StorageRefused)) else
    (t.(rows := t.rows[id := Row(cs, Lifecycle.AwaitingApproval)], approvals := t.approvals[id := a],
        events := t.events + events), Ok(Done(Lifecycle.AwaitingApproval, events)))
  }

  function Decided(a: Approval, d: Decision, now: int, bound: Option<Binding>): Approval {
    a.(decision := d, byUser := d != Decision.Expired, decidedAt := Some(now), bound := bound)
  }

  function StateForDecision(d: Decision): Lifecycle {
    match d
    case Approved => Lifecycle.Approved
    case Expired => Lifecycle.Expired
    case _ => Lifecycle.Rejected
  }

  /** An expired pending approval is recorded as expired, whatever was asked for. */
  function Outcome(a: Approval, approve: bool, now: int): Decision {
    if now > a.expiresAt then Decision.Expired else if approve then Decision.Approved else Decision.Rejected
  }

  function Decide(t: Tables, id: string, digest: Digest, approve: bool, now: int, binding: Option<Binding>)
    : (Tables, Answer)
  {
    if approve && binding.None? then (t, Err(BindingUnavailable)) else
    if id !in t.rows then (t, Err(NotFound)) else
    if id !in t.approvals then (t, Err(ApprovalRequired)) else
    var cs, a := t.rows[id].changeset, t.approvals[id];
    if digest != cs || a.digest != cs then (t, Err(DigestMismatch)) else
    if a.decision == Decision.Expired then (t, Err(ApprovalExpired)) else
    if a.decision != Decision.Pending then (t, Err(AlreadyConsumed)) else
    if t.rows[id].state != Lifecycle.AwaitingApproval then (t, Err(CasConflict)) else
    var d := Outcome(a, approve, now);
    var next := StateForDecision(d);
    var events := [ApprovalDecided(id, d), StateChanged(id, Lifecycle.AwaitingApproval, next)];
    var decided := Decided(a, d, now, if d == Decision.Approved then binding else None);
    (Moved(t, id, next, events).(approvals := t.approvals[id := decided]), Ok(Done(next, events)))
  }

  function BeginApply(t: Tables, id: string, now: int): (Tables, Answer) {
    if id !in t.rows then (t, Err(NotFound)) else
    if t.rows[id].state != Lifecycle.Approved then (t, Err(CasConflict)) else
    if id !in t.approvals then (t, Err(ApprovalRequired)) else
    var cs, a := t.rows[id].changeset, t.approvals[id];
    if a.digest != cs then (t, Err(DigestMismatch)) else
    if a.bound != Some(cs.binding) then (t, Err(BindingMismatch)) else
    if a.decision == Decision.Approved && now > a.expiresAt then (t, Err(ApprovalExpired)) else
    if a.decision !in {Decision.Approved, Decision.Consumed} then (t, Err(AlreadyConsumed)) else
    var events := [StateChanged(id, Lifecycle.Approved, Lifecycle.Applying)];
    var used := if a.decision == Decision.Approved then Decided(a, Decision.Consumed, now, a.bound) else a;
    (Moved(t, id, Lifecycle.Applying, events).(approvals := t.approvals[id := used]),
     Ok(Done(Lifecycle.Applying, events)))
  }

  function CompleteApply(t: Tables, r: Receipt): (Tables, Answer) {
    var id, next := r.changeId, StateForReceipt(r.status);
    if id !in t.rows then (t, Err(NotFound)) else
    if !BoundReceipt(t.rows[id].changeset, r) then (t, Err(BindingMismatch)) else
    if id in t.receipts then
      var existing := ReadBack(t.receipts[id]);
      if existing.None? then (t, Err(RecordCorrupt)) else
      if existing.value != r then (t, Err(ReceiptConflict)) else
      if t.rows[id].state != next then (t, Err(RecordCorrupt)) else (t, Ok(Done(next, [])))
    else
    if t.rows[id].state != Lifecycle.Applying then (t, Err(CasConflict)) else
    var events := [StateChanged(id, Lifecycle.Applying, next), OutcomeReported(id, r.status)];
    (Moved(t, id, next, events).(receipts := t.receipts[id := r]), Ok(Done(next, events)))
  }

  predicate BootstrapBound(cs: ChangeSet, r: Receipt, w: Manifest) {
    && cs.workspaceId.None? && cs.permission == ProjectChange
    && w.sessionId == cs.sessionId && w.createdByRun == cs.runId
    && w.binding == r.binding == cs.binding
  }

  function CreatedWorkspaces(ops: seq<Operation>): set<string> {
    set i | 0 <= i < |ops| && ops[i].CreateNode? :: ops[i].workspaceId
  }

  /** This very completion is stored already. */
  predicate BootstrapStored(t: Tables, r: Receipt, w: Manifest)
    requires r.changeId in t.rows && r.changeId in t.receipts
  {
    && ReadBack(t.receipts[r.changeId]) == Some(r) && t.rows[r.changeId].state == Lifecycle.Applied
    && w.workspaceId in t.workspaces && w.sessionId in t.active
    && t.workspaces[w.workspaceId].revision == w.revision && t.active[w.sessionId] == w.workspaceId
  }

  function CompleteBootstrap(t: Tables, r: Receipt, w: Manifest): (Tables, Answer) {
    var id := r.changeId;
    if r.status !in {ReceiptStatus.Applied, ReceiptStatus.AlreadyApplied} then (t, Err(InvalidArgument)) else
    if id !in t.rows then (t, Err(NotFound)) else
    var cs := t.rows[id].changeset;
    if !BootstrapBound(cs, r, w) then (t, Err(BindingMismatch)) else
    if CreatedWorkspaces(cs.operations) != {w.workspaceId} then (t, Err(IdentityConflict)) else
    if id in t.receipts then
      if BootstrapStored(t, r, w) then (t, Ok(Done(Lifecycle.Applied, []))) else (t, Err(RecordCorrupt))
    else
    if t.rows[id].state != Lifecycle.Applying then (t, Err(CasConflict)) else
    if w.workspaceId in t.workspaces || w.sessionId in t.active then (t, Err(WorkspaceActive)) else
    var events := [StateChanged(id, Lifecycle.Applying, Lifecycle.Applied), OutcomeReported(id, r.status),
                   WorkspaceCreated(w.workspaceId)];
    (Moved(t, id, Lifecycle.Applied, events).(receipts := t.receipts[id := r],
       workspaces := t.workspaces[w.workspaceId := w], active := t.active[w.sessionId := w.workspaceId]),
     Ok(Done(Lifecycle.Applied, events)))
  }

  function RecoverToApproved(t: Tables, id: string): (Tables, Answer) {
    if id !in t.rows then (t, Err(NotFound)) else
    if t.rows[id].state != Lifecycle.Applying then (t, Err(CasConflict)) else
    if id !in t.approvals || t.approvals[id].decision != Decision.Consumed then (t, Err(RecordCorrupt)) else
    var events := [StateChanged(id, Lifecycle.Applying, Lifecycle.Approved)];
    (Moved(t, id, Lifecycle.Approved, events), Ok(Done(Lifecycle.Approved, events)))
  }

  function RecoverCritical(t: Tables, id: string): (Tables, Answer) {
    if id !in t.rows then (t, Err(NotFound)) else
    if t.rows[id].state != Lifecycle.CriticalRecovery then (t, Err(CasConflict)) else
    if id !in t.approvals || t.approvals[id].decision != Decision.Consumed then (t, Err(RecordCorrupt)) else
    var events := [ChangeRecovered(id, Lifecycle.CriticalRecovery, Lifecycle.Recovered)];
    (Moved(t, id, Lifecycle.Recovered, events), Ok(Done(Lifecycle.Recovered, events)))
  }

  // ---- runs --------------------------------------------------------------

  datatype Act =
    | DoPropose(cs: ChangeSet, approval: Approval)
    | DoDecide(id: string, digest: Digest, approve: bool, now: int, binding: Option<Binding>)
    | DoBegin(id: string, now: int)
    | DoComplete(receipt: Receipt)
    | DoBootstrap(receipt: Receipt, manifest: Manifest)
    | DoRecoverApproved(id: string)
    | DoRecoverCritical(id: string)

  predicate ValidAct(act: Act) {
    match act
    case DoPropose(_, approval) => ValidApproval(approval)
    case DoComplete(receipt) => Codec.ValidReceipt(receipt)
    case DoBootstrap(receipt, _) => Codec.ValidReceipt(receipt)
    case _ => true
  }

  function Perform(t: Tables, act: Act): (Tables, Answer) {
    match act
    case DoPropose(cs, approval) => Propose(t, cs, approval)
    case DoDecide(id, digest, approve, now, binding) => Decide(t, id, digest, approve, now, binding)
    case DoBegin(id, now) => BeginApply(t, id, now)
    case DoComplete(receipt) => CompleteApply(t, receipt)
    case DoBootstrap(receipt, manifest) => CompleteBootstrap(t, receipt, manifest)
    case DoRecoverApproved(id) => RecoverToApproved(t, id)
    case DoRecoverCritical(id) => RecoverCritical(t, id)
  }

  function PerformAll(t: Tables, acts: seq<Act>): Tables {
    if acts == [] then t else Perform(PerformAll(t, acts[..|acts| - 1]), acts[|acts| - 1]).0
  }

  function Empty(sessions: set<string>, runs: set<string>): Tables {
    Tables(sessions, runs, map[], map[], map[], [], map[], map[])
  }

  // ---- the joint invariant -----------------------------------------------

  predicate Settled(s: Lifecycle) {
    s in {Lifecycle.Applied, Lifecycle.RolledBack, Lifecycle.CriticalRecovery, Lifecycle.Recovered}
  }

  predicate Committed(s: Lifecycle) {
    s == Lifecycle.Applying || Settled(s)
  }

  predicate ApprovalAgrees(s: Lifecycle, d: Decision) {
    && (s == Lifecycle.AwaitingApproval <==> d == Decision.Pending)
    && (s == Lifecycle.Approved ==> d in {Decision.Approved, Decision.Consumed})
    && (Committed(s) ==> d == Decision.Consumed)
    && (s == Lifecycle.Rejected <==> d == Decision.Rejected)
    && (s == Lifecycle.Expired <==> d == Decision.Expired)
    && s != Lifecycle.Proposed && s != Lifecycle.Stale
  }

  predicate ReceiptAgrees(s: Lifecycle, r: Receipt) {
    StateForReceipt(r.status) == s || (s == Lifecycle.Recovered && StateForReceipt(r.status) == Lifecycle.CriticalRecovery)
  }

  /** What was decided in time, and what was not. */
  predicate DecidedInTime(a: Approval) {
    && (a.decision in {Decision.Approved, Decision.Rejected, Decision.Consumed} ==>
          a.decidedAt.Some? && a.decidedAt.value <= a.expiresAt)
    && (a.decision == Decision.Expired ==> a.decidedAt.Some? && a.decidedAt.value > a.expiresAt)
  }

  predicate ApprovalOk(a: Approval, id: string, row: Row) {
    && ValidApproval(a) && a.changeId == id && a.digest == row.changeset
    && ApprovalAgrees(row.state, a.decision) && DecidedInTime(a)
    && (a.decision == Decision.Consumed ==> a.bound == Some(row.changeset.binding))
  }

  predicate RowOk(t: Tables, id: string)
    requires id in t.rows
  {
    var row := t.rows[id];
    && row.changeset.changeId == id
    && id in t.approvals && ApprovalOk(t.approvals[id], id, row)
    && (id in t.receipts <==> Settled(row.state))
    && (id in t.receipts ==>
          t.receipts[id].changeId == id && Codec.ValidReceipt(t.receipts[id])
          && ReceiptAgrees(row.state, t.receipts[id]) && BoundReceipt(row.changeset, t.receipts[id]))
  }

  /** Rows, approvals and receipts always tell the same story. */
  predicate JointInv(t: Tables) {
    && t.approvals.Keys == t.rows.Keys
    && t.receipts.Keys <= t.rows.Keys
    && forall id :: id in t.rows ==> RowOk(t, id)
  }

  /** The tables differ at one stored change only. */
  predicate OnlyAt(t: Tables, t': Tables, id: string) {
    && id in t.rows && id in t'.rows && id in t'.approvals
    && t'.rows == t.rows[id := t'.rows[id]]
    && t'.approvals == t.approvals[id := t'.approvals[id]]
    && (t'.receipts == t.receipts || (id in t'.receipts && t'.receipts == t.receipts[id := t'.receipts[id]]))
  }

  lemma KeptElsewhere(t: Tables, t': Tables, id: string)
    requires JointInv(t) && OnlyAt(t, t', id) && RowOk(t', id)
    ensures JointInv(t')
  {
    hide ApprovalOk, ReceiptAgrees, BoundReceipt, Codec.ValidReceipt;
    forall k | k in t'.rows ensures RowOk(t', k) {
      if k != id { assert RowOk(t, k); }
    }
  }

  lemma RowOf(t: Tables, id: string)
    requires JointInv(t) && id in t.rows
    ensures RowOk(t, id)
  {
  }

  lemma PendingRow(t: Tables, id: string)
    requires JointInv(t) && id in t.rows && id in t.approvals && t.approvals[id].decision == Decision.Pending
    ensures t.rows[id].state == Lifecycle.AwaitingApproval && t.approvals[id].changeId == id
  {
    assert RowOk(t, id);
  }

  lemma ProposeKeeps(t: Tables, cs: ChangeSet, a: Approval)
    requires JointInv(t) && ValidApproval(a)
    ensures JointInv(Propose(t, cs, a).0)
  {
    hide ApprovalOk, ApprovalIdTaken;
    var t' := Propose(t, cs, a).0;
    if t' != t {
      forall id | id in t'.rows ensures RowOk(t', id) {
        if id == cs.changeId { NewApprovalOk(cs, a); } else { assert RowOk(t, id); }
      }
    }
  }

  lemma NewApprovalOk(cs: ChangeSet, a: Approval)
    requires ValidApproval(a) && a.decision == Decision.Pending && a.changeId == cs.changeId && a.digest == cs
    ensures ApprovalOk(a, cs.changeId, Row(cs, Lifecycle.AwaitingApproval))
  {
  }

  lemma DecideKeeps(t: Tables, id: string, digest: Digest, approve: bool, now: int, binding: Option<Binding>)
    requires JointInv(t)
    ensures JointInv(Decide(t, id, digest, approve, now, binding).0)
  {
    hide JointInv, Codec.ValidReceipt;
    var t' := Decide(t, id, digest, approve, now, binding).0;
    if t' != t {
      RowOf(t, id);
      KeptElsewhere(t, t', id);
    }
  }

  lemma BeginKeeps(t: Tables, id: string, now: int)
    requires JointInv(t)
    ensures JointInv(BeginApply(t, id, now).0)
  {
    hide JointInv, Codec.ValidReceipt;
    var t' := BeginApply(t, id, now).0;
    if t' != t {
      RowOf(t, id);
      KeptElsewhere(t, t', id);
    }
  }

  /** A change that is being applied has a consumed approval, which stays the same. */
  lemma ApplyingMoves(id: string, a: Approval, row: Row, next: Lifecycle)
    requires ApprovalOk(a, id, row) && Committed(row.state)
    requires next == Lifecycle.Approved || Committed(next)
    ensures ApprovalOk(a, id, row.(state := next))
  {
  }

  lemma CompleteKeeps(t: Tables, r: Receipt)
    requires JointInv(t) && Codec.ValidReceipt(r)
    ensures JointInv(CompleteApply(t, r).0)
  {
    hide JointInv, ReadBack, Codec.ValidReceipt, ApprovalOk, BoundReceipt;
    var t' := CompleteApply(t, r).0;
    if t' != t {
      RowOf(t, r.changeId);
      ApplyingMoves(r.changeId, t.approvals[r.changeId], t.rows[r.changeId], StateForReceipt(r.status));
      KeptElsewhere(t, t', r.changeId);
    }
  }

  lemma BootstrapKeeps(t: Tables, r: Receipt, w: Manifest)
    requires JointInv(t) && Codec.ValidReceipt(r)
    ensures JointInv(CompleteBootstrap(t, r, w).0)
  {
    hide JointInv, ReadBack, Codec.ValidReceipt, ApprovalOk, CreatedWorkspaces;
    var t' := CompleteBootstrap(t, r, w).0;
    if t' != t {
      RowOf(t, r.changeId);
      ApplyingMoves(r.changeId, t.approvals[r.changeId], t.rows[r.changeId], Lifecycle.Applied);
      KeptElsewhere(t, t', r.changeId);
    }
  }

  lemma RecoverApprovedKeeps(t: Tables, id: string)
    requires JointInv(t)
    ensures JointInv(RecoverToApproved(t, id).0)
  {
    hide JointInv, Codec.ValidReceipt, ApprovalOk, BoundReceipt, ReceiptAgrees;
    var t' := RecoverToApproved(t, id).0;
    if t' != t {
      RowOf(t, id);
      ApplyingMoves(id, t.approvals[id], t.rows[id], Lifecycle.Approved);
      KeptElsewhere(t, t', id);
    }
  }

  lemma RecoverCriticalKeeps(t: Tables, id: string)
    requires JointInv(t)
    ensures JointInv(RecoverCritical(t, id).0)
  {
    hide JointInv, Codec.ValidReceipt, ApprovalOk, BoundReceipt;
    var t' := RecoverCritical(t, id).0;
    if t' != t {
      RowOf(t, id);
      ApplyingMoves(id, t.approvals[id], t.rows[id], Lifecycle.Recovered);
      KeptElsewhere(t, t', id);
    }
  }

  lemma PerformKeeps(t: Tables, act: Act)
    requires JointInv(t) && ValidAct(act)
    ensures JointInv(Perform(t, act).0)
  {
    match act {
      case DoPropose(cs, approval) => ProposeKeeps(t, cs, approval);
      case DoDecide(id, digest, approve, now, binding) => DecideKeeps(t, id, digest, approve, now, binding);
      case DoBegin(id, now) => BeginKeeps(t, id, now);
      case DoComplete(receipt) => CompleteKeeps(t, receipt);
      case DoBootstrap(receipt, manifest) => BootstrapKeeps(t, receipt, manifest);
      case DoRecoverApproved(id) => RecoverApprovedKeeps(t, id);
      case DoRecoverCritical(id) => RecoverCriticalKeeps(t, id);
    }
  }

  /** The joint invariant holds after any run of the combined transactions. */
  lemma {:induction false} RunsKeep(sessions: set<string>, runs: set<string>, acts: seq<Act>)
    requires forall a :: a in acts ==> ValidAct(a)
    ensures JointInv(PerformAll(Empty(sessions, runs), acts))
  {
    if acts != [] {
      RunsKeep(sessions, runs, acts[..|acts| - 1]);
      PerformKeeps(PerformAll(Empty(sessions, runs), acts[..|acts| - 1]), acts[|acts| - 1]);
    }
  }

  // ---- consumption -------------------------------------------------------

  /** A consumed approval is never consumed or rewritten again. */
  lemma ConsumedStays(t: Tables, act: Act, id: string)
    requires JointInv(t) && id in t.approvals && t.approvals[id].decision == Decision.Consumed
    ensures var t' := Perform(t, act).0;
            id in t'.approvals && t'.approvals[id] == t.approvals[id]
  {
    hide JointInv, ReadBack, ApprovalIdTaken, BootstrapBound, BoundReceipt, CreatedWorkspaces, RowOk;
    KnownRow(t, id);
  }

  lemma KnownRow(t: Tables, id: string)
    requires JointInv(t) && id in t.approvals
    ensures id in t.rows
  {
  }

  lemma {:induction false} ConsumedForever(t: Tables, acts: seq<Act>, id: string)
    requires JointInv(t) && (forall a :: a in acts ==> ValidAct(a))
    requires id in t.approvals && t.approvals[id].decision == Decision.Consumed
    ensures JointInv(PerformAll(t, acts))
    ensures id in PerformAll(t, acts).approvals && PerformAll(t, acts).approvals[id] == t.approvals[id]
  {
    hide JointInv;
    if acts != [] {
      ConsumedForever(t, acts[..|acts| - 1], id);
      PerformKeeps(PerformAll(t, acts[..|acts| - 1]), acts[|acts| - 1]);
      ConsumedStays(PerformAll(t, acts[..|acts| - 1]), acts[|acts| - 1], id);
    }
  }

  // ---- the event log -----------------------------------------------------

  /** The state a change has after the logged events, if it was proposed at all. */
  function StateOf(events: seq<Event>, id: string): Option<Lifecycle> {
    if events == [] then None else
    var before := StateOf(events[..|events| - 1], id);
    match events[|events| - 1]
    case ChangeProposed(i, s) => if i == id then Some(s) else before
    case StateChanged(i, _, next) => if i == id then Some(next) else before
    case ChangeRecovered(i, _, next) => if i == id then Some(next) else before
    case _ => before
  }

  /** An event continues the log: it starts from the state the log had reached, along a legal transition. */
  predicate Continues(events: seq<Event>, e: Event) {
    match e
    case ChangeProposed(i, s) => StateOf(events, i).None? && s == Lifecycle.AwaitingApproval
    case StateChanged(i, prior, next) => StateOf(events, i) == Some(prior) && next in Transitions(prior)
    case ChangeRecovered(i, prior, next) => StateOf(events, i) == Some(prior) && next in Transitions(prior)
    case _ => true
  }

  predicate ChainOk(events: seq<Event>) {
    events == [] || (ChainOk(events[..|events| - 1]) && Continues(events[..|events| - 1], events[|events| - 1]))
  }

  function StoredState(t: Tables, id: string): Option<Lifecycle> {
    if id in t.rows then Some(t.rows[id].state) else None
  }

  /** Folding the log gives the stored state of every change, and the log is one legal path per change. */
  ghost predicate LogInv(t: Tables) {
    ChainOk(t.events) && forall id :: StateOf(t.events, id) == StoredState(t, id)
  }

  lemma Appended(events: seq<Event>, e: Event)
    ensures (events + [e])[..|events|] == events && (events + [e])[|events|] == e
  {
  }

  lemma LogOne(events: seq<Event>, e: Event)
    requires ChainOk(events) && Continues(events, e)
    ensures ChainOk(events + [e])
  {
    Appended(events, e);
  }

  predicate Quiet(events: seq<Event>) {
    forall e :: e in events ==> !e.StateChanged? && !e.ChangeRecovered? && !e.ChangeProposed?
  }

  /** Appending the events of one transaction moves that change and no other. */
  lemma LogMoves(t: Tables, id: string, before: seq<Event>, move: Event, later: seq<Event>)
    requires LogInv(t) && id in t.rows && Quiet(before) && Quiet(later)
    requires move.StateChanged? || move.ChangeRecovered?
    requires move.changeId == id && move.prior == t.rows[id].state && move.next in Transitions(move.prior)
    ensures LogInv(Moved(t, id, move.next, before + [move] + later))
  {
    hide Transitions, ChainOk;
    var quiet := t.events + before;
    assert StateOf(t.events, id) == StoredState(t, id);
    Silent(t.events, before);
    Appended(quiet, move);
    LogOne(quiet, move);
    Silent(quiet + [move], later);
    assert t.events + (before + [move] + later) == quiet + [move] + later;
    var t' := Moved(t, id, move.next, before + [move] + later);
    forall k ensures StateOf(t'.events, k) == StoredState(t', k) {
      assert StateOf(t.events, k) == StoredState(t, k);
    }
  }

  lemma {:induction false} Silent(events: seq<Event>, later: seq<Event>)
    requires ChainOk(events) && Quiet(later)
    ensures ChainOk(events + later)
    ensures forall id :: StateOf(events + later, id) == StateOf(events, id)
  {
    if later == [] {
      assert events + later == events;
    } else {
      var front, last := later[..|later| - 1], later[|later| - 1];
      Silent(events, front);
      assert events + later == events + front + [last];
      Appended(events + front, last);
      LogOne(events + front, last);
    }
  }

  /** The tables after a transaction that moved one change and said so. */
  lemma LogMoved(t: Tables, t': Tables, id: string, before: seq<Event>, move: Event, later: seq<Event>,
                 events: seq<Event>)
    requires LogInv(t) && id in t.rows && Quiet(before) && Quiet(later)
    requires move.StateChanged? || move.ChangeRecovered?
    requires move.changeId == id && move.prior == t.rows[id].state && move.next in Transitions(move.prior)
    requires events == before + [move] + later
    requires t'.events == t.events + events && t'.rows == Moved(t, id, move.next, events).rows
    ensures LogInv(t') && t.events <= t'.events
  {
    hide LogInv;
    LogMoves(t, id, before, move, later);
    SameLog(Moved(t, id, move.next, events), t');
  }

  lemma SameLog(t: Tables, t': Tables)
    requires LogInv(t) && t'.events == t.events && t'.rows == t.rows
    ensures LogInv(t')
  {
  }

  lemma ProposeLogs(t: Tables, cs: ChangeSet, a: Approval)
    requires LogInv(t)
    ensures LogInv(Propose(t, cs, a).0) && t.events <= Propose(t, cs, a).0.events
  {
    hide ApprovalIdTaken;
    var t' := Propose(t, cs, a).0;
    if t' != t {
      var first := ChangeProposed(cs.changeId, Lifecycle.AwaitingApproval);
      var rest := [ApprovalRequested(cs.changeId)];
      Appended(t.events, first);
      assert StateOf(t.events, cs.changeId) == StoredState(t, cs.changeId);
      LogOne(t.events, first);
      Silent(t.events + [first], rest);
      assert t'.events == t.events + [first] + rest;
      forall id ensures StateOf(t'.events, id) == StoredState(t', id) {
        assert StateOf(t.events, id) == StoredState(t, id);
      }
    }
  }

  lemma DecideLogs(t: Tables, id: string, digest: Digest, approve: bool, now: int, binding: Option<Binding>)
    requires LogInv(t)
    ensures LogInv(Decide(t, id, digest, approve, now, binding).0)
    ensures t.events <= Decide(t, id, digest, approve, now, binding).0.events
  {
    hide LogInv, Decided;
    var t' := Decide(t, id, digest, approve, now, binding).0;
    if t' != t {
      var d := Outcome(t.approvals[id], approve, now);
      var move := StateChanged(id, Lifecycle.AwaitingApproval, StateForDecision(d));
      LogMoved(t, t', id, [ApprovalDecided(id, d)], move, [], [ApprovalDecided(id, d), move]);
    }
  }

  lemma BootstrapLogs(t: Tables, r: Receipt, w: Manifest)
    requires LogInv(t)
    ensures LogInv(CompleteBootstrap(t, r, w).0) && t.events <= CompleteBootstrap(t, r, w).0.events
  {
    hide LogInv, BootstrapBound, BootstrapStored, CreatedWorkspaces;
    var t' := CompleteBootstrap(t, r, w).0;
    if t' != t {
      var move := StateChanged(r.changeId, Lifecycle.Applying, Lifecycle.Applied);
      var later := [OutcomeReported(r.changeId, r.status), WorkspaceCreated(w.workspaceId)];
      LogMoved(t, t', r.changeId, [], move, later, [move, later[0], later[1]]);
    }
  }

  /** Every transaction keeps the log in step with the tables, and only ever appends to it. */
  lemma PerformLogs(t: Tables, act: Act)
    requires LogInv(t)
    ensures LogInv(Perform(t, act).0)
    ensures t.events <= Perform(t, act).0.events
  {
    hide LogInv, ReadBack, ApprovalIdTaken, BootstrapBound, BootstrapStored, BoundReceipt, CreatedWorkspaces, Decided;
    hide Propose, Decide, CompleteBootstrap;
    var t' := Perform(t, act).0;
    if t' != t {
      match act {
        case DoPropose(cs, approval) => ProposeLogs(t, cs, approval);
        case DoDecide(id, digest, approve, now, binding) => DecideLogs(t, id, digest, approve, now, binding);
        case DoBegin(id, now) =>
          var move := StateChanged(id, Lifecycle.Approved, Lifecycle.Applying);
          LogMoved(t, t', id, [], move, [], [move]);
        case DoComplete(r) =>
          var move := StateChanged(r.changeId, Lifecycle.Applying, StateForReceipt(r.status));
          var last := OutcomeReported(r.changeId, r.status);
          LogMoved(t, t', r.changeId, [], move, [last], [move, last]);
        case DoBootstrap(r, w) => BootstrapLogs(t, r, w);
        case DoRecoverApproved(id) =>
          var move := StateChanged(id, Lifecycle.Applying, Lifecycle.Approved);
          LogMoved(t, t', id, [], move, [], [move]);
        case DoRecoverCritical(id) =>
          var move := ChangeRecovered(id, Lifecycle.CriticalRecovery, Lifecycle.Recovered);
          LogMoved(t, t', id, [], move, [], [move]);
      }
    }
  }

  lemma EmptyLogs(sessions: set<string>, runs: set<string>)
    ensures LogInv(Empty(sessions, runs))
  {
  }

  /** After any run the durable events of each change fold to its stored state. */
  lemma {:induction false} RunsLog(sessions: set<string>, runs: set<string>, acts: seq<Act>)
    ensures LogInv(PerformAll(Empty(sessions, runs), acts))
  {
    hide LogInv, Perform;
    EmptyLogs(sessions, runs);
    if acts != [] {
      RunsLog(sessions, runs, acts[..|acts| - 1]);
      PerformLogs(PerformAll(Empty(sessions, runs), acts[..|acts| - 1]), acts[|acts| - 1]);
    }
  }

  /** How often the log reports the change as applied. */
  function TimesApplied(events: seq<Event>, id: string): nat {
    if events == [] then 0 else
    var last := events[|events| - 1];
    TimesApplied(events[..|events| - 1], id)
    + (if (last.StateChanged? || last.ChangeRecovered?) && last.changeId == id && last.next == Lifecycle.Applied
       then 1 else 0)
  }

  /** A change is applied at most once, and nothing follows that. */
  lemma {:induction false} AppliedOnce(events: seq<Event>, id: string)
    requires ChainOk(events)
    ensures TimesApplied(events, id) == if StateOf(events, id) == Some(Lifecycle.Applied) then 1 else 0
  {
    if events != [] {
      AppliedOnce(events[..|events| - 1], id);
    }
  }

  // ---- idempotence -------------------------------------------------------

  /** Proposing a stored change again reports its present state and appends nothing, whatever has happened since;
      proposing another ChangeSet under its id is refused. */
  lemma RepeatedProposal(t: Tables, cs: ChangeSet, a: Approval)
    requires JointInv(t) && cs.changeId in t.rows
    requires a.decision == Decision.Pending && a.changeId == cs.changeId && a.digest == cs
    ensures Propose(t, cs, a).0 == t
    ensures t.rows[cs.changeId].changeset == cs ==> Propose(t, cs, a).1 == Ok(Done(t.rows[cs.changeId].state, []))
    ensures t.rows[cs.changeId].changeset != cs ==> Propose(t, cs, a).1 == Err(ProposalConflict)
  {
    assert RowOk(t, cs.changeId);
  }

  /** Completing a settled change again changes nothing. It is answered as done exactly when the receipt is the
      stored one, carries no error code, and the change was not resolved to Recovered meanwhile. */
  lemma RepeatedCompletion(t: Tables, r: Receipt)
    requires JointInv(t) && Codec.ValidReceipt(r) && r.changeId in t.receipts
    ensures CompleteApply(t, r).0 == t
    ensures CompleteApply(t, r).1.Ok?
       <==> t.receipts[r.changeId] == r && r.errorCode.None? && t.rows[r.changeId].state != Lifecycle.Recovered
    ensures CompleteApply(t, r).1.Ok? ==> CompleteApply(t, r).1.value.events == []
  {
    assert RowOk(t, r.changeId);
    Codec.ReceiptRoundTrip(t.receipts[r.changeId]);
    Codec.ReceiptRoundTrip(r);
  }
}
