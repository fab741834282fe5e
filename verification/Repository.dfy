/** The database the service drives: tables changed only inside transactions that commit as a whole or not at all. */
module Repository {
  import opened Wrappers
  import opened Contracts
  import opened RepositorySpec
  import Codec

  class ChangeSetRepository {
    var sessions: set<string>
    var runs: set<string>
    var rows: map<string, Row>
    var approvals: map<string, Approval>
    var receipts: map<string, Receipt>
    var events: seq<Event>
    var workspaces: map<string, Manifest>
    var active: map<string, string>

    function Contents(): Tables
      reads this
    {
      Tables(sessions, runs, rows, approvals, receipts, events, workspaces, active)
    }

    constructor (sessions: set<string>, runs: set<string>)
      ensures Contents() == Empty(sessions, runs)
    {
      this.sessions, this.runs := sessions, runs;
      rows, approvals, receipts, events, workspaces, active := map[], map[], map[], [], map[], map[];
    }

    /** Abandons a transaction: every table is as it was when the transaction began. */
    method Abandon(saved: Tables, error: RepoError) returns (answer: Answer)
      modifies this
      ensures Contents() == saved && answer == Err(error)
    {
      sessions, runs, rows, approvals := saved.sessions, saved.runs, saved.rows, saved.approvals;
      receipts, events, workspaces, active := saved.receipts, saved.events, saved.workspaces, saved.active;
      answer := Err(error);
    }

    /** Compare-and-set of a lifecycle state inside a transaction. */
    method TransitionState(id: string, prior: Lifecycle, next: Lifecycle) returns (error: Option<RepoError>)
      modifies this`rows
      ensures error == if id !in old(rows) then Some(NotFound) else
                       if old(rows)[id].state != prior then Some(CasConflict) else
                       if next !in Transitions(prior) then Some(InvalidTransition) else None
      ensures rows == if error.Some? then old(rows) else old(rows)[id := old(rows)[id].(state := next)]
    {
      if id !in rows { return Some(NotFound); }
      if rows[id].state != prior { return Some(CasConflict); }
      if next !in Transitions(prior) { return Some(InvalidTransition); }
      rows := rows[id := rows[id].(state := next)];
      error := None;
    }

    /** Compare-and-set of an approval inside a transaction; the approval keeps its identity. */
    method WriteApproval(a: Approval, expected: Decision) returns (error: Option<RepoError>)
      modifies this`approvals
      ensures error == if a.changeId !in old(approvals) then Some(NotFound) else
                       if a.approvalId != old(approvals)[a.changeId].approvalId then Some(IdentityConflict) else
                       if old(approvals)[a.changeId].decision != expected then Some(CasConflict) else
                       if a.decision !in ApprovalTransitions(expected) then Some(InvalidTransition) else None
      ensures approvals == if error.Some? then old(approvals) else old(approvals)[a.changeId := a]
    {
      if a.changeId !in approvals { return Some(NotFound); }
      if a.approvalId != approvals[a.changeId].approvalId { return Some(IdentityConflict); }
      if approvals[a.changeId].decision != expected { return Some(CasConflict); }
      if a.decision !in ApprovalTransitions(expected) { return Some(InvalidTransition); }
      approvals := approvals[a.changeId := a];
      error := None;
    }

    method Append(e: Event)
      modifies this`events
      ensures events == old(events) + [e]
    {
      events := events + [e];
    }

    /** Persists a proposed ChangeSet and asks for its approval. */
    method Propose(cs: ChangeSet, a: Approval) returns (answer: Answer)
      requires JointInv(Contents()) && ValidApproval(a)
      modifies this
      ensures (Contents(), answer) == RepositorySpec.Propose(old(Contents()), cs, a)
      ensures JointInv(Contents())
    {
      hide JointInv;
      ProposeKeeps(Contents(), cs, a);
      if a.decision != Decision.Pending || a.changeId != cs.changeId { return Err(InvalidArgument); }
      if a.digest != cs { return Err(DigestMismatch); }
      var id, saved := cs.changeId, Contents();
      if id in rows {
        if rows[id].changeset != cs { return Err(ProposalConflict); }
        if id !in approvals { return Err(ApprovalRequired); }
        return Ok(Done(rows[id].state, []));
      }
      if cs.sessionId !in sessions { return Err(SessionNotFound); }
      if cs.runId !in runs { return Err(RunNotFound); }
      rows := rows[id := Row(cs, Lifecycle.Proposed)];
      if id in approvals { answer := Abandon(saved, ApprovalExists); return; }
      if ApprovalIdTaken(Contents(), a.approvalId) { answer := Abandon(saved, StorageRefused); return; }
      approvals := approvals[id := a];
      var _ := TransitionState(id, Lifecycle.Proposed, Lifecycle.AwaitingApproval);
      Append(ChangeProposed(id, Lifecycle.AwaitingApproval));
      Append(ApprovalRequested(id));
      assert events == saved.events + [ChangeProposed(id, Lifecycle.AwaitingApproval), ApprovalRequested(id)];
      assert rows == saved.rows[id := Row(cs, Lifecycle.AwaitingApproval)];
      answer := Ok(Done(Lifecycle.AwaitingApproval,
                        [ChangeProposed(id, Lifecycle.AwaitingApproval), ApprovalRequested(id)]));
    }

    /** Approves, rejects or expires a pending approval together with its ChangeSet. */
    method Decide(id: string, digest: Digest, approve: bool, now: int, binding: Option<Binding>)
      returns (answer: Answer)
      requires JointInv(Contents())
      modifies this
      ensures (Contents(), answer) == RepositorySpec.Decide(old(Contents()), id, digest, approve, now, binding)
      ensures JointInv(Contents())
    {
      hide JointInv, RowOk;
      DecideKeeps(Contents(), id, digest, approve, now, binding);
      var saved := Contents();
      if approve && binding.None? { return Err(BindingUnavailable); }
      if id !in rows { return Err(NotFound); }
      if id !in approvals { return Err(ApprovalRequired); }
      var a := approvals[id];
      if digest != rows[id].changeset { return Err(DigestMismatch); }
      if a.digest != rows[id].changeset { return Err(DigestMismatch); }
      if a.decision != Decision.Pending {
        return Err(if a.decision == Decision.Expired then ApprovalExpired else AlreadyConsumed);
      }
      PendingRow(Contents(), id);
      var decided, next := Decided(a, Decision.Rejected, now, None), Lifecycle.Rejected;
      if now > a.expiresAt {
        decided, next := Decided(a, Decision.Expired, now, None), Lifecycle.Expired;
      } else if approve {
        decided, next := Decided(a, Decision.Approved, now, binding), Lifecycle.Approved;
      }
      var _ := WriteApproval(decided, Decision.Pending);
      var _ := TransitionState(id, Lifecycle.AwaitingApproval, next);
      assert rows == saved.rows[id := saved.rows[id].(state := next)];
      Append(ApprovalDecided(id, decided.decision));
      Append(StateChanged(id, Lifecycle.AwaitingApproval, next));
      var logged := [ApprovalDecided(id, decided.decision), StateChanged(id, Lifecycle.AwaitingApproval, next)];
      assert events == saved.events + logged;
      answer := Ok(Done(next, logged));
    }

    /** Crosses into Applying before anything is sent; consumes the approval unless that was done already. */
    method BeginApply(id: string, now: int) returns (answer: Answer)
      requires JointInv(Contents())
      modifies this
      ensures (Contents(), answer) == RepositorySpec.BeginApply(old(Contents()), id, now)
      ensures JointInv(Contents())
    {
      hide JointInv;
      BeginKeeps(Contents(), id, now);
      if id !in rows { return Err(NotFound); }
      if rows[id].state != Lifecycle.Approved { return Err(CasConflict); }
      if id !in approvals { return Err(ApprovalRequired); }
      var a, cs := approvals[id], rows[id].changeset;
      if a.digest != cs { return Err(DigestMismatch); }
      if a.bound != Some(cs.binding) { return Err(BindingMismatch); }
      if a.decision == Decision.Approved {
        if now > a.expiresAt { return Err(ApprovalExpired); }
        approvals := approvals[id := Decided(a, Decision.Consumed, now, a.bound)];
      } else if a.decision != Decision.Consumed {
        return Err(AlreadyConsumed);
      } else {
        assert approvals == approvals[id := a];
      }
      var _ := TransitionState(id, Lifecycle.Approved, Lifecycle.Applying);
      Append(StateChanged(id, Lifecycle.Approved, Lifecycle.Applying));
      answer := Ok(Done(Lifecycle.Applying, [StateChanged(id, Lifecycle.Approved, Lifecycle.Applying)]));
    }

    /** Inside a transaction: stores the receipt, moves the change on and says so. */
    method Settle(r: Receipt, next: Lifecycle)
      requires r.changeId in rows && rows[r.changeId].state == Lifecycle.Applying
      requires next in Transitions(Lifecycle.Applying)
      modifies this`receipts, this`rows, this`events
      ensures receipts == old(receipts)[r.changeId := r]
      ensures rows == old(rows)[r.changeId := old(rows)[r.changeId].(state := next)]
      ensures events == old(events) + [StateChanged(r.changeId, Lifecycle.Applying, next),
                                       OutcomeReported(r.changeId, r.status)]
    {
      receipts := receipts[r.changeId := r];
      var _ := TransitionState(r.changeId, Lifecycle.Applying, next);
      Append(StateChanged(r.changeId, Lifecycle.Applying, next));
      Append(OutcomeReported(r.changeId, r.status));
    }

    /** Stores a receipt and the state it stands for. */
    method CompleteApply(r: Receipt) returns (answer: Answer)
      requires JointInv(Contents()) && Codec.ValidReceipt(r)
      modifies this
      ensures (Contents(), answer) == RepositorySpec.CompleteApply(old(Contents()), r)
      ensures JointInv(Contents())
    {
      hide JointInv, Codec.ValidReceipt, ReadBack;
      CompleteKeeps(Contents(), r);
      var id, next, saved := r.changeId, StateForReceipt(r.status), Contents();
      if id !in rows { return Err(NotFound); }
      if !BoundReceipt(rows[id].changeset, r) { return Err(BindingMismatch); }
      if id in receipts {
        var existing := ReadBack(receipts[id]);
        if existing.None? { return Err(RecordCorrupt); }
        if existing.value != r { return Err(ReceiptConflict); }
        if rows[id].state != next { return Err(RecordCorrupt); }
        return Ok(Done(next, []));
      }
      if rows[id].state != Lifecycle.Applying { return Err(CasConflict); }
      Settle(r, next);
      var logged := [StateChanged(id, Lifecycle.Applying, next), OutcomeReported(id, r.status)];
      assert events == saved.events + logged;
      answer := Ok(Done(next, logged));
    }

    /** Completes a first apply and activates the workspace it created. */
    method CompleteBootstrap(r: Receipt, w: Manifest) returns (answer: Answer)
      requires JointInv(Contents()) && Codec.ValidReceipt(r)
      modifies this
      ensures (Contents(), answer) == RepositorySpec.CompleteBootstrap(old(Contents()), r, w)
      ensures JointInv(Contents())
    {
      hide JointInv, Codec.ValidReceipt, CreatedWorkspaces, BootstrapBound, BootstrapStored;
      BootstrapKeeps(Contents(), r, w);
      var id, saved := r.changeId, Contents();
      if r.status !in {ReceiptStatus.Applied, ReceiptStatus.AlreadyApplied} { return Err(InvalidArgument); }
      if id !in rows { return Err(NotFound); }
      var cs := rows[id].changeset;
      if !BootstrapBound(cs, r, w) { return Err(BindingMismatch); }
      if CreatedWorkspaces(cs.operations) != {w.workspaceId} { return Err(IdentityConflict); }
      if id in receipts {
        return if BootstrapStored(Contents(), r, w) then Ok(Done(Lifecycle.Applied, [])) else Err(RecordCorrupt);
      }
      if rows[id].state != Lifecycle.Applying { return Err(CasConflict); }
      if w.workspaceId in workspaces || w.sessionId in active { return Err(WorkspaceActive); }
      Settle(r, Lifecycle.Applied);
      workspaces := workspaces[w.workspaceId := w];
      active := active[w.sessionId := w.workspaceId];
      Append(WorkspaceCreated(w.workspaceId));
      var logged := [StateChanged(id, Lifecycle.Applying, Lifecycle.Applied), OutcomeReported(id, r.status),
                     WorkspaceCreated(w.workspaceId)];
      assert events == saved.events + logged;
      answer := Ok(Done(Lifecycle.Applied, logged));
    }

    /** Takes an interrupted apply back to Approved once it is proven to have written nothing. */
    method RecoverToApproved(id: string) returns (answer: Answer)
      requires JointInv(Contents())
      modifies this
      ensures (Contents(), answer) == RepositorySpec.RecoverToApproved(old(Contents()), id)
      ensures JointInv(Contents())
    {
      hide JointInv;
      RecoverApprovedKeeps(Contents(), id);
      if id !in rows { return Err(NotFound); }
      if rows[id].state != Lifecycle.Applying { return Err(CasConflict); }
      if id !in approvals || approvals[id].decision != Decision.Consumed { return Err(RecordCorrupt); }
      var _ := TransitionState(id, Lifecycle.Applying, Lifecycle.Approved);
      Append(StateChanged(id, Lifecycle.Applying, Lifecycle.Approved));
      answer := Ok(Done(Lifecycle.Approved, [StateChanged(id, Lifecycle.Applying, Lifecycle.Approved)]));
    }

    /** Resolves a critical outcome that no longer affects a live scene. */
    method RecoverCritical(id: string) returns (answer: Answer)
      requires JointInv(Contents())
      modifies this
      ensures (Contents(), answer) == RepositorySpec.RecoverCritical(old(Contents()), id)
      ensures JointInv(Contents())
    {
      hide JointInv;
      RecoverCriticalKeeps(Contents(), id);
      if id !in rows { return Err(NotFound); }
      if rows[id].state != Lifecycle.CriticalRecovery { return Err(CasConflict); }
      if id !in approvals || approvals[id].decision != Decision.Consumed { return Err(RecordCorrupt); }
      var _ := TransitionState(id, Lifecycle.CriticalRecovery, Lifecycle.Recovered);
      Append(ChangeRecovered(id, Lifecycle.CriticalRecovery, Lifecycle.Recovered));
      answer := Ok(Done(Lifecycle.Recovered, [ChangeRecovered(id, Lifecycle.CriticalRecovery, Lifecycle.Recovered)]));
    }
  }
}
