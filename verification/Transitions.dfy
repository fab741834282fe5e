/** What each transaction does to one stored change, told from the tables: when it goes through, and what is stored. */
module Transitions {
  import opened Wrappers
  import opened Contracts
  import opened RepositorySpec
  import Codec

  /** The tables differ in one change at most, and the log only grows. */
  ghost predicate OnlyThis(t: Tables, t': Tables, id: string) {
    && t'.sessions == t.sessions && t'.runs == t.runs && t.events <= t'.events
    && (forall k :: k != id ==> (k in t.rows <==> k in t'.rows) && (k in t.approvals <==> k in t'.approvals)
                                && (k in t.receipts <==> k in t'.receipts))
    && (forall k :: k != id && k in t.rows ==> t'.rows[k] == t.rows[k])
    && (forall k :: k != id && k in t.approvals ==> t'.approvals[k] == t.approvals[k])
    && (forall k :: k != id && k in t.receipts ==> t'.receipts[k] == t.receipts[k])
  }

  /** The one row is in a new state; its ChangeSet is the same. */
  ghost predicate NowIn(t: Tables, t': Tables, id: string, s: Lifecycle) {
    id in t.rows && id in t'.rows && t'.rows[id] == Row(t.rows[id].changeset, s)
  }

  ghost predicate SameWorkspaces(t: Tables, t': Tables) {
    t'.workspaces == t.workspaces && t'.active == t.active
  }

  // ---- proposing ---------------------------------------------------------

  /** A request for approval of exactly this change. */
  predicate AsksFor(a: Approval, cs: ChangeSet) {
    a.decision == Decision.Pending && a.changeId == cs.changeId && a.digest == cs
  }

  /** A new change is stored, awaiting approval, if and only if its session and its run are known and the request is for
      this very change under an id of its own. */
  lemma ProposesIff(t: Tables, cs: ChangeSet, a: Approval)
    requires JointInv(t) && cs.changeId !in t.rows
    ensures var (t', r) := Propose(t, cs, a);
            && (r.Ok? <==> AsksFor(a, cs) && cs.sessionId in t.sessions && cs.runId in t.runs
                           && forall k :: k in t.approvals ==> t.approvals[k].approvalId != a.approvalId)
            && (r.Ok? ==>
                  && r.value.state == Lifecycle.AwaitingApproval && t'.events == t.events + r.value.events
                  && OnlyThis(t, t', cs.changeId) && SameWorkspaces(t, t') && t'.receipts == t.receipts
                  && cs.changeId in t'.rows && t'.rows[cs.changeId] == Row(cs, Lifecycle.AwaitingApproval)
                  && cs.changeId in t'.approvals && t'.approvals[cs.changeId] == a)
            && (r.Err? ==> t' == t)
  {
    hide RowOk;
  }

  // ---- deciding ----------------------------------------------------------

  /** A decision can be taken: the approval is pending, and it is about exactly what the user saw. */
  predicate CanDecide(t: Tables, id: string, digest: Digest, approve: bool, binding: Option<Binding>) {
    && id in t.rows && id in t.approvals && t.approvals[id].decision == Decision.Pending
    && digest == t.rows[id].changeset && (approve ==> binding.Some?)
  }

  /** A pending approval that is decided on becomes Expired if and only if its time is over, whatever was asked; in time
      it becomes Approved, for the scene that was given, if and only if that was asked, and Rejected otherwise. It is
      decided now, by the user unless it expired. */
  lemma DecidesIff(t: Tables, id: string, digest: Digest, approve: bool, now: int, binding: Option<Binding>)
    requires JointInv(t)
    ensures var (t', r) := Decide(t, id, digest, approve, now, binding);
            && (r.Ok? <==> CanDecide(t, id, digest, approve, binding))
            && (r.Err? ==> t' == t)
            && (r.Ok? ==>
                  && OnlyThis(t, t', id) && SameWorkspaces(t, t') && t'.receipts == t.receipts
                  && t'.events == t.events + r.value.events && id in t'.approvals
                  && var a, a', late := t.approvals[id], t'.approvals[id], now > t.approvals[id].expiresAt;
                     && (a'.decision == Decision.Expired <==> late)
                     && (a'.decision == Decision.Approved <==> !late && approve)
                     && (a'.decision == Decision.Rejected <==> !late && !approve)
                     && a'.bound == (if !late && approve then binding else None)
                     && a'.decidedAt == Some(now) && a'.byUser == !late
                     && a' == a.(decision := a'.decision, bound := a'.bound, decidedAt := a'.decidedAt, byUser := a'.byUser)
                     && NowIn(t, t', id, if late then Lifecycle.Expired else
                                         if approve then Lifecycle.Approved else Lifecycle.Rejected)
                     && r.value.state == t'.rows[id].state)
  {
    hide JointInv;
    if id in t.rows && id in t.approvals { DecidableRow(t, id); }
  }

  lemma DecidableRow(t: Tables, id: string)
    requires JointInv(t) && id in t.rows
    ensures id in t.approvals && t.approvals[id].digest == t.rows[id].changeset
    ensures t.approvals[id].decision == Decision.Pending <==> t.rows[id].state == Lifecycle.AwaitingApproval
  {
    hide Codec.ValidReceipt;
    assert RowOk(t, id);
  }

  /** Why a decision is refused. */
  lemma DecidesNot(t: Tables, id: string, digest: Digest, approve: bool, now: int, binding: Option<Binding>)
    requires JointInv(t) && (approve ==> binding.Some?)
    ensures var r := Decide(t, id, digest, approve, now, binding).1;
            && (r == Err(NotFound) <==> id !in t.rows)
            && (r == Err(DigestMismatch) <==> id in t.rows && digest != t.rows[id].changeset)
            && (r == Err(ApprovalExpired) <==>
                  id in t.rows && digest == t.rows[id].changeset && id in t.approvals
                  && t.approvals[id].decision == Decision.Expired)
            && (r == Err(AlreadyConsumed) <==>
                  id in t.rows && digest == t.rows[id].changeset && id in t.approvals
                  && t.approvals[id].decision in {Decision.Approved, Decision.Rejected, Decision.Consumed})
  {
    hide JointInv;
    if id in t.rows { DecidableRow(t, id); }
  }

  // ---- applying ----------------------------------------------------------

  /** An apply begins if and only if the change is Approved for its own scene and the approval was used before or is still
      in time. The first time uses it up, now; a later time leaves it as it is, however long ago that was. */
  lemma BeginsIff(t: Tables, id: string, now: int)
    requires JointInv(t)
    ensures var (t', r) := BeginApply(t, id, now);
            && (r.Ok? <==>
                  && id in t.rows && t.rows[id].state == Lifecycle.Approved
                  && id in t.approvals && t.approvals[id].bound == Some(t.rows[id].changeset.binding)
                  && (t.approvals[id].decision == Decision.Consumed || now <= t.approvals[id].expiresAt))
            && (r.Err? ==> t' == t)
            && (r.Ok? ==>
                  && OnlyThis(t, t', id) && SameWorkspaces(t, t') && t'.receipts == t.receipts
                  && t'.events == t.events + r.value.events
                  && NowIn(t, t', id, Lifecycle.Applying) && r.value.state == Lifecycle.Applying
                  && id in t'.approvals
                  && var a, a' := t.approvals[id], t'.approvals[id];
                     a' == if a.decision == Decision.Consumed then a
                           else a.(decision := Decision.Consumed, decidedAt := Some(now)))
            && (id in t.rows && t.rows[id].state == Lifecycle.Approved && id in t.approvals ==>
                  (r == Err(BindingMismatch) <==> t.approvals[id].bound != Some(t.rows[id].changeset.binding))
                  && (r == Err(ApprovalExpired) <==>
                        t.approvals[id].bound == Some(t.rows[id].changeset.binding)
                        && t.approvals[id].decision == Decision.Approved && now > t.approvals[id].expiresAt))
  {
    hide JointInv;
    if id in t.rows { ApprovedRow(t, id); }
  }

  lemma ApprovedRow(t: Tables, id: string)
    requires JointInv(t) && id in t.rows
    ensures id in t.approvals && t.approvals[id].digest == t.rows[id].changeset
    ensures t.rows[id].state == Lifecycle.Approved ==>
              t.approvals[id].decision in {Decision.Approved, Decision.Consumed} && t.approvals[id].byUser
  {
    hide Codec.ValidReceipt;
    assert RowOk(t, id);
  }

  /** A receipt that is the first of its change is stored, with the state it calls for, if and only if the change is being
      applied and the receipt is from its scene. */
  lemma CompletesIff(t: Tables, r: Receipt)
    requires JointInv(t) && r.changeId !in t.receipts
    ensures var (t', a) := CompleteApply(t, r);
            && (a.Ok? <==>
                  && r.changeId in t.rows && t.rows[r.changeId].state == Lifecycle.Applying
                  && (r.status in {Partial, ReceiptStatus.CriticalRecovery}
                      || r.binding == t.rows[r.changeId].changeset.binding))
            && (a.Err? ==> t' == t)
            && (a.Ok? ==>
                  && OnlyThis(t, t', r.changeId) && SameWorkspaces(t, t') && t'.approvals == t.approvals
                  && t'.events == t.events + a.value.events
                  && r.changeId in t'.receipts && t'.receipts[r.changeId] == r
                  && NowIn(t, t', r.changeId, a.value.state)
                  && (a.value.state == Lifecycle.Applied <==> r.status in {ReceiptStatus.Applied, AlreadyApplied})
                  && (a.value.state == Lifecycle.RolledBack <==> r.status == ReceiptStatus.RolledBack)
                  && (a.value.state == Lifecycle.CriticalRecovery <==>
                        r.status in {Partial, ReceiptStatus.CriticalRecovery}))
  {
    hide JointInv, ReadBack, BoundReceipt, StateForReceipt;
    StateIs(r.status);
    if r.changeId in t.rows { BoundIff(t.rows[r.changeId].changeset, r); }
  }

  lemma StateIs(s: ReceiptStatus)
    ensures StateForReceipt(s) == Lifecycle.Applied <==> s in {ReceiptStatus.Applied, AlreadyApplied}
    ensures StateForReceipt(s) == Lifecycle.RolledBack <==> s == ReceiptStatus.RolledBack
    ensures StateForReceipt(s) == Lifecycle.CriticalRecovery <==> s in {Partial, ReceiptStatus.CriticalRecovery}
  {
  }

  lemma BoundIff(cs: ChangeSet, r: Receipt)
    ensures BoundReceipt(cs, r) <==> r.status in {Partial, ReceiptStatus.CriticalRecovery} || r.binding == cs.binding
  {
    match r.status {
      case Partial =>
      case CriticalRecovery =>
      case _ =>
    }
  }

  /** A successful receipt with a first manifest: both are stored, and the session works in that workspace, if and only if
      the change is being applied, creates nodes of that workspace only, and neither workspace nor session is taken. */
  lemma BootstrapsIff(t: Tables, r: Receipt, w: Manifest)
    requires JointInv(t) && r.changeId !in t.receipts
    ensures var (t', a) := CompleteBootstrap(t, r, w);
            && (a.Ok? <==>
                  && r.changeId in t.rows && t.rows[r.changeId].state == Lifecycle.Applying
                  && r.status in {ReceiptStatus.Applied, AlreadyApplied}
                  && ManifestFits(t.rows[r.changeId].changeset, r, w)
                  && w.workspaceId !in t.workspaces && w.sessionId !in t.active)
            && (a.Err? ==> t' == t)
            && (a.Ok? ==>
                  && OnlyThis(t, t', r.changeId) && t'.approvals == t.approvals
                  && t'.events == t.events + a.value.events
                  && NowIn(t, t', r.changeId, Lifecycle.Applied) && a.value.state == Lifecycle.Applied
                  && r.changeId in t'.receipts && t'.receipts[r.changeId] == r
                  && t'.workspaces == t.workspaces[w.workspaceId := w]
                  && t'.active == t.active[w.sessionId := w.workspaceId])
  {
    hide JointInv, ReadBack;
    if r.changeId in t.rows { ManifestFitsIff(t.rows[r.changeId].changeset, r, w); }
  }

  /** The manifest is of the session, the run and the scene of a project change, and every node it creates is its own. */
  predicate ManifestFits(cs: ChangeSet, r: Receipt, w: Manifest) {
    && cs.permission == ProjectChange && cs.workspaceId.None?
    && w.sessionId == cs.sessionId && w.createdByRun == cs.runId && w.binding == cs.binding && r.binding == cs.binding
    && (exists i :: 0 <= i < |cs.operations| && cs.operations[i].CreateNode?)
    && forall i :: 0 <= i < |cs.operations| && cs.operations[i].CreateNode? ==> cs.operations[i].workspaceId == w.workspaceId
  }

  lemma ManifestFitsIff(cs: ChangeSet, r: Receipt, w: Manifest)
    ensures ManifestFits(cs, r, w) <==> BootstrapBound(cs, r, w) && CreatedWorkspaces(cs.operations) == {w.workspaceId}
  {
    var made := CreatedWorkspaces(cs.operations);
    if made == {w.workspaceId} {
      assert w.workspaceId in made;
      forall i | 0 <= i < |cs.operations| && cs.operations[i].CreateNode?
        ensures cs.operations[i].workspaceId == w.workspaceId
      {
        assert cs.operations[i].workspaceId in made;
      }
    }
    if ManifestFits(cs, r, w) {
      var i :| 0 <= i < |cs.operations| && cs.operations[i].CreateNode?;
      assert cs.operations[i].workspaceId in made;
    }
  }

  /** An interrupted change goes back to Approved, and a critical one to Recovered, exactly from that state; approval and
      receipt stay as they are. */
  lemma RecoversIff(t: Tables, id: string)
    requires JointInv(t)
    ensures var (t', r) := RecoverToApproved(t, id);
            && (r.Ok? <==> id in t.rows && t.rows[id].state == Lifecycle.Applying)
            && (r.Err? ==> t' == t)
            && (r.Ok? ==>
                  && NowIn(t, t', id, Lifecycle.Approved) && r.value.state == Lifecycle.Approved
                  && OnlyThis(t, t', id) && SameWorkspaces(t, t') && t'.events == t.events + r.value.events
                  && t'.approvals == t.approvals && t'.receipts == t.receipts)
    ensures var (t', r) := RepositorySpec.RecoverCritical(t, id);
            && (r.Ok? <==> id in t.rows && t.rows[id].state == Lifecycle.CriticalRecovery)
            && (r.Err? ==> t' == t)
            && (r.Ok? ==>
                  && NowIn(t, t', id, Lifecycle.Recovered) && r.value.state == Lifecycle.Recovered
                  && OnlyThis(t, t', id) && SameWorkspaces(t, t') && t'.events == t.events + r.value.events
                  && t'.approvals == t.approvals && t'.receipts == t.receipts)
  {
    hide JointInv;
    if id in t.rows { ConsumedRow(t, id); }
  }

  lemma ConsumedRow(t: Tables, id: string)
    requires JointInv(t) && id in t.rows
    ensures Committed(t.rows[id].state) ==> id in t.approvals && t.approvals[id].decision == Decision.Consumed
  {
    hide Codec.ValidReceipt;
    assert RowOk(t, id);
  }

  // ---- what never changes ------------------------------------------------

  /** What a decision leads to later: nothing, or the use of an approval for the scene it was given for. */
  predicate Follows(d: Decision, d': Decision) {
    || d' == d
    || (d == Decision.Pending && d' in {Decision.Approved, Decision.Rejected, Decision.Expired, Decision.Consumed})
    || (d == Decision.Approved && d' == Decision.Consumed)
  }

  /** A later version of an approval: the request is the same, and so is the scene once it was given. */
  predicate Later(a: Approval, a': Approval) {
    && a'.approvalId == a.approvalId && a'.changeId == a.changeId && a'.digest == a.digest
    && a'.requestedAt == a.requestedAt && a'.expiresAt == a.expiresAt
    && Follows(a.decision, a'.decision) && (a.decision != Decision.Pending ==> a'.bound == a.bound)
    && (a'.decision == a.decision ==> a' == a)
  }

  /** Every record of every change that is there stays: its ChangeSet, its request, its decision, its receipt. */
  ghost predicate Remembers(t: Tables, t': Tables) {
    && t'.sessions == t.sessions && t'.runs == t.runs && t.events <= t'.events
    && (forall k :: k in t.rows ==> k in t'.rows && t'.rows[k].changeset == t.rows[k].changeset)
    && (forall k :: k in t.approvals ==> k in t'.approvals && Later(t.approvals[k], t'.approvals[k]))
    && (forall k :: k in t.receipts ==> k in t'.receipts && t'.receipts[k] == t.receipts[k])
    && (forall k :: k in t.workspaces ==> k in t'.workspaces && t'.workspaces[k] == t.workspaces[k])
    && (forall k :: k in t.active ==> k in t'.active && t'.active[k] == t.active[k])
  }

  lemma OnlyThisRemembers(t: Tables, t': Tables, id: string)
    requires OnlyThis(t, t', id) && SameWorkspaces(t, t')
    requires id in t.rows ==> id in t'.rows && t'.rows[id].changeset == t.rows[id].changeset
    requires id in t.approvals ==> id in t'.approvals && Later(t.approvals[id], t'.approvals[id])
    requires id in t.receipts ==> id in t'.receipts && t'.receipts[id] == t.receipts[id]
    ensures Remembers(t, t')
  {
    hide Follows;
    forall k | k in t.approvals ensures k in t'.approvals && Later(t.approvals[k], t'.approvals[k]) {
      SameLater(t.approvals[k]);
    }
  }

  lemma SameLater(a: Approval)
    ensures Later(a, a)
  {
  }

  lemma RemembersSelf(t: Tables)
    ensures Remembers(t, t)
  {
    hide Later;
    forall k | k in t.approvals ensures Later(t.approvals[k], t.approvals[k]) { SameLater(t.approvals[k]); }
  }

  lemma ProposeRemembers(t: Tables, cs: ChangeSet, a: Approval)
    requires JointInv(t)
    ensures Remembers(t, Propose(t, cs, a).0)
  {
    hide JointInv, Remembers, ApprovalIdTaken, OnlyThis, Later;
    RemembersSelf(t);
    var t' := Propose(t, cs, a).0;
    if t' != t {
      NoApprovalYet(t, cs.changeId);
      ProposesIff(t, cs, a);
      OnlyThisRemembers(t, t', cs.changeId);
    }
  }

  lemma NoApprovalYet(t: Tables, id: string)
    requires JointInv(t)
    ensures id !in t.rows ==> id !in t.approvals && id !in t.receipts
  {
    hide RowOk;
  }

  lemma DecideRemembers(t: Tables, id: string, digest: Digest, approve: bool, now: int, binding: Option<Binding>)
    requires JointInv(t)
    ensures Remembers(t, Decide(t, id, digest, approve, now, binding).0)
  {
    hide JointInv, Remembers, OnlyThis, Decide;
    RemembersSelf(t);
    DecidesIff(t, id, digest, approve, now, binding);
    var (t', r) := Decide(t, id, digest, approve, now, binding);
    if r.Ok? {
      OnlyThisRemembers(t, t', id);
    }
  }

  lemma BeginRemembers(t: Tables, id: string, now: int)
    requires JointInv(t)
    ensures Remembers(t, BeginApply(t, id, now).0)
  {
    hide JointInv, Remembers, OnlyThis, BeginApply;
    RemembersSelf(t);
    BeginsIff(t, id, now);
    var (t', r) := BeginApply(t, id, now);
    if r.Ok? {
      ApprovedRow(t, id);
      OnlyThisRemembers(t, t', id);
    }
  }

  lemma CompleteRemembers(t: Tables, r: Receipt)
    requires JointInv(t)
    ensures Remembers(t, CompleteApply(t, r).0)
  {
    hide JointInv, Remembers, OnlyThis, ReadBack, Later;
    RemembersSelf(t);
    if r.changeId !in t.receipts {
      CompletesIff(t, r);
      var (t', a) := CompleteApply(t, r);
      if a.Ok? {
        if r.changeId in t.approvals { SameLater(t.approvals[r.changeId]); }
        OnlyThisRemembers(t, t', r.changeId);
      }
    }
  }

  lemma BootstrapRemembers(t: Tables, r: Receipt, w: Manifest)
    requires JointInv(t)
    ensures Remembers(t, CompleteBootstrap(t, r, w).0)
  {
    hide JointInv, Later, CompleteBootstrap, ManifestFits, Remembers;
    RemembersSelf(t);
    if r.changeId in t.receipts { BootstrapAgain(t, r, w); }
    var (t', a) := CompleteBootstrap(t, r, w);
    if r.changeId !in t.receipts {
      BootstrapsIff(t, r, w);
      if a.Ok? { AddsManifest(t, t', r.changeId, w); }
    }
  }

  lemma BootstrapAgain(t: Tables, r: Receipt, w: Manifest)
    requires r.changeId in t.receipts
    ensures CompleteBootstrap(t, r, w).0 == t
  {
    hide ReadBack, BootstrapBound, CreatedWorkspaces, BootstrapStored;
  }

  lemma AddsManifest(t: Tables, t': Tables, id: string, w: Manifest)
    requires OnlyThis(t, t', id) && t'.approvals == t.approvals && id !in t.receipts
    requires id in t.rows ==> id in t'.rows && t'.rows[id].changeset == t.rows[id].changeset
    requires w.workspaceId !in t.workspaces && w.sessionId !in t.active
    requires t'.workspaces == t.workspaces[w.workspaceId := w] && t'.active == t.active[w.sessionId := w.workspaceId]
    ensures Remembers(t, t')
  {
    hide Later;
    forall k | k in t.approvals ensures Later(t.approvals[k], t'.approvals[k]) { SameLater(t.approvals[k]); }
  }

  lemma RecoverRemembers(t: Tables, id: string)
    requires JointInv(t)
    ensures Remembers(t, RecoverToApproved(t, id).0) && Remembers(t, RepositorySpec.RecoverCritical(t, id).0)
  {
    hide JointInv, Remembers, OnlyThis, Later, RecoverToApproved, RepositorySpec.RecoverCritical;
    RemembersSelf(t);
    RecoversIff(t, id);
    if id in t.approvals { SameLater(t.approvals[id]); }
    if RecoverToApproved(t, id).1.Ok? { OnlyThisRemembers(t, RecoverToApproved(t, id).0, id); }
    if RepositorySpec.RecoverCritical(t, id).1.Ok? { OnlyThisRemembers(t, RepositorySpec.RecoverCritical(t, id).0, id); }
  }

  lemma PerformRemembers(t: Tables, act: Act)
    requires JointInv(t)
    ensures Remembers(t, Perform(t, act).0)
  {
    hide JointInv, Remembers, Propose, Decide, BeginApply, CompleteApply, CompleteBootstrap, RecoverToApproved,
      RepositorySpec.RecoverCritical;
    match act {
      case DoPropose(cs, approval) => ProposeRemembers(t, cs, approval);
      case DoDecide(id, digest, approve, now, binding) => DecideRemembers(t, id, digest, approve, now, binding);
      case DoBegin(id, now) => BeginRemembers(t, id, now);
      case DoComplete(receipt) => CompleteRemembers(t, receipt);
      case DoBootstrap(receipt, manifest) => BootstrapRemembers(t, receipt, manifest);
      case DoRecoverApproved(id) => RecoverRemembers(t, id);
      case DoRecoverCritical(id) => RecoverRemembers(t, id);
    }
  }

  lemma RemembersOn(t: Tables, u: Tables, v: Tables)
    requires Remembers(t, u) && Remembers(u, v)
    ensures Remembers(t, v)
  {
    forall k | k in t.approvals ensures k in v.approvals && Later(t.approvals[k], v.approvals[k]) {
      assert Later(t.approvals[k], u.approvals[k]) && Later(u.approvals[k], v.approvals[k]);
    }
  }

  /** Over any run of transactions no record is lost or rewritten: ChangeSets, requests and receipts stay as they are, and
      decisions only go forward. */
  lemma {:induction false} RunsRemember(t: Tables, acts: seq<Act>)
    requires JointInv(t) && forall a :: a in acts ==> ValidAct(a)
    ensures Remembers(t, PerformAll(t, acts)) && JointInv(PerformAll(t, acts))
  {
    hide JointInv, Remembers, Perform;
    RemembersSelf(t);
    if acts != [] {
      var front := acts[..|acts| - 1];
      RunsRemember(t, front);
      PerformKeeps(PerformAll(t, front), acts[|acts| - 1]);
      PerformRemembers(PerformAll(t, front), acts[|acts| - 1]);
      RemembersOn(t, PerformAll(t, front), PerformAll(t, acts));
    }
  }

  // ---- references between the tables -------------------------------------

  /** Every stored change is of a known session and run, no two approvals share an id, and a session works in a
      workspace of its own. */
  ghost predicate Referenced(t: Tables) {
    && (forall k :: k in t.rows ==> t.rows[k].changeset.sessionId in t.sessions && t.rows[k].changeset.runId in t.runs)
    && (forall i, j :: i in t.approvals && j in t.approvals && t.approvals[i].approvalId == t.approvals[j].approvalId ==>
          i == j)
    && (forall s :: s in t.active ==>
          t.active[s] in t.workspaces && t.workspaces[t.active[s]].sessionId == s
          && t.workspaces[t.active[s]].workspaceId == t.active[s])
  }

  lemma ReferencedStays(t: Tables, t': Tables)
    requires Referenced(t) && Remembers(t, t') && SameWorkspaces(t, t')
    requires t'.rows.Keys == t.rows.Keys && t'.approvals.Keys == t.approvals.Keys
    ensures Referenced(t')
  {
    hide Follows;
    forall i, j | i in t'.approvals && j in t'.approvals && t'.approvals[i].approvalId == t'.approvals[j].approvalId
      ensures i == j
    {
      assert Later(t.approvals[i], t'.approvals[i]) && Later(t.approvals[j], t'.approvals[j]);
    }
  }

  lemma PerformReferenced(t: Tables, act: Act)
    requires JointInv(t) && Referenced(t)
    ensures Referenced(Perform(t, act).0)
  {
    hide JointInv, Remembers, Referenced, Propose, Decide, BeginApply, CompleteApply, CompleteBootstrap, RecoverToApproved,
      RepositorySpec.RecoverCritical;
    PerformRemembers(t, act);
    var t' := Perform(t, act).0;
    match act {
      case DoPropose(cs, approval) => ProposeReferenced(t, cs, approval);
      case DoBootstrap(receipt, manifest) => BootstrapReferenced(t, receipt, manifest);
      case _ =>
        SameRowsOtherwise(t, act);
        ReferencedStays(t, t');
    }
  }

  lemma SameRowsOtherwise(t: Tables, act: Act)
    requires JointInv(t) && !act.DoPropose? && !act.DoBootstrap?
    ensures Perform(t, act).0.rows.Keys == t.rows.Keys && Perform(t, act).0.approvals.Keys == t.approvals.Keys
    ensures SameWorkspaces(t, Perform(t, act).0)
  {
    hide JointInv, ReadBack, Decided, BoundReceipt;
  }

  lemma ProposeReferenced(t: Tables, cs: ChangeSet, a: Approval)
    requires JointInv(t) && Referenced(t)
    ensures Referenced(Propose(t, cs, a).0)
  {
    hide JointInv;
    NoApprovalYet(t, cs.changeId);
  }

  lemma BootstrapReferenced(t: Tables, r: Receipt, w: Manifest)
    requires JointInv(t) && Referenced(t)
    ensures Referenced(CompleteBootstrap(t, r, w).0)
  {
    hide JointInv, ReadBack, BootstrapBound, CreatedWorkspaces, BootstrapStored;
  }

  /** After every run of transactions the references between the tables hold. */
  lemma {:induction false} RunsReferenced(sessions: set<string>, runs: set<string>, acts: seq<Act>)
    requires forall a :: a in acts ==> ValidAct(a)
    ensures Referenced(PerformAll(Empty(sessions, runs), acts)) && JointInv(PerformAll(Empty(sessions, runs), acts))
  {
    hide JointInv, Perform;
    RunsKeep(sessions, runs, acts);
    if acts != [] {
      RunsReferenced(sessions, runs, acts[..|acts| - 1]);
      PerformReferenced(PerformAll(Empty(sessions, runs), acts[..|acts| - 1]), acts[|acts| - 1]);
    }
  }
}
