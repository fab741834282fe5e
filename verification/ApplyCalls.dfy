/** When an apply call asks the scene for anything, and where it ends, told from the tables and the answers alone. */
module ApplyCalls {
  import opened Wrappers
  import opened Contracts
  import opened Preflight
  import opened Pins
  import opened RepositorySpec
  import opened ServiceSpec
  import opened Evidence
  import Codec
  import Transitions

  // ---- the request -------------------------------------------------------

  /** Nothing else is being applied or unresolved, and the workspace the change names is there for its session. */
  ghost predicate MayWrite(t: Tables, id: string) {
    && id in t.rows && WorkspaceFor(t, t.rows[id].changeset).Ok?
    && forall k :: k in t.rows && t.rows[k].state in {Lifecycle.Applying, Lifecycle.CriticalRecovery} ==> k == id
  }

  /** Approved for its own scene, with an approval that was used before or is still in time. */
  ghost predicate Usable(t: Tables, id: string, now: int) {
    && id in t.rows && t.rows[id].state == Lifecycle.Approved && id in t.approvals
    && t.approvals[id].bound == Some(t.rows[id].changeset.binding)
    && (t.approvals[id].decision == Decision.Consumed || now <= t.approvals[id].expiresAt)
  }

  /** Interrupted, and found never to have begun. */
  ghost predicate NeverBegun(t: Tables, id: string, first: Answers) {
    && UnderRecovery(t, id)
    && Untouched(t.rows[id].changeset, WorkspaceFor(t, t.rows[id].changeset).value, first.ra, first.fa)
  }

  /** An apply call sends a request, one, for the stored change, if and only if nothing else is in the way and the change
      is usable or was interrupted before it began. */
  lemma RequestsIff(t: Tables, id: string, now: int, factory: ManifestFactory, first: Answers)
    requires JointInv(t)
    ensures var sent := ApplyRequests(t, id, now, factory, first);
            && (sent != [] <==> MayWrite(t, id) && (Usable(t, id, now) || NeverBegun(t, id, first)))
            && (sent != [] ==> |sent| == 1 && sent[0].0 == t.rows[id].changeset)
  {
    hide JointInv, Judge, WorkspaceFor, ApplyRequests, BeginApply, Untouched, Complete;
    if id in t.rows {
      var s := t.rows[id].state;
      if s == Lifecycle.Applying {
        GivenBackIff(t, id, factory, first);
        RequestsAre(t, id, now, factory, first);
        if NeverBegun(t, id, first) { SendsAgain(t, id, now); }
      } else {
        SendsIff(t, id, now);
        RequestsAre(t, id, now, factory, first);
      }
    } else {
      RequestsAre(t, id, now, factory, first);
    }
  }

  lemma RequestsAre(t: Tables, id: string, now: int, factory: ManifestFactory, first: Answers)
    ensures var before := BeforeAttempt(t, id, factory, first);
            ApplyRequests(t, id, now, factory, first)
            == if before.Some? && Sends(before.value, id, now)
               then [(before.value.rows[id].changeset, WorkspaceFor(before.value, before.value.rows[id].changeset).value)]
               else []
  {
    hide BeforeAttempt, Sends, WorkspaceFor;
  }

  lemma SendsIff(t: Tables, id: string, now: int)
    requires JointInv(t)
    ensures Sends(t, id, now) <==> MayWrite(t, id) && Usable(t, id, now)
  {
    hide JointInv, WorkspaceFor;
    Transitions.BeginsIff(t, id, now);
  }

  lemma SendsAgain(t: Tables, id: string, now: int)
    requires JointInv(t) && UnderRecovery(t, id)
    ensures var t' := RecoverToApproved(t, id).0;
            && id in t'.rows && t'.rows[id].changeset == t.rows[id].changeset
            && (Sends(t', id, now) <==> MayWrite(t, id))
  {
    hide JointInv, WorkspaceFor;
    RowReady(t, id);
    ConsumedBound(t, id);
    SameWorkspace(t, RecoverToApproved(t, id).0, t.rows[id].changeset);
    SameBarrier(t, RecoverToApproved(t, id).0, id);
  }

  lemma SameBarrier(t: Tables, t': Tables, id: string)
    requires id in t.rows && id in t'.rows && t'.rows == t.rows[id := t'.rows[id]]
    ensures WriteAvailable(t', id) <==> WriteAvailable(t, id)
  {
    forall k | k in t.rows ensures k in t'.rows && (k != id ==> t'.rows[k] == t.rows[k]) { }
  }

  lemma SameWorkspace(t: Tables, t': Tables, cs: ChangeSet)
    requires t'.workspaces == t.workspaces
    ensures WorkspaceFor(t', cs) == WorkspaceFor(t, cs)
  {
  }

  lemma ConsumedBound(t: Tables, id: string)
    requires JointInv(t) && UnderRecovery(t, id)
    ensures id in t.approvals && t.approvals[id].bound == Some(t.rows[id].changeset.binding)
    ensures t.approvals[id].digest == t.rows[id].changeset
  {
    hide Codec.ValidReceipt, WorkspaceFor;
    assert RowOk(t, id);
  }

  /** Before an attempt an interrupted change is given back if and only if it never began. */
  lemma GivenBackIff(t: Tables, id: string, factory: ManifestFactory, first: Answers)
    requires JointInv(t) && id in t.rows && t.rows[id].state == Lifecycle.Applying
    ensures BeforeAttempt(t, id, factory, first)
         == if NeverBegun(t, id, first) then Some(RecoverToApproved(t, id).0) else None
  {
    hide JointInv, WorkspaceFor, Complete, CriticalReceipt, DoneReceipt, FactsMatch, LooksDone, About, ReceiptValid;
    RowReady(t, id);
    var cs := t.rows[id].changeset;
    if WorkspaceFor(t, cs).Ok? { AboutIs(cs, WorkspaceFor(t, cs).value, first.ra, first.fa); }
  }

  // ---- no fitting reply --------------------------------------------------

  /** A request without a fitting reply ends as the recovery after it says; the call fails if that tells of no outcome. */
  lemma AppliesOnSilence(t: Tables, id: string, now: int, factory: ManifestFactory, first: Answers, reply: ReceiptAnswer,
                         second: Answers)
    requires JointInv(t) && MayWrite(t, id) && Usable(t, id, now)
    requires second.ra.Ok? ==> Codec.ValidReceipt(second.ra.value)
    requires NoFirstManifest(factory, t.rows[id].changeset)
    requires !(reply.Ok? && Fitting(t.rows[id].changeset, reply.value))
    ensures var cs, ws := t.rows[id].changeset, WorkspaceFor(t, t.rows[id].changeset).value;
            var (t', r) := ApplyOne(t, id, now, factory, first, reply, second);
            && id in t'.rows
            && (t'.rows[id].state == Lifecycle.Applying <==> Away(second.ra, second.fa))
            && (t'.rows[id].state == Lifecycle.Approved <==> Untouched(cs, ws, second.ra, second.fa))
            && (t'.rows[id].state == Lifecycle.Applied <==> Evidenced(cs, ws, second.ra, second.fa))
            && (t'.rows[id].state == Lifecycle.RolledBack <==> Receipted(cs, second.ra, {ReceiptStatus.RolledBack}))
            && (t'.rows[id].state == Lifecycle.CriticalRecovery <==> Unclear(cs, ws, second.ra, second.fa))
            && (if Away(second.ra, second.fa) || Untouched(cs, ws, second.ra, second.fa) then r == Failed(ApplyFailed)
                else id in t'.receipts && r == Reached(t'.rows[id].state, Some(t'.receipts[id])))
  {
    hide JointInv, WorkspaceFor, BeginApply, RecoverOne, Untouched, Unclear, Evidenced, Receipted, Away, ReceiptValid,
      Codec.ValidReceipt, Fitting, NoFirstManifest, MayWrite, Usable;
    SendsIff(t, id, now);
    var t1 := BeginApply(t, id, now).0;
    var cs := t.rows[id].changeset;
    Begun(t, id, now);
    RowReady(t1, id);
    SameWorkspace(t, t1, cs);
    AboutIs(cs, None, reply, Err(Transient));
    ManifestNever(factory, cs);
    RecoversTo(t1, id, factory, second.ra, second.fa);
    OneOf(cs, WorkspaceFor(t, cs).value, second.ra, second.fa);
    Answered(t1, id, factory, second);
  }

  lemma ManifestNever(factory: ManifestFactory, cs: ChangeSet)
    requires NoFirstManifest(factory, cs)
    ensures ManifestOnSuccess(factory, cs)
  {
  }

  lemma Begun(t: Tables, id: string, now: int)
    requires JointInv(t) && Sends(t, id, now)
    ensures var t' := BeginApply(t, id, now).0;
            && JointInv(t') && UnderRecovery(t', id) && t'.rows[id].changeset == t.rows[id].changeset
            && t'.workspaces == t.workspaces && t.rows[id].state == Lifecycle.Approved
  {
    hide JointInv, WorkspaceFor;
    PerformKeeps(t, DoBegin(id, now));
    SameWorkspace(t, BeginApply(t, id, now).0, t.rows[id].changeset);
  }

  /** The answers fall into one of five kinds. */
  lemma OneOf(cs: ChangeSet, ws: Option<Manifest>, ra: ReceiptAnswer, fa: FactsAnswer)
    ensures Away(ra, fa) ==> !Untouched(cs, ws, ra, fa) && !Evidenced(cs, ws, ra, fa)
    ensures Untouched(cs, ws, ra, fa) ==> !Evidenced(cs, ws, ra, fa)
    ensures Evidenced(cs, ws, ra, fa) ==> !Receipted(cs, ra, {ReceiptStatus.RolledBack}) && !Unclear(cs, ws, ra, fa)
    ensures Away(ra, fa) || Untouched(cs, ws, ra, fa) || Evidenced(cs, ws, ra, fa)
            || Receipted(cs, ra, {ReceiptStatus.RolledBack}) || Unclear(cs, ws, ra, fa)
  {
    hide About, ServicePostHolds;
  }

  /** A recovery answers what it stored, or that nothing is settled. */
  lemma Answered(t: Tables, id: string, factory: ManifestFactory, a: Answers)
    requires JointInv(t) && UnderRecovery(t, id) && NoFirstManifest(factory, t.rows[id].changeset)
    requires a.ra.Ok? ==> Codec.ValidReceipt(a.ra.value)
    ensures var cs, ws := t.rows[id].changeset, WorkspaceFor(t, t.rows[id].changeset).value;
            var (t', r) := RecoverOne(t, id, factory, a.ra, a.fa);
            && id in t'.rows
            && (Away(a.ra, a.fa) ==> r.Open?)
            && (Untouched(cs, ws, a.ra, a.fa) ==> r == Reached(Lifecycle.Approved, None))
            && (!Away(a.ra, a.fa) && !Untouched(cs, ws, a.ra, a.fa) ==>
                  id in t'.receipts && r == Reached(t'.rows[id].state, Some(t'.receipts[id])))
  {
    hide JointInv, WorkspaceFor, Codec.ValidReceipt, FactsMatch, LooksDone, CriticalReceipt, DoneReceipt, ReceiptValid,
      BoundReceipt, About, ReadBack, Receipted;
    var cs, ws := t.rows[id].changeset, WorkspaceFor(t, t.rows[id].changeset).value;
    RowReady(t, id);
    AboutIs(cs, ws, a.ra, a.fa);
    SettlesThis(cs, ws, a.ra, a.fa);
    var v := Judge(cs, ws, a.ra, a.fa);
    if v.Settle? { BoundIs(cs, v.receipt); }
  }

  // ---- nothing to recover ------------------------------------------------

  /** A change that is not under way is not touched by a recovery: a settled one is answered from its receipt, any other
      one by its state. */
  lemma RecoversNothing(t: Tables, id: string, factory: ManifestFactory, ra: ReceiptAnswer, fa: FactsAnswer)
    requires JointInv(t) && (id in t.rows ==> t.rows[id].state != Lifecycle.Applying)
    ensures var (t', r) := RecoverOne(t, id, factory, ra, fa);
            && t' == t
            && (id !in t.rows ==> r == Failed(Repo(NotFound)))
            && (id in t.rows && id !in t.receipts ==> r == Reached(t.rows[id].state, None))
            && (id in t.rows && t.rows[id].state == Lifecycle.Recovered ==> r == Reached(Lifecycle.Recovered, None))
            && (AlreadySettled(t, id) && t.receipts[id].errorCode.None? ==>
                  r == Reached(t.rows[id].state, Some(t.receipts[id])))
  {
    hide JointInv, ReadBack, Codec.ValidReceipt, WorkspaceFor;
    ReceiptIffSettled(t, id);
    if AlreadySettled(t, id) { ReadsStored(t, id); }
  }

  /** Nor by the manual exit, unless it waits for the user. */
  lemma ExitsNothing(t: Tables, id: string, fa: FactsAnswer)
    requires JointInv(t) && (id in t.rows ==> t.rows[id].state != Lifecycle.CriticalRecovery)
    ensures var (t', r) := RecoverCriticalOne(t, id, fa);
            && t' == t
            && (id !in t.rows ==> r == Failed(Repo(NotFound)))
            && (id in t.rows && id !in t.receipts ==> r == Reached(t.rows[id].state, None))
            && (id in t.receipts && t.receipts[id].errorCode.None? ==>
                  r == Reached(t.rows[id].state, Some(t.receipts[id])))
  {
    hide JointInv, ReadBack, Codec.ValidReceipt, WorkspaceFor;
    ReceiptIffSettled(t, id);
    if id in t.receipts { ReadsStored(t, id); }
  }

  lemma ReceiptIffSettled(t: Tables, id: string)
    requires JointInv(t)
    ensures id in t.receipts <==> id in t.rows && Settled(t.rows[id].state)
  {
    hide Codec.ValidReceipt;
    if id in t.rows { assert RowOk(t, id); }
  }

  lemma ReadsStored(t: Tables, id: string)
    requires JointInv(t) && id in t.rows && Settled(t.rows[id].state)
    ensures id in t.receipts
    ensures t.receipts[id].errorCode.None? ==> ReadBack(t.receipts[id]) == Some(t.receipts[id])
  {
    hide Codec.ValidReceipt, ReadBack;
    assert RowOk(t, id);
    Codec.ReceiptRoundTrip(t.receipts[id]);
    ReadsBack(t.receipts[id]);
  }
}
