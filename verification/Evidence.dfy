/** What each answer of the bridge leads to, told from the answers alone: when a recovery waits, when it gives a change
    back, and when it leaves it to the user. */
module Evidence {
  import opened Wrappers
  import opened Contracts
  import opened Preflight
  import opened Pins
  import opened RepositorySpec
  import opened ServiceSpec
  import Codec

  // ---- the answers -------------------------------------------------------

  /** The bridge is away for now: the receipt query timed out, or there is no receipt and the look at the scene did. */
  predicate Away(ra: ReceiptAnswer, fa: FactsAnswer) {
    ra == Err(Transient) || (ra == Err(ReceiptUnavailable) && fa == Err(Transient))
  }

  /** Facts about this change, in its scene and its workspace, with one result for each precondition. */
  predicate About(cs: ChangeSet, ws: Option<Manifest>, f: Facts) {
    && f.binding == cs.binding && |f.results| == |cs.preconditions|
    && (if ws.Some? then f.workspaceId == Some(ws.value.workspaceId) && f.revision == Some(ws.value.revision)
        else f.workspaceId.None? && f.revision.None?)
    && (f.allHold <==> forall i :: 0 <= i < |f.results| ==> f.results[i])
  }

  /** No receipt was ever written, and everything is as it was before: the apply did not happen. */
  predicate Untouched(cs: ChangeSet, ws: Option<Manifest>, ra: ReceiptAnswer, fa: FactsAnswer) {
    ra == Err(ReceiptUnavailable) && fa.Ok? && About(cs, ws, fa.value) && fa.value.allHold
  }

  /** No receipt, the scene is no longer as before, and it is as the change promises: the apply did happen. */
  predicate Finished(cs: ChangeSet, ws: Option<Manifest>, ra: ReceiptAnswer, fa: FactsAnswer) {
    && ra == Err(ReceiptUnavailable) && fa.Ok? && About(cs, ws, fa.value) && !fa.value.allHold
    && cs.postconditions != [] && forall c :: c in cs.postconditions ==> ServicePostHolds(fa.value, c)
  }

  /** A receipt of this very change; one that claims an outcome is from its own scene. */
  predicate Fitting(cs: ChangeSet, r: Receipt) {
    r.changeId == cs.changeId && (r.status in {Partial, ReceiptStatus.CriticalRecovery} || r.binding == cs.binding)
  }

  /** There is a receipt, and it settles the change. */
  predicate Receipted(cs: ChangeSet, ra: ReceiptAnswer, statuses: set<ReceiptStatus>) {
    ra.Ok? && Fitting(cs, ra.value) && ra.value.status in statuses
  }

  /** Anything else: a failing or foreign receipt, an error for good, foreign facts, or a scene in between. */
  predicate Unclear(cs: ChangeSet, ws: Option<Manifest>, ra: ReceiptAnswer, fa: FactsAnswer) {
    && !Away(ra, fa) && !Untouched(cs, ws, ra, fa) && !Finished(cs, ws, ra, fa)
    && !Receipted(cs, ra, {ReceiptStatus.Applied, AlreadyApplied, ReceiptStatus.RolledBack})
  }

  // ---- manifests ---------------------------------------------------------

  /** A request goes out with the manifest of the workspace the change names, and only if that belongs to its session; with
      none if it names none. */
  lemma ManifestOfSession(t: Tables, id: string, now: int)
    requires id in t.rows
    ensures var cs := t.rows[id].changeset;
            forall q :: q in AttemptRequests(t, id, now) ==>
              && q.0 == cs && (q.1.None? <==> cs.workspaceId.None?)
              && (q.1.Some? ==> cs.workspaceId.value in t.workspaces && q.1.value == t.workspaces[cs.workspaceId.value]
                                && q.1.value.sessionId == cs.sessionId)
  {
    hide BeginApply, WriteAvailable;
  }

  // ---- recovery ----------------------------------------------------------

  /** A first manifest is built from successful receipts at most. */
  ghost predicate ManifestOnSuccess(factory: ManifestFactory, cs: ChangeSet) {
    forall r: Receipt :: r.status !in {ReceiptStatus.Applied, AlreadyApplied} ==> factory(cs, r).None?
  }

  /** No first manifest comes with this change, so nothing but the change can be in the way of its completion. */
  ghost predicate NoFirstManifest(factory: ManifestFactory, cs: ChangeSet) {
    forall r :: factory(cs, r).None?
  }

  /** There is evidence that the change was applied. */
  predicate Evidenced(cs: ChangeSet, ws: Option<Manifest>, ra: ReceiptAnswer, fa: FactsAnswer) {
    Receipted(cs, ra, {ReceiptStatus.Applied, AlreadyApplied}) || Finished(cs, ws, ra, fa)
  }

  predicate UnderRecovery(t: Tables, id: string) {
    id in t.rows && t.rows[id].state == Lifecycle.Applying && WorkspaceFor(t, t.rows[id].changeset).Ok?
  }

  /** A recovery waits if and only if the bridge is away; then nothing changes. */
  lemma WaitsIff(t: Tables, id: string, factory: ManifestFactory, ra: ReceiptAnswer, fa: FactsAnswer)
    requires UnderRecovery(t, id)
    ensures RecoverOne(t, id, factory, ra, fa).1.Open? <==> Away(ra, fa)
    ensures Away(ra, fa) ==> RecoverOne(t, id, factory, ra, fa).0 == t
  {
    hide FactsMatch, LooksDone, CriticalReceipt, DoneReceipt, Complete, RecoverToApproved, WorkspaceFor, ReceiptValid;
  }

  /** An interrupted apply ends in one of five ways, and the answers say in which; only storing a first manifest can
      keep an applied one waiting. */
  lemma RecoversTo(t: Tables, id: string, factory: ManifestFactory, ra: ReceiptAnswer, fa: FactsAnswer)
    requires JointInv(t) && UnderRecovery(t, id) && (ra.Ok? ==> Codec.ValidReceipt(ra.value))
    requires ManifestOnSuccess(factory, t.rows[id].changeset)
    ensures var cs, ws := t.rows[id].changeset, WorkspaceFor(t, t.rows[id].changeset).value;
            var t' := RecoverOne(t, id, factory, ra, fa).0;
            && id in t'.rows
            && (t'.rows[id].state == Lifecycle.Approved <==> Untouched(cs, ws, ra, fa))
            && (t'.rows[id].state == Lifecycle.RolledBack <==> Receipted(cs, ra, {ReceiptStatus.RolledBack}))
            && (t'.rows[id].state == Lifecycle.CriticalRecovery <==> Unclear(cs, ws, ra, fa))
            && (t'.rows[id].state == Lifecycle.Applied ==> Evidenced(cs, ws, ra, fa))
            && (t'.rows[id].state == Lifecycle.Applying ==> Away(ra, fa) || Evidenced(cs, ws, ra, fa))
            && (Away(ra, fa) ==> t' == t)
            && (NoFirstManifest(factory, cs) && Evidenced(cs, ws, ra, fa) ==> t'.rows[id].state == Lifecycle.Applied)
  {
    hide JointInv, Codec.ValidReceipt, WorkspaceFor, ReadBack, FactsMatch, LooksDone, CriticalReceipt, DoneReceipt,
      ReceiptValid, BoundReceipt, About, Complete;
    var cs, ws := t.rows[id].changeset, WorkspaceFor(t, t.rows[id].changeset).value;
    RowReady(t, id);
    AboutIs(cs, ws, ra, fa);
    SettlesThis(cs, ws, ra, fa);
    var v := Judge(cs, ws, ra, fa);
    if v.Settle? {
      BoundIs(cs, v.receipt);
      CompletesTo(t, cs, v.receipt, factory);
    }
  }

  /** Completing an interrupted row with a receipt of its own. */
  lemma CompletesTo(t: Tables, cs: ChangeSet, r: Receipt, factory: ManifestFactory)
    requires r.changeId in t.rows && t.rows[r.changeId] == Row(cs, Lifecycle.Applying) && r.changeId !in t.receipts
    requires BoundReceipt(cs, r) && ManifestOnSuccess(factory, cs)
    ensures var t' := Complete(t, cs, r, factory).0;
            && (t' == t || (t'.rows == t.rows[r.changeId := Row(cs, StateForReceipt(r.status))]
                            && t'.receipts == t.receipts[r.changeId := r]))
            && (factory(cs, r).None? ==> t' != t)
            && (t' == t ==> r.status in {ReceiptStatus.Applied, AlreadyApplied})
  {
    hide BoundReceipt, ReadBack, BootstrapBound, CreatedWorkspaces;
  }

  /** An interrupted row can be moved on. */
  lemma RowReady(t: Tables, id: string)
    requires JointInv(t) && id in t.rows && t.rows[id].state == Lifecycle.Applying
    ensures t.rows[id].changeset.changeId == id && id !in t.receipts
    ensures id in t.approvals && t.approvals[id].decision == Decision.Consumed
  {
    hide Codec.ValidReceipt;
    assert RowOk(t, id);
  }

  lemma AboutIs(cs: ChangeSet, ws: Option<Manifest>, ra: ReceiptAnswer, fa: FactsAnswer)
    ensures fa.Ok? ==> (FactsMatch(cs, ws, fa.value) <==> About(cs, ws, fa.value))
    ensures fa.Ok? ==> (LooksDone(cs, fa.value) <==>
                          cs.postconditions != []
                          && forall c :: c in cs.postconditions ==> ServicePostHolds(fa.value, c))
    ensures ra.Ok? ==> (ReceiptValid(cs, ra.value) <==> Fitting(cs, ra.value))
  {
    if ra.Ok? {
      match ra.value.status {
        case Partial =>
        case CriticalRecovery =>
        case _ =>
      }
    }
  }

  lemma BoundIs(cs: ChangeSet, r: Receipt)
    requires ReceiptValid(cs, r)
    ensures r.changeId == cs.changeId && BoundReceipt(cs, r)
  {
  }

  /** What is stored for it: the receipt of the bridge as it is, if it fits; or else one that says what was seen. */
  lemma RecoveryStores(t: Tables, id: string, factory: ManifestFactory, ra: ReceiptAnswer, fa: FactsAnswer)
    requires JointInv(t) && UnderRecovery(t, id) && (ra.Ok? ==> Codec.ValidReceipt(ra.value))
    requires ManifestOnSuccess(factory, t.rows[id].changeset)
    ensures var cs, ws := t.rows[id].changeset, WorkspaceFor(t, t.rows[id].changeset).value;
            var t' := RecoverOne(t, id, factory, ra, fa).0;
            && (t'.receipts == t.receipts || id in t'.receipts)
            && (ra.Ok? && Fitting(cs, ra.value) && t' != t ==> id in t'.receipts && t'.receipts[id] == ra.value)
            && (ra.Ok? && !Fitting(cs, ra.value) ==> id in t'.receipts && SaysUnclear(t'.receipts[id], cs))
            && (ra.Err? && Unclear(cs, ws, ra, fa) ==> id in t'.receipts && SaysUnclear(t'.receipts[id], cs))
            && (Finished(cs, ws, ra, fa) && t' != t ==> id in t'.receipts && SaysDone(t'.receipts[id], cs))
            && (Away(ra, fa) || Untouched(cs, ws, ra, fa) ==> t'.receipts == t.receipts)
  {
    hide JointInv, Codec.ValidReceipt, WorkspaceFor, ReadBack, ReceiptValid, BoundReceipt, SaysDone, Complete, Judge,
      Fitting, Unclear, Finished, Untouched, Away;
    var cs, ws := t.rows[id].changeset, WorkspaceFor(t, t.rows[id].changeset).value;
    RowReady(t, id);
    VerdictSays(cs, ws, ra, fa);
    var v := Judge(cs, ws, ra, fa);
    if v.Settle? {
      BoundIs(cs, v.receipt);
      CompletesTo(t, cs, v.receipt, factory);
    }
  }

  lemma VerdictSays(cs: ChangeSet, ws: Option<Manifest>, ra: ReceiptAnswer, fa: FactsAnswer)
    requires ra.Ok? ==> Codec.ValidReceipt(ra.value)
    ensures var v := Judge(cs, ws, ra, fa);
            && (v.Settle? ==> ReceiptValid(cs, v.receipt))
            && (ra.Ok? && Fitting(cs, ra.value) ==> v == Settle(ra.value))
            && (ra.Ok? && !Fitting(cs, ra.value) ==> v.Settle? && SaysUnclear(v.receipt, cs))
            && (ra.Err? && Unclear(cs, ws, ra, fa) ==> v.Settle? && SaysUnclear(v.receipt, cs))
            && (Finished(cs, ws, ra, fa) ==> v.Settle? && SaysDone(v.receipt, cs))
            && (Away(ra, fa) || Untouched(cs, ws, ra, fa) ==> !v.Settle?)
  {
    hide Codec.ValidReceipt, FactsMatch, LooksDone, CriticalReceipt, DoneReceipt, ReceiptValid, About, SaysUnclear, SaysDone;
    AboutIs(cs, ws, ra, fa);
    SettlesThis(cs, ws, ra, fa);
    UnclearSays(cs, None);
    if fa.Ok? {
      UnclearSays(cs, Some(fa.value));
      if LooksDone(cs, fa.value) { DoneSays(cs, fa.value); }
    }
  }

  /** Nothing is claimed: no operation counts as applied, and the scene may have changed. */
  predicate SaysUnclear(r: Receipt, cs: ChangeSet) {
    && r.changeId == cs.changeId && r.status == ReceiptStatus.CriticalRecovery && r.sceneMayHaveChanged
    && r.appliedOps == [] && r.rollbackResults == [] && r.errorCode.None?
    && |r.postResults| == |cs.postconditions|
  }

  /** Every operation counts as applied and every postcondition as met. */
  predicate SaysDone(r: Receipt, cs: ChangeSet) {
    && r.changeId == cs.changeId && r.status == AlreadyApplied && r.binding == cs.binding && !r.sceneMayHaveChanged
    && |r.appliedOps| == |cs.operations| && (forall i :: 0 <= i < |r.appliedOps| ==> r.appliedOps[i] == cs.operations[i].opId)
    && |r.postResults| == |cs.postconditions|
    && (forall i :: 0 <= i < |r.postResults| ==> r.postResults[i])
    && r.rollbackResults == [] && r.errorCode.None?
  }

  lemma UnclearSays(cs: ChangeSet, f: Option<Facts>)
    ensures SaysUnclear(CriticalReceipt(cs, f), cs)
    ensures CriticalReceipt(cs, f).binding == if f.Some? then f.value.binding else cs.binding
    ensures forall i :: 0 <= i < |cs.postconditions| ==>
              CriticalReceipt(cs, f).postResults[i]
              == (f.Some? && ServicePostHolds(f.value, cs.postconditions[i]))
  {
    hide ServicePostHolds;
  }

  lemma DoneSays(cs: ChangeSet, f: Facts)
    requires LooksDone(cs, f)
    ensures SaysDone(DoneReceipt(cs, f), cs)
  {
    hide ServicePostHolds;
  }

  // ---- the manual exit ---------------------------------------------------

  predicate WaitsForUser(t: Tables, id: string) {
    id in t.rows && t.rows[id].state == Lifecycle.CriticalRecovery && WorkspaceFor(t, t.rows[id].changeset).Ok?
  }

  /** The exit stays shut while the bridge is away, and while the scene of the change is there without all its
      postconditions; every other answer opens it. */
  lemma LeavesCriticalIff(t: Tables, id: string, fa: FactsAnswer)
    requires JointInv(t) && WaitsForUser(t, id)
    ensures var cs := t.rows[id].changeset;
            var (t', r) := RecoverCriticalOne(t, id, fa);
            && (r.Open? <==> fa == Err(Transient))
            && (r == Reached(Lifecycle.CriticalRecovery, None) <==>
                  fa.Ok? && fa.value.binding == cs.binding
                  && !(cs.postconditions != [] && forall c :: c in cs.postconditions ==> ServicePostHolds(fa.value, c)))
            && (if r.Open? || r == Reached(Lifecycle.CriticalRecovery, None) then t' == t
                else r == Reached(Lifecycle.Recovered, None)
                     && t'.rows == t.rows[id := t.rows[id].(state := Lifecycle.Recovered)]
                     && t'.approvals == t.approvals && t'.receipts == t.receipts)
  {
    hide JointInv, WorkspaceFor, LooksDone, ServicePostHolds;
    ConsumedHere(t, id);
    AboutIs(t.rows[id].changeset, None, Err(Transient), fa);
  }

  lemma ConsumedHere(t: Tables, id: string)
    requires JointInv(t) && id in t.rows && t.rows[id].state == Lifecycle.CriticalRecovery
    ensures id in t.approvals && t.approvals[id].decision == Decision.Consumed
  {
    hide Codec.ValidReceipt;
    assert RowOk(t, id);
  }

  // ---- an apply call -----------------------------------------------------

  predicate AlreadySettled(t: Tables, id: string) {
    id in t.rows && t.rows[id].state in {Lifecycle.Applied, Lifecycle.RolledBack, Lifecycle.CriticalRecovery}
  }

  /** A settled change is only read back, and one whose earlier attempt cannot be told yet is left alone: nothing is
      asked of the scene and nothing is stored. */
  lemma AppliesNothing(t: Tables, id: string, now: int, factory: ManifestFactory, first: Answers, reply: ReceiptAnswer,
                       second: Answers)
    requires AlreadySettled(t, id) || (UnderRecovery(t, id) && Away(first.ra, first.fa))
    ensures ApplyRequests(t, id, now, factory, first) == []
    ensures ApplyOne(t, id, now, factory, first, reply, second).0 == t
    ensures UnderRecovery(t, id) ==> ApplyOne(t, id, now, factory, first, reply, second).1 == Failed(BridgeUnavailable)
    ensures JointInv(t) && AlreadySettled(t, id) && t.receipts[id].errorCode.None? ==>
              ApplyOne(t, id, now, factory, first, reply, second).1 == Reached(t.rows[id].state, Some(t.receipts[id]))
  {
    hide JointInv, ReadBack, Codec.ValidReceipt, RecoverOne, WorkspaceFor;
    if UnderRecovery(t, id) { WaitsIff(t, id, factory, first.ra, first.fa); }
    if JointInv(t) && AlreadySettled(t, id) {
      ReceiptThere(t, id);
      Codec.ReceiptRoundTrip(t.receipts[id]);
      ReadsBack(t.receipts[id]);
    }
  }

  lemma ReceiptThere(t: Tables, id: string)
    requires JointInv(t) && AlreadySettled(t, id)
    ensures id in t.receipts && Codec.ValidReceipt(t.receipts[id])
  {
    hide Codec.ValidReceipt;
    assert RowOk(t, id);
  }

  lemma ReadsBack(r: Receipt)
    requires Codec.DecodeReceipt(Codec.EncodeReceipt(r)) == Some(r) || r.errorCode.Some?
    ensures r.errorCode.None? ==> ReadBack(r) == Some(r)
  {
  }

  /** A fitting reply to the request is what is stored and what is answered. */
  lemma AppliesOnReply(t: Tables, id: string, now: int, factory: ManifestFactory, first: Answers, reply: ReceiptAnswer,
                       second: Answers)
    requires JointInv(t) && Sends(t, id, now) && NoFirstManifest(factory, t.rows[id].changeset)
    requires reply.Ok? && Codec.ValidReceipt(reply.value) && Fitting(t.rows[id].changeset, reply.value)
    ensures var (t', r) := ApplyOne(t, id, now, factory, first, reply, second);
            && id in t'.receipts && t'.receipts[id] == reply.value && t'.receipts == t.receipts[id := reply.value]
            && id in t'.rows && t'.rows[id].state == StateForReceipt(reply.value.status)
            && r == Reached(StateForReceipt(reply.value.status), Some(reply.value))
  {
    hide JointInv, Codec.ValidReceipt, ReadBack, ReceiptValid, BoundReceipt, WorkspaceFor, WriteAvailable;
    ApprovedReady(t, id);
    AboutIs(t.rows[id].changeset, None, reply, Err(Transient));
    BoundIs(t.rows[id].changeset, reply.value);
  }

  lemma ApprovedReady(t: Tables, id: string)
    requires JointInv(t) && id in t.rows && t.rows[id].state == Lifecycle.Approved
    ensures t.rows[id].changeset.changeId == id && id !in t.receipts
  {
    hide Codec.ValidReceipt;
    assert RowOk(t, id);
  }
}
