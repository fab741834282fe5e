/** What else the durable events say: every decision, every outcome and every first manifest, once each. */
module EventLog {
  import opened Wrappers
  import opened Contracts
  import opened RepositorySpec

  /** The decision the log has reached for the approval of a change. */
  function DecisionOf(events: seq<Event>, id: string): Option<Decision> {
    if events == [] then None else
    var before := DecisionOf(events[..|events| - 1], id);
    match events[|events| - 1]
    case ApprovalRequested(i) => if i == id then Some(Decision.Pending) else before
    case ApprovalDecided(i, d) => if i == id then Some(d) else before
    case _ => before
  }

  /** Using an approval is not an event: a consumed one was logged as approved. */
  function Logged(d: Decision): Decision {
    if d == Decision.Consumed then Decision.Approved else d
  }

  function StoredDecision(t: Tables, id: string): Option<Decision> {
    if id in t.approvals then Some(Logged(t.approvals[id].decision)) else None
  }

  ghost predicate DecisionsLogged(t: Tables) {
    forall id :: DecisionOf(t.events, id) == StoredDecision(t, id)
  }

  ghost predicate OutcomesLogged(t: Tables) {
    && (forall id, s :: OutcomeReported(id, s) in t.events <==> id in t.receipts && t.receipts[id].status == s)
    && (forall w :: WorkspaceCreated(w) in t.events <==> w in t.workspaces)
  }

  lemma {:induction false} DecisionAfter(events: seq<Event>, more: seq<Event>, id: string)
    ensures DecisionOf(events + more, id)
         == if DecisionOf(more, id).Some? then DecisionOf(more, id) else DecisionOf(events, id)
  {
    if more == [] {
      assert events + more == events;
    } else {
      var front := more[..|more| - 1];
      DecisionAfter(events, front, id);
      assert (events + more)[..|events + more| - 1] == events + front;
    }
  }

  /** The events of one transaction, when it appended some. */
  function Added(t: Tables, act: Act): (more: seq<Event>)
    ensures Perform(t, act).1.Ok? ==> more == Perform(t, act).1.value.events
  {
    var a := Perform(t, act).1;
    if a.Ok? then a.value.events else []
  }

  /** Every transaction appends exactly the events it reports. */
  lemma ReportsAppended(t: Tables, act: Act)
    ensures Perform(t, act).0.events == t.events + Added(t, act)
  {
    hide ReadBack, ApprovalIdTaken, BootstrapBound, BootstrapStored, BoundReceipt, CreatedWorkspaces, Decided;
  }

  lemma TwoDecisions(e: Event, f: Event, id: string)
    ensures DecisionOf([e, f], id) == if DecisionOf([f], id).Some? then DecisionOf([f], id) else DecisionOf([e], id)
  {
    assert [e, f] == [e] + [f];
    DecisionAfter([e], [f], id);
  }

  lemma {:induction false} NoDecision(more: seq<Event>, id: string)
    requires forall e :: e in more ==> !e.ApprovalRequested? && !e.ApprovalDecided?
    ensures DecisionOf(more, id).None?
  {
    if more != [] { NoDecision(more[..|more| - 1], id); }
  }

  /** Only proposing and deciding log a decision; using an approval does not change what was logged. */
  lemma UndecidedActs(t: Tables, act: Act, id: string)
    requires !act.DoPropose? && !act.DoDecide?
    ensures forall e :: e in Added(t, act) ==> !e.ApprovalRequested? && !e.ApprovalDecided?
    ensures StoredDecision(Perform(t, act).0, id) == StoredDecision(t, id)
  {
    hide ReadBack, BootstrapBound, BootstrapStored, BoundReceipt, CreatedWorkspaces, DecisionOf;
  }

  lemma DecidedActs(t: Tables, act: Act, id: string)
    requires act.DoPropose? || act.DoDecide?
    ensures var t', d := Perform(t, act).0, DecisionOf(Added(t, act), id);
            && (d.Some? ==> StoredDecision(t', id) == d)
            && (d.None? ==> StoredDecision(t', id) == StoredDecision(t, id))
  {
    hide ApprovalIdTaken;
    var more := Added(t, act);
    if |more| == 2 {
      assert more == [more[0], more[1]];
      TwoDecisions(more[0], more[1], id);
    }
  }

  /** What one transaction does to an approval is what it logs about it. */
  lemma AddedDecision(t: Tables, act: Act, id: string)
    ensures var t', d := Perform(t, act).0, DecisionOf(Added(t, act), id);
            && (d.Some? ==> StoredDecision(t', id) == d)
            && (d.None? ==> StoredDecision(t', id) == StoredDecision(t, id))
  {
    hide Perform, DecisionOf, StoredDecision, Added;
    if act.DoPropose? || act.DoDecide? {
      DecidedActs(t, act, id);
    } else {
      UndecidedActs(t, act, id);
      NoDecision(Added(t, act), id);
    }
  }

  lemma PerformDecisions(t: Tables, act: Act)
    requires JointInv(t) && DecisionsLogged(t)
    ensures DecisionsLogged(Perform(t, act).0)
  {
    hide Perform, JointInv, StoredDecision;
    ReportsAppended(t, act);
    forall id ensures DecisionOf(Perform(t, act).0.events, id) == StoredDecision(Perform(t, act).0, id) {
      DecisionAfter(t.events, Added(t, act), id);
      AddedDecision(t, act, id);
      assert DecisionOf(t.events, id) == StoredDecision(t, id);
    }
  }

  lemma PerformOutcomes(t: Tables, act: Act)
    requires JointInv(t) && OutcomesLogged(t)
    ensures OutcomesLogged(Perform(t, act).0)
  {
    hide JointInv, OutcomesLogged, Perform, Added;
    var t' := Perform(t, act).0;
    ReportsAppended(t, act);
    if t' == t {
    } else if act.DoComplete? || act.DoBootstrap? {
      Settling(t, act);
      ApplyingUnsettled(t, act.receipt.changeId);
      OutcomeAdded(t, t', act.receipt, if act.DoBootstrap? then [act.manifest.workspaceId] else []);
    } else {
      OtherActs(t, act);
      NoOutcome(t, t', Added(t, act));
    }
  }

  lemma OtherActs(t: Tables, act: Act)
    requires !act.DoComplete? && !act.DoBootstrap?
    ensures Perform(t, act).0.receipts == t.receipts && Perform(t, act).0.workspaces == t.workspaces
    ensures forall e :: e in Added(t, act) ==> !e.OutcomeReported? && !e.WorkspaceCreated?
  {
    hide ApprovalIdTaken, Decided;
  }

  lemma Settling(t: Tables, act: Act)
    requires act.DoComplete? || act.DoBootstrap?
    requires Perform(t, act).0 != t
    ensures var r, t', more := act.receipt, Perform(t, act).0, Added(t, act);
            var created := if act.DoBootstrap? then [act.manifest.workspaceId] else [];
            && r.changeId in t.rows && t.rows[r.changeId].state == Lifecycle.Applying
            && t'.receipts == t.receipts[r.changeId := r]
            && t'.workspaces.Keys == t.workspaces.Keys + (set w | w in created)
            && t'.events == t.events + more
            && OutcomeReported(r.changeId, r.status) in more
            && (forall e :: e in more && e.OutcomeReported? ==> e == OutcomeReported(r.changeId, r.status))
            && (forall w :: WorkspaceCreated(w) in more <==> w in created)
  {
    hide ReadBack, BootstrapBound, BootstrapStored, BoundReceipt, CreatedWorkspaces;
    var r, more := act.receipt, Added(t, act);
    assert more[1] == OutcomeReported(r.changeId, r.status);
    if act.DoBootstrap? { assert more[2] == WorkspaceCreated(act.manifest.workspaceId); }
  }

  lemma ApplyingUnsettled(t: Tables, id: string)
    requires JointInv(t) && id in t.rows && t.rows[id].state == Lifecycle.Applying
    ensures id !in t.receipts
  {
    assert RowOk(t, id);
  }

  lemma NoOutcome(t: Tables, t': Tables, more: seq<Event>)
    requires OutcomesLogged(t) && t'.events == t.events + more && t'.receipts == t.receipts && t'.workspaces == t.workspaces
    requires forall e :: e in more ==> !e.OutcomeReported? && !e.WorkspaceCreated?
    ensures OutcomesLogged(t')
  {
  }

  lemma OutcomeAdded(t: Tables, t': Tables, r: Receipt, created: seq<string>)
    requires OutcomesLogged(t) && r.changeId !in t.receipts && t'.receipts == t.receipts[r.changeId := r]
    requires |created| <= 1 && t'.workspaces.Keys == t.workspaces.Keys + (set w | w in created)
    requires |t'.events| >= |t.events| && t'.events[..|t.events|] == t.events
    requires var more := t'.events[|t.events|..];
             && OutcomeReported(r.changeId, r.status) in more
             && (forall e :: e in more && e.OutcomeReported? ==> e == OutcomeReported(r.changeId, r.status))
             && (forall w :: WorkspaceCreated(w) in more <==> w in created)
    ensures OutcomesLogged(t')
  {
    var more := t'.events[|t.events|..];
    assert t'.events == t.events + more;
  }

  /** After any run the log tells, for each change, the decision that is stored and the one outcome that is, and
      nothing about changes that have none. */
  lemma {:induction false} RunsLogAll(sessions: set<string>, runs: set<string>, acts: seq<Act>)
    requires forall a :: a in acts ==> ValidAct(a)
    ensures DecisionsLogged(PerformAll(Empty(sessions, runs), acts))
    ensures OutcomesLogged(PerformAll(Empty(sessions, runs), acts))
  {
    hide JointInv, Perform;
    if acts != [] {
      var front := acts[..|acts| - 1];
      RunsLogAll(sessions, runs, front);
      RunsKeep(sessions, runs, front);
      PerformDecisions(PerformAll(Empty(sessions, runs), front), acts[|acts| - 1]);
      PerformOutcomes(PerformAll(Empty(sessions, runs), front), acts[|acts| - 1]);
    }
  }
}
