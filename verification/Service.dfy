/** The service: it drives the database and the bridge step by step and survives lost replies and restarts. */
module Service {
  import opened Wrappers
  import opened Contracts
  import opened Preflight
  import opened RepositorySpec
  import opened ServiceSpec
  import opened Evidence
  import Repository
  import Codec

  /** The other end of the wire: any call may fail, and only `Apply` asks for writes. */
  class Bridge {
    /** Every request to write that was ever sent. */
    ghost var sent: seq<(ChangeSet, Option<Manifest>)>
    /** Every answer that was ever given, with what it answers. */
    ghost var heard: seq<Heard>

    constructor ()
      ensures sent == [] && heard == []
    {
      sent, heard := [], [];
    }

    method Apply(cs: ChangeSet, ws: Option<Manifest>) returns (a: ReceiptAnswer)
      modifies this
      ensures sent == old(sent) + [(cs, ws)] && heard == old(heard) + [Served(cs, ws, a)]
      ensures a.Ok? ==> Codec.ValidReceipt(a.value)
    {
      sent := sent + [(cs, ws)];
      a := AnyReceipt();
      heard := heard + [Served(cs, ws, a)];
    }

    method Receipt(cs: ChangeSet) returns (a: ReceiptAnswer)
      modifies this`heard
      ensures heard == old(heard) + [Told(cs, a)]
      ensures a.Ok? ==> Codec.ValidReceipt(a.value)
    {
      a := AnyReceipt();
      heard := heard + [Told(cs, a)];
    }

    method Preflight(cs: ChangeSet, ws: Option<Manifest>) returns (a: FactsAnswer)
      modifies this`heard
      ensures heard == old(heard) + [Looked(cs, ws, a)]
    {
      a := *;
      heard := heard + [Looked(cs, ws, a)];
    }

    method AnyReceipt() returns (a: ReceiptAnswer)
      ensures a.Ok? ==> Codec.ValidReceipt(a.value)
    {
      var some: ReceiptAnswer := *;
      a := if some.Ok? && !Codec.ValidReceipt(some.value) then Err(Permanent) else some;
    }
  }

  class ChangeSetService {
    const repository: Repository.ChangeSetRepository
    const bridge: Bridge
    const factory: ManifestFactory

    constructor (repository: Repository.ChangeSetRepository, bridge: Bridge, factory: ManifestFactory)
      ensures this.repository == repository && this.bridge == bridge && this.factory == factory
    {
      this.repository, this.bridge, this.factory := repository, bridge, factory;
    }

    function Tables(): RepositorySpec.Tables
      reads repository
    {
      repository.Contents()
    }

    method CompleteReceipt(cs: ChangeSet, r: Receipt) returns (answer: Answer)
      requires JointInv(Tables()) && Codec.ValidReceipt(r)
      modifies repository
      ensures (Tables(), answer) == Complete(old(Tables()), cs, r, factory)
      ensures JointInv(Tables())
    {
      hide JointInv, CompleteApply, CompleteBootstrap, Codec.ValidReceipt;
      var w := factory(cs, r);
      if w.Some? {
        answer := repository.CompleteBootstrap(r, w.value);
      } else {
        answer := repository.CompleteApply(r);
      }
    }

    /** Reconciles one interrupted apply: the receipt is asked for first, then the facts. No request to write is
        ever sent. */
    method RecoverOne(id: string) returns (r: Recovery, ghost answers: Answers)
      requires JointInv(Tables())
      modifies repository, bridge`heard
      ensures (Tables(), r) == ServiceSpec.RecoverOne(old(Tables()), id, factory, answers.ra, answers.fa)
      ensures JointInv(Tables()) && bridge.sent == old(bridge.sent)
      ensures bridge.heard == old(bridge.heard) + RecoveryHeard(old(Tables()), id, answers)
      ensures answers.ra.Ok? ==> Codec.ValidReceipt(answers.ra.value)
      ensures UnderRecovery(old(Tables()), id) ==> (r.Open? <==> Away(answers.ra, answers.fa))
      ensures r.Open? ==> Tables() == old(Tables())
    {
      hide JointInv, CompleteApply, CompleteBootstrap, Codec.ValidReceipt, FactsMatch, LooksDone, StoredReceipt,
        RecoverToApproved;
      answers := Answers(Err(Transient), Err(Transient));
      ghost var before := Tables();
      if id !in repository.rows { return Failed(Repo(NotFound)), answers; }
      var cs, s := repository.rows[id].changeset, repository.rows[id].state;
      if s in {Lifecycle.Applied, Lifecycle.RolledBack, Lifecycle.CriticalRecovery} {
        return StoredRecovery(Tables(), id, s), answers;
      }
      if s != Lifecycle.Applying { return Reached(s, None), answers; }
      var ws := WorkspaceFor(Tables(), cs);
      if ws.Err? { return Failed(ws.error), answers; }
      var ra := bridge.Receipt(cs);
      answers := Answers(ra, Err(Transient));
      var answer: Answer;
      if ra.Ok? {
        var receipt := if ReceiptValid(cs, ra.value) then ra.value else CriticalReceipt(cs, None);
        answer := CompleteReceipt(cs, receipt);
        return FromAnswer(answer, Some(receipt)), answers;
      }
      if ra.error.Transient? { return Open, answers; }
      if ra.error.Permanent? {
        answer := CompleteReceipt(cs, CriticalReceipt(cs, None));
        return FromAnswer(answer, Some(CriticalReceipt(cs, None))), answers;
      }
      var fa := bridge.Preflight(cs, ws.value);
      answers := Answers(ra, fa);
      if fa.Err? && fa.error.Transient? { return Open, answers; }
      if fa.Ok? && FactsMatch(cs, ws.value, fa.value) && fa.value.allHold {
        answer := repository.RecoverToApproved(id);
        return FromAnswer(answer, None), answers;
      }
      var receipt := CriticalReceipt(cs, if fa.Ok? then Some(fa.value) else None);
      if fa.Ok? && FactsMatch(cs, ws.value, fa.value) && LooksDone(cs, fa.value) {
        receipt := DoneReceipt(cs, fa.value);
      }
      answer := CompleteReceipt(cs, receipt);
      r := FromAnswer(answer, Some(receipt));
    }

    /** The manual exit from a critical outcome. */
    method RecoverCritical(id: string) returns (r: Recovery, ghost fa: FactsAnswer)
      requires JointInv(Tables())
      modifies repository, bridge`heard
      ensures (Tables(), r) == RecoverCriticalOne(old(Tables()), id, fa)
      ensures JointInv(Tables()) && bridge.sent == old(bridge.sent)
      ensures bridge.heard == old(bridge.heard) + ExitHeard(old(Tables()), id, fa)
      ensures WaitsForUser(old(Tables()), id) ==> (r.Open? <==> fa == Err(Transient))
      ensures r.Open? ==> Tables() == old(Tables())
    {
      hide JointInv, LooksDone, StoredReceipt, RepositorySpec.RecoverCritical;
      fa := Err(Transient);
      if id !in repository.rows { return Failed(Repo(NotFound)), fa; }
      var cs, s := repository.rows[id].changeset, repository.rows[id].state;
      if s in {Lifecycle.Applied, Lifecycle.RolledBack, Lifecycle.Recovered} {
        return StoredRecovery(Tables(), id, s), fa;
      }
      if s != Lifecycle.CriticalRecovery { return Reached(s, None), fa; }
      var ws := WorkspaceFor(Tables(), cs);
      if ws.Err? { return Failed(ws.error), fa; }
      var got := bridge.Preflight(cs, ws.value);
      fa := got;
      if got.Err? && got.error.Transient? { return Open, fa; }
      if got.Ok? && got.value.binding == cs.binding && !LooksDone(cs, got.value) {
        return Reached(Lifecycle.CriticalRecovery, None), fa;
      }
      var answer := repository.RecoverCritical(id);
      r := FromAnswer(answer, None);
    }

    /** Sends at most one request, and only for a change that just entered Applying behind the barrier. */
    method Apply(id: string, now: int)
      returns (r: Recovery, ghost first: Answers, ghost reply: ReceiptAnswer, ghost second: Answers)
      requires JointInv(Tables())
      modifies repository, bridge
      ensures (Tables(), r) == ApplyOne(old(Tables()), id, now, factory, first, reply, second)
      ensures JointInv(Tables())
      ensures bridge.sent == old(bridge.sent) + ApplyRequests(old(Tables()), id, now, factory, first)
      ensures bridge.heard == old(bridge.heard) + ApplyHeard(old(Tables()), id, now, factory, first, reply, second)
      ensures bridge.sent != old(bridge.sent) ==>
                && id in old(Tables()).rows && id in Tables().approvals
                && old(Tables()).rows[id].state in {Lifecycle.Approved, Lifecycle.Applying}
                && Tables().approvals[id].decision == Decision.Consumed
                && bridge.sent[|old(bridge.sent)|].0 == old(Tables()).rows[id].changeset
    {
      hide JointInv, ServiceSpec.RecoverOne, ServiceSpec.Attempt, StoredReceipt, AttemptRequests, AttemptHeard, UnderRecovery,
        Away, WorkspaceFor, Codec.ValidReceipt;
      reply := Err(Transient);
      first, second := Answers(reply, Err(Transient)), Answers(reply, Err(Transient));
      if id !in repository.rows { return Failed(Repo(NotFound)), first, reply, second; }
      var s := repository.rows[id].state;
      if s in {Lifecycle.Applied, Lifecycle.RolledBack, Lifecycle.CriticalRecovery} {
        return StoredRecovery(Tables(), id, s), first, reply, second;
      }
      if s == Lifecycle.Applying {
        ghost var before := Tables();
        r, first := RecoverOne(id);
        RecoveryLeaves(before, id, factory, first.ra, first.fa, id);
        if r.Open? { return Failed(BridgeUnavailable), first, reply, second; }
        if r.Failed? || r.receipt.Some? { return; }
      }
      r, reply, second := Attempt(id, now);
    }

    method Attempt(id: string, now: int) returns (r: Recovery, ghost reply: ReceiptAnswer, ghost second: Answers)
      requires JointInv(Tables())
      modifies repository, bridge
      ensures (Tables(), r) == ServiceSpec.Attempt(old(Tables()), id, now, factory, reply, second)
      ensures JointInv(Tables())
      ensures bridge.sent == old(bridge.sent) + AttemptRequests(old(Tables()), id, now)
      ensures bridge.heard == old(bridge.heard) + AttemptHeard(old(Tables()), id, now, reply, second)
      ensures bridge.sent != old(bridge.sent) ==>
                && id in old(Tables()).rows && old(Tables()).rows[id].state == Lifecycle.Approved
                && WriteAvailable(old(Tables()), id)
                && bridge.sent[|old(bridge.sent)|].0 == old(Tables()).rows[id].changeset
                && id in Tables().approvals && Tables().approvals[id].decision == Decision.Consumed
    {
      hide JointInv, ServiceSpec.RecoverOne, Complete, Codec.ValidReceipt, RepositorySpec.BeginApply;
      reply, second := Err(Transient), Answers(Err(Transient), Err(Transient));
      if id !in repository.rows { return Failed(Repo(NotFound)), reply, second; }
      var cs := repository.rows[id].changeset;
      if !WriteAvailable(Tables(), id) { return Failed(CriticalRequired), reply, second; }
      var ws := WorkspaceFor(Tables(), cs);
      if ws.Err? { return Failed(ws.error), reply, second; }
      ghost var before := Tables();
      var started := repository.BeginApply(id, now);
      if started.Err? { return Failed(Repo(started.error)), reply, second; }
      BegunConsumed(before, id, now);
      ghost var begun := Tables();
      var receipt := bridge.Apply(cs, ws.value);
      reply := receipt;
      if receipt.Ok? && ReceiptValid(cs, receipt.value) {
        var answer := CompleteReceipt(cs, receipt.value);
        CompletionLeaves(begun, cs, receipt.value, factory, id);
        r := FromAnswer(answer, Some(receipt.value));
      } else {
        r, second := RecoverOne(cs.changeId);
        RecoveryLeaves(begun, cs.changeId, factory, second.ra, second.fa, id);
        if !r.Failed? && !(r.Reached? && r.receipt.Some?) { r := Failed(ApplyFailed); }
      }
    }
  }
}
