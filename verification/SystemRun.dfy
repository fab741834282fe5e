/** A run of the whole system: one change from its proposal to Applied. */
module SystemRun {
  import opened Wrappers
  import opened Contracts
  import opened SceneGraph
  import opened ExecutorSpec
  import opened RepositorySpec
  import opened ServiceSpec
  import opened Protocol
  import opened ProtocolRuns
  import opened ServiceRuns
  import ReplayFlip
  import Codec
  import Coverage

  /** Sets the one parameter of the scene from 0 to 1. */
  function Change(): ChangeSet {
    ReplayFlip.Flip("c", "0", "1")
  }

  function Asked(): Approval {
    Approval("a", "c", Change(), Decision.Pending, false, 0, None, 10, None)
  }

  function Granted(): Approval {
    Approval("a", "c", Change(), Decision.Approved, true, 0, Some(1), 10, Some(ReplayFlip.FlipBinding))
  }

  function Spent(): Approval {
    Approval("a", "c", Change(), Decision.Consumed, true, 0, Some(2), 10, Some(ReplayFlip.FlipBinding))
  }

  /** The tables with the one change in a state. */
  function With(s: Lifecycle, a: Approval, receipts: map<string, Receipt>, events: seq<RepositorySpec.Event>): Tables {
    Tables({"s"}, {"run"}, map["c" := Row(Change(), s)], map["c" := a], receipts, events, map[], map[])
  }

  function Log(n: nat): seq<RepositorySpec.Event> {
    if n == 0 then [] else
    if n == 1 then [ChangeProposed("c", Lifecycle.AwaitingApproval), ApprovalRequested("c")] else
    if n == 2 then Log(1) + [ApprovalDecided("c", Decision.Approved),
                             StateChanged("c", Lifecycle.AwaitingApproval, Lifecycle.Approved)] else
    if n == 3 then Log(2) + [StateChanged("c", Lifecycle.Approved, Lifecycle.Applying)] else
    Log(3) + [StateChanged("c", Lifecycle.Applying, Lifecycle.Applied), OutcomeReported("c", ReceiptStatus.Applied)]
  }

  function Receipts(): map<string, Receipt> {
    map["c" := ReplayFlip.FlipReceipt("c")]
  }

  lemma Proposing()
    ensures ValidApproval(Asked())
    ensures Propose(Empty({"s"}, {"run"}), Change(), Asked()).0 == With(Lifecycle.AwaitingApproval, Asked(), map[], Log(1))
  {
  }

  lemma Deciding()
    ensures Decide(With(Lifecycle.AwaitingApproval, Asked(), map[], Log(1)), "c", Change(), true, 1,
                   Some(ReplayFlip.FlipBinding)).0
         == With(Lifecycle.Approved, Granted(), map[], Log(2))
  {
    var t := With(Lifecycle.AwaitingApproval, Asked(), map[], Log(1));
    assert t.rows["c" := Row(Change(), Lifecycle.Approved)] == map["c" := Row(Change(), Lifecycle.Approved)];
    assert t.approvals["c" := Granted()] == map["c" := Granted()];
  }

  lemma Beginning()
    ensures Start(With(Lifecycle.Approved, Granted(), map[], Log(2)), "c", 2).0
         == With(Lifecycle.Applying, Spent(), map[], Log(3))
    ensures Start(With(Lifecycle.Approved, Granted(), map[], Log(2)), "c", 2).1.Ok?
  {
    var t := With(Lifecycle.Approved, Granted(), map[], Log(2));
    assert t.rows["c" := Row(Change(), Lifecycle.Applying)] == map["c" := Row(Change(), Lifecycle.Applying)];
    assert t.approvals["c" := Spent()] == map["c" := Spent()];
  }

  lemma Completing(factory: ManifestFactory)
    requires factory(Change(), ReplayFlip.FlipReceipt("c")).None?
    ensures Complete(With(Lifecycle.Applying, Spent(), map[], Log(3)), Change(), ReplayFlip.FlipReceipt("c"), factory).0
         == With(Lifecycle.Applied, Spent(), Receipts(), Log(4))
    ensures Readable(ReplayFlip.FlipReceipt("c")) && ReceiptValid(Change(), ReplayFlip.FlipReceipt("c"))
  {
    var t := With(Lifecycle.Applying, Spent(), map[], Log(3));
    assert t.rows["c" := Row(Change(), Lifecycle.Applied)] == map["c" := Row(Change(), Lifecycle.Applied)];
  }

  function Before(): BridgeState {
    BridgeState(ReplayFlip.Holding("0"), [], false)
  }

  function After(): BridgeState {
    ReplayFlip.After("1", "c", "0", "1")
  }

  /** Empty, proposed, approved, requested, executed, completed. */
  function Stages(): (r: seq<System>)
    ensures |r| == 6
  {
    var t3 := With(Lifecycle.Applying, Spent(), map[], Log(3));
    [System(Empty({"s"}, {"run"}), Before(), [], None),
     System(With(Lifecycle.AwaitingApproval, Asked(), map[], Log(1)), Before(), [], None),
     System(With(Lifecycle.Approved, Granted(), map[], Log(2)), Before(), [], None),
     System(t3, Before(), [Request(Change(), None)], None),
     System(t3, After(), [], Some(ReplayFlip.FlipReceipt("c"))),
     System(With(Lifecycle.Applied, Spent(), Receipts(), Log(4)), After(), [], None)]
  }

  function Steps(): (r: seq<Protocol.Event>)
    ensures |r| == 5
  {
    [Administer(DoPropose(Change(), Asked())),
     Administer(DoDecide("c", Change(), true, 1, Some(ReplayFlip.FlipBinding))),
     Begin("c", 2, true), Execute(false, Replied(ReplayFlip.FlipReceipt("c")), true), Deliver]
  }

  /** A run of five steps in which a change is proposed, approved, begun, executed and completed, and the scene moves. */
  lemma OneChangeApplied(setup: Setup)
    requires setup.proc.binding == ReplayFlip.FlipBinding && setup.proc.cacheMax == 1
    requires setup.factory(Change(), ReplayFlip.FlipReceipt("c")).None?
    ensures IsSystemRun(setup, ReplayFlip.Holding("0"), Stages(), Steps())
    ensures "c" in Stages()[5].tables.rows && Stages()[5].tables.rows["c"].state == Lifecycle.Applied
    ensures Stages()[5].bridge.graph == ReplayFlip.Holding("1")
  {
    hide Propose, Decide, Start, Complete, ApplyOutcome, Tree, ValidChangeSet, Coverage.PostconditionsCovered,
      ValidApproval, Readable, Codec.ValidReceipt, ReplayFlip.Flip, ReplayFlip.Holding, ReplayFlip.FlipReceipt, Log;
    ChangeFacts();
    Proposing();
    Deciding();
    Beginning();
    Completing(setup.factory);
    ReplayFlip.FlipApply(setup.proc, Before(), "c", "0", "1");
    ReplayFlip.FlipTree("0");
  }

  /** What the apply call among these steps met: the request is executed and the receipt arrives. */
  function Met(): Course {
    var none := Answers(Err(Transient), Err(Transient));
    Course(none, Stages()[3..5], Steps()[3..4], Ok(ReplayFlip.FlipReceipt("c")), none)
  }

  lemma Requesting()
    ensures Sends(Stages()[2].tables, "c", 2) && AfterRequest(Stages()[2], "c", 2) == Stages()[3]
    ensures Stages()[2].tables.rows["c"].changeset == Change()
  {
    hide BeginApply, ReplayFlip.Flip, ReplayFlip.Holding, ReplayFlip.FlipReceipt, Log, ValidChangeSet;
    ChangeFacts();
    Beginning();
  }

  lemma Waiting(setup: Setup)
    requires IsSystemRun(setup, ReplayFlip.Holding("0"), Stages(), Steps())
    requires ReceiptValid(Change(), ReplayFlip.FlipReceipt("c")) && Sends(Stages()[2].tables, "c", 2)
    ensures HonestWait(setup, Stages()[2], "c", 2, Met())
  {
    hide Next, Initial, Sends, AfterRequest, ReceiptValid, ReplayFlip.Flip, ReplayFlip.Holding, ReplayFlip.FlipReceipt, Log;
    Requesting();
    var c := Met();
    assert Next(setup, Stages()[3], Steps()[3], Stages()[4]);
    assert c.states[0] == Stages()[3] && c.states[1] == Stages()[4] && c.events[0] == Steps()[3];
  }

  lemma Returning(setup: Setup)
    requires setup.factory(Change(), ReplayFlip.FlipReceipt("c")).None?
    ensures ApplyOne(Stages()[2].tables, "c", 2, setup.factory, Met().first, Met().reply, Met().second).0
         == Stages()[5].tables
  {
    hide BeginApply, Complete, ReceiptValid, ReplayFlip.Flip, ReplayFlip.Holding, ReplayFlip.FlipReceipt, Log,
      ValidChangeSet, Codec.ValidReceipt;
    ChangeFacts();
    Beginning();
    Requesting();
    Completing(setup.factory);
  }

  lemma Applying(setup: Setup)
    requires setup.factory(Change(), ReplayFlip.FlipReceipt("c")).None?
    requires IsSystemRun(setup, ReplayFlip.Holding("0"), Stages(), Steps())
    ensures CallStep(setup, Stages()[2], ServiceCall.Applying("c", 2, Met()), Stages()[5])
  {
    hide IsSystemRun, ApplyOne, Sends, HonestWait, ReceiptValid, ReplayFlip.Flip, ReplayFlip.Holding,
      ReplayFlip.FlipReceipt, Log, Codec.ValidReceipt, BeforeAttempt, AfterFirst;
    Completing(setup.factory);
    Requesting();
    Waiting(setup);
    Returning(setup);
    NothingUnderWay(setup);
  }

  lemma NothingUnderWay(setup: Setup)
    ensures !UnderWay(Stages()[2].tables, "c") && AfterFirst(setup, Stages()[2], "c", Met().first) == Stages()[2]
    ensures BeforeAttempt(Stages()[2].tables, "c", setup.factory, Met().first) == Some(Stages()[2].tables)
  {
    hide ReplayFlip.Flip, ReplayFlip.Holding, ReplayFlip.FlipReceipt, Log;
  }

  /** The same as a run of calls: the last three steps are one apply call with an honest course. */
  lemma OneCallApplied(setup: Setup) returns (states: seq<System>, calls: seq<ServiceCall>)
    requires setup.proc.binding == ReplayFlip.FlipBinding && setup.proc.cacheMax == 1
    requires setup.factory(Change(), ReplayFlip.FlipReceipt("c")).None?
    ensures IsCallRun(setup, ReplayFlip.Holding("0"), states, calls)
    ensures |calls| == 3 && calls[2].Applying? && states[3] == Stages()[5]
  {
    hide Stages, Next, Initial, HonestCourse, AfterApply, ReplayFlip.Flip, ReplayFlip.Holding, ReplayFlip.FlipReceipt;
    OneChangeApplied(setup);
    Applying(setup);
    states := Stages()[..3] + [Stages()[5]];
    calls := [Between(Steps()[0]), Between(Steps()[1]), ServiceCall.Applying("c", 2, Met())];
  }

  lemma ChangeFacts()
    ensures ValidChangeSet(Change()) && Coverage.PostconditionsCovered(Change())
    ensures Change().changeId == "c" && Change().workspaceId.None?
  {
    hide ValidChangeSet;
    ReplayFlip.FlipValid("c", "0", "1");
    ReplayFlip.FlipCovered("c", "0", "1");
  }
}
