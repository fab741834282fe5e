/** Recovery trusts the postconditions a change carries, without asking whether they are the derived ones. */
module RecoveryGap {
  import opened Wrappers
  import opened Contracts
  import opened SceneGraph
  import opened Transactions
  import opened Preflight
  import opened Pins
  import opened RepositorySpec
  import opened ServiceSpec
  import Coverage
  import ReplayFlip

  /** One parameter write whose only postcondition is that its target is still there. */
  function Weak(): ChangeSet {
    ReplayFlip.Flip("c", "0", "1").(postconditions := [NodeIdentityEquals(ReplayFlip.Box)])
  }

  lemma WeakRefs()
    ensures forall r :: r in CollectRefs(Weak()) <==> r == ReplayFlip.Box
  {
    hide CollectRefs;
    ReplayFlip.OnlyBox(Weak());
  }

  lemma WeakFacts()
    ensures var o := Run(ReplayFlip.Holding("2"), ReplayFlip.FlipBinding, Weak(), None);
            o.Known? && !o.facts.allHold && FactsMatch(Weak(), None, o.facts) && ServicePostsHold(o.facts, Weak())
  {
    hide CollectRefs;
    var g, cs := ReplayFlip.Holding("2"), Weak();
    WeakRefs();
    var stale := cs.preconditions[2];
    assert stale == ParmValueEquals(ReplayFlip.Box, "tx", "0");
    assert ParmAt(g, ["box"], "tx") == Some("2") && "2" != "0";
    assert !ConditionHolds(g, ReplayFlip.FlipBinding, cs, None, stale);
    WeakPosts();
    WeakResults();
  }

  lemma WeakPosts()
    ensures ServicePostsHold(GatherFacts(ReplayFlip.Holding("2"), ReplayFlip.FlipBinding, Weak(), None), Weak())
  {
    hide CollectRefs, ConditionHolds;
    WeakRefs();
    var f := GatherFacts(ReplayFlip.Holding("2"), ReplayFlip.FlipBinding, Weak(), None);
    assert f.nodes == NodeFacts(ReplayFlip.Holding("2"), CollectRefs(Weak()));
    assert KeyOf(ReplayFlip.Box) in KeysOf(CollectRefs(Weak()));
  }

  lemma WeakResults()
    ensures FactsMatch(Weak(), None, GatherFacts(ReplayFlip.Holding("2"), ReplayFlip.FlipBinding, Weak(), None))
  {
    hide ConditionHolds, CollectRefs;
    var g, cs := ReplayFlip.Holding("2"), Weak();
    forall c | c in cs.preconditions
      ensures exists i :: 0 <= i < |cs.preconditions| && cs.preconditions[i] == c
    {
    }
  }

  /** A change that never ran and whose write is missing is called applied: its preconditions fail, the one
      postcondition it carries holds, and that one says nothing about the write. With every derived postcondition
      supplied this cannot happen. */
  lemma UncoveredIsCalledApplied(env: TxEnv)
    requires env.created == map[]
    ensures var g, cs := ReplayFlip.Holding("2"), Weak();
            var facts := Run(g, ReplayFlip.FlipBinding, cs, None);
            && facts.Known? && !Coverage.PostconditionsCovered(cs)
            && SettlesApplied(Judge(cs, None, Err(ReceiptUnavailable), Ok(facts.facts)))
            && Writes(g, env, cs.operations) != g
  {
    hide Run, FactsMatch, ServicePostsHold;
    var g, cs := ReplayFlip.Holding("2"), Weak();
    WeakFacts();
    var op := cs.operations[0];
    assert Coverage.LastWrite(cs.operations, 0);
    assert Coverage.NewValueCondition(op) in Coverage.MandatoryPostconditions(cs.operations);
    assert cs.operations[..0] == [];
    assert ParmAt(Writes(g, env, cs.operations), ["box"], "tx") == Some("1");
    assert ParmAt(g, ["box"], "tx") == Some("2") && "2" != "1";
  }
}
