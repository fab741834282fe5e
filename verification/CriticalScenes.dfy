/** The manual exit from a critical outcome, told from the scene instead of from the answer of the bridge. */
module CriticalScenes {
  import opened Wrappers
  import opened Contracts
  import opened SceneGraph
  import opened Transactions
  import opened Preflight
  import opened Admission
  import opened Pins
  import opened ServiceSpec

  /** What the service hears of a preflight: the facts, or an error that is not transient. */
  function AnswerOf(o: Outcome): FactsAnswer {
    if o.Known? then Ok(o.facts) else Err(Permanent)
  }

  lemma SameSpots(g: Graph, h: Graph, fp: Footprint)
    requires Confined(g, h, fp) && h.Keys == g.Keys
    ensures forall k :: LocateKey(h, k) == LocateKey(g, k)
    ensures forall p :: p in g ==> h[p].kind == g[p].kind && h[p].mirror == g[p].mirror
  {
    SameMirrors(g, h);
  }

  lemma SameRefOk(g: Graph, h: Graph, fp: Footprint, cs: ChangeSet, ws: Option<Manifest>, r: NodeRef)
    requires Confined(g, h, fp) && h.Keys == g.Keys
    ensures RefOk(h, cs, ws, r) <==> RefOk(g, cs, ws, r)
    ensures ResolutionError(h, KeyOf(r)) == ResolutionError(g, KeyOf(r))
  {
    hide Confined, LocateKey;
    SameSpots(g, h, fp);
    LocatedInScene(g, KeyOf(r));
  }

  /** Preflight can look at what an interrupted change left exactly when no node is there that was not. */
  lemma KnownAfterIff(g: Graph, h: Graph, binding: Binding, cs: ChangeSet, ws: Option<Manifest>)
    requires ValidChangeSet(cs) && Run(g, binding, cs, ws).Known? && Confined(g, h, FootprintOf(cs.operations))
    ensures Run(h, binding, cs, ws).Known? <==> h.Keys == g.Keys
  {
    hide ValidChangeSet, RefOk, ResolutionError, GatherFacts, CollectRefs, FootprintOf, Confined;
    if Run(h, binding, cs, ws).Known? { KnownKeysKept(g, h, binding, cs, ws); }
    if h.Keys == g.Keys {
      forall r | r in CollectRefs(cs)
        ensures RefOk(h, cs, ws, r) && ResolutionError(h, KeyOf(r)).None?
      {
        KnownRefsOk(g, binding, cs, ws, r);
        SameRefOk(g, h, FootprintOf(cs.operations), cs, ws, r);
      }
    }
  }

  lemma NothingCreatedIff(g: Graph, h: Graph, ops: seq<Operation>)
    requires Confined(g, h, FootprintOf(ops))
    ensures h.Keys == g.Keys <==> CreatedPaths(ops) !! h.Keys
  {
    assert FootprintOf(ops).created == CreatedPaths(ops);
  }

  /** In a live scene still bound to the change, wherever the run was interrupted, the manual exit is refused if and only
      if none of the nodes the change creates is there and not all of its postconditions hold. A created node that is
      still there makes preflight refuse, and the outcome counts as resolved. */
  lemma RefusedInScene(g: Graph, h: Graph, cs: ChangeSet, ws: Option<Manifest>)
    requires ValidChangeSet(cs) && Run(g, cs.binding, cs, ws).Known? && Confined(g, h, FootprintOf(cs.operations))
    ensures JudgeCritical(cs, AnswerOf(Run(h, cs.binding, cs, ws))) == Refused
       <==> CreatedPaths(cs.operations) !! h.Keys && !LooksDone(cs, GatherFacts(h, cs.binding, cs, ws))
  {
    hide ValidChangeSet, Run, LooksDone, FootprintOf, Confined, GatherFacts;
    KnownAfterIff(g, h, cs.binding, cs, ws);
    NothingCreatedIff(g, h, cs.operations);
    RefusedIff(cs, AnswerOf(Run(h, cs.binding, cs, ws)));
    FactsBound(h, cs.binding, cs, ws);
  }

  lemma FactsBound(h: Graph, binding: Binding, cs: ChangeSet, ws: Option<Manifest>)
    ensures Run(h, binding, cs, ws).Known? ==>
              Run(h, binding, cs, ws).facts == GatherFacts(h, binding, cs, ws)
              && Run(h, binding, cs, ws).facts.binding == binding
  {
    hide CollectRefs, RefOk, FirstResolutionError, NodeFacts, ParmFacts, WireFacts, Results, ConditionHolds;
  }
}
