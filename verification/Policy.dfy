/** The policy decision: which ChangeSets may run at all. */
module Policy {
  import opened Wrappers
  import opened Contracts

  datatype Denial =
    | MissingWorkspace | StaleWorkspace | OwnershipMismatch | OwnershipUnclear | ScopeViolation | LockedTarget
    | AmbiguousTarget | AffectedOmitted | EffectContradiction | NoBackup | NodeIdReused

  // ---- facts derived from the operations ---------------------------------

  function EffectOf(op: Operation): Effect {
    match op
    case CreateNode(_, _, _, _, _, _, _, _) => NodeCreateEffect
    case SetParm(_, _, _, _, _) => ParmSetEffect
    case ConnectInput(_, _, _, _, _, _) => WireConnectEffect
  }

  function Effects(ops: seq<Operation>): set<Effect> {
    set i | 0 <= i < |ops| :: EffectOf(ops[i])
  }

  function Targets(ops: seq<Operation>): set<NodeRef> {
    set i | 0 <= i < |ops| && !ops[i].CreateNode? :: ops[i].target
  }

  function Sources(ops: seq<Operation>): set<NodeRef> {
    set i | 0 <= i < |ops| && ops[i].ConnectInput? :: ops[i].source
  }

  function Parents(ops: seq<Operation>): set<NodeRef> {
    set i | 0 <= i < |ops| && ops[i].CreateNode? :: ops[i].parent
  }

  function CreatedRefs(ops: seq<Operation>): set<NodeRef> {
    set i | 0 <= i < |ops| && ops[i].CreateNode? :: CreatedRef(ops[i])
  }

  function PathsOf(rs: set<NodeRef>): set<Path> {
    set r | r in rs :: r.path
  }

  predicate OwnedById(ws: Manifest, id: string) {
    exists o :: o in ws.nodes && o.nodeId == id
  }

  predicate MatchesOwned(r: NodeRef, o: OwnedNode, workspaceId: string) {
    r.path == o.path && r.kind == o.kind && r.workspaceId == Some(workspaceId)
  }

  predicate Named(r: NodeRef, o: OwnedNode) {
    if r.nodeId.Some? then o.nodeId == r.nodeId.value else o.path == r.path
  }

  /** The manifest knows the node, by id or else by path. */
  predicate KnownOwned(ws: Manifest, r: NodeRef) {
    exists o :: o in ws.nodes && Named(r, o)
  }

  predicate OwnedMatch(ws: Manifest, r: NodeRef) {
    exists o :: o in ws.nodes && Named(r, o) && MatchesOwned(r, o, ws.workspaceId)
  }

  predicate External(ops: seq<Operation>, ws: Option<Manifest>, r: NodeRef) {
    r !in CreatedRefs(ops) && (ws.Some? ==> !OwnedMatch(ws.value, r))
  }

  predicate ReadDependency(cs: ChangeSet, r: NodeRef) {
    exists d :: d in cs.readDeps && KeyOf(d) == KeyOf(r)
  }

  // ---- the rules ---------------------------------------------------------

  predicate RiskAgrees(cs: ChangeSet, ws: Option<Manifest>) {
    var ops, risk := cs.operations, cs.risk;
    && risk.effects == Effects(ops)
    && risk.changesWiring == (WireConnectEffect in Effects(ops))
    && risk.operationCount == |ops|
    && risk.affectedPaths == PathsOf(Targets(ops) + Sources(ops) + CreatedRefs(ops))
    && (risk.touchesExternal <==> exists r :: r in Targets(ops) + Sources(ops) + Parents(ops) && External(ops, ws, r))
  }

  predicate AffectedListed(cs: ChangeSet) {
    forall r :: r in Targets(cs.operations) + Sources(cs.operations) + CreatedRefs(cs.operations) ==> r in cs.affected
  }

  predicate SourceOk(cs: ChangeSet, ws: Manifest, r: NodeRef) {
    r in CreatedRefs(cs.operations)
    || (if KnownOwned(ws, r) then OwnedMatch(ws, r) else ReadDependency(cs, r))
  }

  predicate OwnedTargetOk(cs: ChangeSet, ws: Manifest, r: NodeRef) {
    r in CreatedRefs(cs.operations) || (r.nodeId.Some? && OwnedMatch(ws, r))
  }

  predicate OwnedRules(cs: ChangeSet, ws: Option<Manifest>) {
    && ws.Some?
    && cs.workspaceId == Some(ws.value.workspaceId)
    && ws.value.binding == cs.binding
    && (forall r :: r in Targets(cs.operations) ==> OwnedTargetOk(cs, ws.value, r))
    && (forall r :: r in Sources(cs.operations) ==> SourceOk(cs, ws.value, r))
    && (forall i :: 0 <= i < |cs.operations| && cs.operations[i].CreateNode? ==>
          cs.operations[i].workspaceId == ws.value.workspaceId)
  }

  predicate InScope(cs: ChangeSet, r: NodeRef) {
    r.nodeId.Some? && r.nodeId.value in cs.scopedIds
  }

  predicate ScopedRules(cs: ChangeSet) {
    && CreatedRefs(cs.operations) == {}
    && (forall r :: r in Targets(cs.operations) + Sources(cs.operations) ==> InScope(cs, r))
  }

  predicate ModeRules(cs: ChangeSet, ws: Option<Manifest>) {
    match cs.permission
    case OwnedWorkspace => OwnedRules(cs, ws)
    case ScopedPatch => ScopedRules(cs)
    case ProjectChange => true
  }

  /** A create under an id that the manifest lists. */
  predicate ReusesId(cs: ChangeSet, ws: Option<Manifest>) {
    ws.Some? && exists r :: r in CreatedRefs(cs.operations) && OwnedById(ws.value, r.nodeId.value)
  }

  /** What it takes for a ChangeSet to be allowed. */
  predicate Allowed(cs: ChangeSet, ws: Option<Manifest>, locked: set<Path>, ambiguous: set<Path>) {
    && RiskAgrees(cs, ws)
    && !cs.risk.requiresBackup
    && (forall r :: r in Targets(cs.operations) ==> r.path !in locked && r.path !in ambiguous)
    && AffectedListed(cs)
    && !ReusesId(cs, ws)
    && ModeRules(cs, ws)
  }

  // ---- the rules, told from the operations -------------------------------

  /** The declared risk is the risk of the operations: the kinds of effects there are, whether one of them wires, how many
      there are, which paths they write, read from or create, and whether one reaches outside what is owned or created. */
  lemma RiskAgreesIff(cs: ChangeSet, ws: Option<Manifest>)
    ensures RiskAgrees(cs, ws)
       <==> var ops, risk := cs.operations, cs.risk;
            && (forall e :: e in risk.effects <==> exists i :: 0 <= i < |ops| && EffectOf(ops[i]) == e)
            && (risk.changesWiring <==> exists i :: 0 <= i < |ops| && ops[i].ConnectInput?)
            && risk.operationCount == |ops|
            && (forall p :: p in risk.affectedPaths <==> exists i :: 0 <= i < |ops| && Reaches(ops[i], p))
            && (risk.touchesExternal <==>
                  exists i, r :: 0 <= i < |ops| && r in UsedRefs(ops[i]) && Outside(ops, ws, r))
  {
    var ops := cs.operations;
    EffectsIff(ops);
    PathsIff(ops);
    ExternalIff(ops, ws);
    assert cs.risk.effects == Effects(ops) <==> forall e :: e in cs.risk.effects <==> e in Effects(ops);
    assert cs.risk.affectedPaths == PathsOf(Targets(ops) + Sources(ops) + CreatedRefs(ops)) <==>
           forall p :: p in cs.risk.affectedPaths <==> p in PathsOf(Targets(ops) + Sources(ops) + CreatedRefs(ops));
  }

  /** The operation writes at the path, reads from it, or creates it. */
  predicate Reaches(op: Operation, p: Path) {
    match op
    case CreateNode(_, _, _, _, _, _, _, _) => CreatedPath(op) == p
    case SetParm(_, target, _, _, _) => target.path == p
    case ConnectInput(_, target, _, source, _, _) => target.path == p || source.path == p
  }

  /** Neither created here nor a node of the manifest, by id or else by path, with its place, type and workspace. */
  predicate Outside(ops: seq<Operation>, ws: Option<Manifest>, r: NodeRef) {
    && (forall i :: 0 <= i < |ops| && ops[i].CreateNode? ==> CreatedRef(ops[i]) != r)
    && (ws.Some? ==> forall o :: o in ws.value.nodes && (if r.nodeId.Some? then o.nodeId == r.nodeId.value else o.path == r.path) ==>
                       r.path != o.path || r.kind != o.kind || r.workspaceId != Some(ws.value.workspaceId))
  }

  lemma EffectsIff(ops: seq<Operation>)
    ensures forall e :: e in Effects(ops) <==> exists i :: 0 <= i < |ops| && EffectOf(ops[i]) == e
    ensures WireConnectEffect in Effects(ops) <==> exists i :: 0 <= i < |ops| && ops[i].ConnectInput?
  {
    if i :| 0 <= i < |ops| && ops[i].ConnectInput? { assert EffectOf(ops[i]) == WireConnectEffect; }
  }

  lemma PathsIff(ops: seq<Operation>)
    ensures forall p :: p in PathsOf(Targets(ops) + Sources(ops) + CreatedRefs(ops))
                   <==> exists i :: 0 <= i < |ops| && Reaches(ops[i], p)
  {
    forall p ensures p in PathsOf(Targets(ops) + Sources(ops) + CreatedRefs(ops))
                <==> exists i :: 0 <= i < |ops| && Reaches(ops[i], p)
    {
      if i :| 0 <= i < |ops| && Reaches(ops[i], p) {
        match ops[i] {
          case CreateNode(_, _, _, _, _, _, _, _) => assert CreatedRef(ops[i]) in CreatedRefs(ops);
          case SetParm(_, target, _, _, _) => assert target in Targets(ops);
          case ConnectInput(_, target, _, source, _, _) => assert target in Targets(ops) && source in Sources(ops);
        }
      }
    }
  }

  lemma ExternalIff(ops: seq<Operation>, ws: Option<Manifest>)
    ensures (exists r :: r in Targets(ops) + Sources(ops) + Parents(ops) && External(ops, ws, r))
       <==> exists i, r :: 0 <= i < |ops| && r in UsedRefs(ops[i]) && Outside(ops, ws, r)
  {
    if r :| r in Targets(ops) + Sources(ops) + Parents(ops) && External(ops, ws, r) {
      var i := UsedAt(ops, r);
      OutsideIff(ops, ws, r);
    }
    if i, r :| 0 <= i < |ops| && r in UsedRefs(ops[i]) && Outside(ops, ws, r) {
      OutsideIff(ops, ws, r);
      match ops[i] {
        case CreateNode(_, parent, _, _, _, _, _, _) => assert parent in Parents(ops);
        case SetParm(_, target, _, _, _) => assert target in Targets(ops);
        case ConnectInput(_, target, _, source, _, _) => assert target in Targets(ops) && source in Sources(ops);
      }
    }
  }

  lemma UsedAt(ops: seq<Operation>, r: NodeRef) returns (i: int)
    requires r in Targets(ops) + Sources(ops) + Parents(ops)
    ensures 0 <= i < |ops| && r in UsedRefs(ops[i])
  {
    if r in Targets(ops) {
      i :| 0 <= i < |ops| && !ops[i].CreateNode? && ops[i].target == r;
    } else if r in Sources(ops) {
      i :| 0 <= i < |ops| && ops[i].ConnectInput? && ops[i].source == r;
    } else {
      i :| 0 <= i < |ops| && ops[i].CreateNode? && ops[i].parent == r;
    }
  }

  lemma OutsideIff(ops: seq<Operation>, ws: Option<Manifest>, r: NodeRef)
    ensures External(ops, ws, r) <==> Outside(ops, ws, r)
  {
    if r !in CreatedRefs(ops) {
      forall i | 0 <= i < |ops| && ops[i].CreateNode? ensures CreatedRef(ops[i]) != r {
        assert CreatedRef(ops[i]) in CreatedRefs(ops);
      }
    }
  }

  /** A scoped patch creates nothing, and every node it writes to or wires from is one that was granted by its id. */
  lemma ScopedRulesIff(cs: ChangeSet)
    ensures ScopedRules(cs)
       <==> forall i :: 0 <= i < |cs.operations| ==>
              !cs.operations[i].CreateNode? && Granted(cs, cs.operations[i].target)
              && (cs.operations[i].ConnectInput? ==> Granted(cs, cs.operations[i].source))
  {
    var ops := cs.operations;
    forall r ensures InScope(cs, r) <==> Granted(cs, r) { GrantedIff(cs, r); }
    if ScopedRules(cs) {
      forall i | 0 <= i < |ops|
        ensures !ops[i].CreateNode? && Granted(cs, ops[i].target) && (ops[i].ConnectInput? ==> Granted(cs, ops[i].source))
      {
        if ops[i].CreateNode? { CreatedListed(ops, i); }
        assert ops[i].target in Targets(ops);
        if ops[i].ConnectInput? { assert ops[i].source in Sources(ops); }
      }
    }
  }

  lemma CreatedListed(ops: seq<Operation>, i: nat)
    requires i < |ops| && ops[i].CreateNode?
    ensures CreatedRef(ops[i]) in CreatedRefs(ops)
  {
  }

  lemma GrantedIff(cs: ChangeSet, r: NodeRef)
    ensures InScope(cs, r) <==> Granted(cs, r)
  {
    if InScope(cs, r) { assert r.nodeId.value in cs.scopedIds && r.nodeId == Some(r.nodeId.value); }
  }

  predicate Granted(cs: ChangeSet, r: NodeRef) {
    exists id :: id in cs.scopedIds && r.nodeId == Some(id)
  }

  /** An owned change has a manifest of its workspace and scene; it creates nodes of that workspace, writes to nodes it
      creates or that the manifest has under their id, and wires from nodes it creates, that the manifest has, or that the
      manifest does not know and the change declares to read. */
  lemma OwnedRulesIff(cs: ChangeSet, ws: Option<Manifest>)
    ensures OwnedRules(cs, ws)
       <==> ws.Some? && cs.workspaceId == Some(ws.value.workspaceId) && ws.value.binding == cs.binding
            && forall i :: 0 <= i < |cs.operations| ==> OwnedOperation(cs, ws.value, cs.operations[i])
  {
    if ws.Some? {
      OperationsOk(cs, ws.value);
      forall i | 0 <= i < |cs.operations|
        ensures OperationOk(cs, ws.value, cs.operations[i]) <==> OwnedOperation(cs, ws.value, cs.operations[i])
      {
        OwnedOperationIff(cs, ws.value, cs.operations[i]);
      }
    }
  }

  predicate MadeHere(ops: seq<Operation>, r: NodeRef) {
    exists i :: 0 <= i < |ops| && ops[i].CreateNode? && CreatedRef(ops[i]) == r
  }

  /** The manifest has the node where the reference says, as the type it says. */
  predicate Entered(w: Manifest, r: NodeRef) {
    && r.workspaceId == Some(w.workspaceId)
    && exists o :: o in w.nodes && (r.nodeId.Some? ==> r.nodeId == Some(o.nodeId)) && o.path == r.path && o.kind == r.kind
  }

  predicate Unknown(w: Manifest, r: NodeRef) {
    forall o :: o in w.nodes ==> if r.nodeId.Some? then r.nodeId != Some(o.nodeId) else o.path != r.path
  }

  predicate OwnedOperation(cs: ChangeSet, w: Manifest, op: Operation) {
    match op
    case CreateNode(_, _, _, _, _, workspaceId, _, _) => workspaceId == w.workspaceId
    case SetParm(_, target, _, _, _) => MadeHere(cs.operations, target) || (target.nodeId.Some? && Entered(w, target))
    case ConnectInput(_, target, _, source, _, _) =>
      && (MadeHere(cs.operations, target) || (target.nodeId.Some? && Entered(w, target)))
      && (MadeHere(cs.operations, source) || Entered(w, source)
          || (Unknown(w, source) && exists d :: d in cs.readDeps && KeyOf(d) == KeyOf(source)))
  }

  lemma OwnedOperationIff(cs: ChangeSet, w: Manifest, op: Operation)
    ensures OperationOk(cs, w, op) <==> OwnedOperation(cs, w, op)
  {
    if !op.CreateNode? {
      EnteredIff(cs, w, op.target);
      if op.ConnectInput? { EnteredIff(cs, w, op.source); }
    }
  }

  lemma EnteredIff(cs: ChangeSet, w: Manifest, r: NodeRef)
    ensures MadeHere(cs.operations, r) <==> r in CreatedRefs(cs.operations)
    ensures Entered(w, r) <==> OwnedMatch(w, r)
    ensures Unknown(w, r) <==> !KnownOwned(w, r)
    ensures OwnedMatch(w, r) ==> KnownOwned(w, r)
  {
    if OwnedMatch(w, r) {
      var o :| o in w.nodes && Named(r, o) && MatchesOwned(r, o, w.workspaceId);
      assert o in w.nodes && (r.nodeId.Some? ==> r.nodeId == Some(o.nodeId)) && o.path == r.path && o.kind == r.kind;
    }
    if Entered(w, r) {
      var o :| o in w.nodes && (r.nodeId.Some? ==> r.nodeId == Some(o.nodeId)) && o.path == r.path && o.kind == r.kind;
      assert Named(r, o) && MatchesOwned(r, o, w.workspaceId);
    }
  }

  // ---- the evaluation ----------------------------------------------------

  /** Which code a broken rule has. */
  ghost predicate CalledFor(d: Denial, cs: ChangeSet, ws: Option<Manifest>, locked: set<Path>, ambiguous: set<Path>) {
    CommonCallsFor(d, cs, ws, locked, ambiguous) || ModeCallsFor(d, cs, ws)
  }

  ghost predicate CommonCallsFor(d: Denial, cs: ChangeSet, ws: Option<Manifest>, locked: set<Path>, ambiguous: set<Path>) {
    match d
    case LockedTarget => exists r :: r in Targets(cs.operations) && r.path in locked
    case AmbiguousTarget => exists r :: r in Targets(cs.operations) && r.path in ambiguous
    case AffectedOmitted => !AffectedListed(cs)
    case EffectContradiction => !RiskAgrees(cs, ws)
    case NoBackup => cs.risk.requiresBackup
    case NodeIdReused => ReusesId(cs, ws)
    case _ => false
  }

  predicate ModeCallsFor(d: Denial, cs: ChangeSet, ws: Option<Manifest>) {
    if d == ScopeViolation then cs.permission == ScopedPatch && !ScopedRules(cs)
    else cs.permission == OwnedWorkspace && OwnedCallsFor(d, cs, ws)
  }

  /** A target without an id has no clear owner; any other strange target, source or create is a mismatch. */
  predicate OwnedCallsFor(d: Denial, cs: ChangeSet, ws: Option<Manifest>) {
    match d
    case MissingWorkspace => ws.None?
    case StaleWorkspace => ws.Some? && ws.value.binding != cs.binding
    case OwnershipUnclear =>
      ws.Some? && exists i :: 0 <= i < |cs.operations| && !cs.operations[i].CreateNode? && cs.operations[i].target.nodeId.None?
    case OwnershipMismatch =>
      ws.Some? && (cs.workspaceId != Some(ws.value.workspaceId)
                   || exists i :: 0 <= i < |cs.operations| && Mismatched(cs, ws.value, cs.operations[i]))
    case _ => false
  }

  predicate Mismatched(cs: ChangeSet, w: Manifest, op: Operation) {
    if op.CreateNode? then op.workspaceId != w.workspaceId else
    (op.target.nodeId.Some? && !OwnedTargetOk(cs, w, op.target)) || (op.ConnectInput? && !SourceOk(cs, w, op.source))
  }

  /** Collects denial codes rule by rule; the ChangeSet is allowed exactly when none was collected. */
  method EvaluatePolicy(cs: ChangeSet, ws: Option<Manifest>, locked: set<Path>, ambiguous: set<Path>)
    returns (allowed: bool, denials: set<Denial>)
    requires ws.Some? ==> UniqueNodes(ws.value.nodes)
    ensures allowed <==> denials == {}
    ensures allowed <==> Allowed(cs, ws, locked, ambiguous)
    ensures forall d :: d in denials <==> CalledFor(d, cs, ws, locked, ambiguous)
  {
    hide Allowed, CommonCallsFor, ModeCallsFor, ModeRules;
    denials := CommonDenials(cs, ws, locked, ambiguous);
    var mode := ModeDenials(cs, ws);
    denials := denials + mode;
    allowed := denials == {};
    AllowedIff(cs, ws, locked, ambiguous);
  }

  lemma AllowedIff(cs: ChangeSet, ws: Option<Manifest>, locked: set<Path>, ambiguous: set<Path>)
    ensures (forall d :: !CommonCallsFor(d, cs, ws, locked, ambiguous)) && ModeRules(cs, ws)
       <==> Allowed(cs, ws, locked, ambiguous)
  {
    hide RiskAgrees, AffectedListed, ModeRules, Targets, ReusesId;
    if Allowed(cs, ws, locked, ambiguous) {
      forall d ensures !CommonCallsFor(d, cs, ws, locked, ambiguous) { }
    }
    if forall d :: !CommonCallsFor(d, cs, ws, locked, ambiguous) {
      assert !CommonCallsFor(LockedTarget, cs, ws, locked, ambiguous);
      assert !CommonCallsFor(AmbiguousTarget, cs, ws, locked, ambiguous);
      assert !CommonCallsFor(AffectedOmitted, cs, ws, locked, ambiguous);
      assert !CommonCallsFor(EffectContradiction, cs, ws, locked, ambiguous);
      assert !CommonCallsFor(NoBackup, cs, ws, locked, ambiguous);
      assert !CommonCallsFor(NodeIdReused, cs, ws, locked, ambiguous);
    }
  }

  method CommonDenials(cs: ChangeSet, ws: Option<Manifest>, locked: set<Path>, ambiguous: set<Path>)
    returns (denials: set<Denial>)
    ensures forall d :: d in denials <==> CommonCallsFor(d, cs, ws, locked, ambiguous)
  {
    hide RiskAgrees, AffectedListed, Targets, ReusesId;
    denials := TargetDenials(cs.operations, locked, ambiguous);
    if cs.risk.requiresBackup { denials := denials + {NoBackup}; }
    if !RiskAgrees(cs, ws) { denials := denials + {EffectContradiction}; }
    if !AffectedListed(cs) { denials := denials + {AffectedOmitted}; }
    if ReusesId(cs, ws) { denials := denials + {NodeIdReused}; }
  }

  method TargetDenials(ops: seq<Operation>, locked: set<Path>, ambiguous: set<Path>) returns (denials: set<Denial>)
    ensures denials <= {LockedTarget, AmbiguousTarget}
    ensures LockedTarget in denials <==> exists r :: r in Targets(ops) && r.path in locked
    ensures AmbiguousTarget in denials <==> exists r :: r in Targets(ops) && r.path in ambiguous
  {
    denials := {};
    var targets := CollectTargets(ops);
    for i := 0 to |targets|
      invariant LockedTarget in denials <==> exists k :: 0 <= k < i && targets[k].path in locked
      invariant AmbiguousTarget in denials <==> exists k :: 0 <= k < i && targets[k].path in ambiguous
      invariant denials <= {LockedTarget, AmbiguousTarget}
    {
      if targets[i].path in locked { denials := denials + {LockedTarget}; }
      if targets[i].path in ambiguous { denials := denials + {AmbiguousTarget}; }
    }
    assert forall r :: r in Targets(ops) <==> exists k :: 0 <= k < |targets| && targets[k] == r;
  }

  method CollectTargets(ops: seq<Operation>) returns (targets: seq<NodeRef>)
    ensures forall r :: r in targets <==> r in Targets(ops)
  {
    targets := [];
    for i := 0 to |ops|
      invariant forall r :: r in targets <==> exists k :: 0 <= k < i && !ops[k].CreateNode? && ops[k].target == r
    {
      if !ops[i].CreateNode? { targets := targets + [ops[i].target]; }
    }
  }

  method ModeDenials(cs: ChangeSet, ws: Option<Manifest>) returns (denials: set<Denial>)
    requires ws.Some? ==> UniqueNodes(ws.value.nodes)
    ensures denials == {} <==> ModeRules(cs, ws)
    ensures forall d :: d in denials <==> ModeCallsFor(d, cs, ws)
  {
    denials := {};
    match cs.permission {
      case OwnedWorkspace => denials := OwnedDenials(cs, ws);
      case ScopedPatch => if !ScopedRules(cs) { denials := {ScopeViolation}; }
      case ProjectChange =>
    }
  }

  method OwnedDenials(cs: ChangeSet, ws: Option<Manifest>) returns (denials: set<Denial>)
    requires ws.Some? ==> UniqueNodes(ws.value.nodes)
    ensures denials == {} <==> OwnedRules(cs, ws)
    ensures forall d :: d in denials <==> OwnedCallsFor(d, cs, ws)
  {
    hide OwnedTargetOk, SourceOk;
    denials := {};
    if ws.None? { return {MissingWorkspace}; }
    var w := ws.value;
    if cs.workspaceId != Some(w.workspaceId) { denials := denials + {OwnershipMismatch}; }
    if w.binding != cs.binding { denials := denials + {StaleWorkspace}; }
    var ops := cs.operations;
    for i := 0 to |ops|
      invariant denials <= {OwnershipMismatch, StaleWorkspace, OwnershipUnclear}
      invariant denials == {} <==> cs.workspaceId == Some(w.workspaceId) && w.binding == cs.binding
                                   && forall k :: 0 <= k < i ==> OperationOk(cs, w, ops[k])
      invariant StaleWorkspace in denials <==> w.binding != cs.binding
      invariant OwnershipUnclear in denials
           <==> exists k :: 0 <= k < i && !ops[k].CreateNode? && ops[k].target.nodeId.None?
      invariant OwnershipMismatch in denials
           <==> cs.workspaceId != Some(w.workspaceId) || exists k :: 0 <= k < i && Mismatched(cs, w, ops[k])
    {
      var op := ops[i];
      if !op.CreateNode? { NoIdNoOwner(cs, w, op.target); }
      if op.CreateNode? {
        if op.workspaceId != w.workspaceId { denials := denials + {OwnershipMismatch}; }
      } else {
        if !OwnedTargetOk(cs, w, op.target) {
          denials := denials + (if op.target.nodeId.None? then {OwnershipUnclear} else {OwnershipMismatch});
        }
        if op.ConnectInput? && !SourceOk(cs, w, op.source) { denials := denials + {OwnershipMismatch}; }
      }
    }
    OperationsOk(cs, w);
  }

  lemma NoIdNoOwner(cs: ChangeSet, w: Manifest, r: NodeRef)
    ensures r.nodeId.None? ==> !OwnedTargetOk(cs, w, r)
  {
  }

  predicate OperationOk(cs: ChangeSet, w: Manifest, op: Operation) {
    if op.CreateNode? then op.workspaceId == w.workspaceId else
    OwnedTargetOk(cs, w, op.target) && (op.ConnectInput? ==> SourceOk(cs, w, op.source))
  }

  lemma OperationsOk(cs: ChangeSet, w: Manifest)
    ensures (forall k :: 0 <= k < |cs.operations| ==> OperationOk(cs, w, cs.operations[k]))
       <==> (forall r :: r in Targets(cs.operations) ==> OwnedTargetOk(cs, w, r))
            && (forall r :: r in Sources(cs.operations) ==> SourceOk(cs, w, r))
            && (forall i :: 0 <= i < |cs.operations| && cs.operations[i].CreateNode? ==>
                  cs.operations[i].workspaceId == w.workspaceId)
  {
    var ops := cs.operations;
    if forall k :: 0 <= k < |ops| ==> OperationOk(cs, w, ops[k]) {
      forall r | r in Targets(ops) ensures OwnedTargetOk(cs, w, r) {
        var i :| 0 <= i < |ops| && !ops[i].CreateNode? && ops[i].target == r;
        assert OperationOk(cs, w, ops[i]);
      }
      forall r | r in Sources(ops) ensures SourceOk(cs, w, r) {
        var i :| 0 <= i < |ops| && ops[i].ConnectInput? && ops[i].source == r;
        assert OperationOk(cs, w, ops[i]);
      }
      forall i | 0 <= i < |ops| && ops[i].CreateNode? ensures ops[i].workspaceId == w.workspaceId {
        assert OperationOk(cs, w, ops[i]);
      }
    }
  }
}
