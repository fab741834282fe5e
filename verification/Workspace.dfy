/** Workspace manifests against the live scene: binding refreshes where things are, never what they are. */
module Workspace {
  import opened Wrappers
  import opened Contracts

  /** What is read of one live node. */
  datatype Observation = Observation(path: Path, kind: string, parentPath: Path, nodeId: Option<string>,
                                     workspaceId: Option<string>, capability: Option<string>, role: Option<string>,
                                     schema: Option<int>, run: Option<string>, locked: bool)

  datatype Inspection = Inspection(binding: Binding, observations: seq<Observation>)

  /** What the revision of a manifest is computed from. */
  datatype Identity = Identity(workspaceId: string, sessionId: string, binding: Binding, run: string,
                               roots: seq<OwnedNode>, nodes: seq<OwnedNode>)

  type RevisionOf = Identity -> string

  datatype Health = Healthy | Stale | Conflict

  datatype SelectionError = NoSelection | Unowned | Incomplete | Mixed | Locked

  datatype BindError =
    | NotFound | SessionMismatch | RevisionConflict | IdentityConflict | ActiveConflict | Selection(error: SelectionError)

  /** The active workspace of a session, with a count of the changes. */
  datatype Active = Active(workspaceId: string, revision: nat)

  function IdentityOf(m: Manifest): Identity {
    Identity(m.workspaceId, m.sessionId, m.binding, m.createdByRun, m.roots, m.nodes)
  }

  /** The manifests that can be constructed at all. */
  predicate ValidManifest(rev: RevisionOf, m: Manifest) {
    && m.roots != [] && m.nodes != []
    && UniqueNodes(m.nodes) && UniqueNodes(m.roots)
    && (forall r :: r in m.roots ==> r in m.nodes)
    && m.revision == rev(IdentityOf(m))
  }

  function Ids(nodes: seq<OwnedNode>): set<string> {
    set n | n in nodes :: n.nodeId
  }

  // ---- observations ------------------------------------------------------

  /** Observations of one inspection never share a path or an id. */
  predicate UniqueObservations(obs: seq<Observation>) {
    forall i, j :: 0 <= i < j < |obs| ==>
      obs[i].path != obs[j].path && (obs[i].nodeId.Some? ==> obs[i].nodeId != obs[j].nodeId)
  }

  predicate Complete(o: Observation) {
    o.workspaceId.Some? && o.nodeId.Some? && o.capability.Some? && o.role.Some? && o.schema.Some? && o.run.Some?
  }

  predicate Bare(o: Observation) {
    o.workspaceId.None? && o.nodeId.None? && o.capability.None? && o.role.None? && o.schema.None? && o.run.None?
  }

  function ObservedIds(obs: seq<Observation>): set<string> {
    set o | o in obs && o.nodeId.Some? :: o.nodeId.value
  }

  function ObservedAt(obs: seq<Observation>, id: string): (o: Observation)
    requires id in ObservedIds(obs)
    ensures o in obs && o.nodeId == Some(id)
  {
    if obs[|obs| - 1].nodeId == Some(id) then obs[|obs| - 1] else
    assert obs == obs[..|obs| - 1] + [obs[|obs| - 1]];
    ObservedAt(obs[..|obs| - 1], id)
  }

  function CompleteSelection(obs: seq<Observation>, allowLocked: bool): (r: Result<seq<Observation>, SelectionError>)
    ensures r.Ok? ==> r.value == obs && obs != [] && forall o :: o in obs ==> Complete(o) && o.schema == Some(1)
    ensures r.Ok? ==> forall o, q :: o in obs && q in obs ==> o.workspaceId == q.workspaceId && o.run == q.run
    ensures r.Ok? && !allowLocked ==> forall o :: o in obs ==> !o.locked
  {
    if obs == [] then Err(NoSelection) else
    if forall o :: o in obs ==> Bare(o) then Err(Unowned) else
    if exists o :: o in obs && !Complete(o) then Err(Incomplete) else
    if exists o :: o in obs && o.schema != Some(1) then Err(Incomplete) else
    if exists o, q :: o in obs && q in obs && (o.workspaceId != q.workspaceId || o.run != q.run) then Err(Mixed) else
    if !allowLocked && exists o :: o in obs && o.locked then Err(Locked) else Ok(obs)
  }

  /** The owned facts of a complete observation. */
  function Owned(o: Observation): OwnedNode
    requires Complete(o)
  {
    OwnedNode(o.nodeId.value, o.path, o.kind, o.parentPath, o.capability.value, o.role.value)
  }

  // ---- binding -----------------------------------------------------------

  predicate StillTheSame(stored: Manifest, n: OwnedNode, o: Observation) {
    && o.workspaceId == Some(stored.workspaceId) && o.schema == Some(1) && o.run == Some(stored.createdByRun)
    && o.kind == n.kind && o.capability == Some(n.capability) && o.role == Some(n.role)
  }

  function Refreshed(nodes: seq<OwnedNode>, obs: seq<Observation>): (renewed: seq<OwnedNode>)
    requires forall n :: n in nodes ==> n.nodeId in ObservedIds(obs) && Complete(ObservedAt(obs, n.nodeId))
    ensures |renewed| == |nodes|
    ensures forall i :: 0 <= i < |nodes| ==> renewed[i] == Owned(ObservedAt(obs, nodes[i].nodeId))
  {
    seq(|nodes|, i requires 0 <= i < |nodes| => Owned(ObservedAt(obs, nodes[i].nodeId)))
  }

  /** The manifest a bind would store: the same nodes where they are now. */
  function Rebound(rev: RevisionOf, stored: Manifest, inspection: Inspection): Result<Manifest, BindError> {
    var selection := CompleteSelection(inspection.observations, true);
    if selection.Err? then Err(Selection(selection.error)) else
    var obs := inspection.observations;
    if ObservedIds(obs) != Ids(stored.nodes) then Err(IdentityConflict) else
    if exists n :: n in stored.nodes && !StillTheSame(stored, n, ObservedAt(obs, n.nodeId)) then Err(IdentityConflict)
    else if exists r :: r in stored.roots && r.nodeId !in ObservedIds(obs) then Err(IdentityConflict) else
    var nodes, roots := Refreshed(stored.nodes, obs), Refreshed(stored.roots, obs);
    var identity := Identity(stored.workspaceId, stored.sessionId, inspection.binding, stored.createdByRun, roots, nodes);
    Ok(stored.(binding := inspection.binding, roots := roots, nodes := nodes, revision := rev(identity)))
  }

  /** What a bind may never change. */
  predicate SameBindIdentity(a: Manifest, b: Manifest) {
    && a.workspaceId == b.workspaceId && a.sessionId == b.sessionId && a.createdByRun == b.createdByRun
    && Ids(a.nodes) == Ids(b.nodes) && Ids(a.roots) == Ids(b.roots)
    && (forall m, n :: m in a.nodes && n in b.nodes && m.nodeId == n.nodeId ==>
          m.kind == n.kind && m.capability == n.capability && m.role == n.role)
  }

  lemma IdentityTransitive(a: Manifest, b: Manifest, c: Manifest)
    requires SameBindIdentity(a, b) && SameBindIdentity(b, c)
    ensures SameBindIdentity(a, c)
  {
    forall m, n | m in a.nodes && n in c.nodes && m.nodeId == n.nodeId
      ensures m.kind == n.kind && m.capability == n.capability && m.role == n.role
    {
      assert m.nodeId in Ids(a.nodes);
      var k :| k in b.nodes && k.nodeId == m.nodeId;
    }
  }

  lemma IdsKept(nodes: seq<OwnedNode>, renewed: seq<OwnedNode>)
    requires |renewed| == |nodes| && forall i :: 0 <= i < |nodes| ==> renewed[i].nodeId == nodes[i].nodeId
    ensures Ids(renewed) == Ids(nodes)
  {
    forall id ensures id in Ids(renewed) <==> id in Ids(nodes) {
      if id in Ids(nodes) {
        var i :| 0 <= i < |nodes| && nodes[i].nodeId == id;
        assert renewed[i] in renewed;
      }
      if id in Ids(renewed) {
        var i :| 0 <= i < |renewed| && renewed[i].nodeId == id;
        assert nodes[i] in nodes;
      }
    }
  }

  /** Binding keeps the node ids, the root ids, and what each node is; so the repository never refuses it for that. */
  lemma BindKeepsIdentity(rev: RevisionOf, stored: Manifest, inspection: Inspection)
    requires ValidManifest(rev, stored) && Rebound(rev, stored, inspection).Ok?
    ensures SameBindIdentity(stored, Rebound(rev, stored, inspection).value)
  {
    var bound, obs := Rebound(rev, stored, inspection).value, inspection.observations;
    IdsKept(stored.nodes, bound.nodes);
    IdsKept(stored.roots, bound.roots);
    forall m, n | m in stored.nodes && n in bound.nodes && m.nodeId == n.nodeId
      ensures m.kind == n.kind && m.capability == n.capability && m.role == n.role
    {
      var i :| 0 <= i < |bound.nodes| && bound.nodes[i] == n;
      SameNode(stored.nodes, m, stored.nodes[i]);
      assert StillTheSame(stored, stored.nodes[i], ObservedAt(obs, n.nodeId));
    }
  }

  lemma SameNode(nodes: seq<OwnedNode>, a: OwnedNode, b: OwnedNode)
    requires UniqueNodes(nodes) && a in nodes && b in nodes && a.nodeId == b.nodeId
    ensures a == b
  {
    var i :| 0 <= i < |nodes| && nodes[i] == a;
    var j :| 0 <= j < |nodes| && nodes[j] == b;
    assert i == j;
  }

  /** A bound manifest is one that can be constructed. */
  lemma BoundIsValid(rev: RevisionOf, stored: Manifest, inspection: Inspection)
    requires ValidManifest(rev, stored) && UniqueObservations(inspection.observations)
    requires Rebound(rev, stored, inspection).Ok?
    ensures ValidManifest(rev, Rebound(rev, stored, inspection).value)
  {
    hide CompleteSelection, UniqueNodes, UniqueObservations, Owned;
    var bound, obs := Rebound(rev, stored, inspection).value, inspection.observations;
    FreshUnique(stored.nodes, bound.nodes, obs);
    FreshUnique(stored.roots, bound.roots, obs);
    RootsThere(stored.nodes, stored.roots, obs);
  }

  lemma RootsThere(nodes: seq<OwnedNode>, roots: seq<OwnedNode>, obs: seq<Observation>)
    requires forall n :: n in nodes ==> n.nodeId in ObservedIds(obs) && Complete(ObservedAt(obs, n.nodeId))
    requires forall r :: r in roots ==> r in nodes
    ensures forall r :: r in Refreshed(roots, obs) ==> r in Refreshed(nodes, obs)
  {
    hide Owned, Complete, ObservedIds;
    var was, now := Refreshed(roots, obs), Refreshed(nodes, obs);
    forall r | r in was ensures r in now {
      var i :| 0 <= i < |was| && was[i] == r;
      assert roots[i] in nodes;
      var j :| 0 <= j < |nodes| && nodes[j] == roots[i];
      assert now[j] == r;
    }
  }

  lemma FreshUnique(nodes: seq<OwnedNode>, renewed: seq<OwnedNode>, obs: seq<Observation>)
    requires UniqueNodes(nodes) && UniqueObservations(obs)
    requires forall n :: n in nodes ==> n.nodeId in ObservedIds(obs) && Complete(ObservedAt(obs, n.nodeId))
    requires renewed == Refreshed(nodes, obs)
    ensures UniqueNodes(renewed)
  {
    forall i, j | 0 <= i < j < |renewed| ensures renewed[i].nodeId != renewed[j].nodeId && renewed[i].path != renewed[j].path {
      var a, b := ObservedAt(obs, nodes[i].nodeId), ObservedAt(obs, nodes[j].nodeId);
      assert a.nodeId != b.nodeId;
      var x :| 0 <= x < |obs| && obs[x] == a;
      var y :| 0 <= y < |obs| && obs[y] == b;
      assert x < y || y < x;
    }
  }

  predicate SamePart(n: OwnedNode, o: Observation) {
    o.nodeId == Some(n.nodeId) && o.kind == n.kind && o.capability == Some(n.capability) && o.role == Some(n.role)
  }

  /** The observation is of a node of the manifest, as what it is known. */
  predicate KnownAs(m: Manifest, o: Observation) {
    && o.workspaceId == Some(m.workspaceId) && o.run == Some(m.createdByRun) && o.schema == Some(1)
    && exists n :: n in m.nodes && SamePart(n, o)
  }

  predicate SeenIn(obs: seq<Observation>, n: OwnedNode) {
    exists o :: o in obs && SamePart(n, o)
  }

  /** Every node of the manifest was selected, none other was, and each is still what it was; where they are now does not
      matter. */
  predicate Recognised(m: Manifest, obs: seq<Observation>) {
    (forall o :: o in obs ==> KnownAs(m, o)) && (forall n :: n in m.nodes ==> SeenIn(obs, n))
  }

  /** A bind is possible if and only if the selection is recognised. */
  lemma BindsIff(rev: RevisionOf, stored: Manifest, inspection: Inspection)
    requires ValidManifest(rev, stored) && UniqueObservations(inspection.observations)
    ensures Rebound(rev, stored, inspection).Ok? <==> Recognised(stored, inspection.observations)
  {
    hide ValidManifest, Refreshed, Owned, KnownAs, SeenIn, ObservedIds, Ids, UniqueObservations, UniqueNodes, StillTheSame,
      CompleteSelection;
    var obs := inspection.observations;
    ValidParts(rev, stored);
    if Rebound(rev, stored, inspection).Ok? {
      forall n | n in stored.nodes ensures SeenIn(obs, n) { BoundSeen(stored, obs, n); }
      forall o | o in obs ensures KnownAs(stored, o) { BoundKnown(stored, obs, o); }
    }
    if Recognised(stored, obs) {
      RecognisedIds(stored, obs);
      forall o | o in obs ensures Complete(o) && o.schema == Some(1) { KnownComplete(stored, o); }
      Selectable(stored, obs);
      RootIds(stored);
      forall n | n in stored.nodes ensures StillTheSame(stored, n, ObservedAt(obs, n.nodeId)) {
        RecognisedSame(stored, obs, n);
      }
    }
  }

  lemma RootIds(m: Manifest)
    requires forall r :: r in m.roots ==> r in m.nodes
    ensures forall r :: r in m.roots ==> r.nodeId in Ids(m.nodes)
    ensures forall n :: n in m.nodes ==> n.nodeId in Ids(m.nodes)
  {
  }

  lemma BoundSeen(m: Manifest, obs: seq<Observation>, n: OwnedNode)
    requires ObservedIds(obs) == Ids(m.nodes) && n in m.nodes
    requires forall k :: k in m.nodes ==> StillTheSame(m, k, ObservedAt(obs, k.nodeId))
    ensures SeenIn(obs, n)
  {
    assert SamePart(n, ObservedAt(obs, n.nodeId));
  }

  lemma BoundKnown(m: Manifest, obs: seq<Observation>, o: Observation)
    requires ObservedIds(obs) == Ids(m.nodes) && UniqueObservations(obs) && o in obs && o.nodeId.Some?
    requires forall k :: k in m.nodes ==> StillTheSame(m, k, ObservedAt(obs, k.nodeId))
    ensures KnownAs(m, o)
  {
    assert o.nodeId.value in ObservedIds(obs);
    var n :| n in m.nodes && n.nodeId == o.nodeId.value;
    OnlyOne(obs, ObservedAt(obs, n.nodeId), o);
    assert StillTheSame(m, n, o) && SamePart(n, o);
  }

  lemma KnownComplete(m: Manifest, o: Observation)
    requires KnownAs(m, o)
    ensures Complete(o) && o.schema == Some(1) && o.workspaceId == Some(m.workspaceId) && o.run == Some(m.createdByRun)
  {
  }

  lemma Selectable(m: Manifest, obs: seq<Observation>)
    requires Recognised(m, obs) && m.nodes != []
    ensures CompleteSelection(obs, true) == Ok(obs)
  {
    hide KnownAs, SeenIn;
    assert m.nodes[0] in m.nodes;
    SomeSeen(obs, m.nodes[0]);
    forall o | o in obs ensures Complete(o) && o.schema == Some(1) && o.workspaceId == Some(m.workspaceId)
                                && o.run == Some(m.createdByRun) { KnownComplete(m, o); }
    assert obs[0] in obs;
  }

  lemma SomeSeen(obs: seq<Observation>, n: OwnedNode)
    requires SeenIn(obs, n)
    ensures obs != []
  {
  }

  lemma ValidParts(rev: RevisionOf, m: Manifest)
    requires ValidManifest(rev, m)
    ensures m.nodes != [] && UniqueNodes(m.nodes) && forall r :: r in m.roots ==> r in m.nodes
  {
  }

  lemma RecognisedIds(m: Manifest, obs: seq<Observation>)
    requires Recognised(m, obs)
    ensures ObservedIds(obs) == Ids(m.nodes)
  {
    hide KnownAs, SeenIn;
    forall o | o in obs ensures o.nodeId.Some? && o.nodeId.value in Ids(m.nodes) { IdKnown(m, o); }
    forall n | n in m.nodes ensures n.nodeId in ObservedIds(obs) { IdSeen(obs, n); }
  }

  lemma IdKnown(m: Manifest, o: Observation)
    requires KnownAs(m, o)
    ensures o.nodeId.Some? && o.nodeId.value in Ids(m.nodes)
  {
  }

  lemma IdSeen(obs: seq<Observation>, n: OwnedNode)
    requires SeenIn(obs, n)
    ensures n.nodeId in ObservedIds(obs)
  {
  }

  lemma RecognisedSame(m: Manifest, obs: seq<Observation>, n: OwnedNode)
    requires Recognised(m, obs) && UniqueNodes(m.nodes) && n in m.nodes && n.nodeId in ObservedIds(obs)
    ensures StillTheSame(m, n, ObservedAt(obs, n.nodeId))
  {
    hide SeenIn, UniqueNodes;
    var o := ObservedAt(obs, n.nodeId);
    assert KnownAs(m, o);
    var k :| k in m.nodes && SamePart(k, o);
    SameNode(m.nodes, k, n);
  }

  /** Why a selection is refused: empty, without any metadata, with some missing or of another schema, of more than one
      workspace or run, or locked. */
  lemma SelectionRefused(obs: seq<Observation>, allowLocked: bool)
    ensures var r := CompleteSelection(obs, allowLocked);
            && (r == Err(NoSelection) <==> obs == [])
            && (r == Err(Unowned) <==> obs != [] && forall o :: o in obs ==> Bare(o))
            && (r == Err(Incomplete) <==>
                  (exists o :: o in obs && !Bare(o)) && exists o :: o in obs && !(Complete(o) && o.schema == Some(1)))
            && (r == Err(Mixed) <==>
                  (forall o :: o in obs ==> Complete(o) && o.schema == Some(1))
                  && exists o, q :: o in obs && q in obs && (o.workspaceId != q.workspaceId || o.run != q.run))
            && (r == Err(Locked) ==> !allowLocked && exists o :: o in obs && o.locked)
            && (r.Ok? <==> obs != [] && (forall o :: o in obs ==> Complete(o) && o.schema == Some(1))
                           && (forall o, q :: o in obs && q in obs ==> o.workspaceId == q.workspaceId && o.run == q.run)
                           && (!allowLocked ==> forall o :: o in obs ==> !o.locked))
  {
    if obs != [] { assert obs[0] in obs; }
  }

  // ---- health ------------------------------------------------------------

  predicate Foreign(m: Manifest, o: Observation) {
    !Complete(o) || o.schema != Some(1) || o.workspaceId != Some(m.workspaceId) || o.run != Some(m.createdByRun)
  }

  predicate OtherPart(n: OwnedNode, o: Observation) {
    o.capability != Some(n.capability) || o.role != Some(n.role)
  }

  predicate OtherPlace(n: OwnedNode, o: Observation) {
    o.path != n.path || o.parentPath != n.parentPath || o.kind != n.kind
  }

  /** The first node of the list whose live facts differ decides; none differing is healthy. */
  function NodesHealth(nodes: seq<OwnedNode>, obs: seq<Observation>): (h: Health)
    requires forall n :: n in nodes ==> n.nodeId in ObservedIds(obs)
    ensures h == Healthy <==> forall n :: n in nodes ==>
              !OtherPart(n, ObservedAt(obs, n.nodeId)) && !OtherPlace(n, ObservedAt(obs, n.nodeId))
  {
    if nodes == [] then Healthy else
    var n, o := nodes[0], ObservedAt(obs, nodes[0].nodeId);
    if OtherPart(n, o) then Conflict else if OtherPlace(n, o) then Stale else NodesHealth(nodes[1..], obs)
  }

  /** The verdict on a manifest, down to the comparison of revisions. */
  function LiveHealth(rev: RevisionOf, m: Manifest, inspection: Inspection): Health {
    var obs := inspection.observations;
    if exists o :: o in obs && Foreign(m, o) then Conflict else
    if ObservedIds(obs) != Ids(m.nodes) then Stale else
    var h := NodesHealth(m.nodes, obs);
    if h != Healthy then h else
    if inspection.binding != m.binding then Stale else
    if exists r :: r in m.roots && r.nodeId !in ObservedIds(obs) then Stale else
    var identity := Identity(m.workspaceId, m.sessionId, inspection.binding, m.createdByRun,
                             Refreshed(m.roots, obs), Refreshed(m.nodes, obs));
    if rev(identity) != m.revision then Stale else Healthy
  }

  /** Every node of the manifest is live, as and where it is recorded, and nothing else was seen. */
  predicate Agrees(m: Manifest, inspection: Inspection) {
    var obs := inspection.observations;
    && inspection.binding == m.binding
    && (forall o :: o in obs ==> !Foreign(m, o))
    && ObservedIds(obs) == Ids(m.nodes)
    && (forall n :: n in m.nodes ==>
          !OtherPart(n, ObservedAt(obs, n.nodeId)) && !OtherPlace(n, ObservedAt(obs, n.nodeId)))
  }

  /** The verdict is healthy exactly when the facts agree: the comparison of revisions at the end, whatever the
      revision function, never changes it. */
  lemma HealthyIffAgrees(rev: RevisionOf, m: Manifest, inspection: Inspection)
    requires ValidManifest(rev, m)
    ensures LiveHealth(rev, m, inspection) == Healthy <==> Agrees(m, inspection)
  {
    var obs := inspection.observations;
    if Agrees(m, inspection) {
      RootsKnown(m);
      SameFacts(m, m.nodes, obs);
      SameFacts(m, m.roots, obs);
    }
  }

  /** How one node compares with what was seen of it. */
  function NodeHealth(n: OwnedNode, obs: seq<Observation>): Health
    requires n.nodeId in ObservedIds(obs)
  {
    var o := ObservedAt(obs, n.nodeId);
    if o.capability != Some(n.capability) || o.role != Some(n.role) then Conflict else
    if o.path != n.path || o.parentPath != n.parentPath || o.kind != n.kind then Stale else Healthy
  }

  /** The first node that differs, and how. */
  ghost predicate FirstAt(nodes: seq<OwnedNode>, obs: seq<Observation>, i: nat, h: Health)
    requires forall n :: n in nodes ==> n.nodeId in ObservedIds(obs)
  {
    i < |nodes| && h != Healthy && NodeHealth(nodes[i], obs) == h
    && forall j :: 0 <= j < i ==> NodeHealth(nodes[j], obs) == Healthy
  }

  lemma {:induction false} NodesHealthIs(nodes: seq<OwnedNode>, obs: seq<Observation>) returns (i: nat)
    requires forall n :: n in nodes ==> n.nodeId in ObservedIds(obs)
    ensures NodesHealth(nodes, obs) != Healthy ==> FirstAt(nodes, obs, i, NodesHealth(nodes, obs))
    ensures NodesHealth(nodes, obs) == Healthy ==> forall k :: 0 <= k < |nodes| ==> NodeHealth(nodes[k], obs) == Healthy
  {
    hide ObservedAt, ObservedIds, NodeHealth;
    i := 0;
    if nodes != [] { HeadHealth(nodes, obs); }
    if nodes != [] && NodeHealth(nodes[0], obs) == Healthy {
      var rest := nodes[1..];
      i := NodesHealthIs(rest, obs);
      forall k | 0 <= k < |nodes| && (NodesHealth(nodes, obs) == Healthy || k < i + 1)
        ensures NodeHealth(nodes[k], obs) == Healthy
      {
        if k > 0 { assert rest[k - 1] == nodes[k]; }
      }
      if i < |rest| { assert nodes[i + 1] == rest[i]; }
      i := i + 1;
    }
  }

  lemma HeadHealth(nodes: seq<OwnedNode>, obs: seq<Observation>)
    requires nodes != [] && forall n :: n in nodes ==> n.nodeId in ObservedIds(obs)
    ensures var h := NodeHealth(nodes[0], obs);
            NodesHealth(nodes, obs) == if h == Healthy then NodesHealth(nodes[1..], obs) else h
  {
    hide ObservedAt, ObservedIds;
  }

  /** The verdict is a conflict if and only if something foreign was seen, or every node was, and the first that differs
      differs in what it is. */
  lemma ConflictIff(rev: RevisionOf, m: Manifest, inspection: Inspection)
    ensures var obs := inspection.observations;
            LiveHealth(rev, m, inspection) == Conflict
            <==> (exists o :: o in obs && Foreign(m, o))
                 || (ObservedIds(obs) == Ids(m.nodes) && exists i :: FirstAt(m.nodes, obs, i, Conflict))
  {
    hide Foreign, Refreshed, NodesHealth, NodeHealth;
    var obs := inspection.observations;
    if ObservedIds(obs) == Ids(m.nodes) {
      var i := NodesHealthIs(m.nodes, obs);
      if k :| FirstAt(m.nodes, obs, k, Conflict) { OneFirst(m.nodes, obs, i, k); }
    }
  }

  lemma OneFirst(nodes: seq<OwnedNode>, obs: seq<Observation>, i: nat, k: nat)
    requires forall n :: n in nodes ==> n.nodeId in ObservedIds(obs)
    requires FirstAt(nodes, obs, k, Conflict)
    requires NodesHealth(nodes, obs) != Healthy ==> FirstAt(nodes, obs, i, NodesHealth(nodes, obs))
    requires NodesHealth(nodes, obs) == Healthy ==> forall j :: 0 <= j < |nodes| ==> NodeHealth(nodes[j], obs) == Healthy
    ensures NodesHealth(nodes, obs) == Conflict
  {
    hide NodesHealth, NodeHealth;
  }

  lemma RootsKnown(m: Manifest)
    requires forall r :: r in m.roots ==> r in m.nodes
    ensures forall r :: r in m.roots ==> r.nodeId in Ids(m.nodes)
  {
  }

  lemma SameFacts(m: Manifest, nodes: seq<OwnedNode>, obs: seq<Observation>)
    requires forall n :: n in nodes ==> n in m.nodes && n.nodeId in ObservedIds(obs)
    requires forall o :: o in obs ==> Complete(o) && !Foreign(m, o)
    requires forall n :: n in m.nodes && n.nodeId in ObservedIds(obs) ==>
               !OtherPart(n, ObservedAt(obs, n.nodeId)) && !OtherPlace(n, ObservedAt(obs, n.nodeId))
    ensures Refreshed(nodes, obs) == nodes
  {
  }

  // ---- the live scene ----------------------------------------------------

  /** An inspection by manifest sees exactly the live nodes with one of its ids. */
  ghost predicate InspectsManifest(live: seq<Observation>, m: Manifest, inspection: Inspection) {
    var obs := inspection.observations;
    && UniqueObservations(obs)
    && forall o :: o in obs <==> o in live && o.nodeId.Some? && o.nodeId.value in Ids(m.nodes)
  }

  /** An inspection of a selection sees live nodes, and no other live node carries one of their ids. */
  ghost predicate InspectsSelection(live: seq<Observation>, inspection: Inspection) {
    var obs := inspection.observations;
    && UniqueObservations(obs)
    && (forall o :: o in obs ==> o in live)
    && (forall o, q :: o in obs && q in live && o.nodeId.Some? && q.nodeId == o.nodeId ==> q == o)
  }

  /** Right after a bind, with the scene unchanged, the workspace is healthy. */
  lemma HealthyAfterBind(rev: RevisionOf, stored: Manifest, live: seq<Observation>, selected: Inspection,
                         later: Inspection)
    requires ValidManifest(rev, stored) && InspectsSelection(live, selected) && Rebound(rev, stored, selected).Ok?
    requires var bound := Rebound(rev, stored, selected).value;
             InspectsManifest(live, bound, later) && later.binding == selected.binding
    ensures LiveHealth(rev, Rebound(rev, stored, selected).value, later) == Healthy
  {
    hide LiveHealth, ValidManifest, UniqueObservations, CompleteSelection, Foreign;
    var bound, obs, seen := Rebound(rev, stored, selected).value, selected.observations, later.observations;
    BoundIsValid(rev, stored, selected);
    IdsKept(stored.nodes, bound.nodes);
    forall o | o in seen ensures o in obs && !Foreign(bound, o) {
      SeenWasSelected(rev, stored, live, selected, o);
    }
    forall n | n in bound.nodes ensures n.nodeId in ObservedIds(seen) && n == Owned(ObservedAt(seen, n.nodeId)) {
      BoundNodeSeen(rev, stored, live, selected, later, n);
    }
    assert ObservedIds(seen) == Ids(bound.nodes);
    HealthyIffAgrees(rev, bound, later);
  }

  lemma BoundNodeSeen(rev: RevisionOf, stored: Manifest, live: seq<Observation>, selected: Inspection,
                      later: Inspection, n: OwnedNode)
    requires InspectsSelection(live, selected) && Rebound(rev, stored, selected).Ok?
    requires var bound := Rebound(rev, stored, selected).value;
             InspectsManifest(live, bound, later) && n in bound.nodes && Ids(bound.nodes) == Ids(stored.nodes)
    ensures n.nodeId in ObservedIds(later.observations) && Complete(ObservedAt(later.observations, n.nodeId))
    ensures n == Owned(ObservedAt(later.observations, n.nodeId))
  {
    hide CompleteSelection, UniqueObservations;
    var bound, obs, seen := Rebound(rev, stored, selected).value, selected.observations, later.observations;
    var i :| 0 <= i < |bound.nodes| && bound.nodes[i] == n;
    var o := ObservedAt(obs, n.nodeId);
    assert o in live && o in seen;
    OnlyOne(seen, ObservedAt(seen, n.nodeId), o);
  }

  lemma SeenWasSelected(rev: RevisionOf, stored: Manifest, live: seq<Observation>, selected: Inspection, o: Observation)
    requires InspectsSelection(live, selected) && Rebound(rev, stored, selected).Ok?
    requires o in live && o.nodeId.Some? && o.nodeId.value in Ids(stored.nodes)
    ensures o in selected.observations && !Foreign(Rebound(rev, stored, selected).value, o)
  {
    var obs := selected.observations;
    var q := ObservedAt(obs, o.nodeId.value);
    assert q == o;
    var n :| n in stored.nodes && n.nodeId == o.nodeId.value;
    assert StillTheSame(stored, n, ObservedAt(obs, n.nodeId));
  }

  lemma OnlyOne(obs: seq<Observation>, a: Observation, b: Observation)
    requires UniqueObservations(obs) && a in obs && b in obs && a.nodeId.Some? && a.nodeId == b.nodeId
    ensures a == b
  {
    var i :| 0 <= i < |obs| && obs[i] == a;
    var j :| 0 <= j < |obs| && obs[j] == b;
    assert i == j;
  }

  // ---- the store ---------------------------------------------------------

  class WorkspaceStore {
    const rev: RevisionOf
    var manifests: map<string, Manifest>
    /** One entry per stored change of a manifest. */
    var bound: seq<string>
    var active: map<string, Active>

    constructor (rev: RevisionOf, manifests: map<string, Manifest>)
      requires forall id :: id in manifests ==> ValidManifest(rev, manifests[id]) && manifests[id].workspaceId == id
      ensures this.rev == rev && this.manifests == manifests && bound == [] && active == map[] && Valid()
    {
      this.rev, this.manifests, this.bound, this.active := rev, manifests, [], map[];
    }

    predicate Valid()
      reads this
    {
      && (forall id :: id in manifests ==> ValidManifest(rev, manifests[id]) && manifests[id].workspaceId == id)
      && (forall s :: s in active ==> active[s].workspaceId in manifests && manifests[active[s].workspaceId].sessionId == s)
    }

    function ActiveOf(sessionId: string): Option<string>
      reads this
    {
      if sessionId in active then Some(active[sessionId].workspaceId) else None
    }

    function SwitchesOf(sessionId: string): nat
      reads this
    {
      if sessionId in active then active[sessionId].revision else 0
    }

    /** Makes a workspace the active one of its session, only while the scene is exactly what its manifest says. The
        active workspace must still be the expected one; switching to it again changes nothing. */
    method Switch(sessionId: string, workspaceId: string, expectedActive: Option<string>, inspection: Inspection)
      returns (r: Result<bool, BindError>)
      requires Valid()
      modifies this`active
      ensures Valid()
      ensures r.Ok? <==> workspaceId in manifests && manifests[workspaceId].sessionId == sessionId
                         && old(ActiveOf(sessionId)) == expectedActive && Agrees(manifests[workspaceId], inspection)
      ensures r.Ok? ==> ActiveOf(sessionId) == Some(workspaceId)
      ensures r == Ok(true) <==> r.Ok? && old(ActiveOf(sessionId)) != Some(workspaceId)
      ensures r == Ok(true) ==>
                active == old(active)[sessionId := Active(workspaceId, old(SwitchesOf(sessionId)) + 1)]
      ensures r != Ok(true) ==> active == old(active)
    {
      hide ValidManifest, Agrees, LiveHealth;
      if workspaceId !in manifests { return Err(NotFound); }
      var m := manifests[workspaceId];
      if m.sessionId != sessionId { return Err(SessionMismatch); }
      if ActiveOf(sessionId) != expectedActive { return Err(ActiveConflict); }
      HealthyIffAgrees(rev, m, inspection);
      var health := LiveHealth(rev, m, inspection);
      if health == Conflict { return Err(IdentityConflict); }
      if health != Healthy { return Err(RevisionConflict); }
      if expectedActive == Some(workspaceId) { return Ok(false); }
      active := active[sessionId := Active(workspaceId, SwitchesOf(sessionId) + 1)];
      r := Ok(true);
    }

    /** Compare and update; a manifest that did not change stores and reports nothing. */
    method BindWorkspace(m: Manifest, expected: string) returns (r: Result<bool, BindError>)
      requires Valid() && ValidManifest(rev, m)
      modifies this`manifests, this`bound
      ensures Valid()
      ensures r.Ok? <==> m.workspaceId in old(manifests) && old(manifests)[m.workspaceId].sessionId == m.sessionId
                         && old(manifests)[m.workspaceId].revision == expected
                         && SameBindIdentity(old(manifests)[m.workspaceId], m)
      ensures r == Ok(true) ==> manifests == old(manifests)[m.workspaceId := m] && bound == old(bound) + [m.workspaceId]
      ensures r == Ok(true) ==> old(manifests)[m.workspaceId].revision != m.revision
      ensures r == Ok(false) ==> old(manifests)[m.workspaceId].revision == m.revision
      ensures r != Ok(true) ==> manifests == old(manifests) && bound == old(bound)
    {
      hide ValidManifest, SameBindIdentity;
      if m.workspaceId !in manifests { return Err(NotFound); }
      var stored := manifests[m.workspaceId];
      if stored.sessionId != m.sessionId { return Err(SessionMismatch); }
      if stored.revision != expected { return Err(RevisionConflict); }
      if !SameBindIdentity(stored, m) { return Err(IdentityConflict); }
      if stored.revision == m.revision { return Ok(false); }
      manifests := manifests[m.workspaceId := m];
      bound := bound + [m.workspaceId];
      r := Ok(true);
    }

    /** Binds a stored workspace to where a selection shows its nodes to be. */
    method Bind(sessionId: string, workspaceId: string, expected: string, inspection: Inspection)
      returns (r: Result<bool, BindError>)
      requires Valid() && UniqueObservations(inspection.observations)
      modifies this`manifests, this`bound
      ensures Valid() && manifests.Keys == old(manifests).Keys
      ensures forall id :: id in manifests ==> SameBindIdentity(old(manifests)[id], manifests[id])
      ensures r.Ok? <==> workspaceId in old(manifests) && old(manifests)[workspaceId].sessionId == sessionId
                         && old(manifests)[workspaceId].revision == expected
                         && Rebound(rev, old(manifests)[workspaceId], inspection).Ok?
      ensures r == Ok(true) ==>
                manifests == old(manifests)[workspaceId := Rebound(rev, old(manifests)[workspaceId], inspection).value]
      ensures r != Ok(true) ==> manifests == old(manifests)
    {
      hide ValidManifest, SameBindIdentity;
      ghost var before := manifests;
      IdentityReflexive(rev, before);
      if workspaceId !in manifests { return Err(NotFound); }
      var stored := manifests[workspaceId];
      if stored.sessionId != sessionId { return Err(SessionMismatch); }
      if stored.revision != expected { return Err(RevisionConflict); }
      var refreshed := Rebound(rev, stored, inspection);
      if refreshed.Err? { return Err(refreshed.error); }
      BindKeepsIdentity(rev, stored, inspection);
      BoundIsValid(rev, stored, inspection);
      r := BindWorkspace(refreshed.value, expected);
    }
  }

  lemma IdentityReflexive(rev: RevisionOf, manifests: map<string, Manifest>)
    requires forall id :: id in manifests ==> ValidManifest(rev, manifests[id])
    ensures forall id :: id in manifests ==> SameBindIdentity(manifests[id], manifests[id])
  {
    hide ValidManifest, SameBindIdentity;
    forall id | id in manifests ensures SameBindIdentity(manifests[id], manifests[id]) {
      ValidSelf(rev, manifests[id]);
    }
  }

  // ---- any number of binds -----------------------------------------------

  /** One bind after another; a refused one changes nothing. */
  function BoundAll(rev: RevisionOf, m: Manifest, inspections: seq<Inspection>): Manifest {
    if inspections == [] then m else
    var before := BoundAll(rev, m, inspections[..|inspections| - 1]);
    var r := Rebound(rev, before, inspections[|inspections| - 1]);
    if r.Ok? then r.value else before
  }

  /** However often a workspace is bound, its identity stays the first one. */
  lemma {:induction false} BindsKeepIdentity(rev: RevisionOf, m: Manifest, inspections: seq<Inspection>)
    requires ValidManifest(rev, m) && forall i :: i in inspections ==> UniqueObservations(i.observations)
    ensures ValidManifest(rev, BoundAll(rev, m, inspections)) && SameBindIdentity(m, BoundAll(rev, m, inspections))
  {
    hide ValidManifest, SameBindIdentity;
    if inspections == [] {
      ValidSelf(rev, m);
    } else {
      var front, last := inspections[..|inspections| - 1], inspections[|inspections| - 1];
      BindsKeepIdentity(rev, m, front);
      var before := BoundAll(rev, m, front);
      assert last in inspections;
      if Rebound(rev, before, last).Ok? {
        BoundIsValid(rev, before, last);
        BindKeepsIdentity(rev, before, last);
        IdentityTransitive(m, before, Rebound(rev, before, last).value);
      }
    }
  }

  lemma ValidSelf(rev: RevisionOf, m: Manifest)
    requires ValidManifest(rev, m)
    ensures SameBindIdentity(m, m)
  {
    forall a, b | a in m.nodes && b in m.nodes && a.nodeId == b.nodeId ensures a == b { SameNode(m.nodes, a, b); }
  }
}
