/** ChangeSets and manifests in their stored form. */
module CodecRecords {
  import opened Wrappers
  import opened Contracts
  import opened Codec
  import Workspace

  // ---- small values ------------------------------------------------------

  function EncodeOptStr(s: Option<string>): Json {
    if s.Some? then JStr(s.value) else JNull
  }

  function DecodeOptStr(j: Json): Option<Option<string>> {
    if j.JNull? then Some(None) else if j.JStr? then Some(Some(j.text)) else None
  }

  function DecodeNat(j: Json): Option<nat> {
    if j.JInt? && j.number >= 0 then Some(j.number) else None
  }

  /** Paths travel as their segments. */
  function EncodePath(p: Path): Json {
    JList(EncodeList(p, s => JStr(s)))
  }

  function DecodePath(j: Json): Option<Path> {
    var items :- DecodeItems(j);
    DecodeList(items, DecodeStr)
  }

  lemma PathRoundTrip(p: Path)
    ensures DecodePath(EncodePath(p)) == Some(p)
  {
    ListRoundTrip(p, s => JStr(s), DecodeStr);
  }

  function EncodeBinding(b: Binding): Json {
    JDict(map[InstanceField := JStr(b.instance), EpochField := JInt(b.epoch)])
  }

  function DecodeBinding(j: Json): Option<Binding> {
    var f :- Exact(j, {InstanceField, EpochField});
    var instance :- DecodeStr(f[InstanceField]);
    var epoch :- DecodeInt(f[EpochField]);
    Some(Binding(instance, epoch))
  }

  // ---- references --------------------------------------------------------

  const NodeRefFields := {NodeIdField, PathField, TypeField, WorkspaceField}

  function EncodeNodeRef(r: NodeRef): Json {
    JDict(map[NodeIdField := EncodeOptStr(r.nodeId), PathField := EncodePath(r.path), TypeField := JStr(r.kind),
              WorkspaceField := EncodeOptStr(r.workspaceId)])
  }

  function DecodeNodeRef(j: Json): Option<NodeRef> {
    var f :- Exact(j, NodeRefFields);
    var id :- DecodeOptStr(f[NodeIdField]);
    var path :- DecodePath(f[PathField]);
    var kind :- DecodeStr(f[TypeField]);
    var workspace :- DecodeOptStr(f[WorkspaceField]);
    Some(NodeRef(id, path, kind, workspace))
  }

  lemma NodeRefRoundTrip(r: NodeRef)
    ensures DecodeNodeRef(EncodeNodeRef(r)) == Some(r)
  {
    hide EncodePath, DecodePath;
    PathRoundTrip(r.path);
  }

  function EncodeWireRef(w: WireRef): Json {
    JDict(map[SourceField := EncodeNodeRef(w.source), OutputField := JInt(w.output)])
  }

  function DecodeWireRef(j: Json): Option<WireRef> {
    var f :- Exact(j, {SourceField, OutputField});
    var source :- DecodeNodeRef(f[SourceField]);
    var output :- DecodeNat(f[OutputField]);
    Some(WireRef(source, output))
  }

  function EncodeOptWire(w: Option<WireRef>): Json {
    if w.Some? then EncodeWireRef(w.value) else JNull
  }

  function DecodeOptWire(j: Json): Option<Option<WireRef>> {
    if j.JNull? then Some(None) else
    var w :- DecodeWireRef(j);
    Some(Some(w))
  }

  lemma OptWireRoundTrip(w: Option<WireRef>)
    ensures DecodeOptWire(EncodeOptWire(w)) == Some(w)
  {
    hide EncodeNodeRef, DecodeNodeRef;
    if w.Some? { NodeRefRoundTrip(w.value.source); }
  }

  // ---- operations --------------------------------------------------------

  const CreateFields := {KindField, OpIdField, ParentField, NodeIdField, TypeField, NameField, WorkspaceField,
                         CapabilityField, RoleField}
  const SetParmFields := {KindField, OpIdField, TargetField, ParmField, ValueField, OldValueField}
  const ConnectFields := {KindField, OpIdField, TargetField, InputField, SourceField, OutputField, OldSourceField}

  function EncodeOperation(op: Operation): Json {
    match op
    case CreateNode(id, parent, nodeId, kind, name, workspace, capability, role) =>
      JDict(map[KindField := JWord(CreateWord), OpIdField := JStr(id), ParentField := EncodeNodeRef(parent),
                NodeIdField := JStr(nodeId), TypeField := JStr(kind), NameField := JStr(name),
                WorkspaceField := JStr(workspace), CapabilityField := JStr(capability), RoleField := JStr(role)])
    case SetParm(id, target, parm, value, prior) =>
      JDict(map[KindField := JWord(SetParmWord), OpIdField := JStr(id), TargetField := EncodeNodeRef(target),
                ParmField := JStr(parm), ValueField := JStr(value), OldValueField := JStr(prior)])
    case ConnectInput(id, target, input, source, output, prior) =>
      JDict(map[KindField := JWord(ConnectWord), OpIdField := JStr(id), TargetField := EncodeNodeRef(target),
                InputField := JInt(input), SourceField := EncodeNodeRef(source), OutputField := JInt(output),
                OldSourceField := EncodeOptWire(prior)])
  }

  function KindOf(j: Json): Option<Word> {
    if j.JDict? && KindField in j.fields && j.fields[KindField].JWord? then Some(j.fields[KindField].word) else None
  }

  function DecodeCreate(j: Json): Option<Operation> {
    var f :- Exact(j, CreateFields);
    var id :- DecodeStr(f[OpIdField]);
    var parent :- DecodeNodeRef(f[ParentField]);
    var nodeId :- DecodeStr(f[NodeIdField]);
    var kind :- DecodeStr(f[TypeField]);
    var name :- DecodeStr(f[NameField]);
    var workspace :- DecodeStr(f[WorkspaceField]);
    var capability :- DecodeStr(f[CapabilityField]);
    var role :- DecodeStr(f[RoleField]);
    Some(CreateNode(id, parent, nodeId, kind, name, workspace, capability, role))
  }

  function DecodeSetParm(j: Json): Option<Operation> {
    var f :- Exact(j, SetParmFields);
    var id :- DecodeStr(f[OpIdField]);
    var target :- DecodeNodeRef(f[TargetField]);
    var parm :- DecodeStr(f[ParmField]);
    var value :- DecodeStr(f[ValueField]);
    var prior :- DecodeStr(f[OldValueField]);
    Some(SetParm(id, target, parm, value, prior))
  }

  function DecodeConnect(j: Json): Option<Operation> {
    var f :- Exact(j, ConnectFields);
    var id :- DecodeStr(f[OpIdField]);
    var target :- DecodeNodeRef(f[TargetField]);
    var input :- DecodeNat(f[InputField]);
    var source :- DecodeNodeRef(f[SourceField]);
    var output :- DecodeNat(f[OutputField]);
    var prior :- DecodeOptWire(f[OldSourceField]);
    Some(ConnectInput(id, target, input, source, output, prior))
  }

  function DecodeOperation(j: Json): Option<Operation> {
    var kind :- KindOf(j);
    match kind
    case CreateWord => DecodeCreate(j)
    case SetParmWord => DecodeSetParm(j)
    case ConnectWord => DecodeConnect(j)
    case _ => None
  }

  lemma CreateRoundTrip(op: Operation)
    requires op.CreateNode?
    ensures DecodeCreate(EncodeOperation(op)) == Some(op)
  {
    hide EncodeNodeRef, DecodeNodeRef;
    NodeRefRoundTrip(op.parent);
    CreateExact(op);
  }

  lemma CreateExact(op: Operation)
    requires op.CreateNode?
    ensures ExactDict(EncodeOperation(op), CreateFields)
  {
    hide EncodeNodeRef;
  }

  lemma OperationRoundTrip(op: Operation)
    ensures DecodeOperation(EncodeOperation(op)) == Some(op)
  {
    hide EncodeNodeRef, DecodeNodeRef, EncodeOptWire, DecodeOptWire, DecodeCreate;
    match op {
      case CreateNode(_, _, _, _, _, _, _, _) => CreateRoundTrip(op);
      case SetParm(_, target, _, _, _) => NodeRefRoundTrip(target);
      case ConnectInput(_, target, _, source, _, prior) =>
        NodeRefRoundTrip(target);
        NodeRefRoundTrip(source);
        OptWireRoundTrip(prior);
    }
  }

  // ---- conditions --------------------------------------------------------

  function EncodeCondition(c: Condition): Json {
    match c
    case SceneBindingEquals(b) =>
      JDict(map[KindField := JWord(BindingEqualsWord), InstanceField := JStr(b.instance), EpochField := JInt(b.epoch)])
    case WorkspaceRevisionEquals(w, revision) =>
      JDict(map[KindField := JWord(RevisionEqualsWord), WorkspaceField := JStr(w), RevisionField := JStr(revision)])
    case NodeIdentityEquals(node) => JDict(map[KindField := JWord(IdentityEqualsWord), NodeField := EncodeNodeRef(node)])
    case ParmValueEquals(target, parm, value) =>
      JDict(map[KindField := JWord(ParmEqualsWord), TargetField := EncodeNodeRef(target), ParmField := JStr(parm),
                ValueField := JStr(value)])
    case WireInputEquals(target, input, wire) =>
      JDict(map[KindField := JWord(InputEqualsWord), TargetField := EncodeNodeRef(target), InputField := JInt(input),
                SourceField := EncodeOptWire(wire)])
    case NodeAbsent(path, id) =>
      JDict(map[KindField := JWord(AbsentWord), PathField := EncodePath(path), NodeIdField := JStr(id)])
  }

  function DecodeCondition(j: Json): Option<Condition> {
    var kind :- KindOf(j);
    match kind
    case BindingEqualsWord =>
      var f :- Exact(j, {KindField, InstanceField, EpochField});
      var instance :- DecodeStr(f[InstanceField]);
      var epoch :- DecodeInt(f[EpochField]);
      Some(SceneBindingEquals(Binding(instance, epoch)))
    case RevisionEqualsWord =>
      var f :- Exact(j, {KindField, WorkspaceField, RevisionField});
      var workspace :- DecodeStr(f[WorkspaceField]);
      var revision :- DecodeStr(f[RevisionField]);
      Some(WorkspaceRevisionEquals(workspace, revision))
    case IdentityEqualsWord =>
      var f :- Exact(j, {KindField, NodeField});
      var node :- DecodeNodeRef(f[NodeField]);
      Some(NodeIdentityEquals(node))
    case ParmEqualsWord =>
      var f :- Exact(j, {KindField, TargetField, ParmField, ValueField});
      var target :- DecodeNodeRef(f[TargetField]);
      var parm :- DecodeStr(f[ParmField]);
      var value :- DecodeStr(f[ValueField]);
      Some(ParmValueEquals(target, parm, value))
    case InputEqualsWord =>
      var f :- Exact(j, {KindField, TargetField, InputField, SourceField});
      var target :- DecodeNodeRef(f[TargetField]);
      var input :- DecodeNat(f[InputField]);
      var wire :- DecodeOptWire(f[SourceField]);
      Some(WireInputEquals(target, input, wire))
    case AbsentWord =>
      var f :- Exact(j, {KindField, PathField, NodeIdField});
      var path :- DecodePath(f[PathField]);
      var id :- DecodeStr(f[NodeIdField]);
      Some(NodeAbsent(path, id))
    case _ => None
  }

  lemma ConditionRoundTrip(c: Condition)
    ensures DecodeCondition(EncodeCondition(c)) == Some(c)
  {
    hide EncodeNodeRef, DecodeNodeRef, EncodeOptWire, DecodeOptWire, EncodePath, DecodePath;
    match c {
      case NodeIdentityEquals(node) => NodeRefRoundTrip(node);
      case ParmValueEquals(target, _, _) => NodeRefRoundTrip(target);
      case WireInputEquals(target, _, wire) =>
        NodeRefRoundTrip(target);
        OptWireRoundTrip(wire);
      case NodeAbsent(path, _) => PathRoundTrip(path);
      case _ =>
    }
  }

  /** Only three kinds of condition may be expected afterwards. */
  function DecodePostcondition(j: Json): Option<Condition> {
    var c :- DecodeCondition(j);
    if IsPostcondition(c) then Some(c) else None
  }

  // ---- sets and lists ----------------------------------------------------

  /** A set as the list that is stored for it. */
  ghost function Listed<T(!new)>(s: set<T>): (items: seq<T>)
    ensures (set x | x in items) == s
  {
    if s == {} then [] else
    var x :| x in s;
    assert s == {x} + (s - {x});
    [x] + Listed(s - {x})
  }

  function AsSet<T>(items: seq<T>): set<T> {
    set x | x in items
  }

  function DecodeAll<T>(j: Json, decode: Json -> Option<T>): Option<seq<T>> {
    var items :- DecodeItems(j);
    DecodeList(items, decode)
  }

  function EncodeAll<T>(xs: seq<T>, encode: T -> Json): Json {
    JList(EncodeList(xs, encode))
  }

  lemma AllRoundTrip<T>(xs: seq<T>, encode: T -> Json, decode: Json -> Option<T>)
    requires forall x :: x in xs ==> decode(encode(x)) == Some(x)
    ensures DecodeAll(EncodeAll(xs, encode), decode) == Some(xs)
  {
    ListRoundTrip(xs, encode, decode);
  }

  function EncodeEffect(e: Effect): Json {
    match e
    case NodeCreateEffect => JWord(CreateWord)
    case ParmSetEffect => JWord(SetParmWord)
    case WireConnectEffect => JWord(ConnectWord)
  }

  function DecodeEffect(j: Json): Option<Effect> {
    if j == JWord(CreateWord) then Some(NodeCreateEffect) else
    if j == JWord(SetParmWord) then Some(ParmSetEffect) else
    if j == JWord(ConnectWord) then Some(WireConnectEffect) else None
  }

  function EncodePermission(p: Permission): Json {
    match p
    case OwnedWorkspace => JWord(OwnedWord)
    case ScopedPatch => JWord(ScopedWord)
    case ProjectChange => JWord(ProjectWord)
  }

  function DecodePermission(j: Json): Option<Permission> {
    if j == JWord(OwnedWord) then Some(OwnedWorkspace) else
    if j == JWord(ScopedWord) then Some(ScopedPatch) else
    if j == JWord(ProjectWord) then Some(ProjectChange) else None
  }

  // ---- summaries and plans -----------------------------------------------

  const RiskFields := {ExternalField, WiringField, BackupField, CountField, EffectsField, PathsField}

  ghost function EncodeRisk(r: RiskSummary): Json {
    JDict(map[ExternalField := JBool(r.touchesExternal), WiringField := JBool(r.changesWiring),
              BackupField := JBool(r.requiresBackup), CountField := JInt(r.operationCount),
              EffectsField := EncodeAll(Listed(r.effects), EncodeEffect),
              PathsField := EncodeAll(Listed(r.affectedPaths), EncodePath)])
  }

  function DecodeRisk(j: Json): Option<RiskSummary> {
    var f :- Exact(j, RiskFields);
    var external :- DecodeBool(f[ExternalField]);
    var wiring :- DecodeBool(f[WiringField]);
    var backup :- DecodeBool(f[BackupField]);
    var count :- DecodeInt(f[CountField]);
    var effects :- DecodeAll(f[EffectsField], DecodeEffect);
    var paths :- DecodeAll(f[PathsField], DecodePath);
    Some(RiskSummary(external, wiring, backup, count, AsSet(effects), AsSet(paths)))
  }

  lemma RiskRoundTrip(r: RiskSummary)
    ensures DecodeRisk(EncodeRisk(r)) == Some(r)
  {
    hide EncodeAll, DecodeAll, EncodePath, DecodePath, EncodeEffect, DecodeEffect, Listed;
    EffectsRoundTrip(Listed(r.effects));
    forall p | p in Listed(r.affectedPaths) ensures DecodePath(EncodePath(p)) == Some(p) { PathRoundTrip(p); }
    AllRoundTrip(Listed(r.affectedPaths), EncodePath, DecodePath);
  }

  lemma EffectsRoundTrip(effects: seq<Effect>)
    ensures DecodeAll(EncodeAll(effects, EncodeEffect), DecodeEffect) == Some(effects)
  {
    AllRoundTrip(effects, EncodeEffect, DecodeEffect);
  }

  function EncodeParmSnapshot(s: ParmSnapshot): Json {
    JDict(map[TargetField := EncodeNodeRef(s.target), ParmField := JStr(s.parm)])
  }

  function DecodeParmSnapshot(j: Json): Option<ParmSnapshot> {
    var f :- Exact(j, {TargetField, ParmField});
    var target :- DecodeNodeRef(f[TargetField]);
    var parm :- DecodeStr(f[ParmField]);
    Some(ParmSnapshot(target, parm))
  }

  function EncodeWireSnapshot(s: WireSnapshot): Json {
    JDict(map[TargetField := EncodeNodeRef(s.target), InputField := JInt(s.input)])
  }

  function DecodeWireSnapshot(j: Json): Option<WireSnapshot> {
    var f :- Exact(j, {TargetField, InputField});
    var target :- DecodeNodeRef(f[TargetField]);
    var input :- DecodeNat(f[InputField]);
    Some(WireSnapshot(target, input))
  }

  function EncodePlan(p: CheckpointPlan): Json {
    JDict(map[NodesField := EncodeAll(p.nodes, EncodeNodeRef), ParmsField := EncodeAll(p.parms, EncodeParmSnapshot),
              WiresField := EncodeAll(p.wires, EncodeWireSnapshot)])
  }

  function DecodePlan(j: Json): Option<CheckpointPlan> {
    var f :- Exact(j, {NodesField, ParmsField, WiresField});
    var nodes :- DecodeAll(f[NodesField], DecodeNodeRef);
    var parms :- DecodeAll(f[ParmsField], DecodeParmSnapshot);
    var wires :- DecodeAll(f[WiresField], DecodeWireSnapshot);
    Some(CheckpointPlan(nodes, parms, wires))
  }

  lemma RefsRoundTrip(refs: seq<NodeRef>)
    ensures DecodeAll(EncodeAll(refs, EncodeNodeRef), DecodeNodeRef) == Some(refs)
  {
    hide EncodeNodeRef, DecodeNodeRef, EncodeAll, DecodeAll;
    forall r | r in refs ensures DecodeNodeRef(EncodeNodeRef(r)) == Some(r) { NodeRefRoundTrip(r); }
    AllRoundTrip(refs, EncodeNodeRef, DecodeNodeRef);
  }

  lemma PlanRoundTrip(p: CheckpointPlan)
    ensures DecodePlan(EncodePlan(p)) == Some(p)
  {
    hide EncodeAll, DecodeAll, EncodeNodeRef, DecodeNodeRef;
    RefsRoundTrip(p.nodes);
    forall s | s in p.parms ensures DecodeParmSnapshot(EncodeParmSnapshot(s)) == Some(s) { NodeRefRoundTrip(s.target); }
    AllRoundTrip(p.parms, EncodeParmSnapshot, DecodeParmSnapshot);
    forall s | s in p.wires ensures DecodeWireSnapshot(EncodeWireSnapshot(s)) == Some(s) { NodeRefRoundTrip(s.target); }
    AllRoundTrip(p.wires, EncodeWireSnapshot, DecodeWireSnapshot);
  }

  // ---- ChangeSets --------------------------------------------------------

  const ChangeSetFields := {ChangeIdField, SessionField, RunField, BindingField, WorkspaceField, PermissionField,
                            ScopedField, OperationsField, AffectedField, ReadDepsField, PreconditionsField,
                            PostconditionsField, RiskField, CheckpointField}

  ghost function ChangeSetDict(cs: ChangeSet): map<Field, Json> {
    map[ChangeIdField := JStr(cs.changeId), SessionField := JStr(cs.sessionId), RunField := JStr(cs.runId),
        BindingField := EncodeBinding(cs.binding), WorkspaceField := EncodeOptStr(cs.workspaceId),
        PermissionField := EncodePermission(cs.permission),
        ScopedField := EncodeAll(Listed(cs.scopedIds), s => JStr(s)),
        OperationsField := EncodeAll(cs.operations, EncodeOperation),
        AffectedField := EncodeAll(cs.affected, EncodeNodeRef), ReadDepsField := EncodeAll(cs.readDeps, EncodeNodeRef),
        PreconditionsField := EncodeAll(cs.preconditions, EncodeCondition),
        PostconditionsField := EncodeAll(cs.postconditions, EncodeCondition),
        RiskField := EncodeRisk(cs.risk), CheckpointField := EncodePlan(cs.checkpoint)]
  }

  function DecodeChangeSet(j: Json): Option<ChangeSet> {
    var f :- Exact(j, ChangeSetFields);
    var id :- DecodeStr(f[ChangeIdField]);
    var session :- DecodeStr(f[SessionField]);
    var run :- DecodeStr(f[RunField]);
    var binding :- DecodeBinding(f[BindingField]);
    var workspace :- DecodeOptStr(f[WorkspaceField]);
    var permission :- DecodePermission(f[PermissionField]);
    var scoped :- DecodeAll(f[ScopedField], DecodeStr);
    var operations :- DecodeAll(f[OperationsField], DecodeOperation);
    var affected :- DecodeAll(f[AffectedField], DecodeNodeRef);
    var readDeps :- DecodeAll(f[ReadDepsField], DecodeNodeRef);
    var pre :- DecodeAll(f[PreconditionsField], DecodeCondition);
    var post :- DecodeAll(f[PostconditionsField], DecodePostcondition);
    var risk :- DecodeRisk(f[RiskField]);
    var plan :- DecodePlan(f[CheckpointField]);
    var cs := ChangeSet(id, session, run, binding, workspace, permission, AsSet(scoped), operations, affected, readDeps,
                        pre, post, risk, plan);
    if ValidChangeSet(cs) then Some(cs) else None
  }

  lemma ChangeSetExact(cs: ChangeSet)
    ensures ExactDict(JDict(ChangeSetDict(cs)), ChangeSetFields)
  {
    hide EncodeAll, Listed, EncodeRisk, EncodePlan, EncodeBinding, EncodePermission;
  }

  lemma ListsRoundTrip(cs: ChangeSet)
    requires forall c :: c in cs.postconditions ==> IsPostcondition(c)
    ensures DecodeAll(EncodeAll(Listed(cs.scopedIds), s => JStr(s)), DecodeStr) == Some(Listed(cs.scopedIds))
    ensures DecodeAll(EncodeAll(cs.operations, EncodeOperation), DecodeOperation) == Some(cs.operations)
    ensures DecodeAll(EncodeAll(cs.preconditions, EncodeCondition), DecodeCondition) == Some(cs.preconditions)
    ensures DecodeAll(EncodeAll(cs.postconditions, EncodeCondition), DecodePostcondition) == Some(cs.postconditions)
  {
    hide EncodeAll, DecodeAll, Listed, EncodeOperation, DecodeOperation, EncodeCondition, DecodeCondition, IsPostcondition;
    AllRoundTrip(Listed(cs.scopedIds), s => JStr(s), DecodeStr);
    forall op | op in cs.operations ensures DecodeOperation(EncodeOperation(op)) == Some(op) { OperationRoundTrip(op); }
    AllRoundTrip(cs.operations, EncodeOperation, DecodeOperation);
    forall c | c in cs.preconditions + cs.postconditions ensures DecodeCondition(EncodeCondition(c)) == Some(c) {
      ConditionRoundTrip(c);
    }
    AllRoundTrip(cs.preconditions, EncodeCondition, DecodeCondition);
    AllRoundTrip(cs.postconditions, EncodeCondition, DecodePostcondition);
  }

  lemma FieldsRoundTrip(cs: ChangeSet)
    ensures DecodeBinding(EncodeBinding(cs.binding)) == Some(cs.binding)
    ensures DecodeOptStr(EncodeOptStr(cs.workspaceId)) == Some(cs.workspaceId)
    ensures DecodePermission(EncodePermission(cs.permission)) == Some(cs.permission)
  {
  }

  /** Exactly what can be constructed survives storage. */
  lemma ChangeSetRoundTrip(cs: ChangeSet)
    ensures ValidChangeSet(cs) <==> DecodeChangeSet(JDict(ChangeSetDict(cs))) == Some(cs)
  {
    hide ValidChangeSet;
    if ValidChangeSet(cs) {
      ValidSurvives(cs);
    }
    if DecodeChangeSet(JDict(ChangeSetDict(cs))) == Some(cs) {
      DecodedIsValid(JDict(ChangeSetDict(cs)));
    }
  }

  lemma ValidSurvives(cs: ChangeSet)
    requires ValidChangeSet(cs)
    ensures DecodeChangeSet(JDict(ChangeSetDict(cs))) == Some(cs)
  {
    hide ValidChangeSet, EncodeAll, DecodeAll, Listed, EncodeRisk, DecodeRisk, EncodePlan, DecodePlan, EncodeBinding,
      DecodeBinding, EncodePermission, DecodePermission, EncodeOptStr, DecodeOptStr, ExactDict;
    PostsAllowed(cs);
    ChangeSetExact(cs);
    FieldsRoundTrip(cs);
    ListsRoundTrip(cs);
    RefsRoundTrip(cs.affected);
    RefsRoundTrip(cs.readDeps);
    RiskRoundTrip(cs.risk);
    PlanRoundTrip(cs.checkpoint);
    assert AsSet(Listed(cs.scopedIds)) == cs.scopedIds;
  }

  lemma PostsAllowed(cs: ChangeSet)
    requires ValidChangeSet(cs)
    ensures forall c :: c in cs.postconditions ==> IsPostcondition(c)
  {
  }

  /** Whatever the decoder returns is a ChangeSet that could have been constructed. */
  lemma DecodedIsValid(j: Json)
    requires DecodeChangeSet(j).Some?
    ensures ValidChangeSet(DecodeChangeSet(j).value) && ExactDict(j, ChangeSetFields)
  {
    hide ValidChangeSet, DecodeAll, DecodeRisk, DecodePlan, DecodeBinding, DecodePermission, DecodeOptStr;
  }

  // ---- manifests ---------------------------------------------------------

  function EncodeOwned(o: OwnedNode): Json {
    JDict(map[NodeIdField := JStr(o.nodeId), PathField := EncodePath(o.path), TypeField := JStr(o.kind),
              ParentPathField := EncodePath(o.parentPath), CapabilityField := JStr(o.capability),
              RoleField := JStr(o.role)])
  }

  function DecodeOwned(j: Json): Option<OwnedNode> {
    var f :- Exact(j, {NodeIdField, PathField, TypeField, ParentPathField, CapabilityField, RoleField});
    var id :- DecodeStr(f[NodeIdField]);
    var path :- DecodePath(f[PathField]);
    var kind :- DecodeStr(f[TypeField]);
    var parentPath :- DecodePath(f[ParentPathField]);
    var capability :- DecodeStr(f[CapabilityField]);
    var role :- DecodeStr(f[RoleField]);
    Some(OwnedNode(id, path, kind, parentPath, capability, role))
  }

  lemma OwnedRoundTrip(o: OwnedNode)
    ensures DecodeOwned(EncodeOwned(o)) == Some(o)
  {
    hide EncodePath, DecodePath;
    PathRoundTrip(o.path);
    PathRoundTrip(o.parentPath);
  }

  const ManifestFields := {WorkspaceField, SessionField, InstanceField, EpochField, RevisionField, RootsField,
                           NodesField, RunField}

  function EncodeManifest(m: Manifest): Json {
    JDict(map[WorkspaceField := JStr(m.workspaceId), SessionField := JStr(m.sessionId),
              InstanceField := JStr(m.binding.instance), EpochField := JInt(m.binding.epoch),
              RevisionField := JStr(m.revision), RootsField := EncodeAll(m.roots, EncodeOwned),
              NodesField := EncodeAll(m.nodes, EncodeOwned), RunField := JStr(m.createdByRun)])
  }

  function DecodeManifest(rev: Workspace.RevisionOf, j: Json): Option<Manifest> {
    var f :- Exact(j, ManifestFields);
    var workspace :- DecodeStr(f[WorkspaceField]);
    var session :- DecodeStr(f[SessionField]);
    var instance :- DecodeStr(f[InstanceField]);
    var epoch :- DecodeInt(f[EpochField]);
    var revision :- DecodeStr(f[RevisionField]);
    var roots :- DecodeAll(f[RootsField], DecodeOwned);
    var nodes :- DecodeAll(f[NodesField], DecodeOwned);
    var run :- DecodeStr(f[RunField]);
    var m := Manifest(workspace, session, Binding(instance, epoch), revision, roots, nodes, run);
    if Workspace.ValidManifest(rev, m) then Some(m) else None
  }

  lemma OwnedListRoundTrip(nodes: seq<OwnedNode>)
    ensures DecodeAll(EncodeAll(nodes, EncodeOwned), DecodeOwned) == Some(nodes)
  {
    hide EncodeOwned, DecodeOwned, EncodeAll, DecodeAll;
    forall o | o in nodes ensures DecodeOwned(EncodeOwned(o)) == Some(o) { OwnedRoundTrip(o); }
    AllRoundTrip(nodes, EncodeOwned, DecodeOwned);
  }

  /** A manifest survives storage exactly when its structure holds up and its revision is the one of its facts. */
  lemma ManifestRoundTrip(rev: Workspace.RevisionOf, m: Manifest)
    ensures Workspace.ValidManifest(rev, m) <==> DecodeManifest(rev, EncodeManifest(m)) == Some(m)
    ensures !Workspace.ValidManifest(rev, m) ==> DecodeManifest(rev, EncodeManifest(m)).None?
  {
    hide EncodeAll, DecodeAll, Workspace.ValidManifest;
    OwnedListRoundTrip(m.roots);
    OwnedListRoundTrip(m.nodes);
  }
}
