/** The stored and transmitted form of records: dictionaries with exact key sets, decoded strictly. */
module Codec {
  import opened Wrappers
  import opened Contracts

  /** Dictionary keys, one constructor per name; any other text is a foreign key. */
  datatype Field =
    | ChangeIdField | StatusField | InstanceField | EpochField | AppliedField | PostField | RollbackField
    | ChangedField | ErrorCodeField | ErrorMessageField
    | KindField | NodeIdField | PathField | TypeField | WorkspaceField | SourceField | OutputField | OpIdField
    | ParentField | NameField | CapabilityField | RoleField | TargetField | ParmField | ValueField | OldValueField
    | InputField | OldSourceField | RevisionField | NodeField | ExternalField | WiringField | BackupField
    | CountField | EffectsField | PathsField | NodesField | ParmsField | WiresField | SessionField | RunField
    | BindingField | PermissionField | ScopedField | OperationsField | AffectedField | ReadDepsField
    | PreconditionsField | PostconditionsField | RiskField | CheckpointField | RootsField | ParentPathField
    | Foreign(text: string)

  /** The fixed words a string value may be: statuses, kinds, permissions and effects. */
  datatype Word =
    | AppliedWord | AlreadyAppliedWord | RolledBackWord | PartialWord | CriticalWord
    | CreateWord | SetParmWord | ConnectWord
    | BindingEqualsWord | RevisionEqualsWord | IdentityEqualsWord | ParmEqualsWord | InputEqualsWord | AbsentWord
    | OwnedWord | ScopedWord | ProjectWord

  datatype Json =
    | JNull
    | JBool(flag: bool)
    | JInt(number: int)
    | JStr(text: string)
    | JWord(word: Word)
    | JList(items: seq<Json>)
    | JDict(fields: map<Field, Json>)

  // ---- typed primitives --------------------------------------------------

  predicate ExactDict(j: Json, keys: set<Field>) {
    j.JDict? && j.fields.Keys == keys
  }

  function DecodeStr(j: Json): Option<string> {
    if j.JStr? then Some(j.text) else None
  }

  function DecodeBool(j: Json): Option<bool> {
    if j.JBool? then Some(j.flag) else None
  }

  function DecodeInt(j: Json): Option<int> {
    if j.JInt? then Some(j.number) else None
  }

  function DecodeItems(j: Json): Option<seq<Json>> {
    if j.JList? then Some(j.items) else None
  }

  /** The fields of a dictionary with exactly these keys. */
  function Exact(j: Json, keys: set<Field>): (f: Option<map<Field, Json>>)
    ensures f.Some? <==> ExactDict(j, keys)
    ensures f.Some? ==> f.value == j.fields && f.value.Keys == keys
  {
    if ExactDict(j, keys) then Some(j.fields) else None
  }

  function DecodeList<T>(items: seq<Json>, decode: Json -> Option<T>): Option<seq<T>> {
    if items == [] then Some([]) else
    var last := decode(items[|items| - 1]);
    var front := DecodeList(items[..|items| - 1], decode);
    if last.Some? && front.Some? then Some(front.value + [last.value]) else None
  }

  function EncodeList<T>(xs: seq<T>, encode: T -> Json): (items: seq<Json>)
    ensures |items| == |xs| && forall i :: 0 <= i < |xs| ==> items[i] == encode(xs[i])
  {
    seq(|xs|, i requires 0 <= i < |xs| => encode(xs[i]))
  }

  lemma {:induction false} ListRoundTrip<T>(xs: seq<T>, encode: T -> Json, decode: Json -> Option<T>)
    requires forall x :: x in xs ==> decode(encode(x)) == Some(x)
    ensures DecodeList(EncodeList(xs, encode), decode) == Some(xs)
  {
    if xs != [] {
      var front := xs[..|xs| - 1];
      assert EncodeList(xs, encode)[..|xs| - 1] == EncodeList(front, encode);
      assert front + [xs[|xs| - 1]] == xs;
      ListRoundTrip(front, encode, decode);
    }
  }

  // ---- receipts ----------------------------------------------------------

  const ReceiptFields := {ChangeIdField, StatusField, InstanceField, EpochField, AppliedField, PostField,
                          RollbackField, ChangedField}

  function StatusWord(s: ReceiptStatus): Word {
    match s
    case Applied => AppliedWord
    case AlreadyApplied => AlreadyAppliedWord
    case RolledBack => RolledBackWord
    case Partial => PartialWord
    case CriticalRecovery => CriticalWord
  }

  function DecodeStatus(j: Json): Option<ReceiptStatus> {
    if !j.JWord? then None else
    match j.word
    case AppliedWord => Some(Applied)
    case AlreadyAppliedWord => Some(AlreadyApplied)
    case RolledBackWord => Some(RolledBack)
    case PartialWord => Some(Partial)
    case CriticalWord => Some(CriticalRecovery)
    case _ => None
  }

  /** The receipts that can be constructed at all. */
  predicate ValidReceipt(r: Receipt) {
    && (r.errorMessage.Some? ==> r.errorCode.Some?)
    && match r.status
       case Applied => SuccessState(r)
       case AlreadyApplied => SuccessState(r)
       case RolledBack => forall i :: 0 <= i < |r.rollbackResults| ==> r.rollbackResults[i]
       case _ => r.sceneMayHaveChanged
  }

  predicate SuccessState(r: Receipt) {
    && !r.sceneMayHaveChanged
    && (forall i :: 0 <= i < |r.postResults| ==> r.postResults[i])
    && r.errorCode.None? && r.errorMessage.None?
  }

  function BaseFields(r: Receipt): map<Field, Json> {
    map[ChangeIdField := JStr(r.changeId), StatusField := JWord(StatusWord(r.status)),
        InstanceField := JStr(r.binding.instance), EpochField := JInt(r.binding.epoch),
        AppliedField := JList(EncodeList(r.appliedOps, s => JStr(s))),
        PostField := JList(EncodeList(r.postResults, b => JBool(b))),
        RollbackField := JList(EncodeList(r.rollbackResults, b => JBool(b))),
        ChangedField := JBool(r.sceneMayHaveChanged)]
  }

  /** The two error fields are written only when they are set. */
  function EncodeReceipt(r: Receipt): Json {
    var coded := if r.errorCode.Some? then BaseFields(r)[ErrorCodeField := JStr(r.errorCode.value)] else BaseFields(r);
    JDict(if r.errorMessage.Some? then coded[ErrorMessageField := JStr(r.errorMessage.value)] else coded)
  }

  function DecodeReceipt(j: Json): Option<Receipt> {
    var f :- Exact(j, ReceiptFields);
    var id :- DecodeStr(f[ChangeIdField]);
    var status :- DecodeStatus(f[StatusField]);
    var instance :- DecodeStr(f[InstanceField]);
    var epoch :- DecodeInt(f[EpochField]);
    var applied :- DecodeItems(f[AppliedField]);
    var ops :- DecodeList(applied, DecodeStr);
    var posts :- DecodeItems(f[PostField]);
    var post :- DecodeList(posts, DecodeBool);
    var backs :- DecodeItems(f[RollbackField]);
    var back :- DecodeList(backs, DecodeBool);
    var changed :- DecodeBool(f[ChangedField]);
    var r := Receipt(id, status, Binding(instance, epoch), ops, post, back, changed, None, None);
    if ValidReceipt(r) then Some(r) else None
  }

  lemma ErrorNeedsCode(r: Receipt)
    requires ValidReceipt(r)
    ensures r.errorMessage.Some? ==> r.errorCode.Some?
  {
  }

  lemma StatusRoundTrip(s: ReceiptStatus)
    ensures DecodeStatus(JWord(StatusWord(s))) == Some(s)
  {
  }

  lemma BaseExact(r: Receipt)
    ensures ExactDict(JDict(BaseFields(r)), ReceiptFields)
  {
  }

  lemma BaseDecodes(r: Receipt)
    requires ValidReceipt(r) && r.errorCode.None? && r.errorMessage.None?
    ensures DecodeReceipt(JDict(BaseFields(r))) == Some(r)
  {
    hide DecodeStatus, StatusWord, ValidReceipt, ExactDict, DecodeList;
    BaseExact(r);
    StatusRoundTrip(r.status);
    ListRoundTrip(r.appliedOps, s => JStr(s), DecodeStr);
    ListRoundTrip(r.postResults, b => JBool(b), DecodeBool);
    ListRoundTrip(r.rollbackResults, b => JBool(b), DecodeBool);
  }

  /** A receipt survives storage and transmission exactly when it carries no error code: the encoder writes the two
      error fields, the decoder refuses keys outside its fixed set. */
  lemma ReceiptRoundTrip(r: Receipt)
    requires ValidReceipt(r)
    ensures r.errorCode.None? <==> DecodeReceipt(EncodeReceipt(r)) == Some(r)
    ensures r.errorCode.Some? ==> DecodeReceipt(EncodeReceipt(r)).None?
  {
    hide BaseFields, ValidReceipt;
    ErrorNeedsCode(r);
    if r.errorCode.Some? {
      assert ErrorCodeField in EncodeReceipt(r).fields && ErrorCodeField !in ReceiptFields;
    } else {
      BaseDecodes(r);
    }
  }
}
