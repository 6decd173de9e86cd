/** ChangeSets: a batch of edits checked against a base state, then applied to
    it.  `validate` and `apply` are two different walks over the same edits;
    the lemmas show that the first predicts the second. */
module ChangeSets {
  import opened Prelude
  import opened Json
  import opened Content
  import opened StateText

  datatype Edit =
    | Create(draft: Object)
    | Update(objectId: Uuid, expectedRevision: u32, content: Value)
    | Delete(objectId: Uuid, expectedRevision: u32)

  datatype ChangeSetStatus = Draft | Submitted | Approved | Committed | Rejected

  predicate CanMove(from: ChangeSetStatus, to: ChangeSetStatus) {
    || (from == ChangeSetStatus.Draft && to == ChangeSetStatus.Submitted)
    || (from == ChangeSetStatus.Submitted && (to == ChangeSetStatus.Approved || to == Rejected))
    || (from == ChangeSetStatus.Approved && to == ChangeSetStatus.Committed)
  }

  /** Moments read from the clock, by position in the edit list. */
  type Clock = nat -> Time

  // ----- staging, as validation does it

  function SchemaFor(schemas: seq<SchemaDefinition>, o: Object): (r: Option<SchemaDefinition>)
    ensures r.Some? ==> r.value in schemas && r.value.id == o.schemaId && r.value.version == o.schemaVersion
    ensures r.None? ==> forall k :: 0 <= k < |schemas| ==>
      !(schemas[k].id == o.schemaId && schemas[k].version == o.schemaVersion)
  {
    if schemas == [] then None
    else if schemas[0].id == o.schemaId && schemas[0].version == o.schemaVersion then Some(schemas[0])
    else SchemaFor(schemas[1..], o)
  }

  datatype Staging = Staging(staged: BaseState, expected: map<Uuid, u32>)

  function Revise(o: Object, content: Value, now: Time): Object {
    o.(content := content, revision := WrappingInc32(o.revision), updatedAt := now)
  }

  function StageEdit(schemas: seq<SchemaDefinition>, s: Staging, index: nat, edit: Edit, now: Time)
    : Result<Staging, ContentError>
  {
    match edit
    case Create(draft) =>
      if draft.id in s.staged then Err(InvalidEdit(index))
      else
        var schema := SchemaFor(schemas, draft);
        if schema.None? then Err(SchemaMismatch(index, draft.schemaId, draft.schemaVersion))
        else
          var refusal := ValidateObject(schema.value, draft.content);
          if refusal.Some? then Err(refusal.value)
          else if draft.status != ObjectStatus.Draft then Err(InvalidEdit(index))
          else Ok(s.(staged := s.staged[draft.id := draft]))
    case Update(id, expectedRevision, content) =>
      if id !in s.expected then Err(MissingBaseObject(id))
      else if s.expected[id] != expectedRevision then Err(EditTargetMismatch(index, s.expected[id]))
      else if id !in s.staged then Err(MissingBaseObject(id))
      else
        var schema := SchemaFor(schemas, s.staged[id]);
        if schema.None? then Err(SchemaMismatch(index, s.staged[id].schemaId, s.staged[id].schemaVersion))
        else
          var refusal := ValidateObject(schema.value, content);
          if refusal.Some? then Err(refusal.value)
          else Ok(Staging(s.staged[id := Revise(s.staged[id], content, now)],
            s.expected[id := WrappingInc32(s.expected[id])]))
    case Delete(id, expectedRevision) =>
      if id !in s.expected then Err(MissingBaseObject(id))
      else if s.expected[id] != expectedRevision then Err(EditTargetMismatch(index, s.expected[id]))
      else if id !in s.staged then Err(MissingBaseObject(id))
      else Ok(Staging(s.staged - {id}, s.expected - {id}))
  }

  function StageFrom(schemas: seq<SchemaDefinition>, s: Staging, edits: seq<Edit>, i: nat, clock: Clock)
    : Result<Staging, ContentError>
    requires i <= |edits|
    decreases |edits| - i
  {
    if i == |edits| then Ok(s)
    else
      match StageEdit(schemas, s, i, edits[i], clock(i))
      case Err(e) => Err(e)
      case Ok(s') => StageFrom(schemas, s', edits, i + 1, clock)
  }

  function Initial(base: BaseState): Staging {
    Staging(base, map id | id in base :: base[id].revision)
  }

  // ----- application

  function Advance(o: Object, now: Time): Result<Object, ContentError> {
    match TransitionTo(o, ObjectStatus.Submitted, now)
    case Err(_) => Err(InvalidTransition)
    case Ok(submitted) =>
      match TransitionTo(submitted, ObjectStatus.Approved, now)
      case Err(_) => Err(InvalidTransition)
      case Ok(approved) => TransitionTo(approved, ObjectStatus.Committed, now)
  }

  function ApplyEdit(state: BaseState, edit: Edit, now: Time): Result<BaseState, ContentError> {
    match edit
    case Create(draft) =>
      (match Advance(draft, now)
       case Err(e) => Err(e)
       case Ok(committed) => Ok(state[committed.id := committed]))
    case Update(id, _, content) =>
      if id !in state then Err(MissingBaseObject(id)) else Ok(state[id := Revise(state[id], content, now)])
    case Delete(id, _) =>
      if id !in state then Err(MissingBaseObject(id)) else Ok(state - {id})
  }

  function ApplyFrom(state: BaseState, edits: seq<Edit>, i: nat, clock: Clock): Result<BaseState, ContentError>
    requires i <= |edits|
    decreases |edits| - i
  {
    if i == |edits| then Ok(state)
    else
      match ApplyEdit(state, edits[i], clock(i))
      case Err(e) => Err(e)
      case Ok(state') => ApplyFrom(state', edits, i + 1, clock)
  }

  // ----- the two walks and the commit

  function Verdict(
      codec: Codec, digest: StateDigest, edits: seq<Edit>, schemas: seq<SchemaDefinition>, base: BaseState,
      clock: Clock)
    : Option<ContentError>
  {
    if DigestOf(codec, base) != digest then Some(BaseStateMismatch)
    else if edits == [] then Some(EmptyChangeset)
    else
      match StageFrom(schemas, Initial(base), edits, 0, clock)
      case Err(e) => Some(e)
      case Ok(_) => None
  }

  // ----- validation predicts application

  /** The ids created by the first `n` edits. */
  function CreatedIds(edits: seq<Edit>, n: nat): set<Uuid>
    requires n <= |edits|
  {
    set i | 0 <= i < n && edits[i].Create? :: edits[i].draft.id
  }

  /** Equal in everything but the clock; the status of a created object runs
      ahead of its staged draft. */
  predicate Mirrored(staged: Object, applied: Object, created: bool) {
    && staged.(updatedAt := 0, status := ObjectStatus.Draft) == applied.(updatedAt := 0, status := ObjectStatus.Draft)
    && (if created then staged.status == ObjectStatus.Draft && applied.status == ObjectStatus.Committed
        else staged.status == applied.status)
  }

  predicate Mirror(staged: BaseState, applied: BaseState, created: set<Uuid>) {
    && staged.Keys == applied.Keys
    && (forall k :: k in staged ==> Mirrored(staged[k], applied[k], k in created))
  }

  /** Revisions are tracked for the surviving base objects only. */
  predicate Tracks(s: Staging, created: set<Uuid>) {
    && (forall k :: k in s.expected ==> k in s.staged && k !in created && s.staged[k].revision == s.expected[k])
    && (forall k :: k in created ==> k in s.staged)
  }

  lemma StepTracked(
      schemas: seq<SchemaDefinition>, s: Staging, created: set<Uuid>, index: nat, edit: Edit, now: Time)
    requires Tracks(s, created)
    requires StageEdit(schemas, s, index, edit, now).Ok?
    ensures var s' := StageEdit(schemas, s, index, edit, now).value;
      && Tracks(s', if edit.Create? then created + {edit.draft.id} else created)
      && (forall k :: k in created ==> s'.staged[k] == s.staged[k])
      && (edit.Create? ==> edit.draft.id in s'.staged && s'.staged[edit.draft.id] == edit.draft)
  {
  }

  lemma StepPredicted(
      schemas: seq<SchemaDefinition>, s: Staging, applied: BaseState, created: set<Uuid>,
      index: nat, edit: Edit, now: Time, later: Time)
    requires Tracks(s, created) && Mirror(s.staged, applied, created)
    requires StageEdit(schemas, s, index, edit, now).Ok?
    ensures ApplyEdit(applied, edit, later).Ok?
    ensures var s' := StageEdit(schemas, s, index, edit, now).value;
      var created' := if edit.Create? then created + {edit.draft.id} else created;
      Mirror(s'.staged, ApplyEdit(applied, edit, later).value, created')
  {
    var s' := StageEdit(schemas, s, index, edit, now).value;
    var applied' := ApplyEdit(applied, edit, later).value;
    var id := if edit.Create? then edit.draft.id else edit.objectId;
    assert s'.staged.Keys == applied'.Keys;
    assert id in s'.staged ==> Mirrored(s'.staged[id], applied'[id], edit.Create?);
    assert edit.Create? || id !in created;
    assert forall k :: k in s'.staged && k != id ==> s'.staged[k] == s.staged[k] && applied'[k] == applied[k];
  }

  /** Whatever validation stages, application reaches: the same objects with the
      same contents and revisions, whatever the two clocks say. */
  lemma {:induction false} StagingPredictsApplication(
      schemas: seq<SchemaDefinition>, s: Staging, applied: BaseState, edits: seq<Edit>, i: nat,
      validating: Clock, applying: Clock)
    requires i <= |edits|
    requires Tracks(s, CreatedIds(edits, i)) && Mirror(s.staged, applied, CreatedIds(edits, i))
    requires StageFrom(schemas, s, edits, i, validating).Ok?
    ensures ApplyFrom(applied, edits, i, applying).Ok?
    ensures Mirror(
      StageFrom(schemas, s, edits, i, validating).value.staged,
      ApplyFrom(applied, edits, i, applying).value,
      CreatedIds(edits, |edits|))
    decreases |edits| - i
  {
    if i < |edits| {
      StepTracked(schemas, s, CreatedIds(edits, i), i, edits[i], validating(i));
      StepPredicted(schemas, s, applied, CreatedIds(edits, i), i, edits[i], validating(i), applying(i));
      CreatedStep(edits, i);
      StagingPredictsApplication(
        schemas, StageEdit(schemas, s, i, edits[i], validating(i)).value,
        ApplyEdit(applied, edits[i], applying(i)).value, edits, i + 1, validating, applying);
    }
  }

  lemma CreatedStep(edits: seq<Edit>, i: nat)
    requires i < |edits|
    ensures CreatedIds(edits, i + 1)
         == if edits[i].Create? then CreatedIds(edits, i) + {edits[i].draft.id} else CreatedIds(edits, i)
  {
  }

  lemma ApplySucceeds(
      schemas: seq<SchemaDefinition>, base: BaseState, edits: seq<Edit>, validating: Clock, applying: Clock)
    requires StageFrom(schemas, Initial(base), edits, 0, validating).Ok?
    ensures ApplyFrom(base, edits, 0, applying).Ok?
    ensures Mirror(
      StageFrom(schemas, Initial(base), edits, 0, validating).value.staged,
      ApplyFrom(base, edits, 0, applying).value,
      CreatedIds(edits, |edits|))
  {
    StagingPredictsApplication(schemas, Initial(base), base, edits, 0, validating, applying);
  }

  lemma {:induction false} ApplicationKeepsKeys(state: BaseState, edits: seq<Edit>, i: nat, clock: Clock)
    requires i <= |edits| && KeyedById(state) && ApplyFrom(state, edits, i, clock).Ok?
    ensures KeyedById(ApplyFrom(state, edits, i, clock).value)
    decreases |edits| - i
  {
    if i < |edits| {
      ApplicationKeepsKeys(ApplyEdit(state, edits[i], clock(i)).value, edits, i + 1, clock);
    }
  }
}
