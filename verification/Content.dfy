/** Content schemas and objects: what a schema accepts, and the object life
    cycle. */
module Content {
  import opened Prelude
  import opened Json

  datatype FieldType = Text | RichText | Number | Boolean | Date | DateTime | AnyJson | Reference

  datatype SchemaField = SchemaField(
    name: string, fieldType: FieldType, required: bool, localized: bool, defaultValue: Option<Value>)

  datatype SchemaDefinition = SchemaDefinition(
    id: Uuid, name: string, version: nat, fields: seq<SchemaField>, createdAt: Time)

  datatype ObjectStatus = Draft | Submitted | Approved | Committed | Published

  datatype Object = Object(
    id: Uuid, schemaId: Uuid, schemaVersion: nat, locale: string, content: Value,
    revision: u32, createdAt: Time, updatedAt: Time, status: ObjectStatus)

  datatype ContentError =
    | MissingField(field: string)
    | InvalidFieldType(field: string, expected: FieldType)
    | NotAnObject
    | ChangesetNotApproved
    | EmptyChangeset
    | InvalidEdit(edit: nat)
    | UnknownField(key: string)
    | BaseStateMismatch
    | EditTargetMismatch(edit: nat, expectedRevision: u32)
    | SchemaMismatch(edit: nat, schemaId: Uuid, schemaVersion: nat)
    | InvalidDefaultValue(field: string)
    | EmptyFieldName
    | EmptySchema
    | MissingBaseObject(objectId: Uuid)
    | InvalidTransition

  // ----- schemas

  predicate Accepts(fieldType: FieldType, v: Value) {
    match fieldType
    case Number => v.Num?
    case Boolean => v.Bool?
    case AnyJson => true
    case _ => v.Str?
  }

  /** Which types of field a value may stand in. */
  lemma AcceptedBy(fieldType: FieldType, v: Value)
    ensures Accepts(fieldType, v) <==>
      match v
      case Null => fieldType.AnyJson?
      case Bool(_) => fieldType.AnyJson? || fieldType.Boolean?
      case Num(_) => fieldType.AnyJson? || fieldType.Number?
      case Str(_) => !fieldType.Boolean? && !fieldType.Number?
      case Arr(_) => fieldType.AnyJson?
      case Obj(_) => fieldType.AnyJson?
  {
  }

  function CheckDefinition(field: SchemaField): Option<ContentError> {
    if field.name == "" then Some(EmptyFieldName)
    else if field.defaultValue.Some? &&
      (field.defaultValue.value.Null? || !Accepts(field.fieldType, field.defaultValue.value))
    then Some(InvalidDefaultValue(field.name))
    else None
  }

  function CheckDefinitions(fields: seq<SchemaField>): Option<ContentError> {
    if fields == [] then None
    else if CheckDefinition(fields[0]).Some? then CheckDefinition(fields[0])
    else CheckDefinitions(fields[1..])
  }

  function ValidateSchema(schema: SchemaDefinition): Option<ContentError> {
    if schema.fields == [] then Some(EmptySchema) else CheckDefinitions(schema.fields)
  }

  function CheckField(field: SchemaField, v: Value): Option<ContentError> {
    match Get(v, field.name)
    case None => if field.required then Some(MissingField(field.name)) else None
    case Some(Null) => if field.required then Some(MissingField(field.name)) else None
    case Some(w) =>
      if !Accepts(field.fieldType, w) then Some(InvalidFieldType(field.name, field.fieldType)) else None
  }

  function CheckFields(fields: seq<SchemaField>, v: Value): Option<ContentError> {
    if fields == [] then None
    else if CheckField(fields[0], v).Some? then CheckField(fields[0], v)
    else CheckFields(fields[1..], v)
  }

  predicate KnownField(fields: seq<SchemaField>, key: string) {
    exists i :: 0 <= i < |fields| && fields[i].name == key
  }

  function CheckKeys(fields: seq<SchemaField>, entries: seq<Member>): Option<ContentError> {
    if entries == [] then None
    else if !KnownField(fields, entries[0].key) then Some(UnknownField(entries[0].key))
    else CheckKeys(fields, entries[1..])
  }

  /** The first reason a value is refused, if there is one. */
  function ValidateObject(schema: SchemaDefinition, v: Value): Option<ContentError> {
    if ValidateSchema(schema).Some? then ValidateSchema(schema)
    else if !v.Obj? then Some(NotAnObject)
    else if CheckFields(schema.fields, v).Some? then CheckFields(schema.fields, v)
    else CheckKeys(schema.fields, v.entries)
  }

  // What acceptance means, without the order of the checks.

  predicate SoundField(field: SchemaField) {
    && field.name != ""
    && (field.defaultValue.Some? ==>
      !field.defaultValue.value.Null? && Accepts(field.fieldType, field.defaultValue.value))
  }

  predicate FieldSatisfied(field: SchemaField, v: Value) {
    var w := Get(v, field.name);
    if w.None? || w.value.Null? then !field.required else Accepts(field.fieldType, w.value)
  }

  predicate Conforms(schema: SchemaDefinition, v: Value) {
    && schema.fields != []
    && (forall i :: 0 <= i < |schema.fields| ==> SoundField(schema.fields[i]))
    && v.Obj?
    && (forall i :: 0 <= i < |schema.fields| ==> FieldSatisfied(schema.fields[i], v))
    && (forall i :: 0 <= i < |v.entries| ==>
      exists j :: 0 <= j < |schema.fields| && schema.fields[j].name == v.entries[i].key)
  }

  lemma {:induction false} DefinitionsSound(fields: seq<SchemaField>)
    ensures CheckDefinitions(fields).None? <==> forall i :: 0 <= i < |fields| ==> SoundField(fields[i])
  {
    if fields == [] {
    } else {
      DefinitionsSound(fields[1..]);
      assert forall i :: 0 < i < |fields| ==> fields[i] == fields[1..][i - 1];
      assert CheckDefinition(fields[0]).None? <==> SoundField(fields[0]);
    }
  }

  lemma {:induction false} FieldsSatisfied(fields: seq<SchemaField>, v: Value)
    ensures CheckFields(fields, v).None? <==> forall i :: 0 <= i < |fields| ==> FieldSatisfied(fields[i], v)
  {
    if fields == [] {
    } else {
      FieldsSatisfied(fields[1..], v);
      assert forall i :: 0 < i < |fields| ==> fields[i] == fields[1..][i - 1];
      assert CheckField(fields[0], v).None? <==> FieldSatisfied(fields[0], v);
    }
  }

  lemma {:induction false} KeysKnown(fields: seq<SchemaField>, entries: seq<Member>)
    ensures CheckKeys(fields, entries).None? <==> forall i :: 0 <= i < |entries| ==> KnownField(fields, entries[i].key)
  {
    if entries == [] {
    } else {
      KeysKnown(fields, entries[1..]);
      assert forall i :: 0 < i < |entries| ==> entries[i] == entries[1..][i - 1];
    }
  }

  /** Validation accepts exactly the conforming values. */
  lemma ValidationIsConformance(schema: SchemaDefinition, v: Value)
    ensures ValidateObject(schema, v).None? <==> Conforms(schema, v)
  {
    DefinitionsSound(schema.fields);
    FieldsSatisfied(schema.fields, v);
    if v.Obj? {
      KeysKnown(schema.fields, v.entries);
    }
  }

  predicate Unfilled(field: SchemaField, v: Value) {
    var w := Get(v, field.name);
    field.required && (w.None? || w.value.Null?)
  }

  predicate Mistyped(field: SchemaField, v: Value) {
    var w := Get(v, field.name);
    w.Some? && !w.value.Null? && !Accepts(field.fieldType, w.value)
  }

  /** The error names a fault of the schema or the value. */
  predicate Faults(schema: SchemaDefinition, v: Value, error: ContentError) {
    match error
    case EmptySchema => schema.fields == []
    case EmptyFieldName => exists i :: 0 <= i < |schema.fields| && schema.fields[i].name == ""
    case InvalidDefaultValue(name) =>
      exists i :: 0 <= i < |schema.fields| && schema.fields[i].name == name && !SoundField(schema.fields[i])
    case NotAnObject => !v.Obj?
    case MissingField(name) =>
      exists i :: 0 <= i < |schema.fields| && schema.fields[i].name == name && Unfilled(schema.fields[i], v)
    case InvalidFieldType(name, fieldType) =>
      exists i :: 0 <= i < |schema.fields| && schema.fields[i].name == name
        && schema.fields[i].fieldType == fieldType && Mistyped(schema.fields[i], v)
    case UnknownField(key) =>
      Get(v, key).Some? && forall j :: 0 <= j < |schema.fields| ==> schema.fields[j].name != key
    case _ => false
  }

  lemma {:induction false} DefinitionFaults(schema: SchemaDefinition, v: Value, k: nat)
    requires k <= |schema.fields| && CheckDefinitions(schema.fields[k..]).Some?
    ensures Faults(schema, v, CheckDefinitions(schema.fields[k..]).value)
    decreases |schema.fields| - k
  {
    var rest := schema.fields[k..];
    assert rest[0] == schema.fields[k] && rest[1..] == schema.fields[k + 1..];
    if CheckDefinition(rest[0]).None? {
      DefinitionFaults(schema, v, k + 1);
    }
  }

  lemma {:induction false} FieldFaults(schema: SchemaDefinition, v: Value, k: nat)
    requires k <= |schema.fields| && CheckFields(schema.fields[k..], v).Some?
    ensures Faults(schema, v, CheckFields(schema.fields[k..], v).value)
    decreases |schema.fields| - k
  {
    var rest := schema.fields[k..];
    assert rest[0] == schema.fields[k] && rest[1..] == schema.fields[k + 1..];
    if CheckField(rest[0], v).None? {
      FieldFaults(schema, v, k + 1);
    } else {
      assert Unfilled(schema.fields[k], v) || Mistyped(schema.fields[k], v);
    }
  }

  lemma {:induction false} KeyFaults(schema: SchemaDefinition, v: Value, k: nat)
    requires v.Obj? && k <= |v.entries| && CheckKeys(schema.fields, v.entries[k..]).Some?
    ensures Faults(schema, v, CheckKeys(schema.fields, v.entries[k..]).value)
    decreases |v.entries| - k
  {
    var rest := v.entries[k..];
    assert rest[0] == v.entries[k] && rest[1..] == v.entries[k + 1..];
    if KnownField(schema.fields, rest[0].key) {
      KeyFaults(schema, v, k + 1);
    } else {
      assert v.entries[k].key == rest[0].key;
    }
  }

  /** A refusal is always for a fault that is there. */
  lemma RefusalsAreJust(schema: SchemaDefinition, v: Value)
    requires ValidateObject(schema, v).Some?
    ensures Faults(schema, v, ValidateObject(schema, v).value)
  {
    assert schema.fields[0..] == schema.fields;
    if ValidateSchema(schema).Some? {
      if schema.fields != [] {
        DefinitionFaults(schema, v, 0);
      }
    } else if v.Obj? {
      if CheckFields(schema.fields, v).Some? {
        FieldFaults(schema, v, 0);
      } else {
        assert v.entries[0..] == v.entries;
        KeyFaults(schema, v, 0);
      }
    }
  }

  // ----- objects

  predicate CanTransitionTo(from: ObjectStatus, to: ObjectStatus) {
    match from
    case Draft => to == Submitted
    case Submitted => to == Approved
    case Approved => to == Committed
    case Committed => to == Published
    case Published => to == Draft
  }

  /** Returning to Draft opens a new revision. */
  function TransitionTo(o: Object, next: ObjectStatus, now: Time): Result<Object, ContentError> {
    if !CanTransitionTo(o.status, next) then Err(InvalidTransition)
    else Ok(o.(status := next, updatedAt := now,
      revision := if next == Draft then WrappingInc32(o.revision) else o.revision))
  }

  datatype Transition = Transition(next: ObjectStatus, now: Time)

  /** A refused transition leaves the object as it was. */
  function ObjectAfter(o: Object, moves: seq<Transition>): Object
    decreases |moves|
  {
    if moves == [] then o
    else
      match TransitionTo(o, moves[0].next, moves[0].now)
      case Ok(moved) => ObjectAfter(moved, moves[1..])
      case Err(_) => ObjectAfter(o, moves[1..])
  }

  /** How far along its life an object is: five stages to a revision. */
  function Stage(status: ObjectStatus): nat {
    match status
    case Draft => 0
    case Submitted => 1
    case Approved => 2
    case Committed => 3
    case Published => 4
  }

  /** Stages passed, over all revisions; these wrap in 32 bits. */
  function Position(o: Object): nat {
    5 * o.revision + Stage(o.status)
  }

  const CYCLE: nat := 5 * (U32_MAX + 1)

  function MovesMade(o: Object, moves: seq<Transition>): nat
    decreases |moves|
  {
    if moves == [] then 0
    else
      match TransitionTo(o, moves[0].next, moves[0].now)
      case Ok(moved) => 1 + MovesMade(moved, moves[1..])
      case Err(_) => MovesMade(o, moves[1..])
  }

  lemma OneStageOn(o: Object, next: ObjectStatus, now: Time)
    requires TransitionTo(o, next, now).Ok?
    ensures var moved := TransitionTo(o, next, now).value;
      && Position(moved) == (Position(o) + 1) % CYCLE
      && moved.(status := o.status, revision := o.revision, updatedAt := o.updatedAt) == o
  {
  }

  lemma OnTheRound(at: nat, n: nat)
    ensures ((at + 1) % CYCLE + n) % CYCLE == (at + (1 + n)) % CYCLE
  {
  }

  /** Each transition made takes an object one stage on, drafts come round again with
      the next revision, and nothing but the status, the revision and the time of
      the last change is touched. */
  lemma {:induction false} ObjectsGoRound(o: Object, moves: seq<Transition>)
    ensures var last := ObjectAfter(o, moves);
      && Position(last) == (Position(o) + MovesMade(o, moves)) % CYCLE
      && last.(status := o.status, revision := o.revision, updatedAt := o.updatedAt) == o
    decreases |moves|
  {
    hide TransitionTo;
    if moves == [] {
      assert Position(o) < CYCLE;
    } else {
      match TransitionTo(o, moves[0].next, moves[0].now) {
        case Ok(moved) =>
          OneStageOn(o, moves[0].next, moves[0].now);
          ObjectsGoRound(moved, moves[1..]);
          OnTheRound(Position(o), MovesMade(moved, moves[1..]));
        case Err(_) => ObjectsGoRound(o, moves[1..]);
      }
    }
  }

  /** An object moves exactly to the stage after its own. */
  lemma MovesExactlyWhen(o: Object, next: ObjectStatus, now: Time)
    ensures TransitionTo(o, next, now).Ok? <==> Stage(next) == (Stage(o.status) + 1) % 5
  {
  }
}
