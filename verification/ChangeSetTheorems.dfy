/** What committing a ChangeSet does, told by the base state and the edits alone:
    which edits are acceptable, and what every object is afterwards. */
module ChangeSetTheorems {
  import opened Prelude
  import opened Json
  import opened Content
  import opened StateText
  import opened ChangeSets

  // ----- the history of one object

  predicate DeletedBefore(edits: seq<Edit>, n: nat, id: Uuid)
    requires n <= |edits|
  {
    exists j :: 0 <= j < n && edits[j].Delete? && edits[j].objectId == id
  }

  predicate CreatedBefore(edits: seq<Edit>, n: nat, id: Uuid)
    requires n <= |edits|
  {
    exists j :: 0 <= j < n && edits[j].Create? && edits[j].draft.id == id
  }

  /** A base object that none of the first `n` edits deletes. */
  predicate Survives(base: BaseState, edits: seq<Edit>, n: nat, id: Uuid)
    requires n <= |edits|
  {
    id in base && !DeletedBefore(edits, n, id)
  }

  predicate Updates(edit: Edit, id: Uuid) {
    edit.Update? && edit.objectId == id
  }

  function UpdateCount(edits: seq<Edit>, n: nat, id: Uuid): nat
    requires n <= |edits|
  {
    if n == 0 then 0 else UpdateCount(edits, n - 1, id) + if Updates(edits[n - 1], id) then 1 else 0
  }

  function LastUpdate(edits: seq<Edit>, n: nat, id: Uuid): (j: Option<nat>)
    requires n <= |edits|
    ensures j.Some? ==> j.value < n && Updates(edits[j.value], id)
    ensures forall i :: (if j.Some? then j.value + 1 else 0) <= i < n ==> !Updates(edits[i], id)
  {
    if n == 0 then None else if Updates(edits[n - 1], id) then Some(n - 1) else LastUpdate(edits, n - 1, id)
  }

  function Wrapped32(n: nat): u32 {
    n % (U32_MAX + 1)
  }

  function RevisionBefore(base: BaseState, edits: seq<Edit>, n: nat, id: Uuid): u32
    requires n <= |edits| && id in base
  {
    Wrapped32(base[id].revision + UpdateCount(edits, n, id))
  }

  lemma WrappingStep(n: nat)
    ensures WrappingInc32(Wrapped32(n)) == Wrapped32(n + 1)
  {
  }

  lemma WrappedExactlyWhen(n: nat)
    ensures Wrapped32(n) == n <==> n <= U32_MAX
  {
  }

  // ----- which edits are acceptable

  /** The object's schema is known and accepts its content. */
  predicate WellTyped(schemas: seq<SchemaDefinition>, o: Object) {
    SchemaFor(schemas, o).Some? && Conforms(SchemaFor(schemas, o).value, o.content)
  }

  /** A new object takes a free id and starts as a draft; an update or deletion
      names a base object that is still there, at its current revision; and
      contents conform to the object's schema. */
  predicate EditFits(schemas: seq<SchemaDefinition>, base: BaseState, edits: seq<Edit>, j: nat)
    requires j < |edits|
  {
    match edits[j]
    case Create(draft) =>
      && !Survives(base, edits, j, draft.id) && !CreatedBefore(edits, j, draft.id)
      && draft.status == ObjectStatus.Draft && WellTyped(schemas, draft)
    case Update(id, revision, content) =>
      && Survives(base, edits, j, id) && revision == RevisionBefore(base, edits, j, id)
      && WellTyped(schemas, base[id].(content := content))
    case Delete(id, revision) =>
      Survives(base, edits, j, id) && revision == RevisionBefore(base, edits, j, id)
  }

  predicate AllFit(schemas: seq<SchemaDefinition>, base: BaseState, edits: seq<Edit>) {
    forall j :: 0 <= j < |edits| ==> EditFits(schemas, base, edits, j)
  }

  /** The error names a fault that the edit has. */
  predicate Explains(
      schemas: seq<SchemaDefinition>, base: BaseState, edits: seq<Edit>, j: nat, error: ContentError)
    requires j < |edits|
  {
    match error
    case InvalidEdit(i) =>
      && i == j && edits[j].Create?
      && var draft := edits[j].draft;
      && (Survives(base, edits, j, draft.id) || CreatedBefore(edits, j, draft.id) || draft.status != ObjectStatus.Draft)
    case MissingBaseObject(id) =>
      !edits[j].Create? && id == edits[j].objectId && !Survives(base, edits, j, id)
    case EditTargetMismatch(i, revision) =>
      && i == j && !edits[j].Create?
      && var id := edits[j].objectId;
      && Survives(base, edits, j, id) && revision == RevisionBefore(base, edits, j, id)
      && revision != edits[j].expectedRevision
    case SchemaMismatch(i, id, version) =>
      && i == j && !edits[j].Delete?
      && (edits[j].Update? ==> Survives(base, edits, j, edits[j].objectId))
      && var o := if edits[j].Create? then edits[j].draft else base[edits[j].objectId];
      && id == o.schemaId && version == o.schemaVersion && SchemaFor(schemas, o).None?
    case _ =>
      && !edits[j].Delete?
      && (edits[j].Update? ==> Survives(base, edits, j, edits[j].objectId))
      && var o := if edits[j].Create? then edits[j].draft
        else base[edits[j].objectId].(content := edits[j].content);
      && SchemaFor(schemas, o).Some? && Faults(SchemaFor(schemas, o).value, o.content, error)
  }

  // ----- validation accepts exactly those

  /** What the validation loop knows of an object after the first `n` edits. */
  predicate StagedObject(base: BaseState, edits: seq<Edit>, n: nat, s: Staging, id: Uuid)
    requires n <= |edits|
  {
    && !(Survives(base, edits, n, id) && CreatedBefore(edits, n, id))
    && (id in s.staged <==> Survives(base, edits, n, id) || CreatedBefore(edits, n, id))
    && (id in s.expected <==> Survives(base, edits, n, id))
    && (Survives(base, edits, n, id) ==>
      && s.expected[id] == RevisionBefore(base, edits, n, id)
      && s.staged[id].schemaId == base[id].schemaId && s.staged[id].schemaVersion == base[id].schemaVersion)
  }

  ghost predicate StagedAs(base: BaseState, edits: seq<Edit>, n: nat, s: Staging)
    requires n <= |edits|
  {
    forall id :: StagedObject(base, edits, n, s, id)
  }

  lemma {:induction false} SchemaByReference(schemas: seq<SchemaDefinition>, o: Object, p: Object)
    requires o.schemaId == p.schemaId && o.schemaVersion == p.schemaVersion
    ensures SchemaFor(schemas, o) == SchemaFor(schemas, p)
  {
    if schemas == [] {
    } else {
      SchemaByReference(schemas[1..], o, p);
    }
  }

  lemma HistoryStep(base: BaseState, edits: seq<Edit>, n: nat, id: Uuid)
    requires n < |edits|
    ensures CreatedBefore(edits, n + 1, id) <==>
      CreatedBefore(edits, n, id) || (edits[n].Create? && edits[n].draft.id == id)
    ensures Survives(base, edits, n, id) ==> id in base
    ensures Survives(base, edits, n + 1, id) <==>
      Survives(base, edits, n, id) && !(edits[n].Delete? && edits[n].objectId == id)
    ensures id in base && Updates(edits[n], id) ==>
      RevisionBefore(base, edits, n + 1, id) == WrappingInc32(RevisionBefore(base, edits, n, id))
    ensures id in base && !Updates(edits[n], id) ==>
      RevisionBefore(base, edits, n + 1, id) == RevisionBefore(base, edits, n, id)
  {
    if id in base {
      WrappingStep(base[id].revision + UpdateCount(edits, n, id));
    }
    if DeletedBefore(edits, n, id) {
      var j :| 0 <= j < n && edits[j].Delete? && edits[j].objectId == id;
      assert DeletedBefore(edits, n + 1, id);
    }
    if CreatedBefore(edits, n, id) {
      var j :| 0 <= j < n && edits[j].Create? && edits[j].draft.id == id;
      assert CreatedBefore(edits, n + 1, id);
    }
  }

  lemma ContentStep(schemas: seq<SchemaDefinition>, o: Object)
    requires SchemaFor(schemas, o).Some?
    ensures var refusal := ValidateObject(SchemaFor(schemas, o).value, o.content);
      && (refusal.None? <==> WellTyped(schemas, o))
      && (refusal.Some? ==> Faults(SchemaFor(schemas, o).value, o.content, refusal.value))
  {
    ValidationIsConformance(SchemaFor(schemas, o).value, o.content);
    if ValidateObject(SchemaFor(schemas, o).value, o.content).Some? {
      RefusalsAreJust(SchemaFor(schemas, o).value, o.content);
    }
  }

  /** One edit: it is staged exactly when it fits, and otherwise the error
      explains why. */
  lemma StageStep(
      schemas: seq<SchemaDefinition>, base: BaseState, edits: seq<Edit>, n: nat, s: Staging, now: Time)
    requires n < |edits| && StagedAs(base, edits, n, s)
    ensures var r := StageEdit(schemas, s, n, edits[n], now);
      && (r.Ok? <==> EditFits(schemas, base, edits, n))
      && (r.Err? ==> Explains(schemas, base, edits, n, r.error))
  {
    hide RevisionBefore;
    hide CreatedBefore;
    hide DeletedBefore;
    hide ValidateObject;
    hide Conforms;
    match edits[n] {
      case Create(draft) =>
        assert StagedObject(base, edits, n, s, draft.id);
        if SchemaFor(schemas, draft).Some? {
          ContentStep(schemas, draft);
        }
      case Update(id, _, content) =>
        assert StagedObject(base, edits, n, s, id);
        if id in s.staged && id in s.expected {
          var o := base[id].(content := content);
          SchemaByReference(schemas, s.staged[id], o);
          SchemaByReference(schemas, base[id], o);
          if SchemaFor(schemas, o).Some? {
            ContentStep(schemas, o);
          }
        }
      case Delete(id, _) =>
        assert StagedObject(base, edits, n, s, id);
    }
  }

  lemma StageKeeps(
      schemas: seq<SchemaDefinition>, base: BaseState, edits: seq<Edit>, n: nat, s: Staging, now: Time)
    requires n < |edits| && StagedAs(base, edits, n, s) && StageEdit(schemas, s, n, edits[n], now).Ok?
    ensures StagedAs(base, edits, n + 1, StageEdit(schemas, s, n, edits[n], now).value)
  {
    hide RevisionBefore;
    hide CreatedBefore;
    hide Survives;
    hide ValidateObject;
    var m, s' := n + 1, StageEdit(schemas, s, n, edits[n], now).value;
    forall id ensures StagedObject(base, edits, m, s', id) {
      HistoryStep(base, edits, n, id);
      assert StagedObject(base, edits, n, s, id);
    }
  }

  /** The first edit from the `n`th on that does not fit. */
  predicate FirstUnfit(schemas: seq<SchemaDefinition>, base: BaseState, edits: seq<Edit>, n: nat, j: nat)
    requires j < |edits|
  {
    !EditFits(schemas, base, edits, j) && forall i :: n <= i < j ==> EditFits(schemas, base, edits, i)
  }

  ghost predicate Reported(
      schemas: seq<SchemaDefinition>, base: BaseState, edits: seq<Edit>, n: nat, error: ContentError)
  {
    exists j :: n <= j < |edits| && FirstUnfit(schemas, base, edits, n, j) && Explains(schemas, base, edits, j, error)
  }

  /** Validation succeeds exactly when every edit fits; otherwise it reports a
      fault of the first that does not. */
  lemma {:induction false} StagesExactlyWhen(
      schemas: seq<SchemaDefinition>, base: BaseState, edits: seq<Edit>, n: nat, s: Staging, clock: Clock)
    requires n <= |edits| && StagedAs(base, edits, n, s)
    ensures var r := StageFrom(schemas, s, edits, n, clock);
      && (r.Ok? <==> forall j :: n <= j < |edits| ==> EditFits(schemas, base, edits, j))
      && (r.Err? ==> Reported(schemas, base, edits, n, r.error))
    decreases |edits| - n
  {
    hide EditFits;
    hide Explains;
    hide StagedAs;
    hide StageEdit;
    if n < |edits| {
      StageStep(schemas, base, edits, n, s, clock(n));
      var r := StageEdit(schemas, s, n, edits[n], clock(n));
      if r.Ok? {
        StageKeeps(schemas, base, edits, n, s, clock(n));
        StagesExactlyWhen(schemas, base, edits, n + 1, r.value, clock);
        ReportedBefore(schemas, base, edits, n);
      } else {
        assert FirstUnfit(schemas, base, edits, n, n);
      }
    }
  }

  lemma ReportedBefore(schemas: seq<SchemaDefinition>, base: BaseState, edits: seq<Edit>, n: nat)
    requires n < |edits| && EditFits(schemas, base, edits, n)
    ensures forall error :: Reported(schemas, base, edits, n + 1, error) ==> Reported(schemas, base, edits, n, error)
  {
    hide EditFits;
    hide Explains;
    forall error | Reported(schemas, base, edits, n + 1, error) ensures Reported(schemas, base, edits, n, error) {
      var j :| n + 1 <= j < |edits| && FirstUnfit(schemas, base, edits, n + 1, j)
        && Explains(schemas, base, edits, j, error);
      assert FirstUnfit(schemas, base, edits, n, j);
    }
  }

  lemma InitiallyStaged(base: BaseState, edits: seq<Edit>)
    ensures StagedAs(base, edits, 0, Initial(base))
  {
    forall id ensures StagedObject(base, edits, 0, Initial(base), id) {
      if id in base {
        WrappedExactlyWhen(base[id].revision);
      }
    }
  }

  /** A ChangeSet validates against a state exactly when that is the state it was
      drawn up for, contents compared up to member order, and it has edits, all of
      which fit. */
  lemma ValidatesExactlyWhen(
      codec: Codec, drawnUp: BaseState, base: BaseState, edits: seq<Edit>, schemas: seq<SchemaDefinition>, clock: Clock)
    requires Faithful(codec) && KeyedById(drawnUp) && KeyedById(base)
    requires WellFormedContents(drawnUp) && WellFormedContents(base)
    ensures Verdict(codec, DigestOf(codec, drawnUp), edits, schemas, base, clock).None? <==>
      SameState(base, drawnUp) && edits != [] && AllFit(schemas, base, edits)
  {
    hide DigestOf;
    hide SameState;
    hide EditFits;
    DigestPinsState(codec, base, drawnUp);
    InitiallyStaged(base, edits);
    StagesExactlyWhen(schemas, base, edits, 0, Initial(base), clock);
  }

  // ----- what application leaves

  /** A base object after the first `n` edits: the content of its last update, a
      revision for every update, and otherwise as it was. */
  function Rewritten(o: Object, edits: seq<Edit>, n: nat, clock: Clock, id: Uuid): Object
    requires n <= |edits|
  {
    match LastUpdate(edits, n, id)
    case None => o
    case Some(j) =>
      o.(content := edits[j].content, updatedAt := clock(j),
         revision := Wrapped32(o.revision + UpdateCount(edits, n, id)))
  }

  /** What the state holds under an id after the first `n` edits: a surviving base
      object rewritten, a created one as drafted but committed, or nothing. */
  predicate AppliedObject(base: BaseState, edits: seq<Edit>, n: nat, clock: Clock, state: BaseState, id: Uuid)
    requires n <= |edits|
  {
    && !(Survives(base, edits, n, id) && CreatedBefore(edits, n, id))
    && (id in state <==> Survives(base, edits, n, id) || CreatedBefore(edits, n, id))
    && (Survives(base, edits, n, id) ==> state[id] == Rewritten(base[id], edits, n, clock, id))
    && (forall j :: 0 <= j < n && edits[j].Create? && edits[j].draft.id == id ==>
      id in state && state[id] == edits[j].draft.(status := ObjectStatus.Committed, updatedAt := clock(j)))
  }

  ghost predicate AppliedAs(base: BaseState, edits: seq<Edit>, n: nat, clock: Clock, state: BaseState)
    requires n <= |edits|
  {
    forall id :: AppliedObject(base, edits, n, clock, state, id)
  }

  lemma RewrittenStep(base: BaseState, edits: seq<Edit>, n: nat, clock: Clock, id: Uuid)
    requires n < |edits| && id in base
    ensures Rewritten(base[id], edits, n + 1, clock, id)
      == var before := Rewritten(base[id], edits, n, clock, id);
         if Updates(edits[n], id) then
           before.(content := edits[n].content, updatedAt := clock(n), revision := WrappingInc32(before.revision))
         else before
  {
    WrappingStep(base[id].revision + UpdateCount(edits, n, id));
    if LastUpdate(edits, n, id).None? {
      NoUpdatesCounted(edits, n, id);
      WrappedExactlyWhen(base[id].revision);
    }
  }

  lemma {:induction false} NoUpdatesCounted(edits: seq<Edit>, n: nat, id: Uuid)
    requires n <= |edits| && LastUpdate(edits, n, id).None?
    ensures UpdateCount(edits, n, id) == 0
  {
    if n == 0 {
    } else {
      NoUpdatesCounted(edits, n - 1, id);
    }
  }

  lemma CreatedWitness(edits: seq<Edit>, n: nat, j: nat)
    requires j < n <= |edits| && edits[j].Create?
    ensures CreatedBefore(edits, n, edits[j].draft.id)
  {
  }

  lemma ApplyStep(
      schemas: seq<SchemaDefinition>, base: BaseState, edits: seq<Edit>, n: nat, state: BaseState, clock: Clock)
    requires n < |edits| && AppliedAs(base, edits, n, clock, state) && EditFits(schemas, base, edits, n)
    ensures var r := ApplyEdit(state, edits[n], clock(n));
      r.Ok? && AppliedAs(base, edits, n + 1, clock, r.value)
  {
    hide RevisionBefore;
    hide CreatedBefore;
    hide Survives;
    hide WellTyped;
    hide Rewritten;
    var target := if edits[n].Create? then edits[n].draft.id else edits[n].objectId;
    assert AppliedObject(base, edits, n, clock, state, target);
    var m, state' := n + 1, ApplyEdit(state, edits[n], clock(n)).value;
    forall id ensures AppliedObject(base, edits, m, clock, state', id) {
      HistoryStep(base, edits, n, id);
      assert AppliedObject(base, edits, n, clock, state, id);
      if id in base {
        RewrittenStep(base, edits, n, clock, id);
      }
      forall j | 0 <= j < n && edits[j].Create? {
        CreatedWitness(edits, n, j);
      }
    }
  }

  lemma {:induction false} AppliesExactly(
      schemas: seq<SchemaDefinition>, base: BaseState, edits: seq<Edit>, n: nat, state: BaseState, clock: Clock)
    requires n <= |edits| && AppliedAs(base, edits, n, clock, state)
    requires forall j :: n <= j < |edits| ==> EditFits(schemas, base, edits, j)
    ensures var r := ApplyFrom(state, edits, n, clock);
      r.Ok? && AppliedAs(base, edits, |edits|, clock, r.value)
    decreases |edits| - n
  {
    hide AppliedAs;
    hide EditFits;
    hide ApplyEdit;
    if n < |edits| {
      ApplyStep(schemas, base, edits, n, state, clock);
      AppliesExactly(schemas, base, edits, n + 1, ApplyEdit(state, edits[n], clock(n)).value, clock);
    }
  }

  /** Whatever validated is applied, and leaves exactly the objects the base and
      the edits determine. */
  lemma CommitIsExactly(
      schemas: seq<SchemaDefinition>, base: BaseState, edits: seq<Edit>, validating: Clock, applying: Clock)
    requires StageFrom(schemas, Initial(base), edits, 0, validating).Ok?
    ensures var r := ApplyFrom(base, edits, 0, applying);
      r.Ok? && AppliedAs(base, edits, |edits|, applying, r.value)
  {
    InitiallyStaged(base, edits);
    hide EditFits;
    StagesExactlyWhen(schemas, base, edits, 0, Initial(base), validating);
    AppliesExactly(schemas, base, edits, 0, base, applying);
  }

  predicate Names(edit: Edit, id: Uuid) {
    if edit.Create? then edit.draft.id == id else edit.objectId == id
  }

  /** After a commit an object never deleted holds the content of its last update
      and is otherwise the base object; a deleted one is gone unless created
      again; and one that no edit names is untouched. */
  lemma CommittedContents(
      schemas: seq<SchemaDefinition>, base: BaseState, edits: seq<Edit>, validating: Clock, applying: Clock, id: Uuid)
    requires StageFrom(schemas, Initial(base), edits, 0, validating).Ok?
    ensures ApplyFrom(base, edits, 0, applying).Ok?
    ensures var n, state := |edits|, ApplyFrom(base, edits, 0, applying).value;
      && (Survives(base, edits, n, id) ==>
        && id in state
        && state[id].content == (if LastUpdate(edits, n, id).Some? then edits[LastUpdate(edits, n, id).value].content
                                 else base[id].content)
        && state[id].(content := Null, revision := 0, updatedAt := 0)
          == base[id].(content := Null, revision := 0, updatedAt := 0))
      && (DeletedBefore(edits, n, id) && !CreatedBefore(edits, n, id) ==> id !in state)
      && ((forall j :: 0 <= j < n ==> !Names(edits[j], id)) ==>
        (id in state <==> id in base) && (id in base ==> state[id] == base[id]))
  {
    CommitIsExactly(schemas, base, edits, validating, applying);
    assert AppliedObject(base, edits, |edits|, applying, ApplyFrom(base, edits, 0, applying).value, id);
  }

  /** A revision counts the updates exactly when their sum fits in 32 bits. */
  lemma CommitCountsRevisions(
      schemas: seq<SchemaDefinition>, base: BaseState, edits: seq<Edit>, validating: Clock, applying: Clock, id: Uuid)
    requires StageFrom(schemas, Initial(base), edits, 0, validating).Ok? && Survives(base, edits, |edits|, id)
    ensures ApplyFrom(base, edits, 0, applying).Ok? && id in ApplyFrom(base, edits, 0, applying).value
    ensures
      var o := ApplyFrom(base, edits, 0, applying).value[id];
      var sum := base[id].revision + UpdateCount(edits, |edits|, id);
      o.revision == Wrapped32(sum) && (o.revision == sum <==> sum <= U32_MAX)
  {
    hide StageFrom;
    hide ApplyFrom;
    hide Wrapped32;
    CommitIsExactly(schemas, base, edits, validating, applying);
    assert AppliedObject(base, edits, |edits|, applying, ApplyFrom(base, edits, 0, applying).value, id);
    WrappedExactlyWhen(base[id].revision + UpdateCount(edits, |edits|, id));
    if LastUpdate(edits, |edits|, id).None? {
      NoUpdatesCounted(edits, |edits|, id);
    }
  }

  /** Committing a validated ChangeSet keeps every object within its schema. */
  lemma CommitPreservesTyping(
      schemas: seq<SchemaDefinition>, base: BaseState, edits: seq<Edit>, validating: Clock, applying: Clock)
    requires forall id :: id in base ==> WellTyped(schemas, base[id])
    requires StageFrom(schemas, Initial(base), edits, 0, validating).Ok?
    ensures ApplyFrom(base, edits, 0, applying).Ok?
    ensures var state := ApplyFrom(base, edits, 0, applying).value;
      forall id :: id in state ==> WellTyped(schemas, state[id])
  {
    CommitIsExactly(schemas, base, edits, validating, applying);
    InitiallyStaged(base, edits);
    StagesExactlyWhen(schemas, base, edits, 0, Initial(base), validating);
    var state := ApplyFrom(base, edits, 0, applying).value;
    forall id | id in state ensures WellTyped(schemas, state[id]) {
      AppliedIsTyped(schemas, base, edits, applying, state, id);
    }
  }

  lemma AppliedIsTyped(
      schemas: seq<SchemaDefinition>, base: BaseState, edits: seq<Edit>, clock: Clock, state: BaseState, id: Uuid)
    requires AllFit(schemas, base, edits) && AppliedAs(base, edits, |edits|, clock, state) && id in state
    requires id in base ==> WellTyped(schemas, base[id])
    ensures WellTyped(schemas, state[id])
  {
    assert AppliedObject(base, edits, |edits|, clock, state, id);
    if Survives(base, edits, |edits|, id) {
      var last := LastUpdate(edits, |edits|, id);
      if last.Some? {
        assert EditFits(schemas, base, edits, last.value);
        SchemaByReference(schemas, base[id].(content := edits[last.value].content), state[id]);
      }
    } else {
      var j :| 0 <= j < |edits| && edits[j].Create? && edits[j].draft.id == id;
      assert EditFits(schemas, base, edits, j);
      SchemaByReference(schemas, edits[j].draft, state[id]);
    }
  }

  // ----- the life of a ChangeSet

  predicate Moves(path: seq<ChangeSetStatus>) {
    forall i :: 0 < i < |path| ==> CanMove(path[i - 1], path[i])
  }

  /** From a draft a ChangeSet is submitted, then rejected for good, or approved and
      then committed for good; it has no other life. */
  lemma LifeOfAChangeSet(path: seq<ChangeSetStatus>)
    requires path != [] && path[0] == ChangeSetStatus.Draft
    ensures Moves(path) <==>
      || path <= [ChangeSetStatus.Draft, ChangeSetStatus.Submitted, ChangeSetStatus.Approved, ChangeSetStatus.Committed]
      || path <= [ChangeSetStatus.Draft, ChangeSetStatus.Submitted, Rejected]
  {
    if Moves(path) {
      assert |path| > 1 ==> CanMove(path[0], path[1]);
      assert |path| > 2 ==> CanMove(path[1], path[2]);
      assert |path| > 3 ==> CanMove(path[2], path[3]);
      assert |path| > 4 ==> CanMove(path[3], path[4]);
    }
  }
}
