/** ChangeSets as objects: the loops that validate and apply their edits, and the
    commit that replaces the content store or changes nothing. */
module ChangeSetService {
  import opened Prelude
  import opened Json
  import opened Content
  import opened StateText
  import opened ChangeSets
  import opened ChangeSetTheorems

  /** The mutable store a commit replaces. */
  class ContentStore {
    var objects: BaseState

    constructor (objects: BaseState)
      ensures this.objects == objects
    {
      this.objects := objects;
    }
  }

  class ChangeSet {
    const id: Uuid
    const codec: Codec
    const baseStateDigest: StateDigest
    const edits: seq<Edit>
    const createdAt: Time
    var status: ChangeSetStatus

    constructor (codec: Codec, id: Uuid, base: BaseState, edits: seq<Edit>, now: Time)
      ensures this.codec == codec && this.id == id && this.edits == edits
      ensures baseStateDigest == DigestOf(codec, base)
      ensures status == ChangeSetStatus.Draft
    {
      this.id := id;
      this.codec := codec;
      this.baseStateDigest := DigestOf(codec, base);
      this.edits := edits;
      this.createdAt := now;
      this.status := ChangeSetStatus.Draft;
    }

    method TransitionTo(next: ChangeSetStatus) returns (moved: bool)
      modifies this
      ensures moved <==> CanMove(old(status), next)
      ensures status == if moved then next else old(status)
    {
      if !CanMove(status, next) {
        return false;
      }
      status := next;
      return true;
    }

    static method CheckCreate(
        schemas: seq<SchemaDefinition>, staged: BaseState, expected: map<Uuid, u32>, i: nat, draft: Object, now: Time)
      returns (problem: Option<ContentError>)
      ensures StageEdit(schemas, Staging(staged, expected), i, Create(draft), now)
           == if problem.Some? then Err(problem.value) else Ok(Staging(staged[draft.id := draft], expected))
    {
      if draft.id in staged {
        return Some(InvalidEdit(i));
      }
      var schema := SchemaFor(schemas, draft);
      if schema.None? {
        return Some(SchemaMismatch(i, draft.schemaId, draft.schemaVersion));
      }
      problem := ValidateObject(schema.value, draft.content);
      if problem.None? && draft.status != ObjectStatus.Draft {
        return Some(InvalidEdit(i));
      }
    }

    static method CheckUpdate(
        schemas: seq<SchemaDefinition>, staged: BaseState, expected: map<Uuid, u32>, i: nat,
        id: Uuid, expectedRevision: u32, content: Value, now: Time)
      returns (problem: Option<ContentError>)
      ensures problem.None? ==> id in staged && id in expected
      ensures StageEdit(schemas, Staging(staged, expected), i, Update(id, expectedRevision, content), now)
           == if problem.Some? then Err(problem.value)
              else Ok(Staging(staged[id := Revise(staged[id], content, now)],
                expected[id := WrappingInc32(expected[id])]))
    {
      if id !in expected {
        return Some(MissingBaseObject(id));
      }
      if expected[id] != expectedRevision {
        return Some(EditTargetMismatch(i, expected[id]));
      }
      if id !in staged {
        return Some(MissingBaseObject(id));
      }
      var schema := SchemaFor(schemas, staged[id]);
      if schema.None? {
        return Some(SchemaMismatch(i, staged[id].schemaId, staged[id].schemaVersion));
      }
      problem := ValidateObject(schema.value, content);
    }

    static method CheckDelete(
        schemas: seq<SchemaDefinition>, staged: BaseState, expected: map<Uuid, u32>, i: nat,
        id: Uuid, expectedRevision: u32, now: Time)
      returns (problem: Option<ContentError>)
      ensures StageEdit(schemas, Staging(staged, expected), i, Delete(id, expectedRevision), now)
           == if problem.Some? then Err(problem.value) else Ok(Staging(staged - {id}, expected - {id}))
    {
      if id !in expected {
        return Some(MissingBaseObject(id));
      }
      if expected[id] != expectedRevision {
        return Some(EditTargetMismatch(i, expected[id]));
      }
      if id !in staged {
        return Some(MissingBaseObject(id));
      }
      return None;
    }

    method Validate(
        schemas: seq<SchemaDefinition>, base: BaseState, clock: Clock)
      returns (refusal: Option<ContentError>)
      ensures refusal == Verdict(codec, baseStateDigest, edits, schemas, base, clock)
    {
      if DigestOf(codec, base) != baseStateDigest {
        return Some(BaseStateMismatch);
      }
      if edits == [] {
        return Some(EmptyChangeset);
      }
      refusal := ValidateEdits(schemas, base, clock);
    }

    method ValidateEdits(schemas: seq<SchemaDefinition>, base: BaseState, clock: Clock)
      returns (refusal: Option<ContentError>)
      ensures var staging := StageFrom(schemas, Initial(base), edits, 0, clock);
        refusal == if staging.Ok? then None else Some(staging.error)
    {
      var expected := map id | id in base :: base[id].revision;
      var staged := base;
      for i := 0 to |edits|
        invariant StageFrom(schemas, Initial(base), edits, 0, clock)
               == StageFrom(schemas, Staging(staged, expected), edits, i, clock)
      {
        var problem;
        match edits[i] {
          case Create(draft) =>
            problem := CheckCreate(schemas, staged, expected, i, draft, clock(i));
            if problem.Some? {
              return problem;
            }
            staged := staged[draft.id := draft];
          case Update(id, expectedRevision, content) =>
            problem := CheckUpdate(schemas, staged, expected, i, id, expectedRevision, content, clock(i));
            if problem.Some? {
              return problem;
            }
            staged := staged[id := Revise(staged[id], content, clock(i))];
            expected := expected[id := WrappingInc32(expected[id])];
          case Delete(id, expectedRevision) =>
            problem := CheckDelete(schemas, staged, expected, i, id, expectedRevision, clock(i));
            if problem.Some? {
              return problem;
            }
            expected := expected - {id};
            staged := staged - {id};
        }
      }
      return None;
    }

    method Apply(state: BaseState, clock: Clock) returns (r: Result<BaseState, ContentError>)
      ensures r == ApplyFrom(state, edits, 0, clock)
    {
      var next := state;
      for i := 0 to |edits|
        invariant ApplyFrom(state, edits, 0, clock) == ApplyFrom(next, edits, i, clock)
      {
        match edits[i] {
          case Create(draft) =>
            var committed := Advance(draft, clock(i));
            if committed.Err? {
              return Err(committed.error);
            }
            next := next[committed.value.id := committed.value];
          case Update(id, _, content) =>
            if id !in next {
              return Err(MissingBaseObject(id));
            }
            next := next[id := Revise(next[id], content, clock(i))];
          case Delete(id, _) =>
            if id !in next {
              return Err(MissingBaseObject(id));
            }
            next := next - {id};
        }
      }
      return Ok(next);
    }

    /** All or nothing: either the store holds the applied state and the
        ChangeSet is committed, or neither has changed.  An approved ChangeSet
        that validates always commits. */
    method Commit(schemas: seq<SchemaDefinition>, store: ContentStore, validating: Clock, applying: Clock)
      returns (refusal: Option<ContentError>)
      modifies this, store
      ensures refusal.None? <==>
        && Verdict(codec, baseStateDigest, edits, schemas, old(store.objects), validating).None?
        && old(status) == ChangeSetStatus.Approved
      ensures refusal.None? ==>
        && status == ChangeSetStatus.Committed
        && ApplyFrom(old(store.objects), edits, 0, applying) == Ok(store.objects)
        && AppliedAs(old(store.objects), edits, |edits|, applying, store.objects)
      ensures refusal.Some? ==> status == old(status) && store.objects == old(store.objects)
    {
      refusal := Validate(schemas, store.objects, validating);
      if refusal.Some? {
        return;
      }
      if status != ChangeSetStatus.Approved {
        return Some(ChangesetNotApproved);
      }
      CommitIsExactly(schemas, store.objects, edits, validating, applying);
      var candidate := store.objects;
      var result := Apply(candidate, applying);
      store.objects := result.value;
      status := ChangeSetStatus.Committed;
      return None;
    }
  }
}
