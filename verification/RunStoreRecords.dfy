/** Runs, steps, events and checkpoints over time: revisions without gaps or lost
    updates, write-once records, and approvals that bind one step for good. */
module RunStoreRecords {
  import opened Prelude
  import opened AgentModel
  import opened RunStore

  // ----- one record over time

  /** What the store holds under one id, after each number of calls. */
  type Trail<T> = seq<Option<T>>

  /** Nothing becomes a first version, no later than `latest`; something stays or
      becomes its next revision. */
  predicate AdvancesTo<T(==)>(before: Option<T>, after: Option<T>, revision: T -> nat, latest: nat) {
    if before.None? then after.Some? ==> revision(after.value) <= latest
    else after.Some? && (after == before || revision(after.value) == revision(before.value) + 1)
  }

  predicate Advancing<T(==)>(trail: Trail<T>, revision: T -> nat, latest: nat) {
    && trail != [] && trail[0].None?
    && forall k :: 0 < k < |trail| ==> AdvancesTo(trail[k - 1], trail[k], revision, latest)
  }

  lemma {:induction false} Ordered<T>(trail: Trail<T>, revision: T -> nat, latest: nat, i: nat, j: nat)
    requires Advancing(trail, revision, latest) && i <= j < |trail| && trail[i].Some?
    ensures trail[j].Some? && revision(trail[i].value) <= revision(trail[j].value)
    ensures revision(trail[i].value) == revision(trail[j].value) ==> trail[i] == trail[j]
    decreases j - i
  {
    if i == j {
    } else {
      Ordered(trail, revision, latest, i, j - 1);
      assert AdvancesTo(trail[j - 1], trail[j], revision, latest);
    }
  }

  /** A version with that revision was held by then. */
  predicate HeldBy<T>(trail: Trail<T>, revision: T -> nat, n: nat, j: nat)
    requires j < |trail|
  {
    exists k :: 0 <= k <= j && trail[k].Some? && revision(trail[k].value) == n
  }

  lemma {:induction false} NoGaps<T>(trail: Trail<T>, revision: T -> nat, latest: nat, j: nat, n: nat)
    requires Advancing(trail, revision, latest) && j < |trail| && trail[j].Some?
    requires latest <= n <= revision(trail[j].value)
    ensures HeldBy(trail, revision, n, j)
  {
    if revision(trail[j].value) != n {
      assert AdvancesTo(trail[j - 1], trail[j], revision, latest);
      NoGaps(trail, revision, latest, j - 1, n);
    }
  }

  predicate NeverBack<T(==)>(trail: Trail<T>, revision: T -> nat) {
    forall i, j :: 0 <= i <= j < |trail| && trail[i].Some? ==>
      && trail[j].Some? && revision(trail[i].value) <= revision(trail[j].value)
      && (revision(trail[i].value) == revision(trail[j].value) ==> trail[i] == trail[j])
  }

  ghost predicate Gapless<T>(trail: Trail<T>, revision: T -> nat, from: nat) {
    forall j, n: nat :: 0 <= j < |trail| && trail[j].Some? && from <= n <= revision(trail[j].value) ==>
      HeldBy(trail, revision, n, j)
  }

  /** A record is never lost, its revision never goes back, a revision stands for one
      value for good, and none is skipped. */
  ghost predicate Versioned<T>(trail: Trail<T>, revision: T -> nat, latest: nat) {
    NeverBack(trail, revision) && Gapless(trail, revision, latest)
  }

  lemma AdvancingIsVersioned<T>(trail: Trail<T>, revision: T -> nat, latest: nat)
    requires Advancing(trail, revision, latest)
    ensures Versioned(trail, revision, latest)
  {
    forall i, j | 0 <= i <= j < |trail| && trail[i].Some?
      ensures trail[j].Some? && revision(trail[i].value) <= revision(trail[j].value)
      ensures revision(trail[i].value) == revision(trail[j].value) ==> trail[i] == trail[j]
    {
      Ordered(trail, revision, latest, i, j);
    }
    forall j, n: nat | 0 <= j < |trail| && trail[j].Some? && latest <= n <= revision(trail[j].value)
      ensures HeldBy(trail, revision, n, j)
    {
      NoGaps(trail, revision, latest, j, n);
    }
  }

  /** Once there, a record never changes. */
  predicate WrittenOnce<T(==)>(trail: Trail<T>) {
    forall i, j :: 0 <= i <= j < |trail| && trail[i].Some? ==> trail[j] == trail[i]
  }

  lemma {:induction false} StaysWritten<T>(trail: Trail<T>, i: nat, j: nat)
    requires forall k :: 0 < k < |trail| ==> trail[k - 1].None? || trail[k] == trail[k - 1]
    requires i <= j < |trail| && trail[i].Some?
    ensures trail[j] == trail[i]
    decreases j - i
  {
    if i == j {
    } else {
      StaysWritten(trail, i, j - 1);
    }
  }

  // ----- trails of the store

  function Held<T>(records: map<Uuid, T>, id: Uuid): Option<T> {
    if id in records then Some(records[id]) else None
  }

  /** The store after the first `k` calls of a run from the empty store. */
  ghost function StoreAt(lib: Library, ops: seq<Op>, k: nat): Store
    requires k <= |ops|
  {
    After(lib, EMPTY, ops[..k])
  }

  lemma {:induction false} AfterOneMore(lib: Library, s: Store, ops: seq<Op>, op: Op)
    ensures After(lib, s, ops + [op]) == Exec(lib, After(lib, s, ops), op)
    decreases |ops|
  {
    hide Exec;
    if ops == [] {
      assert (ops + [op])[1..] == [];
      assert After(lib, s, ops + [op]) == After(lib, Exec(lib, s, op), []);
    } else {
      assert (ops + [op])[1..] == ops[1..] + [op];
      AfterOneMore(lib, Exec(lib, s, ops[0]), ops[1..], op);
    }
  }

  lemma StoreSteps(lib: Library, ops: seq<Op>, k: nat)
    requires k < |ops|
    ensures StoreAt(lib, ops, k + 1) == Exec(lib, StoreAt(lib, ops, k), ops[k])
  {
    assert ops[..k + 1] == ops[..k] + [ops[k]];
    AfterOneMore(lib, EMPTY, ops[..k], ops[k]);
  }

  ghost function StepTrail(lib: Library, ops: seq<Op>, id: Uuid): Trail<AgentRunStep> {
    seq(|ops| + 1, k requires 0 <= k <= |ops| => Held(StoreAt(lib, ops, k).steps, id))
  }

  ghost function RunTrail(lib: Library, ops: seq<Op>, id: Uuid): Trail<AgentRun> {
    seq(|ops| + 1, k requires 0 <= k <= |ops| => Held(StoreAt(lib, ops, k).runs, id))
  }

  ghost function EventTrail(lib: Library, ops: seq<Op>, id: Uuid): Trail<AgentRunEvent> {
    seq(|ops| + 1, k requires 0 <= k <= |ops| => Held(StoreAt(lib, ops, k).events, id))
  }

  ghost function CheckpointTrail(lib: Library, ops: seq<Op>, id: Uuid): Trail<AgentCheckpoint> {
    seq(|ops| + 1, k requires 0 <= k <= |ops| => Held(StoreAt(lib, ops, k).checkpoints, id))
  }

  lemma ExecAdvancesSteps(lib: Library, s: Store, op: Op, id: Uuid)
    ensures AdvancesTo(Held(s.steps, id), Held(Exec(lib, s, op).steps, id), StepRevision, 0)
  {
    hide ValidBundle;
    hide Append;
  }

  lemma ExecAdvancesRuns(lib: Library, s: Store, op: Op, id: Uuid)
    ensures AdvancesTo(Held(s.runs, id), Held(Exec(lib, s, op).runs, id), RunRevision, 1)
  {
    hide ValidEnvelope;
    hide Intact;
    hide Append;
  }

  lemma ExecKeepsEvents(lib: Library, s: Store, op: Op, id: Uuid)
    requires id in s.events
    ensures Held(Exec(lib, s, op).events, id) == Held(s.events, id)
  {
    hide ValidBundle;
    hide Append;
  }

  lemma ExecKeepsCheckpoints(lib: Library, s: Store, op: Op, id: Uuid)
    requires id in s.checkpoints
    ensures Held(Exec(lib, s, op).checkpoints, id) == Held(s.checkpoints, id)
  {
    hide ValidBundle;
    hide Intact;
    hide Latest;
    hide CheckpointAt;
  }

  /** Over every run of the store, the revisions of a step are 0, 1, 2 and so on, each
      standing for one value for good. */
  lemma StepsAreVersioned(lib: Library, ops: seq<Op>, id: Uuid)
    ensures Versioned(StepTrail(lib, ops, id), StepRevision, 0)
  {
    hide Exec;
    var trail := StepTrail(lib, ops, id);
    forall k | 0 < k < |trail| ensures AdvancesTo(trail[k - 1], trail[k], StepRevision, 0) {
      StoreSteps(lib, ops, k - 1);
      ExecAdvancesSteps(lib, StoreAt(lib, ops, k - 1), ops[k - 1], id);
    }
    AdvancingIsVersioned(trail, StepRevision, 0);
  }

  /** So are those of a run; a claimed one begins at 1. */
  lemma RunsAreVersioned(lib: Library, ops: seq<Op>, id: Uuid)
    ensures Versioned(RunTrail(lib, ops, id), RunRevision, 1)
  {
    hide Exec;
    var trail := RunTrail(lib, ops, id);
    forall k | 0 < k < |trail| ensures AdvancesTo(trail[k - 1], trail[k], RunRevision, 1) {
      StoreSteps(lib, ops, k - 1);
      ExecAdvancesRuns(lib, StoreAt(lib, ops, k - 1), ops[k - 1], id);
    }
    AdvancingIsVersioned(trail, RunRevision, 1);
  }

  /** Over every run of the store, events and checkpoints never change. */
  lemma EventsAreWrittenOnce(lib: Library, ops: seq<Op>, id: Uuid)
    ensures WrittenOnce(EventTrail(lib, ops, id))
    ensures WrittenOnce(CheckpointTrail(lib, ops, id))
  {
    hide Exec;
    var events, checkpoints := EventTrail(lib, ops, id), CheckpointTrail(lib, ops, id);
    forall k | 0 < k <= |ops|
      ensures events[k - 1].None? || events[k] == events[k - 1]
      ensures checkpoints[k - 1].None? || checkpoints[k] == checkpoints[k - 1]
    {
      StoreSteps(lib, ops, k - 1);
      if events[k - 1].Some? {
        ExecKeepsEvents(lib, StoreAt(lib, ops, k - 1), ops[k - 1], id);
      }
      if checkpoints[k - 1].Some? {
        ExecKeepsCheckpoints(lib, StoreAt(lib, ops, k - 1), ops[k - 1], id);
      }
    }
    forall i, j | 0 <= i <= j < |events| && events[i].Some? ensures events[j] == events[i] {
      StaysWritten(events, i, j);
    }
    forall i, j | 0 <= i <= j < |checkpoints| && checkpoints[i].Some? ensures checkpoints[j] == checkpoints[i] {
      StaysWritten(checkpoints, i, j);
    }
  }

  // ----- which saves succeed

  /** The value a record may take next: the one it has, or its next revision. */
  predicate MaySave<T(==)>(held: Option<T>, value: T, revision: T -> nat) {
    if held.None? then revision(value) == 0
    else held.value == value || (revision(value) == revision(held.value) + 1 && revision(held.value) < U64_MAX)
  }

  lemma SavesExactlyWhen<T>(records: map<Uuid, T>, id: Uuid, value: T, revision: T -> nat)
    ensures var r := SaveVersioned(records, id, value, revision);
      && (r.Ok? <==> MaySave(Held(records, id), value, revision))
      && (r.Ok? ==> r.value == records[id := value])
  {
    if id in records && records[id] == value {
      assert records[id := value] == records;
    }
  }

  /** A step is saved exactly when it is the stored one or its next revision, keeps
      the approval it is bound to, and takes no other step's. */
  lemma StepSavesExactlyWhen(steps: map<Uuid, AgentRunStep>, step: AgentRunStep)
    requires forall k :: k in steps ==> steps[k].id == k
    ensures var r := SaveStep(steps, step);
      && (r.Ok? <==>
        && MaySave(Held(steps, step.id), step, StepRevision)
        && (step.id in steps && steps[step.id].approvalRequestId.Some? ==>
          step.approvalRequestId == steps[step.id].approvalRequestId)
        && (step.approvalRequestId.Some? ==> forall k :: k in steps && k != step.id ==>
          steps[k].approvalRequestId != step.approvalRequestId))
      && (r.Ok? ==> r.value == steps[step.id := step])
  {
    SavesExactlyWhen(steps, step.id, step, StepRevision);
  }

  /** An event is saved exactly when it is stored already, or neither its id nor its
      place in the run is taken. */
  lemma EventSavesExactlyWhen(events: map<Uuid, AgentRunEvent>, e: AgentRunEvent)
    requires DistinctPlaces(events)
    ensures var r := SaveEvent(events, e);
      && (r.Ok? <==>
        || Held(events, e.id) == Some(e)
        || (e.id !in events && forall k :: k in events ==>
          !(events[k].runId == e.runId && events[k].sequence == e.sequence)))
      && (r.Ok? ==> r.value == events[e.id := e])
  {
    if e.id in events && events[e.id] == e {
      assert events[e.id := e] == events;
    }
  }

  /** No two checkpoints of a run share a sequence, and each is filed under its
      id; every write of the store keeps this. */
  predicate UniqueSequences(m: map<Uuid, AgentCheckpoint>) {
    && (forall k :: k in m ==> m[k].id == k)
    && (forall j, k :: j in m && k in m && j != k && m[j].runId == m[k].runId ==> m[j].sequence != m[k].sequence)
  }

  /** A checkpoint is saved directly exactly when it is stored already, or neither
      its id nor its number in the run is taken. */
  lemma CheckpointSavesExactlyWhen(checkpoints: map<Uuid, AgentCheckpoint>, c: AgentCheckpoint)
    requires UniqueSequences(checkpoints)
    ensures var r := SaveCheckpoint(checkpoints, c);
      && (r.Ok? <==>
        || Held(checkpoints, c.id) == Some(c)
        || (c.id !in checkpoints && forall k :: k in checkpoints ==>
          !(checkpoints[k].runId == c.runId && checkpoints[k].sequence == c.sequence)))
      && (r.Ok? ==> r.value == checkpoints[c.id := c])
  {
    if c.id in checkpoints && checkpoints[c.id] == c {
      assert checkpoints[c.id := c] == checkpoints;
    }
  }

  /** Filed by id, and no two events at one place of a run. */
  predicate DistinctPlaces(events: map<Uuid, AgentRunEvent>) {
    && (forall k :: k in events ==> events[k].id == k)
    && (forall j, k :: j in events && k in events && j != k ==>
      !(events[j].runId == events[k].runId && events[j].sequence == events[k].sequence))
  }

  lemma ExecKeepsPlaces(lib: Library, s: Store, op: Op)
    requires DistinctPlaces(s.events)
    ensures DistinctPlaces(Exec(lib, s, op).events)
  {
    hide Append;
    hide ValidBundle;
    if op.ClaimOp? && ValidBundle(lib, op.claim, op.initialRun, op.first, op.started) {
      BundleEvent(lib, op.claim, op.initialRun, op.first, op.started);
    }
  }

  lemma BundleEvent(lib: Library, claim: Claim, run: AgentRun, c: AgentCheckpoint, e: AgentRunEvent)
    requires ValidBundle(lib, claim, run, c, e)
    ensures e.runId == run.id && e.sequence == 0
  {
  }

  /** Over every run of the store, a place in a run's log of events is taken once. */
  lemma {:induction false} PlacesStayDistinct(lib: Library, s: Store, ops: seq<Op>)
    requires DistinctPlaces(s.events)
    ensures DistinctPlaces(After(lib, s, ops).events)
    decreases |ops|
  {
    hide DistinctPlaces;
    hide Exec;
    if ops == [] {
    } else {
      ExecKeepsPlaces(lib, s, ops[0]);
      PlacesStayDistinct(lib, Exec(lib, s, ops[0]), ops[1..]);
    }
  }

  // ----- no lost updates

  /** Call `j` of a run from the empty store saves a step, and succeeds. */
  ghost predicate SavesStep(lib: Library, ops: seq<Op>, j: nat) {
    j < |ops| && ops[j].SaveStepOp? && SaveStep(StoreAt(lib, ops, j).steps, ops[j].step).Ok?
  }

  ghost predicate SavesRun(lib: Library, ops: seq<Op>, j: nat) {
    && j < |ops| && ops[j].SaveRunOp?
    && SaveVersioned(StoreAt(lib, ops, j).runs, ops[j].run.id, ops[j].run, RunRevision).Ok?
  }

  /** The value is held at that moment, and is the only one its revision ever
      stands for. */
  ghost predicate Stands<T>(trail: Trail<T>, revision: T -> nat, value: T, j: nat)
    requires j < |trail|
  {
    && trail[j] == Some(value)
    && forall k :: 0 <= k < |trail| && trail[k].Some? && revision(trail[k].value) == revision(value) ==>
      trail[k].value == value
  }

  lemma HeldStands<T>(trail: Trail<T>, revision: T -> nat, latest: nat, value: T, j: nat)
    requires Versioned(trail, revision, latest) && j < |trail| && trail[j] == Some(value)
    ensures Stands(trail, revision, value, j)
  {
    hide Gapless;
    forall k | 0 <= k < |trail| && trail[k].Some? && revision(trail[k].value) == revision(value)
      ensures trail[k].value == value
    {
      assert if k <= j then trail[k] == trail[j] else trail[j] == trail[k];
    }
  }

  /** Every save of a step that succeeds is, for good, the version its revision
      names. */
  lemma SavedStepIsItsVersion(lib: Library, ops: seq<Op>, j: nat)
    requires SavesStep(lib, ops, j)
    ensures Stands(StepTrail(lib, ops, ops[j].step.id), StepRevision, ops[j].step, j + 1)
  {
    var step := ops[j].step;
    StoreSteps(lib, ops, j);
    SavesExactlyWhen(StoreAt(lib, ops, j).steps, step.id, step, StepRevision);
    StepsAreVersioned(lib, ops, step.id);
    HeldStands(StepTrail(lib, ops, step.id), StepRevision, 0, step, j + 1);
  }

  lemma SavedRunIsItsVersion(lib: Library, ops: seq<Op>, j: nat)
    requires SavesRun(lib, ops, j)
    ensures Stands(RunTrail(lib, ops, ops[j].run.id), RunRevision, ops[j].run, j + 1)
  {
    var run := ops[j].run;
    StoreSteps(lib, ops, j);
    SavesExactlyWhen(StoreAt(lib, ops, j).runs, run.id, run, RunRevision);
    RunsAreVersioned(lib, ops, run.id);
    HeldStands(RunTrail(lib, ops, run.id), RunRevision, 1, run, j + 1);
  }

  /** One winner per revision: of the saves of a step under one revision, at
      whatever times, all that succeed saved the same value. */
  lemma OneWinnerPerRevision(lib: Library, ops: seq<Op>, j: nat, k: nat)
    requires SavesStep(lib, ops, j) && SavesStep(lib, ops, k)
    requires ops[j].step.id == ops[k].step.id && ops[j].step.revision == ops[k].step.revision
    ensures ops[j].step == ops[k].step
  {
    SavedStepIsItsVersion(lib, ops, j);
    SavedStepIsItsVersion(lib, ops, k);
  }

  /** And so for the saves of a run. */
  lemma OneRunWinnerPerRevision(lib: Library, ops: seq<Op>, j: nat, k: nat)
    requires SavesRun(lib, ops, j) && SavesRun(lib, ops, k)
    requires ops[j].run.id == ops[k].run.id && ops[j].run.revision == ops[k].run.revision
    ensures ops[j].run == ops[k].run
  {
    SavedRunIsItsVersion(lib, ops, j);
    SavedRunIsItsVersion(lib, ops, k);
  }

  // ----- approvals

  predicate DistinctBindings(steps: map<Uuid, AgentRunStep>) {
    && (forall k :: k in steps ==> steps[k].id == k)
    && (forall j, k :: j in steps && k in steps && j != k && steps[j].approvalRequestId.Some? ==>
      steps[j].approvalRequestId != steps[k].approvalRequestId)
  }

  lemma SaveStepKeepsBindings(steps: map<Uuid, AgentRunStep>, step: AgentRunStep)
    requires DistinctBindings(steps) && SaveStep(steps, step).Ok?
    ensures DistinctBindings(SaveStep(steps, step).value)
  {
  }

  // Steps depend on nothing else in the store, so their runs can be followed
  // on the step map alone.

  function ExecStep(steps: map<Uuid, AgentRunStep>, op: Op): map<Uuid, AgentRunStep> {
    if op.SaveStepOp? && SaveStep(steps, op.step).Ok? then SaveStep(steps, op.step).value else steps
  }

  function StepsAfter(steps: map<Uuid, AgentRunStep>, ops: seq<Op>): map<Uuid, AgentRunStep>
    decreases |ops|
  {
    if ops == [] then steps else StepsAfter(ExecStep(steps, ops[0]), ops[1..])
  }

  lemma ExecStepAgrees(lib: Library, s: Store, op: Op)
    ensures Exec(lib, s, op).steps == ExecStep(s.steps, op)
  {
    hide ValidBundle;
    hide Append;
  }

  lemma {:induction false} StepsAfterAgrees(lib: Library, s: Store, ops: seq<Op>)
    ensures After(lib, s, ops).steps == StepsAfter(s.steps, ops)
    decreases |ops|
  {
    if ops == [] {
    } else {
      ExecStepAgrees(lib, s, ops[0]);
      StepsAfterAgrees(lib, Exec(lib, s, ops[0]), ops[1..]);
    }
  }

  /** Over every run no two steps share an approval, so looking a step up by its
      approval is never ambiguous. */
  lemma {:induction false} BindingsStayDistinct(steps: map<Uuid, AgentRunStep>, ops: seq<Op>)
    requires DistinctBindings(steps)
    ensures DistinctBindings(StepsAfter(steps, ops))
    decreases |ops|
  {
    if ops == [] {
    } else {
      if ops[0].SaveStepOp? && SaveStep(steps, ops[0].step).Ok? {
        SaveStepKeepsBindings(steps, ops[0].step);
      }
      BindingsStayDistinct(ExecStep(steps, ops[0]), ops[1..]);
    }
  }

  /** The next value of a step: unchanged, or its next revision with the approval
      binding kept. */
  predicate Advances(before: AgentRunStep, after: AgentRunStep) {
    || after == before
    || (&& after.revision == before.revision + 1
        && (before.approvalRequestId.Some? ==> after.approvalRequestId == before.approvalRequestId))
  }

  lemma StepAdvances(steps: map<Uuid, AgentRunStep>, op: Op, id: Uuid)
    ensures var steps' := ExecStep(steps, op);
      && (id in steps ==> id in steps' && Advances(steps[id], steps'[id]))
      && (id !in steps && id in steps' ==> steps'[id].revision == 0)
  {
  }

  /** Once bound to an approval, a step stays bound to it through every run. */
  lemma {:induction false} BindingIsPermanent(steps: map<Uuid, AgentRunStep>, ops: seq<Op>, id: Uuid)
    requires id in steps && steps[id].approvalRequestId.Some?
    ensures var steps' := StepsAfter(steps, ops);
      id in steps' && steps'[id].approvalRequestId == steps[id].approvalRequestId
    decreases |ops|
  {
    if ops == [] {
    } else {
      StepAdvances(steps, ops[0], id);
      BindingIsPermanent(ExecStep(steps, ops[0]), ops[1..], id);
    }
  }

  /** Over every run of the whole store: approvals bind one step each, for good. */
  lemma ApprovalsBindForGood(lib: Library, before: seq<Op>, after: seq<Op>, id: Uuid)
    requires id in After(lib, EMPTY, before).steps && After(lib, EMPTY, before).steps[id].approvalRequestId.Some?
    ensures var s, s' := After(lib, EMPTY, before), After(lib, After(lib, EMPTY, before), after);
      && DistinctBindings(s'.steps)
      && id in s'.steps
      && s'.steps[id].approvalRequestId == s.steps[id].approvalRequestId
  {
    var s := After(lib, EMPTY, before);
    StepsAfterAgrees(lib, EMPTY, before);
    StepsAfterAgrees(lib, s, after);
    BindingsStayDistinct(EMPTY.steps, before);
    BindingsStayDistinct(s.steps, after);
    BindingIsPermanent(s.steps, after, id);
  }
}
