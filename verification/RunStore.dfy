/** The durable run store: flat maps keyed by id.  Each public call holds the
    locks it needs, so each is one atomic step on the maps. */
module RunStore {
  import opened Prelude
  import opened Json
  import opened Canonical
  import opened Digests
  import opened AgentModel

  const CLAIM_SCHEMA := "proof-live-run-start-claim/v1"

  datatype Claim = Claim(schema: string, readiness: ContentDigest, setup: ContentDigest)

  datatype ClaimRecord = ClaimRecord(claim: Claim, initialRun: AgentRun, checkpointId: Uuid, eventId: Uuid)

  datatype Store = Store(
    runs: map<Uuid, AgentRun>,
    steps: map<Uuid, AgentRunStep>,
    checkpoints: map<Uuid, AgentCheckpoint>,
    events: map<Uuid, AgentRunEvent>,
    claims: map<ContentDigest, ClaimRecord>)

  const EMPTY := Store(map[], map[], map[], map[], map[])

  datatype Tail = Tail(checkpointId: Uuid, sequence: u32, stateDigest: ContentDigest)

  datatype AppendResult = Appended | Stale

  datatype ClaimResult = Acquired | Existing(runId: Uuid) | Conflict

  datatype StoreError =
    | StaleRevision | MustStartAtZero | BindingImmutable | BindingTaken | Ambiguous | InvalidCheckpoint
    | SequenceOverflow | SequenceMismatch | CheckpointConflict | ForeignTail | SequenceTaken | RecordConflict
    | InvalidClaim | ClaimedRecordMissing | ClaimedRunDrifted | ClaimConflict

  /** Library functions, arbitrary here. */
  datatype Library = Library(
    parse: Reparse,
    decodeUuid: Value -> Option<Uuid>,
    decodeTime: Value -> Option<Time>,
    isV7: Uuid -> bool,
    zeroDigest: ContentDigest)

  // ----- revisioned and write-once records

  function SaveVersioned<T(==)>(
      records: map<Uuid, T>, id: Uuid, value: T, revision: T -> nat): Result<map<Uuid, T>, StoreError>
  {
    if id in records then
      if records[id] == value then Ok(records)
      else if revision(records[id]) < U64_MAX && revision(records[id]) + 1 == revision(value) then
        Ok(records[id := value])
      else Err(StaleRevision)
    else if revision(value) == 0 then Ok(records[id := value])
    else Err(MustStartAtZero)
  }

  function SaveOnce<T(==)>(records: map<Uuid, T>, id: Uuid, value: T): Result<map<Uuid, T>, StoreError> {
    if id in records then
      if records[id] == value then Ok(records) else Err(RecordConflict)
    else Ok(records[id := value])
  }

  // ----- steps

  function StepRevision(step: AgentRunStep): nat {
    step.revision
  }

  predicate BoundElsewhere(steps: map<Uuid, AgentRunStep>, step: AgentRunStep) {
    step.approvalRequestId.Some? &&
    exists k :: k in steps && steps[k].id != step.id && steps[k].approvalRequestId == step.approvalRequestId
  }

  function SaveStep(steps: map<Uuid, AgentRunStep>, step: AgentRunStep): Result<map<Uuid, AgentRunStep>, StoreError> {
    if step.id in steps && steps[step.id].approvalRequestId.Some?
      && steps[step.id].approvalRequestId != step.approvalRequestId
    then Err(BindingImmutable)
    else if BoundElsewhere(steps, step) then Err(BindingTaken)
    else SaveVersioned(steps, step.id, step, StepRevision)
  }

  // ----- checkpoints

  predicate Intact(lib: Library, c: AgentCheckpoint) {
    CanonicalDigest(ArtifactKind.AgentCheckpoint, c.state, lib.parse) == Some(c.stateDigest)
  }

  function TailOf(c: AgentCheckpoint): Tail {
    Tail(c.id, c.sequence, c.stateDigest)
  }

  function OptionalTail(c: Option<AgentCheckpoint>): Option<Tail> {
    if c.Some? then Some(TailOf(c.value)) else None
  }

  predicate IsLatest(checkpoints: map<Uuid, AgentCheckpoint>, runId: Uuid, k: Uuid) {
    && k in checkpoints && checkpoints[k].runId == runId
    && forall j :: j in checkpoints && checkpoints[j].runId == runId ==>
      checkpoints[j].sequence <= checkpoints[k].sequence
  }

  /** The checkpoint of the run with the highest sequence. */
  ghost function Latest(checkpoints: map<Uuid, AgentCheckpoint>, runId: Uuid): Option<AgentCheckpoint> {
    if exists k :: IsLatest(checkpoints, runId, k)
    then var k :| IsLatest(checkpoints, runId, k); Some(checkpoints[k])
    else None
  }

  predicate IsAt(checkpoints: map<Uuid, AgentCheckpoint>, runId: Uuid, sequence: nat, k: Uuid) {
    k in checkpoints && checkpoints[k].runId == runId && checkpoints[k].sequence == sequence
  }

  ghost function CheckpointAt(
      checkpoints: map<Uuid, AgentCheckpoint>, runId: Uuid, sequence: nat): Option<AgentCheckpoint>
  {
    if exists k :: IsAt(checkpoints, runId, sequence, k)
    then var k :| IsAt(checkpoints, runId, sequence, k); Some(checkpoints[k])
    else None
  }

  function ExpectedSequence(tail: Option<Tail>): Option<u32> {
    if tail.None? then Some(0) else CheckedAdd32(tail.value.sequence, 1)
  }

  /** The checks made before the current tail is looked at. */
  function AppendPrecheck(lib: Library, checkpoints: map<Uuid, AgentCheckpoint>, tail: Option<Tail>, c: AgentCheckpoint)
    : Option<StoreError>
  {
    if !Intact(lib, c) then Some(InvalidCheckpoint)
    else if ExpectedSequence(tail).None? then Some(SequenceOverflow)
    else if ExpectedSequence(tail).value != c.sequence then Some(SequenceMismatch)
    else if c.id in checkpoints && checkpoints[c.id] != c then Some(CheckpointConflict)
    else if tail.Some? && tail.value.checkpointId in checkpoints
      && checkpoints[tail.value.checkpointId].runId != c.runId
    then Some(ForeignTail)
    else None
  }

  datatype Appending = Appending(checkpoints: map<Uuid, AgentCheckpoint>, result: AppendResult)

  ghost function Append(lib: Library, checkpoints: map<Uuid, AgentCheckpoint>, tail: Option<Tail>, c: AgentCheckpoint)
    : Result<Appending, StoreError>
  {
    var precheck := AppendPrecheck(lib, checkpoints, tail, c);
    var current := Latest(checkpoints, c.runId);
    if precheck.Some? then Err(precheck.value)
    else if current.Some? && !Intact(lib, current.value) then Err(InvalidCheckpoint)
    else if OptionalTail(current) == Some(TailOf(c)) then
      var predecessor := if c.sequence == 0 then None else CheckpointAt(checkpoints, c.runId, c.sequence - 1);
      if predecessor.Some? && !Intact(lib, predecessor.value) then Err(InvalidCheckpoint)
      else if current != Some(c) then Err(CheckpointConflict)
      else Ok(Appending(checkpoints, if OptionalTail(predecessor) == tail then Appended else Stale))
    else if OptionalTail(current) != tail then Ok(Appending(checkpoints, Stale))
    else if CheckpointAt(checkpoints, c.runId, c.sequence).Some? then Err(SequenceTaken)
    else Ok(Appending(checkpoints[c.id := c], Appended))
  }

  // Another checkpoint already holds the sequence number of c in its run.
  predicate CheckpointSlotTaken(checkpoints: map<Uuid, AgentCheckpoint>, c: AgentCheckpoint) {
    exists k :: k in checkpoints
      && checkpoints[k].runId == c.runId && checkpoints[k].sequence == c.sequence && checkpoints[k].id != c.id
  }

  function SaveCheckpoint(
      checkpoints: map<Uuid, AgentCheckpoint>, c: AgentCheckpoint): Result<map<Uuid, AgentCheckpoint>, StoreError>
  {
    if CheckpointSlotTaken(checkpoints, c) then Err(SequenceTaken)
    else SaveOnce(checkpoints, c.id, c)
  }

  // Another event already holds the sequence number of e in its run.
  predicate EventSlotTaken(events: map<Uuid, AgentRunEvent>, e: AgentRunEvent) {
    exists k :: k in events && events[k].runId == e.runId && events[k].sequence == e.sequence && events[k].id != e.id
  }

  function SaveEvent(events: map<Uuid, AgentRunEvent>, e: AgentRunEvent): Result<map<Uuid, AgentRunEvent>, StoreError> {
    if EventSlotTaken(events, e) then Err(SequenceTaken)
    else SaveOnce(events, e.id, e)
  }

  // ----- live-start claims

  function RuntimeOf(c: AgentCheckpoint): Value {
    match Get(c.state, "runtime")
    case Some(v) => v
    case None => Null
  }

  function OrNull(v: Option<Value>): Value {
    if v.Some? then v.value else Null
  }

  function Decode<T>(v: Option<Value>, decode: Value -> Option<T>): Option<T> {
    if v.Some? then decode(v.value) else None
  }

  predicate ValidEnvelope(lib: Library, run: AgentRun, c: AgentCheckpoint) {
    var runtime := RuntimeOf(c);
    var epoch := Decode(Get(runtime, "process_epoch_id"), lib.decodeUuid);
    && c.state.Obj? && |c.state.entries| == 2
    && GetString(c.state, "kind") == Some("agent_runtime_v2")
    && runtime.Obj?
    && GetString(runtime, "schema") == Some("proof-agent-runtime-state/v2")
    && Decode(Get(runtime, "run_id"), lib.decodeUuid) == Some(run.id)
    && Decode(Get(runtime, "agent_id"), lib.decodeUuid) == run.agentId
    && Decode(Get(runtime, "started_at"), lib.decodeTime) == Some(run.createdAt)
    && epoch.Some? && lib.isV7(epoch.value)
  }

  function StartedData(runtime: Value): Value {
    Obj([
      Member("live", Bool(true)),
      Member("schema", OrNull(Get(runtime, "schema"))),
      Member("process_epoch_id", OrNull(Get(runtime, "process_epoch_id"))),
      Member("policy_binding", OrNull(Get(runtime, "policy_binding"))),
      Member("authority", OrNull(Get(runtime, "authority")))])
  }

  /** The exact initial barrier that a claim stands for. */
  predicate ValidBundle(lib: Library, claim: Claim, run: AgentRun, c: AgentCheckpoint, e: AgentRunEvent) {
    && claim.schema == CLAIM_SCHEMA
    && claim.readiness != lib.zeroDigest && claim.setup != lib.zeroDigest
    && lib.isV7(run.id) && run.agentId.Some? && lib.isV7(run.agentId.value)
    && run.mode.Session? && run.status.Running?
    && run.retryCount == 0 && run.revision == 1
    && run.createdAt == run.updatedAt && run.completedAt.None?
    && lib.isV7(c.id) && c.runId == run.id && c.sequence == 0 && c.createdAt >= run.createdAt
    && lib.isV7(e.id) && e.runId == run.id && e.sequence == 0 && e.kind.Started? && e.createdAt >= c.createdAt
    && ValidEnvelope(lib, run, c)
    && Intact(lib, c)
    && Agree(e.data, StartedData(RuntimeOf(c)), Compared)
    && CanonicalDigest(ArtifactKind.AgentEvent, e.data, lib.parse) == Some(e.dataDigest)
  }

  predicate Progressed(initial: AgentRun, current: AgentRun) {
    && current.id == initial.id && current.actor == initial.actor && current.agentId == initial.agentId
    && current.mode == initial.mode && current.goal == initial.goal && current.createdAt == initial.createdAt
    && current.revision >= initial.revision && current.updatedAt >= initial.updatedAt
  }

  predicate Touches(record: ClaimRecord, claim: Claim) {
    record.claim.readiness == claim.readiness || record.claim.setup == claim.setup
  }

  /** A record the unordered scan of stored claims may stop at, or none. */
  predicate ScanFinds(claims: map<ContentDigest, ClaimRecord>, claim: Claim, found: Option<ClaimRecord>) {
    if found.Some?
    then exists d :: d in claims && claims[d] == found.value && Touches(found.value, claim)
    else forall d :: d in claims ==> !Touches(claims[d], claim)
  }

  datatype Claiming = Claiming(store: Store, result: ClaimResult)

  /** What a claim does once the scan has stopped at `found`. */
  function ClaimStart(
      lib: Library, s: Store, claim: Claim, run: AgentRun, c: AgentCheckpoint, e: AgentRunEvent,
      found: Option<ClaimRecord>): Result<Claiming, StoreError>
  {
    if !ValidBundle(lib, claim, run, c, e) then Err(InvalidClaim)
    else if found.Some? then
      var record := found.value;
      if record.claim != claim then Ok(Claiming(s, Conflict))
      else if record.initialRun.id !in s.runs || record.checkpointId !in s.checkpoints ||
        record.eventId !in s.events then
        Err(ClaimedRecordMissing)
      else if !ValidBundle(lib, record.claim, record.initialRun, s.checkpoints[record.checkpointId],
        s.events[record.eventId]) then
        Err(InvalidClaim)
      else if !Progressed(record.initialRun, s.runs[record.initialRun.id]) then Err(ClaimedRunDrifted)
      else Ok(Claiming(s, Existing(record.initialRun.id)))
    else if
      || run.id in s.runs
      || c.id in s.checkpoints
      || (exists k :: k in s.checkpoints && s.checkpoints[k].runId == run.id && s.checkpoints[k].sequence == 0)
      || e.id in s.events
      || (exists k :: k in s.events && s.events[k].runId == run.id && s.events[k].sequence == 0)
    then Err(ClaimConflict)
    else
      Ok(Claiming(
        Store(s.runs[run.id := run], s.steps, s.checkpoints[c.id := c], s.events[e.id := e],
              s.claims[claim.readiness := ClaimRecord(claim, run, c.id, e.id)]),
        Acquired))
  }

  // ----- calls

  datatype Op =
    | SaveRunOp(run: AgentRun)
    | SaveStepOp(step: AgentRunStep)
    | AppendOp(tail: Option<Tail>, checkpoint: AgentCheckpoint)
    | SaveCheckpointOp(checkpoint: AgentCheckpoint)
    | SaveEventOp(event: AgentRunEvent)
    | ClaimOp(claim: Claim, initialRun: AgentRun, first: AgentCheckpoint, started: AgentRunEvent,
              found: Option<ClaimRecord>)

  function RunRevision(run: AgentRun): nat {
    run.revision
  }

  /** The store after one call; a failed call leaves it as it was. */
  ghost function Exec(lib: Library, s: Store, op: Op): Store {
    match op
    case SaveRunOp(run) =>
      (match SaveVersioned(s.runs, run.id, run, RunRevision)
       case Ok(runs) => s.(runs := runs)
       case Err(_) => s)
    case SaveStepOp(step) =>
      (match SaveStep(s.steps, step)
       case Ok(steps) => s.(steps := steps)
       case Err(_) => s)
    case AppendOp(tail, c) =>
      (match Append(lib, s.checkpoints, tail, c)
       case Ok(a) => s.(checkpoints := a.checkpoints)
       case Err(_) => s)
    case SaveCheckpointOp(c) =>
      (match SaveCheckpoint(s.checkpoints, c)
       case Ok(checkpoints) => s.(checkpoints := checkpoints)
       case Err(_) => s)
    case SaveEventOp(e) =>
      (match SaveEvent(s.events, e)
       case Ok(events) => s.(events := events)
       case Err(_) => s)
    case ClaimOp(claim, run, c, e, found) =>
      (match ClaimStart(lib, s, claim, run, c, e, found)
       case Ok(r) => r.store
       case Err(_) => s)
  }

  /** The scan outcome recorded in a claim call is one the store allows. */
  predicate Plausible(s: Store, op: Op) {
    op.ClaimOp? ==> ScanFinds(s.claims, op.claim, op.found)
  }

  ghost predicate Run(lib: Library, s: Store, ops: seq<Op>)
    decreases |ops|
  {
    ops != [] ==> Plausible(s, ops[0]) && Run(lib, Exec(lib, s, ops[0]), ops[1..])
  }

  ghost function After(lib: Library, s: Store, ops: seq<Op>): Store
    decreases |ops|
  {
    if ops == [] then s else After(lib, Exec(lib, s, ops[0]), ops[1..])
  }
}
