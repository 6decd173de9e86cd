/** The governed dispatch coordinator against an arbitrary store: the order of
    its calls, what it does with every possible answer, and the lease it holds. */
module OperatorRuntime {
  import opened Prelude
  import opened Digests

  type ControlDigest = int

  datatype StoreError =
    | Conflict | Corrupt | Invalid | NotActionable | NotFound | SignerFailed | StaleFence | StaleRevision | Unavailable

  datatype BoundaryKind = Provider | Tool

  datatype DispatchIntent = DispatchIntent(
    kind: BoundaryKind, operation: string, version: string, argumentDigest: ControlDigest, selfValid: bool)

  datatype CheckpointTail = CheckpointTail(checkpointId: Uuid, sequence: u32, stateDigest: ContentDigest)

  datatype ReplayBinding = ReplayBinding(
    selfValid: bool, bindingDigest: ControlDigest, workspaceId: Uuid, runId: Uuid, stepId: Uuid,
    checkpoint: CheckpointTail, operation: string, version: string, inputDigest: ContentDigest, claimedBy: Uuid)

  datatype Completion = Completion(
    selfValid: bool, replayBindingDigest: ControlDigest, workspaceId: Uuid, runId: Uuid, stepId: Uuid,
    checkpoint: CheckpointTail, inputDigest: ContentDigest, actorId: Uuid, operation: string, version: string)

  datatype Recovery = Recovery(carriesReplay: bool)

  datatype RunLease = RunLease(
    workspaceId: Uuid, runId: Uuid, leaseId: Uuid, ownerInstanceId: Uuid, processEpochId: Uuid, fenceEpoch: nat,
    expiresAt: Time)

  /** The input of a call with its two digests, absent when it has no canonical
      text. */
  datatype InputDigests = InputDigests(input: ContentDigest, argument: ControlDigest)

  datatype GovernedCall = GovernedCall(
    intent: DispatchIntent, replay: Option<ReplayBinding>, recovery: Option<Recovery>, digests: Option<InputDigests>,
    contextActor: Uuid, runId: Uuid, runActor: Uuid, stepId: Uuid, stepRunId: Uuid, stepOperation: string,
    stepVersion: string, stepInputDigest: ContentDigest, checkpoint: CheckpointTail)

  // ----- store results

  datatype LookupResult = LookupResult(selfValid: bool, completed: bool, completion: Option<Completion>)

  datatype Reservation = Reservation(
    reservationId: Uuid, idempotencyKey: Uuid, runId: Uuid, leaseId: Uuid, fenceEpoch: nat, intent: DispatchIntent,
    intentDigest: ControlDigest, replay: Option<ReplayBinding>, recovery: Option<Recovery>)

  datatype ReserveResult = ReserveResult(selfValid: bool, controlRevision: nat, reservation: Reservation)

  datatype DispatchOutcome =
    | DispatchAuthorized | ExactReplay | ReplayConflict | ReplayFailed | ReplayInProgress | ReplayUnsupported

  datatype BeginResult = BeginResult(
    selfValid: bool, controlRevision: nat, outcome: DispatchOutcome, completion: Option<Completion>)

  /** A commit, a failure settlement or a reservation release. */
  datatype SettledResult = SettledResult(selfValid: bool, controlRevision: nat)

  datatype RenewResult = RenewResult(selfValid: bool, renewed: bool, controlRevision: nat, lease: RunLease)

  type Reply<T> = Result<T, StoreError>

  // ----- the lease and the record of calls

  datatype Lease = Lease(live: bool, controlRevision: nat, record: RunLease)

  /** Every call the coordinator makes, with the revision it presented and the
      answer it got; `Enter` is the governed boundary itself. */
  datatype Action =
    | Lookup(lookup: Reply<LookupResult>)
    | Reserve(revision: nat, valid: bool, reserved: Reply<ReserveResult>)
    | Begin(revision: nat, begun: Reply<BeginResult>)
    | Enter
    | Commit(revision: nat, committed: Reply<SettledResult>)
    | SettleFailure(revision: nat, settled: Reply<SettledResult>)
    | Release(revision: nat, released: Reply<SettledResult>)
    | Renew(revision: nat, accepted: bool, renewal: Reply<RenewResult>)

  datatype Outcome =
    | Committed
    | Replayed(completion: Completion)
    | Released
    | Renewed
    | ExecutionSettled
    | ReplayRejected(outcome: DispatchOutcome)
    | StoreFailed(error: StoreError)
    | ContractFailed
    | EnvironmentFailed

  datatype Turn = Turn(lease: Lease, actions: seq<Action>, outcome: Outcome)

  /** What the environment, the store, the custody checks and the engine answer
      to the calls one execution may make; all arbitrary. */
  datatype Answers = Answers(
    lookup: Reply<LookupResult>, secondLookup: Reply<LookupResult>,
    reservationId: Option<Uuid>, idempotencyKey: Option<Uuid>, intentDigest: Option<ControlDigest>,
    reserveAuthority: bool, reserve: Reply<ReserveResult>,
    callDigest: bool, claimToken: Option<Uuid>, dispatchToken: bool, beginAuthority: bool, beginRequest: bool,
    begin: Reply<BeginResult>, permitBound: bool, authorization: bool,
    engineSucceeds: bool, bindingSucceeds: bool,
    commitAuthority: bool, commitRequest: bool, commit: Reply<SettledResult>,
    failureDigest: bool, failureAuthority: bool, failureRequest: bool, settle: Reply<SettledResult>)

  // ----- checks

  predicate ReplayMatchesCall(b: ReplayBinding, lease: Lease, call: GovernedCall) {
    && call.intent.kind.Tool?
    && b.selfValid
    && b.workspaceId == lease.record.workspaceId
    && b.runId == call.runId
    && b.stepId == call.stepId
    && b.checkpoint == call.checkpoint
    && b.operation == call.intent.operation
    && b.version == call.intent.version
    && call.digests.Some? && b.inputDigest == call.digests.value.input
    && b.claimedBy == call.contextActor
  }

  predicate ValidCall(lease: Lease, call: GovernedCall) {
    && call.intent.selfValid
    && call.digests.Some?
    && call.runId == lease.record.runId
    && call.stepRunId == call.runId
    && call.stepOperation == call.intent.operation
    && call.stepVersion == call.intent.version
    && call.stepInputDigest == call.digests.value.input
    && call.contextActor == call.runActor
    && call.intent.argumentDigest == call.digests.value.argument
    && (call.replay.Some? ==> ReplayMatchesCall(call.replay.value, lease, call))
    && (call.replay.None? && call.intent.kind.Tool? && call.recovery.Some? ==> !call.recovery.value.carriesReplay)
  }

  predicate CompletionMatches(b: ReplayBinding, c: Completion) {
    && c.selfValid
    && c.replayBindingDigest == b.bindingDigest
    && c.workspaceId == b.workspaceId && c.runId == b.runId && c.stepId == b.stepId
    && c.checkpoint == b.checkpoint
    && c.inputDigest == b.inputDigest
    && c.actorId == b.claimedBy
    && c.operation == b.operation && c.version == b.version
  }

  predicate ValidReservation(
      lease: Lease, call: GovernedCall, id: Uuid, key: Uuid, intentDigest: ControlDigest, r: ReserveResult)
  {
    && r.selfValid
    && r.reservation == Reservation(
      id, key, lease.record.runId, lease.record.leaseId, lease.record.fenceEpoch, call.intent, intentDigest,
      call.replay, call.recovery)
  }

  predicate ValidRenewal(lease: Lease, r: RenewResult) {
    && r.selfValid && r.renewed
    && r.lease.workspaceId == lease.record.workspaceId
    && r.lease.runId == lease.record.runId
    && r.lease.leaseId == lease.record.leaseId
    && r.lease.ownerInstanceId == lease.record.ownerInstanceId
    && r.lease.processEpochId == lease.record.processEpochId
    && r.lease.fenceEpoch == lease.record.fenceEpoch
  }

  // ----- the execution, stage by stage

  /** A stale fence ends the local authority for good. */
  function LoseAuthority(lease: Lease, error: StoreError): Lease {
    if error.StaleFence? then lease.(live := false) else lease
  }

  /** What a replay lookup yields: a verified completion, nothing, or a failure. */
  function AcceptLookup(b: ReplayBinding, reply: Reply<LookupResult>): Result<Option<Completion>, Outcome> {
    match reply
    case Err(e) => Err(StoreFailed(e))
    case Ok(r) =>
      if !r.selfValid then Err(ContractFailed)
      else if !r.completed then Ok(None)
      else if r.completion.None? || !CompletionMatches(b, r.completion.value) then Err(ContractFailed)
      else Ok(r.completion)
  }

  function Before(actions: seq<Action>, turn: Turn): Turn {
    turn.(actions := actions + turn.actions)
  }

  function SettleStage(lease: Lease, a: Answers): Turn {
    if !a.failureDigest || !a.failureAuthority || !a.failureRequest then Turn(lease, [], ContractFailed)
    else
      var action := SettleFailure(lease.controlRevision, a.settle);
      match a.settle
      case Err(e) => Turn(LoseAuthority(lease, e), [action], StoreFailed(e))
      case Ok(r) =>
        if !r.selfValid then Turn(lease, [action], ContractFailed)
        else Turn(lease.(controlRevision := r.controlRevision), [action], ExecutionSettled)
  }

  function CommitStage(lease: Lease, a: Answers): Turn {
    if !a.commitAuthority || !a.commitRequest then Turn(lease, [], ContractFailed)
    else
      var action := Commit(lease.controlRevision, a.commit);
      match a.commit
      case Err(e) => Turn(LoseAuthority(lease, e), [action], StoreFailed(e))
      case Ok(r) =>
        if !r.selfValid then Turn(lease, [action], ContractFailed)
        else Turn(lease.(controlRevision := r.controlRevision), [action], Committed)
  }

  function BoundaryStage(lease: Lease, a: Answers): Turn {
    if !a.permitBound || !a.authorization then Turn(lease, [], ContractFailed)
    else if !a.engineSucceeds || !a.bindingSucceeds then Before([Enter], SettleStage(lease, a))
    else Before([Enter], CommitStage(lease, a))
  }

  function BeginStage(lease: Lease, call: GovernedCall, a: Answers): Turn {
    if !a.callDigest then Turn(lease, [], ContractFailed)
    else if (call.replay.Some? && a.claimToken.None?) || !a.dispatchToken then Turn(lease, [], EnvironmentFailed)
    else if !a.beginAuthority || !a.beginRequest then Turn(lease, [], ContractFailed)
    else
      var action := Begin(lease.controlRevision, a.begin);
      match a.begin
      case Err(e) => Turn(LoseAuthority(lease, e), [action], StoreFailed(e))
      case Ok(r) =>
        if !r.selfValid then Turn(lease, [action], ContractFailed)
        else
          var lease' := lease.(controlRevision := r.controlRevision);
          if r.outcome.ExactReplay? then
            if r.completion.None? || call.replay.None? || !CompletionMatches(call.replay.value, r.completion.value)
            then Turn(lease', [action], ContractFailed)
            else Turn(lease', [action], Replayed(r.completion.value))
          else if !r.outcome.DispatchAuthorized? then Turn(lease', [action], ReplayRejected(r.outcome))
          else Before([action], BoundaryStage(lease', a))
  }

  function ReserveFailed(lease: Lease, call: GovernedCall, a: Answers, error: StoreError): Turn {
    var lease' := LoseAuthority(lease, error);
    if error.NotActionable? && call.replay.Some? then
      match AcceptLookup(call.replay.value, a.secondLookup)
      case Err(o) => Turn(lease', [Lookup(a.secondLookup)], o)
      case Ok(Some(c)) => Turn(lease', [Lookup(a.secondLookup)], Replayed(c))
      case Ok(None) => Turn(lease', [Lookup(a.secondLookup)], StoreFailed(error))
    else Turn(lease', [], StoreFailed(error))
  }

  function ReserveStage(lease: Lease, call: GovernedCall, a: Answers): Turn {
    if !lease.live then Turn(lease, [], ContractFailed)
    else if a.reservationId.None? || a.idempotencyKey.None? then Turn(lease, [], EnvironmentFailed)
    else if a.intentDigest.None? || !a.reserveAuthority then Turn(lease, [], ContractFailed)
    else
      match a.reserve
      case Err(e) => Before([Reserve(lease.controlRevision, false, a.reserve)], ReserveFailed(lease, call, a, e))
      case Ok(r) =>
        var valid := ValidReservation(lease, call, a.reservationId.value, a.idempotencyKey.value,
          a.intentDigest.value, r);
        var action := Reserve(lease.controlRevision, valid, a.reserve);
        if !valid then Turn(lease, [action], ContractFailed)
        else Before([action], BeginStage(lease.(controlRevision := r.controlRevision), call, a))
  }

  function Execute(lease: Lease, call: GovernedCall, a: Answers): Turn {
    if !ValidCall(lease, call) then Turn(lease, [], ContractFailed)
    else if call.replay.None? then ReserveStage(lease, call, a)
    else
      match AcceptLookup(call.replay.value, a.lookup)
      case Err(o) => Turn(lease, [Lookup(a.lookup)], o)
      case Ok(Some(c)) => Turn(lease, [Lookup(a.lookup)], Replayed(c))
      case Ok(None) => Before([Lookup(a.lookup)], ReserveStage(lease, call, a))
  }

  // ----- the other fenced operations on a lease

  function RenewLease(lease: Lease, authority: bool, reply: Reply<RenewResult>): Turn {
    if !authority then Turn(lease, [], ContractFailed)
    else
      match reply
      case Err(e) => Turn(LoseAuthority(lease, e), [Renew(lease.controlRevision, false, reply)], StoreFailed(e))
      case Ok(r) =>
        var accepted := ValidRenewal(lease, r);
        var action := Renew(lease.controlRevision, accepted, reply);
        if !accepted then Turn(lease.(live := false), [action], ContractFailed)
        else Turn(lease.(controlRevision := r.controlRevision, record := r.lease), [action], Renewed)
  }

  function ReleasePreDispatch(lease: Lease, authority: bool, reply: Reply<SettledResult>): Turn {
    if !authority then Turn(lease, [], ContractFailed)
    else
      var action := Release(lease.controlRevision, reply);
      match reply
      case Err(e) => Turn(LoseAuthority(lease, e), [action], StoreFailed(e))
      case Ok(r) =>
        if !r.selfValid then Turn(lease, [action], ContractFailed)
        else Turn(lease.(controlRevision := r.controlRevision), [action], Released)
  }

  datatype Operation =
    | ExecuteOp(call: GovernedCall, answers: Answers)
    | RenewOp(authority: bool, renewal: Reply<RenewResult>)
    | ReleaseOp(authority: bool, released: Reply<SettledResult>)
    | InvalidateOp

  function Perform(lease: Lease, op: Operation): Turn {
    match op
    case ExecuteOp(call, answers) => Execute(lease, call, answers)
    case RenewOp(authority, reply) => RenewLease(lease, authority, reply)
    case ReleaseOp(authority, reply) => ReleasePreDispatch(lease, authority, reply)
    case InvalidateOp => Turn(lease.(live := false), [], Released)
  }
}
