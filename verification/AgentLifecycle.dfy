/** The lives of runs and steps, operation by operation, and their agreement
    with what the trace evaluator demands of them. */
module AgentLifecycle {
  import opened Prelude
  import opened Json
  import opened Digests
  import opened AgentModel
  import opened TraceModel
  import opened TraceTopology

  // ----- runs

  function NewRun(id: Uuid, actor: Uuid, agentId: Option<Uuid>, mode: RunMode, goal: string, createdAt: Time)
    : Result<AgentRun, AgentRunError>
  {
    if IsBlank(goal) then Err(EmptyGoal)
    else Ok(AgentRun(id, actor, agentId, mode, goal, Queued, 0, 0, createdAt, createdAt, None))
  }

  datatype RunCall = RunCall(action: RunAction, now: Time)

  /** A failed operation leaves the run as it was. */
  function RunAfter(run: AgentRun, calls: seq<RunCall>): AgentRun
    decreases |calls|
  {
    if calls == [] then run
    else
      match Act(run, calls[0].action, calls[0].now)
      case Ok(next) => RunAfter(next, calls[1..])
      case Err(_) => RunAfter(run, calls[1..])
  }

  predicate RunCallsAscend(from: Time, calls: seq<RunCall>) {
    forall i :: 0 <= i < |calls| ==>
      && from <= calls[i].now
      && (i > 0 ==> calls[i - 1].now <= calls[i].now)
  }

  lemma {:induction false} RunTimesPersist(run: AgentRun, calls: seq<RunCall>)
    requires RunTimesOk(run) && RunCallsAscend(run.updatedAt, calls)
    ensures RunTimesOk(RunAfter(run, calls))
    decreases |calls|
  {
    if calls == [] {
    } else {
      var next := match Act(run, calls[0].action, calls[0].now) case Ok(n) => n case Err(_) => run;
      assert forall i :: 0 <= i < |calls| - 1 ==> calls[1..][i] == calls[i + 1];
      AscendFrom(run.updatedAt, calls);
      RunTimesPersist(next, calls[1..]);
    }
  }

  lemma {:induction false} AscendFrom(from: Time, calls: seq<RunCall>)
    requires calls != [] && RunCallsAscend(from, calls)
    ensures RunCallsAscend(calls[0].now, calls[1..])
  {
    var rest := calls[1..];
    forall i | 0 <= i < |rest|
      ensures calls[0].now <= rest[i].now && (i > 0 ==> rest[i - 1].now <= rest[i].now)
    {
      Later(from, calls, i + 1);
      assert rest[i] == calls[i + 1];
    }
  }

  lemma {:induction false} Later(from: Time, calls: seq<RunCall>, i: nat)
    requires RunCallsAscend(from, calls) && i < |calls|
    ensures calls[0].now <= calls[i].now
  {
    if i == 0 {
    } else {
      Later(from, calls, i - 1);
    }
  }

  /** Whatever is done to a run at nondecreasing times, its record passes the
      evaluator's checks on run times. */
  lemma RunRecordsPassTimeChecks(
    id: Uuid, actor: Uuid, agentId: Option<Uuid>, mode: RunMode, goal: string, createdAt: Time, calls: seq<RunCall>)
    requires !IsBlank(goal) && RunCallsAscend(createdAt, calls)
    ensures RunTimesOk(RunAfter(NewRun(id, actor, agentId, mode, goal, createdAt).value, calls))
  {
    RunTimesPersist(NewRun(id, actor, agentId, mode, goal, createdAt).value, calls);
  }

  // ----- what each operation on a run does

  function Target(action: RunAction): RunStatus {
    match action
    case Start => Running
    case WaitForInput => RunStatus.WaitingForInput
    case Resume => Running
    case Succeed => Succeeded
    case Fail => Failed
    case Cancel => Cancelled
  }

  /** A run is started or resumed when it is not running and not over for good,
      waits or succeeds while running, fails while running or waiting, and is
      cancelled unless over for good. */
  predicate Enabled(status: RunStatus, action: RunAction) {
    match action
    case Start => status.Queued? || status.WaitingForInput? || status.Failed?
    case Resume => status.Queued? || status.WaitingForInput? || status.Failed?
    case WaitForInput => status.Running?
    case Succeed => status.Running?
    case Fail => status.Running? || status.WaitingForInput?
    case Cancel => !status.Succeeded? && !status.Cancelled?
  }

  predicate Retries(run: AgentRun, action: RunAction) {
    action.Resume? && run.status.Failed?
  }

  /** An operation succeeds exactly when it is enabled and a retry can still be
      counted; then it leads to its own status, and counts itself. */
  lemma RunActsExactlyWhen(run: AgentRun, action: RunAction, now: Time)
    ensures var r := Act(run, action, now);
      && (r.Ok? <==> Enabled(run.status, action) && (Retries(run, action) ==> run.retryCount < U32_MAX))
      && (r.Ok? ==> r.value == run.(
        status := Target(action), updatedAt := now, revision := run.revision + 1,
        retryCount := if Retries(run, action) then run.retryCount + 1 else run.retryCount,
        completedAt := if action.Succeed? || action.Fail? || action.Cancel? then Some(now) else None))
  {
  }

  /** The calls that succeed, in order. */
  function RunDone(run: AgentRun, calls: seq<RunCall>): seq<RunCall>
    decreases |calls|
  {
    if calls == [] then []
    else
      match Act(run, calls[0].action, calls[0].now)
      case Ok(next) => [calls[0]] + RunDone(next, calls[1..])
      case Err(_) => RunDone(run, calls[1..])
  }

  /** Whatever is asked of a run: its status is where the last call that succeeded
      led, its revision counts those calls, and its identity stays; and once it has
      succeeded or been cancelled nothing changes it. */
  lemma {:induction false} RunRecordsItsCalls(run: AgentRun, calls: seq<RunCall>)
    ensures var last, done := RunAfter(run, calls), RunDone(run, calls);
      && last.revision == run.revision + |done|
      && (done == [] ==> last == run)
      && (done != [] ==>
        last.status == Target(done[|done| - 1].action) && last.updatedAt == done[|done| - 1].now)
      && last.(status := run.status, retryCount := run.retryCount, revision := run.revision,
               updatedAt := run.updatedAt, completedAt := run.completedAt) == run
      && (run.status.Succeeded? || run.status.Cancelled? ==> last == run)
    decreases |calls|
  {
    if calls == [] {
    } else {
      RunActsExactlyWhen(run, calls[0].action, calls[0].now);
      hide Act;
      match Act(run, calls[0].action, calls[0].now) {
        case Ok(next) => RunRecordsItsCalls(next, calls[1..]);
        case Err(_) => RunRecordsItsCalls(run, calls[1..]);
      }
    }
  }

  // ----- steps

  datatype StepAction =
    | StartStep
    | WaitFor(requestId: Uuid)
    | ResumeStep
    | SucceedStep(output: Value, proof: AgentModel.Proof)
    | FailStep(error: string)
    | CancelStep

  predicate StepMayMove(from: StepStatus, to: StepStatus) {
    match from
    case Pending => to.StepRunning? || to.StepCancelled?
    case StepRunning => to.WaitingForApproval? || to.StepSucceeded? || to.StepFailed? || to.StepCancelled?
    case WaitingForApproval => to.StepRunning? || to.StepFailed? || to.StepCancelled?
    case _ => false
  }

  function MoveStep(step: AgentRunStep, to: StepStatus, now: Time): Result<AgentRunStep, AgentRunError> {
    if !StepMayMove(step.status, to) then Err(InvalidStepTransition)
    else Ok(step.(status := to, updatedAt := now, revision := step.revision + 1,
                  completedAt := if to.IsTerminal() then Some(now) else None))
  }

  predicate ProofFits(lib: Library, step: AgentRunStep, output: Value, proof: AgentModel.Proof) {
    && proof.body.operation == ProofOperation(step.operation, step.version)
    && proof.body.inputDigest == step.inputDigest
    && CanonicalDigest(OperationOutput, output, lib.parse) == Some(proof.body.outputDigest)
  }

  function ActOnStep(
      lib: Library, step: AgentRunStep, action: StepAction, now: Time): Result<AgentRunStep, AgentRunError>
  {
    match action
    case StartStep =>
      (match MoveStep(step, StepRunning, now)
       case Err(e) => Err(e)
       case Ok(s) => Ok(s.(startedAt := if s.startedAt.Some? then s.startedAt else Some(now))))
    case WaitFor(requestId) =>
      if step.approvalRequestId.Some? && step.approvalRequestId.value != requestId then Err(ApprovalBindingImmutable)
      else
        (match MoveStep(step, StepStatus.WaitingForApproval, now)
         case Err(e) => Err(e)
         case Ok(s) => Ok(s.(approvalRequestId := Some(requestId))))
    case ResumeStep => MoveStep(step, StepRunning, now)
    case SucceedStep(output, proof) =>
      if !ProofFits(lib, step, output, proof) then Err(ProofMismatch)
      else
        (match MoveStep(step, StepSucceeded, now)
         case Err(e) => Err(e)
         case Ok(s) => Ok(s.(output := Some(output), proof := Some(proof), error := None)))
    case FailStep(error) =>
      (match MoveStep(step, StepFailed, now)
       case Err(e) => Err(e)
       case Ok(s) => Ok(s.(error := Some(error))))
    case CancelStep => MoveStep(step, StepCancelled, now)
  }

  /** A step is started or resumed when pending or waiting, waits for the approval it
      is bound to or for a first one while running, succeeds while running on a proof
      that fits, fails while running or waiting, and is cancelled until it is over. */
  predicate StepEnabled(lib: Library, step: AgentRunStep, action: StepAction) {
    match action
    case StartStep => step.status.Pending? || step.status.WaitingForApproval?
    case ResumeStep => step.status.Pending? || step.status.WaitingForApproval?
    case WaitFor(id) => step.status.StepRunning? && (step.approvalRequestId.None? || step.approvalRequestId == Some(id))
    case SucceedStep(output, proof) =>
      && step.status.StepRunning?
      && proof.body.operation == ProofOperation(step.operation, step.version)
      && proof.body.inputDigest == step.inputDigest
      && CanonicalDigest(OperationOutput, output, lib.parse) == Some(proof.body.outputDigest)
    case FailStep(_) => step.status.StepRunning? || step.status.WaitingForApproval?
    case CancelStep => step.completedAt.None?
  }

  /** An operation on a step succeeds exactly when it is enabled, and then records
      what it was given. */
  lemma StepActsExactlyWhen(lib: Library, step: AgentRunStep, action: StepAction, now: Time)
    requires step.completedAt.Some? <==> step.status.IsTerminal()
    ensures var r := ActOnStep(lib, step, action, now);
      && (r.Ok? <==> StepEnabled(lib, step, action))
      && (r.Ok? ==>
        var moved := step.(updatedAt := now, revision := step.revision + 1);
        r.value == match action
          case StartStep => moved.(status := StepRunning,
            startedAt := if step.startedAt.Some? then step.startedAt else Some(now))
          case ResumeStep => moved.(status := StepRunning)
          case WaitFor(id) => moved.(status := StepStatus.WaitingForApproval, approvalRequestId := Some(id))
          case SucceedStep(output, proof) => moved.(status := StepSucceeded, output := Some(output),
            proof := Some(proof), error := None, completedAt := Some(now))
          case FailStep(error) => moved.(status := StepFailed, error := Some(error), completedAt := Some(now))
          case CancelStep => moved.(status := StepCancelled, completedAt := Some(now)))
  {
    hide CanonicalDigest;
    hide ProofOperation;
  }

  function NewStep(
    lib: Library, id: Uuid, runId: Uuid, ordinal: u32, operation: string, version: string, input: Value,
    createdAt: Time): Result<AgentRunStep, AgentRunError>
  {
    if IsBlank(operation) then Err(EmptyOperation)
    else if IsBlank(version) then Err(EmptyVersion)
    else
      match CanonicalDigest(OperationInput, input, lib.parse)
      case None => Err(InvalidInput)
      case Some(d) => Ok(FreshStep(id, runId, ordinal, 1, None, operation, version, d, createdAt))
  }

  function FreshStep(
    id: Uuid, runId: Uuid, ordinal: u32, attempt: u32, retryOf: Option<Uuid>, operation: string, version: string,
    inputDigest: ContentDigest, createdAt: Time): AgentRunStep
  {
    AgentRunStep(
      id, runId, ordinal, attempt, retryOf, operation, version, inputDigest, Pending, None, None, None, None, 0,
      createdAt, createdAt, None, None)
  }

  function Retry(step: AgentRunStep, id: Uuid, createdAt: Time): Result<AgentRunStep, AgentRunError> {
    if !step.status.StepFailed? && !step.status.StepCancelled? then Err(InvalidStepTransition)
    else
      match CheckedAdd32(step.attempt, 1)
      case None => Err(RetryOverflow)
      case Some(attempt) =>
        Ok(FreshStep(
          id, step.runId, step.ordinal, attempt, Some(step.id), step.operation, step.version, step.inputDigest,
          createdAt))
  }

  predicate HasInk(s: string) {
    exists i :: 0 <= i < |s| && !IsWhitespace(s[i])
  }

  /** A step is made exactly for a named operation and version and an input with a
      canonical text, and begins as a pending first attempt bound to that input. */
  lemma StepsBeginExactlyWhen(
      lib: Library, id: Uuid, runId: Uuid, ordinal: u32, operation: string, version: string, input: Value, now: Time)
    ensures var r := NewStep(lib, id, runId, ordinal, operation, version, input, now);
      var digest := CanonicalDigest(OperationInput, input, lib.parse);
      && (r.Ok? <==> HasInk(operation) && HasInk(version) && digest.Some?)
      && (r.Ok? ==> r.value == AgentRunStep(
        id, runId, ordinal, 1, None, operation, version, digest.value, Pending, None, None, None, None, 0, now, now,
        None, None))
      && (r.Err? ==>
        match r.error
        case EmptyOperation => !HasInk(operation)
        case EmptyVersion => !HasInk(version)
        case InvalidInput => digest.None?
        case _ => false)
  {
    hide CanonicalDigest;
    hide IsWhitespace;
  }

  /** A step is retried exactly when it failed or was cancelled and the attempt can
      still be counted; the retry repeats the call under the next attempt. */
  lemma RetriesExactlyWhen(step: AgentRunStep, id: Uuid, now: Time)
    ensures var r := Retry(step, id, now);
      && (r.Ok? <==> (step.status.StepFailed? || step.status.StepCancelled?) && step.attempt < U32_MAX)
      && (r.Ok? ==> r.value == AgentRunStep(
        id, step.runId, step.ordinal, step.attempt + 1, Some(step.id), step.operation, step.version, step.inputDigest,
        Pending, None, None, None, None, 0, now, now, None, None))
  {
  }

  datatype StepCall = StepCall(action: StepAction, now: Time)

  /** A failed operation leaves the step as it was. */
  function StepAfter(lib: Library, step: AgentRunStep, calls: seq<StepCall>): AgentRunStep
    decreases |calls|
  {
    if calls == [] then step
    else StepAfter(lib, OneCall(lib, step, calls[0]), calls[1..])
  }

  function OneCall(lib: Library, step: AgentRunStep, call: StepCall): AgentRunStep {
    match ActOnStep(lib, step, call.action, call.now)
    case Ok(next) => next
    case Err(_) => step
  }

  predicate StepCallsAscend(from: Time, calls: seq<StepCall>)
    decreases |calls|
  {
    calls != [] ==> from <= calls[0].now && StepCallsAscend(calls[0].now, calls[1..])
  }

  lemma AscendEarlier(from: Time, later: Time, calls: seq<StepCall>)
    requires from <= later && StepCallsAscend(later, calls)
    ensures StepCallsAscend(from, calls)
  {
  }

  /** What every operation keeps: the times of a step, its outcome fields and the
      binding of its proof. */
  predicate StepInvariant(lib: Library, step: AgentRunStep) {
    && step.createdAt <= step.updatedAt
    && (step.startedAt.Some? ==> step.createdAt <= step.startedAt.value <= step.updatedAt)
    && (step.completedAt.Some? <==> step.status.IsTerminal())
    && (step.completedAt.Some? ==> step.completedAt.value == step.updatedAt)
    && (step.status.Pending? ==> step.startedAt.None?)
    && (step.output.Some? <==> step.status.StepSucceeded?)
    && (step.proof.Some? <==> step.status.StepSucceeded?)
    && (step.status.StepSucceeded? ==> ProofFits(lib, step, step.output.value, step.proof.value))
    && (step.status.WaitingForApproval? ==> step.approvalRequestId.Some?)
  }

  /** What no operation changes. */
  predicate SameIdentity(a: AgentRunStep, b: AgentRunStep) {
    && a.id == b.id && a.runId == b.runId && a.ordinal == b.ordinal && a.attempt == b.attempt
    && a.retryOf == b.retryOf && a.operation == b.operation && a.version == b.version
    && a.inputDigest == b.inputDigest && a.createdAt == b.createdAt
  }

  predicate Keeps(lib: Library, step: AgentRunStep, next: AgentRunStep, now: Time) {
    && StepInvariant(lib, next) && SameIdentity(step, next)
    && step.updatedAt <= next.updatedAt <= now
    && (step.approvalRequestId.Some? ==> next.approvalRequestId == step.approvalRequestId)
    && (step.startedAt.Some? ==> next.startedAt == step.startedAt)
    && (step.status.IsTerminal() ==> next == step)
  }

  lemma MoveKeeps(lib: Library, step: AgentRunStep, to: StepStatus, now: Time)
    requires StepInvariant(lib, step) && step.updatedAt <= now
    requires !to.StepSucceeded? && !to.WaitingForApproval?
    ensures MoveStep(step, to, now).Ok? ==>
      var next := MoveStep(step, to, now).value;
      && !step.status.IsTerminal() && next.status == to && next.updatedAt == now
      && Keeps(lib, step, next, now)
  {
    hide ProofFits;
  }

  lemma WaitKeeps(lib: Library, step: AgentRunStep, requestId: Uuid, now: Time)
    requires StepInvariant(lib, step) && step.updatedAt <= now
    ensures Keeps(lib, step, OneCall(lib, step, StepCall(WaitFor(requestId), now)), now)
  {
    hide ProofFits;
  }

  lemma SucceedKeeps(lib: Library, step: AgentRunStep, output: Value, proof: AgentModel.Proof, now: Time)
    requires StepInvariant(lib, step) && step.updatedAt <= now
    ensures Keeps(lib, step, OneCall(lib, step, StepCall(SucceedStep(output, proof), now)), now)
  {
    hide CanonicalDigest;
    hide ProofOperation;
  }

  lemma StartKeeps(lib: Library, step: AgentRunStep, now: Time)
    requires StepInvariant(lib, step) && step.updatedAt <= now
    ensures Keeps(lib, step, OneCall(lib, step, StepCall(StartStep, now)), now)
  {
    hide ProofFits;
    MoveKeeps(lib, step, StepRunning, now);
  }

  lemma FailKeeps(lib: Library, step: AgentRunStep, error: string, now: Time)
    requires StepInvariant(lib, step) && step.updatedAt <= now
    ensures Keeps(lib, step, OneCall(lib, step, StepCall(FailStep(error), now)), now)
  {
    hide ProofFits;
    MoveKeeps(lib, step, StepFailed, now);
  }

  lemma OneCallKeeps(lib: Library, step: AgentRunStep, call: StepCall)
    requires StepInvariant(lib, step) && step.updatedAt <= call.now
    ensures Keeps(lib, step, OneCall(lib, step, call), call.now)
  {
    hide StepInvariant;
    hide MoveStep;
    match call.action {
      case StartStep => StartKeeps(lib, step, call.now);
      case WaitFor(requestId) => WaitKeeps(lib, step, requestId, call.now);
      case SucceedStep(output, proof) => SucceedKeeps(lib, step, output, proof, call.now);
      case FailStep(error) => FailKeeps(lib, step, error, call.now);
      case ResumeStep => MoveKeeps(lib, step, StepRunning, call.now);
      case CancelStep => MoveKeeps(lib, step, StepCancelled, call.now);
    }
  }

  /** Over any sequence of operations at nondecreasing times: the identity of a
      step never changes, an approval once bound stays bound, a start once set
      stays set, a terminal step is final, and the invariant holds. */
  lemma {:induction false} StepLifeKeeps(lib: Library, step: AgentRunStep, calls: seq<StepCall>)
    requires StepInvariant(lib, step) && StepCallsAscend(step.updatedAt, calls)
    ensures var last := StepAfter(lib, step, calls);
      && StepInvariant(lib, last) && SameIdentity(step, last)
      && step.updatedAt <= last.updatedAt
      && (step.approvalRequestId.Some? ==> last.approvalRequestId == step.approvalRequestId)
      && (step.startedAt.Some? ==> last.startedAt == step.startedAt)
      && (step.status.IsTerminal() ==> last == step)
    decreases |calls|
  {
    hide StepInvariant;
    hide OneCall;
    if calls == [] {
    } else {
      OneCallKeeps(lib, step, calls[0]);
      var next := OneCall(lib, step, calls[0]);
      AscendEarlier(next.updatedAt, calls[0].now, calls[1..]);
      StepLifeKeeps(lib, next, calls[1..]);
    }
  }

  lemma FreshStepInvariant(
    lib: Library, id: Uuid, runId: Uuid, ordinal: u32, attempt: u32, retryOf: Option<Uuid>, operation: string,
    version: string, inputDigest: ContentDigest, createdAt: Time)
    ensures StepInvariant(
      lib, FreshStep(id, runId, ordinal, attempt, retryOf, operation, version, inputDigest, createdAt))
  {
  }

  /** The steps that operations at nondecreasing times can produce. */
  ghost predicate Produced(lib: Library, step: AgentRunStep) {
    exists first: AgentRunStep, calls ::
      Fresh(first) && StepCallsAscend(first.createdAt, calls) && StepAfter(lib, first, calls) == step
  }

  predicate Fresh(s: AgentRunStep) {
    s == FreshStep(s.id, s.runId, s.ordinal, s.attempt, s.retryOf, s.operation, s.version, s.inputDigest, s.createdAt)
  }

  lemma ProducedInvariant(lib: Library, step: AgentRunStep)
    requires Produced(lib, step)
    ensures StepInvariant(lib, step)
  {
    var first, calls :| Fresh(first) && StepCallsAscend(first.createdAt, calls) && StepAfter(lib, first, calls) == step;
    FreshStepInvariant(
      lib, first.id, first.runId, first.ordinal, first.attempt, first.retryOf, first.operation, first.version,
      first.inputDigest, first.createdAt);
    StepLifeKeeps(lib, first, calls);
  }

  predicate EndsStep(action: StepAction) {
    action.SucceedStep? || action.FailStep? || action.CancelStep?
  }

  /** Among the calls that succeed, one that ends the step comes before any that
      starts it. */
  predicate EndsUnstarted(lib: Library, step: AgentRunStep, calls: seq<StepCall>)
    decreases |calls|
  {
    if calls == [] then false
    else if ActOnStep(lib, step, calls[0].action, calls[0].now).Err? then EndsUnstarted(lib, step, calls[1..])
    else
      && !calls[0].action.StartStep?
      && (EndsStep(calls[0].action) || EndsUnstarted(lib, OneCall(lib, step, calls[0]), calls[1..]))
  }

  /** What one call does to the two marks that matter here. */
  lemma OneCallMarks(lib: Library, step: AgentRunStep, call: StepCall)
    requires ActOnStep(lib, step, call.action, call.now).Ok? && !step.status.IsTerminal() && step.startedAt.None?
    ensures var next := OneCall(lib, step, call);
      && (next.status.IsTerminal() <==> EndsStep(call.action))
      && (next.startedAt.Some? <==> call.action.StartStep?)
  {
    hide ProofFits;
  }

  lemma {:induction false} EndsUnstartedIsMarked(lib: Library, step: AgentRunStep, calls: seq<StepCall>)
    requires StepInvariant(lib, step) && StepCallsAscend(step.updatedAt, calls)
    requires !step.status.IsTerminal() && step.startedAt.None?
    ensures var last := StepAfter(lib, step, calls);
      EndsUnstarted(lib, step, calls) <==> last.status.IsTerminal() && last.startedAt.None?
    decreases |calls|
  {
    hide StepInvariant;
    hide OneCall;
    if calls == [] {
    } else {
      var next := OneCall(lib, step, calls[0]);
      OneCallKeeps(lib, step, calls[0]);
      AscendEarlier(next.updatedAt, calls[0].now, calls[1..]);
      if ActOnStep(lib, step, calls[0].action, calls[0].now).Err? {
        FailedCallKeepsStep(lib, step, calls[0]);
        EndsUnstartedIsMarked(lib, step, calls[1..]);
      } else {
        OneCallMarks(lib, step, calls[0]);
        StepLifeKeeps(lib, next, calls[1..]);
        if !EndsStep(calls[0].action) && !calls[0].action.StartStep? {
          EndsUnstartedIsMarked(lib, next, calls[1..]);
        }
      }
    }
  }

  lemma FailedCallKeepsStep(lib: Library, step: AgentRunStep, call: StepCall)
    requires ActOnStep(lib, step, call.action, call.now).Err?
    ensures OneCall(lib, step, call) == step
  {
  }

  lemma {:induction false} UpdatedBy(lib: Library, step: AgentRunStep, calls: seq<StepCall>, limit: Time)
    requires StepInvariant(lib, step) && StepCallsAscend(step.updatedAt, calls) && step.updatedAt <= limit
    requires forall i :: 0 <= i < |calls| ==> calls[i].now <= limit
    ensures StepAfter(lib, step, calls).updatedAt <= limit
    decreases |calls|
  {
    hide StepInvariant;
    hide OneCall;
    if calls == [] {
    } else {
      var next := OneCall(lib, step, calls[0]);
      OneCallKeeps(lib, step, calls[0]);
      AscendEarlier(next.updatedAt, calls[0].now, calls[1..]);
      UpdatedBy(lib, next, calls[1..], limit);
    }
  }

  /** All of a step's life falls within the run. */
  predicate WithinRun(run: AgentRun, first: AgentRunStep, calls: seq<StepCall>) {
    && run.createdAt <= first.createdAt
    && (run.completedAt.Some? ==>
      && first.createdAt <= run.completedAt.value
      && forall i :: 0 <= i < |calls| ==> calls[i].now <= run.completedAt.value)
  }

  /** A step whose life falls within its run passes the evaluator's time checks
      exactly when no call ended it before one had started it. */
  lemma LivesPassTimeChecksExactlyWhen(lib: Library, run: AgentRun, first: AgentRunStep, calls: seq<StepCall>)
    requires Fresh(first) && StepCallsAscend(first.createdAt, calls) && WithinRun(run, first, calls)
    ensures StepTimesOk(run, StepAfter(lib, first, calls)) <==> !EndsUnstarted(lib, first, calls)
  {
    hide ProofFits;
    FreshStepInvariant(
      lib, first.id, first.runId, first.ordinal, first.attempt, first.retryOf, first.operation, first.version,
      first.inputDigest, first.createdAt);
    EndsUnstartedIsMarked(lib, first, calls);
    StepLifeKeeps(lib, first, calls);
    if run.completedAt.Some? {
      UpdatedBy(lib, first, calls, run.completedAt.value);
    }
  }

  /** Starting a fresh step first rules that out, whatever follows. */
  lemma StartedFirstStaysStarted(lib: Library, first: AgentRunStep, calls: seq<StepCall>)
    requires Fresh(first) && StepCallsAscend(first.createdAt, calls)
    requires calls != [] && calls[0].action.StartStep?
    ensures StepAfter(lib, first, calls).startedAt == Some(calls[0].now)
  {
    FreshStepInvariant(
      lib, first.id, first.runId, first.ordinal, first.attempt, first.retryOf, first.operation, first.version,
      first.inputDigest, first.createdAt);
    OneCallKeeps(lib, first, calls[0]);
    StepLifeKeeps(lib, OneCall(lib, first, calls[0]), calls[1..]);
  }

  /** A pending step that is cancelled ends unstarted, and is refused. */
  lemma CancelBeforeStart(lib: Library, run: AgentRun, first: AgentRunStep)
    requires Fresh(first)
    ensures var calls := [StepCall(CancelStep, first.createdAt)];
      && StepAfter(lib, first, calls).status.StepCancelled?
      && EndsUnstarted(lib, first, calls)
      && !StepTimesOk(run, StepAfter(lib, first, calls))
  {
    var calls := [StepCall(CancelStep, first.createdAt)];
    var cancelled := OneCall(lib, first, calls[0]);
    assert calls[1..] == [];
    assert StepAfter(lib, first, calls) == StepAfter(lib, cancelled, []) == cancelled;
  }

  /** Resuming a pending step also sets it running, without a start time: a
      step resumed and failed that way is one the evaluator refuses. */
  lemma ResumeSkipsStart(lib: Library, run: AgentRun, first: AgentRunStep, message: string)
    requires Fresh(first)
    ensures var calls := [StepCall(ResumeStep, first.createdAt), StepCall(FailStep(message), first.createdAt)];
      && StepAfter(lib, first, calls).status.StepFailed?
      && !StepTimesOk(run, StepAfter(lib, first, calls))
  {
    var calls := [StepCall(ResumeStep, first.createdAt), StepCall(FailStep(message), first.createdAt)];
    var running := OneCall(lib, first, calls[0]);
    assert calls[1..] == [calls[1]];
    assert StepAfter(lib, first, calls) == StepAfter(lib, running, [calls[1]]);
    var failed := OneCall(lib, running, calls[1]);
    assert [calls[1]][1..] == [];
    assert StepAfter(lib, running, [calls[1]]) == StepAfter(lib, failed, []) == failed;
  }

  /** A retry made no earlier than its parent ended is exactly what the
      evaluator's scan accepts as one. */
  lemma RetriesAreRecognised(lib: Library, step: AgentRunStep, id: Uuid, now: Time)
    requires Produced(lib, step) && step.updatedAt <= now && Retry(step, id, now).Ok?
    ensures RetryOf(Retry(step, id, now).value, step)
  {
    hide Produced;
    ProducedInvariant(lib, step);
  }

  // ----- the steps of a whole run

  /** A step from its creation on. */
  datatype Life = Life(first: AgentRunStep, calls: seq<StepCall>)

  function Final(lib: Library, life: Life): AgentRunStep {
    StepAfter(lib, life.first, life.calls)
  }

  function Finals(lib: Library, lives: seq<Life>): seq<AgentRunStep> {
    seq(|lives|, j requires 0 <= j < |lives| => Final(lib, lives[j]))
  }

  ghost predicate IsNew(lib: Library, first: AgentRunStep, ordinal: u32) {
    exists operation, version, input ::
      NewStep(lib, first.id, first.runId, ordinal, operation, version, input, first.createdAt) == Ok(first)
  }

  /** Made as a retry of a step no earlier than that step was last touched. */
  predicate IsRetry(first: AgentRunStep, parent: AgentRunStep) {
    parent.updatedAt <= first.createdAt && Retry(parent, first.id, first.createdAt) == Ok(first)
  }

  /** Each step of a run is new at the next ordinal, or retries the final record
      of the one before it. */
  ghost predicate Follows(lib: Library, lives: seq<Life>, j: nat)
    requires j < |lives|
  {
    if j == 0 then IsNew(lib, lives[0].first, 0)
    else
      var before, first := Final(lib, lives[j - 1]), lives[j].first;
      IsRetry(first, before) || (before.ordinal < U32_MAX && IsNew(lib, first, before.ordinal + 1))
  }

  ghost predicate RunOfSteps(lib: Library, lives: seq<Life>) {
    forall j :: 0 <= j < |lives| ==> Follows(lib, lives, j) && StepCallsAscend(lives[j].first.createdAt, lives[j].calls)
  }

  predicate DistinctLives(lives: seq<Life>) {
    forall i, j :: 0 <= i < j < |lives| ==> lives[i].first.id != lives[j].first.id
  }

  lemma LivesBeginFresh(lib: Library, lives: seq<Life>, j: nat)
    requires RunOfSteps(lib, lives) && j < |lives|
    ensures Fresh(lives[j].first)
  {
    assert Follows(lib, lives, j);
  }

  lemma FinalKeeps(lib: Library, life: Life)
    requires Fresh(life.first) && StepCallsAscend(life.first.createdAt, life.calls)
    ensures SameIdentity(life.first, Final(lib, life)) && Produced(lib, Final(lib, life))
  {
    var first := life.first;
    FreshStepInvariant(
      lib, first.id, first.runId, first.ordinal, first.attempt, first.retryOf, first.operation, first.version,
      first.inputDigest, first.createdAt);
    StepLifeKeeps(lib, first, life.calls);
  }

  lemma LivesKeep(lib: Library, lives: seq<Life>, j: nat)
    requires RunOfSteps(lib, lives) && j < |lives|
    ensures Follows(lib, lives, j)
    ensures SameIdentity(lives[j].first, Final(lib, lives[j])) && Produced(lib, Final(lib, lives[j]))
  {
    hide Follows;
    LivesBeginFresh(lib, lives, j);
    FinalKeeps(lib, lives[j]);
  }

  lemma NewIsFirstAttempt(lib: Library, first: AgentRunStep, ordinal: u32, last: AgentRunStep)
    requires IsNew(lib, first, ordinal) && SameIdentity(first, last)
    ensures FirstAttempt(last, ordinal)
  {
  }

  lemma RetryStaysRetry(lib: Library, first: AgentRunStep, parent: AgentRunStep, last: AgentRunStep)
    requires Produced(lib, parent) && IsRetry(first, parent) && SameIdentity(first, last)
    ensures RetryOf(last, parent)
  {
    hide Produced;
    RetriesAreRecognised(lib, parent, first.id, first.createdAt);
  }

  lemma FollowerIsPlaced(lib: Library, first: AgentRunStep, before: AgentRunStep, last: AgentRunStep)
    requires Produced(lib, before) && SameIdentity(first, last)
    requires IsRetry(first, before) || (before.ordinal < U32_MAX && IsNew(lib, first, before.ordinal + 1))
    ensures if last.ordinal == before.ordinal then RetryOf(last, before)
      else FirstAttempt(last, SaturatingInc32(before.ordinal))
  {
    hide Produced;
    hide IsNew;
    hide IsRetry;
    hide SameIdentity;
    if IsRetry(first, before) {
      RetryStaysRetry(lib, first, before, last);
    } else {
      NewIsFirstAttempt(lib, first, before.ordinal + 1, last);
    }
  }

  /** Whatever happens to each step, all are placed as the evaluator's scan
      demands. */
  lemma RunsArePlaced(lib: Library, lives: seq<Life>, j: nat)
    requires RunOfSteps(lib, lives) && j < |lives|
    ensures PlacedAt(Finals(lib, lives), j)
  {
    hide RunOfSteps;
    hide Final;
    hide IsNew;
    hide IsRetry;
    hide SameIdentity;
    hide Produced;
    hide RetryOf;
    hide FirstAttempt;
    LivesKeep(lib, lives, j);
    if j == 0 {
      NewIsFirstAttempt(lib, lives[0].first, 0, Final(lib, lives[0]));
    } else {
      LivesKeep(lib, lives, j - 1);
      FollowerIsPlaced(lib, lives[j].first, Final(lib, lives[j - 1]), Final(lib, lives[j]));
    }
  }

  /** The steps of a run, with their retries and whatever was done to them within
      it, pass the evaluator's scan exactly when none ended before it had
      started. */
  lemma RunsPassScanExactlyWhen(lib: Library, run: AgentRun, lives: seq<Life>)
    requires RunTimesOk(run) && RunOfSteps(lib, lives) && DistinctLives(lives)
    requires forall j :: 0 <= j < |lives| ==> WithinRun(run, lives[j].first, lives[j].calls)
    ensures TopologyOk(run, Finals(lib, lives)) <==>
      forall j :: 0 <= j < |lives| ==> !EndsUnstarted(lib, lives[j].first, lives[j].calls)
  {
    hide RunTimesOk;
    hide StepTimesOk;
    hide PlacedAt;
    hide Follows;
    hide EndsUnstarted;
    hide WithinRun;
    var steps := Finals(lib, lives);
    forall j | 0 <= j < |lives|
      ensures steps[j].id == lives[j].first.id && PlacedAt(steps, j)
      ensures StepTimesOk(run, steps[j]) <==> !EndsUnstarted(lib, lives[j].first, lives[j].calls)
    {
      LivesBeginFresh(lib, lives, j);
      FinalKeeps(lib, lives[j]);
      RunsArePlaced(lib, lives, j);
      LivesPassTimeChecksExactlyWhen(lib, run, lives[j].first, lives[j].calls);
    }
    forall j | 0 <= j < |lives|
      ensures StepOk(run, steps, j) <==> !EndsUnstarted(lib, lives[j].first, lives[j].calls)
    {
      assert FreshId(steps, j);
    }
    if TopologyOk(run, steps) {
      forall j | 0 <= j < |lives| ensures !EndsUnstarted(lib, lives[j].first, lives[j].calls) {
        assert StepOk(run, steps, j);
      }
    }
  }

  /** A produced step that succeeded passes the evaluator's proof binding, short
      of the actor, the signature and the time of the proof. */
  lemma SucceededStepsAreBound(lib: Library, step: AgentRunStep)
    requires Produced(lib, step) && step.status.StepSucceeded?
    ensures step.output.Some? && step.proof.Some? && step.completedAt.Some?
    ensures step.proof.value.body.operation == ProofOperation(step.operation, step.version)
    ensures step.proof.value.body.inputDigest == step.inputDigest
    ensures CanonicalDigest(OperationOutput, step.output.value, lib.parse) == Some(step.proof.value.body.outputDigest)
  {
    hide Produced;
    ProducedInvariant(lib, step);
  }
}
