/** Agent runs, steps, checkpoints and events: the records that the run store
    keeps and the trace evaluator reads, with the transitions that change them. */
module AgentModel {
  import opened Prelude
  import opened Json
  import opened Digests

  type Signature = string

  datatype RunMode = OneShot | Session

  datatype RunStatus = Queued | Running | WaitingForInput | Succeeded | Failed | Cancelled {
    predicate IsTerminal() {
      Succeeded? || Failed? || Cancelled?
    }
  }

  datatype StepStatus = Pending | StepRunning | WaitingForApproval | StepSucceeded | StepFailed | StepCancelled {
    predicate IsTerminal() {
      StepSucceeded? || StepFailed? || StepCancelled?
    }
  }

  datatype AgentRun = AgentRun(
    id: Uuid, actor: Uuid, agentId: Option<Uuid>, mode: RunMode, goal: string, status: RunStatus,
    retryCount: u32, revision: nat, createdAt: Time, updatedAt: Time, completedAt: Option<Time>)

  datatype ProofBody = ProofBody(
    id: Uuid, actor: Uuid, operation: string, inputDigest: ContentDigest, outputDigest: ContentDigest, timestamp: Time)

  datatype Proof = Proof(body: ProofBody, signature: Signature)

  datatype AgentRunStep = AgentRunStep(
    id: Uuid, runId: Uuid, ordinal: u32, attempt: u32, retryOf: Option<Uuid>, operation: string, version: string,
    inputDigest: ContentDigest, status: StepStatus, approvalRequestId: Option<Uuid>, output: Option<Value>,
    proof: Option<Proof>, error: Option<string>, revision: nat, createdAt: Time, updatedAt: Time,
    startedAt: Option<Time>, completedAt: Option<Time>)

  datatype AgentCheckpoint = AgentCheckpoint(
    id: Uuid, runId: Uuid, sequence: u32, state: Value, stateDigest: ContentDigest, createdAt: Time)

  datatype EventKind =
    | Started | ModelRequested | ModelResponded | ToolRequested | ToolSucceeded | ToolFailed
    | ApprovalRequired | ApprovalResumed | Completed | RunFailed | BudgetExceeded

  datatype AgentRunEvent = AgentRunEvent(
    id: Uuid, runId: Uuid, sequence: u32, kind: EventKind, data: Value, dataDigest: ContentDigest, createdAt: Time)

  datatype AgentRunError =
    | EmptyGoal | EmptyOperation | EmptyVersion | InvalidInput | InvalidRunTransition | InvalidStepTransition
    | RetryOverflow | ProofMismatch | ApprovalBindingImmutable

  // ----- run transitions

  predicate RunMayMove(from: RunStatus, to: RunStatus) {
    match from
    case Queued => to.Running? || to.Cancelled?
    case Running => to.WaitingForInput? || to.Succeeded? || to.Failed? || to.Cancelled?
    case WaitingForInput => to.Running? || to.Failed? || to.Cancelled?
    case Failed => to.Running? || to.Cancelled?
    case _ => false
  }

  function MoveRun(run: AgentRun, to: RunStatus, now: Time): Result<AgentRun, AgentRunError> {
    if !RunMayMove(run.status, to) then Err(InvalidRunTransition)
    else Ok(run.(status := to, updatedAt := now, revision := run.revision + 1,
                 completedAt := if to.IsTerminal() then Some(now) else None))
  }

  /** The public operations on a run. */
  datatype RunAction = Start | WaitForInput | Resume | Succeed | Fail | Cancel

  function Act(run: AgentRun, action: RunAction, now: Time): Result<AgentRun, AgentRunError> {
    match action
    case Start => MoveRun(run, Running, now)
    case WaitForInput => MoveRun(run, RunStatus.WaitingForInput, now)
    case Resume =>
      if run.status.Failed? then
        match CheckedAdd32(run.retryCount, 1)
        case None => Err(RetryOverflow)
        case Some(count) => MoveRun(run.(retryCount := count), Running, now)
      else MoveRun(run, Running, now)
    case Succeed => MoveRun(run, Succeeded, now)
    case Fail => MoveRun(run, Failed, now)
    case Cancel => MoveRun(run, Cancelled, now)
  }

  /** A record produced from the stored one by one operation, no earlier. */
  ghost predicate Evolves(before: AgentRun, after: AgentRun) {
    exists action, now :: now >= before.updatedAt && Act(before, action, now) == Ok(after)
  }
}
