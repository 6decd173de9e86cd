/** Runs and steps as records updated in place, with what every operation on them
    keeps. */
module AgentLifecycleService {
  import opened Prelude
  import opened Json
  import opened Digests
  import opened AgentModel
  import opened TraceModel
  import opened TraceTopology
  import opened AgentLifecycle

  class RunRecord {
    const born: AgentRun
    var status: RunStatus
    var retryCount: u32
    var revision: nat
    var updatedAt: Time
    var completedAt: Option<Time>

    ghost function State(): AgentRun
      reads this
    {
      born.(status := status, retryCount := retryCount, revision := revision, updatedAt := updatedAt,
            completedAt := completedAt)
    }

    ghost predicate Valid()
      reads this
    {
      RunTimesOk(State())
    }

    constructor (run: AgentRun)
      ensures State() == run
    {
      born := run;
      status, retryCount, revision := run.status, run.retryCount, run.revision;
      updatedAt, completedAt := run.updatedAt, run.completedAt;
    }

    method Transition(next: RunStatus, now: Time) returns (r: Result<(), AgentRunError>)
      modifies this
      ensures Tracks(old(State()), r, MoveRun(old(State()), next, now))
    {
      if !RunMayMove(status, next) {
        return Err(InvalidRunTransition);
      }
      status := next;
      updatedAt := now;
      revision := revision + 1;
      completedAt := if next.IsTerminal() then Some(now) else None;
      return Ok(());
    }

    /** The record holds the outcome of an operation, or what it held before. */
    ghost predicate Tracks(before: AgentRun, r: Result<(), AgentRunError>, outcome: Result<AgentRun, AgentRunError>)
      reads this
    {
      match outcome
      case Ok(after) => r == Ok(()) && State() == after
      case Err(e) => r == Err(e) && State() == before
    }

    method Perform(action: RunAction, now: Time) returns (r: Result<(), AgentRunError>)
      modifies this
      ensures Tracks(old(State()), r, Act(old(State()), action, now))
      ensures old(Valid()) && old(updatedAt) <= now ==> Valid()
    {
      match action {
        case Start => r := Transition(Running, now);
        case WaitForInput => r := Transition(RunStatus.WaitingForInput, now);
        case Resume =>
          if status.Failed? {
            if retryCount == U32_MAX {
              return Err(RetryOverflow);
            }
            retryCount := retryCount + 1;
          }
          r := Transition(Running, now);
        case Succeed => r := Transition(Succeeded, now);
        case Fail => r := Transition(Failed, now);
        case Cancel => r := Transition(Cancelled, now);
      }
    }
  }

  lemma CallKeeps(step: AgentRunStep, action: StepAction, now: Time)
    ensures forall lib :: StepInvariant(lib, step) && step.updatedAt <= now ==>
      Keeps(lib, step, OneCall(lib, step, StepCall(action, now)), now)
  {
    forall lib | StepInvariant(lib, step) && step.updatedAt <= now
      ensures Keeps(lib, step, OneCall(lib, step, StepCall(action, now)), now)
    {
      OneCallKeeps(lib, step, StepCall(action, now));
    }
  }

  class StepRecord {
    const born: AgentRunStep
    var status: StepStatus
    var approvalRequestId: Option<Uuid>
    var output: Option<Value>
    var proof: Option<AgentModel.Proof>
    var error: Option<string>
    var revision: nat
    var updatedAt: Time
    var startedAt: Option<Time>
    var completedAt: Option<Time>

    ghost function State(): AgentRunStep
      reads this
    {
      born.(status := status, approvalRequestId := approvalRequestId, output := output, proof := proof, error := error,
            revision := revision, updatedAt := updatedAt, startedAt := startedAt, completedAt := completedAt)
    }

    ghost predicate Valid(lib: Library)
      reads this
    {
      StepInvariant(lib, State())
    }

    constructor (step: AgentRunStep)
      ensures State() == step
    {
      born := step;
      status, approvalRequestId, output := step.status, step.approvalRequestId, step.output;
      proof, error, revision := step.proof, step.error, step.revision;
      updatedAt, startedAt, completedAt := step.updatedAt, step.startedAt, step.completedAt;
    }

    ghost predicate Tracks(
        before: AgentRunStep, r: Result<(), AgentRunError>, outcome: Result<AgentRunStep, AgentRunError>)
      reads this
    {
      match outcome
      case Ok(after) => r == Ok(()) && State() == after
      case Err(e) => r == Err(e) && State() == before
    }

    method Transition(next: StepStatus, now: Time) returns (r: Result<(), AgentRunError>)
      modifies this
      ensures Tracks(old(State()), r, MoveStep(old(State()), next, now))
    {
      if !StepMayMove(status, next) {
        return Err(InvalidStepTransition);
      }
      status := next;
      updatedAt := now;
      revision := revision + 1;
      completedAt := if next.IsTerminal() then Some(now) else None;
      return Ok(());
    }

    method Start(now: Time) returns (r: Result<(), AgentRunError>)
      modifies this
      ensures forall lib :: Tracks(old(State()), r, ActOnStep(lib, old(State()), StartStep, now))
      ensures forall lib :: old(Valid(lib)) && old(updatedAt) <= now ==> Keeps(lib, old(State()), State(), now)
    {
      CallKeeps(State(), StartStep, now);
      r := Transition(StepRunning, now);
      if r.Ok? && startedAt.None? {
        startedAt := Some(now);
      }
    }

    method WaitForApproval(requestId: Uuid, now: Time) returns (r: Result<(), AgentRunError>)
      modifies this
      ensures forall lib :: Tracks(old(State()), r, ActOnStep(lib, old(State()), WaitFor(requestId), now))
      ensures forall lib :: old(Valid(lib)) && old(updatedAt) <= now ==> Keeps(lib, old(State()), State(), now)
    {
      CallKeeps(State(), WaitFor(requestId), now);
      if approvalRequestId.Some? && approvalRequestId.value != requestId {
        return Err(ApprovalBindingImmutable);
      }
      r := Transition(StepStatus.WaitingForApproval, now);
      if r.Ok? {
        approvalRequestId := Some(requestId);
      }
    }

    method ResumeFromApproval(now: Time) returns (r: Result<(), AgentRunError>)
      modifies this
      ensures forall lib :: Tracks(old(State()), r, ActOnStep(lib, old(State()), ResumeStep, now))
      ensures forall lib :: old(Valid(lib)) && old(updatedAt) <= now ==> Keeps(lib, old(State()), State(), now)
    {
      CallKeeps(State(), ResumeStep, now);
      r := Transition(StepRunning, now);
    }

    method Succeed(
        lib: Library, newOutput: Value, newProof: AgentModel.Proof, now: Time)
      returns (r: Result<(), AgentRunError>)
      modifies this
      ensures Tracks(old(State()), r, ActOnStep(lib, old(State()), SucceedStep(newOutput, newProof), now))
      ensures old(Valid(lib)) && old(updatedAt) <= now ==> Keeps(lib, old(State()), State(), now)
    {
      CallKeeps(State(), SucceedStep(newOutput, newProof), now);
      if newProof.body.operation != ProofOperation(born.operation, born.version)
        || newProof.body.inputDigest != born.inputDigest
        || CanonicalDigest(OperationOutput, newOutput, lib.parse) != Some(newProof.body.outputDigest)
      {
        return Err(ProofMismatch);
      }
      r := Transition(StepSucceeded, now);
      if r.Ok? {
        output, proof, error := Some(newOutput), Some(newProof), None;
      }
    }

    method Fail(message: string, now: Time) returns (r: Result<(), AgentRunError>)
      modifies this
      ensures forall lib :: Tracks(old(State()), r, ActOnStep(lib, old(State()), FailStep(message), now))
      ensures forall lib :: old(Valid(lib)) && old(updatedAt) <= now ==> Keeps(lib, old(State()), State(), now)
    {
      CallKeeps(State(), FailStep(message), now);
      r := Transition(StepFailed, now);
      if r.Ok? {
        error := Some(message);
      }
    }

    method Cancel(now: Time) returns (r: Result<(), AgentRunError>)
      modifies this
      ensures forall lib :: Tracks(old(State()), r, ActOnStep(lib, old(State()), CancelStep, now))
      ensures forall lib :: old(Valid(lib)) && old(updatedAt) <= now ==> Keeps(lib, old(State()), State(), now)
    {
      CallKeeps(State(), CancelStep, now);
      r := Transition(StepCancelled, now);
    }
  }
}
