/** The scan over a run's steps: ordinals, attempts, retry lineage and times. */
module TraceTopology {
  import opened Prelude
  import opened AgentModel
  import opened TraceModel

  predicate RunTimesOk(run: AgentRun) {
    && run.createdAt <= run.updatedAt
    && (run.completedAt.Some? <==> run.status.IsTerminal())
    && (run.completedAt.Some? ==> run.completedAt.value == run.updatedAt)
  }

  predicate StepTimesOk(run: AgentRun, step: AgentRunStep) {
    && run.createdAt <= step.createdAt <= step.updatedAt
    && (step.startedAt.Some? ==> step.createdAt <= step.startedAt.value)
    && (step.completedAt.Some? ==> step.startedAt.Some? && step.startedAt.value <= step.completedAt.value)
    && (run.completedAt.Some? ==>
      && step.createdAt <= run.completedAt.value && step.updatedAt <= run.completedAt.value
      && (step.startedAt.Some? ==> step.startedAt.value <= run.completedAt.value)
      && (step.completedAt.Some? ==> step.completedAt.value <= run.completedAt.value))
  }

  predicate FirstAttempt(step: AgentRunStep, ordinal: u32) {
    step.ordinal == ordinal && step.attempt == 1 && step.retryOf.None?
  }

  predicate RetryOf(step: AgentRunStep, parent: AgentRunStep) {
    && step.ordinal == parent.ordinal
    && step.attempt == SaturatingInc32(parent.attempt)
    && step.retryOf == Some(parent.id)
    && (parent.status.StepFailed? || parent.status.StepCancelled?)
    && step.operation == parent.operation && step.version == parent.version && step.inputDigest == parent.inputDigest
    && parent.completedAt.Some? && parent.completedAt.value <= step.createdAt
  }

  /** Step `i` opens the next ordinal or retries the step just before it. */
  predicate PlacedAt(steps: seq<AgentRunStep>, i: nat)
    requires i < |steps|
  {
    if i == 0 then FirstAttempt(steps[0], 0)
    else if steps[i].ordinal == steps[i - 1].ordinal then RetryOf(steps[i], steps[i - 1])
    else FirstAttempt(steps[i], SaturatingInc32(steps[i - 1].ordinal))
  }

  predicate FreshId(steps: seq<AgentRunStep>, i: nat)
    requires i < |steps|
  {
    forall j :: 0 <= j < i ==> steps[j].id != steps[i].id
  }

  predicate StepOk(run: AgentRun, steps: seq<AgentRunStep>, i: nat)
    requires i < |steps|
  {
    FreshId(steps, i) && PlacedAt(steps, i) && StepTimesOk(run, steps[i])
  }

  predicate StepsOk(run: AgentRun, steps: seq<AgentRunStep>, n: nat)
    requires n <= |steps|
  {
    forall i :: 0 <= i < n ==> StepOk(run, steps, i)
  }

  predicate TopologyOk(run: AgentRun, steps: seq<AgentRunStep>) {
    RunTimesOk(run) && StepsOk(run, steps, |steps|)
  }

  function RunTimeIssues(run: AgentRun): (issues: seq<Issue>)
    ensures issues == [] <==> RunTimesOk(run)
  {
    When(run.updatedAt < run.createdAt, RunTimestampOrderInvalid)
    + match run.completedAt
      case Some(at) =>
        if at < run.createdAt || at != run.updatedAt then [RunCompletionTimestampInvalid]
        else When(!run.status.IsTerminal(), NonterminalRunHasCompletion)
      case None => When(run.status.IsTerminal(), TerminalRunCompletionMissing)
  }

  function StepTimeIssues(run: AgentRun, step: AgentRunStep): (issues: seq<Issue>)
    ensures issues == [] <==> StepTimesOk(run, step)
  {
    When(step.createdAt < run.createdAt || step.updatedAt < step.createdAt, StepTimestampOrderInvalid)
    + When(
      || (step.startedAt.Some? && step.startedAt.value < step.createdAt)
      || (step.completedAt.Some? && (step.startedAt.None? || step.completedAt.value < step.startedAt.value)),
      StepExecutionWindowInvalid)
    + When(
      && run.completedAt.Some?
      && (|| step.createdAt > run.completedAt.value || step.updatedAt > run.completedAt.value
          || (step.startedAt.Some? && step.startedAt.value > run.completedAt.value)
          || (step.completedAt.Some? && step.completedAt.value > run.completedAt.value)),
      StepTimestampOutsideRun)
  }

  function LineageIssues(step: AgentRunStep, previous: Option<AgentRunStep>): seq<Issue> {
    match previous
    case None => When(step.retryOf.Some?, FirstStepAttemptHasRetryParent)
    case Some(p) =>
      When(step.retryOf != Some(p.id), StepRetryLineageInvalid)
      + When(!p.status.StepFailed? && !p.status.StepCancelled?, StepRetryParentNotRetryable)
      + When(
        step.operation != p.operation || step.version != p.version || step.inputDigest != p.inputDigest,
        StepRetryCallMismatch)
      + When(p.completedAt.None? || step.createdAt < p.completedAt.value, StepRetryPrecedesParentCompletion)
  }

  /** What the scan remembers between steps. */
  datatype Cursors = Cursors(
    current: Option<u32>, expectedOrdinal: u32, expectedAttempt: u32, previous: Option<AgentRunStep>)

  /** The cursors agree with the last step placed. */
  predicate CursorsAt(steps: seq<AgentRunStep>, i: nat, c: Cursors)
    requires i <= |steps|
  {
    if i == 0 then c.current.None? && c.expectedOrdinal == 0
    else
      var last := steps[i - 1];
      c == Cursors(Some(last.ordinal), SaturatingInc32(last.ordinal), SaturatingInc32(last.attempt), Some(last))
  }

  /** Places one step against the cursors and advances them. */
  method PlaceStep(step: AgentRunStep, cursors: Cursors, ghost steps: seq<AgentRunStep>, ghost i: nat)
    returns (found: seq<Issue>, next: Cursors)
    requires i < |steps| && step == steps[i]
    ensures CursorsAt(steps, i, cursors) ==> (found == [] <==> PlacedAt(steps, i))
    ensures CursorsAt(steps, i, cursors) && found == [] ==> CursorsAt(steps, i + 1, next)
  {
    found := [];
    next := cursors;
    if next.current != Some(step.ordinal) {
      found := When(step.ordinal != next.expectedOrdinal, StepOrdinalNotContiguous);
      next := Cursors(Some(step.ordinal), SaturatingInc32(next.expectedOrdinal), 1, None);
    }
    found := found + When(step.attempt != next.expectedAttempt, StepAttemptNotContiguous)
    + LineageIssues(step, next.previous);
    next := next.(expectedAttempt := SaturatingInc32(next.expectedAttempt), previous := Some(step));
  }

  /** The scan reports nothing exactly when the steps form contiguous ordinals of
      well-linked attempts with consistent times. */
  method StepTopologyIssues(run: AgentRun, steps: seq<AgentRunStep>) returns (issues: seq<Issue>)
    ensures issues == [] <==> TopologyOk(run, steps)
  {
    hide StepTimesOk;
    hide RunTimesOk;
    hide PlacedAt;
    issues := RunTimeIssues(run);
    var seenIds: set<Uuid> := {};
    var cursors := Cursors(None, 0, 1, None);
    for i := 0 to |steps|
      invariant seenIds == set j | 0 <= j < i :: steps[j].id
      invariant issues == [] <==> RunTimesOk(run) && StepsOk(run, steps, i)
      invariant issues == [] ==> CursorsAt(steps, i, cursors)
    {
      var step := steps[i];
      assert step.id in seenIds <==> !FreshId(steps, i);
      ghost var clean := issues == [];
      issues := issues + When(step.id in seenIds, DuplicateStepId);
      seenIds := seenIds + {step.id};
      var found, next := PlaceStep(step, cursors, steps, i);
      cursors := next;
      issues := issues + found + StepTimeIssues(run, step);
      assert issues == [] <==> clean && StepOk(run, steps, i);
    }
  }

  /** The scan alone admits retries; when every step succeeded it does not: the
      ordinals are 0, 1, 2, ..., each step is a first attempt, and no counter
      saturates on the way. */
  lemma {:induction false} SucceededStepsAreInOrder(run: AgentRun, steps: seq<AgentRunStep>, i: nat)
    requires TopologyOk(run, steps) && i < |steps|
    requires forall j :: 0 <= j < |steps| ==> steps[j].status.StepSucceeded?
    ensures steps[i].ordinal == i && steps[i].attempt == 1 && steps[i].retryOf.None?
  {
    assert StepOk(run, steps, i);
    if i == 0 {
    } else {
      SucceededStepsAreInOrder(run, steps, i - 1);
    }
  }

  /** Attempts under one ordinal do not overlap: in an accepted list an earlier
      one has ended before a later one is created. */
  lemma {:induction false} AttemptsDoNotOverlap(run: AgentRun, steps: seq<AgentRunStep>, i: nat, j: nat)
    requires TopologyOk(run, steps) && i < j < |steps| && steps[i].ordinal == steps[j].ordinal
    ensures steps[i].completedAt.Some? && steps[i].completedAt.value <= steps[j].createdAt
    ensures steps[i].attempt <= steps[j].attempt
    decreases j
  {
    assert StepOk(run, steps, j) && StepOk(run, steps, j - 1);
    OrdinalsAscend(run, steps, i, j - 1);
    OrdinalsAscend(run, steps, j - 1, j);
    if i < j - 1 {
      AttemptsDoNotOverlap(run, steps, i, j - 1);
    }
  }

  lemma {:induction false} OrdinalsAscend(run: AgentRun, steps: seq<AgentRunStep>, i: nat, j: nat)
    requires TopologyOk(run, steps) && i <= j < |steps|
    ensures steps[i].ordinal <= steps[j].ordinal
    decreases j
  {
    if i == j {
    } else {
      assert StepOk(run, steps, j);
      OrdinalsAscend(run, steps, i, j - 1);
    }
  }

  lemma TopologyMakesIdsDistinct(run: AgentRun, steps: seq<AgentRunStep>)
    requires TopologyOk(run, steps)
    ensures forall i, j :: 0 <= i < j < |steps| ==> steps[i].id != steps[j].id
  {
    forall i, j | 0 <= i < j < |steps| ensures steps[i].id != steps[j].id {
      assert StepOk(run, steps, j);
    }
  }
}
