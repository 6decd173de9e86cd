/** The deterministic evaluation of a trace: ten checks, one verdict, and what a
    passing verdict guarantees. */
module TraceEval {
  import opened Prelude
  import opened Json
  import opened Canonical
  import opened CanonicalTheorems
  import opened Digests
  import opened AgentModel
  import opened TraceModel
  import opened TraceMatching
  import opened TraceTopology
  import opened TraceApprovals
  import opened TraceLifecycle

  datatype FinalOutputSource = Arguments | Output | ProofId

  datatype FinalOutputReference = FinalOutputReference(callIndex: nat, source: FinalOutputSource,
    pointer: Option<string>)

  datatype Policy = Policy(
    expected: seq<ExpectedCall>, allowAdditionalCalls: bool, references: seq<FinalOutputReference>)

  datatype EvaluationOutcome = Passed | NotPassed

  datatype Evaluation = Evaluation(runId: Uuid, evaluator: string, outcome: EvaluationOutcome, scoreBps: nat)

  datatype EvaluationError = Binding | RunNotTerminal | EmptyEvaluator | InvalidMetrics

  // ----- the evaluation order of steps

  predicate KeyLess(a: AgentRunStep, b: AgentRunStep) {
    || a.ordinal < b.ordinal
    || (a.ordinal == b.ordinal && a.attempt < b.attempt)
    || (a.ordinal == b.ordinal && a.attempt == b.attempt && a.id < b.id)
  }

  predicate Sorted(steps: seq<AgentRunStep>) {
    forall i, j :: 0 <= i < j < |steps| ==> !KeyLess(steps[j], steps[i])
  }

  function InsertStep(step: AgentRunStep, steps: seq<AgentRunStep>): (r: seq<AgentRunStep>)
    ensures multiset(r) == multiset([step]) + multiset(steps)
  {
    if steps == [] || !KeyLess(steps[0], step) then [step] + steps
    else
      assert steps == [steps[0]] + steps[1..];
      [steps[0]] + InsertStep(step, steps[1..])
  }

  lemma {:induction false} InsertKeepsSorted(step: AgentRunStep, steps: seq<AgentRunStep>)
    requires Sorted(steps)
    ensures Sorted(InsertStep(step, steps))
  {
    if steps != [] && KeyLess(steps[0], step) {
      var rest := InsertStep(step, steps[1..]);
      InsertKeepsSorted(step, steps[1..]);
      forall x | x in rest ensures !KeyLess(x, steps[0]) {
        assert x in multiset(rest);
        assert x == step || x in steps[1..];
      }
    } else if steps != [] {
      forall j | 0 <= j < |steps| ensures !KeyLess(steps[j], step) {
        assert j > 0 ==> !KeyLess(steps[j], steps[0]);
      }
    }
  }

  function SortSteps(steps: seq<AgentRunStep>): (r: seq<AgentRunStep>)
    ensures multiset(r) == multiset(steps)
  {
    if steps == [] then []
    else
      assert steps == [steps[0]] + steps[1..];
      InsertStep(steps[0], SortSteps(steps[1..]))
  }

  lemma {:induction false} SortStepsSorts(steps: seq<AgentRunStep>)
    ensures Sorted(SortSteps(steps))
  {
    if steps == [] {
    } else {
      SortStepsSorts(steps[1..]);
      InsertKeepsSorted(steps[0], SortSteps(steps[1..]));
    }
  }

  /** In evaluation order ordinals never fall, attempts never fall within an ordinal,
      and ids never within an attempt. */
  lemma StepsInOrder(steps: seq<AgentRunStep>, i: nat, j: nat)
    requires i < j < |steps|
    ensures |SortSteps(steps)| == |steps|
    ensures var a, b := SortSteps(steps)[i], SortSteps(steps)[j];
      && a.ordinal <= b.ordinal
      && (a.ordinal == b.ordinal ==> a.attempt <= b.attempt)
      && (a.ordinal == b.ordinal && a.attempt == b.attempt ==> a.id <= b.id)
  {
    SortStepsSorts(steps);
    assert |multiset(SortSteps(steps))| == |multiset(steps)|;
  }

  // ----- the checks

  predicate Allowlisted(agent: AgentDefinition, step: AgentRunStep) {
    exists i :: 0 <= i < |agent.tools| && agent.tools[i] == Tool(step.operation, step.version)
  }

  predicate IsFailure(event: AgentRunEvent) {
    event.kind.ToolFailed? || event.kind.RunFailed? || event.kind.BudgetExceeded?
  }

  predicate NoFailures(events: seq<AgentRunEvent>) {
    forall i :: 0 <= i < |events| ==> events[i].kind !in {ToolFailed, RunFailed, BudgetExceeded}
  }

  predicate Contains(text: string, part: string) {
    exists i :: 0 <= i <= |text| && part <= text[i..]
  }

  function ScalarText(lib: Library, v: Option<Value>): Option<string> {
    match v
    case Some(Str(s)) => NonBlank(Some(s))
    case Some(Num(n)) => NonBlank(Some(lib.showNumber(n)))
    case Some(Bool(b)) => Some(if b then "true" else "false")
    case _ => None
  }

  function ReferencedText(
      lib: Library, call: ExpectedCall, step: AgentRunStep, reference: FinalOutputReference): Option<string>
  {
    match reference.source
    case Arguments =>
      if reference.pointer.None? then None else ScalarText(lib, lib.pointer(call.arguments, reference.pointer.value))
    case Output =>
      if reference.pointer.None? || step.output.None? then None
      else ScalarText(lib, lib.pointer(step.output.value, reference.pointer.value))
    case ProofId => if step.proof.None? then None else Some(lib.showUuid(step.proof.value.body.id))
  }

  function ReportedOutput(events: seq<AgentRunEvent>): string {
    if events == [] || !events[|events| - 1].kind.Completed? then ""
    else
      match GetString(events[|events| - 1].data, "output")
      case Some(s) => s
      case None => ""
  }

  /** The final output mentions the value a reference selects. */
  predicate Reported(lib: Library, policy: Policy, t: Trace, positions: Positions, reference: FinalOutputReference)
    requires |positions| == |policy.expected| && InRange(positions, t.steps)
  {
    && reference.callIndex < |positions| && positions[reference.callIndex].Some?
    && var text := ReferencedText(
         lib, policy.expected[reference.callIndex], t.steps[positions[reference.callIndex].value], reference);
    text.Some? && Contains(ReportedOutput(t.events), text.value)
  }

  // What reporting means, apart from how it is looked up.

  /** The text that stands for a scalar. */
  predicate Says(lib: Library, v: Value, text: string) {
    match v
    case Str(s) => text == s && !IsBlank(text)
    case Num(n) => text == lib.showNumber(n) && !IsBlank(text)
    case Bool(b) => text == if b then "true" else "false"
    case _ => false
  }

  /** The reference picks this text: the id of the step's proof, or a scalar in the
      arguments of the expected call or in the output of the step that matched. */
  predicate Selects(lib: Library, call: ExpectedCall, step: AgentRunStep, r: FinalOutputReference, text: string) {
    if r.source.ProofId? then step.proof.Some? && text == lib.showUuid(step.proof.value.body.id)
    else
      && r.pointer.Some? && (r.source.Output? ==> step.output.Some?)
      && var v := lib.pointer(if r.source.Output? then step.output.value else call.arguments, r.pointer.value);
      v.Some? && Says(lib, v.value, text)
  }

  /** What the run reported at its end; nothing unless it completed with a text. */
  predicate FinallySaid(events: seq<AgentRunEvent>, output: string) {
    if events != [] && events[|events| - 1].kind == Completed
      && AsString(Get(events[|events| - 1].data, "output")).Some?
    then Get(events[|events| - 1].data, "output") == Some(Str(output))
    else output == ""
  }

  ghost predicate Occurs(part: string, text: string) {
    exists before, after :: text == before + part + after
  }

  /** The final output mentions what a reference selects. */
  ghost predicate Mentioned(lib: Library, policy: Policy, t: Trace, positions: Positions, r: FinalOutputReference)
    requires |positions| == |policy.expected| && InRange(positions, t.steps)
  {
    && r.callIndex < |positions| && positions[r.callIndex].Some?
    && exists text, output ::
      && Selects(lib, policy.expected[r.callIndex], t.steps[positions[r.callIndex].value], r, text)
      && FinallySaid(t.events, output) && Occurs(text, output)
  }

  lemma ContainsIsOccurrence(text: string, part: string)
    ensures Contains(text, part) <==> Occurs(part, text)
  {
    if i :| 0 <= i <= |text| && part <= text[i..] {
      assert text == text[..i] + part + text[i + |part|..];
    }
    if before, after :| text == before + part + after {
      assert text[|before|..] == part + after;
      assert part <= text[|before|..];
    }
  }

  lemma SelectsOnly(lib: Library, call: ExpectedCall, step: AgentRunStep, r: FinalOutputReference, text: string)
    ensures Selects(lib, call, step, r, text) <==> ReferencedText(lib, call, step, r) == Some(text)
  {
  }

  lemma SaidIsReported(events: seq<AgentRunEvent>, output: string)
    ensures FinallySaid(events, output) <==> output == ReportedOutput(events)
  {
  }

  /** The lookup finds exactly what is mentioned. */
  lemma ReportedExactlyWhen(lib: Library, policy: Policy, t: Trace, positions: Positions, r: FinalOutputReference)
    requires |positions| == |policy.expected| && InRange(positions, t.steps)
    ensures Reported(lib, policy, t, positions, r) <==> Mentioned(lib, policy, t, positions, r)
  {
    hide Selects;
    hide FinallySaid;
    hide ReferencedText;
    hide ReportedOutput;
    hide Contains;
    hide Occurs;
    if r.callIndex < |positions| && positions[r.callIndex].Some? {
      var call, step := policy.expected[r.callIndex], t.steps[positions[r.callIndex].value];
      SaidIsReported(t.events, ReportedOutput(t.events));
      if ReferencedText(lib, call, step, r).Some? {
        var text := ReferencedText(lib, call, step, r).value;
        SelectsOnly(lib, call, step, r, text);
        ContainsIsOccurrence(ReportedOutput(t.events), text);
      }
      forall text, output | Selects(lib, call, step, r, text) && FinallySaid(t.events, output)
        ensures ReferencedText(lib, call, step, r) == Some(text) && output == ReportedOutput(t.events)
      {
        SelectsOnly(lib, call, step, r, text);
        SaidIsReported(t.events, output);
      }
    }
  }

  ghost predicate AllReported(lib: Library, policy: Policy, t: Trace, positions: Positions)
    requires |positions| == |policy.expected| && InRange(positions, t.steps)
  {
    forall i :: 0 <= i < |policy.references| ==> Mentioned(lib, policy, t, positions, policy.references[i])
  }

  /** Steps matched by the calls that need an approval. */
  function RequiredStepIds(expected: seq<ExpectedCall>, positions: Positions, steps: seq<AgentRunStep>): set<Uuid>
    requires |positions| == |expected| && InRange(positions, steps)
  {
    set j | 0 <= j < |expected| && expected[j].requiresApprovedExecution && positions[j].Some?
      :: steps[positions[j].value].id
  }

  ghost predicate ExpectedMet(policy: Policy, steps: seq<AgentRunStep>) {
    if policy.allowAdditionalCalls then IsSubsequence(policy.expected, steps)
    else AgreePointwise(policy.expected, steps)
  }

  predicate AllProven(lib: Library, t: Trace) {
    forall i :: 0 <= i < |t.steps| ==> StepProven(lib, t.run, t.actor, t.steps[i])
  }

  predicate AllAllowlisted(t: Trace) {
    forall i :: 0 <= i < |t.steps| ==> Allowlisted(t.agent, t.steps[i])
  }

  /** The greedy matching lies within the steps and respects their order. */
  lemma MatchInRange(expected: seq<ExpectedCall>, steps: seq<AgentRunStep>)
    ensures InRange(GreedyMatch(expected, steps), steps) && PositionsIncrease(GreedyMatch(expected, steps))
  {
    GreedyMatchIsGreedy(expected, steps);
    GreedyIncreases(expected, steps, GreedyMatch(expected, steps));
  }

  /** What a passing verdict means, for a trace whose steps are in order. */
  ghost predicate TaskCorrect(lib: Library, policy: Policy, t: Trace) {
    var positions := GreedyMatch(policy.expected, t.steps);
    MatchInRange(policy.expected, t.steps);
    && t.run.status.Succeeded?
    && t.run.agentId == Some(t.agent.id)
    && t.actor.id == t.run.actor && t.actor.kind.Agent?
    && ExpectedMet(policy, t.steps)
    && AllProven(lib, t)
    && AllAllowlisted(t)
    && OneToOne(lib, t, policy.expected, positions)
    && AllReported(lib, policy, t, positions)
    && Lifecycle(lib, t, RequiredStepIds(policy.expected, positions, t.steps))
    && NoFailures(t.events)
  }

  /** What each of the ten checks asks of a trace, in the order of the report. */
  ghost function Verdicts(lib: Library, policy: Policy, t: Trace): (v: seq<bool>)
    ensures |v| == 10
  {
    var positions := GreedyMatch(policy.expected, t.steps);
    MatchInRange(policy.expected, t.steps);
    [ t.run.status.Succeeded?,
      t.run.agentId == Some(t.agent.id),
      t.actor.id == t.run.actor && t.actor.kind.Agent?,
      ExpectedMet(policy, t.steps),
      AllProven(lib, t),
      AllAllowlisted(t),
      ApprovalsAccounted(lib, t, policy.expected, positions),
      AllReported(lib, policy, t, positions),
      Lifecycle(lib, t, RequiredStepIds(policy.expected, positions, t.steps)),
      NoFailures(t.events) ]
  }

  // ----- the evaluation

  function Holding(checks: seq<bool>): set<nat> {
    set i | 0 <= i < |checks| && checks[i]
  }

  /** Counts the checks that passed. */
  method CountPassed(checks: seq<bool>) returns (n: nat)
    ensures n == |Holding(checks)|
    ensures n == |checks| <==> false !in checks
    ensures n <= |checks|
  {
    n := 0;
    for i := 0 to |checks|
      invariant n == |Holding(checks[..i])| && n <= i
      invariant n == i <==> false !in checks[..i]
    {
      var before, after := Holding(checks[..i]), Holding(checks[..i + 1]);
      assert after == before + if checks[i] then {i} else {};
      assert checks[..i + 1] == checks[..i] + [checks[i]];
      if checks[i] {
        n := n + 1;
      }
    }
    assert checks[..|checks|] == checks;
  }

  method ApprovalsPass(lib: Library, t: Trace, expected: seq<ExpectedCall>, positions: Positions) returns (passed: bool)
    requires |expected| == |positions| && InRange(positions, t.steps) && PositionsIncrease(positions)
    ensures passed <==> ApprovalsAccounted(lib, t, expected, positions)
    ensures DistinctIds(t.steps) ==> (passed <==> OneToOne(lib, t, expected, positions))
  {
    hide OneToOne;
    hide EntriesOk;
    var results := RequiredApprovalResults(lib, t, expected, positions);
    passed := AllPassed(results);
    if DistinctIds(t.steps) {
      PassingIffOneToOne(lib, t, expected, positions);
    }
  }

  method ExpectedPass(policy: Policy, steps: seq<AgentRunStep>) returns (passed: bool, positions: Positions)
    ensures positions == GreedyMatch(policy.expected, steps)
    ensures InRange(positions, steps) && PositionsIncrease(positions)
    ensures passed <==> ExpectedMet(policy, steps)
  {
    hide Embeds;
    positions := MatchExpectedCalls(policy.expected, steps);
    passed := AllMatched(positions) && (policy.allowAdditionalCalls || |steps| == |policy.expected|);
    ExactMatchIsPointwise(policy.expected, steps);
  }

  /** The steps without a valid proof. */
  method InvalidSteps(lib: Library, t: Trace) returns (invalid: seq<Uuid>)
    ensures invalid == [] <==> AllProven(lib, t)
  {
    hide StepProven;
    invalid := [];
    for i := 0 to |t.steps|
      invariant invalid == [] <==> forall j :: 0 <= j < i ==> StepProven(lib, t.run, t.actor, t.steps[j])
    {
      if InvalidStepDetails(lib, t.run, t.actor, t.steps[i]) != [] {
        invalid := invalid + [t.steps[i].id];
      }
    }
  }

  method UnallowlistedCalls(t: Trace) returns (calls: seq<Uuid>)
    ensures calls == [] <==> AllAllowlisted(t)
  {
    calls := [];
    for i := 0 to |t.steps|
      invariant calls == [] <==> forall j :: 0 <= j < i ==> Allowlisted(t.agent, t.steps[j])
    {
      var allowed := false;
      for k := 0 to |t.agent.tools|
        invariant allowed <==>
          exists m :: 0 <= m < k && t.agent.tools[m] == Tool(t.steps[i].operation, t.steps[i].version)
      {
        if t.agent.tools[k].operation == t.steps[i].operation && t.agent.tools[k].version == t.steps[i].version {
          allowed := true;
        }
      }
      if !allowed {
        calls := calls + [t.steps[i].id];
      }
    }
  }

  method FailureEvents(events: seq<AgentRunEvent>) returns (failures: seq<AgentRunEvent>)
    ensures failures == [] <==> NoFailures(events)
  {
    failures := [];
    for i := 0 to |events|
      invariant failures == [] <==> NoFailures(events[..i])
    {
      assert events[..i + 1] == events[..i] + [events[i]];
      if IsFailure(events[i]) {
        failures := failures + [events[i]];
      }
    }
    assert events[..|events|] == events;
  }

  /** One result per reference. */
  method FinalOutputResults(lib: Library, policy: Policy, t: Trace, positions: Positions) returns (results: seq<bool>)
    requires |positions| == |policy.expected| && InRange(positions, t.steps)
    ensures false !in results <==> AllReported(lib, policy, t, positions)
  {
    hide Reported;
    hide Mentioned;
    results := [];
    for i := 0 to |policy.references|
      invariant false !in results <==>
        forall j :: 0 <= j < i ==> Mentioned(lib, policy, t, positions, policy.references[j])
    {
      ReportedExactlyWhen(lib, policy, t, positions, policy.references[i]);
      results := results + [Reported(lib, policy, t, positions, policy.references[i])];
    }
  }

  /** Goes through calls and positions together. */
  method CollectRequired(expected: seq<ExpectedCall>, positions: Positions, steps: seq<AgentRunStep>)
    returns (required: set<Uuid>)
    requires |positions| == |expected| && InRange(positions, steps)
    ensures required == RequiredStepIds(expected, positions, steps)
  {
    required := {};
    for i := 0 to |expected|
      invariant forall id :: id in required <==>
        exists j :: 0 <= j < i && expected[j].requiresApprovedExecution && positions[j].Some?
          && steps[positions[j].value].id == id
    {
      if expected[i].requiresApprovedExecution && positions[i].Some? {
        required := required + {steps[positions[i].value].id};
      }
    }
  }

  lemma LifecycleGivesDistinctIds(lib: Library, t: Trace, required: set<Uuid>)
    requires Lifecycle(lib, t, required)
    ensures DistinctIds(t.steps)
  {
    TopologyMakesIdsDistinct(t.run, t.steps);
  }

  /** The ten verdicts, in order. */
  method Checks(lib: Library, policy: Policy, t: Trace) returns (checks: seq<bool>)
    ensures checks == Verdicts(lib, policy, t)
    ensures false !in checks <==> TaskCorrect(lib, policy, t)
  {
    hide OneToOne;
    hide ApprovalsAccounted;
    hide Lifecycle;
    hide ExpectedMet;
    hide AllProven;
    hide AllAllowlisted;
    hide AllReported;
    hide NoFailures;
    var expectedPassed, positions := ExpectedPass(policy, t.steps);
    var approvalsPassed := ApprovalsPass(lib, t, policy.expected, positions);
    var required := CollectRequired(policy.expected, positions, t.steps);
    var lifecycleIssues := LifecycleIssues(lib, t, required);
    var invalid := InvalidSteps(lib, t);
    var unallowlisted := UnallowlistedCalls(t);
    var reported := FinalOutputResults(lib, policy, t, positions);
    var failures := FailureEvents(t.events);
    checks := [
      t.run.status.Succeeded?,
      t.run.agentId == Some(t.agent.id),
      t.actor.id == t.run.actor && t.actor.kind.Agent?,
      expectedPassed,
      invalid == [],
      unallowlisted == [],
      approvalsPassed,
      false !in reported,
      lifecycleIssues == [],
      failures == []];
    if Lifecycle(lib, t, required) {
      LifecycleGivesDistinctIds(lib, t, required);
    }
    assert false !in checks <==> forall i :: 0 <= i < 10 ==> checks[i];
  }

  const TRACE_SCHEMA := "proof-agent-trace-snapshot/v1"

  /** The digest that binds an evaluation to its input. */
  function BindingDigest(lib: Library, schema: string, v: Value): Option<ContentDigest> {
    CanonicalDigest(Generic, Obj([Member("schema", Str(schema)), Member("value", v)]), lib.parse)
  }

  lemma BindsExactlyWhen(lib: Library, schema: string, v: Value)
    requires WellFormed(v)
    ensures BindingDigest(lib, schema, v).Some? <==> Exact(v, lib.parse)
  {
    var members := [Member("schema", Str(schema)), Member("value", v)];
    assert "schema"[0] != "value"[0];
    assert members[0].value == Str(schema) && members[1].value == v;
    RendersNormalForm(Obj(members), lib.parse);
  }

  /** The verdict on a trace, given with its own JSON and that of the metrics: it
      fails to be given only for a run that has not ended, a blank evaluator, or
      JSON that holds a float without an exact text; it is Passed exactly for
      task-correct traces, and scores a tenth of the maximum for each check that
      the trace meets. */
  method Evaluate(lib: Library, policy: Policy, trace: Trace, evaluator: string, traceJson: Value, metricsJson: Value)
    returns (r: Result<Evaluation, EvaluationError>)
    requires WellFormed(traceJson) && WellFormed(metricsJson)
    ensures r.Ok? <==>
      && Exact(traceJson, lib.parse) && Exact(metricsJson, lib.parse)
      && trace.run.status.IsTerminal() && !IsBlank(evaluator)
    ensures r.Ok? ==>
      && r.value.runId == trace.run.id && r.value.evaluator == evaluator
      && (r.value.outcome.Passed? <==> TaskCorrect(lib, policy, trace.(steps := SortSteps(trace.steps))))
      && (r.value.outcome.Passed? <==> r.value.scoreBps == 10_000)
      && r.value.scoreBps == 1_000 * |Holding(Verdicts(lib, policy, trace.(steps := SortSteps(trace.steps))))|
  {
    hide TaskCorrect;
    hide Verdicts;
    hide CanonicalValue;
    hide Exact;
    hide WellFormed;
    var t := trace.(steps := SortSteps(trace.steps));
    var checks := Checks(lib, policy, t);
    var passedChecks := CountPassed(checks);
    var score := passedChecks * 10_000 / 10;
    var outcome := if false !in checks then Passed else NotPassed;
    BindsExactlyWhen(lib, TRACE_SCHEMA, traceJson);
    RendersNormalForm(metricsJson, lib.parse);
    if BindingDigest(lib, TRACE_SCHEMA, traceJson).None? {
      return Err(Binding);
    }
    if !t.run.status.IsTerminal() {
      return Err(RunNotTerminal);
    }
    if IsBlank(evaluator) {
      return Err(EmptyEvaluator);
    }
    if CanonicalValue(metricsJson, lib.parse).Err? {
      return Err(InvalidMetrics);
    }
    return Ok(Evaluation(t.run.id, evaluator, outcome, score));
  }
}
