/** A family of passing traces with one approved step: a tool call that a human
    approved, then the finish.  All instants coincide but the expiry. */
module TraceApprovedExample {
  import opened Prelude
  import opened Json
  import opened Canonical
  import opened CanonicalTheorems
  import opened Digests
  import opened AgentModel
  import opened TraceModel
  import opened TraceMatching
  import opened TraceTopology
  import opened TraceApprovals
  import opened TraceLifecycle
  import opened TraceEval
  import opened TraceRecords

  const REQUESTED_AGAIN: seq<string> := ["model", "model_call", "previous_response_id"]
  const TOOL_DECISION: seq<string> := ["type", "call_id", "name", "arguments"]
  const TOOL_REQUESTED: seq<string> := ["step_id", "operation", "version", "call_id", "tool", "arguments"]
  const APPROVAL_REQUIRED: seq<string> := ["step_id", "request_id", "operation", "version", "expires_at"]
  const APPROVAL_RESUMED: seq<string> := ["step_id", "request_id", "decided_by", "outcome"]
  const TOOL_SUCCEEDED: seq<string> := ["step_id", "call_id", "operation", "version", "proof_id"]

  lemma CallNamesDistinct()
    ensures DistinctNames(REQUESTED_AGAIN) && DistinctNames(TOOL_DECISION)
  {
  }

  lemma EventNamesDistinct()
    ensures DistinctNames(TOOL_REQUESTED) && DistinctNames(APPROVAL_REQUIRED)
    ensures DistinctNames(APPROVAL_RESUMED) && DistinctNames(TOOL_SUCCEEDED)
  {
    assert "step_id"[0] == 's' && "version"[0] == 'v' && "call_id"[0] == 'c';
    assert "operation"[0] == 'o' && "arguments"[0] == 'a';
    assert "request_id"[0] == 'r' && "expires_at"[0] == 'e' && "decided_by"[0] == 'd';
  }

  // ----- the trace

  /** Everything the trace is about. */
  datatype Setting = Setting(
    lib: Library, run: AgentRun, agent: AgentDefinition, actor: Principal, approver: Principal, operation: string,
    version: string, arguments: Value, output: Value, stepId: Uuid, requestId: Uuid, proofId: Uuid, tool: string,
    callId: string, response: string, lastResponse: string, report: string, requestDigest: ContentDigest,
    agentText: string, stepText: string, requestText: string, proofText: string, approverText: string)

  function InputDigest(x: Setting): ContentDigest
    requires CanonicalDigest(OperationInput, x.arguments, x.lib.parse).Some?
  {
    CanonicalDigest(OperationInput, x.arguments, x.lib.parse).value
  }

  predicate Printing(x: Setting) {
    && WellFormed(x.arguments) && Exact(x.arguments, x.lib.parse)
    && CanonicalDigest(OperationInput, x.arguments, x.lib.parse).Some?
    && CanonicalDigest(OperationOutput, x.output, x.lib.parse).Some?
  }

  function StepProof(x: Setting): AgentModel.Proof
    requires Printing(x)
  {
    AgentModel.Proof(
      ProofBody(
        x.proofId, x.run.actor, ProofOperation(x.operation, x.version), InputDigest(x),
        CanonicalDigest(OperationOutput, x.output, x.lib.parse).value, x.run.updatedAt),
      "")
  }

  function Step(x: Setting): AgentRunStep
    requires Printing(x)
  {
    var now := x.run.updatedAt;
    AgentRunStep(
      x.stepId, x.run.id, 0, 1, None, x.operation, x.version, InputDigest(x), StepSucceeded, Some(x.requestId),
      Some(x.output), Some(StepProof(x)), None, 0, now, now, Some(now), Some(now))
  }

  function Request(x: Setting): SignedApprovalRequest
    requires Printing(x)
  {
    var now := x.run.updatedAt;
    SignedApprovalRequest(
      TraceModel.ApprovalRequest.ApprovalRequest(x.requestId, x.operation, x.version, InputDigest(x), x.run.actor,
        now, now + 1), "")
  }

  function Decision(x: Setting): SignedApprovalDecision {
    SignedApprovalDecision(
      TraceModel.ApprovalDecision.ApprovalDecision(0, x.requestId, x.requestDigest, Approved, x.approver.id,
        x.run.updatedAt, None), "")
  }

  function Evidence(x: Setting): ApprovalEvidence
    requires Printing(x)
  {
    ApprovalEvidence(
      Request(x), Decision(x), x.approver, ApprovalExecution(x.requestId, x.run.updatedAt, x.output, StepProof(x)))
  }

  /** The run succeeded, the parties are who they should be, the signatures
      verify, and the texts name what they should. */
  predicate Coherent(x: Setting)
    requires Printing(x)
  {
    && RunTimesOk(x.run) && x.run.status.Succeeded? && x.run.agentId == Some(x.agent.id)
    && x.actor.id == x.run.actor && x.actor.kind.Agent? && x.approver.kind.Human?
    && Tool(x.operation, x.version) in x.agent.tools
    && x.lib.proofVerifies(StepProof(x), x.actor.publicKey)
    && x.lib.requestSigned(Request(x), x.actor.publicKey)
    && x.lib.decisionSigned(Decision(x), x.approver.publicKey)
    && x.lib.requestDigest(Request(x)) == Some(x.requestDigest)
    && x.lib.parseUuid(x.agentText) == Some(x.agent.id)
    && x.lib.parseUuid(x.stepText) == Some(x.stepId)
    && x.lib.parseUuid(x.requestText) == Some(x.requestId)
    && x.lib.parseUuid(x.proofText) == Some(x.proofId)
    && x.lib.parseUuid(x.approverText) == Some(x.approver.id)
    && !IsBlank(x.callId) && !IsBlank(x.response) && !IsBlank(x.lastResponse) && !IsBlank(x.report)
  }

  function ToolDecision(x: Setting): Value {
    Record(TOOL_DECISION, [Str("tool_call"), Str(x.callId), Str(x.tool), x.arguments])
  }

  /** The data of the ten events. */
  function Data(x: Setting, i: nat): Value
    requires i < 10
  {
    match i
    case 0 => StartedData(x.agentText, x.run.goal)
    case 1 => RequestedData(x.agent.model)
    case 2 => RespondedData(x.response, ToolDecision(x))
    case 3 => Record(TOOL_REQUESTED, [Str(x.stepText), Str(x.operation), Str(x.version), Str(x.callId),
      Str(x.tool), x.arguments])
    case 4 =>
      Record(APPROVAL_REQUIRED,
        [Str(x.stepText), Str(x.requestText), Str(x.operation), Str(x.version),
          Str(x.lib.showTime(x.run.updatedAt + 1))])
    case 5 => Record(APPROVAL_RESUMED, [Str(x.stepText), Str(x.requestText), Str(x.approverText), Str("approved")])
    case 6 => Record(TOOL_SUCCEEDED, [Str(x.stepText), Str(x.callId), Str(x.operation), Str(x.version),
      Str(x.proofText)])
    case 7 => Record(REQUESTED_AGAIN, [Str(x.agent.model), Num(Integer(2)), Str(x.response)])
    case 8 => RespondedData(x.lastResponse, FinishDecision(x.report))
    case _ => CompletedData(x.report)
  }

  const KINDS: seq<EventKind> := [
    Started, ModelRequested, ModelResponded, ToolRequested, ApprovalRequired, ApprovalResumed, ToolSucceeded,
    ModelRequested, ModelResponded, Completed]

  lemma DataPrintable(x: Setting, i: nat)
    requires Printing(x) && i < 10
    ensures CanonicalDigest(ArtifactKind.AgentEvent, Data(x, i), x.lib.parse).Some?
  {
    hide CanonicalDigest;
    NamesDistinct();
    CallNamesDistinct();
    EventNamesDistinct();
    RecordPrintable(x.lib, TOOL_DECISION, [Str("tool_call"), Str(x.callId), Str(x.tool), x.arguments]);
    CommonDataPrintable(x.lib, x.agentText, x.run.goal, x.agent.model, x.lastResponse, x.report);
    hide Record;
    hide DistinctNames;
    match i {
      case 2 => RecordPrintable(x.lib, RESPONDED, [Str(x.response), ToolDecision(x)]);
      case 3 =>
        RecordPrintable(x.lib, TOOL_REQUESTED,
          [Str(x.stepText), Str(x.operation), Str(x.version), Str(x.callId), Str(x.tool), x.arguments]);
      case 4 =>
        RecordPrintable(x.lib, APPROVAL_REQUIRED,
          [Str(x.stepText), Str(x.requestText), Str(x.operation), Str(x.version),
            Str(x.lib.showTime(x.run.updatedAt + 1))]);
      case 5 =>
        RecordPrintable(x.lib, APPROVAL_RESUMED, [Str(x.stepText), Str(x.requestText), Str(x.approverText),
          Str("approved")]);
      case 6 =>
        RecordPrintable(x.lib, TOOL_SUCCEEDED,
          [Str(x.stepText), Str(x.callId), Str(x.operation), Str(x.version), Str(x.proofText)]);
      case 7 => RecordPrintable(x.lib, REQUESTED_AGAIN, [Str(x.agent.model), Num(Integer(2)), Str(x.response)]);
      case _ =>
    }
  }

  function Event(x: Setting, i: nat): AgentRunEvent
    requires Printing(x) && i < 10
  {
    DataPrintable(x, i);
    RecordedEvent(x.lib, x.run, i, KINDS[i], Data(x, i))
  }

  function ApprovedTrace(x: Setting): Trace
    requires Printing(x)
  {
    Trace(
      x.run, x.agent, x.actor, [x.approver], [Step(x)], seq(10, i requires 0 <= i < 10 => Event(x, i)), [Evidence(x)])
  }

  function CallPolicy(x: Setting): Policy
    requires Printing(x)
  {
    Policy([ExpectedCall(x.operation, x.version, x.arguments, InputDigest(x), true)], false, [])
  }

  // ----- reading the data back

  lemma ExchangeData(x: Setting)
    ensures Get(Data(x, 0), "agent_id") == Some(Str(x.agentText)) && Get(Data(x, 0), "goal") == Some(Str(x.run.goal))
    ensures Get(Data(x, 1), "model") == Some(Str(x.agent.model))
    ensures Get(Data(x, 1), "model_call") == Some(Num(Integer(1)))
    ensures Get(Data(x, 1), "previous_response_id") == None
    ensures Get(Data(x, 2), "response_id") == Some(Str(x.response))
    ensures Get(Data(x, 2), "decision") == Some(ToolDecision(x))
  {
    hide Get;
    StartReads(x.agentText, x.run.goal, x.agent.model);
    ResponseReads(x.response, ToolDecision(x));
  }

  lemma FinishData(x: Setting)
    ensures Get(Data(x, 7), "model") == Some(Str(x.agent.model))
    ensures Get(Data(x, 7), "model_call") == Some(Num(Integer(2)))
    ensures Get(Data(x, 7), "previous_response_id") == Some(Str(x.response))
    ensures Get(Data(x, 8), "response_id") == Some(Str(x.lastResponse))
    ensures Get(Data(x, 8), "decision") == Some(FinishDecision(x.report))
    ensures Get(FinishDecision(x.report), "type") == Some(Str("finish"))
    ensures Get(FinishDecision(x.report), "output") == Some(Str(x.report))
    ensures Get(Data(x, 9), "output") == Some(Str(x.report))
  {
    CallNamesDistinct();
    hide DistinctNames;
    hide Get;
    var again := [Str(x.agent.model), Num(Integer(2)), Str(x.response)];
    RecordGet(REQUESTED_AGAIN, again, 0);
    RecordGet(REQUESTED_AGAIN, again, 1);
    RecordGet(REQUESTED_AGAIN, again, 2);
    ResponseReads(x.lastResponse, FinishDecision(x.report));
    FinishReads(x.report);
  }

  lemma ToolData(x: Setting)
    ensures Get(ToolDecision(x), "type") == Some(Str("tool_call"))
    ensures Get(ToolDecision(x), "call_id") == Some(Str(x.callId))
    ensures Get(ToolDecision(x), "name") == Some(Str(x.tool)) && Get(ToolDecision(x), "arguments") == Some(x.arguments)
    ensures Get(Data(x, 3), "step_id") == Some(Str(x.stepText)) && Get(Data(x, 3), "call_id") == Some(Str(x.callId))
    ensures Get(Data(x, 3), "operation") == Some(Str(x.operation)) && Get(Data(x, 3), "version") == Some(Str(x.version))
    ensures Get(Data(x, 3), "tool") == Some(Str(x.tool)) && Get(Data(x, 3), "arguments") == Some(x.arguments)
  {
    CallNamesDistinct();
    EventNamesDistinct();
    hide DistinctNames;
    hide Get;
    var decided := [Str("tool_call"), Str(x.callId), Str(x.tool), x.arguments];
    RecordGet(TOOL_DECISION, decided, 0);
    RecordGet(TOOL_DECISION, decided, 1);
    RecordGet(TOOL_DECISION, decided, 2);
    RecordGet(TOOL_DECISION, decided, 3);
    var asked := [Str(x.stepText), Str(x.operation), Str(x.version), Str(x.callId), Str(x.tool), x.arguments];
    RecordGet(TOOL_REQUESTED, asked, 0);
    RecordGet(TOOL_REQUESTED, asked, 1);
    RecordGet(TOOL_REQUESTED, asked, 2);
    RecordGet(TOOL_REQUESTED, asked, 3);
    RecordGet(TOOL_REQUESTED, asked, 4);
    RecordGet(TOOL_REQUESTED, asked, 5);
  }

  lemma ApprovalData(x: Setting)
    ensures Get(Data(x, 4), "step_id") == Some(Str(x.stepText))
    ensures Get(Data(x, 4), "request_id") == Some(Str(x.requestText))
    ensures Get(Data(x, 4), "operation") == Some(Str(x.operation)) && Get(Data(x, 4), "version") == Some(Str(x.version))
    ensures Get(Data(x, 4), "expires_at") == Some(Str(x.lib.showTime(x.run.updatedAt + 1)))
    ensures Get(Data(x, 5), "step_id") == Some(Str(x.stepText))
    ensures Get(Data(x, 5), "request_id") == Some(Str(x.requestText))
    ensures Get(Data(x, 5), "decided_by") == Some(Str(x.approverText))
    ensures Get(Data(x, 5), "outcome") == Some(Str("approved"))
  {
    EventNamesDistinct();
    hide DistinctNames;
    hide Get;
    var needed := [Str(x.stepText), Str(x.requestText), Str(x.operation), Str(x.version),
      Str(x.lib.showTime(x.run.updatedAt + 1))];
    RecordGet(APPROVAL_REQUIRED, needed, 0);
    RecordGet(APPROVAL_REQUIRED, needed, 1);
    RecordGet(APPROVAL_REQUIRED, needed, 2);
    RecordGet(APPROVAL_REQUIRED, needed, 3);
    RecordGet(APPROVAL_REQUIRED, needed, 4);
    var given := [Str(x.stepText), Str(x.requestText), Str(x.approverText), Str("approved")];
    RecordGet(APPROVAL_RESUMED, given, 0);
    RecordGet(APPROVAL_RESUMED, given, 1);
    RecordGet(APPROVAL_RESUMED, given, 2);
    RecordGet(APPROVAL_RESUMED, given, 3);
  }

  lemma SuccessData(x: Setting)
    ensures Get(Data(x, 6), "step_id") == Some(Str(x.stepText)) && Get(Data(x, 6), "call_id") == Some(Str(x.callId))
    ensures Get(Data(x, 6), "operation") == Some(Str(x.operation)) && Get(Data(x, 6), "version") == Some(Str(x.version))
    ensures Get(Data(x, 6), "proof_id") == Some(Str(x.proofText))
  {
    EventNamesDistinct();
    hide DistinctNames;
    hide Get;
    var done := [Str(x.stepText), Str(x.callId), Str(x.operation), Str(x.version), Str(x.proofText)];
    RecordGet(TOOL_SUCCEEDED, done, 0);
    RecordGet(TOOL_SUCCEEDED, done, 1);
    RecordGet(TOOL_SUCCEEDED, done, 2);
    RecordGet(TOOL_SUCCEEDED, done, 3);
    RecordGet(TOOL_SUCCEEDED, done, 4);
  }

  // ----- the ten checks

  lemma SoleEvidenceFound(x: Setting)
    requires Printing(x)
    ensures SoleEvidence([Evidence(x)], x.requestId, 0)
    ensures ApprovalByRequest([Evidence(x)], x.requestId) == Some(Evidence(x))
  {
    assert [Evidence(x)][0] == Evidence(x);
    assert SoleEvidence([Evidence(x)], x.requestId, 0);
  }

  lemma EventsAsBuilt(x: Setting, i: nat)
    requires Printing(x) && i < 10
    ensures |ApprovedTrace(x).events| == 10
    ensures var e := ApprovedTrace(x).events[i];
      e.kind == KINDS[i] && e.data == Data(x, i) && e.createdAt == x.run.updatedAt
    ensures EventOk(x.lib, ApprovedTrace(x), i)
  {
    hide CanonicalDigest;
    hide Data;
    DataPrintable(x, i);
    var t := ApprovedTrace(x);
    assert t.events[i] == Event(x, i);
    assert i > 0 ==> t.events[i - 1] == Event(x, i - 1);
  }

  lemma ToolEventsOk(x: Setting)
    requires Printing(x) && Coherent(x)
    ensures var t := ApprovedTrace(x);
      && |t.events| == 10
      && t.events[3].kind.ToolRequested? && t.events[6].kind.ToolSucceeded?
      && ToolRequestedOk(x.lib, Step(x), ToolDecision(x), t.events[3])
      && CallId(t.events[3]) == x.callId
      && ToolSucceededOk(x.lib, Step(x), x.callId, t.events[6])
  {
    hide Data;
    hide Get;
    ToolData(x);
    SuccessData(x);
    EventsAsBuilt(x, 3);
    EventsAsBuilt(x, 6);
  }

  lemma ApprovalRequiredEventOk(x: Setting)
    requires Printing(x) && Coherent(x)
    ensures var t := ApprovedTrace(x);
      && |t.events| == 10 && t.events[4].kind.ApprovalRequired?
      && ApprovalRequiredOk(x.lib, Step(x), x.requestId, t.events[3], t.events[4], t.approvals)
  {
    hide Data;
    hide Get;
    hide ApprovalByRequest;
    ApprovalData(x);
    SoleEvidenceFound(x);
    EventsAsBuilt(x, 3);
    EventsAsBuilt(x, 4);
  }

  lemma ApprovalResumedEventOk(x: Setting)
    requires Printing(x) && Coherent(x)
    ensures var t := ApprovedTrace(x);
      && |t.events| == 10 && t.events[5].kind.ApprovalResumed?
      && ApprovalResumedOk(x.lib, Step(x), x.requestId, t.events[4], t.events[5], t.approvals)
  {
    hide Data;
    hide Get;
    hide ApprovalByRequest;
    ApprovalData(x);
    SoleEvidenceFound(x);
    EventsAsBuilt(x, 4);
    EventsAsBuilt(x, 5);
  }

  lemma FirstExchangeOk(x: Setting)
    requires Printing(x) && Coherent(x)
    ensures var t := ApprovedTrace(x);
      && Exchange(t, 1, 1, None)
      && DecisionOf(t.events[2]) == ToolDecision(x) && DecisionType(t, 1) == Some("tool_call")
  {
    hide Data;
    hide Get;
    ExchangeData(x);
    ToolData(x);
    EventsAsBuilt(x, 1);
    EventsAsBuilt(x, 2);
  }

  lemma FirstToolPartOk(x: Setting, required: set<Uuid>)
    requires Printing(x) && Coherent(x)
    ensures ToolPart(x.lib, ApprovedTrace(x), required, Step(x), 1)
  {
    hide Data;
    hide Get;
    hide ToolRequestedOk;
    hide ToolSucceededOk;
    hide ApprovalRequiredOk;
    hide ApprovalResumedOk;
    hide Exchange;
    var t := ApprovedTrace(x);
    FirstExchangeOk(x);
    ToolEventsOk(x);
    ApprovalRequiredEventOk(x);
    ApprovalResumedEventOk(x);
    hide ApprovedTrace;
    hide DecisionType;
    hide Coherent;
    assert TurnLength(Step(x)) == 6;
  }

  lemma FirstTurnOk(x: Setting, required: set<Uuid>)
    requires Printing(x) && Coherent(x)
    ensures TurnOk(x.lib, ApprovedTrace(x), required, 0)
  {
    hide Exchange;
    hide ToolPart;
    FirstExchangeOk(x);
    FirstToolPartOk(x, required);
    assert Offset(ApprovedTrace(x).steps, 0) == 1;
  }

  lemma SecondTurnOk(x: Setting, required: set<Uuid>)
    requires Printing(x) && Coherent(x)
    ensures TurnOk(x.lib, ApprovedTrace(x), required, 1)
  {
    hide Data;
    hide Get;
    var t := ApprovedTrace(x);
    ExchangeData(x);
    FinishData(x);
    EventsAsBuilt(x, 2);
    EventsAsBuilt(x, 7);
    EventsAsBuilt(x, 8);
    EventsAsBuilt(x, 9);
    assert Offset(t.steps, 0) == 1 && Offset(t.steps, 1) == 7;
    assert Previous(t, 1) == Some(x.response);
    assert DecisionOf(t.events[8]) == FinishDecision(x.report);
    assert Exchange(t, 7, 2, Some(x.response));
    assert FinishPart(t, 7);
  }

  lemma EndsOk(x: Setting)
    requires Printing(x) && Coherent(x)
    ensures StartOk(x.lib, ApprovedTrace(x)) && EndOk(ApprovedTrace(x))
  {
    hide Data;
    hide Get;
    ExchangeData(x);
    FinishData(x);
    EventsAsBuilt(x, 0);
    EventsAsBuilt(x, 9);
  }

  lemma LifecycleOk(x: Setting, required: set<Uuid>)
    requires Printing(x) && Coherent(x)
    ensures Lifecycle(x.lib, ApprovedTrace(x), required) && NoFailures(ApprovedTrace(x).events)
  {
    hide TurnOk;
    hide StartOk;
    hide EndOk;
    var t := ApprovedTrace(x);
    FirstTurnOk(x, required);
    SecondTurnOk(x, required);
    EndsOk(x);
    assert StepOk(t.run, t.steps, 0);
    EventsAsBuilt(x, 0);
    forall i | 0 <= i < |t.events| ensures EventOk(x.lib, t, i) && !IsFailure(t.events[i]) {
      EventsAsBuilt(x, i);
    }
  }

  lemma StepBacked(x: Setting)
    requires Printing(x) && Coherent(x)
    ensures StepProven(x.lib, x.run, x.actor, Step(x)) && Backed(x.lib, ApprovedTrace(x), Step(x))
  {
    hide CanonicalDigest;
    SoleEvidenceFound(x);
    assert [x.approver][0] == x.approver;
    OutputPrints(x);
    assert EvidenceOk(x.lib, x.run, x.actor, [x.approver], Step(x), Evidence(x));
  }

  lemma OutputPrints(x: Setting)
    requires Printing(x)
    ensures CanonicallyEqual(x.lib, x.output, x.output)
  {
  }

  lemma Corresponds(x: Setting)
    requires Printing(x) && Coherent(x)
    ensures GreedyMatch(CallPolicy(x).expected, [Step(x)]) == [Some(0)]
    ensures AgreePointwise(CallPolicy(x).expected, [Step(x)])
    ensures InRange([Some(0)], [Step(x)]) && OneToOne(x.lib, ApprovedTrace(x), CallPolicy(x).expected, [Some(0)])
  {
    hide Backed;
    StepBacked(x);
    var expected := CallPolicy(x).expected;
    assert expected[..0] == [];
    assert FirstMatch(expected[0], [Step(x)], 0) == Some(0);
    assert ApprovedTrace(x).steps[0].approvalRequestId == Some(x.requestId);
    assert Claimed(ApprovedTrace(x).steps, x.requestId);
  }

  /** Every such trace passes under the policy that demands exactly this approved
      call. */
  lemma ApprovedTracePasses(x: Setting)
    requires Printing(x) && Coherent(x)
    ensures TaskCorrect(x.lib, CallPolicy(x), ApprovedTrace(x))
    ensures |ApprovedTrace(x).steps| == 1 && Carries(ApprovedTrace(x).steps[0])
  {
    hide Lifecycle;
    hide OneToOne;
    hide GreedyMatch;
    hide StepProven;
    var t := ApprovedTrace(x);
    Corresponds(x);
    StepBacked(x);
    LifecycleOk(x, RequiredStepIds(CallPolicy(x).expected, [Some(0)], t.steps));
    assert Allowlisted(t.agent, t.steps[0]);
  }
}
