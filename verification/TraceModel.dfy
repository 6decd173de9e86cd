/** What the trace evaluator reads, and the field and time checks it makes on
    single records. */
module TraceModel {
  import opened Prelude
  import opened Json
  import opened Canonical
  import opened Digests
  import opened AgentModel

  type PublicKey = string

  /** The codes of the issues the evaluator reports. */
  datatype Issue =
    | ToolRequestedStepMismatch | ToolRequestedOperationMismatch | ToolRequestedCallIdMismatch
    | ToolRequestedNameMismatch | ToolRequestedArgumentsMismatch | ModelToolArgumentsMismatch
    | ApprovalRequiredIdMismatch | ApprovalRequiredOperationMismatch | ApprovalRequiredEvidenceMissing
    | ApprovalRequiredExpirationMismatch | ApprovalRequiredTimestampOutOfWindow | ApprovalRequestPrecedesTool
    | ApprovalResumedIdMismatch | ApprovalResumedEvidenceMissing | ApprovalResumedDecisionMismatch
    | ApprovalResumedTimestampOutOfWindow | ApprovalDecisionPrecedesRequiredEvent
    | ApprovalExecutionPrecedesResumedEvent | ToolSucceededStepMismatch | ToolSucceededCallIdMismatch
    | ToolSucceededOperationMismatch | ToolSucceededProofMismatch | ToolSucceededTimestampPrecedesStep
    | StepRunMismatch | StepNotSucceeded | MissingOutput | MissingProof | ProofActorMismatch
    | ProofOperationMismatch | ProofInputMismatch | ProofOutputMismatch | InvalidOutput | InvalidProofSignature
    | ProofTimestampOutsideStepWindow | MissingStepExecutionWindow | InvalidRequestSignature | RequestActorMismatch
    | RequestOperationMismatch | RequestVersionMismatch | RequestInputMismatch | InvalidRequestWindow
    | ApprovalRequestPrecedesStep | InvalidDecisionSignature | DecisionRequestMismatch
    | DecisionRequestDigestMismatch | DecisionNotApproved | DecisionOutOfWindow | ExecutionRequestMismatch
    | ExecutionOutOfWindow | ApprovalExecutionOutsideStep | ExecutionOutputMismatch | ExecutionProofMismatch
    | ExecutionTimestampMismatch | ExecutionProofBindingMismatch | ExecutionProofOutputMismatch
    | InvalidExecutionProofSignature | UntrustedApprover | RunTimestampOrderInvalid | RunCompletionTimestampInvalid
    | NonterminalRunHasCompletion | TerminalRunCompletionMissing | StepTimestampOrderInvalid
    | StepExecutionWindowInvalid | StepTimestampOutsideRun | FirstStepAttemptHasRetryParent
    | StepRetryLineageInvalid | StepRetryParentNotRetryable | StepRetryCallMismatch
    | StepRetryPrecedesParentCompletion | StepOrdinalNotContiguous | StepAttemptNotContiguous | DuplicateStepId
    | MissingExpectedStep | MissingStepApprovalRequest | ApprovalRequestReused | MissingApprovalEvidence
    | DuplicateApprovalEvidence | UnusedApprovalEvidence | EventTimestampNotMonotonic | EventRunMismatch
    | EventSequenceNotContiguous | InvalidEventDataDigest | ApprovalRequiredMissing | ApprovalRequiredOutOfOrder
    | ApprovalResumedMissing | ApprovalResumedOutOfOrder | ToolRequestedMissing | ToolRequestedOutOfOrder
    | RequiredStepApprovalRequestMissing | ToolSucceededMissing | ToolSucceededOutOfOrder
    | FinishNotFollowedByCompleted | FinishOutputEmpty | FinishCompletedOutputMismatch | ExpectedModelRequested
    | ModelRequestModelMismatch | ModelCallNumberMismatch | PreviousResponseIdMismatch | ModelResponseMissing
    | ModelRequestNotPaired | ModelResponseIdEmpty | ToolEventWithoutStep | InvalidModelDecision
    | MissingFinishDecision | StepEventCountMismatch | StartedEventNotFirst | StartedEventPrecedesRun
    | StartedAgentMismatch | StartedGoalMismatch | CompletedEventPrecedesRunCompletion | CompletedOutputEmpty
    | MissingStartedEvent | MissingCompletedEvent | CompletedEventNotLast | StartedEventCountInvalid
    | CompletedEventCountInvalid

  datatype PrincipalKind = Human | Agent | Service

  datatype Principal = Principal(id: Uuid, kind: PrincipalKind, publicKey: PublicKey)

  datatype Tool = Tool(operation: string, version: string)

  datatype AgentDefinition = AgentDefinition(id: Uuid, model: string, tools: seq<Tool>)

  datatype ApprovalOutcome = Approved | Denied

  datatype ApprovalRequest = ApprovalRequest(
    id: Uuid, operation: string, version: string, inputDigest: ContentDigest, requestedBy: Uuid, requestedAt: Time,
    expiresAt: Time)

  datatype SignedApprovalRequest = SignedApprovalRequest(body: ApprovalRequest, signature: Signature)

  datatype ApprovalDecision = ApprovalDecision(
    id: Uuid, requestId: Uuid, requestDigest: ContentDigest, outcome: ApprovalOutcome, decidedBy: Uuid,
    decidedAt: Time, reason: Option<string>)

  datatype SignedApprovalDecision = SignedApprovalDecision(body: ApprovalDecision, signature: Signature)

  datatype ApprovalExecution = ApprovalExecution(requestId: Uuid, executedAt: Time, output: Value, proof: Proof)

  datatype ApprovalEvidence = ApprovalEvidence(
    request: SignedApprovalRequest, decision: SignedApprovalDecision, approver: Principal,
    execution: ApprovalExecution)

  /** The library functions the evaluator relies on; all arbitrary. */
  datatype Library = Library(
    parse: Reparse,
    parseUuid: string -> Option<Uuid>,
    showTime: Time -> string,
    showUuid: Uuid -> string,
    showNumber: Number -> string,
    pointer: (Value, string) -> Option<Value>,
    proofVerifies: (Proof, PublicKey) -> bool,
    requestSigned: (SignedApprovalRequest, PublicKey) -> bool,
    decisionSigned: (SignedApprovalDecision, PublicKey) -> bool,
    requestDigest: SignedApprovalRequest -> Option<ContentDigest>)

  /** The whole persisted trace, with its steps in evaluation order. */
  datatype Trace = Trace(
    run: AgentRun, agent: AgentDefinition, actor: Principal, trusted: seq<Principal>, steps: seq<AgentRunStep>,
    events: seq<AgentRunEvent>, approvals: seq<ApprovalEvidence>)

  // ----- accessors

  function DataUuid(lib: Library, data: Value, key: string): Option<Uuid> {
    match GetString(data, key)
    case Some(s) => lib.parseUuid(s)
    case None => None
  }

  /** The string unless it is absent or blank. */
  function NonBlank(s: Option<string>): Option<string> {
    if s.Some? && !IsBlank(s.value) then s else None
  }

  // What the accessors find, apart from how they look.

  /** The text is there and is not all whitespace. */
  predicate HasText(s: Option<string>) {
    s.Some? && exists i :: 0 <= i < |s.value| && !IsWhitespace(s.value[i])
  }

  /** The member is a string that names the identifier; or, for none, names none. */
  predicate Reads(lib: Library, data: Value, key: string, id: Option<Uuid>) {
    match Get(data, key)
    case Some(Str(text)) => lib.parseUuid(text) == id
    case _ => id.None?
  }

  function ResponseId(responded: AgentRunEvent): Option<string> {
    NonBlank(GetString(responded.data, "response_id"))
  }

  function DecisionOf(responded: AgentRunEvent): Value {
    match Get(responded.data, "decision")
    case Some(v) => v
    case None => Null
  }

  function OutcomeText(outcome: ApprovalOutcome): string {
    match outcome
    case Approved => "approved"
    case Denied => "denied"
  }

  function ProofOperation(operation: string, version: string): string {
    operation + "::" + version
  }

  predicate RequestVerifies(lib: Library, request: SignedApprovalRequest, requester: Principal) {
    requester.kind.Agent? && requester.id == request.body.requestedBy && lib.requestSigned(request, requester.publicKey)
  }

  predicate DecisionVerifies(lib: Library, decision: SignedApprovalDecision, approver: Principal) {
    approver.kind.Human? && approver.id == decision.body.decidedBy && lib.decisionSigned(decision, approver.publicKey)
  }

  predicate CanonicallyEqual(lib: Library, a: Value, b: Value) {
    CanonicalValue(a, lib.parse).Ok? && CanonicalValue(a, lib.parse) == CanonicalValue(b, lib.parse)
  }

  // ----- evidence for one request

  predicate IsFor(evidence: ApprovalEvidence, requestId: Uuid) {
    evidence.request.body.id == requestId
  }

  /** Evidence `k` is the only one for the request. */
  predicate SoleEvidence(approvals: seq<ApprovalEvidence>, requestId: Uuid, k: int) {
    && 0 <= k < |approvals| && IsFor(approvals[k], requestId)
    && forall j :: 0 <= j < |approvals| && IsFor(approvals[j], requestId) ==> j == k
  }

  /** Position of the first evidence for the request from `from` on. */
  function FirstFor(approvals: seq<ApprovalEvidence>, requestId: Uuid, from: nat): (k: nat)
    requires from <= |approvals|
    ensures from <= k <= |approvals|
    ensures k < |approvals| ==> IsFor(approvals[k], requestId)
    ensures forall j :: from <= j < k ==> !IsFor(approvals[j], requestId)
    decreases |approvals| - from
  {
    if from == |approvals| || IsFor(approvals[from], requestId) then from
    else FirstFor(approvals, requestId, from + 1)
  }

  /** The evidence for a request when there is exactly one. */
  function ApprovalByRequest(approvals: seq<ApprovalEvidence>, requestId: Uuid): (r: Option<ApprovalEvidence>)
    ensures r.Some? <==> exists k :: SoleEvidence(approvals, requestId, k)
    ensures forall k :: SoleEvidence(approvals, requestId, k) ==> r == Some(approvals[k])
  {
    var k := FirstFor(approvals, requestId, 0);
    if k == |approvals| then None
    else if FirstFor(approvals, requestId, k + 1) < |approvals| then None
    else
      assert SoleEvidence(approvals, requestId, k);
      Some(approvals[k])
  }

  // ----- event checks: the codes reported, and what silence means

  function When(failed: bool, code: Issue): seq<Issue> {
    if failed then [code] else []
  }

  predicate NamesOperation(data: Value, step: AgentRunStep) {
    GetString(data, "operation") == Some(step.operation) && GetString(data, "version") == Some(step.version)
  }

  function CanonicalText(lib: Library, v: Value): Option<string> {
    match CanonicalValue(v, lib.parse)
    case Ok(text) => Some(text)
    case Err(_) => None
  }

  /** The event repeats the call of the model: its id, its tool and its arguments,
      and these are the step's input. */
  predicate RepeatsCall(lib: Library, step: AgentRunStep, decision: Value, event: AgentRunEvent) {
    var callId := GetString(event.data, "call_id");
    var arguments := Get(event.data, "arguments");
    var decided := Get(decision, "arguments");
    && HasText(callId) && callId == GetString(decision, "call_id")
    && GetString(event.data, "tool") == GetString(decision, "name")
    && arguments.Some? && CanonicalDigest(OperationInput, arguments.value, lib.parse) == Some(step.inputDigest)
    && decided.Some? && CanonicallyEqual(lib, arguments.value, decided.value)
  }

  /** The event names the step, its operation and its version. */
  predicate NamesStep(lib: Library, step: AgentRunStep, event: AgentRunEvent) {
    && Reads(lib, event.data, "step_id", Some(step.id))
    && Get(event.data, "operation") == Some(Str(step.operation))
    && Get(event.data, "version") == Some(Str(step.version))
  }

  predicate ToolRequestedOk(lib: Library, step: AgentRunStep, decision: Value, event: AgentRunEvent) {
    NamesStep(lib, step, event) && RepeatsCall(lib, step, decision, event)
  }

  function CallIssues(lib: Library, step: AgentRunStep, decision: Value, event: AgentRunEvent): (issues: seq<Issue>)
    ensures issues == [] <==> RepeatsCall(lib, step, decision, event)
  {
    var callId := GetString(event.data, "call_id");
    var arguments := Get(event.data, "arguments");
    var decided := Get(decision, "arguments");
    When(NonBlank(callId).None? || callId != GetString(decision, "call_id"), ToolRequestedCallIdMismatch)
    + When(GetString(event.data, "tool") != GetString(decision, "name"), ToolRequestedNameMismatch)
    + When(
      arguments.None? || CanonicalDigest(OperationInput, arguments.value, lib.parse) != Some(step.inputDigest),
      ToolRequestedArgumentsMismatch)
    + When(
      arguments.None? || decided.None? || CanonicalText(lib, arguments.value) != CanonicalText(lib, decided.value),
      ModelToolArgumentsMismatch)
  }

  function ValidateToolRequested(
      lib: Library, step: AgentRunStep, decision: Value, event: AgentRunEvent): (issues: seq<Issue>)
    ensures issues == [] <==> ToolRequestedOk(lib, step, decision, event)
  {
    When(DataUuid(lib, event.data, "step_id") != Some(step.id), ToolRequestedStepMismatch)
    + When(!NamesOperation(event.data, step), ToolRequestedOperationMismatch)
    + CallIssues(lib, step, decision, event)
  }

  predicate ApprovalRequiredOk(
    lib: Library, step: AgentRunStep, requestId: Uuid, toolRequested: AgentRunEvent, event: AgentRunEvent,
    approvals: seq<ApprovalEvidence>)
  {
    var found := ApprovalByRequest(approvals, requestId);
    && Reads(lib, event.data, "step_id", Some(step.id))
    && Reads(lib, event.data, "request_id", Some(requestId))
    && Get(event.data, "operation") == Some(Str(step.operation))
    && Get(event.data, "version") == Some(Str(step.version))
    && found.Some?
    && var request := found.value.request.body;
    && Get(event.data, "expires_at") == Some(Str(lib.showTime(request.expiresAt)))
    && toolRequested.createdAt <= request.requestedAt <= event.createdAt <= request.expiresAt
  }

  function ValidateApprovalRequired(
    lib: Library, step: AgentRunStep, requestId: Uuid, toolRequested: AgentRunEvent, event: AgentRunEvent,
    approvals: seq<ApprovalEvidence>): (issues: seq<Issue>)
    ensures issues == [] <==> ApprovalRequiredOk(lib, step, requestId, toolRequested, event, approvals)
  {
    var ids := When(
      DataUuid(lib, event.data, "step_id") != Some(step.id) ||
        DataUuid(lib, event.data, "request_id") != Some(requestId),
      ApprovalRequiredIdMismatch);
    var named := When(!NamesOperation(event.data, step), ApprovalRequiredOperationMismatch);
    match ApprovalByRequest(approvals, requestId)
    case None => ids + named + [ApprovalRequiredEvidenceMissing]
    case Some(evidence) =>
      var request := evidence.request.body;
      ids + named
      + When(
        Get(event.data, "expires_at") != Some(Str(lib.showTime(request.expiresAt))),
        ApprovalRequiredExpirationMismatch)
      + When(
        event.createdAt < request.requestedAt || event.createdAt > request.expiresAt,
        ApprovalRequiredTimestampOutOfWindow)
      + When(request.requestedAt < toolRequested.createdAt, ApprovalRequestPrecedesTool)
  }

  predicate ApprovalResumedOk(
    lib: Library, step: AgentRunStep, requestId: Uuid, required: AgentRunEvent, event: AgentRunEvent,
    approvals: seq<ApprovalEvidence>)
  {
    var found := ApprovalByRequest(approvals, requestId);
    && Reads(lib, event.data, "step_id", Some(step.id))
    && Reads(lib, event.data, "request_id", Some(requestId))
    && found.Some?
    && var decision := found.value.decision.body;
    && Reads(lib, event.data, "decided_by", Some(decision.decidedBy))
    && Get(event.data, "outcome") == Some(Str(if decision.outcome.Approved? then "approved" else "denied"))
    && required.createdAt <= decision.decidedAt <= event.createdAt
    && event.createdAt <= found.value.request.body.expiresAt
    && event.createdAt <= found.value.execution.executedAt
  }

  function ValidateApprovalResumed(
    lib: Library, step: AgentRunStep, requestId: Uuid, required: AgentRunEvent, event: AgentRunEvent,
    approvals: seq<ApprovalEvidence>): (issues: seq<Issue>)
    ensures issues == [] <==> ApprovalResumedOk(lib, step, requestId, required, event, approvals)
  {
    var ids := When(
      DataUuid(lib, event.data, "step_id") != Some(step.id) ||
        DataUuid(lib, event.data, "request_id") != Some(requestId),
      ApprovalResumedIdMismatch);
    match ApprovalByRequest(approvals, requestId)
    case None => ids + [ApprovalResumedEvidenceMissing]
    case Some(evidence) =>
      var decision := evidence.decision.body;
      ids
      + When(
        || DataUuid(lib, event.data, "decided_by") != Some(decision.decidedBy)
        || Get(event.data, "outcome") != Some(Str(OutcomeText(decision.outcome))),
        ApprovalResumedDecisionMismatch)
      + When(
        event.createdAt < decision.decidedAt || event.createdAt > evidence.request.body.expiresAt,
        ApprovalResumedTimestampOutOfWindow)
      + When(decision.decidedAt < required.createdAt, ApprovalDecisionPrecedesRequiredEvent)
      + When(evidence.execution.executedAt < event.createdAt, ApprovalExecutionPrecedesResumedEvent)
  }

  /** The event names the proof of the step, and comes after it and the step. */
  predicate ReportsProof(lib: Library, step: AgentRunStep, event: AgentRunEvent) {
    && Reads(lib, event.data, "proof_id", if step.proof.Some? then Some(step.proof.value.body.id) else None)
    && (step.proof.Some? ==> step.proof.value.body.timestamp <= event.createdAt)
    && (step.completedAt.Some? ==> step.completedAt.value <= event.createdAt)
  }

  predicate ToolSucceededOk(lib: Library, step: AgentRunStep, callId: string, event: AgentRunEvent) {
    && NamesStep(lib, step, event)
    && GetString(event.data, "call_id") == Some(callId)
    && ReportsProof(lib, step, event)
  }

  function ProofIssues(lib: Library, step: AgentRunStep, event: AgentRunEvent): (issues: seq<Issue>)
    ensures issues == [] <==> ReportsProof(lib, step, event)
  {
    var proofId := if step.proof.Some? then Some(step.proof.value.body.id) else None;
    When(DataUuid(lib, event.data, "proof_id") != proofId, ToolSucceededProofMismatch)
    + When(
      || (step.proof.Some? && event.createdAt < step.proof.value.body.timestamp)
      || (step.completedAt.Some? && event.createdAt < step.completedAt.value),
      ToolSucceededTimestampPrecedesStep)
  }

  function ValidateToolSucceeded(
      lib: Library, step: AgentRunStep, callId: string, event: AgentRunEvent): (issues: seq<Issue>)
    ensures issues == [] <==> ToolSucceededOk(lib, step, callId, event)
  {
    When(DataUuid(lib, event.data, "step_id") != Some(step.id), ToolSucceededStepMismatch)
    + When(GetString(event.data, "call_id") != Some(callId), ToolSucceededCallIdMismatch)
    + When(!NamesOperation(event.data, step), ToolSucceededOperationMismatch)
    + ProofIssues(lib, step, event)
  }

  // ----- one step and its proof

  predicate ProofBindsStep(lib: Library, run: AgentRun, actor: Principal, step: AgentRunStep, proof: Proof) {
    && proof.body.actor == run.actor == actor.id
    && proof.body.operation == step.operation + "::" + step.version
    && proof.body.inputDigest == step.inputDigest
    && step.output.Some?
    && CanonicalDigest(OperationOutput, step.output.value, lib.parse) == Some(proof.body.outputDigest)
    && lib.proofVerifies(proof, actor.publicKey)
  }

  /** A succeeded step whose proof binds its call and output, signed within the
      step's execution window. */
  predicate StepProven(lib: Library, run: AgentRun, actor: Principal, step: AgentRunStep) {
    && step.runId == run.id && step.status.StepSucceeded?
    && step.proof.Some? && ProofBindsStep(lib, run, actor, step, step.proof.value)
    && step.startedAt.Some? && step.completedAt.Some?
    && step.startedAt.value <= step.proof.value.body.timestamp <= step.completedAt.value
  }

  function InvalidStepDetails(lib: Library, run: AgentRun, actor: Principal, step: AgentRunStep): (issues: seq<Issue>)
    ensures issues == [] <==> StepProven(lib, run, actor, step)
  {
    var early := When(step.runId != run.id, StepRunMismatch)
      + When(!step.status.StepSucceeded?, StepNotSucceeded);
    if step.output.None? then early + [MissingOutput]
    else if step.proof.None? then early + [MissingProof]
    else
      var proof := step.proof.value;
      early
      + When(proof.body.actor != run.actor || proof.body.actor != actor.id, ProofActorMismatch)
      + When(proof.body.operation != ProofOperation(step.operation, step.version), ProofOperationMismatch)
      + When(proof.body.inputDigest != step.inputDigest, ProofInputMismatch)
      + (match CanonicalDigest(OperationOutput, step.output.value, lib.parse)
         case Some(d) => When(proof.body.outputDigest != d, ProofOutputMismatch)
         case None => [InvalidOutput])
      + When(!lib.proofVerifies(proof, actor.publicKey), InvalidProofSignature)
      + (if step.startedAt.Some? && step.completedAt.Some? then
           When(
             proof.body.timestamp < step.startedAt.value || proof.body.timestamp > step.completedAt.value,
             ProofTimestampOutsideStepWindow)
         else [MissingStepExecutionWindow])
  }

  // ----- one approval and its step

  predicate ApproverTrusted(trusted: seq<Principal>, approver: Principal) {
    exists i :: 0 <= i < |trusted| && trusted[i] == approver
  }

  predicate RequestFitsStep(
      lib: Library, run: AgentRun, actor: Principal, step: AgentRunStep, signed: SignedApprovalRequest)
  {
    var request := signed.body;
    && actor.kind.Agent? && lib.requestSigned(signed, actor.publicKey)
    && request.requestedBy == run.actor == actor.id
    && request.operation == step.operation && request.version == step.version
    && request.inputDigest == step.inputDigest
    && request.requestedAt < request.expiresAt
    && step.startedAt.Some? && step.startedAt.value <= request.requestedAt
  }

  predicate DecisionFitsRequest(lib: Library, evidence: ApprovalEvidence) {
    var request, decision := evidence.request.body, evidence.decision.body;
    && evidence.approver.kind.Human? && evidence.approver.id == decision.decidedBy
    && lib.decisionSigned(evidence.decision, evidence.approver.publicKey)
    && decision.requestId == request.id
    && lib.requestDigest(evidence.request) == Some(decision.requestDigest)
    && decision.outcome.Approved?
    && request.requestedAt <= decision.decidedAt <= request.expiresAt
  }

  predicate ExecutionFitsStep(
      lib: Library, run: AgentRun, actor: Principal, step: AgentRunStep, evidence: ApprovalEvidence)
  {
    var execution := evidence.execution;
    && execution.requestId == evidence.request.body.id
    && evidence.decision.body.decidedAt <= execution.executedAt <= evidence.request.body.expiresAt
    && step.completedAt.Some? && execution.executedAt <= step.completedAt.value
    && step.output.Some? && CanonicallyEqual(lib, step.output.value, execution.output)
    && step.proof == Some(execution.proof)
    && execution.proof.body.timestamp == execution.executedAt
    && execution.proof.body.actor == run.actor
    && execution.proof.body.operation == step.operation + "::" + step.version
    && execution.proof.body.inputDigest == step.inputDigest
    && CanonicalDigest(OperationOutput, execution.output, lib.parse) == Some(execution.proof.body.outputDigest)
    && lib.proofVerifies(execution.proof, actor.publicKey)
  }

  /** The agent asked for exactly this call, a trusted human approved that very
      request in time, and the approved execution is the step's own. */
  predicate EvidenceOk(
    lib: Library, run: AgentRun, actor: Principal, trusted: seq<Principal>, step: AgentRunStep,
    evidence: ApprovalEvidence)
  {
    && evidence.approver in trusted
    && RequestFitsStep(lib, run, actor, step, evidence.request)
    && DecisionFitsRequest(lib, evidence)
    && ExecutionFitsStep(lib, run, actor, step, evidence)
  }

  function RequestIssues(
      lib: Library, run: AgentRun, actor: Principal, step: AgentRunStep, signed: SignedApprovalRequest)
    : (issues: seq<Issue>)
    ensures issues == [] <==> RequestFitsStep(lib, run, actor, step, signed)
  {
    var request := signed.body;
    When(!RequestVerifies(lib, signed, actor), InvalidRequestSignature)
    + When(request.requestedBy != run.actor || request.requestedBy != actor.id, RequestActorMismatch)
    + When(request.operation != step.operation, RequestOperationMismatch)
    + When(request.version != step.version, RequestVersionMismatch)
    + When(request.inputDigest != step.inputDigest, RequestInputMismatch)
    + When(request.expiresAt <= request.requestedAt, InvalidRequestWindow)
    + When(step.startedAt.None? || request.requestedAt < step.startedAt.value, ApprovalRequestPrecedesStep)
  }

  function DecisionIssues(lib: Library, evidence: ApprovalEvidence): (issues: seq<Issue>)
    ensures issues == [] <==> DecisionFitsRequest(lib, evidence)
  {
    var request, decision := evidence.request.body, evidence.decision.body;
    When(!DecisionVerifies(lib, evidence.decision, evidence.approver), InvalidDecisionSignature)
    + When(decision.requestId != request.id, DecisionRequestMismatch)
    + (match lib.requestDigest(evidence.request)
       case Some(d) => When(d != decision.requestDigest, DecisionRequestDigestMismatch)
       case None => [DecisionRequestDigestMismatch])
    + When(!decision.outcome.Approved?, DecisionNotApproved)
    + When(decision.decidedAt < request.requestedAt || decision.decidedAt > request.expiresAt, DecisionOutOfWindow)
  }

  function ExecutionIssues(
      lib: Library, run: AgentRun, actor: Principal, step: AgentRunStep, evidence: ApprovalEvidence)
    : (issues: seq<Issue>)
    ensures issues == [] <==> ExecutionFitsStep(lib, run, actor, step, evidence)
  {
    var execution := evidence.execution;
    var proof := execution.proof;
    var outputsMatch := step.output.Some?
      && CanonicalText(lib, step.output.value).Some?
      && CanonicalText(lib, step.output.value) == CanonicalText(lib, execution.output);
    When(execution.requestId != evidence.request.body.id, ExecutionRequestMismatch)
    + When(
      || execution.executedAt < evidence.decision.body.decidedAt
      || execution.executedAt > evidence.request.body.expiresAt,
      ExecutionOutOfWindow)
    + When(step.completedAt.None? || execution.executedAt > step.completedAt.value, ApprovalExecutionOutsideStep)
    + When(!outputsMatch, ExecutionOutputMismatch)
    + When(step.proof != Some(proof), ExecutionProofMismatch)
    + When(proof.body.timestamp != execution.executedAt, ExecutionTimestampMismatch)
    + When(
      || proof.body.actor != run.actor
      || proof.body.operation != ProofOperation(step.operation, step.version)
      || proof.body.inputDigest != step.inputDigest,
      ExecutionProofBindingMismatch)
    + When(
      CanonicalDigest(OperationOutput, execution.output, lib.parse) != Some(proof.body.outputDigest),
      ExecutionProofOutputMismatch)
    + When(!lib.proofVerifies(proof, actor.publicKey), InvalidExecutionProofSignature)
  }

  function ApprovalEvidenceIssues(
    lib: Library, run: AgentRun, actor: Principal, trusted: seq<Principal>, step: AgentRunStep,
    evidence: ApprovalEvidence): (issues: seq<Issue>)
    ensures issues == [] <==> EvidenceOk(lib, run, actor, trusted, step, evidence)
  {
    When(!ApproverTrusted(trusted, evidence.approver), UntrustedApprover)
    + RequestIssues(lib, run, actor, step, evidence.request)
    + DecisionIssues(lib, evidence)
    + ExecutionIssues(lib, run, actor, step, evidence)
  }

  /** What good evidence gives the step: someone other than the agent approved it,
      a trusted human, and the step then ran what was approved, in time. */
  lemma ApprovalIsSeparateAndTimely(
    lib: Library, run: AgentRun, actor: Principal, trusted: seq<Principal>, step: AgentRunStep,
    evidence: ApprovalEvidence)
    requires ApprovalEvidenceIssues(lib, run, actor, trusted, step, evidence) == []
    ensures evidence.approver in trusted && evidence.approver.kind.Human? && evidence.approver != actor
    ensures step.startedAt.Some? && step.completedAt.Some?
    ensures step.startedAt.value <= evidence.request.body.requestedAt <= evidence.decision.body.decidedAt
    ensures evidence.decision.body.decidedAt <= evidence.execution.executedAt <= step.completedAt.value
    ensures evidence.execution.executedAt <= evidence.request.body.expiresAt
    ensures StepProven(lib, run, actor, step) <==> step.runId == run.id && step.status.StepSucceeded?
  {
    var i :| 0 <= i < |trusted| && trusted[i] == evidence.approver;
    hide CanonicalValue;
    assert CanonicalDigest(OperationOutput, step.output.value, lib.parse)
        == CanonicalDigest(OperationOutput, evidence.execution.output, lib.parse);
  }
}
