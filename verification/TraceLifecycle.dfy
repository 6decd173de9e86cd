/** The event log of a run: the language it must belong to, and the recogniser
    that reports every departure from it. */
module TraceLifecycle {
  import opened Prelude
  import opened Json
  import opened Digests
  import opened AgentModel
  import opened TraceModel
  import opened TraceTopology

  // ----- the language of event logs

  /** Every event belongs to the run, in sequence, in time order, undamaged. */
  predicate EventOk(lib: Library, t: Trace, i: nat)
    requires i < |t.events|
  {
    var event := t.events[i];
    && (i > 0 ==> t.events[i - 1].createdAt <= event.createdAt)
    && event.runId == t.run.id
    && event.sequence == i
    && CanonicalDigest(ArtifactKind.AgentEvent, event.data, lib.parse) == Some(event.dataDigest)
  }

  predicate EventsOk(lib: Library, t: Trace, n: nat)
    requires n <= |t.events|
  {
    forall i :: 0 <= i < n ==> EventOk(lib, t, i)
  }

  predicate StartOk(lib: Library, t: Trace) {
    && |t.events| > 0
    && var started := t.events[0];
    && started.kind.Started?
    && t.run.createdAt <= started.createdAt
    && Reads(lib, started.data, "agent_id", Some(t.agent.id))
    && GetString(started.data, "goal") == Some(t.run.goal)
  }

  function FinalOutput(t: Trace): Option<string>
    requires |t.events| > 0
  {
    GetString(t.events[|t.events| - 1].data, "output")
  }

  predicate EndOk(t: Trace) {
    && |t.events| > 0
    && var completed := t.events[|t.events| - 1];
    && completed.kind.Completed?
    && t.run.completedAt.Some? && t.run.completedAt.value <= completed.createdAt
    && HasText(FinalOutput(t))
  }

  /** Events of a tool turn: request, response, tool requested, the approval pair
      if the step carries one, tool succeeded. */
  function TurnLength(step: AgentRunStep): nat {
    if step.approvalRequestId.Some? then 6 else 4
  }

  /** Where the turn of step `k` begins. */
  function Offset(steps: seq<AgentRunStep>, k: nat): nat
    requires k <= |steps|
  {
    if k == 0 then 1 else Offset(steps, k - 1) + TurnLength(steps[k - 1])
  }

  /** A numbered model request chained to the previous response, and its
      response. */
  predicate Exchange(t: Trace, at: nat, call: nat, previous: Option<string>) {
    && at + 1 < |t.events|
    && var requested, responded := t.events[at], t.events[at + 1];
    && requested.kind.ModelRequested?
    && GetString(requested.data, "model") == Some(t.agent.model)
    && GetNat(requested.data, "model_call") == Some(call)
    && GetString(requested.data, "previous_response_id") == previous
    && responded.kind.ModelResponded?
    && HasText(GetString(responded.data, "response_id"))
  }

  function DecisionType(t: Trace, at: nat): Option<string>
    requires at + 1 < |t.events|
  {
    GetString(DecisionOf(t.events[at + 1]), "type")
  }

  function CallId(toolRequested: AgentRunEvent): string {
    match GetString(toolRequested.data, "call_id")
    case Some(s) => s
    case None => ""
  }

  predicate ApprovalPart(lib: Library, t: Trace, step: AgentRunStep, at: nat)
    requires step.approvalRequestId.Some? && at + 2 < |t.events|
  {
    var id := step.approvalRequestId.value;
    && t.events[at + 1].kind.ApprovalRequired?
    && ApprovalRequiredOk(lib, step, id, t.events[at], t.events[at + 1], t.approvals)
    && t.events[at + 2].kind.ApprovalResumed?
    && ApprovalResumedOk(lib, step, id, t.events[at + 1], t.events[at + 2], t.approvals)
  }

  predicate RequestPart(lib: Library, t: Trace, required: set<Uuid>, step: AgentRunStep, at: nat) {
    && at + 2 < |t.events|
    && t.events[at + 2].kind.ToolRequested?
    && ToolRequestedOk(lib, step, DecisionOf(t.events[at + 1]), t.events[at + 2])
    && (step.id in required ==> step.approvalRequestId.Some?)
  }

  predicate SuccessPart(lib: Library, t: Trace, step: AgentRunStep, callId: string, at: nat) {
    && at < |t.events|
    && t.events[at].kind.ToolSucceeded?
    && ToolSucceededOk(lib, step, callId, t.events[at])
  }

  /** The rest of a tool turn that began at `at`. */
  predicate ToolPart(lib: Library, t: Trace, required: set<Uuid>, step: AgentRunStep, at: nat) {
    && at + TurnLength(step) < |t.events|
    && DecisionType(t, at) == Some("tool_call")
    && RequestPart(lib, t, required, step, at)
    && (step.approvalRequestId.Some? ==> ApprovalPart(lib, t, step, at + 2))
    && SuccessPart(lib, t, step, CallId(t.events[at + 2]), at + TurnLength(step) - 1)
  }

  /** The rest of the finish turn that began at `at`: the log ends right after
      it, with the same output. */
  predicate FinishPart(t: Trace, at: nat) {
    && at + 3 == |t.events|
    && DecisionType(t, at) == Some("finish")
    && var output := GetString(DecisionOf(t.events[at + 1]), "output");
    && HasText(output)
    && output == FinalOutput(t)
  }

  /** The response of the turn before turn `k`. */
  function Previous(t: Trace, k: nat): Option<string>
    requires k <= |t.steps|
  {
    if k == 0 then None
    else
      var at := Offset(t.steps, k - 1) + 1;
      if at < |t.events| && HasText(GetString(t.events[at].data, "response_id"))
      then GetString(t.events[at].data, "response_id") else None
  }

  /** Turn `k` of the log: the tool turn of step `k`, or the finish turn. */
  predicate TurnOk(lib: Library, t: Trace, required: set<Uuid>, k: nat)
    requires k <= |t.steps|
  {
    var at := Offset(t.steps, k);
    && Exchange(t, at, k + 1, Previous(t, k))
    && if k < |t.steps| then ToolPart(lib, t, required, t.steps[k], at) else FinishPart(t, at)
  }

  predicate TurnsOk(lib: Library, t: Trace, required: set<Uuid>) {
    forall k :: 0 <= k <= |t.steps| ==> TurnOk(lib, t, required, k)
  }

  /** Started; one tool turn per step, in order; one finish turn; Completed. */
  predicate Lifecycle(lib: Library, t: Trace, required: set<Uuid>) {
    && TopologyOk(t.run, t.steps)
    && EventsOk(lib, t, |t.events|)
    && StartOk(lib, t) && EndOk(t)
    && TurnsOk(lib, t, required)
  }

  // ----- the shape of a log in the language

  function Kinds(events: seq<AgentRunEvent>): seq<EventKind> {
    seq(|events|, i requires 0 <= i < |events| => events[i].kind)
  }

  function TurnKinds(step: AgentRunStep): seq<EventKind> {
    if step.approvalRequestId.Some? then
      [ModelRequested, ModelResponded, ToolRequested, ApprovalRequired, ApprovalResumed, ToolSucceeded]
    else [ModelRequested, ModelResponded, ToolRequested, ToolSucceeded]
  }

  function LogKinds(steps: seq<AgentRunStep>, k: nat): seq<EventKind>
    requires k <= |steps|
  {
    if k == 0 then [Started] else LogKinds(steps, k - 1) + TurnKinds(steps[k - 1])
  }

  predicate ShapedAs(events: seq<AgentRunEvent>, at: nat, kinds: seq<EventKind>) {
    at + |kinds| <= |events| && forall i :: 0 <= i < |kinds| ==> events[at + i].kind == kinds[i]
  }

  lemma ToolTurnKinds(
      lib: Library, t: Trace, required: set<Uuid>, step: AgentRunStep, at: nat, call: nat, previous: Option<string>)
    requires Exchange(t, at, call, previous) && ToolPart(lib, t, required, step, at)
    ensures ShapedAs(t.events, at, TurnKinds(step))
  {
    hide ToolRequestedOk;
    hide ToolSucceededOk;
    hide ApprovalRequiredOk;
    hide ApprovalResumedOk;
    hide GetString;
    hide GetNat;
    hide ResponseId;
    hide DecisionType;
    hide DecisionOf;
    hide CallId;
  }

  lemma ShapedSlice(events: seq<AgentRunEvent>, at: nat, kinds: seq<EventKind>)
    requires ShapedAs(events, at, kinds)
    ensures Kinds(events)[at..at + |kinds|] == kinds
  {
    var slice := Kinds(events)[at..at + |kinds|];
    forall i | 0 <= i < |kinds| ensures slice[i] == kinds[i] {
      assert events[at + i].kind == kinds[i];
    }
  }

  lemma OneMoreTurn(lib: Library, t: Trace, required: set<Uuid>, k: nat)
    requires k < |t.steps| && TurnOk(lib, t, required, k)
    ensures Offset(t.steps, k + 1) <= |t.events|
    ensures Kinds(t.events)[Offset(t.steps, k)..Offset(t.steps, k + 1)] == TurnKinds(t.steps[k])
  {
    hide Exchange;
    hide ToolPart;
    var at := Offset(t.steps, k);
    ToolTurnKinds(lib, t, required, t.steps[k], at, k + 1, Previous(t, k));
    ShapedSlice(t.events, at, TurnKinds(t.steps[k]));
  }

  lemma FinishTurnKinds(lib: Library, t: Trace, required: set<Uuid>, at: nat)
    requires TurnOk(lib, t, required, |t.steps|) && EndOk(t) && at == Offset(t.steps, |t.steps|)
    ensures |t.events| == at + 3
    ensures ShapedAs(t.events, at, [ModelRequested, ModelResponded, Completed])
  {
    hide ToolPart;
    hide GetString;
    hide GetNat;
    hide ResponseId;
    hide DecisionType;
    hide DecisionOf;
    hide Previous;
  }

  lemma {:induction false} PrefixKinds(lib: Library, t: Trace, required: set<Uuid>, k: nat)
    requires StartOk(lib, t) && TurnsOk(lib, t, required) && k <= |t.steps|
    ensures Offset(t.steps, k) <= |t.events|
    ensures Kinds(t.events)[..Offset(t.steps, k)] == LogKinds(t.steps, k)
  {
    hide TurnOk;
    hide TurnKinds;
    StartNeeds(lib, t);
    hide StartOk;
    if k > 0 {
      PrefixKinds(lib, t, required, k - 1);
      OneMoreTurn(lib, t, required, k - 1);
      var kinds := Kinds(t.events);
      var mid, end := Offset(t.steps, k - 1), Offset(t.steps, k);
      assert kinds[..end] == kinds[..mid] + kinds[mid..end];
    } else {
      assert Kinds(t.events)[..1] == [Started];
    }
  }

  /** The kinds of the whole log are determined by the steps alone. */
  lemma KindsAreDetermined(lib: Library, t: Trace, required: set<Uuid>)
    requires StartOk(lib, t) && EndOk(t) && TurnsOk(lib, t, required)
    ensures |t.events| == Offset(t.steps, |t.steps|) + 3
    ensures Kinds(t.events) == LogKinds(t.steps, |t.steps|) + [ModelRequested, ModelResponded, Completed]
  {
    hide TurnOk;
    hide StartOk;
    hide EndOk;
    PrefixKinds(lib, t, required, |t.steps|);
    var at := Offset(t.steps, |t.steps|);
    FinishTurnKinds(lib, t, required, at);
    ShapedSlice(t.events, at, [ModelRequested, ModelResponded, Completed]);
    var kinds := Kinds(t.events);
    assert kinds == kinds[..at] + kinds[at..at + 3];
  }

  predicate MidKind(kind: EventKind) {
    || kind.ModelRequested? || kind.ModelResponded? || kind.ToolRequested? || kind.ApprovalRequired?
    || kind.ApprovalResumed? || kind.ToolSucceeded?
  }

  lemma {:induction false} LogKindsMid(steps: seq<AgentRunStep>, k: nat)
    requires k <= |steps|
    ensures |LogKinds(steps, k)| == Offset(steps, k) && LogKinds(steps, k)[0] == Started
    ensures forall i :: 0 < i < |LogKinds(steps, k)| ==> MidKind(LogKinds(steps, k)[i])
  {
    if k == 0 {
    } else {
      LogKindsMid(steps, k - 1);
    }
  }

  /** Only the first event is Started, only the last Completed, and every event
      between them is of a turn: in particular none reports a failure. */
  lemma InnerEventsAreTurns(lib: Library, t: Trace, required: set<Uuid>)
    requires StartOk(lib, t) && EndOk(t) && TurnsOk(lib, t, required)
    ensures |t.events| >= 4
    ensures forall i :: 0 < i < |t.events| - 1 ==> MidKind(t.events[i].kind)
  {
    hide TurnsOk;
    KindsAreDetermined(lib, t, required);
    LogKindsMid(t.steps, |t.steps|);
    var prefix := LogKinds(t.steps, |t.steps|);
    forall i | 0 < i < |t.events| - 1 ensures MidKind(t.events[i].kind) {
      assert Kinds(t.events)[i] == t.events[i].kind;
      if i < |prefix| {
        assert Kinds(t.events)[i] == prefix[i];
      }
    }
  }

  // ----- counting

  function Count(events: seq<AgentRunEvent>, kind: EventKind): nat {
    if events == [] then 0 else (if events[0].kind == kind then 1 else 0) + Count(events[1..], kind)
  }

  lemma {:induction false} CountZero(events: seq<AgentRunEvent>, kind: EventKind)
    requires forall i :: 0 <= i < |events| ==> events[i].kind != kind
    ensures Count(events, kind) == 0
  {
    if events == [] {
    } else {
      CountZero(events[1..], kind);
    }
  }

  lemma {:induction false} CountSole(events: seq<AgentRunEvent>, kind: EventKind, at: nat)
    requires at < |events| && events[at].kind == kind
    requires forall i :: 0 <= i < |events| && i != at ==> events[i].kind != kind
    ensures Count(events, kind) == 1
  {
    if at == 0 {
      CountZero(events[1..], kind);
    } else {
      CountSole(events[1..], kind, at - 1);
    }
  }

  lemma EndsAreUnique(lib: Library, t: Trace, required: set<Uuid>)
    requires StartOk(lib, t) && EndOk(t) && TurnsOk(lib, t, required)
    ensures Count(t.events, Started) == 1 && Count(t.events, Completed) == 1
  {
    InnerEventsAreTurns(lib, t, required);
    CountSole(t.events, Started, 0);
    CountSole(t.events, Completed, |t.events| - 1);
  }

  // ----- the recogniser

  method EventIssues(lib: Library, t: Trace) returns (issues: seq<Issue>)
    ensures issues == [] <==> EventsOk(lib, t, |t.events|)
  {
    issues := [];
    for i := 0 to |t.events|
      invariant issues == [] <==> EventsOk(lib, t, i)
    {
      var event := t.events[i];
      var found :=
        When(i > 0 && event.createdAt < t.events[i - 1].createdAt, EventTimestampNotMonotonic)
        + When(event.runId != t.run.id, EventRunMismatch)
        + When(event.sequence != i, EventSequenceNotContiguous)
        + When(
          CanonicalDigest(ArtifactKind.AgentEvent, event.data, lib.parse) != Some(event.dataDigest),
          InvalidEventDataDigest);
      assert found == [] <==> EventOk(lib, t, i);
      issues := issues + found;
    }
  }

  /** The approval pair after the tool request at `at`. */
  method ApprovalPartIssues(lib: Library, t: Trace, step: AgentRunStep, at: nat)
    returns (issues: seq<Issue>, complete: bool)
    requires step.approvalRequestId.Some? && at < |t.events|
    ensures issues == [] <==> at + 2 < |t.events| && ApprovalPart(lib, t, step, at)
    ensures issues == [] ==> complete
    ensures complete ==> at + 2 < |t.events| && t.events[at + 2].kind.ApprovalResumed?
  {
    hide ApprovalRequiredOk;
    hide ApprovalResumedOk;
    complete := false;
    var id := step.approvalRequestId.value;
    if at + 1 == |t.events| {
      issues := [ApprovalRequiredMissing];
      return;
    }
    var approvalRequired := t.events[at + 1];
    if !approvalRequired.kind.ApprovalRequired? {
      issues := [ApprovalRequiredOutOfOrder];
      return;
    }
    issues := ValidateApprovalRequired(lib, step, id, t.events[at], approvalRequired, t.approvals);
    if at + 2 == |t.events| {
      issues := issues + [ApprovalResumedMissing];
      return;
    }
    var resumed := t.events[at + 2];
    if !resumed.kind.ApprovalResumed? {
      issues := issues + [ApprovalResumedOutOfOrder];
      return;
    }
    issues := issues + ValidateApprovalResumed(lib, step, id, approvalRequired, resumed, t.approvals);
    complete := true;
  }

  method RequestPartIssues(lib: Library, t: Trace, required: set<Uuid>, step: AgentRunStep, at: nat)
    returns (issues: seq<Issue>, complete: bool)
    requires at + 2 <= |t.events|
    ensures issues == [] <==> RequestPart(lib, t, required, step, at)
    ensures issues == [] ==> complete
    ensures complete ==> at + 2 < |t.events| && t.events[at + 2].kind.ToolRequested?
  {
    hide ToolRequestedOk;
    complete := false;
    if at + 2 == |t.events| {
      issues := [ToolRequestedMissing];
      return;
    }
    var toolRequested := t.events[at + 2];
    if !toolRequested.kind.ToolRequested? {
      issues := [ToolRequestedOutOfOrder];
      return;
    }
    issues := ValidateToolRequested(lib, step, DecisionOf(t.events[at + 1]), toolRequested)
      + When(step.id in required && step.approvalRequestId.None?, RequiredStepApprovalRequestMissing);
    complete := true;
  }

  method SuccessPartIssues(lib: Library, t: Trace, step: AgentRunStep, callId: string, at: nat)
    returns (issues: seq<Issue>, complete: bool)
    requires at <= |t.events|
    ensures issues == [] <==> SuccessPart(lib, t, step, callId, at)
    ensures issues == [] ==> complete
    ensures complete ==> at < |t.events| && t.events[at].kind.ToolSucceeded?
  {
    hide ToolSucceededOk;
    complete := false;
    if at == |t.events| {
      issues := [ToolSucceededMissing];
      return;
    }
    if !t.events[at].kind.ToolSucceeded? {
      issues := [ToolSucceededOutOfOrder];
      return;
    }
    issues := ValidateToolSucceeded(lib, step, callId, t.events[at]);
    complete := true;
  }

  /** The tool turn of a step after its model exchange at `at`; `next` is where
      the scan goes on, if it does. */
  method ToolPartIssues(lib: Library, t: Trace, required: set<Uuid>, step: AgentRunStep, at: nat)
    returns (issues: seq<Issue>, next: Option<nat>)
    requires at + 2 <= |t.events| && DecisionType(t, at) == Some("tool_call")
    requires t.events[|t.events| - 1].kind.Completed?
    ensures issues == [] <==> ToolPart(lib, t, required, step, at)
    ensures issues == [] ==> next.Some?
    ensures next.Some? ==> next.value == at + TurnLength(step) < |t.events|
  {
    hide RequestPart;
    hide SuccessPart;
    hide ApprovalPart;
    hide DecisionType;
    hide CallId;
    next := None;
    var complete;
    issues, complete := RequestPartIssues(lib, t, required, step, at);
    if !complete {
      return;
    }
    var callId := CallId(t.events[at + 2]);
    var index := at + 3;
    if step.approvalRequestId.Some? {
      var found;
      found, complete := ApprovalPartIssues(lib, t, step, at + 2);
      issues := issues + found;
      if !complete {
        return;
      }
      index := index + 2;
    }
    var found;
    found, complete := SuccessPartIssues(lib, t, step, callId, index);
    issues := issues + found;
    if complete {
      next := Some(index + 1);
    }
  }

  function FinishPartIssues(t: Trace, at: nat): (issues: seq<Issue>)
    requires at + 2 <= |t.events| && DecisionType(t, at) == Some("finish")
    ensures issues == [] <==> FinishPart(t, at)
  {
    var output := GetString(DecisionOf(t.events[at + 1]), "output");
    When(at + 2 != |t.events| - 1, FinishNotFollowedByCompleted)
    + When(NonBlank(output).None?, FinishOutputEmpty)
    + When(output != FinalOutput(t), FinishCompletedOutputMismatch)
  }

  /** A model exchange at `index`; `paired` tells whether the scan goes on. */
  method ExchangeIssues(t: Trace, index: nat, modelCall: nat, previous: Option<string>)
    returns (issues: seq<Issue>, paired: bool)
    requires index < |t.events|
    ensures issues == [] <==> Exchange(t, index, modelCall, previous)
    ensures issues == [] ==> paired
    ensures paired ==> index + 1 < |t.events| && t.events[index + 1].kind.ModelResponded?
  {
    paired := false;
    var requested := t.events[index];
    if !requested.kind.ModelRequested? {
      issues := [ExpectedModelRequested];
      return;
    }
    issues := When(GetString(requested.data, "model") != Some(t.agent.model), ModelRequestModelMismatch)
      + When(GetNat(requested.data, "model_call") != Some(modelCall), ModelCallNumberMismatch)
      + When(GetString(requested.data, "previous_response_id") != previous, PreviousResponseIdMismatch);
    if index + 1 == |t.events| {
      issues := issues + [ModelResponseMissing];
      return;
    }
    var responded := t.events[index + 1];
    if !responded.kind.ModelResponded? {
      issues := issues + [ModelRequestNotPaired];
      return;
    }
    issues := issues + When(ResponseId(responded).None?, ModelResponseIdEmpty);
    paired := true;
  }

  /** Where the scan stands after a turn. */
  datatype TurnEnd = TurnEnd(index: nat, finished: bool)

  /** Recognises the turn at `index`, against the step at `stepIndex` if it is a
      tool turn. */
  method TurnIssues(
    lib: Library, t: Trace, required: set<Uuid>, index: nat, stepIndex: nat, modelCall: nat, previous: Option<string>)
    returns (issues: seq<Issue>, end: Option<TurnEnd>)
    requires index < |t.events| && stepIndex <= |t.steps|
    requires t.events[|t.events| - 1].kind.Completed?
    ensures issues == [] <==>
      && Exchange(t, index, modelCall, previous)
      && (FinishPart(t, index) || (stepIndex < |t.steps| && ToolPart(lib, t, required, t.steps[stepIndex], index)))
    ensures issues == [] ==> end.Some?
    ensures end.Some? ==> index + 1 < |t.events| && index < end.value.index < |t.events|
    ensures end.Some? && end.value.finished ==>
      end.value.index == |t.events| - 1 && DecisionType(t, index) == Some("finish")
    ensures end.Some? && !end.value.finished ==>
      && stepIndex < |t.steps| && end.value.index == index + TurnLength(t.steps[stepIndex])
      && DecisionType(t, index) == Some("tool_call")
  {
    hide Exchange;
    hide ToolPart;
    hide FinishPart;
    end := None;
    var paired;
    issues, paired := ExchangeIssues(t, index, modelCall, previous);
    if !paired {
      return;
    }
    ToolPartNeeds(lib, t, required, index);
    var decision := DecisionType(t, index);
    if decision == Some("tool_call") {
      if stepIndex == |t.steps| {
        issues := issues + [ToolEventWithoutStep];
        return;
      }
      var found, next := ToolPartIssues(lib, t, required, t.steps[stepIndex], index);
      issues := issues + found;
      if next.Some? {
        end := Some(TurnEnd(next.value, false));
      }
    } else if decision == Some("finish") {
      issues := issues + FinishPartIssues(t, index);
      end := Some(TurnEnd(|t.events| - 1, true));
    } else {
      issues := issues + [InvalidModelDecision];
    }
  }

  lemma ToolPartNeeds(lib: Library, t: Trace, required: set<Uuid>, at: nat)
    requires at + 1 < |t.events|
    ensures FinishPart(t, at) ==> DecisionType(t, at) == Some("finish")
    ensures forall step :: ToolPart(lib, t, required, step, at) ==> DecisionType(t, at) == Some("tool_call")
  {
  }

  lemma TurnNeedsRoom(lib: Library, t: Trace, required: set<Uuid>, k: nat)
    requires k <= |t.steps|
    ensures TurnOk(lib, t, required, k) ==> Offset(t.steps, k) + 1 < |t.events|
    ensures Exchange(t, Offset(t.steps, k), k + 1, Previous(t, k)) ==> Offset(t.steps, k) + 1 < |t.events|
  {
    hide ToolPart;
    hide FinishPart;
  }

  /** The scan is aligned with the language: it stands at the start of the turn
      of step `k`, having recognised all turns before it. */
  predicate Aligned(
    lib: Library, t: Trace, required: set<Uuid>, k: nat, index: nat, modelCall: nat, previous: Option<string>)
  {
    && k <= |t.steps|
    && (forall j :: 0 <= j < k ==> TurnOk(lib, t, required, j))
    && index == Offset(t.steps, k) && modelCall == k + 1 && previous == Previous(t, k)
  }

  lemma StartAligned(lib: Library, t: Trace, required: set<Uuid>)
    ensures Aligned(lib, t, required, 0, 1, 1, None)
  {
  }

  lemma ResponseIdIsText(e: AgentRunEvent)
    ensures var id := GetString(e.data, "response_id");
      ResponseId(e) == if HasText(id) then id else None
  {
  }

  /** An accepted tool turn keeps the scan aligned. */
  lemma ToolTurnAligns(
    lib: Library, t: Trace, required: set<Uuid>, k: nat, index: nat, modelCall: nat, previous: Option<string>)
    requires Aligned(lib, t, required, k, index, modelCall, previous) && k < |t.steps|
    requires Exchange(t, index, modelCall, previous) && ToolPart(lib, t, required, t.steps[k], index)
    ensures Aligned(
      lib, t, required, k + 1, index + TurnLength(t.steps[k]), modelCall + 1, ResponseId(t.events[index + 1]))
  {
    hide ToolPart;
    hide ResponseId;
    hide HasText;
    ToolPartFits(lib, t, required, t.steps[k], index);
    ResponseIdIsText(t.events[index + 1]);
    hide Exchange;
    assert Offset(t.steps, k + 1) == index + TurnLength(t.steps[k]);
    assert TurnOk(lib, t, required, k);
  }

  lemma ToolPartFits(lib: Library, t: Trace, required: set<Uuid>, step: AgentRunStep, at: nat)
    requires ToolPart(lib, t, required, step, at)
    ensures at + TurnLength(step) < |t.events|
  {
  }

  /** The scan over the turns reports nothing exactly when there is one tool turn
      per step and a finish turn; it never consumes the final event. */
  method TurnsIssues(lib: Library, t: Trace, required: set<Uuid>) returns (issues: seq<Issue>)
    requires |t.events| > 0 && t.events[|t.events| - 1].kind.Completed?
    ensures issues == [] <==> TurnsOk(lib, t, required)
  {
    hide TurnOk;
    hide Exchange;
    hide ToolPart;
    hide FinishPart;
    var lastIndex := |t.events| - 1;
    var index, stepIndex, modelCall := 1, 0, 1;
    var previous: Option<string> := None;
    var sawFinish := false;
    issues := [];
    StartAligned(lib, t, required);
    assert lastIndex >= 1 || !TurnsOk(lib, t, required) by { ShortLogFails(lib, t, required); }
    while index < lastIndex
      invariant 1 <= index && (lastIndex >= 1 ==> index <= lastIndex)
      invariant stepIndex <= |t.steps|
      invariant sawFinish ==> index == lastIndex
      invariant issues == [] && !sawFinish ==> Aligned(lib, t, required, stepIndex, index, modelCall, previous)
      invariant issues == [] && sawFinish ==> FinishedAt(lib, t, required, stepIndex)
      invariant issues != [] ==> !TurnsOk(lib, t, required)
      decreases lastIndex - index
    {
      var found, end := TurnIssues(lib, t, required, index, stepIndex, modelCall, previous);
      if issues == [] {
        TurnDecides(lib, t, required, stepIndex, index, modelCall, previous, found);
      }
      issues := issues + found;
      if end.None? {
        break;
      }
      previous := ResponseId(t.events[index + 1]);
      modelCall := modelCall + 1;
      index := end.value.index;
      if end.value.finished {
        sawFinish := true;
      } else {
        stepIndex := stepIndex + 1;
      }
    }
    ScanEnds(lib, t, required, issues, stepIndex, index, modelCall, previous, sawFinish);
    issues := issues + When(!sawFinish, MissingFinishDecision)
      + When(stepIndex != |t.steps|, StepEventCountMismatch);
  }

  /** A finish turn was accepted where the turn of step `k` should be. */
  predicate FinishedAt(lib: Library, t: Trace, required: set<Uuid>, k: nat) {
    && k <= |t.steps|
    && (forall j :: 0 <= j < k ==> TurnOk(lib, t, required, j))
    && var at := Offset(t.steps, k);
    Exchange(t, at, k + 1, Previous(t, k)) && FinishPart(t, at)
  }

  lemma ShortLogFails(lib: Library, t: Trace, required: set<Uuid>)
    ensures |t.events| <= 1 ==> !TurnsOk(lib, t, required)
  {
    assert TurnsOk(lib, t, required) ==> TurnOk(lib, t, required, 0);
    assert Offset(t.steps, 0) == 1;
  }

  /** From an aligned scan, one turn's verdict carries over to the language. */
  lemma TurnDecides(
    lib: Library, t: Trace, required: set<Uuid>, k: nat, index: nat, modelCall: nat, previous: Option<string>,
    found: seq<Issue>)
    requires Aligned(lib, t, required, k, index, modelCall, previous)
    requires found == [] <==>
      && Exchange(t, index, modelCall, previous)
      && (FinishPart(t, index) || (k < |t.steps| && ToolPart(lib, t, required, t.steps[k], index)))
    ensures found != [] ==> !TurnsOk(lib, t, required)
    ensures found == [] && FinishPart(t, index) ==> FinishedAt(lib, t, required, k)
    ensures found == [] && !FinishPart(t, index) ==>
      && k < |t.steps| && index + 1 < |t.events|
      && Aligned(
        lib, t, required, k + 1, index + TurnLength(t.steps[k]), modelCall + 1, ResponseId(t.events[index + 1]))
    ensures found == [] ==>
      index + 1 < |t.events| && (FinishPart(t, index) <==> DecisionType(t, index) == Some("finish"))
  {
    assert TurnOk(lib, t, required, k) <==>
      && Exchange(t, index, modelCall, previous)
      && if k < |t.steps| then ToolPart(lib, t, required, t.steps[k], index) else FinishPart(t, index);
    if found == [] {
      ToolPartNeeds(lib, t, required, index);
      if !FinishPart(t, index) {
        ToolTurnAligns(lib, t, required, k, index, modelCall, previous);
      }
    }
  }

  /** What the scan has established when it stops. */
  lemma ScanEnds(
    lib: Library, t: Trace, required: set<Uuid>, issues: seq<Issue>, k: nat, index: nat, modelCall: nat,
    previous: Option<string>, sawFinish: bool)
    requires issues != [] ==> !TurnsOk(lib, t, required)
    requires issues == [] && !sawFinish ==>
      Aligned(lib, t, required, k, index, modelCall, previous) && index + 1 >= |t.events|
    requires issues == [] && sawFinish ==> FinishedAt(lib, t, required, k)
    ensures issues == [] && sawFinish && k == |t.steps| <==> TurnsOk(lib, t, required)
  {
    hide Exchange;
    hide ToolPart;
    hide FinishPart;
    if issues == [] && k <= |t.steps| {
      TurnNeedsRoom(lib, t, required, k);
      if sawFinish {
        ToolPartNeeds(lib, t, required, Offset(t.steps, k));
      }
      if !sawFinish || k < |t.steps| {
        assert !TurnOk(lib, t, required, k);
      } else {
        assert TurnOk(lib, t, required, k);
      }
    }
  }

  method StartIssues(lib: Library, t: Trace) returns (issues: seq<Issue>)
    requires |t.events| > 0
    ensures issues == [] <==> StartOk(lib, t)
  {
    var started := t.events[0];
    if !started.kind.Started? {
      issues := [StartedEventNotFirst];
    } else {
      issues := When(started.createdAt < t.run.createdAt, StartedEventPrecedesRun)
        + When(DataUuid(lib, started.data, "agent_id") != Some(t.agent.id), StartedAgentMismatch)
        + When(GetString(started.data, "goal") != Some(t.run.goal), StartedGoalMismatch);
    }
  }

  method EndIssues(t: Trace) returns (issues: seq<Issue>)
    requires |t.events| > 0 && t.events[|t.events| - 1].kind.Completed?
    ensures issues == [] <==> EndOk(t)
  {
    var completed := t.events[|t.events| - 1];
    issues := When(AbsentOrAfter(t.run.completedAt, completed.createdAt), CompletedEventPrecedesRunCompletion)
      + When(NonBlank(FinalOutput(t)).None?, CompletedOutputEmpty);
  }

  predicate AbsentOrAfter(at: Option<Time>, limit: Time) {
    at.None? || limit < at.value
  }

  /** Sound and complete: nothing is reported exactly for the logs of the
      language. */
  method LifecycleIssues(lib: Library, t: Trace, required: set<Uuid>) returns (issues: seq<Issue>)
    ensures issues == [] <==> Lifecycle(lib, t, required)
  {
    hide TopologyOk;
    hide EventsOk;
    hide StartOk;
    hide TurnsOk;
    issues := StepTopologyIssues(t.run, t.steps);
    var found := EventIssues(lib, t);
    issues := issues + found;
    if |t.events| == 0 {
      issues := issues + [MissingStartedEvent, MissingCompletedEvent];
      assert !EndOk(t);
      return;
    }
    found := StartIssues(lib, t);
    issues := issues + found;
    if !t.events[|t.events| - 1].kind.Completed? {
      issues := issues + [CompletedEventNotLast];
      return;
    }
    found := EndIssues(t);
    issues := issues + found;
    if StartOk(lib, t) && EndOk(t) && TurnsOk(lib, t, required) {
      EndsAreUnique(lib, t, required);
    }
    issues := issues + When(Count(t.events, Started) != 1, StartedEventCountInvalid)
      + When(Count(t.events, Completed) != 1, CompletedEventCountInvalid);
    if !t.events[0].kind.Started? {
      StartNeeds(lib, t);
      return;
    }
    found := TurnsIssues(lib, t, required);
    issues := issues + found;
  }

  lemma StartNeeds(lib: Library, t: Trace)
    ensures StartOk(lib, t) ==> |t.events| > 0 && t.events[0].kind.Started?
  {
  }
}
