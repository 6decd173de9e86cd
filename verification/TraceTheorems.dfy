/** What the checks of a passed evaluation guarantee together that none of them
    states alone. */
module TraceTheorems {
  import opened Prelude
  import opened AgentModel
  import opened TraceModel
  import opened TraceMatching
  import opened TraceTopology
  import opened TraceApprovals
  import opened TraceLifecycle
  import opened TraceEval

  /** In a passed evaluation the sorted steps are numbered 0, 1, 2, ..., each a
      first attempt without a retry parent. */
  lemma PassedStepsAreInOrder(lib: Library, policy: Policy, t: Trace, i: nat)
    requires TaskCorrect(lib, policy, t) && i < |t.steps|
    ensures t.steps[i].ordinal == i && t.steps[i].attempt == 1 && t.steps[i].retryOf.None?
  {
    hide OneToOne;
    hide TurnsOk;
    hide AllReported;
    SucceededStepsAreInOrder(t.run, t.steps, i);
  }

  lemma {:induction false} EventTimesGrow(lib: Library, t: Trace, i: nat, j: nat)
    requires EventsOk(lib, t, |t.events|) && i <= j < |t.events|
    ensures t.events[i].createdAt <= t.events[j].createdAt
  {
    if i < j {
      EventTimesGrow(lib, t, i, j - 1);
      assert EventOk(lib, t, j);
    }
  }

  /** The instants of one approved step, in the order they must have. */
  predicate InTimeOrder(
    run: AgentRun, step: AgentRunStep, evidence: ApprovalEvidence, requested: Time, asked: Time, resumed: Time,
    succeeded: Time, ended: Time)
  {
    && step.completedAt.Some?
    && run.createdAt <= requested <= evidence.request.body.requestedAt <= asked
    && asked <= evidence.decision.body.decidedAt <= resumed <= evidence.execution.executedAt
    && evidence.execution.executedAt <= step.completedAt.value <= succeeded <= ended
    && evidence.execution.executedAt <= evidence.request.body.expiresAt
  }

  /** The evidence that backs an approved step. */
  ghost predicate BackedBy(lib: Library, t: Trace, step: AgentRunStep, k: int) {
    && Carries(step)
    && SoleEvidence(t.approvals, step.approvalRequestId.value, k)
    && EvidenceOk(lib, t.run, t.actor, t.trusted, step, t.approvals[k])
  }

  lemma ApprovedTurn(lib: Library, t: Trace, required: set<Uuid>, i: nat, at: nat)
    requires TurnsOk(lib, t, required) && i < |t.steps| && Carries(t.steps[i]) && at == Offset(t.steps, i)
    ensures at + 6 < |t.events|
    ensures ApprovalPart(lib, t, t.steps[i], at + 2)
    ensures SuccessPart(lib, t, t.steps[i], CallId(t.events[at + 2]), at + 5)
  {
    hide ApprovalPart;
    hide SuccessPart;
    hide RequestPart;
    hide Exchange;
    assert TurnOk(lib, t, required, i);
  }

  lemma ApprovalInstants(lib: Library, t: Trace, step: AgentRunStep, at: nat, k: int)
    requires Carries(step) && at + 2 < |t.events| && ApprovalPart(lib, t, step, at)
    requires SoleEvidence(t.approvals, step.approvalRequestId.value, k)
    ensures var e := t.approvals[k];
      && t.events[at].createdAt <= e.request.body.requestedAt <= t.events[at + 1].createdAt
      && t.events[at + 1].createdAt <= e.decision.body.decidedAt <= t.events[at + 2].createdAt
      && t.events[at + 2].createdAt <= e.execution.executedAt
  {
    assert ApprovalByRequest(t.approvals, step.approvalRequestId.value) == Some(t.approvals[k]);
  }

  lemma ExecutionInstants(lib: Library, t: Trace, step: AgentRunStep, callId: string, at: nat, k: int)
    requires BackedBy(lib, t, step, k) && SuccessPart(lib, t, step, callId, at)
    ensures step.completedAt.Some?
    ensures t.approvals[k].execution.executedAt <= step.completedAt.value <= t.events[at].createdAt
    ensures t.approvals[k].execution.executedAt <= t.approvals[k].request.body.expiresAt
  {
    hide RequestFitsStep;
    hide DecisionFitsRequest;
  }

  lemma LogEnds(lib: Library, t: Trace)
    requires StartOk(lib, t) && EndOk(t)
    ensures |t.events| > 0 && t.run.createdAt <= t.events[0].createdAt
    ensures t.events[|t.events| - 1].kind.Completed?
  {
  }

  lemma ApprovedTurnKinds(lib: Library, t: Trace, required: set<Uuid>, i: nat, at: nat)
    requires TurnsOk(lib, t, required) && i < |t.steps| && Carries(t.steps[i]) && at == Offset(t.steps, i)
    ensures ShapedAs(t.events, at, TurnKinds(t.steps[i]))
    ensures at + 6 <= |t.events| && t.events[at + 2].kind.ToolRequested? && t.events[at + 3].kind.ApprovalRequired?
    ensures t.events[at + 4].kind.ApprovalResumed? && t.events[at + 5].kind.ToolSucceeded?
  {
    hide Exchange;
    hide ToolPart;
    assert TurnOk(lib, t, required, i);
    ToolTurnKinds(lib, t, required, t.steps[i], at, i + 1, Previous(t, i));
    var kinds := TurnKinds(t.steps[i]);
    assert t.events[at + 2].kind == kinds[2] && t.events[at + 3].kind == kinds[3];
    assert t.events[at + 4].kind == kinds[4] && t.events[at + 5].kind == kinds[5];
  }

  lemma PassedLog(lib: Library, policy: Policy, t: Trace) returns (required: set<Uuid>)
    requires TaskCorrect(lib, policy, t)
    ensures TopologyOk(t.run, t.steps) && EventsOk(lib, t, |t.events|)
    ensures StartOk(lib, t) && EndOk(t) && TurnsOk(lib, t, required)
  {
    MatchInRange(policy.expected, t.steps);
    required := RequiredStepIds(policy.expected, GreedyMatch(policy.expected, t.steps), t.steps);
  }

  lemma BackingOf(lib: Library, policy: Policy, t: Trace, i: nat) returns (k: nat)
    requires TaskCorrect(lib, policy, t) && i < |t.steps| && Carries(t.steps[i])
    ensures BackedBy(lib, t, t.steps[i], k)
  {
    hide Lifecycle;
    hide AllReported;
    hide AllProven;
    hide EvidenceOk;
    MatchInRange(policy.expected, t.steps);
    assert OneToOne(lib, t, policy.expected, GreedyMatch(policy.expected, t.steps));
    assert Backed(lib, t, t.steps[i]);
    k :| SoleEvidence(t.approvals, t.steps[i].approvalRequestId.value, k)
      && EvidenceOk(lib, t.run, t.actor, t.trusted, t.steps[i], t.approvals[k]);
  }

  /** Step `i` and its evidence `k` went through the events of the step's own
      turn in time order. */
  ghost predicate ApprovedInOrder(lib: Library, t: Trace, i: nat, k: int)
    requires i < |t.steps|
  {
    var at := Offset(t.steps, i);
    && at + 6 < |t.events|
    && BackedBy(lib, t, t.steps[i], k)
    && t.events[at + 2].kind.ToolRequested? && t.events[at + 3].kind.ApprovalRequired?
    && t.events[at + 4].kind.ApprovalResumed? && t.events[at + 5].kind.ToolSucceeded?
    && t.events[|t.events| - 1].kind.Completed?
    && InTimeOrder(
      t.run, t.steps[i], t.approvals[k], t.events[at + 2].createdAt, t.events[at + 3].createdAt,
      t.events[at + 4].createdAt, t.events[at + 5].createdAt, t.events[|t.events| - 1].createdAt)
  }

  lemma BackedStepInOrder(lib: Library, t: Trace, required: set<Uuid>, i: nat, k: int)
    requires EventsOk(lib, t, |t.events|) && StartOk(lib, t) && EndOk(t) && TurnsOk(lib, t, required)
    requires i < |t.steps| && BackedBy(lib, t, t.steps[i], k)
    ensures ApprovedInOrder(lib, t, i, k)
  {
    hide EventsOk;
    hide StartOk;
    hide EndOk;
    hide TurnsOk;
    hide EvidenceOk;
    hide ApprovalPart;
    hide SuccessPart;
    hide CallId;
    hide ShapedAs;
    hide Offset;
    hide TurnKinds;
    var at := Offset(t.steps, i);
    LogEnds(lib, t);
    ApprovedTurn(lib, t, required, i, at);
    ApprovedTurnKinds(lib, t, required, i, at);
    ApprovalInstants(lib, t, t.steps[i], at + 2, k);
    ExecutionInstants(lib, t, t.steps[i], CallId(t.events[at + 2]), at + 5, k);
    EventTimesGrow(lib, t, 0, at + 2);
    EventTimesGrow(lib, t, at + 5, |t.events| - 1);
  }

  /** Every approved step of a passed evaluation went through its whole approval
      in time order, with an execution no later than the approval's expiry. */
  lemma ApprovedStepsAreInTimeOrder(lib: Library, policy: Policy, t: Trace, i: nat)
    requires TaskCorrect(lib, policy, t) && i < |t.steps| && Carries(t.steps[i])
    ensures exists k :: ApprovedInOrder(lib, t, i, k)
  {
    hide TaskCorrect;
    hide ApprovedInOrder;
    var k := BackingOf(lib, policy, t, i);
    var required := PassedLog(lib, policy, t);
    BackedStepInOrder(lib, t, required, i, k);
  }

  /** The tenth check is implied by the ninth: a log in the language has no room
      for a failure event. */
  lemma LifecycleLeavesNoFailures(lib: Library, t: Trace, required: set<Uuid>)
    requires Lifecycle(lib, t, required)
    ensures NoFailures(t.events)
  {
    hide TurnsOk;
    hide TopologyOk;
    InnerEventsAreTurns(lib, t, required);
  }

  // ----- the size of a passed trace

  function CarryingSteps(steps: seq<AgentRunStep>, k: nat): nat
    requires k <= |steps|
  {
    if k == 0 then 0 else CarryingSteps(steps, k - 1) + if Carries(steps[k - 1]) then 1 else 0
  }

  lemma {:induction false} OffsetCounts(steps: seq<AgentRunStep>, k: nat)
    requires k <= |steps|
    ensures Offset(steps, k) == 1 + 4 * k + 2 * CarryingSteps(steps, k)
  {
    if k == 0 {
    } else {
      OffsetCounts(steps, k - 1);
    }
  }

  function ClaimedIds(steps: seq<AgentRunStep>, k: nat): set<Uuid>
    requires k <= |steps|
  {
    set i | 0 <= i < k && Carries(steps[i]) :: steps[i].approvalRequestId.value
  }

  predicate DistinctRequests(steps: seq<AgentRunStep>) {
    forall i, j :: 0 <= i < j < |steps| && Carries(steps[i]) && Carries(steps[j]) ==>
      steps[i].approvalRequestId != steps[j].approvalRequestId
  }

  lemma {:induction false} ClaimedCount(steps: seq<AgentRunStep>, k: nat)
    requires k <= |steps| && DistinctRequests(steps)
    ensures |ClaimedIds(steps, k)| == CarryingSteps(steps, k)
  {
    if k > 0 {
      ClaimedCount(steps, k - 1);
      var last := steps[k - 1];
      if Carries(last) {
        var id, earlier := last.approvalRequestId.value, ClaimedIds(steps, k - 1);
        assert id !in earlier by {
          assert forall i :: 0 <= i < k - 1 && Carries(steps[i]) ==>
            steps[i].approvalRequestId != last.approvalRequestId;
        }
        assert ClaimedIds(steps, k) == earlier + {id};
      } else {
        assert ClaimedIds(steps, k) == ClaimedIds(steps, k - 1);
      }
    } else {
      assert ClaimedIds(steps, k) == {};
    }
  }

  function EvidenceIds(approvals: seq<ApprovalEvidence>, k: nat): set<Uuid>
    requires k <= |approvals|
  {
    set i | 0 <= i < k :: approvals[i].request.body.id
  }

  lemma {:induction false} EvidenceCount(approvals: seq<ApprovalEvidence>, k: nat)
    requires k <= |approvals|
    requires forall i, j :: 0 <= i < j < |approvals| ==> approvals[i].request.body.id != approvals[j].request.body.id
    ensures |EvidenceIds(approvals, k)| == k
  {
    if k > 0 {
      EvidenceCount(approvals, k - 1);
      assert EvidenceIds(approvals, k) == EvidenceIds(approvals, k - 1) + {approvals[k - 1].request.body.id};
    } else {
      assert EvidenceIds(approvals, k) == {};
    }
  }

  /** In a one-to-one accounting no two pieces of evidence share a request. */
  lemma EvidenceIsDistinct(lib: Library, t: Trace, expected: seq<ExpectedCall>, positions: Positions)
    requires |expected| == |positions| && InRange(positions, t.steps) && OneToOne(lib, t, expected, positions)
    ensures forall i, j :: 0 <= i < j < |t.approvals| ==>
      t.approvals[i].request.body.id != t.approvals[j].request.body.id
  {
    forall i, j | 0 <= i < j < |t.approvals|
      ensures t.approvals[i].request.body.id != t.approvals[j].request.body.id
    {
      assert Claimed(t.steps, t.approvals[i].request.body.id);
      var s :| 0 <= s < |t.steps| && t.steps[s].approvalRequestId == Some(t.approvals[i].request.body.id);
      assert Backed(lib, t, t.steps[s]);
      var k :| SoleEvidence(t.approvals, t.steps[s].approvalRequestId.value, k);
      assert IsFor(t.approvals[i], t.steps[s].approvalRequestId.value);
      if t.approvals[i].request.body.id == t.approvals[j].request.body.id {
        assert IsFor(t.approvals[j], t.steps[s].approvalRequestId.value);
      }
    }
  }

  /** As many approvals as approved steps. */
  lemma ApprovalsCountSteps(lib: Library, t: Trace, expected: seq<ExpectedCall>, positions: Positions)
    requires |expected| == |positions| && InRange(positions, t.steps) && OneToOne(lib, t, expected, positions)
    ensures |t.approvals| == CarryingSteps(t.steps, |t.steps|)
  {
    EvidenceIsDistinct(lib, t, expected, positions);
    EvidenceCount(t.approvals, |t.approvals|);
    ClaimedCount(t.steps, |t.steps|);
    SameIds(lib, t, expected, positions);
  }

  lemma SameIds(lib: Library, t: Trace, expected: seq<ExpectedCall>, positions: Positions)
    requires |expected| == |positions| && InRange(positions, t.steps) && OneToOne(lib, t, expected, positions)
    ensures EvidenceIds(t.approvals, |t.approvals|) == ClaimedIds(t.steps, |t.steps|)
  {
    forall id | id in EvidenceIds(t.approvals, |t.approvals|) ensures id in ClaimedIds(t.steps, |t.steps|) {
      var k :| 0 <= k < |t.approvals| && t.approvals[k].request.body.id == id;
      assert Claimed(t.steps, t.approvals[k].request.body.id);
      var s :| 0 <= s < |t.steps| && t.steps[s].approvalRequestId == Some(id);
      assert Carries(t.steps[s]);
    }
    forall id | id in ClaimedIds(t.steps, |t.steps|) ensures id in EvidenceIds(t.approvals, |t.approvals|) {
      var i :| 0 <= i < |t.steps| && Carries(t.steps[i]) && t.steps[i].approvalRequestId.value == id;
      assert Backed(lib, t, t.steps[i]);
      var k :| SoleEvidence(t.approvals, id, k);
      assert IsFor(t.approvals[k], id);
    }
  }

  /** Four events per step, two more per approval, and four around them: nothing
      else is in the log of a passed evaluation. */
  lemma PassedTraceSize(lib: Library, policy: Policy, t: Trace)
    requires TaskCorrect(lib, policy, t)
    ensures |t.events| == 4 + 4 * |t.steps| + 2 * |t.approvals|
  {
    hide TurnsOk;
    var positions := GreedyMatch(policy.expected, t.steps);
    MatchInRange(policy.expected, t.steps);
    assert OneToOne(lib, t, policy.expected, positions);
    var required := PassedLog(lib, policy, t);
    KindsAreDetermined(lib, t, required);
    OffsetCounts(t.steps, |t.steps|);
    ApprovalsCountSteps(lib, t, policy.expected, positions);
  }
}
