/** Accounting of approvals: which steps must show one, and that each shown
    approval is used once. */
module TraceApprovals {
  import opened Prelude
  import opened AgentModel
  import opened TraceModel
  import opened TraceMatching

  datatype ApprovalResult = ApprovalResult(stepId: Option<Uuid>, requestId: Option<Uuid>, issues: seq<Issue>) {
    predicate Passed() {
      issues == []
    }
  }

  predicate AllPassed(results: seq<ApprovalResult>) {
    forall i :: 0 <= i < |results| ==> results[i].Passed()
  }

  /** A step under examination; absent when an expected call matched no step. */
  type Entry = Option<AgentRunStep>

  predicate Carries(step: AgentRunStep) {
    step.approvalRequestId.Some?
  }

  // ----- the entries, in the order they are examined

  function RequiredEntries(
      expected: seq<ExpectedCall>, positions: Positions, steps: seq<AgentRunStep>): (entries: seq<Entry>)
    requires |expected| == |positions| && InRange(positions, steps)
  {
    if expected == [] then []
    else
      var rest := RequiredEntries(expected[1..], positions[1..], steps);
      if !expected[0].requiresApprovedExecution then rest
      else [if positions[0].Some? then Some(steps[positions[0].value]) else None] + rest
  }

  /** The remaining steps that carry an approval, one per identifier not seen. */
  function RemainingEntries(steps: seq<AgentRunStep>, seen: set<Uuid>): seq<Entry>
    decreases |steps|
  {
    if steps == [] then []
    else if Carries(steps[0]) && steps[0].id !in seen then
      [Some(steps[0])] + RemainingEntries(steps[1..], seen + {steps[0].id})
    else RemainingEntries(steps[1..], seen)
  }

  function StepIds(entries: seq<Entry>): set<Uuid> {
    set i | 0 <= i < |entries| && entries[i].Some? :: entries[i].value.id
  }

  function Entries(expected: seq<ExpectedCall>, positions: Positions, steps: seq<AgentRunStep>): seq<Entry>
    requires |expected| == |positions| && InRange(positions, steps)
  {
    var required := RequiredEntries(expected, positions, steps);
    required + RemainingEntries(steps, StepIds(required))
  }

  // ----- what it takes for every entry to pass

  predicate EntryCarries(entry: Entry) {
    entry.Some? && Carries(entry.value)
  }

  function RequestIds(entries: seq<Entry>): set<Uuid> {
    set i | 0 <= i < |entries| && EntryCarries(entries[i]) :: entries[i].value.approvalRequestId.value
  }

  /** The entry's request has exactly one piece of evidence, and it is good. */
  ghost predicate Backed(lib: Library, t: Trace, step: AgentRunStep)
    requires Carries(step)
  {
    exists k :: SoleEvidence(t.approvals, step.approvalRequestId.value, k)
      && EvidenceOk(lib, t.run, t.actor, t.trusted, step, t.approvals[k])
  }

  ghost predicate EntryOk(lib: Library, t: Trace, entries: seq<Entry>, i: nat)
    requires i < |entries|
  {
    && EntryCarries(entries[i])
    && entries[i].value.approvalRequestId.value !in RequestIds(entries[..i])
    && Backed(lib, t, entries[i].value)
  }

  ghost predicate EntriesOk(lib: Library, t: Trace, entries: seq<Entry>) {
    forall i :: 0 <= i < |entries| ==> EntryOk(lib, t, entries, i)
  }

  predicate EvidenceUsed(approvals: seq<ApprovalEvidence>, used: set<Uuid>, n: nat)
    requires n <= |approvals|
  {
    forall k :: 0 <= k < n ==> approvals[k].request.body.id in used
  }

  // ----- the accounting itself

  /** Examines one entry, claiming its request among those used so far. */
  method CheckApproval(lib: Library, t: Trace, entry: Entry, used: set<Uuid>)
    returns (r: ApprovalResult, nowUsed: set<Uuid>)
    ensures nowUsed == used + RequestIds([entry])
    ensures r.Passed() <==>
      && EntryCarries(entry)
      && entry.value.approvalRequestId.value !in used
      && Backed(lib, t, entry.value)
  {
    hide EvidenceOk;
    assert EntryCarries(entry) ==> RequestIds([entry]) == {entry.value.approvalRequestId.value} by {
      assert [entry][0] == entry;
    }
    nowUsed := used;
    if entry.None? {
      r := ApprovalResult(None, None, [MissingExpectedStep]);
      return;
    }
    var step := entry.value;
    if step.approvalRequestId.None? {
      r := ApprovalResult(Some(step.id), None, [MissingStepApprovalRequest]);
      return;
    }
    var requestId := step.approvalRequestId.value;
    nowUsed := used + {requestId};
    if requestId in used {
      r := ApprovalResult(Some(step.id), Some(requestId), [ApprovalRequestReused]);
      return;
    }
    var first := FirstFor(t.approvals, requestId, 0);
    if first == |t.approvals| {
      r := ApprovalResult(Some(step.id), Some(requestId), [MissingApprovalEvidence]);
      return;
    }
    if FirstFor(t.approvals, requestId, first + 1) < |t.approvals| {
      r := ApprovalResult(Some(step.id), Some(requestId), [DuplicateApprovalEvidence]);
      return;
    }
    assert SoleEvidence(t.approvals, requestId, first);
    var issues := ApprovalEvidenceIssues(lib, t.run, t.actor, t.trusted, step, t.approvals[first]);
    r := ApprovalResult(Some(step.id), Some(requestId), issues);
  }

  lemma RequestIdsExtend(entries: seq<Entry>, entry: Entry)
    ensures RequestIds(entries + [entry]) == RequestIds(entries) + RequestIds([entry])
  {
    var longer := entries + [entry];
    assert [entry][0] == entry;
    assert forall i :: 0 <= i < |entries| ==> longer[i] == entries[i];
    assert longer[|entries|] == entry;
  }

  lemma EntriesOkExtend(lib: Library, t: Trace, entries: seq<Entry>, entry: Entry)
    ensures EntriesOk(lib, t, entries + [entry]) <==>
      && EntriesOk(lib, t, entries)
      && EntryCarries(entry)
      && entry.value.approvalRequestId.value !in RequestIds(entries)
      && Backed(lib, t, entry.value)
  {
    var longer := entries + [entry];
    assert longer[..|entries|] == entries;
    forall i | 0 <= i < |entries| ensures EntryOk(lib, t, longer, i) <==> EntryOk(lib, t, entries, i) {
      assert longer[..i] == entries[..i];
    }
    if EntriesOk(lib, t, longer) {
      assert EntryOk(lib, t, longer, |entries|);
      assert EntriesOk(lib, t, entries);
    }
  }

  lemma StepIdsExtend(entries: seq<Entry>, entry: Entry)
    ensures StepIds(entries + [entry]) == StepIds(entries) + if entry.Some? then {entry.value.id} else {}
  {
    var longer := entries + [entry];
    assert forall i :: 0 <= i < |entries| ==> longer[i] == entries[i];
    assert longer[|entries|] == entry;
  }

  lemma AllPassedExtend(results: seq<ApprovalResult>, r: ApprovalResult)
    ensures AllPassed(results + [r]) <==> AllPassed(results) && r.Passed()
  {
    var longer := results + [r];
    assert longer[|results|] == r;
    assert forall i :: 0 <= i < |results| ==> longer[i] == results[i];
  }

  /** The results and used requests after examining some entries. */
  ghost predicate Accounts(lib: Library, t: Trace, entries: seq<Entry>, results: seq<ApprovalResult>, used: set<Uuid>) {
    && used == RequestIds(entries)
    && (AllPassed(results) <==> EntriesOk(lib, t, entries))
  }

  /** Examines one more entry. */
  method CheckNext(
    lib: Library, t: Trace, entry: Entry, results: seq<ApprovalResult>, used: set<Uuid>, ghost entries: seq<Entry>)
    returns (nowResults: seq<ApprovalResult>, nowUsed: set<Uuid>)
    requires Accounts(lib, t, entries, results, used)
    ensures Accounts(lib, t, entries + [entry], nowResults, nowUsed)
  {
    hide Backed;
    hide EntriesOk;
    RequestIdsExtend(entries, entry);
    EntriesOkExtend(lib, t, entries, entry);
    var r;
    r, nowUsed := CheckApproval(lib, t, entry, used);
    AllPassedExtend(results, r);
    nowResults := results + [r];
  }

  /** First the steps matched by expected calls that need an approval. */
  method CheckRequired(lib: Library, t: Trace, expected: seq<ExpectedCall>, positions: Positions)
    returns (results: seq<ApprovalResult>, checkedSteps: set<Uuid>, used: set<Uuid>)
    requires |expected| == |positions| && InRange(positions, t.steps)
    ensures var required := RequiredEntries(expected, positions, t.steps);
      Accounts(lib, t, required, results, used) && checkedSteps == StepIds(required)
  {
    NoEntriesOk(lib, t);
    hide EntriesOk;
    results, checkedSteps, used := [], {}, {};
    ghost var entries: seq<Entry> := [];
    for i := 0 to |expected|
      invariant Accounts(lib, t, entries, results, used) && checkedSteps == StepIds(entries)
      invariant entries + RequiredEntries(expected[i..], positions[i..], t.steps)
        == RequiredEntries(expected, positions, t.steps)
    {
      assert expected[i..][1..] == expected[i + 1..] && positions[i..][1..] == positions[i + 1..];
      if expected[i].requiresApprovedExecution {
        var step := if positions[i].Some? then Some(t.steps[positions[i].value]) else None;
        if step.Some? {
          checkedSteps := checkedSteps + {step.value.id};
        }
        StepIdsExtend(entries, step);
        results, used := CheckNext(lib, t, step, results, used, entries);
        entries := entries + [step];
      }
    }
    assert entries == RequiredEntries(expected, positions, t.steps);
  }

  /** Then every other step that carries an approval. */
  method CheckRemaining(
    lib: Library, t: Trace, results: seq<ApprovalResult>, checkedSteps: set<Uuid>, used: set<Uuid>,
    ghost required: seq<Entry>)
    returns (nowResults: seq<ApprovalResult>, nowUsed: set<Uuid>)
    requires Accounts(lib, t, required, results, used)
    ensures Accounts(lib, t, required + RemainingEntries(t.steps, checkedSteps), nowResults, nowUsed)
  {
    hide EntriesOk;
    nowResults, nowUsed := results, used;
    var checked := checkedSteps;
    ghost var entries := required;
    for i := 0 to |t.steps|
      invariant Accounts(lib, t, entries, nowResults, nowUsed)
      invariant entries + RemainingEntries(t.steps[i..], checked) == required + RemainingEntries(t.steps, checkedSteps)
    {
      var step := t.steps[i];
      assert t.steps[i..][1..] == t.steps[i + 1..];
      if Carries(step) && step.id !in checked {
        checked := checked + {step.id};
        nowResults, nowUsed := CheckNext(lib, t, Some(step), nowResults, nowUsed, entries);
        entries := entries + [Some(step)];
      }
    }
    assert entries == required + RemainingEntries(t.steps, checkedSteps);
  }

  /** Every entry is backed by evidence of its own, and no evidence is left over. */
  ghost predicate ApprovalsAccounted(lib: Library, t: Trace, expected: seq<ExpectedCall>, positions: Positions)
    requires |expected| == |positions| && InRange(positions, t.steps)
  {
    var entries := Entries(expected, positions, t.steps);
    EntriesOk(lib, t, entries) && EvidenceUsed(t.approvals, RequestIds(entries), |t.approvals|)
  }

  /** One result per entry and per unused piece of evidence; all pass exactly
      when every entry carries a fresh, well-backed request and no evidence is
      left over. */
  method RequiredApprovalResults(lib: Library, t: Trace, expected: seq<ExpectedCall>, positions: Positions)
    returns (results: seq<ApprovalResult>)
    requires |expected| == |positions| && InRange(positions, t.steps)
    ensures AllPassed(results) <==> ApprovalsAccounted(lib, t, expected, positions)
  {
    hide EntriesOk;
    var checkedSteps, used;
    results, checkedSteps, used := CheckRequired(lib, t, expected, positions);
    results, used := CheckRemaining(
      lib, t, results, checkedSteps, used, RequiredEntries(expected, positions, t.steps));
    ghost var entries := Entries(expected, positions, t.steps);
    for k := 0 to |t.approvals|
      invariant used == RequestIds(entries)
      invariant AllPassed(results) <==> EntriesOk(lib, t, entries) && EvidenceUsed(t.approvals, used, k)
    {
      if t.approvals[k].request.body.id !in used {
        var r := ApprovalResult(None, Some(t.approvals[k].request.body.id), [UnusedApprovalEvidence]);
        AllPassedExtend(results, r);
        results := results + [r];
      }
    }
  }

  lemma NoEntriesOk(lib: Library, t: Trace)
    ensures EntriesOk(lib, t, [])
  {
  }

  // ----- what it means for the whole trace

  predicate DistinctIds(steps: seq<AgentRunStep>) {
    forall i, j :: 0 <= i < j < |steps| ==> steps[i].id != steps[j].id
  }

  /** Every step that carries an approval is backed by its own evidence, every
      piece of evidence belongs to such a step, and every expected call that
      needs an approval was matched by such a step. */
  ghost predicate OneToOne(lib: Library, t: Trace, expected: seq<ExpectedCall>, positions: Positions)
    requires |expected| == |positions| && InRange(positions, t.steps)
  {
    && (forall i :: 0 <= i < |t.steps| && Carries(t.steps[i]) ==> Backed(lib, t, t.steps[i]))
    && (forall i, j :: 0 <= i < j < |t.steps| && Carries(t.steps[i]) && Carries(t.steps[j]) ==>
      t.steps[i].approvalRequestId != t.steps[j].approvalRequestId)
    && (forall k :: 0 <= k < |t.approvals| ==> Claimed(t.steps, t.approvals[k].request.body.id))
    && (forall j :: 0 <= j < |expected| && expected[j].requiresApprovedExecution ==>
      positions[j].Some? && Carries(t.steps[positions[j].value]))
  }

  ghost predicate Claimed(steps: seq<AgentRunStep>, requestId: Uuid) {
    exists i :: 0 <= i < |steps| && steps[i].approvalRequestId == Some(requestId)
  }

  lemma {:induction false} RequiredEntriesAre(
      expected: seq<ExpectedCall>, positions: Positions, steps: seq<AgentRunStep>)
    requires |expected| == |positions| && InRange(positions, steps)
    ensures forall e :: e in RequiredEntries(expected, positions, steps) ==> e.Some? ==> e.value in steps
    ensures forall j :: 0 <= j < |expected| && expected[j].requiresApprovedExecution ==>
      (if positions[j].Some? then Some(steps[positions[j].value]) else None)
        in RequiredEntries(expected, positions, steps)
  {
    if expected == [] {
    } else {
      RequiredEntriesAre(expected[1..], positions[1..], steps);
      forall j | 0 <= j < |expected| && expected[j].requiresApprovedExecution
        ensures (if positions[j].Some? then Some(steps[positions[j].value]) else None)
          in RequiredEntries(expected, positions, steps)
      {
        if j > 0 {
          assert expected[1..][j - 1] == expected[j] && positions[1..][j - 1] == positions[j];
        }
      }
    }
  }

  lemma {:induction false} RequiredEntriesCome(
    expected: seq<ExpectedCall>, positions: Positions, steps: seq<AgentRunStep>, e: Entry) returns (j: nat)
    requires |expected| == |positions| && InRange(positions, steps)
    requires e in RequiredEntries(expected, positions, steps)
    ensures j < |expected| && expected[j].requiresApprovedExecution
    ensures e == if positions[j].Some? then Some(steps[positions[j].value]) else None
  {
    var first := if positions[0].Some? then Some(steps[positions[0].value]) else None;
    if expected[0].requiresApprovedExecution && e == first {
      j := 0;
    } else {
      var i := RequiredEntriesCome(expected[1..], positions[1..], steps, e);
      j := i + 1;
    }
  }

  lemma {:induction false} RemainingEntriesAre(steps: seq<AgentRunStep>, seen: set<Uuid>)
    requires DistinctIds(steps)
    ensures forall e :: e in RemainingEntries(steps, seen) <==>
      e.Some? && e.value in steps && Carries(e.value) && e.value.id !in seen
    decreases |steps|
  {
    if steps == [] {
    } else {
      var s, rest := steps[0], steps[1..];
      assert steps == [s] + rest;
      assert forall x :: x in rest ==> x.id != s.id;
      RemainingEntriesAre(rest, seen + {s.id});
      RemainingEntriesAre(rest, seen);
    }
  }

  /** With distinct step identifiers and increasing matches, no entry repeats. */
  predicate NoRepeats(entries: seq<Entry>) {
    forall i, j :: 0 <= i < j < |entries| && entries[i].Some? && entries[j].Some? ==>
      entries[i].value.id != entries[j].value.id
  }

  lemma {:induction false} RequiredNoRepeats(
      expected: seq<ExpectedCall>, positions: Positions, steps: seq<AgentRunStep>)
    requires |expected| == |positions| && InRange(positions, steps)
    requires DistinctIds(steps) && PositionsIncrease(positions)
    ensures NoRepeats(RequiredEntries(expected, positions, steps))
  {
    if expected == [] {
    } else {
      var tail := positions[1..];
      assert PositionsIncrease(tail);
      RequiredNoRepeats(expected[1..], tail, steps);
      var rest := RequiredEntries(expected[1..], tail, steps);
      if expected[0].requiresApprovedExecution && positions[0].Some? {
        forall i | 0 <= i < |rest| && rest[i].Some? ensures rest[i].value.id != steps[positions[0].value].id {
          var j := RequiredEntriesCome(expected[1..], tail, steps, rest[i]);
          assert tail[j] == positions[j + 1];
        }
      }
    }
  }

  lemma {:induction false} RemainingNoRepeats(steps: seq<AgentRunStep>, seen: set<Uuid>)
    requires DistinctIds(steps)
    ensures NoRepeats(RemainingEntries(steps, seen))
    decreases |steps|
  {
    if steps == [] {
    } else {
      var s, rest := steps[0], steps[1..];
      assert steps == [s] + rest;
      RemainingNoRepeats(rest, seen + {s.id});
      RemainingNoRepeats(rest, seen);
      RemainingEntriesAre(rest, seen + {s.id});
    }
  }

  lemma EntriesNoRepeats(expected: seq<ExpectedCall>, positions: Positions, steps: seq<AgentRunStep>)
    requires |expected| == |positions| && InRange(positions, steps)
    requires DistinctIds(steps) && PositionsIncrease(positions)
    ensures NoRepeats(Entries(expected, positions, steps))
  {
    var required := RequiredEntries(expected, positions, steps);
    var remaining := RemainingEntries(steps, StepIds(required));
    RequiredNoRepeats(expected, positions, steps);
    RemainingNoRepeats(steps, StepIds(required));
    RemainingEntriesAre(steps, StepIds(required));
    var all := required + remaining;
    forall i, j | 0 <= i < j < |all| && all[i].Some? && all[j].Some? ensures all[i].value.id != all[j].value.id {
      if i < |required| <= j {
        assert all[j] in remaining;
        assert required[i].value.id in StepIds(required);
      }
    }
  }

  /** Which entries are examined. */
  lemma EntriesAre(expected: seq<ExpectedCall>, positions: Positions, steps: seq<AgentRunStep>)
    requires |expected| == |positions| && InRange(positions, steps) && DistinctIds(steps)
    ensures var entries := Entries(expected, positions, steps);
      && (forall e :: e in entries && e.Some? ==> e.value in steps)
      && (forall s :: s in steps && Carries(s) ==> Some(s) in entries)
  {
    var required := RequiredEntries(expected, positions, steps);
    var remaining := RemainingEntries(steps, StepIds(required));
    RequiredEntriesAre(expected, positions, steps);
    RemainingEntriesAre(steps, StepIds(required));
    forall s | s in steps && Carries(s) ensures Some(s) in required + remaining {
      if s.id in StepIds(required) {
        var i :| 0 <= i < |required| && required[i].Some? && required[i].value.id == s.id;
        assert required[i] in required;
        assert required[i].value in steps;
        assert required[i] == Some(s);
      } else {
        assert Some(s) in remaining;
      }
    }
  }

  lemma EntriesOkGives(lib: Library, t: Trace, entries: seq<Entry>, e: Entry)
    requires EntriesOk(lib, t, entries) && e in entries
    ensures EntryCarries(e) && Backed(lib, t, e.value)
  {
    var i :| 0 <= i < |entries| && entries[i] == e;
    assert EntryOk(lib, t, entries, i);
  }

  lemma EntriesOkSeparates(lib: Library, t: Trace, entries: seq<Entry>, d: Entry, e: Entry)
    requires EntriesOk(lib, t, entries) && d in entries && e in entries && d != e
    requires EntryCarries(d) && EntryCarries(e)
    ensures d.value.approvalRequestId != e.value.approvalRequestId
  {
    var i :| 0 <= i < |entries| && entries[i] == d;
    var j :| 0 <= j < |entries| && entries[j] == e;
    var lo, hi := if i < j then i else j, if i < j then j else i;
    assert EntryOk(lib, t, entries, hi);
    assert entries[..hi][lo] == entries[lo];
    assert entries[lo].value.approvalRequestId.value in RequestIds(entries[..hi]);
  }

  /** A passing check makes approvals and approval-carrying steps correspond one
      to one, and covers every expected call that needs an approval. */
  lemma PassingIsOneToOne(lib: Library, t: Trace, expected: seq<ExpectedCall>, positions: Positions)
    requires |expected| == |positions| && InRange(positions, t.steps) && DistinctIds(t.steps)
    requires ApprovalsAccounted(lib, t, expected, positions)
    ensures OneToOne(lib, t, expected, positions)
  {
    hide Backed;
    hide EntriesOk;
    var entries := Entries(expected, positions, t.steps);
    EntriesAre(expected, positions, t.steps);
    RequiredEntriesAre(expected, positions, t.steps);
    forall i | 0 <= i < |t.steps| && Carries(t.steps[i]) ensures Backed(lib, t, t.steps[i]) {
      EntriesOkGives(lib, t, entries, Some(t.steps[i]));
    }
    forall i, j | 0 <= i < j < |t.steps| && Carries(t.steps[i]) && Carries(t.steps[j])
      ensures t.steps[i].approvalRequestId != t.steps[j].approvalRequestId
    {
      EntriesOkSeparates(lib, t, entries, Some(t.steps[i]), Some(t.steps[j]));
    }
    forall k | 0 <= k < |t.approvals| ensures Claimed(t.steps, t.approvals[k].request.body.id) {
      var i :| 0 <= i < |entries| && EntryCarries(entries[i])
        && entries[i].value.approvalRequestId.value == t.approvals[k].request.body.id;
      assert entries[i] in entries;
      assert entries[i].value in t.steps;
    }
    forall j | 0 <= j < |expected| && expected[j].requiresApprovedExecution
      ensures positions[j].Some? && Carries(t.steps[positions[j].value])
    {
      var e := if positions[j].Some? then Some(t.steps[positions[j].value]) else None;
      assert e in entries;
      EntriesOkGives(lib, t, entries, e);
    }
  }

  /** And conversely: the correspondence makes the check pass. */
  lemma OneToOnePasses(lib: Library, t: Trace, expected: seq<ExpectedCall>, positions: Positions)
    requires |expected| == |positions| && InRange(positions, t.steps)
    requires DistinctIds(t.steps) && PositionsIncrease(positions)
    requires OneToOne(lib, t, expected, positions)
    ensures ApprovalsAccounted(lib, t, expected, positions)
  {
    hide Backed;
    var entries := Entries(expected, positions, t.steps);
    EntriesAre(expected, positions, t.steps);
    EntriesNoRepeats(expected, positions, t.steps);
    forall i | 0 <= i < |entries| ensures EntryCarries(entries[i]) {
      EntryFromTrace(expected, positions, t.steps, entries[i]);
    }
    forall i | 0 <= i < |entries| ensures EntryOk(lib, t, entries, i) {
      var s := entries[i].value;
      assert entries[i] in entries;
      assert s in t.steps;
      if s.approvalRequestId.value in RequestIds(entries[..i]) {
        var j :| 0 <= j < i && EntryCarries(entries[..i][j])
          && entries[..i][j].value.approvalRequestId.value == s.approvalRequestId.value;
        assert entries[j] in entries;
        SameRequestSameStep(lib, t, expected, positions, entries[j].value, s);
      }
    }
    forall k | 0 <= k < |t.approvals| ensures t.approvals[k].request.body.id in RequestIds(entries) {
      assert Claimed(t.steps, t.approvals[k].request.body.id);
      var i :| 0 <= i < |t.steps| && t.steps[i].approvalRequestId == Some(t.approvals[k].request.body.id);
      assert Some(t.steps[i]) in entries;
      var j :| 0 <= j < |entries| && entries[j] == Some(t.steps[i]);
    }
  }

  lemma EntryFromTrace(expected: seq<ExpectedCall>, positions: Positions, steps: seq<AgentRunStep>, e: Entry)
    requires |expected| == |positions| && InRange(positions, steps) && DistinctIds(steps)
    requires forall j :: 0 <= j < |expected| && expected[j].requiresApprovedExecution ==>
      positions[j].Some? && Carries(steps[positions[j].value])
    requires e in Entries(expected, positions, steps)
    ensures EntryCarries(e)
  {
    var required := RequiredEntries(expected, positions, steps);
    if e in required {
      var j := RequiredEntriesCome(expected, positions, steps, e);
    } else {
      RemainingEntriesAre(steps, StepIds(required));
    }
  }

  lemma SameRequestSameStep(
    lib: Library, t: Trace, expected: seq<ExpectedCall>, positions: Positions, a: AgentRunStep, b: AgentRunStep)
    requires |expected| == |positions| && InRange(positions, t.steps) && OneToOne(lib, t, expected, positions)
    requires a in t.steps && b in t.steps && Carries(a) && a.approvalRequestId == b.approvalRequestId
    ensures a == b
  {
    var i :| 0 <= i < |t.steps| && t.steps[i] == a;
    var j :| 0 <= j < |t.steps| && t.steps[j] == b;
  }

  /** The required-approvals check, in one sentence. */
  lemma PassingIffOneToOne(lib: Library, t: Trace, expected: seq<ExpectedCall>, positions: Positions)
    requires |expected| == |positions| && InRange(positions, t.steps)
    requires DistinctIds(t.steps) && PositionsIncrease(positions)
    ensures OneToOne(lib, t, expected, positions) <==> ApprovalsAccounted(lib, t, expected, positions)
  {
    hide OneToOne;
    hide ApprovalsAccounted;
    if OneToOne(lib, t, expected, positions) {
      OneToOnePasses(lib, t, expected, positions);
    }
    if ApprovalsAccounted(lib, t, expected, positions) {
      PassingIsOneToOne(lib, t, expected, positions);
    }
  }
}
