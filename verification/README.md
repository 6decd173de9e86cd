# Proof platform: a verified model

The proof platform runs agents under delegated, audited authority. Every call an
agent makes is canonicalised, hashed and signed; runs and checkpoints are kept
by a durable store; an operator opens sessions by attested challenges; governed
calls pass a reservation and a fence before they touch the outside world; and a
finished run is judged by a deterministic evaluator that reads its trace.

This project models the parts of the platform whose correctness rests on more
than one function, and proves what they guarantee over all inputs and all runs.

| part | files |
|---|---|
| trace evaluator | TraceModel, TraceMatching, TraceTopology, TraceApprovals, TraceLifecycle, TraceEval, TraceTheorems, TraceRecords, TraceExample, TraceApprovedExample |
| lives of runs and steps | AgentModel, AgentLifecycle, AgentLifecycleService |
| canonical JSON and digests | Json, JsonReader, Text, Canonical, CanonicalNumbers, CanonicalTheorems, CanonicalEquality, Digests |
| operator session authority | Authority, AuthorityRecord, AuthorityTheorems, AuthorityService |
| durable run store | RunStore, RunStoreRecords, RunStoreTheorems, RunStoreService |
| ChangeSet commit | Content, StateText, ChangeSet, ChangeSetTheorems, ChangeSetService |
| delegation chains | Delegation |
| governed dispatch | OperatorRuntime, OperatorRuntimeService, OperatorRuntimeTheorems |
| rate limiting | TokenBucket |

A component that updates state in place appears twice: as a step function on
values, about which the theorems over whole runs are proved, and as a class whose
methods follow the source statement by statement, are proved to do what the step
function says, and keep the invariant those theorems rest on, so that the theorems
hold of the objects too. Scans that update variables are methods with loops.

## Assumptions

- A digest is represented by the text that is hashed, so hashing is free of
  collisions. For content states this text is the JSON of the objects; identifiers,
  instants and floats are assumed to be written so that they read back (`Faithful`).
- Signature checks, UUID and instant decoding, JSON pointers and the reparsing of
  printed floats are arbitrary functions, fields of a `Library` value.
- Identifiers drawn by the authority are fresh (`Admissible`); its audit store may
  fail, or write and then report a failure, but does not invent records.
- A method that holds a lock is one atomic step; a poisoned lock is not modelled.
- Revisions of runs and steps are unbounded except where the source uses checked or
  saturating arithmetic, which is written out. Revisions of content objects wrap in
  32 bits, as an unchecked addition does in an optimised build; a build with
  overflow checks would stop at that addition.
- The store, the environment, the custody checks and the engine behind the
  dispatch coordinator answer arbitrarily.
- Time is an integer; the token bucket works on reals.

## Where the code and its intent part

- `pattern_is_covered` accepts a child `s*` under a parent `s**`, although the
  parent does not match `s` itself: `Delegation.ExtraStarChain` gives an accepted
  chain whose last grant permits more than the one above it.
  `Delegation.CoverageIsInclusion` is exact about one pattern,
  `Delegation.AdmissionIsSoundCoverage` about lists, and
  `Delegation.AuthorityFlowsExactlyWhen` about chains.
- The `scope` of a delegation takes no part in chain validation
  (`Delegation.ScopesAreNotCompared`), so a grant may carry a wider scope than the
  one above it (`Delegation.ScopeMayWiden`). Whether that matters depends on the
  path. Governed execution asks the scope of every grant
  (`crates/proof-kernel/src/executor/engine.rs:257-271`); other execution,
  `enforce_delegation`, asks only that of the named grant
  (`crates/proof-kernel/src/executor/engine.rs:860-907`).
  `Delegation.ScopeFlowsExactlyWhen` says exactly when a scope allows no more than
  every scope of its chain, and `Delegation.ScopeChecksAgreeExactlyWhen` that this is
  exactly when the two paths agree.
- A float with one significant digit and no exponent prints like an integer, so
  `1.0` and `1` share a digest; `CanonicalEquality.BareDigitFloatsCollide` and
  `CanonicalEquality.PlainValuesInjective` say exactly when values collide.
- A token bucket of capacity zero cannot say how long to wait
  (`TokenBucket.OverflowIffZeroCapacity`).
- A step may end without ever having a start time: cancelled while pending
  (`AgentLifecycle.CancelBeforeStart`), or resumed from approval while pending and
  then ended (`AgentLifecycle.ResumeSkipsStart`). The evaluator refuses such a
  step; `AgentLifecycle.LivesPassTimeChecksExactlyWhen` says which lives it passes,
  and `AgentLifecycle.RunsPassScanExactlyWhen` which runs.
- A claim that was acquired is answered with its run only while the stored run
  descends from the one claimed; `RunStoreTheorems.RepeatedClaimAnswersExactly` says
  which answer a repeated claim gets.
- A checkpoint saved directly may skip numbers (`RunStoreTheorems.DirectSaveBreaksLog`);
  `RunStoreTheorems.DirectSaveKeepsLogsExactlyWhen` says when it keeps the log.
- The evaluator's tenth check follows from its ninth
  (`TraceTheorems.LifecycleLeavesNoFailures`).

## Model

| member | source | states |
|---|---|---|
| TraceLifecycle.LifecycleIssues | crates/proof-agent-runtime/src/trace_eval.rs:972-1310 | sound and complete recogniser: no issue exactly when the steps are well linked, every event is the run's, in sequence, in time order and undamaged, and the log is Started, one tool turn per step in order, one finish turn, Completed |
| TraceLifecycle.TurnsIssues | crates/proof-agent-runtime/src/trace_eval.rs:1083-1308 | the scan with its cursors reports nothing exactly when turn k sits at its offset with model call k+1 chained to the response of turn k-1, for every step and the finish turn; it ends, and never consumes the final event |
| TraceLifecycle.TurnIssues | crates/proof-agent-runtime/src/trace_eval.rs:1089-1297 | one turn is accepted exactly when it is an exchange followed by a finish or by the tool part of the current step; where the scan goes on |
| TraceLifecycle.ToolPartIssues | crates/proof-agent-runtime/src/trace_eval.rs:1156-1268 | the tool part is accepted exactly when tool request, optional approval pair and success occupy the step's turn |
| TraceLifecycle.ApprovalPartIssues | crates/proof-agent-runtime/src/trace_eval.rs:1196-1244 | the approval pair is accepted exactly when both events are in place and valid |
| TraceLifecycle.ExchangeIssues | crates/proof-agent-runtime/src/trace_eval.rs:1090-1152 | a request and response pair is accepted exactly when model, number and previous response agree and the response has an id |
| TraceLifecycle.EventIssues | crates/proof-agent-runtime/src/trace_eval.rs:981-1014 | no issue exactly when all events are ordered, owned, contiguous and digest-correct |
| TraceLifecycle.KindsAreDetermined | crates/proof-agent-runtime/src/trace_eval.rs:1083-1308 | the sequence of event kinds of an accepted log is determined by which steps carry an approval |
| TraceLifecycle.InnerEventsAreTurns | crates/proof-agent-runtime/src/trace_eval.rs:1058-1079 | between the first and the last event of an accepted log only turn events occur |
| TraceLifecycle.EndsAreUnique | crates/proof-agent-runtime/src/trace_eval.rs:1058-1075 | an accepted log passes both counting checks, which therefore add nothing to the language |
| TraceTopology.StepTopologyIssues | crates/proof-agent-runtime/src/trace_eval.rs:1312-1459 | no issue exactly when ids are distinct, each step opens the next ordinal or retries the step just before it, and all times are consistent, with saturating counters |
| TraceTopology.PlaceStep | crates/proof-agent-runtime/src/trace_eval.rs:1339-1412 | from cursors that agree with the previous step, the step is accepted exactly when it is well placed, and the cursors then agree with it |
| TraceTopology.RunTimeIssues | crates/proof-agent-runtime/src/trace_eval.rs:1314-1328 | no issue exactly when a run is completed iff terminal, at its last update, not before its creation |
| TraceTopology.AttemptsDoNotOverlap | crates/proof-agent-runtime/src/trace_eval.rs:1366-1440 | in an accepted list, of two attempts under one ordinal the earlier has ended before the later is created, however many lie between |
| TraceTopology.SucceededStepsAreInOrder | crates/proof-agent-runtime/src/trace_eval.rs:1330-1415 | if all steps succeeded, an accepted list has ordinals 0, 1, 2, ..., first attempts and no retry parent, saturation included |
| TraceTopology.TopologyMakesIdsDistinct | crates/proof-agent-runtime/src/trace_eval.rs:1336-1342 | an accepted list has pairwise distinct step ids |
| TraceMatching.MatchExpectedCalls | crates/proof-agent-runtime/src/trace_eval.rs:619-643 | the advancing cursor computes the greedy matching; positions increase; all calls match exactly when they are an order-preserving subsequence of the steps |
| TraceMatching.GreedyIsOptimal | crates/proof-agent-runtime/src/trace_eval.rs:624-642 | greedy matching succeeds exactly when any order-preserving placement exists |
| TraceMatching.GreedyStaysAhead | crates/proof-agent-runtime/src/trace_eval.rs:624-642 | the greedy position of each call is no later than in any other placement |
| TraceMatching.GreedyIncreases | crates/proof-agent-runtime/src/trace_eval.rs:624-642 | matched positions strictly increase and lie within the steps |
| TraceMatching.ExactMatchIsPointwise | crates/proof-agent-runtime/src/trace_eval.rs:242-247 | with additional calls disallowed the check passes exactly when both lists agree place by place |
| TraceApprovals.RequiredApprovalResults | crates/proof-agent-runtime/src/trace_eval.rs:736-796 | all results pass exactly when every examined step carries a fresh request with one good piece of evidence and no evidence is unused |
| TraceApprovals.CheckApproval | crates/proof-agent-runtime/src/trace_eval.rs:799-862 | one result passes exactly when the step carries an unclaimed request backed by exactly one good piece of evidence; the request is claimed either way |
| TraceApprovals.PassingIffOneToOne | crates/proof-agent-runtime/src/trace_eval.rs:736-862 | with distinct step ids the check passes exactly when approvals and approval-carrying steps correspond one to one and onto, and every call that needs an approval matched such a step |
| TraceApprovals.PassingIsOneToOne | crates/proof-agent-runtime/src/trace_eval.rs:736-862 | the forward half, without assuming anything of the matching |
| TraceApprovals.OneToOnePasses | crates/proof-agent-runtime/src/trace_eval.rs:736-862 | the converse half |
| TraceModel.ApprovalEvidenceIssues | crates/proof-agent-runtime/src/trace_eval.rs:864-970 | no issue exactly when a trusted human approved this very request in time and the approved execution is the step's own |
| TraceModel.ApprovalIsSeparateAndTimely | crates/proof-agent-runtime/src/trace_eval.rs:864-970 | evidence without issues: a trusted human other than the agent approved; start, request, decision, execution, completion are in that order, execution before expiry; and the step is then proven as soon as it succeeded in this run |
| TraceModel.InvalidStepDetails | crates/proof-agent-runtime/src/trace_eval.rs:685-733 | no issue exactly when the step succeeded with a signed proof of its own call and output, made inside its window |
| TraceModel.ApprovalByRequest | crates/proof-agent-runtime/src/trace_eval.rs:1623-1632 | finds evidence exactly when there is exactly one for the request, and then that one |
| TraceModel.ValidateToolRequested | crates/proof-agent-runtime/src/trace_eval.rs:1461-1502 | no issue exactly when the event names the step and repeats the model's call with canonically equal arguments |
| TraceModel.ValidateApprovalRequired | crates/proof-agent-runtime/src/trace_eval.rs:1504-1541 | no issue exactly when the event names step and request and lies between the request and its expiry, after the tool request |
| TraceModel.ValidateApprovalResumed | crates/proof-agent-runtime/src/trace_eval.rs:1543-1588 | no issue exactly when the event repeats the decision and lies between it and the execution |
| TraceEval.Checks | crates/proof-agent-runtime/src/trace_eval.rs:249-398 | each of the ten answers, in order, is that of its own predicate on the trace; all hold exactly for task-correct traces |
| TraceEval.Evaluate | crates/proof-agent-runtime/src/trace_eval.rs:221-475 | a verdict is given exactly for ended runs, a named evaluator, and trace and metrics JSON whose floats all have exact texts; it is Passed exactly for task-correct traces, and scores 1000 for each of the ten predicates that holds |
| TraceEval.CountPassed | crates/proof-agent-runtime/src/trace_eval.rs:397-398 | the loop counts the checks that hold |
| TraceEval.BindsExactlyWhen | crates/proof-agent-runtime/src/trace_eval.rs:478-486 | a value can be bound by digest exactly when all its floats have exact texts |
| TraceEval.ExpectedPass | crates/proof-agent-runtime/src/trace_eval.rs:236-247 | the expected-calls check, in terms of subsequences and pointwise agreement |
| TraceEval.ApprovalsPass | crates/proof-agent-runtime/src/trace_eval.rs:269-280 | the required-approvals check holds exactly when every entry is backed by evidence of its own and none is left over; for distinct step ids, exactly for the one-to-one correspondence |
| TraceEval.InvalidSteps | crates/proof-agent-runtime/src/trace_eval.rs:250-253 | the scan for steps without a valid proof finds none exactly when every step is proven |
| TraceEval.UnallowlistedCalls | crates/proof-agent-runtime/src/trace_eval.rs:254-268 | the scan for calls outside the agent's tools finds none exactly when every call is one of them |
| TraceEval.FailureEvents | crates/proof-agent-runtime/src/trace_eval.rs:306-323 | the scan for failure events finds none exactly when there is none |
| TraceEval.CollectRequired | crates/proof-agent-runtime/src/trace_eval.rs:290-297 | the loop collects exactly the steps matched by calls that need an approved execution |
| TraceEval.FinalOutputResults | crates/proof-agent-runtime/src/trace_eval.rs:281-289 | all results hold exactly when every reference is reported in the final output |
| TraceEval.ReportedExactlyWhen | crates/proof-agent-runtime/src/trace_eval.rs:521-593 | a reference is found exactly when the text it selects occurs in what the run said at its end |
| TraceEval.SortStepsSorts | crates/proof-agent-runtime/src/trace_eval.rs:233-234 | steps are evaluated in order of ordinal, attempt and id |
| TraceEval.StepsInOrder | crates/proof-agent-runtime/src/trace_eval.rs:233-234 | ordinals never fall, nor attempts within an ordinal, nor ids within an attempt |
| TraceEval.SortSteps | crates/proof-agent-runtime/src/trace_eval.rs:233-234 | sorting permutes the steps |
| TraceTheorems.ApprovedStepsAreInTimeOrder | crates/proof-agent-runtime/src/trace_eval.rs:864-1621 | in a passed evaluation every approved step satisfies: run created, tool requested, approval requested, required event, decided, resumed event, executed, step completed, succeeded event, completed event, in that order, executed before expiry |
| TraceTheorems.PassedStepsAreInOrder | crates/proof-agent-runtime/src/trace_eval.rs:685-1459 | in a passed evaluation the sorted steps have ordinals 0..n-1, attempt 1 and no retry parent |
| TraceTheorems.LifecycleLeavesNoFailures | crates/proof-agent-runtime/src/trace_eval.rs:306-323 | an accepted log holds no failure event |
| TraceTheorems.ApprovalsCountSteps | crates/proof-agent-runtime/src/trace_eval.rs:736-862 | there are exactly as many approvals as approval-carrying steps |
| TraceTheorems.EvidenceIsDistinct | crates/proof-agent-runtime/src/trace_eval.rs:788-796 | in an accepted accounting no two pieces of evidence share a request |
| TraceTheorems.PassedTraceSize | crates/proof-agent-runtime/src/trace_eval.rs:972-1310 | a passed log has exactly four events, four more per step and two more per approval |
| TraceExample.ShortestTracePasses | crates/proof-agent-runtime/src/trace_eval.rs:221-475 | passing is not empty, shortest case: every succeeded run of the agent with an output has a step-free trace that meets all ten checks under a policy expecting no calls (TraceApprovedExample.ApprovedTracePasses has a call, its approval and a policy demanding both) |
| TraceApprovedExample.ApprovedTracePasses | crates/proof-agent-runtime/src/trace_eval.rs:221-475 | for every call, pair of parties and texts whose signatures verify, the trace with that one approved step meets all ten checks under the policy that demands exactly it |
| AgentLifecycle.RunRecordsPassTimeChecks | crates/proof-kernel/src/agent_run.rs:356-442 | after any operations at nondecreasing times a run record passes the evaluator's checks on run times |
| AgentLifecycle.RunTimesPersist | crates/proof-kernel/src/agent_run.rs:382-442 | every run operation keeps completion, status and times consistent |
| AgentLifecycle.RunActsExactlyWhen | crates/proof-kernel/src/agent_run.rs:382-442 | for each operation, from which statuses it succeeds, to which status it leads, and what it counts |
| AgentLifecycle.RunRecordsItsCalls | crates/proof-kernel/src/agent_run.rs:382-442 | over any calls a run is where its last successful call led, its revision counts those calls, its identity stays, and Succeeded and Cancelled are final |
| AgentLifecycle.StepActsExactlyWhen | crates/proof-kernel/src/agent_run.rs:485-621 | for each operation on a step, exactly when it succeeds and the whole record it leaves |
| AgentLifecycle.StepsBeginExactlyWhen | crates/proof-kernel/src/agent_run.rs:446-483 | a step is made exactly for a named operation and version and an input with a canonical text, as a pending first attempt bound to it; each error is for its reason |
| AgentLifecycle.RetriesExactlyWhen | crates/proof-kernel/src/agent_run.rs:546-579 | a step is retried exactly when it failed or was cancelled and the attempt can be counted, and the retry repeats the call |
| AgentLifecycle.StepLifeKeeps | crates/proof-kernel/src/agent_run.rs:485-621 | over any operations a step's identity never changes, an approval once bound stays bound, a start once set stays set, and a terminal step is final |
| AgentLifecycle.OneCallKeeps | crates/proof-kernel/src/agent_run.rs:485-621 | each step operation keeps the invariant of times, outcome fields and proof binding |
| AgentLifecycle.LivesPassTimeChecksExactlyWhen | crates/proof-kernel/src/agent_run.rs:446-621 | a step whose calls fall within its run passes the evaluator's time checks exactly when, among the calls that succeed, none that ends it comes before one that starts it |
| AgentLifecycle.CancelBeforeStart | crates/proof-kernel/src/agent_run.rs:542-544 | a pending step that is cancelled is refused by the evaluator |
| AgentLifecycle.RunsArePlaced | crates/proof-kernel/src/agent_run.rs:446-621 | of any number of ordinals, each a first attempt and its retries, lived through any operations, every step is placed as the evaluator's scan demands |
| AgentLifecycle.RunsPassScanExactlyWhen | crates/proof-kernel/src/agent_run.rs:446-621 | the steps of such a run pass the whole topology scan exactly when none of them ended before it had started |
| AgentLifecycle.StartedFirstStaysStarted | crates/proof-kernel/src/agent_run.rs:485-489 | a fresh step started first has that start time for good |
| AgentLifecycle.ResumeSkipsStart | crates/proof-kernel/src/agent_run.rs:507-509 | a pending step resumed and failed has no start time and is refused by the evaluator |
| AgentLifecycle.RetriesAreRecognised | crates/proof-kernel/src/agent_run.rs:546-579 | a retry made no earlier than its parent ended is what the evaluator's scan accepts as one |
| AgentLifecycle.SucceededStepsAreBound | crates/proof-kernel/src/agent_run.rs:511-530 | a succeeded step carries a proof bound to its operation, input and output |
| AgentLifecycleService.RunRecord.Transition | crates/proof-kernel/src/agent_run.rs:412-442 | moves the record as the transition table says, or leaves it untouched |
| AgentLifecycleService.RunRecord.Perform | crates/proof-kernel/src/agent_run.rs:382-410 | each operation has its specified outcome, a failed one leaves the record untouched, and at nondecreasing times the record's times stay consistent |
| AgentLifecycleService.StepRecord.Transition | crates/proof-kernel/src/agent_run.rs:581-621 | moves the record as the transition table says, or leaves it untouched |
| AgentLifecycleService.StepRecord.Start | crates/proof-kernel/src/agent_run.rs:485-489 | starts the step, keeping an earlier start time; the step invariant, identity and bindings are kept |
| AgentLifecycleService.StepRecord.WaitForApproval | crates/proof-kernel/src/agent_run.rs:491-505 | binds the approval, or refuses a different one and leaves the record untouched; the step invariant, identity and an earlier binding are kept |
| AgentLifecycleService.StepRecord.ResumeFromApproval | crates/proof-kernel/src/agent_run.rs:507-509 | returns the step to running; the step invariant, identity and bindings are kept |
| AgentLifecycleService.StepRecord.Succeed | crates/proof-kernel/src/agent_run.rs:511-530 | records output and proof only if the proof fits; the step invariant, identity and bindings are kept |
| AgentLifecycleService.StepRecord.Fail | crates/proof-kernel/src/agent_run.rs:532-540 | records the error; the step invariant, identity and bindings are kept |
| AgentLifecycleService.StepRecord.Cancel | crates/proof-kernel/src/agent_run.rs:542-544 | cancels the step; the step invariant, identity and bindings are kept |
| CanonicalEquality.SameTextIffAgree | crates/proof-kernel/src/canonical.rs:154-278 | two values render alike exactly when they agree up to member order and the reading of bare-digit floats |
| CanonicalEquality.PlainValuesInjective | crates/proof-kernel/src/canonical.rs:187-222 | without bare-digit floats rendering is injective up to member order |
| CanonicalEquality.BareDigitFloatsCollide | crates/proof-kernel/src/canonical.rs:224-278 | every value with a bare-digit float shares its text with a different value that has none |
| CanonicalEquality.NormalAgreement | crates/proof-kernel/src/canonical.rs:207-220 | sorted normal forms are equal exactly when values agree, so insertion order does not matter |
| CanonicalTheorems.RendersNormalForm | crates/proof-kernel/src/canonical.rs:187-222 | rendering succeeds exactly when all floats read back, and then prints the normal form |
| CanonicalEquality.CanonicalTextReads | crates/proof-kernel/src/canonical.rs:187-278 | the rendered text, read by an independent reader of RFC 8259, denotes the value itself with the members of every object in code-point order; there is none exactly for values with a float without exact text |
| CanonicalTheorems.ReadsPrint | crates/proof-kernel/src/canonical.rs:187-222 | a printed value at the head of any text is read back, and the rest is left |
| CanonicalTheorems.PrintReadable | crates/proof-kernel/src/canonical.rs:187-222 | two printed values at the head of the same text are the same value |
| CanonicalEquality.SortedTextIffAgree | crates/proof-kernel/src/canonical.rs:187-222 | sorted and printed, with numbers in either style, values share a text exactly when they agree |
| CanonicalNumbers.CanonicalNumberText | crates/proof-kernel/src/canonical.rs:224-278 | number rendering yields the shortened scientific text or reports an inexact number |
| CanonicalNumbers.ReadsMeaning | crates/proof-kernel/src/canonical.rs:224-278 | a number text, read by decimal position, denotes what the number means: a bare-digit float an integer, any other number itself |
| CanonicalNumbers.NumberTextMeaning | crates/proof-kernel/src/canonical.rs:224-278 | number texts coincide exactly for equal meanings |
| Text.ReadsQuote | crates/proof-kernel/src/canonical.rs:197-199 | a quoted string, read with the escapes of section 7 of RFC 8259, is the string, whatever follows it |
| Text.QuotesAreShortest | crates/proof-kernel/src/canonical.rs:197-199 | no text that reads as the string is shorter |
| Text.EscapesAreShortest | crates/proof-kernel/src/canonical.rs:197-199 | nor for any character; and one as short differs only by capital hexadecimal digits |
| Text.LessIsLexicographic | crates/proof-kernel/src/canonical.rs:207-209 | keys are ordered by code points: a proper prefix first, else by the first difference |
| Digests.DigestInjective | crates/proof-kernel/src/canonical.rs:165-173 | the preimage determines artifact kind and text |
| Digests.ValueDigestInjective | crates/proof-kernel/src/canonical.rs:154-222 | digests agree exactly when kinds are equal and values agree |
| AuthorityTheorems.SessionsComeFromAttestedChallenges | crates/proof-operator-auth/src/authority.rs:91-422 | over every run each session stems from one challenge, issued, then signed by the human key, then exchanged by the holder of the client nonce, each within two minutes of its issue; and no two sessions share a challenge or an id |
| AuthorityTheorems.CallbacksNeedTheToken | crates/proof-operator-auth/src/authority.rs:497-656 | over every run each callback and each revocation presented exactly one header, the hexadecimal text of a secret with the digest of the token drawn for its session, within fifteen minutes of opening and five of the last use, for capabilities requested, enrolled, allowed and supported |
| AuthorityTheorems.EndedSessionsStayClosed | crates/proof-operator-auth/src/authority.rs:450-613 | over every run a session that was revoked, expired, replaced, shut down or lost is never entered again |
| AuthorityTheorems.EntersExactlyWhen | crates/proof-operator-auth/src/authority.rs:424-596 | in every reachable state a callback runs exactly when the session is alive, its token is presented and it holds what is required; refused for capabilities exactly when only those are missing |
| AuthorityTheorems.RevokesExactlyWhen | crates/proof-operator-auth/src/authority.rs:450-472 | a revocation is carried out exactly on the same terms, and leaves no session |
| AuthorityTheorems.AttestsExactlyWhen | crates/proof-operator-auth/src/authority.rs:200-252 | an attestation is taken exactly when it signs the pending challenge, unsigned so far, in time; any other uses the challenge up |
| AuthorityTheorems.OpensExactlyWhen | crates/proof-operator-auth/src/authority.rs:267-422 | given working clocks and entropy, an exchange opens the session of the policy and the challenge exactly when the challenge is pending, signed and in time, the nonce is right, and the audit store acknowledges |
| AuthorityTheorems.IssuesExactlyWhen | crates/proof-operator-auth/src/authority.rs:91-198 | given the same, which reply a request for a challenge gets: invalid, another pending, the challenge of policy and request, or unavailable |
| AuthorityTheorems.ExpiresExactlyWhen | crates/proof-operator-auth/src/authority.rs:536-560 | an overdue session is taken down by the next call, and everything is forgotten unless that is audited |
| AuthorityTheorems.ShutsDownExactlyWhen | crates/proof-operator-auth/src/authority.rs:474-495 | a shutdown forgets everything, and succeeds exactly when it is noted |
| AuthorityRecord.HexRoundTrip | crates/proof-operator-auth/src/authority.rs:706-726 | decoding undoes the 64-digit text of every 32-byte secret |
| AuthorityRecord.OnlyHexDecodes | crates/proof-operator-auth/src/authority.rs:706-726 | and no other text is accepted |
| AuthorityTheorems.EverythingIsAudited | crates/proof-operator-auth/src/authority.rs:165-613 | over every run the audit log holds the exact record of every challenge, session, expiry and shutdown, and the session in memory is the last one it issued or replaced |
| AuthorityTheorems.UnavailableLeavesNothing | crates/proof-operator-auth/src/authority.rs:728-731 | a ControlUnavailable answer leaves neither challenge nor session |
| AuthorityTheorems.RefusalKeepsSession | crates/proof-operator-auth/src/authority.rs:91-422 | any other refusal while setting up a session keeps the active one and the log, and at most uses up the challenge |
| AuthorityTheorems.ExchangeConsumesChallenge | crates/proof-operator-auth/src/authority.rs:267-422 | after any exchange no challenge is pending |
| AuthorityTheorems.StepPreserves | crates/proof-operator-auth/src/authority.rs:91-613 | each call keeps the record good, the state a function of the record, and the audit log complete |
| AuthorityTheorems.RunPreserves | crates/proof-operator-auth/src/authority.rs:91-613 | every run keeps it |
| AuthorityTheorems.FilterWithin | crates/proof-operator-auth/src/authority.rs:641-656 | granted capabilities are exactly the fourfold intersection |
| AuthorityTheorems.CanonicalExactlyWhen | crates/proof-operator-auth/src/authority.rs:424-437 | a capability list is canonical exactly when it is not empty and ascends, so that of all six is |
| AuthorityService.OperatorAuthAuthority.ValidObjectsAreSafe | crates/proof-operator-auth/src/authority.rs:91-613 | of every valid object: each session it opened was attested, each callback it ran was bounded, and the session it holds is the last one logged |
| AuthorityService.OperatorAuthAuthority.DecodeHex32 | crates/proof-operator-auth/src/authority.rs:706-726 | the loop computes the decoded bytes and whether the text was one |
| AuthorityService.OperatorAuthAuthority.IssueChallenge | crates/proof-operator-auth/src/authority.rs:91-198 | the issue step; a valid object stays valid, ControlUnavailable leaves it empty, any other refusal leaves session and log untouched |
| AuthorityService.OperatorAuthAuthority.SubmitAttestation | crates/proof-operator-auth/src/authority.rs:200-252 | the attest step; a valid object stays valid, ControlUnavailable leaves it empty, any other refusal leaves session and log untouched |
| AuthorityService.OperatorAuthAuthority.ConsumeFailedChallenge | crates/proof-operator-auth/src/authority.rs:254-265 | the consume step; a valid object stays valid, a refusal leaves session and log untouched |
| AuthorityService.OperatorAuthAuthority.ExchangeChallenge | crates/proof-operator-auth/src/authority.rs:267-422 | the exchange step; no challenge is pending afterwards; a valid object stays valid, ControlUnavailable leaves it empty, any other refusal leaves session and log untouched |
| AuthorityService.OperatorAuthAuthority.AuthorizeWith | crates/proof-operator-auth/src/authority.rs:424-596 | the object after the call, and its reply, are those of the step; on a valid object the callback runs exactly for a caller who may enter |
| AuthorityService.OperatorAuthAuthority.RevokeWith | crates/proof-operator-auth/src/authority.rs:450-472 | the object after the call, and its reply, are those of the step; on a valid object it is carried out exactly for a caller who may enter, and no session is left |
| AuthorityService.OperatorAuthAuthority.InvalidateForShutdown | crates/proof-operator-auth/src/authority.rs:474-495 | the shutdown step; a valid object stays valid, ControlUnavailable leaves it empty |
| RunStoreTheorems.AppendRefinesLog | crates/proof-kernel/src/agent_run.rs:916-1016 | the flat-map append answers and writes exactly as an append to the run's log with compare-and-set |
| RunStoreTheorems.AppendsExactlyWhen | crates/proof-kernel/src/agent_run.rs:916-1016 | an append succeeds exactly for an intact checkpoint numbered after the expected tail, when that tail ends the log and the id is free, or the checkpoint ends the log already right after that tail |
| RunStoreTheorems.AppendErrorsAreJust | crates/proof-kernel/src/agent_run.rs:916-1016 | an append fails only for what is wrong with it |
| RunStoreTheorems.LogsHoldThroughoutExactlyWhen | crates/proof-kernel/src/agent_run.rs:739-1039 | from the empty store the map is one log per run, numbered from 0 with valid digests, after every call of a run exactly when each direct save that writes continues a log |
| RunStoreTheorems.DirectSaveKeepsLogsExactlyWhen | crates/proof-kernel/src/agent_run.rs:1018-1039 | a direct save that writes keeps the logs exactly when the checkpoint is intact and numbered at the end of its run's log |
| RunStoreTheorems.DirectSaveBreaksLog | crates/proof-kernel/src/agent_run.rs:1018-1039 | in an empty store a checkpoint saved directly with any number but zero breaks the log |
| RunStoreTheorems.LogsOnlyGrow | crates/proof-kernel/src/agent_run.rs:739-1039 | from the empty store, over guarded calls, each run's log at any later time extends its log now |
| RunStoreTheorems.AppendedIsLogged | crates/proof-kernel/src/agent_run.rs:916-1016 | an appended checkpoint sits in the log right after the expected tail |
| RunStoreTheorems.OneWinnerPerTail | crates/proof-kernel/src/agent_run.rs:916-1016 | in any guarded run from the empty store, of appends against one tail, at whatever times, at most one checkpoint wins |
| RunStoreTheorems.OnlyAppendedWrites | crates/proof-kernel/src/agent_run.rs:916-1016 | a stale append writes nothing |
| RunStoreTheorems.ClaimsStayDistinct | crates/proof-kernel/src/agent_run.rs:739-827 | over every run no two claims share a readiness or a setup digest |
| RunStoreTheorems.ScanOrderIrrelevant | crates/proof-kernel/src/agent_run.rs:739-827 | the result of a claim does not depend on hash-map iteration order |
| RunStoreTheorems.BundleExactlyWhen | crates/proof-kernel/src/agent_run.rs:243-333 | a bundle is valid exactly when it is a freshly started session with its first checkpoint and first event, in order of time, with the right digests, the one describing the run and the other repeating it, under a claim of two real digests |
| RunStoreTheorems.AcquiresExactlyWhen | crates/proof-kernel/src/agent_run.rs:739-827 | a claim is acquired exactly when no stored claim shares a digest and no stored record stands in its way, and then adds the four records; any other answer changes nothing |
| RunStoreTheorems.RepeatedClaimAnswersExactly | crates/proof-kernel/src/agent_run.rs:739-827 | from the empty store, through any calls before and after the claim was acquired, repeating it with any valid bundle is answered Existing with the first run exactly when the stored run still descends from the claimed one, and is refused as drifted otherwise |
| RunStoreTheorems.ClaimIsExactlyOnce | crates/proof-kernel/src/agent_run.rs:243-1172 | where stored runs change only by their own transitions at times that do not go back, it is always answered Existing with the first run |
| RunStoreRecords.StepsAreVersioned | crates/proof-kernel/src/agent_run.rs:849-877 | over every run of the store a step is never lost, its revision never goes back, each revision stands for one value for good, and none from 0 on is skipped |
| RunStoreRecords.RunsAreVersioned | crates/proof-kernel/src/agent_run.rs:739-831 | the same for runs; a claimed one begins at 1 |
| RunStoreRecords.EventsAreWrittenOnce | crates/proof-kernel/src/agent_run.rs:916-1128 | over every run of the store events and checkpoints never change |
| RunStoreRecords.PlacesStayDistinct | crates/proof-kernel/src/agent_run.rs:1112-1128 | over every run of the store no two events share a place in a run |
| RunStoreRecords.StepSavesExactlyWhen | crates/proof-kernel/src/agent_run.rs:849-877 | a step is saved exactly when it is the stored one or its next revision, keeps its approval, and takes no other step's |
| RunStoreRecords.SavesExactlyWhen | crates/proof-kernel/src/agent_run.rs:1186-1211 | a versioned record is saved exactly when it is the stored one, its next revision, or a first one at 0 |
| RunStoreRecords.EventSavesExactlyWhen | crates/proof-kernel/src/agent_run.rs:1112-1128 | an event is saved exactly when it is stored already or neither its id nor its place is taken |
| RunStoreRecords.CheckpointSavesExactlyWhen | crates/proof-kernel/src/agent_run.rs:1018-1039 | a checkpoint is saved directly exactly when it is stored already or neither its id nor its number is taken |
| RunStoreRecords.SavedStepIsItsVersion | crates/proof-kernel/src/agent_run.rs:849-877 | no lost updates: in every run from the empty store each save of a step that succeeds is, for good, the version its revision names |
| RunStoreRecords.SavedRunIsItsVersion | crates/proof-kernel/src/agent_run.rs:829-831 | the same for runs |
| RunStoreRecords.OneWinnerPerRevision | crates/proof-kernel/src/agent_run.rs:849-877 | of the saves of a step under one revision, at whatever times, all that succeed saved the same value |
| RunStoreRecords.OneRunWinnerPerRevision | crates/proof-kernel/src/agent_run.rs:829-831 | the same for runs |
| RunStoreRecords.BindingsStayDistinct | crates/proof-kernel/src/agent_run.rs:849-914 | over every run no two steps share an approval |
| RunStoreRecords.BindingIsPermanent | crates/proof-kernel/src/agent_run.rs:849-877 | over every run a bound approval never changes |
| RunStoreRecords.ApprovalsBindForGood | crates/proof-kernel/src/agent_run.rs:849-914 | both, over every run of the whole store |
| RunStoreService.RecordingAgentRunStore.SaveAgentRun | crates/proof-kernel/src/agent_run.rs:829-831 | the store after the call, and its error, are those of the versioned save |
| RunStoreService.RecordingAgentRunStore.SaveAgentRunStep | crates/proof-kernel/src/agent_run.rs:849-877 | the store after the call, and its error, are those of the step save |
| RunStoreService.RecordingAgentRunStore.FindStepByApproval | crates/proof-kernel/src/agent_run.rs:896-914 | never ambiguous, and finds the bound step whenever there is one |
| RunStoreService.RecordingAgentRunStore.AppendAgentCheckpoint | crates/proof-kernel/src/agent_run.rs:916-1016 | the store after the call, and its answer, are those of the append |
| RunStoreService.RecordingAgentRunStore.SaveAgentCheckpoint | crates/proof-kernel/src/agent_run.rs:1018-1039 | the store after the call, and its error, are those of the write-once save |
| RunStoreService.RecordingAgentRunStore.SaveAgentRunEvent | crates/proof-kernel/src/agent_run.rs:1112-1128 | the store after the call, and its error, are those of the write-once save |
| RunStoreService.RecordingAgentRunStore.AnswerStored | crates/proof-kernel/src/agent_run.rs:757-788 | the answer for a stored record is that of the claim |
| RunStoreService.RecordingAgentRunStore.AcquireClaim | crates/proof-kernel/src/agent_run.rs:790-826 | without a stored record, the store after the call and its answer are those of the claim, and a refusal changes nothing |
| RunStoreService.RecordingAgentRunStore.ClaimLiveRunStart | crates/proof-kernel/src/agent_run.rs:739-827 | the store after the call, and its answer, are those of the claim, for whichever matching record the scan meets |
| ChangeSets.ApplySucceeds | crates/proof-content/src/changeset.rs:115-300 | whenever validation stages the edits, application cannot fail and reaches the staged state up to timestamps and the status of created objects |
| ChangeSets.StagingPredictsApplication | crates/proof-content/src/changeset.rs:136-300 | the same from any point of the two loops |
| ChangeSetTheorems.ValidatesExactlyWhen | crates/proof-content/src/changeset.rs:115-215 | validation passes exactly against the state the ChangeSet was drawn up for, contents compared up to member order, when it has edits and each fits: a new id and a draft, or a surviving base object at its current revision, and conforming content |
| ChangeSetTheorems.StagesExactlyWhen | crates/proof-content/src/changeset.rs:136-215 | from any point of the loop, staging succeeds exactly when all remaining edits fit, and otherwise reports a fault of the first that does not |
| ChangeSetTheorems.CommitIsExactly | crates/proof-content/src/changeset.rs:229-300 | what validated is applied, and the objects afterwards are exactly those that base and edits determine, field by field |
| ChangeSetTheorems.CommittedContents | crates/proof-content/src/changeset.rs:256-300 | an object never deleted holds the content of its last update and is otherwise the base object but for revision and time; a deleted one is gone unless created again; one no edit names is untouched |
| ChangeSetTheorems.CommitPreservesTyping | crates/proof-content/src/changeset.rs:229-300 | commit keeps every object within its schema |
| ChangeSetTheorems.CommitCountsRevisions | crates/proof-content/src/changeset.rs:256-300 | a base object never deleted survives with its revision raised by the number of its updates modulo 2^32, so it counts them exactly when the sum fits in 32 bits |
| ChangeSetTheorems.LifeOfAChangeSet | crates/proof-content/src/changeset.rs:94-113 | a sequence of statuses from Draft is one of allowed moves exactly when it begins Draft, Submitted, Approved, Committed or Draft, Submitted, Rejected, and stops |
| StateText.DigestPinsState | crates/proof-content/src/digest.rs:4-35 | states share the text that is hashed exactly when they hold the same objects, contents compared up to member order |
| StateText.SameObjectsIffSameState | crates/proof-content/src/changeset.rs:303-306 | listing the objects in key order loses nothing |
| ChangeSets.ApplicationKeepsKeys | crates/proof-content/src/changeset.rs:256-300 | application keeps objects filed under their own ids |
| ChangeSetService.ChangeSet.TransitionTo | crates/proof-content/src/changeset.rs:94-113 | moves exactly along the status table |
| ChangeSetService.ChangeSet.Validate | crates/proof-content/src/changeset.rs:115-215 | refuses a foreign base, then exactly what staging refuses |
| ChangeSetService.ChangeSet.ValidateEdits | crates/proof-content/src/changeset.rs:136-215 | the loop over the edits computes the staging |
| ChangeSetService.ChangeSet.Apply | crates/proof-content/src/changeset.rs:256-300 | the loop over the edits computes the application |
| ChangeSetService.ChangeSet.Commit | crates/proof-content/src/changeset.rs:217-254 | all or nothing: succeeds exactly when approved and valid, and then the store holds exactly the objects that base and edits determine; otherwise status and store are untouched |
| Content.ValidationIsConformance | crates/proof-content/src/schema.rs:110-153 | validation accepts exactly the conforming values |
| Content.RefusalsAreJust | crates/proof-content/src/schema.rs:57-153 | a refusal names a fault that the schema or the value has |
| Content.AcceptedBy | crates/proof-content/src/schema.rs:110-153 | for each kind of value, in which types of field it may stand |
| Content.MovesExactlyWhen | crates/proof-content/src/object.rs:20-91 | an object moves exactly to the stage after its own, Published back to Draft |
| Content.ObjectsGoRound | crates/proof-content/src/object.rs:20-91 | over any transitions an object goes one stage on for each that is made, drafts come round with the next revision, and nothing else but the time of change is touched |
| Content.DefinitionsSound | crates/proof-content/src/schema.rs:57-104 | a schema's fields are accepted exactly when each is sound |
| Delegation.CoverageIsInclusion | crates/proof-kernel/src/delegation.rs:106-221 | a pattern's language is included in another's exactly when it is covered and not of the extra-star shape |
| Delegation.ExtraStarWidens | crates/proof-kernel/src/delegation.rs:215-221 | every pattern ending in a star is covered by itself with one more star, which rejects its stem |
| Delegation.AdmissionIsSoundCoverage | crates/proof-kernel/src/delegation.rs:145-221 | for parent lists no longer than the alphabet, a list of patterns admits no value another does not exactly when each of its patterns is soundly covered |
| Delegation.WholeAlphabetAdmitsAll | crates/proof-kernel/src/delegation.rs:145-221 | the bound is tight: a list of one pattern more admits everything without covering "*" |
| Delegation.AuthorityFlowsExactlyWhen | crates/proof-kernel/src/delegation.rs:85-213 | along an accepted chain whatever the last grant permits every grant permits, exactly when the last grant is empty or every grant soundly covers it |
| Delegation.AcceptedChainsWithoutDoubleStarsFlow | crates/proof-kernel/src/delegation.rs:85-213 | so it is for every accepted chain without patterns ending in two stars |
| Delegation.ExtraStarChain | crates/proof-kernel/src/delegation.rs:131-221 | for every stem an accepted chain whose last grant permits an action that the grant above it does not |
| Delegation.AcceptedChains | crates/proof-kernel/src/delegation.rs:131-213 | a chain is accepted exactly when it runs unbroken from root to agent and every link is live, unrevoked and covered |
| Delegation.RefusalsAreJust | crates/proof-kernel/src/delegation.rs:131-213 | a refusal says what is wrong: no grants, a foreign root, a foreign agent at the end of a sound chain, or a fault that the first faulty link has |
| Delegation.PermitsExactlyWhen | crates/proof-kernel/src/delegation.rs:85-118 | a grant permits exactly while unrevoked and within its window, ends included, what some pattern of each list stands for |
| Delegation.CheckLinks | crates/proof-kernel/src/delegation.rs:145-205 | no error exactly when no link has one |
| Delegation.ScopesAreNotCompared | crates/proof-kernel/src/delegation.rs:145-205 | replacing all scopes never changes the verdict |
| Delegation.ScopeFlowsExactlyWhen | crates/proof-kernel/src/delegation.rs:25-45 | for chains whose operation lists are no longer than the alphabet, a scope allows no operation and domain that some scope of the chain forbids exactly when it allows nothing or lies within each of them: domains listed above, operations soundly covered |
| Delegation.ScopeChecksAgreeExactlyWhen | crates/proof-kernel/src/executor/engine.rs:257-907 | naming the last grant, the scope test of governed execution and that of the named grant agree on all operations and domains exactly when the scope found lies within every scope of the chain |
| Delegation.ScopeMayWiden | crates/proof-kernel/src/executor/engine.rs:257-907 | for every operation an accepted chain whose last scope allows it although the scope above forbids it, so that the named-grant test passes and the governed one refuses |
| OperatorRuntimeTheorems.ExecutionIsOrderly | crates/proof-agent-runtime/src/operator.rs:334-606 | for every behaviour of store and engine the boundary is entered only right after a validated reservation and a validated authorized begin, at most one commit or settlement follows, and nothing after it |
| OperatorRuntimeTheorems.EntersAndSettlesOnce | crates/proof-agent-runtime/src/operator.rs:334-606 | at most one boundary entry, and at most one of commit and failure settlement |
| OperatorRuntimeTheorems.ReplayNeverEnters | crates/proof-agent-runtime/src/operator.rs:340-488 | a replay enters nothing and hands back the completion of this very call, field by field |
| OperatorRuntimeTheorems.OutcomeIsTheLastCall | crates/proof-agent-runtime/src/operator.rs:521-908 | a commit, or a settled failure, is reported exactly when the last call was one and was accepted |
| OperatorRuntimeTheorems.SettlementFollowsEngine | crates/proof-agent-runtime/src/operator.rs:521-606 | whatever is committed was done by engine and binding, whatever is settled as failed was not |
| OperatorRuntimeTheorems.EntersExactlyWhenCleared | crates/proof-agent-runtime/src/operator.rs:334-521 | the boundary is entered exactly for a coherent call under a live lease with nothing to replay, a reservation of this very call and an authorized dispatch |
| OperatorRuntimeTheorems.ClearedCallsSettle | crates/proof-agent-runtime/src/operator.rs:521-606 | where the settlement is accepted such a call is Committed exactly when engine and binding succeeded, else settled as failed, at the revision the store gave |
| OperatorRuntimeTheorems.OnlyCoherentCallsAct | crates/proof-agent-runtime/src/operator.rs:660-723 | a call whose run, step, operation, input, actor or binding do not fit together or the lease makes no call at all; without authority none but a lookup |
| OperatorRuntimeTheorems.CompletedCallsAreReplayed | crates/proof-agent-runtime/src/operator.rs:340-397 | a call completed before is answered with its completion, at the first lookup or the second |
| OperatorRuntimeTheorems.FailuresAreReported | crates/proof-agent-runtime/src/operator.rs:334-606 | a store error told to the caller is one the store gave, a rejected replay what the store said of it |
| OperatorRuntimeTheorems.LeaseStaysItself | crates/proof-agent-runtime/src/operator.rs:283-749 | over any life the lease keeps its identity and fence, whatever the store sends |
| OperatorRuntimeTheorems.RenewsExactlyWhen | crates/proof-agent-runtime/src/operator.rs:283-749 | a renewal is taken over exactly when it validated and is of this lease |
| OperatorRuntimeTheorems.ReleasesExactlyWhen | crates/proof-agent-runtime/src/operator.rs:610-649 | a reservation is given back exactly when the request could be made and the answer validated |
| OperatorRuntimeTheorems.ReservationBelongsToCall | crates/proof-agent-runtime/src/operator.rs:751-778 | an accepted reservation names this call, this lease and its fence |
| OperatorRuntimeTheorems.RevisionFollowsStore | crates/proof-agent-runtime/src/operator.rs:283-908 | throughout a lease's life its revision is that of the last validated store answer, and every fenced call presents it |
| OperatorRuntimeTheorems.DeadLeaseNeverReserves | crates/proof-agent-runtime/src/operator.rs:119-133 | a lease that lost its authority never regains it and never reserves |
| OperatorRuntimeTheorems.StaleFenceIsFinal | crates/proof-agent-runtime/src/operator.rs:125-133 | after a stale fence, or a renewal that does not match, no later operation on the lease reserves |
| OperatorRuntimeService.OperatorRuntime.Execute | crates/proof-agent-runtime/src/operator.rs:334-606 | the lease and calls after it are those of the execution; they are orderly and fenced, entered exactly for cleared calls, settled as the engine did, and the outcome is the last accepted call |
| OperatorRuntimeService.OperatorRuntime.RenewLease | crates/proof-agent-runtime/src/operator.rs:283-749 | lease, calls made and outcome are those of the renewal, under the same fencing |
| OperatorRuntimeService.OperatorRuntime.ReleasePreDispatch | crates/proof-agent-runtime/src/operator.rs:610-649 | lease, calls made and outcome are those of the release, under the same fencing |
| OperatorRuntimeService.OperatorRuntime.LookupReplay | crates/proof-agent-runtime/src/operator.rs:780-846 | a completion is handed back only if the answer validated and it is that of this very call; nothing is found exactly when a valid answer says so; a store failure is passed on |
| OperatorRuntimeService.OperatorRuntime.ReserveBudget | crates/proof-agent-runtime/src/operator.rs:345-407 | lease, calls made and outcome are those of the reserve stage |
| OperatorRuntimeService.OperatorRuntime.BeginDispatch | crates/proof-agent-runtime/src/operator.rs:409-495 | lease, calls made and outcome are those of the begin stage |
| OperatorRuntimeService.OperatorRuntime.ExecuteBoundary | crates/proof-agent-runtime/src/operator.rs:496-568 | the stage from the permit on; commits only what was done, settles as failed only what was not |
| OperatorRuntimeService.OperatorRuntime.CommitResult | crates/proof-agent-runtime/src/operator.rs:569-605 | lease, calls made and outcome are those of the commit stage |
| OperatorRuntimeService.OperatorRuntime.SettleFailure | crates/proof-agent-runtime/src/operator.rs:848-908 | lease, calls made and outcome are those of the failure settlement |
| OperatorRuntimeService.OperatorLease.LoseAuthorityOn | crates/proof-agent-runtime/src/operator.rs:125-133 | a stale fence, and nothing else, ends the local authority |
| TokenBucket.Limiter.TakeToken | crates/proof-transport-http/src/limits.rs:71-86 | new bucket and answer are those of the take |
| TokenBucket.WindowBound | crates/proof-transport-http/src/limits.rs:71-86 | grants in any window never exceed capacity plus window times refill rate |
| TokenBucket.HistoryKeepsRate | crates/proof-transport-http/src/limits.rs:61-86 | the bucket keeps its capacity and the rate of capacity / 60 per second through any history |
| TokenBucket.TokensBounded | crates/proof-transport-http/src/limits.rs:71-86 | tokens stay between zero and capacity |
| TokenBucket.GrantsPaidFor | crates/proof-transport-http/src/limits.rs:71-86 | grants never exceed the tokens at the first take plus what is earned after it |
| TokenBucket.TokensConserved | crates/proof-transport-http/src/limits.rs:71-86 | conservation: grants, tokens left and tokens spilled over the capacity add up to tokens held and earned |
| TokenBucket.HeldTokensAreGranted | crates/proof-transport-http/src/limits.rs:71-86 | as many takes as there are tokens are all granted, so a full bucket grants its capacity in a row |
| TokenBucket.AdviceIsExact | crates/proof-transport-http/src/limits.rs:71-86 | a refused caller who is next is granted from the advised moment on and not before |
| TokenBucket.OverflowIffZeroCapacity | crates/proof-transport-http/src/limits.rs:71-86 | the wait cannot be represented exactly for capacity zero |

## Left out

- Hashes, signatures, base64, UUID generation and serde encodings: uninterpreted.
- SQLite storage, the executor, the operator kernel's own contracts and custody types: the coordinator is proved against arbitrary answers of them.
- Lock poisoning, real threads, zeroization and constant-time comparison.
- Metrics and summary JSON, issue details and error texts: checks are booleans and issues are codes.
- Construction and validation of evaluation policies, and JSON pointers, which are an arbitrary function of the model.
- Stores of evaluations and agent definitions, and listing operations: they repeat the write-once save or only read.
- Claiming, reclaiming and releasing a lease, which bracket its life and never execute a call.
- Whether the engine, once called, enters the outside world: `Enter` in the dispatch model is the call of the engine.
- The signing of delegations.
- File handlers, previews, releases, the HTTP, MCP and terminal entry points, cursors and observability.
- Content.TransitionTo: object transitions and content updates are modelled on values, not in place, because the ChangeSet loops copy objects in and out of maps.
- Delegation.AdmissionIsSoundCoverage: for lists of at most 1112064 patterns, the size of the alphabet; `Delegation.WholeAlphabetAdmitsAll` shows the equivalence fails one beyond.
- Delegation.ScopeFlowsExactlyWhen: for operation lists within the same bound, since they are pattern lists.
- Delegation.ScopeChecksAgreeExactlyWhen: of the two paths only the scope test is modelled, not the stored copy of the grant or the actor checks around it.
- TraceEval.Evaluate: the JSON of the trace and of the metrics is given, not built from the records.
- AgentLifecycle.StepLifeKeeps: revisions are unbounded, where the source adds to a 64-bit counter.
