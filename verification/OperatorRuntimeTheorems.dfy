/** Ordering and fencing guarantees of the dispatch coordinator, for every
    behaviour of the store, the environment and the engine. */
module OperatorRuntimeTheorems {
  import opened Prelude
  import opened OperatorRuntime

  // ----- one execution

  function Count(actions: seq<Action>, p: Action -> bool): nat {
    if actions == [] then 0 else (if p(actions[0]) then 1 else 0) + Count(actions[1..], p)
  }

  predicate IsEnter(a: Action) {
    a.Enter?
  }

  predicate IsSettlement(a: Action) {
    a.Commit? || a.SettleFailure?
  }

  predicate ReservedValidly(a: Action) {
    a.Reserve? && a.valid
  }

  predicate Authorized(a: Action) {
    a.Begin? && a.begun.Ok? && a.begun.value.selfValid && a.begun.value.outcome.DispatchAuthorized?
  }

  /** What must surround the call at a position. */
  predicate OrderlyAt(actions: seq<Action>, i: nat)
    requires i < |actions|
  {
    && (actions[i].Enter? ==>
      && i >= 2 && ReservedValidly(actions[i - 2]) && Authorized(actions[i - 1])
      && |actions| <= i + 2)
    && (IsSettlement(actions[i]) ==> i >= 1 && actions[i - 1].Enter? && i == |actions| - 1)
    && (actions[i].Begin? ==> i >= 1 && ReservedValidly(actions[i - 1]))
    && (actions[i].Reserve? ==> i <= 1 && (i == 1 ==> actions[0].Lookup?))
    && !actions[i].Release? && !actions[i].Renew?
  }

  predicate Orderly(actions: seq<Action>) {
    forall i :: 0 <= i < |actions| ==> OrderlyAt(actions, i)
  }

  /** From the reservation on, an execution's calls have one of these shapes. */
  predicate ReserveShape(s: seq<Action>) {
    || s == []
    || (|s| == 1 && s[0].Reserve?)
    || (|s| == 2 && s[0].Reserve? && s[1].Lookup?)
    || (|s| == 2 && ReservedValidly(s[0]) && s[1].Begin?)
    || (|s| == 3 && ReservedValidly(s[0]) && Authorized(s[1]) && s[2].Enter?)
    || (|s| == 4 && ReservedValidly(s[0]) && Authorized(s[1]) && s[2].Enter? && IsSettlement(s[3]))
  }

  lemma BoundaryStageShape(lease: Lease, a: Answers)
    ensures var s := BoundaryStage(lease, a).actions;
      || s == []
      || s == [Enter]
      || (|s| == 2 && s[0].Enter? && IsSettlement(s[1]))
  {
  }

  lemma BeginStageShape(lease: Lease, call: GovernedCall, a: Answers)
    ensures var s := BeginStage(lease, call, a).actions;
      || s == []
      || (|s| == 1 && s[0].Begin?)
      || (|s| == 2 && Authorized(s[0]) && s[1].Enter?)
      || (|s| == 3 && Authorized(s[0]) && s[1].Enter? && IsSettlement(s[2]))
  {
    if a.begin.Ok? {
      BoundaryStageShape(lease.(controlRevision := a.begin.value.controlRevision), a);
    }
  }

  lemma ReserveStageShape(lease: Lease, call: GovernedCall, a: Answers)
    ensures ReserveShape(ReserveStage(lease, call, a).actions)
  {
    hide BeginStage;
    if a.reserve.Ok? {
      BeginStageShape(lease.(controlRevision := a.reserve.value.controlRevision), call, a);
    }
  }

  /** Whatever the store, the environment and the engine do, the boundary is
      entered only right after a validated reservation and a validated,
      authorized begin; at most one commit or failure settlement follows, and
      nothing after that. */
  lemma ExecutionIsOrderly(lease: Lease, call: GovernedCall, a: Answers)
    ensures Orderly(Execute(lease, call, a).actions)
  {
    hide ReserveStage;
    ReserveStageShape(lease, call, a);
    var s := ReserveStage(lease, call, a).actions;
    var t := Execute(lease, call, a).actions;
    assert t == s || t == [Lookup(a.lookup)] + s || t == [] || t == [Lookup(a.lookup)];
  }

  lemma {:induction false} CountOne(actions: seq<Action>, p: Action -> bool, i: nat)
    requires i < |actions| && p(actions[i])
    requires forall j :: 0 <= j < |actions| && j != i ==> !p(actions[j])
    ensures Count(actions, p) == 1
  {
    if i == 0 {
      CountNone(actions[1..], p);
    } else {
      CountOne(actions[1..], p, i - 1);
    }
  }

  lemma {:induction false} CountNone(actions: seq<Action>, p: Action -> bool)
    requires forall j :: 0 <= j < |actions| ==> !p(actions[j])
    ensures Count(actions, p) == 0
  {
    if actions == [] {
    } else {
      CountNone(actions[1..], p);
    }
  }

  /** An execution enters the boundary at most once and settles at most once,
      by a commit or by a failure settlement but not both. */
  lemma EntersAndSettlesOnce(lease: Lease, call: GovernedCall, a: Answers)
    ensures var s := Execute(lease, call, a).actions;
      Count(s, IsEnter) <= 1 && Count(s, IsSettlement) <= 1
  {
    ExecutionIsOrderly(lease, call, a);
    AtMostOnce(Execute(lease, call, a).actions);
  }

  lemma AtMostOnce(actions: seq<Action>)
    requires Orderly(actions)
    ensures Count(actions, IsEnter) <= 1 && Count(actions, IsSettlement) <= 1
  {
    if i :| 0 <= i < |actions| && actions[i].Enter? {
      assert OrderlyAt(actions, i);
      forall j | 0 <= j < |actions| && j != i ensures !IsEnter(actions[j]) {
        assert OrderlyAt(actions, j);
      }
      CountOne(actions, IsEnter, i);
    } else {
      CountNone(actions, IsEnter);
    }
    if i :| 0 <= i < |actions| && IsSettlement(actions[i]) {
      assert OrderlyAt(actions, i);
      forall j | 0 <= j < |actions| && j != i ensures !IsSettlement(actions[j]) {
        assert OrderlyAt(actions, j);
      }
      CountOne(actions, IsSettlement, i);
    } else {
      CountNone(actions, IsSettlement);
    }
  }

  /** The completion of this very call: its run, step, checkpoint, input, operation
      and actor, in the lease's workspace. */
  predicate Completes(lease: Lease, call: GovernedCall, c: Completion) {
    && call.replay.Some? && call.digests.Some?
    && c == Completion(
      true, call.replay.value.bindingDigest, lease.record.workspaceId, call.runId, call.stepId, call.checkpoint,
      call.digests.value.input, call.contextActor, call.intent.operation, call.intent.version)
  }

  /** An exact replay never enters the boundary, and hands back the completion of
      this very call. */
  lemma ReplayNeverEnters(lease: Lease, call: GovernedCall, a: Answers)
    requires Execute(lease, call, a).outcome.Replayed?
    ensures var t := Execute(lease, call, a);
      && call.intent.kind.Tool? && Completes(lease, call, t.outcome.completion)
      && forall i :: 0 <= i < |t.actions| ==> !t.actions[i].Enter? && !IsSettlement(t.actions[i])
  {
  }

  // ----- what is dispatched, and how it is settled

  /** The call, its step, its run and the lease fit together: one run, one
      operation and version, one input, the run's own actor; and a replay binding
      repeats all of it. */
  predicate Coherent(lease: Lease, call: GovernedCall) {
    && call.runId == lease.record.runId && call.stepRunId == call.runId
    && call.stepOperation == call.intent.operation && call.stepVersion == call.intent.version
    && call.digests.Some? && call.stepInputDigest == call.digests.value.input
    && call.intent.argumentDigest == call.digests.value.argument
    && call.contextActor == call.runActor
    && call.intent.selfValid
    && (call.replay.Some? ==>
      var b := call.replay.value;
      b == ReplayBinding(true, b.bindingDigest, lease.record.workspaceId, call.runId, call.stepId, call.checkpoint,
        call.intent.operation, call.intent.version, call.digests.value.input, call.runActor)
      && call.intent.kind.Tool?)
    && (call.recovery == Some(Recovery(true)) && call.intent.kind.Tool? ==> call.replay.Some?)
  }

  /** Only a coherent call under a live lease makes any fenced request; any other
      is turned away, at most after a lookup. */
  lemma OnlyCoherentCallsAct(lease: Lease, call: GovernedCall, a: Answers)
    ensures !Coherent(lease, call) ==> Execute(lease, call, a) == Turn(lease, [], ContractFailed)
    ensures forall i :: 0 <= i < |Execute(lease, call, a).actions| && !Execute(lease, call, a).actions[i].Lookup? ==>
      Coherent(lease, call) && lease.live
  {
    hide BeginStage;
  }

  /** A commit follows only an engine and a binding that succeeded, a failure
      settlement only one that did not. */
  predicate SettlesAsDone(action: Action, a: Answers) {
    && (action.Commit? ==> a.engineSucceeds && a.bindingSucceeds)
    && (action.SettleFailure? ==> !(a.engineSucceeds && a.bindingSucceeds))
  }

  predicate AllSettleAsDone(actions: seq<Action>, a: Answers) {
    forall i :: 0 <= i < |actions| ==> SettlesAsDone(actions[i], a)
  }

  lemma BoundarySettles(lease: Lease, a: Answers)
    ensures AllSettleAsDone(BoundaryStage(lease, a).actions, a)
  {
  }

  lemma BeginSettles(lease: Lease, call: GovernedCall, a: Answers)
    ensures AllSettleAsDone(BeginStage(lease, call, a).actions, a)
  {
    hide BoundaryStage;
    if a.begin.Ok? {
      BoundarySettles(lease.(controlRevision := a.begin.value.controlRevision), a);
    }
  }

  lemma ReserveSettles(lease: Lease, call: GovernedCall, a: Answers)
    ensures AllSettleAsDone(ReserveStage(lease, call, a).actions, a)
  {
    hide BeginStage;
    if a.reserve.Ok? {
      BeginSettles(lease.(controlRevision := a.reserve.value.controlRevision), call, a);
    }
  }

  /** Whatever is committed was done, and whatever is settled as failed was not. */
  lemma SettlementFollowsEngine(lease: Lease, call: GovernedCall, a: Answers)
    ensures AllSettleAsDone(Execute(lease, call, a).actions, a)
  {
    hide ReserveStage;
    ReserveSettles(lease, call, a);
  }

  predicate FoundComplete(lease: Lease, call: GovernedCall, reply: Reply<LookupResult>) {
    && reply.Ok? && reply.value.selfValid && reply.value.completed
    && reply.value.completion.Some? && Completes(lease, call, reply.value.completion.value)
  }

  /** A coherent call that was completed before is answered with its completion: at
      the first lookup, or, where the reservation was no longer possible, at the
      second. */
  lemma CompletedCallsAreReplayed(lease: Lease, call: GovernedCall, a: Answers)
    requires Coherent(lease, call) && call.replay.Some?
    ensures FoundComplete(lease, call, a.lookup) ==>
      Execute(lease, call, a) == Turn(lease, [Lookup(a.lookup)], Replayed(a.lookup.value.completion.value))
    ensures
      && a.lookup.Ok? && a.lookup.value.selfValid && !a.lookup.value.completed
      && lease.live && a.reservationId.Some? && a.idempotencyKey.Some? && a.intentDigest.Some? && a.reserveAuthority
      && a.reserve == Err(NotActionable) && FoundComplete(lease, call, a.secondLookup)
      ==> Execute(lease, call, a).outcome == Replayed(a.secondLookup.value.completion.value)
  {
  }

  /** Everything up to the engine goes well: nothing to replay, identifiers and
      tokens drawn, the reservation this call's, the dispatch authorized. */
  predicate Cleared(lease: Lease, call: GovernedCall, a: Answers) {
    && Coherent(lease, call) && lease.live
    && (call.replay.Some? ==> a.lookup.Ok? && a.lookup.value.selfValid && !a.lookup.value.completed)
    && a.reservationId.Some? && a.idempotencyKey.Some? && a.intentDigest.Some? && a.reserveAuthority
    && a.reserve.Ok? && a.reserve.value.selfValid
    && a.reserve.value.reservation == Reservation(
      a.reservationId.value, a.idempotencyKey.value, lease.record.runId, lease.record.leaseId,
      lease.record.fenceEpoch, call.intent, a.intentDigest.value, call.replay, call.recovery)
    && a.callDigest && (call.replay.Some? ==> a.claimToken.Some?) && a.dispatchToken
    && a.beginAuthority && a.beginRequest
    && a.begin.Ok? && a.begin.value.selfValid && a.begin.value.outcome.DispatchAuthorized?
    && a.permitBound && a.authorization
  }

  lemma ClearedCallsReachTheBoundary(lease: Lease, call: GovernedCall, a: Answers)
    requires Cleared(lease, call, a)
    ensures var next := lease.(controlRevision := a.begin.value.controlRevision);
      Execute(lease, call, a) == Before(
        (if call.replay.Some? then [Lookup(a.lookup)] else [])
          + [Reserve(lease.controlRevision, true, a.reserve), Begin(a.reserve.value.controlRevision, a.begin)],
        BoundaryStage(next, a))
  {
    hide BoundaryStage;
    var reserved := lease.(controlRevision := a.reserve.value.controlRevision);
    var next := lease.(controlRevision := a.begin.value.controlRevision);
    var begun := BeginStage(reserved, call, a);
    assert begun == Before([Begin(reserved.controlRevision, a.begin)], BoundaryStage(next, a));
    assert ReserveStage(lease, call, a) == Before([Reserve(lease.controlRevision, true, a.reserve)], begun);
  }

  /** The boundary is entered exactly for cleared calls. */
  lemma EntersExactlyWhenCleared(lease: Lease, call: GovernedCall, a: Answers)
    ensures Enter in Execute(lease, call, a).actions <==> Cleared(lease, call, a)
  {
    if Cleared(lease, call, a) {
      ClearedCallsReachTheBoundary(lease, call, a);
    }
  }

  /** A cleared call whose settlement is accepted is reported committed exactly
      when the engine and its binding succeeded, and settled as failed otherwise. */
  lemma ClearedCallsSettle(lease: Lease, call: GovernedCall, a: Answers)
    requires Cleared(lease, call, a)
    requires a.commitAuthority && a.commitRequest && a.commit.Ok? && a.commit.value.selfValid
    requires a.failureDigest && a.failureAuthority && a.failureRequest && a.settle.Ok? && a.settle.value.selfValid
    ensures var t, done := Execute(lease, call, a), a.engineSucceeds && a.bindingSucceeds;
      && t.outcome == (if done then Committed else ExecutionSettled)
      && t.lease == lease.(controlRevision :=
        if done then a.commit.value.controlRevision else a.settle.value.controlRevision)
  {
    ClearedCallsReachTheBoundary(lease, call, a);
    hide Execute;
  }

  // ----- what the caller is told

  predicate AnsweredErr(action: Action, e: StoreError) {
    match action
    case Lookup(r) => r == Err(e)
    case Reserve(_, _, r) => r == Err(e)
    case Begin(_, r) => r == Err(e)
    case Enter => false
    case Commit(_, r) => r == Err(e)
    case SettleFailure(_, r) => r == Err(e)
    case Release(_, r) => r == Err(e)
    case Renew(_, _, r) => r == Err(e)
  }

  predicate SomeAnsweredErr(actions: seq<Action>, e: StoreError) {
    exists i :: 0 <= i < |actions| && AnsweredErr(actions[i], e)
  }

  predicate BeginAnswered(actions: seq<Action>, outcome: DispatchOutcome) {
    exists i :: 0 <= i < |actions| && actions[i].Begin? && actions[i].begun.Ok?
      && actions[i].begun.value.outcome == outcome
  }

  /** A store error told to the caller is one the store gave, and a rejected
      replay is what the store said of it. */
  predicate Truthful(t: Turn) {
    && (t.outcome.StoreFailed? ==> SomeAnsweredErr(t.actions, t.outcome.error))
    && (t.outcome.ReplayRejected? ==>
      !t.outcome.outcome.DispatchAuthorized? && BeginAnswered(t.actions, t.outcome.outcome))
  }

  lemma TruthfulFirst(t: Turn)
    requires t.outcome.StoreFailed? ==> t.actions != [] && AnsweredErr(t.actions[0], t.outcome.error)
    requires !t.outcome.ReplayRejected?
    ensures Truthful(t)
  {
  }

  lemma TruthfulBefore(action: Action, t: Turn)
    requires Truthful(t)
    ensures Truthful(Before([action], t))
  {
    var all := [action] + t.actions;
    assert forall i :: 0 <= i < |t.actions| ==> all[i + 1] == t.actions[i];
    if t.outcome.StoreFailed? {
      var i :| 0 <= i < |t.actions| && AnsweredErr(t.actions[i], t.outcome.error);
      assert AnsweredErr(all[i + 1], t.outcome.error);
    }
    if t.outcome.ReplayRejected? {
      var i :| 0 <= i < |t.actions| && t.actions[i].Begin? && t.actions[i].begun.Ok?
        && t.actions[i].begun.value.outcome == t.outcome.outcome;
      assert all[i + 1] == t.actions[i];
    }
  }

  lemma BoundaryTruthful(lease: Lease, a: Answers)
    ensures Truthful(BoundaryStage(lease, a))
  {
    if a.permitBound && a.authorization {
      TruthfulFirst(SettleStage(lease, a));
      TruthfulFirst(CommitStage(lease, a));
      TruthfulBefore(Enter, SettleStage(lease, a));
      TruthfulBefore(Enter, CommitStage(lease, a));
    }
  }

  lemma BeginTruthful(lease: Lease, call: GovernedCall, a: Answers)
    ensures Truthful(BeginStage(lease, call, a))
  {
    hide BoundaryStage;
    if a.begin.Ok? {
      var next := lease.(controlRevision := a.begin.value.controlRevision);
      BoundaryTruthful(next, a);
      TruthfulBefore(Begin(lease.controlRevision, a.begin), BoundaryStage(next, a));
    }
    var t := BeginStage(lease, call, a);
    assert t.actions != [] ==> t.actions[0] == Begin(lease.controlRevision, a.begin);
    assert a.begin.Err? && t.actions != [] ==> AnsweredErr(t.actions[0], a.begin.error);
  }

  lemma ReserveTruthful(lease: Lease, call: GovernedCall, a: Answers)
    ensures Truthful(ReserveStage(lease, call, a))
  {
    hide BeginStage;
    if a.reserve.Ok? {
      var next := lease.(controlRevision := a.reserve.value.controlRevision);
      BeginTruthful(next, call, a);
      TruthfulBefore(Reserve(lease.controlRevision, true, a.reserve), BeginStage(next, call, a));
    } else {
      var t := ReserveStage(lease, call, a);
      assert t.actions != [] ==> AnsweredErr(t.actions[0], a.reserve.error);
      assert |t.actions| > 1 && a.secondLookup.Err? ==> AnsweredErr(t.actions[1], a.secondLookup.error);
    }
  }

  lemma FailuresAreReported(lease: Lease, call: GovernedCall, a: Answers)
    ensures Truthful(Execute(lease, call, a))
  {
    hide ReserveStage;
    ReserveTruthful(lease, call, a);
    TruthfulBefore(Lookup(a.lookup), ReserveStage(lease, call, a));
    assert a.lookup.Err? ==> AnsweredErr([Lookup(a.lookup)][0], a.lookup.error);
  }

  predicate EndsWith(actions: seq<Action>, p: Action -> bool) {
    actions != [] && p(actions[|actions| - 1])
  }

  predicate CommitAccepted(a: Action) {
    a.Commit? && a.committed.Ok? && a.committed.value.selfValid
  }

  predicate SettlementAccepted(a: Action) {
    a.SettleFailure? && a.settled.Ok? && a.settled.value.selfValid
  }

  predicate Candid(t: Turn) {
    && (t.outcome.Committed? <==> EndsWith(t.actions, CommitAccepted))
    && (t.outcome.ExecutionSettled? <==> EndsWith(t.actions, SettlementAccepted))
  }

  lemma CandidBefore(action: Action, t: Turn)
    requires Candid(t) && !CommitAccepted(action) && !SettlementAccepted(action)
    ensures Candid(Before([action], t))
  {
    var all := [action] + t.actions;
    assert t.actions != [] ==> all[|all| - 1] == t.actions[|t.actions| - 1];
  }

  lemma BoundaryCandid(lease: Lease, a: Answers)
    ensures Candid(BoundaryStage(lease, a))
  {
    if a.permitBound && a.authorization {
      CandidBefore(Enter,
        if !a.engineSucceeds || !a.bindingSucceeds then SettleStage(lease, a) else CommitStage(lease, a));
    }
  }

  lemma BeginCandid(lease: Lease, call: GovernedCall, a: Answers)
    ensures Candid(BeginStage(lease, call, a))
  {
    hide BoundaryStage;
    if a.begin.Ok? {
      var next := lease.(controlRevision := a.begin.value.controlRevision);
      BoundaryCandid(next, a);
      CandidBefore(Begin(lease.controlRevision, a.begin), BoundaryStage(next, a));
    }
  }

  lemma ReserveCandid(lease: Lease, call: GovernedCall, a: Answers)
    ensures Candid(ReserveStage(lease, call, a))
  {
    hide BeginStage;
    match a.reserve {
      case Err(e) =>
        CandidBefore(Reserve(lease.controlRevision, false, a.reserve), ReserveFailed(lease, call, a, e));
      case Ok(r) =>
        var next := lease.(controlRevision := r.controlRevision);
        BeginCandid(next, call, a);
        CandidBefore(Reserve(lease.controlRevision, true, a.reserve), BeginStage(next, call, a));
    }
  }

  /** The caller is told of a commit, or of a settled failure, exactly when the
      last call is an accepted commit, or an accepted failure settlement. */
  lemma OutcomeIsTheLastCall(lease: Lease, call: GovernedCall, a: Answers)
    ensures Candid(Execute(lease, call, a))
  {
    hide ReserveStage;
    ReserveCandid(lease, call, a);
    CandidBefore(Lookup(a.lookup), ReserveStage(lease, call, a));
  }

  /** A reservation accepted as valid names this call, this lease and its fence,
      with the identifiers drawn for it. */
  lemma ReservationBelongsToCall(lease: Lease, call: GovernedCall, a: Answers, i: nat)
    requires i < |Execute(lease, call, a).actions| && ReservedValidly(Execute(lease, call, a).actions[i])
    ensures var r := Execute(lease, call, a).actions[i].reserved;
      && a.reservationId.Some? && a.idempotencyKey.Some? && a.intentDigest.Some?
      && r.Ok? && r.value.selfValid
      && r.value.reservation == Reservation(
        a.reservationId.value, a.idempotencyKey.value, lease.record.runId, lease.record.leaseId,
        lease.record.fenceEpoch, call.intent, a.intentDigest.value, call.replay, call.recovery)
  {
    hide BeginStage;
    if a.reserve.Ok? {
      BeginStageShape(lease.(controlRevision := a.reserve.value.controlRevision), call, a);
    }
  }

  // ----- whole lives of a lease

  /** The revision after a call: that of its answer if the answer validated. */
  function RevisionAfter(revision: nat, a: Action): nat {
    match a
    case Reserve(_, valid, r) => if valid && r.Ok? then r.value.controlRevision else revision
    case Begin(_, r) => if r.Ok? && r.value.selfValid then r.value.controlRevision else revision
    case Commit(_, r) => if r.Ok? && r.value.selfValid then r.value.controlRevision else revision
    case SettleFailure(_, r) => if r.Ok? && r.value.selfValid then r.value.controlRevision else revision
    case Release(_, r) => if r.Ok? && r.value.selfValid then r.value.controlRevision else revision
    case Renew(_, accepted, r) => if accepted && r.Ok? then r.value.controlRevision else revision
    case _ => revision
  }

  function RevisionAfterAll(revision: nat, actions: seq<Action>): nat
    decreases |actions|
  {
    if actions == [] then revision else RevisionAfterAll(RevisionAfter(revision, actions[0]), actions[1..])
  }

  /** Every fenced call presents the revision of the last validated answer. */
  predicate PresentsCurrent(revision: nat, actions: seq<Action>)
    decreases |actions|
  {
    actions != [] ==>
      && (!actions[0].Lookup? && !actions[0].Enter? ==> actions[0].revision == revision)
      && PresentsCurrent(RevisionAfter(revision, actions[0]), actions[1..])
  }

  /** The call was answered by a stale fence, or by an unacceptable renewal. */
  predicate EndsAuthority(a: Action) {
    match a
    case Reserve(_, _, r) => r.Err? && r.error.StaleFence?
    case Begin(_, r) => r.Err? && r.error.StaleFence?
    case Commit(_, r) => r.Err? && r.error.StaleFence?
    case SettleFailure(_, r) => r.Err? && r.error.StaleFence?
    case Release(_, r) => r.Err? && r.error.StaleFence?
    case Renew(_, accepted, r) => if r.Err? then r.error.StaleFence? else !accepted
    case _ => false
  }

  predicate NoneEnds(actions: seq<Action>) {
    forall i :: 0 <= i < |actions| ==> !EndsAuthority(actions[i])
  }

  /** What a turn leaves behind is a function of its calls. */
  predicate Accounted(lease: Lease, t: Turn) {
    && t.lease.controlRevision == RevisionAfterAll(lease.controlRevision, t.actions)
    && PresentsCurrent(lease.controlRevision, t.actions)
    && (t.lease.live <==> lease.live && NoneEnds(t.actions))
    && (!lease.live ==> forall i :: 0 <= i < |t.actions| ==> !t.actions[i].Reserve?)
  }

  lemma AccountBefore(lease: Lease, action: Action, rest: Lease, t: Turn)
    requires rest.controlRevision == RevisionAfter(lease.controlRevision, action)
    requires !action.Lookup? && !action.Enter? ==> action.revision == lease.controlRevision
    requires rest.live <==> lease.live && !EndsAuthority(action)
    requires action.Reserve? ==> lease.live
    requires Accounted(rest, t)
    requires !lease.live ==> forall i :: 0 <= i < |t.actions| ==> !t.actions[i].Reserve?
    ensures Accounted(lease, Before([action], t))
  {
    var all := [action] + t.actions;
    assert all[1..] == t.actions;
    assert forall i :: 0 <= i < |t.actions| ==> all[i + 1] == t.actions[i];
    if NoneEnds(all) {
      forall i | 0 <= i < |t.actions| ensures !EndsAuthority(t.actions[i]) {
        assert !EndsAuthority(all[i + 1]);
      }
      assert !EndsAuthority(all[0]);
    }
  }

  lemma AccountNone(lease: Lease, outcome: Outcome)
    ensures Accounted(lease, Turn(lease, [], outcome))
  {
  }

  /** A turn of at most one call that acted on its answer is accounted for. */
  lemma OneCallAccounted(lease: Lease, t: Turn)
    requires |t.actions| <= 1
    requires t.actions == [] ==> t.lease == lease
    requires t.actions != [] ==>
      && t.lease.controlRevision == RevisionAfter(lease.controlRevision, t.actions[0])
      && (t.lease.live <==> lease.live && !EndsAuthority(t.actions[0]))
      && (t.actions[0].Reserve? ==> lease.live)
      && (!t.actions[0].Lookup? && !t.actions[0].Enter? ==> t.actions[0].revision == lease.controlRevision)
    ensures Accounted(lease, t)
  {
    AccountNone(t.lease, t.outcome);
    if t.actions != [] {
      AccountBefore(lease, t.actions[0], t.lease, Turn(t.lease, [], t.outcome));
      assert t == Before([t.actions[0]], Turn(t.lease, [], t.outcome));
    }
  }

  lemma SettleAccounted(lease: Lease, a: Answers)
    ensures Accounted(lease, SettleStage(lease, a))
  {
    OneCallAccounted(lease, SettleStage(lease, a));
  }

  lemma CommitAccounted(lease: Lease, a: Answers)
    ensures Accounted(lease, CommitStage(lease, a))
  {
    OneCallAccounted(lease, CommitStage(lease, a));
  }

  lemma BoundaryAccounted(lease: Lease, a: Answers)
    ensures Accounted(lease, BoundaryStage(lease, a))
  {
    BoundaryStageShape(lease, a);
    if a.permitBound && a.authorization {
      if !a.engineSucceeds || !a.bindingSucceeds {
        SettleAccounted(lease, a);
        AccountBefore(lease, Enter, lease, SettleStage(lease, a));
      } else {
        CommitAccounted(lease, a);
        AccountBefore(lease, Enter, lease, CommitStage(lease, a));
      }
    }
  }

  lemma BeginAccounted(lease: Lease, call: GovernedCall, a: Answers)
    ensures Accounted(lease, BeginStage(lease, call, a))
  {
    BeginStageShape(lease, call, a);
    var t := BeginStage(lease, call, a);
    if t.actions != [] {
      var action := t.actions[0];
      if Authorized(action) {
        var next := lease.(controlRevision := a.begin.value.controlRevision);
        BoundaryAccounted(next, a);
        BoundaryStageShape(next, a);
        AccountBefore(lease, action, next, BoundaryStage(next, a));
      } else {
        OneCallAccounted(lease, t);
      }
    }
  }

  lemma ReserveFailedAccounted(lease: Lease, call: GovernedCall, a: Answers, e: StoreError)
    ensures var t := ReserveFailed(lease, call, a, e); Accounted(t.lease, t)
    ensures ReserveFailed(lease, call, a, e).lease == LoseAuthority(lease, e)
    ensures forall i :: 0 <= i < |ReserveFailed(lease, call, a, e).actions| ==>
      !ReserveFailed(lease, call, a, e).actions[i].Reserve?
  {
    var t := ReserveFailed(lease, call, a, e);
    OneCallAccounted(t.lease, t);
  }

  lemma ReserveAccounted(lease: Lease, call: GovernedCall, a: Answers)
    ensures Accounted(lease, ReserveStage(lease, call, a))
  {
    var t := ReserveStage(lease, call, a);
    if t.actions != [] {
      var action := t.actions[0];
      match a.reserve {
        case Err(e) =>
          ReserveFailedAccounted(lease, call, a, e);
          AccountBefore(lease, action, LoseAuthority(lease, e), ReserveFailed(lease, call, a, e));
        case Ok(r) =>
          if action.valid {
            var next := lease.(controlRevision := r.controlRevision);
            BeginAccounted(next, call, a);
            AccountBefore(lease, action, next, BeginStage(next, call, a));
          } else {
            OneCallAccounted(lease, t);
          }
      }
    }
  }

  lemma ExecuteAccounted(lease: Lease, call: GovernedCall, a: Answers)
    ensures Accounted(lease, Execute(lease, call, a))
  {
    ReserveAccounted(lease, call, a);
    var t := Execute(lease, call, a);
    if ValidCall(lease, call) && call.replay.Some? {
      var rest := if AcceptLookup(call.replay.value, a.lookup) == Ok(None) then ReserveStage(lease, call, a)
        else Turn(lease, [], t.outcome);
      AccountNone(lease, t.outcome);
      AccountBefore(lease, Lookup(a.lookup), lease, rest);
      assert t == Before([Lookup(a.lookup)], rest);
    }
  }

  lemma PerformAccounted(lease: Lease, op: Operation)
    requires !op.InvalidateOp?
    ensures Accounted(lease, Perform(lease, op))
  {
    match op {
      case ExecuteOp(call, answers) => ExecuteAccounted(lease, call, answers);
      case RenewOp(_, _) => OneCallAccounted(lease, Perform(lease, op));
      case ReleaseOp(_, _) => OneCallAccounted(lease, Perform(lease, op));
    }
  }

  // ----- sequences of operations on one lease

  datatype Life = Life(lease: Lease, actions: seq<Action>)

  function Live(lease: Lease, ops: seq<Operation>): Life
    decreases |ops|
  {
    if ops == [] then Life(lease, [])
    else
      var t := Perform(lease, ops[0]);
      var rest := Live(t.lease, ops[1..]);
      Life(rest.lease, t.actions + rest.actions)
  }

  lemma {:induction false} RevisionsCompose(revision: nat, a: seq<Action>, b: seq<Action>)
    ensures RevisionAfterAll(revision, a + b) == RevisionAfterAll(RevisionAfterAll(revision, a), b)
    ensures PresentsCurrent(revision, a + b)
      <==> PresentsCurrent(revision, a) && PresentsCurrent(RevisionAfterAll(revision, a), b)
    decreases |a|
  {
    if a == [] {
      assert a + b == b;
    } else {
      assert (a + b)[1..] == a[1..] + b;
      RevisionsCompose(RevisionAfter(revision, a[0]), a[1..], b);
    }
  }

  /** Throughout a lease's life its revision is that of the last validated store
      answer, and every fenced call presents exactly that revision. */
  lemma {:induction false} RevisionFollowsStore(lease: Lease, ops: seq<Operation>)
    ensures var l := Live(lease, ops);
      && l.lease.controlRevision == RevisionAfterAll(lease.controlRevision, l.actions)
      && PresentsCurrent(lease.controlRevision, l.actions)
    decreases |ops|
  {
    if ops == [] {
    } else {
      var t := Perform(lease, ops[0]);
      if !ops[0].InvalidateOp? {
        PerformAccounted(lease, ops[0]);
      }
      RevisionFollowsStore(t.lease, ops[1..]);
      RevisionsCompose(lease.controlRevision, t.actions, Live(t.lease, ops[1..]).actions);
    }
  }

  /** Over any life the lease stays the same one, whatever the store sends:
      only its expiry may change. */
  lemma {:induction false} LeaseStaysItself(lease: Lease, ops: seq<Operation>)
    ensures var l := Live(lease, ops).lease.record;
      l.(expiresAt := lease.record.expiresAt) == lease.record
    decreases |ops|
  {
    if ops == [] {
    } else {
      if ops[0].ExecuteOp? {
        ExecuteKeepsRecord(lease, ops[0].call, ops[0].answers);
      }
      LeaseStaysItself(Perform(lease, ops[0]).lease, ops[1..]);
    }
  }

  lemma ExecuteKeepsRecord(lease: Lease, call: GovernedCall, a: Answers)
    ensures Execute(lease, call, a).lease.record == lease.record
  {
  }

  /** A renewal is taken over exactly when it validated and is of this lease. */
  lemma RenewsExactlyWhen(lease: Lease, authority: bool, reply: Reply<RenewResult>)
    ensures var t := RenewLease(lease, authority, reply);
      && (t.outcome.Renewed? <==>
        && authority && reply.Ok? && reply.value.selfValid && reply.value.renewed
        && reply.value.lease.(expiresAt := lease.record.expiresAt) == lease.record)
      && (t.outcome.Renewed? ==> t.lease == Lease(lease.live, reply.value.controlRevision, reply.value.lease))
      && (!t.outcome.Renewed? ==> t.lease.record == lease.record)
  {
  }

  /** A reservation is given back exactly when the request could be made and the
      answer validated; only that changes the revision. */
  lemma ReleasesExactlyWhen(lease: Lease, authority: bool, reply: Reply<SettledResult>)
    ensures var t := ReleasePreDispatch(lease, authority, reply);
      && (t.outcome.Released? <==> authority && reply.Ok? && reply.value.selfValid)
      && (t.actions == if authority then [Release(lease.controlRevision, reply)] else [])
      && (t.outcome.Released? ==> t.lease == lease.(controlRevision := reply.value.controlRevision))
      && (!t.outcome.Released? ==> t.lease == lease.(live := t.lease.live))
  {
  }

  /** A lease without local authority never regains it and never reserves. */
  lemma {:induction false} DeadLeaseNeverReserves(lease: Lease, ops: seq<Operation>)
    requires !lease.live
    ensures !Live(lease, ops).lease.live
    ensures forall i :: 0 <= i < |Live(lease, ops).actions| ==> !Live(lease, ops).actions[i].Reserve?
    decreases |ops|
  {
    if ops == [] {
    } else {
      if !ops[0].InvalidateOp? {
        PerformAccounted(lease, ops[0]);
      }
      DeadLeaseNeverReserves(Perform(lease, ops[0]).lease, ops[1..]);
    }
  }

  /** Fencing: once a call was answered by a stale fence or a renewal was not
      acceptable, no later operation on that lease reserves, whatever happens. */
  lemma StaleFenceIsFinal(lease: Lease, op: Operation, later: seq<Operation>)
    requires !op.InvalidateOp? && !NoneEnds(Perform(lease, op).actions)
    ensures var l := Live(Perform(lease, op).lease, later);
      !l.lease.live && forall i :: 0 <= i < |l.actions| ==> !l.actions[i].Reserve?
  {
    PerformAccounted(lease, op);
    DeadLeaseNeverReserves(Perform(lease, op).lease, later);
  }
}
