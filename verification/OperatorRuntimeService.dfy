/** The coordinator as its methods run: a lease updated in place and a log of
    the calls made. */
module OperatorRuntimeService {
  import opened Prelude
  import opened Protocol = OperatorRuntime
  import opened OperatorRuntimeTheorems

  class OperatorLease {
    var live: bool
    var controlRevision: nat
    var record: RunLease

    ghost function State(): Lease
      reads this
    {
      Lease(live, controlRevision, record)
    }

    constructor (controlRevision: nat, record: RunLease)
      ensures State() == Lease(true, controlRevision, record)
    {
      this.live := true;
      this.controlRevision := controlRevision;
      this.record := record;
    }

    method InvalidateLocalAuthority()
      modifies this`live
      ensures State() == old(State()).(live := false)
    {
      live := false;
    }

    method LoseAuthorityOn(error: StoreError)
      modifies this`live
      ensures State() == LoseAuthority(old(State()), error)
    {
      if error == StaleFence {
        InvalidateLocalAuthority();
      }
    }
  }

  class OperatorRuntime {
    var calls: seq<Action>

    constructor ()
      ensures calls == []
    {
      calls := [];
    }

    ghost predicate Did(before: seq<Action>, lease: OperatorLease, outcome: Outcome, turn: Turn)
      reads this, lease
    {
      && lease.State() == turn.lease
      && calls == before + turn.actions
      && outcome == turn.outcome
    }

    /** What every operation on a lease keeps: its revision is that of the last
        validated answer, each fenced call presents that revision, only a stale
        fence or a bad renewal ends its authority, and without authority it
        reserves nothing. */
    ghost predicate Fenced(before: seq<Action>, was: Lease, lease: OperatorLease)
      reads this, lease
    {
      && before <= calls
      && var made := calls[|before|..];
      && lease.controlRevision == RevisionAfterAll(was.controlRevision, made)
      && PresentsCurrent(was.controlRevision, made)
      && (lease.live <==> was.live && NoneEnds(made))
      && (!was.live ==> forall i :: 0 <= i < |made| ==> !made[i].Reserve?)
    }

    lemma DidIsFenced(before: seq<Action>, was: Lease, lease: OperatorLease, outcome: Outcome, turn: Turn)
      requires Did(before, lease, outcome, turn) && Accounted(was, turn)
      ensures Fenced(before, was, lease) && calls[|before|..] == turn.actions
    {
      assert (before + turn.actions)[|before|..] == turn.actions;
    }

    method SettleFailure(lease: OperatorLease, a: Answers) returns (outcome: Outcome)
      modifies this, lease
      ensures Did(old(calls), lease, outcome, SettleStage(old(lease.State()), a))
    {
      if !a.failureDigest || !a.failureAuthority || !a.failureRequest {
        return ContractFailed;
      }
      calls := calls + [Action.SettleFailure(lease.controlRevision, a.settle)];
      if a.settle.Err? {
        lease.LoseAuthorityOn(a.settle.error);
        return StoreFailed(a.settle.error);
      }
      if !a.settle.value.selfValid {
        return ContractFailed;
      }
      lease.controlRevision := a.settle.value.controlRevision;
      return ExecutionSettled;
    }

    method CommitResult(lease: OperatorLease, a: Answers) returns (outcome: Outcome)
      modifies this, lease
      ensures Did(old(calls), lease, outcome, CommitStage(old(lease.State()), a))
    {
      if !a.commitAuthority || !a.commitRequest {
        return ContractFailed;
      }
      calls := calls + [Commit(lease.controlRevision, a.commit)];
      if a.commit.Err? {
        lease.LoseAuthorityOn(a.commit.error);
        return StoreFailed(a.commit.error);
      }
      if !a.commit.value.selfValid {
        return ContractFailed;
      }
      lease.controlRevision := a.commit.value.controlRevision;
      return Committed;
    }

    method ExecuteBoundary(lease: OperatorLease, a: Answers) returns (outcome: Outcome)
      modifies this, lease
      ensures Did(old(calls), lease, outcome, BoundaryStage(old(lease.State()), a))
      ensures AllSettleAsDone(calls[|old(calls)|..], a)
    {
      BoundarySettles(lease.State(), a);
      if !a.permitBound || !a.authorization {
        return ContractFailed;
      }
      calls := calls + [Enter];
      if !a.engineSucceeds {
        outcome := SettleFailure(lease, a);
        return;
      }
      if !a.bindingSucceeds {
        outcome := SettleFailure(lease, a);
        return;
      }
      outcome := CommitResult(lease, a);
    }

    method BeginDispatch(lease: OperatorLease, call: GovernedCall, a: Answers) returns (outcome: Outcome)
      modifies this, lease
      ensures Did(old(calls), lease, outcome, BeginStage(old(lease.State()), call, a))
    {
      hide BoundaryStage;
      if !a.callDigest {
        return ContractFailed;
      }
      if (call.replay.Some? && a.claimToken.None?) || !a.dispatchToken {
        return EnvironmentFailed;
      }
      if !a.beginAuthority || !a.beginRequest {
        return ContractFailed;
      }
      calls := calls + [Begin(lease.controlRevision, a.begin)];
      if a.begin.Err? {
        lease.LoseAuthorityOn(a.begin.error);
        return StoreFailed(a.begin.error);
      }
      var begin := a.begin.value;
      if !begin.selfValid {
        return ContractFailed;
      }
      lease.controlRevision := begin.controlRevision;
      if begin.outcome == ExactReplay {
        if begin.completion.None? || call.replay.None? {
          return ContractFailed;
        }
        if !CompletionMatches(call.replay.value, begin.completion.value) {
          return ContractFailed;
        }
        return Replayed(begin.completion.value);
      }
      if begin.outcome != DispatchAuthorized {
        return ReplayRejected(begin.outcome);
      }
      outcome := ExecuteBoundary(lease, a);
    }

    /** A stored completion is handed back only if the answer validated and the
        completion is that of this very call; the lease is out of reach. */
    method LookupReplay(
        binding: ReplayBinding, reply: Reply<LookupResult>)
      returns (r: Result<Option<Completion>, Outcome>)
      modifies this
      ensures calls == old(calls) + [Lookup(reply)]
      ensures r.Ok? && r.value.Some? ==>
        && reply.Ok? && reply.value.completion == r.value
        && CompletionMatches(binding, r.value.value)
      ensures r == Ok(None) <==> reply.Ok? && reply.value.selfValid && !reply.value.completed
      ensures r.Err? && r.error.StoreFailed? <==> reply.Err?
      ensures r == AcceptLookup(binding, reply)
    {
      calls := calls + [Lookup(reply)];
      if reply.Err? {
        return Err(StoreFailed(reply.error));
      }
      var result := reply.value;
      if !result.selfValid {
        return Err(ContractFailed);
      }
      if !result.completed {
        return Ok(None);
      }
      if result.completion.None? {
        return Err(ContractFailed);
      }
      var matching := CompletionMatches(binding, result.completion.value);
      if !matching {
        return Err(ContractFailed);
      }
      return Ok(result.completion);
    }

    method ReserveBudget(lease: OperatorLease, call: GovernedCall, a: Answers) returns (outcome: Outcome)
      modifies this, lease
      ensures Did(old(calls), lease, outcome, ReserveStage(old(lease.State()), call, a))
    {
      hide BeginStage;
      if !lease.live {
        return ContractFailed;
      }
      if a.reservationId.None? || a.idempotencyKey.None? {
        return EnvironmentFailed;
      }
      if a.intentDigest.None? || !a.reserveAuthority {
        return ContractFailed;
      }
      if a.reserve.Err? {
        var error := a.reserve.error;
        calls := calls + [Reserve(lease.controlRevision, false, a.reserve)];
        lease.LoseAuthorityOn(error);
        if error == NotActionable && call.replay.Some? {
          var found := LookupReplay(call.replay.value, a.secondLookup);
          match found {
            case Err(o) => return o;
            case Ok(Some(c)) => return Replayed(c);
            case Ok(None) =>
          }
        }
        return StoreFailed(error);
      }
      var valid := ValidReservation(
        Lease(lease.live, lease.controlRevision, lease.record), call, a.reservationId.value, a.idempotencyKey.value,
        a.intentDigest.value, a.reserve.value);
      calls := calls + [Reserve(lease.controlRevision, valid, a.reserve)];
      if !valid {
        return ContractFailed;
      }
      lease.controlRevision := a.reserve.value.controlRevision;
      outcome := BeginDispatch(lease, call, a);
    }

    method ExecuteCall(lease: OperatorLease, call: GovernedCall, a: Answers) returns (outcome: Outcome)
      modifies this, lease
      ensures Did(old(calls), lease, outcome, Protocol.Execute(old(lease.State()), call, a))
    {
      hide ReserveStage;
      if !ValidCall(Lease(lease.live, lease.controlRevision, lease.record), call) {
        return ContractFailed;
      }
      if call.replay.Some? {
        var found := LookupReplay(call.replay.value, a.lookup);
        match found {
          case Err(o) => return o;
          case Ok(Some(c)) => return Replayed(c);
          case Ok(None) =>
        }
      }
      outcome := ReserveBudget(lease, call, a);
    }

    method SendRenewal(lease: OperatorLease, authority: bool, reply: Reply<RenewResult>) returns (outcome: Outcome)
      modifies this, lease
      ensures Did(old(calls), lease, outcome, Protocol.RenewLease(old(lease.State()), authority, reply))
    {
      if !authority {
        return ContractFailed;
      }
      if reply.Err? {
        calls := calls + [Renew(lease.controlRevision, false, reply)];
        lease.LoseAuthorityOn(reply.error);
        return StoreFailed(reply.error);
      }
      var accepted := ValidRenewal(Lease(lease.live, lease.controlRevision, lease.record), reply.value);
      calls := calls + [Renew(lease.controlRevision, accepted, reply)];
      if !accepted {
        lease.InvalidateLocalAuthority();
        return ContractFailed;
      }
      lease.controlRevision := reply.value.controlRevision;
      lease.record := reply.value.lease;
      return Renewed;
    }

    method SendRelease(lease: OperatorLease, authority: bool, reply: Reply<SettledResult>)
      returns (outcome: Outcome)
      modifies this, lease
      ensures Did(old(calls), lease, outcome, Protocol.ReleasePreDispatch(old(lease.State()), authority, reply))
    {
      if !authority {
        return ContractFailed;
      }
      calls := calls + [Release(lease.controlRevision, reply)];
      if reply.Err? {
        lease.LoseAuthorityOn(reply.error);
        return StoreFailed(reply.error);
      }
      if !reply.value.selfValid {
        return ContractFailed;
      }
      lease.controlRevision := reply.value.controlRevision;
      return Released;
    }

    /** One governed call: the boundary is entered only behind a validated reservation
        and an authorized begin, and what the caller is told is what was settled. */
    method Execute(lease: OperatorLease, call: GovernedCall, a: Answers)
      returns (outcome: Outcome)
      modifies this, lease
      ensures Did(old(calls), lease, outcome, Protocol.Execute(old(lease.State()), call, a))
      ensures Fenced(old(calls), old(lease.State()), lease)
      ensures Orderly(calls[|old(calls)|..])
      ensures outcome.Committed? <==> EndsWith(calls[|old(calls)|..], CommitAccepted)
      ensures outcome.ExecutionSettled? <==> EndsWith(calls[|old(calls)|..], SettlementAccepted)
      ensures AllSettleAsDone(calls[|old(calls)|..], a)
      ensures Enter in calls[|old(calls)|..] <==> Cleared(old(lease.State()), call, a)
    {
      hide Protocol.Execute;
      hide Protocol.RenewLease;
      hide Protocol.ReleasePreDispatch;
      outcome := ExecuteCall(lease, call, a);
      ExecuteAccounted(old(lease.State()), call, a);
      ExecutionIsOrderly(old(lease.State()), call, a);
      OutcomeIsTheLastCall(old(lease.State()), call, a);
      SettlementFollowsEngine(old(lease.State()), call, a);
      EntersExactlyWhenCleared(old(lease.State()), call, a);
      DidIsFenced(old(calls), old(lease.State()), lease, outcome, Protocol.Execute(old(lease.State()), call, a));
    }

    /** Extends the lease; a renewal that does not match ends it. */
    method RenewLease(lease: OperatorLease, authority: bool, reply: Reply<RenewResult>)
      returns (outcome: Outcome)
      modifies this, lease
      ensures Did(old(calls), lease, outcome, Protocol.RenewLease(old(lease.State()), authority, reply))
      ensures Fenced(old(calls), old(lease.State()), lease)
    {
      hide Protocol.Execute;
      hide Protocol.RenewLease;
      hide Protocol.ReleasePreDispatch;
      outcome := SendRenewal(lease, authority, reply);
      PerformAccounted(old(lease.State()), RenewOp(authority, reply));
      DidIsFenced(old(calls), old(lease.State()), lease, outcome,
        Protocol.RenewLease(old(lease.State()), authority, reply));
    }

    /** Gives a reservation back before any dispatch. */
    method ReleasePreDispatch(lease: OperatorLease, authority: bool, reply: Reply<SettledResult>)
      returns (outcome: Outcome)
      modifies this, lease
      ensures Did(old(calls), lease, outcome, Protocol.ReleasePreDispatch(old(lease.State()), authority, reply))
      ensures Fenced(old(calls), old(lease.State()), lease)
    {
      hide Protocol.Execute;
      hide Protocol.RenewLease;
      hide Protocol.ReleasePreDispatch;
      outcome := SendRelease(lease, authority, reply);
      PerformAccounted(old(lease.State()), ReleaseOp(authority, reply));
      DidIsFenced(old(calls), old(lease.State()), lease, outcome,
        Protocol.ReleasePreDispatch(old(lease.State()), authority, reply));
    }
  }
}
