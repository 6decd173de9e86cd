/** The authority as the object the server holds: methods that update its state
    in place, each proved equal to the corresponding atomic step and to keep the
    object valid, so that what holds over every run holds of every object. */
module AuthorityService {
  import opened Prelude
  import opened Authority
  import opened AuthorityRecord
  import opened AuthorityTheorems

  class OperatorAuthAuthority {
    const lib: Library
    const policy: AuthPolicy
    var pending: Option<PendingChallenge>
    var session: Option<ActiveSession>
    var log: seq<AuditRequest>
    ghost var history: seq<Event>

    ghost function World(): World
      reads this
    {
      Authority.World.World(AuthState(pending, session), log, history)
    }

    ghost predicate Valid()
      reads this
    {
      Inv(lib, policy, World())
    }

    /** What every call keeps, under fresh identifiers and an honest store: a
        valid object stays valid, and one that reports itself unavailable holds
        neither challenge nor session. */
    ghost predicate Keeps(wasValid: bool, before: World, call: Call, reply: Reply)
      reads this
    {
      && (wasValid && Admissible(before, call) ==> Valid())
      && (reply == Rejected(ControlUnavailable) ==> pending.None? && session.None?)
    }

    /** Refused while setting up a session: the active one and the audit log are
        as they were, and at most the challenge is used up. */
    ghost predicate Untouched(before: World, reply: Reply)
      reads this
    {
      reply.Rejected? && reply.error != ControlUnavailable ==>
        && session == before.state.session && log == before.log
        && (World() == before || (pending.None? && history == before.history + [Spent]))
    }

    lemma StepKeeps(before: World, call: Call, reply: Reply)
      requires Outcome(World(), reply) == Step(lib, policy, before, call)
      ensures Keeps(Inv(lib, policy, before), before, call, reply)
      ensures call.Issue? || call.Attest? || call.ConsumeFailed? || call.Exchange? ==> Untouched(before, reply)
    {
      hide Step;
      hide Inv;
      UnavailableLeavesNothing(lib, policy, before, call);
      if Inv(lib, policy, before) && Admissible(before, call) {
        StepPreserves(lib, policy, before, call);
      }
      if call.Issue? || call.Attest? || call.ConsumeFailed? || call.Exchange? {
        RefusalKeepsSession(lib, policy, before, call);
      }
    }

    /** Every session a valid object ever opened was attested, every callback it
        ran presented the session's token, everything due was audited, and the
        session it holds is the last one logged. */
    lemma ValidObjectsAreSafe()
      requires Valid()
      ensures forall i :: 0 <= i < |history| && history[i].Opened? ==> SessionAttested(lib, policy, history, i)
      ensures forall i :: 0 <= i < |history| && (history[i].Entered? || history[i].Revoked?) ==>
        CallbackBounded(lib, policy, history, i)
      ensures Audited(lib, policy, World()) && SessionLogged(World())
    {
      hide SessionAttested;
      hide CallbackBounded;
      hide GoodHistory;
      hide Audited;
      forall i | 0 <= i < |history| && history[i].Opened? ensures SessionAttested(lib, policy, history, i) {
        RecordAttestsSessions(lib, policy, history, i);
      }
      forall i | 0 <= i < |history| && (history[i].Entered? || history[i].Revoked?)
        ensures CallbackBounded(lib, policy, history, i)
      {
        RecordBoundsCallbacks(lib, policy, history, i);
      }
    }

    constructor (lib: Library, policy: AuthPolicy)
      ensures Valid()
      ensures World() == START && this.lib == lib && this.policy == policy
    {
      this.lib := lib;
      this.policy := policy;
      pending := None;
      session := None;
      log := [];
      history := [];
    }

    method ClearUnavailable() returns (reply: Reply)
      modifies this
      ensures Outcome(World(), reply) == Unavailable(old(World()))
    {
      pending := None;
      session := None;
      history := history + [Lost];
      return Rejected(ControlUnavailable);
    }

    /** Reports whether the store confirmed the record; the record may have been
        written either way. */
    method AppendAudit(request: AuditRequest, reply: AuditReply) returns (confirmed: bool)
      modifies this
      ensures World() == old(World()).(log := Logged(old(log), request, reply))
      ensures confirmed == Confirmed(request, reply)
    {
      if reply.written {
        log := log + [request];
      }
      confirmed := reply.event.Some? && ResultMatches(request, reply.event.value);
    }

    /** Two hexadecimal digits for each of 32 bytes; whatever is not one reads as
        zero, and is reported. */
    static method DecodeHex32(input: Bytes) returns (output: Bytes32, valid: bool)
      ensures output == Decoded(input) && valid == IsHex32(input)
    {
      var bytes := new byte[32](_ => 0);
      valid := |input| == 64;
      for index := 0 to 32
        invariant forall k :: 0 <= k < index ==> bytes[k] == Decoded(input)[k]
        invariant valid <==> |input| == 64 && forall k :: 0 <= k < 2 * index ==> DecodeNibble(input[k]).1
      {
        var (high, highValid) := DecodeNibble(ByteAt(input, 2 * index));
        var (low, lowValid) := DecodeNibble(ByteAt(input, 2 * index + 1));
        bytes[index] := 16 * high + low;
        valid := valid && highValid && lowValid;
      }
      output := bytes[..];
    }

    method IssueLocked(request: IssueRequest, env: Environment) returns (reply: Reply)
      modifies this
      ensures Outcome(World(), reply) == IssueStep(lib, policy, old(World()), request, env)
    {
      if request.schema != ISSUE_SCHEMA || !IsCanonical(request.requested) {
        return Rejected(InvalidRequest);
      }
      var granted := Intersect(policy, request.requested);
      if granted.None? {
        return Rejected(InvalidRequest);
      }
      if env.utc.None? || env.tick.None? {
        reply := ClearUnavailable();
        return;
      }
      var issuedAt, issuedTick := env.utc.value, env.tick.value;
      if pending.Some? && (issuedTick >= pending.value.expiryTick || issuedAt >= pending.value.challenge.expiresAt) {
        pending := None;
      }
      if pending.Some? {
        return Rejected(ChallengePending);
      }
      if env.uuid.None? || !lib.isV7(env.uuid.value) || env.random.None? {
        reply := ClearUnavailable();
        return;
      }
      var expiryTick := CheckedAdd64(issuedTick, CHALLENGE_TTL_MS);
      if expiryTick.None? || issuedAt + CHALLENGE_TTL_MS > lib.lastInstant {
        reply := ClearUnavailable();
        return;
      }
      var challenge := MakeChallenge(policy, request, granted.value, env.uuid.value, env.random.value, issuedAt);
      if !lib.encodes(challenge) {
        reply := ClearUnavailable();
        return;
      }
      var confirmed := AppendAudit(ChallengeRecord(lib, policy, challenge), env.audit);
      if !confirmed {
        reply := ClearUnavailable();
        return;
      }
      pending := Some(PendingChallenge(challenge, expiryTick.value, None));
      history := history + [Challenged(request, challenge, issuedTick, issuedAt)];
      return Issued(challenge);
    }

    method AttestLocked(attestation: Attestation, env: Environment) returns (reply: Reply)
      modifies this
      ensures Outcome(World(), reply) == AttestStep(lib, policy, old(World()), attestation, env)
    {
      if env.utc.None? || env.tick.None? {
        reply := ClearUnavailable();
        return;
      }
      if pending.None? || !AttestationVerified(lib, policy, pending.value, attestation, env.tick.value, env.utc.value) {
        pending := None;
        history := history + [Spent];
        return Rejected(AuthenticationRequired);
      }
      pending := Some(pending.value.(attestation := Some(attestation)));
      history := history + [Attested(attestation, env.tick.value, env.utc.value)];
      return Done;
    }

    method ConsumeLocked(challengeId: Uuid) returns (reply: Reply)
      modifies this
      ensures Outcome(World(), reply) == ConsumeStep(old(World()), challengeId)
    {
      if pending.None? || pending.value.challenge.challengeId != challengeId {
        return Rejected(AuthenticationRequired);
      }
      pending := None;
      history := history + [Spent];
      return Done;
    }

    method ExchangeLocked(request: ExchangeRequest, env: Environment) returns (reply: Reply)
      modifies this
      ensures Outcome(World(), reply) == ExchangeStep(lib, policy, old(World()), request, env)
    {
      if env.utc.None? || env.tick.None? {
        reply := ClearUnavailable();
        return;
      }
      var now, tick := env.utc.value, env.tick.value;
      var nonce, canonical := DecodeHex32(request.clientNonce);
      var valid := pending.Some?
        && request.schema == EXCHANGE_SCHEMA
        && request.challengeId == pending.value.challenge.challengeId
        && pending.value.attestation.Some?
        && tick < pending.value.expiryTick
        && now < pending.value.challenge.expiresAt
        && ChallengeMatchesPolicy(lib, pending.value.challenge, policy)
        && lib.nonceDigest(nonce) == pending.value.challenge.clientNonceDigest
        && canonical;
      var taken := pending;
      pending := None;
      if !valid {
        history := history + [Spent];
        return Rejected(AuthenticationRequired);
      }
      if env.uuid.None? || !lib.isV7(env.uuid.value) || env.random.None? {
        reply := ClearUnavailable();
        return;
      }
      var absoluteTick := CheckedAdd64(tick, SESSION_ABSOLUTE_TTL_MS);
      var idleTick := CheckedAdd64(tick, SESSION_IDLE_TTL_MS);
      if absoluteTick.None? || idleTick.None?
        || now + SESSION_ABSOLUTE_TTL_MS > lib.lastInstant || now + SESSION_IDLE_TTL_MS > lib.lastInstant
      {
        reply := ClearUnavailable();
        return;
      }
      var challenge := taken.value.challenge;
      var authority := MakeSession(policy, challenge.granted, env.uuid.value, now);
      if !lib.encodesSession(authority) || !lib.encodes(challenge) {
        reply := ClearUnavailable();
        return;
      }
      var replaced := if session.Some? then Some(session.value.authority.sessionId) else None;
      var confirmed := AppendAudit(SessionRecord(lib, policy, challenge, authority, replaced), env.audit);
      if !confirmed {
        reply := ClearUnavailable();
        return;
      }
      session := Some(ActiveSession(
        authority, lib.tokenDigest(env.random.value), absoluteTick.value, idleTick.value));
      history := history + [Opened(request, authority, env.random.value, replaced, tick, now)];
      return SessionGranted(authority);
    }

    method AuthenticateLocked(headers: seq<Bytes>, required: Option<Capabilities>, env: Environment)
      returns (error: Option<AuthError>, authority: Option<ActiveSession>, refreshed: u64)
      modifies this
      ensures var a := Authenticate(lib, policy, old(World()), headers, required, env);
        && World() == a.world
        && (if a.Denied? then error == Some(a.error)
            else error.None? && authority == Some(a.session) && env.tick == Some(a.tick) && refreshed == a.refreshed)
    {
      authority, refreshed := None, 0;
      if env.tick.None? {
        var _ := ClearUnavailable();
        return Some(ControlUnavailable), None, 0;
      }
      var tick := env.tick.value;
      if session.Some? && (tick >= session.value.absoluteExpiryTick || tick >= session.value.idleExpiryTick) {
        var expired := session.value;
        session := None;
        var confirmed := AppendAudit(ExpiryRecord(lib, policy, expired.authority), env.audit);
        if !confirmed {
          var _ := ClearUnavailable();
          return Some(ControlUnavailable), None, 0;
        }
        history := history + [Expired(expired.authority.sessionId, tick)];
      }
      if session.None? {
        return Some(AuthenticationRequired), None, 0;
      }
      var active := session.value;
      var selected := if |headers| == 1 then headers[0] else [];
      var candidate, canonical := DecodeHex32(selected);
      if !canonical || |headers| != 1 || lib.tokenDigest(candidate) != active.tokenDigest
        || !SessionMatchesPolicy(active.authority, policy)
      {
        return Some(AuthenticationRequired), None, 0;
      }
      if !Holds(required, active.authority.granted) {
        return Some(CapabilityRequired), None, 0;
      }
      var deadline := CheckedAdd64(tick, SESSION_IDLE_TTL_MS);
      if deadline.None? {
        var _ := ClearUnavailable();
        return Some(ControlUnavailable), None, 0;
      }
      refreshed := if deadline.value < active.absoluteExpiryTick then deadline.value else active.absoluteExpiryTick;
      return None, Some(active), refreshed;
    }

    method AuthorizeLocked(
        headers: seq<Bytes>, required: Option<Capabilities>, callbackSucceeds: bool, env: Environment)
      returns (reply: Reply)
      modifies this
      ensures Outcome(World(), reply)
           == AuthorizeStep(lib, policy, old(World()), headers, required, callbackSucceeds, env)
    {
      if required.Some? && !IsCanonical(required.value) {
        return Rejected(InvalidRequest);
      }
      var error, active, refreshed := AuthenticateLocked(headers, required, env);
      if error.Some? {
        return Rejected(error.value);
      }
      history := history
        + [Entered(active.value.authority.sessionId, headers, required, env.tick.value, callbackSucceeds)];
      if !callbackSucceeds {
        return CallbackFailed;
      }
      session := Some(active.value.(idleExpiryTick := refreshed));
      return Done;
    }

    method RevokeLocked(headers: seq<Bytes>, revokeSucceeds: bool, env: Environment) returns (reply: Reply)
      modifies this
      ensures Outcome(World(), reply) == RevokeStep(lib, policy, old(World()), headers, revokeSucceeds, env)
    {
      var error, active, _ := AuthenticateLocked(headers, None, env);
      if error.Some? {
        return Rejected(error.value);
      }
      history := history + [Revoked(active.value.authority.sessionId, headers, env.tick.value, revokeSucceeds)];
      session := None;
      if !revokeSucceeds {
        pending := None;
        return CallbackFailed;
      }
      return Done;
    }

    method ShutdownLocked(env: Environment) returns (reply: Reply)
      modifies this
      ensures Outcome(World(), reply) == ShutdownStep(old(World()), env)
    {
      var confirmed := AppendAudit(SHUTDOWN_RECORD, env.audit);
      if !confirmed {
        reply := ClearUnavailable();
        return;
      }
      pending := None;
      session := None;
      history := history + [Stopped];
      return Done;
    }

    // ----- the public operations

    /** A new challenge, unless one is pending. */
    method IssueChallenge(request: IssueRequest, env: Environment) returns (reply: Reply)
      modifies this
      ensures Outcome(World(), reply) == IssueStep(lib, policy, old(World()), request, env)
      ensures Keeps(old(Valid()), old(World()), Issue(request, env), reply)
      ensures Untouched(old(World()), reply)
    {
      hide Inv;
      reply := IssueLocked(request, env);
      StepKeeps(old(World()), Issue(request, env), reply);
    }

    /** The human's signature on the pending challenge. */
    method SubmitAttestation(attestation: Attestation, env: Environment) returns (reply: Reply)
      modifies this
      ensures Outcome(World(), reply) == AttestStep(lib, policy, old(World()), attestation, env)
      ensures Keeps(old(Valid()), old(World()), Attest(attestation, env), reply)
      ensures Untouched(old(World()), reply)
    {
      hide Inv;
      reply := AttestLocked(attestation, env);
      StepKeeps(old(World()), Attest(attestation, env), reply);
    }

    /** Drops a challenge whose ceremony failed. */
    method ConsumeFailedChallenge(challengeId: Uuid) returns (reply: Reply)
      modifies this
      ensures Outcome(World(), reply) == ConsumeStep(old(World()), challengeId)
      ensures Keeps(old(Valid()), old(World()), ConsumeFailed(challengeId), reply)
      ensures Untouched(old(World()), reply)
    {
      hide Inv;
      reply := ConsumeLocked(challengeId);
      StepKeeps(old(World()), ConsumeFailed(challengeId), reply);
    }

    /** A session for the attested challenge, which is spent either way. */
    method ExchangeChallenge(request: ExchangeRequest, env: Environment) returns (reply: Reply)
      modifies this
      ensures Outcome(World(), reply) == ExchangeStep(lib, policy, old(World()), request, env)
      ensures Keeps(old(Valid()), old(World()), Exchange(request, env), reply)
      ensures Untouched(old(World()), reply) && pending.None?
    {
      hide Inv;
      reply := ExchangeLocked(request, env);
      StepKeeps(old(World()), Exchange(request, env), reply);
      ExchangeConsumesChallenge(lib, policy, old(World()), request, env);
    }

    /** Runs a callback under the session. */
    method AuthorizeWith(headers: seq<Bytes>, required: Option<Capabilities>, callbackSucceeds: bool, env: Environment)
      returns (reply: Reply)
      modifies this
      ensures Outcome(World(), reply)
           == AuthorizeStep(lib, policy, old(World()), headers, required, callbackSucceeds, env)
      ensures Keeps(old(Valid()), old(World()), Authorize(headers, required, callbackSucceeds, env), reply)
      ensures old(Valid()) ==> (reply.Done? || reply.CallbackFailed? <==>
        && (required.Some? ==> IsCanonical(required.value))
        && env.tick.Some? && env.tick.value + 5 * MINUTE <= U64_MAX
        && MayEnter(lib, old(history), headers, required, env.tick.value))
    {
      hide Inv;
      hide MayEnter;
      hide AuthorizeStep;
      if Valid() {
        EntersExactlyWhen(lib, policy, World(), headers, required, callbackSucceeds, env);
      }
      reply := AuthorizeLocked(headers, required, callbackSucceeds, env);
      StepKeeps(old(World()), Authorize(headers, required, callbackSucceeds, env), reply);
    }

    /** Ends the session on its holder's request. */
    method RevokeWith(headers: seq<Bytes>, revokeSucceeds: bool, env: Environment) returns (reply: Reply)
      modifies this
      ensures Outcome(World(), reply) == RevokeStep(lib, policy, old(World()), headers, revokeSucceeds, env)
      ensures Keeps(old(Valid()), old(World()), Revoke(headers, revokeSucceeds, env), reply)
      ensures old(Valid()) ==> (reply.Done? || reply.CallbackFailed? <==>
        && env.tick.Some? && env.tick.value + 5 * MINUTE <= U64_MAX
        && MayEnter(lib, old(history), headers, None, env.tick.value))
      ensures reply.Done? || reply.CallbackFailed? ==> session.None?
    {
      hide Inv;
      hide MayEnter;
      if Valid() {
        RevokesExactlyWhen(lib, policy, World(), headers, revokeSucceeds, env);
      }
      reply := RevokeLocked(headers, revokeSucceeds, env);
      StepKeeps(old(World()), Revoke(headers, revokeSucceeds, env), reply);
    }

    /** Forgets everything, and says so in the log. */
    method InvalidateForShutdown(env: Environment) returns (reply: Reply)
      modifies this
      ensures Outcome(World(), reply) == ShutdownStep(old(World()), env)
      ensures Keeps(old(Valid()), old(World()), Shutdown(env), reply)
    {
      hide Inv;
      reply := ShutdownLocked(env);
      StepKeeps(old(World()), Shutdown(env), reply);
    }
  }
}
