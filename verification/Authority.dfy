/** The operator authentication authority: one pending challenge, one session,
    fail-closed on every failure of the clock, the entropy source or the audit
    store.  Each public call holds the lock, so each is one atomic step. */
module Authority {
  import opened Prelude

  type Digest = int
  type PublicKey = int
  type byte = n: nat | n < 256
  type Bytes = seq<byte>
  type Bytes32 = b: Bytes | |b| == 32 witness seq(32, _ => 0)

  datatype Capability = ApprovalDecide | ApprovalRead | AuditRead | RunCancel | RunRead | RunResume

  function Rank(c: Capability): nat {
    match c
    case ApprovalDecide => 0
    case ApprovalRead => 1
    case AuditRead => 2
    case RunCancel => 3
    case RunRead => 4
    case RunResume => 5
  }

  type Capabilities = seq<Capability>

  predicate IsCanonical(cs: Capabilities) {
    && cs != [] && |cs| <= 6
    && forall i :: 0 <= i < |cs| - 1 ==> Rank(cs[i]) < Rank(cs[i + 1])
  }

  const CHALLENGE_TTL_MS: nat := 120_000
  const SESSION_ABSOLUTE_TTL_MS: nat := 900_000
  const SESSION_IDLE_TTL_MS: nat := 300_000

  const CHALLENGE_SCHEMA := "proof.operator.session.challenge/v1"
  const ISSUE_SCHEMA := "proof.operator.session.challenge-issue-request/v1"
  const ATTESTATION_SCHEMA := "proof.operator.session.attestation/v1"
  const EXCHANGE_SCHEMA := "proof.operator.session.exchange-request/v1"

  datatype AuthPolicy = AuthPolicy(
    workspaceId: Uuid, workspaceFingerprint: Digest, serverInstanceId: Uuid, humanId: Uuid,
    humanPublicKey: PublicKey, keyFingerprint: Digest, authEpoch: u64, policyRevision: u64, origin: string,
    enrolled: Capabilities, workspace: Capabilities, supported: Capabilities)

  datatype SessionChallenge = SessionChallenge(
    schema: string, challengeId: Uuid, serverInstanceId: Uuid, serverNonce: Bytes32, workspaceId: Uuid,
    workspaceFingerprint: Digest, humanId: Uuid, keyFingerprint: Digest, authEpoch: u64, policyRevision: u64,
    origin: string, clientNonceDigest: Digest, requested: Capabilities, granted: Capabilities,
    issuedAt: Time, expiresAt: Time, challengeTtlMs: nat, absoluteTtlMs: nat, idleTtlMs: nat)

  datatype IssueRequest = IssueRequest(schema: string, clientNonceDigest: Digest, requested: Capabilities)

  datatype Attestation = Attestation(
    schema: string, challenge: SessionChallenge, algorithm: string, signature: string, signedBytesDigest: Digest)

  datatype ExchangeRequest = ExchangeRequest(schema: string, challengeId: Uuid, clientNonce: Bytes)

  datatype AuthorizedSession = AuthorizedSession(
    sessionId: Uuid, workspaceId: Uuid, serverInstanceId: Uuid, humanId: Uuid, authEpoch: u64,
    policyRevision: u64, origin: string, granted: Capabilities, issuedAt: Time, absoluteExpiresAt: Time)

  datatype PendingChallenge = PendingChallenge(
    challenge: SessionChallenge, expiryTick: u64, attestation: Option<Attestation>)

  datatype ActiveSession = ActiveSession(
    authority: AuthorizedSession, tokenDigest: Digest, absoluteExpiryTick: u64, idleExpiryTick: u64)

  datatype AuthState = AuthState(pending: Option<PendingChallenge>, session: Option<ActiveSession>)

  const CLEARED := AuthState(None, None)

  datatype AuthError =
    InvalidRequest | AuthenticationRequired | CapabilityRequired | ChallengePending | ControlUnavailable

  /** Library functions the authority relies on, arbitrary here. */
  datatype Library = Library(
    encodes: SessionChallenge -> bool,
    encodesSession: AuthorizedSession -> bool,
    challengeDigest: SessionChallenge -> Digest,
    sessionDigest: AuthorizedSession -> Digest,
    verifies: (PublicKey, SessionChallenge, string) -> bool,
    nonceDigest: Bytes32 -> Digest,
    tokenDigest: Bytes32 -> Digest,
    isV7: Uuid -> bool,
    lastInstant: Time)

  // ----- the audit store

  datatype EventKind = ChallengeIssued | SessionIssued | SessionReplaced | SessionExpired | ControlShutdown

  datatype AuditRequest = AuditRequest(
    kind: EventKind, challengeId: Option<Uuid>, sessionId: Option<Uuid>, relatedSessionId: Option<Uuid>,
    humanId: Option<Uuid>, challengeDigest: Option<Digest>, sessionDigest: Option<Digest>)

  datatype AuditOutcome = AuditAccepted | AuditExpired

  /** What the store reports back: the event it recorded. */
  datatype AuditEvent = AuditEvent(schemaValid: bool, echo: AuditRequest, outcome: AuditOutcome)

  /** `written` says whether a record reached the log, `event` what was reported;
      a record may be written and the report still be missing or wrong. */
  datatype AuditReply = AuditReply(written: bool, event: Option<AuditEvent>)

  predicate ResultMatches(request: AuditRequest, event: AuditEvent) {
    && event.schemaValid
    && event.echo == request
    && event.outcome == if request.kind == SessionExpired then AuditExpired else AuditAccepted
  }

  predicate Confirmed(request: AuditRequest, reply: AuditReply) {
    reply.event.Some? && ResultMatches(request, reply.event.value)
  }

  /** Answers of the clocks, the entropy source and the audit store to one call. */
  datatype Environment = Environment(
    utc: Option<Time>, tick: Option<u64>, uuid: Option<Uuid>, random: Option<Bytes32>, audit: AuditReply)

  // ----- calls, replies and the record of what happened

  datatype Call =
    | Issue(issue: IssueRequest, env: Environment)
    | Attest(attestation: Attestation, env: Environment)
    | ConsumeFailed(challengeId: Uuid)
    | Exchange(exchange: ExchangeRequest, env: Environment)
    | Authorize(headers: seq<Bytes>, required: Option<Capabilities>, callbackSucceeds: bool, env: Environment)
    | Revoke(headers: seq<Bytes>, revokeSucceeds: bool, env: Environment)
    | Shutdown(env: Environment)

  datatype Reply =
    | Done
    | Issued(challenge: SessionChallenge)
    | SessionGranted(authority: AuthorizedSession)
    | CallbackFailed
    | Rejected(error: AuthError)

  /** What an outside observer records, with what the call was given and drew;
      `Spent` is a challenge used up without a session, `Lost` the loss of all
      state on a failure, `durably` whether the revocation was stored. */
  datatype Event =
    | Challenged(issue: IssueRequest, challenge: SessionChallenge, tick: u64, now: Time)
    | Attested(attestation: Attestation, tick: u64, now: Time)
    | Spent
    | Opened(exchange: ExchangeRequest, authority: AuthorizedSession, token: Bytes32, replaced: Option<Uuid>,
             tick: u64, now: Time)
    | Entered(sessionId: Uuid, headers: seq<Bytes>, required: Option<Capabilities>, tick: u64, refreshes: bool)
    | Revoked(sessionId: Uuid, headers: seq<Bytes>, tick: u64, durably: bool)
    | Expired(sessionId: Uuid, tick: u64)
    | Stopped
    | Lost

  datatype World = World(state: AuthState, log: seq<AuditRequest>, history: seq<Event>)

  const START := World(CLEARED, [], [])

  datatype Outcome = Outcome(world: World, reply: Reply)

  // ----- small helpers of the source

  function Filter(
      cs: Capabilities, enrolled: Capabilities, workspace: Capabilities, supported: Capabilities): Capabilities
  {
    if cs == [] then []
    else
      var rest := Filter(cs[1..], enrolled, workspace, supported);
      if cs[0] in enrolled && cs[0] in workspace && cs[0] in supported then [cs[0]] + rest else rest
  }

  /** Absent when nothing is left: an empty capability set is not representable. */
  function Intersect(p: AuthPolicy, requested: Capabilities): Option<Capabilities> {
    var granted := Filter(requested, p.enrolled, p.workspace, p.supported);
    if IsCanonical(granted) then Some(granted) else None
  }

  predicate ChallengeMatchesPolicy(lib: Library, c: SessionChallenge, p: AuthPolicy) {
    && c.schema == CHALLENGE_SCHEMA
    && lib.isV7(c.challengeId)
    && c.serverInstanceId == p.serverInstanceId
    && c.workspaceId == p.workspaceId
    && c.workspaceFingerprint == p.workspaceFingerprint
    && c.humanId == p.humanId
    && c.keyFingerprint == p.keyFingerprint
    && c.authEpoch == p.authEpoch
    && c.policyRevision == p.policyRevision
    && c.origin == p.origin
    && c.challengeTtlMs == CHALLENGE_TTL_MS
    && c.absoluteTtlMs == SESSION_ABSOLUTE_TTL_MS
    && c.idleTtlMs == SESSION_IDLE_TTL_MS
    && IsCanonical(c.requested)
    && IsCanonical(c.granted)
  }

  function MakeChallenge(
      p: AuthPolicy, request: IssueRequest, granted: Capabilities, id: Uuid, nonce: Bytes32, now: Time)
    : SessionChallenge
  {
    SessionChallenge(
      CHALLENGE_SCHEMA, id, p.serverInstanceId, nonce, p.workspaceId, p.workspaceFingerprint, p.humanId,
      p.keyFingerprint, p.authEpoch, p.policyRevision, p.origin, request.clientNonceDigest, request.requested,
      granted, now, now + CHALLENGE_TTL_MS, CHALLENGE_TTL_MS, SESSION_ABSOLUTE_TTL_MS, SESSION_IDLE_TTL_MS)
  }

  function MakeSession(p: AuthPolicy, granted: Capabilities, id: Uuid, now: Time): AuthorizedSession {
    AuthorizedSession(
      id, p.workspaceId, p.serverInstanceId, p.humanId, p.authEpoch, p.policyRevision, p.origin, granted,
      now, now + SESSION_ABSOLUTE_TTL_MS)
  }

  predicate SessionMatchesPolicy(s: AuthorizedSession, p: AuthPolicy) {
    && s.workspaceId == p.workspaceId && s.serverInstanceId == p.serverInstanceId && s.humanId == p.humanId
    && s.authEpoch == p.authEpoch && s.policyRevision == p.policyRevision && s.origin == p.origin
  }

  predicate AttestationVerified(
      lib: Library, p: AuthPolicy, pending: PendingChallenge, a: Attestation, tick: u64, now: Time)
  {
    && pending.attestation.None?
    && tick < pending.expiryTick
    && now < pending.challenge.expiresAt
    && a.schema == ATTESTATION_SCHEMA
    && a.algorithm == "ed25519"
    && a.challenge == pending.challenge
    && ChallengeMatchesPolicy(lib, a.challenge, p)
    && lib.encodes(a.challenge)
    && a.signedBytesDigest == lib.challengeDigest(a.challenge)
    && lib.verifies(p.humanPublicKey, a.challenge, a.signature)
  }

  // ----- hexadecimal secrets

  function DecodeNibble(b: byte): (nat, bool) {
    if 48 <= b <= 57 then (b - 48, true)
    else if 97 <= b <= 102 then (b - 97 + 10, true)
    else (0, false)
  }

  /** Positions past the end read as zero. */
  function ByteAt(input: Bytes, i: nat): byte {
    if i < |input| then input[i] else 0
  }

  function Decoded(input: Bytes): Bytes32 {
    seq(32, i requires 0 <= i < 32 =>
      16 * DecodeNibble(ByteAt(input, 2 * i)).0 + DecodeNibble(ByteAt(input, 2 * i + 1)).0)
  }

  predicate IsHex32(input: Bytes) {
    |input| == 64 && forall i :: 0 <= i < 64 ==> DecodeNibble(input[i]).1
  }

  predicate ExchangeValid(
      lib: Library, p: AuthPolicy, pending: Option<PendingChallenge>, r: ExchangeRequest, tick: u64, now: Time)
  {
    && pending.Some?
    && r.schema == EXCHANGE_SCHEMA
    && r.challengeId == pending.value.challenge.challengeId
    && pending.value.attestation.Some?
    && tick < pending.value.expiryTick
    && now < pending.value.challenge.expiresAt
    && ChallengeMatchesPolicy(lib, pending.value.challenge, p)
    && lib.nonceDigest(Decoded(r.clientNonce)) == pending.value.challenge.clientNonceDigest
    && IsHex32(r.clientNonce)
  }

  predicate Lapsed(s: ActiveSession, tick: u64) {
    tick >= s.absoluteExpiryTick || tick >= s.idleExpiryTick
  }

  predicate TokenAccepted(lib: Library, s: ActiveSession, headers: seq<Bytes>) {
    && |headers| == 1
    && IsHex32(headers[0])
    && lib.tokenDigest(Decoded(headers[0])) == s.tokenDigest
  }

  predicate Holds(required: Option<Capabilities>, granted: Capabilities) {
    required.Some? ==> forall i :: 0 <= i < |required.value| ==> required.value[i] in granted
  }

  // ----- the steps

  function Logged(log: seq<AuditRequest>, request: AuditRequest, reply: AuditReply): seq<AuditRequest> {
    if reply.written then log + [request] else log
  }

  function Unavailable(w: World): Outcome {
    Outcome(w.(state := CLEARED, history := w.history + [Lost]), Rejected(ControlUnavailable))
  }

  function ChallengeRecord(lib: Library, p: AuthPolicy, c: SessionChallenge): AuditRequest {
    AuditRequest(ChallengeIssued, Some(c.challengeId), None, None, Some(p.humanId), Some(lib.challengeDigest(c)), None)
  }

  function SessionRecord(lib: Library, p: AuthPolicy, c: SessionChallenge, s: AuthorizedSession, replaced: Option<Uuid>)
    : AuditRequest
  {
    AuditRequest(
      if replaced.Some? then SessionReplaced else SessionIssued, Some(c.challengeId), Some(s.sessionId), replaced,
      Some(p.humanId), Some(lib.challengeDigest(c)), Some(lib.sessionDigest(s)))
  }

  function ExpiryRecord(lib: Library, p: AuthPolicy, s: AuthorizedSession): AuditRequest {
    AuditRequest(SessionExpired, None, Some(s.sessionId), None, Some(p.humanId), None, Some(lib.sessionDigest(s)))
  }

  const SHUTDOWN_RECORD := AuditRequest(ControlShutdown, None, None, None, None, None, None)

  function IssueStep(lib: Library, p: AuthPolicy, w: World, request: IssueRequest, env: Environment): Outcome {
    var granted := Intersect(p, request.requested);
    if request.schema != ISSUE_SCHEMA || !IsCanonical(request.requested) || granted.None? then
      Outcome(w, Rejected(InvalidRequest))
    else if env.utc.None? || env.tick.None? then Unavailable(w)
    else
      var now, tick := env.utc.value, env.tick.value;
      if w.state.pending.Some? && tick < w.state.pending.value.expiryTick
        && now < w.state.pending.value.challenge.expiresAt
      then Outcome(w, Rejected(ChallengePending))
      else if env.uuid.None? || !lib.isV7(env.uuid.value) || env.random.None?
        || CheckedAdd64(tick, CHALLENGE_TTL_MS).None? || now + CHALLENGE_TTL_MS > lib.lastInstant
      then Unavailable(w)
      else
        var challenge := MakeChallenge(p, request, granted.value, env.uuid.value, env.random.value, now);
        if !lib.encodes(challenge) then Unavailable(w)
        else
          var record := ChallengeRecord(lib, p, challenge);
          var w' := w.(log := Logged(w.log, record, env.audit));
          if !Confirmed(record, env.audit) then Unavailable(w')
          else
            Outcome(
              w'.(state := w.state.(pending := Some(PendingChallenge(challenge, tick + CHALLENGE_TTL_MS, None))),
                  history := w.history + [Challenged(request, challenge, tick, now)]),
              Issued(challenge))
  }

  function AttestStep(lib: Library, p: AuthPolicy, w: World, a: Attestation, env: Environment): Outcome {
    if env.utc.None? || env.tick.None? then Unavailable(w)
    else if w.state.pending.None?
      || !AttestationVerified(lib, p, w.state.pending.value, a, env.tick.value, env.utc.value)
    then
      Outcome(
        w.(state := w.state.(pending := None), history := w.history + [Spent]), Rejected(AuthenticationRequired))
    else
      Outcome(
        w.(state := w.state.(pending := Some(w.state.pending.value.(attestation := Some(a)))),
           history := w.history + [Attested(a, env.tick.value, env.utc.value)]),
        Done)
  }

  function ConsumeStep(w: World, challengeId: Uuid): Outcome {
    if w.state.pending.None? || w.state.pending.value.challenge.challengeId != challengeId
    then Outcome(w, Rejected(AuthenticationRequired))
    else Outcome(w.(state := w.state.(pending := None), history := w.history + [Spent]), Done)
  }

  function ExchangeStep(lib: Library, p: AuthPolicy, w: World, r: ExchangeRequest, env: Environment): Outcome {
    if env.utc.None? || env.tick.None? then Unavailable(w)
    else
      var now, tick := env.utc.value, env.tick.value;
      if !ExchangeValid(lib, p, w.state.pending, r, tick, now) then
        Outcome(
          w.(state := w.state.(pending := None), history := w.history + [Spent]), Rejected(AuthenticationRequired))
      else if env.uuid.None? || !lib.isV7(env.uuid.value) || env.random.None?
        || CheckedAdd64(tick, SESSION_ABSOLUTE_TTL_MS).None? || CheckedAdd64(tick, SESSION_IDLE_TTL_MS).None?
        || now + SESSION_ABSOLUTE_TTL_MS > lib.lastInstant || now + SESSION_IDLE_TTL_MS > lib.lastInstant
      then Unavailable(w)
      else
        var challenge := w.state.pending.value.challenge;
        var authority := MakeSession(p, challenge.granted, env.uuid.value, now);
        if !lib.encodesSession(authority) || !lib.encodes(challenge) then Unavailable(w)
        else
          var replaced := if w.state.session.Some? then Some(w.state.session.value.authority.sessionId) else None;
          var record := SessionRecord(lib, p, challenge, authority, replaced);
          var w' := w.(log := Logged(w.log, record, env.audit));
          if !Confirmed(record, env.audit) then Unavailable(w')
          else
            Outcome(
              w'.(state := AuthState(None, Some(ActiveSession(
                    authority, lib.tokenDigest(env.random.value), tick + SESSION_ABSOLUTE_TTL_MS,
                    tick + SESSION_IDLE_TTL_MS))),
                  history := w.history + [Opened(r, authority, env.random.value, replaced, tick, now)]),
              SessionGranted(authority))
  }

  datatype Authentication =
    | Denied(world: World, error: AuthError)
    | Granted(world: World, session: ActiveSession, tick: u64, refreshed: u64)

  /** The state after an overdue session has been taken down. */
  function ExpireSession(lib: Library, p: AuthPolicy, w: World, tick: u64, reply: AuditReply): Option<World> {
    if w.state.session.None? || !Lapsed(w.state.session.value, tick) then Some(w)
    else
      var record := ExpiryRecord(lib, p, w.state.session.value.authority);
      if !Confirmed(record, reply) then None
      else
        Some(w.(
          state := w.state.(session := None), log := Logged(w.log, record, reply),
          history := w.history + [Expired(w.state.session.value.authority.sessionId, tick)]))
  }

  function Authenticate(
      lib: Library, p: AuthPolicy, w: World, headers: seq<Bytes>, required: Option<Capabilities>, env: Environment)
    : Authentication
  {
    if env.tick.None? then Denied(Unavailable(w).world, ControlUnavailable)
    else
      var tick := env.tick.value;
      match ExpireSession(lib, p, w, tick, env.audit)
      case None =>
        var record := ExpiryRecord(lib, p, w.state.session.value.authority);
        Denied(Unavailable(w.(log := Logged(w.log, record, env.audit))).world, ControlUnavailable)
      case Some(w') =>
        if w'.state.session.None? then Denied(w', AuthenticationRequired)
        else
          var active := w'.state.session.value;
          if !TokenAccepted(lib, active, headers) || !SessionMatchesPolicy(active.authority, p) then
            Denied(w', AuthenticationRequired)
          else if !Holds(required, active.authority.granted) then Denied(w', CapabilityRequired)
          else if CheckedAdd64(tick, SESSION_IDLE_TTL_MS).None? then Denied(Unavailable(w').world, ControlUnavailable)
          else
            var deadline := tick + SESSION_IDLE_TTL_MS;
            Granted(w', active, tick,
              if deadline < active.absoluteExpiryTick then deadline else active.absoluteExpiryTick)
  }

  function AuthorizeStep(
      lib: Library, p: AuthPolicy, w: World, headers: seq<Bytes>, required: Option<Capabilities>,
      callbackSucceeds: bool, env: Environment): Outcome
  {
    if required.Some? && !IsCanonical(required.value) then Outcome(w, Rejected(InvalidRequest))
    else
      match Authenticate(lib, p, w, headers, required, env)
      case Denied(w', error) => Outcome(w', Rejected(error))
      case Granted(w', active, tick, refreshed) =>
        var entered := w'.(history := w'.history
          + [Entered(active.authority.sessionId, headers, required, tick, callbackSucceeds)]);
        if !callbackSucceeds then Outcome(entered, CallbackFailed)
        else
          Outcome(
            entered.(state := w'.state.(session := Some(active.(idleExpiryTick := refreshed)))),
            Done)
  }

  function RevokeStep(
      lib: Library, p: AuthPolicy, w: World, headers: seq<Bytes>, revokeSucceeds: bool, env: Environment): Outcome
  {
    match Authenticate(lib, p, w, headers, None, env)
    case Denied(w', error) => Outcome(w', Rejected(error))
    case Granted(w', active, tick, _) =>
      var revoked := w'.(history := w'.history
        + [Revoked(active.authority.sessionId, headers, tick, revokeSucceeds)]);
      if revokeSucceeds then Outcome(revoked.(state := w'.state.(session := None)), Done)
      else Outcome(revoked.(state := CLEARED), CallbackFailed)
  }

  function ShutdownStep(w: World, env: Environment): Outcome {
    var w' := w.(log := Logged(w.log, SHUTDOWN_RECORD, env.audit));
    if !Confirmed(SHUTDOWN_RECORD, env.audit) then Unavailable(w')
    else Outcome(w'.(state := CLEARED, history := w.history + [Stopped]), Done)
  }

  function Step(lib: Library, p: AuthPolicy, w: World, call: Call): Outcome {
    match call
    case Issue(request, env) => IssueStep(lib, p, w, request, env)
    case Attest(a, env) => AttestStep(lib, p, w, a, env)
    case ConsumeFailed(id) => ConsumeStep(w, id)
    case Exchange(r, env) => ExchangeStep(lib, p, w, r, env)
    case Authorize(headers, required, succeeds, env) => AuthorizeStep(lib, p, w, headers, required, succeeds, env)
    case Revoke(headers, succeeds, env) => RevokeStep(lib, p, w, headers, succeeds, env)
    case Shutdown(env) => ShutdownStep(w, env)
  }
}
