/** The record of what the authentication authority did, as an outside observer
    keeps it: what each entry guarantees, what is pending or active according to
    it, what must be in the audit log, and that the state of the authority is what
    the record says. */
module AuthorityRecord {
  import opened Prelude
  import opened Authority

  // ----- secrets as text

  const HEX := "0123456789abcdef"

  /** Two lower-case hexadecimal digits for each byte, high half first. */
  function HexText(b: Bytes32): (text: Bytes)
    ensures |text| == 64
  {
    seq(64, k requires 0 <= k < 64 => HEX[if k % 2 == 0 then b[k / 2] / 16 else b[k / 2] % 16] as int)
  }

  lemma NibbleRoundTrip(n: nat)
    requires n < 16
    ensures DecodeNibble(HEX[n] as int) == (n, true)
  {
  }

  lemma NibbleIsHex(b: byte)
    requires DecodeNibble(b).1
    ensures DecodeNibble(b).0 < 16 && HEX[DecodeNibble(b).0] as int == b
  {
  }

  lemma HexTextAt(b: Bytes32, i: nat)
    requires i < 32
    ensures HexText(b)[2 * i] == HEX[b[i] / 16] as int && HexText(b)[2 * i + 1] == HEX[b[i] % 16] as int
  {
    assert (2 * i) / 2 == i && (2 * i) % 2 == 0;
    assert (2 * i + 1) / 2 == i && (2 * i + 1) % 2 == 1;
  }

  lemma HexPair(b: Bytes32, i: nat)
    requires i < 32
    ensures DecodeNibble(HexText(b)[2 * i]) == (b[i] / 16, true)
    ensures DecodeNibble(HexText(b)[2 * i + 1]) == (b[i] % 16, true)
  {
    HexTextAt(b, i);
    NibbleRoundTrip(b[i] / 16);
    NibbleRoundTrip(b[i] % 16);
  }

  lemma DecodedAt(input: Bytes, i: nat)
    requires |input| == 64 && i < 32
    ensures Decoded(input)[i] == 16 * DecodeNibble(input[2 * i]).0 + DecodeNibble(input[2 * i + 1]).0
  {
  }

  /** Decoding undoes the text of every secret. */
  lemma HexRoundTrip(b: Bytes32)
    ensures IsHex32(HexText(b)) && Decoded(HexText(b)) == b
  {
    var text := HexText(b);
    hide HexText;
    hide Decoded;
    hide DecodeNibble;
    forall k | 0 <= k < 64 ensures DecodeNibble(text[k]).1 {
      HexPair(b, k / 2);
      assert k == 2 * (k / 2) || k == 2 * (k / 2) + 1;
    }
    forall i | 0 <= i < 32 ensures Decoded(text)[i] == b[i] {
      HexPair(b, i);
      DecodedAt(text, i);
    }
  }

  lemma Halves(n: nat, high: nat, low: nat)
    requires n == 16 * high + low && low < 16
    ensures n / 16 == high && n % 16 == low
  {
  }

  lemma HexPairBack(input: Bytes, i: nat)
    requires IsHex32(input) && i < 32
    ensures HexText(Decoded(input))[2 * i] == input[2 * i]
    ensures HexText(Decoded(input))[2 * i + 1] == input[2 * i + 1]
  {
    var high, low := DecodeNibble(input[2 * i]).0, DecodeNibble(input[2 * i + 1]).0;
    NibbleIsHex(input[2 * i]);
    NibbleIsHex(input[2 * i + 1]);
    DecodedAt(input, i);
    hide HexText;
    hide Decoded;
    hide DecodeNibble;
    Halves(Decoded(input)[i], high, low);
    HexTextAt(Decoded(input), i);
  }

  /** And accepts nothing else. */
  lemma OnlyHexDecodes(input: Bytes)
    requires IsHex32(input)
    ensures HexText(Decoded(input)) == input
  {
    hide HexText;
    hide Decoded;
    hide DecodeNibble;
    forall k | 0 <= k < 64 ensures HexText(Decoded(input))[k] == input[k] {
      HexPairBack(input, k / 2);
      assert k == 2 * (k / 2) || k == 2 * (k / 2) + 1;
    }
  }

  /** The call carries exactly one header, the text of a secret with the digest of
      the token. */
  ghost predicate Presents(lib: Library, headers: seq<Bytes>, token: Bytes32) {
    exists t: Bytes32 :: headers == [HexText(t)] && lib.tokenDigest(t) == lib.tokenDigest(token)
  }

  /** The text is that of a nonce with the given digest. */
  ghost predicate AnswersNonce(lib: Library, text: Bytes, digest: Digest) {
    exists n: Bytes32 :: text == HexText(n) && lib.nonceDigest(n) == digest
  }

  lemma PresentsExactlyWhen(lib: Library, s: ActiveSession, headers: seq<Bytes>, token: Bytes32)
    requires s.tokenDigest == lib.tokenDigest(token)
    ensures TokenAccepted(lib, s, headers) <==> Presents(lib, headers, token)
  {
    hide HexText;
    if TokenAccepted(lib, s, headers) {
      OnlyHexDecodes(headers[0]);
      assert headers == [HexText(Decoded(headers[0]))];
    }
    if Presents(lib, headers, token) {
      var t: Bytes32 :| headers == [HexText(t)] && lib.tokenDigest(t) == lib.tokenDigest(token);
      HexRoundTrip(t);
    }
  }

  lemma AnswersExactlyWhen(lib: Library, text: Bytes, digest: Digest)
    ensures IsHex32(text) && lib.nonceDigest(Decoded(text)) == digest <==> AnswersNonce(lib, text, digest)
  {
    hide HexText;
    if IsHex32(text) {
      OnlyHexDecodes(text);
    }
    if AnswersNonce(lib, text, digest) {
      var n: Bytes32 :| text == HexText(n) && lib.nonceDigest(n) == digest;
      HexRoundTrip(n);
    }
  }

  // ----- what the record says

  const MINUTE: nat := 60 * 1_000

  predicate EndsChallenge(e: Event) {
    e.Spent? || e.Opened? || e.Stopped? || e.Lost? || (e.Revoked? && !e.durably)
  }

  predicate EndsSession(e: Event) {
    e.Revoked? || e.Expired? || e.Stopped? || e.Lost?
  }

  /** Where the challenge now pending was issued. */
  function Challenge(h: seq<Event>): (r: Option<nat>)
    ensures r.Some? ==> r.value < |h| && h[r.value].Challenged?
    ensures r.Some? ==> forall m :: r.value < m < |h| ==> !h[m].Challenged? && !EndsChallenge(h[m])
  {
    if h == [] then None
    else
      var e := h[|h| - 1];
      if e.Challenged? then Some(|h| - 1) else if EndsChallenge(e) then None else Challenge(h[..|h| - 1])
  }

  /** Where the session now active was opened. */
  function Session(h: seq<Event>): (r: Option<nat>)
    ensures r.Some? ==> r.value < |h| && h[r.value].Opened?
    ensures r.Some? ==> forall m :: r.value < m < |h| ==> !h[m].Opened? && !EndsSession(h[m])
  {
    if h == [] then None
    else
      var e := h[|h| - 1];
      if e.Opened? then Some(|h| - 1) else if EndsSession(e) then None else Session(h[..|h| - 1])
  }

  predicate SignedSince(h: seq<Event>, j: nat) {
    exists k :: j < k < |h| && h[k].Attested?
  }

  /** When the active session was opened or last used with success. */
  function LastUse(h: seq<Event>): u64
    requires Session(h).Some?
  {
    var e := h[|h| - 1];
    if e.Opened? then e.tick
    else if e.Entered? && e.refreshes then e.tick
    else LastUse(h[..|h| - 1])
  }

  lemma Unfold(h: seq<Event>, e: Event)
    ensures Challenge(h + [e])
         == if e.Challenged? then Some(|h|) else if EndsChallenge(e) then None else Challenge(h)
    ensures Session(h + [e]) == if e.Opened? then Some(|h|) else if EndsSession(e) then None else Session(h)
    ensures Session(h + [e]).Some? ==>
      LastUse(h + [e]) == if e.Opened? || (e.Entered? && e.refreshes) then e.tick else LastUse(h)
    ensures forall j :: 0 <= j < |h| ==> (SignedSince(h + [e], j) <==> SignedSince(h, j) || e.Attested?)
    ensures !SignedSince(h + [e], |h|)
  {
    assert (h + [e])[..|h|] == h;
    forall j | 0 <= j < |h| ensures SignedSince(h + [e], j) <==> SignedSince(h, j) || e.Attested? {
      if SignedSince(h, j) {
        var k :| j < k < |h| && h[k].Attested?;
        assert (h + [e])[k].Attested?;
      }
      if e.Attested? {
        assert (h + [e])[|h|].Attested?;
      }
      if SignedSince(h + [e], j) && !e.Attested? {
        var k :| j < k < |h + [e]| && (h + [e])[k].Attested?;
        assert h[k].Attested?;
      }
    }
  }

  // ----- what each entry of the record guarantees

  /** Wanted by the request and allowed by all three lists. */
  predicate Grantable(p: AuthPolicy, requested: Capabilities, c: Capability) {
    c in requested && c in p.enrolled && c in p.workspace && c in p.supported
  }

  predicate FreshId(h: seq<Event>, id: Uuid) {
    forall i :: 0 <= i < |h| ==>
      && (h[i].Challenged? ==> h[i].challenge.challengeId != id)
      && (h[i].Opened? ==> h[i].authority.sessionId != id)
  }

  /** The challenge issued at `j` is still open. */
  predicate Timely(h: seq<Event>, j: nat, tick: u64, now: Time)
    requires j < |h| && h[j].Challenged?
  {
    tick < h[j].tick + 2 * MINUTE && now < h[j].now + 2 * MINUTE
  }

  function ChallengeFor(
      p: AuthPolicy, r: IssueRequest, granted: Capabilities, id: Uuid, nonce: Bytes32, now: Time): SessionChallenge
  {
    SessionChallenge(
      "proof.operator.session.challenge/v1", id, p.serverInstanceId, nonce, p.workspaceId, p.workspaceFingerprint,
      p.humanId, p.keyFingerprint, p.authEpoch, p.policyRevision, p.origin, r.clientNonceDigest, r.requested, granted,
      now, now + 2 * MINUTE, 2 * MINUTE, 15 * MINUTE, 5 * MINUTE)
  }

  /** A challenge repeats the policy and the request, grants exactly what may be
      granted, and comes when no other is open. */
  predicate GoodChallenge(lib: Library, p: AuthPolicy, h: seq<Event>, e: Event)
    requires e.Challenged?
  {
    var c := e.challenge;
    && e.issue.schema == "proof.operator.session.challenge-issue-request/v1"
    && IsCanonical(e.issue.requested) && IsCanonical(c.granted)
    && (forall x :: x in c.granted <==> Grantable(p, e.issue.requested, x))
    && c == ChallengeFor(p, e.issue, c.granted, c.challengeId, c.serverNonce, e.now)
    && lib.isV7(c.challengeId) && FreshId(h, c.challengeId)
    && (Challenge(h).Some? ==> !Timely(h, Challenge(h).value, e.tick, e.now))
  }

  /** The human's key signed the challenge that is pending, in time, for the first
      time. */
  predicate GoodAttestation(lib: Library, p: AuthPolicy, h: seq<Event>, a: Attestation, tick: u64, now: Time) {
    && Challenge(h).Some?
    && var j := Challenge(h).value;
    && !SignedSince(h, j) && Timely(h, j, tick, now)
    && a.challenge == h[j].challenge && lib.encodes(a.challenge)
    && a.schema == "proof.operator.session.attestation/v1" && a.algorithm == "ed25519"
    && a.signedBytesDigest == lib.challengeDigest(h[j].challenge)
    && lib.verifies(p.humanPublicKey, h[j].challenge, a.signature)
  }

  /** The exchange names the pending, signed challenge in time, and holds the nonce
      whose digest the request for the challenge gave. */
  ghost predicate MayOpen(lib: Library, h: seq<Event>, r: ExchangeRequest, tick: u64, now: Time) {
    && Challenge(h).Some?
    && var j := Challenge(h).value;
    && SignedSince(h, j) && Timely(h, j, tick, now)
    && r.schema == "proof.operator.session.exchange-request/v1"
    && r.challengeId == h[j].challenge.challengeId
    && AnswersNonce(lib, r.clientNonce, h[j].issue.clientNonceDigest)
  }

  function ActiveId(h: seq<Event>): Option<Uuid> {
    if Session(h).Some? then Some(h[Session(h).value].authority.sessionId) else None
  }

  function SessionFor(p: AuthPolicy, granted: Capabilities, id: Uuid, now: Time): AuthorizedSession {
    AuthorizedSession(
      id, p.workspaceId, p.serverInstanceId, p.humanId, p.authEpoch, p.policyRevision, p.origin, granted, now,
      now + 15 * MINUTE)
  }

  /** The session is the policy's and the challenge's, under a fresh id, and names
      the one it takes the place of. */
  ghost predicate GoodOpening(lib: Library, p: AuthPolicy, h: seq<Event>, e: Event)
    requires e.Opened?
  {
    && MayOpen(lib, h, e.exchange, e.tick, e.now)
    && e.authority == SessionFor(p, h[Challenge(h).value].challenge.granted, e.authority.sessionId, e.now)
    && FreshId(h, e.authority.sessionId)
    && e.replaced == ActiveId(h)
  }

  /** The session is active and within both deadlines. */
  predicate Alive(h: seq<Event>, tick: u64) {
    && Session(h).Some?
    && tick < h[Session(h).value].tick + 15 * MINUTE
    && tick < LastUse(h) + 5 * MINUTE
  }

  /** A caller is let in: the session is alive, the token drawn for it is presented,
      and it was granted what the call needs. */
  ghost predicate MayEnter(
      lib: Library, h: seq<Event>, headers: seq<Bytes>, required: Option<Capabilities>, tick: u64)
  {
    && Alive(h, tick)
    && Presents(lib, headers, h[Session(h).value].token)
    && (required.Some? ==>
      forall c :: c in required.value ==> c in h[Session(h).value].authority.granted)
  }

  ghost predicate GoodEvent(lib: Library, p: AuthPolicy, h: seq<Event>, e: Event) {
    match e
    case Challenged(_, _, _, _) => GoodChallenge(lib, p, h, e)
    case Attested(a, tick, now) => GoodAttestation(lib, p, h, a, tick, now)
    case Opened(_, _, _, _, _, _) => GoodOpening(lib, p, h, e)
    case Entered(id, headers, required, tick, _) =>
      ActiveId(h) == Some(id) && MayEnter(lib, h, headers, required, tick)
    case Revoked(id, headers, tick, _) => ActiveId(h) == Some(id) && MayEnter(lib, h, headers, None, tick)
    case Expired(id, tick) => ActiveId(h) == Some(id) && !Alive(h, tick)
    case _ => true
  }

  ghost predicate GoodHistory(lib: Library, p: AuthPolicy, h: seq<Event>) {
    forall i :: 0 <= i < |h| ==> GoodEvent(lib, p, h[..i], h[i])
  }

  // ----- the audit log

  /** The audit record that an event must leave. */
  function Due(lib: Library, p: AuthPolicy, h: seq<Event>, e: Event): Option<AuditRequest> {
    match e
    case Challenged(_, c, _, _) =>
      Some(AuditRequest(
        ChallengeIssued, Some(c.challengeId), None, None, Some(p.humanId), Some(lib.challengeDigest(c)), None))
    case Opened(_, s, _, replaced, _, _) =>
      if Challenge(h).None? then None
      else
        var c := h[Challenge(h).value].challenge;
        Some(AuditRequest(
          if replaced.Some? then SessionReplaced else SessionIssued, Some(c.challengeId), Some(s.sessionId), replaced,
          Some(p.humanId), Some(lib.challengeDigest(c)), Some(lib.sessionDigest(s))))
    case Expired(id, _) =>
      if Session(h).None? then None
      else
        Some(AuditRequest(
          SessionExpired, None, Some(id), None, Some(p.humanId), None,
          Some(lib.sessionDigest(h[Session(h).value].authority))))
    case Stopped => Some(AuditRequest(ControlShutdown, None, None, None, None, None, None))
    case _ => None
  }

  predicate Audited(lib: Library, p: AuthPolicy, w: World) {
    forall i :: 0 <= i < |w.history| ==>
      var due := Due(lib, p, w.history[..i], w.history[i]);
      due.Some? ==> due.value in w.log
  }

  /** The record at `k` opened the session and nothing after it ended it. */
  predicate CurrentRecord(log: seq<AuditRequest>, k: nat, sessionId: Uuid)
    requires k < |log|
  {
    && (log[k].kind == SessionIssued || log[k].kind == SessionReplaced)
    && log[k].sessionId == Some(sessionId)
    && forall m :: k < m < |log| ==> log[m].kind == ChallengeIssued
  }

  /** The session in memory is the one the audit log last issued or replaced,
      with no later record that ended it. */
  predicate SessionLogged(w: World) {
    w.state.session.Some? ==>
      exists k :: 0 <= k < |w.log| && CurrentRecord(w.log, k, w.state.session.value.authority.sessionId)
  }

  // ----- the state is what the record says

  predicate PendingMatches(w: World) {
    match (w.state.pending, Challenge(w.history))
    case (None, None) => true
    case (Some(pending), Some(j)) =>
      && pending.challenge == w.history[j].challenge
      && pending.expiryTick == w.history[j].tick + 2 * MINUTE
      && (pending.attestation.Some? <==> SignedSince(w.history, j))
    case _ => false
  }

  function Earlier(a: nat, b: nat): nat {
    if a < b then a else b
  }

  predicate SessionMatches(lib: Library, w: World) {
    match (w.state.session, Session(w.history))
    case (None, None) => true
    case (Some(s), Some(j)) =>
      && s.authority == w.history[j].authority
      && s.tokenDigest == lib.tokenDigest(w.history[j].token)
      && s.absoluteExpiryTick == w.history[j].tick + 15 * MINUTE
      && s.idleExpiryTick == Earlier(LastUse(w.history) + 5 * MINUTE, w.history[j].tick + 15 * MINUTE)
    case _ => false
  }

  ghost predicate Inv(lib: Library, p: AuthPolicy, w: World) {
    && GoodHistory(lib, p, w.history) && PendingMatches(w) && SessionMatches(lib, w)
    && SessionLogged(w) && Audited(lib, p, w)
  }

  // ----- runs

  /** The store reports a faithful event only for a record it wrote. */
  predicate Honest(reply: AuditReply) {
    reply.event.Some? && ResultMatches(reply.event.value.echo, reply.event.value) ==> reply.written
  }

  /** Generated identifiers are new and the audit store is honest; nothing else
      is assumed about a call. */
  predicate Admissible(w: World, call: Call) {
    call.ConsumeFailed? || (Honest(call.env.audit) && (call.env.uuid.Some? ==> FreshId(w.history, call.env.uuid.value)))
  }

  function After(lib: Library, p: AuthPolicy, w: World, calls: seq<Call>): World
    decreases |calls|
  {
    if calls == [] then w else After(lib, p, Step(lib, p, w, calls[0]).world, calls[1..])
  }

  predicate AdmissibleRun(lib: Library, p: AuthPolicy, w: World, calls: seq<Call>)
    decreases |calls|
  {
    calls != [] ==>
      Admissible(w, calls[0]) && AdmissibleRun(lib, p, Step(lib, p, w, calls[0]).world, calls[1..])
  }
}
