/** Safety of the authentication authority over every run, with the clocks, the
    entropy source and the audit store failing at will; and exactly when a caller
    gets a challenge, a session or is let in. */
module AuthorityTheorems {
  import opened Prelude
  import opened Authority
  import opened AuthorityRecord

  // ----- single steps

  /** Fail closed: an unavailable authority is an empty one. */
  lemma UnavailableLeavesNothing(lib: Library, p: AuthPolicy, w: World, call: Call)
    ensures var o := Step(lib, p, w, call);
      o.reply == Rejected(ControlUnavailable) ==> o.world.state == CLEARED
  {
  }

  /** Any other refusal while setting up a session leaves the active one and the
      audit log alone; at most it uses up the challenge. */
  lemma RefusalKeepsSession(lib: Library, p: AuthPolicy, w: World, call: Call)
    requires call.Issue? || call.Attest? || call.ConsumeFailed? || call.Exchange?
    ensures var o := Step(lib, p, w, call);
      o.reply.Rejected? && o.reply.error != ControlUnavailable ==>
        && o.world.state.session == w.state.session && o.world.log == w.log
        && (o.world == w || (o.world.state.pending.None? && o.world.history == w.history + [Spent]))
  {
  }

  /** A challenge can be exchanged once: afterwards none is pending. */
  lemma ExchangeConsumesChallenge(lib: Library, p: AuthPolicy, w: World, r: ExchangeRequest, env: Environment)
    ensures ExchangeStep(lib, p, w, r, env).world.state.pending.None?
  {
  }

  // ----- preservation, entry by entry

  lemma {:induction false} FilterWithin(cs: Capabilities, x: Capabilities, y: Capabilities, z: Capabilities)
    ensures forall c :: c in Filter(cs, x, y, z) <==> c in cs && c in x && c in y && c in z
  {
    if cs == [] {
    } else {
      FilterWithin(cs[1..], x, y, z);
      assert cs == [cs[0]] + cs[1..];
    }
  }

  lemma ExtendHistory(lib: Library, p: AuthPolicy, h: seq<Event>, e: Event)
    requires GoodHistory(lib, p, h) && GoodEvent(lib, p, h, e)
    ensures GoodHistory(lib, p, h + [e])
  {
    hide GoodEvent;
    var h' := h + [e];
    forall i | 0 <= i < |h'| ensures GoodEvent(lib, p, h'[..i], h'[i]) {
      if i < |h| {
        assert h'[..i] == h[..i] && h'[i] == h[i];
      } else {
        assert h'[..i] == h;
      }
    }
  }

  lemma ExtendAudit(lib: Library, p: AuthPolicy, w: World, w': World, e: Event)
    requires Audited(lib, p, w) && w'.history == w.history + [e]
    requires w.log <= w'.log
    requires Due(lib, p, w.history, e).Some? ==> Due(lib, p, w.history, e).value in w'.log
    ensures Audited(lib, p, w')
  {
    hide Due;
    var h, h' := w.history, w'.history;
    forall i | 0 <= i < |h'| && Due(lib, p, h'[..i], h'[i]).Some?
      ensures Due(lib, p, h'[..i], h'[i]).value in w'.log
    {
      if i < |h| {
        assert h'[..i] == h[..i] && h'[i] == h[i];
        var k :| 0 <= k < |w.log| && w.log[k] == Due(lib, p, h[..i], h[i]).value;
        assert w'.log[k] == w.log[k];
      } else {
        assert h'[..i] == h;
      }
    }
  }

  /** An entry that is good, audited and reflected in the state keeps everything. */
  lemma EntryKeeps(lib: Library, p: AuthPolicy, w: World, w': World, e: Event)
    requires Inv(lib, p, w) && GoodEvent(lib, p, w.history, e)
    requires w'.history == w.history + [e] && w.log <= w'.log
    requires Due(lib, p, w.history, e).Some? ==> Due(lib, p, w.history, e).value in w'.log
    requires PendingMatches(w') && SessionMatches(lib, w') && SessionLogged(w')
    ensures Inv(lib, p, w')
  {
    hide PendingMatches;
    hide SessionMatches;
    hide SessionLogged;
    ExtendHistory(lib, p, w.history, e);
    ExtendAudit(lib, p, w, w', e);
  }

  lemma LostKeeps(lib: Library, p: AuthPolicy, w: World, log: seq<AuditRequest>)
    requires Inv(lib, p, w) && w.log <= log
    ensures Inv(lib, p, Unavailable(w.(log := log)).world)
  {
    hide Challenge;
    hide Session;
    hide LastUse;
    hide SignedSince;
    Unfold(w.history, Lost);
    EntryKeeps(lib, p, w, Unavailable(w.(log := log)).world, Lost);
  }

  lemma SpentKeeps(lib: Library, p: AuthPolicy, w: World)
    requires Inv(lib, p, w)
    ensures Inv(lib, p, w.(state := w.state.(pending := None), history := w.history + [Spent]))
  {
    hide Challenge;
    hide Session;
    hide LastUse;
    hide SignedSince;
    Unfold(w.history, Spent);
    EntryKeeps(lib, p, w, w.(state := w.state.(pending := None), history := w.history + [Spent]), Spent);
  }

  /** The pending challenge, as the record has it. */
  lemma PendingFacts(lib: Library, p: AuthPolicy, w: World)
    requires Inv(lib, p, w) && w.state.pending.Some?
    ensures Challenge(w.history).Some?
    ensures var j, c := Challenge(w.history).value, w.state.pending.value.challenge;
      && c == w.history[j].challenge && c.expiresAt == w.history[j].now + 2 * MINUTE
      && c.clientNonceDigest == w.history[j].issue.clientNonceDigest
      && ChallengeMatchesPolicy(lib, c, p)
      && forall tick: u64, now: Time ::
        tick < w.state.pending.value.expiryTick && now < c.expiresAt <==> Timely(w.history, j, tick, now)
  {
    var j := Challenge(w.history).value;
    assert GoodEvent(lib, p, w.history[..j], w.history[j]);
  }

  lemma SessionFacts(lib: Library, p: AuthPolicy, w: World)
    requires Inv(lib, p, w) && w.state.session.Some?
    ensures Session(w.history).Some?
    ensures var j, s := Session(w.history).value, w.state.session.value;
      && s.authority == w.history[j].authority && s.tokenDigest == lib.tokenDigest(w.history[j].token)
      && SessionMatchesPolicy(s.authority, p)
      && forall tick: u64 :: Lapsed(s, tick) <==> !Alive(w.history, tick)
  {
    var j := Session(w.history).value;
    assert GoodEvent(lib, p, w.history[..j], w.history[j]);
  }

  lemma LogStable(w: World, record: AuditRequest, log: seq<AuditRequest>)
    requires SessionLogged(w) && record.kind == ChallengeIssued && log == w.log + [record]
    ensures SessionLogged(w.(log := log))
  {
    if w.state.session.Some? {
      var id := w.state.session.value.authority.sessionId;
      var k :| 0 <= k < |w.log| && CurrentRecord(w.log, k, id);
      assert CurrentRecord(log, k, id);
    }
  }

  lemma IssueKeeps(lib: Library, p: AuthPolicy, w: World, request: IssueRequest, env: Environment)
    requires Inv(lib, p, w) && Admissible(w, Issue(request, env))
    ensures Inv(lib, p, IssueStep(lib, p, w, request, env).world)
  {
    hide Inv;
    hide Intersect;
    hide MakeChallenge;
    hide IsCanonical;
    hide FreshId;
    var o := IssueStep(lib, p, w, request, env);
    if o.reply == Rejected(ControlUnavailable) {
      LostKeeps(lib, p, w, o.world.log);
    } else if o.reply.Issued? {
      IssuedKeeps(lib, p, w, request, env);
    }
  }

  lemma IssuedIsGood(lib: Library, p: AuthPolicy, w: World, request: IssueRequest, env: Environment)
    requires Inv(lib, p, w) && Admissible(w, Issue(request, env))
    requires IssueStep(lib, p, w, request, env).reply.Issued?
    ensures env.tick.Some? && env.utc.Some?
    ensures var c := IssueStep(lib, p, w, request, env).reply.challenge;
      GoodChallenge(lib, p, w.history, Challenged(request, c, env.tick.value, env.utc.value))
  {
    hide Inv;
    hide Filter;
    hide FreshId;
    hide Timely;
    hide Challenge;
    hide ChallengeMatchesPolicy;
    hide IsCanonical;
    ChallengeIsPending(lib, p, w);
    if w.state.pending.Some? {
      PendingFacts(lib, p, w);
    }
    FilterWithin(request.requested, p.enrolled, p.workspace, p.supported);
  }

  lemma ChallengeIsPending(lib: Library, p: AuthPolicy, w: World)
    requires Inv(lib, p, w)
    ensures Challenge(w.history).Some? <==> w.state.pending.Some?
    ensures Session(w.history).Some? <==> w.state.session.Some?
  {
  }

  lemma IssuedKeeps(lib: Library, p: AuthPolicy, w: World, request: IssueRequest, env: Environment)
    requires Inv(lib, p, w) && Admissible(w, Issue(request, env))
    requires IssueStep(lib, p, w, request, env).reply.Issued?
    ensures Inv(lib, p, IssueStep(lib, p, w, request, env).world)
  {
    hide Challenge;
    hide Session;
    hide LastUse;
    hide SignedSince;
    IssuedIsGood(lib, p, w, request, env);
    hide Intersect;
    hide MakeChallenge;
    hide IsCanonical;
    hide GoodChallenge;
    hide GoodHistory;
    hide FreshId;
    hide Audited;
    var o := IssueStep(lib, p, w, request, env);
    var c := o.reply.challenge;
    var e := Challenged(request, c, env.tick.value, env.utc.value);
    var record := ChallengeRecord(lib, p, c);
    assert o.world.history == w.history + [e] && o.world.log == w.log + [record];
    assert o.world.state == w.state.(pending := Some(PendingChallenge(c, env.tick.value + 2 * MINUTE, None)));
    hide IssueStep;
    Unfold(w.history, e);
    LogStable(w, record, o.world.log);
    assert o.world.log[|w.log|] == record;
    EntryKeeps(lib, p, w, o.world, e);
  }

  lemma AttestKeeps(lib: Library, p: AuthPolicy, w: World, a: Attestation, env: Environment)
    requires Inv(lib, p, w)
    ensures Inv(lib, p, AttestStep(lib, p, w, a, env).world)
  {
    hide Inv;
    hide AttestationVerified;
    var o := AttestStep(lib, p, w, a, env);
    if o.reply == Rejected(ControlUnavailable) {
      LostKeeps(lib, p, w, w.log);
    } else if o.reply.Done? {
      AttestedKeeps(lib, p, w, a, env);
    } else {
      SpentKeeps(lib, p, w);
    }
  }

  lemma AttestedKeeps(lib: Library, p: AuthPolicy, w: World, a: Attestation, env: Environment)
    requires Inv(lib, p, w) && AttestStep(lib, p, w, a, env).reply.Done?
    ensures Inv(lib, p, AttestStep(lib, p, w, a, env).world)
  {
    hide Challenge;
    hide Session;
    hide LastUse;
    hide SignedSince;
    hide GoodHistory;
    hide Audited;
    hide ChallengeMatchesPolicy;
    var e := Attested(a, env.tick.value, env.utc.value);
    PendingFacts(lib, p, w);
    Unfold(w.history, e);
    EntryKeeps(lib, p, w, AttestStep(lib, p, w, a, env).world, e);
  }

  lemma ExchangeKeeps(lib: Library, p: AuthPolicy, w: World, r: ExchangeRequest, env: Environment)
    requires Inv(lib, p, w) && Admissible(w, Exchange(r, env))
    ensures Inv(lib, p, ExchangeStep(lib, p, w, r, env).world)
  {
    hide Inv;
    hide ExchangeValid;
    hide MakeSession;
    hide FreshId;
    var o := ExchangeStep(lib, p, w, r, env);
    if o.reply == Rejected(ControlUnavailable) {
      LostKeeps(lib, p, w, o.world.log);
    } else if o.reply.SessionGranted? {
      OpenedKeeps(lib, p, w, r, env);
    } else {
      SpentKeeps(lib, p, w);
    }
  }

  lemma ActiveIdMatches(lib: Library, w: World)
    requires SessionMatches(lib, w)
    ensures ActiveId(w.history)
         == if w.state.session.Some? then Some(w.state.session.value.authority.sessionId) else None
  {
  }

  lemma OpenedKeeps(lib: Library, p: AuthPolicy, w: World, r: ExchangeRequest, env: Environment)
    requires Inv(lib, p, w) && Admissible(w, Exchange(r, env))
    requires ExchangeStep(lib, p, w, r, env).reply.SessionGranted?
    ensures Inv(lib, p, ExchangeStep(lib, p, w, r, env).world)
  {
    hide Challenge;
    hide Session;
    hide LastUse;
    hide SignedSince;
    hide GoodHistory;
    hide Audited;
    hide AnswersNonce;
    hide FreshId;
    var o := ExchangeStep(lib, p, w, r, env);
    var e := o.world.history[|w.history|];
    PendingFacts(lib, p, w);
    ActiveIdMatches(lib, w);
    AnswersExactlyWhen(lib, r.clientNonce, w.state.pending.value.challenge.clientNonceDigest);
    assert GoodEvent(lib, p, w.history, e);
    Unfold(w.history, e);
    assert CurrentRecord(o.world.log, |w.log|, o.reply.authority.sessionId);
    EntryKeeps(lib, p, w, o.world, e);
  }

  // ----- letting callers in

  lemma HoldsExactlyWhen(required: Option<Capabilities>, granted: Capabilities)
    ensures Holds(required, granted) <==> (required.Some? ==> forall c :: c in required.value ==> c in granted)
  {
    if required.Some? && forall c :: c in required.value ==> c in granted {
      forall i | 0 <= i < |required.value| ensures required.value[i] in granted {
        assert required.value[i] in required.value;
      }
    }
  }

  /** Authentication lets in exactly the callers that may enter, while the clock
      can be read and has room for the next idle deadline. */
  lemma AuthenticatesExactlyWhen(
      lib: Library, p: AuthPolicy, w: World, headers: seq<Bytes>, required: Option<Capabilities>, env: Environment)
    requires Inv(lib, p, w)
    ensures var a := Authenticate(lib, p, w, headers, required, env);
      && (a.Granted? <==>
        && env.tick.Some? && env.tick.value + 5 * MINUTE <= U64_MAX
        && MayEnter(lib, w.history, headers, required, env.tick.value))
      && (a.Denied? && a.error.CapabilityRequired? <==>
        && env.tick.Some? && MayEnter(lib, w.history, headers, None, env.tick.value)
        && !MayEnter(lib, w.history, headers, required, env.tick.value))
      && (a.Granted? ==>
        && a.world == w && w.state.session == Some(a.session) && env.tick == Some(a.tick)
        && a.refreshed == Earlier(a.tick + 5 * MINUTE, a.session.absoluteExpiryTick))
  {
    hide Inv;
    hide Presents;
    hide Alive;
    hide Lapsed;
    hide TokenAccepted;
    hide Holds;
    hide SessionMatchesPolicy;
    ChallengeIsPending(lib, p, w);
    if w.state.session.Some? {
      SessionFacts(lib, p, w);
      var s := w.state.session.value;
      PresentsExactlyWhen(lib, s, headers, w.history[Session(w.history).value].token);
      HoldsExactlyWhen(required, s.authority.granted);
    }
    assert env.tick.Some? && Alive(w.history, env.tick.value) ==> Session(w.history).Some? by {
      AliveHasSession(w.history);
    }
  }

  lemma AliveHasSession(h: seq<Event>)
    ensures forall tick :: Alive(h, tick) ==> Session(h).Some?
  {
  }

  lemma ExpiredKeeps(lib: Library, p: AuthPolicy, w: World, tick: u64, reply: AuditReply)
    requires Inv(lib, p, w) && Honest(reply) && ExpireSession(lib, p, w, tick, reply).Some?
    ensures Inv(lib, p, ExpireSession(lib, p, w, tick, reply).value)
  {
    hide Challenge;
    hide Session;
    hide LastUse;
    hide SignedSince;
    hide GoodHistory;
    hide Audited;
    hide SessionMatchesPolicy;
    if w.state.session.Some? && Lapsed(w.state.session.value, tick) {
      var w' := ExpireSession(lib, p, w, tick, reply).value;
      SessionFacts(lib, p, w);
      ActiveIdMatches(lib, w);
      var e := Expired(w.state.session.value.authority.sessionId, tick);
      Unfold(w.history, e);
      assert w'.log[|w.log|] == ExpiryRecord(lib, p, w.state.session.value.authority);
      EntryKeeps(lib, p, w, w', e);
    }
  }

  lemma DenialKeeps(
      lib: Library, p: AuthPolicy, w: World, headers: seq<Bytes>, required: Option<Capabilities>, env: Environment)
    requires Inv(lib, p, w) && Honest(env.audit)
    ensures Inv(lib, p, Authenticate(lib, p, w, headers, required, env).world)
  {
    hide Inv;
    hide ExpireSession;
    hide TokenAccepted;
    hide Holds;
    hide SessionMatchesPolicy;
    hide Honest;
    if env.tick.None? {
      LostKeeps(lib, p, w, w.log);
    } else {
      match ExpireSession(lib, p, w, env.tick.value, env.audit) {
        case None =>
          ExpireNeedsSession(lib, p, w, env.tick.value, env.audit);
          var record := ExpiryRecord(lib, p, w.state.session.value.authority);
          LostKeeps(lib, p, w, Logged(w.log, record, env.audit));
        case Some(w') =>
          ExpiredKeeps(lib, p, w, env.tick.value, env.audit);
          LostKeeps(lib, p, w', w'.log);
      }
    }
  }

  lemma ExpireNeedsSession(lib: Library, p: AuthPolicy, w: World, tick: u64, reply: AuditReply)
    ensures ExpireSession(lib, p, w, tick, reply).None? ==> w.state.session.Some?
  {
  }

  lemma AuthorizeKeeps(
      lib: Library, p: AuthPolicy, w: World, headers: seq<Bytes>, required: Option<Capabilities>,
      succeeds: bool, env: Environment)
    requires Inv(lib, p, w) && Honest(env.audit)
    ensures Inv(lib, p, AuthorizeStep(lib, p, w, headers, required, succeeds, env).world)
  {
    AuthenticatesExactlyWhen(lib, p, w, headers, required, env);
    DenialKeeps(lib, p, w, headers, required, env);
    hide Authenticate;
    var a := Authenticate(lib, p, w, headers, required, env);
    if a.Granted? && (required.Some? ==> IsCanonical(required.value)) {
      var e := Entered(a.session.authority.sessionId, headers, required, a.tick, succeeds);
      ActiveIdMatches(lib, w);
      EnteredKeeps(lib, p, w, e, a.refreshed);
    }
  }

  lemma EnteredKeeps(lib: Library, p: AuthPolicy, w: World, e: Event, refreshed: u64)
    requires Inv(lib, p, w) && e.Entered? && GoodEvent(lib, p, w.history, e)
    requires w.state.session.Some?
    requires refreshed == Earlier(e.tick + 5 * MINUTE, w.state.session.value.absoluteExpiryTick)
    ensures var s := if e.refreshes then w.state.session.value.(idleExpiryTick := refreshed) else w.state.session.value;
      Inv(lib, p, w.(state := w.state.(session := Some(s)), history := w.history + [e]))
  {
    hide Challenge;
    hide Session;
    hide LastUse;
    hide SignedSince;
    hide GoodHistory;
    hide MayEnter;
    hide Audited;
    var s := if e.refreshes then w.state.session.value.(idleExpiryTick := refreshed) else w.state.session.value;
    var w' := w.(state := w.state.(session := Some(s)), history := w.history + [e]);
    Unfold(w.history, e);
    EntryKeeps(lib, p, w, w', e);
  }

  lemma RevokeKeeps(lib: Library, p: AuthPolicy, w: World, headers: seq<Bytes>, succeeds: bool, env: Environment)
    requires Inv(lib, p, w) && Honest(env.audit)
    ensures Inv(lib, p, RevokeStep(lib, p, w, headers, succeeds, env).world)
  {
    hide Challenge;
    hide Session;
    hide LastUse;
    hide SignedSince;
    AuthenticatesExactlyWhen(lib, p, w, headers, None, env);
    DenialKeeps(lib, p, w, headers, None, env);
    hide Authenticate;
    hide GoodHistory;
    hide MayEnter;
    hide Audited;
    var a := Authenticate(lib, p, w, headers, None, env);
    if a.Granted? {
      var e := Revoked(a.session.authority.sessionId, headers, a.tick, succeeds);
      ActiveIdMatches(lib, w);
      Unfold(w.history, e);
      EntryKeeps(lib, p, w, RevokeStep(lib, p, w, headers, succeeds, env).world, e);
    }
  }

  lemma ShutdownKeeps(lib: Library, p: AuthPolicy, w: World, env: Environment)
    requires Inv(lib, p, w) && Honest(env.audit)
    ensures Inv(lib, p, ShutdownStep(w, env).world)
  {
    hide Challenge;
    hide Session;
    hide LastUse;
    hide SignedSince;
    hide GoodHistory;
    hide Audited;
    var o := ShutdownStep(w, env);
    if o.reply.Done? {
      Unfold(w.history, Stopped);
      assert o.world.log[|w.log|] == SHUTDOWN_RECORD;
      EntryKeeps(lib, p, w, o.world, Stopped);
    } else {
      LostKeeps(lib, p, w, o.world.log);
    }
  }

  lemma ConsumeKeeps(lib: Library, p: AuthPolicy, w: World, id: Uuid)
    requires Inv(lib, p, w)
    ensures Inv(lib, p, ConsumeStep(w, id).world)
  {
    SpentKeeps(lib, p, w);
  }

  /** Every call keeps the record good, the state in agreement with it, and the
      audit log complete. */
  lemma StepPreserves(lib: Library, p: AuthPolicy, w: World, call: Call)
    requires Inv(lib, p, w) && Admissible(w, call)
    ensures Inv(lib, p, Step(lib, p, w, call).world)
  {
    hide Inv;
    match call {
      case Issue(request, env) => IssueKeeps(lib, p, w, request, env);
      case Attest(a, env) => AttestKeeps(lib, p, w, a, env);
      case ConsumeFailed(id) => ConsumeKeeps(lib, p, w, id);
      case Exchange(r, env) => ExchangeKeeps(lib, p, w, r, env);
      case Authorize(headers, required, succeeds, env) =>
        AuthorizeKeeps(lib, p, w, headers, required, succeeds, env);
      case Revoke(headers, succeeds, env) => RevokeKeeps(lib, p, w, headers, succeeds, env);
      case Shutdown(env) => ShutdownKeeps(lib, p, w, env);
    }
  }

  lemma {:induction false} RunPreserves(lib: Library, p: AuthPolicy, w: World, calls: seq<Call>)
    requires Inv(lib, p, w) && AdmissibleRun(lib, p, w, calls)
    ensures Inv(lib, p, After(lib, p, w, calls))
    decreases |calls|
  {
    hide Inv;
    if calls == [] {
    } else {
      StepPreserves(lib, p, w, calls[0]);
      RunPreserves(lib, p, Step(lib, p, w, calls[0]).world, calls[1..]);
    }
  }

  lemma StartIsGood(lib: Library, p: AuthPolicy)
    ensures Inv(lib, p, START)
  {
  }

  // ----- exactly when

  /** A callback runs exactly when the caller may enter, and the record then gains
      that entry and nothing else. */
  lemma EntersExactlyWhen(
      lib: Library, p: AuthPolicy, w: World, headers: seq<Bytes>, required: Option<Capabilities>,
      succeeds: bool, env: Environment)
    requires Inv(lib, p, w)
    ensures var o := AuthorizeStep(lib, p, w, headers, required, succeeds, env);
      && (o.reply.Done? || o.reply.CallbackFailed? <==>
        && (required.Some? ==> IsCanonical(required.value))
        && env.tick.Some? && env.tick.value + 5 * MINUTE <= U64_MAX
        && MayEnter(lib, w.history, headers, required, env.tick.value))
      && (o.reply == Rejected(CapabilityRequired) <==>
        && (required.Some? ==> IsCanonical(required.value))
        && env.tick.Some? && MayEnter(lib, w.history, headers, None, env.tick.value)
        && !MayEnter(lib, w.history, headers, required, env.tick.value))
      && (o.reply.Done? ==> succeeds) && (o.reply.CallbackFailed? ==> !succeeds)
      && (o.reply.Done? || o.reply.CallbackFailed? ==>
        && ActiveId(w.history).Some? && o.world.log == w.log
        && o.world.history
          == w.history + [Entered(ActiveId(w.history).value, headers, required, env.tick.value, succeeds)])
  {
    AuthenticatesExactlyWhen(lib, p, w, headers, required, env);
    ActiveIdMatches(lib, w);
    hide Inv;
    hide Authenticate;
    hide MayEnter;
  }

  /** A revocation is carried out exactly when the holder asks for it, and no
      session is active afterwards. */
  lemma RevokesExactlyWhen(
      lib: Library, p: AuthPolicy, w: World, headers: seq<Bytes>, succeeds: bool, env: Environment)
    requires Inv(lib, p, w)
    ensures var o := RevokeStep(lib, p, w, headers, succeeds, env);
      && (o.reply.Done? || o.reply.CallbackFailed? <==>
        && env.tick.Some? && env.tick.value + 5 * MINUTE <= U64_MAX
        && MayEnter(lib, w.history, headers, None, env.tick.value))
      && (o.reply.Done? ==> succeeds) && (o.reply.CallbackFailed? ==> !succeeds)
      && (o.reply.Done? || o.reply.CallbackFailed? ==>
        && o.world.state.session.None? && Session(o.world.history).None?)
  {
    AuthenticatesExactlyWhen(lib, p, w, headers, None, env);
    hide Inv;
    hide Authenticate;
    hide MayEnter;
    var a := Authenticate(lib, p, w, headers, None, env);
    if a.Granted? {
      Unfold(w.history, Revoked(a.session.authority.sessionId, headers, a.tick, succeeds));
    }
  }

  /** An attestation is taken exactly when it is a good one; any other uses up the
      challenge. */
  lemma AttestsExactlyWhen(lib: Library, p: AuthPolicy, w: World, a: Attestation, env: Environment)
    requires Inv(lib, p, w) && env.utc.Some? && env.tick.Some?
    ensures var o := AttestStep(lib, p, w, a, env);
      && (o.reply.Done? <==> GoodAttestation(lib, p, w.history, a, env.tick.value, env.utc.value))
      && (!o.reply.Done? ==> o.reply == Rejected(AuthenticationRequired) && o.world.state.pending.None?)
  {
    hide GoodHistory;
    hide Audited;
    hide ChallengeMatchesPolicy;
    if w.state.pending.Some? {
      PendingFacts(lib, p, w);
    }
  }

  /** The clocks, the entropy source and the identifiers work, with room for all
      deadlines; every challenge and session can be encoded. */
  ghost predicate Serves(lib: Library, env: Environment) {
    && env.utc.Some? && env.tick.Some? && env.random.Some? && env.uuid.Some? && lib.isV7(env.uuid.value)
    && env.tick.value + 15 * MINUTE <= U64_MAX && env.utc.value + 15 * MINUTE <= lib.lastInstant
    && (forall c :: lib.encodes(c)) && (forall s :: lib.encodesSession(s))
  }

  /** The audit store reports that it accepted this very record; an expiry it
      reports as such. */
  predicate Acknowledged(record: AuditRequest, env: Environment) {
    env.audit.event == Some(AuditEvent(true, record,
      match record.kind
      case SessionExpired => AuditExpired
      case _ => AuditAccepted))
  }

  /** An overdue session is taken down by the next call, whoever makes it, and the
      authority forgets everything unless the audit store takes note. */
  lemma ExpiresExactlyWhen(
      lib: Library, p: AuthPolicy, w: World, headers: seq<Bytes>, required: Option<Capabilities>, env: Environment)
    requires Inv(lib, p, w) && ActiveId(w.history).Some? && env.tick.Some? && !Alive(w.history, env.tick.value)
    ensures var a := Authenticate(lib, p, w, headers, required, env);
      var e := Expired(ActiveId(w.history).value, env.tick.value);
      var due := Due(lib, p, w.history, e);
      && due.Some? && a.Denied?
      && (if Acknowledged(due.value, env)
          then a.error == AuthenticationRequired && a.world.history == w.history + [e]
          else a.error == ControlUnavailable && a.world.state == CLEARED)
  {
    hide Inv;
    hide Alive;
    hide Lapsed;
    ChallengeIsPending(lib, p, w);
    InvActiveId(lib, p, w);
    SessionFacts(lib, p, w);
  }

  /** A shutdown forgets everything, and succeeds exactly when it is noted. */
  lemma ShutsDownExactlyWhen(w: World, env: Environment)
    ensures var o := ShutdownStep(w, env);
      && o.world.state == CLEARED
      && (o.reply.Done? <==> Acknowledged(AuditRequest(ControlShutdown, None, None, None, None, None, None), env))
  {
  }

  lemma {:induction false} RankRises(cs: Capabilities, i: nat)
    requires i < |cs| && forall j :: 0 <= j < |cs| - 1 ==> Rank(cs[j]) < Rank(cs[j + 1])
    ensures Rank(cs[i]) >= i
  {
    if i == 0 {
    } else {
      RankRises(cs, i - 1);
    }
  }

  /** A capability list is canonical exactly when it is not empty and ascends; so
      even that of all six is. */
  lemma CanonicalExactlyWhen(cs: Capabilities)
    ensures IsCanonical(cs) <==> cs != [] && forall i :: 0 <= i < |cs| - 1 ==> Rank(cs[i]) < Rank(cs[i + 1])
  {
    if cs != [] && forall i :: 0 <= i < |cs| - 1 ==> Rank(cs[i]) < Rank(cs[i + 1]) {
      RankRises(cs, |cs| - 1);
    }
  }

  /** Served well, an exchange opens a session exactly when it may and the audit
      store confirms the record due. */
  lemma OpensExactlyWhen(lib: Library, p: AuthPolicy, w: World, r: ExchangeRequest, env: Environment)
    requires Inv(lib, p, w) && Serves(lib, env)
    ensures var o := ExchangeStep(lib, p, w, r, env);
      var may := MayOpen(lib, w.history, r, env.tick.value, env.utc.value);
      && (!may ==> o.reply == Rejected(AuthenticationRequired))
      && (may ==>
        var s := SessionFor(p, w.history[Challenge(w.history).value].challenge.granted, env.uuid.value, env.utc.value);
        var e := Opened(r, s, env.random.value, ActiveId(w.history), env.tick.value, env.utc.value);
        var due := Due(lib, p, w.history, e);
        && due.Some?
        && o.reply == if Acknowledged(due.value, env) then SessionGranted(s) else Rejected(ControlUnavailable))
  {
    hide Inv;
    hide ChallengeMatchesPolicy;
    hide AnswersNonce;
    hide Timely;
    hide IsHex32;
    hide Decoded;
    ChallengeIsPending(lib, p, w);
    InvActiveId(lib, p, w);
    if w.state.pending.Some? {
      PendingFacts(lib, p, w);
      AnswersExactlyWhen(lib, r.clientNonce, w.state.pending.value.challenge.clientNonceDigest);
    }
  }

  lemma InvActiveId(lib: Library, p: AuthPolicy, w: World)
    requires Inv(lib, p, w)
    ensures ActiveId(w.history)
         == if w.state.session.Some? then Some(w.state.session.value.authority.sessionId) else None
    ensures w.state.pending.Some? && Challenge(w.history).Some? ==>
      (w.state.pending.value.attestation.Some? <==> SignedSince(w.history, Challenge(w.history).value))
  {
    ActiveIdMatches(lib, w);
  }

  lemma {:induction false} FilterAscends(cs: Capabilities, x: Capabilities, y: Capabilities, z: Capabilities)
    requires forall i :: 0 <= i < |cs| - 1 ==> Rank(cs[i]) < Rank(cs[i + 1])
    ensures var r := Filter(cs, x, y, z);
      && |r| <= |cs|
      && (forall i :: 0 <= i < |r| - 1 ==> Rank(r[i]) < Rank(r[i + 1]))
      && (r != [] ==> Rank(cs[0]) <= Rank(r[0]))
  {
    if cs == [] {
    } else {
      FilterAscends(cs[1..], x, y, z);
      var rest := Filter(cs[1..], x, y, z);
      assert rest != [] ==> Rank(cs[0]) < Rank(cs[1]) <= Rank(rest[0]);
    }
  }

  predicate SomeGrantable(p: AuthPolicy, requested: Capabilities) {
    exists c :: Grantable(p, requested, c)
  }

  lemma GrantsExactlyWhen(p: AuthPolicy, requested: Capabilities)
    requires IsCanonical(requested)
    ensures Intersect(p, requested).Some? <==> SomeGrantable(p, requested)
  {
    FilterWithin(requested, p.enrolled, p.workspace, p.supported);
    FilterAscends(requested, p.enrolled, p.workspace, p.supported);
    var r := Filter(requested, p.enrolled, p.workspace, p.supported);
    if r != [] {
      assert Grantable(p, requested, r[0]);
    }
  }

  /** Served well, a challenge is refused while another is open, and otherwise issued
      exactly for a canonical request of which something can be granted, if the
      audit store confirms the record due. */
  lemma IssuesExactlyWhen(lib: Library, p: AuthPolicy, w: World, r: IssueRequest, env: Environment)
    requires Inv(lib, p, w) && Serves(lib, env)
    ensures var o := IssueStep(lib, p, w, r, env);
      if r.schema != "proof.operator.session.challenge-issue-request/v1" || !IsCanonical(r.requested)
        || !SomeGrantable(p, r.requested)
      then o.reply == Rejected(InvalidRequest)
      else if Challenge(w.history).Some?
        && Timely(w.history, Challenge(w.history).value, env.tick.value, env.utc.value)
      then o.reply == Rejected(ChallengePending)
      else
        && Intersect(p, r.requested).Some?
        && var c := ChallengeFor(
             p, r, Intersect(p, r.requested).value, env.uuid.value, env.random.value, env.utc.value);
        var due := Due(lib, p, w.history, Challenged(r, c, env.tick.value, env.utc.value)).value;
        o.reply == if Acknowledged(due, env) then Issued(c) else Rejected(ControlUnavailable)
  {
    hide Inv;
    hide Intersect;
    hide IsCanonical;
    hide SomeGrantable;
    hide Timely;
    hide ChallengeMatchesPolicy;
    ChallengeIsPending(lib, p, w);
    if w.state.pending.Some? {
      PendingFacts(lib, p, w);
    }
    if IsCanonical(r.requested) {
      GrantsExactlyWhen(p, r.requested);
    }
  }

  // ----- over every run

  ghost predicate OpensFrom(lib: Library, p: AuthPolicy, h: seq<Event>, j: nat, k: nat, i: nat)
    requires j < k < i < |h| && h[i].Opened?
  {
    && h[j].Challenged? && h[j].challenge.challengeId == h[i].exchange.challengeId
    && h[k].Attested? && h[k].attestation.challenge == h[j].challenge
    && lib.verifies(p.humanPublicKey, h[j].challenge, h[k].attestation.signature)
    && Timely(h, j, h[k].tick, h[k].now) && Timely(h, j, h[i].tick, h[i].now)
    && AnswersNonce(lib, h[i].exchange.clientNonce, h[j].issue.clientNonceDigest)
    && h[i].authority.granted == h[j].challenge.granted
  }

  /** The session opened at `i` comes from a challenge that was issued, then signed by
      the human's key, then exchanged by who held the nonce, each within two minutes
      of its issue; and it shares that challenge and its id with no other session. */
  ghost predicate SessionAttested(lib: Library, p: AuthPolicy, h: seq<Event>, i: nat)
    requires i < |h| && h[i].Opened?
  {
    && (exists j, k :: 0 <= j < k < i && OpensFrom(lib, p, h, j, k, i))
    && (forall m :: 0 <= m < |h| && m != i && h[m].Opened? ==>
      && h[m].exchange.challengeId != h[i].exchange.challengeId
      && h[m].authority.sessionId != h[i].authority.sessionId)
  }

  ghost predicate EntersFrom(lib: Library, p: AuthPolicy, h: seq<Event>, a: nat, j: nat, i: nat)
    requires a < j < i < |h| && (h[i].Entered? || h[i].Revoked?)
  {
    && h[a].Challenged? && h[j].Opened? && h[j].exchange.challengeId == h[a].challenge.challengeId
    && h[j].authority.sessionId == h[i].sessionId
    && Presents(lib, h[i].headers, h[j].token)
    && h[i].tick < h[j].tick + 15 * MINUTE
    && Session(h[..i]) == Some(j) && h[i].tick < LastUse(h[..i]) + 5 * MINUTE
    && (h[i].Entered? && h[i].required.Some? ==>
      forall c :: c in h[i].required.value ==> Grantable(p, h[a].issue.requested, c))
  }

  /** The call let in at `i` presented the token drawn when its session was opened,
      within both deadlines, for capabilities that were requested, enrolled, allowed
      and supported. */
  ghost predicate CallbackBounded(lib: Library, p: AuthPolicy, h: seq<Event>, i: nat)
    requires i < |h| && (h[i].Entered? || h[i].Revoked?)
  {
    exists j, a :: 0 <= a < j < i && EntersFrom(lib, p, h, a, j, i)
  }

  lemma PrefixEntry(h: seq<Event>, i: nat, j: nat)
    requires j < i <= |h|
    ensures h[..i][j] == h[j] && h[..i][..j] == h[..j]
  {
  }

  /** Two entries with one identifier are one entry. */
  lemma IdsAreUnique(lib: Library, p: AuthPolicy, h: seq<Event>, i: nat, j: nat)
    requires GoodHistory(lib, p, h) && i < |h| && j < |h|
    ensures h[i].Opened? && h[j].Opened? && h[i].authority.sessionId == h[j].authority.sessionId ==> i == j
    ensures h[i].Challenged? && h[j].Challenged? && h[i].challenge.challengeId == h[j].challenge.challengeId ==> i == j
  {
    if i != j {
      var lo, hi := if i < j then i else j, if i < j then j else i;
      assert GoodEvent(lib, p, h[..hi], h[hi]);
      PrefixEntry(h, hi, lo);
    }
  }

  lemma OpeningHasOrigin(lib: Library, p: AuthPolicy, h: seq<Event>, i: nat) returns (j: nat, k: nat)
    requires GoodHistory(lib, p, h) && i < |h| && h[i].Opened?
    ensures j < k < i && OpensFrom(lib, p, h, j, k, i) && Challenge(h[..i]) == Some(j)
  {
    assert GoodEvent(lib, p, h[..i], h[i]);
    j := Challenge(h[..i]).value;
    k :| j < k < |h[..i]| && h[..i][k].Attested?;
    PrefixEntry(h, i, j);
    PrefixEntry(h, i, k);
    assert GoodEvent(lib, p, h[..k], h[k]);
    ChallengeStays(h, i, k, j);
    PrefixEntry(h, k, j);
  }

  /** The pending challenge was already pending at any entry since its issue. */
  lemma {:induction false} ChallengeStays(h: seq<Event>, i: nat, k: nat, j: nat)
    requires j < k <= i <= |h| && Challenge(h[..i]) == Some(j)
    ensures Challenge(h[..k]) == Some(j)
    decreases i - k
  {
    if k < i {
      assert h[..i][..i - 1] == h[..i - 1];
      ChallengeStays(h, i - 1, k, j);
    }
  }

  lemma RecordAttestsSessions(lib: Library, p: AuthPolicy, h: seq<Event>, i: nat)
    requires GoodHistory(lib, p, h) && i < |h| && h[i].Opened?
    ensures SessionAttested(lib, p, h, i)
  {
    hide GoodHistory;
    hide OpensFrom;
    var j, k := OpeningHasOrigin(lib, p, h, i);
    forall m | 0 <= m < |h| && m != i && h[m].Opened?
      ensures h[m].exchange.challengeId != h[i].exchange.challengeId
      ensures h[m].authority.sessionId != h[i].authority.sessionId
    {
      IdsAreUnique(lib, p, h, i, m);
      OneOpeningPerChallenge(lib, p, h, i, m);
    }
  }

  lemma OneOpeningPerChallenge(lib: Library, p: AuthPolicy, h: seq<Event>, i: nat, m: nat)
    requires GoodHistory(lib, p, h) && i < |h| && m < |h| && i != m && h[i].Opened? && h[m].Opened?
    ensures h[m].exchange.challengeId != h[i].exchange.challengeId
  {
    hide GoodHistory;
    var j, _ := OpeningHasOrigin(lib, p, h, i);
    var j', _ := OpeningHasOrigin(lib, p, h, m);
    IdsAreUnique(lib, p, h, j, j');
    var lo, hi := if i < m then i else m, if i < m then m else i;
    PrefixEntry(h, hi, lo);
  }

  lemma RecordBoundsCallbacks(lib: Library, p: AuthPolicy, h: seq<Event>, i: nat)
    requires GoodHistory(lib, p, h) && i < |h| && (h[i].Entered? || h[i].Revoked?)
    ensures CallbackBounded(lib, p, h, i)
  {
    assert GoodEvent(lib, p, h[..i], h[i]);
    var j := Session(h[..i]).value;
    PrefixEntry(h, i, j);
    var a, _ := OpeningHasOrigin(lib, p, h, j);
    assert GoodEvent(lib, p, h[..a], h[a]);
    assert EntersFrom(lib, p, h, a, j, i);
  }

  /** A session that was ended, or whose place was taken, is never used again. */
  lemma RecordClosesSessions(lib: Library, p: AuthPolicy, h: seq<Event>, j: nat, i: nat, m: nat)
    requires GoodHistory(lib, p, h) && j < i < m < |h|
    requires h[j].Opened? && (h[i].Opened? || EndsSession(h[i])) && (h[m].Entered? || h[m].Revoked?)
    ensures h[m].sessionId != h[j].authority.sessionId
  {
    hide MayEnter;
    assert GoodEvent(lib, p, h[..m], h[m]);
    var s := Session(h[..m]).value;
    PrefixEntry(h, m, s);
    PrefixEntry(h, m, i);
    IdsAreUnique(lib, p, h, s, j);
  }

  /** Over every run each session was attested and opened by who asked for it. */
  lemma SessionsComeFromAttestedChallenges(lib: Library, p: AuthPolicy, calls: seq<Call>, i: nat)
    requires AdmissibleRun(lib, p, START, calls)
    requires i < |After(lib, p, START, calls).history| && After(lib, p, START, calls).history[i].Opened?
    ensures SessionAttested(lib, p, After(lib, p, START, calls).history, i)
  {
    hide SessionAttested;
    StartIsGood(lib, p);
    RunPreserves(lib, p, START, calls);
    RecordAttestsSessions(lib, p, After(lib, p, START, calls).history, i);
  }

  /** Over every run each callback presented its session's token, in time and within
      what was granted. */
  lemma CallbacksNeedTheToken(lib: Library, p: AuthPolicy, calls: seq<Call>, i: nat)
    requires AdmissibleRun(lib, p, START, calls) && i < |After(lib, p, START, calls).history|
    requires var e := After(lib, p, START, calls).history[i]; e.Entered? || e.Revoked?
    ensures CallbackBounded(lib, p, After(lib, p, START, calls).history, i)
  {
    hide CallbackBounded;
    StartIsGood(lib, p);
    RunPreserves(lib, p, START, calls);
    RecordBoundsCallbacks(lib, p, After(lib, p, START, calls).history, i);
  }

  /** Over every run a session that was revoked, expired, replaced, shut down or lost
      is never entered again. */
  lemma EndedSessionsStayClosed(lib: Library, p: AuthPolicy, calls: seq<Call>, j: nat, i: nat, m: nat)
    requires AdmissibleRun(lib, p, START, calls) && j < i < m < |After(lib, p, START, calls).history|
    requires var h := After(lib, p, START, calls).history;
      h[j].Opened? && (h[i].Opened? || EndsSession(h[i])) && (h[m].Entered? || h[m].Revoked?)
    ensures var h := After(lib, p, START, calls).history; h[m].sessionId != h[j].authority.sessionId
  {
    StartIsGood(lib, p);
    RunPreserves(lib, p, START, calls);
    RecordClosesSessions(lib, p, After(lib, p, START, calls).history, j, i, m);
  }

  /** Over every run the audit log holds the record due for every challenge, session,
      expiry and shutdown, and the session in memory is the last one it issued. */
  lemma EverythingIsAudited(lib: Library, p: AuthPolicy, calls: seq<Call>)
    requires AdmissibleRun(lib, p, START, calls)
    ensures Audited(lib, p, After(lib, p, START, calls)) && SessionLogged(After(lib, p, START, calls))
  {
    StartIsGood(lib, p);
    RunPreserves(lib, p, START, calls);
  }
}
