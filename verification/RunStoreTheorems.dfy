/** The flat maps behave like per-run append-only logs, exactly-once claims and
    revisioned records, over every run of store calls. */
module RunStoreTheorems {
  import opened Prelude
  import opened Json
  import opened Canonical
  import opened Digests
  import opened AgentModel
  import opened RunStore

  type Checkpoints = map<Uuid, AgentCheckpoint>

  // ----- checkpoints: the map refines one log per run

  /** `log` lists exactly the run's checkpoints, numbered from zero, all intact. */
  ghost predicate IsLog(lib: Library, m: Checkpoints, runId: Uuid, log: seq<AgentCheckpoint>) {
    && (forall i :: 0 <= i < |log| ==>
      && log[i].id in m && m[log[i].id] == log[i]
      && log[i].runId == runId && log[i].sequence == i && Intact(lib, log[i]))
    && (forall k :: k in m && m[k].runId == runId ==> m[k].sequence < |log| && log[m[k].sequence] == m[k])
  }

  ghost predicate HasLog(lib: Library, m: Checkpoints, runId: Uuid) {
    exists log :: IsLog(lib, m, runId, log)
  }

  ghost predicate Structured(lib: Library, m: Checkpoints) {
    forall runId: Uuid :: HasLog(lib, m, runId)
  }

  ghost function LogFor(lib: Library, m: Checkpoints, runId: Uuid): (log: seq<AgentCheckpoint>)
    requires Structured(lib, m)
    ensures IsLog(lib, m, runId, log)
  {
    assert HasLog(lib, m, runId);
    var log :| IsLog(lib, m, runId, log); log
  }

  lemma LogUnique(lib: Library, m: Checkpoints, runId: Uuid, a: seq<AgentCheckpoint>, b: seq<AgentCheckpoint>)
    requires IsLog(lib, m, runId, a) && IsLog(lib, m, runId, b)
    ensures a == b
  {
    forall i | 0 <= i < |a| ensures a[i].sequence < |b| && b[a[i].sequence] == a[i] {
      assert m[a[i].id] == a[i];
    }
    forall i | 0 <= i < |b| ensures b[i].sequence < |a| {
      assert m[b[i].id] == b[i];
    }
    assert a != [] ==> a[|a| - 1].sequence < |b|;
    assert b != [] ==> b[|b| - 1].sequence < |a|;
  }

  function LastTail(log: seq<AgentCheckpoint>): Option<Tail> {
    if log == [] then None else Some(TailOf(log[|log| - 1]))
  }

  lemma LatestIsLast(lib: Library, m: Checkpoints, runId: Uuid, log: seq<AgentCheckpoint>)
    requires IsLog(lib, m, runId, log)
    ensures Latest(m, runId) == if log == [] then None else Some(log[|log| - 1])
  {
    if log == [] {
      assert !exists k :: IsLatest(m, runId, k);
    } else {
      assert IsLatest(m, runId, log[|log| - 1].id);
      forall k | IsLatest(m, runId, k) ensures m[k] == log[|log| - 1] {
        assert m[log[|log| - 1].id].sequence <= m[k].sequence;
      }
    }
  }

  lemma CheckpointAtIndex(lib: Library, m: Checkpoints, runId: Uuid, log: seq<AgentCheckpoint>, i: nat)
    requires IsLog(lib, m, runId, log)
    ensures CheckpointAt(m, runId, i) == if i < |log| then Some(log[i]) else None
  {
    if i < |log| {
      assert IsAt(m, runId, i, log[i].id);
    }
  }

  /** An append on an explicit log, once the up-front checks have passed. */
  function AppendToLog(
      log: seq<AgentCheckpoint>, tail: Option<Tail>, c: AgentCheckpoint): (seq<AgentCheckpoint>, AppendResult)
  {
    if log != [] && log[|log| - 1] == c then
      (log, if LastTail(log[..|log| - 1]) == tail then Appended else Stale)
    else if LastTail(log) != tail then (log, Stale)
    else (log + [c], Appended)
  }

  /** Appending what the log already ends with writes nothing. */
  lemma RetryRefinesLog(lib: Library, m: Checkpoints, tail: Option<Tail>, c: AgentCheckpoint, log: seq<AgentCheckpoint>)
    requires IsLog(lib, m, c.runId, log) && AppendPrecheck(lib, m, tail, c).None?
    requires log != [] && TailOf(log[|log| - 1]) == TailOf(c)
    ensures log[|log| - 1] == c
    ensures Append(lib, m, tail, c) == Ok(Appending(m, if LastTail(log[..|log| - 1]) == tail then Appended else Stale))
  {
    LatestIsLast(lib, m, c.runId, log);
    assert m[log[|log| - 1].id] == log[|log| - 1] == c;
    if c.sequence > 0 {
      CheckpointAtIndex(lib, m, c.runId, log, c.sequence - 1);
    }
  }

  /** Any other append compares the tail, and writes at the end of the log. */
  lemma FreshAppendRefinesLog(
      lib: Library, m: Checkpoints, tail: Option<Tail>, c: AgentCheckpoint, log: seq<AgentCheckpoint>)
    requires IsLog(lib, m, c.runId, log) && AppendPrecheck(lib, m, tail, c).None?
    requires LastTail(log) != Some(TailOf(c))
    ensures Append(lib, m, tail, c)
         == if LastTail(log) == tail then Ok(Appending(m[c.id := c], Appended)) else Ok(Appending(m, Stale))
  {
    LatestIsLast(lib, m, c.runId, log);
    if LastTail(log) == tail {
      CheckpointAtIndex(lib, m, c.runId, log, c.sequence);
    }
  }

  /** The map operation is the log operation: it fails only in the up-front
      checks, and otherwise answers and writes exactly as the log would. */
  lemma AppendRefinesLog(
      lib: Library, m: Checkpoints, tail: Option<Tail>, c: AgentCheckpoint, log: seq<AgentCheckpoint>)
    requires IsLog(lib, m, c.runId, log)
    ensures var error, r := AppendPrecheck(lib, m, tail, c), Append(lib, m, tail, c);
      if error.Some? then r == Err(error.value)
      else
        var (log', result) := AppendToLog(log, tail, c);
        r.Ok? && r.value.result == result && r.value.checkpoints == if log' == log then m else m[c.id := c]
  {
    if AppendPrecheck(lib, m, tail, c).None? {
      hide AppendPrecheck;
      hide IsLog;
      if LastTail(log) == Some(TailOf(c)) {
        RetryRefinesLog(lib, m, tail, c, log);
      } else {
        FreshAppendRefinesLog(lib, m, tail, c, log);
        assert log != [] ==> log[|log| - 1] != c;
        assert log + [c] != log;
      }
    }
  }

  predicate Succeeds(r: Result<Appending, StoreError>) {
    r.Ok? && r.value.result.Appended?
  }

  function NextSequence(tail: Option<Tail>): nat {
    if tail.None? then 0 else tail.value.sequence + 1
  }

  /** An append succeeds exactly when the checkpoint is intact, numbered after the
      expected tail, and either that tail is the end of the log and the id is free,
      or the checkpoint is the end of the log already and that tail is before it. */
  lemma AppendsExactlyWhen(
      lib: Library, m: Checkpoints, tail: Option<Tail>, c: AgentCheckpoint, log: seq<AgentCheckpoint>)
    requires IsLog(lib, m, c.runId, log)
    ensures Succeeds(Append(lib, m, tail, c)) <==>
      && Intact(lib, c) && c.sequence == NextSequence(tail)
      && (|| (LastTail(log) == tail && c.id !in m)
          || (log != [] && log[|log| - 1] == c && LastTail(log[..|log| - 1]) == tail))
  {
    AppendRefinesLog(lib, m, tail, c, log);
    hide Append;
    hide Intact;
    if log != [] {
      assert m[log[|log| - 1].id] == log[|log| - 1];
      assert log[..|log| - 1] != [] ==> log[..|log| - 1][|log| - 2] == log[|log| - 2];
      assert |log| > 1 ==> m[log[|log| - 2].id] == log[|log| - 2];
    }
  }

  /** An append fails only for what is wrong with it. */
  lemma AppendErrorsAreJust(
      lib: Library, m: Checkpoints, tail: Option<Tail>, c: AgentCheckpoint, log: seq<AgentCheckpoint>)
    requires IsLog(lib, m, c.runId, log) && Append(lib, m, tail, c).Err?
    ensures match Append(lib, m, tail, c).error
      case InvalidCheckpoint => !Intact(lib, c)
      case SequenceOverflow => NextSequence(tail) > U32_MAX
      case SequenceMismatch => c.sequence != NextSequence(tail)
      case CheckpointConflict => c.id in m && m[c.id] != c
      case ForeignTail =>
        && tail.Some? && tail.value.checkpointId in m && m[tail.value.checkpointId].runId != c.runId
      case _ => false
  {
    AppendRefinesLog(lib, m, tail, c, log);
    hide Append;
  }

  /** A written checkpoint extends its own run's log and no other. */
  lemma WriteExtendsLog(lib: Library, m: Checkpoints, c: AgentCheckpoint, runId: Uuid, log: seq<AgentCheckpoint>)
    requires IsLog(lib, m, runId, log) && c.id !in m && Intact(lib, c)
    requires c.runId == runId ==> c.sequence == |log|
    ensures IsLog(lib, m[c.id := c], runId, if c.runId == runId then log + [c] else log)
  {
  }

  /** After an append the log is the abstract one, and other runs' logs stand. */
  lemma AppendKeepsLogs(
      lib: Library, m: Checkpoints, tail: Option<Tail>, c: AgentCheckpoint, own: seq<AgentCheckpoint>,
      runId: Uuid, log: seq<AgentCheckpoint>)
    requires IsLog(lib, m, c.runId, own) && IsLog(lib, m, runId, log)
    requires Append(lib, m, tail, c).Ok?
    ensures IsLog(lib, Append(lib, m, tail, c).value.checkpoints, runId,
      if runId == c.runId then AppendToLog(own, tail, c).0 else log)
  {
    AppendRefinesLog(lib, m, tail, c, own);
    if runId == c.runId {
      LogUnique(lib, m, runId, log, own);
    }
    var (own', _) := AppendToLog(own, tail, c);
    if own' != own {
      assert LastTail(own) == tail && c.sequence == |own|;
      assert c.id !in m;
      WriteExtendsLog(lib, m, c, runId, log);
    }
  }

  lemma BundleCheckpoint(lib: Library, claim: Claim, run: AgentRun, c: AgentCheckpoint, e: AgentRunEvent)
    requires ValidBundle(lib, claim, run, c, e)
    ensures Intact(lib, c) && c.runId == run.id && c.sequence == 0
  {
  }

  /** A claim starts the log of a run that had none. */
  lemma ClaimKeepsLogs(
      lib: Library, s: Store, claim: Claim, run: AgentRun, c: AgentCheckpoint, e: AgentRunEvent,
      found: Option<ClaimRecord>, runId: Uuid, log: seq<AgentCheckpoint>)
    requires IsLog(lib, s.checkpoints, runId, log)
    requires ClaimStart(lib, s, claim, run, c, e, found).Ok?
    ensures var s' := ClaimStart(lib, s, claim, run, c, e, found).value.store;
      IsLog(lib, s'.checkpoints, runId, log) || (log == [] && IsLog(lib, s'.checkpoints, runId, [c]))
  {
    hide ValidBundle;
    var r := ClaimStart(lib, s, claim, run, c, e, found).value;
    if r.result.Acquired? {
      BundleCheckpoint(lib, claim, run, c, e);
      assert log != [] ==> s.checkpoints[log[0].id] == log[0];
      WriteExtendsLog(lib, s.checkpoints, c, runId, log);
      assert log == [] ==> log + [c] == [c];
    }
  }

  // ----- the direct save

  /** A direct save that writes continues the run's log: the checkpoint is intact
      and numbered as an append against the current tail would demand. */
  ghost predicate Continues(lib: Library, m: Checkpoints, c: AgentCheckpoint) {
    Intact(lib, c) && ExpectedSequence(OptionalTail(Latest(m, c.runId))) == Some(c.sequence)
  }

  predicate WritesDirectly(m: Checkpoints, c: AgentCheckpoint) {
    SaveCheckpoint(m, c).Ok? && c.id !in m
  }

  lemma ContinuesAtEnd(lib: Library, m: Checkpoints, c: AgentCheckpoint, log: seq<AgentCheckpoint>)
    requires IsLog(lib, m, c.runId, log)
    ensures Continues(lib, m, c) <==> Intact(lib, c) && c.sequence == |log|
  {
    LatestIsLast(lib, m, c.runId, log);
  }

  /** If the map still has a log after the write, the checkpoint is its end. */
  lemma LoggedSaveContinues(
      lib: Library, m: Checkpoints, c: AgentCheckpoint, log: seq<AgentCheckpoint>, log': seq<AgentCheckpoint>)
    requires WritesDirectly(m, c) && IsLog(lib, m, c.runId, log) && IsLog(lib, m[c.id := c], c.runId, log')
    ensures Intact(lib, c) && c.sequence == |log|
  {
    var m' := m[c.id := c];
    assert m'[c.id] == c && log'[c.sequence] == c;
    assert forall i :: 0 <= i < |log| ==> m'[log[i].id] == log[i] && log'[i] == log[i];
    assert forall i :: 0 <= i < |log'| && i != c.sequence ==> m[log'[i].id] == log'[i] && log'[i].sequence < |log|;
    assert |log| < |log'| ==> log'[|log|].sequence == |log|;
  }

  /** The save that bypasses the tail keeps the logs exactly when it continues
      one. */
  lemma DirectSaveKeepsLogsExactlyWhen(lib: Library, m: Checkpoints, c: AgentCheckpoint)
    requires Structured(lib, m) && WritesDirectly(m, c)
    ensures Structured(lib, SaveCheckpoint(m, c).value) <==> Continues(lib, m, c)
    ensures Continues(lib, m, c) <==> Intact(lib, c) && c.sequence == |LogFor(lib, m, c.runId)|
  {
    var m' := SaveCheckpoint(m, c).value;
    var log := LogFor(lib, m, c.runId);
    ContinuesAtEnd(lib, m, c, log);
    if Structured(lib, m') {
      LoggedSaveContinues(lib, m, c, log, LogFor(lib, m', c.runId));
    }
    if Continues(lib, m, c) {
      forall runId: Uuid ensures HasLog(lib, m', runId) {
        WriteExtendsLog(lib, m, c, runId, LogFor(lib, m, runId));
      }
    }
  }

  /** The smallest input that breaks a log: in an empty store, a first checkpoint
      saved directly with any number but zero. */
  lemma DirectSaveBreaksLog(lib: Library, c: AgentCheckpoint)
    requires c.sequence > 0
    ensures WritesDirectly(EMPTY.checkpoints, c)
    ensures !Structured(lib, SaveCheckpoint(EMPTY.checkpoints, c).value)
  {
    EmptyStructured(lib);
    assert IsLog(lib, EMPTY.checkpoints, c.runId, []);
    ContinuesAtEnd(lib, EMPTY.checkpoints, c, []);
    DirectSaveKeepsLogsExactlyWhen(lib, EMPTY.checkpoints, c);
  }

  lemma EmptyStructured(lib: Library)
    ensures Structured(lib, EMPTY.checkpoints)
  {
    forall runId: Uuid ensures HasLog(lib, EMPTY.checkpoints, runId) {
      assert IsLog(lib, EMPTY.checkpoints, runId, []);
    }
  }

  // ----- whole runs

  /** The only calls that could break a log are direct saves that write. */
  ghost predicate Guarded(lib: Library, s: Store, op: Op) {
    op.SaveCheckpointOp? && WritesDirectly(s.checkpoints, op.checkpoint) ==>
      Continues(lib, s.checkpoints, op.checkpoint)
  }

  ghost predicate GuardedRun(lib: Library, s: Store, ops: seq<Op>)
    decreases |ops|
  {
    ops != [] ==> Guarded(lib, s, ops[0]) && GuardedRun(lib, Exec(lib, s, ops[0]), ops[1..])
  }

  /** The log after a guarded call: a prefix is kept. */
  lemma {:induction false} ExecGrowsLog(lib: Library, s: Store, op: Op, runId: Uuid, log: seq<AgentCheckpoint>)
    returns (log': seq<AgentCheckpoint>)
    requires Guarded(lib, s, op) && Structured(lib, s.checkpoints) && IsLog(lib, s.checkpoints, runId, log)
    ensures IsLog(lib, Exec(lib, s, op).checkpoints, runId, log') && log <= log'
  {
    hide ValidBundle;
    hide Append;
    hide Continues;
    log' := log;
    if op.AppendOp? && Append(lib, s.checkpoints, op.tail, op.checkpoint).Ok? {
      var own := LogFor(lib, s.checkpoints, op.checkpoint.runId);
      AppendKeepsLogs(lib, s.checkpoints, op.tail, op.checkpoint, own, runId, log);
      if runId == op.checkpoint.runId {
        LogUnique(lib, s.checkpoints, runId, log, own);
        log' := AppendToLog(own, op.tail, op.checkpoint).0;
      }
    } else if op.ClaimOp? && ClaimStart(lib, s, op.claim, op.initialRun, op.first, op.started, op.found).Ok? {
      ClaimKeepsLogs(lib, s, op.claim, op.initialRun, op.first, op.started, op.found, runId, log);
      if !IsLog(lib, Exec(lib, s, op).checkpoints, runId, log) {
        log' := [op.first];
      }
    } else if op.SaveCheckpointOp? && WritesDirectly(s.checkpoints, op.checkpoint) {
      var own := LogFor(lib, s.checkpoints, op.checkpoint.runId);
      ContinuesAtEnd(lib, s.checkpoints, op.checkpoint, own);
      if runId == op.checkpoint.runId {
        LogUnique(lib, s.checkpoints, runId, log, own);
        log' := log + [op.checkpoint];
      }
      WriteExtendsLog(lib, s.checkpoints, op.checkpoint, runId, log);
    }
  }

  /** One call keeps the logs exactly when it is guarded. */
  lemma ExecStructuredExactlyWhen(lib: Library, s: Store, op: Op)
    requires Structured(lib, s.checkpoints)
    ensures Structured(lib, Exec(lib, s, op).checkpoints) <==> Guarded(lib, s, op)
  {
    hide Append;
    hide ValidBundle;
    if Guarded(lib, s, op) {
      forall runId: Uuid ensures HasLog(lib, Exec(lib, s, op).checkpoints, runId) {
        var log := ExecGrowsLog(lib, s, op, runId, LogFor(lib, s.checkpoints, runId));
      }
    } else {
      DirectSaveKeepsLogsExactlyWhen(lib, s.checkpoints, op.checkpoint);
    }
  }

  ghost predicate AlwaysStructured(lib: Library, s: Store, ops: seq<Op>)
    decreases |ops|
  {
    && Structured(lib, s.checkpoints)
    && (ops != [] ==> AlwaysStructured(lib, Exec(lib, s, ops[0]), ops[1..]))
  }

  lemma {:induction false} GuardedRunsKeepLogs(lib: Library, s: Store, ops: seq<Op>)
    requires Structured(lib, s.checkpoints)
    ensures AlwaysStructured(lib, s, ops) <==> GuardedRun(lib, s, ops)
    decreases |ops|
  {
    if ops == [] {
    } else {
      ExecStructuredExactlyWhen(lib, s, ops[0]);
      if Guarded(lib, s, ops[0]) {
        GuardedRunsKeepLogs(lib, Exec(lib, s, ops[0]), ops[1..]);
      }
    }
  }

  /** From the empty store, the map is one log per run after every call of a run
      exactly when each direct save in it continues a log. */
  lemma LogsHoldThroughoutExactlyWhen(lib: Library, ops: seq<Op>)
    ensures AlwaysStructured(lib, EMPTY, ops) <==> GuardedRun(lib, EMPTY, ops)
  {
    EmptyStructured(lib);
    GuardedRunsKeepLogs(lib, EMPTY, ops);
  }

  lemma {:induction false} LogsGrowFrom(lib: Library, s: Store, ops: seq<Op>, runId: Uuid)
    requires GuardedRun(lib, s, ops) && Structured(lib, s.checkpoints)
    ensures Structured(lib, After(lib, s, ops).checkpoints)
    ensures LogFor(lib, s.checkpoints, runId) <= LogFor(lib, After(lib, s, ops).checkpoints, runId)
    decreases |ops|
  {
    if ops == [] {
    } else {
      var s' := Exec(lib, s, ops[0]);
      ExecStructuredExactlyWhen(lib, s, ops[0]);
      var log' := ExecGrowsLog(lib, s, ops[0], runId, LogFor(lib, s.checkpoints, runId));
      LogUnique(lib, s'.checkpoints, runId, log', LogFor(lib, s'.checkpoints, runId));
      LogsGrowFrom(lib, s', ops[1..], runId);
    }
  }

  /** Over every guarded run from the empty store the flat map is a set of
      append-only logs: each run's log at any later time extends its log now. */
  lemma LogsOnlyGrow(lib: Library, before: seq<Op>, after: seq<Op>, runId: Uuid)
    requires GuardedRun(lib, EMPTY, before) && GuardedRun(lib, After(lib, EMPTY, before), after)
    ensures var now := After(lib, EMPTY, before);
      && Structured(lib, now.checkpoints) && Structured(lib, After(lib, now, after).checkpoints)
      && LogFor(lib, now.checkpoints, runId) <= LogFor(lib, After(lib, now, after).checkpoints, runId)
  {
    EmptyStructured(lib);
    LogsGrowFrom(lib, EMPTY, before, runId);
    LogsGrowFrom(lib, After(lib, EMPTY, before), after, runId);
  }

  /** A successful append leaves its checkpoint in the log, in the place its
      expected tail points at. */
  lemma AppendedIsLogged(lib: Library, m: Checkpoints, tail: Option<Tail>, c: AgentCheckpoint)
    requires Structured(lib, m) && Succeeds(Append(lib, m, tail, c))
    requires Structured(lib, Append(lib, m, tail, c).value.checkpoints)
    ensures ExpectedSequence(tail) == Some(c.sequence)
    ensures var log := LogFor(lib, Append(lib, m, tail, c).value.checkpoints, c.runId);
      c.sequence < |log| && log[c.sequence] == c && LastTail(log[..c.sequence]) == tail
  {
    var own := LogFor(lib, m, c.runId);
    AppendRefinesLog(lib, m, tail, c, own);
    AppendKeepsLogs(lib, m, tail, c, own, c.runId, own);
    var m' := Append(lib, m, tail, c).value.checkpoints;
    var (own', _) := AppendToLog(own, tail, c);
    LogUnique(lib, m', c.runId, own', LogFor(lib, m', c.runId));
    if own' != own {
      assert own'[..|own|] == own;
    }
  }

  lemma OneWinnerFrom(lib: Library, s: Store, tail: Option<Tail>, c: AgentCheckpoint, ops: seq<Op>, d: AgentCheckpoint)
    requires Structured(lib, s.checkpoints) && GuardedRun(lib, Exec(lib, s, AppendOp(tail, c)), ops)
    requires c.runId == d.runId
    requires Succeeds(Append(lib, s.checkpoints, tail, c))
    requires Succeeds(Append(lib, After(lib, Exec(lib, s, AppendOp(tail, c)), ops).checkpoints, tail, d))
    ensures c == d
  {
    var s1 := Exec(lib, s, AppendOp(tail, c));
    ExecStructuredExactlyWhen(lib, s, AppendOp(tail, c));
    AppendedIsLogged(lib, s.checkpoints, tail, c);
    LogsGrowFrom(lib, s1, ops, c.runId);
    var s2 := After(lib, s1, ops);
    ExecStructuredExactlyWhen(lib, s2, AppendOp(tail, d));
    AppendedIsLogged(lib, s2.checkpoints, tail, d);
    LogsGrowFrom(lib, s2, [AppendOp(tail, d)], c.runId);
    assert After(lib, s2, [AppendOp(tail, d)]) == Exec(lib, s2, AppendOp(tail, d));
  }

  /** Compare-and-set: in any guarded run from the empty store, of several appends
      to a run against one expected tail, at whatever times, at most one
      checkpoint wins. */
  lemma OneWinnerPerTail(
      lib: Library, before: seq<Op>, tail: Option<Tail>, c: AgentCheckpoint, between: seq<Op>, d: AgentCheckpoint)
    requires GuardedRun(lib, EMPTY, before)
    requires var s := After(lib, EMPTY, before);
      && Succeeds(Append(lib, s.checkpoints, tail, c))
      && GuardedRun(lib, Exec(lib, s, AppendOp(tail, c)), between)
      && Succeeds(Append(lib, After(lib, Exec(lib, s, AppendOp(tail, c)), between).checkpoints, tail, d))
    requires c.runId == d.runId
    ensures c == d
  {
    EmptyStructured(lib);
    LogsGrowFrom(lib, EMPTY, before, c.runId);
    OneWinnerFrom(lib, After(lib, EMPTY, before), tail, c, between, d);
  }

  /** A stale or failing append writes nothing. */
  lemma OnlyAppendedWrites(lib: Library, m: Checkpoints, tail: Option<Tail>, c: AgentCheckpoint)
    ensures var r := Append(lib, m, tail, c);
      r.Ok? && r.value.result.Stale? ==> r.value.checkpoints == m
  {
  }

  // ----- claims

  /** Claims are filed under their readiness digest and share neither digest. */
  predicate DistinctClaims(claims: map<ContentDigest, ClaimRecord>) {
    && (forall d :: d in claims ==> claims[d].claim.readiness == d)
    && (forall d, d' :: d in claims && d' in claims && d != d' ==> claims[d].claim.setup != claims[d'].claim.setup)
  }

  lemma ExecKeepsClaims(lib: Library, s: Store, op: Op)
    requires DistinctClaims(s.claims) && Plausible(s, op)
    ensures DistinctClaims(Exec(lib, s, op).claims)
    ensures forall d :: d in s.claims ==> d in Exec(lib, s, op).claims && Exec(lib, s, op).claims[d] == s.claims[d]
  {
    if op.ClaimOp? {
      ClaimKeepsClaims(lib, s, op.claim, op.initialRun, op.first, op.started, op.found);
    }
  }

  lemma ClaimKeepsClaims(
      lib: Library, s: Store, claim: Claim, run: AgentRun, c: AgentCheckpoint, e: AgentRunEvent,
      found: Option<ClaimRecord>)
    requires DistinctClaims(s.claims) && ScanFinds(s.claims, claim, found)
    ensures var r := ClaimStart(lib, s, claim, run, c, e, found);
      r.Ok? ==>
        && DistinctClaims(r.value.store.claims)
        && forall d :: d in s.claims ==> d in r.value.store.claims && r.value.store.claims[d] == s.claims[d]
  {
    hide ValidBundle;
    var r := ClaimStart(lib, s, claim, run, c, e, found);
    if r.Ok? && r.value.result.Acquired? {
      assert claim.readiness !in s.claims;
    }
  }

  lemma {:induction false} ClaimsStayDistinct(lib: Library, s: Store, ops: seq<Op>)
    requires DistinctClaims(s.claims) && Run(lib, s, ops)
    ensures DistinctClaims(After(lib, s, ops).claims)
    decreases |ops|
  {
    if ops == [] {
    } else {
      ExecKeepsClaims(lib, s, ops[0]);
      ClaimsStayDistinct(lib, Exec(lib, s, ops[0]), ops[1..]);
    }
  }

  /** Two records of a distinct claim map that touch an exact stored claim are
      the same, so the hash map's iteration order cannot show. */
  lemma ExactScanIsUnique(
      claims: map<ContentDigest, ClaimRecord>, claim: Claim, d: ContentDigest, found: Option<ClaimRecord>)
    requires DistinctClaims(claims) && d in claims && claims[d].claim == claim
    requires ScanFinds(claims, claim, found)
    ensures found == Some(claims[d])
  {
    if found.Some? {
      var d' :| d' in claims && claims[d'] == found.value && Touches(found.value, claim);
    }
  }

  /** Whatever record the unordered scan stops at, the claim ends the same way. */
  lemma ScanOrderIrrelevant(
      lib: Library, s: Store, claim: Claim, run: AgentRun, c: AgentCheckpoint, e: AgentRunEvent,
      found: Option<ClaimRecord>, other: Option<ClaimRecord>)
    requires DistinctClaims(s.claims)
    requires ScanFinds(s.claims, claim, found) && ScanFinds(s.claims, claim, other)
    ensures ClaimStart(lib, s, claim, run, c, e, found) == ClaimStart(lib, s, claim, run, c, e, other)
  {
    if exists d :: d in s.claims && s.claims[d].claim == claim {
      var d :| d in s.claims && s.claims[d].claim == claim;
      ExactScanIsUnique(s.claims, claim, d, found);
      ExactScanIsUnique(s.claims, claim, d, other);
    }
  }

  /** A session of the agent, started once and not yet touched. */
  predicate FreshlyStarted(lib: Library, run: AgentRun) {
    && run.agentId.Some? && lib.isV7(run.agentId.value) && lib.isV7(run.id)
    && run == AgentRun(
      run.id, run.actor, run.agentId, Session, run.goal, RunStatus.Running, 0, 1, run.createdAt, run.createdAt, None)
  }

  /** The runtime state in a checkpoint: an object under "runtime" that names the run,
      its agent, its start and the process. */
  predicate Describes(lib: Library, run: AgentRun, state: Value, runtime: Value) {
    && state.Obj? && |state.entries| == 2
    && Get(state, "kind") == Some(Str("agent_runtime_v2")) && Get(state, "runtime") == Some(runtime)
    && runtime.Obj? && Get(runtime, "schema") == Some(Str("proof-agent-runtime-state/v2"))
    && Get(runtime, "run_id").Some? && lib.decodeUuid(Get(runtime, "run_id").value) == Some(run.id)
    && Get(runtime, "agent_id").Some? && lib.decodeUuid(Get(runtime, "agent_id").value) == run.agentId
    && Get(runtime, "started_at").Some? && lib.decodeTime(Get(runtime, "started_at").value) == Some(run.createdAt)
    && Get(runtime, "process_epoch_id").Some?
    && var epoch := lib.decodeUuid(Get(runtime, "process_epoch_id").value);
    epoch.Some? && lib.isV7(epoch.value)
  }

  /** A run with its first checkpoint and its first event, in this order of time,
      both with the right digests, the one describing the run and the other repeating
      what it says. */
  ghost predicate InitialBarrier(lib: Library, run: AgentRun, c: AgentCheckpoint, e: AgentRunEvent) {
    && FreshlyStarted(lib, run)
    && lib.isV7(c.id) && lib.isV7(e.id)
    && c == AgentCheckpoint.AgentCheckpoint(c.id, run.id, 0, c.state, c.stateDigest, c.createdAt)
    && e == AgentRunEvent(e.id, run.id, 0, Started, e.data, e.dataDigest, e.createdAt)
    && run.createdAt <= c.createdAt <= e.createdAt
    && CanonicalDigest(ArtifactKind.AgentCheckpoint, c.state, lib.parse) == Some(c.stateDigest)
    && CanonicalDigest(ArtifactKind.AgentEvent, e.data, lib.parse) == Some(e.dataDigest)
    && exists runtime :: Describes(lib, run, c.state, runtime) && Agree(e.data, StartedData(runtime), Compared)
  }

  lemma EnvelopeExactlyWhen(lib: Library, run: AgentRun, c: AgentCheckpoint)
    requires run.agentId.Some?
    ensures ValidEnvelope(lib, run, c) <==> Describes(lib, run, c.state, RuntimeOf(c))
    ensures forall runtime :: Describes(lib, run, c.state, runtime) ==> runtime == RuntimeOf(c)
  {
  }

  /** The bundle of a claim is valid exactly when it is an initial barrier and the
      claim names two real digests. */
  lemma BundleExactlyWhen(lib: Library, claim: Claim, run: AgentRun, c: AgentCheckpoint, e: AgentRunEvent)
    ensures ValidBundle(lib, claim, run, c, e) <==>
      && claim.schema == "proof-live-run-start-claim/v1"
      && lib.zeroDigest !in {claim.readiness, claim.setup}
      && InitialBarrier(lib, run, c, e)
  {
    hide ValidEnvelope;
    hide Describes;
    hide Agree;
    hide StartedData;
    if run.agentId.Some? {
      EnvelopeExactlyWhen(lib, run, c);
    }
  }

  /** No stored record stands in the way of the bundle. */
  predicate Unclaimed(s: Store, run: AgentRun, c: AgentCheckpoint, e: AgentRunEvent) {
    && run.id !in s.runs && c.id !in s.checkpoints && e.id !in s.events
    && (forall k :: k in s.checkpoints ==> s.checkpoints[k].runId != run.id || s.checkpoints[k].sequence != 0)
    && (forall k :: k in s.events ==> s.events[k].runId != run.id || s.events[k].sequence != 0)
  }

  predicate SharesDigest(a: Claim, b: Claim) {
    a.readiness == b.readiness || a.setup == b.setup
  }

  /** A claim with a valid bundle is acquired exactly when no stored claim shares a
      digest with it and nothing stands in its way, and conflicts exactly when a
      different stored claim shares one. */
  lemma AcquiresExactlyWhen(
      lib: Library, s: Store, claim: Claim, run: AgentRun, c: AgentCheckpoint, e: AgentRunEvent,
      found: Option<ClaimRecord>)
    requires DistinctClaims(s.claims) && ScanFinds(s.claims, claim, found) && ValidBundle(lib, claim, run, c, e)
    ensures var r := ClaimStart(lib, s, claim, run, c, e, found);
      && (r.Ok? && r.value.result.Acquired? <==>
        Unclaimed(s, run, c, e) && forall d :: d in s.claims ==> !SharesDigest(s.claims[d].claim, claim))
      && (r.Ok? && r.value.result.Acquired? ==> r.value.store == Store(
        s.runs[run.id := run], s.steps, s.checkpoints[c.id := c], s.events[e.id := e],
        s.claims[claim.readiness := ClaimRecord(claim, run, c.id, e.id)]))
      && (r.Ok? && r.value.result.Conflict? ==>
        exists d :: d in s.claims && s.claims[d].claim != claim && SharesDigest(s.claims[d].claim, claim))
      && (r.Ok? && !r.value.result.Acquired? ==> r.value.store == s)
  {
    hide ValidBundle;
    if found.Some? {
      var d :| d in s.claims && s.claims[d] == found.value && Touches(found.value, claim);
      assert SharesDigest(s.claims[d].claim, claim);
    }
  }

  /** The evidence a stored claim vouches for is present and unchanged, and so is
      its run, whatever became of it. */
  predicate Evidenced(lib: Library, s: Store, r: ClaimRecord) {
    && r.initialRun.id in s.runs
    && r.checkpointId in s.checkpoints && r.eventId in s.events
    && ValidBundle(lib, r.claim, r.initialRun, s.checkpoints[r.checkpointId], s.events[r.eventId])
  }

  predicate AllEvidenced(lib: Library, s: Store) {
    forall d :: d in s.claims ==> Evidenced(lib, s, s.claims[d])
  }

  /** Checkpoints and events are never replaced or removed, nor are runs removed. */
  lemma EvidenceImmutable(lib: Library, s: Store, op: Op)
    ensures var s' := Exec(lib, s, op);
      && (forall k :: k in s.checkpoints ==> k in s'.checkpoints && s'.checkpoints[k] == s.checkpoints[k])
      && (forall k :: k in s.events ==> k in s'.events && s'.events[k] == s.events[k])
      && (forall k :: k in s.runs ==> k in s'.runs)
  {
    hide ValidBundle;
  }

  lemma ExecKeepsEvidenced(lib: Library, s: Store, op: Op)
    requires AllEvidenced(lib, s)
    ensures AllEvidenced(lib, Exec(lib, s, op))
  {
    hide ValidBundle;
    hide Append;
    var s' := Exec(lib, s, op);
    EvidenceImmutable(lib, s, op);
    forall d | d in s'.claims ensures Evidenced(lib, s', s'.claims[d]) {
      if d in s.claims && s'.claims[d] == s.claims[d] {
        assert Evidenced(lib, s, s.claims[d]);
      } else {
        NewClaimEvidenced(lib, s, op, d);
      }
    }
  }

  lemma NewClaimEvidenced(lib: Library, s: Store, op: Op, d: ContentDigest)
    requires d in Exec(lib, s, op).claims
    requires d !in s.claims || Exec(lib, s, op).claims[d] != s.claims[d]
    ensures Evidenced(lib, Exec(lib, s, op), Exec(lib, s, op).claims[d])
  {
    hide ValidBundle;
    hide Append;
  }

  lemma {:induction false} ClaimsSurvive(lib: Library, s: Store, ops: seq<Op>)
    requires DistinctClaims(s.claims) && AllEvidenced(lib, s) && Run(lib, s, ops)
    ensures var s' := After(lib, s, ops);
      && DistinctClaims(s'.claims) && AllEvidenced(lib, s')
      && forall d :: d in s.claims ==> d in s'.claims && s'.claims[d] == s.claims[d]
    decreases |ops|
  {
    if ops == [] {
    } else {
      ExecKeepsClaims(lib, s, ops[0]);
      ExecKeepsEvidenced(lib, s, ops[0]);
      ClaimsSurvive(lib, Exec(lib, s, ops[0]), ops[1..]);
    }
  }

  /** A claim was acquired after the calls in `before`; `after` followed. */
  ghost predicate AcquiredThen(
    lib: Library, before: seq<Op>, claim: Claim, run: AgentRun, c: AgentCheckpoint, e: AgentRunEvent, acquired: Store,
    after: seq<Op>, later: Store)
  {
    && Run(lib, EMPTY, before)
    && ScanFinds(After(lib, EMPTY, before).claims, claim, None)
    && ClaimStart(lib, After(lib, EMPTY, before), claim, run, c, e, None) == Ok(Claiming(acquired, Acquired))
    && Run(lib, acquired, after) && later == After(lib, acquired, after)
  }

  lemma AcquiredIsEvidenced(
      lib: Library, s: Store, claim: Claim, run: AgentRun, c: AgentCheckpoint, e: AgentRunEvent, acquired: Store)
    requires DistinctClaims(s.claims) && AllEvidenced(lib, s) && ScanFinds(s.claims, claim, None)
    requires ClaimStart(lib, s, claim, run, c, e, None) == Ok(Claiming(acquired, Acquired))
    ensures DistinctClaims(acquired.claims) && AllEvidenced(lib, acquired)
    ensures claim.readiness in acquired.claims
    ensures acquired.claims[claim.readiness] == ClaimRecord(claim, run, c.id, e.id)
    ensures run.id in acquired.runs && acquired.runs[run.id] == run
  {
    hide ValidBundle;
    ClaimKeepsClaims(lib, s, claim, run, c, e, None);
    forall d | d in acquired.claims ensures Evidenced(lib, acquired, acquired.claims[d]) {
      if d != claim.readiness {
        assert Evidenced(lib, s, s.claims[d]);
      }
    }
  }

  lemma AcquiredClaimStands(
      lib: Library, before: seq<Op>, claim: Claim, run: AgentRun, c: AgentCheckpoint, e: AgentRunEvent, acquired: Store,
      after: seq<Op>, later: Store)
    requires AcquiredThen(lib, before, claim, run, c, e, acquired, after, later)
    ensures DistinctClaims(later.claims) && AllEvidenced(lib, later)
    ensures claim.readiness in later.claims
    ensures later.claims[claim.readiness] == ClaimRecord(claim, run, c.id, e.id)
    ensures run.id in acquired.runs && acquired.runs[run.id] == run
  {
    hide Run;
    hide ClaimStart;
    ClaimsSurvive(lib, EMPTY, before);
    AcquiredIsEvidenced(lib, After(lib, EMPTY, before), claim, run, c, e, acquired);
    ClaimsSurvive(lib, acquired, after);
  }

  /** The same run, no older in revision or time, whatever its status. */
  predicate Descends(initial: AgentRun, current: AgentRun) {
    && initial.revision <= current.revision && initial.updatedAt <= current.updatedAt
    && current == initial.(
      status := current.status, retryCount := current.retryCount, revision := current.revision,
      updatedAt := current.updatedAt, completedAt := current.completedAt)
  }

  lemma DescentIsProgress(initial: AgentRun, current: AgentRun)
    ensures Descends(initial, current) <==> Progressed(initial, current)
  {
  }

  /** Through any store calls and whatever order the scan takes, an acquired claim
      repeated with any valid bundle is answered with the first run, unless that
      run's record no longer descends from the one claimed; then it is refused,
      and in no case started again. */
  lemma RepeatedClaimAnswersExactly(
      lib: Library, before: seq<Op>, claim: Claim, run: AgentRun, c: AgentCheckpoint, e: AgentRunEvent, acquired: Store,
      after: seq<Op>, later: Store, run': AgentRun, c': AgentCheckpoint, e': AgentRunEvent,
      found: Option<ClaimRecord>)
    requires AcquiredThen(lib, before, claim, run, c, e, acquired, after, later)
    requires ValidBundle(lib, claim, run', c', e') && ScanFinds(later.claims, claim, found)
    ensures run.id in later.runs
    ensures ClaimStart(lib, later, claim, run', c', e', found)
         == if Descends(run, later.runs[run.id]) then Ok(Claiming(later, Existing(run.id)))
            else Err(ClaimedRunDrifted)
  {
    hide Descends;
    hide Progressed;
    AcquiredClaimStands(lib, before, claim, run, c, e, acquired, after, later);
    DescentIsProgress(run, later.runs[run.id]);
    hide AcquiredThen;
    hide ValidBundle;
    ExactScanIsUnique(later.claims, claim, claim.readiness, found);
    assert Evidenced(lib, later, later.claims[claim.readiness]);
  }

  /** Runs already stored are overwritten only by their own transitions, at
      times that do not go back. */
  ghost predicate Lawful(s: Store, op: Op) {
    op.SaveRunOp? && op.run.id in s.runs ==> op.run == s.runs[op.run.id] || Evolves(s.runs[op.run.id], op.run)
  }

  ghost predicate LawfulRun(lib: Library, s: Store, ops: seq<Op>)
    decreases |ops|
  {
    ops != [] ==> Lawful(s, ops[0]) && LawfulRun(lib, Exec(lib, s, ops[0]), ops[1..])
  }

  lemma EvolutionProgresses(before: AgentRun, after: AgentRun)
    requires Evolves(before, after)
    ensures Progressed(before, after)
  {
    var action, now :| now >= before.updatedAt && Act(before, action, now) == Ok(after);
  }

  lemma RunsOnlyProgress(lib: Library, s: Store, op: Op, id: Uuid)
    requires Lawful(s, op) && id in s.runs
    ensures id in Exec(lib, s, op).runs && Progressed(s.runs[id], Exec(lib, s, op).runs[id])
  {
    hide ValidBundle;
    hide Append;
    if op.SaveRunOp? && op.run.id == id && op.run != s.runs[id] {
      EvolutionProgresses(s.runs[id], op.run);
    }
  }

  lemma {:induction false} LawfulRunsProgress(lib: Library, s: Store, ops: seq<Op>, id: Uuid)
    requires LawfulRun(lib, s, ops) && id in s.runs
    ensures id in After(lib, s, ops).runs && Progressed(s.runs[id], After(lib, s, ops).runs[id])
    decreases |ops|
  {
    if ops == [] {
    } else {
      RunsOnlyProgress(lib, s, ops[0], id);
      LawfulRunsProgress(lib, Exec(lib, s, ops[0]), ops[1..], id);
    }
  }

  /** Exactly once: where runs are updated only by their own transitions, at times
      that do not go back, the repeated claim always answers with the first run. */
  lemma ClaimIsExactlyOnce(
      lib: Library, before: seq<Op>, claim: Claim, run: AgentRun, c: AgentCheckpoint, e: AgentRunEvent, acquired: Store,
      after: seq<Op>, later: Store, run': AgentRun, c': AgentCheckpoint, e': AgentRunEvent,
      found: Option<ClaimRecord>)
    requires AcquiredThen(lib, before, claim, run, c, e, acquired, after, later) && LawfulRun(lib, acquired, after)
    requires ValidBundle(lib, claim, run', c', e') && ScanFinds(later.claims, claim, found)
    ensures ClaimStart(lib, later, claim, run', c', e', found) == Ok(Claiming(later, Existing(run.id)))
  {
    hide ValidBundle;
    hide ClaimStart;
    AcquiredClaimStands(lib, before, claim, run, c, e, acquired, after, later);
    RepeatedClaimAnswersExactly(lib, before, claim, run, c, e, acquired, after, later, run', c', e', found);
    LawfulRunsProgress(lib, acquired, after, run.id);
  }
}
