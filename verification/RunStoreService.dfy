/** The recording store as an object: methods that update its maps in place,
    each proved equal to the corresponding atomic step. */
module RunStoreService {
  import opened Prelude
  import opened Digests
  import opened AgentModel
  import opened RunStore
  import opened RunStoreRecords
  import opened RunStoreTheorems

  lemma LatestChosen(m: map<Uuid, AgentCheckpoint>, runId: Uuid, k: Uuid)
    requires UniqueSequences(m) && IsLatest(m, runId, k)
    ensures Latest(m, runId) == Some(m[k])
  {
  }

  lemma AtChosen(m: map<Uuid, AgentCheckpoint>, runId: Uuid, sequence: nat, k: Uuid)
    requires UniqueSequences(m) && IsAt(m, runId, sequence, k)
    ensures CheckpointAt(m, runId, sequence) == Some(m[k])
  {
  }

  lemma WriteKeepsUnique(m: map<Uuid, AgentCheckpoint>, c: AgentCheckpoint)
    requires UniqueSequences(m)
    requires forall k :: k in m && m[k].runId == c.runId && k != c.id ==> m[k].sequence != c.sequence
    ensures UniqueSequences(m[c.id := c])
  {
  }

  function ErrorOf<T>(r: Result<T, StoreError>): Option<StoreError> {
    if r.Ok? then None else Some(r.error)
  }

  class RecordingAgentRunStore {
    const lib: Library
    var runs: map<Uuid, AgentRun>
    var steps: map<Uuid, AgentRunStep>
    var checkpoints: map<Uuid, AgentCheckpoint>
    var events: map<Uuid, AgentRunEvent>
    var claims: map<ContentDigest, ClaimRecord>

    ghost function State(): Store
      reads this
    {
      Store(runs, steps, checkpoints, events, claims)
    }

    ghost predicate Valid()
      reads this
    {
      UniqueSequences(checkpoints) && DistinctClaims(claims) && DistinctBindings(steps)
    }

    constructor (lib: Library)
      ensures Valid() && State() == EMPTY && this.lib == lib
    {
      this.lib := lib;
      runs, steps, checkpoints, events, claims := map[], map[], map[], map[], map[];
    }

    method SaveAgentRun(run: AgentRun) returns (error: Option<StoreError>)
      requires Valid()
      modifies this
      ensures Valid() && State() == Exec(lib, old(State()), SaveRunOp(run))
      ensures error == ErrorOf(SaveVersioned(old(runs), run.id, run, RunRevision))
    {
      if run.id in runs {
        if runs[run.id] == run {
          return None;
        }
        if runs[run.id].revision < U64_MAX && runs[run.id].revision + 1 == run.revision {
          runs := runs[run.id := run];
          return None;
        }
        return Some(StaleRevision);
      }
      if run.revision != 0 {
        return Some(MustStartAtZero);
      }
      runs := runs[run.id := run];
      return None;
    }

    method SaveAgentRunStep(step: AgentRunStep) returns (error: Option<StoreError>)
      requires Valid()
      modifies this
      ensures Valid() && State() == Exec(lib, old(State()), SaveStepOp(step))
      ensures error == ErrorOf(SaveStep(old(steps), step))
    {
      if step.id in steps && steps[step.id].approvalRequestId.Some?
        && steps[step.id].approvalRequestId != step.approvalRequestId
      {
        return Some(BindingImmutable);
      }
      if step.approvalRequestId.Some?
        && exists k :: k in steps && steps[k].id != step.id && steps[k].approvalRequestId == step.approvalRequestId
      {
        return Some(BindingTaken);
      }
      var saved := SaveVersioned(steps, step.id, step, StepRevision);
      if saved.Err? {
        return Some(saved.error);
      }
      SaveStepKeepsBindings(steps, step);
      steps := saved.value;
      return None;
    }

    /** Never ambiguous, and finds the bound step whenever there is one. */
    method FindStepByApproval(approval: Uuid) returns (r: Result<Option<AgentRunStep>, StoreError>)
      requires Valid()
      ensures r.Ok?
      ensures r.value.Some? ==>
        r.value.value.id in steps && steps[r.value.value.id] == r.value.value
        && r.value.value.approvalRequestId == Some(approval)
      ensures r.value.None? ==> forall k :: k in steps ==> steps[k].approvalRequestId != Some(approval)
    {
      if k :| k in steps && steps[k].approvalRequestId == Some(approval) {
        if exists j :: j in steps && j != k && steps[j].approvalRequestId == Some(approval) {
          return Err(Ambiguous);
        }
        return Ok(Some(steps[k]));
      }
      return Ok(None);
    }

    method FindLatest(runId: Uuid) returns (current: Option<AgentCheckpoint>)
      requires Valid()
      ensures current == Latest(checkpoints, runId)
    {
      current := None;
      var remaining := checkpoints.Keys;
      while remaining != {}
        invariant remaining <= checkpoints.Keys
        invariant current.Some? ==>
          current.value.id in checkpoints && checkpoints[current.value.id] == current.value &&
            current.value.runId == runId
        invariant forall k :: k in checkpoints && k !in remaining && checkpoints[k].runId == runId ==>
          current.Some? && checkpoints[k].sequence <= current.value.sequence
        decreases |remaining|
      {
        var k :| k in remaining;
        remaining := remaining - {k};
        var c := checkpoints[k];
        if c.runId == runId && (current.None? || c.sequence >= current.value.sequence) {
          current := Some(c);
        }
      }
      if current.Some? {
        LatestChosen(checkpoints, runId, current.value.id);
      } else {
        assert !exists k :: IsLatest(checkpoints, runId, k);
      }
    }

    method FindAt(runId: Uuid, sequence: nat) returns (c: Option<AgentCheckpoint>)
      requires Valid()
      ensures c == CheckpointAt(checkpoints, runId, sequence)
    {
      if k :| k in checkpoints && checkpoints[k].runId == runId && checkpoints[k].sequence == sequence {
        AtChosen(checkpoints, runId, sequence, k);
        return Some(checkpoints[k]);
      }
      assert !exists k :: IsAt(checkpoints, runId, sequence, k);
      return None;
    }

    method AppendAgentCheckpoint(tail: Option<Tail>, c: AgentCheckpoint) returns (r: Result<AppendResult, StoreError>)
      requires Valid()
      modifies this
      ensures Valid() && State() == Exec(lib, old(State()), AppendOp(tail, c))
      ensures var a := Append(lib, old(checkpoints), tail, c);
        r == if a.Ok? then Ok(a.value.result) else Err(a.error)
    {
      var precheck := AppendPrecheck(lib, checkpoints, tail, c);
      if precheck.Some? {
        return Err(precheck.value);
      }
      var current := FindLatest(c.runId);
      if current.Some? && !Intact(lib, current.value) {
        return Err(InvalidCheckpoint);
      }
      if OptionalTail(current) == Some(TailOf(c)) {
        var predecessor := None;
        if c.sequence != 0 {
          predecessor := FindAt(c.runId, c.sequence - 1);
        }
        if predecessor.Some? && !Intact(lib, predecessor.value) {
          return Err(InvalidCheckpoint);
        }
        if current != Some(c) {
          return Err(CheckpointConflict);
        }
        return Ok(if OptionalTail(predecessor) == tail then Appended else Stale);
      }
      if OptionalTail(current) != tail {
        return Ok(Stale);
      }
      var taken := FindAt(c.runId, c.sequence);
      if taken.Some? {
        return Err(SequenceTaken);
      }
      NoneAt(checkpoints, c);
      WriteKeepsUnique(checkpoints, c);
      checkpoints := checkpoints[c.id := c];
      return Ok(Appended);
    }

    method SaveAgentCheckpoint(c: AgentCheckpoint) returns (error: Option<StoreError>)
      requires Valid()
      modifies this
      ensures Valid() && State() == Exec(lib, old(State()), SaveCheckpointOp(c))
      ensures error == ErrorOf(SaveCheckpoint(old(checkpoints), c))
    {
      if CheckpointSlotTaken(checkpoints, c) {
        return Some(SequenceTaken);
      }
      var saved := SaveOnce(checkpoints, c.id, c);
      if saved.Err? {
        return Some(saved.error);
      }
      WriteKeepsUnique(checkpoints, c);
      checkpoints := saved.value;
      return None;
    }

    method SaveAgentRunEvent(e: AgentRunEvent) returns (error: Option<StoreError>)
      requires Valid()
      modifies this
      ensures Valid() && State() == Exec(lib, old(State()), SaveEventOp(e))
      ensures error == ErrorOf(SaveEvent(old(events), e))
    {
      if EventSlotTaken(events, e) {
        return Some(SequenceTaken);
      }
      var saved := SaveOnce(events, e.id, e);
      if saved.Err? {
        return Some(saved.error);
      }
      events := saved.value;
      return None;
    }

    /** What a stored claim is answered with: its run, if its evidence still
        stands. */
    method AnswerStored(
        record: ClaimRecord, claim: Claim, ghost run: AgentRun, ghost c: AgentCheckpoint, ghost e: AgentRunEvent)
      returns (r: Result<ClaimResult, StoreError>)
      requires ValidBundle(lib, claim, run, c, e)
      ensures ClaimStart(lib, State(), claim, run, c, e, Some(record))
           == if r.Ok? then Ok(Claiming(State(), r.value)) else Err(r.error)
    {
      hide ValidBundle;
      hide Progressed;
      if record.claim != claim {
        return Ok(Conflict);
      }
      if record.initialRun.id !in runs || record.checkpointId !in checkpoints || record.eventId !in events {
        return Err(ClaimedRecordMissing);
      }
      if !ValidBundle(lib, record.claim, record.initialRun, checkpoints[record.checkpointId], events[record.eventId]) {
        return Err(InvalidClaim);
      }
      if !Progressed(record.initialRun, runs[record.initialRun.id]) {
        return Err(ClaimedRunDrifted);
      }
      return Ok(Existing(record.initialRun.id));
    }

    /** Starts a run that no stored claim stands for. */
    method AcquireClaim(claim: Claim, run: AgentRun, c: AgentCheckpoint, e: AgentRunEvent)
      returns (r: Result<ClaimResult, StoreError>)
      requires Valid() && ValidBundle(lib, claim, run, c, e) && ScanFinds(claims, claim, None)
      modifies this
      ensures Valid()
      ensures ClaimStart(lib, old(State()), claim, run, c, e, None)
           == if r.Ok? then Ok(Claiming(State(), r.value)) else Err(r.error)
      ensures r.Err? ==> State() == old(State())
    {
      hide ValidBundle;
      ClaimKeepsClaims(lib, State(), claim, run, c, e, None);
      if run.id in runs
        || c.id in checkpoints
        || (exists k :: k in checkpoints && checkpoints[k].runId == run.id && checkpoints[k].sequence == 0)
        || e.id in events
        || (exists k :: k in events && events[k].runId == run.id && events[k].sequence == 0)
      {
        return Err(ClaimConflict);
      }
      BundleCheckpoint(lib, claim, run, c, e);
      WriteKeepsUnique(checkpoints, c);
      runs := runs[run.id := run];
      checkpoints := checkpoints[c.id := c];
      events := events[e.id := e];
      claims := claims[claim.readiness := ClaimRecord(claim, run, c.id, e.id)];
      return Ok(Acquired);
    }

    /** The scan stops at an arbitrary matching claim, as a hash map's does. */
    method ClaimLiveRunStart(claim: Claim, run: AgentRun, c: AgentCheckpoint, e: AgentRunEvent)
      returns (r: Result<ClaimResult, StoreError>, ghost found: Option<ClaimRecord>)
      requires Valid()
      modifies this
      ensures Valid() && ScanFinds(old(claims), claim, found)
      ensures State() == Exec(lib, old(State()), ClaimOp(claim, run, c, e, found))
      ensures var outcome := ClaimStart(lib, old(State()), claim, run, c, e, found);
        r == if outcome.Ok? then Ok(outcome.value.result) else Err(outcome.error)
    {
      hide ValidBundle;
      hide Valid;
      var existing := None;
      if d :| d in claims && Touches(claims[d], claim) {
        existing := Some(claims[d]);
      }
      found := existing;
      if !ValidBundle(lib, claim, run, c, e) {
        r := Err(InvalidClaim);
        return;
      }
      hide ClaimStart;
      if existing.Some? {
        r := AnswerStored(existing.value, claim, run, c, e);
      } else {
        r := AcquireClaim(claim, run, c, e);
      }
    }
  }

  lemma NoneAt(m: map<Uuid, AgentCheckpoint>, c: AgentCheckpoint)
    requires CheckpointAt(m, c.runId, c.sequence).None?
    ensures forall k :: k in m && m[k].runId == c.runId ==> m[k].sequence != c.sequence
  {
    forall k | k in m && m[k].runId == c.runId ensures m[k].sequence != c.sequence {
      assert !IsAt(m, c.runId, c.sequence, k);
    }
  }
}
