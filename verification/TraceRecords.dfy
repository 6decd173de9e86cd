/** Event data as named values, for building traces: what is written under a name
    is read back under it. */
module TraceRecords {
  import opened Prelude
  import opened Json
  import opened Canonical
  import opened CanonicalTheorems
  import opened Digests
  import opened AgentModel
  import opened TraceModel

  predicate DistinctNames(names: seq<string>) {
    forall i, j :: 0 <= i < j < |names| ==> names[i] != names[j]
  }

  function Record(names: seq<string>, values: seq<Value>): Value
    requires |names| == |values|
  {
    Obj(seq(|names|, i requires 0 <= i < |names| => Member(names[i], values[i])))
  }

  lemma RecordGet(names: seq<string>, values: seq<Value>, i: nat)
    requires |names| == |values| && DistinctNames(names) && i < |names|
    ensures Get(Record(names, values), names[i]) == Some(values[i])
  {
    var entries := Record(names, values).entries;
    assert entries[i].key == names[i];
    var found := Find(entries, names[i]);
    assert found < |entries| ==> entries[found].key == names[found];
  }

  predicate Printable(lib: Library, values: seq<Value>) {
    forall i :: 0 <= i < |values| ==> WellFormed(values[i]) && Exact(values[i], lib.parse)
  }

  lemma RecordPrintable(lib: Library, names: seq<string>, values: seq<Value>)
    requires |names| == |values| && DistinctNames(names) && Printable(lib, values)
    ensures WellFormed(Record(names, values)) && Exact(Record(names, values), lib.parse)
    ensures CanonicalDigest(ArtifactKind.AgentEvent, Record(names, values), lib.parse).Some?
  {
    var entries := Record(names, values).entries;
    assert forall i :: 0 <= i < |entries| ==> entries[i] == Member(names[i], values[i]);
    RendersNormalForm(Record(names, values), lib.parse);
  }

  const STARTED: seq<string> := ["agent_id", "goal"]
  const REQUESTED: seq<string> := ["model", "model_call"]
  const RESPONDED: seq<string> := ["response_id", "decision"]
  const FINISH_DECISION: seq<string> := ["type", "output"]
  const COMPLETED: seq<string> := ["output"]

  lemma NamesDistinct()
    ensures DistinctNames(STARTED) && DistinctNames(REQUESTED) && DistinctNames(RESPONDED)
    ensures DistinctNames(FINISH_DECISION) && DistinctNames(COMPLETED)
  {
  }

  // ----- the data common to every trace

  function StartedData(agentText: string, goal: string): Value {
    Record(STARTED, [Str(agentText), Str(goal)])
  }

  function RequestedData(model: string): Value {
    Record(REQUESTED, [Str(model), Num(Integer(1))])
  }

  function RespondedData(response: string, decision: Value): Value {
    Record(RESPONDED, [Str(response), decision])
  }

  function FinishDecision(report: string): Value {
    Record(FINISH_DECISION, [Str("finish"), Str(report)])
  }

  function CompletedData(report: string): Value {
    Record(COMPLETED, [Str(report)])
  }

  function RecordedEvent(lib: Library, run: AgentRun, i: u32, kind: EventKind, data: Value): AgentRunEvent
    requires CanonicalDigest(ArtifactKind.AgentEvent, data, lib.parse).Some?
  {
    AgentRunEvent(
      i, run.id, i, kind, data, CanonicalDigest(ArtifactKind.AgentEvent, data, lib.parse).value, run.updatedAt)
  }

  lemma StartReads(agentText: string, goal: string, model: string)
    ensures var data := StartedData(agentText, goal);
      Get(data, "agent_id") == Some(Str(agentText)) && Get(data, "goal") == Some(Str(goal))
    ensures var data := RequestedData(model);
      && Get(data, "model") == Some(Str(model)) && Get(data, "model_call") == Some(Num(Integer(1)))
      && Get(data, "previous_response_id") == None
  {
    NamesDistinct();
    hide DistinctNames;
    hide Get;
    RecordGet(STARTED, [Str(agentText), Str(goal)], 0);
    RecordGet(STARTED, [Str(agentText), Str(goal)], 1);
    RecordGet(REQUESTED, [Str(model), Num(Integer(1))], 0);
    RecordGet(REQUESTED, [Str(model), Num(Integer(1))], 1);
    NoPreviousYet([Str(model), Num(Integer(1))]);
  }

  lemma NoPreviousYet(values: seq<Value>)
    requires |values| == 2
    ensures Get(Record(REQUESTED, values), "previous_response_id") == None
  {
    var entries := Record(REQUESTED, values).entries;
    assert entries[0].key == "model" && entries[1].key == "model_call";
    var found := Find(entries, "previous_response_id");
    assert |"previous_response_id"| == 20 && |"model"| == 5 && |"model_call"| == 10;
  }

  lemma ResponseReads(response: string, decision: Value)
    ensures var data := RespondedData(response, decision);
      Get(data, "response_id") == Some(Str(response)) && Get(data, "decision") == Some(decision)
  {
    NamesDistinct();
    RecordGet(RESPONDED, [Str(response), decision], 0);
    RecordGet(RESPONDED, [Str(response), decision], 1);
  }

  lemma FinishReads(report: string)
    ensures var decision := FinishDecision(report);
      Get(decision, "type") == Some(Str("finish")) && Get(decision, "output") == Some(Str(report))
    ensures Get(CompletedData(report), "output") == Some(Str(report))
  {
    NamesDistinct();
    hide DistinctNames;
    hide Get;
    RecordGet(FINISH_DECISION, [Str("finish"), Str(report)], 0);
    RecordGet(FINISH_DECISION, [Str("finish"), Str(report)], 1);
    RecordGet(COMPLETED, [Str(report)], 0);
  }

  lemma CommonDataPrintable(
    lib: Library, agentText: string, goal: string, model: string, response: string, report: string)
    ensures CanonicalDigest(ArtifactKind.AgentEvent, StartedData(agentText, goal), lib.parse).Some?
    ensures CanonicalDigest(ArtifactKind.AgentEvent, RequestedData(model), lib.parse).Some?
    ensures CanonicalDigest(ArtifactKind.AgentEvent, RespondedData(response, FinishDecision(report)), lib.parse).Some?
    ensures CanonicalDigest(ArtifactKind.AgentEvent, CompletedData(report), lib.parse).Some?
  {
    hide CanonicalDigest;
    NamesDistinct();
    RecordPrintable(lib, FINISH_DECISION, [Str("finish"), Str(report)]);
    hide Record;
    hide DistinctNames;
    RecordPrintable(lib, STARTED, [Str(agentText), Str(goal)]);
    RecordPrintable(lib, REQUESTED, [Str(model), Num(Integer(1))]);
    RecordPrintable(lib, RESPONDED, [Str(response), FinishDecision(report)]);
    RecordPrintable(lib, COMPLETED, [Str(report)]);
  }
}
