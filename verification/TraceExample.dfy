/** The shortest trace that passes: a run without tool calls.  Passing is not an
    empty notion, for any agent, goal, model and output. */
module TraceExample {
  import opened Prelude
  import opened Json
  import opened Digests
  import opened AgentModel
  import opened TraceModel
  import opened TraceTopology
  import opened TraceLifecycle
  import opened TraceEval
  import opened TraceRecords

  function Shortest(
    lib: Library, run: AgentRun, agent: AgentDefinition, actor: Principal, agentText: string, response: string,
    output: string): Trace
  {
    CommonDataPrintable(lib, agentText, run.goal, agent.model, response, output);
    Trace(
      run, agent, actor, [], [],
      [RecordedEvent(lib, run, 0, Started, StartedData(agentText, run.goal)),
       RecordedEvent(lib, run, 1, ModelRequested, RequestedData(agent.model)),
       RecordedEvent(lib, run, 2, ModelResponded, RespondedData(response, FinishDecision(output))),
       RecordedEvent(lib, run, 3, Completed, CompletedData(output))],
      [])
  }

  lemma ShortestTurn(
    lib: Library, run: AgentRun, agent: AgentDefinition, actor: Principal, agentText: string, response: string,
    output: string)
    requires !IsBlank(response) && !IsBlank(output)
    ensures TurnsOk(lib, Shortest(lib, run, agent, actor, agentText, response, output), {})
  {
    var t := Shortest(lib, run, agent, actor, agentText, response, output);
    StartReads(agentText, run.goal, agent.model);
    ResponseReads(response, FinishDecision(output));
    FinishReads(output);
    hide Get;
    assert t.events[1].data == RequestedData(agent.model);
    assert t.events[2].data == RespondedData(response, FinishDecision(output));
    assert t.events[3].data == CompletedData(output);
    assert Exchange(t, 1, 1, None);
    assert DecisionOf(t.events[2]) == FinishDecision(output);
    assert FinishPart(t, 1);
    assert Offset(t.steps, 0) == 1;
    assert TurnOk(lib, t, {}, 0);
  }

  lemma ShortestEnds(
    lib: Library, run: AgentRun, agent: AgentDefinition, actor: Principal, agentText: string, response: string,
    output: string)
    requires RunTimesOk(run) && run.status.Succeeded?
    requires lib.parseUuid(agentText) == Some(agent.id) && !IsBlank(output)
    ensures var t := Shortest(lib, run, agent, actor, agentText, response, output);
      StartOk(lib, t) && EndOk(t) && EventsOk(lib, t, |t.events|)
  {
    var t := Shortest(lib, run, agent, actor, agentText, response, output);
    StartReads(agentText, run.goal, agent.model);
    FinishReads(output);
    hide Get;
    hide CanonicalDigest;
    assert t.events[0].data == StartedData(agentText, run.goal);
    assert t.events[3].data == CompletedData(output);
    CommonDataPrintable(lib, agentText, run.goal, agent.model, response, output);
    assert EventOk(lib, t, 0) && EventOk(lib, t, 1) && EventOk(lib, t, 2) && EventOk(lib, t, 3);
  }

  /** Every succeeded run of the agent with an output has a passing trace. */
  lemma ShortestTracePasses(
    lib: Library, run: AgentRun, agent: AgentDefinition, actor: Principal, agentText: string, response: string,
    output: string)
    requires RunTimesOk(run) && run.status.Succeeded? && run.agentId == Some(agent.id)
    requires actor.id == run.actor && actor.kind.Agent?
    requires lib.parseUuid(agentText) == Some(agent.id) && !IsBlank(response) && !IsBlank(output)
    ensures TaskCorrect(lib, Policy([], false, []), Shortest(lib, run, agent, actor, agentText, response, output))
  {
    var t := Shortest(lib, run, agent, actor, agentText, response, output);
    assert t.steps == [] && t.approvals == [];
    ShortestTurn(lib, run, agent, actor, agentText, response, output);
    ShortestEnds(lib, run, agent, actor, agentText, response, output);
    hide TurnsOk;
    hide StartOk;
    hide EndOk;
    hide EventsOk;
    assert RequiredStepIds([], [], t.steps) == {};
    assert NoFailures(t.events);
  }
}
