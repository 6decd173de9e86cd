/** Matching the calls a policy expects against the steps of a trace. */
module TraceMatching {
  import opened Prelude
  import opened Json
  import opened Digests
  import opened AgentModel

  datatype ExpectedCall = ExpectedCall(
    operation: string, version: string, arguments: Value, argumentDigest: ContentDigest,
    requiresApprovedExecution: bool)

  predicate Matches(expected: ExpectedCall, step: AgentRunStep) {
    && step.operation == expected.operation
    && step.version == expected.version
    && step.inputDigest == expected.argumentDigest
  }

  type Positions = seq<Option<nat>>

  predicate AllMatched(positions: Positions) {
    forall j :: 0 <= j < |positions| ==> positions[j].Some?
  }

  /** Where the search resumes: just past the last match. */
  function Next(positions: Positions): nat {
    if positions == [] then 0
    else
      var last := positions[|positions| - 1];
      if last.Some? then last.value + 1 else Next(positions[..|positions| - 1])
  }

  predicate ChoosesFirst(expected: ExpectedCall, steps: seq<AgentRunStep>, from: nat, choice: Option<nat>) {
    match choice
    case Some(p) =>
      && from <= p < |steps| && Matches(expected, steps[p])
      && forall k :: from <= k < p ==> !Matches(expected, steps[k])
    case None => forall k :: from <= k < |steps| ==> !Matches(expected, steps[k])
  }

  /** Each call takes the first match past the previous ones. */
  predicate Greedy(expected: seq<ExpectedCall>, steps: seq<AgentRunStep>, positions: Positions) {
    && |positions| <= |expected|
    && forall j :: 0 <= j < |positions| ==> ChoosesFirst(expected[j], steps, Next(positions[..j]), positions[j])
  }

  /** The first match from a place on. */
  function FirstMatch(expected: ExpectedCall, steps: seq<AgentRunStep>, from: nat): (choice: Option<nat>)
    ensures ChoosesFirst(expected, steps, from, choice)
    decreases |steps| - from
  {
    if from >= |steps| then None
    else if Matches(expected, steps[from]) then Some(from)
    else FirstMatch(expected, steps, from + 1)
  }

  /** The greedy matching, which is unique. */
  function GreedyMatch(expected: seq<ExpectedCall>, steps: seq<AgentRunStep>): (positions: Positions)
    ensures |positions| == |expected|
  {
    if expected == [] then []
    else
      var n := |expected| - 1;
      var earlier := GreedyMatch(expected[..n], steps);
      earlier + [FirstMatch(expected[n], steps, Next(earlier))]
  }

  lemma {:induction false} GreedyMatchIsGreedy(expected: seq<ExpectedCall>, steps: seq<AgentRunStep>)
    ensures Greedy(expected, steps, GreedyMatch(expected, steps))
  {
    if expected == [] {
    } else {
      var n := |expected| - 1;
      GreedyMatchIsGreedy(expected[..n], steps);
      var earlier := GreedyMatch(expected[..n], steps);
      assert Greedy(expected, steps, earlier);
      GreedyExtends(expected, steps, earlier, FirstMatch(expected[n], steps, Next(earlier)));
    }
  }

  /** The expected calls occur among the steps in order, at the given places. */
  predicate Embeds(expected: seq<ExpectedCall>, steps: seq<AgentRunStep>, places: seq<nat>) {
    && |places| == |expected|
    && (forall i :: 0 <= i < |places| ==> places[i] < |steps| && Matches(expected[i], steps[places[i]]))
    && (forall i, j :: 0 <= i < j < |places| ==> places[i] < places[j])
  }

  /** The expected calls are an order-preserving subsequence of the steps. */
  ghost predicate IsSubsequence(expected: seq<ExpectedCall>, steps: seq<AgentRunStep>) {
    exists places :: Embeds(expected, steps, places)
  }

  predicate PositionsIncrease(positions: Positions) {
    forall i, j :: 0 <= i < j < |positions| && positions[i].Some? && positions[j].Some? ==>
      positions[i].value < positions[j].value
  }

  predicate InRange(positions: Positions, steps: seq<AgentRunStep>) {
    forall j :: 0 <= j < |positions| && positions[j].Some? ==> positions[j].value < |steps|
  }

  method MatchExpectedCalls(expected: seq<ExpectedCall>, steps: seq<AgentRunStep>) returns (positions: Positions)
    ensures positions == GreedyMatch(expected, steps)
    ensures InRange(positions, steps) && PositionsIncrease(positions)
    ensures AllMatched(positions) <==> IsSubsequence(expected, steps)
  {
    positions := [];
    var nextObserved := 0;
    for i := 0 to |expected|
      invariant positions == GreedyMatch(expected[..i], steps)
      invariant nextObserved == Next(positions) <= |steps|
    {
      var k := nextObserved;
      while k < |steps| && !Matches(expected[i], steps[k])
        invariant nextObserved <= k <= |steps|
        invariant forall j :: nextObserved <= j < k ==> !Matches(expected[i], steps[j])
      {
        k := k + 1;
      }
      var matched := if k < |steps| then Some(k) else None;
      assert matched == FirstMatch(expected[i], steps, nextObserved);
      assert expected[..i + 1][..i] == expected[..i];
      positions := positions + [matched];
      if matched.Some? {
        nextObserved := k + 1;
      }
    }
    assert expected[..|expected|] == expected;
    GreedyMatchIsGreedy(expected, steps);
    GreedyIncreases(expected, steps, positions);
    GreedyIsOptimal(expected, steps, positions);
  }

  lemma GreedyExtends(expected: seq<ExpectedCall>, steps: seq<AgentRunStep>, positions: Positions, choice: Option<nat>)
    requires Greedy(expected, steps, positions) && |positions| < |expected|
    requires ChoosesFirst(expected[|positions|], steps, Next(positions), choice)
    ensures Greedy(expected, steps, positions + [choice])
    ensures Next(positions + [choice]) == if choice.Some? then choice.value + 1 else Next(positions)
  {
    hide ChoosesFirst;
    var longer := positions + [choice];
    assert longer[..|positions|] == positions;
    forall j | 0 <= j < |longer| ensures ChoosesFirst(expected[j], steps, Next(longer[..j]), longer[j]) {
      if j < |positions| {
        assert longer[..j] == positions[..j] && longer[j] == positions[j];
      } else {
        assert longer[..j] == positions && longer[j] == choice;
      }
    }
  }

  lemma {:induction false} NextIsPast(
      expected: seq<ExpectedCall>, steps: seq<AgentRunStep>, positions: Positions, j: nat, i: nat)
    requires Greedy(expected, steps, positions) && i < j <= |positions| && positions[i].Some?
    ensures positions[i].value < Next(positions[..j])
  {
    var before := positions[..j];
    assert before[..j - 1] == positions[..j - 1];
    if i < j - 1 {
      NextIsPast(expected, steps, positions, j - 1, i);
      assert ChoosesFirst(expected[j - 1], steps, Next(positions[..j - 1]), positions[j - 1]);
    }
  }

  lemma GreedyIncreases(expected: seq<ExpectedCall>, steps: seq<AgentRunStep>, positions: Positions)
    requires Greedy(expected, steps, positions)
    ensures PositionsIncrease(positions) && InRange(positions, steps)
  {
    forall i, j | 0 <= i < j < |positions| && positions[i].Some? && positions[j].Some?
      ensures positions[i].value < positions[j].value
    {
      NextIsPast(expected, steps, positions, j, i);
      assert ChoosesFirst(expected[j], steps, Next(positions[..j]), positions[j]);
    }
    forall j | 0 <= j < |positions| && positions[j].Some? ensures positions[j].value < |steps| {
      assert ChoosesFirst(expected[j], steps, Next(positions[..j]), positions[j]);
    }
  }

  /** The greedy choice never falls behind any other placement, so it never
      fails where one exists. */
  lemma {:induction false} GreedyStaysAhead(
    expected: seq<ExpectedCall>, steps: seq<AgentRunStep>, positions: Positions, places: seq<nat>, j: nat)
    requires Greedy(expected, steps, positions) && Embeds(expected, steps, places) && j < |positions|
    ensures positions[j].Some? && positions[j].value <= places[j]
  {
    var before := positions[..j];
    assert Next(before) <= places[j] by {
      if j > 0 {
        GreedyStaysAhead(expected, steps, positions, places, j - 1);
        assert before[|before| - 1] == positions[j - 1];
      }
    }
    assert ChoosesFirst(expected[j], steps, Next(before), positions[j]);
    assert Matches(expected[j], steps[places[j]]);
  }

  /** Greedy matching finds every expected call exactly when some order-preserving
      placement of them exists. */
  lemma GreedyIsOptimal(expected: seq<ExpectedCall>, steps: seq<AgentRunStep>, positions: Positions)
    requires Greedy(expected, steps, positions) && |positions| == |expected|
    ensures AllMatched(positions) <==> IsSubsequence(expected, steps)
  {
    if AllMatched(positions) {
      var places := seq(|positions|, i requires 0 <= i < |positions| => positions[i].value);
      GreedyIncreases(expected, steps, positions);
      forall i | 0 <= i < |places| ensures places[i] < |steps| && Matches(expected[i], steps[places[i]]) {
        assert ChoosesFirst(expected[i], steps, Next(positions[..i]), positions[i]);
      }
      assert Embeds(expected, steps, places);
    }
    if places :| Embeds(expected, steps, places) {
      forall j | 0 <= j < |positions| ensures positions[j].Some? {
        GreedyStaysAhead(expected, steps, positions, places, j);
      }
    }
  }

  predicate AgreePointwise(expected: seq<ExpectedCall>, steps: seq<AgentRunStep>) {
    |expected| == |steps| && forall i :: 0 <= i < |expected| ==> Matches(expected[i], steps[i])
  }

  lemma {:induction false} TightPlaces(expected: seq<ExpectedCall>, steps: seq<AgentRunStep>, places: seq<nat>, i: nat)
    requires Embeds(expected, steps, places) && |steps| == |expected| && i < |places|
    ensures places[i] <= i
    decreases |places| - i
  {
    if i + 1 < |places| {
      TightPlaces(expected, steps, places, i + 1);
    }
  }

  lemma {:induction false} PlacesAtLeast(
      expected: seq<ExpectedCall>, steps: seq<AgentRunStep>, places: seq<nat>, i: nat)
    requires Embeds(expected, steps, places) && i < |places|
    ensures i <= places[i]
  {
    if i == 0 {
    } else {
      PlacesAtLeast(expected, steps, places, i - 1);
    }
  }

  lemma PointwiseEmbeds(expected: seq<ExpectedCall>, steps: seq<AgentRunStep>)
    requires AgreePointwise(expected, steps)
    ensures IsSubsequence(expected, steps)
  {
    var places: seq<nat> := seq(|expected|, i => i);
    assert Embeds(expected, steps, places);
  }

  lemma TightEmbeddingIsPointwise(expected: seq<ExpectedCall>, steps: seq<AgentRunStep>)
    requires IsSubsequence(expected, steps) && |steps| == |expected|
    ensures AgreePointwise(expected, steps)
  {
    var places :| Embeds(expected, steps, places);
    forall i | 0 <= i < |expected| ensures Matches(expected[i], steps[i]) {
      TightPlaces(expected, steps, places, i);
      PlacesAtLeast(expected, steps, places, i);
      assert places[i] == i;
    }
  }

  /** With no additional calls allowed, the check passes exactly when the two
      lists agree place by place. */
  lemma ExactMatchIsPointwise(expected: seq<ExpectedCall>, steps: seq<AgentRunStep>)
    ensures IsSubsequence(expected, steps) && |steps| == |expected| <==> AgreePointwise(expected, steps)
  {
    hide Embeds;
    if AgreePointwise(expected, steps) {
      PointwiseEmbeds(expected, steps);
    }
    if IsSubsequence(expected, steps) && |steps| == |expected| {
      TightEmbeddingIsPointwise(expected, steps);
    }
  }
}
