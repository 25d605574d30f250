/** The agent graph: the routing table after validation, the static edges,
    the initial record, and an executor that walks the graph from the entry
    point until routing says `end`. */
module Graph {
  import opened Results
  import opened State
  import opened Agents

  datatype Node = Analyzer | Principles | Planner | Generator | Validator | Refiner

  /** The three labels `route_from_validator` can return. */
  datatype Route = Refine | Replan | End

  /** Where a route leads: a node, or the graph's END. */
  datatype Target = To(node: Node) | Finish

  /** The iteration cap below which refining is still allowed. */
  const MaxIterations: int := 3

  /** `route_from_validator`: the route, and the record with `iteration_count`
      as the function leaves it. */
  function RouteFromValidator(s: AnimationState): (res: (Route, AnimationState))
    ensures res.1.(iterationCount := s.iterationCount) == s
    ensures QualityOf(s) >= 8.0 ==> res.0 == End && res.1 == s
    ensures QualityOf(s) < 6.0 && IterationOf(s) < 2 ==>
              res.0 == Replan && res.1.iterationCount == Some(IterationOf(s) + 1)
    ensures 6.0 <= QualityOf(s) < 8.0 && IterationOf(s) < 3 ==>
              res.0 == Refine && res.1.iterationCount == Some(IterationOf(s) + 1)
    ensures (QualityOf(s) < 6.0 && IterationOf(s) >= 2) || (QualityOf(s) < 8.0 && IterationOf(s) >= 3) ==>
              res.0 == End && res.1 == s
  {
    var iteration := IterationOf(s);
    var quality := QualityOf(s);
    if quality >= 8.0 then (End, s)
    else if quality < 6.0 && iteration < 2 then (Replan, s.(iterationCount := Some(iteration + 1)))
    else if quality >= 6.0 && iteration < MaxIterations then (Refine, s.(iterationCount := Some(iteration + 1)))
    else (End, s)
  }

  /** A route other than `end` is taken only below the cap and raises the
      iteration by exactly one; `end` leaves the record untouched. */
  lemma RouteBudget(s: AnimationState)
    ensures var (route, s') := RouteFromValidator(s);
            && (route == End <==> s' == s)
            && (route != End ==> IterationOf(s) < MaxIterations && IterationOf(s') == IterationOf(s) + 1)
  {
  }

  /** A record with only the two fields routing reads set. */
  function WithScore(quality: real, iteration: int): AnimationState {
    InitialState("a.png", "b.png", "").(
      validation := AgentValidation(Some(quality), None, None),
      iterationCount := Some(iteration))
  }

  /** The four routing cases the phase-0 tests check. */
  lemma RoutingExamples()
    ensures RouteFromValidator(WithScore(8.5, 0)).0 == End
    ensures RouteFromValidator(WithScore(5.5, 0)).0 == Replan
    ensures RouteFromValidator(WithScore(7.0, 0)).0 == Refine
    ensures RouteFromValidator(WithScore(7.0, 3)).0 == End
    ensures RouteFromValidator(WithScore(5.5, 2)).0 == End
  {
  }

  /** Missing score and missing counter read as 0.0 and 0: an empty
      validation record at the start replans. */
  lemma MissingFieldsDefault(s: AnimationState)
    requires s.validation.overallQualityScore.None? && s.iterationCount.None?
    ensures RouteFromValidator(s).0 == Replan
    ensures RouteFromValidator(s).1.iterationCount == Some(1)
  {
  }

  /** The conditional edge map out of the validator. */
  function RouteTarget(r: Route): Target {
    match r
    case Refine => To(Refiner)
    case Replan => To(Planner)
    case End => Finish
  }

  const EntryPoint: Node := Analyzer

  /** The unconditional edges of `build_telekinesis_graph`. */
  const Edges: set<(Node, Node)> :=
    {(Analyzer, Principles), (Principles, Planner), (Planner, Generator),
     (Generator, Validator), (Refiner, Validator)}

  /** The one unconditional successor of a node; the validator has none
      (it routes conditionally). */
  function NextNode(n: Node): (r: Option<Node>)
    ensures r.None? <==> n == Validator
  {
    match n
    case Analyzer => Some(Principles)
    case Principles => Some(Planner)
    case Planner => Some(Generator)
    case Generator => Some(Validator)
    case Refiner => Some(Validator)
    case Validator => None
  }

  /** `NextNode` is exactly the edge list: every edge leaves a node other
      than the validator, and every such node has exactly one edge. */
  lemma NextNodeIsEdges(n: Node, m: Node)
    ensures (n, m) in Edges <==> NextNode(n) == Some(m)
  {
  }

  /** The validator's three routes lead to three different places. */
  lemma RouteTargetInjective(a: Route, b: Route)
    ensures RouteTarget(a) == RouteTarget(b) <==> a == b
  {
  }

  /** `create_initial_state`: empty outputs, iteration 0, empty log. */
  function InitialState(keyframe1: string, keyframe2: string, instruction: string, jobId: string := "test_job"): (r: AnimationState)
    ensures r.keyframe1 == keyframe1 && r.keyframe2 == keyframe2
    ensures r.instruction == instruction && r.jobId == jobId
    ensures IterationOf(r) == 0 && r.messages == [] && r.frames == [] && r.refinedFrames == []
    ensures r.analysis.None? && r.principles.None? && r.plan.None?
    ensures r.validation == EmptyValidation && r.error == ""
  {
    AnimationState(
      keyframe1 := keyframe1, keyframe2 := keyframe2, instruction := instruction, jobId := jobId,
      analysis := None, principles := None, plan := None,
      frames := [], validation := EmptyValidation, refinedFrames := [],
      iterationCount := Some(0), messages := [], error := "")
  }

  /** The outcomes of the services the agents call, as functions of the
      record they see. */
  datatype Services = Services(
    vision: AnimationState -> Result<Analysis>,
    generate: AnimationState -> Result<seq<string>>,
    validate: AnimationState -> AgentValidation)

  /** The validator the shown agent actually is. */
  function StubServices(vision: AnimationState -> Result<Analysis>, generate: AnimationState -> Result<seq<string>>): Services {
    Services(vision, generate, _ => StubValidation())
  }

  /** Routing steps still available: 3 minus the iteration, at least 0. */
  function Budget(s: AnimationState): nat {
    if IterationOf(s) < MaxIterations then MaxIterations - IterationOf(s) else 0
  }

  /** Distance to the validator along unconditional edges. */
  function Rank(n: Node): nat {
    match n
    case Analyzer => 4
    case Principles => 3
    case Planner => 2
    case Generator => 1
    case Refiner => 1
    case Validator => 0
  }

  /** The log entry each node's agent writes. */
  function AgentName(n: Node): string {
    match n
    case Analyzer => "analyzer"
    case Principles => "principles"
    case Planner => "planner"
    case Generator => "generator"
    case Validator => "validator"
    case Refiner => "refiner"
  }

  /** The node's agent applied to the record: one entry, named for the node,
      is appended, and the iteration is untouched. */
  function RunAgent(n: Node, s: AnimationState, env: Services): (r: AnimationState)
    ensures IterationOf(r) == IterationOf(s)
    ensures |r.messages| == |s.messages| + 1
    ensures r.messages == s.messages + [r.messages[|s.messages|]]
    ensures r.messages[|s.messages|].agent == AgentName(n)
  {
    var r := match n
      case Analyzer => AnalyzerAgent(s, env.vision(s))
      case Principles => PrinciplesAgent(s)
      case Planner => PlannerAgent(s)
      case Generator => GeneratorAgent(s, env.generate(s))
      case Validator => ValidatorAgentWith(s, env.validate(s))
      case Refiner => RefinerAgent(s);
    assert r.messages == r.messages[..|s.messages|] + [r.messages[|s.messages|]];
    r
  }

  /** Where control goes after node `n` has run: an unconditional edge, or
      the validator's route. Every move either spends budget or moves closer
      to the validator. */
  function Step(n: Node, s: AnimationState): (res: (Target, AnimationState))
    ensures res.1.messages == s.messages
    ensures IterationOf(s) <= IterationOf(res.1)
    ensures IterationOf(res.1) <= if IterationOf(s) < MaxIterations then MaxIterations else IterationOf(s)
    ensures res.0.To? ==> Budget(res.1) < Budget(s) || (Budget(res.1) == Budget(s) && Rank(res.0.node) < Rank(n))
    ensures n != Validator ==> res == (To(NextNode(n).value), s)
  {
    match NextNode(n)
    case Some(m) => (To(m), s)
    case None =>
      RouteBudget(s);
      var (route, s') := RouteFromValidator(s);
      (RouteTarget(route), s')
  }

  /** Executes the graph from node `n` until routing reaches END. The log
      only grows, and the final iteration never passes the cap (or the
      start value, if that was already above it). */
  function Run(n: Node, s: AnimationState, env: Services): (r: AnimationState)
    ensures |r.messages| > |s.messages| && r.messages[..|s.messages|] == s.messages
    ensures IterationOf(s) <= IterationOf(r)
    ensures IterationOf(r) <= if IterationOf(s) < MaxIterations then MaxIterations else IterationOf(s)
    decreases Budget(s), Rank(n)
  {
    var s1 := RunAgent(n, s, env);
    var (target, s2) := Step(n, s1);
    match target
    case Finish =>
      ExtendsLog(s.messages, s1.messages, s2.messages);
      s2
    case To(m) =>
      var r := Run(m, s2, env);
      ExtendsLog(s.messages, s1.messages, r.messages);
      r
  }

  /** A log that extends a one-entry extension of `a` extends `a`. */
  lemma ExtendsLog(a: seq<LogEntry>, b: seq<LogEntry>, c: seq<LogEntry>)
    requires |b| == |a| + 1 && b == a + [b[|a|]]
    requires |b| <= |c| && c[..|b|] == b
    ensures |a| < |c| && c[..|a|] == a
  {
    assert c[..|a|] == c[..|b|][..|a|];
  }

  /** How many routes in `routes` loop back (are not `end`). */
  function Loops(routes: seq<Route>): nat {
    if |routes| == 0 then 0
    else (if routes[0] != End then 1 else 0) + Loops(routes[1..])
  }

  /** The routes taken when successive validations score `qualities`,
      starting from record `s`; the walk stops at the first `end` or when
      no score is left. At most `Budget(s)` of them loop back, and the
      iteration never passes the cap. */
  function RouteTrace(s: AnimationState, qualities: seq<real>): (res: (seq<Route>, AnimationState))
    ensures |res.0| <= |qualities|
    ensures forall i :: 0 <= i < |res.0| - 1 ==> res.0[i] != End
    ensures Loops(res.0) <= Budget(s)
    ensures IterationOf(s) <= IterationOf(res.1)
    ensures IterationOf(res.1) <= if IterationOf(s) < MaxIterations then MaxIterations else IterationOf(s)
    decreases |qualities|
  {
    if |qualities| == 0 then ([], s)
    else
      var scored := s.(validation := AgentValidation(Some(qualities[0]), None, None));
      var (route, s') := RouteFromValidator(scored);
      RouteBudget(scored);
      if route == End then
        assert Loops([End]) == Loops([End][1..]);
        ([End], s')
      else
        var (rest, last) := RouteTrace(s', qualities[1..]);
        assert ([route] + rest)[1..] == rest;
        ([route] + rest, last)
  }

  /** From a fresh record, whatever the scores, at most three routes loop
      back and the iteration ends at 3 or below. */
  lemma AtMostThreeLoops(s: AnimationState, qualities: seq<real>)
    requires IterationOf(s) == 0
    ensures Loops(RouteTrace(s, qualities).0) <= MaxIterations
    ensures 0 <= IterationOf(RouteTrace(s, qualities).1) <= MaxIterations
  {
  }

  /** The graph run on a fresh record. */
  function Execute(keyframe1: string, keyframe2: string, instruction: string, jobId: string, env: Services): (r: AnimationState)
    ensures IterationOf(r) <= MaxIterations
    ensures 5 <= |r.messages|
  {
    var s := InitialState(keyframe1, keyframe2, instruction, jobId);
    var r := Run(EntryPoint, s, env);
    RunFromAnalyzerLogsFive(s, env);
    r
  }

  /** From the entry point, the first five log entries are the main path. */
  lemma RunFromAnalyzerLogsFive(s: AnimationState, env: Services)
    ensures |Run(Analyzer, s, env).messages| >= |s.messages| + 5
  {
    MainPathReachesValidator(s, env);
  }

  /** With the stub validator (score 8.0), a run from the entry point visits
      each main-path agent once, in order, and routing ends at once. */
  lemma StubRunEndsAfterFirstValidation(
    keyframe1: string, keyframe2: string, instruction: string, jobId: string,
    vision: AnimationState -> Result<Analysis>, generate: AnimationState -> Result<seq<string>>)
    ensures var r := Execute(keyframe1, keyframe2, instruction, jobId, StubServices(vision, generate));
            && |r.messages| == 5
            && r.messages[0].agent == "analyzer"
            && r.messages[1].agent == "principles"
            && r.messages[2].agent == "planner"
            && r.messages[3].agent == "generator"
            && r.messages[4].agent == "validator"
            && IterationOf(r) == 0
            && QualityOf(r) == 8.0
  {
    StubRunFrom(InitialState(keyframe1, keyframe2, instruction, jobId), StubServices(vision, generate));
  }

  /** From any record, the stub validator ends the run after one pass of
      the main path: five entries are appended in graph order, the
      iteration is unchanged and the score is 8.0. */
  lemma StubRunFrom(s0: AnimationState, env: Services)
    requires env.validate == (_ => StubValidation())
    ensures var r := Run(Analyzer, s0, env);
            && |r.messages| == |s0.messages| + 5
            && r.messages[|s0.messages|].agent == "analyzer"
            && r.messages[|s0.messages| + 1].agent == "principles"
            && r.messages[|s0.messages| + 2].agent == "planner"
            && r.messages[|s0.messages| + 3].agent == "generator"
            && r.messages[|s0.messages| + 4].agent == "validator"
            && IterationOf(r) == IterationOf(s0)
            && QualityOf(r) == 8.0
  {
    var s4 := RunAgent(Generator, RunAgent(Planner, RunAgent(Principles, RunAgent(Analyzer, s0, env), env), env), env);
    MainPathReachesValidator(s0, env);
    StubValidatorEnds(s4, env);
    MainPassLog(s0, env);
    AgentNames();
  }

  lemma AgentNames()
    ensures AgentName(Analyzer) == "analyzer" && AgentName(Principles) == "principles"
    ensures AgentName(Planner) == "planner" && AgentName(Generator) == "generator"
    ensures AgentName(Validator) == "validator"
  {
  }

  /** One pass of the main path appends the five agents' entries in order. */
  lemma MainPassLog(s0: AnimationState, env: Services)
    ensures var s5 := RunAgent(Validator, RunAgent(Generator, RunAgent(Planner, RunAgent(Principles, RunAgent(Analyzer, s0, env), env), env), env), env);
            && |s5.messages| == |s0.messages| + 5
            && s5.messages[|s0.messages|].agent == AgentName(Analyzer)
            && s5.messages[|s0.messages| + 1].agent == AgentName(Principles)
            && s5.messages[|s0.messages| + 2].agent == AgentName(Planner)
            && s5.messages[|s0.messages| + 3].agent == AgentName(Generator)
            && s5.messages[|s0.messages| + 4].agent == AgentName(Validator)
            && IterationOf(s5) == IterationOf(s0)
  {
    var s1 := RunAgent(Analyzer, s0, env);
    var s2 := RunAgent(Principles, s1, env);
    var s3 := RunAgent(Planner, s2, env);
    var s4 := RunAgent(Generator, s3, env);
    var s5 := RunAgent(Validator, s4, env);
    AppendChain(s0.messages, s1.messages, s2.messages, s3.messages, s4.messages, s5.messages);
  }

  /** Five appends in a row: each entry stays where it was put. */
  lemma AppendChain(m0: seq<LogEntry>, m1: seq<LogEntry>, m2: seq<LogEntry>, m3: seq<LogEntry>, m4: seq<LogEntry>, m5: seq<LogEntry>)
    requires |m1| == |m0| + 1 && m1 == m0 + [m1[|m0|]]
    requires |m2| == |m1| + 1 && m2 == m1 + [m2[|m1|]]
    requires |m3| == |m2| + 1 && m3 == m2 + [m3[|m2|]]
    requires |m4| == |m3| + 1 && m4 == m3 + [m4[|m3|]]
    requires |m5| == |m4| + 1 && m5 == m4 + [m5[|m4|]]
    ensures |m5| == |m0| + 5
    ensures m5[|m0|] == m1[|m0|] && m5[|m0| + 1] == m2[|m1|]
    ensures m5[|m0| + 2] == m3[|m2|] && m5[|m0| + 3] == m4[|m3|] && m5[|m0| + 4] == m5[|m4|]
  {
    var k := |m0|;
    assert m5[k + 3] == m4[k + 3];
    assert m5[k + 2] == m4[k + 2] == m3[k + 2];
    assert m5[k + 1] == m4[k + 1] == m3[k + 1] == m2[k + 1];
    assert m5[k] == m4[k] == m3[k] == m2[k] == m1[k];
  }

  /** The four agents before the validator run in order, each once. */
  lemma MainPathReachesValidator(s: AnimationState, env: Services)
    ensures var s4 := RunAgent(Generator, RunAgent(Planner, RunAgent(Principles, RunAgent(Analyzer, s, env), env), env), env);
            Run(Analyzer, s, env) == Run(Validator, s4, env)
  {
    var s1 := RunAgent(Analyzer, s, env);
    var s2 := RunAgent(Principles, s1, env);
    var s3 := RunAgent(Planner, s2, env);
    AnalyzerHandsOn(s, env);
    PrinciplesHandsOn(s1, env);
    PlannerHandsOn(s2, env);
    GeneratorHandsOn(s3, env);
  }

  /* One unconditional edge each: a run from the node is its agent followed
     by a run from the next node. */
  lemma AnalyzerHandsOn(s: AnimationState, env: Services)
    ensures Run(Analyzer, s, env) == Run(Principles, RunAgent(Analyzer, s, env), env)
  {
  }

  lemma PrinciplesHandsOn(s: AnimationState, env: Services)
    ensures Run(Principles, s, env) == Run(Planner, RunAgent(Principles, s, env), env)
  {
  }

  lemma PlannerHandsOn(s: AnimationState, env: Services)
    ensures Run(Planner, s, env) == Run(Generator, RunAgent(Planner, s, env), env)
  {
  }

  lemma GeneratorHandsOn(s: AnimationState, env: Services)
    ensures Run(Generator, s, env) == Run(Validator, RunAgent(Generator, s, env), env)
  {
  }

  /** The stub validator scores 8.0, so routing ends right after it. */
  lemma StubValidatorEnds(s: AnimationState, env: Services)
    requires env.validate == (_ => StubValidation())
    ensures Run(Validator, s, env) == RunAgent(Validator, s, env)
    ensures QualityOf(RunAgent(Validator, s, env)) == 8.0
  {
    var s1 := RunAgent(Validator, s, env);
    assert s1 == ValidatorAgentWith(s, StubValidation());
    assert RouteFromValidator(s1) == (End, s1);
  }
}
