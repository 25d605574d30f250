/** The record threaded through the agent graph (`AnimationState`) and the
    records the agents store in it. A Python dictionary key that code reads
    with a default is an `Option` here; `None` is the missing key. */
module State {
  import opened Results

  /** The motion analysis of the two keyframes (from the vision service, or the analyzer's fallback). */
  datatype Analysis = Analysis(
    motionType: string,
    primarySubject: string,
    distancePercent: real,
    rotationDegrees: real,
    directionDescription: string,
    arcDetected: bool,
    motionEnergy: string,
    style: string,
    status: Option<string>,
    error: Option<string>)

  /** One animation principle: name, confidence, reason, parameters. */
  datatype Principle = Principle(name: string, confidence: real, reason: string, parameters: map<string, string>)

  /** The principles agent's output. */
  datatype PrincipleSet = PrincipleSet(
    applicable: seq<Principle>,
    dominant: string,
    complexity: real,
    status: Option<string>)

  /** One entry of a frame schedule; the planner sets both keys, the
      multi-keyframe script only `t`. */
  datatype ScheduleEntry = ScheduleEntry(frameIndex: Option<int>, t: Option<real>)

  /** A generation plan (the keys the generator and the routing read). */
  datatype Plan = Plan(
    numFrames: int,
    timingCurve: string,
    schedule: seq<ScheduleEntry>,
    arcType: Option<string>,
    status: Option<string>)

  /** The validator agent's record; `overall_quality_score` is the key routing reads. */
  datatype AgentValidation = AgentValidation(
    overallQualityScore: Option<real>,
    needsRefinement: Option<bool>,
    status: Option<string>)

  const EmptyValidation := AgentValidation(None, None, None)

  /** One log entry; the timestamp and free-text details are not modelled. */
  datatype LogEntry = LogEntry(agent: string, action: string)

  datatype AnimationState = AnimationState(
    keyframe1: string,
    keyframe2: string,
    instruction: string,
    jobId: string,
    analysis: Option<Analysis>,
    principles: Option<PrincipleSet>,
    plan: Option<Plan>,
    frames: seq<string>,
    validation: AgentValidation,
    refinedFrames: seq<string>,
    iterationCount: Option<int>,
    messages: seq<LogEntry>,
    error: string)

  /** `state.get("iteration_count", 0)`. */
  function IterationOf(s: AnimationState): int {
    s.iterationCount.GetOr(0)
  }

  /** `state.get("validation", {}).get("overall_quality_score", 0.0)`. */
  function QualityOf(s: AnimationState): real {
    s.validation.overallQualityScore.GetOr(0.0)
  }
}
