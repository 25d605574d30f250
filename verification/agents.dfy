/** The six agents as transformers of the pipeline record. Each writes its
    own output field, appends exactly one log entry naming itself, and leaves
    every other field as it was. The services an agent calls are given as
    their outcomes (`Ok` value or `Err` message). */
module Agents {
  import opened Results
  import opened Text
  import opened Naming
  import opened Timing
  import opened State
  import PrinciplesService
  import FrameGenerator

  /** `r`'s log is `s`'s log plus one entry by `agent`. */
  predicate AppendsOneEntry(s: AnimationState, r: AnimationState, agent: string) {
    && |r.messages| == |s.messages| + 1
    && r.messages[..|s.messages|] == s.messages
    && r.messages[|s.messages|].agent == agent
  }

  function AppendLog(s: AnimationState, agent: string, action: string): (r: AnimationState)
    ensures AppendsOneEntry(s, r, agent)
    ensures r.(messages := s.messages) == s
  {
    s.(messages := s.messages + [LogEntry(agent, action)])
  }

  /** The analysis used when the vision service fails. */
  function FallbackAnalysis(error: string): Analysis {
    Analysis(
      motionType := "unknown",
      primarySubject := "detected_object",
      distancePercent := 0.0,
      rotationDegrees := 0.0,
      directionDescription := "unknown",
      arcDetected := false,
      motionEnergy := "medium",
      style := "unknown",
      status := Some("fallback"),
      error := Some(error))
  }

  /** `analyzer_agent`: the vision service's analysis, or the neutral fallback on failure. */
  function AnalyzerAgent(s: AnimationState, vision: Result<Analysis>): (r: AnimationState)
    ensures AppendsOneEntry(s, r, "analyzer")
    ensures r.(analysis := s.analysis, messages := s.messages) == s
    ensures r.analysis.Some?
    ensures vision.Ok? ==> r.analysis.value == vision.value
    ensures vision.Err? ==>
              && r.analysis.value.motionType == "unknown"
              && r.analysis.value.motionEnergy == "medium"
              && r.analysis.value.status == Some("fallback")
              && r.analysis.value.error == Some(vision.error)
  {
    var analysis := match vision
      case Ok(a) => a
      case Err(e) => FallbackAnalysis(e);
    AppendLog(s.(analysis := Some(analysis)), "analyzer", "completed_analysis")
  }

  /** The principles agent's hard-coded set: arc, slow-in/slow-out, timing. */
  function StubPrinciples(): PrincipleSet {
    PrincipleSet(
      [ Principle("arc", 0.8, "Phase 0 stub - default principle", map["arc_type" := "circular"]),
        Principle("slow_in_slow_out", 0.8, "Phase 0 stub - default principle", map["ease_type" := "ease-in-out"]),
        Principle("timing", 1.0, "Always applicable", map["speed_category" := "normal"]) ],
      "arc", 0.5, Some("stub"))
  }

  /** `principles_agent`: three principles, confidences in [0, 1], `timing`
      at full confidence; the set passes the principles service's schema check. */
  function PrinciplesAgent(s: AnimationState): (r: AnimationState)
    ensures AppendsOneEntry(s, r, "principles")
    ensures r.(principles := s.principles, messages := s.messages) == s
    ensures r.principles.Some?
    ensures |r.principles.value.applicable| == 3
    ensures forall i :: 0 <= i < 3 ==> 0.0 <= r.principles.value.applicable[i].confidence <= 1.0
    ensures exists i :: 0 <= i < 3 && r.principles.value.applicable[i] .name == "timing"
                                   && r.principles.value.applicable[i].confidence == 1.0
    ensures PrinciplesService.ValidatePrinciplesData(PrinciplesService.PrincipleSetToJson(r.principles.value)).Pass?
  {
    var ps := StubPrinciples();
    PrinciplesService.TypedPrinciplesPass(ps);
    assert ps.applicable[2].name == "timing";
    AppendLog(s.(principles := Some(ps)), "principles", "identified_principles")
  }

  /** The planner's schedule for `n` frames: index `i` at `t = i / (n - 1)`
      (`t = 0` when `n <= 1`). */
  function PlannerSchedule(n: int): (r: seq<ScheduleEntry>)
    ensures |r| == if n < 0 then 0 else n
    ensures forall i :: 0 <= i < |r| ==> r[i].frameIndex == Some(i) && r[i].t.Some?
    ensures forall i :: 0 <= i < |r| ==> 0.0 <= r[i].t.value <= 1.0
    ensures n > 1 ==> r[0].t == Some(0.0) && r[n - 1].t == Some(1.0)
    ensures forall i, j :: 0 <= i < j < |r| ==> r[i].t.value < r[j].t.value
  {
    if n <= 0 then []
    else if n == 1 then [ScheduleEntry(Some(0), Some(0.0))]
    else
      var times := EvenTimes(n);
      seq(n, i requires 0 <= i < n => ScheduleEntry(Some(i), Some(times[i])))
  }

  /** The planner's fixed plan: 8 frames, linear timing, no arc. */
  function StubPlan(): Plan {
    Plan(8, "linear", PlannerSchedule(8), Some("none"), Some("stub"))
  }

  /** `planner_agent`: 8 schedule entries with `frame_index = i` and
      `t = i / 7`, from 0 to 1; `num_frames` equals the schedule length. */
  function PlannerAgent(s: AnimationState): (r: AnimationState)
    ensures AppendsOneEntry(s, r, "planner")
    ensures r.(plan := s.plan, messages := s.messages) == s
    ensures r.plan.Some?
    ensures r.plan.value.numFrames == |r.plan.value.schedule| == 8
    ensures r.plan.value.timingCurve == "linear" && r.plan.value.arcType == Some("none")
    ensures forall i :: 0 <= i < 8 ==> r.plan.value.schedule[i].frameIndex == Some(i)
    ensures r.plan.value.schedule[0].t == Some(0.0) && r.plan.value.schedule[7].t == Some(1.0)
    ensures forall i :: 0 <= i < 8 ==> r.plan.value.schedule[i].t == Some((i as real) / 7.0)
  {
    var p := StubPlan();
    assert forall i :: 0 <= i < 8 ==> p.schedule[i].t == Some(Ratio(i, 8));
    AppendLog(s.(plan := Some(p)), "planner", "created_plan")
  }

  /** `outputs/{job_id}/frame_{i:03d}.png`. */
  function OutputFramePath(jobId: string, i: nat): string {
    JoinPath(JoinPath("outputs", jobId), FrameFileName("frame", i))
  }

  /** `plan.get("num_frames", 8)` on the state's plan. */
  function PlannedFrameCount(s: AnimationState): int {
    match s.plan
    case Some(p) => p.numFrames
    case None => 8
  }

  /** `generator_agent`: the frame service's paths; on failure, one
      placeholder path per planned frame, in order, and the error is recorded. */
  function GeneratorAgent(s: AnimationState, generated: Result<seq<string>>): (r: AnimationState)
    ensures AppendsOneEntry(s, r, "generator")
    ensures r.(frames := s.frames, error := s.error, messages := s.messages) == s
    ensures generated.Ok? ==> r.frames == generated.value && r.error == s.error
    ensures generated.Err? ==>
              && |r.frames| == (if PlannedFrameCount(s) < 0 then 0 else PlannedFrameCount(s))
              && (forall i :: 0 <= i < |r.frames| ==> r.frames[i] == OutputFramePath(s.jobId, i))
              && r.error == "Frame generation failed: " + generated.error
  {
    match generated
    case Ok(frames) => AppendLog(s.(frames := frames), "generator", "generated_frames")
    case Err(e) =>
      var n := PlannedFrameCount(s);
      var count := if n < 0 then 0 else n;
      var frames := seq(count, i requires 0 <= i < count => OutputFramePath(s.jobId, i));
      AppendLog(s.(frames := frames, error := "Frame generation failed: " + e), "generator", "generated_frames")
  }

  /** The generator agent calling the frame generator service with
      `output_dir="outputs"`: its paths on success are exactly the
      placeholder paths, one per schedule entry. */
  function GeneratorAgentWithService(s: AnimationState, load: string -> Result<FrameGenerator.Image>, cv: FrameGenerator.Vision): (r: AnimationState)
    ensures AppendsOneEntry(s, r, "generator")
    ensures r.(frames := s.frames, error := s.error, messages := s.messages) == s
    ensures FrameGenerator.GenerateFrames(s.keyframe1, s.keyframe2, s.plan, s.jobId, "outputs", load, cv).Ok? ==>
              && r.error == s.error
              && |r.frames| == |FrameGenerator.PlanSchedule(s.plan)|
              && forall i :: 0 <= i < |r.frames| ==> r.frames[i] == OutputFramePath(s.jobId, i)
    ensures FrameGenerator.GenerateFrames(s.keyframe1, s.keyframe2, s.plan, s.jobId, "outputs", load, cv).Err? ==>
              |r.frames| == (if PlannedFrameCount(s) < 0 then 0 else PlannedFrameCount(s))
  {
    var generated := match FrameGenerator.GenerateFrames(s.keyframe1, s.keyframe2, s.plan, s.jobId, "outputs", load, cv)
      case Ok(frames) => Ok(seq(|frames|, i requires 0 <= i < |frames| => frames[i].path))
      case Err(e) => Err(e);
    GeneratorAgent(s, generated)
  }

  /** The validator agent's fixed record: score 8.0, no refinement needed. */
  function StubValidation(): AgentValidation {
    AgentValidation(Some(8.0), Some(false), Some("stub"))
  }

  /** The validator node with the record a validator produced. */
  function ValidatorAgentWith(s: AnimationState, v: AgentValidation): (r: AnimationState)
    ensures AppendsOneEntry(s, r, "validator")
    ensures r.(validation := s.validation, messages := s.messages) == s
    ensures r.validation == v
  {
    AppendLog(s.(validation := v), "validator", "validated_frames")
  }

  /** `validator_agent`: always scores 8.0 and asks for no refinement. */
  function ValidatorAgent(s: AnimationState): (r: AnimationState)
    ensures AppendsOneEntry(s, r, "validator")
    ensures r.(validation := s.validation, messages := s.messages) == s
    ensures QualityOf(r) == 8.0 && r.validation.needsRefinement == Some(false)
  {
    ValidatorAgentWith(s, StubValidation())
  }

  /** `f.replace("frame_", "refined_frame_")`. */
  function RefinedPath(f: string): string {
    ReplaceAll(f, "frame_", "refined_frame_")
  }

  /** `refiner_agent`: one refined path per frame, in order; `frames` itself is untouched. */
  function RefinerAgent(s: AnimationState): (r: AnimationState)
    ensures AppendsOneEntry(s, r, "refiner")
    ensures r.(refinedFrames := s.refinedFrames, messages := s.messages) == s
    ensures |r.refinedFrames| == |s.frames| && r.frames == s.frames
    ensures forall i :: 0 <= i < |s.frames| ==> r.refinedFrames[i] == RefinedPath(s.frames[i])
  {
    var refined := seq(|s.frames|, i requires 0 <= i < |s.frames| => RefinedPath(s.frames[i]));
    AppendLog(s.(refinedFrames := refined), "refiner", "refined_frames")
  }

  /** No "frame_" starts inside `dir + "/"` when none occurs in `dir`: the
      pattern has no '/', so it cannot straddle the separator. */
  lemma NoPatternBeforeSeparator(dir: string, rest: string)
    requires forall k :: !OccursAt(dir, "frame_", k)
    ensures forall k :: 0 <= k < |dir + "/"| ==> !OccursAt(dir + "/" + rest, "frame_", k)
  {
    var s := dir + "/" + rest;
    forall k | 0 <= k < |dir + "/"|
      ensures !OccursAt(s, "frame_", k)
    {
      if k + 6 <= |dir| {
        assert s[k..k + 6] == dir[k..k + 6];
        assert !OccursAt(dir, "frame_", k);
      } else if k + 6 <= |s| {
        var j := |dir| - k;
        assert s[k..k + 6][j] == s[|dir|] == '/';
        assert "frame_"[j] != '/';
      }
    }
  }

  /** "frame_" does not occur in `{i:03d}.png`. */
  lemma NoPatternInNumberedSuffix(i: nat)
    ensures forall k :: 0 <= k < |Pad3(i) + ".png"| ==> !OccursAt(Pad3(i) + ".png", "frame_", k)
  {
    var tail := Pad3(i) + ".png";
    forall k | 0 <= k < |tail|
      ensures !OccursAt(tail, "frame_", k)
    {
      if k + 6 <= |tail| {
        assert IsDigit(Pad3(i)[k]);
        assert tail[k] == Pad3(i)[k];
        assert tail[k..k + 6][0] == tail[k] != 'f';
      }
    }
  }

  /** Replacing `pat` in `head + pat + tail`, where `pat` starts nowhere in
      `head` and nowhere in `tail`, swaps exactly that one occurrence. */
  lemma ReplaceSingleOccurrence(head: string, pat: string, rep: string, tail: string)
    requires |pat| > 0
    requires forall k :: 0 <= k < |head| ==> !OccursAt(head + (pat + tail), pat, k)
    requires forall k :: 0 <= k < |tail| ==> !OccursAt(tail, pat, k)
    ensures ReplaceAll(head + (pat + tail), pat, rep) == head + (rep + tail)
  {
    ReplaceAllKeepsPrefix(head, pat + tail, pat, rep);
    ReplaceAllLeading(pat, rep, tail);
    ReplaceAllWithoutOccurrence(tail, pat, rep);
  }

  /** For a job id in which "frame_" does not occur, the refiner renames the
      generator's `frame_{i:03d}.png` to `refined_frame_{i:03d}.png` in the same directory. */
  lemma RefinedOutputPath(jobId: string, i: nat)
    requires forall k :: !OccursAt("outputs/" + jobId, "frame_", k)
    ensures RefinedPath(OutputFramePath(jobId, i))
            == JoinPath(JoinPath("outputs", jobId), FrameFileName("refined_frame", i))
  {
    var dir := "outputs/" + jobId;
    var tail := Pad3(i) + ".png";
    assert OutputFramePath(jobId, i) == (dir + "/") + ("frame_" + tail);
    assert JoinPath(JoinPath("outputs", jobId), FrameFileName("refined_frame", i))
        == (dir + "/") + ("refined_frame_" + tail);
    NoPatternBeforeSeparator(dir, "frame_" + tail);
    NoPatternInNumberedSuffix(i);
    ReplaceSingleOccurrence(dir + "/", "frame_", "refined_frame_", tail);
  }
}
