# vizier in-betweening pipeline: a Dafny model

This project models the deterministic shell of the vizier ("Telekinesis")
animation pipeline. Two keyframes go through six agents:

- the analyzer, principles and planner agents;
- the generator agent, which drives the procedural frame generator;
- the validator agent;
- the refiner agent.

The agents are wired into a graph. Routing on the validator's quality score
bounds the refine/replan loop.

Around the graph sit the following, all modelled here:

- two neural in-betweening services (RIFE and FILM), reduced to their image
  preparation, timing and alpha handling;
- the validation service's frame sampling and reply parsing;
- the principles service's reply parsing and schema check;
- the multi-keyframe script that chains frame-generator runs into one
  numbered sequence;
- the in-memory job store.

The model is functional. Records are immutable datatypes, and every operation
is a pure function. Each foreign thing is a function parameter: the vision and
language model replies, `json.loads`, `float(str)`, image loading, OpenCV
contours and moments, and neural inference. So every property holds for every
behaviour of those components. Times and scores are `real`, so they are
exact. Python's `int()` truncation, `//`, `str.strip` (with Python's full set
of whitespace characters), `str.find`, `str.replace`, slicing with negative
bounds and `f"{i:03d}"` are written out in the `Text` module.

Modules, one per source file:

- `State` (state.py);
- `Graph` (graph.py);
- `Agents` (agents.py);
- `FrameGenerator` and `Easing` (frame_generator_service.py and the services'
  easing statics);
- `NeuralShell`, `Rife` and `Film` (rife_service.py and film_service.py);
- `ValidationService` (validation_service.py);
- `PrinciplesService` (claude_principles_service.py);
- `MultiFrame` (scripts/multi_frame_interpolation.py);
- `JobStore` (job_store.py);
- the shared helpers `Results`, `Text`, `Json`, `Naming` and `Timing`.

Where the code and its own documentation disagree, the model follows the code:

- The multi-keyframe script's docstring promises seven frames for counts
  `[1, 2, 0]`. The code writes nine. See "## Findings".
- `_sample_frames` documents `max_samples` as the maximum sample size. The code
  bounds the sample by five candidate positions instead.
  `ValidationService.SampleSizeIgnoresSmallLimit` shows this. The only caller
  passes 5, so nothing observable goes wrong, and no corrected member is
  given.
- The validator agent writes `overall_quality_score`, which routing reads. The
  validation service returns `score`. They are two separate records here:
  `AgentValidation` and `ServiceValidation`. The graph is never fed the
  service's record.
- RIFE's and FILM's `preprocess_image` convert every accepted image to RGBA.
  So the alpha-reconciliation branch of `interpolate` never runs on prepared
  keyframes (`NeuralShell.InterpolateAlwaysRgba`). It is still modelled and
  proved on its own (`NeuralShell.SingleMissingAlphaIsFilled`).

## Model

| member | source | states |
|---|---|---|
| Graph.RouteFromValidator | backend/app/telekinesis/graph.py:43-70 | Score ≥ 8.0 ends with the record untouched. Below 6.0 with iteration < 2 replans, and 6.0–8.0 with iteration < 3 refines; both raise the iteration by exactly one. Every other case ends untouched. Only `iteration_count` ever changes. |
| Graph.RouteBudget | backend/app/telekinesis/graph.py:57-70 | A route is `end` exactly when the record is unchanged. A looping route is taken only below the cap of 3 and raises the iteration by one. |
| Graph.RoutingExamples | tests/test_telekinesis_phase0.py:212-246 | The cases the repository's routing test asserts, (8.5, 0)→end, (5.5, 0)→replan, (7.0, 0)→refine and (7.0, 3)→end, plus (5.5, 2)→end. |
| Graph.MissingFieldsDefault | backend/app/telekinesis/graph.py:43-45 | A missing score reads as 0.0 and a missing counter as 0: a fresh record replans and the counter becomes 1. |
| Graph.NextNode | backend/app/telekinesis/graph.py:104-122 | Exactly the validator has no unconditional successor. |
| Graph.NextNodeIsEdges | backend/app/telekinesis/graph.py:105-108 | The successor function agrees with the declared edge list in both directions: analyzer→principles→planner→generator→validator, refiner→validator. |
| Graph.RouteTargetInjective | backend/app/telekinesis/graph.py:111-119 | The conditional edge map sends refine, replan and end to three different places. |
| Graph.InitialState | backend/app/telekinesis/graph.py:149-167 | The keyframes, instruction and job id are kept. The iteration is 0, with an empty log, no frames or refined frames, no analysis, principles or plan, an empty validation and no error. |
| Graph.RunAgent | backend/app/telekinesis/graph.py:96-101 | Every node's agent keeps the log as a prefix, appends exactly one entry named for that node, and never touches the iteration. |
| Graph.Step | backend/app/telekinesis/graph.py:104-122 | A move out of a non-validator node follows its edge. Every move either spends routing budget or gets closer to the validator, which is what makes the graph terminate. |
| Graph.Run | backend/app/telekinesis/graph.py:104-122 | Running the graph until `end` terminates. The old log survives as a proper prefix, and the iteration never decreases and never passes the cap. |
| Graph.RouteTrace | backend/app/telekinesis/graph.py:57-70 | For any sequence of scores, only the last route may be `end`, and the number of looping routes is at most the remaining budget. |
| Graph.AtMostThreeLoops | backend/app/telekinesis/graph.py:57-70 | From iteration 0, any scores give at most three refine/replan routes, and the iteration ends within [0, 3]. |
| Graph.Execute | backend/app/telekinesis/graph.py:131-167 | A run from the initial state logs at least the five main-path entries and ends with an iteration of at most 3. |
| Graph.RunFromAnalyzerLogsFive | backend/app/telekinesis/graph.py:104-108 | A run from the entry point appends at least five entries. |
| Graph.MainPathReachesValidator | backend/app/telekinesis/graph.py:104-108 | Running from the analyzer is the same as running the four main-path agents in order and then running from the validator. |
| Graph.MainPassLog | backend/app/telekinesis/graph.py:104-108 | One pass of the main path appends five entries in graph order and leaves the iteration alone. |
| Graph.StubValidatorEnds | backend/app/telekinesis/agents.py:338-358 | The shown validator scores 8.0, so routing ends right after it. |
| Graph.StubRunFrom | backend/app/telekinesis/agents.py:338-358 | With the shown validator, a run from any record appends exactly analyzer, principles, planner, generator, validator. It keeps the iteration and ends at score 8.0. |
| Graph.StubRunEndsAfterFirstValidation | backend/app/telekinesis/graph.py:131-167 | The shown pipeline, from a fresh record, logs exactly the five main-path agents and ends at iteration 0. |
| Agents.AppendLog | backend/app/telekinesis/agents.py:98-106 | Appends one entry by the named agent and changes no other field. |
| Agents.AnalyzerAgent | backend/app/telekinesis/agents.py:41-110 | On success the analysis is the vision service's. On failure it is the fallback: motion `unknown`, energy `medium`, status `fallback`, carrying the error. One `analyzer` entry; nothing else changes. |
| Agents.PrinciplesAgent | backend/app/telekinesis/agents.py:126-175 | Three principles with confidences in [0, 1], including `timing` at 1.0. The set passes the principles service's own schema check. One `principles` entry. |
| Agents.PlannerSchedule | backend/app/telekinesis/agents.py:203-214 | `n` entries with `frame_index = i` and times strictly increasing within [0, 1], from 0 to 1 when n > 1. |
| Agents.PlannerAgent | backend/app/telekinesis/agents.py:192-246 | 8 entries, entry `i` at `t = i/7`, from 0 to 1. `num_frames` equals the schedule length. The curve is `linear` and the arc `none`. |
| Agents.GeneratorAgent | backend/app/telekinesis/agents.py:263-311 | On success the frames are the service's and the error is untouched. On failure they are exactly `num_frames` placeholder paths `outputs/{job_id}/frame_{i:03d}.png` in order, and the error is set. |
| Agents.GeneratorAgentWithService | backend/app/telekinesis/agents.py:272-298 | Fed by the frame generator, a successful run yields one path per schedule entry, and those paths are exactly the placeholder paths. |
| Agents.ValidatorAgentWith | backend/app/telekinesis/agents.py:362-370 | Stores the given validation record and appends one `validator` entry. |
| Agents.ValidatorAgent | backend/app/telekinesis/agents.py:328-374 | Always scores 8.0 with `needs_refinement = False`. |
| Agents.RefinerAgent | backend/app/telekinesis/agents.py:391-419 | One refined path per frame, in order, each the replace-all of `frame_` by `refined_frame_`. `frames` itself is unchanged. |
| Agents.RefinedOutputPath | backend/app/telekinesis/agents.py:402 | For a job id without `frame_`, the refiner turns the generator's `outputs/{job}/frame_{i:03d}.png` into `refined_frame_{i:03d}.png` in the same directory. |
| Easing.ApplyEasing | backend/app/services/frame_generator_service.py:243-271 | Every curve maps 0→0 and 1→1 and keeps [0, 1] inside [0, 1]. An unknown curve name is the identity. |
| Easing.CubicInOutContinuous | backend/app/services/frame_generator_service.py:256-262 | The lower formula `4t³` and the upper formula `1 + (2t - 2)³/2` both give 1/2 at t = 1/2, so the curve is continuous there. |
| Easing.CubicInOutInUnit | backend/app/services/frame_generator_service.py:256-262 | The cubic ease-in-out maps [0, 1] into [0, 1]. |
| Easing.CubicInOutMonotone | backend/app/services/frame_generator_service.py:256-262 | The cubic ease-in-out is non-decreasing on [0, 1]. |
| Easing.ApplyEasingMonotone | backend/app/services/frame_generator_service.py:243-271 | No curve of the generator moves time backwards on [0, 1]. |
| Easing.QuadraticsInUnit | backend/app/services/frame_generator_service.py:263-268 | The quadratic ease-in and ease-out map [0, 1] into [0, 1]. |
| Easing.Elastic | backend/app/services/rife_service.py:277-283 | The elastic curve is the identity at 0 and 1, whatever its interior. |
| Easing.BounceIsEaseInOut | backend/app/services/rife_service.py:260-274 | "bounce" equals the quadratic ease-in-out at every t. |
| Easing.EaseInOutContinuous | backend/app/services/rife_service.py:260-265 | The lower formula `2t²` and the upper formula `-1 + (4 - 2t)t` both give 1/2 at t = 1/2. |
| Easing.ServiceEase | backend/app/services/rife_service.py:233-247 | Every motion type maps 0→0 and 1→1. Each non-elastic one keeps [0, 1]. An unlisted one is linear. |
| Easing.EaseInOutInUnit | backend/app/services/rife_service.py:260-265 | The quadratic ease-in-out maps [0, 1] into [0, 1]. |
| Easing.EaseInOutMonotone | backend/app/services/rife_service.py:260-265 | The quadratic ease-in-out is non-decreasing on [0, 1]. |
| Easing.ServiceEaseMonotone | backend/app/services/rife_service.py:249-274 | Every polynomial motion type is non-decreasing on [0, 1], so eased times keep their order. |
| Timing.EvenTimes | backend/app/services/rife_service.py:230-231 | `n` times from exactly 0 to exactly 1, strictly increasing and within [0, 1], each one step of exactly 1/(n - 1) after the previous one. |
| Timing.RatioIncreasing | scripts/multi_frame_interpolation.py:150-151 | `i/(n-1)` is strictly increasing in `i` and reaches 1 at `n-1`. |
| FrameGenerator.ForegroundExamples | backend/app/services/frame_generator_service.py:111-119 | The thresholds are strict: alpha 10 is background and 11 foreground. Only all three channels above 240 make white. |
| FrameGenerator.ObjectMask | backend/app/services/frame_generator_service.py:106-119 | The mask has the image's shape and is set exactly on pixels with alpha > 10 and not all of R, G, B > 240. |
| FrameGenerator.Trunc | backend/app/services/frame_generator_service.py:153-154 | Python's `int()` on a float rounds toward zero, on both signs. |
| FrameGenerator.TruncBetween | backend/app/services/frame_generator_service.py:206-215 | Truncation never leaves an integer interval that contains its argument. |
| FrameGenerator.LargestIndex | backend/app/services/frame_generator_service.py:146 | `max(contours, key=area)` picks a contour of maximal area, the first among equals. |
| FrameGenerator.SelectRow | backend/app/services/frame_generator_service.py:162 | The selected pixels come from the row, and an all-clear mask selects none. |
| FrameGenerator.AverageColor | backend/app/services/frame_generator_service.py:161-166 | An empty selection gives (0, 0, 0). Otherwise each of red, green and blue is the floor of that channel's mean, so it is a byte. |
| FrameGenerator.AverageOfUniform | backend/app/services/frame_generator_service.py:161-166 | The average of a single-colour object is that colour. |
| FrameGenerator.DetectObject | backend/app/services/frame_generator_service.py:90-174 | No object exactly when no contour survives or the largest one has zero moment. Otherwise: a largest contour, the truncated centroid m10/m00, m01/m00, the cleaned mask, the bounding box as (x, y, x + w, y + h), and the colour averaged over the pixels under that mask. |
| FrameGenerator.DetectedColorIsMean | backend/app/services/frame_generator_service.py:160-166 | A detection's colour is (0, 0, 0) when its mask selects no pixel. Otherwise each channel is the floor of the mean over the pixels under the mask. |
| FrameGenerator.Lerp | backend/app/services/frame_generator_service.py:206-215 | `int((1-t)a + t·b)` is `a` at t = 0, `b` at t = 1, constant when a = b, and between a and b for t in [0, 1]. |
| FrameGenerator.LerpBetween | backend/app/services/frame_generator_service.py:206-215 | The untruncated interpolant and its truncation lie between the endpoints. |
| FrameGenerator.LerpColorIsChannel | backend/app/services/frame_generator_service.py:213-216 | Interpolating two valid colours gives valid channels. |
| FrameGenerator.Translate | backend/app/services/frame_generator_service.py:221-232 | Every contour point moves by the same offset, and the point count is kept. |
| FrameGenerator.RenderObjectFrame | backend/app/services/frame_generator_service.py:176-241 | The canvas has the keyframe's size. A polygon is drawn exactly when the contour has ≥ 3 points. It is obj1's contour moved by (interpolated − obj1) centroid, filled with the interpolated colour, opaque. |
| FrameGenerator.RenderAtZeroIsObject1 | backend/app/services/frame_generator_service.py:199-236 | At t = 0 the polygon is obj1's own contour in obj1's colour. |
| FrameGenerator.RenderSchedule | backend/app/services/frame_generator_service.py:340-365 | One frame per remaining schedule entry, in order, each at its eased time and named by its index. |
| FrameGenerator.GenerateFrames | backend/app/services/frame_generator_service.py:273-377 | A load failure or a missing detection fails before any frame, with the source's messages. Otherwise one frame per schedule entry, named `frame_{i:03d}.png` in order. Eased time 0 or 1 copies keyframe 1 or 2 verbatim. Any other eased time renders the two detected objects interpolated at that time, on a canvas of keyframe 1's size. |
| FrameGenerator.PlannedEndpointsAreKeyframes | backend/app/services/frame_generator_service.py:340-353 | With the planner's plan, the first of the 8 frames is keyframe 1 and the last is keyframe 2. |
| NeuralShell.CapToMax | backend/app/services/rife_service.py:121-126 | A small image is untouched. A large one is scaled so neither side exceeds the cap, and the longer side lands exactly on it. |
| NeuralShell.ScaledSideTruncated | backend/app/services/rife_service.py:122-124 | `int(side · cap / longest)` lies within [0, cap], and equals the cap for the longest side. |
| NeuralShell.CappedSideZeroIff | backend/app/services/rife_service.py:121-125 | A capped side truncates to 0 exactly when side · cap < longest side. |
| NeuralShell.ExtremeAspectRatioCapsToZero | backend/app/services/rife_service.py:121-131 | A 1×2000 image is capped to width 0. The resize to (0, 1024) is rejected, so preprocessing fails with "Image preprocessing failed: height and width must be > 0". |
| NeuralShell.RoundUp64 | backend/app/services/rife_service.py:130-131 | `((w-1)//64+1)*64` is a multiple of 64 in [w, w+64). |
| NeuralShell.RoundUp64IsLeast | backend/app/services/rife_service.py:130-131 | It is the least multiple of 64 that is ≥ w. |
| NeuralShell.RoundEven | backend/app/services/film_service.py:93-96 | The result is even and in {w, w+1}; an even w is kept. |
| NeuralShell.Preprocess | backend/app/services/rife_service.py:102-147 | Open failure, non-PNG format, or a mode other than RGBA/RGB give the source's error messages. A cap or a rounding that would resize a side below 1 fails with the wrapped resize error, and only those do. An accepted image is capped then rounded, and always carries alpha. |
| NeuralShell.PaddedWithin64 | backend/app/services/rife_service.py:121-131 | RIFE's prepared sides are multiples of 64 and below 1024 + 64. |
| NeuralShell.LinearTimes | backend/app/services/rife_service.py:230-231 | `[i/(n-1)]` is empty for n ≤ 0, a division by zero for n = 1, and runs from 0 to 1 otherwise. |
| NeuralShell.EaseAll | backend/app/services/rife_service.py:236-245 | Each time is eased by the motion type, positionwise. |
| NeuralShell.ComputeInterpolationTimes | backend/app/services/rife_service.py:225-247 | Non-empty custom times are returned verbatim. Otherwise there are `num_frames + 2` times from 0 to 1 for every motion type, elastic included, and all within [0, 1] except elastic. |
| NeuralShell.LinearTimesAreEven | backend/app/services/rife_service.py:230-235 | Linear times are exactly the evenly spaced times the planner and the multi-keyframe script use. |
| NeuralShell.InterpolateAlpha | backend/app/services/rife_service.py:210 | The blend is alpha1 at t = 0 and alpha2 at t = 1. |
| NeuralShell.InterpolateAlphaInUnit | backend/app/services/rife_service.py:210 | Blending alphas of [0, 1] at t in [0, 1] stays in [0, 1]. |
| NeuralShell.ClipUnit | backend/app/services/rife_service.py:189 | Clipping lands in [0, 1] and keeps values already there. |
| NeuralShell.ClipInUnit | backend/app/services/rife_service.py:189 | Every clipped image value is in [0, 1], and in-range values are kept. |
| NeuralShell.ReconcileAlpha | backend/app/services/rife_service.py:316-324 | Output has alpha exactly when some input does. A present plane is kept, and a single missing plane becomes opaque. |
| NeuralShell.InterpolatePrepared | backend/app/services/rife_service.py:310-348 | Differing shapes fail, and only they do. Otherwise: one frame per time; times 0 and 1 are keyframes 1 and 2 exactly; other times are the network's frame; alpha is present on all or none, and at an interior time it is the interpolation of the two reconciled alpha planes. |
| NeuralShell.SingleMissingAlphaIsFilled | backend/app/services/rife_service.py:316-324 | With exactly one alpha missing, every frame has alpha, and the missing one is opaque at t = 0. |
| NeuralShell.Interpolate | backend/app/services/rife_service.py:305-361 | A preparation error of either keyframe propagates, the first one first. Two prepared keyframes of different sizes fail with the dimension error. Same-size keyframes fail with the times error when times do not compute, and otherwise give exactly the prepared loop over those times. Success implies both prepared and the times computed. |
| NeuralShell.InterpolateSucceeds | backend/app/services/rife_service.py:305-361 | Keyframes that prepare to the same size always interpolate when custom times are given or the frame count is non-negative, with one frame per computed time. |
| NeuralShell.InterpolateAlwaysRgba | backend/app/services/rife_service.py:142 | Preparation always yields alpha, so every returned frame carries alpha. |
| NeuralShell.EndpointFramesAreKeyframes | backend/app/services/rife_service.py:331-339 | Without custom times (none, or an empty list, as `if params.interpolation_times:` treats both) there are `num_frames + 2` frames: the first is keyframe 1 and the last is keyframe 2, for every motion type. |
| NeuralShell.SaveFrameNames | backend/app/services/rife_service.py:388-395 | One name per frame, `{prefix}_{i+1:03d}.png`, 1-based and in order. |
| NeuralShell.SaveFrameNamesDistinct | backend/app/services/rife_service.py:388-395 | Saved names never collide. |
| Rife.SingleFrame | backend/app/services/rife_service.py:166-191 | A model of version ≥ 3.9 is given `t`; an older one is given none. Both results are clipped. |
| Rife.OldModelIgnoresTime | backend/app/services/rife_service.py:172-183 | An older model gives the same frame for any two times. |
| Rife.Interpolate | backend/app/services/rife_service.py:305-361 | One frame per time. With an older model, all intermediate frames are identical. |
| Rife.PreparedPadded | backend/app/services/rife_service.py:121-131 | RIFE's prepared keyframes have sides that are multiples of 64, below 1024 + 64. |
| Rife.NetworkFramesClipped | backend/app/services/rife_service.py:189 | Every network value is clipped into [0, 1]. |
| Film.SingleFrame | backend/app/services/film_service.py:114-146 | FILM is always given `t`. Network values below 0 become 0, values above 1 become 1, and values in [0, 1] pass through unchanged. |
| Film.NetworkFramesClipped | backend/app/services/film_service.py:138-146 | Every value of a FILM frame lies in [0, 1], and a network value already in [0, 1] is kept. |
| Film.Interpolate | backend/app/services/film_service.py:240-316 | One frame per time, and every intermediate frame is FILM's frame at that time on the prepared keyframes. |
| Film.PreparedEvenWithinCap | backend/app/services/film_service.py:84-100 | FILM's prepared sides are even and never above 1024. |
| Naming.FrameFileNameInjective | backend/app/services/frame_generator_service.py:361 | Two indices never share a `{prefix}_{i:03d}.png` name, so no frame overwrites another. |
| Naming.JoinedFrameFileNameInjective | backend/app/services/frame_generator_service.py:361-362 | The same holds within one output directory. |
| Text.Pad3RoundTrip | backend/app/services/frame_generator_service.py:361 | The numeral of `{i:03d}` parses back to `i`. |
| Text.Pad3Injective | backend/app/services/frame_generator_service.py:361 | Different indices have different `{i:03d}` numerals. |
| Text.Find | backend/app/services/validation_service.py:317-322 | `find` returns the first occurrence at or after the start, or -1 when there is none. |
| Text.StripIgnoresTrailingSpace | backend/app/services/validation_service.py:313 | Trailing whitespace does not survive `strip`. |
| Text.ReplaceAllKeepsPrefix | backend/app/telekinesis/agents.py:402 | Replacement leaves a prefix without occurrences as it is. |
| ValidationService.Dedup | backend/app/services/validation_service.py:178 | `sorted(set(xs))` on a sorted list is strictly increasing with exactly the elements of `xs`. |
| ValidationService.SortedSetUnique | backend/app/services/validation_service.py:178 | Two strictly increasing lists with the same elements are equal, so the contract above determines `sorted(set(...))`. |
| ValidationService.DedupOfIncreasing | backend/app/services/validation_service.py:178 | A list without repeats is its own `sorted(set(...))`. |
| ValidationService.SampleIndices | backend/app/services/validation_service.py:168-180 | The sampled positions are strictly increasing, drawn from {0, n//4, n//2, 3n//4, n-1}, 1 to 5 of them, all below `n`, from 0 to n-1. |
| ValidationService.FiveDistinctFromFive | backend/app/services/validation_service.py:169-175 | From five frames on, the five candidates are distinct. |
| ValidationService.SampleFrames | backend/app/services/validation_service.py:148-180 | At most `max_samples` frames come back unchanged. Otherwise the frames at the sampled positions come back in order, from the first frame to the last. Only no frames with a negative limit fails. |
| ValidationService.SampledPositionsIncrease | backend/app/services/validation_service.py:168-180 | Sampled frames keep their order and are never repeated. |
| ValidationService.SampleAtMostFive | backend/app/services/validation_service.py:204 | At the call site, the sample has at most 5 frames, and exactly 5 when there are more than 5. |
| ValidationService.SampleSizeIgnoresSmallLimit | backend/app/services/validation_service.py:151-175 | With a limit of 1, three frames all come back: the bound is not `max_samples`. |
| ValidationService.JsonFenceRoundTrip | backend/app/services/validation_service.py:313-319 | Prose, a `json`-tagged fence around a body, then prose: exactly the stripped body gets parsed. |
| ValidationService.JsonFenceSelects | backend/app/services/validation_service.py:316-319 | A `json` fence is preferred, and the text up to the next fence is taken. |
| ValidationService.UnclosedJsonFenceSelects | backend/app/services/validation_service.py:316-319 | An unclosed `json` fence takes everything after it but the last character. |
| ValidationService.UnclosedFenceDropsLastChar | backend/app/services/validation_service.py:316-319 | An unclosed fence loses the last character of its body (`find` gives -1). |
| ValidationService.UnfencedReplyOnlyStripped | backend/app/services/validation_service.py:313-323 | A reply in which "```" never occurs is only stripped, backticks elsewhere included. |
| ValidationService.NextBrace | backend/app/services/validation_service.py:331 | Finds the first brace at or after a position, or the end of the text. |
| ValidationService.SearchFlatObject | backend/app/services/validation_service.py:331 | A match is `{`, brace-free text, `}`. |
| ValidationService.SearchNoneIff | backend/app/services/validation_service.py:331 | The search fails exactly when no position matches `\{[^{}]*\}`. |
| ValidationService.SearchFindsFirstMatch | backend/app/services/validation_service.py:331 | The search returns the leftmost match. |
| ValidationService.SearchFindsLeadingObject | backend/app/services/validation_service.py:331-333 | A brace-free prefix followed by a flat object yields that object. |
| ValidationService.ToFloat | backend/app/services/validation_service.py:339-344 | `float()` converts numbers and booleans exactly and rejects null, lists and objects. |
| ValidationService.Clamp | backend/app/services/validation_service.py:350-351 | The result is in [0, 10], in-range scores are kept, and out-of-range ones go to the nearest bound. |
| ValidationService.ClampIdempotent | backend/app/services/validation_service.py:350-351 | Clamping twice is clamping once. |
| ValidationService.ScoreField | backend/app/services/validation_service.py:339-344 | A missing key scores 7.0, and a numeric one scores its value. |
| ValidationService.ReadScores | backend/app/services/validation_service.py:338-347 | One score per key, in order. It fails exactly when some key fails to convert. |
| ValidationService.DecodeReply | backend/app/services/validation_service.py:326-336 | Parses the text if it is JSON. Otherwise it parses the first flat object, and fails with the source's message when there is none. |
| ValidationService.FromFields | backend/app/services/validation_service.py:338-353 | Each of the six scores is defaulted, converted and clamped. Issues and suggestions default to empty lists, and there is no fallback marker. |
| ValidationService.FromFieldsScores | backend/app/services/validation_service.py:338-351 | Every parsed score is in [0, 10]. A missing key scores 7.0, and a numeric one its clamped value. |
| ValidationService.ParseValidationResponse | backend/app/services/validation_service.py:300-353 | Succeeds exactly when the unfenced reply decodes to a dictionary whose scores convert. Every score is then in [0, 10]. |
| ValidationService.EmptyObjectScoresSeven | backend/app/services/validation_service.py:338-347 | A reply of `{}` scores 7.0 on all six. |
| ValidationService.Fallback | backend/app/services/validation_service.py:282-298 | All six scores are 7.0, `_status` is `fallback`, and the error is recorded. |
| ValidationService.ValidateFrames | backend/app/services/validation_service.py:182-298 | Sampling at 5 never fails. The fallback (all 7.0) is returned exactly when the model call or the parse fails, and otherwise the parsed record. Every score is in [0, 10]. |
| PrinciplesService.ParseResponse | backend/app/services/claude_principles_service.py:355-375 | Succeeds exactly when the unfenced text parses, with that value. |
| PrinciplesService.StripCodeFenceRoundTrip | backend/app/services/claude_principles_service.py:359-367 | A reply "```tag\n" + body + "\n```" is unwrapped to the stripped body. |
| PrinciplesService.StripCodeFenceUnfenced | backend/app/services/claude_principles_service.py:359-367 | A reply that does not start with a fence is only stripped. |
| PrinciplesService.FirstMissing | backend/app/services/claude_principles_service.py:380-383 | Reports a required name that is absent, or that all are present. |
| PrinciplesService.CheckPrinciples | backend/app/services/claude_principles_service.py:390-399 | The loop passes exactly when every principle has all four keys and a numeric confidence in [0, 1]. |
| PrinciplesService.ValidatePrinciplesData | backend/app/services/claude_principles_service.py:377-406 | Passes exactly on data with the three keys, a list of well-formed principles and a numeric complexity in [0, 1]. |
| PrinciplesService.TypedPrinciplesPass | backend/app/services/claude_principles_service.py:377-406 | Any principle set with confidences and complexity in [0, 1] passes. |
| PrinciplesService.TimingNotEnforced | backend/app/services/claude_principles_service.py:377-406 | A set without any principle, so without `timing`, passes. |
| PrinciplesService.BooleanConfidenceAccepted | backend/app/services/claude_principles_service.py:397-399 | A boolean confidence passes, since `bool` is an `int`. |
| MultiFrame.FirstMissingPath | scripts/multi_frame_interpolation.py:58-60 | Finds the first keyframe that does not exist, or reports that all exist. |
| MultiFrame.FirstNegative | scripts/multi_frame_interpolation.py:62-64 | Finds the first negative count, or reports that none is negative. |
| MultiFrame.ValidateInputs | scripts/multi_frame_interpolation.py:38-64 | Passes exactly on valid inputs. Otherwise it reports the first failing check, in the source's order, with its message. |
| MultiFrame.SegmentPlan | scripts/multi_frame_interpolation.py:145-159 | A count `c > 0` gets `c + 2` schedule entries at evenly spaced times from 0 to 1, with the requested curve. |
| MultiFrame.SegmentLength | scripts/multi_frame_interpolation.py:130-180 | Every pair contributes at least one frame. |
| MultiFrame.PairRuns | scripts/multi_frame_interpolation.py:119-169 | Every completed generator run for a pair with `c > 0` has `c + 2` files. |
| MultiFrame.PairRunAt | scripts/multi_frame_interpolation.py:161-169 | Pair `q`'s run is the generator called with its two keyframes, job `pair_q` and its plan. |
| MultiFrame.Segment | scripts/multi_frame_interpolation.py:130-184 | A count of 0 gives the first keyframe alone. Otherwise the run's files, in order, or the run's error. |
| MultiFrame.SegmentEndpoints | scripts/multi_frame_interpolation.py:145-169 | A pair's run starts with a copy of its first keyframe and ends with a copy of its second. |
| MultiFrame.Concat | scripts/multi_frame_interpolation.py:119-184 | The loop succeeds exactly when every pair does, and fails with some pair's error. Earlier output is kept as a prefix. |
| MultiFrame.ConcatPlacement | scripts/multi_frame_interpolation.py:119-180 | Pair `q`'s frames sit at the sum of the earlier pairs' lengths. |
| MultiFrame.Number | scripts/multi_frame_interpolation.py:138-141 | Frames are numbered contiguously, `frame_000.png` on, in emission order. |
| MultiFrame.Assemble | scripts/multi_frame_interpolation.py:119-200 | The sequence is all pairs' frames, then the final keyframe when asked. It fails exactly when a pair fails. |
| MultiFrame.AssembledSegment | scripts/multi_frame_interpolation.py:119-200 | Each pair's frames appear intact at their offset. |
| MultiFrame.WrittenTail | scripts/multi_frame_interpolation.py:175-180 | The pairs' frames end with the last frame of the last pair. |
| MultiFrame.GenerateSequence | scripts/multi_frame_interpolation.py:67-200 | Invalid inputs fail with the validation message before any frame. Otherwise the written frames are numbered from `frame_000.png`, and it fails exactly when a generator run fails. |
| MultiFrame.WrittenFailure | scripts/multi_frame_interpolation.py:163-184 | The script fails exactly when some pair with frames fails, and with that pair's error. |
| MultiFrame.WrittenSegmentPlacement | scripts/multi_frame_interpolation.py:119-200 | Every pair's segment sits at its offset, and the total length is the sum plus the final keyframe. |
| MultiFrame.WrittenPairContents | scripts/multi_frame_interpolation.py:130-180 | A count 0 pair writes its first keyframe. A count `c` pair writes the `c + 2` files of its run, in order. |
| MultiFrame.WrittenEnding | scripts/multi_frame_interpolation.py:186-200 | The sequence ends with the last keyframe: copied directly for a last count of 0, otherwise the last file of the last run. |
| MultiFrame.SharedKeyframeRepeats | scripts/multi_frame_interpolation.py:173-180 | Between two pairs with frames, the last file of one and the first of the next are consecutive. |
| MultiFrame.PairRunEndpoints | scripts/multi_frame_interpolation.py:161-169 | Those two files show the shared keyframe. |
| MultiFrame.SharedKeyframeWrittenTwice | scripts/multi_frame_interpolation.py:173-180 | The shared keyframe is written twice in a row, from two different files. |
| MultiFrame.DocstringExampleWritesNine | scripts/multi_frame_interpolation.py:85-96 | Counts [1, 2, 0] give nine frames, not the seven listed. |
| MultiFrame.DeduplicatedSegment | scripts/multi_frame_interpolation.py:89-96 | The documented per-pair frames: the first keyframe, then the run's intermediate files. |
| MultiFrame.DeduplicatedOrigins | scripts/multi_frame_interpolation.py:89-96 | The documented sequence has one frame per keyframe plus the counts, and ends with the last keyframe. |
| MultiFrame.DeduplicatedKeyframeAt | scripts/multi_frame_interpolation.py:89-96 | In it, keyframe `q` sits at `q` plus the earlier counts. |
| MultiFrame.DeduplicatedFailsLikeWritten | scripts/multi_frame_interpolation.py:163-184 | It fails for exactly the same runs as the written one. |
| MultiFrame.DeduplicatedExampleWritesSeven | scripts/multi_frame_interpolation.py:85-96 | For [1, 2, 0] it is seven frames, with keyframes at 0, 2, 5, 6 as documented. |
| MultiFrame.GenerateDocumentedSequence | scripts/multi_frame_interpolation.py:67-200 | The corrected script: the same validation and failures, `|keyframes| + Σcounts` frames numbered from `frame_000.png`, ending with the last keyframe. |
| JobStore.UpdateJobStatus | backend/app/job_store.py:10-13 | An unknown id leaves the store unchanged, so nothing is inserted. A known job takes each given field and keeps the rest; other jobs and the key set are unchanged. |
| JobStore.LookupAfterUpdate | backend/app/job_store.py:12-13 | A lookup after an update sees the new value exactly for a given field of an existing job, and the old value otherwise. |
| JobStore.UpdateIdempotent | backend/app/job_store.py:13 | Repeating an update changes nothing more. |
| JobStore.UpdatesCompose | backend/app/job_store.py:13 | Two updates of one job equal one merged update, the later value winning. |
| JobStore.UpdatesCommute | backend/app/job_store.py:12-13 | Updates of different jobs commute. |
| JobStore.EmptyUpdateChangesNothing | backend/app/job_store.py:13 | An update without fields is the identity. |

## Left out

- Network and model calls are parameters. These are the vision analysis, the validation and principles replies, RIFE and FILM inference, and model loading. Any behaviour of those calls is allowed, failure included.
- OpenCV and PIL are parameters: morphology, contour search, area, moments, bounding boxes, polygon fill, resize and image load. PIL's rejection of a resize to a side below 1 is modelled by its message.
- Saving images and creating directories never fail in the model (backend/app/services/frame_generator_service.py:73-88 and :332, backend/app/services/rife_service.py:386-393). The source would raise on a disk error. The model has no such error path.
- LangGraph semantics are left out. This covers the additive `messages` reducer and whether the routing function's write to `iteration_count` persists. `Graph.Run` models the walk as the code reads: the routing record is carried on, and each agent appends one entry.
- Log entry contents beyond the agent name (actions, timestamps, details), console and logging output, and the HTTP/app layer are left out.
- Floating point is exact `real` here. The model has no rounding, NaN or infinity, and no float32 or `uint8` conversion of pixel planes.
- Easing.Elastic: the pow/sin interior is an uninterpreted function. Only its guard at 0 and 1 is stated.
- NeuralShell.CapToMax: requires a non-negative cap. Every caller uses the default 1024.
- NeuralShell.Preprocess: the LANCZOS resampling and the pixel planes come from the `pixels` parameter. Only their sizes are stated.
- NeuralShell.InterpolatePrepared: the shape check compares width and height only. The channel count is always 3 after preparation. The error text omits the shapes.
- Film.Interpolate: states count and intermediate frames only. Errors and endpoint frames come from `NeuralShell.Interpolate` and `NeuralShell.EndpointFramesAreKeyframes`, which it instantiates.
- Rife.Interpolate: states count and the old-model property only. The rest comes from `NeuralShell.Interpolate`.
- ValidationService.DecodeReply: when the extracted object does not parse, the error text is fixed. In the source it is the JSON library's message.
- ValidationService.ToFloat: `float()` of a string is the foreign `parseFloat`.
- ValidationService.ScoreField: the conversion error text is fixed ("could not convert <key> to float"). In the source it is the text of the `ValueError` or `TypeError` that `float()` raises (backend/app/services/validation_service.py:338-345). That text becomes the fallback's `_error` and first issue.
- ValidationService.ParseValidationResponse: a decoded reply that is not an object fails with the fixed text "decoded reply has no attribute 'get'". Python's `AttributeError` names the decoded type, as in "'list' object has no attribute 'get'".
- PrinciplesService.ParseResponse: the error text is "Invalid JSON response from Claude" without the `: {e}` suffix that carries the JSON library's message (backend/app/services/claude_principles_service.py:375).
- PrinciplesService.CheckPrinciples: the confidence error omits the `: {confidence}` suffix (backend/app/services/claude_principles_service.py:399), because Python's rendering of a value is not modelled. A principle that is not an object fails with "Principle is not a dictionary", a text the source never produces. It stands in for what Python does: a `TypeError` from `in` or from indexing, or for a list or string a membership test that can report a missing field.
- PrinciplesService.ValidatePrinciplesData: the complexity error omits the `: {complexity}` suffix (backend/app/services/claude_principles_service.py:404). Data that is not an object fails with "Principles data is not a dictionary", a text the source never produces. It stands in for Python's `TypeError`, or for a list or string the membership test's "Missing required field" error. Which data passes is stated exactly.
- ValidationService.ValidateFrames: the keyframe images and plan text sent with the request are not modelled, because they only shape the prompt.
- The `AnimationParams` schema is not part of this model. Its bounds on `num_frames` are not assumed, so the services' contracts hold for every count.
- Path normalisation by `pathlib` is left out. `JoinPath` joins with one `/` for a directory given without a trailing separator.
- The multi-keyframe script calls the generator for every pair, modelled as `PairRuns`. The script itself stops at the first failing pair. The written result and the error are the same either way, because a later run's outcome is never read once an earlier one fails.
- File copies in the multi-keyframe script cannot fail in the model. Frames are identified by what they are copies of (`Origin`), not by pixel contents.
- JobStore.UpdateJobStatus: values are a generic type, and concurrent access is left out.
- Job creation and lookup happen in backend/app/routers/generation.py, which is not part of this model.

## Findings

| source | as written | input that shows it | evidently intended | confidence | as-written member | corrected member |
|---|---|---|---|---|---|---|
| scripts/multi_frame_interpolation.py:85-96 | Each pair with intermediate frames copies its generator run whole, both keyframes included, and the next pair starts with the same keyframe again. So every keyframe shared by two such pairs is written twice in a row. | 4 keyframes with counts [1, 2, 0]: 9 frames (kf1, i, kf2, kf2, i, i, kf3, kf3, kf4) | 7 frames, as the docstring lists, each keyframe once (kf1, i, kf2, i, i, kf3, kf4). The comment at lines 131-132 says the same. | not executed; high (lengths follow from the loop alone) | MultiFrame.DocstringExampleWritesNine | MultiFrame.GenerateDocumentedSequence |
