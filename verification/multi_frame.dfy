/** The multi-keyframe script: input validation, and the assembly of one
    sequence out of the frame generator's output for every consecutive pair
    of keyframes. File copies are modelled by recording where each output
    frame comes from; the generator is the modelled `generate_frames`, with
    its image loading and vision operations as parameters. */
module MultiFrame {
  import opened Results
  import opened Text
  import opened Naming
  import opened Timing
  import opened State
  import FrameGenerator

  // ---------------------------------------------------------------------
  // Input validation
  // ---------------------------------------------------------------------

  /** `{i}` for a Python `int`. */
  function IntText(i: int): string {
    if i < 0 then "-" + Decimal(-i) else Decimal(i)
  }

  /** The first index at or after `from` whose path does not exist. */
  function FirstMissingPath(paths: seq<string>, pathExists: string -> bool, from: nat): (r: Option<nat>)
    requires from <= |paths|
    ensures r.None? <==> forall i :: from <= i < |paths| ==> pathExists(paths[i])
    ensures r.Some? ==>
      && from <= r.value < |paths| && !pathExists(paths[r.value])
      && forall i :: from <= i < r.value ==> pathExists(paths[i])
    decreases |paths| - from
  {
    if from == |paths| then None
    else if !pathExists(paths[from]) then Some(from)
    else FirstMissingPath(paths, pathExists, from + 1)
  }

  /** The first index at or after `from` holding a negative count. */
  function FirstNegative(counts: seq<int>, from: nat): (r: Option<nat>)
    requires from <= |counts|
    ensures r.None? <==> forall i :: from <= i < |counts| ==> counts[i] >= 0
    ensures r.Some? ==>
      && from <= r.value < |counts| && counts[r.value] < 0
      && forall i :: from <= i < r.value ==> counts[i] >= 0
    decreases |counts| - from
  {
    if from == |counts| then None
    else if counts[from] < 0 then Some(from)
    else FirstNegative(counts, from + 1)
  }

  /** Inputs `validate_inputs` accepts. */
  predicate ValidInputs(keyframes: seq<string>, counts: seq<int>, pathExists: string -> bool) {
    && |keyframes| >= 2
    && |counts| == |keyframes| - 1
    && (forall i :: 0 <= i < |keyframes| ==> pathExists(keyframes[i]))
    && (forall i :: 0 <= i < |counts| ==> counts[i] >= 0)
  }

  /** `validate_inputs`: the checks run in order (keyframe count, length of
      the counts, existence of each keyframe, sign of each count) and the
      first failing one is reported. */
  function ValidateInputs(keyframes: seq<string>, counts: seq<int>, pathExists: string -> bool): (r: Outcome)
    ensures r.Pass? <==> ValidInputs(keyframes, counts, pathExists)
    ensures |keyframes| < 2 ==> r == Fail("Need at least 2 keyframes, got " + Decimal(|keyframes|))
    ensures |keyframes| >= 2 && |counts| != |keyframes| - 1 ==>
      r == Fail("frame_counts length (" + Decimal(|counts|) + ") must be keyframe_paths length - 1 ("
                + Decimal(|keyframes| - 1) + ")")
    ensures |keyframes| >= 2 && |counts| == |keyframes| - 1 && FirstMissingPath(keyframes, pathExists, 0).Some? ==>
      var i := FirstMissingPath(keyframes, pathExists, 0).value;
      r == Fail("Keyframe " + Decimal(i + 1) + " not found: " + keyframes[i])
    ensures r.Fail? && |keyframes| >= 2 && |counts| == |keyframes| - 1 && FirstMissingPath(keyframes, pathExists, 0).None? ==>
      var i := FirstNegative(counts, 0).value;
      r == Fail("frame_counts[" + Decimal(i) + "] must be >= 0, got " + IntText(counts[i]))
  {
    if |keyframes| < 2 then Fail("Need at least 2 keyframes, got " + Decimal(|keyframes|))
    else if |counts| != |keyframes| - 1 then
      Fail("frame_counts length (" + Decimal(|counts|) + ") must be keyframe_paths length - 1 ("
           + Decimal(|keyframes| - 1) + ")")
    else match FirstMissingPath(keyframes, pathExists, 0)
      case Some(i) => Fail("Keyframe " + Decimal(i + 1) + " not found: " + keyframes[i])
      case None =>
        match FirstNegative(counts, 0)
        case Some(i) => Fail("frame_counts[" + Decimal(i) + "] must be >= 0, got " + IntText(counts[i]))
        case None => Pass
  }

  // ---------------------------------------------------------------------
  // Sequence assembly
  // ---------------------------------------------------------------------

  /** Where an output frame is copied from: a keyframe file (by its index
      in the keyframe list), or the `index`-th file the generator wrote for
      pair `pair` (the pair starting at keyframe `pair`). */
  datatype Origin = KeyframeCopy(keyframe: nat) | SegmentFrame(pair: nat, index: nat)

  /** One frame of the final sequence: its path and where it was copied from. */
  datatype Emitted = Emitted(path: string, origin: Origin)

  /** The plan built for a pair with `count > 0` intermediate frames:
      `count + 2` entries with evenly spaced times from 0 to 1. */
  function SegmentPlan(count: nat, timingCurve: string): (p: Plan)
    requires count > 0
    ensures p.numFrames == |p.schedule| == count + 2
    ensures p.timingCurve == timingCurve
    ensures forall i :: 0 <= i < count + 2 ==> p.schedule[i].t == Some(EvenTimes(count + 2)[i])
  {
    var n := count + 2;
    Plan(n, timingCurve, seq(n, i requires 0 <= i < n => ScheduleEntry(None, Some(Ratio(i, n)))), None, None)
  }

  /** `f"pair_{pair_idx}"`. */
  function PairJobId(pair: nat): string {
    "pair_" + Decimal(pair)
  }

  /** The output directory of the generator service the script creates. */
  const GeneratorOutputDir: string := "outputs"

  /** The generator call for the pair starting at keyframe `k1`. */
  function GenerateSegment(k1: string, k2: string, pair: nat, count: nat, timingCurve: string,
                           load: string -> Result<FrameGenerator.Image>, cv: FrameGenerator.Vision): Result<seq<FrameGenerator.GeneratedFrame>>
    requires count > 0
  {
    FrameGenerator.GenerateFrames(k1, k2, Some(SegmentPlan(count, timingCurve)), PairJobId(pair),
                                  GeneratorOutputDir, load, cv)
  }

  /** How many frames a pair contributes as written: its first keyframe
      alone for a count of 0, otherwise every frame of the generator,
      both keyframes included. */
  function SegmentLength(count: int): (n: nat)
    ensures n >= 1
  {
    if count <= 0 then 1 else count + 2
  }

  /** The generator's output for every pair, as the pair loop obtains it;
      a pair with a count of 0 never calls the generator and gets an empty
      placeholder. */
  function PairRuns(keyframes: seq<string>, counts: seq<int>, timingCurve: string,
                    load: string -> Result<FrameGenerator.Image>, cv: FrameGenerator.Vision): (runs: seq<Result<seq<FrameGenerator.GeneratedFrame>>>)
    requires |counts| == |keyframes| - 1
    requires forall i :: 0 <= i < |counts| ==> counts[i] >= 0
    ensures RunLengths(counts, runs)
  {
    seq(|counts|, q requires 0 <= q < |counts| =>
      if counts[q] > 0 then GenerateSegment(keyframes[q], keyframes[q + 1], q, counts[q], timingCurve, load, cv)
      else Ok([]))
  }

  lemma PairRunAt(keyframes: seq<string>, counts: seq<int>, timingCurve: string,
                  load: string -> Result<FrameGenerator.Image>, cv: FrameGenerator.Vision, q: nat)
    requires |counts| == |keyframes| - 1 && q < |counts|
    requires forall i :: 0 <= i < |counts| ==> counts[i] >= 0
    requires counts[q] > 0
    ensures PairRuns(keyframes, counts, timingCurve, load, cv)[q]
      == GenerateSegment(keyframes[q], keyframes[q + 1], q, counts[q], timingCurve, load, cv)
  {
  }

  /** Every run the generator completes for a pair with `count > 0` holds
      `count + 2` files. */
  predicate RunLengths(counts: seq<int>, runs: seq<Result<seq<FrameGenerator.GeneratedFrame>>>) {
    && |runs| == |counts|
    && forall q :: 0 <= q < |counts| && counts[q] > 0 && runs[q].Ok? ==> |runs[q].value| == counts[q] + 2
  }

  /** The frames one pair contributes, in order. A count of 0 copies only
      the first keyframe; otherwise every file of the pair's run is copied,
      in order, and a failed run ends the script with its error. */
  function Segment(pair: nat, count: nat, run: Result<seq<FrameGenerator.GeneratedFrame>>): (r: Result<seq<Origin>>)
    requires count > 0 && run.Ok? ==> |run.value| == count + 2
    ensures count == 0 ==> r == Ok([KeyframeCopy(pair)])
    ensures count > 0 ==> (r.Ok? <==> run.Ok?) && (r.Err? ==> r.error == run.error)
    ensures r.Ok? ==> |r.value| == SegmentLength(count)
    ensures count > 0 && r.Ok? ==> forall i :: 0 <= i < |r.value| ==> r.value[i] == SegmentFrame(pair, i)
  {
    if count == 0 then Ok([KeyframeCopy(pair)])
    else match run
      case Err(e) => Err(e)
      case Ok(fs) => Ok(seq(|fs|, i requires 0 <= i < |fs| => SegmentFrame(pair, i)))
  }

  /** The generator's first and last file for a pair are copies of the two
      keyframes: the schedule's times 0 and 1 stay 0 and 1 under every
      timing curve. */
  lemma SegmentEndpoints(k1: string, k2: string, pair: nat, count: nat, timingCurve: string,
                         load: string -> Result<FrameGenerator.Image>, cv: FrameGenerator.Vision)
    requires count > 0
    requires GenerateSegment(k1, k2, pair, count, timingCurve, load, cv).Ok?
    ensures load(k1).Ok? && load(k2).Ok?
    ensures var fs := GenerateSegment(k1, k2, pair, count, timingCurve, load, cv).value;
      && |fs| == count + 2
      && fs[0].frame == FrameGenerator.Copied(load(k1).value)
      && fs[count + 1].frame == FrameGenerator.Copied(load(k2).value)
  {
    var p := SegmentPlan(count, timingCurve);
    var n := count + 2;
    assert FrameGenerator.EntryTime(p.schedule[0], 0, n) == 0.0;
    assert FrameGenerator.EntryTime(p.schedule[n - 1], n - 1, n) == 1.0;
  }

  /** Where the frames of pair `q` start: the sum of `lens[..q]`. */
  function Offset(lens: seq<nat>, q: nat): nat
    requires q <= |lens|
  {
    if q == 0 then 0 else Offset(lens, q - 1) + lens[q - 1]
  }

  lemma {:induction false} OffsetBound(lens: seq<nat>, q: nat, q': nat)
    requires q < q' <= |lens|
    ensures Offset(lens, q) + lens[q] <= Offset(lens, q')
    decreases q' - q
  {
    if q + 1 < q' {
      OffsetBound(lens, q, q' - 1);
    }
  }

  /** Each pair's frames, where produced, have the length `lens` gives. */
  predicate LengthsMatch(segs: seq<Result<seq<Origin>>>, lens: seq<nat>) {
    && |segs| == |lens|
    && forall q :: 0 <= q < |segs| && segs[q].Ok? ==> |segs[q].value| == lens[q]
  }

  /** The pair loop: the frames of pairs `p` onwards appended, in pair order,
      to `acc` (the frames of the earlier pairs); the first pair whose
      frames cannot be produced ends the run with its error. */
  function Concat(segs: seq<Result<seq<Origin>>>, lens: seq<nat>, p: nat, acc: seq<Origin>): (r: Result<seq<Origin>>)
    requires LengthsMatch(segs, lens) && p <= |segs| && |acc| == Offset(lens, p)
    ensures r.Ok? <==> forall q :: p <= q < |segs| ==> segs[q].Ok?
    ensures r.Err? ==> exists q :: p <= q < |segs| && segs[q] == Err(r.error)
    ensures r.Ok? ==> |r.value| == Offset(lens, |lens|) && |acc| <= |r.value| && r.value[..|acc|] == acc
    decreases |segs| - p
  {
    if p == |segs| then Ok(acc)
    else match segs[p]
      case Err(e) => Err(e)
      case Ok(seg) =>
        var r := Concat(segs, lens, p + 1, acc + seg);
        ConcatStep(segs, lens, p, acc, seg, r);
        r
  }

  lemma ConcatStep(segs: seq<Result<seq<Origin>>>, lens: seq<nat>, p: nat, acc: seq<Origin>, seg: seq<Origin>, r: Result<seq<Origin>>)
    requires LengthsMatch(segs, lens) && p < |segs| && |acc| == Offset(lens, p)
    requires segs[p] == Ok(seg)
    requires r.Ok? ==> |r.value| == Offset(lens, |lens|) && |acc + seg| <= |r.value| && r.value[..|acc + seg|] == acc + seg
    ensures r.Ok? ==> |acc| <= |r.value| && r.value[..|acc|] == acc
    ensures r.Ok? ==> Offset(lens, p) + lens[p] <= |r.value| && r.value[Offset(lens, p)..Offset(lens, p) + lens[p]] == seg
  {
    if r.Ok? {
      OffsetBound(lens, p, |lens|);
      assert r.value[..|acc|] == (acc + seg)[..|acc|];
      assert r.value[|acc|..|acc| + |seg|] == (acc + seg)[|acc|..];
    }
  }

  /** Pair `q`'s frames sit at `Offset(lens, q)` in the loop's output. */
  lemma {:induction false} ConcatPlacement(segs: seq<Result<seq<Origin>>>, lens: seq<nat>, p: nat, acc: seq<Origin>, q: nat)
    requires LengthsMatch(segs, lens) && p <= q < |segs| && |acc| == Offset(lens, p)
    requires Concat(segs, lens, p, acc).Ok?
    ensures segs[q].Ok?
    ensures var r := Concat(segs, lens, p, acc).value;
      && Offset(lens, q) + lens[q] <= |r|
      && r[Offset(lens, q)..Offset(lens, q) + lens[q]] == segs[q].value
    decreases q - p
  {
    var seg := segs[p].value;
    var r := Concat(segs, lens, p + 1, acc + seg);
    assert Concat(segs, lens, p, acc) == r;
    ConcatStep(segs, lens, p, acc, seg, r);
    if q > p {
      ConcatPlacement(segs, lens, p + 1, acc + seg, q);
    }
  }

  /** The frame length of each pair's segment, as written. */
  function WrittenLengths(counts: seq<int>): (lens: seq<nat>)
    ensures |lens| == |counts|
    ensures forall q :: 0 <= q < |counts| ==> lens[q] == SegmentLength(counts[q])
  {
    seq(|counts|, q requires 0 <= q < |counts| => SegmentLength(counts[q]))
  }

  /** Each pair's segment, as written. */
  function WrittenSegments(counts: seq<int>, runs: seq<Result<seq<FrameGenerator.GeneratedFrame>>>): (segs: seq<Result<seq<Origin>>>)
    requires forall i :: 0 <= i < |counts| ==> counts[i] >= 0
    requires RunLengths(counts, runs)
    ensures LengthsMatch(segs, WrittenLengths(counts))
  {
    seq(|counts|, q requires 0 <= q < |counts| => Segment(q, counts[q], runs[q]))
  }

  lemma WrittenSegmentAt(counts: seq<int>, runs: seq<Result<seq<FrameGenerator.GeneratedFrame>>>, q: nat)
    requires forall i :: 0 <= i < |counts| ==> counts[i] >= 0
    requires RunLengths(counts, runs) && q < |counts|
    ensures WrittenSegments(counts, runs)[q] == Segment(q, counts[q], runs[q])
  {
  }

  /** The number of frames the script writes for valid inputs: the pairs'
      segments, plus the last keyframe when the last count is 0. */
  function WrittenLength(counts: seq<int>): nat
    requires |counts| > 0
  {
    Offset(WrittenLengths(counts), |counts|) + (if counts[|counts| - 1] == 0 then 1 else 0)
  }

  /** The output path of the `k`-th frame written. */
  function OutputPath(outputDir: string, k: nat): string {
    JoinPath(outputDir, FrameFileName("frame", k))
  }

  /** Numbers the frames in order: `frame_000.png`, `frame_001.png`, ... */
  function Number(outputDir: string, origins: seq<Origin>): (r: seq<Emitted>)
    ensures |r| == |origins|
    ensures forall k :: 0 <= k < |r| ==> r[k].path == OutputPath(outputDir, k) && r[k].origin == origins[k]
  {
    seq(|origins|, k requires 0 <= k < |origins| => Emitted(OutputPath(outputDir, k), origins[k]))
  }

  /** The frames of the sequence, in order: each pair's segment at its
      offset, then `final` when `appendFinal` holds. A last segment that ends
      in a generated frame keeps the final frame recognisable. */
  function Assemble(segs: seq<Result<seq<Origin>>>, lens: seq<nat>, appendFinal: bool, final: Origin): (r: Result<seq<Origin>>)
    requires LengthsMatch(segs, lens) && |segs| > 0
    requires forall q :: 0 <= q < |segs| ==> lens[q] > 0
    ensures r.Ok? <==> forall q :: 0 <= q < |segs| ==> segs[q].Ok?
    ensures r.Err? ==> exists q :: 0 <= q < |segs| && segs[q] == Err(r.error)
    ensures r.Ok? ==> |r.value| == Offset(lens, |lens|) + (if appendFinal then 1 else 0)
    ensures r.Ok? ==> |r.value| > 0
    ensures r.Ok? ==>
      r.value[|r.value| - 1] == (if appendFinal then final else segs[|segs| - 1].value[|segs[|segs| - 1].value| - 1])
  {
    var c := Concat(segs, lens, 0, []);
    if c.Err? then c
    else
      WrittenTail(segs, lens, c.value);
      if appendFinal then Ok(c.value + [final]) else c
  }

  /** Pair `q`'s frames sit at `Offset(lens, q)` in the assembled sequence. */
  lemma AssembledSegment(segs: seq<Result<seq<Origin>>>, lens: seq<nat>, appendFinal: bool, final: Origin, q: nat)
    requires LengthsMatch(segs, lens) && |segs| > 0 && q < |segs|
    requires forall p :: 0 <= p < |segs| ==> lens[p] > 0
    requires Assemble(segs, lens, appendFinal, final).Ok?
    ensures segs[q].Ok? && |segs[q].value| == lens[q]
    ensures var r := Assemble(segs, lens, appendFinal, final).value;
      && Offset(lens, q) + lens[q] <= |r|
      && r[Offset(lens, q)..Offset(lens, q) + lens[q]] == segs[q].value
  {
    var c := Concat(segs, lens, 0, []);
    var r := Assemble(segs, lens, appendFinal, final).value;
    var off := Offset(lens, q);
    ConcatPlacement(segs, lens, 0, [], q);
    if appendFinal {
      SliceOfAppend(c.value, final, off, off + lens[q]);
    }
  }

  lemma SliceOfAppend<T>(xs: seq<T>, y: T, lo: nat, hi: nat)
    requires lo <= hi <= |xs|
    ensures (xs + [y])[lo..hi] == xs[lo..hi]
  {
  }

  /** The frames of the pairs end with the last frame of the last pair. */
  lemma WrittenTail(segs: seq<Result<seq<Origin>>>, lens: seq<nat>, frames: seq<Origin>)
    requires LengthsMatch(segs, lens) && |segs| > 0
    requires forall q :: 0 <= q < |segs| ==> lens[q] > 0
    requires Concat(segs, lens, 0, []) == Ok(frames)
    ensures |frames| > 0 && segs[|segs| - 1].Ok? && |segs[|segs| - 1].value| > 0
    ensures frames[|frames| - 1] == segs[|segs| - 1].value[|segs[|segs| - 1].value| - 1]
  {
    var last := |segs| - 1;
    var r := Concat(segs, lens, 0, []);
    assert r.Ok?;
    assert segs[last].Ok?;
    var off := Offset(lens, last);
    assert Offset(lens, |segs|) == off + lens[last];
    ConcatPlacement(segs, lens, 0, [], last);
    var seg := segs[last].value;
    assert |seg| == lens[last];
    assert frames[off..off + lens[last]] == seg;
    assert frames[|frames| - 1] == seg[|seg| - 1];
  }

  /** What the frames of the sequence are copies of, in order, for valid
      inputs: each pair's segment, then the last keyframe when the last
      count is 0. */
  function WrittenOrigins(counts: seq<int>, runs: seq<Result<seq<FrameGenerator.GeneratedFrame>>>): Result<seq<Origin>>
    requires |counts| > 0
    requires forall i :: 0 <= i < |counts| ==> counts[i] >= 0
    requires RunLengths(counts, runs)
  {
    var last := |counts| - 1;
    Assemble(WrittenSegments(counts, runs), WrittenLengths(counts), counts[last] == 0, KeyframeCopy(|counts|))
  }

  /** `generate_multi_frame_sequence`: inputs are validated first; then the
      frames are written as `WrittenOrigins` lists them for the generator's
      runs, numbered from `frame_000.png` on. */
  function GenerateSequence(keyframes: seq<string>, counts: seq<int>, outputDir: string, timingCurve: string,
                            pathExists: string -> bool, load: string -> Result<FrameGenerator.Image>,
                            cv: FrameGenerator.Vision): (r: Result<seq<Emitted>>)
    ensures !ValidInputs(keyframes, counts, pathExists) ==>
      r == Err(ValidateInputs(keyframes, counts, pathExists).error)
    ensures ValidInputs(keyframes, counts, pathExists) ==>
      (r.Ok? <==> WrittenOrigins(counts, PairRuns(keyframes, counts, timingCurve, load, cv)).Ok?)
    ensures r.Ok? ==>
      && ValidInputs(keyframes, counts, pathExists)
      && |r.value| == |WrittenOrigins(counts, PairRuns(keyframes, counts, timingCurve, load, cv)).value|
      && forall k :: 0 <= k < |r.value| ==>
           && r.value[k].path == OutputPath(outputDir, k)
           && r.value[k].origin == WrittenOrigins(counts, PairRuns(keyframes, counts, timingCurve, load, cv)).value[k]
  {
    match ValidateInputs(keyframes, counts, pathExists)
    case Fail(e) => Err(e)
    case Pass =>
      match WrittenOrigins(counts, PairRuns(keyframes, counts, timingCurve, load, cv))
      case Err(e) => Err(e)
      case Ok(origins) => Ok(Number(outputDir, origins))
  }

  // ---------------------------------------------------------------------
  // Properties of the sequence as written
  // ---------------------------------------------------------------------

  /** The script fails exactly when the run of some pair with intermediate
      frames fails, and then with that run's error. */
  lemma WrittenFailure(counts: seq<int>, runs: seq<Result<seq<FrameGenerator.GeneratedFrame>>>)
    requires |counts| > 0
    requires forall i :: 0 <= i < |counts| ==> counts[i] >= 0
    requires RunLengths(counts, runs)
    ensures WrittenOrigins(counts, runs).Ok? <==> forall q :: 0 <= q < |counts| && counts[q] > 0 ==> runs[q].Ok?
    ensures WrittenOrigins(counts, runs).Err? ==>
      exists q :: 0 <= q < |counts| && counts[q] > 0 && runs[q] == Err(WrittenOrigins(counts, runs).error)
  {
    var segs := WrittenSegments(counts, runs);
    var r := WrittenOrigins(counts, runs);
    if r.Err? {
      var q :| 0 <= q < |segs| && segs[q] == Err(r.error);
      WrittenSegmentAt(counts, runs, q);
    } else {
      forall q | 0 <= q < |counts| && counts[q] > 0
        ensures runs[q].Ok?
      {
        WrittenSegmentAt(counts, runs, q);
      }
    }
  }

  /** Pair `q`'s segment sits at its offset in the written sequence. */
  lemma WrittenSegmentPlacement(counts: seq<int>, runs: seq<Result<seq<FrameGenerator.GeneratedFrame>>>, q: nat)
    requires q < |counts|
    requires forall i :: 0 <= i < |counts| ==> counts[i] >= 0
    requires RunLengths(counts, runs)
    requires WrittenOrigins(counts, runs).Ok?
    ensures Segment(q, counts[q], runs[q]).Ok?
    ensures var r := WrittenOrigins(counts, runs).value;
      && |r| == WrittenLength(counts)
      && Offset(WrittenLengths(counts), q) + SegmentLength(counts[q]) <= |r|
      && r[Offset(WrittenLengths(counts), q)..Offset(WrittenLengths(counts), q) + SegmentLength(counts[q])]
         == Segment(q, counts[q], runs[q]).value
  {
    var segs := WrittenSegments(counts, runs);
    var lens := WrittenLengths(counts);
    var appendFinal := counts[|counts| - 1] == 0;
    WrittenSegmentAt(counts, runs, q);
    AssembledSegment(segs, lens, appendFinal, KeyframeCopy(|counts|), q);
  }

  /** A pair with no intermediate frames contributes exactly its first
      keyframe; a pair with `c > 0` contributes the `c + 2` files of its
      run, in order. */
  lemma WrittenPairContents(counts: seq<int>, runs: seq<Result<seq<FrameGenerator.GeneratedFrame>>>, q: nat)
    requires q < |counts|
    requires forall i :: 0 <= i < |counts| ==> counts[i] >= 0
    requires RunLengths(counts, runs)
    requires WrittenOrigins(counts, runs).Ok?
    ensures var r := WrittenOrigins(counts, runs).value;
      var off := Offset(WrittenLengths(counts), q);
      && off + SegmentLength(counts[q]) <= |r|
      && (counts[q] == 0 ==> r[off] == KeyframeCopy(q))
      && (counts[q] > 0 ==> forall i :: 0 <= i < counts[q] + 2 ==> r[off + i] == SegmentFrame(q, i))
  {
    WrittenSegmentPlacement(counts, runs, q);
    PairContents(WrittenOrigins(counts, runs).value, Offset(WrittenLengths(counts), q),
                 Segment(q, counts[q], runs[q]).value, q, counts[q]);
  }

  /** A pair's segment, read back element by element at its offset. */
  lemma PairContents(r: seq<Origin>, off: nat, seg: seq<Origin>, q: nat, count: nat)
    requires off + |seg| <= |r| && r[off..off + |seg|] == seg
    requires count == 0 ==> seg == [KeyframeCopy(q)]
    requires count > 0 ==> |seg| == count + 2 && forall i :: 0 <= i < |seg| ==> seg[i] == SegmentFrame(q, i)
    ensures count == 0 ==> r[off] == KeyframeCopy(q)
    ensures count > 0 ==> forall i :: 0 <= i < count + 2 ==> r[off + i] == SegmentFrame(q, i)
  {
    SliceElements(r, off, seg);
    if count == 0 {
      assert r[off + 0] == seg[0];
    }
  }

  lemma SliceElements<T>(xs: seq<T>, off: nat, part: seq<T>)
    requires off + |part| <= |xs| && xs[off..off + |part|] == part
    ensures forall i :: 0 <= i < |part| ==> xs[off + i] == part[i]
  {
    forall i | 0 <= i < |part|
      ensures xs[off + i] == part[i]
    {
      assert xs[off + i] == xs[off..off + |part|][i];
    }
  }

  /** The sequence ends with the last keyframe: its own file when the last
      count is 0, otherwise the last file of the last pair's run. */
  lemma WrittenEnding(counts: seq<int>, runs: seq<Result<seq<FrameGenerator.GeneratedFrame>>>)
    requires |counts| > 0
    requires forall i :: 0 <= i < |counts| ==> counts[i] >= 0
    requires RunLengths(counts, runs)
    requires WrittenOrigins(counts, runs).Ok?
    ensures var r := WrittenOrigins(counts, runs).value;
      var last := |counts| - 1;
      && |r| > 0
      && (counts[last] == 0 ==> r[|r| - 1] == KeyframeCopy(|counts|))
      && (counts[last] > 0 ==> r[|r| - 1] == SegmentFrame(last, counts[last] + 1))
  {
    WrittenSegmentAt(counts, runs, |counts| - 1);
  }

  /** Where two segments with intermediate frames meet, two frames in a
      row come from the two runs: the last file of one pair and the first
      file of the next. */
  lemma SharedKeyframeRepeats(counts: seq<int>, runs: seq<Result<seq<FrameGenerator.GeneratedFrame>>>, q: nat)
    requires q + 1 < |counts|
    requires forall i :: 0 <= i < |counts| ==> counts[i] >= 0
    requires counts[q] > 0 && counts[q + 1] > 0
    requires RunLengths(counts, runs)
    requires WrittenOrigins(counts, runs).Ok?
    ensures var r := WrittenOrigins(counts, runs).value;
      var k := Offset(WrittenLengths(counts), q + 1);
      && 0 < k < |r|
      && r[k - 1] == SegmentFrame(q, counts[q] + 1)
      && r[k] == SegmentFrame(q + 1, 0)
  {
    WrittenPairContents(counts, runs, q);
    WrittenPairContents(counts, runs, q + 1);
    assert Offset(WrittenLengths(counts), q + 1) == Offset(WrittenLengths(counts), q) + counts[q] + 2;
  }

  /** The file `o` names, when it is a file of some pair's run, shows
      `image`. */
  predicate ShowsImage(runs: seq<Result<seq<FrameGenerator.GeneratedFrame>>>, o: Origin, image: FrameGenerator.Image) {
    && o.SegmentFrame? && o.pair < |runs| && runs[o.pair].Ok? && o.index < |runs[o.pair].value|
    && runs[o.pair].value[o.index].frame == FrameGenerator.Copied(image)
  }

  /** The first and last file of the generator's run for a pair are copies
      of the pair's two keyframes. */
  lemma PairRunEndpoints(keyframes: seq<string>, counts: seq<int>, timingCurve: string,
                         load: string -> Result<FrameGenerator.Image>, cv: FrameGenerator.Vision, q: nat)
    requires |counts| == |keyframes| - 1 && q < |counts|
    requires forall i :: 0 <= i < |counts| ==> counts[i] >= 0
    requires counts[q] > 0 && PairRuns(keyframes, counts, timingCurve, load, cv)[q].Ok?
    ensures load(keyframes[q]).Ok? && load(keyframes[q + 1]).Ok?
    ensures ShowsImage(PairRuns(keyframes, counts, timingCurve, load, cv), SegmentFrame(q, 0), load(keyframes[q]).value)
    ensures ShowsImage(PairRuns(keyframes, counts, timingCurve, load, cv), SegmentFrame(q, counts[q] + 1),
                       load(keyframes[q + 1]).value)
  {
    PairRunAt(keyframes, counts, timingCurve, load, cv, q);
    SegmentEndpoints(keyframes[q], keyframes[q + 1], q, counts[q], timingCurve, load, cv);
  }

  /** The shared keyframe of two pairs with intermediate frames appears in
      two consecutive output frames copied from two different files. */
  lemma SharedKeyframeWrittenTwice(keyframes: seq<string>, counts: seq<int>, timingCurve: string,
                                   load: string -> Result<FrameGenerator.Image>, cv: FrameGenerator.Vision, q: nat)
    requires |counts| == |keyframes| - 1 && q + 1 < |counts|
    requires forall i :: 0 <= i < |counts| ==> counts[i] >= 0
    requires counts[q] > 0 && counts[q + 1] > 0
    requires WrittenOrigins(counts, PairRuns(keyframes, counts, timingCurve, load, cv)).Ok?
    ensures var runs := PairRuns(keyframes, counts, timingCurve, load, cv);
      var r := WrittenOrigins(counts, runs).value;
      var k := Offset(WrittenLengths(counts), q + 1);
      && 0 < k < |r| && r[k - 1] != r[k]
      && load(keyframes[q + 1]).Ok?
      && ShowsImage(runs, r[k - 1], load(keyframes[q + 1]).value)
      && ShowsImage(runs, r[k], load(keyframes[q + 1]).value)
  {
    var runs := PairRuns(keyframes, counts, timingCurve, load, cv);
    WrittenRunEndsWithKeyframe(keyframes, counts, timingCurve, load, cv, q);
    WrittenRunStartsWithKeyframe(keyframes, counts, timingCurve, load, cv, q + 1);
    RepeatShowsImage(counts, runs, q, load(keyframes[q + 1]).value);
  }

  /** In a written sequence, the last file of pair `q`'s run shows
      keyframe `q + 1`. */
  lemma WrittenRunEndsWithKeyframe(keyframes: seq<string>, counts: seq<int>, timingCurve: string,
                                   load: string -> Result<FrameGenerator.Image>, cv: FrameGenerator.Vision, q: nat)
    requires |counts| == |keyframes| - 1 && q < |counts|
    requires forall i :: 0 <= i < |counts| ==> counts[i] >= 0
    requires counts[q] > 0
    requires WrittenOrigins(counts, PairRuns(keyframes, counts, timingCurve, load, cv)).Ok?
    ensures load(keyframes[q + 1]).Ok?
    ensures ShowsImage(PairRuns(keyframes, counts, timingCurve, load, cv), SegmentFrame(q, counts[q] + 1),
                       load(keyframes[q + 1]).value)
  {
    WrittenRunOk(counts, PairRuns(keyframes, counts, timingCurve, load, cv), q);
    PairRunEndpoints(keyframes, counts, timingCurve, load, cv, q);
  }

  /** In a written sequence, the first file of pair `q`'s run shows
      keyframe `q`. */
  lemma WrittenRunStartsWithKeyframe(keyframes: seq<string>, counts: seq<int>, timingCurve: string,
                                     load: string -> Result<FrameGenerator.Image>, cv: FrameGenerator.Vision, q: nat)
    requires |counts| == |keyframes| - 1 && q < |counts|
    requires forall i :: 0 <= i < |counts| ==> counts[i] >= 0
    requires counts[q] > 0
    requires WrittenOrigins(counts, PairRuns(keyframes, counts, timingCurve, load, cv)).Ok?
    ensures load(keyframes[q]).Ok?
    ensures ShowsImage(PairRuns(keyframes, counts, timingCurve, load, cv), SegmentFrame(q, 0), load(keyframes[q]).value)
  {
    WrittenRunOk(counts, PairRuns(keyframes, counts, timingCurve, load, cv), q);
    PairRunEndpoints(keyframes, counts, timingCurve, load, cv, q);
  }

  /** A written sequence means every pair with a count above 0 completed. */
  lemma WrittenRunOk(counts: seq<int>, runs: seq<Result<seq<FrameGenerator.GeneratedFrame>>>, q: nat)
    requires q < |counts| && counts[q] > 0
    requires forall i :: 0 <= i < |counts| ==> counts[i] >= 0
    requires RunLengths(counts, runs)
    requires WrittenOrigins(counts, runs).Ok?
    ensures runs[q].Ok?
  {
    WrittenFailure(counts, runs);
  }

  /** Two consecutive written files that both show `image`. */
  lemma RepeatShowsImage(counts: seq<int>, runs: seq<Result<seq<FrameGenerator.GeneratedFrame>>>, q: nat,
                         image: FrameGenerator.Image)
    requires q + 1 < |counts|
    requires forall i :: 0 <= i < |counts| ==> counts[i] >= 0
    requires counts[q] > 0 && counts[q + 1] > 0
    requires RunLengths(counts, runs)
    requires WrittenOrigins(counts, runs).Ok?
    requires ShowsImage(runs, SegmentFrame(q, counts[q] + 1), image) && ShowsImage(runs, SegmentFrame(q + 1, 0), image)
    ensures var r := WrittenOrigins(counts, runs).value;
      var k := Offset(WrittenLengths(counts), q + 1);
      && 0 < k < |r| && r[k - 1] != r[k]
      && ShowsImage(runs, r[k - 1], image)
      && ShowsImage(runs, r[k], image)
  {
    SharedKeyframeRepeats(counts, runs, q);
  }

  /** The example of the script's documentation, four keyframes with counts
      [1, 2, 0], is written as nine frames, not the seven it lists. */
  lemma DocstringExampleWritesNine(counts: seq<int>, runs: seq<Result<seq<FrameGenerator.GeneratedFrame>>>)
    requires counts == [1, 2, 0]
    requires RunLengths(counts, runs)
    requires WrittenOrigins(counts, runs).Ok?
    ensures |WrittenOrigins(counts, runs).value| == 9
  {
    var lens := WrittenLengths(counts);
    assert lens == [3, 4, 1];
    assert Offset(lens, 1) == 3;
    assert Offset(lens, 2) == 7;
    assert Offset(lens, 3) == 8;
  }

  // ---------------------------------------------------------------------
  // The sequence the documentation describes
  // ---------------------------------------------------------------------

  /** A pair's frames without the repeated keyframe: its first keyframe,
      then only the intermediate files of its run. */
  function DeduplicatedSegment(pair: nat, count: nat, run: Result<seq<FrameGenerator.GeneratedFrame>>): (r: Result<seq<Origin>>)
    requires count > 0 && run.Ok? ==> |run.value| == count + 2
    ensures count == 0 ==> r == Ok([KeyframeCopy(pair)])
    ensures count > 0 ==> (r.Ok? <==> run.Ok?)
    ensures r.Ok? ==> |r.value| == count + 1 && r.value[0] == KeyframeCopy(pair)
    ensures r.Ok? ==> forall i :: 1 <= i < |r.value| ==> r.value[i] == SegmentFrame(pair, i)
  {
    if count == 0 then Ok([KeyframeCopy(pair)])
    else match run
      case Err(e) => Err(e)
      case Ok(fs) => Ok([KeyframeCopy(pair)] + seq(count, i requires 0 <= i < count => SegmentFrame(pair, i + 1)))
  }

  function DeduplicatedLengths(counts: seq<int>): (lens: seq<nat>)
    requires forall i :: 0 <= i < |counts| ==> counts[i] >= 0
    ensures |lens| == |counts|
    ensures forall q :: 0 <= q < |counts| ==> lens[q] == counts[q] + 1
  {
    seq(|counts|, q requires 0 <= q < |counts| => counts[q] + 1)
  }

  function DeduplicatedSegments(counts: seq<int>, runs: seq<Result<seq<FrameGenerator.GeneratedFrame>>>): (segs: seq<Result<seq<Origin>>>)
    requires forall i :: 0 <= i < |counts| ==> counts[i] >= 0
    requires RunLengths(counts, runs)
    ensures LengthsMatch(segs, DeduplicatedLengths(counts))
    ensures forall q :: 0 <= q < |counts| && segs[q].Ok? ==> segs[q].value[0] == KeyframeCopy(q)
  {
    seq(|counts|, q requires 0 <= q < |counts| => DeduplicatedSegment(q, counts[q], runs[q]))
  }

  /** The sum of `counts[..q]`. */
  function CountsBefore(counts: seq<int>, q: nat): nat
    requires forall i :: 0 <= i < |counts| ==> counts[i] >= 0
    requires q <= |counts|
  {
    if q == 0 then 0 else CountsBefore(counts, q - 1) + counts[q - 1]
  }

  lemma {:induction false} DeduplicatedOffset(counts: seq<int>, q: nat)
    requires forall i :: 0 <= i < |counts| ==> counts[i] >= 0
    requires q <= |counts|
    ensures Offset(DeduplicatedLengths(counts), q) == q + CountsBefore(counts, q)
  {
    if q > 0 {
      DeduplicatedOffset(counts, q - 1);
    }
  }

  /** Every keyframe written once, each followed by the intermediate frames
      of its pair, with the last keyframe always appended. */
  function DeduplicatedOrigins(counts: seq<int>, runs: seq<Result<seq<FrameGenerator.GeneratedFrame>>>): (r: Result<seq<Origin>>)
    requires |counts| > 0
    requires forall i :: 0 <= i < |counts| ==> counts[i] >= 0
    requires RunLengths(counts, runs)
    ensures r.Ok? ==> |r.value| == |counts| + 1 + CountsBefore(counts, |counts|)
    ensures r.Ok? ==> r.value[|r.value| - 1] == KeyframeCopy(|counts|)
  {
    DeduplicatedOffset(counts, |counts|);
    Assemble(DeduplicatedSegments(counts, runs), DeduplicatedLengths(counts), true, KeyframeCopy(|counts|))
  }

  /** In the documented sequence keyframe `q` sits at `q` plus the counts
      of the pairs before it. */
  lemma DeduplicatedKeyframeAt(counts: seq<int>, runs: seq<Result<seq<FrameGenerator.GeneratedFrame>>>, q: nat)
    requires q < |counts|
    requires forall i :: 0 <= i < |counts| ==> counts[i] >= 0
    requires RunLengths(counts, runs)
    requires DeduplicatedOrigins(counts, runs).Ok?
    ensures var r := DeduplicatedOrigins(counts, runs).value;
      q + CountsBefore(counts, q) < |r| && r[q + CountsBefore(counts, q)] == KeyframeCopy(q)
  {
    var segs := DeduplicatedSegments(counts, runs);
    var lens := DeduplicatedLengths(counts);
    AssembledSegment(segs, lens, true, KeyframeCopy(|counts|), q);
    DeduplicatedOffset(counts, q);
    var r := DeduplicatedOrigins(counts, runs).value;
    var off := Offset(lens, q);
    assert r[off] == r[off..off + lens[q]][0];
  }

  /** Both sequences fail for the same runs. */
  lemma DeduplicatedFailsLikeWritten(counts: seq<int>, runs: seq<Result<seq<FrameGenerator.GeneratedFrame>>>)
    requires |counts| > 0
    requires forall i :: 0 <= i < |counts| ==> counts[i] >= 0
    requires RunLengths(counts, runs)
    ensures DeduplicatedOrigins(counts, runs).Ok? <==> WrittenOrigins(counts, runs).Ok?
  {
    WrittenFailure(counts, runs);
    var segs := DeduplicatedSegments(counts, runs);
    assert forall q :: 0 <= q < |counts| ==> segs[q] == DeduplicatedSegment(q, counts[q], runs[q]);
  }

  /** The documentation's example as it describes it: seven frames, the
      keyframes at positions 0, 2, 5 and 6. */
  lemma DeduplicatedExampleWritesSeven(counts: seq<int>, runs: seq<Result<seq<FrameGenerator.GeneratedFrame>>>)
    requires counts == [1, 2, 0]
    requires RunLengths(counts, runs)
    requires DeduplicatedOrigins(counts, runs).Ok?
    ensures var r := DeduplicatedOrigins(counts, runs).value;
      && |r| == 7
      && r[0] == KeyframeCopy(0) && r[2] == KeyframeCopy(1) && r[5] == KeyframeCopy(2) && r[6] == KeyframeCopy(3)
  {
    assert CountsBefore(counts, 1) == 1;
    assert CountsBefore(counts, 2) == 3;
    assert CountsBefore(counts, 3) == 3;
    DeduplicatedKeyframeAt(counts, runs, 0);
    DeduplicatedKeyframeAt(counts, runs, 1);
    DeduplicatedKeyframeAt(counts, runs, 2);
  }

  /** `generate_multi_frame_sequence` as its documentation describes it:
      the same validation and the same failures, but every keyframe is
      written once, so the sequence holds the keyframes plus the requested
      intermediate frames and ends with the last keyframe. */
  function GenerateDocumentedSequence(keyframes: seq<string>, counts: seq<int>, outputDir: string, timingCurve: string,
                                      pathExists: string -> bool, load: string -> Result<FrameGenerator.Image>,
                                      cv: FrameGenerator.Vision): (r: Result<seq<Emitted>>)
    ensures !ValidInputs(keyframes, counts, pathExists) ==>
      r == Err(ValidateInputs(keyframes, counts, pathExists).error)
    ensures ValidInputs(keyframes, counts, pathExists) ==>
      (r.Ok? <==> GenerateSequence(keyframes, counts, outputDir, timingCurve, pathExists, load, cv).Ok?)
    ensures r.Ok? ==>
      && ValidInputs(keyframes, counts, pathExists)
      && |r.value| == |keyframes| + CountsBefore(counts, |counts|)
      && r.value[|r.value| - 1].origin == KeyframeCopy(|counts|)
      && forall k :: 0 <= k < |r.value| ==> r.value[k].path == OutputPath(outputDir, k)
  {
    match ValidateInputs(keyframes, counts, pathExists)
    case Fail(e) => Err(e)
    case Pass =>
      var runs := PairRuns(keyframes, counts, timingCurve, load, cv);
      DeduplicatedFailsLikeWritten(counts, runs);
      match DeduplicatedOrigins(counts, runs)
      case Err(e) => Err(e)
      case Ok(origins) => Ok(Number(outputDir, origins))
  }
}
