/** The deterministic part of the validation service: choosing which frames
    are shown to the vision model (`_sample_frames`), turning its reply into
    a score record (`_parse_validation_response`) and the fixed record
    `validate_frames` returns when anything fails. The request itself, the
    image encoding, `json.loads` and `float(str)` are foreign and appear as
    parameters. The record here is the service's own (`score`), not the
    agent-side record with `overall_quality_score` in module State. */
module ValidationService {
  import opened Results
  import opened Text
  import opened Json

  // ---------------------------------------------------------------------
  // Frame sampling
  // ---------------------------------------------------------------------

  predicate NonDecreasing(xs: seq<int>) {
    forall i, j :: 0 <= i <= j < |xs| ==> xs[i] <= xs[j]
  }

  predicate StrictlyIncreasing(xs: seq<int>) {
    forall i, j :: 0 <= i < j < |xs| ==> xs[i] < xs[j]
  }

  /** `sorted(set(xs))` for a list that is already non-decreasing: adjacent
      repeats are dropped. Its contract is the meaning of `sorted(set(xs))`:
      strictly increasing with exactly the elements of `xs` (which, by
      `SortedSetUnique`, pins the result down). */
  function Dedup(xs: seq<int>): (r: seq<int>)
    requires NonDecreasing(xs)
    ensures StrictlyIncreasing(r)
    ensures forall x :: x in r <==> x in xs
    ensures |r| <= |xs|
    ensures |xs| > 0 ==> |r| > 0 && r[0] == xs[0] && r[|r| - 1] == xs[|xs| - 1]
  {
    if |xs| <= 1 then xs
    else
      var rest := Dedup(xs[1..]);
      if xs[0] == xs[1] then rest
      else
        assert forall x :: x in rest ==> x in xs[1..] ==> xs[1] <= x;
        [xs[0]] + rest
  }

  /** Two strictly increasing lists with the same elements are equal: there
      is only one way to sort a set. */
  lemma {:induction false} SortedSetUnique(a: seq<int>, b: seq<int>)
    requires StrictlyIncreasing(a) && StrictlyIncreasing(b)
    requires forall x :: x in a <==> x in b
    ensures a == b
  {
    assert |a| > 0 ==> a[0] in a && a[0] in b;
    assert |b| > 0 ==> b[0] in b && b[0] in a;
    if |a| > 0 {
      assert a[0] == b[0] by {
        assert a[0] in b && b[0] in a;
        assert forall x :: x in a ==> a[0] <= x;
        assert forall x :: x in b ==> b[0] <= x;
      }
      forall x
        ensures x in a[1..] <==> x in b[1..]
      {
        if x in a[1..] {
          assert a[0] < x;
          assert x in b;
        }
        if x in b[1..] {
          assert b[0] < x;
          assert x in a;
        }
      }
      SortedSetUnique(a[1..], b[1..]);
      assert a == [a[0]] + a[1..];
      assert b == [b[0]] + b[1..];
    }
  }

  /** A list without repeats is its own `sorted(set(...))`. */
  lemma {:induction false} DedupOfIncreasing(xs: seq<int>)
    requires StrictlyIncreasing(xs)
    ensures NonDecreasing(xs) && Dedup(xs) == xs
  {
    if |xs| > 1 {
      DedupOfIncreasing(xs[1..]);
      assert xs == [xs[0]] + xs[1..];
    }
  }

  /** The positions `_sample_frames` considers for `n` frames: first, a
      quarter, the middle, three quarters, last (Python's `//` agrees with
      Dafny's `/` on non-negative operands). */
  function Candidates(n: nat): seq<int> {
    [0, n / 4, n / 2, 3 * n / 4, n - 1]
  }

  lemma CandidatesNonDecreasing(n: nat)
    requires n >= 1
    ensures NonDecreasing(Candidates(n))
    ensures forall k :: 0 <= k < 5 ==> 0 <= Candidates(n)[k] < n
  {
    assert 3 * n / 4 <= n - 1;
  }

  /** The sampled positions for `n >= 1` frames. The filter `i < n` of the
      source removes nothing here, since every candidate is below `n`. */
  function SampleIndices(n: nat): (r: seq<int>)
    requires n >= 1
    ensures StrictlyIncreasing(r)
    ensures forall i :: i in r <==> i in Candidates(n)
    ensures 1 <= |r| <= 5
    ensures r[0] == 0 && r[|r| - 1] == n - 1
    ensures forall k :: 0 <= k < |r| ==> 0 <= r[k] < n
  {
    CandidatesNonDecreasing(n);
    var r := Dedup(Candidates(n));
    assert forall k :: 0 <= k < |r| ==> r[k] in Candidates(n);
    r
  }

  /** From five frames on, the five candidate positions are all distinct. */
  lemma FiveDistinctFromFive(n: nat)
    requires n >= 5
    ensures |SampleIndices(n)| == 5
  {
    var c := Candidates(n);
    assert 0 < n / 4 < n / 2 < 3 * n / 4 < n - 1;
    assert StrictlyIncreasing(c);
    DedupOfIncreasing(c);
  }

  /** `_sample_frames(frames, max_samples)`. At most `max_samples` frames
      come back unchanged; beyond that the frames at the sampled positions
      come back in order, the first and the last frame among them. With a
      negative `max_samples` and no frames, `frames[-1]` raises. */
  function SampleFrames<T>(frames: seq<T>, maxSamples: int): (r: Result<seq<T>>)
    ensures |frames| <= maxSamples ==> r == Ok(frames)
    ensures r.Err? <==> |frames| == 0 && maxSamples < 0
    ensures r.Ok? && |frames| > maxSamples ==>
      && |r.value| == |SampleIndices(|frames|)| <= 5
      && (forall k :: 0 <= k < |r.value| ==> r.value[k] == frames[SampleIndices(|frames|)[k]])
      && r.value[0] == frames[0]
      && r.value[|r.value| - 1] == frames[|frames| - 1]
  {
    var n := |frames|;
    if n <= maxSamples then Ok(frames)
    else if n == 0 then Err("list index out of range")
    else
      var idx := SampleIndices(n);
      Ok(seq(|idx|, k requires 0 <= k < |idx| => frames[idx[k]]))
  }

  /** Sampled frames keep their relative order and are never repeated:
      the positions taken are strictly increasing and within the input. */
  lemma SampledPositionsIncrease(n: nat, maxSamples: int)
    requires n >= 1 && n > maxSamples
    ensures forall j, k :: 0 <= j < k < |SampleIndices(n)| ==>
      0 <= SampleIndices(n)[j] < SampleIndices(n)[k] < n
  {
    var r := SampleIndices(n);
    assert StrictlyIncreasing(r);
    assert forall k :: 0 <= k < |r| ==> 0 <= r[k] < n;
  }

  /** At the only call site (`max_samples=5`) the sample has at most five
      frames, and exactly five when there are more than five. */
  lemma SampleAtMostFive<T>(frames: seq<T>)
    ensures SampleFrames(frames, 5).Ok?
    ensures |SampleFrames(frames, 5).value| <= 5
    ensures |frames| > 5 ==> |SampleFrames(frames, 5).value| == 5
  {
    if |frames| > 5 {
      FiveDistinctFromFive(|frames|);
    }
  }

  /** The bound is five, not `max_samples`: three frames sampled with a
      limit of one all come back. */
  lemma SampleSizeIgnoresSmallLimit()
    ensures SampleFrames(["a", "b", "c"], 1) == Ok(["a", "b", "c"])
  {
    var c := Candidates(3);
    assert c == [0, 0, 1, 2, 2];
    var sorted: seq<int> := [0, 1, 2];
    assert forall x :: x in sorted <==> x in c;
    SortedSetUnique(SampleIndices(3), sorted);
    var frames := ["a", "b", "c"];
    var r := SampleFrames(frames, 1).value;
    assert |r| == 3;
    assert r[0] == frames[0] && r[1] == frames[1] && r[2] == frames[2];
    assert r == frames;
    assert SampleIndices(3) == [0, 1, 2];
  }

  // ---------------------------------------------------------------------
  // Reply parsing
  // ---------------------------------------------------------------------

  /** The text `_parse_validation_response` hands to `json.loads`: after
      `strip()`, a reply containing a "```json" marker keeps what lies
      between that marker and the next "```"; otherwise one containing
      "```" keeps what lies between the first two. A missing closing
      marker gives `find` = -1, so the slice stops one character before
      the end. */
  function StripValidationFences(responseText: string): string {
    var text := Strip(responseText);
    match FencedText(text)
    case Some(inner) => Strip(inner)
    case None => text
  }

  /** The text between the fences of an already stripped reply, or `None`
      when the reply has no "```" at all. */
  function FencedText(text: string): Option<string> {
    if Contains(text, "```json") then
      var start := Find(text, "```json", 0) + 7;
      Some(Slice(text, start, Find(text, "```", start)))
    else if Contains(text, "```") then
      var start := Find(text, "```", 0) + 3;
      Some(Slice(text, start, Find(text, "```", start)))
    else None
  }

  predicate NoBacktick(s: string) {
    forall i :: 0 <= i < |s| ==> s[i] != '`'
  }

  /** `find` from `from` lands on `p` when `pat` starts with a backtick,
      occurs at `p`, and nothing in between is a backtick. */
  lemma FindPastBacktickFree(s: string, pat: string, from: nat, p: nat)
    requires from <= p && OccursAt(s, pat, p)
    requires |pat| > 0 && pat[0] == '`'
    requires forall i :: from <= i < p ==> s[i] != '`'
    ensures Find(s, pat, from) == p
  {
    forall i | from <= i < p
      ensures !OccursAt(s, pat, i)
    {
      if i + |pat| <= |s| {
        assert s[i..i + |pat|][0] == s[i];
      }
    }
  }

  /** No occurrence of a backtick-led `pat` at or after `from` when the rest
      of `s` has no backtick. */
  lemma FindNoneInBacktickFree(s: string, pat: string, from: nat)
    requires |pat| > 0 && pat[0] == '`'
    requires forall i :: from <= i < |s| ==> s[i] != '`'
    ensures Find(s, pat, from) == -1
  {
    forall i | from <= i
      ensures !OccursAt(s, pat, i)
    {
      if i + |pat| <= |s| {
        assert s[i..i + |pat|][0] == s[i];
      }
    }
  }

  /** Prose, a json-tagged fence around a body, and trailing prose: the body
      is what gets parsed. */
  lemma JsonFenceRoundTrip(pre: string, body: string, post: string)
    requires NoBacktick(pre) && NoBacktick(body)
    requires |pre| > 0 ==> !IsSpace(pre[0])
    requires |post| > 0 ==> !IsSpace(post[|post| - 1])
    ensures StripValidationFences(pre + "```json" + body + "```" + post) == Strip(body)
  {
    var s := pre + "```json" + body + "```" + post;
    FenceUnpadded(s, pre, "```json", body, "```", post);
    JsonFencedText(s, pre, body, post);
    FencedReplySelects(s, body);
  }

  /** The fenced text of that reply is the body. */
  lemma JsonFencedText(s: string, pre: string, body: string, post: string)
    requires NoBacktick(pre) && NoBacktick(body)
    requires s == pre + "```json" + body + "```" + post
    ensures FencedText(s) == Some(body)
  {
    FenceFinds(s, pre, "```json", body, "```", post, |pre| + 7);
    JsonFenceSelects(s, |pre|, |pre| + 7 + |body|);
  }

  /** In `pre + open + body + close + post`, with backtick-led markers and
      no backtick in `pre` or `body`: the first `open` is right after
      `pre`, and the first `close` after it right after `body`. */
  lemma FenceFinds(s: string, pre: string, open: string, body: string, close: string, post: string, start: nat)
    requires s == pre + open + body + close + post
    requires |open| > 0 && open[0] == '`' && |close| > 0 && close[0] == '`'
    requires NoBacktick(pre) && NoBacktick(body)
    requires start == |pre| + |open|
    ensures Find(s, open, 0) == |pre|
    ensures Find(s, close, start) == start + |body|
    ensures s[start..start + |body|] == body
  {
    FenceLayout(pre, open, body, close, post);
    FindPastBacktickFree(s, open, 0, |pre|);
    FindPastBacktickFree(s, close, start, start + |body|);
  }

  /** The same reply is its own `strip` when neither end is whitespace. */
  lemma FenceUnpadded(s: string, pre: string, open: string, body: string, close: string, post: string)
    requires s == pre + open + body + close + post
    requires |open| > 0 && !IsSpace(open[0]) && |close| > 0 && !IsSpace(close[|close| - 1])
    requires |pre| > 0 ==> !IsSpace(pre[0])
    requires |post| > 0 ==> !IsSpace(post[|post| - 1])
    ensures Strip(s) == s
  {
    assert s[0] == if |pre| > 0 then pre[0] else open[0];
    assert s[|s| - 1] == if |post| > 0 then post[|post| - 1] else close[|close| - 1];
    StripKeepsUnpadded(s);
  }

  /** A reply that strip leaves alone is parsed as its fenced text. */
  lemma FencedReplySelects(text: string, inner: string)
    requires Strip(text) == text
    requires FencedText(text) == Some(inner)
    ensures StripValidationFences(text) == Strip(inner)
  {
  }

  /** Where the five parts of `a + b + c + d + e` sit. */
  lemma FenceLayout(a: string, b: string, c: string, d: string, e: string)
    requires |b| > 0 && |d| > 0
    ensures var s := a + b + c + d + e;
            && s[|a|..|a| + |b|] == b
            && s[|a| + |b|..|a| + |b| + |c|] == c
            && s[|a| + |b| + |c|..|a| + |b| + |c| + |d|] == d
            && (forall i :: 0 <= i < |a| ==> s[i] == a[i])
            && (forall i :: |a| + |b| <= i < |a| + |b| + |c| ==> s[i] == c[i - |a| - |b|])
            && s[0] == (if |a| > 0 then a[0] else b[0])
            && s[|s| - 1] == (if |e| > 0 then e[|e| - 1] else d[|d| - 1])
  {
  }

  /** With a json-tagged fence at `p` closed at `end`, the text between is
      what gets parsed. */
  lemma JsonFenceSelects(text: string, p: nat, end: nat)
    requires Find(text, "```json", 0) == p
    requires Find(text, "```", p + 7) == end
    ensures FencedText(text) == Some(text[p + 7..end])
  {
    assert OccursAt(text, "```json", p) && OccursAt(text, "```", end);
    assert p + 7 == end ==> text[p + 7..end] == [];
  }

  /** A json-tagged fence at `p` that is never closed: everything after it
      but the last character gets parsed. */
  lemma UnclosedJsonFenceSelects(text: string, p: nat)
    requires Find(text, "```json", 0) == p
    requires Find(text, "```", p + 7) == -1
    ensures FencedText(text) == Some(if p + 7 < |text| - 1 then text[p + 7..|text| - 1] else [])
  {
  }

  /** A json-tagged fence that is never closed loses the last character of
      its body. */
  lemma UnclosedFenceDropsLastChar(body: string)
    requires NoBacktick(body) && |body| > 0 && !IsSpace(body[|body| - 1])
    ensures StripValidationFences("```json" + body) == Strip(body[..|body| - 1])
  {
    var open := "```json";
    var s := open + body;
    assert s[0] == '`' && s[|s| - 1] == body[|body| - 1];
    StripKeepsUnpadded(s);
    assert s[0..7] == open;
    FindPastBacktickFree(s, open, 0, 0);
    assert forall i :: 7 <= i < |s| ==> s[i] == body[i - 7];
    FindNoneInBacktickFree(s, "```", 7);
    UnclosedJsonFenceSelects(s, 0);
    var kept := body[..|body| - 1];
    assert (if 7 < |s| - 1 then s[7..|s| - 1] else []) == kept;
    FencedReplySelects(s, kept);
  }

  /** A reply in which "```" never occurs is only stripped; single or
      double backticks around inline code do not matter. */
  lemma UnfencedReplyOnlyStripped(responseText: string)
    requires !Contains(responseText, "```")
    ensures StripValidationFences(responseText) == Strip(responseText)
  {
    var t := Strip(responseText);
    var a := StripIsInfix(responseText);
    if Contains(t, "```") {
      ContainsInInfix(responseText, a, t, "```");
    }
    if Contains(t, "```json") {
      var i := Find(t, "```json", 0);
      assert t[i..i + 3] == t[i..i + 7][..3];
      assert OccursAt(t, "```", i);
      ContainsInInfix(responseText, a, t, "```");
    }
  }

  predicate IsBrace(c: char) {
    c == '{' || c == '}'
  }

  /** The first brace of `s` at or after `from`, or `|s|` when there is none. */
  function NextBrace(s: string, from: nat): (j: nat)
    requires from <= |s|
    ensures from <= j <= |s|
    ensures j < |s| ==> IsBrace(s[j])
    ensures forall k :: from <= k < j ==> !IsBrace(s[k])
    decreases |s| - from
  {
    if from == |s| || IsBrace(s[from]) then from else NextBrace(s, from + 1)
  }

  /** The pattern `\{[^{}]*\}` matches at `i`: an opening brace whose next
      brace is a closing one. */
  predicate FlatObjectAt(s: string, i: int) {
    0 <= i < |s| && s[i] == '{' && NextBrace(s, i + 1) < |s| && s[NextBrace(s, i + 1)] == '}'
  }

  /** `re.search(r'\{[^{}]*\}', s)` from position `from`: the leftmost match,
      running from its opening brace to the first brace after it. */
  function SearchFlatObject(s: string, from: nat): (r: Option<string>)
    ensures r.Some? ==>
      && |r.value| >= 2
      && r.value[0] == '{' && r.value[|r.value| - 1] == '}'
      && (forall k :: 0 < k < |r.value| - 1 ==> !IsBrace(r.value[k]))
    decreases |s| - from
  {
    if from >= |s| then None
    else if FlatObjectAt(s, from) then
      var j := NextBrace(s, from + 1);
      Some(s[from..j + 1])
    else SearchFlatObject(s, from + 1)
  }

  /** The search finds nothing exactly when no position from `from` on
      matches. */
  lemma {:induction false} SearchNoneIff(s: string, from: nat)
    ensures SearchFlatObject(s, from).None? <==> forall i :: from <= i ==> !FlatObjectAt(s, i)
    decreases |s| - from
  {
    if from < |s| && !FlatObjectAt(s, from) {
      SearchSkipsOne(s, from);
      SearchNoneIff(s, from + 1);
    }
  }

  /** The search returns the leftmost match: the first position `p` that
      matches determines the result. */
  lemma {:induction false} SearchFindsFirstMatch(s: string, from: nat, p: nat)
    requires from <= p && FlatObjectAt(s, p)
    requires forall i :: from <= i < p ==> !FlatObjectAt(s, i)
    ensures SearchFlatObject(s, from) == Some(s[p..NextBrace(s, p + 1) + 1])
    decreases p - from
  {
    if from < p {
      SearchSkipsOne(s, from);
      SearchFindsFirstMatch(s, from + 1, p);
    }
  }

  /** The search finds the leftmost match: a brace-free prefix followed by a
      flat object yields exactly that object. */
  lemma SearchFindsLeadingObject(pre: string, inner: string, post: string)
    requires forall k :: 0 <= k < |pre| ==> pre[k] != '{'
    requires forall k :: 0 <= k < |inner| ==> !IsBrace(inner[k])
    ensures SearchFlatObject(pre + "{" + inner + "}" + post, 0) == Some("{" + inner + "}")
  {
    var s := pre + "{" + inner + "}" + post;
    FlatObjectLayout(s, pre, inner, post);
    LeadingObjectFound(s, |pre|, |pre| + 1 + |inner|);
  }

  /** Where the object sits in `pre + "{" + inner + "}" + post`. */
  lemma FlatObjectLayout(s: string, pre: string, inner: string, post: string)
    requires forall k :: 0 <= k < |pre| ==> pre[k] != '{'
    requires forall k :: 0 <= k < |inner| ==> !IsBrace(inner[k])
    requires s == pre + "{" + inner + "}" + post
    ensures |pre| + 1 + |inner| < |s|
    ensures forall k :: 0 <= k < |pre| ==> s[k] != '{'
    ensures s[|pre|] == '{' && s[|pre| + 1 + |inner|] == '}'
    ensures forall k :: |pre| + 1 <= k < |pre| + 1 + |inner| ==> !IsBrace(s[k])
    ensures s[|pre|..|pre| + 1 + |inner| + 1] == "{" + inner + "}"
  {
    assert forall k :: |pre| + 1 <= k < |pre| + 1 + |inner| ==> s[k] == inner[k - |pre| - 1];
  }

  /** An opening brace at `p` after a prefix without one, whose next brace
      is the closing one at `c`: the search from the start returns it. */
  lemma LeadingObjectFound(s: string, p: nat, c: nat)
    requires p < c < |s| && s[p] == '{' && s[c] == '}'
    requires forall k :: 0 <= k < p ==> s[k] != '{'
    requires forall k :: p + 1 <= k < c ==> !IsBrace(s[k])
    ensures SearchFlatObject(s, 0) == Some(s[p..c + 1])
  {
    NextBraceSkips(s, p + 1, c);
    assert FlatObjectAt(s, p);
    SearchFindsFirstMatch(s, 0, p);
  }

  lemma {:induction false} NextBraceSkips(s: string, from: nat, c: nat)
    requires from <= c < |s| && IsBrace(s[c])
    requires forall k :: from <= k < c ==> !IsBrace(s[k])
    ensures NextBrace(s, from) == c
    decreases c - from
  {
    if from < c {
      NextBraceSkips(s, from + 1, c);
    }
  }

  /** A position that does not match is passed over. */
  lemma SearchSkipsOne(s: string, from: nat)
    requires from < |s| && !FlatObjectAt(s, from)
    ensures SearchFlatObject(s, from) == SearchFlatObject(s, from + 1)
  {
  }

  /** Python's `float(v)` on a decoded value: numbers and booleans convert,
      strings go through the foreign `parseFloat`, anything else raises. */
  function ToFloat(v: Json, parseFloat: string -> Option<real>): (r: Option<real>)
    ensures IsNumber(v) ==> r == Some(NumberValue(v))
    ensures (v.Null? || v.Arr? || v.Obj?) ==> r.None?
  {
    match v
    case Num(n) => Some(n)
    case Bool(b) => Some(if b then 1.0 else 0.0)
    case Str(s) => parseFloat(s)
    case _ => None
  }

  /** `max(0.0, min(10.0, x))`. */
  function Clamp(x: real): (r: real)
    ensures 0.0 <= r <= 10.0
    ensures 0.0 <= x <= 10.0 ==> r == x
    ensures x < 0.0 ==> r == 0.0
    ensures x > 10.0 ==> r == 10.0
  {
    var m := if x < 10.0 then x else 10.0;
    if 0.0 > m then 0.0 else m
  }

  lemma ClampIdempotent(x: real)
    ensures Clamp(Clamp(x)) == Clamp(x)
  {
  }

  /** The score record the service returns. `issues` and `suggestions` are
      passed through from the reply as they are; `status` and `error` are
      set only by the fallback. */
  datatype ServiceValidation = ServiceValidation(
    score: real,
    smoothness: real,
    arcAdherence: real,
    volume: real,
    artifacts: real,
    style: real,
    issues: Json,
    suggestions: Json,
    status: Option<string>,
    error: Option<string>)

  const ScoreKeys: seq<string> := ["score", "smoothness", "arc_adherence", "volume", "artifacts", "style"]
  const DefaultScore: real := 7.0

  function Scores(v: ServiceValidation): seq<real> {
    [v.score, v.smoothness, v.arcAdherence, v.volume, v.artifacts, v.style]
  }

  /** `float(data.get(key, 7.0))`. */
  function ScoreField(fields: map<string, Json>, key: string, parseFloat: string -> Option<real>): (r: Result<real>)
    ensures key !in fields ==> r == Ok(DefaultScore)
    ensures key in fields && IsNumber(fields[key]) ==> r == Ok(NumberValue(fields[key]))
  {
    if key !in fields then Ok(DefaultScore)
    else match ToFloat(fields[key], parseFloat)
      case Some(x) => Ok(x)
      case None => Err("could not convert " + key + " to float")
  }

  /** The six scores in `ScoreKeys` order, each defaulted and converted;
      the first one that does not convert raises. */
  function ReadScores(fields: map<string, Json>, keys: seq<string>, parseFloat: string -> Option<real>): (r: Result<seq<real>>)
    ensures r.Ok? ==> |r.value| == |keys|
    ensures r.Ok? ==> forall i :: 0 <= i < |keys| ==> ScoreField(fields, keys[i], parseFloat) == Ok(r.value[i])
    ensures r.Err? <==> exists i :: 0 <= i < |keys| && ScoreField(fields, keys[i], parseFloat).Err?
  {
    if |keys| == 0 then Ok([])
    else match ScoreField(fields, keys[0], parseFloat)
      case Err(e) => Err(e)
      case Ok(x) =>
        match ReadScores(fields, keys[1..], parseFloat)
        case Err(e) =>
          Err(e)
        case Ok(xs) =>
          assert forall i :: 1 <= i < |keys| ==> keys[i] == keys[1..][i - 1];
          Ok([x] + xs)
  }

  /** The dictionary `_parse_validation_response` settles on: `json.loads` of
      the unfenced text, or failing that of the first flat object in it. */
  function DecodeReply(text: string, loads: string -> Option<Json>): (r: Result<Json>)
    ensures loads(text).Some? ==> r == Ok(loads(text).value)
    ensures loads(text).None? && SearchFlatObject(text, 0).None? ==>
      r == Err("Could not parse validation response: " + Slice(text, 0, 200))
    ensures loads(text).None? && SearchFlatObject(text, 0).Some? ==>
      (r.Ok? <==> loads(SearchFlatObject(text, 0).value).Some?)
    ensures r.Ok? && loads(text).None? ==>
      SearchFlatObject(text, 0).Some? && r.value == loads(SearchFlatObject(text, 0).value).value
  {
    match loads(text)
    case Some(data) => Ok(data)
    case None =>
      match SearchFlatObject(text, 0)
      case Some(m) =>
        (match loads(m)
         case Some(data) => Ok(data)
         case None => Err("Invalid JSON in extracted object"))
      case None => Err("Could not parse validation response: " + Slice(text, 0, 200))
  }

  /** The record built from a decoded dictionary: each of the six scores
      defaulted, converted and clamped into [0, 10]; issues and suggestions
      default to empty lists. */
  function FromFields(fields: map<string, Json>, parseFloat: string -> Option<real>): (r: Result<ServiceValidation>)
    ensures r.Ok? <==> ReadScores(fields, ScoreKeys, parseFloat).Ok?
    ensures r.Ok? ==> r.value.status.None? && r.value.error.None?
    ensures r.Ok? ==> forall i :: 0 <= i < 6 ==>
      ScoreField(fields, ScoreKeys[i], parseFloat) == Ok(ReadScores(fields, ScoreKeys, parseFloat).value[i])
      && Scores(r.value)[i] == Clamp(ReadScores(fields, ScoreKeys, parseFloat).value[i])
    ensures r.Ok? ==> r.value.issues == (if "issues" in fields then fields["issues"] else Arr([]))
    ensures r.Ok? ==> r.value.suggestions == (if "suggestions" in fields then fields["suggestions"] else Arr([]))
  {
    match ReadScores(fields, ScoreKeys, parseFloat)
    case Err(e) => Err(e)
    case Ok(xs) =>
      var v := ClampedRecord(xs, fields);
      MappedSixAt(xs, Scores(v), Clamp);
      Ok(v)
  }

  /** A six-element display of `f` over `xs`, read back by index. */
  lemma MappedSixAt(xs: seq<real>, ys: seq<real>, f: real -> real)
    requires |xs| == 6
    requires ys == [f(xs[0]), f(xs[1]), f(xs[2]), f(xs[3]), f(xs[4]), f(xs[5])]
    ensures forall i :: 0 <= i < 6 ==> ys[i] == f(xs[i])
  {
  }

  /** The record of six read scores, clamped, with the lists of `fields`. */
  function ClampedRecord(xs: seq<real>, fields: map<string, Json>): (v: ServiceValidation)
    requires |xs| == 6
    ensures Scores(v) == [Clamp(xs[0]), Clamp(xs[1]), Clamp(xs[2]), Clamp(xs[3]), Clamp(xs[4]), Clamp(xs[5])]
    ensures v.status.None? && v.error.None?
    ensures v.issues == (if "issues" in fields then fields["issues"] else Arr([]))
    ensures v.suggestions == (if "suggestions" in fields then fields["suggestions"] else Arr([]))
  {
    var v := ServiceValidation(
      Clamp(xs[0]), Clamp(xs[1]), Clamp(xs[2]), Clamp(xs[3]), Clamp(xs[4]), Clamp(xs[5]),
      if "issues" in fields then fields["issues"] else Arr([]),
      if "suggestions" in fields then fields["suggestions"] else Arr([]),
      None, None);
    v
  }

  /** Every score of a parsed record lies in [0, 10]; a key the reply leaves
      out scores 7.0, and a numeric one scores its clamped value. */
  lemma FromFieldsScores(fields: map<string, Json>, parseFloat: string -> Option<real>, i: nat)
    requires i < 6
    requires FromFields(fields, parseFloat).Ok?
    ensures 0.0 <= Scores(FromFields(fields, parseFloat).value)[i] <= 10.0
    ensures ScoreKeys[i] !in fields ==> Scores(FromFields(fields, parseFloat).value)[i] == DefaultScore
    ensures ScoreKeys[i] in fields && IsNumber(fields[ScoreKeys[i]]) ==>
      Scores(FromFields(fields, parseFloat).value)[i] == Clamp(NumberValue(fields[ScoreKeys[i]]))
  {
  }

  /** `_parse_validation_response`: the unfenced reply is decoded, must be
      a dictionary (anything else has no `get` and raises), and becomes the
      score record. */
  function ParseValidationResponse(responseText: string, loads: string -> Option<Json>, parseFloat: string -> Option<real>): (r: Result<ServiceValidation>)
    ensures r.Ok? <==>
      && DecodeReply(StripValidationFences(responseText), loads).Ok?
      && DecodeReply(StripValidationFences(responseText), loads).value.Obj?
      && FromFields(DecodeReply(StripValidationFences(responseText), loads).value.fields, parseFloat).Ok?
    ensures r.Ok? ==>
      r == FromFields(DecodeReply(StripValidationFences(responseText), loads).value.fields, parseFloat)
    ensures r.Ok? ==> forall i :: 0 <= i < 6 ==> 0.0 <= Scores(r.value)[i] <= 10.0
  {
    match DecodeReply(StripValidationFences(responseText), loads)
    case Err(e) => Err(e)
    case Ok(data) =>
      if !data.Obj? then Err("decoded reply has no attribute 'get'")
      else FromFields(data.fields, parseFloat)
  }

  /** A reply that decodes to an empty dictionary scores 7.0 everywhere. */
  lemma EmptyObjectScoresSeven(responseText: string, loads: string -> Option<Json>, parseFloat: string -> Option<real>)
    requires loads(StripValidationFences(responseText)) == Some(Obj(map[]))
    ensures ParseValidationResponse(responseText, loads, parseFloat).Ok?
    ensures Scores(ParseValidationResponse(responseText, loads, parseFloat).value) == [7.0, 7.0, 7.0, 7.0, 7.0, 7.0]
  {
    var fields: map<string, Json> := map[];
    assert forall i :: 0 <= i < |ScoreKeys| ==> ScoreField(fields, ScoreKeys[i], parseFloat).Ok?;
    var r := ParseValidationResponse(responseText, loads, parseFloat);
    var s := Scores(r.value);
    assert forall i :: 0 <= i < 6 ==> s[i] == DefaultScore;
  }

  /** The record returned when the request or the parsing fails. */
  function Fallback(error: string): (v: ServiceValidation)
    ensures Scores(v) == [DefaultScore, DefaultScore, DefaultScore, DefaultScore, DefaultScore, DefaultScore]
    ensures v.status == Some("fallback") && v.error == Some(error)
  {
    ServiceValidation(
      DefaultScore, DefaultScore, DefaultScore, DefaultScore, DefaultScore, DefaultScore,
      Arr([Str("Validation failed: " + error)]),
      Arr([Str("Manual review recommended")]),
      Some("fallback"), Some(error))
  }

  /** `validate_frames`: five sampled frames go to the vision model (the
      foreign `respond`, which may fail); its reply is parsed; any failure
      gives the fallback record. */
  function ValidateFrames(frames: seq<string>, respond: seq<string> -> Result<string>,
                          loads: string -> Option<Json>, parseFloat: string -> Option<real>): (r: ServiceValidation)
    ensures SampleFrames(frames, 5).Ok?
    ensures forall i :: 0 <= i < 6 ==> 0.0 <= Scores(r)[i] <= 10.0
    ensures r.status.Some? <==>
      || respond(SampleFrames(frames, 5).value).Err?
      || ParseValidationResponse(respond(SampleFrames(frames, 5).value).value, loads, parseFloat).Err?
    ensures r.status.Some? ==> r.status == Some("fallback") && Scores(r) == [7.0, 7.0, 7.0, 7.0, 7.0, 7.0]
    ensures r.status.None? ==> r == ParseValidationResponse(respond(SampleFrames(frames, 5).value).value, loads, parseFloat).value
  {
    SampleAtMostFive(frames);
    var sample := SampleFrames(frames, 5).value;
    match respond(sample)
    case Err(e) => Fallback(e)
    case Ok(text) =>
      match ParseValidationResponse(text, loads, parseFloat)
      case Err(e) => Fallback(e)
      case Ok(v) => v
  }
}
