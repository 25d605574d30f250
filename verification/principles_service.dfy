/** The deterministic part of the principles service: stripping a markdown
    code fence from the model's reply (`_parse_response`) and the schema check
    of the parsed data (`_validate_principles_data`). The request to the
    language model and `json.loads` are foreign; `loads` is a parameter. */
module PrinciplesService {
  import opened Results
  import opened Text
  import opened Json
  import opened State

  /** The text `_parse_response` hands to `json.loads`: after `strip()`, a
      reply starting with a fence loses its first line (or just the three
      backticks when there is no newline) and one trailing fence; the
      remainder is stripped again. */
  function StripCodeFence(responseText: string): string {
    Strip(Unfence(Strip(responseText)))
  }

  /** The fence removal itself, on already stripped text. */
  function Unfence(text: string): string {
    if StartsWith(text, "```") then
      var rest := if Contains(text, "\n") then text[Find(text, "\n", 0) + 1..] else text[3..];
      if EndsWith(rest, "```") then rest[..|rest| - 3] else rest
    else text
  }

  /** `_parse_response`: unparsable text raises `ValueError`. */
  function ParseResponse(responseText: string, loads: string -> Option<Json>): (r: Result<Json>)
    ensures r.Ok? <==> loads(StripCodeFence(responseText)).Some?
    ensures r.Ok? ==> r.value == loads(StripCodeFence(responseText)).value
  {
    match loads(StripCodeFence(responseText))
    case Some(data) => Ok(data)
    case None => Err("Invalid JSON response from Claude")
  }

  /** A reply wrapped as "```tag\n" + body + "\n```" (tag without a newline)
      is unwrapped to the stripped body. */
  lemma StripCodeFenceRoundTrip(tag: string, body: string)
    requires forall i :: 0 <= i < |tag| ==> tag[i] != '\n'
    ensures StripCodeFence("```" + tag + "\n" + body + "\n```") == Strip(body)
  {
    var s := "```" + tag + "\n" + body + "\n```";
    assert s[0] == '`' && s[|s| - 1] == '`';
    StripKeepsUnpadded(s);
    UnfenceTagged(s, tag, body);
    StripIgnoresTrailingSpace(body, "\n");
  }

  /** The tagged fence loses its first line and the closing backticks; the
      newline before them stays. */
  lemma UnfenceTagged(s: string, tag: string, body: string)
    requires forall i :: 0 <= i < |tag| ==> tag[i] != '\n'
    requires s == "```" + tag + "\n" + body + "\n```"
    ensures Unfence(s) == body + "\n"
  {
    var k := 3 + |tag|;
    assert StartsWith(s, "```");
    FirstNewline(s, tag, body);
    var rest := s[k + 1..];
    assert rest == body + "\n```";
    assert EndsWith(rest, "```");
    assert rest[..|rest| - 3] == body + "\n";
  }

  /** The first newline of a tagged fence ends the tag. */
  lemma FirstNewline(s: string, tag: string, body: string)
    requires forall i :: 0 <= i < |tag| ==> tag[i] != '\n'
    requires s == "```" + tag + "\n" + body + "\n```"
    ensures Find(s, "\n", 0) == 3 + |tag|
  {
    var k := 3 + |tag|;
    assert OccursAt(s, "\n", k);
    forall i | 0 <= i < k
      ensures !OccursAt(s, "\n", i)
    {
      assert s[i] == if i < 3 then '`' else tag[i - 3];
      assert s[i..i + 1][0] == s[i];
    }
  }

  /** A reply that does not start with a fence is only stripped. */
  lemma StripCodeFenceUnfenced(responseText: string)
    requires !StartsWith(Strip(responseText), "```")
    ensures StripCodeFence(responseText) == Strip(responseText)
  {
    var t := Strip(responseText);
    var l := TrimLeft(t);
    assert l == t;
    assert TrimRight(t) == t;
  }

  /** `isinstance(v, (int, float)) and 0 <= v <= 1`. */
  predicate InUnitNumber(v: Json) {
    IsNumber(v) && 0.0 <= NumberValue(v) <= 1.0
  }

  /** The data shape `_validate_principles_data` accepts, stated field by field. */
  predicate WellFormedPrinciple(p: Json) {
    && p.Obj?
    && "principle" in p.fields
    && "confidence" in p.fields
    && "reason" in p.fields
    && "parameters" in p.fields
    && InUnitNumber(p.fields["confidence"])
  }

  predicate WellFormedPrinciples(data: Json) {
    && data.Obj?
    && "applicable_principles" in data.fields
    && "dominant_principle" in data.fields
    && "complexity_score" in data.fields
    && data.fields["applicable_principles"].Arr?
    && (forall i :: 0 <= i < |data.fields["applicable_principles"].items| ==>
          WellFormedPrinciple(data.fields["applicable_principles"].items[i]))
    && InUnitNumber(data.fields["complexity_score"])
  }

  const RequiredFields: seq<string> := ["applicable_principles", "dominant_principle", "complexity_score"]
  const PrincipleFields: seq<string> := ["principle", "confidence", "reason", "parameters"]

  /** The first of `names` that is not a key of `m`. */
  function FirstMissing(names: seq<string>, m: map<string, Json>): (r: Option<string>)
    ensures r.None? <==> forall i :: 0 <= i < |names| ==> names[i] in m
    ensures r.Some? ==> r.value in names && r.value !in m
  {
    if |names| == 0 then None
    else if names[0] !in m then Some(names[0])
    else FirstMissing(names[1..], m)
  }

  /** The per-principle loop: required keys first, then the confidence range. */
  function CheckPrinciples(ps: seq<Json>): (r: Outcome)
    ensures r.Pass? <==> forall i :: 0 <= i < |ps| ==> WellFormedPrinciple(ps[i])
  {
    if |ps| == 0 then Pass
    else
      var p := ps[0];
      if !p.Obj? then Fail("Principle is not a dictionary")
      else match FirstMissing(PrincipleFields, p.fields)
        case Some(f) => Fail("Principle missing required field: " + f)
        case None =>
          assert PrincipleFields[0] in p.fields && PrincipleFields[1] in p.fields;
          assert PrincipleFields[2] in p.fields && PrincipleFields[3] in p.fields;
          if !InUnitNumber(p.fields["confidence"]) then Fail("Invalid confidence value")
          else
            var rest := CheckPrinciples(ps[1..]);
            assert forall i :: 1 <= i < |ps| ==> ps[i] == ps[1..][i - 1];
            rest
  }

  /** `_validate_principles_data`: passes exactly on well-formed data, so
      it checks nothing beyond the listed keys and the two ranges. */
  function ValidatePrinciplesData(data: Json): (r: Outcome)
    ensures r.Pass? <==> WellFormedPrinciples(data)
    ensures WellFormedPrinciples(data) ==> r == Pass
  {
    if !data.Obj? then Fail("Principles data is not a dictionary")
    else match FirstMissing(RequiredFields, data.fields)
      case Some(f) => Fail("Missing required field: " + f)
      case None =>
        assert RequiredFields[0] in data.fields && RequiredFields[1] in data.fields;
        assert RequiredFields[2] in data.fields;
        var principles := data.fields["applicable_principles"];
        if !principles.Arr? then Fail("applicable_principles must be a list")
        else match CheckPrinciples(principles.items)
          case Fail(e) => Fail(e)
          case Pass =>
            if !InUnitNumber(data.fields["complexity_score"]) then Fail("Invalid complexity_score")
            else Pass
  }

  function ParametersToJson(parameters: map<string, string>): Json {
    Obj(map k | k in parameters :: Str(parameters[k]))
  }

  function PrincipleToJson(p: Principle): Json {
    Obj(map[
      "principle" := Str(p.name),
      "confidence" := Num(p.confidence),
      "reason" := Str(p.reason),
      "parameters" := ParametersToJson(p.parameters)])
  }

  /** The dictionary form of a principle set, as the agents store it. */
  function PrincipleSetToJson(ps: PrincipleSet): Json {
    var fields := map[
      "applicable_principles" := Arr(seq(|ps.applicable|, i requires 0 <= i < |ps.applicable| => PrincipleToJson(ps.applicable[i]))),
      "dominant_principle" := Str(ps.dominant),
      "complexity_score" := Num(ps.complexity)];
    match ps.status
    case Some(st) => Obj(fields["_status" := Str(st)])
    case None => Obj(fields)
  }

  /** Any principle set whose confidences and complexity lie in [0, 1] passes validation. */
  lemma TypedPrinciplesPass(ps: PrincipleSet)
    requires forall i :: 0 <= i < |ps.applicable| ==> 0.0 <= ps.applicable[i].confidence <= 1.0
    requires 0.0 <= ps.complexity <= 1.0
    ensures ValidatePrinciplesData(PrincipleSetToJson(ps)) == Pass
  {
    var d := PrincipleSetToJson(ps);
    var items := d.fields["applicable_principles"].items;
    assert forall i :: 0 <= i < |items| ==> items[i] == PrincipleToJson(ps.applicable[i]);
    assert WellFormedPrinciples(d);
  }

  /** The prompt demands a `timing` principle, but validation does not:
      a set with no principles at all passes. */
  lemma TimingNotEnforced()
    ensures ValidatePrinciplesData(PrincipleSetToJson(PrincipleSet([], "arc", 0.5, None))) == Pass
  {
    TypedPrinciplesPass(PrincipleSet([], "arc", 0.5, None));
  }

  /** A boolean confidence is accepted, since `bool` is an `int` in Python. */
  lemma BooleanConfidenceAccepted()
    ensures WellFormedPrinciple(Obj(map[
      "principle" := Str("timing"), "confidence" := Bool(true),
      "reason" := Str(""), "parameters" := Obj(map[])]))
  {
  }
}
