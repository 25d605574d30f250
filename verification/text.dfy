/** The string operations the Python code relies on: `str.strip`, `str.find`,
    `in`, slicing with negative indices, `str.replace`, `str.startswith`,
    and decimal formatting with zero padding (`{i:03d}`). */
module Text {

  /** Characters removed by `str.strip()`: those for which Python's
      `str.isspace()` holds, that is the ASCII whitespace and separators
      U+0009 to U+000D, U+001C to U+001F and the space, plus U+0085, U+00A0,
      U+1680, U+2000 to U+200A, U+2028, U+2029, U+202F, U+205F and U+3000. */
  predicate IsSpace(c: char) {
    || '\U{0009}' <= c <= '\U{000D}'
    || '\U{001C}' <= c <= '\U{0020}'
    || c == '\U{0085}' || c == '\U{00A0}' || c == '\U{1680}'
    || '\U{2000}' <= c <= '\U{200A}'
    || c == '\U{2028}' || c == '\U{2029}' || c == '\U{202F}' || c == '\U{205F}' || c == '\U{3000}'
  }

  predicate AllSpace(s: string) {
    forall i :: 0 <= i < |s| ==> IsSpace(s[i])
  }

  /** `s` without its leading whitespace: a suffix of `s` whose dropped part is all whitespace. */
  function TrimLeft(s: string): (r: string)
    ensures |r| <= |s| && r == s[|s| - |r|..]
    ensures |r| > 0 ==> !IsSpace(r[0])
    ensures AllSpace(s[..|s| - |r|])
  {
    if |s| > 0 && IsSpace(s[0]) then TrimLeft(s[1..]) else s
  }

  /** `s` without its trailing whitespace: a prefix of `s` whose dropped part is all whitespace. */
  function TrimRight(s: string): (r: string)
    ensures |r| <= |s| && r == s[..|r|]
    ensures |r| > 0 ==> !IsSpace(r[|r| - 1])
    ensures AllSpace(s[|r|..])
  {
    if |s| > 0 && IsSpace(s[|s| - 1]) then TrimRight(s[..|s| - 1]) else s
  }

  /** Python's `s.strip()`. */
  function Strip(s: string): string {
    TrimRight(TrimLeft(s))
  }

  /** Whitespace appended to a string does not survive `strip`. */
  lemma {:induction false} StripIgnoresTrailingSpace(s: string, w: string)
    requires AllSpace(w)
    ensures Strip(s + w) == Strip(s)
  {
    if |s| > 0 && IsSpace(s[0]) {
      assert (s + w)[1..] == s[1..] + w;
      StripIgnoresTrailingSpace(s[1..], w);
    } else if |s| == 0 {
      assert s + w == w;
      AllSpaceTrimsToEmpty(w);
    } else {
      assert TrimLeft(s + w) == s + w;
      TrimRightIgnoresSpace(s, w);
    }
  }

  /** `strip` returns a contiguous part of its argument, starting at `a`. */
  lemma StripIsInfix(s: string) returns (a: nat)
    ensures a + |Strip(s)| <= |s| && Strip(s) == s[a..a + |Strip(s)|]
  {
    var u := TrimLeft(s);
    a := |s| - |u|;
    var r := TrimRight(u);
    assert r == u[..|r|];
    assert u == s[a..];
  }

  /** A pattern found in `s[a..a + |t|]` is found in `s`. */
  lemma ContainsInInfix(s: string, a: nat, t: string, pat: string)
    requires a + |t| <= |s| && t == s[a..a + |t|]
    requires Contains(t, pat)
    ensures Contains(s, pat)
  {
    var i := Find(t, pat, 0);
    forall k | 0 <= k < |pat|
      ensures s[a + i..a + i + |pat|][k] == pat[k]
    {
      assert t[i..i + |pat|][k] == t[i + k];
    }
    assert OccursAt(s, pat, a + i);
  }

  /** A string with no whitespace at either end is its own `strip`. */
  lemma StripKeepsUnpadded(s: string)
    requires |s| > 0 && !IsSpace(s[0]) && !IsSpace(s[|s| - 1])
    ensures Strip(s) == s
  {
  }

  lemma {:induction false} AllSpaceTrimsToEmpty(w: string)
    requires AllSpace(w)
    ensures TrimLeft(w) == []
  {
    if |w| > 0 {
      AllSpaceTrimsToEmpty(w[1..]);
    }
  }

  lemma {:induction false} TrimRightIgnoresSpace(s: string, w: string)
    requires AllSpace(w)
    ensures TrimRight(s + w) == TrimRight(s)
    decreases |w|
  {
    if |w| > 0 {
      var w' := w[..|w| - 1];
      assert (s + w)[..|s + w| - 1] == s + w';
      TrimRightIgnoresSpace(s, w');
    } else {
      assert s + w == s;
    }
  }

  /** `pat` occurs in `s` at index `i`. */
  predicate OccursAt(s: string, pat: string, i: int) {
    0 <= i && i + |pat| <= |s| && s[i..i + |pat|] == pat
  }

  /** Python's `s.find(pat, from)` for a non-negative `from`: the first
      occurrence at or after `from`, or -1 when there is none. */
  function Find(s: string, pat: string, from: nat): (r: int)
    ensures r == -1 || (from <= r && OccursAt(s, pat, r))
    ensures forall i :: from <= i && (r == -1 || i < r) ==> !OccursAt(s, pat, i)
    decreases |s| - from
  {
    if from + |pat| > |s| then -1
    else if s[from..from + |pat|] == pat then from
    else Find(s, pat, from + 1)
  }

  /** Python's `pat in s`. */
  predicate Contains(s: string, pat: string) {
    Find(s, pat, 0) != -1
  }

  /** `s` starts with `pat` (Python's `s.startswith(pat)`). */
  predicate StartsWith(s: string, pat: string) {
    |pat| <= |s| && s[..|pat|] == pat
  }

  /** `s` ends with `pat` (Python's `s.endswith(pat)`). */
  predicate EndsWith(s: string, pat: string) {
    |pat| <= |s| && s[|s| - |pat|..] == pat
  }

  /** A Python slice bound: negative counts from the end; clipped into [0, n]. */
  function SliceBound(i: int, n: nat): (b: nat)
    ensures b <= n
  {
    if i < 0 then (if i + n < 0 then 0 else i + n)
    else if i > n then n
    else i
  }

  /** Python's `s[lo:hi]`, including negative bounds and empty results. */
  function Slice(s: string, lo: int, hi: int): string {
    var a := SliceBound(lo, |s|);
    var b := SliceBound(hi, |s|);
    if a < b then s[a..b] else []
  }

  /** Python's `s.replace(pat, rep)`: every non-overlapping occurrence of
      `pat`, scanned from the left, becomes `rep`. */
  function ReplaceAll(s: string, pat: string, rep: string): string
    decreases |s|
  {
    if |pat| == 0 then
      (if |s| == 0 then rep else rep + [s[0]] + ReplaceAll(s[1..], pat, rep))
    else if StartsWith(s, pat) then rep + ReplaceAll(s[|pat|..], pat, rep)
    else if |s| == 0 then []
    else [s[0]] + ReplaceAll(s[1..], pat, rep)
  }

  /** A leading occurrence of a non-empty pattern is replaced. */
  lemma ReplaceAllLeading(pat: string, rep: string, v: string)
    requires |pat| > 0
    ensures ReplaceAll(pat + v, pat, rep) == rep + ReplaceAll(v, pat, rep)
  {
    assert (pat + v)[..|pat|] == pat;
    assert (pat + v)[|pat|..] == v;
  }

  /** A prefix in which no occurrence of `pat` starts is kept as it is. */
  lemma {:induction false} ReplaceAllKeepsPrefix(u: string, v: string, pat: string, rep: string)
    requires |pat| > 0
    requires forall i :: 0 <= i < |u| ==> !OccursAt(u + v, pat, i)
    ensures ReplaceAll(u + v, pat, rep) == u + ReplaceAll(v, pat, rep)
  {
    if |u| > 0 {
      var s := u + v;
      var r := ReplaceAll(v, pat, rep);
      calc {
        ReplaceAll(s, pat, rep);
      == { assert !OccursAt(s, pat, 0); ReplaceAllSkipsOne(s, pat, rep); }
        [s[0]] + ReplaceAll(s[1..], pat, rep);
      == { assert s[1..] == u[1..] + v;
           NoOccurrenceInTail(u, v, pat);
           ReplaceAllKeepsPrefix(u[1..], v, pat, rep); }
        [u[0]] + (u[1..] + r);
      == { assert u == [u[0]] + u[1..]; }
        u + r;
      }
    } else {
      assert u + v == v;
    }
  }

  /** A non-empty string that does not start with `pat` keeps its first character. */
  lemma ReplaceAllSkipsOne(s: string, pat: string, rep: string)
    requires |pat| > 0 && |s| > 0 && !OccursAt(s, pat, 0)
    ensures ReplaceAll(s, pat, rep) == [s[0]] + ReplaceAll(s[1..], pat, rep)
  {
    assert !StartsWith(s, pat);
  }

  /** Dropping the first character of a prefix without occurrences leaves
      a prefix without occurrences. */
  lemma NoOccurrenceInTail(u: string, v: string, pat: string)
    requires |u| > 0
    requires forall i :: 0 <= i < |u| ==> !OccursAt(u + v, pat, i)
    ensures forall i :: 0 <= i < |u[1..]| ==> !OccursAt(u[1..] + v, pat, i)
  {
    var s := u + v;
    assert s[1..] == u[1..] + v;
    forall i | 0 <= i < |u[1..]|
      ensures !OccursAt(u[1..] + v, pat, i)
    {
      assert !OccursAt(s, pat, i + 1);
      OccursShift(s, pat, i);
    }
  }

  /** An occurrence in the tail of `s` is an occurrence in `s` one place on. */
  lemma OccursShift(s: string, pat: string, i: nat)
    requires |s| > 0
    ensures OccursAt(s[1..], pat, i) <==> OccursAt(s, pat, i + 1)
  {
    if i + |pat| <= |s| - 1 {
      assert s[1..][i..i + |pat|] == s[i + 1..i + 1 + |pat|];
    }
  }

  /** A string with no occurrence of a non-empty pattern is unchanged by replacement. */
  lemma ReplaceAllWithoutOccurrence(s: string, pat: string, rep: string)
    requires |pat| > 0
    requires forall i :: 0 <= i < |s| ==> !OccursAt(s, pat, i)
    ensures ReplaceAll(s, pat, rep) == s
  {
    assert s + [] == s;
    ReplaceAllKeepsPrefix(s, [], pat, rep);
  }

  predicate IsDigit(c: char) {
    '0' <= c <= '9'
  }

  predicate AllDigits(s: string) {
    forall i :: 0 <= i < |s| ==> IsDigit(s[i])
  }

  function DigitChar(d: nat): (c: char)
    requires d < 10
    ensures IsDigit(c)
  {
    ('0' as int + d) as char
  }

  /** The decimal numeral of `n`, without leading zeros (Python's `str(n)`). */
  function Decimal(n: nat): (r: string)
    ensures |r| >= 1 && AllDigits(r)
  {
    if n < 10 then [DigitChar(n)] else Decimal(n / 10) + [DigitChar(n % 10)]
  }

  /** `s` padded on the left with '0' up to `width` characters. */
  function ZeroPad(s: string, width: nat): (r: string)
    decreases width - |s|
  {
    if |s| >= width then s else ZeroPad("0" + s, width)
  }

  /** Python's `f"{n:03d}"` for a non-negative `n`. */
  function Pad3(n: nat): (r: string)
    ensures |r| >= 3 && AllDigits(r)
    ensures n < 1000 ==> |r| == 3
  {
    PadLength(Decimal(n), 3);
    DecimalLength(n);
    ZeroPad(Decimal(n), 3)
  }

  lemma {:induction false} PadLength(s: string, width: nat)
    requires AllDigits(s)
    ensures |ZeroPad(s, width)| == if |s| >= width then |s| else width
    ensures AllDigits(ZeroPad(s, width))
    decreases width - |s|
  {
    if |s| < width {
      PadLength("0" + s, width);
    }
  }

  lemma {:induction false} DecimalLength(n: nat)
    ensures n < 1000 ==> |Decimal(n)| <= 3
  {
    if n >= 10 {
      DecimalLength(n / 10);
    }
  }

  /** The value of a string of decimal digits (leading zeros allowed). */
  function ParseDecimal(s: string): nat
    requires AllDigits(s)
  {
    if |s| == 0 then 0 else ParseDecimal(s[..|s| - 1]) * 10 + (s[|s| - 1] as int - '0' as int)
  }

  /** Parsing inverts decimal printing. */
  lemma {:induction false} ParseDecimalOfDecimal(n: nat)
    ensures ParseDecimal(Decimal(n)) == n
  {
    if n >= 10 {
      var d := Decimal(n);
      assert d[..|d| - 1] == Decimal(n / 10);
      ParseDecimalOfDecimal(n / 10);
    }
  }

  /** A leading zero does not change the parsed value. */
  lemma {:induction false} ParseDecimalLeadingZero(s: string)
    requires AllDigits(s)
    ensures ParseDecimal("0" + s) == ParseDecimal(s)
  {
    if |s| > 0 {
      var z := "0" + s;
      assert z[..|z| - 1] == "0" + s[..|s| - 1];
      ParseDecimalLeadingZero(s[..|s| - 1]);
    }
  }

  lemma {:induction false} ParseDecimalOfPad(s: string, width: nat)
    requires AllDigits(s)
    ensures AllDigits(ZeroPad(s, width))
    ensures ParseDecimal(ZeroPad(s, width)) == ParseDecimal(s)
    decreases width - |s|
  {
    PadLength(s, width);
    if |s| < width {
      ParseDecimalLeadingZero(s);
      ParseDecimalOfPad("0" + s, width);
    }
  }

  /** Zero-padded printing can be parsed back: different indices get different numerals. */
  lemma Pad3RoundTrip(n: nat)
    ensures ParseDecimal(Pad3(n)) == n
  {
    ParseDecimalOfPad(Decimal(n), 3);
    ParseDecimalOfDecimal(n);
  }

  lemma Pad3Injective(i: nat, j: nat)
    requires Pad3(i) == Pad3(j)
    ensures i == j
  {
    Pad3RoundTrip(i);
    Pad3RoundTrip(j);
  }
}
