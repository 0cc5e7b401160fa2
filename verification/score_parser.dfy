/** `ExpertReviewSystem._parse_score`: reading a bounded score out of the
    free text a language model returned.

    The three regular expressions of the source are modelled by a scanner.
    Each pattern is `\d+(?:\.\d+)?` possibly framed by fixed text, and at a
    given start position it can match in at most one way: after a maximal
    run of digits the next character is neither a digit, nor '.', nor '/'
    unless the pattern continues there, so giving back digits never helps;
    the same holds for the fraction digits and for the whitespace run after
    "score:".  A match at a position is therefore the greedy parse from it,
    and `re.search` is the leftmost position where that parse succeeds. */
module ScoreParser {
  import opened Common
  import opened Text

  /** A number token matched at some position: its value and the index just
      past its last character. */
  datatype Number = Number(value: real, end: nat)

  /** The end of the run of ASCII digits starting at `i`. */
  function DigitRunEnd(s: string, i: nat): (j: nat)
    requires i <= |s|
    ensures i <= j <= |s|
    ensures forall k :: i <= k < j ==> IsDigit(s[k])
    ensures j == |s| || !IsDigit(s[j])
    decreases |s| - i
  {
    if i < |s| && IsDigit(s[i]) then DigitRunEnd(s, i + 1) else i
  }

  function Pow10(n: nat): (p: nat)
    ensures p >= 1
  {
    if n == 0 then 1 else 10 * Pow10(n - 1)
  }

  /** The value `float()` gives a token `digits` or `digits.digits`. */
  function TokenValue(whole: string, frac: string): (v: real)
    requires AllDigits(whole) && AllDigits(frac)
    ensures v >= 0.0
  {
    (DigitsValue(whole) as real) + (DigitsValue(frac) as real) / (Pow10(|frac|) as real)
  }

  /** `\d+(?:\.\d+)?` matched at `i`: a maximal run of digits, then '.' and
      a maximal run of digits if at least one digit follows the '.'. */
  function NumberAt(s: string, i: nat): (r: Option<Number>)
    requires i <= |s|
    ensures r.Some? <==> i < |s| && IsDigit(s[i])
    ensures r.Some? ==> i < r.value.end <= |s| && r.value.value >= 0.0
  {
    var j := DigitRunEnd(s, i);
    if j == i then None
    else if j + 1 < |s| && s[j] == '.' && IsDigit(s[j + 1]) then
      var k := DigitRunEnd(s, j + 1);
      Some(Number(TokenValue(s[i..j], s[j + 1..k]), k))
    else
      Some(Number(TokenValue(s[i..j], ""), j))
  }

  /** One character of the case-insensitive literal "score:": the ASCII
      letter in either case, and for 's' also the long s U+017F, which
      Python's `re.IGNORECASE` folds onto it. */
  predicate LabelChar(c: char, lower: char)
  {
    c == lower
    || ('a' <= lower <= 'z' && c as int == lower as int - 32)
    || (lower == 's' && c == '\U{17f}')
  }

  predicate ScoreLabelAt(s: string, i: nat)
  {
    i + 6 <= |s|
    && LabelChar(s[i], 's') && LabelChar(s[i + 1], 'c') && LabelChar(s[i + 2], 'o')
    && LabelChar(s[i + 3], 'r') && LabelChar(s[i + 4], 'e') && s[i + 5] == ':'
  }

  /** The end of the whitespace run starting at `i` (`\s*`). */
  function SkipSpace(s: string, i: nat): (j: nat)
    requires i <= |s|
    ensures i <= j <= |s|
    ensures forall k :: i <= k < j ==> s[k] in Whitespace
    ensures j == |s| || s[j] !in Whitespace
    decreases |s| - i
  {
    if i < |s| && s[i] in Whitespace then SkipSpace(s, i + 1) else i
  }

  /** A digit is not whitespace, so a run of spaces stops before it. */
  lemma DigitEndsSpace(s: string, i: nat)
    requires i < |s| && IsDigit(s[i])
    ensures SkipSpace(s, i) == i
  {
    assert s[i] !in Whitespace;
  }

  /** The two `re.search` patterns of the cascade. */
  datatype Pattern =
    | Labelled  // (?i)score:\s*(\d+(?:\.\d+)?)/30
    | Bare      // (\d+(?:\.\d+)?)/30

  /** The captured number when `pattern` matches at `i`.  The "/30" is
      literal and nothing is required after it, so "5/300" matches. */
  function MatchAt(pattern: Pattern, s: string, i: nat): Option<real>
    requires i <= |s|
  {
    var start :=
      match pattern
      case Labelled => if ScoreLabelAt(s, i) then Some(SkipSpace(s, i + 6)) else None
      case Bare => Some(i);
    if start.None? then None
    else
      match NumberAt(s, start.value)
      case None => None
      case Some(n) => if OccursAt(s, "/30", n.end) then Some(n.value) else None
  }

  /** `re.search`: the leftmost position at or after `from` where the
      pattern matches. */
  function Search(pattern: Pattern, s: string, from: nat): (r: Option<nat>)
    requires from <= |s|
    ensures r.Some? ==> from <= r.value <= |s| && MatchAt(pattern, s, r.value).Some?
    ensures forall k :: from <= k <= |s| && (r.None? || k < r.value) ==> MatchAt(pattern, s, k).None?
    decreases |s| - from
  {
    if MatchAt(pattern, s, from).Some? then Some(from)
    else if from == |s| then None
    else Search(pattern, s, from + 1)
  }

  /** `re.findall(r"(\d+(?:\.\d+)?)", s[from..])`: the values of the
      non-overlapping number tokens, left to right. */
  function NumbersFrom(s: string, from: nat): seq<real>
    requires from <= |s|
    decreases |s| - from
  {
    if from == |s| then []
    else
      match NumberAt(s, from)
      case Some(n) => [n.value] + NumbersFrom(s, n.end)
      case None => NumbersFrom(s, from + 1)
  }

  /** `response.split('\n')[0]`. */
  function FirstLine(s: string): (line: string)
    ensures StartsWith(s, line) && '\n' !in line
  {
    var parts := Split(s, "\n");
    SplitJoin(s, "\n");
    FirstPieceIsPrefix(parts, "\n");
    assert parts[0] in parts;
    assert forall c :: c in parts[0] ==> c != '\n' by {
      forall i | 0 <= i < |parts[0]| ensures parts[0][i] != '\n' {
        if parts[0][i] == '\n' {
          assert parts[0][i..i + 1] == "\n";
          assert OccursAt(parts[0], "\n", i);
        }
      }
    }
    parts[0]
  }

  lemma FirstPieceIsPrefix(parts: seq<string>, sep: string)
    requires |parts| >= 1
    ensures StartsWith(Join(parts, sep), parts[0])
  {
  }

  predicate InRange(x: real, maxPoints: int)
  {
    0.0 <= x <= maxPoints as real
  }

  /** The first value in `xs` that lies in `[0, maxPoints]`. */
  function FirstInRange(xs: seq<real>, maxPoints: int): (r: Option<real>)
    ensures r.Some? ==> exists k :: 0 <= k < |xs| && xs[k] == r.value && InRange(xs[k], maxPoints)
                                   && forall j :: 0 <= j < k ==> !InRange(xs[j], maxPoints)
    ensures r.None? ==> forall k :: 0 <= k < |xs| ==> !InRange(xs[k], maxPoints)
  {
    if xs == [] then None
    else if InRange(xs[0], maxPoints) then Some(xs[0])
    else
      var r := FirstInRange(xs[1..], maxPoints);
      assert r.Some? ==> forall k :: 1 <= k < |xs| ==> xs[k] == xs[1..][k - 1];
      r
  }

  /** Python's `min(max(0, score), max_points)`. */
  function Clamp(score: real, maxPoints: int): (r: real)
    ensures 0 <= maxPoints ==> 0.0 <= r <= maxPoints as real
    ensures 0 <= maxPoints && InRange(score, maxPoints) ==> r == score
  {
    var low := if score > 0.0 then score else 0.0;
    if (maxPoints as real) < low then maxPoints as real else low
  }

  /** The score cascade: an explicit "Score: N/30", else any "N/30", else
      the first number on the first line that lies in range, else half of
      `maxPoints`.  The result is never outside `[0, maxPoints]`. */
  function ParseScore(response: string, maxPoints: int): (r: real)
    ensures 0 <= maxPoints ==> 0.0 <= r <= maxPoints as real
  {
    match Search(Labelled, response, 0)
    case Some(p) => Clamp(MatchAt(Labelled, response, p).value, maxPoints)
    case None =>
      match Search(Bare, response, 0)
      case Some(p) => Clamp(MatchAt(Bare, response, p).value, maxPoints)
      case None =>
        var line := FirstLine(response);
        match FirstInRange(NumbersFrom(line, 0), maxPoints)
        case Some(v) => v
        case None => maxPoints as real * 0.5
  }

  /** Stage 1 wins: the leftmost "score: N/30" decides, whatever else the
      text holds. */
  lemma LabelledFirst(s: string, maxPoints: int, p: nat)
    requires p <= |s| && MatchAt(Labelled, s, p).Some?
    requires forall q :: 0 <= q < p ==> MatchAt(Labelled, s, q).None?
    ensures ParseScore(s, maxPoints) == Clamp(MatchAt(Labelled, s, p).value, maxPoints)
  {
    var r := Search(Labelled, s, 0);
    assert r.Some? && r.value == p;
  }

  /** Stage 2: with no "score:" match anywhere, the leftmost bare "N/30"
      decides. */
  lemma BareSecond(s: string, maxPoints: int, p: nat)
    requires forall q :: 0 <= q <= |s| ==> MatchAt(Labelled, s, q).None?
    requires p <= |s| && MatchAt(Bare, s, p).Some?
    requires forall q :: 0 <= q < p ==> MatchAt(Bare, s, q).None?
    ensures ParseScore(s, maxPoints) == Clamp(MatchAt(Bare, s, p).value, maxPoints)
  {
    var r := Search(Bare, s, 0);
    assert r.Some? && r.value == p;
  }

  /** Stage 3 and the fallback: with no "N/30" anywhere, the result is the
      first number token of the first line that lies in `[0, maxPoints]`
      (`FirstInRange` skips the out-of-range ones), and `maxPoints * 0.5`
      when there is none. */
  lemma FirstLineStage(s: string, maxPoints: int)
    requires forall q :: 0 <= q <= |s| ==> MatchAt(Bare, s, q).None?
    ensures ParseScore(s, maxPoints)
         == match FirstInRange(NumbersFrom(FirstLine(s), 0), maxPoints)
            case Some(v) => v
            case None => maxPoints as real * 0.5
  {
    LabelledImpliesBare(s);
    assert Search(Labelled, s, 0).None?;
    assert Search(Bare, s, 0).None?;
  }

  /** Every "score: N/30" match contains a bare "N/30" match. */
  lemma LabelledImpliesBare(s: string)
    ensures forall q :: 0 <= q <= |s| && MatchAt(Labelled, s, q).Some?
                        ==> MatchAt(Bare, s, SkipSpace(s, q + 6)).Some?
  {
  }

  lemma NoDigitNoMatch(s: string, pattern: Pattern, i: nat)
    requires i <= |s| && forall k :: 0 <= k < |s| ==> !IsDigit(s[k])
    ensures MatchAt(pattern, s, i).None?
  {
  }

  lemma {:induction false} NoDigitNoNumbers(s: string, from: nat)
    requires from <= |s| && forall k :: 0 <= k < |s| ==> !IsDigit(s[k])
    ensures NumbersFrom(s, from) == []
    decreases |s| - from
  {
    if from < |s| {
      NoDigitNoNumbers(s, from + 1);
    }
  }

  /** A reply without any digit scores exactly half of `maxPoints`
      (15 for the 30-point categories). */
  lemma NoDigitsDefault(s: string, maxPoints: int)
    requires forall k :: 0 <= k < |s| ==> !IsDigit(s[k])
    ensures ParseScore(s, maxPoints) == maxPoints as real * 0.5
  {
    forall q | 0 <= q <= |s| ensures MatchAt(Bare, s, q).None? {
      NoDigitNoMatch(s, Bare, q);
    }
    var line := FirstLine(s);
    assert forall k :: 0 <= k < |line| ==> line[k] == s[k];
    NoDigitNoNumbers(line, 0);
    FirstLineStage(s, maxPoints);
  }

  lemma NoColonNoLabel(s: string, i: nat)
    requires i <= |s| && ':' !in s
    ensures MatchAt(Labelled, s, i).None?
  {
    if i + 6 <= |s| {
      assert s[i + 5] in s;
    }
  }

  lemma NoSlashNoMatch(s: string, pattern: Pattern, i: nat)
    requires i <= |s| && '/' !in s
    ensures MatchAt(pattern, s, i).None?
  {
    NoSlashNoDenominator(s);
  }

  lemma NoSlashNoBare(s: string)
    requires '/' !in s
    ensures forall q :: 0 <= q <= |s| ==> MatchAt(Bare, s, q).None?
  {
    forall q | 0 <= q <= |s| ensures MatchAt(Bare, s, q).None? {
      NoSlashNoMatch(s, Bare, q);
    }
  }

  lemma NoSlashNoDenominator(s: string)
    requires '/' !in s
    ensures forall j: nat :: !OccursAt(s, "/30", j)
  {
    forall j: nat ensures !OccursAt(s, "/30", j) {
      if j + 3 <= |s| {
        assert s[j..j + 3][0] == s[j];
        assert s[j] in s;
      }
    }
  }

  /** An explicit "Score: 22/30" wins over a later "15/30". */
  lemma ExplicitScoreWins()
    ensures ParseScore("Score: 22/30, pacing 15/30", 30) == 22.0
  {
    ExplicitScoreMatch();
    LabelledFirst("Score: 22/30, pacing 15/30", 30, 0);
  }

  lemma ExplicitScoreMatch()
    ensures MatchAt(Labelled, "Score: 22/30, pacing 15/30", 0) == Some(22.0)
  {
    var s := "Score: 22/30, pacing 15/30";
    ExplicitScoreNumber();
    ExplicitScoreLabel();
    DigitEndsSpace(s, 7);
    assert SkipSpace(s, 6) == 7;
  }

  lemma ExplicitScoreLabel()
    ensures var s := "Score: 22/30, pacing 15/30";
            ScoreLabelAt(s, 0) && s[6] in Whitespace && IsDigit(s[7]) && OccursAt(s, "/30", 9)
  {
    var s := "Score: 22/30, pacing 15/30";
    assert s[..12] == "Score: 22/30";
  }

  lemma ExplicitScoreNumber()
    ensures NumberAt("Score: 22/30, pacing 15/30", 7) == Some(Number(22.0, 9))
  {
    var s := "Score: 22/30, pacing 15/30";
    assert DigitRunEnd(s, 9) == 9;
    assert DigitRunEnd(s, 7) == 9;
    assert s[7..9] == "22";
    assert DigitsValue("2") == 2;
    assert DigitsValue("22") == 22;
  }

  /** An explicit score above the ceiling is clamped to it. */
  lemma ExplicitScoreClamped()
    ensures ParseScore("SCORE:45/30", 30) == 30.0
  {
    ClampedScoreMatch();
    LabelledFirst("SCORE:45/30", 30, 0);
  }

  lemma ClampedScoreMatch()
    ensures MatchAt(Labelled, "SCORE:45/30", 0) == Some(45.0)
  {
    var s := "SCORE:45/30";
    ClampedScoreNumber();
    assert ScoreLabelAt(s, 0);
    assert IsDigit(s[6]);
    DigitEndsSpace(s, 6);
    assert OccursAt(s, "/30", 8);
  }

  lemma ClampedScoreNumber()
    ensures NumberAt("SCORE:45/30", 6) == Some(Number(45.0, 8))
  {
    var s := "SCORE:45/30";
    assert DigitRunEnd(s, 8) == 8;
    assert DigitRunEnd(s, 6) == 8;
    assert s[6..8] == "45";
    assert DigitsValue("4") == 4;
    assert DigitsValue("45") == 45;
  }

  /** The denominator is not anchored: "5/300" is read as 5 out of 30. */
  lemma UnanchoredDenominator()
    ensures ParseScore("Rated 5/300", 30) == 5.0
  {
    var s := "Rated 5/300";
    forall q | 0 <= q <= |s| ensures MatchAt(Labelled, s, q).None? {
      NoColonNoLabel(s, q);
    }
    assert DigitRunEnd(s, 7) == 7;
    assert DigitRunEnd(s, 6) == 7;
    assert s[6..7] == "5";
    assert DigitsValue("5") == 5;
    assert NumberAt(s, 6) == Some(Number(5.0, 7));
    assert OccursAt(s, "/30", 7);
    forall q | 0 <= q < 6 ensures MatchAt(Bare, s, q).None? {
      assert !IsDigit(s[q]);
    }
    BareSecond(s, 30, 6);
  }

  lemma OutOfRangeLine()
    ensures FirstLine("45 20\n9") == "45 20"
    ensures NumbersFrom("45 20", 0) == [45.0, 20.0]
  {
    ExampleFirstLine();
    ExampleNumbers();
  }

  lemma ExampleFirstLine()
    ensures FirstLine("45 20\n9") == "45 20"
  {
    var s := "45 20\n9";
    FindChar(s, '\n', 0, 5);
    assert Split(s, "\n")[0] == s[..5];
  }

  lemma ExampleNumbers()
    ensures NumbersFrom("45 20", 0) == [45.0, 20.0]
  {
    var line := "45 20";
    assert DigitRunEnd(line, 5) == 5;
    assert DigitRunEnd(line, 3) == 5;
    assert line[3..5] == "20";
    assert DigitsValue("2") == 2;
    assert DigitsValue("20") == 20;
    assert NumbersFrom(line, 5) == [];
    assert NumberAt(line, 3) == Some(Number(20.0, 5));
    assert NumbersFrom(line, 3) == [20.0];
    assert NumberAt(line, 2).None?;
    assert NumbersFrom(line, 2) == [20.0];
    assert DigitRunEnd(line, 2) == 2;
    assert DigitRunEnd(line, 0) == 2;
    assert line[0..2] == "45";
    assert DigitsValue("4") == 4;
    assert DigitsValue("45") == 45;
    assert NumberAt(line, 0) == Some(Number(45.0, 2));
  }

  /** Stage 3 skips a first-line number above the ceiling and takes the
      next one that fits. */
  lemma FirstLineSkipsOutOfRange()
    ensures ParseScore("45 20\n9", 30) == 20.0
  {
    var s := "45 20\n9";
    assert '/' !in s;
    NoSlashNoBare(s);
    OutOfRangeLine();
    assert FirstInRange([45.0, 20.0], 30) == Some(20.0);
    FirstLineStage(s, 30);
  }
}
