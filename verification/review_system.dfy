/** `ExpertReviewSystem` and `format_review_output`: the two category
    scores with their fixed fallbacks, the report the pipeline prints, and
    `generate_expert_review`, which ties them together.  The language-model
    calls are parameters of type `Attempt<string>`: the reply, or `Raised`
    when the call (or the prompt it builds) raises. */
module ReviewSystem {
  import opened Common
  import opened Text
  import opened ScoreParser
  import opened Tiers
  import opened TextAnalyzer
  import opened ReviewParser

  datatype CategoryScore = CategoryScore(score: real, justification: string)

  /** Both categories are scored out of 30. */
  const CategoryMax: int := 30

  const VisualFallback := CategoryScore(15.0, "Visual analysis failed")
  const ScreenplayFallback := CategoryScore(15.0, "Screenplay analysis failed")
  const NoTranscription := CategoryScore(0.0, "No transcription available")

  /** `analyze_visuals`: with no expert profile to choose from, or when the
      model call raises, the fixed fallback; otherwise the reply's score out
      of 30 with the reply as justification. */
  function AnalyzeVisuals(expertCount: nat, reply: Attempt<string>): (c: CategoryScore)
    ensures 0.0 <= c.score <= 30.0
    ensures expertCount == 0 || reply.Raised? ==> c == VisualFallback
    ensures expertCount > 0 && reply.Returned? ==>
              c == CategoryScore(ParseScore(reply.value, CategoryMax), reply.value)
  {
    if expertCount == 0 then VisualFallback
    else match reply
      case Raised => VisualFallback
      case Returned(response) => CategoryScore(ParseScore(response, CategoryMax), response)
  }

  /** `analyze_screenplay`: a falsy transcription scores 0; one without a
      "text" entry (the prompt reads it) or a failing model call gets the
      fixed fallback; otherwise the reply's score out of 30. */
  function AnalyzeScreenplay(t: Transcription, reply: Attempt<string>): (c: CategoryScore)
    ensures 0.0 <= c.score <= 30.0
    ensures !IsTruthy(t) ==> c == NoTranscription
    ensures IsTruthy(t) && ("text" !in t.value || reply.Raised?) ==> c == ScreenplayFallback
    ensures IsTruthy(t) && "text" in t.value && reply.Returned? ==>
              c == CategoryScore(ParseScore(reply.value, CategoryMax), reply.value)
  {
    if !IsTruthy(t) then NoTranscription
    else if "text" !in t.value then ScreenplayFallback
    else match reply
      case Raised => ScreenplayFallback
      case Returned(response) => CategoryScore(ParseScore(response, CategoryMax), response)
  }

  /** Titles longer than 50 characters are cut to 47 and get "...". */
  function TruncateTitle(title: string): (t: string)
    ensures |t| <= 50
    ensures |title| <= 50 ==> t == title
    ensures |title| > 50 ==> |t| == 50 && t[..47] == title[..47] && t[47..] == "..."
  {
    if |title| > 50 then title[..47] + "..." else title
  }

  /** The mean of the two category scores on the 100-point scale. */
  function Total100(visual: real, screenplay: real): (total: real)
    ensures total == (visual + screenplay) * 5.0 / 3.0
    ensures 0.0 <= visual <= 30.0 && 0.0 <= screenplay <= 30.0 ==> 0.0 <= total <= 100.0
  {
    ((visual + screenplay) / 2.0) / 30.0 * 100.0
  }

  /** The "confidence range": three points either side. */
  function ConfidenceRange(total: real): (range: (real, real))
    ensures range.1 - range.0 == 6.0 && (range.0 + range.1) / 2.0 == total
  {
    (total - 3.0, total + 3.0)
  }

  /** The verdict, stripped and cut into lines of 80 characters. */
  function WrapVerdict(verdict: string): (lines: seq<string>)
    ensures Flatten(lines) == Strip(verdict)
    ensures |lines| == CeilDiv(|Strip(verdict)|, 80)
    ensures forall i :: 0 <= i < |lines| ==> 0 < |lines[i]| <= 80
    ensures forall i :: 0 <= i < |lines| - 1 ==> |lines[i]| == 80
  {
    var v := Strip(verdict);
    ChunksRoundTrip(v, 80);
    ChunksCount(v, 80);
    var lines := Chunks(v, 80);
    assert forall i :: 0 <= i < |lines| ==> lines[i] in lines;
    lines
  }

  /** Line i of the wrapped verdict is the slice starting at 80 * i. */
  lemma WrapVerdictSlices(verdict: string, i: nat)
    requires i < |WrapVerdict(verdict)|
    ensures var v := Strip(verdict);
            i * 80 < |v| && WrapVerdict(verdict)[i] == v[i * 80 .. Min(i * 80 + 80, |v|)]
  {
    ChunkAt(Strip(verdict), 80, i);
  }

  /** The figures of the score section of the report. */
  datatype ScoreCard = ScoreCard(
    visualEmoji: ScoreEmoji,
    screenplayEmoji: ScoreEmoji,
    overall: real,
    overallEmoji: RatingEmoji,
    confidence: (real, real),
    finalRating: RatingTier)

  /** The score section for two category scores out of 30. */
  function ScoreCardOf(visual: real, screenplay: real): ScoreCard
  {
    var total := Total100(visual, screenplay);
    ScoreCard(
      GetScoreEmoji(visual, 30.0).value,
      GetScoreEmoji(screenplay, 30.0).value,
      total,
      GetFinalRatingEmoji(total / 100.0),
      ConfidenceRange(total),
      GetRatingTier(total / 100.0))
  }

  /** The score section shows the mean of the two categories on the
      100-point scale with three points either side; the final rating and
      its emoji come from the same step of the ladder, which only rises
      with either category score, and each category's emoji only rises
      with its score. */
  lemma ScoreCardFacts(visual: real, screenplay: real, visual': real, screenplay': real)
    ensures var card := ScoreCardOf(visual, screenplay);
            && card.overall == (visual + screenplay) * 5.0 / 3.0
            && card.confidence == (card.overall - 3.0, card.overall + 3.0)
            && card.finalRating.Rank() == StepsReached(RatingThresholds, card.overall / 100.0)
            && card.overallEmoji.Rank() == card.finalRating.Rank()
    ensures visual <= visual' && screenplay <= screenplay' ==>
              && ScoreCardOf(visual, screenplay).finalRating.Rank() <= ScoreCardOf(visual', screenplay').finalRating.Rank()
              && ScoreCardOf(visual, screenplay).visualEmoji.Rank() <= ScoreCardOf(visual', screenplay').visualEmoji.Rank()
    ensures 0.0 <= visual <= 30.0 && 0.0 <= screenplay <= 30.0 ==>
              0.0 <= ScoreCardOf(visual, screenplay).overall <= 100.0
    ensures visual >= 27.0 && screenplay >= 27.0 ==> ScoreCardOf(visual, screenplay).finalRating == Masterpiece
  {
    var t := Total100(visual, screenplay);
    var t' := Total100(visual', screenplay');
    RatingAndEmojiAgree(t / 100.0, t' / 100.0);
    if visual <= visual' && screenplay <= screenplay' {
      assert t <= t';
      ScoreEmojiOutOf30(visual, visual');
    }
  }

  /** What `format_review_output` receives. */
  datatype Review = Review(movieName: string, text: string, visual: real, screenplay: real)

  /** What `format_review_output` prints, without colours, decoration and
      the expert panel: the labels chosen and the numbers shown. */
  datatype Report = Report(
    title: string,
    scores: ScoreCard,
    strengths: Option<seq<string>>,
    issues: Option<seq<string>>,
    verdict: Option<seq<string>>)

  const StrengthsKey := "Key Strengths"
  const IssuesKey := "Areas for Improvement"
  const VerdictKey := "Final Verdict"

  /** The bullet points of a section, if the review has it. */
  function SectionPoints(sections: map<string, string>, key: string): (r: Attempt<Option<seq<string>>>)
    ensures key !in sections ==> r == Returned(None)
    ensures key in sections ==>
              (r.Raised? <==> ParsedBullets(sections[key]).Raised?)
              && (r.Returned? ==> r.value == Some(ParsedBullets(sections[key]).value))
  {
    if key !in sections then Returned(None)
    else match ParsedBullets(sections[key])
      case Raised => Raised
      case Returned(points) => Returned(Some(points))
  }

  /** The report for a review, or `Raised` when parsing a bullet list raises. */
  function ReportOf(review: Review): Attempt<Report>
  {
    var sections := ParsedSections(review.text);
    match SectionPoints(sections, StrengthsKey)
    case Raised => Raised
    case Returned(strengths) =>
      match SectionPoints(sections, IssuesKey)
      case Raised => Raised
      case Returned(issues) =>
        Returned(Report(
          TruncateTitle(review.movieName),
          ScoreCardOf(review.visual, review.screenplay),
          strengths,
          issues,
          if VerdictKey in sections then Some(WrapVerdict(sections[VerdictKey])) else None))
  }

  /** `format_review_output`: the report, built section by section as the
      source does, with the two parsers run as loops. */
  method FormatReviewOutput(review: Review) returns (r: Attempt<Report>)
    ensures r == ReportOf(review)
  {
    var title := TruncateTitle(review.movieName);
    var scores := ScoreCardOf(review.visual, review.screenplay);
    var sections := ParseReviewSections(review.text);
    var strengths: Option<seq<string>> := None;
    if StrengthsKey in sections {
      var points := ParseBulletPoints(sections[StrengthsKey]);
      if points.Raised? {
        assert SectionPoints(sections, StrengthsKey).Raised?;
        return Raised;
      }
      strengths := Some(points.value);
    }
    assert SectionPoints(sections, StrengthsKey) == Returned(strengths);
    var issues: Option<seq<string>> := None;
    if IssuesKey in sections {
      var points := ParseBulletPoints(sections[IssuesKey]);
      if points.Raised? {
        assert SectionPoints(sections, IssuesKey).Raised?;
        return Raised;
      }
      issues := Some(points.value);
    }
    assert SectionPoints(sections, IssuesKey) == Returned(issues);
    var verdict: Option<seq<string>> := None;
    if VerdictKey in sections {
      verdict := Some(WrapVerdict(sections[VerdictKey]));
    }
    r := Returned(Report(title, scores, strengths, issues, verdict));
  }

  /** Formatting fails exactly when the strengths or the improvements
      section is present and its bullet list raises. */
  lemma ReportRaisesIff(review: Review)
    ensures var sections := ParsedSections(review.text);
            ReportOf(review).Raised? <==>
              ((StrengthsKey in sections && ParsedBullets(sections[StrengthsKey]).Raised?)
               || (IssuesKey in sections && ParsedBullets(sections[IssuesKey]).Raised?))
  {
  }

  /** The report shows the truncated title and the score section of the
      two category scores. */
  lemma ReportHeader(review: Review)
    requires ReportOf(review).Returned?
    ensures ReportOf(review).value.title == TruncateTitle(review.movieName)
    ensures |ReportOf(review).value.title| <= 50
    ensures ReportOf(review).value.scores == ScoreCardOf(review.visual, review.screenplay)
  {
  }

  /** The report lists the bullet points of the strengths and improvements
      sections that are present, and the verdict, if present, wrapped into
      lines that concatenate back to the stripped verdict. */
  lemma ReportSections(review: Review)
    requires ReportOf(review).Returned?
    ensures var rep := ReportOf(review).value;
            var sections := ParsedSections(review.text);
            && (StrengthsKey in sections <==> rep.strengths.Some?)
            && (rep.strengths.Some? ==> Returned(rep.strengths.value) == ParsedBullets(sections[StrengthsKey]))
            && (IssuesKey in sections <==> rep.issues.Some?)
            && (rep.issues.Some? ==> Returned(rep.issues.value) == ParsedBullets(sections[IssuesKey]))
            && (VerdictKey in sections <==> rep.verdict.Some?)
            && (rep.verdict.Some? ==> Flatten(rep.verdict.value) == Strip(sections[VerdictKey]))
  {
  }

  /** What `generate_expert_review` returns. */
  datatype ReviewResult = ReviewResult(movieName: string, review: string, visual: real, screenplay: real)

  const VisualKey := "visual_quality"
  const ScreenplayKey := "screenplay_quality"

  /** `generate_expert_review`.  `expertCount` is the number of expert
      profiles; `visualReply`, `screenplayReply` and `finalReply` stand for
      the three model calls.  The result is `None` when choosing the expert
      for the final review fails (no profiles), when the final model call
      raises, or when formatting the report raises; `printed` is the report
      the source prints. */
  method GenerateExpertReview(movieName: string, expertCount: nat, transcription: Transcription,
                              visualReply: Attempt<string>, screenplayReply: Attempt<string>,
                              finalReply: Attempt<string>)
    returns (r: Option<ReviewResult>, printed: Option<Report>)
    ensures r.None? <==> expertCount == 0 || finalReply.Raised?
                         || ReportOf(Review(movieName, finalReply.value,
                                            AnalyzeVisuals(expertCount, visualReply).score,
                                            if IsTruthy(transcription) then AnalyzeScreenplay(transcription, screenplayReply).score else 0.0)).Raised?
    ensures r.Some? ==>
              && r.value.movieName == movieName
              && r.value.review == finalReply.value
              && r.value.visual == AnalyzeVisuals(expertCount, visualReply).score
              && r.value.screenplay == (if IsTruthy(transcription) then AnalyzeScreenplay(transcription, screenplayReply).score else 0.0)
              && 0.0 <= r.value.visual <= 30.0 && 0.0 <= r.value.screenplay <= 30.0
              && printed == Some(ReportOf(Review(movieName, r.value.review, r.value.visual, r.value.screenplay)).value)
    ensures r.None? ==> printed.None?
  {
    var scores: map<string, CategoryScore> := map[];
    scores := scores[VisualKey := AnalyzeVisuals(expertCount, visualReply)];
    if IsTruthy(transcription) {
      scores := scores[ScreenplayKey := AnalyzeScreenplay(transcription, screenplayReply)];
    }
    if expertCount == 0 || finalReply.Raised? {
      return None, None;
    }
    var screenplay := if ScreenplayKey in scores then scores[ScreenplayKey].score else 0.0;
    var result := ReviewResult(movieName, finalReply.value, scores[VisualKey].score, screenplay);
    var report := FormatReviewOutput(Review(movieName, result.review, result.visual, result.screenplay));
    if report.Raised? {
      return None, None;
    }
    return Some(result), Some(report.value);
  }
}
