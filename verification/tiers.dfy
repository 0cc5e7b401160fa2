/** The labels a score is given: the 13-band tier table of
    `MovieRatingSystem`, and the threshold ladders the report uses to pick
    the final rating, the rating emoji and the per-category emoji. */
module Tiers {
  import opened Common

  /** An inclusive band `[lo, hi]` of the 100-point scale and its label. */
  datatype Band = Band(lo: int, hi: int, name: string)

  predicate InBand(b: Band, score: real)
  {
    b.lo as real <= score <= b.hi as real
  }

  /** The tier table, in the order the lookup visits it. */
  const TierTable: seq<Band> := [
    Band(95, 100, "Timeless Masterpiece"),
    Band(90, 94, "Exceptional"),
    Band(85, 89, "Outstanding"),
    Band(80, 84, "Excellent"),
    Band(75, 79, "Very Good"),
    Band(70, 74, "Good"),
    Band(65, 69, "Above Average"),
    Band(60, 64, "Average"),
    Band(55, 59, "Below Average"),
    Band(50, 54, "Mediocre"),
    Band(40, 49, "Poor"),
    Band(30, 39, "Very Poor"),
    Band(0, 29, "Critically Flawed")
  ]

  const Unrated: string := "Unrated"

  /** The label of the first band of `table` that holds `score`, and
      "Unrated" when none does. */
  function Lookup(table: seq<Band>, score: real): (tier: string)
    ensures forall i :: 0 <= i < |table| && InBand(table[i], score)
                        && (forall j :: 0 <= j < i ==> !InBand(table[j], score))
                        ==> tier == table[i].name
    ensures (forall i :: 0 <= i < |table| ==> !InBand(table[i], score)) ==> tier == Unrated
    ensures tier == Unrated || exists i :: 0 <= i < |table| && tier == table[i].name
  {
    if table == [] then Unrated
    else if InBand(table[0], score) then table[0].name
    else
      var rest := Lookup(table[1..], score);
      assert forall i :: 1 <= i < |table| ==> table[i] == table[1..][i - 1];
      rest
  }

  /** `MovieRatingSystem.get_tier`. */
  function GetTier(score: real): (tier: string)
  {
    Lookup(TierTable, score)
  }

  /** Each band is non-empty and starts one above where the next one ends:
      the bands run down the scale without a gap between integers. */
  predicate Contiguous(table: seq<Band>)
  {
    (forall i :: 0 <= i < |table| ==> table[i].lo <= table[i].hi)
    && (forall i :: 0 <= i < |table| - 1 ==> table[i + 1].hi + 1 == table[i].lo)
  }

  lemma TierTableContiguous()
    ensures Contiguous(TierTable)
    ensures TierTable[0].hi == 100 && TierTable[|TierTable| - 1].lo == 0
  {
  }

  /** In a contiguous table a later band lies wholly below an earlier one. */
  lemma {:induction false} ContiguousBelow(table: seq<Band>, i: nat, j: nat)
    requires Contiguous(table) && i < j < |table|
    ensures table[j].hi < table[i].lo
    decreases j - i
  {
    if j > i + 1 {
      ContiguousBelow(table, i, j - 1);
    }
  }

  /** No score lies in two bands of a contiguous table. */
  lemma ContiguousDisjoint(table: seq<Band>, score: real, i: nat, j: nat)
    requires Contiguous(table) && i < |table| && j < |table| && i != j
    ensures !(InBand(table[i], score) && InBand(table[j], score))
  {
    if i < j {
      ContiguousBelow(table, i, j);
    } else {
      ContiguousBelow(table, j, i);
    }
  }

  /** Every integer between the bottom of the last band and the top of the
      first lies in some band. */
  lemma {:induction false} ContiguousCovers(table: seq<Band>, n: int)
    requires Contiguous(table) && |table| > 0
    requires table[|table| - 1].lo <= n <= table[0].hi
    ensures exists i :: 0 <= i < |table| && InBand(table[i], n as real)
    decreases |table|
  {
    if n >= table[0].lo {
      assert InBand(table[0], n as real);
    } else {
      var rest := table[1..];
      assert Contiguous(rest);
      ContiguousCovers(rest, n);
      var k :| 0 <= k < |rest| && InBand(rest[k], n as real);
      assert InBand(table[k + 1], n as real);
    }
  }

  /** The bands are pairwise disjoint. */
  lemma TiersDisjoint(score: real, i: nat, j: nat)
    requires i < |TierTable| && j < |TierTable| && i != j
    ensures !(InBand(TierTable[i], score) && InBand(TierTable[j], score))
  {
    TierTableContiguous();
    ContiguousDisjoint(TierTable, score, i, j);
  }

  /** A score in a band gets that band's label. */
  lemma GetTierInBand(score: real, i: nat)
    requires i < |TierTable| && InBand(TierTable[i], score)
    ensures GetTier(score) == TierTable[i].name
  {
    forall j | 0 <= j < i ensures !InBand(TierTable[j], score) {
      TiersDisjoint(score, i, j);
    }
  }

  /** Every integer score from 0 to 100 gets exactly one tier label, and
      never "Unrated". */
  lemma TiersCoverScale(n: int)
    requires 0 <= n <= 100
    ensures exists i :: 0 <= i < |TierTable| && InBand(TierTable[i], n as real)
                        && GetTier(n as real) == TierTable[i].name
    ensures GetTier(n as real) != Unrated
  {
    TierTableContiguous();
    ContiguousCovers(TierTable, n);
    var i :| 0 <= i < |TierTable| && InBand(TierTable[i], n as real);
    GetTierInBand(n as real, i);
    NamesNotUnrated(i);
  }

  /** "Unrated" is given exactly to the scores outside every band: below 0,
      above 100, or strictly between two neighbouring bands. */
  lemma GetTierUnrated(score: real)
    ensures GetTier(score) == Unrated <==> forall i :: 0 <= i < |TierTable| ==> !InBand(TierTable[i], score)
  {
    if i :| 0 <= i < |TierTable| && InBand(TierTable[i], score) {
      GetTierInBand(score, i);
      NamesNotUnrated(i);
    }
  }

  lemma NamesNotUnrated(i: nat)
    requires i < |TierTable|
    ensures TierTable[i].name != Unrated
  {
  }

  /** A score strictly between two neighbouring bands of a contiguous table
      lies in no band. */
  lemma ContiguousGap(table: seq<Band>, score: real, i: nat, j: nat)
    requires Contiguous(table) && i + 1 < |table| && j < |table|
    requires table[i + 1].hi as real < score < table[i].lo as real
    ensures !InBand(table[j], score)
  {
    if j < i {
      ContiguousBelow(table, j, i);
    } else if j > i + 1 {
      ContiguousBelow(table, i + 1, j);
    }
  }

  /** Scores between two bands (such as 94.5), above 100 or below 0 are
      "Unrated". */
  lemma GetTierBetweenBands(score: real)
    requires score < 0.0 || score > 100.0
          || exists i :: 0 <= i < |TierTable| - 1 && TierTable[i + 1].hi as real < score < TierTable[i].lo as real
    ensures GetTier(score) == Unrated
  {
    TierTableContiguous();
    forall j | 0 <= j < |TierTable| ensures !InBand(TierTable[j], score) {
      if i :| 0 <= i < |TierTable| - 1 && TierTable[i + 1].hi as real < score < TierTable[i].lo as real {
        ContiguousGap(TierTable, score, i, j);
      } else if j > 0 {
        ContiguousBelow(TierTable, 0, j);
        if j < |TierTable| - 1 {
          ContiguousBelow(TierTable, j, |TierTable| - 1);
        }
      }
    }
  }

  lemma GetTierExamples()
    ensures GetTier(95.0) == "Timeless Masterpiece"
    ensures GetTier(94.5) == Unrated
    ensures forall x: real :: 0.0 <= x <= 29.0 ==> GetTier(x) == "Critically Flawed"
  {
    GetTierInBand(95.0, 0);
    assert TierTable[1].hi as real < 94.5 < TierTable[0].lo as real;
    GetTierBetweenBands(94.5);
    forall x: real | 0.0 <= x <= 29.0 ensures GetTier(x) == "Critically Flawed" {
      GetTierInBand(x, 12);
    }
  }

  /** How many thresholds of a descending ladder `p` reaches. */
  function StepsReached(thresholds: seq<real>, p: real): (k: nat)
    ensures k <= |thresholds|
  {
    if thresholds == [] then 0
    else (if p >= thresholds[0] then 1 else 0) + StepsReached(thresholds[1..], p)
  }

  /** A higher percentage reaches at least as many thresholds. */
  lemma {:induction false} StepsMonotone(thresholds: seq<real>, p: real, q: real)
    requires p <= q
    ensures StepsReached(thresholds, p) <= StepsReached(thresholds, q)
    decreases |thresholds|
  {
    if thresholds != [] {
      StepsMonotone(thresholds[1..], p, q);
    }
  }

  /** The ladder of `get_final_rating_emoji` and `get_rating_tier`. */
  const RatingThresholds: seq<real> := [0.9, 0.8, 0.7, 0.6, 0.5, 0.4]

  /** The ladder of `get_score_emoji`. */
  const EmojiThresholds: seq<real> := [0.8, 0.6, 0.4, 0.2]

  lemma RatingStepsClosedForm(p: real)
    ensures StepsReached(RatingThresholds, p)
         == if p >= 0.9 then 6 else if p >= 0.8 then 5 else if p >= 0.7 then 4
            else if p >= 0.6 then 3 else if p >= 0.5 then 2 else if p >= 0.4 then 1 else 0
  {
    var t := RatingThresholds;
    assert t[1..] == [0.8, 0.7, 0.6, 0.5, 0.4];
    assert StepsReached([0.4], p) == if p >= 0.4 then 1 else 0 by {
      assert [0.4][1..] == [];
    }
    assert StepsReached([0.5, 0.4], p) == if p >= 0.5 then 2 else if p >= 0.4 then 1 else 0 by {
      assert [0.5, 0.4][1..] == [0.4];
    }
    assert StepsReached([0.6, 0.5, 0.4], p)
        == if p >= 0.6 then 3 else if p >= 0.5 then 2 else if p >= 0.4 then 1 else 0 by {
      assert [0.6, 0.5, 0.4][1..] == [0.5, 0.4];
    }
    assert StepsReached([0.7, 0.6, 0.5, 0.4], p)
        == if p >= 0.7 then 4 else if p >= 0.6 then 3 else if p >= 0.5 then 2 else if p >= 0.4 then 1 else 0 by {
      assert [0.7, 0.6, 0.5, 0.4][1..] == [0.6, 0.5, 0.4];
    }
    assert StepsReached([0.8, 0.7, 0.6, 0.5, 0.4], p)
        == if p >= 0.8 then 5 else if p >= 0.7 then 4 else if p >= 0.6 then 3
           else if p >= 0.5 then 2 else if p >= 0.4 then 1 else 0 by {
      assert [0.8, 0.7, 0.6, 0.5, 0.4][1..] == [0.7, 0.6, 0.5, 0.4];
    }
  }

  lemma EmojiStepsClosedForm(p: real)
    ensures StepsReached(EmojiThresholds, p)
         == if p >= 0.8 then 4 else if p >= 0.6 then 3 else if p >= 0.4 then 2 else if p >= 0.2 then 1 else 0
  {
    var t := EmojiThresholds;
    assert t[1..] == [0.6, 0.4, 0.2];
    assert StepsReached([0.2], p) == if p >= 0.2 then 1 else 0 by {
      assert [0.2][1..] == [];
    }
    assert StepsReached([0.4, 0.2], p) == if p >= 0.4 then 2 else if p >= 0.2 then 1 else 0 by {
      assert [0.4, 0.2][1..] == [0.2];
    }
    assert StepsReached([0.6, 0.4, 0.2], p)
        == if p >= 0.6 then 3 else if p >= 0.4 then 2 else if p >= 0.2 then 1 else 0 by {
      assert [0.6, 0.4, 0.2][1..] == [0.4, 0.2];
    }
  }

  /** The final rating the report prints (`get_rating_tier`), without its
      terminal colour codes. */
  datatype RatingTier = Masterpiece | Excellent | VeryGood | Good | Average | BelowAverage | Poor
  {
    function Label(): string
    {
      match this
      case Masterpiece => "Masterpiece"
      case Excellent => "Excellent"
      case VeryGood => "Very Good"
      case Good => "Good"
      case Average => "Average"
      case BelowAverage => "Below Average"
      case Poor => "Poor"
    }

    /** The position on the ladder, 0 for the lowest. */
    function Rank(): nat
    {
      match this
      case Masterpiece => 6
      case Excellent => 5
      case VeryGood => 4
      case Good => 3
      case Average => 2
      case BelowAverage => 1
      case Poor => 0
    }
  }

  /** `get_rating_tier`: the first threshold the percentage reaches decides. */
  function GetRatingTier(p: real): RatingTier
  {
    if p >= 0.9 then Masterpiece
    else if p >= 0.8 then Excellent
    else if p >= 0.7 then VeryGood
    else if p >= 0.6 then Good
    else if p >= 0.5 then Average
    else if p >= 0.4 then BelowAverage
    else Poor
  }

  /** The trophy and star glyphs of `get_final_rating_emoji`. */
  datatype RatingEmoji = ThreeTrophies | TwoTrophies | OneTrophy | Star | Sparkles | Dizzy | RatingWarning
  {
    function Glyph(): string
    {
      match this
      case ThreeTrophies => "\U{1F3C6}\U{1F3C6}\U{1F3C6}"
      case TwoTrophies => "\U{1F3C6}\U{1F3C6}"
      case OneTrophy => "\U{1F3C6}"
      case Star => "\U{2B50}"
      case Sparkles => "\U{2728}"
      case Dizzy => "\U{1F4AB}"
      case RatingWarning => "\U{26A0}\U{FE0F}"
    }

    function Rank(): nat
    {
      match this
      case ThreeTrophies => 6
      case TwoTrophies => 5
      case OneTrophy => 4
      case Star => 3
      case Sparkles => 2
      case Dizzy => 1
      case RatingWarning => 0
    }
  }

  /** `get_final_rating_emoji`. */
  function GetFinalRatingEmoji(p: real): RatingEmoji
  {
    if p >= 0.9 then ThreeTrophies
    else if p >= 0.8 then TwoTrophies
    else if p >= 0.7 then OneTrophy
    else if p >= 0.6 then Star
    else if p >= 0.5 then Sparkles
    else if p >= 0.4 then Dizzy
    else RatingWarning
  }

  /** The emoji printed next to the final rating always belongs to the same
      step as the rating itself, and both only rise with the score. */
  lemma RatingAndEmojiAgree(p: real, q: real)
    ensures GetRatingTier(p).Rank() == StepsReached(RatingThresholds, p)
    ensures GetFinalRatingEmoji(p).Rank() == GetRatingTier(p).Rank()
    ensures p <= q ==> GetRatingTier(p).Rank() <= GetRatingTier(q).Rank()
  {
    RatingStepsClosedForm(p);
    RatingStepsClosedForm(q);
    if p <= q {
      StepsMonotone(RatingThresholds, p, q);
    }
  }

  /** The per-category glyphs of `get_score_emoji`. */
  datatype ScoreEmoji = Camera | Memo | Books | Gear | ScoreWarning
  {
    function Glyph(): string
    {
      match this
      case Camera => "\U{1F4F7}"
      case Memo => "\U{1F4DD}"
      case Books => "\U{1F4DA}"
      case Gear => "\U{2699}\U{FE0F}"
      case ScoreWarning => "\U{26A0}\U{FE0F}"
    }

    function Rank(): nat
    {
      match this
      case Camera => 4
      case Memo => 3
      case Books => 2
      case Gear => 1
      case ScoreWarning => 0
    }
  }

  /** `get_score_emoji(score, max_score)`; a zero `max_score` raises
      ZeroDivisionError. */
  function GetScoreEmoji(score: real, maxScore: real): (r: Attempt<ScoreEmoji>)
    ensures r.Raised? <==> maxScore == 0.0
  {
    if maxScore == 0.0 then Raised
    else
      var p := score / maxScore;
      if p >= 0.8 then Returned(Camera)
      else if p >= 0.6 then Returned(Memo)
      else if p >= 0.4 then Returned(Books)
      else if p >= 0.2 then Returned(Gear)
      else Returned(ScoreWarning)
  }

  /** On the 30-point scale a higher category score never gets a lower
      emoji; 24 and above gets the camera, below 6 the warning sign. */
  lemma ScoreEmojiOutOf30(a: real, b: real)
    ensures GetScoreEmoji(a, 30.0).Returned?
    ensures a <= b ==> GetScoreEmoji(a, 30.0).value.Rank() <= GetScoreEmoji(b, 30.0).value.Rank()
    ensures a >= 24.0 ==> GetScoreEmoji(a, 30.0) == Returned(Camera)
    ensures a < 6.0 ==> GetScoreEmoji(a, 30.0) == Returned(ScoreWarning)
  {
    EmojiStepsClosedForm(a / 30.0);
    EmojiStepsClosedForm(b / 30.0);
    if a <= b {
      StepsMonotone(EmojiThresholds, a / 30.0, b / 30.0);
    }
  }
}
