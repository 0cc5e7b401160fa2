/** `ExpertPanel` and `run_expert_panel`: every expert profile is asked for
    a review and a score, the usable answers are kept in two parallel lists
    and the final score is their mean.  The reviewer model is outside the
    model: its answer for a profile is a parameter, `Raised` when the call
    or the conversion of its score to a number raises. */
module ExpertReview {
  import opened Common

  datatype Profile = Profile(name: string, expertise: string)

  /** `generate_review` as written: the error branch calls a reporting
      function the module never imports, so a failed call raises instead
      of returning the fallback. */
  function GenerateReviewAsWritten(answer: Attempt<(string, real)>): (r: Attempt<(Option<string>, real)>)
    ensures r.Raised? <==> answer.Raised?
    ensures r.Returned? ==> r.value == (Some(answer.value.0), answer.value.1)
  {
    match answer
    case Returned((review, score)) => Returned((Some(review), score))
    case Raised => Raised
  }

  /** `generate_review` as intended: `(None, 0.0)` when the call fails. */
  function GenerateReview(answer: Attempt<(string, real)>): (r: (Option<string>, real))
    ensures answer.Raised? ==> r == (None, 0.0)
    ensures answer.Returned? ==> r == (Some(answer.value.0), answer.value.1)
  {
    match answer
    case Returned((review, score)) => (Some(review), score)
    case Raised => (None, 0.0)
  }

  /** The fallback result is unreachable as written: a failing call makes
      the written version raise where the intended one returns `(None, 0.0)`;
      on success the two agree. */
  lemma FallbackUnreachable(answer: Attempt<(string, real)>)
    ensures answer.Raised? ==> GenerateReviewAsWritten(answer).Raised? && GenerateReview(answer) == (None, 0.0)
    ensures answer.Returned? ==> GenerateReviewAsWritten(answer) == Returned(GenerateReview(answer))
  {
  }

  /** `if review and score`: the review is a non-empty string and the score
      is not zero. */
  predicate Usable(result: (Option<string>, real))
  {
    result.0.Some? && result.0.value != "" && result.1 != 0.0
  }

  /** The entries kept for the first `n` profiles: name, review and score of
      each usable answer, in profile order. */
  function Kept(profiles: seq<Profile>, ask: Profile -> Attempt<(string, real)>, n: nat): seq<(string, string, real)>
    requires n <= |profiles|
  {
    if n == 0 then []
    else
      var result := GenerateReview(ask(profiles[n - 1]));
      Kept(profiles, ask, n - 1)
        + (if Usable(result) then [(profiles[n - 1].name, result.0.value, result.1)] else [])
  }

  function Scores(entries: seq<(string, string, real)>): (scores: seq<real>)
    ensures |scores| == |entries| && forall i :: 0 <= i < |entries| ==> scores[i] == entries[i].2
  {
    seq(|entries|, i requires 0 <= i < |entries| => entries[i].2)
  }

  function Sum(xs: seq<real>): real
  {
    if xs == [] then 0.0 else xs[0] + Sum(xs[1..])
  }

  /** `sum(scores) / len(scores) if scores else 0`. */
  function Mean(xs: seq<real>): real
  {
    if xs == [] then 0.0 else Sum(xs) / |xs| as real
  }

  /** The least element of a non-empty sequence. */
  function Smallest(xs: seq<real>): (m: real)
    requires xs != []
    ensures m in xs && forall i :: 0 <= i < |xs| ==> m <= xs[i]
  {
    if |xs| == 1 then xs[0]
    else
      var rest := Smallest(xs[1..]);
      assert forall i :: 1 <= i < |xs| ==> xs[i] == xs[1..][i - 1];
      if xs[0] <= rest then xs[0] else rest
  }

  /** The greatest element of a non-empty sequence. */
  function Largest(xs: seq<real>): (m: real)
    requires xs != []
    ensures m in xs && forall i :: 0 <= i < |xs| ==> xs[i] <= m
  {
    if |xs| == 1 then xs[0]
    else
      var rest := Largest(xs[1..]);
      assert forall i :: 1 <= i < |xs| ==> xs[i] == xs[1..][i - 1];
      if xs[0] >= rest then xs[0] else rest
  }

  lemma {:induction false} SumBounds(xs: seq<real>, lo: real, hi: real)
    requires forall i :: 0 <= i < |xs| ==> lo <= xs[i] <= hi
    ensures |xs| as real * lo <= Sum(xs) <= |xs| as real * hi
  {
    if xs != [] {
      SumBounds(xs[1..], lo, hi);
      assert |xs| as real * lo == lo + |xs[1..]| as real * lo;
      assert |xs| as real * hi == hi + |xs[1..]| as real * hi;
    }
  }

  /** The mean of kept scores lies between any lower and any upper bound of
      them, so between their minimum and their maximum. */
  lemma MeanBetween(xs: seq<real>, lo: real, hi: real)
    requires xs != []
    requires forall i :: 0 <= i < |xs| ==> lo <= xs[i] <= hi
    ensures lo <= Mean(xs) <= hi
  {
    SumBounds(xs, lo, hi);
    QuotientBetween(Sum(xs), |xs| as real, lo, hi);
  }

  lemma QuotientBetween(a: real, n: real, lo: real, hi: real)
    requires n > 0.0 && n * lo <= a <= n * hi
    ensures lo <= a / n <= hi
  {
    assert a / n - lo == (a - n * lo) / n;
    assert hi - a / n == (n * hi - a) / n;
  }

  /** The positions, among the first `n` profiles, whose answer is usable. */
  function KeptIndices(profiles: seq<Profile>, ask: Profile -> Attempt<(string, real)>, n: nat): seq<nat>
    requires n <= |profiles|
  {
    if n == 0 then []
    else
      KeptIndices(profiles, ask, n - 1)
        + (if Usable(GenerateReview(ask(profiles[n - 1]))) then [n - 1] else [])
  }

  /** `kept` lists the entries of the profiles at positions `idx` among the
      first `n`: the positions strictly increase, entry m is the name, review
      and score of profile `idx[m]`, and every position left out has an
      unusable answer. */
  predicate IndexedBy(profiles: seq<Profile>, ask: Profile -> Attempt<(string, real)>, n: nat,
                      idx: seq<nat>, kept: seq<(string, string, real)>)
    requires n <= |profiles|
  {
    && |idx| == |kept|
    && (forall m, m' :: 0 <= m < m' < |idx| ==> idx[m] < idx[m'])
    && (forall m :: 0 <= m < |idx| ==>
          idx[m] < n && ask(profiles[idx[m]]).Returned?
          && kept[m] == (profiles[idx[m]].name, ask(profiles[idx[m]]).value.0, ask(profiles[idx[m]]).value.1)
          && kept[m].1 != "" && kept[m].2 != 0.0)
    && (forall i :: 0 <= i < n && i !in idx ==> !Usable(GenerateReview(ask(profiles[i]))))
  }

  /** A usable answer at position n extends both lists by one. */
  lemma IndexedByKeep(profiles: seq<Profile>, ask: Profile -> Attempt<(string, real)>, n: nat,
                      idx: seq<nat>, kept: seq<(string, string, real)>)
    requires n < |profiles| && IndexedBy(profiles, ask, n, idx, kept)
    requires Usable(GenerateReview(ask(profiles[n])))
    ensures IndexedBy(profiles, ask, n + 1, idx + [n],
                      kept + [(profiles[n].name, ask(profiles[n]).value.0, ask(profiles[n]).value.1)])
  {
  }

  /** An unusable answer at position n leaves both lists as they are. */
  lemma IndexedBySkip(profiles: seq<Profile>, ask: Profile -> Attempt<(string, real)>, n: nat,
                      idx: seq<nat>, kept: seq<(string, string, real)>)
    requires n < |profiles| && IndexedBy(profiles, ask, n, idx, kept)
    requires !Usable(GenerateReview(ask(profiles[n])))
    ensures IndexedBy(profiles, ask, n + 1, idx, kept)
  {
  }

  /** The kept entries come one per usable answer, in profile order: entry m
      is the name, review and score of profile `KeptIndices(...)[m]`, those
      positions strictly increase, and every profile left out has an
      unusable answer (a failed call, an empty review or a score of 0). */
  lemma {:induction false} KeptEntries(profiles: seq<Profile>, ask: Profile -> Attempt<(string, real)>, n: nat)
    requires n <= |profiles|
    ensures |Kept(profiles, ask, n)| <= n
    ensures IndexedBy(profiles, ask, n, KeptIndices(profiles, ask, n), Kept(profiles, ask, n))
  {
    if n > 0 {
      KeptEntries(profiles, ask, n - 1);
      var p := profiles[n - 1];
      if Usable(GenerateReview(ask(p))) {
        IndexedByKeep(profiles, ask, n - 1, KeptIndices(profiles, ask, n - 1), Kept(profiles, ask, n - 1));
      } else {
        IndexedBySkip(profiles, ask, n - 1, KeptIndices(profiles, ask, n - 1), Kept(profiles, ask, n - 1));
      }
    }
  }

  /** A profile whose answer fails, has an empty review or scores exactly 0
      adds nothing; one with a usable answer adds exactly its entry. */
  lemma KeptStep(profiles: seq<Profile>, ask: Profile -> Attempt<(string, real)>, n: nat)
    requires n < |profiles|
    ensures var answer := ask(profiles[n]);
            && (answer.Raised? || answer.value.0 == "" || answer.value.1 == 0.0 ==>
                  Kept(profiles, ask, n + 1) == Kept(profiles, ask, n))
            && (answer.Returned? && answer.value.0 != "" && answer.value.1 != 0.0 ==>
                  Kept(profiles, ask, n + 1) == Kept(profiles, ask, n) + [(profiles[n].name, answer.value.0, answer.value.1)])
  {
  }

  /** When every answer is usable every profile is kept, in order. */
  lemma {:induction false} AllUsableAllKept(profiles: seq<Profile>, ask: Profile -> Attempt<(string, real)>, n: nat)
    requires n <= |profiles|
    requires forall i :: 0 <= i < n ==> Usable(GenerateReview(ask(profiles[i])))
    ensures |Kept(profiles, ask, n)| == n
    ensures forall i :: 0 <= i < n ==> Kept(profiles, ask, n)[i].0 == profiles[i].name
  {
    if n > 0 {
      AllUsableAllKept(profiles, ask, n - 1);
    }
  }

  /** `run_expert_panel`: the kept entries, their scores in the same order
      and the mean score, 0 when nothing is kept. */
  method RunExpertPanel(profiles: seq<Profile>, ask: Profile -> Attempt<(string, real)>)
    returns (reviews: seq<(string, string, real)>, scores: seq<real>, finalScore: real)
    ensures reviews == Kept(profiles, ask, |profiles|)
    ensures scores == Scores(reviews)
    ensures finalScore == Mean(scores)
    ensures scores == [] ==> finalScore == 0.0
    ensures scores != [] ==> Smallest(scores) <= finalScore <= Largest(scores)
  {
    reviews, scores := [], [];
    var k := 0;
    while k < |profiles|
      invariant k <= |profiles|
      invariant reviews == Kept(profiles, ask, k)
      invariant scores == Scores(reviews)
    {
      var profile := profiles[k];
      var (review, score) := GenerateReview(ask(profile));
      if review.Some? && review.value != "" && score != 0.0 {
        reviews := reviews + [(profile.name, review.value, score)];
        scores := scores + [score];
      }
      k := k + 1;
    }
    finalScore := if scores != [] then Sum(scores) / |scores| as real else 0.0;
    if scores != [] {
      MeanBetween(scores, Smallest(scores), Largest(scores));
    }
  }

  /** `run_expert_panel` as written: the first failing reviewer call makes
      `generate_review` raise NameError, which the loop does not catch, so
      the whole panel raises; when no call fails it returns the same
      entries, scores and mean as the corrected `RunExpertPanel`. */
  method RunExpertPanelAsWritten(profiles: seq<Profile>, ask: Profile -> Attempt<(string, real)>)
    returns (r: Attempt<(seq<(string, string, real)>, seq<real>, real)>)
    ensures r.Raised? <==> exists k :: 0 <= k < |profiles| && ask(profiles[k]).Raised?
    ensures r.Returned? ==>
              var reviews := Kept(profiles, ask, |profiles|);
              r.value == (reviews, Scores(reviews), Mean(Scores(reviews)))
  {
    var reviews: seq<(string, string, real)> := [];
    var scores: seq<real> := [];
    var k := 0;
    while k < |profiles|
      invariant k <= |profiles|
      invariant forall j :: 0 <= j < k ==> ask(profiles[j]).Returned?
      invariant reviews == Kept(profiles, ask, k)
      invariant scores == Scores(reviews)
    {
      var profile := profiles[k];
      var answer := GenerateReviewAsWritten(ask(profile));
      if answer.Raised? {
        return Raised;
      }
      var (review, score) := answer.value;
      if review.Some? && review.value != "" && score != 0.0 {
        reviews := reviews + [(profile.name, review.value, score)];
        scores := scores + [score];
      }
      k := k + 1;
    }
    r := Returned((reviews, scores, if scores != [] then Sum(scores) / |scores| as real else 0.0));
  }
}
