/** The weighted score of one review (calculateWeightedScore in useAppData.ts, and the same
    reduction as ReviewForm's previewed total). All values are in hundredths: a score of 5 on a
    criterion of weight 0.20 contributes 100. */
module Scoring {
  import opened Wrappers
  import opened Rubric
  import opened Types

  /** What one entry adds: its score times its criterion's weight, or nothing when the criterion
      is unknown or the score is still null. */
  function Contribution(criteria: seq<Criterion>, entry: CriterionScore): int
  {
    match FindCriterion(criteria, entry.criterionId)
    case None => 0
    case Some(c) => if entry.score.Some? then entry.score.value * c.weight else 0
  }

  /** `scores.reduce((acc, s) => ..., acc)`: accumulates from the left. */
  function Reduce(criteria: seq<Criterion>, acc: int, scores: seq<CriterionScore>): int
    decreases |scores|
  {
    if scores == [] then acc else Reduce(criteria, acc + Contribution(criteria, scores[0]), scores[1..])
  }

  /** Reference definition: the sum of all contributions. */
  function Total(criteria: seq<Criterion>, scores: seq<CriterionScore>): int
    decreases |scores|
  {
    if scores == [] then 0 else Contribution(criteria, scores[0]) + Total(criteria, scores[1..])
  }

  lemma {:induction false} ReduceIsTotal(criteria: seq<Criterion>, acc: int, scores: seq<CriterionScore>)
    ensures Reduce(criteria, acc, scores) == acc + Total(criteria, scores)
    decreases |scores|
  {
    if scores != [] {
      ReduceIsTotal(criteria, acc + Contribution(criteria, scores[0]), scores[1..]);
    }
  }

  /** The weighted total against a list of criteria: the sum of score × weight over the entries
      that have a score and a known criterion. Exact in hundredths, so rounding to two decimals
      leaves it unchanged. */
  function WeightedSum(criteria: seq<Criterion>, scores: seq<CriterionScore>): (r: int)
    ensures r == Total(criteria, scores)
  {
    ReduceIsTotal(criteria, 0, scores);
    Reduce(criteria, 0, scores)
  }

  /** calculateWeightedScore: the weighted sum against the rubric. */
  function WeightedScore(scores: seq<CriterionScore>): int
  {
    WeightedSum(Criteria, scores)
  }

  lemma {:induction false} TotalAppend(criteria: seq<Criterion>, a: seq<CriterionScore>, b: seq<CriterionScore>)
    ensures Total(criteria, a + b) == Total(criteria, a) + Total(criteria, b)
    decreases |a|
  {
    if a == [] {
      assert a + b == b;
    } else {
      assert (a + b)[1..] == a[1..] + b;
      TotalAppend(criteria, a[1..], b);
    }
  }

  /** A null score or an unknown criterion id contributes nothing. */
  predicate Inert(criteria: seq<Criterion>, entry: CriterionScore)
  {
    entry.score.None? || FindCriterion(criteria, entry.criterionId).None?
  }

  /** An empty list, or one whose entries are all null or unknown, scores 0. */
  lemma {:induction false} WeightedSumOfInert(criteria: seq<Criterion>, scores: seq<CriterionScore>)
    requires forall k :: 0 <= k < |scores| ==> Inert(criteria, scores[k])
    ensures WeightedSum(criteria, scores) == 0
    decreases |scores|
  {
    if scores != [] {
      WeightedSumOfInert(criteria, scores[1..]);
    }
  }

  /** Dropping a null entry or one with an unknown criterion id leaves the weighted score unchanged. */
  lemma InertEntryIgnored(criteria: seq<Criterion>, scores: seq<CriterionScore>, i: nat)
    requires i < |scores| && Inert(criteria, scores[i])
    ensures WeightedSum(criteria, scores[..i] + scores[i + 1..]) == WeightedSum(criteria, scores)
  {
    assert scores == scores[..i] + ([scores[i]] + scores[i + 1..]);
    TotalAppend(criteria, scores[..i], [scores[i]] + scores[i + 1..]);
    TotalAppend(criteria, scores[..i], scores[i + 1..]);
  }

  /** Raising one score (or setting a null one to a non-negative value) never lowers the total. */
  lemma WeightedSumMonotone(criteria: seq<Criterion>, scores: seq<CriterionScore>, i: nat, v: int)
    requires i < |scores|
    requires scores[i].score.None? ==> v >= 0
    requires scores[i].score.Some? ==> v >= scores[i].score.value
    ensures WeightedSum(criteria, scores[i := scores[i].(score := Some(v))]) >= WeightedSum(criteria, scores)
  {
    var raised := scores[i := scores[i].(score := Some(v))];
    assert scores == scores[..i] + ([scores[i]] + scores[i + 1..]);
    assert raised == scores[..i] + ([raised[i]] + scores[i + 1..]);
    TotalAppend(criteria, scores[..i], [scores[i]] + scores[i + 1..]);
    TotalAppend(criteria, scores[..i], [raised[i]] + scores[i + 1..]);
    match FindCriterion(criteria, scores[i].criterionId)
    case None =>
    case Some(c) =>
      if scores[i].score.Some? {
        MultiplyMonotone(scores[i].score.value, v, c.weight);
      }
  }

  lemma MultiplyMonotone(a: int, b: int, w: nat)
    requires a <= b
    ensures a * w <= b * w
  {
    assert b * w - a * w == (b - a) * w;
  }

  /** One entry per rubric criterion, in rubric order. */
  predicate Aligned(scores: seq<CriterionScore>)
  {
    |scores| == |Criteria| && forall k :: 0 <= k < |scores| ==> scores[k].criterionId == Criteria[k].id
  }

  /** Every score is null or within 1..5. */
  predicate InRange(scores: seq<CriterionScore>)
  {
    forall k :: 0 <= k < |scores| ==> scores[k].score.None? || 1 <= scores[k].score.value <= MaxScore
  }

  predicate AllMax(scores: seq<CriterionScore>)
  {
    forall k :: 0 <= k < |scores| ==> scores[k].score == Some(MaxScore)
  }

  lemma {:induction false} AlignedSuffixTotal(criteria: seq<Criterion>, scores: seq<CriterionScore>, k: nat)
    requires DistinctIds(criteria)
    requires |scores| == |criteria| && k <= |scores|
    requires forall j :: 0 <= j < |scores| ==> scores[j].criterionId == criteria[j].id
    requires InRange(scores)
    ensures 0 <= Total(criteria, scores[k..]) <= MaxScore * TotalWeight(criteria[k..])
    ensures AllMax(scores) ==> Total(criteria, scores[k..]) == MaxScore * TotalWeight(criteria[k..])
    decreases |scores| - k
  {
    if k < |scores| {
      AlignedSuffixTotal(criteria, scores, k + 1);
      assert scores[k..][1..] == scores[k + 1..];
      assert criteria[k..][1..] == criteria[k + 1..];
      FindCriterionAt(criteria, k);
      var w := criteria[k].weight;
      if scores[k].score.Some? {
        MultiplyMonotone(0, scores[k].score.value, w);
        MultiplyMonotone(scores[k].score.value, MaxScore, w);
      }
    }
  }

  /** A review with one score per criterion, each null or 1..5, scores between 0.00 and 5.00;
      all fives give exactly the 5.00 ceiling. */
  lemma WeightedScoreBounds(scores: seq<CriterionScore>)
    requires Aligned(scores) && InRange(scores)
    ensures 0 <= WeightedScore(scores) <= 500
    ensures AllMax(scores) ==> WeightedScore(scores) == 500
  {
    RubricIdsDistinct();
    RubricWeightsSumToOne();
    AlignedSuffixTotal(Criteria, scores, 0);
    assert scores[0..] == scores;
    assert Criteria[0..] == Criteria;
  }
}
