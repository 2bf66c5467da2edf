/** The rules of ReviewForm.tsx: reading a score from the select box, the displayed value of each
    criterion, the previewed weighted total, and the gate on the complete/in-progress toggle. */
module ReviewForm {
  import opened Wrappers
  import opened Rubric
  import opened Types
  import opened Seqs
  import opened Scoring
  import opened Decimal

  /** A call of `onUpdateScore(criterionId, score)`. */
  datatype ScoreUpdate = ScoreUpdate(criterionId: string, score: Option<int>)

  /** `handleScoreChange`: '' clears the score; a value whose `parseInt` is 1..5 sets it; anything
      else is ignored (`None`: no call). */
  function HandleScoreChange(criterionId: string, value: string): (r: Option<ScoreUpdate>)
    ensures value == "" ==> r == Some(ScoreUpdate(criterionId, None))
    ensures value != "" ==>
      (r.Some? <==> ParseInt(value).Some? && 1 <= ParseInt(value).value <= MaxScore)
    ensures value != "" && r.Some? ==> r.value == ScoreUpdate(criterionId, ParseInt(value))
  {
    var numValue := ParseInt(value);
    if value == "" then Some(ScoreUpdate(criterionId, None))
    else if numValue.Some? && 1 <= numValue.value && numValue.value <= 5 then Some(ScoreUpdate(criterionId, numValue))
    else None
  }

  /** Every update the form issues is for the criterion of the select box it came from, so only
      ids of `criteria` are ever sent, and its score is null or within 1..5. */
  lemma ScoreUpdatesAreWellFormed(criteria: seq<Criterion>, k: nat, value: string)
    requires k < |criteria|
    ensures var r := HandleScoreChange(criteria[k].id, value);
      r.Some? ==> r.value.criterionId in Ids(criteria)
                  && (r.value.score.None? || 1 <= r.value.score.value <= MaxScore)
  {
    assert Ids(criteria)[k] == criteria[k].id;
  }

  /** Out-of-range and non-numeric inputs are ignored. */
  lemma RejectedInputs(criterionId: string)
    ensures HandleScoreChange(criterionId, "0") == None
    ensures HandleScoreChange(criterionId, "6") == None
    ensures HandleScoreChange(criterionId, "abc") == None
  {
    assert ParseInt("0") == Some(0) by { ParseIntRoundTrip(0); }
    assert ParseInt("6") == Some(6) by { ParseIntRoundTrip(6); }
  }

  /** `review.scores.find(s => s.criterionId === c.id)?.score`, shown as '' when null or missing. */
  function DisplayedScore(scores: seq<CriterionScore>, criterionId: string): (shown: string)
    ensures (forall k :: 0 <= k < |scores| ==> scores[k].criterionId != criterionId) ==> shown == ""
    ensures forall k :: 0 <= k < |scores| && scores[k].criterionId == criterionId
                        && (forall j :: 0 <= j < k ==> scores[j].criterionId != criterionId) ==>
      shown == (if scores[k].score.None? then "" else IntToDecimal(scores[k].score.value))
  {
    var entry := Find(scores, (s: CriterionScore) => s.criterionId == criterionId);
    forall k | 0 <= k < |scores| && scores[k].criterionId == criterionId
               && (forall j :: 0 <= j < k ==> scores[j].criterionId != criterionId)
      ensures entry == Some(scores[k])
    {
      FindFirst(scores, (s: CriterionScore) => s.criterionId == criterionId, k);
    }
    if entry.None? || entry.value.score.None? then "" else IntToDecimal(entry.value.score.value)
  }

  /** Choosing again the value a select box shows reproduces the stored score: the display and the
      input handler are inverse on null and on 1..5. */
  lemma DisplayThenChangeRoundTrip(scores: seq<CriterionScore>, k: nat)
    requires k < |scores|
    requires forall j :: 0 <= j < k ==> scores[j].criterionId != scores[k].criterionId
    requires scores[k].score.None? || 1 <= scores[k].score.value <= MaxScore
    ensures HandleScoreChange(scores[k].criterionId, DisplayedScore(scores, scores[k].criterionId))
      == Some(ScoreUpdate(scores[k].criterionId, scores[k].score))
  {
    if scores[k].score.Some? {
      ParseIntRoundTrip(scores[k].score.value);
    }
  }

  /** `total.toFixed(2)` for a non-negative total in hundredths. */
  function FormatHundredths(h: nat): (s: string)
    ensures |s| >= 4 && s[|s| - 3] == '.'
    ensures AllDigits(s[..|s| - 3]) && AllDigits(s[|s| - 2..])
    ensures DigitsValue(s[..|s| - 3]) * 100 + DigitsValue(s[|s| - 2..]) == h
    ensures s[..|s| - 3] == NatToDecimal(h / 100)
  {
    var c := h % 100;
    var whole := NatToDecimal(h / 100);
    var cents := [DigitChar(c / 10), DigitChar(c % 10)];
    var s := whole + "." + cents;
    assert s[..|s| - 3] == whole && s[|s| - 2..] == cents;
    NatToDecimalValue(h / 100);
    TwoDigitsValue(c / 10, c % 10);
    s
  }

  /** `weightedTotal`: the weighted sum over the form's `criteria`, written with two decimals. */
  function WeightedTotal(criteria: seq<Criterion>, scores: seq<CriterionScore>): (shown: string)
    ensures WeightedSum(criteria, scores) >= 0 ==> shown == FormatHundredths(WeightedSum(criteria, scores))
    ensures WeightedSum(criteria, scores) < 0 ==> shown == "-" + FormatHundredths(-WeightedSum(criteria, scores))
  {
    var total := WeightedSum(criteria, scores);
    if total < 0 then "-" + FormatHundredths(-total) else FormatHundredths(total)
  }

  lemma TwoDigitsValue(a: nat, b: nat)
    requires a < 10 && b < 10
    ensures DigitsValue([DigitChar(a), DigitChar(b)]) == a * 10 + b
  {
    var x, y := DigitChar(a), DigitChar(b);
    assert DigitValue(x) == a && DigitValue(y) == b;
    assert [x][..0] == [];
    assert DigitsValue([x]) == a;
    assert [x, y][..1] == [x];
    assert DigitsValue([x, y]) == DigitsValue([x]) * 10 + DigitValue(y);
  }

  /** The form's ceiling: all six criteria at 5 shows "5.00", the "/ 5.00" beside it. */
  lemma PreviewCeiling(scores: seq<CriterionScore>)
    requires Aligned(scores) && AllMax(scores)
    ensures WeightedTotal(Criteria, scores) == "5.00"
  {
    WeightedScoreBounds(scores);
    assert WeightedSum(Criteria, scores) == 500;
    var s := FormatHundredths(500);
    assert s == NatToDecimal(5) + "." + [DigitChar(0), DigitChar(0)];
  }

  /** `review.scores.every(s => s.score !== null)`. */
  predicate AllScoresProvided(scores: seq<CriterionScore>)
  {
    forall k :: 0 <= k < |scores| ==> scores[k].score.Some?
  }

  /** The toggle is enabled exactly when every score is set, whichever way it toggles and whatever
      the comment: the status and the comment play no part. */
  function ToggleEnabled(review: Review): (enabled: bool)
    ensures enabled <==> forall k :: 0 <= k < |review.scores| ==> review.scores[k].score.Some?
  {
    AllScoresProvided(review.scores)
  }

  lemma ToggleIgnoresStatusAndComment(review: Review, status: bool, comment: Option<string>)
    ensures ToggleEnabled(review.(isCompleted := status, comment := comment)) == ToggleEnabled(review)
  {
  }

  /** A review with no scores has nothing missing, so its toggle is enabled. */
  lemma EmptyScoresEnable(review: Review)
    requires review.scores == []
    ensures ToggleEnabled(review)
  {
  }

  /** Setting one score to null disables the toggle. */
  lemma ClearingAScoreDisables(review: Review, k: nat)
    requires k < |review.scores|
    ensures !ToggleEnabled(review.(scores := review.scores[k := review.scores[k].(score := None)]))
  {
    var s := review.scores[k := review.scores[k].(score := None)];
    assert s[k].score.None?;
  }
}
