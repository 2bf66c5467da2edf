/** Load-time normalisation of review rows (useAppData.ts, the `parsedReviews` and
    `parsedMentorReviews` maps): a `scores` value that is not an array becomes one null score per
    rubric criterion; an array is kept as it is; a missing comment becomes null. */
module Normalise {
  import opened Wrappers
  import opened Rubric
  import opened Types
  import opened Scoring

  /** The `scores` column as stored: an array of entries, or anything else (null, an object, ...). */
  datatype RawScores = ScoreArray(entries: seq<CriterionScore>) | NotAnArray

  /** The `comment` column as stored: absent, null, or a string (possibly empty). */
  datatype RawComment = Missing | Null | Text(text: string)

  datatype RawReview = RawReview(id: int, teamId: string, mentorId: string, scores: RawScores,
                                 isCompleted: bool, comment: RawComment)

  /** `criteria.map(c => ({ criterionId: c.id, score: null }))`. */
  function BlankFor(criteria: seq<Criterion>): (r: seq<CriterionScore>)
    ensures |r| == |criteria|
    ensures forall k :: 0 <= k < |r| ==> r[k].criterionId == criteria[k].id && r[k].score.None?
  {
    seq(|criteria|, k requires 0 <= k < |criteria| => CriterionScore(criteria[k].id, None))
  }

  /** One null score per rubric criterion, in rubric order. */
  function BlankScores(): (r: seq<CriterionScore>)
    ensures Aligned(r) && InRange(r)
    ensures forall k :: 0 <= k < |r| ==> r[k].score.None?
  {
    BlankFor(Criteria)
  }

  /** A blank score sheet weighs nothing. */
  lemma BlankScoresWeighNothing()
    ensures WeightedScore(BlankScores()) == 0
  {
    var b := BlankScores();
    assert forall k :: 0 <= k < |b| ==> Inert(Criteria, b[k]);
    WeightedSumOfInert(Criteria, b);
  }

  /** `Array.isArray(r.scores) ? r.scores : CRITERIA.map(...)`. */
  function NormaliseScores(raw: RawScores): (r: seq<CriterionScore>)
    ensures raw.ScoreArray? ==> r == raw.entries
    ensures raw.NotAnArray? ==> r == BlankScores()
  {
    match raw
    case ScoreArray(entries) => entries
    case NotAnArray => BlankScores()
  }

  /** `r.comment ?? null`: absent and null both read as null; a string, even an empty one, is kept. */
  function NormaliseComment(c: RawComment): (r: Option<string>)
    ensures r.None? <==> !c.Text?
    ensures c.Text? ==> r == Some(c.text)
  {
    if c.Text? then Some(c.text) else None
  }

  function NormaliseReview(raw: RawReview): (r: Review)
    ensures r.id == raw.id && r.teamId == raw.teamId && r.mentorId == raw.mentorId
    ensures r.isCompleted == raw.isCompleted
    ensures r.scores == NormaliseScores(raw.scores) && r.comment == NormaliseComment(raw.comment)
  {
    Review(raw.id, raw.teamId, raw.mentorId, NormaliseScores(raw.scores), raw.isCompleted, NormaliseComment(raw.comment))
  }

  /** `(data || []).map(...)`: every row normalised, order kept. */
  function NormaliseAll(raws: seq<RawReview>): (r: seq<Review>)
    ensures |r| == |raws|
    ensures forall k :: 0 <= k < |r| ==> r[k] == NormaliseReview(raws[k])
  {
    seq(|raws|, k requires 0 <= k < |raws| => NormaliseReview(raws[k]))
  }

  /** The stored form of a review. */
  function Stored(r: Review): RawReview
  {
    RawReview(r.id, r.teamId, r.mentorId, ScoreArray(r.scores), r.isCompleted,
              if r.comment.Some? then Text(r.comment.value) else Null)
  }

  /** Normalisation leaves a review that was stored in normal form exactly as it was. */
  lemma NormaliseStored(r: Review)
    ensures NormaliseReview(Stored(r)) == r
  {
  }

  /** Normalisation is idempotent: a normalised review, stored back, normalises to itself. */
  lemma NormaliseIdempotent(raw: RawReview)
    ensures NormaliseReview(Stored(NormaliseReview(raw))) == NormaliseReview(raw)
  {
    NormaliseStored(NormaliseReview(raw));
  }
}
