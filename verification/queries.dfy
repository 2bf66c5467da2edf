/** The list queries over reviews and mentors that useAppData.ts and AdminDashboard.tsx share:
    filters by team, mentor, completion and id, the mentor lookup, and the pair-uniqueness rule. */
module Queries {
  import opened Wrappers
  import opened Types
  import opened Seqs

  /** `reviews.filter(r => r.teamId === teamId)`. */
  function OfTeam(reviews: seq<Review>, teamId: string): (r: seq<Review>)
    ensures |r| <= |reviews|
    ensures forall x :: x in r <==> x in reviews && x.teamId == teamId
  {
    Filter(reviews, (x: Review) => x.teamId == teamId)
  }

  lemma OfTeamSnoc(reviews: seq<Review>, x: Review, teamId: string)
    ensures OfTeam(reviews + [x], teamId) == OfTeam(reviews, teamId) + (if x.teamId == teamId then [x] else [])
  {
    FilterSnoc(reviews, x, (y: Review) => y.teamId == teamId);
  }

  /** `reviews.filter(r => r.mentorId === mentorId)`. */
  function OfMentor(reviews: seq<Review>, mentorId: string): (r: seq<Review>)
    ensures |r| <= |reviews|
    ensures forall x :: x in r <==> x in reviews && x.mentorId == mentorId
  {
    Filter(reviews, (x: Review) => x.mentorId == mentorId)
  }

  lemma OfMentorSnoc(reviews: seq<Review>, x: Review, mentorId: string)
    ensures OfMentor(reviews + [x], mentorId) == OfMentor(reviews, mentorId) + (if x.mentorId == mentorId then [x] else [])
  {
    FilterSnoc(reviews, x, (y: Review) => y.mentorId == mentorId);
  }

  /** `reviews.filter(r => r.isCompleted)`. */
  function CompletedOnly(reviews: seq<Review>): (r: seq<Review>)
    ensures |r| <= |reviews|
    ensures forall x :: x in r <==> x in reviews && x.isCompleted
  {
    Filter(reviews, (x: Review) => x.isCompleted)
  }

  lemma CompletedOnlySnoc(reviews: seq<Review>, x: Review)
    ensures CompletedOnly(reviews + [x]) == CompletedOnly(reviews) + (if x.isCompleted then [x] else [])
  {
    FilterSnoc(reviews, x, (y: Review) => y.isCompleted);
  }

  /** `reviews.filter(r => r.id !== reviewId)`: every review with that id is gone, nothing else is. */
  function WithoutId(reviews: seq<Review>, reviewId: int): (r: seq<Review>)
    ensures |r| <= |reviews|
    ensures forall x :: x in r <==> x in reviews && x.id != reviewId
  {
    Filter(reviews, (x: Review) => x.id != reviewId)
  }

  /** `reviews.map(r => r.id === reviewId ? row : r)`. */
  function ReplaceById(reviews: seq<Review>, reviewId: int, row: Review): (r: seq<Review>)
    ensures |r| == |reviews|
  {
    seq(|reviews|, k requires 0 <= k < |reviews| => if reviews[k].id == reviewId then row else reviews[k])
  }

  /** Replacing by id keeps the order and length; only positions holding that id change. */
  lemma ReplaceByIdFrame(reviews: seq<Review>, reviewId: int, row: Review)
    ensures forall k :: 0 <= k < |reviews| && reviews[k].id != reviewId ==> ReplaceById(reviews, reviewId, row)[k] == reviews[k]
    ensures forall k :: 0 <= k < |reviews| && reviews[k].id == reviewId ==> ReplaceById(reviews, reviewId, row)[k] == row
    ensures (forall k :: 0 <= k < |reviews| ==> reviews[k].id != reviewId) ==> ReplaceById(reviews, reviewId, row) == reviews
  {
  }

  /** `mentors.find(m => m.id === mentorId)`. */
  function FindMentor(mentors: seq<Mentor>, mentorId: string): (r: Option<Mentor>)
    ensures r.None? <==> forall k :: 0 <= k < |mentors| ==> mentors[k].id != mentorId
    ensures r.Some? ==> r.value in mentors && r.value.id == mentorId
  {
    Find(mentors, (m: Mentor) => m.id == mentorId)
  }

  const UnknownMentor: string := "Unknown Mentor"

  /** `mentor?.name || 'Unknown Mentor'`: a missing mentor, or one with an empty name, shows the
      placeholder. */
  function DisplayName(mentors: seq<Mentor>, mentorId: string): (name: string)
    ensures name != ""
    ensures FindMentor(mentors, mentorId).None? ==> name == UnknownMentor
    ensures FindMentor(mentors, mentorId).Some? && FindMentor(mentors, mentorId).value.name != "" ==>
      name == FindMentor(mentors, mentorId).value.name
    ensures name != UnknownMentor ==> exists k :: 0 <= k < |mentors| && mentors[k].id == mentorId && mentors[k].name == name
  {
    match FindMentor(mentors, mentorId)
    case None => UnknownMentor
    case Some(m) => if m.name == "" then UnknownMentor else m.name
  }

  /** Some review links this team and this mentor. */
  predicate HasPair(reviews: seq<Review>, teamId: string, mentorId: string)
  {
    exists k :: 0 <= k < |reviews| && reviews[k].teamId == teamId && reviews[k].mentorId == mentorId
  }

  /** `reviews.find(r => r.teamId === teamId && r.mentorId === mentorId)`. */
  function ExistingAssignment(reviews: seq<Review>, teamId: string, mentorId: string): (r: Option<Review>)
    ensures r.None? <==> !HasPair(reviews, teamId, mentorId)
    ensures r.Some? ==> r.value in reviews && r.value.teamId == teamId && r.value.mentorId == mentorId
  {
    Find(reviews, (x: Review) => x.teamId == teamId && x.mentorId == mentorId)
  }

  /** At most one review per (team, mentor) pair. */
  predicate UniquePairs(reviews: seq<Review>)
  {
    forall i, j :: 0 <= i < j < |reviews| ==>
      reviews[i].teamId != reviews[j].teamId || reviews[i].mentorId != reviews[j].mentorId
  }

  /** Appending a review for a pair not yet present keeps pairs unique. */
  lemma UniquePairsAppend(reviews: seq<Review>, x: Review)
    requires UniquePairs(reviews) && !HasPair(reviews, x.teamId, x.mentorId)
    ensures UniquePairs(reviews + [x])
  {
  }

  /** Removing reviews never creates a duplicate pair. */
  lemma {:induction false} UniquePairsFilter(reviews: seq<Review>, p: Review -> bool)
    requires UniquePairs(reviews)
    ensures UniquePairs(Filter(reviews, p))
    decreases |reviews|
  {
    if reviews != [] {
      var init := reviews[..|reviews| - 1];
      var x := reviews[|reviews| - 1];
      assert UniquePairs(init);
      UniquePairsFilter(init, p);
      var r := Filter(init, p);
      forall k | 0 <= k < |r|
        ensures r[k].teamId != x.teamId || r[k].mentorId != x.mentorId
      {
        assert r[k] in init;
        var i :| 0 <= i < |init| && init[i] == r[k];
        assert reviews[i] == r[k];
      }
    }
  }

  lemma UniquePairsWithoutId(reviews: seq<Review>, reviewId: int)
    requires UniquePairs(reviews)
    ensures UniquePairs(WithoutId(reviews, reviewId))
  {
    UniquePairsFilter(reviews, (x: Review) => x.id != reviewId);
  }

  /** Replacing reviews by a row for the same pair keeps pairs unique. */
  lemma UniquePairsReplace(reviews: seq<Review>, reviewId: int, row: Review)
    requires UniquePairs(reviews)
    requires forall k :: 0 <= k < |reviews| && reviews[k].id == reviewId ==>
               reviews[k].teamId == row.teamId && reviews[k].mentorId == row.mentorId
    ensures UniquePairs(ReplaceById(reviews, reviewId, row))
  {
    var r := ReplaceById(reviews, reviewId, row);
    forall i, j | 0 <= i < j < |r| ensures r[i].teamId != r[j].teamId || r[i].mentorId != r[j].mentorId {
      assert r[i].teamId == reviews[i].teamId && r[i].mentorId == reviews[i].mentorId;
      assert r[j].teamId == reviews[j].teamId && r[j].mentorId == reviews[j].mentorId;
    }
  }
}
