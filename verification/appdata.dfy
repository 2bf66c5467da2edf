/** The state-changing operations of useAppData.ts: the in-memory `reviews`, `teams`, `mentors`
    and `error` of the hook, and the store-backed operations that update them. Each store call is
    an outcome parameter. */
module AppData {
  import opened Wrappers
  import opened Types
  import opened Queries
  import opened Normalise

  /** What a store call (`insert`/`delete`/`update` then `.select().single()`) came back with:
      a row, an error with its message, or neither. */
  datatype StoreOutcome<T> = Success(row: T) | Failure(message: string) | NoRow

  /** The row `assignMentorToTeam` asks the store to insert. */
  datatype NewReview = NewReview(teamId: string, mentorId: string, scores: seq<CriterionScore>,
                                 isCompleted: bool, comment: Option<string>)

  /** The update `saveReviewUpdate` sends: the columns and the two filters (`id`, `mentorId`). */
  datatype ReviewUpdate = ReviewUpdate(reviewId: int, mentorId: string, scores: seq<CriterionScore>,
                                       isCompleted: bool, comment: string)

  const NotFoundMessage: string := "Record not found or you may not have permission."

  /** `error?.message || 'Record not found ...'`: the error's message unless it is missing or empty. */
  function UnassignErrorMessage<T>(outcome: StoreOutcome<T>): (m: string)
    requires !outcome.Success?
    ensures m != ""
    ensures outcome.Failure? && outcome.message != "" ==> m == outcome.message
  {
    if outcome.Failure? && outcome.message != "" then outcome.message else NotFoundMessage
  }

  class AppState {
    /** Whether the store client could be constructed. */
    const clientReady: bool
    const currentUser: Option<User>
    var reviews: seq<Review>
    var teams: seq<Team>
    var mentors: seq<Mentor>
    var error: Option<string>

    /** The load effect once its queries have answered: without a user or a client every list is
        empty; otherwise the reviews are normalised, and a non-admin gets no mentor list, and no
        team list when no review is assigned to them. */
    constructor (user: Option<User>, ready: bool, rawReviews: seq<RawReview>, loadedTeams: seq<Team>,
                 loadedMentors: seq<Mentor>)
      ensures clientReady == ready && currentUser == user && error == None
      ensures user.None? || !ready ==> reviews == [] && teams == [] && mentors == []
      ensures user.Some? && ready ==> reviews == NormaliseAll(rawReviews)
      ensures user.Some? && ready ==>
        teams == (if user.value.role != Some("admin") && rawReviews == [] then [] else loadedTeams)
      ensures user.Some? && ready ==> mentors == (if user.value.role == Some("admin") then loadedMentors else [])
    {
      clientReady := ready;
      currentUser := user;
      error := None;
      if user.None? || !ready {
        reviews := [];
        teams := [];
        mentors := [];
      } else {
        var isAdmin := user.value.role == Some("admin");
        reviews := NormaliseAll(rawReviews);
        teams := if !isAdmin && rawReviews == [] then [] else loadedTeams;
        mentors := if isAdmin then loadedMentors else [];
      }
    }

    /** `getReviewsForMentor`: the reviews assigned to one mentor, in list order. */
    function ReviewsForMentor(mentorId: string): (r: seq<Review>)
      reads this
      ensures forall x :: x in r <==> x in reviews && x.mentorId == mentorId
    {
      OfMentor(reviews, mentorId)
    }

    /** `addTeam`: appends the inserted row on success; records the message on an error. */
    method AddTeam(outcome: StoreOutcome<Team>) returns (added: Option<Team>)
      modifies this
      ensures !clientReady ==> added == None && unchanged(this)
      ensures clientReady && outcome.Success? ==> added == Some(outcome.row) && teams == old(teams) + [outcome.row]
                                                  && error == old(error)
      ensures clientReady && outcome.Failure? ==> added == None && teams == old(teams) && error == Some(outcome.message)
      ensures clientReady && outcome.NoRow? ==> added == None && teams == old(teams) && error == old(error)
      ensures reviews == old(reviews) && mentors == old(mentors)
    {
      if !clientReady {
        return None;
      }
      match outcome
      case Failure(message) =>
        error := Some(message);
        added := None;
      case NoRow =>
        added := None;
      case Success(row) =>
        teams := teams + [row];
        added := Some(row);
    }

    /** `assignMentorToTeam`: refuses a (team, mentor) pair that already has a review, sends a
        blank review otherwise, and appends the row the store returns. */
    method AssignMentorToTeam(teamId: string, mentorId: string, outcome: StoreOutcome<Review>)
      returns (sent: Option<NewReview>)
      modifies this
      ensures !clientReady || HasPair(old(reviews), teamId, mentorId) ==> sent == None && unchanged(this)
      ensures clientReady && !HasPair(old(reviews), teamId, mentorId) ==>
        sent == Some(NewReview(teamId, mentorId, BlankScores(), false, None))
      ensures sent.Some? && outcome.Success? ==> reviews == old(reviews) + [outcome.row] && error == old(error)
      ensures sent.Some? && outcome.Failure? ==> reviews == old(reviews) && error == Some(outcome.message)
      ensures sent.Some? && outcome.NoRow? ==> reviews == old(reviews) && error == old(error)
      ensures UniquePairs(old(reviews)) && (outcome.Success? ==> outcome.row.teamId == teamId && outcome.row.mentorId == mentorId)
        ==> UniquePairs(reviews)
      ensures teams == old(teams) && mentors == old(mentors)
    {
      if !clientReady {
        return None;
      }
      var existingAssignment := ExistingAssignment(reviews, teamId, mentorId);
      if existingAssignment.Some? {
        return None;
      }
      var newReview := NewReview(teamId, mentorId, BlankScores(), false, None);
      sent := Some(newReview);
      match outcome
      case Failure(message) =>
        error := Some(message);
      case NoRow =>
      case Success(insertedReview) =>
        if UniquePairs(reviews) && insertedReview.teamId == teamId && insertedReview.mentorId == mentorId {
          UniquePairsAppend(reviews, insertedReview);
        }
        reviews := reviews + [insertedReview];
    }

    /** `unassignMentorFromTeam`: removes the review at once, then restores the exact previous list
        if the store reports an error or deletes nothing. `shown` is the list between the two steps. */
    method UnassignMentorFromTeam(reviewId: int, outcome: StoreOutcome<Review>) returns (ghost shown: seq<Review>)
      modifies this
      ensures !clientReady ==> unchanged(this)
      ensures clientReady ==> shown == WithoutId(old(reviews), reviewId)
      ensures clientReady && outcome.Success? ==> reviews == WithoutId(old(reviews), reviewId) && error == old(error)
      ensures clientReady && !outcome.Success? ==> reviews == old(reviews) && error == Some(UnassignErrorMessage(outcome))
      ensures UniquePairs(old(reviews)) ==> UniquePairs(reviews)
      ensures teams == old(teams) && mentors == old(mentors)
    {
      shown := reviews;
      if !clientReady {
        return;
      }
      var originalReviews := reviews;
      reviews := WithoutId(reviews, reviewId);
      shown := reviews;
      if !outcome.Success? {
        error := Some(UnassignErrorMessage(outcome));
        reviews := originalReviews;
      } else if UniquePairs(originalReviews) {
        UniquePairsWithoutId(originalReviews, reviewId);
      }
    }

    /** `saveReviewUpdate`: needs a signed-in user; writes to the store first and, only when the
        store returns the updated row, puts that row in place of the review with that id. A failed
        save leaves `error` alone. */
    method SaveReviewUpdate(reviewId: int, newScores: seq<CriterionScore>, newStatus: bool, newComment: string,
                            outcome: StoreOutcome<Review>)
      returns (saved: bool, sent: Option<ReviewUpdate>)
      modifies this
      ensures currentUser.None? || !clientReady ==> !saved && sent == None && unchanged(this)
      ensures currentUser.Some? && clientReady ==>
        sent == Some(ReviewUpdate(reviewId, currentUser.value.id, newScores, newStatus, newComment))
      ensures saved <==> sent.Some? && outcome.Success?
      ensures saved ==> reviews == ReplaceById(old(reviews), reviewId, outcome.row)
      ensures !saved ==> reviews == old(reviews)
      ensures error == old(error) && teams == old(teams) && mentors == old(mentors)
    {
      if currentUser.None? || !clientReady {
        return false, None;
      }
      sent := Some(ReviewUpdate(reviewId, currentUser.value.id, newScores, newStatus, newComment));
      match outcome
      case Success(updatedReview) =>
        reviews := ReplaceById(reviews, reviewId, updatedReview);
        saved := true;
      case _ =>
        saved := false;
    }
  }

  /** Assigning the same mentor to the same team twice sends one insert, and the pair ends up with
      exactly one review whatever the second store call would have answered. */
  method AssignTwice(user: User, teamId: string, mentorId: string, first: Review, second: StoreOutcome<Review>)
    returns (firstSent: bool, secondSent: bool, reviewsAfter: seq<Review>)
    requires first.teamId == teamId && first.mentorId == mentorId
    ensures firstSent && !secondSent
    ensures reviewsAfter == [first]
  {
    var state := new AppState(Some(user), true, [], [], []);
    var sent1 := state.AssignMentorToTeam(teamId, mentorId, Success(first));
    assert HasPair(state.reviews, teamId, mentorId) by {
      assert state.reviews[0] == first;
    }
    var sent2 := state.AssignMentorToTeam(teamId, mentorId, second);
    firstSent, secondSent, reviewsAfter := sent1.Some?, sent2.Some?, state.reviews;
  }

  /** A failed unassign puts back exactly the list it started from. */
  method UnassignRollback(user: User, raws: seq<RawReview>, reviewId: int, message: string)
    returns (before: seq<Review>, after: seq<Review>, reported: Option<string>)
    ensures after == before == NormaliseAll(raws)
    ensures reported.Some? && reported.value != ""
  {
    var state := new AppState(Some(user), true, raws, [], []);
    before := state.reviews;
    var _ := state.UnassignMentorFromTeam(reviewId, Failure(message));
    after, reported := state.reviews, state.error;
  }
}
