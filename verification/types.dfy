/** The record shapes of types.ts. Scores are integers (1..5 in the rubric) or absent. */
module Types {
  import opened Wrappers

  datatype CriterionScore = CriterionScore(criterionId: string, score: Option<int>)

  datatype Team = Team(id: string, name: string, candidateId: string, proposalDetails: string,
                       proposalLink: Option<string>)

  datatype Mentor = Mentor(id: string, name: string, isInternal: bool)

  /** The signed-in user: its id, its email and the `role` of its metadata. */
  datatype User = User(id: string, email: Option<string>, role: Option<string>)

  /** One mentor's review of one team; `id` is assigned by the store. */
  datatype Review = Review(id: int, teamId: string, mentorId: string, scores: seq<CriterionScore>,
                           isCompleted: bool, comment: Option<string>)

  /** A completed reviewer's name and weighted score (in hundredths) on the leaderboard. */
  datatype Reviewer = Reviewer(name: string, score: int)

  datatype LeaderboardEntry = LeaderboardEntry(rank: nat, team: Team, averageScore: int,
                                               reviewers: seq<Reviewer>, completedReviews: nat,
                                               totalReviews: nat)

  datatype MentorProgress = MentorProgress(mentor: Mentor, completedReviews: nat, totalReviews: nat)

  datatype CommentLine = CommentLine(mentorName: string, comment: Option<string>)

  datatype AdminCommentData = AdminCommentData(rank: nat, team: Team, comments: seq<CommentLine>)
}
