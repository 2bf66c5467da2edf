# Review-scoring engine: a Dafny model

This project models the scoring core of a mentor review application. In the application:

- Mentors grade team proposals against a fixed weighted rubric.
- An administrator assigns mentors to teams and follows their progress.
- Everyone sees a leaderboard of teams ranked by their average weighted score.

The model covers the following:

- **The rubric.** Six criteria, with weights in hundredths (`constants.ts`).
- **The data hook.** `hooks/useAppData.ts`, on the `dfd5531` side of its merge conflicts, with these parts:
  - the weighted score of a review;
  - the leaderboard: tally, average, stable sort and ranks;
  - mentor progress;
  - the comments roster;
  - the load-time normalisation of review rows;
  - the state-changing operations `addTeam`, `assignMentorToTeam`, `unassignMentorFromTeam` and `saveReviewUpdate` on an `AppState` class.
- **The draft store.** `hooks/useDraftPersistence.ts`, as a `DraftStore` class with these parts:
  - a storage map;
  - an explicit clock;
  - a pending debounced write, which `Tick` fires.
- **The review form's rules.** `components/ReviewForm.tsx`: score parsing, displayed value, previewed total and the completion gate.
- **The Manage Data tab's state and derived views.** `components/AdminDashboard.tsx`: the picker, assign and unassign, progress, and comment-table padding.
- **Sign-in.** The login identifier (`components/LoginScreen.tsx`), and the profile name and `selectedReview` lookup of `App.tsx`.

Modelling choices:

- **Numbers.** Scores, weights and weighted scores are integers in hundredths, so `toFixed(2)` of a weighted score is exact. The leaderboard average `parseFloat((sum / count).toFixed(2))` is modelled as the integer nearest to sum / count, with halves rounded away from zero (`RoundedMean`).
- **Store calls.** Every store call is an outcome parameter: `Success(row)`, `Failure(message)` or `NoRow` (the store answered with neither a row nor an error).
- **Draft store time.** The clock (`Date.now()`) and the timer (`setTimeout`) are explicit state of the draft store.
- **Where the application's prose description and the code differ, the model follows the code.**
  - Completing a review requires every score to be set. It does not require a comment.
  - Load normalisation replaces only a `scores` value that is not an array. An array is kept as it is: missing criteria are not filled in and unknown ids are not dropped.

## Model

| member | source | states |
|---|---|---|
| Rubric.RubricIds | constants.ts:3-10 | exactly six criteria, ids c1..c6 in that order |
| Rubric.RubricIdsDistinct | constants.ts:4-9 | the criterion ids are pairwise distinct |
| Rubric.RubricWeightsPositive | constants.ts:4-9 | every weight is positive |
| Rubric.RubricWeightsSumToOne | constants.ts:4-9 | the weights sum to 1.00 (100 hundredths) |
| Rubric.FindCriterion | hooks/useAppData.ts:292 | `CRITERIA.find` by id: none iff no criterion has the id, else a criterion of the list with that id |
| Rubric.FindCriterionAt | hooks/useAppData.ts:292 | with distinct ids, looking up the k-th criterion's id finds exactly that criterion |
| Scoring.ReduceIsTotal | hooks/useAppData.ts:291-297 | the left-to-right `reduce` from an accumulator equals the accumulator plus the sum of all contributions |
| Scoring.WeightedSum | hooks/useAppData.ts:290-299 | the reduction from 0 equals the reference sum of score × weight over entries with a non-null score and a known criterion |
| Scoring.TotalAppend | hooks/useAppData.ts:291-297 | the weighted sum of a concatenation is the sum of the parts' weighted sums |
| Scoring.WeightedSumOfInert | hooks/useAppData.ts:293-296 | an empty list, or one whose entries are all null or unknown, scores 0 |
| Scoring.InertEntryIgnored | hooks/useAppData.ts:292-296 | removing a null entry or one with an unknown criterion id leaves the score unchanged |
| Scoring.WeightedSumMonotone | hooks/useAppData.ts:293-294 | raising one score (or setting a null one to a non-negative value) never lowers the score |
| Scoring.AlignedSuffixTotal | hooks/useAppData.ts:290-299 | for scores aligned with the criteria and in 1..5, each suffix scores between 0 and 5 × its weights; all-5 scores reach the maximum |
| Scoring.WeightedScore | hooks/useAppData.ts:290-299 | no contract of its own: `WeightedScoreBounds` states its range |
| Scoring.WeightedScoreBounds | hooks/useAppData.ts:290-299 | one score per criterion, each null or 1..5, gives 0.00..5.00; all-5 gives exactly 5.00 |
| Normalise.BlankFor | hooks/useAppData.ts:95 | `CRITERIA.map(...)`: one entry per criterion, same id, same order, null score |
| Normalise.BlankScores | hooks/useAppData.ts:202 | the blank score sheet is aligned with the rubric, in range, and all null |
| Normalise.BlankScoresWeighNothing | hooks/useAppData.ts:202 | a blank score sheet has weighted score 0 |
| Normalise.NormaliseScores | hooks/useAppData.ts:95 | an array is kept unchanged; anything else becomes the blank sheet |
| Normalise.NormaliseComment | hooks/useAppData.ts:96 | `comment ?? null`: absent or null gives null; any string, even empty, is kept |
| Normalise.NormaliseReview | hooks/useAppData.ts:93-97 | id, team, mentor and completion copied; scores and comment normalised |
| Normalise.NormaliseAll | hooks/useAppData.ts:127-131 | every row normalised, length and order kept |
| Normalise.NormaliseStored | hooks/useAppData.ts:93-97 | a review written back and read again loads unchanged |
| Normalise.NormaliseIdempotent | hooks/useAppData.ts:93-97 | normalising an already normalised list changes nothing |
| Queries.OfTeam | hooks/useAppData.ts:306 | `filter` by team id: exactly the reviews of that team |
| Queries.OfTeamSnoc | hooks/useAppData.ts:306 | one more review extends the team's list only if it belongs to the team |
| Queries.OfMentor | hooks/useAppData.ts:342 | `filter` by mentor id: exactly that mentor's reviews |
| Queries.OfMentorSnoc | hooks/useAppData.ts:342 | one more review extends the mentor's list only if it is theirs |
| Queries.CompletedOnly | hooks/useAppData.ts:343 | exactly the completed reviews |
| Queries.CompletedOnlySnoc | hooks/useAppData.ts:343 | one more review extends the completed list only when it is completed |
| Queries.WithoutId | hooks/useAppData.ts:226 | every review with that id is removed and no other |
| Queries.ReplaceById | hooks/useAppData.ts:275 | the list keeps its length |
| Queries.ReplaceByIdFrame | hooks/useAppData.ts:274-276 | positions with another id are unchanged; positions with that id hold the new row; with no such id the list is unchanged |
| Queries.FindMentor | hooks/useAppData.ts:310 | `mentors.find` by id: none iff no mentor has the id |
| Queries.DisplayName | hooks/useAppData.ts:358-360 | `mentor?.name \|\| 'Unknown Mentor'`: never empty; 'Unknown Mentor' for a missing mentor; a found mentor with a non-empty name is shown under that name; any other name is a listed mentor's name |
| Queries.ExistingAssignment | hooks/useAppData.ts:193 | none iff no review links the team and the mentor |
| Queries.UniquePairsAppend | hooks/useAppData.ts:217 | appending a review for a new pair keeps one review per pair |
| Queries.UniquePairsFilter | hooks/useAppData.ts:226 | filtering never creates a duplicate pair |
| Queries.UniquePairsWithoutId | hooks/useAppData.ts:226 | removing by id keeps pairs unique |
| Queries.UniquePairsReplace | hooks/useAppData.ts:274-276 | replacing by a row for the same pair keeps pairs unique |
| AppData.UnassignErrorMessage | hooks/useAppData.ts:236 | the message is never empty; it is the store's own message when there is a non-empty one |
| AppData.AppState.constructor | hooks/useAppData.ts:33-153 | without a user or a client all lists are empty; otherwise reviews normalised, mentors only for an admin, no teams for a non-admin without reviews |
| AppData.AppState.ReviewsForMentor | hooks/useAppData.ts:286-288 | exactly the reviews of that mentor |
| AppData.AppState.AddTeam | hooks/useAppData.ts:174-187 | success appends the row and returns it; an error records its message; no row changes nothing |
| AppData.AppState.AssignMentorToTeam | hooks/useAppData.ts:189-220 | an existing pair sends nothing and changes nothing; otherwise a blank, incomplete, comment-less review is sent; success appends the row, failure records the message; one review per pair is preserved |
| AppData.AppState.UnassignMentorFromTeam | hooks/useAppData.ts:222-243 | the optimistic list drops that id; success keeps it; an error or no row restores exactly the previous list and records a non-empty message |
| AppData.AppState.SaveReviewUpdate | hooks/useAppData.ts:245-284 | no user or client: false, nothing sent or changed; otherwise the update is sent with the user's id; true iff the store returns the row, which then replaces the review with that id; `error` untouched |
| AppData.AssignTwice | hooks/useAppData.ts:193-197 | assigning the same pair twice sends one insert and leaves exactly one review |
| AppData.UnassignRollback | hooks/useAppData.ts:235-238 | a failed unassign restores the loaded list exactly and reports a message |
| Leaderboard.CompletedScores | hooks/useAppData.ts:311-313 | one weighted score per completed review (its values: `CompletedScoresValues`) |
| Leaderboard.CompletedScoresValues | hooks/useAppData.ts:311-313 | the k-th score is the weighted score of the k-th completed review, in review order |
| Leaderboard.CompletedReviewers | hooks/useAppData.ts:314-316 | at most one reviewer per completed score (a missing mentor drops the name, not the score); its exact contents: `CompletedReviewersExact` |
| Leaderboard.CompletedReviewersExact | hooks/useAppData.ts:310-316 | one reviewer per completed review whose mentor is found, in review order: the k-th reviewer is the found name and weighted score of the k-th such review |
| Leaderboard.CompletedReviewersFrom | hooks/useAppData.ts:314-316 | every reviewer is the found mentor's name and the weighted score of some completed review of the team |
| Leaderboard.CompletedReviewersAllFound | hooks/useAppData.ts:310-316 | when every review's mentor is found, there is one reviewer per completed score, carrying that same score, in the same order |
| Leaderboard.CompletedSnoc | hooks/useAppData.ts:310-317 | visiting one more review pushes its score only when completed |
| Seqs.Sum | hooks/useAppData.ts:321 | no contract of its own: `SumSnoc` and `SumBounds` state the left-to-right `reduce` from 0 |
| Seqs.SumSnoc | hooks/useAppData.ts:321 | the reduce adds the last element to the sum of the rest |
| Seqs.SumBounds | hooks/useAppData.ts:321 | n values between lo and hi sum to between n·lo and n·hi |
| Leaderboard.RoundedMean | hooks/useAppData.ts:324 | the average is within half a hundredth of sum / count; an exact half rounds away from zero (down only for a negative sum, up only for a non-negative one) |
| Leaderboard.RoundedMeanBounds | hooks/useAppData.ts:324 | averaging scores in 0.00..5.00 stays in 0.00..5.00 |
| Leaderboard.TeamStanding | hooks/useAppData.ts:320-333 | total = the team's reviews, completed = its completed reviews ≤ total; average = the rounded mean of the weighted scores of its completed reviews, 0 when none; reviewers = the found mentors of its completed reviews; no reviews gives 0/0/0 |
| Leaderboard.Standings | hooks/useAppData.ts:320 | one standing per team, in `teams` order: entry k is the standing of `teams[k]` |
| Leaderboard.StandingOf | hooks/useAppData.ts:320-333 | no contract of its own: the standing it builds is stated by `TeamStanding` and `Standings` |
| Leaderboard.Board | hooks/useAppData.ts:301-338 | no contract of its own: `BoardOrdered`, `BoardPermutation`, `BoardStable` and `BoardAverageBounds` state the board |
| Leaderboard.InsertDesc | hooks/useAppData.ts:335 | inserting one standing lengthens the list by one |
| Leaderboard.SortDesc | hooks/useAppData.ts:335 | the sort keeps the length |
| Leaderboard.InsertDescPerm | hooks/useAppData.ts:335 | inserting adds exactly that entry |
| Leaderboard.SortDescPerm | hooks/useAppData.ts:335 | the sort is a permutation |
| Leaderboard.InsertDescSorted | hooks/useAppData.ts:335 | inserting keeps the list in descending average order |
| Leaderboard.SortDescSorted | hooks/useAppData.ts:335 | the sort yields non-increasing averages |
| Leaderboard.WithAverage | hooks/useAppData.ts:335 | the entries with one given average, in order |
| Leaderboard.InsertDescStable | hooks/useAppData.ts:335 | inserting puts an entry after every entry of equal average |
| Leaderboard.SortDescStable | hooks/useAppData.ts:335 | entries of equal average keep their input order |
| Leaderboard.InsertDescAt | hooks/useAppData.ts:335 | the insertion point is after the entries at or above the key's average |
| Leaderboard.InsertInPlace | hooks/useAppData.ts:335 | one in-place insertion step on the array equals inserting into the sorted prefix |
| Leaderboard.SortByAverage | hooks/useAppData.ts:335 | the in-place sort of the array yields the stable descending sort |
| Leaderboard.Ranked | hooks/useAppData.ts:337 | ranks are 1..n in list order |
| Leaderboard.PartialTallyStep | hooks/useAppData.ts:304-318 | visiting the i-th review updates the team's tally by one step |
| Leaderboard.EnterAt | hooks/useAppData.ts:305-317 | entering a review into the dictionary is, for each team, one visit of its entry |
| Leaderboard.TallyMapKeys | hooks/useAppData.ts:305-308 | the dictionary's keys are exactly the teams seen so far |
| Leaderboard.TallyMapValue | hooks/useAppData.ts:304-318 | after i reviews every team's entry is its partial tally over those reviews |
| Leaderboard.TallyMapComplete | hooks/useAppData.ts:302-318 | after all reviews the dictionary's keys are exactly the reviewed teams, each mapped to the tally of all its reviews |
| Leaderboard.TeamIds | hooks/useAppData.ts:305 | the team of every review is in the set |
| Leaderboard.TeamIdsWitness | hooks/useAppData.ts:305 | every team in the set has a review |
| Leaderboard.TallyReviews | hooks/useAppData.ts:302-318 | the loop's dictionary holds exactly the teams with reviews, each with the tally of all its reviews |
| Leaderboard.TeamTally | hooks/useAppData.ts:302-318 | no contract of its own: `TallyReviews` and `TallyMapComplete` state that each reviewed team's entry is this tally |
| Leaderboard.TeamTallyUnseen | hooks/useAppData.ts:321-331 | a team with no review has the empty tally |
| Leaderboard.ComputeLeaderboard | hooks/useAppData.ts:301-338 | the method's board equals the specification `Board` |
| Leaderboard.UnrankedRanked | hooks/useAppData.ts:337 | ranking only adds the rank |
| Leaderboard.BoardOrdered | hooks/useAppData.ts:320-337 | one entry per team, ranks 1..n, averages non-increasing |
| Leaderboard.BoardPermutation | hooks/useAppData.ts:320-335 | the entries are a permutation of the teams' standings, so every team appears |
| Leaderboard.BoardStable | hooks/useAppData.ts:335 | teams with equal averages keep their `teams` order |
| Leaderboard.CompletedScoresBounds | hooks/useAppData.ts:311-313 | with well-formed scores every weighted score is in 0.00..5.00 |
| Leaderboard.TeamStandingBounds | hooks/useAppData.ts:322-324 | with well-formed scores every average is in 0.00..5.00 |
| Leaderboard.BoardAverageBounds | hooks/useAppData.ts:320-337 | with well-formed scores every average on the board is in 0.00..5.00 |
| Aggregation.ProgressOf | hooks/useAppData.ts:341-349 | total = that mentor's reviews, completed = that mentor's completed reviews ≤ total |
| Aggregation.CompletedOfMentor | hooks/useAppData.ts:342-343 | filtering a mentor's reviews by completion equals filtering the completed reviews by mentor |
| Aggregation.MentorProgressData | hooks/useAppData.ts:340-351 | one row per mentor, in order: row k is `ProgressOf(mentors[k])`, total = that mentor's reviews, completed = that mentor's completed reviews ≤ total |
| Aggregation.HoldersOne | hooks/useAppData.ts:341-342 | with distinct ids, exactly one mentor holds a listed id |
| Aggregation.HoldersNone | hooks/useAppData.ts:341-342 | no mentor holds an unlisted id |
| Aggregation.TotalAssignedSnoc | hooks/useAppData.ts:340-351 | one more review raises the total column by the number of mentors with its id |
| Aggregation.TotalAssignedEmpty | hooks/useAppData.ts:340-351 | with no reviews the total column sums to 0 |
| Aggregation.ProgressPartitionsReviews | hooks/useAppData.ts:340-351 | with distinct mentor ids covering all reviews, the totals sum to the number of reviews |
| Aggregation.NameLeq | hooks/useAppData.ts:363 | no contract of its own: `NameLeqTotal`, `NameLeqReflexive` and `NameLeqTransitive` make it a total preorder |
| Aggregation.NameLeqTotal | hooks/useAppData.ts:363 | the name order is total |
| Aggregation.NameLeqReflexive | hooks/useAppData.ts:363 | the name order is reflexive |
| Aggregation.NameLeqTransitive | hooks/useAppData.ts:363 | the name order is transitive |
| Aggregation.CommentOrNull | hooks/useAppData.ts:361 | `comment \|\| null`: an empty or absent comment becomes null, any other is kept |
| Aggregation.CommentLines | hooks/useAppData.ts:357-362 | one line per review in order, with its display name and normalised comment |
| Aggregation.InsertByName | hooks/useAppData.ts:363 | inserting one line lengthens the list by one |
| Aggregation.SortByName | hooks/useAppData.ts:363 | the sort keeps the length |
| Aggregation.InsertByNamePerm | hooks/useAppData.ts:363 | inserting adds exactly that line |
| Aggregation.SortByNamePerm | hooks/useAppData.ts:363 | the sort is a permutation |
| Aggregation.InsertByNameSorted | hooks/useAppData.ts:363 | inserting keeps the lines sorted by name |
| Aggregation.SortByNameSorted | hooks/useAppData.ts:363 | the sort yields ascending names |
| Aggregation.InsertByNameStable | hooks/useAppData.ts:363 | inserting puts a line after all lines of the same name |
| Aggregation.SortByNameStable | hooks/useAppData.ts:363 | lines of the same name keep review order |
| Aggregation.CommentsOf | hooks/useAppData.ts:355-370 | rank and team copied from the entry; one line per review of the team |
| Aggregation.AdminCommentsData | hooks/useAppData.ts:353-371 | one block per leaderboard entry, in leaderboard order: block k is `CommentsOf(board[k])`, with its rank and team, its comments sorted by mentor name and a permutation of the team's comment lines |
| Aggregation.CommentsOfProperties | hooks/useAppData.ts:356-363 | each block is sorted by name, a permutation of the team's lines, stable per name |
| Text.LeadingWhitespace | hooks/useDraftPersistence.ts:72 | the whitespace prefix `trim` removes: all whitespace, and maximal |
| Text.TrailingWhitespace | hooks/useDraftPersistence.ts:72 | the whitespace suffix `trim` removes: all whitespace, and maximal |
| Text.Trim | hooks/useDraftPersistence.ts:72 | no contract of its own: `LeadingWhitespace`, `TrailingWhitespace` and `TrimEmptyIff` state what it removes |
| Text.TrimEmptyIff | hooks/useDraftPersistence.ts:72 | `comment.trim()` is empty iff the comment is whitespace only |
| Text.EndsWith | App.tsx:56 | no contract of its own: `ProfileName` and `ProfileNameRoundTrip` state the suffix test's effect |
| Text.ReplaceFirst | App.tsx:57 | no occurrence leaves the string unchanged; otherwise the first occurrence is replaced, the text before and after it kept |
| Text.IndexFrom | App.tsx:57 | `indexOf`: the first occurrence at or after the start, none when there is none |
| Decimal.DigitChar | hooks/useDraftPersistence.ts:14 | a digit character |
| Decimal.DigitValue | components/ReviewForm.tsx:21 | inverse of `DigitChar` |
| Decimal.NatToDecimal | hooks/useDraftPersistence.ts:14 | non-empty, digits only, no leading zero: it starts with '0' only for 0, which is "0" |
| Decimal.IntToDecimal | hooks/useDraftPersistence.ts:14 | non-empty, digits and sign only (no underscore); a leading '-' iff negative, followed by the digits of the magnitude; a non-negative number is its digits |
| Decimal.LeadingDigits | components/ReviewForm.tsx:21 | the longest all-digit prefix |
| Decimal.ParseInt | components/ReviewForm.tsx:21 | a number is read only where the text has a digit |
| Decimal.NatToDecimalValue | components/ReviewForm.tsx:37 | the digits of n denote n |
| Decimal.ParseIntRoundTrip | components/ReviewForm.tsx:21 | `parseInt(String(i), 10) == i` |
| Decimal.IntToDecimalInjective | hooks/useDraftPersistence.ts:14 | distinct integers have distinct spellings |
| Drafts.StorageKey | hooks/useDraftPersistence.ts:14 | starts with `review_draft_` and is longer than prefix and user id |
| Drafts.StorageKeyInjective | hooks/useDraftPersistence.ts:14 | distinct (user, review) pairs give distinct keys |
| Drafts.Loaded | hooks/useDraftPersistence.ts:17-37 | a draft iff the key holds a parseable draft not older than 24 h, and then that draft unchanged |
| Drafts.Expired | hooks/useDraftPersistence.ts:26-27 | no contract of its own: `AfterLoad` and `LoadAfterSave` state that a draft expires strictly after 24 h |
| Drafts.AfterLoad | hooks/useDraftPersistence.ts:26-30 | only an expired draft is removed |
| Drafts.LoadAfterSave | hooks/useDraftPersistence.ts:17-51 | a saved draft loads back unchanged up to exactly 24 h, then is removed |
| Drafts.DraftStore.constructor | hooks/useDraftPersistence.ts:13-14 | the key of the (user, review) pair, nothing pending |
| Drafts.DraftStore.LoadDraft | hooks/useDraftPersistence.ts:17-37 | returns `Loaded` and leaves `AfterLoad`; a failing storage yields none and changes nothing |
| Drafts.DraftStore.SaveDraft | hooks/useDraftPersistence.ts:40-51 | stores the content stamped with the current time; a failing storage changes nothing |
| Drafts.DraftStore.ClearDraft | hooks/useDraftPersistence.ts:54-60 | removes the key; a failing storage changes nothing |
| Drafts.HasContent | hooks/useDraftPersistence.ts:70-72 | no contract of its own: `DebouncedSave` and `BlankFormClears` state its effect, `TrimEmptyIff` ties it to `comment.trim()` |
| Drafts.DraftStore.DebouncedSave | hooks/useDraftPersistence.ts:65-83 | cancels the pending write; no content clears at once and schedules nothing; otherwise one write is scheduled 1000 ms later |
| Drafts.DraftStore.Tick | hooks/useDraftPersistence.ts:80-82 | a pending write due by the new time fires once; nothing else changes |
| Drafts.DraftStore.Teardown | hooks/useDraftPersistence.ts:86-92 | the pending write is cancelled |
| Drafts.SaveThenLoad | hooks/useDraftPersistence.ts:17-51 | save at t then load within 24 h gives exactly the saved scores, comment and t |
| Drafts.BurstKeepsLast | hooks/useDraftPersistence.ts:65-83 | two saves within the delay write only the second one's content |
| Drafts.ClearThenLoad | hooks/useDraftPersistence.ts:54-60 | after `clearDraft`, `loadDraft` returns nothing |
| Drafts.TeardownCancels | hooks/useDraftPersistence.ts:86-92 | after the cleanup nothing is written, however far the clock runs |
| Drafts.BlankFormClears | hooks/useDraftPersistence.ts:70-78 | no score and a whitespace-only comment remove the draft and schedule nothing |
| ReviewForm.HandleScoreChange | components/ReviewForm.tsx:20-27 | '' reports null; a parsed integer in 1..5 reports that integer; anything else reports nothing |
| ReviewForm.ScoreUpdatesAreWellFormed | components/ReviewForm.tsx:82-93 | updates carry a criterion id from the list and a null or 1..5 score |
| ReviewForm.RejectedInputs | components/ReviewForm.tsx:24 | "0", "6" and "abc" report nothing |
| ReviewForm.DisplayedScore | components/ReviewForm.tsx:83-92 | the first matching entry's score in decimal, '' when null or missing |
| ReviewForm.DisplayThenChangeRoundTrip | components/ReviewForm.tsx:83-93 | choosing the displayed value again reports the stored score |
| ReviewForm.FormatHundredths | components/ReviewForm.tsx:37 | `toFixed(2)`: the whole part's canonical digits, a point, two digits, denoting the total in hundredths |
| ReviewForm.WeightedTotal | components/ReviewForm.tsx:29-38 | the same weighted sum as `calculateWeightedScore`, over the form's criteria, written with two decimals |
| ReviewForm.PreviewCeiling | components/ReviewForm.tsx:111 | all six criteria at 5 show "5.00" |
| ReviewForm.AllScoresProvided | components/ReviewForm.tsx:40 | no contract of its own: `ToggleEnabled`, `EmptyScoresEnable` and `ClearingAScoreDisables` state the gate |
| ReviewForm.ToggleEnabled | components/ReviewForm.tsx:40 | enabled iff every score is non-null |
| ReviewForm.ToggleIgnoresStatusAndComment | components/ReviewForm.tsx:113-121 | the gate is the same whichever way it toggles and whatever the comment |
| ReviewForm.EmptyScoresEnable | components/ReviewForm.tsx:40 | an empty score list enables the toggle |
| ReviewForm.ClearingAScoreDisables | components/ReviewForm.tsx:115 | any null score disables the toggle |
| AdminDashboard.AssignedMentorIds | components/AdminDashboard.tsx:208-209 | an id is in the set iff that mentor has a review of the team |
| AdminDashboard.UnassignedMentors | components/AdminDashboard.tsx:210 | exactly the mentors without a review of the team |
| AdminDashboard.PickerOffersOnlyNewPairs | components/AdminDashboard.tsx:208-210 | a picked mentor passes the duplicate check of the assign operation |
| AdminDashboard.PickerForUnreviewedTeam | components/AdminDashboard.tsx:210 | a team without reviews is offered every mentor, in order |
| AdminDashboard.Progress | components/AdminDashboard.tsx:84 | 0 when the total is 0, else completed / total × 100, within 0..100 when completed ≤ total |
| AdminDashboard.ProgressBarsInRange | components/AdminDashboard.tsx:83-101 | every bar is within 0..100, and full when all reviews are complete |
| AdminDashboard.MaxComments | components/AdminDashboard.tsx:114 | at least every team's count, 0 for no teams, and attained by some team |
| AdminDashboard.CommentCells | components/AdminDashboard.tsx:139-153 | exactly `maxComments` cells, filled with the team's comments in order, placeholders after |
| AdminDashboard.CommentTableComplete | components/AdminDashboard.tsx:124-153 | every row is as wide as the header and shows each of its comments at its position |
| AdminDashboard.ManageData.constructor | components/AdminDashboard.tsx:163-164 | nothing selected, nothing pending |
| AdminDashboard.ManageData.SelectedValue | components/AdminDashboard.tsx:255 | the team's selection, or '' |
| AdminDashboard.ManageData.SelectMentor | components/AdminDashboard.tsx:166-168 | sets that team's selection only |
| AdminDashboard.ManageData.HandleAssign | components/AdminDashboard.tsx:170-178 | no selection: no call, nothing changes; otherwise one call with the selection, that team reset to '', other teams untouched |
| AdminDashboard.ManageData.RequestUnassign | components/AdminDashboard.tsx:238 | the review waits for confirmation |
| AdminDashboard.ManageData.CancelUnassign | components/AdminDashboard.tsx:164 | nothing waits for confirmation |
| AdminDashboard.ManageData.HandleConfirmUnassign | components/AdminDashboard.tsx:180-185 | a pending review's id is sent once and cleared; nothing pending sends nothing |
| AdminDashboard.AssignPressedTwice | components/AdminDashboard.tsx:170-178 | pressing Assign twice after one selection sends one call |
| AdminDashboard.ConfirmPressedTwice | components/AdminDashboard.tsx:180-185 | confirming twice unassigns once |
| AdminDashboard.PickAndAssign | components/AdminDashboard.tsx:170-178 | a picked mentor's assignment is sent, and on success the team gains exactly that review |
| Login.LoginIdentifier | components/LoginScreen.tsx:19 | input with '@' is kept; otherwise '@review.app' is appended; the result contains '@' |
| Login.LoginIdentifierIdempotent | components/LoginScreen.tsx:19 | deriving twice equals deriving once |
| Login.UsernameAndAddressAgree | components/LoginScreen.tsx:19 | a username and its full address sign in as the same account |
| App.IsAdmin | App.tsx:56 | no contract of its own: `AdminKeepsAddress` states its effect on the profile name |
| App.ProfileName | App.tsx:55-58 | no or empty email gives 'New Mentor'; an admin keeps the email; an email not ending in '@review.app' is kept |
| App.NewMentorProfile | App.tsx:60-66 | the user's id, the derived name, and `isInternal` iff the role is admin |
| App.IndexOfAppendedDomain | App.tsx:57 | in a username plus '@review.app', the first '@review.app' starts right after the username |
| App.ProfileNameRoundTrip | App.tsx:55-58 | a non-admin signing in with a username gets that username back as the profile name |
| App.AdminKeepsAddress | App.tsx:56 | an admin's profile name is the full address |
| App.SelectedReview | App.tsx:205 | no team (null or '') selects nothing; otherwise the user's review of that team, none iff there is none |
| App.SelectedReviewIsTheAssignment | App.tsx:205 | with one review per pair, the selected review is the user's only review of that team, and one of their own reviews |

## Left out

- Store access (hooks/useAppData.ts:44-164, App.tsx:41-75): the load effect's fetch sequencing, `Promise.all` and its error paths are not modelled. The constructor of `AppState` takes the rows the queries return. The profile fetch and insert of `getOrCreateMentorProfile` are not modelled either; only the row it would insert is.
- Loading flags, toasts, `alert` and console output are not modelled: they do not change the modelled state.
- Floating point: weights and scores are exact integers in hundredths. The leaderboard average rounds halves away from zero. This matches `toFixed(2)` on an exact quotient, but not the binary rounding of IEEE doubles.
- AdminDashboard.Progress: the percentage is a real number; the `toFixed(0)` label is not modelled.
- Aggregation.SortByName: `localeCompare` is modelled as code-point lexicographic order, not a locale's collation.
- Async interleavings and stale closures are not modelled. Each operation is one atomic step, so unassign's rollback restores the list the call started from.
- Drafts.Loaded: a stored value that does not parse as JSON is `Corrupt`; JSON itself is not modelled. Strings are sequences of characters, not UTF-16 code units.
- Drafts.DraftStore.Tick: the timer is a pending write fired by `Tick`. A write that fires stamps the draft with its deadline, the earliest time it can fire; the code stamps `Date.now()` when the timer runs, which can be later. Storage that throws is a constant `available` flag that makes every access a no-op.
- Clearing a draft after a successful save is not modelled, because the code does not do it.
- A "comment required" rule is not modelled, because the code does not have one. Filling or dropping score entries of an array `scores` is not modelled, for the same reason.
- App.ProfileName: `replace` removes the first occurrence of '@review.app'. For an address that holds the domain twice, the name keeps the later occurrence; the model keeps this behaviour rather than stripping the suffix.
- AdminDashboard.ManageData: the class models one mounted instance. `ManageData` is declared inside the dashboard's render (components/AdminDashboard.tsx:162), so each re-render of the dashboard, including the one after every assign or unassign, remounts it and resets `selectedMentor` to `{}` and `reviewToUnassign` to null. The model keeps that state across operations.
- Leaderboard.TallyReviews: `teamScores` is a plain object (hooks/useAppData.ts:302-315), so a team id that names an `Object.prototype` member such as "constructor" makes `!teamScores[id]` false and the `push` throw. The model's map has no such keys.
- Tab state, the proposal modal and all markup are not modelled. The score colours of the leaderboard are not modelled either.
