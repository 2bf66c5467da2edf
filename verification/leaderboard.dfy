/** The leaderboard of useAppData.ts: a per-team tally built in one pass over the reviews, one
    standing per team, a stable sort by descending average and 1-based ranks. Scores are in
    hundredths. */
module Leaderboard {
  import opened Wrappers
  import opened Types
  import opened Seqs
  import opened Queries
  import opened Scoring

  /** One value of the source's `teamScores` dictionary. */
  datatype Tally = Tally(scores: seq<int>, reviewers: seq<Reviewer>, totalReviews: nat)

  /** A leaderboard entry before it is ranked. */
  datatype Standing = Standing(team: Team, averageScore: int, reviewers: seq<Reviewer>,
                               completedReviews: nat, totalReviews: nat)

  /** The weighted scores of the completed reviews, in list order. */
  function CompletedScores(rs: seq<Review>): (r: seq<int>)
    ensures |r| == |CompletedOnly(rs)|
    decreases |rs|
  {
    if rs == [] then []
    else
      var init, last := rs[..|rs| - 1], rs[|rs| - 1];
      assert rs == init + [last];
      CompletedOnlySnoc(init, last);
      CompletedScores(init) + (if last.isCompleted then [WeightedScore(last.scores)] else [])
  }

  /** Name and weighted score of each completed review whose mentor is found; a review whose
      mentor is missing keeps its score in `CompletedScores` but adds no reviewer. */
  function CompletedReviewers(rs: seq<Review>, mentors: seq<Mentor>): (r: seq<Reviewer>)
    ensures |r| <= |CompletedScores(rs)|
    decreases |rs|
  {
    if rs == [] then []
    else
      var init, last := rs[..|rs| - 1], rs[|rs| - 1];
      var mentor := FindMentor(mentors, last.mentorId);
      CompletedReviewers(init, mentors)
        + (if last.isCompleted && mentor.Some? then [Reviewer(mentor.value.name, WeightedScore(last.scores))] else [])
  }

  /** The k-th completed score is the weighted score of the k-th completed review. */
  lemma {:induction false} CompletedScoresValues(rs: seq<Review>)
    ensures forall k :: 0 <= k < |CompletedScores(rs)| ==>
      CompletedScores(rs)[k] == WeightedScore(CompletedOnly(rs)[k].scores)
    decreases |rs|
  {
    if rs != [] {
      var init, last := rs[..|rs| - 1], rs[|rs| - 1];
      assert rs == init + [last];
      CompletedScoresValues(init);
      CompletedOnlySnoc(init, last);
      CompletedSnoc(init, last, []);
    }
  }

  /** `rv` is what the tally pushes for review `x`: its mentor's name and its weighted score,
      for a completed review whose mentor is found. */
  predicate IsReviewerOf(rv: Reviewer, x: Review, mentors: seq<Mentor>)
  {
    x.isCompleted && FindMentor(mentors, x.mentorId).Some?
    && rv == Reviewer(FindMentor(mentors, x.mentorId).value.name, WeightedScore(x.scores))
  }

  /** Every reviewer is the found mentor's name with the weighted score of a completed review. */
  lemma {:induction false} CompletedReviewersFrom(rs: seq<Review>, mentors: seq<Mentor>)
    ensures forall k :: 0 <= k < |CompletedReviewers(rs, mentors)| ==>
      exists j :: 0 <= j < |rs| && IsReviewerOf(CompletedReviewers(rs, mentors)[k], rs[j], mentors)
    decreases |rs|
  {
    if rs != [] {
      var init, last := rs[..|rs| - 1], rs[|rs| - 1];
      assert rs == init + [last];
      CompletedReviewersFrom(init, mentors);
      CompletedSnoc(init, last, mentors);
      var previous := CompletedReviewers(init, mentors);
      var r := CompletedReviewers(rs, mentors);
      forall k | 0 <= k < |r|
        ensures exists j :: 0 <= j < |rs| && IsReviewerOf(r[k], rs[j], mentors)
      {
        if k < |previous| {
          var j :| 0 <= j < |init| && IsReviewerOf(previous[k], init[j], mentors);
          assert rs[j] == init[j];
        } else {
          assert IsReviewerOf(r[k], rs[|rs| - 1], mentors);
        }
      }
    } else {
      assert CompletedReviewers(rs, mentors) == [];
    }
  }

  /** When every review's mentor is found, there is one reviewer per completed review, in order,
      each carrying that review's weighted score. */
  lemma {:induction false} CompletedReviewersAllFound(rs: seq<Review>, mentors: seq<Mentor>)
    requires forall j :: 0 <= j < |rs| ==> FindMentor(mentors, rs[j].mentorId).Some?
    ensures |CompletedReviewers(rs, mentors)| == |CompletedScores(rs)|
    ensures forall k :: 0 <= k < |CompletedScores(rs)| ==>
      CompletedReviewers(rs, mentors)[k].score == CompletedScores(rs)[k]
    decreases |rs|
  {
    if rs != [] {
      var init, last := rs[..|rs| - 1], rs[|rs| - 1];
      assert rs == init + [last];
      assert forall j :: 0 <= j < |init| ==> init[j] == rs[j];
      CompletedReviewersAllFound(init, mentors);
      CompletedSnoc(init, last, mentors);
      assert FindMentor(mentors, last.mentorId).Some?;
    }
  }

  /** The completed reviews whose mentor is found: the ones the `if (mentor)` lets through. */
  function FoundCompleted(rs: seq<Review>, mentors: seq<Mentor>): seq<Review>
  {
    Filter(rs, (x: Review) => x.isCompleted && FindMentor(mentors, x.mentorId).Some?)
  }

  /** The reviewers are exactly the completed reviews with a found mentor, in review order: the
      k-th reviewer is the name and weighted score of the k-th such review. */
  lemma {:induction false} CompletedReviewersExact(rs: seq<Review>, mentors: seq<Mentor>)
    ensures |CompletedReviewers(rs, mentors)| == |FoundCompleted(rs, mentors)|
    ensures forall k :: 0 <= k < |FoundCompleted(rs, mentors)| ==>
      IsReviewerOf(CompletedReviewers(rs, mentors)[k], FoundCompleted(rs, mentors)[k], mentors)
    decreases |rs|
  {
    if rs != [] {
      var init, last := rs[..|rs| - 1], rs[|rs| - 1];
      assert rs == init + [last];
      CompletedReviewersExact(init, mentors);
      CompletedSnoc(init, last, mentors);
      FilterSnoc(init, last, (x: Review) => x.isCompleted && FindMentor(mentors, x.mentorId).Some?);
      var previous, found := CompletedReviewers(init, mentors), FoundCompleted(init, mentors);
      var r, f := CompletedReviewers(rs, mentors), FoundCompleted(rs, mentors);
      if last.isCompleted && FindMentor(mentors, last.mentorId).Some? {
        assert f == found + [last];
        assert r == previous + [Reviewer(FindMentor(mentors, last.mentorId).value.name, WeightedScore(last.scores))];
        assert IsReviewerOf(r[|f| - 1], f[|f| - 1], mentors);
      } else {
        assert f == found;
        assert r == previous;
      }
    } else {
      assert CompletedReviewers(rs, mentors) == [];
      assert FoundCompleted(rs, mentors) == [];
    }
  }

  lemma CompletedSnoc(rs: seq<Review>, x: Review, mentors: seq<Mentor>)
    ensures CompletedScores(rs + [x]) == CompletedScores(rs) + (if x.isCompleted then [WeightedScore(x.scores)] else [])
    ensures CompletedReviewers(rs + [x], mentors) == CompletedReviewers(rs, mentors)
              + (if x.isCompleted && FindMentor(mentors, x.mentorId).Some?
                 then [Reviewer(FindMentor(mentors, x.mentorId).value.name, WeightedScore(x.scores))] else [])
  {
    assert (rs + [x])[..|rs|] == rs;
  }

  /** The tally of a team once `reviews[..i]` have been visited. `totalReviews` always counts the
      whole list: the source fills it in with a filter when the team is first seen. */
  function PartialTally(reviews: seq<Review>, i: nat, teamId: string, mentors: seq<Mentor>): Tally
    requires i <= |reviews|
  {
    var rs := OfTeam(reviews[..i], teamId);
    Tally(CompletedScores(rs), CompletedReviewers(rs, mentors), |OfTeam(reviews, teamId)|)
  }

  /** Reference definition: the tally of a team from all of its reviews. */
  function TeamTally(reviews: seq<Review>, teamId: string, mentors: seq<Mentor>): Tally
  {
    var rs := OfTeam(reviews, teamId);
    Tally(CompletedScores(rs), CompletedReviewers(rs, mentors), |rs|)
  }

  const NoTally: Tally := Tally([], [], 0)

  /** `parseFloat((sum / count).toFixed(2))` on hundredths: the nearest integer to sum / count,
      halves rounded away from zero. */
  function RoundedMean(sum: int, count: nat): (r: int)
    requires count > 0
    ensures 2 * sum - count <= 2 * count * r <= 2 * sum + count
    ensures 2 * count * r == 2 * sum - count ==> sum < 0
    ensures 2 * count * r == 2 * sum + count ==> sum >= 0
  {
    if sum >= 0 then
      var q := (2 * sum + count) / (2 * count);
      assert 2 * sum + count == q * (2 * count) + (2 * sum + count) % (2 * count);
      q
    else
      var q := (-2 * sum + count) / (2 * count);
      assert -2 * sum + count == q * (2 * count) + (-2 * sum + count) % (2 * count);
      -q
  }

  /** The mean of weighted scores that all lie in 0..500 (0.00..5.00) lies in 0..500 too. */
  lemma RoundedMeanBounds(scores: seq<int>)
    requires |scores| > 0
    requires forall k :: 0 <= k < |scores| ==> 0 <= scores[k] <= 500
    ensures 0 <= RoundedMean(Sum(scores), |scores|) <= 500
  {
    SumBounds(scores, 0, 500);
    var r := RoundedMean(Sum(scores), |scores|);
    var c := |scores|;
    if r > 500 {
      assert 2 * c * r >= 2 * c * 501 by { MulLeft(2 * c, 501, r); }
    }
    if r < 0 {
      assert 2 * c * r <= 2 * c * (-1) by { MulLeft(2 * c, r, -1); }
    }
  }

  lemma MulLeft(c: nat, a: int, b: int)
    requires a <= b
    ensures c * a <= c * b
  {
    assert c * b - c * a == c * (b - a);
  }

  /** `teams.map(team => ...)`: the unranked entry of one team from its tally (or none). */
  function StandingOf(team: Team, t: Tally): Standing
  {
    var count := |t.scores|;
    var average := if count > 0 then RoundedMean(Sum(t.scores), count) else 0;
    Standing(team, average, t.reviewers, count, t.totalReviews)
  }

  /** The standing of one team. */
  function TeamStanding(team: Team, reviews: seq<Review>, mentors: seq<Mentor>): (s: Standing)
    ensures s.team == team
    ensures s.totalReviews == |OfTeam(reviews, team.id)|
    ensures s.completedReviews == |CompletedOnly(OfTeam(reviews, team.id))| <= s.totalReviews
    ensures |s.reviewers| <= s.completedReviews
    ensures s.completedReviews == 0 ==> s.averageScore == 0
    ensures s.completedReviews > 0 ==>
      s.averageScore == RoundedMean(Sum(CompletedScores(OfTeam(reviews, team.id))), s.completedReviews)
    ensures s.reviewers == CompletedReviewers(OfTeam(reviews, team.id), mentors)
    ensures s.totalReviews == 0 ==> s.completedReviews == 0 && s.reviewers == []
  {
    StandingOf(team, TeamTally(reviews, team.id, mentors))
  }

  /** `teams.map(...)`: one standing per team, in `teams` order. */
  function Standings(teams: seq<Team>, reviews: seq<Review>, mentors: seq<Mentor>): (s: seq<Standing>)
    ensures |s| == |teams|
    ensures forall k :: 0 <= k < |teams| ==> s[k] == TeamStanding(teams[k], reviews, mentors)
  {
    seq(|teams|, k requires 0 <= k < |teams| => TeamStanding(teams[k], reviews, mentors))
  }

  // ----- the stable descending sort -----

  /** Insert `x` into a list sorted by descending average, after every entry whose average is at
      least as high (the position a stable insertion sort gives it). */
  function InsertDesc(s: seq<Standing>, x: Standing): (r: seq<Standing>)
    ensures |r| == |s| + 1
    decreases |s|
  {
    if s == [] || s[|s| - 1].averageScore >= x.averageScore then s + [x]
    else
      var init := s[..|s| - 1];
      assert s == init + [s[|s| - 1]];
      InsertDesc(init, x) + [s[|s| - 1]]
  }

  /** Stable sort by descending average: insert the entries one by one, left to right. */
  function SortDesc(s: seq<Standing>): (r: seq<Standing>)
    ensures |r| == |s|
    decreases |s|
  {
    if s == [] then []
    else
      var init := s[..|s| - 1];
      assert s == init + [s[|s| - 1]];
      InsertDesc(SortDesc(init), s[|s| - 1])
  }

  lemma {:induction false} InsertDescPerm(s: seq<Standing>, x: Standing)
    ensures multiset(InsertDesc(s, x)) == multiset(s) + multiset{x}
    decreases |s|
  {
    if !(s == [] || s[|s| - 1].averageScore >= x.averageScore) {
      var init := s[..|s| - 1];
      assert s == init + [s[|s| - 1]];
      InsertDescPerm(init, x);
    }
  }

  lemma {:induction false} SortDescPerm(s: seq<Standing>)
    ensures multiset(SortDesc(s)) == multiset(s)
    decreases |s|
  {
    if s != [] {
      var init := s[..|s| - 1];
      assert s == init + [s[|s| - 1]];
      SortDescPerm(init);
      InsertDescPerm(SortDesc(init), s[|s| - 1]);
    }
  }

  predicate SortedDesc(s: seq<Standing>)
  {
    forall i, j :: 0 <= i < j < |s| ==> s[i].averageScore >= s[j].averageScore
  }

  lemma {:induction false} InsertDescSorted(s: seq<Standing>, x: Standing)
    requires SortedDesc(s)
    ensures SortedDesc(InsertDesc(s, x))
    decreases |s|
  {
    if !(s == [] || s[|s| - 1].averageScore >= x.averageScore) {
      var init := s[..|s| - 1];
      var last := s[|s| - 1];
      InsertDescSorted(init, x);
      var r := InsertDesc(init, x);
      InsertDescPerm(init, x);
      forall k | 0 <= k < |r| ensures r[k].averageScore >= last.averageScore {
        assert r[k] in multiset(init) + multiset{x};
        if r[k] != x {
          assert r[k] in init;
        }
      }
    }
  }

  lemma {:induction false} SortDescSorted(s: seq<Standing>)
    ensures SortedDesc(SortDesc(s))
    decreases |s|
  {
    if s != [] {
      SortDescSorted(s[..|s| - 1]);
      InsertDescSorted(SortDesc(s[..|s| - 1]), s[|s| - 1]);
    }
  }

  /** The entries whose average equals `v`, in order. */
  function WithAverage(s: seq<Standing>, v: int): (r: seq<Standing>)
    ensures forall e :: e in r <==> e in s && e.averageScore == v
    decreases |s|
  {
    if s == [] then []
    else
      var init := s[..|s| - 1];
      assert s == init + [s[|s| - 1]];
      WithAverage(init, v) + (if s[|s| - 1].averageScore == v then [s[|s| - 1]] else [])
  }

  lemma WithAverageSnoc(s: seq<Standing>, x: Standing, v: int)
    ensures WithAverage(s + [x], v) == WithAverage(s, v) + (if x.averageScore == v then [x] else [])
  {
    assert (s + [x])[..|s|] == s;
  }

  lemma {:induction false} InsertDescStable(s: seq<Standing>, x: Standing, v: int)
    ensures WithAverage(InsertDesc(s, x), v) == WithAverage(s, v) + (if x.averageScore == v then [x] else [])
    decreases |s|
  {
    if s == [] || s[|s| - 1].averageScore >= x.averageScore {
      WithAverageSnoc(s, x, v);
    } else {
      var init := s[..|s| - 1];
      var last := s[|s| - 1];
      assert s == init + [last];
      assert InsertDesc(s, x) == InsertDesc(init, x) + [last];
      InsertDescStable(init, x, v);
      WithAverageSnoc(InsertDesc(init, x), last, v);
      WithAverageSnoc(init, last, v);
      if x.averageScore == v {
        assert last.averageScore != v;
        assert WithAverage(s, v) == WithAverage(init, v);
        assert WithAverage(InsertDesc(s, x), v) == WithAverage(InsertDesc(init, x), v);
      } else {
        assert WithAverage(InsertDesc(init, x), v) == WithAverage(init, v);
      }
    }
  }

  /** Stability: for every average, the entries with that average keep their input order. */
  lemma {:induction false} SortDescStable(s: seq<Standing>, v: int)
    ensures WithAverage(SortDesc(s), v) == WithAverage(s, v)
    decreases |s|
  {
    if s != [] {
      var init := s[..|s| - 1];
      var last := s[|s| - 1];
      assert s == init + [last];
      SortDescStable(init, v);
      InsertDescStable(SortDesc(init), last, v);
      WithAverageSnoc(init, last, v);
    }
  }

  /** Where `InsertDesc` puts `key`: after the entries at or above its average, before the
      lower run at the end. */
  lemma {:induction false} InsertDescAt(s: seq<Standing>, j: nat, key: Standing)
    requires j <= |s|
    requires j == 0 || s[j - 1].averageScore >= key.averageScore
    requires forall k :: j <= k < |s| ==> s[k].averageScore < key.averageScore
    ensures InsertDesc(s, key) == s[..j] + [key] + s[j..]
    decreases |s|
  {
    if j < |s| {
      var init := s[..|s| - 1];
      InsertDescAt(init, j, key);
      assert init[..j] == s[..j];
      assert init[j..] + [s[|s| - 1]] == s[j..];
    }
  }

  lemma SortDescSnoc(s: seq<Standing>, i: nat)
    requires i < |s|
    ensures SortDesc(s[..i + 1]) == InsertDesc(SortDesc(s[..i]), s[i])
  {
    assert s[..i + 1][..i] == s[..i];
  }

  lemma Spliced(r: seq<Standing>, s: seq<Standing>, j: nat, key: Standing)
    requires j <= |s| && |r| == |s| + 1
    requires forall k :: 0 <= k < j ==> r[k] == s[k]
    requires r[j] == key
    requires forall k :: j < k < |r| ==> r[k] == s[k - 1]
    ensures r == s[..j] + [key] + s[j..]
  {
  }

  /** One pass of the insertion sort: moves `a[i]` left past every entry with a lower average. */
  method InsertInPlace(a: array<Standing>, i: nat)
    requires i < a.Length
    modifies a
    ensures a[..i + 1] == InsertDesc(old(a[..i]), old(a[i]))
    ensures forall k :: i < k < a.Length ==> a[k] == old(a[k])
  {
    var key := a[i];
    ghost var sorted := a[..i];
    var j := i;
    while j > 0 && a[j - 1].averageScore < key.averageScore
      invariant 0 <= j <= i
      invariant forall k :: 0 <= k < j ==> a[k] == sorted[k]
      invariant forall k :: j < k <= i ==> a[k] == sorted[k - 1]
      invariant forall k :: i < k < a.Length ==> a[k] == old(a[k])
      invariant forall k :: j <= k < i ==> sorted[k].averageScore < key.averageScore
    {
      a[j] := a[j - 1];
      j := j - 1;
    }
    a[j] := key;
    InsertDescAt(sorted, j, key);
    Spliced(a[..i + 1], sorted, j, key);
  }

  /** `leaderboard.sort((a, b) => b.averageScore - a.averageScore)`, in place: a stable insertion sort. */
  method SortByAverage(a: array<Standing>)
    modifies a
    ensures a[..] == SortDesc(old(a[..]))
  {
    ghost var input := a[..];
    var i := 0;
    while i < a.Length
      invariant 0 <= i <= a.Length
      invariant a[..i] == SortDesc(input[..i])
      invariant forall k :: i <= k < a.Length ==> a[k] == input[k]
    {
      InsertInPlace(a, i);
      SortDescSnoc(input, i);
      i := i + 1;
    }
    assert a[..] == a[..a.Length];
    assert input == input[..a.Length];
  }

  /** `leaderboard.map((entry, index) => ({ ...entry, rank: index + 1 }))`. */
  function Ranked(s: seq<Standing>): (r: seq<LeaderboardEntry>)
    ensures |r| == |s|
    ensures forall k :: 0 <= k < |s| ==> r[k].rank == k + 1
  {
    seq(|s|, k requires 0 <= k < |s| =>
      LeaderboardEntry(k + 1, s[k].team, s[k].averageScore, s[k].reviewers, s[k].completedReviews, s[k].totalReviews))
  }

  /** The leaderboard as a function of teams, reviews and mentors. */
  function Board(teams: seq<Team>, reviews: seq<Review>, mentors: seq<Mentor>): seq<LeaderboardEntry>
  {
    Ranked(SortDesc(Standings(teams, reviews, mentors)))
  }

  /** What visiting one review does to the dictionary entry of `teamId` (the body of the `forEach`). */
  function Visit(t: Tally, x: Review, teamId: string, mentors: seq<Mentor>): Tally
  {
    if x.teamId != teamId || !x.isCompleted then t
    else
      var w := WeightedScore(x.scores);
      var m := FindMentor(mentors, x.mentorId);
      Tally(t.scores + [w], if m.Some? then t.reviewers + [Reviewer(m.value.name, w)] else t.reviewers, t.totalReviews)
  }

  lemma PartialTallyStep(reviews: seq<Review>, i: nat, teamId: string, mentors: seq<Mentor>)
    requires 0 < i <= |reviews|
    ensures PartialTally(reviews, i, teamId, mentors) == Visit(PartialTally(reviews, i - 1, teamId, mentors), reviews[i - 1], teamId, mentors)
  {
    var x := reviews[i - 1];
    var rs := OfTeam(reviews[..i - 1], teamId);
    assert reviews[..i] == reviews[..i - 1] + [x];
    OfTeamSnoc(reviews[..i - 1], x, teamId);
    if x.teamId == teamId {
      assert OfTeam(reviews[..i], teamId) == rs + [x];
      CompletedSnoc(rs, x, mentors);
    } else {
      assert OfTeam(reviews[..i], teamId) == rs;
    }
  }

  /** The entry of `tid` in the dictionary, or the fresh entry the `forEach` creates for it. */
  function EntryOf(m: map<string, Tally>, tid: string, reviews: seq<Review>): Tally
  {
    if tid in m then m[tid] else Tally([], [], |OfTeam(reviews, tid)|)
  }

  /** The dictionary update for one review: its team's entry, created empty when missing, is
      `Visit`ed. */
  function Enter(m: map<string, Tally>, x: Review, reviews: seq<Review>, mentors: seq<Mentor>): map<string, Tally>
  {
    m[x.teamId := Visit(EntryOf(m, x.teamId, reviews), x, x.teamId, mentors)]
  }

  /** Seen from any one team, entering a review is a `Visit` of that team's entry. */
  lemma EnterAt(m: map<string, Tally>, x: Review, reviews: seq<Review>, mentors: seq<Mentor>, tid: string)
    ensures EntryOf(Enter(m, x, reviews, mentors), tid, reviews) == Visit(EntryOf(m, tid, reviews), x, tid, mentors)
  {
  }

  /** The dictionary once `reviews[..i]` have been entered. */
  function TallyMap(reviews: seq<Review>, i: nat, mentors: seq<Mentor>): map<string, Tally>
    requires i <= |reviews|
  {
    if i == 0 then map[] else Enter(TallyMap(reviews, i - 1, mentors), reviews[i - 1], reviews, mentors)
  }

  /** The dictionary holds exactly the teams seen so far. */
  lemma {:induction false} TallyMapKeys(reviews: seq<Review>, i: nat, mentors: seq<Mentor>)
    requires i <= |reviews|
    ensures TallyMap(reviews, i, mentors).Keys == TeamIds(reviews[..i])
  {
    if i > 0 {
      TallyMapKeys(reviews, i - 1, mentors);
      assert reviews[..i][..i - 1] == reviews[..i - 1];
    }
  }

  /** Each entry of the dictionary, present or not yet created, is the partial tally of its team. */
  lemma TallyMapValue(reviews: seq<Review>, n: nat, tid: string, mentors: seq<Mentor>)
    requires n <= |reviews|
    ensures EntryOf(TallyMap(reviews, n, mentors), tid, reviews) == PartialTally(reviews, n, tid, mentors)
  {
    TallyMapStart(reviews, tid, mentors);
    var i := 0;
    while i < n
      invariant i <= n
      invariant EntryAgrees(reviews, i, tid, mentors)
    {
      i := i + 1;
      TallyMapValueStep(reviews, i, tid, mentors);
    }
  }

  /** After `reviews[..i]`, the dictionary entry of `tid` is that team's partial tally. */
  predicate EntryAgrees(reviews: seq<Review>, i: nat, tid: string, mentors: seq<Mentor>)
    requires i <= |reviews|
  {
    EntryOf(TallyMap(reviews, i, mentors), tid, reviews) == PartialTally(reviews, i, tid, mentors)
  }

  /** Entering the `i`-th review keeps the entry of `tid` equal to that team's partial tally. */
  lemma TallyMapValueStep(reviews: seq<Review>, i: nat, tid: string, mentors: seq<Mentor>)
    requires 0 < i <= |reviews|
    requires EntryAgrees(reviews, i - 1, tid, mentors)
    ensures EntryAgrees(reviews, i, tid, mentors)
  {
    TallyMapStep(reviews, i, tid, mentors);
    PartialTallyStep(reviews, i, tid, mentors);
  }

  /** Before any review, every team's entry is the fresh one. */
  lemma TallyMapStart(reviews: seq<Review>, tid: string, mentors: seq<Mentor>)
    ensures EntryOf(TallyMap(reviews, 0, mentors), tid, reviews) == PartialTally(reviews, 0, tid, mentors)
  {
    assert OfTeam(reviews[..0], tid) == [];
  }

  /** One more review entered is one more `Visit` of every team's entry. */
  lemma TallyMapStep(reviews: seq<Review>, i: nat, tid: string, mentors: seq<Mentor>)
    requires 0 < i <= |reviews|
    ensures EntryOf(TallyMap(reviews, i, mentors), tid, reviews)
      == Visit(EntryOf(TallyMap(reviews, i - 1, mentors), tid, reviews), reviews[i - 1], tid, mentors)
  {
    EnterAt(TallyMap(reviews, i - 1, mentors), reviews[i - 1], reviews, mentors, tid);
  }

  /** The teams that have at least one review. */
  function TeamIds(reviews: seq<Review>): (r: set<string>)
    ensures forall j :: 0 <= j < |reviews| ==> reviews[j].teamId in r
    decreases |reviews|
  {
    if reviews == [] then {}
    else
      var init := reviews[..|reviews| - 1];
      assert forall j :: 0 <= j < |init| ==> init[j] == reviews[j];
      TeamIds(init) + {reviews[|reviews| - 1].teamId}
  }

  /** Every id in `TeamIds` is the team of some review. */
  lemma {:induction false} TeamIdsWitness(reviews: seq<Review>, tid: string)
    requires tid in TeamIds(reviews)
    ensures exists j :: 0 <= j < |reviews| && reviews[j].teamId == tid
    decreases |reviews|
  {
    var n := |reviews| - 1;
    if reviews[n].teamId != tid {
      var init := reviews[..n];
      TeamIdsWitness(init, tid);
      var j :| 0 <= j < |init| && init[j].teamId == tid;
      assert reviews[j].teamId == tid;
    }
  }

  /** `reviews.forEach(...)`: fills the `teamScores` dictionary in one pass over the reviews. A team is in
      the dictionary exactly when one of its reviews is, and then holds that team's tally. */
  method TallyReviews(reviews: seq<Review>, mentors: seq<Mentor>) returns (teamScores: map<string, Tally>)
    ensures teamScores.Keys == TeamIds(reviews)
    ensures forall tid :: tid in teamScores ==> teamScores[tid] == TeamTally(reviews, tid, mentors)
  {
    teamScores := map[];
    var i := 0;
    while i < |reviews|
      invariant 0 <= i <= |reviews|
      invariant teamScores == TallyMap(reviews, i, mentors)
    {
      ghost var previous := teamScores;
      var review := reviews[i];
      if review.teamId !in teamScores {
        var totalReviewers := |OfTeam(reviews, review.teamId)|;
        teamScores := teamScores[review.teamId := Tally([], [], totalReviewers)];
      }
      assert teamScores == previous[review.teamId := EntryOf(previous, review.teamId, reviews)];
      var mentor := FindMentor(mentors, review.mentorId);
      if review.isCompleted {
        var weightedScore := WeightedScore(review.scores);
        var entry := teamScores[review.teamId];
        entry := entry.(scores := entry.scores + [weightedScore]);
        if mentor.Some? {
          entry := entry.(reviewers := entry.reviewers + [Reviewer(mentor.value.name, weightedScore)]);
        }
        teamScores := teamScores[review.teamId := entry];
      }
      assert teamScores == Enter(previous, review, reviews, mentors);
      i := i + 1;
    }
    TallyMapComplete(reviews, mentors);
  }

  /** Once every review is entered, the dictionary maps exactly the reviewed teams to their tallies. */
  lemma TallyMapComplete(reviews: seq<Review>, mentors: seq<Mentor>)
    ensures TallyMap(reviews, |reviews|, mentors).Keys == TeamIds(reviews)
    ensures forall tid :: tid in TallyMap(reviews, |reviews|, mentors) ==>
      TallyMap(reviews, |reviews|, mentors)[tid] == TeamTally(reviews, tid, mentors)
  {
    var n := |reviews|;
    assert reviews[..n] == reviews;
    TallyMapKeys(reviews, n, mentors);
    forall tid | tid in TallyMap(reviews, n, mentors)
      ensures TallyMap(reviews, n, mentors)[tid] == TeamTally(reviews, tid, mentors)
    {
      TallyMapValue(reviews, n, tid, mentors);
    }
  }

  lemma TeamTallyUnseen(reviews: seq<Review>, teamId: string, mentors: seq<Mentor>)
    requires teamId !in TeamIds(reviews)
    ensures TeamTally(reviews, teamId, mentors) == NoTally
  {
    FilterNone(reviews, (x: Review) => x.teamId == teamId);
  }

  /** leaderboardData: maps each team to its standing, sorts the standings in place and ranks them. */
  method ComputeLeaderboard(teams: seq<Team>, reviews: seq<Review>, mentors: seq<Mentor>)
    returns (board: seq<LeaderboardEntry>)
    ensures board == Board(teams, reviews, mentors)
  {
    var teamScores := TallyReviews(reviews, mentors);
    var standings := new Standing[|teams|](k requires 0 <= k < |teams| =>
      StandingOf(teams[k], if teams[k].id in teamScores then teamScores[teams[k].id] else NoTally));
    forall k | 0 <= k < |teams|
      ensures standings[k] == TeamStanding(teams[k], reviews, mentors)
    {
      if teams[k].id !in teamScores {
        TeamTallyUnseen(reviews, teams[k].id, mentors);
      }
    }
    assert standings[..] == Standings(teams, reviews, mentors);
    SortByAverage(standings);
    board := Ranked(standings[..]);
  }

  // ----- what the leaderboard promises -----

  /** The entry without its rank. */
  function Unranked(b: seq<LeaderboardEntry>): (r: seq<Standing>)
    ensures |r| == |b|
  {
    seq(|b|, k requires 0 <= k < |b| =>
      Standing(b[k].team, b[k].averageScore, b[k].reviewers, b[k].completedReviews, b[k].totalReviews))
  }

  /** Ranking only adds the rank: dropping it gives back the sorted standings. */
  lemma UnrankedRanked(s: seq<Standing>)
    ensures Unranked(Ranked(s)) == s
  {
  }

  /** One entry per team, ranks 1..n in order, averages non-increasing. */
  lemma BoardOrdered(teams: seq<Team>, reviews: seq<Review>, mentors: seq<Mentor>)
    ensures var b := Board(teams, reviews, mentors);
      && |b| == |teams|
      && (forall k :: 0 <= k < |b| ==> b[k].rank == k + 1)
      && (forall i, j :: 0 <= i < j < |b| ==> b[i].averageScore >= b[j].averageScore)
  {
    SortDescSorted(Standings(teams, reviews, mentors));
  }

  /** The unranked entries are a permutation of the teams' standings: every team appears. */
  lemma BoardPermutation(teams: seq<Team>, reviews: seq<Review>, mentors: seq<Mentor>)
    ensures var b := Board(teams, reviews, mentors);
      && multiset(Unranked(b)) == multiset(Standings(teams, reviews, mentors))
      && (forall t :: 0 <= t < |teams| ==> TeamStanding(teams[t], reviews, mentors) in Unranked(b))
  {
    var s := Standings(teams, reviews, mentors);
    var sorted := SortDesc(s);
    UnrankedRanked(sorted);
    SortDescPerm(s);
    forall t | 0 <= t < |teams|
      ensures TeamStanding(teams[t], reviews, mentors) in sorted
    {
      assert s[t] in multiset(s);
    }
  }

  /** Teams with equal averages keep their `teams` order (the sort is stable). */
  lemma BoardStable(teams: seq<Team>, reviews: seq<Review>, mentors: seq<Mentor>, v: int)
    ensures WithAverage(Unranked(Board(teams, reviews, mentors)), v) == WithAverage(Standings(teams, reviews, mentors), v)
  {
    var s := Standings(teams, reviews, mentors);
    UnrankedRanked(SortDesc(s));
    SortDescStable(s, v);
  }

  /** Every review's scores are one per criterion, each null or in 1..5. */
  predicate WellFormed(reviews: seq<Review>)
  {
    forall k :: 0 <= k < |reviews| ==> Aligned(reviews[k].scores) && InRange(reviews[k].scores)
  }

  lemma {:induction false} CompletedScoresBounds(rs: seq<Review>)
    requires WellFormed(rs)
    ensures forall k :: 0 <= k < |CompletedScores(rs)| ==> 0 <= CompletedScores(rs)[k] <= 500
    decreases |rs|
  {
    if rs != [] {
      var init, last := rs[..|rs| - 1], rs[|rs| - 1];
      CompletedScoresBounds(init);
      WeightedScoreBounds(last.scores);
    }
  }

  lemma TeamStandingBounds(team: Team, reviews: seq<Review>, mentors: seq<Mentor>)
    requires WellFormed(reviews)
    ensures 0 <= TeamStanding(team, reviews, mentors).averageScore <= 500
  {
    var rs := OfTeam(reviews, team.id);
    forall k | 0 <= k < |rs| ensures Aligned(rs[k].scores) && InRange(rs[k].scores) {
      assert rs[k] in reviews;
    }
    CompletedScoresBounds(rs);
    var scores := CompletedScores(rs);
    if |scores| > 0 {
      RoundedMeanBounds(scores);
    }
  }

  /** With well-formed scores every average on the board lies within 0.00..5.00. */
  lemma BoardAverageBounds(teams: seq<Team>, reviews: seq<Review>, mentors: seq<Mentor>)
    requires WellFormed(reviews)
    ensures forall k :: 0 <= k < |Board(teams, reviews, mentors)| ==>
      0 <= Board(teams, reviews, mentors)[k].averageScore <= 500
  {
    var s := Standings(teams, reviews, mentors);
    var sorted := SortDesc(s);
    SortDescPerm(s);
    forall k | 0 <= k < |sorted| ensures 0 <= sorted[k].averageScore <= 500 {
      assert sorted[k] in multiset(s);
      var t :| 0 <= t < |s| && s[t] == sorted[k];
      TeamStandingBounds(teams[t], reviews, mentors);
    }
  }
}
