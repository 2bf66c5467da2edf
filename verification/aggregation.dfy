/** The two other derived views of useAppData.ts: per-mentor progress and, per leaderboard entry,
    the team's review comments sorted by mentor name. */
module Aggregation {
  import opened Wrappers
  import opened Types
  import opened Seqs
  import opened Queries

  // ----- mentorProgressData -----

  /** One mentor's assigned and completed review counts. */
  function ProgressOf(mentor: Mentor, reviews: seq<Review>): (p: MentorProgress)
    ensures p.mentor == mentor
    ensures p.totalReviews == |OfMentor(reviews, mentor.id)| <= |reviews|
    ensures p.completedReviews == |CompletedOnly(OfMentor(reviews, mentor.id))| <= p.totalReviews
  {
    var assignedReviews := OfMentor(reviews, mentor.id);
    MentorProgress(mentor, |CompletedOnly(assignedReviews)|, |assignedReviews|)
  }

  /** `mentors.map(...)`: one progress row per mentor, in `mentors` order. */
  function MentorProgressData(mentors: seq<Mentor>, reviews: seq<Review>): (r: seq<MentorProgress>)
    ensures |r| == |mentors|
    ensures forall k :: 0 <= k < |r| ==> r[k].mentor == mentors[k]
    ensures forall k :: 0 <= k < |r| ==> r[k] == ProgressOf(mentors[k], reviews)
    ensures forall k :: 0 <= k < |r| ==>
      r[k].totalReviews == |OfMentor(reviews, mentors[k].id)|
      && r[k].completedReviews == |OfMentor(CompletedOnly(reviews), mentors[k].id)| <= r[k].totalReviews
  {
    forall k | 0 <= k < |mentors|
      ensures |CompletedOnly(OfMentor(reviews, mentors[k].id))| == |OfMentor(CompletedOnly(reviews), mentors[k].id)|
    {
      CompletedOfMentor(reviews, mentors[k].id);
    }
    seq(|mentors|, k requires 0 <= k < |mentors| => ProgressOf(mentors[k], reviews))
  }

  /** Counting a mentor's completed reviews does not depend on which filter runs first. */
  lemma {:induction false} CompletedOfMentor(reviews: seq<Review>, mentorId: string)
    ensures CompletedOnly(OfMentor(reviews, mentorId)) == OfMentor(CompletedOnly(reviews), mentorId)
    decreases |reviews|
  {
    if reviews == [] {
      assert OfMentor(reviews, mentorId) == [] && CompletedOnly(reviews) == [];
    } else {
      var init, last := reviews[..|reviews| - 1], reviews[|reviews| - 1];
      assert reviews == init + [last];
      CompletedOfMentor(init, mentorId);
      var ci, oi := CompletedOnly(init), OfMentor(init, mentorId);
      OfMentorSnoc(init, last, mentorId);
      CompletedOnlySnoc(init, last);
      var mentorsReviews := OfMentor(reviews, mentorId);
      var completed := CompletedOnly(reviews);
      if last.isCompleted {
        assert completed == ci + [last];
        OfMentorSnoc(ci, last, mentorId);
      } else {
        assert completed == ci;
      }
      if last.mentorId == mentorId {
        assert mentorsReviews == oi + [last];
        CompletedOnlySnoc(oi, last);
      } else {
        assert mentorsReviews == oi;
      }
    }
  }

  /** The sum of the `totalReviews` column. */
  function TotalAssigned(progress: seq<MentorProgress>): nat
    decreases |progress|
  {
    if progress == [] then 0 else TotalAssigned(progress[..|progress| - 1]) + progress[|progress| - 1].totalReviews
  }

  /** The number of mentors carrying this id. */
  function Holders(mentors: seq<Mentor>, id: string): nat
    decreases |mentors|
  {
    if mentors == [] then 0
    else Holders(mentors[..|mentors| - 1], id) + (if mentors[|mentors| - 1].id == id then 1 else 0)
  }

  predicate DistinctMentorIds(mentors: seq<Mentor>)
  {
    forall i, j :: 0 <= i < j < |mentors| ==> mentors[i].id != mentors[j].id
  }

  /** Every review is assigned to a listed mentor. */
  predicate Covered(mentors: seq<Mentor>, reviews: seq<Review>)
  {
    forall k :: 0 <= k < |reviews| ==> exists j :: 0 <= j < |mentors| && mentors[j].id == reviews[k].mentorId
  }

  lemma {:induction false} HoldersOne(mentors: seq<Mentor>, id: string)
    requires DistinctMentorIds(mentors)
    requires exists j :: 0 <= j < |mentors| && mentors[j].id == id
    ensures Holders(mentors, id) == 1
    decreases |mentors|
  {
    var init, last := mentors[..|mentors| - 1], mentors[|mentors| - 1];
    if last.id == id {
      HoldersNone(init, id);
    } else {
      var j :| 0 <= j < |mentors| && mentors[j].id == id;
      assert init[j].id == id;
      HoldersOne(init, id);
    }
  }

  lemma {:induction false} HoldersNone(mentors: seq<Mentor>, id: string)
    requires forall j :: 0 <= j < |mentors| ==> mentors[j].id != id
    ensures Holders(mentors, id) == 0
    decreases |mentors|
  {
    if mentors != [] {
      HoldersNone(mentors[..|mentors| - 1], id);
    }
  }

  /** Adding one review raises the column sum by the number of mentors holding its mentor id. */
  lemma {:induction false} TotalAssignedSnoc(mentors: seq<Mentor>, reviews: seq<Review>, x: Review)
    ensures TotalAssigned(MentorProgressData(mentors, reviews + [x]))
      == TotalAssigned(MentorProgressData(mentors, reviews)) + Holders(mentors, x.mentorId)
    decreases |mentors|
  {
    if mentors != [] {
      var init, last := mentors[..|mentors| - 1], mentors[|mentors| - 1];
      assert MentorProgressData(mentors, reviews)[..|mentors| - 1] == MentorProgressData(init, reviews);
      assert MentorProgressData(mentors, reviews + [x])[..|mentors| - 1] == MentorProgressData(init, reviews + [x]);
      TotalAssignedSnoc(init, reviews, x);
      OfMentorSnoc(reviews, x, last.id);
    }
  }

  lemma {:induction false} TotalAssignedEmpty(mentors: seq<Mentor>)
    ensures TotalAssigned(MentorProgressData(mentors, [])) == 0
    decreases |mentors|
  {
    if mentors != [] {
      var init := mentors[..|mentors| - 1];
      assert MentorProgressData(mentors, [])[..|mentors| - 1] == MentorProgressData(init, []);
      TotalAssignedEmpty(init);
    }
  }

  /** With distinct mentor ids and every review assigned to a listed mentor, the progress rows
      partition the reviews: their `totalReviews` add up to the number of reviews. */
  lemma {:induction false} ProgressPartitionsReviews(mentors: seq<Mentor>, reviews: seq<Review>)
    requires DistinctMentorIds(mentors)
    requires Covered(mentors, reviews)
    ensures TotalAssigned(MentorProgressData(mentors, reviews)) == |reviews|
    decreases |reviews|
  {
    if reviews == [] {
      TotalAssignedEmpty(mentors);
    } else {
      var init, last := reviews[..|reviews| - 1], reviews[|reviews| - 1];
      assert reviews == init + [last];
      assert Covered(mentors, init) by {
        forall k | 0 <= k < |init| ensures exists j :: 0 <= j < |mentors| && mentors[j].id == init[k].mentorId {
          assert init[k] == reviews[k];
        }
      }
      ProgressPartitionsReviews(mentors, init);
      TotalAssignedSnoc(mentors, init, last);
      HoldersOne(mentors, last.mentorId);
    }
  }

  // ----- adminCommentsData -----

  /** Lexicographic order on strings, code point by code point (a prefix comes first). */
  predicate NameLeq(a: string, b: string)
  {
    a == [] || (b != [] && (a[0] < b[0] || (a[0] == b[0] && NameLeq(a[1..], b[1..]))))
  }

  lemma {:induction false} NameLeqTotal(a: string, b: string)
    ensures NameLeq(a, b) || NameLeq(b, a)
  {
    if a != [] && b != [] && a[0] == b[0] {
      NameLeqTotal(a[1..], b[1..]);
    }
  }

  lemma {:induction false} NameLeqReflexive(a: string)
    ensures NameLeq(a, a)
  {
    if a != [] {
      NameLeqReflexive(a[1..]);
    }
  }

  lemma {:induction false} NameLeqTransitive(a: string, b: string, c: string)
    requires NameLeq(a, b) && NameLeq(b, c)
    ensures NameLeq(a, c)
  {
    if a != [] && a[0] == b[0] && b[0] == c[0] {
      NameLeqTransitive(a[1..], b[1..], c[1..]);
    }
  }

  /** `review.comment || null`: an empty comment reads as none. */
  function CommentOrNull(comment: Option<string>): (r: Option<string>)
    ensures r.Some? <==> comment.Some? && comment.value != ""
    ensures r.Some? ==> r == comment
  {
    if comment.Some? && comment.value != "" then comment else None
  }

  /** `teamReviews.map(...)`: one line per review, in review order. */
  function CommentLines(rs: seq<Review>, mentors: seq<Mentor>): (r: seq<CommentLine>)
    ensures |r| == |rs|
    ensures forall k :: 0 <= k < |rs| ==> r[k].mentorName == DisplayName(mentors, rs[k].mentorId)
    ensures forall k :: 0 <= k < |rs| ==> r[k].comment == CommentOrNull(rs[k].comment)
  {
    seq(|rs|, k requires 0 <= k < |rs| => CommentLine(DisplayName(mentors, rs[k].mentorId), CommentOrNull(rs[k].comment)))
  }

  /** Inserts a line after every line whose name is not greater, scanning from the back. */
  function InsertByName(s: seq<CommentLine>, x: CommentLine): (r: seq<CommentLine>)
    ensures |r| == |s| + 1
    decreases |s|
  {
    if s == [] || NameLeq(s[|s| - 1].mentorName, x.mentorName) then s + [x]
    else InsertByName(s[..|s| - 1], x) + [s[|s| - 1]]
  }

  /** `.sort((a, b) => a.mentorName.localeCompare(b.mentorName))`: a stable sort by name. */
  function SortByName(s: seq<CommentLine>): (r: seq<CommentLine>)
    ensures |r| == |s|
    decreases |s|
  {
    if s == [] then [] else InsertByName(SortByName(s[..|s| - 1]), s[|s| - 1])
  }

  predicate SortedByName(s: seq<CommentLine>)
  {
    forall i, j :: 0 <= i < j < |s| ==> NameLeq(s[i].mentorName, s[j].mentorName)
  }

  lemma {:induction false} InsertByNamePerm(s: seq<CommentLine>, x: CommentLine)
    ensures multiset(InsertByName(s, x)) == multiset(s) + multiset{x}
    decreases |s|
  {
    if !(s == [] || NameLeq(s[|s| - 1].mentorName, x.mentorName)) {
      var init := s[..|s| - 1];
      assert s == init + [s[|s| - 1]];
      InsertByNamePerm(init, x);
    }
  }

  lemma {:induction false} SortByNamePerm(s: seq<CommentLine>)
    ensures multiset(SortByName(s)) == multiset(s)
    decreases |s|
  {
    if s != [] {
      var init := s[..|s| - 1];
      assert s == init + [s[|s| - 1]];
      SortByNamePerm(init);
      InsertByNamePerm(SortByName(init), s[|s| - 1]);
    }
  }

  lemma {:induction false} InsertByNameSorted(s: seq<CommentLine>, x: CommentLine)
    requires SortedByName(s)
    ensures SortedByName(InsertByName(s, x))
    decreases |s|
  {
    if !(s == [] || NameLeq(s[|s| - 1].mentorName, x.mentorName)) {
      var init, last := s[..|s| - 1], s[|s| - 1];
      InsertByNameSorted(init, x);
      InsertByNamePerm(init, x);
      NameLeqTotal(last.mentorName, x.mentorName);
      var r := InsertByName(init, x);
      forall k | 0 <= k < |r| ensures NameLeq(r[k].mentorName, last.mentorName) {
        assert r[k] in multiset(init) + multiset{x};
        if r[k] != x {
          assert r[k] in init;
        }
      }
    } else if s != [] {
      forall i | 0 <= i < |s| ensures NameLeq(s[i].mentorName, x.mentorName) {
        if i < |s| - 1 {
          NameLeqTransitive(s[i].mentorName, s[|s| - 1].mentorName, x.mentorName);
        }
      }
    }
  }

  lemma {:induction false} SortByNameSorted(s: seq<CommentLine>)
    ensures SortedByName(SortByName(s))
    decreases |s|
  {
    if s != [] {
      SortByNameSorted(s[..|s| - 1]);
      InsertByNameSorted(SortByName(s[..|s| - 1]), s[|s| - 1]);
    }
  }

  /** The lines carrying exactly this name, in order. */
  function Named(s: seq<CommentLine>, name: string): seq<CommentLine>
  {
    Filter(s, (c: CommentLine) => c.mentorName == name)
  }

  lemma NamedSnoc(s: seq<CommentLine>, x: CommentLine, name: string)
    ensures Named(s + [x], name) == Named(s, name) + (if x.mentorName == name then [x] else [])
  {
    FilterSnoc(s, x, (c: CommentLine) => c.mentorName == name);
  }

  lemma {:induction false} InsertByNameStable(s: seq<CommentLine>, x: CommentLine, name: string)
    ensures Named(InsertByName(s, x), name) == Named(s, name) + (if x.mentorName == name then [x] else [])
    decreases |s|
  {
    if s == [] || NameLeq(s[|s| - 1].mentorName, x.mentorName) {
      NamedSnoc(s, x, name);
    } else {
      var init, last := s[..|s| - 1], s[|s| - 1];
      assert s == init + [last];
      NameLeqReflexive(x.mentorName);
      InsertByNameStable(init, x, name);
      NamedSnoc(InsertByName(init, x), last, name);
      NamedSnoc(init, last, name);
    }
  }

  /** Stability: lines of the same mentor name keep their review order. */
  lemma {:induction false} SortByNameStable(s: seq<CommentLine>, name: string)
    ensures Named(SortByName(s), name) == Named(s, name)
    decreases |s|
  {
    if s != [] {
      var init, last := s[..|s| - 1], s[|s| - 1];
      assert s == init + [last];
      SortByNameStable(init, name);
      InsertByNameStable(SortByName(init), last, name);
      NamedSnoc(init, last, name);
    }
  }

  /** The comments block of one leaderboard entry. */
  function CommentsOf(entry: LeaderboardEntry, reviews: seq<Review>, mentors: seq<Mentor>): (d: AdminCommentData)
    ensures d.rank == entry.rank && d.team == entry.team
    ensures |d.comments| == |OfTeam(reviews, entry.team.id)|
  {
    AdminCommentData(entry.rank, entry.team, SortByName(CommentLines(OfTeam(reviews, entry.team.id), mentors)))
  }

  /** `leaderboardData.map(...)`: one comments block per leaderboard entry, in leaderboard order. */
  function AdminCommentsData(board: seq<LeaderboardEntry>, reviews: seq<Review>, mentors: seq<Mentor>)
    : (r: seq<AdminCommentData>)
    ensures |r| == |board|
    ensures forall k :: 0 <= k < |board| ==> r[k] == CommentsOf(board[k], reviews, mentors)
    ensures forall k :: 0 <= k < |board| ==> r[k].rank == board[k].rank && r[k].team == board[k].team
    ensures forall k :: 0 <= k < |board| ==>
      SortedByName(r[k].comments)
      && multiset(r[k].comments) == multiset(CommentLines(OfTeam(reviews, board[k].team.id), mentors))
  {
    forall k | 0 <= k < |board|
      ensures var d := CommentsOf(board[k], reviews, mentors);
        SortedByName(d.comments)
        && multiset(d.comments) == multiset(CommentLines(OfTeam(reviews, board[k].team.id), mentors))
    {
      CommentsOfProperties(board[k], reviews, mentors, "");
    }
    seq(|board|, k requires 0 <= k < |board| => CommentsOf(board[k], reviews, mentors))
  }

  /** Each block lists one line per review of its team, sorted by mentor name, a permutation of
      the team's lines in review order, with equal names kept in review order. */
  lemma CommentsOfProperties(entry: LeaderboardEntry, reviews: seq<Review>, mentors: seq<Mentor>, name: string)
    ensures var lines := CommentLines(OfTeam(reviews, entry.team.id), mentors);
      var d := CommentsOf(entry, reviews, mentors);
      && SortedByName(d.comments)
      && multiset(d.comments) == multiset(lines)
      && Named(d.comments, name) == Named(lines, name)
  {
    var lines := CommentLines(OfTeam(reviews, entry.team.id), mentors);
    SortByNameSorted(lines);
    SortByNamePerm(lines);
    SortByNameStable(lines, name);
  }
}
