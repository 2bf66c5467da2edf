/** The logic of AdminDashboard.tsx: the mentor picker of the Manage Data tab, its selection and
    unassign-confirmation state, the progress percentage and the padding of the comments table. */
module AdminDashboard {
  import opened Wrappers
  import opened Types
  import opened Seqs
  import opened Queries
  import opened AppData

  /** `new Set(assignedReviews.map(r => r.mentorId))` for one team. */
  function AssignedMentorIds(reviews: seq<Review>, teamId: string): (ids: set<string>)
    ensures forall id :: id in ids <==> HasPair(reviews, teamId, id)
  {
    var assignedReviews := OfTeam(reviews, teamId);
    assert forall k :: 0 <= k < |reviews| && reviews[k].teamId == teamId ==> reviews[k] in assignedReviews;
    set r | r in assignedReviews :: r.mentorId
  }

  /** `unassignedMentors`: the mentors, in list order, that have no review for this team. */
  function UnassignedMentors(mentors: seq<Mentor>, reviews: seq<Review>, teamId: string): (r: seq<Mentor>)
    ensures forall m :: m in r <==> m in mentors && !HasPair(reviews, teamId, m.id)
  {
    var assignedMentorIds := AssignedMentorIds(reviews, teamId);
    Filter(mentors, (m: Mentor) => m.id !in assignedMentorIds)
  }

  /** The picker never offers a mentor the team already has, so assigning a picked mentor always
      passes the duplicate check of `assignMentorToTeam`. */
  lemma PickerOffersOnlyNewPairs(mentors: seq<Mentor>, reviews: seq<Review>, teamId: string, m: Mentor)
    requires m in UnassignedMentors(mentors, reviews, teamId)
    ensures ExistingAssignment(reviews, teamId, m.id).None?
  {
  }

  /** A team with no review is offered every mentor, in order. */
  lemma PickerForUnreviewedTeam(mentors: seq<Mentor>, reviews: seq<Review>, teamId: string)
    requires forall k :: 0 <= k < |reviews| ==> reviews[k].teamId != teamId
    ensures UnassignedMentors(mentors, reviews, teamId) == mentors
  {
    var assignedMentorIds := AssignedMentorIds(reviews, teamId);
    FilterAll(mentors, (m: Mentor) => m.id !in assignedMentorIds);
  }

  /** `progress`: completed over total as a percentage, and 0 when there is nothing assigned. */
  function Progress(completedReviews: nat, totalReviews: nat): (progress: real)
    ensures totalReviews == 0 ==> progress == 0.0
    ensures totalReviews > 0 ==> progress * (totalReviews as real) == (completedReviews as real) * 100.0
    ensures completedReviews <= totalReviews ==> 0.0 <= progress <= 100.0
  {
    if totalReviews > 0 then (completedReviews as real / totalReviews as real) * 100.0 else 0.0
  }

  /** Every row of the mentor-progress table shows a bar between empty and full. */
  lemma ProgressBarsInRange(data: seq<MentorProgress>, k: nat)
    requires k < |data| && data[k].completedReviews <= data[k].totalReviews
    ensures 0.0 <= Progress(data[k].completedReviews, data[k].totalReviews) <= 100.0
    ensures data[k].completedReviews == data[k].totalReviews > 0 ==>
      Progress(data[k].completedReviews, data[k].totalReviews) == 100.0
  {
    var t := data[k].totalReviews as real;
    if t > 0.0 {
      assert t / t == 1.0;
    }
  }

  /** `Math.max(0, ...adminCommentsData.map(d => d.comments.length))`. */
  function MaxComments(data: seq<AdminCommentData>): (m: nat)
    ensures forall k :: 0 <= k < |data| ==> |data[k].comments| <= m
    ensures data == [] ==> m == 0
    ensures data != [] ==> exists k :: 0 <= k < |data| && |data[k].comments| == m
    decreases |data|
  {
    if data == [] then 0
    else
      var rest := MaxComments(data[..|data| - 1]);
      var last := |data[|data| - 1].comments|;
      assert forall k :: 0 <= k < |data| - 1 ==> data[..|data| - 1][k] == data[k];
      if last > rest then last else rest
  }

  /** One cell of a team's row: a comment with its mentor, or the `--` placeholder. */
  datatype CommentCell = Filled(line: CommentLine) | Placeholder

  /** The `maxComments` cells of one row: the team's comments in order, then placeholders. */
  function CommentCells(entry: AdminCommentData, maxComments: nat): (cells: seq<CommentCell>)
    ensures |cells| == maxComments
    ensures forall i :: 0 <= i < maxComments ==>
      (i < |entry.comments| <==> cells[i].Filled?)
    ensures forall i :: 0 <= i < maxComments && i < |entry.comments| ==> cells[i].line == entry.comments[i]
  {
    seq(maxComments, i requires 0 <= i < maxComments =>
      if i < |entry.comments| then Filled(entry.comments[i]) else Placeholder)
  }

  /** The comments table is rectangular and loses nothing: every row has one cell per header
      column, and every comment of every team appears in its row at its own position. */
  lemma CommentTableComplete(data: seq<AdminCommentData>, k: nat)
    requires k < |data|
    ensures |CommentCells(data[k], MaxComments(data))| == MaxComments(data)
    ensures forall i :: 0 <= i < |data[k].comments| ==>
      CommentCells(data[k], MaxComments(data))[i] == Filled(data[k].comments[i])
  {
  }

  /** A call of `onAssignMentor(teamId, mentorId)`. */
  datatype AssignCall = AssignCall(teamId: string, mentorId: string)

  /** The state of the Manage Data tab: the mentor chosen in each team's picker, and the review
      waiting in the confirmation dialog. */
  class ManageData {
    var selectedMentor: map<string, string>
    var reviewToUnassign: Option<Review>

    constructor ()
      ensures selectedMentor == map[] && reviewToUnassign == None
    {
      selectedMentor := map[];
      reviewToUnassign := None;
    }

    /** `selectedMentor[team.id] || ''`: the picker's current value. */
    function SelectedValue(teamId: string): (value: string)
      reads this
      ensures teamId !in selectedMentor ==> value == ""
      ensures teamId in selectedMentor ==> value == selectedMentor[teamId]
    {
      if teamId in selectedMentor then selectedMentor[teamId] else ""
    }

    /** `handleSelectMentor`. */
    method SelectMentor(teamId: string, mentorId: string)
      modifies this
      ensures selectedMentor == old(selectedMentor)[teamId := mentorId]
      ensures reviewToUnassign == old(reviewToUnassign)
    {
      selectedMentor := selectedMentor[teamId := mentorId];
    }

    /** `handleAssign`: without a chosen mentor nothing is called (the alert is left out);
        otherwise the call is made and that team's picker is reset to ''. */
    method HandleAssign(teamId: string) returns (call: Option<AssignCall>)
      modifies this
      ensures old(SelectedValue(teamId)) == "" ==> call == None && selectedMentor == old(selectedMentor)
      ensures old(SelectedValue(teamId)) != "" ==>
        call == Some(AssignCall(teamId, old(selectedMentor)[teamId]))
        && selectedMentor == old(selectedMentor)[teamId := ""]
      ensures forall t :: t != teamId ==> (t in selectedMentor <==> t in old(selectedMentor))
      ensures forall t :: t != teamId && t in selectedMentor ==> selectedMentor[t] == old(selectedMentor)[t]
      ensures reviewToUnassign == old(reviewToUnassign)
    {
      if teamId !in selectedMentor || selectedMentor[teamId] == "" {
        return None;
      }
      var mentorId := selectedMentor[teamId];
      call := Some(AssignCall(teamId, mentorId));
      selectedMentor := selectedMentor[teamId := ""];
    }

    /** The Unassign button of an assigned reviewer opens the dialog for that review. */
    method RequestUnassign(review: Review)
      modifies this
      ensures reviewToUnassign == Some(review) && selectedMentor == old(selectedMentor)
    {
      reviewToUnassign := Some(review);
    }

    /** Cancel (or closing the dialog). */
    method CancelUnassign()
      modifies this
      ensures reviewToUnassign == None && selectedMentor == old(selectedMentor)
    {
      reviewToUnassign := None;
    }

    /** `handleConfirmUnassign`: calls `onUnassignMentor` with the pending review's id and clears
        it; with nothing pending it does nothing. */
    method HandleConfirmUnassign() returns (call: Option<int>)
      modifies this
      ensures old(reviewToUnassign).None? ==> call == None
      ensures old(reviewToUnassign).Some? ==> call == Some(old(reviewToUnassign).value.id)
      ensures reviewToUnassign == None && selectedMentor == old(selectedMentor)
    {
      if reviewToUnassign.Some? {
        call := Some(reviewToUnassign.value.id);
        reviewToUnassign := None;
      } else {
        call := None;
      }
    }
  }

  /** Pressing Assign twice after one selection sends one call: the first press resets the picker. */
  method AssignPressedTwice(teamId: string, mentorId: string) returns (first: Option<AssignCall>, second: Option<AssignCall>)
    requires mentorId != ""
    ensures first == Some(AssignCall(teamId, mentorId)) && second == None
  {
    var ui := new ManageData();
    ui.SelectMentor(teamId, mentorId);
    first := ui.HandleAssign(teamId);
    second := ui.HandleAssign(teamId);
  }

  /** Confirming twice unassigns once. */
  method ConfirmPressedTwice(review: Review) returns (first: Option<int>, second: Option<int>)
    ensures first == Some(review.id) && second == None
  {
    var ui := new ManageData();
    ui.RequestUnassign(review);
    first := ui.HandleConfirmUnassign();
    second := ui.HandleConfirmUnassign();
  }

  /** A mentor picked from a team's picker and assigned reaches the store: the hook sends the
      insert, and on success the team gains exactly that one review. */
  method PickAndAssign(state: AppState, ui: ManageData, teamId: string, m: Mentor, outcome: StoreOutcome<Review>)
    returns (sent: Option<NewReview>)
    requires state.clientReady && m.id != ""
    requires m in UnassignedMentors(state.mentors, state.reviews, teamId)
    modifies state, ui
    ensures sent.Some? && sent.value.teamId == teamId && sent.value.mentorId == m.id
    ensures outcome.Success? ==> state.reviews == old(state.reviews) + [outcome.row]
    ensures ui.SelectedValue(teamId) == ""
  {
    ui.SelectMentor(teamId, m.id);
    var call := ui.HandleAssign(teamId);
    PickerOffersOnlyNewPairs(state.mentors, state.reviews, teamId, m);
    sent := state.AssignMentorToTeam(call.value.teamId, call.value.mentorId, outcome);
  }
}
