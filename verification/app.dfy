/** The two slices of App.tsx with logic: the name and status of a mentor profile created at
    first sign-in, and the review shown in the grading view. */
module App {
  import opened Wrappers
  import opened Types
  import opened Text
  import opened Queries
  import opened Login

  const NewMentorName: string := "New Mentor"

  predicate IsAdmin(role: Option<string>)
  {
    role == Some("admin")
  }

  /** `let profileName = user.email || 'New Mentor'`, then a non-admin's name loses the first
      '@review.app' when it ends with it. */
  function ProfileName(email: Option<string>, role: Option<string>): (name: string)
    ensures email.None? || email == Some("") ==> name == NewMentorName
    ensures IsAdmin(role) && email.Some? && email.value != "" ==> name == email.value
    ensures email.Some? && email.value != "" && !EndsWith(email.value, LoginDomain) ==> name == email.value
  {
    var profileName := if email.Some? && email.value != "" then email.value else NewMentorName;
    if !IsAdmin(role) && EndsWith(profileName, LoginDomain) then ReplaceFirst(profileName, LoginDomain, "")
    else profileName
  }

  /** The row inserted for a user seen for the first time. */
  function NewMentorProfile(user: User): (profile: Mentor)
    ensures profile.id == user.id
    ensures profile.isInternal <==> user.role == Some("admin")
    ensures profile.name == ProfileName(user.email, user.role)
  {
    Mentor(user.id, ProfileName(user.email, user.role), IsAdmin(user.role))
  }

  /** A domain suffix appended to text without '@' is found exactly where it was appended. */
  lemma IndexOfAppendedDomain(username: string)
    requires '@' !in username
    ensures IndexOf(username + LoginDomain, LoginDomain) == Some(|username|)
  {
    var s := username + LoginDomain;
    assert OccursAt(s, LoginDomain, |username|) by {
      assert s[|username|..|username| + |LoginDomain|] == LoginDomain;
    }
    forall j: nat | j < |username| ensures !OccursAt(s, LoginDomain, j) {
      assert s[j] == username[j];
      assert username[j] != '@';
      assert s[j..j + |LoginDomain|][0] == s[j];
    }
  }

  /** A mentor who signed in with a plain username gets that username back as profile name. */
  lemma ProfileNameRoundTrip(username: string, role: Option<string>)
    requires '@' !in username && !IsAdmin(role)
    ensures ProfileName(Some(LoginIdentifier(username)), role) == username
  {
    var email := username + LoginDomain;
    assert EndsWith(email, LoginDomain) by {
      assert email[|email| - |LoginDomain|..] == LoginDomain;
    }
    IndexOfAppendedDomain(username);
    assert email[..|username|] == username;
    assert email[|username| + |LoginDomain|..] == [];
  }

  /** An administrator's profile keeps the full address, even in the application's domain. */
  lemma AdminKeepsAddress(username: string)
    requires '@' !in username
    ensures ProfileName(Some(LoginIdentifier(username)), Some("admin")) == username + LoginDomain
  {
  }

  /** `selectedTeamId ? reviews.find(...) : undefined`: no team (null or '') selects nothing;
      otherwise the first review of the selected team assigned to the signed-in user. */
  function SelectedReview(selectedTeamId: Option<string>, reviews: seq<Review>, userId: string): (r: Option<Review>)
    ensures selectedTeamId.None? || selectedTeamId == Some("") ==> r.None?
    ensures selectedTeamId.Some? && selectedTeamId.value != "" ==>
      (r.None? <==> !HasPair(reviews, selectedTeamId.value, userId))
    ensures r.Some? ==> r.value in reviews && r.value.teamId == selectedTeamId.value && r.value.mentorId == userId
  {
    if selectedTeamId.Some? && selectedTeamId.value != "" then ExistingAssignment(reviews, selectedTeamId.value, userId)
    else None
  }

  /** With one review per (team, mentor) pair the grading view shows the only review the user
      has for that team, and it is one of the user's own reviews. */
  lemma SelectedReviewIsTheAssignment(teamId: string, reviews: seq<Review>, userId: string, k: nat)
    requires UniquePairs(reviews) && teamId != ""
    requires k < |reviews| && reviews[k].teamId == teamId && reviews[k].mentorId == userId
    ensures SelectedReview(Some(teamId), reviews, userId) == Some(reviews[k])
    ensures reviews[k] in OfMentor(reviews, userId)
  {
    var r := SelectedReview(Some(teamId), reviews, userId);
    assert HasPair(reviews, teamId, userId);
    var i :| 0 <= i < |reviews| && reviews[i] == r.value;
  }
}
