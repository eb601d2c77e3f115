/** Adding a member on the team page and the role badge colours (`TeamPage.jsx`). */
module TeamPage {
  import opened Wrappers
  import Text
  import Decimal

  datatype Member = Member(id: string, teamId: string, userId: string, role: string)

  /** A team as held by the page; `members` is `None` when the field is missing. */
  datatype Team = Team(teamId: string, name: string, members: Option<seq<Member>>)

  datatype AddForm = AddForm(userId: string, role: string)

  const DefaultRole: string := "Player"
  const AddFailed: string := "Error adding team member"

  /** The page's add-member state. */
  datatype PageState = PageState(team: Team, form: AddForm, addError: Option<string>, addSuccess: bool)

  /** What `addTeamMember` did: returned a body with an optional id, or threw with an optional
      server message. */
  datatype AddOutcome = Added(returnedId: Option<string>) | AddThrew(message: Option<string>)

  /** The member id: the server's id, or `temp-` and the time in milliseconds. */
  function MemberId(returnedId: Option<string>, now: int): (id: string)
    ensures returnedId.Some? && returnedId.value != [] ==> id == returnedId.value
    ensures returnedId.None? || returnedId.value == [] ==> |id| > 5 && id[..5] == "temp-" && Decimal.ParseInt(id[5..]) == Some(now)
  {
    Decimal.IntToStringRoundTrip(now);
    Text.OrElse(returnedId, "temp-" + Decimal.IntToString(now))
  }

  function MembersOf(t: Team): seq<Member> {
    t.members.GetOr([])
  }

  /** `handleAddMember`: on success exactly one member with the form's user and role is
      appended (a missing list counts as empty) and the form is reset; on failure the team is
      untouched and the error is shown. */
  function AddMember(s: PageState, teamId: string, outcome: AddOutcome, now: int): (r: PageState)
    ensures outcome.Added? ==>
      && r.team.members.Some?
      && |MembersOf(r.team)| == |MembersOf(s.team)| + 1
      && MembersOf(r.team)[..|MembersOf(s.team)|] == MembersOf(s.team)
      && MembersOf(r.team)[|MembersOf(s.team)|] == Member(MemberId(outcome.returnedId, now), teamId, s.form.userId, s.form.role)
      && r.form == AddForm("", DefaultRole) && r.addSuccess && r.addError.None?
    ensures outcome.AddThrew? ==> r.team == s.team && r.form == s.form && !r.addSuccess && r.addError.Some?
    ensures r.team.teamId == s.team.teamId && r.team.name == s.team.name
  {
    match outcome
    case Added(returnedId) =>
      var member := Member(MemberId(returnedId, now), teamId, s.form.userId, s.form.role);
      var members := MembersOf(s.team) + [member];
      assert members[..|MembersOf(s.team)|] == MembersOf(s.team);
      PageState(s.team.(members := Some(members)), AddForm("", DefaultRole), None, true)
    case AddThrew(message) =>
      s.(addError := Some(Text.OrElse(message, AddFailed)), addSuccess := false)
  }

  /** Two successful adds keep both new members, in order, after the existing ones. */
  lemma TwoAddsAppendInOrder(s: PageState, teamId: string, a: AddOutcome, b: AddOutcome, t1: int, t2: int)
    requires a.Added? && b.Added?
    ensures var s1 := AddMember(s, teamId, a, t1);
      var s2 := AddMember(s1, teamId, b, t2);
      && |MembersOf(s2.team)| == |MembersOf(s.team)| + 2
      && MembersOf(s2.team)[..|MembersOf(s.team)|] == MembersOf(s.team)
      && MembersOf(s2.team)[|MembersOf(s.team)|].userId == s.form.userId
      && MembersOf(s2.team)[|MembersOf(s.team)| + 1].userId == ""
      && MembersOf(s2.team)[|MembersOf(s.team)| + 1].role == DefaultRole
  {
    var s1 := AddMember(s, teamId, a, t1);
    var n := |MembersOf(s.team)|;
    assert MembersOf(s1.team)[..n] == MembersOf(s.team);
    var s2 := AddMember(s1, teamId, b, t2);
    assert MembersOf(s2.team)[..n] == MembersOf(s2.team)[..n + 1][..n];
  }

  const OwnerBadge: string := "bg-purple-600/70 text-purple-100"
  const CoachBadge: string := "bg-blue-600/70 text-blue-100"
  const PlayerBadge: string := "bg-green-600/70 text-green-100"
  const DefaultBadge: string := "bg-gray-600/70 text-gray-100"

  /** `getRoleBadgeClass`. */
  function RoleBadgeClass(role: string): (cls: string)
    ensures role == "Owner" <==> cls == OwnerBadge
    ensures role == "Coach" <==> cls == CoachBadge
    ensures role == "Player" <==> cls == PlayerBadge
    ensures role != "Owner" && role != "Coach" && role != "Player" <==> cls == DefaultBadge
  {
    match role
    case "Owner" => OwnerBadge
    case "Coach" => CoachBadge
    case "Player" => PlayerBadge
    case _ => DefaultBadge
  }
}
