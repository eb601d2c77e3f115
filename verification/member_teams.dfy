/** The list of teams the signed-in user belongs to without owning them (`MemberTeamsList.jsx`). */
module MemberTeamsList {
  import opened Wrappers
  import Seqs
  import Disclosure

  /** A team as fetched; `ownerId` is `None` when the field is missing. */
  datatype Team = Team(teamId: string, name: string, ownerId: Option<string>)

  datatype View = View(teams: seq<Team>, expandedTeamId: Option<string>, error: Option<string>)

  datatype FetchOutcome = Loaded(teams: seq<Team>) | Failed(message: Option<string>)

  /** Teams not owned by `userId`, in fetch order. */
  function NotOwnedBy(teams: seq<Team>, userId: string): (r: seq<Team>)
    ensures forall i :: 0 <= i < |r| ==> r[i].ownerId != Some(userId)
    ensures Seqs.IsSubsequence(r, teams)
    ensures forall t: Team :: t.ownerId != Some(userId) ==> multiset(r)[t] == multiset(teams)[t]
  {
    Seqs.Filter(teams, (t: Team) => t.ownerId != Some(userId))
  }

  /** `fetchTeams`: nothing happens without a signed-in user id; a loaded list is shown without
      the user's own teams; a failure empties the list and records the error. */
  function FetchTeams(v: View, userId: Option<string>, outcome: FetchOutcome): (w: View)
    ensures userId.None? || userId.value == [] ==> w == v
    ensures userId.Some? && userId.value != [] && outcome.Loaded? ==>
      w.teams == NotOwnedBy(outcome.teams, userId.value) && w.error.None?
    ensures userId.Some? && userId.value != [] && outcome.Failed? ==> w.teams == [] && w.error.Some?
    ensures w.expandedTeamId == v.expandedTeamId
  {
    if userId.None? || userId.value == [] then v
    else match outcome
      case Loaded(teams) => v.(teams := NotOwnedBy(teams, userId.value), error := None)
      case Failed(message) =>
        v.(teams := [], error := Some(if message.Some? && message.value != [] then message.value else "Error fetching teams"))
  }

  /** A team is shown exactly when it was fetched and the user does not own it. */
  lemma ShownIffFetchedAndNotOwned(teams: seq<Team>, userId: string, t: Team)
    ensures t in NotOwnedBy(teams, userId) <==> t in teams && t.ownerId != Some(userId)
  {
    var r := NotOwnedBy(teams, userId);
    if t in r {
      var i :| 0 <= i < |r| && r[i] == t;
      assert multiset(r)[t] > 0;
    }
  }

  /** `toggleTeamDetails`. */
  function ToggleTeamDetails(v: View, teamId: string): (w: View)
    ensures v.expandedTeamId == Some(teamId) ==> w.expandedTeamId.None?
    ensures v.expandedTeamId != Some(teamId) ==> w.expandedTeamId == Some(teamId)
    ensures w.teams == v.teams && w.error == v.error
  {
    v.(expandedTeamId := Disclosure.Toggle(v.expandedTeamId, teamId))
  }
}
