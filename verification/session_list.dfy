/** The list of a team's active review sessions (`ReviewSessionList.jsx`): URL shortening
    for display, who may end a session, and how the list follows fetches and ends. */
module ReviewSessionList {
  import opened Wrappers
  import Seqs

  const MaxShownUrl := 50
  const KeptUrlPrefix := 47
  const Ellipsis: string := "..."

  /** `formatVideoUrl`: URLs up to 50 characters are shown whole; longer ones as their first
      47 characters and "...", exactly 50 characters in all. */
  function FormatVideoUrl(url: string): (r: string)
    ensures |r| <= MaxShownUrl
    ensures |url| <= MaxShownUrl ==> r == url
    ensures |url| > MaxShownUrl ==> |r| == MaxShownUrl && r[..KeptUrlPrefix] == url[..KeptUrlPrefix] && r[KeptUrlPrefix..] == Ellipsis
  {
    if |url| > MaxShownUrl then url[..KeptUrlPrefix] + Ellipsis else url
  }

  /** Shortening a shortened URL changes nothing. */
  lemma FormatVideoUrlIdempotent(url: string)
    ensures FormatVideoUrl(FormatVideoUrl(url)) == FormatVideoUrl(url)
  {
  }

  type UserId = string

  /** A session as listed; `createdBy` is `None` when the field is missing. */
  datatype Session = Session(sessionId: string, title: string, videoUrl: string, createdBy: Option<UserId>)

  /** `canEndSession`: the viewer owns the team (`currentUser?.userId === team?.ownerId`) or
      created the session. Missing ids are `undefined` on both sides and compare equal. */
  function CanEndSession(currentUserId: Option<UserId>, teamOwnerId: Option<UserId>, session: Session): (allowed: bool)
    ensures currentUserId.Some? && currentUserId == teamOwnerId ==> allowed
    ensures currentUserId.Some? && currentUserId == session.createdBy ==> allowed
    ensures currentUserId.Some? && currentUserId != teamOwnerId && currentUserId != session.createdBy ==> !allowed
  {
    var isOwner := currentUserId == teamOwnerId;
    isOwner || session.createdBy == currentUserId
  }

  /** A signed-in viewer who does not own the team may end exactly the sessions they created. */
  lemma NonOwnerEndsOwnSessions(userId: UserId, teamOwnerId: Option<UserId>, sessions: seq<Session>)
    requires teamOwnerId != Some(userId)
    ensures forall i :: 0 <= i < |sessions| ==>
      (CanEndSession(Some(userId), teamOwnerId, sessions[i]) <==> sessions[i].createdBy == Some(userId))
  {
  }

  /** Without a signed-in user and without an owner on the team, both sides of the owner test
      are `undefined`, so every session may be ended. */
  lemma MissingIdsGrantEnd(session: Session)
    ensures CanEndSession(None, None, session)
  {
  }

  /** The list after `endReviewSession` succeeded for `sessionId`: every session with that id
      is gone, the others stay in order. */
  function EndSession(sessions: seq<Session>, sessionId: string): (r: seq<Session>)
    ensures forall i :: 0 <= i < |r| ==> r[i].sessionId != sessionId
    ensures Seqs.IsSubsequence(r, sessions)
    ensures forall s: Session :: s.sessionId != sessionId ==> multiset(r)[s] == multiset(sessions)[s]
  {
    Seqs.Filter(sessions, (s: Session) => s.sessionId != sessionId)
  }

  /** Ending a session that is not listed leaves the list as it is. */
  lemma EndUnlistedSession(sessions: seq<Session>, sessionId: string)
    requires forall i :: 0 <= i < |sessions| ==> sessions[i].sessionId != sessionId
    ensures EndSession(sessions, sessionId) == sessions
  {
    Seqs.FilterKeepsAll(sessions, (s: Session) => s.sessionId != sessionId);
  }

  /** What `getActiveSessionsByTeam` produced: a list, a null or absent body, or a failure. */
  datatype FetchOutcome = Fetched(body: Option<seq<Session>>) | FetchFailed

  /** `fetchActiveSessions`: nothing happens without a team id; otherwise the list becomes the
      fetched list, an absent body becomes the empty list, and a failure empties the list. */
  function FetchActiveSessions(sessions: seq<Session>, teamId: Option<string>, outcome: FetchOutcome): (r: seq<Session>)
    ensures teamId.None? || teamId.value == [] ==> r == sessions
    ensures teamId.Some? && teamId.value != [] && outcome.Fetched? && outcome.body.Some? ==> r == outcome.body.value
    ensures teamId.Some? && teamId.value != [] && !(outcome.Fetched? && outcome.body.Some?) ==> r == []
  {
    if teamId.None? || teamId.value == [] then sessions
    else match outcome
      case Fetched(body) => body.GetOr([])
      case FetchFailed => []
  }

  /** With a team id, a fetch replaces the list outright: its result does not depend on the
      list before it, so of two fetches the later one decides, and a session ended locally
      stays gone only until a fetch says otherwise. */
  lemma LastFetchWins(sessions: seq<Session>, other: seq<Session>, teamId: string, first: FetchOutcome, second: FetchOutcome)
    requires teamId != []
    ensures FetchActiveSessions(sessions, Some(teamId), second) == FetchActiveSessions(other, Some(teamId), second)
    ensures FetchActiveSessions(FetchActiveSessions(sessions, Some(teamId), first), Some(teamId), second)
         == FetchActiveSessions(sessions, Some(teamId), second)
  {
  }
}
