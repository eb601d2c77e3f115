/** The review-session viewer: a reducer that reconciles inbound session events with the local
    player, the local transport actions that publish commands, the unmount rule that releases
    the shared connection, and the clock display. Times are integer milliseconds; the player's
    deferred (100 ms) play/pause step is applied immediately after its seek. */
module SessionViewer {
  import opened Wrappers
  import Text
  import Decimal
  import Seqs
  import WS = WebSocketService

  type UserId = string

  /** The media surface as the viewer sees it: position and playing state. */
  datatype Player = Player(positionMs: int, playing: bool)

  /** The calls the viewer makes on the media surface, in order. */
  datatype PlayerCall = SeekTo(ms: int) | PlayVideo | PauseVideo

  function ApplyCall(p: Player, c: PlayerCall): Player {
    match c
    case SeekTo(ms) => p.(positionMs := ms)
    case PlayVideo => p.(playing := true)
    case PauseVideo => p.(playing := false)
  }

  /** The media surface after executing `calls` in order. */
  function ApplyCalls(p: Player, calls: seq<PlayerCall>): Player
    decreases |calls|
  {
    if calls == [] then p else ApplyCalls(ApplyCall(p, calls[0]), calls[1..])
  }

  /** Executing a seek followed by at most one play/pause call. */
  lemma ApplySeekThen(p: Player, t: int, follow: seq<PlayerCall>)
    requires |follow| <= 1
    ensures ApplyCalls(p, [SeekTo(t)] + follow) == ApplyCalls(p.(positionMs := t), follow)
  {
    assert ([SeekTo(t)] + follow)[1..] == follow;
  }

  datatype Note = Note(id: string, content: string, timestampMs: int, author: Option<string>, createdAt: int)
  datatype Participant = Participant(userId: Option<UserId>, username: Option<string>)
  datatype User = User(userId: Option<UserId>, username: Option<string>)

  datatype Viewer = Viewer(
    player: Option<Player>,
    currentTimeMs: int,
    isPlaying: bool,
    notes: seq<Note>,
    participants: seq<Participant>,
    isConnected: bool,
    newNote: string,
    isAddingNote: bool,
    currentUser: Option<User>)

  /** `currentUser?.userId`: absent when there is no user or the user has no id. */
  function CurrentUserId(v: Viewer): Option<UserId> {
    match v.currentUser
    case None => None
    case Some(u) => u.userId
  }

  /** The event kinds of the session topic, with their payloads. */
  datatype Kind =
    | PlayEvent(position: int)
    | PauseEvent(position: int)
    | SeekEvent(position: int, isPlaying: bool)
    | SyncResponse(position: int, isPlaying: bool)
    | NoteAdded(noteId: Option<string>, content: string, videoTimestamp: int, authorName: Option<string>)
    | UserJoined
    | UserLeft
    | UnknownEvent(tag: string)

  /** An inbound message: kind and payload, originating user, username and send time. */
  datatype Inbound = Inbound(kind: Kind, userId: Option<UserId>, username: Option<string>, timestamp: int)

  /** The play/pause call that brings a player to `target`, or none when it is already there. */
  function Reconcile(p: Player, target: bool): (calls: seq<PlayerCall>)
    ensures ApplyCalls(p, calls).playing == target
    ensures ApplyCalls(p, calls).positionMs == p.positionMs
    ensures calls == [] <==> p.playing == target
    ensures |calls| <= 1
  {
    if target && !p.playing then [PlayVideo]
    else if !target && p.playing then [PauseVideo]
    else []
  }

  /** The note a remote NOTE_ADDED event contributes; `now` stands for `Date.now()` when the
      payload has no note id. */
  function RemoteNote(m: Inbound, now: int): Note
    requires m.kind.NoteAdded?
  {
    var k := m.kind;
    Note(Text.OrElse(k.noteId, Decimal.IntToString(now)), k.content, k.videoTimestamp,
         if k.authorName.Some? && k.authorName.value != [] then k.authorName else m.username,
         m.timestamp)
  }

  /** `handleWebSocketMessage`: the viewer after one inbound event, and the player calls made. */
  function Handle(v: Viewer, m: Inbound, now: int): (r: (Viewer, seq<PlayerCall>))
    // the calls and the recorded player state always agree
    ensures v.player.Some? ==> r.0.player == Some(ApplyCalls(v.player.value, r.1))
    ensures v.player.None? ==> r.0.player.None? && r.1 == []
    // fields the reducer does not own
    ensures r.0.isConnected == v.isConnected && r.0.newNote == v.newNote
    ensures r.0.isAddingNote == v.isAddingNote && r.0.currentUser == v.currentUser
    // transport events
    ensures (m.kind.PlayEvent? || m.kind.PauseEvent?) && v.player.Some? ==>
      && r.1 == [SeekTo(m.kind.position), if m.kind.PlayEvent? then PlayVideo else PauseVideo]
      && r.0.isPlaying == m.kind.PlayEvent? && r.0.currentTimeMs == m.kind.position
    ensures (m.kind.SeekEvent? || m.kind.SyncResponse?) && v.player.Some? ==>
      && |r.1| >= 1 && r.1[0] == SeekTo(m.kind.position)
      && r.0.currentTimeMs == m.kind.position
      && (r.1 == [SeekTo(m.kind.position)] <==> v.player.value.playing == m.kind.isPlaying)
    ensures m.kind.SyncResponse? && v.player.Some? ==> r.0.isPlaying == m.kind.isPlaying
    ensures m.kind.SeekEvent? && v.player.Some? ==>
      r.0.isPlaying == if v.player.value.playing == m.kind.isPlaying then v.isPlaying else m.kind.isPlaying
    ensures !m.kind.NoteAdded? && !m.kind.UserJoined? && !m.kind.UserLeft? && v.player.None? ==> r.0 == v
    // notes
    ensures !m.kind.NoteAdded? ==> r.0.notes == v.notes
    ensures m.kind.NoteAdded? ==>
      if m.userId == CurrentUserId(v) then r.0.notes == v.notes
      else r.0.notes == v.notes + [RemoteNote(m, now)] && r.0.notes[|v.notes|].content == m.kind.content
    // participants
    ensures m.kind.UserJoined? ==> r.0.participants == v.participants + [Participant(m.userId, m.username)]
    ensures m.kind.UserLeft? ==>
      && (forall i :: 0 <= i < |r.0.participants| ==> r.0.participants[i].userId != m.userId)
      && Seqs.IsSubsequence(r.0.participants, v.participants)
      && (forall q: Participant :: q.userId != m.userId ==> multiset(r.0.participants)[q] == multiset(v.participants)[q])
    ensures !m.kind.UserJoined? && !m.kind.UserLeft? ==> r.0.participants == v.participants
    ensures m.kind.NoteAdded? || m.kind.UserJoined? || m.kind.UserLeft? ==>
      && r.1 == [] && r.0.player == v.player
      && r.0.currentTimeMs == v.currentTimeMs && r.0.isPlaying == v.isPlaying
    ensures m.kind.UnknownEvent? ==> r == (v, [])
  {
    match m.kind
    case PlayEvent(t) =>
      if v.player.None? then (v, [])
      else
        ApplySeekThen(v.player.value, t, [PlayVideo]);
        assert [SeekTo(t)] + [PlayVideo] == [SeekTo(t), PlayVideo];
        (v.(player := Some(Player(t, true)), isPlaying := true, currentTimeMs := t), [SeekTo(t), PlayVideo])
    case PauseEvent(t) =>
      if v.player.None? then (v, [])
      else
        ApplySeekThen(v.player.value, t, [PauseVideo]);
        assert [SeekTo(t)] + [PauseVideo] == [SeekTo(t), PauseVideo];
        (v.(player := Some(Player(t, false)), isPlaying := false, currentTimeMs := t), [SeekTo(t), PauseVideo])
    case SeekEvent(t, target) =>
      if v.player.None? then (v, [])
      else
        var seeked := v.player.value.(positionMs := t);
        var follow := Reconcile(seeked, target);
        ApplySeekThen(v.player.value, t, follow);
        (v.(player := Some(seeked.(playing := target)), currentTimeMs := t,
            isPlaying := if follow == [] then v.isPlaying else target),
         [SeekTo(t)] + follow)
    case SyncResponse(t, target) =>
      if v.player.None? then (v, [])
      else
        var seeked := v.player.value.(positionMs := t);
        var follow := Reconcile(seeked, target);
        ApplySeekThen(v.player.value, t, follow);
        (v.(player := Some(seeked.(playing := target)), currentTimeMs := t, isPlaying := target),
         [SeekTo(t)] + follow)
    case NoteAdded(_, _, _, _) =>
      if m.userId == CurrentUserId(v) then (v, [])
      else (v.(notes := v.notes + [RemoteNote(m, now)]), [])
    case UserJoined =>
      (v.(participants := v.participants + [Participant(m.userId, m.username)]), [])
    case UserLeft =>
      (v.(participants := Seqs.Filter(v.participants, (q: Participant) => q.userId != m.userId)), [])
    case UnknownEvent(_) =>
      (v, [])
  }

  /** The media surface after each reconciling event: the event's position, and the event's
      playing state (for PLAY and PAUSE, the state those commands name). */
  lemma {:induction false} TransportEventsConverge(v: Viewer, m: Inbound, now: int)
    requires v.player.Some?
    requires m.kind.PlayEvent? || m.kind.PauseEvent? || m.kind.SeekEvent? || m.kind.SyncResponse?
    ensures var p := Handle(v, m, now).0.player.value;
      && p.positionMs == m.kind.position
      && p.playing == (if m.kind.PlayEvent? then true else if m.kind.PauseEvent? then false else m.kind.isPlaying)
  {
    var (r, calls) := Handle(v, m, now);
    ApplyCallsAppend(v.player.value, calls[..1], calls[1..]);
    assert calls == calls[..1] + calls[1..];
    if m.kind.SeekEvent? || m.kind.SyncResponse? {
      var seeked := v.player.value.(positionMs := m.kind.position);
      assert calls[1..] == Reconcile(seeked, m.kind.isPlaying);
    }
  }

  /** Executing two call sequences one after the other is executing their concatenation. */
  lemma {:induction false} ApplyCallsAppend(p: Player, a: seq<PlayerCall>, b: seq<PlayerCall>)
    ensures ApplyCalls(p, a + b) == ApplyCalls(ApplyCalls(p, a), b)
    decreases |a|
  {
    if a != [] {
      assert (a + b)[0] == a[0];
      assert (a + b)[1..] == a[1..] + b;
      ApplyCallsAppend(ApplyCall(p, a[0]), a[1..], b);
      assert ApplyCalls(p, a + b) == ApplyCalls(ApplyCall(p, a[0]), a[1..] + b);
      assert ApplyCalls(p, a) == ApplyCalls(ApplyCall(p, a[0]), a[1..]);
    } else {
      assert a + b == b;
    }
  }

  /** Transport events are obeyed whoever sent them: the originating user does not matter. */
  lemma TransportEventsIgnoreSender(v: Viewer, m: Inbound, sender: Option<UserId>, now: int)
    requires !m.kind.NoteAdded? && !m.kind.UserJoined? && !m.kind.UserLeft?
    ensures Handle(v, m, now) == Handle(v, m.(userId := sender), now)
  {
  }

  /** Two clients with players that receive the same PLAY, PAUSE or SYNC_RESPONSE end up with
      the same player state and the same displayed time and playing flag, whatever each
      showed before. */
  lemma ClientsConverge(a: Viewer, b: Viewer, m: Inbound, now: int)
    requires a.player.Some? && b.player.Some?
    requires m.kind.PlayEvent? || m.kind.PauseEvent? || m.kind.SyncResponse?
    ensures Handle(a, m, now).0.player == Handle(b, m, now).0.player
    ensures Handle(a, m, now).0.currentTimeMs == Handle(b, m, now).0.currentTimeMs
    ensures Handle(a, m, now).0.isPlaying == Handle(b, m, now).0.isPlaying
  {
    TransportEventsConverge(a, m, now);
    TransportEventsConverge(b, m, now);
  }

  /** Notes only ever grow: every event keeps the notes already shown, in place. */
  lemma NotesAppendOnly(v: Viewer, m: Inbound, now: int)
    ensures var notes := Handle(v, m, now).0.notes;
      |v.notes| <= |notes| <= |v.notes| + 1 && notes[..|v.notes|] == v.notes
  {
    var notes := Handle(v, m, now).0.notes;
    if |notes| > |v.notes| {
      assert notes[..|v.notes|] == v.notes;
    }
  }

  /** What a local action publishes (handed to the connection, which may drop it). */
  datatype Outbound =
    | PlayCommand(timestampMs: int)
    | PauseCommand(timestampMs: int)
    | SeekCommand(timestampMs: int, isPlaying: bool)
    | NoteCommand(noteId: string, content: string, videoTimestampMs: int)

  datatype ActionResult = ActionResult(viewer: Viewer, calls: seq<PlayerCall>, sent: Option<Outbound>)

  /** Local transport actions need a player and a live session subscription. */
  predicate CanControl(v: Viewer) {
    v.player.Some? && v.isConnected
  }

  /** `handlePlay`: play locally at once and publish PLAY at the current position. */
  function LocalPlay(v: Viewer): (r: ActionResult)
    ensures !CanControl(v) ==> r == ActionResult(v, [], None)
    ensures CanControl(v) ==>
      && r.sent == Some(PlayCommand(v.player.value.positionMs))
      && r.viewer.player == Some(ApplyCalls(v.player.value, r.calls))
      && r.viewer.player.value.playing && r.viewer.isPlaying
      && r.viewer.player.value.positionMs == v.player.value.positionMs
      && r.viewer.notes == v.notes && r.viewer.currentTimeMs == v.currentTimeMs
  {
    if CanControl(v) then
      var p := v.player.value;
      ActionResult(v.(player := Some(p.(playing := true)), isPlaying := true), [PlayVideo], Some(PlayCommand(p.positionMs)))
    else
      ActionResult(v, [], None)
  }

  /** `handlePause`: pause locally at once and publish PAUSE at the current position. */
  function LocalPause(v: Viewer): (r: ActionResult)
    ensures !CanControl(v) ==> r == ActionResult(v, [], None)
    ensures CanControl(v) ==>
      && r.sent == Some(PauseCommand(v.player.value.positionMs))
      && r.viewer.player == Some(ApplyCalls(v.player.value, r.calls))
      && !r.viewer.player.value.playing && !r.viewer.isPlaying
      && r.viewer.player.value.positionMs == v.player.value.positionMs
      && r.viewer.notes == v.notes && r.viewer.currentTimeMs == v.currentTimeMs
  {
    if CanControl(v) then
      var p := v.player.value;
      ActionResult(v.(player := Some(p.(playing := false)), isPlaying := false), [PauseVideo], Some(PauseCommand(p.positionMs)))
    else
      ActionResult(v, [], None)
  }

  /** `handleSeek` for a target already computed from the click position: seek locally and
      publish SEEK with the viewer's playing flag. */
  function LocalSeek(v: Viewer, targetMs: int): (r: ActionResult)
    ensures !CanControl(v) ==> r == ActionResult(v, [], None)
    ensures CanControl(v) ==>
      && r.sent == Some(SeekCommand(targetMs, v.isPlaying))
      && r.viewer.player == Some(ApplyCalls(v.player.value, r.calls))
      && r.viewer.player.value.positionMs == targetMs && r.viewer.currentTimeMs == targetMs
      && r.viewer.player.value.playing == v.player.value.playing && r.viewer.isPlaying == v.isPlaying
  {
    if CanControl(v) then
      ActionResult(v.(player := Some(v.player.value.(positionMs := targetMs)), currentTimeMs := targetMs),
                   [SeekTo(targetMs)], Some(SeekCommand(targetMs, v.isPlaying)))
    else
      ActionResult(v, [], None)
  }

  /** `handleAddNote`: with non-blank text, a player and a subscription, append one note
      holding the trimmed text at the current position, publish it, and clear the input;
      otherwise nothing. `now` stands for `Date.now()`. */
  function LocalAddNote(v: Viewer, now: int): (r: ActionResult)
    ensures r.calls == []
    ensures Text.IsBlank(v.newNote) || !CanControl(v) ==> r == ActionResult(v, [], None)
    ensures !Text.IsBlank(v.newNote) && CanControl(v) ==>
      && |r.viewer.notes| == |v.notes| + 1 && r.viewer.notes[..|v.notes|] == v.notes
      && r.viewer.notes[|v.notes|].content == Text.Trim(v.newNote) != []
      && r.viewer.notes[|v.notes|].timestampMs == v.player.value.positionMs
      && r.sent == Some(NoteCommand(r.viewer.notes[|v.notes|].id, Text.Trim(v.newNote), v.player.value.positionMs))
      && r.viewer.newNote == [] && !r.viewer.isAddingNote
      && r.viewer.player == v.player && r.viewer.isPlaying == v.isPlaying
  {
    var content := Text.Trim(v.newNote);
    if content != [] && CanControl(v) then
      var id := Decimal.IntToString(now);
      var at := v.player.value.positionMs;
      var author := Some(Text.OrElse(match v.currentUser case None => None case Some(u) => u.username, "You"));
      var notes := v.notes + [Note(id, content, at, author, now)];
      assert notes[..|v.notes|] == v.notes;
      ActionResult(v.(notes := notes, newNote := [], isAddingNote := false), [], Some(NoteCommand(id, content, at)))
    else
      ActionResult(v, [], None)
  }

  /** A local note never shows twice: when the server echoes it back as NOTE_ADDED from the
      local user, the notes list stays as the local action left it. */
  lemma OwnNoteNotDuplicated(v: Viewer, now: int, echo: Inbound, later: int)
    requires !Text.IsBlank(v.newNote) && CanControl(v)
    requires echo.kind.NoteAdded? && echo.userId == CurrentUserId(v)
    ensures var local := LocalAddNote(v, now).viewer;
      Handle(local, echo, later).0.notes == local.notes && |local.notes| == |v.notes| + 1
  {
  }

  /** Hands an outbound command to the connection: each command goes to its own destination
      of the session, and it goes out exactly when connected and the client accepts it. */
  function Publish(ws: WS.Service, sid: WS.SessionId, out: Outbound, accepted: bool): (r: Option<WS.Frame>)
    ensures r.Some? <==> ws.connected && ws.client.Some? && accepted
    ensures out.PlayCommand? && r.Some? ==>
      r.value == WS.Frame(WS.AppDestination(sid, "play"), WS.TransportBody(out.timestampMs, true))
    ensures out.PauseCommand? && r.Some? ==>
      r.value == WS.Frame(WS.AppDestination(sid, "pause"), WS.TransportBody(out.timestampMs, false))
    ensures out.SeekCommand? && r.Some? ==>
      r.value == WS.Frame(WS.AppDestination(sid, "seek"), WS.TransportBody(out.timestampMs, out.isPlaying))
    ensures out.NoteCommand? && r.Some? ==>
      r.value == WS.Frame(WS.AppDestination(sid, "note"), WS.NoteBody(out.noteId, out.content, out.videoTimestampMs))
  {
    match out
    case PlayCommand(t) => WS.SendPlay(ws, sid, t, accepted)
    case PauseCommand(t) => WS.SendPause(ws, sid, t, accepted)
    case SeekCommand(t, playing) => WS.SendSeek(ws, sid, t, playing, accepted)
    case NoteCommand(id, content, at) => WS.SendNote(ws, sid, WS.NoteBody(id, content, at), accepted)
  }

  /** Two clients in one session: A plays locally, the server broadcasts A's PLAY, and both A
      and B (whatever B showed) end up playing at A's position. */
  lemma LocalPlayBroadcastConverges(a: Viewer, b: Viewer, sender: Option<UserId>, sentAt: int, now: int)
    requires CanControl(a) && b.player.Some?
    ensures var act := LocalPlay(a);
      var echo := Inbound(PlayEvent(act.sent.value.timestampMs), sender, None, sentAt);
      var a2 := Handle(act.viewer, echo, now).0;
      var b2 := Handle(b, echo, now).0;
      && a2.player == b2.player == Some(Player(a.player.value.positionMs, true))
      && a2.currentTimeMs == b2.currentTimeMs == a.player.value.positionMs
      && a2.isPlaying && b2.isPlaying
  {
  }

  /** `subscribeToSession` in the viewer: the session counts as connected exactly when the
      service returned a subscription. */
  function AfterSubscribe(v: Viewer, sub: Option<WS.Subscription>): (r: Viewer)
    ensures r.isConnected <==> sub.Some?
    ensures r.player == v.player && r.notes == v.notes && r.participants == v.participants
  {
    v.(isConnected := sub.Some?)
  }

  /** A view that marks itself connected after subscribing holds a registered subscription to
      its session's topic. That subscription may have been made on a client the service has
      since replaced; see `ViewerConnectedButDeaf`. */
  lemma ConnectedViewerIsSubscribed(v: Viewer, ws: WS.Service, sid: WS.SessionId, h: WS.HandlerRef, accepted: bool)
    requires WS.Valid(ws)
    ensures var (ws2, sub) := WS.Subscribe(ws, sid, h, accepted);
      AfterSubscribe(v, sub).isConnected ==>
        sid in ws2.subscriptions && ws2.subscriptions[sid].destination == WS.Topic(sid)
  {
  }

  /** As written, a view that subscribes after an automatic reconnection shows itself
      connected while its subscription belongs to the replaced client, so no session event
      reaches it. */
  lemma ViewerConnectedButDeaf(v: Viewer, ws: WS.Service, sid: WS.SessionId, h: WS.HandlerRef, accepted: bool)
    requires WS.Valid(ws) && WS.IsConnected(ws) && !ws.isDisconnecting
    requires ws.reconnectAttempts < WS.MaxReconnectAttempts && sid in ws.subscriptions
    ensures var (ws2, sub) := WS.Subscribe(WS.Run(ws, WS.ReconnectEvents, WS.AsWritten).0, sid, h, accepted);
      AfterSubscribe(v, sub).isConnected && !WS.LiveSubscription(ws2, sid)
  {
    WS.StaleSubscriptionAfterReconnect(ws, sid, h, accepted);
  }

  /** With the corrected service, a view that shows itself connected holds a subscription on
      the current client, whatever happened to the connection before. */
  lemma CorrectedConnectedViewerReceives(v: Viewer, ws: WS.Service, events: seq<WS.Event>, sid: WS.SessionId,
                                         h: WS.HandlerRef, accepted: bool)
    requires WS.Valid(ws) && WS.AllLive(ws)
    ensures var (ws2, sub) := WS.Subscribe(WS.Run(ws, events, WS.Corrected).0, sid, h, accepted);
      AfterSubscribe(v, sub).isConnected ==> WS.LiveSubscription(ws2, sid)
  {
    WS.CorrectedSubscribeIsLive(ws, events, sid, h, accepted);
  }

  /** Whether the player component hands the viewer's `ref` on to its controls. `YouTubePlayer`
      is a plain function component: it neither forwards a ref nor exposes an imperative
      handle (its controls hang on an internal container ref), so the viewer's `playerRef`
      is never set. */
  const PlayerForwardsRef: bool := false

  /** The viewer once mounted and rendered: the player is attached only when the player
      component forwards its ref; everything else starts empty. */
  function Mount(user: Option<User>, media: Player, forwardsRef: bool): (v: Viewer)
    ensures forwardsRef <==> v.player.Some?
    ensures forwardsRef ==> v.player == Some(media)
    ensures v.notes == [] && v.participants == [] && !v.isConnected && !v.isPlaying && v.currentTimeMs == 0
    ensures v.currentUser == user
  {
    Viewer(if forwardsRef then Some(media) else None, 0, false, [], [], false, "", false, user)
  }

  /** Everything that can happen to a mounted viewer. */
  datatype Action =
    | Receive(m: Inbound, now: int)
    | PressPlay
    | PressPause
    | ClickSeek(targetMs: int)
    | AddNote(now: int)

  /** One action: an inbound event or a local control. */
  function Act(v: Viewer, a: Action): (r: ActionResult)
    ensures v.player.None? ==> r.viewer.player.None? && r.calls == [] && r.sent.None?
    ensures v.player.None? ==> r.viewer.currentTimeMs == v.currentTimeMs && r.viewer.isPlaying == v.isPlaying
    ensures v.player.None? && !a.Receive? ==> r.viewer == v
  {
    match a
    case Receive(m, now) =>
      var (w, calls) := Handle(v, m, now);
      ActionResult(w, calls, None)
    case PressPlay => LocalPlay(v)
    case PressPause => LocalPause(v)
    case ClickSeek(t) => LocalSeek(v, t)
    case AddNote(now) => LocalAddNote(v, now)
  }

  /** A sequence of actions: the final viewer, every player call made and everything sent. */
  function RunActions(v: Viewer, actions: seq<Action>): (r: (Viewer, seq<PlayerCall>, seq<Outbound>))
    decreases |actions|
  {
    if actions == [] then (v, [], [])
    else
      var step := Act(v, actions[0]);
      var (w, calls, sent) := RunActions(step.viewer, actions[1..]);
      (w, step.calls + calls, (if step.sent.Some? then [step.sent.value] else []) + sent)
  }

  /** A viewer without a player obeys no transport event and publishes nothing: no call
      reaches the media surface, the shown time and playing flag never move, and the local
      play, pause, seek and note actions send nothing. */
  lemma {:induction false} DetachedViewerIsInert(v: Viewer, actions: seq<Action>)
    requires v.player.None?
    ensures var (w, calls, sent) := RunActions(v, actions);
      && w.player.None? && calls == [] && sent == []
      && w.currentTimeMs == v.currentTimeMs && w.isPlaying == v.isPlaying
    decreases |actions|
  {
    if actions != [] {
      var step := Act(v, actions[0]);
      DetachedViewerIsInert(step.viewer, actions[1..]);
    }
  }

  /** As written, the mounted viewer never has a player: whatever it receives or the user
      clicks, it never seeks, plays or pauses, and never publishes a command or a note. */
  lemma AsWrittenViewerNeverControls(user: Option<User>, media: Player, actions: seq<Action>)
    ensures var (w, calls, sent) := RunActions(Mount(user, media, PlayerForwardsRef), actions);
      calls == [] && sent == [] && !w.isPlaying && w.currentTimeMs == 0
  {
    DetachedViewerIsInert(Mount(user, media, PlayerForwardsRef), actions);
  }

  /** With a player component that forwards its ref, two freshly mounted viewers that receive
      the same PLAY, PAUSE or SYNC_RESPONSE show the same position and playing state,
      whatever their players showed before. */
  lemma ForwardedViewersConverge(u1: Option<User>, u2: Option<User>, media1: Player, media2: Player, m: Inbound, now: int)
    requires m.kind.PlayEvent? || m.kind.PauseEvent? || m.kind.SyncResponse?
    ensures var a := Handle(Mount(u1, media1, true), m, now).0;
      var b := Handle(Mount(u2, media2, true), m, now).0;
      && a.player == b.player
      && a.player.value.positionMs == m.kind.position
      && a.currentTimeMs == b.currentTimeMs && a.isPlaying == b.isPlaying
  {
    ClientsConverge(Mount(u1, media1, true), Mount(u2, media2, true), m, now);
    TransportEventsConverge(Mount(u1, media1, true), m, now);
  }

  /** The unmount cleanup: release this session's subscription, then disconnect the shared
      service only if no other view still holds a subscription. */
  function Unmount(ws: WS.Service, sid: WS.SessionId, accepted: bool): (r: WS.Service)
    ensures WS.Valid(ws) ==> WS.Valid(r)
    ensures accepted ==> sid !in r.subscriptions
    ensures r.subscriptions.Keys == ws.subscriptions.Keys - (if accepted then {sid} else {})
      || r.subscriptions == map[]
    ensures (exists other :: other in ws.subscriptions && (other != sid || !accepted)) ==>
      r.connected == ws.connected && r.client == ws.client
      && forall other :: other in ws.subscriptions && (other != sid || !accepted) ==>
           other in r.subscriptions && r.subscriptions[other] == ws.subscriptions[other]
    ensures r.subscriptions == map[] && ws.client.Some? ==>
      r.client.None? && !r.connected && r.reconnectAttempts == WS.MaxReconnectAttempts
  {
    var s1 := WS.Unsubscribe(ws, sid, accepted);
    if |s1.subscriptions| == 0 then WS.Disconnect(s1) else s1
  }

  /** `formatTime` for whole seconds: minutes (rounded down), a colon, and the seconds
      remainder padded to two digits. The remainder follows JavaScript's `%`, which keeps the
      sign of the dividend. */
  function FormatTime(seconds: int): (r: string)
    ensures seconds >= 0 ==> |r| >= 4 && r[|r| - 3] == ':'
  {
    var mins := seconds / 60;
    var secs := if seconds >= 0 then seconds % 60 else -((-seconds) % 60);
    FormatTimeShape(mins, secs);
    Decimal.IntToString(mins) + ":" + Decimal.PadStart2(Decimal.IntToString(secs))
  }

  /** With a remainder in 0..59 the padded seconds are exactly two characters. */
  lemma FormatTimeShape(mins: int, secs: int)
    ensures var text := Decimal.IntToString(mins) + ":" + Decimal.PadStart2(Decimal.IntToString(secs));
      0 <= secs < 60 ==> |text| >= 4 && text[|text| - 3] == ':'
  {
    if 0 <= secs < 60 {
      SmallNatDigits(secs);
      var m := Decimal.IntToString(mins);
      var padded := Decimal.PadStart2(Decimal.IntToString(secs));
      assert |padded| == 2;
      var text := m + ":" + padded;
      assert text[|m|] == ':';
    }
  }

  /** A number below 100 takes at most two digits. */
  lemma SmallNatDigits(n: nat)
    requires n < 100
    ensures |Decimal.IntToString(n)| <= 2
  {
    if n >= 10 {
      assert Decimal.NatToString(n) == Decimal.NatToString(n / 10) + [Decimal.DigitChar(n % 10)];
      assert |Decimal.NatToString(n / 10)| == 1;
    }
  }

  /** Reads "m:ss" back into seconds. */
  function ParseClock(s: string): Option<int> {
    if |s| >= 4 && s[|s| - 3] == ':' then
      match (Decimal.ParseInt(s[..|s| - 3]), Decimal.ParseInt(s[|s| - 2..]))
      case (Some(m), Some(sec)) => Some(m * 60 + sec)
      case _ => None
    else None
  }

  /** The clock display loses nothing for non-negative times: it reads back to the same
      number of seconds. */
  lemma FormatTimeRoundTrip(seconds: nat)
    ensures ParseClock(FormatTime(seconds)) == Some(seconds)
  {
    var mins := seconds / 60;
    var secs := seconds % 60;
    var m := Decimal.IntToString(mins);
    var padded := Decimal.PadStart2(Decimal.IntToString(secs));
    var r := FormatTime(seconds);
    SmallNatDigits(secs);
    assert r == m + ":" + padded;
    assert |padded| == 2;
    assert r[..|r| - 3] == m;
    assert r[|r| - 2..] == padded;
    Decimal.IntToStringRoundTrip(mins);
    PaddedRoundTrip(secs);
  }

  /** Padding a small number with a leading zero does not change the value read back. */
  lemma PaddedRoundTrip(n: nat)
    requires n < 60
    ensures Decimal.ParseInt(Decimal.PadStart2(Decimal.IntToString(n))) == Some(n)
  {
    Decimal.IntToStringRoundTrip(n);
    var d := Decimal.IntToString(n);
    SmallNatDigits(n);
    if |d| == 1 {
      var p := "0" + d;
      assert Decimal.PadStart2(d) == p;
      assert p[..1] == "0" && p[1..] == d;
      assert Decimal.ParseDigits(p) == Decimal.ParseDigits(p[..1]) * 10 + Decimal.DigitValue(p[1]);
    }
  }
}
