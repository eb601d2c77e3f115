# Team Sync front end — a Dafny model of its logic

Team Sync is a React front end for esports teams: team management, a practice-plan
calculator with a practice history, and synchronised video review sessions. Most of the
program renders JSX over REST calls. This project models the parts that carry logic and
proves what they guarantee:

- **`WebSocketService`** (`websocket_service.dfy`): the shared real-time connection as a
  state record with one transition per callback and public method. It covers connect,
  `onConnect`, the link-lost callbacks, `onDisconnect` with its bounded linear backoff,
  the reconnection timer, `disconnect`, subscribe and unsubscribe, and the publishers.
  `Step` and `Run` replay any sequence of events, counting the reconnection and reset
  timers still pending. Each subscription records the client it was made on. The lemmas
  prove:
  - an invariant every reachable state keeps (same keys in both maps, at most three
    attempts, every subscription on its session's topic);
  - at most three automatic reconnections between two successful connections;
  - `disconnect()` schedules no new reconnection. A reconnection timer scheduled before
    the call still fires once the disconnecting flag is reset, and reconnects (see
    Findings);
  - after an automatic reconnection, subscribing again returns the subscription made on
    the replaced client (see Findings).
  A `Corrected` variant cancels pending timers on `disconnect()` and renews subscriptions
  on `onConnect`. The lemmas prove that it stays disconnected for good and that its
  subscriptions always belong to the current client.
- **`SessionViewer`** (`session_viewer.dfy`): the review-session viewer.
  - The `handleWebSocketMessage` reducer acts on an abstract media surface: a position in
    integer milliseconds and a playing flag.
  - The guarded local actions (play, pause, seek, add note) and the unmount cleanup.
  - `formatTime`, with a round trip back to seconds.
  - Mounting. The viewer hands `ref={playerRef}` to `YouTubePlayer`
    (`ReviewSessionViewer.jsx:473-474`). That is a plain function component that takes
    no ref (`YouTubePlayer.jsx:3-11`); it hangs its controls on an internal container ref
    (`YouTubePlayer.jsx:163-175`). So `playerRef.current` stays null, and every
    player-guarded branch of the viewer is dead. The model mounts the viewer with a
    `forwardsRef` flag:
    - as written (no forwarding), the viewer never moves the video and never publishes;
    - the convergence lemmas, which assume a player, describe the program with the ref
      forwarded (see Findings).
- **`PracticeService`** and **`Uuid`**: the practice-request validator and its UUID
  pattern, tied to the variant and version fields of RFC 4122 (sections 4.1.1 and 4.1.3).
  Also the whole-hour duration formatter, with a round trip.
- **`PracticePlanCalculator`**: the calculator's form logic — initial type, the focus list
  capped at three, the popular-combination shortcut, and the request built on submit.
- **`YouTubeUrl`**, **`CreateReviewSessionForm`**, **`YouTubePlayer`**: the URL validator
  and the video-id extractor. Each regular expression is written as an explicit scan and
  proved equal to a declarative statement of what the expression matches (leftmost match,
  greedy `.*`, optional `www.`). Also the session-creation checks and payload, and the
  player's error messages and getters.
- **`ReviewSessionList`**, **`PracticeHistory`**, **`MemberTeamsList`**, **`AuthPage`**,
  **`TeamPage`**, **`Disclosure`**: URL shortening, the end-session permission rule, list
  updates, paging, focus labels, the non-owned team filter, registration checks and error
  messages, the member append and the role badges.
- **Shared helpers**:
  - `Text`: JavaScript's `trim` with the ECMAScript white-space set, and `||` on strings;
  - `Decimal`: integer to text and back;
  - `Seqs`: `filter`, `join`, subsequences and duplicates;
  - `Wrappers`: `Option` and `Result`.

Network calls, timers, storage and the browser's media API are not executed. Their
results are parameters of the functions that use them:
- the `accepted` flag of a publish or subscribe;
- a `FetchOutcome`;
- `now` for `Date.now()`;
- `hasToken` for the stored token.

The 100 ms delays of the viewer become immediate sequential steps.

The model follows these behaviours of the code:
- The local Play, Pause and Seek actions do nothing at all without a subscription, rather
  than applying locally and dropping the publish (`ReviewSessionViewer.jsx:283`).
- `isConnected()` does not look at the disconnecting flag (`WebSocketService.js:306-308`).
- A SYNC_RESPONSE whose playing state already matches still sets `isPlaying`; a SEEK does
  not (`ReviewSessionViewer.jsx:256-259`).
- NOTE_ADDED filters by originating user id using strict equality, so a missing id on
  both sides counts as "from me" (`ReviewSessionViewer.jsx:215`).

## Model

| member | source | states |
|---|---|---|
| WebSocketService.Init | web/src/services/WebSocketService.js:7-22 | The constructed singleton has no client, no subscriptions, no used attempts and no pending timer. It already satisfies the service invariant. |
| WebSocketService.IsConnectedIsFlag | web/src/services/WebSocketService.js:306-308 | Under the invariant, the four conditions of `isConnected()` hold exactly when the `connected` flag is set. |
| WebSocketService.Connect | web/src/services/WebSocketService.js:25-60 | A call while an attempt is in flight joins it. A connected client resolves at once. No token rejects without changing state. Otherwise a fresh, not yet connected client is activated with `isConnecting` set. Subscriptions, handlers, the retry counter and pending timers are untouched, and the invariant is kept. After a new client, none of the kept subscriptions belongs to it. |
| WebSocketService.OnConnect | web/src/services/WebSocketService.js:89-95 | A successful handshake makes the service connected with the retry budget restored to 0. Both maps are kept as they are, including subscriptions made on an earlier client. |
| WebSocketService.OnConnectResubscribing | web/src/services/WebSocketService.js:89-95 | Corrected `onConnect`: connected with the budget restored, and every registered session renewed on the current client, on its own topic, with the same handlers. |
| WebSocketService.LinkLost | web/src/services/WebSocketService.js:97-132 | The error and close callbacks leave the service disconnected with no attempt in flight, changing neither maps, counter nor disconnecting flag. |
| WebSocketService.OnDisconnect | web/src/services/WebSocketService.js:111-126 | A reconnection is scheduled exactly when not disconnecting and fewer than 3 attempts were used. The counter is then incremented, one more timer is pending, and the delay is 3000 ms times the new count. Otherwise the counter is unchanged. |
| WebSocketService.ReconnectTimerFired | web/src/services/WebSocketService.js:120-124 | A pending timer is used up. It calls `connect()` exactly when neither connected nor disconnecting, and otherwise changes nothing else. |
| WebSocketService.Disconnect | web/src/services/WebSocketService.js:146-184 | With a client: both maps emptied, client dropped, not connected, disconnecting, the counter set to the maximum, and the flag reset scheduled. Reconnection timers already pending stay pending. Without a client: nothing changes. |
| WebSocketService.DisconnectCancelling | web/src/services/WebSocketService.js:146-184 | Corrected `disconnect()`: the same as `disconnect()`, except that pending reconnection timers are cancelled. With a client, the service ends with no client, no connection, no pending reconnection and no retry budget. |
| WebSocketService.DisconnectSettled | web/src/services/WebSocketService.js:177-180 | The delayed reset clears only the disconnecting flag and uses up its timer. |
| WebSocketService.Subscribe | web/src/services/WebSocketService.js:186-223 | Not connected or no client: null and no change. Already subscribed: the existing subscription, no change. Otherwise a failed client call gives null. A successful one registers exactly this session, on its topic and on the current client, in the subscriptions, and its handler in the handlers. Every other entry, the client, the connection flags and the counter stay as they were. A subscription made while all subscriptions belong to the current client belongs to it too. |
| WebSocketService.Unsubscribe | web/src/services/WebSocketService.js:225-237 | Removes the session from both maps. It is a no-op for an unknown session or when the client's unsubscribe throws. Other entries and the connection are untouched, and subscriptions that belonged to the current client still do. |
| WebSocketService.SendMessage | web/src/services/WebSocketService.js:239-255 | Returns true exactly when a frame with the given destination and body was handed over. Nothing goes out without a connection and a client, and a connected client that accepts always gets it. |
| WebSocketService.SendPlay | web/src/services/WebSocketService.js:257-266 | A play command goes to the session's play destination, always carrying `isPlaying` true, and only when connected. |
| WebSocketService.SendPause | web/src/services/WebSocketService.js:268-277 | A pause command goes to the pause destination, always carrying `isPlaying` false. |
| WebSocketService.SendSeek | web/src/services/WebSocketService.js:279-288 | A seek command carries the timestamp and the caller's playing flag. |
| WebSocketService.RequestSync | web/src/services/WebSocketService.js:290-296 | A sync request is an empty body on the sync destination. |
| WebSocketService.SendNote | web/src/services/WebSocketService.js:298-304 | A note is forwarded unchanged to the note destination. |
| WebSocketService.TopicInjective | web/src/services/WebSocketService.js:198 | Different sessions subscribe to different topics. |
| WebSocketService.CommandsUseDistinctDestinations | web/src/services/WebSocketService.js:258-280 | Play, pause and seek use three different destinations of a session, so the server never reads a play as a pause or a seek. |
| WebSocketService.DestinationIdentifiesCommand | web/src/services/WebSocketService.js:257-304 | A destination determines both the session and the command: no two sessions or commands (play, pause, seek, sync, note) share one, even when a session id contains a slash. |
| WebSocketService.Step | web/src/services/WebSocketService.js:89-237 | Every event keeps the invariant, in both variants. Only `onDisconnect` schedules a reconnection, and apart from a connect or `disconnect()` the counter grows by exactly the scheduled reconnections. In the corrected variant every event keeps all subscriptions on the current client. |
| WebSocketService.RunPreservesValid | web/src/services/WebSocketService.js:111-237 | After any sequence of events, the two maps still have the same keys, the counter is at most 3, and every subscription is on its session's topic. |
| WebSocketService.ReconnectsBounded | web/src/services/WebSocketService.js:116-124 | Without a successful connection in between, at most 3 automatic reconnections are scheduled (fewer when attempts were already used). |
| WebSocketService.DisconnectSchedulesNoReconnect | web/src/services/WebSocketService.js:149-152 | After `disconnect()`, no event sequence without a successful handshake schedules a new reconnection or reports the service connected. Timers pending from before the call are not covered. |
| WebSocketService.DisconnectRacesPendingReconnect | web/src/services/WebSocketService.js:117-124 | As written: `onDisconnect` fires while not disconnecting, and a reconnection is scheduled. Then `disconnect()` runs, its reset fires, and then the timer fires. The service ends connected again on a new client, with no subscription. |
| WebSocketService.CorrectedStaysDown | web/src/services/WebSocketService.js:111-184 | Corrected: a service with no client, no pending reconnection and no budget stays so under every event except an explicit `connect()`, and schedules nothing. |
| WebSocketService.CorrectedDisconnectIsFinal | web/src/services/WebSocketService.js:146-184 | Corrected: after `disconnect()`, no event other than an explicit `connect()` creates a client, connects, or schedules a reconnection. |
| WebSocketService.StaleSubscriptionAfterReconnect | web/src/services/WebSocketService.js:64-73 | As written: `onDisconnect` fires while not disconnecting, and its timer reconnects on a new client. Subscribing again to a session that was subscribed before returns the old subscription. The service is connected, but that subscription does not belong to the current client. |
| WebSocketService.CorrectedSubscriptionsLive | web/src/services/WebSocketService.js:89-237 | Corrected: after any sequence of events, while connected, every subscription belongs to the current client. |
| WebSocketService.CorrectedSubscribeIsLive | web/src/services/WebSocketService.js:186-223 | Corrected: whatever happened before, a subscription returned by `subscribeToSession` belongs to the current client. |
| WebSocketService.StaysDisconnected | web/src/services/WebSocketService.js:89-95 | Only the `onConnect` callback ever sets the connected flag. |
| WebSocketService.ConnectResetsBudget | web/src/services/WebSocketService.js:93 | A successful handshake restores the whole retry budget, whatever came before, in both variants. |
| WebSocketService.SubscribeIdempotent | web/src/services/WebSocketService.js:193-196 | Once a subscription was returned, subscribing again to the same session returns it and changes nothing. |
| WebSocketService.SubscribeThenUnsubscribe | web/src/services/WebSocketService.js:213-231 | Subscribing a new session and unsubscribing it restores both maps. |
| SessionViewer.Reconcile | web/src/components/ReviewSessionViewer.jsx:201-209 | The play/pause follow-up issues a call only when the player's state differs from the target, and leaves the player in the target state at the same position. |
| SessionViewer.Handle | web/src/components/ReviewSessionViewer.jsx:166-280 | The reducer, per event kind. PLAY/PAUSE: seek to the payload time, then play or pause. SEEK and SYNC_RESPONSE: seek, then reconcile, with SYNC_RESPONSE always setting `isPlaying`. Nothing happens without a player. NOTE_ADDED: append one note unless the sender is the current user. USER_JOINED: append one participant. USER_LEFT: drop every participant with that id. Unknown events change nothing. The recorded player equals the surface after the calls made. |
| SessionViewer.TransportEventsConverge | web/src/components/ReviewSessionViewer.jsx:170-262 | With a player attached (the ref forwarded): after a PLAY, PAUSE, SEEK or SYNC_RESPONSE the player sits at the event's position, and for all but SEEK in the event's playing state. |
| SessionViewer.TransportEventsIgnoreSender | web/src/components/ReviewSessionViewer.jsx:170-171 | Transport events are applied the same whoever sent them. |
| SessionViewer.ClientsConverge | web/src/components/ReviewSessionViewer.jsx:227-262 | With the ref forwarded: two viewers with players that receive the same PLAY, PAUSE or SYNC_RESPONSE end in the same player state, time and playing flag. |
| SessionViewer.NotesAppendOnly | web/src/components/ReviewSessionViewer.jsx:213-225 | No event removes or reorders a shown note; at most one is appended. |
| SessionViewer.LocalPlay | web/src/components/ReviewSessionViewer.jsx:282-296 | Without a player and a subscription nothing happens. Otherwise the player plays, and PLAY is published at its current position. |
| SessionViewer.LocalPause | web/src/components/ReviewSessionViewer.jsx:298-312 | Symmetric to play: the player pauses and PAUSE is published at its position. |
| SessionViewer.LocalSeek | web/src/components/ReviewSessionViewer.jsx:314-332 | With a player and a subscription, the player seeks to the target, the shown time follows, and SEEK is published with the current playing flag. |
| SessionViewer.LocalAddNote | web/src/components/ReviewSessionViewer.jsx:334-356 | Only non-blank text with a player and a subscription adds a note. The note's content is the trimmed text, exactly one note is appended and published, and the input is cleared. |
| SessionViewer.OwnNoteNotDuplicated | web/src/components/ReviewSessionViewer.jsx:213-225 | A locally added note echoed back by the server from the same user is not shown twice. |
| SessionViewer.Publish | web/src/components/ReviewSessionViewer.jsx:292-342 | A command goes out exactly when the service is connected with a client that accepts it. Each goes to its own destination of the session: play and pause with the fixed playing flag, seek with the viewer's, and a note with its id, content and video time. |
| SessionViewer.LocalPlayBroadcastConverges | web/src/components/ReviewSessionViewer.jsx:170-181 | With the ref forwarded: when one client plays and the server broadcasts its PLAY, both that client and any other end up playing at the first client's position. |
| SessionViewer.AfterSubscribe | web/src/components/ReviewSessionViewer.jsx:140-157 | The view counts as connected exactly when the service returned a subscription. |
| SessionViewer.ConnectedViewerIsSubscribed | web/src/components/ReviewSessionViewer.jsx:142-145 | A view that marks itself connected holds a registered subscription to its session's topic. It may belong to a replaced client. |
| SessionViewer.ViewerConnectedButDeaf | web/src/components/ReviewSessionViewer.jsx:142-145 | As written: after an automatic reconnection, a view that subscribes shows itself connected. Its subscription does not belong to the current client. |
| SessionViewer.CorrectedConnectedViewerReceives | web/src/components/ReviewSessionViewer.jsx:142-145 | With the corrected service, after any events, a view that shows itself connected holds a subscription on the current client. |
| SessionViewer.Mount | web/src/components/ReviewSessionViewer.jsx:11-26 | The mounted viewer has a player exactly when the player component forwards its ref, and then the given one. It starts with no notes, no participants, no connection, paused at 0. |
| SessionViewer.Act | web/src/components/ReviewSessionViewer.jsx:166-356 | Without a player, no action calls the player or sends anything, and the shown time and playing flag stay. A local control then changes nothing at all. |
| SessionViewer.DetachedViewerIsInert | web/src/components/ReviewSessionViewer.jsx:172-335 | Without a player, any sequence of received events and local actions makes no player call, publishes nothing, and leaves the time and playing flag as they were. |
| SessionViewer.AsWrittenViewerNeverControls | web/src/components/ReviewSessionViewer.jsx:473-474 | As written (the ref is not forwarded), the mounted viewer never plays, pauses or seeks, stays paused at 0, and never publishes a command or a note. |
| SessionViewer.ForwardedViewersConverge | web/src/components/ReviewSessionViewer.jsx:170-262 | With the ref forwarded, two freshly mounted viewers that receive the same PLAY, PAUSE or SYNC_RESPONSE reach the event's position and the same state. |
| SessionViewer.Unmount | web/src/components/ReviewSessionViewer.jsx:74-91 | Leaving releases this session's subscription. The shared connection is torn down only when no other subscription remains; otherwise the connection and other subscriptions are untouched. |
| SessionViewer.FormatTime | web/src/components/ReviewSessionViewer.jsx:369-373 | For non-negative seconds the text is at least four characters with the colon three from the end. |
| SessionViewer.FormatTimeRoundTrip | web/src/components/ReviewSessionViewer.jsx:369-373 | The "m:ss" text of a non-negative number of seconds reads back to that number. |
| PracticeService.ValidatePracticeRequest | web/src/services/PracticeService.js:178-211 | Valid exactly when no error was collected. Each of the five messages is present exactly when its check fails, stated independently of the code: hours outside 1..50 or missing; a focus list that is not 1–3 items; a repeated focus; a practice type other than INDIVIDUAL or TEAM; a non-blank team id without the UUID layout. The messages appear in check order. |
| PracticeService.HoursRejected | web/src/services/PracticeService.js:181 | The hours test fails exactly when the value is missing or outside 1..50. |
| PracticeService.FocusCountRejected | web/src/services/PracticeService.js:185 | The count test fails exactly when the field is not a list of 1 to 3 items. |
| PracticeService.SetSizeDiffers | web/src/services/PracticeService.js:189-191 | The set of focuses is smaller than the list exactly when some focus occurs twice. |
| PracticeService.PracticeTypeRejected | web/src/services/PracticeService.js:196 | The type test fails exactly when the type is missing or neither INDIVIDUAL nor TEAM. |
| PracticeService.TeamIdRejected | web/src/services/PracticeService.js:200-202 | A present team id is rejected exactly when it is not blank and lacks the UUID layout. |
| PracticeService.Collect | web/src/services/PracticeService.js:179-205 | Each message is collected exactly when its check failed, and nothing is collected exactly when all passed. |
| PracticeService.ErrorsInCheckOrder | web/src/services/PracticeService.js:179-205 | The collected messages are a subsequence of the checks in the order they run. |
| PracticeService.ValidIffAllChecksPass | web/src/services/PracticeService.js:207-210 | A request is valid exactly when it passes all five checks. |
| PracticeService.FormatPracticeDuration | web/src/services/PracticeService.js:239-251 | "0 minutes" for zero or missing. Otherwise the whole hours with "hour", plural only above one. |
| PracticeService.FormatPracticeDurationRoundTrip | web/src/services/PracticeService.js:240-248 | The formatted text reads back to the hour count, with a missing value read as 0. |
| Uuid.MatchesUuidIffLayout | web/src/services/PracticeService.js:201 | The anchored, case-insensitive pattern accepts exactly the 36-character strings with dashes at 8, 13, 18 and 23, a version digit 1–5 at 14, a variant digit 8/9/a/b at 19, and hex digits elsewhere. |
| Uuid.VariantDigitIsRfcVariant | web/src/services/PracticeService.js:201 | The variant position accepts exactly the hex digits whose top two bits are 1 0 (section 4.1.1 of RFC 4122). |
| Uuid.VersionDigitIsRfcVersion | web/src/services/PracticeService.js:201 | The version position accepts exactly the hex digits 1 to 5 (section 4.1.3 of RFC 4122). |
| PracticePlanCalculator.InitialPracticeType | web/src/components/PracticePlanCalculator.jsx:16-17 | TEAM exactly when a team is selected and individual practice is not forced; INDIVIDUAL otherwise. |
| PracticePlanCalculator.InitialForm | web/src/components/PracticePlanCalculator.jsx:19-24 | The form starts with the initial practice type, no focuses and two hours. Its team id is the selected team's id (the empty string when that is missing), or the empty string without a selected team. |
| PracticePlanCalculator.SelectTeamEffect | web/src/components/PracticePlanCalculator.jsx:38-46 | With a selected team and no forcing, the form switches to TEAM for that team, keeping focuses and hours. Otherwise it is unchanged. |
| PracticePlanCalculator.MountedTypeIsInitialType | web/src/components/PracticePlanCalculator.jsx:38-46 | The mount-time effect never contradicts the initial practice type. |
| PracticePlanCalculator.SlideHours | web/src/components/PracticePlanCalculator.jsx:70-76 | Moving the slider sets the hours to the slider position and changes nothing else. |
| PracticePlanCalculator.SliderHoursAccepted | web/src/components/PracticePlanCalculator.jsx:287-295 | Every slider position, 1 to 12, passes the validator's 1-to-50 hours check. |
| PracticePlanCalculator.Cap | web/src/components/PracticePlanCalculator.jsx:86 | At most three focuses are kept: the list itself when short enough, otherwise its first three. |
| PracticePlanCalculator.FocusAreaChange | web/src/components/PracticePlanCalculator.jsx:78-89 | The list never exceeds three. Checking with room appends the value, and with three selected changes nothing. Checking on a longer list (possible after a popular combination) cuts it to its first three. Unchecking removes every occurrence and keeps the others in order, with their counts when the list was within the cap. |
| PracticePlanCalculator.CheckThenUncheck | web/src/components/PracticePlanCalculator.jsx:80-86 | Checking a new focus with room and unchecking it restores the list. |
| PracticePlanCalculator.UsePopularCombination | web/src/components/PracticePlanCalculator.jsx:91-104 | With a non-empty popular list for the current type, the focuses become its entries' values in order. In every other case nothing changes, and the other fields are never touched. |
| PracticePlanCalculator.Submit | web/src/components/PracticePlanCalculator.jsx:106-124 | An invalid form is rejected. A valid one sends its type, focuses and hours, with a team id only for TEAM practice. |
| PracticePlanCalculator.RejectionListsErrors | web/src/components/PracticePlanCalculator.jsx:114-117 | The rejection message contains every validation error, in order, at the offsets of a ", "-join. |
| PracticePlanCalculator.RejectionSeparatesErrors | web/src/components/PracticePlanCalculator.jsx:116 | Between two consecutive errors of the rejection message stands exactly ", ". |
| PracticePlanCalculator.SentRequestIsValid | web/src/components/PracticePlanCalculator.jsx:119-124 | The request actually sent, with its team id possibly dropped, is itself a valid practice request. |
| YouTubeUrl.ValidateYouTubeUrl | web/src/components/CreateReviewSessionForm.jsx:28-37 | A URL is valid exactly when, anchored at the start, it has `http://` or `https://`, an optional `www.`, and then either a recognised prefix followed by an id character, or `youtube.com/watch?` followed on the same line by `v=` and an id character. |
| YouTubeUrl.FirstDirect | web/src/components/CreateReviewSessionForm.jsx:42 | The search for the first pattern finds its leftmost match, or proves there is none. |
| YouTubeUrl.LastVFrom | web/src/components/CreateReviewSessionForm.jsx:43 | The greedy `.*` stops at the last `v=` followed by an id character before the next line terminator. |
| YouTubeUrl.FirstWatch | web/src/components/CreateReviewSessionForm.jsx:43 | The search for the second pattern finds its leftmost match, or proves there is none. |
| YouTubeUrl.ExtractDirect | web/src/components/CreateReviewSessionForm.jsx:42 | The first pattern yields a non-empty run of id characters exactly when it matches somewhere. |
| YouTubeUrl.ExtractDirectLeftmost | web/src/components/CreateReviewSessionForm.jsx:42-49 | The first pattern reports the longest id run after the prefix of its leftmost match. |
| YouTubeUrl.ExtractWatch | web/src/components/CreateReviewSessionForm.jsx:43 | The second pattern yields a non-empty run of id characters exactly when it matches somewhere. |
| YouTubeUrl.ExtractWatchLeftmostGreedy | web/src/components/CreateReviewSessionForm.jsx:43-49 | At its leftmost match, the second pattern reports the id after the last usable `v=`. |
| YouTubeUrl.ExtractVideoId | web/src/components/CreateReviewSessionForm.jsx:40-53 | Null exactly when neither pattern matches anywhere. The first pattern wins whenever it matches, and a result is always a non-empty run of id characters. |
| YouTubeUrl.ValidUrlHasVideoId | web/src/components/CreateReviewSessionForm.jsx:28-53 | Every URL the validator accepts has a video id. |
| YouTubeUrl.ValidDirectUrlId | web/src/components/CreateReviewSessionForm.jsx:32-42 | For a URL accepted by the first validator pattern, the extracted id is the run right after the recognised prefix. |
| CreateReviewSessionForm.FirstFailure | web/src/components/CreateReviewSessionForm.jsx:63-81 | The checks fail in order: blank URL, invalid URL, blank title, title over 200, description over 1000. Each message appears exactly when every earlier check passed and its own failed; 200 and 1000 are accepted. |
| CreateReviewSessionForm.Payload | web/src/components/CreateReviewSessionForm.jsx:83-88 | URL and title are sent trimmed. The description is sent trimmed, or null exactly when it is blank. |
| CreateReviewSessionForm.Submit | web/src/components/CreateReviewSessionForm.jsx:55-91 | The form is rejected with the first failing check's message, or sent as the payload. |
| CreateReviewSessionForm.AfterCreate | web/src/components/CreateReviewSessionForm.jsx:93-98 | After creation all three fields are empty; otherwise the form is kept. |
| CreateReviewSessionForm.ClearedFormRejected | web/src/components/CreateReviewSessionForm.jsx:63-98 | A form cleared after a create is rejected with "YouTube URL is required" if submitted again. |
| CreateReviewSessionForm.SentTitleWithinLimits | web/src/components/CreateReviewSessionForm.jsx:71-86 | A sent title is never empty and at most 200 characters. |
| CreateReviewSessionForm.TrimmedUrlLosesId | web/src/components/CreateReviewSessionForm.jsx:67-85 | The form accepts `https://youtu.be/` followed by a no-break space. That value survives the URL field's own sanitization, yet the form sends `https://youtu.be/`, which fails the same URL check. |
| CreateReviewSessionForm.FirstFailureTrimmed | web/src/components/CreateReviewSessionForm.jsx:63-81 | The corrected checks: passing them means the trimmed URL is valid. |
| CreateReviewSessionForm.SubmitTrimmed | web/src/components/CreateReviewSessionForm.jsx:55-91 | The corrected submit sends the same payload exactly when the corrected checks pass. |
| CreateReviewSessionForm.SubmitTrimmedSendsValidUrl | web/src/components/CreateReviewSessionForm.jsx:63-85 | With the corrected checks, every URL sent is valid and has a video id. |
| YouTubePlayer.ExtractYouTubeVideoId | web/src/components/YouTubePlayer.jsx:19-35 | Null for an absent or empty URL. Any result is a non-empty run of id characters. |
| YouTubePlayer.ExtractorsAgree | web/src/components/YouTubePlayer.jsx:22-34 | The player's extractor and the form's extractor agree on every URL. |
| YouTubePlayer.ErrorKindOf | web/src/components/YouTubePlayer.jsx:113-120 | Code 2, 5 and 100 each have their own category. 101 and 150 share "cannot be embedded", and every other code is unknown. |
| YouTubePlayer.ErrorMessage | web/src/components/YouTubePlayer.jsx:110-121 | Every message is "Error loading video: " followed by the reason for the code's category. |
| YouTubePlayer.ErrorMessagesDistinguishKinds | web/src/components/YouTubePlayer.jsx:112-120 | Two codes give the same message exactly when they fall in the same category. |
| YouTubePlayer.TimeOrZero | web/src/components/YouTubePlayer.jsx:171-172 | 0 without a player or with a falsy answer; the player's answer otherwise. |
| YouTubePlayer.IsPlaying | web/src/components/YouTubePlayer.jsx:173 | Strict equality of the player state with the PLAYING constant, where two missing values are equal. |
| ReviewSessionList.FormatVideoUrl | web/src/components/ReviewSessionList.jsx:89-94 | URLs up to 50 characters are unchanged. Longer ones become their first 47 characters and "...", exactly 50 in all. |
| ReviewSessionList.FormatVideoUrlIdempotent | web/src/components/ReviewSessionList.jsx:89-94 | Shortening twice is shortening once. |
| ReviewSessionList.CanEndSession | web/src/components/ReviewSessionList.jsx:96-99 | A signed-in user may end a session exactly when they own the team or created the session. |
| ReviewSessionList.NonOwnerEndsOwnSessions | web/src/components/ReviewSessionList.jsx:96-99 | A signed-in non-owner may end exactly the sessions they created. |
| ReviewSessionList.MissingIdsGrantEnd | web/src/components/ReviewSessionList.jsx:96 | With no signed-in user id and no team owner id, every session may be ended. |
| ReviewSessionList.EndSession | web/src/components/ReviewSessionList.jsx:75-77 | Every session with the ended id is removed; all others stay, in order, with their counts. |
| ReviewSessionList.EndUnlistedSession | web/src/components/ReviewSessionList.jsx:75-77 | Ending an id that is not listed leaves the list unchanged. |
| ReviewSessionList.FetchActiveSessions | web/src/components/ReviewSessionList.jsx:15-31 | No change without a team id. Otherwise the list becomes the fetched list; a null body or a failure gives the empty list. |
| ReviewSessionList.LastFetchWins | web/src/components/ReviewSessionList.jsx:15-31 | With a team id, a fetch's result does not depend on the list before it, so of two fetches the later one alone decides the list. |
| PracticeHistory.PageFetched | web/src/components/PracticeHistory.jsx:41-46 | A loaded page replaces the history and clears the error, with another page exactly when this one holds 10 plans. A failure keeps the history and records an error. |
| PracticeHistory.PreviousPage | web/src/components/PracticeHistory.jsx:53-58 | Only after the first page: one page back, with the expanded plan collapsed. The page never goes negative. |
| PracticeHistory.NextPage | web/src/components/PracticeHistory.jsx:60-65 | Only when more pages exist: one page on, with the expanded plan collapsed. |
| PracticeHistory.Refresh | web/src/components/PracticeHistory.jsx:67-70 | Back to page 0, keeping the history and the expanded plan. |
| PracticeHistory.BackSteps | web/src/components/PracticeHistory.jsx:53-58 | Stepping back n times from page p ≥ n lands on page p − n with nothing expanded. |
| PracticeHistory.RefreshIsFirstPage | web/src/components/PracticeHistory.jsx:53-70 | Refresh lands where stepping back page by page ends, except that it keeps the expanded plan. "Previous" after a refresh does nothing. |
| PracticeHistory.HistoryQuery | web/src/components/PracticeHistory.jsx:36-38 | The request for a page sends no page index. |
| PracticeHistory.AsWrittenFirstPageEmpty | web/src/components/PracticeHistory.jsx:36-42 | As written, the first page asks for 0 plans: it shows nothing and offers no next page, however many plans exist. |
| PracticeHistory.AsWrittenPagesOverlap | web/src/components/PracticeHistory.jsx:36-38 | As written, every page repeats all plans of the page before it. |
| PracticeHistory.PagedHistoryQuery | web/src/components/PracticeHistory.jsx:36-38 | The intended request: page index and a page of 10. |
| PracticeHistory.PagedHistoryTiles | web/src/components/PracticeHistory.jsx:36-65 | With paged requests, pages 0 to n − 1 together show the first 10·n plans, each once, in order. |
| PracticeHistory.PagedFirstPageShowsPlans | web/src/components/PracticeHistory.jsx:36-42 | With paged requests, the first page starts with the newest plan, and "next" is offered exactly when at least 10 plans exist. |
| PracticeHistory.TogglePlanDetails | web/src/components/PracticeHistory.jsx:72-74 | Collapses the expanded plan or expands the given one, changing nothing else. |
| PracticeHistory.NextThenPrevious | web/src/components/PracticeHistory.jsx:53-65 | Forward then back returns to the same page with nothing expanded. |
| PracticeHistory.ShortPageEndsPaging | web/src/components/PracticeHistory.jsx:41-65 | After a page of fewer than 10 plans, "next" does nothing. |
| PracticeHistory.FocusDisplayName | web/src/components/PracticeHistory.jsx:76-90 | A known focus key gets a different, non-empty label that is not itself a key; any other key is returned unchanged. |
| PracticeHistory.LabelsCoverEveryFocus | web/src/components/PracticeHistory.jsx:77-88 | The labelled keys are exactly the ten practice focuses the service defines. |
| PracticeHistory.FocusLabelsDistinct | web/src/components/PracticeHistory.jsx:77-88 | Different known focuses get different labels. |
| Disclosure.Toggle | web/src/components/PracticeHistory.jsx:72-74 | The expanded entry collapses; any other entry becomes the only expanded one. |
| Disclosure.ToggleTwice | web/src/components/MemberTeamsList.jsx:31-33 | Toggling one entry twice restores the state exactly when nothing or that entry was expanded; from another expanded entry it leaves all collapsed. |
| AuthPage.RedirectTarget | web/src/pages/AuthPage.jsx:49 | The page the user came from, or "/dashboard" when there is none. |
| AuthPage.RegistrationCheck | web/src/pages/AuthPage.jsx:83-93 | Signing in makes no password check. Registering rejects mismatched passwords first, then passwords shorter than 6. No error exactly when both checks pass. |
| AuthPage.FailureMessage | web/src/pages/AuthPage.jsx:107-115 | 401 and 409 get fixed texts. Otherwise the error's own message when present, else the generic text; never empty. |
| AuthPage.Submit | web/src/pages/AuthPage.jsx:65-119 | A failed check shows its message and calls nothing. A successful call navigates to the redirect target, and a failed call shows its message. Navigation happens exactly when no error is shown. |
| AuthPage.MismatchReportedFirst | web/src/pages/AuthPage.jsx:83-93 | A short, mismatched password is reported as a mismatch. |
| AuthPage.SignInSkipsPasswordChecks | web/src/pages/AuthPage.jsx:71-80 | A successful sign-in navigates whatever the password fields hold. |
| TeamPage.MemberId | web/src/pages/TeamPage.jsx:35 | The server's id when non-empty, otherwise "temp-" followed by the time, which reads back from the id. |
| TeamPage.AddMember | web/src/pages/TeamPage.jsx:23-54 | On success exactly one member with the form's user and role is appended after the existing ones (a missing list counts as empty), and the form resets. On failure the team and form are kept and an error is shown. |
| TeamPage.TwoAddsAppendInOrder | web/src/pages/TeamPage.jsx:41-48 | Two successful adds append two members in order after the existing ones. The second uses the reset form. |
| TeamPage.RoleBadgeClass | web/src/pages/TeamPage.jsx:57-68 | Owner, Coach and Player each have their own class; exactly the other roles get the gray default. |
| MemberTeamsList.NotOwnedBy | web/src/components/MemberTeamsList.jsx:19 | Keeps exactly the teams the user does not own, in fetch order, with their counts. |
| MemberTeamsList.ShownIffFetchedAndNotOwned | web/src/components/MemberTeamsList.jsx:19 | A team is shown exactly when it was fetched and the user does not own it. |
| MemberTeamsList.FetchTeams | web/src/components/MemberTeamsList.jsx:13-29 | No change without a user id. A loaded list is filtered and clears the error; a failure empties the list and records an error. |
| MemberTeamsList.ToggleTeamDetails | web/src/components/MemberTeamsList.jsx:31-33 | Collapses the expanded team or expands the given one, leaving list and error alone. |
| Text.Trim | web/src/components/CreateReviewSessionForm.jsx:63 | `trim()` returns the infix with no white space at either end, everything outside it being white space, and is empty exactly for blank text. |
| Text.TrimIdempotent | web/src/components/CreateReviewSessionForm.jsx:85 | Trimming twice is trimming once. |
| Decimal.IntToStringRoundTrip | web/src/pages/TeamPage.jsx:35 | The decimal text of any integer reads back to that integer. |
| Seqs.Filter | web/src/components/ReviewSessionList.jsx:76 | `filter` keeps exactly the satisfying elements, in order, with their counts. |
| Seqs.JoinPlacesParts | web/src/components/PracticePlanCalculator.jsx:116 | Each part appears in the joined text at its offset. |
| Seqs.JoinPlacesSeparators | web/src/components/PracticePlanCalculator.jsx:116 | Between consecutive parts the joined text holds exactly the separator. |
| Seqs.DistinctIffNoDuplicate | web/src/services/PracticeService.js:190-191 | A list's set of values has the list's size exactly when no value repeats. |

## Left out

- HTTP calls, `localStorage`, the JWT and the authentication context are left out. The results of the fetchers and of login, register, create, end and add-member calls are inputs (`FetchOutcome`, `CallOutcome`, `AddOutcome`, a `created` flag). `handleJoinSession` in the session list is only such a call followed by a refetch, so it is not modelled.
- The STOMP/SockJS client, heartbeats and every timer are left out. Callbacks and timers are events in `WebSocketService.Event`. The `connect()` promise waiting on an attempt in flight is the `AwaitInFlight` outcome. The 100 ms player delays are sequential steps, and the 500 ms unmount delay and the 1 s post-subscribe sync request are immediate.
- The YouTube iframe API, the DOM wiring of the player component and its time-update interval are left out. The media surface is a position and a playing flag, and its presence is an input. The `onStateChange` mapping is not modelled.
- Floating point is left out:
  - The click-position seek is given its target in milliseconds.
  - Remote timestamps are kept in integer milliseconds instead of seconds.
  - `formatPracticeDuration` is modelled for whole hours only, without the fractional-minutes branch.
  - `formatTime` is modelled for whole seconds.
- The hours slider is a range input, which `handleInputChange` does not pass through `parseInt`. Its value is therefore stored, and sent, as a string ("1" to "12"). The model keeps the integer that string denotes. The validator's `!`, `<` and `>` treat the string as that integer, but the string-versus-number difference in the sent request is not modelled. `None` in `availableHours` stands for a missing value.
- Rendering, styling, router navigation and the landing and dashboard pages are left out.
- Lengths are counted in Dafny characters, not UTF-16 code units. The 50-, 200- and 1000-character limits therefore differ from JavaScript's for text outside the Basic Multilingual Plane.
- PracticeHistory.FocusDisplayName: inherited object keys such as `constructor`, which the object literal lookup would also return, are not modelled.
- PracticePlanCalculator.UsePopularCombination: a popular entry is either a named object or a bare string. An object whose `name` is empty (which the source would keep as the object itself) is not modelled.
- PracticeHistory.Refresh: the page reset is modelled. `handleRefresh` also calls the fetch at once, with the page number from before the reset; the page effect then fetches again. Those fetches and their order are not modelled.
- PracticeHistory.PageFetched: the fetched plans are an input. What the request asks for is `HistoryQuery`. `PracticeHistory.Served` stands for the server's reading of `limit` and `page`; the server is not part of this model.
- SessionViewer.Handle: a NOTE_ADDED note's `createdAt` is the message timestamp as an integer, not a `Date`. The note id falls back to `now` when the payload has none.
- WebSocketService.Run: which event of the STOMP/SockJS client triggers which callback is not modelled. In particular, a closed socket reaches `onWebSocketClose` (`ClientFailed`), and only `onDisconnect` (`ClientDisconnected`) schedules a reconnection. Every callback may fire at any point of a run.
- WebSocketService.Run: timers are counted, not timed. A reconnection timer may fire after any later event, and a timer event with none pending is ignored. The 3000 ms · n and 1000 ms delays do not order the events.
- WebSocketService.Subscribe: the JSON parsing inside the subscription callback belongs to the client library and is not modelled. Messages reach `SessionViewer.Handle` already decoded.

## Findings

| source | as written | input that shows it | evidently intended | confidence | as-written member | corrected member |
|---|---|---|---|---|---|---|
| web/src/components/CreateReviewSessionForm.jsx:67-85 | The URL is validated untrimmed but sent trimmed. A white-space character counts as a video-id character, so trailing white space can be the only "id". | videoUrl `https://youtu.be/` followed by U+00A0 (no-break space), with title `Review`. The `type="url"` field strips only ASCII white space, so the value reaches the check. It is accepted, and `https://youtu.be/` is sent, which fails the same URL check and has no video id. | Validate the URL that is sent, i.e. the trimmed one. | not executed; medium | CreateReviewSessionForm.TrimmedUrlLosesId | CreateReviewSessionForm.SubmitTrimmedSendsValidUrl |
| web/src/services/WebSocketService.js:117-124 | `disconnect()` relies on `isDisconnecting` and a spent budget to stop reconnection. A timer scheduled before the call checks only the flag, which is reset after 1000 ms. | While connected: `onDisconnect` fires while not disconnecting (timer in 3000 ms), `disconnect()` runs, its reset fires, then the timer fires. `connect()` builds a new client and the service is connected again, with no subscriptions. When the client library calls `onDisconnect` is outside this model. | `disconnect()` cancels pending reconnection timers, so the service stays down until `connect()` is called. | not executed; medium | WebSocketService.DisconnectRacesPendingReconnect | WebSocketService.CorrectedDisconnectIsFinal |
| web/src/services/WebSocketService.js:193-196 | `connect()` replaces the client but keeps the subscription map, and `onConnect` does not renew it. `subscribeToSession` then returns the entry made on the old client. | While subscribed to a session: `onDisconnect` fires while not disconnecting, its timer reconnects on a new client, and the view subscribes again. The same happens after an explicit `connect()` while subscriptions are stored. It gets the old subscription and counts itself connected, but receives nothing. | Renew the registered subscriptions on the new client when it connects. | not executed; medium | WebSocketService.StaleSubscriptionAfterReconnect | WebSocketService.CorrectedSubscribeIsLive |
| web/src/components/ReviewSessionViewer.jsx:473-474 | `ref={playerRef}` is given to `YouTubePlayer`, a function component that neither forwards the ref nor exposes a handle (`YouTubePlayer.jsx:3-11`). `playerRef.current` stays null, and every `playerRef.current` branch is dead. | Any session: a PLAY from another client, or the local Play button. The video does not move and nothing is published. | Forward the ref to the element carrying the controls (`YouTubePlayer.jsx:163-175`). | not executed; high | SessionViewer.AsWrittenViewerNeverControls | SessionViewer.ForwardedViewersConverge |
| web/src/components/PracticeHistory.jsx:36-38 | The page number is passed where both fetchers take their only parameter, `limit` (`PracticeService.js:76`, `:132`). The page size is dropped and no page index is sent. | Any user with stored plans: page 0 requests `limit=0`; page p requests the first p plans, repeating page p − 1. | Send the page index and a page size of 10. | not executed; high | PracticeHistory.AsWrittenFirstPageEmpty | PracticeHistory.PagedHistoryTiles |
