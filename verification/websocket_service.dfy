/** The real-time session client: one shared connection to the messaging endpoint, at most
    one subscription per review session, bounded automatic reconnection, and best-effort
    publishing of playback commands. The STOMP client is abstracted to whether one exists,
    whether it reports itself connected, and the counter it numbers subscriptions with. */
module WebSocketService {
  import opened Wrappers

  type SessionId = string

  /** The message handler a session view registers (a closure in the original program). */
  type HandlerRef = nat

  const MaxReconnectAttempts: nat := 3
  const ReconnectBaseDelayMs: nat := 3000

  /** The broadcast topic a session's events arrive on. */
  function Topic(sid: SessionId): string {
    "/topic/session/" + sid
  }

  /** The application destination of one kind of outbound command for a session. */
  function AppDestination(sid: SessionId, action: string): string {
    "/app/session/" + sid + "/" + action
  }

  /** Distinct sessions listen on distinct topics. */
  lemma TopicInjective(a: SessionId, b: SessionId)
    requires Topic(a) == Topic(b)
    ensures a == b
  {
    assert a == Topic(a)[|"/topic/session/"|..];
  }

  /** A subscription: the topic it listens on and the client it was made on. The STOMP
      client only delivers on subscriptions it made itself, so one made on a replaced client
      receives nothing. */
  datatype Subscription = Subscription(destination: string, generation: nat)

  /** The STOMP client as far as this service can observe it; `generation` numbers the
      clients `connect()` has created, in order. */
  datatype Client = Client(stompConnected: bool, generation: nat)

  /** The service's fields, plus the two kinds of timer it schedules (reconnections and the
      reset of `isDisconnecting`) as counts of pending callbacks, and the number of clients
      created so far. */
  datatype Service = Service(
    client: Option<Client>,
    connected: bool,
    subscriptions: map<SessionId, Subscription>,
    messageHandlers: map<SessionId, HandlerRef>,
    reconnectAttempts: nat,
    isConnecting: bool,
    isDisconnecting: bool,
    pendingReconnects: nat,
    pendingSettles: nat,
    clientsCreated: nat)

  /** What a `connect()` call does with its promise. */
  datatype ConnectOutcome =
    | AwaitInFlight     // another attempt is running; the caller waits for it
    | AlreadyConnected  // resolved at once
    | NoToken           // rejected: no authentication token is stored
    | Activated         // a fresh client was created and activated; callbacks decide the rest

  /** The state every transition keeps. */
  predicate Valid(s: Service) {
    && s.subscriptions.Keys == s.messageHandlers.Keys
    && s.reconnectAttempts <= MaxReconnectAttempts
    && (s.connected <==> s.client.Some? && s.client.value.stompConnected)
    && (s.connected ==> !s.isConnecting)
    && (s.client.None? ==> s.subscriptions == map[])
    && (s.client.Some? ==> s.client.value.generation < s.clientsCreated)
    && (forall sid :: sid in s.subscriptions ==>
          s.subscriptions[sid].destination == Topic(sid) && s.subscriptions[sid].generation < s.clientsCreated)
  }

  /** The session's subscription was made on the current client, so its messages arrive. */
  predicate LiveSubscription(s: Service, sid: SessionId) {
    sid in s.subscriptions && s.client.Some? && s.subscriptions[sid].generation == s.client.value.generation
  }

  /** While connected, every registered subscription delivers. */
  predicate AllLive(s: Service) {
    s.connected ==> forall sid :: sid in s.subscriptions ==> LiveSubscription(s, sid)
  }

  /** The singleton as constructed: no client, nothing subscribed, no attempts used. */
  function Init(): (s: Service)
    ensures Valid(s) && AllLive(s)
    ensures !IsConnected(s) && s.subscriptions == map[] && s.reconnectAttempts == 0
    ensures s.pendingReconnects == 0 && s.pendingSettles == 0
  {
    Service(None, false, map[], map[], 0, false, false, 0, 0, 0)
  }

  /** `isConnected()`: connected, a client exists and reports itself connected, and no
      connection attempt is in flight. */
  predicate IsConnected(s: Service) {
    s.connected && s.client.Some? && s.client.value.stompConnected && !s.isConnecting
  }

  /** In a valid state the four conditions of `isConnected()` collapse to the `connected` flag. */
  lemma IsConnectedIsFlag(s: Service)
    requires Valid(s)
    ensures IsConnected(s) <==> s.connected
  {
  }

  /** `connect()`: join an attempt in flight, resolve when already connected, reject without
      a token, or replace any existing client by a fresh one and activate it. The
      subscriptions are kept although they belong to the replaced client. */
  function Connect(s: Service, hasToken: bool): (r: (Service, ConnectOutcome))
    ensures Valid(s) ==> Valid(r.0)
    ensures Valid(s) && AllLive(s) ==> AllLive(r.0)
    ensures r.1 == AwaitInFlight <==> s.isConnecting
    ensures r.1 == AlreadyConnected <==> !s.isConnecting && IsConnected(s)
    ensures r.1 != Activated ==> r.0 == s
    ensures r.1 == Activated ==>
      && r.0.isConnecting && r.0.client == Some(Client(false, s.clientsCreated))
      && r.0.clientsCreated == s.clientsCreated + 1
      && r.0.subscriptions == s.subscriptions && r.0.messageHandlers == s.messageHandlers
      && r.0.reconnectAttempts == s.reconnectAttempts
      && r.0.pendingReconnects == s.pendingReconnects && r.0.pendingSettles == s.pendingSettles
    ensures Valid(s) && r.1 == Activated ==> !IsConnected(s) && !r.0.connected
    ensures Valid(s) && r.1 == Activated ==> forall sid :: sid in r.0.subscriptions ==> !LiveSubscription(r.0, sid)
  {
    if s.isConnecting then (s, AwaitInFlight)
    else if s.connected && s.client.Some? && s.client.value.stompConnected then (s, AlreadyConnected)
    else if !hasToken then (s, NoToken)
    else
      (s.(client := Some(Client(false, s.clientsCreated)), clientsCreated := s.clientsCreated + 1,
          isConnecting := true),
       Activated)
  }

  /** The client's `onConnect` callback: connected, no attempt in flight, retry budget restored. */
  function OnConnect(s: Service): (r: Service)
    ensures Valid(s) ==> Valid(r)
    ensures s.client.Some? ==> IsConnected(r) && r.reconnectAttempts == 0 && r.client.value.generation == s.client.value.generation
    ensures s.client.None? ==> r == s
    ensures r.subscriptions == s.subscriptions && r.messageHandlers == s.messageHandlers
    ensures r.pendingReconnects == s.pendingReconnects && r.pendingSettles == s.pendingSettles
  {
    match s.client
    case None => s
    case Some(c) =>
      s.(connected := true, isConnecting := false, reconnectAttempts := 0,
         client := Some(c.(stompConnected := true)))
  }

  /** A corrected `onConnect` that also renews every registered subscription on the new
      client, with the handler the service already keeps for it. */
  function OnConnectResubscribing(s: Service): (r: Service)
    ensures Valid(s) ==> Valid(r) && AllLive(r)
    ensures s.client.Some? ==> IsConnected(r) && r.reconnectAttempts == 0 && AllLive(r)
    ensures s.client.None? ==> r == s
    ensures r.subscriptions.Keys == s.subscriptions.Keys && r.messageHandlers == s.messageHandlers
    ensures Valid(s) ==> forall sid :: sid in r.subscriptions ==> r.subscriptions[sid].destination == Topic(sid)
    ensures r.pendingReconnects == s.pendingReconnects && r.pendingSettles == s.pendingSettles
  {
    match s.client
    case None => s
    case Some(c) =>
      var renewed := map sid | sid in s.subscriptions :: Subscription(Topic(sid), c.generation);
      OnConnect(s).(subscriptions := renewed)
  }

  /** The part common to every callback that reports the link gone
      (`onStompError`, `onWebSocketError`, `onWebSocketClose`, `onDisconnect`). */
  function LinkLost(s: Service): (r: Service)
    ensures Valid(s) ==> Valid(r)
    ensures AllLive(r)
    ensures !r.connected && !r.isConnecting && !IsConnected(r)
    ensures r.subscriptions == s.subscriptions && r.messageHandlers == s.messageHandlers
    ensures r.reconnectAttempts == s.reconnectAttempts && r.isDisconnecting == s.isDisconnecting
    ensures r.pendingReconnects == s.pendingReconnects && r.pendingSettles == s.pendingSettles
    ensures r.client.None? <==> s.client.None?
  {
    var client := match s.client
      case None => None
      case Some(c) => Some(c.(stompConnected := false));
    s.(connected := false, isConnecting := false, client := client)
  }

  /** The delay before the `attempt`-th automatic reconnection: linear backoff. */
  function ReconnectDelay(attempt: nat): nat {
    ReconnectBaseDelayMs * attempt
  }

  /** `onDisconnect`, the client's report that the session ended; schedule a reconnection timer (returning its delay)
      only when the disconnect was not requested and the retry budget is not spent. */
  function OnDisconnect(s: Service): (r: (Service, Option<nat>))
    ensures Valid(s) ==> Valid(r.0)
    ensures !IsConnected(r.0)
    ensures r.1.Some? <==> !s.isDisconnecting && s.reconnectAttempts < MaxReconnectAttempts
    ensures r.1.Some? ==>
      && r.0.reconnectAttempts == s.reconnectAttempts + 1
      && r.0.pendingReconnects == s.pendingReconnects + 1
      && r.1.value == ReconnectDelay(r.0.reconnectAttempts)
    ensures r.1.None? ==> r.0.reconnectAttempts == s.reconnectAttempts && r.0.pendingReconnects == s.pendingReconnects
    ensures r.0.subscriptions == s.subscriptions && r.0.pendingSettles == s.pendingSettles
  {
    var s1 := LinkLost(s);
    if !s.isDisconnecting && s.reconnectAttempts < MaxReconnectAttempts then
      var attempts := s.reconnectAttempts + 1;
      (s1.(reconnectAttempts := attempts, pendingReconnects := s.pendingReconnects + 1),
       Some(ReconnectDelay(attempts)))
    else
      (s1, None)
  }

  /** A scheduled reconnection timer fires: it is used up, and it calls `connect()` unless the
      service is connected or disconnecting. */
  function ReconnectTimerFired(s: Service, hasToken: bool): (r: (Service, Option<ConnectOutcome>))
    requires s.pendingReconnects > 0
    ensures Valid(s) ==> Valid(r.0)
    ensures AllLive(s) ==> AllLive(r.0)
    ensures r.0.pendingReconnects == s.pendingReconnects - 1
    ensures r.1.Some? <==> !s.connected && !s.isDisconnecting
    ensures r.1.None? ==> r.0 == s.(pendingReconnects := s.pendingReconnects - 1)
    ensures r.1.Some? ==> r.1.value == Connect(s, hasToken).1
  {
    var s0 := s.(pendingReconnects := s.pendingReconnects - 1);
    if !s.connected && !s.isDisconnecting then
      var (s1, outcome) := Connect(s0, hasToken);
      (s1, Some(outcome))
    else
      (s0, None)
  }

  /** `disconnect()`: with a client, drop every subscription and handler, forget the client,
      spend the whole retry budget and schedule the reset of `isDisconnecting`; without a
      client, nothing happens. Reconnection timers already scheduled stay scheduled. */
  function Disconnect(s: Service): (r: Service)
    ensures Valid(s) ==> Valid(r) && AllLive(r)
    ensures s.client.None? ==> r == s
    ensures s.client.Some? ==>
      && r.subscriptions == map[] && r.messageHandlers == map[]
      && r.client.None? && !r.connected && !r.isConnecting
      && r.isDisconnecting && r.reconnectAttempts == MaxReconnectAttempts
      && r.pendingSettles == s.pendingSettles + 1
    ensures r.pendingReconnects == s.pendingReconnects
  {
    if s.client.Some? then
      s.(isDisconnecting := true, reconnectAttempts := MaxReconnectAttempts,
         subscriptions := map[], messageHandlers := map[],
         client := None, connected := false, isConnecting := false,
         pendingSettles := s.pendingSettles + 1)
    else
      s
  }

  /** A corrected `disconnect()` that also cancels the pending reconnection timers. */
  function DisconnectCancelling(s: Service): (r: Service)
    ensures Valid(s) ==> Valid(r)
    ensures s.client.None? ==> r == s
    ensures r.(pendingReconnects := s.pendingReconnects) == Disconnect(s)
    ensures s.client.Some? ==> Down(r)
  {
    if s.client.Some? then Disconnect(s).(pendingReconnects := 0) else s
  }

  /** The timer that clears `isDisconnecting` a second after `disconnect()`. */
  function DisconnectSettled(s: Service): (r: Service)
    requires s.pendingSettles > 0
    ensures Valid(s) ==> Valid(r)
    ensures !r.isDisconnecting && r.pendingSettles == s.pendingSettles - 1
    ensures r.(isDisconnecting := s.isDisconnecting, pendingSettles := s.pendingSettles) == s
  {
    s.(isDisconnecting := false, pendingSettles := s.pendingSettles - 1)
  }

  /** `subscribeToSession`: nothing without a connection and a client; the existing
      subscription when the session is already subscribed (whichever client made it);
      otherwise a new subscription to the session's topic on the current client, registered
      together with its handler. `accepted` is false when the client's `subscribe` throws,
      which the service reports as no subscription. */
  function Subscribe(s: Service, sid: SessionId, handler: HandlerRef, accepted: bool)
    : (r: (Service, Option<Subscription>))
    ensures Valid(s) ==> Valid(r.0)
    ensures AllLive(s) ==> AllLive(r.0)
    ensures r.0.(subscriptions := s.subscriptions, messageHandlers := s.messageHandlers) == s
    ensures !s.connected || s.client.None? ==> r == (s, None)
    ensures sid in s.subscriptions && s.connected && s.client.Some? ==> r == (s, Some(s.subscriptions[sid]))
    ensures r.1.None? ==> r.0 == s
    ensures sid !in s.subscriptions && r.1.Some? ==>
      && r.1.value == Subscription(Topic(sid), s.client.value.generation)
      && r.0.subscriptions == s.subscriptions[sid := r.1.value]
      && r.0.messageHandlers == s.messageHandlers[sid := handler]
    ensures sid !in s.subscriptions && s.connected && s.client.Some? ==> (r.1.Some? <==> accepted)
    ensures AllLive(s) && r.1.Some? ==> LiveSubscription(r.0, sid)
    ensures r.0.subscriptions.Keys == s.subscriptions.Keys + (if r.1.Some? then {sid} else {})
  {
    if !s.connected || s.client.None? then (s, None)
    else if sid in s.subscriptions then (s, Some(s.subscriptions[sid]))
    else if !accepted then (s, None)
    else
      var sub := Subscription(Topic(sid), s.client.value.generation);
      (s.(subscriptions := s.subscriptions[sid := sub], messageHandlers := s.messageHandlers[sid := handler]),
       Some(sub))
  }

  /** `unsubscribeFromSession`: forget the session's subscription and handler; a no-op for an
      unknown session, and also when the subscription's `unsubscribe` throws
      (`accepted` false), in which case both entries stay. */
  function Unsubscribe(s: Service, sid: SessionId, accepted: bool): (r: Service)
    ensures Valid(s) ==> Valid(r)
    ensures AllLive(s) ==> AllLive(r)
    ensures sid !in s.subscriptions || !accepted ==> r == s
    ensures accepted ==> sid !in r.subscriptions
    ensures Valid(s) && accepted ==> sid !in r.messageHandlers
    ensures r.subscriptions.Keys == s.subscriptions.Keys - (if accepted then {sid} else {})
    ensures forall other :: other != sid && other in s.subscriptions ==>
      other in r.subscriptions && r.subscriptions[other] == s.subscriptions[other]
    ensures r.(subscriptions := s.subscriptions, messageHandlers := s.messageHandlers) == s
  {
    if sid in s.subscriptions && accepted then
      s.(subscriptions := s.subscriptions - {sid}, messageHandlers := s.messageHandlers - {sid})
    else
      s
  }

  /** The JSON bodies the service publishes. */
  datatype Body =
    | TransportBody(timestamp: int, isPlaying: bool)
    | EmptyBody
    | NoteBody(noteId: string, content: string, videoTimestamp: int)

  datatype Frame = Frame(destination: string, body: Body)

  /** `sendMessage`: false and nothing published without a connection and a client;
      otherwise the frame is handed to the client, and the result is false only when the
      client's `publish` throws (`accepted` false). */
  function SendMessage(s: Service, destination: string, body: Body, accepted: bool)
    : (r: (bool, Option<Frame>))
    ensures r.0 <==> r.1.Some?
    ensures r.0 ==> s.connected && s.client.Some? && r.1.value == Frame(destination, body)
    ensures s.connected && s.client.Some? && accepted ==> r.0
  {
    if !s.connected || s.client.None? then (false, None)
    else if accepted then (true, Some(Frame(destination, body)))
    else (false, None)
  }

  /** `sendPlay`: a play command at `timestamp` that always says the video is playing. */
  function SendPlay(s: Service, sid: SessionId, timestamp: int, accepted: bool): (r: Option<Frame>)
    ensures r.Some? ==>
      && r.value.destination == AppDestination(sid, "play")
      && r.value.body == TransportBody(timestamp, true)
    ensures r.Some? <==> s.connected && s.client.Some? && accepted
  {
    SendMessage(s, AppDestination(sid, "play"), TransportBody(timestamp, true), accepted).1
  }

  /** `sendPause`: a pause command at `timestamp` that always says the video is paused. */
  function SendPause(s: Service, sid: SessionId, timestamp: int, accepted: bool): (r: Option<Frame>)
    ensures r.Some? ==>
      && r.value.destination == AppDestination(sid, "pause")
      && r.value.body == TransportBody(timestamp, false)
    ensures r.Some? <==> s.connected && s.client.Some? && accepted
  {
    SendMessage(s, AppDestination(sid, "pause"), TransportBody(timestamp, false), accepted).1
  }

  /** `sendSeek`: a seek command carrying the sender's playing flag. */
  function SendSeek(s: Service, sid: SessionId, timestamp: int, isPlaying: bool, accepted: bool)
    : (r: Option<Frame>)
    ensures r.Some? ==>
      && r.value.destination == AppDestination(sid, "seek")
      && r.value.body == TransportBody(timestamp, isPlaying)
    ensures r.Some? <==> s.connected && s.client.Some? && accepted
  {
    SendMessage(s, AppDestination(sid, "seek"), TransportBody(timestamp, isPlaying), accepted).1
  }

  /** `requestSync`: an empty message asking the server for the authoritative playback state. */
  function RequestSync(s: Service, sid: SessionId, accepted: bool): (r: Option<Frame>)
    ensures r.Some? ==> r.value == Frame(AppDestination(sid, "sync"), EmptyBody)
    ensures r.Some? <==> s.connected && s.client.Some? && accepted
  {
    SendMessage(s, AppDestination(sid, "sync"), EmptyBody, accepted).1
  }

  /** `sendNote`: the note as given, to the session's note destination. */
  function SendNote(s: Service, sid: SessionId, note: Body, accepted: bool): (r: Option<Frame>)
    requires note.NoteBody?
    ensures r.Some? ==> r.value == Frame(AppDestination(sid, "note"), note)
    ensures r.Some? <==> s.connected && s.client.Some? && accepted
  {
    SendMessage(s, AppDestination(sid, "note"), note, accepted).1
  }

  /** Everything that can happen to the service, in the order the event loop delivers it.
      A timer event stands for the oldest pending timer of its kind. */
  datatype Event =
    | ConnectCalled(hasToken: bool)
    | ClientConnected
    | ClientFailed          // onStompError, onWebSocketError or onWebSocketClose
    | ClientDisconnected    // onDisconnect
    | ReconnectTimer(hasToken: bool)
    | DisconnectCalled
    | DisconnectTimer
    | SubscribeCalled(sid: SessionId, handler: HandlerRef, accepted: bool)
    | UnsubscribeCalled(sid: SessionId, accepted: bool)

  /** The service as the program has it, or with the two corrections: `disconnect()` cancels
      the pending reconnection timers, and `onConnect` renews the subscriptions. */
  datatype Variant = AsWritten | Corrected

  /** One event; the flag says whether it scheduled an automatic reconnection. A timer event
      with no timer of its kind pending cannot occur and changes nothing. */
  function Step(s: Service, e: Event, variant: Variant): (r: (Service, bool))
    ensures Valid(s) ==> Valid(r.0)
    ensures variant == Corrected && Valid(s) && AllLive(s) ==> AllLive(r.0)
    ensures r.1 ==> e.ClientDisconnected?
    ensures !e.ClientConnected? && !e.DisconnectCalled? ==>
      r.0.reconnectAttempts == s.reconnectAttempts + (if r.1 then 1 else 0)
    ensures e.DisconnectCalled? ==> r.0.reconnectAttempts >= s.reconnectAttempts || !Valid(s)
  {
    match e
    case ConnectCalled(hasToken) => (Connect(s, hasToken).0, false)
    case ClientConnected =>
      (if variant == AsWritten then OnConnect(s) else OnConnectResubscribing(s), false)
    case ClientFailed => (LinkLost(s), false)
    case ClientDisconnected =>
      var (s1, delay) := OnDisconnect(s);
      (s1, delay.Some?)
    case ReconnectTimer(hasToken) =>
      (if s.pendingReconnects > 0 then ReconnectTimerFired(s, hasToken).0 else s, false)
    case DisconnectCalled =>
      (if variant == AsWritten then Disconnect(s) else DisconnectCancelling(s), false)
    case DisconnectTimer =>
      (if s.pendingSettles > 0 then DisconnectSettled(s) else s, false)
    case SubscribeCalled(sid, handler, accepted) => (Subscribe(s, sid, handler, accepted).0, false)
    case UnsubscribeCalled(sid, accepted) => (Unsubscribe(s, sid, accepted), false)
  }

  /** A whole sequence of events: the final state and how many reconnections were scheduled. */
  function Run(s: Service, events: seq<Event>, variant: Variant): (r: (Service, nat))
    decreases |events|
  {
    if events == [] then (s, 0)
    else
      var (s1, scheduled) := Step(s, events[0], variant);
      var (s2, count) := Run(s1, events[1..], variant);
      (s2, count + if scheduled then 1 else 0)
  }

  /** A run is its first step followed by the rest. */
  lemma RunFirst(s: Service, e: Event, rest: seq<Event>, variant: Variant)
    ensures Run(s, [e] + rest, variant).0 == Run(Step(s, e, variant).0, rest, variant).0
  {
    assert ([e] + rest)[0] == e && ([e] + rest)[1..] == rest;
  }

  /** Every reachable state is valid. */
  lemma {:induction false} RunPreservesValid(s: Service, events: seq<Event>, variant: Variant)
    requires Valid(s)
    ensures Valid(Run(s, events, variant).0)
    decreases |events|
  {
    if events != [] {
      RunPreservesValid(Step(s, events[0], variant).0, events[1..], variant);
    }
  }

  /** Between two successful connections at most `MaxReconnectAttempts` automatic
      reconnections are scheduled: each one uses up one unit of the budget, and only a
      successful connection gives the budget back. */
  lemma {:induction false} ReconnectsBounded(s: Service, events: seq<Event>, variant: Variant)
    requires Valid(s)
    requires forall i :: 0 <= i < |events| ==> !events[i].ClientConnected?
    ensures s.reconnectAttempts + Run(s, events, variant).1 <= Run(s, events, variant).0.reconnectAttempts
    ensures Run(s, events, variant).1 <= MaxReconnectAttempts - s.reconnectAttempts
    decreases |events|
  {
    RunPreservesValid(s, events, variant);
    if events != [] {
      var (s1, _) := Step(s, events[0], variant);
      ReconnectsBounded(s1, events[1..], variant);
    }
  }

  /** After `disconnect()` no new reconnection timer is scheduled, and the service does not
      report itself connected, until some later handshake succeeds. Timers scheduled before
      the call are not covered; see `DisconnectRacesPendingReconnect`. */
  lemma DisconnectSchedulesNoReconnect(s: Service, events: seq<Event>, variant: Variant)
    requires Valid(s) && s.client.Some?
    requires forall i :: 0 <= i < |events| ==> !events[i].ClientConnected?
    ensures Run(Disconnect(s), events, variant).1 == 0
    ensures !IsConnected(Run(Disconnect(s), events, variant).0)
  {
    ReconnectsBounded(Disconnect(s), events, variant);
    StaysDisconnected(Disconnect(s), events, variant);
  }

  /** Only a successful connection sets the connected flag. */
  lemma {:induction false} StaysDisconnected(s: Service, events: seq<Event>, variant: Variant)
    requires Valid(s) && !s.connected
    requires forall i :: 0 <= i < |events| ==> !events[i].ClientConnected?
    ensures !Run(s, events, variant).0.connected
    decreases |events|
  {
    if events != [] {
      var (s1, _) := Step(s, events[0], variant);
      StaysDisconnected(s1, events[1..], variant);
    }
  }

  /** `onDisconnect` fires while the program is not disconnecting, so a reconnection timer is
      scheduled; the program disconnects while that timer is pending, the
      disconnecting flag is reset a second later, and then the timer fires.
      `isDisconnecting` no longer blocks it, so the service builds a new client and ends up
      connected again, with no subscription that could use the connection. */
  const RaceEvents: seq<Event> :=
    [ClientDisconnected, DisconnectCalled, DisconnectTimer, ReconnectTimer(true), ClientConnected]

  /** As written, `disconnect()` does not stop a reconnection that was already scheduled. */
  lemma DisconnectRacesPendingReconnect(s: Service)
    requires Valid(s) && IsConnected(s) && !s.isDisconnecting && s.reconnectAttempts < MaxReconnectAttempts
    ensures var r := Run(s, RaceEvents, AsWritten).0;
      IsConnected(r) && r.subscriptions == map[] && r.client.Some?
  {
    var s1 := Step(s, ClientDisconnected, AsWritten).0;
    assert s1.pendingReconnects > 0 && s1.client.Some? && !s1.connected;
    var s2 := Step(s1, DisconnectCalled, AsWritten).0;
    assert s2.pendingSettles > 0 && s2.pendingReconnects > 0 && s2.subscriptions == map[];
    var s3 := Step(s2, DisconnectTimer, AsWritten).0;
    assert !s3.isDisconnecting && !s3.connected && !s3.isConnecting && s3.pendingReconnects > 0;
    var s4 := Step(s3, ReconnectTimer(true), AsWritten).0;
    assert s4.client.Some? && s4.subscriptions == map[];
    var s5 := Step(s4, ClientConnected, AsWritten).0;
    var tail4: seq<Event> := [ClientConnected];
    var tail3 := [ReconnectTimer(true)] + tail4;
    var tail2 := [DisconnectTimer] + tail3;
    var tail1 := [DisconnectCalled] + tail2;
    assert RaceEvents == [ClientDisconnected] + tail1;
    RunFirst(s4, ClientConnected, [], AsWritten);
    RunFirst(s3, ReconnectTimer(true), tail4, AsWritten);
    RunFirst(s2, DisconnectTimer, tail3, AsWritten);
    RunFirst(s1, DisconnectCalled, tail2, AsWritten);
    RunFirst(s, ClientDisconnected, tail1, AsWritten);
  }

  /** No client, no connection, no pending reconnection and no retry budget: nothing but an
      explicit `connect()` call can bring the service back. */
  predicate Down(s: Service) {
    s.client.None? && !s.connected && s.pendingReconnects == 0 && s.reconnectAttempts == MaxReconnectAttempts
  }

  /** With the corrected service, once down it stays down, whatever the callbacks and timers
      do, until the program itself calls `connect()`. */
  lemma {:induction false} CorrectedStaysDown(s: Service, events: seq<Event>)
    requires Valid(s) && Down(s)
    requires forall i :: 0 <= i < |events| ==> !events[i].ConnectCalled?
    ensures Down(Run(s, events, Corrected).0) && Run(s, events, Corrected).1 == 0
    decreases |events|
  {
    if events != [] {
      var s1 := Step(s, events[0], Corrected).0;
      assert Down(s1);
      CorrectedStaysDown(s1, events[1..]);
    }
  }

  /** The corrected `disconnect()` is final: after it no event other than an explicit
      `connect()` creates a client, connects, or schedules a reconnection. */
  lemma CorrectedDisconnectIsFinal(s: Service, events: seq<Event>)
    requires Valid(s) && s.client.Some?
    requires forall i :: 0 <= i < |events| ==> !events[i].ConnectCalled?
    ensures var r := Run(DisconnectCancelling(s), events, Corrected);
      r.0.client.None? && !IsConnected(r.0) && r.1 == 0
  {
    CorrectedStaysDown(DisconnectCancelling(s), events);
  }

  /** `onDisconnect` fires while the program is not disconnecting, and the reconnection timer it
      schedules brings the service back. */
  const ReconnectEvents: seq<Event> := [ClientDisconnected, ReconnectTimer(true), ClientConnected]

  /** As written, a session view that subscribes after an automatic reconnection is handed the
      subscription made on the replaced client: the service is connected, the session counts
      as subscribed, and yet its messages never arrive. */
  lemma StaleSubscriptionAfterReconnect(s: Service, sid: SessionId, h: HandlerRef, accepted: bool)
    requires Valid(s) && IsConnected(s) && !s.isDisconnecting && s.reconnectAttempts < MaxReconnectAttempts
    requires sid in s.subscriptions
    ensures var (s4, sub) := Subscribe(Run(s, ReconnectEvents, AsWritten).0, sid, h, accepted);
      IsConnected(s4) && sub == Some(s.subscriptions[sid]) && !LiveSubscription(s4, sid)
  {
    var s1 := Step(s, ClientDisconnected, AsWritten).0;
    assert s1.pendingReconnects > 0 && !s1.connected && s1.subscriptions == s.subscriptions;
    var s2 := Step(s1, ReconnectTimer(true), AsWritten).0;
    assert s2.client.Some? && s2.subscriptions == s.subscriptions;
    assert !LiveSubscription(s2, sid);
    var s3 := Step(s2, ClientConnected, AsWritten).0;
    var tail2: seq<Event> := [ClientConnected];
    var tail1 := [ReconnectTimer(true)] + tail2;
    assert ReconnectEvents == [ClientDisconnected] + tail1;
    RunFirst(s2, ClientConnected, [], AsWritten);
    RunFirst(s1, ReconnectTimer(true), tail2, AsWritten);
    RunFirst(s, ClientDisconnected, tail1, AsWritten);
  }

  /** With the corrected service every subscription delivers while connected, after any
      sequence of events. */
  lemma {:induction false} CorrectedSubscriptionsLive(s: Service, events: seq<Event>)
    requires Valid(s) && AllLive(s)
    ensures AllLive(Run(s, events, Corrected).0)
    decreases |events|
  {
    if events != [] {
      CorrectedSubscriptionsLive(Step(s, events[0], Corrected).0, events[1..]);
    }
  }

  /** With the corrected service, a view that subscribes while connected always holds a
      subscription that delivers, reconnections or not. */
  lemma CorrectedSubscribeIsLive(s: Service, events: seq<Event>, sid: SessionId, h: HandlerRef, accepted: bool)
    requires Valid(s) && AllLive(s)
    ensures var (s2, sub) := Subscribe(Run(s, events, Corrected).0, sid, h, accepted);
      sub.Some? ==> LiveSubscription(s2, sid)
  {
    CorrectedSubscriptionsLive(s, events);
  }

  /** A successful connection restores the whole retry budget, whatever happened before. */
  lemma ConnectResetsBudget(s: Service, variant: Variant)
    requires Valid(s) && s.client.Some?
    ensures Step(s, ClientConnected, variant).0.reconnectAttempts == 0
    ensures IsConnected(Step(s, ClientConnected, variant).0)
  {
  }

  /** Once a subscription to a session has been returned, subscribing to it again changes
      nothing and returns the same subscription: one subscription, one delivery per message. */
  lemma SubscribeIdempotent(s: Service, sid: SessionId, h1: HandlerRef, h2: HandlerRef, a1: bool, a2: bool)
    requires Valid(s)
    ensures var (s1, sub1) := Subscribe(s, sid, h1, a1);
      var (s2, sub2) := Subscribe(s1, sid, h2, a2);
      sub1.Some? ==> s2 == s1 && sub2 == sub1
  {
  }

  /** Subscribing and then unsubscribing a new session restores the subscription tables. */
  lemma SubscribeThenUnsubscribe(s: Service, sid: SessionId, h: HandlerRef)
    requires Valid(s) && sid !in s.subscriptions
    ensures var s1 := Subscribe(s, sid, h, true).0;
      var s2 := Unsubscribe(s1, sid, true);
      s2.subscriptions == s.subscriptions && s2.messageHandlers == s.messageHandlers
  {
    var s1 := Subscribe(s, sid, h, true).0;
    var s2 := Unsubscribe(s1, sid, true);
    assert s2.subscriptions == s.subscriptions;
    assert s2.messageHandlers == s.messageHandlers;
  }

  /** Each publication that goes out lands on its own destination. */
  lemma CommandsUseDistinctDestinations(sid: SessionId)
    ensures AppDestination(sid, "play") != AppDestination(sid, "pause")
    ensures AppDestination(sid, "play") != AppDestination(sid, "seek")
    ensures AppDestination(sid, "pause") != AppDestination(sid, "seek")
  {
    var pre := "/app/session/" + sid + "/";
    assert AppDestination(sid, "play") == pre + "play";
    assert AppDestination(sid, "pause") == pre + "pause";
    assert AppDestination(sid, "seek") == pre + "seek";
    assert (pre + "play")[|pre|] == 'p' && (pre + "seek")[|pre|] == 's';
    assert (pre + "play")[|pre| + 1] == 'l' && (pre + "pause")[|pre| + 1] == 'a';
    assert (pre + "pause")[|pre|] == 'p';
  }

  /** The action names of the five publishers; none contains a slash. */
  const CommandActions: set<string> := {"play", "pause", "seek", "sync", "note"}

  /** A destination names its session and its command: the same destination never comes from
      two sessions or two commands, so the server cannot read one session's play as a pause,
      a seek or another session's command. */
  lemma DestinationIdentifiesCommand(a: SessionId, b: SessionId, x: string, y: string)
    requires x in CommandActions && y in CommandActions
    requires AppDestination(a, x) == AppDestination(b, y)
    ensures a == b && x == y
  {
    assert forall k :: 0 <= k < |x| ==> x[k] != '/';
    assert forall k :: 0 <= k < |y| ==> y[k] != '/';
    LastSegment("/app/session/" + a, x, "/app/session/" + b, y);
    assert a == ("/app/session/" + a)[|"/app/session/"|..];
  }

  /** Two texts ending in a slash-free segment after a slash split at the same place. */
  lemma LastSegment(p: string, x: string, q: string, y: string)
    requires forall k :: 0 <= k < |x| ==> x[k] != '/'
    requires forall k :: 0 <= k < |y| ==> y[k] != '/'
    requires p + "/" + x == q + "/" + y
    ensures p == q && x == y
  {
    if |x| <= |y| {
      SegmentNotShorter(p, x, q, y);
    } else {
      SegmentNotShorter(q, y, p, x);
    }
    var d := p + "/" + x;
    assert x == d[|d| - |x|..] == y;
    assert p == d[..|p|] == q;
  }

  /** The slash before the shorter segment would fall inside the longer one. */
  lemma SegmentNotShorter(p: string, x: string, q: string, y: string)
    requires forall k :: 0 <= k < |y| ==> y[k] != '/'
    requires p + "/" + x == q + "/" + y
    requires |x| <= |y|
    ensures |x| == |y|
  {
    var d := p + "/" + x;
    var k := |p|;
    assert d[k] == '/';
    assert forall j :: |q| + 1 <= j < |d| ==> d[j] == y[j - |q| - 1];
  }
}
