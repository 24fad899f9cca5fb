/** The relying-party side of OpenID Connect Session Management 1.0 (section 3.1, "RP iframe"),
    as the check-session service of angular-auth-oidc-client implements it, written as a state
    snapshot (`Monitor`) and one pure step function per callback of the service. The class in
    module CheckSession runs the same steps imperatively and is proved against these functions. */
module CheckSessionModel {
  import opened JsString

  datatype Option<+T> = None | Some(value: T)

  /** Milliseconds after the last iframe load before `init` reloads the check-session iframe. */
  const IframeRefreshInterval: int := 60000

  /** Unanswered probes tolerated before each further probe logs an error. */
  const MaxOutstanding: nat := 3

  /** The provider metadata the service keeps; only the check-session iframe URL is used. */
  datatype Endpoints = Endpoints(checkSessionIframe: Option<string>)

  /** An inbound `message` event: its origin, whether its source is the check-session iframe's
      window, and its payload. */
  datatype Message = Message(origin: string, fromSessionIframe: bool, data: string)

  /** A `postMessage` call on the iframe's window: the text and the target origin. */
  datatype Probe = Probe(text: string, targetOrigin: string)

  /** What a log entry is about. */
  datatype Note =
    | EndpointsUndefined            // init before setupModule
    | IframeHandle                  // the iframe object dumped at debug level
    | ClientIdValue(clientId: string)
    | SessionStateBlank             // tick without a session state
    | IframeMissing                 // tick without iframe or clientId
    | NoResponses(outstanding: nat) // too many unanswered probes
    | ErrorFromProvider             // the provider answered "error"
    | Payload(data: string)         // any other answer

  datatype LogEntry = Debug(note: Note) | Warning(note: Note) | Error(note: Note)

  /** Everything the service and the environment it drives hold. */
  datatype Monitor = Monitor(
    stsServer: string,                   // configured provider origin (read-only)
    // channel
    iframeInDocument: bool,              // the document holds the iframe named myiFrameForCheckSession
    sessionIframe: bool,                 // the service holds a reference to that iframe
    listeners: nat,                      // window `message` listeners the service has registered
    wellKnown: Option<Endpoints>,        // the snapshot stored by setupModule
    navigations: seq<Option<string>>,    // URLs the iframe was pointed at (None: `undefined`)
    loadHandlerSet: bool,                // the iframe's `onload` is the service's handler
    loadSubscriber: Option<string>,      // the clientId of the tick that waits for that handler
    lastIFrameRefresh: int,
    // poller
    scheduledHeartBeat: Option<nat>,     // the stored timer handle (None: null/undefined)
    armed: map<nat, string>,             // timers that have neither fired nor been cleared, each
                                         // with the clientId its callback's closure captured
    nextHandle: nat,                     // the handle the next setTimeout returns
    outstandingMessages: nat,
    outbox: seq<Probe>,
    // notifier
    changedEvents: nat,                  // events emitted on onCheckSessionChanged
    log: seq<LogEntry>)

  /** A freshly constructed service; `iframeInDocument` says whether the page already holds the
      named iframe. */
  function Initial(stsServer: string, iframeInDocument: bool): (m: Monitor)
    ensures Valid(m) && NoRace(m)
    ensures m.scheduledHeartBeat.None? && m.outstandingMessages == 0 && m.listeners == 0 && !m.sessionIframe
  {
    Monitor(stsServer, iframeInDocument, false, 0, None, [], false, None, 0,
            None, map[], 1, 0, [], 0, [])
  }

  /** Invariants every step keeps: at most one armed timer, and it is the stored handle; handles
      are fresh; at most one listener, registered only together with the iframe it serves. */
  predicate Valid(m: Monitor) {
    && (forall h :: h in m.armed ==> m.scheduledHeartBeat == Some(h))
    && (m.scheduledHeartBeat.Some? ==> m.scheduledHeartBeat.value < m.nextHandle)
    && m.listeners <= 1
    && (m.listeners == 1 ==> m.iframeInDocument)
    && (m.sessionIframe ==> m.iframeInDocument)
    && (m.loadSubscriber.Some? ==> m.loadHandlerSet)
  }

  /** No timer is armed while a tick waits for the iframe to load. */
  predicate NoRace(m: Monitor) {
    m.loadSubscriber.Some? ==> m.armed == map[]
  }

  /** The channel part of the state is the same in `a` and `b`. */
  predicate ChannelUnchanged(a: Monitor, b: Monitor) {
    && a.stsServer == b.stsServer
    && a.iframeInDocument == b.iframeInDocument && a.sessionIframe == b.sessionIframe
    && a.listeners == b.listeners && a.wellKnown == b.wellKnown && a.navigations == b.navigations
    && a.loadHandlerSet == b.loadHandlerSet && a.loadSubscriber == b.loadSubscriber
    && a.lastIFrameRefresh == b.lastIFrameRefresh
  }

  /** The poller's timers are the same in `a` and `b`. */
  predicate TimersUnchanged(a: Monitor, b: Monitor) {
    a.scheduledHeartBeat == b.scheduledHeartBeat && a.armed == b.armed && a.nextHandle == b.nextHandle
  }

  /** Number of error-level entries in a log. */
  function ErrorsIn(log: seq<LogEntry>): (n: nat) {
    if log == [] then 0 else (if log[0].Error? then 1 else 0) + ErrorsIn(log[1..])
  }

  // ---------------------------------------------------------------------------------------------
  // setupModule

  /** `Object.assign({}, endpoints)`: always an object, empty when `endpoints` is undefined. */
  function CopyEndpoints(endpoints: Option<Endpoints>): (e: Endpoints)
    ensures endpoints.Some? ==> e == endpoints.value
    ensures endpoints.None? ==> e.checkSessionIframe.None?
  {
    match endpoints
    case Some(e) => e
    case None => Endpoints(None)
  }

  function SetupStep(m: Monitor, endpoints: Option<Endpoints>): (r: Monitor)
    ensures r.wellKnown == Some(CopyEndpoints(endpoints))
    ensures r.(wellKnown := m.wellKnown) == m
  {
    m.(wellKnown := Some(CopyEndpoints(endpoints)))
  }

  // ---------------------------------------------------------------------------------------------
  // init

  /** The refresh test of `init`: it returns early while `lastRefresh + IframeRefreshInterval > now`. */
  predicate InitDue(lastRefresh: int, now: int): (due: bool)
    ensures due <==> now - lastRefresh >= IframeRefreshInterval
  {
    !(lastRefresh + IframeRefreshInterval > now)
  }

  /** `init` up to the point where it waits for the load: adopt or create the iframe (registering
      the listener only when it creates one), point it at the check-session URL, install `onload`.
      Which tick waits for that handler is decided by the subscriber (HeartBeatStep). */
  function InitStep(m: Monitor, now: int): (r: Monitor)
    ensures !InitDue(m.lastIFrameRefresh, now) ==> r == m
    ensures InitDue(m.lastIFrameRefresh, now) ==>
      && r.iframeInDocument && r.sessionIframe && r.loadHandlerSet && r.loadSubscriber == m.loadSubscriber
      && r.listeners == (if m.iframeInDocument then m.listeners else m.listeners + 1)
      && r.lastIFrameRefresh == m.lastIFrameRefresh
      && TimersUnchanged(m, r) && r.outstandingMessages == m.outstandingMessages
      && r.outbox == m.outbox && r.changedEvents == m.changedEvents
      && r.stsServer == m.stsServer && r.wellKnown == m.wellKnown
    ensures InitDue(m.lastIFrameRefresh, now) && m.wellKnown.Some? ==>
      r.navigations == m.navigations + [m.wellKnown.value.checkSessionIframe] && r.log == m.log
    ensures InitDue(m.lastIFrameRefresh, now) && m.wellKnown.None? ==>
      r.navigations == m.navigations && r.log == m.log + [Warning(EndpointsUndefined)]
  {
    if !InitDue(m.lastIFrameRefresh, now) then m
    else PointStep(AttachStep(m)).(loadHandlerSet := true)
  }

  /** `doesSessionExist`, or else create the iframe and register the message listener. */
  function AttachStep(m: Monitor): (r: Monitor)
    ensures r.iframeInDocument && r.sessionIframe
    ensures r.listeners == (if m.iframeInDocument then m.listeners else m.listeners + 1)
  {
    if m.iframeInDocument then m.(sessionIframe := true)
    else m.(iframeInDocument := true, sessionIframe := true, listeners := m.listeners + 1)
  }

  /** Point the iframe at the check-session URL, or warn that no endpoints were set up. */
  function PointStep(m: Monitor): (r: Monitor)
    ensures m.wellKnown.Some? ==> r.navigations == m.navigations + [m.wellKnown.value.checkSessionIframe] && r.log == m.log
    ensures m.wellKnown.None? ==> r.navigations == m.navigations && r.log == m.log + [Warning(EndpointsUndefined)]
  {
    match m.wellKnown
    case Some(e) => m.(navigations := m.navigations + [e.checkSessionIframe])
    case None => m.(log := m.log + [Warning(EndpointsUndefined)])
  }

  // ---------------------------------------------------------------------------------------------
  // startCheckingSession, pollServerSession, stopCheckingSession, clearScheduledHeartBeat

  /** `setTimeout(_pollServerSessionRecur, heartBeatInterval)` stored in scheduledHeartBeat, by the
      closure that captured `clientId`. */
  function Schedule(m: Monitor, clientId: string): (r: Monitor)
    ensures r.scheduledHeartBeat == Some(m.nextHandle) && r.armed == m.armed[m.nextHandle := clientId]
    ensures r.nextHandle == m.nextHandle + 1
  {
    m.(scheduledHeartBeat := Some(m.nextHandle), armed := m.armed[m.nextHandle := clientId],
       nextHandle := m.nextHandle + 1)
  }

  /** `pollServerSession(clientId)`: a new closure capturing `clientId`, a reset counter, and that
      closure's first timer. */
  function PollStep(m: Monitor, clientId: string): (r: Monitor)
    ensures r.outstandingMessages == 0
    ensures r.scheduledHeartBeat == Some(m.nextHandle) && r.armed == m.armed[m.nextHandle := clientId]
    ensures r.nextHandle == m.nextHandle + 1
    ensures ChannelUnchanged(m, r) && r.outbox == m.outbox && r.log == m.log && r.changedEvents == m.changedEvents
  {
    Schedule(m.(outstandingMessages := 0), clientId)
  }

  function StartStep(m: Monitor, clientId: string): (r: Monitor)
    ensures m.scheduledHeartBeat.Some? ==> r == m
    ensures m.scheduledHeartBeat.None? ==> r == PollStep(m, clientId)
  {
    if m.scheduledHeartBeat.Some? then m else PollStep(m, clientId)
  }

  /** `clearTimeout(scheduledHeartBeat); scheduledHeartBeat = null`. */
  function ClearStep(m: Monitor): (r: Monitor)
    ensures r.scheduledHeartBeat.None? && r.nextHandle == m.nextHandle
    ensures m.scheduledHeartBeat.Some? ==> r.armed == m.armed - {m.scheduledHeartBeat.value}
    ensures m.scheduledHeartBeat.None? ==> r.armed == m.armed
    ensures ChannelUnchanged(m, r) && r.outstandingMessages == m.outstandingMessages
    ensures r.outbox == m.outbox && r.log == m.log && r.changedEvents == m.changedEvents
  {
    match m.scheduledHeartBeat
    case Some(h) => m.(armed := m.armed - {h}, scheduledHeartBeat := None)
    case None => m
  }

  function StopStep(m: Monitor): (r: Monitor)
    ensures m.scheduledHeartBeat.None? ==> r == m
    ensures m.scheduledHeartBeat.Some? ==> r == ClearStep(m)
  {
    if m.scheduledHeartBeat.None? then m else ClearStep(m)
  }

  // ---------------------------------------------------------------------------------------------
  // the tick: the body of _pollServerSessionRecur once init has emitted

  /** A session state is truthy: present and not the empty string. */
  predicate SessionStatePresent(sessionState: Option<string>) {
    sessionState.Some? && sessionState.value != ""
  }

  /** The probe text the relying party posts: client id, one space, session state. */
  function ProbeText(clientId: string, sessionState: string): (text: string)
    ensures |text| == |clientId| + 1 + |sessionState|
    ensures text[..|clientId|] == clientId && text[|clientId|] == ' ' && text[|clientId| + 1..] == sessionState
  {
    clientId + " " + sessionState
  }

  /** How the receiving side reads a probe: client id before the first space, session state after it. */
  function SplitProbe(text: string): (r: Option<(string, string)>)
    ensures r.Some? ==> ProbeText(r.value.0, r.value.1) == text && ' ' !in r.value.0
    ensures r.None? ==> ' ' !in text
  {
    var i := IndexOf(text, " ");
    if i == -1 then
      assert forall k :: 0 <= k < |text| ==> text[k..k + 1] == [text[k]] && !OccursAt(text, " ", k);
      None
    else
      assert forall k :: 0 <= k < i ==> text[k..k + 1] == [text[k]] && !OccursAt(text, " ", k);
      assert text == text[..i] + " " + text[i + 1..];
      Some((text[..i], text[i + 1..]))
  }

  /** The tick of the closure that captured `clientId` posts a probe exactly when the iframe is
      held, that clientId is non-empty and the session state is present. */
  predicate Sends(m: Monitor, clientId: string, sessionState: Option<string>): (sends: bool)
    ensures sends <==> m.sessionIframe && |clientId| > 0 && sessionState.Some? && |sessionState.value| > 0
  {
    m.sessionIframe && clientId != "" && SessionStatePresent(sessionState)
  }

  /** The tick of the closure that captured `clientId`; a probe re-arms the timer with the same
      closure. */
  function TickStep(m: Monitor, clientId: string, sessionState: Option<string>): (r: Monitor)
    ensures Sends(m, clientId, sessionState) ==>
      && r.outstandingMessages == m.outstandingMessages + 1
      && r.outbox == m.outbox + [Probe(ProbeText(clientId, sessionState.value), m.stsServer)]
      && r.scheduledHeartBeat == Some(m.nextHandle) && r.armed == m.armed[m.nextHandle := clientId]
      && r.nextHandle == m.nextHandle + 1
    ensures !Sends(m, clientId, sessionState) ==>
      r.outstandingMessages == m.outstandingMessages && r.outbox == m.outbox && TimersUnchanged(m, r)
    ensures m.log < r.log
    ensures ChannelUnchanged(m, r) && r.changedEvents == m.changedEvents
  {
    if m.sessionIframe && clientId != "" then
      var seen := m.(log := m.log + [Debug(IframeHandle)]);
      if SessionStatePresent(sessionState) then
        var n := m.outstandingMessages + 1;
        var sent := seen.(outstandingMessages := n,
                          outbox := m.outbox + [Probe(ProbeText(clientId, sessionState.value), m.stsServer)]);
        var warned := if n > MaxOutstanding then sent.(log := sent.log + [Error(NoResponses(n))]) else sent;
        Schedule(warned, clientId)
      else
        seen.(log := seen.log + [Debug(SessionStateBlank)])
    else
      m.(log := m.log + [Warning(IframeMissing), Debug(ClientIdValue(clientId)), Debug(IframeHandle)])
  }

  /** Timer `h` fires: the closure that armed it runs `_pollServerSessionRecur`, which runs `init`;
      when no refresh is due `init` emits at once and that closure's tick runs, otherwise the tick
      waits for the iframe's load, replacing any tick that waited before. */
  function HeartBeatStep(m: Monitor, h: nat, now: int, sessionState: Option<string>): (r: Monitor)
    requires h in m.armed
    ensures InitDue(m.lastIFrameRefresh, now) ==>
      r == InitStep(m.(armed := m.armed - {h}), now).(loadSubscriber := Some(m.armed[h]))
    ensures InitDue(m.lastIFrameRefresh, now) ==>
      && r.loadSubscriber == Some(m.armed[h]) && r.outstandingMessages == m.outstandingMessages
      && r.outbox == m.outbox && r.armed == m.armed - {h} && r.scheduledHeartBeat == m.scheduledHeartBeat
    ensures !InitDue(m.lastIFrameRefresh, now) ==>
      r == TickStep(m.(armed := m.armed - {h}), m.armed[h], sessionState)
  {
    var clientId := m.armed[h];
    var fired := m.(armed := m.armed - {h});
    if InitDue(fired.lastIFrameRefresh, now) then InitStep(fired, now).(loadSubscriber := Some(clientId))
    else TickStep(fired, clientId, sessionState)
  }

  /** The iframe's `load` event: the installed handler records the time and, if a tick waits,
      releases it (take(1) lets only one tick through per subscription). */
  function LoadStep(m: Monitor, now: int, sessionState: Option<string>): (r: Monitor)
    ensures !m.loadHandlerSet ==> r == m
    ensures m.loadHandlerSet ==> r.lastIFrameRefresh == now && r.loadSubscriber.None?
    ensures m.loadHandlerSet && m.loadSubscriber.None? ==> r == m.(lastIFrameRefresh := now)
    ensures m.loadHandlerSet && m.loadSubscriber.Some? ==>
      r == TickStep(m.(lastIFrameRefresh := now, loadSubscriber := None), m.loadSubscriber.value, sessionState)
  {
    if !m.loadHandlerSet then m
    else
      var loaded := m.(lastIFrameRefresh := now);
      match m.loadSubscriber
      case Some(clientId) => TickStep(loaded.(loadSubscriber := None), clientId, sessionState)
      case None => loaded
  }

  // ---------------------------------------------------------------------------------------------
  // messageHandler

  /** The origin check: `stsServer.indexOf(origin) === 0`. */
  function IsPrefix(origin: string, stsServer: string): (r: bool)
    ensures r <==> origin <= stsServer
  {
    var i := IndexOf(stsServer, origin);
    assert origin <= stsServer ==> OccursAt(stsServer, origin, 0);
    i == 0
  }

  /** The message passes the handler's checks: iframe held, origin a prefix of the provider's URL,
      source the iframe's window. */
  predicate Accepted(m: Monitor, msg: Message): (accepted: bool)
    ensures accepted <==> m.sessionIframe && msg.origin <= m.stsServer && msg.fromSessionIframe
  {
    m.sessionIframe && IsPrefix(msg.origin, m.stsServer) && msg.fromSessionIframe
  }

  function MessageStep(m: Monitor, msg: Message): (r: Monitor)
    ensures r.outstandingMessages == 0
    ensures r.changedEvents == m.changedEvents + (if Accepted(m, msg) && msg.data == "changed" then 1 else 0)
    ensures !Accepted(m, msg) ==> r == m.(outstandingMessages := 0)
    ensures Accepted(m, msg) && msg.data == "error" ==> r.log == m.log + [Warning(ErrorFromProvider)]
    ensures Accepted(m, msg) && msg.data == "changed" ==> r.log == m.log
    ensures Accepted(m, msg) && msg.data != "error" && msg.data != "changed" ==>
      r.log == m.log + [Debug(Payload(msg.data))]
    ensures ChannelUnchanged(m, r) && TimersUnchanged(m, r) && r.outbox == m.outbox
  {
    var reset := m.(outstandingMessages := 0);
    if !Accepted(m, msg) then reset
    else if msg.data == "error" then reset.(log := reset.log + [Warning(ErrorFromProvider)])
    else if msg.data == "changed" then reset.(changedEvents := reset.changedEvents + 1)
    else reset.(log := reset.log + [Debug(Payload(msg.data))])
  }

  // ---------------------------------------------------------------------------------------------
  // runs of consecutive timer firings, for stating properties of the heartbeat

  /** Fire the stored timer once per session state in `states`, all at time `now`, with no message
      arriving in between; stops early once no stored timer is armed. */
  function Heartbeat(m: Monitor, now: int, states: seq<Option<string>>): (r: Monitor)
    decreases |states|
  {
    if states == [] then m
    else match m.scheduledHeartBeat
      case Some(h) =>
        if h in m.armed then Heartbeat(HeartBeatStep(m, h, now, states[0]), now, states[1..]) else m
      case None => m
  }

  /** The probes a run of present session states posts. */
  function Probes(clientId: string, states: seq<Option<string>>, stsServer: string): (probes: seq<Probe>) {
    if states == [] then []
    else
      var s := match states[0] case Some(v) => v case None => "";
      [Probe(ProbeText(clientId, s), stsServer)] + Probes(clientId, states[1..], stsServer)
  }

  /** How many of the counter values o + 1 .. o + k exceed MaxOutstanding. */
  function Overdue(o: nat, k: nat): (n: nat) {
    if o + k <= MaxOutstanding then 0
    else if o >= MaxOutstanding then k
    else o + k - MaxOutstanding
  }
}
