# Check-session heartbeat of angular-auth-oidc-client, in Dafny

This project models the relying-party side of OpenID Connect Session Management 1.0 (section 3.1,
"RP iframe") as the service `OidcSecurityCheckSession` of angular-auth-oidc-client implements it.
The service keeps a hidden iframe pointed at the provider's check-session endpoint and reloads it
at most once every 60 s. A self-rescheduling timer posts `"<clientId> <session_state>"` to that
iframe and counts the probes that get no answer; past three it logs an error on every tick.
A message listener resets the counter on every message. When a message passes the origin and
source checks and carries `"changed"`, the listener emits one event on `onCheckSessionChanged`.

Files:

- `js_string.dfy` (module `JsString`): `String.prototype.indexOf`, which the origin check uses.
- `check_session_model.dfy` (module `CheckSessionModel`): the whole state as one value, `Monitor`.
  It holds the iframe, the listener count, the endpoints, the iframe's navigations, the onload
  handler, the tick that waits for it, `lastIFrameRefresh`, the stored timer handle, the armed
  timers, `outstandingMessages`, the outbox of posted probes, the count of change events and the
  log. Each `pollServerSession(clientId)` call creates its own callback closure that captures its
  `clientId`. So every armed timer, and the waiting tick, carries the clientId of the closure it
  belongs to. There is one pure step function per callback, plus the invariants `Valid`
  and `NoRace`.
- `check_session.dfy` (module `CheckSession`): class `OidcSecurityCheckSession`. It has the same
  state as fields, and its methods update those fields as the TypeScript does. Each method is
  proved to move `State()` exactly as its step function does.
- `check_session_props.dfy` (module `CheckSessionProperties`): the properties.
  - Idempotent start.
  - Stop disarms the stored timer. A tick already waiting for the iframe's load is not
    cancelled, and it re-arms the heartbeat when the load comes.
  - The error threshold.
  - The stall after a blank tick.
  - Unanswered heartbeats, by induction.
  - One change event per accepted `"changed"` message, by induction.
  - The invariants hold over every run of callbacks, by induction.
  - The probe round trip.
  - The origin check.
  - A whole scenario.

How time, the DOM and the timers are represented:

- Time is a `now` parameter.
- A timer is a handle in the map `armed`. The map sends the handle to the clientId its callback
  captured. The stored `scheduledHeartBeat` is `Option<nat>`.
- A firing is the method `OnHeartBeat(h, …)`, which requires `h` to be armed.
- The iframe's load is `OnLoad`.
- The session state the tick reads is a parameter, because it lives in another service.

Behaviour of the code as written, kept in the model:

- `messageHandler` resets the counter before it checks origin and source. A spoofed message
  therefore emits nothing but still clears the counter (`MessageStep`, `Scenario`).
- A tick with a blank session state, no iframe or an empty clientId does not re-arm the timer.
  It also leaves the fired handle stored, so `startCheckingSession` stays a no-op until
  `stopCheckingSession` runs (`BlankTickStallsHeartbeat`). The heartbeat does not go on polling.
- The refresh is due when `now` equals `lastIFrameRefresh + 60000`, because the early return
  needs a strict `>` (`InitDueAtBoundary`).
- `setupModule` stores `Object.assign({}, endpoints)`, which is always an object. After any call
  to it, `init` never logs the missing-endpoints warning. With undefined endpoints it points the
  iframe at an undefined URL instead (`SetupSilencesEndpointWarning`).
- Stop and start while a tick waits for the iframe's load do not cancel that tick. The next load
  releases it with the clientId of the closure whose timer fired, beside the timer the restart
  armed for its own clientId (`StopStartDuringLoadLeaksTimer`). If the old clientId is
  non-empty, the released tick posts its probe and arms a second timer, which replaces the
  restarted one as the stored handle. A later stop then cancels only that second timer, and the
  restarted heartbeat keeps running. If the old clientId is empty, the released tick posts and
  arms nothing. The invariants are proved for every run without that interleaving
  (`RunPreservesValid`).
- The origin check `stsServer.indexOf(origin) === 0` is a prefix test. It accepts the empty
  origin and shortened host names such as `https://idp.ex` for `https://idp.example`
  (`PrefixAcceptsForeignOrigins`).
- If the page already holds an iframe named `myiFrameForCheckSession`, the service adopts it and
  never registers a listener (`AdoptedIframeNeverListens`).

## Model

| member | source | states |
|---|---|---|
| JsString.IndexFrom | src/services/oidc.security.check-session.ts:143 | the search from `from` returns the first index at or after it where the needle occurs, or -1 when none does |
| JsString.IndexOf | src/services/oidc.security.check-session.ts:143 | `indexOf` returns -1 exactly when the needle occurs nowhere, else the first occurrence |
| CheckSessionModel.IsPrefix | src/services/oidc.security.check-session.ts:143 | `stsServer.indexOf(origin) === 0` holds exactly when `origin` is a prefix of `stsServer` |
| CheckSessionModel.Initial | src/services/oidc.security.check-session.ts:16-24 | a new service holds no iframe, no listener and no handle, has a zero counter and satisfies both invariants |
| CheckSessionModel.CopyEndpoints | src/services/oidc.security.check-session.ts:39 | the defensive copy keeps the given endpoints and is an empty object for undefined ones |
| CheckSessionModel.SetupStep | src/services/oidc.security.check-session.ts:38-40 | setupModule stores exactly the defensive copy of the given endpoints and changes nothing else |
| CheckSessionModel.InitDue | src/services/oidc.security.check-session.ts:54 | the refresh is due exactly when at least 60000 ms have passed since the last load, i.e. when `lastIFrameRefresh + 60000 > now` fails |
| CheckSessionModel.InitStep | src/services/oidc.security.check-session.ts:53-77 | no effect unless the refresh is due. When due: holds the iframe, registers a listener only if it created the iframe, points the iframe at the URL or warns, installs the onload handler, and leaves the waiting tick, `lastIFrameRefresh`, timers and counter alone |
| CheckSessionModel.AttachStep | src/services/oidc.security.check-session.ts:58-62 | afterwards the iframe exists and is held; the listener count grows by one only when the iframe was not in the document |
| CheckSessionModel.PointStep | src/services/oidc.security.check-session.ts:64-68 | with endpoints set, navigates to the check-session URL and logs nothing; without them, only a warning |
| CheckSessionModel.Schedule | src/services/oidc.security.check-session.ts:116 | setTimeout stores a fresh handle and arms exactly that timer in addition, for the closure of the given clientId |
| CheckSessionModel.PollStep | src/services/oidc.security.check-session.ts:95-134 | pollServerSession zeroes the counter, stores and arms a new handle whose closure captured the given clientId, and leaves channel, outbox and log alone |
| CheckSessionModel.StartStep | src/services/oidc.security.check-session.ts:79-85 | no effect while a handle is stored, otherwise pollServerSession |
| CheckSessionModel.ClearStep | src/services/oidc.security.check-session.ts:136-139 | the handle is gone, exactly the stored timer is disarmed, and counter, channel, outbox and log are unchanged |
| CheckSessionModel.StopStep | src/services/oidc.security.check-session.ts:87-93 | no effect without a stored handle, otherwise clearScheduledHeartBeat |
| CheckSessionModel.ProbeText | src/services/oidc.security.check-session.ts:105 | the probe is the clientId, one space, then the session state |
| CheckSessionModel.SplitProbe | src/services/oidc.security.check-session.ts:105 | reading a probe back: a decoded pair re-encodes to the same text and its clientId has no space, and text without a space is not a probe |
| CheckSessionModel.Sends | src/services/oidc.security.check-session.ts:100-103 | a tick posts exactly when the iframe is held, the closure's clientId is non-empty and the session state is present and non-empty |
| CheckSessionModel.TickStep | src/services/oidc.security.check-session.ts:99-127 | with the iframe held, the closure's clientId non-empty and a session state present: counter +1, exactly that one probe (with that clientId) to `stsServer`, a fresh handle armed for the same closure. Otherwise: no probe, same counter, no timer. Always logs; never touches the channel or events |
| CheckSessionModel.HeartBeatStep | src/services/oidc.security.check-session.ts:96-99 | the fired timer is disarmed. If a refresh is due, init runs and the tick of the fired timer's closure waits for the load, replacing any waiting tick, with counter and outbox unchanged; otherwise that closure's tick runs at once |
| CheckSessionModel.LoadStep | src/services/oidc.security.check-session.ts:70-75 | with the service's onload installed, records `now` as `lastIFrameRefresh` and releases a waiting tick once, with its own clientId; otherwise no effect |
| CheckSessionModel.Accepted | src/services/oidc.security.check-session.ts:143 | a message passes the handler's checks exactly when the iframe is held, its origin is a prefix of `stsServer` and its source is the iframe's window |
| CheckSessionModel.MessageStep | src/services/oidc.security.check-session.ts:141-153 | counter is 0 after every message. One event exactly for an accepted `"changed"`. A warning for an accepted `"error"`, a debug entry for other accepted payloads, and nothing but the reset for a rejected message |
| CheckSession.OidcSecurityCheckSession.constructor | src/services/oidc.security.check-session.ts:16-36 | the fields start as `Initial` |
| CheckSession.OidcSecurityCheckSession.SetupModule | src/services/oidc.security.check-session.ts:38-40 | updates the fields as `SetupStep` |
| CheckSession.OidcSecurityCheckSession.DoesSessionExist | src/services/oidc.security.check-session.ts:42-51 | returns whether the document holds the iframe, and holds it when it does |
| CheckSession.OidcSecurityCheckSession.Init | src/services/oidc.security.check-session.ts:53-77 | returns "ready at once" exactly when no refresh is due, and updates the fields as `InitStep` |
| CheckSession.OidcSecurityCheckSession.AttachIframe | src/services/oidc.security.check-session.ts:58-62 | updates the fields as `AttachStep` |
| CheckSession.OidcSecurityCheckSession.PointIframe | src/services/oidc.security.check-session.ts:64-68 | updates the fields as `PointStep` |
| CheckSession.OidcSecurityCheckSession.Start | src/services/oidc.security.check-session.ts:79-85 | updates the fields as `StartStep` |
| CheckSession.OidcSecurityCheckSession.Stop | src/services/oidc.security.check-session.ts:87-93 | updates the fields as `StopStep` |
| CheckSession.OidcSecurityCheckSession.PollServerSession | src/services/oidc.security.check-session.ts:130-134 | updates the fields as `PollStep` |
| CheckSession.OidcSecurityCheckSession.ScheduleHeartBeat | src/services/oidc.security.check-session.ts:116 | updates the fields as `Schedule` |
| CheckSession.OidcSecurityCheckSession.ClearScheduledHeartBeat | src/services/oidc.security.check-session.ts:136-139 | updates the fields as `ClearStep` |
| CheckSession.OidcSecurityCheckSession.Tick | src/services/oidc.security.check-session.ts:99-127 | updates the fields as `TickStep` for the given closure's clientId |
| CheckSession.OidcSecurityCheckSession.OnHeartBeat | src/services/oidc.security.check-session.ts:96-99 | updates the fields as `HeartBeatStep`, for an armed timer only, with the clientId that timer's closure captured |
| CheckSession.OidcSecurityCheckSession.OnLoad | src/services/oidc.security.check-session.ts:70-75 | updates the fields as `LoadStep` |
| CheckSession.OidcSecurityCheckSession.OnMessage | src/services/oidc.security.check-session.ts:141-153 | updates the fields as `MessageStep` |
| CheckSessionProperties.ArmedAtMostOne | src/services/oidc.security.check-session.ts:79-85 | under the invariant at most one timer is armed, and none when no handle is stored |
| CheckSessionProperties.TickPreservesValid | src/services/oidc.security.check-session.ts:99-127 | a tick that runs after its timer fired keeps the invariant and arms at most the fresh handle |
| CheckSessionProperties.ApplyPreservesValid | src/services/oidc.security.check-session.ts:38-153 | every callback keeps both invariants, except a start while a tick waits for the load |
| CheckSessionProperties.RunPreservesValid | src/services/oidc.security.check-session.ts:38-153 | over any run without that interleaving: at most one armed timer (the stored one), at most one listener |
| CheckSessionProperties.Deliver | src/services/oidc.security.check-session.ts:61 | a window message runs the handler once per registered listener: with none nothing changes; with some the counter is 0 and one event is emitted per listener for an accepted `"changed"`; channel, timers and outbox are untouched |
| CheckSessionProperties.Apply | src/services/oidc.security.check-session.ts:38-153 | a timer that is not armed cannot fire and a message with no listener changes nothing; no callback reuses a handle, removes the iframe, or takes back a log entry or a probe |
| CheckSessionProperties.Run | src/services/oidc.security.check-session.ts:38-153 | over any run of callbacks: handles only grow, the iframe stays in the document, and the log and outbox are append-only |
| CheckSessionProperties.AdoptedIframeNeverListens | src/services/oidc.security.check-session.ts:58-62 | an iframe that was already in the document never gets a message listener, and no change event is ever emitted, in any run |
| CheckSessionProperties.StopStartDuringLoadLeaksTimer | src/services/oidc.security.check-session.ts:87-133 | stop and start during a pending load arm the new clientId's timer and keep the old closure's tick waiting. With a non-empty old clientId the load makes that tick post its probe and arm a second timer, which is stored; the next stop leaves the restarted timer armed. With an empty one the load posts and arms nothing |
| CheckSessionProperties.StartIdempotent | src/services/oidc.security.check-session.ts:79-85 | start twice equals start once, whatever the second clientId. From idle: exactly one armed timer, for the first clientId's closure, and counter 0 |
| CheckSessionProperties.StopThenStartResets | src/services/oidc.security.check-session.ts:79-93 | stop then start gives counter 0 and exactly one armed timer, for the new clientId's closure |
| CheckSessionProperties.StopCancelsHeartbeat | src/services/oidc.security.check-session.ts:87-93 | after stop no handle and no armed timer; counter, channel and outbox are unchanged, and a second stop does nothing |
| CheckSessionProperties.ErrorsInAppend | src/services/oidc.security.check-session.ts:108-112 | the error count of a concatenated log is the sum of the parts' counts |
| CheckSessionProperties.TickErrorIffOverThreshold | src/services/oidc.security.check-session.ts:104-114 | a tick logs exactly one error when it posts a probe that takes the counter past 3, else none; the error carries the new counter |
| CheckSessionProperties.BlankTickStallsHeartbeat | src/services/oidc.security.check-session.ts:100-126 | a tick without session state, iframe or clientId posts nothing, keeps the counter and arms nothing. The handle stays stored, start is a no-op, and only stop then start restarts |
| CheckSessionProperties.FiringPosts | src/services/oidc.security.check-session.ts:100-116 | one firing of a non-empty clientId's timer, with session state and no refresh due, posts that closure's probe, adds one to the counter, logs an error past 3 and re-arms the same closure |
| CheckSessionProperties.HeartbeatWithoutReplies | src/services/oidc.security.check-session.ts:100-116 | k unanswered ticks of one closure post exactly its k probes and add k to the counter. One error is logged per counter value above 3, and the same closure's timer is still armed and stored |
| CheckSessionProperties.FourthUnansweredProbeLogsError | src/services/oidc.security.check-session.ts:104-116 | from a zero counter, three unanswered probes log no error, the k-th from the 4th on logs one each, and the same closure's timer is still armed and stored, so the heartbeat keeps going |
| CheckSessionProperties.ProbeRoundTrip | src/services/oidc.security.check-session.ts:105 | for a clientId without a space, splitting the probe at its first space gives back clientId and session state |
| CheckSessionProperties.PrefixAcceptsForeignOrigins | src/services/oidc.security.check-session.ts:143 | the origin check accepts a truncated host name and the empty origin, and rejects a different host |
| CheckSessionProperties.InitDueAtBoundary | src/services/oidc.security.check-session.ts:54 | the refresh is due exactly 60000 ms after the last load, and not 1 ms earlier |
| CheckSessionProperties.SetupSilencesEndpointWarning | src/services/oidc.security.check-session.ts:64-68 | after setupModule a due init logs nothing and navigates once, to an undefined URL if the endpoints were undefined |
| CheckSessionProperties.ChangedEventsCount | src/services/oidc.security.check-session.ts:141-153 | over any sequence of messages the events grow by exactly the number of accepted `"changed"` ones; the counter is 0 after any non-empty sequence; channel, timers and outbox are untouched |
| CheckSessionProperties.Scenario | src/services/oidc.security.check-session.ts:38-153 | setup, start, first tick and load post `"client-A abc"` to the provider. A spoofed `"changed"` emits nothing but clears the counter, and the genuine one emits one event |

## Left out

- Angular dependency injection, `NgZone.runOutsideAngular` and the `onCheckSessionChanged` getter are framework wiring. Subscribers are not modelled: the event stream is a count of emitted events.
- RxJS subscription semantics (`from`, `Observable.create`, `take(1)`) become two facts: `init` either emits at once or installs the onload handler, for which the subscribing closure's tick then waits (replacing a waiting tick of another closure), and the next load releases that tick.
- Real timers are left out. The heartbeat delay of 3000 ms is not recorded. A firing is an explicit call that needs an armed handle, and nothing is claimed about timing.
- The DOM is abstracted to booleans and counters. This covers `IFrameService`, iframe creation, `contentWindow.location.replace`, `postMessage` and `addEventListener`. The model does not cover an iframe removed from the page by other code, which would let `init` create a second iframe and register a second listener.
- `Date.now()` and the session state are parameters. Log messages are recorded by level and kind, not as formatted text.
- Message payloads are strings. A non-string `e.data` is not modelled.
- Each callback is applied whole, as one step of a run. Nothing interleaves inside a callback; runs of whole callbacks in any order are covered (`Run`).
- CheckSessionProperties.HeartbeatWithoutReplies: covers runs at one `now` inside a single refresh window, so ticks that reload the iframe are not part of that lemma.
- CheckSessionProperties.FourthUnansweredProbeLogsError: stated for firings inside one refresh window only. Unanswered ticks that wait for an iframe reload count the same way (the load keeps the counter), but that lemma does not cover them.
- CheckSessionProperties.RunPreservesValid: excludes runs that start again while a tick waits for the iframe's load, because there the invariant fails (`StopStartDuringLoadLeaksTimer`).
