/** Properties of the check-session service, stated over the step functions of CheckSessionModel
    (and so, through the methods' postconditions, over OidcSecurityCheckSession). */
module CheckSessionProperties {
  import opened JsString
  import opened CheckSessionModel

  // ---------------------------------------------------------------------------------------------
  // Runs of callbacks

  /** One callback of the service, as the browser or the application delivers it. */
  datatype Event =
    | SetupModule(endpoints: Option<Endpoints>)
    | StartChecking(clientId: string)
    | StopChecking
    | TimerFires(handle: nat, now: int, sessionState: Option<string>)
    | IframeLoads(now: int, sessionState: Option<string>)
    | MessageArrives(msg: Message)

  /** A window `message` event runs messageHandler once for each of the `n` listeners the service
      registered: with none, no answer from the provider reaches the service. */
  function Deliver(m: Monitor, msg: Message, n: nat): (r: Monitor)
    ensures n == 0 ==> r == m
    ensures n > 0 ==> r.outstandingMessages == 0
    ensures r.changedEvents == m.changedEvents + (if Accepted(m, msg) && msg.data == "changed" then n else 0)
    ensures ChannelUnchanged(m, r) && TimersUnchanged(m, r) && r.outbox == m.outbox && m.log <= r.log
    decreases n
  {
    if n == 0 then m else Deliver(MessageStep(m, msg), msg, n - 1)
  }

  /** The effect of one event; a timer that is not armed cannot fire, so its event changes nothing.
      No event reuses a timer handle, removes the iframe from the document, or takes back a log
      entry or a posted probe. */
  function Apply(m: Monitor, ev: Event): (r: Monitor)
    ensures ev.TimerFires? && ev.handle !in m.armed ==> r == m
    ensures ev.MessageArrives? && m.listeners == 0 ==> r == m
    ensures r.stsServer == m.stsServer && r.nextHandle >= m.nextHandle
    ensures m.iframeInDocument ==> r.iframeInDocument
    ensures m.log <= r.log && m.outbox <= r.outbox
  {
    match ev
    case SetupModule(e) => SetupStep(m, e)
    case StartChecking(c) => StartStep(m, c)
    case StopChecking => StopStep(m)
    case TimerFires(h, now, s) => if h in m.armed then HeartBeatStep(m, h, now, s) else m
    case IframeLoads(now, s) => LoadStep(m, now, s)
    case MessageArrives(msg) => Deliver(m, msg, m.listeners)
  }

  /** The events in order; every property Apply keeps for one event holds for the whole run. */
  function Run(m: Monitor, evs: seq<Event>): (r: Monitor)
    ensures r.stsServer == m.stsServer && r.nextHandle >= m.nextHandle
    ensures m.iframeInDocument ==> r.iframeInDocument
    ensures m.log <= r.log && m.outbox <= r.outbox
    decreases |evs|
  {
    if evs == [] then m else Run(Apply(m, evs[0]), evs[1..])
  }

  /** The event does not restart the heartbeat while a tick still waits for the iframe's load
      (which can only happen after a stop during that wait). */
  predicate Sequential(m: Monitor, ev: Event) {
    !(ev.StartChecking? && m.scheduledHeartBeat.None? && m.loadSubscriber.Some?)
  }

  predicate SequentialRun(m: Monitor, evs: seq<Event>)
    decreases |evs|
  {
    evs == [] || (Sequential(m, evs[0]) && SequentialRun(Apply(m, evs[0]), evs[1..]))
  }

  lemma ArmedAtMostOne(m: Monitor)
    requires Valid(m)
    ensures |m.armed| <= 1
    ensures m.scheduledHeartBeat.None? ==> m.armed == map[]
  {
    match m.scheduledHeartBeat
    case None =>
      assert forall h :: h !in m.armed;
      assert m.armed == map[];
    case Some(v) =>
      assert m.armed.Keys <= {v};
      if v in m.armed {
        assert m.armed == map[v := m.armed[v]];
      } else {
        assert m.armed == map[];
      }
  }

  lemma TickPreservesValid(m: Monitor, clientId: string, s: Option<string>)
    requires Valid(m) && m.armed == map[]
    ensures Valid(TickStep(m, clientId, s)) && TickStep(m, clientId, s).armed.Keys <= {m.nextHandle}
  {
  }

  /** Every callback keeps the invariants, except a restart during a pending load. */
  lemma ApplyPreservesValid(m: Monitor, ev: Event)
    requires Valid(m) && NoRace(m) && Sequential(m, ev)
    ensures Valid(Apply(m, ev)) && NoRace(Apply(m, ev))
  {
  }

  /** In every run without a restart during a pending load, at most one timer is armed (and it is
      the stored handle) and at most one message listener is registered. */
  lemma {:induction false} RunPreservesValid(m: Monitor, evs: seq<Event>)
    requires Valid(m) && NoRace(m) && SequentialRun(m, evs)
    ensures Valid(Run(m, evs)) && NoRace(Run(m, evs))
    ensures |Run(m, evs).armed| <= 1 && Run(m, evs).listeners <= 1
    decreases |evs|
  {
    if evs == [] {
      ArmedAtMostOne(m);
    } else {
      ApplyPreservesValid(m, evs[0]);
      RunPreservesValid(Apply(m, evs[0]), evs[1..]);
    }
  }

  /** When the document already holds the named iframe, init adopts it and never registers a
      message listener, in any run: no answer from the provider ever reaches messageHandler, so no
      change is ever reported. */
  lemma {:induction false} AdoptedIframeNeverListens(m: Monitor, evs: seq<Event>)
    requires m.iframeInDocument && m.listeners == 0
    ensures Run(m, evs).iframeInDocument && Run(m, evs).listeners == 0
    ensures Run(m, evs).changedEvents == m.changedEvents
    decreases |evs|
  {
    if evs != [] {
      var next := Apply(m, evs[0]);
      assert next.iframeInDocument && next.listeners == 0 && next.changedEvents == m.changedEvents;
      AdoptedIframeNeverListens(next, evs[1..]);
    }
  }

  /** Stopping and then restarting while a tick waits for the iframe's load: the restart arms a
      timer for its own clientId, and the load still releases the waiting tick, which runs with the
      clientId of the closure whose timer fired. When that clientId is non-empty, the tick posts
      its probe and arms a second timer, stored in place of the first; the next stop cancels that
      one only and the restarted heartbeat survives it. When it is empty, the tick posts and arms
      nothing and the restarted timer is the only one. */
  lemma StopStartDuringLoadLeaksTimer(m: Monitor, h: nat, now: int, later: int, clientId: string, s: Option<string>)
    requires Valid(m) && h in m.armed && InitDue(m.lastIFrameRefresh, now) && SessionStatePresent(s)
    ensures var waiting := HeartBeatStep(m, h, now, s);
            var restarted := StartStep(StopStep(waiting), clientId);
            restarted.armed == map[m.nextHandle := clientId] && restarted.loadSubscriber == Some(m.armed[h])
    ensures var restarted := StartStep(StopStep(HeartBeatStep(m, h, now, s)), clientId);
            var r := LoadStep(restarted, later, s);
            m.armed[h] != "" ==>
              && r.outbox == m.outbox + [Probe(ProbeText(m.armed[h], s.value), m.stsServer)]
              && r.armed == map[m.nextHandle := clientId, m.nextHandle + 1 := m.armed[h]]
              && !Valid(r) && StopStep(r).armed == map[m.nextHandle := clientId]
    ensures var restarted := StartStep(StopStep(HeartBeatStep(m, h, now, s)), clientId);
            var r := LoadStep(restarted, later, s);
            m.armed[h] == "" ==> r.outbox == m.outbox && r.armed == restarted.armed && Valid(r)
  {
    ArmedAtMostOne(m);
  }

  // ---------------------------------------------------------------------------------------------
  // startCheckingSession and stopCheckingSession

  /** A second start is a no-op, whatever its clientId: one handle, one armed timer whose closure
      captured the first call's clientId, and the counter of the first call. */
  lemma StartIdempotent(m: Monitor, first: string, second: string)
    requires Valid(m)
    ensures var once := StartStep(m, first);
            StartStep(once, second) == once && once.scheduledHeartBeat.Some? && |once.armed| <= 1
    ensures m.scheduledHeartBeat.None? ==>
            var once := StartStep(m, first);
            once.armed == map[once.scheduledHeartBeat.value := first] && once.outstandingMessages == 0
  {
    ArmedAtMostOne(m);
  }

  /** Stop then start always restarts the heartbeat from a zero counter with exactly one timer. */
  lemma StopThenStartResets(m: Monitor, clientId: string)
    requires Valid(m)
    ensures var r := StartStep(StopStep(m), clientId);
            r.outstandingMessages == 0
            && r.scheduledHeartBeat.Some? && r.armed == map[r.scheduledHeartBeat.value := clientId]
  {
  }

  /** Stop cancels every armed timer and touches neither the counter nor the channel. */
  lemma StopCancelsHeartbeat(m: Monitor)
    requires Valid(m)
    ensures var r := StopStep(m);
            r.scheduledHeartBeat.None? && r.armed == map[] && r.outstandingMessages == m.outstandingMessages
            && ChannelUnchanged(m, r) && r.outbox == m.outbox && StopStep(r) == r
  {
  }

  // ---------------------------------------------------------------------------------------------
  // The tick

  lemma {:induction false} ErrorsInAppend(a: seq<LogEntry>, b: seq<LogEntry>)
    ensures ErrorsIn(a + b) == ErrorsIn(a) + ErrorsIn(b)
    decreases |a|
  {
    if a == [] {
      assert a + b == b;
    } else {
      assert (a + b)[1..] == a[1..] + b;
      ErrorsInAppend(a[1..], b);
    }
  }

  /** A tick logs an error exactly when it posts a probe that takes the counter past three; the
      entry carries the new counter. */
  lemma TickErrorIffOverThreshold(m: Monitor, clientId: string, s: Option<string>)
    ensures var r := TickStep(m, clientId, s);
            ErrorsIn(r.log) == ErrorsIn(m.log)
                               + (if Sends(m, clientId, s) && m.outstandingMessages + 1 > MaxOutstanding then 1 else 0)
    ensures Sends(m, clientId, s) && m.outstandingMessages + 1 > MaxOutstanding ==>
            var r := TickStep(m, clientId, s);
            r.log[|r.log| - 1] == Error(NoResponses(m.outstandingMessages + 1))
  {
    var added: seq<LogEntry>;
    if !(m.sessionIframe && clientId != "") {
      added := [Warning(IframeMissing), Debug(ClientIdValue(clientId)), Debug(IframeHandle)];
      assert ErrorsIn(added[2..]) == 0;
      assert ErrorsIn(added[1..]) == 0;
    } else if !SessionStatePresent(s) {
      added := [Debug(IframeHandle), Debug(SessionStateBlank)];
      assert ErrorsIn(added[1..]) == 0;
    } else if m.outstandingMessages + 1 > MaxOutstanding {
      added := [Debug(IframeHandle), Error(NoResponses(m.outstandingMessages + 1))];
      assert ErrorsIn(added[1..]) == 1;
    } else {
      added := [Debug(IframeHandle)];
    }
    assert TickStep(m, clientId, s).log == m.log + added;
    ErrorsInAppend(m.log, added);
  }

  /** A tick without a session state (or without iframe, or whose closure captured an empty
      clientId) posts nothing, keeps the counter and arms no timer, yet the fired handle stays
      stored: start is then a no-op and the heartbeat stays stopped until stop is called. */
  lemma BlankTickStallsHeartbeat(m: Monitor, h: nat, now: int, s: Option<string>, clientId: string)
    requires Valid(m) && h in m.armed && !InitDue(m.lastIFrameRefresh, now) && !Sends(m, m.armed[h], s)
    ensures var r := HeartBeatStep(m, h, now, s);
            r.armed == map[] && r.scheduledHeartBeat == Some(h)
            && r.outbox == m.outbox && r.outstandingMessages == m.outstandingMessages
            && StartStep(r, clientId) == r
            && StartStep(StopStep(r), clientId).armed == map[r.nextHandle := clientId]
  {
  }

  /** The clientId captured by the closure of the stored timer, when that timer is armed. */
  predicate StoredClosure(m: Monitor, clientId: string) {
    m.scheduledHeartBeat.Some? && m.scheduledHeartBeat.value in m.armed
    && m.armed[m.scheduledHeartBeat.value] == clientId
  }

  /** One firing of the stored timer of such a closure, with a session state present and no
      refresh due: the tick posts, counts, logs an error past three and re-arms the same closure. */
  lemma FiringPosts(m: Monitor, clientId: string, now: int, s: Option<string>)
    requires StoredClosure(m, clientId) && clientId != ""
    requires m.sessionIframe && !InitDue(m.lastIFrameRefresh, now) && SessionStatePresent(s)
    ensures var r := HeartBeatStep(m, m.scheduledHeartBeat.value, now, s);
            && r.outstandingMessages == m.outstandingMessages + 1
            && r.outbox == m.outbox + [Probe(ProbeText(clientId, s.value), m.stsServer)]
            && ErrorsIn(r.log) == ErrorsIn(m.log) + (if m.outstandingMessages + 1 > MaxOutstanding then 1 else 0)
            && StoredClosure(r, clientId) && ChannelUnchanged(m, r)
  {
    var h := m.scheduledHeartBeat.value;
    var fired := m.(armed := m.armed - {h});
    assert HeartBeatStep(m, h, now, s) == TickStep(fired, clientId, s);
    assert Sends(fired, clientId, s);
    TickErrorIffOverThreshold(fired, clientId, s);
  }

  /** Consecutive firings of the stored timer, whose closure captured a non-empty clientId, with a
      session state present and no answer in between: every tick posts its probe with that
      clientId and adds one to the counter, an error is logged for every counter value past three,
      and the same closure's heartbeat is still scheduled at the end. */
  lemma {:induction false} HeartbeatWithoutReplies(m: Monitor, clientId: string, now: int, states: seq<Option<string>>)
    requires StoredClosure(m, clientId) && clientId != ""
    requires m.sessionIframe && !InitDue(m.lastIFrameRefresh, now)
    requires forall i :: 0 <= i < |states| ==> SessionStatePresent(states[i])
    ensures var r := Heartbeat(m, now, states);
            && r.outstandingMessages == m.outstandingMessages + |states|
            && r.outbox == m.outbox + Probes(clientId, states, m.stsServer)
            && ErrorsIn(r.log) == ErrorsIn(m.log) + Overdue(m.outstandingMessages, |states|)
            && StoredClosure(r, clientId)
    decreases |states|
  {
    if states != [] {
      var next := HeartBeatStep(m, m.scheduledHeartBeat.value, now, states[0]);
      FiringPosts(m, clientId, now, states[0]);
      assert Heartbeat(m, now, states) == Heartbeat(next, now, states[1..]);
      HeartbeatWithoutReplies(next, clientId, now, states[1..]);
      assert Overdue(m.outstandingMessages, |states|)
          == (if m.outstandingMessages + 1 > MaxOutstanding then 1 else 0) + Overdue(m.outstandingMessages + 1, |states| - 1);
      assert Probes(clientId, states, m.stsServer)
          == [Probe(ProbeText(clientId, states[0].value), m.stsServer)] + Probes(clientId, states[1..], m.stsServer);
    }
  }

  /** The threshold as seen from a (re)start: with the counter at zero, the fourth unanswered
      probe is the first to log an error, and the same closure's timer is still armed and stored
      after it: the heartbeat keeps going rather than stalling. */
  lemma FourthUnansweredProbeLogsError(m: Monitor, clientId: string, now: int, states: seq<Option<string>>)
    requires StoredClosure(m, clientId) && clientId != "" && m.outstandingMessages == 0
    requires m.sessionIframe && !InitDue(m.lastIFrameRefresh, now)
    requires forall i :: 0 <= i < |states| ==> SessionStatePresent(states[i])
    ensures |states| <= 3 ==> ErrorsIn(Heartbeat(m, now, states).log) == ErrorsIn(m.log)
    ensures |states| >= 4 ==> ErrorsIn(Heartbeat(m, now, states).log) == ErrorsIn(m.log) + |states| - 3
    ensures StoredClosure(Heartbeat(m, now, states), clientId)
  {
    HeartbeatWithoutReplies(m, clientId, now, states);
  }

  // ---------------------------------------------------------------------------------------------
  // The origin check and the probe format

  /** The probe is unambiguous when the client id has no space: splitting it at the first space
      gives back the client id and the session state. */
  lemma ProbeRoundTrip(clientId: string, sessionState: string)
    requires ' ' !in clientId
    ensures SplitProbe(ProbeText(clientId, sessionState)) == Some((clientId, sessionState))
  {
  }

  /** The prefix check accepts origins that are not the provider's: a shorter host name that is a
      prefix of it, and the empty origin. */
  lemma PrefixAcceptsForeignOrigins()
    ensures IsPrefix("https://idp.ex", "https://idp.example")
    ensures IsPrefix("", "https://idp.example")
    ensures !IsPrefix("https://evil.example", "https://idp.example")
  {
  }

  /** The refresh test: due once a full interval has passed, the boundary included. */
  lemma InitDueAtBoundary(t: int)
    ensures InitDue(t, t + IframeRefreshInterval)
    ensures !InitDue(t, t + IframeRefreshInterval - 1)
  {
  }

  /** After setupModule, even with undefined endpoints, init never warns about missing endpoints;
      with undefined endpoints it points the iframe at an undefined URL instead. */
  lemma SetupSilencesEndpointWarning(m: Monitor, e: Option<Endpoints>, now: int)
    requires InitDue(m.lastIFrameRefresh, now)
    ensures var r := InitStep(SetupStep(m, e), now);
            r.log == m.log && |r.navigations| == |m.navigations| + 1
            && (e.None? ==> r.navigations[|m.navigations|].None?)
  {
  }

  // ---------------------------------------------------------------------------------------------
  // messageHandler

  /** The handler run on each message of `msgs` in order. */
  function Receive(m: Monitor, msgs: seq<Message>): (r: Monitor)
    decreases |msgs|
  {
    if msgs == [] then m else Receive(MessageStep(m, msgs[0]), msgs[1..])
  }

  /** Messages that pass the checks for a service that holds the iframe (`held`) and is configured
      with `stsServer`, and carry "changed". */
  function CountChanged(held: bool, stsServer: string, msgs: seq<Message>): (n: nat)
    decreases |msgs|
  {
    if msgs == [] then 0
    else
      (if held && IsPrefix(msgs[0].origin, stsServer) && msgs[0].fromSessionIframe && msgs[0].data == "changed" then 1 else 0)
      + CountChanged(held, stsServer, msgs[1..])
  }

  /** Exactly one change event per accepted "changed" message, none for anything else; any message
      at all, accepted or not, leaves the counter at zero. */
  lemma {:induction false} ChangedEventsCount(m: Monitor, msgs: seq<Message>)
    ensures var r := Receive(m, msgs);
            r.changedEvents == m.changedEvents + CountChanged(m.sessionIframe, m.stsServer, msgs)
            && ChannelUnchanged(m, r) && TimersUnchanged(m, r) && r.outbox == m.outbox
    ensures msgs != [] ==> Receive(m, msgs).outstandingMessages == 0
    decreases |msgs|
  {
    if msgs != [] {
      ChangedEventsCount(MessageStep(m, msgs[0]), msgs[1..]);
      if msgs[1..] == [] {
        assert Receive(m, msgs) == MessageStep(m, msgs[0]);
      }
    }
  }

  // ---------------------------------------------------------------------------------------------
  // A whole scenario

  /** Setup, start, first tick (which loads the iframe), a probe, a spoofed "changed" and a genuine
      one. The spoofed message emits nothing but still resets the counter. */
  lemma Scenario()
    ensures
      var sts := "https://idp.example";
      var t0 := 1700000000000;
      var m0 := SetupStep(Initial(sts, false), Some(Endpoints(Some("https://idp.example/check"))));
      var m1 := StartStep(m0, "client-A");
      var m2 := HeartBeatStep(m1, 1, t0, Some("abc"));
      var m3 := LoadStep(m2, t0 + 20, Some("abc"));
      var m4 := MessageStep(m3, Message("https://evil.example", false, "changed"));
      var m5 := MessageStep(m4, Message(sts, true, "changed"));
      && m1.armed == map[1 := "client-A"]
      && m2.listeners == 1 && m2.outbox == [] && m2.navigations == [Some("https://idp.example/check")]
      && m3.outbox == [Probe("client-A abc", sts)] && m3.outstandingMessages == 1 && m3.armed == map[2 := "client-A"]
      && m3.lastIFrameRefresh == t0 + 20
      && m4.changedEvents == 0 && m4.outstandingMessages == 0
      && m5.changedEvents == 1 && m5.outstandingMessages == 0
  {
    var sts := "https://idp.example";
    var t0 := 1700000000000;
    var m0 := SetupStep(Initial(sts, false), Some(Endpoints(Some("https://idp.example/check"))));
    var m1 := StartStep(m0, "client-A");
    assert m1.armed == map[1 := "client-A"];
    var m2 := HeartBeatStep(m1, 1, t0, Some("abc"));
    assert InitDue(m1.lastIFrameRefresh, t0);
    assert m2.listeners == 1 && m2.outbox == [] && m2.navigations == [Some("https://idp.example/check")];
    var m3 := LoadStep(m2, t0 + 20, Some("abc"));
    assert m2.loadSubscriber == Some("client-A");
    assert Sends(m2.(lastIFrameRefresh := t0 + 20, loadSubscriber := None), "client-A", Some("abc"));
    assert ProbeText("client-A", "abc") == "client-A abc";
    assert m3.outbox == [Probe("client-A abc", sts)] && m3.outstandingMessages == 1 && m3.armed == map[2 := "client-A"];
    var m4 := MessageStep(m3, Message("https://evil.example", false, "changed"));
    assert m4.changedEvents == 0 && m4.outstandingMessages == 0;
    var m5 := MessageStep(m4, Message(sts, true, "changed"));
    assert IsPrefix(sts, sts);
    assert m5.changedEvents == 1 && m5.outstandingMessages == 0;
  }
}
