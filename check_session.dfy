/** The check-session service as an object whose callbacks update its fields in place. Each
    method is proved to take the state (`State()`) exactly as the matching step function of
    CheckSessionModel does; the properties of those steps are in CheckSessionProperties. */
module CheckSession {
  import opened CheckSessionModel

  class OidcSecurityCheckSession {
    const stsServer: string
    var iframeInDocument: bool
    var sessionIframe: bool
    var listeners: nat
    var wellKnown: Option<Endpoints>
    var navigations: seq<Option<string>>
    var loadHandlerSet: bool
    var loadSubscriber: Option<string>
    var lastIFrameRefresh: int
    var scheduledHeartBeat: Option<nat>
    var armed: map<nat, string>
    var nextHandle: nat
    var outstandingMessages: nat
    var outbox: seq<Probe>
    var changedEvents: nat
    var log: seq<LogEntry>

    /** The fields, as one value. */
    function State(): (m: Monitor)
      reads this
    {
      Monitor(stsServer, iframeInDocument, sessionIframe, listeners, wellKnown, navigations,
              loadHandlerSet, loadSubscriber, lastIFrameRefresh, scheduledHeartBeat, armed,
              nextHandle, outstandingMessages, outbox, changedEvents, log)
    }

    constructor (stsServer: string, iframeInDocument: bool)
      ensures State() == Initial(stsServer, iframeInDocument)
    {
      this.stsServer := stsServer;
      this.iframeInDocument := iframeInDocument;
      sessionIframe, listeners, wellKnown, navigations := false, 0, None, [];
      loadHandlerSet, loadSubscriber, lastIFrameRefresh := false, None, 0;
      scheduledHeartBeat, armed, nextHandle := None, map[], 1;
      outstandingMessages, outbox, changedEvents, log := 0, [], 0, [];
    }

    method SetupModule(endpoints: Option<Endpoints>)
      modifies this
      ensures State() == SetupStep(old(State()), endpoints)
    {
      wellKnown := Some(CopyEndpoints(endpoints));
    }

    /** Look the named iframe up in the document and hold it when it is there. */
    method DoesSessionExist() returns (found: bool)
      modifies this
      ensures found == iframeInDocument
      ensures State() == if found then old(State()).(sessionIframe := true) else old(State())
    {
      found := iframeInDocument;
      if found {
        sessionIframe := true;
      }
    }

    /** `init`: `ready` is true when it emits at once (no refresh due); otherwise the iframe is
        (re)pointed and its `onload` handler installed. */
    method Init(now: int) returns (ready: bool)
      modifies this
      ensures ready == !InitDue(old(lastIFrameRefresh), now)
      ensures State() == InitStep(old(State()), now)
    {
      if !InitDue(lastIFrameRefresh, now) {
        return true;
      }
      AttachIframe();
      PointIframe();
      loadHandlerSet := true;
      ready := false;
    }

    /** Hold the document's iframe, or create it and register the message listener. */
    method AttachIframe()
      modifies this
      ensures State() == AttachStep(old(State()))
    {
      var found := DoesSessionExist();
      if !found {
        iframeInDocument, sessionIframe := true, true;
        listeners := listeners + 1;
      }
    }

    method PointIframe()
      modifies this
      ensures State() == PointStep(old(State()))
    {
      match wellKnown {
        case Some(e) =>
          navigations := navigations + [e.checkSessionIframe];
        case None =>
          log := log + [Warning(EndpointsUndefined)];
      }
    }

    method Start(clientId: string)
      modifies this
      ensures State() == StartStep(old(State()), clientId)
    {
      if scheduledHeartBeat.Some? {
        return;
      }
      PollServerSession(clientId);
    }

    method Stop()
      modifies this
      ensures State() == StopStep(old(State()))
    {
      if scheduledHeartBeat.None? {
        return;
      }
      ClearScheduledHeartBeat();
    }

    /** Reset the counter and arm the first timer, whose callback captures `clientId`. */
    method PollServerSession(clientId: string)
      modifies this
      ensures State() == PollStep(old(State()), clientId)
    {
      outstandingMessages := 0;
      ScheduleHeartBeat(clientId);
    }

    /** Arm a timer running the tick of the closure that captured `clientId`. */
    method ScheduleHeartBeat(clientId: string)
      modifies this
      ensures State() == Schedule(old(State()), clientId)
    {
      scheduledHeartBeat := Some(nextHandle);
      armed := armed[nextHandle := clientId];
      nextHandle := nextHandle + 1;
    }

    method ClearScheduledHeartBeat()
      modifies this
      ensures State() == ClearStep(old(State()))
    {
      if scheduledHeartBeat.Some? {
        armed := armed - {scheduledHeartBeat.value};
      }
      scheduledHeartBeat := None;
    }

    /** The tick body of the closure that captured `clientId`: probe the provider and re-arm the
        timer, or log why not. */
    method Tick(clientId: string, sessionState: Option<string>)
      modifies this
      ensures State() == TickStep(old(State()), clientId, sessionState)
    {
      if sessionIframe && clientId != "" {
        log := log + [Debug(IframeHandle)];
        if SessionStatePresent(sessionState) {
          outstandingMessages := outstandingMessages + 1;
          outbox := outbox + [Probe(ProbeText(clientId, sessionState.value), stsServer)];
          if outstandingMessages > MaxOutstanding {
            log := log + [Error(NoResponses(outstandingMessages))];
          }
          ScheduleHeartBeat(clientId);
        } else {
          log := log + [Debug(SessionStateBlank)];
        }
      } else {
        log := log + [Warning(IframeMissing), Debug(ClientIdValue(clientId)), Debug(IframeHandle)];
      }
    }

    /** Armed timer `h` fires and runs `_pollServerSessionRecur` of the closure that armed it; its
        tick runs at once or subscribes to the iframe's load. */
    method OnHeartBeat(h: nat, now: int, sessionState: Option<string>)
      requires h in armed
      modifies this
      ensures State() == HeartBeatStep(old(State()), h, now, sessionState)
    {
      var clientId := armed[h];
      armed := armed - {h};
      var ready := Init(now);
      if ready {
        Tick(clientId, sessionState);
      } else {
        loadSubscriber := Some(clientId);
      }
    }

    /** The iframe's `load` event. */
    method OnLoad(now: int, sessionState: Option<string>)
      modifies this
      ensures State() == LoadStep(old(State()), now, sessionState)
    {
      if !loadHandlerSet {
        return;
      }
      lastIFrameRefresh := now;
      match loadSubscriber {
        case Some(clientId) =>
          loadSubscriber := None;
          Tick(clientId, sessionState);
        case None =>
      }
    }

    /** `messageHandler`: reset the counter, then check the message and act on its payload. */
    method OnMessage(msg: Message)
      modifies this
      ensures State() == MessageStep(old(State()), msg)
    {
      outstandingMessages := 0;
      if sessionIframe && IsPrefix(msg.origin, stsServer) && msg.fromSessionIframe {
        if msg.data == "error" {
          log := log + [Warning(ErrorFromProvider)];
        } else if msg.data == "changed" {
          changedEvents := changedEvents + 1;
        } else {
          log := log + [Debug(Payload(msg.data))];
        }
      }
    }
  }
}
