/**
 The client itself: one method for every event, working on its fields as the
 source does. Each method leaves the state that module ClientState describes;
 callbacks and event handlers are assumed neither to throw nor to call back in.
 */
module Client {
  import opened JsString
  import opened Results
  import opened JsMap
  import opened ClientState

  class SockethubClient {
    const config: Config
    var connected: bool
    var initState: InitState
    var initCycle: Option<Cycle>
    var initTokenCounter: nat
    var initTimeoutTimer: Option<nat>
    var waitingWarningTimer: bool
    var hasReadyOnce: bool
    var latestReadyInfo: Option<ReadyInfo>
    var registry: Option<Registry>
    var registriesApplied: nat
    var readyWaiters: seq<Waiter>
    var waiterCounter: nat
    var outboundQueue: seq<Queued>
    var outboundSequence: nat
    var credentials: Replays
    var connects: Replays
    var joins: Replays
    ghost var settled: seq<Settled>
    ghost var wire: seq<Wire>
    ghost var reports: seq<Report>
    ghost var log: seq<Activity>

    ghost function State(): State
      reads this
    {
      ClientState.State(connected, initState, initCycle, initTokenCounter, initTimeoutTimer, waitingWarningTimer,
        hasReadyOnce, latestReadyInfo, registry, registriesApplied, readyWaiters, waiterCounter,
        outboundQueue, outboundSequence, credentials, connects, joins, settled, wire, reports, log)
    }

    constructor (config: Config)
      ensures State() == START && this.config == config
    {
      this.config := config;
      connected, initState, initCycle, initTokenCounter := false, Idle, None, 0;
      initTimeoutTimer, waitingWarningTimer, hasReadyOnce := None, false, false;
      latestReadyInfo, registry, registriesApplied := None, None, 0;
      readyWaiters, waiterCounter, outboundQueue, outboundSequence := [], 0, [], 0;
      credentials, connects, joins := [], [], [];
      settled, wire, reports, log := [], [], [], [];
    }

    // ---------- sending ----------

    method EmitClientError(q: Queued, message: string)
      modifies this
      ensures State() == Reported(old(State()), q, message)
    {
      reports := reports + [Report(q.sequence, message)];
    }

    /** `eventCredentials`; false when the message names no actor. */
    method EventCredentials(a: Activity) returns (ok: bool)
      modifies this
      ensures ok <==> a.holdsCredentials ==> a.key.Some?
      ensures State() ==
        if a.holdsCredentials && a.key.Some? then Stored(old(State()), Credentials, a) else old(State())
    {
      ok := true;
      if a.holdsCredentials {
        if a.key.None? {
          return false;
        }
        credentials := Set(credentials, a.key.value, a);
      }
    }

    /** `eventMessage` */
    method EventMessage(a: Activity) returns (ok: bool)
      modifies this
      ensures ok <==> connected ==> a.key.Some?
      ensures State() == if old(connected) && a.key.Some? then Stored(old(State()), Message, a) else old(State())
    {
      if !connected {
        return true;
      }
      if a.key.None? {
        return false;
      }
      var key := a.key.value;
      match a.kind {
        case Join => joins := Set(joins, key, a);
        case ConnectTo => connects := Set(connects, key, a);
        case Leave => joins := Delete(joins, key);
        case DisconnectFrom => connects := Delete(connects, key);
        case Other =>
      }
      log := log + [a];
      return true;
    }

    method SendOutbound(q: Queued)
      modifies this
      ensures State() == ClientState.SendOutbound(config, old(State()), q)
    {
      var activity: Option<Activity> := None;
      if q.event.Named? {
        var refusal := config.refuses(q.event.name);
        if refusal.Some? {
          EmitClientError(q, refusal.value);
          return;
        }
      } else {
        var prepared := config.prepare(registriesApplied, q.event, q.content);
        if prepared.Rejected? {
          EmitClientError(q, prepared.message);
          return;
        }
        activity := Some(prepared.activity);
        var ok;
        if q.event.Credentials? {
          ok := EventCredentials(prepared.activity);
        } else {
          ok := EventMessage(prepared.activity);
        }
        if !ok {
          EmitClientError(q, NO_ACTOR);
          return;
        }
      }
      wire := wire + [Forwarded(q.sequence, q.event, q.content, activity)];
    }

    method EnqueueOutbound(q: Queued)
      modifies this
      ensures State() == ClientState.EnqueueOutbound(config, old(State()), q)
    {
      outboundQueue := outboundQueue + [q];
      if |outboundQueue| <= config.maxQueuedOutbound {
        return;
      }
      var dropped := outboundQueue[0];
      outboundQueue := outboundQueue[1..];
      EmitClientError(dropped, OVERFLOW);
    }

    method HandlePublicEmit(event: Event, content: int, now: int)
      modifies this
      ensures State() == PublicEmit(config, old(State()), event, content, now)
    {
      var q := Queued(event, content, now, outboundSequence);
      outboundSequence := outboundSequence + 1;
      assert State() == Counted(old(State()));
      if !initState.Ready? {
        EnqueueOutbound(q);
        return;
      }
      SendOutbound(q);
    }

    method FlushOutboundQueue(now: int)
      modifies this
      ensures State() == Flushed(config, old(State()), now)
    {
      if !initState.Ready? || |outboundQueue| == 0 {
        return;
      }
      var queued := SortQueued(outboundQueue);
      outboundQueue := [];
      ghost var from := State();
      for i := 0 to |queued|
        invariant State() == FlushAll(config, from, queued[..i], now)
      {
        assert queued[..i + 1][..i] == queued[..i];
        var entry := queued[i];
        if now - entry.enqueuedAt > config.maxQueuedAgeMs {
          EmitClientError(entry, EXPIRED);
          continue;
        }
        SendOutbound(entry);
      }
      assert queued[..|queued|] == queued;
    }

    // ---------- ready ----------

    method SettleReadyWaiters(how: Settlement)
      modifies this
      ensures State() == SettledAll(old(State()), how)
    {
      var waiters := readyWaiters;
      ghost var before := settled;
      readyWaiters := [];
      for i := 0 to |waiters|
        invariant State() == old(State()).(waiters := [], settled := before + Settle(waiters[..i], how))
      {
        assert Settle(waiters[..i + 1], how) == Settle(waiters[..i], how) + [Settled(waiters[i].id, how)];
        settled := settled + [Settled(waiters[i].id, how)];
      }
      assert waiters[..|waiters|] == waiters;
    }

    method Replay(event: Event, m: Replays)
      modifies this
      ensures State() == old(State()).(wire := old(wire) + ReplayAll(config, event, m))
    {
      for i := 0 to |m|
        invariant State() == old(State()).(wire := old(wire) + ReplayAll(config, event, m[..i]))
      {
        assert ReplayAll(config, event, m[..i + 1])
          == ReplayAll(config, event, m[..i]) + [Replayed(event, config.renormalize(m[i].value))];
        wire := wire + [Replayed(event, config.renormalize(m[i].value))];
      }
      assert m[..|m|] == m;
    }

    method ClearInitTimers()
      modifies this
      ensures State() == ClearTimers(old(State()))
    {
      initTimeoutTimer := None;
      waitingWarningTimer := false;
    }

    method BuildReadyInfo(reason: Reason) returns (info: Option<ReadyInfo>)
      ensures info == ReadyInfoFor(State(), reason)
    {
      if registry.None? {
        return None;
      }
      var known := registry.value;
      if known.version == [] || known.asContext == [] || known.sockethubContext == [] {
        return None;
      }
      return Some(ReadyInfo(reason, known));
    }

    /** `replay` of the three maps: credentials, connects, joins. */
    method ReplayMaps()
      modifies this
      ensures State() == ReplayedState(config, old(State()))
    {
      Replay(Credentials, credentials);
      Replay(Message, connects);
      Replay(Message, joins);
    }

    method Announce(info: ReadyInfo)
      modifies this
      ensures State() == SettledAll(old(State()).(readyInfo := Some(info)), Resolved(info))
    {
      latestReadyInfo := Some(info);
      SettleReadyWaiters(Resolved(info));
    }

    method MarkReady(reason: Reason, now: int)
      modifies this
      ensures State() == ClientState.MarkReady(config, old(State()), reason, now)
    {
      var replayOnReady := initCycle.Some? && initCycle.value.replayOnReady;
      initCycle := None;
      ClearInitTimers();
      initState := Ready;
      hasReadyOnce := true;
      assert State() == Marked(old(State()));
      var info := BuildReadyInfo(reason);
      if info.None? {
        initState := InitError;
        SettleReadyWaiters(Refused);
        return;
      }
      Announce(info.value);
      if replayOnReady {
        ReplayMaps();
      }
      FlushOutboundQueue(now);
    }

    // ---------- initialisation ----------

    /** Does nothing on a socket without a manager; false when the emit throws. */
    method RequestSchemaRegistry(fails: bool) returns (ok: bool)
      modifies this
      ensures ok <==> !(config.pullsRegistry && fails)
      ensures State() == if config.pullsRegistry && !fails
                         then old(State()).(wire := old(wire) + [SchemasRequest(Fingerprint(old(State())))])
                           else old(State())
    {
      ok := true;
      if config.pullsRegistry {
        if fails {
          return false;
        }
        wire := wire + [SchemasRequest(if registry.Some? then registry.value.fingerprint else None)];
      }
    }

    /** An init error, with warnings until schemas arrive after all. */
    method FailInit()
      modifies this
      ensures State() == old(State()).(init := InitError, warningTimer := true)
    {
      initState := InitError;
      waitingWarningTimer := true;
    }

    method BeginCycle(reason: Reason, replayOnReady: bool)
      modifies this
      ensures State() == Begun(old(State()), reason, replayOnReady)
    {
      ClearInitTimers();
      initTokenCounter := initTokenCounter + 1;
      initCycle := Some(Cycle(initTokenCounter, reason, replayOnReady));
      initState := Initializing;
      initTimeoutTimer := Some(initTokenCounter);
    }

    method StartInitialization(reason: Reason, replayOnReady: bool, requestFails: bool)
      modifies this
      ensures State() == ClientState.StartInitialization(config, old(State()), reason, replayOnReady, requestFails)
    {
      if !connected {
        return;
      }
      BeginCycle(reason, replayOnReady);
      var ok := RequestSchemaRegistry(requestFails);
      if !ok {
        FailInit();
      }
    }

    method OnInitTimer(token: nat)
      modifies this
      ensures State() == InitTimeout(old(State()), token)
    {
      if initCycle.None? || initCycle.value.token != token {
        return;
      }
      initTimeoutTimer := None;
      FailInit();
    }

    method OnWarningTimer()
      modifies this
      ensures State() == WarningTick(old(State()))
    {
      if initState.Ready? {
        ClearInitTimers();
      }
    }

    /** A client that was running initialises again while it applies an update. */
    method ApplyPlatformRegistry(payload: Payload) returns (ok: bool)
      requires payload.Payload?
      modifies this
      ensures ok <==> payload.registry.Some?
      ensures ok ==> State() == Applied(old(State()), payload)
      ensures !ok ==>
        State() == old(State()).(
          init := if old(initState).Ready? && initCycle.None? then Initializing else old(initState))
    {
      if initState.Ready? && initCycle.None? {
        initState := Initializing;
      }
      if payload.registry.None? {
        return false;
      }
      registry := Some(payload.registry.value.(fingerprint := payload.fingerprint));
      registriesApplied := registriesApplied + 1;
      return true;
    }

    method HandleSchemasPayload(payload: Payload, now: int)
      modifies this
      ensures State() == SchemasPayload(config, old(State()), payload, now)
    {
      if payload.NotAnObject? {
        return;
      }
      var held := if registry.Some? then registry.value.fingerprint else None;
      if payload.same {
        var haveCachedRegistry := held.Some? && registry.value.platforms > 0;
        if haveCachedRegistry {
          if initCycle.Some? {
            MarkReady(initCycle.value.reason, now);
          } else if !initState.Ready? {
            MarkReady(SchemasUpdate, now);
          }
          return;
        }
      }
      if initState.Ready? && initCycle.None? && payload.fingerprint.Some? && payload.fingerprint.value != []
        && payload.fingerprint == held {
        return;
      }
      var ok := ApplyPlatformRegistry(payload);
      if !ok {
        FailInit();
        return;
      }
      MarkReady(if initCycle.Some? then initCycle.value.reason else SchemasUpdate, now);
    }

    // ---------- waiting ----------

    method PushWaiter(timed: bool)
      modifies this
      ensures State() == Waiting(old(State()), timed)
    {
      readyWaiters := readyWaiters + [Waiter(waiterCounter, timed)];
      waiterCounter := waiterCounter + 1;
    }

    method AwaitReady(timed: bool, requestFails: bool)
      modifies this
      ensures State() == AwaitingReady(config, old(State()), timed, requestFails)
    {
      if initState.Ready? && latestReadyInfo.Some? {
        settled := settled + [Settled(waiterCounter, Resolved(latestReadyInfo.value))];
        waiterCounter := waiterCounter + 1;
        return;
      }
      PushWaiter(timed);
      if connected && initState.Idle? {
        StartInitialization(if hasReadyOnce then Reconnect else InitialConnect, true, requestFails);
      }
    }

    method OnWaiterTimer(id: nat)
      modifies this
      ensures State() == WaiterTimeout(old(State()), id)
    {
      readyWaiters := WithoutWaiter(readyWaiters, id);
      settled := settled + [Settled(id, TimedOut)];
    }

    // ---------- the socket ----------

    method OnConnect(requestFails: bool)
      modifies this
      ensures State() == Next(config, old(State()), Connect(requestFails))
    {
      connected := true;
      StartInitialization(if hasReadyOnce then Reconnect else InitialConnect, true, requestFails);
    }

    method OnDisconnect()
      modifies this
      ensures State() == Next(config, old(State()), Disconnect)
    {
      connected := false;
      initState := Idle;
      ClearInitTimers();
    }

    method ClearCredentials()
      modifies this
      ensures State() == Next(config, old(State()), Step.ClearCredentials)
    {
      credentials := [];
    }
  }
}
