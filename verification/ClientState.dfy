/**
 The client session: initialisation, waiters, the outbound queue and the replay
 maps (packages/client/src/sockethub-client.ts). Each operation is given as the
 state it leaves; the class that performs it step by step is in module Client.
 */
module ClientState {
  import opened JsString
  import opened Results
  import opened JsMap

  // ---------- messages ----------

  datatype Event = Credentials | Message | Named(name: Str)
  datatype Kind = Join | Leave | ConnectTo | DisconnectFrom | Other

  /** A normalised activity; the key is missing when it names no actor. */
  datatype Activity = Activity(kind: Kind, holdsCredentials: bool, key: Option<Str>, body: int)

  /** Normalising, defaulting and validating content at send time. */
  datatype Prepared = Rejected(message: string) | Accepted(activity: Activity)

  datatype Queued = Queued(event: Event, content: int, enqueuedAt: int, sequence: nat)

  /** What the underlying socket was asked to emit. */
  datatype Wire =
    | SchemasRequest(fingerprint: Option<Str>)
    | Replayed(event: Event, stored: Activity)
    | Forwarded(sequence: nat, event: Event, content: int, activity: Option<Activity>)

  /** An error handed to the emission's callback or to `client_error`. */
  datatype Report = Report(sequence: nat, message: string)

  // ---------- initialisation ----------

  datatype InitState = Idle | Initializing | Ready | InitError
  datatype Reason = InitialConnect | Reconnect | SchemasUpdate
  datatype Cycle = Cycle(token: nat, reason: Reason, replayOnReady: bool)

  datatype Registry = Registry(version: Str, asContext: Str, sockethubContext: Str, platforms: nat,
      fingerprint: Option<Str>)
  datatype ReadyInfo = ReadyInfo(reason: Reason, registry: Registry)

  /**
   A `schemas` payload; `same` is its `unchanged` flag, `registry` is absent
   when its contexts or platforms are malformed.
   */
  datatype Payload = NotAnObject | Payload(same: bool, fingerprint: Option<Str>, registry: Option<Registry>)

  datatype Waiter = Waiter(id: nat, timed: bool)
  datatype Settlement = Resolved(info: ReadyInfo) | Refused | TimedOut
  datatype Settled = Settled(id: nat, how: Settlement)

  // ---------- the client ----------

  type Replays = seq<Entry<Str, Activity>>

  datatype Config = Config(
    maxQueuedOutbound: int,
    maxQueuedAgeMs: int,
    pullsRegistry: bool,
    // normalisation and validation depend on the registries applied so far
    prepare: (nat, Event, int) -> Prepared,
    // the error that the socket throws for an event name it reserves
    refuses: Str -> Option<string>,
    renormalize: Activity -> Activity)

  /** The fields of the client and, from `settled` on, the history of what it did. */
  datatype State = State(
    connected: bool,
    init: InitState,
    cycle: Option<Cycle>,
    tokens: nat,
    initTimer: Option<nat>,
    warningTimer: bool,
    hasReadyOnce: bool,
    readyInfo: Option<ReadyInfo>,
    registry: Option<Registry>,
    applied: nat,
    waiters: seq<Waiter>,
    nextWaiter: nat,
    queue: seq<Queued>,
    sequence: nat,
    credentials: Replays,
    connects: Replays,
    joins: Replays,
    settled: seq<Settled>,
    wire: seq<Wire>,
    reports: seq<Report>,
    log: seq<Activity>)

  const START: State :=
    State(false, Idle, None, 0, None, false, false, None, None, 0, [], 0, [], 0, [], [], [], [], [], [], [])

  function Fingerprint(s: State): Option<Str> {
    if s.registry.Some? then s.registry.value.fingerprint else None
  }

  // ---------- sending ----------

  // The error texts, without the age limit and the message type that the code puts into them.
  const EXPIRED := "SockethubClient queued message expired before initialization"
  const OVERFLOW := "SockethubClient queue overflow before ready"
  const NO_ACTOR := "actor property not present"

  function Reported(s: State, q: Queued, message: string): State {
    s.(reports := s.reports + [Report(q.sequence, message)])
  }

  function Forward(s: State, q: Queued, activity: Option<Activity>): State {
    s.(wire := s.wire + [Forwarded(q.sequence, q.event, q.content, activity)])
  }

  /** A map that one kind of message enters and another leaves. */
  function StoredIn(m: Replays, a: Activity, enter: Kind, exit: Kind): Replays
    requires a.key.Some?
  {
    if a.kind == enter then Set(m, a.key.value, a)
    else if a.kind == exit then Delete(m, a.key.value)
    else m
  }

  /** Whether the replay maps take notice of an activity, which then needs a key. */
  predicate Stores(s: State, event: Event, a: Activity) {
    if event.Credentials? then a.holdsCredentials else s.connected
  }

  /** `eventCredentials` and `eventMessage` */
  function Stored(s: State, event: Event, a: Activity): State
    requires a.key.Some?
  {
    if event.Credentials? then s.(credentials := Set(s.credentials, a.key.value, a))
    else s.(joins := StoredIn(s.joins, a, Join, Leave),
            connects := StoredIn(s.connects, a, ConnectTo, DisconnectFrom),
            log := s.log + [a])
  }

  /** `sendOutbound` */
  function SendOutbound(config: Config, s: State, q: Queued): State {
    if q.event.Named? then
      var refusal := config.refuses(q.event.name);
      if refusal.Some? then Reported(s, q, refusal.value) else Forward(s, q, None)
    else
      match config.prepare(s.applied, q.event, q.content)
      case Rejected(message) => Reported(s, q, message)
      case Accepted(a) =>
        if !Stores(s, q.event, a) then Forward(s, q, Some(a))
        else if a.key.None? then Reported(s, q, NO_ACTOR)
        else Forward(Stored(s, q.event, a), q, Some(a))
  }

  /** `enqueueOutbound` */
  function EnqueueOutbound(config: Config, s: State, q: Queued): State {
    var queue := s.queue + [q];
    if |queue| <= config.maxQueuedOutbound then s.(queue := queue)
    else Reported(s.(queue := queue[1..]), queue[0], OVERFLOW)
  }

  /** `handlePublicEmit` */
  function PublicEmit(config: Config, s: State, event: Event, content: int, now: int): State {
    var q := Queued(event, content, now, s.sequence);
    if s.init.Ready? then SendOutbound(config, Counted(s), q) else EnqueueOutbound(config, Counted(s), q)
  }

  function Counted(s: State): State {
    s.(sequence := s.sequence + 1)
  }

  // ---------- flushing ----------

  function InsertQueued(queue: seq<Queued>, q: Queued): (r: seq<Queued>)
    ensures |r| == |queue| + 1
  {
    if queue == [] || queue[|queue| - 1].sequence <= q.sequence then queue + [q]
    else InsertQueued(queue[..|queue| - 1], q) + [queue[|queue| - 1]]
  }

  /** The stable sort by sequence number. */
  function SortQueued(queue: seq<Queued>): (r: seq<Queued>)
    ensures |r| == |queue|
  {
    if queue == [] then [] else InsertQueued(SortQueued(queue[..|queue| - 1]), queue[|queue| - 1])
  }

  predicate Expired(config: Config, q: Queued, now: int) {
    now - q.enqueuedAt > config.maxQueuedAgeMs
  }

  function FlushOne(config: Config, s: State, q: Queued, now: int): State {
    if Expired(config, q, now) then Reported(s, q, EXPIRED) else SendOutbound(config, s, q)
  }

  function FlushAll(config: Config, s: State, queue: seq<Queued>, now: int): State {
    if queue == [] then s
    else FlushOne(config, FlushAll(config, s, queue[..|queue| - 1], now), queue[|queue| - 1], now)
  }

  /** `flushOutboundQueue` */
  function Flushed(config: Config, s: State, now: int): State {
    if !s.init.Ready? || s.queue == [] then s
    else FlushAll(config, s.(queue := []), SortQueued(s.queue), now)
  }

  // ---------- waiters ----------

  function Settle(waiters: seq<Waiter>, how: Settlement): (r: seq<Settled>)
    ensures |r| == |waiters|
  {
    seq(|waiters|, i requires 0 <= i < |waiters| => Settled(waiters[i].id, how))
  }

  function SettledAll(s: State, how: Settlement): State {
    s.(waiters := [], settled := s.settled + Settle(s.waiters, how))
  }

  function WithoutWaiter(waiters: seq<Waiter>, id: nat): (r: seq<Waiter>)
    ensures |r| <= |waiters|
  {
    if waiters == [] then []
    else (if waiters[0].id == id then [] else [waiters[0]]) + WithoutWaiter(waiters[1..], id)
  }

  /** A waiter's own timer. */
  function WaiterTimeout(s: State, id: nat): State {
    s.(waiters := WithoutWaiter(s.waiters, id), settled := s.settled + [Settled(id, TimedOut)])
  }

  // ---------- initialisation ----------

  function ClearTimers(s: State): State {
    s.(initTimer := None, warningTimer := false)
  }

  /** `startInitialization`; asking the server for its registry may throw. */
  function StartInitialization(config: Config, s: State, reason: Reason, replayOnReady: bool,
      requestFails: bool): State {
    if !s.connected then s
    else if !config.pullsRegistry then Begun(s, reason, replayOnReady)
    else if requestFails then Begun(s, reason, replayOnReady).(init := InitError, warningTimer := true)
    else Begun(s, reason, replayOnReady).(wire := s.wire + [SchemasRequest(Fingerprint(s))])
  }

  /** A new cycle under a new token, its timer armed. */
  function Begun(s: State, reason: Reason, replayOnReady: bool): State {
    s.(tokens := s.tokens + 1,
       cycle := Some(Cycle(s.tokens + 1, reason, replayOnReady)),
       init := Initializing,
       initTimer := Some(s.tokens + 1),
       warningTimer := false)
  }

  function ConnectReason(s: State): Reason {
    if s.hasReadyOnce then Reconnect else InitialConnect
  }

  /** The timer of a cycle fires; an older token changes nothing. */
  function InitTimeout(s: State, token: nat): State {
    if s.cycle.None? || s.cycle.value.token != token then s
    else s.(init := InitError, warningTimer := true, initTimer := None)
  }

  function WarningTick(s: State): State {
    if s.init.Ready? then ClearTimers(s) else s
  }

  /** `buildReadyInfo` */
  function ReadyInfoFor(s: State, reason: Reason): Option<ReadyInfo> {
    if s.registry.None? || s.registry.value.version == [] || s.registry.value.asContext == []
      || s.registry.value.sockethubContext == []
    then None
    else Some(ReadyInfo(reason, s.registry.value))
  }

  function ReplayAll(config: Config, event: Event, m: Replays): (r: seq<Wire>)
    ensures |r| == |m|
  {
    seq(|m|, i requires 0 <= i < |m| => Replayed(event, config.renormalize(m[i].value)))
  }

  function ReplayedState(config: Config, s: State): State {
    s.(wire := s.wire + ReplayAll(config, Credentials, s.credentials)
                      + ReplayAll(config, Message, s.connects)
                      + ReplayAll(config, Message, s.joins))
  }

  /** `markReady` */
  function MarkReady(config: Config, s: State, reason: Reason, now: int): State {
    var replay := s.cycle.Some? && s.cycle.value.replayOnReady;
    var info := ReadyInfoFor(s, reason);
    if info.None? then SettledAll(Marked(s).(init := InitError), Refused)
    else
      var announced := Announced(s, info.value);
      Flushed(config, if replay then ReplayedState(config, announced) else announced, now)
  }

  function Marked(s: State): State {
    s.(cycle := None, initTimer := None, warningTimer := false, init := Ready, hasReadyOnce := true)
  }

  /** Ready, and everybody who waited has been told. */
  function Announced(s: State, info: ReadyInfo): State {
    SettledAll(Marked(s).(readyInfo := Some(info)), Resolved(info))
  }

  /** Already running on exactly this registry. */
  predicate SameRegistry(s: State, payload: Payload) {
    && payload.Payload? && s.init.Ready? && s.cycle.None?
    && payload.fingerprint.Some? && payload.fingerprint.value != [] && payload.fingerprint == Fingerprint(s)
  }

  /** `handleSchemasPayload` */
  function SchemasPayload(config: Config, s: State, payload: Payload, now: int): State {
    if payload.NotAnObject? then s
    else if payload.same && Fingerprint(s).Some? && s.registry.value.platforms > 0 then
      if s.cycle.Some? then MarkReady(config, s, s.cycle.value.reason, now)
      else if !s.init.Ready? then MarkReady(config, s, SchemasUpdate, now)
      else s
    else if SameRegistry(s, payload) then s
    else if payload.registry.None? then s.(init := InitError, warningTimer := true)
    else MarkReady(config, Applied(s, payload), if s.cycle.Some? then s.cycle.value.reason else SchemasUpdate, now)
  }

  /** `applyPlatformRegistry` */
  function Applied(s: State, payload: Payload): State
    requires payload.Payload? && payload.registry.Some?
  {
    s.(registry := Some(payload.registry.value.(fingerprint := payload.fingerprint)),
       applied := s.applied + 1,
       init := if s.init.Ready? && s.cycle.None? then Initializing else s.init)
  }

  // ---------- the events ----------

  datatype Step =
    | Connect(requestFails: bool)
    | Disconnect
    | Emit(event: Event, content: int, now: int)
    | Schemas(payload: Payload, now: int)
    | InitTimerFires(token: nat)
    | WarningTimerFires
    | AwaitReady(timed: bool, requestFails: bool)
    | WaiterTimerFires(id: nat)
    | ClearCredentials

  /** Schemas arrive while connected; a timer fires only while armed, an init timer possibly late. */
  predicate Enabled(s: State, step: Step) {
    match step
    case Schemas(_, _) => s.connected
    case InitTimerFires(token) => s.initTimer == Some(token) || s.cycle.None? || s.cycle.value.token != token
    case WarningTimerFires => s.warningTimer
    case WaiterTimerFires(id) => Waiter(id, true) in s.waiters
    case _ => true
  }

  /** `ready` */
  function AwaitingReady(config: Config, s: State, timed: bool, requestFails: bool): State {
    if s.init.Ready? && s.readyInfo.Some? then
      s.(nextWaiter := s.nextWaiter + 1, settled := s.settled + [Settled(s.nextWaiter, Resolved(s.readyInfo.value))])
    else if s.connected && s.init.Idle? then
      StartInitialization(config, Waiting(s, timed), ConnectReason(s), true, requestFails)
    else Waiting(s, timed)
  }

  function Waiting(s: State, timed: bool): State {
    s.(nextWaiter := s.nextWaiter + 1, waiters := s.waiters + [Waiter(s.nextWaiter, timed)])
  }

  function Next(config: Config, s: State, step: Step): State {
    match step
    case Connect(requestFails) => StartInitialization(config, s.(connected := true), ConnectReason(s), true,
      requestFails)
    case Disconnect => ClearTimers(s.(connected := false, init := Idle))
    case Emit(event, content, now) => PublicEmit(config, s, event, content, now)
    case Schemas(payload, now) => SchemasPayload(config, s, payload, now)
    case InitTimerFires(token) => InitTimeout(s, token)
    case WarningTimerFires => WarningTick(s)
    case AwaitReady(timed, requestFails) => AwaitingReady(config, s, timed, requestFails)
    case WaiterTimerFires(id) => WaiterTimeout(s, id)
    case ClearCredentials => s.(credentials := [])
  }

  predicate Allowed(config: Config, s: State, steps: seq<Step>)
    decreases |steps|
  {
    steps == [] || (Enabled(s, steps[0]) && Allowed(config, Next(config, s, steps[0]), steps[1..]))
  }

  function After(config: Config, s: State, steps: seq<Step>): State
    decreases |steps|
  {
    if steps == [] then s else After(config, Next(config, s, steps[0]), steps[1..])
  }
}
