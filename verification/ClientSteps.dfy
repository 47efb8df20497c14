/**
 What single events do to a client in a reachable state: which payload makes it
 ready and why, how waiters are settled, where an emission goes.
 */
module ClientSteps {
  import opened JsString
  import opened Results
  import opened JsMap
  import opened ClientState
  import opened ClientRuns
  import opened ClientReplays

  // ---------- payloads ----------

  /** The answer "unchanged" while a registry with a fingerprint and platforms is held. */
  predicate Unchanged(s: State, payload: Payload) {
    && payload.Payload? && payload.same
    && s.registry.Some? && s.registry.value.fingerprint.Some? && s.registry.value.platforms > 0
  }

  /** A registry sent again although the client is ready with it. */
  predicate Repeated(s: State, payload: Payload) {
    && payload.Payload? && !Unchanged(s, payload)
    && s.init.Ready? && s.cycle.None? && payload.fingerprint.Some? && payload.fingerprint.value != []
    && s.registry.Some? && s.registry.value.fingerprint == payload.fingerprint
  }

  predicate Malformed(s: State, payload: Payload) {
    payload.Payload? && !Unchanged(s, payload) && !Repeated(s, payload) && payload.registry.None?
  }

  /** The payload decides whether the client is ready. */
  predicate Taken(s: State, payload: Payload) {
    && payload.Payload?
    && if Unchanged(s, payload) then s.cycle.Some? || !s.init.Ready?
       else !Repeated(s, payload) && payload.registry.Some?
  }

  /** The registry then in force. */
  function InForce(s: State, payload: Payload): Registry
    requires Taken(s, payload)
  {
    if Unchanged(s, payload) then s.registry.value else payload.registry.value.(fingerprint := payload.fingerprint)
  }

  /** Every waiter is settled in the same way, in order. */
  predicate SettledAlike(waiters: seq<Waiter>, more: seq<Settled>, how: Settlement) {
    |more| == |waiters| && forall i | 0 <= i < |more| :: more[i] == Settled(waiters[i].id, how)
  }

  /** Nothing but what is named here differs: the fields of initialisation. */
  predicate SameFields(s: State, next: State) {
    && next.connected == s.connected && next.tokens == s.tokens && next.nextWaiter == s.nextWaiter
    && next.sequence == s.sequence
  }

  lemma TakenIsSource(s: State, payload: Payload)
    ensures Taken(s, payload) <==> Source(s, payload).Some?
    ensures Taken(s, payload) ==>
      && Source(s, payload).value.registry == Some(InForce(s, payload))
      && Source(s, payload).value.applied == s.applied + (if Unchanged(s, payload) then 0 else 1)
      && (Complete(InForce(s, payload)) <==> ReadyInfoFor(Source(s, payload).value, ReasonNow(s)).Some?)
  {
  }

  predicate Told(s: State, next: State, how: Settlement) {
    && next.waiters == [] && |s.settled| <= |next.settled| && next.settled[..|s.settled|] == s.settled
    && SettledAlike(s.waiters, next.settled[|s.settled|..], how)
  }

  lemma SettledAllTells(s: State, how: Settlement)
    ensures Told(s, SettledAll(s, how), how)
  {
  }

  /** A registry that is complete makes the client ready and resolves every waiter with it. */
  lemma CompleteReady(config: Config, s: State, payload: Payload, now: int)
    requires Good(config, s) && s.connected && Taken(s, payload) && Complete(InForce(s, payload))
    ensures var next := SchemasPayload(config, s, payload, now);
      var info := ReadyInfo(if s.cycle.Some? then s.cycle.value.reason else SchemasUpdate, InForce(s, payload));
      && next.init.Ready? && next.cycle.None? && next.initTimer.None? && !next.warningTimer && next.hasReadyOnce
      && next.registry == Some(InForce(s, payload)) && next.readyInfo == Some(info) && next.queue == []
      && next.applied == s.applied + (if Unchanged(s, payload) then 0 else 1)
      && Told(s, next, Resolved(info)) && SameFields(s, next)
  {
    TakenIsSource(s, payload);
    SchemasIsMarkReady(config, s, payload, now);
    SourceShape(s, payload);
    ReadyReplays(config, s, payload, now);
    ReadyFields(config, s, Source(s, payload).value, ReasonNow(s), now);
  }

  lemma ReadyFields(config: Config, s: State, from: State, reason: Reason, now: int)
    requires from == s.(registry := from.registry, applied := from.applied, init := from.init)
    requires ReadyInfoFor(from, reason).Some?
    ensures var next := MarkReady(config, from, reason, now);
      var info := ReadyInfoFor(from, reason).value;
      && next.init.Ready? && next.cycle.None? && next.initTimer.None? && !next.warningTimer && next.hasReadyOnce
      && next.registry == from.registry && next.readyInfo == Some(info) && next.applied == from.applied
      && Told(s, next, Resolved(info)) && SameFields(s, next)
  {
    var info := ReadyInfoFor(from, reason).value;
    var announced := Announced(from, info);
    var replay := from.cycle.Some? && from.cycle.value.replayOnReady;
    var replayed := if replay then ReplayedState(config, announced) else announced;
    SettledAllTells(Marked(from).(readyInfo := Some(info)), Resolved(info));
    FlushAllSession(config, replayed.(queue := []), SortQueued(replayed.queue), now);
  }

  /** One that is not refuses every waiter and leaves the queue, the wire and the last ready info alone. */
  lemma IncompleteRefuses(config: Config, s: State, payload: Payload, now: int)
    requires Taken(s, payload) && !Complete(InForce(s, payload))
    ensures var next := SchemasPayload(config, s, payload, now);
      && next == s.(init := InitError, cycle := None, initTimer := None, warningTimer := false, hasReadyOnce := true,
                    registry := Some(InForce(s, payload)), waiters := [], settled := next.settled,
                    applied := s.applied + if Unchanged(s, payload) then 0 else 1)
      && Told(s, next, Refused)
  {
    TakenIsSource(s, payload);
    SchemasIsMarkReady(config, s, payload, now);
    SourceShape(s, payload);
    SettledAllTells(Marked(Source(s, payload).value).(init := InitError), Refused);
  }

  /** Any other payload changes nothing, unless it is malformed. */
  lemma NotTaken(config: Config, s: State, payload: Payload, now: int)
    requires !Taken(s, payload)
    ensures SchemasPayload(config, s, payload, now) ==
      if Malformed(s, payload) then s.(init := InitError, warningTimer := true) else s
  {
  }

  // ---------- waiters ----------

  /** The settlements a step adds. */
  predicate Adds(s: State, next: State, more: seq<Settled>) {
    next.settled == s.settled + more
  }

  /**
   How a call of ready() is settled: by its own timer with a timeout; by a
   payload with what the client is ready with, or with a refusal when the
   registry lacks the version or a context; at once when the client is ready; and
   by nothing else.
   */
  lemma SettledExactly(config: Config, s: State, step: Step)
    requires Good(config, s) && Enabled(s, step)
    ensures var next := Next(config, s, step);
      match step
      case WaiterTimerFires(id) => Adds(s, next, [Settled(id, TimedOut)])
      case AwaitReady(_, _) =>
        Adds(s, next, if s.init.Ready? then [Settled(s.nextWaiter, Resolved(s.readyInfo.value))] else [])
      case Schemas(payload, _) =>
        if !Taken(s, payload) then Adds(s, next, [])
        else if Complete(InForce(s, payload)) then next.readyInfo.Some? && Told(s, next, Resolved(next.readyInfo.value))
        else Told(s, next, Refused)
      case _ => Adds(s, next, [])
  {
    match step
    case Emit(event, content, now) =>
      if s.init.Ready? {
        SendDisposes(config, Counted(s), Queued(event, content, now, s.sequence));
      }
    case Schemas(payload, now) =>
      if !Taken(s, payload) {
        NotTaken(config, s, payload, now);
      } else if Complete(InForce(s, payload)) {
        CompleteReady(config, s, payload, now);
      } else {
        IncompleteRefuses(config, s, payload, now);
      }
    case AwaitReady(timed, requestFails) => AwaitSettles(config, s, timed, requestFails);
    case _ =>
  }

  lemma AwaitSettles(config: Config, s: State, timed: bool, requestFails: bool)
    requires Session(s)
    ensures var next := AwaitingReady(config, s, timed, requestFails);
      if s.init.Ready? then next == s.(nextWaiter := s.nextWaiter + 1, settled := next.settled)
        && Adds(s, next, [Settled(s.nextWaiter, Resolved(s.readyInfo.value))])
      else next == s.(nextWaiter := s.nextWaiter + 1, waiters := s.waiters + [Waiter(s.nextWaiter, timed)])
  {
  }

  // ---------- initialisation over runs ----------

  /** What a run did last about initialisation: a connection, or a payload that was taken. */
  datatype Mark = NoMark | Connected | Ended

  function LastMark(config: Config, steps: seq<Step>): Mark {
    if steps == [] then NoMark
    else
      var front, step := steps[..|steps| - 1], steps[|steps| - 1];
      if step.Connect? then Connected
      else if step.Schemas? && Taken(After(config, START, front), step.payload) then Ended
      else LastMark(config, front)
  }

  /** Some payload was taken in the run. */
  predicate EverTaken(config: Config, steps: seq<Step>) {
    steps != [] &&
    var front, step := steps[..|steps| - 1], steps[|steps| - 1];
    (step.Schemas? && Taken(After(config, START, front), step.payload)) || EverTaken(config, front)
  }

  predicate Marks(config: Config, steps: seq<Step>, s: State) {
    && (s.cycle.Some? <==> LastMark(config, steps).Connected?)
    && (s.hasReadyOnce <==> EverTaken(config, steps))
    && (s.cycle.Some? ==> s.cycle.value.reason == if s.hasReadyOnce then Reconnect else InitialConnect)
    && (s.init.Ready? ==> s.readyInfo.Some? && s.registry == Some(s.readyInfo.value.registry))
  }

  lemma StepMarks(config: Config, front: seq<Step>, s: State, step: Step)
    requires Good(config, s) && Enabled(s, step) && s == After(config, START, front) && Marks(config, front, s)
    ensures Marks(config, front + [step], Next(config, s, step))
  {
    assert (front + [step])[..|front|] == front;
    match step
    case Emit(event, content, now) => EmitKeepsMarks(config, s, event, content, now);
    case Schemas(payload, now) =>
      if !Taken(s, payload) {
        NotTaken(config, s, payload, now);
      } else if Complete(InForce(s, payload)) {
        CompleteReady(config, s, payload, now);
      } else {
        IncompleteRefuses(config, s, payload, now);
      }
    case AwaitReady(timed, requestFails) => AwaitSettles(config, s, timed, requestFails);
    case _ =>
  }

  lemma EmitKeepsMarks(config: Config, s: State, event: Event, content: int, now: int)
    ensures var next := PublicEmit(config, s, event, content, now);
      && next.cycle == s.cycle && next.hasReadyOnce == s.hasReadyOnce && next.init == s.init
      && next.readyInfo == s.readyInfo && next.registry == s.registry
  {
    if s.init.Ready? {
      SendDisposes(config, Counted(s), Queued(event, content, now, s.sequence));
    }
  }

  lemma {:induction false} RunMarks(config: Config, steps: seq<Step>)
    requires Allowed(config, START, steps)
    ensures Marks(config, steps, After(config, START, steps)) && Good(config, After(config, START, steps))
    decreases |steps|
  {
    StartGood(config);
    RunGood(config, START, steps);
    if steps != [] {
      var front, step := steps[..|steps| - 1], steps[|steps| - 1];
      assert front + [step] == steps;
      AfterSnoc(config, START, front, step);
      RunMarks(config, front);
      StepMarks(config, front, After(config, START, front), step);
    }
  }

  /**
   In every run: a cycle is under way exactly when the client has connected and
   no payload has been taken since. A payload that is taken with a complete
   registry makes the client ready with that registry, and the reason given is
   the first connection, a reconnection, or an update when no cycle was running.
   */
  lemma ReadyReasonMeans(config: Config, steps: seq<Step>, payload: Payload, now: int)
    requires Allowed(config, START, steps)
    ensures var s := After(config, START, steps);
      && (s.cycle.Some? <==> LastMark(config, steps).Connected?)
      && (s.connected && Taken(s, payload) && Complete(InForce(s, payload)) ==>
            && SchemasPayload(config, s, payload, now).init.Ready?
            && SchemasPayload(config, s, payload, now).readyInfo == Some(ReadyInfo(
                 if !LastMark(config, steps).Connected? then SchemasUpdate
                 else if EverTaken(config, steps) then Reconnect else InitialConnect,
                 InForce(s, payload))))
  {
    var s := After(config, START, steps);
    RunMarks(config, steps);
    if s.connected && Taken(s, payload) && Complete(InForce(s, payload)) {
      CompleteReady(config, s, payload, now);
    }
  }

  /** The timer of the cycle that is still running. */
  predicate Runs(s: State, token: nat) {
    s.cycle.Some? && s.cycle.value.token == token
  }

  /**
   The state of initialisation after every event: a connection starts it, a
   payload that is taken ends it well or badly, a failing request, a malformed
   payload or the cycle's own timer end it badly, and nothing else touches it.
   */
  lemma InitExactly(config: Config, s: State, step: Step)
    requires Good(config, s) && Enabled(s, step)
    ensures Next(config, s, step).init ==
      match step
      case Connect(requestFails) => if config.pullsRegistry && requestFails then InitError else Initializing
      case Disconnect => Idle
      case Schemas(payload, _) =>
        if Taken(s, payload) then if Complete(InForce(s, payload)) then Ready else InitError
        else if Malformed(s, payload) then InitError else s.init
      case InitTimerFires(token) => if Runs(s, token) then InitError else s.init
      case _ => s.init
  {
    match step
    case Emit(event, content, now) => EmitKeepsMarks(config, s, event, content, now);
    case Schemas(payload, now) => SchemasOutcome(config, s, payload, now);
    case AwaitReady(timed, requestFails) => AwaitSettles(config, s, timed, requestFails);
    case _ =>
  }

  lemma SchemasOutcome(config: Config, s: State, payload: Payload, now: int)
    requires Good(config, s) && s.connected
    ensures var next := SchemasPayload(config, s, payload, now);
      && next.init == (if Taken(s, payload) then if Complete(InForce(s, payload)) then Ready else InitError
                       else if Malformed(s, payload) then InitError else s.init)
      && next.initTimer == (if Taken(s, payload) then None else s.initTimer)
      && next.warningTimer == (if Taken(s, payload) then false else s.warningTimer || Malformed(s, payload))
  {
    if !Taken(s, payload) {
      NotTaken(config, s, payload, now);
    } else if Complete(InForce(s, payload)) {
      CompleteReady(config, s, payload, now);
    } else {
      IncompleteRefuses(config, s, payload, now);
    }
  }

  /**
   Which timers are armed after every event: the one of the running cycle until
   the cycle ends or it fires, and the warnings while initialisation has failed.
   */
  lemma TimersExactly(config: Config, s: State, step: Step)
    requires Good(config, s) && Enabled(s, step)
    ensures var next := Next(config, s, step);
      && next.initTimer ==
        (match step
         case Connect(_) => Some(s.tokens + 1)
         case Disconnect => None
         case Schemas(payload, _) => if Taken(s, payload) then None else s.initTimer
         case InitTimerFires(token) => if Runs(s, token) then None else s.initTimer
         case _ => s.initTimer)
      && next.warningTimer ==
        (match step
         case Connect(requestFails) => config.pullsRegistry && requestFails
         case Disconnect => false
         case Schemas(payload, _) => if Taken(s, payload) then false else s.warningTimer || Malformed(s, payload)
         case InitTimerFires(token) => s.warningTimer || Runs(s, token)
         case _ => s.warningTimer)
  {
    match step
    case Emit(event, content, now) => EmitKeepsTimers(config, s, event, content, now);
    case Schemas(payload, now) => SchemasOutcome(config, s, payload, now);
    case AwaitReady(timed, requestFails) => AwaitSettles(config, s, timed, requestFails);
    case _ =>
  }

  lemma EmitKeepsTimers(config: Config, s: State, event: Event, content: int, now: int)
    ensures var next := PublicEmit(config, s, event, content, now);
      next.initTimer == s.initTimer && next.warningTimer == s.warningTimer
  {
    if s.init.Ready? {
      SendDisposes(config, Counted(s), Queued(event, content, now, s.sequence));
    }
  }

  // ---------- emissions ----------

  /**
   A ready client sends an emission on at once; any other queues it, and when the
   queue is full drops and reports the oldest one. Nothing else is touched.
   */
  lemma EmitExactly(config: Config, s: State, event: Event, content: int, now: int)
    requires Good(config, s)
    ensures var next := Next(config, s, Emit(event, content, now));
      var q := Queued(event, content, now, s.sequence);
      && next.sequence == s.sequence + 1
      && (s.init.Ready? ==>
            next.queue == [] &&
            match FateSent(config, s.applied, true, q)
            case Deliver(w) => next.wire == s.wire + [w] && next.reports == s.reports
            case Complain(message) => next.wire == s.wire && next.reports == s.reports + [Report(s.sequence, message)])
      && (!s.init.Ready? ==>
            next.wire == s.wire &&
            if |s.queue| < config.maxQueuedOutbound then next.queue == s.queue + [q] && next.reports == s.reports
            else
              && next.queue == (s.queue + [q])[1..]
              && next.reports == s.reports + [Report((s.queue + [q])[0].sequence,
                                                  "SockethubClient queue overflow before ready")])
  {
    if s.init.Ready? {
      SendDisposes(config, Counted(s), Queued(event, content, now, s.sequence));
      SendFate(config, Counted(s), Queued(event, content, now, s.sequence));
    }
  }

  /** Content that was accepted although nobody can be named for the replay maps, which take notice of it. */
  predicate Unkeyed(config: Config, applied: nat, connected: bool, q: Queued) {
    && !q.event.Named? && config.prepare(applied, q.event, q.content).Accepted?
    && var a := config.prepare(applied, q.event, q.content).activity;
       a.key.None? && if q.event.Credentials? then a.holdsCredentials else connected
  }

  /** Why an emission is reported instead of sent, and what its caller is told. */
  lemma ComplaintsExactly(config: Config, applied: nat, connected: bool, q: Queued, now: int)
    ensures FateOf(config, applied, connected, q, now) ==
      if now - q.enqueuedAt > config.maxQueuedAgeMs then
        Complain("SockethubClient queued message expired before initialization")
      else if q.event.Named? && config.refuses(q.event.name).Some? then Complain(config.refuses(q.event.name).value)
      else if q.event.Named? then Deliver(Forwarded(q.sequence, q.event, q.content, None))
      else if config.prepare(applied, q.event, q.content).Rejected? then
        Complain(config.prepare(applied, q.event, q.content).message)
      else if Unkeyed(config, applied, connected, q) then Complain("actor property not present")
      else Deliver(Forwarded(q.sequence, q.event, q.content,
                             Some(config.prepare(applied, q.event, q.content).activity)))
  {
  }
}
