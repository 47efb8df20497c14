/** What every run of the client keeps: fates, order, initialisation, waiters, replay maps. */
module ClientRuns {
  import opened JsString
  import opened Results
  import opened JsMap
  import opened ClientState

  // ---------- sequences of numbers ----------

  function Upto(n: nat): (r: seq<nat>)
    ensures |r| == n
  {
    seq(n, i => i)
  }

  predicate Increasing(s: seq<nat>) {
    forall i, j | 0 <= i < j < |s| :: s[i] < s[j]
  }

  predicate Below(s: seq<nat>, bound: nat) {
    forall i | 0 <= i < |s| :: s[i] < bound
  }

  function Seqs(queue: seq<Queued>): (r: seq<nat>)
    ensures |r| == |queue|
  {
    seq(|queue|, i requires 0 <= i < |queue| => queue[i].sequence)
  }

  /** The emissions handed to the underlying socket, in order. */
  function SentSeqs(wire: seq<Wire>): seq<nat> {
    if wire == [] then []
    else
      var last := wire[|wire| - 1];
      SentSeqs(wire[..|wire| - 1]) + if last.Forwarded? then [last.sequence] else []
  }

  function ReportedSeqs(reports: seq<Report>): (r: seq<nat>)
    ensures |r| == |reports|
  {
    seq(|reports|, i requires 0 <= i < |reports| => reports[i].sequence)
  }

  function WaiterIds(waiters: seq<Waiter>): (r: seq<nat>)
    ensures |r| == |waiters|
  {
    seq(|waiters|, i requires 0 <= i < |waiters| => waiters[i].id)
  }

  function SettledIds(settled: seq<Settled>): (r: seq<nat>)
    ensures |r| == |settled|
  {
    seq(|settled|, i requires 0 <= i < |settled| => settled[i].id)
  }

  lemma SentAppended(wire: seq<Wire>, w: Wire)
    ensures SentSeqs(wire + [w]) == SentSeqs(wire) + if w.Forwarded? then [w.sequence] else []
  {
    assert (wire + [w])[..|wire|] == wire;
  }

  lemma {:induction false} SentNothing(wire: seq<Wire>, more: seq<Wire>)
    requires forall i | 0 <= i < |more| :: !more[i].Forwarded?
    ensures SentSeqs(wire + more) == SentSeqs(wire)
  {
    if more == [] {
      assert wire + more == wire;
    } else {
      var last := |more| - 1;
      SentNothing(wire, more[..last]);
      assert wire + more == (wire + more[..last]) + [more[last]];
      SentAppended(wire + more[..last], more[last]);
    }
  }

  lemma ReportAppended(reports: seq<Report>, r: Report)
    ensures ReportedSeqs(reports + [r]) == ReportedSeqs(reports) + [r.sequence]
  {
  }

  lemma SeqsAppended(queue: seq<Queued>, q: Queued)
    ensures Seqs(queue + [q]) == Seqs(queue) + [q.sequence]
  {
  }

  lemma Appended(s: seq<nat>, n: nat)
    ensures multiset(s + [n]) == multiset(s) + multiset{n}
  {
  }

  lemma UptoNext(n: nat)
    ensures Upto(n + 1) == Upto(n) + [n]
  {
  }

  // ---------- fates ----------

  /** Every emission so far is in exactly one place: sent, reported or pending, and there once. */
  ghost predicate Accounted(s: State, pending: seq<nat>) {
    multiset(SentSeqs(s.wire)) + multiset(ReportedSeqs(s.reports)) + multiset(pending) == multiset(Upto(s.sequence))
  }

  /** Sending and reporting change nothing else. */
  predicate SameSession(s: State, next: State) {
    next == s.(wire := next.wire, reports := next.reports, credentials := next.credentials,
               connects := next.connects, joins := next.joins, log := next.log)
  }

  /** One emission was sent or reported. */
  predicate Disposed(s: State, next: State, sequence: nat) {
    || (SentSeqs(next.wire) == SentSeqs(s.wire) + [sequence] && next.reports == s.reports)
    || (next.wire == s.wire && ReportedSeqs(next.reports) == ReportedSeqs(s.reports) + [sequence])
  }

  /** `mid` has stored the activity already. */
  lemma ForwardDisposes(s: State, mid: State, q: Queued, activity: Option<Activity>)
    requires SameSession(s, mid) && mid.wire == s.wire && mid.reports == s.reports
    ensures SameSession(s, Forward(mid, q, activity)) && Disposed(s, Forward(mid, q, activity), q.sequence)
  {
    SentAppended(s.wire, Forwarded(q.sequence, q.event, q.content, activity));
  }

  lemma ReportDisposes(s: State, q: Queued, message: string)
    ensures SameSession(s, Reported(s, q, message)) && Disposed(s, Reported(s, q, message), q.sequence)
  {
    ReportAppended(s.reports, Report(q.sequence, message));
  }

  lemma SendDisposes(config: Config, s: State, q: Queued)
    ensures SameSession(s, SendOutbound(config, s, q)) && Disposed(s, SendOutbound(config, s, q), q.sequence)
  {
    if q.event.Named? {
      ForwardDisposes(s, s, q, None);
      var refusal := config.refuses(q.event.name);
      if refusal.Some? { ReportDisposes(s, q, refusal.value); }
    } else {
      match config.prepare(s.applied, q.event, q.content)
      case Rejected(message) => ReportDisposes(s, q, message);
      case Accepted(a) =>
        if !Stores(s, q.event, a) {
          ForwardDisposes(s, s, q, Some(a));
        } else if a.key.None? {
          ReportDisposes(s, q, NO_ACTOR);
        } else {
          ForwardDisposes(s, Stored(s, q.event, a), q, Some(a));
        }
    }
  }

  lemma FlushOneDisposes(config: Config, s: State, q: Queued, now: int)
    ensures SameSession(s, FlushOne(config, s, q, now)) && Disposed(s, FlushOne(config, s, q, now), q.sequence)
  {
    if Expired(config, q, now) {
      ReportDisposes(s, q, EXPIRED);
    } else {
      SendDisposes(config, s, q);
    }
  }

  lemma DisposedAccounts(s: State, next: State, sequence: nat, pending: seq<nat>)
    requires SameSession(s, next) && Disposed(s, next, sequence) && Accounted(s, [sequence] + pending)
    ensures Accounted(next, pending)
  {
    assert multiset([sequence] + pending) == multiset{sequence} + multiset(pending);
    if next.wire == s.wire {
      assert multiset(ReportedSeqs(s.reports) + [sequence]) == multiset(ReportedSeqs(s.reports)) + multiset{sequence};
    } else {
      assert multiset(SentSeqs(s.wire) + [sequence]) == multiset(SentSeqs(s.wire)) + multiset{sequence};
    }
  }

  lemma IncreasingMoves(sent: seq<nat>, x: nat, pending: seq<nat>)
    requires Increasing(sent + ([x] + pending))
    ensures Increasing((sent + [x]) + pending) && Increasing(sent + pending)
  {
    assert (sent + [x]) + pending == sent + ([x] + pending);
    var all, rest := sent + ([x] + pending), sent + pending;
    forall i, j | 0 <= i < j < |rest| ensures rest[i] < rest[j] {
      assert rest[i] == all[if i < |sent| then i else i + 1];
      assert rest[j] == all[if j < |sent| then j else j + 1];
    }
  }

  lemma BelowMoves(sent: seq<nat>, x: nat, pending: seq<nat>, bound: nat)
    requires Below(sent + ([x] + pending), bound)
    ensures Below((sent + [x]) + pending, bound) && Below(sent + pending, bound)
  {
    assert (sent + [x]) + pending == sent + ([x] + pending);
    var all, rest := sent + ([x] + pending), sent + pending;
    forall i | 0 <= i < |rest| ensures rest[i] < bound {
      assert rest[i] == all[if i < |sent| then i else i + 1];
    }
  }

  /** Sent and pending emissions together are in emission order, and all are accounted for. */
  ghost predicate InOrder(s: State, pending: seq<nat>) {
    var all := SentSeqs(s.wire) + pending;
    Increasing(all) && Below(all, s.sequence) && Accounted(s, pending)
  }

  lemma DisposedInOrder(s: State, next: State, sequence: nat, pending: seq<nat>)
    requires SameSession(s, next) && Disposed(s, next, sequence) && InOrder(s, [sequence] + pending)
    ensures InOrder(next, pending)
  {
    DisposedAccounts(s, next, sequence, pending);
    IncreasingMoves(SentSeqs(s.wire), sequence, pending);
    BelowMoves(SentSeqs(s.wire), sequence, pending, s.sequence);
  }

  /** Flushing a queue disposes of its entries one by one, in order. */
  lemma {:induction false} FlushInOrder(config: Config, s: State, queue: seq<Queued>, now: int, pending: seq<nat>)
    requires InOrder(s, Seqs(queue) + pending)
    ensures SameSession(s, FlushAll(config, s, queue, now))
    ensures InOrder(FlushAll(config, s, queue, now), pending)
  {
    if queue == [] {
      assert Seqs(queue) + pending == pending;
    } else {
      var front, q := queue[..|queue| - 1], queue[|queue| - 1];
      assert queue == front + [q];
      SeqsAppended(front, q);
      ConcatAssociates(Seqs(front), [q.sequence], pending);
      FlushInOrder(config, s, front, now, [q.sequence] + pending);
      var mid := FlushAll(config, s, front, now);
      FlushOneDisposes(config, mid, q, now);
      DisposedInOrder(mid, FlushOne(config, mid, q, now), q.sequence, pending);
    }
  }

  // ---------- the sort at flush ----------

  lemma IncreasingFront(queue: seq<Queued>)
    requires queue != [] && Increasing(Seqs(queue))
    ensures Increasing(Seqs(queue[..|queue| - 1]))
    ensures |queue| > 1 ==> queue[|queue| - 2].sequence < queue[|queue| - 1].sequence
  {
    assert forall i | 0 <= i < |queue| :: Seqs(queue)[i] == queue[i].sequence;
    if |queue| > 1 {
      assert Seqs(queue)[|queue| - 2] < Seqs(queue)[|queue| - 1];
    }
  }

  /** The queue is already in order, so sorting it changes nothing. */
  lemma {:induction false} SortIsIdentity(queue: seq<Queued>)
    requires Increasing(Seqs(queue))
    ensures SortQueued(queue) == queue
  {
    if queue != [] {
      IncreasingFront(queue);
      SortIsIdentity(queue[..|queue| - 1]);
    }
  }

  lemma TailIncreasing(a: seq<nat>, b: seq<nat>)
    requires Increasing(a + b)
    ensures Increasing(b)
  {
    assert forall i | 0 <= i < |b| :: b[i] == (a + b)[|a| + i];
  }

  // ---------- the queue invariant ----------

  function Limit(config: Config): nat {
    if config.maxQueuedOutbound > 0 then config.maxQueuedOutbound else 0
  }

  ghost predicate Queueing(config: Config, s: State) {
    InOrder(s, Seqs(s.queue)) && |s.queue| <= Limit(config)
  }

  lemma NextInOrder(s: State, pending: seq<nat>)
    requires InOrder(s, pending)
    ensures InOrder(Counted(s), pending + [s.sequence])
  {
    AppendOne(SentSeqs(s.wire) + pending, s.sequence);
    ConcatAssociates(SentSeqs(s.wire), pending, [s.sequence]);
    UptoNext(s.sequence);
    assert multiset(pending + [s.sequence]) == multiset(pending) + multiset{s.sequence};
    assert multiset(Upto(s.sequence) + [s.sequence]) == multiset(Upto(s.sequence)) + multiset{s.sequence};
  }

  lemma AppendOne(all: seq<nat>, n: nat)
    requires Increasing(all) && Below(all, n)
    ensures Increasing(all + [n]) && Below(all + [n], n + 1)
  {
  }

  lemma EnqueueKeeps(config: Config, s: State, q: Queued)
    requires InOrder(s, Seqs(s.queue) + [q.sequence]) && |s.queue| <= Limit(config)
    ensures Queueing(config, EnqueueOutbound(config, s, q))
  {
    SeqsAppended(s.queue, q);
    var queue := s.queue + [q];
    if |queue| > config.maxQueuedOutbound {
      var next := EnqueueOutbound(config, s, q);
      ReportAppended(s.reports, Report(queue[0].sequence, OVERFLOW));
      assert Seqs(queue) == [queue[0].sequence] + Seqs(queue[1..]);
      var was := s.(queue := queue[1..]);
      assert InOrder(was, [queue[0].sequence] + Seqs(queue[1..]));
      DisposedInOrder(was, next, queue[0].sequence, Seqs(queue[1..]));
    }
  }

  lemma EmitKeepsQueueing(config: Config, s: State, event: Event, content: int, now: int)
    requires Queueing(config, s) && (s.init.Ready? ==> s.queue == [])
    ensures Queueing(config, PublicEmit(config, s, event, content, now))
  {
    NextInOrder(s, Seqs(s.queue));
    var q := Queued(event, content, now, s.sequence);
    var counted := Counted(s);
    if s.init.Ready? {
      assert Seqs(s.queue) + [q.sequence] == [q.sequence] + [];
      SendDisposes(config, counted, q);
      DisposedInOrder(counted, SendOutbound(config, counted, q), q.sequence, []);
      assert Seqs([]) == [];
    } else {
      EnqueueKeeps(config, counted, q);
    }
  }

  lemma FlushKeepsQueueing(config: Config, s: State, now: int)
    requires Queueing(config, s)
    ensures Queueing(config, Flushed(config, s, now))
    ensures s.init.Ready? ==> Flushed(config, s, now).queue == []
    ensures SameSession(s.(queue := Flushed(config, s, now).queue), Flushed(config, s, now))
  {
    if s.init.Ready? && s.queue != [] {
      TailIncreasing(SentSeqs(s.wire), Seqs(s.queue));
      SortIsIdentity(s.queue);
      var emptied := s.(queue := []);
      assert Seqs(s.queue) + [] == Seqs(s.queue);
      FlushInOrder(config, emptied, s.queue, now, []);
      assert Seqs([]) == [];
    }
  }

  /** Changes that neither emit nor report nor queue. */
  lemma QueueingFrame(config: Config, s: State, next: State)
    requires Queueing(config, s)
    requires next.queue == s.queue && next.sequence == s.sequence && next.reports == s.reports
    requires SentSeqs(next.wire) == SentSeqs(s.wire)
    ensures Queueing(config, next)
  {
  }

  lemma ReplaySendsNothing(config: Config, s: State)
    ensures SentSeqs(ReplayedState(config, s).wire) == SentSeqs(s.wire)
  {
    var a, b, c := ReplayAll(config, Credentials, s.credentials), ReplayAll(config, Message, s.connects),
      ReplayAll(config, Message, s.joins);
    SentNothing(s.wire, a);
    SentNothing(s.wire + a, b);
    SentNothing(s.wire + a + b, c);
  }

  lemma MarkReadyKeepsQueueing(config: Config, s: State, reason: Reason, now: int)
    requires Queueing(config, s)
    ensures Queueing(config, MarkReady(config, s, reason, now))
    ensures MarkReady(config, s, reason, now).init.Ready? ==> MarkReady(config, s, reason, now).queue == []
  {
    var info := ReadyInfoFor(s, reason);
    if info.None? {
      QueueingFrame(config, s, SettledAll(Marked(s).(init := InitError), Refused));
    } else {
      var announced := Announced(s, info.value);
      QueueingFrame(config, s, announced);
      ReplaySendsNothing(config, announced);
      QueueingFrame(config, announced, ReplayedState(config, announced));
      FlushKeepsQueueing(config, announced, now);
      FlushKeepsQueueing(config, ReplayedState(config, announced), now);
    }
  }

  lemma StartKeepsQueueing(config: Config, s: State, reason: Reason, replay: bool, requestFails: bool)
    requires Queueing(config, s)
    ensures Queueing(config, StartInitialization(config, s, reason, replay, requestFails))
  {
    var begun := Begun(s, reason, replay);
    QueueingFrame(config, s, begun);
    if s.connected && config.pullsRegistry {
      if requestFails {
        QueueingFrame(config, begun, begun.(init := InitError, warningTimer := true));
      } else {
        SentAppended(s.wire, SchemasRequest(Fingerprint(s)));
        QueueingFrame(config, begun, begun.(wire := s.wire + [SchemasRequest(Fingerprint(s))]));
      }
    }
  }

  lemma AppliedKeepsQueueing(config: Config, s: State, payload: Payload)
    requires Queueing(config, s) && payload.Payload? && payload.registry.Some?
    ensures Queueing(config, Applied(s, payload))
  {
    QueueingFrame(config, s, Applied(s, payload));
  }

  lemma SchemasKeepsQueueing(config: Config, s: State, payload: Payload, now: int)
    requires Queueing(config, s)
    ensures Queueing(config, SchemasPayload(config, s, payload, now))
  {
    var reason := if s.cycle.Some? then s.cycle.value.reason else SchemasUpdate;
    MarkReadyKeepsQueueing(config, s, reason, now);
    if payload.Payload? {
      QueueingFrame(config, s, s.(init := InitError, warningTimer := true));
      if payload.registry.Some? {
        AppliedKeepsQueueing(config, s, payload);
        MarkReadyKeepsQueueing(config, Applied(s, payload), reason, now);
      }
    }
  }

  lemma AwaitKeepsQueueing(config: Config, s: State, timed: bool, requestFails: bool)
    requires Queueing(config, s)
    ensures Queueing(config, AwaitingReady(config, s, timed, requestFails))
  {
    if s.init.Ready? && s.readyInfo.Some? {
      QueueingFrame(config, s, AwaitingReady(config, s, timed, requestFails));
    } else {
      QueueingFrame(config, s, Waiting(s, timed));
      StartKeepsQueueing(config, Waiting(s, timed), ConnectReason(s), true, requestFails);
    }
  }

  lemma StepKeepsQueueing(config: Config, s: State, step: Step)
    requires Queueing(config, s) && (s.init.Ready? ==> s.queue == [])
    ensures Queueing(config, Next(config, s, step))
  {
    match step
    case Connect(requestFails) =>
      QueueingFrame(config, s, s.(connected := true));
      StartKeepsQueueing(config, s.(connected := true), ConnectReason(s), true, requestFails);
    case Emit(event, content, now) => EmitKeepsQueueing(config, s, event, content, now);
    case Schemas(payload, now) => SchemasKeepsQueueing(config, s, payload, now);
    case AwaitReady(timed, requestFails) => AwaitKeepsQueueing(config, s, timed, requestFails);
    case _ =>
      QuietStep(config, s, step);
      QueueingFrame(config, s, Next(config, s, step));
  }

  lemma QuietStep(config: Config, s: State, step: Step)
    requires !step.Connect? && !step.Emit? && !step.Schemas? && !step.AwaitReady?
    ensures var next := Next(config, s, step);
      next.queue == s.queue && next.sequence == s.sequence && next.reports == s.reports && next.wire == s.wire
  {
  }

  // ---------- initialisation ----------

  predicate Session(s: State) {
    && (s.init.Ready? ==>
          && s.cycle.None? && s.initTimer.None? && !s.warningTimer
          && s.waiters == [] && s.readyInfo.Some? && s.queue == [])
    && (s.connected <==> !s.init.Idle?)
    && (s.initTimer.Some? ==> s.connected && s.cycle.Some? && s.cycle.value.token == s.initTimer.value)
    && (s.cycle.Some? ==> s.cycle.value.token == s.tokens && s.cycle.value.replayOnReady)
    && (s.warningTimer ==> s.connected)
  }

  lemma MarkReadySession(config: Config, s: State, reason: Reason, now: int)
    requires Queueing(config, s) && s.connected
    ensures Session(MarkReady(config, s, reason, now))
  {
    var info := ReadyInfoFor(s, reason);
    if info.Some? {
      var announced := Announced(s, info.value);
      QueueingFrame(config, s, announced);
      ReplaySendsNothing(config, announced);
      QueueingFrame(config, announced, ReplayedState(config, announced));
      FlushKeepsQueueing(config, announced, now);
      FlushKeepsQueueing(config, ReplayedState(config, announced), now);
    }
  }

  lemma SchemasSession(config: Config, s: State, payload: Payload, now: int)
    requires Queueing(config, s) && Session(s) && s.connected
    ensures Session(SchemasPayload(config, s, payload, now))
  {
    if Source(s, payload).Some? {
      var from := Source(s, payload).value;
      if !Reuses(s, payload) {
        AppliedKeepsQueueing(config, s, payload);
      }
      SchemasIsMarkReady(config, s, payload, now);
      MarkReadySession(config, from, ReasonNow(s), now);
    } else {
      UnappliedSchemas(config, s, payload, now);
    }
  }

  lemma UnappliedSchemas(config: Config, s: State, payload: Payload, now: int)
    requires Source(s, payload).None?
    ensures SchemasPayload(config, s, payload, now) in {s, s.(init := InitError, warningTimer := true)}
  {
  }

  lemma StepKeepsSession(config: Config, s: State, step: Step)
    requires Queueing(config, s) && Session(s) && Enabled(s, step)
    ensures Session(Next(config, s, step))
  {
    match step
    case Emit(event, content, now) => EmitSession(config, s, event, content, now);
    case Schemas(payload, now) => SchemasSession(config, s, payload, now);
    case Connect(requestFails) => StartSession(config, s.(connected := true), ConnectReason(s), requestFails);
    case AwaitReady(timed, requestFails) => AwaitSession(config, s, timed, requestFails);
    case _ =>
  }

  lemma EmitSession(config: Config, s: State, event: Event, content: int, now: int)
    requires Session(s)
    ensures Session(PublicEmit(config, s, event, content, now))
  {
    if s.init.Ready? {
      SendDisposes(config, Counted(s), Queued(event, content, now, s.sequence));
    }
  }

  lemma StartSession(config: Config, s: State, reason: Reason, requestFails: bool)
    requires s.connected
    ensures Session(StartInitialization(config, s, reason, true, requestFails))
  {
  }

  lemma AwaitSession(config: Config, s: State, timed: bool, requestFails: bool)
    requires Session(s)
    ensures Session(AwaitingReady(config, s, timed, requestFails))
  {
  }

  // ---------- waiters ----------

  /** Every call of ready() is either still waiting or settled, and settled once. */
  ghost predicate WaitersKept(s: State) {
    && Increasing(WaiterIds(s.waiters))
    && multiset(WaiterIds(s.waiters)) + multiset(SettledIds(s.settled)) == multiset(Upto(s.nextWaiter))
  }

  lemma {:induction false} InUpto(n: nat, x: nat)
    ensures multiset(Upto(n))[x] == if x < n then 1 else 0
  {
    if n > 0 {
      InUpto(n - 1, x);
      UptoNext(n - 1);
      Appended(Upto(n - 1), n - 1);
    } else {
      assert Upto(0) == [];
    }
  }

  lemma WaiterIdsBelow(s: State)
    requires WaitersKept(s)
    ensures Below(WaiterIds(s.waiters), s.nextWaiter)
  {
    forall i | 0 <= i < |s.waiters| ensures WaiterIds(s.waiters)[i] < s.nextWaiter {
      var x := WaiterIds(s.waiters)[i];
      assert x in multiset(WaiterIds(s.waiters));
      InUpto(s.nextWaiter, x);
    }
  }

  lemma WaitingKept(s: State, timed: bool)
    requires WaitersKept(s)
    ensures WaitersKept(Waiting(s, timed))
  {
    var n := s.nextWaiter;
    WaiterIdsBelow(s);
    assert WaiterIds(s.waiters + [Waiter(n, timed)]) == WaiterIds(s.waiters) + [n];
    AppendOne(WaiterIds(s.waiters), n);
    assert multiset(WaiterIds(s.waiters) + [n]) == multiset(WaiterIds(s.waiters)) + multiset{n};
    UptoNext(n);
    assert multiset(Upto(n) + [n]) == multiset(Upto(n)) + multiset{n};
  }

  lemma AnsweredKept(s: State, next: State, info: ReadyInfo)
    requires WaitersKept(s)
    requires next.waiters == s.waiters && next.nextWaiter == s.nextWaiter + 1
    requires next.settled == s.settled + [Settled(s.nextWaiter, Resolved(info))]
    ensures WaitersKept(next)
  {
    var n := s.nextWaiter;
    assert SettledIds(next.settled) == SettledIds(s.settled) + [n];
    assert multiset(SettledIds(s.settled) + [n]) == multiset(SettledIds(s.settled)) + multiset{n};
    UptoNext(n);
    assert multiset(Upto(n) + [n]) == multiset(Upto(n)) + multiset{n};
  }

  lemma SettleAllKept(s: State, how: Settlement)
    requires WaitersKept(s)
    ensures WaitersKept(SettledAll(s, how))
  {
    var next := SettledAll(s, how);
    assert SettledIds(next.settled) == SettledIds(s.settled) + WaiterIds(s.waiters);
    assert WaiterIds([]) == [];
  }

  lemma {:induction false} WithoutAbsent(waiters: seq<Waiter>, id: nat)
    requires forall i | 0 <= i < |waiters| :: waiters[i].id != id
    ensures WithoutWaiter(waiters, id) == waiters
  {
    if waiters != [] {
      WithoutAbsent(waiters[1..], id);
      HeadAndTail(waiters);
    }
  }

  lemma {:induction false} WithoutAt(waiters: seq<Waiter>, i: nat)
    requires i < |waiters| && forall j | 0 <= j < |waiters| && j != i :: waiters[j].id != waiters[i].id
    ensures WithoutWaiter(waiters, waiters[i].id) == waiters[..i] + waiters[i + 1..]
  {
    var tail := waiters[1..];
    if i == 0 {
      WithoutAbsent(tail, waiters[0].id);
    } else {
      WithoutAt(tail, i - 1);
      assert tail[i - 1] == waiters[i];
      assert waiters[..i] + waiters[i + 1..] == [waiters[0]] + (tail[..i - 1] + tail[i..]);
    }
  }

  lemma DropFromMiddle(a: seq<nat>, x: nat, b: seq<nat>)
    requires Increasing(a + ([x] + b))
    ensures Increasing(a + b) && multiset(a + ([x] + b)) == multiset(a + b) + multiset{x}
  {
    IncreasingMoves(a, x, b);
    assert multiset(a + ([x] + b)) == multiset(a) + multiset([x] + b);
  }

  lemma TimeoutKept(s: State, id: nat)
    requires WaitersKept(s) && Waiter(id, true) in s.waiters
    ensures WaitersKept(WaiterTimeout(s, id))
  {
    var i :| 0 <= i < |s.waiters| && s.waiters[i] == Waiter(id, true);
    var ids := WaiterIds(s.waiters);
    forall j | 0 <= j < |s.waiters| && j != i ensures s.waiters[j].id != id {
      assert if j < i then ids[j] < ids[i] else ids[i] < ids[j];
    }
    WithoutAt(s.waiters, i);
    WaiterDropped(s.waiters, i);
    DropCounted(ids, i);
    assert SettledIds(s.settled + [Settled(id, TimedOut)]) == SettledIds(s.settled) + [id];
    Appended(SettledIds(s.settled), id);
  }

  lemma WaiterDropped(waiters: seq<Waiter>, i: nat)
    requires i < |waiters|
    ensures WaiterIds(waiters[..i] + waiters[i + 1..]) == WaiterIds(waiters)[..i] + WaiterIds(waiters)[i + 1..]
  {
  }

  lemma DropCounted(ids: seq<nat>, i: nat)
    requires i < |ids| && Increasing(ids)
    ensures Increasing(ids[..i] + ids[i + 1..])
    ensures multiset(ids) == multiset(ids[..i] + ids[i + 1..]) + multiset{ids[i]}
  {
    assert ids == ids[..i] + ([ids[i]] + ids[i + 1..]);
    DropFromMiddle(ids[..i], ids[i], ids[i + 1..]);
  }

  predicate SameWaiters(s: State, next: State) {
    next.waiters == s.waiters && next.nextWaiter == s.nextWaiter && next.settled == s.settled
  }

  lemma {:induction false} FlushAllSession(config: Config, s: State, queue: seq<Queued>, now: int)
    ensures SameSession(s, FlushAll(config, s, queue, now))
  {
    if queue != [] {
      var front, q := queue[..|queue| - 1], queue[|queue| - 1];
      FlushAllSession(config, s, front, now);
      FlushOneDisposes(config, FlushAll(config, s, front, now), q, now);
    }
  }

  lemma MarkReadyWaiters(config: Config, s: State, reason: Reason, now: int)
    requires WaitersKept(s)
    ensures WaitersKept(MarkReady(config, s, reason, now))
  {
    var info := ReadyInfoFor(s, reason);
    if info.None? {
      SettleAllKept(Marked(s).(init := InitError), Refused);
    } else {
      SettleAllKept(Marked(s).(readyInfo := info), Resolved(info.value));
      var announced := Announced(s, info.value);
      FlushAllSession(config, announced.(queue := []), SortQueued(s.queue), now);
      FlushAllSession(config, ReplayedState(config, announced).(queue := []), SortQueued(s.queue), now);
    }
  }

  /** Starting an initialisation touches neither waiters nor replay maps. */
  lemma StartFrame(config: Config, s: State, reason: Reason, replay: bool, requestFails: bool)
    ensures var next := StartInitialization(config, s, reason, replay, requestFails);
      SameWaiters(s, next) && next.log == s.log && next.joins == s.joins && next.connects == s.connects
  {
  }

  lemma SchemasKeepsWaiters(config: Config, s: State, payload: Payload, now: int)
    requires WaitersKept(s)
    ensures WaitersKept(SchemasPayload(config, s, payload, now))
  {
    var reason := if s.cycle.Some? then s.cycle.value.reason else SchemasUpdate;
    MarkReadyWaiters(config, s, reason, now);
    if payload.Payload? && payload.registry.Some? {
      MarkReadyWaiters(config, Applied(s, payload), reason, now);
    }
  }

  lemma AwaitKeepsWaiters(config: Config, s: State, timed: bool, requestFails: bool)
    requires WaitersKept(s)
    ensures WaitersKept(AwaitingReady(config, s, timed, requestFails))
  {
    if s.init.Ready? && s.readyInfo.Some? {
      AnsweredKept(s, AwaitingReady(config, s, timed, requestFails), s.readyInfo.value);
    } else {
      WaitingKept(s, timed);
      StartFrame(config, Waiting(s, timed), ConnectReason(s), true, requestFails);
    }
  }

  lemma EmitKeepsWaiters(config: Config, s: State, event: Event, content: int, now: int)
    requires WaitersKept(s)
    ensures WaitersKept(PublicEmit(config, s, event, content, now))
  {
    var q := Queued(event, content, now, s.sequence);
    if s.init.Ready? {
      SendDisposes(config, Counted(s), q);
      assert SameWaiters(s, SendOutbound(config, Counted(s), q));
    } else {
      assert SameWaiters(s, EnqueueOutbound(config, Counted(s), q));
    }
  }

  lemma StepKeepsWaiters(config: Config, s: State, step: Step)
    requires WaitersKept(s) && Enabled(s, step)
    ensures WaitersKept(Next(config, s, step))
  {
    match step
    case Connect(requestFails) => StartFrame(config, s.(connected := true), ConnectReason(s), true, requestFails);
    case Emit(event, content, now) => EmitKeepsWaiters(config, s, event, content, now);
    case Schemas(payload, now) => SchemasKeepsWaiters(config, s, payload, now);
    case AwaitReady(timed, requestFails) => AwaitKeepsWaiters(config, s, timed, requestFails);
    case WaiterTimerFires(id) => TimeoutKept(s, id);
    case _ => assert SameWaiters(s, Next(config, s, step));
  }

  // ---------- the replay maps ----------

  predicate Keyed(log: seq<Activity>) {
    forall i | 0 <= i < |log| :: log[i].key.Some?
  }

  /** The map a log of messages leaves. */
  function Folded(log: seq<Activity>, enter: Kind, exit: Kind): Replays
    requires Keyed(log)
  {
    if log == [] then [] else StoredIn(Folded(log[..|log| - 1], enter, exit), log[|log| - 1], enter, exit)
  }

  ghost predicate MapsFold(s: State) {
    Keyed(s.log) && s.joins == Folded(s.log, Join, Leave) && s.connects == Folded(s.log, ConnectTo, DisconnectFrom)
  }

  predicate SameMaps(s: State, next: State) {
    next.log == s.log && next.joins == s.joins && next.connects == s.connects
  }

  lemma StoredFolds(s: State, a: Activity)
    requires MapsFold(s) && a.key.Some?
    ensures MapsFold(Stored(s, Message, a))
  {
    assert (s.log + [a])[..|s.log|] == s.log;
  }

  lemma SendFolds(config: Config, s: State, q: Queued)
    requires MapsFold(s)
    ensures MapsFold(SendOutbound(config, s, q))
  {
    var prepared := if q.event.Named? then Rejected([]) else config.prepare(s.applied, q.event, q.content);
    if prepared.Accepted? && q.event.Message? && prepared.activity.key.Some? {
      StoredFolds(s, prepared.activity);
      assert Stores(s, q.event, prepared.activity)
        ==> SameMaps(Stored(s, Message, prepared.activity), SendOutbound(config, s, q));
    } else {
      assert SameMaps(s, SendOutbound(config, s, q));
    }
  }

  lemma {:induction false} FlushAllFolds(config: Config, s: State, queue: seq<Queued>, now: int)
    requires MapsFold(s)
    ensures MapsFold(FlushAll(config, s, queue, now))
  {
    if queue != [] {
      var front, q := queue[..|queue| - 1], queue[|queue| - 1];
      FlushAllFolds(config, s, front, now);
      SendFolds(config, FlushAll(config, s, front, now), q);
    }
  }

  lemma MarkReadyFolds(config: Config, s: State, reason: Reason, now: int)
    requires MapsFold(s)
    ensures MapsFold(MarkReady(config, s, reason, now))
  {
    var info := ReadyInfoFor(s, reason);
    if info.Some? {
      var announced := Announced(s, info.value);
      FlushAllFolds(config, announced.(queue := []), SortQueued(s.queue), now);
      FlushAllFolds(config, ReplayedState(config, announced).(queue := []), SortQueued(s.queue), now);
    }
  }

  lemma SchemasKeepsFolds(config: Config, s: State, payload: Payload, now: int)
    requires MapsFold(s)
    ensures MapsFold(SchemasPayload(config, s, payload, now))
  {
    var reason := if s.cycle.Some? then s.cycle.value.reason else SchemasUpdate;
    MarkReadyFolds(config, s, reason, now);
    if payload.Payload? && payload.registry.Some? {
      MarkReadyFolds(config, Applied(s, payload), reason, now);
    }
  }

  lemma EmitKeepsFolds(config: Config, s: State, event: Event, content: int, now: int)
    requires MapsFold(s)
    ensures MapsFold(PublicEmit(config, s, event, content, now))
  {
    var q := Queued(event, content, now, s.sequence);
    assert SameMaps(s, Counted(s));
    if s.init.Ready? {
      SendFolds(config, Counted(s), q);
    } else {
      assert SameMaps(s, EnqueueOutbound(config, Counted(s), q));
    }
  }

  lemma StepKeepsFolds(config: Config, s: State, step: Step)
    requires MapsFold(s)
    ensures MapsFold(Next(config, s, step))
  {
    match step
    case Connect(requestFails) => StartFolds(config, s.(connected := true), ConnectReason(s), requestFails);
    case Emit(event, content, now) => EmitKeepsFolds(config, s, event, content, now);
    case Schemas(payload, now) => SchemasKeepsFolds(config, s, payload, now);
    case AwaitReady(timed, requestFails) => AwaitKeepsFolds(config, s, timed, requestFails);
    case _ => QuietKeepsFolds(config, s, step);
  }

  lemma AwaitKeepsFolds(config: Config, s: State, timed: bool, requestFails: bool)
    requires MapsFold(s)
    ensures MapsFold(AwaitingReady(config, s, timed, requestFails))
  {
    FoldsFrame(s, Waiting(s, timed));
    StartFolds(config, Waiting(s, timed), ConnectReason(s), requestFails);
  }

  lemma QuietKeepsFolds(config: Config, s: State, step: Step)
    requires MapsFold(s) && !step.Connect? && !step.Emit? && !step.Schemas? && !step.AwaitReady?
    ensures MapsFold(Next(config, s, step))
  {
    var next := Next(config, s, step);
    assert SameMaps(s, next);
    FoldsFrame(s, next);
  }

  lemma FoldsFrame(s: State, next: State)
    requires MapsFold(s) && SameMaps(s, next)
    ensures MapsFold(next)
  {
  }

  lemma StartFolds(config: Config, s: State, reason: Reason, requestFails: bool)
    requires MapsFold(s)
    ensures MapsFold(StartInitialization(config, s, reason, true, requestFails))
  {
    StartFrame(config, s, reason, true, requestFails);
    FoldsFrame(s, StartInitialization(config, s, reason, true, requestFails));
  }

  /** The last word of the log on a key: an entry that nothing has ended since. */
  function LastEntry(log: seq<Activity>, enter: Kind, exit: Kind, k: Str): Option<Activity>
    requires Keyed(log)
  {
    if log == [] then None
    else
      var a := log[|log| - 1];
      if a.key.value == k && a.kind == enter then Some(a)
      else if a.key.value == k && a.kind == exit then None
      else LastEntry(log[..|log| - 1], enter, exit, k)
  }

  lemma {:induction false} FoldMeans(log: seq<Activity>, enter: Kind, exit: Kind, k: Str)
    requires Keyed(log)
    ensures Get(Folded(log, enter, exit), k) == LastEntry(log, enter, exit, k)
  {
    if log != [] {
      var front, a := log[..|log| - 1], log[|log| - 1];
      FoldMeans(front, enter, exit, k);
      GetSet(Folded(front, enter, exit), a.key.value, a, k);
      GetDelete(Folded(front, enter, exit), a.key.value, k);
    }
  }

  lemma {:induction false} FoldDistinct(log: seq<Activity>, enter: Kind, exit: Kind)
    requires Keyed(log)
    ensures Distinct(Folded(log, enter, exit))
  {
    if log != [] {
      var front, a := log[..|log| - 1], log[|log| - 1];
      FoldDistinct(front, enter, exit);
      SetDistinct(Folded(front, enter, exit), a.key.value, a);
      DeleteDistinct(Folded(front, enter, exit), a.key.value);
    }
  }

  /** Where the current, uninterrupted presence of a key began. */
  function Since(log: seq<Activity>, enter: Kind, exit: Kind, k: Str): nat
    requires Keyed(log)
  {
    if log == [] then 0
    else
      var front, a := log[..|log| - 1], log[|log| - 1];
      if a.key.value == k && a.kind == enter && LastEntry(front, enter, exit, k).None? then |front|
      else Since(front, enter, exit, k)
  }

  function Beginnings(m: Replays, log: seq<Activity>, enter: Kind, exit: Kind): (r: seq<nat>)
    requires Keyed(log)
    ensures |r| == |m|
  {
    seq(|m|, i requires 0 <= i < |m| => Since(log, enter, exit, m[i].key))
  }

  /** The keys that stay keep their beginnings. */
  lemma BeginningsKept(m: Replays, kept: Replays, log: seq<Activity>, enter: Kind, exit: Kind)
    requires Keyed(log) && log != [] && |kept| == |m| && forall i | 0 <= i < |m| :: kept[i].key == m[i].key
    requires var front, a := log[..|log| - 1], log[|log| - 1];
      a.kind != enter || LastEntry(front, enter, exit, a.key.value).Some?
        || forall i | 0 <= i < |m| :: m[i].key != a.key.value
    ensures Beginnings(kept, log, enter, exit) == Beginnings(m, log[..|log| - 1], enter, exit)
  {
    forall i | 0 <= i < |m|
      ensures Since(log, enter, exit, kept[i].key) == Since(log[..|log| - 1], enter, exit, m[i].key) {
    }
  }

  lemma EnteredOrdered(m: Replays, log: seq<Activity>, enter: Kind, exit: Kind)
    requires Keyed(log) && log != [] && log[|log| - 1].kind == enter && Distinct(m)
    requires var front, k := log[..|log| - 1], log[|log| - 1].key.value;
      && Get(m, k) == LastEntry(front, enter, exit, k)
      && Increasing(Beginnings(m, front, enter, exit)) && Below(Beginnings(m, front, enter, exit), |front|)
    ensures var begun := Beginnings(Set(m, log[|log| - 1].key.value, log[|log| - 1]), log, enter, exit);
      Increasing(begun) && Below(begun, |log|)
  {
    var front, a := log[..|log| - 1], log[|log| - 1];
    var k := a.key.value;
    var was := Beginnings(m, front, enter, exit);
    if Get(m, k).None? {
      SetAbsent(m, k, a);
      BeginningsKept(m, m, log, enter, exit);
      assert Beginnings(m + [Entry(k, a)], log, enter, exit) == was + [|front|];
      AppendOne(was, |front|);
    } else {
      var i :| 0 <= i < |m| && m[i].key == k;
      SetPresent(m, i, a);
      BeginningsKept(m, m[i := Entry(k, a)], log, enter, exit);
    }
  }

  lemma LeftOrdered(m: Replays, log: seq<Activity>, enter: Kind, exit: Kind)
    requires Keyed(log) && log != [] && enter != exit && log[|log| - 1].kind == exit && Distinct(m)
    requires var was := Beginnings(m, log[..|log| - 1], enter, exit); Increasing(was) && Below(was, |log| - 1)
    ensures var begun := Beginnings(Delete(m, log[|log| - 1].key.value), log, enter, exit);
      Increasing(begun) && Below(begun, |log|)
  {
    var k := log[|log| - 1].key.value;
    var was := Beginnings(m, log[..|log| - 1], enter, exit);
    BeginningsKept(m, m, log, enter, exit);
    if Get(m, k).None? {
      DeleteAbsent(m, k);
    } else {
      var i :| 0 <= i < |m| && m[i].key == k;
      DeleteAt(m, i);
      BeginningsDrop(m, i, log, enter, exit);
      DropAt(was, i, |log| - 1);
    }
  }

  lemma BeginningsDrop(m: Replays, i: nat, log: seq<Activity>, enter: Kind, exit: Kind)
    requires Keyed(log) && i < |m|
    ensures var b := Beginnings(m, log, enter, exit);
      Beginnings(m[..i] + m[i + 1..], log, enter, exit) == b[..i] + b[i + 1..]
  {
  }

  lemma DropAt(b: seq<nat>, i: nat, bound: nat)
    requires i < |b| && Increasing(b) && Below(b, bound)
    ensures Increasing(b[..i] + b[i + 1..]) && Below(b[..i] + b[i + 1..], bound)
  {
    assert b == b[..i] + ([b[i]] + b[i + 1..]);
    DropFromMiddle(b[..i], b[i], b[i + 1..]);
    BelowMoves(b[..i], b[i], b[i + 1..], bound);
  }

  /** Replay order: keys come in the order in which their current presence began. */
  lemma {:induction false} FoldOrdered(log: seq<Activity>, enter: Kind, exit: Kind)
    requires Keyed(log) && enter != exit
    ensures var begun := Beginnings(Folded(log, enter, exit), log, enter, exit);
      Increasing(begun) && Below(begun, |log|)
  {
    if log != [] {
      var front, a := log[..|log| - 1], log[|log| - 1];
      var m := Folded(front, enter, exit);
      FoldOrdered(front, enter, exit);
      FoldDistinct(front, enter, exit);
      FoldMeans(front, enter, exit, a.key.value);
      if a.kind == enter {
        EnteredOrdered(m, log, enter, exit);
      } else if a.kind == exit {
        LeftOrdered(m, log, enter, exit);
      } else {
        BeginningsKept(m, m, log, enter, exit);
      }
    }
  }

  // ---------- what a flush does ----------

  datatype Fate = Deliver(wire: Wire) | Complain(message: string)

  /** What becomes of a queued emission: nothing sent before it makes a difference. */
  function FateOf(config: Config, applied: nat, connected: bool, q: Queued, now: int): Fate {
    if now - q.enqueuedAt > config.maxQueuedAgeMs then Complain(EXPIRED) else FateSent(config, applied, connected, q)
  }

  /** What becomes of an emission that is sent on at once. */
  function FateSent(config: Config, applied: nat, connected: bool, q: Queued): Fate {
    if q.event.Named? then
      var refusal := config.refuses(q.event.name);
      if refusal.Some? then Complain(refusal.value) else Deliver(Forwarded(q.sequence, q.event, q.content, None))
    else
      match config.prepare(applied, q.event, q.content)
      case Rejected(message) => Complain(message)
      case Accepted(a) =>
        if (if q.event.Credentials? then a.holdsCredentials else connected) && a.key.None? then Complain(NO_ACTOR)
        else Deliver(Forwarded(q.sequence, q.event, q.content, Some(a)))
  }

  function Delivered(config: Config, applied: nat, connected: bool, queue: seq<Queued>, now: int): seq<Wire> {
    if queue == [] then []
    else
      var q := queue[|queue| - 1];
      var fate := FateOf(config, applied, connected, q, now);
      Delivered(config, applied, connected, queue[..|queue| - 1], now) + if fate.Deliver? then [fate.wire] else []
  }

  function Complaints(config: Config, applied: nat, connected: bool, queue: seq<Queued>, now: int): seq<Report> {
    if queue == [] then []
    else
      var q := queue[|queue| - 1];
      var fate := FateOf(config, applied, connected, q, now);
      Complaints(config, applied, connected, queue[..|queue| - 1], now)
        + if fate.Complain? then [Report(q.sequence, fate.message)] else []
  }

  lemma FlushOneFate(config: Config, s: State, q: Queued, now: int)
    ensures var next := FlushOne(config, s, q, now);
      var fate := FateOf(config, s.applied, s.connected, q, now);
      && next.wire == s.wire + (if fate.Deliver? then [fate.wire] else [])
      && next.reports == s.reports + (if fate.Complain? then [Report(q.sequence, fate.message)] else [])
  {
    if Expired(config, q, now) {
      assert s.wire + [] == s.wire;
    } else {
      SendFate(config, s, q);
    }
  }

  lemma SendFate(config: Config, s: State, q: Queued)
    ensures var next := SendOutbound(config, s, q);
      match FateSent(config, s.applied, s.connected, q)
      case Deliver(w) => next.wire == s.wire + [w] && next.reports == s.reports
      case Complain(message) => next.wire == s.wire && next.reports == s.reports + [Report(q.sequence, message)]
  {
  }

  /** A flush delivers and reports its entries independently, in order. */
  lemma {:induction false} FlushAllFates(config: Config, s: State, queue: seq<Queued>, now: int)
    ensures var next := FlushAll(config, s, queue, now);
      && next.wire == s.wire + Delivered(config, s.applied, s.connected, queue, now)
      && next.reports == s.reports + Complaints(config, s.applied, s.connected, queue, now)
  {
    if queue != [] {
      var front, q := queue[..|queue| - 1], queue[|queue| - 1];
      FlushAllFates(config, s, front, now);
      FlushAllSession(config, s, front, now);
      FlushOneFate(config, FlushAll(config, s, front, now), q, now);
    }
  }

  /** Emission times do not go back. */
  predicate AgesSorted(queue: seq<Queued>) {
    forall i, j | 0 <= i < j < |queue| :: queue[i].enqueuedAt <= queue[j].enqueuedAt
  }

  lemma {:induction false} DeliveredConcat(config: Config, applied: nat, connected: bool, a: seq<Queued>,
      b: seq<Queued>, now: int)
    ensures Delivered(config, applied, connected, a + b, now)
         == Delivered(config, applied, connected, a, now) + Delivered(config, applied, connected, b, now)
    ensures Complaints(config, applied, connected, a + b, now)
         == Complaints(config, applied, connected, a, now) + Complaints(config, applied, connected, b, now)
  {
    if b == [] {
      assert a + b == a;
    } else {
      var last := |b| - 1;
      DeliveredConcat(config, applied, connected, a, b[..last], now);
      assert (a + b)[..|a + b| - 1] == a + b[..last];
    }
  }

  function ExpiryReports(queue: seq<Queued>): (r: seq<Report>)
    ensures |r| == |queue|
  {
    seq(|queue|, i requires 0 <= i < |queue| => Report(queue[i].sequence, EXPIRED))
  }

  lemma {:induction false} AllExpired(config: Config, applied: nat, connected: bool, queue: seq<Queued>, now: int)
    requires forall i | 0 <= i < |queue| :: Expired(config, queue[i], now)
    ensures Delivered(config, applied, connected, queue, now) == []
    ensures Complaints(config, applied, connected, queue, now) == ExpiryReports(queue)
  {
    if queue != [] {
      AllExpired(config, applied, connected, queue[..|queue| - 1], now);
    }
  }

  lemma {:induction false} FindCut(config: Config, queue: seq<Queued>, now: int) returns (cut: nat)
    requires AgesSorted(queue)
    ensures cut <= |queue|
    ensures forall i | 0 <= i < |queue| :: Expired(config, queue[i], now) <==> i < cut
    decreases |queue|
  {
    if queue == [] || Expired(config, queue[|queue| - 1], now) {
      cut := |queue|;
    } else {
      cut := FindCut(config, queue[..|queue| - 1], now);
    }
  }

  // ---------- reaching ready ----------

  /** An "unchanged" answer that finds a registry to go on with. */
  predicate Reuses(s: State, payload: Payload) {
    payload.Payload? && payload.same && Fingerprint(s).Some? && s.registry.value.platforms > 0
  }

  /** The state a payload calls `markReady` in, if it does. */
  function Source(s: State, payload: Payload): Option<State> {
    if payload.NotAnObject? then None
    else if Reuses(s, payload) then if s.cycle.Some? || !s.init.Ready? then Some(s) else None
    else if SameRegistry(s, payload) || payload.registry.None? then None
    else Some(Applied(s, payload))
  }

  function ReasonNow(s: State): Reason {
    if s.cycle.Some? then s.cycle.value.reason else SchemasUpdate
  }

  /** Does the payload complete initialisation? */
  predicate Completes(s: State, payload: Payload) {
    Source(s, payload).Some? && ReadyInfoFor(Source(s, payload).value, ReasonNow(s)).Some?
  }

  /** It is taken for a registry but lacks the version or a context. */
  predicate Spoils(s: State, payload: Payload) {
    Source(s, payload).Some? && ReadyInfoFor(Source(s, payload).value, ReasonNow(s)).None?
  }

  function AllReplays(config: Config, s: State): seq<Wire> {
    ReplayAll(config, Credentials, s.credentials) + ReplayAll(config, Message, s.connects)
      + ReplayAll(config, Message, s.joins)
  }

  lemma MarkReadyReplays(config: Config, s: State, from: State, now: int)
    requires Increasing(Seqs(s.queue)) && s.connected && (s.cycle.Some? ==> s.cycle.value.replayOnReady)
    requires from == s.(registry := from.registry, applied := from.applied, init := from.init)
    requires ReadyInfoFor(from, ReasonNow(s)).Some?
    ensures var next := MarkReady(config, from, ReasonNow(s), now);
      && next.init.Ready? && next.queue == [] && next.applied == from.applied
      && next.wire == s.wire + (if s.cycle.Some? then AllReplays(config, s) else [])
           + Delivered(config, from.applied, true, s.queue, now)
      && next.reports == s.reports + Complaints(config, from.applied, true, s.queue, now)
  {
    var info := ReadyInfoFor(from, ReasonNow(s)).value;
    var announced := Announced(from, info);
    var replayed := if s.cycle.Some? then ReplayedState(config, announced) else announced;
    SortIsIdentity(s.queue);
    FlushAllFates(config, replayed.(queue := []), s.queue, now);
    FlushAllSession(config, replayed.(queue := []), s.queue, now);
    if s.cycle.Some? {
      LeftNested(s.wire, ReplayAll(config, Credentials, s.credentials), ReplayAll(config, Message, s.connects),
        ReplayAll(config, Message, s.joins));
      ConcatAssociates(ReplayAll(config, Credentials, s.credentials), ReplayAll(config, Message, s.connects),
        ReplayAll(config, Message, s.joins));
    }
  }

  lemma SchemasIsMarkReady(config: Config, s: State, payload: Payload, now: int)
    requires Source(s, payload).Some?
    ensures SchemasPayload(config, s, payload, now) == MarkReady(config, Source(s, payload).value, ReasonNow(s), now)
  {
  }

  /**
   Reaching ready empties the queue, oldest first. With a cycle running, as
   after every reconnect, credentials, connects and joins go out before it,
   each map in its order.
   */
  lemma ReadyReplays(config: Config, s: State, payload: Payload, now: int)
    requires Good(config, s) && s.connected && Completes(s, payload)
    ensures var next := SchemasPayload(config, s, payload, now);
      && next.init.Ready? && next.queue == []
      && next.wire == s.wire + (if s.cycle.Some? then AllReplays(config, s) else [])
           + Delivered(config, next.applied, true, s.queue, now)
      && next.reports == s.reports + Complaints(config, next.applied, true, s.queue, now)
  {
    SchemasIsMarkReady(config, s, payload, now);
    SourceShape(s, payload);
    MarkReadyReplays(config, s, Source(s, payload).value, now);
  }

  lemma SourceShape(s: State, payload: Payload)
    requires Source(s, payload).Some?
    ensures var from := Source(s, payload).value;
      from == s.(registry := from.registry, applied := from.applied, init := from.init)
  {
  }

  lemma SchemasLosesReplay(config: Config, s: State, payload: Payload, now: int)
    requires Good(config, s) && s.connected && s.cycle.Some?
    ensures var next := SchemasPayload(config, s, payload, now);
      next.cycle.None? && !next.init.Ready? <==> Spoils(s, payload)
  {
    if Completes(s, payload) {
      ReadyReplays(config, s, payload, now);
    } else if Source(s, payload).Some? {
      SchemasIsMarkReady(config, s, payload, now);
    } else {
      assert SchemasPayload(config, s, payload, now).cycle == s.cycle;
    }
  }

  lemma EmitKeepsCycle(config: Config, s: State, event: Event, content: int, now: int)
    ensures PublicEmit(config, s, event, content, now).cycle == s.cycle
  {
    SendDisposes(config, Counted(s), Queued(event, content, now, s.sequence));
  }

  /** A running cycle ends short of ready, its replay lost, exactly when a payload spoils it. */
  lemma ReplayLostExactly(config: Config, s: State, step: Step)
    requires Good(config, s) && s.cycle.Some? && Enabled(s, step)
    ensures var next := Next(config, s, step);
      next.cycle.None? && !next.init.Ready? <==> step.Schemas? && Spoils(s, step.payload)
  {
    match step
    case Emit(event, content, now) => EmitKeepsCycle(config, s, event, content, now);
    case Schemas(payload, now) => SchemasLosesReplay(config, s, payload, now);
    case _ => assert Next(config, s, step).cycle.Some?;
  }

  /** After a spoilt cycle the next good payload makes the client ready, and nothing is replayed. */
  lemma SpoiltCycleSkipsReplay(config: Config, s: State, spoilt: Payload, good: Payload, now: int)
    requires Good(config, s) && s.connected && s.cycle.Some? && Spoils(s, spoilt)
    requires Completes(SchemasPayload(config, s, spoilt, now), good)
    ensures var next := SchemasPayload(config, SchemasPayload(config, s, spoilt, now), good, now);
      next.init.Ready? && next.wire == s.wire + Delivered(config, next.applied, true, s.queue, now)
  {
    var mid := SchemasPayload(config, s, spoilt, now);
    StepGood(config, s, Schemas(spoilt, now));
    SchemasIsMarkReady(config, s, spoilt, now);
    ReadyReplays(config, mid, good, now);
    assert s.wire + [] == s.wire;
  }

  // ---------- every run ----------

  ghost predicate Good(config: Config, s: State) {
    Queueing(config, s) && Session(s) && WaitersKept(s) && MapsFold(s) && Increasing(Seqs(s.queue))
  }

  lemma QueueIncreasing(config: Config, s: State)
    requires Queueing(config, s)
    ensures Increasing(Seqs(s.queue))
  {
    TailIncreasing(SentSeqs(s.wire), Seqs(s.queue));
  }

  lemma StartGood(config: Config)
    ensures Good(config, START)
  {
    assert Upto(0) == [] && Seqs([]) == [] && WaiterIds([]) == [] && SettledIds([]) == [] && ReportedSeqs([]) == [];
  }

  lemma StepGood(config: Config, s: State, step: Step)
    requires Good(config, s) && Enabled(s, step)
    ensures Good(config, Next(config, s, step))
  {
    StepKeepsQueueing(config, s, step);
    StepKeepsSession(config, s, step);
    StepKeepsWaiters(config, s, step);
    StepKeepsFolds(config, s, step);
    QueueIncreasing(config, Next(config, s, step));
  }

  lemma {:induction false} RunGood(config: Config, s: State, steps: seq<Step>)
    requires Good(config, s) && Allowed(config, s, steps)
    ensures Good(config, After(config, s, steps))
    decreases |steps|
  {
    if steps != [] {
      StepGood(config, s, steps[0]);
      RunGood(config, Next(config, s, steps[0]), steps[1..]);
    }
  }

  /** Sent once, reported once or still queued: every emission has exactly one of these fates, in every run. */
  lemma OneFateEach(config: Config, steps: seq<Step>, n: nat)
    requires Allowed(config, START, steps)
    ensures var s := After(config, START, steps);
      multiset(SentSeqs(s.wire))[n] + multiset(ReportedSeqs(s.reports))[n] + multiset(Seqs(s.queue))[n]
        == if n < s.sequence then 1 else 0
  {
    StartGood(config);
    RunGood(config, START, steps);
    InUpto(After(config, START, steps).sequence, n);
  }

  /** Emissions leave in emission order over the whole run, and those still queued come after all that were sent. */
  lemma SentInOrder(config: Config, steps: seq<Step>)
    requires Allowed(config, START, steps)
    ensures var s := After(config, START, steps);
      Increasing(SentSeqs(s.wire) + Seqs(s.queue)) && |s.queue| <= Limit(config) && SortQueued(s.queue) == s.queue
  {
    StartGood(config);
    RunGood(config, START, steps);
    SortIsIdentity(After(config, START, steps).queue);
  }

  /** Ready means done: no cycle, no timer, no waiter, nothing queued, and the info is there. */
  lemma ReadyIsSettled(config: Config, steps: seq<Step>)
    requires Allowed(config, START, steps)
    ensures var s := After(config, START, steps);
      && Session(s)
      && forall token | token != s.tokens :: InitTimeout(s, token) == s
  {
    StartGood(config);
    RunGood(config, START, steps);
  }

  /** Each call of ready() is waiting or was settled exactly once. */
  lemma WaitersSettledOnce(config: Config, steps: seq<Step>, id: nat)
    requires Allowed(config, START, steps)
    ensures var s := After(config, START, steps);
      multiset(WaiterIds(s.waiters))[id] + multiset(SettledIds(s.settled))[id] == if id < s.nextWaiter then 1 else 0
  {
    StartGood(config);
    RunGood(config, START, steps);
    InUpto(After(config, START, steps).nextWaiter, id);
  }

  // ---------- a lost replay ----------

  lemma StepFirst(config: Config, s: State, step: Step, rest: seq<Step>)
    requires Enabled(s, step) && Allowed(config, Next(config, s, step), rest)
    ensures Allowed(config, s, [step] + rest)
      && After(config, s, [step] + rest) == After(config, Next(config, s, step), rest)
  {
    assert ([step] + rest)[1..] == rest;
  }

  predicate NoReplay(wire: seq<Wire>) {
    forall i | 0 <= i < |wire| :: !wire[i].Replayed?
  }

  predicate Complete(r: Registry) {
    r.version != [] && r.asContext != [] && r.sockethubContext != []
  }

  function Loading(r: Registry): Payload {
    Payload(false, None, Some(r))
  }

  /** A complete registry makes a connected client with an empty queue ready. */
  lemma LoadsRegistry(config: Config, s: State, good: Registry, now: int)
    requires Complete(good) && s.queue == [] && s.connected && (s.cycle.Some? ==> s.cycle.value.replayOnReady)
    ensures var next := SchemasPayload(config, s, Loading(good), now);
      && next.init.Ready? && next.connected && next.cycle.None? && next.queue == []
      && next.applied == s.applied + 1 && next.joins == s.joins
      && next.wire == s.wire + if s.cycle.Some? then AllReplays(config, s) else []
  {
    var payload := Loading(good);
    SchemasIsMarkReady(config, s, payload, now);
    assert Increasing(Seqs(s.queue));
    MarkReadyReplays(config, s, Applied(s, payload), now);
    var info := ReadyInfoFor(Applied(s, payload), ReasonNow(s)).value;
    FlushAllSession(config, Announced(Applied(s, payload), info), [], now);
    assert Delivered(config, s.applied + 1, true, [], now) == [];
    var replays := if s.cycle.Some? then AllReplays(config, s) else [];
    assert s.wire + replays + [] == s.wire + replays;
  }

  /** An incomplete one ends the cycle in an error. */
  lemma SpoilsCycle(config: Config, s: State, spoilt: Registry, now: int)
    requires spoilt.version == [] && s.cycle.Some?
    ensures var next := SchemasPayload(config, s, Loading(spoilt), now);
      && next.init.InitError? && next.connected == s.connected && next.cycle.None? && next.queue == s.queue
      && next.joins == s.joins && next.wire == s.wire
  {
    SchemasIsMarkReady(config, s, Loading(spoilt), now);
  }

  /** Connecting for the first time and being ready at once. */
  lemma FirstReady(config: Config, good: Registry, now: int)
    requires Complete(good)
    ensures var ready := Next(config, Next(config, START, Connect(false)), Schemas(Loading(good), now));
      && Next(config, START, Connect(false)).connected
      && ready.init.Ready? && ready.connected && ready.cycle.None? && NoReplay(ready.wire)
      && ready.joins == [] && ready.applied == 1 && ready.queue == []
  {
    var up := Next(config, START, Connect(false));
    assert NoReplay(up.wire) && AllReplays(config, up) == [];
    LoadsRegistry(config, up, good, now);
    assert up.wire + [] == up.wire;
  }

  /** A message sent, the connection lost and back again. */
  lemma JoinThenReconnect(config: Config, s: State, content: int, a: Activity, now: int)
    requires s.init.Ready? && s.connected && s.cycle.None? && NoReplay(s.wire) && s.joins == [] && s.queue == []
    requires config.prepare(s.applied, Message, content) == Accepted(a) && a.kind.Join? && a.key.Some?
    ensures var joined := Next(config, s, Emit(Message, content, now));
      var back := Next(config, Next(config, joined, Disconnect), Connect(false));
      && back.connected && back.cycle.Some? && NoReplay(back.wire)
      && back.joins == [Entry(a.key.value, a)] && back.queue == []
  {
  }

  lemma SpoiltThenReady(config: Config, s: State, spoilt: Registry, good: Registry, now: int)
    requires s.connected && s.cycle.Some? && NoReplay(s.wire) && s.queue == []
    requires spoilt.version == [] && Complete(good)
    ensures var mid := Next(config, s, Schemas(Loading(spoilt), now));
      var end := Next(config, mid, Schemas(Loading(good), now));
      mid.connected && end.init.Ready? && end.connected && NoReplay(end.wire) && end.joins == s.joins
  {
    var mid := Next(config, s, Schemas(Loading(spoilt), now));
    SpoilsCycle(config, s, spoilt, now);
    LoadsRegistry(config, mid, good, now);
    assert mid.wire + [] == mid.wire;
  }

  lemma {:induction false} RunAppend(config: Config, s: State, front: seq<Step>, back: seq<Step>)
    requires Allowed(config, s, front) && Allowed(config, After(config, s, front), back)
    ensures Allowed(config, s, front + back)
      && After(config, s, front + back) == After(config, After(config, s, front), back)
    decreases |front|
  {
    if front == [] {
      assert front + back == back;
    } else {
      RunAppend(config, Next(config, s, front[0]), front[1..], back);
      TailOfConcat(front, back);
    }
  }

  lemma TwoSteps(config: Config, s: State, first: Step, second: Step)
    requires Enabled(s, first) && Enabled(Next(config, s, first), second)
    ensures Allowed(config, s, [first, second])
      && After(config, s, [first, second]) == Next(config, Next(config, s, first), second)
  {
    StepFirst(config, Next(config, s, first), second, []);
    StepFirst(config, s, first, [second] + []);
    assert [first, second] == [first] + ([second] + []);
  }

  lemma ThreeSteps(config: Config, s: State, first: Step, second: Step, third: Step)
    requires Enabled(s, first) && Enabled(Next(config, s, first), second)
    requires Enabled(Next(config, Next(config, s, first), second), third)
    ensures Allowed(config, s, [first, second, third])
    ensures After(config, s, [first, second, third])
      == Next(config, Next(config, Next(config, s, first), second), third)
  {
    TwoSteps(config, Next(config, s, first), second, third);
    StepFirst(config, s, first, [second, third]);
    assert [first, second, third] == [first] + [second, third];
  }

  /** The way from a ready client through a lost connection to a cycle. */
  lemma ReconnectRun(config: Config, s: State, content: int, a: Activity, now: int) returns (steps: seq<Step>)
    requires s.init.Ready? && s.connected && s.cycle.None? && NoReplay(s.wire) && s.joins == [] && s.queue == []
    requires config.prepare(s.applied, Message, content) == Accepted(a) && a.kind.Join? && a.key.Some?
    ensures Allowed(config, s, steps)
    ensures var back := After(config, s, steps);
      && back.connected && back.cycle.Some? && NoReplay(back.wire)
      && back.joins == [Entry(a.key.value, a)] && back.queue == []
  {
    JoinThenReconnect(config, s, content, a, now);
    ThreeSteps(config, s, Emit(Message, content, now), Disconnect, Connect(false));
    steps := [Emit(Message, content, now), Disconnect, Connect(false)];
  }

  lemma FirstReadyRun(config: Config, good: Registry, now: int) returns (steps: seq<Step>)
    requires Complete(good)
    ensures Allowed(config, START, steps)
    ensures var ready := After(config, START, steps);
      && ready.init.Ready? && ready.connected && ready.cycle.None? && NoReplay(ready.wire)
      && ready.joins == [] && ready.applied == 1 && ready.queue == []
  {
    FirstReady(config, good, now);
    TwoSteps(config, START, Connect(false), Schemas(Loading(good), now));
    steps := [Connect(false), Schemas(Loading(good), now)];
  }

  lemma SpoiltRun(config: Config, s: State, spoilt: Registry, good: Registry, now: int) returns (steps: seq<Step>)
    requires s.connected && s.cycle.Some? && NoReplay(s.wire) && s.queue == []
    requires spoilt.version == [] && Complete(good)
    ensures Allowed(config, s, steps)
    ensures var end := After(config, s, steps);
      end.init.Ready? && end.connected && NoReplay(end.wire) && end.joins == s.joins
  {
    SpoiltThenReady(config, s, spoilt, good, now);
    TwoSteps(config, s, Schemas(Loading(spoilt), now), Schemas(Loading(good), now));
    steps := [Schemas(Loading(spoilt), now), Schemas(Loading(good), now)];
  }

  /** A run in which a join is stored, the connection drops, and the client is ready again without rejoining. */
  lemma LostReplayHappens(config: Config, good: Registry, spoilt: Registry, content: int, a: Activity, now: int)
      returns (steps: seq<Step>)
    requires Complete(good) && spoilt.version == []
    requires config.prepare(1, Message, content) == Accepted(a) && a.kind.Join? && a.key.Some?
    ensures Allowed(config, START, steps)
    ensures var s := After(config, START, steps);
      s.init.Ready? && s.connected && s.joins == [Entry(a.key.value, a)] && NoReplay(s.wire)
  {
    var first := FirstReadyRun(config, good, now);
    var ready := After(config, START, first);
    var second := ReconnectRun(config, ready, content, a, now);
    var back := After(config, ready, second);
    var third := SpoiltRun(config, back, spoilt, good, now);
    RunAppend(config, ready, second, third);
    RunAppend(config, START, first, second + third);
    steps := first + (second + third);
  }

  // ---------- the log is what was sent ----------

  /** The activities of the messages handed to the underlying socket, in order. */
  function SentMessages(wire: seq<Wire>): seq<Activity> {
    if wire == [] then []
    else
      var last := wire[|wire| - 1];
      SentMessages(wire[..|wire| - 1])
        + if last.Forwarded? && last.event.Message? && last.activity.Some? then [last.activity.value] else []
  }

  ghost predicate LogIsSent(s: State) {
    SentMessages(s.wire) == s.log
  }

  lemma MessageAppended(wire: seq<Wire>, w: Wire)
    ensures SentMessages(wire + [w]) == SentMessages(wire)
      + if w.Forwarded? && w.event.Message? && w.activity.Some? then [w.activity.value] else []
  {
    assert (wire + [w])[..|wire|] == wire;
  }

  lemma {:induction false} NoMessages(wire: seq<Wire>, more: seq<Wire>)
    requires forall i | 0 <= i < |more| :: !more[i].Forwarded?
    ensures SentMessages(wire + more) == SentMessages(wire)
  {
    if more == [] {
      assert wire + more == wire;
    } else {
      var last := |more| - 1;
      NoMessages(wire, more[..last]);
      assert wire + more == (wire + more[..last]) + [more[last]];
      MessageAppended(wire + more[..last], more[last]);
    }
  }

  /** A forwarded emission is logged when it is a message with an activity. */
  lemma ForwardLogs(s: State, mid: State, q: Queued, activity: Option<Activity>)
    requires LogIsSent(s) && mid.wire == s.wire
    requires mid.log == s.log + if q.event.Message? && activity.Some? then [activity.value] else []
    ensures LogIsSent(Forward(mid, q, activity))
  {
    MessageAppended(s.wire, Forwarded(q.sequence, q.event, q.content, activity));
  }

  lemma SendLogs(config: Config, s: State, q: Queued)
    requires LogIsSent(s) && s.connected
    ensures LogIsSent(SendOutbound(config, s, q))
  {
    if q.event.Named? {
      ForwardLogs(s, s, q, None);
      var refusal := config.refuses(q.event.name);
      assert refusal.Some? ==> LogIsSent(Reported(s, q, refusal.value));
    } else {
      match config.prepare(s.applied, q.event, q.content)
      case Rejected(message) => assert LogIsSent(Reported(s, q, message));
      case Accepted(a) =>
        if !Stores(s, q.event, a) {
          ForwardLogs(s, s, q, Some(a));
        } else if a.key.None? {
          assert LogIsSent(Reported(s, q, NO_ACTOR));
        } else {
          ForwardLogs(s, Stored(s, q.event, a), q, Some(a));
        }
    }
  }

  lemma {:induction false} FlushLogs(config: Config, s: State, queue: seq<Queued>, now: int)
    requires LogIsSent(s) && s.connected
    ensures LogIsSent(FlushAll(config, s, queue, now))
  {
    if queue != [] {
      var front, q := queue[..|queue| - 1], queue[|queue| - 1];
      FlushLogs(config, s, front, now);
      FlushAllSession(config, s, front, now);
      SendLogs(config, FlushAll(config, s, front, now), q);
    }
  }

  lemma ReplayLogsNothing(config: Config, s: State)
    requires LogIsSent(s)
    ensures LogIsSent(ReplayedState(config, s))
  {
    var a, b, c := ReplayAll(config, Credentials, s.credentials), ReplayAll(config, Message, s.connects),
      ReplayAll(config, Message, s.joins);
    NoMessages(s.wire, a);
    NoMessages(s.wire + a, b);
    NoMessages(s.wire + a + b, c);
  }

  lemma MarkReadyLogs(config: Config, s: State, reason: Reason, now: int)
    requires LogIsSent(s) && s.connected
    ensures LogIsSent(MarkReady(config, s, reason, now))
  {
    var info := ReadyInfoFor(s, reason);
    if info.Some? {
      var announced := Announced(s, info.value);
      ReplayLogsNothing(config, announced);
      FlushLogs(config, announced.(queue := []), SortQueued(s.queue), now);
      FlushLogs(config, ReplayedState(config, announced).(queue := []), SortQueued(s.queue), now);
    }
  }

  lemma SchemasLogs(config: Config, s: State, payload: Payload, now: int)
    requires LogIsSent(s) && s.connected
    ensures LogIsSent(SchemasPayload(config, s, payload, now))
  {
    if Source(s, payload).Some? {
      SchemasIsMarkReady(config, s, payload, now);
      SourceShape(s, payload);
      MarkReadyLogs(config, Source(s, payload).value, ReasonNow(s), now);
    } else {
      UnappliedSchemas(config, s, payload, now);
    }
  }

  lemma EmitLogs(config: Config, s: State, event: Event, content: int, now: int)
    requires LogIsSent(s) && (s.init.Ready? ==> s.connected)
    ensures LogIsSent(PublicEmit(config, s, event, content, now))
  {
    if s.init.Ready? {
      SendLogs(config, Counted(s), Queued(event, content, now, s.sequence));
    }
  }

  lemma StartLogs(config: Config, s: State, reason: Reason, replay: bool, requestFails: bool)
    requires LogIsSent(s)
    ensures LogIsSent(StartInitialization(config, s, reason, replay, requestFails))
  {
    MessageAppended(s.wire, SchemasRequest(Fingerprint(s)));
    StartFrame(config, s, reason, replay, requestFails);
  }

  lemma StepLogs(config: Config, s: State, step: Step)
    requires LogIsSent(s) && Session(s) && Enabled(s, step)
    ensures LogIsSent(Next(config, s, step))
  {
    match step
    case Connect(requestFails) => StartLogs(config, s.(connected := true), ConnectReason(s), true, requestFails);
    case Emit(event, content, now) => EmitLogs(config, s, event, content, now);
    case Schemas(payload, now) => SchemasLogs(config, s, payload, now);
    case AwaitReady(timed, requestFails) => StartLogs(config, Waiting(s, timed), ConnectReason(s), true, requestFails);
    case _ =>
      QuietStep(config, s, step);
      assert SameMaps(s, Next(config, s, step));
  }

  lemma {:induction false} RunLogs(config: Config, s: State, steps: seq<Step>)
    requires Good(config, s) && LogIsSent(s) && Allowed(config, s, steps)
    ensures LogIsSent(After(config, s, steps))
    decreases |steps|
  {
    if steps != [] {
      StepGood(config, s, steps[0]);
      StepLogs(config, s, steps[0]);
      RunLogs(config, Next(config, s, steps[0]), steps[1..]);
    }
  }

  /**
   The replay maps hold, of the messages that went out, the last join without a
   later leave and the last connect without a later disconnect, in order.
   */
  lemma ReplayMapsMean(config: Config, steps: seq<Step>, k: Str)
    requires Allowed(config, START, steps)
    ensures var s := After(config, START, steps);
      var sent := SentMessages(s.wire);
      && Keyed(sent)
      && Get(s.joins, k) == LastEntry(sent, Join, Leave, k)
      && Get(s.connects, k) == LastEntry(sent, ConnectTo, DisconnectFrom, k)
      && Increasing(Beginnings(s.joins, sent, Join, Leave))
      && Increasing(Beginnings(s.connects, sent, ConnectTo, DisconnectFrom))
  {
    StartGood(config);
    RunGood(config, START, steps);
    RunLogs(config, START, steps);
    var s := After(config, START, steps);
    FoldMeans(s.log, Join, Leave, k);
    FoldMeans(s.log, ConnectTo, DisconnectFrom, k);
    FoldOrdered(s.log, Join, Leave);
    FoldOrdered(s.log, ConnectTo, DisconnectFrom);
  }

  // ---------- overflow ----------

  /** The queue holds the most recent emissions, without a gap: only older ones were ever dropped. */
  predicate Newest(queue: seq<Queued>, sequence: nat) {
    |queue| <= sequence && forall i | 0 <= i < |queue| :: queue[i].sequence == sequence - |queue| + i
  }

  lemma EmitKeepsNewest(config: Config, s: State, event: Event, content: int, now: int)
    requires Newest(s.queue, s.sequence) && (s.init.Ready? ==> s.queue == [])
    ensures var next := PublicEmit(config, s, event, content, now);
      && Newest(next.queue, next.sequence) && next.sequence == s.sequence + 1
      && (!s.init.Ready? ==> |next.queue| == if |s.queue| < config.maxQueuedOutbound then |s.queue| + 1 else |s.queue|)
  {
    var q := Queued(event, content, now, s.sequence);
    if s.init.Ready? {
      SendDisposes(config, Counted(s), q);
    } else {
      var queue := s.queue + [q];
      assert Newest(queue, s.sequence + 1);
      assert forall i | 0 <= i < |queue| - 1 :: queue[1..][i] == queue[i + 1];
    }
  }

  lemma StepKeepsNewest(config: Config, s: State, step: Step)
    requires Newest(s.queue, s.sequence) && (s.init.Ready? ==> s.queue == []) && |s.queue| <= Limit(config)
    ensures Newest(Next(config, s, step).queue, Next(config, s, step).sequence)
  {
    match step
    case Emit(event, content, now) => EmitKeepsNewest(config, s, event, content, now);
    case Schemas(payload, now) =>
      SchemasQueue(config, s, payload, now);
      SchemasSequence(config, s, payload, now);
    case Connect(requestFails) =>
    case AwaitReady(timed, requestFails) =>
    case _ => QuietStep(config, s, step);
  }

  lemma SchemasSequence(config: Config, s: State, payload: Payload, now: int)
    ensures SchemasPayload(config, s, payload, now).sequence == s.sequence
  {
    if Source(s, payload).Some? {
      SchemasIsMarkReady(config, s, payload, now);
      SourceShape(s, payload);
      MarkReadySequence(config, Source(s, payload).value, ReasonNow(s), now);
    } else {
      UnappliedSchemas(config, s, payload, now);
    }
  }

  lemma MarkReadySequence(config: Config, s: State, reason: Reason, now: int)
    ensures MarkReady(config, s, reason, now).sequence == s.sequence
  {
    var info := ReadyInfoFor(s, reason);
    if info.Some? {
      var announced := Announced(s, info.value);
      FlushAllSession(config, announced.(queue := []), SortQueued(s.queue), now);
      FlushAllSession(config, ReplayedState(config, announced).(queue := []), SortQueued(s.queue), now);
    }
  }

  lemma {:induction false} RunNewest(config: Config, s: State, steps: seq<Step>)
    requires Good(config, s) && Allowed(config, s, steps) && Newest(s.queue, s.sequence)
    ensures Newest(After(config, s, steps).queue, After(config, s, steps).sequence)
    decreases |steps|
  {
    if steps != [] {
      StepGood(config, s, steps[0]);
      StepKeepsNewest(config, s, steps[0]);
      RunNewest(config, Next(config, s, steps[0]), steps[1..]);
    }
  }

  /** In every run the queue is the newest stretch of emissions: overflow only ever dropped the oldest. */
  lemma QueueIsNewest(config: Config, steps: seq<Step>)
    requires Allowed(config, START, steps)
    ensures Newest(After(config, START, steps).queue, After(config, START, steps).sequence)
  {
    StartGood(config);
    RunNewest(config, START, steps);
  }

  // ---------- clocks ----------

  /** Emissions are stamped by a clock that starts at `clock` and does not go back. */
  predicate Paced(steps: seq<Step>, clock: int)
    decreases |steps|
  {
    steps == [] ||
    if steps[0].Emit? then steps[0].now >= clock && Paced(steps[1..], steps[0].now) else Paced(steps[1..], clock)
  }

  predicate Aged(queue: seq<Queued>, clock: int) {
    AgesSorted(queue) && forall i | 0 <= i < |queue| :: queue[i].enqueuedAt <= clock
  }

  lemma FlushedQueue(config: Config, s: State, now: int)
    ensures Flushed(config, s, now).queue == s.queue || Flushed(config, s, now).queue == []
  {
    if s.init.Ready? && s.queue != [] {
      FlushAllSession(config, s.(queue := []), SortQueued(s.queue), now);
    }
  }

  lemma MarkReadyQueue(config: Config, s: State, reason: Reason, now: int)
    ensures MarkReady(config, s, reason, now).queue == s.queue || MarkReady(config, s, reason, now).queue == []
  {
    var info := ReadyInfoFor(s, reason);
    if info.Some? {
      var announced := Announced(s, info.value);
      FlushedQueue(config, announced, now);
      FlushedQueue(config, ReplayedState(config, announced), now);
    }
  }

  lemma SchemasQueue(config: Config, s: State, payload: Payload, now: int)
    ensures SchemasPayload(config, s, payload, now).queue == s.queue
      || SchemasPayload(config, s, payload, now).queue == []
  {
    if Source(s, payload).Some? {
      SchemasIsMarkReady(config, s, payload, now);
      SourceShape(s, payload);
      MarkReadyQueue(config, Source(s, payload).value, ReasonNow(s), now);
    } else {
      UnappliedSchemas(config, s, payload, now);
    }
  }

  lemma EmitAges(config: Config, s: State, event: Event, content: int, now: int, clock: int)
    requires Aged(s.queue, clock) && now >= clock
    ensures Aged(PublicEmit(config, s, event, content, now).queue, now)
  {
    var q := Queued(event, content, now, s.sequence);
    if s.init.Ready? {
      SendDisposes(config, Counted(s), q);
    } else {
      assert Aged(s.queue + [q], now);
    }
  }

  lemma StepAges(config: Config, s: State, step: Step, clock: int)
    requires Aged(s.queue, clock) && (step.Emit? ==> step.now >= clock)
    ensures Aged(Next(config, s, step).queue, if step.Emit? then step.now else clock)
  {
    match step
    case Emit(event, content, now) => EmitAges(config, s, event, content, now, clock);
    case Schemas(payload, now) => SchemasQueue(config, s, payload, now);
    case Connect(requestFails) =>
    case AwaitReady(timed, requestFails) =>
    case _ => QuietStep(config, s, step);
  }

  lemma {:induction false} RunAges(config: Config, s: State, steps: seq<Step>, clock: int)
    requires Aged(s.queue, clock) && Paced(steps, clock)
    ensures AgesSorted(After(config, s, steps).queue)
    decreases |steps|
  {
    if steps != [] {
      StepAges(config, s, steps[0], clock);
      RunAges(config, Next(config, s, steps[0]), steps[1..], if steps[0].Emit? then steps[0].now else clock);
    }
  }

  /**
   In every run under such a clock, whenever a payload makes the client ready:
   a prefix of the queue is reported as expired, and of the rest everything the
   registry in force now accepts is sent.
   */
  lemma FlushReportsPrefix(config: Config, steps: seq<Step>, clock: int, payload: Payload, now: int) returns (cut: nat)
    requires Allowed(config, START, steps) && Paced(steps, clock)
    requires After(config, START, steps).connected && Completes(After(config, START, steps), payload)
    ensures var s := After(config, START, steps);
      var next := SchemasPayload(config, s, payload, now);
      && cut <= |s.queue|
      && (forall i | 0 <= i < |s.queue| :: now - s.queue[i].enqueuedAt > config.maxQueuedAgeMs <==> i < cut)
      && next.reports == s.reports
           + (ExpiryReports(s.queue[..cut]) + Complaints(config, next.applied, true, s.queue[cut..], now))
      && next.wire == s.wire + (if s.cycle.Some? then AllReplays(config, s) else [])
           + Delivered(config, next.applied, true, s.queue[cut..], now)
  {
    ReachedAged(config, steps, clock);
    var s := After(config, START, steps);
    cut := FlushOfState(config, s, payload, now);
  }

  lemma ReachedAged(config: Config, steps: seq<Step>, clock: int)
    requires Allowed(config, START, steps) && Paced(steps, clock)
    ensures Good(config, After(config, START, steps)) && AgesSorted(After(config, START, steps).queue)
  {
    StartGood(config);
    RunGood(config, START, steps);
    RunAges(config, START, steps, clock);
  }

  /** The same for any state that a run can reach. */
  lemma FlushOfState(config: Config, s: State, payload: Payload, now: int) returns (cut: nat)
    requires Good(config, s) && AgesSorted(s.queue) && s.connected && Completes(s, payload)
    ensures var next := SchemasPayload(config, s, payload, now);
      && cut <= |s.queue|
      && (forall i | 0 <= i < |s.queue| :: now - s.queue[i].enqueuedAt > config.maxQueuedAgeMs <==> i < cut)
      && next.reports == s.reports
           + (ExpiryReports(s.queue[..cut]) + Complaints(config, next.applied, true, s.queue[cut..], now))
      && next.wire == s.wire + (if s.cycle.Some? then AllReplays(config, s) else [])
           + Delivered(config, next.applied, true, s.queue[cut..], now)
  {
    var applied := SchemasPayload(config, s, payload, now).applied;
    ReadyReplays(config, s, payload, now);
    cut := PrefixExpires(config, applied, true, s.queue, now);
  }

  lemma PrefixExpires(config: Config, applied: nat, connected: bool, queue: seq<Queued>, now: int) returns (cut: nat)
    requires AgesSorted(queue)
    ensures cut <= |queue|
    ensures forall i | 0 <= i < |queue| :: now - queue[i].enqueuedAt > config.maxQueuedAgeMs <==> i < cut
    ensures Complaints(config, applied, connected, queue, now)
         == ExpiryReports(queue[..cut]) + Complaints(config, applied, connected, queue[cut..], now)
    ensures Delivered(config, applied, connected, queue, now)
         == Delivered(config, applied, connected, queue[cut..], now)
  {
    cut := FindCut(config, queue, now);
    var stale, rest := queue[..cut], queue[cut..];
    assert queue == stale + rest;
    DeliveredConcat(config, applied, connected, stale, rest, now);
    AllExpired(config, applied, connected, stale, now);
    assert [] + Delivered(config, applied, connected, rest, now) == Delivered(config, applied, connected, rest, now);
  }
}
