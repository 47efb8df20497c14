/**
 The credentials that a client replays: what the map holds in every run, and
 what exactly goes out when a reconnected client is ready again.
 */
module ClientReplays {
  import opened JsString
  import opened Results
  import opened JsMap
  import opened ClientState
  import opened ClientRuns

  // ---------- the credentials that went out ----------

  /** The activities of the credentials messages handed to the underlying socket that carry credentials, in order. */
  function SentCredentials(wire: seq<Wire>): seq<Activity> {
    if wire == [] then []
    else
      var last := wire[|wire| - 1];
      SentCredentials(wire[..|wire| - 1])
        + if last.Forwarded? && last.event.Credentials? && last.activity.Some? && last.activity.value.holdsCredentials
          then [last.activity.value] else []
  }

  /** How long the wire was when the credentials were last cleared. */
  function ClearedAt(config: Config, steps: seq<Step>): nat {
    if steps == [] then 0
    else
      var front := steps[..|steps| - 1];
      if steps[|steps| - 1].ClearCredentials? then |After(config, START, front).wire| else ClearedAt(config, front)
  }

  /** The last activity with a key. */
  function LastWith(sent: seq<Activity>, k: Str): Option<Activity> {
    if sent == [] then None
    else
      var last := sent[|sent| - 1];
      if last.key == Some(k) then Some(last) else LastWith(sent[..|sent| - 1], k)
  }

  /** Where a key was sent first. */
  function FirstWith(sent: seq<Activity>, k: Str): nat {
    if sent == [] || sent[0].key == Some(k) then 0 else 1 + FirstWith(sent[1..], k)
  }

  // ---------- the map as a fold ----------

  function Kept(m: Replays, sent: seq<Activity>): Replays {
    if sent == [] then m
    else
      var before := Kept(m, sent[..|sent| - 1]);
      var last := sent[|sent| - 1];
      if last.key.Some? then Set(before, last.key.value, last) else before
  }

  lemma {:induction false} SentConcat(a: seq<Wire>, b: seq<Wire>)
    ensures SentCredentials(a + b) == SentCredentials(a) + SentCredentials(b)
    decreases |b|
  {
    if b == [] {
      assert a + b == a;
    } else {
      var front := b[..|b| - 1];
      SentConcat(a, front);
      assert (a + b)[..|a + b| - 1] == a + front;
    }
  }

  lemma {:induction false} KeptConcat(m: Replays, a: seq<Activity>, b: seq<Activity>)
    ensures Kept(m, a + b) == Kept(Kept(m, a), b)
    decreases |b|
  {
    if b == [] {
      assert a + b == a;
    } else {
      var front := b[..|b| - 1];
      KeptConcat(m, a, front);
      assert (a + b)[..|a + b| - 1] == a + front;
    }
  }

  /** What a step puts on the wire is what it does to the map. */
  predicate Grows(s: State, next: State, more: seq<Wire>) {
    && next.wire == s.wire + more && Keyed(SentCredentials(more))
    && next.credentials == Kept(s.credentials, SentCredentials(more))
  }

  lemma GrowsTwice(s: State, mid: State, next: State, a: seq<Wire>, b: seq<Wire>)
    requires Grows(s, mid, a) && Grows(mid, next, b)
    ensures Grows(s, next, a + b)
  {
    SentConcat(a, b);
    KeptConcat(s.credentials, SentCredentials(a), SentCredentials(b));
    ConcatAssociates(s.wire, a, b);
  }

  lemma SentOne(w: Wire)
    ensures SentCredentials([w]) ==
      if w.Forwarded? && w.event.Credentials? && w.activity.Some? && w.activity.value.holdsCredentials
      then [w.activity.value] else []
  {
    assert [w][..0] == [];
  }

  lemma KeptOne(m: Replays, a: Activity)
    ensures Kept(m, [a]) == if a.key.Some? then Set(m, a.key.value, a) else m
  {
    assert [a][..0] == [];
  }

  lemma GrowsByNothing(s: State, next: State)
    requires next.wire == s.wire && next.credentials == s.credentials
    ensures Grows(s, next, [])
  {
  }

  lemma {:induction false} NoCredentials(more: seq<Wire>)
    requires forall i | 0 <= i < |more| :: !more[i].Forwarded?
    ensures SentCredentials(more) == []
  {
    if more != [] {
      NoCredentials(more[..|more| - 1]);
    }
  }

  lemma GrowsQuietly(s: State, next: State, more: seq<Wire>)
    requires forall i | 0 <= i < |more| :: !more[i].Forwarded?
    requires next.wire == s.wire + more && next.credentials == s.credentials
    ensures Grows(s, next, more)
  {
    NoCredentials(more);
  }

  /** `mid` has stored the activity already where the message stores one. */
  lemma ForwardGrows(s: State, mid: State, q: Queued, activity: Option<Activity>)
    requires mid.wire == s.wire
    requires if q.event.Credentials? && activity.Some? && activity.value.holdsCredentials
             then activity.value.key.Some?
               && mid.credentials == Set(s.credentials, activity.value.key.value, activity.value)
             else mid.credentials == s.credentials
    ensures Grows(s, Forward(mid, q, activity), [Forwarded(q.sequence, q.event, q.content, activity)])
  {
    SentOne(Forwarded(q.sequence, q.event, q.content, activity));
    if q.event.Credentials? && activity.Some? && activity.value.holdsCredentials {
      KeptOne(s.credentials, activity.value);
    }
  }

  lemma ReportGrows(s: State, q: Queued, message: string)
    ensures Grows(s, Reported(s, q, message), [])
  {
    GrowsByNothing(s, Reported(s, q, message));
  }

  lemma SendGrows(config: Config, s: State, q: Queued) returns (more: seq<Wire>)
    ensures Grows(s, SendOutbound(config, s, q), more)
  {
    more := [];
    if q.event.Named? {
      var refusal := config.refuses(q.event.name);
      if refusal.Some? {
        ReportGrows(s, q, refusal.value);
      } else {
        ForwardGrows(s, s, q, None);
        more := [Forwarded(q.sequence, q.event, q.content, None)];
      }
    } else {
      match config.prepare(s.applied, q.event, q.content)
      case Rejected(message) => ReportGrows(s, q, message);
      case Accepted(a) =>
        if !Stores(s, q.event, a) {
          ForwardGrows(s, s, q, Some(a));
          more := [Forwarded(q.sequence, q.event, q.content, Some(a))];
        } else if a.key.None? {
          ReportGrows(s, q, NO_ACTOR);
        } else {
          ForwardGrows(s, Stored(s, q.event, a), q, Some(a));
          more := [Forwarded(q.sequence, q.event, q.content, Some(a))];
        }
    }
  }

  lemma {:induction false} FlushGrows(config: Config, s: State, queue: seq<Queued>, now: int) returns (more: seq<Wire>)
    ensures Grows(s, FlushAll(config, s, queue, now), more)
    decreases |queue|
  {
    if queue == [] {
      more := [];
      GrowsByNothing(s, s);
    } else {
      var front, q := queue[..|queue| - 1], queue[|queue| - 1];
      var mid := FlushAll(config, s, front, now);
      var a := FlushGrows(config, s, front, now);
      var b := [];
      if Expired(config, q, now) {
        GrowsByNothing(mid, Reported(mid, q, EXPIRED));
      } else {
        b := SendGrows(config, mid, q);
      }
      GrowsTwice(s, mid, FlushOne(config, mid, q, now), a, b);
      more := a + b;
    }
  }

  lemma ReplayGrows(config: Config, s: State)
    ensures Grows(s, ReplayedState(config, s), AllReplays(config, s))
  {
    LeftNested(s.wire, ReplayAll(config, Credentials, s.credentials), ReplayAll(config, Message, s.connects),
      ReplayAll(config, Message, s.joins));
    ConcatAssociates(ReplayAll(config, Credentials, s.credentials), ReplayAll(config, Message, s.connects),
      ReplayAll(config, Message, s.joins));
    GrowsQuietly(s, ReplayedState(config, s), AllReplays(config, s));
  }

  lemma FlushedGrows(config: Config, s: State, now: int) returns (more: seq<Wire>)
    ensures Grows(s, Flushed(config, s, now), more)
  {
    if !s.init.Ready? || s.queue == [] {
      more := [];
      GrowsByNothing(s, s);
    } else {
      more := FlushGrows(config, s.(queue := []), SortQueued(s.queue), now);
    }
  }

  lemma MarkReadyGrows(config: Config, s: State, reason: Reason, now: int) returns (more: seq<Wire>)
    ensures Grows(s, MarkReady(config, s, reason, now), more)
  {
    var info := ReadyInfoFor(s, reason);
    if info.None? {
      more := [];
      GrowsByNothing(s, MarkReady(config, s, reason, now));
    } else {
      var announced := Announced(s, info.value);
      GrowsByNothing(s, announced);
      if s.cycle.Some? && s.cycle.value.replayOnReady {
        var replayed := ReplayedState(config, announced);
        ReplayGrows(config, announced);
        GrowsTwice(s, announced, replayed, [], AllReplays(config, announced));
        var rest := FlushedGrows(config, replayed, now);
        more := [] + AllReplays(config, announced) + rest;
        GrowsTwice(s, replayed, Flushed(config, replayed, now), [] + AllReplays(config, announced), rest);
      } else {
        var rest := FlushedGrows(config, announced, now);
        more := [] + rest;
        GrowsTwice(s, announced, Flushed(config, announced, now), [], rest);
      }
    }
  }

  lemma SchemasGrows(config: Config, s: State, payload: Payload, now: int) returns (more: seq<Wire>)
    ensures Grows(s, SchemasPayload(config, s, payload, now), more)
  {
    if Source(s, payload).Some? {
      SchemasIsMarkReady(config, s, payload, now);
      SourceShape(s, payload);
      more := MarkReadyGrows(config, Source(s, payload).value, ReasonNow(s), now);
    } else {
      UnappliedSchemas(config, s, payload, now);
      more := [];
      GrowsByNothing(s, SchemasPayload(config, s, payload, now));
    }
  }

  lemma StartGrows(config: Config, s: State, reason: Reason, replay: bool, requestFails: bool) returns (more: seq<Wire>)
    ensures Grows(s, StartInitialization(config, s, reason, replay, requestFails), more)
  {
    var next := StartInitialization(config, s, reason, replay, requestFails);
    more := if s.connected && config.pullsRegistry && !requestFails then [SchemasRequest(Fingerprint(s))] else [];
    GrowsQuietly(s, next, more);
  }

  lemma StepGrows(config: Config, s: State, step: Step) returns (more: seq<Wire>)
    requires !step.ClearCredentials?
    ensures Grows(s, Next(config, s, step), more)
  {
    match step
    case Connect(requestFails) => more :=
      StartGrows(config, s.(connected := true), ConnectReason(s), true, requestFails);
    case Emit(event, content, now) =>
      var q := Queued(event, content, now, s.sequence);
      if s.init.Ready? {
        more := SendGrows(config, Counted(s), q);
      } else {
        more := [];
        GrowsByNothing(s, Next(config, s, step));
      }
    case Schemas(payload, now) => more := SchemasGrows(config, s, payload, now);
    case AwaitReady(timed, requestFails) => more := AwaitGrows(config, s, timed, requestFails);
    case _ =>
      more := [];
      GrowsByNothing(s, Next(config, s, step));
  }

  lemma AwaitGrows(config: Config, s: State, timed: bool, requestFails: bool) returns (more: seq<Wire>)
    ensures Grows(s, AwaitingReady(config, s, timed, requestFails), more)
  {
    if !(s.init.Ready? && s.readyInfo.Some?) && s.connected && s.init.Idle? {
      more := StartGrows(config, Waiting(s, timed), ConnectReason(s), true, requestFails);
    } else {
      more := [];
      GrowsByNothing(s, AwaitingReady(config, s, timed, requestFails));
    }
  }

  // ---------- every run ----------

  ghost predicate HoldsSent(s: State, from: nat) {
    && from <= |s.wire| && Keyed(SentCredentials(s.wire[from..]))
    && s.credentials == Kept([], SentCredentials(s.wire[from..]))
  }

  lemma StepHolds(config: Config, s: State, step: Step, from: nat)
    requires HoldsSent(s, from) && !step.ClearCredentials?
    ensures HoldsSent(Next(config, s, step), from)
  {
    var next := Next(config, s, step);
    var more := StepGrows(config, s, step);
    assert next.wire[from..] == s.wire[from..] + more;
    SentConcat(s.wire[from..], more);
    KeptConcat([], SentCredentials(s.wire[from..]), SentCredentials(more));
  }

  lemma {:induction false} AfterSnoc(config: Config, s: State, steps: seq<Step>, step: Step)
    requires Allowed(config, s, steps + [step])
    ensures Allowed(config, s, steps) && Enabled(After(config, s, steps), step)
    ensures After(config, s, steps + [step]) == Next(config, After(config, s, steps), step)
    decreases |steps|
  {
    if steps == [] {
      assert [] + [step] == [step] && [step][1..] == [];
    } else {
      TailOfConcat(steps, [step]);
      AfterSnoc(config, Next(config, s, steps[0]), steps[1..], step);
    }
  }

  lemma {:induction false} RunHolds(config: Config, steps: seq<Step>)
    requires Allowed(config, START, steps)
    ensures HoldsSent(After(config, START, steps), ClearedAt(config, steps))
    decreases |steps|
  {
    if steps != [] {
      var front, step := steps[..|steps| - 1], steps[|steps| - 1];
      assert front + [step] == steps;
      AfterSnoc(config, START, front, step);
      var s := After(config, START, front);
      if step.ClearCredentials? {
        assert s.wire[|s.wire|..] == [];
      } else {
        RunHolds(config, front);
        StepHolds(config, s, step, ClearedAt(config, front));
      }
    }
  }

  // ---------- what the fold holds ----------

  lemma {:induction false} KeptHolds(sent: seq<Activity>, k: Str)
    requires Keyed(sent)
    ensures Get(Kept([], sent), k) == LastWith(sent, k) && Distinct(Kept([], sent))
  {
    if sent != [] {
      var front, last := sent[..|sent| - 1], sent[|sent| - 1];
      KeptHolds(front, k);
      GetSet(Kept([], front), last.key.value, last, k);
      SetDistinct(Kept([], front), last.key.value, last);
    }
  }

  predicate SentOrder(m: Replays, sent: seq<Activity>) {
    && (forall i | 0 <= i < |m| :: FirstWith(sent, m[i].key) < |sent|)
    && (forall i, j | 0 <= i < j < |m| :: FirstWith(sent, m[i].key) < FirstWith(sent, m[j].key))
  }

  lemma {:induction false} FirstAppended(sent: seq<Activity>, a: Activity, k: Str)
    ensures FirstWith(sent, k) <= |sent|
    ensures FirstWith(sent + [a], k) ==
      if FirstWith(sent, k) < |sent| || a.key == Some(k) then FirstWith(sent, k) else |sent| + 1
  {
    if sent != [] {
      FirstAppended(sent[1..], a, k);
      TailOfConcat(sent, [a]);
    } else {
      assert [] + [a] == [a] && [a][1..] == [];
    }
  }

  lemma {:induction false} FirstAbsent(sent: seq<Activity>, k: Str)
    requires LastWith(sent, k).None?
    ensures FirstWith(sent, k) == |sent|
  {
    if sent != [] {
      var front := sent[..|sent| - 1];
      FirstAbsent(front, k);
      FirstAppended(front, sent[|sent| - 1], k);
      assert front + [sent[|sent| - 1]] == sent;
    }
  }

  /** The map's order is the order in which its keys were sent first. */
  lemma {:induction false} KeptOrdered(sent: seq<Activity>)
    requires Keyed(sent)
    ensures SentOrder(Kept([], sent), sent)
  {
    if sent != [] {
      var front, last := sent[..|sent| - 1], sent[|sent| - 1];
      KeptOrdered(front);
      KeptHolds(front, last.key.value);
      assert front + [last] == sent;
      SetOrdered(Kept([], front), front, last);
    }
  }

  lemma SetOrdered(m: Replays, sent: seq<Activity>, a: Activity)
    requires a.key.Some? && SentOrder(m, sent) && (Get(m, a.key.value).None? ==> LastWith(sent, a.key.value).None?)
    ensures SentOrder(Set(m, a.key.value, a), sent + [a])
  {
    var k := a.key.value;
    SetKeys(m, k, a);
    forall i | 0 <= i < |m| ensures FirstWith(sent + [a], m[i].key) == FirstWith(sent, m[i].key) {
      FirstAppended(sent, a, m[i].key);
    }
    FirstAppended(sent, a, k);
    if Get(m, k).None? {
      FirstAbsent(sent, k);
    }
  }

  /** Setting keeps the keys in place, or appends a new one. */
  lemma {:induction false} SetKeys(m: Replays, k: Str, a: Activity)
    ensures var r := Set(m, k, a);
      && |r| == |m| + (if Get(m, k).Some? then 0 else 1)
      && (forall i | 0 <= i < |m| :: r[i].key == m[i].key)
      && (Get(m, k).None? ==> r[|m|].key == k)
  {
    if m != [] && m[0].key != k {
      SetKeys(m[1..], k, a);
    }
  }

  /**
   In every run the map holds, of the credentials sent since it was last
   cleared, the last ones for each key, in the order in which the keys were sent
   first.
   */
  lemma CredentialsMean(config: Config, steps: seq<Step>, k: Str)
    requires Allowed(config, START, steps)
    ensures var s := After(config, START, steps);
      && ClearedAt(config, steps) <= |s.wire|
      && var sent := SentCredentials(s.wire[ClearedAt(config, steps)..]);
      && Keyed(sent) && Distinct(s.credentials)
      && Get(s.credentials, k) == LastWith(sent, k)
      && SentOrder(s.credentials, sent)
  {
    RunHolds(config, steps);
    var s := After(config, START, steps);
    var sent := SentCredentials(s.wire[ClearedAt(config, steps)..]);
    KeptHolds(sent, k);
    KeptOrdered(sent);
  }

  // ---------- what a reconnected client sends first ----------

  /** The entries of a map, renormalised, one after the other from a place of the wire on. */
  predicate ReplayedFrom(config: Config, wire: seq<Wire>, from: nat, event: Event, m: Replays) {
    && from + |m| <= |wire|
    && forall i | 0 <= i < |m| :: wire[from + i] == Replayed(event, config.renormalize(m[i].value))
  }

  predicate OnlyForwarded(wire: seq<Wire>, from: nat) {
    forall i | from <= i < |wire| :: wire[i].Forwarded?
  }

  /** One map laid out between what came before and what comes after. */
  lemma Laid(config: Config, front: seq<Wire>, event: Event, m: Replays, rest: seq<Wire>)
    ensures ReplayedFrom(config, front + (ReplayAll(config, event, m) + rest), |front|, event, m)
  {
  }

  lemma AllLaid(config: Config, s: State, rest: seq<Wire>)
    requires forall i | 0 <= i < |rest| :: rest[i].Forwarded?
    ensures var wire := s.wire + AllReplays(config, s) + rest;
      var n, c, j := |s.wire| + |s.credentials|, |s.connects|, |s.joins|;
      && wire[..|s.wire|] == s.wire
      && ReplayedFrom(config, wire, |s.wire|, Credentials, s.credentials)
      && ReplayedFrom(config, wire, n, Message, s.connects)
      && ReplayedFrom(config, wire, n + c, Message, s.joins)
      && OnlyForwarded(wire, n + c + j)
  {
    var a, b := ReplayAll(config, Credentials, s.credentials), ReplayAll(config, Message, s.connects);
    var d := ReplayAll(config, Message, s.joins);
    var wire := s.wire + AllReplays(config, s) + rest;
    assert wire == s.wire + (a + (b + (d + rest)));
    assert wire == (s.wire + a) + (b + (d + rest));
    assert wire == (s.wire + a + b) + (d + rest);
    Laid(config, s.wire, Credentials, s.credentials, b + (d + rest));
    Laid(config, s.wire + a, Message, s.connects, d + rest);
    Laid(config, s.wire + a + b, Message, s.joins, rest);
  }

  /**
   When a payload completes the initialisation of a connected client, each
   stored activity goes out exactly once, renormalised and in map order:
   credentials, then connects, then joins; nothing comes before them and only the
   queue after them. Without a running cycle nothing is replayed.
   */
  lemma ReplaysEntryByEntry(config: Config, steps: seq<Step>, payload: Payload, now: int)
    requires Allowed(config, START, steps)
    requires After(config, START, steps).connected && Completes(After(config, START, steps), payload)
    ensures var s := After(config, START, steps);
      var wire := SchemasPayload(config, s, payload, now).wire;
      var n, c, j := |s.wire| + |s.credentials|, |s.connects|, |s.joins|;
      && |s.wire| <= |wire| && wire[..|s.wire|] == s.wire
      && if s.cycle.Some?
         then
           && ReplayedFrom(config, wire, |s.wire|, Credentials, s.credentials)
           && ReplayedFrom(config, wire, n, Message, s.connects)
           && ReplayedFrom(config, wire, n + c, Message, s.joins)
           && OnlyForwarded(wire, n + c + j)
         else OnlyForwarded(wire, |s.wire|)
  {
    var s := After(config, START, steps);
    StartGood(config);
    RunGood(config, START, steps);
    ReadyReplays(config, s, payload, now);
    var applied := SchemasPayload(config, s, payload, now).applied;
    AllForwarded(config, applied, s.queue, now);
    if s.cycle.Some? {
      AllLaid(config, s, Delivered(config, applied, true, s.queue, now));
    }
  }

  lemma {:induction false} AllForwarded(config: Config, applied: nat, queue: seq<Queued>, now: int)
    ensures forall i | 0 <= i < |Delivered(config, applied, true, queue, now)| ::
      Delivered(config, applied, true, queue, now)[i].Forwarded?
  {
    if queue != [] {
      AllForwarded(config, applied, queue[..|queue| - 1], now);
    }
  }
}
