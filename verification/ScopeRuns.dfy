/**
 Runs of the server seen through its session-derived scopes: sockets come and
 go, actions resolve a scope and remember it later (creating the worker is
 awaited in between), workers are renamed and shut down.
 */
module ScopeRuns {
  import opened JsString
  import opened Results
  import opened JsMap
  import opened JsonKey
  import opened Scopes

  /** A session's latest scope is kept per platform and actor. */
  datatype Seat = Seat(session: Str, platform: Str, actor: Str)

  /** A resolved scope on its way to `rememberAnonymousScope`. */
  datatype Ticket = Ticket(seat: Seat, scope: Str)

  datatype Server = Server(
    records: Records,
    address: map<Str, Option<Str>>,
    connected: set<Str>,
    held: map<Seat, Str>,
    waiting: multiset<Ticket>)

  datatype Step =
    | Connect(id: Str, from: Option<Str>)
    | Disconnect(id: Str)
    | Resolve(seat: Seat)
    | Commit(ticket: Ticket)
    | Shutdown(instanceId: Str)
    | Rename(platform: Str, actor: Str, scope: Str, next: Option<Str>)

  const START: Server := Server([], map[], {}, map[], multiset{})

  /** The normalised address of a session, known or not. */
  function Ip(s: Server, id: Str): Str {
    if id in s.address then NormalizeIp(s.address[id]) else []
  }

  function KeyOf(s: Server, seat: Seat): Str {
    ResumptionKey(seat.platform, seat.actor, Ip(s, seat.session))
  }

  /** The scope an action of this seat would be given now. */
  function ScopeNow(s: Server, seat: Seat): Str {
    var key := KeyOf(s, seat);
    if Ip(s, seat.session) != [] && Get(s.records, key).Some?
      && !Blocked(s.records, Some(s.connected), key, seat.session)
    then Get(s.records, key).value.scope else seat.session
  }

  lemma ScopeNowIsResolved(s: Server, seat: Seat)
    requires seat.session in s.address && seat.session != []
    ensures var r := AnonymousScope(s.records, Some(s.connected), seat.platform, seat.actor,
                                    Some(seat.session), Some(seat.session), s.address[seat.session]);
      r.Ok? && r.value.scope == ScopeNow(s, seat)
  {
    ResolveFrom(s.records, Some(s.connected), seat.platform, seat.actor, Some(seat.session), seat.session,
      s.address[seat.session]);
  }

  function RememberedFor(s: Server, t: Ticket): Records {
    var ip := Ip(s, t.seat.session);
    if ip == [] then s.records
    else Remembered(s.records, Some(s.connected), Resumption(KeyOf(s, t.seat), ip), t.scope,
                    InstanceId(t.seat.platform, t.seat.actor, t.scope), t.seat.session)
  }

  /** A socket id is never used again, and an action names an actor. */
  predicate Enabled(s: Server, step: Step) {
    match step
    case Connect(id, _) => id != [] && id !in s.address
    case Disconnect(id) => id in s.connected
    case Resolve(seat) => seat.session in s.connected && seat.actor != []
    case Commit(t) => t in s.waiting
    case Shutdown(_) => true
    case Rename(_, actor, _, _) => actor != []
  }

  function Next(s: Server, step: Step): Server {
    match step
    case Connect(id, from) => s.(address := s.address[id := from], connected := s.connected + {id})
    case Disconnect(id) => s.(connected := s.connected - {id})
    case Resolve(seat) => s.(waiting := s.waiting + multiset{Ticket(seat, ScopeNow(s, seat))})
    case Commit(t) =>
      s.(waiting := s.waiting - multiset{t}, held := s.held[t.seat := t.scope], records := RememberedFor(s, t))
    case Shutdown(instanceId) => s.(records := Forgotten(s.records, instanceId))
    case Rename(platform, actor, scope, next) => s.(records := Renamed(s, platform, actor, scope, next))
  }

  function Renamed(s: Server, platform: Str, actor: Str, scope: Str, next: Option<Str>): Records {
    var to := if Given(next) then InstanceId(platform, next.value, scope) else platform;
    Reassigned(s.records, s.records, InstanceId(platform, actor, scope), to, platform, next)
  }

  predicate Allowed(s: Server, steps: seq<Step>)
    decreases |steps|
  {
    steps == [] || (Enabled(s, steps[0]) && Allowed(Next(s, steps[0]), steps[1..]))
  }

  function After(s: Server, steps: seq<Step>): Server
    decreases |steps|
  {
    if steps == [] then s else After(Next(s, steps[0]), steps[1..])
  }

  // ---------- the property ----------

  predicate Holds(s: Server, id: Str, platform: Str, actor: Str, scope: Str) {
    id in s.connected && Seat(id, platform, actor) in s.held && s.held[Seat(id, platform, actor)] == scope
  }

  /** No two connected sessions were last given the same scope for one platform and actor. */
  ghost predicate Exclusive(s: Server) {
    forall t, u, platform, actor, scope ::
      Holds(s, t, platform, actor, scope) && Holds(s, u, platform, actor, scope) ==> t == u
  }

  /** A connected session that holds the scope of a record is the one the record names. */
  ghost predicate Owned(s: Server) {
    forall u, platform, actor, ip :: OwnedAt(s, u, platform, actor, ip)
  }

  predicate OwnedAt(s: Server, u: Str, platform: Str, actor: Str, ip: Str) {
    var r := Get(s.records, ResumptionKey(platform, actor, ip));
    r.Some? && Holds(s, u, platform, actor, r.value.scope) ==> u == r.value.sessionId
  }

  // ---------- what holds in every run ----------

  /** A scope is its holder's own id, or that of a session from the same address that is gone for good. */
  predicate Origin(s: Server, id: Str, scope: Str) {
    && id in s.address && scope in s.address
    && Ip(s, scope) == Ip(s, id)
    && (scope == id || scope !in s.connected)
    && (Ip(s, id) == [] ==> scope == id)
  }

  ghost predicate FiledAt(s: Server, k: Str, r: Record) {
    && r.ip != [] && Ip(s, r.sessionId) == r.ip
    && Origin(s, r.sessionId, r.scope)
    && exists platform, actor | actor != [] ::
         k == ResumptionKey(platform, actor, r.ip) && r.instanceId == InstanceId(platform, actor, r.scope)
  }

  ghost predicate Basic(s: Server) {
    && Distinct(s.records)
    && s.connected <= s.address.Keys && [] !in s.address
    && (forall k | Get(s.records, k).Some? :: FiledAt(s, k, Get(s.records, k).value))
    && (forall seat | seat in s.held :: Origin(s, seat.session, s.held[seat]))
    && (forall t | t in s.waiting :: Origin(s, t.seat.session, t.scope) && t.seat.actor != [])
  }

  lemma OriginKept(s: Server, next: Server, id: Str, scope: Str)
    requires Origin(s, id, scope)
    requires forall x | x in s.address :: x in next.address && next.address[x] == s.address[x]
    requires forall x | x in next.connected && x in s.address :: x in s.connected
    ensures Origin(next, id, scope) && Ip(next, id) == Ip(s, id)
  {
  }

  lemma FiledKept(s: Server, next: Server, k: Str, r: Record)
    requires FiledAt(s, k, r)
    requires forall x | x in s.address :: x in next.address && next.address[x] == s.address[x]
    requires forall x | x in next.connected && x in s.address :: x in s.connected
    ensures FiledAt(next, k, r)
  {
    OriginKept(s, next, r.sessionId, r.scope);
  }

  lemma BasicAfterSocket(s: Server, step: Step)
    requires Basic(s) && Enabled(s, step) && (step.Connect? || step.Disconnect?)
    ensures Basic(Next(s, step))
  {
    var next := Next(s, step);
    forall k | Get(next.records, k).Some? ensures FiledAt(next, k, Get(next.records, k).value) {
      FiledKept(s, next, k, Get(s.records, k).value);
    }
    forall seat | seat in next.held ensures Origin(next, seat.session, next.held[seat]) {
      OriginKept(s, next, seat.session, s.held[seat]);
    }
    forall t | t in next.waiting ensures Origin(next, t.seat.session, t.scope) && t.seat.actor != [] {
      OriginKept(s, next, t.seat.session, t.scope);
    }
  }

  /** Replacing the records is fine when each was there before or is properly filed. */
  lemma BasicWithRecords(s: Server, records: Records)
    requires Basic(s) && Distinct(records)
    requires forall k | Get(records, k).Some? :: FiledAt(s, k, Get(records, k).value)
    ensures Basic(s.(records := records))
  {
    var next := s.(records := records);
    forall k | Get(next.records, k).Some? ensures FiledAt(next, k, Get(next.records, k).value) {
      FiledKept(s, next, k, Get(records, k).value);
    }
  }

  lemma ScopeNowOrigin(s: Server, seat: Seat)
    requires Basic(s) && seat.session in s.connected
    ensures Origin(s, seat.session, ScopeNow(s, seat))
  {
    var key := KeyOf(s, seat);
    var r := Get(s.records, key);
    if ScopeNow(s, seat) != seat.session {
      assert FiledAt(s, key, r.value);
      var p, a :| a != [] && key == ResumptionKey(p, a, r.value.ip)
        && r.value.instanceId == InstanceId(p, a, r.value.scope);
      KeysInjective(p, a, r.value.ip, seat.platform, seat.actor, Ip(s, seat.session));
    }
  }

  lemma RememberedAt(s: Server, t: Ticket, k: Str)
    requires Ip(s, t.seat.session) != [] && t.scope != [] && t.seat.session != []
    ensures var key := KeyOf(s, t.seat);
      Get(RememberedFor(s, t), k) ==
        if k == key && !Blocked(s.records, Some(s.connected), key, t.seat.session)
        then Some(Record(t.scope, InstanceId(t.seat.platform, t.seat.actor, t.scope), t.seat.session,
          Ip(s, t.seat.session)))
        else Get(s.records, k)
  {
    GetSet(s.records, KeyOf(s, t.seat),
      Record(t.scope, InstanceId(t.seat.platform, t.seat.actor, t.scope), t.seat.session, Ip(s, t.seat.session)), k);
  }

  /** Whose record a remembering writes, and under which key. */
  predicate Writes(s: Server, t: Ticket, k: Str) {
    && Ip(s, t.seat.session) != [] && k == ResumptionKey(t.seat.platform, t.seat.actor, Ip(s, t.seat.session))
    && t.scope != [] && t.seat.session != [] && !Taken(s.records, Some(s.connected), k, t.seat.session)
  }

  function Written(s: Server, t: Ticket): Record {
    Record(t.scope, InstanceId(t.seat.platform, t.seat.actor, t.scope), t.seat.session, Ip(s, t.seat.session))
  }

  /**
   Every record after a step that renames nothing: a remembering writes one, a
   shutdown removes those of its instance, and nothing else touches any.
   */
  lemma RecordsExactly(s: Server, step: Step, k: Str)
    requires Distinct(s.records) && Enabled(s, step) && !step.Rename?
    ensures Get(Next(s, step).records, k) ==
      if step.Commit? && Writes(s, step.ticket, k) then Some(Written(s, step.ticket))
      else if step.Shutdown? && Get(s.records, k).Some? && Get(s.records, k).value.instanceId == step.instanceId
        then None
      else Get(s.records, k)
  {
    match step
    case Commit(t) =>
      if Ip(s, t.seat.session) != [] {
        RememberExactly(s.records, Some(s.connected), Resumption(KeyOf(s, t.seat), Ip(s, t.seat.session)), t.scope,
          InstanceId(t.seat.platform, t.seat.actor, t.scope), t.seat.session, k);
      }
    case Shutdown(id) => ForgetRemoves(s.records, id, k);
    case _ =>
  }

  lemma RememberedDistinct(s: Server, t: Ticket)
    requires Distinct(s.records)
    ensures Distinct(RememberedFor(s, t))
  {
    SetDistinct(s.records, KeyOf(s, t.seat),
      Record(t.scope, InstanceId(t.seat.platform, t.seat.actor, t.scope), t.seat.session, Ip(s, t.seat.session)));
  }

  lemma BasicAfterCommit(s: Server, t: Ticket)
    requires Basic(s) && t in s.waiting
    ensures Basic(Next(s, Commit(t)))
  {
    var records := RememberedFor(s, t);
    RememberedDistinct(s, t);
    forall k | Get(records, k).Some? ensures FiledAt(s, k, Get(records, k).value) {
      if Ip(s, t.seat.session) != [] {
        RememberedAt(s, t, k);
      }
    }
    BasicWithRecords(s, records);
    var mid := s.(records := records);
    var next := Next(s, Commit(t));
    forall k | Get(next.records, k).Some? ensures FiledAt(next, k, Get(next.records, k).value) {
      FiledKept(mid, next, k, Get(records, k).value);
    }
    forall seat | seat in next.held ensures Origin(next, seat.session, next.held[seat]) {
      OriginKept(s, next, seat.session, next.held[seat]);
    }
    forall other | other in next.waiting
      ensures Origin(next, other.seat.session, other.scope) && other.seat.actor != [] {
      assert other in s.waiting;
      OriginKept(s, next, other.seat.session, other.scope);
    }
  }

  lemma BasicAfterResolve(s: Server, seat: Seat)
    requires Basic(s) && Enabled(s, Resolve(seat))
    ensures Basic(Next(s, Resolve(seat)))
  {
    var next := Next(s, Resolve(seat));
    ScopeNowOrigin(s, seat);
    forall k | Get(next.records, k).Some? ensures FiledAt(next, k, Get(next.records, k).value) {
      FiledKept(s, next, k, Get(s.records, k).value);
    }
    forall other | other in next.waiting
      ensures Origin(next, other.seat.session, other.scope) && other.seat.actor != [] {
      assert other in s.waiting || other == Ticket(seat, ScopeNow(s, seat));
      OriginKept(s, next, other.seat.session, other.scope);
    }
    forall held | held in next.held ensures Origin(next, held.session, next.held[held]) {
      OriginKept(s, next, held.session, s.held[held]);
    }
  }

  lemma BasicAfterShutdown(s: Server, instanceId: Str)
    requires Basic(s)
    ensures Basic(Next(s, Shutdown(instanceId)))
  {
    var records := Forgotten(s.records, instanceId);
    ForgetRemoves(s.records, instanceId, []);
    forall k | Get(records, k).Some? ensures FiledAt(s, k, Get(records, k).value) {
      ForgetRemoves(s.records, instanceId, k);
    }
    BasicWithRecords(s, records);
  }

  // ---------- rename ----------

  lemma RecordOf(s: Server, k: Str, platform: Str, actor: Str, scope: Str)
    requires Basic(s) && Get(s.records, k).Some?
    requires Get(s.records, k).value.instanceId == InstanceId(platform, actor, scope)
    ensures Get(s.records, k).value.scope == scope && k == ResumptionKey(platform, actor, Get(s.records, k).value.ip)
  {
    var r := Get(s.records, k).value;
    assert FiledAt(s, k, r);
    var p, a :| a != [] && k == ResumptionKey(p, a, r.ip) && r.instanceId == InstanceId(p, a, r.scope);
    KeysInjective(p, a, r.scope, platform, actor, scope);
  }

  lemma RecordsFiledUnder(s: Server, platform: Str, actor: Str, scope: Str)
    requires Basic(s)
    ensures FiledUnder(s.records, InstanceId(platform, actor, scope), platform, actor)
    ensures forall k ::
      Get(s.records, k).Some? && Get(s.records, k).value.instanceId == InstanceId(platform, actor, scope) ==>
        Get(s.records, k).value.scope == scope && k == ResumptionKey(platform, actor, Get(s.records, k).value.ip)
  {
    forall k | Get(s.records, k).Some? && Get(s.records, k).value.instanceId == InstanceId(platform, actor, scope)
      ensures Get(s.records, k).value.scope == scope && k == ResumptionKey(platform, actor, Get(s.records, k).value.ip)
    {
      RecordOf(s, k, platform, actor, scope);
    }
    forall i | 0 <= i < |s.records| && s.records[i].value.instanceId == InstanceId(platform, actor, scope)
      ensures s.records[i].key == ResumptionKey(platform, actor, s.records[i].value.ip)
    {
      GetAt(s.records, i);
    }
  }

  /** Where the record found at a key after a rename was before. */
  lemma RenameCases(s: Server, platform: Str, actor: Str, scope: Str, next: Option<Str>, k: Str)
    requires Basic(s)
    ensures var from := InstanceId(platform, actor, scope);
      var r := Get(Renamed(s, platform, actor, scope, next), k);
      r.Some? && r != Get(s.records, k) ==>
        && Given(next) && k == ResumptionKey(platform, next.value, r.value.ip)
        && r.value.instanceId == InstanceId(platform, next.value, scope)
        && Get(s.records, ResumptionKey(platform, actor, r.value.ip)) == Some(r.value.(instanceId := from))
  {
    var from := InstanceId(platform, actor, scope);
    var to := if Given(next) then InstanceId(platform, next.value, scope) else platform;
    var r := Get(Renamed(s, platform, actor, scope, next), k);
    RecordsFiledUnder(s, platform, actor, scope);
    RenameMoves(s.records, s.records, from, to, platform, actor, next, k);
    if r.Some? && r != Get(s.records, k) {
      var i :| 0 <= i < |s.records| && Arrives(s.records[i], from, platform, next, k);
      GetAt(s.records, i);
    }
  }

  lemma BasicAfterRename(s: Server, platform: Str, actor: Str, scope: Str, next: Option<Str>)
    requires Basic(s)
    ensures Basic(Next(s, Rename(platform, actor, scope, next)))
  {
    var from := InstanceId(platform, actor, scope);
    var to := if Given(next) then InstanceId(platform, next.value, scope) else platform;
    var records := Renamed(s, platform, actor, scope, next);
    ReassignedDistinct(s.records, s.records, from, to, platform, next);
    RecordsFiledUnder(s, platform, actor, scope);
    forall k | Get(records, k).Some? ensures FiledAt(s, k, Get(records, k).value) {
      RenameCases(s, platform, actor, scope, next, k);
    }
    BasicWithRecords(s, records);
  }

  lemma BasicAfter(s: Server, step: Step)
    requires Basic(s) && Enabled(s, step)
    ensures Basic(Next(s, step))
  {
    match step
    case Connect(_, _) => BasicAfterSocket(s, step);
    case Disconnect(_) => BasicAfterSocket(s, step);
    case Resolve(seat) => BasicAfterResolve(s, seat);
    case Commit(t) => BasicAfterCommit(s, t);
    case Shutdown(instanceId) => BasicAfterShutdown(s, instanceId);
    case Rename(platform, actor, scope, next) => BasicAfterRename(s, platform, actor, scope, next);
  }

  // ---------- when a step is safe ----------

  ghost predicate OthersHold(s: Server, id: Str, platform: Str, actor: Str, scope: Str) {
    exists u :: u != id && Holds(s, u, platform, actor, scope)
  }

  /**
   When the remembering half of an action may still go ahead: nobody else took
   the scope in the meantime, neither by acting on it nor by owning its record.
   */
  ghost predicate SafeCommit(s: Server, t: Ticket) {
    var key := KeyOf(s, t.seat);
    var blocked := Blocked(s.records, Some(s.connected), key, t.seat.session);
    var taken := OthersHold(s, t.seat.session, t.seat.platform, t.seat.actor, t.scope);
    || Ip(s, t.seat.session) == []
    || (if t.seat.session in s.connected then !taken && !(blocked && Get(s.records, key).value.scope == t.scope)
        else blocked || !taken)
  }

  /** A rename may not put a record over a seat where another connected session already holds that scope. */
  ghost predicate SafeRename(s: Server, platform: Str, actor: Str, scope: Str, next: Option<Str>) {
    Given(next) ==>
      forall ip :: var r := Get(s.records, ResumptionKey(platform, actor, ip));
        r.Some? && r.value.instanceId == InstanceId(platform, actor, scope) ==>
          !OthersHold(s, r.value.sessionId, platform, next.value, scope)
  }

  ghost predicate Safe(s: Server, step: Step) {
    match step
    case Commit(t) => SafeCommit(s, t)
    case Rename(platform, actor, scope, next) => SafeRename(s, platform, actor, scope, next)
    case _ => true
  }

  ghost predicate Private(s: Server) {
    Basic(s) && Owned(s) && Exclusive(s)
  }

  lemma SocketKeepsPrivate(s: Server, step: Step)
    requires Private(s) && Enabled(s, step) && (step.Connect? || step.Disconnect?)
    ensures Owned(Next(s, step)) && Exclusive(Next(s, step))
  {
    var next := Next(s, step);
    forall u, p, a, x | Holds(next, u, p, a, x) ensures Holds(s, u, p, a, x) {
      assert Origin(s, u, s.held[Seat(u, p, a)]);
    }
    forall u, p, a, ip ensures OwnedAt(next, u, p, a, ip) {
      assert OwnedAt(s, u, p, a, ip);
    }
  }

  lemma NobodyElseWithoutAddress(s: Server, t: Ticket)
    requires Basic(s) && t in s.waiting && Ip(s, t.seat.session) == []
    ensures !OthersHold(s, t.seat.session, t.seat.platform, t.seat.actor, t.scope)
  {
    assert Origin(s, t.seat.session, t.scope);
    forall u | Holds(s, u, t.seat.platform, t.seat.actor, t.scope) ensures u == t.seat.session {
      assert Origin(s, u, t.scope);
    }
  }

  lemma CommitHolds(s: Server, t: Ticket, u: Str, p: Str, a: Str, x: Str)
    ensures Holds(Next(s, Commit(t)), u, p, a, x) ==
      if Seat(u, p, a) == t.seat then u in s.connected && x == t.scope else Holds(s, u, p, a, x)
  {
  }

  /** Records without an address to be filed under do not exist. */
  lemma NoRecordWithoutAddress(s: Server, p: Str, a: Str, ip: Str)
    requires Basic(s) && Get(s.records, ResumptionKey(p, a, ip)).Some?
    ensures var r := Get(s.records, ResumptionKey(p, a, ip)).value;
      a != [] && r.ip == ip != [] && Ip(s, r.sessionId) == ip && Origin(s, r.sessionId, r.scope)
  {
    var k := ResumptionKey(p, a, ip);
    var r := Get(s.records, k).value;
    assert FiledAt(s, k, r);
    var p', a' :| a' != [] && k == ResumptionKey(p', a', r.ip) && r.instanceId == InstanceId(p', a', r.scope);
    KeysInjective(p, a, ip, p', a', r.ip);
  }

  lemma SafeCommitExclusive(s: Server, t: Ticket)
    requires Private(s) && t in s.waiting && SafeCommit(s, t)
    ensures Exclusive(Next(s, Commit(t)))
  {
    var next := Next(s, Commit(t));
    if Ip(s, t.seat.session) == [] {
      NobodyElseWithoutAddress(s, t);
    }
    forall u, v, p, a, x | Holds(next, u, p, a, x) && Holds(next, v, p, a, x) ensures u == v {
      CommitHolds(s, t, u, p, a, x);
      CommitHolds(s, t, v, p, a, x);
    }
  }

  lemma SafeCommitOwned(s: Server, t: Ticket, u: Str, p: Str, a: Str, ip: Str)
    requires Private(s) && t in s.waiting && SafeCommit(s, t)
    ensures OwnedAt(Next(s, Commit(t)), u, p, a, ip)
  {
    var next := Next(s, Commit(t));
    var k := ResumptionKey(p, a, ip);
    var r := Get(next.records, k);
    if r.Some? && Holds(next, u, p, a, r.value.scope) {
      BasicAfterCommit(s, t);
      NoRecordWithoutAddress(next, p, a, ip);
      CommitHolds(s, t, u, p, a, r.value.scope);
      assert OwnedAt(s, u, p, a, ip);
      assert Origin(s, t.seat.session, t.scope);
      KeysInjective(p, a, ip, t.seat.platform, t.seat.actor, Ip(s, t.seat.session));
      if Ip(s, t.seat.session) != [] {
        RememberedAt(s, t, k);
      }
    }
  }

  lemma RenameKeepsOwned(s: Server, platform: Str, actor: Str, scope: Str, next: Option<Str>, u: Str, p: Str, a: Str,
      ip: Str)
    requires Private(s) && SafeRename(s, platform, actor, scope, next)
    ensures OwnedAt(Next(s, Rename(platform, actor, scope, next)), u, p, a, ip)
  {
    var after := Next(s, Rename(platform, actor, scope, next));
    var k := ResumptionKey(p, a, ip);
    var r := Get(after.records, k);
    assert OwnedAt(s, u, p, a, ip);
    if r.Some? && Holds(after, u, p, a, r.value.scope) {
      assert Holds(s, u, p, a, r.value.scope);
      RenameCases(s, platform, actor, scope, next, k);
      RecordsFiledUnder(s, platform, actor, scope);
      if r != Get(s.records, k) {
        KeysInjective(p, a, ip, platform, next.value, r.value.ip);
        assert !OthersHold(s, r.value.sessionId, platform, next.value, scope);
      }
    }
  }

  lemma SafeStepPrivate(s: Server, step: Step)
    requires Private(s) && Enabled(s, step) && Safe(s, step)
    ensures Private(Next(s, step))
  {
    BasicAfter(s, step);
    var next := Next(s, step);
    match step
    case Connect(_, _) => SocketKeepsPrivate(s, step);
    case Disconnect(_) => SocketKeepsPrivate(s, step);
    case Resolve(_) =>
      assert forall u, p, a, x :: Holds(next, u, p, a, x) == Holds(s, u, p, a, x);
      forall u, p, a, ip ensures OwnedAt(next, u, p, a, ip) {
        assert OwnedAt(s, u, p, a, ip);
      }
    case Commit(t) =>
      SafeCommitExclusive(s, t);
      forall u, p, a, ip ensures OwnedAt(next, u, p, a, ip) {
        SafeCommitOwned(s, t, u, p, a, ip);
      }
    case Shutdown(instanceId) =>
      assert forall u, p, a, x :: Holds(next, u, p, a, x) == Holds(s, u, p, a, x);
      forall u, p, a, ip ensures OwnedAt(next, u, p, a, ip) {
        ForgetRemoves(s.records, instanceId, ResumptionKey(p, a, ip));
        assert OwnedAt(s, u, p, a, ip);
      }
    case Rename(platform, actor, scope, other) =>
      assert forall u, p, a, x :: Holds(next, u, p, a, x) == Holds(s, u, p, a, x);
      forall u, p, a, ip ensures OwnedAt(next, u, p, a, ip) {
        RenameKeepsOwned(s, platform, actor, scope, other, u, p, a, ip);
      }
  }

  // ---------- whole runs ----------

  ghost predicate AllSafe(s: Server, steps: seq<Step>)
    decreases |steps|
  {
    steps == [] || (Safe(s, steps[0]) && AllSafe(Next(s, steps[0]), steps[1..]))
  }

  /** Resolving and remembering are one step, and no worker is renamed. */
  predicate Atomic(s: Server, steps: seq<Step>)
    decreases |steps|
  {
    steps == []
    || match steps[0]
       case Resolve(seat) =>
         && |steps| >= 2 && steps[1] == Commit(Ticket(seat, ScopeNow(s, seat)))
         && Atomic(Next(Next(s, steps[0]), steps[1]), steps[2..])
       case Commit(_) => false
       case Rename(_, _, _, _) => false
       case _ => Atomic(Next(s, steps[0]), steps[1..])
  }

  lemma {:induction false} SafeRun(s: Server, steps: seq<Step>)
    requires Private(s) && Allowed(s, steps) && AllSafe(s, steps)
    ensures Private(After(s, steps))
    decreases |steps|
  {
    if steps != [] {
      SafeStepPrivate(s, steps[0]);
      SafeRun(Next(s, steps[0]), steps[1..]);
    }
  }

  lemma StartPrivate()
    ensures Private(START)
  {
  }

  /** Remembering right after resolving is always safe. */
  lemma AtOnceIsSafe(s: Server, seat: Seat)
    requires Private(s) && Enabled(s, Resolve(seat))
    ensures Safe(Next(s, Resolve(seat)), Commit(Ticket(seat, ScopeNow(s, seat))))
  {
    var mid := Next(s, Resolve(seat));
    var x := ScopeNow(s, seat);
    var key := KeyOf(s, seat);
    if Ip(s, seat.session) != [] {
      ScopeNowOrigin(s, seat);
      forall u | Holds(mid, u, seat.platform, seat.actor, x) ensures u == seat.session {
        assert Holds(s, u, seat.platform, seat.actor, x);
        assert Origin(s, u, x);
        assert OwnedAt(s, u, seat.platform, seat.actor, Ip(s, seat.session));
      }
      if Blocked(s.records, Some(s.connected), key, seat.session) {
        NoRecordWithoutAddress(s, seat.platform, seat.actor, Ip(s, seat.session));
      }
    }
  }

  lemma {:induction false} AtomicRunFrom(s: Server, steps: seq<Step>)
    requires Private(s) && Allowed(s, steps) && Atomic(s, steps)
    ensures Private(After(s, steps))
    decreases |steps|
  {
    if steps != [] {
      SafeRunHead(s, steps);
      var next := Next(s, steps[0]);
      if steps[0].Resolve? {
        var seat := steps[0].seat;
        AtOnceIsSafe(s, seat);
        assert steps[1..][0] == steps[1] && steps[1..][1..] == steps[2..];
        SafeStepPrivate(next, steps[1]);
        AtomicRunFrom(Next(next, steps[1]), steps[2..]);
      } else {
        AtomicRunFrom(next, steps[1..]);
      }
    }
  }

  lemma SafeRunHead(s: Server, steps: seq<Step>)
    requires Private(s) && steps != [] && Allowed(s, steps) && Atomic(s, steps)
    ensures Private(Next(s, steps[0]))
  {
    SafeStepPrivate(s, steps[0]);
  }

  /**
   With resolving and remembering as one step and without renames, no two
   connected sessions ever share a scope, in any run.
   */
  lemma AtomicRunsExclusive(steps: seq<Step>)
    requires Allowed(START, steps) && Atomic(START, steps)
    ensures Exclusive(After(START, steps))
  {
    StartPrivate();
    AtomicRunFrom(START, steps);
  }

  /** Split actions and renames do no harm either, as long as each is safe when it happens. */
  lemma SafeRunsExclusive(steps: seq<Step>)
    requires Allowed(START, steps) && AllSafe(START, steps)
    ensures Exclusive(After(START, steps))
  {
    StartPrivate();
    SafeRun(START, steps);
  }

  // ---------- the guards are exact ----------

  lemma {:induction false} LengthBound(ids: set<Str>) returns (n: nat)
    ensures n > 0 && forall x | x in ids :: |x| < n
  {
    n := 1;
    if x :| x in ids {
      var m := LengthBound(ids - {x});
      n := if m > |x| then m else |x| + 1;
      assert forall y | y in ids :: y == x || y in ids - {x};
    }
  }

  lemma FreshId(s: Server) returns (id: Str)
    ensures id != [] && id !in s.address
  {
    var n := LengthBound(s.address.Keys);
    id := seq(n, _ => SP);
  }

  /** The run leads from the state to one where two connected sessions share a scope. */
  ghost predicate Breaks(s: Server, steps: seq<Step>) {
    Allowed(s, steps) && Atomic(s, steps) && !Exclusive(After(s, steps))
  }

  lemma AfterTwo(s: Server, first: Step, second: Step)
    ensures After(s, [first, second]) == Next(Next(s, first), second)
  {
    assert [first, second][1..] == [second] && [second][1..] == [];
    assert After(Next(s, first), [second]) == After(Next(Next(s, first), second), []);
  }

  lemma ActBreaks(s: Server, seat: Seat, u: Str)
    requires seat.session in s.connected && seat.actor != [] && u != seat.session
    requires Holds(s, u, seat.platform, seat.actor, ScopeNow(s, seat))
    ensures Breaks(s, [Resolve(seat), Commit(Ticket(seat, ScopeNow(s, seat)))])
  {
    var x := ScopeNow(s, seat);
    var t := Ticket(seat, x);
    var steps := [Resolve(seat), Commit(t)];
    var mid := Next(s, Resolve(seat));
    var end := Next(mid, Commit(t));
    assert steps[1..] == [Commit(t)] && steps[2..] == [] && steps[1..][1..] == [];
    assert t in mid.waiting;
    assert Holds(mid, u, seat.platform, seat.actor, x);
    CommitHolds(mid, t, u, seat.platform, seat.actor, x);
    CommitHolds(mid, t, seat.session, seat.platform, seat.actor, x);
    assert Holds(end, u, seat.platform, seat.actor, x) && Holds(end, seat.session, seat.platform, seat.actor, x);
    AfterTwo(s, Resolve(seat), Commit(t));
  }

  lemma BreaksLater(s: Server, step: Step, steps: seq<Step>)
    requires Enabled(s, step) && (step.Connect? || step.Disconnect? || step.Shutdown?)
    requires Breaks(Next(s, step), steps)
    ensures Breaks(s, [step] + steps)
  {
    assert ([step] + steps)[1..] == steps;
  }

  /** Once a connected session holds the scope of a record it does not own, two more steps suffice. */
  lemma StrangerBreaks(s: Server, u: Str, p: Str, a: Str, ip: Str) returns (steps: seq<Step>)
    requires Basic(s) && !OwnedAt(s, u, p, a, ip)
    ensures Breaks(s, steps)
  {
    NoRecordWithoutAddress(s, p, a, ip);
    var r := Get(s.records, ResumptionKey(p, a, ip)).value;
    if r.sessionId in s.connected {
      var seat := Seat(r.sessionId, p, a);
      ActBreaks(s, seat, u);
      steps := [Resolve(seat), Commit(Ticket(seat, ScopeNow(s, seat)))];
    } else {
      var id := FreshId(s);
      var join := Connect(id, s.address[r.sessionId]);
      var next := Next(s, join);
      var seat := Seat(id, p, a);
      assert Holds(next, u, p, a, r.scope);
      ActBreaks(next, seat, u);
      steps := [Resolve(seat), Commit(Ticket(seat, ScopeNow(next, seat)))];
      BreaksLater(s, join, steps);
      steps := [join] + steps;
    }
  }

  /** The session itself, remembered over somebody else's record of the same scope. */
  lemma CommitOntoRecord(s: Server, t: Ticket)
    requires Basic(s) && t in s.waiting && t.seat.session in s.connected && Ip(s, t.seat.session) != []
    requires Blocked(s.records, Some(s.connected), KeyOf(s, t.seat), t.seat.session)
    requires Get(s.records, KeyOf(s, t.seat)).value.scope == t.scope
    ensures !OwnedAt(Next(s, Commit(t)), t.seat.session, t.seat.platform, t.seat.actor, Ip(s, t.seat.session))
  {
    assert Origin(s, t.seat.session, t.scope);
    RememberedAt(s, t, KeyOf(s, t.seat));
    CommitHolds(s, t, t.seat.session, t.seat.platform, t.seat.actor, t.scope);
  }

  /** A session that has gone, remembered with a scope somebody else took over. */
  lemma CommitAfterDisconnect(s: Server, t: Ticket, u: Str)
    requires Basic(s) && t in s.waiting && t.seat.session !in s.connected && Ip(s, t.seat.session) != []
    requires !Blocked(s.records, Some(s.connected), KeyOf(s, t.seat), t.seat.session)
    requires u != t.seat.session && Holds(s, u, t.seat.platform, t.seat.actor, t.scope)
    ensures !OwnedAt(Next(s, Commit(t)), u, t.seat.platform, t.seat.actor, Ip(s, t.seat.session))
  {
    assert Origin(s, t.seat.session, t.scope);
    RememberedAt(s, t, KeyOf(s, t.seat));
    CommitHolds(s, t, u, t.seat.platform, t.seat.actor, t.scope);
  }

  lemma UnsafeCommitBreaks(s: Server, t: Ticket) returns (steps: seq<Step>)
    requires Private(s) && t in s.waiting && !SafeCommit(s, t)
    ensures Breaks(Next(s, Commit(t)), steps)
  {
    var next := Next(s, Commit(t));
    var id, p, a := t.seat.session, t.seat.platform, t.seat.actor;
    BasicAfterCommit(s, t);
    if id in s.connected && !OthersHold(s, id, p, a, t.scope) {
      CommitOntoRecord(s, t);
      steps := StrangerBreaks(next, id, p, a, Ip(s, id));
    } else {
      var u :| u != id && Holds(s, u, p, a, t.scope);
      if id in s.connected {
        CommitHolds(s, t, u, p, a, t.scope);
        CommitHolds(s, t, id, p, a, t.scope);
        assert Holds(next, u, p, a, t.scope) && Holds(next, id, p, a, t.scope);
        steps := [];
      } else {
        CommitAfterDisconnect(s, t, u);
        steps := StrangerBreaks(next, u, p, a, Ip(s, id));
      }
    }
  }

  /** A record of the renamed worker is found under the new actor. */
  lemma RenamedRecord(s: Server, platform: Str, actor: Str, scope: Str, next: Str, ip: Str)
    requires Basic(s) && next != []
    requires var r := Get(s.records, ResumptionKey(platform, actor, ip));
      r.Some? && r.value.instanceId == InstanceId(platform, actor, scope)
    ensures Get(Renamed(s, platform, actor, scope, Some(next)), ResumptionKey(platform, next, ip))
         == Some(Get(s.records, ResumptionKey(platform, actor, ip)).value.(
                   instanceId := InstanceId(platform, next, scope)))
    ensures Get(s.records, ResumptionKey(platform, actor, ip)).value.scope == scope
  {
    var from, to := InstanceId(platform, actor, scope), InstanceId(platform, next, scope);
    var r := Get(s.records, ResumptionKey(platform, actor, ip)).value;
    NoRecordWithoutAddress(s, platform, actor, ip);
    RecordsFiledUnder(s, platform, actor, scope);
    var k := ResumptionKey(platform, next, ip);
    RenameMoves(s.records, s.records, from, to, platform, actor, Some(next), k);
    var i :| 0 <= i < |s.records| && s.records[i] == Entry(ResumptionKey(platform, actor, ip), r);
    assert Arrives(s.records[i], from, platform, Some(next), k);
  }

  lemma RenamedOntoStranger(s: Server, platform: Str, actor: Str, scope: Str, next: Str, ip: Str, u: Str)
    requires Basic(s) && next != []
    requires var r := Get(s.records, ResumptionKey(platform, actor, ip));
      r.Some? && r.value.instanceId == InstanceId(platform, actor, scope) && u != r.value.sessionId
    requires Holds(s, u, platform, next, scope)
    ensures !OwnedAt(s.(records := Renamed(s, platform, actor, scope, Some(next))), u, platform, next, ip)
  {
    var owner := Get(s.records, ResumptionKey(platform, actor, ip)).value.sessionId;
    RenamedRecord(s, platform, actor, scope, next, ip);
    StrangerStays(s, Renamed(s, platform, actor, scope, Some(next)), u, platform, next, scope, ip, owner);
  }

  lemma StrangerStays(s: Server, records: Records, u: Str, p: Str, a: Str, scope: Str, ip: Str, owner: Str)
    requires var r := Get(records, ResumptionKey(p, a, ip));
      r.Some? && r.value.scope == scope && r.value.sessionId == owner
    requires Holds(s, u, p, a, scope) && u != owner
    ensures !OwnedAt(s.(records := records), u, p, a, ip)
  {
    var next := s.(records := records);
    assert Holds(next, u, p, a, scope);
    HeldByStranger(next, u, p, a, ip, Get(records, ResumptionKey(p, a, ip)).value);
  }

  lemma HeldByStranger(s: Server, u: Str, p: Str, a: Str, ip: Str, r: Record)
    requires Get(s.records, ResumptionKey(p, a, ip)) == Some(r)
    requires Holds(s, u, p, a, r.scope) && u != r.sessionId
    ensures !OwnedAt(s, u, p, a, ip)
  {
  }

  lemma UnsafeRenameBreaks(s: Server, platform: Str, actor: Str, scope: Str, next: Option<Str>)
      returns (steps: seq<Step>)
    requires Private(s) && !SafeRename(s, platform, actor, scope, next)
    ensures Breaks(Next(s, Rename(platform, actor, scope, next)), steps)
  {
    assert next == Some(next.value);
    var ip :| var r := Get(s.records, ResumptionKey(platform, actor, ip));
      r.Some? && r.value.instanceId == InstanceId(platform, actor, scope)
      && OthersHold(s, r.value.sessionId, platform, next.value, scope);
    var owner := Get(s.records, ResumptionKey(platform, actor, ip)).value.sessionId;
    var u :| u != owner && Holds(s, u, platform, next.value, scope);
    RenamedOntoStranger(s, platform, actor, scope, next.value, ip, u);
    BasicAfterRename(s, platform, actor, scope, next);
    RenameNext(s, platform, actor, scope, next);
    steps := StrangerBreaks(s.(records := Renamed(s, platform, actor, scope, next)), u, platform, next.value, ip);
  }

  lemma RenameNext(s: Server, platform: Str, actor: Str, scope: Str, next: Option<Str>)
    ensures Next(s, Rename(platform, actor, scope, next)) == s.(records := Renamed(s, platform, actor, scope, next))
  {
  }

  /**
   A step is safe exactly when nothing that can follow it, acting atomically
   and without renames, ever puts two connected sessions on one scope.
   */
  lemma SafeExactly(s: Server, step: Step)
    requires Private(s) && Enabled(s, step)
    ensures Safe(s, step) <==> forall steps :: !Breaks(Next(s, step), steps)
  {
    if Safe(s, step) {
      SafeStepPrivate(s, step);
      forall steps ensures !Breaks(Next(s, step), steps) {
        if Allowed(Next(s, step), steps) && Atomic(Next(s, step), steps) {
          AtomicRunFrom(Next(s, step), steps);
        }
      }
    } else {
      var steps: seq<Step>;
      if step.Commit? {
        steps := UnsafeCommitBreaks(s, step.ticket);
      } else {
        steps := UnsafeRenameBreaks(s, step.platform, step.actor, step.scope, step.next);
      }
      assert Breaks(Next(s, step), steps);
    }
  }

  lemma {:induction false} RunBasic(s: Server, steps: seq<Step>)
    requires Basic(s) && Allowed(s, steps)
    ensures Basic(After(s, steps))
    decreases |steps|
  {
    if steps != [] {
      BasicAfter(s, steps[0]);
      RunBasic(Next(s, steps[0]), steps[1..]);
    }
  }

  /**
   In every reachable state, after renames and split actions too: scopes are
   exclusive and records owned exactly when no atomic run from there on ever
   puts two connected sessions on one scope.
   */
  lemma PrivateExactly(steps: seq<Step>)
    requires Allowed(START, steps)
    ensures var s := After(START, steps); Owned(s) && Exclusive(s) <==> forall more :: !Breaks(s, more)
  {
    var s := After(START, steps);
    StartPrivate();
    RunBasic(START, steps);
    if Owned(s) && Exclusive(s) {
      forall more ensures !Breaks(s, more) {
        if Allowed(s, more) && Atomic(s, more) {
          AtomicRunFrom(s, more);
        }
      }
    } else if !Exclusive(s) {
      assert Breaks(s, []);
    } else {
      var u, platform, actor, ip :| !OwnedAt(s, u, platform, actor, ip);
      var more := StrangerBreaks(s, u, platform, actor, ip);
    }
  }

  // ---------- the guards are needed ----------

  ghost predicate AtomicReach(s: Server) {
    exists steps :: Allowed(START, steps) && Atomic(START, steps) && After(START, steps) == s
  }

  lemma TwoSteps(s: Server, xs: seq<Step>)
    requires |xs| >= 2
    ensures After(s, xs) == After(Next(Next(s, xs[0]), xs[1]), xs[2..])
    ensures Allowed(s, xs) <==>
      Enabled(s, xs[0]) && Enabled(Next(s, xs[0]), xs[1]) && Allowed(Next(Next(s, xs[0]), xs[1]), xs[2..])
  {
    assert xs[1..][0] == xs[1] && xs[1..][1..] == xs[2..];
  }

  lemma ActInFront(s: Server, xs: seq<Step>, ys: seq<Step>)
    requires xs != [] && xs[0].Resolve? && Allowed(s, xs) && Atomic(s, xs)
    requires var second := Next(Next(s, xs[0]), xs[1]);
      Allowed(second, xs[2..] + ys) && Atomic(second, xs[2..] + ys)
    ensures Allowed(s, xs + ys) && Atomic(s, xs + ys)
    ensures After(s, xs + ys) == After(Next(Next(s, xs[0]), xs[1]), xs[2..] + ys)
  {
    TwoSteps(s, xs);
    assert (xs + ys)[0] == xs[0] && (xs + ys)[1] == xs[1] && (xs + ys)[2..] == xs[2..] + ys;
    TwoSteps(s, xs + ys);
  }

  lemma {:induction false} AtomicThen(s: Server, xs: seq<Step>, ys: seq<Step>)
    requires Allowed(s, xs) && Atomic(s, xs)
    requires Allowed(After(s, xs), ys) && Atomic(After(s, xs), ys)
    ensures Allowed(s, xs + ys) && Atomic(s, xs + ys) && After(s, xs + ys) == After(After(s, xs), ys)
    decreases |xs|
  {
    if xs == [] {
      assert xs + ys == ys;
    } else if xs[0].Resolve? {
      TwoSteps(s, xs);
      AtomicThen(Next(Next(s, xs[0]), xs[1]), xs[2..], ys);
      ActInFront(s, xs, ys);
    } else {
      AtomicThen(Next(s, xs[0]), xs[1..], ys);
      TailOfConcat(xs, ys);
    }
  }

  lemma ReachOne(s: Server, step: Step)
    requires AtomicReach(s) && Enabled(s, step) && (step.Connect? || step.Disconnect?)
    ensures AtomicReach(Next(s, step))
  {
    var steps :| Allowed(START, steps) && Atomic(START, steps) && After(START, steps) == s;
    assert [step][1..] == [];
    assert After(s, [step]) == After(Next(s, step), []);
    AtomicThen(START, steps, [step]);
  }

  /** The state after an action that resolves and remembers at once. */
  function Acted(s: Server, seat: Seat): Server {
    Next(Next(s, Resolve(seat)), Commit(Ticket(seat, ScopeNow(s, seat))))
  }

  lemma ReachActed(s: Server, seat: Seat)
    requires AtomicReach(s) && Enabled(s, Resolve(seat))
    ensures AtomicReach(Acted(s, seat))
  {
    var steps :| Allowed(START, steps) && Atomic(START, steps) && After(START, steps) == s;
    var act := [Resolve(seat), Commit(Ticket(seat, ScopeNow(s, seat)))];
    ActIsAtomic(s, seat);
    AtomicThen(START, steps, act);
    assert After(START, steps + act) == Acted(s, seat);
  }

  lemma ActIsAtomic(s: Server, seat: Seat)
    requires Enabled(s, Resolve(seat))
    ensures var act := [Resolve(seat), Commit(Ticket(seat, ScopeNow(s, seat)))];
      Allowed(s, act) && Atomic(s, act) && After(s, act) == Acted(s, seat)
  {
    var first, second := Resolve(seat), Commit(Ticket(seat, ScopeNow(s, seat)));
    assert [first, second][1..] == [second] && [second][1..] == [] && [first, second][2..] == [];
    AfterTwo(s, first, second);
  }

  lemma ActedFacts(s: Server, seat: Seat, k: Str)
    requires Basic(s) && Enabled(s, Resolve(seat)) && Ip(s, seat.session) != []
    ensures var end := Acted(s, seat);
      var key := KeyOf(s, seat);
      && end.address == s.address && end.connected == s.connected
      && end.held == s.held[seat := ScopeNow(s, seat)]
      && Basic(end)
      && Get(end.records, k) ==
           if k == key && !Blocked(s.records, Some(s.connected), key, seat.session)
           then Some(Record(ScopeNow(s, seat), InstanceId(seat.platform, seat.actor, ScopeNow(s, seat)), seat.session,
             Ip(s, seat.session)))
           else Get(s.records, k)
  {
    var mid := Next(s, Resolve(seat));
    var t := Ticket(seat, ScopeNow(s, seat));
    BasicAfterResolve(s, seat);
    BasicAfterCommit(mid, t);
    ScopeNowOrigin(s, seat);
    RememberedAt(mid, t, k);
  }

  lemma FirstActs(a: Str, from: Option<Str>, platform: Str, x: Str) returns (s: Server)
    requires a != [] && x != [] && NormalizeIp(from) != []
    ensures AtomicReach(s) && Basic(s) && s.connected == {a} && s.address == map[a := from]
    ensures Get(s.records, ResumptionKey(platform, x, NormalizeIp(from)))
         == Some(Record(a, InstanceId(platform, x, a), a, NormalizeIp(from)))
    ensures forall k :: k != ResumptionKey(platform, x, NormalizeIp(from)) ==> Get(s.records, k).None?
  {
    assert AtomicReach(START) by { assert After(START, []) == START; }
    ReachOne(START, Connect(a, from));
    StartPrivate();
    BasicAfter(START, Connect(a, from));
    var on := Next(START, Connect(a, from));
    var seat := Seat(a, platform, x);
    ReachActed(on, seat);
    s := Acted(on, seat);
    forall k ensures Get(s.records, k) ==
      if k == KeyOf(on, seat) then Some(Record(a, InstanceId(platform, x, a), a, Ip(on, a))) else None
    {
      ActedFirst(on, seat, k);
    }
    ActedFacts(on, seat, []);
  }

  lemma ActedFirst(s: Server, seat: Seat, k: Str)
    requires Basic(s) && Enabled(s, Resolve(seat)) && Ip(s, seat.session) != [] && s.records == []
    ensures Get(Acted(s, seat).records, k) ==
      if k == KeyOf(s, seat)
      then Some(Record(seat.session, InstanceId(seat.platform, seat.actor, seat.session), seat.session,
        Ip(s, seat.session)))
      else None
  {
    ActedFacts(s, seat, k);
  }

  lemma ThenReplaced(s: Server, a: Str, b: Str, c: Str, from: Option<Str>) returns (next: Server)
    requires AtomicReach(s) && Basic(s) && s.connected == {a} && s.address == map[a := from]
    requires b != a && c != a && b != c && b != [] && c != []
    ensures AtomicReach(next) && Basic(next)
    ensures next == s.(connected := {b, c}, address := map[a := from, b := from, c := from])
  {
    var gone := Next(s, Disconnect(a));
    ReachOne(s, Disconnect(a));
    BasicAfter(s, Disconnect(a));
    ReachOne(gone, Connect(b, from));
    BasicAfter(gone, Connect(b, from));
    var one := Next(gone, Connect(b, from));
    ReachOne(one, Connect(c, from));
    BasicAfter(one, Connect(c, from));
    next := Next(one, Connect(c, from));
  }

  /**
   Two refreshed pages that both resolve before either is remembered end up on
   the same scope: the second remembering is unsafe.
   */
  lemma StaleCommitHappens(a: Str, b: Str, c: Str, from: Option<Str>, platform: Str, x: Str) returns (s: Server)
    requires a != b && a != c && b != c && a != [] && b != [] && c != [] && x != [] && NormalizeIp(from) != []
    ensures AtomicReach(s)
    ensures
      var one := Next(Next(s, Resolve(Seat(b, platform, x))), Resolve(Seat(c, platform, x)));
      && Enabled(s, Resolve(Seat(b, platform, x))) && Enabled(s, Resolve(Seat(c, platform, x)))
      && Enabled(one, Commit(Ticket(Seat(b, platform, x), a)))
      && var two := Next(one, Commit(Ticket(Seat(b, platform, x), a)));
      && Enabled(two, Commit(Ticket(Seat(c, platform, x), a)))
      && !SafeCommit(two, Ticket(Seat(c, platform, x), a))
  {
    var first := FirstActs(a, from, platform, x);
    s := ThenReplaced(first, a, b, c, from);
    var sb, sc := Seat(b, platform, x), Seat(c, platform, x);
    assert ScopeNow(s, sb) == a && ScopeNow(s, sc) == a;
    var one := Next(Next(s, Resolve(sb)), Resolve(sc));
    assert ScopeNow(Next(s, Resolve(sb)), sc) == a;
    assert Ticket(sb, a) in one.waiting && Ticket(sc, a) in one.waiting;
    var two := Next(one, Commit(Ticket(sb, a)));
    assert Holds(two, b, platform, x, a);
    assert Ticket(sc, a) in two.waiting;
  }

  /** `b` took over what `a` held as `x`, `c` what `a` held as `y`. */
  lemma TakenOver(s: Server, a: Str, b: Str, c: Str, platform: Str, x: Str, y: Str) returns (end: Server)
    requires AtomicReach(s) && Basic(s) && s.connected == {b, c} && a !in s.connected && b != c
    requires a in s.address && Ip(s, a) != [] && Ip(s, b) == Ip(s, a) && Ip(s, c) == Ip(s, a)
    requires x != y && x != [] && y != []
    requires Get(s.records, ResumptionKey(platform, x, Ip(s, a)))
      == Some(Record(a, InstanceId(platform, x, a), a, Ip(s, a)))
    requires Get(s.records, ResumptionKey(platform, y, Ip(s, a)))
      == Some(Record(a, InstanceId(platform, y, a), a, Ip(s, a)))
    ensures AtomicReach(end) && Holds(end, b, platform, x, a)
    ensures Get(end.records, ResumptionKey(platform, y, Ip(s, a)))
      == Some(Record(a, InstanceId(platform, y, a), c, Ip(s, a)))
  {
    var ky := ResumptionKey(platform, y, Ip(s, a));
    KeysInjective(platform, x, Ip(s, a), platform, y, Ip(s, a));
    var bx, cy := Seat(b, platform, x), Seat(c, platform, y);
    ReachActed(s, bx);
    ActedFacts(s, bx, ky);
    var third := Acted(s, bx);
    ReachActed(third, cy);
    ActedFacts(third, cy, ky);
    end := Acted(third, cy);
  }

  /**
   A rename onto an actor can bring together two workers opened under one old
   session: reachable although every action remembers at once.
   */
  lemma UnsafeRenameHappens(a: Str, b: Str, c: Str, from: Option<Str>, platform: Str, x: Str, y: Str)
      returns (s: Server)
    requires a != b && a != c && b != c && a != [] && b != [] && c != []
    requires x != y && x != [] && y != [] && NormalizeIp(from) != []
    ensures AtomicReach(s) && Enabled(s, Rename(platform, y, a, Some(x)))
    ensures !SafeRename(s, platform, y, a, Some(x))
  {
    var first := BothActs(a, from, platform, x, y);
    var both := ThenReplaced(first, a, b, c, from);
    s := TakenOver(both, a, b, c, platform, x, y);
    assert OthersHold(s, c, platform, x, a);
  }

  /** One session acts under two names. */
  lemma BothActs(a: Str, from: Option<Str>, platform: Str, x: Str, y: Str) returns (s: Server)
    requires a != [] && x != y && x != [] && y != [] && NormalizeIp(from) != []
    ensures AtomicReach(s) && Basic(s) && s.connected == {a} && s.address == map[a := from]
    ensures var ip := NormalizeIp(from);
      && Get(s.records, ResumptionKey(platform, x, ip)) == Some(Record(a, InstanceId(platform, x, a), a, ip))
      && Get(s.records, ResumptionKey(platform, y, ip)) == Some(Record(a, InstanceId(platform, y, a), a, ip))
  {
    var ip := NormalizeIp(from);
    KeysInjective(platform, x, ip, platform, y, ip);
    var first := FirstActs(a, from, platform, x);
    var sy := Seat(a, platform, y);
    ReachActed(first, sy);
    ActedFacts(first, sy, ResumptionKey(platform, x, ip));
    ActedFacts(first, sy, ResumptionKey(platform, y, ip));
    s := Acted(first, sy);
  }
}
