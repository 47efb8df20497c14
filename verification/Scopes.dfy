/**
 The scope of a persistent worker for a session without credentials, and the
 registry that lets a refreshed page take its old scope back
 (packages/server/src/connection-scope.ts).
 */
module Scopes {
  import opened JsString
  import opened Results
  import opened JsMap
  import opened JsonKey

  datatype Record = Record(scope: Str, instanceId: Str, sessionId: Str, ip: Str)
  datatype Resumption = Resumption(key: Str, ip: Str)
  datatype ConnectionScope = ConnectionScope(scope: Str, resumption: Option<Resumption>)

  /** `anonymousScopes`: one record for each resumption key. */
  type Records = seq<Entry<Str, Record>>

  /** An optional JavaScript string that is not empty. */
  predicate Given(s: Option<Str>) {
    s.Some? && s.value != []
  }

  // ---------- client addresses ----------

  const MAPPED: Str := L("::ffff:")

  function WithoutMapping(s: Str): Str {
    if MAPPED <= s then s[7..] else s
  }

  /** `normalizeIp`: the first hop, trimmed, without the IPv4-mapped prefix. */
  function NormalizeIp(ip: Option<Str>): Str {
    if !Given(ip) then [] else WithoutMapping(TrimEnd(TrimStart(Split(ip.value, COMMA)[0])))
  }

  lemma {:induction false} SplitHead(s: Str, separator: Unit)
    ensures separator !in Split(s, separator)[0]
    ensures separator !in s ==> Split(s, separator)[0] == s
  {
    if s != [] {
      SplitHead(s[1..], separator);
      HeadAndTail(s);
    }
  }

  lemma {:induction false} TrimFacts(s: Str)
    ensures TrimStart(s) != [] ==> !IsSpace(TrimStart(s)[0])
    ensures TrimEnd(s) != [] ==> !IsSpace(TrimEnd(s)[|TrimEnd(s)| - 1])
    ensures TrimEnd(s) <= s && |TrimStart(s)| <= |s|
    ensures s == [] || !IsSpace(s[0]) ==> TrimStart(s) == s
    ensures s == [] || !IsSpace(s[|s| - 1]) ==> TrimEnd(s) == s
    ensures forall c | c in TrimStart(s) :: c in s
  {
    if s != [] {
      TrimFacts(s[1..]);
      TrimFacts(s[..|s| - 1]);
    }
  }

  /** Neither a second mapped prefix nor a blank in front. */
  predicate Settled(ip: Str) {
    !(MAPPED <= ip) && (ip == [] || !IsSpace(ip[0]))
  }

  lemma SecondPass(ip: Str)
    requires ip != [] && COMMA !in ip && !IsSpace(ip[|ip| - 1])
    ensures if Settled(ip) then NormalizeIp(Some(ip)) == ip else |NormalizeIp(Some(ip))| < |ip|
  {
    SplitHead(ip, COMMA);
    TrimFacts(ip);
    TrimFacts(TrimStart(ip));
    if IsSpace(ip[0]) {
      TrimFacts(ip[1..]);
      assert |TrimStart(ip)| < |ip|;
    }
  }

  /** Every stored address fits the description of `SecondPass`. */
  lemma FirstPass(ip: Option<Str>)
    ensures COMMA !in NormalizeIp(ip)
    ensures NormalizeIp(ip) != [] ==> !IsSpace(NormalizeIp(ip)[|NormalizeIp(ip)| - 1])
  {
    if Given(ip) {
      var head := Split(ip.value, COMMA)[0];
      SplitHead(ip.value, COMMA);
      TrimFacts(head);
      TrimFacts(TrimStart(head));
      KeepsEnd(TrimEnd(TrimStart(head)));
    }
  }

  lemma KeepsEnd(s: Str)
    ensures WithoutMapping(s) != [] ==> WithoutMapping(s)[|WithoutMapping(s)| - 1] == s[|s| - 1]
    ensures forall c | c in WithoutMapping(s) :: c in s
  {
  }

  /**
   Normalising a stored address a second time is harmless exactly when one pass
   left neither a second mapped prefix nor a blank in front.
   */
  lemma NormalizeTwice(ip: Option<Str>)
    ensures NormalizeIp(Some(NormalizeIp(ip))) == NormalizeIp(ip) <==> Settled(NormalizeIp(ip))
  {
    FirstPass(ip);
    if NormalizeIp(ip) != [] {
      SecondPass(NormalizeIp(ip));
    }
  }

  predicate Blanks(s: Str) {
    forall i | 0 <= i < |s| :: IsSpace(s[i])
  }

  lemma {:induction false} FirstHop(hop: Str, rest: Str)
    requires COMMA !in hop
    ensures Split(hop, COMMA)[0] == hop == Split(hop + ([COMMA] + rest), COMMA)[0]
  {
    if hop == [] {
      assert hop + ([COMMA] + rest) == [COMMA] + rest;
    } else {
      assert hop[0] in hop;
      FirstHop(hop[1..], rest);
      TailOfConcat(hop, [COMMA] + rest);
      HeadAndTail(hop);
    }
  }

  lemma {:induction false} StartTrimmed(before: Str, s: Str)
    requires Blanks(before) && (s == [] || !IsSpace(s[0]))
    ensures TrimStart(before + s) == s
  {
    if before == [] {
      assert before + s == s;
    } else {
      TailOfConcat(before, s);
      StartTrimmed(before[1..], s);
    }
  }

  lemma {:induction false} EndTrimmed(s: Str, after: Str)
    requires Blanks(after) && (s == [] || !IsSpace(s[|s| - 1]))
    ensures TrimEnd(s + after) == s
  {
    if after == [] {
      assert s + after == s;
    } else {
      assert (s + after)[..|s + after| - 1] == s + after[..|after| - 1];
      EndTrimmed(s, after[..|after| - 1]);
    }
  }

  lemma {:induction false} OnlyBlanks(s: Str)
    requires Blanks(s)
    ensures TrimStart(s) == []
  {
    if s != [] {
      OnlyBlanks(s[1..]);
    }
  }

  /** The first of several addresses, without the blanks around it and without the mapped prefix. */
  lemma NormalizeExactly(before: Str, address: Str, after: Str, others: Option<Str>)
    requires Blanks(before) && Blanks(after) && COMMA !in address
    requires address != [] ==> !IsSpace(address[0]) && !IsSpace(address[|address| - 1])
    ensures NormalizeIp(None) == []
    ensures var value := before + address + after + (if others.Some? then [COMMA] + others.value else []);
      NormalizeIp(Some(value)) == if L("::ffff:") <= address then address[7..] else address
  {
    var hop := before + address + after;
    var value := hop + (if others.Some? then [COMMA] + others.value else []);
    assert COMMA !in hop by {
      assert !IsSpace(COMMA);
    }
    FirstHop(hop, if others.Some? then others.value else []);
    assert others.None? ==> value == hop;
    if address == [] {
      assert hop == before + after;
      OnlyBlanks(hop);
    } else {
      ConcatAssociates(before, address, after);
      StartTrimmed(before, address + after);
      EndTrimmed(address, after);
    }
  }

  // ---------- what each operation does ----------

  /** `socketIsLive`; without a socket server every session counts as connected. */
  predicate Live(sockets: Option<set<Str>>, sessionId: Str) {
    sockets.None? || sessionId in sockets.value
  }

  /** A different session that is still connected owns the record. */
  predicate Blocked(records: Records, sockets: Option<set<Str>>, key: Str, sessionId: Str) {
    var existing := Get(records, key);
    existing.Some? && existing.value.sessionId != sessionId && Live(sockets, existing.value.sessionId)
  }

  function ResumptionRef(platform: Str, actor: Str, socket: Option<Str>, ip: Str): Option<Resumption> {
    if ip != [] && Given(socket) then Some(Resumption(ResumptionKey(platform, actor, ip), ip)) else None
  }

  /** `anonymousScope` */
  function AnonymousScope(records: Records, sockets: Option<set<Str>>, platform: Str, actor: Str,
                          credential: Option<Str>, socket: Option<Str>, sessionIp: Option<Str>): Result<ConnectionScope>
  {
    var resumption := ResumptionRef(platform, actor, socket, NormalizeIp(sessionIp));
    var record := if resumption.Some? then Get(records, resumption.value.key) else None;
    if record.Some? && (record.value.sessionId == socket.value || !Live(sockets, record.value.sessionId)) then
      Ok(ConnectionScope(record.value.scope, resumption))
    else
      var scope := if socket.Some? then socket else credential;
      if Given(scope) then Ok(ConnectionScope(scope.value, resumption))
      else Err("cannot resolve a connection scope without a session")
  }

  /** `rememberAnonymousScope` */
  function Remembered(records: Records, sockets: Option<set<Str>>, ref: Resumption,
                      scope: Str, instanceId: Str, sessionId: Str): Records
  {
    if scope == [] || sessionId == [] || Blocked(records, sockets, ref.key, sessionId) then records
    else Set(records, ref.key, Record(scope, instanceId, sessionId, ref.ip))
  }

  function PointsAt(instanceId: Str): Record -> bool {
    (r: Record) => r.instanceId == instanceId
  }

  /** `forgetAnonymousScopes` */
  function Forgotten(records: Records, instanceId: Str): Records {
    Without(records, PointsAt(instanceId))
  }

  /** One turn of the loop in `reassignAnonymousScopes`. */
  function Moved(records: Records, e: Entry<Str, Record>, from: Str, to: Str, platform: Str,
      actor: Option<Str>): Records {
    if e.value.instanceId != from then records
    else if !Given(actor) then Delete(records, e.key)
    else Set(Delete(records, e.key), ResumptionKey(platform, actor.value, e.value.ip), e.value.(instanceId := to))
  }

  /** The loop of `reassignAnonymousScopes` over a snapshot of the map. */
  function Reassigned(records: Records, snapshot: Records, from: Str, to: Str, platform: Str,
      actor: Option<Str>): Records {
    if snapshot == [] then records
    else
      var last := |snapshot| - 1;
      Moved(Reassigned(records, snapshot[..last], from, to, platform, actor), snapshot[last], from, to, platform, actor)
  }

  // ---------- the registry ----------

  class ScopeRegistry {
    var entries: Records

    ghost predicate Valid()
      reads this
    {
      Distinct(entries)
    }

    constructor ()
      ensures Valid() && entries == []
    {
      entries := [];
    }

    method Resolve(sockets: Option<set<Str>>, platform: Str, actor: Str,
                   credential: Option<Str>, socket: Option<Str>, sessionIp: Option<Str>)
                     returns (r: Result<ConnectionScope>)
      ensures r == AnonymousScope(entries, sockets, platform, actor, credential, socket, sessionIp)
    {
      var ip := NormalizeIp(sessionIp);
      var resumption: Option<Resumption> := None;
      if ip != [] && Given(socket) {
        resumption := Some(Resumption(ResumptionKey(platform, actor, ip), ip));
      }
      if resumption.Some? {
        var record := Get(entries, resumption.value.key);
        if record.Some? {
          var ownedByCaller := record.value.sessionId == socket.value;
          if ownedByCaller || !Live(sockets, record.value.sessionId) {
            return Ok(ConnectionScope(record.value.scope, resumption));
          }
        }
      }
      var scope := if socket.Some? then socket else credential;
      if !Given(scope) {
        return Err("cannot resolve a connection scope without a session");
      }
      return Ok(ConnectionScope(scope.value, resumption));
    }

    method Remember(sockets: Option<set<Str>>, ref: Resumption, scope: Str, instanceId: Str, sessionId: Str)
      requires Valid()
      modifies this
      ensures Valid()
      ensures entries == Remembered(old(entries), sockets, ref, scope, instanceId, sessionId)
    {
      if scope == [] || sessionId == [] {
        return;
      }
      var existing := Get(entries, ref.key);
      if existing.Some? && existing.value.sessionId != sessionId && Live(sockets, existing.value.sessionId) {
        return;
      }
      SetDistinct(entries, ref.key, Record(scope, instanceId, sessionId, ref.ip));
      entries := Set(entries, ref.key, Record(scope, instanceId, sessionId, ref.ip));
    }

    method Reassign(from: Str, to: Str, platform: Str, actor: Option<Str>)
      requires Valid()
      modifies this
      ensures Valid()
      ensures entries == Reassigned(old(entries), old(entries), from, to, platform, actor)
    {
      var snapshot := entries;
      for i := 0 to |snapshot|
        invariant Valid()
        invariant entries == Reassigned(snapshot, snapshot[..i], from, to, platform, actor)
      {
        assert snapshot[..i + 1][..i] == snapshot[..i];
        var e := snapshot[i];
        if e.value.instanceId == from {
          DeleteDistinct(entries, e.key);
          entries := Delete(entries, e.key);
          if Given(actor) {
            var key := ResumptionKey(platform, actor.value, e.value.ip);
            SetDistinct(entries, key, e.value.(instanceId := to));
            entries := Set(entries, key, e.value.(instanceId := to));
          }
        }
      }
      assert snapshot[..|snapshot|] == snapshot;
    }

    /** The map is walked while entries are deleted from it. */
    method Forget(instanceId: Str)
      requires Valid()
      modifies this
      ensures Valid()
      ensures entries == Forgotten(old(entries), instanceId)
    {
      var before := entries;
      var i := 0;
      WithoutDistinct(before, PointsAt(instanceId));
      while i < |entries|
        invariant 0 <= i <= |entries|
        invariant Distinct(entries)
        invariant entries[..i] + Forgotten(entries[i..], instanceId) == Forgotten(before, instanceId)
        decreases |entries| - i
      {
        var e := entries[i];
        ghost var front, rest := entries[..i], entries[i + 1..];
        assert entries[i..][1..] == rest;
        ForgetStep(entries[i..], instanceId);
        if e.value.instanceId == instanceId {
          DeleteAt(entries, i);
          entries := Delete(entries, e.key);
          assert entries[..i] == front && entries[i..] == rest;
        } else {
          ConcatAssociates(front, [e], Forgotten(rest, instanceId));
          i := i + 1;
          assert entries[..i] == front + [e] && entries[i..] == rest;
        }
      }
      assert entries[..i] + Forgotten(entries[i..], instanceId) == entries;
    }
  }

  lemma ForgetStep(m: Records, instanceId: Str)
    requires m != []
    ensures m[0].value.instanceId == instanceId ==> Forgotten(m, instanceId) == Forgotten(m[1..], instanceId)
    ensures m[0].value.instanceId != instanceId ==> Forgotten(m, instanceId) == [m[0]] + Forgotten(m[1..], instanceId)
  {
    assert [] + Forgotten(m[1..], instanceId) == Forgotten(m[1..], instanceId);
  }

  // ---------- resolve and remember ----------

  /** HTTP requests, which have no socket, neither inherit a scope nor leave one behind. */
  lemma OnlySocketsResume(records: Records, sockets: Option<set<Str>>, platform: Str, actor: Str,
                          session: Str, sessionIp: Option<Str>)
    requires session != []
    ensures AnonymousScope(records, sockets, platform, actor, Some(session), None, sessionIp)
         == Ok(ConnectionScope(session, None))
  {
  }

  /**
   A scope that is not the caller's own id comes from a record at exactly the
   caller's platform, actor and address, whose owner is the caller or has gone.
   */
  lemma ResolveFrom(records: Records, sockets: Option<set<Str>>, platform: Str, actor: Str,
                    credential: Option<Str>, session: Str, sessionIp: Option<Str>)
    requires session != []
    ensures var r := AnonymousScope(records, sockets, platform, actor, credential, Some(session), sessionIp);
      var ip := NormalizeIp(sessionIp);
      var key := ResumptionKey(platform, actor, ip);
      && r.Ok?
      && (r.value.resumption.Some? <==> ip != [])
      && (ip != [] ==> r.value.resumption.value == Resumption(key, ip))
      && r.value.scope == (if ip != [] && Get(records, key).Some? && !Blocked(records, sockets, key, session)
                           then Get(records, key).value.scope else session)
  {
  }

  /** A caller gets no scope exactly without a session id: an empty one hides the credential's. */
  lemma ResolveRefused(records: Records, sockets: Option<set<Str>>, platform: Str, actor: Str,
                       credential: Option<Str>, socket: Option<Str>, sessionIp: Option<Str>)
    ensures AnonymousScope(records, sockets, platform, actor, credential, socket, sessionIp).Err?
       <==> socket == Some([]) || (socket.None? && (credential.None? || credential == Some([])))
  {
  }

  /** Another session that is still connected has the record of this key. */
  predicate Taken(records: Records, sockets: Option<set<Str>>, key: Str, sessionId: Str) {
    && Get(records, key).Some? && Get(records, key).value.sessionId != sessionId
    && (sockets.Some? ==> Get(records, key).value.sessionId in sockets.value)
  }

  /** Remembering writes one record, and only for a session with a scope whose key is not taken. */
  lemma RememberExactly(records: Records, sockets: Option<set<Str>>, ref: Resumption, scope: Str, instanceId: Str,
                        sessionId: Str, key: Str)
    ensures Get(Remembered(records, sockets, ref, scope, instanceId, sessionId), key) ==
      if key == ref.key && scope != [] && sessionId != [] && !Taken(records, sockets, key, sessionId)
      then Some(Record(scope, instanceId, sessionId, ref.ip))
      else Get(records, key)
  {
    GetSet(records, ref.key, Record(scope, instanceId, sessionId, ref.ip), key);
  }

  /** What was remembered is what the same session resolves next, and nothing else changed. */
  lemma RememberThenResolve(records: Records, sockets: Option<set<Str>>, platform: Str, actor: Str,
                            session: Str, sessionIp: Option<Str>, scope: Str, instanceId: Str, k: Str)
    requires session != [] && scope != [] && NormalizeIp(sessionIp) != []
    ensures var key := ResumptionKey(platform, actor, NormalizeIp(sessionIp));
      var after := Remembered(records, sockets, Resumption(key, NormalizeIp(sessionIp)), scope, instanceId, session);
      var next := AnonymousScope(after, sockets, platform, actor, None, Some(session), sessionIp);
      && (k != key ==> Get(after, k) == Get(records, k))
      && (Blocked(records, sockets, key, session) ==> after == records && next.value.scope == session)
      && (!Blocked(records, sockets, key, session) ==>
            && Get(after, key) == Some(Record(scope, instanceId, session, NormalizeIp(sessionIp)))
            && next.value.scope == scope)
  {
    var key := ResumptionKey(platform, actor, NormalizeIp(sessionIp));
    var made := Record(scope, instanceId, session, NormalizeIp(sessionIp));
    GetSet(records, key, made, k);
    GetSet(records, key, made, key);
  }

  /** Shutdown removes every record of its instance and no other. */
  lemma ForgetRemoves(records: Records, instanceId: Str, k: Str)
    requires Distinct(records)
    ensures Distinct(Forgotten(records, instanceId))
    ensures var r := Get(records, k);
      Get(Forgotten(records, instanceId), k) ==
        if r.Some? && r.value.instanceId != instanceId then r else None
  {
    WithoutDistinct(records, PointsAt(instanceId));
    GetWithout(records, PointsAt(instanceId), k);
  }

  // ---------- rename ----------

  /** Every record of the instance sits under the key of one platform and actor. */
  predicate FiledUnder(snapshot: Records, from: Str, platform: Str, actor: Str) {
    forall i | 0 <= i < |snapshot| && snapshot[i].value.instanceId == from ::
      snapshot[i].key == ResumptionKey(platform, actor, snapshot[i].value.ip)
  }

  /** The records of the instance that the rename files under the key `k`. */
  predicate Arrives(e: Entry<Str, Record>, from: Str, platform: Str, actor: Option<Str>, k: Str) {
    e.value.instanceId == from && Given(actor) && ResumptionKey(platform, actor.value, e.value.ip) == k
  }

  predicate Leaves(e: Entry<Str, Record>, from: Str, k: Str) {
    e.value.instanceId == from && e.key == k
  }

  /** What the map holds at `k` after the snapshot was processed, starting from `records`. */
  predicate RenamedAt(result: Records, records: Records, snapshot: Records,
                      from: Str, to: Str, platform: Str, actor: Option<Str>, k: Str)
  {
    && (forall i | 0 <= i < |snapshot| && Arrives(snapshot[i], from, platform, actor, k) ::
          Get(result, k) == Some(snapshot[i].value.(instanceId := to)))
    && ((forall i | 0 <= i < |snapshot| :: !Arrives(snapshot[i], from, platform, actor, k)) ==>
          Get(result, k) == if exists i | 0 <= i < |snapshot| :: Leaves(snapshot[i], from, k) then None
            else Get(records, k))
  }

  lemma MovedAt(records: Records, e: Entry<Str, Record>, from: Str, to: Str, platform: Str, actor: Option<Str>, k: Str)
    ensures Get(Moved(records, e, from, to, platform, actor), k) ==
      if Arrives(e, from, platform, actor, k) then Some(e.value.(instanceId := to))
      else if Leaves(e, from, k) then None
      else Get(records, k)
  {
    GetDelete(records, e.key, k);
    if Given(actor) {
      GetSet(Delete(records, e.key), ResumptionKey(platform, actor.value, e.value.ip), e.value.(instanceId := to), k);
    }
  }

  /** Two records of one instance cannot arrive at one key, and none leaves the key where another arrived. */
  lemma NoClash(e: Entry<Str, Record>, d: Entry<Str, Record>, from: Str, platform: Str, actor: Str, next: Option<Str>,
      k: Str)
    requires e.value.instanceId == from && d.value.instanceId == from
    requires e.key == ResumptionKey(platform, actor, e.value.ip)
    requires d.key == ResumptionKey(platform, actor, d.value.ip)
    requires e.key != d.key
    requires Arrives(e, from, platform, next, k)
    ensures !Arrives(d, from, platform, next, k) && !Leaves(d, from, k)
  {
    KeysInjective(platform, actor, e.value.ip, platform, actor, d.value.ip);
    KeysInjective(platform, next.value, e.value.ip, platform, next.value, d.value.ip);
    KeysInjective(platform, next.value, e.value.ip, platform, actor, d.value.ip);
  }

  /**
   The whole effect of a rename, key by key: a record of the instance is found
   under its new key with scope, session and address kept (whatever was filed
   there before is overwritten), its old key is free, every other key is
   untouched.
   */
  lemma {:induction false} RenameMoves(records: Records, snapshot: Records, from: Str, to: Str,
                                       platform: Str, actor: Str, next: Option<Str>, k: Str)
    requires Distinct(snapshot) && FiledUnder(snapshot, from, platform, actor)
    ensures RenamedAt(Reassigned(records, snapshot, from, to, platform, next), records, snapshot, from, to, platform,
      next, k)
  {
    if snapshot != [] {
      var last := |snapshot| - 1;
      var front, e := snapshot[..last], snapshot[last];
      RenameMoves(records, front, from, to, platform, actor, next, k);
      var earlier := Reassigned(records, front, from, to, platform, next);
      MovedAt(earlier, e, from, to, platform, next, k);
      forall i | 0 <= i < last && Arrives(front[i], from, platform, next, k) && e.value.instanceId == from
        ensures !Arrives(e, from, platform, next, k) && !Leaves(e, from, k)
      {
        assert front[i] == snapshot[i];
        NoClash(front[i], e, from, platform, actor, next, k);
      }
      assert snapshot == front + [e];
      RenamedOneMore(Moved(earlier, e, from, to, platform, next), earlier, records, front, e, from, to, platform,
        next, k);
    }
  }

  /** One more entry of the snapshot is processed. */
  lemma RenamedOneMore(result: Records, earlier: Records, records: Records, front: Records, e: Entry<Str, Record>,
                       from: Str, to: Str, platform: Str, next: Option<Str>, k: Str)
    requires RenamedAt(earlier, records, front, from, to, platform, next, k)
    requires Get(result, k) ==
      if Arrives(e, from, platform, next, k) then Some(e.value.(instanceId := to))
      else if Leaves(e, from, k) then None
      else Get(earlier, k)
    requires forall i | 0 <= i < |front| && Arrives(front[i], from, platform, next, k) && e.value.instanceId == from ::
      !Arrives(e, from, platform, next, k) && !Leaves(e, from, k)
    ensures RenamedAt(result, records, front + [e], from, to, platform, next, k)
  {
    var snapshot := front + [e];
    assert forall i | 0 <= i < |front| :: snapshot[i] == front[i];
    assert snapshot[|front|] == e;
  }

  lemma {:induction false} ReassignedDistinct(records: Records, snapshot: Records, from: Str, to: Str, platform: Str,
      actor: Option<Str>)
    requires Distinct(records)
    ensures Distinct(Reassigned(records, snapshot, from, to, platform, actor))
  {
    if snapshot != [] {
      var last := |snapshot| - 1;
      var e := snapshot[last];
      var earlier := Reassigned(records, snapshot[..last], from, to, platform, actor);
      ReassignedDistinct(records, snapshot[..last], from, to, platform, actor);
      DeleteDistinct(earlier, e.key);
      if Given(actor) {
        SetDistinct(Delete(earlier, e.key), ResumptionKey(platform, actor.value, e.value.ip),
          e.value.(instanceId := to));
      }
    }
  }

  /** A rename away from an id leaves no record pointing at it. */
  lemma RenameLeavesNone(records: Records, from: Str, to: Str, platform: Str, actor: Str, next: Option<Str>, k: Str)
    requires Distinct(records) && FiledUnder(records, from, platform, actor) && from != to
    ensures var r := Get(Reassigned(records, records, from, to, platform, next), k);
      r.Some? ==> r.value.instanceId != from
  {
    RenameMoves(records, records, from, to, platform, actor, next, k);
    var r := Get(records, k);
    if r.Some? && r.value.instanceId == from {
      var i :| 0 <= i < |records| && records[i] == Entry(k, r.value);
      assert Leaves(records[i], from, k);
    }
  }
}
