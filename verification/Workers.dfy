/**
 The map of running workers across crashes, replacements, teardowns and
 renames, together with the scope records that point into it
 (packages/server/src/platform-instance.ts, packages/server/src/process-manager.ts).
 */
module Workers {
  import opened JsString
  import opened Results
  import opened JsMap
  import opened Scopes
  import JsonKey

  /** `alive` is whether the child process still runs, `closing` whether teardown has begun. */
  datatype Worker = Worker(id: Str, platform: Str, alive: bool, closing: bool, gone: bool)

  /** What `ensureProcessNow` records once it has a worker. */
  datatype Claim = Claim(resumption: Option<Resumption>, scope: Str, session: Str)

  /** A replacement waiting for the teardown of the worker it replaces. */
  datatype Replacement = Replacement(worker: nat, platform: Str, claim: Claim)

  datatype Host = Host(
    instances: map<Str, nat>,
    workers: seq<Worker>,
    records: Records,
    replacing: map<Str, Replacement>,
    limit: int)

  type Sockets = Option<set<Str>>

  datatype Step =
    | Ensure(id: Str, platform: Str, claim: Claim, sockets: Sockets)
    | Resume(id: Str, sockets: Sockets)
    | Exit(n: nat)
    | BeginTeardown(n: nat)
    | EndTeardown(n: nat)
    | UpdateIdentifier(n: nat, id: Str, actor: Option<Str>)

  function Fresh(limit: int): Host {
    Host(map[], [], [], map[], limit)
  }

  // ---------- the steps ----------

  predicate Writes(s: Host, claim: Claim, sockets: Sockets) {
    && claim.resumption.Some? && claim.session != [] && claim.scope != []
    && !Blocked(s.records, sockets, claim.resumption.value.key, claim.session)
  }

  function Noted(s: Host, id: Str, claim: Claim, sockets: Sockets): Records {
    if claim.resumption.Some? && claim.session != []
    then Remembered(s.records, sockets, claim.resumption.value, claim.scope, id, claim.session)
    else s.records
  }

  /** `createPlatformInstance`, entering the map and recording the scope. */
  function Created(s: Host, id: Str, platform: Str, claim: Claim, sockets: Sockets): Host {
    s.(workers := s.workers + [Worker(id, platform, true, false, false)],
       instances := s.instances[id := |s.workers|],
       records := Noted(s, id, claim, sockets))
  }

  /** The synchronous start of `teardown`; a second call changes nothing. */
  function Closing(s: Host, n: nat): Host
    requires n < |s.workers|
  {
    if s.workers[n].closing then s
    else s.(workers := s.workers[n := s.workers[n].(closing := true)],
            records := Forgotten(s.records, s.workers[n].id))
  }

  /** `assertInstanceCapacity`: a dead worker in the slot is not counted. */
  predicate AtCapacity(s: Host, id: Str) {
    s.limit > 0 && (if id in s.instances then |s.instances| - 1 else |s.instances|) >= s.limit
  }

  predicate Reusable(s: Host, id: Str) {
    id in s.instances && s.instances[id] < |s.workers| && s.workers[s.instances[id]].alive
  }

  predicate Enabled(s: Host, step: Step) {
    match step
    // runs for one identifier are chained
    case Ensure(id, _, _, _) => id !in s.replacing && (id in s.instances ==> s.instances[id] < |s.workers|)
    case Resume(id, _) => id in s.replacing && s.replacing[id].worker < |s.workers|
      && s.workers[s.replacing[id].worker].gone
    case Exit(n) => n < |s.workers|
    case BeginTeardown(n) => n < |s.workers|
    case EndTeardown(n) => n < |s.workers| && s.workers[n].closing && !s.workers[n].gone
    // teardown removes the listener that takes this message
    case UpdateIdentifier(n, _, _) => n < |s.workers| && !s.workers[n].closing
  }

  function Next(s: Host, step: Step): Host
    requires Enabled(s, step)
  {
    match step
    case Ensure(id, platform, claim, sockets) =>
      if Reusable(s, id) then s.(records := Noted(s, id, claim, sockets))
      else if AtCapacity(s, id) then s
      else if id in s.instances then
        var closing := Closing(s, s.instances[id]);
        closing.(replacing := s.replacing[id := Replacement(s.instances[id], platform, claim)])
      else Created(s, id, platform, claim, sockets)
    case Resume(id, sockets) =>
      var r := s.replacing[id];
      Created(s, id, r.platform, r.claim, sockets).(replacing := s.replacing - {id})
    case Exit(n) => s.(workers := s.workers[n := s.workers[n].(alive := false)])
    case BeginTeardown(n) => Closing(s, n)
    case EndTeardown(n) =>
      var id := s.workers[n].id;
      var done := s.(workers := s.workers[n := s.workers[n].(gone := true)]);
      if id in s.instances && s.instances[id] == n then done.(instances := s.instances - {id}) else done
    case UpdateIdentifier(n, id, actor) =>
      var w := s.workers[n];
      s.(workers := s.workers[n := w.(id := id)],
         instances := (s.instances - {w.id})[id := n],
         records := Reassigned(s.records, s.records, w.id, id, w.platform, actor))
  }

  predicate Allowed(s: Host, steps: seq<Step>)
    decreases |steps|
  {
    steps == [] || (Enabled(s, steps[0]) && Allowed(Next(s, steps[0]), steps[1..]))
  }

  function After(s: Host, steps: seq<Step>): Host
    requires Allowed(s, steps)
    decreases |steps|
  {
    if steps == [] then s else After(Next(s, steps[0]), steps[1..])
  }

  // ---------- every record points at a worker in the map ----------

  ghost predicate Shape(s: Host) {
    && Distinct(s.records)
    && (forall n | 0 <= n < |s.workers| :: s.workers[n].gone ==> s.workers[n].closing)
    && (forall id | id in s.instances ::
          s.instances[id] < |s.workers| && s.workers[s.instances[id]].id == id && !s.workers[s.instances[id]].gone)
    && (forall id | id in s.replacing ::
          var w := s.replacing[id].worker;
          w < |s.workers| && s.workers[w].id == id && s.workers[w].closing)
  }

  /** The instance is in the map and its teardown has not begun. */
  predicate Serves(s: Host, id: Str) {
    id in s.instances && s.instances[id] < |s.workers| && !s.workers[s.instances[id]].closing
  }

  ghost predicate PointsInside(s: Host) {
    forall k | Get(s.records, k).Some? :: Serves(s, Get(s.records, k).value.instanceId)
  }

  /** The one step that can leave a record behind: reuse of a worker already being torn down. */
  predicate ReusesClosing(s: Host, step: Step) {
    && step.Ensure? && Reusable(s, step.id) && s.workers[s.instances[step.id]].closing
    && Writes(s, step.claim, step.sockets)
  }

  lemma NotedAt(s: Host, id: Str, claim: Claim, sockets: Sockets, k: Str)
    ensures Get(Noted(s, id, claim, sockets), k) ==
      if Writes(s, claim, sockets) && k == claim.resumption.value.key
      then Some(Record(claim.scope, id, claim.session, claim.resumption.value.ip))
      else Get(s.records, k)
  {
    if claim.resumption.Some? {
      GetSet(s.records, claim.resumption.value.key, Record(claim.scope, id, claim.session, claim.resumption.value.ip),
        k);
    }
  }

  lemma NotedDistinct(s: Host, id: Str, claim: Claim, sockets: Sockets)
    requires Distinct(s.records)
    ensures Distinct(Noted(s, id, claim, sockets))
  {
    if claim.resumption.Some? {
      SetDistinct(s.records, claim.resumption.value.key,
        Record(claim.scope, id, claim.session, claim.resumption.value.ip));
    }
  }

  /** After a rename every record is an untouched one of another instance or points at the new id. */
  lemma {:induction false} ReassignedFrom(records: Records, snapshot: Records, from: Str, to: Str,
                                          platform: Str, actor: Option<Str>, k: Str)
    ensures var r := Get(Reassigned(records, snapshot, from, to, platform, actor), k);
      r.Some? ==>
        r.value.instanceId == to
        || (r == Get(records, k) && forall i | 0 <= i < |snapshot| :: !Leaves(snapshot[i], from, k))
  {
    if snapshot != [] {
      var last := |snapshot| - 1;
      ReassignedFrom(records, snapshot[..last], from, to, platform, actor, k);
      MovedAt(Reassigned(records, snapshot[..last], from, to, platform, actor), snapshot[last], from, to, platform,
        actor, k);
      assert forall i | 0 <= i < last :: snapshot[i] == snapshot[..last][i];
    }
  }

  lemma ClosingShape(s: Host, n: nat)
    requires Shape(s) && n < |s.workers|
    ensures Shape(Closing(s, n)) && Closing(s, n).workers[n].closing
  {
    ForgetRemoves(s.records, s.workers[n].id, []);
  }

  lemma RenameShape(s: Host, n: nat, id: Str, actor: Option<Str>)
    requires Shape(s) && Enabled(s, UpdateIdentifier(n, id, actor))
    ensures Shape(Next(s, UpdateIdentifier(n, id, actor)))
  {
    ReassignedDistinct(s.records, s.records, s.workers[n].id, id, s.workers[n].platform, actor);
  }

  lemma CreatedShape(s: Host, id: Str, platform: Str, claim: Claim, sockets: Sockets)
    requires Shape(s)
    ensures Shape(Created(s, id, platform, claim, sockets))
  {
    NotedDistinct(s, id, claim, sockets);
  }

  lemma EnsureShape(s: Host, id: Str, platform: Str, claim: Claim, sockets: Sockets)
    requires Shape(s) && Enabled(s, Ensure(id, platform, claim, sockets))
    ensures Shape(Next(s, Ensure(id, platform, claim, sockets)))
  {
    if Reusable(s, id) {
      NotedDistinct(s, id, claim, sockets);
    } else if id in s.instances {
      ClosingShape(s, s.instances[id]);
    } else {
      CreatedShape(s, id, platform, claim, sockets);
    }
  }

  lemma ShapeKept(s: Host, step: Step)
    requires Shape(s) && Enabled(s, step)
    ensures Shape(Next(s, step))
  {
    match step
    case Ensure(id, platform, claim, sockets) => EnsureShape(s, id, platform, claim, sockets);
    case Resume(id, sockets) =>
      CreatedShape(s, id, s.replacing[id].platform, s.replacing[id].claim, sockets);
    case BeginTeardown(n) => ClosingShape(s, n);
    case UpdateIdentifier(n, id, actor) => RenameShape(s, n, id, actor);
    case _ =>
  }

  lemma ClosingPointsInside(s: Host, n: nat)
    requires Shape(s) && PointsInside(s) && n < |s.workers|
    ensures PointsInside(Closing(s, n))
  {
    var next := Closing(s, n);
    forall k | Get(next.records, k).Some? ensures Serves(next, Get(next.records, k).value.instanceId) {
      ForgetRemoves(s.records, s.workers[n].id, k);
    }
  }

  lemma CreatedPointsInside(s: Host, id: Str, platform: Str, claim: Claim, sockets: Sockets)
    requires Shape(s) && PointsInside(s)
    ensures PointsInside(Created(s, id, platform, claim, sockets))
  {
    var next := Created(s, id, platform, claim, sockets);
    forall k | Get(next.records, k).Some? ensures Serves(next, Get(next.records, k).value.instanceId) {
      NotedAt(s, id, claim, sockets, k);
    }
  }

  lemma RenamedPointsInside(s: Host, n: nat, id: Str, actor: Option<Str>)
    requires Shape(s) && PointsInside(s) && Enabled(s, UpdateIdentifier(n, id, actor))
    ensures PointsInside(Next(s, UpdateIdentifier(n, id, actor)))
  {
    var next := Next(s, UpdateIdentifier(n, id, actor));
    var from := s.workers[n].id;
    forall k | Get(next.records, k).Some? ensures Serves(next, Get(next.records, k).value.instanceId) {
      ReassignedFrom(s.records, s.records, from, id, s.workers[n].platform, actor, k);
      var r := Get(next.records, k).value;
      if r.instanceId != id {
        var i :| 0 <= i < |s.records| && s.records[i] == Entry(k, r);
        assert !Leaves(s.records[i], from, k);
      }
    }
  }

  lemma SafeStepPointsInside(s: Host, step: Step)
    requires Shape(s) && PointsInside(s) && Enabled(s, step) && !ReusesClosing(s, step)
    ensures PointsInside(Next(s, step))
  {
    var next := Next(s, step);
    match step
    case Ensure(id, platform, claim, sockets) =>
      if Reusable(s, id) {
        forall k | Get(next.records, k).Some? ensures Serves(next, Get(next.records, k).value.instanceId) {
          NotedAt(s, id, claim, sockets, k);
        }
      } else if !AtCapacity(s, id) {
        if id in s.instances {
          ClosingPointsInside(s, s.instances[id]);
          assert forall x :: Serves(next, x) == Serves(Closing(s, s.instances[id]), x);
        } else {
          CreatedPointsInside(s, id, platform, claim, sockets);
        }
      }
    case Resume(id, sockets) =>
      var made := Created(s, id, s.replacing[id].platform, s.replacing[id].claim, sockets);
      CreatedPointsInside(s, id, s.replacing[id].platform, s.replacing[id].claim, sockets);
      assert forall x :: Serves(next, x) == Serves(made, x);
    case Exit(n) =>
      assert forall x :: Serves(next, x) == Serves(s, x);
    case BeginTeardown(n) => ClosingPointsInside(s, n);
    case EndTeardown(n) =>
      assert forall x :: Serves(s, x) ==> Serves(next, x);
    case UpdateIdentifier(n, id, actor) => RenamedPointsInside(s, n, id, actor);
  }

  /** Reusing a worker that is being torn down is exactly what breaks the link. */
  lemma PointsInsideExactly(s: Host, step: Step)
    requires Shape(s) && PointsInside(s) && Enabled(s, step)
    ensures PointsInside(Next(s, step)) <==> !ReusesClosing(s, step)
  {
    if ReusesClosing(s, step) {
      NotedAt(s, step.id, step.claim, step.sockets, step.claim.resumption.value.key);
      assert !Serves(Next(s, step), step.id);
    } else {
      SafeStepPointsInside(s, step);
    }
  }

  /** The record left behind outlives its worker: once the teardown ends it points nowhere. */
  lemma ReuseDangles(s: Host, step: Step)
    requires Shape(s) && Enabled(s, step) && ReusesClosing(s, step)
    ensures var n := s.instances[step.id];
      var next := Next(s, step);
      && Enabled(next, EndTeardown(n))
      && var end := Next(next, EndTeardown(n));
      && var r := Get(end.records, step.claim.resumption.value.key);
      && r.Some? && r.value.instanceId == step.id && step.id !in end.instances
  {
    NotedAt(s, step.id, step.claim, step.sockets, step.claim.resumption.value.key);
  }

  predicate NeverReusesClosing(s: Host, steps: seq<Step>)
    requires Allowed(s, steps)
    decreases |steps|
  {
    steps == [] || (!ReusesClosing(s, steps[0]) && NeverReusesClosing(Next(s, steps[0]), steps[1..]))
  }

  lemma {:induction false} RunPointsInside(s: Host, steps: seq<Step>)
    requires Shape(s) && PointsInside(s) && Allowed(s, steps) && NeverReusesClosing(s, steps)
    ensures Shape(After(s, steps)) && PointsInside(After(s, steps))
    decreases |steps|
  {
    if steps != [] {
      ShapeKept(s, steps[0]);
      SafeStepPointsInside(s, steps[0]);
      RunPointsInside(Next(s, steps[0]), steps[1..]);
    }
  }

  /**
   In every run without such a reuse, renames and crashes included, every
   record points at a worker that is in the map and not being torn down.
   */
  lemma RecordsPointInside(limit: int, steps: seq<Step>, k: Str)
    requires Allowed(Fresh(limit), steps) && NeverReusesClosing(Fresh(limit), steps)
    ensures var s := After(Fresh(limit), steps);
      Get(s.records, k).Some? ==> Serves(s, Get(s.records, k).value.instanceId)
  {
    RunPointsInside(Fresh(limit), steps);
  }

  /** Such a reuse can happen: a heartbeat teardown begins while the child has not exited yet. */
  lemma ReuseHappens(id: Str, platform: Str, claim: Claim, sockets: Sockets)
    requires claim.resumption.Some? && claim.session != [] && claim.scope != []
    ensures var again := Ensure(id, platform, claim, sockets);
      && Allowed(Fresh(0), [again, BeginTeardown(0)])
      && ReusesClosing(After(Fresh(0), [again, BeginTeardown(0)]), again)
  {
    var again := Ensure(id, platform, claim, sockets);
    var one := Next(Fresh(0), again);
    var two := Next(one, BeginTeardown(0));
    var r := Record(claim.scope, id, claim.session, claim.resumption.value.ip);
    assert one.records == [Entry(claim.resumption.value.key, r)];
    ForgetStep(one.records, id);
    assert one.records[1..] == [] && two.records == [];
    assert [again, BeginTeardown(0)][1..] == [BeginTeardown(0)] && [BeginTeardown(0)][1..] == [];
    assert After(one, [BeginTeardown(0)]) == After(two, []) == two;
  }

  // ---------- one running worker for each identifier ----------

  ghost predicate Single(s: Host) {
    forall n | 0 <= n < |s.workers| && !s.workers[n].closing ::
      var id := s.workers[n].id;
      id in s.instances && s.instances[id] == n && id !in s.replacing
  }

  /** No other worker answers to the id, and none is about to be created under it. */
  ghost predicate Free(s: Host, n: nat, id: Str) {
    && (forall m | 0 <= m < |s.workers| && m != n && !s.workers[m].closing :: s.workers[m].id != id)
    && id !in s.replacing
  }

  ghost predicate RenamesToFree(s: Host, step: Step) {
    step.UpdateIdentifier? ==> Free(s, step.n, step.id)
  }

  lemma ClosingSingle(s: Host, n: nat)
    requires Single(s) && n < |s.workers|
    ensures Single(Closing(s, n))
  {
  }

  /** A rename to a free identifier is exactly what keeps workers and identifiers one to one. */
  lemma SingleExactly(s: Host, step: Step)
    requires Shape(s) && Single(s) && Enabled(s, step)
    ensures Single(Next(s, step)) <==> RenamesToFree(s, step)
  {
    var next := Next(s, step);
    match step
    case Ensure(id, _, _, _) =>
      if id in s.instances {
        ClosingSingle(s, s.instances[id]);
      }
    case Resume(id, _) =>
    case Exit(n) =>
    case BeginTeardown(n) =>
    case EndTeardown(n) =>
    case UpdateIdentifier(n, id, _) =>
      assert next.workers[n].id == id && !next.workers[n].closing;
      if Free(s, n, id) {
        forall m | 0 <= m < |next.workers| && !next.workers[m].closing
          ensures next.workers[m].id in next.instances && next.instances[next.workers[m].id] == m
          ensures next.workers[m].id !in next.replacing
        {
          if m != n {
            assert !s.workers[m].closing && !s.workers[n].closing;
          }
        }
      } else if id !in s.replacing {
        var m :| 0 <= m < |s.workers| && m != n && !s.workers[m].closing && s.workers[m].id == id;
        assert !next.workers[m].closing && next.workers[m].id == id;
      }
  }

  ghost predicate AlwaysToFree(s: Host, steps: seq<Step>)
    requires Allowed(s, steps)
    decreases |steps|
  {
    steps == [] || (RenamesToFree(s, steps[0]) && AlwaysToFree(Next(s, steps[0]), steps[1..]))
  }

  lemma {:induction false} RunSingle(s: Host, steps: seq<Step>)
    requires Shape(s) && Single(s) && Allowed(s, steps) && AlwaysToFree(s, steps)
    ensures Single(After(s, steps))
    decreases |steps|
  {
    if steps != [] {
      ShapeKept(s, steps[0]);
      SingleExactly(s, steps[0]);
      RunSingle(Next(s, steps[0]), steps[1..]);
    }
  }

  /**
   A crash, its replacement and any number of calls in between never leave two
   workers for one identifier, as long as renames go to free identifiers.
   */
  lemma NoDuplicateWorkers(limit: int, steps: seq<Step>, m: nat, n: nat)
    requires Allowed(Fresh(limit), steps) && AlwaysToFree(Fresh(limit), steps)
    requires var s := After(Fresh(limit), steps);
      m < |s.workers| && n < |s.workers| && !s.workers[m].closing && !s.workers[n].closing
      && s.workers[m].id == s.workers[n].id
    ensures m == n
  {
    RunSingle(Fresh(limit), steps);
  }

  /** Two workers not being torn down answer to one identifier. */
  predicate Twins(s: Host, m: nat, n: nat, id: Str) {
    && m < |s.workers| && n < |s.workers| && m != n && !s.workers[m].closing && !s.workers[n].closing
    && s.workers[m].id == id == s.workers[n].id
  }

  /** A rename to an identifier that is not free leaves twins, at the latest once a pending replacement is done. */
  lemma TwinsFollow(s: Host, step: Step, sockets: Sockets) returns (steps: seq<Step>, m: nat)
    requires Shape(s) && Enabled(s, step) && !RenamesToFree(s, step)
    ensures Allowed(Next(s, step), steps) && Twins(After(Next(s, step), steps), step.n, m, step.id)
  {
    if step.id in s.replacing {
      RenameShape(s, step.n, step.id, step.actor);
      steps, m := ReplacedBeside(Next(s, step), step.n, sockets);
    } else {
      m :| 0 <= m < |s.workers| && m != step.n && !s.workers[m].closing && s.workers[m].id == step.id;
      steps := [];
    }
  }

  /** A replacement is finished beside a worker that has taken its identifier. */
  lemma ReplacedBeside(s: Host, n: nat, sockets: Sockets) returns (steps: seq<Step>, m: nat)
    requires Shape(s) && n < |s.workers| && !s.workers[n].closing && s.workers[n].id in s.replacing
    ensures Allowed(s, steps) && Twins(After(s, steps), n, m, s.workers[n].id)
  {
    var id, w := s.workers[n].id, s.replacing[s.workers[n].id].worker;
    var resume := Resume(id, sockets);
    m := |s.workers|;
    if s.workers[w].gone {
      StepFirst(s, resume, []);
      steps := [resume] + [];
    } else {
      var ended := Next(s, EndTeardown(w));
      StepFirst(ended, resume, []);
      StepFirst(s, EndTeardown(w), [resume] + []);
      steps := [EndTeardown(w)] + ([resume] + []);
    }
  }

  lemma StepFirst(s: Host, step: Step, rest: seq<Step>)
    requires Enabled(s, step) && Allowed(Next(s, step), rest)
    ensures Allowed(s, [step] + rest) && After(s, [step] + rest) == After(Next(s, step), rest)
  {
    assert ([step] + rest)[1..] == rest;
  }

  /** Two workers run, and the first is renamed onto the identifier of the second. */
  lemma DuplicateHappens(a: Str, b: Str, platform: Str, claim: Claim, actor: Option<Str>) returns (steps: seq<Step>)
    requires a != b && claim.resumption.None?
    ensures Allowed(Fresh(0), steps)
    ensures var s := After(Fresh(0), steps);
      && |s.workers| == 2 && !s.workers[0].closing && !s.workers[1].closing
      && s.workers[0].id == b == s.workers[1].id && s.instances == map[b := 0]
  {
    var first, second, rename :=
      Ensure(a, platform, claim, None), Ensure(b, platform, claim, None), UpdateIdentifier(0, b, actor);
    var one := Next(Fresh(0), first);
    var two := Next(one, second);
    var three := Next(two, rename);
    assert one.instances == map[a := 0] && two.instances == map[a := 0, b := 1];
    assert three.instances == map[b := 0];
    StepFirst(two, rename, []);
    StepFirst(one, second, [rename] + []);
    StepFirst(Fresh(0), first, [second] + ([rename] + []));
    steps := [first] + ([second] + ([rename] + []));
  }

  // ---------- the instance limit ----------

  /** Identifiers with a worker in the map or one about to be created. */
  function Reserved(s: Host): set<Str> {
    s.instances.Keys + s.replacing.Keys
  }

  predicate Capped(s: Host) {
    s.limit > 0 ==> |Reserved(s)| <= s.limit
  }

  /**
   The step reserves one more identifier: a worker is created, or a worker whose
   own slot is gone or about to be filled again is renamed.
   */
  predicate TakesSlot(s: Host, step: Step)
    requires Enabled(s, step)
  {
    match step
    case Ensure(id, _, _, _) => id !in s.instances && !AtCapacity(s, id)
    case UpdateIdentifier(n, id, _) =>
      id !in Reserved(s) && (s.workers[n].id !in s.instances || s.workers[n].id in s.replacing)
    case _ => false
  }

  /** The check counts the map alone, and only for calls; this counts every step and pending replacements too. */
  predicate LeavesRoom(s: Host, step: Step)
    requires Enabled(s, step)
  {
    s.limit > 0 && TakesSlot(s, step) ==> |Reserved(s)| < s.limit
  }

  lemma SizeOfPart<T>(part: set<T>, whole: set<T>)
    requires part <= whole
    ensures |part| <= |whole|
  {
    if part != {} {
      var x :| x in part;
      SizeOfPart(part - {x}, whole - {x});
    }
  }

  /** Of the slots and the other identifiers held, what is left when `was` gives way to `id` among the slots. */
  lemma SlotMoves(slots: set<Str>, held: set<Str>, was: Str, id: Str)
    ensures var after := ((slots - {was}) + {id}) + held;
      if id !in slots + held && (was !in slots || was in held) then |after| == |slots + held| + 1
      else |after| <= |slots + held|
  {
    var after := ((slots - {was}) + {id}) + held;
    if id in slots + held {
      SizeOfPart(after, slots + held);
    } else if was in slots && was !in held {
      assert after == ((slots + held) - {was}) + {id};
    } else {
      assert after == (slots + held) + {id};
    }
  }

  lemma RenamedSlots(s: Host, n: nat, id: Str, actor: Option<Str>)
    requires Enabled(s, UpdateIdentifier(n, id, actor))
    ensures var next := Next(s, UpdateIdentifier(n, id, actor));
      && next.instances.Keys == (s.instances.Keys - {s.workers[n].id}) + {id}
      && next.replacing == s.replacing && next.limit == s.limit
  {
  }

  lemma RenameReserves(s: Host, step: Step, next: Host)
    requires Enabled(s, step) && step.UpdateIdentifier? && next == Next(s, step)
    ensures next.limit == s.limit
    ensures if TakesSlot(s, step) then |Reserved(next)| == |Reserved(s)| + 1 else |Reserved(next)| <= |Reserved(s)|
  {
    RenamedSlots(s, step.n, step.id, step.actor);
    SlotMoves(s.instances.Keys, s.replacing.Keys, s.workers[step.n].id, step.id);
  }

  lemma EnsureReserves(s: Host, step: Step)
    requires Shape(s) && Enabled(s, step) && step.Ensure?
    ensures Reserved(Next(s, step)) ==
      if step.id in s.instances || AtCapacity(s, step.id) then Reserved(s) else Reserved(s) + {step.id}
    ensures step.id !in s.replacing && Next(s, step).limit == s.limit
  {
  }

  lemma OthersReserve(s: Host, step: Step)
    requires Shape(s) && Enabled(s, step) && !step.Ensure? && !step.UpdateIdentifier?
    ensures Reserved(Next(s, step)) <= Reserved(s)
  {
  }

  /** A step that takes a slot reserves one identifier more; no other step reserves more than before. */
  lemma StepReserves(s: Host, step: Step)
    requires Shape(s) && Enabled(s, step)
    ensures Next(s, step).limit == s.limit
    ensures if TakesSlot(s, step) then |Reserved(Next(s, step))| == |Reserved(s)| + 1
            else |Reserved(Next(s, step))| <= |Reserved(s)|
  {
    if step.Ensure? {
      EnsureReserves(s, step);
    } else if step.UpdateIdentifier? {
      RenameReserves(s, step, Next(s, step));
    } else {
      OthersReserve(s, step);
      SizeOfPart(Reserved(Next(s, step)), Reserved(s));
    }
  }

  /** The limit is kept exactly when every step that takes a slot finds one that is really free. */
  lemma CapExactly(s: Host, step: Step)
    requires Shape(s) && Capped(s) && Enabled(s, step)
    ensures Capped(Next(s, step)) <==> LeavesRoom(s, step)
  {
    StepReserves(s, step);
  }

  predicate AlwaysRoom(s: Host, steps: seq<Step>)
    requires Allowed(s, steps)
    decreases |steps|
  {
    steps == [] || (LeavesRoom(s, steps[0]) && AlwaysRoom(Next(s, steps[0]), steps[1..]))
  }

  lemma {:induction false} RunCapped(s: Host, steps: seq<Step>)
    requires Shape(s) && Capped(s) && Allowed(s, steps) && AlwaysRoom(s, steps)
    ensures Capped(After(s, steps)) && After(s, steps).limit == s.limit
    decreases |steps|
  {
    if steps != [] {
      ShapeKept(s, steps[0]);
      CapExactly(s, steps[0]);
      StepReserves(s, steps[0]);
      RunCapped(Next(s, steps[0]), steps[1..]);
    }
  }

  /** In every run of such steps the map never holds more workers than the limit. */
  lemma LimitKept(limit: int, steps: seq<Step>)
    requires limit > 0 && Allowed(Fresh(limit), steps) && AlwaysRoom(Fresh(limit), steps)
    ensures |After(Fresh(limit), steps).instances| <= limit
  {
    var s := After(Fresh(limit), steps);
    RunCapped(Fresh(limit), steps);
    SizeOfPart(s.instances.Keys, Reserved(s));
    assert |s.instances| == |s.instances.Keys|;
  }

  /** Let every replacement that is under way complete. */
  lemma {:induction false} FinishReplacements(s: Host, sockets: Sockets) returns (steps: seq<Step>)
    requires Shape(s)
    ensures Allowed(s, steps) && After(s, steps).limit == s.limit
    ensures Reserved(s) <= After(s, steps).instances.Keys
    decreases |s.replacing|
  {
    if s.replacing.Keys == {} {
      steps := [];
    } else {
      var id :| id in s.replacing;
      var n := s.replacing[id].worker;
      if s.workers[n].gone {
        ResumeOne(s, id, sockets);
        var rest := FinishReplacements(Next(s, Resume(id, sockets)), sockets);
        steps := [Resume(id, sockets)] + rest;
        assert steps[1..] == rest;
      } else {
        var ready := Next(s, EndTeardown(n));
        ShapeKept(s, EndTeardown(n));
        ResumeOne(ready, id, sockets);
        var rest := FinishReplacements(Next(ready, Resume(id, sockets)), sockets);
        steps := [EndTeardown(n)] + ([Resume(id, sockets)] + rest);
        assert steps[1..] == [Resume(id, sockets)] + rest && steps[1..][1..] == rest;
      }
    }
  }

  lemma ResumeOne(s: Host, id: Str, sockets: Sockets)
    requires Shape(s) && Enabled(s, Resume(id, sockets))
    ensures var next := Next(s, Resume(id, sockets));
      Shape(next) && next.replacing.Keys == s.replacing.Keys - {id} && |next.replacing| < |s.replacing|
      && Reserved(next) == Reserved(s) && next.limit == s.limit
  {
    ShapeKept(s, Resume(id, sockets));
    var next := Next(s, Resume(id, sockets));
    assert next.replacing.Keys == s.replacing.Keys - {id};
    assert |next.replacing| == |next.replacing.Keys| && |s.replacing| == |s.replacing.Keys|;
  }

  /** Taking a slot without room ends, once the replacements are done, above the limit. */
  lemma LimitExceeded(s: Host, step: Step, sockets: Sockets) returns (steps: seq<Step>)
    requires Shape(s) && Enabled(s, step) && !LeavesRoom(s, step)
    ensures Allowed(Next(s, step), steps) && |After(Next(s, step), steps).instances| > s.limit
  {
    var next := Next(s, step);
    ShapeKept(s, step);
    StepReserves(s, step);
    steps := FinishReplacements(next, sockets);
    SizeOfPart(Reserved(next), After(next, steps).instances.Keys);
    assert |After(next, steps).instances| == |After(next, steps).instances.Keys|;
  }

  lemma CrashedAndReplaced(a: Str, platform: Str, claim: Claim)
    requires claim.resumption.None?
    ensures var first := Ensure(a, platform, claim, None);
      var two := Next(Next(Fresh(1), first), Exit(0));
      && two == Host(map[a := 0], [Worker(a, platform, false, false, false)], [], map[], 1)
      && Next(two, first)
         == Host(map[a := 0], [Worker(a, platform, false, true, false)], [],
           map[a := Replacement(0, platform, claim)], 1)
  {
    var one := Next(Fresh(1), Ensure(a, platform, claim, None));
    assert one == Host(map[a := 0], [Worker(a, platform, true, false, false)], [], map[], 1);
  }

  /** With room for one worker: it crashes, its teardown frees the slot, another takes it. */
  lemma NoRoomHappens(a: Str, b: Str, platform: Str, claim: Claim)
    requires a != b && claim.resumption.None?
    ensures var first, second := Ensure(a, platform, claim, None), Ensure(b, platform, claim, None);
      var steps := [first, Exit(0), first, EndTeardown(0)];
      && Allowed(Fresh(1), steps)
      && Enabled(After(Fresh(1), steps), second) && !LeavesRoom(After(Fresh(1), steps), second)
  {
    var first, second := Ensure(a, platform, claim, None), Ensure(b, platform, claim, None);
    var steps := [first, Exit(0), first, EndTeardown(0)];
    var one := Next(Fresh(1), first);
    var two := Next(one, Exit(0));
    var three := Next(two, first);
    var four := Next(three, EndTeardown(0));
    CrashedAndReplaced(a, platform, claim);
    assert four.instances == map[] && Reserved(four) == {a};
    StepFirst(three, EndTeardown(0), []);
    assert [EndTeardown(0)] + [] == [EndTeardown(0)];
    StepFirst(two, first, [EndTeardown(0)]);
    StepFirst(one, Exit(0), [first] + [EndTeardown(0)]);
    StepFirst(Fresh(1), first, [Exit(0)] + ([first] + [EndTeardown(0)]));
    assert steps == [first] + ([Exit(0)] + ([first] + ([EndTeardown(0)] + [])));
  }

  /** Healthy workers under these identifiers, with these slots; two are allowed. */
  function Running(slots: map<Str, nat>, ids: seq<Str>, platform: Str): Host {
    Host(slots, seq(|ids|, i requires 0 <= i < |ids| => Worker(ids[i], platform, true, false, false)), [], map[], 2)
  }

  /** A possible step that leaves room and its outcome. */
  predicate Leads(s: Host, step: Step, next: Host) {
    Enabled(s, step) && LeavesRoom(s, step) && Next(s, step) == next
  }

  lemma LeadsFirst(s: Host, step: Step, next: Host, rest: seq<Step>)
    requires Leads(s, step, next) && Allowed(next, rest) && AlwaysRoom(next, rest)
    ensures Allowed(s, [step] + rest) && AlwaysRoom(s, [step] + rest) && After(s, [step] + rest) == After(next, rest)
  {
    assert ([step] + rest)[1..] == rest;
  }

  lemma RunningEnsure(slots: map<Str, nat>, ids: seq<Str>, id: Str, platform: Str, claim: Claim)
    requires id !in slots && |slots| < 2 && claim.resumption.None?
    ensures Leads(Running(slots, ids, platform), Ensure(id, platform, claim, None),
                  Running(slots[id := |ids|], ids + [id], platform))
  {
    var s := Running(slots, ids, platform);
    assert Reserved(s) == slots.Keys;
    assert |slots| == |slots.Keys|;
    assert Created(s, id, platform, claim, None).workers == Running(slots, ids + [id], platform).workers;
  }

  lemma RunningRename(slots: map<Str, nat>, ids: seq<Str>, n: nat, id: Str, platform: Str)
    requires n < |ids|
    ensures var s, step := Running(slots, ids, platform), UpdateIdentifier(n, id, None);
      && Enabled(s, step) && Next(s, step) == Running((slots - {ids[n]})[id := n], ids[n := id], platform)
  {
    var s, step := Running(slots, ids, platform), UpdateIdentifier(n, id, None);
    assert Next(s, step).workers == Running(slots, ids[n := id], platform).workers;
  }

  lemma RunningRoom(slots: map<Str, nat>, ids: seq<Str>, n: nat, id: Str, platform: Str)
    requires n < |ids| && (id in slots || ids[n] in slots)
    ensures Leads(Running(slots, ids, platform), UpdateIdentifier(n, id, None),
                  Running((slots - {ids[n]})[id := n], ids[n := id], platform))
  {
    RunningRename(slots, ids, n, id, platform);
  }

  /** A worker whose slot went with another worker's rename is renamed itself: three workers where two are allowed. */
  lemma SlotlessRenameHappens(a: Str, b: Str, c: Str, d: Str, platform: Str, claim: Claim) returns (steps: seq<Step>)
    requires a != b && a != c && a != d && b != c && b != d && c != d && claim.resumption.None?
    ensures Allowed(Fresh(2), steps) && AlwaysRoom(Fresh(2), steps)
    ensures var s, rename := After(Fresh(2), steps), UpdateIdentifier(0, a, None);
      && s.replacing == map[] && Capped(s) && Enabled(s, rename)
      && !LeavesRoom(s, rename) && |Next(s, rename).instances| == 3
  {
    var one, two := Running(map[a := 0], [a], platform), Running(map[a := 0, b := 1], [a, b], platform);
    var three, four := Running(map[b := 0], [b, b], platform), Running(map[b := 0, c := 2], [b, b, c], platform);
    var five := Running(map[c := 2, d := 1], [b, d, c], platform);
    FirstTwo(a, b, platform, claim);
    TakenOver(a, b, platform);
    ThirdWorker(b, c, platform, claim);
    MovedAway(b, c, d, platform);
    LeadsFirst(four, UpdateIdentifier(1, d, None), five, []);
    steps := [UpdateIdentifier(1, d, None)] + [];
    LeadsFirst(three, Ensure(c, platform, claim, None), four, steps);
    steps := [Ensure(c, platform, claim, None)] + steps;
    LeadsFirst(two, UpdateIdentifier(0, b, None), three, steps);
    steps := [UpdateIdentifier(0, b, None)] + steps;
    LeadsFirst(one, Ensure(b, platform, claim, None), two, steps);
    steps := [Ensure(b, platform, claim, None)] + steps;
    LeadsFirst(Fresh(2), Ensure(a, platform, claim, None), one, steps);
    steps := [Ensure(a, platform, claim, None)] + steps;
    NoSlotLeft(a, b, c, d, platform);
  }

  lemma FirstTwo(a: Str, b: Str, platform: Str, claim: Claim)
    requires a != b && claim.resumption.None?
    ensures Leads(Fresh(2), Ensure(a, platform, claim, None), Running(map[a := 0], [a], platform))
    ensures Leads(Running(map[a := 0], [a], platform), Ensure(b, platform, claim, None),
                  Running(map[a := 0, b := 1], [a, b], platform))
  {
    assert Fresh(2) == Running(map[], [], platform);
    RunningEnsure(map[], [], a, platform, claim);
    assert [] + [a] == [a] && map[][a := 0] == map[a := 0];
    RunningEnsure(map[a := 0], [a], b, platform, claim);
    assert [a] + [b] == [a, b] && map[a := 0][b := 1] == map[a := 0, b := 1];
  }

  lemma TakenOver(a: Str, b: Str, platform: Str)
    requires a != b
    ensures Leads(Running(map[a := 0, b := 1], [a, b], platform), UpdateIdentifier(0, b, None),
                  Running(map[b := 0], [b, b], platform))
  {
    RunningRoom(map[a := 0, b := 1], [a, b], 0, b, platform);
    assert [a, b][0 := b] == [b, b] && (map[a := 0, b := 1] - {a})[b := 0] == map[b := 0];
  }

  lemma ThirdWorker(b: Str, c: Str, platform: Str, claim: Claim)
    requires b != c && claim.resumption.None?
    ensures Leads(Running(map[b := 0], [b, b], platform), Ensure(c, platform, claim, None),
                  Running(map[b := 0, c := 2], [b, b, c], platform))
  {
    RunningEnsure(map[b := 0], [b, b], c, platform, claim);
    assert [b, b] + [c] == [b, b, c] && map[b := 0][c := 2] == map[b := 0, c := 2];
  }

  lemma MovedAway(b: Str, c: Str, d: Str, platform: Str)
    requires b != c && b != d && c != d
    ensures Leads(Running(map[b := 0, c := 2], [b, b, c], platform), UpdateIdentifier(1, d, None),
                  Running(map[c := 2, d := 1], [b, d, c], platform))
  {
    RunningRoom(map[b := 0, c := 2], [b, b, c], 1, d, platform);
    assert [b, b, c][1 := d] == [b, d, c] && (map[b := 0, c := 2] - {b})[d := 1] == map[c := 2, d := 1];
  }

  lemma NoSlotLeft(a: Str, b: Str, c: Str, d: Str, platform: Str)
    requires a != b && a != c && a != d && b != c && b != d && c != d
    ensures var s, rename := Running(map[c := 2, d := 1], [b, d, c], platform), UpdateIdentifier(0, a, None);
      && Capped(s) && Enabled(s, rename) && !LeavesRoom(s, rename) && |Next(s, rename).instances| == 3
  {
    var slots := map[c := 2, d := 1];
    RunningRename(slots, [b, d, c], 0, a, platform);
    assert Reserved(Running(slots, [b, d, c], platform)) == {c, d};
    assert (slots - {b})[a := 0].Keys == {a, c, d};
    assert |(slots - {b})[a := 0]| == |(slots - {b})[a := 0].Keys|;
  }

  // ---------- the code ----------

  datatype Outcome = Started | Refused | AwaitsTeardown

  class Platforms {
    var instances: map<Str, nat>
    var workers: seq<Worker>
    var replacing: map<Str, Replacement>
    const scopes: ScopeRegistry
    const limit: int

    ghost function State(): Host
      reads this, scopes
    {
      Host(instances, workers, scopes.entries, replacing, limit)
    }

    ghost predicate Valid()
      reads this, scopes
    {
      Shape(State())
    }

    constructor (limit: int)
      ensures Valid() && fresh(scopes) && State() == Fresh(limit)
    {
      this.limit := limit;
      instances := map[];
      workers := [];
      replacing := map[];
      scopes := new ScopeRegistry();
    }

    method Remember(id: Str, claim: Claim, sockets: Sockets)
      requires Valid()
      modifies scopes
      ensures State() == old(State()).(records := Noted(old(State()), id, claim, sockets))
    {
      if claim.resumption.Some? && claim.session != [] {
        scopes.Remember(sockets, claim.resumption.value, claim.scope, id, claim.session);
      }
    }

    method Create(id: Str, platform: Str, claim: Claim, sockets: Sockets)
      requires Valid()
      modifies this, scopes
      ensures State() == Created(old(State()), id, platform, claim, sockets)
    {
      Remember(id, claim, sockets);
      instances := instances[id := |workers|];
      workers := workers + [Worker(id, platform, true, false, false)];
    }

    /** `assertInstanceCapacity`: true where it throws. */
    method AssertCapacity(id: Str) returns (full: bool)
      ensures full <==> AtCapacity(State(), id)
    {
      if limit <= 0 {
        return false;
      }
      var occupied := if id in instances then |instances| - 1 else |instances|;
      return occupied >= limit;
    }

    /** `ensureProcessNow` up to its end, or up to the awaited teardown. */
    method EnsureProcessNow(id: Str, platform: Str, claim: Claim, sockets: Sockets) returns (outcome: Outcome)
      requires Valid() && Enabled(State(), Ensure(id, platform, claim, sockets))
      modifies this, scopes
      ensures Valid() && State() == Next(old(State()), Ensure(id, platform, claim, sockets))
      ensures outcome.Refused? <==> !Reusable(old(State()), id) && AtCapacity(old(State()), id)
      ensures outcome.AwaitsTeardown? <==> id in replacing
    {
      ghost var before := State();
      ShapeKept(before, Ensure(id, platform, claim, sockets));
      if id in instances && workers[instances[id]].alive {
        Remember(id, claim, sockets);
        return Started;
      }
      var full := AssertCapacity(id);
      if full {
        return Refused;
      }
      if id in instances {
        var n := instances[id];
        Shutdown(n);
        replacing := replacing[id := Replacement(n, platform, claim)];
        return AwaitsTeardown;
      }
      Create(id, platform, claim, sockets);
      return Started;
    }

    /** The rest of `ensureProcessNow` once the old worker is gone. */
    method Replace(id: Str, sockets: Sockets)
      requires Valid() && Enabled(State(), Resume(id, sockets))
      modifies this, scopes
      ensures Valid() && State() == Next(old(State()), Resume(id, sockets))
    {
      ShapeKept(State(), Resume(id, sockets));
      var r := replacing[id];
      Create(id, r.platform, r.claim, sockets);
      replacing := replacing - {id};
    }

    /** `shutdown`: the first caller starts the one teardown. */
    method Shutdown(n: nat)
      requires Valid() && n < |workers|
      modifies this, scopes
      ensures Valid() && State() == Next(old(State()), BeginTeardown(n))
    {
      ShapeKept(State(), BeginTeardown(n));
      if !workers[n].closing {
        scopes.Forget(workers[n].id);
        workers := workers[n := workers[n].(closing := true)];
      }
    }

    /** The end of `teardown` leaves a slot alone that a replacement has taken over. */
    method FinishTeardown(n: nat)
      requires Valid() && Enabled(State(), EndTeardown(n))
      modifies this
      ensures Valid() && State() == Next(old(State()), EndTeardown(n))
    {
      ShapeKept(State(), EndTeardown(n));
      var id := workers[n].id;
      workers := workers[n := workers[n].(gone := true)];
      if id in instances && instances[id] == n {
        instances := instances - {id};
      }
    }

    /** `updateIdentifier` */
    method Rename(n: nat, id: Str, actor: Option<Str>)
      requires Valid() && Enabled(State(), UpdateIdentifier(n, id, actor))
      modifies this, scopes
      ensures Valid() && State() == Next(old(State()), UpdateIdentifier(n, id, actor))
    {
      ShapeKept(State(), UpdateIdentifier(n, id, actor));
      var w := workers[n];
      instances := instances - {w.id};
      workers := workers[n := w.(id := id)];
      instances := instances[id := n];
      scopes.Reassign(w.id, id, w.platform, actor);
    }
  }
}
