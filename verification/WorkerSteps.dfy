/**
 What every step does to every worker, slot, pending replacement and scope
 record of the host, each told by the events that touch it.
 */
module WorkerSteps {
  import opened JsString
  import opened Results
  import opened JsMap
  import opened Scopes
  import opened Workers

  /** The workers of other identifiers alone fill the limit. */
  predicate Full(s: Host, id: Str) {
    s.limit > 0 && |s.instances.Keys - {id}| >= s.limit
  }

  /** The slot is held by a worker whose process runs. */
  predicate Runs(s: Host, id: Str) {
    Slot(s, id).Some? && Slot(s, id).value < |s.workers| && s.workers[Slot(s, id).value].alive
  }

  function Slot(s: Host, id: Str): Option<nat> {
    if id in s.instances then Some(s.instances[id]) else None
  }

  function Pending(s: Host, id: Str): Option<Replacement> {
    if id in s.replacing then Some(s.replacing[id]) else None
  }

  /** A call is answered by the running worker. */
  predicate Reuses(s: Host, step: Step) {
    step.Ensure? && Runs(s, step.id)
  }

  /** A call starts replacing a worker whose process has ended. */
  predicate Replaces(s: Host, step: Step) {
    step.Ensure? && Slot(s, step.id).Some? && !Runs(s, step.id) && !Full(s, step.id)
  }

  /** A worker is created, at once or in place of the one that is gone by now. */
  predicate Creates(s: Host, step: Step) {
    step.Resume? || (step.Ensure? && Slot(s, step.id).None? && !Full(s, step.id))
  }

  /** The teardown of worker `m` begins. */
  predicate Closes(s: Host, step: Step, m: nat) {
    step == BeginTeardown(m) || (Replaces(s, step) && Slot(s, step.id) == Some(m))
  }

  lemma FullExactly(s: Host, id: Str)
    ensures AtCapacity(s, id) <==> Full(s, id)
  {
    assert |s.instances| == |s.instances.Keys|;
    if id !in s.instances {
      assert s.instances.Keys - {id} == s.instances.Keys;
    }
  }

  function AskedPlatform(s: Host, step: Step): Str
    requires Enabled(s, step) && Creates(s, step)
  {
    if step.Resume? then s.replacing[step.id].platform else step.platform
  }

  /** A worker that was there before. */
  predicate WorkerFollows(s: Host, step: Step, m: nat, was: Worker, now: Worker) {
    && (now.alive <==> was.alive && step != Exit(m))
    && (now.closing <==> was.closing || Closes(s, step, m))
    && (now.gone <==> was.gone || step == EndTeardown(m))
    && now.platform == was.platform
    && now.id == if step.UpdateIdentifier? && step.n == m then step.id else was.id
  }

  /** The new worker, if there is one. */
  function NewWorkers(s: Host, step: Step): seq<Worker>
    requires Enabled(s, step)
  {
    if Creates(s, step) then [Worker(step.id, AskedPlatform(s, step), true, false, false)] else []
  }

  /** Every worker after a step. */
  lemma WorkersExactly(s: Host, step: Step, m: nat)
    requires Enabled(s, step)
    ensures var next := Next(s, step);
      && next.limit == s.limit
      && |next.workers| == |s.workers| + |NewWorkers(s, step)|
      && next.workers[|s.workers|..] == NewWorkers(s, step)
      && (m < |s.workers| ==> WorkerFollows(s, step, m, s.workers[m], next.workers[m]))
  {
    if step.Ensure? {
      EnsuredWorkers(s, step, m);
    } else if step.Resume? {
      ResumedWorkers(s, step, m);
    } else {
      OtherWorkers(s, step, m);
    }
  }

  lemma EnsuredWorkers(s: Host, step: Step, m: nat)
    requires Enabled(s, step) && step.Ensure?
    ensures var next := Next(s, step);
      && next.limit == s.limit
      && |next.workers| == |s.workers| + |NewWorkers(s, step)|
      && next.workers[|s.workers|..] == NewWorkers(s, step)
      && (m < |s.workers| ==> WorkerFollows(s, step, m, s.workers[m], next.workers[m]))
  {
    FullExactly(s, step.id);
    assert Reusable(s, step.id) <==> Runs(s, step.id);
    if Creates(s, step) {
      assert Next(s, step).workers == s.workers + NewWorkers(s, step);
    } else if Replaces(s, step) {
      assert |Next(s, step).workers| == |s.workers|;
    } else {
      assert Next(s, step).workers == s.workers;
    }
  }

  lemma ResumedWorkers(s: Host, step: Step, m: nat)
    requires Enabled(s, step) && step.Resume?
    ensures var next := Next(s, step);
      && next.limit == s.limit
      && |next.workers| == |s.workers| + |NewWorkers(s, step)|
      && next.workers[|s.workers|..] == NewWorkers(s, step)
      && (m < |s.workers| ==> WorkerFollows(s, step, m, s.workers[m], next.workers[m]))
  {
    assert Next(s, step).workers == s.workers + NewWorkers(s, step);
  }

  lemma OtherWorkers(s: Host, step: Step, m: nat)
    requires Enabled(s, step) && !step.Ensure? && !step.Resume?
    ensures var next := Next(s, step);
      && next.limit == s.limit
      && |next.workers| == |s.workers| + |NewWorkers(s, step)|
      && next.workers[|s.workers|..] == NewWorkers(s, step)
      && (m < |s.workers| ==> WorkerFollows(s, step, m, s.workers[m], next.workers[m]))
  {
  }

  function SlotAfter(s: Host, step: Step, id: Str): Option<nat>
    requires Enabled(s, step)
  {
    if Creates(s, step) && id == step.id then Some(|s.workers|)
    else if step.UpdateIdentifier? && id == step.id then Some(step.n)
    else if step.UpdateIdentifier? && id == s.workers[step.n].id then None
    else if step.EndTeardown? && Slot(s, id) == Some(step.n) then None
    else Slot(s, id)
  }

  function PendingAfter(s: Host, step: Step, id: Str): Option<Replacement> {
    if Replaces(s, step) && id == step.id then Some(Replacement(s.instances[id], step.platform, step.claim))
    else if step.Resume? && id == step.id then None
    else Pending(s, id)
  }

  /** Every slot and every pending replacement after a step. */
  lemma SlotsExactly(s: Host, step: Step, id: Str)
    requires Shape(s) && Enabled(s, step)
    ensures Slot(Next(s, step), id) == SlotAfter(s, step, id)
    ensures Pending(Next(s, step), id) == PendingAfter(s, step, id)
  {
    if step.Ensure? {
      EnsureSlots(s, step, id);
    } else if step.UpdateIdentifier? {
      RenameSlots(s, step, id);
    } else if step.EndTeardown? {
      EndSlots(s, step, id);
    }
  }

  lemma EnsureSlots(s: Host, step: Step, id: Str)
    requires Enabled(s, step) && step.Ensure?
    ensures Slot(Next(s, step), id) == SlotAfter(s, step, id)
    ensures Pending(Next(s, step), id) == PendingAfter(s, step, id)
  {
    FullExactly(s, step.id);
    assert Reusable(s, step.id) <==> Runs(s, step.id);
  }

  lemma RenameSlots(s: Host, step: Step, id: Str)
    requires Enabled(s, step) && step.UpdateIdentifier?
    ensures Slot(Next(s, step), id) == SlotAfter(s, step, id)
    ensures Pending(Next(s, step), id) == PendingAfter(s, step, id)
  {
  }

  lemma EndSlots(s: Host, step: Step, id: Str)
    requires Shape(s) && Enabled(s, step) && step.EndTeardown?
    ensures Slot(Next(s, step), id) == SlotAfter(s, step, id)
    ensures Pending(Next(s, step), id) == PendingAfter(s, step, id)
  {
  }

  function AskedClaim(s: Host, step: Step): Claim
    requires Enabled(s, step) && (Reuses(s, step) || Creates(s, step))
  {
    if step.Resume? then s.replacing[step.id].claim else step.claim
  }

  /** The claim writes its record here: a scope and a session to write, and no other connected session in the way. */
  predicate Claims(s: Host, step: Step, key: Str)
    requires Enabled(s, step)
  {
    && (Reuses(s, step) || Creates(s, step))
    && var claim := AskedClaim(s, step);
       && claim.resumption.Some? && claim.resumption.value.key == key && claim.scope != [] && claim.session != []
       && !Taken(s.records, step.sockets, key, claim.session)
  }

  /** A teardown that had not begun before drops the record. */
  predicate Drops(s: Host, step: Step, r: Record) {
    exists m: nat | m < |s.workers| :: Closes(s, step, m) && !s.workers[m].closing && r.instanceId == s.workers[m].id
  }

  function RecordAfter(s: Host, step: Step, key: Str): Option<Record>
    requires Enabled(s, step)
  {
    if Claims(s, step, key) then
      var claim := AskedClaim(s, step);
      Some(Record(claim.scope, step.id, claim.session, claim.resumption.value.ip))
    else if Get(s.records, key).Some? && Drops(s, step, Get(s.records, key).value) then None
    else Get(s.records, key)
  }

  /** Every scope record after a step that renames nothing. */
  lemma RecordsExactly(s: Host, step: Step, key: Str)
    requires Shape(s) && Enabled(s, step) && !step.UpdateIdentifier?
    ensures Get(Next(s, step).records, key) == RecordAfter(s, step, key)
  {
    match step
    case Ensure(id, platform, claim, sockets) => EnsuredRecords(s, step, key);
    case Resume(id, sockets) => NotedExactly(s, id, s.replacing[id].claim, sockets, key);
    case BeginTeardown(n) => ClosingExactly(s, step, n, key);
    case _ =>
  }

  lemma EnsuredRecords(s: Host, step: Step, key: Str)
    requires Shape(s) && Enabled(s, step) && step.Ensure?
    ensures Get(Next(s, step).records, key) == RecordAfter(s, step, key)
  {
    FullExactly(s, step.id);
    assert Reusable(s, step.id) <==> Runs(s, step.id);
    if Reuses(s, step) || Creates(s, step) {
      NotedExactly(s, step.id, step.claim, step.sockets, key);
    } else if Replaces(s, step) {
      ClosingExactly(s, step, s.instances[step.id], key);
    }
  }

  lemma NotedExactly(s: Host, id: Str, claim: Claim, sockets: Sockets, key: Str)
    ensures Get(Noted(s, id, claim, sockets), key) ==
      if claim.resumption.Some? && claim.resumption.value.key == key && claim.scope != [] && claim.session != []
        && !Taken(s.records, sockets, key, claim.session)
      then Some(Record(claim.scope, id, claim.session, claim.resumption.value.ip))
      else Get(s.records, key)
  {
    if claim.resumption.Some? {
      RememberExactly(s.records, sockets, claim.resumption.value, claim.scope, id, claim.session, key);
    }
  }

  lemma ClosingExactly(s: Host, step: Step, n: nat, key: Str)
    requires Shape(s) && n < |s.workers| && forall m: nat :: Closes(s, step, m) <==> m == n
    ensures Get(Closing(s, n).records, key) ==
      if Get(s.records, key).Some? && Drops(s, step, Get(s.records, key).value) then None else Get(s.records, key)
  {
    ForgetRemoves(s.records, s.workers[n].id, key);
  }
}
