/**
 `ensureProcess`: runs for one worker identifier are chained through promises,
 so that one at a time inspects or creates that worker
 (packages/server/src/process-manager.ts).
 */
module EnsureChain {
  import opened JsString
  import opened Results

  // ---------- promises ----------

  datatype Outcome = Fulfilled | Rejected

  /** What a handler given to `then` does. */
  datatype Handler = Returns | Throws | Missing

  /** How the promise returned by `then` settles: without a handler the outcome is passed on. */
  function Then(o: Outcome, onFulfilled: Handler, onRejected: Handler): Outcome {
    match if o.Fulfilled? then onFulfilled else onRejected
    case Returns => Fulfilled
    case Throws => Rejected
    case Missing => o
  }

  /** The parked copy of a run, whose first reaction returns undefined. */
  function Parked(run: Outcome, onRejected: Handler): Outcome {
    Then(run, Returns, onRejected)
  }

  // ---------- calls ----------

  /**
   The life of one call. `Running` is the time `ensureProcessNow` takes,
   `Finished` the moment between its end and the settling of the parked copy
   the next call waits for, `Cleaned` after the copy's own reaction has run.
   */
  datatype Phase = Waiting | Running | Finished(run: Outcome) | Settled(copy: Outcome) | Cleaned

  datatype Call = Call(identifier: Str, prior: Option<nat>, phase: Phase)

  /**
   A chain entry is the index of the call whose settled copy is parked;
   `onRejected` is the second reaction that makes these copies.
   */
  datatype Chains = Chains(calls: seq<Call>, tails: map<Str, nat>, onRejected: Handler)

  datatype Step =
    | Ensure(identifier: Str)
    | Start(n: nat)
    | Skip(n: nat)
    | Finish(n: nat, run: Outcome)
    | Settle(n: nat)
    | Cleanup(n: nat)

  function Idle(onRejected: Handler): Chains {
    Chains([], map[], onRejected)
  }

  /** In the code the second reaction returns undefined too. */
  const IDLE: Chains := Idle(Returns)

  predicate AtLeastSettled(p: Phase) {
    p.Settled? || p.Cleaned?
  }

  /** The copy a call waits for was fulfilled, so `then` runs the call. */
  predicate MayStart(s: Chains, n: nat)
    requires n < |s.calls|
  {
    var prior := s.calls[n].prior;
    s.calls[n].phase.Waiting?
    && (prior.None? || (prior.value < |s.calls| && s.calls[prior.value].phase in {Settled(Fulfilled), Cleaned}))
  }

  /** The copy was rejected: `then` rejects the call without running it. */
  predicate MustSkip(s: Chains, n: nat)
    requires n < |s.calls|
  {
    var prior := s.calls[n].prior;
    s.calls[n].phase.Waiting? && prior.Some? && prior.value < |s.calls|
      && s.calls[prior.value].phase == Settled(Rejected)
  }

  predicate Enabled(s: Chains, step: Step) {
    match step
    case Ensure(_) => true
    case Start(n) => n < |s.calls| && MayStart(s, n)
    case Skip(n) => n < |s.calls| && MustSkip(s, n)
    case Finish(n, _) => n < |s.calls| && s.calls[n].phase.Running?
    case Settle(n) => n < |s.calls| && s.calls[n].phase.Finished?
    case Cleanup(n) => n < |s.calls| && s.calls[n].phase == Settled(Fulfilled)
  }

  function InPhase(s: Chains, n: nat, phase: Phase): Chains
    requires n < |s.calls|
  {
    s.(calls := s.calls[n := s.calls[n].(phase := phase)])
  }

  function Next(s: Chains, step: Step): Chains
    requires Enabled(s, step)
  {
    match step
    case Ensure(identifier) =>
      var prior := if identifier in s.tails then Some(s.tails[identifier]) else None;
      s.(calls := s.calls + [Call(identifier, prior, Waiting)], tails := s.tails[identifier := |s.calls|])
    case Start(n) => InPhase(s, n, Running)
    case Skip(n) => InPhase(s, n, Finished(Rejected))
    case Finish(n, run) => InPhase(s, n, Finished(run))
    case Settle(n) => InPhase(s, n, Settled(Parked(s.calls[n].phase.run, s.onRejected)))
    case Cleanup(n) =>
      var identifier := s.calls[n].identifier;
      var done := InPhase(s, n, Cleaned);
      if identifier in s.tails && s.tails[identifier] == n then done.(tails := s.tails - {identifier}) else done
  }

  predicate Allowed(s: Chains, steps: seq<Step>)
    decreases |steps|
  {
    steps == [] || (Enabled(s, steps[0]) && Allowed(Next(s, steps[0]), steps[1..]))
  }

  function After(s: Chains, steps: seq<Step>): Chains
    requires Allowed(s, steps)
    decreases |steps|
  {
    if steps == [] then s else After(Next(s, steps[0]), steps[1..])
  }

  // ---------- what every run keeps ----------

  predicate Same(s: Chains, i: int, j: int) {
    0 <= i < |s.calls| && 0 <= j < |s.calls| && s.calls[i].identifier == s.calls[j].identifier
  }

  predicate OrderedAt(s: Chains, i: int, j: int) {
    Same(s, i, j) && i < j ==> s.calls[j].phase.Waiting? || AtLeastSettled(s.calls[i].phase)
  }

  /** Calls of one identifier start in call order, each after all earlier ones have settled. */
  ghost predicate InOrder(s: Chains) {
    forall i, j :: OrderedAt(s, i, j)
  }

  predicate IsLast(s: Chains, n: int) {
    0 <= n < |s.calls| && forall j | n < j < |s.calls| :: s.calls[j].identifier != s.calls[n].identifier
  }

  predicate ParkedAt(s: Chains, n: int) {
    IsLast(s, n) && !s.calls[n].phase.Cleaned? ==>
      s.calls[n].identifier in s.tails && s.tails[s.calls[n].identifier] == n
  }

  predicate TailAt(s: Chains, id: Str) {
    id in s.tails ==>
      IsLast(s, s.tails[id]) && s.calls[s.tails[id]].identifier == id && !s.calls[s.tails[id]].phase.Cleaned?
  }

  /** The chain map holds exactly the last call of every identifier that is not cleaned up yet. */
  ghost predicate HoldsTails(s: Chains) {
    (forall n :: ParkedAt(s, n)) && (forall id :: TailAt(s, id))
  }

  predicate LinkedAt(s: Chains, i: int, j: int) {
    Same(s, i, j) && i < j ==>
      match s.calls[j].prior
      case Some(k) => i <= k < j && Same(s, k, j)
      case None => AtLeastSettled(s.calls[i].phase)
  }

  predicate PriorAt(s: Chains, j: int) {
    0 <= j < |s.calls| && s.calls[j].prior.Some? ==> s.calls[j].prior.value < j && Same(s, s.calls[j].prior.value, j)
  }

  /** A call waits for the latest earlier call of its identifier, unless all of them were cleaned up. */
  ghost predicate Linked(s: Chains) {
    (forall i, j :: LinkedAt(s, i, j)) && (forall j :: PriorAt(s, j))
  }

  /** No parked copy is ever rejected. */
  predicate NeverRejected(s: Chains) {
    s.onRejected.Returns? && forall n | 0 <= n < |s.calls| :: s.calls[n].phase != Settled(Rejected)
  }

  ghost predicate Valid(s: Chains) {
    InOrder(s) && HoldsTails(s) && Linked(s) && NeverRejected(s)
  }

  lemma LastCall(s: Chains, n: nat) returns (last: nat)
    requires n < |s.calls|
    ensures n <= last && IsLast(s, last) && Same(s, n, last)
    decreases |s.calls| - n
  {
    if IsLast(s, n) {
      last := n;
    } else {
      var j :| n < j < |s.calls| && s.calls[j].identifier == s.calls[n].identifier;
      last := LastCall(s, j);
    }
  }

  lemma EnsureLinks(s: Chains, identifier: Str, i: int)
    requires Valid(s)
    ensures LinkedAt(Next(s, Ensure(identifier)), i, |s.calls|)
  {
    var next := Next(s, Ensure(identifier));
    if Same(next, i, |s.calls|) && i < |s.calls| {
      var last := LastCall(s, i);
      assert ParkedAt(s, last) && TailAt(s, identifier) && OrderedAt(s, i, last);
    }
  }

  lemma EnsureKeeps(s: Chains, identifier: Str)
    requires Valid(s)
    ensures Valid(Next(s, Ensure(identifier)))
  {
    var next := Next(s, Ensure(identifier));
    var n := |s.calls|;
    forall i, j ensures OrderedAt(next, i, j) && LinkedAt(next, i, j) {
      assert OrderedAt(s, i, j) && LinkedAt(s, i, j);
      if j == n {
        EnsureLinks(s, identifier, i);
      }
    }
    forall j ensures PriorAt(next, j) {
      assert PriorAt(s, j) && TailAt(s, identifier);
    }
    forall m ensures ParkedAt(next, m) {
      assert ParkedAt(s, m);
      if IsLast(next, m) && m < n {
        assert next.calls[n].identifier == identifier;
        assert forall j | m < j < n :: next.calls[j] == s.calls[j];
        assert IsLast(s, m);
      }
    }
    forall id ensures TailAt(next, id) {
      assert TailAt(s, id);
    }
  }

  /** A step of the call `n` changes its phase alone. */
  predicate Advances(s: Chains, next: Chains, n: nat) {
    && n < |s.calls| && |next.calls| == |s.calls|
    && (forall i | 0 <= i < |s.calls| && i != n :: next.calls[i] == s.calls[i])
    && next.calls[n] == s.calls[n].(phase := next.calls[n].phase)
    && (AtLeastSettled(s.calls[n].phase) ==> AtLeastSettled(next.calls[n].phase))
  }

  lemma AdvanceSame(s: Chains, next: Chains, n: nat, i: int, j: int)
    requires Advances(s, next, n)
    ensures Same(next, i, j) == Same(s, i, j) && IsLast(next, i) == IsLast(s, i)
  {
    assert forall k | 0 <= k < |s.calls| :: next.calls[k].identifier == s.calls[k].identifier;
  }

  lemma AdvanceLinked(s: Chains, next: Chains, n: nat)
    requires Linked(s) && Advances(s, next, n)
    ensures Linked(next)
  {
    forall i, j ensures LinkedAt(next, i, j) {
      AdvanceSame(s, next, n, i, j);
      assert LinkedAt(s, i, j);
    }
    forall j ensures PriorAt(next, j) {
      assert PriorAt(s, j);
    }
  }

  /** A call that starts finds all earlier ones settled. */
  lemma StartFindsSettled(s: Chains, i: int, n: nat)
    requires Valid(s) && n < |s.calls| && MayStart(s, n) && Same(s, i, n) && i < n
    ensures AtLeastSettled(s.calls[i].phase)
  {
    assert LinkedAt(s, i, n);
    if s.calls[n].prior.Some? {
      assert OrderedAt(s, i, s.calls[n].prior.value);
    }
  }

  lemma AdvanceOrdered(s: Chains, step: Step, i: int, j: int)
    requires Valid(s) && Enabled(s, step) && !step.Ensure?
    ensures OrderedAt(Next(s, step), i, j)
  {
    AdvanceSame(s, Next(s, step), step.n, i, j);
    assert OrderedAt(s, i, j);
    if step.Start? && j == step.n && Same(s, i, j) && i < j {
      StartFindsSettled(s, i, j);
    }
  }

  lemma AdvanceTails(s: Chains, step: Step, m: int, id: Str)
    requires Valid(s) && Enabled(s, step) && !step.Ensure?
    ensures ParkedAt(Next(s, step), m) && TailAt(Next(s, step), id)
  {
    var n := step.n;
    AdvanceSame(s, Next(s, step), n, m, m);
    assert ParkedAt(s, m) && TailAt(s, id);
    if id in s.tails {
      AdvanceSame(s, Next(s, step), n, s.tails[id], n);
    }
    if IsLast(s, n) && IsLast(s, m) && m != n {
      assert s.calls[n].identifier != s.calls[m].identifier;
    }
    assert ParkedAt(s, n);
  }

  lemma StepKeeps(s: Chains, step: Step)
    requires Valid(s) && Enabled(s, step)
    ensures Valid(Next(s, step))
  {
    if step.Ensure? {
      EnsureKeeps(s, step.identifier);
    } else {
      AdvanceLinked(s, Next(s, step), step.n);
      forall i, j ensures OrderedAt(Next(s, step), i, j) {
        AdvanceOrdered(s, step, i, j);
      }
      forall m ensures ParkedAt(Next(s, step), m) {
        AdvanceTails(s, step, m, []);
      }
      forall id ensures TailAt(Next(s, step), id) {
        AdvanceTails(s, step, 0, id);
      }
    }
  }

  lemma IdleValid()
    ensures Valid(IDLE)
  {
  }

  lemma {:induction false} RunValid(s: Chains, steps: seq<Step>)
    requires Valid(s) && Allowed(s, steps)
    ensures Valid(After(s, steps))
    decreases |steps|
  {
    if steps != [] {
      StepKeeps(s, steps[0]);
      RunValid(Next(s, steps[0]), steps[1..]);
    }
  }

  // ---------- the promises the chain makes ----------

  /** At most one run per identifier is between its start and its end. */
  lemma OneRunning(steps: seq<Step>, i: nat, j: nat)
    requires Allowed(IDLE, steps)
    requires Same(After(IDLE, steps), i, j)
    requires After(IDLE, steps).calls[i].phase.Running? && After(IDLE, steps).calls[j].phase.Running?
    ensures i == j
  {
    IdleValid();
    RunValid(IDLE, steps);
    assert OrderedAt(After(IDLE, steps), i, j) && OrderedAt(After(IDLE, steps), j, i);
  }

  /** Runs begin in call order, each when all earlier calls of its identifier are over. */
  lemma RunsInOrder(steps: seq<Step>, i: nat, j: nat)
    requires Allowed(IDLE, steps)
    requires Same(After(IDLE, steps), i, j) && i < j
    ensures !After(IDLE, steps).calls[j].phase.Waiting? ==> AtLeastSettled(After(IDLE, steps).calls[i].phase)
  {
    IdleValid();
    RunValid(IDLE, steps);
    assert OrderedAt(After(IDLE, steps), i, j);
  }

  lemma UnfinishedHasTail(s: Chains, n: nat)
    requires Valid(s) && n < |s.calls| && !AtLeastSettled(s.calls[n].phase)
    ensures var id := s.calls[n].identifier;
      id in s.tails && n <= s.tails[id] && IsLast(s, s.tails[id]) && s.calls[s.tails[id]].identifier == id
      && !AtLeastSettled(s.calls[s.tails[id]].phase)
  {
    var last := LastCall(s, n);
    assert OrderedAt(s, n, last) && ParkedAt(s, last);
  }

  /** While a call is unfinished the map holds the tail of its chain, so no later call bypasses it. */
  lemma TailKept(steps: seq<Step>, n: nat)
    requires Allowed(IDLE, steps)
    requires n < |After(IDLE, steps).calls| && !AtLeastSettled(After(IDLE, steps).calls[n].phase)
    ensures var s := After(IDLE, steps);
      var id := s.calls[n].identifier;
      && id in s.tails && n <= s.tails[id] && IsLast(s, s.tails[id])
      && var next := Next(s, Ensure(id));
         next.calls[|s.calls|].prior == Some(s.tails[id]) && !MayStart(next, |s.calls|)
  {
    IdleValid();
    RunValid(IDLE, steps);
    UnfinishedHasTail(After(IDLE, steps), n);
  }

  /** A run of a chain with this second reaction after which a call is rejected without being run. */
  predicate Skips(onRejected: Handler, steps: seq<Step>, n: nat) {
    Allowed(Idle(onRejected), steps) && Enabled(After(Idle(onRejected), steps), Skip(n))
  }

  /** A failed run never makes a later one be skipped. */
  lemma NoRunIsSkipped(steps: seq<Step>, n: nat)
    ensures !Skips(Returns, steps, n)
  {
    if Allowed(IDLE, steps) {
      IdleValid();
      RunValid(IDLE, steps);
    }
  }

  lemma StepFirst(s: Chains, step: Step, rest: seq<Step>)
    requires Enabled(s, step) && Allowed(Next(s, step), rest)
    ensures Allowed(s, [step] + rest) && After(s, [step] + rest) == After(Next(s, step), rest)
  {
    assert ([step] + rest)[1..] == rest;
  }

  /** Two calls for one worker; the run of the first one fails. */
  lemma SecondIsSkipped(id: Str, onRejected: Handler) returns (steps: seq<Step>)
    requires !onRejected.Returns?
    ensures Skips(onRejected, steps, 1)
  {
    var second := Call(id, Some(0), Waiting);
    var one := Chains([Call(id, None, Waiting)], map[id := 0], onRejected);
    var two := Chains([Call(id, None, Waiting), second], map[id := 1], onRejected);
    var three := Chains([Call(id, None, Running), second], map[id := 1], onRejected);
    var four := Chains([Call(id, None, Finished(Rejected)), second], map[id := 1], onRejected);
    assert Next(Idle(onRejected), Ensure(id)) == one && Next(one, Ensure(id)) == two;
    assert Next(two, Start(0)) == three && Next(three, Finish(0, Rejected)) == four;
    StepFirst(four, Settle(0), []);
    steps := [Settle(0)] + [];
    StepFirst(three, Finish(0, Rejected), steps);
    steps := [Finish(0, Rejected)] + steps;
    StepFirst(two, Start(0), steps);
    steps := [Start(0)] + steps;
    StepFirst(one, Ensure(id), steps);
    steps := [Ensure(id)] + steps;
    StepFirst(Idle(onRejected), Ensure(id), steps);
    steps := [Ensure(id)] + steps;
  }

  /** Calls can be skipped exactly when the second reaction is missing or throws. */
  lemma SkippedExactly(onRejected: Handler)
    ensures (exists steps, n :: Skips(onRejected, steps, n)) <==> !onRejected.Returns?
  {
    if onRejected.Returns? {
      forall steps, n ensures !Skips(onRejected, steps, n) {
        NoRunIsSkipped(steps, n);
      }
    } else {
      var steps := SecondIsSkipped([], onRejected);
    }
  }

  /** The outcomes of runs, left out. */
  function Outcomeless(s: Chains): Chains {
    s.(calls := seq(|s.calls|, i requires 0 <= i < |s.calls| =>
        if s.calls[i].phase.Finished? then s.calls[i].(phase := Finished(Fulfilled)) else s.calls[i]))
  }

  /** Nothing that can happen depends on whether a run failed. */
  lemma FailureIsInvisible(s: Chains, t: Chains, step: Step)
    requires Outcomeless(s) == Outcomeless(t) && s.onRejected.Returns?
    ensures Enabled(s, step) <==> Enabled(t, step)
    ensures Enabled(s, step) ==> Outcomeless(Next(s, step)) == Outcomeless(Next(t, step))
  {
    var a, b := Outcomeless(s).calls, Outcomeless(t).calls;
    assert |s.calls| == |a| && |t.calls| == |b|;
    forall i | 0 <= i < |s.calls|
      ensures s.calls[i].identifier == t.calls[i].identifier && s.calls[i].prior == t.calls[i].prior
      ensures s.calls[i].phase == t.calls[i].phase || (s.calls[i].phase.Finished? && t.calls[i].phase.Finished?)
    {
      assert a[i] == b[i];
    }
  }

  /** The first call of an identifier that is not over can always take a step, and only that one can run. */
  lemma {:induction false} AlwaysProgress(s: Chains, n: nat) returns (step: Step)
    requires Valid(s) && n < |s.calls| && !s.calls[n].phase.Cleaned?
    ensures !step.Ensure? && Enabled(s, step)
    decreases n
  {
    match s.calls[n].phase
    case Waiting =>
      if MayStart(s, n) {
        step := Start(n);
      } else {
        assert PriorAt(s, n) && LinkedAt(s, s.calls[n].prior.value, n);
        step := AlwaysProgress(s, s.calls[n].prior.value);
      }
    case Running => step := Finish(n, Fulfilled);
    case Finished(_) => step := Settle(n);
    case Settled(copy) =>
      assert copy != Rejected;
      step := Cleanup(n);
  }

  /** When nothing is left to do every call has run and the map is empty: it cannot grow without bound. */
  lemma DrainedIsEmpty(s: Chains)
    requires Valid(s) && forall step: Step | !step.Ensure? :: !Enabled(s, step)
    ensures s.tails == map[] && forall n | 0 <= n < |s.calls| :: s.calls[n].phase.Cleaned?
  {
    forall n | 0 <= n < |s.calls| ensures s.calls[n].phase.Cleaned? {
      if !s.calls[n].phase.Cleaned? {
        var step := AlwaysProgress(s, n);
      }
    }
    forall id ensures id !in s.tails {
      assert TailAt(s, id);
    }
  }

  function Rank(p: Phase): nat {
    match p
    case Waiting => 4
    case Running => 3
    case Finished(_) => 2
    case Settled(_) => 1
    case Cleaned => 0
  }

  function Remaining(calls: seq<Call>): nat {
    if calls == [] then 0 else Rank(calls[0].phase) + Remaining(calls[1..])
  }

  lemma {:induction false} RemainingUpdate(calls: seq<Call>, n: nat, c: Call)
    requires n < |calls|
    ensures Remaining(calls[n := c]) == Remaining(calls) - Rank(calls[n].phase) + Rank(c.phase)
  {
    if n == 0 {
      assert calls[n := c][1..] == calls[1..];
    } else {
      RemainingUpdate(calls[1..], n - 1, c);
      assert calls[n := c][1..] == calls[1..][n - 1 := c];
    }
  }

  /** Without new calls the chains drain: each step brings the end nearer. */
  lemma StepsAreCounted(s: Chains, step: Step)
    requires Enabled(s, step) && !step.Ensure?
    ensures Remaining(Next(s, step).calls) == Remaining(s.calls) - if step.Skip? then 2 else 1
  {
    RemainingUpdate(s.calls, step.n, Next(s, step).calls[step.n]);
  }

  // ---------- the manager ----------

  class ProcessManager {
    var calls: seq<Call>
    var ensureChains: map<Str, nat>

    function State(): Chains
      reads this
    {
      Chains(calls, ensureChains, Returns)
    }

    constructor ()
      ensures State() == IDLE && Valid(State())
    {
      calls := [];
      ensureChains := map[];
      IdleValid();
    }

    method EnsureProcess(identifier: Str) returns (run: nat)
      requires Valid(State())
      modifies this
      ensures Valid(State()) && State() == Next(old(State()), Ensure(identifier))
      ensures run == old(|calls|)
    {
      ghost var before := State();
      StepKeeps(before, Ensure(identifier));
      var prior := if identifier in ensureChains then Some(ensureChains[identifier]) else None;
      run := |calls|;
      calls := calls + [Call(identifier, prior, Waiting)];
      ensureChains := ensureChains[identifier := run];
    }

    /** The prior copy has settled: `ensureProcessNow` begins. */
    method Begin(n: nat)
      requires Valid(State()) && Enabled(State(), Start(n))
      modifies this
      ensures Valid(State()) && State() == Next(old(State()), Start(n))
    {
      StepKeeps(State(), Start(n));
      calls := calls[n := calls[n].(phase := Running)];
    }

    method End(n: nat, run: Outcome)
      requires Valid(State()) && Enabled(State(), Finish(n, run))
      modifies this
      ensures Valid(State()) && State() == Next(old(State()), Finish(n, run))
    {
      StepKeeps(State(), Finish(n, run));
      calls := calls[n := calls[n].(phase := Finished(run))];
    }

    /** Both reactions of the parked copy yield undefined, whatever the run did. */
    method SettleCopy(n: nat)
      requires Valid(State()) && Enabled(State(), Settle(n))
      modifies this
      ensures Valid(State()) && State() == Next(old(State()), Settle(n))
    {
      StepKeeps(State(), Settle(n));
      calls := calls[n := calls[n].(phase := Settled(Then(calls[n].phase.run, Returns, Returns)))];
    }

    /** Drops the chain entry if no later call has replaced it. */
    method DropDrained(n: nat)
      requires Valid(State()) && Enabled(State(), Cleanup(n))
      modifies this
      ensures Valid(State()) && State() == Next(old(State()), Cleanup(n))
    {
      StepKeeps(State(), Cleanup(n));
      var identifier := calls[n].identifier;
      calls := calls[n := calls[n].(phase := Cleaned)];
      if identifier in ensureChains && ensureChains[identifier] == n {
        ensureChains := ensureChains - {identifier};
      }
    }
  }
}
