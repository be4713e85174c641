/**
 The account pool as a step system (crates/kproxy-pool/src/pool.rs and state.rs). Any number of
 acquire calls, lease drops, reloads, configuration changes and health or account updates
 interleave. A step is one atomic access; the account map's read lock is held while a call looks
 for candidates. Dropping a call at any await point is a `Leave` step.
 */
module Pool {
  import opened Wrappers
  import opened PoolScheduling

  datatype Probe = Unseen | SeenUsable | SeenFit

  /** Where an `acquire` call stands. `from` is the step at which the current look began. */
  datatype Stage =
    | Looking(check: bool, from: nat, roster: seq<nat>, n: nat, probe: Probe, found: seq<Candidate>)
    | Claiming(from: nat, roster: seq<nat>, order: seq<Candidate>, tried: nat, limit: Usize)
    | Joining(config: Config)
    | Waiting

  /** A live queue guard. */
  datatype Guard = Guard(overflow: bool, wait: nat)

  datatype Origin = Open | Scoped(allowed: set<string>, excluded: set<string>)

  datatype Call = Call(model: string, origin: Origin, scope: set<string>, guard: Option<Guard>, stage: Stage)

  /**
   `cells` holds every account state ever created, also those a reload has dropped while leases on
   them live on; `roster` lists the states the pool schedules now. `leases` maps a live lease to
   its state. `tick` numbers the steps.
   */
  datatype World = World(
    tick: nat,
    now: nat,
    config: Config,
    roster: seq<nat>,
    cells: map<nat, Cell>,
    queued: nat,
    calls: map<nat, Call>,
    leases: map<nat, nat>)

  datatype Step =
    | Acquire(call: nat, model: string, preferred: set<string>)
    | AcquireScoped(call: nat, model: string, allowed: set<string>, excluded: set<string>)
    | ProbeHealth(call: nat)
    | ProbeAccount(call: nat)
    | ProbeScore(call: nat, jitter: real)
    | EndLook(call: nat)
    | Claim(call: nat, lease: nat)
    | GiveUp(call: nat)
    | Join(call: nat)
    | Wake(call: nat)
    | Leave(call: nat)
    | Release(lease: nat)
    | Touch(state: nat, cell: Cell)
    | SetConfig(config: Config)
    | Advance(now: nat)
    | Reload(roster: seq<nat>, added: map<nat, Cell>)

  predicate InScope(w: World, s: nat, scope: set<string>) {
    s in w.cells && (scope == {} || w.cells[s].account.id in scope)
  }

  /** The calls that hold the account map's read lock. */
  predicate HoldsLock(call: Call) { call.stage.Looking? }

  predicate AtProbe(w: World, c: nat, probe: Probe) {
    && c in w.calls && w.calls[c].stage.Looking?
    && w.calls[c].stage.n < |w.calls[c].stage.roster| && w.calls[c].stage.probe == probe
    && w.calls[c].stage.roster[w.calls[c].stage.n] in w.cells
  }

  /** When a step can happen. */
  predicate Enabled(w: World, step: Step) {
    match step
    case Acquire(c, _, _) => c !in w.calls
    case AcquireScoped(c, _, _, _) => c !in w.calls
    case ProbeHealth(c) => AtProbe(w, c, Unseen)
    case ProbeAccount(c) => AtProbe(w, c, SeenUsable)
    case ProbeScore(c, jitter) => AtProbe(w, c, SeenFit) && 0.0 <= jitter < JitterBound
    case EndLook(c) => c in w.calls && w.calls[c].stage.Looking? && w.calls[c].stage.n == |w.calls[c].stage.roster|
    case Claim(c, l) =>
      && l !in w.leases && c in w.calls && w.calls[c].stage.Claiming?
      && w.calls[c].stage.tried < |w.calls[c].stage.order|
      && w.calls[c].stage.order[w.calls[c].stage.tried].state in w.cells
    case GiveUp(c) => c in w.calls && w.calls[c].stage.Claiming? && w.calls[c].stage.tried == |w.calls[c].stage.order|
    case Join(c) => c in w.calls && w.calls[c].stage.Joining?
    case Wake(c) => c in w.calls && w.calls[c].stage.Waiting? && w.calls[c].guard.Some? && w.calls[c].guard.value.wait > 0
    case Leave(c) => c in w.calls
    case Release(l) => l in w.leases && w.leases[l] in w.cells
    case Touch(s, cell) => s in w.cells && cell.active == w.cells[s].active && cell.account.id == w.cells[s].account.id
    case SetConfig(_) => true
    case Advance(now) => w.now <= now
    case Reload(roster, added) =>
      && (forall c :: c in w.calls ==> !HoldsLock(w.calls[c]))
      && added.Keys !! w.cells.Keys
      && (forall s :: s in added ==> added[s].active == 0)
      && (forall i :: 0 <= i < |roster| ==> roster[i] in w.cells || roster[i] in added)
  }

  function StartLook(w: World, check: bool): Stage {
    Looking(check, w.tick, w.roster, 0, Unseen, [])
  }

  function WithStage(w: World, c: nat, stage: Stage): World
    requires c in w.calls
  {
    w.(calls := w.calls[c := w.calls[c].(stage := stage)])
  }

  /** The call ends and its queue guard, if it has one, is dropped. */
  function Finish(w: World, c: nat): World
    requires c in w.calls
  {
    w.(calls := w.calls - {c}, queued := if w.calls[c].guard.Some? then Decrement(w.queued) else w.queued)
  }

  /** `fetch_sub(1)` on a machine word. */
  function Decrement(n: nat): nat { if n == 0 then UsizeMax else n - 1 }

  /** Moves on to the next account of the roster. */
  function NextProbe(stage: Stage, found: seq<Candidate>): Stage
    requires stage.Looking?
  {
    stage.(n := stage.n + 1, probe := Unseen, found := found)
  }

  /** How long a call may wait once `position` others hold guards. */
  function GuardFor(config: Config, position: nat): Guard {
    var overflow := config.maxQueueSize == 0 || position >= config.maxQueueSize;
    Guard(overflow, if config.maxQueueSize == 0 then 0 else if overflow then config.queueFullWait else config.maxQueueWait)
  }

  function Apply(rules: Rules, w: World, step: Step): World
    requires Enabled(w, step)
  {
    match step
    case Acquire(c, model, preferred) =>
      w.(calls := w.calls[c := Call(model, Open, preferred, None, StartLook(w, true))])
    case AcquireScoped(c, model, allowed, excluded) =>
      if allowed - excluded == {} then w
      else w.(calls := w.calls[c := Call(model, Scoped(allowed, excluded), allowed - excluded, None, StartLook(w, true))])
    case ProbeHealth(c) =>
      var stage := w.calls[c].stage;
      var s := stage.roster[stage.n];
      var cell := w.cells[s];
      if !InScope(w, s, w.calls[c].scope) then WithStage(w, c, NextProbe(stage, stage.found))
      else
        var w1 := if CoolingExpired(cell, w.now) then w.(cells := w.cells[s := cell.(health := Available)]) else w;
        WithStage(w1, c, if Usable(cell, w.now) then stage.(probe := SeenUsable) else NextProbe(stage, stage.found))
    case ProbeAccount(c) =>
      var stage := w.calls[c].stage;
      var s := stage.roster[stage.n];
      WithStage(w, c, if FitFor(rules, w.cells[s], w.config, w.calls[c].model) then stage.(probe := SeenFit)
                      else NextProbe(stage, stage.found))
    case ProbeScore(c, jitter) =>
      var stage := w.calls[c].stage;
      var s := stage.roster[stage.n];
      WithStage(w, c, NextProbe(stage, stage.found + [Candidate(Score(w.cells[s], w.config, w.now) + jitter, s)]))
    case EndLook(c) =>
      var stage := w.calls[c].stage;
      if !stage.check then WithStage(w, c, Claiming(stage.from, stage.roster, SortByScore(stage.found), 0, w.config.maxConcurrent))
      else if stage.found == [] then Finish(w, c)
      else WithStage(w, c, StartLook(w, false))
    case Claim(c, l) =>
      var stage := w.calls[c].stage;
      var s := stage.order[stage.tried].state;
      if w.cells[s].active < Maximum(stage.limit) then
        var cell := w.cells[s].(active := w.cells[s].active + 1, lastUsed := w.now);
        Finish(w.(cells := w.cells[s := cell], leases := w.leases[l := s]), c)
      else WithStage(w, c, stage.(tried := stage.tried + 1))
    case GiveUp(c) =>
      WithStage(w, c, if w.calls[c].guard.None? then Joining(w.config) else Waiting)
    case Join(c) =>
      var guard := GuardFor(w.calls[c].stage.config, w.queued);
      w.(queued := w.queued + 1, calls := w.calls[c := w.calls[c].(guard := Some(guard), stage := Waiting)])
    case Wake(c) => WithStage(w, c, StartLook(w, false))
    case Leave(c) => Finish(w, c)
    case Release(l) =>
      var s := w.leases[l];
      w.(cells := w.cells[s := w.cells[s].(active := Decrement(w.cells[s].active), lastUsed := w.now)], leases := w.leases - {l})
    case Touch(s, cell) => w.(cells := w.cells[s := cell])
    case SetConfig(config) => w.(config := config)
    case Advance(now) => w.(now := now)
    case Reload(roster, added) => w.(roster := roster, cells := w.cells + added)
  }

  function Next(rules: Rules, w: World, step: Step): World
    requires Enabled(w, step)
  {
    Apply(rules, w, step).(tick := w.tick + 1)
  }

  // ---------------------------------------------------------------- conservation

  ghost function LeasesOn(leases: map<nat, nat>, s: nat): set<nat> {
    set l | l in leases && leases[l] == s
  }

  ghost function Guarded(calls: map<nat, Call>): set<nat> {
    set c | c in calls && calls[c].guard.Some?
  }

  /** Calls that wait in the queue proper, not in its overflow. */
  ghost function Regular(calls: map<nat, Call>): set<nat> {
    set c | c in calls && calls[c].guard.Some? && !calls[c].guard.value.overflow
  }

  /** Each active counter is the number of live leases on that state. */
  ghost predicate SlotsCounted(cells: map<nat, Cell>, leases: map<nat, nat>) {
    && (forall s :: s in cells ==> cells[s].active == |LeasesOn(leases, s)| <= UsizeMax)
    && (forall l :: l in leases ==> leases[l] in cells)
  }

  /** A call that has tried without success holds a guard until it ends. */
  predicate GuardFits(call: Call) {
    && (call.stage.Waiting? ==> call.guard.Some?)
    && (call.stage.Joining? ==> call.guard.None?)
    && (call.origin.Scoped? ==> call.scope == call.origin.allowed - call.origin.excluded && call.scope != {})
  }

  ghost predicate CallsFit(calls: map<nat, Call>) {
    forall c :: c in calls ==> GuardFits(calls[c])
  }

  ghost predicate Consistent(w: World) {
    && SlotsCounted(w.cells, w.leases)
    && w.queued == |Guarded(w.calls)|
    && CallsFit(w.calls)
  }

  /** Nothing is leased or waiting. */
  predicate Start(w: World) {
    && w.tick == 0 && w.queued == 0 && w.calls == map[] && w.leases == map[]
    && (forall s :: s in w.cells ==> w.cells[s].active == 0)
    && (forall i :: 0 <= i < |w.roster| ==> w.roster[i] in w.cells)
  }

  lemma {:induction false} StartIsConsistent(w: World)
    requires Start(w)
    ensures Consistent(w)
  {
    assert Guarded(w.calls) == {};
    forall s | s in w.cells ensures w.cells[s].active == |LeasesOn(w.leases, s)| {
      assert LeasesOn(w.leases, s) == {};
    }
  }

  lemma {:induction false} LeasesOnAdded(leases: map<nat, nat>, l: nat, s: nat, t: nat)
    requires l !in leases
    ensures |LeasesOn(leases[l := s], t)| == |LeasesOn(leases, t)| + if t == s then 1 else 0
  {
    assert LeasesOn(leases[l := s], t) == if t == s then LeasesOn(leases, t) + {l} else LeasesOn(leases, t);
  }

  lemma {:induction false} LeasesOnDropped(leases: map<nat, nat>, l: nat, t: nat)
    requires l in leases
    ensures |LeasesOn(leases, t)| == |LeasesOn(leases - {l}, t)| + if t == leases[l] then 1 else 0
  {
    var after := leases - {l};
    assert LeasesOn(leases, t) == if t == leases[l] then LeasesOn(after, t) + {l} else LeasesOn(after, t);
  }

  lemma {:induction false} LeaseAdded(cells: map<nat, Cell>, leases: map<nat, nat>, l: nat, s: nat, cell: Cell)
    requires SlotsCounted(cells, leases) && l !in leases && s in cells
    requires cell.active == cells[s].active + 1 <= UsizeMax
    ensures SlotsCounted(cells[s := cell], leases[l := s])
  {
    hide LeasesOn;
    forall t | t in cells ensures cells[s := cell][t].active == |LeasesOn(leases[l := s], t)| {
      LeasesOnAdded(leases, l, s, t);
    }
  }

  lemma {:induction false} LeaseDropped(cells: map<nat, Cell>, leases: map<nat, nat>, l: nat, cell: Cell)
    requires SlotsCounted(cells, leases) && l in leases
    requires cell.active == Decrement(cells[leases[l]].active)
    ensures SlotsCounted(cells[leases[l] := cell], leases - {l})
  {
    hide LeasesOn;
    var s := leases[l];
    forall t | t in cells ensures cells[s := cell][t].active == |LeasesOn(leases - {l}, t)| {
      LeasesOnDropped(leases, l, t);
    }
  }

  lemma {:induction false} FreshUnleased(cells: map<nat, Cell>, leases: map<nat, nat>, added: map<nat, Cell>)
    requires SlotsCounted(cells, leases) && added.Keys !! cells.Keys
    requires forall s :: s in added ==> added[s].active == 0
    ensures SlotsCounted(cells + added, leases)
  {
    forall s | s in added ensures |LeasesOn(leases, s)| == 0 {
      assert LeasesOn(leases, s) == {};
    }
  }

  /** A call changes its stage and keeps its guard, or is new without one. */
  lemma {:induction false} GuardsKept(calls: map<nat, Call>, c: nat, call: Call)
    requires call.guard == if c in calls then calls[c].guard else None
    ensures Guarded(calls[c := call]) == Guarded(calls) && Regular(calls[c := call]) == Regular(calls)
  {
  }

  lemma {:induction false} GuardDropped(calls: map<nat, Call>, c: nat)
    requires c in calls
    ensures |Guarded(calls)| == |Guarded(calls - {c})| + if calls[c].guard.Some? then 1 else 0
    ensures |Regular(calls - {c})| <= |Regular(calls)|
  {
    assert Guarded(calls) == if calls[c].guard.Some? then Guarded(calls - {c}) + {c} else Guarded(calls - {c});
    assert Regular(calls) == if c in Regular(calls) then Regular(calls - {c}) + {c} else Regular(calls - {c});
  }

  lemma {:induction false} GuardTaken(calls: map<nat, Call>, c: nat, call: Call)
    requires c in calls && calls[c].guard.None? && call.guard.Some?
    ensures |Guarded(calls[c := call])| == |Guarded(calls)| + 1
    ensures |Regular(calls[c := call])| == |Regular(calls)| + if call.guard.value.overflow then 0 else 1
    ensures |Regular(calls)| <= |Guarded(calls)|
  {
    var after := calls[c := call];
    assert Guarded(after) == Guarded(calls) + {c};
    assert Regular(after) == if call.guard.value.overflow then Regular(calls) else Regular(calls) + {c};
    Fewer(Regular(calls), Guarded(calls));
  }

  lemma {:induction false} Fewer(a: set<nat>, b: set<nat>)
    requires a <= b
    ensures |a| <= |b|
  {
    assert b == a + (b - a);
  }

  lemma {:induction false} SlotsIgnoreOtherFields(cells: map<nat, Cell>, leases: map<nat, nat>, s: nat, cell: Cell)
    requires SlotsCounted(cells, leases) && s in cells && cell.active == cells[s].active
    ensures SlotsCounted(cells[s := cell], leases)
  {
  }

  lemma {:induction false} SlotsStep(rules: Rules, w: World, step: Step)
    requires SlotsCounted(w.cells, w.leases) && Enabled(w, step)
    ensures SlotsCounted(Next(rules, w, step).cells, Next(rules, w, step).leases)
  {
    hide SlotsCounted, SortByScore, Score, FitFor;
    match step
    case ProbeHealth(c) =>
      var s := w.calls[c].stage.roster[w.calls[c].stage.n];
      SlotsIgnoreOtherFields(w.cells, w.leases, s, w.cells[s].(health := Available));
    case Claim(c, l) =>
      var stage := w.calls[c].stage;
      var s := stage.order[stage.tried].state;
      if w.cells[s].active < Maximum(stage.limit) {
        LeaseAdded(w.cells, w.leases, l, s, w.cells[s].(active := w.cells[s].active + 1, lastUsed := w.now));
      }
    case Release(l) =>
      var cell := w.cells[w.leases[l]];
      LeaseDropped(w.cells, w.leases, l, cell.(active := Decrement(cell.active), lastUsed := w.now));
    case Touch(s, cell) => SlotsIgnoreOtherFields(w.cells, w.leases, s, cell);
    case Reload(_, added) => FreshUnleased(w.cells, w.leases, added);
    case _ =>
  }

  /** How many regular waiters a step may leave. */
  function RegularBound(w: World, step: Step, before: nat): nat
    requires Enabled(w, step)
  {
    if !step.Join? then before
    else
      var size := w.calls[step.call].stage.config.maxQueueSize;
      if before < size then size else before
  }

  lemma {:induction false} QueueStep(rules: Rules, w: World, step: Step)
    requires Enabled(w, step) && w.queued == |Guarded(w.calls)| && CallsFit(w.calls)
    ensures Next(rules, w, step).queued == |Guarded(Next(rules, w, step).calls)|
    ensures |Regular(Next(rules, w, step).calls)| <= RegularBound(w, step, |Regular(w.calls)|)
  {
    hide Guarded, Regular, SortByScore, Score, FitFor, InScope;
    var w' := Next(rules, w, step);
    match step
    case AcquireScoped(c, _, _, _) => if c in w'.calls { GuardsKept(w.calls, c, w'.calls[c]); }
    case Join(c) => GuardTaken(w.calls, c, w'.calls[c]);
    case Leave(c) => GuardDropped(w.calls, c);
    case EndLook(c) => if c in w'.calls { GuardsKept(w.calls, c, w'.calls[c]); } else { GuardDropped(w.calls, c); }
    case Claim(c, _) => if c in w'.calls { GuardsKept(w.calls, c, w'.calls[c]); } else { GuardDropped(w.calls, c); }
    case Release(_) =>
    case Touch(_, _) =>
    case SetConfig(_) =>
    case Advance(_) =>
    case Reload(_, _) =>
    case _ => GuardsKept(w.calls, step.call, w'.calls[step.call]);
  }

  lemma {:induction false} FitStep(rules: Rules, w: World, step: Step, c: nat)
    requires Enabled(w, step) && c in Next(rules, w, step).calls && (c in w.calls ==> GuardFits(w.calls[c]))
    ensures GuardFits(Next(rules, w, step).calls[c])
  {
    hide SortByScore, Score, FitFor, InScope;
  }

  /** Every step keeps the counters equal to what they count. */
  lemma {:induction false} StepKept(rules: Rules, w: World, step: Step)
    requires Consistent(w) && Enabled(w, step)
    ensures Consistent(Next(rules, w, step))
  {
    hide SlotsCounted, Guarded, Regular, GuardFits, Enabled, Next;
    SlotsStep(rules, w, step);
    QueueStep(rules, w, step);
    forall c | c in Next(rules, w, step).calls ensures GuardFits(Next(rules, w, step).calls[c]) {
      FitStep(rules, w, step, c);
    }
  }

  /**
   Joining the queue: a call is overflow exactly when as many guards as the queue has places are live
   already. It waits not at all without a queue, and as configured for its kind otherwise.
   */
  lemma {:induction false} JoinDecides(rules: Rules, w: World, c: nat)
    requires Enabled(w, Join(c))
    ensures var config, guard := w.calls[c].stage.config, Next(rules, w, Join(c)).calls[c].guard;
            && guard != None
            && (guard.value.overflow <==> config.maxQueueSize <= w.queued)
            && guard.value.wait == if config.maxQueueSize == 0 then 0
                                   else if config.maxQueueSize <= w.queued then config.queueFullWait else config.maxQueueWait
    ensures Next(rules, w, Join(c)).queued == w.queued + 1
  {
  }

  /** A call that may not wait never tries again: it stays where it is until it ends. */
  lemma {:induction false} NoWaitNoRetry(rules: Rules, w: World, step: Step, c: nat)
    requires Enabled(w, step) && c in w.calls && w.calls[c].stage.Waiting?
    requires w.calls[c].guard != None && w.calls[c].guard.value.wait == 0
    ensures c in Next(rules, w, step).calls ==> Next(rules, w, step).calls[c] == w.calls[c]
  {
    hide SortByScore, Score, FitFor;
  }

  /** Looking at an account in scope whose cooling is over makes it available, and changes no other account. */
  lemma {:induction false} LookThaws(rules: Rules, w: World, c: nat)
    requires Enabled(w, ProbeHealth(c))
    ensures var s, w' := w.calls[c].stage.roster[w.calls[c].stage.n], Next(rules, w, ProbeHealth(c));
            && w'.cells.Keys == w.cells.Keys
            && (forall t :: t in w.cells && t != s ==> w'.cells[t] == w.cells[t])
            && w'.cells[s] == (if InScope(w, s, w.calls[c].scope) && IsReady(w.cells[s], w.now)
                               then w.cells[s].(health := Available) else w.cells[s])
  {
  }

  // ---------------------------------------------------------------- runs

  ghost predicate IsRun(rules: Rules, run: seq<World>, steps: seq<Step>) {
    && |run| == |steps| + 1 && Start(run[0])
    && forall i :: 0 <= i < |steps| ==> Follows(rules, run[i], steps[i], run[i + 1])
  }

  ghost predicate Follows(rules: Rules, w: World, step: Step, next: World) {
    Enabled(w, step) && next == Next(rules, w, step)
  }

  /** In every reachable state the counters equal the live leases and guards. */
  lemma {:induction false} RunKept(rules: Rules, run: seq<World>, steps: seq<Step>, k: nat)
    requires IsRun(rules, run, steps) && k < |run|
    ensures Consistent(run[k]) && run[k].tick == k
  {
    hide Consistent, Enabled, Apply;
    if k == 0 {
      StartIsConsistent(run[0]);
    } else {
      RunKept(rules, run, steps, k - 1);
      assert Follows(rules, run[k - 1], steps[k - 1], run[k]);
      StepKept(rules, run[k - 1], steps[k - 1]);
    }
  }

  /** Whatever is dropped next finds a positive counter. */
  lemma {:induction false} NeverUnderflows(w: World)
    requires Consistent(w)
    ensures forall l :: l in w.leases ==> w.leases[l] in w.cells && w.cells[w.leases[l]].active > 0
    ensures forall c :: c in w.calls && w.calls[c].guard.Some? ==> w.queued > 0
  {
    forall l | l in w.leases ensures w.cells[w.leases[l]].active > 0 {
      assert l in LeasesOn(w.leases, w.leases[l]);
    }
    forall c | c in w.calls && w.calls[c].guard.Some? ensures w.queued > 0 {
      assert c in Guarded(w.calls);
    }
  }

  // ---------------------------------------------------------------- a fixed configuration

  predicate ReadsConfig(call: Call, config: Config) {
    && (call.stage.Claiming? ==> call.stage.limit == config.maxConcurrent)
    && (call.stage.Joining? ==> call.stage.config == config)
  }

  /** No account is over its limit and the queue proper is not over its size. */
  ghost predicate WithinLimits(w: World) {
    && (forall s :: s in w.cells ==> w.cells[s].active <= Maximum(w.config.maxConcurrent))
    && |Regular(w.calls)| <= w.config.maxQueueSize
    && (forall c :: c in w.calls ==> ReadsConfig(w.calls[c], w.config))
  }

  lemma {:induction false} LimitsKept(rules: Rules, w: World, step: Step)
    requires Consistent(w) && WithinLimits(w) && Enabled(w, step) && !step.SetConfig?
    ensures WithinLimits(Next(rules, w, step))
  {
    NeverUnderflows(w);
    QueueStep(rules, w, step);
    SlotsKept(rules, w, step);
    assert RegularBound(w, step, |Regular(w.calls)|) <= w.config.maxQueueSize by {
      assert step.Join? ==> ReadsConfig(w.calls[step.call], w.config);
    }
    hide Consistent, Regular, Enabled, Apply, RegularBound;
    var w' := Next(rules, w, step);
    forall c | c in w'.calls ensures ReadsConfig(w'.calls[c], w'.config) {
      ReadsKept(rules, w, step, c);
    }
  }

  lemma {:induction false} SlotsKept(rules: Rules, w: World, step: Step)
    requires Enabled(w, step) && !step.SetConfig? && WithinLimits(w)
    requires step.Release? ==> w.cells[w.leases[step.lease]].active > 0
    ensures var w' := Next(rules, w, step);
            w'.config == w.config && forall s :: s in w'.cells ==> w'.cells[s].active <= Maximum(w.config.maxConcurrent)
  {
    hide Regular, SortByScore, Score, FitFor;
  }

  lemma {:induction false} ReadsKept(rules: Rules, w: World, step: Step, c: nat)
    requires Enabled(w, step) && !step.SetConfig? && WithinLimits(w) && c in Next(rules, w, step).calls
    ensures ReadsConfig(Next(rules, w, step).calls[c], w.config)
  {
    hide Regular, SortByScore, Score, FitFor;
    assert c in w.calls ==> ReadsConfig(w.calls[c], w.config);
  }

  /** While the configuration stands, accounts and queue stay within their limits. */
  lemma {:induction false} FixedConfigLimits(rules: Rules, run: seq<World>, steps: seq<Step>, k: nat)
    requires IsRun(rules, run, steps) && k < |run|
    requires forall i :: 0 <= i < |steps| ==> !steps[i].SetConfig?
    ensures WithinLimits(run[k])
  {
    hide Consistent, Enabled, Apply;
    if k == 0 {
      assert Regular(run[0].calls) == {};
    } else {
      FixedConfigLimits(rules, run, steps, k - 1);
      assert Follows(rules, run[k - 1], steps[k - 1], run[k]);
      RunKept(rules, run, steps, k - 1);
      LimitsKept(rules, run[k - 1], steps[k - 1]);
    }
  }
}
