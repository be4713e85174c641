/**
 Which account a lease is for (crates/kproxy-pool/src/pool.rs). Other calls, reloads and updates
 interleave with one try, so what a try saw is stated over the run: a fact held at some step
 between the moment the try began and the step that took the slot.
 */
module PoolLeases {
  import opened PoolScheduling
  import opened Pool

  datatype Fact =
    | IsUsable(state: nat)
    | NotUsable(state: nat)
    | IsFit(state: nat, model: string)
    | NotFit(state: nat, model: string)
    | HasScore(candidate: Candidate)
    | IsFull(state: nat, limit: Usize)
    | LimitIs(limit: Usize)

  /** What the facts mean, on the fields of the account and the configuration. */
  predicate Holds(rules: Rules, w: World, fact: Fact) {
    match fact
    case IsUsable(s) => s in w.cells && IsReady(w.cells[s], w.now)
    case NotUsable(s) => s in w.cells && !IsReady(w.cells[s], w.now)
    case IsFit(s, model) => s in w.cells && IsServing(rules, w.cells[s], w.config, model)
    case NotFit(s, model) => s in w.cells && !IsServing(rules, w.cells[s], w.config, model)
    case HasScore(c) => c.state in w.cells && 0.0 <= c.score - Load(w.cells[c.state], w.config, w.now) < JitterBound
    case IsFull(s, limit) => s in w.cells && w.cells[s].active >= if limit == 0 then UsizeMax else limit
    case LimitIs(limit) => w.config.maxConcurrent == limit
  }

  /** The fact held at some step from `from` to `k`. */
  ghost predicate Saw(rules: Rules, run: seq<World>, from: nat, k: nat, fact: Fact) {
    exists j :: from <= j <= k < |run| && Holds(rules, run[j], fact)
  }

  lemma {:induction false} SawNow(rules: Rules, run: seq<World>, from: nat, k: nat, fact: Fact)
    requires from <= k < |run| && Holds(rules, run[k], fact)
    ensures Saw(rules, run, from, k, fact)
  {
  }

  lemma {:induction false} SawBefore(rules: Rules, run: seq<World>, from: nat, k: nat, fact: Fact)
    requires Saw(rules, run, from, k, fact) && k + 1 < |run|
    ensures Saw(rules, run, from, k + 1, fact)
  {
    var j :| from <= j <= k && Holds(rules, run[j], fact);
    assert from <= j <= k + 1;
  }

  // ---------------------------------------------------------------- what a try knows

  /** The candidate was in scope and usable, fit and scored so during the try. */
  ghost predicate Backed(rules: Rules, run: seq<World>, from: nat, k: nat, model: string, scope: set<string>, c: Candidate) {
    && k < |run| && InScope(run[k], c.state, scope)
    && Saw(rules, run, from, k, IsUsable(c.state))
    && Saw(rules, run, from, k, IsFit(c.state, model))
    && Saw(rules, run, from, k, HasScore(c))
  }

  predicate IsListed(found: seq<Candidate>, s: nat) {
    exists i :: 0 <= i < |found| && found[i].state == s
  }

  /** The account is out of scope, was seen not eligible, or is a candidate. */
  ghost predicate Settled(rules: Rules, run: seq<World>, from: nat, k: nat, model: string, scope: set<string>, found: seq<Candidate>, s: nat) {
    || (k < |run| && !InScope(run[k], s, scope))
    || Saw(rules, run, from, k, NotUsable(s))
    || Saw(rules, run, from, k, NotFit(s, model))
    || IsListed(found, s)
  }

  ghost predicate Backing(rules: Rules, run: seq<World>, from: nat, k: nat, call: Call, found: seq<Candidate>) {
    forall i :: 0 <= i < |found| ==> Backed(rules, run, from, k, call.model, call.scope, found[i])
  }

  ghost predicate Settling(rules: Rules, run: seq<World>, from: nat, k: nat, call: Call, found: seq<Candidate>, roster: seq<nat>, n: nat) {
    n <= |roster| && forall i :: 0 <= i < n ==> Settled(rules, run, from, k, call.model, call.scope, found, roster[i])
  }

  predicate IsRoster(run: seq<World>, from: nat, k: nat, roster: seq<nat>) {
    && from <= k < |run| && run[from].roster == roster
    && forall i :: 0 <= i < |roster| ==> roster[i] in run[k].cells
  }

  ghost predicate Refused(rules: Rules, run: seq<World>, from: nat, k: nat, order: seq<Candidate>, tried: nat, limit: Usize) {
    tried <= |order| && forall i :: 0 <= i < tried ==> Saw(rules, run, from, k, IsFull(order[i].state, limit))
  }

  ghost predicate Probed(rules: Rules, run: seq<World>, k: nat, call: Call)
    requires call.stage.Looking?
  {
    var stage := call.stage;
    stage.probe.Unseen? ||
    (&& k < |run| && stage.n < |stage.roster| && InScope(run[k], stage.roster[stage.n], call.scope)
     && Saw(rules, run, stage.from, k, IsUsable(stage.roster[stage.n]))
     && (stage.probe.SeenFit? ==> Saw(rules, run, stage.from, k, IsFit(stage.roster[stage.n], call.model))))
  }

  /** What a call in a try has evidence for after `k` steps. */
  ghost predicate Justified(rules: Rules, run: seq<World>, k: nat, call: Call) {
    match call.stage
    case Looking(_, from, roster, n, _, found) =>
      && IsRoster(run, from, k, roster)
      && Settling(rules, run, from, k, call, found, roster, n)
      && Backing(rules, run, from, k, call, found)
      && Probed(rules, run, k, call)
    case Claiming(from, roster, order, tried, limit) =>
      && IsRoster(run, from, k, roster)
      && Settling(rules, run, from, k, call, order, roster, |roster|)
      && Backing(rules, run, from, k, call, order)
      && Sorted(order)
      && Refused(rules, run, from, k, order, tried, limit)
      && Saw(rules, run, from, k, LimitIs(limit))
    case _ => true
  }

  // ---------------------------------------------------------------- evidence stays

  /** States are never removed and never change their account id. */
  predicate Grows(w: World, next: World) {
    forall s :: s in w.cells ==> s in next.cells && next.cells[s].account.id == w.cells[s].account.id
  }

  lemma {:induction false} StepGrows(rules: Rules, w: World, step: Step)
    requires Enabled(w, step)
    ensures Grows(w, Next(rules, w, step))
  {
    hide SortByScore, Score, FitFor;
  }

  lemma {:induction false} BackingStays(rules: Rules, run: seq<World>, from: nat, k: nat, call: Call, found: seq<Candidate>)
    requires k + 1 < |run| && Grows(run[k], run[k + 1]) && Backing(rules, run, from, k, call, found)
    ensures Backing(rules, run, from, k + 1, call, found)
  {
    hide Saw;
    forall i | 0 <= i < |found| ensures Backed(rules, run, from, k + 1, call.model, call.scope, found[i]) {
      var c := found[i];
      assert Backed(rules, run, from, k, call.model, call.scope, c);
      SawBefore(rules, run, from, k, IsUsable(c.state));
      SawBefore(rules, run, from, k, IsFit(c.state, call.model));
      SawBefore(rules, run, from, k, HasScore(c));
    }
  }

  lemma {:induction false} SettlingStays(rules: Rules, run: seq<World>, from: nat, k: nat, call: Call, found: seq<Candidate>, roster: seq<nat>, n: nat)
    requires k + 1 < |run| && Grows(run[k], run[k + 1]) && IsRoster(run, from, k, roster)
    requires Settling(rules, run, from, k, call, found, roster, n)
    ensures Settling(rules, run, from, k + 1, call, found, roster, n) && IsRoster(run, from, k + 1, roster)
  {
    hide Saw, IsListed;
    forall i | 0 <= i < n ensures Settled(rules, run, from, k + 1, call.model, call.scope, found, roster[i]) {
      var s := roster[i];
      assert Settled(rules, run, from, k, call.model, call.scope, found, s);
      if Saw(rules, run, from, k, NotUsable(s)) { SawBefore(rules, run, from, k, NotUsable(s)); }
      if Saw(rules, run, from, k, NotFit(s, call.model)) { SawBefore(rules, run, from, k, NotFit(s, call.model)); }
    }
  }

  lemma {:induction false} RefusedStays(rules: Rules, run: seq<World>, from: nat, k: nat, order: seq<Candidate>, tried: nat, limit: Usize)
    requires k + 1 < |run| && Refused(rules, run, from, k, order, tried, limit)
    ensures Refused(rules, run, from, k + 1, order, tried, limit)
  {
    hide Saw;
    forall i | 0 <= i < tried ensures Saw(rules, run, from, k + 1, IsFull(order[i].state, limit)) {
      SawBefore(rules, run, from, k, IsFull(order[i].state, limit));
    }
  }

  /** A call that does not move keeps its evidence. */
  lemma {:induction false} JustifiedStays(rules: Rules, run: seq<World>, k: nat, call: Call)
    requires k + 1 < |run| && Grows(run[k], run[k + 1]) && Justified(rules, run, k, call)
    ensures Justified(rules, run, k + 1, call)
  {
    hide Saw, Settling, Backing, Refused, IsRoster;
    match call.stage
    case Looking(_, from, roster, n, probe, found) =>
      SettlingStays(rules, run, from, k, call, found, roster, n);
      BackingStays(rules, run, from, k, call, found);
      if !probe.Unseen? {
        SawBefore(rules, run, from, k, IsUsable(roster[n]));
        if probe.SeenFit? { SawBefore(rules, run, from, k, IsFit(roster[n], call.model)); }
      }
    case Claiming(from, roster, order, tried, limit) =>
      SettlingStays(rules, run, from, k, call, order, roster, |roster|);
      BackingStays(rules, run, from, k, call, order);
      RefusedStays(rules, run, from, k, order, tried, limit);
      SawBefore(rules, run, from, k, LimitIs(limit));
    case _ =>
  }

  // ---------------------------------------------------------------- evidence grows

  /** One more account of the roster is settled, perhaps as a candidate. */
  lemma {:induction false} SettleNext(rules: Rules, run: seq<World>, from: nat, k: nat, call: Call, found: seq<Candidate>, more: seq<Candidate>, roster: seq<nat>, n: nat)
    requires Settling(rules, run, from, k, call, found, roster, n) && n < |roster| && found <= more
    requires Settled(rules, run, from, k, call.model, call.scope, more, roster[n])
    ensures Settling(rules, run, from, k, call, more, roster, n + 1)
  {
    hide Saw;
    forall i | 0 <= i < n + 1 ensures Settled(rules, run, from, k, call.model, call.scope, more, roster[i]) {
      if i < n {
        assert Settled(rules, run, from, k, call.model, call.scope, found, roster[i]);
        if IsListed(found, roster[i]) {
          var j :| 0 <= j < |found| && found[j].state == roster[i];
          assert more[j].state == roster[i];
        }
      }
    }
  }

  /** Sorting the candidates changes neither what is settled nor what is backed. */
  lemma {:induction false} SortingKeeps(rules: Rules, run: seq<World>, from: nat, k: nat, call: Call, found: seq<Candidate>, roster: seq<nat>)
    requires Settling(rules, run, from, k, call, found, roster, |roster|) && Backing(rules, run, from, k, call, found)
    ensures Settling(rules, run, from, k, call, SortByScore(found), roster, |roster|)
    ensures Backing(rules, run, from, k, call, SortByScore(found)) && Sorted(SortByScore(found))
  {
    hide Saw, Backed, SortByScore;
    var order := SortByScore(found);
    SortsByScore(found);
    forall i | 0 <= i < |order| ensures Backed(rules, run, from, k, call.model, call.scope, order[i]) {
      SameMembers(found, order[i]);
    }
    forall i | 0 <= i < |roster| ensures Settled(rules, run, from, k, call.model, call.scope, order, roster[i]) {
      assert Settled(rules, run, from, k, call.model, call.scope, found, roster[i]);
      if IsListed(found, roster[i]) {
        var j :| 0 <= j < |found| && found[j].state == roster[i];
        SameMembers(found, found[j]);
        var m :| 0 <= m < |order| && order[m] == found[j];
        assert order[m].state == roster[i];
      }
    }
  }

  /** The roster entry under `n` is settled without becoming a candidate. */
  lemma {:induction false} PassOver(rules: Rules, run: seq<World>, k: nat, call: Call)
    requires call.stage.Looking? && call.stage.n < |call.stage.roster| && Justified(rules, run, k, call)
    requires var st := call.stage; Settled(rules, run, st.from, k, call.model, call.scope, st.found, st.roster[st.n])
    ensures Justified(rules, run, k, call.(stage := NextProbe(call.stage, call.stage.found)))
  {
    hide Saw, Settling, Settled, Backed, IsRoster;
    var st := call.stage;
    var next := call.(stage := NextProbe(st, st.found));
    SettleNext(rules, run, st.from, k, call, st.found, st.found, st.roster, st.n);
    SettlingOf(rules, run, st.from, k, call, next, st.found, st.roster, st.n + 1);
  }

  /** Evidence depends on a call only through its model and scope. */
  lemma {:induction false} SettlingOf(rules: Rules, run: seq<World>, from: nat, k: nat, call: Call, other: Call, found: seq<Candidate>, roster: seq<nat>, n: nat)
    requires other.model == call.model && other.scope == call.scope
    ensures Settling(rules, run, from, k, call, found, roster, n) == Settling(rules, run, from, k, other, found, roster, n)
    ensures Backing(rules, run, from, k, call, found) == Backing(rules, run, from, k, other, found)
  {
    hide Settled, Backed;
  }

  lemma {:induction false} AfterHealth(rules: Rules, run: seq<World>, k: nat, call: Call)
    requires k < |run| && Justified(rules, run, k, call)
    requires call.stage.Looking? && call.stage.n < |call.stage.roster| && call.stage.probe == Unseen
    ensures var s := call.stage.roster[call.stage.n];
            s in run[k].cells &&
            Justified(rules, run, k,
              call.(stage := if InScope(run[k], s, call.scope) && Usable(run[k].cells[s], run[k].now)
                             then call.stage.(probe := SeenUsable)
                             else NextProbe(call.stage, call.stage.found)))
  {
    var st := call.stage;
    var s, w := st.roster[st.n], run[k];
    assert s in w.cells;
    ReadyExactly(w.cells[s], w.now);
    hide Settling, Backing, Saw, Usable, IsReady;
    if !InScope(w, s, call.scope) {
      PassOver(rules, run, k, call);
    } else if !Usable(w.cells[s], w.now) {
      SawNow(rules, run, st.from, k, NotUsable(s));
      PassOver(rules, run, k, call);
    } else {
      SawNow(rules, run, st.from, k, IsUsable(s));
      SettlingOf(rules, run, st.from, k, call, call.(stage := st.(probe := SeenUsable)), st.found, st.roster, st.n);
    }
  }

  lemma {:induction false} AfterAccount(rules: Rules, run: seq<World>, k: nat, call: Call)
    requires k < |run| && Justified(rules, run, k, call)
    requires call.stage.Looking? && call.stage.n < |call.stage.roster| && call.stage.probe == SeenUsable
    ensures var s := call.stage.roster[call.stage.n];
            s in run[k].cells &&
            Justified(rules, run, k,
              call.(stage := if FitFor(rules, run[k].cells[s], run[k].config, call.model)
                             then call.stage.(probe := SeenFit)
                             else NextProbe(call.stage, call.stage.found)))
  {
    var st := call.stage;
    var s, w := st.roster[st.n], run[k];
    assert s in w.cells;
    FitExactly(rules, w.cells[s], w.config, call.model);
    hide Settling, Backing, Saw, FitFor, IsServing;
    if !FitFor(rules, w.cells[s], w.config, call.model) {
      SawNow(rules, run, st.from, k, NotFit(s, call.model));
      PassOver(rules, run, k, call);
    } else {
      SawNow(rules, run, st.from, k, IsFit(s, call.model));
      SettlingOf(rules, run, st.from, k, call, call.(stage := st.(probe := SeenFit)), st.found, st.roster, st.n);
    }
  }

  lemma {:induction false} AfterScore(rules: Rules, run: seq<World>, k: nat, call: Call, c: Candidate)
    requires k < |run| && Justified(rules, run, k, call)
    requires call.stage.Looking? && call.stage.n < |call.stage.roster| && call.stage.probe == SeenFit
    requires c.state == call.stage.roster[call.stage.n] && Holds(rules, run[k], HasScore(c))
    ensures Justified(rules, run, k, call.(stage := NextProbe(call.stage, call.stage.found + [c])))
  {
    hide Saw, Settling, Score, Load;
    var st := call.stage;
    var more := st.found + [c];
    SawNow(rules, run, st.from, k, HasScore(c));
    assert more[|st.found|].state == c.state;
    SettleNext(rules, run, st.from, k, call, st.found, more, st.roster, st.n);
    SettlingOf(rules, run, st.from, k, call, call.(stage := NextProbe(st, more)), more, st.roster, st.n + 1);
  }

  lemma {:induction false} AfterLook(rules: Rules, run: seq<World>, k: nat, call: Call)
    requires k < |run| && Justified(rules, run, k, call)
    requires call.stage.Looking? && call.stage.n == |call.stage.roster|
    ensures var st := call.stage;
            Justified(rules, run, k,
              call.(stage := Claiming(st.from, st.roster, SortByScore(st.found), 0, run[k].config.maxConcurrent)))
  {
    hide Saw, Settling, Backing, SortByScore;
    var st := call.stage;
    var limit := run[k].config.maxConcurrent;
    SortingKeeps(rules, run, st.from, k, call, st.found, st.roster);
    SawNow(rules, run, st.from, k, LimitIs(limit));
    SettlingOf(rules, run, st.from, k, call, call.(stage := Claiming(st.from, st.roster, SortByScore(st.found), 0, limit)),
               SortByScore(st.found), st.roster, |st.roster|);
  }

  lemma {:induction false} AfterRefusal(rules: Rules, run: seq<World>, k: nat, call: Call)
    requires k < |run| && Justified(rules, run, k, call)
    requires call.stage.Claiming? && call.stage.tried < |call.stage.order|
    requires Holds(rules, run[k], IsFull(call.stage.order[call.stage.tried].state, call.stage.limit))
    ensures Justified(rules, run, k, call.(stage := call.stage.(tried := call.stage.tried + 1)))
  {
    hide Saw, Settling, Backing;
    var st := call.stage;
    SawNow(rules, run, st.from, k, IsFull(st.order[st.tried].state, st.limit));
    SettlingOf(rules, run, st.from, k, call, call.(stage := st.(tried := st.tried + 1)), st.order, st.roster, |st.roster|);
  }

  predicate RosterKnown(w: World) {
    forall i :: 0 <= i < |w.roster| ==> w.roster[i] in w.cells
  }

  lemma {:induction false} RosterStep(rules: Rules, w: World, step: Step)
    requires Enabled(w, step) && RosterKnown(w)
    ensures RosterKnown(Next(rules, w, step))
  {
    hide SortByScore, Score, FitFor;
  }

  /** The evidence of the call that moves, before the step is over. */
  lemma {:induction false} MovedCall(rules: Rules, run: seq<World>, k: nat, step: Step, c: nat)
    requires k < |run| && run[k].tick == k && RosterKnown(run[k]) && Enabled(run[k], step)
    requires c in Next(rules, run[k], step).calls
    requires c in run[k].calls ==> Justified(rules, run, k, run[k].calls[c])
    ensures Justified(rules, run, k, Next(rules, run[k], step).calls[c])
  {
    hide Justified, SortByScore, Score, Load, FitFor, IsServing, Usable, IsReady, RosterKnown;
    var w := run[k];
    var call := Next(rules, w, step).calls[c];
    if c in w.calls && call == w.calls[c] { return; }
    match step
    case Acquire(_, _, _) => MovedToLook(rules, run, k, call, true);
    case AcquireScoped(_, _, _, _) => MovedToLook(rules, run, k, call, true);
    case ProbeHealth(_) => AfterHealth(rules, run, k, w.calls[c]);
    case ProbeAccount(_) => AfterAccount(rules, run, k, w.calls[c]);
    case ProbeScore(_, jitter) =>
      var st := w.calls[c].stage;
      ScoreIsLoad(w.cells[st.roster[st.n]], w.config, w.now);
      AfterScore(rules, run, k, w.calls[c], Candidate(Score(w.cells[st.roster[st.n]], w.config, w.now) + jitter, st.roster[st.n]));
    case EndLook(_) =>
      if w.calls[c].stage.check { MovedToLook(rules, run, k, call, false); } else { AfterLook(rules, run, k, w.calls[c]); }
    case Claim(_, _) => AfterRefusal(rules, run, k, w.calls[c]);
    case GiveUp(_) => Resting(rules, run, k, call);
    case Join(_) => Resting(rules, run, k, call);
    case Wake(_) => MovedToLook(rules, run, k, call, false);
  }

  lemma {:induction false} MovedToLook(rules: Rules, run: seq<World>, k: nat, call: Call, check: bool)
    requires k < |run| && run[k].tick == k && RosterKnown(run[k]) && call.stage == StartLook(run[k], check)
    ensures Justified(rules, run, k, call)
  {
  }

  lemma {:induction false} Resting(rules: Rules, run: seq<World>, k: nat, call: Call)
    requires call.stage.Joining? || call.stage.Waiting?
    ensures Justified(rules, run, k, call)
  {
  }

  // ---------------------------------------------------------------- whole runs

  ghost predicate AllJustified(rules: Rules, run: seq<World>, k: nat) {
    && k < |run| && run[k].tick == k && RosterKnown(run[k]) && Consistent(run[k])
    && forall c :: c in run[k].calls ==> Justified(rules, run, k, run[k].calls[c])
  }

  /** At every step of every run each call has evidence for what it holds. */
  lemma {:induction false} RunJustified(rules: Rules, run: seq<World>, steps: seq<Step>, k: nat)
    requires IsRun(rules, run, steps) && k < |run|
    ensures AllJustified(rules, run, k)
  {
    hide Consistent, Enabled, Next, Justified, RosterKnown;
    RunKept(rules, run, steps, k);
    if k == 0 {
      StartKnown(run[0]);
    } else {
      var p := k - 1;
      RunJustified(rules, run, steps, p);
      assert Follows(rules, run[p], steps[p], run[p + 1]);
      RosterStep(rules, run[p], steps[p]);
      StepGrows(rules, run[p], steps[p]);
      forall c | c in run[k].calls ensures Justified(rules, run, k, run[k].calls[c]) {
        MovedCall(rules, run, p, steps[p], c);
        JustifiedStays(rules, run, p, run[k].calls[c]);
      }
    }
  }

  lemma {:induction false} StartKnown(w: World)
    requires Start(w)
    ensures RosterKnown(w)
  {
  }

  /** The account states that calls and leases name exist, so no step is blocked for want of one. */
  lemma {:induction false} NeverStuck(rules: Rules, run: seq<World>, k: nat, c: nat)
    requires AllJustified(rules, run, k) && c in run[k].calls
    ensures forall l :: l in run[k].leases ==> Enabled(run[k], Release(l))
    ensures var st := run[k].calls[c].stage;
            st.Looking? && st.n < |st.roster| ==> exists probe :: AtProbe(run[k], c, probe)
    ensures var st := run[k].calls[c].stage;
            st.Claiming? && st.tried < |st.order| ==> forall l :: l !in run[k].leases ==> Enabled(run[k], Claim(c, l))
  {
    hide Saw;
    var w, call := run[k], run[k].calls[c];
    assert Justified(rules, run, k, call);
    if call.stage.Looking? && call.stage.n < |call.stage.roster| {
      assert AtProbe(w, c, call.stage.probe);
    }
    if call.stage.Claiming? && call.stage.tried < |call.stage.order| {
      assert Backed(rules, run, call.stage.from, k, call.model, call.scope, call.stage.order[call.stage.tried]);
    }
  }

  /** During the try the account was out of scope, not eligible, full, or scored at least `score`. */
  ghost predicate NoBetter(rules: Rules, run: seq<World>, from: nat, k: nat, call: Call, limit: Usize, score: real, s: nat) {
    || (k < |run| && !InScope(run[k], s, call.scope))
    || Saw(rules, run, from, k, NotUsable(s))
    || Saw(rules, run, from, k, NotFit(s, call.model))
    || Saw(rules, run, from, k, IsFull(s, limit))
    || exists c: Candidate :: c.state == s && c.score >= score && Saw(rules, run, from, k, HasScore(c))
  }

  /**
   The lease that a successful claim hands out: an account of the pool as it was when the try
   began, in scope, usable and fit during the try, and no other account of that pool was better.
   The slot keeps the account within a limit that was in force during the try.
   */
  ghost predicate IsBestLease(rules: Rules, run: seq<World>, k: nat, c: nat, lease: nat) {
    && k + 1 < |run| && c in run[k].calls && run[k].calls[c].stage.Claiming?
    && lease in run[k + 1].leases && run[k + 1].leases[lease] in run[k + 1].cells
    && var call, stage, s := run[k].calls[c], run[k].calls[c].stage, run[k + 1].leases[lease];
       && IsRoster(run, stage.from, k, stage.roster)
       && (exists score ::
             && Backed(rules, run, stage.from, k, call.model, call.scope, Candidate(score, s))
             && forall i :: 0 <= i < |stage.roster| ==>
                  NoBetter(rules, run, stage.from, k, call, stage.limit, score, stage.roster[i]))
       && run[k + 1].cells[s].active <= (if stage.limit == 0 then UsizeMax else stage.limit)
       && Saw(rules, run, stage.from, k, LimitIs(stage.limit))
       && (call.origin.Scoped? ==>
             run[k + 1].cells[s].account.id in call.origin.allowed - call.origin.excluded)
  }

  /** Every lease of every run is the best one, whatever ran in between and however often the call waited. */
  lemma {:induction false} EveryLeaseIsBest(rules: Rules, run: seq<World>, steps: seq<Step>, k: nat)
    requires IsRun(rules, run, steps) && k < |steps| && steps[k].Claim?
    requires steps[k].lease in run[k + 1].leases
    ensures IsBestLease(rules, run, k, steps[k].call, steps[k].lease)
  {
    var c, l := steps[k].call, steps[k].lease;
    assert Follows(rules, run[k], steps[k], run[k + 1]);
    RunJustified(rules, run, steps, k);
    ClaimEffect(rules, run[k], c, l);
    var call := run[k].calls[c];
    var stage := call.stage;
    assert Justified(rules, run, k, call);
    hide Saw, Settling, Enabled, Next, Score, FitFor, NoBetter;
    var best := stage.order[stage.tried];
    assert Backed(rules, run, stage.from, k, call.model, call.scope, best);
    assert best == Candidate(best.score, best.state);
    forall i | 0 <= i < |stage.roster|
      ensures NoBetter(rules, run, stage.from, k, call, stage.limit, best.score, stage.roster[i])
    {
      NoneBetter(rules, run, k, call, stage.roster[i]);
    }
    assert GuardFits(call);
  }

  lemma {:induction false} ClaimEffect(rules: Rules, w: World, c: nat, l: nat)
    requires Enabled(w, Claim(c, l)) && l in Next(rules, w, Claim(c, l)).leases
    ensures var w', stage := Next(rules, w, Claim(c, l)), w.calls[c].stage;
            && w'.leases[l] == stage.order[stage.tried].state && w'.leases[l] in w'.cells
            && w'.cells[w'.leases[l]].active <= Maximum(stage.limit)
            && w'.cells[w'.leases[l]].account == w.cells[w'.leases[l]].account
            && (forall s :: s in w.cells && s != w'.leases[l] ==> s in w'.cells && w'.cells[s] == w.cells[s])
            && w'.cells[w'.leases[l]].active == w.cells[w'.leases[l]].active + 1 && w'.cells[w'.leases[l]].lastUsed == w.now
  {
  }

  /** A dropped lease gives its slot back, dates the use, and changes no other account. */
  lemma {:induction false} ReleaseEffect(rules: Rules, w: World, l: nat)
    requires Consistent(w) && Enabled(w, Release(l))
    ensures var w', s := Next(rules, w, Release(l)), w.leases[l];
            && l !in w'.leases && w'.cells.Keys == w.cells.Keys
            && w'.cells[s] == w.cells[s].(active := w'.cells[s].active, lastUsed := w.now)
            && w'.cells[s].active + 1 == w.cells[s].active
            && forall t :: t in w.cells && t != s ==> w'.cells[t] == w.cells[t]
  {
    NeverUnderflows(w);
  }

  lemma {:induction false} NoneBetter(rules: Rules, run: seq<World>, k: nat, call: Call, s: nat)
    requires k < |run| && Justified(rules, run, k, call) && call.stage.Claiming? && call.stage.tried < |call.stage.order|
    requires s in call.stage.roster
    ensures NoBetter(rules, run, call.stage.from, k, call, call.stage.limit, call.stage.order[call.stage.tried].score, s)
  {
    hide Saw, Holds;
    var st := call.stage;
    var r :| 0 <= r < |st.roster| && st.roster[r] == s;
    assert Settled(rules, run, st.from, k, call.model, call.scope, st.order, s);
    if IsListed(st.order, s) {
      var i :| 0 <= i < |st.order| && st.order[i].state == s;
      if i < st.tried {
        assert Saw(rules, run, st.from, k, IsFull(st.order[i].state, st.limit));
      } else {
        assert Backed(rules, run, st.from, k, call.model, call.scope, st.order[i]);
      }
    }
  }

  /** The first look reports that no account can serve only when it saw every account in scope refuse. */
  lemma {:induction false} NoneAvailableIsTrue(rules: Rules, run: seq<World>, steps: seq<Step>, k: nat, s: nat)
    requires IsRun(rules, run, steps) && k < |steps| && steps[k].EndLook?
    requires steps[k].call !in run[k + 1].calls
    ensures steps[k].call in run[k].calls && run[k].calls[steps[k].call].stage.Looking?
    ensures var call := run[k].calls[steps[k].call];
            s in call.stage.roster && InScope(run[k], s, call.scope) ==>
              || Saw(rules, run, call.stage.from, k, NotUsable(s))
              || Saw(rules, run, call.stage.from, k, NotFit(s, call.model))
  {
    assert Follows(rules, run[k], steps[k], run[k + 1]);
    RunJustified(rules, run, steps, k);
    var call := run[k].calls[steps[k].call];
    assert Justified(rules, run, k, call);
    assert call.stage.found == [];
    hide Saw, Next, FitFor, Score;
    if s in call.stage.roster {
      var r :| 0 <= r < |call.stage.roster| && call.stage.roster[r] == s;
      assert Settled(rules, run, call.stage.from, k, call.model, call.scope, [], s);
    }
  }
}
