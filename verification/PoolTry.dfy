/**
 One `try_acquire` that nothing interrupts (crates/kproxy-pool/src/pool.rs), on the pool's own
 mutable state: the account cells are updated in place while candidates are collected, and the
 first candidate in score order with a free slot is taken.
 */
module PoolTry {
  import opened Wrappers
  import opened PoolScheduling

  predicate ScopeHas(cell: Cell, scope: set<string>) {
    scope == {} || cell.account.id in scope
  }

  /** In scope and eligible. */
  predicate Eligible(rules: Rules, cell: Cell, config: Config, now: nat, model: string, scope: set<string>) {
    ScopeHas(cell, scope) && IsReady(cell, now) && IsServing(rules, cell, config, model)
  }

  /** A cooling account whose time is over becomes available when it is looked at. */
  function Thaw(cell: Cell, now: nat, scope: set<string>): Cell {
    if ScopeHas(cell, scope) && CoolingExpired(cell, now) then cell.(health := Available) else cell
  }

  /** What a look at `roster` leaves of the cells. */
  predicate Looked(before: map<nat, Cell>, after: map<nat, Cell>, roster: seq<nat>, now: nat, scope: set<string>) {
    && after.Keys == before.Keys
    && forall s :: s in before ==> after[s] == if s in roster then Thaw(before[s], now, scope) else before[s]
  }

  /** The candidates are the eligible accounts with their scores. */
  predicate AreCandidates(rules: Rules, cells: map<nat, Cell>, roster: seq<nat>, config: Config, now: nat, model: string, scope: set<string>, jitter: nat -> real, found: seq<Candidate>) {
    && (forall s :: s in roster ==> s in cells)
    && (forall s :: s in roster && Eligible(rules, cells[s], config, now, model, scope) ==>
          Candidate(Load(cells[s], config, now) + jitter(s), s) in found)
    && (forall c :: c in found ==>
          && c.state in roster && Eligible(rules, cells[c.state], config, now, model, scope)
          && c.score == Load(cells[c.state], config, now) + jitter(c.state))
  }

  predicate SlotFree(cell: Cell, config: Config) {
    cell.active < if config.maxConcurrent == 0 then UsizeMax else config.maxConcurrent
  }

  /** Eligible and with a free slot. */
  predicate HasFree(rules: Rules, cells: map<nat, Cell>, config: Config, now: nat, model: string, scope: set<string>, s: nat) {
    s in cells && Eligible(rules, cells[s], config, now, model, scope) && SlotFree(cells[s], config)
  }

  predicate IsBusy(cells: map<nat, Cell>, config: Config, s: nat) {
    s in cells && !SlotFree(cells[s], config)
  }

  /** Has a free slot, and the least score of those that have. */
  predicate Chosen(rules: Rules, cells: map<nat, Cell>, roster: seq<nat>, config: Config, now: nat, model: string, scope: set<string>, jitter: nat -> real, s: nat) {
    && s in roster && HasFree(rules, cells, config, now, model, scope, s)
    && forall t :: t in roster && HasFree(rules, cells, config, now, model, scope, t) ==>
         Load(cells[s], config, now) + jitter(s) <= Load(cells[t], config, now) + jitter(t)
  }

  /** One slot of `s` is taken and nothing else changes but what the look changed. */
  predicate Took(before: map<nat, Cell>, after: map<nat, Cell>, roster: seq<nat>, now: nat, scope: set<string>, s: nat) {
    && s in before && s in after
    && after[s] == Thaw(before[s], now, scope).(active := before[s].active + 1, lastUsed := now)
    && Looked(before, after[s := Thaw(before[s], now, scope)], roster, now, scope)
  }

  class AccountPool {
    var cells: map<nat, Cell>
    const roster: seq<nat>
    const config: Config

    ghost predicate Valid() reads this {
      forall i :: 0 <= i < |roster| ==> roster[i] in cells
    }

    constructor (cells: map<nat, Cell>, roster: seq<nat>, config: Config)
      requires forall i :: 0 <= i < |roster| ==> roster[i] in cells
      ensures Valid() && this.cells == cells && this.roster == roster && this.config == config
    {
      this.cells, this.roster, this.config := cells, roster, config;
    }

    method Candidates(rules: Rules, now: nat, model: string, scope: set<string>, jitter: nat -> real) returns (found: seq<Candidate>)
      requires Valid()
      modifies this`cells
      ensures Valid() && Looked(old(cells), cells, roster, now, scope)
      ensures AreCandidates(rules, old(cells), roster, config, now, model, scope, jitter, found)
    {
      hide Looked, AreCandidates, Thaw, Score, Load, Usable, FitFor, IsReady, IsServing, ScopeHas;
      found := [];
      var current, before := cells, cells;
      NothingLooked(rules, cells, config, now, model, scope, jitter);
      for n := 0 to |roster|
        invariant Looked(before, current, roster[..n], now, scope)
        invariant AreCandidates(rules, before, roster[..n], config, now, model, scope, jitter, found)
      {
        var s := roster[n];
        assert roster[..n + 1] == roster[..n] + [s];
        LookOne(before, current, roster[..n], now, scope, s);
        var cell := current[s];
        LookTwice(rules, before[s], config, now, model, scope);
        CandidatesOne(rules, before, roster[..n], config, now, model, scope, jitter, found, s);
        current := current[s := Thaw(cell, now, scope)];
        ReadyExactly(cell, now);
        FitExactly(rules, cell, config, model);
        ScoreIsLoad(cell, config, now);
        if ScopeHas(cell, scope) && Usable(cell, now) && FitFor(rules, cell, config, model) {
          found := found + [Candidate(Score(cell, config, now) + jitter(s), s)];
        }
      }
      assert roster[..|roster|] == roster;
      LookedKeys(before, current, roster, now, scope);
      cells := current;
    }

    /** Takes a slot of the least candidate that has one free, or reports that none has. */
    method TryAcquire(rules: Rules, now: nat, model: string, scope: set<string>, jitter: nat -> real) returns (r: Option<nat>)
      requires Valid()
      modifies this`cells
      ensures Valid()
      ensures r.None? <==> forall s :: s in roster ==> !HasFree(rules, old(cells), config, now, model, scope, s)
      ensures r.None? ==> Looked(old(cells), cells, roster, now, scope)
      ensures r.Some? ==> Chosen(rules, old(cells), roster, config, now, model, scope, jitter, r.value)
      ensures r.Some? ==> Took(old(cells), cells, roster, now, scope, r.value)
    {
      hide Looked, AreCandidates, SortByScore, Chosen, Took, HasFree;
      ghost var before := cells;
      var found := Candidates(rules, now, model, scope, jitter);
      var order := SortByScore(found);
      var current := cells;
      for n := 0 to |order|
        invariant forall i :: 0 <= i < n ==> IsBusy(before, config, order[i].state)
        invariant cells == current
      {
        var s := order[n].state;
        CandidateSlots(rules, before, current, roster, config, now, model, scope, jitter, found, order[n]);
        if current[s].active < Maximum(config.maxConcurrent) {
          FirstFreeIsChosen(rules, before, roster, config, now, model, scope, jitter, found, n);
          TakeSlot(before, current, roster, now, scope, s);
          cells := current[s := current[s].(active := current[s].active + 1, lastUsed := now)];
          return Some(s);
        }
      }
      NoneFree(rules, before, roster, config, now, model, scope, jitter, found);
      return None;
    }
  }

  lemma {:induction false} CandidateSlots(rules: Rules, before: map<nat, Cell>, after: map<nat, Cell>, roster: seq<nat>, config: Config, now: nat, model: string, scope: set<string>, jitter: nat -> real, found: seq<Candidate>, c: Candidate)
    requires AreCandidates(rules, before, roster, config, now, model, scope, jitter, found)
    requires Looked(before, after, roster, now, scope) && c in SortByScore(found)
    ensures c.state in roster && c.state in before && c.state in after && after[c.state].active == before[c.state].active
  {
    hide SortByScore, Load, Eligible, CoolingExpired, ScopeHas;
    SameMembers(found, c);
  }

  lemma {:induction false} TakeSlot(before: map<nat, Cell>, after: map<nat, Cell>, roster: seq<nat>, now: nat, scope: set<string>, s: nat)
    requires Looked(before, after, roster, now, scope) && s in roster && s in before && s in after
    requires after[s].active == before[s].active
    ensures Took(before, after[s := after[s].(active := after[s].active + 1, lastUsed := now)], roster, now, scope, s)
  {
    hide CoolingExpired, ScopeHas;
  }

  lemma {:induction false} FirstFreeIsChosen(rules: Rules, cells: map<nat, Cell>, roster: seq<nat>, config: Config, now: nat, model: string, scope: set<string>, jitter: nat -> real, found: seq<Candidate>, n: nat)
    requires AreCandidates(rules, cells, roster, config, now, model, scope, jitter, found)
    requires n < |SortByScore(found)| && SortByScore(found)[n].state in cells
    requires SlotFree(cells[SortByScore(found)[n].state], config)
    requires forall i :: 0 <= i < n ==> IsBusy(cells, config, SortByScore(found)[i].state)
    ensures Chosen(rules, cells, roster, config, now, model, scope, jitter, SortByScore(found)[n].state)
    ensures HasFree(rules, cells, config, now, model, scope, SortByScore(found)[n].state)
  {
    hide SortByScore, Load, Eligible;
    var order := SortByScore(found);
    var best := order[n];
    SortsByScore(found);
    SameMembers(found, best);
    forall t | t in roster && HasFree(rules, cells, config, now, model, scope, t)
      ensures best.score <= Load(cells[t], config, now) + jitter(t)
    {
      var c := Candidate(Load(cells[t], config, now) + jitter(t), t);
      SameMembers(found, c);
      var i :| 0 <= i < |order| && order[i] == c;
    }
  }

  lemma {:induction false} NoneFree(rules: Rules, cells: map<nat, Cell>, roster: seq<nat>, config: Config, now: nat, model: string, scope: set<string>, jitter: nat -> real, found: seq<Candidate>)
    requires AreCandidates(rules, cells, roster, config, now, model, scope, jitter, found)
    requires forall i :: 0 <= i < |SortByScore(found)| ==> IsBusy(cells, config, SortByScore(found)[i].state)
    ensures forall s :: s in roster ==> !HasFree(rules, cells, config, now, model, scope, s)
  {
    hide SortByScore, Load, Eligible;
    var order := SortByScore(found);
    forall s | s in roster ensures !HasFree(rules, cells, config, now, model, scope, s) {
      if Eligible(rules, cells[s], config, now, model, scope) {
        var c := Candidate(Load(cells[s], config, now) + jitter(s), s);
        SameMembers(found, c);
        var i :| 0 <= i < |order| && order[i] == c;
      }
    }
  }

  lemma {:induction false} NothingLooked(rules: Rules, cells: map<nat, Cell>, config: Config, now: nat, model: string, scope: set<string>, jitter: nat -> real)
    ensures Looked(cells, cells, [], now, scope) && AreCandidates(rules, cells, [], config, now, model, scope, jitter, [])
  {
  }

  lemma {:induction false} LookedKeys(before: map<nat, Cell>, after: map<nat, Cell>, roster: seq<nat>, now: nat, scope: set<string>)
    requires Looked(before, after, roster, now, scope)
    ensures after.Keys == before.Keys
  {
  }

  lemma {:induction false} LookOne(before: map<nat, Cell>, current: map<nat, Cell>, roster: seq<nat>, now: nat, scope: set<string>, s: nat)
    requires Looked(before, current, roster, now, scope) && s in before
    ensures s in current && (current[s] == before[s] || current[s] == Thaw(before[s], now, scope))
    ensures Looked(before, current[s := Thaw(current[s], now, scope)], roster + [s], now, scope)
  {
    hide CoolingExpired, ScopeHas;
  }

  /** The candidates after looking at one more account. */
  lemma {:induction false} CandidatesOne(rules: Rules, cells: map<nat, Cell>, roster: seq<nat>, config: Config, now: nat, model: string, scope: set<string>, jitter: nat -> real, found: seq<Candidate>, s: nat)
    requires AreCandidates(rules, cells, roster, config, now, model, scope, jitter, found) && s in cells
    ensures var c := Candidate(Load(cells[s], config, now) + jitter(s), s);
            AreCandidates(rules, cells, roster + [s], config, now, model, scope, jitter,
              if Eligible(rules, cells[s], config, now, model, scope) then found + [c] else found)
  {
    hide Load, Eligible;
  }

  /** Looking again changes neither eligibility nor score, and thaws nothing more. */
  lemma {:induction false} LookTwice(rules: Rules, cell: Cell, config: Config, now: nat, model: string, scope: set<string>)
    ensures var thawed := Thaw(cell, now, scope);
            && Thaw(thawed, now, scope) == thawed
            && Eligible(rules, thawed, config, now, model, scope) == Eligible(rules, cell, config, now, model, scope)
            && Load(thawed, config, now) == Load(cell, config, now)
            && thawed.active == cell.active
  {
    hide LimitInForce, HasCredit;
  }

  /** With only the slots weighted and no jitter, the account taken has the fewest slots in use of those that have one free. */
  lemma {:induction false} LeastBusyIsTaken(rules: Rules, cells: map<nat, Cell>, roster: seq<nat>, config: Config, now: nat, model: string, scope: set<string>, jitter: nat -> real, s: nat, t: nat)
    requires Chosen(rules, cells, roster, config, now, model, scope, jitter, s)
    requires t in roster && HasFree(rules, cells, config, now, model, scope, t)
    requires config.weightActive > 0.0 && config.weightCredit == 0.0 && config.weightIdle == 0.0
    requires jitter(s) == 0.0 && jitter(t) == 0.0
    ensures Least(cells[s].active, Slots(config)) <= Least(cells[t].active, Slots(config))
  {
    hide Load, Score, Eligible, Least;
    ScoreIsLoad(cells[s], config, now);
    ScoreIsLoad(cells[t], config, now);
    ScoreOrdersBySlots(cells[s], cells[t], config, now);
  }
}
