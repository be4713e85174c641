/**
 The values the account pool schedules by (crates/kproxy-pool/src/pool.rs and state.rs): credit
 state, eligibility, score and the order in which candidates are tried. Credits and scores are
 reals. Model-name resolution and subscription rules are fields of `Rules`.
 */
module PoolScheduling {
  import opened Wrappers

  const UsizeMax: nat := 0xFFFF_FFFF_FFFF_FFFF

  type Usize = n: nat | n <= UsizeMax

  datatype Usage = Usage(current: real, limit: real, overageCap: Option<real>)

  datatype Account = Account(id: string, enabled: bool, creditExhausted: bool, usage: Option<Usage>)

  datatype Health = Available | Cooling | Exhausted | Banned | Refreshing

  /** The fields of one `AccountState` that scheduling reads. */
  datatype Cell = Cell(
    account: Account,
    active: nat,
    health: Health,
    lastUsed: nat,
    coolingUntil: Option<nat>,
    supported: Option<set<string>>)

  datatype Config = Config(
    maxConcurrent: Usize,
    maxQueueSize: nat,
    queueFullWait: nat,
    maxQueueWait: nat,
    enableOverage: bool,
    maxOverage: Option<real>,
    lowCreditMin: real,
    weightActive: real,
    weightCredit: real,
    weightIdle: real,
    idleWindow: nat)

  datatype Rules = Rules(
    resolves: (string, set<string>) -> bool,
    subscribes: (Account, string) -> bool)

  datatype CreditState = CreditAvailable | CreditProtected | CreditExhausted

  // ---------------------------------------------------------------- credits

  function Min(a: real, b: real): real { if a <= b then a else b }

  function Max(a: real, b: real): real { if a <= b then b else a }

  function LimitWithoutOverage(u: Usage): real {
    Max(u.limit - (if u.overageCap.Some? then u.overageCap.value else 0.0), 0.0)
  }

  function EffectiveLimit(u: Usage, config: Config): real {
    if !config.enableOverage then LimitWithoutOverage(u)
    else if u.overageCap.Some? && config.maxOverage.Some? then
      LimitWithoutOverage(u) + Min(u.overageCap.value, config.maxOverage.value)
    else u.limit
  }

  predicate UsageExhausted(u: Usage, config: Config) {
    var limit := EffectiveLimit(u, config);
    (limit > 0.0 && u.current >= limit) || (limit <= 0.0 && u.overageCap.Some?)
  }

  function CreditStateOf(a: Account, config: Config): CreditState {
    if config.enableOverage then
      if config.maxOverage.Some? && a.usage.Some? && UsageExhausted(a.usage.value, config)
      then CreditExhausted else CreditAvailable
    else if a.creditExhausted then CreditExhausted
    else if a.usage.None? then CreditAvailable
    else
      var limit := LimitWithoutOverage(a.usage.value);
      if limit <= 0.0 then
        if a.usage.value.overageCap.Some? then CreditExhausted else CreditAvailable
      else
        var remaining := Max(limit - a.usage.value.current, 0.0);
        if remaining <= 0.0 then CreditExhausted
        else if config.lowCreditMin > 0.0 && remaining <= config.lowCreditMin then CreditProtected
        else CreditAvailable
  }

  function CreditRank(s: CreditState): nat {
    match s case CreditAvailable => 0 case CreditProtected => 1 case CreditExhausted => 2
  }

  /** Spending credits never brings an account back. */
  lemma {:induction false} SpendingNeverRestores(a: Account, config: Config, spent: real)
    requires a.usage.Some? && spent >= 0.0
    ensures var after := a.(usage := Some(a.usage.value.(current := a.usage.value.current + spent)));
            CreditRank(CreditStateOf(a, config)) <= CreditRank(CreditStateOf(after, config))
  {
  }

  // ---------------------------------------------------------------- eligibility

  predicate CoolingExpired(cell: Cell, now: nat) {
    cell.health == Cooling && cell.coolingUntil.Some? && cell.coolingUntil.value <= now
  }

  /** The health half of `eligible`. */
  predicate Usable(cell: Cell, now: nat) {
    cell.health == Available || CoolingExpired(cell, now)
  }

  /** The account half of `eligible`. */
  predicate FitFor(rules: Rules, cell: Cell, config: Config, model: string) {
    && cell.account.enabled
    && CreditStateOf(cell.account, config) == CreditAvailable
    && (model == "" || if cell.supported.Some? then rules.resolves(model, cell.supported.value)
                       else rules.subscribes(cell.account, model))
  }

  // ---------------------------------------------------------------- score

  function ActiveFactor(cell: Cell, config: Config): real {
    Min(cell.active as real / (if config.maxConcurrent == 0 then 10.0 else config.maxConcurrent as real), 1.0)
  }

  function CreditFactor(cell: Cell, config: Config): real {
    if cell.account.usage.None? then 0.0 else
    var limit := EffectiveLimit(cell.account.usage.value, config);
    if limit > 0.0 then Max(0.0, Min(cell.account.usage.value.current / limit, 1.0)) else 0.0
  }

  function IdleFactor(cell: Cell, config: Config, now: nat): real {
    var idle := if now >= cell.lastUsed then now - cell.lastUsed else 0;
    1.0 - Min(idle as real / (if config.idleWindow == 0 then 1.0 else config.idleWindow as real), 1.0)
  }

  function Weighted(weight: real, factor: real): real { weight * factor }

  function Score(cell: Cell, config: Config, now: nat): real {
    Weighted(config.weightActive, ActiveFactor(cell, config))
    + Weighted(config.weightCredit, CreditFactor(cell, config))
    + Weighted(config.weightIdle, IdleFactor(cell, config, now))
  }

  /** The jitter is drawn below 1024 machine epsilons. */
  const JitterBound: real := 1.0 / 4398046511104.0

  /** At least as busy, as much used and as recently used. */
  predicate NoLessLoaded(a: Cell, b: Cell) {
    && a.active <= b.active && a.lastUsed <= b.lastUsed
    && (a.account.usage.Some? <==> b.account.usage.Some?)
    && (a.account.usage.Some? && b.account.usage.Some? ==>
          && a.account.usage.value.current <= b.account.usage.value.current
          && a.account.usage.value.(current := 0.0) == b.account.usage.value.(current := 0.0))
  }

  lemma {:induction false} WeightedGrows(weight: real, f: real, g: real)
    requires weight >= 0.0 && f <= g
    ensures Weighted(weight, f) <= Weighted(weight, g)
  {
    assert weight * (g - f) >= 0.0;
  }

  lemma {:induction false} WeightedBounded(weight: real, f: real)
    requires weight >= 0.0 && 0.0 <= f <= 1.0
    ensures 0.0 <= Weighted(weight, f) <= weight
  {
    assert weight * (1.0 - f) >= 0.0;
  }

  lemma {:induction false} QuotientGrows(x: real, y: real, d: real)
    requires x <= y && d > 0.0
    ensures x / d <= y / d
  {
    assert (y - x) / d >= 0.0;
  }

  lemma {:induction false} FactorsBounded(cell: Cell, config: Config, now: nat)
    ensures 0.0 <= ActiveFactor(cell, config) <= 1.0
    ensures 0.0 <= CreditFactor(cell, config) <= 1.0
    ensures 0.0 <= IdleFactor(cell, config, now) <= 1.0
  {
  }

  predicate WeightsFit(config: Config) {
    config.weightActive >= 0.0 && config.weightCredit >= 0.0 && config.weightIdle >= 0.0
  }

  /** The score lies between zero and the sum of the weights. */
  lemma {:induction false} ScoreBounded(cell: Cell, config: Config, now: nat)
    requires WeightsFit(config)
    ensures 0.0 <= Score(cell, config, now) <= config.weightActive + config.weightCredit + config.weightIdle
  {
    hide Weighted, ActiveFactor, CreditFactor, IdleFactor;
    FactorsBounded(cell, config, now);
    WeightedBounded(config.weightActive, ActiveFactor(cell, config));
    WeightedBounded(config.weightCredit, CreditFactor(cell, config));
    WeightedBounded(config.weightIdle, IdleFactor(cell, config, now));
  }

  lemma {:induction false} FactorsGrow(a: Cell, b: Cell, config: Config, now: nat)
    requires NoLessLoaded(a, b)
    ensures ActiveFactor(a, config) <= ActiveFactor(b, config)
    ensures CreditFactor(a, config) <= CreditFactor(b, config)
    ensures IdleFactor(a, config, now) <= IdleFactor(b, config, now)
  {
    QuotientGrows(a.active as real, b.active as real, if config.maxConcurrent == 0 then 10.0 else config.maxConcurrent as real);
    if a.account.usage.Some? && EffectiveLimit(a.account.usage.value, config) > 0.0 {
      QuotientGrows(a.account.usage.value.current, b.account.usage.value.current, EffectiveLimit(a.account.usage.value, config));
    }
    var idle := (cell: Cell) => (if now >= cell.lastUsed then now - cell.lastUsed else 0) as real;
    QuotientGrows(idle(b), idle(a), if config.idleWindow == 0 then 1.0 else config.idleWindow as real);
  }

  /** A busier, more used or more recently used account never scores lower. */
  lemma {:induction false} ScoreGrowsWithLoad(a: Cell, b: Cell, config: Config, now: nat)
    requires WeightsFit(config) && NoLessLoaded(a, b)
    ensures Score(a, config, now) <= Score(b, config, now)
  {
    hide Weighted, ActiveFactor, CreditFactor, IdleFactor, NoLessLoaded;
    FactorsGrow(a, b, config, now);
    WeightedGrows(config.weightActive, ActiveFactor(a, config), ActiveFactor(b, config));
    WeightedGrows(config.weightCredit, CreditFactor(a, config), CreditFactor(b, config));
    WeightedGrows(config.weightIdle, IdleFactor(a, config, now), IdleFactor(b, config, now));
  }

  // ---------------------------------------------------------------- what score and eligibility mean

  /** The credits an account may use: its own allowance, and the overage that both sides grant. */
  function LimitInForce(u: Usage, config: Config): real {
    var own := if u.overageCap == None then (if u.limit < 0.0 then 0.0 else u.limit)
               else if u.limit < u.overageCap.value then 0.0 else u.limit - u.overageCap.value;
    if !config.enableOverage then own
    else if u.overageCap == None || config.maxOverage == None then u.limit
    else if config.maxOverage.value < u.overageCap.value then own + config.maxOverage.value
    else own + u.overageCap.value
  }

  lemma {:induction false} LimitIsInForce(u: Usage, config: Config)
    ensures EffectiveLimit(u, config) == LimitInForce(u, config)
  {
  }

  /** Nothing of the limit in force is left. */
  predicate IsUsedUp(u: Usage, config: Config) {
    var limit := LimitInForce(u, config);
    if limit > 0.0 then limit <= u.current else u.overageCap != None
  }

  /** Something is left, but no more than the reserve. */
  predicate IsLow(u: Usage, config: Config) {
    var limit := LimitInForce(u, config);
    && limit > 0.0 && u.current < limit
    && config.lowCreditMin > 0.0 && limit - u.current <= config.lowCreditMin
  }

  /**
   The three credit states. With overage on, only a local cap can exhaust, the persisted mark does not
   count and no reserve is kept; with overage off, the mark exhausts, and so does usage at the limit.
   */
  lemma {:induction false} CreditStateExactly(a: Account, config: Config)
    ensures CreditStateOf(a, config) == CreditExhausted <==>
            (if config.enableOverage then config.maxOverage != None && a.usage != None && IsUsedUp(a.usage.value, config)
             else a.creditExhausted || (a.usage != None && IsUsedUp(a.usage.value, config)))
    ensures CreditStateOf(a, config) == CreditProtected <==>
            !config.enableOverage && !a.creditExhausted && a.usage != None && IsLow(a.usage.value, config)
  {
    if a.usage.Some? { LimitIsInForce(a.usage.value, config); }
  }

  /** Available, or cooling with its time over. */
  predicate IsReady(cell: Cell, now: nat) {
    cell.health == Available || (cell.health == Cooling && cell.coolingUntil != None && cell.coolingUntil.value <= now)
  }

  predicate HasCredit(a: Account, config: Config) {
    if config.enableOverage then config.maxOverage == None || a.usage == None || !IsUsedUp(a.usage.value, config)
    else !a.creditExhausted && (a.usage == None || (!IsUsedUp(a.usage.value, config) && !IsLow(a.usage.value, config)))
  }

  predicate Serves(rules: Rules, cell: Cell, model: string) {
    model != "" ==> if cell.supported == None then rules.subscribes(cell.account, model)
                    else rules.resolves(model, cell.supported.value)
  }

  /** Enabled, with credit, and serving the model. */
  predicate IsServing(rules: Rules, cell: Cell, config: Config, model: string) {
    cell.account.enabled && HasCredit(cell.account, config) && Serves(rules, cell, model)
  }

  lemma {:induction false} FitExactly(rules: Rules, cell: Cell, config: Config, model: string)
    ensures FitFor(rules, cell, config, model) <==> IsServing(rules, cell, config, model)
  {
    CreditStateExactly(cell.account, config);
    hide CreditStateOf, IsUsedUp, IsLow;
  }

  lemma {:induction false} ReadyExactly(cell: Cell, now: nat)
    ensures Usable(cell, now) <==> IsReady(cell, now)
  {
  }

  /** The share of the slots in use; without a limit ten slots count as all. */
  function InUse(cell: Cell, config: Config): real {
    var slots := Slots(config);
    if cell.active >= slots then 1.0 else cell.active as real / slots as real
  }

  function Slots(config: Config): (n: nat)
    ensures n > 0
  {
    if config.maxConcurrent == 0 then 10 else config.maxConcurrent
  }

  /** The share of the credits spent. */
  function Spent(cell: Cell, config: Config): real {
    if cell.account.usage == None then 0.0 else
    var u, limit := cell.account.usage.value, LimitInForce(cell.account.usage.value, config);
    if limit <= 0.0 || u.current <= 0.0 then 0.0 else if u.current >= limit then 1.0 else u.current / limit
  }

  /** Milliseconds since the last use. */
  function IdleTime(cell: Cell, now: nat): nat {
    if now < cell.lastUsed then 0 else now - cell.lastUsed
  }

  function Window(config: Config): (n: nat)
    ensures n > 0
  {
    if config.idleWindow == 0 then 1 else config.idleWindow
  }

  /** The share of the idle window that is still to pass. */
  function Recent(cell: Cell, config: Config, now: nat): real {
    var idle, window := IdleTime(cell, now), Window(config);
    if idle >= window then 0.0 else (window - idle) as real / window as real
  }

  /** The load of an account: slots in use, credits spent and recent use, each with its own weight. */
  function Load(cell: Cell, config: Config, now: nat): real {
    config.weightActive * InUse(cell, config) + config.weightCredit * Spent(cell, config) + config.weightIdle * Recent(cell, config, now)
  }

  lemma {:induction false} QuotientBelowOne(x: real, d: real)
    requires d > 0.0
    ensures x / d <= 1.0 <==> x <= d
    ensures x / d >= 1.0 <==> x >= d
    ensures x / d <= 0.0 <==> x <= 0.0
  {
    var q := x / d;
    assert q * d == x;
    if q <= 1.0 { assert d * (1.0 - q) >= 0.0; } else { assert d * (q - 1.0) > 0.0; }
    if q >= 1.0 { assert d * (q - 1.0) >= 0.0; } else { assert d * (1.0 - q) > 0.0; }
    if q <= 0.0 { assert d * (0.0 - q) >= 0.0; } else { assert d * q > 0.0; }
  }

  lemma {:induction false} ActiveIsInUse(cell: Cell, config: Config)
    ensures ActiveFactor(cell, config) == InUse(cell, config)
  {
    QuotientBelowOne(cell.active as real, Slots(config) as real);
  }

  lemma {:induction false} CreditIsSpent(cell: Cell, config: Config)
    ensures CreditFactor(cell, config) == Spent(cell, config)
  {
    if cell.account.usage.Some? {
      var u := cell.account.usage.value;
      LimitIsInForce(u, config);
      var limit := LimitInForce(u, config);
      hide EffectiveLimit, LimitInForce;
      if limit > 0.0 { QuotientBelowOne(u.current, limit); }
    }
  }

  lemma {:induction false} IdleIsRecent(cell: Cell, config: Config, now: nat)
    ensures IdleFactor(cell, config, now) == Recent(cell, config, now)
  {
    var idle, window := IdleTime(cell, now), Window(config);
    QuotientBelowOne(idle as real, window as real);
    Complement(idle as real, window as real);
  }

  lemma {:induction false} Complement(x: real, d: real)
    requires d > 0.0
    ensures 1.0 - x / d == (d - x) / d
  {
    assert (d - x) / d == d / d - x / d;
  }

  /** The score is the load. */
  lemma {:induction false} ScoreIsLoad(cell: Cell, config: Config, now: nat)
    ensures Score(cell, config, now) == Load(cell, config, now)
  {
    ActiveIsInUse(cell, config);
    CreditIsSpent(cell, config);
    IdleIsRecent(cell, config, now);
    hide ActiveFactor, CreditFactor, IdleFactor, InUse, Spent, Recent;
  }

  function Least(a: nat, b: nat): nat { if a < b then a else b }

  lemma {:induction false} SharesCompare(x: nat, y: nat, d: nat)
    requires d > 0
    ensures (if x >= d then 1.0 else x as real / d as real) <= (if y >= d then 1.0 else y as real / d as real)
            <==> Least(x, d) <= Least(y, d)
  {
    QuotientBelowOne(x as real, d as real);
    QuotientBelowOne(y as real, d as real);
    if x <= y { QuotientGrows(x as real, y as real, d as real); } else { QuotientStrict(y as real, x as real, d as real); }
  }

  lemma {:induction false} QuotientStrict(x: real, y: real, d: real)
    requires x < y && d > 0.0
    ensures x / d < y / d
  {
    QuotientBelowOne(y - x, d);
    assert (y - x) / d == y / d - x / d;
  }

  lemma {:induction false} WeightedCompare(w: real, f: real, g: real)
    requires w > 0.0
    ensures w * f <= w * g <==> f <= g
  {
    if f <= g { assert w * (g - f) >= 0.0; } else { assert w * (f - g) > 0.0; }
  }

  lemma {:induction false} LoadAlone(cell: Cell, config: Config, now: nat)
    ensures config.weightCredit == 0.0 && config.weightIdle == 0.0 ==>
              Score(cell, config, now) == Weighted(config.weightActive, InUse(cell, config))
    ensures config.weightActive == 0.0 && config.weightIdle == 0.0 ==>
              Score(cell, config, now) == Weighted(config.weightCredit, Spent(cell, config))
    ensures config.weightActive == 0.0 && config.weightCredit == 0.0 ==>
              Score(cell, config, now) == Weighted(config.weightIdle, Recent(cell, config, now))
  {
    ScoreIsLoad(cell, config, now);
    hide Score, InUse, Spent, Recent;
  }

  lemma {:induction false} WeightedOrders(w: real, f: real, g: real)
    requires w > 0.0
    ensures Weighted(w, f) <= Weighted(w, g) <==> f <= g
  {
    WeightedCompare(w, f, g);
  }

  /** With only the slots weighted, the order of scores is the order of slots in use. */
  lemma {:induction false} ScoreOrdersBySlots(a: Cell, b: Cell, config: Config, now: nat)
    requires config.weightActive > 0.0 && config.weightCredit == 0.0 && config.weightIdle == 0.0
    ensures Score(a, config, now) <= Score(b, config, now) <==> Least(a.active, Slots(config)) <= Least(b.active, Slots(config))
  {
    hide Score, Weighted, Least;
    LoadAlone(a, config, now);
    LoadAlone(b, config, now);
    SharesCompare(a.active, b.active, Slots(config));
    WeightedOrders(config.weightActive, InUse(a, config), InUse(b, config));
  }

  /** With only the credits weighted, it is the order of the shares spent. */
  lemma {:induction false} ScoreOrdersByCredits(a: Cell, b: Cell, config: Config, now: nat)
    requires config.weightActive == 0.0 && config.weightCredit > 0.0 && config.weightIdle == 0.0
    ensures Score(a, config, now) <= Score(b, config, now) <==> Spent(a, config) <= Spent(b, config)
  {
    hide Score, Weighted, Spent;
    LoadAlone(a, config, now);
    LoadAlone(b, config, now);
    WeightedOrders(config.weightCredit, Spent(a, config), Spent(b, config));
  }

  /** With only the idle time weighted, it is the order of idle times, longest first, up to the window. */
  lemma {:induction false} ScoreOrdersByIdleTime(a: Cell, b: Cell, config: Config, now: nat)
    requires config.weightActive == 0.0 && config.weightCredit == 0.0 && config.weightIdle > 0.0
    ensures Score(a, config, now) <= Score(b, config, now) <==>
            Least(IdleTime(a, now), Window(config)) >= Least(IdleTime(b, now), Window(config))
  {
    hide Score, Weighted, Recent, Least;
    LoadAlone(a, config, now);
    LoadAlone(b, config, now);
    WeightedOrders(config.weightIdle, Recent(a, config, now), Recent(b, config, now));
    RecentCompare(a, b, config, now);
  }

  lemma {:induction false} RecentCompare(a: Cell, b: Cell, config: Config, now: nat)
    ensures Recent(a, config, now) <= Recent(b, config, now) <==>
            Least(IdleTime(a, now), Window(config)) >= Least(IdleTime(b, now), Window(config))
  {
    var x, y, w := Least(IdleTime(a, now), Window(config)), Least(IdleTime(b, now), Window(config)), Window(config);
    SharesCompare(w - x, w - y, w);
    assert (0 as real) / (w as real) == 0.0;
  }

  // ---------------------------------------------------------------- order of attempts

  datatype Candidate = Candidate(score: real, state: nat)

  predicate Sorted(cs: seq<Candidate>) {
    forall i, j :: 0 <= i < j < |cs| ==> cs[i].score <= cs[j].score
  }

  /** Places `c` behind every candidate that scores no more. */
  function Place(cs: seq<Candidate>, c: Candidate): seq<Candidate> {
    if cs == [] then [c]
    else if c.score < cs[0].score then [c] + cs
    else [cs[0]] + Place(cs[1..], c)
  }

  function SortByScore(cs: seq<Candidate>): seq<Candidate> {
    if cs == [] then [] else Place(SortByScore(cs[..|cs| - 1]), cs[|cs| - 1])
  }

  lemma {:induction false} PlaceAdds(cs: seq<Candidate>, c: Candidate)
    ensures multiset(Place(cs, c)) == multiset(cs) + multiset{c}
  {
    if cs != [] && c.score >= cs[0].score {
      assert cs == [cs[0]] + cs[1..];
      PlaceAdds(cs[1..], c);
    }
  }

  lemma {:induction false} PlaceSorts(cs: seq<Candidate>, c: Candidate)
    requires Sorted(cs)
    ensures Sorted(Place(cs, c))
  {
    if cs != [] && c.score >= cs[0].score {
      var rest := Place(cs[1..], c);
      PlaceSorts(cs[1..], c);
      PlaceAdds(cs[1..], c);
      forall i | 0 <= i < |rest| ensures cs[0].score <= rest[i].score {
        assert rest[i] in multiset(rest);
        assert rest[i] == c || rest[i] in cs[1..];
      }
      hide Place;
      forall i, j | 0 <= i < j < |rest| + 1 ensures ([cs[0]] + rest)[i].score <= ([cs[0]] + rest)[j].score {
        assert i > 0 ==> rest[i - 1].score <= rest[j - 1].score;
      }
    }
  }

  /** The attempts are the candidates, least score first. */
  lemma {:induction false} SortsByScore(cs: seq<Candidate>)
    ensures Sorted(SortByScore(cs)) && multiset(SortByScore(cs)) == multiset(cs)
  {
    if cs != [] {
      var last := |cs| - 1;
      SortsByScore(cs[..last]);
      PlaceSorts(SortByScore(cs[..last]), cs[last]);
      PlaceAdds(SortByScore(cs[..last]), cs[last]);
      assert cs == cs[..last] + [cs[last]];
    }
  }

  lemma {:induction false} SameMembers(cs: seq<Candidate>, c: Candidate)
    ensures c in SortByScore(cs) <==> c in cs
  {
    SortsByScore(cs);
    assert c in multiset(SortByScore(cs)) <==> c in multiset(cs);
  }

  // ---------------------------------------------------------------- slots

  /** Zero means unlimited. */
  function Maximum(maxConcurrent: Usize): Usize {
    if maxConcurrent == 0 then UsizeMax else maxConcurrent
  }
}
