/**
 The Copilot model catalogue (crates/kproxy-copilot/src/client.rs): the account list, the model
 cache beside it, and the commits that change both under the mutation lock. A commit changes one
 of the two first and the other before it frees the lock; discovery and token work happen outside
 the lock, so what they bring to a commit is arbitrary.
 */
module ModelCatalog {
  import opened Wrappers

  datatype Protocol = ChatCompletions | Responses | Messages

  datatype Model = Model(id: string, name: string, maxInput: Option<nat>, maxOutput: Option<nat>, protocols: seq<Protocol>)

  datatype Account = Account(id: string, login: string, user: int, enabled: bool, supported: seq<string>)

  datatype Entry = Entry(models: seq<Model>, updatedAt: int)

  /** What the holder of the mutation lock still has to do. */
  datatype Lock = Free | InsertDue(id: string, entry: Entry) | RemoveDue(id: string) | AccountsDue(next: seq<Account>)

  datatype Catalog = Catalog(accounts: seq<Account>, cache: map<string, Entry>, lock: Lock)

  /** `saved` says whether the files could be written; a failed save changes nothing in memory. */
  datatype Step =
    | Import(account: Account, models: seq<Model>, now: int, saved: bool)
    | Remove(key: string, saved: bool)
    | Refresh(id: string, models: seq<Model>, now: int, saved: bool)
    | SetEnabled(key: string, enabled: bool, saved: bool)
    | Discover(discovered: map<string, seq<Model>>, now: int, maxStale: int, saved: bool)
    | FinishCommit

  function Ids(models: seq<Model>): (ids: seq<string>)
    ensures |ids| == |models| && forall i :: 0 <= i < |ids| ==> ids[i] == models[i].id
  {
    seq(|models|, i requires 0 <= i < |models| => models[i].id)
  }

  // ---------------------------------------------------------------- commits

  /** The first account with that id or login. */
  function Find(accounts: seq<Account>, key: string): (r: Option<nat>)
    ensures r.Some? ==> r.value < |accounts| && (accounts[r.value].id == key || accounts[r.value].login == key)
    ensures r.Some? ==> forall i :: 0 <= i < r.value ==> accounts[i].id != key && accounts[i].login != key
    ensures r.None? ==> forall i :: 0 <= i < |accounts| ==> accounts[i].id != key && accounts[i].login != key
  {
    if accounts == [] then None
    else if accounts[0].id == key || accounts[0].login == key then Some(0)
    else match Find(accounts[1..], key) case None => None case Some(i) => Some(i + 1)
  }

  predicate HasId(accounts: seq<Account>, id: string) {
    exists i :: 0 <= i < |accounts| && accounts[i].id == id
  }

  predicate HasUser(accounts: seq<Account>, user: int) {
    exists i :: 0 <= i < |accounts| && accounts[i].user == user
  }

  predicate IsEnabled(accounts: seq<Account>, id: string) {
    exists i :: 0 <= i < |accounts| && accounts[i].id == id && accounts[i].enabled
  }

  /** The account as a refresh or a discovery leaves it. */
  function Supporting(a: Account, discovered: map<string, seq<Model>>): Account {
    if a.id in discovered then a.(supported := Ids(discovered[a.id])) else a
  }

  function AllSupporting(accounts: seq<Account>, discovered: map<string, seq<Model>>): (r: seq<Account>)
    ensures |r| == |accounts| && forall i :: 0 <= i < |r| ==> r[i] == Supporting(accounts[i], discovered)
  {
    seq(|accounts|, i requires 0 <= i < |accounts| => Supporting(accounts[i], discovered))
  }

  /** What discovery found for accounts that are still there and enabled. */
  function Retained(accounts: seq<Account>, discovered: map<string, seq<Model>>): map<string, seq<Model>> {
    map id | id in discovered && IsEnabled(accounts, id) :: discovered[id]
  }

  function Inserted(cache: map<string, Entry>, found: map<string, seq<Model>>, now: int): map<string, Entry> {
    map id | id in cache.Keys + found.Keys :: if id in found then Entry(found[id], now) else cache[id]
  }

  /** The cache that discovery commits: enabled accounts only, nothing stale. */
  function Snapshot(accounts: seq<Account>, cache: map<string, Entry>, discovered: map<string, seq<Model>>, now: int, maxStale: int): map<string, Entry> {
    var all := Inserted(cache, Retained(accounts, discovered), now);
    map id | id in all && IsEnabled(accounts, id) && now - all[id].updatedAt < maxStale :: all[id]
  }

  /** The loop that writes the discovered models into the account list. */
  method UpdateAccounts(accounts: seq<Account>, discovered: map<string, seq<Model>>) returns (next: seq<Account>)
    ensures next == AllSupporting(accounts, discovered)
  {
    next := [];
    for n := 0 to |accounts|
      invariant |next| == n && forall i :: 0 <= i < n ==> next[i] == Supporting(accounts[i], discovered)
    {
      var a := accounts[n];
      if a.id in discovered {
        a := a.(supported := Ids(discovered[a.id]));
      }
      next := next + [a];
    }
  }

  predicate Enabled(w: Catalog, step: Step) {
    match step
    case Import(a, _, _, _) => w.lock.Free? && !HasId(w.accounts, a.id)
    case FinishCommit => !w.lock.Free?
    case _ => w.lock.Free?
  }

  function Next(w: Catalog, step: Step): Catalog
    requires Enabled(w, step)
  {
    match step
    case Import(a, models, now, saved) =>
      if models == [] || HasUser(w.accounts, a.user) || !saved then w
      else w.(accounts := w.accounts + [a.(enabled := true, supported := Ids(models))], lock := InsertDue(a.id, Entry(models, now)))
    case Remove(key, saved) =>
      var at := Find(w.accounts, key);
      if at.None? || !saved then w
      else w.(accounts := w.accounts[..at.value] + w.accounts[at.value + 1..], lock := RemoveDue(w.accounts[at.value].id))
    case Refresh(id, models, now, saved) =>
      if !HasId(w.accounts, id) || !saved then w
      else w.(accounts := AllSupporting(w.accounts, map[id := models]), lock := InsertDue(id, Entry(models, now)))
    case SetEnabled(key, enabled, saved) =>
      var at := Find(w.accounts, key);
      if at.None? || !saved then w
      else w.(accounts := w.accounts[at.value := w.accounts[at.value].(enabled := enabled)])
    case Discover(discovered, now, maxStale, saved) =>
      if !saved then w
      else w.(cache := Snapshot(w.accounts, w.cache, discovered, now, maxStale),
              lock := AccountsDue(AllSupporting(w.accounts, Retained(w.accounts, discovered))))
    case FinishCommit => Finished(w)
  }

  function Finished(w: Catalog): Catalog {
    match w.lock
    case Free => w
    case InsertDue(id, entry) => w.(cache := w.cache[id := entry], lock := Free)
    case RemoveDue(id) => w.(cache := w.cache - {id}, lock := Free)
    case AccountsDue(next) => w.(accounts := next, lock := Free)
  }

  // ---------------------------------------------------------------- agreement

  predicate DistinctIds(accounts: seq<Account>) {
    forall i, j :: 0 <= i < j < |accounts| ==> accounts[i].id != accounts[j].id
  }

  predicate Offers(accounts: seq<Account>, id: string, models: seq<Model>) {
    exists i :: 0 <= i < |accounts| && accounts[i].id == id && accounts[i].supported == Ids(models)
  }

  /** Every cached account exists and supports exactly the models of its entry. */
  ghost predicate Agrees(accounts: seq<Account>, cache: map<string, Entry>) {
    forall id :: id in cache ==> Offers(accounts, id, cache[id].models)
  }

  /** Agreement once the lock's holder is done. */
  ghost predicate Inv(w: Catalog) {
    && DistinctIds(w.accounts) && DistinctIds(Finished(w).accounts)
    && Agrees(Finished(w).accounts, Finished(w).cache)
    && (w.lock.RemoveDue? ==> !HasId(w.accounts, w.lock.id))
  }

  lemma {:induction false} ImportKept(w: Catalog, a: Account, models: seq<Model>, now: int)
    requires Inv(w) && w.lock.Free? && !HasId(w.accounts, a.id)
    ensures Inv(w.(accounts := w.accounts + [a.(enabled := true, supported := Ids(models))], lock := InsertDue(a.id, Entry(models, now))))
  {
    var added := a.(enabled := true, supported := Ids(models));
    var next := w.accounts + [added];
    assert next[|w.accounts|] == added;
    forall id | id in w.cache && id != a.id ensures Offers(next, id, w.cache[id].models) {
      var i :| 0 <= i < |w.accounts| && w.accounts[i].id == id && w.accounts[i].supported == Ids(w.cache[id].models);
      assert next[i] == w.accounts[i];
    }
  }

  lemma {:induction false} RemoveKept(w: Catalog, at: nat)
    requires Inv(w) && w.lock.Free? && at < |w.accounts|
    ensures Inv(w.(accounts := w.accounts[..at] + w.accounts[at + 1..], lock := RemoveDue(w.accounts[at].id)))
  {
    var next := w.accounts[..at] + w.accounts[at + 1..];
    forall id | id in w.cache && id != w.accounts[at].id ensures Offers(next, id, w.cache[id].models) {
      var i :| 0 <= i < |w.accounts| && w.accounts[i].id == id && w.accounts[i].supported == Ids(w.cache[id].models);
      assert w.accounts[i] == next[if i < at then i else i - 1];
    }
  }

  lemma {:induction false} RefreshKept(w: Catalog, id: string, models: seq<Model>, now: int)
    requires Inv(w) && w.lock.Free? && HasId(w.accounts, id)
    ensures Inv(w.(accounts := AllSupporting(w.accounts, map[id := models]), lock := InsertDue(id, Entry(models, now))))
  {
    var next := AllSupporting(w.accounts, map[id := models]);
    var at :| 0 <= at < |w.accounts| && w.accounts[at].id == id;
    assert next[at].supported == Ids(models);
    forall other | other in w.cache && other != id ensures Offers(next, other, w.cache[other].models) {
      var i :| 0 <= i < |w.accounts| && w.accounts[i].id == other && w.accounts[i].supported == Ids(w.cache[other].models);
      assert next[i] == w.accounts[i];
    }
  }

  lemma {:induction false} SetEnabledKept(w: Catalog, at: nat, enabled: bool)
    requires Inv(w) && w.lock.Free? && at < |w.accounts|
    ensures Inv(w.(accounts := w.accounts[at := w.accounts[at].(enabled := enabled)]))
  {
    var next := w.accounts[at := w.accounts[at].(enabled := enabled)];
    forall id | id in w.cache ensures Offers(next, id, w.cache[id].models) {
      var i :| 0 <= i < |w.accounts| && w.accounts[i].id == id && w.accounts[i].supported == Ids(w.cache[id].models);
      assert next[i].id == id && next[i].supported == w.accounts[i].supported;
    }
  }

  lemma {:induction false} DiscoverKept(w: Catalog, discovered: map<string, seq<Model>>, now: int, maxStale: int)
    requires Inv(w) && w.lock.Free?
    ensures Inv(w.(cache := Snapshot(w.accounts, w.cache, discovered, now, maxStale),
                   lock := AccountsDue(AllSupporting(w.accounts, Retained(w.accounts, discovered)))))
  {
    var found := Retained(w.accounts, discovered);
    var next := AllSupporting(w.accounts, found);
    var cache := Snapshot(w.accounts, w.cache, discovered, now, maxStale);
    forall id | id in cache ensures Offers(next, id, cache[id].models) {
      if id in found {
        var i :| 0 <= i < |w.accounts| && w.accounts[i].id == id && w.accounts[i].enabled;
        assert next[i].supported == Ids(found[id]);
      } else {
        var i :| 0 <= i < |w.accounts| && w.accounts[i].id == id && w.accounts[i].supported == Ids(w.cache[id].models);
        assert next[i] == w.accounts[i];
      }
    }
  }

  lemma {:induction false} StepKept(w: Catalog, step: Step)
    requires Inv(w) && Enabled(w, step)
    ensures Inv(Next(w, step))
  {
    hide Agrees, DistinctIds, Snapshot, Retained, HasUser;
    match step
    case Import(a, models, now, saved) => ImportKept(w, a, models, now);
    case Remove(key, saved) => if Find(w.accounts, key).Some? { RemoveKept(w, Find(w.accounts, key).value); }
    case Refresh(id, models, now, saved) => if HasId(w.accounts, id) { RefreshKept(w, id, models, now); }
    case SetEnabled(key, enabled, saved) =>
      if Find(w.accounts, key).Some? { SetEnabledKept(w, Find(w.accounts, key).value, enabled); }
    case Discover(discovered, now, maxStale, saved) => DiscoverKept(w, discovered, now, maxStale);
    case FinishCommit =>
  }

  ghost predicate IsRun(run: seq<Catalog>, steps: seq<Step>) {
    && |run| == |steps| + 1 && Inv(run[0])
    && forall i :: 0 <= i < |steps| ==> Follows(run[i], steps[i], run[i + 1])
  }

  ghost predicate Follows(w: Catalog, step: Step, next: Catalog) {
    Enabled(w, step) && next == Next(w, step)
  }

  /** Whenever the mutation lock is free, cache and account list agree. */
  lemma {:induction false} RunAgrees(run: seq<Catalog>, steps: seq<Step>, k: nat)
    requires IsRun(run, steps) && k < |run|
    ensures Inv(run[k]) && (run[k].lock.Free? ==> Agrees(run[k].accounts, run[k].cache))
  {
    if k > 0 {
      hide Enabled, Next;
      RunAgrees(run, steps, k - 1);
      assert Follows(run[k - 1], steps[k - 1], run[k]);
      StepKept(run[k - 1], steps[k - 1]);
    }
  }

  /**
   A commit that is dropped between its two changes leaves cache and accounts agreeing exactly
   when the due change would not have mattered: a removed account had no entry, or a refreshed
   account's entry already named the same models.
   */
  lemma {:induction false} AbandonedCommit(w: Catalog)
    requires Inv(w) && (w.lock.InsertDue? || w.lock.RemoveDue?)
    ensures Agrees(w.accounts, w.cache) <==>
      (w.lock.id in w.cache ==> w.lock.InsertDue? && Ids(w.cache[w.lock.id].models) == Ids(w.lock.entry.models))
  {
    var id := w.lock.id;
    if w.lock.InsertDue? {
      assert id in Finished(w).cache && Finished(w).cache[id] == w.lock.entry;
    }
    if id in w.cache && Offers(w.accounts, id, w.cache[id].models) {
      var i :| 0 <= i < |w.accounts| && w.accounts[i].id == id && w.accounts[i].supported == Ids(w.cache[id].models);
    }
    forall other | other in w.cache && other != id ensures Offers(w.accounts, other, w.cache[other].models) {
      assert other in Finished(w).cache;
    }
  }

  /** A reachable case: an account is imported, and its removal is dropped half-way. */
  lemma {:induction false} AbandonedRemovalDisagrees(a: Account, models: seq<Model>, now: int)
    requires models != []
    ensures var w0 := Catalog([], map[], Free);
            var w1 := Next(w0, Import(a, models, now, true));
            && Enabled(w1, FinishCommit)
            && var w2 := Next(w1, FinishCommit);
               && Enabled(w2, Remove(a.id, true)) && Agrees(w2.accounts, w2.cache)
               && var w3 := Next(w2, Remove(a.id, true));
                  w3.accounts == [] && a.id in w3.cache && !Agrees(w3.accounts, w3.cache)
  {
    var w0 := Catalog([], map[], Free);
    var w1 := Next(w0, Import(a, models, now, true));
    var w2 := Next(w1, FinishCommit);
    assert w2.accounts[0].supported == Ids(models);
    assert Offers(w2.accounts, a.id, models);
    var w3 := Next(w2, Remove(a.id, true));
    assert w3.accounts == [];
    assert !Offers(w3.accounts, a.id, models);
  }

  /**
   What a saved discovery leaves: each account still there and enabled that was discovered has exactly
   the discovered models, of now; of the others, enabled accounts keep an entry that is not stale.
   */
  lemma {:induction false} DiscoveryCommits(w: Catalog, discovered: map<string, seq<Model>>, now: int, maxStale: int, i: nat)
    requires Inv(w) && w.lock.Free? && maxStale > 0 && i < |w.accounts|
    ensures var w1 := Next(w, Discover(discovered, now, maxStale, true));
            && Enabled(w1, FinishCommit)
            && var w2, a := Next(w1, FinishCommit), w.accounts[i];
               var found := a.enabled && a.id in discovered;
               && w2.lock.Free? && |w2.accounts| == |w.accounts|
               && w2.accounts[i] == (if found then a.(supported := Ids(discovered[a.id])) else a)
               && (a.id in w2.cache <==> found || (a.enabled && a.id in w.cache && now - w.cache[a.id].updatedAt < maxStale))
               && (found ==> w2.cache[a.id] == Entry(discovered[a.id], now))
               && (!found && a.id in w2.cache ==> w2.cache[a.id] == w.cache[a.id])
  {
    OnlyItself(w.accounts, i);
  }

  lemma {:induction false} OnlyItself(accounts: seq<Account>, i: nat)
    requires DistinctIds(accounts) && i < |accounts|
    ensures IsEnabled(accounts, accounts[i].id) <==> accounts[i].enabled
  {
    if IsEnabled(accounts, accounts[i].id) {
      var j :| 0 <= j < |accounts| && accounts[j].id == accounts[i].id && accounts[j].enabled;
      assert i < j ==> accounts[i].id != accounts[j].id;
    }
  }

  predicate DistinctUsers(accounts: seq<Account>) {
    forall i, j :: 0 <= i < j < |accounts| ==> accounts[i].user != accounts[j].user
  }

  /** No user is ever configured twice. */
  lemma {:induction false} UsersStayDistinct(w: Catalog, step: Step)
    requires Enabled(w, step) && DistinctUsers(w.accounts) && (w.lock.AccountsDue? ==> DistinctUsers(w.lock.next))
    ensures DistinctUsers(Next(w, step).accounts)
    ensures Next(w, step).lock.AccountsDue? ==> DistinctUsers(Next(w, step).lock.next)
  {
    hide Snapshot;
    if step.Import? && !HasUser(w.accounts, step.account.user) {
      assert forall i :: 0 <= i < |w.accounts| ==> w.accounts[i].user != step.account.user;
    }
  }

  /** What a saved refresh and a saved import of a new user leave. */
  lemma {:induction false} CommitsStore(w: Catalog, a: Account, models: seq<Model>, now: int, id: string)
    requires w.lock.Free? && DistinctIds(w.accounts)
    ensures !HasId(w.accounts, a.id) && models != [] && (forall i :: 0 <= i < |w.accounts| ==> w.accounts[i].user != a.user) ==>
              var w2 := Finished(Next(w, Import(a, models, now, true)));
              && w2.accounts == w.accounts + [Account(a.id, a.login, a.user, true, Ids(models))]
              && w2.cache == w.cache[a.id := Entry(models, now)]
    ensures HasId(w.accounts, id) ==>
              var w2 := Finished(Next(w, Refresh(id, models, now, true)));
              && |w2.accounts| == |w.accounts| && w2.cache == w.cache[id := Entry(models, now)]
              && forall i :: 0 <= i < |w.accounts| ==>
                   w2.accounts[i] == if w.accounts[i].id == id then w.accounts[i].(supported := Ids(models)) else w.accounts[i]
  {
    hide Snapshot;
  }

  /** What a saved removal leaves: neither the account nor its models. */
  lemma {:induction false} RemovalCommits(w: Catalog, i: nat, key: string)
    requires w.lock.Free? && i < |w.accounts| && (key == w.accounts[i].id || key == w.accounts[i].login)
    requires forall j :: 0 <= j < i ==> key != w.accounts[j].id && key != w.accounts[j].login
    ensures var w2 := Finished(Next(w, Remove(key, true)));
            w2.accounts == w.accounts[..i] + w.accounts[i + 1..] && w2.cache == w.cache - {w.accounts[i].id}
  {
    hide Snapshot;
    assert Find(w.accounts, key) == Some(i);
  }

  // ---------------------------------------------------------------- aggregation

  datatype Side = InputSide | OutputSide

  function Limit(m: Model, side: Side): Option<nat> {
    if side.InputSide? then m.maxInput else m.maxOutput
  }

  function MinimumKnown(left: Option<nat>, right: Option<nat>): Option<nat> {
    if left.Some? && right.Some? then Some(if left.value <= right.value then left.value else right.value) else None
  }

  predicate AllKnown(offers: seq<Model>, id: string, side: Side) {
    forall k :: 0 <= k < |offers| && offers[k].id == id ==> Limit(offers[k], side).Some?
  }

  predicate IsLeast(offers: seq<Model>, id: string, side: Side, least: nat) {
    && (exists k :: 0 <= k < |offers| && offers[k].id == id && Limit(offers[k], side) == Some(least))
    && (forall k :: 0 <= k < |offers| && offers[k].id == id && Limit(offers[k], side).Some? ==> least <= Limit(offers[k], side).value)
  }

  /** The limit is the minimum over the offers, and known exactly when all of theirs are. */
  predicate LimitFits(offers: seq<Model>, id: string, side: Side, limit: Option<nat>) {
    && (limit.Some? <==> AllKnown(offers, id, side))
    && (limit.Some? ==> IsLeast(offers, id, side, limit.value))
  }

  predicate OfferedProtocol(offers: seq<Model>, id: string, p: Protocol) {
    exists k :: 0 <= k < |offers| && offers[k].id == id && p in offers[k].protocols
  }

  predicate OfferedModel(offers: seq<Model>, id: string) {
    exists k :: 0 <= k < |offers| && offers[k].id == id
  }

  /** The remaining fields come from the first offer. */
  predicate NamedByFirst(offers: seq<Model>, id: string, name: string) {
    exists k :: 0 <= k < |offers| && offers[k].id == id && offers[k].name == name
      && forall j :: 0 <= j < k ==> offers[j].id != id
  }

  predicate Summarizes(offers: seq<Model>, m: Model) {
    && NamedByFirst(offers, m.id, m.name)
    && LimitFits(offers, m.id, InputSide, m.maxInput)
    && LimitFits(offers, m.id, OutputSide, m.maxOutput)
    && forall p :: p in m.protocols <==> OfferedProtocol(offers, m.id, p)
  }

  /** One model for each offered id, and it summarizes the offers. */
  ghost predicate Aggregates(offers: seq<Model>, table: map<string, Model>) {
    && (forall id :: id in table <==> OfferedModel(offers, id))
    && (forall id :: id in table ==> table[id].id == id && Summarizes(offers, table[id]))
  }

  /** `merge_model_metadata` */
  method MergeModelMetadata(current: Model, candidate: Model) returns (merged: Model)
    ensures merged == current.(maxInput := MinimumKnown(current.maxInput, candidate.maxInput),
                               maxOutput := MinimumKnown(current.maxOutput, candidate.maxOutput),
                               protocols := merged.protocols)
    ensures forall p :: p in merged.protocols <==> p in current.protocols || p in candidate.protocols
    ensures current.protocols <= merged.protocols
  {
    var protocols := current.protocols;
    for n := 0 to |candidate.protocols|
      invariant current.protocols <= protocols
      invariant forall p :: p in protocols <==> p in current.protocols || p in candidate.protocols[..n]
    {
      assert candidate.protocols[..n + 1] == candidate.protocols[..n] + [candidate.protocols[n]];
      if candidate.protocols[n] !in protocols {
        protocols := protocols + [candidate.protocols[n]];
      }
    }
    assert candidate.protocols[..|candidate.protocols|] == candidate.protocols;
    merged := current.(maxInput := MinimumKnown(current.maxInput, candidate.maxInput),
                       maxOutput := MinimumKnown(current.maxOutput, candidate.maxOutput),
                       protocols := protocols);
  }

  lemma {:induction false} LimitMerges(offers: seq<Model>, m: Model, side: Side, limit: Option<nat>)
    requires LimitFits(offers, m.id, side, limit)
    ensures LimitFits(offers + [m], m.id, side, MinimumKnown(limit, Limit(m, side)))
  {
    var more := offers + [m];
    assert more[|offers|] == m;
    var merged := MinimumKnown(limit, Limit(m, side));
    if limit.Some? && merged.Some? {
      var k :| 0 <= k < |offers| && offers[k].id == m.id && Limit(offers[k], side) == limit;
      assert more[k] == offers[k];
    }
    if AllKnown(more, m.id, side) {
      forall k | 0 <= k < |offers| && offers[k].id == m.id ensures Limit(offers[k], side).Some? {
        assert more[k] == offers[k];
      }
    }
  }

  lemma {:induction false} LimitIgnores(offers: seq<Model>, m: Model, id: string, side: Side, limit: Option<nat>)
    requires LimitFits(offers, id, side, limit) && m.id != id
    ensures LimitFits(offers + [m], id, side, limit)
  {
    var more := offers + [m];
    if limit.Some? {
      var k :| 0 <= k < |offers| && offers[k].id == id && Limit(offers[k], side) == limit;
      assert more[k] == offers[k];
    } else {
      var k :| 0 <= k < |offers| && offers[k].id == id && Limit(offers[k], side).None?;
      assert more[k] == offers[k];
    }
  }

  lemma {:induction false} FirstOffer(offers: seq<Model>, m: Model, side: Side)
    requires !OfferedModel(offers, m.id)
    ensures LimitFits(offers + [m], m.id, side, Limit(m, side))
  {
    var more := offers + [m];
    assert more[|offers|] == m;
  }

  lemma {:induction false} ProtocolAppends(offers: seq<Model>, m: Model, id: string, p: Protocol)
    ensures OfferedProtocol(offers + [m], id, p) <==> OfferedProtocol(offers, id, p) || (m.id == id && p in m.protocols)
    ensures OfferedModel(offers + [m], id) <==> OfferedModel(offers, id) || m.id == id
  {
    var more := offers + [m];
    assert more[|offers|] == m;
    assert forall k :: 0 <= k < |offers| ==> more[k] == offers[k];
  }

  /** One more offer: a new model, or one merged into the table. */
  lemma {:induction false} OfferAdded(offers: seq<Model>, table: map<string, Model>, m: Model, merged: Model)
    requires Aggregates(offers, table) && merged.id == m.id
    requires m.id in table ==> merged.name == table[m.id].name
    requires m.id !in table ==> merged == m
    requires m.id in table ==>
      && merged.maxInput == MinimumKnown(table[m.id].maxInput, m.maxInput)
      && merged.maxOutput == MinimumKnown(table[m.id].maxOutput, m.maxOutput)
      && forall p :: p in merged.protocols <==> p in table[m.id].protocols || p in m.protocols
    ensures Aggregates(offers + [m], table[m.id := merged])
  {
    hide LimitFits, OfferedProtocol, OfferedModel, NamedByFirst;
    var more, next := offers + [m], table[m.id := merged];
    forall id ensures id in next <==> OfferedModel(more, id) {
      ProtocolAppends(offers, m, id, Messages);
    }
    if m.id in table {
      NameStays(offers, m, m.id, table[m.id].name);
      LimitMerges(offers, m, InputSide, table[m.id].maxInput);
      LimitMerges(offers, m, OutputSide, table[m.id].maxOutput);
    } else {
      FirstOffer(offers, m, InputSide);
      FirstOffer(offers, m, OutputSide);
      NameStarts(offers, m);
    }
    forall p ensures p in merged.protocols <==> OfferedProtocol(more, m.id, p) {
      ProtocolAppends(offers, m, m.id, p);
      if m.id !in table { NoProtocol(offers, m.id, p); }
    }
    forall id | id in table && id != m.id ensures Summarizes(more, table[id]) {
      NameStays(offers, m, id, table[id].name);
      LimitIgnores(offers, m, id, InputSide, table[id].maxInput);
      LimitIgnores(offers, m, id, OutputSide, table[id].maxOutput);
      forall p ensures p in table[id].protocols <==> OfferedProtocol(more, id, p) { ProtocolAppends(offers, m, id, p); }
    }
  }

  lemma {:induction false} NameStays(offers: seq<Model>, m: Model, id: string, name: string)
    requires NamedByFirst(offers, id, name)
    ensures NamedByFirst(offers + [m], id, name)
  {
    var k :| 0 <= k < |offers| && offers[k].id == id && offers[k].name == name && forall j :: 0 <= j < k ==> offers[j].id != id;
    var more := offers + [m];
    assert more[k] == offers[k] && forall j :: 0 <= j < k ==> more[j] == offers[j];
  }

  lemma {:induction false} NameStarts(offers: seq<Model>, m: Model)
    requires !OfferedModel(offers, m.id)
    ensures NamedByFirst(offers + [m], m.id, m.name)
  {
    var more := offers + [m];
    assert more[|offers|] == m && forall j :: 0 <= j < |offers| ==> more[j] == offers[j];
  }

  lemma {:induction false} NoProtocol(offers: seq<Model>, id: string, p: Protocol)
    requires !OfferedModel(offers, id)
    ensures !OfferedProtocol(offers, id, p)
  {
  }

  /** A cached account in the order the cache is read. */
  datatype Cached = Cached(account: string, entry: Entry)

  predicate IsUsable(c: Cached, enabled: set<string>, now: int, maxAge: int) {
    c.account in enabled && now - c.entry.updatedAt < maxAge
  }

  /** Every model of every entry of an enabled account that is younger than `maxAge`. */
  function AllOffers(cache: seq<Cached>, enabled: set<string>, now: int, maxAge: int): seq<Model> {
    if cache == [] then [] else
    var last := cache[|cache| - 1];
    AllOffers(cache[..|cache| - 1], enabled, now, maxAge)
    + if last.account in enabled && now < last.entry.updatedAt + maxAge then last.entry.models else []
  }

  /** The inner loop of `aggregate_model_cache`: the models of one account. */
  method AddModels(ghost offers: seq<Model>, before: map<string, Model>, models: seq<Model>) returns (table: map<string, Model>)
    requires Aggregates(offers, before)
    ensures Aggregates(offers + models, table)
  {
    hide Aggregates;
    table := before;
    assert offers + models[..0] == offers;
    for j := 0 to |models|
      invariant Aggregates(offers + models[..j], table)
    {
      var m := models[j];
      ghost var seen := offers + models[..j];
      assert offers + models[..j + 1] == seen + [m];
      var merged := m;
      if m.id in table {
        TableIds(seen, table, m.id);
        merged := MergeModelMetadata(table[m.id], m);
      }
      OfferAdded(seen, table, m, merged);
      table := table[m.id := merged];
    }
    assert models[..|models|] == models;
  }

  /** `aggregate_model_cache` */
  method AggregateModelCache(cache: seq<Cached>, enabled: set<string>, now: int, maxAge: int) returns (table: map<string, Model>)
    ensures Aggregates(AllOffers(cache, enabled, now, maxAge), table)
  {
    table := map[];
    NoOffers();
    assert cache[..0] == [];
    for n := 0 to |cache|
      invariant Aggregates(AllOffers(cache[..n], enabled, now, maxAge), table)
    {
      hide Aggregates;
      ghost var before := AllOffers(cache[..n], enabled, now, maxAge);
      OffersAppend(cache[..n], cache[n], enabled, now, maxAge);
      assert cache[..n + 1] == cache[..n] + [cache[n]];
      assert before + [] == before;
      hide AllOffers;
      if IsUsable(cache[n], enabled, now, maxAge) {
        table := AddModels(before, table, cache[n].entry.models);
      }
    }
    assert cache[..|cache|] == cache;
  }

  lemma {:induction false} NoOffers()
    ensures Aggregates([], map[])
  {
  }

  lemma {:induction false} OffersAppend(cache: seq<Cached>, c: Cached, enabled: set<string>, now: int, maxAge: int)
    ensures AllOffers(cache + [c], enabled, now, maxAge) ==
      AllOffers(cache, enabled, now, maxAge) + if IsUsable(c, enabled, now, maxAge) then c.entry.models else []
  {
    assert (cache + [c])[..|cache|] == cache;
  }

  lemma {:induction false} TableIds(offers: seq<Model>, table: map<string, Model>, id: string)
    requires Aggregates(offers, table) && id in table
    ensures table[id].id == id
  {
  }
}
