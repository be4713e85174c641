/**
 What the endpoint cache answers (crates/kproxy-kiro/src/endpoint.rs): which endpoints are skipped
 and which one is preferred, after each operation and over every run, told from the operations.
 */
module EndpointAnswers {
  import opened Wrappers
  import opened EndpointCache

  function Preferred(s: Cache, key: Key): Option<Endpoint> {
    if key in s.preferred then Some(s.preferred[key]) else None
  }

  /** A failure of `key` needs room, and `k` is the key whose last failure is oldest. */
  predicate FailureEvicts(s: Cache, key: Key, k: Key) {
    key !in s.disabled && |s.disabled| >= 500 && s.disabledOrder != [] && k == s.disabledOrder[0]
  }

  /** A success of `key` needs room, and `k` is the key whose last success is oldest. */
  predicate SuccessEvicts(s: Cache, key: Key, k: Key) {
    key !in s.preferred && |s.preferred| >= 500 && s.preferredOrder != [] && k == s.preferredOrder[0]
  }

  // ---------------------------------------------------------------- one operation

  lemma {:induction false} AddedFailure(s: Cache, key: Key, e: Endpoint, until: int, k: Key, x: Endpoint, now: int)
    ensures FailsNow(AddFailure(s, key, e, until), k, x, now) <==> if k == key && x == e then now < until else FailsNow(s, k, x, now)
    ensures AddFailure(s, key, e, until).preferred == s.preferred
  {
    hide Drop;
  }

  lemma {:induction false} ForgottenPreference(s: Cache, key: Key, e: Endpoint, k: Key)
    ensures ForgetPreferred(s, key, e).disabled == s.disabled
    ensures Preferred(ForgetPreferred(s, key, e), k) == if k == key && Preferred(s, k) == Some(e) then None else Preferred(s, k)
  {
    hide Drop;
  }

  /** A failure counts until it expires; it ends a preference for that endpoint, and nothing else but the oldest key's failures. */
  lemma {:induction false} AfterFailure(s: Cache, key: Key, e: Endpoint, until: int, k: Key, x: Endpoint, now: int)
    ensures FailsNow(MarkDisabled(s, key, e, until), k, x, now) <==>
            if k == key && x == e then now < until else FailsNow(s, k, x, now) && !FailureEvicts(s, key, k)
    ensures Preferred(MarkDisabled(s, key, e, until), k) == if k == key && Preferred(s, k) == Some(e) then None else Preferred(s, k)
  {
    hide Drop, AddFailure, ForgetPreferred;
    var s1 := if key in s.disabled then s else EvictDisabled(s);
    AddedFailure(s1, key, e, until, k, x, now);
    ForgottenPreference(AddFailure(s1, key, e, until), key, e, k);
  }

  lemma {:induction false} DroppedFailure(s: Cache, key: Key, e: Endpoint, k: Key, x: Endpoint, now: int)
    ensures FailsNow(ClearFailure(s, key, e), k, x, now) <==> !(k == key && x == e) && FailsNow(s, k, x, now)
    ensures ClearFailure(s, key, e).preferred == s.preferred && ClearFailure(s, key, e).preferredOrder == s.preferredOrder
  {
    hide Drop;
    if key in s.disabled {
      assert forall y :: y != e ==> (y in s.disabled[key] <==> y in s.disabled[key] - {e});
      assert s.disabled[key] - {e} == map[] ==> forall y :: y in s.disabled[key] ==> y == e;
    }
  }

  /** A success ends that endpoint's failure and makes it the preferred one, at the cost of the oldest preference only. */
  lemma {:induction false} AfterSuccess(s: Cache, key: Key, e: Endpoint, k: Key, x: Endpoint, now: int)
    ensures FailsNow(MarkSuccess(s, key, e), k, x, now) <==> !(k == key && x == e) && FailsNow(s, k, x, now)
    ensures Preferred(MarkSuccess(s, key, e), k) ==
            if k == key then Some(e) else if SuccessEvicts(s, key, k) then None else Preferred(s, k)
  {
    hide Drop, ClearFailure;
    DroppedFailure(s, key, e, k, x, now);
  }

  /** Clearing failures ends the failures of the account and keeps every preference. */
  lemma {:induction false} AfterClearFailures(s: Cache, account: string, k: Key, x: Endpoint, now: int)
    ensures FailsNow(ClearFailures(s, account), k, x, now) <==> k.account != account && FailsNow(s, k, x, now)
    ensures Preferred(ClearFailures(s, account), k) == Preferred(s, k)
  {
    hide DropAccount;
  }

  /** Clearing the account ends its failures and its preferences, and no others. */
  lemma {:induction false} AfterClearAccount(s: Cache, account: string, k: Key, x: Endpoint, now: int)
    ensures FailsNow(ClearAccount(s, account), k, x, now) <==> k.account != account && FailsNow(s, k, x, now)
    ensures Preferred(ClearAccount(s, account), k) == if k.account == account then None else Preferred(s, k)
  {
    hide DropAccount;
  }

  /** Looking changes no answer from then on. */
  lemma {:induction false} AfterLook(s: Cache, key: Key, e: Endpoint, when: int, k: Key, x: Endpoint, now: int)
    requires when <= now
    ensures var t := IsDisabled(s, key, e, when).1;
            (FailsNow(t, k, x, now) <==> FailsNow(s, k, x, now)) && Preferred(t, k) == Preferred(s, k)
  {
    hide ClearFailure;
    DroppedFailure(s, key, e, k, x, now);
  }

  // ---------------------------------------------------------------- every run

  /** What an operation amounts to: a guarded write is the write itself, or nothing if the revision is another one. */
  function Effect(s: Cache, op: Op): Option<Op> {
    match op
    case SucceededAt(key, e, expected) => if Revision(s, key.account) == expected then Some(Succeeded(key, e)) else None
    case FailedAt(key, e, until, expected) => if Revision(s, key.account) == expected then Some(Failed(key, e, until)) else None
    case _ => Some(op)
  }

  lemma {:induction false} EffectApplies(s: Cache, op: Op)
    ensures Apply(s, op) == if Effect(s, op).None? then s else Apply(s, Effect(s, op).value)
  {
    hide MarkSuccess, MarkDisabled, ClearFailures, ClearAccount, IsDisabled, Revision;
  }

  /** The expiry of the last failure of `x` for `k` that nothing has undone. */
  function StandingAfter(s: Cache, op: Op, k: Key, x: Endpoint, standing: Option<int>): Option<int> {
    match Effect(s, op)
    case Some(Failed(key, e, until)) =>
      if key == k && e == x then Some(until) else if FailureEvicts(s, key, k) then None else standing
    case Some(Succeeded(key, e)) => if key == k && e == x then None else standing
    case Some(ClearedFailures(account)) => if k.account == account then None else standing
    case Some(ClearedAccount(account)) => if k.account == account then None else standing
    case _ => standing
  }

  function Standing(s: Cache, ops: seq<Op>, k: Key, x: Endpoint, standing: Option<int>): Option<int>
    decreases |ops|
  {
    if ops == [] then standing else Standing(Apply(s, ops[0]), ops[1..], k, x, StandingAfter(s, ops[0], k, x, standing))
  }

  /** No operation looks at the clock after `now`. */
  predicate NoLaterLook(ops: seq<Op>, now: int) {
    forall i :: 0 <= i < |ops| && ops[i].Looked? ==> ops[i].now <= now
  }

  predicate Stands(standing: Option<int>, now: int) {
    standing.Some? && now < standing.value
  }

  lemma {:induction false} StandingStep(s: Cache, op: Op, k: Key, x: Endpoint, standing: Option<int>, now: int)
    requires FailsNow(s, k, x, now) <==> Stands(standing, now)
    requires op.Looked? ==> op.now <= now
    ensures FailsNow(Apply(s, op), k, x, now) <==> Stands(StandingAfter(s, op, k, x, standing), now)
  {
    hide MarkSuccess, MarkDisabled, ClearFailures, ClearAccount, IsDisabled, FailsNow, Revision, FailureEvicts;
    EffectApplies(s, op);
    match Effect(s, op)
    case None =>
    case Some(Failed(key, e, until)) => AfterFailure(s, key, e, until, k, x, now);
    case Some(Succeeded(key, e)) => AfterSuccess(s, key, e, k, x, now);
    case Some(ClearedFailures(account)) => AfterClearFailures(s, account, k, x, now);
    case Some(ClearedAccount(account)) => AfterClearAccount(s, account, k, x, now);
    case Some(Looked(key, e, when)) => AfterLook(s, key, e, when, k, x, now);
  }

  /**
   Over every run, an endpoint is skipped if and only if its last failure has not expired and no later
   success, clear or eviction has undone it.
   */
  lemma {:induction false} SkippedExactly(s: Cache, ops: seq<Op>, k: Key, x: Endpoint, standing: Option<int>, now: int)
    requires (FailsNow(s, k, x, now) <==> Stands(standing, now)) && NoLaterLook(ops, now)
    ensures FailsNow(Run(s, ops), k, x, now) <==> Stands(Standing(s, ops, k, x, standing), now)
    decreases |ops|
  {
    hide Apply, FailsNow, Stands, StandingAfter;
    if ops != [] {
      assert ops[0].Looked? ==> ops[0].now <= now;
      assert NoLaterLook(ops[1..], now);
      StandingStep(s, ops[0], k, x, standing, now);
      SkippedExactly(Apply(s, ops[0]), ops[1..], k, x, StandingAfter(s, ops[0], k, x, standing), now);
    }
  }

  /** The endpoint of the last success for `k` that nothing has undone. */
  function ChoiceAfter(s: Cache, op: Op, k: Key, choice: Option<Endpoint>): Option<Endpoint> {
    match Effect(s, op)
    case Some(Succeeded(key, e)) => if key == k then Some(e) else if SuccessEvicts(s, key, k) then None else choice
    case Some(Failed(key, e, _)) => if key == k && choice == Some(e) then None else choice
    case Some(ClearedAccount(account)) => if k.account == account then None else choice
    case _ => choice
  }

  function Choice(s: Cache, ops: seq<Op>, k: Key, choice: Option<Endpoint>): Option<Endpoint>
    decreases |ops|
  {
    if ops == [] then choice else Choice(Apply(s, ops[0]), ops[1..], k, ChoiceAfter(s, ops[0], k, choice))
  }

  lemma {:induction false} ChoiceStep(s: Cache, op: Op, k: Key)
    ensures Preferred(Apply(s, op), k) == ChoiceAfter(s, op, k, Preferred(s, k))
  {
    hide MarkSuccess, MarkDisabled, ClearFailures, ClearAccount, IsDisabled, FailsNow, Revision, SuccessEvicts, Preferred;
    EffectApplies(s, op);
    match Effect(s, op)
    case None =>
    case Some(Failed(key, e, until)) => AfterFailure(s, key, e, until, k, e, 0);
    case Some(Succeeded(key, e)) => AfterSuccess(s, key, e, k, e, 0);
    case Some(ClearedFailures(account)) => AfterClearFailures(s, account, k, Runtime, 0);
    case Some(ClearedAccount(account)) => AfterClearAccount(s, account, k, Runtime, 0);
    case Some(Looked(key, e, when)) => AfterLook(s, key, e, when, k, e, when);
  }

  /**
   Over every run, the preferred endpoint is that of the last success, unless a later failure of it, a
   clear of the account or an eviction has undone it.
   */
  lemma {:induction false} PreferredExactly(s: Cache, ops: seq<Op>, k: Key)
    ensures Preferred(Run(s, ops), k) == Choice(s, ops, k, Preferred(s, k))
    decreases |ops|
  {
    hide Apply, Preferred, ChoiceAfter;
    if ops != [] {
      ChoiceStep(s, ops[0], k);
      PreferredExactly(Apply(s, ops[0]), ops[1..], k);
    }
  }

  // ---------------------------------------------------------------- which key is oldest

  ghost predicate Before<T>(order: seq<T>, a: T, b: T) {
    exists i, j :: 0 <= i < j < |order| && order[i] == a && order[j] == b
  }

  /** `next` has `x` last and everything else in the order it had in `order`. */
  ghost predicate MovesLast<T(!new)>(order: seq<T>, next: seq<T>, x: T) {
    && next != [] && next[|next| - 1] == x
    && forall a, b :: a != x && b != x ==> (Before(next, a, b) <==> Before(order, a, b))
  }

  lemma {:induction false} DropMembers<T(!new)>(order: seq<T>, x: T, a: T)
    requires a != x
    ensures a in Drop(order, x) <==> a in order
  {
    if order != [] {
      DropMembers(order[1..], x, a);
      assert order == [order[0]] + order[1..];
    }
  }

  lemma {:induction false} DropKeepsOrder<T(!new)>(order: seq<T>, x: T, a: T, b: T)
    requires a != x && b != x
    ensures Before(Drop(order, x), a, b) <==> Before(order, a, b)
  {
    hide Before;
    if order != [] {
      var rest := order[1..];
      assert order == [order[0]] + rest;
      assert Drop(order, x) == if order[0] == x then Drop(rest, x) else [order[0]] + Drop(rest, x);
      DropKeepsOrder(rest, x, a, b);
      DropMembers(rest, x, b);
      hide Drop;
      BeforeCons(order[0], rest, a, b);
      BeforeCons(order[0], Drop(rest, x), a, b);
    }
  }

  lemma {:induction false} BeforeCons<T(!new)>(first: T, rest: seq<T>, a: T, b: T)
    ensures Before([first] + rest, a, b) <==> (first == a && b in rest) || Before(rest, a, b)
  {
    var all := [first] + rest;
    if i, j :| 0 <= i < j < |all| && all[i] == a && all[j] == b {
      assert all[j] == rest[j - 1];
      if i > 0 { assert rest[i - 1] == a && rest[j - 1] == b; }
    }
    if first == a && b in rest {
      var j :| 0 <= j < |rest| && rest[j] == b;
      assert all[0] == a && all[j + 1] == b;
    }
    if i, j :| 0 <= i < j < |rest| && rest[i] == a && rest[j] == b {
      assert all[i + 1] == a && all[j + 1] == b;
    }
  }

  lemma {:induction false} BeforeSnoc<T(!new)>(order: seq<T>, x: T, a: T, b: T)
    requires b != x
    ensures Before(order + [x], a, b) <==> Before(order, a, b)
  {
    var all := order + [x];
    if i, j :| 0 <= i < j < |all| && all[i] == a && all[j] == b {
      assert order[i] == a && order[j] == b;
    }
    if i, j :| 0 <= i < j < |order| && order[i] == a && order[j] == b {
      assert all[i] == a && all[j] == b;
    }
  }

  lemma {:induction false} DropThenPush<T(!new)>(order: seq<T>, x: T)
    ensures MovesLast(order, Drop(order, x) + [x], x)
  {
    forall a, b | a != x && b != x ensures Before(Drop(order, x) + [x], a, b) <==> Before(order, a, b) {
      DropKeepsOrder(order, x, a, b);
      BeforeSnoc(Drop(order, x), x, a, b);
    }
  }

  /** A failure puts its key behind all others, which keep their order; a key that needs room costs the first one. */
  lemma {:induction false} FailureOrder(s: Cache, key: Key, e: Endpoint, until: int)
    ensures MovesLast(if FailureEvicts(s, key, if s.disabledOrder == [] then key else s.disabledOrder[0]) then s.disabledOrder[1..] else s.disabledOrder,
                      MarkDisabled(s, key, e, until).disabledOrder, key)
  {
    DropThenPush(s.disabledOrder, key);
    if s.disabledOrder != [] { DropThenPush(s.disabledOrder[1..], key); }
    hide MovesLast, Drop;
  }

  /** So does a success with preferences. */
  lemma {:induction false} SuccessOrder(s: Cache, key: Key, e: Endpoint)
    ensures MovesLast(if SuccessEvicts(s, key, if s.preferredOrder == [] then key else s.preferredOrder[0]) then s.preferredOrder[1..] else s.preferredOrder,
                      MarkSuccess(s, key, e).preferredOrder, key)
  {
    DropThenPush(s.preferredOrder, key);
    if s.preferredOrder != [] { DropThenPush(s.preferredOrder[1..], key); }
    DroppedFailure(s, key, e, key, e, 0);
    hide MovesLast, Drop, ClearFailure;
  }

  // ---------------------------------------------------------------- candidates

  /** API keys and government accounts are never sent anywhere but to the runtime endpoint. */
  lemma {:induction false} StaysOnRuntime(s: Cache, key: Key, auth: AuthMethod, government: bool, explicit: Option<Endpoint>)
    requires auth == ApiKey || government
    ensures Candidates(s, key, auth, government, explicit) == [Runtime]
  {
  }

  /**
   Every other account has both service endpoints as candidates: first the one asked for, else the
   preferred one, then that of its login kind, which is Amazon Q for IdC, then the other one.
   */
  lemma {:induction false} CandidateOrder(s: Cache, key: Key, auth: AuthMethod, explicit: Option<Endpoint>)
    requires auth != ApiKey
    ensures var all := Candidates(s, key, auth, false, explicit);
            var first := if explicit != None then explicit else Preferred(s, key);
            && Codewhisperer in all && Amazonq in all
            && all == (if first == None then [] else [first.value])
                      + if auth == Idc then [Amazonq, Codewhisperer] else [Codewhisperer, Amazonq]
  {
    var all := Candidates(s, key, auth, false, explicit);
    assert all[|all| - 1] in all && all[|all| - 2] in all;
  }
}
