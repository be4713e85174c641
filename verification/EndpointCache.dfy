/**
 Model of the endpoint cache (crates/kproxy-kiro/src/endpoint.rs): three bounded maps, each
 shadowed by a deque that remembers insertion order, with expiring failures and revision-guarded
 writes. Instants are integers.
 */
module EndpointCache {
  import opened Wrappers

  const MAX_SIZE := 500
  const WRAP := 0x1_0000_0000_0000_0000

  datatype Endpoint = Codewhisperer | Amazonq | Runtime

  datatype Purpose = Generation | Models

  datatype Key = Key(account: string, purpose: Purpose)

  datatype Cache = Cache(
    preferred: map<Key, Endpoint>,
    preferredOrder: seq<Key>,
    disabled: map<Key, map<Endpoint, int>>,
    disabledOrder: seq<Key>,
    revisions: map<string, nat>,
    revisionOrder: seq<string>)

  const EMPTY := Cache(map[], [], map[], [], map[], [])

  // ---------------------------------------------------------------- order deques

  /** `retain(|key| key != x)`. */
  function Drop<T(==)>(order: seq<T>, x: T): seq<T> {
    if order == [] then [] else (if order[0] == x then [] else [order[0]]) + Drop(order[1..], x)
  }

  /** `retain(|(id, _)| id != account)`. */
  function DropAccount(order: seq<Key>, account: string): seq<Key> {
    if order == [] then [] else (if order[0].account == account then [] else [order[0]]) + DropAccount(order[1..], account)
  }

  /** The keys of other accounts. */
  function OtherKeys(keys: set<Key>, account: string): set<Key> {
    set k | k in keys && k.account != account
  }

  ghost predicate NoDuplicates<T>(order: seq<T>) {
    forall i, j :: 0 <= i < j < |order| ==> order[i] != order[j]
  }

  /** The deque lists each key of the map exactly once. */
  ghost predicate Enumerates<T(!new)>(order: seq<T>, keys: set<T>) {
    NoDuplicates(order) && forall x :: x in order <==> x in keys
  }

  lemma {:induction false} DropKept<T(!new)>(order: seq<T>, keys: set<T>, x: T)
    requires Enumerates(order, keys)
    ensures Enumerates(Drop(order, x), keys - {x})
  {
    if order != [] {
      PoppedFront(order, keys);
      DropKept(order[1..], keys - {order[0]}, x);
      Pushed(Drop(order[1..], x), keys - {order[0]} - {x}, order[0]);
      assert order[0] != x ==> keys - {order[0]} - {x} + {order[0]} == keys - {x};
      assert order[0] == x ==> Drop(order, x) == Drop(order[1..], x) && keys - {order[0]} - {x} == keys - {x};
    }
  }

  lemma {:induction false} DropAccountKept(order: seq<Key>, keys: set<Key>, account: string)
    requires Enumerates(order, keys)
    ensures Enumerates(DropAccount(order, account), OtherKeys(keys, account))
  {
    if order != [] {
      var rest, others := keys - {order[0]}, OtherKeys(keys - {order[0]}, account);
      PoppedFront(order, keys);
      DropAccountKept(order[1..], rest, account);
      Pushed(DropAccount(order[1..], account), others, order[0]);
      if order[0].account == account {
        assert others == OtherKeys(keys, account);
        assert DropAccount(order, account) == DropAccount(order[1..], account);
      } else {
        assert others + {order[0]} == OtherKeys(keys, account);
      }
    }
  }

  /** Adding a new key at either end keeps an enumeration. */
  lemma Pushed<T(!new)>(order: seq<T>, keys: set<T>, x: T)
    requires Enumerates(order, keys)
    ensures x !in keys ==> Enumerates([x] + order, keys + {x}) && Enumerates(order + [x], keys + {x})
  {
  }

  lemma {:induction false} EnumerationLength<T(!new)>(order: seq<T>, keys: set<T>)
    requires Enumerates(order, keys)
    ensures |order| == |keys|
  {
    if order == [] {
      assert keys == {};
    } else {
      assert Enumerates(order[1..], keys - {order[0]});
      EnumerationLength(order[1..], keys - {order[0]});
    }
  }

  lemma PoppedFront<T(!new)>(order: seq<T>, keys: set<T>)
    requires Enumerates(order, keys) && order != []
    ensures Enumerates(order[1..], keys - {order[0]}) && order[0] in keys
  {
    assert forall x :: x in order <==> x == order[0] || x in order[1..];
  }

  // ---------------------------------------------------------------- operations

  function ClearFailure(s: Cache, key: Key, e: Endpoint): Cache {
    if key !in s.disabled then s
    else
      var failures := s.disabled[key] - {e};
      if failures == map[] then s.(disabled := s.disabled - {key}, disabledOrder := Drop(s.disabledOrder, key))
      else s.(disabled := s.disabled[key := failures])
  }

  function EvictPreferred(s: Cache): Cache {
    if |s.preferred| >= MAX_SIZE && s.preferredOrder != [] then
      s.(preferred := s.preferred - {s.preferredOrder[0]}, preferredOrder := s.preferredOrder[1..])
    else s
  }

  function EvictDisabled(s: Cache): Cache {
    if |s.disabled| >= MAX_SIZE && s.disabledOrder != [] then
      s.(disabled := s.disabled - {s.disabledOrder[0]}, disabledOrder := s.disabledOrder[1..])
    else s
  }

  function SetPreferred(s: Cache, key: Key, e: Endpoint): Cache {
    s.(preferred := s.preferred[key := e], preferredOrder := Drop(s.preferredOrder, key) + [key])
  }

  function MarkSuccess(s: Cache, key: Key, e: Endpoint): Cache {
    var s1 := ClearFailure(s, key, e);
    SetPreferred(if key in s1.preferred then s1 else EvictPreferred(s1), key, e)
  }

  function AddFailure(s: Cache, key: Key, e: Endpoint, until: int): Cache {
    var failures := if key in s.disabled then s.disabled[key] else map[];
    s.(disabled := s.disabled[key := failures[e := until]], disabledOrder := Drop(s.disabledOrder, key) + [key])
  }

  function ForgetPreferred(s: Cache, key: Key, e: Endpoint): Cache {
    if key in s.preferred && s.preferred[key] == e then
      s.(preferred := s.preferred - {key}, preferredOrder := Drop(s.preferredOrder, key))
    else s
  }

  function MarkDisabled(s: Cache, key: Key, e: Endpoint, until: int): Cache {
    var s1 := if key in s.disabled then s else EvictDisabled(s);
    ForgetPreferred(AddFailure(s1, key, e, until), key, e)
  }

  function Revision(s: Cache, account: string): nat {
    if account in s.revisions then s.revisions[account] else 0
  }

  function EvictRevision(s: Cache): Cache {
    if |s.revisions| >= MAX_SIZE && s.revisionOrder != [] then
      s.(revisions := s.revisions - {s.revisionOrder[0]}, revisionOrder := s.revisionOrder[1..])
    else s
  }

  function BumpRevision(s: Cache, account: string): Cache {
    var s1 := if account in s.revisions then s
              else var s0 := EvictRevision(s); s0.(revisionOrder := s0.revisionOrder + [account]);
    s1.(revisions := s1.revisions[account := (Revision(s1, account) + 1) % WRAP])
  }

  function RemoveFailures(s: Cache, account: string): Cache {
    s.(disabled := map k | k in s.disabled && k.account != account :: s.disabled[k],
       disabledOrder := DropAccount(s.disabledOrder, account))
  }

  function ClearFailures(s: Cache, account: string): Cache {
    RemoveFailures(BumpRevision(s, account), account)
  }

  function RemovePreferred(s: Cache, account: string): Cache {
    s.(preferred := map k | k in s.preferred && k.account != account :: s.preferred[k],
       preferredOrder := DropAccount(s.preferredOrder, account))
  }

  function ClearAccount(s: Cache, account: string): Cache {
    RemoveFailures(RemovePreferred(BumpRevision(s, account), account), account)
  }

  /** `is_disabled`: an expired failure is forgotten on the way. */
  function IsDisabled(s: Cache, key: Key, e: Endpoint, now: int): (bool, Cache) {
    if key in s.disabled && e in s.disabled[key] then
      if s.disabled[key][e] > now then (true, s) else (false, ClearFailure(s, key, e))
    else (false, s)
  }

  // ---------------------------------------------------------------- invariant

  ghost predicate PreferredInv(preferred: map<Key, Endpoint>, order: seq<Key>) {
    Enumerates(order, preferred.Keys) && |preferred| <= MAX_SIZE
  }

  ghost predicate DisabledInv(disabled: map<Key, map<Endpoint, int>>, order: seq<Key>) {
    && Enumerates(order, disabled.Keys) && |disabled| <= MAX_SIZE
    && forall k :: k in disabled ==> disabled[k] != map[]
  }

  ghost predicate RevisionInv(revisions: map<string, nat>, order: seq<string>) {
    && Enumerates(order, revisions.Keys) && |revisions| <= MAX_SIZE
    && forall a :: a in revisions ==> revisions[a] < WRAP
  }

  /** No endpoint is both preferred and recorded as failing for the same key. */
  ghost predicate Exclusive(preferred: map<Key, Endpoint>, disabled: map<Key, map<Endpoint, int>>) {
    forall k :: k in preferred && k in disabled ==> preferred[k] !in disabled[k]
  }

  ghost predicate Inv(s: Cache) {
    && PreferredInv(s.preferred, s.preferredOrder)
    && DisabledInv(s.disabled, s.disabledOrder)
    && RevisionInv(s.revisions, s.revisionOrder)
    && Exclusive(s.preferred, s.disabled)
  }

  /** Re-adding a key moves it to the back and keeps the deque an enumeration. */
  lemma MovedToBack<T(!new)>(order: seq<T>, keys: set<T>, x: T)
    requires Enumerates(order, keys)
    ensures Enumerates(Drop(order, x) + [x], keys + {x})
    ensures Enumerates(Drop(order, x), keys - {x})
  {
    DropKept(order, keys, x);
    Pushed(Drop(order, x), keys - {x}, x);
    assert keys - {x} + {x} == keys + {x};
  }

  lemma {:induction false} ClearFailureKept(s: Cache, key: Key, e: Endpoint)
    requires Inv(s)
    ensures var t := ClearFailure(s, key, e);
            Inv(t) && t.preferred == s.preferred && t.preferredOrder == s.preferredOrder && (key in t.disabled ==> e !in t.disabled[key])
  {
    hide Enumerates, Drop, RevisionInv, PreferredInv;
    if key in s.disabled {
      var failures := s.disabled[key] - {e};
      if failures == map[] {
        RemovedKey(s, key);
      } else {
        var t := s.disabled[key := failures];
        assert t.Keys == s.disabled.Keys;
        SmallerMap(t, s.disabled);
      }
    }
  }

  /** Forgetting all failures of a key. */
  lemma {:induction false} RemovedKey(s: Cache, key: Key)
    requires Inv(s)
    ensures Inv(s.(disabled := s.disabled - {key}, disabledOrder := Drop(s.disabledOrder, key)))
  {
    hide Enumerates, Drop, RevisionInv, PreferredInv;
    DropKept(s.disabledOrder, s.disabled.Keys, key);
    assert (s.disabled - {key}).Keys == s.disabled.Keys - {key};
    SmallerMap(s.disabled - {key}, s.disabled);
  }

  lemma {:induction false} EvictPreferredKept(s: Cache)
    requires Inv(s)
    ensures Inv(EvictPreferred(s)) && |EvictPreferred(s).preferred| < MAX_SIZE
    ensures EvictPreferred(s).preferred.Keys <= s.preferred.Keys
  {
    hide DisabledInv, RevisionInv, Enumerates;
    EnumerationLength(s.preferredOrder, s.preferred.Keys);
    if |s.preferred| >= MAX_SIZE {
      PoppedFront(s.preferredOrder, s.preferred.Keys);
      var t := s.preferred - {s.preferredOrder[0]};
      assert t.Keys == s.preferred.Keys - {s.preferredOrder[0]};
    }
  }

  lemma {:induction false} EvictDisabledKept(s: Cache)
    requires Inv(s)
    ensures Inv(EvictDisabled(s)) && |EvictDisabled(s).disabled| < MAX_SIZE
    ensures EvictDisabled(s).disabled.Keys <= s.disabled.Keys
    ensures EvictDisabled(s).preferred == s.preferred && EvictDisabled(s).preferredOrder == s.preferredOrder
  {
    hide PreferredInv, RevisionInv, Enumerates;
    EnumerationLength(s.disabledOrder, s.disabled.Keys);
    if |s.disabled| >= MAX_SIZE {
      PoppedFront(s.disabledOrder, s.disabled.Keys);
      var t := s.disabled - {s.disabledOrder[0]};
      assert t.Keys == s.disabled.Keys - {s.disabledOrder[0]};
    }
  }

  lemma GrownMap<K, V>(m: map<K, V>, k: K, v: V)
    ensures m[k := v].Keys == m.Keys + {k}
    ensures |m[k := v]| == if k in m then |m| else |m| + 1
  {
    if k in m { assert m[k := v].Keys == m.Keys; }
  }

  lemma {:induction false} SetPreferredKept(s: Cache, key: Key, e: Endpoint)
    requires Inv(s) && (key in s.preferred || |s.preferred| < MAX_SIZE)
    requires key in s.disabled ==> e !in s.disabled[key]
    ensures Inv(SetPreferred(s, key, e))
  {
    hide DisabledInv, RevisionInv, Enumerates, Drop;
    MovedToBack(s.preferredOrder, s.preferred.Keys, key);
    GrownMap(s.preferred, key, e);
  }

  lemma {:induction false} MarkSuccessKept(s: Cache, key: Key, e: Endpoint)
    requires Inv(s)
    ensures Inv(MarkSuccess(s, key, e))
    ensures var t := MarkSuccess(s, key, e);
            key in t.preferred && t.preferred[key] == e && (key in t.disabled ==> e !in t.disabled[key])
  {
    hide Inv, ClearFailure;
    ClearFailureKept(s, key, e);
    var s1 := ClearFailure(s, key, e);
    if key in s1.preferred {
      SetPreferredKept(s1, key, e);
    } else {
      EvictPreferredKept(s1);
      SetPreferredKept(EvictPreferred(s1), key, e);
    }
  }

  lemma {:induction false} ForgetPreferredKept(s: Cache, key: Key, e: Endpoint)
    requires PreferredInv(s.preferred, s.preferredOrder)
    ensures PreferredInv(ForgetPreferred(s, key, e).preferred, ForgetPreferred(s, key, e).preferredOrder)
  {
    hide Enumerates, Drop;
    DropKept(s.preferredOrder, s.preferred.Keys, key);
    assert (s.preferred - {key}).Keys == s.preferred.Keys - {key};
    SmallerMap(s.preferred - {key}, s.preferred);
  }

  lemma {:induction false} AddFailureKept(s: Cache, key: Key, e: Endpoint, until: int)
    requires Inv(s) && (key in s.disabled || |s.disabled| < MAX_SIZE)
    ensures Inv(ForgetPreferred(AddFailure(s, key, e, until), key, e))
  {
    hide RevisionInv, PreferredInv, DisabledInv;
    var t := AddFailure(s, key, e, until);
    FailuresAdded(s, key, e, until);
    ForgetPreferredKept(t, key, e);
    assert e in t.disabled[key];
  }

  lemma {:induction false} FailuresAdded(s: Cache, key: Key, e: Endpoint, until: int)
    requires DisabledInv(s.disabled, s.disabledOrder) && (key in s.disabled || |s.disabled| < MAX_SIZE)
    ensures DisabledInv(AddFailure(s, key, e, until).disabled, AddFailure(s, key, e, until).disabledOrder)
  {
    hide Enumerates, Drop;
    MovedToBack(s.disabledOrder, s.disabled.Keys, key);
    var failures := AddFailure(s, key, e, until).disabled[key];
    GrownMap(s.disabled, key, failures);
    assert e in failures;
  }

  lemma {:induction false} MarkDisabledKept(s: Cache, key: Key, e: Endpoint, until: int)
    requires Inv(s)
    ensures Inv(MarkDisabled(s, key, e, until))
  {
    hide Inv, AddFailure, ForgetPreferred;
    if key !in s.disabled { EvictDisabledKept(s); }
    AddFailureKept(if key in s.disabled then s else EvictDisabled(s), key, e, until);
  }

  lemma {:induction false} BumpRevisionKept(s: Cache, account: string)
    requires Inv(s)
    ensures Inv(BumpRevision(s, account))
  {
    hide DisabledInv, PreferredInv, Exclusive;
    if account in s.revisions {
      GrownMap(s.revisions, account, (Revision(s, account) + 1) % WRAP);
    } else {
      NewRevisionKept(s, account);
    }
  }

  lemma {:induction false} NewRevisionKept(s: Cache, account: string)
    requires RevisionInv(s.revisions, s.revisionOrder) && account !in s.revisions
    ensures RevisionInv(BumpRevision(s, account).revisions, BumpRevision(s, account).revisionOrder)
  {
    hide Enumerates, EvictRevision;
    EvictRevisionKept(s);
    var s0 := EvictRevision(s);
    Pushed(s0.revisionOrder, s0.revisions.Keys, account);
    GrownMap(s0.revisions, account, 1 % WRAP);
  }

  lemma {:induction false} EvictRevisionKept(s: Cache)
    requires RevisionInv(s.revisions, s.revisionOrder)
    ensures var t := EvictRevision(s);
            RevisionInv(t.revisions, t.revisionOrder) && |t.revisions| < MAX_SIZE && t.revisions.Keys <= s.revisions.Keys
  {
    EnumerationLength(s.revisionOrder, s.revisions.Keys);
    if |s.revisions| >= MAX_SIZE {
      PoppedFront(s.revisionOrder, s.revisions.Keys);
      var t := s.revisions - {s.revisionOrder[0]};
      assert t.Keys == s.revisions.Keys - {s.revisionOrder[0]};
    }
  }

  lemma {:induction false} RemoveFailuresKept(s: Cache, account: string)
    requires Inv(s)
    ensures Inv(RemoveFailures(s, account))
  {
    hide Enumerates, RevisionInv, PreferredInv;
    DropAccountKept(s.disabledOrder, s.disabled.Keys, account);
    var t := RemoveFailures(s, account).disabled;
    assert t.Keys == OtherKeys(s.disabled.Keys, account);
    SmallerMap(t, s.disabled);
  }

  lemma {:induction false} RemovePreferredKept(s: Cache, account: string)
    requires Inv(s)
    ensures Inv(RemovePreferred(s, account))
  {
    hide Enumerates, RevisionInv, DisabledInv;
    DropAccountKept(s.preferredOrder, s.preferred.Keys, account);
    var t := RemovePreferred(s, account).preferred;
    assert t.Keys == OtherKeys(s.preferred.Keys, account);
    SmallerMap(t, s.preferred);
  }

  lemma SmallerMap<K, V>(a: map<K, V>, b: map<K, V>)
    requires a.Keys <= b.Keys
    ensures |a| <= |b|
  {
    SmallerSet(a.Keys, b.Keys);
  }

  lemma {:induction false} SmallerSet<K>(a: set<K>, b: set<K>)
    requires a <= b
    ensures |a| <= |b|
  {
    assert b == a + (b - a);
  }

  // ---------------------------------------------------------------- whole runs

  datatype Op =
    | Succeeded(key: Key, endpoint: Endpoint)
    | SucceededAt(key: Key, endpoint: Endpoint, expected: nat)
    | Failed(key: Key, endpoint: Endpoint, until: int)
    | FailedAt(key: Key, endpoint: Endpoint, until: int, expected: nat)
    | Looked(key: Key, endpoint: Endpoint, now: int)
    | ClearedFailures(account: string)
    | ClearedAccount(account: string)

  function Apply(s: Cache, op: Op): Cache {
    match op
    case Succeeded(key, e) => MarkSuccess(s, key, e)
    case SucceededAt(key, e, expected) => if Revision(s, key.account) == expected then MarkSuccess(s, key, e) else s
    case Failed(key, e, until) => MarkDisabled(s, key, e, until)
    case FailedAt(key, e, until, expected) => if Revision(s, key.account) == expected then MarkDisabled(s, key, e, until) else s
    case Looked(key, e, now) => IsDisabled(s, key, e, now).1
    case ClearedFailures(account) => ClearFailures(s, account)
    case ClearedAccount(account) => ClearAccount(s, account)
  }

  function Run(s: Cache, ops: seq<Op>): Cache
    decreases |ops|
  {
    if ops == [] then s else Run(Apply(s, ops[0]), ops[1..])
  }

  lemma {:induction false} StepKept(s: Cache, op: Op)
    requires Inv(s)
    ensures Inv(Apply(s, op))
  {
    hide Inv, MarkSuccess, MarkDisabled, BumpRevision, RemoveFailures, RemovePreferred, ClearFailure;
    match op
    case Succeeded(key, e) => MarkSuccessKept(s, key, e);
    case SucceededAt(key, e, _) => MarkSuccessKept(s, key, e);
    case Failed(key, e, until) => MarkDisabledKept(s, key, e, until);
    case FailedAt(key, e, until, _) => MarkDisabledKept(s, key, e, until);
    case Looked(key, e, now) => ClearFailureKept(s, key, e);
    case ClearedFailures(a) =>
      BumpRevisionKept(s, a);
      RemoveFailuresKept(BumpRevision(s, a), a);
    case ClearedAccount(a) =>
      BumpRevisionKept(s, a);
      RemovePreferredKept(BumpRevision(s, a), a);
      RemoveFailuresKept(RemovePreferred(BumpRevision(s, a), a), a);
  }

  /** After any sequence of operations the cache is consistent and bounded. */
  lemma {:induction false} RunKept(s: Cache, ops: seq<Op>)
    requires Inv(s)
    ensures Inv(Run(s, ops))
    decreases |ops|
  {
    hide Inv, Apply;
    if ops != [] {
      StepKept(s, ops[0]);
      RunKept(Apply(s, ops[0]), ops[1..]);
    }
  }

  lemma EmptyIsConsistent()
    ensures Inv(EMPTY)
  {
  }

  // ---------------------------------------------------------------- stale writes

  predicate Clears(op: Op, account: string) {
    op == ClearedFailures(account) || op == ClearedAccount(account)
  }

  function CountClears(ops: seq<Op>, account: string): nat {
    if ops == [] then 0 else (if Clears(ops[0], account) then 1 else 0) + CountClears(ops[1..], account)
  }

  function ClearedAccountOf(op: Op): Option<string> {
    match op
    case ClearedFailures(account) => Some(account)
    case ClearedAccount(account) => Some(account)
    case _ => None
  }

  function Newest(queue: seq<string>): seq<string> {
    if |queue| <= MAX_SIZE then queue else queue[|queue| - MAX_SIZE..]
  }

  /** The operation clears an account that has no revision entry, which creates one. */
  predicate Enters(queue: seq<string>, op: Op) {
    ClearedAccountOf(op).Some? && ClearedAccountOf(op).value !in queue
  }

  /** The accounts with a revision entry, oldest first, after one more operation. */
  function Enter(queue: seq<string>, op: Op): seq<string> {
    if Enters(queue, op) then Newest(queue + [ClearedAccountOf(op).value]) else queue
  }

  function Queue(queue: seq<string>, ops: seq<Op>): seq<string>
    decreases |ops|
  {
    if ops == [] then queue else Queue(Enter(queue, ops[0]), ops[1..])
  }

  /** How many entries the operations create. */
  function CountEntrants(queue: seq<string>, ops: seq<Op>): nat
    decreases |ops|
  {
    if ops == [] then 0 else (if Enters(queue, ops[0]) then 1 else 0) + CountEntrants(Enter(queue, ops[0]), ops[1..])
  }

  /** The account has a revision entry all along. */
  predicate StaysQueued(queue: seq<string>, ops: seq<Op>, account: string)
    decreases |ops|
  {
    account in queue && (ops != [] ==> StaysQueued(Enter(queue, ops[0]), ops[1..], account))
  }

  /**
   The clears of an account since its entry was last created, which is none without an entry; `n` is
   that number at the beginning.
   */
  function SinceEntry(queue: seq<string>, ops: seq<Op>, account: string, n: nat): nat
    decreases |ops|
  {
    if ops == [] then n
    else
      var next := Enter(queue, ops[0]);
      SinceEntry(next, ops[1..], account, if account !in next then 0 else if Clears(ops[0], account) then n + 1 else n)
  }

  predicate SameRevisions(s: Cache, t: Cache) {
    s.revisions == t.revisions && s.revisionOrder == t.revisionOrder
  }

  lemma {:induction false} FailureKeepsRevisions(s: Cache, key: Key, e: Endpoint)
    ensures SameRevisions(ClearFailure(s, key, e), s)
  {
    hide Drop;
  }

  lemma {:induction false} SuccessKeepsRevisions(s: Cache, key: Key, e: Endpoint)
    ensures SameRevisions(MarkSuccess(s, key, e), s)
  {
    hide Drop, ClearFailure;
    FailureKeepsRevisions(s, key, e);
  }

  lemma {:induction false} DisablingKeepsRevisions(s: Cache, key: Key, e: Endpoint, until: int)
    ensures SameRevisions(MarkDisabled(s, key, e, until), s)
  {
    hide Drop;
  }

  /** Only clears touch the revisions, and both kinds bump once. */
  lemma {:induction false} RevisionsOf(s: Cache, op: Op)
    ensures var t := if ClearedAccountOf(op).Some? then BumpRevision(s, ClearedAccountOf(op).value) else s;
            Apply(s, op).revisions == t.revisions && Apply(s, op).revisionOrder == t.revisionOrder
  {
    hide BumpRevision, MarkSuccess, MarkDisabled, ClearFailure;
    match op
    case Succeeded(key, e) => SuccessKeepsRevisions(s, key, e);
    case SucceededAt(key, e, _) => SuccessKeepsRevisions(s, key, e);
    case Failed(key, e, until) => DisablingKeepsRevisions(s, key, e, until);
    case FailedAt(key, e, until, _) => DisablingKeepsRevisions(s, key, e, until);
    case Looked(key, e, _) => FailureKeepsRevisions(s, key, e);
    case ClearedFailures(_) =>
    case ClearedAccount(_) =>
  }

  lemma {:induction false} EntriesListed(s: Cache)
    requires Inv(s)
    ensures |s.revisionOrder| == |s.revisions| <= MAX_SIZE && NoDuplicates(s.revisionOrder)
    ensures forall a :: a in s.revisions <==> a in s.revisionOrder
    ensures forall a :: Revision(s, a) < WRAP
  {
    EnumerationLength(s.revisionOrder, s.revisions.Keys);
  }

  lemma {:induction false} BumpEnters(s: Cache, account: string)
    requires |s.revisionOrder| == |s.revisions| <= MAX_SIZE
    requires forall a :: a in s.revisions <==> a in s.revisionOrder
    ensures BumpRevision(s, account).revisionOrder ==
            if account in s.revisionOrder then s.revisionOrder else Newest(s.revisionOrder + [account])
  {
    if s.revisionOrder != [] {
      assert (s.revisionOrder + [account])[1..] == s.revisionOrder[1..] + [account];
    }
  }

  /** The order deque after one operation. */
  lemma {:induction false} EnterStep(s: Cache, op: Op)
    requires Inv(s)
    ensures Apply(s, op).revisionOrder == Enter(s.revisionOrder, op)
  {
    hide Apply, Inv, BumpRevision, Newest;
    RevisionsOf(s, op);
    EntriesListed(s);
    if ClearedAccountOf(op).Some? { BumpEnters(s, ClearedAccountOf(op).value); }
  }

  lemma {:induction false} RevisionStep(s: Cache, op: Op, account: string)
    requires Inv(s)
    ensures Revision(s, account) < WRAP
    ensures Revision(Apply(s, op), account) ==
            if account !in Enter(s.revisionOrder, op) then 0
            else if Clears(op, account) then (Revision(s, account) + 1) % WRAP
            else Revision(s, account)
  {
    hide Apply, Inv, BumpRevision, Enter;
    EntriesListed(s);
    EnterStep(s, op);
    RevisionsOf(s, op);
    StepKept(s, op);
    EntriesListed(Apply(s, op));
    if ClearedAccountOf(op).Some? && account in Apply(s, op).revisions {
      BumpedRevision(s, ClearedAccountOf(op).value, account);
    }
  }

  lemma {:induction false} BumpedRevision(s: Cache, cleared: string, account: string)
    requires account in BumpRevision(s, cleared).revisions
    ensures BumpRevision(s, cleared).revisions[account] ==
            if cleared == account then (Revision(s, account) + 1) % WRAP else Revision(s, account)
  {
  }

  /** Which accounts have an entry after a run, and in which order they will go. */
  lemma {:induction false} QueueOfRun(s: Cache, ops: seq<Op>)
    requires Inv(s)
    ensures Run(s, ops).revisionOrder == Queue(s.revisionOrder, ops)
    ensures forall a :: a in Run(s, ops).revisions <==> a in Queue(s.revisionOrder, ops)
    decreases |ops|
  {
    hide Apply, Enter, Inv;
    if ops == [] {
      EntriesListed(s);
    } else {
      EnterStep(s, ops[0]);
      StepKept(s, ops[0]);
      QueueOfRun(Apply(s, ops[0]), ops[1..]);
    }
  }

  /** For every run, a revision is the number of clears since the entry was last created, modulo 2^64. */
  lemma {:induction false} RevisionIsSinceEntry(s: Cache, ops: seq<Op>, account: string, n: nat)
    requires Inv(s) && Revision(s, account) == n % WRAP
    ensures Revision(Run(s, ops), account) == SinceEntry(s.revisionOrder, ops, account, n) % WRAP
    decreases |ops|
  {
    hide Apply, Inv, Enter, Revision, Clears;
    if ops != [] {
      RevisionStep(s, ops[0], account);
      EnterStep(s, ops[0]);
      StepKept(s, ops[0]);
      NextModulo(n);
      var m := if account !in Enter(s.revisionOrder, ops[0]) then 0 else if Clears(ops[0], account) then n + 1 else n;
      RevisionIsSinceEntry(Apply(s, ops[0]), ops[1..], account, m);
    }
  }

  lemma {:induction false} NextModulo(n: nat)
    ensures (n % WRAP + 1) % WRAP == (n + 1) % WRAP
  {
    var q, m := n / WRAP, n % WRAP;
    assert n == q * WRAP + m;
    if m + 1 < WRAP {
      assert n + 1 == q * WRAP + (m + 1);
    } else {
      assert n + 1 == (q + 1) * WRAP;
    }
  }

  /** While the entry stays, every clear counts. */
  lemma {:induction false} StayingCounts(queue: seq<string>, ops: seq<Op>, account: string, n: nat)
    requires StaysQueued(queue, ops, account)
    ensures SinceEntry(queue, ops, account, n) == n + CountClears(ops, account)
    decreases |ops|
  {
    hide Enter;
    if ops != [] {
      StayingCounts(Enter(queue, ops[0]), ops[1..], account, if Clears(ops[0], account) then n + 1 else n);
    }
  }

  /** Once the entry is gone, earlier clears no longer count. */
  lemma {:induction false} LeavingForgets(queue: seq<string>, ops: seq<Op>, account: string, n: nat, m: nat)
    requires account in queue && !StaysQueued(queue, ops, account)
    ensures SinceEntry(queue, ops, account, n) == SinceEntry(queue, ops, account, m)
    decreases |ops|
  {
    hide Enter;
    var next := Enter(queue, ops[0]);
    if account in next {
      var d := if Clears(ops[0], account) then 1 else 0;
      LeavingForgets(next, ops[1..], account, n + d, m + d);
    }
  }

  /**
   First in, first out: an entry with `|queue| - 1 - i` newer ones stays as long as no more entrants
   come than leave it among the newest 500.
   */
  lemma {:induction false} EvictedExactly(queue: seq<string>, ops: seq<Op>, i: nat)
    requires i < |queue| <= MAX_SIZE && NoDuplicates(queue)
    ensures StaysQueued(queue, ops, queue[i]) <==> |queue| - i + CountEntrants(queue, ops) <= MAX_SIZE
    decreases |ops|
  {
    if ops != [] {
      var next := Enter(queue, ops[0]);
      if !Enters(queue, ops[0]) {
        EvictedExactly(queue, ops[1..], i);
      } else {
        EnterShifts(queue, ops[0]);
        hide Enter, NoDuplicates;
        if |queue| < MAX_SIZE {
          EvictedExactly(next, ops[1..], i);
        } else if i > 0 {
          EvictedExactly(next, ops[1..], i - 1);
        }
      }
    }
  }

  /** A new entry pushes out the oldest one when the queue is full. */
  lemma {:induction false} EnterShifts(queue: seq<string>, op: Op)
    requires 0 < |queue| <= MAX_SIZE && NoDuplicates(queue) && Enters(queue, op)
    ensures var next := Enter(queue, op);
            && NoDuplicates(next)
            && (if |queue| < MAX_SIZE then next == queue + [ClearedAccountOf(op).value]
                else next == queue[1..] + [ClearedAccountOf(op).value] && queue[0] !in next)
  {
    var log := queue + [ClearedAccountOf(op).value];
    assert log[1..] == queue[1..] + [ClearedAccountOf(op).value];
  }

  /**
   A write that carries a revision read before a clear, over every run. It is refused, and changes
   nothing, if and only if the revision is another one by then. While the account's entry stays, that
   is so unless the clears wrap the counter around. Once the entry has been evicted, it is so unless
   the clears since the entry came back, if it did, add up to the old revision.
   */
  lemma {:induction false} StaleWriteRefused(s: Cache, clear: Op, ops: seq<Op>, key: Key, e: Endpoint, until: int)
    requires Inv(s) && Clears(clear, key.account)
    ensures var a, stale, s1 := key.account, Revision(s, key.account), Apply(s, clear);
            var now := Run(s1, ops);
            && (Revision(now, a) != stale <==>
                  if StaysQueued(s1.revisionOrder, ops, a) then (1 + CountClears(ops, a)) % WRAP != 0
                  else SinceEntry(s1.revisionOrder, ops, a, 0) % WRAP != stale)
            && (Revision(now, a) != stale ==>
                  Apply(now, SucceededAt(key, e, stale)) == now && Apply(now, FailedAt(key, e, until, stale)) == now)
            && (Revision(now, a) == stale ==>
                  && Apply(now, SucceededAt(key, e, stale)) == MarkSuccess(now, key, e)
                  && Apply(now, FailedAt(key, e, until, stale)) == MarkDisabled(now, key, e, until))
  {
    hide Run, Inv, BumpRevision, RemoveFailures, RemovePreferred, MarkSuccess, MarkDisabled, CountClears, SinceEntry, StaysQueued, Enter;
    var a, s1 := key.account, Apply(s, clear);
    var stale := Revision(s, a);
    ClearCreates(s, clear, a);
    RevisionStep(s, clear, a);
    StepKept(s, clear);
    NextModulo(stale);
    RevisionIsSinceEntry(s1, ops, a, stale + 1);
    if StaysQueued(s1.revisionOrder, ops, a) {
      StayingCounts(s1.revisionOrder, ops, a, stale + 1);
      RoundTrip(stale, 1 + CountClears(ops, a));
    } else {
      LeavingForgets(s1.revisionOrder, ops, a, stale + 1, 0);
    }
  }

  /** A clear leaves its account with an entry, among at most 500. */
  lemma {:induction false} ClearCreates(s: Cache, clear: Op, account: string)
    requires Inv(s) && Clears(clear, account)
    ensures account in Enter(s.revisionOrder, clear)
    ensures Apply(s, clear).revisionOrder == Enter(s.revisionOrder, clear)
    ensures Revision(s, account) < WRAP
  {
    EnterStep(s, clear);
    EntriesListed(s);
    hide Apply, Inv;
  }

  lemma RoundTrip(r: nat, n: nat)
    requires r < WRAP
    ensures (r + n) % WRAP == r <==> n % WRAP == 0
  {
    var q, m := n / WRAP, n % WRAP;
    assert n == q * WRAP + m;
    if r + m < WRAP {
      assert (r + n) % WRAP == r + m by { assert r + n == q * WRAP + (r + m); }
    } else {
      assert (r + n) % WRAP == r + m - WRAP by { assert r + n == (q + 1) * WRAP + (r + m - WRAP); }
    }
  }

  lemma {:induction false} EnterLast(queue: seq<string>, clear: Op, account: string)
    requires Clears(clear, account) && account !in queue
    ensures var next := Enter(queue, clear); next != [] && next[|next| - 1] == account
  {
  }

  /**
   An account whose first clear has just created its entry keeps it exactly until the 500th other
   account enters.
   */
  lemma {:induction false} EntryLastsFor500(s: Cache, clear: Op, ops: seq<Op>, account: string)
    requires Inv(s) && Clears(clear, account) && account !in s.revisions
    ensures var queue := Apply(s, clear).revisionOrder;
            StaysQueued(queue, ops, account) <==> CountEntrants(queue, ops) < MAX_SIZE
  {
    hide Apply, Inv, StaysQueued, CountEntrants, NoDuplicates, Revision, Enter;
    EntriesListed(s);
    EnterLast(s.revisionOrder, clear, account);
    EnterStep(s, clear);
    StepKept(s, clear);
    EntriesListed(Apply(s, clear));
    var queue := Apply(s, clear).revisionOrder;
    EvictedExactly(queue, ops, |queue| - 1);
  }

  lemma {:induction false} EvictedHasNoRevision(s: Cache, newcomer: string, account: string)
    requires Inv(s) && |s.revisions| == MAX_SIZE && s.revisionOrder[0] == account && newcomer !in s.revisions
    ensures Revision(Apply(s, ClearedFailures(newcomer)), account) == 0
  {
    hide Apply, Inv, Enter;
    EntriesListed(s);
    RevisionStep(s, ClearedFailures(newcomer), account);
    EnterShifts(s.revisionOrder, ClearedFailures(newcomer));
  }

  /** Right after its eviction an account has revision 0: a stale write is accepted exactly when it carries that. */
  lemma {:induction false} EvictionReadmitsStaleWrite(s: Cache, newcomer: string, key: Key, e: Endpoint, stale: nat)
    requires Inv(s) && |s.revisions| == MAX_SIZE && s.revisionOrder[0] == key.account && newcomer !in s.revisions
    ensures var t := Apply(s, ClearedFailures(newcomer));
            Apply(t, SucceededAt(key, e, stale)) == if stale == 0 then MarkSuccess(t, key, e) else t
  {
    hide Inv, MarkSuccess, ClearFailures, Revision;
    EvictedHasNoRevision(s, newcomer, key.account);
  }

  // ---------------------------------------------------------------- choosing endpoints

  datatype AuthMethod = Idc | Social | ApiKey

  function InferredEndpoint(auth: AuthMethod): Endpoint {
    match auth
    case Idc => Amazonq
    case Social => Codewhisperer
    case ApiKey => Runtime
  }

  function OtherEndpoint(e: Endpoint): Endpoint {
    match e
    case Codewhisperer => Amazonq
    case Amazonq => Codewhisperer
    case Runtime => Amazonq
  }

  /** A failure of `e` that has not expired. */
  predicate FailsNow(s: Cache, key: Key, e: Endpoint, now: int) {
    key in s.disabled && e in s.disabled[key] && s.disabled[key][e] > now
  }

  /** Dropping an expired failure changes no answer. */
  lemma {:induction false} ExpiredFailuresDoNotCount(s: Cache, key: Key, e: Endpoint, now: int)
    requires !FailsNow(s, key, e, now)
    ensures forall x :: FailsNow(ClearFailure(s, key, e), key, x, now) == FailsNow(s, key, x, now)
  {
    forall x ensures FailsNow(ClearFailure(s, key, e), key, x, now) == FailsNow(s, key, x, now) {
      if key in s.disabled && x != e {
        assert x in s.disabled[key] <==> x in s.disabled[key] - {e};
      }
    }
  }

  /** Endpoints an account may be sent to: keys and government accounts stay on the CLI runtime. */
  function Candidates(s: Cache, key: Key, auth: AuthMethod, government: bool, explicit: Option<Endpoint>): seq<Endpoint> {
    var inferred := InferredEndpoint(auth);
    if auth == ApiKey || government then [Runtime]
    else if explicit.Some? then [explicit.value, inferred, OtherEndpoint(inferred)]
    else if key in s.preferred then [s.preferred[key], inferred, OtherEndpoint(inferred)]
    else [inferred, OtherEndpoint(inferred)]
  }

  /** Where `e` first stands among the candidates. */
  function FirstAt(all: seq<Endpoint>, e: Endpoint): nat {
    if all == [] || all[0] == e then 0 else 1 + FirstAt(all[1..], e)
  }

  /** The order in which the candidates are first named. */
  predicate InCandidateOrder(all: seq<Endpoint>, order: seq<Endpoint>) {
    forall i, j :: 0 <= i < j < |order| ==> FirstAt(all, order[i]) < FirstAt(all, order[j])
  }

  lemma {:induction false} FirstAtBound(all: seq<Endpoint>, n: nat, e: Endpoint)
    requires n <= |all|
    ensures e in all[..n] <==> FirstAt(all, e) < n
  {
    if n > 0 && all[0] != e {
      FirstAtBound(all[1..], n - 1, e);
      assert all[..n] == [all[0]] + all[1..][..n - 1];
    }
  }

  /** A candidate not named before goes behind those that were. */
  lemma {:induction false} NewCandidate(all: seq<Endpoint>, n: nat, order: seq<Endpoint>)
    requires n < |all| && InCandidateOrder(all, order)
    requires all[n] !in all[..n] && forall e :: e in order ==> e in all[..n]
    ensures InCandidateOrder(all, order + [all[n]])
  {
    FirstAtBound(all, n, all[n]);
    forall i | 0 <= i < |order| ensures FirstAt(all, order[i]) < n { FirstAtBound(all, n, order[i]); }
    hide FirstAt;
  }

  lemma {:induction false} FirstCandidateFirst(all: seq<Endpoint>, order: seq<Endpoint>)
    requires all != [] && InCandidateOrder(all, order)
    ensures NoDuplicates(order)
    ensures all[0] in order ==> order[0] == all[0]
  {
    forall i, j | 0 <= i < j < |order| ensures order[i] != order[j] {
      assert FirstAt(all, order[i]) < FirstAt(all, order[j]);
    }
    assert FirstAt(all, all[0]) == 0;
  }

  class EndpointCacheState {
    var preferred: map<Key, Endpoint>
    var preferredOrder: seq<Key>
    var disabled: map<Key, map<Endpoint, int>>
    var disabledOrder: seq<Key>
    var revisions: map<string, nat>
    var revisionOrder: seq<string>
    const disabledTtl: nat

    constructor (ttl: nat)
      ensures Value() == EMPTY && disabledTtl == ttl
    {
      preferred, preferredOrder, disabled, disabledOrder := map[], [], map[], [];
      revisions, revisionOrder := map[], [];
      disabledTtl := ttl;
    }

    ghost function Value(): Cache
      reads this
    {
      Cache(preferred, preferredOrder, disabled, disabledOrder, revisions, revisionOrder)
    }

    method ClearEndpointFailure(key: Key, e: Endpoint)
      modifies this
      ensures Value() == ClearFailure(old(Value()), key, e)
    {
      if key in disabled {
        var failures := disabled[key] - {e};
        if failures == map[] {
          disabled := disabled - {key};
          disabledOrder := Drop(disabledOrder, key);
        } else {
          disabled := disabled[key := failures];
        }
      }
    }

    method MarkSucceeded(key: Key, e: Endpoint)
      modifies this
      ensures Value() == MarkSuccess(old(Value()), key, e)
    {
      ClearEndpointFailure(key, e);
      if key !in preferred && |preferred| >= MAX_SIZE && preferredOrder != [] {
        preferred := preferred - {preferredOrder[0]};
        preferredOrder := preferredOrder[1..];
      }
      preferredOrder := Drop(preferredOrder, key) + [key];
      preferred := preferred[key := e];
    }

    method MarkSucceededIfRevision(key: Key, e: Endpoint, expected: nat) returns (written: bool)
      modifies this
      ensures Value() == Apply(old(Value()), SucceededAt(key, e, expected))
      ensures written == (Revision(old(Value()), key.account) == expected)
    {
      var current := if key.account in revisions then revisions[key.account] else 0;
      if current != expected {
        return false;
      }
      MarkSucceeded(key, e);
      written := true;
    }

    method MarkFailed(key: Key, e: Endpoint, now: int)
      modifies this
      ensures Value() == MarkDisabled(old(Value()), key, e, now + disabledTtl)
    {
      if key !in disabled && |disabled| >= MAX_SIZE && disabledOrder != [] {
        disabled := disabled - {disabledOrder[0]};
        disabledOrder := disabledOrder[1..];
      }
      disabledOrder := Drop(disabledOrder, key) + [key];
      var failures := if key in disabled then disabled[key] else map[];
      disabled := disabled[key := failures[e := now + disabledTtl]];
      if key in preferred && preferred[key] == e {
        preferred := preferred - {key};
        preferredOrder := Drop(preferredOrder, key);
      }
    }

    method MarkFailedIfRevision(key: Key, e: Endpoint, now: int, expected: nat) returns (written: bool)
      modifies this
      ensures Value() == Apply(old(Value()), FailedAt(key, e, now + disabledTtl, expected))
      ensures written == (Revision(old(Value()), key.account) == expected)
    {
      var current := if key.account in revisions then revisions[key.account] else 0;
      if current != expected {
        return false;
      }
      MarkFailed(key, e, now);
      written := true;
    }

    method Bump(account: string)
      modifies this
      ensures Value() == BumpRevision(old(Value()), account)
    {
      if account !in revisions {
        if |revisions| >= MAX_SIZE && revisionOrder != [] {
          revisions := revisions - {revisionOrder[0]};
          revisionOrder := revisionOrder[1..];
        }
        revisionOrder := revisionOrder + [account];
      }
      var revision := if account in revisions then revisions[account] else 0;
      revisions := revisions[account := (revision + 1) % WRAP];
    }

    method ClearFailuresOf(account: string)
      modifies this
      ensures Value() == ClearFailures(old(Value()), account)
    {
      Bump(account);
      disabled := map k | k in disabled && k.account != account :: disabled[k];
      disabledOrder := DropAccount(disabledOrder, account);
    }

    method Clear(account: string)
      modifies this
      ensures Value() == ClearAccount(old(Value()), account)
    {
      Bump(account);
      preferred := map k | k in preferred && k.account != account :: preferred[k];
      preferredOrder := DropAccount(preferredOrder, account);
      disabled := map k | k in disabled && k.account != account :: disabled[k];
      disabledOrder := DropAccount(disabledOrder, account);
    }

    /**
     `order`: the endpoints to try. Exactly the candidates whose failure has not expired, each once,
     in candidate order.
     */
    method Order(key: Key, auth: AuthMethod, government: bool, explicit: Option<Endpoint>, now: int) returns (order: seq<Endpoint>)
      modifies this
      ensures var all := Candidates(old(Value()), key, auth, government, explicit);
              && (forall e :: e in order <==> e in all && !FailsNow(old(Value()), key, e, now))
              && InCandidateOrder(all, order) && NoDuplicates(order)
              && (!FailsNow(old(Value()), key, all[0], now) ==> order != [] && order[0] == all[0])
      ensures old(Inv(Value())) ==> Inv(Value())
      ensures preferred == old(preferred) && preferredOrder == old(preferredOrder)
    {
      var all := if auth == ApiKey || government then [Runtime]
                 else if explicit.Some? then [explicit.value, InferredEndpoint(auth), OtherEndpoint(InferredEndpoint(auth))]
                 else if key in preferred then [preferred[key], InferredEndpoint(auth), OtherEndpoint(InferredEndpoint(auth))]
                 else [InferredEndpoint(auth), OtherEndpoint(InferredEndpoint(auth))];
      order := OrderCandidates(key, all, now);
    }

    /** The loop of `order` over its candidates. */
    method OrderCandidates(key: Key, all: seq<Endpoint>, now: int) returns (order: seq<Endpoint>)
      requires all != []
      modifies this
      ensures forall e :: e in order <==> e in all && !FailsNow(old(Value()), key, e, now)
      ensures InCandidateOrder(all, order) && NoDuplicates(order)
      ensures !FailsNow(old(Value()), key, all[0], now) ==> order != [] && order[0] == all[0]
      ensures old(Inv(Value())) ==> Inv(Value())
      ensures preferred == old(preferred) && preferredOrder == old(preferredOrder)
    {
      hide Inv, FailsNow, IsDisabled;
      order := [];
      for i := 0 to |all|
        invariant forall e :: e in order <==> e in all[..i] && !FailsNow(old(Value()), key, e, now)
        invariant InCandidateOrder(all, order)
        invariant forall e :: FailsNow(Value(), key, e, now) == FailsNow(old(Value()), key, e, now)
        invariant old(Inv(Value())) ==> Inv(Value())
        invariant preferred == old(preferred) && preferredOrder == old(preferredOrder)
      {
        assert all[..i + 1] == all[..i] + [all[i]];
        if all[i] !in order {
          var failing := CheckFailing(key, all[i], now);
          if !failing {
            NewCandidate(all, i, order);
            order := order + [all[i]];
          }
        }
      }
      assert all[..|all|] == all;
      FirstCandidateFirst(all, order);
    }

    /** `is_disabled`: an expired failure is dropped, nothing else changes. */
    method CheckFailing(key: Key, e: Endpoint, now: int) returns (failing: bool)
      modifies this
      ensures (failing, Value()) == IsDisabled(old(Value()), key, e, now)
      ensures failing == FailsNow(old(Value()), key, e, now)
      ensures forall x :: FailsNow(Value(), key, x, now) == FailsNow(old(Value()), key, x, now)
      ensures old(Inv(Value())) ==> Inv(Value())
      ensures preferred == old(preferred) && preferredOrder == old(preferredOrder)
    {
      hide Inv, Drop;
      if key in disabled && e in disabled[key] {
        if disabled[key][e] > now {
          return true;
        }
        if Inv(Value()) {
          ClearFailureKept(Value(), key, e);
        }
        ExpiredFailuresDoNotCount(Value(), key, e, now);
        ClearEndpointFailure(key, e);
      }
      failing := false;
    }
  }
}
