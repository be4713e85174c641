/**
 Model of the account store (crates/kproxy-store/src/accounts.rs): an in-memory account list with
 a map of unsaved changes, persisted as a base file and one delta file per changed account.

 The disk is the base list plus a map from delta file names to deltas. One atomic write or one
 removal is one `FileOp`; a save is a list of them, and it may stop after any prefix.
 */
module AccountStore {
  import opened Wrappers

  /** `identity` is the trimmed upstream user id, empty when there is none. */
  datatype Account = Account(id: string, email: string, identity: string, data: string)

  datatype Delta = Delta(id: string, account: Option<Account>)

  datatype Disk = Disk(base: Option<seq<Account>>, deltas: map<string, Delta>)

  datatype Settings = Settings(compressionThreshold: nat, incrementalWrite: bool)

  datatype Store = Store(accounts: seq<Account>, dirty: map<string, Option<Account>>)

  // ---------------------------------------------------------------- lookup

  predicate DistinctIds(accounts: seq<Account>) {
    forall i, j :: 0 <= i < j < |accounts| ==> accounts[i].id != accounts[j].id
  }

  /** The account list read as a map by id. */
  function Lookup(accounts: seq<Account>, id: string): (r: Option<Account>)
    ensures r.Some? ==> r.value in accounts && r.value.id == id
    ensures r.None? ==> forall i :: 0 <= i < |accounts| ==> accounts[i].id != id
  {
    if accounts == [] then None
    else if accounts[0].id == id then Some(accounts[0])
    else Lookup(accounts[1..], id)
  }

  lemma LookupAt(accounts: seq<Account>, i: nat)
    requires DistinctIds(accounts) && i < |accounts|
    ensures Lookup(accounts, accounts[i].id) == Some(accounts[i])
  {
    assert Lookup(accounts, accounts[i].id).Some?;
  }

  /** Two lists with the same members and distinct ids are the same map. */
  lemma SameMembersSameLookup(a: seq<Account>, b: seq<Account>, id: string)
    requires DistinctIds(a) && DistinctIds(b)
    requires forall x: Account :: x.id == id ==> (x in a <==> x in b)
    ensures Lookup(a, id) == Lookup(b, id)
  {
    var x := Lookup(a, id);
    if x.Some? {
      var j :| 0 <= j < |b| && b[j] == x.value;
      LookupAt(b, j);
    }
  }

  // ---------------------------------------------------------------- disk

  predicate SafeChar(c: char) {
    'a' <= c <= 'z' || 'A' <= c <= 'Z' || '0' <= c <= '9' || c == '-' || c == '_'
  }

  function SafeName(id: string): string {
    if id == "" then "" else [if SafeChar(id[0]) then id[0] else '_'] + SafeName(id[1..])
  }

  function DeltaFileName(id: string): string {
    SafeName(id) + ".json"
  }

  /** Every delta lies in the file its id names, and a base file exists before any delta does. */
  ghost predicate ValidDisk(disk: Disk) {
    && (forall f :: f in disk.deltas ==>
          && f == DeltaFileName(disk.deltas[f].id)
          && (disk.deltas[f].account.Some? ==> disk.deltas[f].account.value.id == disk.deltas[f].id))
    && (disk.base.Some? ==> DistinctIds(disk.base.value))
    && (disk.base.None? ==> disk.deltas == map[])
  }

  function BaseLookup(disk: Disk, id: string): Option<Account> {
    if disk.base.None? then None else Lookup(disk.base.value, id)
  }

  /** What the files say about one account: its delta if it has one, else the base. */
  function Persisted(disk: Disk, id: string): Option<Account> {
    var f := DeltaFileName(id);
    if f in disk.deltas && disk.deltas[f].id == id then disk.deltas[f].account
    else BaseLookup(disk, id)
  }

  ghost predicate IsEnumeration(order: seq<string>, s: set<string>) {
    && (forall i, j :: 0 <= i < j < |order| ==> order[i] != order[j])
    && (forall x :: x in order <==> x in s)
  }

  function Without(accounts: seq<Account>, id: string): (r: seq<Account>)
    ensures forall x: Account :: x in r <==> x in accounts && x.id != id
    ensures DistinctIds(accounts) ==> DistinctIds(r)
  {
    if accounts == [] then []
    else if accounts[0].id == id then Without(accounts[1..], id)
    else
      assert forall x :: x in accounts <==> x == accounts[0] || x in accounts[1..];
      [accounts[0]] + Without(accounts[1..], id)
  }

  /** `apply_deltas` for one delta file. */
  function ApplyDelta(accounts: seq<Account>, delta: Delta): seq<Account> {
    Without(accounts, delta.id) + if delta.account.Some? then [delta.account.value] else []
  }

  lemma AppliedDelta(accounts: seq<Account>, delta: Delta, id: string)
    requires DistinctIds(accounts)
    requires delta.account.Some? ==> delta.account.value.id == delta.id
    ensures DistinctIds(ApplyDelta(accounts, delta))
    ensures Lookup(ApplyDelta(accounts, delta), id) == if id == delta.id then delta.account else Lookup(accounts, id)
  {
    var rest, next := Without(accounts, delta.id), ApplyDelta(accounts, delta);
    forall i, j | 0 <= i < j < |next| ensures next[i].id != next[j].id {
      if j == |rest| { assert next[i] == rest[i] && rest[i] in rest; }
    }
    if id == delta.id {
      if delta.account.Some? {
        LookupAt(next, |rest|);
      }
    } else {
      SameMembersSameLookup(next, accounts, id);
    }
  }

  /** `accounts` is the base list with the first `k` delta files applied. */
  ghost predicate LoadedUpTo(disk: Disk, order: seq<string>, k: nat, accounts: seq<Account>) {
    && k <= |order| && DistinctIds(accounts)
    && forall id :: Lookup(accounts, id) ==
         if DeltaFileName(id) in order[..k] then Persisted(disk, id) else BaseLookup(disk, id)
  }

  lemma {:induction false} LoadStep(disk: Disk, order: seq<string>, k: nat, accounts: seq<Account>)
    requires ValidDisk(disk) && IsEnumeration(order, disk.deltas.Keys) && LoadedUpTo(disk, order, k, accounts) && k < |order|
    ensures order[k] in disk.deltas
    ensures LoadedUpTo(disk, order, k + 1, ApplyDelta(accounts, disk.deltas[order[k]]))
  {
    hide Lookup, ApplyDelta, DistinctIds, DeltaFileName;
    assert order[k] in disk.deltas;
    var delta := disk.deltas[order[k]];
    assert order[..k + 1] == order[..k] + [order[k]];
    AppliedDelta(accounts, delta, "");
    forall id
      ensures Lookup(ApplyDelta(accounts, delta), id) ==
              if DeltaFileName(id) in order[..k + 1] then Persisted(disk, id) else BaseLookup(disk, id)
    {
      AppliedDelta(accounts, delta, id);
    }
  }

  /** `load`: the base list with every delta file applied, in the order the directory lists them. */
  method Load(disk: Disk, order: seq<string>) returns (accounts: seq<Account>)
    requires ValidDisk(disk) && IsEnumeration(order, disk.deltas.Keys)
    ensures DistinctIds(accounts)
    ensures forall id :: Lookup(accounts, id) == Persisted(disk, id)
  {
    if disk.base.None? {
      return [];
    }
    accounts := disk.base.value;
    for k := 0 to |order|
      invariant LoadedUpTo(disk, order, k, accounts)
    {
      hide LoadedUpTo, ApplyDelta;
      LoadStep(disk, order, k, accounts);
      accounts := ApplyDelta(accounts, disk.deltas[order[k]]);
    }
    assert order[..|order|] == order;
  }

  // ---------------------------------------------------------------- saving

  datatype FileOp =
    | PutBase(accounts: seq<Account>)
    | PutDelta(id: string, account: Option<Account>)
    | DropDelta(file: string)

  function ApplyOp(disk: Disk, op: FileOp): Disk {
    match op
    case PutBase(accounts) => disk.(base := Some(accounts))
    case PutDelta(id, account) => disk.(deltas := disk.deltas[DeltaFileName(id) := Delta(id, account)])
    case DropDelta(file) => disk.(deltas := disk.deltas - {file})
  }

  function ApplyOps(disk: Disk, ops: seq<FileOp>): Disk {
    if ops == [] then disk else ApplyOp(ApplyOps(disk, ops[..|ops| - 1]), ops[|ops| - 1])
  }

  /** `save` has nothing to do. */
  predicate NothingToSave(s: Store, disk: Disk, settings: Settings) {
    settings.incrementalWrite && disk.base.Some? && s.dirty == map[]
  }

  /** `save` writes delta files instead of a new base. `marked`: the base file reads as compressed. */
  predicate SavesDeltas(s: Store, disk: Disk, settings: Settings, marked: bool) {
    && settings.incrementalWrite
    && |s.accounts| > settings.compressionThreshold
    && disk.base.Some?
    && marked
    && s.dirty != map[]
    && |s.dirty| < if settings.compressionThreshold > 1 then settings.compressionThreshold else 1
  }

  function DeltaOps(dirty: map<string, Option<Account>>, order: seq<string>): seq<FileOp>
    requires forall id :: id in order ==> id in dirty
  {
    seq(|order|, i requires 0 <= i < |order| => PutDelta(order[i], dirty[order[i]]))
  }

  function DropOps(entries: seq<string>): seq<FileOp> {
    seq(|entries|, i requires 0 <= i < |entries| => DropDelta(entries[i]))
  }

  /**
   The file operations of one save. `order` lists the dirty ids as the map iterates over them and
   `entries` the delta files as the directory does.
   */
  function SavePlan(s: Store, disk: Disk, settings: Settings, marked: bool, order: seq<string>, entries: seq<string>): seq<FileOp>
    requires IsEnumeration(order, s.dirty.Keys)
  {
    if NothingToSave(s, disk, settings) then []
    else if SavesDeltas(s, disk, settings, marked) then DeltaOps(s.dirty, order)
    else [PutBase(s.accounts)] + DropOps(entries)
  }

  // ---------------------------------------------------------------- agreement

  /**
   Memory and disk agree: an unsaved change holds the in-memory value, and every other account has
   the same value in memory and on disk.
   */
  ghost predicate Agrees(s: Store, disk: Disk) {
    && ValidDisk(disk)
    && DistinctIds(s.accounts)
    && (forall id :: id in s.dirty ==> s.dirty[id] == Lookup(s.accounts, id))
    && (forall id :: id !in s.dirty ==> Lookup(s.accounts, id) == Persisted(disk, id))
  }

  /** No two of the ids about to be written, or already written, share a delta file. */
  predicate NoCollision(dirty: map<string, Option<Account>>, disk: Disk) {
    && (forall a, b :: a in dirty && b in dirty && DeltaFileName(a) == DeltaFileName(b) ==> a == b)
    && (forall a :: a in dirty && DeltaFileName(a) in disk.deltas ==> disk.deltas[DeltaFileName(a)].id == a)
  }

  /** The id whose delta ends up in file `f` once the first `k` ids of `order` are written. */
  function LastWriter(order: seq<string>, k: nat, f: string): (w: Option<string>)
    requires k <= |order|
    ensures w.Some? ==> w.value in order[..k] && DeltaFileName(w.value) == f
    ensures w.None? ==> forall i :: 0 <= i < k ==> DeltaFileName(order[i]) != f
  {
    if k == 0 then None
    else if DeltaFileName(order[k - 1]) == f then Some(order[k - 1])
    else
      assert order[..k] == order[..k - 1] + [order[k - 1]];
      LastWriter(order, k - 1, f)
  }

  lemma {:induction false} DeltaFilesAfter(dirty: map<string, Option<Account>>, disk: Disk, order: seq<string>, k: nat)
    requires (forall id :: id in order ==> id in dirty) && k <= |order|
    ensures var d := ApplyOps(disk, DeltaOps(dirty, order)[..k]);
            && d.base == disk.base
            && forall f :: match LastWriter(order, k, f)
                           case None => (f in d.deltas <==> f in disk.deltas) && (f in d.deltas ==> d.deltas[f] == disk.deltas[f])
                           case Some(w) => w in dirty && f in d.deltas && d.deltas[f] == Delta(w, dirty[w])
  {
    var ops := DeltaOps(dirty, order);
    if k > 0 {
      assert ops[..k][..k - 1] == ops[..k - 1];
      DeltaFilesAfter(dirty, disk, order, k - 1);
    }
  }

  /** Exactly what the disk holds after the first `k` delta files have been written. */
  lemma {:induction false} AfterDeltas(s: Store, disk: Disk, order: seq<string>, k: nat)
    requires Agrees(s, disk) && disk.base.Some?
    requires IsEnumeration(order, s.dirty.Keys) && k <= |order|
    ensures var d := ApplyOps(disk, DeltaOps(s.dirty, order)[..k]);
            && d.base == disk.base
            && ValidDisk(d)
            && forall id :: Persisted(d, id) ==
                            match LastWriter(order, k, DeltaFileName(id))
                            case None => Persisted(disk, id)
                            case Some(w) => if w == id then Lookup(s.accounts, id) else BaseLookup(disk, id)
  {
    hide ApplyOps, DeltaFileName;
    DeltaFilesAfter(s.dirty, disk, order, k);
    var d := ApplyOps(disk, DeltaOps(s.dirty, order)[..k]);
    forall f | f in d.deltas
      ensures f == DeltaFileName(d.deltas[f].id)
      ensures d.deltas[f].account.Some? ==> d.deltas[f].account.value.id == d.deltas[f].id
    {
      assert LastWriter(order, k, f).None? || LastWriter(order, k, f).Some?;
    }
  }

  lemma SoleWriter(s: Store, disk: Disk, order: seq<string>, k: nat, id: string)
    requires IsEnumeration(order, s.dirty.Keys) && k <= |order| && NoCollision(s.dirty, disk)
    requires LastWriter(order, k, DeltaFileName(id)).Some? && id in s.dirty
    ensures LastWriter(order, k, DeltaFileName(id)) == Some(id)
  {
    var w := LastWriter(order, k, DeltaFileName(id)).value;
    assert w in order;
  }

  /** An id nobody is writing keeps its value even when it shares a file name with one that is written. */
  lemma CleanKeepsValue(s: Store, disk: Disk, order: seq<string>, k: nat, id: string)
    requires Agrees(s, disk) && IsEnumeration(order, s.dirty.Keys) && k <= |order| && NoCollision(s.dirty, disk)
    requires id !in s.dirty && LastWriter(order, k, DeltaFileName(id)).Some?
    ensures LastWriter(order, k, DeltaFileName(id)).value != id
    ensures BaseLookup(disk, id) == Persisted(disk, id)
  {
    var w := LastWriter(order, k, DeltaFileName(id)).value;
    assert w in order;
  }

  /** After `k` delta files, the file that belongs to `id` was written last by another id. */
  predicate Displaced(order: seq<string>, k: nat, id: string) {
    && k <= |order|
    && LastWriter(order, k, DeltaFileName(id)).Some? && LastWriter(order, k, DeltaFileName(id)).value != id
  }

  lemma {:induction false} WritersOf(order: seq<string>, k: nat, id: string)
    requires k <= |order|
    ensures var w := LastWriter(order, k, DeltaFileName(id));
            (w == Some(id) ==> id in order) && (k == |order| && id in order ==> w.Some?)
  {
  }

  /**
   A save that stops after any number of delta files leaves an account with its old persisted value or
   its new one; where another id has taken its file, if and only if that is what the base says of it.
   */
  lemma {:induction false} DeltaSaveIsCrashSafe(s: Store, disk: Disk, order: seq<string>, k: nat, id: string)
    requires Agrees(s, disk) && disk.base.Some?
    requires IsEnumeration(order, s.dirty.Keys) && k <= |order|
    ensures var d, before, after := ApplyOps(disk, DeltaOps(s.dirty, order)[..k]), Persisted(disk, id), Lookup(s.accounts, id);
            var displaced, base := Displaced(order, k, id), BaseLookup(disk, id);
            && ValidDisk(d)
            && (Persisted(d, id) == before || Persisted(d, id) == after <==> (displaced ==> base == before || base == after))
            && (id !in s.dirty ==> (Persisted(d, id) == before <==> (displaced ==> base == before)))
            && (k == |order| ==> (Persisted(d, id) == after <==> (displaced ==> base == after)))
  {
    AfterDeltas(s, disk, order, k);
    hide ApplyOps, LastWriter, DeltaFileName, Lookup;
    WritersOf(order, k, id);
    assert id in order <==> id in s.dirty;
  }

  /** What the disk holds while a rewrite clears the delta files, ... */
  lemma {:induction false} FilesAfterRewrite(s: Store, disk: Disk, entries: seq<string>, k: nat)
    requires k <= |entries|
    ensures var d := ApplyOps(disk, ([PutBase(s.accounts)] + DropOps(entries))[..k + 1]);
            d == Disk(Some(s.accounts), disk.deltas - (set f | f in entries[..k]))
  {
    var ops := [PutBase(s.accounts)] + DropOps(entries);
    assert ops[..k + 1][..k] == ops[..k];
    if k == 0 {
      assert ops[..0] == [];
      assert ops[..1][0] == PutBase(s.accounts);
    } else {
      FilesAfterRewrite(s, disk, entries, k - 1);
      assert ops[k] == DropDelta(entries[k - 1]);
      assert entries[..k] == entries[..k - 1] + [entries[k - 1]];
    }
  }

  /** ... which is a valid disk all along. */
  lemma {:induction false} AfterRewrite(s: Store, disk: Disk, entries: seq<string>, k: nat)
    requires ValidDisk(disk) && DistinctIds(s.accounts)
    requires IsEnumeration(entries, disk.deltas.Keys) && k <= |entries|
    ensures var d := ApplyOps(disk, ([PutBase(s.accounts)] + DropOps(entries))[..k + 1]);
            && d.base == Some(s.accounts)
            && d.deltas == disk.deltas - (set f | f in entries[..k])
            && ValidDisk(d)
  {
    FilesAfterRewrite(s, disk, entries, k);
    hide ApplyOps, DropOps;
  }

  /** The same for a rewrite: a stale delta that survives a crash still holds the old value. */
  lemma {:induction false} RewriteIsCrashSafe(s: Store, disk: Disk, entries: seq<string>, k: nat, id: string)
    requires Agrees(s, disk)
    requires IsEnumeration(entries, disk.deltas.Keys) && k <= 1 + |entries|
    ensures var d := ApplyOps(disk, ([PutBase(s.accounts)] + DropOps(entries))[..k]);
            && (Persisted(d, id) == Persisted(disk, id) || Persisted(d, id) == Lookup(s.accounts, id))
            && (id !in s.dirty ==> Persisted(d, id) == Persisted(disk, id))
            && (k == 1 + |entries| ==> Persisted(d, id) == Lookup(s.accounts, id))
            && ValidDisk(d)
  {
    if k > 0 {
      AfterRewrite(s, disk, entries, k - 1);
      assert k == 1 + |entries| ==> entries[..k - 1] == entries;
    }
  }

  /** A save that takes the delta path displaces `id` from its file. */
  predicate SaveDisplaces(s: Store, disk: Disk, settings: Settings, marked: bool, order: seq<string>, k: nat, id: string) {
    SavesDeltas(s, disk, settings, marked) && Displaced(order, k, id)
  }

  /**
   Crash safety of `save` as a whole, exactly. Stopped between any two file operations, it leaves an
   account with its old or its new value, and completed with its new value; for an account that the
   delta path displaces, if and only if that is what the base file says of it.
   */
  lemma {:induction false} SaveIsCrashSafe(s: Store, disk: Disk, settings: Settings, marked: bool,
                                           order: seq<string>, entries: seq<string>, k: nat, id: string)
    requires Agrees(s, disk)
    requires IsEnumeration(order, s.dirty.Keys) && IsEnumeration(entries, disk.deltas.Keys)
    requires k <= |SavePlan(s, disk, settings, marked, order, entries)|
    ensures var plan := SavePlan(s, disk, settings, marked, order, entries);
            var d, before, after := ApplyOps(disk, plan[..k]), Persisted(disk, id), Lookup(s.accounts, id);
            var displaced, base := SaveDisplaces(s, disk, settings, marked, order, k, id), BaseLookup(disk, id);
            && ValidDisk(d)
            && (Persisted(d, id) == before || Persisted(d, id) == after <==> (displaced ==> base == before || base == after))
            && (id !in s.dirty ==> (Persisted(d, id) == before <==> (displaced ==> base == before)))
            && (k == |plan| ==> (Persisted(d, id) == after <==> (displaced ==> base == after)))
  {
    if NothingToSave(s, disk, settings) {
    } else if SavesDeltas(s, disk, settings, marked) {
      DeltaSaveIsCrashSafe(s, disk, order, k, id);
    } else {
      RewriteIsCrashSafe(s, disk, entries, k, id);
    }
  }

  /** With distinct file names nothing is displaced, and `save` is crash safe for every account. */
  lemma {:induction false} DistinctNamesAreSafe(s: Store, disk: Disk, settings: Settings, marked: bool,
                                                order: seq<string>, entries: seq<string>, k: nat, id: string)
    requires Agrees(s, disk) && NoCollision(s.dirty, disk)
    requires IsEnumeration(order, s.dirty.Keys) && IsEnumeration(entries, disk.deltas.Keys)
    requires k <= |SavePlan(s, disk, settings, marked, order, entries)|
    ensures var plan := SavePlan(s, disk, settings, marked, order, entries);
            var d := ApplyOps(disk, plan[..k]);
            && ValidDisk(d)
            && (Persisted(d, id) == Persisted(disk, id) || Persisted(d, id) == Lookup(s.accounts, id))
            && (id !in s.dirty ==> Persisted(d, id) == Persisted(disk, id))
            && (k == |plan| ==> Persisted(d, id) == Lookup(s.accounts, id))
  {
    SaveIsCrashSafe(s, disk, settings, marked, order, entries, k, id);
    if SaveDisplaces(s, disk, settings, marked, order, k, id) {
      if id in s.dirty { SoleWriter(s, disk, order, k, id); } else { CleanKeepsValue(s, disk, order, k, id); }
    }
  }

  // ---------------------------------------------------------------- colliding file names

  /**
   Without the no-collision condition a completed delta save meets its promise exactly when every
   account pushed out of its delta file by another id already has its value in the base file.
   */
  lemma {:induction false} DeltaSaveWithCollisions(s: Store, disk: Disk, order: seq<string>)
    requires Agrees(s, disk) && disk.base.Some? && IsEnumeration(order, s.dirty.Keys)
    ensures var d := ApplyOps(disk, DeltaOps(s.dirty, order));
            (forall id :: Persisted(d, id) == Lookup(s.accounts, id)) <==>
            (forall id :: LastWriter(order, |order|, DeltaFileName(id)).Some?
                          && LastWriter(order, |order|, DeltaFileName(id)).value != id
                          ==> BaseLookup(disk, id) == Lookup(s.accounts, id))
  {
    var ops := DeltaOps(s.dirty, order);
    assert ops[..|order|] == ops;
    AfterDeltas(s, disk, order, |order|);
  }

  /** A stored list of accounts to which two have been added. */
  function WithTwoMore(rest: seq<Account>, a: Account, b: Account): Store {
    Insert(Insert(Store(rest, map[]), a), b)
  }

  /**
   Two new accounts whose ids share a delta file, added to a compressed base that is larger than the
   threshold: `save` takes the delta path, completes, and the account written first is lost.
   */
  lemma {:induction false} CollidingIdsLoseAnAccount(rest: seq<Account>, a: Account, b: Account, settings: Settings, order: seq<string>)
    requires DistinctIds(rest) && InsertCheck(rest, a).None? && InsertCheck(rest + [a], b).None?
    requires DeltaFileName(a.id) == DeltaFileName(b.id) && (order == [a.id, b.id] || order == [b.id, a.id])
    requires settings.incrementalWrite && 3 <= settings.compressionThreshold < |rest|
    ensures var s, disk := WithTwoMore(rest, a, b), Disk(Some(rest), map[]);
            && Agrees(s, disk) && SavesDeltas(s, disk, settings, true) && IsEnumeration(order, s.dirty.Keys)
            && Lookup(s.accounts, order[0]).Some?
            && Persisted(ApplyOps(disk, SavePlan(s, disk, settings, true, order, [])), order[0]) == None
  {
    hide Insert, Lookup, DeltaFileName, Agrees, InsertCheck, ApplyOps, Persisted, DistinctIds, WithTwoMore, LastWriter;
    var s, disk := WithTwoMore(rest, a, b), Disk(Some(rest), map[]);
    TwoAddedAgree(rest, a, b);
    TwoDirty(rest, a, b);
    assert order[0] in order && order[1] in order;
    SharedFileKeepsLast(s, disk, order);
    assert SavePlan(s, disk, settings, true, order, []) == DeltaOps(s.dirty, order);
  }

  lemma {:induction false} TwoAddedAgree(rest: seq<Account>, a: Account, b: Account)
    requires DistinctIds(rest) && InsertCheck(rest, a).None? && InsertCheck(rest + [a], b).None?
    ensures Agrees(WithTwoMore(rest, a, b), Disk(Some(rest), map[]))
    ensures Lookup(rest, a.id).None? && Lookup(rest, b.id).None?
    ensures Lookup(WithTwoMore(rest, a, b).accounts, a.id).Some? && Lookup(WithTwoMore(rest, a, b).accounts, b.id).Some?
  {
    var s0, disk := Store(rest, map[]), Disk(Some(rest), map[]);
    InsertKeepsAgreement(s0, disk, a);
    InsertKeepsAgreement(Insert(s0, a), disk, b);
    TwoDirty(rest, a, b);
    var all := WithTwoMore(rest, a, b).accounts;
    assert a in all && b in all;
    hide Agrees, Insert, InsertCheck;
  }

  /** Of two ids that share a file, the first one written has nothing left but its base value. */
  lemma {:induction false} SharedFileKeepsLast(s: Store, disk: Disk, order: seq<string>)
    requires Agrees(s, disk) && disk.base.Some? && IsEnumeration(order, s.dirty.Keys)
    requires |order| == 2 && DeltaFileName(order[0]) == DeltaFileName(order[1])
    ensures Persisted(ApplyOps(disk, DeltaOps(s.dirty, order)), order[0]) == BaseLookup(disk, order[0])
  {
    AfterDeltas(s, disk, order, 2);
    assert DeltaOps(s.dirty, order)[..2] == DeltaOps(s.dirty, order);
    assert LastWriter(order, 2, DeltaFileName(order[0])) == Some(order[1]);
  }

  lemma {:induction false} TwoDirty(rest: seq<Account>, a: Account, b: Account)
    requires InsertCheck(rest, a).None? && InsertCheck(rest + [a], b).None?
    ensures a.id != b.id
    ensures WithTwoMore(rest, a, b) == Store(rest + [a] + [b], map[a.id := Some(a), b.id := Some(b)])
    ensures |map[a.id := Some(a), b.id := Some(b)]| == 2
    ensures forall x :: x in rest ==> x.id != a.id && x.id != b.id
  {
    assert a in rest + [a];
    assert forall x :: x in rest ==> x in rest + [a];
  }

  /** Two such ids. */
  lemma DotAndSlashCollide()
    ensures "a.b" != "a/b" && DeltaFileName("a.b") == DeltaFileName("a/b")
  {
    assert "a.b"[1] != "a/b"[1];
    assert "a.b"[1..] == ".b" && ".b"[1..] == "b" && "b"[1..] == "";
    assert "a/b"[1..] == "/b" && "/b"[1..] == "b";
    assert SafeName("b") == "b";
    assert SafeName(".b") == "_b" && SafeName("/b") == "_b";
  }

  // ---------------------------------------------------------------- the store in memory

  predicate Matches(account: Account, key: string) {
    account.id == key || account.email == key
  }

  /** Index of the first account with this id or e-mail. */
  function Find(accounts: seq<Account>, key: string): (r: Option<nat>)
    ensures r.Some? ==> r.value < |accounts| && Matches(accounts[r.value], key)
    ensures r.Some? ==> forall i :: 0 <= i < r.value ==> !Matches(accounts[i], key)
    ensures r.None? ==> forall i :: 0 <= i < |accounts| ==> !Matches(accounts[i], key)
  {
    if accounts == [] then None
    else if Matches(accounts[0], key) then Some(0)
    else
      match Find(accounts[1..], key)
      case None => None
      case Some(i) => Some(i + 1)
  }

  datatype InsertError = DuplicateId | DuplicateEmail | DuplicateIdentity

  function InsertCheck(accounts: seq<Account>, account: Account): Option<InsertError> {
    if exists x :: x in accounts && x.id == account.id then Some(DuplicateId)
    else if exists x :: x in accounts && x.email == account.email then Some(DuplicateEmail)
    else if account.identity != "" && exists x :: x in accounts && x.identity == account.identity then Some(DuplicateIdentity)
    else None
  }

  function Insert(s: Store, account: Account): Store {
    if InsertCheck(s.accounts, account).Some? then s
    else Store(s.accounts + [account], s.dirty[account.id := Some(account)])
  }

  function Remove(s: Store, key: string): Store {
    match Find(s.accounts, key)
    case None => s
    case Some(i) => Store(s.accounts[..i] + s.accounts[i + 1..], s.dirty[s.accounts[i].id := None])
  }

  function Replaced(s: Store, i: nat, account: Account): Store
    requires i < |s.accounts|
  {
    Store(s.accounts[i := account], s.dirty[account.id := Some(account)])
  }

  function Update(s: Store, key: string, mutate: Account -> Account): Store {
    match Find(s.accounts, key)
    case None => s
    case Some(i) => Replaced(s, i, mutate(s.accounts[i]))
  }

  function IndexOfId(accounts: seq<Account>, id: string): (r: Option<nat>)
    ensures r.Some? ==> r.value < |accounts| && accounts[r.value].id == id
    ensures r.None? ==> forall i :: 0 <= i < |accounts| ==> accounts[i].id != id
  {
    if accounts == [] then None
    else if accounts[0].id == id then Some(0)
    else
      match IndexOfId(accounts[1..], id)
      case None => None
      case Some(i) => Some(i + 1)
  }

  function ReplaceIfChanged(s: Store, account: Account): Store {
    match IndexOfId(s.accounts, account.id)
    case None => s
    case Some(i) => if s.accounts[i] == account then s else Replaced(s, i, account)
  }

  lemma {:induction false} InsertKeepsAgreement(s: Store, disk: Disk, account: Account)
    requires Agrees(s, disk)
    ensures Agrees(Insert(s, account), disk)
    ensures InsertCheck(s.accounts, account).None? ==> Lookup(Insert(s, account).accounts, account.id) == Some(account)
  {
    if InsertCheck(s.accounts, account).None? {
      var next := Insert(s, account).accounts;
      forall i | 0 <= i < |s.accounts| ensures s.accounts[i].id != account.id {
        assert s.accounts[i] in s.accounts;
      }
      LookupAt(next, |s.accounts|);
      forall id | id != account.id ensures Lookup(next, id) == Lookup(s.accounts, id) {
        SameMembersSameLookup(next, s.accounts, id);
      }
    }
  }

  lemma {:induction false} RemovedAt(accounts: seq<Account>, i: nat, id: string)
    requires DistinctIds(accounts) && i < |accounts|
    ensures var next := accounts[..i] + accounts[i + 1..];
            && DistinctIds(next)
            && Lookup(next, id) == if id == accounts[i].id then None else Lookup(accounts, id)
  {
    var next := accounts[..i] + accounts[i + 1..];
    assert forall j :: 0 <= j < |next| ==> next[j] == accounts[if j < i then j else j + 1];
    if id != accounts[i].id {
      forall x: Account | x.id == id && x in accounts ensures x in next {
        var j :| 0 <= j < |accounts| && accounts[j] == x;
        assert next[if j < i then j else j - 1] == x;
      }
      SameMembersSameLookup(next, accounts, id);
    }
  }

  lemma {:induction false} RemoveKeepsAgreement(s: Store, disk: Disk, key: string)
    requires Agrees(s, disk)
    ensures Agrees(Remove(s, key), disk)
    ensures Find(s.accounts, key).Some? ==> Lookup(Remove(s, key).accounts, s.accounts[Find(s.accounts, key).value].id) == None
  {
    hide Persisted, ValidDisk, Lookup, DistinctIds, Find;
    if Find(s.accounts, key).Some? {
      var i := Find(s.accounts, key).value;
      RemovedAt(s.accounts, i, key);
      var next := Remove(s, key);
      forall id
        ensures id in next.dirty ==> next.dirty[id] == Lookup(next.accounts, id)
        ensures id !in next.dirty ==> Lookup(next.accounts, id) == Persisted(disk, id)
        ensures id == s.accounts[i].id ==> Lookup(next.accounts, id) == None
      {
        RemovedAt(s.accounts, i, id);
      }
    }
  }

  lemma {:induction false} ReplacedKeepsAgreement(s: Store, disk: Disk, i: nat, account: Account)
    requires Agrees(s, disk) && i < |s.accounts| && s.accounts[i].id == account.id
    ensures Agrees(Replaced(s, i, account), disk)
    ensures Lookup(Replaced(s, i, account).accounts, account.id) == Some(account)
  {
    var next := Replaced(s, i, account).accounts;
    LookupAt(next, i);
    forall id | id != account.id ensures Lookup(next, id) == Lookup(s.accounts, id) {
      forall x: Account | x.id == id ensures x in next <==> x in s.accounts {
        if x in s.accounts {
          var j :| 0 <= j < |s.accounts| && s.accounts[j] == x;
          assert next[j] == x;
        }
      }
      SameMembersSameLookup(next, s.accounts, id);
    }
  }

  // ---------------------------------------------------------------- one account per id, e-mail and identity

  /** Two accounts that may not both be in the store. */
  predicate Clash(x: Account, y: Account) {
    x.id == y.id || x.email == y.email || (x.identity != "" && x.identity == y.identity)
  }

  predicate NoClash(accounts: seq<Account>) {
    forall i, j :: 0 <= i < j < |accounts| ==> !Clash(accounts[i], accounts[j])
  }

  /** An account is added exactly when it clashes with none, and so the store never holds a clash. */
  lemma {:induction false} InsertExactly(s: Store, account: Account)
    requires NoClash(s.accounts)
    ensures NoClash(Insert(s, account).accounts)
    ensures if exists i :: 0 <= i < |s.accounts| && Clash(s.accounts[i], account)
            then Insert(s, account) == s
            else Insert(s, account).accounts == s.accounts + [account]
  {
    if i :| 0 <= i < |s.accounts| && Clash(s.accounts[i], account) {
      assert s.accounts[i] in s.accounts;
    }
    if InsertCheck(s.accounts, account).Some? {
      var x :| x in s.accounts && Clash(x, account);
      var i :| 0 <= i < |s.accounts| && s.accounts[i] == x;
      assert Clash(s.accounts[i], account);
    }
  }

  /** Removing by id or by e-mail removes that account and no other, and keeps the rest free of clashes. */
  lemma {:induction false} RemoveExactly(s: Store, i: nat, key: string)
    requires NoClash(s.accounts) && i < |s.accounts| && (key == s.accounts[i].id || key == s.accounts[i].email)
    requires forall j :: 0 <= j < i ==> key != s.accounts[j].id && key != s.accounts[j].email
    ensures Remove(s, key).accounts == s.accounts[..i] + s.accounts[i + 1..] && NoClash(Remove(s, key).accounts)
    ensures forall x :: x in Remove(s, key).accounts ==> x.id != s.accounts[i].id && x.email != s.accounts[i].email
  {
    FoundFirst(s.accounts, key, i);
    RestHasNoClash(s.accounts, i);
    hide NoClash, Find;
  }

  lemma {:induction false} RestHasNoClash(accounts: seq<Account>, i: nat)
    requires NoClash(accounts) && i < |accounts|
    ensures var rest := accounts[..i] + accounts[i + 1..];
            NoClash(rest) && forall x :: x in rest ==> x.id != accounts[i].id && x.email != accounts[i].email
  {
    hide Clash;
    var rest := accounts[..i] + accounts[i + 1..];
    forall j, k | 0 <= j < k < |rest| ensures !Clash(rest[j], rest[k]) {
      assert rest[j] == accounts[if j < i then j else j + 1] && rest[k] == accounts[if k < i then k else k + 1];
    }
    forall x | x in rest ensures x.id != accounts[i].id && x.email != accounts[i].email {
      var j :| 0 <= j < |rest| && rest[j] == x;
      var m := if j < i then j else j + 1;
      assert x == accounts[m];
      ClashFree(accounts, m, i);
    }
  }

  lemma {:induction false} ClashFree(accounts: seq<Account>, m: nat, i: nat)
    requires NoClash(accounts) && m < |accounts| && i < |accounts| && m != i
    ensures accounts[m].id != accounts[i].id && accounts[m].email != accounts[i].email
  {
    assert if m < i then !Clash(accounts[m], accounts[i]) else !Clash(accounts[i], accounts[m]);
  }

  lemma {:induction false} FoundFirst(accounts: seq<Account>, key: string, i: nat)
    requires i < |accounts| && (key == accounts[i].id || key == accounts[i].email)
    requires forall j :: 0 <= j < i ==> key != accounts[j].id && key != accounts[j].email
    ensures Find(accounts, key) == Some(i)
  {
    if i > 0 { FoundFirst(accounts[1..], key, i - 1); }
  }

  /** A save writes deltas exactly when a compressed base holds more accounts than the threshold and few of them changed. */
  lemma {:induction false} PlanExactly(s: Store, disk: Disk, settings: Settings, marked: bool, order: seq<string>, entries: seq<string>)
    requires IsEnumeration(order, s.dirty.Keys)
    ensures var plan, t := SavePlan(s, disk, settings, marked, order, entries), settings.compressionThreshold;
            if settings.incrementalWrite && disk.base != None && |s.dirty| == 0 then plan == []
            else if settings.incrementalWrite && disk.base != None && marked && t < |s.accounts| && (|s.dirty| < t || (t == 0 && |s.dirty| < 1))
            then |plan| == |order| && forall i :: 0 <= i < |order| ==> plan[i] == PutDelta(order[i], s.dirty[order[i]])
            else |plan| == 1 + |entries| && plan[0] == PutBase(s.accounts)
                 && forall i :: 0 <= i < |entries| ==> plan[i + 1] == DropDelta(entries[i])
  {
    assert |s.dirty| == 0 <==> s.dirty == map[];
    assert forall i :: 0 <= i < |order| ==> order[i] in order;
  }

  // ---------------------------------------------------------------- whole runs

  /**
   One step of a run. A save performs the first `done` operations of its plan and reports success
   only if that is all of them; `reported` is false when the last one failed after taking effect.
   A reload models a crash, or a restart, followed by `load`.
   */
  datatype Step =
    | DoInsert(account: Account)
    | DoRemove(key: string)
    | DoUpdate(key: string, mutate: Account -> Account)
    | DoReplace(replacement: Account)
    | DoSave(settings: Settings, marked: bool, order: seq<string>, entries: seq<string>, done: nat, reported: bool)
    | DoReload(loaded: seq<Account>)

  ghost predicate Legal(s: Store, disk: Disk, step: Step) {
    match step
    case DoSave(settings, marked, order, entries, done, reported) =>
      && IsEnumeration(order, s.dirty.Keys) && IsEnumeration(entries, disk.deltas.Keys)
      && done <= |SavePlan(s, disk, settings, marked, order, entries)|
      && (reported ==> done == |SavePlan(s, disk, settings, marked, order, entries)|)
    case DoReload(loaded) =>
      DistinctIds(loaded) && forall id :: Lookup(loaded, id) == Persisted(disk, id)
    case _ => true
  }

  ghost function Next(s: Store, disk: Disk, step: Step): (Store, Disk)
    requires Legal(s, disk, step)
  {
    match step
    case DoInsert(account) => (Insert(s, account), disk)
    case DoRemove(key) => (Remove(s, key), disk)
    case DoUpdate(key, mutate) => (Update(s, key, mutate), disk)
    case DoReplace(account) => (ReplaceIfChanged(s, account), disk)
    case DoSave(settings, marked, order, entries, done, reported) =>
      (if reported then s.(dirty := map[]) else s,
       ApplyOps(disk, SavePlan(s, disk, settings, marked, order, entries)[..done]))
    case DoReload(loaded) => (Store(loaded, map[]), disk)
  }

  /**
   What a step must not do: a save must not displace an account whose value the base file does not
   have, unless the account stays dirty; an update must not change the account's id.
   */
  ghost predicate Harmless(s: Store, disk: Disk, step: Step) {
    match step
    case DoUpdate(key, mutate) =>
      Find(s.accounts, key).Some? ==> mutate(s.accounts[Find(s.accounts, key).value]).id == s.accounts[Find(s.accounts, key).value].id
    case DoSave(settings, marked, order, entries, done, reported) =>
      forall id :: (reported || id !in s.dirty) && SaveDisplaces(s, disk, settings, marked, order, done, id) ==>
        BaseLookup(disk, id) == Lookup(s.accounts, id)
    case _ => true
  }

  /** A save keeps memory and disk in agreement exactly when it is harmless. */
  lemma {:induction false} SaveAgreesExactly(s: Store, disk: Disk, step: Step)
    requires Agrees(s, disk) && step.DoSave? && Legal(s, disk, step)
    ensures Agrees(Next(s, disk, step).0, Next(s, disk, step).1) <==> Harmless(s, disk, step)
  {
    var DoSave(settings, marked, order, entries, done, reported) := step;
    var (s', d) := Next(s, disk, step);
    hide ApplyOps, SavePlan, Lookup, SaveDisplaces, Persisted, BaseLookup, IsEnumeration;
    SaveIsCrashSafe(s, disk, settings, marked, order, entries, done, "");
    forall id
      ensures reported || id !in s.dirty ==>
        (Lookup(s.accounts, id) == Persisted(d, id) <==>
           (SaveDisplaces(s, disk, settings, marked, order, done, id) ==> BaseLookup(disk, id) == Lookup(s.accounts, id)))
    {
      SaveIsCrashSafe(s, disk, settings, marked, order, entries, done, id);
    }
  }

  /** So does an update: one that changes the id leaves the old id on disk with nothing to remove it. */
  lemma {:induction false} UpdateAgreesExactly(s: Store, disk: Disk, key: string, mutate: Account -> Account)
    requires Agrees(s, disk)
    ensures Agrees(Update(s, key, mutate), disk) <==> Harmless(s, disk, DoUpdate(key, mutate))
  {
    if Find(s.accounts, key).Some? {
      var i := Find(s.accounts, key).value;
      var x, y := s.accounts[i], mutate(s.accounts[i]);
      if x.id == y.id {
        ReplacedKeepsAgreement(s, disk, i, y);
      } else {
        IdGone(s, i, y);
        LookupAt(s.accounts, i);
        assert Lookup(Update(s, key, mutate).accounts, x.id) != Lookup(s.accounts, x.id);
      }
    }
  }

  lemma {:induction false} IdGone(s: Store, i: nat, y: Account)
    requires DistinctIds(s.accounts) && i < |s.accounts| && y.id != s.accounts[i].id
    ensures Lookup(Replaced(s, i, y).accounts, s.accounts[i].id) == None
  {
    var next := Replaced(s, i, y).accounts;
    forall j | 0 <= j < |next| ensures next[j].id != s.accounts[i].id {
      assert j != i ==> next[j] == s.accounts[j];
    }
  }

  lemma {:induction false} StepAgreesExactly(s: Store, disk: Disk, step: Step)
    requires Agrees(s, disk) && Legal(s, disk, step)
    ensures Agrees(Next(s, disk, step).0, Next(s, disk, step).1) <==> Harmless(s, disk, step)
  {
    match step
    case DoInsert(account) => InsertKeepsAgreement(s, disk, account);
    case DoRemove(key) => RemoveKeepsAgreement(s, disk, key);
    case DoUpdate(key, mutate) => UpdateAgreesExactly(s, disk, key, mutate);
    case DoReplace(account) =>
      if IndexOfId(s.accounts, account.id).Some? {
        ReplacedKeepsAgreement(s, disk, IndexOfId(s.accounts, account.id).value, account);
      }
    case DoSave(_, _, _, _, _, _) => SaveAgreesExactly(s, disk, step);
    case DoReload(_) =>
  }

  ghost predicate LegalRun(s: Store, disk: Disk, steps: seq<Step>)
    decreases |steps|
  {
    steps != [] ==>
      Legal(s, disk, steps[0]) && var (s', d) := Next(s, disk, steps[0]); LegalRun(s', d, steps[1..])
  }

  ghost function Run(s: Store, disk: Disk, steps: seq<Step>): (Store, Disk)
    requires LegalRun(s, disk, steps)
    decreases |steps|
  {
    if steps == [] then (s, disk) else var (s', d) := Next(s, disk, steps[0]); Run(s', d, steps[1..])
  }

  ghost predicate AgreesThroughout(s: Store, disk: Disk, steps: seq<Step>)
    requires LegalRun(s, disk, steps)
    decreases |steps|
  {
    Agrees(s, disk) && (steps != [] ==> var (s', d) := Next(s, disk, steps[0]); AgreesThroughout(s', d, steps[1..]))
  }

  ghost predicate AllHarmless(s: Store, disk: Disk, steps: seq<Step>)
    requires LegalRun(s, disk, steps)
    decreases |steps|
  {
    steps != [] ==> Harmless(s, disk, steps[0]) && var (s', d) := Next(s, disk, steps[0]); AllHarmless(s', d, steps[1..])
  }

  /**
   Over every run of edits, complete or interrupted saves, and reloads, memory and disk agree all
   along if and only if every step is harmless.
   */
  lemma {:induction false} RunKeepsAgreement(s: Store, disk: Disk, steps: seq<Step>)
    requires Agrees(s, disk) && LegalRun(s, disk, steps)
    ensures AgreesThroughout(s, disk, steps) <==> AllHarmless(s, disk, steps)
    ensures AllHarmless(s, disk, steps) ==> Agrees(Run(s, disk, steps).0, Run(s, disk, steps).1)
    decreases |steps|
  {
    hide Agrees, Harmless, Next, Legal;
    if steps != [] {
      StepAgreesExactly(s, disk, steps[0]);
      var (s', d) := Next(s, disk, steps[0]);
      if Agrees(s', d) {
        RunKeepsAgreement(s', d, steps[1..]);
      } else {
        NotThroughout(s', d, steps[1..]);
      }
    }
  }

  lemma {:induction false} NotThroughout(s: Store, disk: Disk, steps: seq<Step>)
    requires LegalRun(s, disk, steps) && !Agrees(s, disk)
    ensures !AgreesThroughout(s, disk, steps)
  {
  }

  /** Saves without colliding file names are harmless. */
  lemma {:induction false} DistinctNamesAreHarmless(s: Store, disk: Disk, step: Step)
    requires Agrees(s, disk) && step.DoSave? && Legal(s, disk, step) && NoCollision(s.dirty, disk)
    ensures Harmless(s, disk, step)
  {
    var DoSave(settings, marked, order, entries, done, reported) := step;
    forall id | (reported || id !in s.dirty) && SaveDisplaces(s, disk, settings, marked, order, done, id)
      ensures BaseLookup(disk, id) == Lookup(s.accounts, id)
    {
      if id in s.dirty { SoleWriter(s, disk, order, done, id); } else { CleanKeepsValue(s, disk, order, done, id); }
    }
  }

  // ---------------------------------------------------------------- the store as an object

  /** The account file and its delta directory. */
  class AccountFiles {
    var disk: Disk

    constructor (disk: Disk)
      ensures this.disk == disk
    {
      this.disk := disk;
    }

    /** One atomic write or removal. It may fail before it takes effect, or after. */
    method Perform(op: FileOp, fault: Fault) returns (ok: bool)
      modifies this
      ensures disk == if fault.FailsBefore? then old(disk) else ApplyOp(old(disk), op)
      ensures ok == fault.Works?
    {
      if !fault.FailsBefore? {
        disk := ApplyOp(disk, op);
      }
      ok := fault.Works?;
    }
  }

  datatype Fault = Works | FailsBefore | FailsAfter

  function FaultAt(faults: seq<Fault>, i: nat): Fault {
    if i < |faults| then faults[i] else Works
  }

  class AccountList {
    var accounts: seq<Account>
    var dirty: map<string, Option<Account>>
    var settings: Settings

    constructor (accounts: seq<Account>, settings: Settings)
      ensures this.accounts == accounts && dirty == map[] && this.settings == settings
    {
      this.accounts, dirty, this.settings := accounts, map[], settings;
    }

    ghost function Contents(): Store
      reads this
    {
      Store(accounts, dirty)
    }

    method InsertAccount(account: Account) returns (error: Option<InsertError>)
      modifies this
      ensures Contents() == Insert(old(Contents()), account) && settings == old(settings)
      ensures error == InsertCheck(old(accounts), account)
    {
      error := None;
      var i := 0;
      while i < |accounts|
        invariant 0 <= i <= |accounts|
        invariant forall j :: 0 <= j < i ==> accounts[j].id != account.id
      {
        if accounts[i].id == account.id {
          return Some(DuplicateId);
        }
        i := i + 1;
      }
      i := 0;
      while i < |accounts|
        invariant 0 <= i <= |accounts|
        invariant forall j :: 0 <= j < i ==> accounts[j].email != account.email
      {
        if accounts[i].email == account.email {
          return Some(DuplicateEmail);
        }
        i := i + 1;
      }
      if account.identity != "" {
        i := 0;
        while i < |accounts|
          invariant 0 <= i <= |accounts|
          invariant forall j :: 0 <= j < i ==> accounts[j].identity != account.identity
        {
          if accounts[i].identity == account.identity {
            return Some(DuplicateIdentity);
          }
          i := i + 1;
        }
      }
      dirty := dirty[account.id := Some(account)];
      accounts := accounts + [account];
    }

    method RemoveAccount(key: string) returns (removed: Option<Account>)
      modifies this
      ensures Contents() == Remove(old(Contents()), key) && settings == old(settings)
      ensures removed == if Find(old(accounts), key).None? then None else Some(old(accounts)[Find(old(accounts), key).value])
    {
      var index := Find(accounts, key);
      if index.None? {
        return None;
      }
      removed := Some(accounts[index.value]);
      accounts := accounts[..index.value] + accounts[index.value + 1..];
      dirty := dirty[removed.value.id := None];
    }

    method UpdateAccount(key: string, mutate: Account -> Account) returns (hit: bool)
      modifies this
      ensures Contents() == Update(old(Contents()), key, mutate) && settings == old(settings)
      ensures hit == Find(old(accounts), key).Some?
    {
      var index := Find(accounts, key);
      if index.None? {
        return false;
      }
      var account := mutate(accounts[index.value]);
      accounts := accounts[index.value := account];
      dirty := dirty[account.id := Some(account)];
      hit := true;
    }

    method ReplaceAccount(account: Account) returns (changed: bool)
      modifies this
      ensures Contents() == ReplaceIfChanged(old(Contents()), account) && settings == old(settings)
      ensures changed <==> accounts != old(accounts)
    {
      var index := IndexOfId(accounts, account.id);
      if index.None? || accounts[index.value] == account {
        return false;
      }
      ghost var i := index.value;
      accounts := accounts[index.value := account];
      assert accounts[i] != old(accounts)[i];
      dirty := dirty[account.id := Some(account)];
      changed := true;
    }

    /**
     `save`. The files go through a prefix of the save plan; success means the whole plan, and only
     success forgets the unsaved changes.
     */
    method Save(files: AccountFiles, marked: bool, order: seq<string>, entries: seq<string>, faults: seq<Fault>)
      returns (ok: bool, ghost done: nat)
      requires IsEnumeration(order, dirty.Keys) && IsEnumeration(entries, files.disk.deltas.Keys)
      modifies this, files
      ensures accounts == old(accounts) && settings == old(settings)
      ensures var plan := SavePlan(old(Contents()), old(files.disk), settings, marked, order, entries);
              && done <= |plan|
              && files.disk == ApplyOps(old(files.disk), plan[..done])
              && (ok ==> done == |plan|)
      ensures dirty == if ok then map[] else old(dirty)
    {
      ghost var plan := SavePlan(Contents(), files.disk, settings, marked, order, entries);
      if settings.incrementalWrite && files.disk.base.Some? && dirty == map[] {
        assert plan[..0] == [];
        return true, 0;
      }
      var compactAt := if settings.compressionThreshold > 1 then settings.compressionThreshold else 1;
      var deltas := settings.incrementalWrite && |accounts| > settings.compressionThreshold
                    && files.disk.base.Some? && marked && dirty != map[] && |dirty| < compactAt;
      if deltas {
        ok, done := WriteDeltas(files, order, faults);
        if !ok {
          return;
        }
      } else {
        ok := files.Perform(PutBase(accounts), FaultAt(faults, 0));
        done := if FaultAt(faults, 0).FailsBefore? then 0 else 1;
        assert plan[..0] == [] && plan[..1] == [PutBase(accounts)] && plan[..1][..0] == [];
        assert ApplyOps(old(files.disk), plan[..1]) == ApplyOp(old(files.disk), PutBase(accounts));
        if !ok {
          return;
        }
        ok, done := ClearDeltas(files, plan, entries, faults);
        if !ok {
          return;
        }
      }
      dirty := map[];
    }

    method WriteDeltas(files: AccountFiles, order: seq<string>, faults: seq<Fault>) returns (ok: bool, ghost done: nat)
      requires forall id :: id in order ==> id in dirty
      modifies files
      ensures done <= |order| && (ok ==> done == |order|)
      ensures files.disk == ApplyOps(old(files.disk), DeltaOps(dirty, order)[..done])
    {
      ghost var plan := DeltaOps(dirty, order);
      for i := 0 to |order|
        invariant files.disk == ApplyOps(old(files.disk), plan[..i])
      {
        assert plan[..i + 1][..i] == plan[..i];
        ok := files.Perform(PutDelta(order[i], dirty[order[i]]), FaultAt(faults, i));
        if !ok {
          return false, if FaultAt(faults, i).FailsBefore? then i else i + 1;
        }
      }
      return true, |order|;
    }

    method ClearDeltas(files: AccountFiles, ghost plan: seq<FileOp>, entries: seq<string>, faults: seq<Fault>)
      returns (ok: bool, ghost done: nat)
      requires |plan| == 1 + |entries| && plan[1..] == DropOps(entries)
      modifies files
      ensures 1 <= done <= |plan| && (ok ==> done == |plan|)
      ensures forall before :: old(files.disk) == ApplyOps(before, plan[..1]) ==> files.disk == ApplyOps(before, plan[..done])
    {
      for i := 0 to |entries|
        invariant forall before :: old(files.disk) == ApplyOps(before, plan[..1]) ==> files.disk == ApplyOps(before, plan[..i + 1])
      {
        assert plan[..i + 2][..i + 1] == plan[..i + 1];
        assert plan[i + 1] == plan[1..][i] == DropDelta(entries[i]);
        ok := files.Perform(DropDelta(entries[i]), FaultAt(faults, i + 1));
        if !ok {
          return false, if FaultAt(faults, i + 1).FailsBefore? then i + 1 else i + 2;
        }
      }
      return true, |plan|;
    }
  }
}
