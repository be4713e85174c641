/**
 Model of the token-refresh protocol of one account (crates/kproxy-pool/src/refresh.rs, the health
 cell of state.rs, and the reload and persist hooks of crates/kproxyd/src/state.rs) as a step
 system. Any number of calls and the rest of the daemon interleave between the atomic actions.
 Replies, clock readings, file errors and what other writers put into memory or into the account
 store are arbitrary.
 */
module RefreshProtocol {
  import opened Wrappers

  datatype Health = Available | Cooling | Exhausted | Banned | Refreshing

  datatype AuthMethod = Idc | Social | ApiKey

  datatype Credentials = Credentials(
    accessToken: string,
    refreshToken: Option<string>,
    clientId: Option<string>,
    clientSecret: Option<string>,
    region: string,
    authMethod: AuthMethod,
    expiresAt: int)

  datatype Account = Account(credentials: Credentials, profileArn: Option<string>)

  datatype Outcome = Unchanged | Changed | ChangedUnsaved | NotRefreshable | UpstreamFailed | ReloadFailed

  datatype Reply =
    | Tokens(accessToken: string, refreshToken: Option<string>, expiresIn: int, profileArn: Option<string>)
    | Refused(status: Option<nat>)

  /**
   How far the persist hook gets: not at all, up to putting the new credentials back into memory,
   up to the write although it reports an error, or to the end.
   */
  datatype Saving = NotStarted | NotWritten | WrittenUnreported | Written

  /** Where a call stands; every phase but the first and the last holds the per-account lock. */
  datatype Phase =
    | Waiting
    | Locked
    | Checked(snapshot: Account)
    | Marking(snapshot: Account, before: Health)
    | Requesting(snapshot: Account, before: Health, retried: bool)
    | Reloading(snapshot: Account, before: Health)
    | Persisting(before: Health, credentials: Credentials, profileArn: Option<string>)
    | Restoring(before: Health, outcome: Outcome)
    | Banning(outcome: Outcome)
    | Leaving(outcome: Outcome)
    | Done(outcome: Outcome)

  datatype Call = Call(force: bool, rejected: Option<string>, phase: Phase)

  /**
   `account` is the record in memory and `stored` the one in the account store. `rotations` and
   `touched` are history: the calls that replaced the credentials together with the token they were
   told was rejected, and the last health another task has set since the account was marked.
   */
  datatype State = State(
    account: Account,
    stored: Account,
    health: Health,
    holder: Option<nat>,
    calls: map<nat, Call>,
    rotations: seq<(nat, string)>,
    touched: Option<Health>)

  // ---------------------------------------------------------------- pure helpers

  function TokenOf(a: Account): string {
    a.credentials.accessToken
  }

  predicate IsRefreshable(a: Account) {
    var c := a.credentials;
    && c.authMethod != ApiKey && c.refreshToken.Some?
    && (c.authMethod == Idc ==> c.clientId.Some? && c.clientSecret.Some?)
  }

  predicate RefreshInputsChanged(a: Credentials, b: Credentials) {
    a.refreshToken != b.refreshToken || a.clientId != b.clientId || a.clientSecret != b.clientSecret
    || a.region != b.region || a.authMethod != b.authMethod
  }

  predicate IsExpiring(a: Account, now: int, window: int) {
    a.credentials.authMethod != ApiKey && a.credentials.expiresAt - now <= window
  }

  /** The health that `restore_health_after_refresh` puts back. */
  function Restored(before: Health): Health {
    if before == Cooling || before == Exhausted then before else Available
  }

  /** An account with refreshed credentials; the profile changes only when the reply names one. */
  function Refreshed(a: Account, credentials: Credentials, profile: Option<string>): Account {
    Account(credentials, if profile.Some? then profile else a.profileArn)
  }

  // ---------------------------------------------------------------- steps

  datatype Step =
    | Start(call: nat, force: bool, rejected: Option<string>)
    | Lock(call: nat)
    | ReadAccount(call: nat, now: int, window: int)
    | ReadHealth(call: nat)
    | Mark(call: nat)
    | Receive(call: nat, reply: Reply, now: int)
    | Reload(call: nat, readable: bool, now: int)
    | Persist(call: nat, saving: Saving)
    | Restore(call: nat)
    | Ban(call: nat)
    | Unlock(call: nat)
    | OtherHealth(health: Health)
    | OtherAccount(account: Account)
    | OtherStored(account: Account)

  predicate Enabled(s: State, step: Step) {
    match step
    case Start(c, _, _) => c !in s.calls
    case Lock(c) => c in s.calls && s.calls[c].phase.Waiting? && s.holder.None?
    case ReadAccount(c, _, _) => c in s.calls && s.calls[c].phase.Locked?
    case ReadHealth(c) => c in s.calls && s.calls[c].phase.Checked?
    case Mark(c) => c in s.calls && s.calls[c].phase.Marking?
    case Receive(c, _, _) => c in s.calls && s.calls[c].phase.Requesting?
    case Reload(c, _, _) => c in s.calls && s.calls[c].phase.Reloading?
    case Persist(c, _) => c in s.calls && s.calls[c].phase.Persisting?
    case Restore(c) => c in s.calls && s.calls[c].phase.Restoring?
    case Ban(c) => c in s.calls && s.calls[c].phase.Banning?
    case Unlock(c) => c in s.calls && s.calls[c].phase.Leaving?
    case OtherHealth(h) => h != Refreshing
    case OtherAccount(_) => true
    case OtherStored(_) => true
  }

  function Goto(s: State, call: nat, phase: Phase): State
    requires call in s.calls
  {
    s.(calls := s.calls[call := s.calls[call].(phase := phase)])
  }

  /** Puts new credentials in place and records the token the call was told was rejected. */
  function Rotate(s: State, call: nat, account: Account): State
    requires call in s.calls
  {
    s.(account := account,
       rotations := if s.calls[call].rejected.None? then s.rotations
                    else s.rotations + [(call, s.calls[call].rejected.value)])
  }

  function ReadAccountStep(s: State, c: nat, now: int, window: int): State
    requires c in s.calls
  {
    var call := s.calls[c];
    if call.rejected.Some? && call.rejected.value != TokenOf(s.account) then Goto(s, c, Leaving(Unchanged))
    else if !call.force && !IsExpiring(s.account, now, window) then Goto(s, c, Leaving(Unchanged))
    else if !IsRefreshable(s.account) then Goto(s, c, Leaving(NotRefreshable))
    else Goto(s, c, Checked(s.account))
  }

  function NewCredentials(current: Credentials, reply: Reply, now: int): Credentials
    requires reply.Tokens?
  {
    current.(accessToken := reply.accessToken,
             refreshToken := if reply.refreshToken.Some? then reply.refreshToken else current.refreshToken,
             expiresAt := now + reply.expiresIn)
  }

  function ReceiveStep(s: State, c: nat, reply: Reply, now: int): State
    requires c in s.calls && s.calls[c].phase.Requesting?
  {
    var Requesting(snapshot, before, retried) := s.calls[c].phase;
    if reply.Tokens? then
      var credentials := NewCredentials(s.account.credentials, reply, now);
      Goto(Rotate(s, c, Refreshed(s.account, credentials, reply.profileArn)), c,
           Persisting(before, credentials, reply.profileArn))
    else if snapshot.credentials.authMethod == Idc && reply.status == Some(400) && !retried then
      Goto(s, c, Reloading(snapshot, before))
    else Goto(s, c, AfterFailure(s.calls[c], snapshot, before, now))
  }

  function AfterFailure(call: Call, snapshot: Account, before: Health, now: int): Phase {
    if call.force || snapshot.credentials.expiresAt <= now then Banning(UpstreamFailed) else Restoring(before, UpstreamFailed)
  }

  /** The reload hook installs the stored account when it differs; then the call compares it with its snapshot. */
  function ReloadStep(s: State, c: nat, readable: bool, now: int): State
    requires c in s.calls && s.calls[c].phase.Reloading?
  {
    var Reloading(snapshot, before) := s.calls[c].phase;
    var failed := AfterFailure(s.calls[c], snapshot, before, now);
    if !readable then Goto(s, c, Banning(ReloadFailed))
    else if s.stored == s.account then Goto(s, c, failed)
    else if TokenOf(s.stored) != TokenOf(snapshot) then Goto(Rotate(s, c, s.stored), c, Restoring(before, Changed))
    else
      Goto(s.(account := s.stored), c,
           if !RefreshInputsChanged(snapshot.credentials, s.stored.credentials) then failed
           else if !IsRefreshable(s.stored) then Banning(NotRefreshable)
           else Requesting(s.stored, before, true))
  }

  /** The persist hook puts the new credentials back into memory, then merges them into the store. */
  function PersistStep(s: State, c: nat, saving: Saving): State
    requires c in s.calls && s.calls[c].phase.Persisting?
  {
    var Persisting(before, credentials, profile) := s.calls[c].phase;
    var merged := Refreshed(s.stored, credentials, profile);
    match saving
    case NotStarted => Goto(s, c, Restoring(before, ChangedUnsaved))
    case NotWritten =>
      Goto(s.(account := Refreshed(s.account, credentials, profile)), c, Restoring(before, ChangedUnsaved))
    case WrittenUnreported =>
      Goto(s.(account := Refreshed(s.account, credentials, profile), stored := merged), c, Restoring(before, ChangedUnsaved))
    case Written => Goto(s.(account := merged, stored := merged), c, Restoring(before, Changed))
  }

  function Apply(s: State, step: Step): State
    requires Enabled(s, step)
  {
    match step
    case Start(c, force, rejected) => s.(calls := s.calls[c := Call(force, rejected, Waiting)])
    case Lock(c) => Goto(s, c, Locked).(holder := Some(c))
    case ReadAccount(c, now, window) => ReadAccountStep(s, c, now, window)
    case ReadHealth(c) => Goto(s, c, Marking(s.calls[c].phase.snapshot, s.health))
    case Mark(c) =>
      Goto(s, c, Requesting(s.calls[c].phase.snapshot, s.calls[c].phase.before, false)).(health := Refreshing, touched := None)
    case Receive(c, reply, now) => ReceiveStep(s, c, reply, now)
    case Reload(c, readable, now) => ReloadStep(s, c, readable, now)
    case Persist(c, saving) => PersistStep(s, c, saving)
    case Restore(c) =>
      Goto(s, c, Leaving(s.calls[c].phase.outcome))
        .(health := if s.health == Refreshing then Restored(s.calls[c].phase.before) else s.health)
    case Ban(c) => Goto(s, c, Leaving(s.calls[c].phase.outcome)).(health := Banned)
    case Unlock(c) => Goto(s, c, Done(s.calls[c].phase.outcome)).(holder := None)
    case OtherHealth(h) => s.(health := h, touched := Some(h))
    case OtherAccount(a) => s.(account := a)
    case OtherStored(a) => s.(stored := a)
  }

  // ---------------------------------------------------------------- invariant

  predicate HoldsLock(p: Phase) {
    !p.Waiting? && !p.Done?
  }

  /** The account has been marked Refreshing by this call and not yet released from it. */
  predicate Marked(p: Phase) {
    p.Requesting? || p.Reloading? || p.Persisting? || p.Restoring? || p.Banning?
  }

  /** The call has taken its snapshot and not replaced the credentials yet. */
  predicate BeforeRotation(p: Phase) {
    p.Checked? || p.Marking? || p.Requesting? || p.Reloading?
  }

  ghost predicate LockInv(s: State) {
    && (s.holder.Some? ==> s.holder.value in s.calls && HoldsLock(s.calls[s.holder.value].phase))
    && (forall c :: c in s.calls && HoldsLock(s.calls[c].phase) ==> s.holder == Some(c))
  }

  ghost predicate HealthInv(s: State) {
    && (s.health == Refreshing ==> s.holder.Some? && s.holder.value in s.calls && Marked(s.calls[s.holder.value].phase))
    && (forall c :: c in s.calls && Marked(s.calls[c].phase) ==>
          if s.touched.None? then s.health == Refreshing else s.health == s.touched.value && s.health != Refreshing)
  }

  /** A snapshot shows the token the call was told about. */
  predicate SnapshotOk(call: Call) {
    BeforeRotation(call.phase) && call.rejected.Some? ==> TokenOf(call.phase.snapshot) == call.rejected.value
  }

  ghost predicate SnapshotInv(s: State) {
    forall c :: c in s.calls ==> SnapshotOk(s.calls[c])
  }

  ghost predicate Inv(s: State) {
    LockInv(s) && HealthInv(s) && SnapshotInv(s)
  }

  predicate Initial(s: State) {
    s.health != Refreshing && s.holder.None? && s.calls == map[] && s.rotations == [] && s.touched.None?
  }

  // ---------------------------------------------------------------- every step keeps it

  lemma {:induction false} SnapshotStep(s: State, step: Step)
    requires SnapshotInv(s) && Enabled(s, step)
    ensures SnapshotInv(Apply(s, step))
  {
    hide IsExpiring, IsRefreshable, RefreshInputsChanged, NewCredentials, Refreshed;
    var s' := Apply(s, step);
    forall d | d in s'.calls ensures SnapshotOk(s'.calls[d]) {
      if d in s.calls { assert SnapshotOk(s.calls[d]); }
    }
  }

  lemma {:induction false} LockStep(s: State, step: Step)
    requires LockInv(s) && Enabled(s, step)
    ensures LockInv(Apply(s, step))
  {
    hide IsExpiring, IsRefreshable, RefreshInputsChanged, NewCredentials, Refreshed;
  }

  /** Steps that leave health alone and do not change whether their call has marked it. */
  predicate LeavesHealth(step: Step) {
    step.ReadAccount? || step.ReadHealth? || step.Receive? || step.Reload? || step.Persist?
  }

  lemma {:induction false} LeavesHealthAlone(s: State, step: Step)
    requires Enabled(s, step) && LeavesHealth(step)
    ensures var s', c := Apply(s, step), step.call;
            && s'.health == s.health && s'.touched == s.touched && s'.holder == s.holder
            && c in s'.calls && s'.calls == s.calls[c := s'.calls[c]]
            && (Marked(s'.calls[c].phase) <==> Marked(s.calls[c].phase))
  {
    hide IsExpiring, IsRefreshable, RefreshInputsChanged, NewCredentials, Refreshed;
  }

  lemma {:induction false} HealthByPhase(s: State, s': State, c: nat)
    requires HealthInv(s) && s'.health == s.health && s'.touched == s.touched && s'.holder == s.holder
    requires c in s.calls && c in s'.calls && s'.calls == s.calls[c := s'.calls[c]]
    requires Marked(s'.calls[c].phase) <==> Marked(s.calls[c].phase)
    ensures HealthInv(s')
  {
    hide Marked;
  }

  lemma {:induction false} HealthStep(s: State, step: Step)
    requires LockInv(s) && HealthInv(s) && Enabled(s, step)
    ensures HealthInv(Apply(s, step))
  {
    if LeavesHealth(step) {
      hide Apply, HealthInv, LockInv, Marked;
      LeavesHealthAlone(s, step);
      HealthByPhase(s, Apply(s, step), step.call);
    } else {
      hide ReadAccountStep, ReceiveStep, ReloadStep, PersistStep;
    }
  }

  /** Whatever the next step is, lock, health and snapshots stay consistent. */
  lemma {:induction false} StepKept(s: State, step: Step)
    requires Inv(s) && Enabled(s, step)
    ensures Inv(Apply(s, step))
  {
    hide LockInv, HealthInv, SnapshotInv, Enabled, Apply;
    LockStep(s, step);
    HealthStep(s, step);
    SnapshotStep(s, step);
  }

  // ---------------------------------------------------------------- whole runs

  ghost predicate EnabledRun(s: State, steps: seq<Step>)
    decreases |steps|
  {
    steps != [] ==> Enabled(s, steps[0]) && EnabledRun(Apply(s, steps[0]), steps[1..])
  }

  ghost function Run(s: State, steps: seq<Step>): State
    requires EnabledRun(s, steps)
    decreases |steps|
  {
    if steps == [] then s else Run(Apply(s, steps[0]), steps[1..])
  }

  lemma {:induction false} RunKept(s: State, steps: seq<Step>)
    requires Inv(s) && EnabledRun(s, steps)
    ensures Inv(Run(s, steps))
    decreases |steps|
  {
    hide Inv, Enabled, Apply;
    if steps != [] {
      StepKept(s, steps[0]);
      RunKept(Apply(s, steps[0]), steps[1..]);
    }
  }

  /** Over every interleaving, an account nobody is refreshing is not left marked Refreshing. */
  lemma {:induction false} NeverLeftRefreshing(s: State, steps: seq<Step>)
    requires Initial(s) && EnabledRun(s, steps)
    ensures Run(s, steps).holder.None? ==> Run(s, steps).health != Refreshing
  {
    RunKept(s, steps);
  }

  /**
   The health a refresh leaves when it restores: the last one set by another task since the mark,
   or else the restored form of the one read before the mark.
   */
  lemma {:induction false} LaterHealthSurvives(s: State, steps: seq<Step>, c: nat)
    requires Initial(s) && EnabledRun(s, steps) && Enabled(Run(s, steps), Restore(c))
    ensures var at := Run(s, steps);
            Apply(at, Restore(c)).health == if at.touched.Some? then at.touched.value else Restored(at.calls[c].phase.before)
  {
    RunKept(s, steps);
  }

  lemma {:induction false} RunCons(s: State, step: Step, rest: seq<Step>)
    requires Enabled(s, step) && EnabledRun(Apply(s, step), rest)
    ensures EnabledRun(s, [step] + rest) && Run(s, [step] + rest) == Run(Apply(s, step), rest)
  {
    hide Enabled, Apply;
    assert ([step] + rest)[1..] == rest;
  }

  /** The steps of a successful refresh in which another task sets the health just before the mark. */
  function RacingRefresh(c: nat, h: Health, reply: Reply, now: int): seq<Step> {
    [ReadHealth(c)] + ([OtherHealth(h)] + ([Mark(c)] + FinishRefresh(c, reply, now)))
  }

  function FinishRefresh(c: nat, reply: Reply, now: int): seq<Step> {
    [Receive(c, reply, now)] + ([Persist(c, Written)] + ([Restore(c)] + []))
  }

  lemma {:induction false} FinishRestores(s: State, c: nat, reply: Reply, now: int)
    requires c in s.calls && s.calls[c].phase.Requesting? && s.health == Refreshing
    requires reply.Tokens?
    ensures EnabledRun(s, FinishRefresh(c, reply, now))
    ensures Run(s, FinishRefresh(c, reply, now)).health == Restored(s.calls[c].phase.before)
  {
    var s1 := Apply(s, Receive(c, reply, now));
    var s2 := Apply(s1, Persist(c, Written));
    RunCons(s2, Restore(c), []);
    RunCons(s1, Persist(c, Written), [Restore(c)] + []);
    RunCons(s, Receive(c, reply, now), [Persist(c, Written)] + ([Restore(c)] + []));
  }

  /** A health set between reading the old one and marking is lost, whatever it is. */
  lemma {:induction false} HealthSetBeforeMarkIsLost(s: State, c: nat, h: Health, reply: Reply, now: int)
    requires c in s.calls && s.calls[c].phase.Checked? && s.health == Available && h != Refreshing
    requires reply.Tokens?
    ensures EnabledRun(s, RacingRefresh(c, h, reply, now))
    ensures Run(s, RacingRefresh(c, h, reply, now)).health == Available
  {
    var s1 := Apply(s, ReadHealth(c));
    var s2 := Apply(s1, OtherHealth(h));
    var s3 := Apply(s2, Mark(c));
    FinishRestores(s3, c, reply, now);
    var rest := FinishRefresh(c, reply, now);
    RunCons(s2, Mark(c), rest);
    RunCons(s1, OtherHealth(h), [Mark(c)] + rest);
    RunCons(s, ReadHealth(c), [OtherHealth(h)] + ([Mark(c)] + rest));
  }

  // ---------------------------------------------------------------- how often a token is rotated

  function Count(rotations: seq<(nat, string)>, token: string): nat {
    if rotations == [] then 0
    else Count(rotations[..|rotations| - 1], token) + if rotations[|rotations| - 1].1 == token then 1 else 0
  }

  /** The step replaces the credentials for a call that was told `token` was rejected. */
  predicate RotatesFor(s: State, step: Step, token: string)
    requires Enabled(s, step)
  {
    && (step.Receive? || step.Reload?) && s.calls[step.call].rejected == Some(token)
    && Apply(s, step).rotations == s.rotations + [(step.call, token)]
  }

  /** The step puts `token` into memory: upstream issued it again, the store still had it, or another writer did. */
  predicate BringsBack(s: State, step: Step, token: string) {
    match step
    case Receive(_, reply, _) => reply.Tokens? && reply.accessToken == token
    case Reload(_, readable, _) => readable && TokenOf(s.stored) == token
    case OtherAccount(a) => TokenOf(a) == token
    case _ => false
  }

  /** The step writes the account store. */
  predicate WritesStore(step: Step) {
    step.OtherStored? || (step.Persist? && (step.saving.Written? || step.saving.WrittenUnreported?))
  }

  /** Nothing has written the store since, or another writer was the last and wrote `token`. */
  function Unrenewed(step: Step, token: string, unrenewed: bool): bool {
    if !WritesStore(step) then unrenewed else step.OtherStored? && TokenOf(step.account) == token
  }

  /**
   A step of the run brings `token` back. Where that is a reload, the persist of the new credentials
   had not reached the store (`unrenewed`) or another writer had put the token there.
   */
  ghost predicate ComesBack(s: State, steps: seq<Step>, token: string, unrenewed: bool)
    requires EnabledRun(s, steps)
    decreases |steps|
  {
    && steps != []
    && (|| (BringsBack(s, steps[0], token) && (steps[0].Reload? ==> unrenewed))
        || ComesBack(Apply(s, steps[0]), steps[1..], token, Unrenewed(steps[0], token, unrenewed)))
  }

  /** The call can neither rotate for `token` nor put it back. */
  predicate CallIsPast(call: Call, token: string) {
    && (BeforeRotation(call.phase) ==> call.rejected != Some(token))
    && (call.phase.Persisting? ==> call.phase.credentials.accessToken != token)
  }

  /** `token` is not in memory and no call under way can rotate for it. */
  ghost predicate IsPast(s: State, token: string) {
    TokenOf(s.account) != token && forall c :: c in s.calls ==> CallIsPast(s.calls[c], token)
  }

  lemma {:induction false} CountAppend(rotations: seq<(nat, string)>, r: (nat, string), token: string)
    ensures Count(rotations + [r], token) == Count(rotations, token) + if r.1 == token then 1 else 0
  {
    assert (rotations + [r])[..|rotations|] == rotations;
  }

  /** Only a step that brings the token back ends the past. */
  lemma {:induction false} PastStays(s: State, step: Step, token: string)
    requires IsPast(s, token) && Enabled(s, step) && !BringsBack(s, step, token)
    ensures IsPast(Apply(s, step), token)
  {
    hide IsExpiring, IsRefreshable, RefreshInputsChanged;
    var s' := Apply(s, step);
    forall d | d in s'.calls ensures CallIsPast(s'.calls[d], token) {
      if d in s.calls { assert CallIsPast(s.calls[d], token); }
    }
    if step.Persist? { assert CallIsPast(s.calls[step.call], token); }
  }

  /** And until then the token is not rotated. */
  lemma {:induction false} PastNotRotated(s: State, step: Step, token: string)
    requires IsPast(s, token) && Enabled(s, step)
    ensures Count(Apply(s, step).rotations, token) == Count(s.rotations, token)
  {
    hide IsExpiring, IsRefreshable, RefreshInputsChanged, Count, NewCredentials, Refreshed;
    if step.Receive? || step.Reload? {
      var call := s.calls[step.call];
      assert CallIsPast(call, token);
      if call.rejected.Some? { CountAppend(s.rotations, (step.call, call.rejected.value), token); }
    }
  }

  /** A rotation for `token` leaves it in the past, unless upstream answered with that very token. */
  lemma {:induction false} RotationEndsToken(s: State, step: Step, token: string)
    requires Inv(s) && Enabled(s, step) && RotatesFor(s, step, token) && !BringsBack(s, step, token)
    ensures IsPast(Apply(s, step), token)
  {
    hide IsExpiring, IsRefreshable, RefreshInputsChanged, HealthInv;
    var s' := Apply(s, step);
    assert SnapshotOk(s.calls[step.call]) && s.holder == Some(step.call);
    forall d | d in s'.calls ensures CallIsPast(s'.calls[d], token) {
      if d != step.call { assert !HoldsLock(s.calls[d].phase); }
    }
  }

  /** While the token is past, the store holds it only if nothing has renewed it. */
  ghost predicate StoreExplained(s: State, token: string, unrenewed: bool) {
    TokenOf(s.stored) == token ==> unrenewed
  }

  lemma {:induction false} StoreStaysExplained(s: State, step: Step, token: string, unrenewed: bool)
    requires IsPast(s, token) && Enabled(s, step) && StoreExplained(s, token, unrenewed)
    ensures StoreExplained(Apply(s, step), token, Unrenewed(step, token, unrenewed))
  {
    hide IsExpiring, IsRefreshable, RefreshInputsChanged, NewCredentials;
    if step.Persist? { assert CallIsPast(s.calls[step.call], token); }
  }

  lemma {:induction false} PastUntilBack(s: State, steps: seq<Step>, token: string, unrenewed: bool)
    requires IsPast(s, token) && StoreExplained(s, token, unrenewed) && EnabledRun(s, steps)
    ensures ComesBack(s, steps, token, unrenewed) || Count(Run(s, steps).rotations, token) == Count(s.rotations, token)
    decreases |steps|
  {
    hide Apply, Enabled, IsPast, Count;
    if steps != [] && !ComesBack(s, steps, token, unrenewed) {
      PastStays(s, steps[0], token);
      PastNotRotated(s, steps[0], token);
      StoreStaysExplained(s, steps[0], token, unrenewed);
      PastUntilBack(Apply(s, steps[0]), steps[1..], token, Unrenewed(steps[0], token, unrenewed));
    }
  }

  /**
   Over every run: a token that was rotated is rotated again only after a step has brought it back.
   That step is an answer of upstream with the same token, another writer, or a reload from a store
   that was not renewed since the first rotation or was set back by another writer.
   */
  lemma {:induction false} SecondRotationNeedsReturn(s: State, step: Step, later: seq<Step>, token: string)
    requires Inv(s) && Enabled(s, step) && RotatesFor(s, step, token) && EnabledRun(Apply(s, step), later)
    ensures Count(Run(Apply(s, step), later).rotations, token) > Count(Apply(s, step).rotations, token)
            ==> BringsBack(s, step, token) || ComesBack(Apply(s, step), later, token, true)
  {
    if !BringsBack(s, step, token) {
      RotationEndsToken(s, step, token);
      PastUntilBack(Apply(s, step), later, token, true);
    }
  }

  // ---------------------------------------------------------------- at most one rotation

  /** Persists reach the store and nobody but the store's own history knows `token`. */
  predicate Reliable(step: Step, token: string) {
    match step
    case Receive(_, reply, _) => reply.Tokens? ==> reply.accessToken != token
    case Persist(_, saving) => saving.Written? || saving.WrittenUnreported?
    case OtherAccount(a) => TokenOf(a) != token
    case OtherStored(a) => TokenOf(a) != token
    case _ => true
  }

  predicate AllReliable(steps: seq<Step>, token: string) {
    forall i :: 0 <= i < |steps| ==> Reliable(steps[i], token)
  }

  /** The store still has the token only while the new credentials are on their way to it. */
  ghost predicate RenewalDue(s: State, token: string) {
    TokenOf(s.stored) == token ==> exists c :: c in s.calls && s.calls[c].phase.Persisting?
  }

  lemma {:induction false} NoReloadWhileDue(s: State, step: Step, token: string)
    requires LockInv(s) && RenewalDue(s, token) && Enabled(s, step) && Reliable(step, token)
    ensures !BringsBack(s, step, token)
  {
  }

  lemma {:induction false} RenewalStays(s: State, step: Step, token: string)
    requires IsPast(s, token) && RenewalDue(s, token) && Enabled(s, step) && Reliable(step, token)
    ensures RenewalDue(Apply(s, step), token)
  {
    hide IsExpiring, IsRefreshable, RefreshInputsChanged, NewCredentials;
    var s' := Apply(s, step);
    if step.Persist? { assert CallIsPast(s.calls[step.call], token); }
    if TokenOf(s'.stored) == token {
      var c :| c in s.calls && s.calls[c].phase.Persisting?;
      assert c in s'.calls && s'.calls[c].phase.Persisting?;
    }
  }

  lemma {:induction false} NeverRotatedAgain(s: State, steps: seq<Step>, token: string)
    requires Inv(s) && IsPast(s, token) && RenewalDue(s, token) && EnabledRun(s, steps) && AllReliable(steps, token)
    ensures Count(Run(s, steps).rotations, token) == Count(s.rotations, token)
    decreases |steps|
  {
    hide Apply, Enabled, IsPast, Count, RenewalDue, LockInv, HealthInv, SnapshotInv, Reliable;
    if steps != [] {
      assert Reliable(steps[0], token) && AllReliable(steps[1..], token);
      NoReloadWhileDue(s, steps[0], token);
      StepKept(s, steps[0]);
      PastStays(s, steps[0], token);
      PastNotRotated(s, steps[0], token);
      RenewalStays(s, steps[0], token);
      NeverRotatedAgain(Apply(s, steps[0]), steps[1..], token);
    }
  }

  lemma {:induction false} RotationIsDue(s: State, step: Step, token: string)
    requires Inv(s) && Enabled(s, step) && RotatesFor(s, step, token)
    ensures RenewalDue(Apply(s, step), token)
  {
    hide IsExpiring, IsRefreshable, RefreshInputsChanged, HealthInv, NewCredentials, Refreshed;
    assert SnapshotOk(s.calls[step.call]);
    if step.Receive? {
      var s' := Apply(s, step);
      assert step.call in s'.calls && s'.calls[step.call].phase.Persisting?;
    }
  }

  lemma {:induction false} RotatesOrNot(s: State, step: Step, token: string)
    requires Enabled(s, step)
    ensures Count(Apply(s, step).rotations, token) == Count(s.rotations, token) + if RotatesFor(s, step, token) then 1 else 0
  {
    hide IsExpiring, IsRefreshable, RefreshInputsChanged, NewCredentials, Refreshed, Count;
    if step.Receive? || step.Reload? {
      var call := s.calls[step.call];
      if call.rejected.Some? { CountAppend(s.rotations, (step.call, call.rejected.value), token); }
    }
  }

  /**
   Over every interleaving in which each persist reaches the store, upstream does not issue the token
   again and no other writer brings it back, at most one call rotates for a rejected token.
   */
  lemma {:induction false} OneRotationPerRejectedToken(s: State, steps: seq<Step>, token: string)
    requires Inv(s) && Count(s.rotations, token) == 0 && EnabledRun(s, steps) && AllReliable(steps, token)
    ensures Count(Run(s, steps).rotations, token) <= 1
    decreases |steps|
  {
    hide Apply, Enabled, Count, IsPast, LockInv, HealthInv, SnapshotInv, Reliable, RenewalDue, RotatesFor, BringsBack;
    if steps != [] {
      assert Reliable(steps[0], token) && AllReliable(steps[1..], token);
      var s1 := Apply(s, steps[0]);
      StepKept(s, steps[0]);
      RotatesOrNot(s, steps[0], token);
      if RotatesFor(s, steps[0], token) {
        RotationNotBack(s, steps[0], token);
        RotationEndsToken(s, steps[0], token);
        RotationIsDue(s, steps[0], token);
        NeverRotatedAgain(s1, steps[1..], token);
      } else {
        OneRotationPerRejectedToken(s1, steps[1..], token);
      }
    }
  }

  lemma {:induction false} RotationNotBack(s: State, step: Step, token: string)
    requires Inv(s) && Enabled(s, step) && RotatesFor(s, step, token) && Reliable(step, token)
    ensures !BringsBack(s, step, token)
  {
    hide IsExpiring, IsRefreshable, RefreshInputsChanged, HealthInv, NewCredentials, Refreshed, LockInv;
    assert SnapshotOk(s.calls[step.call]);
  }

  // ---------------------------------------------------------------- exactly when again

  /** No other writer, and upstream does not issue `token` again; persists may fail. */
  predicate Undisturbed(step: Step, token: string) {
    && !step.OtherAccount? && !step.OtherStored?
    && (step.Receive? && step.reply.Tokens? ==> step.reply.accessToken != token)
  }

  predicate AllUndisturbed(steps: seq<Step>, token: string) {
    forall i :: 0 <= i < |steps| ==> Undisturbed(steps[i], token)
  }

  /**
   A call rejected with `token` would find it in memory, or an IdC account could first reload it from
   the store.
   */
  predicate Revivable(account: Account, stored: Account, token: string) {
    && IsRefreshable(account)
    && (TokenOf(account) == token
        || (account.credentials.authMethod == Idc && TokenOf(stored) == token && IsRefreshable(stored)))
  }

  /** Without other writers, a call works on the account as it is in memory. */
  predicate CallIsBarred(call: Call, account: Account, token: string) {
    && (BeforeRotation(call.phase) ==> call.phase.snapshot == account && IsRefreshable(account))
    && (call.phase.Reloading? ==> account.credentials.authMethod == Idc)
    && (call.phase.Persisting? ==> call.phase.credentials == account.credentials && TokenOf(account) != token)
  }

  ghost predicate IsBarred(s: State, token: string) {
    && !Revivable(s.account, s.stored, token)
    && forall c :: c in s.calls ==> CallIsBarred(s.calls[c], s.account, token)
  }

  lemma {:induction false} BarredNotRotated(s: State, step: Step, token: string)
    requires Inv(s) && IsBarred(s, token) && Enabled(s, step)
    ensures Count(Apply(s, step).rotations, token) == Count(s.rotations, token)
  {
    hide IsExpiring, IsRefreshable, RefreshInputsChanged, NewCredentials, Refreshed, Count, HealthInv, LockInv;
    if step.Receive? || step.Reload? {
      var call := s.calls[step.call];
      assert CallIsBarred(call, s.account, token) && SnapshotOk(call);
      if call.rejected.Some? { CountAppend(s.rotations, (step.call, call.rejected.value), token); }
    }
  }

  lemma {:induction false} OthersStayBarred(s: State, s': State, c: nat, token: string)
    requires LockInv(s) && IsBarred(s, token) && c in s.calls && HoldsLock(s.calls[c].phase)
    requires c in s'.calls && s'.calls == s.calls[c := s'.calls[c]]
    requires !Revivable(s'.account, s'.stored, token) && CallIsBarred(s'.calls[c], s'.account, token)
    ensures IsBarred(s', token)
  {
    hide Revivable;
    forall d | d in s'.calls ensures CallIsBarred(s'.calls[d], s'.account, token) {
      if d != c { assert !HoldsLock(s.calls[d].phase); }
    }
  }

  lemma {:induction false} BarredByReceive(s: State, c: nat, reply: Reply, now: int, token: string)
    requires Inv(s) && IsBarred(s, token) && Enabled(s, Receive(c, reply, now)) && Undisturbed(Receive(c, reply, now), token)
    ensures IsBarred(ReceiveStep(s, c, reply, now), token)
  {
    hide HealthInv, SnapshotInv;
    assert CallIsBarred(s.calls[c], s.account, token);
    var s' := ReceiveStep(s, c, reply, now);
    OthersStayBarred(s, s', c, token);
  }

  lemma {:induction false} BarredByReload(s: State, c: nat, readable: bool, now: int, token: string)
    requires Inv(s) && IsBarred(s, token) && Enabled(s, Reload(c, readable, now))
    ensures IsBarred(ReloadStep(s, c, readable, now), token)
  {
    hide HealthInv, SnapshotInv, RefreshInputsChanged;
    assert CallIsBarred(s.calls[c], s.account, token);
    var s' := ReloadStep(s, c, readable, now);
    OthersStayBarred(s, s', c, token);
  }

  lemma {:induction false} BarredByPersist(s: State, c: nat, saving: Saving, token: string)
    requires Inv(s) && IsBarred(s, token) && Enabled(s, Persist(c, saving))
    ensures IsBarred(PersistStep(s, c, saving), token)
  {
    hide HealthInv, SnapshotInv;
    assert CallIsBarred(s.calls[c], s.account, token);
    var s' := PersistStep(s, c, saving);
    OthersStayBarred(s, s', c, token);
  }

  lemma {:induction false} BarredStays(s: State, step: Step, token: string)
    requires Inv(s) && IsBarred(s, token) && Enabled(s, step) && Undisturbed(step, token)
    ensures IsBarred(Apply(s, step), token)
  {
    hide HealthInv, SnapshotInv, Revivable, IsExpiring, ReceiveStep, ReloadStep, PersistStep;
    if step.Receive? {
      BarredByReceive(s, step.call, step.reply, step.now, token);
    } else if step.Reload? {
      BarredByReload(s, step.call, step.readable, step.now, token);
    } else if step.Persist? {
      BarredByPersist(s, step.call, step.saving, token);
    } else {
      var s' := Apply(s, step);
      forall d | d in s'.calls ensures CallIsBarred(s'.calls[d], s'.account, token) {
        if d in s.calls { assert CallIsBarred(s.calls[d], s.account, token); }
      }
    }
  }

  lemma {:induction false} BarredForGood(s: State, steps: seq<Step>, token: string)
    requires Inv(s) && IsBarred(s, token) && EnabledRun(s, steps) && AllUndisturbed(steps, token)
    ensures Count(Run(s, steps).rotations, token) == Count(s.rotations, token)
    decreases |steps|
  {
    hide Apply, Enabled, Count, IsBarred, Undisturbed, LockInv, HealthInv, SnapshotInv;
    if steps != [] {
      assert Undisturbed(steps[0], token) && AllUndisturbed(steps[1..], token);
      StepKept(s, steps[0]);
      BarredNotRotated(s, steps[0], token);
      BarredStays(s, steps[0], token);
      BarredForGood(Apply(s, steps[0]), steps[1..], token);
    }
  }

  lemma {:induction false} RunAppend(s: State, first: seq<Step>, second: seq<Step>)
    requires EnabledRun(s, first) && EnabledRun(Run(s, first), second)
    ensures EnabledRun(s, first + second) && Run(s, first + second) == Run(Run(s, first), second)
    decreases |first|
  {
    hide Enabled, Apply;
    if first == [] {
      assert first + second == second;
    } else {
      RunAppend(Apply(s, first[0]), first[1..], second);
      RunCons(s, first[0], first[1..] + second);
      assert [first[0]] + (first[1..] + second) == first + second;
    }
  }

  /** A call that was told `token` was rejected, up to its request. */
  function BeginSteps(c: nat, token: string): seq<Step> {
    [Start(c, true, Some(token))] + ([Lock(c)] + ([ReadAccount(c, 0, 0)] + ([ReadHealth(c)] + ([Mark(c)] + []))))
  }

  function Begun(s: State, c: nat, token: string): State {
    s.(calls := s.calls[c := Call(true, Some(token), Requesting(s.account, s.health, false))],
       holder := Some(c), health := Refreshing, touched := None)
  }

  lemma {:induction false} Begins(s: State, c: nat, token: string)
    requires s.holder.None? && c !in s.calls && TokenOf(s.account) == token && IsRefreshable(s.account)
    ensures EnabledRun(s, BeginSteps(c, token)) && Run(s, BeginSteps(c, token)) == Begun(s, c, token)
  {
    var s1 := Apply(s, Start(c, true, Some(token)));
    var s2 := Apply(s1, Lock(c));
    var s3 := Apply(s2, ReadAccount(c, 0, 0));
    var s4 := Apply(s3, ReadHealth(c));
    assert Apply(s4, Mark(c)) == Begun(s, c, token);
    hide Apply, IsRefreshable;
    RunCons(s4, Mark(c), []);
    RunCons(s3, ReadHealth(c), [Mark(c)] + []);
    RunCons(s2, ReadAccount(c, 0, 0), [ReadHealth(c)] + ([Mark(c)] + []));
    RunCons(s1, Lock(c), [ReadAccount(c, 0, 0)] + ([ReadHealth(c)] + ([Mark(c)] + [])));
    RunCons(s, Start(c, true, Some(token)), [Lock(c)] + ([ReadAccount(c, 0, 0)] + ([ReadHealth(c)] + ([Mark(c)] + []))));
  }

  /** Four steps that end a call. */
  function EndSteps(c: nat, first: Step, second: Step): seq<Step> {
    [first] + ([second] + ([Restore(c)] + ([Unlock(c)] + [])))
  }

  lemma {:induction false} Ends(s: State, c: nat, first: Step, second: Step)
    requires Enabled(s, first) && Enabled(Apply(s, first), second)
    requires var s2 := Apply(Apply(s, first), second); c in s2.calls && s2.calls[c].phase.Restoring?
    ensures EnabledRun(s, EndSteps(c, first, second))
    ensures var s2, r := Apply(Apply(s, first), second), Run(s, EndSteps(c, first, second));
            && r.account == s2.account && r.stored == s2.stored && r.rotations == s2.rotations
            && r.holder.None? && r.calls.Keys == s2.calls.Keys
  {
    var s1 := Apply(s, first);
    var s2 := Apply(s1, second);
    var s3 := Apply(s2, Restore(c));
    RunCons(s3, Unlock(c), []);
    RunCons(s2, Restore(c), [Unlock(c)] + []);
    RunCons(s1, second, [Restore(c)] + ([Unlock(c)] + []));
    RunCons(s, first, [second] + ([Restore(c)] + ([Unlock(c)] + [])));
  }

  /** A refresh whose new credentials do not reach the store. */
  function UnsavedRefresh(c: nat, token: string, next: string): seq<Step> {
    BeginSteps(c, token) + EndSteps(c, Receive(c, Tokens(next, None, 0, None), 0), Persist(c, NotWritten))
  }

  lemma {:induction false} UnsavedRefreshRotates(s: State, c: nat, token: string, next: string)
    requires s.holder.None? && c !in s.calls && TokenOf(s.account) == token && IsRefreshable(s.account)
    ensures EnabledRun(s, UnsavedRefresh(c, token, next))
    ensures var r := Run(s, UnsavedRefresh(c, token, next));
            && r.account == s.account.(credentials := NewCredentials(s.account.credentials, Tokens(next, None, 0, None), 0))
            && r.stored == s.stored && r.rotations == s.rotations + [(c, token)]
            && r.holder.None? && r.calls.Keys == s.calls.Keys + {c}
  {
    Begins(s, c, token);
    var b := Begun(s, c, token);
    Ends(b, c, Receive(c, Tokens(next, None, 0, None), 0), Persist(c, NotWritten));
    RunAppend(s, BeginSteps(c, token), EndSteps(c, Receive(c, Tokens(next, None, 0, None), 0), Persist(c, NotWritten)));
  }

  /** A refresh that upstream refuses and that then takes the stored credentials. */
  function ReloadingRefresh(c: nat, token: string): seq<Step> {
    BeginSteps(c, token) + EndSteps(c, Receive(c, Refused(Some(400)), 0), Reload(c, true, 0))
  }

  lemma {:induction false} ReloadingRefreshRotates(s: State, c: nat, token: string)
    requires s.holder.None? && c !in s.calls && TokenOf(s.account) == token && IsRefreshable(s.account)
    requires s.account.credentials.authMethod == Idc && TokenOf(s.stored) != token
    ensures EnabledRun(s, ReloadingRefresh(c, token))
    ensures var r := Run(s, ReloadingRefresh(c, token));
            && r.account == s.stored && r.stored == s.stored && r.rotations == s.rotations + [(c, token)]
            && r.holder.None? && r.calls.Keys == s.calls.Keys + {c}
  {
    Begins(s, c, token);
    var b := Begun(s, c, token);
    Ends(b, c, Receive(c, Refused(Some(400)), 0), Reload(c, true, 0));
    RunAppend(s, BeginSteps(c, token), EndSteps(c, Receive(c, Refused(Some(400)), 0), Reload(c, true, 0)));
  }

  lemma {:induction false} FreeName(used: set<nat>) returns (c: nat)
    ensures c !in used
    ensures forall n :: n in used ==> n < c
  {
    if used == {} { return 0; }
    var n :| n in used;
    var d := FreeName(used - {n});
    c := if n < d then d else n + 1;
    assert forall m :: m in used ==> m == n || m in used - {n};
  }

  /** The two ways in which a revivable token is rotated. */
  lemma {:induction false} RevivableIsRotated(s: State, token: string) returns (steps: seq<Step>)
    requires s.holder.None? && Revivable(s.account, s.stored, token)
    ensures EnabledRun(s, steps) && AllUndisturbed(steps, token)
    ensures Count(Run(s, steps).rotations, token) > Count(s.rotations, token)
  {
    hide Enabled, Apply, IsRefreshable, Count, NewCredentials;
    var c := FreeName(s.calls.Keys);
    var next := token + "'";
    assert |next| == |token| + 1;
    if TokenOf(s.account) == token {
      steps := UnsavedRefresh(c, token, next);
      UnsavedRefreshRotates(s, c, token, next);
      CountAppend(s.rotations, (c, token), token);
    } else {
      var current := TokenOf(s.account);
      ReloadingRefreshRotates(s, c, current);
      var r := Run(s, ReloadingRefresh(c, current));
      UnsavedRefreshRotates(r, c + 1, token, next);
      RunAppend(s, ReloadingRefresh(c, current), UnsavedRefresh(c + 1, token, next));
      CountAppend(s.rotations, (c, current), token);
      CountAppend(r.rotations, (c + 1, token), token);
      steps := ReloadingRefresh(c, current) + UnsavedRefresh(c + 1, token, next);
    }
  }

  /** Some undisturbed continuation rotates for `token`. */
  ghost predicate CanRotate(s: State, token: string) {
    exists steps :: EnabledRun(s, steps) && AllUndisturbed(steps, token)
                    && Count(Run(s, steps).rotations, token) > Count(s.rotations, token)
  }

  /**
   Exactly when a token, rotated before or not, can be rotated from here on without other writers and
   without upstream issuing it again: it is in memory, or it is still in the store of an IdC account
   because the persist of its successor failed; the accounts involved must be refreshable.
   */
  lemma {:induction false} RotatesAgainExactly(s: State, token: string)
    requires Inv(s) && s.holder.None?
    ensures CanRotate(s, token) <==> Revivable(s.account, s.stored, token)
  {
    hide Enabled, Apply, Count, Revivable, HealthInv, SnapshotInv;
    if Revivable(s.account, s.stored, token) {
      var steps := RevivableIsRotated(s, token);
    } else {
      assert IsBarred(s, token);
      forall steps | EnabledRun(s, steps) && AllUndisturbed(steps, token)
        ensures Count(Run(s, steps).rotations, token) == Count(s.rotations, token)
      {
        BarredForGood(s, steps, token);
      }
    }
  }

  /** The persist of the successor decides: a token that is left in the store stays revivable exactly when no write happens. */
  lemma {:induction false} PersistDecides(s: State, c: nat, saving: Saving, token: string)
    requires Enabled(s, Persist(c, saving)) && s.calls[c].phase.credentials == s.account.credentials
    requires TokenOf(s.account) != token && TokenOf(s.stored) == token
    requires IsRefreshable(s.account) && s.account.credentials.authMethod == Idc && IsRefreshable(s.stored)
    ensures var s' := Apply(s, Persist(c, saving));
            Revivable(s'.account, s'.stored, token) <==> !WritesStore(Persist(c, saving))
  {
  }

  /** A failed persist and a later refusal. */
  function FailedPersistRun(first: string, second: string, third: string): seq<Step> {
    UnsavedRefresh(1, first, second) + (ReloadingRefresh(2, second) + UnsavedRefresh(3, first, third))
  }

  /** In that run of an IdC account the first token is rotated twice, with no other writer and no token issued twice. */
  lemma {:induction false} FailedPersistRotatesTwice(s: State, first: string, second: string, third: string)
    requires Initial(s) && s.stored == s.account && IsRefreshable(s.account) && s.account.credentials.authMethod == Idc
    requires TokenOf(s.account) == first && first != second && first != third && second != third
    ensures EnabledRun(s, FailedPersistRun(first, second, third))
    ensures Run(s, FailedPersistRun(first, second, third)).rotations == [(1, first), (2, second), (3, first)]
  {
    UnsavedRefreshRotates(s, 1, first, second);
    var s1 := Run(s, UnsavedRefresh(1, first, second));
    assert TokenOf(s1.account) == second && IsRefreshable(s1.account);
    hide Enabled, Apply, NewCredentials, UnsavedRefresh, ReloadingRefresh, IsRefreshable, EnabledRun, Run;
    ReloadingRefreshRotates(s1, 2, second);
    var s2 := Run(s1, ReloadingRefresh(2, second));
    UnsavedRefreshRotates(s2, 3, first, third);
    RunAppend(s1, ReloadingRefresh(2, second), UnsavedRefresh(3, first, third));
    RunAppend(s, UnsavedRefresh(1, first, second), ReloadingRefresh(2, second) + UnsavedRefresh(3, first, third));
  }

  // ---------------------------------------------------------------- in terms of the run

  ghost predicate NeverBack(s: State, steps: seq<Step>, token: string)
    requires EnabledRun(s, steps)
    decreases |steps|
  {
    steps != [] ==> !BringsBack(s, steps[0], token) && NeverBack(Apply(s, steps[0]), steps[1..], token)
  }

  /** After these steps no persist has written the store, or another writer was the last to, with `token`. */
  function UnrenewedAfter(steps: seq<Step>, token: string, unrenewed: bool): bool
    decreases |steps|
  {
    if steps == [] then unrenewed else UnrenewedAfter(steps[1..], token, Unrenewed(steps[0], token, unrenewed))
  }

  lemma {:induction false} StoreStep(s: State, step: Step, token: string)
    requires IsPast(s, token) && Enabled(s, step)
    ensures TokenOf(Apply(s, step).stored) == token <==> Unrenewed(step, token, TokenOf(s.stored) == token)
  {
    hide IsExpiring, IsRefreshable, RefreshInputsChanged, NewCredentials;
    if step.Persist? { assert CallIsPast(s.calls[step.call], token); }
  }

  lemma {:induction false} StoreAfter(s: State, steps: seq<Step>, token: string)
    requires IsPast(s, token) && EnabledRun(s, steps) && NeverBack(s, steps, token)
    ensures IsPast(Run(s, steps), token)
    ensures TokenOf(Run(s, steps).stored) == token <==> UnrenewedAfter(steps, token, TokenOf(s.stored) == token)
    decreases |steps|
  {
    hide Apply, Enabled, IsPast, BringsBack, Unrenewed;
    if steps != [] {
      PastStays(s, steps[0], token);
      StoreStep(s, steps[0], token);
      StoreAfter(Apply(s, steps[0]), steps[1..], token);
    }
  }

  /**
   A token was rotated, has not been brought back since, and no call is under way. If the accounts in
   memory and in the store are refreshable IdC accounts, the token can be rotated a second time if and
   only if it is still in the store: no persist has renewed it since, or another writer set it back.
   */
  lemma {:induction false} SecondRotationExactly(s: State, step: Step, later: seq<Step>, token: string)
    requires Inv(s) && Enabled(s, step) && RotatesFor(s, step, token) && !BringsBack(s, step, token)
    requires EnabledRun(Apply(s, step), later) && NeverBack(Apply(s, step), later, token)
    requires var r := Run(Apply(s, step), later);
             r.holder.None? && IsRefreshable(r.account) && IsRefreshable(r.stored) && r.account.credentials.authMethod == Idc
    ensures var s1 := Apply(s, step);
            CanRotate(Run(s1, later), token) <==> UnrenewedAfter(later, token, TokenOf(s1.stored) == token)
  {
    hide Apply, Enabled, Inv, RotatesFor, BringsBack, CanRotate, IsRefreshable, CallIsPast;
    var s1 := Apply(s, step);
    RotationEndsToken(s, step, token);
    StoreAfter(s1, later, token);
    StepKept(s, step);
    RunKept(s1, later);
    RotatesAgainExactly(Run(s1, later), token);
  }
}
