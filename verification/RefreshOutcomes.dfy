/**
 How a refresh call ends, over every run (crates/kproxy-pool/src/refresh.rs and the health cell of
 state.rs): which outcomes ban the account, which restore its health and to what, and how often a
 call asks. Statements are about the steps between the mark and the release of the lock.
 */
module RefreshOutcomes {
  import opened Wrappers
  import opened RefreshProtocol

  ghost predicate Happens(s: State, step: Step, next: State) {
    Enabled(s, step) && next == Apply(s, step)
  }

  /** The states before, between and after the steps. */
  ghost predicate IsTrace(trace: seq<State>, steps: seq<Step>) {
    && |trace| == |steps| + 1
    && forall i :: 0 <= i < |steps| ==> Happens(trace[i], steps[i], trace[i + 1])
  }

  /** A trace that begins when call `c` marks the account. */
  ghost predicate Marks(trace: seq<State>, steps: seq<Step>, c: nat) {
    IsTrace(trace, steps) && steps != [] && steps[0] == Mark(c) && Inv(trace[0])
  }

  lemma {:induction false} InvAt(trace: seq<State>, steps: seq<Step>, n: nat)
    requires IsTrace(trace, steps) && Inv(trace[0]) && n <= |steps|
    ensures Inv(trace[n])
  {
    hide Inv, Enabled, Apply;
    if n > 0 {
      InvAt(trace, steps, n - 1);
      assert Happens(trace[n - 1], steps[n - 1], trace[n]);
      StepKept(trace[n - 1], steps[n - 1]);
    }
  }

  // ---------------------------------------------------------------- moments of a call

  /** The call learns how its request, or its reload, went. */
  predicate Answers(step: Step, c: nat) {
    (step.Receive? || step.Reload?) && step.call == c
  }

  /** The call sets the health for the last time. */
  predicate Releases(step: Step, c: nat) {
    step == Ban(c) || step == Restore(c)
  }

  /** The last answer among the first `n` steps; 0 when there is none. */
  function LastAnswer(steps: seq<Step>, n: nat, c: nat): nat
    requires n <= |steps|
  {
    if n == 0 then 0 else if Answers(steps[n - 1], c) then n - 1 else LastAnswer(steps, n - 1, c)
  }

  function ReleaseAt(steps: seq<Step>, n: nat, c: nat): nat
    requires n <= |steps|
  {
    if n == 0 then 0 else if Releases(steps[n - 1], c) then n - 1 else ReleaseAt(steps, n - 1, c)
  }

  /** The last health that another task sets in steps `from` to `n`. */
  function LastOther(steps: seq<Step>, from: nat, n: nat): Option<Health>
    requires n <= |steps|
  {
    if n <= from then None
    else if steps[n - 1].OtherHealth? then Some(steps[n - 1].health)
    else LastOther(steps, from, n - 1)
  }

  /** The credentials the call is working with have expired by `now`. */
  predicate HasExpired(s: State, c: nat, now: int) {
    && c in s.calls && (s.calls[c].phase.Requesting? || s.calls[c].phase.Reloading?)
    && s.calls[c].phase.snapshot.credentials.expiresAt <= now
  }

  /** Whether a call bans the account, by its outcome and what it knew at its last answer. */
  predicate MustBan(s: State, step: Step, outcome: Outcome, force: bool, c: nat)
    requires Answers(step, c)
  {
    match outcome
    case ReloadFailed => true
    case NotRefreshable => true
    case UpstreamFailed => force || HasExpired(s, c, step.now)
    case _ => false
  }

  /** What a call reports, by its last answer and what it found in memory and in the store then. */
  predicate OutcomeDue(s: State, step: Step, c: nat, outcome: Outcome)
    requires Answers(step, c)
  {
    match step
    case Receive(_, reply, _) => if reply.Tokens? then outcome == Changed || outcome == ChangedUnsaved else outcome == UpstreamFailed
    case Reload(_, readable, _) =>
      && c in s.calls && s.calls[c].phase.Reloading?
      && var was, now := s.calls[c].phase.snapshot.credentials, s.stored.credentials;
         outcome ==
           if !readable then ReloadFailed
           else if s.stored == s.account then UpstreamFailed
           else if now.accessToken != was.accessToken then Changed
           else if now.(accessToken := "", expiresAt := 0) == was.(accessToken := "", expiresAt := 0) then UpstreamFailed
           else NotRefreshable
  }

  /** The health after the call: banned, or the last one set meanwhile, or the one before the mark. */
  function HealthDue(bans: bool, meanwhile: Option<Health>, before: Health): Health {
    if bans then Banned
    else if meanwhile.Some? then meanwhile.value
    else if before == Cooling then Cooling
    else if before == Exhausted then Exhausted
    else Available
  }

  // ---------------------------------------------------------------- invariant along the trace

  /** What is known of call `c` after `n` steps. */
  ghost predicate Stage(trace: seq<State>, steps: seq<Step>, n: nat, c: nat)
    requires |trace| == |steps| + 1 && 0 < n <= |steps|
  {
    && c in trace[0].calls && trace[0].calls[c].phase.Marking? && c in trace[n].calls
    && var call, before, a := trace[n].calls[c], trace[0].calls[c].phase.before, LastAnswer(steps, n, c);
       && call.force == trace[0].calls[c].force
       && (Marked(call.phase) ==> trace[n].touched == LastOther(steps, 1, n))
       && match call.phase
          case Requesting(_, b, _) => b == before
          case Reloading(_, b) => b == before
          case Persisting(b, _, _) => b == before && Answered(steps, a, c) && steps[a].Receive? && steps[a].reply.Tokens?
          case Restoring(b, o) =>
            && b == before && Answered(steps, a, c) && !MustBan(trace[a], steps[a], o, call.force, c)
            && OutcomeDue(trace[a], steps[a], c, o)
          case Banning(o) =>
            Answered(steps, a, c) && MustBan(trace[a], steps[a], o, call.force, c) && OutcomeDue(trace[a], steps[a], c, o)
          case Leaving(o) => Answered(steps, a, c) && Ended(trace, steps, n, c, o)
          case Done(_) => true
          case _ => false
  }

  predicate Answered(steps: seq<Step>, a: nat, c: nat) {
    0 < a < |steps| && Answers(steps[a], c)
  }

  /** The call has released the account with the health that was due, and only other tasks have set it since. */
  ghost predicate Ended(trace: seq<State>, steps: seq<Step>, n: nat, c: nat, outcome: Outcome)
    requires |trace| == |steps| + 1 && 0 < n <= |steps| && Answered(steps, LastAnswer(steps, n, c), c)
    requires c in trace[0].calls && trace[0].calls[c].phase.Marking?
  {
    var a, j := LastAnswer(steps, n, c), ReleaseAt(steps, n, c);
    && a < j < n && Releases(steps[j], c) && OutcomeDue(trace[a], steps[a], c, outcome)
    && var bans := MustBan(trace[a], steps[a], outcome, trace[0].calls[c].force, c);
       && trace[j + 1].health == HealthDue(bans, LastOther(steps, 1, j), trace[0].calls[c].phase.before)
       && trace[n].health == (if LastOther(steps, j + 1, n).Some? then LastOther(steps, j + 1, n).value else trace[j + 1].health)
  }

  /** The call, if the step is one of its own. */
  function Actor(step: Step): Option<nat> {
    match step
    case OtherHealth(_) => None
    case OtherAccount(_) => None
    case OtherStored(_) => None
    case _ => Some(step.call)
  }

  lemma {:induction false} OthersLeaveCall(s: State, step: Step, c: nat)
    requires Enabled(s, step) && c in s.calls && Actor(step) != Some(c)
    ensures c in Apply(s, step).calls && Apply(s, step).calls[c] == s.calls[c]
  {
    hide IsExpiring, IsRefreshable, RefreshInputsChanged, NewCredentials, Refreshed;
  }

  /** While a call holds the lock, only it and other tasks change the health. */
  lemma {:induction false} OthersLeaveHealth(s: State, step: Step, c: nat)
    requires Inv(s) && Enabled(s, step) && c in s.calls && HoldsLock(s.calls[c].phase) && Actor(step) != Some(c)
    ensures !step.OtherHealth? ==> Apply(s, step).health == s.health && Apply(s, step).touched == s.touched
    ensures step.OtherHealth? ==> Apply(s, step).health == step.health && Apply(s, step).touched == Some(step.health)
  {
    hide IsExpiring, IsRefreshable, RefreshInputsChanged, NewCredentials, Refreshed, HealthInv, SnapshotInv;
  }

  lemma {:induction false} StageOther(trace: seq<State>, steps: seq<Step>, n: nat, c: nat)
    requires IsTrace(trace, steps) && Inv(trace[0]) && 0 < n < |steps| && Stage(trace, steps, n, c) && Actor(steps[n]) != Some(c)
    ensures Stage(trace, steps, n + 1, c)
  {
    hide Inv, Enabled, Apply, MustBan, OutcomeDue;
    InvAt(trace, steps, n);
    assert Happens(trace[n], steps[n], trace[n + 1]);
    OthersLeaveCall(trace[n], steps[n], c);
    if HoldsLock(trace[n].calls[c].phase) { OthersLeaveHealth(trace[n], steps[n], c); }
  }

  /** Where an answer takes the call. */
  predicate PhaseDue(s: State, step: Step, c: nat, before: Health, force: bool, phase: Phase)
    requires Answers(step, c)
  {
    match phase
    case Requesting(_, b, _) => b == before
    case Reloading(_, b) => b == before
    case Persisting(b, _, _) => b == before && step.Receive? && step.reply.Tokens?
    case Restoring(b, o) => b == before && OutcomeDue(s, step, c, o) && !MustBan(s, step, o, force, c)
    case Banning(o) => OutcomeDue(s, step, c, o) && MustBan(s, step, o, force, c)
    case _ => false
  }

  lemma {:induction false} AnswerStep(s: State, step: Step, c: nat)
    requires Enabled(s, step) && Answers(step, c)
    ensures var s', p := Apply(s, step), s.calls[c].phase;
            && c in s'.calls && s'.calls[c].force == s.calls[c].force && s'.touched == s.touched
            && PhaseDue(s, step, c, p.before, s.calls[c].force, s'.calls[c].phase)
  {
    hide NewCredentials, Refreshed, IsRefreshable;
  }

  lemma {:induction false} StageAnswer(trace: seq<State>, steps: seq<Step>, n: nat, c: nat)
    requires IsTrace(trace, steps) && Inv(trace[0]) && 0 < n < |steps| && Stage(trace, steps, n, c) && Actor(steps[n]) == Some(c)
    requires Answers(steps[n], c)
    ensures Stage(trace, steps, n + 1, c)
  {
    hide Inv, Apply, Ended, OutcomeDue, MustBan;
    assert Happens(trace[n], steps[n], trace[n + 1]);
    AnswerStep(trace[n], steps[n], c);
    assert LastAnswer(steps, n + 1, c) == n;
    hide LastAnswer;
  }

  lemma {:induction false} StagePersist(trace: seq<State>, steps: seq<Step>, n: nat, c: nat)
    requires IsTrace(trace, steps) && Inv(trace[0]) && 0 < n < |steps| && Stage(trace, steps, n, c) && Actor(steps[n]) == Some(c)
    requires steps[n].Persist?
    ensures Stage(trace, steps, n + 1, c)
  {
    hide Inv, Ended, Refreshed;
    assert Happens(trace[n], steps[n], trace[n + 1]);
    assert LastAnswer(steps, n + 1, c) == LastAnswer(steps, n, c);
    hide LastAnswer;
  }

  lemma {:induction false} StageRelease(trace: seq<State>, steps: seq<Step>, n: nat, c: nat)
    requires IsTrace(trace, steps) && Inv(trace[0]) && 0 < n < |steps| && Stage(trace, steps, n, c) && Actor(steps[n]) == Some(c)
    requires Releases(steps[n], c)
    ensures Stage(trace, steps, n + 1, c)
  {
    hide MustBan, OutcomeDue;
    InvAt(trace, steps, n);
    assert Happens(trace[n], steps[n], trace[n + 1]);
    assert LastAnswer(steps, n + 1, c) == LastAnswer(steps, n, c);
    LastAnswerEarlier(steps, n, c);
    assert ReleaseAt(steps, n + 1, c) == n && LastOther(steps, n + 1, n + 1) == None;
    hide LastAnswer, ReleaseAt, LastOther, SnapshotInv, LockInv;
  }

  lemma {:induction false} LastAnswerEarlier(steps: seq<Step>, n: nat, c: nat)
    requires n <= |steps|
    ensures LastAnswer(steps, n, c) < n || LastAnswer(steps, n, c) == 0
  {
    if n > 0 { LastAnswerEarlier(steps, n - 1, c); }
  }

  /** Of its own steps, only these are open to a call that has marked the account. */
  lemma {:induction false} StageOwn(trace: seq<State>, steps: seq<Step>, n: nat, c: nat)
    requires IsTrace(trace, steps) && Inv(trace[0]) && 0 < n < |steps| && Stage(trace, steps, n, c) && Actor(steps[n]) == Some(c)
    ensures Stage(trace, steps, n + 1, c)
  {
    assert Happens(trace[n], steps[n], trace[n + 1]);
    if Answers(steps[n], c) {
      StageAnswer(trace, steps, n, c);
    } else if steps[n].Persist? {
      StagePersist(trace, steps, n, c);
    } else if Releases(steps[n], c) {
      StageRelease(trace, steps, n, c);
    } else {
      hide Inv, MustBan, OutcomeDue, Ended, ReceiveStep, ReloadStep, PersistStep, ReadAccountStep;
    }
  }

  lemma {:induction false} StageAt(trace: seq<State>, steps: seq<Step>, n: nat, c: nat)
    requires Marks(trace, steps, c) && 0 < n <= |steps|
    ensures Stage(trace, steps, n, c)
  {
    if n == 1 {
      assert Happens(trace[0], steps[0], trace[1]);
    } else {
      hide Stage, Inv;
      StageAt(trace, steps, n - 1, c);
      if Actor(steps[n - 1]) == Some(c) { StageOwn(trace, steps, n - 1, c); } else { StageOther(trace, steps, n - 1, c); }
    }
  }

  /**
   Over every run from the mark of a call until it has set the health for the last time: the account is
   banned exactly when the reload failed, the reloaded credentials cannot be refreshed, or upstream
   failed and the call was forced or its credentials had expired at the last answer. Otherwise the
   health is the last one another task has set since the mark, or else the earlier one, with cooling
   and exhausted kept and everything else available.
   */
  lemma {:induction false} RefreshEndsAsDue(trace: seq<State>, steps: seq<Step>, c: nat)
    requires Marks(trace, steps, c)
    requires c in trace[|steps|].calls && trace[|steps|].calls[c].phase.Leaving?
    ensures c in trace[0].calls && trace[0].calls[c].phase.Marking?
    ensures Answered(steps, LastAnswer(steps, |steps|, c), c)
    ensures Ended(trace, steps, |steps|, c, trace[|steps|].calls[c].phase.outcome)
  {
    StageAt(trace, steps, |steps|, c);
  }

  // ---------------------------------------------------------------- how often a call asks

  function CountAsked(steps: seq<Step>, n: nat, c: nat): nat
    requires n <= |steps|
  {
    if n == 0 then 0 else CountAsked(steps, n - 1, c) + if steps[n - 1].Receive? && steps[n - 1].call == c then 1 else 0
  }

  function CountReloaded(steps: seq<Step>, n: nat, c: nat): nat
    requires n <= |steps|
  {
    if n == 0 then 0 else CountReloaded(steps, n - 1, c) + if steps[n - 1].Reload? && steps[n - 1].call == c then 1 else 0
  }

  /** A first request, perhaps one reload, perhaps one more request. */
  predicate AskedSoFar(phase: Phase, asked: nat, reloaded: nat) {
    match phase
    case Requesting(_, _, retried) => if retried then asked == 1 && reloaded == 1 else asked == 0 && reloaded == 0
    case Reloading(_, _) => asked == 1 && reloaded == 0
    case Persisting(_, _, _) => asked <= 2 && reloaded <= 1
    case Restoring(_, _) => asked <= 2 && reloaded <= 1
    case Banning(_) => asked <= 2 && reloaded <= 1
    case Leaving(_) => asked <= 2 && reloaded <= 1
    case Done(_) => asked <= 2 && reloaded <= 1
    case _ => false
  }

  lemma {:induction false} AskedStep(s: State, step: Step, c: nat, asked: nat, reloaded: nat)
    requires Enabled(s, step) && c in s.calls && AskedSoFar(s.calls[c].phase, asked, reloaded)
    ensures c in Apply(s, step).calls
    ensures AskedSoFar(Apply(s, step).calls[c].phase,
                       asked + if step.Receive? && step.call == c then 1 else 0,
                       reloaded + if step.Reload? && step.call == c then 1 else 0)
  {
    hide IsExpiring, IsRefreshable, RefreshInputsChanged, NewCredentials, Refreshed;
    if Actor(step) != Some(c) { OthersLeaveCall(s, step, c); }
  }

  /** From its mark on a call makes at most two requests and reloads at most once, whatever it is answered. */
  lemma {:induction false} AsksAtMostTwice(trace: seq<State>, steps: seq<Step>, n: nat, c: nat)
    requires Marks(trace, steps, c) && 0 < n <= |steps|
    ensures c in trace[n].calls && AskedSoFar(trace[n].calls[c].phase, CountAsked(steps, n, c), CountReloaded(steps, n, c))
    ensures CountAsked(steps, n, c) <= 2 && CountReloaded(steps, n, c) <= 1
  {
    hide Inv;
    assert Happens(trace[n - 1], steps[n - 1], trace[n]);
    if n > 1 {
      hide Apply, Enabled, AskedSoFar;
      AsksAtMostTwice(trace, steps, n - 1, c);
      AskedStep(trace[n - 1], steps[n - 1], c, CountAsked(steps, n - 1, c), CountReloaded(steps, n - 1, c));
    }
    AskedBounds(trace[n].calls[c].phase, CountAsked(steps, n, c), CountReloaded(steps, n, c));
  }

  lemma {:induction false} AskedBounds(phase: Phase, asked: nat, reloaded: nat)
    requires AskedSoFar(phase, asked, reloaded)
    ensures asked <= 2 && reloaded <= 1
  {
  }

  /** Only an IdC account whose first request was refused with status 400 reloads; what else is refused ends the call. */
  lemma {:induction false} ReloadsExactly(s: State, c: nat, reply: Reply, now: int)
    requires Enabled(s, Receive(c, reply, now))
    ensures var was, next := s.calls[c].phase, Apply(s, Receive(c, reply, now)).calls[c].phase;
            && (next.Reloading? <==> reply == Refused(Some(400)) && was.snapshot.credentials.authMethod == Idc && !was.retried)
            && (next.Persisting? <==> reply.Tokens?)
            && (next.Reloading? || next.Persisting? || next.Restoring? || next.Banning?)
  {
    hide NewCredentials, Refreshed;
  }

  // ---------------------------------------------------------------- when a refresh starts, and what it installs

  /**
   A call goes on to refresh exactly when the rejected token, if it was told of one, is still in use, it
   was forced or the token is about to expire, and the account has what its kind of refresh needs.
   */
  lemma {:induction false} StartsExactly(s: State, c: nat, now: int, window: int)
    requires Enabled(s, ReadAccount(c, now, window))
    ensures var call, a := s.calls[c], s.account.credentials;
            Apply(s, ReadAccount(c, now, window)).calls[c].phase.Checked? <==>
            && (call.rejected == None || call.rejected == Some(a.accessToken))
            && (call.force || a.expiresAt <= now + window)
            && a.refreshToken != None
            && (a.authMethod == Social || (a.authMethod == Idc && a.clientId != None && a.clientSecret != None))
  {
  }

  /** A saved refresh: memory and store hold the same account, with the tokens of the reply and all else as it was. */
  lemma {:induction false} SavedRefresh(s: State, c: nat, reply: Reply, now: int)
    requires Enabled(s, Receive(c, reply, now)) && reply.Tokens?
    ensures var s1 := Apply(s, Receive(c, reply, now));
            && Enabled(s1, Persist(c, Written))
            && var s2, was := Apply(s1, Persist(c, Written)), s.account.credentials;
               && s2.account == s2.stored
               && s2.account.credentials == Credentials(
                    reply.accessToken, if reply.refreshToken == None then was.refreshToken else reply.refreshToken,
                    was.clientId, was.clientSecret, was.region, was.authMethod, now + reply.expiresIn)
               && s2.account.profileArn == if reply.profileArn == None then s.stored.profileArn else reply.profileArn
  {
  }

  /** A persist that starts puts the new credentials back, whatever other writers did, and writes exactly them or nothing. */
  lemma {:induction false} PersistPutsBack(s: State, c: nat, saving: Saving)
    requires Enabled(s, Persist(c, saving))
    ensures var s', credentials := Apply(s, Persist(c, saving)), s.calls[c].phase.credentials;
            && (saving == NotStarted ==> s'.account == s.account && s'.stored == s.stored)
            && (saving != NotStarted ==> s'.account.credentials == credentials)
            && (saving == NotWritten ==> s'.stored == s.stored)
            && (saving == Written || saving == WrittenUnreported ==> s'.stored.credentials == credentials)
            && (s'.calls[c].phase.Restoring? && (s'.calls[c].phase.outcome == Changed <==> saving == Written))
  {
  }
}
