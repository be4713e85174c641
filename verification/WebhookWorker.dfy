/**
 The webhook worker of one target (crates/kproxy-notify/src/lib.rs): account events of one kind
 are gathered into one delivery, everything else keeps waiting in `pending`. Deliveries are named
 by their position in the order of arrival. Events may arrive between any two steps.
 */
module WebhookWorker {
  datatype Delivery = Delivery(kind: int, account: bool, message: string)

  /** How one send ended: `Refused` never reached the target and may be retried. */
  datatype Outcome = Sent | Refused | Failed

  /** One record of the delivery log. */
  datatype Entry = Entry(batch: seq<nat>, success: bool, attempts: nat)

  datatype Stage = Idle | Gathering(kind: int, batch: seq<nat>) | Sending(batch: seq<nat>, attempt: nat)

  /**
   `arrivals` is everything ever put into the channel, of which the first `received` have been
   taken out. `log` is the full list of records, `history` the part that is kept.
   */
  datatype Worker = Worker(
    arrivals: seq<Delivery>,
    received: nat,
    pending: seq<nat>,
    stage: Stage,
    log: seq<Entry>,
    history: seq<Entry>)

  datatype Step = Arrive(delivery: Delivery) | Take | DrainOne | EndDrain | Attempt(outcome: Outcome)

  // ---------------------------------------------------------------- gathering

  predicate Matches(arrivals: seq<Delivery>, kind: int, i: nat) {
    i < |arrivals| && arrivals[i].kind == kind && arrivals[i].account
  }

  /** The entries of `queue` that match, or that do not. */
  function Pick(arrivals: seq<Delivery>, kind: int, queue: seq<nat>, matching: bool): seq<nat> {
    if queue == [] then [] else
    var rest := Pick(arrivals, kind, queue[..|queue| - 1], matching);
    if Matches(arrivals, kind, queue[|queue| - 1]) == matching then rest + [queue[|queue| - 1]] else rest
  }

  /** The loop over `pending` in `collect_account_event_batch`. */
  method GatherPending(arrivals: seq<Delivery>, kind: int, first: nat, pending: seq<nat>) returns (batch: seq<nat>, deferred: seq<nat>)
    ensures batch == [first] + Pick(arrivals, kind, pending, true)
    ensures deferred == Pick(arrivals, kind, pending, false)
  {
    batch, deferred := [first], [];
    var queue := pending;
    ghost var done: seq<nat> := [];
    while queue != []
      invariant done + queue == pending
      invariant batch == [first] + Pick(arrivals, kind, done, true)
      invariant deferred == Pick(arrivals, kind, done, false)
      decreases |queue|
    {
      var candidate := queue[0];
      PickAppend(arrivals, kind, done, candidate, true);
      PickAppend(arrivals, kind, done, candidate, false);
      if Matches(arrivals, kind, candidate) {
        batch := batch + [candidate];
      } else {
        deferred := deferred + [candidate];
      }
      done, queue := done + [candidate], queue[1..];
    }
    assert done == pending;
  }

  lemma {:induction false} PickAppend(arrivals: seq<Delivery>, kind: int, queue: seq<nat>, i: nat, matching: bool)
    ensures Pick(arrivals, kind, queue + [i], matching) ==
      Pick(arrivals, kind, queue, matching) + if Matches(arrivals, kind, i) == matching then [i] else []
  {
    assert (queue + [i])[..|queue|] == queue;
  }

  // ---------------------------------------------------------------- delivery

  const MaxAttempts: nat := 3

  const HistoryLimit: nat := 1000

  /** What becomes of a delivery whose sends would end as `outcomes` says. */
  function Verdict(outcomes: nat -> Outcome, attempt: nat): (r: (bool, nat))
    requires attempt < MaxAttempts
    ensures attempt < r.1 <= MaxAttempts
    ensures r.0 <==> outcomes(r.1 - 1).Sent?
    ensures forall a :: attempt <= a < r.1 - 1 ==> outcomes(a).Refused?
    ensures outcomes(r.1 - 1).Refused? ==> r.1 == MaxAttempts
    decreases MaxAttempts - attempt
  {
    if outcomes(attempt).Refused? && attempt + 1 < MaxAttempts then Verdict(outcomes, attempt + 1)
    else (outcomes(attempt).Sent?, attempt + 1)
  }

  function Newest(log: seq<Entry>): seq<Entry> {
    if |log| <= HistoryLimit then log else log[|log| - HistoryLimit..]
  }

  class History {
    var entries: seq<Entry>
    ghost var all: seq<Entry>

    ghost predicate Valid() reads this { entries == Newest(all) }

    constructor ()
      ensures Valid() && all == []
    {
      entries, all := [], [];
    }

    /** `record_delivery` keeps the newest thousand records. */
    method Record(e: Entry)
      requires Valid()
      modifies this
      ensures Valid() && all == old(all) + [e]
    {
      entries := entries + [e];
      all := all + [e];
      assert |entries| <= HistoryLimit + 1;
      while |entries| > HistoryLimit
        invariant entries == if |all| <= |entries| then all else all[|all| - |entries|..]
        invariant HistoryLimit <= |entries| || |entries| == |all|
        invariant all == old(all) + [e]
      {
        entries := entries[1..];
      }
    }

    /** `deliver`: at most three attempts, one record. */
    method Deliver(batch: seq<nat>, outcomes: nat -> Outcome)
      requires Valid()
      modifies this
      ensures Valid()
      ensures all == old(all) + [Entry(batch, Verdict(outcomes, 0).0, Verdict(outcomes, 0).1)]
    {
      var attempt := 0;
      while true
        invariant attempt < MaxAttempts && Valid() && all == old(all)
        invariant Verdict(outcomes, attempt) == Verdict(outcomes, 0)
        decreases MaxAttempts - attempt
      {
        match outcomes(attempt)
        case Sent =>
          Record(Entry(batch, true, attempt + 1));
          return;
        case Refused =>
          if attempt + 1 == MaxAttempts {
            Record(Entry(batch, false, attempt + 1));
            return;
          }
          attempt := attempt + 1;
        case Failed =>
          Record(Entry(batch, false, attempt + 1));
          return;
      }
    }
  }

  // ---------------------------------------------------------------- steps

  predicate Enabled(w: Worker, step: Step) {
    match step
    case Arrive(_) => true
    case Take => w.stage.Idle? && if w.pending != [] then w.pending[0] < |w.arrivals| else w.received < |w.arrivals|
    case DrainOne => w.stage.Gathering? && w.received < |w.arrivals|
    case EndDrain => w.stage.Gathering? && w.received == |w.arrivals|
    case Attempt(_) => w.stage.Sending?
  }

  /** The batch that `first` starts; an event without account goes alone. */
  function Begin(w: Worker, first: nat, rest: seq<nat>): Worker
    requires first < |w.arrivals|
  {
    var d := w.arrivals[first];
    if !d.account then w.(stage := Sending([first], 0), pending := rest)
    else w.(stage := Gathering(d.kind, [first] + Pick(w.arrivals, d.kind, rest, true)), pending := Pick(w.arrivals, d.kind, rest, false))
  }

  function Recorded(w: Worker, e: Entry): Worker {
    w.(stage := Idle, log := w.log + [e], history := Newest(w.history + [e]))
  }

  function Next(w: Worker, step: Step): Worker
    requires Enabled(w, step)
  {
    match step
    case Arrive(d) => w.(arrivals := w.arrivals + [d])
    case Take =>
      if w.pending != [] then Begin(w, w.pending[0], w.pending[1..])
      else Begin(w.(received := w.received + 1), w.received, [])
    case DrainOne =>
      var w1 := w.(received := w.received + 1);
      if Matches(w.arrivals, w.stage.kind, w.received) then w1.(stage := Gathering(w.stage.kind, w.stage.batch + [w.received]))
      else w1.(pending := w.pending + [w.received])
    case EndDrain => w.(stage := Sending(w.stage.batch, 0))
    case Attempt(outcome) =>
      var batch, attempt := w.stage.batch, w.stage.attempt;
      if outcome.Refused? && attempt + 1 < MaxAttempts then w.(stage := Sending(batch, attempt + 1))
      else Recorded(w, Entry(batch, outcome.Sent?, attempt + 1))
  }

  // ---------------------------------------------------------------- invariants

  function Flat(log: seq<Entry>): seq<nat> {
    if log == [] then [] else Flat(log[..|log| - 1]) + log[|log| - 1].batch
  }

  function BatchOf(stage: Stage): seq<nat> {
    if stage.Idle? then [] else stage.batch
  }

  /** Everything handed to delivery so far, in order. */
  function Out(w: Worker): seq<nat> {
    Flat(w.log) + BatchOf(w.stage)
  }

  predicate AllBelow(s: seq<nat>, n: nat) {
    forall i :: 0 <= i < |s| ==> s[i] < n
  }

  predicate Increasing(s: seq<nat>) {
    forall i, j :: 0 <= i < j < |s| ==> s[i] < s[j]
  }

  function Names(n: nat): multiset<nat> {
    if n == 0 then multiset{} else Names(n - 1) + multiset{n - 1}
  }

  /** Events that must not overtake each other: those without account, and account events of one kind. */
  predicate SameLine(arrivals: seq<Delivery>, i: nat, j: nat) {
    && i < |arrivals| && j < |arrivals|
    && arrivals[i].account == arrivals[j].account
    && (arrivals[i].account ==> arrivals[i].kind == arrivals[j].kind)
  }

  predicate InOrder(arrivals: seq<Delivery>, out: seq<nat>) {
    forall p, q :: 0 <= p < q < |out| && SameLine(arrivals, out[p], out[q]) ==> out[p] < out[q]
  }

  predicate Ahead(arrivals: seq<Delivery>, out: seq<nat>, pending: seq<nat>) {
    forall p, q :: 0 <= p < |out| && 0 <= q < |pending| && SameLine(arrivals, out[p], pending[q]) ==> out[p] < pending[q]
  }

  predicate NoneMatch(arrivals: seq<Delivery>, kind: int, pending: seq<nat>) {
    forall i :: 0 <= i < |pending| ==> !Matches(arrivals, kind, pending[i])
  }

  predicate AllMatch(arrivals: seq<Delivery>, kind: int, batch: seq<nat>) {
    forall i :: 0 <= i < |batch| ==> Matches(arrivals, kind, batch[i])
  }

  /** While a batch is gathered, it has every matching delivery received so far. */
  predicate GatheredFully(arrivals: seq<Delivery>, stage: Stage, pending: seq<nat>) {
    stage.Gathering? ==> NoneMatch(arrivals, stage.kind, pending) && AllMatch(arrivals, stage.kind, stage.batch)
  }

  /**
   Each received delivery is handed out or pending, exactly once; pending is in order of arrival;
   no delivery is handed out before an earlier one of its line.
   */
  predicate Flow(arrivals: seq<Delivery>, received: nat, out: seq<nat>, pending: seq<nat>) {
    && received <= |arrivals|
    && AllBelow(out, received) && AllBelow(pending, received)
    && multiset(out) + multiset(pending) == Names(received)
    && Increasing(pending)
    && InOrder(arrivals, out) && Ahead(arrivals, out, pending)
  }

  /** At most three attempts for each record; the history is the newest part of the log. */
  predicate LogFits(stage: Stage, log: seq<Entry>, history: seq<Entry>) {
    && history == Newest(log)
    && (stage.Sending? ==> stage.attempt < MaxAttempts)
    && forall i :: 0 <= i < |log| ==> 1 <= log[i].attempts <= MaxAttempts
  }

  predicate Inv(w: Worker) {
    && Flow(w.arrivals, w.received, Out(w), w.pending)
    && GatheredFully(w.arrivals, w.stage, w.pending)
    && LogFits(w.stage, w.log, w.history)
  }

  // ---------------------------------------------------------------- facts about picking

  lemma {:induction false} PickMember(arrivals: seq<Delivery>, kind: int, queue: seq<nat>, matching: bool, i: nat)
    requires i < |Pick(arrivals, kind, queue, matching)|
    ensures Pick(arrivals, kind, queue, matching)[i] in queue
    ensures Matches(arrivals, kind, Pick(arrivals, kind, queue, matching)[i]) == matching
  {
    var last := |queue| - 1;
    if i < |Pick(arrivals, kind, queue[..last], matching)| {
      PickMember(arrivals, kind, queue[..last], matching, i);
    }
  }

  lemma {:induction false} PickIncreasing(arrivals: seq<Delivery>, kind: int, queue: seq<nat>, matching: bool)
    requires Increasing(queue)
    ensures Increasing(Pick(arrivals, kind, queue, matching))
  {
    if queue != [] {
      var last := |queue| - 1;
      PickIncreasing(arrivals, kind, queue[..last], matching);
      var rest := Pick(arrivals, kind, queue[..last], matching);
      forall i | 0 <= i < |rest| ensures rest[i] < queue[last] {
        PickMember(arrivals, kind, queue[..last], matching, i);
      }
    }
  }

  lemma {:induction false} PickSplits(arrivals: seq<Delivery>, kind: int, queue: seq<nat>)
    ensures multiset(Pick(arrivals, kind, queue, true)) + multiset(Pick(arrivals, kind, queue, false)) == multiset(queue)
  {
    if queue != [] {
      var last := |queue| - 1;
      PickSplits(arrivals, kind, queue[..last]);
      assert queue == queue[..last] + [queue[last]];
    }
  }

  // ---------------------------------------------------------------- the flow of deliveries

  /** Moving part of the queue out keeps the order within every line. */
  lemma {:induction false} MoveInOrder(arrivals: seq<Delivery>, out: seq<nat>, pending: seq<nat>, moved: seq<nat>, left: seq<nat>)
    requires InOrder(arrivals, out) && Ahead(arrivals, out, pending) && Increasing(moved)
    requires forall i :: 0 <= i < |moved| ==> moved[i] in pending
    requires forall i :: 0 <= i < |left| ==> left[i] in pending
    requires Ahead(arrivals, moved, left)
    ensures InOrder(arrivals, out + moved) && Ahead(arrivals, out + moved, left)
  {
    hide SameLine;
    var all := out + moved;
    forall p, q | 0 <= p < q < |all| && SameLine(arrivals, all[p], all[q]) ensures all[p] < all[q] {
      if p < |out| <= q {
        var i :| 0 <= i < |pending| && pending[i] == moved[q - |out|];
        assert all[q] == pending[i];
      }
    }
    forall p, q | 0 <= p < |all| && 0 <= q < |left| && SameLine(arrivals, all[p], left[q]) ensures all[p] < left[q] {
      if p < |out| {
        var i :| 0 <= i < |pending| && pending[i] == left[q];
      }
    }
  }

  lemma {:induction false} FlowMoves(arrivals: seq<Delivery>, received: nat, out: seq<nat>, pending: seq<nat>, moved: seq<nat>, left: seq<nat>)
    requires Flow(arrivals, received, out, pending)
    requires multiset(moved) + multiset(left) == multiset(pending)
    requires Increasing(moved) && Increasing(left) && Ahead(arrivals, moved, left)
    ensures Flow(arrivals, received, out + moved, left)
  {
    hide Increasing, Ahead, InOrder;
    forall i | 0 <= i < |moved| ensures moved[i] in pending { assert moved[i] in multiset(moved) + multiset(left); }
    forall i | 0 <= i < |left| ensures left[i] in pending { assert left[i] in multiset(moved) + multiset(left); }
    MoveInOrder(arrivals, out, pending, moved, left);
    BelowMembers(pending, moved, received);
    BelowMembers(pending, left, received);
  }

  lemma {:induction false} BelowMembers(pending: seq<nat>, part: seq<nat>, n: nat)
    requires AllBelow(pending, n) && forall i :: 0 <= i < |part| ==> part[i] in pending
    ensures AllBelow(part, n)
  {
  }

  lemma {:induction false} FlowReceives(arrivals: seq<Delivery>, received: nat, out: seq<nat>, pending: seq<nat>)
    requires Flow(arrivals, received, out, pending) && received < |arrivals|
    ensures Flow(arrivals, received + 1, out, pending + [received])
  {
    hide SameLine, InOrder;
  }

  lemma {:induction false} FlowJoins(arrivals: seq<Delivery>, received: nat, out: seq<nat>, pending: seq<nat>, kind: int)
    requires Flow(arrivals, received, out, pending) && Matches(arrivals, kind, received) && NoneMatch(arrivals, kind, pending)
    ensures Flow(arrivals, received + 1, out + [received], pending)
  {
    forall q | 0 <= q < |pending| ensures !SameLine(arrivals, received, pending[q]) {}
    hide SameLine;
  }

  lemma {:induction false} FlowArrives(arrivals: seq<Delivery>, d: Delivery, received: nat, out: seq<nat>, pending: seq<nat>)
    requires Flow(arrivals, received, out, pending)
    ensures Flow(arrivals + [d], received, out, pending)
  {
  }

  // ---------------------------------------------------------------- every step keeps the invariant

  lemma {:induction false} LoneKept(w: Worker)
    requires Inv(w) && w.stage.Idle? && w.pending != []
    ensures Inv(w.(stage := Sending([w.pending[0]], 0), pending := w.pending[1..]))
  {
    var first, rest := w.pending[0], w.pending[1..];
    assert w.pending == [first] + rest;
    assert Out(w) == Flat(w.log);
    assert Increasing(w.pending);
    hide Flow, Flat, SameLine;
    FlowMoves(w.arrivals, w.received, Out(w), w.pending, [first], rest);
  }

  lemma {:induction false} BatchKept(w: Worker, kind: int)
    requires Inv(w) && w.stage.Idle? && w.pending != [] && Matches(w.arrivals, kind, w.pending[0])
    ensures var rest := w.pending[1..];
            Inv(w.(stage := Gathering(kind, [w.pending[0]] + Pick(w.arrivals, kind, rest, true)),
                   pending := Pick(w.arrivals, kind, rest, false)))
  {
    var rest := w.pending[1..];
    var moved, left := [w.pending[0]] + Pick(w.arrivals, kind, rest, true), Pick(w.arrivals, kind, rest, false);
    assert Out(w) == Flat(w.log);
    assert Increasing(w.pending);
    hide Flow, Flat, Pick, Newest, Increasing, Ahead;
    PickedOrdered(w.arrivals, kind, w.pending);
    PickedConserved(w.arrivals, kind, w.pending);
    PickedKinds(w.arrivals, kind, w.pending);
    FlowMoves(w.arrivals, w.received, Out(w), w.pending, moved, left);
  }

  lemma {:induction false} PickedKinds(arrivals: seq<Delivery>, kind: int, pending: seq<nat>)
    requires pending != [] && Matches(arrivals, kind, pending[0])
    ensures var moved, left := [pending[0]] + Pick(arrivals, kind, pending[1..], true), Pick(arrivals, kind, pending[1..], false);
            AllMatch(arrivals, kind, moved) && NoneMatch(arrivals, kind, left) && Ahead(arrivals, moved, left)
  {
    var rest := pending[1..];
    var picked, left := Pick(arrivals, kind, rest, true), Pick(arrivals, kind, rest, false);
    forall i | 0 <= i < |picked| ensures Matches(arrivals, kind, picked[i]) { PickMember(arrivals, kind, rest, true, i); }
    forall i | 0 <= i < |left| ensures !Matches(arrivals, kind, left[i]) { PickMember(arrivals, kind, rest, false, i); }
    hide Pick;
  }

  lemma {:induction false} PickedOrdered(arrivals: seq<Delivery>, kind: int, pending: seq<nat>)
    requires pending != [] && Increasing(pending)
    ensures Increasing([pending[0]] + Pick(arrivals, kind, pending[1..], true))
    ensures Increasing(Pick(arrivals, kind, pending[1..], false))
  {
    var rest := pending[1..];
    var picked := Pick(arrivals, kind, rest, true);
    PickIncreasing(arrivals, kind, rest, true);
    PickIncreasing(arrivals, kind, rest, false);
    hide Pick;
    forall i | 0 <= i < |picked| ensures pending[0] < picked[i] { PickMember(arrivals, kind, rest, true, i); }
    PrependLeast(pending[0], picked);
  }

  lemma {:induction false} PickedConserved(arrivals: seq<Delivery>, kind: int, pending: seq<nat>)
    requires pending != []
    ensures multiset([pending[0]] + Pick(arrivals, kind, pending[1..], true)) + multiset(Pick(arrivals, kind, pending[1..], false))
         == multiset(pending)
  {
    hide Pick;
    PickSplits(arrivals, kind, pending[1..]);
    assert pending == [pending[0]] + pending[1..];
  }

  lemma {:induction false} PrependLeast(first: nat, s: seq<nat>)
    requires Increasing(s) && forall i :: 0 <= i < |s| ==> first < s[i]
    ensures Increasing([first] + s)
  {
  }

  /** A delivery taken from the channel goes to the end of `pending`. */
  lemma {:induction false} ReceiveKept(w: Worker)
    requires Inv(w) && w.received < |w.arrivals|
    requires w.stage.Gathering? ==> !Matches(w.arrivals, w.stage.kind, w.received)
    ensures Inv(w.(received := w.received + 1, pending := w.pending + [w.received]))
  {
    hide Flow, Newest;
    FlowReceives(w.arrivals, w.received, Out(w), w.pending);
  }

  /** A matching delivery taken from the channel joins the batch. */
  lemma {:induction false} JoinKept(w: Worker)
    requires Inv(w) && w.received < |w.arrivals| && w.stage.Gathering? && Matches(w.arrivals, w.stage.kind, w.received)
    ensures Inv(w.(received := w.received + 1, stage := Gathering(w.stage.kind, w.stage.batch + [w.received])))
  {
    hide Flow, Flat, Newest;
    FlowJoins(w.arrivals, w.received, Out(w), w.pending, w.stage.kind);
    assert Out(w) + [w.received] == Flat(w.log) + (w.stage.batch + [w.received]);
  }

  lemma {:induction false} RecordKept(w: Worker, success: bool)
    requires Inv(w) && w.stage.Sending?
    ensures Inv(Recorded(w, Entry(w.stage.batch, success, w.stage.attempt + 1)))
  {
    var e := Entry(w.stage.batch, success, w.stage.attempt + 1);
    assert (w.log + [e])[..|w.log|] == w.log;
    assert Out(Recorded(w, e)) == Out(w);
    hide Flow, Newest, Out;
    NewestAppend(w.log, e);
  }

  lemma {:induction false} NewestAppend(log: seq<Entry>, e: Entry)
    ensures Newest(Newest(log) + [e]) == Newest(log + [e])
  {
  }

  lemma {:induction false} ArriveKept(w: Worker, d: Delivery)
    requires Inv(w)
    ensures Inv(w.(arrivals := w.arrivals + [d]))
  {
    assert AllBelow(w.pending, |w.arrivals|);
    hide Flow, Newest;
    FlowArrives(w.arrivals, d, w.received, Out(w), w.pending);
  }

  lemma {:induction false} StepKept(w: Worker, step: Step)
    requires Inv(w) && Enabled(w, step)
    ensures Inv(Next(w, step))
  {
    hide Flow, Pick, Flat;
    match step
    case Arrive(d) => ArriveKept(w, d);
    case Take =>
      var w1 := if w.pending != [] then w else w.(received := w.received + 1, pending := w.pending + [w.received]);
      if w.pending == [] {
        ReceiveKept(w);
        assert w1.pending == [w.received] && w1.pending[1..] == [];
      }
      if w.arrivals[w1.pending[0]].account { BatchKept(w1, w.arrivals[w1.pending[0]].kind); } else { LoneKept(w1); }
    case DrainOne =>
      if Matches(w.arrivals, w.stage.kind, w.received) { JoinKept(w); } else { ReceiveKept(w); }
    case EndDrain =>
    case Attempt(outcome) => RecordKept(w, outcome.Sent?);
  }

  /** The attempts on one batch, when sends end as `outcomes` says. */
  function AfterAttempts(w: Worker, outcomes: nat -> Outcome): Worker
    requires w.stage.Sending? && w.stage.attempt < MaxAttempts
    decreases MaxAttempts - w.stage.attempt
  {
    var next := Next(w, Attempt(outcomes(w.stage.attempt)));
    if next.stage.Sending? then AfterAttempts(next, outcomes) else next
  }

  /** They end in one record, with the verdict on those outcomes. */
  lemma {:induction false} AttemptsEndInVerdict(w: Worker, outcomes: nat -> Outcome)
    requires w.stage.Sending? && w.stage.attempt < MaxAttempts
    ensures var v := Verdict(outcomes, w.stage.attempt);
            AfterAttempts(w, outcomes) == Recorded(w, Entry(w.stage.batch, v.0, v.1))
    decreases MaxAttempts - w.stage.attempt
  {
    var next := Next(w, Attempt(outcomes(w.stage.attempt)));
    if next.stage.Sending? { AttemptsEndInVerdict(next, outcomes); }
  }

  /** The worker can always take what waits. */
  lemma {:induction false} NeverStuck(w: Worker)
    requires Inv(w) && w.stage.Idle? && (w.pending != [] || w.received < |w.arrivals|)
    ensures Enabled(w, Take)
  {
    assert w.pending != [] ==> w.pending[0] < w.received;
  }

  // ---------------------------------------------------------------- runs

  ghost predicate IsRun(run: seq<Worker>, steps: seq<Step>) {
    && |run| == |steps| + 1 && run[0] == Worker([], 0, [], Idle, [], [])
    && forall i :: 0 <= i < |steps| ==> Follows(run[i], steps[i], run[i + 1])
  }

  ghost predicate Follows(w: Worker, step: Step, next: Worker) {
    Enabled(w, step) && next == Next(w, step)
  }

  lemma {:induction false} StartFits(w: Worker)
    requires w == Worker([], 0, [], Idle, [], [])
    ensures Inv(w)
  {
  }

  /** Whatever arrives when: nothing is lost, doubled or overtaken. */
  lemma {:induction false} RunKept(run: seq<Worker>, steps: seq<Step>, k: nat)
    requires IsRun(run, steps) && k < |run|
    ensures Inv(run[k])
  {
    if k == 0 {
      StartFits(run[0]);
    } else {
      hide Inv, Enabled, Next;
      RunKept(run, steps, k - 1);
      assert Follows(run[k - 1], steps[k - 1], run[k]);
      StepKept(run[k - 1], steps[k - 1]);
    }
  }

  // ---------------------------------------------------------------- batches are complete

  lemma {:induction false} NamesBelow(n: nat, i: nat)
    ensures i in Names(n) <==> i < n
  {
    if n > 0 { NamesBelow(n - 1, i); }
  }

  /** When the gathering of `batch` ends, every matching delivery so far is in it or in an earlier one. */
  ghost predicate GatheredAt(run: seq<Worker>, steps: seq<Step>, k: nat, batch: seq<nat>)
    requires |run| == |steps| + 1
  {
    && k < |steps| && steps[k] == EndDrain && run[k].stage.Gathering? && run[k].stage.batch == batch
    && AllMatch(run[k].arrivals, run[k].stage.kind, batch)
    && forall i: nat :: Matches(run[k].arrivals, run[k].stage.kind, i) ==> i in Flat(run[k].log) || i in batch
  }

  /** A batch is one event without account, or was gathered to the end before step `n`. */
  ghost predicate IsComplete(run: seq<Worker>, steps: seq<Step>, n: nat, batch: seq<nat>)
    requires |run| == |steps| + 1 && n <= |steps|
  {
    || (|batch| == 1 && batch[0] < |run[n].arrivals| && !run[n].arrivals[batch[0]].account)
    || exists k :: 0 <= k < n && GatheredAt(run, steps, k, batch)
  }

  lemma {:induction false} GatheringEnds(w: Worker)
    requires Inv(w) && w.stage.Gathering? && w.received == |w.arrivals|
    ensures AllMatch(w.arrivals, w.stage.kind, w.stage.batch)
    ensures forall i: nat :: Matches(w.arrivals, w.stage.kind, i) ==> i in Flat(w.log) || i in w.stage.batch
  {
    forall i: nat | Matches(w.arrivals, w.stage.kind, i) ensures i in Flat(w.log) || i in w.stage.batch {
      NamesBelow(w.received, i);
      assert i in multiset(Out(w)) + multiset(w.pending);
      assert i !in w.pending;
      assert i in Out(w);
    }
  }

  lemma {:induction false} StaysComplete(run: seq<Worker>, steps: seq<Step>, n: nat, batch: seq<nat>)
    requires IsRun(run, steps) && n < |steps| && IsComplete(run, steps, n, batch)
    ensures IsComplete(run, steps, n + 1, batch)
  {
    hide GatheredAt;
    assert Follows(run[n], steps[n], run[n + 1]);
    ArrivalsGrow(run[n], steps[n]);
    if k :| 0 <= k < n && GatheredAt(run, steps, k, batch) {
      assert 0 <= k < n + 1 && GatheredAt(run, steps, k, batch);
    }
  }

  lemma {:induction false} ArrivalsGrow(w: Worker, step: Step)
    requires Enabled(w, step)
    ensures w.arrivals <= Next(w, step).arrivals
  {
    hide Pick;
  }

  /**
   For every run, every batch that goes out is complete: an account event is never sent before all
   deliveries of its kind received by the end of its gathering are in its batch or an earlier one.
   */
  lemma {:induction false} EveryBatchIsComplete(run: seq<Worker>, steps: seq<Step>, n: nat)
    requires IsRun(run, steps) && n <= |steps|
    ensures forall i :: 0 <= i < |run[n].log| ==> IsComplete(run, steps, n, run[n].log[i].batch)
    ensures run[n].stage.Sending? ==> IsComplete(run, steps, n, run[n].stage.batch)
  {
    hide Inv, IsComplete;
    if n > 0 {
      var m := n - 1;
      EveryBatchIsComplete(run, steps, m);
      assert Follows(run[m], steps[m], run[m + 1]);
      forall i | 0 <= i < |run[m].log| ensures IsComplete(run, steps, n, run[m].log[i].batch) {
        StaysComplete(run, steps, m, run[m].log[i].batch);
      }
      if run[m].stage.Sending? { StaysComplete(run, steps, m, run[m].stage.batch); }
      if run[n].stage.Sending? && !run[m].stage.Sending? { NewBatch(run, steps, m); }
    }
  }

  lemma {:induction false} NewBatch(run: seq<Worker>, steps: seq<Step>, m: nat)
    requires IsRun(run, steps) && m < |steps| && run[m + 1].stage.Sending? && !run[m].stage.Sending?
    ensures IsComplete(run, steps, m + 1, run[m + 1].stage.batch)
  {
    RunKept(run, steps, m);
    assert Follows(run[m], steps[m], run[m + 1]);
    hide Pick, Flow, Flat;
    if steps[m] == EndDrain {
      GatheringEnds(run[m]);
      assert GatheredAt(run, steps, m, run[m + 1].stage.batch);
    }
  }

  /** The start of `collect_account_event_batch`, up to the pause. */
  method BeginDelivery(w: Worker, first: nat, rest: seq<nat>) returns (next: Worker)
    requires first < |w.arrivals|
    ensures next == Begin(w, first, rest)
  {
    var d := w.arrivals[first];
    if !d.account {
      return w.(stage := Sending([first], 0), pending := rest);
    }
    var batch, deferred := GatherPending(w.arrivals, d.kind, first, rest);
    next := w.(stage := Gathering(d.kind, batch), pending := deferred);
  }
}
