/**
 Model of the input translation in crates/kproxy-translate/src/responses.rs: the pairing of tool
 calls with tool outputs, and the merging of assistant fragments into one message per turn.
 Field validation of a single item is summarised by its `problem`.
 */
module ResponsesInput {
  import opened Wrappers

  datatype CallKind = FunctionCall | CustomCall

  datatype Part = TextPart(text: string) | OtherPart(json: string)

  datatype Content = Str(text: string) | Parts(parts: seq<Part>)

  datatype Role = System | Developer | User | Assistant | Tool

  datatype ToolCall = ToolCall(id: string, kind: CallKind, body: string)

  datatype Message = Message(role: Role, content: Option<Content>, toolCalls: seq<ToolCall>, answers: Option<string>)

  /**
   One entry of `input`. A control item and an unknown item add nothing, nor does reasoning
   without text; `Bootstrap` is the automation output that has no call.
   */
  datatype Item =
    | Said(role: Role, content: Content, problem: Option<string>)
    | Called(id: string, kind: CallKind, body: string, problem: Option<string>)
    | Answered(id: string, kind: CallKind, content: Content, problem: Option<string>)
    | Bootstrap(content: Content, problem: Option<string>)
    | Reasoned(texts: seq<string>, problem: Option<string>)
    | Ignored(problem: Option<string>)

  // ---------------------------------------------------------------- pairing

  predicate IsCall(x: Item, id: string) {
    x.Called? && x.id == id
  }

  predicate IsAnswer(x: Item, id: string) {
    x.Answered? && x.id == id
  }

  /** Among the first `n` items call `i` has the given id and kind and is not answered yet. */
  predicate OpenCall(items: seq<Item>, n: nat, i: nat, id: string, kind: CallKind) {
    && i < n <= |items|
    && IsCall(items[i], id) && items[i].kind == kind
    && forall j :: i < j < n ==> !IsAnswer(items[j], id)
  }

  ghost predicate Open(items: seq<Item>, n: nat, id: string, kind: CallKind) {
    exists i :: OpenCall(items, n, i, id, kind)
  }

  /** Item `n` is valid after the items before it. */
  ghost predicate Fits(items: seq<Item>, n: nat)
    requires n < |items|
  {
    && items[n].problem.None?
    && (items[n].Called? ==> forall j :: 0 <= j < n ==> !IsCall(items[j], items[n].id))
    && (items[n].Answered? ==> Open(items, n, items[n].id, items[n].kind))
  }

  /** The inputs that translation must accept: every item fits and no call stays open. */
  ghost predicate Acceptable(items: seq<Item>) {
    && (forall n :: 0 <= n < |items| ==> Fits(items, n))
    && (forall id, kind :: !Open(items, |items|, id, kind))
  }

  ghost predicate AnswerFor(items: seq<Item>, i: nat, j: nat)
    requires i < |items| && items[i].Called?
  {
    j < |items| && IsAnswer(items[j], items[i].id)
  }

  /** In an acceptable input every call has exactly one answer, later and of its own kind. */
  lemma {:induction false} EveryCallAnsweredOnce(items: seq<Item>, i: nat) returns (j: nat)
    requires Acceptable(items) && i < |items| && items[i].Called?
    ensures i < j && AnswerFor(items, i, j) && items[j].kind == items[i].kind
    ensures forall k :: AnswerFor(items, i, k) ==> k == j
    ensures forall k :: 0 <= k < |items| && IsCall(items[k], items[i].id) ==> k == i
  {
    var id := items[i].id;
    forall k | 0 <= k < |items| && IsCall(items[k], id) ensures k == i {
      assert Fits(items, i) && Fits(items, k);
    }
    assert !OpenCall(items, |items|, i, id, items[i].kind) by {
      assert !Open(items, |items|, id, items[i].kind);
    }
    j :| i < j < |items| && IsAnswer(items[j], id);
    var _ := AnswerMatches(items, i, j);
    forall k | AnswerFor(items, i, k) ensures k == j {
      var _ := AnswerMatches(items, i, k);
    }
  }

  /** An answer comes after its call, with no other answer in between, and has its kind. */
  lemma {:induction false} AnswerMatches(items: seq<Item>, i: nat, j: nat) returns (call: nat)
    requires Acceptable(items) && i < |items| && items[i].Called? && AnswerFor(items, i, j)
    ensures call == i && i < j && items[j].kind == items[i].kind
    ensures forall k :: i < k < j ==> !IsAnswer(items[k], items[i].id)
  {
    assert Fits(items, j);
    call :| OpenCall(items, j, call, items[j].id, items[j].kind);
    assert Fits(items, i) && Fits(items, call);
  }

  // ---------------------------------------------------------------- pairing in the messages

  datatype Event = Asked(id: string) | Replied(id: string)

  function CallEvents(calls: seq<ToolCall>): (es: seq<Event>)
    ensures |es| == |calls| && forall i :: 0 <= i < |es| ==> es[i] == Asked(calls[i].id)
  {
    seq(|calls|, i requires 0 <= i < |calls| => Asked(calls[i].id))
  }

  function MessageEvents(m: Message): seq<Event> {
    CallEvents(m.toolCalls) + if m.answers.Some? then [Replied(m.answers.value)] else []
  }

  /** The calls and answers of a conversation in order. */
  function Events(ms: seq<Message>): seq<Event> {
    if ms == [] then [] else Events(ms[..|ms| - 1]) + MessageEvents(ms[|ms| - 1])
  }

  function AskedIds(es: seq<Event>): multiset<string> {
    if es == [] then multiset{} else
    var e := es[|es| - 1];
    AskedIds(es[..|es| - 1]) + if e.Asked? then multiset{e.id} else multiset{}
  }

  function RepliedIds(es: seq<Event>): multiset<string> {
    if es == [] then multiset{} else
    var e := es[|es| - 1];
    RepliedIds(es[..|es| - 1]) + if e.Replied? then multiset{e.id} else multiset{}
  }

  /** At no point more answers than calls. */
  ghost predicate NeverAhead(es: seq<Event>) {
    forall n :: 0 <= n <= |es| ==> RepliedIds(es[..n]) <= AskedIds(es[..n])
  }

  /** Distinct calls, each answered exactly once and later. */
  ghost predicate Paired(es: seq<Event>) {
    && NeverAhead(es)
    && AskedIds(es) == RepliedIds(es)
    && forall id :: AskedIds(es)[id] <= 1
  }

  /** The multisets of ids seen so far, given the sets the loop keeps. */
  ghost predicate Counted(es: seq<Event>, calls: set<string>, pending: set<string>) {
    && NeverAhead(es)
    && AskedIds(es) == multiset(calls)
    && RepliedIds(es) + multiset(pending) == multiset(calls)
  }

  lemma {:induction false} NeverAheadAppend(es: seq<Event>, e: Event)
    requires NeverAhead(es) && RepliedIds(es + [e]) <= AskedIds(es + [e])
    ensures NeverAhead(es + [e])
  {
    hide AskedIds, RepliedIds;
    var next := es + [e];
    forall n | 0 <= n <= |next| ensures RepliedIds(next[..n]) <= AskedIds(next[..n]) {
      if n <= |es| { assert next[..n] == es[..n]; } else { assert next[..n] == next; }
    }
  }

  lemma {:induction false} IdsAppend(es: seq<Event>, e: Event)
    ensures AskedIds(es + [e]) == AskedIds(es) + if e.Asked? then multiset{e.id} else multiset{}
    ensures RepliedIds(es + [e]) == RepliedIds(es) + if e.Replied? then multiset{e.id} else multiset{}
  {
    assert (es + [e])[..|es|] == es;
  }

  lemma {:induction false} CountedCall(es: seq<Event>, id: string, calls: set<string>, pending: set<string>)
    requires Counted(es, calls, pending) && id !in calls
    ensures Counted(es + [Asked(id)], calls + {id}, pending + {id})
  {
    hide AskedIds, RepliedIds, NeverAhead;
    IdsAppend(es, Asked(id));
    assert multiset(calls)[id] == 0;
    assert multiset(pending)[id] == 0 by { assert (RepliedIds(es) + multiset(pending))[id] == 0; }
    assert multiset(calls + {id}) == multiset(calls) + multiset{id};
    assert multiset(pending + {id}) == multiset(pending) + multiset{id};
    NeverAheadAppend(es, Asked(id));
  }

  lemma {:induction false} CountedReply(es: seq<Event>, id: string, calls: set<string>, pending: set<string>)
    requires Counted(es, calls, pending) && id in pending
    ensures Counted(es + [Replied(id)], calls, pending - {id})
  {
    hide AskedIds, RepliedIds, NeverAhead;
    IdsAppend(es, Replied(id));
    assert multiset(pending) == multiset(pending - {id}) + multiset{id};
    NeverAheadAppend(es, Replied(id));
  }

  lemma {:induction false} AllAnswered(es: seq<Event>, calls: set<string>)
    requires Counted(es, calls, {})
    ensures Paired(es)
  {
    hide AskedIds, RepliedIds, NeverAhead;
    assert RepliedIds(es) + multiset({}) == RepliedIds(es);
  }

  lemma {:induction false} EventsAppend(ms: seq<Message>, m: Message)
    ensures Events(ms + [m]) == Events(ms) + MessageEvents(m)
  {
    assert (ms + [m])[..|ms|] == ms;
  }

  predicate OnlyToolsAnswer(ms: seq<Message>) {
    forall i :: 0 <= i < |ms| && ms[i].role == Assistant ==> ms[i].answers.None?
  }

  // ---------------------------------------------------------------- translation

  datatype Error =
    | Invalid(at: nat, problem: string)
    | DuplicateCall(at: nat)
    | UnmatchedOutput(at: nat)
    | Unanswered
    | NotAnInput

  /** Lines joined by newlines. */
  function Joined(texts: seq<string>): string {
    if texts == [] then "" else if |texts| == 1 then texts[0] else texts[0] + "\n" + Joined(texts[1..])
  }

  /** The messages one item contributes. */
  function ItemMessages(x: Item): seq<Message> {
    match x
    case Said(role, content, _) => [Message(role, Some(content), [], None)]
    case Called(id, kind, body, _) => [Message(Assistant, None, [ToolCall(id, kind, body)], None)]
    case Answered(id, _, content, _) => [Message(Tool, Some(content), [], Some(id))]
    case Bootstrap(content, _) => [Message(Developer, Some(content), [], None)]
    case Reasoned(texts, _) => if texts == [] then [] else [Message(Assistant, Some(Str("Reasoning summary:\n" + Joined(texts))), [], None)]
    case Ignored(_) => []
  }

  function ItemsMessages(items: seq<Item>): seq<Message> {
    if items == [] then [] else ItemsMessages(items[..|items| - 1]) + ItemMessages(items[|items| - 1])
  }

  /** What `pending` holds after `n` items. */
  ghost predicate Tracks(pending: map<string, CallKind>, items: seq<Item>, n: nat) {
    forall id, kind :: (id in pending && pending[id] == kind) <==> Open(items, n, id, kind)
  }

  ghost predicate CalledBefore(items: seq<Item>, n: nat, id: string) {
    exists k :: 0 <= k < n <= |items| && IsCall(items[k], id)
  }

  /** What the loop knows about the items it has read. */
  ghost predicate Scanned(items: seq<Item>, n: nat, calls: set<string>, pending: map<string, CallKind>) {
    && n <= |items|
    && (forall k :: 0 <= k < n ==> Fits(items, k))
    && (forall id :: id in calls <==> CalledBefore(items, n, id))
    && Tracks(pending, items, n)
  }

  /** What the loop knows about the messages it has written. */
  ghost predicate Written(messages: seq<Message>, calls: set<string>, pending: set<string>) {
    Counted(Events(messages), calls, pending) && OnlyToolsAnswer(messages)
  }

  /** The input loop accepts exactly the acceptable inputs, and then translates item by item. */
  method TranslateItems(items: seq<Item>) returns (r: Result<seq<Message>, Error>)
    ensures r.Ok? <==> Acceptable(items)
    ensures r.Ok? ==> r.value == ItemsMessages(items) && Paired(Events(r.value))
    ensures r.Ok? ==> OnlyToolsAnswer(r.value)
  {
    var calls: set<string> := {};
    var pending: map<string, CallKind> := map[];
    var messages: seq<Message> := [];
    assert items[..0] == [];
    for n := 0 to |items|
      invariant Scanned(items, n, calls, pending)
      invariant messages == ItemsMessages(items[..n])
      invariant Written(messages, calls, pending.Keys)
    {
      hide Scanned, Written, ItemsMessages;
      MessagesStep(items, n);
      var x := items[n];
      if x.Called? && x.id in calls {
        DuplicateDoesNotFit(items, n, calls, pending);
        return Err(DuplicateCall(n));
      }
      if x.Answered? && (x.id !in pending || pending[x.id] != x.kind) {
        UnmatchedDoesNotFit(items, n, calls, pending);
        return Err(UnmatchedOutput(n));
      }
      if x.problem.Some? {
        assert !Fits(items, n);
        return Err(Invalid(n, x.problem.value));
      }
      if x.Called? {
        CallKept(items, n, calls, pending);
        CallWritten(messages, x, calls, pending);
        calls := calls + {x.id};
        pending := pending[x.id := x.kind];
      } else if x.Answered? {
        AnswerKept(items, n, calls, pending);
        AnswerWritten(messages, x, calls, pending);
        pending := pending - {x.id};
      } else {
        OtherKept(items, n, calls, pending);
        OtherWritten(messages, x, calls, pending.Keys);
      }
      messages := messages + ItemMessages(x);
    }
    assert items[..|items|] == items;
    if pending != map[] {
      var id :| id in pending;
      assert Open(items, |items|, id, pending[id]);
      return Err(Unanswered);
    }
    AllAnswered(Events(messages), calls);
    return Ok(messages);
  }

  lemma {:induction false} DuplicateDoesNotFit(items: seq<Item>, n: nat, calls: set<string>, pending: map<string, CallKind>)
    requires Scanned(items, n, calls, pending) && n < |items|
    requires items[n].Called? && items[n].id in calls
    ensures !Fits(items, n)
  {
    assert CalledBefore(items, n, items[n].id);
  }

  lemma {:induction false} UnmatchedDoesNotFit(items: seq<Item>, n: nat, calls: set<string>, pending: map<string, CallKind>)
    requires Scanned(items, n, calls, pending) && n < |items|
    requires items[n].Answered? && (items[n].id !in pending || pending[items[n].id] != items[n].kind)
    ensures !Fits(items, n)
  {
    assert !Open(items, n, items[n].id, items[n].kind);
  }

  lemma {:induction false} CalledBeforeStep(items: seq<Item>, n: nat, id: string)
    requires n < |items|
    ensures CalledBefore(items, n + 1, id) <==> CalledBefore(items, n, id) || IsCall(items[n], id)
  {
    var m := n + 1;
    if k :| 0 <= k < m && IsCall(items[k], id) {
      assert k < n || IsCall(items[n], id);
    }
  }

  lemma {:induction false} MessagesStep(items: seq<Item>, n: nat)
    requires n < |items|
    ensures ItemsMessages(items[..n + 1]) == ItemsMessages(items[..n]) + ItemMessages(items[n])
  {
    assert items[..n + 1][..n] == items[..n];
  }

  lemma {:induction false} CallKept(items: seq<Item>, n: nat, calls: set<string>, pending: map<string, CallKind>)
    requires Scanned(items, n, calls, pending) && n < |items|
    requires items[n].Called? && items[n].id !in calls && items[n].problem.None?
    ensures Scanned(items, n + 1, calls + {items[n].id}, pending[items[n].id := items[n].kind])
  {
    hide Tracks, Open, OpenCall;
    var x := items[n];
    assert forall j :: 0 <= j < n && IsCall(items[j], x.id) ==> CalledBefore(items, n, x.id);
    CallOpens(items, n, pending);
    forall id ensures id in calls + {x.id} <==> CalledBefore(items, n + 1, id) {
      CalledBeforeStep(items, n, id);
    }
  }

  lemma {:induction false} AnswerKept(items: seq<Item>, n: nat, calls: set<string>, pending: map<string, CallKind>)
    requires Scanned(items, n, calls, pending) && n < |items|
    requires items[n].Answered? && items[n].id in pending && pending[items[n].id] == items[n].kind && items[n].problem.None?
    ensures Scanned(items, n + 1, calls, pending - {items[n].id})
  {
    hide Open, OpenCall;
    var x := items[n];
    assert Open(items, n, x.id, x.kind);
    AnswerCloses(items, n, pending);
    forall id ensures id in calls <==> CalledBefore(items, n + 1, id) {
      CalledBeforeStep(items, n, id);
    }
  }

  lemma {:induction false} OtherKept(items: seq<Item>, n: nat, calls: set<string>, pending: map<string, CallKind>)
    requires Scanned(items, n, calls, pending) && n < |items|
    requires !items[n].Called? && !items[n].Answered? && items[n].problem.None?
    ensures Scanned(items, n + 1, calls, pending)
  {
    hide Open, OpenCall;
    OthersKeepOpen(items, n, pending);
    forall id ensures id in calls <==> CalledBefore(items, n + 1, id) {
      CalledBeforeStep(items, n, id);
    }
  }

  lemma {:induction false} CallWritten(ms: seq<Message>, x: Item, calls: set<string>, pending: map<string, CallKind>)
    requires Written(ms, calls, pending.Keys) && x.Called? && x.id !in calls
    ensures Written(ms + ItemMessages(x), calls + {x.id}, pending[x.id := x.kind].Keys)
  {
    hide Counted, Events;
    EventsAppend(ms, ItemMessages(x)[0]);
    assert pending[x.id := x.kind].Keys == pending.Keys + {x.id};
    assert MessageEvents(ItemMessages(x)[0]) == [Asked(x.id)];
    CountedCall(Events(ms), x.id, calls, pending.Keys);
  }

  lemma {:induction false} AnswerWritten(ms: seq<Message>, x: Item, calls: set<string>, pending: map<string, CallKind>)
    requires Written(ms, calls, pending.Keys) && x.Answered? && x.id in pending
    ensures Written(ms + ItemMessages(x), calls, (pending - {x.id}).Keys)
  {
    hide Counted, Events;
    EventsAppend(ms, ItemMessages(x)[0]);
    assert (pending - {x.id}).Keys == pending.Keys - {x.id};
    assert MessageEvents(ItemMessages(x)[0]) == [Replied(x.id)];
    CountedReply(Events(ms), x.id, calls, pending.Keys);
  }

  lemma {:induction false} OtherWritten(ms: seq<Message>, x: Item, calls: set<string>, pending: set<string>)
    requires Written(ms, calls, pending) && !x.Called? && !x.Answered?
    ensures Written(ms + ItemMessages(x), calls, pending)
  {
    hide Counted, Events;
    if ItemMessages(x) == [] {
      assert ms + ItemMessages(x) == ms;
    } else {
      EventsAppend(ms, ItemMessages(x)[0]);
      assert Events(ms) + MessageEvents(ItemMessages(x)[0]) == Events(ms);
    }
  }

  lemma {:induction false} OthersKeepOpen(items: seq<Item>, n: nat, pending: map<string, CallKind>)
    requires n < |items| && !items[n].Called? && !items[n].Answered? && Tracks(pending, items, n)
    ensures Tracks(pending, items, n + 1)
  {
    var m := n + 1;
    forall id, kind ensures Open(items, n, id, kind) <==> Open(items, m, id, kind) {
      if i :| OpenCall(items, n, i, id, kind) { assert OpenCall(items, m, i, id, kind); }
      if i :| OpenCall(items, m, i, id, kind) { assert OpenCall(items, n, i, id, kind); }
    }
  }

  lemma {:induction false} CallOpens(items: seq<Item>, n: nat, pending: map<string, CallKind>)
    requires n < |items| && items[n].Called? && Tracks(pending, items, n)
    requires forall j :: 0 <= j < n ==> !IsCall(items[j], items[n].id)
    ensures Tracks(pending[items[n].id := items[n].kind], items, n + 1)
  {
    var x, m := items[n], n + 1;
    forall id, kind
      ensures Open(items, m, id, kind) <==> if id == x.id then kind == x.kind else Open(items, n, id, kind)
    {
      if id == x.id {
        assert OpenCall(items, m, n, id, x.kind);
      } else {
        if i :| OpenCall(items, n, i, id, kind) { assert OpenCall(items, m, i, id, kind); }
        if i :| OpenCall(items, m, i, id, kind) { assert OpenCall(items, n, i, id, kind); }
      }
    }
  }

  lemma {:induction false} AnswerCloses(items: seq<Item>, n: nat, pending: map<string, CallKind>)
    requires n < |items| && items[n].Answered? && Tracks(pending, items, n)
    ensures Tracks(pending - {items[n].id}, items, n + 1)
  {
    var x, m := items[n], n + 1;
    assert IsAnswer(items[n], x.id);
    forall id, kind
      ensures Open(items, m, id, kind) <==> id != x.id && Open(items, n, id, kind)
    {
      if i :| OpenCall(items, m, i, id, kind) { assert OpenCall(items, n, i, id, kind); }
      if id != x.id {
        if i :| OpenCall(items, n, i, id, kind) { assert OpenCall(items, m, i, id, kind); }
      }
    }
  }

  // ---------------------------------------------------------------- merging

  /** The content parts of a message: an empty text has none. */
  function PartsOf(content: Option<Content>): seq<Part> {
    match content
    case Some(Parts(parts)) => parts
    case Some(Str(text)) => if text == "" then [] else [TextPart(text)]
    case None => []
  }

  function FlatParts(run: seq<Message>): seq<Part> {
    if run == [] then [] else FlatParts(run[..|run| - 1]) + PartsOf(run[|run| - 1].content)
  }

  function FlatCalls(run: seq<Message>): seq<ToolCall> {
    if run == [] then [] else FlatCalls(run[..|run| - 1]) + run[|run| - 1].toolCalls
  }

  predicate HasContent(run: seq<Message>) {
    exists i :: 0 <= i < |run| && run[i].content.Some?
  }

  predicate AllAssistant(run: seq<Message>) {
    forall i :: 0 <= i < |run| ==> run[i].role == Assistant
  }

  /** One message for one run of assistant fragments; a lone message stays as it is. */
  function Render(run: seq<Message>): (m: Message)
    requires run != []
  {
    if |run| == 1 then run[0] else
    var parts := FlatParts(run);
    run[0].(content := if parts != [] then Some(Parts(parts)) else if HasContent(run) then Some(Str("")) else None,
            toolCalls := FlatCalls(run))
  }

  /** A run is a single message or several assistant fragments. */
  predicate IsRun(run: seq<Message>) {
    run != [] && (|run| == 1 || AllAssistant(run))
  }

  /** The runs cannot be made longer. */
  predicate AreRuns(runs: seq<seq<Message>>) {
    && (forall i :: 0 <= i < |runs| ==> IsRun(runs[i]))
    && (forall i :: 0 <= i < |runs| - 1 ==> !(AllAssistant(runs[i]) && AllAssistant(runs[i + 1])))
  }

  function Flatten(runs: seq<seq<Message>>): seq<Message> {
    if runs == [] then [] else Flatten(runs[..|runs| - 1]) + runs[|runs| - 1]
  }

  predicate Renders(merged: seq<Message>, runs: seq<seq<Message>>) {
    |merged| == |runs| && forall i :: 0 <= i < |runs| ==> IsRun(runs[i]) && merged[i] == Render(runs[i])
  }

  /** `merged` has one rendered message for each maximal run of `ms`. */
  ghost predicate MergedFrom(merged: seq<Message>, ms: seq<Message>) {
    exists runs :: AreRuns(runs) && Flatten(runs) == ms && Renders(merged, runs)
  }

  /** The parts, calls and presence of content of a run survive its rendering. */
  lemma {:induction false} RenderKeeps(run: seq<Message>)
    requires IsRun(run)
    ensures PartsOf(Render(run).content) == FlatParts(run)
    ensures Render(run).toolCalls == FlatCalls(run)
    ensures Render(run).content.Some? <==> HasContent(run)
    ensures Render(run).role == run[0].role && Render(run).answers == run[0].answers
  {
    if |run| == 1 {
      assert run[..0] == [];
      assert FlatParts([]) == [] && FlatCalls([]) == [];
    } else if FlatParts(run) != [] {
      PartsNeedContent(run);
    }
  }

  lemma {:induction false} PartsNeedContent(run: seq<Message>)
    requires FlatParts(run) != []
    ensures HasContent(run)
  {
    var last := |run| - 1;
    if PartsOf(run[last].content) == [] {
      PartsNeedContent(run[..last]);
      var i :| 0 <= i < last && run[..last][i].content.Some?;
      assert run[i].content.Some?;
    }
  }

  /** Merging one more fragment into the rendered run is rendering the longer run. */
  lemma {:induction false} FuseRenders(run: seq<Message>, m: Message)
    requires run != [] && AllAssistant(run) && m.role == Assistant
    ensures Fuse(Render(run), m) == Render(run + [m])
  {
    var longer := run + [m];
    assert longer[..|run|] == run;
    assert IsRun(run) && IsRun(longer);
    RenderKeeps(run);
    assert HasContent(longer) <==> HasContent(run) || m.content.Some? by {
      if HasContent(run) {
        var i :| 0 <= i < |run| && run[i].content.Some?;
        assert longer[i].content.Some?;
      }
      assert longer[|run|] == m;
    }
  }

  /** What the loop does to the previous assistant message. */
  function Fuse(previous: Message, m: Message): Message {
    var parts := PartsOf(previous.content) + PartsOf(m.content);
    previous.(content := if parts != [] then Some(Parts(parts))
                         else if previous.content.Some? || m.content.Some? then Some(Str("")) else None,
              toolCalls := previous.toolCalls + m.toolCalls)
  }

  /** `merge_assistant_items`: one message per maximal run. */
  method MergeAssistantItems(messages: seq<Message>) returns (merged: seq<Message>)
    ensures MergedFrom(merged, messages)
  {
    hide *;
    merged := [];
    ghost var runs: seq<seq<Message>> := [];
    NoRuns();
    for n := 0 to |messages|
      invariant AreRuns(runs) && Flatten(runs) == messages[..n] && Renders(merged, runs)
    {
      var m := messages[n];
      assert messages[..n + 1] == messages[..n] + [m];
      var last := |merged| - 1;
      RendersLast(merged, runs);
      if merged != [] && merged[last].role == Assistant && m.role == Assistant {
        RunsGrow(runs, m);
        RendersGrow(merged, runs, m);
        merged := merged[last := Fuse(merged[last], m)];
        runs := runs[last := runs[last] + [m]];
      } else {
        RunsAppend(runs, m);
        RendersAppend(merged, runs, m);
        merged := merged + [m];
        runs := runs + [[m]];
      }
    }
    assert messages[..|messages|] == messages;
    RunsFound(merged, messages, runs);
  }

  lemma {:induction false} RunsFound(merged: seq<Message>, ms: seq<Message>, runs: seq<seq<Message>>)
    requires AreRuns(runs) && Flatten(runs) == ms && Renders(merged, runs)
    ensures MergedFrom(merged, ms)
  {
  }

  lemma {:induction false} NoRuns()
    ensures AreRuns([]) && Flatten([]) == [] && Renders([], [])
  {
    assert Flatten([]) == [];
  }

  lemma {:induction false} RendersLast(merged: seq<Message>, runs: seq<seq<Message>>)
    requires Renders(merged, runs)
    ensures |merged| == |runs|
    ensures runs != [] ==> runs[|runs| - 1] != [] && merged[|runs| - 1].role == runs[|runs| - 1][0].role
  {
    if runs != [] { RenderKeeps(runs[|runs| - 1]); }
  }

  lemma {:induction false} RendersGrow(merged: seq<Message>, runs: seq<seq<Message>>, m: Message)
    requires Renders(merged, runs) && runs != [] && AllAssistant(runs[|runs| - 1]) && m.role == Assistant
    ensures Renders(merged[|runs| - 1 := Fuse(merged[|runs| - 1], m)], runs[|runs| - 1 := runs[|runs| - 1] + [m]])
  {
    hide Render, Fuse;
    var run := runs[|runs| - 1];
    assert IsRun(run) && IsRun(run + [m]);
    FuseRenders(run, m);
  }

  lemma {:induction false} RendersAppend(merged: seq<Message>, runs: seq<seq<Message>>, m: Message)
    requires Renders(merged, runs)
    ensures Renders(merged + [m], runs + [[m]])
  {
    assert IsRun([m]) && Render([m]) == m;
    hide Render, IsRun;
  }

  lemma {:induction false} RunsGrow(runs: seq<seq<Message>>, m: Message)
    requires AreRuns(runs) && runs != [] && runs[|runs| - 1] != []
    requires runs[|runs| - 1][0].role == Assistant && m.role == Assistant
    ensures AllAssistant(runs[|runs| - 1])
    ensures AreRuns(runs[|runs| - 1 := runs[|runs| - 1] + [m]])
    ensures Flatten(runs[|runs| - 1 := runs[|runs| - 1] + [m]]) == Flatten(runs) + [m]
  {
    var last := |runs| - 1;
    assert IsRun(runs[last]);
    var longer := runs[last := runs[last] + [m]];
    assert longer[..last] == runs[..last];
    assert IsRun(longer[last]);
    forall i | 0 <= i < |longer| - 1 ensures !(AllAssistant(longer[i]) && AllAssistant(longer[i + 1])) {
      assert !(AllAssistant(runs[i]) && AllAssistant(runs[i + 1]));
    }
  }

  lemma {:induction false} RunsAppend(runs: seq<seq<Message>>, m: Message)
    requires AreRuns(runs) && (runs != [] ==> runs[|runs| - 1] != [])
    requires runs == [] || runs[|runs| - 1][0].role != Assistant || m.role != Assistant
    ensures AreRuns(runs + [[m]]) && Flatten(runs + [[m]]) == Flatten(runs) + [m]
  {
    var longer := runs + [[m]];
    assert longer[..|runs|] == runs;
    forall i | 0 <= i < |longer| - 1 ensures !(AllAssistant(longer[i]) && AllAssistant(longer[i + 1])) {
      if i + 1 < |runs| {
        assert !(AllAssistant(runs[i]) && AllAssistant(runs[i + 1]));
      } else {
        assert IsRun(runs[i]) && longer[i + 1][0] == m;
      }
    }
  }

  predicate NoAdjacentAssistants(ms: seq<Message>) {
    forall i :: 0 <= i < |ms| - 1 ==> !(ms[i].role == Assistant && ms[i + 1].role == Assistant)
  }

  lemma {:induction false} RenderKeepsRole(run: seq<Message>)
    requires IsRun(run)
    ensures Render(run).role == Assistant <==> AllAssistant(run)
  {
    RenderKeeps(run);
  }

  lemma {:induction false} MergedAreNotAdjacent(merged: seq<Message>, runs: seq<seq<Message>>)
    requires AreRuns(runs) && Renders(merged, runs)
    ensures NoAdjacentAssistants(merged)
  {
    hide Render, AllAssistant, IsRun;
    forall i | 0 <= i < |merged| - 1 ensures !(merged[i].role == Assistant && merged[i + 1].role == Assistant) {
      RenderKeepsRole(runs[i]);
      RenderKeepsRole(runs[i + 1]);
    }
  }

  // ---------------------------------------------------------------- merging keeps the pairing

  lemma {:induction false} SplitLast<T>(a: seq<T>, b: seq<T>)
    requires b != []
    ensures b == b[..|b| - 1] + [b[|b| - 1]]
    ensures a + b == (a + b[..|b| - 1]) + [b[|b| - 1]]
  {
    assert b == b[..|b| - 1] + [b[|b| - 1]];
  }

  lemma {:induction false} Regroup<T>(a: seq<T>, b: seq<T>, c: seq<T>)
    ensures (a + b) + c == a + (b + c)
  {
  }

  lemma {:induction false} EventsConcat(a: seq<Message>, b: seq<Message>)
    ensures Events(a + b) == Events(a) + Events(b)
  {
    assert b == [] ==> Events(b) == [];
    hide MessageEvents, Events;
    if b == [] {
      assert a + b == a;
    } else {
      var front, m := b[..|b| - 1], b[|b| - 1];
      EventsConcat(a, front);
      SplitLast(a, b);
      EventsAppend(a + front, m);
      EventsAppend(front, m);
      Regroup(Events(a), Events(front), MessageEvents(m));
    }
  }

  lemma {:induction false} RunEvents(run: seq<Message>)
    requires forall i :: 0 <= i < |run| ==> run[i].answers.None?
    ensures Events(run) == CallEvents(FlatCalls(run))
  {
    if run != [] {
      var last := |run| - 1;
      RunEvents(run[..last]);
      assert CallEvents(FlatCalls(run[..last])) + CallEvents(run[last].toolCalls) == CallEvents(FlatCalls(run));
    }
  }

  lemma {:induction false} RenderEvents(run: seq<Message>)
    requires IsRun(run) && OnlyToolsAnswer(run)
    ensures MessageEvents(Render(run)) == Events(run)
  {
    if |run| == 1 {
      EventsAppend([], run[0]);
      assert [] + [run[0]] == run;
      assert Events([]) == [];
    } else {
      RunEvents(run);
      RenderKeeps(run);
    }
  }

  /** Merging changes neither the calls and answers nor their order. */
  lemma {:induction false} MergeKeepsEvents(merged: seq<Message>, runs: seq<seq<Message>>)
    requires Renders(merged, runs)
    requires OnlyToolsAnswer(Flatten(runs))
    ensures Events(merged) == Events(Flatten(runs))
  {
    if runs != [] {
      var last := |runs| - 1;
      var front := Flatten(runs[..last]);
      var all := Flatten(runs);
      assert forall i :: 0 <= i < |front| ==> all[i] == front[i];
      assert forall i :: 0 <= i < |runs[last]| ==> all[|front| + i] == runs[last][i];
      MergeKeepsEvents(merged[..last], runs[..last]);
      RenderEvents(runs[last]);
      EventsConcat(front, runs[last]);
    }
  }

  // ---------------------------------------------------------------- nothing is lost

  /** One thing a conversation carries. */
  datatype Mark =
    | Says(role: Role, part: Part)
    | Asks(id: string, kind: CallKind, body: string)
    | Gives(id: string, parts: seq<Part>)

  /**
   Within one assistant turn merging puts text before calls, so the conversation is read on two tracks:
   all texts and answers, and all calls, answers and texts that are not the assistant's.
   */
  datatype Track = Texts | Deeds

  /** What a content says, part by part; an empty text says nothing. */
  function Wording(content: Content): seq<Part> {
    match content
    case Parts(parts) => parts
    case Str(text) => if |text| == 0 then [] else [TextPart(text)]
  }

  function Spoken(role: Role, parts: seq<Part>, track: Track): (r: seq<Mark>)
    ensures role == Assistant && track == Deeds ==> r == []
    ensures !(role == Assistant && track == Deeds) ==>
              |r| == |parts| && forall i :: 0 <= i < |parts| ==> r[i] == Says(role, parts[i])
  {
    if role == Assistant && track == Deeds then [] else seq(|parts|, i requires 0 <= i < |parts| => Says(role, parts[i]))
  }

  /** What an accepted item carries. */
  function ItemMarks(x: Item, track: Track): seq<Mark> {
    match x
    case Said(role, content, _) => Spoken(role, Wording(content), track)
    case Called(id, kind, body, _) => if track == Texts then [] else [Asks(id, kind, body)]
    case Answered(id, _, content, _) => [Gives(id, Wording(content))]
    case Bootstrap(content, _) => Spoken(Developer, Wording(content), track)
    case Reasoned(texts, _) =>
      if texts == [] then [] else Spoken(Assistant, [TextPart("Reasoning summary:\n" + Joined(texts))], track)
    case Ignored(_) => []
  }

  function ItemsMarks(items: seq<Item>, track: Track): seq<Mark> {
    if items == [] then [] else ItemsMarks(items[..|items| - 1], track) + ItemMarks(items[|items| - 1], track)
  }

  function AskMarks(calls: seq<ToolCall>, track: Track): (r: seq<Mark>)
    ensures track == Texts ==> r == []
    ensures track == Deeds ==> |r| == |calls| && forall i :: 0 <= i < |r| ==> r[i] == Asks(calls[i].id, calls[i].kind, calls[i].body)
  {
    if track == Texts then [] else seq(|calls|, i requires 0 <= i < |calls| => Asks(calls[i].id, calls[i].kind, calls[i].body))
  }

  /** What a message carries. */
  function MessageMarks(m: Message, track: Track): seq<Mark> {
    var parts := if m.content == None then [] else Wording(m.content.value);
    (if m.answers == None then Spoken(m.role, parts, track) else [Gives(m.answers.value, parts)]) + AskMarks(m.toolCalls, track)
  }

  function Marks(ms: seq<Message>, track: Track): seq<Mark> {
    if ms == [] then [] else Marks(ms[..|ms| - 1], track) + MessageMarks(ms[|ms| - 1], track)
  }

  lemma {:induction false} MarksAppend(ms: seq<Message>, m: Message, track: Track)
    ensures Marks(ms + [m], track) == Marks(ms, track) + MessageMarks(m, track)
  {
    assert (ms + [m])[..|ms|] == ms;
  }

  lemma {:induction false} NoMarks(track: Track)
    ensures Marks([], track) == []
  {
  }

  lemma {:induction false} MarksConcat(a: seq<Message>, b: seq<Message>, track: Track)
    ensures Marks(a + b, track) == Marks(a, track) + Marks(b, track)
  {
    hide Marks, MessageMarks;
    NoMarks(track);
    if b == [] {
      assert a + b == a;
    } else {
      var front, m := b[..|b| - 1], b[|b| - 1];
      MarksConcat(a, front, track);
      SplitLast(a, b);
      MarksAppend(a + front, m, track);
      MarksAppend(front, m, track);
      Regroup(Marks(a, track), Marks(front, track), MessageMarks(m, track));
    }
  }

  lemma {:induction false} ItemCarries(x: Item, track: Track)
    ensures Marks(ItemMessages(x), track) == ItemMarks(x, track)
  {
    NoMarks(track);
    if ItemMessages(x) != [] {
      var m := ItemMessages(x)[0];
      MarksAppend([], m, track);
      assert [] + [m] == ItemMessages(x);
      assert Marks(ItemMessages(x), track) == MessageMarks(m, track);
      hide Marks;
      if x.Called? { assert track == Deeds ==> AskMarks(m.toolCalls, track)[0] == Asks(x.id, x.kind, x.body); }
    }
  }

  /** The messages of the items carry what the items carry. */
  lemma {:induction false} ItemsCarry(items: seq<Item>, track: Track)
    ensures Marks(ItemsMessages(items), track) == ItemsMarks(items, track)
  {
    hide ItemMarks, ItemMessages;
    NoMarks(track);
    if items != [] {
      var front, x := items[..|items| - 1], items[|items| - 1];
      ItemsCarry(front, track);
      ItemCarries(x, track);
      MarksConcat(ItemsMessages(front), ItemMessages(x), track);
    }
  }

  lemma {:induction false} WordingIsParts(content: Option<Content>)
    ensures PartsOf(content) == if content == None then [] else Wording(content.value)
  {
  }

  /** A run of assistant fragments carries all its parts and all its calls. */
  lemma {:induction false} RunMarks(run: seq<Message>, track: Track)
    requires AllAssistant(run) && forall i :: 0 <= i < |run| ==> run[i].answers.None?
    ensures Marks(run, track) == Spoken(Assistant, FlatParts(run), track) + AskMarks(FlatCalls(run), track)
  {
    NoMarks(track);
    if run != [] {
      var front, m := run[..|run| - 1], run[|run| - 1];
      RunMarks(front, track);
      WordingIsParts(m.content);
      JoinMarks(FlatParts(front), FlatCalls(front), PartsOf(m.content), m.toolCalls, track);
    }
  }

  lemma {:induction false} JoinMarks(p: seq<Part>, c: seq<ToolCall>, q: seq<Part>, d: seq<ToolCall>, track: Track)
    ensures Spoken(Assistant, p, track) + AskMarks(c, track) + (Spoken(Assistant, q, track) + AskMarks(d, track))
         == Spoken(Assistant, p + q, track) + AskMarks(c + d, track)
  {
    if track == Texts {
      assert Spoken(Assistant, p + q, track) == Spoken(Assistant, p, track) + Spoken(Assistant, q, track);
    } else {
      assert AskMarks(c + d, track) == AskMarks(c, track) + AskMarks(d, track);
    }
  }

  lemma {:induction false} RenderCarries(run: seq<Message>, track: Track)
    requires IsRun(run) && OnlyToolsAnswer(run)
    ensures MessageMarks(Render(run), track) == Marks(run, track)
  {
    if |run| == 1 {
      MarksAppend([], run[0], track);
      assert [] + [run[0]] == run;
      NoMarks(track);
    } else {
      RunMarks(run, track);
      RenderKeeps(run);
      WordingIsParts(Render(run).content);
      hide Render, Marks, FlatParts, FlatCalls, PartsOf;
    }
  }

  /** Merging loses, swaps and invents nothing on either track. */
  lemma {:induction false} MergeCarries(merged: seq<Message>, runs: seq<seq<Message>>, track: Track)
    requires Renders(merged, runs) && OnlyToolsAnswer(Flatten(runs))
    ensures Marks(merged, track) == Marks(Flatten(runs), track)
  {
    if runs != [] {
      var last := |runs| - 1;
      var front, all := Flatten(runs[..last]), Flatten(runs);
      assert forall i :: 0 <= i < |front| ==> all[i] == front[i];
      assert forall i :: 0 <= i < |runs[last]| ==> all[|front| + i] == runs[last][i];
      MergeCarries(merged[..last], runs[..last], track);
      RenderCarries(runs[last], track);
      MarksConcat(front, runs[last], track);
    }
  }

  // ---------------------------------------------------------------- the whole translation

  datatype Input = Text(text: string) | Items(items: seq<Item>) | Malformed

  ghost predicate AcceptableInput(input: Input) {
    input.Text? || (input.Items? && input.items != [] && Acceptable(input.items))
  }

  predicate IsSetup(m: Message) {
    m.role == System && m.toolCalls == [] && m.answers.None?
  }

  /** `setup` is the instruction and verbosity messages placed before the input. */
  method TranslateInput(setup: seq<Message>, input: Input) returns (r: Result<seq<Message>, Error>)
    requires forall i :: 0 <= i < |setup| ==> IsSetup(setup[i])
    ensures r.Ok? <==> AcceptableInput(input)
    ensures r.Ok? ==> Paired(Events(r.value)) && NoAdjacentAssistants(r.value)
    ensures r.Ok? && input.Text? ==> MergedFrom(r.value, setup + [Message(User, Some(Str(input.text)), [], None)])
    ensures r.Ok? && input.Items? ==> MergedFrom(r.value, setup + ItemsMessages(input.items))
    ensures r.Ok? && input.Items? ==> Events(r.value) == Events(ItemsMessages(input.items))
    ensures r.Ok? && input.Items? ==> forall track :: Marks(r.value, track) == Marks(setup, track) + ItemsMarks(input.items, track)
    ensures r.Ok? && input.Text? ==>
      forall track :: Marks(r.value, track) == Marks(setup, track) + if input.text == "" then [] else [Says(User, TextPart(input.text))]
  {
    hide Events, Marks, ItemsMarks, Paired, Acceptable, ItemsMessages, NoAdjacentAssistants, MergedFrom;
    var messages: seq<Message>;
    match input {
      case Text(text) =>
        messages := [Message(User, Some(Str(text)), [], None)];
        SilentEvents(messages);
        NothingIsPaired();
        forall track ensures Marks(messages, track) == if text == "" then [] else [Says(User, TextPart(text))] {
          UserText(text, track);
        }
      case Items(items) =>
        if items == [] {
          return Err(NotAnInput);
        }
        var translated := TranslateItems(items);
        if translated.Err? {
          return translated;
        }
        messages := translated.value;
        forall track ensures Marks(messages, track) == ItemsMarks(items, track) {
          ItemsCarry(items, track);
        }
      case Malformed => return Err(NotAnInput);
    }
    var merged := MergeAll(setup, messages);
    return Ok(merged);
  }

  lemma {:induction false} UserText(text: string, track: Track)
    ensures Marks([Message(User, Some(Str(text)), [], None)], track) == if text == "" then [] else [Says(User, TextPart(text))]
  {
    var m := Message(User, Some(Str(text)), [], None);
    MarksAppend([], m, track);
    NoMarks(track);
    assert [] + [m] == [m];
    hide Marks;
    if text != "" { assert MessageMarks(m, track)[0] == Says(User, TextPart(text)); }
  }

  /** The messages after the setup, merged. */
  method MergeAll(setup: seq<Message>, messages: seq<Message>) returns (merged: seq<Message>)
    requires (forall i :: 0 <= i < |setup| ==> IsSetup(setup[i])) && OnlyToolsAnswer(messages)
    ensures MergedFrom(merged, setup + messages) && NoAdjacentAssistants(merged)
    ensures Events(merged) == Events(messages)
    ensures forall track :: Marks(merged, track) == Marks(setup, track) + Marks(messages, track)
  {
    hide Events, AreRuns, Flatten, Renders, NoAdjacentAssistants, Marks;
    SilentEvents(setup);
    EventsConcat(setup, messages);
    assert [] + Events(messages) == Events(messages);
    merged := MergeAssistantItems(setup + messages);
    ghost var runs :| AreRuns(runs) && Flatten(runs) == setup + messages && Renders(merged, runs);
    MergedAreNotAdjacent(merged, runs);
    MergeKeepsEvents(merged, runs);
    forall track ensures Marks(merged, track) == Marks(setup, track) + Marks(messages, track) {
      MergeCarries(merged, runs, track);
      MarksConcat(setup, messages, track);
    }
  }

  lemma {:induction false} NothingIsPaired()
    ensures Paired([])
  {
    var none: seq<Event> := [];
    assert none[..0] == none;
  }

  lemma {:induction false} SilentEvents(ms: seq<Message>)
    requires forall i :: 0 <= i < |ms| ==> ms[i].toolCalls == [] && ms[i].answers.None?
    ensures Events(ms) == []
  {
    if ms != [] { SilentEvents(ms[..|ms| - 1]); }
  }
}
