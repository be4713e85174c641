/**
 Model of Claude context editing (crates/kproxy-translate/src/context.rs, the `clear_thinking` and
 `clear_tool_uses` edits). The token estimate is a parameter: results hold for any estimate.
 */
module ContextEdits {
  import opened Wrappers
  import opened Conversation

  const CLEARED_TOOL_RESULT_TEXT := "[Older tool result omitted by Claude context management.]"
  const EMPTY_INPUT := "{}"

  datatype Trigger = InputTokens(tokens: nat) | ToolUses(uses: nat)

  datatype InputsPlan = NoInputs | AllInputs | Selected(names: set<string>)

  datatype ToolPlan = ToolPlan(
    trigger: Trigger,
    keep: nat,
    clearAtLeast: Option<nat>,
    exclude: set<string>,
    inputs: InputsPlan)

  /** `thinkingKeep` is absent when there is no thinking edit or it keeps everything. */
  datatype Plan = Plan(thinkingKeep: Option<nat>, tools: Option<ToolPlan>)

  // ---------------------------------------------------------------- thinking turns

  predicate HasThinking(blocks: seq<Block>) {
    exists b :: b in blocks && b.Thinking?
  }

  predicate ThinkingTurn(m: Message) {
    m.role == Assistant && m.content.Blocks? && HasThinking(m.content.blocks)
  }

  function CountTurns(ms: seq<Message>): nat {
    if ms == [] then 0 else (if ThinkingTurn(ms[0]) then 1 else 0) + CountTurns(ms[1..])
  }

  function DropThinking(blocks: seq<Block>): (r: seq<Block>)
    ensures !HasThinking(r)
    ensures !HasThinking(blocks) ==> r == blocks
  {
    if blocks == [] then []
    else
      assert forall b :: b in blocks <==> b == blocks[0] || b in blocks[1..];
      (if blocks[0].Thinking? then [] else [blocks[0]]) + DropThinking(blocks[1..])
  }

  /** A thinking turn loses its thinking when at least `keep` newer turns think. */
  function StripMessage(ms: seq<Message>, keep: nat, i: nat): Message
    requires i < |ms|
  {
    if ThinkingTurn(ms[i]) && CountTurns(ms[i + 1..]) >= keep then WithBlocks(ms[i], DropThinking(ms[i].content.blocks))
    else ms[i]
  }

  function StripOldThinking(ms: seq<Message>, keep: nat): seq<Message> {
    seq(|ms|, i requires 0 <= i < |ms| => StripMessage(ms, keep, i))
  }

  predicate EmptyAssistant(m: Message) {
    m.role == Assistant && m.content == Blocks([])
  }

  function DropEmpty(ms: seq<Message>): (r: seq<Message>)
    ensures forall m :: m in r <==> m in ms && !EmptyAssistant(m)
  {
    if ms == [] then []
    else
      assert forall m :: m in ms <==> m == ms[0] || m in ms[1..];
      (if EmptyAssistant(ms[0]) then [] else [ms[0]]) + DropEmpty(ms[1..])
  }

  function ClearThinking(ms: seq<Message>, keep: nat): seq<Message> {
    DropEmpty(StripOldThinking(ms, keep))
  }

  lemma {:induction false} StripTail(ms: seq<Message>, keep: nat)
    requires ms != []
    ensures StripOldThinking(ms, keep) == [StripMessage(ms, keep, 0)] + StripOldThinking(ms[1..], keep)
  {
    forall i | 0 <= i < |ms| - 1 ensures StripMessage(ms[1..], keep, i) == StripMessage(ms, keep, i + 1) {
      assert ms[1..][i + 1..] == ms[i + 2..];
    }
  }

  /** Exactly the newest `keep` thinking turns still think. */
  lemma {:induction false} TurnsKept(ms: seq<Message>, keep: nat)
    ensures CountTurns(StripOldThinking(ms, keep)) == if CountTurns(ms) < keep then CountTurns(ms) else keep
  {
    if ms != [] {
      StripTail(ms, keep);
      TurnsKept(ms[1..], keep);
      assert StripOldThinking(ms, keep)[1..] == StripOldThinking(ms[1..], keep);
    }
  }

  lemma {:induction false} TurnsSuffix(ms: seq<Message>, i: nat, k: nat)
    requires i <= k <= |ms|
    ensures CountTurns(ms[i..]) >= CountTurns(ms[k..])
    ensures i < k && ThinkingTurn(ms[i]) ==> CountTurns(ms[i..]) > CountTurns(ms[k..])
    decreases k - i
  {
    if i < k {
      assert ms[i..][1..] == ms[i + 1..];
      TurnsSuffix(ms, i + 1, k);
    }
  }

  /** A turn that thinks and is stripped. */
  predicate IsStripped(ms: seq<Message>, keep: nat, i: nat)
    requires i < |ms|
  {
    ThinkingTurn(ms[i]) && !ThinkingTurn(StripMessage(ms, keep, i))
  }

  /** The turns that still think are newer than every turn that was stripped. */
  lemma {:induction false} ThinkingSurvivorsAreNewer(ms: seq<Message>, keep: nat, i: nat, k: nat)
    requires i < |ms| && k < |ms| && IsStripped(ms, keep, i)
    requires ThinkingTurn(StripMessage(ms, keep, k))
    ensures i < k
  {
    if k < i {
      TurnsSuffix(ms, k + 1, i + 1);
    }
  }

  lemma {:induction false} FewTurnsNothingStripped(ms: seq<Message>, keep: nat)
    requires CountTurns(ms) <= keep
    ensures StripOldThinking(ms, keep) == ms
  {
    if ms != [] {
      StripTail(ms, keep);
      FewTurnsNothingStripped(ms[1..], keep);
    }
  }

  lemma {:induction false} DropEmptyKeepsTurns(ms: seq<Message>)
    ensures CountTurns(DropEmpty(ms)) == CountTurns(ms)
  {
    if ms != [] {
      DropEmptyKeepsTurns(ms[1..]);
      if EmptyAssistant(ms[0]) {
        assert DropEmpty(ms) == DropEmpty(ms[1..]);
      } else {
        assert DropEmpty(ms)[1..] == DropEmpty(ms[1..]);
      }
    }
  }

  lemma {:induction false} NothingToDrop(ms: seq<Message>)
    requires forall m :: m in ms ==> !EmptyAssistant(m)
    ensures DropEmpty(ms) == ms
  {
    if ms != [] { NothingToDrop(ms[1..]); }
  }

  /** A conversation the thinking edit would leave alone. */
  ghost predicate ThinkingSettled(ms: seq<Message>, keep: nat) {
    CountTurns(ms) <= keep && forall m :: m in ms ==> !EmptyAssistant(m)
  }

  lemma {:induction false} ClearThinkingSettles(ms: seq<Message>, keep: nat)
    ensures ThinkingSettled(ClearThinking(ms, keep), keep)
  {
    TurnsKept(ms, keep);
    DropEmptyKeepsTurns(StripOldThinking(ms, keep));
  }

  lemma {:induction false} SettledThinkingUnchanged(ms: seq<Message>, keep: nat)
    requires ThinkingSettled(ms, keep)
    ensures ClearThinking(ms, keep) == ms
  {
    FewTurnsNothingStripped(ms, keep);
    NothingToDrop(ms);
  }

  // ---------------------------------------------------------------- tool results

  /** Names of the tool calls in a list of blocks, by call id; a later duplicate wins. */
  function BlockNames(blocks: seq<Block>, acc: map<string, string>): map<string, string> {
    if blocks == [] then acc
    else
      var b := blocks[0];
      BlockNames(blocks[1..], if b.ToolUse? && b.id.Some? && b.name.Some? then acc[b.id.value := b.name.value] else acc)
  }

  function ToolNames(ms: seq<Message>, acc: map<string, string>): map<string, string> {
    if ms == [] then acc else ToolNames(ms[1..], BlockNames(BlocksOf(ms[0]), acc))
  }

  predicate IsCleared(b: Block) {
    b.ToolResult? && b.output == Text(CLEARED_TOOL_RESULT_TEXT)
  }

  predicate Excluded(id: string, names: map<string, string>, exclude: set<string>) {
    id in names && names[id] in exclude
  }

  predicate Clearable(b: Block, names: map<string, string>, exclude: set<string>) {
    b.ToolResult? && !IsCleared(b) && b.toolUseId.Some? && !Excluded(b.toolUseId.value, names, exclude)
  }

  /** What the trigger counts: unlike `Clearable`, it includes results without a call id. */
  predicate Countable(b: Block, names: map<string, string>, exclude: set<string>) {
    b.ToolResult? && !IsCleared(b) && (b.toolUseId.None? || !Excluded(b.toolUseId.value, names, exclude))
  }

  function Count(blocks: seq<Block>, p: Block -> bool): nat {
    if blocks == [] then 0 else (if p(blocks[0]) then 1 else 0) + Count(blocks[1..], p)
  }

  function CountAll(ms: seq<Message>, p: Block -> bool): nat {
    if ms == [] then 0 else Count(BlocksOf(ms[0]), p) + CountAll(ms[1..], p)
  }

  function Clear(b: Block): Block {
    if b.ToolResult? then b.(output := Text(CLEARED_TOOL_RESULT_TEXT)) else b
  }

  /** Block `j` is cleared when it is clearable and `keep` or more clearable ones are newer. */
  predicate ClearsBlock(blocks: seq<Block>, p: Block -> bool, newer: nat, keep: nat, j: nat)
    requires j < |blocks|
  {
    p(blocks[j]) && Count(blocks[j + 1..], p) + newer >= keep
  }

  function ClearBlocks(blocks: seq<Block>, p: Block -> bool, newer: nat, keep: nat): seq<Block> {
    seq(|blocks|, j requires 0 <= j < |blocks| =>
      if ClearsBlock(blocks, p, newer, keep, j) then Clear(blocks[j]) else blocks[j])
  }

  function ClearMessage(ms: seq<Message>, p: Block -> bool, keep: nat, i: nat): Message
    requires i < |ms|
  {
    WithBlocks(ms[i], ClearBlocks(BlocksOf(ms[i]), p, CountAll(ms[i + 1..], p), keep))
  }

  function ClearResults(ms: seq<Message>, p: Block -> bool, keep: nat): seq<Message> {
    seq(|ms|, i requires 0 <= i < |ms| => ClearMessage(ms, p, keep, i))
  }

  /** The result at message `i`, block `j` is cleared. */
  predicate ClearsAt(ms: seq<Message>, p: Block -> bool, keep: nat, i: nat, j: nat)
    requires i < |ms| && j < |BlocksOf(ms[i])|
  {
    ClearsBlock(BlocksOf(ms[i]), p, CountAll(ms[i + 1..], p), keep, j)
  }

  function CallOf(b: Block): string {
    if b.ToolResult? && b.toolUseId.Some? then b.toolUseId.value else ""
  }

  /** Call ids of the results that `ClearResults` clears in message `from` and later ones. */
  ghost function ClearedIdsFrom(ms: seq<Message>, p: Block -> bool, keep: nat, from: nat): set<string> {
    set i, j | from <= i < |ms| && 0 <= j < |BlocksOf(ms[i])| && ClearsAt(ms, p, keep, i, j) :: CallOf(BlocksOf(ms[i])[j])
  }

  ghost function ClearedIds(ms: seq<Message>, p: Block -> bool, keep: nat): set<string> {
    ClearedIdsFrom(ms, p, keep, 0)
  }

  predicate Includes(inputs: InputsPlan, name: Option<string>) {
    match inputs
    case NoInputs => false
    case AllInputs => true
    case Selected(names) => name.Some? && name.value in names
  }

  function EmptyInput(b: Block, ids: set<string>, inputs: InputsPlan): Block {
    if b.ToolUse? && b.id.Some? && b.id.value in ids && Includes(inputs, b.name) then b.(input := EMPTY_INPUT) else b
  }

  function EmptyMessage(m: Message, ids: set<string>, inputs: InputsPlan): Message {
    var bs := BlocksOf(m);
    WithBlocks(m, seq(|bs|, j requires 0 <= j < |bs| => EmptyInput(bs[j], ids, inputs)))
  }

  function EmptyInputs(ms: seq<Message>, ids: set<string>, inputs: InputsPlan): seq<Message> {
    seq(|ms|, i requires 0 <= i < |ms| => EmptyMessage(ms[i], ids, inputs))
  }

  function ClearablePredicate(ms: seq<Message>, exclude: set<string>): Block -> bool {
    var names := ToolNames(ms, map[]);
    (b: Block) => Clearable(b, names, exclude)
  }

  function CountablePredicate(ms: seq<Message>, exclude: set<string>): Block -> bool {
    var names := ToolNames(ms, map[]);
    (b: Block) => Countable(b, names, exclude)
  }

  predicate Activated(t: Trigger, tokens: nat, uses: nat) {
    match t
    case InputTokens(value) => tokens >= value
    case ToolUses(value) => uses >= value
  }

  function Saved(before: nat, after: nat): nat {
    if after <= before then before - after else 0
  }

  /** The conversation with old results and selected inputs cleared, before the size check. */
  ghost function ClearedTools(ms: seq<Message>, plan: ToolPlan): seq<Message> {
    var p := ClearablePredicate(ms, plan.exclude);
    EmptyInputs(ClearResults(ms, p, plan.keep), ClearedIds(ms, p, plan.keep), plan.inputs)
  }

  /** The tool edit is triggered and saves enough to be kept. */
  ghost predicate Commits(ms: seq<Message>, plan: ToolPlan, tokens: nat, estimate: seq<Message> -> nat) {
    && Activated(plan.trigger, tokens, CountAll(ms, CountablePredicate(ms, plan.exclude)))
    && (plan.clearAtLeast.Some? ==> Saved(estimate(ms), estimate(ClearedTools(ms, plan))) >= plan.clearAtLeast.value)
  }

  /** The tool edit as a whole: committed, or else exactly the conversation it was given. */
  ghost function EditTools(ms: seq<Message>, plan: ToolPlan, tokens: nat, estimate: seq<Message> -> nat): seq<Message> {
    if Commits(ms, plan, tokens, estimate) then ClearedTools(ms, plan) else ms
  }

  ghost function ApplyEdits(ms: seq<Message>, plan: Plan, tokens: nat, estimate: seq<Message> -> nat): seq<Message> {
    var thought := if plan.thinkingKeep.Some? then ClearThinking(ms, plan.thinkingKeep.value) else ms;
    if plan.tools.None? then thought else EditTools(thought, plan.tools.value, tokens, estimate)
  }

  // ---------------------------------------------------------------- what the tool edit keeps

  /** Same block up to the output of a tool result and the input of a tool call. */
  predicate SimilarBlock(a: Block, b: Block) {
    match (a, b)
    case (ToolUse(id, name, _, rest), ToolUse(id', name', _, rest')) => id == id' && name == name' && rest == rest'
    case (ToolResult(id, _, rest), ToolResult(id', _, rest')) => id == id' && rest == rest'
    case _ => a == b
  }

  predicate SimilarBlocks(a: seq<Block>, b: seq<Block>) {
    |a| == |b| && forall j :: 0 <= j < |a| ==> SimilarBlock(a[j], b[j])
  }

  predicate SimilarMessage(a: Message, b: Message) {
    && a.role == b.role && a.effort == b.effort && a.rest == b.rest
    && (if a.content.Blocks? then b.content.Blocks? && SimilarBlocks(a.content.blocks, b.content.blocks)
        else a.content == b.content)
  }

  predicate Similar(a: seq<Message>, b: seq<Message>) {
    |a| == |b| && forall i :: 0 <= i < |a| ==> SimilarMessage(a[i], b[i])
  }

  /** The call ids of all tool calls and tool results, in order. */
  function CallIds(blocks: seq<Block>): seq<Option<string>> {
    if blocks == [] then []
    else
      (match blocks[0]
       case ToolUse(id, _, _, _) => [id]
       case ToolResult(id, _, _) => [id]
       case _ => []) + CallIds(blocks[1..])
  }

  function AllCallIds(ms: seq<Message>): seq<Option<string>> {
    if ms == [] then [] else CallIds(BlocksOf(ms[0])) + AllCallIds(ms[1..])
  }

  lemma {:induction false} SimilarBlocksAgree(a: seq<Block>, b: seq<Block>, acc: map<string, string>)
    requires SimilarBlocks(a, b)
    ensures BlockNames(a, acc) == BlockNames(b, acc)
    ensures CallIds(a) == CallIds(b)
  {
    if a != [] {
      var x := a[0];
      assert SimilarBlock(a[0], b[0]);
      SimilarBlocksAgree(a[1..], b[1..],
        if x.ToolUse? && x.id.Some? && x.name.Some? then acc[x.id.value := x.name.value] else acc);
    }
  }

  lemma {:induction false} SimilarAgree(a: seq<Message>, b: seq<Message>, acc: map<string, string>)
    requires Similar(a, b)
    ensures ToolNames(a, acc) == ToolNames(b, acc)
    ensures AllCallIds(a) == AllCallIds(b)
    ensures CountTurns(a) == CountTurns(b)
  {
    if a != [] {
      assert SimilarMessage(a[0], b[0]);
      SimilarBlocksAgree(BlocksOf(a[0]), BlocksOf(b[0]), acc);
      SameThinking(BlocksOf(a[0]), BlocksOf(b[0]));
      SimilarAgree(a[1..], b[1..], BlockNames(BlocksOf(a[0]), acc));
    }
  }

  lemma SameThinking(a: seq<Block>, b: seq<Block>)
    requires SimilarBlocks(a, b)
    ensures HasThinking(a) <==> HasThinking(b)
  {
    if x :| x in a && x.Thinking? {
      var j :| 0 <= j < |a| && a[j] == x;
      assert SimilarBlock(a[j], b[j]) && b[j] in b;
    }
    if x :| x in b && x.Thinking? {
      var j :| 0 <= j < |b| && b[j] == x;
      assert SimilarBlock(a[j], b[j]) && a[j] in a;
    }
  }

  lemma ClearResultsSimilar(ms: seq<Message>, p: Block -> bool, keep: nat)
    ensures Similar(ms, ClearResults(ms, p, keep))
  {
    forall i | 0 <= i < |ms| ensures SimilarMessage(ms[i], ClearMessage(ms, p, keep, i)) {
      var bs := BlocksOf(ms[i]);
      assert SimilarBlocks(bs, ClearBlocks(bs, p, CountAll(ms[i + 1..], p), keep));
    }
  }

  lemma EmptyInputsSimilar(ms: seq<Message>, ids: set<string>, inputs: InputsPlan)
    ensures Similar(ms, EmptyInputs(ms, ids, inputs))
  {
    forall i | 0 <= i < |ms| ensures SimilarMessage(ms[i], EmptyMessage(ms[i], ids, inputs)) {}
  }

  lemma SimilarTransitive(a: seq<Message>, b: seq<Message>, c: seq<Message>)
    requires Similar(a, b) && Similar(b, c)
    ensures Similar(a, c)
  {
    forall i | 0 <= i < |a| ensures SimilarMessage(a[i], c[i]) {
      assert SimilarMessage(a[i], b[i]) && SimilarMessage(b[i], c[i]);
      if a[i].content.Blocks? {
        var x, y, z := a[i].content.blocks, b[i].content.blocks, c[i].content.blocks;
        forall j | 0 <= j < |x| ensures SimilarBlock(x[j], z[j]) {
          assert SimilarBlock(x[j], y[j]) && SimilarBlock(y[j], z[j]);
        }
      }
    }
  }

  /** The tool edit changes outputs and inputs only: every call and result stays, in place, under its id. */
  lemma {:induction false} EditToolsKeepsPairing(ms: seq<Message>, plan: ToolPlan, tokens: nat, estimate: seq<Message> -> nat)
    ensures Similar(ms, EditTools(ms, plan, tokens, estimate))
    ensures AllCallIds(EditTools(ms, plan, tokens, estimate)) == AllCallIds(ms)
  {
    var p := ClearablePredicate(ms, plan.exclude);
    var cleared, ids := ClearResults(ms, p, plan.keep), ClearedIds(ms, p, plan.keep);
    ClearResultsSimilar(ms, p, plan.keep);
    EmptyInputsSimilar(cleared, ids, plan.inputs);
    SimilarTransitive(ms, cleared, EmptyInputs(cleared, ids, plan.inputs));
    assert Similar(ms, ms) by { SimilarReflexive(ms); }
    SimilarAgree(ms, EditTools(ms, plan, tokens, estimate), map[]);
  }

  lemma SimilarReflexive(ms: seq<Message>)
    ensures Similar(ms, ms)
  {
    forall i | 0 <= i < |ms| ensures SimilarMessage(ms[i], ms[i]) {}
  }

  // ---------------------------------------------------------------- recency

  /** `p` picks only results that are not cleared yet. */
  ghost predicate PicksUncleared(p: Block -> bool) {
    forall b :: p(b) ==> b.ToolResult? && !IsCleared(b)
  }

  lemma {:induction false} ClearBlocksTail(blocks: seq<Block>, p: Block -> bool, newer: nat, keep: nat)
    requires blocks != []
    ensures ClearBlocks(blocks, p, newer, keep)
            == [if ClearsBlock(blocks, p, newer, keep, 0) then Clear(blocks[0]) else blocks[0]]
               + ClearBlocks(blocks[1..], p, newer, keep)
  {
    forall j | 0 <= j < |blocks| - 1
      ensures ClearsBlock(blocks[1..], p, newer, keep, j) <==> ClearsBlock(blocks, p, newer, keep, j + 1)
    {
      assert blocks[1..][j + 1..] == blocks[j + 2..];
    }
  }

  function Min(a: nat, b: nat): nat {
    if a < b then a else b
  }

  lemma {:induction false} BlocksKept(blocks: seq<Block>, p: Block -> bool, newer: nat, keep: nat)
    requires PicksUncleared(p)
    ensures Count(ClearBlocks(blocks, p, newer, keep), p) + Min(newer, keep) == Min(Count(blocks, p) + newer, keep)
  {
    if blocks != [] {
      ClearBlocksTail(blocks, p, newer, keep);
      BlocksKept(blocks[1..], p, newer, keep);
      assert ClearBlocks(blocks, p, newer, keep)[1..] == ClearBlocks(blocks[1..], p, newer, keep);
      assert ClearsBlock(blocks, p, newer, keep, 0) ==> IsCleared(Clear(blocks[0])) && !p(Clear(blocks[0]));
    }
  }

  lemma {:induction false} ClearResultsTail(ms: seq<Message>, p: Block -> bool, keep: nat)
    requires ms != []
    ensures ClearResults(ms, p, keep) == [ClearMessage(ms, p, keep, 0)] + ClearResults(ms[1..], p, keep)
  {
    forall i | 0 <= i < |ms| - 1 ensures ClearMessage(ms[1..], p, keep, i) == ClearMessage(ms, p, keep, i + 1) {
      assert ms[1..][i + 1..] == ms[i + 2..];
    }
  }

  /** Of the clearable results exactly the newest `keep` survive: that many remain, ... */
  lemma {:induction false} ResultsKept(ms: seq<Message>, p: Block -> bool, keep: nat)
    requires PicksUncleared(p)
    ensures CountAll(ClearResults(ms, p, keep), p) == Min(CountAll(ms, p), keep)
  {
    if ms != [] {
      ClearResultsTail(ms, p, keep);
      ResultsKept(ms[1..], p, keep);
      BlocksKept(BlocksOf(ms[0]), p, CountAll(ms[1..], p), keep);
      assert ClearResults(ms, p, keep)[1..] == ClearResults(ms[1..], p, keep);
    }
  }

  lemma {:induction false} CountSuffix(blocks: seq<Block>, p: Block -> bool, j: nat, k: nat)
    requires j <= k <= |blocks|
    ensures Count(blocks[j..], p) >= Count(blocks[k..], p)
    ensures j < k && p(blocks[j]) ==> Count(blocks[j..], p) > Count(blocks[k..], p)
    decreases k - j
  {
    if j < k {
      assert blocks[j..][1..] == blocks[j + 1..];
      CountSuffix(blocks, p, j + 1, k);
    }
  }

  lemma {:induction false} CountAllSuffix(ms: seq<Message>, p: Block -> bool, i: nat, k: nat)
    requires i <= k <= |ms|
    ensures CountAll(ms[i..], p) >= CountAll(ms[k..], p)
    ensures i < k ==> CountAll(ms[i..], p) >= Count(BlocksOf(ms[i]), p) + CountAll(ms[k..], p)
    decreases k - i
  {
    if i < k {
      assert ms[i..][1..] == ms[i + 1..];
      CountAllSuffix(ms, p, i + 1, k);
    }
  }

  /** ... and whatever survives is newer than whatever is cleared. */
  lemma {:induction false} SurvivorsAreNewer(ms: seq<Message>, p: Block -> bool, keep: nat, i: nat, j: nat, i': nat, j': nat)
    requires i < |ms| && j < |BlocksOf(ms[i])| && i' < |ms| && j' < |BlocksOf(ms[i'])|
    requires ClearsAt(ms, p, keep, i, j)
    requires p(BlocksOf(ms[i'])[j']) && !ClearsAt(ms, p, keep, i', j')
    ensures i < i' || (i == i' && j < j')
  {
    hide Count, CountAll;
    var bs := BlocksOf(ms[i]);
    if i' < i {
      OlderMessageCounts(ms, p, i', i, j);
    } else if i' == i && j' <= j {
      CountSuffix(bs, p, j' + 1, j + 1);
    }
  }

  lemma {:induction false} OlderMessageCounts(ms: seq<Message>, p: Block -> bool, i': nat, i: nat, j: nat)
    requires i' < i < |ms| && j < |BlocksOf(ms[i])|
    ensures CountAll(ms[i' + 1..], p) >= Count(BlocksOf(ms[i])[j + 1..], p) + CountAll(ms[i + 1..], p)
  {
    var bs := BlocksOf(ms[i]);
    assert bs[0..] == bs;
    assert ms[i..][1..] == ms[i + 1..];
    CountSuffix(bs, p, 0, j + 1);
    CountAllSuffix(ms, p, i' + 1, i);
  }

  lemma {:induction false} FewBlocksNothingCleared(blocks: seq<Block>, p: Block -> bool, newer: nat, keep: nat)
    requires Count(blocks, p) + newer <= keep
    ensures ClearBlocks(blocks, p, newer, keep) == blocks
    ensures forall j :: 0 <= j < |blocks| ==> !ClearsBlock(blocks, p, newer, keep, j)
  {
    forall j | 0 <= j < |blocks| ensures !ClearsBlock(blocks, p, newer, keep, j) {
      CountSuffix(blocks, p, 0, j + 1);
      CountSuffix(blocks, p, 0, j);
      CountSuffix(blocks, p, j, j + 1);
      assert blocks[0..] == blocks;
    }
  }

  lemma {:induction false} FewResultsNothingCleared(ms: seq<Message>, p: Block -> bool, keep: nat)
    requires CountAll(ms, p) <= keep
    ensures ClearResults(ms, p, keep) == ms
    ensures ClearedIds(ms, p, keep) == {}
  {
    forall i | 0 <= i < |ms|
      ensures ClearMessage(ms, p, keep, i) == ms[i]
      ensures forall j :: 0 <= j < |BlocksOf(ms[i])| ==> !ClearsAt(ms, p, keep, i, j)
    {
      CountAllSuffix(ms, p, 0, i);
      CountAllSuffix(ms, p, i, i + 1);
      assert ms[0..] == ms;
      FewBlocksNothingCleared(BlocksOf(ms[i]), p, CountAll(ms[i + 1..], p), keep);
    }
  }

  // ---------------------------------------------------------------- idempotence

  lemma {:induction false} EmptyingNoInputs(ms: seq<Message>, inputs: InputsPlan)
    ensures EmptyInputs(ms, {}, inputs) == ms
  {
    forall i | 0 <= i < |ms| ensures EmptyMessage(ms[i], {}, inputs) == ms[i] {
      var bs := BlocksOf(ms[i]);
      assert seq(|bs|, j requires 0 <= j < |bs| => EmptyInput(bs[j], {}, inputs)) == bs;
    }
  }

  lemma {:induction false} EmptyInputsKeepsCount(ms: seq<Message>, ids: set<string>, inputs: InputsPlan, p: Block -> bool)
    requires PicksUncleared(p)
    ensures CountAll(EmptyInputs(ms, ids, inputs), p) == CountAll(ms, p)
  {
    if ms != [] {
      var bs := BlocksOf(ms[0]);
      SameCount(bs, BlocksOf(EmptyMessage(ms[0], ids, inputs)), p);
      assert EmptyInputs(ms, ids, inputs)[1..] == EmptyInputs(ms[1..], ids, inputs);
      EmptyInputsKeepsCount(ms[1..], ids, inputs, p);
    }
  }

  lemma {:induction false} SameCount(a: seq<Block>, b: seq<Block>, p: Block -> bool)
    requires |a| == |b| && forall j :: 0 <= j < |a| ==> p(a[j]) == p(b[j])
    ensures Count(a, p) == Count(b, p)
  {
    if a != [] { SameCount(a[1..], b[1..], p); }
  }

  /** A conversation in which the tool edit has nothing left to clear is left alone by it. */
  lemma {:induction false} SettledToolsUnchanged(ms: seq<Message>, plan: ToolPlan, tokens: nat, estimate: seq<Message> -> nat)
    requires CountAll(ms, ClearablePredicate(ms, plan.exclude)) <= plan.keep
    ensures EditTools(ms, plan, tokens, estimate) == ms
  {
    FewResultsNothingCleared(ms, ClearablePredicate(ms, plan.exclude), plan.keep);
    EmptyingNoInputs(ms, plan.inputs);
  }

  lemma {:induction false} ClearedToolsSettled(ms: seq<Message>, plan: ToolPlan)
    ensures var after := ClearedTools(ms, plan);
            CountAll(after, ClearablePredicate(after, plan.exclude)) <= plan.keep
  {
    var p := ClearablePredicate(ms, plan.exclude);
    var cleared, ids := ClearResults(ms, p, plan.keep), ClearedIds(ms, p, plan.keep);
    ClearResultsSimilar(ms, p, plan.keep);
    EmptyInputsSimilar(cleared, ids, plan.inputs);
    SimilarAgree(ms, cleared, map[]);
    SimilarAgree(cleared, EmptyInputs(cleared, ids, plan.inputs), map[]);
    EmptyInputsKeepsCount(cleared, ids, plan.inputs, p);
    ResultsKept(ms, p, plan.keep);
    SamePredicateSameCount(ClearedTools(ms, plan), p, ClearablePredicate(ClearedTools(ms, plan), plan.exclude));
  }

  lemma {:induction false} SamePredicateSameCount(ms: seq<Message>, p: Block -> bool, q: Block -> bool)
    requires forall b :: p(b) == q(b)
    ensures CountAll(ms, p) == CountAll(ms, q)
  {
    if ms != [] {
      SamePredicateSameBlockCount(BlocksOf(ms[0]), p, q);
      SamePredicateSameCount(ms[1..], p, q);
    }
  }

  lemma {:induction false} SamePredicateSameBlockCount(blocks: seq<Block>, p: Block -> bool, q: Block -> bool)
    requires forall b :: p(b) == q(b)
    ensures Count(blocks, p) == Count(blocks, q)
  {
    if blocks != [] { SamePredicateSameBlockCount(blocks[1..], p, q); }
  }

  lemma {:induction false} EditToolsIdempotent(ms: seq<Message>, plan: ToolPlan, tokens: nat, estimate: seq<Message> -> nat)
    ensures var once := EditTools(ms, plan, tokens, estimate);
            EditTools(once, plan, tokens, estimate) == once
  {
    var once := EditTools(ms, plan, tokens, estimate);
    if once != ms {
      ClearedToolsSettled(ms, plan);
      SettledToolsUnchanged(once, plan, tokens, estimate);
    }
  }

  lemma {:induction false} EditToolsKeepsThinkingSettled(ms: seq<Message>, keep: nat, plan: ToolPlan, tokens: nat, estimate: seq<Message> -> nat)
    requires ThinkingSettled(ms, keep)
    ensures ThinkingSettled(EditTools(ms, plan, tokens, estimate), keep)
  {
    var after := EditTools(ms, plan, tokens, estimate);
    EditToolsKeepsPairing(ms, plan, tokens, estimate);
    SimilarAgree(ms, after, map[]);
    forall m | m in after ensures !EmptyAssistant(m) {
      var i :| 0 <= i < |after| && after[i] == m;
      assert SimilarMessage(ms[i], after[i]) && ms[i] in ms;
    }
  }

  /**
   Context editing is idempotent for every plan, trigger and estimate: a second run with the same
   token count changes nothing, also after a rollback and after emptied turns were dropped.
   */
  lemma {:induction false} ApplyEditsIdempotent(ms: seq<Message>, plan: Plan, tokens: nat, estimate: seq<Message> -> nat)
    ensures var once := ApplyEdits(ms, plan, tokens, estimate);
            ApplyEdits(once, plan, tokens, estimate) == once
  {
    var thought := if plan.thinkingKeep.Some? then ClearThinking(ms, plan.thinkingKeep.value) else ms;
    var once := ApplyEdits(ms, plan, tokens, estimate);
    if plan.thinkingKeep.Some? {
      var keep := plan.thinkingKeep.value;
      ClearThinkingSettles(ms, keep);
      if plan.tools.Some? {
        EditToolsKeepsThinkingSettled(thought, keep, plan.tools.value, tokens, estimate);
      }
      SettledThinkingUnchanged(once, keep);
    }
    if plan.tools.Some? {
      EditToolsIdempotent(thought, plan.tools.value, tokens, estimate);
    }
  }

  // ---------------------------------------------------------------- block by block

  /** What a committed tool edit does to each single block. */
  lemma {:induction false} ClearedToolsAt(ms: seq<Message>, plan: ToolPlan, i: nat, j: nat)
    requires i < |ms| && j < |BlocksOf(ms[i])|
    ensures var p := ClearablePredicate(ms, plan.exclude);
            var after, ids, b := ClearedTools(ms, plan), ClearedIds(ms, p, plan.keep), BlocksOf(ms[i])[j];
            && |after| == |ms| && |BlocksOf(after[i])| == |BlocksOf(ms[i])|
            && var b' := BlocksOf(after[i])[j];
               && (b.ToolResult? ==> b' == if ClearsAt(ms, p, plan.keep, i, j) then Clear(b) else b)
               && (b.ToolResult? && b.toolUseId.Some? && Excluded(b.toolUseId.value, ToolNames(ms, map[]), plan.exclude) ==> b' == b)
               && (b.ToolUse? ==>
                     b' == if b.id.Some? && b.id.value in ids && Includes(plan.inputs, b.name) then b.(input := EMPTY_INPUT) else b)
               && (!b.ToolResult? && !b.ToolUse? ==> b' == b)
  {
    var p := ClearablePredicate(ms, plan.exclude);
    var cleared := ClearResults(ms, p, plan.keep);
    assert BlocksOf(cleared[i])[j] == if ClearsAt(ms, p, plan.keep, i, j) then Clear(BlocksOf(ms[i])[j]) else BlocksOf(ms[i])[j];
  }

  // ---------------------------------------------------------------- the edits as loops

  datatype Stats = Stats(turns: nat, results: nat, inputs: nat)

  /** The counts `apply_context_management_edits` reports: distinct call ids, not results. */
  ghost function ExpectedStats(ms: seq<Message>, plan: Plan, tokens: nat, estimate: seq<Message> -> nat): Stats {
    var turns := if plan.thinkingKeep.Some? then CountTurns(ms) - Min(CountTurns(ms), plan.thinkingKeep.value) else 0;
    var thought := if plan.thinkingKeep.Some? then ClearThinking(ms, plan.thinkingKeep.value) else ms;
    if plan.tools.None? || !Commits(thought, plan.tools.value, tokens, estimate) then Stats(turns, 0, 0)
    else
      var ids := ClearedIds(thought, ClearablePredicate(thought, plan.tools.value.exclude), plan.tools.value.keep);
      Stats(turns, |ids|, CountEmptied(thought, ids, plan.tools.value.inputs))
  }

  /** How many more items a backward scan keeps after it has seen `seen` of them. */
  function Left(keep: nat, seen: nat): nat {
    if seen < keep then keep - seen else 0
  }

  /** Call ids of the results cleared in block `from` and later ones. */
  ghost function BlockIdsFrom(blocks: seq<Block>, p: Block -> bool, newer: nat, keep: nat, from: nat): set<string> {
    set j | from <= j < |blocks| && ClearsBlock(blocks, p, newer, keep, j) :: CallOf(blocks[j])
  }

  lemma BlockIdsStep(blocks: seq<Block>, p: Block -> bool, newer: nat, keep: nat, k: nat)
    requires k < |blocks|
    ensures BlockIdsFrom(blocks, p, newer, keep, k)
         == BlockIdsFrom(blocks, p, newer, keep, k + 1) + if ClearsBlock(blocks, p, newer, keep, k) then {CallOf(blocks[k])} else {}
  {
    hide ClearsBlock, CallOf;
  }

  /** The inner backward loop over one message: `remaining` counts down before clearing starts. */
  method ClearInBlocks(blocks: seq<Block>, p: Block -> bool, ghost newer: nat, ghost keep: nat, left: nat)
    returns (result: seq<Block>, remaining: nat, ids: set<string>)
    requires left == Left(keep, newer)
    ensures result == ClearBlocks(blocks, p, newer, keep)
    ensures remaining == Left(keep, newer + Count(blocks, p))
    ensures ids == BlockIdsFrom(blocks, p, newer, keep, 0)
  {
    hide Clear, CallOf, BlockIdsFrom;
    result, remaining, ids := blocks, left, {};
    assert blocks[|blocks|..] == [];
    NoBlockIds(blocks, p, newer, keep);
    for k := |blocks| downto 0
      invariant |result| == |blocks|
      invariant forall j :: 0 <= j < k ==> result[j] == blocks[j]
      invariant forall j :: k <= j < |blocks| ==> result[j] == if ClearsBlock(blocks, p, newer, keep, j) then Clear(blocks[j]) else blocks[j]
      invariant remaining == Left(keep, newer + Count(blocks[k..], p))
      invariant ids == BlockIdsFrom(blocks, p, newer, keep, k)
    {
      assert blocks[k..][1..] == blocks[k + 1..];
      BlockIdsStep(blocks, p, newer, keep, k);
      if p(result[k]) {
        if remaining > 0 {
          remaining := remaining - 1;
        } else {
          ids := ids + {CallOf(result[k])};
          result := result[k := Clear(result[k])];
        }
      }
    }
    assert blocks[0..] == blocks;
  }

  lemma NoBlockIds(blocks: seq<Block>, p: Block -> bool, newer: nat, keep: nat)
    ensures BlockIdsFrom(blocks, p, newer, keep, |blocks|) == {}
  {
  }

  lemma ClearedIdsStep(ms: seq<Message>, p: Block -> bool, keep: nat, i: nat, more: set<string>)
    requires i < |ms|
    requires more == BlockIdsFrom(BlocksOf(ms[i]), p, CountAll(ms[i + 1..], p), keep, 0)
    ensures ClearedIdsFrom(ms, p, keep, i) == ClearedIdsFrom(ms, p, keep, i + 1) + more
  {
    hide ClearsBlock, CallOf, CountAll, BlocksOf;
    var here, later := ClearedIdsFrom(ms, p, keep, i), ClearedIdsFrom(ms, p, keep, i + 1);
    forall x | x in more ensures x in here {
      var j :| 0 <= j < |BlocksOf(ms[i])| && ClearsBlock(BlocksOf(ms[i]), p, CountAll(ms[i + 1..], p), keep, j) && x == CallOf(BlocksOf(ms[i])[j]);
      assert ClearsAt(ms, p, keep, i, j);
    }
    forall x | x in here ensures x in later + more {
      var k, j :| i <= k < |ms| && 0 <= j < |BlocksOf(ms[k])| && ClearsAt(ms, p, keep, k, j) && x == CallOf(BlocksOf(ms[k])[j]);
      if k == i {
        assert ClearsBlock(BlocksOf(ms[i]), p, CountAll(ms[i + 1..], p), keep, j);
      }
    }
  }

  lemma NoClearedIds(ms: seq<Message>, p: Block -> bool, keep: nat)
    ensures ClearedIdsFrom(ms, p, keep, |ms|) == {}
  {
  }

  /** The outer backward loop over messages. */
  method ClearOldResults(was: seq<Message>, p: Block -> bool, keep: nat) returns (ms: seq<Message>, ids: set<string>)
    ensures ms == ClearResults(was, p, keep)
    ensures ids == ClearedIds(was, p, keep)
  {
    hide ClearBlocks, ClearsBlock, ClearsAt, BlockIdsFrom, ClearedIdsFrom;
    var remaining := keep;
    ms, ids := was, {};
    NoClearedIds(was, p, keep);
    assert was[|was|..] == [];
    for i := |was| downto 0
      invariant |ms| == |was|
      invariant forall k :: 0 <= k < i ==> ms[k] == was[k]
      invariant forall k :: i <= k < |was| ==> ms[k] == ClearMessage(was, p, keep, k)
      invariant remaining == Left(keep, CountAll(was[i..], p))
      invariant ids == ClearedIdsFrom(was, p, keep, i)
    {
      assert was[i..][1..] == was[i + 1..];
      var blocks, more;
      blocks, remaining, more := ClearInBlocks(BlocksOf(ms[i]), p, CountAll(was[i + 1..], p), keep, remaining);
      ms := ms[i := WithBlocks(ms[i], blocks)];
      ClearedIdsStep(was, p, keep, i, more);
      ids := ids + more;
    }
    assert was[0..] == was;
  }

  class Editor {
    var messages: seq<Message>

    constructor (messages: seq<Message>)
      ensures this.messages == messages
    {
      this.messages := messages;
    }

    method ClearThinkingTurns(keep: nat) returns (cleared: nat)
      modifies this
      ensures messages == ClearThinking(old(messages), keep)
      ensures cleared == CountTurns(old(messages)) - Min(CountTurns(old(messages)), keep)
    {
      ghost var was := messages;
      var remaining := keep;
      cleared := 0;
      assert was[|was|..] == [];
      for i := |messages| downto 0
        invariant |messages| == |was|
        invariant forall k :: 0 <= k < i ==> messages[k] == was[k]
        invariant forall k :: i <= k < |was| ==> messages[k] == StripMessage(was, keep, k)
        invariant remaining == Left(keep, CountTurns(was[i..]))
        invariant cleared == CountTurns(was[i..]) - Min(CountTurns(was[i..]), keep)
      {
        assert was[i..][1..] == was[i + 1..];
        if ThinkingTurn(messages[i]) {
          if remaining > 0 {
            remaining := remaining - 1;
          } else {
            messages := messages[i := WithBlocks(messages[i], DropThinking(messages[i].content.blocks))];
            cleared := cleared + 1;
          }
        }
      }
      assert was[0..] == was && messages == StripOldThinking(was, keep);
      messages := DropEmpty(messages);
    }

    method Apply(plan: Plan, tokens: nat, estimate: seq<Message> -> nat) returns (stats: Stats)
      modifies this
      ensures messages == ApplyEdits(old(messages), plan, tokens, estimate)
      ensures stats == ExpectedStats(old(messages), plan, tokens, estimate)
    {
      stats := Stats(0, 0, 0);
      if plan.thinkingKeep.Some? {
        var turns := ClearThinkingTurns(plan.thinkingKeep.value);
        stats := stats.(turns := turns);
      }
      if plan.tools.None? {
        return;
      }
      var tools := plan.tools.value;
      var uses := CountAll(messages, CountablePredicate(messages, tools.exclude));
      if !Activated(tools.trigger, tokens, uses) {
        return;
      }
      var before := messages;
      var ids;
      messages, ids := ClearOldResults(messages, ClearablePredicate(messages, tools.exclude), tools.keep);
      if ids != {} {
        messages := EmptyInputs(messages, ids, tools.inputs);
      } else {
        EmptyingNoInputs(messages, tools.inputs);
      }
      var saved := Saved(estimate(before), estimate(messages));
      if tools.clearAtLeast.Some? && saved < tools.clearAtLeast.value {
        messages := before;
        return;
      }
      NoIdsNothingEmptied(before, tools.inputs);
      if ids != {} {
        stats := stats.(results := |ids|, inputs := CountEmptied(before, ids, tools.inputs));
      }
    }
  }

  function CountEmptied(ms: seq<Message>, ids: set<string>, inputs: InputsPlan): nat {
    CountAll(ms, EmptiedPredicate(ids, inputs))
  }

  function EmptiedPredicate(ids: set<string>, inputs: InputsPlan): Block -> bool {
    (b: Block) => b.ToolUse? && b.id.Some? && b.id.value in ids && Includes(inputs, b.name)
  }

  lemma {:induction false} NoIdsNothingEmptied(ms: seq<Message>, inputs: InputsPlan)
    ensures CountEmptied(ms, {}, inputs) == 0
  {
    NothingCounted(ms, EmptiedPredicate({}, inputs));
  }

  lemma {:induction false} NothingCounted(ms: seq<Message>, p: Block -> bool)
    requires forall b :: !p(b)
    ensures CountAll(ms, p) == 0
  {
    if ms != [] {
      NothingCountedIn(BlocksOf(ms[0]), p);
      NothingCounted(ms[1..], p);
    }
  }

  lemma {:induction false} NothingCountedIn(blocks: seq<Block>, p: Block -> bool)
    requires forall b :: !p(b)
    ensures Count(blocks, p) == 0
  {
    if blocks != [] { NothingCountedIn(blocks[1..], p); }
  }
}
