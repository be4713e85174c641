/**
 What context editing leaves of a conversation, stated on blocks and messages by position
 (crates/kproxy-translate/src/context.rs). Nothing here refers to how the edits are computed.
 */
module ContextContent {
  import opened Wrappers
  import opened Conversation
  import opened ContextEdits

  /** `kept` is what stands in `all` at the positions `at`, in order. */
  ghost predicate Picks<T>(all: seq<T>, kept: seq<T>, at: seq<nat>) {
    && |at| == |kept|
    && (forall i, j :: 0 <= i < j < |at| ==> at[i] < at[j])
    && (forall k :: 0 <= k < |at| ==> at[k] < |all| && kept[k] == all[at[k]])
  }

  /** `kept` is `all` without its thinking blocks. */
  ghost predicate WithoutThinking(all: seq<Block>, kept: seq<Block>) {
    exists at: seq<nat> :: Picks(all, kept, at) && NamesOthers(all, at)
  }

  ghost predicate NamesOthers(all: seq<Block>, at: seq<nat>) {
    forall j: nat :: j < |all| ==> (j in at <==> !all[j].Thinking?)
  }

  function Shift(at: seq<nat>): (r: seq<nat>)
    ensures |r| == |at| && forall k :: 0 <= k < |at| ==> r[k] == at[k] + 1
  {
    seq(|at|, k requires 0 <= k < |at| => at[k] + 1)
  }

  lemma {:induction false} ShiftMembers(at: seq<nat>, j: nat)
    ensures j in Shift(at) <==> j > 0 && j - 1 in at
  {
    if j > 0 && j - 1 in at {
      var k :| 0 <= k < |at| && at[k] == j - 1;
      assert Shift(at)[k] == j;
    }
  }

  lemma {:induction false} PicksLater<T>(all: seq<T>, kept: seq<T>, at: seq<nat>)
    requires all != [] && Picks(all[1..], kept, at)
    ensures Picks(all, kept, Shift(at)) && Picks(all, [all[0]] + kept, [0] + Shift(at))
  {
  }

  lemma {:induction false} DropThinkingStep(blocks: seq<Block>)
    requires blocks != []
    ensures DropThinking(blocks) ==
            if blocks[0].Thinking? then DropThinking(blocks[1..]) else [blocks[0]] + DropThinking(blocks[1..])
  {
    hide HasThinking;
  }

  lemma {:induction false} NamesOthersLater(blocks: seq<Block>, rest: seq<nat>)
    requires blocks != [] && NamesOthers(blocks[1..], rest)
    ensures NamesOthers(blocks, if blocks[0].Thinking? then Shift(rest) else [0] + Shift(rest))
  {
    var at := if blocks[0].Thinking? then Shift(rest) else [0] + Shift(rest);
    forall j: nat | j < |blocks| ensures j in at <==> !blocks[j].Thinking? {
      ShiftMembers(rest, j);
      assert j > 0 ==> blocks[1..][j - 1] == blocks[j];
    }
  }

  lemma {:induction false} DropThinkingPicks(blocks: seq<Block>) returns (at: seq<nat>)
    ensures Picks(blocks, DropThinking(blocks), at) && NamesOthers(blocks, at)
  {
    if blocks == [] {
      at := [];
    } else {
      hide Picks, NamesOthers, DropThinking, HasThinking;
      var rest := DropThinkingPicks(blocks[1..]);
      DropThinkingStep(blocks);
      PicksLater(blocks, DropThinking(blocks[1..]), rest);
      NamesOthersLater(blocks, rest);
      at := if blocks[0].Thinking? then Shift(rest) else [0] + Shift(rest);
    }
  }

  lemma {:induction false} ThinkingDropped(blocks: seq<Block>)
    ensures WithoutThinking(blocks, DropThinking(blocks))
  {
    var at := DropThinkingPicks(blocks);
  }

  // ---------------------------------------------------------------- the thinking edit, message by message

  /** At least `keep` newer turns think. */
  predicate IsOld(ms: seq<Message>, keep: nat, i: nat)
    requires i < |ms|
  {
    CountTurns(ms[i + 1..]) >= keep
  }

  /** `now` is message `was`, without its thinking blocks if it is an old assistant turn. */
  ghost predicate IsEdited(was: Message, now: Message, stale: bool) {
    && now.role == was.role && now.effort == was.effort && now.rest == was.rest
    && (if was.role == Assistant && was.content.Blocks? && stale
        then now.content.Blocks? && WithoutThinking(was.content.blocks, now.content.blocks)
        else now.content == was.content)
  }

  /** An assistant message that has no blocks, or only thinking blocks and is old. */
  predicate Vanishes(ms: seq<Message>, keep: nat, i: nat)
    requires i < |ms|
  {
    && ms[i].role == Assistant && ms[i].content.Blocks?
    && (forall j :: 0 <= j < |ms[i].content.blocks| ==> ms[i].content.blocks[j].Thinking?)
    && (ms[i].content.blocks == [] || IsOld(ms, keep, i))
  }

  lemma {:induction false} AllKept(blocks: seq<Block>)
    requires !HasThinking(blocks)
    ensures WithoutThinking(blocks, blocks)
  {
    ThinkingDropped(blocks);
  }

  lemma {:induction false} NothingKept(blocks: seq<Block>, kept: seq<Block>)
    requires WithoutThinking(blocks, kept)
    ensures kept == [] <==> forall j :: 0 <= j < |blocks| ==> blocks[j].Thinking?
  {
    var at: seq<nat> :| Picks(blocks, kept, at) && NamesOthers(blocks, at);
    if kept != [] {
      assert at[0] in at && !blocks[at[0]].Thinking?;
    }
  }

  lemma {:induction false} StrippedMessage(ms: seq<Message>, keep: nat, i: nat)
    requires i < |ms|
    ensures IsEdited(ms[i], StripMessage(ms, keep, i), IsOld(ms, keep, i))
    ensures EmptyAssistant(StripMessage(ms, keep, i)) <==> Vanishes(ms, keep, i)
  {
    hide WithoutThinking, DropThinking;
    var m := ms[i];
    if m.role == Assistant && m.content.Blocks? {
      ThinkingDropped(m.content.blocks);
      NothingKept(m.content.blocks, DropThinking(m.content.blocks));
      if !HasThinking(m.content.blocks) { AllKept(m.content.blocks); }
      forall j | 0 <= j < |m.content.blocks| ensures m.content.blocks[j] in m.content.blocks {}
    }
  }

  lemma {:induction false} DropEmptyPicks(ms: seq<Message>) returns (at: seq<nat>)
    ensures Picks(ms, DropEmpty(ms), at)
    ensures forall i: nat :: i < |ms| ==> (i in at <==> !EmptyAssistant(ms[i]))
  {
    if ms == [] {
      at := [];
    } else {
      var rest := DropEmptyPicks(ms[1..]);
      PicksLater(ms, DropEmpty(ms[1..]), rest);
      at := if EmptyAssistant(ms[0]) then Shift(rest) else [0] + Shift(rest);
      forall i: nat | i < |ms| ensures i in at <==> !EmptyAssistant(ms[i]) {
        ShiftMembers(rest, i);
        assert i > 0 ==> ms[1..][i - 1] == ms[i];
      }
    }
  }

  /**
   The thinking edit by position: exactly the messages that do not vanish remain, in their order, each
   with all its fields, and old assistant turns with exactly their blocks that are not thinking.
   */
  lemma {:induction false} ThinkingEditByPosition(ms: seq<Message>, keep: nat) returns (at: seq<nat>)
    ensures var after := ClearThinking(ms, keep);
            && |at| == |after| && (forall i, j :: 0 <= i < j < |at| ==> at[i] < at[j])
            && (forall k :: 0 <= k < |at| ==> at[k] < |ms| && IsEdited(ms[at[k]], after[k], IsOld(ms, keep, at[k])))
            && (forall i: nat :: i < |ms| ==> (i in at <==> !Vanishes(ms, keep, i)))
  {
    hide IsEdited, IsOld, Vanishes, StripMessage, EmptyAssistant;
    var stripped := StripOldThinking(ms, keep);
    at := DropEmptyPicks(stripped);
    forall i: nat | i < |ms|
      ensures stripped[i] == StripMessage(ms, keep, i) && IsEdited(ms[i], stripped[i], IsOld(ms, keep, i))
      ensures EmptyAssistant(stripped[i]) <==> Vanishes(ms, keep, i)
    {
      StrippedMessage(ms, keep, i);
    }
  }

  // ---------------------------------------------------------------- what is said

  /** A message text or one block that is not thinking, with the fields of its message. */
  datatype Voice =
    | Whole(role: Role, effort: Option<string>, rest: string, text: string)
    | Piece(role: Role, effort: Option<string>, rest: string, block: Block)

  function BlockVoices(m: Message, blocks: seq<Block>): seq<Voice> {
    if blocks == [] then []
    else (if blocks[0].Thinking? then [] else [Piece(m.role, m.effort, m.rest, blocks[0])]) + BlockVoices(m, blocks[1..])
  }

  function MessageVoices(m: Message): seq<Voice> {
    if m.content.Plain? then [Whole(m.role, m.effort, m.rest, m.content.text)] else BlockVoices(m, m.content.blocks)
  }

  function Voices(ms: seq<Message>): seq<Voice> {
    if ms == [] then [] else MessageVoices(ms[0]) + Voices(ms[1..])
  }

  lemma {:induction false} DropThinkingVoices(m: Message, n: Message, blocks: seq<Block>)
    requires m.role == n.role && m.effort == n.effort && m.rest == n.rest
    ensures BlockVoices(n, DropThinking(blocks)) == BlockVoices(m, blocks)
    ensures CallIds(DropThinking(blocks)) == CallIds(blocks)
  {
    hide DropThinking, HasThinking;
    if blocks != [] {
      DropThinkingVoices(m, n, blocks[1..]);
      DropThinkingStep(blocks);
      assert !blocks[0].Thinking? ==> DropThinking(blocks)[1..] == DropThinking(blocks[1..]);
    } else {
      NothingToThink();
    }
  }

  lemma {:induction false} NothingToThink()
    ensures DropThinking([]) == []
  {
  }

  lemma {:induction false} StripVoices(ms: seq<Message>, keep: nat)
    ensures Voices(StripOldThinking(ms, keep)) == Voices(ms)
    ensures AllCallIds(StripOldThinking(ms, keep)) == AllCallIds(ms)
  {
    if ms != [] {
      StripTail(ms, keep);
      StripVoices(ms[1..], keep);
      var m, n := ms[0], StripMessage(ms, keep, 0);
      assert StripOldThinking(ms, keep)[1..] == StripOldThinking(ms[1..], keep);
      if n != m { DropThinkingVoices(m, n, m.content.blocks); }
    }
  }

  lemma {:induction false} DropEmptyVoices(ms: seq<Message>)
    ensures Voices(DropEmpty(ms)) == Voices(ms) && AllCallIds(DropEmpty(ms)) == AllCallIds(ms)
  {
    if ms != [] {
      DropEmptyVoices(ms[1..]);
      if EmptyAssistant(ms[0]) {
        assert DropEmpty(ms) == DropEmpty(ms[1..]);
      } else {
        assert DropEmpty(ms)[1..] == DropEmpty(ms[1..]);
      }
    }
  }

  /** The thinking edit removes thinking and nothing else. */
  lemma {:induction false} ThinkingEditKeepsVoices(ms: seq<Message>, keep: nat)
    ensures Voices(ClearThinking(ms, keep)) == Voices(ms)
    ensures AllCallIds(ClearThinking(ms, keep)) == AllCallIds(ms)
  {
    StripVoices(ms, keep);
    DropEmptyVoices(StripOldThinking(ms, keep));
  }

  /** The same voice up to the output of a tool result and the input of a tool call. */
  predicate SameVoice(a: Voice, b: Voice) {
    match (a, b)
    case (Piece(role, effort, rest, block), Piece(role', effort', rest', block')) =>
      role == role' && effort == effort' && rest == rest' && SimilarBlock(block, block')
    case _ => a == b
  }

  predicate SameVoices(a: seq<Voice>, b: seq<Voice>) {
    |a| == |b| && forall i :: 0 <= i < |a| ==> SameVoice(a[i], b[i])
  }

  lemma {:induction false} SimilarBlockVoices(m: Message, n: Message, a: seq<Block>, b: seq<Block>)
    requires m.role == n.role && m.effort == n.effort && m.rest == n.rest && SimilarBlocks(a, b)
    ensures SameVoices(BlockVoices(m, a), BlockVoices(n, b))
  {
    if a != [] {
      assert SimilarBlock(a[0], b[0]);
      SimilarBlockVoices(m, n, a[1..], b[1..]);
    }
  }

  lemma {:induction false} SimilarVoices(a: seq<Message>, b: seq<Message>)
    requires Similar(a, b)
    ensures SameVoices(Voices(a), Voices(b))
  {
    if a != [] {
      assert SimilarMessage(a[0], b[0]);
      if a[0].content.Blocks? { SimilarBlockVoices(a[0], b[0], a[0].content.blocks, b[0].content.blocks); }
      SimilarVoices(a[1..], b[1..]);
    }
  }

  /**
   Both edits together: every text and every block that is not thinking stays, in order and under its
   message's fields, and only outputs of tool results and inputs of tool calls may differ.
   */
  lemma {:induction false} EditsKeepVoices(ms: seq<Message>, plan: Plan, tokens: nat, estimate: seq<Message> -> nat)
    ensures SameVoices(Voices(ms), Voices(ApplyEdits(ms, plan, tokens, estimate)))
    ensures AllCallIds(ApplyEdits(ms, plan, tokens, estimate)) == AllCallIds(ms)
  {
    hide Voices, AllCallIds, EditTools, Similar;
    var thought := if plan.thinkingKeep.Some? then ClearThinking(ms, plan.thinkingKeep.value) else ms;
    if plan.thinkingKeep.Some? { ThinkingEditKeepsVoices(ms, plan.thinkingKeep.value); }
    if plan.tools.Some? {
      EditToolsKeepsPairing(thought, plan.tools.value, tokens, estimate);
      SimilarVoices(thought, EditTools(thought, plan.tools.value, tokens, estimate));
    }
  }

  // ---------------------------------------------------------------- which results can be cleared

  /** All blocks of a conversation in order. */
  function AllBlocks(ms: seq<Message>): seq<Block> {
    if ms == [] then [] else BlocksOf(ms[0]) + AllBlocks(ms[1..])
  }

  predicate Names(b: Block, id: string) {
    b.ToolUse? && b.id == Some(id) && b.name.Some?
  }

  /** The last call that gives `id` a name. */
  predicate LastNaming(blocks: seq<Block>, id: string, k: nat) {
    k < |blocks| && Names(blocks[k], id) && forall l :: k < l < |blocks| ==> !Names(blocks[l], id)
  }

  lemma {:induction false} BlockNamesAppend(a: seq<Block>, b: seq<Block>, acc: map<string, string>)
    ensures BlockNames(a + b, acc) == BlockNames(b, BlockNames(a, acc))
    decreases |a|
  {
    if a == [] {
      assert a + b == b;
    } else {
      assert (a + b)[0] == a[0] && (a + b)[1..] == a[1..] + b;
      var x := a[0];
      BlockNamesAppend(a[1..], b, if x.ToolUse? && x.id.Some? && x.name.Some? then acc[x.id.value := x.name.value] else acc);
    }
  }

  lemma {:induction false} ToolNamesFlat(ms: seq<Message>, acc: map<string, string>)
    ensures ToolNames(ms, acc) == BlockNames(AllBlocks(ms), acc)
  {
    if ms != [] {
      ToolNamesFlat(ms[1..], BlockNames(BlocksOf(ms[0]), acc));
      BlockNamesAppend(BlocksOf(ms[0]), AllBlocks(ms[1..]), acc);
    }
  }

  /** A call id has the name that its last naming call gives it. */
  lemma {:induction false} NamedByLast(blocks: seq<Block>, id: string, k: nat)
    requires LastNaming(blocks, id, k)
    ensures id in BlockNames(blocks, map[]) && BlockNames(blocks, map[])[id] == blocks[k].name.value
  {
    var last := |blocks| - 1;
    assert blocks == blocks[..last] + [blocks[last]];
    BlockNamesAppend(blocks[..last], [blocks[last]], map[]);
    LastBlockName(blocks[last], BlockNames(blocks[..last], map[]));
    if k < last { NamedByLast(blocks[..last], id, k); }
  }

  lemma {:induction false} LastBlockName(b: Block, acc: map<string, string>)
    ensures BlockNames([b], acc) == if b.ToolUse? && b.id.Some? && b.name.Some? then acc[b.id.value := b.name.value] else acc
  {
    assert [b][1..] == [];
  }

  lemma {:induction false} NamedBySome(blocks: seq<Block>, id: string) returns (k: nat)
    requires id in BlockNames(blocks, map[])
    ensures LastNaming(blocks, id, k)
  {
    var last := |blocks| - 1;
    assert blocks == blocks[..last] + [blocks[last]];
    BlockNamesAppend(blocks[..last], [blocks[last]], map[]);
    LastBlockName(blocks[last], BlockNames(blocks[..last], map[]));
    if Names(blocks[last], id) {
      k := last;
    } else {
      k := NamedBySome(blocks[..last], id);
    }
  }

  /** The call was last named after an excluded tool. */
  ghost predicate CallsExcluded(ms: seq<Message>, exclude: set<string>, id: string) {
    exists k: nat :: LastNaming(AllBlocks(ms), id, k) && AllBlocks(ms)[k].name.value in exclude
  }

  /** A tool result can be cleared exactly when it names a call, is not the marker yet, and its tool is not excluded. */
  lemma {:induction false} ClearableExactly(ms: seq<Message>, exclude: set<string>, b: Block)
    ensures ClearablePredicate(ms, exclude)(b) <==>
            && b.ToolResult? && b.toolUseId.Some?
            && b.output != Text("[Older tool result omitted by Claude context management.]")
            && !CallsExcluded(ms, exclude, b.toolUseId.value)
  {
    hide BlockNames, ToolNames;
    ToolNamesFlat(ms, map[]);
    if b.ToolResult? && b.toolUseId.Some? {
      var id, all := b.toolUseId.value, AllBlocks(ms);
      if k: nat :| LastNaming(all, id, k) && all[k].name.value in exclude { NamedByLast(all, id, k); }
      if id in BlockNames(all, map[]) {
        var k := NamedBySome(all, id);
        NamedByLast(all, id, k);
      }
    }
  }

  /** The trigger counts the same results, and those without a call id. */
  lemma {:induction false} CountableExactly(ms: seq<Message>, exclude: set<string>, b: Block)
    ensures CountablePredicate(ms, exclude)(b) <==>
            ClearablePredicate(ms, exclude)(b)
            || (b.ToolResult? && b.toolUseId.None? && b.output != Text("[Older tool result omitted by Claude context management.]"))
  {
    hide ToolNames;
  }

  /** As many clearable results as are to be kept, or more, are newer than the one at message `i`, block `j`. */
  predicate IsOutdated(ms: seq<Message>, p: Block -> bool, keep: nat, i: nat, j: nat)
    requires i < |ms| && j < |BlocksOf(ms[i])|
  {
    keep <= Count(BlocksOf(ms[i])[j + 1..], p) + CountAll(ms[i + 1..], p)
  }

  /** A result of call `id` is clearable and outdated. */
  ghost predicate LosesResult(ms: seq<Message>, p: Block -> bool, keep: nat, id: string) {
    exists i: nat, j: nat :: LosesResultAt(ms, p, keep, id, i, j)
  }

  ghost predicate LosesResultAt(ms: seq<Message>, p: Block -> bool, keep: nat, id: string, i: nat, j: nat) {
    && i < |ms| && j < |BlocksOf(ms[i])|
    && var b := BlocksOf(ms[i])[j]; b.ToolResult? && b.toolUseId == Some(id) && p(b) && IsOutdated(ms, p, keep, i, j)
  }

  lemma {:induction false} ClearedIdsExactly(ms: seq<Message>, exclude: set<string>, keep: nat, id: string)
    ensures var p := ClearablePredicate(ms, exclude); id in ClearedIds(ms, p, keep) <==> LosesResult(ms, p, keep, id)
  {
    hide Count, CountAll, ToolNames;
    var p := ClearablePredicate(ms, exclude);
    if id in ClearedIds(ms, p, keep) {
      var i: nat, j: nat :| 0 <= i < |ms| && 0 <= j < |BlocksOf(ms[i])| && ClearsAt(ms, p, keep, i, j) && CallOf(BlocksOf(ms[i])[j]) == id;
      assert LosesResultAt(ms, p, keep, id, i, j);
    }
    if i: nat, j: nat :| LosesResultAt(ms, p, keep, id, i, j) {
      assert ClearsAt(ms, p, keep, i, j) && CallOf(BlocksOf(ms[i])[j]) == id;
    }
  }

  /**
   A committed tool edit by position: outdated clearable results become the marker; a call that lost a
   result has its input emptied if inputs are to be cleared, all of them or those of its tool; every
   other block is the same.
   */
  lemma {:induction false} ToolEditByPosition(ms: seq<Message>, plan: ToolPlan, i: nat, j: nat)
    requires i < |ms| && j < |BlocksOf(ms[i])|
    ensures var p, after, b := ClearablePredicate(ms, plan.exclude), ClearedTools(ms, plan), BlocksOf(ms[i])[j];
            && |after| == |ms| && |BlocksOf(after[i])| == |BlocksOf(ms[i])|
            && var now := BlocksOf(after[i])[j];
               match b
               case ToolResult(id, output, rest) =>
                 now == (if p(b) && IsOutdated(ms, p, plan.keep, i, j)
                         then ToolResult(id, Text("[Older tool result omitted by Claude context management.]"), rest) else b)
               case ToolUse(id, name, input, rest) =>
                 now == (if id != None && LosesResult(ms, p, plan.keep, id.value)
                            && (plan.inputs == AllInputs || (plan.inputs.Selected? && name != None && name.value in plan.inputs.names))
                         then ToolUse(id, name, "{}", rest) else b)
               case _ => now == b
  {
    hide Count, CountAll, ToolNames, LosesResult, ClearedIdsFrom;
    ClearedToolsAt(ms, plan, i, j);
    var b := BlocksOf(ms[i])[j];
    if b.ToolUse? && b.id.Some? { ClearedIdsExactly(ms, plan.exclude, plan.keep, b.id.value); }
  }

  /** The tool edit goes through exactly when its trigger is reached and it saves as much as asked for. */
  lemma {:induction false} ToolEditDecides(ms: seq<Message>, plan: ToolPlan, tokens: nat, estimate: seq<Message> -> nat)
    ensures var cleared := ClearedTools(ms, plan);
            var uses := CountAll(ms, CountablePredicate(ms, plan.exclude));
            EditTools(ms, plan, tokens, estimate) ==
            if (match plan.trigger case InputTokens(n) => n <= tokens case ToolUses(n) => n <= uses)
               && (plan.clearAtLeast == None || plan.clearAtLeast.value == 0
                   || estimate(cleared) + plan.clearAtLeast.value <= estimate(ms))
            then cleared else ms
  {
  }
}
