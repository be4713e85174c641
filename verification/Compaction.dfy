/**
 Model of `normalize_compaction_boundary` (crates/kproxy-translate/src/context.rs): history before
 the last completed assistant compaction is discarded, failed compactions are removed, and the
 effort that system messages had set is carried over the cut.
 */
module Compaction {
  import opened Wrappers
  import opened Conversation

  datatype Request = Request(messages: seq<Message>, effort: Option<string>)

  predicate Completed(b: Block) {
    b.Compaction? && b.summary.Text? && b.summary.text != ""
  }

  predicate NoOp(b: Block) {
    b.Compaction? && (b.summary.Missing? || b.summary.Null?)
  }

  // ---------------------------------------------------------------- the boundary

  predicate NoneCompleted(blocks: seq<Block>) {
    forall j :: 0 <= j < |blocks| ==> !Completed(blocks[j])
  }

  predicate NoneCompletedAfter(blocks: seq<Block>, j: nat) {
    forall k :: j < k < |blocks| ==> !Completed(blocks[k])
  }

  predicate Compacts(m: Message) {
    m.role == Assistant && !NoneCompleted(BlocksOf(m))
  }

  /** Message `i`, block `j` holds the last completed assistant compaction. */
  predicate IsBoundary(ms: seq<Message>, i: nat, j: nat) {
    && i < |ms| && j < |BlocksOf(ms[i])|
    && ms[i].role == Assistant
    && Completed(BlocksOf(ms[i])[j])
    && NoneCompletedAfter(BlocksOf(ms[i]), j)
    && forall k :: i < k < |ms| ==> !Compacts(ms[k])
  }

  function LastCompleted(blocks: seq<Block>): (r: Option<nat>)
    ensures r.None? ==> NoneCompleted(blocks)
    ensures r.Some? ==> r.value < |blocks| && Completed(blocks[r.value]) && NoneCompletedAfter(blocks, r.value)
  {
    if blocks == [] then None
    else if Completed(blocks[|blocks| - 1]) then Some(|blocks| - 1)
    else LastCompleted(blocks[..|blocks| - 1])
  }

  function Boundary(ms: seq<Message>): (r: Option<(nat, nat)>)
    ensures r.None? ==> forall i :: 0 <= i < |ms| ==> !Compacts(ms[i])
    ensures r.Some? ==> IsBoundary(ms, r.value.0, r.value.1)
  {
    if ms == [] then None
    else
      var n := |ms| - 1;
      var last := if ms[n].role == Assistant then LastCompleted(BlocksOf(ms[n])) else None;
      if last.Some? then Some((n, last.value)) else Boundary(ms[..n])
  }

  lemma BoundaryUnique(ms: seq<Message>, i: nat, j: nat)
    requires IsBoundary(ms, i, j)
    ensures Boundary(ms) == Some((i, j))
  {
    assert Compacts(ms[i]);
    var (i', j') := Boundary(ms).value;
    assert Compacts(ms[i']);
    assert i == i';
  }

  // ---------------------------------------------------------------- effort

  /** The effort the latest system message set, if any did. */
  function LatestEffort(ms: seq<Message>): Option<string> {
    if ms == [] then None
    else
      var last := ms[|ms| - 1];
      if last.role == System && last.effort.Some? then last.effort else LatestEffort(ms[..|ms| - 1])
  }

  function Default(first: Option<string>, second: Option<string>): Option<string> {
    if first.Some? then first else second
  }

  /** The effort in force at message `i`. */
  function EffortAt(r: Request, i: nat): Option<string>
    requires i < |r.messages|
  {
    Default(LatestEffort(r.messages[..i + 1]), r.effort)
  }

  lemma {:induction false} LatestEffortSplit(a: seq<Message>, b: seq<Message>)
    ensures LatestEffort(a + b) == Default(LatestEffort(b), LatestEffort(a))
  {
    if b == [] {
      assert a + b == a;
    } else {
      assert (a + b)[..|a + b| - 1] == a + b[..|b| - 1];
      LatestEffortSplit(a, b[..|b| - 1]);
    }
  }

  // ---------------------------------------------------------------- the transformation

  function Cut(r: Request, i: nat, j: nat): Request
    requires i < |r.messages| && j <= |BlocksOf(r.messages[i])|
  {
    Request([WithBlocks(r.messages[i], BlocksOf(r.messages[i])[j..])] + r.messages[i + 1..],
            Default(LatestEffort(r.messages[..i]), r.effort))
  }

  function DropNoOps(blocks: seq<Block>): seq<Block> {
    if blocks == [] then [] else (if NoOp(blocks[0]) then [] else [blocks[0]]) + DropNoOps(blocks[1..])
  }

  lemma {:induction false} DropNoOpsMembers(blocks: seq<Block>, b: Block)
    requires b in DropNoOps(blocks)
    ensures b in blocks && !NoOp(b)
  {
    if NoOp(blocks[0]) || b != blocks[0] { DropNoOpsMembers(blocks[1..], b); }
  }

  predicate Scanned(m: Message) {
    m.role == Assistant && m.content.Blocks?
  }

  function CleanBlocks(m: Message): seq<Block> {
    if Scanned(m) then DropNoOps(BlocksOf(m)) else BlocksOf(m)
  }

  /** The message survives: it had no blocks to begin with, or keeps one. */
  predicate Survives(m: Message) {
    Scanned(m) ==> BlocksOf(m) == [] || CleanBlocks(m) != []
  }

  function CleanMessage(m: Message): seq<Message> {
    if Survives(m) then [WithBlocks(m, CleanBlocks(m))] else []
  }

  function Clean(ms: seq<Message>): seq<Message> {
    if ms == [] then [] else CleanMessage(ms[0]) + Clean(ms[1..])
  }

  function CutAtBoundary(r: Request): Request {
    if Boundary(r.messages).None? then r else Cut(r, Boundary(r.messages).value.0, Boundary(r.messages).value.1)
  }

  function Normalize(r: Request): Request {
    var cut := CutAtBoundary(r);
    cut.(messages := Clean(cut.messages))
  }

  // ---------------------------------------------------------------- idempotence

  predicate IsClean(m: Message) {
    Scanned(m) ==> forall b :: b in BlocksOf(m) ==> !NoOp(b)
  }

  lemma {:induction false} NothingToDrop(blocks: seq<Block>)
    requires forall b :: b in blocks ==> !NoOp(b)
    ensures DropNoOps(blocks) == blocks
  {
    if blocks != [] { NothingToDrop(blocks[1..]); }
  }

  lemma {:induction false} CleanIsClean(ms: seq<Message>)
    ensures forall m :: m in Clean(ms) ==> IsClean(m)
  {
    if ms != [] {
      CleanIsClean(ms[1..]);
      forall b | b in DropNoOps(BlocksOf(ms[0])) ensures !NoOp(b) {
        DropNoOpsMembers(BlocksOf(ms[0]), b);
      }
    }
  }

  lemma {:induction false} CleanUnchanged(ms: seq<Message>)
    requires forall m :: m in ms ==> IsClean(m)
    ensures Clean(ms) == ms
  {
    if ms != [] {
      assert IsClean(ms[0]);
      if Scanned(ms[0]) { NothingToDrop(BlocksOf(ms[0])); }
      CleanUnchanged(ms[1..]);
    }
  }

  lemma {:induction false} CleanAddsNoCompaction(ms: seq<Message>)
    requires forall i :: 0 <= i < |ms| ==> !Compacts(ms[i])
    ensures forall i :: 0 <= i < |Clean(ms)| ==> !Compacts(Clean(ms)[i])
  {
    if ms != [] {
      CleanAddsNoCompaction(ms[1..]);
      CleanNotCompacting(ms[0]);
    }
  }

  lemma CleanNotCompacting(m: Message)
    requires !Compacts(m)
    ensures forall x :: x in CleanMessage(m) ==> !Compacts(x)
  {
    forall j | 0 <= j < |CleanBlocks(m)| && m.role == Assistant ensures !Completed(CleanBlocks(m)[j]) {
      if Scanned(m) { DropNoOpsMembers(BlocksOf(m), CleanBlocks(m)[j]); }
    }
  }

  /** After a cut the boundary is the very first block, and cleaning leaves it there. */
  lemma {:induction false} BoundaryComesFirst(r: Request)
    requires Boundary(r.messages).Some?
    ensures IsBoundary(Normalize(r).messages, 0, 0)
  {
    var (i, j) := Boundary(r.messages).value;
    var cut := Cut(r, i, j).messages;
    var head, tail := cut[0], cut[1..];
    var blocks := BlocksOf(r.messages[i])[j..];
    assert BlocksOf(head) == blocks && blocks[0] == BlocksOf(r.messages[i])[j];
    var kept := DropNoOps(blocks[1..]);
    assert CleanBlocks(head) == [blocks[0]] + kept;
    forall k | 0 <= k < |kept| ensures !Completed(kept[k]) {
      DropNoOpsMembers(blocks[1..], kept[k]);
      var x :| 0 <= x < |blocks[1..]| && blocks[1..][x] == kept[k];
      assert kept[k] == BlocksOf(r.messages[i])[j + 1 + x];
    }
    forall k | 0 <= k < |tail| ensures !Compacts(tail[k]) {
      assert tail[k] == r.messages[i + 1 + k];
    }
    CleanAddsNoCompaction(tail);
    assert Clean(cut) == [WithBlocks(head, CleanBlocks(head))] + Clean(tail);
  }

  /** Normalising twice is normalising once. */
  lemma {:induction false} NormalizeIdempotent(r: Request)
    ensures Normalize(Normalize(r)) == Normalize(r)
  {
    hide Clean, IsBoundary, Compacts, Boundary, IsClean, LatestEffort;
    var once := Normalize(r);
    CleanIsClean(CutAtBoundary(r).messages);
    CleanUnchanged(once.messages);
    if Boundary(r.messages).Some? {
      BoundaryComesFirst(r);
      BoundaryUnique(once.messages, 0, 0);
      CutAtFront(once);
    } else {
      CleanAddsNoBoundary(r.messages);
    }
  }

  lemma CutAtFront(r: Request)
    requires r.messages != []
    ensures Cut(r, 0, 0) == r
  {
    var m := r.messages[0];
    assert BlocksOf(m)[0..] == BlocksOf(m);
    assert WithBlocks(m, BlocksOf(m)) == m;
    assert r.messages[..0] == [];
  }

  lemma CleanAddsNoBoundary(ms: seq<Message>)
    requires Boundary(ms).None?
    ensures Boundary(Clean(ms)).None?
  {
    CleanAddsNoCompaction(ms);
  }

  // ---------------------------------------------------------------- meaning

  /** One unit of conversation with the effort in force where it stands. */
  datatype Item = Item(role: Role, piece: Piece, effort: Option<string>)

  datatype Piece = Whole(text: string) | Part(block: Block)

  function BlockItems(role: Role, blocks: seq<Block>, effort: Option<string>): seq<Item> {
    seq(|blocks|, j requires 0 <= j < |blocks| => Item(role, Part(blocks[j]), effort))
  }

  function MessageItems(m: Message, effort: Option<string>): seq<Item> {
    if m.content.Plain? then [Item(m.role, Whole(m.content.text), effort)]
    else BlockItems(m.role, m.content.blocks, effort)
  }

  /** The conversation as the model reads it, starting from effort `current`. */
  function Items(ms: seq<Message>, current: Option<string>): seq<Item> {
    if ms == [] then []
    else
      var effort := NextEffort(ms[0], current);
      MessageItems(ms[0], effort) + Items(ms[1..], effort)
  }

  predicate FailedCompaction(x: Item) {
    && x.role == Assistant && x.piece.Part? && x.piece.block.Compaction?
    && (x.piece.block.summary == Missing || x.piece.block.summary == Null)
  }

  predicate CompletedCompaction(x: Item) {
    && x.role == Assistant && x.piece.Part? && x.piece.block.Compaction?
    && x.piece.block.summary.Text? && |x.piece.block.summary.text| > 0
  }

  function WithoutFailed(items: seq<Item>): seq<Item> {
    if items == [] then [] else (if FailedCompaction(items[0]) then [] else [items[0]]) + WithoutFailed(items[1..])
  }

  /** The items from the last completed compaction on; if there is none, all of them. */
  function FromLastCompaction(items: seq<Item>): seq<Item> {
    if exists i :: 1 <= i < |items| && CompletedCompaction(items[i]) then FromLastCompaction(items[1..])
    else items
  }

  lemma {:induction false} ItemsSplit(a: seq<Message>, b: seq<Message>, current: Option<string>)
    ensures Items(a + b, current) == Items(a, current) + Items(b, Default(LatestEffort(a), current))
    decreases |a|
  {
    hide MessageItems, LatestEffort;
    if a == [] {
      assert a + b == b;
      NoMessagesNoEffort();
    } else {
      var effort := NextEffort(a[0], current);
      assert (a + b)[1..] == a[1..] + b && (a + b)[0] == a[0];
      ItemsSplit(a[1..], b, effort);
      FirstEffort(a, current);
      var first := MessageItems(a[0], effort);
      var later := Items(b, Default(LatestEffort(a[1..]), effort));
      assert first + (Items(a[1..], effort) + later) == first + Items(a[1..], effort) + later;
    }
  }

  lemma NoMessagesNoEffort()
    ensures LatestEffort([]) == None
  {
  }

  lemma {:induction false} FirstEffort(ms: seq<Message>, current: Option<string>)
    requires ms != []
    ensures Default(LatestEffort(ms), current) == Default(LatestEffort(ms[1..]), NextEffort(ms[0], current))
  {
    LatestEffortSplit([ms[0]], ms[1..]);
    assert [ms[0]] + ms[1..] == ms && [ms[0]][..0] == [];
    assert Default(LatestEffort([ms[0]]), current) == NextEffort(ms[0], current);
  }

  lemma {:induction false} WithoutFailedSplit(a: seq<Item>, b: seq<Item>)
    ensures WithoutFailed(a + b) == WithoutFailed(a) + WithoutFailed(b)
  {
    if a == [] {
      assert a + b == b;
    } else {
      assert (a + b)[1..] == a[1..] + b;
      WithoutFailedSplit(a[1..], b);
    }
  }

  lemma {:induction false} DropNoOpsItems(role: Role, blocks: seq<Block>, effort: Option<string>)
    requires role == Assistant
    ensures WithoutFailed(BlockItems(role, blocks, effort)) == BlockItems(role, DropNoOps(blocks), effort)
  {
    if blocks != [] {
      DropNoOpsItems(role, blocks[1..], effort);
      assert BlockItems(role, blocks, effort)[1..] == BlockItems(role, blocks[1..], effort);
    }
  }

  lemma {:induction false} KeptWhole(items: seq<Item>)
    requires forall i :: 0 <= i < |items| ==> !FailedCompaction(items[i])
    ensures WithoutFailed(items) == items
  {
    if items != [] { KeptWhole(items[1..]); }
  }

  lemma {:induction false} CleanMessageItems(m: Message, effort: Option<string>)
    ensures WithoutFailed(MessageItems(m, effort)) == if Survives(m) then MessageItems(CleanMessage(m)[0], effort) else []
  {
    if Scanned(m) {
      DropNoOpsItems(m.role, BlocksOf(m), effort);
    } else {
      KeptWhole(MessageItems(m, effort));
      assert WithBlocks(m, BlocksOf(m)) == m;
    }
  }

  function NextEffort(m: Message, current: Option<string>): Option<string> {
    if m.role == System && m.effort.Some? then m.effort else current
  }

  /** Cleaning removes exactly the failed compactions from what the model reads. */
  lemma {:induction false} CleanItems(ms: seq<Message>, current: Option<string>)
    ensures Items(Clean(ms), current) == WithoutFailed(Items(ms, current))
  {
    if ms != [] {
      var m, effort := ms[0], NextEffort(ms[0], current);
      CleanItems(ms[1..], effort);
      WithoutFailedSplit(MessageItems(m, effort), Items(ms[1..], effort));
      CleanMessageItems(m, effort);
      if Survives(m) {
        assert Clean(ms)[0] == CleanMessage(m)[0] && Clean(ms)[1..] == Clean(ms[1..]);
        assert NextEffort(Clean(ms)[0], current) == effort;
      } else {
        assert Clean(ms) == Clean(ms[1..]);
      }
    }
  }

  lemma {:induction false} CutAtLast(before: seq<Item>, after: seq<Item>)
    requires after != [] && CompletedCompaction(after[0])
    requires forall i :: 1 <= i < |after| ==> !CompletedCompaction(after[i])
    ensures FromLastCompaction(before + after) == after
  {
    if before == [] {
      assert before + after == after;
    } else {
      assert CompletedCompaction((before + after)[|before|]);
      assert (before + after)[1..] == before[1..] + after;
      CutAtLast(before[1..], after);
    }
  }

  lemma {:induction false} NoCompactionNoCut(ms: seq<Message>, current: Option<string>)
    requires forall i :: 0 <= i < |ms| ==> !Compacts(ms[i])
    ensures forall i :: 0 <= i < |Items(ms, current)| ==> !CompletedCompaction(Items(ms, current)[i])
  {
    if ms != [] {
      var effort := NextEffort(ms[0], current);
      NoCompactionNoCut(ms[1..], effort);
      assert !Compacts(ms[0]);
    }
  }

  /**
   Compaction preserves meaning: the model reads, at unchanged effort, exactly the items from the
   last completed assistant compaction onward, without failed compactions.
   */
  lemma {:induction false} NormalizePreservesMeaning(r: Request)
    ensures Items(Normalize(r).messages, Normalize(r).effort) == WithoutFailed(FromLastCompaction(Items(r.messages, r.effort)))
  {
    if Boundary(r.messages).None? {
      CleanItems(r.messages, r.effort);
      NoCompactionNoCut(r.messages, r.effort);
    } else {
      var (i, j) := Boundary(r.messages).value;
      var cut := Cut(r, i, j);
      CleanItems(cut.messages, cut.effort);
      CutItems(r, i, j);
      CutStartsAtCompaction(r, i, j);
      CutAtLast(ItemsBefore(r, i, j), Items(cut.messages, cut.effort));
    }
  }

  /** What the cut at message `i`, block `j` discards. */
  function ItemsBefore(r: Request, i: nat, j: nat): seq<Item>
    requires i < |r.messages| && j <= |BlocksOf(r.messages[i])|
  {
    var blocks := BlocksOf(r.messages[i])[..j];
    Items(r.messages[..i], r.effort) + MessageItems(r.messages[i].(content := Blocks(blocks)), Cut(r, i, j).effort)
  }

  lemma {:induction false} CutItems(r: Request, i: nat, j: nat)
    requires i < |r.messages| && j <= |BlocksOf(r.messages[i])|
    requires r.messages[i].role == Assistant && r.messages[i].content.Blocks?
    ensures Items(r.messages, r.effort) == ItemsBefore(r, i, j) + Items(Cut(r, i, j).messages, Cut(r, i, j).effort)
  {
    hide Items, BlockItems, LatestEffort;
    var ms, effort := r.messages, Cut(r, i, j).effort;
    ItemsSplit(ms[..i], ms[i..], r.effort);
    assert ms[..i] + ms[i..] == ms;
    HeadItems(ms[i..], j, effort);
    assert Cut(r, i, j).messages == [WithBlocks(ms[i..][0], BlocksOf(ms[i..][0])[j..])] + ms[i..][1..];
  }

  lemma {:induction false} HeadItems(ms: seq<Message>, j: nat, effort: Option<string>)
    requires ms != [] && ms[0].role == Assistant && ms[0].content.Blocks? && j <= |BlocksOf(ms[0])|
    ensures var blocks := BlocksOf(ms[0]);
            Items(ms, effort) == BlockItems(Assistant, blocks[..j], effort)
                                 + Items([WithBlocks(ms[0], blocks[j..])] + ms[1..], effort)
  {
    var blocks, rest := BlocksOf(ms[0]), Items(ms[1..], effort);
    var cut := [WithBlocks(ms[0], blocks[j..])] + ms[1..];
    var before, after := BlockItems(Assistant, blocks[..j], effort), BlockItems(Assistant, blocks[j..], effort);
    assert BlockItems(Assistant, blocks, effort) == before + after;
    assert cut[1..] == ms[1..];
    assert Items(cut, effort) == after + rest;
    assert before + after + rest == before + (after + rest);
  }

  lemma {:induction false} CutStartsAtCompaction(r: Request, i: nat, j: nat)
    requires IsBoundary(r.messages, i, j)
    ensures var kept := Items(Cut(r, i, j).messages, Cut(r, i, j).effort);
            kept != [] && CompletedCompaction(kept[0]) && forall k :: 1 <= k < |kept| ==> !CompletedCompaction(kept[k])
  {
    var ms, cut := r.messages, Cut(r, i, j);
    var blocks := BlocksOf(ms[i]);
    var after := MessageItems(cut.messages[0], cut.effort);
    assert cut.messages[1..] == ms[i + 1..];
    assert Items(cut.messages, cut.effort) == after + Items(ms[i + 1..], cut.effort);
    forall k | 1 <= k < |after| ensures !CompletedCompaction(after[k]) {
      assert blocks[j..][k] == blocks[j + k];
    }
    NoCompactionNoCut(ms[i + 1..], cut.effort);
  }

  // ---------------------------------------------------------------- message by message

  /** A message with the effort in force at it. */
  datatype Noted = Noted(message: Message, effort: Option<string>)

  function Annotate(ms: seq<Message>, current: Option<string>): (r: seq<Noted>)
    ensures |r| == |ms|
  {
    if ms == [] then []
    else
      var effort := NextEffort(ms[0], current);
      [Noted(ms[0], effort)] + Annotate(ms[1..], effort)
  }

  lemma {:induction false} AnnotatedAt(ms: seq<Message>, current: Option<string>, k: nat)
    requires k < |ms|
    ensures Annotate(ms, current)[k] == Noted(ms[k], Default(LatestEffort(ms[..k + 1]), current))
  {
    hide LatestEffort;
    FirstEffort(ms[..k + 1], current);
    assert ms[..k + 1][1..] == ms[1..][..k];
    if k == 0 {
      NoMessagesNoEffort();
      assert ms[1..][..0] == [];
    } else {
      AnnotatedAt(ms[1..], NextEffort(ms[0], current), k - 1);
    }
  }

  lemma {:induction false} AnnotateSplit(a: seq<Message>, b: seq<Message>, current: Option<string>)
    ensures Annotate(a + b, current) == Annotate(a, current) + Annotate(b, Default(LatestEffort(a), current))
    decreases |a|
  {
    hide LatestEffort;
    if a == [] {
      assert a + b == b;
      NoMessagesNoEffort();
    } else {
      assert (a + b)[1..] == a[1..] + b && (a + b)[0] == a[0];
      AnnotateSplit(a[1..], b, NextEffort(a[0], current));
      FirstEffort(a, current);
    }
  }

  /** Failed compactions removed, and with them the assistant messages they alone made up. */
  function CleanNoted(ns: seq<Noted>): seq<Noted> {
    if ns == [] then []
    else
      var m := ns[0].message;
      (if Survives(m) then [ns[0].(message := WithBlocks(m, CleanBlocks(m)))] else []) + CleanNoted(ns[1..])
  }

  lemma {:induction false} CleanAnnotated(ms: seq<Message>, current: Option<string>)
    ensures Annotate(Clean(ms), current) == CleanNoted(Annotate(ms, current))
  {
    if ms != [] {
      var m, effort := ms[0], NextEffort(ms[0], current);
      CleanAnnotated(ms[1..], effort);
      assert Annotate(ms, current)[1..] == Annotate(ms[1..], effort);
      if Survives(m) {
        assert Clean(ms)[0] == CleanMessage(m)[0] && Clean(ms)[1..] == Clean(ms[1..]);
        assert NextEffort(Clean(ms)[0], current) == effort;
      } else {
        assert Clean(ms) == Clean(ms[1..]);
      }
    }
  }

  /** The messages from the boundary on, the first without the blocks before it, each with its old effort. */
  function FromBoundary(r: Request): seq<Noted> {
    var all := Annotate(r.messages, r.effort);
    match Boundary(r.messages)
    case None => all
    case Some((i, j)) =>
      var m := r.messages[i];
      [Noted(WithBlocks(m, BlocksOf(m)[j..]), all[i].effort)] + all[i + 1..]
  }

  lemma {:induction false} CutAnnotated(r: Request, i: nat, j: nat)
    requires i < |r.messages| && j <= |BlocksOf(r.messages[i])| && r.messages[i].role == Assistant
    ensures var all, m, cut := Annotate(r.messages, r.effort), r.messages[i], Cut(r, i, j);
            Annotate(cut.messages, cut.effort) == [Noted(WithBlocks(m, BlocksOf(m)[j..]), all[i].effort)] + all[i + 1..]
  {
    hide LatestEffort;
    var before, after, cut := r.messages[..i], r.messages[i..], Cut(r, i, j);
    assert before + after == r.messages && after[1..] == r.messages[i + 1..];
    AnnotateSplit(before, after, r.effort);
    assert cut.messages[1..] == after[1..];
    assert Annotate(r.messages, r.effort)[i..] == Annotate(after, cut.effort);
    assert Annotate(r.messages, r.effort)[i + 1..] == Annotate(after, cut.effort)[1..];
  }

  lemma {:induction false} BoundaryAnnotated(r: Request)
    ensures Annotate(CutAtBoundary(r).messages, CutAtBoundary(r).effort) == FromBoundary(r)
  {
    hide Annotate, Cut, LatestEffort;
    if Boundary(r.messages).Some? {
      var (i, j) := Boundary(r.messages).value;
      CutAnnotated(r, i, j);
    }
  }

  /** Each message that is kept stands under the effort it stood under before; boundaries and empty messages stay. */
  lemma {:induction false} NormalizeKeepsMessages(r: Request)
    ensures Annotate(Normalize(r).messages, Normalize(r).effort) == CleanNoted(FromBoundary(r))
    ensures forall k :: 0 <= k < |r.messages| ==> Annotate(r.messages, r.effort)[k] == Noted(r.messages[k], EffortAt(r, k))
  {
    hide Annotate, Clean, CleanNoted, FromBoundary, CutAtBoundary, LatestEffort, Boundary;
    CleanAnnotated(CutAtBoundary(r).messages, CutAtBoundary(r).effort);
    BoundaryAnnotated(r);
    forall k | 0 <= k < |r.messages| ensures Annotate(r.messages, r.effort)[k] == Noted(r.messages[k], EffortAt(r, k)) {
      AnnotatedAt(r.messages, r.effort, k);
    }
  }

  // ---------------------------------------------------------------- the transformation as loops

  datatype Stats = Stats(boundaryApplied: bool, removedBlocks: nat, removedMessages: nat)

  function NormalizeStats(r: Request): Stats {
    var cut := CutAtBoundary(r);
    Stats(Boundary(r.messages).Some?, CountAllNoOps(cut.messages), CountDropped(cut.messages))
  }

  function CountDropped(ms: seq<Message>): (n: nat)
    ensures n == |ms| - |Clean(ms)|
  {
    if ms == [] then 0 else (if Survives(ms[0]) then 0 else 1) + CountDropped(ms[1..])
  }

  function CountNoOps(blocks: seq<Block>): nat {
    if blocks == [] then 0 else (if NoOp(blocks[0]) then 1 else 0) + CountNoOps(blocks[1..])
  }

  function CountAllNoOps(ms: seq<Message>): nat {
    if ms == [] then 0 else (if Scanned(ms[0]) then CountNoOps(BlocksOf(ms[0])) else 0) + CountAllNoOps(ms[1..])
  }

  /** `blocks.retain`, counting what it removes. */
  method RetainBlocks(blocks: seq<Block>) returns (kept: seq<Block>, removed: nat)
    ensures kept == DropNoOps(blocks) && removed == CountNoOps(blocks)
  {
    kept, removed := [], 0;
    assert blocks[0..] == blocks;
    for k := 0 to |blocks|
      invariant kept + DropNoOps(blocks[k..]) == DropNoOps(blocks)
      invariant removed + CountNoOps(blocks[k..]) == CountNoOps(blocks)
    {
      assert blocks[k..][1..] == blocks[k + 1..];
      if NoOp(blocks[k]) {
        removed := removed + 1;
      } else {
        kept := kept + [blocks[k]];
      }
    }
  }

  method RetainMessage(m: Message) returns (kept: Option<Message>, removed: nat)
    ensures CleanMessage(m) == if kept.Some? then [kept.value] else []
    ensures removed == if Scanned(m) then CountNoOps(BlocksOf(m)) else 0
  {
    if m.role != Assistant || m.content.Plain? {
      assert WithBlocks(m, BlocksOf(m)) == m;
      return Some(m), 0;
    }
    var blocks;
    blocks, removed := RetainBlocks(m.content.blocks);
    if m.content.blocks == [] || blocks != [] {
      kept := Some(m.(content := Blocks(blocks)));
    } else {
      kept := None;
    }
  }

  lemma {:induction false} CleanFirst(ms: seq<Message>)
    requires ms != []
    ensures Clean(ms) == CleanMessage(ms[0]) + Clean(ms[1..])
    ensures CountAllNoOps(ms) == (if Scanned(ms[0]) then CountNoOps(BlocksOf(ms[0])) else 0) + CountAllNoOps(ms[1..])
  {
    hide CleanMessage, CountNoOps, Scanned;
  }

  lemma {:induction false} Regroup<T>(a: seq<T>, b: seq<T>, c: seq<T>)
    ensures (a + b) + c == a + (b + c)
  {
  }

  lemma {:induction false} CleanStep(ms: seq<Message>, i: nat, kept: seq<Message>)
    requires i < |ms|
    ensures (kept + CleanMessage(ms[i])) + Clean(ms[i + 1..]) == kept + Clean(ms[i..])
    ensures CountAllNoOps(ms[i..]) == (if Scanned(ms[i]) then CountNoOps(BlocksOf(ms[i])) else 0) + CountAllNoOps(ms[i + 1..])
  {
    hide CleanMessage, CountNoOps, Scanned, Clean, CountAllNoOps;
    CleanFirst(ms[i..]);
    assert ms[i..][1..] == ms[i + 1..] && ms[i..][0] == ms[i];
    Regroup(kept, CleanMessage(ms[i]), Clean(ms[i + 1..]));
  }

  lemma {:induction false} NothingToClean(ms: seq<Message>)
    ensures Clean(ms[|ms|..]) == [] && CountAllNoOps(ms[|ms|..]) == 0
  {
  }

  /** The final `retain_mut` over the messages. */
  method RetainMessages(ms: seq<Message>) returns (kept: seq<Message>, removedBlocks: nat, removedMessages: nat)
    ensures kept == Clean(ms)
    ensures removedBlocks == CountAllNoOps(ms)
    ensures removedMessages == |ms| - |kept|
  {
    hide CleanMessage, CountNoOps, Clean, CountAllNoOps;
    kept, removedBlocks, removedMessages := [], 0, 0;
    assert ms[0..] == ms && [] + Clean(ms) == Clean(ms);
    for i := 0 to |ms|
      invariant kept + Clean(ms[i..]) == Clean(ms)
      invariant removedBlocks + CountAllNoOps(ms[i..]) == CountAllNoOps(ms)
      invariant |kept| + removedMessages == i
    {
      CleanStep(ms, i, kept);
      var retained, removed := RetainMessage(ms[i]);
      removedBlocks := removedBlocks + removed;
      if retained.Some? {
        kept := kept + [retained.value];
      } else {
        assert kept + [] == kept;
        removedMessages := removedMessages + 1;
      }
    }
    NothingToClean(ms);
    assert kept + [] == kept;
  }

  class EditedRequest {
    var messages: seq<Message>
    var effort: Option<string>

    constructor (messages: seq<Message>, effort: Option<string>)
      ensures this.messages == messages && this.effort == effort
    {
      this.messages, this.effort := messages, effort;
    }

    ghost function Value(): Request
      reads this
    {
      Request(messages, effort)
    }

    /** The backward search for the last completed compaction. */
    method FindBoundary() returns (found: Option<(nat, nat)>)
      ensures found == Boundary(messages)
    {
      assert messages[..|messages|] == messages;
      for i := |messages| downto 0
        invariant Boundary(messages) == Boundary(messages[..i])
      {
        assert messages[..i + 1][..i] == messages[..i];
        if messages[i].role == Assistant {
          var block := LastCompleted(BlocksOf(messages[i]));
          if block.Some? {
            return Some((i, block.value));
          }
        }
      }
      return None;
    }

    method NormalizeBoundary() returns (stats: Stats)
      modifies this
      ensures Value() == Normalize(old(Value()))
      ensures stats == NormalizeStats(old(Value()))
    {
      var boundary := FindBoundary();
      if boundary.Some? {
        var (i, j) := boundary.value;
        var carried := LatestEffort(messages[..i]);
        if carried.Some? {
          effort := carried;
        }
        messages := messages[i..];
        var blocks := BlocksOf(messages[0]);
        messages := messages[0 := WithBlocks(messages[0], blocks[j..])];
        assert messages == Cut(old(Value()), i, j).messages;
      }
      var removedBlocks, removedMessages;
      messages, removedBlocks, removedMessages := RetainMessages(messages);
      stats := Stats(boundary.Some?, removedBlocks, removedMessages);
    }
  }
}
