/**
 Model of the comment-preserving configuration update (crates/kproxy-store/src/config_update.rs):
 the difference of two TOML values applied to a decorated document. Scalars and arrays are leaves,
 carried as text; a decoration is the text (comments, spacing) attached to an item.
 */
module ConfigPatch {
  import opened Wrappers

  datatype Value = Leaf(text: string) | Table(entries: map<string, Value>)

  /**
   A document item. `inline` distinguishes `{ ... }` tables, which are values to the editor, from
   `[section]` tables; `Sections` is an array of `[[section]]` tables.
   */
  datatype Item =
    | Scalar(text: string, decor: string)
    | Sections(text: string, decor: string)
    | Node(entries: map<string, Item>, inline: bool, decor: string)

  const NO_DECOR := ""

  /** What an item means, decoration aside. */
  function Meaning(item: Item): Value {
    match item
    case Scalar(text, _) => Leaf(text)
    case Sections(text, _) => Leaf(text)
    case Node(entries, _, _) => Table(map k | k in entries :: Meaning(entries[k]))
  }

  /** `value_to_item`: a fresh item for a value. `sections` tells which arrays become `[[...]]`. */
  function ToItem(v: Value, sections: string -> bool): Item {
    match v
    case Leaf(text) => if sections(text) then Sections(text, NO_DECOR) else Scalar(text, NO_DECOR)
    case Table(entries) => Node(map k | k in entries :: ToItem(entries[k], sections), false, NO_DECOR)
  }

  lemma {:induction false} ToItemMeans(v: Value, sections: string -> bool)
    ensures Meaning(ToItem(v, sections)) == v
  {
    if v.Table? {
      var item := ToItem(v, sections);
      forall k | k in v.entries ensures Meaning(item.entries[k]) == v.entries[k] {
        ToItemMeans(v.entries[k], sections);
      }
      assert Meaning(item).entries == v.entries;
    }
  }

  function Get<T>(m: map<string, T>, key: string): Option<T> {
    if key in m then Some(m[key]) else None
  }

  // ---------------------------------------------------------------- the patch

  /** The editor treats scalars and inline tables as values; these have a decoration of their own. */
  predicate IsValue(item: Item) {
    item.Scalar? || (item.Node? && item.inline)
  }

  /** `insert_or_replace`: a value that replaces a value inherits its decoration. */
  function Replace(current: Option<Item>, next: Item): Item {
    if current.Some? && IsValue(current.value) && IsValue(next) then next.(decor := current.value.decor) else next
  }

  /** The item for a key whose value changes from `before` to `next`. */
  function PatchItem(item: Option<Item>, before: Option<Value>, next: Value, sections: string -> bool): Item
    decreases next, 1
  {
    if before.Some? && before.value.Table? && next.Table? && item.Some? && item.value.Node? then
      PatchNode(item.value, before.value, next, sections)
    else Replace(item, ToItem(next, sections))
  }

  /** `apply_table_diff`: every changed key of a table is removed, patched or replaced. */
  function PatchNode(node: Item, before: Value, next: Value, sections: string -> bool): (r: Item)
    requires node.Node? && before.Table? && next.Table?
    decreases next, 0
  {
    var kept := set k | k in node.entries && Get(before.entries, k) == Get(next.entries, k);
    var changed := set k | k in next.entries && Get(before.entries, k) != Get(next.entries, k);
    Node(map k | k in kept + changed ::
           if k in changed then PatchItem(Get(node.entries, k), Get(before.entries, k), next.entries[k], sections)
           else node.entries[k],
         node.inline, node.decor)
  }

  /** The patched table, key by key. */
  lemma PatchedAt(node: Item, before: Value, next: Value, sections: string -> bool, k: string)
    requires node.Node? && before.Table? && next.Table?
    ensures var was, after := Get(before.entries, k), Get(next.entries, k);
            Get(PatchNode(node, before, next, sections).entries, k) ==
            if was == after then Get(node.entries, k)
            else if after.None? then None
            else Some(PatchItem(Get(node.entries, k), was, after.value, sections))
  {
  }

  /** A document that means `before` comes to mean `next`, at every depth. */
  lemma {:induction false} PatchMeansNext(node: Item, before: Value, next: Value, sections: string -> bool)
    requires node.Node? && before.Table? && next.Table? && Meaning(node) == before
    ensures Meaning(PatchNode(node, before, next, sections)) == next
    decreases next, 0
  {
    var patched := PatchNode(node, before, next, sections);
    forall k | k in next.entries
      ensures k in patched.entries && Meaning(patched.entries[k]) == next.entries[k]
    {
      if Get(before.entries, k) == Get(next.entries, k) {
        assert k in before.entries;
      } else {
        PatchItemMeansNext(Get(node.entries, k), Get(before.entries, k), next.entries[k], sections);
      }
    }
    assert Meaning(patched).entries == next.entries;
  }

  lemma {:induction false} PatchItemMeansNext(item: Option<Item>, before: Option<Value>, next: Value, sections: string -> bool)
    requires before == if item.Some? then Some(Meaning(item.value)) else None
    ensures Meaning(PatchItem(item, before, next, sections)) == next
    decreases next, 1
  {
    if before.Some? && before.value.Table? && next.Table? {
      PatchMeansNext(item.value, before.value, next, sections);
    } else {
      ToItemMeans(next, sections);
    }
  }

  // ---------------------------------------------------------------- what the patch leaves alone

  function ValueAt(v: Value, path: seq<string>): Option<Value>
    decreases |path|
  {
    if path == [] then Some(v)
    else if v.Table? && path[0] in v.entries then ValueAt(v.entries[path[0]], path[1..])
    else None
  }

  function ItemAt(item: Item, path: seq<string>): Option<Item>
    decreases |path|
  {
    if path == [] then Some(item)
    else if item.Node? && path[0] in item.entries then ItemAt(item.entries[path[0]], path[1..])
    else None
  }

  lemma {:induction false} MeaningAt(item: Item, path: seq<string>)
    ensures ValueAt(Meaning(item), path) == if ItemAt(item, path).None? then None else Some(Meaning(ItemAt(item, path).value))
    decreases |path|
  {
    if path != [] && item.Node? && path[0] in item.entries {
      MeaningAt(item.entries[path[0]], path[1..]);
    }
  }

  /**
   Wherever the value does not change, at any depth, the item there is the same one, decoration
   included.
   */
  lemma {:induction false} UnchangedItemsKept(node: Item, before: Value, next: Value, sections: string -> bool, path: seq<string>)
    requires node.Node? && before.Table? && next.Table? && Meaning(node) == before
    requires path != [] && ValueAt(before, path) == ValueAt(next, path)
    ensures ItemAt(PatchNode(node, before, next, sections), path) == ItemAt(node, path)
    decreases |path|
  {
    var k, rest := path[0], path[1..];
    var patched := PatchNode(node, before, next, sections);
    if ValueAt(before, path).None? {
      PatchMeansNext(node, before, next, sections);
      MeaningAt(node, path);
      MeaningAt(patched, path);
    } else if Get(before.entries, k) != Get(next.entries, k) {
      assert rest != [];
      UnchangedItemsKept(node.entries[k], before.entries[k], next.entries[k], sections, rest);
    }
  }

  /** The editor can hold the value with a decoration of its own: it is no table and no array of tables. */
  predicate StaysValue(v: Value, sections: string -> bool) {
    v.Leaf? && !sections(v.text)
  }

  /** A scalar, or an inline table that gives way to a leaf, keeps its decoration if and only if what replaces it stays a value. */
  lemma {:induction false} ChangedValueDecor(node: Item, before: Value, next: Value, sections: string -> bool, path: seq<string>)
    requires node.Node? && before.Table? && next.Table? && Meaning(node) == before && path != []
    requires ItemAt(node, path).Some? && ValueAt(next, path).Some? && ValueAt(before, path) != ValueAt(next, path)
    requires var was := ItemAt(node, path).value; was.Scalar? || (was.Node? && was.inline && ValueAt(next, path).value.Leaf?)
    ensures var was, v, now := ItemAt(node, path).value, ValueAt(next, path).value, ItemAt(PatchNode(node, before, next, sections), path);
            && now == Some(if StaysValue(v, sections) then Scalar(v.text, was.decor) else ToItem(v, sections))
            && (now.value.decor == was.decor <==> StaysValue(v, sections) || was.decor == NO_DECOR)
    decreases |path|
  {
    var k, rest := path[0], path[1..];
    MeaningAt(node, path);
    assert k in before.entries && k in next.entries && before.entries[k] != next.entries[k];
    PatchedAt(node, before, next, sections, k);
    hide PatchNode;
    if rest != [] {
      ChangedValueDecor(node.entries[k], before.entries[k], next.entries[k], sections, rest);
    }
  }

  /** Both failing inputs: a commented scalar that becomes a table, or an array of tables. */
  lemma {:induction false} ScalarLosesDecor(key: string, text: string, decor: string, next: Value, sections: string -> bool)
    requires decor != NO_DECOR && next != Leaf(text) && (next.Table? || sections(next.text))
    ensures var node := Node(map[key := Scalar(text, decor)], false, NO_DECOR);
            var now := ItemAt(PatchNode(node, Meaning(node), Table(map[key := next]), sections), [key]);
            now == Some(ToItem(next, sections)) && now.value.decor == NO_DECOR
  {
    var node := Node(map[key := Scalar(text, decor)], false, NO_DECOR);
    assert Meaning(node) == Table(map[key := Leaf(text)]);
    ChangedValueDecor(node, Meaning(node), Table(map[key := next]), sections, [key]);
  }

  /** A table that is a table before and after keeps its own decoration and form. */
  lemma {:induction false} TablesKeepDecor(node: Item, before: Value, next: Value, sections: string -> bool, path: seq<string>)
    requires node.Node? && before.Table? && next.Table? && Meaning(node) == before
    requires ValueAt(before, path).Some? && ValueAt(before, path).value.Table?
    requires ValueAt(next, path).Some? && ValueAt(next, path).value.Table?
    ensures var was, now := ItemAt(node, path), ItemAt(PatchNode(node, before, next, sections), path);
            && was.Some? && was.value.Node? && now.Some? && now.value.Node?
            && now.value.decor == was.value.decor && now.value.inline == was.value.inline
    decreases |path|
  {
    MeaningAt(node, path);
    if path != [] {
      var k, rest := path[0], path[1..];
      if before.entries[k] != next.entries[k] {
        TablesKeepDecor(node.entries[k], before.entries[k], next.entries[k], sections, rest);
      }
    }
  }

  // ---------------------------------------------------------------- the patch as a loop

  ghost predicate IsKeyOrder(order: seq<string>, keys: set<string>) {
    && (forall i, j :: 0 <= i < j < |order| ==> order[i] != order[j])
    && (forall k :: k in order <==> k in keys)
  }

  /** Lists the keys of a set, in some order. */
  method KeyOrder(keys: set<string>) returns (order: seq<string>)
    ensures IsKeyOrder(order, keys)
  {
    order := [];
    var left := keys;
    while left != {}
      invariant left <= keys
      invariant IsKeyOrder(order, keys - left)
      decreases left
    {
      var k :| k in left;
      order := order + [k];
      left := left - {k};
    }
  }

  /** `apply_table_diff` over the union of both key sets, editing the table entry by entry. */
  method ApplyTableDiff(node: Item, before: Value, next: Value, sections: string -> bool) returns (patched: Item)
    requires node.Node? && before.Table? && next.Table?
    ensures patched == PatchNode(node, before, next, sections)
    decreases next, 0
  {
    hide PatchNode;
    var target := node.entries;
    SameForm(node, before, next, sections);
    ghost var goal := PatchNode(node, before, next, sections).entries;
    var keys := KeyOrder(before.entries.Keys + next.entries.Keys);
    for i := 0 to |keys|
      invariant forall k :: Get(target, k) == if k in keys[..i] then Get(goal, k) else Get(node.entries, k)
    {
      var key := keys[i];
      PatchedAt(node, before, next, sections, key);
      assert keys[..i + 1] == keys[..i] + [key];
      assert key !in keys[..i] && Get(target, key) == Get(node.entries, key);
      var previous, after := Get(before.entries, key), Get(next.entries, key);
      ghost var was := target;
      if previous == after {
      } else if after.None? {
        target := target - {key};
      } else if previous.Some? && previous.value.Table? && after.value.Table? && key in target && target[key].Node? {
        var nested := ApplyTableDiff(target[key], previous.value, after.value, sections);
        target := target[key := nested];
      } else {
        target := target[key := Replace(Get(target, key), ToItem(after.value, sections))];
      }
      assert Get(target, key) == Get(goal, key);
      assert forall k :: k != key ==> Get(target, k) == Get(was, k);
    }
    assert keys[..|keys|] == keys;
    forall k | k !in keys ensures Get(goal, k) == Get(node.entries, k) {
      PatchedAt(node, before, next, sections, k);
    }
    SameEntries(target, goal, node, before, next, keys);
    patched := Node(target, node.inline, node.decor);
  }

  lemma SameForm(node: Item, before: Value, next: Value, sections: string -> bool)
    requires node.Node? && before.Table? && next.Table?
    ensures var p := PatchNode(node, before, next, sections);
            p.Node? && p.inline == node.inline && p.decor == node.decor
  {
  }

  lemma SameEntries(target: map<string, Item>, goal: map<string, Item>, node: Item, before: Value, next: Value, keys: seq<string>)
    requires node.Node? && before.Table? && next.Table?
    requires IsKeyOrder(keys, before.entries.Keys + next.entries.Keys)
    requires forall k :: Get(target, k) == if k in keys then Get(goal, k) else Get(node.entries, k)
    requires forall k :: k !in keys ==> Get(goal, k) == Get(node.entries, k)
    ensures target == goal
  {
    forall k ensures Get(target, k) == Get(goal, k) {}
    assert forall k :: k in target <==> Get(target, k).Some?;
    assert forall k :: k in goal <==> Get(goal, k).Some?;
    assert forall k :: k in target ==> target[k] == Get(target, k).value;
    assert target.Keys == goal.Keys;
  }
}
