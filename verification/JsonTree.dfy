/** The tree a value stands for, read with a bound on its depth and without one. */
module JsonTree {
  import opened Wrappers
  import opened JsonText
  import opened JsonSize

  lemma {:induction false} ItemsAt(heap: Heap, items: seq<Value>, levels: nat, i: nat)
    requires i < |items| && UnfoldItems(heap, items, levels).Some?
    ensures levels > 0 && |UnfoldItems(heap, items, levels).value| == |items|
    ensures Unfold(heap, items[i], levels - 1) == Some(UnfoldItems(heap, items, levels).value[i])
    ensures UnfoldItems(heap, items[..i], levels) == Some(UnfoldItems(heap, items, levels).value[..i])
    decreases |items|
  {
    hide Unfold;
    var head := items[..|items| - 1];
    if i < |head| {
      ItemsAt(heap, head, levels, i);
      assert head[..i] == items[..i];
      var all := UnfoldItems(heap, items, levels).value;
      assert UnfoldItems(heap, head, levels).value[..i] == all[..i];
    } else {
      if head != [] { ItemsAt(heap, head, levels, 0); }
      assert items[..i] == head;
    }
  }

  lemma {:induction false} EntriesAt(heap: Heap, entries: seq<(Key, Value)>, levels: nat, i: nat)
    requires i < |entries| && UnfoldEntries(heap, entries, levels).Some?
    ensures levels > 0 && |UnfoldEntries(heap, entries, levels).value| == |entries|
    ensures entries[i].0.Name? && ValidText(entries[i].0.text)
    ensures UnfoldEntries(heap, entries, levels).value[i].key == entries[i].0.text
    ensures Unfold(heap, entries[i].1, levels - 1) == Some(UnfoldEntries(heap, entries, levels).value[i].value)
    ensures UnfoldEntries(heap, entries[..i], levels) == Some(UnfoldEntries(heap, entries, levels).value[..i])
    decreases |entries|
  {
    hide Unfold;
    var head := entries[..|entries| - 1];
    if i < |head| {
      EntriesAt(heap, head, levels, i);
      assert head[..i] == entries[..i];
      var all := UnfoldEntries(heap, entries, levels).value;
      assert UnfoldEntries(heap, head, levels).value[..i] == all[..i];
    } else {
      if head != [] { EntriesAt(heap, head, levels, 0); }
      assert entries[..i] == head;
    }
  }

  // ----- with and without a bound on the depth -----

  lemma {:induction false} ItemsFromTrees(heap: Heap, items: seq<Value>, trees: seq<Json>, levels: nat)
    requires |items| == |trees| && (trees != [] ==> levels > 0)
    requires forall i | 0 <= i < |items| :: Unfold(heap, items[i], levels - 1) == Some(trees[i])
    ensures UnfoldItems(heap, items, levels) == Some(trees)
  {
    hide Unfold;
    if items != [] {
      ItemsFromTrees(heap, items[..|items| - 1], trees[..|items| - 1], levels);
      assert trees == trees[..|items| - 1] + [trees[|items| - 1]];
    }
  }

  lemma {:induction false} EntriesFromMembers(heap: Heap, entries: seq<(Key, Value)>, members: seq<Member>, levels: nat)
    requires |entries| == |members| && (members != [] ==> levels > 0)
    requires forall i | 0 <= i < |entries| ::
      && entries[i].0.Name? && ValidText(entries[i].0.text) && entries[i].0.text == members[i].key
      && Unfold(heap, entries[i].1, levels - 1) == Some(members[i].value)
    ensures UnfoldEntries(heap, entries, levels) == Some(members)
  {
    hide Unfold;
    if entries != [] {
      EntriesFromMembers(heap, entries[..|entries| - 1], members[..|entries| - 1], levels);
      assert members == members[..|entries| - 1] + [members[|entries| - 1]];
      var last := members[|entries| - 1];
      assert last == Member(last.key, last.value);
    }
  }

  lemma {:induction false} ItemDepthBounds(items: seq<Json>, levels: nat)
    ensures ItemDepth(items) <= levels <==> forall i | 0 <= i < |items| :: 1 + Depth(items[i]) <= levels
  {
    hide Depth;
    if items != [] {
      ItemDepthBounds(items[..|items| - 1], levels);
      assert forall i | 0 <= i < |items| - 1 :: items[..|items| - 1][i] == items[i];
    }
  }

  lemma {:induction false} MemberDepthBounds(members: seq<Member>, levels: nat)
    ensures MemberDepth(members) <= levels <==> forall i | 0 <= i < |members| :: 1 + Depth(members[i].value) <= levels
  {
    hide Depth;
    if members != [] {
      MemberDepthBounds(members[..|members| - 1], levels);
      assert forall i | 0 <= i < |members| - 1 :: members[..|members| - 1][i] == members[i];
    }
  }

  lemma {:induction false} UnfoldRepresents(heap: Heap, value: Value, levels: nat)
    requires Unfold(heap, value, levels).Some?
    ensures Represents(heap, value, Unfold(heap, value, levels).value)
    ensures Depth(Unfold(heap, value, levels).value) <= levels
    decreases levels
  {
    var tree := Unfold(heap, value, levels).value;
    if tree.Array? && value.PyRef? {
      var items := heap.containers[value.id].items;
      forall i | 0 <= i < |items|
        ensures |tree.items| == |items| && Represents(heap, items[i], tree.items[i]) && 1 + Depth(tree.items[i]) <= levels
      {
        ItemsAt(heap, items, levels, i);
        UnfoldRepresents(heap, items[i], levels - 1);
      }
      ItemDepthBounds(tree.items, levels);
    } else if tree.Object? && value.PyRef? {
      var entries := heap.containers[value.id].entries;
      forall i | 0 <= i < |entries|
        ensures |tree.members| == |entries| && Represents(heap, entries[i].1, tree.members[i].value)
        ensures entries[i].0.Name? && ValidText(entries[i].0.text) && tree.members[i].key == entries[i].0.text
        ensures 1 + Depth(tree.members[i].value) <= levels
      {
        EntriesAt(heap, entries, levels, i);
        UnfoldRepresents(heap, entries[i].1, levels - 1);
      }
      MemberDepthBounds(tree.members, levels);
    }
  }

  lemma {:induction false} RepresentedUnfolds(heap: Heap, value: Value, tree: Json, levels: nat)
    requires Represents(heap, value, tree) && Depth(tree) <= levels
    ensures Unfold(heap, value, levels) == Some(tree)
    decreases tree
  {
    if tree.Array? {
      var items := heap.containers[value.id].items;
      ItemDepthBounds(tree.items, levels);
      forall i | 0 <= i < |items| ensures levels > 0 && Unfold(heap, items[i], levels - 1) == Some(tree.items[i]) {
        RepresentedUnfolds(heap, items[i], tree.items[i], levels - 1);
      }
      ItemsFromTrees(heap, items, tree.items, levels);
    } else if tree.Object? {
      var entries := heap.containers[value.id].entries;
      MemberDepthBounds(tree.members, levels);
      forall i | 0 <= i < |entries|
        ensures levels > 0 && Unfold(heap, entries[i].1, levels - 1) == Some(tree.members[i].value)
      {
        RepresentedUnfolds(heap, entries[i].1, tree.members[i].value, levels - 1);
      }
      EntriesFromMembers(heap, entries, tree.members, levels);
    }
  }

  /** Reading down to a depth finds exactly the trees that are no deeper. */
  lemma UnfoldIsTheTree(heap: Heap, value: Value, levels: nat, tree: Json)
    ensures Unfold(heap, value, levels) == Some(tree) <==> Represents(heap, value, tree) && Depth(tree) <= levels
  {
    if Unfold(heap, value, levels) == Some(tree) { UnfoldRepresents(heap, value, levels); }
    if Represents(heap, value, tree) && Depth(tree) <= levels { RepresentedUnfolds(heap, value, tree, levels); }
  }

  // ----- cycles -----

  ghost predicate Child(heap: Heap, id: nat, value: Value) {
    && id in heap.containers
    && match heap.containers[id]
       case Items(items) => value in items
       case Entries(entries) => exists i :: 0 <= i < |entries| && entries[i].1 == value
  }

  lemma ChildUnfolds(heap: Heap, id: nat, value: Value, levels: nat)
    requires Child(heap, id, value) && Unfold(heap, PyRef(id), levels).Some?
    ensures levels > 0 && Unfold(heap, value, levels - 1).Some?
  {
    match heap.containers[id]
    case Items(items) =>
      var i :| 0 <= i < |items| && items[i] == value;
      ItemsAt(heap, items, levels, i);
    case Entries(entries) =>
      var i :| 0 <= i < |entries| && entries[i].1 == value;
      EntriesAt(heap, entries, levels, i);
  }

  /** Each container on the path holds the next. */
  ghost predicate Path(heap: Heap, path: seq<nat>) {
    forall i | 0 < i < |path| :: Child(heap, path[i - 1], PyRef(path[i]))
  }

  lemma {:induction false} PathUnfolds(heap: Heap, path: seq<nat>, i: nat, j: nat, levels: nat)
    requires Path(heap, path) && i <= j < |path| && Unfold(heap, PyRef(path[i]), levels).Some?
    ensures j - i <= levels && Unfold(heap, PyRef(path[j]), levels - (j - i)).Some?
    decreases j - i
  {
    hide Unfold, Child;
    if i < j {
      PathUnfolds(heap, path, i, j - 1, levels);
      ChildUnfolds(heap, path[j - 1], PyRef(path[j]), levels - (j - 1 - i));
    }
  }

  /** A container met again below itself stands for no tree at all. */
  lemma {:induction false} CycleHasNoTree(heap: Heap, path: seq<nat>, i: nat, j: nat, levels: nat)
    requires Path(heap, path) && i < j < |path| && path[i] == path[j]
    ensures Unfold(heap, PyRef(path[i]), levels).None?
    decreases levels
  {
    hide Unfold, Path;
    if Unfold(heap, PyRef(path[i]), levels).Some? {
      PathUnfolds(heap, path, i, j, levels);
      CycleHasNoTree(heap, path, i, j, levels - (j - i));
    }
  }

  // ----- partial sums -----

  lemma {:induction false} ItemsMonotone(items: seq<Json>, i: nat)
    requires i < |items|
    ensures ItemBytes(items[..i]) + |Print(items[i])| <= ItemBytes(items)
    ensures ItemNodes(items[..i]) + Nodes(items[i]) <= ItemNodes(items)
    ensures ItemBytes(items[..i + 1]) == ItemBytes(items[..i]) + |Print(items[i])|
    ensures ItemNodes(items[..i + 1]) == ItemNodes(items[..i]) + Nodes(items[i])
    decreases |items|
  {
    hide Print, Nodes;
    assert items[..i + 1][..i] == items[..i];
    var head := items[..|items| - 1];
    if i < |head| {
      ItemsMonotone(head, i);
      assert head[..i] == items[..i];
    }
  }

  lemma {:induction false} MembersMonotone(members: seq<Member>, i: nat)
    requires i < |members|
    ensures MemberBytes(members[..i]) + |Quoted(members[i].key)| + 1 + |Print(members[i].value)| <= MemberBytes(members)
    ensures MemberNodes(members[..i]) + Nodes(members[i].value) <= MemberNodes(members)
    ensures MemberBytes(members[..i + 1]) == MemberBytes(members[..i]) + |Quoted(members[i].key)| + 1 + |Print(members[i].value)|
    ensures MemberNodes(members[..i + 1]) == MemberNodes(members[..i]) + Nodes(members[i].value)
    decreases |members|
  {
    hide Print, Nodes, Quoted;
    assert members[..i + 1][..i] == members[..i];
    var head := members[..|members| - 1];
    if i < |head| {
      MembersMonotone(head, i);
      assert head[..i] == members[..i];
    }
  }
}
