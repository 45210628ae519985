/** The counter itself: one recursive walk with a shared node count and the set of containers being visited. */
module JsonCounter {
  import opened Wrappers
  import opened Bytes
  import opened JsonText
  import opened JsonSize
  import opened JsonTree
  import Utf8

  datatype Refusal = TooLarge | InvalidResult

  // ----- scalars -----

  lemma {:induction false} CharactersGrow(text: Text, i: nat)
    requires i < |text|
    ensures |Characters(text[..i])| + |Escaped(text[i])| + (|text| - i - 1) <= |Characters(text)|
    ensures |Characters(text[..i + 1])| == |Characters(text[..i])| + |Escaped(text[i])|
    decreases |text|
  {
    assert text[..i + 1][..i] == text[..i];
    var head := text[..|text| - 1];
    if i < |head| {
      CharactersGrow(head, i);
      assert head[..i] == text[..i];
    }
  }

  lemma TextIsLong(text: Text)
    ensures |Quoted(text)| >= |text| + 2
  {
    if text != [] { CharactersGrow(text, 0); }
  }

  /** The number of bytes one valid character takes inside quotes. */
  function CharacterSize(code: CodePoint): (size: nat)
    ensures Utf8.Scalar(code) ==> size == |Escaped(code)|
  {
    if code == 34 || code == 92 then 2
    else if code < 0x20 then
      if code == 8 || code == 12 || code == 10 || code == 13 || code == 9 then 2 else 6
    else if code < 0x80 then 1
    else if code < 0x800 then 2
    else if code < 0x10000 then 3
    else 4
  }

  method TextSize(text: seq<CodePoint>) returns (size: Result<nat, Refusal>)
    ensures size.Success? <==> ValidText(text) && |Quoted(text)| <= MAX_BYTES
    ensures size.Success? ==> size.value == |Quoted(text)|
    ensures size == Failure(InvalidResult) ==> !ValidText(text)
  {
    hide Characters, Escaped;
    if ValidText(text) { TextIsLong(text); }
    if |text| + 2 > MAX_BYTES { return Failure(TooLarge); }
    var count, i := 2, 0;
    EmptyText();
    while i < |text|
      invariant 0 <= i <= |text| && ValidText(text[..i])
      invariant count == 2 + |Characters(text[..i])| <= MAX_BYTES
    {
      var code := text[i];
      if code >= 0x20 && !Utf8.Scalar(code) { return Failure(InvalidResult); }
      assert ValidText(text[..i + 1]);
      CharactersGrow(text[..i + 1], i);
      assert text[..i + 1][..i] == text[..i] && text[..i + 1][..i + 1] == text[..i + 1];
      count := count + CharacterSize(code);
      if count > MAX_BYTES {
        if ValidText(text) { CharactersGrow(text, i); }
        return Failure(TooLarge);
      }
      i := i + 1;
    }
    assert text[..i] == text;
    size := Success(count);
  }

  lemma EmptyText()
    ensures Characters([]) == []
  {
  }

  method ScalarSize(heap: Heap, value: Value) returns (size: Result<nat, Refusal>)
    requires !value.PyRef? && !value.PyOther?
    ensures size.Success? ==> Scalar(heap, value).Some? && size.value == |Print(Scalar(heap, value).value)|
    ensures size.Failure? ==> Scalar(heap, value).None? || |Print(Scalar(heap, value).value)| > MAX_BYTES
    ensures size == Failure(InvalidResult) ==> Scalar(heap, value).None?
  {
    hide Characters, Digits;
    match value
    case PyNone => size := Success(4);
    case PyBool(b) => size := Success(if b then 4 else 5);
    case PyStr(text) => size := TextSize(text);
    case PyInt(n) =>
      if BitLength(Magnitude(n)) > 4 * MAX_BYTES {
        WideIntegersAreLong(n, MAX_BYTES);
        size := Failure(TooLarge);
      } else {
        var shown := Scalar(heap, value);
        size := if shown.None? then Failure(InvalidResult) else Success(|Decimal(n)|);
      }
    case PyFloat(shown) => size := if shown.None? then Failure(InvalidResult) else Success(|shown.value|);
  }

  // ----- containers -----

  /** The containers being visited, outermost first, lead to the value. */
  ghost predicate LeadsTo(heap: Heap, path: seq<nat>, value: Value) {
    Path(heap, path) && (path != [] ==> Child(heap, path[|path| - 1], value))
  }

  lemma LeadsOn(heap: Heap, path: seq<nat>, id: nat, child: Value)
    requires LeadsTo(heap, path, PyRef(id)) && Child(heap, id, child)
    ensures LeadsTo(heap, path + [id], child)
  {
    hide Child;
  }

  lemma MetAgain(heap: Heap, path: seq<nat>, id: nat, levels: nat)
    requires LeadsTo(heap, path, PyRef(id)) && id in path
    ensures Unfold(heap, PyRef(id), levels).None?
  {
    hide Child, Unfold;
    var i :| 0 <= i < |path| && path[i] == id;
    CycleHasNoTree(heap, path + [id], i, |path|, levels);
  }

  /** The children seen so far fit, and were counted exactly. */
  ghost predicate ItemsCounted(heap: Heap, items: seq<Value>, i: nat, levels: nat, size: nat, counted: nat) {
    && i <= |items| && UnfoldItems(heap, items[..i], levels).Some?
    && size == 2 + Commas(|items|) + ItemBytes(UnfoldItems(heap, items[..i], levels).value)
    && counted == 1 + ItemNodes(UnfoldItems(heap, items[..i], levels).value)
  }

  ghost predicate EntriesCounted(heap: Heap, entries: seq<(Key, Value)>, i: nat, levels: nat, size: nat, counted: nat) {
    && i <= |entries| && UnfoldEntries(heap, entries[..i], levels).Some?
    && size == 2 + Commas(|entries|) + MemberBytes(UnfoldEntries(heap, entries[..i], levels).value)
    && counted == 1 + MemberNodes(UnfoldEntries(heap, entries[..i], levels).value)
  }

  lemma NextItem(heap: Heap, items: seq<Value>, i: nat, levels: nat, size: nat, counted: nat, tree: Json)
    requires ItemsCounted(heap, items, i, levels, size, counted) && i < |items| && levels > 0
    requires Unfold(heap, items[i], levels - 1) == Some(tree)
    ensures ItemsCounted(heap, items, i + 1, levels, size + |Print(tree)|, counted + Nodes(tree))
  {
    hide Unfold, Print, Nodes;
    assert items[..i + 1][..i] == items[..i];
    var before := UnfoldItems(heap, items[..i], levels).value;
    ItemsMonotone(before + [tree], |before|);
    assert (before + [tree])[..|before|] == before && (before + [tree])[..|before| + 1] == before + [tree];
  }

  lemma NextEntry(heap: Heap, entries: seq<(Key, Value)>, i: nat, levels: nat, size: nat, counted: nat, key: Text, tree: Json)
    requires EntriesCounted(heap, entries, i, levels, size, counted) && i < |entries| && levels > 0
    requires Unfold(heap, entries[i].1, levels - 1) == Some(tree) && Names(entries[i].0, key)
    ensures EntriesCounted(heap, entries, i + 1, levels, size + |Quoted(key)| + 1 + |Print(tree)|, counted + Nodes(tree))
  {
    hide Unfold, Print, Nodes, Quoted;
    assert entries[..i + 1][..i] == entries[..i];
    var before := UnfoldEntries(heap, entries[..i], levels).value;
    var member := Member(key, tree);
    MembersMonotone(before + [member], |before|);
    assert (before + [member])[..|before|] == before && (before + [member])[..|before| + 1] == before + [member];
  }

  /** Once a child or a partial sum is over a limit, the container is. */
  lemma ItemsNeverShrink(heap: Heap, items: seq<Value>, i: nat, levels: nat, size: nat, counted: nat)
    requires ItemsCounted(heap, items, i, levels, size, counted) && i < |items|
    requires UnfoldItems(heap, items, levels).Some?
    ensures var all := UnfoldItems(heap, items, levels).value;
            && levels > 0 && |all| == |items| && Unfold(heap, items[i], levels - 1) == Some(all[i])
            && size + |Print(all[i])| <= |Print(Array(all))|
            && counted + Nodes(all[i]) <= Nodes(Array(all))
  {
    hide Unfold, Print, Nodes;
    ItemsAt(heap, items, levels, i);
    var all := UnfoldItems(heap, items, levels).value;
    ItemsMonotone(all, i);
    ContainerSize(Array(all));
    ArrayNodes(all);
  }

  lemma ArrayNodes(items: seq<Json>)
    ensures Nodes(Array(items)) == 1 + ItemNodes(items)
  {
  }

  lemma EntriesNeverShrink(heap: Heap, entries: seq<(Key, Value)>, i: nat, levels: nat, size: nat, counted: nat)
    requires EntriesCounted(heap, entries, i, levels, size, counted) && i < |entries|
    requires UnfoldEntries(heap, entries, levels).Some?
    ensures var all := UnfoldEntries(heap, entries, levels).value;
            && levels > 0 && |all| == |entries| && Unfold(heap, entries[i].1, levels - 1) == Some(all[i].value)
            && Names(entries[i].0, all[i].key)
            && size + |Quoted(all[i].key)| + 1 + |Print(all[i].value)| <= |Print(Object(all))|
            && counted + Nodes(all[i].value) <= Nodes(Object(all))
  {
    hide Unfold, Print, Nodes, Quoted;
    EntriesAt(heap, entries, levels, i);
    var all := UnfoldEntries(heap, entries, levels).value;
    MembersMonotone(all, i);
    ContainerSize(Object(all));
    ObjectNodes(all);
  }

  lemma ObjectNodes(members: seq<Member>)
    ensures Nodes(Object(members)) == 1 + MemberNodes(members)
  {
  }

  // ----- what the limits say about one visit -----

  /** What one visit must answer: the size and the nodes of an allowed value, and a refusal of any other. */
  ghost predicate Answers(heap: Heap, value: Value, depth: nat, before: nat, after: nat, size: Result<nat, Refusal>) {
    && (size.Success? <==> Allowed(heap, value, depth, before))
    && (size.Success? ==>
          && size.value == |Print(Unfold(heap, value, MAX_DEPTH - depth).value)|
          && after == before + Nodes(Unfold(heap, value, MAX_DEPTH - depth).value))
    && (size == Failure(InvalidResult) ==> depth > MAX_DEPTH || Unfold(heap, value, MAX_DEPTH - depth).None?)
  }

  lemma ListAnswer(heap: Heap, id: nat, items: seq<Value>, depth: nat, before: nat, size: nat, counted: nat)
    requires depth <= MAX_DEPTH && id in heap.containers && heap.containers[id] == Items(items)
    requires ItemsCounted(heap, items, |items|, MAX_DEPTH - depth, size, counted)
    requires size <= MAX_BYTES && before + counted <= MAX_NODES
    ensures Answers(heap, PyRef(id), depth, before, before + counted, Success(size))
  {
    hide UnfoldItems;
    assert items[..|items|] == items;
    var all := UnfoldItems(heap, items, MAX_DEPTH - depth).value;
    ItemsUnfoldWhole(heap, items, MAX_DEPTH - depth);
    ContainerSize(Array(all));
    ArrayNodes(all);
  }

  lemma ItemsUnfoldWhole(heap: Heap, items: seq<Value>, levels: nat)
    requires UnfoldItems(heap, items, levels).Some?
    ensures |UnfoldItems(heap, items, levels).value| == |items|
  {
    if items != [] { ItemsAt(heap, items, levels, 0); }
  }

  lemma EntriesUnfoldWhole(heap: Heap, entries: seq<(Key, Value)>, levels: nat)
    requires UnfoldEntries(heap, entries, levels).Some?
    ensures |UnfoldEntries(heap, entries, levels).value| == |entries|
  {
    if entries != [] { EntriesAt(heap, entries, levels, 0); }
  }

  lemma DictAnswer(heap: Heap, id: nat, entries: seq<(Key, Value)>, depth: nat, before: nat, size: nat, counted: nat)
    requires depth <= MAX_DEPTH && id in heap.containers && heap.containers[id] == Entries(entries)
    requires EntriesCounted(heap, entries, |entries|, MAX_DEPTH - depth, size, counted)
    requires size <= MAX_BYTES && before + counted <= MAX_NODES
    ensures Answers(heap, PyRef(id), depth, before, before + counted, Success(size))
  {
    hide UnfoldEntries;
    assert entries[..|entries|] == entries;
    var all := UnfoldEntries(heap, entries, MAX_DEPTH - depth).value;
    EntriesUnfoldWhole(heap, entries, MAX_DEPTH - depth);
    ContainerSize(Object(all));
    ObjectNodes(all);
  }

  /** A list with more children than nodes are allowed is refused before any is looked at. */
  lemma TooManyChildren(heap: Heap, id: nat, depth: nat, before: nat)
    requires id in heap.containers
    requires match heap.containers[id] case Items(items) => |items| > MAX_NODES case Entries(entries) => |entries| > MAX_NODES
    ensures !Allowed(heap, PyRef(id), depth, before)
  {
    hide UnfoldItems, UnfoldEntries, Print;
    if Allowed(heap, PyRef(id), depth, before) {
      match heap.containers[id]
      case Items(items) =>
        ItemsUnfoldWhole(heap, items, MAX_DEPTH - depth);
        ArrayNodes(UnfoldItems(heap, items, MAX_DEPTH - depth).value);
      case Entries(entries) =>
        EntriesUnfoldWhole(heap, entries, MAX_DEPTH - depth);
        ObjectNodes(UnfoldEntries(heap, entries, MAX_DEPTH - depth).value);
    }
  }

  /** A refused child, or a sum already over the limit, refuses the list. */
  lemma BadItem(heap: Heap, id: nat, items: seq<Value>, i: nat, depth: nat, before: nat, size: nat, counted: nat)
    requires depth <= MAX_DEPTH && id in heap.containers && heap.containers[id] == Items(items) && i < |items|
    requires ItemsCounted(heap, items, i, MAX_DEPTH - depth, size, counted)
    ensures !Allowed(heap, items[i], depth + 1, before + counted) ==> !Allowed(heap, PyRef(id), depth, before)
    ensures (depth == MAX_DEPTH || Unfold(heap, items[i], MAX_DEPTH - depth - 1).None?)
      ==> Unfold(heap, PyRef(id), MAX_DEPTH - depth).None?
    ensures (depth < MAX_DEPTH && Unfold(heap, items[i], MAX_DEPTH - depth - 1).Some?
             && size + |Print(Unfold(heap, items[i], MAX_DEPTH - depth - 1).value)| > MAX_BYTES)
      ==> !Allowed(heap, PyRef(id), depth, before)
  {
    hide UnfoldItems, Print, Nodes, ItemsCounted;
    var levels := MAX_DEPTH - depth;
    if UnfoldItems(heap, items, levels).Some? { ItemsNeverShrink(heap, items, i, levels, size, counted); }
  }

  lemma BadEntry(heap: Heap, id: nat, entries: seq<(Key, Value)>, i: nat, depth: nat, before: nat, size: nat, counted: nat)
    requires depth <= MAX_DEPTH && id in heap.containers && heap.containers[id] == Entries(entries) && i < |entries|
    requires EntriesCounted(heap, entries, i, MAX_DEPTH - depth, size, counted)
    ensures !Allowed(heap, entries[i].1, depth + 1, before + counted) ==> !Allowed(heap, PyRef(id), depth, before)
    ensures (depth == MAX_DEPTH || Unfold(heap, entries[i].1, MAX_DEPTH - depth - 1).None?)
      ==> Unfold(heap, PyRef(id), MAX_DEPTH - depth).None?
    ensures !(entries[i].0.Name? && ValidText(entries[i].0.text)) ==> Unfold(heap, PyRef(id), MAX_DEPTH - depth).None?
    ensures (entries[i].0.Name? && ValidText(entries[i].0.text) && |Quoted(entries[i].0.text)| > MAX_BYTES)
      ==> !Allowed(heap, PyRef(id), depth, before)
    ensures (depth < MAX_DEPTH && Unfold(heap, entries[i].1, MAX_DEPTH - depth - 1).Some?
             && entries[i].0.Name? && ValidText(entries[i].0.text)
             && size + |Quoted(entries[i].0.text)| + 1
                + |Print(Unfold(heap, entries[i].1, MAX_DEPTH - depth - 1).value)| > MAX_BYTES)
      ==> !Allowed(heap, PyRef(id), depth, before)
  {
    hide UnfoldEntries, Print, Nodes, Quoted, EntriesCounted;
    var levels := MAX_DEPTH - depth;
    if UnfoldEntries(heap, entries, levels).Some? { EntriesNeverShrink(heap, entries, i, levels, size, counted); }
  }

  class SizeCounter {
    const heap: Heap
    var nodeCount: nat
    var activeContainers: set<nat>

    constructor (heap: Heap)
      ensures this.heap == heap && nodeCount == 0 && activeContainers == {}
    {
      this.heap, nodeCount, activeContainers := heap, 0, {};
    }

    /** One value. `path` names the containers being visited, outermost first. */
    method Visit(value: Value, depth: nat, ghost path: seq<nat>) returns (size: Result<nat, Refusal>)
      requires depth <= MAX_DEPTH + 1 && nodeCount <= MAX_NODES
      requires LeadsTo(heap, path, value) && activeContainers == set id | id in path
      modifies this
      ensures activeContainers == old(activeContainers)
      ensures size.Success? ==> nodeCount <= MAX_NODES
      ensures Answers(heap, value, depth, old(nodeCount), nodeCount, size)
      decreases MAX_DEPTH + 1 - depth, 1
    {
      hide Print, UnfoldItems, UnfoldEntries, LeadsTo;
      nodeCount := nodeCount + 1;
      if nodeCount > MAX_NODES { return Failure(TooLarge); }
      if depth > MAX_DEPTH { return Failure(InvalidResult); }
      if value.PyOther? { return Failure(InvalidResult); }
      if !value.PyRef? {
        size := ScalarSize(heap, value);
        ScalarNodes(heap, value);
        if size.Success? && size.value > MAX_BYTES { return Failure(TooLarge); }
        return;
      }
      if value.id in activeContainers {
        MetAgain(heap, path, value.id, MAX_DEPTH - depth);
        return Failure(InvalidResult);
      }
      if value.id !in heap.containers { return Failure(InvalidResult); }
      match heap.containers[value.id] {
        case Items(items) =>
          if |items| > MAX_NODES {
            TooManyChildren(heap, value.id, depth, old(nodeCount));
            return Failure(TooLarge);
          }
          size := VisitItems(value.id, items, depth, path, old(nodeCount));
        case Entries(entries) =>
          if |entries| > MAX_NODES {
            TooManyChildren(heap, value.id, depth, old(nodeCount));
            return Failure(TooLarge);
          }
          size := VisitEntries(value.id, entries, depth, path, old(nodeCount));
      }
    }

    /** The elements of a list, whose container is active meanwhile. */
    method VisitItems(id: nat, items: seq<Value>, depth: nat, ghost path: seq<nat>, ghost before: nat)
      returns (size: Result<nat, Refusal>)
      requires depth <= MAX_DEPTH && nodeCount == before + 1 <= MAX_NODES
      requires id in heap.containers && heap.containers[id] == Items(items) && |items| <= MAX_NODES
      requires LeadsTo(heap, path, PyRef(id)) && activeContainers == (set x | x in path) && id !in path
      modifies this
      ensures activeContainers == old(activeContainers)
      ensures size.Success? ==> nodeCount <= MAX_NODES
      ensures Answers(heap, PyRef(id), depth, before, nodeCount, size)
      decreases MAX_DEPTH + 1 - depth, 0
    {
      hide Print, Unfold, UnfoldItems, UnfoldEntries, LeadsTo, ItemsCounted, Nodes;
      activeContainers := activeContainers + {id};
      ghost var inside := path + [id];
      assert (set x | x in inside) == activeContainers;
      var count: nat := 2 + Commas(|items|);
      ghost var counted: nat := 1;
      NoItems(heap, items, MAX_DEPTH - depth);
      var i := 0;
      while i < |items|
        invariant 0 <= i <= |items|
        invariant activeContainers == old(activeContainers) + {id} == set x | x in inside
        invariant ItemsCounted(heap, items, i, MAX_DEPTH - depth, count, counted)
        invariant count <= MAX_BYTES && nodeCount == before + counted <= MAX_NODES
      {
        LeadsOn(heap, path, id, items[i]);
        BadItem(heap, id, items, i, depth, before, count, counted);
        var child := Visit(items[i], depth + 1, inside);
        if child.Failure? {
          activeContainers := activeContainers - {id};
          return child;
        }
        ghost var tree := Unfold(heap, items[i], MAX_DEPTH - depth - 1).value;
        NextItem(heap, items, i, MAX_DEPTH - depth, count, counted, tree);
        counted := counted + Nodes(tree);
        count := count + child.value;
        if count > MAX_BYTES {
          activeContainers := activeContainers - {id};
          return Failure(TooLarge);
        }
        i := i + 1;
      }
      activeContainers := activeContainers - {id};
      ListAnswer(heap, id, items, depth, before, count, counted);
      size := Success(count);
    }

    /** The members of a dictionary: each key is measured before its value is visited. */
    method VisitEntries(id: nat, entries: seq<(Key, Value)>, depth: nat, ghost path: seq<nat>, ghost before: nat)
      returns (size: Result<nat, Refusal>)
      requires depth <= MAX_DEPTH && nodeCount == before + 1 <= MAX_NODES
      requires id in heap.containers && heap.containers[id] == Entries(entries) && |entries| <= MAX_NODES
      requires LeadsTo(heap, path, PyRef(id)) && activeContainers == (set x | x in path) && id !in path
      modifies this
      ensures activeContainers == old(activeContainers)
      ensures size.Success? ==> nodeCount <= MAX_NODES
      ensures Answers(heap, PyRef(id), depth, before, nodeCount, size)
      decreases MAX_DEPTH + 1 - depth, 0
    {
      hide Print, Unfold, UnfoldItems, UnfoldEntries, LeadsTo, EntriesCounted, Nodes, Quoted;
      activeContainers := activeContainers + {id};
      ghost var inside := path + [id];
      assert (set x | x in inside) == activeContainers;
      var count: nat := 2 + Commas(|entries|);
      ghost var counted: nat := 1;
      NoEntries(heap, entries, MAX_DEPTH - depth);
      var i := 0;
      while i < |entries|
        invariant 0 <= i <= |entries|
        invariant activeContainers == old(activeContainers) + {id} == set x | x in inside
        invariant EntriesCounted(heap, entries, i, MAX_DEPTH - depth, count, counted)
        invariant count <= MAX_BYTES && nodeCount == before + counted <= MAX_NODES
      {
        LeadsOn(heap, path, id, entries[i].1);
        BadEntry(heap, id, entries, i, depth, before, count, counted);
        if !entries[i].0.Name? {
          activeContainers := activeContainers - {id};
          return Failure(InvalidResult);
        }
        var key := TextSize(entries[i].0.text);
        if key.Failure? {
          activeContainers := activeContainers - {id};
          return key;
        }
        var child := Visit(entries[i].1, depth + 1, inside);
        if child.Failure? {
          activeContainers := activeContainers - {id};
          return child;
        }
        ghost var tree := Unfold(heap, entries[i].1, MAX_DEPTH - depth - 1).value;
        NextEntry(heap, entries, i, MAX_DEPTH - depth, count, counted, entries[i].0.text, tree);
        counted := counted + Nodes(tree);
        count := count + key.value + 1 + child.value;
        if count > MAX_BYTES {
          activeContainers := activeContainers - {id};
          return Failure(TooLarge);
        }
        i := i + 1;
      }
      activeContainers := activeContainers - {id};
      DictAnswer(heap, id, entries, depth, before, count, counted);
      size := Success(count);
    }
  }

  lemma NoItems(heap: Heap, items: seq<Value>, levels: nat)
    ensures ItemsCounted(heap, items, 0, levels, 2 + Commas(|items|), 1)
  {
    assert items[..0] == [];
  }

  lemma NoEntries(heap: Heap, entries: seq<(Key, Value)>, levels: nat)
    ensures EntriesCounted(heap, entries, 0, levels, 2 + Commas(|entries|), 1)
  {
    assert entries[..0] == [];
  }

  lemma ScalarNodes(heap: Heap, value: Value)
    ensures Scalar(heap, value).Some? ==> Nodes(Scalar(heap, value).value) == 1
  {
  }

  /** Main size result: a value is accepted exactly when it stands for a JSON tree of at most 32 levels, 100000 nodes and
      4 MiB of compact UTF-8 text, and the answer is the exact length of that text. */
  method BoundedJsonResultSize(heap: Heap, value: Value) returns (size: Result<nat, Refusal>)
    ensures size.Success? <==>
      exists tree :: Represents(heap, value, tree) && Depth(tree) <= MAX_DEPTH && Nodes(tree) <= MAX_NODES
                     && |Print(tree)| <= MAX_BYTES
    ensures forall tree :: size.Success? && Represents(heap, value, tree) && Depth(tree) <= MAX_DEPTH ==> size.value == |Print(tree)|
    ensures size == Failure(InvalidResult) ==> forall tree :: Represents(heap, value, tree) ==> Depth(tree) > MAX_DEPTH
  {
    hide Print, Nodes, Depth, Unfold, Represents;
    var counter := new SizeCounter(heap);
    size := counter.Visit(value, 0, []);
    forall tree
      ensures Unfold(heap, value, MAX_DEPTH) == Some(tree) <==> Represents(heap, value, tree) && Depth(tree) <= MAX_DEPTH
    {
      UnfoldIsTheTree(heap, value, MAX_DEPTH, tree);
    }
    assert forall tree :: size.Success? && Unfold(heap, value, MAX_DEPTH) == Some(tree) ==> Represents(heap, value, tree);
    if size.Success? {
      ghost var tree := Unfold(heap, value, MAX_DEPTH).value;
      assert Represents(heap, value, tree) && Depth(tree) <= MAX_DEPTH;
    }
  }
}
