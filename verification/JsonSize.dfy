/** The early-exit size count of a tool result, over an object graph that may share containers or contain itself. */
module JsonSize {
  import opened Wrappers
  import opened Bytes
  import opened JsonText
  import Utf8

  const MAX_BYTES: nat := 4 * MEBIBYTE
  const MAX_NODES: nat := 100000
  const MAX_DEPTH: nat := 32

  type CodePoint = c: int | 0 <= c <= 0x10FFFF

  /** A value as the server's library hands it over: containers are references. `shown` is missing for a float that is
      not finite. */
  datatype Value =
    | PyNone
    | PyBool(b: bool)
    | PyStr(text: seq<CodePoint>)
    | PyInt(n: int)
    | PyFloat(shown: Option<seq<Byte>>)
    | PyRef(id: nat)
    | PyOther

  datatype Key = Name(text: seq<CodePoint>) | OtherKey

  datatype Container = Items(items: seq<Value>) | Entries(entries: seq<(Key, Value)>)

  /** `digits` is the interpreter's limit on the digits of a printed integer, when one is set. */
  datatype Heap = Heap(containers: map<nat, Container>, digits: Option<nat>)

  // ----- the tree a value stands for -----

  predicate ValidText(text: seq<CodePoint>) {
    forall i | 0 <= i < |text| :: Utf8.Scalar(text[i])
  }

  function Scalar(heap: Heap, value: Value): Option<Json> {
    match value
    case PyNone => Some(Null)
    case PyBool(b) => Some(Truth(b))
    case PyStr(text) => if ValidText(text) then Some(Str(text)) else None
    case PyInt(n) =>
      if heap.digits.Some? && |Digits(Magnitude(n))| > heap.digits.value then None else Some(Int(n))
    case PyFloat(shown) => if shown.Some? then Some(Float(shown.value)) else None
    case PyRef(_) => None
    case PyOther => None
  }

  /** The tree, when the value is one that is at most `levels` deep and valid throughout. */
  function Unfold(heap: Heap, value: Value, levels: nat): Option<Json>
    decreases levels, 1, 0
  {
    if !value.PyRef? then Scalar(heap, value)
    else if value.id !in heap.containers then None
    else match heap.containers[value.id]
      case Items(items) =>
        (match UnfoldItems(heap, items, levels) case None => None case Some(trees) => Some(Array(trees)))
      case Entries(entries) =>
        (match UnfoldEntries(heap, entries, levels) case None => None case Some(members) => Some(Object(members)))
  }

  function UnfoldItems(heap: Heap, items: seq<Value>, levels: nat): Option<seq<Json>>
    decreases levels, 0, |items|
  {
    if items == [] then Some([])
    else if levels == 0 then None
    else
      var before, last := UnfoldItems(heap, items[..|items| - 1], levels), Unfold(heap, items[|items| - 1], levels - 1);
      if before.None? || last.None? then None else Some(before.value + [last.value])
  }

  function UnfoldEntries(heap: Heap, entries: seq<(Key, Value)>, levels: nat): Option<seq<Member>>
    decreases levels, 0, |entries|
  {
    if entries == [] then Some([])
    else if levels == 0 then None
    else
      var entry := entries[|entries| - 1];
      var before, last := UnfoldEntries(heap, entries[..|entries| - 1], levels), Unfold(heap, entry.1, levels - 1);
      if before.None? || last.None? || !entry.0.Name? || !ValidText(entry.0.text) then None
      else Some(before.value + [Member(entry.0.text, last.value)])
  }

  predicate Names(key: Key, text: Text) {
    key.Name? && ValidText(key.text) && key.text == text
  }

  /** `tree` is what the value stands for, however deep. */
  ghost predicate Represents(heap: Heap, value: Value, tree: Json)
    decreases tree
  {
    match tree
    case Array(items) =>
      && value.PyRef? && value.id in heap.containers && heap.containers[value.id].Items?
      && |heap.containers[value.id].items| == |items|
      && forall i | 0 <= i < |items| :: Represents(heap, heap.containers[value.id].items[i], items[i])
    case Object(members) =>
      && value.PyRef? && value.id in heap.containers && heap.containers[value.id].Entries?
      && |heap.containers[value.id].entries| == |members|
      && forall i | 0 <= i < |members| ::
           && Names(heap.containers[value.id].entries[i].0, members[i].key)
           && Represents(heap, heap.containers[value.id].entries[i].1, members[i].value)
    case _ => Scalar(heap, value) == Some(tree)
  }

  /** What the limits allow. */
  predicate Allowed(heap: Heap, value: Value, depth: nat, count: nat) {
    && depth <= MAX_DEPTH && Unfold(heap, value, MAX_DEPTH - depth).Some?
    && |Print(Unfold(heap, value, MAX_DEPTH - depth).value)| <= MAX_BYTES
    && count + Nodes(Unfold(heap, value, MAX_DEPTH - depth).value) <= MAX_NODES
  }
}
