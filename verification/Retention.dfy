/** The backup retention planner: three stable sorts, then one scan that counts within each path. */
module Retention {
  import opened Wrappers

  // ----- text order -----

  type Text = seq<nat>

  /** Code-point order, as strings compare. */
  predicate Less(a: Text, b: Text) {
    b != [] && (a == [] || a[0] < b[0] || (a[0] == b[0] && Less(a[1..], b[1..])))
  }

  lemma {:induction false} LessIsTotal(a: Text, b: Text)
    ensures Less(a, b) || Less(b, a) || a == b
    ensures !(Less(a, b) && Less(b, a)) && !Less(a, a)
  {
    if a != [] && b != [] {
      LessIsTotal(a[1..], b[1..]);
      assert a == [a[0]] + a[1..] && b == [b[0]] + b[1..];
    }
    if a != [] { LessIsTotal(a[1..], a[1..]); }
  }

  lemma {:induction false} LessIsTransitive(a: Text, b: Text, c: Text)
    requires Less(a, b) && Less(b, c)
    ensures Less(a, c)
  {
    if a != [] && a[0] == b[0] == c[0] { LessIsTransitive(a[1..], b[1..], c[1..]); }
  }

  // ----- stable sorting -----

  function Insert<T>(x: T, sorted: seq<T>, before: (T, T) -> bool): seq<T> {
    if sorted == [] || !before(sorted[0], x) then [x] + sorted else [sorted[0]] + Insert(x, sorted[1..], before)
  }

  /** A stable sort: what comes first among equals stays first. */
  function Sort<T>(xs: seq<T>, before: (T, T) -> bool): seq<T> {
    if xs == [] then [] else Insert(xs[0], Sort(xs[1..], before), before)
  }

  ghost predicate Pairwise<T(!new)>(s: seq<T>, r: (T, T) -> bool) {
    forall i, j | 0 <= i < j < |s| :: r(s[i], s[j])
  }

  /** A weak order given by its strict part. */
  ghost predicate WeakOrder<T(!new)>(before: (T, T) -> bool) {
    && (forall a, b :: !(before(a, b) && before(b, a)))
    && (forall a, b, c :: before(a, b) && before(b, c) ==> before(a, c))
    && (forall a, b, c :: !before(a, b) && !before(b, c) ==> !before(a, c))
  }

  /** First by one order, and among its equals by another relation. */
  function Refine<T>(before: (T, T) -> bool, r: (T, T) -> bool): (T, T) -> bool {
    (a, b) => before(a, b) || (!before(b, a) && r(a, b))
  }

  lemma NotBefore<T(!new)>(first: T, later: T, x: T, before: (T, T) -> bool, r: (T, T) -> bool)
    requires WeakOrder(before) && Refine(before, r)(first, later) && !before(first, x)
    ensures !before(later, x)
  {
  }

  lemma InsertFront<T(!new)>(x: T, sorted: seq<T>, before: (T, T) -> bool, r: (T, T) -> bool)
    requires WeakOrder(before) && Pairwise(sorted, Refine(before, r))
    requires forall y | y in sorted :: r(x, y)
    requires sorted == [] || !before(sorted[0], x)
    ensures Pairwise([x] + sorted, Refine(before, r))
  {
    forall y | y in sorted ensures Refine(before, r)(x, y) {
      var j :| 0 <= j < |sorted| && sorted[j] == y;
      if j > 0 { NotBefore(sorted[0], y, x, before, r); }
    }
  }

  lemma InsertMembers<T(!new)>(x: T, sorted: seq<T>, before: (T, T) -> bool)
    ensures multiset(Insert(x, sorted, before)) == multiset(sorted) + multiset{x}
    ensures forall y | y in Insert(x, sorted, before) :: y == x || y in sorted
  {
    if sorted == [] || !before(sorted[0], x) {
    } else {
      InsertMembers(x, sorted[1..], before);
      assert sorted == [sorted[0]] + sorted[1..];
    }
  }

  lemma {:induction false} InsertKeeps<T(!new)>(x: T, sorted: seq<T>, before: (T, T) -> bool, r: (T, T) -> bool)
    requires WeakOrder(before) && Pairwise(sorted, Refine(before, r))
    requires forall y | y in sorted :: r(x, y)
    ensures Pairwise(Insert(x, sorted, before), Refine(before, r))
  {
    hide WeakOrder;
    if sorted == [] || !before(sorted[0], x) {
      InsertFront(x, sorted, before, r);
    } else {
      var first, rest := sorted[0], sorted[1..];
      assert forall y | y in rest :: y in sorted;
      InsertKeeps(x, rest, before, r);
      InsertMembers(x, rest, before);
      var more := Insert(x, rest, before);
      forall y | y in more ensures Refine(before, r)(first, y) {
        if y != x {
          var k :| 0 <= k < |rest| && rest[k] == y;
          assert Refine(before, r)(sorted[0], sorted[k + 1]);
        }
      }
    }
  }

  lemma {:induction false} SortKeeps<T(!new)>(xs: seq<T>, before: (T, T) -> bool, r: (T, T) -> bool)
    requires WeakOrder(before) && Pairwise(xs, r)
    ensures Pairwise(Sort(xs, before), Refine(before, r))
    ensures multiset(Sort(xs, before)) == multiset(xs)
  {
    if xs != [] {
      SortKeeps(xs[1..], before, r);
      assert xs == [xs[0]] + xs[1..];
      var sorted := Sort(xs[1..], before);
      forall y | y in sorted ensures r(xs[0], y) {
        assert y in multiset(sorted);
        assert y in xs[1..];
      }
      InsertKeeps(xs[0], sorted, before, r);
      InsertMembers(xs[0], sorted, before);
    }
  }

  // ----- the planner's order -----

  datatype Record = Record(id: Text, createdAt: Text, path: Text)

  /** A record with its position in the request. No comparison looks at the position; it only tells records apart. */
  datatype Item = Item(record: Record, position: nat)

  function ById(): (Item, Item) -> bool { (a: Item, b: Item) => Less(b.record.id, a.record.id) }

  function ByCreatedAt(): (Item, Item) -> bool { (a: Item, b: Item) => Less(b.record.createdAt, a.record.createdAt) }

  function ByPath(): (Item, Item) -> bool { (a: Item, b: Item) => Less(a.record.path, b.record.path) }

  function ByPosition(): (Item, Item) -> bool { (a: Item, b: Item) => a.position < b.position }

  /** Newer: a later createdAt text, then a later id, then an earlier place in the request. */
  predicate Newer(a: Item, b: Item) {
    || Less(b.record.createdAt, a.record.createdAt)
    || (a.record.createdAt == b.record.createdAt
        && (Less(b.record.id, a.record.id) || (a.record.id == b.record.id && a.position < b.position)))
  }

  predicate Precedes(a: Item, b: Item) {
    Less(a.record.path, b.record.path) || (a.record.path == b.record.path && Newer(a, b))
  }

  function Indexed(records: seq<Record>): (items: seq<Item>)
    ensures |items| == |records| && forall i | 0 <= i < |items| :: items[i] == Item(records[i], i)
  {
    seq(|records|, i requires 0 <= i < |records| => Item(records[i], i))
  }

  lemma TextsAreWeaklyOrdered()
    ensures forall a, b :: !(Less(a, b) && Less(b, a))
    ensures forall a, b, c :: Less(a, b) && Less(b, c) ==> Less(a, c)
    ensures forall a, b, c :: !Less(a, b) && !Less(b, c) ==> !Less(a, c)
    ensures forall a, b :: !Less(a, b) && !Less(b, a) ==> a == b
  {
    forall a, b ensures !(Less(a, b) && Less(b, a)) && (!Less(a, b) && !Less(b, a) ==> a == b) { LessIsTotal(a, b); }
    forall a, b, c ensures Less(a, b) && Less(b, c) ==> Less(a, c) {
      if Less(a, b) && Less(b, c) { LessIsTransitive(a, b, c); }
    }
    forall a, b, c ensures !Less(a, b) && !Less(b, c) ==> !Less(a, c) {
      LessIsTotal(a, b);
      LessIsTotal(b, c);
      if Less(a, c) && !Less(a, b) && !Less(b, c) {
        if Less(b, a) { LessIsTransitive(b, a, c); }
      }
    }
  }

  lemma KeysAreWeakOrders()
    ensures WeakOrder(ById()) && WeakOrder(ByCreatedAt()) && WeakOrder(ByPath())
  {
    hide Less;
    TextsAreWeaklyOrdered();
  }

  function Ordered(records: seq<Record>): seq<Item> {
    Sort(Sort(Sort(Indexed(records), ById()), ByCreatedAt()), ByPath())
  }

  /** Main sorting result: the three stable sorts, least important key first, give one list ordered by path, then by
      age, then by id, then by place in the request. */
  lemma OrderedIsTotal(records: seq<Record>)
    ensures multiset(Ordered(records)) == multiset(Indexed(records))
    ensures forall i, j | 0 <= i < j < |Ordered(records)| :: Precedes(Ordered(records)[i], Ordered(records)[j])
  {
    hide Less, Sort, WeakOrder;
    KeysAreWeakOrders();
    var items := Indexed(records);
    SortKeeps(items, ById(), ByPosition());
    var byId := Sort(items, ById());
    SortKeeps(byId, ByCreatedAt(), Refine(ById(), ByPosition()));
    var byAge := Sort(byId, ByCreatedAt());
    SortKeeps(byAge, ByPath(), Refine(ByCreatedAt(), Refine(ById(), ByPosition())));
    var ordered := Sort(byAge, ByPath());
    TextsAreWeaklyOrdered();
    forall i, j | 0 <= i < j < |ordered| ensures Precedes(ordered[i], ordered[j]) {
      assert Refine(ByPath(), Refine(ByCreatedAt(), Refine(ById(), ByPosition())))(ordered[i], ordered[j]);
    }
  }

  // ----- the plan -----

  /** `keepLatest` and `olderThanDays` are each optional; a creation time that cannot be read is never old. */
  datatype Rules = Rules(keepLatest: Option<int>, olderThanDays: Option<nat>, now: int)

  function Cutoff(rules: Rules): int
    requires rules.olderThanDays.Some?
  {
    var at := rules.now - rules.olderThanDays.value * 86400;
    if at < 0 then 0 else at
  }

  predicate OldEnough(rules: Rules, created: Option<nat>) {
    rules.olderThanDays.Some? && created.Some? && created.value < Cutoff(rules)
  }

  predicate IsCandidate(rules: Rules, indexInPath: nat, created: Option<nat>) {
    var beyondKeep := rules.keepLatest.Some? && indexInPath >= rules.keepLatest.value;
    if rules.keepLatest.Some? && rules.olderThanDays.Some? then beyondKeep && OldEnough(rules, created)
    else if rules.keepLatest.Some? then beyondKeep
    else OldEnough(rules, created)
  }

  /** How many earlier items of the list have the same path as item p. */
  function Earlier(ordered: seq<Item>, path: Text): nat {
    if ordered == [] then 0
    else Earlier(ordered[..|ordered| - 1], path) + if ordered[|ordered| - 1].record.path == path then 1 else 0
  }

  /** How many records of the same path are newer. */
  ghost function Rank(records: seq<Record>, i: nat): nat
    requires i < |records|
  {
    |set j | 0 <= j < |records| && records[j].path == records[i].path && Newer(Item(records[j], j), Item(records[i], i))|
  }

  function Chosen(ordered: seq<Item>, rules: Rules, parse: Text -> Option<nat>): seq<Item> {
    if ordered == [] then []
    else
      var head, last := ordered[..|ordered| - 1], ordered[|ordered| - 1];
      Chosen(head, rules, parse)
      + if IsCandidate(rules, Earlier(head, last.record.path), parse(last.record.createdAt)) then [last] else []
  }

  /** The positions of the items before p that have the path. */
  ghost function Positions(ordered: seq<Item>, p: nat, path: Text): set<nat> {
    set q | 0 <= q < |ordered| && q < p && ordered[q].record.path == path :: ordered[q].position
  }

  lemma {:induction false} EarlierCounts(ordered: seq<Item>, p: nat)
    requires p <= |ordered| && forall i, j | 0 <= i < j < |ordered| :: ordered[i].position != ordered[j].position
    ensures forall path :: Earlier(ordered[..p], path) == |Positions(ordered, p, path)|
  {
    if p == 0 {
      assert ordered[..0] == [];
    } else {
      EarlierCounts(ordered, p - 1);
      assert ordered[..p][..p - 1] == ordered[..p - 1];
      forall path ensures Earlier(ordered[..p], path) == |Positions(ordered, p, path)| {
        var before, now := Positions(ordered, p - 1, path), Positions(ordered, p, path);
        assert now == if ordered[p - 1].record.path == path then before + {ordered[p - 1].position} else before;
      }
    }
  }

  lemma OrderedPositions(records: seq<Record>)
    ensures var ordered := Ordered(records);
            && |ordered| == |records|
            && (forall p | 0 <= p < |ordered| :: ordered[p].position < |records| && ordered[p] == Item(records[ordered[p].position], ordered[p].position))
            && (forall p, q | 0 <= p < q < |ordered| :: ordered[p].position != ordered[q].position)
            && (forall i: nat | i < |records| :: Item(records[i], i) in ordered)
  {
    hide Ordered, Less, Newer;
    OrderedIsTotal(records);
    var ordered, items := Ordered(records), Indexed(records);
    assert |multiset(ordered)| == |ordered| && |multiset(items)| == |items|;
    forall p | 0 <= p < |ordered|
      ensures ordered[p].position < |records| && ordered[p] == Item(records[ordered[p].position], ordered[p].position)
    {
      assert ordered[p] in multiset(ordered);
      assert ordered[p] in items;
    }
    forall p, q | 0 <= p < q < |ordered| ensures ordered[p].position != ordered[q].position {
      NeverPrecedesItself(ordered[p]);
      assert Precedes(ordered[p], ordered[q]);
    }
    forall i: nat | i < |records| ensures Item(records[i], i) in ordered {
      assert items[i] in multiset(items);
    }
  }

  lemma NeverPrecedesItself(a: Item)
    ensures !Precedes(a, a)
  {
    LessIsTotal(a.record.path, a.record.path);
    LessIsTotal(a.record.createdAt, a.record.createdAt);
    LessIsTotal(a.record.id, a.record.id);
  }

  lemma PrecedesIsStrict(a: Item, b: Item)
    ensures !(Precedes(a, b) && Precedes(b, a))
  {
    hide Less;
    TextsAreWeaklyOrdered();
  }

  lemma EarlierInList(ordered: seq<Item>, p: nat, q: nat)
    requires p < |ordered| && q < |ordered| && Precedes(ordered[q], ordered[p])
    requires forall i, j | 0 <= i < j < |ordered| :: Precedes(ordered[i], ordered[j])
    ensures q < p
  {
    hide Precedes;
    NeverPrecedesItself(ordered[p]);
    PrecedesIsStrict(ordered[q], ordered[p]);
  }

  /** The number of earlier items of the same path is the number of newer records of that path. */
  lemma EarlierIsRank(records: seq<Record>, p: nat)
    requires p < |Ordered(records)|
    ensures Ordered(records)[p].position < |records|
    ensures Earlier(Ordered(records)[..p], Ordered(records)[p].record.path) == Rank(records, Ordered(records)[p].position)
  {
    hide Ordered, Less, Newer, Earlier;
    var ordered := Ordered(records);
    OrderedPositions(records);
    OrderedIsTotal(records);
    EarlierCounts(ordered, p);
    var item := ordered[p];
    var i := item.position;
    var earlier := Positions(ordered, p, item.record.path);
    var newer := set j | 0 <= j < |records| && records[j].path == records[i].path && Newer(Item(records[j], j), Item(records[i], i));
    forall j | j in earlier ensures j in newer {
      var q :| 0 <= q < |ordered| && q < p && ordered[q].record.path == item.record.path && ordered[q].position == j;
      assert Precedes(ordered[q], ordered[p]);
      LessIsTotal(item.record.path, item.record.path);
    }
    forall j | j in newer ensures j in earlier {
      var other := Item(records[j], j);
      assert other in ordered;
      var q :| 0 <= q < |ordered| && ordered[q] == other;
      assert Precedes(other, item);
      EarlierInList(ordered, p, q);
    }
    assert earlier == newer;
  }

  /** One scan over the ordered list, counting from zero whenever the path changes. */
  method Scan(ordered: seq<Item>, rules: Rules, parse: Text -> Option<nat>) returns (candidates: seq<Item>)
    requires forall i, j | 0 <= i < j < |ordered| :: Precedes(ordered[i], ordered[j])
    ensures candidates == Chosen(ordered, rules, parse)
  {
    hide IsCandidate, Less, Newer;
    candidates := [];
    var previousPath: Option<Text> := None;
    var indexInPath := 0;
    var p := 0;
    while p < |ordered|
      invariant 0 <= p <= |ordered|
      invariant candidates == Chosen(ordered[..p], rules, parse)
      invariant p == 0 ==> previousPath.None?
      invariant p > 0 ==> previousPath == Some(ordered[p - 1].record.path)
                          && indexInPath == Earlier(ordered[..p], ordered[p - 1].record.path)
    {
      var item := ordered[p];
      assert ordered[..p + 1][..p] == ordered[..p];
      if Some(item.record.path) != previousPath {
        NewPath(ordered, p);
        previousPath := Some(item.record.path);
        indexInPath := 0;
      }
      if IsCandidate(rules, indexInPath, parse(item.record.createdAt)) { candidates := candidates + [item]; }
      indexInPath := indexInPath + 1;
      p := p + 1;
    }
    assert ordered[..p] == ordered;
  }

  /** Paths come in runs: a path that differs from the one before has not been seen at all. */
  lemma NewPath(ordered: seq<Item>, p: nat)
    requires p < |ordered| && forall i, j | 0 <= i < j < |ordered| :: Precedes(ordered[i], ordered[j])
    requires p > 0 ==> ordered[p - 1].record.path != ordered[p].record.path
    ensures Earlier(ordered[..p], ordered[p].record.path) == 0
  {
    hide Less, Newer;
    TextsAreWeaklyOrdered();
    forall q | 0 <= q < p ensures ordered[q].record.path != ordered[p].record.path {
      assert Precedes(ordered[p - 1], ordered[p]);
      if q < p - 1 { assert Precedes(ordered[q], ordered[p - 1]); }
    }
    NoneEarlier(ordered[..p], ordered[p].record.path);
  }

  lemma {:induction false} NoneEarlier(ordered: seq<Item>, path: Text)
    requires forall q | 0 <= q < |ordered| :: ordered[q].record.path != path
    ensures Earlier(ordered, path) == 0
  {
    if ordered != [] { NoneEarlier(ordered[..|ordered| - 1], path); }
  }

  lemma {:induction false} ChosenMeans(ordered: seq<Item>, rules: Rules, parse: Text -> Option<nat>, p: nat)
    requires p <= |ordered| && forall i, j | 0 <= i < j < |ordered| :: ordered[i].position != ordered[j].position
    ensures |Chosen(ordered[..p], rules, parse)| <= p
    ensures forall item | item in Chosen(ordered[..p], rules, parse) :: item in ordered[..p]
    ensures forall q | 0 <= q < p ::
      ordered[q] in Chosen(ordered[..p], rules, parse)
      <==> IsCandidate(rules, Earlier(ordered[..q], ordered[q].record.path), parse(ordered[q].record.createdAt))
    ensures forall i, j | 0 <= i < j < |Chosen(ordered[..p], rules, parse)| ::
      Chosen(ordered[..p], rules, parse)[i].position != Chosen(ordered[..p], rules, parse)[j].position
  {
    hide IsCandidate, Earlier;
    if p > 0 {
      assert ordered[..p][..p - 1] == ordered[..p - 1];
      ChosenMeans(ordered, rules, parse, p - 1);
      var before := Chosen(ordered[..p - 1], rules, parse);
      forall item | item in before ensures item.position != ordered[p - 1].position {
        var q :| 0 <= q < p - 1 && ordered[q] == item;
      }
    } else {
      assert ordered[..0] == [];
    }
  }

  /** The planner. `picked` names the candidates by their place in the request. */
  method RetentionCandidates(records: seq<Record>, rules: Rules, parse: Text -> Option<nat>)
    returns (candidates: seq<Record>, kept: int, ghost picked: seq<nat>)
    ensures |candidates| == |picked| <= |records| && kept == |records| - |candidates|
    ensures forall i, j | 0 <= i < j < |picked| :: picked[i] != picked[j]
    ensures forall k | 0 <= k < |picked| :: picked[k] < |records| && candidates[k] == records[picked[k]]
    ensures forall i: nat | i < |records| ::
      i in picked <==> IsCandidate(rules, Rank(records, i), parse(records[i].createdAt))
  {
    hide IsCandidate, Ordered, Less, Newer, Chosen, Rank, Precedes;
    var ordered := Ordered(records);
    OrderedIsTotal(records);
    OrderedPositions(records);
    var chosen := Scan(ordered, rules, parse);
    assert ordered[..|ordered|] == ordered;
    ChosenMeans(ordered, rules, parse, |ordered|);
    candidates := seq(|chosen|, k requires 0 <= k < |chosen| => chosen[k].record);
    picked := seq(|chosen|, k requires 0 <= k < |chosen| => chosen[k].position);
    kept := |ordered| - |candidates|;
    forall k | 0 <= k < |picked| ensures picked[k] < |records| && candidates[k] == records[picked[k]] {
      assert chosen[k] in chosen;
    }
    forall i: nat | i < |records| ensures i in picked <==> IsCandidate(rules, Rank(records, i), parse(records[i].createdAt)) {
      PickedIsChosen(records, chosen, picked, i);
      ChosenByRank(records, rules, parse, i);
    }
  }

  lemma PickedIsChosen(records: seq<Record>, chosen: seq<Item>, picked: seq<nat>, i: nat)
    requires i < |records| && |picked| == |chosen|
    requires forall k | 0 <= k < |picked| :: picked[k] == chosen[k].position
    requires forall item | item in chosen :: item.position < |records| && item == Item(records[item.position], item.position)
    ensures i in picked <==> Item(records[i], i) in chosen
  {
    if i in picked {
      var k :| 0 <= k < |picked| && picked[k] == i;
      assert chosen[k] in chosen;
    }
    if Item(records[i], i) in chosen {
      var k :| 0 <= k < |chosen| && chosen[k] == Item(records[i], i);
      assert picked[k] == i;
    }
  }

  lemma ChosenByRank(records: seq<Record>, rules: Rules, parse: Text -> Option<nat>, i: nat)
    requires i < |records|
    ensures Item(records[i], i) in Chosen(Ordered(records), rules, parse)
      <==> IsCandidate(rules, Rank(records, i), parse(records[i].createdAt))
  {
    hide IsCandidate, Ordered, Less, Newer, Chosen, Rank;
    var ordered := Ordered(records);
    OrderedPositions(records);
    assert ordered[..|ordered|] == ordered;
    ChosenMeans(ordered, rules, parse, |ordered|);
    var p :| 0 <= p < |ordered| && ordered[p] == Item(records[i], i);
    EarlierIsRank(records, p);
  }

  // ----- what the plan keeps -----

  lemma {:induction false} RankReached(ordered: seq<Item>, path: Text, rank: nat) returns (p: nat)
    requires rank < Earlier(ordered, path)
    ensures p < |ordered| && ordered[p].record.path == path && Earlier(ordered[..p], path) == rank
  {
    var head := ordered[..|ordered| - 1];
    if rank < Earlier(head, path) {
      p := RankReached(head, path, rank);
      assert head[..p] == ordered[..p];
    } else {
      p := |ordered| - 1;
    }
  }

  /** How many records have the path. */
  ghost function Versions(records: seq<Record>, path: Text): nat {
    |set i | 0 <= i < |records| && records[i].path == path|
  }

  lemma AllVersions(records: seq<Record>, path: Text)
    ensures Earlier(Ordered(records), path) == Versions(records, path)
  {
    hide Ordered;
    var ordered := Ordered(records);
    OrderedPositions(records);
    EarlierCounts(ordered, |ordered|);
    assert ordered[..|ordered|] == ordered;
    var versions := set i | 0 <= i < |records| && records[i].path == path;
    forall i | i in versions ensures i in Positions(ordered, |ordered|, path) {
      assert Item(records[i], i) in ordered;
      var q :| 0 <= q < |ordered| && ordered[q] == Item(records[i], i);
    }
    assert versions == Positions(ordered, |ordered|, path);
  }

  /** Main retention result: with k newest backups to keep, every path keeps its newest, its second newest, and so on up
      to the k-th or the last it has, whatever the age rule says. */
  lemma NewestAreKept(records: seq<Record>, rules: Rules, parse: Text -> Option<nat>, path: Text, rank: nat) returns (i: nat)
    requires rules.keepLatest.Some? && rank < rules.keepLatest.value && rank < Versions(records, path)
    ensures i < |records| && records[i].path == path && Rank(records, i) == rank
    ensures !IsCandidate(rules, Rank(records, i), parse(records[i].createdAt))
  {
    hide Ordered, Rank, Versions;
    AllVersions(records, path);
    OrderedPositions(records);
    var p := RankReached(Ordered(records), path, rank);
    EarlierIsRank(records, p);
    i := Ordered(records)[p].position;
  }
}
