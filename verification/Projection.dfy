/** The bounded projection of a conversation: the newest turns verbatim, older ones as an archive of excerpts. */
module Projection {
  import opened Wrappers
  import opened Transcript

  const SMALLEST: int := 1024
  const SUMMARY_LIMIT: nat := 24576
  const MARGIN: nat := 1024

  function Trigger(max: nat): nat { 4 * max / 5 }

  function Target(max: nat): nat { 3 * max / 5 }

  function SummaryBudget(max: nat): nat {
    if Target(max) / 3 < SUMMARY_LIMIT then Target(max) / 3 else SUMMARY_LIMIT
  }

  function RecentBudget(max: nat): nat {
    if Target(max) - SummaryBudget(max) < MARGIN then 0 else Target(max) - SummaryBudget(max) - MARGIN
  }

  // ----- sizes of several turns -----

  /** The sizes of the turns' own lists, added up. */
  function Apart(lists: seq<seq<Message>>): nat {
    if lists == [] then 0 else MessageBytes(lists[0]) + Apart(lists[1..])
  }

  function Joined(lists: seq<seq<Message>>): seq<Message> {
    if lists == [] then [] else lists[0] + Joined(lists[1..])
  }

  lemma {:induction false} JoinedFits(lists: seq<seq<Message>>)
    ensures lists != [] ==> MessageBytes(Joined(lists)) <= Apart(lists)
    ensures lists == [] ==> MessageBytes(Joined(lists)) == 2
  {
    if lists != [] {
      JoinedFits(lists[1..]);
      if lists[1..] == [] { assert Joined(lists) == lists[0]; }
      else { Subadditive(lists[0], Joined(lists[1..])); }
    }
  }

  lemma {:induction false} LongerCostsMore(lists: seq<seq<Message>>, i: nat, j: nat)
    requires i <= j <= |lists|
    ensures Apart(lists[i..]) >= Apart(lists[j..]) + 2 * (j - i)
    decreases j - i
  {
    if i < j {
      assert lists[i..][1..] == lists[i + 1..];
      LongerCostsMore(lists, i + 1, j);
    }
  }

  /** The turns from `start` on are the longest newest run of turns within the limit. */
  ghost predicate LongestNewest(lists: seq<seq<Message>>, start: nat, limit: nat) {
    && start <= |lists| && Apart(lists[start..]) <= limit
    && (start == 0 || Apart(lists[start - 1..]) > limit)
  }

  /** No longer run of newest turns fits either. */
  lemma NothingLongerFits(lists: seq<seq<Message>>, start: nat, limit: nat, earlier: nat)
    requires LongestNewest(lists, start, limit) && earlier < start
    ensures Apart(lists[earlier..]) > limit
  {
    LongerCostsMore(lists, earlier, start - 1);
  }

  ghost function Projections(turns: seq<Turn>): (lists: seq<seq<Message>>)
    ensures |lists| == |turns|
  {
    if turns == [] then [] else [Projected(turns[0])] + Projections(turns[1..])
  }

  lemma {:induction false} ProjectionAt(turns: seq<Turn>, i: nat)
    requires i < |turns|
    ensures Projections(turns)[i] == Projected(turns[i])
  {
    if i > 0 { ProjectionAt(turns[1..], i - 1); }
  }

  // ----- the archive of excerpts -----

  /** An older turn that may be quoted. `full` is its size when quoted whole, `prefix` the size of its label, and `cut`
      its size when shortened to some room; turns without a summary are passed over. */
  datatype Candidate = Candidate(ordinal: nat, summarised: bool, full: nat, prefix: nat, cut: int -> nat)

  datatype Category = Category(candidates: seq<Candidate>, share: nat)

  /** `room` is given when the excerpt was shortened. */
  datatype Excerpt = Excerpt(ordinal: nat, category: nat, room: Option<int>, bytes: nat)

  function BytesIn(excerpts: seq<Excerpt>, category: nat): nat {
    if excerpts == [] then 0
    else BytesIn(excerpts[..|excerpts| - 1], category)
         + if excerpts[|excerpts| - 1].category == category then excerpts[|excerpts| - 1].bytes else 0
  }

  predicate Quoted(excerpts: seq<Excerpt>, ordinal: nat) {
    exists e :: e in excerpts && e.ordinal == ordinal
  }

  ghost predicate Chosen(excerpts: seq<Excerpt>, categories: seq<Category>, budget: nat, archive: seq<Excerpt> -> Message) {
    && (forall i, j | 0 <= i < j < |excerpts| :: excerpts[i].ordinal != excerpts[j].ordinal)
    && (forall c: nat | c < |categories| :: BytesIn(excerpts, c) <= categories[c].share)
    && (excerpts == [] || MessageBytes([archive(excerpts)]) <= budget)
  }

  const SHORTEST_ROOM: int := 100
  const ELLIPSIS: int := 16

  /** What is left of a share for the shortened text, after the label and the ellipsis. */
  function RoomLeft(candidate: Candidate, used: nat, share: nat): int {
    share - used - candidate.prefix - ELLIPSIS
  }

  /** Fits one candidate into what its category has left: whole when it fits, else shortened to the room left when that
      is enough and the shortened text fits, else not at all. */
  method FitCandidate(candidate: Candidate, category: nat, used: nat, share: nat) returns (excerpt: Option<Excerpt>)
    ensures excerpt.Some? ==>
      && excerpt.value.ordinal == candidate.ordinal && excerpt.value.category == category
      && used + excerpt.value.bytes <= share
      && (excerpt.value.room.Some? ==>
            && used + candidate.full > share && excerpt.value.room.value >= SHORTEST_ROOM
            && used + candidate.prefix + ELLIPSIS + excerpt.value.room.value == share
            && excerpt.value.bytes == candidate.cut(excerpt.value.room.value))
      && (excerpt.value.room.None? ==> excerpt.value.bytes == candidate.full)
    ensures used + candidate.full <= share ==> excerpt.Some? && excerpt.value.room.None?
    ensures excerpt.None? <==>
      && used + candidate.full > share
      && (RoomLeft(candidate, used, share) < SHORTEST_ROOM || used + candidate.cut(RoomLeft(candidate, used, share)) > share)
  {
    if used + candidate.full <= share { return Some(Excerpt(candidate.ordinal, category, None, candidate.full)); }
    var room := RoomLeft(candidate, used, share);
    if room < SHORTEST_ROOM { return None; }
    var size := candidate.cut(room);
    if used + size > share { return None; }
    excerpt := Some(Excerpt(candidate.ordinal, category, Some(room), size));
  }

  lemma AddExcerpt(excerpts: seq<Excerpt>, excerpt: Excerpt)
    ensures forall c: nat :: BytesIn(excerpts + [excerpt], c) == BytesIn(excerpts, c) + if excerpt.category == c then excerpt.bytes else 0
  {
    assert (excerpts + [excerpt])[..|excerpts|] == excerpts;
  }

  /** Goes through the categories, each within its share, keeping the whole archive within the budget. */
  method ChooseExcerpts(categories: seq<Category>, budget: nat, archive: seq<Excerpt> -> Message) returns (excerpts: seq<Excerpt>)
    ensures Chosen(excerpts, categories, budget, archive)
  {
    excerpts := [];
    var c := 0;
    while c < |categories|
      invariant 0 <= c <= |categories|
      invariant Chosen(excerpts, categories, budget, archive)
      invariant forall d: nat | d >= c :: BytesIn(excerpts, d) == 0
    {
      var category := categories[c];
      var used, i := 0, 0;
      while i < |category.candidates|
        invariant 0 <= i <= |category.candidates|
        invariant Chosen(excerpts, categories, budget, archive)
        invariant used == BytesIn(excerpts, c) <= category.share
        invariant forall d: nat | d > c :: BytesIn(excerpts, d) == 0
      {
        var candidate := category.candidates[i];
        i := i + 1;
        if Quoted(excerpts, candidate.ordinal) || !candidate.summarised { continue; }
        var excerpt := FitCandidate(candidate, c, used, category.share);
        if excerpt.None? { continue; }
        var proposed := excerpts + [excerpt.value];
        if MessageBytes([archive(proposed)]) > budget { continue; }
        AddExcerpt(excerpts, excerpt.value);
        forall j | 0 <= j < |excerpts| ensures excerpts[j].ordinal != candidate.ordinal {
          assert excerpts[j] in excerpts;
        }
        excerpts := proposed;
        used := used + excerpt.value.bytes;
      }
      c := c + 1;
    }
  }

  // ----- the selection of turns -----

  lemma NothingApart()
    ensures Apart([]) == 0
  {
  }

  lemma OneTurnMore(lists: seq<seq<Message>>, i: nat)
    requires 0 < i <= |lists|
    ensures lists[i - 1..] == [lists[i - 1]] + lists[i..]
    ensures Apart(lists[i - 1..]) == MessageBytes(lists[i - 1]) + Apart(lists[i..])
  {
    assert lists[i - 1..][1..] == lists[i..];
  }

  /** Takes turns from the newest back, as long as their sizes stay within the trigger. */
  method SelectNewest(turns: seq<Turn>, trigger: nat) returns (selected: seq<seq<Message>>, bytes: nat)
    ensures |selected| <= |turns|
    ensures selected == Projections(turns)[|turns| - |selected|..] && bytes == Apart(selected)
    ensures LongestNewest(Projections(turns), |turns| - |selected|, trigger)
  {
    hide Apart, Projected, Projections;
    selected, bytes := [], 0;
    NothingApart();
    var i := |turns|;
    while i > 0
      invariant 0 <= i <= |turns| && |selected| == |turns| - i
      invariant selected == Projections(turns)[i..] && bytes == Apart(selected) <= trigger
    {
      var messages := ProjectMessages(turns[i - 1]);
      ProjectionAt(turns, i - 1);
      OneTurnMore(Projections(turns), i);
      var size := MessageBytes(messages);
      if bytes + size > trigger { return; }
      selected := [messages] + selected;
      bytes := bytes + size;
      i := i - 1;
    }
  }

  /** Drops the oldest selected turns until the rest fits. */
  method DropOldest(lists: seq<seq<Message>>, limit: nat) returns (kept: seq<seq<Message>>)
    ensures |kept| <= |lists| && kept == lists[|lists| - |kept|..]
    ensures Apart(kept) <= limit
    ensures |kept| < |lists| ==> Apart(lists[|lists| - |kept| - 1..]) > limit
  {
    kept := lists;
    var bytes := Apart(lists);
    ghost var start := 0;
    while kept != [] && bytes > limit
      invariant 0 <= start <= |lists| && kept == lists[start..] && bytes == Apart(kept)
      invariant start > 0 ==> Apart(lists[start - 1..]) > limit
      decreases |kept|
    {
      bytes := bytes - MessageBytes(kept[0]);
      kept := kept[1..];
      start := start + 1;
    }
  }

  /** The last resort: drops turns, and then everything, until the actual encoding fits. */
  method Trim(projected: seq<Message>, selected: seq<seq<Message>>, included: nat, compacted: nat, max: nat)
    returns (messages: seq<Message>, keptTurns: int, compactedTurns: int)
    ensures keptTurns + compactedTurns == included + compacted
    ensures messages == [] || MessageBytes(messages) <= max
    ensures MessageBytes(projected) <= max ==> messages == projected && keptTurns == included && compactedTurns == compacted
  {
    messages, keptTurns, compactedTurns := projected, included, compacted;
    var left := selected;
    while messages != [] && MessageBytes(messages) > max
      invariant keptTurns + compactedTurns == included + compacted
      invariant MessageBytes(projected) <= max ==> messages == projected && keptTurns == included && compactedTurns == compacted
      decreases |left|, |messages|
    {
      if left == [] {
        messages := [];
        break;
      }
      left := left[1..];
      keptTurns, compactedTurns := keptTurns - 1, compactedTurns + 1;
      messages := Joined(left);
    }
  }

  // ----- the projection -----

  datatype Context = Context(messages: seq<Message>, total: nat, included: int, compacted: int, inputBytes: nat, max: int)

  /** Everything the projection promises about the turns it keeps and the room it takes. */
  ghost predicate Projects(context: Context, turns: seq<Turn>, archived: seq<Message>) {
    var lists := Projections(turns);
    && context.total == |turns| && 0 <= context.included <= |turns| && context.included + context.compacted == |turns|
    && context.messages == archived + Joined(lists[context.compacted..])
    && context.inputBytes == MessageBytes(context.messages)
    && context.max >= 0 && (context.compacted == 0 <==> Apart(lists) <= Trigger(context.max))
    && (context.compacted == 0 ==> archived == [] && 5 * context.inputBytes <= 4 * context.max)
    && (context.compacted > 0 ==>
          && 5 * context.inputBytes <= 3 * context.max
          && LongestNewest(lists, context.compacted, RecentBudget(context.max))
          && |archived| <= 1 && (archived != [] ==> MessageBytes(archived) <= SummaryBudget(context.max)))
  }

  /** The archive, when there is one, quotes excerpts chosen within the categories' shares and the budget. */
  ghost predicate ArchiveOf(archived: seq<Message>, categories: seq<Category>, budget: nat, archive: seq<Excerpt> -> Message) {
    archived == [] || exists chosen :: Chosen(chosen, categories, budget, archive) && archived == [archive(chosen)]
  }

  lemma WholeFits(lists: seq<seq<Message>>, max: nat)
    requires max >= SMALLEST && Apart(lists) <= Trigger(max)
    ensures 5 * MessageBytes(Joined(lists)) <= 4 * max
  {
    JoinedFits(lists);
  }

  lemma CompactedFits(archived: seq<Message>, kept: seq<seq<Message>>, max: nat)
    requires max >= SMALLEST && Apart(kept) <= RecentBudget(max)
    requires archived == [] || MessageBytes(archived) <= SummaryBudget(max)
    ensures 5 * MessageBytes(archived + Joined(kept)) <= 3 * max
  {
    JoinedFits(kept);
    if archived == [] { assert archived + Joined(kept) == Joined(kept); }
    else if kept == [] { assert archived + Joined(kept) == archived; }
    else { Subadditive(archived, Joined(kept)); }
  }

  /** Dropping from a longest run for the larger limit gives the longest run for the smaller one. */
  lemma SelectionShrinks(lists: seq<seq<Message>>, selected: seq<seq<Message>>, kept: seq<seq<Message>>, trigger: nat, limit: nat)
    requires |kept| <= |selected| < |lists| && limit <= trigger
    requires selected == lists[|lists| - |selected|..] && LongestNewest(lists, |lists| - |selected|, trigger)
    requires kept == selected[|selected| - |kept|..] && Apart(kept) <= limit
    requires |kept| < |selected| ==> Apart(selected[|selected| - |kept| - 1..]) > limit
    ensures kept == lists[|lists| - |kept|..] && LongestNewest(lists, |lists| - |kept|, limit)
  {
    hide Apart;
    if |kept| < |selected| {
      assert selected[|selected| - |kept| - 1..] == lists[|lists| - |kept| - 1..];
    }
  }

  /** The part for conversations that do not fit whole. */
  method Compact(turns: seq<Turn>, selected: seq<seq<Message>>, max: nat, categories: seq<Category>,
                 archive: (nat, seq<Excerpt>) -> Message)
    returns (context: Context, ghost archived: seq<Message>)
    requires max >= SMALLEST && |selected| < |turns| && selected == Projections(turns)[|turns| - |selected|..]
    requires LongestNewest(Projections(turns), |turns| - |selected|, Trigger(max))
    ensures context.max == max && Projects(context, turns, archived)
    ensures context.compacted > 0
      && ArchiveOf(archived, categories, SummaryBudget(max), chosen => archive(context.compacted, chosen))
  {
    hide Apart, Projected, Projections, MessageBytes, Joined, Chosen, SummaryBudget;
    var kept := DropOldest(selected, RecentBudget(max));
    SelectionShrinks(Projections(turns), selected, kept, Trigger(max), RecentBudget(max));
    TooLong(Projections(turns), |turns| - |selected|, Trigger(max));
    var compacted := |turns| - |kept|;
    var budget := SummaryBudget(max);
    var encode := (chosen: seq<Excerpt>) => archive(compacted, chosen);
    var excerpts := ChooseExcerpts(categories, budget, encode);
    var last := encode(excerpts);
    var projected := [];
    if MessageBytes([last]) <= budget { projected := [last]; }
    archived := projected;
    projected := projected + Joined(kept);
    CompactedFits(archived, kept, max);
    var messages, included, dropped := Trim(projected, kept, |kept|, compacted, max);
    context := Context(messages, |turns|, included, dropped, MessageBytes(messages), max);
    assert ArchiveOf(archived, categories, budget, encode);
  }

  lemma TooLong(lists: seq<seq<Message>>, first: nat, trigger: nat)
    requires LongestNewest(lists, first, trigger) && first > 0
    ensures Apart(lists) > trigger
  {
    NothingLongerFits(lists, first, trigger, 0);
    assert lists[0..] == lists;
  }

  /** Main projection result: whole and within 80% of the limit, or the longest newest run within its share together with
      an archive within its own, and then within 60%. */
  method BuildContext(turns: seq<Turn>, max: int, anchors: seq<Candidate>, relevant: seq<Candidate>, recent: seq<Candidate>,
                      archive: (nat, seq<Excerpt>) -> Message)
    returns (context: Context, ghost archived: seq<Message>)
    ensures max < SMALLEST ==> context == Context([], |turns|, 0, |turns|, 0, max)
    ensures max >= SMALLEST ==> context.max == max && Projects(context, turns, archived)
  {
    hide Apart, Projected, Projections, MessageBytes, Joined;
    archived := [];
    if max < SMALLEST { return Context([], |turns|, 0, |turns|, 0, max), archived; }
    var selected, bytes := SelectNewest(turns, Trigger(max));
    if |selected| == |turns| {
      assert selected == Projections(turns)[0..] == Projections(turns);
      var projected := Joined(selected);
      WholeFits(selected, max);
      assert archived + projected == projected;
      return Context(projected, |turns|, |turns|, 0, MessageBytes(projected), max), archived;
    }
    var budget := SummaryBudget(max);
    var categories := [Category(anchors, budget / 4), Category(relevant, budget / 2), Category(recent, budget / 4)];
    context, archived := Compact(turns, selected, max, categories, archive);
  }
}
