/** Conversation messages, their size as JSON, and the check that a stored turn holds only complete tool exchanges. */
module Transcript {
  import opened Wrappers

  datatype Kind = Human | Ai(calls: seq<nat>) | Tool(call: nat)

  /** A message and the length of its own JSON object in UTF-8. */
  datatype Message = Message(kind: Kind, bytes: nat)

  function Total(messages: seq<Message>): nat {
    if messages == [] then 0 else Total(messages[..|messages| - 1]) + messages[|messages| - 1].bytes
  }

  /** The length of the JSON array of the messages: brackets, commas and elements. */
  function MessageBytes(messages: seq<Message>): nat {
    2 + Total(messages) + if messages == [] then 0 else |messages| - 1
  }

  lemma {:induction false} TotalConcat(a: seq<Message>, b: seq<Message>)
    ensures Total(a + b) == Total(a) + Total(b)
  {
    if b == [] {
      assert a + b == a;
    } else {
      TotalConcat(a, b[..|b| - 1]);
      assert (a + b)[..|a + b| - 1] == a + b[..|b| - 1];
    }
  }

  /** Joining two lists never needs more room than the two lists apart. */
  lemma Subadditive(a: seq<Message>, b: seq<Message>)
    ensures MessageBytes(a + b) < MessageBytes(a) + MessageBytes(b)
  {
    TotalConcat(a, b);
  }

  // ----- complete exchanges -----

  /** A user message alone, or an assistant message with the replies to all of its calls, each once, in any order. */
  datatype Exchange = Exchange(head: Message, replies: seq<Message>)

  function CallSet(message: Message): set<nat> {
    if message.kind.Ai? then set id | id in message.kind.calls else {}
  }

  function Answered(replies: seq<Message>): set<nat> {
    set r | r in replies && r.kind.Tool? :: r.kind.call
  }

  ghost predicate RepliesOnce(replies: seq<Message>) {
    && (forall r | r in replies :: r.kind.Tool?)
    && (forall i, j | 0 <= i < j < |replies| :: replies[i].kind != replies[j].kind)
  }

  ghost predicate Complete(exchange: Exchange) {
    && !exchange.head.kind.Tool? && RepliesOnce(exchange.replies)
    && Answered(exchange.replies) == CallSet(exchange.head)
  }

  function Unfold(exchanges: seq<Exchange>): seq<Message> {
    if exchanges == [] then []
    else Unfold(exchanges[..|exchanges| - 1])
         + [exchanges[|exchanges| - 1].head] + exchanges[|exchanges| - 1].replies
  }

  ghost predicate CompleteTurn(messages: seq<Message>) {
    exists exchanges :: Unfold(exchanges) == messages && forall e | e in exchanges :: Complete(e)
  }

  // ----- the scan -----

  datatype Scan = Scan(pending: set<nat>, valid: bool)

  function Step(scan: Scan, message: Message): Scan {
    match message.kind
    case Ai(calls) => Scan(CallSet(message), scan.valid && scan.pending == {})
    case Tool(call) => Scan(scan.pending - {call}, scan.valid && call in scan.pending)
    case Human => Scan(scan.pending, scan.valid && scan.pending == {})
  }

  function Scanned(messages: seq<Message>): Scan {
    if messages == [] then Scan({}, true)
    else Step(Scanned(messages[..|messages| - 1]), messages[|messages| - 1])
  }

  /** Complete exchanges followed by one whose pending calls are still open. */
  ghost predicate OpenTurn(messages: seq<Message>, pending: set<nat>) {
    exists before, open :: OpenAt(messages, pending, before, open)
  }

  ghost predicate OpenAt(messages: seq<Message>, pending: set<nat>, before: seq<Exchange>, open: Exchange) {
    && (forall e | e in before :: Complete(e))
    && messages == Unfold(before) + [open.head] + open.replies
    && !open.head.kind.Tool? && RepliesOnce(open.replies) && Answered(open.replies) <= CallSet(open.head)
    && pending == CallSet(open.head) - Answered(open.replies)
  }

  lemma AppendExchange(before: seq<Exchange>, e: Exchange)
    requires (forall x | x in before :: Complete(x)) && Complete(e)
    ensures CompleteTurn(Unfold(before) + [e.head] + e.replies)
  {
    var all := before + [e];
    assert all[..|before|] == before;
    assert Unfold(all) == Unfold(before) + [e.head] + e.replies;
  }

  lemma OpenToComplete(messages: seq<Message>)
    requires messages == [] || OpenTurn(messages, {})
    ensures CompleteTurn(messages)
  {
    if messages == [] {
      assert Unfold([]) == messages;
    } else {
      var before, open :| OpenAt(messages, {}, before, open);
      assert CallSet(open.head) == Answered(open.replies) + (CallSet(open.head) - Answered(open.replies));
      AppendExchange(before, open);
    }
  }

  lemma StartExchange(messages: seq<Message>, head: Message)
    requires CompleteTurn(messages) && !head.kind.Tool?
    ensures OpenTurn(messages + [head], CallSet(head))
  {
    var before :| Unfold(before) == messages && forall e | e in before :: Complete(e);
    var open := Exchange(head, []);
    assert messages + [head] == Unfold(before) + [open.head] + open.replies;
    assert Answered(open.replies) == {};
    assert OpenAt(messages + [head], CallSet(head), before, open);
  }

  lemma AddReply(messages: seq<Message>, pending: set<nat>, reply: Message)
    requires OpenTurn(messages, pending) && reply.kind.Tool? && reply.kind.call in pending
    ensures OpenTurn(messages + [reply], pending - {reply.kind.call})
  {
    var before, open :| OpenAt(messages, pending, before, open);
    var longer := Exchange(open.head, open.replies + [reply]);
    assert messages + [reply] == Unfold(before) + [longer.head] + longer.replies;
    forall i | 0 <= i < |open.replies| ensures open.replies[i].kind != reply.kind {
      assert open.replies[i] in open.replies;
    }
    assert Answered(longer.replies) == Answered(open.replies) + {reply.kind.call} by {
      assert reply in longer.replies;
    }
    assert OpenAt(messages + [reply], pending - {reply.kind.call}, before, longer);
  }

  lemma {:induction false} ScanSound(messages: seq<Message>)
    requires Scanned(messages).valid && messages != []
    ensures OpenTurn(messages, Scanned(messages).pending)
  {
    var head, last := messages[..|messages| - 1], messages[|messages| - 1];
    assert messages == head + [last];
    if head != [] { ScanSound(head); }
    if last.kind.Tool? {
      AddReply(head, Scanned(head).pending, last);
    } else {
      OpenToComplete(head);
      StartExchange(head, last);
    }
  }

  /** One more reply answers one more call, which none of the earlier ones answered. */
  lemma OneMoreAnswer(head: seq<Message>, last: Message)
    requires RepliesOnce(head + [last])
    ensures RepliesOnce(head) && last.kind.Tool? && last.kind.call !in Answered(head)
    ensures Answered(head + [last]) == Answered(head) + {last.kind.call}
  {
    var replies := head + [last];
    assert last in replies && forall r | r in head :: r in replies;
    forall i, j | 0 <= i < j < |head| ensures head[i].kind != head[j].kind {
      assert replies[i] == head[i] && replies[j] == head[j];
    }
    forall r | r in head ensures r.kind != last.kind {
      var i :| 0 <= i < |head| && head[i] == r;
      assert replies[i] == r && replies[|head|] == last;
    }
  }

  lemma {:induction false} ScanReplies(messages: seq<Message>, replies: seq<Message>, pending: set<nat>)
    requires Scanned(messages) == Scan(pending, true)
    requires RepliesOnce(replies) && Answered(replies) <= pending
    ensures Scanned(messages + replies) == Scan(pending - Answered(replies), true)
  {
    hide Answered, RepliesOnce;
    if replies == [] {
      assert messages + replies == messages;
      assert Answered([]) == {} by { NothingAnswered(); }
    } else {
      var head, last := replies[..|replies| - 1], replies[|replies| - 1];
      assert replies == head + [last];
      OneMoreAnswer(head, last);
      ScanReplies(messages, head, pending);
      assert (messages + replies)[..|messages + replies| - 1] == messages + head;
    }
  }

  lemma NothingAnswered()
    ensures Answered([]) == {}
  {
  }

  lemma {:induction false} ScanComplete(exchanges: seq<Exchange>)
    requires forall e | e in exchanges :: Complete(e)
    ensures Scanned(Unfold(exchanges)) == Scan({}, true)
  {
    if exchanges != [] {
      var head, last := exchanges[..|exchanges| - 1], exchanges[|exchanges| - 1];
      assert last in exchanges;
      ScanComplete(head);
      var start := Unfold(head) + [last.head];
      assert start[..|start| - 1] == Unfold(head);
      ScanReplies(start, last.replies, CallSet(last.head));
      assert Unfold(exchanges) == start + last.replies;
    }
  }

  /** The scan ends valid with nothing pending exactly on the turns made of complete exchanges. */
  lemma ScanMeans(messages: seq<Message>)
    ensures Scanned(messages) == Scan({}, true) <==> CompleteTurn(messages)
  {
    if Scanned(messages) == Scan({}, true) {
      if messages != [] { ScanSound(messages); }
      OpenToComplete(messages);
    }
    if CompleteTurn(messages) {
      var exchanges :| Unfold(exchanges) == messages && forall e | e in exchanges :: Complete(e);
      ScanComplete(exchanges);
    }
  }

  /** A stored turn: its messages, the note that stands for it when it is incomplete, and its participant's label. */
  datatype Turn = Turn(ordinal: nat, raw: seq<Message>, note: Message, participant: Option<Message>)

  ghost function Projected(turn: Turn): seq<Message> {
    if !CompleteTurn(turn.raw) then [turn.note]
    else (if turn.participant.Some? then [turn.participant.value] else []) + turn.raw
  }

  method ProjectMessages(turn: Turn) returns (messages: seq<Message>)
    ensures messages == Projected(turn)
  {
    var pending: set<nat> := {};
    var valid := true;
    var i := 0;
    while i < |turn.raw|
      invariant 0 <= i <= |turn.raw|
      invariant Scanned(turn.raw[..i]) == Scan(pending, valid)
    {
      var message := turn.raw[i];
      assert turn.raw[..i + 1][..i] == turn.raw[..i];
      match message.kind {
        case Ai(calls) =>
          if pending != {} { valid := false; }
          pending := set id | id in calls;
        case Tool(call) =>
          if call !in pending { valid := false; }
          pending := pending - {call};
        case Human =>
          if pending != {} { valid := false; }
      }
      i := i + 1;
    }
    assert turn.raw[..i] == turn.raw;
    ScanMeans(turn.raw);
    if pending != {} || !valid { return [turn.note]; }
    messages := turn.raw;
    if turn.participant.Some? { messages := [turn.participant.value] + messages; }
    else { assert [] + messages == messages; }
  }
}
