/** The replacement as the service carries it out, step by step, against a session that others may interfere with. */
module GuardedReplaceRun {
  import opened Wrappers
  import opened Bytes
  import opened RemoteFiles
  import opened GuardedReplace

  // ----- what the steps keep -----

  /** Nothing has been renamed or unlinked; at most one staging file was made, and `made` tells whether it was. */
  ghost predicate Unpublished(log: seq<Event>, stage: string, made: bool) {
    && (forall k | 0 <= k < |log| :: !log[k].op.Rename? && !log[k].op.Unlink?)
    && (forall k | 0 <= k < |log| && log[k].op.Create? :: log[k].op.path == stage)
    && (forall j, k | 0 <= j < k < |log| && log[j].op.Create? :: !log[k].op.Create?)
    && (made <==> Holds(log, Create(stage, true)))
  }

  /** A step that neither touches names nor writes nor reads content. */
  predicate Passive(op: Op) {
    op.Others? || op.Lstat? || op.Sync? || op.Close?
  }

  lemma OneMore(log: seq<Event>)
    requires log != []
    ensures Appended(log) == Appended(log[..|log| - 1]) + Gain(log[|log| - 1].op)
    ensures BytesRead(log) == BytesRead(log[..|log| - 1]) + Found(log[|log| - 1].op)
  {
  }

  lemma Grows(before: seq<Event>, after: seq<Event>)
    requires Grew(before, after)
    ensures Appended(after) == Appended(before) + Gain(after[|after| - 1].op)
    ensures BytesRead(after) == BytesRead(before) + Found(after[|after| - 1].op)
  {
    hide Appended, BytesRead;
    var middle := after[..|after| - 1];
    OneMore(after);
    OneMore(middle);
    PrefixTwice(before, after);
  }

  lemma PrefixTwice(before: seq<Event>, after: seq<Event>)
    requires Grew(before, after)
    ensures after[..|after| - 1][..|after| - 2] == before
    ensures after[..|after| - 1][|after| - 2].op.Others?
  {
  }

  lemma InspectedStays(before: seq<Event>, after: seq<Event>, at: nat, request: Request)
    requires before <= after && Inspected(before, at, request)
    ensures Inspected(after, at, request)
  {
    hide Matches;
  }

  lemma HoldsOn(before: seq<Event>, after: seq<Event>, op: Op)
    requires Grew(before, after) && op != Others
    ensures Holds(after, op) <==> Holds(before, op) || after[|after| - 1].op == op
  {
    if Holds(before, op) {
      var k :| 0 <= k < |before| && before[k].op == op;
      assert after[k].op == op;
    }
    if Holds(after, op) {
      var k :| 0 <= k < |after| && after[k].op == op;
      if k < |before| { assert before[k].op == op; }
    }
  }

  /** A step that leaves names alone keeps the session unpublished. */
  lemma StaysUnpublished(before: seq<Event>, after: seq<Event>, stage: string, made: bool)
    requires Grew(before, after) && Unpublished(before, stage, made) && !Touches(after[|after| - 1].op)
    ensures Unpublished(after, stage, made)
  {
    HoldsOn(before, after, Create(stage, true));
  }

  class StagingFileCleanup {
    const session: Session
    const path: string
    var created: bool
    var published: bool

    constructor (session: Session, path: string)
      ensures this.session == session && this.path == path && !created && !published
    {
      this.session, this.path, created, published := session, path, false, false;
    }

    method MarkCreated()
      modifies this`created
      ensures created
    {
      created := true;
    }

    method MarkPublished()
      modifies this`published
      ensures published
    {
      published := true;
    }

    /** Runs on every exit: unlinks a file that was created and not published. */
    method Destroy()
      requires session.Valid()
      modifies session`fs, session`log
      ensures session.Valid()
      ensures !(created && !published) ==> session.log == old(session.log)
      ensures created && !published ==>
        Grew(old(session.log), session.log) && session.log[|session.log| - 1].op == Unlink(path)
    {
      if !created || published { return; }
      session.Unlink(path);
    }
  }

  /** An error is reported as a timeout when the deadline has passed meanwhile. */
  method LateOr(session: Session, code: ErrorCode) returns (error: Option<ErrorCode>)
    ensures error == Some(Timeout) || error == Some(code)
  {
    var left := session.InTime();
    error := Some(if left then code else Timeout);
  }

  // ----- the steps -----

  /** What a reply about the target means: no reply is a failure, another kind of file gets the code `irregular`, and a
      different size or modification time is a concurrent change. */
  predicate Judged(reply: Option<Attributes>, request: Request, irregular: ErrorCode, error: Option<ErrorCode>) {
    if reply.None? then error == Some(Timeout) || error == Some(SftpError)
    else if !Regular(reply.value) then error == Some(irregular)
    else if !Matches(reply.value, request) then error == Some(ConcurrentChange)
    else error == None
  }

  /** Reads the target's metadata and compares it with what the caller saw. */
  method CheckTarget(session: Session, request: Request, stage: string, irregular: ErrorCode, ghost made: bool)
    returns (error: Option<ErrorCode>, seen: Attributes)
    requires session.Valid() && Unpublished(session.log, stage, made)
    modifies session`fs, session`log
    ensures session.Valid() && Unpublished(session.log, stage, made) && session.fs.mine == old(session.fs.mine)
    ensures Grew(old(session.log), session.log)
    ensures var last := session.log[|session.log| - 1].op;
            && last.Lstat? && last.path == request.path && Judged(last.reply, request, irregular, error)
            && (error.None? ==> last.reply == Some(seen))
    ensures error.None? ==> Inspected(session.log, |session.log| - 1, request)
    ensures Appended(session.log) == old(Appended(session.log)) && BytesRead(session.log) == old(BytesRead(session.log))
  {
    hide Unpublished, Chained, Sound, Possible, Appended, BytesRead;
    seen := Attributes(None, None, None, None);
    var reply := session.Lstat(request.path);
    StaysUnpublished(old(session.log), session.log, stage, made);
    Grows(old(session.log), session.log);
    if reply.None? {
      error := LateOr(session, SftpError);
      return;
    }
    seen := reply.value;
    if !Regular(seen) { return Some(irregular), seen; }
    if !Matches(seen, request) { return Some(ConcurrentChange), seen; }
    error := None;
  }

  ghost predicate OnlyLooked(log: seq<Event>) {
    forall k | 0 <= k < |log| :: Passive(log[k].op)
  }

  /** Writes the whole content, in as many partial writes as the server needs. */
  method WriteContent(session: Session, content: seq<Byte>, stage: string) returns (error: Option<ErrorCode>)
    requires session.Valid() && Unpublished(session.log, stage, true) && session.fs.mine.Some?
    requires Appended(session.log) == []
    modifies session`fs, session`log
    ensures session.Valid() && Unpublished(session.log, stage, true) && session.fs.mine == old(session.fs.mine)
    ensures old(session.log) <= session.log && BytesRead(session.log) == old(BytesRead(session.log))
    ensures forall k | |old(session.log)| <= k < |session.log| :: session.log[k].op.Others? || session.log[k].op.Append?
    ensures error.None? ==>
      && Appended(session.log) == content
      && (forall k | |old(session.log)| <= k < |session.log| && session.log[k].op.Append? :: session.log[k].op.count > 0)
  {
    hide Unpublished, Chained, Sound, Possible, Appended, BytesRead;
    var offset := 0;
    error := None;
    while offset < |content|
      invariant 0 <= offset <= |content| && error.None?
      invariant session.Valid() && Unpublished(session.log, stage, true) && session.fs.mine == old(session.fs.mine)
      invariant old(session.log) <= session.log && BytesRead(session.log) == old(BytesRead(session.log))
      invariant forall k | |old(session.log)| <= k < |session.log| ::
        session.log[k].op.Others? || (session.log[k].op.Append? && session.log[k].op.count > 0)
      invariant Appended(session.log) == content[..offset]
    {
      var left := session.InTime();
      if !left { return Some(Timeout); }
      ghost var before := session.log;
      var count := session.Append(content[offset..]);
      StaysUnpublished(before, session.log, stage, true);
      Grows(before, session.log);
      if count <= 0 {
        error := LateOr(session, SftpError);
        return;
      }
      assert content[..offset] + content[offset..][..count] == content[..offset + count];
      offset := offset + count;
    }
    assert content[..offset] == content;
  }

  predicate Shown(source: Attributes) {
    source.mode.Some? || source.owner.Some? || source.mtime.Some?
  }

  /** How the metadata requests went: none when there is nothing to set or no time, one by handle, and a second one by
      name exactly when the first was refused and there was still time. The refusal of the second is not an error. */
  ghost predicate Asked(before: seq<Event>, after: seq<Event>, source: Attributes, error: Option<ErrorCode>) {
    && before <= after && (error == None || error == Some(Timeout))
    && if |after| == |before| then (error.None? ==> !Shown(source))
       else
         && Shown(source) && |after| >= |before| + 2 && after[|before|].op.Others?
         && after[|before| + 1].op.Adjust? && !after[|before| + 1].op.byName
         && if after[|before| + 1].op.ok || error.Some? then
              |after| == |before| + 2 && (error.Some? <==> !after[|before| + 1].op.ok)
            else
              |after| == |before| + 4 && after[|before| + 2].op.Others?
              && after[|before| + 3].op.Adjust? && after[|before| + 3].op.byName
  }

  /** Asks for the target's metadata on the staging file: by handle, and by name when the handle form is refused. */
  method PreserveMetadata(session: Session, source: Attributes, stage: string) returns (error: Option<ErrorCode>)
    requires session.Valid() && Unpublished(session.log, stage, true) && session.fs.mine.Some?
    modifies session`fs, session`log
    ensures session.Valid() && Unpublished(session.log, stage, true) && session.fs.mine == old(session.fs.mine)
    ensures Asked(old(session.log), session.log, source, error)
    ensures Appended(session.log) == old(Appended(session.log)) && BytesRead(session.log) == old(BytesRead(session.log))
  {
    hide Unpublished, Chained, Sound, Possible, Appended, BytesRead;
    var left := session.InTime();
    if !left { return Some(Timeout); }
    error := None;
    if Shown(source) {
      var byHandle := AskOnce(session, false, stage);
      if !byHandle {
        left := session.InTime();
        if !left { return Some(Timeout); }
        var byName := AskOnce(session, true, stage);
      }
    }
  }

  /** One metadata request. */
  method AskOnce(session: Session, byName: bool, stage: string) returns (ok: bool)
    requires session.Valid() && Unpublished(session.log, stage, true) && session.fs.mine.Some?
    modifies session`fs, session`log
    ensures session.Valid() && Unpublished(session.log, stage, true) && session.fs.mine == old(session.fs.mine)
    ensures Grew(old(session.log), session.log) && session.log[|session.log| - 1].op == Adjust(byName, ok)
    ensures Appended(session.log) == old(Appended(session.log)) && BytesRead(session.log) == old(BytesRead(session.log))
  {
    hide Unpublished, Chained, Sound, Possible, Appended, BytesRead;
    ok := session.SetMetadata(byName);
    StaysUnpublished(old(session.log), session.log, stage, true);
    Grows(old(session.log), session.log);
  }

  /** Syncs the staging file. */
  method SyncStage(session: Session, stage: string) returns (error: Option<ErrorCode>)
    requires session.Valid() && Unpublished(session.log, stage, true)
    modifies session`fs, session`log
    ensures session.Valid() && Unpublished(session.log, stage, true) && session.fs.mine == old(session.fs.mine)
    ensures (error.Some? && session.log == old(session.log))
            || (Grew(old(session.log), session.log) && session.log[|session.log| - 1].op == Sync(error.None?))
    ensures Appended(session.log) == old(Appended(session.log)) && BytesRead(session.log) == old(BytesRead(session.log))
  {
    hide Unpublished, Chained, Sound, Possible, Appended, BytesRead;
    var left := session.InTime();
    if !left { return Some(Timeout); }
    var ok := session.Sync();
    StaysUnpublished(old(session.log), session.log, stage, true);
    Grows(old(session.log), session.log);
    if ok { error := None; } else { error := LateOr(session, SftpError); }
  }

  /** Closes a handle. */
  method CloseHandle(session: Session, stage: string) returns (error: Option<ErrorCode>)
    requires session.Valid() && Unpublished(session.log, stage, true)
    modifies session`fs, session`log
    ensures session.Valid() && Unpublished(session.log, stage, true) && session.fs.mine == old(session.fs.mine)
    ensures Grew(old(session.log), session.log) && session.log[|session.log| - 1].op == Close(error.None?)
    ensures Appended(session.log) == old(Appended(session.log)) && BytesRead(session.log) == old(BytesRead(session.log))
  {
    hide Unpublished, Chained, Sound, Possible, Appended, BytesRead;
    var ok := session.Close();
    StaysUnpublished(old(session.log), session.log, stage, true);
    Grows(old(session.log), session.log);
    if ok { error := None; } else { error := LateOr(session, SftpError); }
  }

  /** The content is written and nothing has been read: what holds from the writes up to the first check. */
  ghost predicate Written(log: seq<Event>, inspected: nat, created: nat, request: Request, stage: string) {
    && inspected < created < |log| && Inspected(log, inspected, request)
    && log[created].op == Create(stage, true)
    && Appended(log) == request.content && BytesRead(log) == []
    && (forall k | 0 <= k < |log| && log[k].op.Append? :: created < k && log[k].op.count > 0)
    && (forall k | 0 <= k < |log| :: !log[k].op.Read?)
  }

  lemma WrittenStays(before: seq<Event>, after: seq<Event>, inspected: nat, created: nat, request: Request, stage: string)
    requires Written(before, inspected, created, request, stage) && before <= after
    requires forall k | |before| <= k < |after| :: Passive(after[k].op) || after[k].op.Adjust?
    requires Appended(after) == Appended(before) && BytesRead(after) == BytesRead(before)
    ensures Written(after, inspected, created, request, stage)
  {
    hide Appended, BytesRead;
  }

  /** Creates the staging file exclusively. */
  method CreateStage(session: Session, cleanup: StagingFileCleanup, stage: string) returns (error: Option<ErrorCode>)
    requires session.Valid() && session.fs.mine.None? && Unpublished(session.log, stage, false) && !cleanup.created
    requires OnlyLooked(session.log)
    modifies session`fs, session`log, cleanup`created
    ensures session.Valid() && Unpublished(session.log, stage, cleanup.created) && (cleanup.created <==> error.None?)
    ensures old(session.log) <= session.log
    ensures error.None? ==>
      && Grew(old(session.log), session.log) && session.log[|session.log| - 1].op == Create(stage, true)
      && session.fs.mine.Some? && session.fs.mine.value.path == stage
      && Appended(session.log) == old(Appended(session.log)) && BytesRead(session.log) == old(BytesRead(session.log))
  {
    hide Unpublished, Chained, Sound, Possible, Appended, BytesRead;
    var left := session.InTime();
    if !left { return Some(Timeout); }
    var made := session.Create(stage);
    CreationUnpublished(old(session.log), session.log, stage, made);
    Grows(old(session.log), session.log);
    if !made {
      error := LateOr(session, ReplaceUnsupported);
      return;
    }
    cleanup.MarkCreated();
    error := None;
  }

  lemma CreationUnpublished(before: seq<Event>, after: seq<Event>, stage: string, made: bool)
    requires Grew(before, after) && Unpublished(before, stage, false) && after[|after| - 1].op == Create(stage, made)
    requires forall k | 0 <= k < |before| :: !before[k].op.Create?
    ensures Unpublished(after, stage, made)
  {
    HoldsOn(before, after, Create(stage, true));
  }

  /** The staging file was filled, then synced, then closed. */
  ghost predicate Durable(log: seq<Event>, ev: Evidence, request: Request, stage: string) {
    && Written(log, ev.inspected, ev.created, request, stage)
    && ev.created < ev.synced < ev.closed < |log|
    && log[ev.synced].op == Sync(true) && log[ev.closed].op == Close(true)
    && (forall k | 0 <= k < |log| && (log[k].op.Append? || log[k].op.Adjust?) :: k < ev.synced)
  }

  /** Fills, marks and syncs the created staging file. */
  method FillStage(session: Session, request: Request, source: Attributes, stage: string, ghost inspected: nat)
    returns (error: Option<ErrorCode>)
    requires session.Valid() && Unpublished(session.log, stage, true) && session.fs.mine.Some?
    requires |session.log| > 0 && session.log[|session.log| - 1].op == Create(stage, true)
    requires forall k | 0 <= k < |session.log| - 1 :: Passive(session.log[k].op)
    requires inspected < |session.log| - 1 && Inspected(session.log, inspected, request)
    requires Appended(session.log) == [] && BytesRead(session.log) == []
    modifies session`fs, session`log
    ensures session.Valid() && Unpublished(session.log, stage, true) && session.fs.mine == old(session.fs.mine)
    ensures old(session.log) <= session.log
    ensures error.None? ==>
      && Written(session.log, inspected, |old(session.log)| - 1, request, stage)
      && |session.log| > |old(session.log)| && session.log[|session.log| - 1].op == Sync(true)
  {
    hide Unpublished, Chained, Sound, Possible, Appended, BytesRead, Matches;
    ghost var created := |session.log| - 1;
    error := WriteContent(session, request.content, stage);
    if error.Some? { return; }
    ghost var afterWrites := session.log;
    WrittenBy(old(session.log), afterWrites, inspected, created, request, stage);
    error := PreserveMetadata(session, source, stage);
    if error.Some? { return; }
    ghost var beforeSync := session.log;
    WrittenStays(afterWrites, beforeSync, inspected, created, request, stage);
    error := SyncStage(session, stage);
    if error.Some? { return; }
    WrittenStays(beforeSync, session.log, inspected, created, request, stage);
  }

  /** Creates, fills, marks, syncs and closes the staging file. Once created, its handle is closed on every path. */
  method Stage(session: Session, cleanup: StagingFileCleanup, request: Request, source: Attributes, stage: string,
               ghost inspected: nat)
    returns (error: Option<ErrorCode>, ghost ev: Evidence)
    requires session.Valid() && session.fs.mine.None? && Unpublished(session.log, stage, false) && !cleanup.created
    requires OnlyLooked(session.log) && Inspected(session.log, inspected, request)
    requires Appended(session.log) == [] && BytesRead(session.log) == []
    modifies session`fs, session`log, cleanup`created
    ensures session.Valid() && Unpublished(session.log, stage, cleanup.created) && old(session.log) <= session.log
    ensures cleanup.created ==> session.log != [] && session.log[|session.log| - 1].op.Close?
    ensures error.None? ==>
      && cleanup.created && ev.inspected == inspected && Durable(session.log, ev, request, stage)
      && session.fs.mine.Some? && session.fs.mine.value.path == stage
  {
    hide Unpublished, Chained, Sound, Possible, Appended, BytesRead, Matches, Durable;
    ev := Evidence(inspected, 0, 0, 0, 0, 0, 0, 0, 0);
    error := CreateStage(session, cleanup, stage);
    if error.Some? { return; }
    ghost var created := |session.log| - 1;
    error := FillStage(session, request, source, stage, inspected);
    ghost var filled := session.log;
    var closing := CloseHandle(session, stage);
    if error.Some? { return; }
    error := closing;
    if error.Some? { return; }
    ev := ev.(created := created, synced := |filled| - 1, closed := |session.log| - 1);
    DurableBy(filled, session.log, ev, request, stage);
  }

  lemma DurableBy(filled: seq<Event>, log: seq<Event>, ev: Evidence, request: Request, stage: string)
    requires Written(filled, ev.inspected, ev.created, request, stage) && Grew(filled, log)
    requires ev.created < ev.synced == |filled| - 1 && filled[|filled| - 1].op == Sync(true)
    requires ev.closed == |log| - 1 && log[|log| - 1].op == Close(true)
    requires Appended(log) == Appended(filled) && BytesRead(log) == BytesRead(filled)
    ensures Durable(log, ev, request, stage)
  {
    hide Appended, BytesRead;
    WrittenStays(filled, log, ev.inspected, ev.created, request, stage);
  }

  lemma WrittenBy(before: seq<Event>, after: seq<Event>, inspected: nat, created: nat, request: Request, stage: string)
    requires |before| > 0 && created == |before| - 1 && before <= after
    requires inspected < created && Inspected(before, inspected, request) && before[created].op == Create(stage, true)
    requires forall k | 0 <= k < created :: Passive(before[k].op)
    requires forall k | |before| <= k < |after| :: after[k].op.Others? || (after[k].op.Append? && after[k].op.count > 0)
    requires Appended(after) == request.content && BytesRead(after) == []
    ensures Written(after, inspected, created, request, stage)
  {
    hide Appended, BytesRead;
  }

  /** The staging file must show every metadata field the target showed; the answer names exactly those it does not. */
  method VerifyStage(session: Session, request: Request, source: Attributes, stage: string, ghost durable: Evidence)
    returns (error: Option<ErrorCode>, missing: seq<Field>, ghost ev: Evidence)
    requires session.Valid() && Unpublished(session.log, stage, true)
    requires Durable(session.log, durable, request, stage)
    requires session.log[durable.inspected].op.reply == Some(source)
    modifies session`fs, session`log
    ensures session.Valid() && Unpublished(session.log, stage, true) && session.fs.mine == old(session.fs.mine)
    ensures Grew(old(session.log), session.log)
    ensures var last := session.log[|session.log| - 1].op;
            && last.Lstat? && last.path == stage
            && missing == (if last.reply.Some? then UnpreservedMetadata(source, last.reply.value) else [])
            && (error.None? <==> last.reply.Some? && missing == [])
            && (error == Some(MetadataNotPreserved) <==> missing != [])
    ensures error.None? ==>
      && ev.inspected == durable.inspected && ev.staged == |session.log| - 1 && Verified(session.log, ev, request, stage)
      && BytesRead(session.log) == [] && (forall k | 0 <= k < |session.log| :: !session.log[k].op.Read?)
  {
    hide Unpublished, Chained, Sound, Possible, Appended, BytesRead, Matches, Durable, Verified, UnpreservedMetadata;
    missing := [];
    var reply := session.Lstat(stage);
    StaysUnpublished(old(session.log), session.log, stage, true);
    Grows(old(session.log), session.log);
    ev := durable.(staged := |session.log| - 1);
    if reply.None? {
      error := LateOr(session, SftpError);
      return;
    }
    missing := UnpreservedMetadata(source, reply.value);
    if missing != [] { return Some(MetadataNotPreserved), missing, ev; }
    VerifiedBy(old(session.log), session.log, durable, request, stage, source, reply.value);
    error := None;
  }

  lemma VerifiedBy(before: seq<Event>, after: seq<Event>, durable: Evidence, request: Request, stage: string,
                   source: Attributes, staged: Attributes)
    requires Durable(before, durable, request, stage) && Grew(before, after)
    requires before[durable.inspected].op.reply == Some(source) && after[|after| - 1].op == Lstat(stage, Some(staged))
    requires Appended(after) == Appended(before) && BytesRead(after) == BytesRead(before)
    requires UnpreservedMetadata(source, staged) == []
    ensures Verified(after, durable.(staged := |after| - 1), request, stage)
    ensures BytesRead(after) == [] && forall k | 0 <= k < |after| :: !after[k].op.Read?
  {
    hide Appended, BytesRead, Matches, UnpreservedMetadata;
    WrittenStays(before, after, durable.inspected, durable.created, request, stage);
  }

  // ----- reading the target -----

  lemma ReadsOn(before: seq<Event>, after: seq<Event>, opening: nat, path: string, handle: nat, bytes: seq<Byte>)
    requires Reading(before, opening, path, handle) && Grew(before, after)
    requires after[|after| - 1].op == Read(handle, |BytesRead(before)|, Some(bytes))
    ensures Reading(after, opening, path, handle)
  {
    hide BytesRead;
    forall k | 0 <= k < |after| && after[k].op.Read?
      ensures opening < k && after[k].op.handle == handle
      ensures after[k].op.offset == |BytesRead(after[..k])| && after[k].op.bytes.Some?
    {
      if k < |before| {
        assert after[..k] == before[..k];
      } else {
        assert k == |after| - 1;
        OtherReads(before, after);
      }
    }
  }

  lemma OtherReads(before: seq<Event>, after: seq<Event>)
    requires Grew(before, after)
    ensures BytesRead(after[..|after| - 1]) == BytesRead(before)
  {
    var middle := after[..|after| - 1];
    assert middle[..|middle| - 1] == before;
    assert BytesRead(middle) == BytesRead(before) + [];
  }

  lemma ReadingStays(before: seq<Event>, after: seq<Event>, opening: nat, path: string, handle: nat)
    requires Reading(before, opening, path, handle) && before <= after
    requires forall k | |before| <= k < |after| :: !after[k].op.Read?
    ensures Reading(after, opening, path, handle)
  {
    hide BytesRead;
    forall k | 0 <= k < |after| && after[k].op.Read? ensures after[..k] == before[..k] {
      assert k < |before|;
    }
  }

  /** Reads at most one byte more than expected. When it ends short of that, the last reply said end of file. */
  method ReadTarget(session: Session, request: Request, stage: string, handle: nat, ghost opening: nat)
    returns (error: Option<ErrorCode>, current: seq<Byte>)
    requires session.Valid() && Unpublished(session.log, stage, true) && session.position == 0
    requires Reading(session.log, opening, request.path, handle) && BytesRead(session.log) == []
    modifies session
    ensures session.Valid() && Unpublished(session.log, stage, true) && session.fs.mine == old(session.fs.mine)
    ensures old(session.log) <= session.log && Appended(session.log) == old(Appended(session.log))
    ensures forall k | |old(session.log)| <= k < |session.log| :: session.log[k].op.Others? || session.log[k].op.Read?
    ensures error.None? ==>
      && Reading(session.log, opening, request.path, handle) && BytesRead(session.log) == current
      && (|current| <= request.expectedSize ==>
            |session.log| > |old(session.log)| && session.log[|session.log| - 1].op == Read(handle, |current|, Some([])))
  {
    hide Unpublished, Chained, Sound, Possible, Appended, BytesRead, Reading;
    current := [];
    error := None;
    while |current| <= request.expectedSize
      invariant error.None? && session.position == |current|
      invariant session.Valid() && Unpublished(session.log, stage, true) && session.fs.mine == old(session.fs.mine)
      invariant old(session.log) <= session.log && Appended(session.log) == old(Appended(session.log))
      invariant forall k | |old(session.log)| <= k < |session.log| :: session.log[k].op.Others? || session.log[k].op.Read?
      invariant Reading(session.log, opening, request.path, handle) && BytesRead(session.log) == current
      decreases request.expectedSize + 1 - |current|
    {
      var left := session.InTime();
      if !left { return Some(Timeout), current; }
      ghost var before := session.log;
      var wanted := request.expectedSize + 1 - |current|;
      var bytes := session.Read(handle, if wanted < BUFFER then wanted else BUFFER);
      StaysUnpublished(before, session.log, stage, true);
      Grows(before, session.log);
      if bytes.None? {
        error := LateOr(session, SftpError);
        return;
      }
      ReadsOn(before, session.log, opening, request.path, handle, bytes.value);
      if bytes.value == [] { return; }
      current := current + bytes.value;
    }
  }

  const BUFFER: nat := 32768

  /** Since `from` the target was checked again, opened and read: up to its end, or past the expected size. */
  ghost predicate ReadThrough(log: seq<Event>, from: nat, ev: Evidence, request: Request, current: seq<Byte>) {
    && from <= ev.rechecked < ev.opening < ev.ended < |log|
    && Inspected(log, ev.rechecked, request)
    && log[ev.opening].op.OpenRead? && log[ev.opening].op.path == request.path && log[ev.opening].op.found.Some?
    && Reading(log, ev.opening, request.path, log[ev.opening].op.found.value)
    && BytesRead(log) == current
    && (|current| <= request.expectedSize ==> log[ev.ended].op.Read? && log[ev.ended].op.bytes == Some([]))
    && (forall k | ev.ended < k < |log| :: !log[k].op.Read?)
    && (forall k | from <= k < |log| :: !log[k].op.Append? && !log[k].op.Adjust?)
  }

  lemma ReadThroughStays(before: seq<Event>, after: seq<Event>, from: nat, ev: Evidence, request: Request, current: seq<Byte>)
    requires ReadThrough(before, from, ev, request, current) && before <= after && BytesRead(after) == BytesRead(before)
    requires forall k | |before| <= k < |after| :: Passive(after[k].op)
    ensures ReadThrough(after, from, ev, request, current) && ev.ended < |before|
  {
    hide BytesRead, Inspected, Reading;
    InspectedStays(before, after, ev.rechecked, request);
    ReadingStays(before, after, ev.opening, request.path, before[ev.opening].op.found.value);
  }

  /** Opens the target for reading. */
  method OpenTarget(session: Session, request: Request, stage: string) returns (error: Option<ErrorCode>, handle: nat)
    requires session.Valid() && Unpublished(session.log, stage, true)
    requires forall k | 0 <= k < |session.log| :: !session.log[k].op.Read?
    modifies session
    ensures session.Valid() && Unpublished(session.log, stage, true) && session.fs.mine == old(session.fs.mine)
    ensures (error.Some? && session.log == old(session.log))
            || (Grew(old(session.log), session.log) && session.log[|session.log| - 1].op.OpenRead?)
    ensures Appended(session.log) == old(Appended(session.log)) && BytesRead(session.log) == old(BytesRead(session.log))
    ensures error.None? ==>
      && session.position == 0 && |session.log| > |old(session.log)|
      && session.log[|session.log| - 1].op == OpenRead(request.path, Some(handle))
      && Reading(session.log, |session.log| - 1, request.path, handle)
  {
    hide Unpublished, Chained, Sound, Possible, Appended, BytesRead, Reading;
    handle := 0;
    var left := session.InTime();
    if !left { return Some(Timeout), handle; }
    var found := session.OpenRead(request.path);
    StaysUnpublished(old(session.log), session.log, stage, true);
    Grows(old(session.log), session.log);
    if found.None? {
      error := LateOr(session, SftpError);
      return;
    }
    handle := found.value;
    StartsReading(old(session.log), session.log, request.path, handle);
    error := None;
  }

  /** Reads the opened target and closes its handle. */
  method ReadAndClose(session: Session, request: Request, stage: string, handle: nat, ghost from: nat, ghost staged: Evidence)
    returns (error: Option<ErrorCode>, current: seq<Byte>, ghost ev: Evidence)
    requires session.Valid() && Unpublished(session.log, stage, true) && session.position == 0
    requires BytesRead(session.log) == [] && Reading(session.log, |session.log| - 1, request.path, handle)
    requires from <= staged.rechecked < |session.log| - 1 && Inspected(session.log, staged.rechecked, request)
    requires session.log[|session.log| - 1].op == OpenRead(request.path, Some(handle))
    requires forall k | from <= k < |session.log| :: !session.log[k].op.Append? && !session.log[k].op.Adjust?
    modifies session
    ensures session.Valid() && Unpublished(session.log, stage, true) && session.fs.mine == old(session.fs.mine)
    ensures old(session.log) <= session.log && Appended(session.log) == old(Appended(session.log))
    ensures session.log[|session.log| - 1].op.Close?
    ensures error.None? ==>
      && ev == staged.(opening := ev.opening, ended := ev.ended)
      && ReadThrough(session.log, from, ev, request, current)
  {
    hide Unpublished, Chained, Sound, Possible, Appended, BytesRead, Reading, Inspected, ReadThrough;
    ghost var start := session.log;
    error, current := ReadTarget(session, request, stage, handle, |start| - 1);
    ghost var afterRead := session.log;
    ev := staged.(opening := |start| - 1, ended := |afterRead| - 1);
    var closing := CloseHandle(session, stage);
    if error.Some? { return; }
    error := closing;
    if error.Some? { return; }
    ReadThroughBy(start, afterRead, from, ev, request, handle, current);
    ReadThroughStays(afterRead, session.log, from, ev, request, current);
  }

  lemma ReadThroughBy(start: seq<Event>, log: seq<Event>, from: nat, ev: Evidence, request: Request, handle: nat, current: seq<Byte>)
    requires start <= log && start != [] && start[|start| - 1].op == OpenRead(request.path, Some(handle))
    requires from <= ev.rechecked < ev.opening == |start| - 1 < ev.ended + 1 == |log| && Inspected(start, ev.rechecked, request)
    requires Reading(log, ev.opening, request.path, handle) && BytesRead(log) == current
    requires |current| <= request.expectedSize ==> |log| > |start| && log[|log| - 1].op == Read(handle, |current|, Some([]))
    requires forall k | from <= k < |start| :: !start[k].op.Append? && !start[k].op.Adjust?
    requires forall k | |start| <= k < |log| :: log[k].op.Others? || log[k].op.Read?
    requires BytesRead(start) == []
    ensures ReadThrough(log, from, ev, request, current)
  {
    hide BytesRead, Reading, Inspected;
    assert |log| == |start| ==> log == start;
    InspectedStays(start, log, ev.rechecked, request);
  }

  /** Checks the target again and reads it. */
  method ReadAgain(session: Session, request: Request, stage: string, ghost staged: Evidence)
    returns (error: Option<ErrorCode>, current: seq<Byte>, ghost ev: Evidence)
    requires session.Valid() && Unpublished(session.log, stage, true)
    requires BytesRead(session.log) == [] && forall k | 0 <= k < |session.log| :: !session.log[k].op.Read?
    modifies session
    ensures session.Valid() && Unpublished(session.log, stage, true) && session.fs.mine == old(session.fs.mine)
    ensures old(session.log) <= session.log && Appended(session.log) == old(Appended(session.log))
    ensures error.None? ==>
      && ev == staged.(rechecked := ev.rechecked, opening := ev.opening, ended := ev.ended)
      && ReadThrough(session.log, |old(session.log)|, ev, request, current)
  {
    hide Unpublished, Chained, Sound, Possible, Appended, BytesRead, Reading, Inspected, Matches, Judged, ReadThrough;
    current, ev := [], staged;
    var seen;
    error, seen := CheckTarget(session, request, stage, ConcurrentChange, true);
    if error.Some? { return; }
    ghost var checked := session.log;
    var handle;
    error, handle := OpenTarget(session, request, stage);
    if error.Some? { return; }
    InspectedStays(checked, session.log, |checked| - 1, request);
    error, current, ev := ReadAndClose(session, request, stage, handle, |old(session.log)|, staged.(rechecked := |checked| - 1));
  }

  /** Re-checks the target around a complete read of it. */
  method ConfirmTarget(session: Session, request: Request, stage: string, hash: seq<Byte> -> nat, ghost staged: Evidence)
    returns (error: Option<ErrorCode>, ghost ev: Evidence)
    requires session.Valid() && Unpublished(session.log, stage, true)
    requires Verified(session.log, staged, request, stage) && staged.staged == |session.log| - 1
    requires forall k | 0 <= k < |session.log| :: !session.log[k].op.Read?
    requires BytesRead(session.log) == []
    modifies session
    ensures session.Valid() && Unpublished(session.log, stage, true) && session.fs.mine == old(session.fs.mine)
    ensures old(session.log) <= session.log
    ensures error.None? ==> Ready(session.log, ev, request, stage, hash)
  {
    hide Unpublished, Chained, Sound, Possible, Appended, BytesRead, Verified, Confirmed, Inspected, Matches, ReadThrough, Judged;
    var current;
    error, current, ev := ReadAgain(session, request, stage, staged);
    if error.Some? { return; }
    if |current| != request.expectedSize { return Some(ConcurrentChange), ev; }
    var hashed: bool := *;
    if !hashed { return Some(InternalError), ev; }
    if hash(current) != request.expectedDigest { return Some(ConcurrentChange), ev; }
    ghost var read := session.log;
    var seen;
    error, seen := CheckTarget(session, request, stage, ConcurrentChange, true);
    if error.Some? { return; }
    ReadThroughStays(read, session.log, |old(session.log)|, ev, request, current);
    ev := ev.(confirmed := |session.log| - 1);
    NowReady(old(session.log), session.log, staged, ev, request, stage, hash, current);
  }

  /** A complete read with the expected size and digest, followed by one more check, is what a rename needs. */
  lemma NowReady(before: seq<Event>, log: seq<Event>, staged: Evidence, ev: Evidence, request: Request, stage: string,
                 hash: seq<Byte> -> nat, current: seq<Byte>)
    requires Verified(before, staged, request, stage) && staged.staged == |before| - 1 && before <= log
    requires Appended(log) == Appended(before)
    requires ev == staged.(rechecked := ev.rechecked, opening := ev.opening, ended := ev.ended, confirmed := ev.confirmed)
    requires ReadThrough(log, |before|, ev.(confirmed := staged.confirmed), request, current)
    requires |current| == request.expectedSize && hash(current) == request.expectedDigest
    requires ev.ended < ev.confirmed == |log| - 1 && Inspected(log, ev.confirmed, request)
    ensures Ready(log, ev, request, stage, hash)
  {
    hide Appended, BytesRead, Reading, Verified, Inspected, Matches;
    StillVerified(before, log, staged, ev, request, stage);
    assert forall k | ev.confirmed <= k < |log| :: !log[k].op.Read?;
  }

  lemma StartsReading(before: seq<Event>, after: seq<Event>, path: string, handle: nat)
    requires Grew(before, after) && after[|after| - 1].op == OpenRead(path, Some(handle))
    requires forall k | 0 <= k < |before| :: !before[k].op.Read?
    ensures Reading(after, |after| - 1, path, handle)
  {
    hide BytesRead;
  }

  lemma StillVerified(before: seq<Event>, after: seq<Event>, staged: Evidence, ev: Evidence, request: Request, stage: string)
    requires Verified(before, staged, request, stage) && before <= after && Appended(after) == Appended(before)
    requires forall k | |before| <= k < |after| :: !after[k].op.Append? && !after[k].op.Adjust?
    requires ev.inspected == staged.inspected && ev.created == staged.created && ev.synced == staged.synced
    requires ev.closed == staged.closed && ev.staged == staged.staged
    ensures Verified(after, ev, request, stage)
  {
    hide Appended, Matches, UnpreservedMetadata;
  }

  // ----- publication and the whole operation -----

  /** The one rename, at `at`, came after everything it needs. */
  ghost predicate Attempted(log: seq<Event>, at: nat, request: Request, stage: string, hash: seq<Byte> -> nat, ok: bool) {
    && at < |log| && log[at].op == Rename(stage, request.path, ok)
    && Unpublished(log[..at], stage, true)
    && (exists ev :: Ready(log[..at], ev, request, stage, hash))
    && (forall k | at < k < |log| :: !Touches(log[k].op))
  }

  /** Renames the staging file over the target and looks at the result. */
  method Publish(session: Session, cleanup: StagingFileCleanup, request: Request, stage: string, hash: seq<Byte> -> nat,
                 ghost ev: Evidence)
    returns (error: Option<ErrorCode>, published: Option<Attributes>)
    requires session.Valid() && Unpublished(session.log, stage, true) && Ready(session.log, ev, request, stage, hash)
    requires session.fs.mine.Some? && session.fs.mine.value.path == stage && !cleanup.published
    modifies session`fs, session`log, cleanup`published
    ensures session.Valid() && old(session.log) <= session.log
    ensures
      || (Unpublished(session.log, stage, true) && !cleanup.published && error.Some?)
      || (exists at: nat :: Attempted(session.log, at, request, stage, hash, cleanup.published) && (error.None? ==> cleanup.published))
    ensures error.None? ==>
      && published.Some? && Regular(published.value) && published.value.size.GetOr(0) == |request.content|
      && session.log[|session.log| - 1].op == Lstat(request.path, published)
  {
    hide Unpublished, Chained, Sound, Possible, Ready;
    published := None;
    var left := session.InTime();
    if !left { return Some(Timeout), published; }
    ghost var before := session.log;
    var ok := session.Rename(stage, request.path);
    ghost var at := |session.log| - 1;
    AttemptedNow(before, session.log, ev, request, stage, hash, ok);
    assert Attempted(session.log, at, request, stage, hash, ok);
    if !ok {
      var unsupported: bool := *;
      error := LateOr(session, if unsupported then ReplaceUnsupported else SftpError);
      return;
    }
    cleanup.MarkPublished();
    ghost var renamed := session.log;
    published := session.Lstat(request.path);
    assert session.log[..at] == renamed[..at];
    assert Attempted(session.log, at, request, stage, hash, cleanup.published);
    if published.None? {
      error := LateOr(session, SftpError);
      return;
    }
    if !Regular(published.value) || published.value.size.GetOr(0) != |request.content| {
      return Some(ConcurrentChange), published;
    }
    error := None;
  }

  lemma AttemptedNow(before: seq<Event>, after: seq<Event>, ev: Evidence, request: Request, stage: string,
                     hash: seq<Byte> -> nat, ok: bool)
    requires Grew(before, after) && Unpublished(before, stage, true) && Ready(before, ev, request, stage, hash)
    requires after[|after| - 1].op == Rename(stage, request.path, ok)
    ensures Attempted(after, |after| - 1, request, stage, hash, ok)
  {
    hide Appended, BytesRead, Matches, UnpreservedMetadata;
    var at := |after| - 1;
    assert after[..at] == before + [after[|before|]];
    StaysUnpublishedOthers(before, after[..at], stage);
    ReadyOthers(before, after[..at], ev, request, stage, hash);
  }

  lemma StaysUnpublishedOthers(before: seq<Event>, after: seq<Event>, stage: string)
    requires Unpublished(before, stage, true) && |after| == |before| + 1 && before <= after && after[|before|].op.Others?
    ensures Unpublished(after, stage, true)
  {
    var k :| 0 <= k < |before| && before[k].op == Create(stage, true);
    assert after[k].op == Create(stage, true);
  }

  lemma ReadyOthers(before: seq<Event>, after: seq<Event>, ev: Evidence, request: Request, stage: string, hash: seq<Byte> -> nat)
    requires Ready(before, ev, request, stage, hash) && |after| == |before| + 1 && before <= after && after[|before|].op.Others?
    ensures Ready(after, ev, request, stage, hash)
  {
    hide Verified, Confirmed;
    OthersAddNothing(before, after);
    StillVerified(before, after, ev, ev, request, stage);
    ConfirmedOthers(before, after, ev, request, hash);
  }

  lemma OthersAddNothing(before: seq<Event>, after: seq<Event>)
    requires |after| == |before| + 1 && before <= after && after[|before|].op.Others?
    ensures Appended(after) == Appended(before) && BytesRead(after) == BytesRead(before)
  {
    assert after[..|after| - 1] == before;
    assert Appended(after) == Appended(before) + [];
    assert BytesRead(after) == BytesRead(before) + [];
  }

  lemma ConfirmedOthers(before: seq<Event>, after: seq<Event>, ev: Evidence, request: Request, hash: seq<Byte> -> nat)
    requires Confirmed(before, ev, request, hash) && BytesRead(after) == BytesRead(before)
    requires |after| == |before| + 1 && before <= after && after[|before|].op.Others?
    ensures Confirmed(after, ev, request, hash)
  {
    hide BytesRead, Inspected, Reading;
    InspectedStays(before, after, ev.rechecked, request);
    InspectedStays(before, after, ev.confirmed, request);
    var handle := before[ev.opening].op.found.value;
    ReadingStays(before, after, ev.opening, request.path, handle);
  }

  ghost predicate Tried(log: seq<Event>, request: Request, stage: string, hash: seq<Byte> -> nat, ok: bool) {
    exists at: nat :: Attempted(log, at, request, stage, hash, ok)
  }

  /** The staging file was looked at once, and did not show the metadata that `missing` names. */
  ghost predicate Refuted(log: seq<Event>, at: nat, source: Attributes, stage: string, missing: seq<Field>) {
    && at < |log| && log[at].op.Lstat? && log[at].op.path == stage && log[at].op.reply.Some?
    && missing == UnpreservedMetadata(source, log[at].op.reply.value)
  }

  /** Everything between the first check and the destructor. */
  method ReplaceStaged(session: Session, cleanup: StagingFileCleanup, request: Request, source: Attributes, stage: string,
                       hash: seq<Byte> -> nat, ghost inspected: nat)
    returns (error: Option<ErrorCode>, missing: seq<Field>, published: Option<Attributes>)
    requires session.Valid() && session.fs.mine.None? && Unpublished(session.log, stage, false)
    requires !cleanup.created && !cleanup.published
    requires OnlyLooked(session.log) && Inspected(session.log, inspected, request)
    requires session.log[inspected].op.reply == Some(source)
    requires Appended(session.log) == [] && BytesRead(session.log) == []
    modifies session, cleanup
    ensures session.Valid() && old(session.log) <= session.log
    ensures || (Unpublished(session.log, stage, cleanup.created) && !cleanup.published && error.Some?)
            || (cleanup.created && Tried(session.log, request, stage, hash, cleanup.published)
                && (error.None? ==> cleanup.published))
    ensures error.None? ==>
      published.Some? && Regular(published.value) && published.value.size.GetOr(0) == |request.content|
    ensures missing != [] ==> error == Some(MetadataNotPreserved) && Unpublished(session.log, stage, true) && cleanup.created
                              && exists at: nat :: Refuted(session.log, at, source, stage, missing)
  {
    hide Unpublished, Chained, Sound, Possible, Ready, Attempted, Verified, Durable, Appended, BytesRead, Matches,
         UnpreservedMetadata;
    missing, published := [], None;
    ghost var durable;
    error, durable := Stage(session, cleanup, request, source, stage, inspected);
    if error.Some? { return; }
    ghost var ev;
    error, missing, ev := VerifyStage(session, request, source, stage, durable);
    if missing != [] { assert Refuted(session.log, |session.log| - 1, source, stage, missing); }
    if error.Some? { return; }
    error, ev := ConfirmTarget(session, request, stage, hash, ev);
    if error.Some? { return; }
    error, published := Publish(session, cleanup, request, stage, hash, ev);
  }

  /** The service's operation from the caller's request to the destructor of the cleanup object. The first thing asked
      of the server is the target's metadata, and its answer decides alone when it is not what the caller expects. */
  method Replace(session: Session, request: Request, nonce: string, hash: seq<Byte> -> nat) returns (outcome: Outcome)
    requires session.Valid() && session.log == []
    modifies session
    ensures session.Valid() && Protocol(session.log, request, StagePath(request.path, nonce), hash)
    ensures Refusal(request, nonce).Some? ==> outcome == Outcome(Refusal(request, nonce), [], None) && session.log == []
    ensures Refusal(request, nonce).None? ==>
      && |session.log| >= 2 && session.log[1].op.Lstat? && session.log[1].op.path == request.path
      && (session.log[1].op.reply.None? || !Matches(session.log[1].op.reply.value, request) ==>
            |session.log| == 2 && Judged(session.log[1].op.reply, request, ReplaceUnsupported, outcome.error))
      && (outcome.missing != [] ==>
            && session.log[1].op.reply.Some?
            && exists at: nat :: Refuted(session.log, at, session.log[1].op.reply.value, StagePath(request.path, nonce), outcome.missing))
    ensures outcome.missing != [] ==>
      outcome.error == Some(MetadataNotPreserved) && (forall k | 0 <= k < |session.log| :: !session.log[k].op.Rename?)
    ensures outcome.error.None? ==>
      && Holds(session.log, Rename(StagePath(request.path, nonce), request.path, true))
      && outcome.published.Some? && Regular(outcome.published.value)
      && outcome.published.value.size.GetOr(0) == |request.content|
  {
    hide Unpublished, Chained, Sound, Possible, Ready, Attempted, Protocol, Appended, BytesRead, Inspected, Refusal,
         Tried, Refuted;
    var stage := StagePath(request.path, nonce);
    NothingYet(stage);
    var refusal := Refusal(request, nonce);
    if refusal.Some? {
      ProtocolWithoutRename(session.log, request, stage, hash);
      return Outcome(refusal, [], None);
    }
    var error, source := CheckTarget(session, request, stage, ReplaceUnsupported, false);
    ghost var checked := session.log;
    if error.Some? {
      ProtocolWithoutRename(session.log, request, stage, hash);
      return Outcome(error, [], None);
    }
    var cleanup := new StagingFileCleanup(session, stage);
    var missing, published;
    error, missing, published := ReplaceStaged(session, cleanup, request, source, stage, hash, 1);
    ghost var before := session.log;
    cleanup.Destroy();
    outcome := Outcome(error, missing, published);
    assert session.log[1] == checked[1];
    if missing != [] {
      NeverRenamed(before, session.log, stage);
      RefutedStays(before, session.log, source, stage, missing);
    }
    if Tried(before, request, stage, hash, cleanup.published) && cleanup.created {
      if cleanup.published { ProtocolPublished(before, request, stage, hash); }
      else { ProtocolRefused(before, session.log, request, stage, hash); }
    } else if cleanup.created {
      ProtocolUnlinked(before, session.log, request, stage, hash);
    } else {
      ProtocolWithoutRename(session.log, request, stage, hash);
    }
  }

  lemma RefutedStays(before: seq<Event>, after: seq<Event>, source: Attributes, stage: string, missing: seq<Field>)
    requires before <= after && exists at: nat :: Refuted(before, at, source, stage, missing)
    ensures exists at: nat :: Refuted(after, at, source, stage, missing)
  {
    hide UnpreservedMetadata;
    var at: nat :| Refuted(before, at, source, stage, missing);
    assert Refuted(after, at, source, stage, missing);
  }

  lemma NeverRenamed(before: seq<Event>, after: seq<Event>, stage: string)
    requires Unpublished(before, stage, true)
    requires after == before || (Grew(before, after) && after[|after| - 1].op.Unlink?)
    ensures forall k | 0 <= k < |after| :: !after[k].op.Rename?
  {
  }

  lemma NothingYet(stage: string)
    ensures Unpublished([], stage, false) && Appended([]) == [] && BytesRead([]) == []
  {
  }

  lemma ProtocolWithoutRename(log: seq<Event>, request: Request, stage: string, hash: seq<Byte> -> nat)
    requires Unpublished(log, stage, false)
    ensures Protocol(log, request, stage, hash)
  {
  }

  lemma ProtocolUnlinked(before: seq<Event>, after: seq<Event>, request: Request, stage: string, hash: seq<Byte> -> nat)
    requires Unpublished(before, stage, true) && Grew(before, after) && after[|after| - 1].op == Unlink(stage)
    ensures Protocol(after, request, stage, hash)
  {
    hide Ready;
    HoldsOn(before, after, Create(stage, true));
    HoldsOn(before, after, Rename(stage, request.path, true));
  }

  /** The history up to a rename and after it, where only the rename and the creation touch names. */
  lemma AttemptShape(log: seq<Event>, at: nat, request: Request, stage: string, hash: seq<Byte> -> nat, ok: bool)
    requires Attempted(log, at, request, stage, hash, ok)
    ensures forall k | 0 <= k < |log| && log[k].op.Create? :: log[k].op.path == stage
    ensures forall j, k | 0 <= j < k < |log| && log[j].op.Create? :: !log[k].op.Create?
    ensures forall k | 0 <= k < |log| && log[k].op.Rename? :: k == at
    ensures forall k | 0 <= k < |log| :: !log[k].op.Unlink?
    ensures Holds(log, Create(stage, true))
    ensures Holds(log, Rename(stage, request.path, true)) <==> ok
  {
    hide Ready;
    var head := log[..at];
    assert forall k | 0 <= k < at :: head[k] == log[k];
    var c :| 0 <= c < |head| && head[c].op == Create(stage, true);
    assert log[c].op == Create(stage, true);
    if ok { assert log[at].op == Rename(stage, request.path, true); }
  }

  lemma ProtocolPublished(log: seq<Event>, request: Request, stage: string, hash: seq<Byte> -> nat)
    requires Tried(log, request, stage, hash, true)
    ensures Protocol(log, request, stage, hash)
    ensures Holds(log, Rename(stage, request.path, true))
  {
    hide Ready, Unpublished, Holds;
    var at: nat :| Attempted(log, at, request, stage, hash, true);
    AttemptShape(log, at, request, stage, hash, true);
  }

  lemma ProtocolRefused(before: seq<Event>, after: seq<Event>, request: Request, stage: string, hash: seq<Byte> -> nat)
    requires Tried(before, request, stage, hash, false) && Grew(before, after) && after[|after| - 1].op == Unlink(stage)
    ensures Protocol(after, request, stage, hash)
  {
    hide Ready, Unpublished;
    var at: nat :| Attempted(before, at, request, stage, hash, false);
    AttemptShape(before, at, request, stage, hash, false);
    HoldsOn(before, after, Create(stage, true));
    HoldsOn(before, after, Rename(stage, request.path, true));
    assert after[..at] == before[..at];
  }
}
