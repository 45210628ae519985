/** What the protocol of a guarded replacement guarantees, whatever the other clients do between its requests. */
module GuardedReplaceFacts {
  import opened Wrappers
  import opened Bytes
  import opened RemoteFiles
  import opened GuardedReplace

  lemma StageIsAnotherPath(path: string, nonce: string)
    ensures StagePath(path, nonce) != path
  {
    assert |StagePath(path, nonce)| == |path| + |STAGE_MARK| + |nonce|;
  }

  /** This session's node, if any, is the staging file. */
  ghost predicate Settled(fs: FileSystem, stage: string) {
    Sound(fs) && (fs.mine.Some? ==> fs.mine.value.path == stage)
  }

  lemma SettledStep(e: Event, stage: string)
    requires Settled(e.before, stage) && Possible(e) && (e.op.Create? ==> e.op.path == stage)
    ensures Settled(e.after, stage)
  {
  }

  lemma {:induction false} SettledAlways(log: seq<Event>, stage: string, k: nat)
    requires Chained(log) && k < |log|
    requires forall j | 0 <= j < |log| && log[j].op.Create? :: log[j].op.path == stage
    ensures Settled(log[k].before, stage)
  {
    hide Possible, Sound;
    if k > 0 {
      SettledAlways(log, stage, k - 1);
      SettledStep(log[k - 1], stage);
    }
  }

  // ----- the target -----

  /** A request other than a rename leaves another path than the staging path alone. */
  lemma OwnStepSparesOthers(e: Event, stage: string, path: string)
    requires Settled(e.before, stage) && Possible(e) && !e.op.Others? && !e.op.Rename? && path != stage
    requires e.op.Create? ==> e.op.path == stage
    requires e.op.Unlink? ==> e.op.path == stage
    ensures At(e.after, path) == At(e.before, path)
  {
  }

  lemma RenameEffect(e: Event, stage: string, path: string)
    requires Settled(e.before, stage) && Possible(e) && e.op.Rename? && e.op.source == stage && e.op.target == path
    ensures At(e.after, path) == At(e.before, path) || At(e.after, path) == At(e.before, stage)
    ensures e.op.ok ==> At(e.after, path) == At(e.before, stage)
  {
  }

  // ----- the staging file -----

  ghost predicate UntouchedBetween(log: seq<Event>, from: nat, to: nat) {
    to <= |log| && forall k | from < k < to :: !Touches(log[k].op)
  }

  lemma MineStep(e: Event)
    requires Sound(e.before) && Possible(e) && e.before.mine.Some? && !Touches(e.op)
    ensures e.after.mine == e.before.mine
    ensures e.op.Append? && e.op.count > 0 ==> MyContent(e.after) == MyContent(e.before) + Gain(e.op)
    ensures !e.op.Append? ==> MyContent(e.after) == MyContent(e.before)
    ensures !e.op.Append? && !e.op.Adjust? ==>
      NodeAt(e.after, e.before.mine.value.node) == NodeAt(e.before, e.before.mine.value.node)
  {
  }

  lemma AppendedStep(log: seq<Event>, k: nat)
    requires k < |log|
    ensures Appended(log[..k + 1]) == Appended(log[..k]) + Gain(log[k].op)
    ensures BytesRead(log[..k + 1]) == BytesRead(log[..k]) + Found(log[k].op)
  {
    assert log[..k + 1][..k] == log[..k];
  }

  lemma {:induction false} NothingAppendedBefore(log: seq<Event>, created: nat, k: nat)
    requires k <= created < |log| && forall j | 0 <= j < k :: !log[j].op.Append?
    ensures Appended(log[..k]) == []
  {
    hide Appended;
    if k > 0 {
      NothingAppendedBefore(log, created, k - 1);
      AppendedStep(log, k - 1);
    } else {
      assert log[..0] == [];
      NoBytesYet();
    }
  }

  lemma NoBytesYet()
    ensures Appended([]) == [] && BytesRead([]) == []
  {
  }

  /** From its creation on, the staging file holds exactly the acknowledged bytes. */
  lemma {:induction false} StageHoldsAppended(log: seq<Event>, created: nat, stage: string, r: nat, k: nat)
    requires Chained(log) && created < k <= r < |log| && UntouchedBetween(log, created, r)
    requires forall j | 0 <= j < |log| && log[j].op.Create? :: log[j].op.path == stage
    requires log[created].op == Create(stage, true)
    requires forall j | 0 <= j < r && log[j].op.Append? :: created < j && log[j].op.count > 0
    ensures log[k].before.mine == log[created].after.mine && log[k].before.mine.Some?
    ensures MyContent(log[k].before) == Appended(log[..k])
  {
    hide Possible, Appended, Sound;
    SettledAlways(log, stage, k - 1);
    AppendedStep(log, k - 1);
    if k == created + 1 {
      NothingAppendedBefore(log, created, created);
      CreationIsEmpty(log[created]);
    } else {
      StageHoldsAppended(log, created, stage, r, k - 1);
      MineStep(log[k - 1]);
    }
  }

  lemma CreationIsEmpty(e: Event)
    requires Possible(e) && e.op.Create? && e.op.made
    ensures e.after.mine.Some? && e.after.mine.value.path == e.op.path && MyContent(e.after) == []
  {
  }

  lemma {:induction false} StageKeepsNode(log: seq<Event>, from: nat, stage: string, r: nat, k: nat)
    requires Chained(log) && from <= k <= r < |log| && UntouchedBetween(log, from, r) && !Touches(log[from].op)
    requires forall j | 0 <= j < |log| && log[j].op.Create? :: log[j].op.path == stage
    requires log[from].before.mine.Some?
    requires forall j | from <= j < r :: !log[j].op.Append? && !log[j].op.Adjust?
    ensures log[k].before.mine == log[from].before.mine
    ensures NodeAt(log[k].before, log[from].before.mine.value.node) == NodeAt(log[from].before, log[from].before.mine.value.node)
  {
    hide Possible, Sound;
    if k > from {
      SettledAlways(log, stage, k - 1);
      StageKeepsNode(log, from, stage, r, k - 1);
      MineStep(log[k - 1]);
    }
  }

  lemma PreservedReports(source: Attributes, staged: Attributes, file: File)
    requires UnpreservedMetadata(source, staged) == [] && Reports(staged, file)
    ensures Reports(source.(size := None), file)
  {
  }

  /** What a rename publishes: the staging file holds exactly the requested bytes, and every metadata field the target
      was first seen with. */
  ghost predicate StageReady(log: seq<Event>, r: nat, ev: Evidence, request: Request, stage: string)
    requires r < |log|
  {
    && ev.inspected < r && log[ev.inspected].op.Lstat? && log[ev.inspected].op.reply.Some?
    && At(log[r].before, stage).Some?
    && At(log[r].before, stage).value.file.content == request.content
    && Reports(log[ev.inspected].op.reply.value.(size := None), At(log[r].before, stage).value.file)
  }

  /** Nothing but creation, and a last unlink, touches names before a rename. */
  lemma BetweenCreationAndRename(log: seq<Event>, request: Request, stage: string, hash: seq<Byte> -> nat, r: nat, created: nat)
    requires Protocol(log, request, stage, hash) && r < |log| && log[r].op.Rename?
    requires created < r && log[created].op == Create(stage, true)
    ensures UntouchedBetween(log, created, r)
    ensures forall j | 0 <= j < |log| && log[j].op.Create? :: log[j].op.path == stage
  {
    hide Ready;
  }

  lemma RenamePublishesRequest(log: seq<Event>, request: Request, stage: string, hash: seq<Byte> -> nat, r: nat, ev: Evidence)
    requires Chained(log) && Protocol(log, request, stage, hash) && r < |log| && log[r].op.Rename?
    requires Ready(log[..r], ev, request, stage, hash)
    ensures StageReady(log, r, ev, request, stage)
  {
    hide Possible, Appended, Sound, Protocol, Confirmed, BytesRead, UnpreservedMetadata, Matches, Reports;
    var head := log[..r];
    assert Verified(head, ev, request, stage);
    assert head[ev.created] == log[ev.created] && head[ev.staged] == log[ev.staged] && head[ev.inspected] == log[ev.inspected];
    BetweenCreationAndRename(log, request, stage, hash, r, ev.created);
    assert forall j | 0 <= j < r :: head[j] == log[j];
    StageHoldsAppended(log, ev.created, stage, r, r);
    StageHoldsAppended(log, ev.created, stage, r, ev.staged);
    StageKeepsNode(log, ev.staged, stage, r, r);
    SettledAlways(log, stage, r);
    SettledAlways(log, stage, ev.staged);
    MineIsAtStage(log[r].before, stage);
    MineIsAtStage(log[ev.staged].before, stage);
    LstatTells(log[ev.staged]);
    PreservedReports(log[ev.inspected].op.reply.value, log[ev.staged].op.reply.value, At(log[r].before, stage).value.file);
  }

  lemma MineIsAtStage(fs: FileSystem, stage: string)
    requires Settled(fs, stage) && fs.mine.Some?
    ensures At(fs, stage).Some? && At(fs, stage).value.node == fs.mine.value.node
    ensures NodeAt(fs, fs.mine.value.node) == Some(At(fs, stage).value.file)
    ensures MyContent(fs) == At(fs, stage).value.file.content
  {
  }

  lemma LstatTells(e: Event)
    requires Possible(e) && e.op.Lstat? && e.op.reply.Some?
    ensures At(e.before, e.op.path).Some? && Reports(e.op.reply.value, At(e.before, e.op.path).value.file)
  {
  }

  /** Main publication result: among this session's requests only the single rename can change the target, and then
      the target becomes the staged file with the requested bytes and the preserved metadata. */
  lemma OnlyThePublishedFileReplacesTheTarget(log: seq<Event>, request: Request, nonce: string, hash: seq<Byte> -> nat, k: nat)
    requires Chained(log) && Protocol(log, request, StagePath(request.path, nonce), hash)
    requires k < |log| && !log[k].op.Others? && At(log[k].after, request.path) != At(log[k].before, request.path)
    ensures log[k].op.Rename? && At(log[k].after, request.path) == At(log[k].before, StagePath(request.path, nonce))
    ensures exists ev :: StageReady(log, k, ev, request, StagePath(request.path, nonce))
    ensures forall j | 0 <= j < |log| && !log[j].op.Others? && j != k :: At(log[j].after, request.path) == At(log[j].before, request.path)
  {
    hide Possible, Sound, Ready, StageReady;
    var stage := StagePath(request.path, nonce);
    StageIsAnotherPath(request.path, nonce);
    forall j: nat | j < |log| && !log[j].op.Others? && At(log[j].after, request.path) != At(log[j].before, request.path)
      ensures log[j].op.Rename?
    {
      SettledAlways(log, stage, j);
      if !log[j].op.Rename? { OwnStepSparesOthers(log[j], stage, request.path); }
    }
    SettledAlways(log, stage, k);
    RenameEffect(log[k], stage, request.path);
    var ev :| Ready(log[..k], ev, request, stage, hash);
    RenamePublishesRequest(log, request, stage, hash, k, ev);
  }

  // ----- what is replaced -----

  /** Between two points of the history no other client changed what the path leads to. */
  ghost predicate LeftAlone(log: seq<Event>, path: string, from: nat, to: nat) {
    to <= |log| && forall k | from <= k < to && log[k].op.Others? :: At(log[k].after, path) == At(log[k].before, path)
  }

  lemma {:induction false} TargetStays(log: seq<Event>, request: Request, stage: string, hash: seq<Byte> -> nat,
                                       from: nat, r: nat, k: nat)
    requires Chained(log) && Protocol(log, request, stage, hash) && stage != request.path
    requires from <= k <= r < |log| && log[r].op.Rename? && LeftAlone(log, request.path, from, r)
    ensures At(log[k].before, request.path) == At(log[from].before, request.path)
  {
    hide Possible, Sound, Ready;
    if k > from {
      TargetStays(log, request, stage, hash, from, r, k - 1);
      SettledAlways(log, stage, k - 1);
      if !log[k - 1].op.Others? { OwnStepSparesOthers(log[k - 1], stage, request.path); }
    }
  }

  /** Each read returned the next bytes of `content`. */
  ghost predicate ReadsOf(log: seq<Event>, to: nat, content: seq<Byte>) {
    to <= |log| && forall k | 0 <= k < to && log[k].op.Read? ::
      log[k].op.bytes.Some? && log[k].op.offset == |BytesRead(log[..k])|
      && ReadsFrom(content, log[k].op.offset, log[k].op.bytes.value)
  }

  lemma {:induction false} ReadsArePrefix(log: seq<Event>, to: nat, content: seq<Byte>, k: nat)
    requires ReadsOf(log, to, content) && k <= to
    ensures BytesRead(log[..k]) <= content
  {
    hide BytesRead;
    if k == 0 {
      assert log[..0] == [];
      NoBytesYet();
    } else {
      ReadsArePrefix(log, to, content, k - 1);
      AppendedStep(log, k - 1);
    }
  }

  lemma {:induction false} ReadsGrow(log: seq<Event>, j: nat, k: nat)
    requires j <= k <= |log|
    ensures |BytesRead(log[..j])| <= |BytesRead(log[..k])|
  {
    hide BytesRead;
    if j < k {
      ReadsGrow(log, j, k - 1);
      AppendedStep(log, k - 1);
    }
  }

  lemma CompleteRead(log: seq<Event>, to: nat, content: seq<Byte>, ended: nat)
    requires ReadsOf(log, to, content) && ended < to && log[ended].op.Read? && log[ended].op.bytes == Some([])
    ensures BytesRead(log[..to]) == content
  {
    hide BytesRead;
    ReadsArePrefix(log, to, content, ended);
    ReadsArePrefix(log, to, content, to);
    ReadsGrow(log, ended, to);
  }

  lemma EachReadIsOf(log: seq<Event>, request: Request, stage: string, hash: seq<Byte> -> nat, r: nat, ev: Evidence, entry: Entry)
    requires Chained(log) && r < |log| && Confirmed(log[..r], ev, request, hash)
    requires forall k | ev.rechecked <= k < r :: At(log[k].before, request.path) == Some(entry)
    requires RegularMode(entry.file.mode)
    ensures ReadsOf(log, r, entry.file.content)
  {
    hide BytesRead, Matches, Possible, Inspected;
    var head := log[..r];
    assert forall j | 0 <= j < r :: head[j] == log[j];
    var opening := log[ev.opening];
    OpeningTells(opening, entry);
    forall k: nat | k < r && log[k].op.Read?
      ensures log[k].op.bytes.Some? && log[k].op.offset == |BytesRead(log[..k])|
      ensures ReadsFrom(entry.file.content, log[k].op.offset, log[k].op.bytes.value)
    {
      assert head[k] == log[k] && head[..k] == log[..k];
      ReadTells(log[k], entry);
    }
  }

  lemma OpeningTells(e: Event, entry: Entry)
    requires Possible(e) && e.op.OpenRead? && e.op.found.Some?
    requires At(e.before, e.op.path) == Some(entry) && RegularMode(entry.file.mode)
    ensures e.op.found == Some(entry.node)
  {
  }

  lemma ReadTells(e: Event, entry: Entry)
    requires Possible(e) && e.op.Read? && e.op.bytes.Some? && NodeAt(e.before, e.op.handle) == Some(entry.file)
    ensures ReadsFrom(entry.file.content, e.op.offset, e.op.bytes.value)
  {
  }

  /** Main safety result: if nobody else changes the target between the second metadata check and the rename, the file
      that the rename replaces is regular and has exactly the content the caller had seen. */
  lemma ReplacedFileWasTheExpectedOne(log: seq<Event>, request: Request, nonce: string, hash: seq<Byte> -> nat, r: nat,
                                      ev: Evidence, expected: seq<Byte>)
    requires Chained(log) && Protocol(log, request, StagePath(request.path, nonce), hash)
    requires r < |log| && log[r].op.Rename? && Ready(log[..r], ev, request, StagePath(request.path, nonce), hash)
    requires LeftAlone(log, request.path, ev.rechecked, r)
    requires forall x: seq<Byte> :: hash(x) == request.expectedDigest ==> x == expected
    ensures At(log[r].before, request.path).Some?
    ensures At(log[r].before, request.path).value.file.content == expected
    ensures RegularMode(At(log[r].before, request.path).value.file.mode)
  {
    hide Possible, Sound, Protocol, Verified, BytesRead, Matches, Reading, ReadsOf;
    var stage := StagePath(request.path, nonce);
    StageIsAnotherPath(request.path, nonce);
    var head := log[..r];
    assert Confirmed(head, ev, request, hash);
    assert head[ev.rechecked] == log[ev.rechecked] && head[ev.ended] == log[ev.ended];
    assert Possible(log[ev.rechecked]);
    LstatTells(log[ev.rechecked]);
    var entry := At(log[ev.rechecked].before, request.path).value;
    MatchesRegular(log[ev.rechecked].op.reply.value, entry.file, request);
    forall k | ev.rechecked <= k <= r ensures At(log[k].before, request.path) == Some(entry) {
      TargetStays(log, request, stage, hash, ev.rechecked, r, k);
    }
    EachReadIsOf(log, request, stage, hash, r, ev, entry);
    CompleteRead(log, r, entry.file.content, ev.ended);
  }

  lemma MatchesRegular(a: Attributes, file: File, request: Request)
    requires Matches(a, request) && Reports(a, file)
    ensures RegularMode(file.mode)
  {
  }

  // ----- the preserved fields -----

  /** The reply tells the same of this field as the file. */
  predicate Tells(a: Attributes, field: Field, file: File) {
    match field
    case Mode => a.mode.Some? ==> a.mode.value == file.mode
    case ModifiedTime => a.mtime.Some? ==> a.mtime.value == file.mtime
    case OwnerId => a.owner.Some? ==> a.owner.value.uid == file.owner.uid
    case GroupId => a.owner.Some? ==> a.owner.value.gid == file.owner.gid
  }

  /** A file that a reply fits, and that differs from another reply wherever the first one leaves that open. */
  function Doubt(source: Attributes, staged: Attributes): File {
    var other := source.owner.GetOr(Owner(0, 0));
    File(seq(staged.size.GetOr(0), _ => 0), staged.mode.GetOr(source.mode.GetOr(0) + 1),
         staged.owner.GetOr(Owner(other.uid + 1, other.gid + 1)), staged.mtime.GetOr(source.mtime.GetOr(0) + 1))
  }

  /** A field is named exactly when the staged file, as far as its reply tells, may differ in it from the target. */
  lemma MissingFieldMayDiffer(source: Attributes, staged: Attributes, field: Field)
    ensures field in UnpreservedMetadata(source, staged)
      <==> exists file :: Reports(staged, file) && !Tells(source, field, file)
  {
    var file := Doubt(source, staged);
    assert Reports(staged, file);
    if field in UnpreservedMetadata(source, staged) { assert !Tells(source, field, file); }
  }

  /** The check passes exactly when the second reply lets nobody doubt the first one's metadata. */
  lemma PreservedExactly(source: Attributes, staged: Attributes)
    ensures UnpreservedMetadata(source, staged) == []
      <==> (forall file :: Reports(staged, file) ==> Reports(source.(size := None), file))
  {
    if UnpreservedMetadata(source, staged) == [] {
      forall file | Reports(staged, file) ensures Reports(source.(size := None), file) {
        PreservedReports(source, staged, file);
      }
    } else {
      var file := Doubt(source, staged);
      assert Reports(staged, file) && !Reports(source.(size := None), file);
    }
  }
}
