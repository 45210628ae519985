/** The guarded replacement of one remote file: stage a sibling, re-verify the target, publish by rename. */
module GuardedReplace {
  import opened Wrappers
  import opened Bytes
  import opened RemoteFiles

  datatype Request = Request(path: string, content: seq<Byte>, expectedSize: nat, expectedModified: Option<nat>,
                             expectedDigest: nat, timeoutSeconds: int)

  datatype ErrorCode = InvalidParameters | ReplaceUnsupported | Timeout | SftpError | ConcurrentChange
                     | MetadataNotPreserved | InternalError

  datatype Field = Mode | ModifiedTime | OwnerId | GroupId

  datatype Outcome = Outcome(error: Option<ErrorCode>, missing: seq<Field>, published: Option<Attributes>)

  const STAGE_MARK := ".yukinal-stage-"
  const PATH_LIMIT: nat := 4096

  function StagePath(path: string, nonce: string): string {
    path + STAGE_MARK + nonce
  }

  function Refusal(request: Request, nonce: string): Option<ErrorCode> {
    if request.path == [] || |request.path| > PATH_LIMIT || request.path[0] != '/'
       || '\0' in request.path || '\r' in request.path || '\n' in request.path
       || request.expectedSize > MEBIBYTE || |request.content| > MEBIBYTE
       || request.timeoutSeconds < 1 || request.timeoutSeconds > 30 then Some(InvalidParameters)
    else if request.path == "/" || request.path[|request.path| - 1] == '/' then Some(ReplaceUnsupported)
    else if |StagePath(request.path, nonce)| > PATH_LIMIT then Some(ReplaceUnsupported)
    else None
  }

  /** A regular file of the expected size and modification time; a size the server leaves out counts as zero. */
  predicate Matches(a: Attributes, request: Request) {
    Regular(a) && a.size.GetOr(0) == request.expectedSize && a.mtime == request.expectedModified
  }

  function UnpreservedMetadata(source: Attributes, staged: Attributes): seq<Field> {
    (if source.mode.Some? && source.mode != staged.mode then [Mode] else [])
    + (if source.mtime.Some? && source.mtime != staged.mtime then [ModifiedTime] else [])
    + (if source.owner.Some? && (staged.owner.None? || source.owner.value.uid != staged.owner.value.uid) then [OwnerId] else [])
    + (if source.owner.Some? && (staged.owner.None? || source.owner.value.gid != staged.owner.value.gid) then [GroupId] else [])
  }

  // ----- the protocol as a property of the session's history -----

  /** Bytes the server acknowledged for the staging file, in order. */
  ghost function Appended(log: seq<Event>): seq<Byte> {
    if log == [] then []
    else Appended(log[..|log| - 1]) + Gain(log[|log| - 1].op)
  }

  function Gain(op: Op): seq<Byte> {
    if op.Append? && 0 < op.count <= |op.data| then op.data[..op.count] else []
  }

  /** Bytes read from the target, in order. */
  ghost function BytesRead(log: seq<Event>): seq<Byte> {
    if log == [] then []
    else BytesRead(log[..|log| - 1]) + Found(log[|log| - 1].op)
  }

  function Found(op: Op): seq<Byte> {
    if op.Read? then op.bytes.GetOr([]) else []
  }

  predicate Touches(op: Op) {
    op.Create? || op.Rename? || op.Unlink?
  }

  /** Where in the history each step of a replacement was confirmed. */
  datatype Evidence = Evidence(inspected: nat, created: nat, synced: nat, closed: nat, staged: nat, rechecked: nat,
                               opening: nat, ended: nat, confirmed: nat)

  ghost predicate Inspected(log: seq<Event>, at: nat, request: Request) {
    && at < |log| && log[at].op.Lstat? && log[at].op.path == request.path && log[at].op.reply.Some?
    && Matches(log[at].op.reply.value, request)
  }

  /** The staging file was created exclusively, then filled with exactly the content, then synced, then closed. */
  ghost predicate Staged(log: seq<Event>, ev: Evidence, request: Request, stage: string) {
    && ev.inspected < ev.created < ev.synced < ev.closed < ev.staged < |log|
    && Inspected(log, ev.inspected, request)
    && log[ev.created].op == Create(stage, true)
    && log[ev.synced].op == Sync(true) && log[ev.closed].op == Close(true)
    && Appended(log) == request.content
    && (forall k | 0 <= k < |log| && log[k].op.Append? :: ev.created < k < ev.synced && log[k].op.count > 0)
    && (forall k | 0 <= k < |log| && log[k].op.Adjust? :: k < ev.synced)
  }

  /** The staging file was seen with every metadata field the target was first seen with. */
  ghost predicate Verified(log: seq<Event>, ev: Evidence, request: Request, stage: string) {
    && Staged(log, ev, request, stage)
    && log[ev.staged].op.Lstat? && log[ev.staged].op.path == stage && log[ev.staged].op.reply.Some?
    && UnpreservedMetadata(log[ev.inspected].op.reply.value, log[ev.staged].op.reply.value) == []
  }

  /** Every read so far continued where the last one ended, through the handle opened at `opening`. */
  ghost predicate Reading(log: seq<Event>, opening: nat, path: string, handle: nat) {
    && opening < |log| && log[opening].op == OpenRead(path, Some(handle))
    && (forall k | 0 <= k < |log| && log[k].op.Read? ::
          && opening < k && log[k].op.handle == handle
          && log[k].op.offset == |BytesRead(log[..k])| && log[k].op.bytes.Some?)
  }

  /** The target was read to its end between two checks of its metadata, and had the expected size and digest. */
  ghost predicate Confirmed(log: seq<Event>, ev: Evidence, request: Request, hash: seq<Byte> -> nat) {
    && ev.staged < ev.rechecked < ev.opening < ev.ended < ev.confirmed < |log|
    && Inspected(log, ev.rechecked, request)
    && log[ev.opening].op.OpenRead? && log[ev.opening].op.path == request.path && log[ev.opening].op.found.Some?
    && Reading(log, ev.opening, request.path, log[ev.opening].op.found.value)
    && (forall k | ev.confirmed <= k < |log| :: !log[k].op.Read?)
    && log[ev.ended].op.Read? && log[ev.ended].op.bytes == Some([])
    && |BytesRead(log)| == request.expectedSize && hash(BytesRead(log)) == request.expectedDigest
    && Inspected(log, ev.confirmed, request)
  }

  /** Everything a rename needs to have been established before it. */
  ghost predicate Ready(log: seq<Event>, ev: Evidence, request: Request, stage: string, hash: seq<Byte> -> nat) {
    && Verified(log, ev, request, stage)
    && Confirmed(log, ev, request, hash)
  }

  ghost predicate Holds(log: seq<Event>, op: Op) {
    exists k :: 0 <= k < |log| && log[k].op == op
  }

  /** The whole protocol: one staging file at most, one guarded rename at most, and the staging file unlinked as the
      last step exactly when it was created and no rename was acknowledged. */
  ghost predicate Protocol(log: seq<Event>, request: Request, stage: string, hash: seq<Byte> -> nat) {
    && (forall k | 0 <= k < |log| && log[k].op.Create? :: log[k].op.path == stage)
    && (forall j, k | 0 <= j < k < |log| && log[j].op.Create? :: !log[k].op.Create?)
    && (forall k | 0 <= k < |log| && log[k].op.Rename? ::
          && log[k].op.source == stage && log[k].op.target == request.path
          && (exists ev :: Ready(log[..k], ev, request, stage, hash))
          && (forall j | 0 <= j < |log| && log[j].op.Rename? :: j == k))
    && (forall k | 0 <= k < |log| && log[k].op.Unlink? :: log[k].op.path == stage && k == |log| - 1)
    && ((log != [] && log[|log| - 1].op.Unlink?)
        <==> Holds(log, Create(stage, true)) && !Holds(log, Rename(stage, request.path, true)))
  }
}
