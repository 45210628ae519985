/** A remote file system reached over SFTP, shared with other clients that may change it between any two requests. */
module RemoteFiles {
  import opened Wrappers
  import opened Bytes

  datatype Owner = Owner(uid: nat, gid: nat)

  datatype File = File(content: seq<Byte>, mode: nat, owner: Owner, mtime: nat)

  /** `mine` is the node this session created and nobody else touches, with the only name that leads to it. */
  datatype FileSystem = FileSystem(names: map<string, nat>, nodes: map<nat, File>, mine: Option<Private>)

  datatype Private = Private(path: string, node: nat)

  /** A reply to a metadata request: a server may leave any field out. */
  datatype Attributes = Attributes(size: Option<nat>, mode: Option<nat>, owner: Option<Owner>, mtime: Option<nat>)

  datatype Entry = Entry(node: nat, file: File)

  function At(fs: FileSystem, path: string): Option<Entry> {
    if path in fs.names && fs.names[path] in fs.nodes
    then Some(Entry(fs.names[path], fs.nodes[fs.names[path]])) else None
  }

  function NodeAt(fs: FileSystem, node: nat): Option<File> {
    if node in fs.nodes then Some(fs.nodes[node]) else None
  }

  predicate RegularMode(mode: nat) {
    mode / 0x1000 % 16 == 8
  }

  predicate Regular(a: Attributes) {
    a.mode.Some? && RegularMode(a.mode.value)
  }

  predicate Reports(a: Attributes, f: File) {
    && (a.size.Some? ==> a.size.value == |f.content|)
    && (a.mode.Some? ==> a.mode.value == f.mode)
    && (a.owner.Some? ==> a.owner.value == f.owner)
    && (a.mtime.Some? ==> a.mtime.value == f.mtime)
  }

  /** Requests and their replies; `Others` is anything the other clients do. A negative count is an error reply. */
  datatype Op =
    | Others
    | Lstat(path: string, reply: Option<Attributes>)
    | Create(path: string, made: bool)
    | Append(data: seq<Byte>, count: int)
    | Adjust(byName: bool, ok: bool)
    | Sync(ok: bool)
    | Close(ok: bool)
    | OpenRead(path: string, found: Option<nat>)
    | Read(handle: nat, offset: nat, bytes: Option<seq<Byte>>)
    | Rename(source: string, target: string, ok: bool)
    | Unlink(path: string)

  datatype Event = Event(op: Op, before: FileSystem, after: FileSystem)

  // ----- what a request may do -----

  /** Every name leads somewhere, and only its own name leads to this session's node. */
  predicate Sound(fs: FileSystem) {
    && (forall p | p in fs.names :: fs.names[p] in fs.nodes)
    && (fs.mine.Some? ==>
          && fs.mine.value.path in fs.names && fs.names[fs.mine.value.path] == fs.mine.value.node
          && (forall p | p in fs.names && p != fs.mine.value.path :: fs.names[p] != fs.mine.value.node))
  }

  predicate Elsewhere(before: FileSystem, after: FileSystem) {
    && Sound(after) && after.mine == before.mine
    && (before.mine.Some? ==> NodeAt(after, before.mine.value.node) == NodeAt(before, before.mine.value.node))
  }

  /** The same file system but for the content and metadata of this session's node. */
  predicate MineBecomes(before: FileSystem, after: FileSystem, content: seq<Byte>) {
    && before.mine.Some? && before.mine.value.node in after.nodes
    && after.nodes[before.mine.value.node].content == content
    && after == before.(nodes := before.nodes[before.mine.value.node := after.nodes[before.mine.value.node]])
  }

  function MyContent(fs: FileSystem): seq<Byte> {
    if fs.mine.Some? && fs.mine.value.node in fs.nodes then fs.nodes[fs.mine.value.node].content else []
  }

  /** An exclusive creation: the name was free, and now leads to a new empty node. */
  predicate Created(before: FileSystem, after: FileSystem, path: string, node: nat) {
    && path !in before.names && node !in before.nodes && node in after.nodes && after.nodes[node].content == []
    && after == FileSystem(before.names[path := node], before.nodes[node := after.nodes[node]], Some(Private(path, node)))
  }

  predicate CreatedUnnoticed(before: FileSystem, after: FileSystem, path: string) {
    && after.mine.None? && path in after.names
    && Created(before, after.(mine := Some(Private(path, after.names[path]))), path, after.names[path])
  }

  /** An applied rename takes the name `target` from whatever held it. */
  function Renamed(before: FileSystem, source: string, target: string): FileSystem
    requires source in before.names
  {
    FileSystem((before.names - {source})[target := before.names[source]], before.nodes, None)
  }

  /** What a reply tells, and what may have happened: an error reply does not say that nothing did. */
  predicate Possible(e: Event) {
    match e.op
    case Others => Elsewhere(e.before, e.after)
    case Lstat(path, reply) =>
      && e.after == e.before
      && (reply.Some? ==> At(e.before, path).Some? && Reports(reply.value, At(e.before, path).value.file))
    case Create(path, made) =>
      && e.before.mine.None?
      && (if made then e.after.mine.Some? && Created(e.before, e.after, path, e.after.mine.value.node)
          else e.after == e.before || CreatedUnnoticed(e.before, e.after, path))
    case Append(data, count) =>
      && count <= |data|
      && exists k: nat :: k <= |data| && (count > 0 ==> k == count)
                          && MineBecomes(e.before, e.after, MyContent(e.before) + data[..k])
    case Adjust(_, _) => MineBecomes(e.before, e.after, MyContent(e.before))
    case Sync(_) => e.after == e.before
    case Close(_) => e.after == e.before
    case OpenRead(path, found) =>
      && e.after == e.before
      && (found.Some? ==>
            && found.value in e.before.nodes
            && (At(e.before, path).Some? && RegularMode(At(e.before, path).value.file.mode)
                ==> found.value == At(e.before, path).value.node))
    case Read(handle, offset, bytes) =>
      && e.after == e.before
      && (bytes.Some? ==> NodeAt(e.before, handle).Some?
                          && ReadsFrom(NodeAt(e.before, handle).value.content, offset, bytes.value))
    case Rename(source, target, ok) =>
      (e.after == e.before && !ok) || (source in e.before.names && e.after == Renamed(e.before, source, target))
    case Unlink(path) =>
      e.after == e.before || e.after == e.before.(names := e.before.names - {path}, mine := None)
  }

  /** A reply holds the bytes at the offset, and is empty only at or past the end. */
  predicate ReadsFrom(content: seq<Byte>, offset: nat, bytes: seq<Byte>) {
    if offset >= |content| then bytes == []
    else 0 < |bytes| <= |content| - offset && bytes == content[offset..offset + |bytes|]
  }

  ghost predicate Chained(log: seq<Event>) {
    && (forall k | 0 <= k < |log| :: Possible(log[k]))
    && (forall k | 0 < k < |log| :: log[k - 1].after == log[k].before)
    && (|log| > 0 ==> Sound(log[0].before) && log[0].before.mine.None?)
  }

  /** The session: the state it is connected to and the history of what happened since. */
  class Session {
    var fs: FileSystem
    var position: nat
    ghost var log: seq<Event>

    ghost predicate Valid()
      reads this
    {
      && Sound(fs) && Chained(log)
      && (log == [] ==> fs.mine.None?)
      && (log != [] ==> log[|log| - 1].after == fs)
    }

    constructor (start: FileSystem)
      requires Sound(start) && start.mine.None?
      ensures Valid() && log == [] && fs == start
    {
      fs, position, log := start, 0, [];
    }

    /** One event happens. */
    method Happen(op: Op, after: FileSystem)
      requires Valid() && Sound(after) && Possible(Event(op, fs, after))
      modifies this`fs, this`log
      ensures Valid() && fs == after && log == old(log) + [Event(op, old(fs), after)]
    {
      log := log + [Event(op, fs, after)];
      fs := after;
    }

    /** Other clients do anything but touch this session's own node and name. */
    method Interfere()
      requires Valid()
      modifies this`fs, this`log
      ensures Valid() && Elsewhere(old(fs), fs) && log == old(log) + [Event(Others, old(fs), fs)]
    {
      var after: FileSystem := *;
      if !Elsewhere(fs, after) { after := fs; }
      Happen(Others, after);
    }

    /** Whether the deadline still leaves time for a request. */
    method InTime() returns (left: bool)
    {
      left := *;
    }

    method Lstat(path: string) returns (reply: Option<Attributes>)
      requires Valid()
      modifies this`fs, this`log
      ensures Valid() && Grew(old(log), log) && log[|log| - 1].op == Op.Lstat(path, reply)
      ensures fs.mine == old(fs.mine)
    {
      Interfere();
      reply := *;
      if !Possible(Event(Op.Lstat(path, reply), fs, fs)) { reply := None; }
      Happen(Op.Lstat(path, reply), fs);
    }

    method Create(path: string) returns (made: bool)
      requires Valid() && fs.mine.None?
      modifies this`fs, this`log
      ensures Valid() && Grew(old(log), log) && log[|log| - 1].op == Op.Create(path, made)
      ensures made ==> fs.mine.Some? && fs.mine.value.path == path
    {
      Interfere();
      made := *;
      var after: FileSystem := *;
      if !(Sound(after) && Possible(Event(Op.Create(path, made), fs, after))) { made, after := false, fs; }
      Happen(Op.Create(path, made), after);
    }

    /** A count above zero tells how many bytes were appended; any other leaves that open. */
    method Append(data: seq<Byte>) returns (count: int)
      requires Valid() && fs.mine.Some?
      modifies this`fs, this`log
      ensures Valid() && Grew(old(log), log) && log[|log| - 1].op == Op.Append(data, count)
      ensures fs.mine == old(fs.mine) && count <= |data|
    {
      Interfere();
      count := *;
      var after: FileSystem := *;
      if !(Sound(after) && Possible(Event(Op.Append(data, count), fs, after))) {
        count, after := -1, fs;
        NothingAppended(fs, data);
      }
      Happen(Op.Append(data, count), after);
    }

    /** A request to set metadata of this session's node, by handle or by name: the server may follow it in part or not
        at all. */
    method SetMetadata(byName: bool) returns (ok: bool)
      requires Valid() && fs.mine.Some?
      modifies this`fs, this`log
      ensures Valid() && Grew(old(log), log) && log[|log| - 1].op == Adjust(byName, ok) && fs.mine == old(fs.mine)
    {
      Interfere();
      ok := *;
      var after: FileSystem := *;
      if !(Sound(after) && Possible(Event(Adjust(byName, ok), fs, after))) { after := fs; }
      Happen(Adjust(byName, ok), after);
    }

    /** Syncing a handle. */
    method Sync() returns (ok: bool)
      requires Valid()
      modifies this`fs, this`log
      ensures Valid() && Grew(old(log), log) && log[|log| - 1].op == Op.Sync(ok) && fs.mine == old(fs.mine)
    {
      Interfere();
      ok := *;
      Happen(Op.Sync(ok), fs);
    }

    /** Closing a handle. */
    method Close() returns (ok: bool)
      requires Valid()
      modifies this`fs, this`log
      ensures Valid() && Grew(old(log), log) && log[|log| - 1].op == Op.Close(ok) && fs.mine == old(fs.mine)
    {
      Interfere();
      ok := *;
      Happen(Op.Close(ok), fs);
    }

    method OpenRead(path: string) returns (found: Option<nat>)
      requires Valid()
      modifies this
      ensures Valid() && Grew(old(log), log) && log[|log| - 1].op == Op.OpenRead(path, found)
      ensures fs.mine == old(fs.mine) && position == 0
    {
      Interfere();
      found := *;
      if !Possible(Event(Op.OpenRead(path, found), fs, fs)) { found := None; }
      Happen(Op.OpenRead(path, found), fs);
      position := 0;
    }

    method Read(handle: nat, wanted: nat) returns (bytes: Option<seq<Byte>>)
      requires Valid() && wanted > 0
      modifies this
      ensures Valid() && Grew(old(log), log) && log[|log| - 1].op == Op.Read(handle, old(position), bytes)
      ensures fs.mine == old(fs.mine)
      ensures bytes.Some? ==> |bytes.value| <= wanted && position == old(position) + |bytes.value|
    {
      Interfere();
      bytes := *;
      if !Possible(Event(Op.Read(handle, position, bytes), fs, fs)) || (bytes.Some? && |bytes.value| > wanted) {
        bytes := None;
      }
      Happen(Op.Read(handle, position, bytes), fs);
      position := position + |bytes.GetOr([])|;
    }

    method Rename(source: string, target: string) returns (ok: bool)
      requires Valid() && fs.mine.Some? && fs.mine.value.path == source
      modifies this`fs, this`log
      ensures Valid() && Grew(old(log), log) && log[|log| - 1].op == Op.Rename(source, target, ok)
    {
      Interfere();
      ok := *;
      var after: FileSystem := *;
      if !(Sound(after) && Possible(Event(Op.Rename(source, target, ok), fs, after))) { ok, after := false, fs; }
      Happen(Op.Rename(source, target, ok), after);
    }

    method Unlink(path: string)
      requires Valid()
      modifies this`fs, this`log
      ensures Valid() && Grew(old(log), log) && log[|log| - 1].op == Op.Unlink(path)
    {
      Interfere();
      var after: FileSystem := *;
      if !(Sound(after) && Possible(Event(Op.Unlink(path), fs, after))) { after := fs; }
      Happen(Op.Unlink(path), after);
    }
  }

  /** One request: first the other clients, then its own event. */
  ghost predicate Grew(before: seq<Event>, after: seq<Event>) {
    |after| == |before| + 2 && before <= after && after[|before|].op == Others
  }

  lemma NothingAppended(fs: FileSystem, data: seq<Byte>)
    requires Sound(fs) && fs.mine.Some?
    ensures Possible(Event(Op.Append(data, -1), fs, fs))
  {
    assert MyContent(fs) + data[..0] == MyContent(fs);
    assert MineBecomes(fs, fs, MyContent(fs) + data[..0]);
  }
}
