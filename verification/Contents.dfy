/** The Contents client's chunked upload and directory creation
    (src/colab_cli/contents.py), against the server they talk to. */
module Contents {
  import opened Options

  type Byte = bv8
  type Bytes = seq<Byte>

  /** A remote path, by its parts. */
  type Path = seq<string>

  const CHUNK_SIZE := 1024 * 1024

  datatype Entry = Directory | File(content: Bytes)

  /** One PUT of file content: its chunk number and its bytes. */
  datatype Put = Put(path: Path, chunk: int, piece: Bytes)

  predicate IsDirectory(entries: map<Path, Entry>, path: Path) {
    path == [] || (path in entries && entries[path].Directory?)
  }

  function Parent(path: Path): Path
    requires path != []
  {
    path[..|path| - 1]
  }

  /** The VM's Contents API: a PUT that is chunk 1 starts a file, any other
      appends to it; nothing is created without its parent. Any request may
      fail. */
  class Server {
    var entries: map<Path, Entry>
    ghost var puts: seq<Put>
    ghost var made: seq<Path>

    constructor ()
      ensures entries == map[] && puts == [] && made == []
    {
      entries, puts, made := map[], [], [];
    }

    method Get(path: Path) returns (answered: bool, found: Option<Entry>)
      ensures answered ==> found == if path in entries then Some(entries[path]) else None
    {
      answered, found := *, if path in entries then Some(entries[path]) else None;
    }

    /** The caller owes the parent directory; so with `PutChunk`. */
    method PutDirectory(path: Path) returns (done: bool)
      requires path != [] && IsDirectory(entries, Parent(path)) && path !in entries
      modifies this`entries, this`made
      ensures done ==> entries == old(entries)[path := Directory] && made == old(made) + [path]
      ensures !done ==> entries == old(entries) && made == old(made)
    {
      done := *;
      if done {
        entries, made := entries[path := Directory], made + [path];
      }
    }

    method PutChunk(path: Path, chunk: int, piece: Bytes) returns (done: bool)
      requires path != [] && IsDirectory(entries, Parent(path)) && !IsDirectory(entries, path)
      requires chunk != 1 ==> path in entries
      modifies this`entries, this`puts
      ensures done ==>
                && entries ==
                   old(entries)[path := File((if chunk == 1 then [] else old(entries)[path].content) + piece)]
                && puts == old(puts) + [Put(path, chunk, piece)]
      ensures !done ==> entries == old(entries) && puts == old(puts)
    {
      done := *;
      if done {
        var before := if chunk == 1 then [] else entries[path].content;
        entries, puts := entries[path := File(before + piece)], puts + [Put(path, chunk, piece)];
      }
    }
  }

  // -- upload -----------------------------------------------------------------

  function ChunkCount(size: nat): nat {
    (size + CHUNK_SIZE - 1) / CHUNK_SIZE
  }

  /** How much of the content the first `i` reads take. */
  function Offset(content: Bytes, i: nat): (o: nat)
    ensures o <= |content|
  {
    if i * CHUNK_SIZE < |content| then i * CHUNK_SIZE else |content|
  }

  /** The first `i` of `n` requests: numbered from 1, the last of all -1, each
      with the next bytes of the content. */
  function Requests(path: Path, content: Bytes, i: nat, n: nat): seq<Put> {
    if i == 0 then []
    else Requests(path, content, i - 1, n)
         + [Put(path, if i == n then -1 else i, content[Offset(content, i - 1)..Offset(content, i)])]
  }

  /** What an upload did: all of it, a request failed, or the file was found
      shorter than it was measured. */
  datatype Outcome = Uploaded | RequestFailed | Shrunk

  /** `upload`. `content` is what the file holds while it is read, `size`
      what it measured before. An unchanged file larger than a chunk takes
      ceil(size / CHUNK_SIZE) requests numbered 1, 2, ... with the last one
      -1, and the server is left with exactly its bytes; a shorter one is
      found out, and the loop always ends. */
  method Upload(server: Server, path: Path, content: Bytes, size: nat) returns (outcome: Outcome)
    requires path != [] && IsDirectory(server.entries, Parent(path)) && !IsDirectory(server.entries, path)
    modifies server`entries, server`puts
    ensures server.entries - {path} == old(server.entries) - {path} && !IsDirectory(server.entries, path)
    ensures outcome.Uploaded? ==> path in server.entries
    ensures outcome.Uploaded? && |content| == size ==> server.entries[path] == File(content)
    ensures outcome.Uploaded? && size <= CHUNK_SIZE ==> server.puts == old(server.puts) + [Put(path, 1, content)]
    ensures outcome.Uploaded? && size > CHUNK_SIZE ==>
              && |content| >= size
              && server.puts == old(server.puts) + Requests(path, content, ChunkCount(size), ChunkCount(size))
              && server.entries[path] == File(content[..Offset(content, ChunkCount(size))])
    ensures outcome.Shrunk? ==> size > CHUNK_SIZE && |content| < size
  {
    if size <= CHUNK_SIZE {
      var done := server.PutChunk(path, 1, content);
      return if done then Uploaded else RequestFailed;
    }
    ghost var n := ChunkCount(size);
    assert JustCovers(n, size);
    outcome := UploadChunks(server, path, content, size, n);
    if outcome.Uploaded? && |content| == size {
      assert content[..Offset(content, ChunkCount(size))] == content;
    }
  }

  /** `n` chunks cover `size` bytes and no fewer do. */
  predicate JustCovers(n: nat, size: nat) {
    0 < n && (n - 1) * CHUNK_SIZE < size <= n * CHUNK_SIZE
  }

  datatype Sending = More(sent: nat) | Last | Failing | Short

  /** One pass of the chunk loop: the next read, and its PUT. */
  method SendChunk(server: Server, path: Path, content: Bytes, size: nat, index: nat, sent: nat, ghost n: nat)
    returns (s: Sending)
    requires path != [] && IsDirectory(server.entries, Parent(path)) && !IsDirectory(server.entries, path)
    requires size > CHUNK_SIZE && JustCovers(n, size) && index <= n && sent == Offset(content, index) < size
    requires index == n ==> sent == |content|
    requires index > 0 ==> path in server.entries && server.entries[path] == File(content[..sent])
    modifies server`entries, server`puts
    ensures server.entries - {path} == old(server.entries) - {path} && !IsDirectory(server.entries, path)
    ensures s.Short? ==> |content| < size
    ensures s.More? || s.Last? ==> index < n
    ensures s.More? || s.Last? ==>
              && path in server.entries && server.entries[path] == File(content[..Offset(content, index + 1)])
              && server.puts == old(server.puts)
                 + [Put(path, if s.Last? then -1 else index + 1, content[sent..Offset(content, index + 1)])]
    ensures s.More? ==> s.sent == Offset(content, index + 1) < size && (index + 1 == n ==> s.sent == |content|)
    ensures s.Last? ==> index + 1 == n && |content| >= size
  {
    var end := if sent + CHUNK_SIZE < |content| then sent + CHUNK_SIZE else |content|;
    var piece := content[sent..end];
    if piece == [] && sent < size {
      return Short;
    }
    NextOffset(content, size, index + 1, sent, end, n);
    Grows(content, sent, end);
    var isLast := sent + |piece| >= size;
    var done := server.PutChunk(path, if isLast then -1 else index + 1, piece);
    if !done {
      return Failing;
    }
    return if isLast then Last else More(end);
  }

  lemma OneMore(before: seq<Put>, path: Path, content: Bytes, i: nat, n: nat, last: bool)
    requires i < n && (last <==> i + 1 == n)
    ensures before + Requests(path, content, i + 1, n) ==
            (before + Requests(path, content, i, n))
            + [Put(path, if last then -1 else i + 1, content[Offset(content, i)..Offset(content, i + 1)])]
  {
  }

  /** The chunk loop; `n` is the number of chunks the measured size takes. */
  method UploadChunks(server: Server, path: Path, content: Bytes, size: nat, ghost n: nat) returns (outcome: Outcome)
    requires path != [] && IsDirectory(server.entries, Parent(path)) && !IsDirectory(server.entries, path)
    requires size > CHUNK_SIZE && JustCovers(n, size)
    modifies server`entries, server`puts
    ensures server.entries - {path} == old(server.entries) - {path} && !IsDirectory(server.entries, path)
    ensures outcome.Uploaded? ==>
              && |content| >= size && path in server.entries
              && server.puts == old(server.puts) + Requests(path, content, n, n)
              && server.entries[path] == File(content[..Offset(content, n)])
    ensures outcome.Shrunk? ==> |content| < size
  {
    var index, sent := 0, 0;
    while true
      invariant server.entries - {path} == old(server.entries) - {path} && !IsDirectory(server.entries, path)
      invariant index <= n && sent == Offset(content, index) < size && (index == n ==> sent == |content|)
      invariant index < n ==> server.puts == old(server.puts) + Requests(path, content, index, n)
      invariant index > 0 ==> path in server.entries && server.entries[path] == File(content[..sent])
      decreases n + 1 - index
    {
      ParentStays(old(server.entries), server.entries, path);
      var s := SendChunk(server, path, content, size, index, sent, n);
      if index + 1 < n || s.Last? {
        OneMore(old(server.puts), path, content, index, n, s.Last?);
      }
      match s {
        case Short =>
          return Shrunk;
        case Failing =>
          return RequestFailed;
        case Last =>
          return Uploaded;
        case More(next) =>
          index, sent := index + 1, next;
      }
    }
  }

  lemma Grows(content: Bytes, from: nat, end: nat)
    requires from <= end <= |content|
    ensures content[..from] + content[from..end] == content[..end]
  {
  }

  lemma ParentStays(before: map<Path, Entry>, after: map<Path, Entry>, path: Path)
    requires path != [] && IsDirectory(before, Parent(path)) && after - {path} == before - {path}
    ensures IsDirectory(after, Parent(path))
  {
    if Parent(path) != [] {
      assert Parent(path) in before - {path};
    }
  }

  /** The read that reaches the measured size is the last by count, and no
      earlier one is. */
  lemma NextOffset(content: Bytes, size: nat, index: nat, sent: nat, end: nat, n: nat)
    requires JustCovers(n, size) && 1 <= index <= n && sent == Offset(content, index - 1) < size
    requires end == if sent + CHUNK_SIZE < |content| then sent + CHUNK_SIZE else |content|
    requires end > sent
    ensures end == Offset(content, index)
    ensures end >= size <==> index == n && |content| >= size
    ensures end < size && index == n ==> end == |content|
  {
  }

  // -- makedirs -----------------------------------------------------------------

  datatype Made = Done | NotADirectory | Failed

  /** Entries with the directories of `path` added that were missing among its
      first `n` ancestors. */
  function WithAncestors(entries: map<Path, Entry>, path: Path, n: nat): map<Path, Entry>
    requires n <= |path|
  {
    if n == 0 then entries
    else
      var rest := WithAncestors(entries, path, n - 1);
      if path[..n] in entries then rest else rest[path[..n] := Directory]
  }

  lemma {:induction false} AncestorsOnly(entries: map<Path, Entry>, path: Path, n: nat, p: Path)
    requires n <= |path|
    ensures p in entries ==> p in WithAncestors(entries, path, n) && WithAncestors(entries, path, n)[p] == entries[p]
    ensures p in WithAncestors(entries, path, n) && p !in entries ==>
              0 < |p| <= n && p == path[..|p|] && WithAncestors(entries, path, n)[p] == Directory
  {
    if n > 0 {
      AncestorsOnly(entries, path, n - 1, p);
    }
  }

  /** `makedirs`: exactly the missing directories of the path are created,
      whatever was there is untouched, and it refuses exactly where a file is
      in the way. Done twice, it changes nothing the second time. */
  method MakeDirs(server: Server, path: Path) returns (made: Made)
    modifies server`entries, server`made
    ensures made.Done? ==>
              && server.entries == WithAncestors(old(server.entries), path, |path|)
              && forall n | 0 <= n <= |path| :: IsDirectory(server.entries, path[..n])
    ensures made.NotADirectory? ==>
              exists n :: 0 < n <= |path| && path[..n] in old(server.entries) && old(server.entries)[path[..n]].File?
    ensures exists n :: 0 <= n <= |path| && server.entries == WithAncestors(old(server.entries), path, n)
  {
    for i := 0 to |path|
      invariant server.entries == WithAncestors(old(server.entries), path, i)
      invariant forall n | 0 <= n <= i :: IsDirectory(server.entries, path[..n])
    {
      var here := path[..i + 1];
      assert Parent(here) == path[..i];
      AncestorsOnly(old(server.entries), path, i, here);
      var answered, found := server.Get(here);
      if !answered {
        return Failed;
      }
      if found.Some? {
        if found.value.File? {
          return NotADirectory;
        }
      } else {
        var done := server.PutDirectory(here);
        if !done {
          return Failed;
        }
      }
    }
    return Done;
  }

  lemma {:induction false} MakeDirsTwice(entries: map<Path, Entry>, path: Path, n: nat)
    requires n <= |path| && forall k | 0 <= k <= |path| :: IsDirectory(entries, path[..k])
    ensures WithAncestors(entries, path, n) == entries
  {
    if n > 0 {
      MakeDirsTwice(entries, path, n - 1);
      assert IsDirectory(entries, path[..n]);
    }
  }
}
