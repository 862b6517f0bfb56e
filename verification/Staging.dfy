/** Staging a job's files on the VM (`stage_payload`, `verify_source_files`,
    src/colab_cli/job/payload_bundle.py). */
module Staging {
  import opened Options
  import opened Contents

  const CEILING := 250 * 1024 * 1024

  /** A file to stage: its path below its root, the bytes of the snapshot
      that is checked and sent. */
  datatype UserFile = UserFile(relative: Path, content: Bytes)

  datatype FileLock = FileLock(sizeBytes: nat, sha256: string)

  /** What was uploaded where, in order. */
  datatype Sent = Sent(path: Path, content: Bytes)

  datatype StageEnd =
    | Staged
    | UndeclaredFile(path: Path)
    | ChangedFile(path: Path)
    | LockNotMet
    | CredentialFound
    | TooLarge
    | Unreachable

  datatype JobFiles = JobFiles(
    runtime: seq<UserFile>,
    source: seq<UserFile>,
    stageManifest: Option<Bytes>,
    offloadManifest: Option<Bytes>,
    secret: Option<Bytes>)

  function SecretDir(remote: Path): Path {
    remote + ["mighty_runtime", ".secrets"]
  }

  function Uploads(root: Path, files: seq<UserFile>): seq<Sent> {
    if files == [] then []
    else
      var last := files[|files| - 1];
      Uploads(root, files[..|files| - 1]) + [Sent(root + last.relative, last.content)]
  }

  function OneUpload(path: Path, content: Option<Bytes>): seq<Sent> {
    if content.None? then [] else [Sent(path, content.value)]
  }

  function Records(remote: Path, job: JobFiles): seq<Sent> {
    OneUpload(remote + ["stage.manifest.json"], job.stageManifest)
    + OneUpload(remote + ["offload.manifest.json"], job.offloadManifest)
    + OneUpload(SecretDir(remote) + ["transfer.json"], job.secret)
  }

  /** What a staged job has on the VM, in upload order: the runtime, the
      source, the manifests, and the URL credentials last. */
  function Expected(remote: Path, job: JobFiles): seq<Sent> {
    Uploads(remote + ["mighty_runtime"], job.runtime) + Uploads(remote + ["src"], job.source) + Records(remote, job)
  }

  /** What was last sent to each path, by the first `n` uploads. */
  function LastSent(sent: seq<Sent>, n: nat): map<Path, Bytes>
    requires n <= |sent|
  {
    if n == 0 then map[] else LastSent(sent, n - 1)[sent[n - 1].path := sent[n - 1].content]
  }

  lemma {:induction false} LastSentOfPrefix(sent: seq<Sent>, s: Sent, n: nat)
    requires n <= |sent|
    ensures LastSent(sent + [s], n) == LastSent(sent, n)
  {
    if n > 0 {
      LastSentOfPrefix(sent, s, n - 1);
    }
  }

  /** It holds the paths sent to, each with its last upload. */
  lemma {:induction false} LastSentIsLast(sent: seq<Sent>, i: nat, n: nat)
    requires i < n <= |sent| && forall j | i < j < n :: sent[j].path != sent[i].path
    ensures sent[i].path in LastSent(sent, n) && LastSent(sent, n)[sent[i].path] == sent[i].content
  {
    if i < n - 1 {
      LastSentIsLast(sent, i, n - 1);
    }
  }

  function FilesOf(entries: map<Path, Entry>): map<Path, Bytes> {
    map p | p in entries && entries[p].File? :: entries[p].content
  }

  function DirectoriesOf(entries: map<Path, Entry>): set<Path> {
    set p | p in entries && entries[p].Directory?
  }

  /** The files are those before, with what was last sent to each path in its
      place, and no directory is lost. */
  predicate Delivered(before: map<Path, Entry>, entries: map<Path, Entry>, last: map<Path, Bytes>) {
    FilesOf(entries) == FilesOf(before) + last && DirectoriesOf(before) <= DirectoriesOf(entries)
  }

  lemma DirectoriesAdded(now: map<Path, Entry>, path: Path, n: nat)
    requires n <= |path|
    ensures
      var after := WithAncestors(now, path, n);
      FilesOf(after) == FilesOf(now) && DirectoriesOf(now) <= DirectoriesOf(after)
  {
    var after := WithAncestors(now, path, n);
    forall p ensures p in FilesOf(after) <==> p in FilesOf(now) {
      AncestorsOnly(now, path, n, p);
    }
    forall p | p in now ensures p in after && after[p] == now[p] {
      AncestorsOnly(now, path, n, p);
    }
  }

  lemma FilePut(now: map<Path, Entry>, after: map<Path, Entry>, path: Path, content: Bytes)
    requires after - {path} == now - {path} && path in after && after[path] == File(content)
    requires path !in now || now[path].File?
    ensures FilesOf(after) == FilesOf(now)[path := content] && DirectoriesOf(now) <= DirectoriesOf(after)
  {
    forall p | p != path
      ensures p in after <==> p in now
      ensures p in after ==> after[p] == now[p]
    {
      assert p in after <==> p in after - {path};
      assert p in now <==> p in now - {path};
      assert p in after ==> (after - {path})[p] == after[p];
      assert p in now ==> (now - {path})[p] == now[p];
    }
  }

  lemma LastSentNext(sent: seq<Sent>, s: Sent)
    ensures LastSent(sent + [s], |sent| + 1) == LastSent(sent, |sent|)[s.path := s.content]
  {
    LastSentOfPrefix(sent, s, |sent|);
  }

  lemma DeliveredNext(before: map<Path, Entry>, now: map<Path, Entry>, after: map<Path, Entry>, last: map<Path, Bytes>,
                      s: Sent)
    requires Delivered(before, now, last)
    requires FilesOf(after) == FilesOf(now)[s.path := s.content] && DirectoriesOf(now) <= DirectoriesOf(after)
    ensures Delivered(before, after, last[s.path := s.content])
  {
    PutLast(FilesOf(before), last, s);
  }

  lemma PutLast(kept: map<Path, Bytes>, last: map<Path, Bytes>, s: Sent)
    ensures (kept + last)[s.path := s.content] == kept + last[s.path := s.content]
  {
  }

  /** The lock the uploaded source files make up. */
  function LockOf(files: seq<UserFile>, sha: Bytes -> string): map<Path, FileLock> {
    if files == [] then map[]
    else
      var last := files[|files| - 1];
      LockOf(files[..|files| - 1], sha)[last.relative := FileLock(|last.content|, sha(last.content))]
  }

  /** One staging pass. `madeDirs` is what it knows to be a directory; it
      lives no longer than the pass. */
  class Stager {
    const server: Server
    var madeDirs: set<Path>
    /** Directories known to be there, made or prepared before the pass. */
    ghost var known: set<Path>
    ghost var uploads: seq<Sent>
    /** What the server held before the pass. */
    ghost const before: map<Path, Entry>

    constructor (server: Server, ghost prepared: set<Path>)
      ensures this.server == server && madeDirs == {} && uploads == [] && known == prepared
      ensures before == server.entries
    {
      this.server, madeDirs, known, uploads, before := server, {}, prepared, [], server.entries;
    }

    /** The VM holds the last upload to each path, and nothing else is new. */
    ghost predicate OnVm()
      reads this`uploads, server`entries
    {
      Delivered(before, server.entries, LastSent(uploads, |uploads|))
    }

    /** Every directory taken for granted is one. */
    ghost predicate Valid()
      reads this`madeDirs, this`known, server`entries
    {
      madeDirs <= known && forall d | d in known :: IsDirectory(server.entries, d)
    }

    /** `_upload_checked`: the parent exists before the file is put, made now
        or known to be there; a file over the ceiling is refused. */
    method UploadChecked(path: Path, content: Bytes) returns (end: StageEnd)
      requires Valid() && OnVm() && path != []
      modifies this, server
      ensures Valid() && (end.Staged? || end.TooLarge? || end.Unreachable?)
      ensures end.Staged? ==> OnVm()
      ensures end.Staged? ==>
                && uploads == old(uploads) + [Sent(path, content)]
                && IsDirectory(server.entries, Parent(path))
                && path in server.entries && server.entries[path] == File(content)
      ensures end.TooLarge? <==> |content| > CEILING
      ensures !end.Staged? ==> uploads == old(uploads)
      ensures known >= old(known)
    {
      if |content| > CEILING {
        return TooLarge;
      }
      var parent := Parent(path);
      if parent !in madeDirs {
        ghost var was := server.entries;
        var made := MakeDirs(server, parent);
        DirectoriesStay(was, server.entries, known, parent);
        if !made.Done? {
          return Unreachable;
        }
        DirectoriesAdded(was, parent, |parent|);
        assert parent[..|parent|] == parent;
        madeDirs, known := madeDirs + {parent}, known + {parent};
      }
      var taken: bool := *;
      if taken || IsDirectory(server.entries, path) {
        return Unreachable;
      }
      ghost var was := server.entries;
      var outcome := Contents.Upload(server, path, content, |content|);
      FilesDoNotMove(was, server.entries, known, path);
      if !outcome.Uploaded? {
        return Unreachable;
      }
      FilePut(was, server.entries, path, content);
      LastSentNext(uploads, Sent(path, content));
      DeliveredNext(before, was, server.entries, LastSent(uploads, |uploads|), Sent(path, content));
      uploads := uploads + [Sent(path, content)];
      return Staged;
    }

    /** The loop over the runtime's files. */
    method StageRuntime(root: Path, files: seq<UserFile>) returns (end: StageEnd)
      requires Valid() && OnVm() && forall f | f in files :: f.relative != []
      modifies this, server
      ensures Valid() && known >= old(known)
      ensures end.Staged? ==> uploads == old(uploads) + Uploads(root, files) && OnVm()
      ensures end.Staged? || end.TooLarge? || end.Unreachable?
    {
      for i := 0 to |files|
        invariant Valid() && OnVm() && known >= old(known)
        invariant uploads == old(uploads) + Uploads(root, files[..i])
      {
        assert files[..i + 1][..i] == files[..i];
        end := UploadChecked(root + files[i].relative, files[i].content);
        if !end.Staged? {
          return;
        }
      }
      assert files[..|files|] == files;
      end := Staged;
    }

    /** One user file: its snapshot is scanned, held against the lock, and
        sent; a file the lock does not know, or knows otherwise, is not. */
    method StageSourceFile(root: Path, file: UserFile, lock: Option<map<Path, FileLock>>, sha: Bytes -> string)
      returns (end: StageEnd)
      requires Valid() && OnVm() && file.relative != []
      modifies this, server
      ensures Valid() && known >= old(known) && (end.Staged? ==> OnVm())
      ensures uploads == old(uploads) + (if end.Staged? then [Sent(root + file.relative, file.content)] else [])
      ensures end.Staged? && lock.Some? ==>
                file.relative in lock.value && lock.value[file.relative] == FileLock(|file.content|, sha(file.content))
      ensures end.UndeclaredFile? ==> lock.Some? && file.relative !in lock.value
      ensures end.ChangedFile? ==> lock.Some? && file.relative in lock.value
    {
      if lock.Some? && file.relative !in lock.value {
        return UndeclaredFile(file.relative);
      }
      var leaks: bool := *;
      if leaks {
        return CredentialFound;
      }
      if lock.Some? && lock.value[file.relative] != FileLock(|file.content|, sha(file.content)) {
        return ChangedFile(file.relative);
      }
      end := UploadChecked(root + file.relative, file.content);
    }

    /** The loop over the user's files; however it ends, the `sent` files that
        went are the first ones, each as the lock has it. */
    method StageSource(root: Path, files: seq<UserFile>, lock: Option<map<Path, FileLock>>, sha: Bytes -> string)
      returns (end: StageEnd, ghost sent: nat)
      requires Valid() && OnVm() && forall f | f in files :: f.relative != []
      modifies this, server
      ensures Valid() && known >= old(known) && (end.Staged? ==> OnVm())
      ensures sent <= |files| && uploads == old(uploads) + Uploads(root, files[..sent])
      ensures lock.Some? ==> Agrees(lock.value, LockOf(files[..sent], sha))
      ensures end.Staged? ==> sent == |files| && (lock.Some? ==> LockOf(files, sha) == lock.value)
    {
      sent := 0;
      for i := 0 to |files|
        invariant Valid() && OnVm() && known >= old(known)
        invariant sent == i && uploads == old(uploads) + Uploads(root, files[..i])
        invariant lock.Some? ==> Agrees(lock.value, LockOf(files[..i], sha))
      {
        assert files[..i + 1][..i] == files[..i];
        end := StageSourceFile(root, files[i], lock, sha);
        if !end.Staged? {
          return;
        }
        sent := i + 1;
      }
      assert files[..|files|] == files;
      end := if lock.Some? && LockOf(files, sha).Keys != lock.value.Keys then LockNotMet else Staged;
    }

    /** A manifest or the credential file, when there is one. */
    method StageOne(path: Path, content: Option<Bytes>) returns (end: StageEnd)
      requires Valid() && OnVm() && path != []
      modifies this, server
      ensures Valid() && known >= old(known)
      ensures end.Staged? ==> uploads == old(uploads) + OneUpload(path, content) && OnVm()
    {
      if content.None? {
        return Staged;
      }
      end := UploadChecked(path, content.value);
    }

    /** `stage_payload`. When it returns, the VM was sent exactly the runtime,
        the source, the manifests and the credentials, the credentials last,
        and holds them as they were sent; beyond them only directories are new.
        With a lock, the source sent is the locked files, sizes and digests.
        The credential directory is not made here: it was prepared before. */
    method StagePayload(remote: Path, job: JobFiles, lock: Option<map<Path, FileLock>>, sha: Bytes -> string)
      returns (end: StageEnd)
      requires Valid() && madeDirs == {} && uploads == [] && before == server.entries
      requires forall f | f in job.runtime || f in job.source :: f.relative != []
      requires job.secret.Some? ==> SecretDir(remote) in known
      modifies this, server
      ensures end.Staged? ==> uploads == Expected(remote, job)
      ensures end.Staged? ==> Delivered(old(server.entries), server.entries, LastSent(uploads, |uploads|))
      ensures end.Staged? && lock.Some? ==> LockOf(job.source, sha) == lock.value
      ensures end.Staged? && job.secret.Some? ==>
                uploads != [] && uploads[|uploads| - 1] == Sent(SecretDir(remote) + ["transfer.json"], job.secret.value)
    {
      end := StageRuntime(remote + ["mighty_runtime"], job.runtime);
      if !end.Staged? {
        return;
      }
      ghost var sent;
      end, sent := StageSource(remote + ["src"], job.source, lock, sha);
      assert job.source[..|job.source|] == job.source;
      if !end.Staged? {
        return;
      }
      end := StageRecords(remote, job);
    }

    /** The manifests, then the credential file. */
    method StageRecords(remote: Path, job: JobFiles) returns (end: StageEnd)
      requires Valid() && OnVm() && (job.secret.Some? ==> SecretDir(remote) in known)
      modifies this, server
      ensures end.Staged? ==> uploads == old(uploads) + Records(remote, job) && OnVm()
    {
      end := StageOne(remote + ["stage.manifest.json"], job.stageManifest);
      if !end.Staged? {
        return;
      }
      end := StageOne(remote + ["offload.manifest.json"], job.offloadManifest);
      if !end.Staged? {
        return;
      }
      end := StageSecret(SecretDir(remote), job.secret);
    }

    /** The credential file goes to a directory made before the pass. */
    method StageSecret(dir: Path, secret: Option<Bytes>) returns (end: StageEnd)
      requires Valid() && OnVm() && (secret.Some? ==> dir in known)
      modifies this, server
      ensures Valid() && known >= old(known)
      ensures end.Staged? ==> uploads == old(uploads) + OneUpload(dir + ["transfer.json"], secret) && OnVm()
    {
      if secret.Some? {
        madeDirs := madeDirs + {dir};
      }
      end := StageOne(dir + ["transfer.json"], secret);
    }
  }

  /** The lock has each of these files just as they are. */
  predicate Agrees(lock: map<Path, FileLock>, files: map<Path, FileLock>) {
    forall p | p in files :: p in lock && lock[p] == files[p]
  }

  lemma DirectoriesStay(before: map<Path, Entry>, after: map<Path, Entry>, dirs: set<Path>, path: Path)
    requires exists n :: 0 <= n <= |path| && after == WithAncestors(before, path, n)
    requires forall d | d in dirs :: IsDirectory(before, d)
    ensures forall d | d in dirs :: IsDirectory(after, d)
  {
    var n :| 0 <= n <= |path| && after == WithAncestors(before, path, n);
    forall d | d in dirs ensures IsDirectory(after, d) {
      AncestorsOnly(before, path, n, d);
    }
  }

  lemma FilesDoNotMove(before: map<Path, Entry>, after: map<Path, Entry>, dirs: set<Path>, path: Path)
    requires after - {path} == before - {path} && !IsDirectory(before, path)
    requires forall d | d in dirs :: IsDirectory(before, d)
    ensures forall d | d in dirs :: IsDirectory(after, d)
  {
    forall d | d in dirs ensures IsDirectory(after, d) {
      if d != [] {
        assert d in before - {path};
      }
    }
  }

  // -- the source lock against the disk ------------------------------------------

  datatype Row = Row(path: Path, lock: FileLock)

  /** The rows by path; a later row for a path wins. */
  function ByPath(rows: seq<Row>): map<Path, FileLock> {
    if rows == [] then map[] else ByPath(rows[..|rows| - 1])[rows[|rows| - 1].path := rows[|rows| - 1].lock]
  }

  datatype Drift = NoLock | Drift(added: set<Path>, removed: set<Path>, changed: set<Path>)

  /** `verify_source_files` refuses exactly when there is no lock or the files
      on disk, as a map, are not the locked ones; and it names every path
      where the two differ, once, by how. */
  method VerifySourceFiles(current: seq<Row>, expected: seq<Row>) returns (drift: Option<Drift>)
    ensures drift.None? <==> expected != [] && ByPath(current) == ByPath(expected)
    ensures drift == Some(NoLock) <==> expected == []
    ensures drift.Some? && drift.value.Drift? ==>
              var now, locked, d := ByPath(current), ByPath(expected), drift.value;
              && (forall p :: p in d.added + d.removed + d.changed <==>
                    ((p in now && (p !in locked || now[p] != locked[p])) || (p in locked && p !in now)))
              && d.added !! locked.Keys && d.removed !! now.Keys && d.changed <= now.Keys * locked.Keys
  {
    if expected == [] {
      return Some(NoLock);
    }
    var now, locked := map[], map[];
    for i := 0 to |current|
      invariant now == ByPath(current[..i])
    {
      assert current[..i + 1][..i] == current[..i];
      now := now[current[i].path := current[i].lock];
    }
    for i := 0 to |expected|
      invariant locked == ByPath(expected[..i])
    {
      assert expected[..i + 1][..i] == expected[..i];
      locked := locked[expected[i].path := expected[i].lock];
    }
    assert current[..|current|] == current && expected[..|expected|] == expected;
    var added, removed := now.Keys - locked.Keys, locked.Keys - now.Keys;
    var changed := set p | p in now && p in locked
                           && (now[p].sizeBytes != locked[p].sizeBytes || now[p].sha256 != locked[p].sha256);
    if added == {} && removed == {} && changed == {} {
      SameMap(now, locked, changed);
      return None;
    }
    return Some(Drift(added, removed, changed));
  }

  lemma SameMap(now: map<Path, FileLock>, locked: map<Path, FileLock>, changed: set<Path>)
    requires now.Keys - locked.Keys == {} && locked.Keys - now.Keys == {} && changed == {}
    requires forall p | p in now && p in locked && now[p] != locked[p] :: p in changed
    ensures now == locked
  {
    assert now.Keys == locked.Keys;
  }
}
