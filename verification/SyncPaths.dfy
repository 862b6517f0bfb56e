/** Lexical paths in `sync` (src/colab_cli/commands/sync.py): symlinks are
    rewritten so that they resolve to the image of what they resolved to,
    in the local snapshot and again in the archive. */
module SyncPaths {
  import opened Results

  /** An absolute, normalised path: its names from the root. */
  type Path = seq<string>

  /** A relative path as written: its segments, "." and ".." among them. */
  type Segments = seq<string>

  predicate IsName(s: string) {
    s != "" && s != "." && s != ".."
  }

  predicate Normal(p: Path) {
    forall i | 0 <= i < |p| :: IsName(p[i])
  }

  // -- normpath, join, relpath ---------------------------------------------------

  /** `normpath(join(base, segments))`: ".." drops a name, and none at the
      root. */
  function Resolve(base: Path, segments: Segments): (p: Path)
    ensures Normal(base) ==> Normal(p)
    decreases |segments|
  {
    if segments == [] then base
    else
      var s := segments[0];
      var next :=
        if s == "" || s == "." then base
        else if s == ".." then (if base == [] then [] else base[..|base| - 1])
        else base + [s];
      Resolve(next, segments[1..])
  }

  function CommonLength(a: Path, b: Path): (n: nat)
    ensures n <= |a| && n <= |b| && a[..n] == b[..n]
  {
    if a == [] || b == [] || a[0] != b[0] then 0 else 1 + CommonLength(a[1..], b[1..])
  }

  function Ups(n: nat): (s: Segments)
    ensures |s| == n
  {
    seq(n, _ => "..")
  }

  /** `relpath(target, start)`. */
  function RelPath(target: Path, start: Path): Segments {
    var n := CommonLength(target, start);
    var segments := Ups(|start| - n) + target[n..];
    if segments == [] then ["."] else segments
  }

  lemma {:induction false} ResolveUps(base: Path, n: nat, rest: Segments)
    requires n <= |base|
    ensures Resolve(base, Ups(n) + rest) == Resolve(base[..|base| - n], rest)
    decreases n
  {
    if n == 0 {
      assert Ups(n) + rest == rest && base[..|base| - n] == base;
    } else {
      var shorter := base[..|base| - 1];
      assert (Ups(n) + rest)[1..] == Ups(n - 1) + rest;
      ResolveUps(shorter, n - 1, rest);
      assert shorter[..|shorter| - (n - 1)] == base[..|base| - n];
    }
  }

  lemma {:induction false} ResolveNames(base: Path, names: Path)
    requires Normal(names)
    ensures Resolve(base, names) == base + names
    decreases |names|
  {
    if names == [] {
      assert base + names == base;
    } else {
      ResolveNames(base + [names[0]], names[1..]);
      assert base + names == base + [names[0]] + names[1..];
    }
  }

  lemma ResolveBoth(base: Path, up: nat, names: Path)
    requires up <= |base| && Normal(names)
    ensures Resolve(base, Ups(up) + names) == base[..|base| - up] + names
  {
    ResolveUps(base, up, names);
    ResolveNames(base[..|base| - up], names);
  }

  lemma JoinCommon(root: Path, target: Path, start: Path, n: nat)
    requires n <= |target| && n <= |start| && target[..n] == start[..n]
    ensures (root + start)[..|root| + n] + target[n..] == root + target
  {
    assert (root + start)[..|root| + n] == root + target[..n];
    assert target[..n] + target[n..] == target;
  }

  lemma NothingToWalk(target: Path, start: Path, n: nat)
    requires n <= |target| && n <= |start| && target[..n] == start[..n] && Ups(|start| - n) + target[n..] == []
    ensures target == start
  {
    assert |Ups(|start| - n)| + |target[n..]| == 0;
  }

  lemma DotStays(base: Path)
    ensures Resolve(base, ["."]) == base
  {
    assert Resolve(base, []) == base;
  }

  /** A relative path resolves, from the image of its start under any root,
      to the image of its target: relpath, join and normpath cancel. */
  lemma RelPathCancels(root: Path, target: Path, start: Path)
    requires Normal(target)
    ensures Resolve(root + start, RelPath(target, start)) == root + target
  {
    var n := CommonLength(target, start);
    if Ups(|start| - n) + target[n..] == [] {
      NothingToWalk(target, start, n);
      DotStays(root + start);
    } else {
      ResolveBoth(root + start, |start| - n, target[n..]);
      JoinCommon(root, target, start, n);
    }
  }

  lemma {:induction false} CommonLengthUnder(root: Path, a: Path, b: Path)
    ensures CommonLength(root + a, root + b) == |root| + CommonLength(a, b)
    decreases |root|
  {
    if root == [] {
      assert root + a == a && root + b == b;
    } else {
      CommonLengthUnder(root[1..], a, b);
      assert (root + a)[1..] == root[1..] + a && (root + b)[1..] == root[1..] + b;
    }
  }

  /** A relative path does not depend on where its two ends stand. */
  lemma RelPathUnder(root: Path, target: Path, start: Path)
    ensures RelPath(root + target, root + start) == RelPath(target, start)
  {
    CommonLengthUnder(root, target, start);
    var n := CommonLength(target, start);
    assert (root + target)[|root| + n..] == target[n..];
  }

  // -- symlinks ------------------------------------------------------------------

  /** A symlink's text: absolute, or relative to the link's directory. */
  datatype Target = Absolute(path: Path) | Relative(segments: Segments)

  /** `_lexical_relative_to_root`: where a link of directory `dir` points,
      below `root`. */
  function RelativeToRoot(dir: Path, target: Target, root: Path): (r: Result<Path>)
    ensures r.Ok? <==> target.Relative? && root <= Resolve(dir, target.segments)
    ensures r.Ok? ==> Resolve(dir, target.segments) == root + r.value
  {
    if target.Absolute? then Refused
    else
      var p := Resolve(dir, target.segments);
      if root <= p then Ok(p[|root|..]) else Refused
  }

  /** The link text of the snapshot, for a link of directory `sourceRoot + dir`. */
  function SnapshotTarget(sourceRoot: Path, payloadRoot: Path, dir: Path, target: Target): Result<Target> {
    var r := RelativeToRoot(sourceRoot + dir, target, sourceRoot);
    if r.Ok? then Ok(Relative(RelPath(payloadRoot + r.value, payloadRoot + dir))) else Refused
  }

  /** `archive_filter`: the link text of the archive member, whose paths are
      relative to the working directory. */
  function ArchiveTarget(archiveRoot: Path, cwd: Path, dir: Path, target: Target): Result<Target> {
    var r := RelativeToRoot(archiveRoot + dir, target, archiveRoot);
    if r.Ok? then Ok(Relative(RelPath(cwd + ["payload"] + r.value, cwd + ["payload"] + dir))) else Refused
  }

  lemma InsideIsNormal(dir: Path, target: Target, root: Path)
    requires Normal(dir) && RelativeToRoot(dir, target, root).Ok?
    ensures Normal(RelativeToRoot(dir, target, root).value)
  {
    var inside := RelativeToRoot(dir, target, root).value;
    assert forall i | 0 <= i < |inside| :: inside[i] == Resolve(dir, target.segments)[|root| + i];
  }

  /** The archive takes a snapshot's link text over unchanged. */
  lemma ArchiveKeeps(archiveRoot: Path, cwd: Path, dir: Path, inside: Path)
    requires Normal(inside)
    ensures var link := Relative(RelPath(inside, dir)); ArchiveTarget(archiveRoot, cwd, dir, link) == Ok(link)
  {
    RelPathCancels(archiveRoot, inside, dir);
    assert (archiveRoot + inside)[|archiveRoot|..] == inside;
    RelPathUnder(cwd + ["payload"], inside, dir);
  }

  /** A link accepted from the source resolves, wherever its tree is put, to
      the image of what it resolved to; the archive takes it over unchanged. */
  lemma LinkSurvives(sourceRoot: Path, payloadRoot: Path, archiveRoot: Path, cwd: Path, extracted: Path,
                     dir: Path, target: Target)
    requires Normal(sourceRoot + dir) && SnapshotTarget(sourceRoot, payloadRoot, dir, target).Ok?
    ensures
      var inside := RelativeToRoot(sourceRoot + dir, target, sourceRoot).value;
      var snapshot := SnapshotTarget(sourceRoot, payloadRoot, dir, target).value;
      && Normal(inside) && snapshot.Relative?
      && Resolve(payloadRoot + dir, snapshot.segments) == payloadRoot + inside
      && ArchiveTarget(archiveRoot, cwd, dir, snapshot) == Ok(snapshot)
      && Resolve(extracted + dir, snapshot.segments) == extracted + inside
  {
    var inside := RelativeToRoot(sourceRoot + dir, target, sourceRoot).value;
    InsideIsNormal(sourceRoot + dir, target, sourceRoot);
    RelPathUnder(payloadRoot, inside, dir);
    RelPathCancels(payloadRoot, inside, dir);
    ArchiveKeeps(archiveRoot, cwd, dir, inside);
    RelPathCancels(extracted, inside, dir);
  }

  /** A link of a Git-aware payload, which was copied as written, is put
      right by the archive alone. */
  lemma ArchivedLinkResolves(archiveRoot: Path, cwd: Path, extracted: Path, dir: Path, target: Target)
    requires Normal(archiveRoot + dir) && ArchiveTarget(archiveRoot, cwd, dir, target).Ok?
    ensures
      var inside := RelativeToRoot(archiveRoot + dir, target, archiveRoot).value;
      var archived := ArchiveTarget(archiveRoot, cwd, dir, target).value;
      archived.Relative? && Resolve(extracted + dir, archived.segments) == extracted + inside
  {
    var inside := RelativeToRoot(archiveRoot + dir, target, archiveRoot).value;
    InsideIsNormal(archiveRoot + dir, target, archiveRoot);
    RelPathUnder(cwd + ["payload"], inside, dir);
    RelPathCancels(extracted, inside, dir);
  }

  // -- the snapshot ----------------------------------------------------------------

  /** What a source directory lists; `Other` is neither file, link nor
      directory. */
  datatype Source = File(content: string) | Link(target: Target) | Dir(entries: Entries) | Other

  datatype Entries = NoEntries | Entry(name: string, source: Source, rest: Entries)

  /** A node of the target tree, by its path below the payload root. */
  datatype Node = FileNode(content: string) | LinkNode(target: Target) | DirNode

  /** The nodes the snapshot makes of one entry at `here`, in directory `dir`;
      none of a link that escapes or an entry of another kind. */
  function CopiedEntry(source: Source, dir: Path, here: Path, sourceRoot: Path, payloadRoot: Path, excludeGit: bool):
    Result<map<Path, Node>>
    decreases source
  {
    match source
    case File(content) => Ok(map[here := FileNode(content)])
    case Link(target) =>
      var r := SnapshotTarget(sourceRoot, payloadRoot, dir, target);
      if r.Ok? then Ok(map[here := LinkNode(r.value)]) else Refused
    case Dir(inner) =>
      var r := Copied(inner, here, sourceRoot, payloadRoot, excludeGit);
      if r.Ok? then Ok(map[here := DirNode] + r.value) else Refused
    case Other => Refused
  }

  /** The nodes of a listing of the directory `dir`, or none of any. */
  function Copied(entries: Entries, dir: Path, sourceRoot: Path, payloadRoot: Path,
                  excludeGit: bool): Result<map<Path, Node>>
    decreases entries
  {
    if entries.NoEntries? then Ok(map[])
    else
      var rest := Copied(entries.rest, dir, sourceRoot, payloadRoot, excludeGit);
      if excludeGit && entries.name == ".git" then rest
      else
        var first := CopiedEntry(entries.source, dir, dir + [entries.name], sourceRoot, payloadRoot, excludeGit);
        if first.Ok? && rest.Ok? then Ok(first.value + rest.value) else Refused
  }

  lemma MergeAssociates(a: map<Path, Node>, b: map<Path, Node>, c: map<Path, Node>)
    ensures (a + b) + c == a + (b + c)
  {
  }

  /** The tree being written, below the payload root. */
  class Snapshot {
    const sourceRoot: Path
    const payloadRoot: Path
    var nodes: map<Path, Node>

    constructor (sourceRoot: Path, payloadRoot: Path)
      ensures this.sourceRoot == sourceRoot && this.payloadRoot == payloadRoot && nodes == map[]
    {
      this.sourceRoot, this.payloadRoot, nodes := sourceRoot, payloadRoot, map[];
    }

    /** One entry: a file, a rewritten link, or a directory made before it is
        filled. */
    method CopyEntry(source: Source, dir: Path, here: Path, excludeGit: bool) returns (copied: bool)
      modifies this
      ensures copied <==> CopiedEntry(source, dir, here, sourceRoot, payloadRoot, excludeGit).Ok?
      ensures copied ==> nodes == old(nodes) + CopiedEntry(source, dir, here, sourceRoot, payloadRoot, excludeGit).value
      decreases source
    {
      copied := true;
      match source {
        case File(content) =>
          nodes := nodes[here := FileNode(content)];
        case Link(target) =>
          var r := SnapshotTarget(sourceRoot, payloadRoot, dir, target);
          if r.Refused? {
            return false;
          }
          nodes := nodes[here := LinkNode(r.value)];
        case Dir(inner) =>
          ghost var before := nodes;
          nodes := nodes[here := DirNode];
          copied := CopyDirectory(inner, here, excludeGit);
          if copied {
            MergeAssociates(before, map[here := DirNode],
                            Copied(inner, here, sourceRoot, payloadRoot, excludeGit).value);
          }
        case Other =>
          copied := false;
      }
    }

    /** `_copy_snapshot_directory`: the listing's entries in turn. */
    method CopyDirectory(entries: Entries, dir: Path, excludeGit: bool) returns (copied: bool)
      modifies this
      ensures copied <==> Copied(entries, dir, sourceRoot, payloadRoot, excludeGit).Ok?
      ensures copied ==> nodes == old(nodes) + Copied(entries, dir, sourceRoot, payloadRoot, excludeGit).value
      decreases entries
    {
      if entries.NoEntries? {
        return true;
      }
      if excludeGit && entries.name == ".git" {
        copied := CopyDirectory(entries.rest, dir, excludeGit);
        return;
      }
      ghost var before := nodes;
      var here := dir + [entries.name];
      copied := CopyEntry(entries.source, dir, here, excludeGit);
      if copied {
        copied := CopyDirectory(entries.rest, dir, excludeGit);
        if copied {
          MergeAssociates(before, CopiedEntry(entries.source, dir, here, sourceRoot, payloadRoot, excludeGit).value,
                          Copied(entries.rest, dir, sourceRoot, payloadRoot, excludeGit).value);
        }
      }
    }
  }

  // -- what a snapshot is --------------------------------------------------------------

  /** The listing of `dir` has `source` at the path `at`, outside Git
      metadata when that is left out. */
  predicate Lists(entries: Entries, dir: Path, excludeGit: bool, at: Path, source: Source)
    decreases entries
  {
    && entries.Entry?
    && (|| (!(excludeGit && entries.name == ".git")
            && ListsEntry(entries.source, dir + [entries.name], excludeGit, at, source))
        || Lists(entries.rest, dir, excludeGit, at, source))
  }

  predicate ListsEntry(entry: Source, here: Path, excludeGit: bool, at: Path, source: Source)
    decreases entry
  {
    (at == here && source == entry) || (entry.Dir? && Lists(entry.entries, here, excludeGit, at, source))
  }

  /** `node` is what `source`, of directory `dir` below the source root, becomes:
      from any root, its link resolves to the image of what it resolved to. */
  ghost predicate ImageOf(source: Source, node: Node, dir: Path, sourceRoot: Path) {
    match source
    case File(content) => node == FileNode(content)
    case Dir(_) => node == DirNode
    case Other => false
    case Link(target) =>
      && node.LinkNode? && node.target.Relative? && RelativeToRoot(sourceRoot + dir, target, sourceRoot).Ok?
      && forall root: Path ::
           Resolve(root + dir, node.target.segments) ==
           root + RelativeToRoot(sourceRoot + dir, target, sourceRoot).value
  }

  predicate Named(entries: Entries) {
    entries.NoEntries? || (IsName(entries.name) && NamedEntry(entries.source) && Named(entries.rest))
  }

  predicate NamedEntry(source: Source) {
    source.Dir? ==> Named(source.entries)
  }

  lemma LinkImage(sourceRoot: Path, payloadRoot: Path, dir: Path, target: Target)
    requires Normal(sourceRoot + dir) && SnapshotTarget(sourceRoot, payloadRoot, dir, target).Ok?
    ensures ImageOf(Link(target), LinkNode(SnapshotTarget(sourceRoot, payloadRoot, dir, target).value), dir, sourceRoot)
  {
    forall root: Path
      ensures Resolve(root + dir, SnapshotTarget(sourceRoot, payloadRoot, dir, target).value.segments)
              == root + RelativeToRoot(sourceRoot + dir, target, sourceRoot).value
    {
      LinkSurvives(sourceRoot, payloadRoot, root, root, root, dir, target);
    }
  }

  /** The snapshot has a node wherever the source lists an entry. */
  lemma {:induction false} SnapshotIsWhole(entries: Entries, dir: Path, sourceRoot: Path, payloadRoot: Path,
                                           excludeGit: bool, at: Path, source: Source)
    requires Copied(entries, dir, sourceRoot, payloadRoot, excludeGit).Ok?
    requires Lists(entries, dir, excludeGit, at, source)
    ensures at in Copied(entries, dir, sourceRoot, payloadRoot, excludeGit).value
    decreases entries
  {
    if Lists(entries.rest, dir, excludeGit, at, source) {
      SnapshotIsWhole(entries.rest, dir, sourceRoot, payloadRoot, excludeGit, at, source);
    } else {
      EntryIsWhole(entries.source, dir, dir + [entries.name], sourceRoot, payloadRoot, excludeGit, at, source);
    }
  }

  lemma {:induction false} EntryIsWhole(entry: Source, dir: Path, here: Path, sourceRoot: Path, payloadRoot: Path,
                                        excludeGit: bool, at: Path, source: Source)
    requires CopiedEntry(entry, dir, here, sourceRoot, payloadRoot, excludeGit).Ok?
    requires ListsEntry(entry, here, excludeGit, at, source)
    ensures at in CopiedEntry(entry, dir, here, sourceRoot, payloadRoot, excludeGit).value
    decreases entry
  {
    if at != here {
      SnapshotIsWhole(entry.entries, here, sourceRoot, payloadRoot, excludeGit, at, source);
    }
  }

  /** Every node of the snapshot is the image of an entry the source lists at
      its path. */
  lemma {:induction false} SnapshotIsImage(entries: Entries, dir: Path, sourceRoot: Path, payloadRoot: Path,
                                           excludeGit: bool, at: Path) returns (source: Source)
    requires Normal(sourceRoot + dir) && Named(entries) && Copied(entries, dir, sourceRoot, payloadRoot, excludeGit).Ok?
    requires at in Copied(entries, dir, sourceRoot, payloadRoot, excludeGit).value
    ensures dir < at && Lists(entries, dir, excludeGit, at, source)
    ensures
      ImageOf(source, Copied(entries, dir, sourceRoot, payloadRoot, excludeGit).value[at], at[..|at| - 1], sourceRoot)
    decreases entries
  {
    if at in Copied(entries.rest, dir, sourceRoot, payloadRoot, excludeGit).value {
      source := SnapshotIsImage(entries.rest, dir, sourceRoot, payloadRoot, excludeGit, at);
    } else {
      source := EntryIsImage(entries.source, dir, entries.name, sourceRoot, payloadRoot, excludeGit, at);
    }
  }

  lemma {:induction false} EntryIsImage(entry: Source, dir: Path, name: string, sourceRoot: Path, payloadRoot: Path,
                                        excludeGit: bool, at: Path) returns (source: Source)
    requires Normal(sourceRoot + dir) && IsName(name) && NamedEntry(entry)
    requires CopiedEntry(entry, dir, dir + [name], sourceRoot, payloadRoot, excludeGit).Ok?
    requires at in CopiedEntry(entry, dir, dir + [name], sourceRoot, payloadRoot, excludeGit).value
    ensures dir < at && ListsEntry(entry, dir + [name], excludeGit, at, source)
    ensures
      ImageOf(source, CopiedEntry(entry, dir, dir + [name], sourceRoot, payloadRoot, excludeGit).value[at],
              at[..|at| - 1], sourceRoot)
    decreases entry
  {
    var here := dir + [name];
    source := entry;
    if entry.Dir? && at in Copied(entry.entries, here, sourceRoot, payloadRoot, excludeGit).value {
      assert sourceRoot + here == (sourceRoot + dir) + [name];
      source := SnapshotIsImage(entry.entries, here, sourceRoot, payloadRoot, excludeGit, at);
    } else {
      assert at == here && here[..|here| - 1] == dir;
      if entry.Link? {
        LinkImage(sourceRoot, payloadRoot, dir, entry.target);
      }
    }
  }

  // -- destinations ----------------------------------------------------------------------

  /** `_normalize_sync_destination`, the trimmed text split at its slashes;
      two leading slashes stay two, so they name nothing below /content. */
  function Destination(leadingSlashes: nat, segments: Segments): Result<Path> {
    if leadingSlashes == 0 && (segments == [] || segments == [""] || segments == ["."]) then Refused
    else if leadingSlashes == 2 then Refused
    else
      var base := if leadingSlashes > 0 || segments[0] == "content" then [] else ["content"];
      var p := Resolve(base, segments);
      if |p| > 1 && p[0] == "content" then Ok(p) else Refused
  }

  /** An accepted destination is strictly below /content, and its normal form
      names the same place, written absolute or from "content"; written
      without that name, exactly when it does not start with it again. */
  lemma DestinationStandsFor(leadingSlashes: nat, segments: Segments)
    requires Destination(leadingSlashes, segments).Ok?
    ensures
      var p := Destination(leadingSlashes, segments).value;
      && Normal(p) && |p| > 1 && p[0] == "content"
      && Destination(1, p) == Ok(p) && Destination(0, p) == Ok(p)
      && (Destination(0, p[1..]) == Ok(p) <==> p[1] != "content")
  {
    var p := Destination(leadingSlashes, segments).value;
    assert IsName("content");
    ResolveNames([], p);
    ResolveNames(["content"], p[1..]);
    ResolveNames([], p[1..]);
    assert [] + p[1..] == p[1..];
    assert [] + p == p && ["content"] + p[1..] == p;
  }
}
