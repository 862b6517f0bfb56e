/** The check of a staged tree's links on the VM (`validate_payload_links`,
    src/colab_cli/commands/sync.py): where a link really leads, through other
    links, and what that says once the tree is moved. */
module SyncLinks {
  import opened Results
  import opened SyncPaths

  /** A tree below its root; its links are the only ones a walk meets. */
  type Tree = map<Path, Node>

  predicate IsLink(tree: Tree, rel: Path) {
    rel in tree && tree[rel].LinkNode?
  }

  // -- realpath ----------------------------------------------------------------------

  /** Where a walk ends: fully resolved, or stopped at a link that leads back to
      itself, with what was left of the path only joined on. */
  datatype Walked = Reached(path: Path) | Looped(path: Path)

  /** `realpath` from the directory `at`, for a tree whose root stands at `root`;
      `open` are the links being resolved. */
  function Walk(tree: Tree, root: Path, at: Path, segments: Segments, open: set<Path>): Walked
    decreases tree.Keys - open, |segments|
  {
    if segments == [] then Reached(at)
    else
      var s, rest := segments[0], segments[1..];
      if s == "" || s == "." then Walk(tree, root, at, rest, open)
      else if s == ".." then Walk(tree, root, if at == [] then [] else at[..|at| - 1], rest, open)
      else
        var here := at + [s];
        if !(root <= here && IsLink(tree, here[|root|..])) then Walk(tree, root, here, rest, open)
        else
          var rel := here[|root|..];
          if rel in open then Looped(Resolve(here, rest))
          else
            assert rel in tree.Keys - open;
            var led :=
              match tree[rel].target
              case Relative(segs) => Walk(tree, root, at, segs, open + {rel})
              case Absolute(path) => Walk(tree, root, [], path, open + {rel});
            if led.Looped? then Looped(Resolve(led.path, rest)) else Walk(tree, root, led.path, rest, open)
  }

  /** The check: every link is relative and leads to the root or below it. */
  predicate LinkInside(tree: Tree, root: Path, rel: Path)
    requires IsLink(tree, rel)
  {
    rel != [] && tree[rel].target.Relative?
    && root <= Walk(tree, root, root + rel[..|rel| - 1], [rel[|rel| - 1]], {}).path
  }

  predicate LinksInside(tree: Tree, root: Path) {
    forall rel | rel in tree && IsLink(tree, rel) :: LinkInside(tree, root, rel)
  }

  /** `validate_payload_links`: it refuses at the first link that escapes. */
  method ValidateLinks(tree: Tree, root: Path) returns (accepted: bool)
    ensures accepted <==> LinksInside(tree, root)
  {
    var todo := tree.Keys;
    while todo != {}
      invariant todo <= tree.Keys
      invariant forall rel | rel in tree && rel !in todo && IsLink(tree, rel) :: LinkInside(tree, root, rel)
    {
      var rel :| rel in todo;
      if IsLink(tree, rel) && !LinkInside(tree, root, rel) {
        return false;
      }
      todo := todo - {rel};
    }
    return true;
  }

  // -- a walk that stays below the root ------------------------------------------------

  datatype Inner = At(path: Path) | Loop(path: Path) | Leaves

  /** `normpath(join(rel, segments))`, refused where it steps above the root. */
  function Below(rel: Path, segments: Segments): Result<Path>
    decreases |segments|
  {
    if segments == [] then Ok(rel)
    else
      var s, rest := segments[0], segments[1..];
      if s == "" || s == "." then Below(rel, rest)
      else if s == ".." then (if rel == [] then Refused else Below(rel[..|rel| - 1], rest))
      else Below(rel + [s], rest)
  }

  function Joined(rel: Path, segments: Segments): Inner {
    var r := Below(rel, segments);
    if r.Ok? then Loop(r.value) else Leaves
  }

  /** The same walk told by the tree alone: it says so where it steps above the
      root, or starts over from the root of the file system. */
  function Within(tree: Tree, rel: Path, segments: Segments, open: set<Path>): Inner
    decreases tree.Keys - open, |segments|
  {
    if segments == [] then At(rel)
    else
      var s, rest := segments[0], segments[1..];
      if s == "" || s == "." then Within(tree, rel, rest, open)
      else if s == ".." then (if rel == [] then Leaves else Within(tree, rel[..|rel| - 1], rest, open))
      else
        var here := rel + [s];
        if !IsLink(tree, here) then Within(tree, here, rest, open)
        else if here in open then Joined(here, rest)
        else if tree[here].target.Absolute? then Leaves
        else
          assert here in tree.Keys - open;
          var led := Within(tree, rel, tree[here].target.segments, open + {here});
          match led
          case Leaves => Leaves
          case Loop(path) => Joined(path, rest)
          case At(path) => Within(tree, path, rest, open)
  }

  /** No link is absolute, and none leads above the root on its way. */
  predicate NeverLeaves(tree: Tree) {
    forall rel | rel in tree && IsLink(tree, rel) ::
      && rel != [] && tree[rel].target.Relative?
      && !Within(tree, rel[..|rel| - 1], [rel[|rel| - 1]], {}).Leaves?
  }

  lemma {:induction false} BelowResolves(root: Path, rel: Path, segments: Segments)
    requires Below(rel, segments).Ok?
    ensures Resolve(root + rel, segments) == root + Below(rel, segments).value
    decreases |segments|
  {
    if segments != [] {
      var s := segments[0];
      if s == "" || s == "." {
        BelowResolves(root, rel, segments[1..]);
      } else if s == ".." {
        assert (root + rel)[..|root + rel| - 1] == root + rel[..|rel| - 1];
        BelowResolves(root, rel[..|rel| - 1], segments[1..]);
      } else {
        assert root + rel + [s] == root + (rel + [s]);
        BelowResolves(root, rel + [s], segments[1..]);
      }
    }
  }

  predicate Agree(w: Walked, i: Inner, root: Path) {
    match i
    case At(path) => w == Reached(root + path)
    case Loop(path) => w == Looped(root + path)
    case Leaves => true
  }

  /** A walk that never leaves goes the same way wherever the root stands. */
  lemma {:induction false} WithinWalks(tree: Tree, root: Path, rel: Path, segments: Segments, open: set<Path>)
    ensures Agree(Walk(tree, root, root + rel, segments, open), Within(tree, rel, segments, open), root)
    decreases tree.Keys - open, |segments|
  {
    if segments != [] && !Within(tree, rel, segments, open).Leaves? {
      var s, rest := segments[0], segments[1..];
      var at := root + rel;
      if s == "" || s == "." {
        WithinWalks(tree, root, rel, rest, open);
      } else if s == ".." {
        assert at[..|at| - 1] == root + rel[..|rel| - 1];
        WithinWalks(tree, root, rel[..|rel| - 1], rest, open);
      } else {
        var here := rel + [s];
        assert at + [s] == root + here && (root + here)[|root|..] == here;
        if !IsLink(tree, here) {
          WithinWalks(tree, root, here, rest, open);
        } else if here in open {
          BelowResolves(root, here, rest);
        } else {
          assert here in tree.Keys - open;
          WithinWalks(tree, root, rel, tree[here].target.segments, open + {here});
          var led := Within(tree, rel, tree[here].target.segments, open + {here});
          if led.Loop? {
            BelowResolves(root, led.path, rest);
          } else {
            WithinWalks(tree, root, led.path, rest, open);
          }
        }
      }
    }
  }

  // -- a root no link can name ------------------------------------------------------------

  function SegmentsOf(target: Target): seq<string> {
    match target
    case Relative(segs) => segs
    case Absolute(path) => path
  }

  /** No link of the tree has `x` among its segments. */
  predicate Unnamed(tree: Tree, x: string) {
    forall rel | rel in tree && IsLink(tree, rel) :: x !in SegmentsOf(tree[rel].target)
  }

  predicate Outside(x: string, p: Path) {
    p == [] || p[0] != x
  }

  lemma {:induction false} ResolveOutside(x: string, at: Path, segments: Segments)
    requires Outside(x, at) && x !in segments
    ensures Outside(x, Resolve(at, segments))
    decreases |segments|
  {
    if segments != [] {
      var s := segments[0];
      var next := if s == "" || s == "." then at
                  else if s == ".." then (if at == [] then [] else at[..|at| - 1])
                  else at + [s];
      ResolveOutside(x, next, segments[1..]);
    }
  }

  /** Once outside, a walk meets no link and stays outside. */
  lemma {:induction false} WalkOutside(tree: Tree, x: string, at: Path, segments: Segments, open: set<Path>)
    requires Outside(x, at) && x !in segments
    ensures Walk(tree, [x], at, segments, open).Reached? && Outside(x, Walk(tree, [x], at, segments, open).path)
    decreases |segments|
  {
    if segments != [] {
      var s := segments[0];
      if s == "" || s == "." {
        WalkOutside(tree, x, at, segments[1..], open);
      } else if s == ".." {
        WalkOutside(tree, x, if at == [] then [] else at[..|at| - 1], segments[1..], open);
      } else {
        WalkOutside(tree, x, at + [s], segments[1..], open);
      }
    }
  }

  lemma {:induction false} AboveIsOutside(x: string, rel: Path, segments: Segments)
    requires Below(rel, segments).Refused? && x !in segments
    ensures Outside(x, Resolve([x] + rel, segments))
    decreases |segments|
  {
    var s, rest := segments[0], segments[1..];
    if s == "" || s == "." {
      AboveIsOutside(x, rel, rest);
    } else if s == ".." {
      assert ([x] + rel)[..|[x] + rel| - 1] == if rel == [] then [] else [x] + rel[..|rel| - 1];
      if rel == [] {
        ResolveOutside(x, [], rest);
      } else {
        AboveIsOutside(x, rel[..|rel| - 1], rest);
      }
    } else {
      assert [x] + rel + [s] == [x] + (rel + [s]);
      AboveIsOutside(x, rel + [s], rest);
    }
  }

  /** Below a root no link can name, a walk that leaves never comes back. */
  lemma {:induction false} LeavingIsOutside(tree: Tree, x: string, rel: Path, segments: Segments, open: set<Path>)
    requires Unnamed(tree, x) && x !in segments && Within(tree, rel, segments, open).Leaves?
    ensures Outside(x, Walk(tree, [x], [x] + rel, segments, open).path)
    decreases tree.Keys - open, |segments|, 0
  {
    var s, rest := segments[0], segments[1..];
    var at := [x] + rel;
    if s == "" || s == "." {
      LeavingIsOutside(tree, x, rel, rest, open);
    } else if s == ".." {
      assert at[..|at| - 1] == if rel == [] then [] else [x] + rel[..|rel| - 1];
      if rel == [] {
        WalkOutside(tree, x, [], rest, open);
      } else {
        LeavingIsOutside(tree, x, rel[..|rel| - 1], rest, open);
      }
    } else {
      var here := rel + [s];
      assert at + [s] == [x] + here && ([x] + here)[1..] == here;
      if !IsLink(tree, here) {
        LeavingIsOutside(tree, x, here, rest, open);
      } else if here in open {
        AboveIsOutside(x, here, rest);
      } else {
        LinkLeaves(tree, x, rel, here, rest, open);
      }
    }
  }

  lemma {:induction false} LinkLeaves(tree: Tree, x: string, rel: Path, here: Path, rest: Segments, open: set<Path>)
    requires Unnamed(tree, x) && x !in rest && |here| > 0 && here[|here| - 1] != "" && here[|here| - 1] != "."
    requires here[|here| - 1] != ".." && here == rel + [here[|here| - 1]] && IsLink(tree, here) && here !in open
    requires Within(tree, rel, [here[|here| - 1]] + rest, open).Leaves?
    ensures Outside(x, Walk(tree, [x], [x] + rel, [here[|here| - 1]] + rest, open).path)
    decreases tree.Keys - open, |rest|, 1
  {
    var segments := [here[|here| - 1]] + rest;
    assert segments[1..] == rest;
    assert [x] + rel + [here[|here| - 1]] == [x] + here && ([x] + here)[1..] == here;
    assert here in tree.Keys - open;
    match tree[here].target {
      case Absolute(path) =>
        WalkOutside(tree, x, [], path, open + {here});
        WalkOutside(tree, x, Walk(tree, [x], [], path, open + {here}).path, rest, open);
      case Relative(segs) =>
        var led := Within(tree, rel, segs, open + {here});
        var walked := Walk(tree, [x], [x] + rel, segs, open + {here});
        if led.Leaves? {
          LeavingIsOutside(tree, x, rel, segs, open + {here});
          if walked.Looped? {
            ResolveOutside(x, walked.path, rest);
          } else {
            WalkOutside(tree, x, walked.path, rest, open);
          }
        } else {
          WithinWalks(tree, [x], rel, segs, open + {here});
          if led.Loop? {
            AboveIsOutside(x, led.path, rest);
          } else {
            LeavingIsOutside(tree, x, led.path, rest, open);
          }
        }
    }
  }

  lemma {:induction false} LongerThanAll(names: set<string>) returns (x: string)
    ensures x !in names && forall n | n in names :: |n| < |x|
    decreases names
  {
    x := "x";
    if names != {} {
      var n :| n in names;
      var y := LongerThanAll(names - {n});
      x := if |y| > |n| then y else n + "x";
      forall m | m in names ensures |m| < |x| {
        assert m == n || m in names - {n};
      }
    }
  }

  function Names(tree: Tree): set<string> {
    set rel, s | rel in tree && IsLink(tree, rel) && s in SegmentsOf(tree[rel].target) :: s
  }

  /** The check holds of a tree wherever it is put exactly when none of its
      links ever leaves it. */
  lemma InsideEverywhereIff(tree: Tree)
    ensures (forall root: Path :: LinksInside(tree, root)) <==> NeverLeaves(tree)
  {
    if NeverLeaves(tree) {
      forall root: Path ensures LinksInside(tree, root) {
        StaysInside(tree, root);
      }
    } else {
      var root := Exposed(tree);
      assert !LinksInside(tree, root);
    }
  }

  lemma StaysInside(tree: Tree, root: Path)
    requires NeverLeaves(tree)
    ensures LinksInside(tree, root)
  {
    forall rel | rel in tree && IsLink(tree, rel) ensures LinkInside(tree, root, rel) {
      WithinWalks(tree, root, rel[..|rel| - 1], [rel[|rel| - 1]], {});
    }
  }

  lemma Exposed(tree: Tree) returns (root: Path)
    requires !NeverLeaves(tree)
    ensures !LinksInside(tree, root)
  {
    var rel :| rel in tree && IsLink(tree, rel)
               && !(rel != [] && tree[rel].target.Relative?
                    && !Within(tree, rel[..|rel| - 1], [rel[|rel| - 1]], {}).Leaves?);
    root := [];
    if rel == [] || !tree[rel].target.Relative? {
      assert !LinkInside(tree, root, rel);
    } else {
      var last := rel[|rel| - 1];
      var x := LongerThanAll(Names(tree) + {last});
      assert Unnamed(tree, x) by {
        assert x !in Names(tree);
      }
      LeavingIsOutside(tree, x, rel[..|rel| - 1], [last], {});
      root := [x];
      assert !LinkInside(tree, root, rel);
    }
  }

  // -- the links sync writes ------------------------------------------------------------

  /** Up a number of directories there are, then down by names. */
  predicate Canonical(segments: Segments, depth: nat) {
    || segments == ["."]
    || exists n: nat :: n <= depth && n <= |segments| && UpsThenNames(segments, n)
  }

  predicate UpsThenNames(segments: Segments, n: nat)
    requires n <= |segments|
  {
    (forall i | 0 <= i < n :: segments[i] == "..") && Normal(segments[n..])
  }

  /** Every link of the tree stands under a name, and is of that form relative
      to its own directory. */
  predicate CanonicalTree(tree: Tree) {
    forall rel | rel in tree && IsLink(tree, rel) ::
      && rel != [] && IsName(rel[|rel| - 1])
      && tree[rel].target.Relative? && Canonical(tree[rel].target.segments, |rel| - 1)
  }

  lemma {:induction false} NamesStayBelow(rel: Path, names: Segments)
    requires Normal(names)
    ensures Below(rel, names) == Ok(rel + names)
    decreases |names|
  {
    if names == [] {
      assert rel + names == rel;
    } else {
      NamesStayBelow(rel + [names[0]], names[1..]);
      assert rel + names == rel + [names[0]] + names[1..];
    }
  }

  /** Through whatever other links it leads, a walk of this form stays below. */
  lemma {:induction false} CanonicalStays(tree: Tree, rel: Path, segments: Segments, open: set<Path>)
    requires CanonicalTree(tree) && Canonical(segments, |rel|)
    ensures !Within(tree, rel, segments, open).Leaves?
    decreases tree.Keys - open, |segments|, 0
  {
    if segments == ["."] {
      assert Within(tree, rel, [], open) == At(rel);
    } else if segments != [] {
      var n: nat :| n <= |rel| && n <= |segments| && UpsThenNames(segments, n);
      var s, rest := segments[0], segments[1..];
      if n > 0 {
        assert UpsThenNames(rest, n - 1) by {
          assert rest[n - 1..] == segments[n..];
        }
        CanonicalStays(tree, rel[..|rel| - 1], rest, open);
      } else {
        assert segments[0..] == segments && IsName(s);
        assert Normal(rest);
        assert UpsThenNames(rest, 0) by {
          assert rest[0..] == rest;
        }
        NamedStays(tree, rel, s, rest, open);
      }
    }
  }

  lemma {:induction false} NamedStays(tree: Tree, rel: Path, s: string, rest: Segments, open: set<Path>)
    requires CanonicalTree(tree) && IsName(s) && Normal(rest) && UpsThenNames(rest, 0)
    ensures !Within(tree, rel, [s] + rest, open).Leaves?
    decreases tree.Keys - open, |rest|, 1
  {
    assert ([s] + rest)[1..] == rest;
    var here := rel + [s];
    if !IsLink(tree, here) {
      CanonicalStays(tree, here, rest, open);
    } else if here in open {
      NamesStayBelow(here, rest);
    } else {
      assert here in tree.Keys - open;
      CanonicalStays(tree, rel, tree[here].target.segments, open + {here});
      var led := Within(tree, rel, tree[here].target.segments, open + {here});
      if led.Loop? {
        NamesStayBelow(led.path, rest);
      } else {
        CanonicalStays(tree, led.path, rest, open);
      }
    }
  }

  lemma RelPathIsCanonical(target: Path, start: Path)
    requires Normal(target)
    ensures Canonical(RelPath(target, start), |start|)
  {
    var n := CommonLength(target, start);
    var segments := Ups(|start| - n) + target[n..];
    if segments != [] {
      assert segments[|start| - n..] == target[n..];
      assert UpsThenNames(segments, |start| - n);
    }
  }

  /** The snapshot's link text is of that form, and so is the archive's. */
  lemma WrittenLinkIsCanonical(root: Path, other: Path, dir: Path, target: Target)
    requires Normal(root + dir) && RelativeToRoot(root + dir, target, root).Ok?
    ensures
      var snapshot, archived := SnapshotTarget(root, other, dir, target), ArchiveTarget(root, other, dir, target);
      && snapshot.Ok? && snapshot.value.Relative? && Canonical(snapshot.value.segments, |dir|)
      && archived.Ok? && archived.value.Relative? && Canonical(archived.value.segments, |dir|)
  {
    var inside := RelativeToRoot(root + dir, target, root).value;
    InsideIsNormal(root + dir, target, root);
    RelPathIsCanonical(inside, dir);
    RelPathUnder(other, inside, dir);
    RelPathUnder(other + ["payload"], inside, dir);
  }

  lemma {:induction false} CopiedIsCanonical(entries: Entries, dir: Path, sourceRoot: Path, payloadRoot: Path,
                                             excludeGit: bool)
    requires Normal(sourceRoot + dir) && Named(entries) && Copied(entries, dir, sourceRoot, payloadRoot, excludeGit).Ok?
    ensures CanonicalTree(Copied(entries, dir, sourceRoot, payloadRoot, excludeGit).value)
    decreases entries
  {
    if entries.Entry? {
      CopiedIsCanonical(entries.rest, dir, sourceRoot, payloadRoot, excludeGit);
      if !(excludeGit && entries.name == ".git") {
        EntryIsCanonical(entries.source, dir, entries.name, sourceRoot, payloadRoot, excludeGit);
      }
    }
  }

  lemma {:induction false} EntryIsCanonical(entry: Source, dir: Path, name: string, sourceRoot: Path,
                                            payloadRoot: Path, excludeGit: bool)
    requires Normal(sourceRoot + dir) && IsName(name) && NamedEntry(entry)
    requires CopiedEntry(entry, dir, dir + [name], sourceRoot, payloadRoot, excludeGit).Ok?
    ensures CanonicalTree(CopiedEntry(entry, dir, dir + [name], sourceRoot, payloadRoot, excludeGit).value)
    decreases entry
  {
    match entry {
      case Link(target) => WrittenLinkIsCanonical(sourceRoot, payloadRoot, dir, target);
      case Dir(inner) =>
        assert sourceRoot + (dir + [name]) == (sourceRoot + dir) + [name];
        CopiedIsCanonical(inner, dir + [name], sourceRoot, payloadRoot, excludeGit);
      case _ =>
    }
  }

  /** Every tree the snapshot accepts passes the check wherever it is staged,
      and its links still lead inside wherever it is put, through other links
      too. */
  lemma SnapshotStaysInside(entries: Entries, sourceRoot: Path, payloadRoot: Path, excludeGit: bool)
    requires Normal(sourceRoot) && Named(entries) && Copied(entries, [], sourceRoot, payloadRoot, excludeGit).Ok?
    ensures forall root: Path :: LinksInside(Copied(entries, [], sourceRoot, payloadRoot, excludeGit).value, root)
  {
    var tree := Copied(entries, [], sourceRoot, payloadRoot, excludeGit).value;
    assert sourceRoot + [] == sourceRoot;
    CopiedIsCanonical(entries, [], sourceRoot, payloadRoot, excludeGit);
    CanonicalNeverLeaves(tree);
    InsideEverywhereIff(tree);
  }

  lemma CanonicalNeverLeaves(tree: Tree)
    requires CanonicalTree(tree)
    ensures NeverLeaves(tree)
  {
    forall rel | rel in tree && IsLink(tree, rel)
      ensures !Within(tree, rel[..|rel| - 1], [rel[|rel| - 1]], {}).Leaves?
    {
      var last := rel[|rel| - 1];
      assert [last][0..] == [last] && UpsThenNames([last], 0);
      CanonicalStays(tree, rel[..|rel| - 1], [last], {});
    }
  }

  /** The check says less of other trees: a link that leaves and comes back by
      the name the tree is staged under passes, and leads elsewhere from where
      it is installed. */
  lemma CheckedLinkCanEscape()
    ensures
      var tree := map[["l"] := LinkNode(Relative(["..", "payload", "x"]))];
      && LinksInside(tree, ["content", "stage", "payload"]) && !LinksInside(tree, ["content", "out"])
      && !NeverLeaves(tree)
  {
    var tree := map[["l"] := LinkNode(Relative(["..", "payload", "x"]))];
    var staged, installed := ["content", "stage", "payload"], ["content", "out"];
    EscapingWalk(tree, staged);
    EscapingWalk(tree, installed);
  }

  lemma EscapingWalk(tree: Tree, root: Path)
    requires tree == map[["l"] := LinkNode(Relative(["..", "payload", "x"]))] && |root| > 0
    ensures LinkInside(tree, root, ["l"]) <==> root[|root| - 1] == "payload"
    ensures Within(tree, [], ["l"], {}).Leaves?
  {
    var up, open := root[..|root| - 1], {["l"]};
    assert root + [] == root && (root + ["l"])[|root|..] == ["l"];
    assert ["..", "payload", "x"][1..] == ["payload", "x"] && ["payload", "x"][1..] == ["x"] && ["x"][1..] == [];
    var end := up + ["payload"] + ["x"];
    assert Walk(tree, root, up + ["payload"], ["x"], open) == Reached(end) by {
      assert root <= end ==> end[|root|..] != ["l"];
    }
    assert Walk(tree, root, up, ["payload", "x"], open) == Reached(end) by {
      assert root <= up + ["payload"] ==> (up + ["payload"])[|root|..] != ["l"];
    }
    assert Walk(tree, root, root, ["..", "payload", "x"], open) == Reached(end);
    assert Walk(tree, root, root, ["l"], {}) == Reached(end) by {
      assert {} + {["l"]} == open;
    }
    assert root <= end <==> root[|root| - 1] == "payload";
    assert Within(tree, [], ["..", "payload", "x"], open).Leaves?;
    assert Within(tree, [], ["l"], {}).Leaves? by {
      assert {} + {["l"]} == open && [] + ["l"] == ["l"];
    }
  }
}
