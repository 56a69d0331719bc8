/**
 * Materialising the editor's project archive in the ephemeral filesystem:
 * which directories are created for each entry, which files are written, and
 * (for the pull path) the file tree that results.
 */
module Workspace {
  import opened Base
  import opened Text
  import opened Effects

  /** One archive entry (`zip.files[name]`): its path, whether it is a directory, its text. */
  datatype Entry = Entry(name: string, isDir: bool, content: string)

  /** The components a directory loop keeps: all of them, or only the non-empty ones. */
  function Kept(parts: seq<string>, skipEmpty: bool): (kept: seq<string>)
    ensures |kept| <= |parts|
    ensures !skipEmpty ==> kept == parts
    ensures skipEmpty ==> forall k :: 0 <= k < |kept| ==> kept[k] != "" && kept[k] in parts
  {
    if parts == [] then []
    else if skipEmpty && parts[0] == "" then Kept(parts[1..], skipEmpty)
    else [parts[0]] + Kept(parts[1..], skipEmpty)
  }

  /** Keeping the components of two runs of parts keeps each run's, in order. */
  lemma {:induction false} KeptAppend(a: seq<string>, b: seq<string>, skipEmpty: bool)
    ensures Kept(a + b, skipEmpty) == Kept(a, skipEmpty) + Kept(b, skipEmpty)
    decreases |a|
  {
    if a == [] {
      assert a + b == b;
    } else {
      HeadTail(a, b);
      KeptAppend(a[1..], b, skipEmpty);
    }
  }

  /** A single component is kept unless it is empty and empty ones are skipped. */
  lemma KeptOne(part: string, skipEmpty: bool)
    ensures Kept([part], skipEmpty) == (if skipEmpty && part == "" then [] else [part])
  {
    assert [part][1..] == [];
  }

  lemma JoinSnoc(xs: seq<string>, y: string, sep: string)
    requires |xs| >= 1
    ensures Join(xs + [y], sep) == Join(xs, sep) + sep + y
    decreases |xs|
  {
    if |xs| == 1 {
      assert xs + [y] == [xs[0], y];
      assert [xs[0], y][1..] == [y];
    } else {
      assert (xs + [y])[1..] == xs[1..] + [y];
      JoinSnoc(xs[1..], y, sep);
    }
  }

  /**
   * The cumulative directory loop: starting from `cur`, append `/` and the
   * next component, creating each directory. Directory `k` is `cur` followed
   * by the first `k+1` kept components.
   */
  function CumulativeDirs(parts: seq<string>, cur: string, skipEmpty: bool): (dirs: seq<string>)
    ensures |dirs| == |Kept(parts, skipEmpty)|
    ensures forall k :: 0 <= k < |dirs| ==>
      dirs[k] == cur + "/" + Join(Kept(parts, skipEmpty)[..k + 1], "/")
  {
    if parts == [] then []
    else if skipEmpty && parts[0] == "" then CumulativeDirs(parts[1..], cur, skipEmpty)
    else
      var next := cur + "/" + parts[0];
      var rest := CumulativeDirs(parts[1..], next, skipEmpty);
      var kept := Kept(parts, skipEmpty);
      assert kept == [parts[0]] + Kept(parts[1..], skipEmpty);
      var dirs := [next] + rest;
      assert forall k :: 1 <= k < |dirs| ==> dirs[k] == cur + "/" + Join(kept[..k + 1], "/") by {
        forall k | 1 <= k < |dirs| ensures dirs[k] == cur + "/" + Join(kept[..k + 1], "/") {
          assert dirs[k] == rest[k - 1];
          JoinStep(cur, parts[0], Kept(parts[1..], skipEmpty), k);
        }
      }
      assert kept[..1] == [parts[0]];
      dirs
  }

  /** One more directory level: `cur/p` followed by the first `k` further components. */
  lemma JoinStep(cur: string, p: string, xs: seq<string>, k: nat)
    requires 1 <= k <= |xs|
    ensures cur + "/" + p + "/" + Join(xs[..k], "/") == cur + "/" + Join(([p] + xs)[..k + 1], "/")
  {
    assert ([p] + xs)[..k + 1] == [p] + xs[..k];
    JoinCons(p, xs[..k], "/");
    Regroup(cur + "/", p, "/", Join(xs[..k], "/"));
  }

  /** The directory components of a path: everything before the last `/`. */
  function DirParts(path: string): seq<string> {
    var parts := Split(path, '/');
    parts[..|parts| - 1]
  }

  /**
   * `ensureDir(p)` of the push paths: every cumulative prefix of the
   * directory part of `p`, empty components skipped, the last component
   * (the file name) excluded.
   */
  function EnsureDirPaths(path: string): (dirs: seq<string>)
    ensures |dirs| == |Kept(DirParts(path), true)|
    ensures forall k :: 0 <= k < |dirs| ==> StartsWith(dirs[k], "/")
    ensures forall k :: 0 <= k < |dirs| ==> dirs[k] == "/" + Join(Kept(DirParts(path), true)[..k + 1], "/")
  {
    CumulativeDirs(DirParts(path), "", true)
  }

  /**
   * For a path `/c1/.../cn` of non-empty slash-free components, `ensureDir`
   * creates `/c1`, `/c1/c2`, ..., up to the parent of `cn`, and nothing else.
   */
  lemma EnsureDirOfAbsolutePath(cs: seq<string>)
    requires |cs| >= 1
    requires forall k :: 0 <= k < |cs| ==> cs[k] != "" && '/' !in cs[k]
    ensures |EnsureDirPaths("/" + Join(cs, "/"))| == |cs| - 1
    ensures forall k :: 0 <= k < |cs| - 1 ==> EnsureDirPaths("/" + Join(cs, "/"))[k] == "/" + Join(cs[..k + 1], "/")
  {
    var path := "/" + Join(cs, "/");
    var init := cs[..|cs| - 1];
    DirPartsOfAbsolutePath(cs);
    KeptNonEmpty(init);
    var dirs := EnsureDirPaths(path);
    forall k | 0 <= k < |cs| - 1 ensures dirs[k] == "/" + Join(cs[..k + 1], "/") {
      assert init[..k + 1] == cs[..k + 1];
    }
  }

  lemma DirPartsOfAbsolutePath(cs: seq<string>)
    requires |cs| >= 1
    requires forall k :: 0 <= k < |cs| ==> '/' !in cs[k]
    ensures Kept(DirParts("/" + Join(cs, "/")), true) == Kept(cs[..|cs| - 1], true)
  {
    SplitOfAbsolutePath(cs);
    KeptDirParts("/" + Join(cs, "/"), cs);
  }

  /** A path that splits into an empty first component and `cs` keeps the components of `cs` but the last. */
  lemma KeptDirParts(path: string, cs: seq<string>)
    requires |cs| >= 1 && Split(path, '/') == [""] + cs
    ensures Kept(DirParts(path), true) == Kept(cs[..|cs| - 1], true)
  {
    assert DirParts(path) == [""] + cs[..|cs| - 1];
    KeptSkipsEmpty(cs[..|cs| - 1]);
  }

  /** A leading empty component is skipped. */
  lemma KeptSkipsEmpty(parts: seq<string>)
    ensures Kept([""] + parts, true) == Kept(parts, true)
  {
    assert ([""] + parts)[1..] == parts;
  }

  lemma SplitOfAbsolutePath(cs: seq<string>)
    requires |cs| >= 1
    requires forall k :: 0 <= k < |cs| ==> '/' !in cs[k]
    ensures Split("/" + Join(cs, "/"), '/') == [""] + cs
  {
    JoinLeadingEmpty(cs);
    NoSlashAfterEmpty(cs);
    SplitJoin([""] + cs, '/');
  }

  lemma JoinLeadingEmpty(cs: seq<string>)
    requires |cs| >= 1
    ensures Join([""] + cs, "/") == "/" + Join(cs, "/")
  {
    JoinCons("", cs, "/");
    assert "" + "/" + Join(cs, "/") == "/" + Join(cs, "/");
  }

  lemma NoSlashAfterEmpty(cs: seq<string>)
    requires forall k :: 0 <= k < |cs| ==> '/' !in cs[k]
    ensures forall k :: 0 <= k < |[""] + cs| ==> '/' !in ([""] + cs)[k]
  {
    var all := [""] + cs;
    forall k | 0 <= k < |all| ensures '/' !in all[k] {
      if k > 0 { assert all[k] == cs[k - 1]; }
    }
  }

  lemma {:induction false} KeptNonEmpty(parts: seq<string>)
    requires forall k :: 0 <= k < |parts| ==> parts[k] != ""
    ensures Kept(parts, true) == parts
    decreases |parts|
  {
    if parts != [] {
      assert forall k :: 0 <= k < |parts[1..]| ==> parts[1..][k] == parts[k + 1];
      KeptNonEmpty(parts[1..]);
    }
  }

  /** The last directory `ensureDir` creates, followed by the file name, is the path itself. */
  lemma EnsureDirEndsAtParent(cs: seq<string>)
    requires |cs| >= 2
    requires forall k :: 0 <= k < |cs| ==> cs[k] != "" && '/' !in cs[k]
    ensures var dirs := EnsureDirPaths("/" + Join(cs, "/"));
      |dirs| >= 1 && dirs[|dirs| - 1] + "/" + cs[|cs| - 1] == "/" + Join(cs, "/")
  {
    EnsureDirOfAbsolutePath(cs);
    var dirs := EnsureDirPaths("/" + Join(cs, "/"));
    assert cs[..|dirs| - 1 + 1] == cs[..|cs| - 1];
    ParentThenName(cs, dirs[|dirs| - 1]);
  }

  /** The path of the parent directory of `cs`'s last component, then `/` and that component, is the path of `cs`. */
  lemma ParentThenName(cs: seq<string>, parent: string)
    requires |cs| >= 2 && parent == "/" + Join(cs[..|cs| - 1], "/")
    ensures parent + "/" + cs[|cs| - 1] == "/" + Join(cs, "/")
  {
    var init := cs[..|cs| - 1];
    InitThenLast(cs);
    JoinSnoc(init, cs[|cs| - 1], "/");
    Regroup("/", Join(init, "/"), "/", cs[|cs| - 1]);
  }

  lemma InitThenLast(cs: seq<string>)
    requires |cs| >= 1
    ensures cs == cs[..|cs| - 1] + [cs[|cs| - 1]]
  {
  }

  lemma Regroup(a: string, b: string, c: string, d: string)
    ensures a + b + c + d == a + (b + c + d)
  {
  }

  /** The pull path's loop: prefixes of the file's directories under `/local`, empty ones included. */
  function PullDirPaths(filename: string): (dirs: seq<string>)
    ensures |dirs| == |Split(filename, '/')| - 1
    ensures forall k :: 0 <= k < |dirs| ==> dirs[k] == "/local/" + Join(Split(filename, '/')[..k + 1], "/")
  {
    var parts := Split(filename, '/');
    var dirs := CumulativeDirs(DirParts(filename), "/local", false);
    forall k | 0 <= k < |dirs| ensures dirs[k] == "/local/" + Join(parts[..k + 1], "/") {
      assert DirParts(filename)[..k + 1] == parts[..k + 1];
    }
    dirs
  }

  lemma JoinSplitAt(xs: seq<string>, k: nat, sep: string)
    requires 0 < k < |xs|
    ensures Join(xs, sep) == Join(xs[..k], sep) + sep + Join(xs[k..], sep)
    decreases k
  {
    SliceFacts(xs, k);
    JoinCons(xs[0], xs[1..], sep);
    if k > 1 {
      JoinSplitAt(xs[1..], k - 1, sep);
      JoinCons(xs[0], xs[1..k], sep);
      Regroup(xs[0] + sep, Join(xs[1..k], sep), sep, Join(xs[k..], sep));
    }
  }

  /** How the slices around position `k` relate to the head and the tail. */
  lemma SliceFacts(xs: seq<string>, k: nat)
    requires 0 < k < |xs|
    ensures xs == [xs[0]] + xs[1..]
    ensures xs[..1] == [xs[0]]
    ensures xs[1..][..k - 1] == xs[1..k] && xs[1..][k - 1..] == xs[k..]
    ensures xs[..k] == [xs[0]] + xs[1..k]
  {
  }

  /** Every directory the pull loop creates, followed by `/`, is a prefix of the file's path. */
  lemma PullDirsArePrefixes(filename: string)
    ensures forall k :: 0 <= k < |PullDirPaths(filename)| ==>
      StartsWith("/local/" + filename, PullDirPaths(filename)[k] + "/")
  {
    forall k | 0 <= k < |PullDirPaths(filename)|
      ensures StartsWith("/local/" + filename, PullDirPaths(filename)[k] + "/")
    {
      PullDirIsPrefix(filename, k);
    }
  }

  /** Directory `k` of the pull loop, followed by `/`, is a prefix of the file's path. */
  lemma PullDirIsPrefix(filename: string, k: nat)
    requires k < |PullDirPaths(filename)|
    ensures StartsWith("/local/" + filename, PullDirPaths(filename)[k] + "/")
  {
    var parts := Split(filename, '/');
    var a := Join(parts[..k + 1], "/");
    var b := Join(parts[k + 1..], "/");
    JoinSplit(filename, '/');
    JoinSplitAt(parts, k + 1, "/");
    Regroup("/local/", a, "/", b);
    PrefixOfConcat("/local/" + a + "/", b);
  }

  lemma PrefixOfConcat(p: string, rest: string)
    ensures StartsWith(p + rest, p)
  {
    assert (p + rest)[..|p|] == p;
  }

  /** The names of the archive's file entries, in archive order. */
  function FileNames(entries: seq<Entry>): (names: seq<string>)
    ensures forall n :: n in names <==> exists e :: e in entries && !e.isDir && e.name == n
  {
    if entries == [] then []
    else
      var rest := FileNames(entries[1..]);
      assert forall e :: e in entries <==> e == entries[0] || e in entries[1..];
      if entries[0].isDir then rest else [entries[0].name] + rest
  }

  /** The names of two runs of entries are each run's names, in archive order. */
  lemma {:induction false} FileNamesAppend(a: seq<Entry>, b: seq<Entry>)
    ensures FileNames(a + b) == FileNames(a) + FileNames(b)
    decreases |a|
  {
    if a == [] {
      assert a + b == b;
    } else {
      HeadTail(a, b);
      FileNamesAppend(a[1..], b);
    }
  }

  /** A single entry contributes its name when it is a file, and nothing when it is a directory. */
  lemma FileNamesOne(e: Entry)
    ensures FileNames([e]) == (if e.isDir then [] else [e.name])
  {
    assert [e][1..] == [];
  }

  function MakeDirs(dirs: seq<string>): (effects: seq<Effect>)
    ensures |effects| == |dirs|
    ensures forall i :: 0 <= i < |dirs| ==> effects[i] == MakeDir(dirs[i])
  {
    if dirs == [] then [] else [MakeDir(dirs[0])] + MakeDirs(dirs[1..])
  }

  function Prefix(root: string, names: seq<string>): (paths: seq<string>)
    ensures |paths| == |names|
    ensures forall i :: 0 <= i < |names| ==> paths[i] == root + "/" + names[i]
  {
    if names == [] then [] else [root + "/" + names[0]] + Prefix(root, names[1..])
  }

  /** One file entry: its directories, then the write. */
  function WriteWithDirs(dirs: seq<string>, path: string): (effects: seq<Effect>)
    ensures Written(effects) == [path]
    ensures forall i :: 0 <= i < |effects| ==> effects[i].MakeDir? || effects[i].WriteFile?
  {
    WrittenAppend(MakeDirs(dirs), [WriteFile(path)]);
    NoWritesInMakeDirs(dirs);
    MakeDirs(dirs) + [WriteFile(path)]
  }

  /**
   * Extraction on the push paths: for each file entry, `ensureDir` of its
   * full path, then the write. Directory entries produce nothing. The files
   * written are exactly the file entries, in archive order, under `root`.
   */
  function PushExtraction(root: string, entries: seq<Entry>): (effects: seq<Effect>)
    ensures Written(effects) == Prefix(root, FileNames(entries))
    ensures forall i :: 0 <= i < |effects| ==> effects[i].MakeDir? || effects[i].WriteFile?
  {
    if entries == [] then []
    else
      var rest := PushExtraction(root, entries[1..]);
      if entries[0].isDir then rest
      else
        var path := root + "/" + entries[0].name;
        var here := WriteWithDirs(EnsureDirPaths(path), path);
        WrittenAppend(here, rest);
        here + rest
  }

  /** Extraction on the pull path: the directory loop under `/local`, then the write. */
  function PullExtraction(entries: seq<Entry>): (effects: seq<Effect>)
    ensures Written(effects) == Prefix("/local", FileNames(entries))
    ensures forall i :: 0 <= i < |effects| ==> effects[i].MakeDir? || effects[i].WriteFile?
  {
    if entries == [] then []
    else
      var rest := PullExtraction(entries[1..]);
      if entries[0].isDir then rest
      else
        var path := "/local" + "/" + entries[0].name;  // `/local/${filename}`
        var here := WriteWithDirs(PullDirPaths(entries[0].name), path);
        WrittenAppend(here, rest);
        here + rest
  }

  lemma NoWritesInMakeDirs(dirs: seq<string>)
    ensures Written(MakeDirs(dirs)) == []
  {
  }

  /** The file tree the pull extraction leaves under `/local`: name to content, later entries winning. */
  function LocalTree(entries: seq<Entry>): (tree: map<string, string>)
    ensures forall n :: n in tree <==> n in FileNames(entries)
  {
    if entries == [] then map[]
    else
      var last := entries[|entries| - 1];
      var t := LocalTree(entries[..|entries| - 1]);
      assert forall e :: e in entries <==> e == last || e in entries[..|entries| - 1];
      if last.isDir then t else t[last.name := last.content]
  }

  /** Archive entry names are keys of a JavaScript object, hence distinct. */
  predicate DistinctNames(entries: seq<Entry>) {
    forall i, j :: 0 <= i < j < |entries| ==> entries[i].name != entries[j].name
  }

  /** Extraction round trip: each file entry can be read back from the tree with its content. */
  lemma {:induction false} LocalTreeHoldsEntry(entries: seq<Entry>, i: nat)
    requires DistinctNames(entries)
    requires i < |entries| && !entries[i].isDir
    ensures entries[i].name in LocalTree(entries)
    ensures LocalTree(entries)[entries[i].name] == entries[i].content
  {
    var n := |entries|;
    if i < n - 1 {
      var init := entries[..n - 1];
      assert init[i] == entries[i];
      InitKeepsDistinct(entries);
      LocalTreeHoldsEntry(init, i);
      assert entries[i].name != entries[n - 1].name;
      LocalTreeKeeps(entries, entries[i].name);
    }
  }

  lemma InitKeepsDistinct(entries: seq<Entry>)
    requires DistinctNames(entries) && |entries| >= 1
    ensures DistinctNames(entries[..|entries| - 1])
  {
  }

  /** The last entry leaves every other name's content in the tree as it was. */
  lemma LocalTreeKeeps(entries: seq<Entry>, name: string)
    requires |entries| >= 1 && name != entries[|entries| - 1].name
    requires name in LocalTree(entries[..|entries| - 1])
    ensures name in LocalTree(entries)
    ensures LocalTree(entries)[name] == LocalTree(entries[..|entries| - 1])[name]
  {
  }
}
