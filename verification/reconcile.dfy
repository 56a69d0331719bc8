/**
 * The pull's comparison of the repository checkout (`/remote`) with the
 * editor's snapshot (`/local`): which files are compared, how each
 * difference is classified, and which patch is shown for it.
 *
 * A file read is `None` when it throws (the file is absent) and its text
 * otherwise. The patch generator (`createTwoFilesPatch`) is an oracle.
 */
module Reconcile {
  import opened Base
  import opened Text

  /** The extensions compared, matched without regard to ASCII case at the end of the path. */
  const TrackedExtensions: seq<string> := [".tex", ".bib", ".txt", ".cls", ".sty", ".md"]

  predicate Tracked(path: string) {
    exists k :: 0 <= k < |TrackedExtensions| && EndsWith(Lower(path), TrackedExtensions[k])
  }

  datatype ChangeStatus = New | Mod | Del

  /** One reported difference: the path, its classification, and the patch from local to remote. */
  datatype Change = Change(file: string, status: ChangeStatus, diff: string)

  /** `createTwoFilesPatch(oldName, newName, oldText, newText)`. */
  type PatchFn = (string, string, string, string) -> string

  /** Reading a file of a tree; `None` is the `null` left by a failed read. */
  function Read(tree: map<string, string>, path: string): (r: Option<string>)
    ensures r.Some? <==> path in tree
    ensures r.Some? ==> r.value == tree[path]
  {
    if path in tree then Some(tree[path]) else None
  }

  /** JavaScript truthiness of a read: `null` and the empty string are both false. */
  predicate Truthy(r: Option<string>) {
    r.Some? && r.value != ""
  }

  /** `x || ''`. */
  function TextOr(r: Option<string>): (t: string)
    ensures Truthy(r) ==> t == r.value
    ensures !Truthy(r) ==> t == ""
  {
    if r.Some? then r.value else ""
  }

  /** No usable local text: new; else no usable remote text: deleted; else modified. */
  function StatusOf(remote: Option<string>, local: Option<string>): (s: ChangeStatus)
    ensures s == New <==> !Truthy(local)
    ensures s == Del <==> Truthy(local) && !Truthy(remote)
    ensures s == Mod <==> Truthy(local) && Truthy(remote)
  {
    if !Truthy(local) then New else if !Truthy(remote) then Del else Mod
  }

  /** The report entry for one compared file, when the two reads differ (strict `!==`). */
  function Compare(file: string, remote: map<string, string>, local: map<string, string>, patch: PatchFn): (c: Option<Change>)
    ensures c.Some? <==> Tracked(file) && Read(remote, file) != Read(local, file)
    ensures c.Some? ==> c.value.file == file
    ensures c.Some? ==> c.value.status == StatusOf(Read(remote, file), Read(local, file))
    ensures c.Some? ==> c.value.diff == patch(file, file, TextOr(Read(local, file)), TextOr(Read(remote, file)))
  {
    if !Tracked(file) then None
    else
      var rC := Read(remote, file);
      var lC := Read(local, file);
      if rC != lC then Some(Change(file, StatusOf(rC, lC), patch(file, file, TextOr(lC), TextOr(rC))))
      else None
  }

  /**
   * The change list for the files of the checkout, in listing order: one
   * entry per tracked file whose remote and local reads differ.
   */
  function Classify(files: seq<string>, remote: map<string, string>, local: map<string, string>,
                    patch: PatchFn): (changes: seq<Change>)
    ensures |changes| <= |files|
    ensures forall i :: 0 <= i < |changes| ==> changes[i].file in files
    ensures forall i :: 0 <= i < |changes| ==> Compare(changes[i].file, remote, local, patch) == Some(changes[i])
    ensures forall f :: f in files && Compare(f, remote, local, patch).Some? ==> Compare(f, remote, local, patch).value in changes
  {
    if files == [] then []
    else
      var rest := Classify(files[1..], remote, local, patch);
      match Compare(files[0], remote, local, patch)
      case None => rest
      case Some(c) => [c] + rest
  }

  /** Classifying one file reports it alone, or nothing. */
  lemma ClassifyOne(file: string, remote: map<string, string>, local: map<string, string>, patch: PatchFn)
    ensures Classify([file], remote, local, patch)
         == (if Compare(file, remote, local, patch).Some? then [Compare(file, remote, local, patch).value] else [])
  {
    ClassifyCons(file, [], remote, local, patch);
  }

  /** The first listed file's entry, if any, comes before those of the rest. */
  lemma ClassifyCons(file: string, rest: seq<string>, remote: map<string, string>, local: map<string, string>, patch: PatchFn)
    ensures Classify([file] + rest, remote, local, patch)
         == (if Compare(file, remote, local, patch).Some? then [Compare(file, remote, local, patch).value] else [])
            + Classify(rest, remote, local, patch)
  {
    assert ([file] + rest)[0] == file && ([file] + rest)[1..] == rest;
  }

  /**
   * The report keeps the listing order: the changes of a listing split in
   * two are those of the first part followed by those of the second.
   */
  lemma {:induction false} ClassifyAppend(a: seq<string>, b: seq<string>, remote: map<string, string>,
                                          local: map<string, string>, patch: PatchFn)
    ensures Classify(a + b, remote, local, patch) == Classify(a, remote, local, patch) + Classify(b, remote, local, patch)
    decreases |a|
  {
    if a == [] {
      assert a + b == b;
    } else {
      var head := if Compare(a[0], remote, local, patch).Some? then [Compare(a[0], remote, local, patch).value] else [];
      HeadTail(a, b);
      ClassifyCons(a[0], a[1..] + b, remote, local, patch);
      ClassifyCons(a[0], a[1..], remote, local, patch);
      ClassifyAppend(a[1..], b, remote, local, patch);
      ConcatAssoc(head, Classify(a[1..], remote, local, patch), Classify(b, remote, local, patch));
    }
  }

  /** A file is reported exactly when it is a tracked file of the checkout whose two reads differ. */
  lemma ReportedIffDifferent(files: seq<string>, remote: map<string, string>, local: map<string, string>,
                             patch: PatchFn, f: string)
    ensures (exists c :: c in Classify(files, remote, local, patch) && c.file == f)
        <==> f in files && Tracked(f) && Read(remote, f) != Read(local, f)
  {
    var changes := Classify(files, remote, local, patch);
    if f in files && Tracked(f) && Read(remote, f) != Read(local, f) {
      assert Compare(f, remote, local, patch).value in changes;
    }
    if c :| c in changes && c.file == f {
      var i :| 0 <= i < |changes| && changes[i] == c;
      assert Compare(f, remote, local, patch) == Some(c);
    }
  }

  /** When both trees agree on every tracked file, nothing is reported. */
  lemma {:induction false} AgreeingTreesReportNothing(files: seq<string>, remote: map<string, string>,
                                                     local: map<string, string>, patch: PatchFn)
    requires forall f :: f in files && Tracked(f) ==> Read(remote, f) == Read(local, f)
    ensures Classify(files, remote, local, patch) == []
  {
    if files != [] {
      AgreeingTreesReportNothing(files[1..], remote, local, patch);
    }
  }

  /** Line endings are compared as they are: a file differing only in CR LF versus LF is modified. */
  lemma LineEndingsAreNotNormalised(file: string, patch: PatchFn)
    requires Tracked(file)
    ensures Classify([file], map[file := "x\r\n"], map[file := "x\n"], patch)
         == [Change(file, Mod, patch(file, file, "x\n", "x\r\n"))]
  {
    var c := Compare(file, map[file := "x\r\n"], map[file := "x\n"], patch);
    assert "x\r\n" != "x\n" by { assert |"x\r\n"| != |"x\n"|; }
    assert c == Some(Change(file, Mod, patch(file, file, "x\n", "x\r\n")));
  }

  /**
   * "Deleted on remote" means the repository's copy is empty or unreadable
   * while the editor's is not: a file still listed in the checkout but
   * emptied there is reported as deleted.
   */
  lemma EmptiedRemoteFileIsDeleted(file: string, text: string, patch: PatchFn)
    requires Tracked(file) && text != ""
    ensures Classify([file], map[file := ""], map[file := text], patch)
         == [Change(file, Del, patch(file, file, text, ""))]
  {
    var c := Compare(file, map[file := ""], map[file := text], patch);
    assert c == Some(Change(file, Del, patch(file, file, text, "")));
  }

  /**
   * An empty file in the checkout that the editor does not have is still
   * reported, as new, with both sides of the patch empty: strict inequality
   * tells `""` from `null`, truthiness does not.
   */
  lemma EmptyNewFileIsReported(file: string, patch: PatchFn)
    requires Tracked(file)
    ensures Classify([file], map[file := ""], map[], patch) == [Change(file, New, patch(file, file, "", ""))]
  {
    var c := Compare(file, map[file := ""], map[], patch);
    assert c == Some(Change(file, New, patch(file, file, "", "")));
  }

  /** A file that only the editor has is never reported: the comparison walks the checkout's files. */
  lemma EditorOnlyFilesAreNotReported(files: seq<string>, remote: map<string, string>,
                                      local: map<string, string>, patch: PatchFn, f: string)
    requires f !in files
    ensures forall i :: 0 <= i < |Classify(files, remote, local, patch)| ==>
      Classify(files, remote, local, patch)[i].file != f
  {
  }
}
