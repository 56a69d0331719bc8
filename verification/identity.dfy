/**
 * Project identity: the project id derived from the editor's URL path, the
 * storage key under which a project's sync settings are kept, and the
 * "last modified" time read from each platform's project listing.
 */
module Identity {
  import opened Base
  import opened Text

  const UnknownProject := "unknown_project"
  const StoragePrefix := "git_config_"
  const LegacyStoragePrefix := "ol_git_"

  /** On Overleaf the id is the third `/`-separated component of the path (`/project/<id>/...`). */
  function OverleafProjectId(pathname: string): (id: string)
    ensures '/' !in id
    ensures |Split(pathname, '/')| <= 2 ==> id == UnknownProject
  {
    var parts := Split(pathname, '/');
    if |parts| > 2 then parts[2] else UnknownProject
  }

  /** For a path built from slash-free components, the id is exactly the third component. */
  lemma OverleafIdOfComponents(parts: seq<string>)
    requires |parts| > 2
    requires forall k :: 0 <= k < |parts| ==> '/' !in parts[k]
    ensures OverleafProjectId(Join(parts, "/")) == parts[2]
  {
    SplitJoin(parts, '/');
  }

  /** With fewer than three components there is no id. */
  lemma OverleafIdOfShortPath(parts: seq<string>)
    requires 1 <= |parts| <= 2
    requires forall k :: 0 <= k < |parts| ==> '/' !in parts[k]
    ensures OverleafProjectId(Join(parts, "/")) == UnknownProject
  {
    SplitJoin(parts, '/');
  }

  predicate IsHexOrDash(c: char) {
    ('0' <= c <= '9') || ('a' <= c <= 'f') || ('A' <= c <= 'F') || c == '-'
  }

  /** Thirty-six consecutive hex digits or dashes start at `i` (the shape of a UUID). */
  predicate HexRunAt(s: string, i: nat) {
    i + 36 <= |s| && forall k :: i <= k < i + 36 ==> IsHexOrDash(s[k])
  }

  /** The leftmost position at or after `from` where a 36-character hex/dash run starts. */
  function FindHexRun(s: string, from: nat): (r: Option<nat>)
    ensures r.Some? ==> from <= r.value && HexRunAt(s, r.value)
    ensures r.Some? ==> forall j :: from <= j < r.value ==> !HexRunAt(s, j)
    ensures r.None? ==> forall j :: from <= j ==> !HexRunAt(s, j)
    decreases |s| - from
  {
    if from + 36 > |s| then None
    else if HexRunAt(s, from) then Some(from)
    else FindHexRun(s, from + 1)
  }

  /** `s.replace(/^\/|\/$/g, '')`: one leading and one trailing slash removed. */
  function TrimSlashes(s: string): (r: string)
    ensures |s| >= 2 && s[0] == '/' && s[|s| - 1] == '/' ==> s == "/" + r + "/"
    ensures s != [] && s[0] == '/' && (|s| == 1 || s[|s| - 1] != '/') ==> s == "/" + r
    ensures s != [] && s[0] != '/' && s[|s| - 1] == '/' ==> s == r + "/"
    ensures (s == [] || (s[0] != '/' && s[|s| - 1] != '/')) ==> r == s
  {
    var t := if s != [] && s[0] == '/' then s[1..] else s;
    if t != [] && t[|t| - 1] == '/' then t[..|t| - 1] else t
  }

  /**
   * On TexPage the id is the first UUID-shaped run in the path; failing that,
   * the path with its outer slashes removed and inner slashes turned into `_`.
   */
  function TexPageProjectId(pathname: string): (id: string)
    ensures FindHexRun(pathname, 0).Some? ==>
      |id| == 36 && forall k :: 0 <= k < 36 ==> IsHexOrDash(id[k])
    ensures FindHexRun(pathname, 0).Some? ==> Contains(pathname, id)
    ensures FindHexRun(pathname, 0).Some? ==>
      var i := FindHexRun(pathname, 0).value; id == pathname[i..i + 36]
    ensures FindHexRun(pathname, 0).None? ==> '/' !in id
    ensures FindHexRun(pathname, 0).None? ==>
      var t := TrimSlashes(pathname);
      |id| == |t| && forall k :: 0 <= k < |t| ==> id[k] == (if t[k] == '/' then '_' else t[k])
  {
    match FindHexRun(pathname, 0)
    case Some(i) =>
      assert OccursAt(pathname, pathname[i..i + 36], i);
      pathname[i..i + 36]
    case None =>
      var r := ReplaceChar(TrimSlashes(pathname), '/', '_');
      assert forall k :: 0 <= k < |r| ==> r[k] != '/';
      r
  }

  /** The id is the first UUID-shaped run of the path, whichever later runs follow it. */
  lemma TexPageIdIsLeftmostRun(pathname: string, i: nat)
    requires HexRunAt(pathname, i)
    requires forall j :: 0 <= j < i ==> !HexRunAt(pathname, j)
    ensures TexPageProjectId(pathname) == pathname[i..i + 36]
  {
    var r := FindHexRun(pathname, 0);
    assert r.Some? by {
      assert HexRunAt(pathname, i);
    }
    assert r.value == i by {
      assert !(r.value < i) && !(i < r.value);
    }
  }

  /** A path without a UUID-shaped run, such as `/a/b/`, gives its inner text with `/` turned into `_`. */
  lemma TexPageIdOfPlainPath(a: string, b: string)
    requires a != [] && b != [] && '/' !in a && '/' !in b
    requires |a| < 36 && |b| < 36
    ensures TexPageProjectId("/" + a + "/" + b + "/") == a + "_" + b
  {
    var p := "/" + a + "/" + b + "/";
    forall j: nat
      ensures !HexRunAt(p, j)
    {
      var k := if j == 0 then 0 else if j <= 1 + |a| then 1 + |a| else |p| - 1;
      if j + 36 <= |p| {
        assert j <= k < j + 36 && p[k] == '/';
      }
    }
    assert TrimSlashes(p) == a + "/" + b;
    var id := TexPageProjectId(p);
    assert |id| == |a + "_" + b|;
    forall k | 0 <= k < |id|
      ensures id[k] == (a + "_" + b)[k]
    {
      if k < |a| {
        assert (a + "/" + b)[k] == a[k];
      } else if k > |a| {
        assert (a + "/" + b)[k] == b[k - |a| - 1];
      }
    }
  }

  /** The project id for the panel: Overleaf, TexPage, or `unknown_project` elsewhere. */
  function ProjectId(platform: string, pathname: string): (id: string)
    ensures platform != "overleaf" && platform != "texpage" ==> id == UnknownProject
    ensures platform == "overleaf" ==> '/' !in id
  {
    if platform == "overleaf" then OverleafProjectId(pathname)
    else if platform == "texpage" then TexPageProjectId(pathname)
    else UnknownProject
  }

  /** The storage key of a project's settings; distinct projects get distinct keys. */
  function StorageKey(projectId: string): (key: string)
    ensures StartsWith(key, StoragePrefix)
    ensures key[|StoragePrefix|..] == projectId
  {
    StoragePrefix + projectId
  }

  /**
   * The early panel's project id: `pathname.split('/')[2]`, which is
   * `undefined` when the path has fewer components and then prints as "undefined".
   */
  function LegacyProjectId(pathname: string): (id: string)
    ensures '/' !in id
    ensures |Split(pathname, '/')| <= 2 ==> id == "undefined"
  {
    var parts := Split(pathname, '/');
    if |parts| > 2 then parts[2] else "undefined"
  }

  function LegacyStorageKey(projectId: string): (key: string)
    ensures StartsWith(key, LegacyStoragePrefix)
    ensures key[|LegacyStoragePrefix|..] == projectId
  {
    LegacyStoragePrefix + projectId
  }

  /** A JavaScript time value: milliseconds since the epoch, or `NaN` from an unparseable date. */
  datatype Timestamp = Millis(ms: int) | NotANumber

  /** The source's `t > 0` test: false for `NaN` and for the "unknown" value 0. */
  predicate Positive(t: Timestamp) {
    t.Millis? && t.ms > 0
  }

  /** One entry of a platform's project listing: its id and its last-update date text. */
  datatype ListedProject = ListedProject(key: string, updated: string)

  /** The first listed project with the given id (`Array.prototype.find`). */
  function FindProject(projects: seq<ListedProject>, id: string): (r: Option<ListedProject>)
    ensures r.Some? ==> r.value in projects && r.value.key == id
    ensures r.None? ==> forall k :: 0 <= k < |projects| ==> projects[k].key != id
    ensures r.Some? ==> (exists i :: 0 <= i < |projects| && projects[i] == r.value
                          && forall j :: 0 <= j < i ==> projects[j].key != id)
  {
    if projects == [] then None
    else if projects[0].key == id then Some(projects[0])
    else
      var r := FindProject(projects[1..], id);
      if r.Some? then
        var i :| 0 <= i < |projects[1..]| && projects[1..][i] == r.value
          && forall j :: 0 <= j < i ==> projects[1..][j].key != id;
        assert projects[i + 1] == r.value;
        r
      else r
  }

  /**
   * Overleaf's last-modified time from the dashboard's project blob: the
   * parsed date of the first entry with this id, or 0 when the listing is
   * unavailable, the project is absent or its date is empty. An unparseable
   * date is passed on as `NaN`.
   */
  function OverleafLastUpdated(listing: Option<seq<ListedProject>>, id: string,
                               parseDate: string -> Timestamp): (t: Timestamp)
    ensures listing.None? ==> t == Millis(0)
    ensures listing.Some? && FindProject(listing.value, id).None? ==> t == Millis(0)
    ensures listing.Some? && FindProject(listing.value, id).Some? ==>
      var date := FindProject(listing.value, id).value.updated;
      t == (if date == "" then Millis(0) else parseDate(date))
    ensures t != Millis(0) ==> (listing.Some? && FindProject(listing.value, id).Some?
                                && FindProject(listing.value, id).value.updated != ""
                                && t == parseDate(FindProject(listing.value, id).value.updated))
  {
    if listing.None? then Millis(0)
    else match FindProject(listing.value, id)
      case Some(p) => if p.updated != "" then parseDate(p.updated) else Millis(0)
      case None => Millis(0)
  }

  /**
   * TexPage's last-modified time from its project-list API; the same lookup,
   * except that an unparseable date becomes 0 rather than `NaN`.
   */
  function TexPageLastUpdated(listing: Option<seq<ListedProject>>, id: string,
                              parseDate: string -> Timestamp): (t: Timestamp)
    ensures t.Millis?
    ensures listing.None? ==> t == Millis(0)
    ensures listing.Some? && FindProject(listing.value, id).None? ==> t == Millis(0)
    ensures listing.Some? && FindProject(listing.value, id).Some? ==>
      var date := FindProject(listing.value, id).value.updated;
      t == (if date == "" || parseDate(date).NotANumber? then Millis(0) else parseDate(date))
    ensures t != Millis(0) ==> (listing.Some? && FindProject(listing.value, id).Some?
                                && FindProject(listing.value, id).value.updated != ""
                                && t == parseDate(FindProject(listing.value, id).value.updated))
  {
    if listing.None? then Millis(0)
    else match FindProject(listing.value, id)
      case Some(p) =>
        if p.updated == "" then Millis(0)
        else if parseDate(p.updated).NotANumber? then Millis(0)
        else parseDate(p.updated)
      case None => Millis(0)
  }

  /**
   * The dashboard lookup reads the date of the first listed entry with the
   * project's id: later entries with the same id are never consulted.
   */
  lemma OverleafTimeOfFirstEntry(before: seq<ListedProject>, p: ListedProject, after: seq<ListedProject>,
                                 parseDate: string -> Timestamp)
    requires forall k :: 0 <= k < |before| ==> before[k].key != p.key
    requires p.updated != ""
    ensures OverleafLastUpdated(Some(before + [p] + after), p.key, parseDate) == parseDate(p.updated)
    ensures TexPageLastUpdated(Some(before + [p] + after), p.key, parseDate)
         == (if parseDate(p.updated).NotANumber? then Millis(0) else parseDate(p.updated))
  {
    FirstEntryFound(before, p, after);
  }

  /** `find` on a listing returns the first entry carrying the id. */
  lemma {:induction false} FirstEntryFound(before: seq<ListedProject>, p: ListedProject, after: seq<ListedProject>)
    requires forall k :: 0 <= k < |before| ==> before[k].key != p.key
    ensures FindProject(before + [p] + after, p.key) == Some(p)
  {
    if before != [] {
      assert (before + [p] + after)[1..] == before[1..] + [p] + after;
      FirstEntryFound(before[1..], p, after);
    }
  }

  /** Whatever either lookup returns, a time that is not positive reads as "unknown" downstream. */
  lemma LookupsAgreeOnKnownTimes(listing: Option<seq<ListedProject>>, id: string,
                                 parseDate: string -> Timestamp)
    ensures Positive(OverleafLastUpdated(listing, id, parseDate))
        <==> Positive(TexPageLastUpdated(listing, id, parseDate))
    ensures Positive(TexPageLastUpdated(listing, id, parseDate)) ==>
      TexPageLastUpdated(listing, id, parseDate) == OverleafLastUpdated(listing, id, parseDate)
  {
  }
}
