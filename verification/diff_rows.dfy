/**
 * The patch formatter of the review window: a unified diff as produced by
 * `createTwoFilesPatch`, split into lines and turned into table rows with
 * old and new line numbers. HTML markup, styling and escaping are not
 * modelled; a row carries its kind, its two number cells and its text.
 */
module DiffRows {
  import opened Base
  import opened Text

  // ---------------------------------------------------------------------
  // The hunk header `@@ -15,7 +15,7 @@`
  // ---------------------------------------------------------------------

  /** The length of the run of decimal digits in `s` from position `i`. */
  function DigitRun(s: string, i: nat): (n: nat)
    requires i <= |s|
    ensures i + n <= |s|
    decreases |s| - i
  {
    if i < |s| && IsDigit(s[i]) then 1 + DigitRun(s, i + 1) else 0
  }

  /** The length of an optional `,` and digits group at position `i` of `s`, taken greedily; 0 when there is none. */
  function CountGroup(s: string, i: nat): (n: nat)
    requires i <= |s|
    ensures i + n <= |s|
  {
    if i < |s| && s[i] == ',' && DigitRun(s, i + 1) > 0 then 1 + DigitRun(s, i + 1) else 0
  }

  /**
   * One `(\d+)(?:,\d+)?` group at position `i` of `s`: the length of the
   * captured digits and the length of the whole group. The run of digits is
   * taken whole: a shorter run would be followed by a digit where the
   * pattern needs `,` or a space.
   */
  function NumberGroup(s: string, i: nat): (r: Option<(nat, nat)>)
    requires i <= |s|
    ensures r.Some? ==> 0 < r.value.0 <= r.value.1 && i + r.value.1 <= |s|
  {
    var d := DigitRun(s, i);
    if d == 0 then None
    else Some((d, d + CountGroup(s, i + d)))
  }

  /** The literal `@@ -` at position `j`. */
  predicate OpenAt(s: string, j: nat) {
    j + 4 <= |s| && s[j] == '@' && s[j + 1] == '@' && s[j + 2] == ' ' && s[j + 3] == '-'
  }

  /** The literal ` +` at position `j`. */
  predicate PlusAt(s: string, j: nat) {
    j + 2 <= |s| && s[j] == ' ' && s[j + 1] == '+'
  }

  /** The literal ` @@` at position `j`. */
  predicate CloseAt(s: string, j: nat) {
    j + 3 <= |s| && s[j] == ' ' && s[j + 1] == '@' && s[j + 2] == '@'
  }

  /**
   * The hunk-header pattern `@@ -(\d+)(?:,\d+)? \+(\d+)(?:,\d+)? @@` tried at
   * position `j` of `s`, giving the two captured digit strings. At a fixed
   * start the pattern has at most one match: besides the whole digit runs,
   * leaving out a present `,digits` group leaves a `,` where a space is
   * needed.
   */
  function HeaderAt(s: string, j: nat): (r: Option<(string, string)>)
    requires j <= |s|
  {
    if !OpenAt(s, j) then None
    else
      match NumberGroup(s, j + 4)
      case None => None
      case Some((d, len)) =>
        var p := j + 4 + len;
        if !PlusAt(s, p) then None
        else
          match NumberGroup(s, p + 2)
          case None => None
          case Some((d', len')) =>
            if CloseAt(s, p + 2 + len') then Some((s[j + 4..j + 4 + d], s[p + 2..p + 2 + d'])) else None
  }

  /** The pattern matches at position `j` of `s`. */
  predicate MatchesAt(s: string, j: nat)
    requires j <= |s|
  {
    HeaderAt(s, j).Some?
  }

  /** The leftmost position at or after `from` where the pattern matches: `String.prototype.match` without the global flag. */
  function FindHeader(s: string, from: nat): (r: Option<nat>)
    requires from <= |s|
    ensures r.Some? ==> from <= r.value <= |s|
    decreases |s| - from
  {
    if MatchesAt(s, from) then Some(from)
    else if from == |s| then None
    else FindHeader(s, from + 1)
  }

  /** The search finds a match exactly when there is one, and then the leftmost. */
  lemma FindHeaderIsLeftmost(s: string, from: nat)
    requires from <= |s|
    ensures FindHeader(s, from).Some? ==> MatchesAt(s, FindHeader(s, from).value)
    ensures FindHeader(s, from).Some? ==> forall j :: from <= j < FindHeader(s, from).value ==> !MatchesAt(s, j)
    ensures FindHeader(s, from).None? ==> forall j :: from <= j <= |s| ==> !MatchesAt(s, j)
  {
    FindHeaderMatches(s, from);
    FindHeaderSkipsNone(s, from);
  }

  /** A found position is a match. */
  lemma {:induction false} FindHeaderMatches(s: string, from: nat)
    requires from <= |s|
    ensures FindHeader(s, from).Some? ==> MatchesAt(s, FindHeader(s, from).value)
    decreases |s| - from
  {
    if !MatchesAt(s, from) && from < |s| {
      FindHeaderMatches(s, from + 1);
    }
  }

  /** No position skipped by the search is a match. */
  lemma {:induction false} FindHeaderSkipsNone(s: string, from: nat)
    requires from <= |s|
    ensures forall j :: from <= j <= |s| && (FindHeader(s, from).None? || j < FindHeader(s, from).value) ==> !MatchesAt(s, j)
    decreases |s| - from
  {
    if !MatchesAt(s, from) && from < |s| {
      FindHeaderSkipsNone(s, from + 1);
    }
  }


  /** The old and new start lines a hunk-header line sets, when the pattern matches it: `parseInt` of the two captures. */
  function HunkStart(line: string): Option<(nat, nat)> {
    match FindHeader(line, 0)
    case Some(i) =>
      (match HeaderAt(line, i)
       case Some((a, b)) => Some((DecimalValue(a), DecimalValue(b)))
       case None => None)
    case None => None
  }

  /** The captured starts are those of the leftmost match; without a match there are none. */
  lemma HunkStartIsLeftmost(line: string)
    ensures HunkStart(line).Some? <==> exists j :: 0 <= j <= |line| && MatchesAt(line, j)
    ensures HunkStart(line).Some? ==>
      exists j :: (0 <= j <= |line| && MatchesAt(line, j)
                   && HunkStart(line) == Some((DecimalValue(HeaderAt(line, j).value.0), DecimalValue(HeaderAt(line, j).value.1)))
                   && forall k :: 0 <= k < j ==> !MatchesAt(line, k))
  {
    FindHeaderIsLeftmost(line, 0);
  }

  /** An optional line count as the diff library prints it. */
  function CountText(count: Option<nat>): (t: string)
    ensures count.None? ==> t == ""
    ensures count.Some? ==> t == "," + NatToString(count.value)
  {
    match count
    case None => ""
    case Some(k) => "," + NatToString(k)
  }

  /** A start line and optional count as the diff library prints them: `15,7` or `15`. */
  function HunkRange(start: nat, count: Option<nat>): string {
    NatToString(start) + CountText(count)
  }

  /** A hunk header with the given starts and optional counts. */
  function HunkHeader(oldStart: nat, oldCount: Option<nat>, newStart: nat, newCount: Option<nat>): string {
    "@@ -" + (HunkRange(oldStart, oldCount) + (" +" + (HunkRange(newStart, newCount) + " @@")))
  }

  /** A run of `n` digits at position `i`, followed by the end or a non-digit, is read whole. */
  lemma {:induction false} DigitRunOf(s: string, i: nat, n: nat)
    requires i + n <= |s|
    requires forall k :: i <= k < i + n ==> IsDigit(s[k])
    requires i + n == |s| || !IsDigit(s[i + n])
    ensures DigitRun(s, i) == n
    decreases n
  {
    if n > 0 {
      DigitRunOf(s, i + 1, n - 1);
    }
  }

  /** The run is maximal: digits up to its end, and the end of the string or a non-digit after it. */
  lemma {:induction false} DigitRunIsMaximal(s: string, i: nat)
    requires i <= |s|
    ensures forall k :: i <= k < i + DigitRun(s, i) ==> IsDigit(s[k])
    ensures i + DigitRun(s, i) == |s| || !IsDigit(s[i + DigitRun(s, i)])
    decreases |s| - i
  {
    if i < |s| && IsDigit(s[i]) {
      DigitRunIsMaximal(s, i + 1);
    }
  }

  /**
   * The shape of a printed range: `n` leading digits, then nothing or a
   * comma and at least one more digit.
   */
  predicate RangeShape(r: string, n: nat) {
    && 0 < n <= |r|
    && (forall k :: 0 <= k < n ==> IsDigit(r[k]))
    && (n == |r| || (n + 1 < |r| && r[n] == ',' && forall k :: n < k < |r| ==> IsDigit(r[k])))
  }

  /** A printed count: empty, or a comma and at least one digit. */
  predicate CountShape(c: string) {
    |c| == 0 || (|c| >= 2 && c[0] == ',' && forall k :: 1 <= k < |c| ==> IsDigit(c[k]))
  }

  /** Leading digits followed by a count have the range shape. */
  lemma RangeShapeOfParts(d: string, c: string)
    requires |d| > 0 && (forall k :: 0 <= k < |d| ==> IsDigit(d[k])) && CountShape(c)
    ensures RangeShape(d + c, |d|) && (d + c)[..|d|] == d
  {
  }

  /** A printed count has the count shape. */
  lemma CountTextShape(count: Option<nat>)
    ensures CountShape(CountText(count))
  {
    if count.Some? {
      var c := CountText(count);
      var e := NatToString(count.value);
      assert forall k :: 1 <= k < |c| ==> c[k] == e[k - 1];
    }
  }

  /** A printed range has that shape, its leading digits being the start's. */
  lemma RangeShapeOfPrinted(start: nat, count: Option<nat>)
    ensures RangeShape(HunkRange(start, count), |NatToString(start)|)
    ensures HunkRange(start, count)[..|NatToString(start)|] == NatToString(start)
  {
    CountTextShape(count);
    RangeShapeOfParts(NatToString(start), CountText(count));
  }

  /** A range of that shape, copied into `s` at position `i` and followed by a space, is read as one group. */
  lemma NumberGroupOfShape(s: string, i: nat, r: string, n: nat)
    requires RangeShape(r, n)
    requires i + |r| < |s|
    requires forall k :: 0 <= k < |r| ==> s[i + k] == r[k]
    requires s[i + |r|] == ' '
    ensures NumberGroup(s, i) == Some((n, |r|))
    ensures s[i..i + n] == r[..n]
  {
    assert forall k :: i <= k < i + n ==> IsDigit(s[k]) by {
      forall k | i <= k < i + n
        ensures IsDigit(s[k])
      {
        assert s[k] == r[k - i];
      }
    }
    assert s[i + n] == ' ' || s[i + n] == r[n];
    DigitRunOf(s, i, n);
    if n < |r| {
      assert forall k :: i + n + 1 <= k < i + |r| ==> IsDigit(s[k]) by {
        forall k | i + n + 1 <= k < i + |r|
          ensures IsDigit(s[k])
        {
          assert s[k] == r[k - i];
        }
      }
      DigitRunOf(s, i + n + 1, |r| - n - 1);
    }
    assert forall k :: 0 <= k < n ==> s[i..i + n][k] == r[..n][k];
  }

  /** A string laid out as a hunk header with the two printed ranges `a` and `b`. */
  predicate HeaderLayout(h: string, a: string, b: string) {
    && |h| == 9 + |a| + |b|
    && OpenAt(h, 0)
    && (forall k :: 0 <= k < |a| ==> h[4 + k] == a[k])
    && PlusAt(h, 4 + |a|)
    && (forall k :: 0 <= k < |b| ==> h[6 + |a| + k] == b[k])
    && CloseAt(h, 6 + |a| + |b|)
  }

  /** Where the literals and the two ranges sit in `@@ -a +b @@`. */
  lemma LayoutOf(a: string, b: string)
    ensures HeaderLayout("@@ -" + (a + (" +" + (b + " @@"))), a, b)
  {
  }

  /** Where the parts of a printed hunk header sit. */
  lemma HunkHeaderLayout(oldStart: nat, oldCount: Option<nat>, newStart: nat, newCount: Option<nat>)
    ensures HeaderLayout(HunkHeader(oldStart, oldCount, newStart, newCount), HunkRange(oldStart, oldCount), HunkRange(newStart, newCount))
  {
    LayoutOf(HunkRange(oldStart, oldCount), HunkRange(newStart, newCount));
  }

  /** The pattern at position 0 of `s`, given where its literals sit and how its two groups read. */
  lemma HeaderAtOfGroups(s: string, x: string, y: string, la: nat, lb: nat)
    requires OpenAt(s, 0) && PlusAt(s, 4 + la) && CloseAt(s, 6 + la + lb)
    requires NumberGroup(s, 4) == Some((|x|, la)) && NumberGroup(s, 6 + la) == Some((|y|, lb))
    requires s[4..4 + |x|] == x && s[6 + la..6 + la + |y|] == y
    ensures HeaderAt(s, 0) == Some((x, y))
  {
  }

  /** A string laid out as a hunk header over two ranges of range shape reads back their leading digits. */
  lemma HeaderAtOfLayout(h: string, a: string, na: nat, b: string, nb: nat)
    requires HeaderLayout(h, a, b) && RangeShape(a, na) && RangeShape(b, nb)
    ensures HeaderAt(h, 0) == Some((a[..na], b[..nb]))
  {
    NumberGroupOfShape(h, 4, a, na);
    NumberGroupOfShape(h, 6 + |a|, b, nb);
    HeaderAtOfGroups(h, a[..na], b[..nb], |a|, |b|);
  }

  /** The pattern matches a printed hunk header at its start, capturing the two start numbers' digits. */
  lemma HeaderAtOfPrinted(oldStart: nat, oldCount: Option<nat>, newStart: nat, newCount: Option<nat>)
    ensures HeaderAt(HunkHeader(oldStart, oldCount, newStart, newCount), 0) == Some((NatToString(oldStart), NatToString(newStart)))
  {
    HunkHeaderLayout(oldStart, oldCount, newStart, newCount);
    RangeShapeOfPrinted(oldStart, oldCount);
    RangeShapeOfPrinted(newStart, newCount);
    HeaderAtOfLayout(HunkHeader(oldStart, oldCount, newStart, newCount),
      HunkRange(oldStart, oldCount), |NatToString(oldStart)|, HunkRange(newStart, newCount), |NatToString(newStart)|);
  }

  /** A printed hunk header is recognised, at its start, with its two start numbers. */
  lemma HeaderRoundTrip(oldStart: nat, oldCount: Option<nat>, newStart: nat, newCount: Option<nat>)
    ensures HunkStart(HunkHeader(oldStart, oldCount, newStart, newCount)) == Some((oldStart, newStart))
  {
    var h := HunkHeader(oldStart, oldCount, newStart, newCount);
    HeaderAtOfPrinted(oldStart, oldCount, newStart, newCount);
    assert FindHeader(h, 0) == Some(0);
    DecimalValueOfNatToString(oldStart);
    DecimalValueOfNatToString(newStart);
  }

  // ---------------------------------------------------------------------
  // Rows
  // ---------------------------------------------------------------------

  /** What a content row shows: an added, removed or unchanged line, or an unrecognised one. */
  datatype LineKind = Added | Removed | Context | Plain

  /**
   * One table row: the hunk-header separator, a content line with its old
   * and new number cells (`None` is an empty cell), or an italic note such
   * as `\ No newline at end of file`.
   */
  datatype Row =
    | Separator(text: string)
    | Line(kind: LineKind, oldNum: Option<nat>, newNum: Option<nat>, content: string)
    | Note(text: string)

  /** The old and new line counters the formatter keeps while walking the lines. */
  datatype Counters = Counters(oldLine: nat, newLine: nat)

  /** The lines the formatter treats as file headers. */
  predicate IsFileHeader(line: string) {
    StartsWith(line, "Index:") || StartsWith(line, "================")
    || StartsWith(line, "---") || StartsWith(line, "+++")
  }

  /** A line whose first character differs from the prefix's does not start with it. */
  lemma FirstCharDiffers(line: string, prefix: string)
    requires line != [] && prefix != [] && line[0] != prefix[0]
    ensures !StartsWith(line, prefix)
  {
    assert |prefix| <= |line| ==> line[..|prefix|][0] != prefix[0];
  }

  /** A line that starts with none of the header characters is not a file header. */
  lemma NotFileHeader(line: string)
    requires line != [] && line[0] != 'I' && line[0] != '=' && line[0] != '-' && line[0] != '+'
    ensures !IsFileHeader(line)
  {
    FirstCharDiffers(line, "Index:");
    FirstCharDiffers(line, "================");
    FirstCharDiffers(line, "---");
    FirstCharDiffers(line, "+++");
  }

  /** A line that starts with the character `c`. */
  predicate Leads(line: string, c: char) {
    line != [] && line[0] == c
  }

  /**
   * The row a non-header, non-`@@` line produces: the number cells show the
   * counters before they advance; an empty line produces none.
   */
  function BodyRow(line: string, c: Counters): (r: Option<Row>)
    ensures r.None? <==> line == []
    ensures r.Some? && r.value.Line? ==> r.value.content == line[1..]
    ensures Leads(line, '\\') ==> r == Some(Note(line))
    ensures BodyLine(line) ==> r.Some? && Shows(r.value, line)
    ensures line != [] && !BodyLine(line) ==> r == Some(Line(Plain, None, None, line[1..]))
    ensures r.Some? && r.value.Line? && r.value.oldNum.Some? ==> r.value.oldNum.value == c.oldLine
    ensures r.Some? && r.value.Line? && r.value.newNum.Some? ==> r.value.newNum.value == c.newLine
  {
    if Leads(line, '+') then Some(Line(Added, None, Some(c.newLine), line[1..]))
    else if Leads(line, '-') then Some(Line(Removed, Some(c.oldLine), None, line[1..]))
    else if Leads(line, ' ') then Some(Line(Context, Some(c.oldLine), Some(c.newLine), line[1..]))
    else if line == [] then None
    else if Leads(line, '\\') then Some(Note(line))
    else Some(Line(Plain, None, None, line[1..]))
  }

  /** The counters after a body line: the old side advances on removed and unchanged lines, the new side on added and unchanged ones. */
  function Advance(line: string, c: Counters): (r: Counters)
    ensures r.oldLine == c.oldLine + (if Leads(line, '-') || Leads(line, ' ') then 1 else 0)
    ensures r.newLine == c.newLine + (if Leads(line, '+') || Leads(line, ' ') then 1 else 0)
  {
    if Leads(line, '+') then Counters(c.oldLine, c.newLine + 1)
    else if Leads(line, '-') then Counters(c.oldLine + 1, c.newLine)
    else if Leads(line, ' ') then Counters(c.oldLine + 1, c.newLine + 1)
    else c
  }

  function RowsOf(r: Option<Row>): seq<Row> {
    match r
    case None => []
    case Some(row) => [row]
  }

  /**
   * The walk over the diff's lines. `inHunk` records that an `@@` line has
   * been seen. As written, a file-header line is dropped wherever it
   * appears (`corrected == false`); the corrected walk drops file headers
   * only before the first hunk.
   */
  function FormatLines(lines: seq<string>, c: Counters, inHunk: bool, corrected: bool): (rows: seq<Row>)
    ensures |rows| <= |lines|
    decreases |lines|
  {
    if lines == [] then []
    else
      var line := lines[0];
      if IsFileHeader(line) && !(corrected && inHunk) then
        FormatLines(lines[1..], c, inHunk, corrected)
      else if StartsWith(line, "@@") then
        var next := match HunkStart(line)
          case Some((o, n)) => Counters(o, n)
          case None => c;
        [Separator(line)] + FormatLines(lines[1..], next, true, corrected)
      else
        RowsOf(BodyRow(line, c)) + FormatLines(lines[1..], Advance(line, c), inHunk, corrected)
  }

  /** `formatDiffWithLineNumbers` as written: no table for an empty patch text. */
  function Format(text: string): (r: Option<seq<Row>>)
    ensures r.None? <==> text == ""
  {
    if text == "" then None else Some(FormatLines(Split(text, '\n'), Counters(0, 0), false, false))
  }

  /** The formatter with file headers dropped only before the first hunk. */
  function FormatCorrected(text: string): (r: Option<seq<Row>>)
    ensures r.None? <==> text == ""
  {
    if text == "" then None else Some(FormatLines(Split(text, '\n'), Counters(0, 0), false, true))
  }

  // ---------------------------------------------------------------------
  // What the rows of a hunk show
  // ---------------------------------------------------------------------

  /** A line of a hunk's body as the diff library prints it: added, removed, unchanged, or a `\\` note. */
  predicate BodyLine(line: string) {
    Leads(line, '+') || Leads(line, '-') || Leads(line, ' ') || Leads(line, '\\')
  }

  /** The number of body lines on the old side (removed or unchanged). */
  function OldSide(body: seq<string>): nat {
    if body == [] then 0
    else (if Leads(body[0], '-') || Leads(body[0], ' ') then 1 else 0) + OldSide(body[1..])
  }

  /** The number of body lines on the new side (added or unchanged). */
  function NewSide(body: seq<string>): nat {
    if body == [] then 0
    else (if Leads(body[0], '+') || Leads(body[0], ' ') then 1 else 0) + NewSide(body[1..])
  }

  /** The filled old-number cells of `rows`, top to bottom. */
  function OldNumbers(rows: seq<Row>): seq<nat> {
    if rows == [] then []
    else (if rows[0].Line? && rows[0].oldNum.Some? then [rows[0].oldNum.value] else []) + OldNumbers(rows[1..])
  }

  /** The filled new-number cells of `rows`, top to bottom. */
  function NewNumbers(rows: seq<Row>): seq<nat> {
    if rows == [] then []
    else (if rows[0].Line? && rows[0].newNum.Some? then [rows[0].newNum.value] else []) + NewNumbers(rows[1..])
  }

  /** The `k` consecutive numbers from `a`. */
  function Range(a: nat, k: nat): (r: seq<nat>)
    ensures |r| == k && forall i :: 0 <= i < k ==> r[i] == a + i
    decreases k
  {
    if k == 0 then [] else [a] + Range(a + 1, k - 1)
  }

  /** The row shows the body line: its kind, which number cells are filled, and its text without the marker. */
  predicate Shows(row: Row, line: string) {
    && (Leads(line, '+') ==>
          row.Line? && row.kind == Added && row.oldNum.None? && row.newNum.Some? && row.content == line[1..])
    && (Leads(line, '-') ==>
          row.Line? && row.kind == Removed && row.oldNum.Some? && row.newNum.None? && row.content == line[1..])
    && (Leads(line, ' ') ==>
          row.Line? && row.kind == Context && row.oldNum.Some? && row.newNum.Some? && row.content == line[1..])
    && (Leads(line, '\\') ==> row == Note(line))
  }

  /** Inside a hunk, the corrected walk turns a body line into its row and carries on with the advanced counters. */
  lemma BodyStep(body: seq<string>, c: Counters)
    requires |body| > 0 && BodyLine(body[0])
    ensures BodyRow(body[0], c).Some?
    ensures FormatLines(body, c, true, true)
         == [BodyRow(body[0], c).value] + FormatLines(body[1..], Advance(body[0], c), true, true)
  {
    assert !StartsWith(body[0], "@@") by { FirstCharDiffers(body[0], "@@"); }
  }

  /** The rest of a hunk body is a hunk body. */
  lemma BodyTail(body: seq<string>)
    requires |body| > 0 && forall i :: 0 <= i < |body| ==> BodyLine(body[i])
    ensures forall i :: 0 <= i < |body[1..]| ==> BodyLine(body[1..][i])
  {
    forall i | 0 <= i < |body[1..]|
      ensures BodyLine(body[1..][i])
    {
      assert body[1..][i] == body[i + 1];
    }
  }

  /** The rows of a run of body lines: each line's row, the counters advancing line by line. */
  function BodyRows(body: seq<string>, c: Counters): seq<Row>
    decreases |body|
  {
    if body == [] then []
    else RowsOf(BodyRow(body[0], c)) + BodyRows(body[1..], Advance(body[0], c))
  }

  /** Inside a hunk, the corrected walk over body lines is the body-row walk. */
  lemma {:induction false} HunkWalkIsBodyRows(body: seq<string>, c: Counters)
    requires forall i :: 0 <= i < |body| ==> BodyLine(body[i])
    ensures FormatLines(body, c, true, true) == BodyRows(body, c)
    decreases |body|
  {
    if body != [] {
      BodyStep(body, c);
      BodyTail(body);
      HunkWalkIsBodyRows(body[1..], Advance(body[0], c));
    }
  }

  /** One row per body line, showing that line. */
  lemma {:induction false} BodyRowsShow(body: seq<string>, c: Counters)
    requires forall i :: 0 <= i < |body| ==> BodyLine(body[i])
    ensures |BodyRows(body, c)| == |body|
    ensures forall i :: 0 <= i < |body| ==> Shows(BodyRows(body, c)[i], body[i])
    decreases |body|
  {
    if body != [] {
      var tail := BodyRows(body[1..], Advance(body[0], c));
      var rows := BodyRows(body, c);
      BodyTail(body);
      BodyRowsShow(body[1..], Advance(body[0], c));
      assert rows == [BodyRow(body[0], c).value] + tail;
      forall i | 0 <= i < |body|
        ensures Shows(rows[i], body[i])
      {
        if i > 0 {
          assert rows[i] == tail[i - 1] && body[i] == body[1..][i - 1];
        }
      }
    }
  }

  /** The old-number cells of a row followed by more rows. */
  lemma OldNumbersCons(row: Row, tail: seq<Row>)
    ensures OldNumbers([row] + tail)
         == (if row.Line? && row.oldNum.Some? then [row.oldNum.value] else []) + OldNumbers(tail)
  {
    assert ([row] + tail)[1..] == tail;
  }

  /** The new-number cells of a row followed by more rows. */
  lemma NewNumbersCons(row: Row, tail: seq<Row>)
    ensures NewNumbers([row] + tail)
         == (if row.Line? && row.newNum.Some? then [row.newNum.value] else []) + NewNumbers(tail)
  {
    assert ([row] + tail)[1..] == tail;
  }

  /** One body line's old-number cell, then the numbering from the advanced counter, is the numbering from the counter. */
  lemma OldStep(line: string, c: Counters, k: nat)
    requires BodyLine(line)
    ensures var row := BodyRow(line, c).value;
      (if row.Line? && row.oldNum.Some? then [row.oldNum.value] else []) + Range(Advance(line, c).oldLine, k)
      == Range(c.oldLine, (if Leads(line, '-') || Leads(line, ' ') then 1 else 0) + k)
  {
  }

  /** The body rows number the old side consecutively from the old counter. */
  lemma {:induction false} BodyOldNumbers(body: seq<string>, c: Counters)
    requires forall i :: 0 <= i < |body| ==> BodyLine(body[i])
    ensures OldNumbers(BodyRows(body, c)) == Range(c.oldLine, OldSide(body))
    decreases |body|
  {
    if body != [] {
      var row := BodyRow(body[0], c).value;
      var next := Advance(body[0], c);
      BodyTail(body);
      BodyOldNumbers(body[1..], next);
      OldNumbersCons(row, BodyRows(body[1..], next));
      OldStep(body[0], c, OldSide(body[1..]));
    }
  }

  /** One body line's new-number cell, then the numbering from the advanced counter, is the numbering from the counter. */
  lemma NewStep(line: string, c: Counters, k: nat)
    requires BodyLine(line)
    ensures var row := BodyRow(line, c).value;
      (if row.Line? && row.newNum.Some? then [row.newNum.value] else []) + Range(Advance(line, c).newLine, k)
      == Range(c.newLine, (if Leads(line, '+') || Leads(line, ' ') then 1 else 0) + k)
  {
  }

  /** The body rows number the new side consecutively from the new counter. */
  lemma {:induction false} BodyNewNumbers(body: seq<string>, c: Counters)
    requires forall i :: 0 <= i < |body| ==> BodyLine(body[i])
    ensures NewNumbers(BodyRows(body, c)) == Range(c.newLine, NewSide(body))
    decreases |body|
  {
    if body != [] {
      var row := BodyRow(body[0], c).value;
      var next := Advance(body[0], c);
      BodyTail(body);
      BodyNewNumbers(body[1..], next);
      NewNumbersCons(row, BodyRows(body[1..], next));
      NewStep(body[0], c, NewSide(body[1..]));
    }
  }

  /**
   * Inside a hunk, the corrected walk gives one row per body line, showing
   * that line, and numbers the old and the new side each consecutively from
   * the counters: the n-th old-side line shows old number `old + n`.
   */
  lemma HunkBodyRows(body: seq<string>, c: Counters)
    requires forall i :: 0 <= i < |body| ==> BodyLine(body[i])
    ensures |FormatLines(body, c, true, true)| == |body|
    ensures forall i :: 0 <= i < |body| ==> Shows(FormatLines(body, c, true, true)[i], body[i])
    ensures OldNumbers(FormatLines(body, c, true, true)) == Range(c.oldLine, OldSide(body))
    ensures NewNumbers(FormatLines(body, c, true, true)) == Range(c.newLine, NewSide(body))
  {
    HunkWalkIsBodyRows(body, c);
    BodyRowsShow(body, c);
    BodyOldNumbers(body, c);
    BodyNewNumbers(body, c);
  }

  /** File-header lines before the first hunk produce no rows, in either walk. */
  lemma {:induction false} SkipHeaders(headers: seq<string>, rest: seq<string>, c: Counters, corrected: bool)
    requires forall i :: 0 <= i < |headers| ==> IsFileHeader(headers[i])
    ensures FormatLines(headers + rest, c, false, corrected) == FormatLines(rest, c, false, corrected)
    decreases |headers|
  {
    if headers != [] {
      assert (headers + rest)[0] == headers[0];
      assert (headers + rest)[1..] == headers[1..] + rest;
      SkipHeaders(headers[1..], rest, c, corrected);
    } else {
      assert headers + rest == rest;
    }
  }

  /**
   * A patch of file headers, one printed hunk header and a body: the
   * corrected walk shows the separator, then the body numbered from the
   * header's two start lines.
   */
  lemma CorrectedHunk(headers: seq<string>, oldStart: nat, oldCount: Option<nat>, newStart: nat, newCount: Option<nat>, body: seq<string>)
    requires forall i :: 0 <= i < |headers| ==> IsFileHeader(headers[i])
    requires forall i :: 0 <= i < |body| ==> BodyLine(body[i])
    ensures var rows := FormatLines(headers + [HunkHeader(oldStart, oldCount, newStart, newCount)] + body, Counters(0, 0), false, true);
      && |rows| == 1 + |body|
      && rows[0] == Separator(HunkHeader(oldStart, oldCount, newStart, newCount))
      && (forall i :: 0 <= i < |body| ==> Shows(rows[1 + i], body[i]))
      && OldNumbers(rows[1..]) == Range(oldStart, OldSide(body))
      && NewNumbers(rows[1..]) == Range(newStart, NewSide(body))
  {
    var h := HunkHeader(oldStart, oldCount, newStart, newCount);
    var tail := FormatLines(body, Counters(oldStart, newStart), true, true);
    var rows := FormatLines(headers + [h] + body, Counters(0, 0), false, true);
    assert rows == [Separator(h)] + tail by {
      PrintedHeaderFacts(oldStart, oldCount, newStart, newCount);
      HeadersThenHunk(headers, h, body, oldStart, newStart, true);
    }
    assert rows[1..] == tail;
    HunkBodyRows(body, Counters(oldStart, newStart));
  }

  /**
   * The walk as written gives the same rows for a patch whose body holds no
   * line that looks like a file header (none starts with `---` or `+++`):
   * the separator, then the body numbered consecutively from the header's
   * two start lines.
   */
  lemma AsWrittenHunk(headers: seq<string>, oldStart: nat, oldCount: Option<nat>, newStart: nat, newCount: Option<nat>, body: seq<string>)
    requires forall i :: 0 <= i < |headers| ==> IsFileHeader(headers[i])
    requires forall i :: 0 <= i < |body| ==> BodyLine(body[i]) && !IsFileHeader(body[i])
    ensures var rows := FormatLines(headers + [HunkHeader(oldStart, oldCount, newStart, newCount)] + body, Counters(0, 0), false, false);
      && |rows| == 1 + |body|
      && rows[0] == Separator(HunkHeader(oldStart, oldCount, newStart, newCount))
      && (forall i :: 0 <= i < |body| ==> Shows(rows[1 + i], body[i]))
      && OldNumbers(rows[1..]) == Range(oldStart, OldSide(body))
      && NewNumbers(rows[1..]) == Range(newStart, NewSide(body))
  {
    var h := HunkHeader(oldStart, oldCount, newStart, newCount);
    var c := Counters(oldStart, newStart);
    var tail := FormatLines(body, c, true, false);
    var rows := FormatLines(headers + [h] + body, Counters(0, 0), false, false);
    assert rows == [Separator(h)] + tail by {
      PrintedHeaderFacts(oldStart, oldCount, newStart, newCount);
      HeadersThenHunk(headers, h, body, oldStart, newStart, false);
    }
    assert rows[1..] == tail;
    FormatsAgree(body, c, true);
    HunkBodyRows(body, c);
  }

  /** A patch text is split at its line breaks before the walk: a text joined from single lines is walked line by line. */
  lemma FormatOfLines(lines: seq<string>)
    requires |lines| >= 1 && lines != [""]
    requires forall k :: 0 <= k < |lines| ==> '\n' !in lines[k]
    ensures Format(Join(lines, "\n")) == Some(FormatLines(lines, Counters(0, 0), false, false))
  {
    SplitJoin(lines, '\n');
    assert Join(lines, "\n") != "" by {
      assert Split("", '\n') == [""];
    }
  }

  /** A line that starts with `@@` and matches the pattern shows as a separator and sets the counters to its two starts. */
  lemma MatchedHeaderLine(h: string, rest: seq<string>, c: Counters, inHunk: bool, corrected: bool, o: nat, n: nat)
    requires |h| >= 2 && h[0] == '@' && h[1] == '@'
    requires HunkStart(h) == Some((o, n))
    ensures FormatLines([h] + rest, c, inHunk, corrected)
         == [Separator(h)] + FormatLines(rest, Counters(o, n), true, corrected)
  {
    assert !IsFileHeader(h) by { NotFileHeader(h); }
    assert StartsWith(h, "@@") by { assert h[..2] == "@@"; }
    assert ([h] + rest)[0] == h && ([h] + rest)[1..] == rest;
  }

  /** After the file headers, a matching `@@` line gives its separator and sets the counters to its two starts. */
  lemma HeadersThenHunk(headers: seq<string>, h: string, body: seq<string>, o: nat, n: nat, corrected: bool)
    requires forall i :: 0 <= i < |headers| ==> IsFileHeader(headers[i])
    requires |h| >= 2 && h[0] == '@' && h[1] == '@'
    requires HunkStart(h) == Some((o, n))
    ensures FormatLines(headers + [h] + body, Counters(0, 0), false, corrected)
         == [Separator(h)] + FormatLines(body, Counters(o, n), true, corrected)
  {
    var lines := [h] + body;
    assert headers + [h] + body == headers + lines;
    SkipHeaders(headers, lines, Counters(0, 0), corrected);
    MatchedHeaderLine(h, body, Counters(0, 0), false, corrected, o, n);
  }

  /** A printed hunk header starts with `@@` and the pattern captures its two starts. */
  lemma PrintedHeaderFacts(oldStart: nat, oldCount: Option<nat>, newStart: nat, newCount: Option<nat>)
    ensures var h := HunkHeader(oldStart, oldCount, newStart, newCount);
      |h| >= 2 && h[0] == '@' && h[1] == '@' && HunkStart(h) == Some((oldStart, newStart))
  {
    var h := HunkHeader(oldStart, oldCount, newStart, newCount);
    HeaderRoundTrip(oldStart, oldCount, newStart, newCount);
    HunkHeaderLayout(oldStart, oldCount, newStart, newCount);
  }

  /** Without file-header-like lines, the two walks give the same rows. */
  lemma {:induction false} FormatsAgree(lines: seq<string>, c: Counters, inHunk: bool)
    requires forall i :: 0 <= i < |lines| ==> !IsFileHeader(lines[i])
    ensures FormatLines(lines, c, inHunk, false) == FormatLines(lines, c, inHunk, true)
    decreases |lines|
  {
    if lines != [] {
      var line := lines[0];
      assert forall i :: 0 <= i < |lines[1..]| ==> !IsFileHeader(lines[1..][i]) by {
        forall i | 0 <= i < |lines[1..]|
          ensures !IsFileHeader(lines[1..][i])
        {
          assert lines[1..][i] == lines[i + 1];
        }
      }
      var next := match HunkStart(line)
        case Some((o, n)) => Counters(o, n)
        case None => c;
      FormatsAgree(lines[1..], next, true);
      FormatsAgree(lines[1..], Advance(line, c), inHunk);
    }
  }

  // ---------------------------------------------------------------------
  // A removed line that starts with `--`
  // ---------------------------------------------------------------------

  /** A one-hunk patch removing the line `--x` and keeping `y`, as the diff library prints it. */
  function DashPatch(oldStart: nat, newStart: nat): seq<string> {
    [HunkHeader(oldStart, Some(2), newStart, None)] + DashBodyLines
  }

  /** The hunk's body: the removed line `--x`, then the unchanged line `y`. */
  const DashBodyLines: seq<string> := ["---x", " y"]

  /** The unchanged line `y` as the last line of a hunk. */
  lemma LastContextLine(c: Counters, inHunk: bool, corrected: bool)
    ensures FormatLines([" y"], c, inHunk, corrected) == [Line(Context, Some(c.oldLine), Some(c.newLine), "y")]
  {
    assert !IsFileHeader(" y") by { NotFileHeader(" y"); }
    assert !StartsWith(" y", "@@") by { FirstCharDiffers(" y", "@@"); }
    assert [" y"][1..] == [];
  }

  /** Inside the hunk the walk as written skips `---x`; the corrected walk shows it as removed. */
  lemma DashBody(c: Counters, corrected: bool)
    ensures FormatLines(DashBodyLines, c, true, corrected)
         == if corrected then [Line(Removed, Some(c.oldLine), None, "--x"), Line(Context, Some(c.oldLine + 1), Some(c.newLine), "y")]
            else [Line(Context, Some(c.oldLine), Some(c.newLine), "y")]
  {
    var body := DashBodyLines;
    assert body[1..] == [" y"];
    assert IsFileHeader(body[0]) by { assert body[0][..3] == "---"; }
    LastContextLine(c, true, corrected);
    LastContextLine(Counters(c.oldLine + 1, c.newLine), true, corrected);
    if corrected {
      assert Leads(body[0], '-') && body[0][1..] == "--x";
      assert !StartsWith(body[0], "@@") by { FirstCharDiffers(body[0], "@@"); }
    }
  }

  /** A matching `@@` line followed by the dashed body. */
  lemma DashHunk(h: string, o: nat, n: nat, corrected: bool)
    requires |h| >= 2 && h[0] == '@' && h[1] == '@'
    requires HunkStart(h) == Some((o, n))
    ensures FormatLines([h] + DashBodyLines, Counters(0, 0), false, corrected)
      == if corrected then
           [Separator(h), Line(Removed, Some(o), None, "--x"), Line(Context, Some(o + 1), Some(n), "y")]
         else [Separator(h), Line(Context, Some(o), Some(n), "y")]
  {
    MatchedHeaderLine(h, DashBodyLines, Counters(0, 0), false, corrected, o, n);
    DashBody(Counters(o, n), corrected);
    var removed := Line(Removed, Some(o), None, "--x");
    if corrected {
      ConsTwo(Separator(h), removed, Line(Context, Some(o + 1), Some(n), "y"));
    } else {
      ConsOne(Separator(h), Line(Context, Some(o), Some(n), "y"));
    }
  }

  lemma ConsOne(a: Row, b: Row)
    ensures [a] + [b] == [a, b]
  {
  }

  lemma ConsTwo(a: Row, b: Row, c: Row)
    ensures [a] + [b, c] == [a, b, c]
  {
  }

  /**
   * As written, the removed line `--x` is taken for a file header and
   * dropped, and the unchanged line `y`, the old file's line
   * `oldStart + 1`, is shown with old number `oldStart`. The corrected walk
   * shows the removed line as old line `oldStart` and `y` after it.
   */
  lemma DashedRemovalIsDropped(oldStart: nat, newStart: nat, corrected: bool)
    ensures var lines := DashPatch(oldStart, newStart);
      FormatLines(lines, Counters(0, 0), false, corrected)
      == if corrected then
           [Separator(lines[0]), Line(Removed, Some(oldStart), None, "--x"),
            Line(Context, Some(oldStart + 1), Some(newStart), "y")]
         else [Separator(lines[0]), Line(Context, Some(oldStart), Some(newStart), "y")]
  {
    PrintedHeaderFacts(oldStart, Some(2), newStart, None);
    DashHunk(HunkHeader(oldStart, Some(2), newStart, None), oldStart, newStart, corrected);
  }

  /** Printed numbers hold no line break. */
  lemma NumberHasNoNewline(n: nat)
    ensures '\n' !in NatToString(n)
  {
    var d := NatToString(n);
    assert forall k :: 0 <= k < |d| ==> d[k] != '\n' by {
      forall k | 0 <= k < |d|
        ensures d[k] != '\n'
      {
        assert IsDigit(d[k]);
      }
    }
  }

  /** A printed hunk header is a single line. */
  lemma HeaderHasNoNewline(oldStart: nat, oldCount: Option<nat>, newStart: nat, newCount: Option<nat>)
    ensures '\n' !in HunkHeader(oldStart, oldCount, newStart, newCount)
  {
    RangeHasNoNewline(oldStart, oldCount);
    RangeHasNoNewline(newStart, newCount);
    NewlineNotInLayout(HunkRange(oldStart, oldCount), HunkRange(newStart, newCount));
  }

  /** A printed range is digits and a comma only. */
  lemma RangeHasNoNewline(start: nat, count: Option<nat>)
    ensures '\n' !in HunkRange(start, count)
  {
    NumberHasNoNewline(start);
    if count.Some? {
      NumberHasNoNewline(count.value);
      NewlineNotInParts(",", NatToString(count.value));
    }
    NewlineNotInParts(NatToString(start), CountText(count));
  }

  /** The fixed parts of a header hold no newline, so the header holds one only if a range does. */
  lemma NewlineNotInLayout(a: string, b: string)
    requires '\n' !in a && '\n' !in b
    ensures '\n' !in "@@ -" + (a + (" +" + (b + " @@")))
  {
  }

  lemma NewlineNotInParts(a: string, b: string)
    requires '\n' !in a && '\n' !in b
    ensures '\n' !in a + b
  {
  }

  /** The same patch as text, split at line breaks: the formatter as written loses the removed line. */
  lemma DashedRemovalInText(oldStart: nat, newStart: nat)
    ensures var lines := DashPatch(oldStart, newStart);
      Format(Join(lines, "\n"))
      == Some([Separator(lines[0]), Line(Context, Some(oldStart), Some(newStart), "y")])
    ensures var lines := DashPatch(oldStart, newStart);
      FormatCorrected(Join(lines, "\n"))
      == Some([Separator(lines[0]), Line(Removed, Some(oldStart), None, "--x"),
               Line(Context, Some(oldStart + 1), Some(newStart), "y")])
  {
    var lines := DashPatch(oldStart, newStart);
    assert Split(Join(lines, "\n"), '\n') == lines by {
      HeaderHasNoNewline(oldStart, Some(2), newStart, None);
      assert forall k :: 0 <= k < |lines| ==> '\n' !in lines[k];
      SplitJoin(lines, '\n');
    }
    assert Join(lines, "\n") != "" by {
      assert Split("", '\n') == [""];
    }
    DashedRemovalIsDropped(oldStart, newStart, false);
    DashedRemovalIsDropped(oldStart, newStart, true);
  }
}
