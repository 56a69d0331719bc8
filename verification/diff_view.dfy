/**
 * The review window a pull opens (`renderDiffUI`): the file list with its
 * status badges, the viewer for the selected file, and the gate on the
 * "Apply to Active Editor" button. Whether the editor's breadcrumb names
 * the selected file is an oracle (`isMatch`), as is the result of reading
 * the remote copy. Markup, styling and the one-second re-check timer are
 * not modelled; a re-check is an event.
 */
module DiffView {
  import opened Base
  import opened Reconcile
  import opened DiffRows
  import opened Text

  // ---------------------------------------------------------------------
  // The file list
  // ---------------------------------------------------------------------

  /** A status badge: background colour and caption. */
  datatype Badge = Badge(color: string, caption: string)

  function BadgeOf(status: ChangeStatus): (b: Badge)
    ensures status == New ==> b == Badge("#22863a", "NEW")
    ensures status == Del ==> b == Badge("#cb2431", "DEL")
    ensures status == Mod ==> b == Badge("#b08800", "MOD")
  {
    var color := if status == New then "#22863a" else if status == Del then "#cb2431" else "#b08800";
    var caption := if status == Mod then "MOD" else if status == New then "NEW" else "DEL";
    Badge(color, caption)
  }

  /** Different statuses never share a colour or a caption. */
  lemma BadgesTellStatusesApart(a: ChangeStatus, b: ChangeStatus)
    ensures BadgeOf(a).color == BadgeOf(b).color <==> a == b
    ensures BadgeOf(a).caption == BadgeOf(b).caption <==> a == b
  {
  }

  /** One entry of the file list: the path and its badge. */
  datatype Item = Item(file: string, badge: Badge)

  function Items(changes: seq<Change>): (items: seq<Item>)
    ensures |items| == |changes|
    ensures forall i :: 0 <= i < |changes| ==> items[i] == Item(changes[i].file, BadgeOf(changes[i].status))
  {
    if changes == [] then [] else [Item(changes[0].file, BadgeOf(changes[0].status))] + Items(changes[1..])
  }

  // ---------------------------------------------------------------------
  // The viewer and the apply button
  // ---------------------------------------------------------------------

  /**
   * What the viewer shows: the prompt to pick a file, the "Sync Complete /
   * No differences found." state, the deletion notice, a numbered patch
   * table, or nothing (an empty patch text).
   */
  datatype Viewer = Prompt | SyncComplete | DeletedNotice | Table(rows: seq<Row>) | Blank

  /** The footer label next to the button. */
  datatype Label = NoFileSelected | Target(file: string) | OpenInEditor(file: string) | RequestSent

  datatype Button = Button(enabled: bool, caption: string)

  /** The window: the listed changes, the selected one, the viewer, the button and the label. */
  datatype Panel = Panel(changes: seq<Change>, items: seq<Item>, selected: Option<nat>,
                         viewer: Viewer, button: Button, footer: Label)

  /** A panel whose selection, if any, is one of its listed changes, and whose button is only enabled with a selection. */
  predicate Valid(p: Panel) {
    && (p.selected.Some? ==> p.selected.value < |p.changes|)
    && (p.button.enabled ==> p.selected.Some?)
  }

  /**
   * Rendering a report: the list rebuilt in report order, nothing selected,
   * the button disabled with its caption left as it was, and the viewer
   * showing the prompt, or the "Sync Complete" state for an empty report.
   */
  function Render(before: Panel, changes: seq<Change>): (p: Panel)
    ensures Valid(p) && p.selected.None? && p.changes == changes && p.items == Items(changes)
    ensures !p.button.enabled && p.button.caption == before.button.caption
    ensures p.footer == NoFileSelected
    ensures p.viewer == SyncComplete <==> changes == []
    ensures p.viewer == Prompt <==> changes != []
  {
    var cleared := Panel(changes, Items(changes), None, Prompt, Button(false, before.button.caption), NoFileSelected);
    if changes == [] then cleared.(viewer := SyncComplete) else cleared
  }

  /** The viewer for a picked change: the deletion notice, or the numbered patch. */
  function ViewOf(change: Change): (v: Viewer)
    ensures v == DeletedNotice <==> change.status == Del
    ensures v == Blank <==> change.status != Del && change.diff == ""
    ensures v.Table? ==> Format(change.diff) == Some(v.rows)
    ensures v.Table? || v == DeletedNotice || v == Blank
  {
    if change.status == Del then DeletedNotice
    else match Format(change.diff)
      case None => Blank
      case Some(rows) => Table(rows)
  }

  /**
   * Picking a changed file whose patch is file headers, one hunk and a body
   * without header-like lines shows the hunk's separator and then one row per
   * body line, the two sides numbered consecutively from the header's starts.
   */
  lemma ViewShowsHunk(file: string, status: ChangeStatus, headers: seq<string>,
                      oldStart: nat, oldCount: Option<nat>, newStart: nat, newCount: Option<nat>, body: seq<string>)
    requires status != Del
    requires forall i :: 0 <= i < |headers| ==> IsFileHeader(headers[i]) && '\n' !in headers[i]
    requires forall i :: 0 <= i < |body| ==> BodyLine(body[i]) && !IsFileHeader(body[i]) && '\n' !in body[i]
    ensures var h := HunkHeader(oldStart, oldCount, newStart, newCount);
      var v := ViewOf(Change(file, status, Join(headers + [h] + body, "\n")));
      && v.Table?
      && |v.rows| == 1 + |body|
      && v.rows[0] == Separator(h)
      && (forall i :: 0 <= i < |body| ==> Shows(v.rows[1 + i], body[i]))
      && OldNumbers(v.rows[1..]) == Range(oldStart, OldSide(body))
      && NewNumbers(v.rows[1..]) == Range(newStart, NewSide(body))
  {
    var h := HunkHeader(oldStart, oldCount, newStart, newCount);
    var lines := headers + [h] + body;
    assert forall k :: 0 <= k < |lines| ==> '\n' !in lines[k] by {
      HeaderHasNoNewline(oldStart, oldCount, newStart, newCount);
      LinesOfPatch(headers, h, body);
    }
    assert lines != [""] by {
      PrintedHeaderFacts(oldStart, oldCount, newStart, newCount);
      assert lines[|headers|] == h;
    }
    FormatOfLines(lines);
    AsWrittenHunk(headers, oldStart, oldCount, newStart, newCount, body);
  }

  /** Every line of headers, a header line and a body is one of the three parts. */
  lemma LinesOfPatch(headers: seq<string>, h: string, body: seq<string>)
    requires forall i :: 0 <= i < |headers| ==> '\n' !in headers[i]
    requires '\n' !in h
    requires forall i :: 0 <= i < |body| ==> '\n' !in body[i]
    ensures forall k :: 0 <= k < |headers + [h] + body| ==> '\n' !in (headers + [h] + body)[k]
  {
    var lines := headers + [h] + body;
    forall k | 0 <= k < |lines|
      ensures '\n' !in lines[k]
    {
      if k < |headers| {
        assert lines[k] == headers[k];
      } else if k > |headers| {
        assert lines[k] == body[k - |headers| - 1];
      }
    }
  }

  const ApplyCaption := "Apply to Active Editor"
  const PickFirstCaption := "Select File in Left Sidebar First"

  /** The safety check: the button is armed exactly when the editor shows the selected file. */
  function Gate(p: Panel, isMatch: bool): (q: Panel)
    requires p.selected.Some? && p.selected.value < |p.changes|
    ensures Valid(q) && q.selected == p.selected && q.changes == p.changes && q.viewer == p.viewer
    ensures q.button.enabled == isMatch
    ensures isMatch ==> q.button.caption == ApplyCaption && q.footer == Target(p.changes[p.selected.value].file)
    ensures !isMatch ==> q.button.caption == PickFirstCaption && q.footer == OpenInEditor(p.changes[p.selected.value].file)
  {
    var file := p.changes[p.selected.value].file;
    if isMatch then p.(button := Button(true, ApplyCaption), footer := Target(file))
    else p.(button := Button(false, PickFirstCaption), footer := OpenInEditor(file))
  }

  // ---------------------------------------------------------------------
  // Events
  // ---------------------------------------------------------------------

  /** Reading `/remote/<file>`: its text, or the error's message. */
  datatype ReadResult = Contents(text: string) | ReadFailed(message: string)

  /** The message posted to the page script. */
  datatype Posted = Posted(source: string, action: string, content: string)

  /** What the window sends out on a press: the posted message with the path its content was read from, or an alert. */
  datatype Output = Sent(message: Posted, readFrom: string) | Alerted(text: string)

  /**
   * A user or timer event: picking the i-th listed file (with the
   * breadcrumb check's answer), the periodic re-check of the active file,
   * and pressing the button (with what the read of the remote copy gives).
   */
  datatype Event = Pick(index: nat, isMatch: bool) | Recheck(isMatch: bool) | Press(read: ReadResult)

  /** The path the apply reads the remote copy from. */
  function RemotePath(file: string): string {
    "/remote/" + file
  }

  datatype StepResult = StepResult(panel: Panel, output: Option<Output>)

  /** One event. */
  function Step(p: Panel, e: Event): (r: StepResult)
    requires Valid(p)
    ensures Valid(r.panel) && r.panel.changes == p.changes && r.panel.items == p.items
    ensures r.output.Some? <==> e.Press? && p.button.enabled
    ensures r.output.Some? && e.read.Contents? ==>
      r.output == Some(Sent(Posted("zenoverleaf-content", "APPLY_CONTENT", e.read.text),
                            RemotePath(p.changes[p.selected.value].file)))
      && r.panel.footer == RequestSent && r.panel.button.caption == "Applied"
    ensures r.output.Some? && e.read.ReadFailed? ==>
      r.output == Some(Alerted("Read Error: " + e.read.message)) && r.panel.button.caption == "Error"
    ensures e.Press? ==> !r.panel.button.enabled && r.panel.selected == p.selected
    ensures e.Pick? && e.index < |p.changes| ==>
      r.panel.selected == Some(e.index) && r.panel.viewer == ViewOf(p.changes[e.index])
      && r.panel.button.enabled == e.isMatch
    ensures e.Recheck? ==> r.panel.selected == p.selected && r.panel.viewer == p.viewer
    ensures e.Recheck? && p.selected.Some? ==> r.panel.button.enabled == e.isMatch
    ensures e.Recheck? && p.selected.None? ==> r.panel == p
  {
    match e
    case Pick(i, isMatch) =>
      if i < |p.changes| then StepResult(Gate(p.(selected := Some(i), viewer := ViewOf(p.changes[i])), isMatch), None)
      else StepResult(p, None)
    case Recheck(isMatch) =>
      if p.selected.Some? then StepResult(Gate(p, isMatch), None) else StepResult(p, None)
    case Press(read) =>
      if !p.button.enabled then StepResult(p, None)
      else
        match read
        case Contents(text) =>
          var from := RemotePath(p.changes[p.selected.value].file);
          StepResult(p.(button := Button(false, "Applied"), footer := RequestSent),
                     Some(Sent(Posted("zenoverleaf-content", "APPLY_CONTENT", text), from)))
        case ReadFailed(message) =>
          StepResult(p.(button := Button(false, "Error")), Some(Alerted("Read Error: " + message)))
  }

  /** A sequence of events from a panel, first to last. */
  function Run(p: Panel, events: seq<Event>): (q: Panel)
    requires Valid(p)
    ensures Valid(q) && q.changes == p.changes
    decreases |events|
  {
    if events == [] then p else Run(Step(p, events[0]).panel, events[1..])
  }

  /** Running one more event is one more step. */
  lemma {:induction false} RunSnoc(p: Panel, events: seq<Event>, e: Event)
    requires Valid(p)
    ensures Run(p, events + [e]) == Step(Run(p, events), e).panel
    decreases |events|
  {
    if events == [] {
      assert [] + [e] == [e];
      assert [e][1..] == [];
    } else {
      assert (events + [e])[0] == events[0];
      assert (events + [e])[1..] == events[1..] + [e];
      RunSnoc(Step(p, events[0]).panel, events[1..], e);
    }
  }

  // ---------------------------------------------------------------------
  // The apply gate over a session
  // ---------------------------------------------------------------------

  /** The listed file picked most recently, if any. */
  function LastPick(changes: seq<Change>, events: seq<Event>): (r: Option<nat>)
    ensures r.Some? ==> r.value < |changes|
    decreases |events|
  {
    if events == [] then None
    else
      var last := events[|events| - 1];
      if last.Pick? && last.index < |changes| then Some(last.index)
      else LastPick(changes, events[..|events| - 1])
  }

  /**
   * Read from the most recent event back: the button is armed when the last
   * event is a positive check of a selected file, and not after a press or
   * a negative check. A re-check before any file was picked changes nothing.
   */
  predicate Confirmed(changes: seq<Change>, events: seq<Event>)
    decreases |events|
  {
    if events == [] then false
    else
      var last := events[|events| - 1];
      var before := events[..|events| - 1];
      match last
      case Press(_) => false
      case Pick(i, isMatch) => if i < |changes| then isMatch else Confirmed(changes, before)
      case Recheck(isMatch) => LastPick(changes, before).Some? && isMatch
  }

  /**
   * After rendering a report and any events, the selected file is the one
   * picked most recently, and the button is enabled exactly when the most
   * recent gate decision armed it.
   */
  lemma {:induction false} ButtonArmedIffConfirmed(before: Panel, changes: seq<Change>, events: seq<Event>)
    ensures Run(Render(before, changes), events).selected == LastPick(changes, events)
    ensures Run(Render(before, changes), events).button.enabled <==> Confirmed(changes, events)
    decreases |events|
  {
    var p := Render(before, changes);
    if events != [] {
      var prefix := events[..|events| - 1];
      var e := events[|events| - 1];
      assert events == prefix + [e];
      ButtonArmedIffConfirmed(before, changes, prefix);
      RunSnoc(p, prefix, e);
    }
  }

  /**
   * A press sends content to the editor only when the most recent gate
   * decision found the editor showing the selected file, and what it sends
   * is exactly what was read from the remote copy of the file picked last.
   */
  lemma ApplyNeedsConfirmation(before: Panel, changes: seq<Change>, events: seq<Event>, read: ReadResult)
    ensures var r := Step(Run(Render(before, changes), events), Press(read));
      && (r.output.Some? <==> Confirmed(changes, events))
      && (r.output.Some? ==> LastPick(changes, events).Some?)
      && (r.output.Some? && read.Contents? ==>
            r.output.value.message == Posted("zenoverleaf-content", "APPLY_CONTENT", read.text)
            && r.output.value.readFrom == RemotePath(changes[LastPick(changes, events).value].file))
      && (r.output.Some? && read.ReadFailed? ==> r.output.value == Alerted("Read Error: " + read.message))
  {
    ButtonArmedIffConfirmed(before, changes, events);
  }

  /** Two presses in a row send at most one message: a press disarms the button until the next positive check. */
  lemma NoDoubleApply(before: Panel, changes: seq<Change>, events: seq<Event>, first: ReadResult, second: ReadResult)
    ensures Step(Run(Render(before, changes), events + [Press(first)]), Press(second)).output.None?
  {
    ButtonArmedIffConfirmed(before, changes, events + [Press(first)]);
  }
}
