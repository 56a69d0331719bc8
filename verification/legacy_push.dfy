/**
 * The early Overleaf-only sync panel: the same backup pipeline as the
 * current one, but fixed to the public CORS proxy, with a failed ref listing
 * read as an empty remote, a refused branch switch as an error, no conflict
 * check, and no change detection: every completed run commits and
 * force-pushes.
 */
module LegacyPush {
  import opened Base
  import opened Text
  import opened Identity
  import opened Transport
  import opened Effects
  import opened Workspace
  import opened Download
  import Push

  /** The panel's fields, trimmed. */
  datatype Settings = Settings(repo: string, branch: string, username: string, token: string)

  /** What the outside world answers during one run. */
  datatype World = World(
    libraries: bool,                  // the Git client and filesystem are loaded
    listing: Option<seq<string>>,     // refs listed through the public proxy; None when the listing throws
    confirmSwitch: bool,              // the answer to "switch to the alternate branch?"
    fetchError: Option<string>,
    branchError: Option<string>,      // git's error when the branch cannot be created (a name it rejects)
    response: Response,
    unzipError: Option<string>,       // the archive library's error when the body is not a ZIP
    entries: seq<Entry>,
    date: string,                     // the local date text for the commit message
    pushError: Option<string>,
    time: string)                     // the local time text for the success status

  datatype Outcome = Skipped | Busy | Failed(message: string) | Pushed

  /** One stage's result inside the operation's `try` block. */
  datatype Stage = Stage(outcome: Outcome, status: Status, effects: seq<Effect>)

  datatype Run = Run(outcome: Outcome, status: Option<Status>, effects: seq<Effect>, syncing: bool)

  /** A thrown error: the red "Error" status, and the workspace is kept. */
  function Failure(effects: seq<Effect>, message: string): (st: Stage)
    ensures st.outcome == Failed(message) && st.effects == effects
    ensures st.status == Status("Error: " + message, ErrorRed)
  {
    Stage(Failed(message), Status("Error: " + message, ErrorRed), effects)
  }

  /** The commit message: always the generated one, marked when the run is automatic. */
  function Message(isAuto: bool, date: string): (m: string)
    ensures StartsWith(m, "Overleaf Sync ") && EndsWith(m, ": " + date)
    ensures Contains(m, "(Auto)") <== isAuto
    ensures |m| == 14 + (if isAuto then 6 else 0) + 2 + |date|
    ensures m[14..|m| - 2 - |date|] == (if isAuto then "(Auto)" else "")
  {
    var m := "Overleaf Sync " + (if isAuto then "(Auto)" else "") + ": " + date;
    assert m[..14] == "Overleaf Sync ";
    assert m[|m| - |": " + date|..] == ": " + date;
    assert isAuto ==> OccursAt(m, "(Auto)", 14);
    m
  }

  /** The message is the one the current panel generates for Overleaf when no custom message is set. */
  lemma MessageMatchesCurrentDefault(isAuto: bool, date: string)
    ensures Message(isAuto, date) == Push.CommitMessage("overleaf", isAuto, "", date)
  {
  }

  /** Unpack, commit and force-push through the public proxy; no check for an unchanged tree. */
  function Delivered(projectId: string, isAuto: bool, w: World, branch: string): (st: Stage)
    ensures Push(OfficialProxy, branch) in st.effects
    ensures forall e :: e in st.effects ==>
      e.MakeDir? || e.WriteFile? || e.Commit? || e == Push(OfficialProxy, branch) || e == DropWorkspace
    ensures forall e :: e in st.effects ==> !e.Fetch? && !e.ListRefs? && !e.Ask? && e != ReadProjectTime
    ensures Commit(Message(isAuto, w.date)) in st.effects
    ensures st.outcome == Pushed <==> w.pushError.None?
    ensures st.outcome.Pushed? || st.outcome.Failed?
    ensures st.outcome == Pushed ==> st.status == Status("Success: " + w.time, SuccessGreen)
    ensures st.outcome.Failed? ==> st.status == Status("Error: " + st.outcome.message, ErrorRed)
    ensures (DropWorkspace in st.effects) <==> st.outcome == Pushed
  {
    var pushed := PushExtraction("/" + projectId, w.entries) + [Commit(Message(isAuto, w.date)), Push(OfficialProxy, branch)];
    match w.pushError
    case Some(m) => Failure(pushed, m)
    case None => Stage(Pushed, Status("Success: " + w.time, SuccessGreen), pushed + [DropWorkspace])
  }

  /** The files written are the archive's files under the project directory. */
  lemma DeliveredWritesArchive(projectId: string, isAuto: bool, w: World, branch: string)
    ensures Written(Delivered(projectId, isAuto, w, branch).effects) == Prefix("/" + projectId, FileNames(w.entries))
  {
    var extraction := PushExtraction("/" + projectId, w.entries);
    var tail := [Commit(Message(isAuto, w.date)), Push(OfficialProxy, branch)]
      + (if w.pushError.None? then [DropWorkspace] else []);
    DeliveredEffects(projectId, isAuto, w, branch);
    NothingWritten(tail);
    WrittenAppend(extraction, tail);
  }

  /** Delivery is the extraction followed by the commit, the push and, on success, dropping the workspace. */
  lemma DeliveredEffects(projectId: string, isAuto: bool, w: World, branch: string)
    ensures Delivered(projectId, isAuto, w, branch).effects
         == PushExtraction("/" + projectId, w.entries)
            + ([Commit(Message(isAuto, w.date)), Push(OfficialProxy, branch)]
               + (if w.pushError.None? then [DropWorkspace] else []))
  {
    var extraction := PushExtraction("/" + projectId, w.entries);
    var shipped := [Commit(Message(isAuto, w.date)), Push(OfficialProxy, branch)];
    if w.pushError.None? {
      assert Delivered(projectId, isAuto, w, branch).effects == extraction + shipped + [DropWorkspace];
      ConcatAssoc(extraction, shipped, [DropWorkspace]);
    } else {
      assert Delivered(projectId, isAuto, w, branch).effects == extraction + shipped;
      assert shipped + [] == shipped;
    }
  }

  /** A download that passed its checks and unpacked, followed by delivery. */
  function Unpacked(projectId: string, isAuto: bool, w: World, branch: string): (st: Stage)
    ensures st.effects != [] && st.effects[0] == Download(OverleafArchiveUrl(projectId))
    ensures Push(OfficialProxy, branch) in st.effects
    ensures forall e :: e in st.effects && e.Push? ==> e == Push(OfficialProxy, branch)
    ensures forall e :: e in st.effects ==> !e.Fetch? && !e.ListRefs? && !e.Ask? && e != ReadProjectTime
    ensures st.outcome == Delivered(projectId, isAuto, w, branch).outcome
    ensures st.status == Delivered(projectId, isAuto, w, branch).status
    ensures (DropWorkspace in st.effects) <==> st.outcome == Pushed
  {
    var rest := Delivered(projectId, isAuto, w, branch);
    ConsMembers(Download(OverleafArchiveUrl(projectId)), rest.effects);
    Stage(rest.outcome, rest.status, [Download(OverleafArchiveUrl(projectId))] + rest.effects)
  }

  /** The Overleaf archive download, its three checks and the unpacking of the body, then delivery. */
  function Downloaded(projectId: string, isAuto: bool, w: World, branch: string): (st: Stage)
    ensures st.effects != [] && st.effects[0] == Download(OverleafArchiveUrl(projectId))
    ensures (Push(OfficialProxy, branch) in st.effects) <==> CheckForLegacyPush(w.response).Accepted? && w.unzipError.None?
    ensures forall e :: e in st.effects && e.Push? ==> e == Push(OfficialProxy, branch)
    ensures forall e :: e in st.effects ==> !e.Fetch? && !e.ListRefs? && !e.Ask? && e != ReadProjectTime
    ensures st.outcome.Pushed? || st.outcome.Failed?
    ensures st.outcome == Pushed <==> CheckForLegacyPush(w.response).Accepted? && w.unzipError.None? && w.pushError.None?
    ensures st.outcome.Failed? ==> st.status == Status("Error: " + st.outcome.message, ErrorRed)
    ensures (DropWorkspace in st.effects) <==> st.outcome == Pushed
    ensures CheckForLegacyPush(w.response).Rejected? ==>
      st == Failure([Download(OverleafArchiveUrl(projectId))], CheckForLegacyPush(w.response).message)
    ensures CheckForLegacyPush(w.response).Accepted? && w.unzipError.Some? ==>
      st == Failure([Download(OverleafArchiveUrl(projectId))], w.unzipError.value)
  {
    match Opened(CheckForLegacyPush(w.response), w.unzipError)
    case Rejected(m) => Failure([Download(OverleafArchiveUrl(projectId))], m)
    case Accepted => Unpacked(projectId, isAuto, w, branch)
  }

  /**
   * Fetch and check out a listed branch through the public proxy; otherwise
   * create it locally, which fails for a name git rejects.
   */
  function Branched(projectId: string, isAuto: bool, w: World, plan: BranchPlan): (st: Stage)
    ensures (Fetch(OfficialProxy, plan.branch) in st.effects) <==> plan.fetchRemote
    ensures forall e :: e in st.effects && e.Fetch? ==> e == Fetch(OfficialProxy, plan.branch)
    ensures !plan.fetchRemote ==> CreateBranch(plan.branch) in st.effects
    ensures forall e :: e in st.effects && e.Push? ==> e == Push(OfficialProxy, plan.branch)
    ensures (Push(OfficialProxy, plan.branch) in st.effects) <==>
      (plan.fetchRemote ==> w.fetchError.None?) && (!plan.fetchRemote ==> w.branchError.None?)
      && CheckForLegacyPush(w.response).Accepted? && w.unzipError.None?
    ensures !plan.fetchRemote && w.branchError.Some? ==> st == Failure([CreateBranch(plan.branch)], w.branchError.value)
    ensures forall e :: e in st.effects ==> !e.ListRefs? && !e.Ask? && e != ReadProjectTime
    ensures st.outcome.Pushed? || st.outcome.Failed?
    ensures st.outcome.Failed? ==> st.status == Status("Error: " + st.outcome.message, ErrorRed)
    ensures (DropWorkspace in st.effects) <==> st.outcome == Pushed
  {
    if plan.fetchRemote then
      match w.fetchError
      case Some(m) => Failure([Fetch(OfficialProxy, plan.branch)], m)
      case None =>
        var rest := Downloaded(projectId, isAuto, w, plan.branch);
        Stage(rest.outcome, rest.status, [Fetch(OfficialProxy, plan.branch), Checkout(plan.branch)] + rest.effects)
    else
      match w.branchError
      case Some(m) => Failure([CreateBranch(plan.branch)], m)
      case None =>
        var rest := Downloaded(projectId, isAuto, w, plan.branch);
        Stage(rest.outcome, rest.status, [CreateBranch(plan.branch)] + rest.effects)
  }

  /** The refs the run works with: a failed listing reads as an empty remote. */
  function Refs(w: World): (refs: seq<string>)
    ensures w.listing.None? ==> refs == []
    ensures w.listing.Some? ==> refs == w.listing.value
  {
    w.listing.GetOr([])
  }

  /** The switch question is due: the branch is not listed, but other branches are, among them the alternate. */
  predicate SwitchDue(s: Settings, w: World) {
    HeadRef(s.branch) !in Refs(w) && |Refs(w)| > 0 && HeadRef(Alternate(s.branch)) in Refs(w)
  }

  /** Opening the repository, the one ref listing, and the branch question when it is due. */
  function Opening(projectId: string, s: Settings, w: World): (effects: seq<Effect>)
    ensures forall e :: e in effects ==> e.OpenRepo? || e == ListRefs(OfficialProxy) || (e.Ask? && e.prompt.SwitchBranch?)
    ensures (Ask(SwitchBranch(s.branch, Alternate(s.branch))) in effects) <==> SwitchDue(s, w)
    ensures ListRefs(OfficialProxy) in effects
  {
    [OpenRepo("/" + projectId, s.repo), ListRefs(OfficialProxy)]
    + (if SwitchDue(s, w) then [Ask(SwitchBranch(s.branch, Alternate(s.branch)))] else [])
  }

  /** Everything inside the `try` block. */
  function Attempt(projectId: string, isAuto: bool, s: Settings, w: World): (st: Stage)
    ensures !w.libraries ==> st == Failure([], "Libs missing")
    ensures w.libraries ==> match LegacyResolveBranch(s.branch, Refs(w), w.confirmSwitch)
      case Refused(m) => st == Failure(Opening(projectId, s, w), m)
      case Resolved(plan) =>
        st.outcome == Branched(projectId, isAuto, w, plan).outcome
        && st.effects == Opening(projectId, s, w) + Branched(projectId, isAuto, w, plan).effects
    ensures st.outcome.Pushed? || st.outcome.Failed?
    ensures st.outcome.Failed? ==> st.status == Status("Error: " + st.outcome.message, ErrorRed)
    ensures (DropWorkspace in st.effects) <==> st.outcome == Pushed
  {
    if !w.libraries then Failure([], "Libs missing")
    else
      match LegacyResolveBranch(s.branch, Refs(w), w.confirmSwitch)
      case Refused(m) => Failure(Opening(projectId, s, w), m)
      case Resolved(plan) =>
        var rest := Branched(projectId, isAuto, w, plan);
        Stage(rest.outcome, rest.status, Opening(projectId, s, w) + rest.effects)
  }

  /**
   * `performSync(isAuto)` of the early panel. The project id is the third
   * path component; the settings are saved under the early storage key.
   */
  function Sync(syncing: bool, isAuto: bool, pathname: string, s: Settings, w: World): (run: Run)
    ensures (s.repo == "" || s.token == "") ==>
      run == Run(Skipped, if isAuto then None else Some(Status("Missing Repo/Token", Red)), [], syncing)
    ensures s.repo != "" && s.token != "" && syncing ==> run == Run(Busy, None, [], true)
    ensures s.repo != "" && s.token != "" && !syncing ==>
      !run.syncing && run.status.Some?
      && run.effects != [] && run.effects[0] == SaveSettings(LegacyStorageKey(LegacyProjectId(pathname)))
    ensures (DropWorkspace in run.effects) <==> run.outcome == Pushed
  {
    if s.repo == "" || s.token == "" then
      Run(Skipped, if isAuto then None else Some(Status("Missing Repo/Token", Red)), [], syncing)
    else if syncing then Run(Busy, None, [], true)
    else
      var projectId := LegacyProjectId(pathname);
      var st := Attempt(projectId, isAuto, s, w);
      Run(st.outcome, Some(st.status), [SaveSettings(LegacyStorageKey(projectId))] + st.effects, false)
  }

  /** The kinds of effect a run has before its branch step; the one listing goes through the public proxy. */
  predicate Preliminary(e: Effect) {
    e.SaveSettings? || e.OpenRepo? || e == ListRefs(OfficialProxy) || (e.Ask? && e.prompt.SwitchBranch?)
  }

  /** What a started run does before the branch step: save the settings, then open the repository. */
  function Head(projectId: string, s: Settings, w: World): (effects: seq<Effect>)
    ensures forall e :: e in effects ==> Preliminary(e)
    ensures |effects| >= 1 && effects[0] == SaveSettings(LegacyStorageKey(projectId))
  {
    [SaveSettings(LegacyStorageKey(projectId))] + Opening(projectId, s, w)
  }

  /** Past both guards with the libraries loaded and the branch settled, the trace is the save, the opening, then the branch step. */
  lemma SyncSplits(syncing: bool, isAuto: bool, pathname: string, s: Settings, w: World, plan: BranchPlan)
    requires s.repo != "" && s.token != "" && !syncing && w.libraries
    requires LegacyResolveBranch(s.branch, Refs(w), w.confirmSwitch) == Resolved(plan)
    ensures var id := LegacyProjectId(pathname);
      Sync(syncing, isAuto, pathname, s, w).effects
      == [SaveSettings(LegacyStorageKey(id))] + Opening(id, s, w) + Branched(id, isAuto, w, plan).effects
    ensures var id := LegacyProjectId(pathname);
      Sync(syncing, isAuto, pathname, s, w).effects == Head(id, s, w) + Branched(id, isAuto, w, plan).effects
  {
    var id := LegacyProjectId(pathname);
    var rest := Branched(id, isAuto, w, plan);
    assert Attempt(id, isAuto, s, w).effects == Opening(id, s, w) + rest.effects;
    ConcatAssoc([SaveSettings(LegacyStorageKey(id))], Opening(id, s, w), rest.effects);
  }

  /** Past both guards with the libraries loaded, a refused switch ends the run right after the opening. */
  lemma SyncRefused(syncing: bool, isAuto: bool, pathname: string, s: Settings, w: World, m: string)
    requires s.repo != "" && s.token != "" && !syncing && w.libraries
    requires LegacyResolveBranch(s.branch, Refs(w), w.confirmSwitch) == Refused(m)
    ensures Sync(syncing, isAuto, pathname, s, w).effects == Head(LegacyProjectId(pathname), s, w)
    ensures Sync(syncing, isAuto, pathname, s, w).outcome == Failed(m)
  {
  }

  /** The preliminary steps list refs only through the public proxy and never fetch, download, write or push. */
  lemma AfterPreliminaries(trace: seq<Effect>, head: seq<Effect>, tail: seq<Effect>)
    requires trace == head + tail
    requires forall e :: e in head ==> Preliminary(e)
    ensures forall e :: e in trace && (e.Fetch? || e.Push? || e.Download? || e.WriteFile?) ==> e in tail
    ensures forall e :: e in trace && e.ListRefs? ==> e == ListRefs(OfficialProxy) || e in tail
    ensures Ask(OverwriteNewerRemote) in trace <==> Ask(OverwriteNewerRemote) in tail
    ensures ReadProjectTime in trace <==> ReadProjectTime in tail
  {
  }

  /**
   * Every request to the Git remote — listing, fetch, push — goes through the
   * public proxy, and the run never asks about a newer remote nor reads the
   * editor's time: the early panel has no conflict check.
   */
  lemma OnlyThroughOfficialProxy(syncing: bool, isAuto: bool, pathname: string, s: Settings, w: World)
    ensures OnlyThrough(Sync(syncing, isAuto, pathname, s, w).effects, OfficialProxy)
    ensures Ask(OverwriteNewerRemote) !in Sync(syncing, isAuto, pathname, s, w).effects
    ensures ReadProjectTime !in Sync(syncing, isAuto, pathname, s, w).effects
  {
    var id := LegacyProjectId(pathname);
    if s.repo != "" && s.token != "" && !syncing && w.libraries {
      match LegacyResolveBranch(s.branch, Refs(w), w.confirmSwitch)
      case Refused(m) =>
        SyncRefused(syncing, isAuto, pathname, s, w, m);
        AfterPreliminaries(Sync(syncing, isAuto, pathname, s, w).effects, Head(id, s, w), []);
      case Resolved(plan) =>
        SyncSplits(syncing, isAuto, pathname, s, w, plan);
        AfterPreliminaries(Sync(syncing, isAuto, pathname, s, w).effects, Head(id, s, w), Branched(id, isAuto, w, plan).effects);
    }
  }

  /**
   * Without change detection, a run that passes the guards, settles the
   * branch, fetches it or creates it, and downloads an archive that passes
   * the checks and unpacks always pushes.
   */
  lemma AlwaysPushes(syncing: bool, isAuto: bool, pathname: string, s: Settings, w: World, plan: BranchPlan)
    requires s.repo != "" && s.token != "" && !syncing && w.libraries
    requires LegacyResolveBranch(s.branch, Refs(w), w.confirmSwitch) == Resolved(plan)
    ensures (Push(OfficialProxy, plan.branch) in Sync(syncing, isAuto, pathname, s, w).effects)
        <==> (plan.fetchRemote ==> w.fetchError.None?) && (!plan.fetchRemote ==> w.branchError.None?)
             && CheckForLegacyPush(w.response).Accepted? && w.unzipError.None?
  {
    var id := LegacyProjectId(pathname);
    SyncSplits(syncing, isAuto, pathname, s, w, plan);
    AfterPreliminaries(Sync(syncing, isAuto, pathname, s, w).effects, Head(id, s, w), Branched(id, isAuto, w, plan).effects);
  }

  /**
   * Declining the switch ends the run with an error that names the
   * available branches, before anything is fetched, downloaded or pushed.
   */
  lemma DeclinedSwitchIsAnError(syncing: bool, isAuto: bool, pathname: string, s: Settings, w: World)
    requires s.repo != "" && s.token != "" && !syncing && w.libraries
    requires SwitchDue(s, w) && !w.confirmSwitch
    ensures var run := Sync(syncing, isAuto, pathname, s, w);
      run.outcome == Failed(BranchNotFound(s.branch, Refs(w)))
      && Ask(SwitchBranch(s.branch, Alternate(s.branch))) in run.effects
      && (forall e :: e in run.effects ==> !e.Fetch? && !e.Download? && !e.Push? && !e.WriteFile?)
  {
    var id := LegacyProjectId(pathname);
    assert LegacyResolveBranch(s.branch, Refs(w), w.confirmSwitch) == Refused(BranchNotFound(s.branch, Refs(w)));
    SyncRefused(syncing, isAuto, pathname, s, w, BranchNotFound(s.branch, Refs(w)));
    AfterPreliminaries(Sync(syncing, isAuto, pathname, s, w).effects, Head(id, s, w), []);
    assert Ask(SwitchBranch(s.branch, Alternate(s.branch))) in Opening(id, s, w);
  }
}
