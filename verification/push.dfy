/**
 * The push ("backup") operation of the sync panel: save the settings,
 * connect through the first working proxy, settle the branch, fetch it when
 * the remote has it, download the editor's archive, ask before overwriting a
 * newer remote, unpack, commit, and force-push unless the commit changed
 * nothing.
 *
 * `Sync` takes the panel's in-progress flag and returns its new value with
 * the outcome, the final status line (when one is shown) and the trace.
 */
module Push {
  import opened Base
  import opened Text
  import opened Identity
  import opened Transport
  import opened Effects
  import opened Workspace
  import opened Download
  import opened Timing

  /** The panel's fields, trimmed. */
  datatype Settings = Settings(repo: string, branch: string, username: string, token: string,
                               commitMessage: string, customProxy: string)

  /** A commit as `git.readCommit` returns it: its tree id and parent ids. */
  datatype CommitInfo = CommitInfo(tree: string, parents: seq<string>)

  /** What the outside world answers during one push. */
  datatype World = World(
    libraries: bool,                          // the Git client and filesystem are loaded
    probe: map<string, seq<string>>,          // proxy -> refs it lists; absent proxies fail
    confirmSwitch: bool,                      // the answer to "use the alternate branch?"
    fetchError: Option<string>,
    branchError: Option<string>,              // git's error when the branch cannot be created (a name it rejects)
    commitSeconds: Option<int>,               // committer time of the fetched tip, if readable
    pathname: string,
    page: PageKeys,
    response: Response,
    unzipError: Option<string>,               // the archive library's error when the body is not a ZIP
    entries: seq<Entry>,
    overleafListing: Option<seq<ListedProject>>,
    texpageListing: Option<seq<ListedProject>>,
    parseDate: string -> Timestamp,
    confirmOverwrite: bool,                   // the answer to "remote is newer, overwrite?"
    date: string,                             // the local date text for the default message
    commitSha: string,                        // id of the new commit
    store: map<string, CommitInfo>,           // readable commits after a fetch; absent ids throw
    pushError: Option<string>,
    time: string)                             // the local time text for the success status

  datatype Outcome = Skipped | Busy | Cancelled | Failed(message: string) | UpToDate | Pushed

  /** One stage's result inside the operation's `try` block. */
  datatype Stage = Stage(outcome: Outcome, status: Status, effects: seq<Effect>)

  datatype Run = Run(outcome: Outcome, status: Option<Status>, effects: seq<Effect>, syncing: bool)

  /** A thrown error: the red "Error" status. The workspace is not dropped on this path. */
  function Failure(effects: seq<Effect>, message: string): (st: Stage)
    ensures st.outcome == Failed(message) && st.effects == effects
    ensures st.status == Status("Error: " + message, ErrorRed)
  {
    Stage(Failed(message), Status("Error: " + message, ErrorRed), effects)
  }

  /** "Overleaf" on Overleaf, "TexPage" everywhere else. */
  function PlatformName(platform: string): string {
    if platform == "overleaf" then "Overleaf" else "TexPage"
  }

  /** The commit message: the custom one when given, else the platform, an auto marker and the date. */
  function CommitMessage(platform: string, isAuto: bool, custom: string, date: string): (m: string)
    ensures custom != "" ==> m == custom
    ensures custom == "" ==> StartsWith(m, PlatformName(platform) + " Sync ")
    ensures custom == "" ==> EndsWith(m, ": " + date)
    ensures custom == "" ==> |m| == |PlatformName(platform)| + 6 + (if isAuto then 6 else 0) + 2 + |date|
    ensures custom == "" ==>
      m[|PlatformName(platform)| + 6..|m| - 2 - |date|] == (if isAuto then "(Auto)" else "")
  {
    if custom != "" then custom
    else
      var prefix := PlatformName(platform) + " Sync ";
      var m := prefix + (if isAuto then "(Auto)" else "") + ": " + date;
      assert m[..|prefix|] == prefix;
      assert m[|m| - |": " + date|..] == ": " + date;
      m
  }

  /** A manual sync without a custom message: the marker is empty, leaving two spaces before the colon. */
  lemma ManualDefaultMessage(date: string)
    ensures CommitMessage("overleaf", false, "", date) == "Overleaf Sync : " + date
    ensures CommitMessage("texpage", true, "", date) == "TexPage Sync (Auto): " + date
  {
    assert "Overleaf" + " Sync " + "" + ": " == "Overleaf Sync : ";
    assert "TexPage" + " Sync " + "(Auto)" + ": " == "TexPage Sync (Auto): ";
  }

  /**
   * Change detection after the commit: "no change" only when the new commit
   * can be read, has a parent, the parent can be read, and both share a
   * tree. Any failed read counts as a change.
   */
  function HasChanges(store: map<string, CommitInfo>, sha: string): (changed: bool)
    ensures !changed ==> sha in store && |store[sha].parents| > 0
    ensures !changed ==> store[sha].parents[0] in store && store[store[sha].parents[0]].tree == store[sha].tree
    ensures (sha in store && |store[sha].parents| > 0 && store[sha].parents[0] in store
             && store[store[sha].parents[0]].tree == store[sha].tree) ==> !changed
  {
    if sha !in store then true
    else
      var c := store[sha];
      if |c.parents| == 0 then true
      else if c.parents[0] !in store then true
      else c.tree != store[c.parents[0]].tree
  }

  /** A first commit, or one that cannot be read, always counts as a change. */
  lemma ChangeDetectionFailsOpen(store: map<string, CommitInfo>, sha: string)
    requires sha !in store || store[sha].parents == []
    ensures HasChanges(store, sha)
  {
  }

  /**
   * Whether the new commit counts as a change. Every sync opens a database
   * of its own, named by the clock, and runs a fresh `git init` in it, so on a branch created
   * locally the new commit is the repository's first and has no parent; only
   * after a fetch is the commit read back and compared with its parent.
   */
  function Changed(created: bool, w: World): (changed: bool)
    ensures created ==> changed
    ensures !created ==> (changed <==> HasChanges(w.store, w.commitSha))
  {
    if created then HasChanges(map[w.commitSha := CommitInfo("", [])], w.commitSha)
    else HasChanges(w.store, w.commitSha)
  }

  /** The editor's last-modified time, looked up on the platform's own listing. */
  function PushLocalTime(platform: string, projectId: string, w: World): (t: Timestamp)
    ensures platform == "overleaf" ==> t == OverleafLastUpdated(w.overleafListing, projectId, w.parseDate)
    ensures platform == "texpage" ==> t == TexPageLastUpdated(w.texpageListing, projectId, w.parseDate)
    ensures platform != "overleaf" && platform != "texpage" ==> t == Millis(0)
  {
    if platform == "overleaf" then OverleafLastUpdated(w.overleafListing, projectId, w.parseDate)
    else if platform == "texpage" then TexPageLastUpdated(w.texpageListing, projectId, w.parseDate)
    else Millis(0)
  }

  /** Unpacking into the repository's directory, then `git add` and the commit. */
  function Extracted(platform: string, isAuto: bool, dir: string, s: Settings, w: World): (effects: seq<Effect>)
    ensures forall e :: e in effects ==> e.MakeDir? || e.WriteFile? || e.Commit?
    ensures Commit(CommitMessage(platform, isAuto, s.commitMessage, w.date)) in effects
    ensures Written(effects) == Prefix(dir, FileNames(w.entries))
  {
    var extracted := PushExtraction(dir, w.entries);
    WrittenAppend(extracted, [Commit(CommitMessage(platform, isAuto, s.commitMessage, w.date))]);
    extracted + [Commit(CommitMessage(platform, isAuto, s.commitMessage, w.date))]
  }

  /** After the commit: stop when nothing changed, else force-push through `proxy`. */
  function Delivered(created: bool, w: World, branch: string, proxy: string): (st: Stage)
    ensures (Push(proxy, branch) in st.effects) <==> Changed(created, w)
    ensures forall e :: e in st.effects ==> e == Push(proxy, branch) || e == DropWorkspace
    ensures st.outcome.UpToDate? || st.outcome.Pushed? || st.outcome.Failed?
    ensures st.outcome == UpToDate <==> !Changed(created, w)
    ensures st.outcome == Pushed <==> Changed(created, w) && w.pushError.None?
    ensures st.outcome.Failed? <==> Changed(created, w) && w.pushError.Some?
    ensures st.outcome == UpToDate ==> st.status == Status("No updates found.", InfoTeal)
    ensures st.outcome == Pushed ==> st.status == Status("Success: " + w.time, SuccessGreen)
    ensures st.outcome.Failed? ==> st.status == Status("Error: " + st.outcome.message, ErrorRed)
    ensures (DropWorkspace in st.effects) <==> !st.outcome.Failed?
  {
    if !Changed(created, w) then
      Stage(UpToDate, Status("No updates found.", InfoTeal), [DropWorkspace])
    else
      match w.pushError
      case Some(m) => Failure([Push(proxy, branch)], m)
      case None => Stage(Pushed, Status("Success: " + w.time, SuccessGreen), [Push(proxy, branch), DropWorkspace])
  }

  /** Unpack, commit, detect changes, and push through `proxy` when there are any. */
  function Committed(platform: string, isAuto: bool, dir: string, s: Settings, w: World,
                     created: bool, branch: string, proxy: string): (st: Stage)
    ensures st.outcome == Delivered(created, w, branch, proxy).outcome && st.status == Delivered(created, w, branch, proxy).status
    ensures st.outcome.UpToDate? || st.outcome.Pushed? || st.outcome.Failed?
    ensures (Push(proxy, branch) in st.effects) <==> Changed(created, w)
    ensures forall e :: e in st.effects && e.Push? ==> e == Push(proxy, branch)
    ensures forall e :: e in st.effects ==> !e.Fetch? && !e.Ask? && !e.ListRefs? && !e.ReadProjectTime?
    ensures (DropWorkspace in st.effects) <==> !st.outcome.Failed?
  {
    var rest := Delivered(created, w, branch, proxy);
    Stage(rest.outcome, rest.status, Extracted(platform, isAuto, dir, s, w) + rest.effects)
  }

  /** The files written are the archive's files, under the repository's directory, in archive order. */
  lemma CommittedWritesArchive(platform: string, isAuto: bool, dir: string, s: Settings, w: World,
                               created: bool, branch: string, proxy: string)
    ensures Written(Committed(platform, isAuto, dir, s, w, created, branch, proxy).effects) == Prefix(dir, FileNames(w.entries))
  {
    var rest := Delivered(created, w, branch, proxy);
    NothingWritten(rest.effects);
    WrittenAppend(Extracted(platform, isAuto, dir, s, w), rest.effects);
  }

  /** The question about a newer remote is due: manual sync, known remote time, remote newer. */
  predicate OverwriteDue(isAuto: bool, platform: string, projectId: string, w: World, remoteTime: int) {
    ChecksConflict(isAuto, remoteTime) && RemoteNewer(remoteTime, PushLocalTime(platform, projectId, w))
  }

  /**
   * The effects of the conflict check itself: the editor's time is read on a
   * manual sync with a known remote time (on the two known platforms), and
   * the question is asked when the remote is newer.
   */
  function Consulted(platform: string, isAuto: bool, projectId: string, w: World, remoteTime: int): (effects: seq<Effect>)
    ensures forall e :: e in effects ==> e == ReadProjectTime || e == Ask(OverwriteNewerRemote)
    ensures (Ask(OverwriteNewerRemote) in effects) <==> OverwriteDue(isAuto, platform, projectId, w, remoteTime)
    ensures ReadProjectTime in effects ==> ChecksConflict(isAuto, remoteTime)
  {
    var looked := if ChecksConflict(isAuto, remoteTime) && (platform == "overleaf" || platform == "texpage")
                  then [ReadProjectTime] else [];
    looked + if OverwriteDue(isAuto, platform, projectId, w, remoteTime) then [Ask(OverwriteNewerRemote)] else []
  }

  /** The conflict check and what follows it. */
  function Checked(platform: string, isAuto: bool, projectId: string, s: Settings, w: World,
                   created: bool, branch: string, proxy: string, remoteTime: int): (st: Stage)
    ensures !st.outcome.Skipped? && !st.outcome.Busy?
    ensures (Ask(OverwriteNewerRemote) in st.effects) <==> OverwriteDue(isAuto, platform, projectId, w, remoteTime)
    ensures ReadProjectTime in st.effects ==> ChecksConflict(isAuto, remoteTime)
    ensures st.outcome == Cancelled <==> OverwriteDue(isAuto, platform, projectId, w, remoteTime) && !w.confirmOverwrite
    ensures st.outcome == Cancelled ==> st.status == Status("Push Cancelled", Orange)
    ensures st.outcome == Cancelled ==> forall e :: e in st.effects ==> !e.WriteFile? && !e.Push?
    ensures (Push(proxy, branch) in st.effects) ==> Changed(created, w)
    ensures forall e :: e in st.effects && e.Push? ==> e == Push(proxy, branch)
    ensures forall e :: e in st.effects ==> !e.Fetch? && !e.ListRefs? && !(e.Ask? && e.prompt.SwitchBranch?)
    ensures (DropWorkspace in st.effects) <==> !st.outcome.Failed?
    ensures st.outcome.Failed? ==> st.status == Status("Error: " + st.outcome.message, ErrorRed)
    ensures st.outcome != Cancelled ==>
      st.outcome == Delivered(created, w, branch, proxy).outcome && st.status == Delivered(created, w, branch, proxy).status
  {
    var asked := Consulted(platform, isAuto, projectId, w, remoteTime);
    if OverwriteDue(isAuto, platform, projectId, w, remoteTime) && !w.confirmOverwrite then
      Stage(Cancelled, Status("Push Cancelled", Orange), asked + [DropWorkspace])
    else
      var rest := Committed(platform, isAuto, "/" + projectId, s, w, created, branch, proxy);
      Stage(rest.outcome, rest.status, asked + rest.effects)
  }

  /** Past the conflict check, the files written are the archive's; after a refusal, none are. */
  lemma CheckedWrites(platform: string, isAuto: bool, projectId: string, s: Settings, w: World,
                      created: bool, branch: string, proxy: string, remoteTime: int)
    ensures Checked(platform, isAuto, projectId, s, w, created, branch, proxy, remoteTime).outcome != Cancelled ==>
      Written(Checked(platform, isAuto, projectId, s, w, created, branch, proxy, remoteTime).effects)
        == Prefix("/" + projectId, FileNames(w.entries))
    ensures Checked(platform, isAuto, projectId, s, w, created, branch, proxy, remoteTime).outcome == Cancelled ==>
      Written(Checked(platform, isAuto, projectId, s, w, created, branch, proxy, remoteTime).effects) == []
  {
    var st := Checked(platform, isAuto, projectId, s, w, created, branch, proxy, remoteTime);
    var dir := "/" + projectId;
    if st.outcome == Cancelled {
      NothingWritten(st.effects);
    } else {
      var rest := Committed(platform, isAuto, dir, s, w, created, branch, proxy);
      CommittedWritesArchive(platform, isAuto, dir, s, w, created, branch, proxy);
      var before := st.effects[..|st.effects| - |rest.effects|];
      assert st.effects == before + rest.effects;
      NothingWritten(before);
      WrittenAppend(before, rest.effects);
    }
  }

  /**
   * The archive download and its checks, then the conflict check. The body
   * is unpacked before the times are compared, so an archive the library
   * cannot open fails the push before the editor's time is read.
   */
  function Downloaded(platform: string, isAuto: bool, projectId: string, s: Settings, w: World,
                      created: bool, branch: string, proxy: string, remoteTime: int): (st: Stage)
    ensures !st.outcome.Skipped? && !st.outcome.Busy?
    ensures (Push(proxy, branch) in st.effects) ==> Changed(created, w) && CheckForPush(w.response).Accepted? && w.unzipError.None?
    ensures forall e :: e in st.effects && e.Push? ==> e == Push(proxy, branch)
    ensures forall e :: e in st.effects ==> !e.Fetch? && !e.ListRefs? && !(e.Ask? && e.prompt.SwitchBranch?)
    ensures (Ask(OverwriteNewerRemote) in st.effects) <==>
      CheckForPush(w.response).Accepted? && w.unzipError.None? && OverwriteDue(isAuto, platform, projectId, w, remoteTime)
    ensures ReadProjectTime in st.effects ==> ChecksConflict(isAuto, remoteTime)
    ensures st.outcome == Cancelled <==>
      CheckForPush(w.response).Accepted? && w.unzipError.None? && OverwriteDue(isAuto, platform, projectId, w, remoteTime) && !w.confirmOverwrite
    ensures st.outcome == Cancelled ==> st.status == Status("Push Cancelled", Orange)
    ensures st.outcome == Cancelled ==> forall e :: e in st.effects ==> !e.WriteFile? && !e.Push?
    ensures (DropWorkspace in st.effects) <==> !st.outcome.Failed?
    ensures st.outcome.Failed? ==> st.status == Status("Error: " + st.outcome.message, ErrorRed)
    ensures CheckForPush(w.response).Rejected? ==>
      st == Failure([Download(PushArchiveUrl(platform, projectId, w.pathname, w.page))], CheckForPush(w.response).message)
    ensures CheckForPush(w.response).Accepted? && w.unzipError.Some? ==>
      st == Failure([Download(PushArchiveUrl(platform, projectId, w.pathname, w.page))], w.unzipError.value)
    ensures CheckForPush(w.response).Accepted? && w.unzipError.None? && st.outcome != Cancelled ==>
      st.outcome == Delivered(created, w, branch, proxy).outcome && st.status == Delivered(created, w, branch, proxy).status
  {
    var url := PushArchiveUrl(platform, projectId, w.pathname, w.page);
    match Opened(CheckForPush(w.response), w.unzipError)
    case Rejected(m) => Failure([Download(url)], m)
    case Accepted =>
      var rest := Checked(platform, isAuto, projectId, s, w, created, branch, proxy, remoteTime);
      Stage(rest.outcome, rest.status, [Download(url)] + rest.effects)
  }

  /** Fetch and check out the branch when the remote listed it; otherwise create it locally. */
  function Branched(platform: string, isAuto: bool, projectId: string, s: Settings, w: World,
                    plan: BranchPlan, proxy: string): (st: Stage)
    ensures !st.outcome.Skipped? && !st.outcome.Busy?
    ensures (Fetch(proxy, plan.branch) in st.effects) <==> plan.fetchRemote
    ensures forall e :: e in st.effects && e.Fetch? ==> e == Fetch(proxy, plan.branch)
    ensures !plan.fetchRemote ==> CreateBranch(plan.branch) in st.effects
    ensures !plan.fetchRemote ==> Ask(OverwriteNewerRemote) !in st.effects && ReadProjectTime !in st.effects
    ensures (DropWorkspace in st.effects) <==> !st.outcome.Failed?
    ensures st.outcome.Failed? ==> st.status == Status("Error: " + st.outcome.message, ErrorRed)
  {
    if plan.fetchRemote then Fetched(platform, isAuto, projectId, s, w, plan.branch, proxy)
    else Created(platform, isAuto, projectId, s, w, plan.branch, proxy)
  }

  /**
   * The unlisted branch: create it locally, then download. Git refuses to
   * create a branch whose name is not a valid ref name, and the push fails
   * there. With no fetched tip the remote time is 0, so the conflict check is
   * skipped.
   */
  function Created(platform: string, isAuto: bool, projectId: string, s: Settings, w: World,
                   branch: string, proxy: string): (st: Stage)
    ensures !st.outcome.Skipped? && !st.outcome.Busy?
    ensures CreateBranch(branch) in st.effects
    ensures forall e :: e in st.effects ==> !e.Fetch?
    ensures Ask(OverwriteNewerRemote) !in st.effects && ReadProjectTime !in st.effects
    ensures (DropWorkspace in st.effects) <==> !st.outcome.Failed?
    ensures st.outcome.Failed? ==> st.status == Status("Error: " + st.outcome.message, ErrorRed)
    ensures w.branchError.Some? ==> st == Failure([CreateBranch(branch)], w.branchError.value)
    ensures (Push(proxy, branch) in st.effects) <==>
      w.branchError.None? && CheckForPush(w.response).Accepted? && w.unzipError.None?
    ensures st.outcome == Pushed <==>
      w.branchError.None? && CheckForPush(w.response).Accepted? && w.unzipError.None? && w.pushError.None?
    ensures st.outcome == Pushed ==> st.status == Status("Success: " + w.time, SuccessGreen)
  {
    match w.branchError
    case Some(m) => Failure([CreateBranch(branch)], m)
    case None =>
      var rest := Downloaded(platform, isAuto, projectId, s, w, true, branch, proxy, 0);
      Stage(rest.outcome, rest.status, [CreateBranch(branch)] + rest.effects)
  }

  /** The listed branch: fetch and check it out, then download with the fetched tip's time as the remote time. */
  function Fetched(platform: string, isAuto: bool, projectId: string, s: Settings, w: World,
                   branch: string, proxy: string): (st: Stage)
    ensures !st.outcome.Skipped? && !st.outcome.Busy?
    ensures Fetch(proxy, branch) in st.effects
    ensures forall e :: e in st.effects && e.Fetch? ==> e == Fetch(proxy, branch)
    ensures (DropWorkspace in st.effects) <==> !st.outcome.Failed?
    ensures st.outcome.Failed? ==> st.status == Status("Error: " + st.outcome.message, ErrorRed)
  {
    match w.fetchError
    case Some(m) => Failure([Fetch(proxy, branch)], m)
    case None =>
      var rest := Downloaded(platform, isAuto, projectId, s, w, false, branch, proxy, RemoteTime(w.commitSeconds));
      Stage(rest.outcome, rest.status, [Fetch(proxy, branch), Checkout(branch)] + rest.effects)
  }

  /**
   * From the branch step on: a push happens only for a commit with changes
   * and an accepted archive, through `proxy` to the settled branch; only a
   * manual sync reads the editor's time or asks about a newer remote; a
   * cancellation follows a refusal and writes and pushes nothing.
   */
  lemma BranchedPushSafety(platform: string, isAuto: bool, projectId: string, s: Settings, w: World,
                           plan: BranchPlan, proxy: string)
    ensures var st := Branched(platform, isAuto, projectId, s, w, plan, proxy);
      ((Push(proxy, plan.branch) in st.effects) ==>
         Changed(!plan.fetchRemote, w) && CheckForPush(w.response).Accepted? && w.unzipError.None?)
      && (forall e :: e in st.effects && e.Push? ==> e == Push(proxy, plan.branch))
      && (forall e :: e in st.effects ==> !e.ListRefs? && !(e.Ask? && e.prompt.SwitchBranch?))
    ensures var st := Branched(platform, isAuto, projectId, s, w, plan, proxy);
      ((Ask(OverwriteNewerRemote) in st.effects) ==> !isAuto)
      && (ReadProjectTime in st.effects ==> !isAuto)
    ensures var st := Branched(platform, isAuto, projectId, s, w, plan, proxy);
      st.outcome == Cancelled ==>
        (Ask(OverwriteNewerRemote) in st.effects) && !w.confirmOverwrite
        && st.status == Status("Push Cancelled", Orange)
        && (forall e :: e in st.effects ==> !e.WriteFile? && !e.Push?)
  {
    if plan.fetchRemote && w.fetchError.None? {
      var rest := Downloaded(platform, isAuto, projectId, s, w, false, plan.branch, proxy, RemoteTime(w.commitSeconds));
      assert Branched(platform, isAuto, projectId, s, w, plan, proxy).effects
          == [Fetch(proxy, plan.branch), Checkout(plan.branch)] + rest.effects;
    } else if !plan.fetchRemote && w.branchError.None? {
      var rest := Downloaded(platform, isAuto, projectId, s, w, true, plan.branch, proxy, 0);
      assert Branched(platform, isAuto, projectId, s, w, plan, proxy).effects == [CreateBranch(plan.branch)] + rest.effects;
    }
  }

  /** The proxy list and the failover result for these settings. */
  function Selected(s: Settings, w: World): (sel: Selection) {
    SelectProxy(Candidates(s.customProxy), w.probe)
  }

  /** The proxy every later request uses: the winner, or the first candidate when none answered. */
  function Active(s: Settings, w: World): (proxy: string)
    ensures Selected(s, w).winner.Some? ==> proxy == Selected(s, w).winner.value
    ensures Selected(s, w).winner.None? ==> proxy == Candidates(s.customProxy)[0]
  {
    ActiveProxy(Candidates(s.customProxy), Selected(s, w))
  }

  /** How the configured branch is settled against the refs the winning proxy listed. */
  function Plan(s: Settings, w: World): BranchPlan {
    ResolveBranch(s.branch, Selected(s, w).refs, w.confirmSwitch)
  }

  /** Opening the repository, the proxy failover, and the branch question when one is due. */
  function Opening(projectId: string, s: Settings, w: World): (effects: seq<Effect>)
    ensures forall e :: e in effects ==> e.OpenRepo? || e.ListRefs? || (e.Ask? && e.prompt.SwitchBranch?)
    ensures (Ask(SwitchBranch(s.branch, Alternate(s.branch))) in effects) <==> Plan(s, w).asked
  {
    [OpenRepo("/" + projectId, s.repo)]
    + (ListAll(Selected(s, w).tried)
       + if Plan(s, w).asked then [Ask(SwitchBranch(s.branch, Alternate(s.branch)))] else [])
  }

  /** The opening opens the repository first, then lists refs through each proxy tried, in order. */
  lemma OpeningTriesInOrder(projectId: string, s: Settings, w: World)
    ensures |Opening(projectId, s, w)| >= 1 + |Selected(s, w).tried|
    ensures Opening(projectId, s, w)[0] == OpenRepo("/" + projectId, s.repo)
    ensures forall i :: 0 <= i < |Selected(s, w).tried| ==>
      Opening(projectId, s, w)[1 + i] == ListRefs(Selected(s, w).tried[i])
  {
    var tried := Selected(s, w).tried;
    var asked := if Plan(s, w).asked then [Ask(SwitchBranch(s.branch, Alternate(s.branch)))] else [];
    ListedInOrder([OpenRepo("/" + projectId, s.repo)], ListAll(tried), asked, tried);
  }

  /** Indexing through a one-element front part and into the middle part. */
  lemma ListedInOrder(front: seq<Effect>, listed: seq<Effect>, after: seq<Effect>, tried: seq<string>)
    requires |front| == 1 && |listed| == |tried|
    requires forall i :: 0 <= i < |tried| ==> listed[i] == ListRefs(tried[i])
    ensures |front + (listed + after)| >= 1 + |tried|
    ensures (front + (listed + after))[0] == front[0]
    ensures forall i :: 0 <= i < |tried| ==> (front + (listed + after))[1 + i] == ListRefs(tried[i])
  {
  }

  /** Everything inside the `try` block. */
  function Attempt(platform: string, isAuto: bool, projectId: string, s: Settings, w: World): (st: Stage)
    ensures !st.outcome.Skipped? && !st.outcome.Busy?
    ensures !w.libraries ==> st == Failure([], "Libs missing")
    ensures w.libraries ==> st.outcome == Branched(platform, isAuto, projectId, s, w, Plan(s, w), Active(s, w)).outcome
    ensures w.libraries ==>
      st.effects == Opening(projectId, s, w) + Branched(platform, isAuto, projectId, s, w, Plan(s, w), Active(s, w)).effects
    ensures (DropWorkspace in st.effects) <==> !st.outcome.Failed?
    ensures st.outcome.Failed? ==> st.status == Status("Error: " + st.outcome.message, ErrorRed)
  {
    if !w.libraries then Failure([], "Libs missing")
    else
      var rest := Branched(platform, isAuto, projectId, s, w, Plan(s, w), Active(s, w));
      Stage(rest.outcome, rest.status, Opening(projectId, s, w) + rest.effects)
  }
  /**
   * `performSync(isAuto)`: the two guards, the settings save, then the
   * attempt. The in-progress flag is cleared on every path past the guards.
   */
  function Sync(syncing: bool, isAuto: bool, platform: string, projectId: string, s: Settings, w: World): (run: Run)
    ensures (s.repo == "" || s.token == "") ==>
      run == Run(Skipped, if isAuto then None else Some(Status("Missing Repo/Token", Red)), [], syncing)
    ensures s.repo != "" && s.token != "" && syncing ==> run == Run(Busy, None, [], true)
    ensures s.repo != "" && s.token != "" && !syncing ==>
      !run.syncing && run.status.Some? && run.effects != [] && run.effects[0] == SaveSettings(StorageKey(projectId))
    ensures run.outcome.Skipped? || run.outcome.Busy? ==> run.effects == []
    ensures (DropWorkspace in run.effects) <==> run.outcome.Cancelled? || run.outcome.UpToDate? || run.outcome.Pushed?
  {
    if s.repo == "" || s.token == "" then
      Run(Skipped, if isAuto then None else Some(Status("Missing Repo/Token", Red)), [], syncing)
    else if syncing then Run(Busy, None, [], true)
    else
      var st := Attempt(platform, isAuto, projectId, s, w);
      Run(st.outcome, Some(st.status), [SaveSettings(StorageKey(projectId))] + st.effects, false)
  }

  /** The kinds of effect a sync has before its branch step. */
  predicate Preliminary(e: Effect) {
    e.SaveSettings? || e.OpenRepo? || e.ListRefs? || (e.Ask? && e.prompt.SwitchBranch?)
  }

  /** What a started sync does before the branch step: save the settings, then open the repository. */
  function Head(projectId: string, s: Settings, w: World): (effects: seq<Effect>)
    ensures forall e :: e in effects ==> Preliminary(e)
    ensures |effects| >= 1 && effects[0] == SaveSettings(StorageKey(projectId))
  {
    [SaveSettings(StorageKey(projectId))] + Opening(projectId, s, w)
  }

  /** Past both guards with the libraries loaded, the trace is the save, the opening, then the branch step. */
  lemma SyncSplits(syncing: bool, isAuto: bool, platform: string, projectId: string, s: Settings, w: World)
    requires s.repo != "" && s.token != "" && !syncing && w.libraries
    ensures Sync(syncing, isAuto, platform, projectId, s, w).effects
         == [SaveSettings(StorageKey(projectId))] + Opening(projectId, s, w)
            + Branched(platform, isAuto, projectId, s, w, Plan(s, w), Active(s, w)).effects
    ensures Sync(syncing, isAuto, platform, projectId, s, w).effects
         == Head(projectId, s, w) + Branched(platform, isAuto, projectId, s, w, Plan(s, w), Active(s, w)).effects
    ensures Sync(syncing, isAuto, platform, projectId, s, w).outcome
         == Branched(platform, isAuto, projectId, s, w, Plan(s, w), Active(s, w)).outcome
  {
    var st := Attempt(platform, isAuto, projectId, s, w);
    var rest := Branched(platform, isAuto, projectId, s, w, Plan(s, w), Active(s, w));
    assert st.effects == Opening(projectId, s, w) + rest.effects;
    ConcatAssoc([SaveSettings(StorageKey(projectId))], Opening(projectId, s, w), rest.effects);
  }

  /** The preliminary steps neither push, fetch, write, read the editor's time, nor ask about a newer remote. */
  lemma AfterPreliminaries(trace: seq<Effect>, head: seq<Effect>, tail: seq<Effect>)
    requires trace == head + tail
    requires forall e :: e in head ==> Preliminary(e)
    ensures forall e :: e in trace && (e.Push? || e.Fetch? || e.WriteFile?) ==> e in tail
    ensures Ask(OverwriteNewerRemote) in trace <==> Ask(OverwriteNewerRemote) in tail
    ensures ReadProjectTime in trace <==> ReadProjectTime in tail
  {
  }

  /**
   * The push is the guarded end of the pipeline: it happens only past both
   * guards, with the libraries loaded, for a commit with changes and an
   * accepted archive, and only through the selected proxy to the settled
   * branch.
   */
  lemma SyncPushSafety(syncing: bool, isAuto: bool, platform: string, projectId: string, s: Settings, w: World)
    ensures var run := Sync(syncing, isAuto, platform, projectId, s, w);
      (exists e :: e in run.effects && e.Push?) ==>
        s.repo != "" && s.token != "" && !syncing && w.libraries
        && Changed(!Plan(s, w).fetchRemote, w) && CheckForPush(w.response).Accepted? && w.unzipError.None?
    ensures var run := Sync(syncing, isAuto, platform, projectId, s, w);
      forall e :: e in run.effects && e.Push? ==> e == Push(Active(s, w), Plan(s, w).branch)
    ensures PinnedTo(Sync(syncing, isAuto, platform, projectId, s, w).effects, Active(s, w))
  {
    if s.repo != "" && s.token != "" && !syncing && w.libraries {
      StartedPushSafety(syncing, isAuto, platform, projectId, s, w);
    }
  }

  /** `SyncPushSafety` for a sync that got past both guards with the libraries loaded. */
  lemma StartedPushSafety(syncing: bool, isAuto: bool, platform: string, projectId: string, s: Settings, w: World)
    requires s.repo != "" && s.token != "" && !syncing && w.libraries
    ensures var run := Sync(syncing, isAuto, platform, projectId, s, w);
      (exists e :: e in run.effects && e.Push?) ==>
        Changed(!Plan(s, w).fetchRemote, w) && CheckForPush(w.response).Accepted? && w.unzipError.None?
    ensures var run := Sync(syncing, isAuto, platform, projectId, s, w);
      forall e :: e in run.effects && e.Push? ==> e == Push(Active(s, w), Plan(s, w).branch)
    ensures PinnedTo(Sync(syncing, isAuto, platform, projectId, s, w).effects, Active(s, w))
  {
    var plan := Plan(s, w);
    var proxy := Active(s, w);
    var st := Branched(platform, isAuto, projectId, s, w, plan, proxy);
    SyncSplits(syncing, isAuto, platform, projectId, s, w);
    BranchedPushSafety(platform, isAuto, projectId, s, w, plan, proxy);
    AfterPreliminaries(Sync(syncing, isAuto, platform, projectId, s, w).effects, Head(projectId, s, w), st.effects);
  }

  /**
   * An automatic sync never reads the editor's time or asks about a newer
   * remote; a cancellation writes and pushes nothing.
   */
  lemma SyncConsent(syncing: bool, isAuto: bool, platform: string, projectId: string, s: Settings, w: World)
    ensures var run := Sync(syncing, isAuto, platform, projectId, s, w);
      isAuto ==> Ask(OverwriteNewerRemote) !in run.effects && ReadProjectTime !in run.effects
    ensures var run := Sync(syncing, isAuto, platform, projectId, s, w);
      run.outcome == Cancelled ==> forall e :: e in run.effects ==> !e.WriteFile? && !e.Push?
  {
    if s.repo != "" && s.token != "" && !syncing && w.libraries {
      StartedConsent(syncing, isAuto, platform, projectId, s, w);
    }
  }

  /** `SyncConsent` for a sync that got past both guards with the libraries loaded. */
  lemma StartedConsent(syncing: bool, isAuto: bool, platform: string, projectId: string, s: Settings, w: World)
    requires s.repo != "" && s.token != "" && !syncing && w.libraries
    ensures var run := Sync(syncing, isAuto, platform, projectId, s, w);
      isAuto ==> Ask(OverwriteNewerRemote) !in run.effects && ReadProjectTime !in run.effects
    ensures var run := Sync(syncing, isAuto, platform, projectId, s, w);
      run.outcome == Cancelled ==> forall e :: e in run.effects ==> !e.WriteFile? && !e.Push?
  {
    var plan := Plan(s, w);
    var proxy := Active(s, w);
    var st := Branched(platform, isAuto, projectId, s, w, plan, proxy);
    SyncSplits(syncing, isAuto, platform, projectId, s, w);
    BranchedPushSafety(platform, isAuto, projectId, s, w, plan, proxy);
    AfterPreliminaries(Sync(syncing, isAuto, platform, projectId, s, w).effects, Head(projectId, s, w), st.effects);
  }

  /**
   * The branch is fetched exactly when the remote lists the configured
   * branch. When it lists only the alternate and the user agrees to switch,
   * the alternate is created locally: nothing is fetched, and the editor's
   * time is neither read nor compared.
   */
  lemma SyncBranchHandling(syncing: bool, isAuto: bool, platform: string, projectId: string, s: Settings, w: World)
    requires s.repo != "" && s.token != "" && !syncing && w.libraries
    ensures var run := Sync(syncing, isAuto, platform, projectId, s, w);
      (Fetch(Active(s, w), s.branch) in run.effects) <==> HeadRef(s.branch) in Selected(s, w).refs
    ensures var run := Sync(syncing, isAuto, platform, projectId, s, w);
      (HeadRef(s.branch) !in Selected(s, w).refs && HeadRef(Alternate(s.branch)) in Selected(s, w).refs
       && w.confirmSwitch) ==>
        Ask(SwitchBranch(s.branch, Alternate(s.branch))) in run.effects
        && CreateBranch(Alternate(s.branch)) in run.effects
        && (forall e :: e in run.effects ==> !e.Fetch?)
        && ReadProjectTime !in run.effects && Ask(OverwriteNewerRemote) !in run.effects
  {
    SyncFetchesListedBranch(syncing, isAuto, platform, projectId, s, w);
    if HeadRef(s.branch) !in Selected(s, w).refs && HeadRef(Alternate(s.branch)) in Selected(s, w).refs && w.confirmSwitch {
      SyncCreatesAlternate(syncing, isAuto, platform, projectId, s, w);
    }
  }

  /** The configured branch is fetched exactly when the remote lists it. */
  lemma SyncFetchesListedBranch(syncing: bool, isAuto: bool, platform: string, projectId: string, s: Settings, w: World)
    requires s.repo != "" && s.token != "" && !syncing && w.libraries
    ensures (Fetch(Active(s, w), s.branch) in Sync(syncing, isAuto, platform, projectId, s, w).effects)
        <==> HeadRef(s.branch) in Selected(s, w).refs
  {
    var plan := Plan(s, w);
    var st := Branched(platform, isAuto, projectId, s, w, plan, Active(s, w));
    SyncSplits(syncing, isAuto, platform, projectId, s, w);
    AfterPreliminaries(Sync(syncing, isAuto, platform, projectId, s, w).effects, Head(projectId, s, w), st.effects);
    if HeadRef(s.branch) in Selected(s, w).refs {
      assert plan.branch == s.branch;
    }
  }

  /** An agreed switch settles on the alternate, which is not fetched. */
  lemma SwitchPlan(s: Settings, w: World)
    requires HeadRef(s.branch) !in Selected(s, w).refs && HeadRef(Alternate(s.branch)) in Selected(s, w).refs
    requires w.confirmSwitch
    ensures Plan(s, w).asked && Plan(s, w).branch == Alternate(s.branch) && !Plan(s, w).fetchRemote
  {
  }

  /** A local branch creation ahead of no fetch and no time check survives the preliminary steps before it. */
  lemma CreatedLocally(trace: seq<Effect>, head: seq<Effect>, tail: seq<Effect>, branch: string)
    requires trace == head + tail
    requires forall e :: e in head ==> Preliminary(e)
    requires CreateBranch(branch) in tail
    requires forall e :: e in tail ==> !e.Fetch?
    requires ReadProjectTime !in tail && Ask(OverwriteNewerRemote) !in tail
    ensures CreateBranch(branch) in trace
    ensures forall e :: e in trace ==> !e.Fetch?
    ensures ReadProjectTime !in trace && Ask(OverwriteNewerRemote) !in trace
  {
  }

  /** After an agreed switch to the alternate, it is created locally and no remote state is consulted. */
  lemma SyncCreatesAlternate(syncing: bool, isAuto: bool, platform: string, projectId: string, s: Settings, w: World)
    requires s.repo != "" && s.token != "" && !syncing && w.libraries
    requires HeadRef(s.branch) !in Selected(s, w).refs && HeadRef(Alternate(s.branch)) in Selected(s, w).refs
    requires w.confirmSwitch
    ensures var run := Sync(syncing, isAuto, platform, projectId, s, w);
      Ask(SwitchBranch(s.branch, Alternate(s.branch))) in run.effects
      && CreateBranch(Alternate(s.branch)) in run.effects
      && (forall e :: e in run.effects ==> !e.Fetch?)
      && ReadProjectTime !in run.effects && Ask(OverwriteNewerRemote) !in run.effects
  {
    SwitchPlan(s, w);
    var plan := Plan(s, w);
    var st := Branched(platform, isAuto, projectId, s, w, plan, Active(s, w));
    SyncSplits(syncing, isAuto, platform, projectId, s, w);
    CreatedLocally(Sync(syncing, isAuto, platform, projectId, s, w).effects, Head(projectId, s, w), st.effects, plan.branch);
    assert Ask(SwitchBranch(s.branch, Alternate(s.branch))) in Opening(projectId, s, w);
  }

  /**
   * A remote that lists no branches (an empty repository, or no proxy
   * answered): the branch is created locally, its first commit always counts
   * as a change, and when git accepts the branch name, the archive is
   * readable and the push succeeds, the sync ends green with the local time.
   */
  lemma EmptyRemoteIsCreatedAndPushed(syncing: bool, isAuto: bool, platform: string, projectId: string,
                                      s: Settings, w: World)
    requires s.repo != "" && s.token != "" && !syncing && w.libraries
    requires Selected(s, w).refs == [] && w.branchError.None?
    requires CheckForPush(w.response).Accepted? && w.unzipError.None? && w.pushError.None?
    ensures var run := Sync(syncing, isAuto, platform, projectId, s, w);
      run.outcome == Pushed && run.status == Some(Status("Success: " + w.time, SuccessGreen))
      && CreateBranch(s.branch) in run.effects && Push(Active(s, w), s.branch) in run.effects
      && (forall e :: e in run.effects ==> !e.Fetch?)
      && ReadProjectTime !in run.effects && Ask(OverwriteNewerRemote) !in run.effects
  {
    var plan := Plan(s, w);
    assert !plan.fetchRemote && plan.branch == s.branch;
    var st := Created(platform, isAuto, projectId, s, w, s.branch, Active(s, w));
    assert st == Branched(platform, isAuto, projectId, s, w, plan, Active(s, w));
    var trace := Sync(syncing, isAuto, platform, projectId, s, w).effects;
    SyncSplits(syncing, isAuto, platform, projectId, s, w);
    CreatedLocally(trace, Head(projectId, s, w), st.effects, s.branch);
    assert Push(Active(s, w), s.branch) in trace by {
      assert trace == Head(projectId, s, w) + st.effects;
    }
  }

  /**
   * A body that passes the status and size checks but is not a ZIP archive:
   * the push fails with the library's error before the editor's time is read
   * or anything is written or pushed.
   */
  lemma UnreadableArchiveFails(syncing: bool, isAuto: bool, platform: string, projectId: string,
                               s: Settings, w: World)
    requires s.repo != "" && s.token != "" && !syncing && w.libraries
    requires Plan(s, w).fetchRemote ==> w.fetchError.None?
    requires !Plan(s, w).fetchRemote ==> w.branchError.None?
    requires CheckForPush(w.response).Accepted? && w.unzipError.Some?
    ensures var run := Sync(syncing, isAuto, platform, projectId, s, w);
      run.outcome == Failed(w.unzipError.value) && run.status == Some(Status("Error: " + w.unzipError.value, ErrorRed))
      && (forall e :: e in run.effects ==> !e.WriteFile? && !e.Push? && e != ReadProjectTime && e != DropWorkspace)
      && Ask(OverwriteNewerRemote) !in run.effects
  {
    var plan := Plan(s, w);
    var st := Branched(platform, isAuto, projectId, s, w, plan, Active(s, w));
    BranchedUnreadable(platform, isAuto, projectId, s, w, plan, Active(s, w));
    SyncSplits(syncing, isAuto, platform, projectId, s, w);
    AfterPreliminaries(Sync(syncing, isAuto, platform, projectId, s, w).effects, Head(projectId, s, w), st.effects);
  }

  /** `UnreadableArchiveFails` from the branch step on: the trace ends at the download. */
  lemma BranchedUnreadable(platform: string, isAuto: bool, projectId: string, s: Settings, w: World,
                           plan: BranchPlan, proxy: string)
    requires plan.fetchRemote ==> w.fetchError.None?
    requires !plan.fetchRemote ==> w.branchError.None?
    requires CheckForPush(w.response).Accepted? && w.unzipError.Some?
    ensures var st := Branched(platform, isAuto, projectId, s, w, plan, proxy);
      st.outcome == Failed(w.unzipError.value) && st.status == Status("Error: " + w.unzipError.value, ErrorRed)
      && (forall e :: e in st.effects ==> !e.WriteFile? && !e.Push? && e != ReadProjectTime && e != DropWorkspace)
      && Ask(OverwriteNewerRemote) !in st.effects
  {
    var url := Download(PushArchiveUrl(platform, projectId, w.pathname, w.page));
    if plan.fetchRemote {
      var rest := Downloaded(platform, isAuto, projectId, s, w, false, plan.branch, proxy, RemoteTime(w.commitSeconds));
      assert rest == Failure([url], w.unzipError.value);
      assert Branched(platform, isAuto, projectId, s, w, plan, proxy).effects
          == [Fetch(proxy, plan.branch), Checkout(plan.branch), url];
    } else {
      var rest := Downloaded(platform, isAuto, projectId, s, w, true, plan.branch, proxy, 0);
      assert rest == Failure([url], w.unzipError.value);
      assert Branched(platform, isAuto, projectId, s, w, plan, proxy).effects == [CreateBranch(plan.branch), url];
    }
  }

  /**
   * A branch name git rejects (one with a space, say) on a remote that does
   * not list it: the push fails at the branch creation, before the archive is
   * downloaded, and nothing is written or pushed.
   */
  lemma RejectedBranchNameFails(syncing: bool, isAuto: bool, platform: string, projectId: string,
                                s: Settings, w: World)
    requires s.repo != "" && s.token != "" && !syncing && w.libraries
    requires !Plan(s, w).fetchRemote && w.branchError.Some?
    ensures var run := Sync(syncing, isAuto, platform, projectId, s, w);
      run.outcome == Failed(w.branchError.value) && run.status == Some(Status("Error: " + w.branchError.value, ErrorRed))
      && CreateBranch(Plan(s, w).branch) in run.effects
      && (forall e :: e in run.effects ==> !e.Download? && !e.WriteFile? && !e.Push? && !e.Fetch?)
  {
    var plan := Plan(s, w);
    var st := Branched(platform, isAuto, projectId, s, w, plan, Active(s, w));
    assert st == Failure([CreateBranch(plan.branch)], w.branchError.value);
    SyncSplits(syncing, isAuto, platform, projectId, s, w);
    assert forall e :: e in Head(projectId, s, w) ==> !e.Download?;
    assert Sync(syncing, isAuto, platform, projectId, s, w).effects == Head(projectId, s, w) + [CreateBranch(plan.branch)];
  }
}
