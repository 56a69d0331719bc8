/**
 * The pull ("review remote changes") operation: connect to the remote
 * through the first working proxy, fetch and check out the configured
 * branch into `/remote`, download the editor's archive into `/local`, ask
 * before comparing when the editor's copy is newer, and hand the list of
 * differences to the review panel.
 *
 * Every outside call is an oracle field of `World`. The operation's
 * observable result is its outcome, the final status line and the trace of
 * effects.
 */
module Pull {
  import opened Base
  import opened Identity
  import opened Transport
  import opened Effects
  import opened Workspace
  import opened Download
  import opened Reconcile
  import opened Timing

  /** The panel's fields, trimmed. */
  datatype Settings = Settings(repo: string, branch: string, username: string, token: string, customProxy: string)

  /** What the outside world answers during one pull. */
  datatype World = World(
    diffLibrary: bool,                       // the patch library is loaded
    probe: map<string, seq<string>>,         // proxy -> refs it lists; absent proxies fail
    fetchError: Option<string>,              // the fetch's error message, if it throws
    commitSeconds: Option<int>,              // committer time of the fetched tip, if readable
    pathname: string,
    page: PageKeys,
    response: Response,
    unzipError: Option<string>,              // the archive library's error when the body is not a ZIP
    entries: seq<Entry>,                     // the unpacked archive
    listing: Option<seq<ListedProject>>,     // the editor's project list, if it loads
    parseDate: string -> Timestamp,
    confirmPull: bool,                       // the answer to "local version is newer"
    remoteFiles: seq<string>,                // files tracked in the checkout
    remoteTree: map<string, string>,         // their readable contents
    patch: PatchFn)

  datatype Outcome = NotStarted | Cancelled | Failed(message: string) | Review(changes: seq<Change>)

  datatype Run = Run(outcome: Outcome, status: Status, effects: seq<Effect>)

  const ConnectError := "Cannot connect to remote (Network/Proxy Error)"
  const NoUrlError := "Cannot determine download URL"

  /** An error thrown inside the operation ends it with a red "Pull Error" status. */
  function Failure(effects: seq<Effect>, message: string): (run: Run)
    ensures run.outcome == Failed(message)
    ensures run.status == Status("Pull Error: " + message, Red)
    ensures run.effects == effects
  {
    Run(Failed(message), Status("Pull Error: " + message, Red), effects)
  }

  /** The editor's last-modified time as the pull reads it: always through Overleaf's lookup. */
  function LocalTime(projectId: string, w: World): Timestamp {
    OverleafLastUpdated(w.listing, projectId, w.parseDate)
  }

  /** Unpacking into `/local` and comparing, once the user has not objected. */
  function Compared(w: World, before: seq<Effect>): (run: Run)
    requires forall e :: e in before ==> !e.WriteFile?
    ensures run.outcome == Review(Classify(w.remoteFiles, w.remoteTree, LocalTree(w.entries), w.patch))
    ensures run.status == Status("Review changes", Black)
    ensures Written(run.effects) == Prefix("/local", FileNames(w.entries))
    ensures forall e :: e in run.effects ==> e in before || e.MakeDir? || e.WriteFile?
  {
    NothingWritten(before);
    WrittenAppend(before, PullExtraction(w.entries));
    Run(Review(Classify(w.remoteFiles, w.remoteTree, LocalTree(w.entries), w.patch)),
        Status("Review changes", Black), before + PullExtraction(w.entries))
  }

  /** After the checkout: find the archive, download it, read the editor's time, maybe ask, compare. */
  function AfterCheckout(platform: string, projectId: string, w: World): (run: Run)
    ensures forall e :: e in run.effects ==> !e.Fetch? && !e.Push? && !e.ListRefs?
    ensures run.outcome.NotStarted? == false
    ensures (Ask(PullOverNewerLocal) in run.effects) ==> LocalNewer(LocalTime(projectId, w), RemoteTime(w.commitSeconds))
    ensures run.outcome.Cancelled? <==>
      PullArchiveUrl(platform, projectId, w.pathname, w.page).Some? && CheckForPull(w.response).Accepted?
      && w.unzipError.None? && LocalNewer(LocalTime(projectId, w), RemoteTime(w.commitSeconds)) && !w.confirmPull
    ensures run.outcome.Cancelled? ==> Written(run.effects) == [] && run.status == Status("Cancelled", Orange)
    ensures (DropWorkspace in run.effects) <==> run.outcome.Cancelled?
    ensures run.outcome.Review? ==> Written(run.effects) == Prefix("/local", FileNames(w.entries))
    ensures run.outcome.Review? ==>
      run.outcome == Review(Classify(w.remoteFiles, w.remoteTree, LocalTree(w.entries), w.patch))
      && run.status == Status("Review changes", Black)
    ensures run.outcome.Failed? ==> run.status == Status("Pull Error: " + run.outcome.message, Red)
    ensures run.outcome.Failed? ==> (forall e :: e in run.effects ==> !e.WriteFile? && !e.Ask?)
    ensures PullArchiveUrl(platform, projectId, w.pathname, w.page).Some? && CheckForPull(w.response).Accepted?
            && w.unzipError.Some? ==>
      run == Failure([Download(PullArchiveUrl(platform, projectId, w.pathname, w.page).value)], w.unzipError.value)
  {
    match PullArchiveUrl(platform, projectId, w.pathname, w.page)
    case None => Failure([], NoUrlError)
    case Some(url) =>
      match Opened(CheckForPull(w.response), w.unzipError)
      case Rejected(m) => Failure([Download(url)], m)
      case Accepted => Gated(projectId, w, url)
  }

  /** With the archive in hand: read the editor's time, ask when it is newer, then compare unless told not to. */
  function Gated(projectId: string, w: World, url: string): (run: Run)
    ensures forall e :: e in run.effects ==> !e.Fetch? && !e.Push? && !e.ListRefs?
    ensures run.outcome.Cancelled? || run.outcome.Review?
    ensures (Ask(PullOverNewerLocal) in run.effects) <==> LocalNewer(LocalTime(projectId, w), RemoteTime(w.commitSeconds))
    ensures run.outcome.Cancelled? <==> LocalNewer(LocalTime(projectId, w), RemoteTime(w.commitSeconds)) && !w.confirmPull
    ensures run.outcome.Cancelled? ==> Written(run.effects) == [] && run.status == Status("Cancelled", Orange)
    ensures (DropWorkspace in run.effects) <==> run.outcome.Cancelled?
    ensures run.outcome.Review? ==> Written(run.effects) == Prefix("/local", FileNames(w.entries))
    ensures run.outcome.Review? ==>
      run.outcome == Review(Classify(w.remoteFiles, w.remoteTree, LocalTree(w.entries), w.patch))
      && run.status == Status("Review changes", Black)
  {
    if LocalNewer(LocalTime(projectId, w), RemoteTime(w.commitSeconds)) then Prompted(w, url)
    else Compared(w, [Download(url), ReadProjectTime])
  }

  /** The editor's copy is newer: ask, then cancel on a no or compare on a yes. */
  function Prompted(w: World, url: string): (run: Run)
    ensures forall e :: e in run.effects ==> !e.Fetch? && !e.Push? && !e.ListRefs?
    ensures run.outcome.Cancelled? || run.outcome.Review?
    ensures Ask(PullOverNewerLocal) in run.effects
    ensures run.outcome.Cancelled? <==> !w.confirmPull
    ensures run.outcome.Cancelled? ==> Written(run.effects) == [] && run.status == Status("Cancelled", Orange)
    ensures (DropWorkspace in run.effects) <==> run.outcome.Cancelled?
    ensures run.outcome.Review? ==> Written(run.effects) == Prefix("/local", FileNames(w.entries))
    ensures run.outcome.Review? ==>
      run.outcome == Review(Classify(w.remoteFiles, w.remoteTree, LocalTree(w.entries), w.patch))
      && run.status == Status("Review changes", Black)
  {
    var asked := [Download(url), ReadProjectTime, Ask(PullOverNewerLocal)];
    if !w.confirmPull then
      var effects := asked + [DropWorkspace];
      NothingWritten(effects);
      Run(Cancelled, Status("Cancelled", Orange), effects)
    else Compared(w, asked)
  }

  /** After a proxy listed refs: fetch through it, check out, then continue with the archive. */
  function Connected(platform: string, projectId: string, s: Settings, w: World, proxy: string): (run: Run)
    ensures forall e :: e in run.effects ==> !e.Push? && !e.ListRefs?
    ensures PinnedTo(run.effects, proxy)
    ensures (Ask(PullOverNewerLocal) in run.effects) ==> LocalNewer(LocalTime(projectId, w), RemoteTime(w.commitSeconds))
    ensures run.outcome.Cancelled? ==>
      !w.confirmPull && Written(run.effects) == [] && LocalNewer(LocalTime(projectId, w), RemoteTime(w.commitSeconds))
    ensures (DropWorkspace in run.effects) <==> run.outcome.Cancelled?
    ensures run.outcome.Review? ==>
      run.outcome.changes == Classify(w.remoteFiles, w.remoteTree, LocalTree(w.entries), w.patch)
      && Written(run.effects) == Prefix("/local", FileNames(w.entries))
    ensures run.outcome.Failed? ==> run.status == Status("Pull Error: " + run.outcome.message, Red)
    ensures run.outcome.Failed? ==> Written(run.effects) == [] && Ask(PullOverNewerLocal) !in run.effects
    ensures !run.outcome.NotStarted?
    ensures (w.fetchError.None? && PullArchiveUrl(platform, projectId, w.pathname, w.page).Some?
             && CheckForPull(w.response).Accepted? && w.unzipError.None?) ==>
      ((Ask(PullOverNewerLocal) in run.effects) <==> LocalNewer(LocalTime(projectId, w), RemoteTime(w.commitSeconds)))
      && (run.outcome.Cancelled? <==> LocalNewer(LocalTime(projectId, w), RemoteTime(w.commitSeconds)) && !w.confirmPull)
      && (run.outcome.Cancelled? || run.outcome.Review?)
  {
    if w.fetchError.Some? then
      var effects := [Fetch(proxy, s.branch)];
      NothingWritten(effects);
      Failure(effects, w.fetchError.value)
    else
      var checkedOut := [Fetch(proxy, s.branch), Checkout(s.branch), MakeDir("/local")];
      var rest := AfterCheckout(platform, projectId, w);
      NothingWritten(checkedOut);
      WrittenAppend(checkedOut, rest.effects);
      var run := Run(rest.outcome, rest.status, checkedOut + rest.effects);
      if rest.outcome.Failed? then NothingWritten(rest.effects); run else run
  }

  /** Opening the checkout, then the proxy failover's ref listings. */
  function Opening(s: Settings, w: World): (effects: seq<Effect>)
    ensures forall e :: e in effects ==> e.OpenRepo? || e.ListRefs?
  {
    [OpenRepo("/remote", s.repo)] + ListAll(SelectProxy(Candidates(s.customProxy), w.probe).tried)
  }

  /** `GitPull.perform(platform, projectId)`. */
  function Perform(platform: string, projectId: string, s: Settings, w: World): (run: Run)
    // missing configuration: a red status and nothing else
    ensures s.repo == "" || s.token == "" ==> run == Run(NotStarted, Status("Missing Repo/Token", Red), [])
    ensures s.repo != "" && s.token != "" && !w.diffLibrary ==>
      run == Run(NotStarted, Status("Error: Diff library not found.", Red), [])
    ensures run.outcome.NotStarted? ==> run.effects == []
    // every proxy failed: abort before fetching anything
    ensures SelectProxy(Candidates(s.customProxy), w.probe).winner.None? && s.repo != "" && s.token != "" && w.diffLibrary ==>
      run == Failure([OpenRepo("/remote", s.repo)] + ListAll(Candidates(s.customProxy)), ConnectError)
    ensures run.outcome.Review? ==>
      run.outcome.changes == Classify(w.remoteFiles, w.remoteTree, LocalTree(w.entries), w.patch)
      && Written(run.effects) == Prefix("/local", FileNames(w.entries))
    ensures run.outcome.Failed? ==> run.status == Status("Pull Error: " + run.outcome.message, Red)
  {
    if s.repo == "" || s.token == "" then Run(NotStarted, Status("Missing Repo/Token", Red), [])
    else if !w.diffLibrary then Run(NotStarted, Status("Error: Diff library not found.", Red), [])
    else
      var sel := SelectProxy(Candidates(s.customProxy), w.probe);
      var opening := Opening(s, w);
      NothingWritten(opening);
      match sel.winner
      case None => Failure(opening, ConnectError)
      case Some(proxy) =>
        var rest := Connected(platform, projectId, s, w, proxy);
        WrittenAppend(opening, rest.effects);
        Run(rest.outcome, rest.status, opening + rest.effects)
  }

  /** Once a proxy answered, the pull is the opening followed by the connected run. */
  lemma PerformSplits(platform: string, projectId: string, s: Settings, w: World)
    requires s.repo != "" && s.token != "" && w.diffLibrary
    requires SelectProxy(Candidates(s.customProxy), w.probe).winner.Some?
    ensures var rest := Connected(platform, projectId, s, w, SelectProxy(Candidates(s.customProxy), w.probe).winner.value);
      Perform(platform, projectId, s, w) == Run(rest.outcome, rest.status, Opening(s, w) + rest.effects)
  {
  }

  /** The opening writes nothing, asks nothing, drops nothing, fetches and pushes nothing. */
  lemma AfterOpening(trace: seq<Effect>, opening: seq<Effect>, rest: seq<Effect>)
    requires trace == opening + rest
    requires forall e :: e in opening ==> e.OpenRepo? || e.ListRefs?
    ensures Written(trace) == Written(rest)
    ensures forall e :: e in trace && (e.Push? || e.Fetch? || e.Ask? || e == DropWorkspace) ==> e in rest
  {
    NothingWritten(opening);
    WrittenAppend(opening, rest);
  }

  /** A pull never pushes, and it fetches only through the proxy that answered the ref listing. */
  lemma PullFetchesThroughWinner(platform: string, projectId: string, s: Settings, w: World)
    ensures !Pushes(Perform(platform, projectId, s, w).effects)
    ensures Fetches(Perform(platform, projectId, s, w).effects) ==>
      SelectProxy(Candidates(s.customProxy), w.probe).winner.Some?
    ensures SelectProxy(Candidates(s.customProxy), w.probe).winner.Some? ==>
      PinnedTo(Perform(platform, projectId, s, w).effects, SelectProxy(Candidates(s.customProxy), w.probe).winner.value)
  {
    var sel := SelectProxy(Candidates(s.customProxy), w.probe);
    if s.repo != "" && s.token != "" && w.diffLibrary && sel.winner.Some? {
      PerformSplits(platform, projectId, s, w);
      var rest := Connected(platform, projectId, s, w, sel.winner.value);
      AfterOpening(Perform(platform, projectId, s, w).effects, Opening(s, w), rest.effects);
    }
  }

  /**
   * Declining the question ends the pull with nothing written and the
   * workspace dropped; a pull that fails writes nothing and asks nothing;
   * the question is asked only when the editor's copy is newer.
   */
  lemma PullSafety(platform: string, projectId: string, s: Settings, w: World)
    ensures Perform(platform, projectId, s, w).outcome.Cancelled? ==>
      !w.confirmPull && Written(Perform(platform, projectId, s, w).effects) == []
      && LocalNewer(LocalTime(projectId, w), RemoteTime(w.commitSeconds))
    ensures (DropWorkspace in Perform(platform, projectId, s, w).effects) <==> Perform(platform, projectId, s, w).outcome.Cancelled?
    ensures (Ask(PullOverNewerLocal) in Perform(platform, projectId, s, w).effects) ==>
      LocalNewer(LocalTime(projectId, w), RemoteTime(w.commitSeconds))
    ensures Perform(platform, projectId, s, w).outcome.Failed? ==>
      Written(Perform(platform, projectId, s, w).effects) == []
      && Ask(PullOverNewerLocal) !in Perform(platform, projectId, s, w).effects
  {
    var sel := SelectProxy(Candidates(s.customProxy), w.probe);
    if s.repo != "" && s.token != "" && w.diffLibrary {
      if sel.winner.Some? {
        PerformSplits(platform, projectId, s, w);
        var rest := Connected(platform, projectId, s, w, sel.winner.value);
        AfterOpening(Perform(platform, projectId, s, w).effects, Opening(s, w), rest.effects);
      } else {
        AfterOpening(Perform(platform, projectId, s, w).effects, Opening(s, w), []);
      }
    }
  }

  /** The gate of the pull: once the archive is in hand, it asks exactly when the editor's copy is newer. */
  lemma AsksIffLocalNewer(platform: string, projectId: string, s: Settings, w: World)
    requires s.repo != "" && s.token != "" && w.diffLibrary
    requires SelectProxy(Candidates(s.customProxy), w.probe).winner.Some? && w.fetchError.None?
    requires PullArchiveUrl(platform, projectId, w.pathname, w.page).Some? && CheckForPull(w.response).Accepted?
    ensures (Ask(PullOverNewerLocal) in Perform(platform, projectId, s, w).effects)
        <==> w.unzipError.None? && LocalNewer(LocalTime(projectId, w), RemoteTime(w.commitSeconds))
    ensures Perform(platform, projectId, s, w).outcome.Cancelled?
        <==> w.unzipError.None? && LocalNewer(LocalTime(projectId, w), RemoteTime(w.commitSeconds)) && !w.confirmPull
    ensures w.unzipError.None? && !Perform(platform, projectId, s, w).outcome.Cancelled? ==>
      Perform(platform, projectId, s, w).outcome.Review?
    ensures w.unzipError.Some? ==> Perform(platform, projectId, s, w).outcome == Failed(w.unzipError.value)
  {
    var sel := SelectProxy(Candidates(s.customProxy), w.probe);
    var opening := [OpenRepo("/remote", s.repo)] + ListAll(sel.tried);
    assert Ask(PullOverNewerLocal) !in opening;
  }

  /**
   * A body that passes the status and size checks but is not a ZIP archive
   * (a login page served with status 200, say) ends the pull with the
   * library's error: nothing is asked, written or dropped.
   */
  lemma UnreadableArchiveFails(platform: string, projectId: string, s: Settings, w: World)
    requires s.repo != "" && s.token != "" && w.diffLibrary
    requires SelectProxy(Candidates(s.customProxy), w.probe).winner.Some? && w.fetchError.None?
    requires PullArchiveUrl(platform, projectId, w.pathname, w.page).Some? && CheckForPull(w.response).Accepted?
    requires w.unzipError.Some?
    ensures Perform(platform, projectId, s, w).outcome == Failed(w.unzipError.value)
    ensures Perform(platform, projectId, s, w).status == Status("Pull Error: " + w.unzipError.value, Red)
    ensures Written(Perform(platform, projectId, s, w).effects) == []
    ensures Ask(PullOverNewerLocal) !in Perform(platform, projectId, s, w).effects
    ensures DropWorkspace !in Perform(platform, projectId, s, w).effects
  {
    AsksIffLocalNewer(platform, projectId, s, w);
    PullSafety(platform, projectId, s, w);
  }
}
