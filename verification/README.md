# ZenOverleaf Git sync bridge — a Dafny model of the sync core

ZenOverleaf is a browser extension. It connects an online LaTeX editor (Overleaf or
TexPage) with a Git repository, and its sync core has three parts:

- **Push** (`performSync`). It downloads the editor's project archive and unpacks it
  into a fresh in-browser repository. It commits the archive and force-pushes to the
  configured branch. Before that it asks the user whether to go ahead when the remote
  branch is newer than the editor's copy. Two panels carry a push: the current one in
  `modules/git_logic.js` and the early one in `content.js`.
- **Pull** (`GitPull.perform`). It checks the branch out into `/remote` and the editor's
  archive into `/local`. It classifies the tracked text files that differ, then hands
  the list to the review modal (`renderDiffUI`). The modal shows a line-numbered diff
  (`formatDiffWithLineNumbers`). It applies a file to the editor only when the open
  editor tab is that file.
- **Auto sync** (`manageAutoSync`). It keeps at most one interval timer that runs a
  silent push.

The model is purely functional. Whatever the browser, the network or a library decides
is an input:

- the proxy that answers;
- the refs listed;
- the HTTP response;
- the archive entries, and whether the archive library can open the body at all;
- the user's answers to confirmation prompts;
- the dashboard listing;
- the commit store after a fetch (a branch created locally starts a fresh repository,
  so its commit has no parent);
- the patch generator;
- the editor's breadcrumb match.

An orchestration returns its outcome, the final status line (text and colour) and the
ordered trace of effects it performed. The effects include opening a repository,
listing refs through a proxy, fetching, asking the user, writing a file, committing,
pushing and dropping the workspace database. The safety properties are statements
about that trace: what happens on which path.

Modules, one per concept:

| module | concept |
|---|---|
| `Base` | `Option` |
| `Text` | string helpers. `Split`/`Join` are proved mutually inverse. |
| `JsNumber` | `parseInt` and the auto-sync interval |
| `Identity` | project ids, storage keys, the dashboards' last-modified lookups |
| `Transport` | proxy candidates and failover, credentials, branch resolution |
| `Timing` | timestamp comparisons |
| `Download` | archive URLs and response checks |
| `Effects` | the effect trace |
| `Workspace` | archive extraction and directory creation |
| `Reconcile` | the pull's change classification |
| `Pull` | `GitPull.perform` |
| `Push` | the current `performSync` |
| `LegacyPush` | the early `performSync` |
| `AutoSync` | both `manageAutoSync`s |
| `DiffRows` | `formatDiffWithLineNumbers` |
| `DiffView` | `renderDiffUI` |

Behaviour of the code that may be surprising:

- The pull does not normalise line endings. A file that differs only in `\r\n` is
  reported as modified (`Reconcile.LineEndingsAreNotNormalised`).
- The `del` status is reachable. It happens when the remote copy reads as empty, or
  cannot be read, while the local copy has text (`Reconcile.EmptiedRemoteFileIsDeleted`).
- The pull has no in-progress guard.
- The workspace database is not dropped on every path:
  - the push drops it after a cancel, "no updates" or a successful push;
  - the early push drops it only after a successful push;
  - the pull drops it only after a cancel;
  - error paths keep it.
- The pull reads the editor time through the Overleaf dashboard lookup on both
  platforms.
- After switching to the alternate branch, the push tests the ORIGINAL branch name to
  decide whether to fetch. So it never fetches the switched branch: it creates it
  locally, skips the time check and force-pushes (`Transport.SwitchedBranchIsNotFetched`,
  `Push.SyncBranchHandling`).
- Line numbers use post-increment. A `+` row shows the current new-side counter, which
  then advances.

## Model

| member | source | states |
|---|---|---|
| Identity.OverleafProjectId | modules/git_logic.js:110-114 | the id never contains `/`; a path with at most two `/`-separated components gives `unknown_project` |
| Identity.OverleafIdOfComponents | modules/git_logic.js:112-113 | for a path of more than two components the id is exactly the third component |
| Identity.OverleafIdOfShortPath | modules/git_logic.js:110-113 | paths of one or two components keep the `unknown_project` default |
| Identity.TexPageProjectId | modules/git_logic.js:115-117 | with a 36-character hex-or-dash run in the path, the id is the run at the leftmost such position; without one, it is the path with one leading and one trailing slash removed and every remaining `/` turned into `_`, character by character |
| Identity.TrimSlashes | modules/git_logic.js:117 | exactly one leading and one trailing `/` are removed when present, and the text between them is kept |
| Identity.TexPageIdIsLeftmostRun | modules/git_logic.js:116-117 | a run at position `i` with no run before it is the id, whatever follows |
| Identity.TexPageIdOfPlainPath | modules/git_logic.js:117 | a path `/a/b/` of short slash-free parts gives `a_b` |
| Identity.ProjectId | modules/git_logic.js:110-117 | other platforms get `unknown_project`; Overleaf ids never contain `/` |
| Identity.StorageKey | modules/git_logic.js:118 | the key is `git_config_` followed by exactly the project id |
| Identity.LegacyProjectId | content.js:115 | the early panel's id is the third path component, `undefined` when the path is too short |
| Identity.LegacyStorageKey | content.js:116 | the key is `ol_git_` followed by exactly the id |
| Identity.FindProject | modules/git_logic.js:30 | `find` returns the first listed project with the id, or none when no project has it |
| Identity.OverleafLastUpdated | modules/git_logic.js:5-46 | 0 when the listing is unavailable, the project is not listed or its update time is empty; otherwise exactly the date parse (possibly NaN) of the first matching project's update time |
| Identity.TexPageLastUpdated | modules/git_logic.js:49-97 | as the Overleaf lookup, except that a date that parses to NaN also gives 0: the result is the parsed time of the first matching project, or 0 |
| Identity.OverleafTimeOfFirstEntry | modules/git_logic.js:30-94 | when earlier entries carry other ids, both lookups read the date of the first entry with the project's id, ignoring any later duplicate; TexPage turns NaN into 0 |
| Identity.LookupsAgreeOnKnownTimes | modules/git_logic.js:5-97 | both lookups find a positive time for the same inputs, and then the same time |
| JsNumber.TrimStart | modules/git_logic.js:629 | `parseInt` skips exactly the leading JavaScript whitespace |
| JsNumber.DigitPrefixLength | modules/git_logic.js:629 | the digits read are the longest prefix of digits of the radix |
| JsNumber.ParseIntOfRendered | modules/git_logic.js:629 | `parseInt` of a decimal numeral followed by a non-digit gives back that number |
| JsNumber.ParseIntOfNegative | modules/git_logic.js:629 | a minus sign in front of a numeral gives the negated number |
| JsNumber.IntervalMinutes | modules/git_logic.js:629 | the interval is never 0: an unparseable or zero setting falls back to 10, any other parsed value is kept (negative too) |
| JsNumber.IntervalOfTypedMinutes | modules/git_logic.js:629 | a typed positive number of minutes is used as is |
| JsNumber.IntervalDefaults | modules/git_logic.js:629 | the empty setting and `0` both mean 10 minutes |
| Transport.Candidates | modules/git_logic.js:407-415 | a custom proxy is the only candidate; otherwise the primary then the official proxy |
| Transport.SelectProxy | modules/git_logic.js:419-437 | proxies are tried in order up to the first that lists refs; the refs are that proxy's; with no winner every candidate was tried and failed |
| Transport.WinnerIsFirstSuccess | modules/git_logic.js:424-437 | the winner is the first answering candidate, and exactly the candidates up to it are tried |
| Transport.ActiveProxy | modules/git_logic.js:420-430 | later requests use the winner, or the first candidate when none answered |
| Transport.AuthFor | modules/git_logic.js:399 | with a username the token is the password; without one the token is sent as the username |
| Transport.TokenAlwaysSent | modules/git_logic.js:399 | the token is sent either way |
| Transport.Alternate | modules/git_logic.js:447 | `main` maps to `master` and every other name to `main`, so the alternate always differs from the branch |
| Transport.AlternateIsInvolutiveOnPair | modules/git_logic.js:447 | on `main`/`master` the alternate of the alternate is the branch |
| Transport.ResolveBranch | modules/git_logic.js:444-453 | fetch iff the configured branch is listed; ask iff it is missing, refs exist and the alternate is listed; switch only on a yes |
| Transport.SwitchedBranchIsNotFetched | modules/git_logic.js:444-458 | after a confirmed switch the alternate branch is used but not fetched |
| Transport.ShortNames | content.js:212 | each listed ref is shown without its first `refs/heads/` |
| Transport.ShortNameOfHeadRef | content.js:212 | the short name of `refs/heads/b` is `b` |
| Transport.LegacyResolveBranch | content.js:199-218 | the early panel refuses, with the available-branches message, exactly when the switch is due and declined; otherwise as the current resolution |
| Transport.ResolutionsAgreeOnYes | content.js:199-218 | when the user says yes both resolutions give the same plan |
| Timing.RemoteTime | modules/git_logic.js:456-471 | the commit time in milliseconds, 0 when the log could not be read |
| Timing.NeverBothNewer | modules/git_logic_pull.js:114 | the pull's and the push's questions are never both due for the same times |
| Timing.WithinToleranceNeverAsks | modules/git_logic.js:536 | times within 2000 ms of each other never trigger a question |
| Timing.UnknownLocalTimeNeverAsks | modules/git_logic.js:530 | an unknown (0 or NaN) editor time never triggers a question |
| Download.OverleafArchiveUrl | modules/git_logic.js:484 | the URL is the project prefix, the id, then `/download/zip`, and the id can be read back from it |
| Download.TexPageArchiveUrl | modules/git_logic.js:499 | the URL is the TexPage prefix, the project key, `&versionNo=`, the version and `&bbl=false`, so both keys can be read back from it |
| Download.FindKeyPair | modules/git_logic_pull.js:84 | the leftmost position of two slash-led 36-character key runs, or none |
| Download.TexPageKeys | modules/git_logic_pull.js:84-91 | when the path holds a key pair, the keys are the two 36-character runs of the leftmost pair; otherwise the keys found in the page |
| Download.Interpolated | modules/git_logic.js:499 | a missing key interpolates as `undefined` |
| Download.PullArchiveUrl | modules/git_logic_pull.js:80-94 | Overleaf gets its archive URL; TexPage gets a URL exactly when both keys are known, and then the TexPage archive URL of those two keys |
| Download.PushArchiveUrl | modules/git_logic.js:482-499 | Overleaf gets its archive URL; TexPage always gets the TexPage archive URL of the two keys, a missing key printed as `undefined` |
| Download.ArchiveOfPathPair | modules/git_logic_pull.js:84-85 | on a TexPage path holding a key pair both syncs request one URL, whose project key and version read back as the leftmost pair's two runs |
| Download.ArchiveUrlsAgree | modules/git_logic.js:482-499 | whenever the pull finds a URL, the push uses the same one |
| Download.PushRequestsUndefinedVersion | modules/git_logic.js:488-499 | with only the project key known, the pull stops but the push requests `versionNo=undefined` |
| Download.CheckForPull | modules/git_logic_pull.js:96-99 | accepted iff the response is ok and at least 100 bytes; the two error messages |
| Download.CheckForPush | modules/git_logic.js:503-506 | accepted iff ok and at least 100 bytes; the failure message carries the status |
| Download.CheckForLegacyPush | content.js:243-254 | accepted iff ok, not HTML and at least 100 bytes; one message per rejection |
| Download.ChecksAgree | content.js:243-254 | the pull and push checks accept the same responses; the early check also rejects HTML |
| Download.Opened | modules/git_logic.js:514 | the body is usable iff the checks accept it and the archive library opens it; a rejection keeps its message, an unreadable body gets the library's |
| Download.HtmlCheckIgnoresCase | content.js:247-248 | the HTML test ignores case, and a missing content type is not HTML |
| Workspace.Kept | modules/git_logic.js:561 | empty path components are skipped when asked, and kept components come from the path |
| Workspace.KeptAppend | modules/git_logic.js:561 | components are kept one by one, in path order: the kept components of two runs of parts are those of the first run, then those of the second |
| Workspace.KeptOne | modules/git_logic.js:561 | a single component is kept unless it is empty and empty ones are skipped |
| Workspace.CumulativeDirs | modules/git_logic.js:560-563 | the k-th directory is the root joined with the first k+1 kept components |
| Workspace.EnsureDirPaths | modules/git_logic.js:557-564 | one directory per non-empty component of the parent, each the cumulative prefix |
| Workspace.EnsureDirOfAbsolutePath | modules/git_logic.js:557-564 | for `/c1/…/cn` the directories are `/c1`, `/c1/c2`, … up to the parent |
| Workspace.EnsureDirEndsAtParent | modules/git_logic.js:557-569 | the last directory created is the file's parent |
| Workspace.PullDirPaths | modules/git_logic_pull.js:127-128 | one directory per component of the entry's parent, under `/local`, empty components included |
| Workspace.PullDirsArePrefixes | modules/git_logic_pull.js:127-129 | every directory created is a prefix of the written path |
| Workspace.FileNames | modules/git_logic_pull.js:124-125 | the names written are exactly those of the non-directory entries |
| Workspace.FileNamesAppend | modules/git_logic_pull.js:124-125 | names follow archive order: the names of two runs of entries are those of the first run, then those of the second |
| Workspace.FileNamesOne | modules/git_logic_pull.js:124-125 | a file entry contributes its name, a directory entry nothing |
| Workspace.WriteWithDirs | modules/git_logic.js:567-570 | one entry's effects write exactly its path, after creating directories |
| Workspace.PushExtraction | modules/git_logic.js:565-572 | the push writes exactly the archive's files under the project directory, in order |
| Workspace.PullExtraction | modules/git_logic_pull.js:124-131 | the pull writes exactly the archive's files under `/local`, in order |
| Workspace.LocalTree | modules/git_logic_pull.js:124-131 | `/local` holds a file exactly for each archive file |
| Workspace.LocalTreeHoldsEntry | modules/git_logic_pull.js:126-129 | with distinct names each file holds its entry's content |
| Reconcile.Read | modules/git_logic_pull.js:140-141 | a read gives the file's text, or null when the file is absent |
| Reconcile.StatusOf | modules/git_logic_pull.js:145 | new iff the local read is falsy; deleted iff local has text and remote is falsy; modified iff both have text |
| Reconcile.Compare | modules/git_logic_pull.js:138-148 | a file is reported iff it is tracked and the reads differ, with its status and the local-to-remote patch |
| Reconcile.Classify | modules/git_logic_pull.js:134-150 | the report holds only checkout files, each the file's comparison, and every differing tracked file |
| Reconcile.ClassifyOne | modules/git_logic_pull.js:134-150 | a single listed file is reported alone exactly when its comparison finds a change, and otherwise nothing is |
| Reconcile.ClassifyAppend | modules/git_logic_pull.js:134-150 | the report follows the listing order: a listing split in two reports the first part's changes, then the second's |
| Reconcile.ReportedIffDifferent | modules/git_logic_pull.js:137-150 | a path is reported iff it is in the checkout, tracked and read differently |
| Reconcile.AgreeingTreesReportNothing | modules/git_logic_pull.js:142 | identical reads on every tracked file give an empty report |
| Reconcile.LineEndingsAreNotNormalised | modules/git_logic_pull.js:142 | `x\r\n` against `x\n` is reported as modified |
| Reconcile.EmptiedRemoteFileIsDeleted | modules/git_logic_pull.js:145 | an empty remote file against local text is reported as deleted |
| Reconcile.EmptyNewFileIsReported | modules/git_logic_pull.js:142-145 | an empty remote file absent locally is still reported, as new |
| Reconcile.EditorOnlyFilesAreNotReported | modules/git_logic_pull.js:134-137 | files missing from the checkout are never reported |
| Pull.Failure | modules/git_logic_pull.js:155-157 | an error ends with a red `Pull Error:` status and the effects so far |
| Pull.Compared | modules/git_logic_pull.js:124-153 | after the time gate the pull writes the archive under `/local`, classifies, and ends with "Review changes" |
| Pull.Gated | modules/git_logic_pull.js:107-131 | with the archive in hand, it asks iff the editor copy is newer, cancels iff the user then declines, and otherwise writes the archive and reviews |
| Pull.AfterCheckout | modules/git_logic_pull.js:77-153 | a body that passes the checks but does not unzip fails with the archive library's error before any question; otherwise asks only when the editor copy is newer; cancels iff URL and response are good, the body unzips, the editor copy is newer and the user declines; a cancel writes nothing and is the only path that drops the database |
| Pull.Connected | modules/git_logic_pull.js:62-153 | every request goes through the chosen proxy; with fetch, URL and response good and a body that unzips, it asks iff the editor copy is newer and ends in cancel or review |
| Pull.Perform | modules/git_logic_pull.js:5-158 | missing repository or token and a missing diff library stop with nothing done; if no proxy answers it fails before fetching; a review is the classification of what it wrote |
| Pull.PullFetchesThroughWinner | modules/git_logic_pull.js:43-67 | a pull never pushes, fetches only after a proxy answered, and uses only that proxy |
| Pull.PullSafety | modules/git_logic_pull.js:109-121 | a cancel follows a declined question about a newer editor copy and writes nothing; a failure writes nothing and asks nothing |
| Pull.AsksIffLocalNewer | modules/git_logic_pull.js:106-121 | on the good path the question is asked iff the body unzips and the editor copy is newer by more than 2 s; a body that does not unzip fails with the library's error; otherwise the pull always reaches review |
| Pull.UnreadableArchiveFails | modules/git_logic_pull.js:96-106 | a body that passes the checks but is not a ZIP ends the pull failed with the library's error: nothing asked, written or dropped |
| Push.Failure | modules/git_logic.js:617-619 | an error ends with the `Error:` status in the error colour |
| Push.CommitMessage | modules/git_logic.js:581-582 | a custom message wins; otherwise the platform name and ` Sync `, then `(Auto)` for an automatic run and nothing for a manual one, then `: ` and the date |
| Push.ManualDefaultMessage | modules/git_logic.js:581 | the default messages for a manual Overleaf and an automatic TexPage sync, spelled out |
| Push.HasChanges | modules/git_logic.js:588-599 | no changes iff the commit and its first parent are readable and share a tree |
| Push.ChangeDetectionFailsOpen | modules/git_logic.js:588-599 | an unreadable commit or a root commit counts as a change |
| Push.Changed | modules/git_logic.js:588-599 | on a locally created branch the commit always counts as a change, because each run opens a database of its own (line 389) and initialises the repository afresh (lines 400-402) and the new commit has no parent; after a fetch it does iff the change detection says so |
| Push.PushLocalTime | modules/git_logic.js:518-526 | each platform reads its own dashboard; any other platform keeps 0 |
| Push.Extracted | modules/git_logic.js:557-586 | unpacking writes exactly the archive's files and commits with the chosen message |
| Push.Delivered | modules/git_logic.js:588-615 | pushes iff the commit counts as a change; "No updates found." otherwise; success or error by the push result; the database is dropped unless it failed |
| Push.Committed | modules/git_logic.js:557-615 | extraction and commit add no network or prompt effect; the outcome is the delivery's |
| Push.CommittedWritesArchive | modules/git_logic.js:557-572 | the files written are exactly the archive's, under the project directory |
| Push.Consulted | modules/git_logic.js:517-550 | the question about a newer remote is asked iff a manual sync finds both times and the remote is newer by more than 2 s |
| Push.Checked | modules/git_logic.js:517-615 | a cancel happens iff that question was declined, and then nothing is written or pushed; otherwise the outcome and status are the delivery's |
| Push.CheckedWrites | modules/git_logic.js:517-572 | unless cancelled, the archive's files are written; a cancel writes nothing |
| Push.Downloaded | modules/git_logic.js:480-615 | a rejected response or a body that does not unzip fails with that message, before the time check; a push needs an accepted download that unzips and a change; the question needs the same and is due iff the conflict check says so |
| Push.Branched | modules/git_logic.js:456-615 | fetch iff the plan says so; otherwise the branch is created and no time check runs |
| Push.Fetched | modules/git_logic.js:458-473 | a listed branch is fetched through the active proxy, and only that branch is fetched |
| Push.Created | modules/git_logic.js:474-476 | an unlisted branch is created locally in the fresh repository, and a name git rejects fails right there; nothing is fetched and, with remote time 0, the editor time is neither read nor compared; its first commit always counts as a change, so it pushes iff the branch was created and the download is accepted and unzips, and succeeds iff the push does too |
| Push.BranchedPushSafety | modules/git_logic.js:456-615 | pushes go only to the plan's branch through the active proxy, and need an accepted download that unzips and a change; automatic syncs never ask; a cancel writes and pushes nothing |
| Push.Active | modules/git_logic.js:420-430 | the active proxy is the winner, else the first candidate |
| Push.Opening | modules/git_logic.js:401-453 | the opening only opens the repository, lists refs and asks about the branch, and it asks exactly when the switch question is due |
| Push.OpeningTriesInOrder | modules/git_logic.js:401-437 | the repository is opened first, then refs are listed through each proxy tried, in order |
| Push.Attempt | modules/git_logic.js:392-619 | missing libraries fail at once; otherwise opening followed by the branch stage |
| Push.Sync | modules/git_logic.js:359-625 | missing configuration skips (silently when automatic); a sync already running is ignored; otherwise settings are saved first and the flag is cleared at the end |
| Push.SyncSplits | modules/git_logic.js:359-625 | a started sync's trace is the save, the opening and the branch stage, in that order |
| Push.SyncPushSafety | modules/git_logic.js:359-625 | a push happens only when configured, idle, with libraries, an accepted download that unzips and a change, and only through the active proxy to the resolved branch |
| Push.EmptyRemoteIsCreatedAndPushed | modules/git_logic.js:444-611 | when the remote lists no branches, git accepts the branch name and the archive is accepted and unzips, the branch is created locally and pushed, with no fetch and no time check, and the run ends green with the local time |
| Push.UnreadableArchiveFails | modules/git_logic.js:502-517 | a body that passes the checks but is not a ZIP fails the push with the library's error before the editor's time is read; nothing is written, pushed or dropped |
| Push.RejectedBranchNameFails | modules/git_logic.js:458-502 | when the branch is not listed and git rejects its name, the push fails with git's error at the branch creation: nothing is downloaded, fetched, written or pushed |
| Push.SyncConsent | modules/git_logic.js:517-550 | automatic syncs never read the editor time or ask; a cancelled sync writes and pushes nothing |
| Push.SyncBranchHandling | modules/git_logic.js:444-477 | the branch is fetched iff it is listed; a confirmed switch asks, creates the alternate, and skips fetch and the time check |
| LegacyPush.Failure | content.js:297-299 | an error ends with the `Error:` status |
| LegacyPush.Message | content.js:281 | `Overleaf Sync `, then `(Auto)` for an automatic run and nothing for a manual one, then `: ` and the date |
| LegacyPush.MessageMatchesCurrentDefault | content.js:281 | the early message equals the current panel's default message for Overleaf |
| LegacyPush.Delivered | content.js:258-295 | always commits and pushes to the official proxy; success iff the push succeeded |
| LegacyPush.DeliveredWritesArchive | content.js:258-274 | the files written are exactly the archive's |
| LegacyPush.Unpacked | content.js:256-290 | after a download that passed its checks and unpacked, the run always pushes, only through the public proxy, and asks nothing |
| LegacyPush.Downloaded | content.js:243-295 | pushes iff the download passes all three checks and unzips; a rejected or unreadable body fails with its message; no time question ever |
| LegacyPush.Branched | content.js:222-295 | fetch iff the branch is listed; an unlisted branch whose name git rejects fails at its creation; a push iff the fetch or the creation, and the download, succeeded and the body unzipped |
| LegacyPush.Refs | content.js:183-196 | a failed listing gives no refs |
| LegacyPush.Opening | content.js:171-218 | lists refs through the official proxy only, and asks iff a switch is due |
| LegacyPush.Attempt | content.js:164-299 | a refused switch fails with the available-branches message; otherwise opening then the branch stage |
| LegacyPush.Sync | content.js:132-305 | the same guards as the current push, saving under the early storage key |
| LegacyPush.SyncSplits | content.js:132-305 | a started sync's trace is the save, the opening and the branch stage |
| LegacyPush.OnlyThroughOfficialProxy | content.js:183-239 | every network request uses the official proxy, and no time check happens |
| LegacyPush.AlwaysPushes | content.js:222-290 | once resolved, it force-pushes iff the fetch or the branch creation and the download succeeded and the body unzipped, whether or not the remote is newer |
| LegacyPush.DeclinedSwitchIsAnError | content.js:199-218 | declining the switch fails with the branch list, after asking, before any fetch, download, write or push |
| AutoSync.Period | modules/git_logic.js:629-632 | the period is a non-zero whole number of minutes, 10 minutes when the setting does not parse |
| AutoSync.Clear | modules/git_logic.js:630 | clearing stops exactly that timer |
| AutoSync.Start | modules/git_logic.js:632 | starting adds one fresh timer and stores its id in the handle |
| AutoSync.Manage | modules/git_logic.js:627-634 | keeps the one-timer invariant: enabled leaves exactly one timer with the period, disabled leaves none and the handle unchanged |
| AutoSync.LegacyManage | content.js:307-316 | the same, but disabling resets the handle to null |
| AutoSync.VariantsScheduleAlike | content.js:307-316 | both variants run the same timers |
| AutoSync.DisablingLeavesStaleHandle | modules/git_logic.js:630-632 | after enabling then disabling, the current panel keeps the id of a timer that no longer runs |
| AutoSync.StepSettles | modules/git_logic.js:627-634 | from a valid state one change leaves exactly the new timer with its period when enabled, and none when disabled |
| AutoSync.AtMostOneTimer | modules/git_logic.js:627-634 | after any series of setting changes at most one timer runs, and exactly one, with the last interval, when the last change enabled it |
| DiffRows.DigitRunIsMaximal | modules/diff_ui.js:28 | the `\d+` group reads a maximal run of digits: every character read is a digit, and the next one is the end or a non-digit |
| DiffRows.FindHeaderIsLeftmost | modules/diff_ui.js:28 | the search finds a position where the hunk-header pattern matches and no match before it, or reports none when no position matches |
| DiffRows.HunkStartIsLeftmost | modules/diff_ui.js:28-32 | starts are captured iff the pattern matches somewhere; they are then the decimal values (`parseInt`) of the two digit groups of the leftmost match |
| DiffRows.HeaderRoundTrip | modules/diff_ui.js:28-31 | reading a printed hunk header gives back its old and new starts, with or without counts |
| DiffRows.BodyRow | modules/diff_ui.js:42-68 | an empty line gives no row and a `\` line a note; `+`, `-` and space lines give added, removed and unchanged rows with only the new, only the old, or both number cells, showing the current counters; any other line is a plain row with both cells blank; content drops the first character |
| DiffRows.Advance | modules/diff_ui.js:48-60 | removed and unchanged lines advance the old counter, added and unchanged the new one |
| DiffRows.AsWrittenHunk | modules/diff_ui.js:19-68 | the formatter as the program runs it: after the file headers, a hunk whose body holds no `---`/`+++` line gives its separator, then one row per body line showing that line, the old and new numbers consecutive from the header's starts |
| DiffRows.FormatOfLines | modules/diff_ui.js:6-8 | a text joined from single lines is walked line by line from counters 0 and 0 |
| DiffRows.Format | modules/diff_ui.js:5-8 | no table exactly for the empty text |
| DiffRows.FormatCorrected | modules/diff_ui.js:5-8 | no table exactly for the empty text |
| DiffRows.HunkBodyRows | modules/diff_ui.js:42-68 | inside a hunk, one row per line, showing its content; the old and new numbers are consecutive from the counters |
| DiffRows.SkipHeaders | modules/diff_ui.js:21-23 | file-header lines before the first hunk produce nothing |
| DiffRows.CorrectedHunk | modules/diff_ui.js:19-68 | after the file headers, a hunk is its header row and then one row per body line, numbered from the header's starts |
| DiffRows.FormatsAgree | modules/diff_ui.js:21-23 | without header-like lines the as-written and corrected formatters agree |
| DiffRows.DashedRemovalIsDropped | modules/diff_ui.js:21-23 | a removed line whose text starts with `--` is dropped as written and kept by the corrected walk |
| DiffRows.DashedRemovalInText | modules/diff_ui.js:5-23 | the same for the whole patch text |
| DiffView.BadgeOf | modules/diff_ui.js:280-281 | green NEW, red DEL, yellow MOD |
| DiffView.BadgesTellStatusesApart | modules/diff_ui.js:280-281 | different statuses get different colours and captions |
| DiffView.Items | modules/diff_ui.js:267-290 | one list item per change, in order, with its file and badge |
| DiffView.Render | modules/diff_ui.js:249-265 | nothing selected, button disabled, "No file selected"; "Sync Complete" iff there are no changes |
| DiffView.ViewOf | modules/diff_ui.js:301-315 | deleted files show the notice; other files show the rows of the formatter as written, blank when the patch is empty |
| DiffView.ViewShowsHunk | modules/diff_ui.js:301-315 | picking a changed, non-deleted file whose patch is file headers and one hunk without header-like body lines shows the separator, then one row per body line, numbered consecutively from the header's starts |
| DiffView.Gate | modules/diff_ui.js:318-369 | the button is enabled iff the open editor file matches, with the matching caption and label |
| DiffView.Step | modules/diff_ui.js:291-369 | a press produces output iff the button is enabled: the remote text posted to the editor, or an alert; a press disables the button |
| DiffView.Run | modules/diff_ui.js:371-388 | a series of events keeps the panel valid and the change list fixed |
| DiffView.ButtonArmedIffConfirmed | modules/diff_ui.js:318-369 | after any events the selection is the last valid pick, and the button is enabled iff the last check for it matched |
| DiffView.ApplyNeedsConfirmation | modules/diff_ui.js:335-353 | a press applies iff the selected file was confirmed open; it posts that file's remote text |
| DiffView.NoDoubleApply | modules/diff_ui.js:335-353 | two presses without a recheck in between apply at most once |

## Left out

- Page and panel DOM, styling, drag handles, HTML escaping, and the `ui.js`,
  `page_script.js`, `overleaf.js` and `texpage.js` modules. They lie outside the sync
  core.
- Asynchrony. Every `await` is a step of the trace, and concurrent runs are not
  interleaved. The push's `isSyncing` flag is modelled as an input and an output.
- The library internals are oracles or world fields:
  - isomorphic-git: the refs listed, and the results of fetch, log, branch creation
    (`branchError`), reading commits back and push;
  - LightningFS;
  - JSZip, `FileReader` and blob sizes: the archive's entries, and the library's
    error when the body is not a ZIP (`unzipError`), are world fields;
  - `createTwoFilesPatch`.
- isomorphic-git's `init`, `addRemote`, `checkout`, `add` and `commit` are assumed to
  succeed. After a fetch the branch exists, so checkout has what it needs. The new
  database cannot hold a stale repository. What could still throw is storage failure
  inside the browser, which the model does not represent. The members whose push
  statements rest on this are listed next.
- Push.Committed: assumes `git.add` and `git.commit` (git_logic.js:576-585) succeed.
- Push.Created: assumes `git.add` and `git.commit` succeed once the branch exists.
- Push.EmptyRemoteIsCreatedAndPushed: assumes `git.add` and `git.commit` succeed.
- LegacyPush.Delivered: assumes `git.add` and `git.commit` (content.js:278-283) succeed.
- LegacyPush.Branched: assumes `git.checkout` after a fetch (content.js:233) succeeds, and
  so do `git.add` and `git.commit`.
- LegacyPush.AlwaysPushes: assumes `git.checkout`, `git.add` and `git.commit` succeed.
- Pull.Connected: assumes `git.checkout` (git_logic_pull.js:75) succeeds after the fetch.
- The dashboard fetches and HTML parsing of `getProjectLastUpdated` and its TexPage
  twin. The listing and the date parser are inputs.
- The page-HTML scrape for TexPage keys (`projectKey`/`versionNo`). It is an input.
- `chrome.storage` and the settings fields. Saving is the `SaveSettings` effect.
- The intermediate status messages ("Checking remote...", "Fetching...", and so on).
  Only the final status is modelled.
- DiffView.Step: the 800 ms delay before the caption becomes "Applied" is collapsed into
  the press. The "Applying..." caption in between is not modelled.
- DiffView.Run: the one-second poller is a `Recheck` event, whenever the environment
  sends one. The poller stopping when the modal is hidden is not modelled.
- DiffView.Gate: the breadcrumb comparison (`isStrictPathMatch`) is an input flag.
- JsNumber.ParseInt: exact digits. The precision lost by JavaScript numbers above 2^53
  is not modelled.
- AutoSync.Period: the browser's clamping of huge or negative `setInterval` delays is not
  modelled.
- Timing.RemoteTime: committer timestamps are integers, so the double arithmetic of
  `* 1000` is exact.
- Text.Lower: ASCII case folding only. That is exact for the `/i` extension test, which
  is not in Unicode mode, and for the `text/html` test.

## Findings

| source | as written | input that shows it | evidently intended | confidence | as-written member | corrected member |
|---|---|---|---|---|---|---|
| modules/diff_ui.js:21 | every line starting with `---` or `+++` is skipped as a file header, even inside a hunk | a hunk `@@ -o,2 +n @@` whose body is the removed line `--x` (printed `---x`) then the unchanged line `y`: the removal is not shown, and `y` gets old number `o` instead of `o+1` | skip file headers only before the first `@@` line, so removed `--…` and added `++…` lines are shown and counted | high (not executed) | DiffRows.DashedRemovalIsDropped | DiffRows.CorrectedHunk |

The review window (`DiffView.ViewOf`) renders with the formatter as written, as the program does, so it shows the drop; `DiffRows.FormatCorrected` is the corrected walk, and `DiffRows.CorrectedHunk` states its numbering.
