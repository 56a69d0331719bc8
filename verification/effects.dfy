/**
 * The observable actions of a sync operation, recorded in order. Every
 * orchestration in this model returns such a trace next to its final status,
 * so that statements like "nothing is pushed unless ..." are statements about
 * the trace.
 */
module Effects {

  /** The questions a sync can put to the user. */
  datatype Prompt =
    | SwitchBranch(from: string, to: string)   // configured branch not listed, alternate is
    | OverwriteNewerRemote                     // push: remote commit newer than the editor
    | PullOverNewerLocal                       // pull: editor newer than the remote commit

  datatype Effect =
    | SaveSettings(key: string)                // chrome.storage.local.set of the panel settings
    | OpenRepo(dir: string, url: string)       // mkdir, git.init, git.addRemote('origin')
    | ListRefs(proxy: string)                  // git.listServerRefs through a proxy
    | Ask(prompt: Prompt)
    | Fetch(proxy: string, branch: string)     // shallow single-branch fetch, depth 1
    | Checkout(branch: string)
    | CreateBranch(branch: string)             // git.branch with checkout, no remote ancestry
    | Download(url: string)                    // the editor's project archive
    | ReadProjectTime                          // the platform's last-modified lookup
    | MakeDir(path: string)
    | WriteFile(path: string)
    | Commit(message: string)                  // git.add('.') then git.commit
    | Push(proxy: string, branch: string)      // forced push
    | DropWorkspace                            // indexedDB.deleteDatabase of the workspace

  /** The text and colour left in the panel's status line. */
  datatype Status = Status(text: string, color: string)

  const Red := "red"
  const Orange := "orange"
  const Black := "black"
  const ErrorRed := "#dc3545"
  const SuccessGreen := "#28a745"
  const InfoTeal := "#17a2b8"

  /** The trace contains a push. */
  predicate Pushes(trace: seq<Effect>) {
    exists e :: e in trace && e.Push?
  }

  /** The trace contains a fetch. */
  predicate Fetches(trace: seq<Effect>) {
    exists e :: e in trace && e.Fetch?
  }

  /** Every network request to the Git remote in the trace (ref listing, fetch, push) goes through `proxy`. */
  predicate OnlyThrough(trace: seq<Effect>, proxy: string) {
    forall e :: e in trace && (e.ListRefs? || e.Fetch? || e.Push?) ==> e.proxy == proxy
  }

  /** Fetch and push, the requests made after proxy selection, use `proxy`. */
  predicate PinnedTo(trace: seq<Effect>, proxy: string) {
    forall e :: e in trace && (e.Fetch? || e.Push?) ==> e.proxy == proxy
  }

  /** One ref listing per proxy tried, in order. */
  function ListAll(proxies: seq<string>): (effects: seq<Effect>)
    ensures |effects| == |proxies|
    ensures forall i :: 0 <= i < |proxies| ==> effects[i] == ListRefs(proxies[i])
    ensures forall e :: e in effects ==> e.ListRefs?
  {
    if proxies == [] then [] else [ListRefs(proxies[0])] + ListAll(proxies[1..])
  }

  /** The paths written, in order. */
  function Written(trace: seq<Effect>): (paths: seq<string>)
    ensures |paths| <= |trace|
  {
    if trace == [] then []
    else
      var rest := Written(trace[1..]);
      if trace[0].WriteFile? then [trace[0].path] + rest else rest
  }

  /** A path is written exactly when the trace holds a write of it. */
  lemma {:induction false} WrittenMembers(trace: seq<Effect>, p: string)
    ensures p in Written(trace) <==> WriteFile(p) in trace
  {
    if trace != [] {
      WrittenMembers(trace[1..], p);
      assert trace == [trace[0]] + trace[1..];
    }
  }

  lemma {:induction false} WrittenAppend(a: seq<Effect>, b: seq<Effect>)
    ensures Written(a + b) == Written(a) + Written(b)
  {
    if a == [] {
      assert a + b == b;
    } else {
      assert (a + b)[0] == a[0];
      assert (a + b)[1..] == a[1..] + b;
      WrittenAppend(a[1..], b);
    }
  }

  /** A trace without a write has written nothing. */
  lemma NothingWritten(trace: seq<Effect>)
    requires forall e :: e in trace ==> !e.WriteFile?
    ensures Written(trace) == []
  {
    if trace != [] {
      assert trace[0] in trace;
      NothingWritten(trace[1..]);
    }
  }
}
