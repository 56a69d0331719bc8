/**
 * The Git transport decisions around the smart-HTTP client: which CORS
 * proxies to try, which one wins, which credentials to send, and how a
 * configured branch that the remote does not list is resolved.
 *
 * A proxy probe (`git.listServerRefs` through that proxy) is an oracle: a
 * map from proxy URL to the ref names it lists; a proxy missing from the map
 * throws.
 */
module Transport {
  import opened Base
  import opened Text

  const PrimaryProxy := "https://gitcors4516.qianchd.workers.dev"
  const OfficialProxy := "https://cors.isomorphic-git.org"

  /** The proxies tried in order: the custom one alone when set, else the two defaults. */
  function Candidates(customProxy: string): (c: seq<string>)
    ensures |c| >= 1
    ensures customProxy != "" ==> c == [customProxy]
    ensures customProxy == "" ==> c == [PrimaryProxy, OfficialProxy]
  {
    if customProxy != "" then [customProxy] else [PrimaryProxy, OfficialProxy]
  }

  /** Outcome of the failover loop: the proxies tried, and the first one that listed refs. */
  datatype Selection = Selection(tried: seq<string>, winner: Option<string>, refs: seq<string>)

  /**
   * Try each candidate in order until one lists the remote's refs. The first
   * success ends the loop; when all fail, every candidate has been tried and
   * no refs are known.
   */
  function SelectProxy(candidates: seq<string>, probe: map<string, seq<string>>): (s: Selection)
    ensures s.winner.None? ==> s.tried == candidates && s.refs == []
    ensures s.winner.None? ==> forall i :: 0 <= i < |candidates| ==> candidates[i] !in probe
    ensures s.winner.Some? ==> s.winner.value in probe && s.refs == probe[s.winner.value]
    ensures |s.tried| <= |candidates| && s.tried == candidates[..|s.tried|]
    ensures s.winner.Some? ==> (|s.tried| >= 1 && s.tried[|s.tried| - 1] == s.winner.value)
    ensures forall i :: 0 <= i < |s.tried| - 1 ==> s.tried[i] !in probe
  {
    if candidates == [] then Selection([], None, [])
    else if candidates[0] in probe then Selection([candidates[0]], Some(candidates[0]), probe[candidates[0]])
    else
      var rest := SelectProxy(candidates[1..], probe);
      assert [candidates[0]] + candidates[1..][..|rest.tried|] == candidates[..|rest.tried| + 1];
      Selection([candidates[0]] + rest.tried, rest.winner, rest.refs)
  }

  /** The proxy pinned for the rest of an operation: the winner, or the first candidate when none won. */
  function ActiveProxy(candidates: seq<string>, s: Selection): (p: string)
    requires |candidates| >= 1
    ensures s.winner.Some? ==> p == s.winner.value
    ensures s.winner.None? ==> p == candidates[0]
  {
    match s.winner
    case Some(w) => w
    case None => candidates[0]
  }

  /** The first candidate that the probe accepts is the winner. */
  lemma {:induction false} WinnerIsFirstSuccess(candidates: seq<string>, probe: map<string, seq<string>>, k: nat)
    requires k < |candidates| && candidates[k] in probe
    requires forall i :: 0 <= i < k ==> candidates[i] !in probe
    ensures SelectProxy(candidates, probe).winner == Some(candidates[k])
    ensures SelectProxy(candidates, probe).tried == candidates[..k + 1]
  {
    if k > 0 {
      var tail := candidates[1..];
      assert candidates[0] !in probe;
      assert forall i :: 0 <= i < k - 1 ==> tail[i] == candidates[i + 1];
      WinnerIsFirstSuccess(tail, probe, k - 1);
      assert [candidates[0]] + tail[..k] == candidates[..k + 1];
    }
  }

  /** The credentials handed to every Git request. */
  datatype Credentials = Credentials(username: string, password: Option<string>)

  /** A username given: username plus token as password. None: the token stands as the username. */
  function AuthFor(username: string, token: string): (c: Credentials)
    ensures c.password.Some? <==> username != ""
    ensures c.password.Some? ==> c.username == username && c.password.value == token
    ensures c.password.None? ==> c.username == token
  {
    if username != "" then Credentials(username, Some(token)) else Credentials(token, None)
  }

  /** The token always travels, in one field or the other. */
  lemma TokenAlwaysSent(username: string, token: string)
    ensures AuthFor(username, token).password == Some(token) || AuthFor(username, token).username == token
  {
  }

  function HeadRef(branch: string): string {
    "refs/heads/" + branch
  }

  /** The other name of the main/master pair; any other name maps to `main`. */
  function Alternate(branch: string): (alt: string)
    ensures alt != branch
    ensures alt == "main" || alt == "master"
    ensures branch == "main" ==> alt == "master"
    ensures branch != "main" ==> alt == "main"
  {
    if branch == "main" then "master" else "main"
  }

  /** Within the main/master pair, taking the alternate twice gives the branch back. */
  lemma AlternateIsInvolutiveOnPair(branch: string)
    requires branch == "main" || branch == "master"
    ensures Alternate(Alternate(branch)) == branch
  {
  }

  /** How the sync proceeds with branches: which name it uses, and whether it asked the user. */
  datatype BranchPlan = BranchPlan(branch: string, asked: bool, fetchRemote: bool)

  /**
   * Branch resolution of the push path: when the configured branch is not
   * listed but other branches are, and the alternate is listed, ask; switch
   * only on a yes. Fetching depends on whether the ORIGINAL branch was listed.
   */
  function ResolveBranch(branch: string, refs: seq<string>, confirm: bool): (p: BranchPlan)
    ensures p.fetchRemote <==> HeadRef(branch) in refs
    ensures p.asked <==> HeadRef(branch) !in refs && |refs| > 0 && HeadRef(Alternate(branch)) in refs
    ensures p.branch == (if p.asked && confirm then Alternate(branch) else branch)
  {
    var listed := HeadRef(branch) in refs;
    var ask := !listed && |refs| > 0 && HeadRef(Alternate(branch)) in refs;
    BranchPlan(if ask && confirm then Alternate(branch) else branch, ask, listed)
  }

  /** After switching to the alternate, the plan never fetches: the new branch is created locally. */
  lemma SwitchedBranchIsNotFetched(branch: string, refs: seq<string>)
    requires HeadRef(branch) !in refs && HeadRef(Alternate(branch)) in refs
    ensures ResolveBranch(branch, refs, true).branch == Alternate(branch)
    ensures !ResolveBranch(branch, refs, true).fetchRemote
  {
  }

  /** The branch name shown to the user: the first `refs/heads/` removed. */
  function ShortName(ref: string): string {
    ReplaceFirst(ref, "refs/heads/", "")
  }

  function ShortNames(refs: seq<string>): (names: seq<string>)
    ensures |names| == |refs|
    ensures forall i :: 0 <= i < |refs| ==> names[i] == ShortName(refs[i])
  {
    if refs == [] then [] else [ShortName(refs[0])] + ShortNames(refs[1..])
  }

  lemma ShortNameOfHeadRef(branch: string)
    ensures ShortName(HeadRef(branch)) == branch
  {
    assert OccursAt(HeadRef(branch), "refs/heads/", 0);
    assert HeadRef(branch)[11..] == branch;
  }

  /** The error the early panel raises when the user declines the switch. */
  function BranchNotFound(branch: string, refs: seq<string>): string {
    "Branch '" + branch + "' not found. Available: " + Join(ShortNames(refs), ", ")
  }

  /**
   * Branch resolution of the early panel: same question, but a "no" is an
   * error naming the available branches, and an unlisted alternate keeps the
   * configured name without asking.
   */
  function LegacyResolveBranch(branch: string, refs: seq<string>, confirm: bool): (r: Resolution)
    ensures r.Refused? <==> HeadRef(branch) !in refs && |refs| > 0 && HeadRef(Alternate(branch)) in refs && !confirm
    ensures r.Refused? ==> r.error == BranchNotFound(branch, refs)
    ensures r.Resolved? ==> r.plan.fetchRemote == (HeadRef(branch) in refs)
    ensures r.Resolved? ==> r.plan.branch == (if r.plan.asked then Alternate(branch) else branch)
    ensures r.Resolved? ==> (r.plan.asked <==> HeadRef(branch) !in refs && |refs| > 0 && HeadRef(Alternate(branch)) in refs)
  {
    var listed := HeadRef(branch) in refs;
    if !listed && |refs| > 0 && HeadRef(Alternate(branch)) in refs then
      if confirm then Resolved(BranchPlan(Alternate(branch), true, false))
      else Refused(BranchNotFound(branch, refs))
    else Resolved(BranchPlan(branch, false, listed))
  }

  datatype Resolution = Resolved(plan: BranchPlan) | Refused(error: string)

  /** Both variants agree whenever the user answers yes. */
  lemma ResolutionsAgreeOnYes(branch: string, refs: seq<string>)
    ensures LegacyResolveBranch(branch, refs, true) == Resolved(ResolveBranch(branch, refs, true))
  {
  }
}
