/**
 * Fetching the editor's project archive: the download URL of each platform,
 * and the checks each sync applies to the HTTP response before unpacking it.
 *
 * The response is an oracle: its `ok` flag, status code, content type
 * header and body size.
 */
module Download {
  import opened Base
  import opened Text
  import opened Identity

  const OverleafArchivePrefix := "https://www.overleaf.com/project/"
  const TexPageArchivePrefix := "https://www.texpage.com/api/project/download?projectKey="

  /** Bodies smaller than this are rejected before unpacking. */
  const MinArchiveSize := 100

  /** Overleaf's archive URL for a project. */
  function OverleafArchiveUrl(projectId: string): (url: string)
    ensures StartsWith(url, OverleafArchivePrefix)
    ensures EndsWith(url, "/download/zip")
    ensures |url| == |OverleafArchivePrefix| + |projectId| + 13
    ensures url[|OverleafArchivePrefix|..|url| - 13] == projectId
  {
    OverleafArchivePrefix + projectId + "/download/zip"
  }

  /** TexPage's archive URL for a project key and version number. */
  function TexPageArchiveUrl(projectKey: string, versionNo: string): (url: string)
    ensures StartsWith(url, TexPageArchivePrefix)
    ensures EndsWith(url, "&bbl=false")
    ensures Contains(url, "&versionNo=" + versionNo)
    ensures |url| == |TexPageArchivePrefix| + |projectKey| + 11 + |versionNo| + 10
    ensures url[|TexPageArchivePrefix|..|TexPageArchivePrefix| + |projectKey|] == projectKey
    ensures url[|TexPageArchivePrefix| + |projectKey|..|TexPageArchivePrefix| + |projectKey| + 11] == "&versionNo="
    ensures url[|TexPageArchivePrefix| + |projectKey| + 11..|url| - 10] == versionNo
  {
    var url := TexPageArchivePrefix + projectKey + "&versionNo=" + versionNo + "&bbl=false";
    assert OccursAt(url, "&versionNo=" + versionNo, |TexPageArchivePrefix| + |projectKey|);
    url
  }

  /** A `/`, 36 hex digits or dashes, a `/`, 36 more: the TexPage editor's project/version path. */
  predicate KeyPairAt(s: string, i: nat) {
    i + 74 <= |s| && s[i] == '/' && HexRunAt(s, i + 1) && s[i + 37] == '/' && HexRunAt(s, i + 38)
  }

  /** The leftmost project/version pair in the path at or after `from`. */
  function FindKeyPair(s: string, from: nat): (r: Option<nat>)
    ensures r.Some? ==> from <= r.value && KeyPairAt(s, r.value)
    ensures r.Some? ==> forall j :: from <= j < r.value ==> !KeyPairAt(s, j)
    ensures r.None? ==> forall j :: from <= j ==> !KeyPairAt(s, j)
    decreases |s| - from
  {
    if from + 74 > |s| then None
    else if KeyPairAt(s, from) then Some(from)
    else FindKeyPair(s, from + 1)
  }

  /** The project key and version number read from the page's embedded data, when present. */
  datatype PageKeys = PageKeys(projectKey: Option<string>, versionNo: Option<string>)

  /** The keys from the path when it holds a pair, else from the page. */
  function TexPageKeys(pathname: string, page: PageKeys): (keys: PageKeys)
    ensures FindKeyPair(pathname, 0).Some? ==>
      keys.projectKey.Some? && keys.versionNo.Some?
      && |keys.projectKey.value| == 36 && |keys.versionNo.value| == 36
    ensures FindKeyPair(pathname, 0).Some? ==>
      var i := FindKeyPair(pathname, 0).value;
      keys.projectKey == Some(pathname[i + 1..i + 37]) && keys.versionNo == Some(pathname[i + 38..i + 74])
    ensures FindKeyPair(pathname, 0).None? ==> keys == page
  {
    match FindKeyPair(pathname, 0)
    case Some(i) => PageKeys(Some(pathname[i + 1..i + 37]), Some(pathname[i + 38..i + 74]))
    case None => page
  }

  /** A missing key interpolated into a template literal prints as "undefined". */
  function Interpolated(v: Option<string>): (s: string)
    ensures v.Some? ==> s == v.value
    ensures v.None? ==> s == "undefined"
  {
    v.GetOr("undefined")
  }

  /**
   * The pull's download URL: Overleaf's from the project id; TexPage's from
   * both keys, and no URL at all when either key is missing.
   */
  function PullArchiveUrl(platform: string, projectId: string, pathname: string, page: PageKeys): (url: Option<string>)
    ensures platform == "overleaf" ==> url == Some(OverleafArchiveUrl(projectId))
    ensures platform != "overleaf" ==>
      (url.Some? <==> TexPageKeys(pathname, page).projectKey.Some? && TexPageKeys(pathname, page).versionNo.Some?)
    ensures platform != "overleaf" && url.Some? ==> StartsWith(url.value, TexPageArchivePrefix)
    ensures platform != "overleaf" && url.Some? ==>
      var keys := TexPageKeys(pathname, page);
      url.value == TexPageArchiveUrl(keys.projectKey.value, keys.versionNo.value)
  {
    if platform == "overleaf" then Some(OverleafArchiveUrl(projectId))
    else
      var keys := TexPageKeys(pathname, page);
      if keys.projectKey.Some? && keys.versionNo.Some? then
        Some(TexPageArchiveUrl(keys.projectKey.value, keys.versionNo.value))
      else None
  }

  /**
   * The push's download URL: the same choice, except that a missing key is
   * interpolated as "undefined" and a URL is always produced.
   */
  function PushArchiveUrl(platform: string, projectId: string, pathname: string, page: PageKeys): (url: string)
    ensures platform == "overleaf" ==> url == OverleafArchiveUrl(projectId)
    ensures platform != "overleaf" ==> StartsWith(url, TexPageArchivePrefix)
    ensures platform != "overleaf" ==>
      var keys := TexPageKeys(pathname, page);
      url == TexPageArchiveUrl(Interpolated(keys.projectKey), Interpolated(keys.versionNo))
  {
    if platform == "overleaf" then OverleafArchiveUrl(projectId)
    else
      var keys := TexPageKeys(pathname, page);
      TexPageArchiveUrl(Interpolated(keys.projectKey), Interpolated(keys.versionNo))
  }

  /**
   * On a TexPage editor path holding a project/version pair, both syncs
   * request the archive of the leftmost pair: the project key and the
   * version number read back from the URL are the path's two runs.
   */
  lemma ArchiveOfPathPair(platform: string, projectId: string, pathname: string, page: PageKeys, i: nat)
    requires platform != "overleaf"
    requires KeyPairAt(pathname, i)
    requires forall j :: 0 <= j < i ==> !KeyPairAt(pathname, j)
    ensures PullArchiveUrl(platform, projectId, pathname, page).Some?
    ensures var url := PushArchiveUrl(platform, projectId, pathname, page);
      && url == PullArchiveUrl(platform, projectId, pathname, page).value
      && url[|TexPageArchivePrefix|..|TexPageArchivePrefix| + 36] == pathname[i + 1..i + 37]
      && url[|TexPageArchivePrefix| + 47..|url| - 10] == pathname[i + 38..i + 74]
  {
    var r := FindKeyPair(pathname, 0);
    assert r.Some? by {
      assert KeyPairAt(pathname, i);
    }
    assert r.value == i by {
      assert !(r.value < i) && !(i < r.value);
    }
  }

  /** Whenever the pull finds a URL, the push requests the same one. */
  lemma ArchiveUrlsAgree(platform: string, projectId: string, pathname: string, page: PageKeys)
    requires PullArchiveUrl(platform, projectId, pathname, page).Some?
    ensures PushArchiveUrl(platform, projectId, pathname, page) == PullArchiveUrl(platform, projectId, pathname, page).value
  {
  }

  /** Where the pull gives up for lack of a version number, the push requests a URL naming "undefined". */
  lemma PushRequestsUndefinedVersion(pathname: string, projectKey: string)
    requires FindKeyPair(pathname, 0).None?
    ensures PullArchiveUrl("texpage", "", pathname, PageKeys(Some(projectKey), None)).None?
    ensures Contains(PushArchiveUrl("texpage", "", pathname, PageKeys(Some(projectKey), None)), "&versionNo=undefined")
  {
    assert "&versionNo=" + Interpolated(None) == "&versionNo=undefined";
  }

  /** The HTTP response to the archive request. */
  datatype Response = Response(ok: bool, status: int, contentType: Option<string>, size: nat)

  /** The verdict on a response: unpack it, or abort with an error message. */
  datatype Verdict = Accepted | Rejected(message: string)

  /** The pull's checks: a failed request, then a body under 100 bytes. */
  function CheckForPull(r: Response): (v: Verdict)
    ensures v.Accepted? <==> r.ok && r.size >= MinArchiveSize
    ensures !r.ok ==> v == Rejected("Download failed")
    ensures r.ok && r.size < MinArchiveSize ==> v == Rejected("File too small")
  {
    if !r.ok then Rejected("Download failed")
    else if r.size < MinArchiveSize then Rejected("File too small")
    else Accepted
  }

  /** The push's checks: the same, with the status code in the first message. */
  function CheckForPush(r: Response): (v: Verdict)
    ensures v.Accepted? <==> r.ok && r.size >= MinArchiveSize
    ensures !r.ok ==> v == Rejected("Download failed: " + IntToString(r.status))
    ensures r.ok && r.size < MinArchiveSize ==> v == Rejected("File too small")
  {
    if !r.ok then Rejected("Download failed: " + IntToString(r.status))
    else if r.size < MinArchiveSize then Rejected("File too small")
    else Accepted
  }

  /** An HTML page where an archive was expected: the session has expired. */
  predicate IsHtml(contentType: Option<string>) {
    contentType.Some? && Contains(Lower(contentType.value), "text/html")
  }

  /** The early panel's checks: status, then an HTML body, then the size. */
  function CheckForLegacyPush(r: Response): (v: Verdict)
    ensures v.Accepted? <==> r.ok && !IsHtml(r.contentType) && r.size >= MinArchiveSize
    ensures !r.ok ==> v == Rejected("Download status: " + IntToString(r.status))
    ensures r.ok && IsHtml(r.contentType) ==> v == Rejected("Got HTML. Relogin required.")
    ensures r.ok && !IsHtml(r.contentType) && r.size < MinArchiveSize ==> v == Rejected("ZIP too small.")
  {
    if !r.ok then Rejected("Download status: " + IntToString(r.status))
    else if IsHtml(r.contentType) then Rejected("Got HTML. Relogin required.")
    else if r.size < MinArchiveSize then Rejected("ZIP too small.")
    else Accepted
  }

  /**
   * Opening the archive (`JSZip.loadAsync`) once the response checks pass: a
   * body that is not a ZIP archive, such as a login page served with status
   * 200, makes the open throw with the library's message.
   */
  function Opened(check: Verdict, unzipError: Option<string>): (v: Verdict)
    ensures v.Accepted? <==> check.Accepted? && unzipError.None?
    ensures check.Rejected? ==> v == check
    ensures check.Accepted? && unzipError.Some? ==> v == Rejected(unzipError.value)
  {
    match check
    case Rejected(_) => check
    case Accepted => if unzipError.Some? then Rejected(unzipError.value) else Accepted
  }

  /** The three checks accept the same responses, except that the early panel also refuses HTML. */
  lemma ChecksAgree(r: Response)
    ensures CheckForPull(r).Accepted? <==> CheckForPush(r).Accepted?
    ensures CheckForLegacyPush(r).Accepted? <==> CheckForPush(r).Accepted? && !IsHtml(r.contentType)
  {
  }

  /** The content type is compared without regard to ASCII case, and a missing header is not HTML. */
  lemma HtmlCheckIgnoresCase()
    ensures IsHtml(Some("Text/HTML"))
    ensures !IsHtml(None)
  {
    LowerMixedCaseHtml();
    assert OccursAt("text/html", "text/html", 0);
  }

  /** The mixed-case header lowers to the plain media type. */
  lemma LowerMixedCaseHtml()
    ensures Lower("Text/HTML") == "text/html"
  {
    var lowered := Lower("Text/HTML");
    assert LowerChar('T') == 't' && LowerChar('H') == 'h' && LowerChar('M') == 'm' && LowerChar('L') == 'l';
    assert forall i :: 0 <= i < 9 ==> lowered[i] == "text/html"[i];
  }

}
