/**
  Release resolution: from a provider's decoded answer to a version tag and
  the ordered list of artifact URLs.
 */
module Releases {
  import opened Wrappers
  import opened Http

  datatype FetchError = NetworkError | DecodeError | EmptyReleaseList

  datatype ReleaseInfo = ReleaseInfo(version: string, assets: seq<string>)

  function GitHubLatestUrl(orgrepo: string): string {
    "https://api.github.com/repos/" + orgrepo + "/releases/latest"
  }

  /** `info` carries the tag of `release` and the download URL of each asset, in order. */
  predicate GitHubProjection(release: GHRelease, info: ReleaseInfo) {
    && info.version == release.tagName
    && |info.assets| == |release.assets|
    && forall i :: 0 <= i < |release.assets| ==> info.assets[i] == release.assets[i].url
  }

  /** `info` carries the tag of `release` and the direct URL of each link, in order. */
  predicate GitLabProjection(release: GLRelease, info: ReleaseInfo) {
    && info.version == release.tagName
    && |info.assets| == |release.links|
    && forall i :: 0 <= i < |release.links| ==> info.assets[i] == release.links[i].directAssetUrl
  }

  /** The download URLs of `release`'s assets, in the server's order. */
  ghost function GitHubUrls(release: GHRelease): (urls: seq<string>)
    ensures GitHubProjection(release, ReleaseInfo(release.tagName, urls))
  {
    seq(|release.assets|, i requires 0 <= i < |release.assets| => release.assets[i].url)
  }

  /** The projection leaves no choice: its URL list is `GitHubUrls`. */
  lemma GitHubProjectionUnique(release: GHRelease, info: ReleaseInfo)
    requires GitHubProjection(release, info)
    ensures info == ReleaseInfo(release.tagName, GitHubUrls(release))
  {
    assert info.assets == GitHubUrls(release);
  }

  /** Transport and decoding failures, as the caller sees them. */
  function FailureOf<T>(resp: Response<T>): (e: FetchError)
    requires !resp.Decoded?
    ensures e == NetworkError <==> resp.TransportFailed?
    ensures e == DecodeError <==> resp.Malformed?
  {
    if resp.TransportFailed? then NetworkError else DecodeError
  }

  /** The latest release of GitHub repository `orgrepo`. */
  method GetLatestGitHubRelease(net: Network, orgrepo: string) returns (r: Result<ReleaseInfo, FetchError>)
    ensures !net.github(GitHubLatestUrl(orgrepo)).Decoded? ==>
      r == Err(FailureOf(net.github(GitHubLatestUrl(orgrepo))))
    ensures net.github(GitHubLatestUrl(orgrepo)).Decoded? ==>
      r.Ok? && GitHubProjection(net.github(GitHubLatestUrl(orgrepo)).value, r.value)
  {
    var resp := net.github(GitHubLatestUrl(orgrepo));
    if !resp.Decoded? {
      return Err(FailureOf(resp));
    }
    var release := resp.value;
    var assets: seq<string> := [];
    for i := 0 to |release.assets|
      invariant |assets| == i
      invariant forall j :: 0 <= j < i ==> assets[j] == release.assets[j].url
    {
      assets := assets + [release.assets[i].url];
    }
    return Ok(ReleaseInfo(release.tagName, assets));
  }

  /**
    The latest release of a GitLab project, taken to be the first element of
    the releases list at `url`. An empty list is reported as
    EmptyReleaseList.
   */
  method GetLatestGitLabRelease(net: Network, url: string) returns (r: Result<ReleaseInfo, FetchError>)
    ensures !net.gitlab(url).Decoded? ==> r == Err(FailureOf(net.gitlab(url)))
    ensures net.gitlab(url) == Decoded([]) ==> r == Err(EmptyReleaseList)
    ensures net.gitlab(url).Decoded? && net.gitlab(url).value != [] ==>
      r.Ok? && GitLabProjection(net.gitlab(url).value[0], r.value)
  {
    var resp := net.gitlab(url);
    if !resp.Decoded? {
      return Err(FailureOf(resp));
    }
    var releases := resp.value;
    if releases == [] {
      return Err(EmptyReleaseList);
    }
    var latest := releases[0];
    var links := latest.links;
    var assets: seq<string> := seq(|links|, _ => "");
    for i := 0 to |links|
      invariant |assets| == |links|
      invariant forall j :: 0 <= j < i ==> assets[j] == links[j].directAssetUrl
    {
      assets := assets[i := links[i].directAssetUrl];
    }
    return Ok(ReleaseInfo(latest.tagName, assets));
  }

  /** Go's index expression `s[i]`: the element, or a run-time panic. */
  datatype Indexed<T> = Element(value: T) | IndexOutOfRange

  /** Go's `releases[0]` as written, before any emptiness check. */
  function LatestAsWritten(releases: seq<GLRelease>): (r: Indexed<GLRelease>)
    ensures r.Element? <==> releases != []
    ensures r.Element? ==> releases != [] && r.value == releases[0]
  {
    if |releases| == 0 then IndexOutOfRange else Element(releases[0])
  }

  /** What a Go call does: return a value, or panic at run time. */
  datatype GoOutcome<T> = Returned(value: T) | Panicked

  /**
    getLatestGitLabRelease as written: the same failure mapping and
    projection, but element 0 is taken without checking that the list is
    non-empty.
   */
  function GetLatestGitLabReleaseAsWritten(resp: Response<seq<GLRelease>>): GoOutcome<Result<ReleaseInfo, FetchError>>
  {
    if !resp.Decoded? then Returned(Err(FailureOf(resp)))
    else
      match LatestAsWritten(resp.value)
      case IndexOutOfRange => Panicked
      case Element(latest) =>
        Returned(Ok(ReleaseInfo(latest.tagName,
          seq(|latest.links|, i requires 0 <= i < |latest.links| => latest.links[i].directAssetUrl))))
  }

  /**
    The code as written panics on exactly the empty release list, the one
    input for which GetLatestGitLabRelease returns EmptyReleaseList.
   */
  lemma AsWrittenPanicsOnEmptyList(resp: Response<seq<GLRelease>>)
    ensures GetLatestGitLabReleaseAsWritten(resp).Panicked? <==> resp == Decoded([])
  {
    if resp.Decoded? && resp.value != [] {
      assert LatestAsWritten(resp.value).Element?;
    }
  }

  /**
    On every other input the code as written returns what
    GetLatestGitLabRelease promises: the same failure mapping, and the
    projection of element 0.
   */
  lemma AsWrittenAgreesOnOtherInputs(resp: Response<seq<GLRelease>>)
    requires resp != Decoded([])
    ensures GetLatestGitLabReleaseAsWritten(resp).Returned?
    ensures !resp.Decoded? ==> GetLatestGitLabReleaseAsWritten(resp).value == Err(FailureOf(resp))
    ensures resp.Decoded? ==>
      && GetLatestGitLabReleaseAsWritten(resp).value.Ok?
      && GitLabProjection(resp.value[0], GetLatestGitLabReleaseAsWritten(resp).value.value)
  {
    if resp.Decoded? {
      assert resp.value != [];
      assert LatestAsWritten(resp.value) == Element(resp.value[0]);
    }
  }
}
