/**
  The status check: query the GitLab-hosted tool first, then each
  GitHub-hosted tool in declaration order, reporting one line per tool and
  stopping at the first failure.
 */
module Check {
  import opened Wrappers
  import opened Http
  import opened Releases

  datatype Provider = GitHub | GitLab

  /** One reported line: the version, the number of assets, the tool and its provider. */
  datatype StatusLine = StatusLine(version: string, assetCount: nat, tool: string, provider: Provider)

  const BackplaneTool := "service/backplane-cli"
  const BackplaneReleasesUrl := "https://gitlab.cee.redhat.com/api/v4/projects/33674/releases"
  const GitHubTools: seq<string> :=
    ["openshift-online/ocm-cli", "openshift/osdctl", "openshift/rosa", "coreos/butane", "prometheus/prometheus"]

  /** How many tools the check covers: the GitLab one and the GitHub ones. */
  function ToolCount(): nat {
    1 + |GitHubTools|
  }

  /**
    What the check should report for tool `k` (0 is the GitLab tool, k > 0 is
    GitHubTools[k - 1]), read straight off the decoded responses.
   */
  function ExpectedStatus(net: Network, k: nat): Result<StatusLine, FetchError>
    requires k < ToolCount()
  {
    if k == 0 then
      match net.gitlab(BackplaneReleasesUrl)
      case TransportFailed => Err(NetworkError)
      case Malformed => Err(DecodeError)
      case Decoded(releases) =>
        if releases == [] then Err(EmptyReleaseList)
        else Ok(StatusLine(releases[0].tagName, |releases[0].links|, BackplaneTool, GitLab))
    else
      var orgrepo := GitHubTools[k - 1];
      match net.github(GitHubLatestUrl(orgrepo))
      case TransportFailed => Err(NetworkError)
      case Malformed => Err(DecodeError)
      case Decoded(release) => Ok(StatusLine(release.tagName, |release.assets|, orgrepo, GitHub))
  }

  /**
    cmdCheck: the lines are the expected statuses of the first tools in
    order; with no error every tool is reported, and an error is the failure
    of the tool right after the last reported one.
   */
  method CmdCheck(net: Network) returns (lines: seq<StatusLine>, err: Option<FetchError>)
    ensures |lines| <= ToolCount()
    ensures forall k :: 0 <= k < |lines| ==> ExpectedStatus(net, k) == Ok(lines[k])
    ensures err.None? ==> |lines| == ToolCount()
    ensures err.Some? ==> |lines| < ToolCount() && ExpectedStatus(net, |lines|) == Err(err.value)
  {
    var gitlab := GetLatestGitLabRelease(net, BackplaneReleasesUrl);
    if gitlab.Err? {
      return [], Some(gitlab.error);
    }
    lines := [StatusLine(gitlab.value.version, |gitlab.value.assets|, BackplaneTool, GitLab)];
    for i := 0 to |GitHubTools|
      invariant |lines| == i + 1
      invariant forall k :: 0 <= k < |lines| ==> ExpectedStatus(net, k) == Ok(lines[k])
    {
      var github := GetLatestGitHubRelease(net, GitHubTools[i]);
      if github.Err? {
        return lines, Some(github.error);
      }
      lines := lines + [StatusLine(github.value.version, |github.value.assets|, GitHubTools[i], GitHub)];
    }
    return lines, None;
  }
}
