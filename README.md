# spat: release resolution, asset selection and installation

`spat` manages a handful of command-line tools. It looks up each tool's latest
release on GitHub or GitLab, picks the artifact whose URL matches a pattern,
downloads it to a scratch file under `~/.spat/tmp`, and moves it to
`~/.spat/bin/<name>` with mode 0755. This project models that pipeline in
Dafny and proves its properties. The model follows `spat.go`.

- `Fs` is an abstract filesystem: a map from absolute paths (sequences of
  segments; the root is `[]`) to directories and files with contents and a
  mode. The syscalls `mkdir`, `open(O_CREATE|O_TRUNC)`, `write`, `rename` and
  `chmod` are step functions that keep the tree invariant `Tree`. The
  `FileSystem` class holds the map and changes it in place through them.
  Failures that do not follow from the tree's shape are oracle arguments.
- `Http` holds the network as data. A `Network` gives, for every URL, what a
  GET returns, already decoded for the two release endpoints.
- `Releases` projects a decoded GitHub release, or the first GitLab release,
  to a version and an ordered URL list.
- `Assets` does first-match asset selection. It also has the literal
  regular expressions the tool is configured with, which RE2's unanchored
  `MatchString` searches for.
- `Install` covers directory bootstrap (`CreateAll` specifies it,
  `CreateDirectories` runs it), the scratch download, `installTool` and
  `cmdInit`.
- `Check` is the fail-fast status report of `cmdCheck`.

The model follows the code, including where the code departs from the intended design:
- `http.Get` does not fail on a non-2xx status, so that body is downloaded like any other.
- The scratch file is always `tmp/tmpfile`, not a uniquely named file.
- `cmdCheck` stops at the first failure instead of isolating each tool.
- There is no "unsupported archive" error. Archives are not detected.

One exception: for an empty GitLab release list the code panics (see Findings). The model returns `EmptyReleaseList` instead.

## Model

| member | source | states |
|---|---|---|
| Assets.FindAsset | spat.go:145-153 | returns the first asset in list order that the matcher accepts, with no earlier asset accepted; returns "" when none is accepted (a matching "" is indistinguishable from not found) |
| Assets.FirstMatchUnique | spat.go:147-150 | the first match is unique, so the asset the scan returns is determined by the list and the matcher |
| Assets.EndAnchoredMatchIsSuffix | spat.go:220 | the end-anchored literal `/ocm-linux-amd64$` matches a URL exactly when the URL ends with `/ocm-linux-amd64` |
| Assets.UnanchoredMatchesMore | spat.go:148 | MatchString is an unanchored search: without `$`, a literal also matches inside a longer name such as a `.sha256` companion file |
| Releases.GetLatestGitHubRelease | spat.go:23-50 | transport failure gives NetworkError and a decoding failure gives DecodeError; otherwise the version is `tag_name` and the URL list has one entry per asset, entry i being asset i's download URL, in order |
| Releases.GitHubProjectionUnique | spat.go:43-49 | the projection leaves no freedom: any result satisfying it has exactly that tag and that URL list |
| Releases.GetLatestGitLabRelease | spat.go:62-88 | failures map as for GitHub; an empty release list gives EmptyReleaseList; otherwise only element 0 is used: its tag, and one URL per link, entry i being link i's direct asset URL, in order |
| Releases.AsWrittenPanicsOnEmptyList | spat.go:80 | getLatestGitLabRelease as written panics on exactly a decoded empty release list, the one input on which the corrected version returns EmptyReleaseList |
| Releases.AsWrittenAgreesOnOtherInputs | spat.go:62-88 | on every other input the code as written returns what the corrected version promises: the same failure mapping and the in-order projection of element 0 |
| Fs.MkdirStep | spat.go:133 | mkdir reports EEXIST exactly when the path exists; it succeeds exactly when the path is absent, its parent is a directory and nothing refuses; on failure nothing changes; the tree invariant is kept |
| Fs.CreateStep | spat.go:165 | os.Create succeeds exactly when the path is not a directory, its parent is a directory and nothing refuses; on success the file exists and is empty, and nothing else changes |
| Fs.AppendStep | spat.go:172 | writing appends the bytes to the file's contents and changes nothing else |
| Fs.RenameStep | spat.go:207 | rename succeeds exactly when the source exists (the empty name never does), the target is not a directory and its parent is one; on success the target holds the source's entry, the source is gone and nothing else changes; a directory at the target is EEXIST, as `os.Rename` reports; on failure nothing changes |
| Fs.ChmodStep | spat.go:212 | chmod on an existing path sets its mode and keeps its kind and contents; nothing else changes |
| Install.CreateAll | spat.go:126-138 | the mkdir sequence never reports EEXIST to its caller and keeps the tree invariant |
| Install.CreateAllOnlyAddsDirs | spat.go:132-138 | creating the directories never alters an existing entry and adds only directories from the list, with mode 0700 |
| Install.CreateAllSuccess | spat.go:132-142 | when no error is returned, every listed directory exists afterwards |
| Install.CreateAllStopsAtFirstFailure | spat.go:134-137 | on an error, some directory k was not created, and every added entry is one of the directories before k, so later ones were not attempted |
| Install.CreateAllWhenPresent | spat.go:133-134 | when every directory already exists, the sequence changes nothing and reports no error |
| Install.CreateAllIdempotent | spat.go:126-142 | after a successful run, running the bootstrap again is a no-op |
| Install.BootstrapCreatesLayout | spat.go:126-138 | under an existing home with no refusals and no file in the way, bootstrap succeeds and `.spat`, `.spat/bin`, `.spat/tmp` are all directories |
| Install.CreateDirectories | spat.go:117-143 | the mkdir loop over `.spat`, `.spat/bin`, `.spat/tmp` yields exactly the state and error `CreateAll` specifies |
| Install.DownloadAsset | spat.go:155-179 | a failed GET or a failed create changes nothing; only `<dir>/tmpfile` can change; the path is returned exactly when the GET, the create and the full copy succeed; once created, the scratch file holds the delivered bytes |
| Install.PlaceAsset | spat.go:199-214 | the download-rename-chmod tail succeeds exactly when the download completes, the scratch file can be created, the target is not a directory, its bin directory exists and the move is not refused; only the scratch file and the target may change; on failure the target is unchanged; on success the target holds the complete download, has mode 0755 unless chmod is refused, and the scratch file is gone |
| Install.InstallTool | spat.go:181-216 | a type other than "github" is exactly Unsupported; a fetch failure forces FetchFailed and no usable match (none, or a first match that is "") forces AssetNotFound, and all three change nothing; otherwise the first matching asset is downloaded and the outcome is Installed exactly when the install can succeed, MoveFailed otherwise; only the scratch file and the target may change; the target is unchanged unless installed; when installed it holds the complete download with mode 0755 unless chmod is refused, and the scratch file is gone |
| Install.CmdInit | spat.go:218-221 | the install of `openshift-online/ocm-cli` with pattern `/ocm-linux-amd64$` is always attempted, whatever the bootstrap's result: a fetch failure is exactly FetchFailed, no usable match exactly AssetNotFound, and otherwise the first matching asset is installed exactly when the install can succeed on the bootstrapped state; when the bootstrap succeeds, the three directories still exist afterwards; a fetch failure or no match leaves exactly the bootstrapped state; apart from `~/.spat/tmp/tmpfile` and `~/.spat/bin/ocm` every path stays as the bootstrap left it, and `bin/ocm` changes only on a successful install; an installed asset's URL ends with `/ocm-linux-amd64`, `bin/ocm` holds its complete download with mode 0755 unless the chmod is refused, and the scratch file is gone |
| Check.CmdCheck | spat.go:90-115 | reports the GitLab tool and then the GitHub tools in declaration order, each line carrying the tag and asset count of its decoded release; without an error all six are reported; an error is the failure of the first unreported tool, and no later tool is reported |

## Findings

| source | as written | input that shows it | evidently intended | confidence | as-written member | corrected member |
|---|---|---|---|---|---|---|
| spat.go:80 | `latestRelease := releases[0]` without a length check | a GitLab project with no releases, whose endpoint returns `[]` | report an empty-release-list error instead of panicking | high (not executed) | Releases.AsWrittenPanicsOnEmptyList | Releases.GetLatestGitLabRelease |

## Left out

- HTTP requests, response streaming and JSON decoding are not modelled. A `Network` value gives their results, so each URL has one fixed answer per run.
- The regular-expression engine is not modelled. `FindAsset` takes any matcher. Only literal patterns with optional `^`/`$` have semantics here, which covers the one pattern the code uses. `regexp.MustCompile`'s panic on a malformed pattern cannot arise for them.
- The failure of `os.UserHomeDir` is not modelled. The home directory is a parameter, which also covers the ignored error at spat.go:199.
- Path joining is not modelled. Paths are segment sequences, so a binary name containing `/` counts as one segment.
- The process umask and file ownership are not modelled.
- Install.InstallTool: when chmod is refused, the contract does not say what mode the target keeps, because spat.go:212 ignores that error.
- Install.InstallTool: after a failed download or move, the contract does not say what the scratch file holds. It only says the target is unchanged.
- Renaming directories is not modelled. The code only renames the scratch file, which is never a directory when the rename can succeed.
- Console output (`fmt.Print*`) is not modelled. `InstallTool` returns the outcome it would print, and `CmdCheck` returns its lines.
- The cobra wiring in `main`, the `cmdUpgrade` stub and archive extraction are not modelled, since the code has none of the last two.
- Concurrency is not modelled. The tool is a single synchronous process.
