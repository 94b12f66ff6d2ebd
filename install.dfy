/**
  Bootstrap and installation over the abstract filesystem: the directory
  layout under the home directory, the scratch download, and the move of a
  downloaded binary into place.
 */
module Install {
  import opened Wrappers
  import opened Fs
  import opened Http
  import opened Releases
  import opened Assets

  /**
    The filesystem's answers that do not follow from the tree's shape: the
    directories whose creation is refused, and whether creating the scratch
    file, the rename and the chmod are refused.
   */
  datatype Faults = Faults(mkdir: set<Path>, create: bool, rename: bool, chmod: bool)

  /** What installTool reported on the console. */
  datatype InstallOutcome =
    | Unsupported(tooltype: string)
    | FetchFailed(error: FetchError)
    | AssetNotFound
    | MoveFailed(asset: string, errno: Errno)
    | Installed(version: string, asset: string)

  function SpatDir(home: Path): Path { home + [".spat"] }
  function BinDir(home: Path): Path { home + [".spat", "bin"] }
  function TmpDir(home: Path): Path { home + [".spat", "tmp"] }
  function TmpFile(home: Path): Path { TmpDir(home) + ["tmpfile"] }
  function BinFile(home: Path, binaryname: string): Path { BinDir(home) + [binaryname] }

  /** The directories bootstrap creates, in the order it creates them. */
  function SpatDirs(home: Path): seq<Path> {
    [SpatDir(home), BinDir(home), TmpDir(home)]
  }

  /**
    mkdir each of `dirs` in turn with mode 0700, skipping those that already
    exist and stopping at the first other failure.
   */
  function CreateAll(fs: FsMap, dirs: seq<Path>, refused: set<Path>): (r: Outcome)
    ensures Tree(fs) ==> Tree(r.fs)
    ensures r.err != Some(EEXIST)
    decreases |dirs|
  {
    if dirs == [] then Outcome(fs, None)
    else
      var o := MkdirStep(fs, dirs[0], DirMode, dirs[0] in refused);
      if o.err.Some? && o.err != Some(EEXIST) then o
      else CreateAll(o.fs, dirs[1..], refused)
  }

  /** Creating directories never disturbs an existing entry, and adds only directories from `dirs`, with mode 0700. */
  lemma {:induction false} CreateAllOnlyAddsDirs(fs: FsMap, dirs: seq<Path>, refused: set<Path>)
    ensures forall p :: p in fs ==> p in CreateAll(fs, dirs, refused).fs && CreateAll(fs, dirs, refused).fs[p] == fs[p]
    ensures forall p :: p in CreateAll(fs, dirs, refused).fs && p !in fs ==>
      p in dirs && CreateAll(fs, dirs, refused).fs[p] == Dir(DirMode)
    decreases |dirs|
  {
    if dirs != [] {
      var o := MkdirStep(fs, dirs[0], DirMode, dirs[0] in refused);
      if !(o.err.Some? && o.err != Some(EEXIST)) {
        CreateAllOnlyAddsDirs(o.fs, dirs[1..], refused);
      }
    }
  }

  /** When no error is returned, every directory of `dirs` exists (made now or before). */
  lemma {:induction false} CreateAllSuccess(fs: FsMap, dirs: seq<Path>, refused: set<Path>)
    requires CreateAll(fs, dirs, refused).err.None?
    ensures forall d :: d in dirs ==> Exists(CreateAll(fs, dirs, refused).fs, d)
    decreases |dirs|
  {
    if dirs != [] {
      var o := MkdirStep(fs, dirs[0], DirMode, dirs[0] in refused);
      CreateAllSuccess(o.fs, dirs[1..], refused);
      CreateAllOnlyAddsDirs(o.fs, dirs[1..], refused);
      assert Exists(o.fs, dirs[0]);
    }
  }

  /**
    On an error, some directory `dirs[k]` was not created and every entry the
    call added is one of the directories before it: later ones were not
    attempted.
   */
  lemma {:induction false} CreateAllStopsAtFirstFailure(fs: FsMap, dirs: seq<Path>, refused: set<Path>)
    requires CreateAll(fs, dirs, refused).err.Some?
    ensures exists k :: 0 <= k < |dirs| && !Exists(CreateAll(fs, dirs, refused).fs, dirs[k]) &&
                        (forall p :: p in CreateAll(fs, dirs, refused).fs && p !in fs ==> p in dirs[..k])
    decreases |dirs|
  {
    var r := CreateAll(fs, dirs, refused);
    var o := MkdirStep(fs, dirs[0], DirMode, dirs[0] in refused);
    if o.err.Some? && o.err != Some(EEXIST) {
      assert r == o && o.fs == fs;
      assert !Exists(r.fs, dirs[0]);
      assert forall p :: p in r.fs && p !in fs ==> p in dirs[..0];
    } else {
      CreateAllStopsAtFirstFailure(o.fs, dirs[1..], refused);
      var k :| 0 <= k < |dirs[1..]| && !Exists(r.fs, dirs[1..][k]) &&
        forall p :: p in r.fs && p !in o.fs ==> p in dirs[1..][..k];
      assert dirs[1..][..k] == dirs[1..k + 1];
      forall p | p in r.fs && p !in fs
        ensures p in dirs[..k + 1]
      {
        if p in o.fs {
          assert p == dirs[0];
        } else {
          assert p in dirs[1..k + 1];
        }
      }
      assert !Exists(r.fs, dirs[k + 1]);
    }
  }

  /** When every directory already exists, creating them changes nothing and reports no error. */
  lemma {:induction false} CreateAllWhenPresent(fs: FsMap, dirs: seq<Path>, refused: set<Path>)
    requires forall d :: d in dirs ==> Exists(fs, d)
    ensures CreateAll(fs, dirs, refused) == Outcome(fs, None)
    decreases |dirs|
  {
    if dirs != [] {
      assert Exists(fs, dirs[0]);
      CreateAllWhenPresent(fs, dirs[1..], refused);
    }
  }

  /** A successful bootstrap of the directories can be repeated: the second run is a no-op. */
  lemma CreateAllIdempotent(fs: FsMap, dirs: seq<Path>, refused: set<Path>)
    requires CreateAll(fs, dirs, refused).err.None?
    ensures CreateAll(CreateAll(fs, dirs, refused).fs, dirs, refused) == CreateAll(fs, dirs, refused)
  {
    CreateAllSuccess(fs, dirs, refused);
    CreateAllWhenPresent(CreateAll(fs, dirs, refused).fs, dirs, refused);
  }

  /**
    Under an existing home directory, with no refusal and no file squatting
    on one of the three names, bootstrap succeeds and leaves all three as
    directories.
   */
  lemma BootstrapCreatesLayout(fs: FsMap, home: Path, refused: set<Path>)
    requires DirAt(fs, home)
    requires forall d :: d in SpatDirs(home) ==> d !in refused && (d in fs ==> fs[d].Dir?)
    ensures CreateAll(fs, SpatDirs(home), refused).err.None?
    ensures forall d :: d in SpatDirs(home) ==> DirAt(CreateAll(fs, SpatDirs(home), refused).fs, d)
  {
    var dirs := SpatDirs(home);
    assert Parent(dirs[0]) == home;
    assert Parent(dirs[1]) == dirs[0] && Parent(dirs[2]) == dirs[0];
    assert dirs[0] != [] && dirs[1] != [] && dirs[2] != [];
    assert dirs[1][|home| + 1] != dirs[2][|home| + 1];
    assert dirs[0] != dirs[1] && dirs[0] != dirs[2] && dirs[1] != dirs[2];
    var o1 := MkdirStep(fs, dirs[0], DirMode, false);
    assert o1.err.None? || o1.err == Some(EEXIST);
    assert DirAt(o1.fs, dirs[0]) && SameAt(fs, o1.fs, dirs[1]) && SameAt(fs, o1.fs, dirs[2]);
    var o2 := MkdirStep(o1.fs, dirs[1], DirMode, false);
    assert o2.err.None? || o2.err == Some(EEXIST);
    assert DirAt(o2.fs, dirs[0]) && DirAt(o2.fs, dirs[1]) && SameAt(fs, o2.fs, dirs[2]);
    var o3 := MkdirStep(o2.fs, dirs[2], DirMode, false);
    assert o3.err.None? || o3.err == Some(EEXIST);
    assert DirAt(o3.fs, dirs[0]) && DirAt(o3.fs, dirs[1]) && DirAt(o3.fs, dirs[2]);
    assert dirs[1..][1..][1..] == [];
    assert CreateAll(o2.fs, dirs[1..][1..], refused) == Outcome(o3.fs, None);
    assert CreateAll(o1.fs, dirs[1..], refused) == Outcome(o3.fs, None);
    assert CreateAll(fs, dirs, refused) == Outcome(o3.fs, None);
  }

  /** createDirectories: make `~/.spat`, `~/.spat/bin` and `~/.spat/tmp`. */
  method CreateDirectories(fs: FileSystem, home: Path, faults: Faults) returns (err: Option<Errno>)
    requires fs.Valid()
    modifies fs
    ensures fs.Valid()
    ensures Outcome(fs.entries, err) == CreateAll(old(fs.entries), SpatDirs(home), faults.mkdir)
  {
    var dirs := SpatDirs(home);
    for i := 0 to |dirs|
      invariant fs.Valid()
      invariant CreateAll(fs.entries, dirs[i..], faults.mkdir) == CreateAll(old(fs.entries), dirs, faults.mkdir)
    {
      assert dirs[i..][0] == dirs[i] && dirs[i..][1..] == dirs[i + 1..];
      var e := fs.Mkdir(dirs[i], DirMode, dirs[i] in faults.mkdir);
      if e.Some? && e != Some(EEXIST) {
        return e;
      }
    }
    return None;
  }

  /**
    downloadAsset: stream `url` into the fixed scratch file `<dir>/tmpfile`
    and return its path, or None (the empty string) on any failure; a failed
    stream leaves the bytes it delivered in the scratch file.
   */
  method DownloadAsset(fs: FileSystem, net: Network, faults: Faults, url: string, dir: Path)
    returns (tmpfile: Option<Path>)
    requires fs.Valid()
    modifies fs
    ensures fs.Valid()
    ensures net.download(url).GetFailed? ==> fs.entries == old(fs.entries)
    ensures forall p :: p != dir + ["tmpfile"] ==> SameAt(old(fs.entries), fs.entries, p)
    ensures tmpfile.Some? <==>
      && net.download(url).Body? && net.download(url).complete
      && CreateStep(old(fs.entries), dir + ["tmpfile"], faults.create).err.None?
    ensures tmpfile.Some? ==> tmpfile.value == dir + ["tmpfile"] && DirAt(fs.entries, dir)
    ensures net.download(url).Body? && CreateStep(old(fs.entries), dir + ["tmpfile"], faults.create).err.None? ==>
      && FileAt(fs.entries, dir + ["tmpfile"])
      && fs.entries[dir + ["tmpfile"]].data == net.download(url).delivered
    ensures CreateStep(old(fs.entries), dir + ["tmpfile"], faults.create).err.Some? ==>
      fs.entries == old(fs.entries)
  {
    var path := dir + ["tmpfile"];
    assert Parent(path) == dir;
    var resp := net.download(url);
    if resp.GetFailed? {
      return None;
    }
    var err := fs.Create(path, faults.create);
    if err.Some? {
      return None;
    }
    fs.Append(path, resp.delivered);
    if !resp.complete {
      return None;
    }
    return Some(path);
  }

  /** `url` is the first asset URL of `release` that `matches` accepts. */
  ghost predicate Selects(release: GHRelease, matches: string -> bool, url: string) {
    exists i :: FirstMatchAt(GitHubUrls(release), matches, i) && GitHubUrls(release)[i] == url
  }

  /** Nothing matches, or the first match is the empty URL, which installTool cannot tell from "not found". */
  ghost predicate NoUsableMatch(release: GHRelease, matches: string -> bool) {
    forall i :: FirstMatchAt(GitHubUrls(release), matches, i) ==> GitHubUrls(release)[i] == ""
  }

  /**
    Once an asset is selected, the install goes through exactly when its
    download completes, the scratch file can be created, the target is not a
    directory but sits in the existing bin directory, and the move is not
    refused.
   */
  predicate InstallSucceeds(fs: FsMap, download: Download, faults: Faults, home: Path, binaryname: string) {
    && download.Body? && download.complete
    && CreateStep(fs, TmpFile(home), faults.create).err.None?
    && !DirAt(fs, BinFile(home, binaryname)) && DirAt(fs, BinDir(home))
    && !faults.rename
  }

  /**
    The second half of installTool, once an asset is selected: download it to
    the scratch file, rename that onto `~/.spat/bin/<binaryname>` and chmod
    it to 0755, ignoring the chmod's error. The error is the rename's.
   */
  method PlaceAsset(fs: FileSystem, net: Network, faults: Faults, home: Path, asset: string, binaryname: string)
    returns (err: Option<Errno>)
    requires fs.Valid()
    modifies fs
    ensures fs.Valid()
    ensures err.None? <==> InstallSucceeds(old(fs.entries), net.download(asset), faults, home, binaryname)
    ensures forall p :: p != TmpFile(home) && p != BinFile(home, binaryname) ==>
      SameAt(old(fs.entries), fs.entries, p)
    ensures err.Some? ==> SameAt(old(fs.entries), fs.entries, BinFile(home, binaryname))
    ensures err.None? ==>
      var download := net.download(asset);
      && download.Body? && download.complete
      && FileAt(fs.entries, BinFile(home, binaryname))
      && fs.entries[BinFile(home, binaryname)].data == download.delivered
      && (!faults.chmod ==> fs.entries[BinFile(home, binaryname)].mode == ExecMode)
      && TmpFile(home) !in fs.entries
      && DirAt(fs.entries, BinDir(home)) && DirAt(fs.entries, TmpDir(home))
  {
    var binfile := BinFile(home, binaryname);
    var tmpdir := TmpDir(home);
    assert binfile[|home| + 1] != TmpFile(home)[|home| + 1];
    assert Parent(binfile) == BinDir(home);

    var tmpfile := DownloadAsset(fs, net, faults, asset, tmpdir);
    ghost var downloaded := fs.entries;
    assert SameAt(old(fs.entries), downloaded, binfile);
    assert SameAt(old(fs.entries), downloaded, BinDir(home));
    err := fs.Rename(tmpfile, binfile, faults.rename);
    if err.Some? {
      return;
    }
    ghost var moved := fs.entries;
    var ignored := fs.Chmod(binfile, ExecMode, faults.chmod);
    forall p | p != TmpFile(home) && p != binfile
      ensures SameAt(old(fs.entries), fs.entries, p)
    {
      assert SameAt(old(fs.entries), downloaded, p);
      assert SameAt(downloaded, moved, p);
      assert SameAt(moved, fs.entries, p);
    }
    assert SameAt(downloaded, moved, BinDir(home)) && SameAt(moved, fs.entries, BinDir(home));
    assert SameAt(downloaded, moved, TmpDir(home)) && SameAt(moved, fs.entries, TmpDir(home));
  }

  /**
    installTool: resolve the latest GitHub release of `toolid`, select the
    first asset `assetmatch` accepts, download it to the scratch file and
    move it to `~/.spat/bin/<binaryname>` with mode 0755.
   */
  method InstallTool(fs: FileSystem, net: Network, faults: Faults, home: Path,
                     tooltype: string, toolid: string, assetmatch: string -> bool, binaryname: string)
    returns (outcome: InstallOutcome)
    requires fs.Valid()
    modifies fs
    ensures fs.Valid()
    ensures outcome.Unsupported? <==> tooltype != "github"
    ensures outcome.Unsupported? || outcome.FetchFailed? || outcome.AssetNotFound? ==>
      fs.entries == old(fs.entries)
    ensures tooltype == "github" && !net.github(GitHubLatestUrl(toolid)).Decoded? ==> outcome.FetchFailed?
    ensures outcome.FetchFailed? ==>
      var resp := net.github(GitHubLatestUrl(toolid));
      !resp.Decoded? && outcome.error == FailureOf(resp)
    ensures (tooltype == "github" && net.github(GitHubLatestUrl(toolid)).Decoded? &&
             NoUsableMatch(net.github(GitHubLatestUrl(toolid)).value, assetmatch))
            ==> outcome.AssetNotFound?
    ensures outcome.AssetNotFound? ==>
      var resp := net.github(GitHubLatestUrl(toolid));
      resp.Decoded? && NoUsableMatch(resp.value, assetmatch)
    ensures outcome.MoveFailed? || outcome.Installed? ==>
      var resp := net.github(GitHubLatestUrl(toolid));
      && resp.Decoded? && outcome.asset != "" && Selects(resp.value, assetmatch, outcome.asset)
      && (outcome.Installed? <==>
            InstallSucceeds(old(fs.entries), net.download(outcome.asset), faults, home, binaryname))
    ensures outcome.Installed? ==> outcome.version == net.github(GitHubLatestUrl(toolid)).value.tagName
    ensures forall p :: p != TmpFile(home) && p != BinFile(home, binaryname) ==>
      SameAt(old(fs.entries), fs.entries, p)
    ensures !outcome.Installed? ==> SameAt(old(fs.entries), fs.entries, BinFile(home, binaryname))
    ensures outcome.Installed? ==>
      var download := net.download(outcome.asset);
      && download.Body? && download.complete
      && FileAt(fs.entries, BinFile(home, binaryname))
      && fs.entries[BinFile(home, binaryname)].data == download.delivered
      && (!faults.chmod ==> fs.entries[BinFile(home, binaryname)].mode == ExecMode)
      && TmpFile(home) !in fs.entries
      && DirAt(fs.entries, BinDir(home)) && DirAt(fs.entries, TmpDir(home))
  {
    if tooltype != "github" {
      return Unsupported(tooltype);
    }
    var release := GetLatestGitHubRelease(net, toolid);
    ghost var resp := net.github(GitHubLatestUrl(toolid));
    if release.Err? {
      return FetchFailed(release.error);
    }
    GitHubProjectionUnique(resp.value, release.value);
    ghost var urls := GitHubUrls(resp.value);
    assert release.value.assets == urls;
    var asset := FindAsset(release.value.assets, assetmatch);
    if asset == "" {
      forall j | FirstMatchAt(urls, assetmatch, j)
        ensures urls[j] == ""
      {
        var i :| FirstMatchAt(urls, assetmatch, i) && asset == urls[i];
        FirstMatchUnique(urls, assetmatch, i, j);
      }
      return AssetNotFound;
    }
    assert exists j :: 0 <= j < |urls| && assetmatch(urls[j]);
    assert Selects(resp.value, assetmatch, asset);
    var err := PlaceAsset(fs, net, faults, home, asset, binaryname);
    if err.Some? {
      return MoveFailed(asset, err.value);
    }
    return Installed(release.value.version, asset);
  }

  /** The compiled pattern `/ocm-linux-amd64$`'s MatchString. */
  function OcmMatches(s: string): bool {
    MatchString(OcmPattern, s)
  }

  /**
    cmdInit: create the directory layout, ignoring any error, then install
    the OCM command-line tool from GitHub as `~/.spat/bin/ocm`.
   */
  method CmdInit(fs: FileSystem, net: Network, faults: Faults, home: Path) returns (outcome: InstallOutcome)
    requires fs.Valid()
    modifies fs
    ensures fs.Valid()
    ensures !outcome.Unsupported?
    ensures var resp := net.github(GitHubLatestUrl("openshift-online/ocm-cli"));
      && (!resp.Decoded? <==> outcome.FetchFailed?)
      && (resp.Decoded? && NoUsableMatch(resp.value, OcmMatches) <==> outcome.AssetNotFound?)
      && (outcome.MoveFailed? || outcome.Installed? ==>
            && resp.Decoded? && Selects(resp.value, OcmMatches, outcome.asset)
            && (outcome.Installed? <==>
                  InstallSucceeds(CreateAll(old(fs.entries), SpatDirs(home), faults.mkdir).fs,
                                  net.download(outcome.asset), faults, home, "ocm")))
    ensures CreateAll(old(fs.entries), SpatDirs(home), faults.mkdir).err.None? ==>
      forall d :: d in SpatDirs(home) ==> Exists(fs.entries, d)
    ensures outcome.FetchFailed? || outcome.AssetNotFound? ==>
      fs.entries == CreateAll(old(fs.entries), SpatDirs(home), faults.mkdir).fs
    ensures forall p :: p != TmpFile(home) && p != BinFile(home, "ocm") ==>
      SameAt(CreateAll(old(fs.entries), SpatDirs(home), faults.mkdir).fs, fs.entries, p)
    ensures !outcome.Installed? ==>
      SameAt(CreateAll(old(fs.entries), SpatDirs(home), faults.mkdir).fs, fs.entries, BinFile(home, "ocm"))
    ensures outcome.Installed? ==>
      && EndsWith(outcome.asset, "/ocm-linux-amd64")
      && FileAt(fs.entries, BinFile(home, "ocm"))
      && net.download(outcome.asset).Body? && net.download(outcome.asset).complete
      && fs.entries[BinFile(home, "ocm")].data == net.download(outcome.asset).delivered
      && (!faults.chmod ==> fs.entries[BinFile(home, "ocm")].mode == ExecMode)
      && TmpFile(home) !in fs.entries
  {
    var ignored := CreateDirectories(fs, home, faults);
    ghost var created := fs.entries;
    assert created == CreateAll(old(fs.entries), SpatDirs(home), faults.mkdir).fs;
    outcome := InstallTool(fs, net, faults, home, "github", "openshift-online/ocm-cli",
                           OcmMatches, "ocm");
    assert forall p :: p != TmpFile(home) && p != BinFile(home, "ocm") ==> SameAt(created, fs.entries, p);
    if ignored.None? {
      CreateAllSuccess(old(fs.entries), SpatDirs(home), faults.mkdir);
      forall d | d in SpatDirs(home)
        ensures Exists(fs.entries, d)
      {
        assert |d| < |TmpFile(home)| && |d| < |BinFile(home, "ocm")|;
        assert SameAt(created, fs.entries, d);
      }
    }
    if outcome.Installed? {
      EndAnchoredMatchIsSuffix("/ocm-linux-amd64", outcome.asset);
    }
  }
}
