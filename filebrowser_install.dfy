/** The filebrowser installer: it maps the operating system and machine
    names to the release's naming, picks the release URL and the asset
    whose name is the binary's, and chooses where the binary goes. The
    platform probe, the GitHub API and the download are inputs. */
module FilebrowserInstall {
  import opened Wrappers
  import opened PyStr
  import opened Paths

  /** An operating system and architecture, in the release's naming. */
  datatype Platform = Platform(os: Str, arch: Str)

  const SupportedOs: set<Str> := {"darwin", "linux", "windows"}
  const Architectures: set<Str> := {"amd64", "arm64", "armv7", "armv6"}

  /** The operating system part of `detect_platform`, on what
      `platform.system()` reports. */
  function DetectOs(system: Str): (r: Result<Str>)
    ensures r.Ok? <==> Lower(system) in SupportedOs
    ensures r.Ok? ==> r.value == Lower(system)
    ensures r.Err? ==> r.error == RuntimeError("Unsupported OS: " + Lower(system))
  {
    var s := Lower(system);
    if s == "darwin" then Ok("darwin")
    else if s == "linux" then Ok("linux")
    else if s == "windows" then Ok("windows")
    else Err(RuntimeError("Unsupported OS: " + s))
  }

  /** The architecture part of `detect_platform`, on what
      `platform.machine()` reports; an unknown machine counts as `amd64`. */
  function DetectArch(machine: Str): (r: Str)
    ensures r in Architectures
  {
    var m := Lower(machine);
    if m == "x86_64" || m == "amd64" then "amd64"
    else if m == "arm64" || m == "aarch64" then "arm64"
    else if StartsWith(m, "armv7") then "armv7"
    else if StartsWith(m, "armv6") then "armv6"
    else "amd64"
  }

  /** `detect_platform`: an unsupported system raises before the machine
      is looked at. */
  function DetectPlatform(system: Str, machine: Str): (r: Result<Platform>)
    ensures r.Ok? <==> DetectOs(system).Ok?
    ensures r.Ok? ==> r.value == Platform(DetectOs(system).value, DetectArch(machine))
    ensures r.Err? ==> r == Err(DetectOs(system).error)
  {
    match DetectOs(system)
    case Err(e) => Err(e)
    case Ok(os) => Ok(Platform(os, DetectArch(machine)))
  }

  /** The architecture table, row by row: the 64-bit names, then the ARM
      prefixes in the order they are tried, and `amd64` for the rest. */
  lemma ArchTable(machine: Str)
    ensures Lower(machine) in {"x86_64", "amd64"} ==> DetectArch(machine) == "amd64"
    ensures Lower(machine) in {"arm64", "aarch64"} ==> DetectArch(machine) == "arm64"
    ensures StartsWith(Lower(machine), "armv7") ==> DetectArch(machine) == "armv7"
    ensures StartsWith(Lower(machine), "armv6") ==> DetectArch(machine) == "armv6"
    ensures DetectArch(machine) == "armv7" <==> StartsWith(Lower(machine), "armv7")
    ensures DetectArch(machine) == "armv6" <==> StartsWith(Lower(machine), "armv6")
    ensures DetectArch(machine) == "arm64" <==> Lower(machine) in {"arm64", "aarch64"}
  {
    var m := Lower(machine);
    if StartsWith(m, "armv7") || StartsWith(m, "armv6") {
      assert m[1] == 'r' && m[3] == 'v';
      assert "x86_64"[1] == '8' && "amd64"[1] == 'm' && "arm64"[3] == '6' && "aarch64"[1] == 'a';
    }
    if StartsWith(m, "armv6") {
      assert m[4] == '6';
    }
  }

  /** Every platform name is already lower case, so detecting a platform
      from its own names gives it back. */
  lemma DetectOwnNames(p: Platform)
    requires p.os in SupportedOs && p.arch in Architectures
    ensures DetectPlatform(p.os, p.arch) == Ok(p)
  {
    LowerOfLower(p.os);
    LowerOfLower(p.arch);
    if p.arch == "armv7" {
      assert StartsWith("armv7", "armv7");
    } else if p.arch == "armv6" {
      assert "armv6"[4] == '6';
      assert StartsWith("armv6", "armv6");
    }
  }

  // ---- names and URLs ----------------------------------------------------

  /** `get_binary_name`. */
  function BinaryName(p: Platform): (r: Str)
    ensures p.os == "windows" ==> r == "filebrowser.exe"
    ensures p.os != "windows" ==> StartsWith(r, p.os + "-") && EndsWith(r, "-" + p.arch + "-filebrowser")
    ensures p.os != "windows" ==> |r| == |p.os| + |p.arch| + 13
  {
    if p.os == "windows" then "filebrowser.exe"
    else
      var r := p.os + "-" + p.arch + "-filebrowser";
      assert r[..|p.os + "-"|] == p.os + "-";
      assert r[|r| - |"-" + p.arch + "-filebrowser"|..] == "-" + p.arch + "-filebrowser";
      r
  }

  /** Outside Windows, the binary name tells the platform apart: no two
      supported platforms share a release asset. */
  lemma BinaryNameDistinguishes(p: Platform, q: Platform)
    requires p.os in SupportedOs && q.os in SupportedOs && p.os != "windows" && q.os != "windows"
    requires p.arch in Architectures && q.arch in Architectures
    requires BinaryName(p) == BinaryName(q)
    ensures p == q
  {
    var n := BinaryName(p);
    assert n == p.os + "-" + p.arch + "-filebrowser" == q.os + "-" + q.arch + "-filebrowser";
    assert p.os == q.os by {
      assert p.os[0] == n[0] == q.os[0];
    }
    var k := |p.os| + 1;
    assert |p.arch| == 5 && |q.arch| == 5;
    assert p.arch == n[k..k + 5] == q.arch;
  }

  const LatestUrl: Str := "https://api.github.com/repos/gtsteffaniak/filebrowser/releases/latest"
  const TagsUrl: Str := "https://api.github.com/repos/gtsteffaniak/filebrowser/releases/tags/"

  /** The release URL of `fetch_release_info`. */
  function ReleaseUrl(version: Str): (r: Str)
    ensures version == "latest" ==> r == LatestUrl
    ensures version != "latest" ==> StartsWith(r, TagsUrl) && r[|TagsUrl|..] == version
  {
    if version == "latest" then LatestUrl else TagsUrl + version
  }

  /** Different versions are fetched from different URLs: the tag URL of
      any version, even one spelled `latest`, is never the latest URL. */
  lemma ReleaseUrlInjective(v: Str, w: Str)
    requires ReleaseUrl(v) == ReleaseUrl(w)
    ensures v == w
  {
    var k := |"https://api.github.com/repos/gtsteffaniak/filebrowser/releases/"|;
    assert LatestUrl[k] == 'l' && TagsUrl[k] == 't';
    if v != "latest" && w != "latest" {
      assert v == ReleaseUrl(v)[|TagsUrl|..] == w;
    }
  }

  // ---- the release and its assets --------------------------------------

  /** A release asset: its name, download URL and size in bytes. */
  datatype Asset = Asset(name: Str, downloadUrl: Str, size: int)

  /** The parts of the release document the installer reads; `tagName`
      is `None` when the key is absent. */
  datatype Release = Release(tagName: Option<Str>, assets: seq<Asset>)

  /** What asking the API for a release gives: the release, or an HTTP
      error with its status and its reason phrase. */
  datatype FetchOutcome = Fetched(release: Release) | HttpError(code: int, reason: Str)

  /** `fetch_release_info` once the request is made: a 404 names the
      missing release; any other HTTP error is reported as a failure that
      shows the error as it prints, `HTTP Error <code>: <reason>`. */
  function ReleaseOf(version: Str, outcome: FetchOutcome): (r: Result<Release>)
    ensures outcome.Fetched? <==> r.Ok?
    ensures outcome.HttpError? && outcome.code == 404 ==>
      r == Err(RuntimeError("Release '" + version + "' not found"))
    ensures outcome.HttpError? && outcome.code != 404 ==>
      r == Err(RuntimeError("Failed to fetch release info: HTTP Error " + IntToDecimal(outcome.code) + ": " + outcome.reason))
    ensures outcome.Fetched? ==> r.value == outcome.release
  {
    match outcome
    case Fetched(release) => Ok(release)
    case HttpError(code, reason) =>
      if code == 404 then Err(RuntimeError("Release '" + version + "' not found"))
      else Err(RuntimeError("Failed to fetch release info: HTTP Error " + IntToDecimal(code) + ": " + reason))
  }

  /** The tag printed for the release, `unknown` when it has none. */
  function TagOf(release: Release): Str {
    release.tagName.GetOr("unknown")
  }

  /** The index of the first asset named `name`, |assets| when none is. */
  function FirstNamed(assets: seq<Asset>, name: Str): (j: nat)
    ensures j <= |assets|
    ensures forall i :: 0 <= i < j ==> assets[i].name != name
    ensures j < |assets| ==> assets[j].name == name
    decreases |assets|
  {
    if assets == [] || assets[0].name == name then 0
    else
      var j := FirstNamed(assets[1..], name);
      assert forall i :: 1 <= i < j + 1 ==> assets[i] == assets[1..][i - 1];
      j + 1
  }

  /** The asset loop of `install_filebrowser`: the first asset whose name
      is `name`, if any. */
  method FindAsset(assets: seq<Asset>, name: Str) returns (found: Option<Asset>)
    ensures found.Some? <==> exists i :: 0 <= i < |assets| && assets[i].name == name
    ensures found.Some? ==> found.value == assets[FirstNamed(assets, name)]
  {
    found := None;
    for i := 0 to |assets|
      invariant i <= FirstNamed(assets, name)
      invariant found.None?
    {
      if assets[i].name == name {
        found := Some(assets[i]);
        break;
      }
    }
  }

  /** The names of the assets, for the error message. */
  function AssetNames(assets: seq<Asset>): (r: seq<Str>)
    ensures |r| == |assets|
    ensures forall i :: 0 <= i < |assets| ==> r[i] == assets[i].name
    decreases |assets|
  {
    if assets == [] then [] else AssetNames(assets[..|assets| - 1]) + [assets[|assets| - 1].name]
  }

  function NoBinaryMessage(p: Platform, assets: seq<Asset>): Str {
    "No binary found for " + p.os + "-" + p.arch + ".\nAvailable binaries: " + Join(", ", AssetNames(assets))
  }

  /** Where the binary is written: `filebrowser`, or `filebrowser.exe` on
      Windows, in the install directory. */
  function OutputPath(installDir: Str, os: Str): (r: Str)
    ensures FileName(r) == (if os == "windows" then "filebrowser.exe" else "filebrowser")
  {
    var name := if os == "windows" then "filebrowser.exe" else "filebrowser";
    FileNameOfJoin(installDir, name);
    JoinPath(installDir, name)
  }

  /** The install directory: the given one, or `bin` under the current
      directory. */
  function InstallDir(installDir: Option<Str>, cwd: Str): Str {
    if installDir.Some? then installDir.value else JoinPath(cwd, "bin")
  }

  /** What the installer settles on before it downloads. */
  datatype Plan = Plan(platform: Platform, tag: Str, downloadUrl: Str, size: int, outputPath: Str)

  /** `install_filebrowser` up to the download: the platform is detected,
      the release fetched from `ReleaseUrl(version)`, the asset named
      after the binary chosen and the output path fixed. `fetch` stands
      for the API request. */
  method InstallFilebrowser(system: Str, machine: Str, version: Str, installDir: Option<Str>, cwd: Str,
                            fetch: Str -> FetchOutcome)
    returns (r: Result<Plan>)
    ensures DetectPlatform(system, machine).Err? ==> r == Err(DetectPlatform(system, machine).error)
    ensures r.Ok? ==> DetectPlatform(system, machine).Ok? && fetch(ReleaseUrl(version)).Fetched?
    ensures r.Ok? ==>
      var p := DetectPlatform(system, machine).value;
      var release := fetch(ReleaseUrl(version)).release;
      var j := FirstNamed(release.assets, BinaryName(p));
      && j < |release.assets|
      && r.value == Plan(p, TagOf(release), release.assets[j].downloadUrl, release.assets[j].size,
                         OutputPath(InstallDir(installDir, cwd), p.os))
    ensures DetectPlatform(system, machine).Ok? && fetch(ReleaseUrl(version)).HttpError? ==>
      r == Err(ReleaseOf(version, fetch(ReleaseUrl(version))).error)
    ensures DetectPlatform(system, machine).Ok? && fetch(ReleaseUrl(version)).Fetched? ==>
      var p := DetectPlatform(system, machine).value;
      var assets := fetch(ReleaseUrl(version)).release.assets;
      (r.Ok? <==> exists i :: 0 <= i < |assets| && assets[i].name == BinaryName(p))
      && (r.Err? ==> r == Err(RuntimeError(NoBinaryMessage(p, assets))))
  {
    var dir := InstallDir(installDir, cwd);
    var detected := DetectPlatform(system, machine);
    if detected.Err? {
      return Err(detected.error);
    }
    var p := detected.value;
    var binary := BinaryName(p);
    var fetched := ReleaseOf(version, fetch(ReleaseUrl(version)));
    if fetched.Err? {
      return Err(fetched.error);
    }
    var release := fetched.value;
    var asset := FindAsset(release.assets, binary);
    if asset.None? {
      return Err(RuntimeError(NoBinaryMessage(p, release.assets)));
    }
    r := Ok(Plan(p, TagOf(release), asset.value.downloadUrl, asset.value.size, OutputPath(dir, p.os)));
  }
}
