/** The olmOCR conversion script: it detects the compute devices, picks
    local GPU inference, GPU-extras installation or an external API,
    expands the PDF patterns and assembles the pipeline command. The
    hardware probes, the environment, globbing, the console prompt and
    the subprocesses are inputs. */
module ConvertPdfs {
  import opened Wrappers
  import opened PyStr
  import opened Paths

  // ---- device detection ------------------------------------------------------

  /** What the imports and the torch queries report: whether torch
      imports, whether CUDA and MPS are available, whether vllm imports. */
  datatype Probe = Probe(torchPresent: bool, cudaAvailable: bool, mpsAvailable: bool, vllmPresent: bool)

  datatype DeviceType = Cuda | Mps | Cpu

  /** The device type chosen for flags `cuda` and `mps` when torch is
      present; without torch it is the CPU. */
  function ChooseDevice(torchPresent: bool, cuda: bool, mps: bool): (r: DeviceType)
    ensures r == Cuda <==> torchPresent && cuda
    ensures r == Mps <==> torchPresent && !cuda && mps
    ensures r == Cpu <==> !torchPresent || (!cuda && !mps)
  {
    if !torchPresent then Cpu
    else if cuda then Cuda
    else if mps then Mps
    else Cpu
  }

  /** The three ways to run. */
  datatype Mode = LocalGpu | InstallGpuExtras | ExternalApi

  /** The name `get_recommendation` returns for each way. */
  function ModeName(m: Mode): Str {
    match m
    case LocalGpu => "local_gpu"
    case InstallGpuExtras => "install_gpu_extras"
    case ExternalApi => "external_api"
  }

  /** `DeviceDetector`: the detected flags and device type. */
  class DeviceDetector {
    var deviceType: Option<DeviceType>
    var hasCuda: bool
    var hasMps: bool
    var hasVllm: bool

    /** `__init__`: all flags cleared, then `_detect`. */
    constructor (probe: Probe)
      ensures hasCuda == (probe.torchPresent && probe.cudaAvailable)
      ensures hasMps == (probe.torchPresent && probe.mpsAvailable)
      ensures hasVllm == probe.vllmPresent
      ensures deviceType == Some(ChooseDevice(probe.torchPresent, probe.cudaAvailable, probe.mpsAvailable))
    {
      deviceType := None;
      hasCuda := false;
      hasMps := false;
      hasVllm := false;
      new;
      Detect(probe);
    }

    /** `_detect`: with torch, the CUDA and MPS flags are read and pick
        the device type; without it the flags stay as they were and the
        device is the CPU. The vllm flag is whether vllm imports. */
    method Detect(probe: Probe)
      modifies this
      ensures probe.torchPresent ==> hasCuda == probe.cudaAvailable && hasMps == probe.mpsAvailable
      ensures !probe.torchPresent ==> hasCuda == old(hasCuda) && hasMps == old(hasMps)
      ensures deviceType == Some(ChooseDevice(probe.torchPresent, probe.cudaAvailable, probe.mpsAvailable))
      ensures hasVllm == probe.vllmPresent
    {
      if probe.torchPresent {
        hasCuda := probe.cudaAvailable;
        hasMps := probe.mpsAvailable;
        if hasCuda {
          deviceType := Some(Cuda);
        } else if hasMps {
          deviceType := Some(Mps);
        } else {
          deviceType := Some(Cpu);
        }
      } else {
        deviceType := Some(Cpu);
      }
      hasVllm := probe.vllmPresent;
    }

    /** `get_recommendation`: local GPU inference with CUDA and vllm,
        installing the GPU extras with CUDA alone, the external API
        otherwise. */
    function Recommendation(): (r: Mode)
      reads this
      ensures r == LocalGpu <==> hasCuda && hasVllm
      ensures r == InstallGpuExtras <==> hasCuda && !hasVllm
      ensures r == ExternalApi <==> !hasCuda
    {
      if hasCuda && hasVllm then LocalGpu
      else if hasCuda && !hasVllm then InstallGpuExtras
      else ExternalApi
    }

    /** `can_use_local_gpu`: exactly when local GPU inference is
        recommended. */
    function CanUseLocalGpu(): (r: bool)
      reads this
      ensures r <==> Recommendation() == LocalGpu
    {
      hasCuda && hasVllm
    }
  }

  // ---- the runner's settings -------------------------------------------------

  /** The default directories, as `str(Path("./olmocr_workspace"))` and
      `str(Path("./pdf"))` render: the leading `./` is dropped. */
  const DefaultWorkspace: Str := "olmocr_workspace"
  const DefaultPdfDir: Str := "pdf"
  const DefaultModel: Str := "allenai/olmOCR-7B-0825-FP8"

  /** `OlmOCRRunner`'s settings, read once from the environment. The two
      directories are strings: a default is stored as it renders, a set
      variable as it was given. */
  datatype Settings = Settings(workspace: Str, pdfDir: Str, serverUrl: Option<Str>, apiKey: Option<Str>, model: Str)

  /** `OlmOCRRunner.__init__`: each variable, or its default where it has
      one; the server URL and key have none. */
  function SettingsFrom(getenv: Str -> Option<Str>): (r: Settings)
    ensures getenv("OLMOCR_WORKSPACE").None? ==> r.workspace == DefaultWorkspace
    ensures getenv("OLMOCR_PDF_DIR").None? ==> r.pdfDir == DefaultPdfDir
    ensures getenv("OLMOCR_MODEL").None? ==> r.model == DefaultModel
    ensures getenv("OLMOCR_WORKSPACE").Some? ==> r.workspace == getenv("OLMOCR_WORKSPACE").value
    ensures getenv("OLMOCR_PDF_DIR").Some? ==> r.pdfDir == getenv("OLMOCR_PDF_DIR").value
    ensures getenv("OLMOCR_MODEL").Some? ==> r.model == getenv("OLMOCR_MODEL").value
    ensures r.serverUrl == getenv("OLMOCR_SERVER_URL") && r.apiKey == getenv("OLMOCR_API_KEY")
  {
    Settings(
      getenv("OLMOCR_WORKSPACE").GetOr(DefaultWorkspace),
      getenv("OLMOCR_PDF_DIR").GetOr(DefaultPdfDir),
      getenv("OLMOCR_SERVER_URL"),
      getenv("OLMOCR_API_KEY"),
      getenv("OLMOCR_MODEL").GetOr(DefaultModel))
  }

  /** A Python string option is truthy when it is set and not empty. */
  predicate Truthy(s: Option<Str>) {
    s.Some? && s.value != []
  }

  // ---- commands ---------------------------------------------------------------

  /** `run_local_gpu`'s command. */
  function LocalCommand(s: Settings, python: Str, pdfs: seq<Str>): seq<Str> {
    [python, "-m", "olmocr.pipeline", s.workspace, "--markdown", "--pdfs"] + pdfs
  }

  /** Whether the model is passed: a model is set and the server is at
      DeepInfra. */
  predicate WantsModel(s: Settings)
    requires Truthy(s.serverUrl)
  {
    s.model != [] && Contains(Lower(s.serverUrl.value), "deepinfra")
  }

  /** The first, fixed part of `run_external_api`'s command. */
  function ExternalBase(s: Settings, python: Str): seq<Str>
    requires Truthy(s.serverUrl)
  {
    [python, "-m", "olmocr.pipeline", s.workspace, "--server", s.serverUrl.value, "--markdown", "--pdfs"]
  }

  /** `run_external_api`'s command when the server URL is set. */
  function ExternalCommand(s: Settings, python: Str, pdfs: seq<Str>): seq<Str>
    requires Truthy(s.serverUrl)
  {
    ExternalBase(s, python) + pdfs
      + (if Truthy(s.apiKey) then ["--api_key", s.apiKey.value] else [])
      + (if WantsModel(s) then ["--model", s.model] else [])
  }

  /** After the fixed part and the PDFs, the command's options open with
      `--api_key` and the key exactly when a key is set, and close with
      `--model` and the model exactly when the model is wanted; there is
      nothing else. */
  lemma ExternalCommandSpec(s: Settings, python: Str, pdfs: seq<Str>)
    requires Truthy(s.serverUrl)
    ensures var cmd := ExternalCommand(s, python, pdfs);
      && |cmd| >= 8 + |pdfs|
      && cmd[..8] == ExternalBase(s, python)
      && cmd[8..8 + |pdfs|] == pdfs
      && var options := cmd[8 + |pdfs|..];
      && (|options| >= 2 && options[0] == "--api_key" <==> Truthy(s.apiKey))
      && (|options| >= 2 && options[|options| - 2] == "--model" <==> WantsModel(s))
      && (Truthy(s.apiKey) ==> options[..2] == ["--api_key", s.apiKey.value])
      && (WantsModel(s) ==> options[|options| - 2..] == ["--model", s.model])
      && |options| == (if Truthy(s.apiKey) then 2 else 0) + (if WantsModel(s) then 2 else 0)
  {
    var cmd := ExternalCommand(s, python, pdfs);
    var key: seq<Str> := if Truthy(s.apiKey) then ["--api_key", s.apiKey.value] else [];
    var model: seq<Str> := if WantsModel(s) then ["--model", s.model] else [];
    assert cmd == ExternalBase(s, python) + pdfs + (key + model);
    var options := cmd[8 + |pdfs|..];
    assert options == key + model;
    assert "--api_key"[2] != "--model"[2];
  }

  /** The command as printed: every token equal to the key shown as `***`. */
  function Masked(cmd: seq<Str>, key: Option<Str>): seq<Str> {
    seq(|cmd|, i requires 0 <= i < |cmd| => if key == Some(cmd[i]) then "***" else cmd[i])
  }

  /** Unless the key is itself `***`, the printed command never shows it,
      and every other token is printed as is. */
  lemma MaskedHidesKey(cmd: seq<Str>, key: Str)
    requires key != "***"
    ensures key !in Masked(cmd, Some(key))
    ensures forall i :: 0 <= i < |cmd| && cmd[i] != key ==> Masked(cmd, Some(key))[i] == cmd[i]
  {
    var m := Masked(cmd, Some(key));
    forall i | 0 <= i < |m| ensures m[i] != key {
    }
  }

  /** The key as printed: twenty stars, then its last four characters
      (all of it when shorter). */
  function KeyDisplay(key: Str): (r: Str)
    ensures |r| == 20 + (if |key| < 4 then |key| else 4)
    ensures forall i :: 0 <= i < 20 ==> r[i] == '*'
    ensures EndsWith(key, r[20..])
  {
    var stars := seq(20, _ => '*');
    var tail := if |key| < 4 then key else key[|key| - 4..];
    assert (stars + tail)[20..] == tail;
    stars + tail
  }

  /** What running external API mode shows and runs: the command (none
      when the server URL is unset) and its printed form. */
  datatype Launch = Launch(command: seq<Str>, printed: Str)

  /** `run_external_api`: without a server URL it returns 1 and runs
      nothing; otherwise it builds the command, extending it with the key
      and the model, prints it with the key masked, and returns the
      pipeline's exit code. */
  method RunExternalApi(s: Settings, python: Str, pdfs: seq<Str>, exec: seq<Str> -> int)
    returns (code: int, launch: Option<Launch>)
    ensures !Truthy(s.serverUrl) ==> code == 1 && launch.None?
    ensures Truthy(s.serverUrl) ==> (launch.Some?
      && launch.value.command == ExternalCommand(s, python, pdfs)
      && launch.value.printed == Join(" ", Masked(launch.value.command, s.apiKey))
      && code == exec(launch.value.command))
  {
    if !Truthy(s.serverUrl) {
      return 1, None;
    }
    var url := s.serverUrl.value;
    var cmd := [python, "-m", "olmocr.pipeline", s.workspace, "--server", url, "--markdown", "--pdfs"] + pdfs;
    if Truthy(s.apiKey) {
      cmd := cmd + ["--api_key", s.apiKey.value];
    }
    if s.model != [] && Contains(Lower(url), "deepinfra") {
      cmd := cmd + ["--model", s.model];
    }
    var printed := Join(" ", Masked(cmd, s.apiKey));
    code := exec(cmd);
    launch := Some(Launch(cmd, printed));
  }

  // ---- pattern expansion -------------------------------------------------------

  /** The PDFs the patterns expand to: each pattern's matches in order, or
      the pattern itself when nothing matches. */
  function Expanded(patterns: seq<Str>, glob: Str -> seq<Str>): seq<Str>
    decreases |patterns|
  {
    if patterns == [] then []
    else
      var p := patterns[|patterns| - 1];
      Expanded(patterns[..|patterns| - 1], glob) + (if glob(p) != [] then glob(p) else [p])
  }

  /** The expansion has at least one entry per pattern, holds every
      match of every pattern, keeps each pattern that matches nothing,
      and holds only matches and such patterns. */
  lemma {:induction false} ExpandedSpec(patterns: seq<Str>, glob: Str -> seq<Str>)
    ensures |Expanded(patterns, glob)| >= |patterns|
    ensures forall p, x :: p in patterns && x in glob(p) ==> x in Expanded(patterns, glob)
    ensures forall p :: p in patterns && glob(p) == [] ==> p in Expanded(patterns, glob)
    ensures forall x :: x in Expanded(patterns, glob) ==>
      exists p :: p in patterns && (x in glob(p) || (glob(p) == [] && x == p))
    decreases |patterns|
  {
    if patterns != [] {
      var front := patterns[..|patterns| - 1];
      var p := patterns[|patterns| - 1];
      ExpandedSpec(front, glob);
      assert patterns == front + [p];
      var e := Expanded(patterns, glob);
      forall x | x in e ensures exists q :: q in patterns && (x in glob(q) || (glob(q) == [] && x == q)) {
        if x in Expanded(front, glob) {
          var q :| q in front && (x in glob(q) || (glob(q) == [] && x == q));
          assert q in patterns;
        } else {
          assert p in patterns;
        }
      }
    }
  }

  /** Expansion works pattern by pattern: expanding two lists one after
      the other gives the two expansions one after the other. */
  lemma {:induction false} ExpandedAppend(a: seq<Str>, b: seq<Str>, glob: Str -> seq<Str>)
    ensures Expanded(a + b, glob) == Expanded(a, glob) + Expanded(b, glob)
    decreases |b|
  {
    if b == [] {
      assert a + b == a;
    } else {
      var front, p := b[..|b| - 1], b[|b| - 1];
      var tail := if glob(p) != [] then glob(p) else [p];
      ExpandedAppend(a, front, glob);
      assert (a + b)[..|a + b| - 1] == a + front;
      assert (a + b)[|a + b| - 1] == p;
      assert Expanded(a + b, glob) == Expanded(a + front, glob) + tail;
      assert Expanded(b, glob) == Expanded(front, glob) + tail;
    }
  }

  /** The loop that expands the patterns. */
  method ExpandPatterns(patterns: seq<Str>, glob: Str -> seq<Str>) returns (expanded: seq<Str>)
    ensures expanded == Expanded(patterns, glob)
  {
    expanded := [];
    for i := 0 to |patterns|
      invariant expanded == Expanded(patterns[..i], glob)
    {
      var matches := glob(patterns[i]);
      if matches != [] {
        expanded := expanded + matches;
      } else {
        expanded := expanded + [patterns[i]];
      }
      assert patterns[..i + 1][..i] == patterns[..i];
    }
    assert patterns[..|patterns|] == patterns;
  }

  // ---- the run -----------------------------------------------------------------

  /** What `run` reaches out to: the interpreter path, whether the PDF
      directory exists, globbing, the pipeline subprocess, the answer to
      the install prompt and whether installing the extras succeeds. */
  datatype Host = Host(
    python: Str, pdfDirExists: bool, glob: Str -> seq<Str>, exec: seq<Str> -> int,
    answer: Str, installSucceeds: bool)

  /** The patterns `run` works from: the given ones, or the default
      directory's `*.pdf` when none are given. */
  function PatternsFor(s: Settings, patterns: seq<Str>): seq<Str> {
    if patterns == [] then [JoinPath(s.pdfDir, "*.pdf")] else patterns
  }

  /** The answer that accepts installing the extras. */
  predicate AcceptsInstall(answer: Str) {
    Lower(Strip(answer)) == "y"
  }

  /** `run`: with no patterns and no default directory it returns 1;
      otherwise it expands the patterns and follows the recommendation:
      local inference runs the local command; with CUDA but no vllm an
      accepted prompt installs the extras (0 on success, 1 on failure)
      and any other answer falls back to the external API, which is also
      the third way. */
  method Run(s: Settings, detector: DeviceDetector, patterns: seq<Str>, host: Host)
    returns (code: int, launched: Option<seq<Str>>)
    ensures patterns == [] && !host.pdfDirExists ==> code == 1 && launched.None?
    ensures patterns != [] || host.pdfDirExists ==>
      var pdfs := Expanded(PatternsFor(s, patterns), host.glob);
      match detector.Recommendation()
      case LocalGpu =>
        launched == Some(LocalCommand(s, host.python, pdfs)) && code == host.exec(launched.value)
      case InstallGpuExtras =>
        if AcceptsInstall(host.answer) then launched.None? && code == (if host.installSucceeds then 0 else 1)
        else ExternalRun(s, pdfs, host, code, launched)
      case ExternalApi => ExternalRun(s, pdfs, host, code, launched)
  {
    var pdfPatterns := patterns;
    if pdfPatterns == [] {
      if host.pdfDirExists {
        pdfPatterns := [JoinPath(s.pdfDir, "*.pdf")];
      } else {
        return 1, None;
      }
    }
    var expanded := ExpandPatterns(pdfPatterns, host.glob);
    ExpandedSpec(pdfPatterns, host.glob);
    if expanded == [] {
      return 1, None;
    }
    var recommendation := detector.Recommendation();
    if recommendation == LocalGpu {
      var cmd := LocalCommand(s, host.python, expanded);
      code := host.exec(cmd);
      launched := Some(cmd);
    } else if recommendation == InstallGpuExtras && AcceptsInstall(host.answer) {
      code := if host.installSucceeds then 0 else 1;
      launched := None;
    } else {
      var launch;
      code, launch := RunExternalApi(s, host.python, expanded, host.exec);
      launched := if launch.Some? then Some(launch.value.command) else None;
    }
  }

  /** The external API run's outcome: 1 and nothing run without a server
      URL, otherwise the external command and its exit code. */
  predicate ExternalRun(s: Settings, pdfs: seq<Str>, host: Host, code: int, launched: Option<seq<Str>>) {
    if Truthy(s.serverUrl) then
      launched == Some(ExternalCommand(s, host.python, pdfs)) && code == host.exec(launched.value)
    else code == 1 && launched.None?
  }

  /** Whatever the patterns, once `run` gets past the default-directory
      check there is something to convert: the "no PDF files found" exit
      cannot be reached. */
  lemma ExpandedNotEmpty(s: Settings, patterns: seq<Str>, glob: Str -> seq<Str>)
    ensures Expanded(PatternsFor(s, patterns), glob) != []
  {
    ExpandedSpec(PatternsFor(s, patterns), glob);
  }
}
