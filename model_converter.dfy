/** The `olmocr_with_model.py` component: it reads the endpoint, key and
    model name off a connected language model, checks the uploaded files,
    assembles the `olmocr.pipeline` command line, and joins the markdown the
    pipeline writes into one message. The subprocess is a function from the
    command line to its outcome; the result files are given as decoded
    lines. */
module ModelConverter {
  import opened Wrappers
  import opened PyStr
  import opened Paths
  import opened Lists
  import opened Pipeline

  // ---- model configuration (`_extract_model_config`) -------------------

  /** An attribute of the language model object as `hasattr` and `str()`
      see it: missing, `None`, or a value whose `str()` is `s`. */
  datatype Attr = Absent | Null | Text(s: Str)

  /** The attributes the component looks at, and the dictionary its
      fallback reads (`_lc_kwargs`, `model_dump()` or `dict()`, whichever
      the object has first; empty when it has none). */
  datatype LanguageModel = LanguageModel(
    baseUrl: Attr, openaiApiBase: Attr,
    apiKey: Attr, openaiApiKey: Attr,
    model: Attr, modelName: Attr,
    fallback: map<Str, Option<Str>>)

  /** The returned dictionary; None is Python's `None`. */
  datatype ModelConfig = ModelConfig(baseUrl: Option<Str>, apiKey: Option<Str>, modelName: Option<Str>)

  /** Python truthiness of an optional string. */
  predicate Truthy(v: Option<Str>) {
    v.Some? && v.value != []
  }

  /** Direct lookup: the first attribute when it is truthy, else `str()` of
      the second when the object has it (so a `None` there reads "None"). */
  function Direct(primary: Attr, secondary: Attr): Option<Str> {
    if primary.Text? && primary.s != [] then Some(primary.s)
    else if secondary.Absent? then None
    else Some(if secondary.Null? then "None" else secondary.s)
  }

  /** `config.get(key)`. */
  function Get(config: map<Str, Option<Str>>, key: Str): Option<Str> {
    if key in config then config[key] else None
  }

  /** Python's `a or b`. */
  function Or(a: Option<Str>, b: Option<Str>): Option<Str> {
    if Truthy(a) then a else b
  }

  /** A field after the fallback: kept when truthy, else taken from the
      dictionary under its key or its alias. */
  function Fill(v: Option<Str>, config: map<Str, Option<Str>>, key: Str, alias: Str): Option<Str> {
    if Truthy(v) then v else Or(Get(config, key), Get(config, alias))
  }

  /** The base URL with trailing slashes removed and then one trailing
      `/v1/openai`, or failing that one trailing `/v1`, cut off. The result
      is always a prefix of the input. */
  function NormalizeBaseUrl(url: Str): (r: Str)
    ensures |r| <= |url| && r == url[..|r|]
  {
    var t := RStripChar(url, '/');
    if EndsWith(t, "/v1/openai") then t[..|t| - 10]
    else if EndsWith(t, "/v1") then t[..|t| - 3]
    else t
  }

  function ExtractModelConfig(lm: LanguageModel): ModelConfig {
    var base := Direct(lm.baseUrl, lm.openaiApiBase);
    var key := Direct(lm.apiKey, lm.openaiApiKey);
    var name := Direct(lm.model, lm.modelName);
    var complete := Truthy(base) && Truthy(key) && Truthy(name);
    var c := lm.fallback;
    var base' := if complete then base else Fill(base, c, "base_url", "openai_api_base");
    var key' := if complete then key else Fill(key, c, "api_key", "openai_api_key");
    var name' := if complete then name else Fill(name, c, "model", "model_name");
    ModelConfig(if Truthy(base') then Some(NormalizeBaseUrl(base'.value)) else base', key', name')
  }

  /** `'/' * k`. */
  function Slashes(k: nat): (r: Str)
    ensures |r| == k && forall i :: 0 <= i < k ==> r[i] == '/'
  {
    seq(k, _ => '/')
  }

  /** Trailing slashes after a string that does not end in one are all
      that `rstrip('/')` removes. */
  lemma {:induction false} RStripSlashes(s: Str, k: nat)
    requires s == [] || s[|s| - 1] != '/'
    ensures RStripChar(s + Slashes(k), '/') == s
    decreases k
  {
    if k > 0 {
      assert (s + Slashes(k))[..|s| + k - 1] == s + Slashes(k - 1);
      RStripSlashes(s, k - 1);
    } else {
      assert s + Slashes(0) == s;
    }
  }

  /** An OpenAI-style endpoint `host/v1` or `host/v1/openai`, with any
      number of trailing slashes, normalises to the bare host. */
  lemma NormalizeStripsApiSuffix(host: Str, suffix: Str, k: nat)
    requires host == [] || host[|host| - 1] != '/'
    requires suffix == "/v1" || suffix == "/v1/openai"
    ensures NormalizeBaseUrl(host + suffix + Slashes(k)) == host
  {
    var t := host + suffix;
    RStripSlashes(t, k);
    assert t[|t| - |suffix|..] == suffix;
    if suffix == "/v1" {
      assert t[|t| - 1] == '1';
      assert !EndsWith(t, "/v1/openai");
    }
    assert t[..|host|] == host;
  }

  /** A URL that ends in neither suffix only loses its trailing slashes. */
  lemma NormalizeKeepsPlainUrl(host: Str, k: nat)
    requires host == [] || host[|host| - 1] != '/'
    requires !EndsWith(host, "/v1") && !EndsWith(host, "/v1/openai")
    ensures NormalizeBaseUrl(host + Slashes(k)) == host
  {
    RStripSlashes(host, k);
  }

  /** Only one suffix is removed: a doubled `/v1` keeps one of them. */
  lemma NormalizeStripsOnce(host: Str)
    requires host == [] || host[|host| - 1] != '/'
    ensures NormalizeBaseUrl(host + "/v1/v1") == host + "/v1"
  {
    var t := host + "/v1/v1";
    RStripSlashes(t, 0);
    assert t + Slashes(0) == t;
    assert !EndsWith(t, "/v1/openai") by {
      if |t| >= 10 {
        assert t[|t| - 10..][9] == t[|t| - 1] == '1';
      }
    }
    assert t[|t| - 3..] == "/v1";
    assert t[..|t| - 3] == host + "/v1";
  }

  /** Fields the direct lookup finds are never replaced by the fallback
      dictionary; only the base URL is normalised. */
  lemma DirectFieldsKept(lm: LanguageModel)
    ensures var r := ExtractModelConfig(lm);
      && (Truthy(Direct(lm.baseUrl, lm.openaiApiBase)) ==>
            r.baseUrl == Some(NormalizeBaseUrl(Direct(lm.baseUrl, lm.openaiApiBase).value)))
      && (Truthy(Direct(lm.apiKey, lm.openaiApiKey)) ==> r.apiKey == Direct(lm.apiKey, lm.openaiApiKey))
      && (Truthy(Direct(lm.model, lm.modelName)) ==> r.modelName == Direct(lm.model, lm.modelName))
  {
  }

  /** A field the direct lookup leaves empty comes from the dictionary,
      under its key first and its alias second. */
  lemma FallbackFillsEmpty(lm: LanguageModel)
    ensures var r := ExtractModelConfig(lm);
      && (!Truthy(Direct(lm.apiKey, lm.openaiApiKey)) ==>
            r.apiKey == Or(Get(lm.fallback, "api_key"), Get(lm.fallback, "openai_api_key")))
      && (!Truthy(Direct(lm.model, lm.modelName)) ==>
            r.modelName == Or(Get(lm.fallback, "model"), Get(lm.fallback, "model_name")))
      && (!Truthy(Direct(lm.baseUrl, lm.openaiApiBase)) ==>
            var b := Or(Get(lm.fallback, "base_url"), Get(lm.fallback, "openai_api_base"));
            r.baseUrl == if Truthy(b) then Some(NormalizeBaseUrl(b.value)) else b)
  {
  }

  // ---- PDF validation --------------------------------------------------

  /** An entry of `pdf_files`, with whether the file exists. */
  datatype UploadedFile = UploadedFile(path: Str, onDisk: bool)

  /** The lowercased suffix of the file name is `.pdf`. */
  predicate IsPdfName(path: Str) {
    Lower(Suffix(FileName(path))) == ".pdf"
  }

  predicate Accepted(f: UploadedFile) {
    f.onDisk && IsPdfName(f.path)
  }

  /** What the validation loop does with each entry: the path to keep, or
      None when the entry goes to `invalid_files`. */
  function Check(f: UploadedFile): Option<Str> {
    if Accepted(f) then Some(f.path) else None
  }

  function Checked(files: seq<UploadedFile>): (r: seq<Option<Str>>)
    ensures |r| == |files|
    ensures forall i :: 0 <= i < |files| ==> r[i] == Check(files[i])
    decreases |files|
  {
    if files == [] then [] else Checked(files[..|files| - 1]) + [Check(files[|files| - 1])]
  }

  /** The note `invalid_files` receives for a rejected entry. */
  function Rejection(f: UploadedFile): Str {
    FileName(f.path) + (if !f.onDisk then " (file not found)" else " (not a PDF file)")
  }

  function Rejections(files: seq<UploadedFile>): seq<Str>
    decreases |files|
  {
    if files == [] then []
    else
      var init := Rejections(files[..|files| - 1]);
      var f := files[|files| - 1];
      if Accepted(f) then init else init + [Rejection(f)]
  }

  /** Every entry is either kept or noted as invalid. */
  lemma {:induction false} ValidationCounts(files: seq<UploadedFile>)
    ensures |Somes(Checked(files))| + |Rejections(files)| == |files|
    decreases |files|
  {
    if files != [] {
      var n := |files| - 1;
      ValidationCounts(files[..n]);
      SomesSnoc(Checked(files[..n]), Check(files[n]));
    }
  }

  /** The kept paths are exactly the paths of the accepted entries. */
  lemma ValidationKeeps(files: seq<UploadedFile>, p: Str)
    ensures p in Somes(Checked(files)) <==> exists i :: 0 <= i < |files| && Accepted(files[i]) && files[i].path == p
  {
    var cs := Checked(files);
    SomesMember(cs, p);
    if Some(p) in cs {
      var i :| 0 <= i < |cs| && cs[i] == Some(p);
      assert Check(files[i]) == Some(p);
    }
    if exists i :: 0 <= i < |files| && Accepted(files[i]) && files[i].path == p {
      var i :| 0 <= i < |files| && Accepted(files[i]) && files[i].path == p;
      assert cs[i] == Check(files[i]) == Some(p);
    }
  }

  /** The kept paths keep the input order: the k-th kept path is the path
      of an accepted entry that comes after the entry of the (k-1)-th. */
  lemma ValidationOrder(files: seq<UploadedFile>)
    ensures var kept, src := Somes(Checked(files)), Positions(Checked(files));
      && |src| == |kept|
      && (forall k :: 0 <= k < |kept| ==> src[k] < |files| && Accepted(files[src[k]]) && files[src[k]].path == kept[k])
      && (forall k, l :: 0 <= k < l < |src| ==> src[k] < src[l])
  {
  }

  /** Every kept path names a PDF. */
  lemma KeptArePdfs(files: seq<UploadedFile>)
    ensures forall p :: p in Somes(Checked(files)) ==> IsPdfName(p)
  {
    forall p | p in Somes(Checked(files)) ensures IsPdfName(p) {
      ValidationKeeps(files, p);
    }
  }

  /** The validation loop of `convert_to_markdown`. */
  method ValidatePdfs(files: seq<UploadedFile>) returns (pdfPaths: seq<Str>, invalid: seq<Str>)
    ensures pdfPaths == Somes(Checked(files))
    ensures invalid == Rejections(files)
  {
    pdfPaths, invalid := [], [];
    for i := 0 to |files|
      invariant pdfPaths == Somes(Checked(files[..i]))
      invariant invalid == Rejections(files[..i])
    {
      var f := files[i];
      assert files[..i + 1][..i] == files[..i];
      SomesSnoc(Checked(files[..i]), Check(f));
      if !f.onDisk {
        invalid := invalid + [Rejection(f)];
      } else if !IsPdfName(f.path) {
        invalid := invalid + [Rejection(f)];
      } else {
        pdfPaths := pdfPaths + [f.path];
      }
    }
    assert files[..|files|] == files;
  }

  // ---- command line ----------------------------------------------------

  /** Keys that mean "no key" to a local server. */
  const PlaceholderKeys: seq<Str> := ["LMSTUDIO_API_KEY", "lm-studio", "not-needed"]

  /** The key is passed on the command line. */
  predicate PassesApiKey(key: Option<Str>) {
    Truthy(key) && key.value !in PlaceholderKeys
  }

  /** The shape of the pipeline command: the prefix, the PDFs, then
      `--api_key` and the key when the key is passed, then `--model` and
      the model when one is named, and nothing more. */
  predicate IsCommandFor(cmd: seq<Str>, workspace: Str, server: Str, pdfPaths: seq<Str>, key: Option<Str>, model: Option<Str>) {
    && |cmd| == 12 + |pdfPaths| + (if PassesApiKey(key) then 2 else 0) + (if Truthy(model) then 2 else 0)
    && cmd[..12] == CommandPrefix(workspace, server)
    && cmd[12..12 + |pdfPaths|] == pdfPaths
    && (PassesApiKey(key) ==> cmd[12 + |pdfPaths|..14 + |pdfPaths|] == ["--api_key", key.value])
    && (Truthy(model) ==> cmd[|cmd| - 2..] == ["--model", model.value])
  }

  /** The command: the prefix, the PDF paths in order, then `--api_key k`
      for a real key and `--model m` for a set model name, in that order. */
  method BuildCommand(workspace: Str, server: Str, pdfPaths: seq<Str>, key: Option<Str>, model: Option<Str>)
    returns (cmd: seq<Str>)
    ensures IsCommandFor(cmd, workspace, server, pdfPaths, key, model)
  {
    cmd := CommandPrefix(workspace, server) + pdfPaths;
    if key.Some? && key.value != [] && key.value !in PlaceholderKeys {
      cmd := cmd + ["--api_key", key.value];
    }
    if model.Some? && model.value != [] {
      cmd := cmd + ["--model", model.value];
    }
  }

  // ---- result files ----------------------------------------------------

  /** The markdown each line contributes. */
  function LineTexts(lines: seq<ResultLine>): (r: seq<Option<Str>>)
    ensures |r| == |lines| && forall i :: 0 <= i < |lines| ==> r[i] == TextOf(lines[i])
    decreases |lines|
  {
    if lines == [] then [] else LineTexts(lines[..|lines| - 1]) + [TextOf(lines[|lines| - 1])]
  }

  /** The parts one file contributes: the texts of the lines read. */
  function FileParts(f: ResultFile): seq<Str> {
    Somes(LineTexts(ReadLines(f)))
  }

  function MarkdownParts(files: seq<ResultFile>): seq<Str>
    decreases |files|
  {
    if files == [] then [] else MarkdownParts(files[..|files| - 1]) + FileParts(files[|files| - 1])
  }

  /** Every part of a file is the non-empty text of one of its lines, and
      an unreadable file contributes nothing. */
  lemma FilePartsAreTexts(f: ResultFile, p: Str)
    requires p in FileParts(f)
    ensures f.readable && p != [] && exists i :: 0 <= i < |f.lines| && TextOf(f.lines[i]) == Some(p)
  {
    var lines := ReadLines(f);
    SomesMember(LineTexts(lines), p);
    var i :| 0 <= i < |lines| && LineTexts(lines)[i] == Some(p);
    assert f.lines[i] == lines[i];
  }

  /** Every collected part is the non-empty text of a line of a readable
      file. */
  lemma {:induction false} PartsAreTexts(files: seq<ResultFile>, p: Str)
    requires p in MarkdownParts(files)
    ensures p != [] && exists k, i :: 0 <= k < |files| && files[k].readable && 0 <= i < |files[k].lines| &&
                                      TextOf(files[k].lines[i]) == Some(p)
    decreases |files|
  {
    var n := |files| - 1;
    if p in MarkdownParts(files[..n]) {
      PartsAreTexts(files[..n], p);
      var k, i :| 0 <= k < n && files[..n][k].readable && 0 <= i < |files[..n][k].lines| &&
        TextOf(files[..n][k].lines[i]) == Some(p);
      assert files[k] == files[..n][k];
    } else {
      FilePartsAreTexts(files[n], p);
    }
  }

  /** The reading loops of `convert_to_markdown`: every `*.jsonl` file in
      turn, every non-blank line decoded, and a non-empty `text` appended.
      A malformed line is skipped; a line that decodes to something other
      than an object abandons the rest of its file. */
  method CollectMarkdown(files: seq<ResultFile>) returns (parts: seq<Str>)
    ensures parts == MarkdownParts(files)
  {
    parts := [];
    for k := 0 to |files|
      invariant parts == MarkdownParts(files[..k])
    {
      MarkdownPartsNext(files, k);
      var f := files[k];
      if f.readable {
        parts := AppendFileParts(parts, f.lines);
      }
    }
    assert files[..|files|] == files;
  }

  /** The parts after one more file: that file's parts appended. */
  lemma MarkdownPartsNext(files: seq<ResultFile>, k: nat)
    requires k < |files|
    ensures MarkdownParts(files[..k + 1]) == MarkdownParts(files[..k]) +
      (if files[k].readable then Somes(LineTexts(files[k].lines[..FirstAbort(files[k].lines)])) else [])
  {
    assert files[..k + 1][..k] == files[..k];
  }

  /** The texts after one more line: that line's text appended. */
  lemma LineTextsNext(parts0: seq<Str>, lines: seq<ResultLine>, i: nat)
    requires i < |lines|
    ensures parts0 + Somes(LineTexts(lines[..i + 1])) == parts0 + Somes(LineTexts(lines[..i])) +
      (if TextOf(lines[i]).Some? then [TextOf(lines[i]).value] else [])
  {
    assert lines[..i + 1][..i] == lines[..i];
    assert LineTexts(lines[..i + 1]) == LineTexts(lines[..i]) + [TextOf(lines[i])];
    SomesSnoc(LineTexts(lines[..i]), TextOf(lines[i]));
  }

  /** One file's lines, appended to `parts0`. */
  method AppendFileParts(parts0: seq<Str>, lines: seq<ResultLine>) returns (parts: seq<Str>)
    ensures parts == parts0 + Somes(LineTexts(lines[..FirstAbort(lines)]))
  {
    parts := parts0;
    var i := 0;
    while i < |lines|
      invariant 0 <= i <= FirstAbort(lines)
      invariant parts == parts0 + Somes(LineTexts(lines[..i]))
    {
      var l := lines[i];
      if Aborts(l) {
        break;
      }
      LineTextsNext(parts0, lines, i);
      var text := TextOf(l);
      if text.Some? {
        parts := parts + [text.value];
      }
      i := i + 1;
    }
    assert i == FirstAbort(lines);
  }

  // ---- the combined message --------------------------------------------

  const Separator: Str := "\n\n---\n\n"

  /** The header put before the markdown of a single PDF. */
  function Header(pdfPaths: seq<Str>): Str {
    if |pdfPaths| == 1 then "# " + FileName(pdfPaths[0]) + "\n\n" else ""
  }

  /** The parts joined by the separator, after the header. */
  function Combine(parts: seq<Str>, pdfPaths: seq<Str>): Str {
    Header(pdfPaths) + Join(Separator, parts)
  }

  /** A join starts with its first part and ends with its last. */
  lemma {:induction false} JoinEnds(sep: Str, parts: seq<Str>)
    requires parts != []
    ensures StartsWith(Join(sep, parts), parts[0])
    ensures EndsWith(Join(sep, parts), parts[|parts| - 1])
    decreases |parts|
  {
    if |parts| > 1 {
      JoinEnds(sep, parts[1..]);
      var rest := Join(sep, parts[1..]);
      var j := parts[0] + sep + rest;
      assert j[..|parts[0]|] == parts[0];
      assert j[|j| - |parts[|parts| - 1]|..] == rest[|rest| - |parts[|parts| - 1]|..];
    }
  }

  /** The message starts with the header and the first part, and ends
      with the last part. */
  lemma CombineEnds(parts: seq<Str>, pdfPaths: seq<Str>)
    requires parts != []
    ensures StartsWith(Combine(parts, pdfPaths), Header(pdfPaths) + parts[0])
    ensures EndsWith(Combine(parts, pdfPaths), parts[|parts| - 1])
  {
    JoinEnds(Separator, parts);
    StartsWithAfter(Header(pdfPaths), Join(Separator, parts), parts[0]);
    EndsWithAfter(Header(pdfPaths), Join(Separator, parts), parts[|parts| - 1]);
  }

  /** For a single PDF the message opens with a `# name` line. */
  lemma CombineTitle(parts: seq<Str>, pdfPath: Str)
    ensures StartsWith(Combine(parts, [pdfPath]), "# " + FileName(pdfPath) + "\n\n")
  {
    var h := Header([pdfPath]);
    assert h == "# " + FileName(pdfPath) + "\n\n";
    StartsWithAfter(h, Join(Separator, parts), []);
    assert h + [] == h;
  }

  /** Without a header, a single part is the whole message. */
  lemma CombineSingle(part: Str, pdfPaths: seq<Str>)
    requires |pdfPaths| != 1
    ensures Combine([part], pdfPaths) == part
  {
    assert Header(pdfPaths) == [];
    assert Join(Separator, [part]) == part;
  }

  lemma StartsWithAfter(h: Str, j: Str, p: Str)
    requires StartsWith(j, p)
    ensures StartsWith(h + j, h + p)
  {
    assert (h + j)[..|h| + |p|] == h + j[..|p|];
  }

  lemma EndsWithAfter(h: Str, j: Str, p: Str)
    requires EndsWith(j, p)
    ensures EndsWith(h + j, p)
  {
    assert (h + j)[|h + j| - |p|..] == j[|j| - |p|..];
  }


  // ---- the whole conversion --------------------------------------------

  /** The component's inputs: the uploaded files, the connected model, the
      timeout in seconds, the temporary workspace it creates, and what the
      pipeline leaves there. */
  datatype Conversion = Conversion(
    pdfFiles: seq<UploadedFile>,
    languageModel: Option<LanguageModel>,
    timeout: int,
    workspace: Str,
    resultsDirExists: bool,
    resultFiles: seq<ResultFile>)

  /** The returned message: the markdown and the fields of its `data`. */
  datatype Message = Message(
    text: Str, totalFiles: nat, extractedDocuments: nat,
    modelEndpoint: Str, modelName: Str, workspace: Str)

  /** The message of the error raised when no upload is a usable PDF. */
  function NoValidPdfsMessage(invalid: seq<Str>): Str {
    "No valid PDF files found. Invalid files: " + Join(", ", invalid)
  }

  const NoPdfFilesMessage: Str := "No PDF files provided. Please upload at least one PDF file."
  const NoModelMessage: Str :=
    "No Language Model connected. Please connect a Language Model component (LM Studio, OpenAI, etc.)."
  const NoEndpointMessage: Str :=
    "Could not extract API endpoint from Language Model. "
    + "Please ensure the connected model has a base_url configured (e.g., LM Studio, OpenAI)."
  const NoResultsDirMessage: Str := "No results directory found in workspace. Conversion may have failed silently."

  function TimeoutMessage(timeout: int): Str {
    "Conversion timed out after " + IntToDecimal(timeout) + " seconds. Try increasing timeout or processing fewer PDFs."
  }

  function ExitCodeMessage(code: int, stderr: Str): Str {
    "olmOCR conversion failed with exit code " + IntToDecimal(code) + ": " + Slice(stderr, 0, 300)
  }

  function NoContentMessage(fileCount: nat): Str {
    "No content extracted from " + IntToDecimal(fileCount) + " result file(s). Please check if PDFs are valid and readable."
  }

  /** `convert_to_markdown`. `command` is the command line handed to the
      subprocess, None when the component fails before building one. */
  method ConvertToMarkdown(c: Conversion, run: seq<Str> -> RunOutcome)
    returns (r: Result<Message>, command: Option<seq<Str>>)
    ensures c.pdfFiles == [] || c.languageModel.None? ==> r.Err? && r.error.ValueError? && command.None?
    ensures c.languageModel.Some? && !Truthy(ExtractModelConfig(c.languageModel.value).baseUrl) ==>
      r.Err? && r.error.ValueError? && command.None?
    ensures (&& c.pdfFiles != [] && c.languageModel.Some?
             && Truthy(ExtractModelConfig(c.languageModel.value).baseUrl)
             && Somes(Checked(c.pdfFiles)) == []) ==>
      r == Err(ValueError(NoValidPdfsMessage(Rejections(c.pdfFiles)))) && command.None?
    ensures (&& c.pdfFiles != [] && c.languageModel.Some?
             && Truthy(ExtractModelConfig(c.languageModel.value).baseUrl)
             && Somes(Checked(c.pdfFiles)) != []) ==>
      command.Some?
    ensures command.Some? ==> (c.languageModel.Some? && (
      var cfg := ExtractModelConfig(c.languageModel.value);
      var pdfs := Somes(Checked(c.pdfFiles));
      && Truthy(cfg.baseUrl) && pdfs != []
      && IsCommandFor(command.value, c.workspace, cfg.baseUrl.value, pdfs, cfg.apiKey, cfg.modelName)
      && r == Finish(c, run(command.value), pdfs, cfg.baseUrl.value, cfg.modelName)))
    ensures r.Ok? ==> command.Some?
  {
    command := None;
    if c.pdfFiles == [] {
      return Err(ValueError(NoPdfFilesMessage)), command;
    }
    if c.languageModel.None? {
      return Err(ValueError(NoModelMessage)), command;
    }
    var cfg := ExtractModelConfig(c.languageModel.value);
    var baseUrl, apiKey, modelName := cfg.baseUrl, cfg.apiKey, cfg.modelName;
    if baseUrl.None? || baseUrl.value == [] {
      return Err(ValueError(NoEndpointMessage)), command;
    }
    var pdfPaths, invalid := ValidatePdfs(c.pdfFiles);
    if pdfPaths == [] {
      return Err(ValueError(NoValidPdfsMessage(invalid))), command;
    }
    var cmd := BuildCommand(c.workspace, baseUrl.value, pdfPaths, apiKey, modelName);
    command := Some(cmd);
    r := RunPipeline(c, run(cmd), pdfPaths, baseUrl.value, modelName);
  }

  /** What the component returns once the subprocess has ended: a
      `TimeoutError` when it timed out, a `RuntimeError` on a non-zero exit
      code, a missing results directory or nothing extracted, and otherwise
      the combined markdown with its counts, the endpoint and the model name
      (or "unknown"). */
  function Finish(c: Conversion, outcome: RunOutcome, pdfPaths: seq<Str>, baseUrl: Str, modelName: Option<Str>)
    : (r: Result<Message>)
    ensures outcome.TimedOut? ==> r.Err? && r.error.TimeoutError?
    ensures outcome.Completed? && (outcome.returnCode != 0 || !c.resultsDirExists || MarkdownParts(c.resultFiles) == []) ==>
      r.Err? && r.error.RuntimeError?
    ensures r.Ok? ==>
      var parts := MarkdownParts(c.resultFiles);
      && parts != []
      && r.value.text == Combine(parts, pdfPaths)
      && r.value.totalFiles == |pdfPaths| && r.value.extractedDocuments == |parts|
      && r.value.modelEndpoint == baseUrl
      && r.value.modelName == (if Truthy(modelName) then modelName.value else "unknown")
  {
    match outcome
    case TimedOut => Err(TimeoutError(TimeoutMessage(c.timeout)))
    case Completed(code, stderr) =>
      if code != 0 then Err(RuntimeError(ExitCodeMessage(code, stderr)))
      else if !c.resultsDirExists then Err(RuntimeError(NoResultsDirMessage))
      else
        var parts := MarkdownParts(c.resultFiles);
        if parts == [] then Err(RuntimeError(NoContentMessage(|c.resultFiles|)))
        else Ok(Message(Combine(parts, pdfPaths), |pdfPaths|, |parts|, baseUrl,
                        if Truthy(modelName) then modelName.value else "unknown", c.workspace))
  }

  /** The part of `convert_to_markdown` after the subprocess: the checks
      of its outcome, the reading loops and the join. */
  method RunPipeline(c: Conversion, outcome: RunOutcome, pdfPaths: seq<Str>, baseUrl: Str, modelName: Option<Str>)
    returns (r: Result<Message>)
    ensures r == Finish(c, outcome, pdfPaths, baseUrl, modelName)
  {
    if outcome.TimedOut? {
      return Err(TimeoutError(TimeoutMessage(c.timeout)));
    }
    if outcome.returnCode != 0 {
      return Err(RuntimeError(ExitCodeMessage(outcome.returnCode, outcome.stderr)));
    }
    if !c.resultsDirExists {
      return Err(RuntimeError(NoResultsDirMessage));
    }
    var parts := CollectMarkdown(c.resultFiles);
    if parts == [] {
      return Err(RuntimeError(NoContentMessage(|c.resultFiles|)));
    }
    var text := Join(Separator, parts);
    if |pdfPaths| == 1 {
      text := "# " + FileName(pdfPaths[0]) + "\n\n" + text;
    }
    assert text == Combine(parts, pdfPaths);
    var name := if modelName.Some? && modelName.value != [] then modelName.value else "unknown";
    r := Ok(Message(text, |pdfPaths|, |parts|, baseUrl, name, c.workspace));
  }
}
