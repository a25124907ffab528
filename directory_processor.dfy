/** The `olmocr_directory.py` component: it finds the supported files of a
    directory, caps and tallies them, runs the `olmocr.pipeline` subprocess
    over them, saves each extracted document as a markdown file and keeps
    the outcome in its fields. The file system, the clock and the
    subprocess are inputs. */
module DirectoryProcessor {
  import opened Wrappers
  import opened PyStr
  import opened Paths
  import opened Lists
  import opened Pipeline

  /** The extensions the pipeline accepts. */
  const SupportedExtensions: set<Str> := {".pdf", ".png", ".jpg", ".jpeg", ".tiff", ".tif", ".bmp"}

  /** `Path(p).suffix.lower()`. */
  function ExtensionOf(path: Str): Str {
    Lower(Suffix(FileName(path)))
  }

  // ---- discovery (`_discover_files`) -----------------------------------

  /** A path `glob`/`rglob` yields, with whether it is a regular file. */
  datatype GlobEntry = GlobEntry(path: Str, isFile: bool)

  /** The pattern handed to `glob`/`rglob`: the match-everything pattern
      (two stars, a slash, a star) becomes a single star. */
  function EffectivePattern(pattern: Str): (r: Str)
    ensures r != "**/*"
    ensures pattern != "**/*" ==> r == pattern
    ensures pattern == "**/*" ==> r == "*"
  {
    if pattern == "**/*" then "*" else pattern
  }

  /** A matched entry is kept when it is a regular file with a supported
      extension. */
  function Candidate(e: GlobEntry): Option<Str> {
    if e.isFile && ExtensionOf(e.path) in SupportedExtensions then Some(e.path) else None
  }

  function Candidates(entries: seq<GlobEntry>): (r: seq<Option<Str>>)
    ensures |r| == |entries| && forall i :: 0 <= i < |entries| ==> r[i] == Candidate(entries[i])
    decreases |entries|
  {
    if entries == [] then [] else Candidates(entries[..|entries| - 1]) + [Candidate(entries[|entries| - 1])]
  }

  /** The discovered files: the kept entries, sorted. */
  function Discover(entries: seq<GlobEntry>): seq<Str> {
    SortPaths(Somes(Candidates(entries)))
  }

  /** The discovered list is sorted, and holds exactly the matched regular
      files with a supported extension, each as often as it was matched. */
  lemma DiscoverSpec(entries: seq<GlobEntry>)
    ensures SortedPaths(Discover(entries))
    ensures multiset(Discover(entries)) == multiset(Somes(Candidates(entries)))
    ensures forall p :: p in Discover(entries) <==>
      exists i :: 0 <= i < |entries| && entries[i].path == p && entries[i].isFile && ExtensionOf(p) in SupportedExtensions
  {
    var cs := Candidates(entries);
    forall p ensures p in Discover(entries) <==>
      exists i :: 0 <= i < |entries| && entries[i].path == p && entries[i].isFile && ExtensionOf(p) in SupportedExtensions
    {
      assert p in Discover(entries) <==> p in multiset(Somes(cs));
      SomesMember(cs, p);
      if Some(p) in cs {
        var i :| 0 <= i < |cs| && cs[i] == Some(p);
        assert Candidate(entries[i]) == Some(p);
      }
      if exists i :: 0 <= i < |entries| && entries[i].path == p && entries[i].isFile && ExtensionOf(p) in SupportedExtensions {
        var i :| 0 <= i < |entries| && entries[i].path == p && entries[i].isFile && ExtensionOf(p) in SupportedExtensions;
        assert cs[i] == Some(p);
      }
    }
  }

  /** `_discover_files`, given what the glob yields. */
  method DiscoverFiles(matched: seq<GlobEntry>) returns (files: seq<Str>)
    ensures files == Discover(matched)
  {
    var discovered: seq<Str> := [];
    for i := 0 to |matched|
      invariant discovered == Somes(Candidates(matched[..i]))
    {
      var e := matched[i];
      assert matched[..i + 1] == matched[..i] + [e];
      assert Candidates(matched[..i + 1]) == Candidates(matched[..i]) + [Candidate(e)];
      SomesSnoc(Candidates(matched[..i]), Candidate(e));
      if e.isFile && ExtensionOf(e.path) in SupportedExtensions {
        discovered := discovered + [e.path];
      }
    }
    assert matched[..|matched|] == matched;
    files := SortPaths(discovered);
  }

  // ---- the extension tally ---------------------------------------------

  /** The extensions of the files, in order. */
  function Extensions(files: seq<Str>): (r: seq<Str>)
    ensures |r| == |files|
    decreases |files|
  {
    if files == [] then [] else Extensions(files[..|files| - 1]) + [ExtensionOf(files[|files| - 1])]
  }

  /** Each value once, in the order of first occurrence: the key order of
      a dictionary filled from `xs`. */
  function FirstOccurrences(xs: seq<Str>): (r: seq<Str>)
    ensures forall x :: x in r <==> x in xs
    decreases |xs|
  {
    if xs == [] then []
    else
      var front := FirstOccurrences(xs[..|xs| - 1]);
      var x := xs[|xs| - 1];
      if x in front then front else front + [x]
  }

  predicate Distinct(xs: seq<Str>) {
    forall i, j :: 0 <= i < j < |xs| ==> xs[i] != xs[j]
  }

  /** The counts of the keys `keys`, added up. */
  function SumCounts(keys: seq<Str>, counts: map<Str, nat>): nat
    decreases |keys|
  {
    if keys == [] then 0
    else
      var k := keys[|keys| - 1];
      SumCounts(keys[..|keys| - 1], counts) + (if k in counts then counts[k] else 0)
  }

  /** Changing the count of a key not listed changes no sum. */
  lemma {:induction false} SumCountsFrame(keys: seq<Str>, counts: map<Str, nat>, e: Str, v: nat)
    requires e !in keys
    ensures SumCounts(keys, counts[e := v]) == SumCounts(keys, counts)
    decreases |keys|
  {
    if keys != [] {
      SumCountsFrame(keys[..|keys| - 1], counts, e, v);
    }
  }

  /** Adding one to the count of a listed key adds one to the sum. */
  lemma {:induction false} SumCountsBump(keys: seq<Str>, counts: map<Str, nat>, e: Str)
    requires Distinct(keys) && e in keys && e in counts
    ensures SumCounts(keys, counts[e := counts[e] + 1]) == SumCounts(keys, counts) + 1
    decreases |keys|
  {
    var n := |keys| - 1;
    var front := keys[..n];
    if keys[n] == e {
      forall i | 0 <= i < n ensures front[i] != e {
        assert keys[i] != keys[n];
      }
      SumCountsFrame(front, counts, e, counts[e] + 1);
    } else {
      assert e in front by {
        var i :| 0 <= i < |keys| && keys[i] == e;
        assert i < n;
        assert front[i] == e;
      }
      SumCountsBump(front, counts, e);
    }
  }

  /** `order` and `counts` are the dictionary that counting `exts` builds:
      its keys in first-occurrence order, each with its number of
      occurrences, the counts adding up to the number counted. */
  ghost predicate TallyOf(exts: seq<Str>, order: seq<Str>, counts: map<Str, nat>) {
    && order == FirstOccurrences(exts)
    && Distinct(order)
    && (forall e :: e in counts <==> e in order)
    && (forall e :: e in counts ==> counts[e] == multiset(exts)[e])
    && SumCounts(order, counts) == |exts|
  }

  /** One step of the loop, `file_types[ext] = file_types.get(ext, 0) + 1`,
      keeps the dictionary the tally of what has been counted. */
  lemma TallyStep(exts: seq<Str>, order: seq<Str>, counts: map<Str, nat>, ext: Str,
                  exts': seq<Str>, order': seq<Str>, counts': map<Str, nat>)
    requires TallyOf(exts, order, counts)
    requires exts' == exts + [ext]
    requires order' == if ext in counts then order else order + [ext]
    requires counts' == counts[ext := (if ext in counts then counts[ext] else 0) + 1]
    ensures TallyOf(exts', order', counts')
  {
    TallyOrderStep(exts, order, counts, ext, order');
    TallyCountStep(exts, counts, ext, counts');
    TallySumStep(order, counts, ext, order', counts');
    assert forall e :: e in counts' <==> e in order';
  }

  /** The key order after one more step. */
  lemma TallyOrderStep(exts: seq<Str>, order: seq<Str>, counts: map<Str, nat>, ext: Str, order': seq<Str>)
    requires order == FirstOccurrences(exts) && Distinct(order)
    requires forall e :: e in counts <==> e in order
    requires order' == if ext in counts then order else order + [ext]
    ensures order' == FirstOccurrences(exts + [ext]) && Distinct(order')
  {
    var all := exts + [ext];
    assert all[..|exts|] == exts;
    if ext !in counts {
      forall i, j | 0 <= i < j < |order'| ensures order'[i] != order'[j] {
        if j == |order| {
          assert order'[i] == order[i];
        }
      }
    }
  }

  /** The counts after one more step. */
  lemma TallyCountStep(exts: seq<Str>, counts: map<Str, nat>, ext: Str, counts': map<Str, nat>)
    requires forall e :: e in counts ==> counts[e] == multiset(exts)[e]
    requires ext !in counts ==> ext !in exts
    requires counts' == counts[ext := (if ext in counts then counts[ext] else 0) + 1]
    ensures forall e :: e in counts' ==> counts'[e] == multiset(exts + [ext])[e]
  {
    assert multiset(exts + [ext]) == multiset(exts) + multiset{ext};
    forall e | e in counts' ensures counts'[e] == multiset(exts + [ext])[e] {
      if e != ext {
        assert counts'[e] == counts[e];
      }
    }
  }

  /** The sum of the counts after one more step. */
  lemma TallySumStep(order: seq<Str>, counts: map<Str, nat>, ext: Str, order': seq<Str>, counts': map<Str, nat>)
    requires Distinct(order) && (ext in counts <==> ext in order)
    requires order' == if ext in counts then order else order + [ext]
    requires counts' == counts[ext := (if ext in counts then counts[ext] else 0) + 1]
    ensures SumCounts(order', counts') == SumCounts(order, counts) + 1
  {
    if ext in counts {
      SumCountsBump(order, counts, ext);
    } else {
      SumCountsFrame(order, counts, ext, 1);
      assert order' == order + [ext];
      assert order'[..|order|] == order;
      assert SumCounts(order', counts') == SumCounts(order, counts') + 1;
    }
  }

  /** The `file_types` dictionary: its keys in insertion order, and its
      entries. */
  datatype FileTypes = FileTypes(order: seq<Str>, counts: map<Str, nat>)

  /** `file_types[ext] = file_types.get(ext, 0) + 1`. */
  function CountOne(t: FileTypes, ext: Str): FileTypes {
    if ext in t.counts then FileTypes(t.order, t.counts[ext := t.counts[ext] + 1])
    else FileTypes(t.order + [ext], t.counts[ext := 1])
  }

  /** The dictionary that counting `exts` one by one builds. */
  function Tally(exts: seq<Str>): FileTypes
    decreases |exts|
  {
    if exts == [] then FileTypes([], map[]) else CountOne(Tally(exts[..|exts| - 1]), exts[|exts| - 1])
  }

  /** Nothing counted, nothing in the dictionary. */
  lemma TallyEmpty(exts: seq<Str>, t: FileTypes)
    requires exts == [] && t == FileTypes([], map[])
    ensures TallyOf(exts, t.order, t.counts)
  {
    assert multiset(exts) == multiset{};
  }

  /** Counting one by one builds the tally of `exts`. */
  lemma {:induction false} TallyCounts(exts: seq<Str>)
    ensures TallyOf(exts, Tally(exts).order, Tally(exts).counts)
    decreases |exts|, 1
  {
    if exts == [] {
      TallyEmpty(exts, Tally(exts));
    } else {
      TallyCountsLast(exts);
    }
  }

  /** The inductive step of `TallyCounts`: count the last extension. */
  lemma {:induction false} TallyCountsLast(exts: seq<Str>)
    requires exts != []
    ensures TallyOf(exts, Tally(exts).order, Tally(exts).counts)
    decreases |exts|, 0
  {
    var front := exts[..|exts| - 1];
    var ext := exts[|exts| - 1];
    assert exts == front + [ext];
    var t := Tally(front);
    TallyCounts(front);
    TallyStep(front, t.order, t.counts, ext, exts, Tally(exts).order, Tally(exts).counts);
  }

  /** One more file, one more extension. */
  lemma ExtensionsNext(files: seq<Str>, i: nat)
    requires i < |files|
    ensures Extensions(files[..i + 1]) == Extensions(files[..i]) + [ExtensionOf(files[i])]
  {
    assert files[..i + 1][..i] == files[..i];
  }

  /** Counting one more extension. */
  lemma TallyNext(exts: seq<Str>, ext: Str)
    ensures Tally(exts + [ext]) == CountOne(Tally(exts), ext)
  {
    assert (exts + [ext])[..|exts|] == exts;
  }

  /** The file-type loop of `process_directory`, with the dictionary as
      `order` (its keys in insertion order) and `counts`. */
  method TallyExtensions(files: seq<Str>) returns (order: seq<Str>, counts: map<Str, nat>)
    ensures FileTypes(order, counts) == Tally(Extensions(files))
    ensures TallyOf(Extensions(files), order, counts)
  {
    order, counts := [], map[];
    ghost var exts: seq<Str> := [];
    for i := 0 to |files|
      invariant exts == Extensions(files[..i])
      invariant FileTypes(order, counts) == Tally(exts)
    {
      var ext := ExtensionOf(files[i]);
      ExtensionsNext(files, i);
      TallyNext(exts, ext);
      ghost var before := FileTypes(order, counts);
      var count := if ext in counts then counts[ext] else 0;
      if ext !in counts {
        order := order + [ext];
      }
      counts := counts[ext := count + 1];
      assert FileTypes(order, counts) == CountOne(before, ext);
      exts := exts + [ext];
    }
    assert files[..|files|] == files;
    TallyCounts(exts);
  }

  // ---- the stderr excerpt ----------------------------------------------

  /** What `process_directory` logs of a non-empty stderr: all of it in
      verbose mode; otherwise, when the stripped text has more than ten
      lines, its last ten joined by newlines, else all of it. */
  function StderrShown(stderr: Str, verbose: bool): Str {
    var lines := Split(Strip(stderr), "\n");
    if verbose then stderr
    else if |lines| > 10 then Join("\n", lines[|lines| - 10..])
    else stderr
  }

  /** In quiet mode a long stderr is cut to exactly its last ten lines:
      splitting the excerpt gives those lines back. */
  lemma StderrTail(stderr: Str)
    requires |Split(Strip(stderr), "\n")| > 10
    ensures var lines := Split(Strip(stderr), "\n");
      Split(StderrShown(stderr, false), "\n") == lines[|lines| - 10..]
  {
    assert "\n" == ['\n'];
    SplitTailRoundTrip(Strip(stderr), '\n', 10);
  }

  // ---- saving the results (`_save_results_to_files`) -------------------

  /** A markdown file written: where, and what. */
  datatype Saved = Saved(path: Str, text: Str)

  /** `data.get('id', stem)` in an f-string: the stem when absent, "None"
      for `null`. */
  function DocId(id: Field, stem: Str): Str {
    match id
    case Missing => stem
    case Null => "None"
    case Value(s) => s
  }

  /** The file a line is saved to, when it has a non-empty text:
      `<output_dir>/<id>.md`. */
  function SavedOf(l: ResultLine, stem: Str, outputDir: Str): Option<Saved> {
    match TextOf(l)
    case None => None
    case Some(t) => Some(Saved(JoinPath(outputDir, DocId(l.value.id, stem) + ".md"), t))
  }

  function LineSaves(lines: seq<ResultLine>, stem: Str, outputDir: Str): (r: seq<Option<Saved>>)
    ensures |r| == |lines| && forall i :: 0 <= i < |lines| ==> r[i] == SavedOf(lines[i], stem, outputDir)
    decreases |lines|
  {
    if lines == [] then []
    else LineSaves(lines[..|lines| - 1], stem, outputDir) + [SavedOf(lines[|lines| - 1], stem, outputDir)]
  }

  function FileSaves(f: ResultFile, outputDir: Str): seq<Saved> {
    Somes(LineSaves(ReadLines(f), Stem(f.name), outputDir))
  }

  function AllSaves(files: seq<ResultFile>, outputDir: Str): seq<Saved>
    decreases |files|
  {
    if files == [] then [] else AllSaves(files[..|files| - 1], outputDir) + FileSaves(files[|files| - 1], outputDir)
  }

  function SavedPaths(saves: seq<Saved>): (r: seq<Str>)
    ensures |r| == |saves| && forall i :: 0 <= i < |saves| ==> r[i] == saves[i].path
    decreases |saves|
  {
    if saves == [] then [] else SavedPaths(saves[..|saves| - 1]) + [saves[|saves| - 1].path]
  }

  function TotalLength(saves: seq<Saved>): nat
    decreases |saves|
  {
    if saves == [] then 0 else TotalLength(saves[..|saves| - 1]) + |saves[|saves| - 1].text|
  }

  /** Every saved text is non-empty and goes to a `.md` file. */
  lemma FileSavesShape(f: ResultFile, outputDir: Str)
    ensures forall s :: s in FileSaves(f, outputDir) ==> s.text != [] && EndsWith(s.path, ".md")
  {
    var ls := LineSaves(ReadLines(f), Stem(f.name), outputDir);
    forall s | s in FileSaves(f, outputDir) ensures s.text != [] && EndsWith(s.path, ".md") {
      SomesMember(ls, s);
      var i :| 0 <= i < |ls| && ls[i] == Some(s);
      var l := ReadLines(f)[i];
      assert SavedOf(l, Stem(f.name), outputDir) == Some(s);
      assert TextOf(l).Some?;
      var name := DocId(l.value.id, Stem(f.name)) + ".md";
      assert name[|name| - 3..] == ".md";
      JoinPathEndsWith(outputDir, name);
      EndsWithTransitive(s.path, name, ".md");
    }
  }

  /** Every saved text is non-empty and goes to a `.md` file, so the
      character total is at least the number of files saved. */
  lemma {:induction false} SaveAccounting(files: seq<ResultFile>, outputDir: Str)
    ensures forall s :: s in AllSaves(files, outputDir) ==> s.text != [] && EndsWith(s.path, ".md")
    ensures TotalLength(AllSaves(files, outputDir)) >= |AllSaves(files, outputDir)|
    decreases |files|
  {
    if files != [] {
      var n := |files| - 1;
      SaveAccounting(files[..n], outputDir);
      FileSavesShape(files[n], outputDir);
      LengthAtLeastCount(AllSaves(files[..n], outputDir), FileSaves(files[n], outputDir));
    }
  }

  lemma {:induction false} LengthAtLeastCount(a: seq<Saved>, b: seq<Saved>)
    requires TotalLength(a) >= |a|
    requires forall s :: s in b ==> s.text != []
    ensures TotalLength(a + b) >= |a + b|
    decreases |b|
  {
    if b != [] {
      var n := |b| - 1;
      assert (a + b)[..|a + b| - 1] == a + b[..n];
      assert b[n] in b;
      LengthAtLeastCount(a, b[..n]);
    } else {
      assert a + b == a;
    }
  }

  /** A malformed line is skipped on its own: reading goes on past it and
      it saves nothing. */
  lemma MalformedLineSkipped(l: ResultLine, stem: Str, outputDir: Str)
    requires l.value.Malformed?
    ensures !Aborts(l) && SavedOf(l, stem, outputDir).None?
  {
  }

  /** What `_save_results_to_files` returns. */
  datatype SaveSummary = SaveSummary(savedFiles: seq<Str>, totalFiles: nat, totalChars: nat)

  /** `_save_results_to_files`: every line read from every result file
      that has a non-empty text is written out and counted. */
  method SaveResults(files: seq<ResultFile>, outputDir: Str) returns (summary: SaveSummary)
    ensures summary.savedFiles == SavedPaths(AllSaves(files, outputDir))
    ensures summary.totalFiles == |AllSaves(files, outputDir)|
    ensures summary.totalChars == TotalLength(AllSaves(files, outputDir))
  {
    var saved: seq<Str> := [];
    var totalChars: nat := 0;
    ghost var saves: seq<Saved> := [];
    for k := 0 to |files|
      invariant saves == AllSaves(files[..k], outputDir)
      invariant saved == SavedPaths(saves)
      invariant totalChars == TotalLength(saves)
    {
      assert files[..k + 1][..k] == files[..k];
      var f := files[k];
      if f.readable {
        saved, totalChars, saves := SaveFile(f, outputDir, saved, totalChars, saves);
      } else {
        assert ReadLines(f) == [];
        assert saves + FileSaves(f, outputDir) == saves;
        saves := saves + FileSaves(f, outputDir);
      }
    }
    assert files[..|files|] == files;
    summary := SaveSummary(saved, |saved|, totalChars);
  }

  /** Reading one more line adds its save, if it has one. */
  lemma LineSavesStep(lines: seq<ResultLine>, i: nat, stem: Str, outputDir: Str)
    requires i < |lines|
    ensures Somes(LineSaves(lines[..i + 1], stem, outputDir))
      == Somes(LineSaves(lines[..i], stem, outputDir))
         + Somes([SavedOf(lines[i], stem, outputDir)])
  {
    assert lines[..i + 1][..i] == lines[..i];
    SomesSnoc(LineSaves(lines[..i], stem, outputDir), SavedOf(lines[i], stem, outputDir));
  }

  lemma AppendAssoc(a: seq<Saved>, b: seq<Saved>, c: seq<Saved>)
    ensures a + b + c == a + (b + c)
  {
  }

  /** Saving one more file adds its path and its length. */
  lemma SavedSnoc(saves: seq<Saved>, s: Saved)
    ensures SavedPaths(saves + [s]) == SavedPaths(saves) + [s.path]
    ensures TotalLength(saves + [s]) == TotalLength(saves) + |s.text|
  {
    assert (saves + [s])[..|saves|] == saves;
  }

  /** One line: its markdown file, when it has a text. */
  method SaveLine(l: ResultLine, stem: Str, outputDir: Str, saved0: seq<Str>, chars0: nat, ghost saves0: seq<Saved>)
    returns (saved: seq<Str>, totalChars: nat, ghost saves: seq<Saved>)
    requires saved0 == SavedPaths(saves0) && chars0 == TotalLength(saves0)
    ensures saves == saves0 + Somes([SavedOf(l, stem, outputDir)])
    ensures saved == SavedPaths(saves) && totalChars == TotalLength(saves)
  {
    saved, totalChars, saves := saved0, chars0, saves0;
    var text := TextOf(l);
    if text.Some? {
      var out := JoinPath(outputDir, DocId(l.value.id, stem) + ".md");
      SavedSnoc(saves, Saved(out, text.value));
      saves := saves + [Saved(out, text.value)];
      saved := saved + [out];
      totalChars := totalChars + |text.value|;
    }
  }

  /** The lines up to the first that aborts the file. */
  method SaveLines(lines: seq<ResultLine>, stem: Str, outputDir: Str, saved0: seq<Str>, chars0: nat, ghost saves0: seq<Saved>)
    returns (saved: seq<Str>, totalChars: nat, ghost saves: seq<Saved>)
    requires saved0 == SavedPaths(saves0) && chars0 == TotalLength(saves0)
    ensures saves == saves0 + Somes(LineSaves(lines[..FirstAbort(lines)], stem, outputDir))
    ensures saved == SavedPaths(saves) && totalChars == TotalLength(saves)
  {
    saved, totalChars, saves := saved0, chars0, saves0;
    var i := 0;
    ghost var got: seq<Saved> := [];
    while i < |lines|
      invariant 0 <= i <= FirstAbort(lines)
      invariant got == Somes(LineSaves(lines[..i], stem, outputDir))
      invariant saves == saves0 + got
      invariant saved == SavedPaths(saves) && totalChars == TotalLength(saves)
    {
      var l := lines[i];
      if Aborts(l) {
        break;
      }
      LineSavesStep(lines, i, stem, outputDir);
      ghost var piece := Somes([SavedOf(l, stem, outputDir)]);
      AppendAssoc(saves0, got, piece);
      saved, totalChars, saves := SaveLine(l, stem, outputDir, saved, totalChars, saves);
      got := got + piece;
      i := i + 1;
    }
    assert i == FirstAbort(lines);
  }

  /** The lines of one readable result file. */
  method SaveFile(f: ResultFile, outputDir: Str, saved0: seq<Str>, chars0: nat, ghost saves0: seq<Saved>)
    returns (saved: seq<Str>, totalChars: nat, ghost saves: seq<Saved>)
    requires f.readable
    requires saved0 == SavedPaths(saves0) && chars0 == TotalLength(saves0)
    ensures saves == saves0 + FileSaves(f, outputDir)
    ensures saved == SavedPaths(saves) && totalChars == TotalLength(saves)
  {
    saved, totalChars, saves := SaveLines(f.lines, Stem(f.name), outputDir, saved0, chars0, saves0);
  }

  // ---- the whole run (`process_directory`) -----------------------------

  /** The component's inputs. */
  datatype Settings = Settings(
    inputDirectory: Str, filePattern: Str, recursive: bool, maxFiles: int,
    serverUrl: Str, apiKey: Str, modelName: Str,
    workspaceDirectory: Str, outputDirectory: Str,
    timeout: int)

  /** What the component learns from its surroundings: `expanduser()` then
      `resolve()`, existence and directory tests, the glob, the current
      directory and timestamp, the subprocess, and what it leaves behind. */
  datatype Environment = Environment(
    resolve: Str -> Str,
    pathExists: Str -> bool,
    isDir: Str -> bool,
    glob: (Str, Str, bool) -> seq<GlobEntry>,
    cwd: Str, timestamp: Str,
    run: seq<Str> -> RunOutcome,
    resultsDirExists: bool,
    resultFiles: seq<ResultFile>)

  /** The `_processing_data` dictionary; `fileTypes` is the extension
      tally with its keys in insertion order. */
  datatype ProcessingData = ProcessingData(
    outputDirectory: Str, inputDirectory: Str,
    inputFiles: seq<Str>, outputFiles: seq<Str>,
    totalInputFiles: nat, totalOutputFiles: nat, totalCharacters: nat,
    fileTypeOrder: seq<Str>, fileTypeCounts: map<Str, nat>,
    apiEndpoint: Str, modelName: Str, workspace: Str)

  /** Why a placeholder message was returned instead of processing. */
  datatype Pending =
    | DirectoryMissing(dir: Str)
    | NotADirectory(path: Str)
    | NoServerUrl
    | NoFilesFound(dir: Str, pattern: Str)

  datatype MessageData = NoData | Waiting(reason: Pending) | Processed(info: ProcessingData)

  datatype Message = Message(text: Str, data: MessageData)

  const ReadyText: Str := "Component ready. Configure inputs and run the flow to process files."
  const NoServerText: Str := "Ready to process. Please configure API Server URL."
  const NoResultsDirMessage: Str := "No results directory found. Processing may have failed silently."
  const NoContentMessage: Str := "No content extracted from files. Please verify files are valid and readable."

  function PendingText(p: Pending): Str {
    match p
    case DirectoryMissing(dir) => "Ready to process. Waiting for directory: " + dir
    case NotADirectory(path) => "Ready to process. Path must be a directory: " + path
    case NoServerUrl => NoServerText
    case NoFilesFound(dir, pattern) =>
      "Ready to process. No files found matching '" + pattern + "' in " + dir + ". Update inputs and run again."
  }

  function SuccessText(inputs: nat, outputs: nat, outputDir: Str): Str {
    "✓ Successfully processed " + IntToDecimal(inputs) + " file(s)\n"
    + "✓ Generated " + IntToDecimal(outputs) + " markdown file(s)\n"
    + "✓ Output directory: " + outputDir
  }

  /** The files the run works on: the discovered ones, cut to the first
      `max_files` when that is positive and exceeded. */
  function Selection(s: Settings, env: Environment): seq<Str> {
    var dir := env.resolve(s.inputDirectory);
    Limit(Discover(env.glob(dir, EffectivePattern(s.filePattern), s.recursive)), s.maxFiles)
  }

  /** The workspace: the given directory, or `<cwd>/olmocr_workspace_<timestamp>`. */
  function WorkspaceOf(s: Settings, env: Environment): Str {
    if !IsBlank(s.workspaceDirectory) then env.resolve(s.workspaceDirectory)
    else JoinPath(env.cwd, "olmocr_workspace_" + env.timestamp)
  }

  /** The output directory: the given one, or `<workspace>/markdown_output`. */
  function OutputDirOf(s: Settings, env: Environment): Str {
    if !IsBlank(s.outputDirectory) then env.resolve(s.outputDirectory)
    else JoinPath(WorkspaceOf(s, env), "markdown_output")
  }

  /** The shape of the command: the prefix, the file paths, then
      `--api_key` and the key when a key is set, then `--model` and the
      model name when one is set, and nothing more. */
  predicate IsDirectoryCommand(cmd: seq<Str>, workspace: Str, server: Str, paths: seq<Str>, apiKey: Str, modelName: Str) {
    && |cmd| == 12 + |paths| + (if apiKey != [] then 2 else 0) + (if modelName != [] then 2 else 0)
    && cmd[..12] == CommandPrefix(workspace, server)
    && cmd[12..12 + |paths|] == paths
    && (apiKey != [] ==> cmd[12 + |paths|..14 + |paths|] == ["--api_key", apiKey])
    && (modelName != [] ==> cmd[|cmd| - 2..] == ["--model", modelName])
  }

  /** The command: the prefix, the file paths, `--api_key` when a key is
      set and `--model` when a model name is set. */
  method DirectoryCommand(workspace: Str, server: Str, paths: seq<Str>, apiKey: Str, modelName: Str)
    returns (cmd: seq<Str>)
    ensures IsDirectoryCommand(cmd, workspace, server, paths, apiKey, modelName)
  {
    cmd := CommandPrefix(workspace, server) + paths;
    if apiKey != [] {
      cmd := cmd + ["--api_key", apiKey];
    }
    if modelName != [] {
      cmd := cmd + ["--model", modelName];
    }
  }

  function TimedOutMessage(timeout: int): Str {
    "Processing timed out after " + IntToDecimal(timeout) + " seconds. Try increasing timeout or reducing file count."
  }

  function FailedMessage(code: int, stderr: Str): Str {
    "olmOCR processing failed with exit code " + IntToDecimal(code) + ": " + Slice(stderr, 0, 300)
  }

  /** `d` is what a successful run of `s` in `env` records: the selected
      files and their extension tally, the directories used, the documents
      saved (at least one) and the endpoint and model. */
  ghost predicate RecordsRun(d: ProcessingData, s: Settings, env: Environment) {
    var saves := AllSaves(env.resultFiles, OutputDirOf(s, env));
    && d.inputDirectory == env.resolve(s.inputDirectory)
    && d.inputFiles == Selection(s, env) && d.totalInputFiles == |d.inputFiles|
    && TallyOf(Extensions(d.inputFiles), d.fileTypeOrder, d.fileTypeCounts)
    && d.outputDirectory == OutputDirOf(s, env) && d.workspace == WorkspaceOf(s, env)
    && d.outputFiles == SavedPaths(saves) && d.totalOutputFiles == |saves| > 0
    && d.totalCharacters == TotalLength(saves)
    && d.apiEndpoint == s.serverUrl && d.modelName == s.modelName
  }

  /** `cmd` is the pipeline command for the workspace and server over the
      selected files, with the settings' key and model name. */
  ghost predicate RunsSelection(cmd: seq<Str>, s: Settings, env: Environment) {
    IsDirectoryCommand(cmd, WorkspaceOf(s, env), s.serverUrl, Selection(s, env), s.apiKey, s.modelName)
  }

  /** Why `process_directory` (past the blank-input test) returns a
      placeholder instead of running: the resolved input is missing or not
      a directory, the server URL is blank, or no supported file is found;
      checked in that order. `None` means the command is run. */
  ghost function PendingOf(s: Settings, env: Environment): Option<Pending> {
    var dir := env.resolve(s.inputDirectory);
    if !env.pathExists(dir) then Some(DirectoryMissing(dir))
    else if !env.isDir(dir) then Some(NotADirectory(dir))
    else if IsBlank(s.serverUrl) then Some(NoServerUrl)
    else if Discover(env.glob(dir, EffectivePattern(s.filePattern), s.recursive)) == [] then
      Some(NoFilesFound(dir, s.filePattern))
    else None
  }

  /** After a zero exit code: no results directory raises, no saved
      document raises, and otherwise the run succeeds with the recorded
      outcome. */
  ghost predicate RecordsOutcome(r: Result<Message>, s: Settings, env: Environment) {
    var saves := AllSaves(env.resultFiles, OutputDirOf(s, env));
    && (!env.resultsDirExists ==> r == Err(RuntimeError(NoResultsDirMessage)))
    && (env.resultsDirExists && saves == [] ==> r == Err(RuntimeError(NoContentMessage)))
    && (env.resultsDirExists && saves != [] ==> r.Ok? && r.value.data.Processed?)
  }

  /** A run that times out raises `TimeoutError`, one that exits non-zero
      raises `RuntimeError` with the exit code and the start of stderr, and
      one that exits with 0 hands over to the recording. */
  ghost predicate ReportsOutcome(r: Result<Message>, outcome: RunOutcome, s: Settings, env: Environment) {
    && (outcome.TimedOut? ==> r == Err(TimeoutError(TimedOutMessage(s.timeout))))
    && (outcome.Completed? && outcome.returnCode != 0 ==>
          r == Err(RuntimeError(FailedMessage(outcome.returnCode, outcome.stderr))))
    && (outcome.Completed? && outcome.returnCode == 0 ==> RecordsOutcome(r, s, env))
  }

  /** The component, with the fields its outputs read back. */
  class OlmOcrDirectory {
    const settings: Settings
    var outputDirectory: Option<Str>
    var workspacePath: Option<Str>
    var processingData: Option<ProcessingData>

    constructor (settings: Settings)
      ensures this.settings == settings
      ensures outputDirectory.None? && workspacePath.None? && processingData.None?
    {
      this.settings := settings;
      outputDirectory, workspacePath, processingData := None, None, None;
    }

    /** `process_directory`. A blank input directory, a missing or
        non-directory input, a blank server URL or no discovered file give
        a placeholder message without running anything; a run that times
        out, fails, leaves no results directory or saves nothing raises;
        otherwise the fields are set to the outcome. `command` is the
        command line handed to the subprocess, if any. */
    method ProcessDirectory(env: Environment) returns (r: Result<Message>, command: Option<seq<Str>>)
      modifies this
      ensures IsBlank(settings.inputDirectory) ==> r == Ok(Message(ReadyText, NoData)) && command.None?
      ensures !IsBlank(settings.inputDirectory) && PendingOf(settings, env).Some? ==>
        var p := PendingOf(settings, env).value;
        r == Ok(Message(PendingText(p), Waiting(p))) && command.None?
      ensures !IsBlank(settings.inputDirectory) && PendingOf(settings, env).None? ==> command.Some?
      ensures r.Ok? && r.value.data.Processed? ==>
        var d := r.value.data.info;
        && command.Some? && RecordsRun(d, settings, env)
        && r.value.text == SuccessText(d.totalInputFiles, d.totalOutputFiles, d.outputDirectory)
        && outputDirectory == Some(d.outputDirectory) && workspacePath == Some(d.workspace)
        && processingData == Some(d)
      ensures !(r.Ok? && r.value.data.Processed?) ==>
        outputDirectory == old(outputDirectory) && workspacePath == old(workspacePath)
        && processingData == old(processingData)
      ensures command.Some? ==>
        RunsSelection(command.value, settings, env) && ReportsOutcome(r, env.run(command.value), settings, env)
    {
      command := None;
      if IsBlank(settings.inputDirectory) {
        return Ok(Message(ReadyText, NoData)), command;
      }
      var inputDir := env.resolve(settings.inputDirectory);
      if !env.pathExists(inputDir) {
        return Ok(Message(PendingText(DirectoryMissing(inputDir)), Waiting(DirectoryMissing(inputDir)))), command;
      }
      if !env.isDir(inputDir) {
        return Ok(Message(PendingText(NotADirectory(inputDir)), Waiting(NotADirectory(inputDir)))), command;
      }
      if IsBlank(settings.serverUrl) {
        return Ok(Message(PendingText(NoServerUrl), Waiting(NoServerUrl))), command;
      }
      var discovered := DiscoverFiles(env.glob(inputDir, EffectivePattern(settings.filePattern), settings.recursive));
      if discovered == [] {
        var p := NoFilesFound(inputDir, settings.filePattern);
        return Ok(Message(PendingText(p), Waiting(p))), command;
      }
      if settings.maxFiles > 0 && |discovered| > settings.maxFiles {
        discovered := discovered[..settings.maxFiles];
      }
      var cmd;
      r, cmd := Execute(env, inputDir, discovered);
      command := Some(cmd);
    }

    /** The part of `process_directory` after the files are selected: the
        tally, the directories, the command, the run, the saving and the
        recorded outcome. */
    method Execute(env: Environment, inputDir: Str, discovered: seq<Str>) returns (r: Result<Message>, cmd: seq<Str>)
      requires inputDir == env.resolve(settings.inputDirectory)
      requires discovered == Selection(settings, env)
      modifies this
      ensures r.Ok? ==>
        r.value.data.Processed?
        && var d := r.value.data.info;
        && RecordsRun(d, settings, env)
        && r.value.text == SuccessText(d.totalInputFiles, d.totalOutputFiles, d.outputDirectory)
        && outputDirectory == Some(d.outputDirectory) && workspacePath == Some(d.workspace)
        && processingData == Some(d)
      ensures r.Err? ==>
        outputDirectory == old(outputDirectory) && workspacePath == old(workspacePath)
        && processingData == old(processingData)
      ensures RunsSelection(cmd, settings, env) && ReportsOutcome(r, env.run(cmd), settings, env)
    {
      var order, counts := TallyExtensions(discovered);
      var workspace := WorkspaceOf(settings, env);
      cmd := DirectoryCommand(workspace, settings.serverUrl, discovered, settings.apiKey, settings.modelName);
      var outcome := env.run(cmd);
      if outcome.TimedOut? {
        return Err(TimeoutError(TimedOutMessage(settings.timeout))), cmd;
      }
      if outcome.returnCode != 0 {
        return Err(RuntimeError(FailedMessage(outcome.returnCode, outcome.stderr))), cmd;
      }
      r := Record(env, inputDir, discovered, order, counts);
    }

    /** The end of `process_directory` once the subprocess succeeded: the
        results directory check, the saving, and the recorded outcome. */
    method Record(env: Environment, inputDir: Str, discovered: seq<Str>, order: seq<Str>, counts: map<Str, nat>)
      returns (r: Result<Message>)
      requires inputDir == env.resolve(settings.inputDirectory)
      requires discovered == Selection(settings, env)
      requires TallyOf(Extensions(discovered), order, counts)
      modifies this
      ensures r.Ok? ==>
        r.value.data.Processed?
        && var d := r.value.data.info;
        && RecordsRun(d, settings, env)
        && r.value.text == SuccessText(d.totalInputFiles, d.totalOutputFiles, d.outputDirectory)
        && outputDirectory == Some(d.outputDirectory) && workspacePath == Some(d.workspace)
        && processingData == Some(d)
      ensures RecordsOutcome(r, settings, env)
      ensures r.Err? ==>
        outputDirectory == old(outputDirectory) && workspacePath == old(workspacePath)
        && processingData == old(processingData)
    {
      var workspace := WorkspaceOf(settings, env);
      var outputDir := OutputDirOf(settings, env);
      if !env.resultsDirExists {
        return Err(RuntimeError(NoResultsDirMessage));
      }
      var summary := SaveResults(env.resultFiles, outputDir);
      if summary.totalFiles == 0 {
        return Err(RuntimeError(NoContentMessage));
      }
      var data := ProcessingData(
        outputDir, inputDir, discovered, summary.savedFiles,
        |discovered|, summary.totalFiles, summary.totalChars,
        order, counts, settings.serverUrl, settings.modelName, workspace);
      assert RecordsRun(data, settings, env);
      var text := SuccessText(|discovered|, summary.totalFiles, outputDir);
      outputDirectory := Some(outputDir);
      workspacePath := Some(workspace);
      processingData := Some(data);
      r := Ok(Message(text, Processed(data)));
    }
  }
}
