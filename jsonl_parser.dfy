/** The olmOCR JSONL parser component: it walks the `*.jsonl` files of a
    workspace's `results` directory line by line, chunks every usable
    record with the selected strategy, caps the total at `max_chunks`, and
    keeps the chunks and a summary in the component's state.

    A results file is read until its first failing line: a line that is
    not valid JSON, or a record whose page attributes lack an array the
    strategy indexes. The chunks of the earlier lines of that file are
    kept, and the next file is read. */
module Parser {
  import opened Wrappers
  import opened PyStr
  import opened Jsonl
  import opened Lists
  import opened Chunking

  /** The component inputs (`verbose` only changes logging). */
  datatype Settings = Settings(
    workspacePath: Str,
    chunkingStrategy: Str,
    opts: Options,
    maxChunks: int)

  /** What the file system answers about the workspace: its resolved path,
      whether it exists, and the `*.jsonl` files of `results` in the order
      `glob` yields them (None when `results` does not exist). */
  datatype Workspace = Workspace(resolved: Str, found: bool, results: Option<seq<JsonlFile>>)

  /** `_stats`. */
  datatype Stats = Stats(
    totalChunks: nat,
    documentsProcessed: nat,
    jsonlFiles: nat,
    chunkingStrategy: Str,
    workspacePath: Str)

  /** The strategy a `chunking_strategy` value selects; an unknown value
      falls back to `page`. */
  function StrategyOf(name: Str): (st: Strategy)
    ensures name != "semantic" && name != "fixed_size" ==> st == Page
  {
    if name == "fixed_size" then FixedSize
    else if name == "semantic" then Semantic
    else Page
  }

  /** Every strategy is selected by its own name. */
  lemma StrategyNameRoundTrip(st: Strategy)
    ensures StrategyOf(StrategyName(st)) == st
  {
  }

  /** The fixed-size window moves forward. With a step of zero or less the
      source's window loop never ends on a non-empty text. */
  predicate CanChunk(s: Settings) {
    StrategyOf(s.chunkingStrategy) == FixedSize ==> s.opts.chunkSize - s.opts.chunkOverlap > 0
  }

  // ---- one record -----------------------------------------------------

  /** The per-page arrays, an absent one read as empty. */
  function ArraysOf(a: Attributes): PageArrays {
    PageArrays(a.primaryLanguage.GetOr([]), a.isTable.GetOr([]), a.isDiagram.GetOr([]))
  }

  /** Chunking a record raises KeyError: an array is missing and the
      strategy indexes it. Page and semantic read all three arrays for the
      first page; fixed_size reads them for each character of each page
      range, so only when some range is non-empty. */
  predicate Raises(rec: Record, st: Strategy) {
    var a := rec.attributes;
    && (a.primaryLanguage.None? || a.isTable.None? || a.isDiagram.None?)
    && (st == FixedSize ==> exists i :: 0 <= i < |a.pageNumbers| && a.pageNumbers[i].start < a.pageNumbers[i].end)
  }

  /** The chunks of one record under the selected strategy. */
  function RecordChunks(rec: Record, s: Settings): seq<Chunk>
    requires CanChunk(s)
  {
    var text, bs := rec.text, rec.attributes.pageNumbers;
    var arr, doc := ArraysOf(rec.attributes), DocInfoOf(rec.metadata);
    var filters := ParseLanguageFilter(s.opts.languageFilter);
    match StrategyOf(s.chunkingStrategy)
    case Page => PageChunks(text, bs, arr, doc, s.opts, filters)
    case Semantic => SemanticChunks(text, bs, arr, doc, s.opts, filters)
    case FixedSize => FixedChunks(text, bs, arr, doc, s.opts, filters)
  }

  /** The chunks of a record are numbered from 0, carry the selected
      strategy and pass the filters and the minimum length. */
  lemma RecordChunksWellFormed(rec: Record, s: Settings)
    requires CanChunk(s)
    ensures WellFormed(RecordChunks(rec, s), s.opts, ParseLanguageFilter(s.opts.languageFilter), StrategyOf(s.chunkingStrategy))
  {
    var text, bs := rec.text, rec.attributes.pageNumbers;
    var arr, doc := ArraysOf(rec.attributes), DocInfoOf(rec.metadata);
    var filters := ParseLanguageFilter(s.opts.languageFilter);
    match StrategyOf(s.chunkingStrategy)
    case Page => PageChunksWellFormed(text, bs, arr, doc, s.opts, filters);
    case Semantic => SemanticChunksSpec(text, bs, arr, doc, s.opts, filters);
    case FixedSize => FixedChunksWellFormed(text, bs, arr, doc, s.opts, filters);
  }

  /** The dispatch on `chunking_strategy`. */
  method ChunkDocument(rec: Record, s: Settings) returns (chunks: seq<Chunk>)
    requires CanChunk(s)
    ensures chunks == RecordChunks(rec, s)
  {
    var text, bs := rec.text, rec.attributes.pageNumbers;
    var arr, doc := ArraysOf(rec.attributes), DocInfoOf(rec.metadata);
    RecordChunksUnfold(rec, s);
    if s.chunkingStrategy == "page" {
      chunks := ChunkByPage(text, bs, arr, doc, s.opts);
    } else if s.chunkingStrategy == "fixed_size" {
      chunks := ChunkByFixedSize(text, bs, arr, doc, s.opts);
    } else if s.chunkingStrategy == "semantic" {
      chunks := ChunkSemantic(text, bs, arr, doc, s.opts);
    } else {
      chunks := ChunkByPage(text, bs, arr, doc, s.opts);
    }
  }

  lemma RecordChunksUnfold(rec: Record, s: Settings)
    requires CanChunk(s)
    ensures var text, bs := rec.text, rec.attributes.pageNumbers;
      var arr, doc := ArraysOf(rec.attributes), DocInfoOf(rec.metadata);
      var filters := ParseLanguageFilter(s.opts.languageFilter);
      && (StrategyOf(s.chunkingStrategy) == Page ==> RecordChunks(rec, s) == PageChunks(text, bs, arr, doc, s.opts, filters))
      && (StrategyOf(s.chunkingStrategy) == Semantic ==> RecordChunks(rec, s) == SemanticChunks(text, bs, arr, doc, s.opts, filters))
      && (StrategyOf(s.chunkingStrategy) == FixedSize ==> RecordChunks(rec, s) == FixedChunks(text, bs, arr, doc, s.opts, filters))
  {
  }

  // ---- one file -------------------------------------------------------

  /** What one line does: nothing (blank, or a record without text or
      pages), end the file (a decode error or a KeyError), or contribute
      the chunks of one document. */
  datatype Step = Skip | Stop | Emit(chunks: seq<Chunk>)

  function LineStep(line: Line, s: Settings): Step
    requires CanChunk(s)
  {
    if IsBlank(line.raw) then Skip
    else match line.decoded
      case None => Stop
      case Some(rec) =>
        if rec.text == [] || rec.attributes.pageNumbers == [] then Skip
        else if Raises(rec, StrategyOf(s.chunkingStrategy)) then Stop
        else Emit(RecordChunks(rec, s))
  }

  /** What a line's step means: a blank line is passed over; the file
      stops exactly at a non-blank line that does not decode or whose
      record, having text and boundaries, lacks an array the strategy
      reads; and emitted chunks come from a record with text and
      boundaries and are well formed. */
  lemma LineStepSpec(line: Line, s: Settings)
    requires CanChunk(s)
    ensures IsBlank(line.raw) ==> LineStep(line, s) == Skip
    ensures LineStep(line, s) == Stop <==> (
      && !IsBlank(line.raw)
      && (line.decoded.None? || (
        && line.decoded.value.text != []
        && line.decoded.value.attributes.pageNumbers != []
        && Raises(line.decoded.value, StrategyOf(s.chunkingStrategy)))))
    ensures LineStep(line, s).Emit? ==> (
      && line.decoded.Some?
      && line.decoded.value.text != []
      && line.decoded.value.attributes.pageNumbers != []
      && LineStep(line, s).chunks == RecordChunks(line.decoded.value, s)
      && WellFormed(LineStep(line, s).chunks, s.opts, ParseLanguageFilter(s.opts.languageFilter), StrategyOf(s.chunkingStrategy)))
  {
    if !IsBlank(line.raw) && line.decoded.Some? {
      var rec := line.decoded.value;
      if rec.text != [] && rec.attributes.pageNumbers != [] && !Raises(rec, StrategyOf(s.chunkingStrategy)) {
        assert LineStep(line, s) == Emit(RecordChunks(rec, s));
        RecordChunksWellFormed(rec, s);
      }
    }
  }

  /** The steps of the lines of a file, in order. */
  function FileSteps(lines: seq<Line>, s: Settings): (steps: seq<Step>)
    requires CanChunk(s)
    ensures |steps| == |lines|
  {
    seq(|lines|, i requires 0 <= i < |lines| => LineStep(lines[i], s))
  }

  /** The chunks and document count a file contributes, and whether its
      reading ended on a failing line. */
  datatype Outcome = Outcome(chunks: seq<Chunk>, docs: nat, failed: bool)

  /** Taking the steps in order; after a failing step nothing changes. */
  function RunSteps(steps: seq<Step>): Outcome
    decreases |steps|
  {
    if steps == [] then Outcome([], 0, false)
    else
      var o := RunSteps(steps[..|steps| - 1]);
      if o.failed then o
      else match steps[|steps| - 1]
        case Skip => o
        case Stop => o.(failed := true)
        case Emit(cs) => Outcome(o.chunks + cs, o.docs + 1, false)
  }

  /** What reading a file yields. */
  function RunLines(lines: seq<Line>, s: Settings): Outcome
    requires CanChunk(s)
  {
    RunSteps(FileSteps(lines, s))
  }

  /** The index of the first failing step, |steps| when none fails. */
  function FirstStop(steps: seq<Step>): (j: nat)
    ensures j <= |steps|
    ensures forall i :: 0 <= i < j ==> !steps[i].Stop?
    ensures j < |steps| ==> steps[j].Stop?
    decreases |steps|
  {
    if steps == [] || steps[0].Stop? then 0
    else
      var j := FirstStop(steps[1..]);
      assert forall i :: 1 <= i < j + 1 ==> steps[i] == steps[1..][i - 1];
      j + 1
  }

  /** All chunks the steps emit, in order, ignoring failures. */
  function Emitted(steps: seq<Step>): seq<Chunk>
    decreases |steps|
  {
    if steps == [] then []
    else
      var front := Emitted(steps[..|steps| - 1]);
      match steps[|steps| - 1]
      case Emit(cs) => front + cs
      case _ => front
  }

  /** The number of steps that emit. */
  function EmitCount(steps: seq<Step>): (n: nat)
    ensures n <= |steps|
    decreases |steps|
  {
    if steps == [] then 0
    else EmitCount(steps[..|steps| - 1]) + (if steps[|steps| - 1].Emit? then 1 else 0)
  }

  /** The first-failure index is determined by its two properties. */
  lemma FirstStopUnique(steps: seq<Step>, j: nat)
    requires j <= |steps|
    requires forall i :: 0 <= i < j ==> !steps[i].Stop?
    requires j < |steps| ==> steps[j].Stop?
    ensures j == FirstStop(steps)
  {
  }

  /** A file yields exactly the chunks and documents of the lines before
      its first failing line, and is marked failed exactly when there is
      such a line. */
  lemma {:induction false} RunStepsSpec(steps: seq<Step>)
    ensures var j := FirstStop(steps);
      RunSteps(steps) == Outcome(Emitted(steps[..j]), EmitCount(steps[..j]), j < |steps|)
    decreases |steps|
  {
    if steps != [] {
      var n := |steps| - 1;
      var front := steps[..n];
      RunStepsSpec(front);
      var j := FirstStop(steps);
      if j < n {
        FirstStopUnique(front, j);
        assert front[..j] == steps[..j];
      } else {
        FirstStopUnique(front, n);
        assert front[..n] == front;
        assert steps[..n] == front;
        if j == |steps| {
          assert steps[..j] == steps;
        }
      }
    }
  }

  /** After a failing step, the rest changes nothing. */
  lemma {:induction false} FailedPrefixFinal(steps: seq<Step>, k: nat)
    requires k <= |steps|
    requires RunSteps(steps[..k]).failed
    ensures RunSteps(steps) == RunSteps(steps[..k])
    decreases |steps| - k
  {
    if k < |steps| {
      var n := |steps| - 1;
      assert steps[..n][..k] == steps[..k];
      FailedPrefixFinal(steps[..n], k);
    } else {
      assert steps[..k] == steps;
    }
  }

  /** One step of the run, read off the last step. */
  lemma RunStepsNext(steps: seq<Step>, i: nat)
    requires i < |steps|
    ensures var o := RunSteps(steps[..i]);
      RunSteps(steps[..i + 1]) == (
        if o.failed then o
        else match steps[i]
          case Skip => o
          case Stop => o.(failed := true)
          case Emit(cs) => Outcome(o.chunks + cs, o.docs + 1, false))
  {
    assert steps[..i + 1][..i] == steps[..i];
  }

  /** The body of the line loop of `parse_jsonl`: a blank line is passed
      over, a line that is not JSON raises, a record without text or pages
      is skipped, and otherwise the strategy chunks the record (raising
      KeyError on a missing page array). */
  method ReadLine(line: Line, s: Settings) returns (st: Step)
    requires CanChunk(s)
    ensures st == LineStep(line, s)
  {
    if IsBlank(line.raw) {
      return Skip;
    }
    if line.decoded.None? {
      return Stop;
    }
    var rec := line.decoded.value;
    if rec.text == [] || rec.attributes.pageNumbers == [] {
      return Skip;
    }
    if Raises(rec, StrategyOf(s.chunkingStrategy)) {
      return Stop;
    }
    var cs := ChunkDocument(rec, s);
    return Emit(cs);
  }

  /** One turn of the line loop, from a prefix that has not failed: a
      failing step fixes the whole run, the others extend the prefix. */
  lemma LoopStep(steps: seq<Step>, i: nat, chunks: seq<Chunk>, docs: nat)
    requires i < |steps|
    requires RunSteps(steps[..i]) == Outcome(chunks, docs, false)
    ensures steps[i].Stop? ==> RunSteps(steps) == Outcome(chunks, docs, true)
    ensures steps[i].Skip? ==> RunSteps(steps[..i + 1]) == Outcome(chunks, docs, false)
    ensures steps[i].Emit? ==> RunSteps(steps[..i + 1]) == Outcome(chunks + steps[i].chunks, docs + 1, false)
  {
    RunStepsNext(steps, i);
    if steps[i].Stop? {
      FailedPrefixFinal(steps, i + 1);
    }
  }

  /** The line loop of `parse_jsonl` for one file: the `try` around it ends
      the file at the first failing line. */
  method ProcessFile(lines: seq<Line>, s: Settings) returns (o: Outcome)
    requires CanChunk(s)
    ensures o == RunLines(lines, s)
  {
    ghost var steps := FileSteps(lines, s);
    var chunks: seq<Chunk> := [];
    var docs: nat := 0;
    var i := 0;
    assert steps[..0] == [];
    while i < |lines|
      invariant 0 <= i <= |lines|
      invariant RunSteps(steps[..i]) == Outcome(chunks, docs, false)
    {
      var st := ReadLine(lines[i], s);
      assert st == steps[i];
      LoopStep(steps, i, chunks, docs);
      match st {
        case Stop =>
          return Outcome(chunks, docs, true);
        case Skip =>
        case Emit(cs) =>
          chunks := chunks + cs;
          docs := docs + 1;
      }
      i := i + 1;
    }
    assert steps[..i] == steps;
    o := Outcome(chunks, docs, false);
  }

  // ---- all files ------------------------------------------------------

  /** The chunks and documents of all files, file after file. */
  datatype Totals = Totals(chunks: seq<Chunk>, docs: nat)

  function RunFiles(files: seq<JsonlFile>, s: Settings): Totals
    requires CanChunk(s)
    decreases |files|
  {
    if files == [] then Totals([], 0)
    else
      var t := RunFiles(files[..|files| - 1], s);
      var o := RunLines(files[|files| - 1].lines, s);
      Totals(t.chunks + o.chunks, t.docs + o.docs)
  }

  /** Each file adds at most one document per line. */
  function LineCount(files: seq<JsonlFile>): nat
    decreases |files|
  {
    if files == [] then 0 else LineCount(files[..|files| - 1]) + |files[|files| - 1].lines|
  }

  lemma {:induction false} DocsBound(files: seq<JsonlFile>, s: Settings)
    requires CanChunk(s)
    ensures RunFiles(files, s).docs <= LineCount(files)
    decreases |files|
  {
    if files != [] {
      var lines := files[|files| - 1].lines;
      var steps := FileSteps(lines, s);
      DocsBound(files[..|files| - 1], s);
      RunStepsSpec(steps);
      var j := FirstStop(steps);
      assert EmitCount(steps[..j]) <= |lines|;
    }
  }

  /** The run got past the early returns: a non-blank workspace path, an
      existing workspace with a `results` directory holding JSONL files. */
  predicate Started(s: Settings, ws: Workspace) {
    !IsBlank(s.workspacePath) && ws.found && ws.results.Some? && ws.results.value != []
  }

  /** What `parse_jsonl` returns. */
  function ParseResult(s: Settings, ws: Workspace): seq<Chunk>
    requires CanChunk(s)
  {
    if !Started(s, ws) then []
    else Limit(RunFiles(ws.results.value, s).chunks, s.maxChunks)
  }

  /** The result is empty before a run starts; otherwise it is the first
      chunks of all files in order, at most `max_chunks` of them when that
      is positive, and all of them otherwise. */
  lemma ParseResultSpec(s: Settings, ws: Workspace)
    requires CanChunk(s)
    ensures var r := ParseResult(s, ws);
      && (!Started(s, ws) ==> r == [])
      && (Started(s, ws) ==>
            var all := RunFiles(ws.results.value, s).chunks;
            && r == all[..|r|]
            && (s.maxChunks > 0 ==> |r| == if |all| > s.maxChunks then s.maxChunks else |all|)
            && (s.maxChunks <= 0 ==> r == all))
  {
  }

  /** `_stats` after a run that started. */
  function StatsOf(s: Settings, ws: Workspace): Stats
    requires CanChunk(s) && Started(s, ws)
  {
    Stats(|ParseResult(s, ws)|, RunFiles(ws.results.value, s).docs, |ws.results.value|,
      s.chunkingStrategy, ws.resolved)
  }

  /** One DataFrame row: the chunk text and its flattened metadata. */
  datatype Row = Row(
    text: Str,
    sourceFile: Str,
    pageNumber: int,
    language: Str,
    hasTable: bool,
    hasDiagram: bool,
    charCount: int,
    chunkIndex: int,
    chunkingStrategy: Str)

  function RowOf(c: Chunk): Row {
    Row(c.text, c.sourceFile, c.pageNumber, c.language, c.hasTable, c.hasDiagram,
      c.charCount, c.chunkIndex, StrategyName(c.strategy))
  }

  /** The parser component with the state `parse_jsonl` leaves behind:
      `_chunks`, `_stats` and `status`. */
  class JsonlParser {
    const settings: Settings
    var chunks: Option<seq<Chunk>>
    var stats: Option<Stats>
    var status: Option<seq<Chunk>>

    constructor(settings: Settings)
      ensures this.settings == settings
      ensures chunks == None && stats == None && status == None
    {
      this.settings := settings;
      chunks := None;
      stats := None;
      status := None;
    }

    /** `parse_jsonl`: the result is `ParseResult`; `status` shows it; a run
        that got past the early returns also records the chunks and the
        summary, and an early return leaves them as they were. */
    method ParseJsonl(ws: Workspace) returns (r: seq<Chunk>)
      requires CanChunk(settings)
      modifies this
      ensures r == ParseResult(settings, ws)
      ensures status == Some(r)
      ensures Started(settings, ws) ==> chunks == Some(r) && stats == Some(StatsOf(settings, ws))
      ensures !Started(settings, ws) ==> chunks == old(chunks) && stats == old(stats)
    {
      if IsBlank(settings.workspacePath) || !ws.found || ws.results.None? || ws.results.value == [] {
        status := Some([]);
        return [];
      }
      var files := ws.results.value;
      var all: seq<Chunk> := [];
      var docs: nat := 0;
      for f := 0 to |files|
        invariant RunFiles(files[..f], settings) == Totals(all, docs)
      {
        assert files[..f + 1][..f] == files[..f];
        var o := ProcessFile(files[f].lines, settings);
        all := all + o.chunks;
        docs := docs + o.docs;
      }
      assert files[..|files|] == files;
      if settings.maxChunks > 0 && |all| > settings.maxChunks {
        all := all[..settings.maxChunks];
      }
      chunks := Some(all);
      stats := Some(Stats(|all|, docs, |files|, settings.chunkingStrategy, ws.resolved));
      status := Some(all);
      r := all;
    }

    /** `get_dataframe`: parse again, then one row per chunk, in order. */
    method GetDataFrame(ws: Workspace) returns (rows: seq<Row>)
      requires CanChunk(settings)
      modifies this
      ensures |rows| == |ParseResult(settings, ws)|
      ensures forall k :: 0 <= k < |rows| ==> rows[k] == RowOf(ParseResult(settings, ws)[k])
      ensures status == Some(ParseResult(settings, ws))
      ensures Started(settings, ws) ==> chunks == Some(ParseResult(settings, ws)) && stats == Some(StatsOf(settings, ws))
      ensures !Started(settings, ws) ==> chunks == old(chunks) && stats == old(stats)
    {
      var cs := ParseJsonl(ws);
      rows := [];
      for k := 0 to |cs|
        invariant |rows| == k
        invariant forall m :: 0 <= m < k ==> rows[m] == RowOf(cs[m])
      {
        rows := rows + [RowOf(cs[k])];
      }
    }
  }
}
