/** The three chunking strategies of the olmOCR JSONL parser (page,
    semantic, fixed_size), the language filter they share and the page
    attributes they read.

    Each strategy is specified as a list of candidates (one per page, per
    paragraph or per window), each either skipped (None) or a chunk; the
    result keeps the present candidates in order and numbers them from 0.
    The methods build the same list with the source's loops. */
module Chunking {
  import opened Wrappers
  import opened PyStr
  import opened Paths
  import opened Jsonl
  import opened Lists

  /** The component inputs the chunkers read. */
  datatype Options = Options(
    chunkSize: int,
    chunkOverlap: int,
    languageFilter: Str,
    includeTables: bool,
    includeDiagrams: bool,
    minChars: int)

  datatype Strategy = Page | Semantic | FixedSize

  /** The `chunking_strategy` value a chunk carries. */
  function StrategyName(s: Strategy): Str {
    match s
    case Page => "page"
    case Semantic => "semantic"
    case FixedSize => "fixed_size"
  }

  /** The document-level values every chunk of a record carries, with the
      defaults used for missing metadata keys. */
  datatype DocInfo = DocInfo(sourceFile: Str, sourceFullPath: Str, totalPages: int, version: Str)

  /** The values of a record's metadata; `source_file` is the file name
      (`Path(...).name`) of `source_full_path`. */
  function DocInfoOf(m: Metadata): (d: DocInfo)
    ensures d.sourceFullPath == m.sourceFile.GetOr("unknown")
    ensures d.sourceFile == FileName(d.sourceFullPath)
    ensures m.sourceFile.None? ==> d.sourceFullPath == "unknown"
    ensures m.totalPages.None? ==> d.totalPages == 0
    ensures m.version.None? ==> d.version == "unknown"
  {
    var path := m.sourceFile.GetOr("unknown");
    DocInfo(FileName(path), path, m.totalPages.GetOr(0), m.version.GetOr("unknown"))
  }

  /** The attributes of the page a chunk comes from. */
  datatype PageInfo = PageInfo(pageNum: int, language: Str, hasTable: bool, hasDiagram: bool)

  /** What a fixed-size window takes when no page covers its first character. */
  const UnknownPage := PageInfo(0, "unknown", false, false)

  /** The three per-page arrays of a record whose attributes hold all of them. */
  datatype PageArrays = PageArrays(languages: seq<Str>, tables: seq<bool>, diagrams: seq<bool>)

  /** The attributes of page `i`: an entry past the end of its array takes
      its default ("unknown", no table, no diagram). */
  function PageInfoAt(b: Boundary, arr: PageArrays, i: nat): (info: PageInfo)
    ensures info.pageNum == b.pageNum
    ensures info.language == (if i < |arr.languages| then arr.languages[i] else "unknown")
    ensures info.hasTable <==> i < |arr.tables| && arr.tables[i]
    ensures info.hasDiagram <==> i < |arr.diagrams| && arr.diagrams[i]
  {
    PageInfo(
      b.pageNum,
      if i < |arr.languages| then arr.languages[i] else "unknown",
      if i < |arr.tables| then arr.tables[i] else false,
      if i < |arr.diagrams| then arr.diagrams[i] else false)
  }

  /** One chunk record, `data` flattened into fields; the fields only some
      strategies set are Options. */
  datatype Chunk = Chunk(
    text: Str,
    sourceFile: Str,
    sourceFullPath: Str,
    pageNumber: int,
    totalPages: int,
    language: Str,
    hasTable: bool,
    hasDiagram: bool,
    charStart: Option<int>,
    charEnd: Option<int>,
    charCount: int,
    chunkIndex: int,
    paragraphIndex: Option<int>,
    strategy: Strategy,
    chunkSize: Option<int>,
    chunkOverlap: Option<int>,
    version: Str)

  /** The fields all strategies fill the same way; the index is set when the
      chunk is appended. */
  function MakeChunk(text: Str, doc: DocInfo, info: PageInfo, charCount: int, strategy: Strategy): Chunk {
    Chunk(text, doc.sourceFile, doc.sourceFullPath, info.pageNum, doc.totalPages,
      info.language, info.hasTable, info.hasDiagram, None, None, charCount, 0, None,
      strategy, None, None, doc.version)
  }

  // ---- language filter ------------------------------------------------

  /** A language code as the filter holds it: non-empty, stripped, lower case. */
  predicate IsLanguageCode(c: Str) {
    c != [] && Trimmed(c) && forall i :: 0 <= i < |c| ==> !IsUpper(c[i])
  }

  /** The code one comma-separated part contributes: none when it is blank. */
  function CodeOf(part: Str): Option<Str> {
    var code := Strip(part);
    if code == [] then None else Some(Lower(code))
  }

  /** A part yields a code exactly when it is not blank, and the code is a
      language code. */
  lemma CodeOfSpec(part: Str)
    ensures CodeOf(part).Some? ==> IsLanguageCode(CodeOf(part).value)
    ensures CodeOf(part).Some? <==> !IsBlank(part)
  {
    var code := Strip(part);
    if code != [] {
      LowerTrimmed(code);
    }
  }

  /** What each comma-separated part yields, in order. */
  function CodeCandidates(parts: seq<Str>): (r: seq<Option<Str>>)
    ensures |r| == |parts|
  {
    seq(|parts|, k requires 0 <= k < |parts| => CodeOf(parts[k]))
  }

  /** The codes present among the candidates, in order: the filtering
      list comprehension. */
  function Present(cs: seq<Option<Str>>): (r: seq<Str>)
    ensures |r| <= |cs|
    decreases |cs|
  {
    if cs == [] then []
    else
      var init := Present(cs[..|cs| - 1]);
      match cs[|cs| - 1]
      case None => init
      case Some(c) => init + [c]
  }

  /** The language filter: none for a blank setting; otherwise the
      comma-separated codes, stripped and lower-cased, blanks dropped. */
  function ParseLanguageFilter(raw: Str): (r: seq<Str>)
    ensures forall k :: 0 <= k < |r| ==> IsLanguageCode(r[k])
    ensures IsBlank(raw) ==> r == []
  {
    if IsBlank(raw) then []
    else
      var cs := CodeCandidates(Split(raw, ","));
      CandidatesAreCodes(Split(raw, ","));
      PresentCodes(cs);
      Present(cs)
  }

  /** A code is in the filter exactly when some comma-separated part of
      the setting yields it. */
  lemma LanguageFilterMember(raw: Str, c: Str)
    ensures c in ParseLanguageFilter(raw) <==> SomePartYields(Split(raw, ","), c)
  {
    if IsBlank(raw) {
      BlankFilterHasNoCode(raw, c);
    } else {
      var parts := Split(raw, ",");
      PresentMember(CodeCandidates(parts), c);
      CodeCandidatesMember(parts, c);
    }
  }

  lemma BlankFilterHasNoCode(raw: Str, c: Str)
    requires IsBlank(raw)
    ensures !SomePartYields(Split(raw, ","), c)
  {
    var parts := Split(raw, ",");
    PartsOfBlankAreBlank(",", parts);
    forall k | 0 <= k < |parts| ensures CodeOf(parts[k]).None? {
      CodeOfSpec(parts[k]);
    }
  }

  /** Some part yields the code `c`. */
  predicate SomePartYields(parts: seq<Str>, c: Str) {
    exists k :: 0 <= k < |parts| && CodeOf(parts[k]) == Some(c)
  }

  lemma CodeCandidatesMember(parts: seq<Str>, c: Str)
    ensures Some(c) in CodeCandidates(parts) <==> SomePartYields(parts, c)
  {
    var cs := CodeCandidates(parts);
    if Some(c) in cs {
      var k :| 0 <= k < |cs| && cs[k] == Some(c);
      assert CodeOf(parts[k]) == Some(c);
    }
    if SomePartYields(parts, c) {
      var k :| 0 <= k < |parts| && CodeOf(parts[k]) == Some(c);
      assert cs[k] == Some(c);
    }
  }

  /** Every candidate code is a language code. */
  lemma CandidatesAreCodes(parts: seq<Str>)
    ensures var cs := CodeCandidates(parts);
      forall i :: 0 <= i < |cs| && cs[i].Some? ==> IsLanguageCode(cs[i].value)
  {
    var cs := CodeCandidates(parts);
    forall i | 0 <= i < |cs| && cs[i].Some? ensures IsLanguageCode(cs[i].value) {
      CodeOfSpec(parts[i]);
    }
  }

  /** A value is present exactly when some candidate holds it. */
  lemma {:induction false} PresentMember(cs: seq<Option<Str>>, c: Str)
    ensures c in Present(cs) <==> Some(c) in cs
    decreases |cs|
  {
    if cs != [] {
      var n := |cs| - 1;
      PresentMember(cs[..n], c);
      assert cs == cs[..n] + [cs[n]];
    }
  }

  /** The present values of language-code candidates are language codes. */
  lemma {:induction false} PresentCodes(cs: seq<Option<Str>>)
    requires forall i :: 0 <= i < |cs| && cs[i].Some? ==> IsLanguageCode(cs[i].value)
    ensures forall k :: 0 <= k < |Present(cs)| ==> IsLanguageCode(Present(cs)[k])
    decreases |cs|
  {
    if cs != [] {
      PresentCodes(cs[..|cs| - 1]);
    }
  }

  /** The parts of a blank string are blank: the guard for a blank filter
      setting agrees with the list comprehension after it. */
  lemma {:induction false} PartsOfBlankAreBlank(sep: Str, parts: seq<Str>)
    requires IsBlank(Join(sep, parts))
    ensures forall k :: 0 <= k < |parts| ==> IsBlank(parts[k])
    decreases |parts|
  {
    if |parts| > 1 {
      var s := Join(sep, parts);
      assert s == parts[0] + sep + Join(sep, parts[1..]);
      forall i | 0 <= i < |parts[0]| ensures IsSpace(parts[0][i]) {
        assert s[i] == parts[0][i];
      }
      var rest := Join(sep, parts[1..]);
      forall i | 0 <= i < |rest| ensures IsSpace(rest[i]) {
        assert s[|parts[0]| + |sep| + i] == rest[i];
      }
      PartsOfBlankAreBlank(sep, parts[1..]);
      forall k | 1 <= k < |parts| ensures IsBlank(parts[k]) {
        assert parts[k] == parts[1..][k - 1];
      }
    }
  }

  /** A page is left out when its language is not in a non-empty filter,
      or it holds a table and tables are excluded, or it holds a diagram
      and diagrams are excluded. */
  predicate Excluded(filters: seq<Str>, opts: Options, info: PageInfo) {
    || (|filters| > 0 && info.language !in filters)
    || (!opts.includeTables && info.hasTable)
    || (!opts.includeDiagrams && info.hasDiagram)
  }

  /** What every emitted chunk satisfies whatever the strategy: its page
      passed the filters and its text is at least the minimum length. */
  predicate Admitted(c: Chunk, opts: Options, filters: seq<Str>) {
    && (|filters| > 0 ==> c.language in filters)
    && (!opts.includeTables ==> !c.hasTable)
    && (!opts.includeDiagrams ==> !c.hasDiagram)
    && |c.text| >= opts.minChars
  }

  /** The chunks of one document: numbered 0, 1, 2, ... and all admitted. */
  predicate WellFormed(r: seq<Chunk>, opts: Options, filters: seq<Str>, s: Strategy) {
    forall k :: 0 <= k < |r| ==> r[k].chunkIndex == k && r[k].strategy == s && Admitted(r[k], opts, filters)
  }

  /** Number the kept chunks in order. */
  function Renumber(cs: seq<Chunk>): (r: seq<Chunk>)
    ensures |r| == |cs|
  {
    seq(|cs|, k requires 0 <= k < |cs| => cs[k].(chunkIndex := k))
  }

  /** Appending a candidate appends its chunk, if any, numbered after the
      chunks kept so far. */
  lemma RenumberSomesSnoc(cs: seq<Option<Chunk>>, c: Option<Chunk>)
    ensures Renumber(Somes(cs + [c])) ==
      Renumber(Somes(cs)) + (if c.Some? then [c.value.(chunkIndex := |Somes(cs)|)] else [])
  {
    SomesSnoc(cs, c);
  }

  /** One step of the chunking loops: the chunks kept from the first `i`
      candidates, extended by candidate `i`. */
  lemma KeepStep(cs: seq<Option<Chunk>>, i: int, chunks: seq<Chunk>)
    requires 0 <= i < |cs| && chunks == Renumber(Somes(cs[..i]))
    ensures Renumber(Somes(cs[..i + 1])) ==
      chunks + (if cs[i].Some? then [cs[i].value.(chunkIndex := |chunks|)] else [])
  {
    assert cs[..i + 1] == cs[..i] + [cs[i]];
    RenumberSomesSnoc(cs[..i], cs[i]);
  }

  /** Candidates that are all admitted chunks of strategy `s` give a
      well-formed document. */
  lemma RenumberWellFormed(cs: seq<Option<Chunk>>, opts: Options, filters: seq<Str>, s: Strategy)
    requires forall i :: 0 <= i < |cs| && cs[i].Some? ==>
      cs[i].value.strategy == s && Admitted(cs[i].value, opts, filters)
    ensures WellFormed(Renumber(Somes(cs)), opts, filters, s)
  {
    var p := Positions(cs);
    forall k | 0 <= k < |Somes(cs)|
      ensures Somes(cs)[k].strategy == s && Admitted(Somes(cs)[k], opts, filters)
    {
      assert cs[p[k]] == Some(Somes(cs)[k]);
    }
  }

  // ---- page strategy --------------------------------------------------

  /** Page `b`: skipped when excluded or shorter than the minimum, else its
      slice of the text with its character span. */
  function PageCandidate(text: Str, b: Boundary, info: PageInfo, doc: DocInfo, opts: Options, filters: seq<Str>): Option<Chunk> {
    if Excluded(filters, opts, info) then None
    else
      var pageText := Slice(text, b.start, b.end);
      if |pageText| < opts.minChars then None
      else Some(PageChunk(text, b, info, doc))
  }

  /** The chunk of page `b`, with its character span. */
  function PageChunk(text: Str, b: Boundary, info: PageInfo, doc: DocInfo): Chunk {
    MakeChunk(Slice(text, b.start, b.end), doc, info, b.end - b.start, Page).(charStart := Some(b.start), charEnd := Some(b.end))
  }

  function PageCandidates(text: Str, bs: seq<Boundary>, arr: PageArrays, doc: DocInfo, opts: Options, filters: seq<Str>): (r: seq<Option<Chunk>>)
    ensures |r| == |bs|
  {
    seq(|bs|, i requires 0 <= i < |bs| => PageCandidate(text, bs[i], PageInfoAt(bs[i], arr, i), doc, opts, filters))
  }

  function PageChunks(text: Str, bs: seq<Boundary>, arr: PageArrays, doc: DocInfo, opts: Options, filters: seq<Str>): seq<Chunk> {
    Renumber(Somes(PageCandidates(text, bs, arr, doc, opts, filters)))
  }

  /** The chunk made of page `b`, numbered `k`. */
  predicate IsPageChunk(c: Chunk, k: int, text: Str, b: Boundary, info: PageInfo, doc: DocInfo) {
    && c.text == Slice(text, b.start, b.end)
    && c.pageNumber == b.pageNum
    && c.charStart == Some(b.start) && c.charEnd == Some(b.end)
    && c.charCount == b.end - b.start
    && c.language == info.language && c.hasTable == info.hasTable && c.hasDiagram == info.hasDiagram
    && c.sourceFile == doc.sourceFile && c.sourceFullPath == doc.sourceFullPath && c.totalPages == doc.totalPages && c.version == doc.version
    && c.paragraphIndex.None? && c.chunkSize.None? && c.chunkOverlap.None?
    && c.chunkIndex == k
  }

  /** The chunk of a page is its own slice and attributes. */
  lemma PageChunkIs(text: Str, b: Boundary, info: PageInfo, doc: DocInfo, k: int)
    requires info.pageNum == b.pageNum
    ensures IsPageChunk(PageChunk(text, b, info, doc).(chunkIndex := k), k, text, b, info, doc)
  {
  }

  /** A page that yields a chunk yields its own chunk, admitted. */
  lemma PageCandidateChunk(text: Str, b: Boundary, info: PageInfo, doc: DocInfo, opts: Options, filters: seq<Str>)
    requires PageCandidate(text, b, info, doc, opts, filters).Some?
    ensures PageCandidate(text, b, info, doc, opts, filters) == Some(PageChunk(text, b, info, doc))
    ensures PageChunk(text, b, info, doc).strategy == Page
    ensures Admitted(PageChunk(text, b, info, doc), opts, filters)
  {
  }

  /** Page chunking: at most one chunk per page, numbered from 0, each
      admitted by the filters and the minimum length. */
  lemma PageChunksWellFormed(text: Str, bs: seq<Boundary>, arr: PageArrays, doc: DocInfo, opts: Options, filters: seq<Str>)
    ensures var r := PageChunks(text, bs, arr, doc, opts, filters);
      |r| <= |bs| && WellFormed(r, opts, filters, Page)
  {
    var cs := PageCandidates(text, bs, arr, doc, opts, filters);
    forall i | 0 <= i < |cs| && cs[i].Some?
      ensures cs[i].value.strategy == Page && Admitted(cs[i].value, opts, filters)
    {
      PageCandidateChunk(text, bs[i], PageInfoAt(bs[i], arr, i), doc, opts, filters);
    }
    RenumberWellFormed(cs, opts, filters, Page);
  }

  /** Chunk `k` is the slice of page `src[k]`, pages in increasing order. */
  lemma PageChunksOrigin(text: Str, bs: seq<Boundary>, arr: PageArrays, doc: DocInfo, opts: Options, filters: seq<Str>)
    ensures var r := PageChunks(text, bs, arr, doc, opts, filters);
      var src := Positions(PageCandidates(text, bs, arr, doc, opts, filters));
      forall k :: 0 <= k < |r| ==>
        k < |src| && src[k] < |bs| && IsPageChunk(r[k], k, text, bs[src[k]], PageInfoAt(bs[src[k]], arr, src[k]), doc)
  {
    var cs := PageCandidates(text, bs, arr, doc, opts, filters);
    var src := Positions(cs);
    forall k | 0 <= k < |src|
      ensures IsPageChunk(Renumber(Somes(cs))[k], k, text, bs[src[k]], PageInfoAt(bs[src[k]], arr, src[k]), doc)
    {
      assert cs[src[k]] == Some(Somes(cs)[k]);
      PageCandidateChunk(text, bs[src[k]], PageInfoAt(bs[src[k]], arr, src[k]), doc, opts, filters);
      PageChunkIs(text, bs[src[k]], PageInfoAt(bs[src[k]], arr, src[k]), doc, k);
    }
  }

  /** A page yields a chunk exactly when it passes the filters and its
      slice is at least the minimum length. */
  lemma PageChunksKept(text: Str, bs: seq<Boundary>, arr: PageArrays, doc: DocInfo, opts: Options, filters: seq<Str>)
    ensures var src := Positions(PageCandidates(text, bs, arr, doc, opts, filters));
      forall i :: 0 <= i < |bs| ==>
        (i in src <==> !Excluded(filters, opts, PageInfoAt(bs[i], arr, i)) && |Slice(text, bs[i].start, bs[i].end)| >= opts.minChars)
  {
    var cs := PageCandidates(text, bs, arr, doc, opts, filters);
    var src := Positions(cs);
    forall i | 0 <= i < |bs| && i in src ensures cs[i].Some? {
      var k :| 0 <= k < |src| && src[k] == i;
    }
  }

  /** `_chunk_by_page`. */
  method ChunkByPage(text: Str, bs: seq<Boundary>, arr: PageArrays, doc: DocInfo, opts: Options) returns (chunks: seq<Chunk>)
    ensures chunks == PageChunks(text, bs, arr, doc, opts, ParseLanguageFilter(opts.languageFilter))
  {
    var filters := ParseLanguageFilter(opts.languageFilter);
    ghost var cs := PageCandidates(text, bs, arr, doc, opts, filters);
    chunks := [];
    for i := 0 to |bs|
      invariant chunks == Renumber(Somes(cs[..i]))
    {
      var b := bs[i];
      var info := PageInfoAt(b, arr, i);
      var pageText := Slice(text, b.start, b.end);
      KeepStep(cs, i, chunks);
      if (|filters| > 0 && info.language !in filters)
        || (!opts.includeTables && info.hasTable)
        || (!opts.includeDiagrams && info.hasDiagram)
        || |pageText| < opts.minChars
      {
        assert cs[i].None?;
      } else {
        var c := PageChunk(text, b, info, doc);
        assert cs[i] == Some(c);
        chunks := chunks + [c.(chunkIndex := |chunks|)];
      }
    }
    assert cs[..|bs|] == cs;
  }

  // ---- semantic strategy ----------------------------------------------

  /** A piece, stripped; none when it is blank. */
  function ParagraphOf(piece: Str): (r: Option<Str>)
    ensures r.Some? ==> r.value != [] && Trimmed(r.value)
    ensures r.Some? <==> !IsBlank(piece)
  {
    var p := Strip(piece);
    if p == [] then None else Some(p)
  }

  function ParagraphCandidates(pieces: seq<Str>): (r: seq<Option<Str>>)
    ensures |r| == |pieces|
  {
    seq(|pieces|, k requires 0 <= k < |pieces| => ParagraphOf(pieces[k]))
  }

  /** The stripped non-blank pieces, in order. */
  function StrippedPieces(pieces: seq<Str>): seq<Str> {
    Somes(ParagraphCandidates(pieces))
  }

  /** The paragraphs of a page: its pieces between blank-line separators,
      stripped, blanks dropped; the whole page when none is left. */
  function Paragraphs(pageText: Str): (r: seq<Str>)
    ensures |r| >= 1
  {
    var ps := StrippedPieces(Split(pageText, "\n\n"));
    if ps == [] then [pageText] else ps
  }

  /** The fallback to the whole page happens exactly when the page is
      blank; otherwise every paragraph is non-empty and has no whitespace
      at either end. */
  lemma ParagraphsSpec(pageText: Str)
    ensures var r := Paragraphs(pageText);
      && (IsBlank(pageText) <==> StrippedPieces(Split(pageText, "\n\n")) == [])
      && (IsBlank(pageText) ==> r == [pageText])
      && (!IsBlank(pageText) ==> forall j :: 0 <= j < |r| ==> r[j] != [] && Trimmed(r[j]))
  {
    assert IsBlank("\n\n");
    StrippedPiecesOfSplit(pageText, "\n\n");
  }

  /** Splitting on a blank separator leaves no paragraph exactly when the
      text is blank, and every paragraph left is non-empty and trimmed. */
  lemma StrippedPiecesOfSplit(text: Str, sep: Str)
    requires |sep| > 0 && IsBlank(sep)
    ensures IsBlank(text) <==> StrippedPieces(Split(text, sep)) == []
    ensures forall j :: 0 <= j < |StrippedPieces(Split(text, sep))| ==>
      StrippedPieces(Split(text, sep))[j] != [] && Trimmed(StrippedPieces(Split(text, sep))[j])
  {
    var pieces := Split(text, sep);
    if IsBlank(text) {
      PartsOfBlankAreBlank(sep, pieces);
      NoParagraphsOfBlankPieces(pieces);
    } else if StrippedPieces(pieces) == [] {
      BlankPiecesOfNoParagraphs(pieces);
      JoinOfBlankIsBlank(sep, pieces);
    }
    StrippedPiecesTrimmed(pieces);
  }

  lemma NoParagraphsOfBlankPieces(pieces: seq<Str>)
    requires forall k :: 0 <= k < |pieces| ==> IsBlank(pieces[k])
    ensures StrippedPieces(pieces) == []
  {
    var cs := ParagraphCandidates(pieces);
    assert forall i :: 0 <= i < |cs| ==> cs[i].None?;
    SomesNone(cs);
  }

  lemma BlankPiecesOfNoParagraphs(pieces: seq<Str>)
    requires StrippedPieces(pieces) == []
    ensures forall k :: 0 <= k < |pieces| ==> IsBlank(pieces[k])
  {
    var cs := ParagraphCandidates(pieces);
    var pos := Positions(cs);
    forall k | 0 <= k < |pieces| ensures IsBlank(pieces[k]) {
      assert k !in pos;
      assert cs[k] == ParagraphOf(pieces[k]);
    }
  }

  lemma StrippedPiecesTrimmed(pieces: seq<Str>)
    ensures forall j :: 0 <= j < |StrippedPieces(pieces)| ==>
      StrippedPieces(pieces)[j] != [] && Trimmed(StrippedPieces(pieces)[j])
  {
    var cs := ParagraphCandidates(pieces);
    var pos := Positions(cs);
    forall j | 0 <= j < |Somes(cs)| ensures Somes(cs)[j] != [] && Trimmed(Somes(cs)[j]) {
      assert cs[pos[j]] == Some(Somes(cs)[j]);
    }
  }

  lemma {:induction false} JoinOfBlankIsBlank(sep: Str, parts: seq<Str>)
    requires IsBlank(sep)
    requires forall k :: 0 <= k < |parts| ==> IsBlank(parts[k])
    ensures IsBlank(Join(sep, parts))
    decreases |parts|
  {
    if |parts| > 1 {
      JoinOfBlankIsBlank(sep, parts[1..]);
      var rest := Join(sep, parts[1..]);
      var s := parts[0] + sep + rest;
      forall i | 0 <= i < |s| ensures IsSpace(s[i]) {
        if i < |parts[0]| {
          assert s[i] == parts[0][i];
        } else if i < |parts[0]| + |sep| {
          assert s[i] == sep[i - |parts[0]|];
        } else {
          assert s[i] == rest[i - |parts[0]| - |sep|];
        }
      }
    }
  }

  /** Paragraph `j` of a page: skipped when shorter than the minimum. */
  function ParagraphCandidate(p: Str, j: nat, info: PageInfo, doc: DocInfo, opts: Options): Option<Chunk> {
    if |p| < opts.minChars then None
    else Some(ParagraphChunk(p, j, info, doc))
  }

  /** The chunk of paragraph `j`, text `p`, of a page. */
  function ParagraphChunk(p: Str, j: nat, info: PageInfo, doc: DocInfo): Chunk {
    MakeChunk(p, doc, info, |p|, Semantic).(paragraphIndex := Some(j))
  }

  /** The candidates of one page: none when the page is excluded. */
  function SemanticPageCandidates(text: Str, b: Boundary, info: PageInfo, doc: DocInfo, opts: Options, filters: seq<Str>): seq<Option<Chunk>> {
    if Excluded(filters, opts, info) then []
    else ParagraphChunkCandidates(Paragraphs(Slice(text, b.start, b.end)), info, doc, opts)
  }

  /** The candidates of the paragraphs of one page, in order. */
  function ParagraphChunkCandidates(paras: seq<Str>, info: PageInfo, doc: DocInfo, opts: Options): (r: seq<Option<Chunk>>)
    ensures |r| == |paras|
  {
    seq(|paras|, j requires 0 <= j < |paras| => ParagraphCandidate(paras[j], j, info, doc, opts))
  }

  /** The candidates of all pages, page after page. */
  function SemanticCandidates(text: Str, bs: seq<Boundary>, arr: PageArrays, doc: DocInfo, opts: Options, filters: seq<Str>): seq<Option<Chunk>>
    decreases |bs|
  {
    if bs == [] then []
    else
      var n := |bs| - 1;
      SemanticCandidates(text, bs[..n], arr, doc, opts, filters)
        + SemanticPageCandidates(text, bs[n], PageInfoAt(bs[n], arr, n), doc, opts, filters)
  }

  function SemanticChunks(text: Str, bs: seq<Boundary>, arr: PageArrays, doc: DocInfo, opts: Options, filters: seq<Str>): seq<Chunk> {
    Renumber(Somes(SemanticCandidates(text, bs, arr, doc, opts, filters)))
  }

  /** `c` is paragraph `c.paragraphIndex` of page `b`, which passed the filters. */
  predicate IsParagraphChunk(c: Chunk, text: Str, b: Boundary, info: PageInfo, doc: DocInfo, opts: Options, filters: seq<Str>) {
    var paras := Paragraphs(Slice(text, b.start, b.end));
    && !Excluded(filters, opts, info)
    && c.paragraphIndex.Some? && 0 <= c.paragraphIndex.value < |paras|
    && c.text == paras[c.paragraphIndex.value]
    && c.charCount == |c.text|
    && c.pageNumber == b.pageNum
    && c.language == info.language && c.hasTable == info.hasTable && c.hasDiagram == info.hasDiagram
    && c.sourceFile == doc.sourceFile && c.sourceFullPath == doc.sourceFullPath && c.totalPages == doc.totalPages && c.version == doc.version
    && c.charStart.None? && c.charEnd.None? && c.chunkSize.None? && c.chunkOverlap.None?
  }

  /** A paragraph candidate of a page that yields a chunk: an admitted
      semantic chunk holding that paragraph. */
  lemma PageParagraphChunk(text: Str, b: Boundary, info: PageInfo, doc: DocInfo, opts: Options, filters: seq<Str>, j: int)
    requires info.pageNum == b.pageNum
    requires 0 <= j < |SemanticPageCandidates(text, b, info, doc, opts, filters)|
    requires SemanticPageCandidates(text, b, info, doc, opts, filters)[j].Some?
    ensures var c := SemanticPageCandidates(text, b, info, doc, opts, filters)[j].value;
      c.strategy == Semantic && Admitted(c, opts, filters) && IsParagraphChunk(c, text, b, info, doc, opts, filters)
  {
    var paras := Paragraphs(Slice(text, b.start, b.end));
    assert !Excluded(filters, opts, info);
    assert SemanticPageCandidates(text, b, info, doc, opts, filters)[j] == ParagraphCandidate(paras[j], j, info, doc, opts);
  }

  /** The candidates of the first `i + 1` pages are those of the first `i`
      followed by those of page `i`. */
  lemma SemanticCandidatesStep(text: Str, bs: seq<Boundary>, arr: PageArrays, doc: DocInfo, opts: Options, filters: seq<Str>, i: int)
    requires 0 <= i < |bs|
    ensures SemanticCandidates(text, bs[..i + 1], arr, doc, opts, filters) ==
      SemanticCandidates(text, bs[..i], arr, doc, opts, filters)
        + SemanticPageCandidates(text, bs[i], PageInfoAt(bs[i], arr, i), doc, opts, filters)
  {
    assert bs[..i + 1][..i] == bs[..i];
  }

  /** Every candidate chunk is a paragraph of some page of the document,
      admitted by the filters and the minimum length. */
  lemma {:induction false} SemanticCandidateOrigin(text: Str, bs: seq<Boundary>, arr: PageArrays, doc: DocInfo, opts: Options, filters: seq<Str>, c: Chunk)
    requires Some(c) in SemanticCandidates(text, bs, arr, doc, opts, filters)
    ensures c.strategy == Semantic && Admitted(c, opts, filters)
    ensures exists i :: 0 <= i < |bs| && IsParagraphChunk(c, text, bs[i], PageInfoAt(bs[i], arr, i), doc, opts, filters)
    decreases |bs|
  {
    var n := |bs| - 1;
    SemanticCandidatesStep(text, bs, arr, doc, opts, filters, n);
    assert bs[..n + 1] == bs;
    if Some(c) in SemanticCandidates(text, bs[..n], arr, doc, opts, filters) {
      SemanticCandidateOrigin(text, bs[..n], arr, doc, opts, filters, c);
      ExistsParagraphOfPrefix(text, bs, n, arr, doc, opts, filters, c);
    } else {
      var page := SemanticPageCandidates(text, bs[n], PageInfoAt(bs[n], arr, n), doc, opts, filters);
      var j :| 0 <= j < |page| && page[j] == Some(c);
      PageParagraphChunk(text, bs[n], PageInfoAt(bs[n], arr, n), doc, opts, filters, j);
    }
  }

  /** A paragraph of one of the first `n` pages is a paragraph of a page. */
  lemma ExistsParagraphOfPrefix(text: Str, bs: seq<Boundary>, n: int, arr: PageArrays, doc: DocInfo, opts: Options, filters: seq<Str>, c: Chunk)
    requires 0 <= n <= |bs|
    requires exists i :: 0 <= i < n && IsParagraphChunk(c, text, bs[..n][i], PageInfoAt(bs[..n][i], arr, i), doc, opts, filters)
    ensures exists i :: 0 <= i < |bs| && IsParagraphChunk(c, text, bs[i], PageInfoAt(bs[i], arr, i), doc, opts, filters)
  {
    var i :| 0 <= i < n && IsParagraphChunk(c, text, bs[..n][i], PageInfoAt(bs[..n][i], arr, i), doc, opts, filters);
    assert bs[..n][i] == bs[i];
  }

  /** Semantic chunking: every chunk is one paragraph (at least the minimum
      length) of a page that passed the filters, and chunks are numbered
      from 0 in order. */
  lemma SemanticChunksSpec(text: Str, bs: seq<Boundary>, arr: PageArrays, doc: DocInfo, opts: Options, filters: seq<Str>)
    ensures var r := SemanticChunks(text, bs, arr, doc, opts, filters);
      && WellFormed(r, opts, filters, Semantic)
      && forall k :: 0 <= k < |r| ==>
           exists i :: 0 <= i < |bs| && IsParagraphChunk(r[k], text, bs[i], PageInfoAt(bs[i], arr, i), doc, opts, filters)
  {
    var cs := SemanticCandidates(text, bs, arr, doc, opts, filters);
    var p := Positions(cs);
    forall i | 0 <= i < |cs| && cs[i].Some?
      ensures cs[i].value.strategy == Semantic && Admitted(cs[i].value, opts, filters)
    {
      SemanticCandidateOrigin(text, bs, arr, doc, opts, filters, cs[i].value);
    }
    RenumberWellFormed(cs, opts, filters, Semantic);
    forall k | 0 <= k < |Somes(cs)|
      ensures exists i :: 0 <= i < |bs| && IsParagraphChunk(Renumber(Somes(cs))[k], text, bs[i], PageInfoAt(bs[i], arr, i), doc, opts, filters)
    {
      assert cs[p[k]] == Some(Somes(cs)[k]);
      SemanticCandidateOrigin(text, bs, arr, doc, opts, filters, Somes(cs)[k]);
      var i :| 0 <= i < |bs| && IsParagraphChunk(Somes(cs)[k], text, bs[i], PageInfoAt(bs[i], arr, i), doc, opts, filters);
      assert IsParagraphChunk(Renumber(Somes(cs))[k], text, bs[i], PageInfoAt(bs[i], arr, i), doc, opts, filters);
    }
  }

  /** Paragraph `para` of page `page` of a document. */
  datatype ParaRef = ParaRef(page: nat, para: nat)

  /** `r` comes strictly before `q`: on an earlier page, or earlier on the
      same page. */
  predicate Precedes(r: ParaRef, q: ParaRef) {
    r.page < q.page || (r.page == q.page && r.para < q.para)
  }

  /** `ref` names an existing paragraph of a page that passed the filters. */
  predicate ValidRef(ref: ParaRef, text: Str, bs: seq<Boundary>, arr: PageArrays, opts: Options, filters: seq<Str>) {
    && ref.page < |bs|
    && !Excluded(filters, opts, PageInfoAt(bs[ref.page], arr, ref.page))
    && ref.para < |Paragraphs(Slice(text, bs[ref.page].start, bs[ref.page].end))|
  }

  /** The text of the paragraph `ref` names. */
  function RefText(ref: ParaRef, text: Str, bs: seq<Boundary>): Str
    requires ref.page < |bs| && ref.para < |Paragraphs(Slice(text, bs[ref.page].start, bs[ref.page].end))|
  {
    Paragraphs(Slice(text, bs[ref.page].start, bs[ref.page].end))[ref.para]
  }

  /** The chunk of the paragraph `ref` names. */
  function RefChunk(ref: ParaRef, text: Str, bs: seq<Boundary>, arr: PageArrays, doc: DocInfo): Chunk
    requires ref.page < |bs| && ref.para < |Paragraphs(Slice(text, bs[ref.page].start, bs[ref.page].end))|
  {
    ParagraphChunk(RefText(ref, text, bs), ref.para, PageInfoAt(bs[ref.page], arr, ref.page), doc)
  }

  /** How many paragraphs the loops visit on a page: none when it is
      excluded, else all of them. */
  function PageCount(text: Str, b: Boundary, info: PageInfo, opts: Options, filters: seq<Str>): nat {
    if Excluded(filters, opts, info) then 0 else |Paragraphs(Slice(text, b.start, b.end))|
  }

  function PageCounts(text: Str, bs: seq<Boundary>, arr: PageArrays, opts: Options, filters: seq<Str>): (r: seq<nat>)
    ensures |r| == |bs|
  {
    seq(|bs|, i requires 0 <= i < |bs| => PageCount(text, bs[i], PageInfoAt(bs[i], arr, i), opts, filters))
  }

  /** Page `i` holds `counts[i]` items: the references to all of them,
      page after page. */
  function RefsOf(counts: seq<nat>): seq<ParaRef>
    decreases |counts|
  {
    if counts == [] then []
    else
      var n := |counts| - 1;
      RefsOf(counts[..n]) + seq(counts[n], j requires 0 <= j => ParaRef(n, j))
  }

  predicate InCounts(ref: ParaRef, counts: seq<nat>) {
    ref.page < |counts| && ref.para < counts[ref.page]
  }

  /** The paragraphs the semantic loops visit, page after page. */
  function ParagraphRefs(text: Str, bs: seq<Boundary>, arr: PageArrays, opts: Options, filters: seq<Str>): seq<ParaRef> {
    RefsOf(PageCounts(text, bs, arr, opts, filters))
  }

  /** The references are exactly the items the counts allow. */
  lemma {:induction false} RefsOfSpec(counts: seq<nat>)
    ensures forall t :: 0 <= t < |RefsOf(counts)| ==> InCounts(RefsOf(counts)[t], counts)
    ensures forall ref :: InCounts(ref, counts) ==> ref in RefsOf(counts)
    decreases |counts|
  {
    if counts != [] {
      var n := |counts| - 1;
      var init, page := RefsOf(counts[..n]), seq(counts[n], j requires 0 <= j => ParaRef(n, j));
      RefsOfSpec(counts[..n]);
      forall t | 0 <= t < |init + page| ensures InCounts((init + page)[t], counts) {
        if t < |init| {
          assert (init + page)[t] == init[t] && InCounts(init[t], counts[..n]);
        } else {
          assert (init + page)[t] == page[t - |init|];
        }
      }
      forall ref | InCounts(ref, counts) ensures ref in init + page {
        if ref.page < n {
          assert InCounts(ref, counts[..n]);
        } else {
          assert page[ref.para] == ref;
        }
      }
    }
  }

  /** The references come page after page, and in order on a page. */
  lemma {:induction false} RefsOfOrdered(counts: seq<nat>)
    ensures forall t, u :: 0 <= t < u < |RefsOf(counts)| ==> Precedes(RefsOf(counts)[t], RefsOf(counts)[u])
    decreases |counts|
  {
    if counts != [] {
      var n := |counts| - 1;
      var init, page := RefsOf(counts[..n]), seq(counts[n], j requires 0 <= j => ParaRef(n, j));
      RefsOfOrdered(counts[..n]);
      RefsOfSpec(counts[..n]);
      var refs := init + page;
      forall t, u | 0 <= t < u < |refs| ensures Precedes(refs[t], refs[u]) {
        if u < |init| {
          assert refs[t] == init[t] && refs[u] == init[u];
        } else if t < |init| {
          assert refs[t] == init[t] && refs[u] == page[u - |init|];
          assert InCounts(init[t], counts[..n]);
        } else {
          assert refs[t] == page[t - |init|] && refs[u] == page[u - |init|];
        }
      }
    }
  }

  /** A reference is valid exactly when the page counts allow it. */
  lemma ValidRefCounts(ref: ParaRef, text: Str, bs: seq<Boundary>, arr: PageArrays, opts: Options, filters: seq<Str>)
    ensures ValidRef(ref, text, bs, arr, opts, filters) <==> InCounts(ref, PageCounts(text, bs, arr, opts, filters))
  {
  }

  /** The semantic loops visit every paragraph of every page that passes
      the filters, and nothing else, in page order and then paragraph
      order. */
  lemma ParagraphRefsSpec(text: Str, bs: seq<Boundary>, arr: PageArrays, opts: Options, filters: seq<Str>)
    ensures var refs := ParagraphRefs(text, bs, arr, opts, filters);
      && (forall t :: 0 <= t < |refs| ==> ValidRef(refs[t], text, bs, arr, opts, filters))
      && (forall ref :: ValidRef(ref, text, bs, arr, opts, filters) ==> ref in refs)
      && (forall t, u :: 0 <= t < u < |refs| ==> Precedes(refs[t], refs[u]))
  {
    var counts := PageCounts(text, bs, arr, opts, filters);
    RefsOfSpec(counts);
    RefsOfOrdered(counts);
    forall ref ensures ValidRef(ref, text, bs, arr, opts, filters) <==> InCounts(ref, counts) {
      ValidRefCounts(ref, text, bs, arr, opts, filters);
    }
  }

  /** A reference into the first `n` pages means the same in the whole list. */
  lemma ValidRefPrefix(ref: ParaRef, text: Str, bs: seq<Boundary>, n: int, arr: PageArrays, doc: DocInfo, opts: Options, filters: seq<Str>)
    requires 0 <= n <= |bs| && ref.page < n
    ensures ValidRef(ref, text, bs[..n], arr, opts, filters) <==> ValidRef(ref, text, bs, arr, opts, filters)
    ensures ValidRef(ref, text, bs, arr, opts, filters) ==>
      RefText(ref, text, bs[..n]) == RefText(ref, text, bs) && RefChunk(ref, text, bs[..n], arr, doc) == RefChunk(ref, text, bs, arr, doc)
  {
    assert bs[..n][ref.page] == bs[ref.page];
  }

  /** The visited paragraphs of all pages: those of the first pages, then
      those of the last one. */
  lemma ParagraphRefsStep(text: Str, bs: seq<Boundary>, arr: PageArrays, opts: Options, filters: seq<Str>)
    requires bs != []
    ensures var n := |bs| - 1;
      ParagraphRefs(text, bs, arr, opts, filters) ==
        ParagraphRefs(text, bs[..n], arr, opts, filters)
          + seq(PageCount(text, bs[n], PageInfoAt(bs[n], arr, n), opts, filters), j requires 0 <= j => ParaRef(n, j))
  {
    var n := |bs| - 1;
    assert PageCounts(text, bs, arr, opts, filters)[..n] == PageCounts(text, bs[..n], arr, opts, filters);
  }

  /** Candidate `j` of a page is that of its paragraph `j`, when the page
      passed the filters. */
  lemma PageCandidatesAt(text: Str, b: Boundary, info: PageInfo, doc: DocInfo, opts: Options, filters: seq<Str>)
    ensures var cpage := SemanticPageCandidates(text, b, info, doc, opts, filters);
      var paras := Paragraphs(Slice(text, b.start, b.end));
      && |cpage| == PageCount(text, b, info, opts, filters)
      && forall j :: 0 <= j < |cpage| ==>
           j < |paras| && cpage[j] == if |paras[j]| < opts.minChars then None else Some(ParagraphChunk(paras[j], j, info, doc))
  {
  }

  /** Candidate `j` of the last page is that of its `j`-th visited
      paragraph. */
  lemma LastPageAt(text: Str, bs: seq<Boundary>, arr: PageArrays, doc: DocInfo, opts: Options, filters: seq<Str>, j: nat)
    requires bs != []
    requires j < PageCount(text, bs[|bs| - 1], PageInfoAt(bs[|bs| - 1], arr, |bs| - 1), opts, filters)
    ensures ValidRef(ParaRef(|bs| - 1, j), text, bs, arr, opts, filters)
    ensures j < |SemanticPageCandidates(text, bs[|bs| - 1], PageInfoAt(bs[|bs| - 1], arr, |bs| - 1), doc, opts, filters)|
    ensures SemanticPageCandidates(text, bs[|bs| - 1], PageInfoAt(bs[|bs| - 1], arr, |bs| - 1), doc, opts, filters)[j]
      == RefCandidate(ParaRef(|bs| - 1, j), text, bs, arr, doc, opts)
  {
    var n := |bs| - 1;
    PageCandidatesAt(text, bs[n], PageInfoAt(bs[n], arr, n), doc, opts, filters);
  }

  /** The candidate of the paragraph `ref` names, when it names one. */
  function RefCandidate(ref: ParaRef, text: Str, bs: seq<Boundary>, arr: PageArrays, doc: DocInfo, opts: Options): Option<Chunk> {
    if ref.page < |bs| && ref.para < |Paragraphs(Slice(text, bs[ref.page].start, bs[ref.page].end))| then
      ParagraphCandidate(RefText(ref, text, bs), ref.para, PageInfoAt(bs[ref.page], arr, ref.page), doc, opts)
    else None
  }

  /** A present candidate holds the chunk of its paragraph. */
  lemma RefCandidateChunk(ref: ParaRef, text: Str, bs: seq<Boundary>, arr: PageArrays, doc: DocInfo, opts: Options, filters: seq<Str>, c: Chunk)
    requires ValidRef(ref, text, bs, arr, opts, filters) && RefCandidate(ref, text, bs, arr, doc, opts) == Some(c)
    ensures c == RefChunk(ref, text, bs, arr, doc)
  {
  }

  /** Candidate `t` is that of the paragraph `refs[t]` names. */
  predicate Aligned(cs: seq<Option<Chunk>>, refs: seq<ParaRef>, text: Str, bs: seq<Boundary>, arr: PageArrays, doc: DocInfo, opts: Options, filters: seq<Str>) {
    && |cs| == |refs|
    && forall t :: 0 <= t < |refs| ==>
         ValidRef(refs[t], text, bs, arr, opts, filters) && cs[t] == RefCandidate(refs[t], text, bs, arr, doc, opts)
  }

  lemma AlignedAppend(cs: seq<Option<Chunk>>, refs: seq<ParaRef>, cs': seq<Option<Chunk>>, refs': seq<ParaRef>,
                      text: Str, bs: seq<Boundary>, arr: PageArrays, doc: DocInfo, opts: Options, filters: seq<Str>)
    requires Aligned(cs, refs, text, bs, arr, doc, opts, filters)
    requires Aligned(cs', refs', text, bs, arr, doc, opts, filters)
    ensures Aligned(cs + cs', refs + refs', text, bs, arr, doc, opts, filters)
  {
    PointwiseAppend(refs, cs, refs', cs', r => RefCandidate(r, text, bs, arr, doc, opts), r => ValidRef(r, text, bs, arr, opts, filters));
  }

  /** What is aligned for the first `n` pages is aligned for all of them. */
  lemma AlignedPrefix(cs: seq<Option<Chunk>>, refs: seq<ParaRef>, text: Str, bs: seq<Boundary>, n: int,
                      arr: PageArrays, doc: DocInfo, opts: Options, filters: seq<Str>)
    requires 0 <= n <= |bs|
    requires Aligned(cs, refs, text, bs[..n], arr, doc, opts, filters)
    ensures Aligned(cs, refs, text, bs, arr, doc, opts, filters)
  {
    forall t | 0 <= t < |refs|
      ensures ValidRef(refs[t], text, bs, arr, opts, filters)
      ensures cs[t] == RefCandidate(refs[t], text, bs, arr, doc, opts)
    {
      ValidRefPrefix(refs[t], text, bs, n, arr, doc, opts, filters);
    }
  }

  /** The candidates of the last page are aligned with its paragraphs. */
  lemma LastPageAligned(text: Str, bs: seq<Boundary>, arr: PageArrays, doc: DocInfo, opts: Options, filters: seq<Str>)
    requires bs != []
    ensures var n := |bs| - 1;
      var info := PageInfoAt(bs[n], arr, n);
      Aligned(SemanticPageCandidates(text, bs[n], info, doc, opts, filters),
              seq(PageCount(text, bs[n], info, opts, filters), j requires 0 <= j => ParaRef(n, j)),
              text, bs, arr, doc, opts, filters)
  {
    var n := |bs| - 1;
    var info := PageInfoAt(bs[n], arr, n);
    var page := seq(PageCount(text, bs[n], info, opts, filters), j requires 0 <= j => ParaRef(n, j));
    var cpage := SemanticPageCandidates(text, bs[n], info, doc, opts, filters);
    PageCandidatesAt(text, bs[n], info, doc, opts, filters);
    forall j | 0 <= j < |page|
      ensures ValidRef(page[j], text, bs, arr, opts, filters)
      ensures cpage[j] == RefCandidate(page[j], text, bs, arr, doc, opts)
    {
      LastPageAt(text, bs, arr, doc, opts, filters, j);
    }
  }

  /** Candidate `t` of the semantic loops is that of the `t`-th visited
      paragraph. */
  lemma {:induction false} SemanticCandidatesAt(text: Str, bs: seq<Boundary>, arr: PageArrays, doc: DocInfo, opts: Options, filters: seq<Str>)
    ensures Aligned(SemanticCandidates(text, bs, arr, doc, opts, filters), ParagraphRefs(text, bs, arr, opts, filters),
                    text, bs, arr, doc, opts, filters)
    decreases |bs|
  {
    if bs != [] {
      var n := |bs| - 1;
      var info := PageInfoAt(bs[n], arr, n);
      var init := ParagraphRefs(text, bs[..n], arr, opts, filters);
      var cinit := SemanticCandidates(text, bs[..n], arr, doc, opts, filters);
      ParagraphRefsStep(text, bs, arr, opts, filters);
      SemanticCandidatesAt(text, bs[..n], arr, doc, opts, filters);
      AlignedPrefix(cinit, init, text, bs, n, arr, doc, opts, filters);
      LastPageAligned(text, bs, arr, doc, opts, filters);
      AlignedAppend(cinit, init, SemanticPageCandidates(text, bs[n], info, doc, opts, filters),
                    seq(PageCount(text, bs[n], info, opts, filters), j requires 0 <= j => ParaRef(n, j)),
                    text, bs, arr, doc, opts, filters);
    }
  }

  /** Paragraph `j` of a page that passed the filters yields a chunk
      exactly when it is at least the minimum length. */
  lemma SemanticChunksKept(text: Str, bs: seq<Boundary>, arr: PageArrays, doc: DocInfo, opts: Options, filters: seq<Str>)
    ensures var refs := ParagraphRefs(text, bs, arr, opts, filters);
      var src := Positions(SemanticCandidates(text, bs, arr, doc, opts, filters));
      forall t :: 0 <= t < |refs| ==>
        && ValidRef(refs[t], text, bs, arr, opts, filters)
        && (t in src <==> |RefText(refs[t], text, bs)| >= opts.minChars)
  {
    var refs := ParagraphRefs(text, bs, arr, opts, filters);
    var cs := SemanticCandidates(text, bs, arr, doc, opts, filters);
    SemanticCandidatesAt(text, bs, arr, doc, opts, filters);
    PositionsMember(cs);
    forall t | 0 <= t < |refs|
      ensures ValidRef(refs[t], text, bs, arr, opts, filters)
      ensures cs[t].Some? <==> |RefText(refs[t], text, bs)| >= opts.minChars
    {
      assert cs[t] == RefCandidate(refs[t], text, bs, arr, doc, opts);
    }
  }

  /** Semantic chunk `k` is the `k`-th kept paragraph, in the order the
      loops visit them, numbered `k`. */
  lemma SemanticChunksOrigin(text: Str, bs: seq<Boundary>, arr: PageArrays, doc: DocInfo, opts: Options, filters: seq<Str>)
    ensures var r := SemanticChunks(text, bs, arr, doc, opts, filters);
      var refs := ParagraphRefs(text, bs, arr, opts, filters);
      var src := Positions(SemanticCandidates(text, bs, arr, doc, opts, filters));
      && |r| == |src|
      && forall k :: 0 <= k < |r| ==>
           && src[k] < |refs| && ValidRef(refs[src[k]], text, bs, arr, opts, filters)
           && r[k] == RefChunk(refs[src[k]], text, bs, arr, doc).(chunkIndex := k)
  {
    var cs := SemanticCandidates(text, bs, arr, doc, opts, filters);
    var src := Positions(cs);
    var refs := ParagraphRefs(text, bs, arr, opts, filters);
    SemanticCandidatesAt(text, bs, arr, doc, opts, filters);
    forall k | 0 <= k < |src|
      ensures src[k] < |refs| && ValidRef(refs[src[k]], text, bs, arr, opts, filters)
      ensures Renumber(Somes(cs))[k] == RefChunk(refs[src[k]], text, bs, arr, doc).(chunkIndex := k)
    {
      var t := src[k];
      assert ValidRef(refs[t], text, bs, arr, opts, filters) && cs[t] == RefCandidate(refs[t], text, bs, arr, doc, opts);
      RefCandidateChunk(refs[t], text, bs, arr, doc, opts, filters, Somes(cs)[k]);
    }
  }

  /** `_chunk_semantic`. */
  method ChunkSemantic(text: Str, bs: seq<Boundary>, arr: PageArrays, doc: DocInfo, opts: Options) returns (chunks: seq<Chunk>)
    ensures chunks == SemanticChunks(text, bs, arr, doc, opts, ParseLanguageFilter(opts.languageFilter))
  {
    var filters := ParseLanguageFilter(opts.languageFilter);
    chunks := [];
    for i := 0 to |bs|
      invariant chunks == Renumber(Somes(SemanticCandidates(text, bs[..i], arr, doc, opts, filters)))
    {
      var b := bs[i];
      var info := PageInfoAt(b, arr, i);
      ghost var before := SemanticCandidates(text, bs[..i], arr, doc, opts, filters);
      SemanticCandidatesStep(text, bs, arr, doc, opts, filters, i);
      if (|filters| > 0 && info.language !in filters)
        || (!opts.includeTables && info.hasTable)
        || (!opts.includeDiagrams && info.hasDiagram)
      {
        assert before + [] == before;
        continue;
      }
      var paragraphs := Paragraphs(Slice(text, b.start, b.end));
      chunks := AppendParagraphs(chunks, paragraphs, info, doc, opts, before);
    }
    assert bs[..|bs|] == bs;
  }

  /** The paragraph loop of `_chunk_semantic`: append the chunk of each
      paragraph that is at least the minimum length. */
  method AppendParagraphs(chunks0: seq<Chunk>, paragraphs: seq<Str>, info: PageInfo, doc: DocInfo, opts: Options, ghost before: seq<Option<Chunk>>)
    returns (chunks: seq<Chunk>)
    requires chunks0 == Renumber(Somes(before))
    ensures chunks == Renumber(Somes(before + ParagraphChunkCandidates(paragraphs, info, doc, opts)))
  {
    ghost var all := before + ParagraphChunkCandidates(paragraphs, info, doc, opts);
    chunks := chunks0;
    assert all[..|before|] == before;
    for j := 0 to |paragraphs|
      invariant chunks == Renumber(Somes(all[..|before| + j]))
    {
      KeepStep(all, |before| + j, chunks);
      var paragraph := paragraphs[j];
      if |paragraph| < opts.minChars {
        assert all[|before| + j].None?;
        continue;
      }
      var c := ParagraphChunk(paragraph, j, info, doc);
      assert all[|before| + j] == Some(c);
      chunks := chunks + [c.(chunkIndex := |chunks|)];
    }
    assert all[..|all|] == all;
  }

  // ---- fixed_size strategy --------------------------------------------

  predicate Covers(b: Boundary, pos: int) {
    b.start <= pos < b.end
  }

  /** The character-to-page map: every position of every page's range maps
      to that page's attributes, later pages overwriting earlier ones. */
  function CharToPage(bs: seq<Boundary>, arr: PageArrays): map<int, PageInfo>
    decreases |bs|
  {
    if bs == [] then map[]
    else
      var n := |bs| - 1;
      CharToPage(bs[..n], arr) + Span(bs[n].start, bs[n].end, PageInfoAt(bs[n], arr, n))
  }

  /** Every position of `[lo, hi)` mapped to `info`. */
  function Span(lo: int, hi: int, info: PageInfo): (m: map<int, PageInfo>)
    ensures forall pos :: pos in m <==> lo <= pos < hi
    ensures forall pos :: pos in m ==> m[pos] == info
  {
    var positions := seq(if lo < hi then hi - lo else 0, k => lo + k);
    forall pos | lo <= pos < hi ensures pos in positions {
      assert positions[pos - lo] == pos;
    }
    map pos | pos in positions :: info
  }

  /** A position is mapped exactly when some page covers it, and then to
      the last page that covers it. */
  lemma CharToPageSpec(bs: seq<Boundary>, arr: PageArrays, pos: int)
    ensures pos in CharToPage(bs, arr) <==> exists i :: 0 <= i < |bs| && Covers(bs[i], pos)
    ensures forall i :: 0 <= i < |bs| && Covers(bs[i], pos) && (forall j :: i < j < |bs| ==> !Covers(bs[j], pos)) ==>
      pos in CharToPage(bs, arr) && CharToPage(bs, arr)[pos] == PageInfoAt(bs[i], arr, i)
  {
    CharToPageDomain(bs, arr, pos);
    forall i | 0 <= i < |bs| && Covers(bs[i], pos) && (forall j :: i < j < |bs| ==> !Covers(bs[j], pos))
      ensures pos in CharToPage(bs, arr) && CharToPage(bs, arr)[pos] == PageInfoAt(bs[i], arr, i)
    {
      CharToPageLast(bs, arr, pos, i);
    }
  }

  lemma {:induction false} CharToPageDomain(bs: seq<Boundary>, arr: PageArrays, pos: int)
    ensures pos in CharToPage(bs, arr) <==> exists i :: 0 <= i < |bs| && Covers(bs[i], pos)
    decreases |bs|
  {
    if bs != [] {
      var n := |bs| - 1;
      var front := bs[..n];
      CharToPageDomain(front, arr, pos);
      if exists i :: 0 <= i < |front| && Covers(front[i], pos) {
        var i :| 0 <= i < |front| && Covers(front[i], pos);
        assert bs[i] == front[i];
      }
      if exists i :: 0 <= i < |bs| && Covers(bs[i], pos) {
        var i :| 0 <= i < |bs| && Covers(bs[i], pos);
        if i < n {
          assert Covers(front[i], pos);
        }
      }
    }
  }

  lemma {:induction false} CharToPageLast(bs: seq<Boundary>, arr: PageArrays, pos: int, i: int)
    requires 0 <= i < |bs| && Covers(bs[i], pos)
    requires forall j :: i < j < |bs| ==> !Covers(bs[j], pos)
    ensures pos in CharToPage(bs, arr) && CharToPage(bs, arr)[pos] == PageInfoAt(bs[i], arr, i)
    decreases |bs|
  {
    var n := |bs| - 1;
    if i < n {
      var front := bs[..n];
      assert front[i] == bs[i];
      forall j | i < j < |front| ensures !Covers(front[j], pos) {
        assert front[j] == bs[j];
      }
      CharToPageLast(front, arr, pos, i);
      assert !Covers(bs[n], pos);
    }
  }

  /** Building the map with the source's nested loops. */
  method BuildCharToPage(bs: seq<Boundary>, arr: PageArrays) returns (m: map<int, PageInfo>)
    ensures m == CharToPage(bs, arr)
  {
    m := map[];
    for i := 0 to |bs|
      invariant m == CharToPage(bs[..i], arr)
    {
      var b := bs[i];
      m := MapRange(m, b.start, b.end, PageInfoAt(b, arr, i));
      CharToPagePrefix(bs, arr, i);
    }
    assert bs[..|bs|] == bs;
  }

  /** The inner loop: map every position of `[lo, hi)` to `info`. */
  method MapRange(m0: map<int, PageInfo>, lo: int, hi: int, info: PageInfo) returns (m: map<int, PageInfo>)
    ensures m == m0 + Span(lo, hi, info)
  {
    m := m0;
    var pos := lo;
    while pos < hi
      invariant lo <= pos && (pos <= hi || pos == lo)
      invariant m == m0 + Span(lo, pos, info)
      decreases hi - pos
    {
      SpanGrows(m0, lo, pos, info);
      m := m[pos := info];
      pos := pos + 1;
    }
    EmptySpan(lo, pos, hi, info);
  }

  /** Mapping one more position extends the span by it. */
  lemma SpanGrows(before: map<int, PageInfo>, lo: int, p: int, info: PageInfo)
    requires lo <= p
    ensures (before + Span(lo, p, info))[p := info] == before + Span(lo, p + 1, info)
  {
  }

  /** A range that is empty, or ends where it starts, maps nothing. */
  lemma EmptySpan(lo: int, p: int, hi: int, info: PageInfo)
    requires lo <= p && (p == hi || (p == lo && hi <= lo))
    ensures Span(lo, p, info) == Span(lo, hi, info)
  {
  }

  lemma CharToPagePrefix(bs: seq<Boundary>, arr: PageArrays, i: int)
    requires 0 <= i < |bs|
    ensures CharToPage(bs[..i + 1], arr) == CharToPage(bs[..i], arr) + Span(bs[i].start, bs[i].end, PageInfoAt(bs[i], arr, i))
  {
    assert bs[..i + 1][..i] == bs[..i];
  }

  /** The step cannot be zero or negative once there is text to walk. */
  predicate Advances(n: int, opts: Options) {
    n <= 0 || opts.chunkSize - opts.chunkOverlap > 0
  }

  /** The window starts `pos, pos + step, ...` below `n`. */
  function WindowStarts(n: int, step: int, pos: int): seq<int>
    requires pos >= n || step > 0
    decreases n - pos
  {
    if pos >= n then [] else [pos] + WindowStarts(n, step, pos + step)
  }

  /** Window `k` starts at `pos + k * step`; all are below `n`, and the
      next one would not be. */
  lemma {:induction false} WindowStartsSpec(n: int, step: int, pos: int)
    requires pos >= n || step > 0
    ensures var w := WindowStarts(n, step, pos);
      && (forall k :: 0 <= k < |w| ==> w[k] == pos + k * step && pos <= w[k] < n)
      && pos + |w| * step >= n
    decreases n - pos
  {
    if pos < n {
      WindowStartsSpec(n, step, pos + step);
      var w := WindowStarts(n, step, pos);
      var rest := WindowStarts(n, step, pos + step);
      forall k | 1 <= k < |w| ensures w[k] == pos + k * step && pos <= w[k] {
        assert w[k] == rest[k - 1];
      }
    }
  }

  /** With a non-negative overlap the windows `[start, start + chunkSize)`
      cover every character of the text. */
  lemma WindowsCoverText(n: int, opts: Options, p: int)
    requires opts.chunkSize - opts.chunkOverlap > 0 && opts.chunkOverlap >= 0
    requires 0 <= p < n
    ensures var w := WindowStarts(n, opts.chunkSize - opts.chunkOverlap, 0);
      exists k :: 0 <= k < |w| && w[k] <= p < w[k] + opts.chunkSize
  {
    WindowCovering(n, opts.chunkSize - opts.chunkOverlap, 0, p, opts.chunkSize);
  }

  lemma {:induction false} WindowCovering(n: int, step: int, pos: int, p: int, size: int)
    requires 0 < step <= size && pos <= p < n
    ensures exists k :: 0 <= k < |WindowStarts(n, step, pos)| && WindowStarts(n, step, pos)[k] <= p < WindowStarts(n, step, pos)[k] + size
    decreases n - pos
  {
    var w := WindowStarts(n, step, pos);
    var rest := WindowStarts(n, step, pos + step);
    assert w == [pos] + rest;
    if p < pos + step {
      assert 0 < |w| && w[0] <= p < w[0] + size;
    } else {
      WindowCovering(n, step, pos + step, p, size);
      var k :| 0 <= k < |rest| && rest[k] <= p < rest[k] + size;
      assert w[k + 1] == rest[k];
    }
  }

  /** `min(pos + chunk_size, len(text))`. */
  function WindowEnd(pos: int, size: int, n: int): int {
    if pos + size < n then pos + size else n
  }

  /** The page attributes of character `pos`, defaults when no page covers it. */
  function InfoAt(m: map<int, PageInfo>, pos: int): PageInfo {
    if pos in m then m[pos] else UnknownPage
  }

  /** The window at `pos`: skipped when its first character's page is
      excluded or the window is shorter than the minimum. */
  function FixedCandidate(text: Str, pos: int, m: map<int, PageInfo>, doc: DocInfo, opts: Options, filters: seq<Str>): Option<Chunk> {
    var chunkText := Slice(text, pos, WindowEnd(pos, opts.chunkSize, |text|));
    if Excluded(filters, opts, InfoAt(m, pos)) || |chunkText| < opts.minChars then None
    else Some(WindowChunk(text, pos, InfoAt(m, pos), doc, opts))
  }

  /** The chunk of the window at `pos`, with the attributes `info`. */
  function WindowChunk(text: Str, pos: int, info: PageInfo, doc: DocInfo, opts: Options): Chunk {
    var chunkEnd := WindowEnd(pos, opts.chunkSize, |text|);
    var chunkText := Slice(text, pos, chunkEnd);
    MakeChunk(chunkText, doc, info, |chunkText|, FixedSize).(
      charStart := Some(pos), charEnd := Some(chunkEnd),
      chunkSize := Some(opts.chunkSize), chunkOverlap := Some(opts.chunkOverlap))
  }

  function FixedCandidates(text: Str, starts: seq<int>, m: map<int, PageInfo>, doc: DocInfo, opts: Options, filters: seq<Str>): (r: seq<Option<Chunk>>)
    ensures |r| == |starts|
  {
    seq(|starts|, k requires 0 <= k < |starts| => FixedCandidate(text, starts[k], m, doc, opts, filters))
  }

  function FixedChunks(text: Str, bs: seq<Boundary>, arr: PageArrays, doc: DocInfo, opts: Options, filters: seq<Str>): seq<Chunk>
    requires Advances(|text|, opts)
  {
    Renumber(Somes(FixedCandidates(text, WindowStarts(|text|, opts.chunkSize - opts.chunkOverlap, 0), CharToPage(bs, arr), doc, opts,
      filters)))
  }

  /** The chunk cut from the window starting at `s`, numbered `k`. */
  predicate IsWindowChunk(c: Chunk, k: int, text: Str, s: int, m: map<int, PageInfo>, doc: DocInfo, opts: Options) {
    && c.charStart == Some(s)
    && c.charEnd == Some(WindowEnd(s, opts.chunkSize, |text|))
    && c.text == Slice(text, s, WindowEnd(s, opts.chunkSize, |text|))
    && c.charCount == |c.text|
    && c.pageNumber == InfoAt(m, s).pageNum && c.language == InfoAt(m, s).language
    && c.hasTable == InfoAt(m, s).hasTable && c.hasDiagram == InfoAt(m, s).hasDiagram
    && c.chunkSize == Some(opts.chunkSize) && c.chunkOverlap == Some(opts.chunkOverlap)
    && c.sourceFile == doc.sourceFile && c.sourceFullPath == doc.sourceFullPath && c.totalPages == doc.totalPages && c.version == doc.version
    && c.paragraphIndex.None?
    && c.chunkIndex == k
  }

  /** A window inside the text is `size` characters long unless it reaches
      the end of the text. */
  lemma WindowLength(text: Str, s: int, size: int)
    requires 0 <= s < |text| && size >= 0
    ensures |Slice(text, s, WindowEnd(s, size, |text|))| == if s + size < |text| then size else |text| - s
  {
    if s + size < |text| {
      assert Slice(text, s, s + size) == text[s..s + size];
    } else {
      assert Slice(text, s, |text|) == text[s..];
    }
  }

  /** The chunk of a window is its slice, with the attributes of its first
      character. */
  lemma WindowChunkIs(text: Str, s: int, m: map<int, PageInfo>, doc: DocInfo, opts: Options, k: int)
    ensures IsWindowChunk(WindowChunk(text, s, InfoAt(m, s), doc, opts).(chunkIndex := k), k, text, s, m, doc, opts)
  {
  }

  /** A window that yields a chunk yields its own chunk, admitted. */
  lemma FixedCandidateChunk(text: Str, pos: int, m: map<int, PageInfo>, doc: DocInfo, opts: Options, filters: seq<Str>)
    requires FixedCandidate(text, pos, m, doc, opts, filters).Some?
    ensures FixedCandidate(text, pos, m, doc, opts, filters) == Some(WindowChunk(text, pos, InfoAt(m, pos), doc, opts))
    ensures WindowChunk(text, pos, InfoAt(m, pos), doc, opts).strategy == FixedSize
    ensures Admitted(WindowChunk(text, pos, InfoAt(m, pos), doc, opts), opts, filters)
  {
  }

  /** Fixed-size chunking: at most one chunk per window, numbered from 0,
      each admitted by the filters and the minimum length. */
  lemma FixedChunksWellFormed(text: Str, bs: seq<Boundary>, arr: PageArrays, doc: DocInfo, opts: Options, filters: seq<Str>)
    requires Advances(|text|, opts)
    ensures var r := FixedChunks(text, bs, arr, doc, opts, filters);
      && |r| <= |WindowStarts(|text|, opts.chunkSize - opts.chunkOverlap, 0)|
      && WellFormed(r, opts, filters, FixedSize)
  {
    var starts := WindowStarts(|text|, opts.chunkSize - opts.chunkOverlap, 0);
    var m := CharToPage(bs, arr);
    var cs := FixedCandidates(text, starts, m, doc, opts, filters);
    forall i | 0 <= i < |cs| && cs[i].Some?
      ensures cs[i].value.strategy == FixedSize && Admitted(cs[i].value, opts, filters)
    {
      FixedCandidateChunk(text, starts[i], m, doc, opts, filters);
    }
    RenumberWellFormed(cs, opts, filters, FixedSize);
  }

  /** Chunk `k` is cut from window `src[k]` (the position of the `k`-th
      kept candidate), which starts inside the text, at
      `src[k] * (chunkSize - chunkOverlap)` by `WindowStartsSpec`. */
  lemma FixedChunksOrigin(text: Str, bs: seq<Boundary>, arr: PageArrays, doc: DocInfo, opts: Options, filters: seq<Str>)
    requires Advances(|text|, opts)
    ensures var r := FixedChunks(text, bs, arr, doc, opts, filters);
      var starts := WindowStarts(|text|, opts.chunkSize - opts.chunkOverlap, 0);
      var m := CharToPage(bs, arr);
      var src := Positions(FixedCandidates(text, starts, m, doc, opts, filters));
      forall k :: 0 <= k < |r| ==>
        && k < |src| && src[k] < |starts| && 0 <= starts[src[k]] < |text|
        && IsWindowChunk(r[k], k, text, starts[src[k]], m, doc, opts)
  {
    var step := opts.chunkSize - opts.chunkOverlap;
    var starts := WindowStarts(|text|, step, 0);
    var m := CharToPage(bs, arr);
    var cs := FixedCandidates(text, starts, m, doc, opts, filters);
    var src := Positions(cs);
    WindowStartsSpec(|text|, step, 0);
    forall k | 0 <= k < |src|
      ensures src[k] < |starts| && 0 <= starts[src[k]] < |text|
      ensures IsWindowChunk(Renumber(Somes(cs))[k], k, text, starts[src[k]], m, doc, opts)
    {
      WindowOrigin(text, starts, m, doc, opts, filters, cs, src, k);
    }
    FixedChunksUnfold(text, bs, arr, doc, opts, filters);
  }

  /** The definition of `FixedChunks`, as a fact lemmas can call on. */
  lemma FixedChunksUnfold(text: Str, bs: seq<Boundary>, arr: PageArrays, doc: DocInfo, opts: Options, filters: seq<Str>)
    requires Advances(|text|, opts)
    ensures FixedChunks(text, bs, arr, doc, opts, filters) ==
      Renumber(Somes(FixedCandidates(text, WindowStarts(|text|, opts.chunkSize - opts.chunkOverlap, 0), CharToPage(bs, arr), doc, opts,
        filters)))
  {
  }

  /** Kept chunk `k` comes from candidate window `src[k]`. */
  lemma WindowOrigin(text: Str, starts: seq<int>, m: map<int, PageInfo>, doc: DocInfo, opts: Options, filters: seq<Str>,
                     cs: seq<Option<Chunk>>, src: seq<nat>, k: int)
    requires cs == FixedCandidates(text, starts, m, doc, opts, filters) && src == Positions(cs) && 0 <= k < |src|
    ensures src[k] < |starts| && IsWindowChunk(Renumber(Somes(cs))[k], k, text, starts[src[k]], m, doc, opts)
  {
    var w := src[k];
    assert cs[w] == Some(Somes(cs)[k]);
    assert cs[w] == FixedCandidate(text, starts[w], m, doc, opts, filters);
    FixedCandidateChunk(text, starts[w], m, doc, opts, filters);
    WindowChunkIs(text, starts[w], m, doc, opts, k);
    assert Renumber(Somes(cs))[k] == Somes(cs)[k].(chunkIndex := k);
  }

  /** A window yields a chunk exactly when the page of its first character
      passes the filters and the window is at least the minimum length. */
  lemma FixedChunksKept(text: Str, bs: seq<Boundary>, arr: PageArrays, doc: DocInfo, opts: Options, filters: seq<Str>)
    requires Advances(|text|, opts)
    ensures var starts := WindowStarts(|text|, opts.chunkSize - opts.chunkOverlap, 0);
      var m := CharToPage(bs, arr);
      var src := Positions(FixedCandidates(text, starts, m, doc, opts, filters));
      forall w :: 0 <= w < |starts| ==>
        (w in src <==> !Excluded(filters, opts, InfoAt(m, starts[w]))
                       && |Slice(text, starts[w], WindowEnd(starts[w], opts.chunkSize, |text|))| >= opts.minChars)
  {
    var starts := WindowStarts(|text|, opts.chunkSize - opts.chunkOverlap, 0);
    var m := CharToPage(bs, arr);
    var cs := FixedCandidates(text, starts, m, doc, opts, filters);
    var src := Positions(cs);
    forall w | 0 <= w < |starts| && w in src ensures cs[w].Some? {
      var k :| 0 <= k < |src| && src[k] == w;
    }
  }

  /** Consecutive windows are `step` apart, every window starts before
      `n`, and the window after the last would start at or past `n`. */
  lemma {:induction false} WindowNext(n: int, step: int, pos: int, k: int)
    requires step > 0 && 0 <= k < |WindowStarts(n, step, pos)|
    ensures var w := WindowStarts(n, step, pos);
      && w[k] < n
      && (k + 1 < |w| ==> w[k + 1] == w[k] + step < n)
      && (k + 1 == |w| ==> w[k] + step >= n)
    decreases n - pos
  {
    var w := WindowStarts(n, step, pos);
    var rest := WindowStarts(n, step, pos + step);
    assert w == [pos] + rest;
    if k > 0 {
      WindowNext(n, step, pos + step, k - 1);
      assert w[k] == rest[k - 1];
      if k + 1 < |w| {
        assert w[k + 1] == rest[k];
      }
    }
  }

  /** `_chunk_by_fixed_size`: the character-to-page map, then the windows. */
  method ChunkByFixedSize(text: Str, bs: seq<Boundary>, arr: PageArrays, doc: DocInfo, opts: Options) returns (chunks: seq<Chunk>)
    requires Advances(|text|, opts)
    ensures chunks == FixedChunks(text, bs, arr, doc, opts, ParseLanguageFilter(opts.languageFilter))
  {
    var filters := ParseLanguageFilter(opts.languageFilter);
    var charToPage := BuildCharToPage(bs, arr);
    chunks := CutWindows(text, charToPage, doc, opts, filters);
    FixedChunksUnfold(text, bs, arr, doc, opts, filters);
  }

  /** The window loop of `_chunk_by_fixed_size`: from position 0, one
      window every `chunkSize - chunkOverlap` characters while inside the
      text, each kept when its first character's page passes the filters
      and it is at least the minimum length. */
  method CutWindows(text: Str, charToPage: map<int, PageInfo>, doc: DocInfo, opts: Options, filters: seq<Str>) returns (chunks: seq<Chunk>)
    requires Advances(|text|, opts)
    ensures chunks == Renumber(Somes(FixedCandidates(text, WindowStarts(|text|, opts.chunkSize - opts.chunkOverlap, 0), charToPage, doc, opts, filters)))
  {
    var step := opts.chunkSize - opts.chunkOverlap;
    ghost var all := WindowStarts(|text|, step, 0);
    ghost var cs := FixedCandidates(text, all, charToPage, doc, opts, filters);
    ghost var k := 0;
    var pos := 0;
    var chunkIndex := 0;
    chunks := [];
    while pos < |text|
      invariant 0 <= k <= |all|
      invariant k < |all| <==> pos < |text|
      invariant k < |all| ==> all[k] == pos
      invariant chunks == Renumber(Somes(cs[..k]))
      invariant chunkIndex == |chunks|
      decreases |text| - pos
    {
      WindowNext(|text|, step, 0, k);
      KeepStep(cs, k, chunks);
      var chunkEnd := WindowEnd(pos, opts.chunkSize, |text|);
      var chunkText := Slice(text, pos, chunkEnd);
      var info := if pos in charToPage then charToPage[pos] else UnknownPage;
      if (|filters| > 0 && info.language !in filters)
        || (!opts.includeTables && info.hasTable)
        || (!opts.includeDiagrams && info.hasDiagram)
        || |chunkText| < opts.minChars
      {
        assert cs[k].None?;
      } else {
        var c := WindowChunk(text, pos, info, doc, opts);
        assert cs[k] == Some(c);
        chunks := chunks + [c.(chunkIndex := chunkIndex)];
        chunkIndex := chunkIndex + 1;
      }
      k := k + 1;
      pos := pos + step;
    }
    assert cs[..k] == cs;
  }
}
