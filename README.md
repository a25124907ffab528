# olmOCR components in Dafny

This project models the parts of the langflow-ollama-pixi repository that
turn OCR output into text for retrieval. It covers the following:

- **The olmOCR JSONL parser** (`olmocr_jsonl_parser.py`). This is the main
  part. It reads the decoded records of a workspace's `results/*.jsonl`
  files and cuts every record into chunks with one of three strategies:
  - `page`: one chunk per page boundary.
  - `semantic`: the paragraphs of each page, split on `"\n\n"`.
  - `fixed_size`: a window of `chunk_size` characters that advances by
    `chunk_size - chunk_overlap`.

  A language filter, table and diagram switches and a minimum length are
  applied to each chunk. `chunk_index` is numbered per document. The whole
  batch is cut to `max_chunks`, and the component keeps `_chunks` and
  `_stats`.
- **The directory processor** (`olmocr_directory.py`). It selects supported
  files (extension filter, path order, `max_files` cap), tallies their
  extensions and builds the `olmocr.pipeline` command. It also accounts for
  the markdown files saved from the results, trims stderr to its last ten
  lines, and records the outcome in its fields.
- **The model-driven converter** (`olmocr_with_model.py`). It reads the
  endpoint, key and model off a language model and normalises the base URL.
  It keeps only existing `.pdf` uploads, builds the command, and joins the
  extracted markdown.
- **The Jina URL reader** (`enhanced_url_reader.py`). It handles URL
  defaulting, the Jina prefix, request headers and the streaming last line.
  It loads every URL and fails only when the first one fails.
- **The conversion script** (`convert_pdfs.py`). It covers device detection
  and the recommendation table, glob expansion with fallback, and the
  external-API command with its masked echo.
- **The filebrowser installer** (`install.py`). It maps the OS and
  architecture names, names the binary and picks the release URL, the
  matching asset and the output path.

Code that works by stepping through a loop or by changing fields is written
as methods and classes, in the source's own order. Examples are the chunk
loops, `char_to_page`, the record loop, `file_types`, the header dictionary,
the asset search and `DeviceDetector`. Each such method is proved equal to
a specification function or to a stated new state. The properties are
proved about those functions.

Helper modules:
- `PyStr` models the `str` operations the code uses.
- `Paths` models `pathlib` names, suffixes and the order `sorted()` gives
  paths.
- `Lists` models "keep the present candidates in order" and the prefix cap.
- `Jsonl` and `Pipeline` describe the decoded result files and the
  subprocess interface.

Behaviour of the code worth noting:
- `fixed_size` has no guard on `chunk_size - chunk_overlap`. No
  configuration error is raised, and the loop would not end for a step of 0
  or less. The model makes a positive step a precondition (`Parser.CanChunk`).
  The `chunk_size` input documents "0 = use page strategy"
  (custom-langflow/components/olmocr_directory/olmocr_jsonl_parser.py:52),
  but no code takes that branch: with `chunk_size` 0 the step is
  `-chunk_overlap`, and the `fixed_size` loop does not end.
- In `parse_jsonl` a line that is not valid JSON is not skipped on its own.
  It ends the reading of its whole file. A record whose page attributes
  lack an array the strategy indexes does the same. The chunks of the
  earlier lines are kept, and nothing counts the failed lines.
- A record with empty text or no page boundaries is skipped and is not
  counted in `documents_processed`.

## Model

| member | source | states |
|---|---|---|
| Chunking.DocInfoOf | custom-langflow/components/olmocr_directory/olmocr_jsonl_parser.py:196-212 | A missing `Source-File` reads as "unknown" and `source_file` is its final path component. A missing page count is 0 and a missing version is "unknown". |
| Chunking.PageInfoAt | custom-langflow/components/olmocr_directory/olmocr_jsonl_parser.py:166-168 | A page's language, table and diagram flags come from index i. They default to "unknown", false and false when an array is shorter. The page number is the boundary's. |
| Chunking.CodeOfSpec | custom-langflow/components/olmocr_directory/olmocr_jsonl_parser.py:129 | A comma-separated part yields a code exactly when it is not blank. The code is stripped and lower-case. |
| Chunking.ParseLanguageFilter | custom-langflow/components/olmocr_directory/olmocr_jsonl_parser.py:125-129 | Every filter entry is a non-empty, stripped, lower-case code. A blank filter string gives the empty list. |
| Chunking.LanguageFilterMember | custom-langflow/components/olmocr_directory/olmocr_jsonl_parser.py:125-129 | A code is in the filter exactly when some comma-separated part of the input strips and lowercases to it. |
| Chunking.BlankFilterHasNoCode | custom-langflow/components/olmocr_directory/olmocr_jsonl_parser.py:127-128 | No part of a blank filter string yields a code. |
| Chunking.CodeCandidatesMember | custom-langflow/components/olmocr_directory/olmocr_jsonl_parser.py:129 | The per-part candidates contain a code exactly when some part yields it. |
| Chunking.PresentMember | custom-langflow/components/olmocr_directory/olmocr_jsonl_parser.py:129 | Keeping the present candidates loses none and invents none. |
| Chunking.RenumberWellFormed | custom-langflow/components/olmocr_directory/olmocr_jsonl_parser.py:209 | When every candidate chunk has the strategy and passes the filters, the kept chunks, numbered 0..n-1 in order, are well formed. |
| Chunking.KeepStep | custom-langflow/components/olmocr_directory/olmocr_jsonl_parser.py:209-214 | Appending one more candidate appends that chunk with `chunk_index` equal to the number kept so far, or nothing. |
| Chunking.PageCandidateChunk | custom-langflow/components/olmocr_directory/olmocr_jsonl_parser.py:170-213 | A kept page gives the page chunk, which has strategy `page` and passes the language, table, diagram and length filters. |
| Chunking.PageChunksWellFormed | custom-langflow/components/olmocr_directory/olmocr_jsonl_parser.py:164-214 | Page chunking emits at most one chunk per boundary. They are numbered 0..n-1, have strategy `page` and all pass the filters and the minimum length. |
| Chunking.PageChunksOrigin | custom-langflow/components/olmocr_directory/olmocr_jsonl_parser.py:187-213 | Chunk k comes from the k-th kept boundary, in boundary order. Its text is `text[start:end]`, its `char_count` is `end - start` and its page and attributes are that boundary's. |
| Chunking.PageChunksKept | custom-langflow/components/olmocr_directory/olmocr_jsonl_parser.py:170-193 | A boundary is kept exactly when none of the following holds: the language filter is non-empty and lacks its language; it has a table and tables are excluded; it has a diagram and diagrams are excluded; its slice is shorter than the minimum. |
| Chunking.ChunkByPage | custom-langflow/components/olmocr_directory/olmocr_jsonl_parser.py:159-216 | The loop returns the page chunks of the specification under the parsed language filter. |
| Chunking.ParagraphOf | custom-langflow/components/olmocr_directory/olmocr_jsonl_parser.py:318 | A piece gives a paragraph exactly when it is not blank. The paragraph is non-empty and stripped. |
| Chunking.Paragraphs | custom-langflow/components/olmocr_directory/olmocr_jsonl_parser.py:318-322 | A page always has at least one paragraph. |
| Chunking.ParagraphsSpec | custom-langflow/components/olmocr_directory/olmocr_jsonl_parser.py:318-322 | No piece survives stripping exactly when the page is blank, and then the unstripped page text is the only paragraph. Otherwise every paragraph is non-empty and stripped. |
| Chunking.NoParagraphsOfBlankPieces | custom-langflow/components/olmocr_directory/olmocr_jsonl_parser.py:318 | Pieces that are all blank leave no paragraph. |
| Chunking.BlankPiecesOfNoParagraphs | custom-langflow/components/olmocr_directory/olmocr_jsonl_parser.py:318 | If no paragraph remains, every piece was blank. |
| Chunking.JoinOfBlankIsBlank | custom-langflow/components/olmocr_directory/olmocr_jsonl_parser.py:318-321 | Blank pieces joined by a blank separator give a blank page. This is the converse direction of the `not paragraphs` test. |
| Chunking.PageParagraphChunk | custom-langflow/components/olmocr_directory/olmocr_jsonl_parser.py:325-345 | Every chunk of a page has strategy `semantic` and passes the filters. It is a paragraph of that page with the page's number and attributes and its `paragraph_index` before the length filter. |
| Chunking.SemanticCandidateOrigin | custom-langflow/components/olmocr_directory/olmocr_jsonl_parser.py:300-346 | Every semantic candidate is admitted and is a paragraph chunk of some boundary. |
| Chunking.SemanticChunksSpec | custom-langflow/components/olmocr_directory/olmocr_jsonl_parser.py:300-346 | Semantic chunks are numbered 0..n-1 and pass the filters and the minimum length. Each is a paragraph chunk of some page. |
| Chunking.ParagraphRefsSpec | custom-langflow/components/olmocr_directory/olmocr_jsonl_parser.py:300-346 | The paragraph references list every paragraph of every page the filters admit, and nothing else, in page-then-paragraph order. |
| Chunking.SemanticChunksKept | custom-langflow/components/olmocr_directory/olmocr_jsonl_parser.py:300-326 | Paragraph j of an admitted page i yields a chunk exactly when its text has at least `min_chars` characters. |
| Chunking.SemanticChunksOrigin | custom-langflow/components/olmocr_directory/olmocr_jsonl_parser.py:300-344 | Chunk k is the k-th kept paragraph in page-then-paragraph order, with that paragraph's text and page metadata, numbered k. |
| Chunking.ChunkSemantic | custom-langflow/components/olmocr_directory/olmocr_jsonl_parser.py:295-348 | The nested loops return the semantic chunks of the specification under the parsed filter. |
| Chunking.AppendParagraphs | custom-langflow/components/olmocr_directory/olmocr_jsonl_parser.py:325-346 | The inner loop extends the chunks so far by the page's kept paragraphs, renumbered as a continuation. |
| Chunking.Span | custom-langflow/components/olmocr_directory/olmocr_jsonl_parser.py:226-232 | The positions `range(start, end)` are exactly the keys, and each maps to the page's information. |
| Chunking.CharToPageSpec | custom-langflow/components/olmocr_directory/olmocr_jsonl_parser.py:224-232 | A position is in `char_to_page` exactly when some boundary covers it. Its value comes from the last boundary covering it, so later boundaries overwrite earlier ones. |
| Chunking.CharToPageDomain | custom-langflow/components/olmocr_directory/olmocr_jsonl_parser.py:225-226 | The keys of `char_to_page` are the positions some boundary covers. |
| Chunking.CharToPageLast | custom-langflow/components/olmocr_directory/olmocr_jsonl_parser.py:225-232 | A position's entry is that of the last boundary covering it. |
| Chunking.CharToPagePrefix | custom-langflow/components/olmocr_directory/olmocr_jsonl_parser.py:225-232 | Processing one more boundary overwrites the map with that boundary's span. |
| Chunking.BuildCharToPage | custom-langflow/components/olmocr_directory/olmocr_jsonl_parser.py:224-232 | The nested loops build exactly `char_to_page`. |
| Chunking.MapRange | custom-langflow/components/olmocr_directory/olmocr_jsonl_parser.py:226-232 | The inner loop writes the page's information at every position of its range and keeps the other entries. |
| Chunking.WindowStartsSpec | custom-langflow/components/olmocr_directory/olmocr_jsonl_parser.py:235-291 | Window k starts at `k * step`, below `len(text)`. The first start not below `len(text)` ends the loop. |
| Chunking.WindowNext | custom-langflow/components/olmocr_directory/olmocr_jsonl_parser.py:237-291 | Consecutive windows are `step` apart. After the last one the position reaches `len(text)`. |
| Chunking.WindowsCoverText | custom-langflow/components/olmocr_directory/olmocr_jsonl_parser.py:237-239 | With `0 <= overlap < size`, every character of the text lies in some window. |
| Chunking.WindowLength | custom-langflow/components/olmocr_directory/olmocr_jsonl_parser.py:238-239 | A window's text has `chunk_size` characters, or fewer for the final partial window. |
| Chunking.FixedCandidateChunk | custom-langflow/components/olmocr_directory/olmocr_jsonl_parser.py:249-285 | A kept window gives the window chunk, which has strategy `fixed_size` and passes the filters. |
| Chunking.FixedChunksWellFormed | custom-langflow/components/olmocr_directory/olmocr_jsonl_parser.py:237-291 | There are at most as many fixed-size chunks as window starts. They are numbered 0..n-1, have strategy `fixed_size` and pass the filters and the minimum length. |
| Chunking.FixedChunksOrigin | custom-langflow/components/olmocr_directory/olmocr_jsonl_parser.py:238-285 | Chunk k is the k-th kept window, in order. Its text is `text[pos:min(pos+size, len)]` and its metadata is `char_to_page` at `pos`. Page 0, "unknown" and no table or diagram apply when `pos` is uncovered. |
| Chunking.FixedChunksKept | custom-langflow/components/olmocr_directory/olmocr_jsonl_parser.py:249-264 | A window is kept exactly when the metadata at its start passes the filters and its text reaches the minimum length. A skipped window still advances the position. |
| Chunking.ChunkByFixedSize | custom-langflow/components/olmocr_directory/olmocr_jsonl_parser.py:218-293 | Building the map and stepping the windows returns the fixed-size chunks of the specification. |
| Chunking.CutWindows | custom-langflow/components/olmocr_directory/olmocr_jsonl_parser.py:234-291 | The `while pos < len(text)` loop with its skips returns the renumbered kept window chunks. |
| Parser.StrategyOf | custom-langflow/components/olmocr_directory/olmocr_jsonl_parser.py:412-419 | Any name other than "semantic" and "fixed_size" selects page chunking. |
| Parser.StrategyNameRoundTrip | custom-langflow/components/olmocr_directory/olmocr_jsonl_parser.py:412-419 | Each strategy's name selects that strategy. |
| Parser.RecordChunksWellFormed | custom-langflow/components/olmocr_directory/olmocr_jsonl_parser.py:411-419 | The chunks of a record are numbered from 0, so the index restarts per document. They carry the selected strategy and pass the filters. |
| Parser.ChunkDocument | custom-langflow/components/olmocr_directory/olmocr_jsonl_parser.py:411-419 | The dispatch returns the selected strategy's chunks of the record. |
| Parser.LineStepSpec | custom-langflow/components/olmocr_directory/olmocr_jsonl_parser.py:396-422 | A blank line is skipped. The file stops exactly for a non-blank line that does not decode, or whose record has text and boundaries but lacks an array the strategy reads. Emitted chunks come from a record with text and boundaries and are numbered, filtered and long enough. |
| Parser.RunStepsSpec | custom-langflow/components/olmocr_directory/olmocr_jsonl_parser.py:393-430 | A file yields the chunks and document count of its lines before the first failing line. It reports failure exactly when such a line exists. |
| Parser.FailedPrefixFinal | custom-langflow/components/olmocr_directory/olmocr_jsonl_parser.py:427-430 | Once a line fails, the later lines of that file change nothing. |
| Parser.FirstStopUnique | custom-langflow/components/olmocr_directory/olmocr_jsonl_parser.py:393-430 | The first failing line is uniquely determined. |
| Parser.LoopStep | custom-langflow/components/olmocr_directory/olmocr_jsonl_parser.py:393-430 | From a prefix that has not failed, a failing line fixes the file's outcome, a skipped line leaves it, and an emitting line appends its chunks and counts one document. |
| Parser.ProcessFile | custom-langflow/components/olmocr_directory/olmocr_jsonl_parser.py:393-430 | The per-line loop returns the file's outcome under the specification. |
| Parser.DocsBound | custom-langflow/components/olmocr_directory/olmocr_jsonl_parser.py:407-422 | `documents_processed` never exceeds the number of lines read. |
| Parser.ParseResultSpec | custom-langflow/components/olmocr_directory/olmocr_jsonl_parser.py:353-435 | Nothing is returned before a run starts. Otherwise the result is a prefix of all chunks in file order: exactly `max_chunks` of them when that is positive and exceeded, and all of them when it is not positive. |
| Parser.JsonlParser.constructor | custom-langflow/components/olmocr_directory/olmocr_jsonl_parser.py:120-123 | `_chunks` and `_stats` start empty. |
| Parser.JsonlParser.ParseJsonl | custom-langflow/components/olmocr_directory/olmocr_jsonl_parser.py:350-466 | Returns the capped chunks and sets `status` to them. After a started run, it stores them and the statistics in `_chunks` and `_stats`. |
| Parser.JsonlParser.GetDataFrame | custom-langflow/components/olmocr_directory/olmocr_jsonl_parser.py:131-157 | One row per parsed chunk, in order, with the chunk's text and flattened metadata. Like `parse_jsonl`, a started run stores the chunks and the statistics, and an early return leaves them as they were. |
| Lists.Limit | custom-langflow/components/olmocr_directory/olmocr_jsonl_parser.py:433-435 | The result is a prefix of the input. It has exactly `limit` elements when the limit is positive and exceeded, and it is the whole input otherwise. |
| PyStr.TrimLeft | custom-langflow/components/olmocr_directory/olmocr_jsonl_parser.py:129 | Drops exactly the leading whitespace. |
| PyStr.TrimRight | custom-langflow/components/olmocr_directory/olmocr_jsonl_parser.py:129 | Drops exactly the trailing whitespace. |
| PyStr.Strip | custom-langflow/components/olmocr_directory/olmocr_jsonl_parser.py:129 | The stripped text is a slice of the input with only whitespace before and after it. It is empty exactly when the input is blank, and otherwise it starts and ends with a non-space character. |
| PyStr.StripOfStripped | custom-langflow/components/olmocr_directory/olmocr_jsonl_parser.py:318 | Stripping is idempotent. |
| PyStr.Split | custom-langflow/components/olmocr_directory/olmocr_jsonl_parser.py:129 | There is at least one piece, and joining the pieces with the separator gives back the input. |
| PyStr.SplitPiecesLackSep | custom-langflow/components/olmocr_directory/olmocr_jsonl_parser.py:318 | No piece contains the separator. |
| PyStr.SplitJoinChar | custom-langflow/components/jina/enhanced_url_reader.py:293 | Splitting on a character undoes joining pieces that lack it. |
| PyStr.Lower | custom-langflow/components/olmocr_directory/olmocr_jsonl_parser.py:129 | Keeps the length. Each upper-case ASCII letter becomes its lower-case letter (code point + 32), every other character is kept, and no upper-case ASCII letter is left. |
| PyStr.LowerOfLower | custom-langflow/components/olmocr_directory/olmocr_jsonl_parser.py:129 | Lowercasing is idempotent on lower-case text. |
| PyStr.LowerTrimmed | custom-langflow/components/olmocr_directory/olmocr_jsonl_parser.py:129 | Lowercasing stripped text leaves it stripped. |
| PyStr.Slice | custom-langflow/components/olmocr_directory/olmocr_jsonl_parser.py:187 | Equals the plain slice for in-range indices, and is empty from an index past the end. |
| PyStr.IndexOf | scripts/olmocr/convert_pdfs.py:202 | Finds the first occurrence, or reports that there is none. |
| PyStr.RStripChar | custom-langflow/components/olmocr/olmocr_with_model.py:129 | Drops exactly the trailing run of the character. |
| PyStr.NatToDecimal | custom-langflow/components/jina/enhanced_url_reader.py:214 | Gives a non-empty string of decimal digits. |
| PyStr.DecimalRoundTrip | custom-langflow/components/jina/enhanced_url_reader.py:214 | Reading back the decimal digits gives the number. |
| Paths.LastComponent | custom-langflow/components/olmocr_directory/olmocr_jsonl_parser.py:199 | A slash-free suffix of the path, preceded by '/' when shorter than the path. |
| Paths.FileName | custom-langflow/components/olmocr_directory/olmocr_jsonl_parser.py:199 | `Path(p).name` is the last component of the path with its trailing slashes removed: a slash-free suffix of it, preceded by '/' when shorter. |
| Paths.Suffix | custom-langflow/components/olmocr_directory/olmocr_directory.py:164 | A suffix of the name that is either empty, or a '.' followed by at least one character and no further '.', shorter than the name. When the name's last '.' is neither its first nor its last character, the suffix is everything from that '.'. |
| Paths.StemSuffix | custom-langflow/components/olmocr_directory/olmocr_directory.py:192 | The stem followed by the suffix is the name. |
| Paths.FileNameOfJoin | scripts/filebrowser/install.py:234-236 | The name of `dir / name` is `name`. |
| Paths.LexOrder | custom-langflow/components/olmocr_directory/olmocr_directory.py:167 | Lexicographic comparison of sequences is a strict total order when the element order is. |
| Paths.StrOrder | custom-langflow/components/olmocr_directory/olmocr_directory.py:167 | String comparison by code point is a strict total order. |
| Paths.PathOrder | custom-langflow/components/olmocr_directory/olmocr_directory.py:167 | Path comparison by components is irreflexive, transitive and total. |
| Paths.InsertPath | custom-langflow/components/olmocr_directory/olmocr_directory.py:167 | Inserting into a sorted list keeps it sorted and adds exactly the new path. |
| Paths.SortPaths | custom-langflow/components/olmocr_directory/olmocr_directory.py:167 | `sorted()` of paths is sorted and a permutation of its input. |
| Pipeline.CommandPrefix | custom-langflow/components/olmocr_directory/olmocr_directory.py:323-331 | The fixed part of the pipeline command has twelve words. |
| Pipeline.FirstAbort | custom-langflow/components/olmocr_directory/olmocr_directory.py:182-211 | The index of the first line that abandons its file. No earlier line does so. |
| Pipeline.ReadLines | custom-langflow/components/olmocr_directory/olmocr_directory.py:182-211 | The lines a reading loop gets through: none of an unreadable file, and of a readable one the prefix that no aborting line interrupts, running up to the first aborting line or to the end. |
| DirectoryProcessor.DiscoverSpec | custom-langflow/components/olmocr_directory/olmocr_directory.py:152-167 | The discovered list is sorted and a permutation of the matches kept. It holds exactly the matched regular files whose lower-cased suffix is supported. |
| DirectoryProcessor.EffectivePattern | custom-langflow/components/olmocr_directory/olmocr_directory.py:158-161 | The pattern handed to the glob is never `**/*`: that pattern is replaced by `*`, so both discover the same files, and every other pattern is passed unchanged. |
| DirectoryProcessor.DiscoverFiles | custom-langflow/components/olmocr_directory/olmocr_directory.py:152-167 | The filtering loop followed by sorting gives the discovered list. |
| DirectoryProcessor.FirstOccurrences | custom-langflow/components/olmocr_directory/olmocr_directory.py:292-296 | The tally's key order holds exactly the extensions that occur. |
| DirectoryProcessor.TallyStep | custom-langflow/components/olmocr_directory/olmocr_directory.py:293-295 | Counting one more file keeps the tally correct: keys in first-seen order, each count the extension's multiplicity, counts summing to the number of files. |
| DirectoryProcessor.TallySumStep | custom-langflow/components/olmocr_directory/olmocr_directory.py:293-295 | One more file adds exactly one to the sum of the counts. |
| DirectoryProcessor.TallyCounts | custom-langflow/components/olmocr_directory/olmocr_directory.py:292-295 | The tally of any extension list is correct. |
| DirectoryProcessor.TallyExtensions | custom-langflow/components/olmocr_directory/olmocr_directory.py:292-296 | The loop over the selected files builds that correct tally of their lower-cased suffixes. |
| DirectoryProcessor.StderrTail | custom-langflow/components/olmocr_directory/olmocr_directory.py:366-374 | In non-verbose mode, stderr of more than ten lines is shown as its last ten lines. |
| DirectoryProcessor.FileSavesShape | custom-langflow/components/olmocr_directory/olmocr_directory.py:185-199 | Every saved document has non-empty text and a `.md` path. |
| DirectoryProcessor.SaveAccounting | custom-langflow/components/olmocr_directory/olmocr_directory.py:184-217 | Over all files, the saved texts are non-empty, so `total_chars` is at least `total_files`. |
| DirectoryProcessor.MalformedLineSkipped | custom-langflow/components/olmocr_directory/olmocr_directory.py:208-209 | An undecodable line is skipped on its own: it neither aborts the file nor saves anything. |
| DirectoryProcessor.SaveResults | custom-langflow/components/olmocr_directory/olmocr_directory.py:169-217 | `saved_files`, `total_files` and `total_chars` are the paths, count and total length of the saved documents. |
| DirectoryProcessor.SaveFile | custom-langflow/components/olmocr_directory/olmocr_directory.py:182-211 | Reading one file appends its saved documents and keeps the running paths and character total in step. |
| DirectoryProcessor.SaveLines | custom-langflow/components/olmocr_directory/olmocr_directory.py:184-209 | The per-line loop saves the lines before the first aborting one. |
| DirectoryProcessor.SaveLine | custom-langflow/components/olmocr_directory/olmocr_directory.py:185-200 | One line saves its document or nothing, and the running totals follow. The file is `<id>.md` in the output directory, or the `id` path itself when it is absolute. |
| DirectoryProcessor.DirectoryCommand | custom-langflow/components/olmocr_directory/olmocr_directory.py:321-339 | The command is the prefix, then the files in order, then `--api_key` when a key is set and `--model` when a model is set. |
| DirectoryProcessor.OlmOcrDirectory.constructor | custom-langflow/components/olmocr_directory/olmocr_directory.py:145-150 | The stored outcome fields start empty. |
| DirectoryProcessor.OlmOcrDirectory.ProcessDirectory | custom-langflow/components/olmocr_directory/olmocr_directory.py:219-447 | A blank input directory gives the ready message and runs nothing. A missing directory, a path that is not a directory, a blank server URL or no matching file each give their waiting message and run nothing. When all checks pass a command is run: the fixed prefix, the selected files, `--api_key` with the key when one is set and `--model` with the model when one is set, and nothing else. A timeout or non-zero exit raises; a zero exit raises for a missing results directory or nothing saved and otherwise succeeds. A finished run's fields and message record the selection (capped at `max_files`), the tally, the saved documents and the directories. Fields are unchanged unless the run succeeds. |
| DirectoryProcessor.OlmOcrDirectory.Execute | custom-langflow/components/olmocr_directory/olmocr_directory.py:292-441 | The command is the fixed prefix, the selected files, then `--api_key` and `--model` with their values exactly when those are set, of exactly that length. A timeout raises `TimeoutError` and a non-zero exit raises `RuntimeError`, leaving the fields unchanged. A zero exit hands over to recording, with its outcome. |
| DirectoryProcessor.OlmOcrDirectory.Record | custom-langflow/components/olmocr_directory/olmocr_directory.py:383-435 | A missing results directory raises `RuntimeError` with its message, and so does a results directory from which nothing was saved. When something was saved the result is the processed message, and the fields are set to the recorded outcome. |
| ModelConverter.NormalizeBaseUrl | custom-langflow/components/olmocr/olmocr_with_model.py:128-133 | The normalised URL is a prefix of the input. |
| ModelConverter.RStripSlashes | custom-langflow/components/olmocr/olmocr_with_model.py:129 | `rstrip('/')` removes exactly the trailing slashes. |
| ModelConverter.NormalizeStripsApiSuffix | custom-langflow/components/olmocr/olmocr_with_model.py:128-133 | A host followed by `/v1` or `/v1/openai` and any number of slashes normalises to the host. |
| ModelConverter.NormalizeKeepsPlainUrl | custom-langflow/components/olmocr/olmocr_with_model.py:128-133 | Any other URL only loses its trailing slashes. |
| ModelConverter.NormalizeStripsOnce | custom-langflow/components/olmocr/olmocr_with_model.py:130-133 | Only one `/v1` is removed. |
| ModelConverter.DirectFieldsKept | custom-langflow/components/olmocr/olmocr_with_model.py:82-101 | Fields found by direct attribute lookup are kept, and the base URL is normalised. |
| ModelConverter.FallbackFillsEmpty | custom-langflow/components/olmocr/olmocr_with_model.py:104-123 | The config dictionary fills only the fields the direct lookup left empty, preferring the first key of each pair. |
| ModelConverter.ValidationCounts | custom-langflow/components/olmocr/olmocr_with_model.py:200-211 | Each upload is either kept or reported invalid. |
| ModelConverter.ValidationKeeps | custom-langflow/components/olmocr/olmocr_with_model.py:200-211 | A path is kept exactly when some upload with that path exists and has suffix `.pdf`. |
| ModelConverter.ValidationOrder | custom-langflow/components/olmocr/olmocr_with_model.py:200-211 | Kept paths appear in input order. |
| ModelConverter.KeptArePdfs | custom-langflow/components/olmocr/olmocr_with_model.py:206-211 | Every kept path has a lower-cased `.pdf` suffix. |
| ModelConverter.ValidatePdfs | custom-langflow/components/olmocr/olmocr_with_model.py:196-211 | The loop returns the kept paths and the rejection texts. |
| ModelConverter.BuildCommand | custom-langflow/components/olmocr/olmocr_with_model.py:225-242 | The command is the prefix, then the PDFs in order. `--api_key` is added only for a key that is set and not a placeholder. `--model` is added only when a model is set. |
| ModelConverter.FilePartsAreTexts | custom-langflow/components/olmocr/olmocr_with_model.py:301-309 | Every part taken from a file is the non-empty `text` of one of its lines. |
| ModelConverter.PartsAreTexts | custom-langflow/components/olmocr/olmocr_with_model.py:290-319 | Every markdown part is the non-empty `text` of some line of a readable file. |
| ModelConverter.CollectMarkdown | custom-langflow/components/olmocr/olmocr_with_model.py:284-319 | The loop over the files collects the markdown parts. |
| ModelConverter.AppendFileParts | custom-langflow/components/olmocr/olmocr_with_model.py:301-317 | The line loop appends the texts of the lines before the first aborting one. |
| ModelConverter.JoinEnds | custom-langflow/components/olmocr/olmocr_with_model.py:328 | A join starts with the first part and ends with the last. |
| ModelConverter.CombineEnds | custom-langflow/components/olmocr/olmocr_with_model.py:327-333 | The combined markdown starts with the header and first part and ends with the last part. |
| ModelConverter.CombineTitle | custom-langflow/components/olmocr/olmocr_with_model.py:330-333 | With one PDF path the output starts with `# <pdf name>` and a blank line. |
| ModelConverter.CombineSingle | custom-langflow/components/olmocr/olmocr_with_model.py:328-333 | Without exactly one PDF path, a single part is the whole output. |
| ModelConverter.ConvertToMarkdown | custom-langflow/components/olmocr/olmocr_with_model.py:149-360 | No files, no model, no base URL or no valid PDF raises `ValueError` before any command. When all four are present a command is run. It is the prefix, the kept PDFs, then `--api_key` for a real key and `--model` for a set model name, and its outcome decides the result. |
| ModelConverter.Finish | custom-langflow/components/olmocr/olmocr_with_model.py:259-348 | A timeout raises `TimeoutError`. A non-zero exit, a missing results directory or no parts raises `RuntimeError`. Success carries the combined markdown and the counts, endpoint and model name ("unknown" when unset). |
| ModelConverter.RunPipeline | custom-langflow/components/olmocr/olmocr_with_model.py:250-348 | The steps after the run give that result. |
| ConvertPdfs.ChooseDevice | scripts/olmocr/convert_pdfs.py:44-68 | The device is cuda exactly when torch and CUDA are present. It is mps exactly when torch and MPS are present without CUDA. It is cpu otherwise, including when torch is missing. |
| ConvertPdfs.DeviceDetector.constructor | scripts/olmocr/convert_pdfs.py:30-35 | After detection, the flags and the device type reflect the probe. |
| ConvertPdfs.DeviceDetector.Detect | scripts/olmocr/convert_pdfs.py:37-76 | Sets the CUDA and MPS flags only when torch imports, and always sets the device type and vLLM flag. |
| ConvertPdfs.DeviceDetector.Recommendation | scripts/olmocr/convert_pdfs.py:82-89 | The result is `local_gpu` exactly when CUDA and vLLM are present, and `install_gpu_extras` exactly when CUDA is present without vLLM. It is `external_api` otherwise. |
| ConvertPdfs.DeviceDetector.CanUseLocalGpu | scripts/olmocr/convert_pdfs.py:78-80 | True exactly when the recommendation is `local_gpu`. |
| ConvertPdfs.SettingsFrom | scripts/olmocr/convert_pdfs.py:108-114 | Unset variables take their defaults (`olmocr_workspace`, `pdf` and the FP8 model). Every set variable is taken as given. |
| ConvertPdfs.ExternalCommandSpec | scripts/olmocr/convert_pdfs.py:189-203 | `--api_key` is present exactly when a key is set. `--model` is present exactly when a model is set and the lower-cased server URL contains "deepinfra". The PDFs stay in order. |
| ConvertPdfs.MaskedHidesKey | scripts/olmocr/convert_pdfs.py:209 | The printed command never contains the key. |
| ConvertPdfs.KeyDisplay | scripts/olmocr/convert_pdfs.py:207 | Twenty asterisks followed by at most the last four characters of the key. |
| ConvertPdfs.RunExternalApi | scripts/olmocr/convert_pdfs.py:172-216 | With no server URL it returns 1 and launches nothing. Otherwise it launches the external command, prints it masked and returns its exit code. |
| ConvertPdfs.ExpandedSpec | scripts/olmocr/convert_pdfs.py:234-241 | There are at least as many entries as patterns. Every match of every pattern is included, a pattern without matches is kept verbatim, and every entry is a match or such a pattern. |
| ConvertPdfs.ExpandedAppend | scripts/olmocr/convert_pdfs.py:234-241 | Expanding two pattern lists one after the other gives the two expansions one after the other. |
| ConvertPdfs.ExpandPatterns | scripts/olmocr/convert_pdfs.py:234-241 | The loop builds the expansion. |
| ConvertPdfs.ExpandedNotEmpty | scripts/olmocr/convert_pdfs.py:243-245 | The expansion is never empty, so the "no PDF files found" exit cannot happen. |
| ConvertPdfs.Run | scripts/olmocr/convert_pdfs.py:218-283 | No patterns and no default PDF directory returns 1. Otherwise the recommendation selects the local run, the install prompt or the external API, over the expanded PDFs. |
| FilebrowserInstall.DetectOs | scripts/filebrowser/install.py:36-45 | The lower-cased system is accepted exactly when it is darwin, linux or windows. Otherwise `RuntimeError("Unsupported OS: …")` is raised. |
| FilebrowserInstall.DetectArch | scripts/filebrowser/install.py:47-60 | The architecture is one of amd64, arm64, armv7 and armv6. |
| FilebrowserInstall.ArchTable | scripts/filebrowser/install.py:48-60 | x86_64 and amd64 map to amd64, arm64 and aarch64 map to arm64, and prefixes armv7 and armv6 map to themselves. The armv7, armv6 and arm64 cases hold in both directions. |
| FilebrowserInstall.DetectPlatform | scripts/filebrowser/install.py:27-62 | Succeeds exactly when the OS is supported, pairing it with the mapped architecture. |
| FilebrowserInstall.DetectOwnNames | scripts/filebrowser/install.py:27-62 | The release's own names map to themselves. |
| FilebrowserInstall.BinaryName | scripts/filebrowser/install.py:65-79 | `filebrowser.exe` on windows, and otherwise `<os>-`, then the architecture, then `-filebrowser`, with nothing else (its length is exactly theirs). |
| FilebrowserInstall.BinaryNameDistinguishes | scripts/filebrowser/install.py:76-79 | Distinct non-windows platforms have distinct binary names. |
| FilebrowserInstall.ReleaseUrl | scripts/filebrowser/install.py:92-95 | "latest" selects the latest-release URL. Any other version selects the tags URL ending in that version. |
| FilebrowserInstall.ReleaseUrlInjective | scripts/filebrowser/install.py:92-95 | Different versions give different URLs. |
| FilebrowserInstall.ReleaseOf | scripts/filebrowser/install.py:99-106 | A 404 raises "Release '<v>' not found". Any other HTTP error raises `RuntimeError` "Failed to fetch release info: HTTP Error <code>: <reason>". |
| FilebrowserInstall.FirstNamed | scripts/filebrowser/install.py:216-219 | The index of the first asset with the name, or the length when there is none. |
| FilebrowserInstall.FindAsset | scripts/filebrowser/install.py:213-219 | The loop with `break` finds an asset exactly when one has the name, and it is the first such asset. |
| FilebrowserInstall.AssetNames | scripts/filebrowser/install.py:222 | The names of all assets, in order. |
| FilebrowserInstall.OutputPath | scripts/filebrowser/install.py:234-236 | The binary is named `filebrowser`, or `filebrowser.exe` on windows. |
| FilebrowserInstall.InstallFilebrowser | scripts/filebrowser/install.py:182-251 | Platform and release errors propagate. The plan uses the first matching asset, and no match raises with the available names. |
| UrlReader.WithScheme | custom-langflow/components/jina/enhanced_url_reader.py:173-176 | The stripped URL when it has an `http://` or `https://` scheme, and otherwise `https://` followed by it; either way the result has a scheme. |
| UrlReader.EnsureUrl | custom-langflow/components/jina/enhanced_url_reader.py:162-182 | The URL is accepted exactly when the stripped URL, with `https://` added unless it already has a scheme, passes validation; it is then returned in that form. Otherwise the result is `ValueError("Invalid URL: " + that form)`. |
| UrlReader.SchemeAdded | custom-langflow/components/jina/enhanced_url_reader.py:175-176 | The added prefix is a scheme. |
| UrlReader.EnsureUrlIdempotent | custom-langflow/components/jina/enhanced_url_reader.py:162-182 | Normalising a normalised URL changes nothing. |
| UrlReader.WithSchemeIdempotent | custom-langflow/components/jina/enhanced_url_reader.py:173-176 | Adding the scheme to an already schemed URL changes nothing. |
| UrlReader.SchemedTrimmed | custom-langflow/components/jina/enhanced_url_reader.py:174-176 | Prefixing stripped text keeps it stripped. |
| UrlReader.JinaUrl | custom-langflow/components/jina/enhanced_url_reader.py:250-254 | The result starts with the Jina base and ends with the URL. A URL already prefixed is unchanged. |
| UrlReader.JinaUrlIdempotent | custom-langflow/components/jina/enhanced_url_reader.py:250-254 | Prefixing twice is prefixing once. |
| UrlReader.AcceptType | custom-langflow/components/jina/enhanced_url_reader.py:196-202 | The Accept value is `application/json` exactly for JSON, and `text/event-stream` exactly for streaming non-JSON. It is `text/plain` otherwise. |
| UrlReader.FillSpec | custom-langflow/components/jina/enhanced_url_reader.py:190-239 | Setting headers in order gives each present header once, with its value. |
| UrlReader.JinaHeadersSpec | custom-langflow/components/jina/enhanced_url_reader.py:184-239 | Each header (Authorization, Accept, the `x-` headers, User-Agent) appears exactly when its option is set, once, with the value the options give it. |
| UrlReader.BuildHeaders | custom-langflow/components/jina/enhanced_url_reader.py:184-239 | The step-by-step dictionary updates give those headers. |
| UrlReader.AddRequestHeaders | custom-langflow/components/jina/enhanced_url_reader.py:190-210 | The first four assignments set Authorization, Accept, captions and cache as specified. |
| UrlReader.AddPageHeaders | custom-langflow/components/jina/enhanced_url_reader.py:212-226 | The next four set timeout, target selector, wait selector and proxy. |
| UrlReader.AddSummaryHeaders | custom-langflow/components/jina/enhanced_url_reader.py:228-237 | The last three set the links and images summaries and the User-Agent. |
| UrlReader.SetIf | custom-langflow/components/jina/enhanced_url_reader.py:193-194 | One conditional assignment extends the headers by exactly that header when present. |
| UrlReader.RequestTimeout | custom-langflow/components/jina/enhanced_url_reader.py:264 | The request timeout is never 0: an unset timeout uses the default. |
| UrlReader.LastLine | custom-langflow/components/jina/enhanced_url_reader.py:291-294 | The streaming text is what follows the last newline of the stripped response: a newline-free suffix of it that is all of it or is preceded by a newline. |
| UrlReader.FinalLine | custom-langflow/components/jina/enhanced_url_reader.py:293-294 | `split('\n')[-1]` is a newline-free suffix that is the whole string or is preceded by a newline. |
| UrlReader.LastPieceLacksNewline | custom-langflow/components/jina/enhanced_url_reader.py:293-294 | The last piece of a split on newline has no newline. |
| UrlReader.SplitWithoutNewline | custom-langflow/components/jina/enhanced_url_reader.py:293 | Text without a newline splits into itself. |
| UrlReader.LastPieceEnds | custom-langflow/components/jina/enhanced_url_reader.py:293-294 | The joined text ends with its last piece. |
| UrlReader.ReadReply | custom-langflow/components/jina/enhanced_url_reader.py:258-311 | A request error raises "Failed to fetch …". In JSON format an object reply gives its `content`, `url` and `title` with the defaults `""`, the requested URL and `""`; a body that is not JSON gives the text, the URL and an empty title; any other JSON value raises `AttributeError` at `data.get`. Streaming keeps the last line and plain text keeps the whole text, with the given URL and an empty title. It fails exactly in the two raising cases. |
| UrlReader.FetchWithJina | custom-langflow/components/jina/enhanced_url_reader.py:241-311 | Fetching a URL gives that reply's reading. |
| UrlReader.NormalizedUrlsSpec | custom-langflow/components/jina/enhanced_url_reader.py:324 | Normalisation succeeds exactly when every non-blank URL does, and then holds exactly their normalised forms. Otherwise it fails with the first failing URL's error. |
| UrlReader.LoadError | custom-langflow/components/jina/enhanced_url_reader.py:357-361 | Every error is re-raised as `ValueError("Error loading documents: …")`. |
| UrlReader.KeptDocuments | custom-langflow/components/jina/enhanced_url_reader.py:330-349 | When the first URL loads, the documents start with it, are no more than the URLs, and are exactly the cleaned documents of the URLs that load. |
| UrlReader.KeptMember | custom-langflow/components/jina/enhanced_url_reader.py:330-349 | A document is kept exactly when some URL loads to it. |
| UrlReader.LoadDocumentsSpec | custom-langflow/components/jina/enhanced_url_reader.py:313-361 | Loading fails exactly when a URL is invalid, there is no URL, or the first URL fails. Later failures skip their URL, and success holds exactly the loaded documents. |
| UrlReader.FetchUrlContents | custom-langflow/components/jina/enhanced_url_reader.py:313-361 | The loop over the URLs returns that result. |
| UrlReader.DocBlock | custom-langflow/components/jina/enhanced_url_reader.py:373 | A document's block starts with its source URL and ends with its text. |
| UrlReader.MessageTextSpec | custom-langflow/components/jina/enhanced_url_reader.py:367-380 | The message starts with the first block and ends with the last text, and a single document is just its block. |

## Left out

- File, subprocess and HTTP I/O are not performed. What they return is an
  input to the model:
  - the decoded JSONL lines;
  - the `glob`/`rglob` matches;
  - `Path.exists`, `expanduser().resolve()` and `Path.cwd()`;
  - the subprocess outcome;
  - the HTTP replies;
  - the console answer.

  The model does not write markdown files, create directories, download,
  `chmod` or verify the binary.
- The clock (`datetime.now()` in the workspace name) and `tempfile.mkdtemp`
  are inputs.
- Logging, `self.status` texts other than the returned chunks, `print`
  output and verbose-only messages are not modelled.
- `validate_url`'s regular expression is an uninterpreted predicate.
  `safe_convert` is an uninterpreted cleaning function. The User-Agent from
  the settings service is a parameter.
- The iteration order of the Python set of URLs in `fetch_url_contents` is
  an input: an enumeration of the set.
- JSON values are modelled only as far as the code reads them. In the
  parser, a line that decodes to something other than an object is not
  modelled.
- Floating point is not modelled: the VRAM in GB, the download percentage
  and the sizes in MB. The asset size is kept in bytes.
- `get_output_directory`, `get_workspace_path` and `get_processing_data`
  re-run `process_directory` when their field is empty. The model keeps the
  fields but not these re-triggering getters.
- `DeviceDetector.print_summary`, `OlmOCRRunner.install_gpu_extras` (its
  success is an input), `download_binary`, `make_executable`,
  `verify_binary` and the `main` functions are not modelled.
- `fetch_content`, which only wraps the documents in a DataFrame, is not
  modelled.
- The other components in the repository (`olmocr_api.py`,
  `olmocr_local.py`, `olmocr_simple.py`, `ollama_embeddings.py`,
  `text_processor.py`, `run.py`) are not part of this model.
- PyStr.Lower: lower-cases ASCII letters only, where Python's `str.lower` is
  Unicode-aware. Language codes and system names outside ASCII may
  therefore compare differently.
- Parser.CanChunk: the fixed-size strategy requires `chunk_size -
  chunk_overlap > 0`. The source would loop forever otherwise, and the
  model does not describe a run that does not end.
- ConvertPdfs.SettingsFrom: a set `OLMOCR_WORKSPACE` or `OLMOCR_PDF_DIR` is
  kept as given, where `Path(...)` would normalise it (drop `.` components,
  repeated and trailing slashes). The two defaults are stored in their
  normalised form.
- ModelConverter.ValidatePdfs: a kept path is stored as given, where the
  source stores `str(Path(file_path))`, which drops `.` components and
  repeated or trailing slashes ("./a.pdf" becomes "a.pdf", "d//a.pdf"
  becomes "d/a.pdf"). The same paths are kept, in the same order.
- Paths.FileName: the last component is taken literally, so a path ending
  in a `.` component names "." where `Path("d/.").name` is "d". `Path`
  normalisation is not modelled.
- DirectoryProcessor.SaveLine: writing the markdown file always succeeds.
  In the source a failed `open(output_file, 'w')` (for instance an `id`
  naming a missing sub-directory) is caught by the per-file handler and
  abandons the rest of that file. `SaveLines`, `SaveFile` and `SaveResults`
  inherit this: a write failure is not an outcome of the model.
- Pipeline.TextOf: a line's `text` is read as a string or as absent. A
  `text` of another JSON type is not modelled: a truthy non-string `text`
  raises `TypeError` when the directory processor writes it (and abandons
  the rest of the file) and breaks the converter's join, while a falsy
  `0`, `false` or `[]` is skipped like an empty string.
- Chunking.DocInfoOf: `Path(...).name` is modelled on POSIX path strings as
  the text after the last '/'. It is computed once per record rather than
  once per chunk, which gives the same value.
