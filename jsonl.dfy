/** The olmOCR results files as the modelled components see them once
    `json.loads` has run on each line: decoded records, or a decode failure. */
module Jsonl {
  import opened Wrappers
  import opened PyStr

  /** One `[start, end, page_number]` triple of `attributes.pdf_page_numbers`. */
  datatype Boundary = Boundary(start: int, end: int, pageNum: int)

  /** `attributes`: a missing `pdf_page_numbers` reads as `[]`; a missing
      per-page array is None (indexing it raises KeyError). */
  datatype Attributes = Attributes(
    pageNumbers: seq<Boundary>,
    primaryLanguage: Option<seq<Str>>,
    isTable: Option<seq<bool>>,
    isDiagram: Option<seq<bool>>)

  /** `metadata`: None for a missing key. */
  datatype Metadata = Metadata(
    sourceFile: Option<Str>,
    totalPages: Option<int>,
    version: Option<Str>)

  /** A decoded result object; a missing `text` reads as "". */
  datatype Record = Record(id: Option<Str>, text: Str, metadata: Metadata, attributes: Attributes)

  /** One line of a results file: its raw text, and the object `json.loads`
      decodes from it (None when it raises JSONDecodeError). */
  datatype Line = Line(raw: Str, decoded: Option<Record>)

  /** A `*.jsonl` file found by globbing the results directory. */
  datatype JsonlFile = JsonlFile(name: Str, lines: seq<Line>)
}
