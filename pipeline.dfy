/** The interface of the `olmocr.pipeline` subprocess that the components
    drive: the start of its command line, how the run ends, and the `*.jsonl`
    files it leaves in `<workspace>/results`, as the components that read
    them back see them (each line decoded with `json.loads`, the object's
    `text` and `id` entries read with `data.get`). */
module Pipeline {
  import opened Wrappers
  import opened PyStr

  /** The command up to the input paths:
      `pixi run --environment olmocr python -m olmocr.pipeline <workspace>
      --server <server> --markdown --pdfs`. */
  function CommandPrefix(workspace: Str, server: Str): (r: seq<Str>)
    ensures |r| == 12
  {
    ["pixi", "run", "--environment", "olmocr", "python", "-m", "olmocr.pipeline",
     workspace, "--server", server, "--markdown", "--pdfs"]
  }

  /** How the subprocess ended: its exit code and standard error, or the
      timeout expiring. */
  datatype RunOutcome = Completed(returnCode: int, stderr: Str) | TimedOut

  /** A dictionary entry as `data.get(key, default)` sees it: absent (the
      default is used), `null`, or a value whose text is `s`. */
  datatype Field = Missing | Null | Value(s: Str)

  /** What `json.loads` makes of a line: an error, a value that is not an
      object (so `.get` raises), or an object with its two entries. */
  datatype JsonValue = Malformed | NotObject | Object(text: Field, id: Field)

  datatype ResultLine = ResultLine(raw: Str, value: JsonValue)

  /** A result file: its name, whether opening and reading it succeeds,
      and its lines. */
  datatype ResultFile = ResultFile(name: Str, readable: bool, lines: seq<ResultLine>)

  /** The line raises out of the per-file `try` (an `AttributeError` from
      `.get` on a non-object), abandoning the rest of the file. */
  predicate Aborts(l: ResultLine) {
    !IsBlank(l.raw) && l.value.NotObject?
  }

  /** The index of the first aborting line, |lines| when none aborts. */
  function FirstAbort(lines: seq<ResultLine>): (j: nat)
    ensures j <= |lines|
    ensures forall i :: 0 <= i < j ==> !Aborts(lines[i])
    ensures j < |lines| ==> Aborts(lines[j])
    decreases |lines|
  {
    if lines == [] || Aborts(lines[0]) then 0
    else
      var j := FirstAbort(lines[1..]);
      assert forall i :: 1 <= i < j + 1 ==> lines[i] == lines[1..][i - 1];
      j + 1
  }

  /** The lines a reading loop gets through: none of an unreadable file,
      else those before the first aborting line. */
  function ReadLines(f: ResultFile): (r: seq<ResultLine>)
    ensures forall i :: 0 <= i < |r| ==> !Aborts(r[i])
    ensures r == [] || (f.readable && |r| <= |f.lines| && r == f.lines[..|r|])
    ensures f.readable ==> |r| == |f.lines| || Aborts(f.lines[|r|])
    ensures !f.readable ==> r == []
  {
    if f.readable then f.lines[..FirstAbort(f.lines)] else []
  }

  /** The non-empty `text` of an object line, what `data.get('text', '')`
      gives when it is truthy. */
  function TextOf(l: ResultLine): Option<Str> {
    if IsBlank(l.raw) then None
    else match l.value
      case Object(Value(t), _) => if t != [] then Some(t) else None
      case _ => None
  }
}
