/** The Jina URL reader component: it normalises the configured URLs,
    fetches each through the Jina Reader endpoint with headers built from
    its options, and keeps the documents that load, failing only when the
    first one does not. The HTTP request, the URL pattern, the text
    cleaning and the order of a Python set are inputs. */
module UrlReader {
  import opened Wrappers
  import opened PyStr
  import opened Lists

  const JinaReaderBase: Str := "https://r.jina.ai/"
  const DefaultTimeout: int := 30

  // ---- URLs ----------------------------------------------------------------

  /** Has an explicit `http://` or `https://` scheme. */
  predicate HasScheme(url: Str) {
    StartsWith(url, "http://") || StartsWith(url, "https://")
  }

  /** The stripped URL with `https://` added unless a scheme is there. */
  function WithScheme(url: Str): (r: Str)
    ensures HasScheme(r)
    ensures HasScheme(Strip(url)) ==> r == Strip(url)
    ensures !HasScheme(Strip(url)) ==> r == "https://" + Strip(url)
  {
    var s := Strip(url);
    SchemeAdded(s);
    if HasScheme(s) then s else "https://" + s
  }

  /** `ensure_url`: strip, add `https://` unless a scheme is there, and
      reject what the URL pattern `valid` does not match. */
  function EnsureUrl(url: Str, valid: Str -> bool): (r: Result<Str>)
    ensures r.Ok? <==> valid(WithScheme(url))
    ensures r.Ok? ==> r.value == WithScheme(url) && HasScheme(r.value) && valid(r.value)
    ensures r.Err? ==> r.error == ValueError(InvalidUrlPrefix + WithScheme(url))
    ensures r.Err? ==> r.error.ValueError? && StartsWith(r.error.msg, InvalidUrlPrefix)
  {
    var full := WithScheme(url);
    if !valid(full) then
      var msg := InvalidUrlPrefix + full;
      assert msg[..|InvalidUrlPrefix|] == InvalidUrlPrefix;
      Err(ValueError(msg))
    else Ok(full)
  }

  const InvalidUrlPrefix: Str := "Invalid URL: "

  lemma SchemeAdded(s: Str)
    ensures HasScheme("https://" + s)
  {
    assert ("https://" + s)[..8] == "https://";
  }

  /** Normalising an accepted URL again changes nothing. */
  lemma EnsureUrlIdempotent(url: Str, valid: Str -> bool)
    requires EnsureUrl(url, valid).Ok?
    ensures EnsureUrl(EnsureUrl(url, valid).value, valid) == EnsureUrl(url, valid)
  {
    WithSchemeIdempotent(url);
  }

  /** Adding the scheme to a URL that already went through it changes
      nothing. */
  lemma WithSchemeIdempotent(url: Str)
    ensures WithScheme(WithScheme(url)) == WithScheme(url)
  {
    var s := Strip(url);
    var w := WithScheme(url);
    if HasScheme(s) {
      assert w == s;
    } else {
      assert w == "https://" + s;
      SchemedTrimmed(s);
    }
    StripOfStripped(w);
  }

  lemma SchemedTrimmed(s: Str)
    requires Trimmed(s)
    ensures Trimmed("https://" + s)
  {
    var full := "https://" + s;
    assert full[0] == 'h';
    if s == [] {
      assert full[|full| - 1] == '/';
    } else {
      assert full[|full| - 1] == s[|s| - 1];
    }
  }

  /** The URL handed to the reader: prefixed with the Jina endpoint unless
      it already is. */
  function JinaUrl(url: Str): (r: Str)
    ensures StartsWith(r, JinaReaderBase) && EndsWith(r, url)
    ensures StartsWith(url, JinaReaderBase) ==> r == url
  {
    if StartsWith(url, JinaReaderBase) then url
    else
      var r := JinaReaderBase + url;
      assert r[..|JinaReaderBase|] == JinaReaderBase;
      assert r[|r| - |url|..] == url;
      r
  }

  /** Prefixing twice is prefixing once. */
  lemma JinaUrlIdempotent(url: Str)
    ensures JinaUrl(JinaUrl(url)) == JinaUrl(url)
  {
  }

  // ---- request headers -------------------------------------------------------

  /** The component's options that shape the request. */
  datatype ReaderOptions = ReaderOptions(
    apiKey: Str, format: Str, imageCaptions: bool, noCache: bool, streaming: bool,
    timeout: int, targetSelector: Str, waitForSelector: Str, proxyUrl: Str,
    linksSummary: bool, imagesSummary: bool)

  /** The `Accept` header: JSON first, then the event stream, then text. */
  function AcceptType(o: ReaderOptions): (r: Str)
    ensures r == "application/json" <==> o.format == "JSON"
    ensures r == "text/event-stream" <==> o.format != "JSON" && o.streaming
    ensures r == "text/plain" <==> o.format != "JSON" && !o.streaming
  {
    if o.format == "JSON" then "application/json"
    else if o.streaming then "text/event-stream"
    else "text/plain"
  }

  /** The headers the reader may send. */
  datatype Header =
    | Authorization | Accept | WithGeneratedAlt | NoCache | Timeout
    | TargetSelector | WaitForSelector | ProxyUrl
    | WithLinksSummary | WithImagesSummary | UserAgent

  /** The header's name on the wire. */
  function HeaderName(h: Header): Str {
    match h
    case Authorization => "Authorization"
    case Accept => "Accept"
    case WithGeneratedAlt => "x-with-generated-alt"
    case NoCache => "x-no-cache"
    case Timeout => "x-timeout"
    case TargetSelector => "x-target-selector"
    case WaitForSelector => "x-wait-for-selector"
    case ProxyUrl => "x-proxy-url"
    case WithLinksSummary => "x-with-links-summary"
    case WithImagesSummary => "x-with-images-summary"
    case UserAgent => "User-Agent"
  }

  /** The value sent for header `h`, if it is sent: the bearer token when
      a key is set, the accept type always, each `x-` header when its
      option is set (truthy), and the user agent always. */
  function Sent(o: ReaderOptions, userAgent: Str, h: Header): Option<Str> {
    match h
    case Authorization => if o.apiKey != [] then Some("Bearer " + o.apiKey) else None
    case Accept => Some(AcceptType(o))
    case WithGeneratedAlt => if o.imageCaptions then Some("true") else None
    case NoCache => if o.noCache then Some("true") else None
    case Timeout => if o.timeout != 0 then Some(IntToDecimal(o.timeout)) else None
    case TargetSelector => if o.targetSelector != [] then Some(o.targetSelector) else None
    case WaitForSelector => if o.waitForSelector != [] then Some(o.waitForSelector) else None
    case ProxyUrl => if o.proxyUrl != [] then Some(o.proxyUrl) else None
    case WithLinksSummary => if o.linksSummary then Some("true") else None
    case WithImagesSummary => if o.imagesSummary then Some("true") else None
    case UserAgent => Some(userAgent)
  }

  /** The order in which the headers dictionary is filled. */
  const FillOrder: seq<Header> := [Authorization, Accept, WithGeneratedAlt, NoCache, Timeout,
    TargetSelector, WaitForSelector, ProxyUrl, WithLinksSummary, WithImagesSummary, UserAgent]

  /** The position of each header in the filling order. */
  function StepOf(h: Header): (k: nat)
    ensures k < |FillOrder| && FillOrder[k] == h
  {
    match h
    case Authorization => 0
    case Accept => 1
    case WithGeneratedAlt => 2
    case NoCache => 3
    case Timeout => 4
    case TargetSelector => 5
    case WaitForSelector => 6
    case ProxyUrl => 7
    case WithLinksSummary => 8
    case WithImagesSummary => 9
    case UserAgent => 10
  }

  /** No header is filled twice, and every header is filled. */
  lemma FillOrderDistinct()
    ensures forall i, j :: 0 <= i < j < |FillOrder| ==> FillOrder[i] != FillOrder[j]
    ensures forall h: Header :: h in FillOrder
  {
    forall i, j | 0 <= i < j < |FillOrder| ensures FillOrder[i] != FillOrder[j] {
      assert StepOf(FillOrder[i]) != StepOf(FillOrder[j]) by {
        assert StepOf(FillOrder[i]) == i && StepOf(FillOrder[j]) == j;
      }
    }
    forall h: Header ensures h in FillOrder {
      assert FillOrder[StepOf(h)] == h;
    }
  }

  /** The entries of a dictionary filled by setting, in turn, each header
      of `order` that has a value to that value; with no header repeated,
      the list, in insertion order, is the dictionary. */
  function Fill(values: Header -> Option<Str>, order: seq<Header>): seq<(Header, Str)>
    decreases |order|
  {
    if order == [] then []
    else
      var h := order[|order| - 1];
      Fill(values, order[..|order| - 1]) + (match values(h) case Some(v) => [(h, v)] case None => [])
  }

  /** Filling in a distinct order sets each header of the order once,
      exactly when it has a value, to that value. */
  lemma {:induction false} FillSpec(values: Header -> Option<Str>, order: seq<Header>)
    requires forall i, j :: 0 <= i < j < |order| ==> order[i] != order[j]
    ensures var e := Fill(values, order);
      && (forall i :: 0 <= i < |e| ==> values(e[i].0) == Some(e[i].1) && e[i].0 in order)
      && (forall i, j :: 0 <= i < j < |e| ==> e[i].0 != e[j].0)
      && (forall h :: h in order && values(h).Some? ==> exists i :: 0 <= i < |e| && e[i].0 == h)
    decreases |order|
  {
    if order != [] {
      var front := order[..|order| - 1];
      var h := order[|order| - 1];
      FillSpec(values, front);
      forall j | 0 <= j < |front| ensures front[j] != h {
        assert front[j] == order[j];
      }
      var pre := Fill(values, front);
      var e := Fill(values, order);
      forall g | g in order && values(g).Some?
        ensures exists i :: 0 <= i < |e| && e[i].0 == g
      {
        if g in front {
          var i :| 0 <= i < |pre| && pre[i].0 == g;
          assert e[i] == pre[i];
        } else {
          assert g == h;
          assert e[|pre|].0 == g;
        }
      }
    }
  }
  /** The value each header is sent with, as a function. */
  function SentBy(o: ReaderOptions, userAgent: Str): Header -> Option<Str> {
    h => Sent(o, userAgent, h)
  }

  /** The headers of a reader request, in insertion order. */
  function JinaHeaders(o: ReaderOptions, userAgent: Str): seq<(Header, Str)> {
    Fill(SentBy(o, userAgent), FillOrder)
  }

  /** Each header is sent exactly when its option is set (the accept type
      and user agent always), once, with the option's value. */
  lemma JinaHeadersSpec(o: ReaderOptions, userAgent: Str)
    ensures var e := JinaHeaders(o, userAgent);
      && (forall i :: 0 <= i < |e| ==> Sent(o, userAgent, e[i].0) == Some(e[i].1))
      && (forall i, j :: 0 <= i < j < |e| ==> e[i].0 != e[j].0)
      && (forall h :: Sent(o, userAgent, h).Some? ==> exists i :: 0 <= i < |e| && e[i].0 == h)
  {
    var values := SentBy(o, userAgent);
    FillOrderDistinct();
    FillSpec(values, FillOrder);
    var e := JinaHeaders(o, userAgent);
    forall i | 0 <= i < |e| ensures Sent(o, userAgent, e[i].0) == Some(e[i].1) {
      assert values(e[i].0) == Some(e[i].1);
    }
    forall h | Sent(o, userAgent, h).Some?
      ensures exists i :: 0 <= i < |e| && e[i].0 == h
    {
      assert values(h).Some?;
    }
  }

  /** Filling one more header appends its entry when it has a value. */
  lemma FillSnoc(values: Header -> Option<Str>, done: seq<Header>, h: Header)
    ensures Fill(values, done + [h])
      == Fill(values, done) + (match values(h) case Some(v) => [(h, v)] case None => [])
  {
    assert (done + [h])[..|done|] == done;
  }

  /** `_build_jina_headers`: the headers dictionary, filled step by step.
      `userAgent` is the host's configured user agent. */
  method BuildHeaders(o: ReaderOptions, userAgent: Str) returns (headers: seq<(Header, Str)>)
    ensures headers == JinaHeaders(o, userAgent)
  {
    headers := AddRequestHeaders(o, userAgent);
    headers := AddPageHeaders(o, userAgent, headers);
    headers := AddSummaryHeaders(o, userAgent, headers);
    assert FillOrder[..|FillOrder|] == FillOrder;
  }

  /** Steps 1 to 4 of `_build_jina_headers`: the credentials, the accept type and the caching headers. */
  method AddRequestHeaders(o: ReaderOptions, userAgent: Str) returns (r: seq<(Header, Str)>)
    ensures r == Fill(SentBy(o, userAgent), FillOrder[..4])
  {
    r := [];
    r := SetIf(r, o.apiKey != [], Authorization, "Bearer " + o.apiKey, o, userAgent, 0);
    r := SetIf(r, true, Accept, AcceptType(o), o, userAgent, 1);
    r := SetIf(r, o.imageCaptions, WithGeneratedAlt, "true", o, userAgent, 2);
    r := SetIf(r, o.noCache, NoCache, "true", o, userAgent, 3);
  }

  /** Steps 5 to 8 of `_build_jina_headers`: the timeout and the page-selection headers. */
  method AddPageHeaders(o: ReaderOptions, userAgent: Str, headers: seq<(Header, Str)>) returns (r: seq<(Header, Str)>)
    requires headers == Fill(SentBy(o, userAgent), FillOrder[..4])
    ensures r == Fill(SentBy(o, userAgent), FillOrder[..8])
  {
    r := headers;
    r := SetIf(r, o.timeout != 0, Timeout, IntToDecimal(o.timeout), o, userAgent, 4);
    r := SetIf(r, o.targetSelector != [], TargetSelector, o.targetSelector, o, userAgent, 5);
    r := SetIf(r, o.waitForSelector != [], WaitForSelector, o.waitForSelector, o, userAgent, 6);
    r := SetIf(r, o.proxyUrl != [], ProxyUrl, o.proxyUrl, o, userAgent, 7);
  }

  /** Steps 9 to 11 of `_build_jina_headers`: the summary headers and the user agent. */
  method AddSummaryHeaders(o: ReaderOptions, userAgent: Str, headers: seq<(Header, Str)>) returns (r: seq<(Header, Str)>)
    requires headers == Fill(SentBy(o, userAgent), FillOrder[..8])
    ensures r == Fill(SentBy(o, userAgent), FillOrder[..11])
  {
    r := headers;
    r := SetIf(r, o.linksSummary, WithLinksSummary, "true", o, userAgent, 8);
    r := SetIf(r, o.imagesSummary, WithImagesSummary, "true", o, userAgent, 9);
    r := SetIf(r, true, UserAgent, userAgent, o, userAgent, 10);
  }

  /** Step `k` of the filling: `headers[h] = v` when `present`. */
  method SetIf(headers: seq<(Header, Str)>, present: bool, h: Header, v: Str,
               ghost o: ReaderOptions, ghost userAgent: Str, ghost k: nat)
    returns (r: seq<(Header, Str)>)
    requires k < |FillOrder| && FillOrder[k] == h
    requires headers == Fill(SentBy(o, userAgent), FillOrder[..k])
    requires Sent(o, userAgent, h) == if present then Some(v) else None
    ensures r == Fill(SentBy(o, userAgent), FillOrder[..k + 1])
  {
    ghost var values := SentBy(o, userAgent);
    r := if present then headers + [(h, v)] else headers;
    assert FillOrder[..k + 1] == FillOrder[..k] + [h];
    FillSnoc(values, FillOrder[..k], h);
  }

  /** The request timeout: the option when set, else the default. */
  function RequestTimeout(o: ReaderOptions): (r: int)
    ensures r != 0
  {
    if o.timeout != 0 then o.timeout else DefaultTimeout
  }

  // ---- one fetch -------------------------------------------------------------

  /** A response body read as JSON: not JSON at all, an object with the
      `content`, `url` and `title` keys it may have, or some other JSON
      value (an array, a string, a number, `null`), named by its Python
      type. */
  datatype JsonReply =
    | NotJson
    | JsonObject(content: Option<Str>, url: Option<Str>, title: Option<Str>)
    | JsonOther(typeName: Str)

  /** What the HTTP request gives: a successful response with its text
      and that text read as JSON, or a request error (including an error
      status) with its description. */
  datatype Reply = Response(text: Str, json: JsonReply) | RequestError(reason: Str)

  /** A loaded document. */
  datatype Doc = Doc(text: Str, url: Str, title: Str)

  /** The last line of the stripped streaming response: all of what
      follows its last newline. */
  function LastLine(content: Str): (r: Str)
    ensures IsLastLine(Strip(content), r)
    ensures '\n' !in Strip(content) ==> r == Strip(content)
  {
    FinalLine(Strip(content))
  }

  /** `r` is a newline-free tail of `s` that is all of `s` or follows a
      newline: what comes after the last newline. */
  predicate IsLastLine(s: Str, r: Str) {
    && '\n' !in r
    && EndsWith(s, r)
    && (|r| < |s| ==> s[|s| - |r| - 1] == '\n')
  }

  /** The last of the newline-separated pieces of `s`: a newline-free
      tail that is all of `s` or follows a newline. */
  function FinalLine(s: Str): (r: Str)
    ensures IsLastLine(s, r)
    ensures '\n' !in s ==> r == s
  {
    var chunks := Split(s, "\n");
    LastPieceLacksNewline(s, chunks);
    LastPieceEnds(s, chunks);
    SplitWithoutNewline(s);
    chunks[|chunks| - 1]
  }

  lemma LastPieceLacksNewline(s: Str, chunks: seq<Str>)
    requires chunks == Split(s, "\n")
    ensures '\n' !in chunks[|chunks| - 1]
  {
    SplitPiecesLackSep(s, "\n");
    NoOccurrenceNoChar(chunks[|chunks| - 1], '\n');
  }

  lemma SplitWithoutNewline(s: Str)
    ensures '\n' !in s ==> Split(s, "\n") == [s]
  {
    if '\n' !in s {
      NoCharNoOccurrence(s, '\n');
    }
  }

  /** The joined pieces end with the last piece, which is all of them or
      follows a newline. */
  lemma {:induction false} LastPieceEnds(s: Str, parts: seq<Str>)
    requires |parts| >= 1 && Join("\n", parts) == s
    ensures EndsWith(s, parts[|parts| - 1])
    ensures |parts| == 1 ==> parts[0] == s
    ensures |parts| > 1 ==> |s| > |parts[|parts| - 1]| && s[|s| - |parts[|parts| - 1]| - 1] == '\n'
    decreases |parts|
  {
    if |parts| > 1 {
      var rest := Join("\n", parts[1..]);
      var last := parts[|parts| - 1];
      LastPieceEnds(rest, parts[1..]);
      assert s == parts[0] + "\n" + rest;
      assert s[|s| - |rest|..] == rest;
      EndsWithTransitive(s, rest, last);
      if |parts| == 2 {
        assert s[|s| - |last| - 1] == '\n';
      } else {
        assert s[|s| - |last| - 1] == rest[|rest| - |last| - 1];
      }
    }
  }

  /** The `AttributeError` that `data.get` raises on a JSON value that is
      not an object. */
  function NoGetMessage(typeName: Str): Str {
    "'" + typeName + "' object has no attribute 'get'"
  }

  /** `_fetch_with_jina_reader` once the reply is in: a request error
      becomes a `ValueError` naming the URL; otherwise the JSON format
      reads the object's fields with their defaults, falls back to the
      text when the body is not JSON and raises `AttributeError` on any
      other JSON value; streaming keeps the last line, and the rest keep
      the whole text. */
  function ReadReply(url: Str, o: ReaderOptions, reply: Reply): (r: Result<Doc>)
    ensures r.Err? <==> reply.RequestError? || (o.format == "JSON" && reply.json.JsonOther?)
    ensures reply.RequestError? ==> r.error == ValueError("Failed to fetch " + url + " with Jina Reader: " + reply.reason)
    ensures reply.Response? && o.format == "JSON" && reply.json.JsonOther? ==>
      r.error == AttributeError(NoGetMessage(reply.json.typeName))
    ensures r.Ok? && o.format == "JSON" && reply.json.NotJson? ==> r.value == Doc(reply.text, url, [])
    ensures r.Ok? && o.format == "JSON" && reply.json.JsonObject? ==>
      r.value == Doc(reply.json.content.GetOr([]), reply.json.url.GetOr(url), reply.json.title.GetOr([]))
    ensures r.Ok? && !(o.format == "JSON" && reply.json.JsonObject?) ==> r.value.url == url && r.value.title == []
    ensures r.Ok? && o.format != "JSON" && o.streaming ==> r.value.text == LastLine(reply.text)
    ensures r.Ok? && o.format != "JSON" && !o.streaming ==> r.value.text == reply.text
  {
    match reply
    case RequestError(reason) => Err(ValueError("Failed to fetch " + url + " with Jina Reader: " + reason))
    case Response(text, json) =>
      if o.format == "JSON" then
        match json
        case NotJson => Ok(Doc(text, url, ""))
        case JsonObject(content, u, title) => Ok(Doc(content.GetOr(""), u.GetOr(url), title.GetOr("")))
        case JsonOther(typeName) => Err(AttributeError(NoGetMessage(typeName)))
      else if o.streaming then Ok(Doc(LastLine(text), url, ""))
      else Ok(Doc(text, url, ""))
  }

  /** What the component reaches out to: the HTTP GET (URL, headers,
      timeout), the host's user agent and its text cleaner. */
  datatype Environment = Environment(
    get: (Str, seq<(Header, Str)>, int) -> Reply,
    userAgent: Str,
    clean: Str -> Str)

  /** What fetching `url` gives. */
  function Fetch(url: Str, o: ReaderOptions, env: Environment): Result<Doc> {
    ReadReply(url, o, env.get(JinaUrl(url), JinaHeaders(o, env.userAgent), RequestTimeout(o)))
  }

  /** `_fetch_with_jina_reader`: the request goes to `JinaUrl(url)` with
      the built headers and timeout. */
  method FetchWithJina(url: Str, o: ReaderOptions, env: Environment) returns (r: Result<Doc>)
    ensures r == Fetch(url, o, env)
  {
    var jinaUrl := if StartsWith(url, JinaReaderBase) then url else JinaReaderBase + url;
    var headers := BuildHeaders(o, env.userAgent);
    var reply := env.get(jinaUrl, headers, if o.timeout != 0 then o.timeout else DefaultTimeout);
    r := ReadReply(url, o, reply);
  }

  // ---- the URL list ----------------------------------------------------------

  /** `ensure_url` with the URL pattern `valid`, as a function. */
  function EnsureBy(valid: Str -> bool): Str -> Result<Str> {
    u => EnsureUrl(u, valid)
  }

  /** The set of URLs the configured entries normalise to under `norm`:
      blank entries are skipped, each other entry is normalised in turn,
      and the first one that is rejected raises. */
  function NormalizedUrls(raw: seq<Str>, norm: Str -> Result<Str>): Result<set<Str>>
    decreases |raw|
  {
    if raw == [] then Ok({})
    else if IsBlank(raw[0]) then NormalizedUrls(raw[1..], norm)
    else match norm(raw[0])
      case Err(e) => Err(e)
      case Ok(u) =>
        match NormalizedUrls(raw[1..], norm)
        case Err(e) => Err(e)
        case Ok(us) => Ok({u} + us)
  }

  /** The normalisation succeeds exactly when every non-blank entry is
      accepted, and then gives the set of their normal forms; otherwise it
      raises the error of the first rejected entry. */
  lemma {:induction false} NormalizedUrlsSpec(raw: seq<Str>, norm: Str -> Result<Str>)
    ensures var r := NormalizedUrls(raw, norm);
      && (r.Ok? <==> forall i :: 0 <= i < |raw| && !IsBlank(raw[i]) ==> norm(raw[i]).Ok?)
      && (r.Ok? ==> forall u :: u in r.value <==>
            exists i :: 0 <= i < |raw| && !IsBlank(raw[i]) && norm(raw[i]) == Ok(u))
      && (r.Err? ==> exists i :: (0 <= i < |raw| && !IsBlank(raw[i]) && norm(raw[i]) == Err(r.error)
            && forall j :: 0 <= j < i && !IsBlank(raw[j]) ==> norm(raw[j]).Ok?))
    decreases |raw|
  {
    if raw != [] {
      var tail := raw[1..];
      NormalizedUrlsSpec(tail, norm);
      var r := NormalizedUrls(raw, norm);
      var rest := NormalizedUrls(tail, norm);
      assert forall i :: 1 <= i < |raw| ==> raw[i] == tail[i - 1];
      if r.Ok? {
        forall u ensures u in r.value <==> exists i :: 0 <= i < |raw| && !IsBlank(raw[i]) && norm(raw[i]) == Ok(u) {
          if u in rest.value {
            var i :| 0 <= i < |tail| && !IsBlank(tail[i]) && norm(tail[i]) == Ok(u);
            assert raw[i + 1] == tail[i];
          }
        }
      } else if !IsBlank(raw[0]) && norm(raw[0]).Ok? {
        var i :| 0 <= i < |tail| && !IsBlank(tail[i]) && norm(tail[i]) == Err(r.error)
          && forall j :: 0 <= j < i && !IsBlank(tail[j]) ==> norm(tail[j]).Ok?;
        assert raw[i + 1] == tail[i];
      } else if IsBlank(raw[0]) {
        var i :| 0 <= i < |tail| && !IsBlank(tail[i]) && norm(tail[i]) == Err(r.error)
          && forall j :: 0 <= j < i && !IsBlank(tail[j]) ==> norm(tail[j]).Ok?;
        assert raw[i + 1] == tail[i];
      }
    }
  }

  /** A listing of the set `urls` with each member once, in the set's
      iteration order. */
  predicate IsListing(listing: seq<Str>, urls: set<Str>) {
    && (forall i, j :: 0 <= i < j < |listing| ==> listing[i] != listing[j])
    && (forall u :: u in listing ==> u in urls)
    && (forall u :: u in urls ==> u in listing)
  }

  // ---- loading the documents -------------------------------------------------

  const LoadErrorPrefix: Str := "Error loading documents: "
  const NoUrlsMessage: Str := "No valid URLs provided."
  const NoDocumentsMessage: Str := "No documents were successfully loaded from any URL"

  /** Any failure of the load, re-raised as a `ValueError` with the prefix. */
  function LoadError(e: Exception): (r: Exception)
    ensures r.ValueError? && StartsWith(r.msg, LoadErrorPrefix) && EndsWith(r.msg, e.msg)
  {
    var msg := LoadErrorPrefix + e.msg;
    assert msg[..|LoadErrorPrefix|] == LoadErrorPrefix;
    assert msg[|msg| - |e.msg|..] == e.msg;
    ValueError(msg)
  }

  /** Fetching through the reader, as a function of the URL. */
  function FetchBy(o: ReaderOptions, env: Environment): Str -> Result<Doc> {
    u => Fetch(u, o, env)
  }

  /** A fetched document with its text cleaned. */
  function Cleaned(d: Doc, clean: Str -> Str): Doc {
    Doc(clean(d.text), d.url, d.title)
  }

  /** What each URL of the listing contributes: its cleaned document when
      `fetch` succeeds, nothing when it fails. */
  function Outcomes(listing: seq<Str>, fetch: Str -> Result<Doc>, clean: Str -> Str): (r: seq<Option<Doc>>)
    ensures |r| == |listing|
    ensures forall i :: 0 <= i < |r| ==>
      r[i] == if fetch(listing[i]).Ok? then Some(Cleaned(fetch(listing[i]).value, clean)) else None
    decreases |listing|
  {
    if listing == [] then []
    else
      var url := listing[|listing| - 1];
      Outcomes(listing[..|listing| - 1], fetch, clean)
        + [if fetch(url).Ok? then Some(Cleaned(fetch(url).value, clean)) else None]
  }

  /** `fetch_url_contents`: normalise and de-duplicate the URLs, fetch each
      in the set's order `listing`, keep the documents that load, and fail
      on a fetch only while nothing has loaded yet; every failure is
      re-raised through `LoadError`. */
  function LoadDocuments(o: ReaderOptions, env: Environment, raw: seq<Str>, valid: Str -> bool, listing: seq<Str>)
    : Result<seq<Doc>>
  {
    match NormalizedUrls(raw, EnsureBy(valid))
    case Err(e) => Err(LoadError(e))
    case Ok(_) =>
      if listing == [] then Err(LoadError(ValueError(NoUrlsMessage)))
      else if Fetch(listing[0], o, env).Err? then Err(LoadError(Fetch(listing[0], o, env).error))
      else Ok(Somes(Outcomes(listing, FetchBy(o, env), env.clean)))
  }

  /** Once the first URL loads, the documents kept are the cleaned
      documents of the URLs that load, in fetch order, starting with the
      first URL's. */
  lemma {:induction false} KeptDocuments(listing: seq<Str>, fetch: Str -> Result<Doc>, clean: Str -> Str)
    requires listing != [] && fetch(listing[0]).Ok?
    ensures var docs := Somes(Outcomes(listing, fetch, clean));
      && docs != [] && docs[0] == Cleaned(fetch(listing[0]).value, clean)
      && |docs| <= |listing|
      && (forall d :: d in docs <==>
            exists u :: u in listing && fetch(u).Ok? && d == Cleaned(fetch(u).value, clean))
  {
    var outcomes := Outcomes(listing, fetch, clean);
    var docs := Somes(outcomes);
    assert outcomes == [outcomes[0]] + outcomes[1..];
    SomesAppend([outcomes[0]], outcomes[1..]);
    assert Somes([outcomes[0]]) == [outcomes[0].value] by {
      SomesSnoc([], outcomes[0]);
      assert [] + [outcomes[0]] == [outcomes[0]];
    }
    forall d ensures d in docs <==> exists u :: u in listing && fetch(u).Ok? && d == Cleaned(fetch(u).value, clean) {
      SomesMember(outcomes, d);
      KeptMember(listing, fetch, clean, d);
    }
  }

  /** A cleaned document is among the outcomes exactly when some URL of
      the listing loads it. */
  lemma KeptMember(listing: seq<Str>, fetch: Str -> Result<Doc>, clean: Str -> Str, d: Doc)
    ensures Some(d) in Outcomes(listing, fetch, clean) <==>
      exists u :: u in listing && fetch(u).Ok? && d == Cleaned(fetch(u).value, clean)
  {
    var outcomes := Outcomes(listing, fetch, clean);
    if Some(d) in outcomes {
      var i :| 0 <= i < |outcomes| && outcomes[i] == Some(d);
      assert listing[i] in listing;
    }
    if exists u :: u in listing && fetch(u).Ok? && d == Cleaned(fetch(u).value, clean) {
      var u :| u in listing && fetch(u).Ok? && d == Cleaned(fetch(u).value, clean);
      var i :| 0 <= i < |listing| && listing[i] == u;
      assert outcomes[i] == Some(d);
    }
  }

  /** Loading fails exactly when an entry is rejected, when no URL is left
      or when the first URL fetched fails, always with the prefixed
      `ValueError`; otherwise it gives a non-empty list of the cleaned
      documents of the URLs that load. */
  lemma LoadDocumentsSpec(o: ReaderOptions, env: Environment, raw: seq<Str>, valid: Str -> bool, listing: seq<Str>)
    ensures var r := LoadDocuments(o, env, raw, valid, listing);
      && (r.Err? <==> (exists i :: 0 <= i < |raw| && !IsBlank(raw[i]) && EnsureUrl(raw[i], valid).Err?)
                      || listing == [] || Fetch(listing[0], o, env).Err?)
      && (r.Err? ==> r.error.ValueError? && StartsWith(r.error.msg, LoadErrorPrefix))
      && (r.Ok? ==> && r.value != []
                    && r.value[0] == Cleaned(Fetch(listing[0], o, env).value, env.clean)
                    && (forall d :: d in r.value <==>
                          exists u :: u in listing && Fetch(u, o, env).Ok? && d == Cleaned(Fetch(u, o, env).value, env.clean)))
  {
    var norm := EnsureBy(valid);
    NormalizedUrlsSpec(raw, norm);
    assert forall i :: 0 <= i < |raw| ==> norm(raw[i]) == EnsureUrl(raw[i], valid);
    if listing != [] && Fetch(listing[0], o, env).Ok? {
      var fetch := FetchBy(o, env);
      KeptDocuments(listing, fetch, env.clean);
      assert forall u :: fetch(u) == Fetch(u, o, env);
    }
  }

  /** Fetching one more URL keeps its cleaned document when it loads. */
  lemma KeptSnoc(listing: seq<Str>, i: nat, fetch: Str -> Result<Doc>, clean: Str -> Str)
    requires i < |listing|
    ensures Somes(Outcomes(listing[..i + 1], fetch, clean))
      == Somes(Outcomes(listing[..i], fetch, clean))
         + if fetch(listing[i]).Ok? then [Cleaned(fetch(listing[i]).value, clean)] else []
  {
    assert listing[..i + 1][..i] == listing[..i];
    SomesSnoc(Outcomes(listing[..i], fetch, clean), Outcomes(listing[..i + 1], fetch, clean)[i]);
  }

  /** `fetch_url_contents`, the loop: each URL of the set's order
      `listing` is fetched in turn. */
  method FetchUrlContents(o: ReaderOptions, env: Environment, raw: seq<Str>, valid: Str -> bool, listing: seq<Str>)
    returns (r: Result<seq<Doc>>)
    requires NormalizedUrls(raw, EnsureBy(valid)).Ok? ==> IsListing(listing, NormalizedUrls(raw, EnsureBy(valid)).value)
    ensures r == LoadDocuments(o, env, raw, valid, listing)
  {
    var urls := NormalizedUrls(raw, EnsureBy(valid));
    if urls.Err? {
      return Err(LoadError(urls.error));
    }
    if listing == [] {
      return Err(LoadError(ValueError(NoUrlsMessage)));
    }
    ghost var fetch := FetchBy(o, env);
    var docs: seq<Doc> := [];
    for i := 0 to |listing|
      invariant docs == Somes(Outcomes(listing[..i], fetch, env.clean))
      invariant i > 0 ==> fetch(listing[0]).Ok? && docs != []
    {
      var fetched := FetchWithJina(listing[i], o, env);
      assert fetched == fetch(listing[i]);
      KeptSnoc(listing, i, fetch, env.clean);
      match fetched
      case Ok(doc) =>
        docs := docs + [Cleaned(doc, env.clean)];
      case Err(e) =>
        if docs == [] {
          return Err(LoadError(e));
        }
    }
    assert listing[..|listing|] == listing;
    if docs == [] {
      return Err(LoadError(ValueError(NoDocumentsMessage)));
    }
    r := Ok(docs);
  }

  // ---- the message output ----------------------------------------------------

  const DocSeparator: Str := "\n\n---\n\n"

  /** One document's block of the message: its source, title and text. */
  function DocBlock(d: Doc): (r: Str)
    ensures StartsWith(r, "**Source:** " + d.url) && EndsWith(r, d.text)
  {
    var r := "**Source:** " + d.url + "\n**Title:** " + d.title + "\n\n" + d.text;
    assert r[..|"**Source:** " + d.url|] == "**Source:** " + d.url;
    assert r[|r| - |d.text|..] == d.text;
    r
  }

  /** `fetch_content_as_message`: the document blocks joined by a rule. */
  function MessageText(docs: seq<Doc>): Str {
    Join(DocSeparator, seq(|docs|, i requires 0 <= i < |docs| => DocBlock(docs[i])))
  }

  /** The message starts with the first document's block, ends with the
      last document's text, and is exactly the block for one document. */
  lemma {:induction false} MessageTextSpec(docs: seq<Doc>)
    requires docs != []
    ensures StartsWith(MessageText(docs), DocBlock(docs[0]))
    ensures EndsWith(MessageText(docs), docs[|docs| - 1].text)
    ensures |docs| == 1 ==> MessageText(docs) == DocBlock(docs[0])
    decreases |docs|
  {
    var blocks := seq(|docs|, i requires 0 <= i < |docs| => DocBlock(docs[i]));
    if |docs| > 1 {
      MessageTextSpec(docs[1..]);
      var rest := MessageText(docs[1..]);
      assert blocks[1..] == seq(|docs[1..]|, i requires 0 <= i < |docs[1..]| => DocBlock(docs[1..][i]));
      var m := MessageText(docs);
      assert m == blocks[0] + DocSeparator + rest;
      assert m[..|blocks[0]|] == blocks[0];
      assert m[|m| - |rest|..] == rest;
      EndsWithTransitive(m, rest, docs[|docs| - 1].text);
    }
  }
}
