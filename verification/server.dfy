/** The query front door of core/src/server.rs: one request per connection, a
    request line split on single spaces, GET only, a path split into non-empty
    segments and dispatched on a fixed route table, and responses written to the
    connection as a status line, headers and a JSON array body.

    The usage cache behind the routes is an input: the outcome of taking its read
    lock, and, when that succeeds, the container names and one downsampled series of
    rendered points per container and kind. */
module Server {
  import opened Wrappers
  import opened Text

  // ---------------------------------------------------------------------------
  // errors and the cache the routes read

  /** `error::Error` as the server produces it: every failure here is an
      `OtherError` carrying a message. */
  datatype Error = OtherError(message: string)

  /** A C0 or C1 control character other than the ones with a name of their own:
      `{:?}` writes it as `\u{..}`. */
  predicate IsControl(c: char) {
    c < ' ' || ('\U{7f}' <= c <= '\U{9f}')
  }

  /** Lower-case hexadecimal digits of `n`, without leading zeros. */
  function Hex(n: nat): (r: string)
    ensures |r| >= 1
  {
    var d := n % 16;
    var digit := if d < 10 then ('0' as int + d) as char else ('a' as int + d - 10) as char;
    if n < 16 then [digit] else Hex(n / 16) + [digit]
  }

  /** Rust's `{:?}` escaping inside a string literal: quote and backslash get a
      backslash, the four named controls their short form, and the other control
      characters a `\u{..}` with their code point in hexadecimal. */
  function EscapeDebug(s: string): (r: string)
    ensures |r| >= |s|
  {
    if s == [] then ""
    else
      var c := s[0];
      var e := if c == '"' then "\\\"" else if c == '\\' then "\\\\"
        else if c == '\n' then "\\n" else if c == '\r' then "\\r"
        else if c == '\t' then "\\t" else if c == '\0' then "\\0"
        else if IsControl(c) then "\\u{" + Hex(c as int) + "}"
        else [c];
      e + EscapeDebug(s[1..])
  }

  /** `e.to_string()`: the `Display` of `error::Error` prints its `Debug` form. */
  function ErrorText(e: Error): string {
    "OtherError(\"" + EscapeDebug(e.message) + "\")"
  }

  /** The series the routes can serve. */
  datatype Series = Cpu | Memory | IoRead | IoWrite | NetRecv | NetSend

  /** What the routes read once the lock is held: `lock.cpu.container_names()`, and
      `downsample(name, option, f)` of each kind rendered with `to_string`, `None`
      for a container the cache does not know. */
  datatype Cache = Cache(names: seq<string>, points: (Series, string) -> Option<seq<string>>)

  /** `log_cache.read()`: the cache, or the message of a poisoned lock. */
  type Lock = Result<Cache, string>

  // ---------------------------------------------------------------------------
  // the request line

  datatype Request = Request(httpMethod: string, uri: string, httpVersion: string)

  const NoFirstLine := "cannot find first line of request data"
  const BadFirstLine := "invalid format in the first line of reqest"

  /** `Request::try_from`: the first line of the request split on ' ' must have
      exactly three parts: method, uri and version. */
  function ParseRequest(data: string): (r: Result<Request, Error>)
    ensures Lines(data) == [] ==> r == Err(OtherError(NoFirstLine))
    ensures Lines(data) != [] ==>
      (r.Ok? <==> |Split(Lines(data)[0], ' ')| == 3)
    ensures r.Ok? ==> [r.value.httpMethod, r.value.uri, r.value.httpVersion] == Split(Lines(data)[0], ' ')
    ensures r.Err? && Lines(data) != [] ==> r.error == OtherError(BadFirstLine)
  {
    var lines := Lines(data);
    if |lines| == 0 then Err(OtherError(NoFirstLine))
    else
      var parts := Split(lines[0], ' ');
      if |parts| == 3 then Ok(Request(parts[0], parts[1], parts[2]))
      else Err(OtherError(BadFirstLine))
  }

  /** `uri.split('/').filter(|s| !s.is_empty())`. */
  function Segments(uri: string): (parts: seq<string>)
    ensures forall i :: 0 <= i < |parts| ==> parts[i] != "" && '/' !in parts[i]
  {
    NonEmptyParts(Split(uri, '/'));
    NonEmpty(Split(uri, '/'))
  }

  // ---------------------------------------------------------------------------
  // responses

  datatype StatusCode = Ok200 | MethodNotAllowed405 | InternalServerError500 | NotFound404

  /** The writes a handler makes and what it returns. */
  datatype Outcome<R> = Outcome(result: Result<R, Error>, writes: seq<string>)

  const MethodNotAllowedResponse := "HTTP/1.1 405 MethodNotAllowed\r\n\r\n"
  const NotFoundResponse := "HTTP/1.1 404 NotFound\r\n\r\n"

  function ErrorResponse(e: Error): string {
    "HTTP/1.1 500 InternalError\r\n\r\n " + ErrorText(e)
  }

  /** The header of `/containers`. */
  function ContainersHeader(length: nat): string {
    "HTTP/1.1 200 OK\r\nConnection: close\r\nContent-Type: application/json\r\nContent-Length: "
      + NatToString(length) + "\r\n\r\n"
  }

  /** The header of a usage series: cpu, memory and io close the connection after the
      length, net does not say so. */
  function UsageHeader(length: nat, closes: bool): string {
    "HTTP/1.1 200 OK\r\nContent-Type: application/json\r\nContent-Length: " + NatToString(length)
      + (if closes then "\r\nConnection: close\r\n\r\n" else "\r\n\r\n")
  }

  /** `"[" + items.join(",") + "]"`. */
  function JsonArray(items: seq<string>): (body: string)
    ensures |body| >= 2 && body[0] == '[' && body[|body| - 1] == ']'
  {
    "[" + Join(items, ",") + "]"
  }

  function Quote(s: string): string {
    "\"" + s + "\""
  }

  function Quoted(names: seq<string>): (r: seq<string>)
    ensures |r| == |names|
    ensures forall i :: 0 <= i < |names| ==> r[i] == Quote(names[i])
  {
    seq(|names|, i requires 0 <= i < |names| => Quote(names[i]))
  }

  /** The `/containers` body: the names in quotes, comma-separated, in brackets. */
  function ContainersJson(names: seq<string>): string {
    JsonArray(Quoted(names))
  }

  /** `data_to_json`: the rendered points, comma-separated, in brackets. */
  function DataToJson(points: seq<string>): string {
    JsonArray(points)
  }

  // ---------------------------------------------------------------------------
  // routes

  /** The four routes and the fallback of the `match` in `handle_connection`. A
      usage route carries the series its last segment selects (`None` for one the
      route does not know) and whether its header says `Connection: close`. */
  datatype Route = ListContainers | Usage(name: string, series: Option<Series>, closes: bool) | Unmatched

  function CpuOrMemory(resource: string): Option<Series> {
    if resource == "cpu" then Some(Cpu) else if resource == "memory" then Some(Memory) else None
  }

  function IoSeries(readOrWrite: string): Option<Series> {
    if readOrWrite == "read" then Some(IoRead) else if readOrWrite == "write" then Some(IoWrite) else None
  }

  function NetSeries(recvOrSend: string): Option<Series> {
    if recvOrSend == "recv" then Some(NetRecv) else if recvOrSend == "send" then Some(NetSend) else None
  }

  /** The route table. */
  function RouteOf(parts: seq<string>): Route {
    if |parts| == 1 && parts[0] == "containers" then ListContainers
    else if |parts| == 3 && parts[0] == "containers" then Usage(parts[1], CpuOrMemory(parts[2]), true)
    else if |parts| == 4 && parts[0] == "containers" && parts[2] == "io" then Usage(parts[1], IoSeries(parts[3]), true)
    else if |parts| == 4 && parts[0] == "containers" && parts[2] == "net" then Usage(parts[1], NetSeries(parts[3]), false)
    else Unmatched
  }

  /** `route_containers`. */
  function ContainersRoute(lock: Lock): (o: Outcome<StatusCode>) {
    match lock
    case Err(m) => Outcome(Err(OtherError(m)), [])
    case Ok(cache) =>
      var body := ContainersJson(cache.names);
      Outcome(Ok(Ok200), [ContainersHeader(Utf8Length(body)), body])
  }

  /** `route_cpu_or_memory_usage`, `route_io_usage` and `route_net_usage`: the lock is
      taken first; an unknown series or container is `NotFound` with nothing written. */
  function UsageRoute(lock: Lock, name: string, series: Option<Series>, closes: bool): (o: Outcome<StatusCode>) {
    match lock
    case Err(m) => Outcome(Err(OtherError(m)), [])
    case Ok(cache) =>
      match series
      case None => Outcome(Ok(NotFound404), [])
      case Some(s) =>
        match cache.points(s, name)
        case None => Outcome(Ok(NotFound404), [])
        case Some(points) =>
          var body := DataToJson(points);
          Outcome(Ok(Ok200), [UsageHeader(Utf8Length(body), closes), body])
  }

  /** `route_not_found`: writes the 404 and reports `NotFound`. */
  function NotFoundRoute(): (o: Outcome<StatusCode>) {
    Outcome(Ok(NotFound404), [NotFoundResponse])
  }

  /** The `match &parts[..]` of `handle_connection`. */
  function Dispatch(lock: Lock, parts: seq<string>): (o: Outcome<StatusCode>) {
    match RouteOf(parts)
    case ListContainers => ContainersRoute(lock)
    case Usage(name, series, closes) => UsageRoute(lock, name, series, closes)
    case Unmatched => NotFoundRoute()
  }

  /** What `handle_connection` writes after the route has run: a 404 for a reported
      `NotFound`, a 500 carrying the error text for an error, nothing otherwise. */
  function Answer(result: Result<StatusCode, Error>): seq<string> {
    match result
    case Ok(NotFound404) => [NotFoundResponse]
    case Err(e) => [ErrorResponse(e)]
    case Ok(_) => []
  }

  /** A parsed request: any method but GET gets the 405 and no route runs; otherwise
      the route runs and is answered. */
  function Respond(lock: Lock, request: Request): (o: Outcome<()>) {
    if request.httpMethod != "GET" then Outcome(Ok(()), [MethodNotAllowedResponse])
    else
      var routed := Dispatch(lock, Segments(request.uri));
      Outcome(Ok(()), routed.writes + Answer(routed.result))
  }

  /** `handle_connection` after the read: a bad request line is the error it returns,
      with nothing written. */
  function Handle(lock: Lock, data: string): (o: Outcome<()>) {
    match ParseRequest(data)
    case Err(e) => Outcome(Err(e), [])
    case Ok(request) => Respond(lock, request)
  }

  // ---------------------------------------------------------------------------
  // the time string

  /** `s.replace(c, "")`. */
  function Remove(s: string, c: char): (r: string)
    ensures c !in r
    ensures |r| <= |s|
  {
    if s == [] then "" else (if s[0] == c then "" else [s[0]]) + Remove(s[1..], c)
  }

  /** The shape checks of `limited_convert_time_string_to_f32`: exactly two parts
      around 'T', the second exactly three around ':'; the result is hours, minutes
      and seconds (every 'Z' removed) as text. */
  function TimeFields(time: string): (r: Result<(string, string, string), Error>)
    ensures r.Ok? <==> |Split(time, 'T')| == 2 && |Split(Split(time, 'T')[1], ':')| == 3
    ensures r.Err? ==> r.error == OtherError("invalid time format")
  {
    var halves := Split(time, 'T');
    if |halves| == 2 then
      var hms := Split(halves[1], ':');
      if |hms| == 3 then Ok((hms[0], hms[1], Remove(hms[2], 'Z')))
      else Err(OtherError("invalid time format"))
    else Err(OtherError("invalid time format"))
  }

  // ---------------------------------------------------------------------------
  // the connection, written step by step

  /** The connection's output: every `write` in order. */
  class Stream {
    var written: seq<string>

    constructor ()
      ensures written == []
    {
      written := [];
    }

    method Write(s: string)
      modifies this
      ensures written == old(written) + [s]
    {
      written := written + [s];
    }
  }

  method HandleMethodNotAllowed(stream: Stream) returns (r: Result<StatusCode, Error>)
    modifies stream
    ensures stream.written == old(stream.written) + [MethodNotAllowedResponse]
    ensures r == Ok(MethodNotAllowed405)
  {
    stream.Write(MethodNotAllowedResponse);
    r := Ok(MethodNotAllowed405);
  }

  method HandleGenericError(stream: Stream, e: Error) returns (r: Result<StatusCode, Error>)
    modifies stream
    ensures stream.written == old(stream.written) + [ErrorResponse(e)]
    ensures r == Ok(InternalServerError500)
  {
    stream.Write(ErrorResponse(e));
    r := Ok(InternalServerError500);
  }

  method RouteNotFound(stream: Stream) returns (r: Result<StatusCode, Error>)
    modifies stream
    ensures stream.written == old(stream.written) + NotFoundRoute().writes
    ensures r == NotFoundRoute().result
  {
    stream.Write(NotFoundResponse);
    r := Ok(NotFound404);
  }

  method RouteContainers(stream: Stream, lock: Lock) returns (r: Result<StatusCode, Error>)
    modifies stream
    ensures stream.written == old(stream.written) + ContainersRoute(lock).writes
    ensures r == ContainersRoute(lock).result
  {
    if lock.Err? {
      return Err(OtherError(lock.error));
    }
    var body := ContainersJson(lock.value.names);
    stream.Write(ContainersHeader(Utf8Length(body)));
    stream.Write(body);
    r := Ok(Ok200);
  }

  /** The three usage routes share one body; `series` is what their `match` on the
      last segment selects. */
  method RouteUsage(stream: Stream, lock: Lock, name: string, series: Option<Series>, closes: bool)
    returns (r: Result<StatusCode, Error>)
    modifies stream
    ensures stream.written == old(stream.written) + UsageRoute(lock, name, series, closes).writes
    ensures r == UsageRoute(lock, name, series, closes).result
  {
    if lock.Err? {
      return Err(OtherError(lock.error));
    }
    var data: Option<string> := None;
    if series.Some? {
      var points := lock.value.points(series.value, name);
      if points.Some? {
        data := Some(DataToJson(points.value));
      }
    }
    if data.Some? {
      var body := data.value;
      stream.Write(UsageHeader(Utf8Length(body), closes));
      stream.Write(body);
      return Ok(Ok200);
    }
    r := Ok(NotFound404);
  }

  /** `handle_connection` on the decoded request text. */
  method HandleConnection(stream: Stream, lock: Lock, data: string) returns (r: Result<(), Error>)
    modifies stream
    ensures stream.written == old(stream.written) + Handle(lock, data).writes
    ensures r == Handle(lock, data).result
  {
    var request := ParseRequest(data);
    if request.Err? {
      return Err(request.error);
    }
    r := RespondTo(stream, lock, request.value);
  }

  method RespondTo(stream: Stream, lock: Lock, request: Request) returns (r: Result<(), Error>)
    modifies stream
    ensures stream.written == old(stream.written) + Respond(lock, request).writes
    ensures r == Respond(lock, request).result
  {
    if request.httpMethod != "GET" {
      var _ := HandleMethodNotAllowed(stream);
      return Ok(());
    }
    ghost var before := stream.written;
    var result := RunRoute(stream, lock, Segments(request.uri));
    ghost var routed := stream.written;
    AnswerResult(stream, result);
    AppendAssoc(before, routed[|before|..], Answer(result));
    r := Ok(());
  }

  /** The `match &parts[..]` of `handle_connection`. */
  method RunRoute(stream: Stream, lock: Lock, parts: seq<string>) returns (r: Result<StatusCode, Error>)
    modifies stream
    ensures stream.written == old(stream.written) + Dispatch(lock, parts).writes
    ensures r == Dispatch(lock, parts).result
  {
    match RouteOf(parts) {
      case ListContainers =>
        r := RouteContainers(stream, lock);
      case Usage(name, series, closes) =>
        r := RouteUsage(stream, lock, name, series, closes);
      case Unmatched =>
        r := RouteNotFound(stream);
    }
  }

  /** The closing `match result` of `handle_connection`. */
  method AnswerResult(stream: Stream, result: Result<StatusCode, Error>)
    modifies stream
    ensures stream.written == old(stream.written) + Answer(result)
  {
    if result == Ok(NotFound404) {
      var _ := RouteNotFound(stream);
    } else if result.Err? {
      var _ := HandleGenericError(stream, result.error);
    }
  }

  // ---------------------------------------------------------------------------
  // properties

  lemma AppendAssoc<T>(a: seq<T>, b: seq<T>, c: seq<T>)
    ensures (a + b) + c == a + (b + c)
  {
  }

  lemma Join2(a: string, b: string, sep: string)
    ensures Join([a, b], sep) == a + sep + b
  {
    assert [a, b][1..] == [b];
  }

  lemma Join3(a: string, b: string, c: string, sep: string)
    ensures Join([a, b, c], sep) == a + sep + b + sep + c
  {
    assert [a, b, c][1..] == [b, c];
    Join2(b, c, sep);
    assert a + sep + (b + sep + c) == a + sep + b + sep + c;
  }

  /** A request line `method uri version`, ended by "\r\n", parses into its three
      parts whatever follows it. */
  lemma RequestLineRoundTrip(m: string, u: string, v: string, rest: string)
    requires forall c :: c in m + u + v ==> c != ' ' && c != '\n' && c != '\r'
    ensures ParseRequest(m + " " + u + " " + v + "\r\n" + rest) == Ok(Request(m, u, v))
  {
    var line := m + " " + u + " " + v;
    assert forall c :: c in m ==> c in m + u + v;
    assert forall c :: c in u ==> c in m + u + v;
    assert forall c :: c in v ==> c in m + u + v;
    assert '\n' !in line;
    FirstLine(line + "\r", rest);
    assert m + " " + u + " " + v + "\r\n" + rest == line + "\r" + "\n" + rest;
    assert StripCR(line + "\r") == line;
    Join3(m, u, v, " ");
    SplitJoin([m, u, v], ' ');
  }

  /** The first line of `l + "\n" + rest` is `l` without a final '\r'. */
  lemma FirstLine(l: string, rest: string)
    requires '\n' !in l
    ensures Lines(l + "\n" + rest) != [] && Lines(l + "\n" + rest)[0] == StripCR(l)
  {
    var s := l + "\n" + rest;
    assert s[|l|] == '\n';
    assert forall j :: 0 <= j < |l| ==> s[j] == l[j];
    var i := IndexOf(s, '\n');
    assert i == |l|;
    assert s[..i] == l;
  }

  /** A trailing or a leading '/' does not change the segments, so "/containers/"
      and "/containers" route the same. */
  lemma SegmentsIgnoreSlashes(uri: string)
    ensures Segments(uri + "/") == Segments(uri)
    ensures Segments("/" + uri) == Segments(uri)
  {
    SplitAppendSep(uri, '/');
    NonEmptyAppendEmpty(Split(uri, '/'));
    assert ("/" + uri)[1..] == uri;
  }

  lemma {:induction false} SplitAppendSep(s: string, c: char)
    ensures Split(s + [c], c) == Split(s, c) + [""]
    decreases |s|
  {
    if s == [] {
      assert [c][1..] == [];
    } else {
      assert (s + [c])[1..] == s[1..] + [c];
      SplitAppendSep(s[1..], c);
    }
  }

  lemma {:induction false} NonEmptyAppendEmpty(parts: seq<string>)
    ensures NonEmpty(parts + [""]) == NonEmpty(parts)
  {
    if parts == [] {
      assert NonEmpty([""]) == NonEmpty([]);
    } else {
      assert (parts + [""])[1..] == parts[1..] + [""];
      NonEmptyAppendEmpty(parts[1..]);
    }
  }

  /** A request line that does not split into three parts is the error
      `handle_connection` returns, and nothing is written. */
  lemma BadRequestLineWritesNothing(lock: Lock, data: string)
    requires Lines(data) == [] || |Split(Lines(data)[0], ' ')| != 3
    ensures Handle(lock, data).writes == []
    ensures Handle(lock, data).result.Err?
    ensures Handle(lock, data).result.error
            == OtherError(if Lines(data) == [] then NoFirstLine else BadFirstLine)
  {
  }

  /** Any method but GET is answered with the 405 alone, whatever the cache holds:
      no route is consulted. */
  lemma NotGetIsNotAllowed(lock: Lock, other: Lock, data: string)
    requires ParseRequest(data).Ok? && ParseRequest(data).value.httpMethod != "GET"
    ensures Handle(lock, data) == Outcome(Ok(()), [MethodNotAllowedResponse])
    ensures Handle(lock, data) == Handle(other, data)
  {
  }

  /** A GET for a path of none of the route shapes writes the 404 twice: once in
      `route_not_found`, once more for the `NotFound` it reports. */
  lemma UnmatchedNotFoundTwice(lock: Lock, data: string)
    requires ParseRequest(data).Ok? && ParseRequest(data).value.httpMethod == "GET"
    requires var parts := Segments(ParseRequest(data).value.uri);
      && !(|parts| == 1 && parts[0] == "containers")
      && !(|parts| == 3 && parts[0] == "containers")
      && !(|parts| == 4 && parts[0] == "containers" && (parts[2] == "io" || parts[2] == "net"))
    ensures Handle(lock, data) == Outcome(Ok(()), [NotFoundResponse, NotFoundResponse])
  {
  }

  /** An unknown resource type, io subtype or net subtype is answered with one 404. */
  lemma UnknownResourceNotFound(cache: Cache, data: string, name: string, kind: string)
    requires ParseRequest(data).Ok? && ParseRequest(data).value.httpMethod == "GET"
    requires var parts := Segments(ParseRequest(data).value.uri);
      || (parts == ["containers", name, kind] && kind != "cpu" && kind != "memory")
      || (parts == ["containers", name, "io", kind] && kind != "read" && kind != "write")
      || (parts == ["containers", name, "net", kind] && kind != "recv" && kind != "send")
    ensures Handle(Ok(cache), data) == Outcome(Ok(()), [NotFoundResponse])
  {
    var parts := Segments(ParseRequest(data).value.uri);
    if parts == ["containers", name, kind] {
      assert RouteOf(parts) == Usage(name, None, true);
    } else if parts == ["containers", name, "io", kind] {
      assert RouteOf(parts) == Usage(name, None, true);
    } else {
      assert RouteOf(parts) == Usage(name, None, false);
    }
    NoSeriesNotFound(cache, data);
  }

  lemma NoSeriesNotFound(cache: Cache, data: string)
    requires ParseRequest(data).Ok? && ParseRequest(data).value.httpMethod == "GET"
    requires var route := RouteOf(Segments(ParseRequest(data).value.uri));
      route.Usage? && route.series.None?
    ensures Handle(Ok(cache), data) == Outcome(Ok(()), [NotFoundResponse])
  {
  }

  /** A series route for a container the cache does not know is answered with one 404. */
  lemma UnknownContainerNotFound(cache: Cache, data: string, name: string, s: Series, closes: bool)
    requires ParseRequest(data).Ok? && ParseRequest(data).value.httpMethod == "GET"
    requires RouteOf(Segments(ParseRequest(data).value.uri)) == Usage(name, Some(s), closes)
    requires cache.points(s, name).None?
    ensures Handle(Ok(cache), data) == Outcome(Ok(()), [NotFoundResponse])
  {
  }

  /** When the lock cannot be taken, every route answers with a 500 whose body carries
      the error text. */
  lemma LockErrorIsInternalError(message: string, data: string)
    requires ParseRequest(data).Ok? && ParseRequest(data).value.httpMethod == "GET"
    requires RouteOf(Segments(ParseRequest(data).value.uri)) != Unmatched
    ensures Handle(Err(message), data)
            == Outcome(Ok(()), [ErrorResponse(OtherError(message))])
  {
  }

  /** `/containers` writes its header, whose Content-Length is the body's length in
      bytes, then the body. */
  lemma ContainersWritesHeaderThenBody(cache: Cache, data: string)
    requires ParseRequest(data).Ok? && ParseRequest(data).value.httpMethod == "GET"
    requires RouteOf(Segments(ParseRequest(data).value.uri)) == ListContainers
    ensures var body := ContainersJson(cache.names);
      Handle(Ok(cache), data) == Outcome(Ok(()), [ContainersHeader(Utf8Length(body)), body])
  {
  }

  /** A series the cache holds is written as its header, whose Content-Length is the
      body's length in bytes, then the body. */
  lemma UsageWritesHeaderThenBody(cache: Cache, data: string, name: string, s: Series, closes: bool)
    requires ParseRequest(data).Ok? && ParseRequest(data).value.httpMethod == "GET"
    requires RouteOf(Segments(ParseRequest(data).value.uri)) == Usage(name, Some(s), closes)
    requires cache.points(s, name).Some?
    ensures var body := DataToJson(cache.points(s, name).value);
      Handle(Ok(cache), data) == Outcome(Ok(()), [UsageHeader(Utf8Length(body), closes), body])
  {
  }

  /** The array body splits back into its items between the brackets. */
  lemma JsonArrayItems(items: seq<string>)
    requires |items| >= 1
    requires forall i :: 0 <= i < |items| ==> ',' !in items[i]
    ensures var body := JsonArray(items);
      Split(body[1..|body| - 1], ',') == items
  {
    var body := JsonArray(items);
    assert body[1..|body| - 1] == Join(items, [',']);
    SplitJoin(items, ',');
  }

  /** The `/containers` body lists the names, each in quotes, in order; with no
      container it is `[]`. */
  lemma ContainersJsonNames(names: seq<string>)
    requires forall i :: 0 <= i < |names| ==> ',' !in names[i]
    ensures var body := ContainersJson(names);
      && (names == [] ==> body == "[]")
      && (names != [] ==>
            var items := Split(body[1..|body| - 1], ',');
            |items| == |names| && forall i :: 0 <= i < |names| ==> items[i] == "\"" + names[i] + "\"")
  {
    if names != [] {
      var quoted := Quoted(names);
      forall i | 0 <= i < |quoted|
        ensures ',' !in quoted[i]
      {
        assert quoted[i] == "\"" + names[i] + "\"";
      }
      JsonArrayItems(quoted);
    }
  }

  /** A time string `<date>T<h>:<m>:<s>` yields its three fields, the seconds with
      every 'Z' removed. */
  lemma TimeFieldsRoundTrip(date: string, h: string, m: string, s: string)
    requires 'T' !in date && 'T' !in h && 'T' !in m && 'T' !in s
    requires ':' !in h && ':' !in m && ':' !in s
    ensures TimeFields(date + "T" + h + ":" + m + ":" + s) == Ok((h, m, Remove(s, 'Z')))
  {
    var hms := h + ":" + m + ":" + s;
    Join3(h, m, s, ":");
    SplitJoin([h, m, s], ':');
    assert 'T' !in hms;
    RegroupTime(date, h, m, s);
    TimeFieldsOfHalves(date, hms);
  }

  lemma RegroupTime(date: string, h: string, m: string, s: string)
    ensures date + "T" + h + ":" + m + ":" + s == date + "T" + (h + ":" + m + ":" + s)
  {
  }

  lemma TimeFieldsOfHalves(date: string, hms: string)
    requires 'T' !in date && 'T' !in hms
    ensures Split(date + "T" + hms, 'T') == [date, hms]
  {
    Join2(date, hms, "T");
    SplitJoin([date, hms], 'T');
  }

  /** Text without quotes, backslashes or control characters is printed as it
      is. */
  lemma {:induction false} EscapeDebugPlain(s: string)
    requires forall i :: 0 <= i < |s| ==> s[i] !in "\"\\\n\r\t\0" && !IsControl(s[i])
    ensures EscapeDebug(s) == s
  {
    if s != [] {
      EscapeDebugPlain(s[1..]);
      assert [s[0]] + s[1..] == s;
    }
  }

  /** Removing a character that does not occur changes nothing. */
  lemma {:induction false} RemoveAbsent(s: string, c: char)
    requires c !in s
    ensures Remove(s, c) == s
  {
    if s != [] {
      RemoveAbsent(s[1..], c);
      assert [s[0]] + s[1..] == s;
    }
  }

  lemma {:induction false} NonEmptyParts(parts: seq<string>)
    ensures forall i :: 0 <= i < |NonEmpty(parts)| ==> NonEmpty(parts)[i] in parts
  {
    if parts != [] {
      NonEmptyParts(parts[1..]);
    }
  }
}
