/** http_parser.py: request parsing, header injection and serialisation, and the scans of a
    response's header section. */
module Http {
  import opened Wrappers
  import opened Bytes
  import opened PyInt

  // ---------- Values ----------

  datatype Header = Header(name: string, value: string)

  /** A parsed request; the header dictionary keeps its insertion order. */
  datatype Request = Request(verb: string, path: string, version: string,
                             headers: seq<Header>, body: string)

  /** The position of a key in the dictionary, or -1. */
  function IndexOf(hs: seq<Header>, name: string): (i: int)
    ensures -1 <= i < |hs|
    ensures i == -1 ==> forall j :: 0 <= j < |hs| ==> hs[j].name != name
    ensures i != -1 ==> hs[i].name == name
  {
    if hs == [] then -1
    else if hs[|hs| - 1].name == name then |hs| - 1
    else IndexOf(hs[..|hs| - 1], name)
  }

  /** `headers[name] = value`: replaces in place, or appends. */
  function Put(hs: seq<Header>, name: string, value: string): seq<Header> {
    var i := IndexOf(hs, name);
    if i == -1 then hs + [Header(name, value)] else hs[i := Header(name, value)]
  }

  /** The position of the first key equal to `name` up to case, or -1. */
  function FirstNamed(hs: seq<Header>, name: string): (i: int)
    ensures -1 <= i < |hs|
    ensures i == -1 ==> forall j :: 0 <= j < |hs| ==> Lower(hs[j].name) != name
    ensures i != -1 ==> Lower(hs[i].name) == name
    ensures i != -1 ==> forall j :: 0 <= j < i ==> Lower(hs[j].name) != name
  {
    if hs == [] then -1
    else
      var i := FirstNamed(hs[..|hs| - 1], name);
      if i != -1 then i
      else if Lower(hs[|hs| - 1].name) == name then |hs| - 1
      else -1
  }

  function IntOrZero(value: string): int {
    match ParseInt(value, 10)
    case Some(n) => n
    case None => 0
  }

  /** get_content_length: the request's Content-Length; 0 when absent or not a number. */
  function ContentLength(hs: seq<Header>): int {
    var i := FirstNamed(hs, "content-length");
    if i == -1 then 0 else IntOrZero(hs[i].value)
  }

  /** One header line into the dictionary; a line without a colon is skipped. */
  function AddLine(hs: seq<Header>, line: string): seq<Header> {
    var k := Find(line, ":", 0);
    if k == -1 then hs else Put(hs, Strip(line[..k]), Strip(line[k + 1..]))
  }

  function ParseHeaders(lines: seq<string>): seq<Header> {
    if lines == [] then [] else AddLine(ParseHeaders(lines[..|lines| - 1]), lines[|lines| - 1])
  }

  /** `line.split(" ", 2)`, when it yields three parts. */
  function RequestLine(line: string): Option<(string, string, string)> {
    var a := Find(line, " ", 0);
    if a == -1 then None
    else
      var rest := line[a + 1..];
      var b := Find(rest, " ", 0);
      if b == -1 then None else Some((line[..a], rest[..b], rest[b + 1..]))
  }

  /** try_parse_request. */
  function ParseRequest(buf: string): Option<Request> {
    var h := Find(buf, DELIM, 0);
    if h == -1 then None
    else
      var lines := Split(buf[..h]);
      match RequestLine(lines[0])
      case None => None
      case Some(parts) =>
        var headers := ParseHeaders(lines[1..]);
        var needed := h + |DELIM| + ContentLength(headers);
        if |buf| < needed then None
        else Some(Request(parts.0, parts.1, parts.2, headers, PySlice(buf, h + |DELIM|, needed)))
  }

  const FORWARDED_FOR := "X-Forwarded-For"

  /** inject_forwarded_for. */
  function InjectHeaders(hs: seq<Header>, ip: string): seq<Header> {
    var i := FirstNamed(hs, "x-forwarded-for");
    if i == -1 then Put(hs, FORWARDED_FOR, ip)
    else hs[i := Header(hs[i].name, hs[i].value + ", " + ip)]
  }

  function Inject(r: Request, ip: string): Request {
    r.(headers := InjectHeaders(r.headers, ip))
  }

  function FirstLine(r: Request): string {
    r.verb + " " + (r.path + " " + r.version)
  }

  function HeaderLine(h: Header): string {
    h.name + ":" + (" " + h.value)
  }

  function HeaderLines(hs: seq<Header>): seq<string> {
    seq(|hs|, i requires 0 <= i < |hs| => HeaderLine(hs[i]))
  }

  /** The head of a message: its lines, and the blank line behind them. */
  function HeadText(first: string, lines: seq<string>): string {
    Join([first] + lines) + "\r\n\r\n"
  }

  function Head(r: Request): string {
    HeadText(FirstLine(r), HeaderLines(r.headers))
  }

  /** serialise_request. */
  function Serialise(r: Request): string {
    Head(r) + r.body
  }

  // ---------- The response header section ----------

  /** The value of the first line whose field name is `name` up to case. */
  function FieldValue(lines: seq<string>, name: string): Option<string> {
    if lines == [] then None
    else
      var k := Find(lines[0], ":", 0);
      if k != -1 && Lower(Strip(lines[0][..k])) == name then Some(Strip(lines[0][k + 1..]))
      else FieldValue(lines[1..], name)
  }

  /** The lines behind the status line, once the header section is complete. */
  function ResponseLines(buf: string): Option<seq<string>> {
    var h := Find(buf, DELIM, 0);
    if h == -1 then None else Some(Split(buf[..h])[1..])
  }

  const HEADERS_INCOMPLETE := -1
  const CONTENT_LENGTH_ABSENT := -2

  /** get_response_content_length. */
  function ResponseContentLength(buf: string): int {
    match ResponseLines(buf)
    case None => HEADERS_INCOMPLETE
    case Some(lines) =>
      match FieldValue(lines, "content-length")
      case None => CONTENT_LENGTH_ABSENT
      case Some(v) => IntOrZero(v)
  }

  /** `text.split(",")`. */
  function SplitCommas(t: string): seq<string>
    decreases |t|
  {
    var k := Find(t, ",", 0);
    if k == -1 then [t] else [t[..k]] + SplitCommas(t[k + 1..])
  }

  predicate ListsChunked(value: string) {
    var codings := SplitCommas(Lower(value));
    exists i :: 0 <= i < |codings| && Strip(codings[i]) == "chunked"
  }

  /** is_chunked_response; `None` while the headers are incomplete. */
  function IsChunked(buf: string): Option<bool> {
    match ResponseLines(buf)
    case None => None
    case Some(lines) =>
      match FieldValue(lines, "transfer-encoding")
      case None => Some(false)
      case Some(v) => Some(ListsChunked(v))
  }

  // ---------- The parser's methods ----------

  /** The mutable request object handed from the parser to the connection. */
  class HttpRequest {
    var verb: string
    var path: string
    var version: string
    var headers: seq<Header>
    var body: string

    constructor ()
      ensures Value() == Request("", "", "", [], "")
    {
      verb, path, version, headers, body := "", "", "", [], "";
    }

    function Value(): Request
      reads this
    {
      Request(verb, path, version, headers, body)
    }
  }

  method TryParseRequest(buf: string) returns (req: HttpRequest?)
    ensures req == null <==> ParseRequest(buf) == None
    ensures req != null ==> fresh(req) && ParseRequest(buf) == Some(req.Value())
  {
    hide Strip, Split, Put, ContentLength, PySlice;
    var hdrEnd := Find(buf, DELIM, 0);
    if hdrEnd == -1 {
      return null;
    }
    var headerLength := hdrEnd + |DELIM|;
    var lines := Split(buf[..hdrEnd]);
    var parts := RequestLine(lines[0]);
    if parts == None {
      return null;
    }
    req := new HttpRequest();
    req.verb, req.path, req.version := parts.value.0, parts.value.1, parts.value.2;
    var i := 1;
    while i < |lines|
      invariant 1 <= i <= |lines|
      invariant fresh(req)
      invariant req.Value() == Request(parts.value.0, parts.value.1, parts.value.2,
                                       ParseHeaders(lines[1..][..i - 1]), "")
    {
      var decoded := lines[i];
      assert lines[1..][..i] == lines[1..][..i - 1] + [decoded];
      var colon := Find(decoded, ":", 0);
      if colon != -1 {
        req.headers := Put(req.headers, Strip(decoded[..colon]), Strip(decoded[colon + 1..]));
      }
      i := i + 1;
    }
    assert lines[1..][..i - 1] == lines[1..];
    var contentLength := GetContentLength(req.headers);
    var totalNeeded := headerLength + contentLength;
    if |buf| < totalNeeded {
      return null;
    }
    req.body := PySlice(buf, headerLength, totalNeeded);
  }

  method GetContentLength(headers: seq<Header>) returns (n: int)
    ensures n == ContentLength(headers)
  {
    for i := 0 to |headers|
      invariant forall j :: 0 <= j < i ==> Lower(headers[j].name) != "content-length"
    {
      if Lower(headers[i].name) == "content-length" {
        return IntOrZero(headers[i].value);
      }
    }
    return 0;
  }

  method InjectForwardedFor(req: HttpRequest, clientIp: string)
    modifies req`headers
    ensures req.Value() == Inject(old(req.Value()), clientIp)
  {
    var existing := -1;
    for i := 0 to |req.headers|
      invariant existing == -1
      invariant forall j :: 0 <= j < i ==> Lower(req.headers[j].name) != "x-forwarded-for"
    {
      if Lower(req.headers[i].name) == "x-forwarded-for" {
        existing := i;
        break;
      }
    }
    if existing != -1 {
      var h := req.headers[existing];
      req.headers := req.headers[existing := Header(h.name, h.value + ", " + clientIp)];
    } else {
      req.headers := Put(req.headers, FORWARDED_FOR, clientIp);
    }
  }

  method SerialiseRequest(req: HttpRequest) returns (bytes: string)
    ensures bytes == Serialise(req.Value())
  {
    var lines := [req.verb + " " + (req.path + " " + req.version)];
    for i := 0 to |req.headers|
      invariant lines == [FirstLine(req.Value())] + HeaderLines(req.headers)[..i]
    {
      lines := lines + [req.headers[i].name + ":" + (" " + req.headers[i].value)];
    }
    assert HeaderLines(req.headers)[..|req.headers|] == HeaderLines(req.headers);
    bytes := Join(lines) + DELIM + req.body;
  }

  method GetResponseContentLength(buf: string) returns (n: int)
    ensures n == ResponseContentLength(buf)
  {
    hide Strip, Lower, Split, ParseInt, ListsChunked;
    var hdrEnd := Find(buf, DELIM, 0);
    if hdrEnd == -1 {
      return HEADERS_INCOMPLETE;
    }
    var lines := Split(buf[..hdrEnd])[1..];
    for i := 0 to |lines|
      invariant FieldValue(lines, "content-length") == FieldValue(lines[i..], "content-length")
    {
      var line := lines[i];
      assert lines[i..][1..] == lines[i + 1..];
      var colon := Find(line, ":", 0);
      if colon == -1 {
        continue;
      }
      if Lower(Strip(line[..colon])) == "content-length" {
        return IntOrZero(Strip(line[colon + 1..]));
      }
    }
    return CONTENT_LENGTH_ABSENT;
  }

  method IsChunkedResponse(buf: string) returns (r: Option<bool>)
    ensures r == IsChunked(buf)
  {
    hide Strip, Lower, Split, ParseInt, ListsChunked;
    var hdrEnd := Find(buf, DELIM, 0);
    if hdrEnd == -1 {
      return None;
    }
    var lines := Split(buf[..hdrEnd])[1..];
    for i := 0 to |lines|
      invariant FieldValue(lines, "transfer-encoding") == FieldValue(lines[i..], "transfer-encoding")
    {
      var line := lines[i];
      assert lines[i..][1..] == lines[i + 1..];
      var colon := Find(line, ":", 0);
      if colon == -1 {
        continue;
      }
      if Lower(Strip(line[..colon])) == "transfer-encoding" {
        return Some(ListsChunked(Strip(line[colon + 1..])));
      }
    }
    return Some(false);
  }
}
