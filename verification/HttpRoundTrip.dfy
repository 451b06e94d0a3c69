/** Parsing, injecting and serialising requests: what survives the way to the backend. */
module HttpRoundTrip {
  import opened Wrappers
  import opened Bytes
  import opened PyInt
  import opened Http

  // ---------- What a parsed request looks like ----------

  ghost predicate GoodHeader(h: Header) {
    && ':' !in h.name
    && Trimmed(h.name) && NoCrlf(h.name)
    && Trimmed(h.value) && NoCrlf(h.value)
  }

  ghost predicate GoodHeaders(hs: seq<Header>) {
    && (forall i :: 0 <= i < |hs| ==> GoodHeader(hs[i]))
    && (forall i, j :: 0 <= i < j < |hs| ==> hs[i].name != hs[j].name)
  }

  ghost predicate GoodRequest(r: Request) {
    ' ' !in r.verb && ' ' !in r.path && NoCrlf(FirstLine(r)) && GoodHeaders(r.headers)
  }

  lemma PutGood(hs: seq<Header>, name: string, value: string)
    requires GoodHeaders(hs) && GoodHeader(Header(name, value))
    ensures GoodHeaders(Put(hs, name, value))
  {
    hide GoodHeader;
    var i := IndexOf(hs, name);
    var ps := Put(hs, name, value);
    forall k | 0 <= k < |ps| ensures GoodHeader(ps[k]) {
      assert ps[k] == Header(name, value) || (k < |hs| && ps[k] == hs[k]);
    }
  }

  lemma StripGood(line: string, lo: nat, hi: nat)
    requires NoCrlf(line) && lo <= hi <= |line|
    ensures Trimmed(Strip(line[lo..hi])) && NoCrlf(Strip(line[lo..hi]))
    ensures forall c :: c in Strip(line[lo..hi]) ==> c in line[lo..hi]
  {
    hide Strip, NoCrlf;
    NoCrlfPart(line, lo, hi);
    var a, b := StripTrims(line[lo..hi]);
    NoCrlfPart(line[lo..hi], a, b);
  }

  lemma AddLineGood(hs: seq<Header>, line: string)
    requires GoodHeaders(hs) && NoCrlf(line)
    ensures GoodHeaders(AddLine(hs, line))
  {
    hide Strip, NoCrlf, Put;
    var k := Find(line, ":", 0);
    if k != -1 {
      FindCharSplits(line, ':');
      assert line[0..k] == line[..k];
      StripGood(line, 0, k);
      StripGood(line, k + 1, |line|);
      assert line[k + 1..|line|] == line[k + 1..];
      PutGood(hs, Strip(line[..k]), Strip(line[k + 1..]));
    }
  }

  lemma {:induction false} ParseHeadersGood(lines: seq<string>)
    requires forall i :: 0 <= i < |lines| ==> NoCrlf(lines[i])
    ensures GoodHeaders(ParseHeaders(lines))
    decreases |lines|
  {
    hide GoodHeaders, AddLine;
    if lines == [] {
      assert GoodHeaders([]) by { NoHeadersGood(); }
    } else {
      ParseHeadersGood(lines[..|lines| - 1]);
      AddLineGood(ParseHeaders(lines[..|lines| - 1]), lines[|lines| - 1]);
    }
  }

  lemma NoHeadersGood()
    ensures GoodHeaders([])
  {
  }

  lemma RequestLineParts(line: string)
    requires RequestLine(line).Some?
    ensures var (v, p, w) := RequestLine(line).value;
            ' ' !in v && ' ' !in p && v + " " + (p + " " + w) == line
  {
    FindCharSplits(line, ' ');
    var a := Find(line, " ", 0);
    var rest := line[a + 1..];
    FindCharSplits(rest, ' ');
    var b := Find(rest, " ", 0);
    assert line == line[..a] + " " + rest;
    assert rest == rest[..b] + " " + rest[b + 1..];
  }

  lemma LineParts(v: string, p: string, w: string)
    requires ' ' !in v && ' ' !in p
    ensures RequestLine(v + " " + (p + " " + w)) == Some((v, p, w))
  {
    FindChar(v, ' ', p + " " + w);
    FindChar(p, ' ', w);
    var line := v + " " + (p + " " + w);
    assert line[|v| + 1..] == p + " " + w && line[..|v|] == v;
    assert (p + " " + w)[..|p|] == p && (p + " " + w)[|p| + 1..] == w;
  }

  /** Every parsed request is well formed. */
  lemma ParsedIsGood(buf: string)
    requires ParseRequest(buf).Some?
    ensures GoodRequest(ParseRequest(buf).value)
  {
    hide Split, RequestLine, ParseHeaders, GoodHeaders, NoCrlf;
    var h := Find(buf, DELIM, 0);
    var lines := Split(buf[..h]);
    SplitParts(buf[..h]);
    RequestLineParts(lines[0]);
    ParseHeadersGood(lines[1..]);
  }

  // ---------- Parsing what was serialised ----------

  lemma HeaderLineGood(h: Header)
    requires GoodHeader(h)
    ensures NoCrlf(HeaderLine(h)) && HeaderLine(h) != ""
    ensures Find(HeaderLine(h), ":", 0) == |h.name|
    ensures Strip(HeaderLine(h)[..|h.name|]) == h.name
    ensures Strip(HeaderLine(h)[|h.name| + 1..]) == h.value
  {
    hide Strip, Trimmed, NoCrlf;
    var line := HeaderLine(h);
    FindChar(h.name, ':', " " + h.value);
    assert line[..|h.name|] == h.name && line[|h.name| + 1..] == " " + h.value;
    StripFixes(h.name);
    StripFixes(h.value);
    Glue(h.name, ": ", h.value);
    assert line == h.name + (": " + h.value);
  }

  lemma Glue(a: string, mid: string, b: string)
    requires NoCrlf(a) && NoCrlf(b) && |mid| == 2 && mid[0] != '\n' && mid[0] != '\r' && mid[1] != '\r'
    ensures NoCrlf(a + (mid + b))
  {
    assert NoCrlf(mid);
    NoCrlfConcat(mid, b);
    NoCrlfConcat(a, mid + b);
  }

  lemma {:induction false} HeadersBack(hs: seq<Header>)
    requires GoodHeaders(hs)
    ensures ParseHeaders(HeaderLines(hs)) == hs
    decreases |hs|
  {
    hide Strip, GoodHeader, HeaderLine;
    if hs != [] {
      var n := |hs| - 1;
      assert HeaderLines(hs)[..n] == HeaderLines(hs[..n]);
      HeadersBack(hs[..n]);
      HeaderLineGood(hs[n]);
      assert AddLine(hs[..n], HeaderLine(hs[n])) == Put(hs[..n], hs[n].name, hs[n].value);
      assert IndexOf(hs[..n], hs[n].name) == -1;
      assert hs == hs[..n] + [hs[n]];
    }
  }

  lemma HeadLinesGood(r: Request)
    requires GoodRequest(r)
    ensures GoodLines([FirstLine(r)] + HeaderLines(r.headers))
  {
    hide NoCrlf, GoodHeader, HeaderLine, Find, Strip;
    var ls := [FirstLine(r)] + HeaderLines(r.headers);
    forall i | 0 <= i < |ls| ensures ls[i] != "" && NoCrlf(ls[i]) {
      if i > 0 {
        HeaderLineGood(r.headers[i - 1]);
      }
    }
  }

  /** The header section of a serialised request ends at its first blank line. */
  lemma HeadEnds(r: Request, body: string)
    requires GoodRequest(r)
    ensures Find(Head(r) + body, DELIM, 0) == |Head(r)| - 4 >= 0
    ensures Split((Head(r) + body)[..|Head(r)| - 4]) == [FirstLine(r)] + HeaderLines(r.headers)
  {
    hide GoodRequest, HeaderLines, FirstLine, GoodLines;
    HeadLinesGood(r);
    HeadSplits(FirstLine(r), HeaderLines(r.headers), body);
  }

  /** A head is found and split into its lines, whatever follows it. */
  lemma HeadSplits(first: string, lines: seq<string>, rest: string)
    requires GoodLines([first] + lines)
    ensures var buf, h := HeadText(first, lines) + rest, |HeadText(first, lines)| - 4;
            && Find(buf, DELIM, 0) == h >= 0
            && Split(buf[..h]) == [first] + lines && ([first] + lines)[1..] == lines
  {
    hide GoodLines, Lines, Split, Find;
    var ls := [first] + lines;
    LinesJoin(ls);
    BlankLineFound(ls, rest);
    assert Lines(ls) + CRLF == HeadText(first, lines);
    assert (HeadText(first, lines) + rest)[..|HeadText(first, lines)| - 4] == Join(ls);
    LinesSplit(ls);
  }

  lemma LinesSplit(ls: seq<string>)
    requires GoodLines(ls) && ls != []
    ensures Split(Join(ls)) == ls
  {
    hide NoCrlf;
    SplitJoin(ls);
  }

  function Reparsed(r: Request): Option<Request> {
    var k, n := |Head(r)|, ContentLength(r.headers);
    if |r.body| < n then None else Some(r.(body := PySlice(Head(r) + r.body, k, k + n)))
  }

  /** Re-parsing a serialised request recovers everything but possibly the body. */
  lemma Reparse(r: Request)
    requires GoodRequest(r)
    ensures ParseRequest(Serialise(r)) == Reparsed(r)
  {
    hide Split, RequestLine, ParseHeaders, Head, HeaderLines, ContentLength, GoodHeaders, NoCrlf, PySlice;
    HeadEnds(r, r.body);
    HeadersBack(r.headers);
    LineParts(r.verb, r.path, r.version);
    assert ([FirstLine(r)] + HeaderLines(r.headers))[1..] == HeaderLines(r.headers);
  }

  lemma SliceBehind(head: string, body: string, n: int)
    requires n <= |body| && (n >= 0 ==> n == |body|)
    ensures PySlice(head + body, |head|, |head| + n) == body <==> n >= 0 || body == ""
  {
    var s, k := head + body, |head|;
    assert s[k..] == body;
    if n >= 0 {
      assert s[k..k + n] == body;
    }
  }

  /** Parse after serialise is the identity on parsed requests exactly when the Content-Length
      was not negative or the negative one left no body. */
  lemma ParseAfterSerialise(buf: string)
    requires ParseRequest(buf).Some?
    ensures var r := ParseRequest(buf).value;
            ParseRequest(Serialise(r)) == Some(r) <==> (ContentLength(r.headers) >= 0 || r.body == "")
  {
    hide ParseRequest, Head, ContentLength, GoodRequest, PySlice, Serialise;
    var r := ParseRequest(buf).value;
    ParsedIsGood(buf);
    Reparse(r);
    BodyLength(buf);
    SliceBehind(Head(r), r.body, ContentLength(r.headers));
  }

  /** A parsed body has the announced length, unless that is negative. */
  lemma BodyLength(buf: string)
    requires ParseRequest(buf).Some?
    ensures var r := ParseRequest(buf).value;
            ContentLength(r.headers) >= 0 ==> |r.body| == ContentLength(r.headers)
  {
    hide Split, RequestLine, ParseHeaders, ContentLength;
  }

  /** With a negative Content-Length a body can come back changed. */
  lemma {:induction false} NegativeLengthWitness(buf: string)
    requires buf == "A B C" + CRLF + "content-length: -31" + DELIM + "bodyX"
    ensures ParseRequest(buf).Some?
    ensures ParseRequest(Serialise(ParseRequest(buf).value)) != ParseRequest(buf)
  {
    hide ParseRequest, ContentLength, GoodRequest, Lower, Strip, Head;
    var r := Request("A", "B", "C", [Header("content-length", "-31")], "bodyX");
    NegativeLength(r.headers);
    WitnessGood(r);
    Reparse(r);
    WitnessHead(r);
    assert buf == Head(r) + r.body;
    assert PySlice(buf, 30, -1) == "body";
    ParseAfterSerialise(buf);
  }

  lemma WitnessHead(r: Request)
    requires r == Request("A", "B", "C", [Header("content-length", "-31")], "bodyX")
    ensures Head(r) == "A B C" + CRLF + "content-length: -31" + DELIM
  {
    hide Join;
    var line := HeaderLine(r.headers[0]);
    assert line == "content-length: -31";
    assert FirstLine(r) == "A B C";
    assert HeaderLines(r.headers) == [line];
    JoinTwo(FirstLine(r), line);
  }

  lemma JoinTwo(a: string, b: string)
    ensures Join([a] + [b]) == a + CRLF + b
  {
    assert ([a] + [b])[1..] == [b];
  }

  lemma WitnessGood(r: Request)
    requires r == Request("A", "B", "C", [Header("content-length", "-31")], "bodyX")
    ensures GoodRequest(r)
  {
    assert FirstLine(r) == "A B C";
    assert forall j :: !CrlfAt("A B C", j);
    assert forall j :: !CrlfAt("-31", j);
    assert forall j :: 0 <= j < |"content-length"| ==> "content-length"[j] != '\r';
  }

  lemma NegativeLength(hs: seq<Header>)
    requires hs == [Header("content-length", "-31")]
    ensures ContentLength(hs) == -31
  {
    assert Lower("content-length") == "content-length";
    FirstNamedIs(hs, "content-length", 0);
    assert ParseInt("-31", 10) == Some(-31) by {
      hide Lower;
      StripFixes("-31");
      assert "-31"[1..] == "31" && "31"[1..] == "1" && "1"[1..] == "";
      assert Digits("1", 10, 3, false) == Digits("1"[1..], 10, 31, false);
      assert Digits("31", 10, 0, true) == Digits("31"[1..], 10, 3, false);
    }
    hide ParseInt, Lower;
  }

  // ---------- Reading a request piece by piece ----------

  /** A successful parse is not changed by any further bytes. */
  lemma ParseExtend(buf: string, x: string)
    requires ParseRequest(buf).Some? && ContentLength(ParseRequest(buf).value.headers) >= 0
    ensures ParseRequest(buf + x) == ParseRequest(buf)
  {
    hide ParseRequest, ContentLength;
    ParseMore(buf, x);
    ParseWith(buf, x);
  }

  /** Where the body of a parsed request ends, as the parser computes it; with a negative
      Content-Length this can lie in front of the whole buffer. */
  function BodyEnd(buf: string): int
    requires ParseRequest(buf).Some?
  {
    Find(buf, DELIM, 0) + |DELIM| + ContentLength(ParseRequest(buf).value.headers)
  }

  /** A successful parse is final, whatever bytes follow, exactly when the body's computed end does
      not lie in front of the buffer. */
  lemma ParseFinalIff(buf: string)
    requires ParseRequest(buf).Some?
    ensures (forall x :: ParseRequest(buf + x) == ParseRequest(buf)) <==> BodyEnd(buf) >= 0
  {
    hide ParseRequest, BodyEnd;
    if BodyEnd(buf) >= 0 {
      forall x ensures ParseRequest(buf + x) == ParseRequest(buf) {
        ParseMore(buf, x);
      }
    } else {
      var x := seq(2 * |buf| - BodyEnd(buf) + 1, i => 'x');
      ParseMore(buf, x);
      assert ParseRequest(buf + x) != ParseRequest(buf);
    }
  }

  /** With more bytes, all but the body is parsed the same; the body is too, unless its end is
      counted from the end of the buffer. */
  lemma ParseMore(buf: string, x: string)
    requires ParseRequest(buf).Some?
    ensures BodyEnd(buf) >= 0 ==> ParseRequest(buf + x) == ParseRequest(buf)
    ensures BodyEnd(buf) < 0 && |x| > 2 * |buf| - BodyEnd(buf) ==> ParseRequest(buf + x) != ParseRequest(buf)
  {
    hide ParseRequest, BodyEnd, PySlice;
    ParseWith(buf, "");
    ParseWith(buf, x);
    assert buf + "" == buf;
    BodyMore(buf, x, Find(buf, DELIM, 0) + 4, BodyEnd(buf));
  }

  lemma ParseWith(buf: string, x: string)
    requires ParseRequest(buf).Some?
    ensures var lo, end := Find(buf, DELIM, 0) + 4, BodyEnd(buf);
            && 4 <= lo <= |buf| && end <= |buf|
            && ParseRequest(buf + x) == Some(ParseRequest(buf).value.(body := PySlice(buf + x, lo, end)))
  {
    hide ParseRequest, BehindHead, PySlice, At, Find, ContentLength;
    ParseBehindHead(buf);
    assert Find(buf, DELIM, 0) != -1;
    SameHead(buf, x);
    assert BodyEnd(buf) == Find(buf, DELIM, 0) + 4 + ContentLength(ParseRequest(buf).value.headers);
    BehindHeadMore(buf[..Find(buf, DELIM, 0)], Find(buf, DELIM, 0) + 4, buf, x);
  }

  lemma SameHead(buf: string, x: string)
    requires Find(buf, DELIM, 0) != -1
    ensures var h := Find(buf, DELIM, 0);
            && 0 <= h <= |buf| - 4
            && ParseRequest(buf + x) == BehindHead(buf[..h], h + 4, buf + x)
  {
    hide ParseRequest, BehindHead;
    ParseBehindHead(buf + x);
    FindExtend(buf, x, DELIM, 0);
    assert (buf + x)[..Find(buf, DELIM, 0)] == buf[..Find(buf, DELIM, 0)];
  }

  /** The parser behind its search for the end of the header section. */
  function BehindHead(head: string, lo: nat, buf: string): Option<Request> {
    var lines := Split(head);
    match RequestLine(lines[0])
    case None => None
    case Some(parts) =>
      var headers := ParseHeaders(lines[1..]);
      var needed := lo + ContentLength(headers);
      if |buf| < needed then None
      else Some(Request(parts.0, parts.1, parts.2, headers, PySlice(buf, lo, needed)))
  }

  lemma ParseBehindHead(buf: string)
    ensures var h := Find(buf, DELIM, 0);
            && (h == -1 || 0 <= h <= |buf| - |DELIM|)
            && ParseRequest(buf) == if h == -1 then None else BehindHead(buf[..h], h + |DELIM|, buf)
  {
    hide Split, RequestLine, ParseHeaders, ContentLength, PySlice;
  }

  lemma BehindHeadMore(head: string, lo: nat, buf: string, x: string)
    requires BehindHead(head, lo, buf).Some?
    ensures var r := BehindHead(head, lo, buf).value;
            var end := lo + ContentLength(r.headers);
            && end <= |buf|
            && BehindHead(head, lo, buf + x) == Some(r.(body := PySlice(buf + x, lo, end)))
  {
    hide Split, RequestLine, ParseHeaders, ContentLength, PySlice;
  }

  lemma BodyMore(buf: string, x: string, lo: nat, end: int)
    requires lo <= |buf| && end <= |buf|
    ensures end >= 0 ==> PySlice(buf + x, lo, end) == PySlice(buf, lo, end)
    ensures end < 0 && |x| > 2 * |buf| - end ==> |PySlice(buf + x, lo, end)| > |buf| >= |PySlice(buf, lo, end)|
  {
  }

  /** One more byte changes the body of a request with a negative Content-Length. */
  lemma {:induction false} NotFinalWitness(buf: string)
    requires buf == "A B C" + CRLF + "content-length: -31" + DELIM + "bodyX"
    ensures ParseRequest(buf).Some? && ParseRequest(buf + "Y") != ParseRequest(buf)
  {
    hide ParseRequest, ContentLength, GoodRequest, Lower, Strip, Head, Split;
    var r := Request("A", "B", "C", [Header("content-length", "-31")], "bodyX");
    NegativeLength(r.headers);
    WitnessGood(r);
    Reparse(r);
    WitnessHead(r);
    HeadEnds(r, r.body);
    assert buf == Head(r) + r.body;
    ParseWith(buf, "");
    ParseWith(buf, "Y");
    assert buf + "" == buf && BodyEnd(buf) == -1;
    assert |PySlice(buf, 30, -1)| == 4 && |PySlice(buf + "Y", 30, -1)| == 5;
  }

  // ---------- Injecting the client's address ----------

  /** An address as the socket layer prints it: no white space anywhere. */
  ghost predicate GoodAddress(ip: string) {
    ip != "" && forall i :: 0 <= i < |ip| ==> !IsSpace(ip[i])
  }

  lemma LowerConcat(a: string, b: string)
    ensures Lower(a + b) == Lower(a) + Lower(b)
  {
  }

  lemma LowerFixed(s: string)
    requires forall i :: 0 <= i < |s| ==> !('A' <= s[i] <= 'Z')
    ensures Lower(s) == s
  {
  }

  lemma ForwardedForLower()
    ensures Lower(FORWARDED_FOR) == "x-forwarded-for"
    ensures GoodHeader(Header(FORWARDED_FOR, ""))
  {
    LowerConcat("X-F", "orwarded-");
    LowerConcat("X-F" + "orwarded-", "F");
    LowerConcat("X-F" + "orwarded-" + "F", "or");
    LowerFixed("orwarded-");
    LowerFixed("or");
    assert Lower("X-F") == "x-f" && Lower("F") == "f";
    assert FORWARDED_FOR == "X-F" + "orwarded-" + "F" + "or";
    hide Lower;
    forall j ensures !CrlfAt(FORWARDED_FOR, j) {
      assert 0 <= j < |FORWARDED_FOR| ==> FORWARDED_FOR[j] != '\r';
    }
  }

  lemma AddressGood(ip: string)
    requires GoodAddress(ip)
    ensures Trimmed(ip) && NoCrlf(ip)
  {
    forall j ensures !CrlfAt(ip, j) {
      assert 0 <= j < |ip| ==> !IsSpace(ip[j]);
    }
  }

  lemma ExtendedGood(h: Header, ip: string)
    requires GoodHeader(h) && GoodAddress(ip)
    ensures GoodHeader(Header(h.name, h.value + ", " + ip))
  {
    AddressGood(ip);
    Glue(h.value, ", ", ip);
    assert h.value + ", " + ip == h.value + (", " + ip);
  }

  /** Injection keeps a request well formed. */
  lemma InjectGood(r: Request, ip: string)
    requires GoodRequest(r) && GoodAddress(ip)
    ensures GoodRequest(Inject(r, ip))
  {
    var hs := r.headers;
    var i := FirstNamed(hs, "x-forwarded-for");
    assert FirstLine(Inject(r, ip)) == FirstLine(r);
    if i == -1 {
      ForwardedForLower();
      AddressGood(ip);
      hide Trimmed, NoCrlf, Put, Lower, Strip;
      PutGood(hs, FORWARDED_FOR, ip);
    } else {
      ExtendedGood(hs[i], ip);
      hide GoodHeader, NoCrlf, Lower;
    }
  }

  ghost predicate Extended(hs: seq<Header>, ks: seq<Header>, ip: string) {
    exists i :: 0 <= i < |hs| && Lower(hs[i].name) == "x-forwarded-for"
      && (forall j :: 0 <= j < i ==> Lower(hs[j].name) != "x-forwarded-for")
      && ks == hs[i := Header(hs[i].name, hs[i].value + ", " + ip)]
  }

  ghost predicate Appended(hs: seq<Header>, ks: seq<Header>, ip: string) {
    (forall j :: 0 <= j < |hs| ==> Lower(hs[j].name) != "x-forwarded-for")
      && ks == hs + [Header("X-Forwarded-For", ip)]
  }

  /** Injection touches X-Forwarded-For alone: a header named so, in any case, grows by ", ip" in
      its place; without one, the header is appended. No other header moves or changes. */
  lemma InjectOnlyForwardedFor(r: Request, ip: string)
    ensures var hs, ks := r.headers, Inject(r, ip).headers;
            Extended(hs, ks, ip) || Appended(hs, ks, ip)
  {
    var hs := r.headers;
    var i := FirstNamed(hs, "x-forwarded-for");
    if i == -1 {
      ForwardedForLower();
      assert IndexOf(hs, FORWARDED_FOR) == -1;
    }
  }

  lemma FirstNamedIs(hs: seq<Header>, name: string, i: int)
    requires -1 <= i < |hs|
    requires i != -1 ==> Lower(hs[i].name) == name
    requires forall j :: 0 <= j < (if i == -1 then |hs| else i) ==> Lower(hs[j].name) != name
    ensures FirstNamed(hs, name) == i
  {
  }

  /** The injected header is not mistaken for the body's length. */
  lemma InjectKeepsLength(r: Request, ip: string)
    ensures ContentLength(Inject(r, ip).headers) == ContentLength(r.headers)
  {
    var hs, ks := r.headers, Inject(r, ip).headers;
    var i := FirstNamed(hs, "content-length");
    var x := FirstNamed(hs, "x-forwarded-for");
    ForwardedForLower();
    hide Lower, ParseInt;
    InjectOnlyForwardedFor(r, ip);
    assert |ks| >= |hs|;
    assert "x-forwarded-for"[0] != "content-length"[0];
    forall j | 0 <= j < |hs| ensures ks[j].name == hs[j].name {
    }
    FirstNamedIs(ks, "content-length", i);
  }

  /** What the backend receives parses to the client's request with the address injected. */
  lemma {:induction false} ForwardingIsFaithful(buf: string, ip: string)
    requires ParseRequest(buf).Some? && GoodAddress(ip)
    requires ContentLength(ParseRequest(buf).value.headers) >= 0
    ensures var r := ParseRequest(buf).value;
            ParseRequest(Serialise(Inject(r, ip))) == Some(Inject(r, ip))
  {
    hide ParseRequest, Head, ContentLength, GoodRequest, InjectHeaders, PySlice, Serialise;
    var r := ParseRequest(buf).value;
    var q := Inject(r, ip);
    ParsedIsGood(buf);
    BodyLength(buf);
    InjectGood(r, ip);
    InjectKeepsLength(r, ip);
    Reparse(q);
    SliceBehind(Head(q), q.body, |q.body|);
  }

  // ---------- The response header section ----------

  /** Once the response headers are complete, further bytes change none of their scans. */
  lemma ResponseScansExtend(buf: string, x: string)
    requires Find(buf, DELIM, 0) != -1
    ensures Find(buf + x, DELIM, 0) == Find(buf, DELIM, 0)
    ensures IsChunked(buf + x) == IsChunked(buf)
    ensures ResponseContentLength(buf + x) == ResponseContentLength(buf)
  {
    hide Split, FieldValue;
    FindExtend(buf, x, DELIM, 0);
    var h := Find(buf, DELIM, 0);
    assert (buf + x)[..h] == buf[..h];
  }
}
