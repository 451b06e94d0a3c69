/** Concrete inputs and runs on which the code does what the exact conditions elsewhere say it can. */
module Witnesses {
  import opened Wrappers
  import opened Bytes
  import opened Http
  import opened HttpRoundTrip
  import opened HeaderText
  import opened Pools
  import opened Protocol
  import opened ProtocolInvariant
  import opened ProtocolRuns
  import opened Fragmentation
  import opened EndToEnd
  import opened Selector
  import PyInt
  import Chunked
  import ChunkedFraming
  import ChunkedEncoding

  // ---------- Framing ----------

  /** A complete chunked body of five bytes ends five bytes later once more bytes have arrived. */
  lemma {:induction false} EndMoves()
    ensures Chunked.Scan("0\r\n\r\n", 0) == Some(5)
    ensures Chunked.Scan("0\r\n\r\n" + "a\r\n\r\n", 0) == Some(10)
  {
    hide Chunked.Scan, ChunkedFraming.MessageEnd;
    var body, more := "0\r\n\r\n", "0\r\n\r\na\r\n\r\n";
    assert body + "a\r\n\r\n" == more;
    LastChunkAt(body);
    LastChunkAt(more);
    EndOfShort(body);
    EndOfLong(more);
  }

  lemma LastChunkAt(body: string)
    requires "0" + CRLF <= body
    ensures Chunked.Scan(body, 0) == ChunkedFraming.MessageEnd(body, 3)
  {
    hide Chunked.SizeAt, Chunked.TurnAt, ChunkedFraming.MessageEnd, PyInt.ParseInt, PyInt.Numeral, Chunked.BeforeSemicolon;
    assert body[0..] == body;
    assert forall j :: !CrlfAt("0", j);
    Chunked.SizeAtLine(body, 0, "0");
    Chunked.TokenOfLine("0", "");
    assert "0" + "" == "0";
    PyInt.HexOfIs(0);
    assert PyInt.HexOf(0) == "0";
    PyInt.NumeralParses("0", 16, 0);
    ChunkedFraming.LastTurn(body, 0);
  }

  lemma EndOfShort(body: string)
    requires body == "0\r\n\r\n"
    ensures ChunkedFraming.MessageEnd(body, 3) == Some(5)
  {
    assert PySlice(body, 3, 5) == CRLF;
  }

  lemma EndOfLong(body: string)
    requires body == "0\r\n\r\na\r\n\r\n"
    ensures ChunkedFraming.MessageEnd(body, 3) == Some(10)
  {
    assert body[6..10] == DELIM;
    assert body[4] != body[5] && body[5] == 'a';
    FindIs(body, DELIM, 3, 6);
  }

  /** Ten bytes in one chunk. */
  lemma {:induction false} TenBytes()
    ensures Chunked.Scan("a\r\n0123456789\r\n0\r\n\r\n", 0) == Some(20)
  {
    hide Chunked.Scan, ChunkedEncoding.Encode, ChunkedEncoding.GoodChunk, ChunkedEncoding.GoodLast, PyInt.HexOf, PyInt.Numeral;
    var c := ChunkedEncoding.Chunk("a", "", "0123456789");
    var t := ChunkedEncoding.LastChunk("0", "", []);
    TenIsA();
    ChunkedEncoding.PlainChunk("0123456789");
    NoMore(t);
    TenText(c, t);
    ChunkedEncoding.RoundTrip([c], t);
  }

  lemma TenIsA()
    ensures PyInt.HexOf(10) == "a" && PyInt.HexOf(0) == "0"
  {
  }

  lemma NoMore(t: ChunkedEncoding.LastChunk)
    requires t == ChunkedEncoding.LastChunk("0", "", [])
    ensures ChunkedEncoding.GoodLast(t)
  {
    hide PyInt.Numeral, PyInt.HexOf;
    TenIsA();
    PyInt.HexOfIs(0);
  }

  lemma TenText(c: ChunkedEncoding.Chunk, t: ChunkedEncoding.LastChunk)
    requires c == ChunkedEncoding.Chunk("a", "", "0123456789") && t == ChunkedEncoding.LastChunk("0", "", [])
    ensures ChunkedEncoding.Encode([c], t) == "a\r\n0123456789\r\n0\r\n\r\n"
    ensures |ChunkedEncoding.Encode([c], t)| == 20
  {
    assert [c][1..] == [];
    assert Lines([]) == "";
    assert ChunkedEncoding.EncodeLast(t) == "0\r\n\r\n";
    assert ChunkedEncoding.EncodeChunk(c) == "a\r\n0123456789\r\n";
    assert ChunkedEncoding.Encode([], t) == ChunkedEncoding.EncodeLast(t);
  }

  // ---------- Requests as text ----------

  /** A header without white space behind its colon. */
  lemma {:induction false} TightHeader(buf: string)
    requires buf == HeadText("POST / HTTP/1.1", ["Content-Length:5"]) + "hello"
    ensures ParseRequest(buf) == Some(Request("POST", "/", "HTTP/1.1", [Header("Content-Length", "5")], "hello"))
  {
    var lines := ["Content-Length:5"];
    TightLine(lines);
    TightLines();
    hide ParseRequest, ParseHeaders, GoodLines, HeadText, ContentLength, PartsOf;
    assert PartsOf("POST / HTTP/1.1", "POST", "/", "HTTP/1.1") by {
      Post();
    }
    ParseText("POST / HTTP/1.1", lines, "hello", "POST", "/", "HTTP/1.1");
    assert "hello"[..5] == "hello";
  }

  lemma Post()
    ensures PartsOf("POST / HTTP/1.1", "POST", "/", "HTTP/1.1")
  {
    assert "POST" + " " + "/" + " " + "HTTP/1.1" == "POST / HTTP/1.1";
  }

  lemma TightLines()
    ensures GoodLines(["POST / HTTP/1.1"] + ["Content-Length:5"])
  {
    assert ["POST / HTTP/1.1"] + ["Content-Length:5"] == ["POST / HTTP/1.1", "Content-Length:5"];
    assert forall j :: !CrlfAt("POST / HTTP/1.1", j);
    assert forall j :: !CrlfAt("Content-Length:5", j);
  }

  lemma TightLine(lines: seq<string>)
    requires lines == ["Content-Length:5"]
    ensures ParseHeaders(lines) == [Header("Content-Length", "5")] && ContentLength(ParseHeaders(lines)) == 5
  {
    hide Find, Strip, ContentLength, AddLine;
    var line := "Content-Length:5";
    TightField(line);
    ParseHeadersSnoc(lines);
    assert lines[..|lines| - 1] == [] && lines[|lines| - 1] == line;
    assert ParseHeaders([]) == [];
    FiveBytes([Header("Content-Length", "5")]);
  }

  lemma TightField(line: string)
    requires line == "Content-Length:5"
    ensures AddLine([], line) == [Header("Content-Length", "5")]
  {
    var name := "Content-Length";
    FindChar(name, ':', "5");
    assert line == name + [':'] + "5";
    assert line[..|name|] == name && line[|name| + 1..] == "5";
    StripFixes(name);
    StripFixes("5");
    hide Strip, Find;
    assert IndexOf([], name) == -1;
    assert [] + [Header(name, "5")] == [Header(name, "5")];
  }

  lemma FiveBytes(hs: seq<Header>)
    requires hs == [Header("Content-Length", "5")]
    ensures ContentLength(hs) == 5
  {
    PyInt.DecimalIs(5);
    assert PyInt.Decimal(5) == "5";
    assert Lower("Content-Length") == "content-length" && Lower("content-length") == "content-length";
    CaseIff("Content-Length", "content-length");
    hide PyInt.Numeral, CaseOf, Lower, ContentLength;
    assert FirstCalled(hs, "content-length", 0);
    LengthMeans(hs, 0, 5);
  }

  /** What is sent on for a request. */
  lemma {:induction false} RequestText()
    ensures Serialise(Request("GET", "/", "H", [Header("X", "y")], "b")) == "GET / H\r\nX: y\r\n\r\nb"
  {
    var r := Request("GET", "/", "H", [Header("X", "y")], "b");
    assert HeaderLine(r.headers[0]) == "X: y";
    assert HeaderLines(r.headers) == ["X: y"];
    assert FirstLine(r) == "GET / H";
    assert ["GET / H"] + ["X: y"] == ["GET / H", "X: y"] && ["GET / H", "X: y"][1..] == ["X: y"];
    assert Join(["X: y"]) == "X: y";
  }

  // ---------- Runs ----------

  const REQUEST := Request("GET", "/", "H", [], "")

  lemma RequestParses()
    ensures ParseRequest(Serialise(REQUEST)) == Some(REQUEST)
    ensures 0 < |Serialise(REQUEST)| <= MAX_REQUEST_SIZE
  {
    assert FirstLine(REQUEST) == "GET / H";
    assert forall j :: !CrlfAt("GET / H", j);
    assert HeaderLines([]) == [];
    assert ["GET / H"] + [] == ["GET / H"];
    Reparse(REQUEST);
    hide ParseRequest, Find;
  }

  function Asks(): Event {
    OnClientReadable(Ok(Serialise(REQUEST)))
  }

  /** The first connect is still under way when its handler returns; every later one is refused. */
  function FirstPends(now: int): Net {
    Net(now, k => if k == 1 then InProgress else Refused, AllSent)
  }

  ghost function Asked(id: nat, ip: string, now: int, b: Backend): Conn {
    Step(Start(id, ip, now), Asks(), FirstPends(now), [Some(b)])
  }

  /** The request was taken over, and its first backend's connect is under way. */
  lemma AskedFacts(id: nat, ip: string, now: int, b: Backend)
    ensures var c := Asked(id, ip, now, b);
            && Inv(c) && c.state == ConnectingToBackend && c.attempts == 1 && c.id == id
            && c.backendAddr == Some(b) && c.tried == {} && !c.clientBytesSent && c.pendingUnregister == None
            && c.backendSock == Some(BackendSock(id, 1)) && !c.isChunked
            && c.parsed == Some(Inject(REQUEST, ip)) && CanRetry(c) && !c.aborted
  {
    var s := Start(id, ip, now);
    StartInv(id, ip, now);
    StepInv(s, Asks(), FirstPends(now), [Some(b)]);
    RequestParses();
    IsGet(ip);
    hide Inv, Inject, Serialise, ParseRequest, IsIdempotent, ErrorPage, FailBackend;
    assert "" + Serialise(REQUEST) == Serialise(REQUEST);
    var net := FirstPends(now);
    var d := Refresh(s.(requestBuf := Serialise(REQUEST)), now);
    var e := d.(parsed := Some(Inject(REQUEST, ip)), forwardBuf := Serialise(Inject(REQUEST, ip)), forwardOffset := 0);
    var f := e.(backendAddr := Some(b), attempts := 1, notified := false);
    assert Dispatch(d, REQUEST, net, [Some(b)]) == Initiate(f, b, net, Later([Some(b)]));
    assert Initiate(f, b, net, Later([Some(b)])) == OpenSocket(f, b, now);
  }

  lemma IsGet(ip: string)
    ensures IsIdempotent(Inject(REQUEST, ip))
  {
    hide InjectHeaders;
    assert Upper("GET") == "GET";
  }

  /** A dead socket stays registered in a run of two handler calls: the first connect fails late,
      and the retry's connect is refused at once. */
  lemma {:induction false} SocketStaysBehind(id: nat, ip: string, now: int, a: Backend, b: Backend)
    requires a != b
    ensures var c := Asked(id, ip, now, a);
            var m := map[ClientSock(id) := Read, BackendSock(id, 1) := Write];
            var d := Step(c, OnBackendWritable(false, WouldBlock), FirstPends(now), [Some(b)]);
            InterestOk(c, m) && NoneStale(c, m) && !NoneStale(Settled(d), Transitioned(m, d, c.state))
  {
    AskedFacts(id, ip, now, a);
    hide Asked, Step, Inv, Transitioned, CanRetry;
    var c := Asked(id, ip, now, a);
    var m := map[ClientSock(id) := Read, BackendSock(id, 1) := Write];
    assert InterestOk(c, m) && NoneStale(c, m);
    assert {} + {a} == {a};
    assert Reply([Some(b)], {a}) == Some(b);
    StaleIffSecondFailure(c, OnBackendWritable(false, WouldBlock), FirstPends(now), [Some(b)], m);
  }

  // ---------- A slot kept for ever ----------

  lemma SendsAll(c: Conn, net: Net)
    requires Inv(c) && c.state == ConnectingToBackend && c.forwardOffset == 0 && !c.isChunked
    ensures var d := Step(c, OnBackendWritable(true, Ok(|c.forwardBuf|)), net, []);
            d.state == ReadingResponse && d.backendAddr == c.backendAddr && !d.isChunked && d.aborted == c.aborted
  {
    hide Inv, RecordSent, FailBackend;
    var e := Enter(c, ForwardingRequest, net.now);
    var f := if |c.forwardBuf| > 0 then Refresh(e, net.now) else e;
    RecordKeeps(f, |c.forwardBuf|);
  }

  lemma RecordKeeps(c: Conn, n: nat)
    ensures var d := RecordSent(c, n);
            d == c.(sessions := d.sessions)
  {
  }

  lemma NothingMoved(c: Conn)
    requires Inv(c) && c.state == ConnectingToBackend
    ensures c.forwardOffset == 0
  {
    hide Attempts;
  }

  lemma EndOfFile(c: Conn, net: Net)
    requires c.state == ReadingResponse && !c.isChunked
    ensures var d := Step(c, OnBackendReadable(Ok("")), net, []);
            d.state == ForwardingResponse && d.backendAddr == c.backendAddr && d.aborted == c.aborted
  {
    hide FailBackend, ResponseReceived, ChunkedLength, BodyOf;
  }

  /** Four handler calls after which a connection is done and holds its backend's slot: the request
      is read, sent on, answered by an end of file, and the send to the client fails. */
  function KeepsSlotRun(ip: string, now: int, b: Backend): seq<Input> {
    var net := FirstPends(now);
    [Input(Asks(), net, [Some(b)]),
     Input(OnBackendWritable(true, Ok(|Serialise(Inject(REQUEST, ip))|)), net, []),
     Input(OnBackendReadable(Ok("")), net, []),
     Input(OnClientWritable(Failed), net, [])]
  }

  lemma {:induction false} SlotKept(id: nat, ip: string, now: int, b: Backend)
    ensures var c := Run(Start(id, ip, now), KeepsSlotRun(ip, now, b));
            c.state == Done && c.aborted && Holds(c, b)
  {
    var s, inputs, net := Start(id, ip, now), KeepsSlotRun(ip, now, b), FirstPends(now);
    AskedFacts(id, ip, now, b);
    var c1 := Asked(id, ip, now, b);
    OpenedSends(c1);
    NothingMoved(c1);
    SendsAll(c1, net);
    var c2 := Step(c1, inputs[1].event, net, []);
    EndOfFile(c2, net);
    var c3 := Step(c2, inputs[2].event, net, []);
    var c4 := Step(c3, inputs[3].event, net, []);
    assert c4.aborted && c4.state == Done && c4.backendAddr == Some(b);
    FourSteps(s, inputs);
    hide Step, Run, Start, Inv;
    StartInv(id, ip, now);
    RunInv(s, inputs);
    HoldsIff(Run(s, inputs), b);
  }

  lemma OpenedSends(c: Conn)
    requires Inv(c) && c.attempts == 1
    ensures c.parsed.Some? && c.forwardBuf == Serialise(c.parsed.value)
  {
    hide Phase, Serialise;
  }

  ghost function After(c: Conn, i: Input): Conn {
    Step(c, i.event, i.net, i.replies)
  }

  lemma FourSteps(c: Conn, inputs: seq<Input>)
    requires |inputs| == 4
    ensures Run(c, inputs) == After(After(After(After(c, inputs[0]), inputs[1]), inputs[2]), inputs[3])
  {
    hide Step;
    assert inputs[..3][..2] == inputs[..2] && inputs[..2][..1] == inputs[..1] && inputs[..1][..0] == [];
    assert Run(c, inputs[..1]) == After(c, inputs[0]);
    assert Run(c, inputs[..2]) == After(Run(c, inputs[..1]), inputs[1]);
    assert Run(c, inputs[..3]) == After(Run(c, inputs[..2]), inputs[2]);
  }

  // ---------- A whole exchange ----------

  const REPLY := Request("HTTP/1.1", "200", "OK", [Header("content-length", "0")], "")

  lemma ReplyGood()
    ensures GoodRequest(REPLY)
  {
    assert FirstLine(REPLY) == "HTTP/1.1 200 OK";
    assert forall j :: !CrlfAt("HTTP/1.1 200 OK", j);
    assert forall j :: !CrlfAt("0", j);
    assert forall j :: 0 <= j < |"content-length"| ==> "content-length"[j] != '\r' && "content-length"[j] != ':';
  }

  lemma ReplyFields()
    ensures var lines := HeaderLines(REPLY.headers);
            FieldValue(lines, "content-length") == Some("0") && FieldValue(lines, "transfer-encoding") == None
  {
    ReplyGood();
    var h := REPLY.headers[0];
    var lines := HeaderLines(REPLY.headers);
    assert lines == [HeaderLine(h)] && lines[1..] == [];
    HeaderLineGood(h);
    assert Lower("content-length") == "content-length";
    assert "content-length" != "transfer-encoding";
    hide Lower, Strip, Find, HeaderLine, GoodHeader;
    assert FieldValue([], "transfer-encoding") == None;
  }

  lemma ZeroLength()
    ensures PyInt.ParseInt("0", 10) == Some(0)
  {
    StripFixes("0");
    assert "0"[1..] == "";
    assert PyInt.Digits("0", 10, 0, true) == PyInt.Digits("0"[1..], 10, 0, false);
  }

  /** A response without a body, announced as such. */
  lemma ReplyDelimits()
    ensures SelfDelimiting(Head(REPLY)) && Head(REPLY) != ""
  {
    ReplyGood();
    HeadEnds(REPLY, "");
    assert Head(REPLY) + "" == Head(REPLY);
    ReplyFields();
    ZeroLength();
    hide Head, Split, FieldValue, Find, GoodRequest, PyInt.ParseInt;
    var lines := [FirstLine(REPLY)] + HeaderLines(REPLY.headers);
    assert lines[1..] == HeaderLines(REPLY.headers);
    assert ResponseLines(Head(REPLY)) == Some(HeaderLines(REPLY.headers));
    ContentLengthDelimits(Head(REPLY), "");
  }

  function ExchangeRun(ip: string, now: int, b: Backend): seq<Input> {
    var net := FirstPends(now);
    [Input(Asks(), net, [Some(b)]),
     Input(OnBackendWritable(true, Ok(|Serialise(Inject(REQUEST, ip))|)), net, []),
     Input(OnBackendReadable(Ok(Head(REPLY))), net, []),
     Input(OnClientWritable(Ok(|Head(REPLY)|)), net, [])]
  }

  lemma NoneReadYet(c: Conn)
    requires Inv(c) && c.state == ConnectingToBackend
    ensures c.responseBuf == ""
  {
    hide Attempts;
  }

  lemma StillNoneRead(c: Conn, n: nat, net: Net)
    ensures Step(c, OnBackendWritable(true, Ok(n)), net, []).responseBuf == c.responseBuf
  {
    hide Enter, RequestSent, FailBackend;
    var d := if c.state == ConnectingToBackend then Enter(c, ForwardingRequest, net.now) else c;
    EnterKeeps(c, ForwardingRequest, net.now);
    var rest := if d.forwardOffset < |d.forwardBuf| then |d.forwardBuf| - d.forwardOffset else 0;
    RequestSentKeeps(d, Min(n, rest), net.now);
  }

  lemma RelaysAll(c: Conn, net: Net)
    requires Inv(c) && c.state == ForwardingResponse && c.relayOffset == 0
    ensures var d := Step(c, OnClientWritable(Ok(|c.relayBuf|)), net, []);
            d.state == Done && Unspoilt(d) && d.clientOut == c.relayBuf
  {
    RelayCompletes(c, Ok(|c.relayBuf|), net);
    Relaying(c);
    assert c.relayBuf[0..] == c.relayBuf;
    RelayedKeepsRest(c, |c.relayBuf|, c.relayBuf[..|c.relayBuf|], net.now);
    hide Inv, Refresh;
    RefreshKeepsRest(c.(clientBytesSent := true), net.now);
  }

  lemma Relaying(c: Conn)
    requires Inv(c) && c.state == ForwardingResponse
    ensures c.sessions != [] && c.page == None && !c.aborted
  {
    hide Attempts;
  }

  /** A run that meets all that WholeExchange and ExactDelivery ask for. */
  lemma {:induction false} ExchangeCompletes(id: nat, ip: string, now: int, b: Backend)
    ensures var inputs := ExchangeRun(ip, now, b);
            var c := Run(Start(id, ip, now), inputs);
            && !Closed(inputs) && !Timed(inputs) && SelfDelimiting(Head(REPLY)) && ClientStream(inputs) == Serialise(REQUEST)
            && c.state == Done && Unspoilt(c) && c.clientOut == Head(REPLY)
  {
    hide Inv, Head, Serialise, Inject, SelfDelimiting, Asked, Start, Step, Run;
    var s, inputs, net := Start(id, ip, now), ExchangeRun(ip, now, b), FirstPends(now);
    ReplyDelimits();
    var c3 := AnsweredRun(id, ip, now, b);
    RelaysAll(c3, net);
    FourSteps(s, inputs);
    AskedFirst(id, ip, now, b);
    AsksOnce(inputs);
  }

  lemma AskedFirst(id: nat, ip: string, now: int, b: Backend)
    ensures Asked(id, ip, now, b) == After(Start(id, ip, now), ExchangeRun(ip, now, b)[0])
  {
    hide Step, Start, Serialise, Inject, Head;
  }

  /** The exchange up to its third handler call. */
  lemma AnsweredRun(id: nat, ip: string, now: int, b: Backend) returns (c: Conn)
    ensures var inputs := ExchangeRun(ip, now, b);
            && c == After(After(Asked(id, ip, now, b), inputs[1]), inputs[2])
            && Inv(c) && c.state == ForwardingResponse && c.relayBuf == Head(REPLY) && c.relayOffset == 0
  {
    hide Inv, Head, Serialise, Inject, SelfDelimiting, Asked, Start, Step, CanRetry;
    var inputs, net := ExchangeRun(ip, now, b), FirstPends(now);
    AskedFacts(id, ip, now, b);
    var c1 := Asked(id, ip, now, b);
    OpenedSends(c1);
    NothingMoved(c1);
    NoneReadYet(c1);
    SendsAll(c1, net);
    StillNoneRead(c1, |c1.forwardBuf|, net);
    StepInv(c1, inputs[1].event, net, []);
    var c2 := After(c1, inputs[1]);
    Answered(c2, net);
    StepInv(c2, inputs[2].event, net, []);
    c := After(c2, inputs[2]);
  }

  lemma Answered(c: Conn, net: Net)
    requires Inv(c) && c.state == ReadingResponse && c.responseBuf == ""
    ensures var d := Step(c, OnBackendReadable(Ok(Head(REPLY))), net, []);
            d.state == ForwardingResponse && d.relayBuf == Head(REPLY) && d.relayOffset == 0
  {
    ReplyDelimits();
    assert "" + Head(REPLY) == Head(REPLY);
    hide Inv, Head, Verdict;
    ReceiveVerdict(c, Head(REPLY), net, []);
  }

  lemma AsksOnce(inputs: seq<Input>)
    requires |inputs| == 4 && inputs[0].event == Asks()
    requires forall i :: 1 <= i < 4 ==> !inputs[i].event.OnClientReadable?
    ensures ClientStream(inputs) == Serialise(REQUEST)
  {
    hide Serialise;
    assert inputs[..3][..2] == inputs[..2] && inputs[..2][..1] == inputs[..1] && inputs[..1][..0] == [];
    assert ClientStream(inputs[..1]) == "" + Serialise(REQUEST);
    assert ClientStream(inputs[..2]) == ClientStream(inputs[..1]) + "";
    assert ClientStream(inputs[..3]) == ClientStream(inputs[..2]) + "";
  }
}
