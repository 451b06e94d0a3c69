/** What each handler does, said in plain terms: the outcomes of its socket calls on the left, the
    state, the pages, the deadlines and the retries on the right. */
module Handlers {
  import opened Wrappers
  import opened Bytes
  import opened PyInt
  import opened Http
  import opened HttpRoundTrip
  import opened HeaderText
  import opened Pools
  import opened Protocol
  import opened ProtocolInvariant
  import opened ProtocolRuns
  import opened Fragmentation
  import opened EndToEnd
  import opened Selector
  import Chunked
  import ChunkedFraming

  // ---------- The error pages ----------

  /** The text of a page; `length` is that of its last line. */
  function PageText(code: string, reason: string, length: string): string {
    var body := "<h1>" + code + " " + reason + "</h1>";
    "HTTP/1.1 " + code + " " + reason + "\r\n"
    + "Content-Length: " + length + "\r\n"
    + "Content-Type: text/html" + "\r\n"
    + "Connection: close" + "\r\n"
    + "\r\n"
    + body
  }

  const PAGE_408 := PageText("408", "Request Timeout", "28")
  const PAGE_413 := PageText("413", "Request Entity Too Large", "37")
  const PAGE_502 := PageText("502", "Bad Gateway", "24")
  const PAGE_503 := PageText("503", "Service Unavailable", "32")
  const PAGE_504 := PageText("504", "Gateway Timeout", "28")

  lemma Decimals()
    ensures Decimal(24) == "24" && Decimal(28) == "28" && Decimal(32) == "32" && Decimal(37) == "37"
    ensures Decimal(408) == "408" && Decimal(413) == "413" && Decimal(502) == "502"
    ensures Decimal(503) == "503" && Decimal(504) == "504"
  {
    assert Decimal(2) == "2" && Decimal(3) == "3" && Decimal(4) == "4" && Decimal(5) == "5";
    assert Decimal(40) == "40" && Decimal(41) == "41" && Decimal(50) == "50";
  }

  lemma Page408()
    ensures ErrorPage(408, "Request Timeout") == PAGE_408
  {
    Decimals();
    hide Decimal;
    assert |"<h1>" + "408" + " " + "Request Timeout" + "</h1>"| == 28;
  }

  lemma Page413()
    ensures ErrorPage(413, "Request Entity Too Large") == PAGE_413
  {
    Decimals();
    hide Decimal;
    assert |"<h1>" + "413" + " " + "Request Entity Too Large" + "</h1>"| == 37;
  }

  lemma Page502()
    ensures ErrorPage(502, "Bad Gateway") == PAGE_502
  {
    Decimals();
    hide Decimal;
    assert |"<h1>" + "502" + " " + "Bad Gateway" + "</h1>"| == 24;
  }

  lemma Page503()
    ensures ErrorPage(503, "Service Unavailable") == PAGE_503
  {
    Decimals();
    hide Decimal;
    assert |"<h1>" + "503" + " " + "Service Unavailable" + "</h1>"| == 32;
  }

  lemma Page504()
    ensures ErrorPage(504, "Gateway Timeout") == PAGE_504
  {
    Decimals();
    hide Decimal;
    assert |"<h1>" + "504" + " " + "Gateway Timeout" + "</h1>"| == 28;
  }

  lemma PageTexts()
    ensures ErrorPage(408, "Request Timeout") == PAGE_408
    ensures ErrorPage(413, "Request Entity Too Large") == PAGE_413
    ensures ErrorPage(502, "Bad Gateway") == PAGE_502
    ensures ErrorPage(503, "Service Unavailable") == PAGE_503
    ensures ErrorPage(504, "Gateway Timeout") == PAGE_504
  {
    hide ErrorPage;
    Page408();
    Page413();
    Page502();
    Page503();
    Page504();
  }

  /** A plain header line is exactly one field. */
  lemma PlainField(name: string, value: string, n: string, v: string)
    requires ':' !in name && Trimmed(name) && Trimmed(value)
    ensures FieldOf(name + ": " + value, n, v) <==> n == name && v == value
  {
    var line := name + ": " + value;
    FindChar(name, ':', " " + value);
    assert line == name + [':'] + (" " + value);
    assert line[..|name|] == name && line[|name| + 1..] == " " + value;
    StripFixes(name);
    StripFixes(value);
    FieldIff(line, n, v);
  }

  /** Every error page is a complete response by its own framing. */
  lemma {:induction false} PageDelimits(code: nat, reason: string)
    requires NoCrlf(reason)
    ensures SelfDelimiting(ErrorPage(code, reason))
  {
    var body := "<h1>" + Decimal(code) + " " + reason + "</h1>";
    var first := "HTTP/1.1 " + Decimal(code) + " " + reason;
    var lines := ["Content-Length: " + Decimal(|body|), "Content-Type: text/html", "Connection: close"];
    PageLines(code, reason, |body|);
    PageFields(|body|);
    PageIsHead(code, reason);
    hide Decimal, HeadText, GoodLines, IsField, FirstField, Numeral, SelfDelimiting, ErrorPage;
    DecimalIs(|body|);
    var head := HeadText(first, lines);
    assert head + "" == head;
    ResponseLengthMeans(first, lines, "", Decimal(|body|), 0, |body|);
    ChunkedMeans(first, lines, "", "", 0);
    HeadSplits(first, lines, "");
    HeadIsBlock(first, lines);
    ContentLengthDelimits(head, body);
  }

  lemma HeadIsBlock(first: string, lines: seq<string>)
    requires Find(HeadText(first, lines) + "", DELIM, 0) == |HeadText(first, lines)| - 4 >= 0
    ensures HeaderBlock(HeadText(first, lines))
  {
    assert HeadText(first, lines) + "" == HeadText(first, lines);
    hide HeadText, Find;
  }

  lemma PageIsHead(code: nat, reason: string)
    ensures var body := "<h1>" + Decimal(code) + " " + reason + "</h1>";
            var first := "HTTP/1.1 " + Decimal(code) + " " + reason;
            var lines := ["Content-Length: " + Decimal(|body|), "Content-Type: text/html", "Connection: close"];
            ErrorPage(code, reason) == HeadText(first, lines) + body
  {
    hide Decimal;
    var body := "<h1>" + Decimal(code) + " " + reason + "</h1>";
    var first := "HTTP/1.1 " + Decimal(code) + " " + reason;
    var a, b, c := "Content-Length: " + Decimal(|body|), "Content-Type: text/html", "Connection: close";
    JoinFour(first, a, b, c);
    assert [first] + [a, b, c] == [first, a, b, c];
  }

  lemma JoinFour(a: string, b: string, c: string, d: string)
    ensures Join([a, b, c, d]) == a + CRLF + b + CRLF + c + CRLF + d
  {
    assert [a, b, c, d][1..] == [b, c, d] && [b, c, d][1..] == [c, d] && [c, d][1..] == [d];
    assert Join([c, d]) == c + CRLF + Join([d]);
    assert Join([b, c, d]) == b + CRLF + Join([c, d]);
    assert Join([a, b, c, d]) == a + CRLF + Join([b, c, d]);
  }

  lemma DecimalPlain(n: nat)
    ensures Decimal(n) != "" && Trimmed(Decimal(n)) && NoCrlf(Decimal(n))
  {
    DecimalIs(n);
    hide Numeral, Unsigned, Decimal;
    NumeralPlain(Decimal(n), 10, n);
  }

  lemma PageLines(code: nat, reason: string, n: nat)
    requires NoCrlf(reason)
    ensures var first := "HTTP/1.1 " + Decimal(code) + " " + reason;
            GoodLines([first, "Content-Length: " + Decimal(n), "Content-Type: text/html", "Connection: close"])
    ensures var first := "HTTP/1.1 " + Decimal(code) + " " + reason;
            [first] + ["Content-Length: " + Decimal(n), "Content-Type: text/html", "Connection: close"]
            == [first, "Content-Length: " + Decimal(n), "Content-Type: text/html", "Connection: close"]
  {
    DecimalPlain(code);
    DecimalPlain(n);
    hide Decimal;
    PlainText("HTTP/1.1 ");
    PlainText("Content-Length: ");
    PlainText("Content-Type: text/html");
    PlainText("Connection: close");
    PlainText(" ");
    hide NoCrlf;
    Follow("HTTP/1.1 ", Decimal(code));
    Follow("HTTP/1.1 " + Decimal(code), " ");
    Follow("HTTP/1.1 " + Decimal(code) + " ", reason);
    Follow("Content-Length: ", Decimal(n));
  }

  lemma PlainText(s: string)
    requires forall i :: 0 <= i < |s| ==> s[i] != '\r'
    ensures NoCrlf(s)
  {
  }

  /** Behind text without a carriage return at its end no CRLF arises. */
  lemma Follow(a: string, b: string)
    requires NoCrlf(a) && NoCrlf(b) && a != "" && (a[|a| - 1] != '\r')
    ensures NoCrlf(a + b)
  {
    NoCrlfConcat(a, b);
  }

  lemma PageFields(n: nat)
    ensures var lines := ["Content-Length: " + Decimal(n), "Content-Type: text/html", "Connection: close"];
            && FirstField(lines, "content-length", Decimal(n), 0)
            && forall j, v :: 0 <= j < |lines| ==> !IsField(lines[j], "transfer-encoding", v)
  {
    DecimalPlain(n);
    hide Decimal, FieldOf;
    var lines := ["Content-Length: " + Decimal(n), "Content-Type: text/html", "Connection: close"];
    assert lines[0] == "Content-Length" + ": " + Decimal(n);
    assert lines[1] == "Content-Type" + ": " + "text/html" && lines[2] == "Connection" + ": " + "close";
    CaseOfLength();
    forall j, v, name | 0 <= j < |lines| && FieldOf(lines[j], name, v)
      ensures |name| != |"transfer-encoding"|
    {
      match j {
        case 0 => PlainField("Content-Length", Decimal(n), name, v);
        case 1 => PlainField("Content-Type", "text/html", name, v);
        case _ => PlainField("Connection", "close", name, v);
      }
    }
    PlainField("Content-Length", Decimal(n), "Content-Length", Decimal(n));
  }

  lemma CaseOfLength()
    ensures CaseOf("Content-Length", "content-length")
  {
    assert Lower("Content-Length") == "content-length";
    assert Lower("content-length") == "content-length";
    CaseIff("Content-Length", "content-length");
  }

  /** The connection ended with this page, which the client was given as far as it could be sent. */
  predicate Answers(c: Conn, d: Conn, page: string, net: Net) {
    && d.state == Done && d.page == Some(page)
    && d.clientOut == c.clientOut + page[..match net.sendAll case AllSent => |page| case Broken(k) => if k < |page| then k else |page|]
    && d.sessions == c.sessions
  }

  lemma SendErrorAnswers(c: Conn, code: nat, reason: string, net: Net)
    ensures Answers(c, SendError(c, code, reason, net), ErrorPage(code, reason), net)
  {
    hide ErrorPage;
  }

  // ---------- Reading the request ----------

  /** What becomes of bytes read from the client: more than 10 MiB is answered 413; without a whole
      request the bytes are kept and 30 more seconds given; and for a request without a backend on
      offer the answer is 503. */
  ghost predicate Reads(c: Conn, bytes: string, d: Conn, net: Net, replies: Replies) {
    && d.requestBuf == bytes
    && (if |bytes| > 10_485_760 then Answers(c, d, PAGE_413, net)
        else if ParseRequest(bytes).None? then
          d == c.(requestBuf := bytes, deadline := net.now + 30_000, deadlineGen := c.deadlineGen + 1)
        else
          && d.forwardBuf == Serialise(Inject(ParseRequest(bytes).value, c.clientIp))
          && (if replies != [] && replies[0].Some?
              then |d.sessions| > |c.sessions| && d.sessions[|c.sessions|].backend == replies[0].value
              else Answers(c, d, PAGE_503, net)))
  }

  /** Would-block changes nothing, and an error or an end of file ends the connection silently. */
  lemma {:induction false} ReadsClient(c: Conn, recv: Io<string>, net: Net, replies: Replies)
    ensures var d := Step(c, OnClientReadable(recv), net, replies);
            if c.state != ReadingRequest || recv == WouldBlock then d == c
            else if recv == Failed || recv == Ok("") then d == c.(state := Done, changes := c.changes + 1)
            else Reads(c, c.requestBuf + recv.value, d, net, replies)
  {
    hide ParseRequest, Dispatch, SendError, Reads, Refresh;
    if c.state == ReadingRequest && recv.Ok? && recv.value != "" {
      ReadsData(c, c.requestBuf + recv.value, net, replies);
    }
  }

  lemma ReadsData(c: Conn, bytes: string, net: Net, replies: Replies)
    requires c.state == ReadingRequest
    ensures var d := Refresh(c.(requestBuf := bytes), net.now);
            && d.requestBuf == bytes
            && Reads(c, bytes, if |bytes| > MAX_REQUEST_SIZE then SendError(d, 413, "Request Entity Too Large", net)
                               else match ParseRequest(bytes)
                                    case None => d
                                    case Some(req) => Dispatch(d, req, net, replies), net, replies)
  {
    hide ParseRequest, Dispatch, SendError, Answers, Serialise, Inject, Refresh;
    var d := Refresh(c.(requestBuf := bytes), net.now);
    RefreshIs(c.(requestBuf := bytes), net.now);
    TooLarge(c, d, net);
    if ParseRequest(bytes).Some? {
      Parsed(c, d, ParseRequest(bytes).value, net, replies);
    }
  }

  /** After bytes were read. */
  predicate MoreRead(c: Conn, d: Conn) {
    d == c.(requestBuf := d.requestBuf, deadline := d.deadline, deadlineGen := d.deadlineGen)
  }

  lemma TooLarge(c: Conn, d: Conn, net: Net)
    requires MoreRead(c, d)
    ensures var e := SendError(d, 413, "Request Entity Too Large", net);
            Answers(c, e, PAGE_413, net) && e.requestBuf == d.requestBuf
  {
    hide SendError, Answers;
    PageTexts();
    SendErrorAnswers(d, 413, "Request Entity Too Large", net);
    SameAnswer(c, d, SendError(d, 413, "Request Entity Too Large", net), PAGE_413, net);
    ErrorKeepsRequest(d, 413, "Request Entity Too Large", net);
  }

  lemma Parsed(c: Conn, d: Conn, req: Request, net: Net, replies: Replies)
    requires MoreRead(c, d)
    ensures var e := Dispatch(d, req, net, replies);
            && e.requestBuf == d.requestBuf && e.forwardBuf == Serialise(Inject(req, c.clientIp))
            && (if replies != [] && replies[0].Some?
                then |e.sessions| > |c.sessions| && e.sessions[|c.sessions|].backend == replies[0].value
                else Answers(c, e, PAGE_503, net))
  {
    hide Dispatch, Answers, Serialise, Inject;
    DispatchKeeps(d, req, net, replies);
    DispatchTakesOver(d, req, net, replies);
    FirstBackend(d, req, net, replies);
    SameAnswer(c, d, Dispatch(d, req, net, replies), PAGE_503, net);
  }

  lemma RefreshIs(c: Conn, now: int)
    ensures Refresh(c, now)
         == if c.state == Done then c
            else c.(deadlineGen := c.deadlineGen + 1, deadline := now + (if c.state == ConnectingToBackend then 5_000 else 30_000))
  {
  }

  lemma SameAnswer(c: Conn, d: Conn, e: Conn, page: string, net: Net)
    requires d.clientOut == c.clientOut && d.sessions == c.sessions
    ensures Answers(d, e, page, net) ==> Answers(c, e, page, net)
  {
  }

  lemma ErrorKeepsRequest(c: Conn, code: nat, reason: string, net: Net)
    ensures SendError(c, code, reason, net).requestBuf == c.requestBuf
  {
    hide ErrorPage;
  }

  lemma FirstBackend(c: Conn, req: Request, net: Net, replies: Replies)
    ensures var d := Dispatch(c, req, net, replies);
            if replies != [] && replies[0].Some?
            then |d.sessions| > |c.sessions| && d.sessions[|c.sessions|].backend == replies[0].value
            else Answers(c, d, PAGE_503, net)
  {
    hide Serialise, Inject, SendError, Initiate, Answers, ErrorPage;
    PageTexts();
    var injected := Inject(req, c.clientIp);
    var d := c.(parsed := Some(injected), forwardBuf := Serialise(injected), forwardOffset := 0);
    SendErrorAnswers(d, 503, "Service Unavailable", net);
    SameAnswer(c, d, SendError(d, 503, "Service Unavailable", net), PAGE_503, net);
    if replies != [] && replies[0].Some? {
      var b := replies[0].value;
      InitiateOpens(d.(backendAddr := Some(b), attempts := 1, notified := false), b, net, Later(replies));
    }
  }

  // ---------- Opening and retrying backends ----------

  /** The sessions only grow, and the first new one is with the backend connected to. */
  lemma {:induction false} InitiateOpens(c: Conn, b: Backend, net: Net, replies: Replies)
    ensures var d := Initiate(c, b, net, replies);
            |d.sessions| > |c.sessions| && d.sessions[..|c.sessions|] == c.sessions && d.sessions[|c.sessions|].backend == b
    decreases MAX_BACKEND_RETRIES + 1 - c.attempts, 1
  {
    hide FailBackend, OpenSocket, Enter;
    var d := OpenSocket(c, b, net.now);
    OpenSocketSession(c, b, net.now);
    EnterSession(d, ForwardingRequest, net.now);
    if net.connect(c.attempts).Refused? {
      FailBackendOpens(d, net, replies);
      var e := FailBackend(d, net, replies);
      assert e.sessions[..|d.sessions|][..|c.sessions|] == e.sessions[..|c.sessions|];
      assert e.sessions[..|d.sessions|][|c.sessions|] == e.sessions[|c.sessions|];
    }
  }

  lemma OpenSocketSession(c: Conn, b: Backend, now: int)
    ensures var d := OpenSocket(c, b, now);
            d.sessions == c.sessions + [Session(b, "", "")] && d.attempts == c.attempts
  {
  }

  lemma EnterSession(c: Conn, s: State, now: int)
    ensures Enter(c, s, now).sessions == c.sessions
  {
  }

  lemma {:induction false} FailBackendOpens(c: Conn, net: Net, replies: Replies)
    ensures var d := FailBackend(c, net, replies);
            |d.sessions| >= |c.sessions| && d.sessions[..|c.sessions|] == c.sessions
    decreases MAX_BACKEND_RETRIES + 1 - c.attempts, 0
  {
    hide ErrorPage, IsIdempotent;
    var d := Abandon(c);
    var reply := Reply(replies, d.tried);
    if CanRetry(d) && reply.Some? {
      hide Initiate;
      InitiateOpens(Retarget(d, reply.value), reply.value, net, Later(replies));
    }
  }

  /** The methods that may be repeated, in any casing. */
  predicate MayRepeat(verb: string) {
    || CaseOf(verb, "GET") || CaseOf(verb, "HEAD") || CaseOf(verb, "OPTIONS") || CaseOf(verb, "PUT") || CaseOf(verb, "DELETE")
  }

  lemma MayRepeatIff(r: Request)
    ensures IsIdempotent(r) <==> MayRepeat(r.verb)
  {
    NamesUpper();
    CaseIff(r.verb, "GET");
    CaseIff(r.verb, "HEAD");
    CaseIff(r.verb, "OPTIONS");
    CaseIff(r.verb, "PUT");
    CaseIff(r.verb, "DELETE");
    hide Upper, CaseOf;
  }

  lemma NamesUpper()
    ensures Upper("GET") == "GET" && Upper("HEAD") == "HEAD" && Upper("OPTIONS") == "OPTIONS"
    ensures Upper("PUT") == "PUT" && Upper("DELETE") == "DELETE"
  {
  }

  predicate Untried(c: Conn, b: Backend) {
    forall i :: 0 <= i < |c.sessions| ==> c.sessions[i].backend != b
  }

  /** A failed backend is replaced if and only if the method may be repeated, fewer than three
      backends were opened, and the router offers one that was not; otherwise the answer is 502. */
  lemma {:induction false} RetryIff(c: Conn, ev: Event, net: Net, replies: Replies)
    requires Inv(c) && BackendFails(c, ev)
    ensures var d := Step(c, ev, net, replies);
            && c.parsed.Some?
            && (if MayRepeat(c.parsed.value.verb) && |c.sessions| < 3
                   && replies != [] && replies[0].Some? && Untried(c, replies[0].value)
                then |d.sessions| > |c.sessions| && d.sessions[|c.sessions|].backend == replies[0].value
                else Answers(c, d, PAGE_502, net))
  {
    hide FailBackend, Enter, RequestSent, ResponseReceived, PrepareRelay, ChunkedLength, BodyOf, Inv, MayRepeat, Untried, Answers;
    RetryHere(c, net, replies);
    if c.state == ConnectingToBackend {
      var d := Enter(c, ForwardingRequest, net.now);
      ConnectedInv(c, net.now);
      RetryHere(d, net, replies);
      EnteredSame(c, net.now);
      SameAnswer(c, d, FailBackend(d, net, replies), PAGE_502, net);
      SameUntried(c, d, replies);
    }
  }

  lemma EnteredSame(c: Conn, now: int)
    ensures var d := Enter(c, ForwardingRequest, now);
            d.sessions == c.sessions && d.parsed == c.parsed && d.clientOut == c.clientOut
  {
  }

  lemma SameUntried(c: Conn, d: Conn, replies: Replies)
    requires c.sessions == d.sessions
    ensures forall b :: Untried(c, b) == Untried(d, b)
  {
  }

  lemma RetryHere(c: Conn, net: Net, replies: Replies)
    requires Inv(c)
    ensures OnBackend(c.state) ==>
              var d := FailBackend(c, net, replies);
              && c.parsed.Some?
              && (if MayRepeat(c.parsed.value.verb) && |c.sessions| < 3
                     && replies != [] && replies[0].Some? && Untried(c, replies[0].value)
                  then |d.sessions| > |c.sessions| && d.sessions[|c.sessions|].backend == replies[0].value
                  else Answers(c, d, PAGE_502, net))
  {
    if OnBackend(c.state) {
      RetryAllowed(c);
      if replies != [] && replies[0].Some? {
        TriedIff(c, replies[0].value);
      }
      hide Inv, Abandon, Answers, MayRepeat, Untried, CanRetry;
      RetriesOrEnds(c, net, replies);
    }
  }

  lemma RetriesOrEnds(c: Conn, net: Net, replies: Replies)
    ensures var d := FailBackend(c, net, replies);
            if CanRetry(Abandon(c)) && Reply(replies, Abandon(c).tried).Some?
            then |d.sessions| > |c.sessions| && d.sessions[|c.sessions|].backend == Reply(replies, Abandon(c).tried).value
            else Answers(c, d, PAGE_502, net)
  {
    hide Abandon, Answers, CanRetry, SendError, Initiate, Retarget, Reply;
    AbandonSame(c);
    var d := Abandon(c);
    PageTexts();
    SendErrorAnswers(d, 502, "Bad Gateway", net);
    SameAnswer(c, d, SendError(d, 502, "Bad Gateway", net), PAGE_502, net);
    if CanRetry(d) && Reply(replies, d.tried).Some? {
      var b := Reply(replies, d.tried).value;
      InitiateOpens(Retarget(d, b), b, net, Later(replies));
      RetargetSame(d, b);
    }
  }

  lemma AbandonSame(c: Conn)
    ensures Abandon(c).sessions == c.sessions && Abandon(c).clientOut == c.clientOut
  {
  }

  lemma RetargetSame(c: Conn, b: Backend)
    ensures Retarget(c, b).sessions == c.sessions
  {
  }

  lemma RetryAllowed(c: Conn)
    requires Inv(c) && OnBackend(c.state)
    ensures c.parsed.Some?
    ensures CanRetry(Abandon(c)) <==> MayRepeat(c.parsed.value.verb) && |c.sessions| < 3
  {
    MayRepeatIff(c.parsed.value);
    hide MayRepeat, IsIdempotent, SentPrefixes, DistinctBackends, Backends;
  }

  lemma TriedIff(c: Conn, b: Backend)
    requires Inv(c) && OnBackend(c.state)
    ensures b in Abandon(c).tried <==> !Untried(c, b)
  {
    AbandonFacts(c);
    AbandonSame(c);
    hide Inv, Abandon;
    if !Untried(c, b) {
      var i :| 0 <= i < |c.sessions| && c.sessions[i].backend == b;
    }
  }

  // ---------- Timeouts ----------

  /** 408 while the request is read, 504 until the client was given a byte, and then a silent end. */
  lemma {:induction false} TimesOut(c: Conn, net: Net, replies: Replies)
    requires Inv(c)
    ensures var d := Step(c, OnTimeout, net, replies);
            if c.state == Done then d == c
            else if c.state == ReadingRequest then Answers(c, d, PAGE_408, net)
            else if c.clientOut == "" then Answers(c, d, PAGE_504, net)
            else d.state == Done && d.page == None && d.clientOut == c.clientOut && d.notified
  {
    hide Inv, SendError, Answers, ErrorPage;
    if c.state != Done {
      BytesMean(c);
    }
    PageTexts();
    SendErrorAnswers(c, 408, "Request Timeout", net);
    SendErrorAnswers(c, 504, "Gateway Timeout", net);
  }

  lemma BytesMean(c: Conn)
    requires Inv(c) && c.state != Done
    ensures c.clientBytesSent <==> c.clientOut != ""
    ensures c.page == None
    ensures c.clientOut != "" ==> c.backendAddr.Some? && c.state != ReadingRequest
  {
    hide Attempts;
  }

  // ---------- Judging the response ----------

  /** With a Content-Length of `n` the response is whole from `n` body bytes on, and all that was
      read is relayed; a chunked one is whole when its body scans, and is cut there; and one with
      neither is never whole before the end of file. */
  lemma {:induction false} VerdictMeans(first: string, lines: seq<string>, body: string, value: string, k: int, n: nat,
                                        coding: string, j: int)
    requires GoodLines([first] + lines)
    ensures var head := HeadText(first, lines);
            var plain := (forall i, v :: 0 <= i < |lines| ==> !IsField(lines[i], "transfer-encoding", v))
                         || (FirstField(lines, "transfer-encoding", coding, j) && !NamesChunked(coding));
            && (plain && FirstField(lines, "content-length", value, k) && Numeral(value, 10, n) ==>
                  Verdict(head + body) == if |body| >= n then Some(head + body) else None)
            && (plain && (forall i, v :: 0 <= i < |lines| ==> !IsField(lines[i], "content-length", v)) ==>
                  Verdict(head + body) == None)
            && (FirstField(lines, "transfer-encoding", coding, j) && NamesChunked(coding) && Chunked.ForwardSizes(body, 0) ==>
                  Verdict(head + body) == match Chunked.Scan(body, 0)
                                          case None => None
                                          case Some(m) => if 0 <= m <= |body| then Some(head + body[..m]) else None)
  {
    hide GoodLines, IsField, FirstField, NamesChunked, Numeral, HeadText, Chunked.ForwardSizes, Chunked.Scan, IsChunked,
      ResponseContentLength, ChunkedLength;
    ResponseLengthMeans(first, lines, body, value, k, n);
    ChunkedMeans(first, lines, body, coding, j);
    HeadSplits(first, lines, body);
    var head := HeadText(first, lines);
    BodyIs(head, body);
    if Chunked.ForwardSizes(body, 0) {
      ChunkedLengthIs(body);
      if Chunked.Scan(body, 0).Some? {
        ChunkedFraming.ScanInside(body, 0);
        CutIs(head, body, Chunked.Scan(body, 0).value);
      }
    }
  }

  lemma BodyIs(head: string, body: string)
    requires Find(head + body, DELIM, 0) == |head| - 4 >= 0
    ensures BodyOf(head + body) == body
  {
    hide Find;
    assert (head + body)[|head|..] == body;
  }

  lemma CutIs(head: string, body: string, m: int)
    requires 0 < m <= |body|
    ensures PySlice(head + body, 0, |head + body| - |body| + m) == head + body[..m]
  {
    assert (head + body)[..|head| + m] == head + body[..m];
  }

  // ---------- Sending ----------

  /** The bytes still to be forwarded go out from where the last send stopped, as many as the socket
      takes; the response is awaited exactly when none is left. A would-block leaves all as it is. */
  lemma {:induction false} WritesBackend(c: Conn, sent: Io<nat>, net: Net, replies: Replies)
    requires Inv(c) && c.state == ForwardingRequest && sent != Failed
    ensures var d := Step(c, OnBackendWritable(true, sent), net, replies);
            var left := |c.forwardBuf| - |Last(c).sent|;
            match sent
            case WouldBlock => d == c
            case Ok(k) =>
              var n := if k < left then k else left;
              && |d.sessions| == |c.sessions|
              && Last(d) == Last(c).(sent := c.forwardBuf[..|Last(c).sent| + n])
              && d.state == (if n == left then ReadingResponse else ForwardingRequest)
              && d.forwardBuf == c.forwardBuf
  {
    hide Inv, RequestSent, FailBackend, Enter;
    SendingFrom(c);
    if sent.Ok? {
      var n := Min(sent.value, |c.forwardBuf| - c.forwardOffset);
      SentIs(c, n, net.now);
    }
  }

  lemma SendingFrom(c: Conn)
    requires Inv(c) && c.state == ForwardingRequest
    ensures c.sessions != [] && c.forwardOffset <= |c.forwardBuf| && Last(c).sent == c.forwardBuf[..c.forwardOffset]
  {
    hide Attempts;
  }

  lemma SentIs(c: Conn, n: nat, now: int)
    requires c.sessions != [] && c.forwardOffset + n <= |c.forwardBuf| && c.state == ForwardingRequest
    requires Last(c).sent == c.forwardBuf[..c.forwardOffset]
    ensures var d := RequestSent(c, n, now);
            && |d.sessions| == |c.sessions|
            && Last(d) == Last(c).(sent := c.forwardBuf[..c.forwardOffset + n])
            && d.state == (if c.forwardOffset + n == |c.forwardBuf| then ReadingResponse else ForwardingRequest)
            && d.forwardBuf == c.forwardBuf
  {
    hide Refresh, Enter;
    RefreshKeepsRest(c, now);
    var d := if n > 0 then Refresh(c, now) else c;
    var o := c.forwardOffset;
    assert c.forwardBuf[..o] + c.forwardBuf[o..o + n] == c.forwardBuf[..o + n];
    var e := RecordSent(d, n).(forwardOffset := o + n);
    EnterSession(e, ReadingResponse, now);
    EnterForward(e, now);
  }

  lemma EnterForward(c: Conn, now: int)
    ensures var d := Enter(c, ReadingResponse, now); d.state == ReadingResponse && d.forwardBuf == c.forwardBuf
  {
  }

  /** The client gets the next bytes of the relay buffer, as many as the socket takes, and the
      connection ends, its backend released, exactly when all of it was given; a failed send ends it
      with the slot kept. */
  lemma {:induction false} WritesClient(c: Conn, sent: Io<nat>, net: Net, replies: Replies)
    requires Inv(c) && c.state == ForwardingResponse
    ensures var d := Step(c, OnClientWritable(sent), net, replies);
            var left := |c.relayBuf| - |c.clientOut|;
            match sent
            case WouldBlock => d == c
            case Failed => d.state == Done && d.aborted && d.clientOut == c.clientOut && !d.notified
            case Ok(k) =>
              var n := if k < left then k else left;
              && d.clientOut == c.relayBuf[..|c.clientOut| + n]
              && d.state == (if n == left then Done else ForwardingResponse)
              && d.notified == (n == left)
  {
    RelayingFrom(c);
    if sent.Ok? {
      var rest := c.relayBuf[c.relayOffset..];
      var n := Min(sent.value, |rest|);
      Pieces(c.relayBuf, c.relayOffset, n);
      RelayedKeeps(c, n, rest[..n], net.now);
      RelayedState(c, n, rest[..n], net.now);
    }
    hide Inv, Relayed;
  }

  lemma RelayingFrom(c: Conn)
    requires Inv(c) && c.state == ForwardingResponse
    ensures c.relayOffset <= |c.relayBuf| && c.clientOut == c.relayBuf[..c.relayOffset]
    ensures !c.notified && c.backendAddr.Some?
  {
    hide Attempts;
  }

  lemma RelayedState(c: Conn, n: nat, part: string, now: int)
    requires c.state == ForwardingResponse && c.backendAddr.Some? && !c.notified
    ensures var d := Relayed(c, n, part, now);
            && d.state == (if c.relayOffset + n >= |c.relayBuf| then Done else ForwardingResponse)
            && d.notified == (c.relayOffset + n >= |c.relayBuf|)
  {
    hide Refresh;
    RefreshKeepsRest(c.(clientBytesSent := true), now);
  }

  // ---------- Deadlines ----------

  /** The time given in each state. */
  function Patience(s: State): int {
    match s
    case ReadingRequest => 30_000
    case ConnectingToBackend => 5_000
    case ForwardingRequest => 30_000
    case ReadingResponse => 30_000
    case ForwardingResponse => 30_000
    case Done => 0
  }

  ghost predicate OnTime(c: Conn, d: Conn, now: int) {
    d.state == Done || d == c || (d.deadline == now + Patience(d.state) && d.deadlineGen > c.deadlineGen)
  }

  lemma StartsOnTime(id: nat, ip: string, now: int)
    ensures var c := Start(id, ip, now);
            && c.id == id && c.clientIp == ip && c.state == ReadingRequest && c.deadline == now + 30_000
            && c.requestBuf == "" && c.sessions == [] && c.clientOut == "" && c.page == None
  {
  }

  lemma EnterOnTime(c: Conn, s: State, now: int)
    requires s != Done
    ensures var d := Enter(c, s, now);
            d.state == s && d.deadline == now + Patience(s) && d.deadlineGen == c.deadlineGen + 1
  {
  }

  lemma RefreshOnTime(c: Conn, now: int)
    requires c.state != Done
    ensures var d := Refresh(c, now);
            && d.state == c.state && d.deadline == now + Patience(c.state) && d.deadlineGen == c.deadlineGen + 1
  {
  }

  lemma OpenOnTime(c: Conn, b: Backend, now: int)
    ensures var d := OpenSocket(c, b, now);
            && d.state == ConnectingToBackend && d.deadline == now + Patience(ConnectingToBackend)
            && d.deadlineGen == c.deadlineGen + 1 && d.attempts == c.attempts
  {
  }

  lemma {:induction false} InitiateOnTime(c: Conn, b: Backend, net: Net, replies: Replies)
    ensures var d := Initiate(c, b, net, replies);
            d.state == Done || (d.deadline == net.now + Patience(d.state) && d.deadlineGen > c.deadlineGen)
    decreases MAX_BACKEND_RETRIES + 1 - c.attempts, 1
  {
    hide FailBackend, OpenSocket, Enter;
    var d := OpenSocket(c, b, net.now);
    OpenOnTime(c, b, net.now);
    EnterOnTime(d, ForwardingRequest, net.now);
    if net.connect(c.attempts).Refused? {
      FailBackendOnTime(d, net, replies);
    }
  }

  lemma {:induction false} FailBackendOnTime(c: Conn, net: Net, replies: Replies)
    ensures var d := FailBackend(c, net, replies);
            d.state == Done || (d.deadline == net.now + Patience(d.state) && d.deadlineGen > c.deadlineGen)
    decreases MAX_BACKEND_RETRIES + 1 - c.attempts, 0
  {
    hide ErrorPage, IsIdempotent;
    var d := Abandon(c);
    var reply := Reply(replies, d.tried);
    if CanRetry(d) && reply.Some? {
      hide Initiate;
      InitiateOnTime(Retarget(d, reply.value), reply.value, net, Later(replies));
    }
  }

  lemma DispatchOnTime(c: Conn, req: Request, net: Net, replies: Replies)
    ensures var d := Dispatch(c, req, net, replies);
            d.state == Done || (d.deadline == net.now + Patience(d.state) && d.deadlineGen > c.deadlineGen)
  {
    hide Serialise, Inject, ErrorPage, Initiate;
    var injected := Inject(req, c.clientIp);
    var d := c.(parsed := Some(injected), forwardBuf := Serialise(injected), forwardOffset := 0);
    if Reply(replies, {}).Some? {
      var b := Reply(replies, {}).value;
      InitiateOnTime(d.(backendAddr := Some(b), attempts := 1, notified := false), b, net, Later(replies));
    }
  }

  lemma SentOnTime(c: Conn, n: nat, now: int)
    requires Inv(c) && c.state == ForwardingRequest && c.forwardOffset + n <= |c.forwardBuf|
    ensures OnTime(c, RequestSent(c, n, now), now)
  {
    SendingFrom(c);
    hide Inv, Refresh, Enter;
    RefreshOnTime(c, now);
    var d := if n > 0 then Refresh(c, now) else c;
    RecordSentKeeps(d, n);
    if n == 0 {
      NothingSent(c);
    }
    EnterOnTime(RecordSent(d, n).(forwardOffset := c.forwardOffset + n), ReadingResponse, now);
    hide RecordSent;
  }

  lemma NothingSent(c: Conn)
    requires c.sessions != [] && c.forwardOffset <= |c.forwardBuf|
    ensures RecordSent(c, 0) == c
  {
    var s := Last(c);
    assert s.sent + c.forwardBuf[c.forwardOffset..c.forwardOffset + 0] == s.sent;
    assert c.sessions[|c.sessions| - 1 := s] == c.sessions;
  }

  lemma ReceivedOnTime(c: Conn, data: string, now: int)
    requires c.state == ReadingResponse
    ensures var d := ResponseReceived(c, data, now);
            d.state != Done && d.deadline == now + Patience(d.state) && d.deadlineGen > c.deadlineGen
  {
    hide NoteHeaders, CheckComplete, Refresh, RecordReceived;
    var r := RecordReceived(c, data).(responseBuf := c.responseBuf + data);
    ReceivedClock(c, data);
    RefreshOnTime(r, now);
    var d := Refresh(r, now);
    NoteHeadersClock(d);
    CheckCompleteOnTime(NoteHeaders(d), now);
  }

  lemma ReceivedClock(c: Conn, data: string)
    ensures var d := RecordReceived(c, data); d.state == c.state && d.deadlineGen == c.deadlineGen
  {
  }

  lemma NoteHeadersClock(c: Conn)
    ensures var d := NoteHeaders(c);
            d.state == c.state && d.deadline == c.deadline && d.deadlineGen == c.deadlineGen
  {
    hide Find, IsChunked, ResponseContentLength;
  }

  lemma CheckCompleteOnTime(c: Conn, now: int)
    requires c.state == ReadingResponse && c.deadline == now + Patience(c.state)
    ensures var d := CheckComplete(c, now);
            d.state != Done && d.deadline == now + Patience(d.state) && d.deadlineGen >= c.deadlineGen
  {
    hide ChunkedLength, BodyOf, PySlice, Enter;
    var body := BodyOf(c.responseBuf);
    if c.headersDone {
      if c.isChunked && ChunkedLength(body).Some? {
        RelayOnTime(c.(responseBuf := PySlice(c.responseBuf, 0, |c.responseBuf| - |body| + ChunkedLength(body).value)), now);
      } else if !c.isChunked {
        RelayOnTime(c.(bodyReceived := |body|), now);
      }
    }
    hide PrepareRelay;
  }

  lemma RelayOnTime(c: Conn, now: int)
    ensures var d := PrepareRelay(c, now);
            d.state == ForwardingResponse && d.deadline == now + Patience(d.state) && d.deadlineGen == c.deadlineGen + 1
  {
  }

  /** After every handler call a live connection is unchanged, or has, in a new generation, the time
      of its state from now on: 5 seconds to connect, 30 for all else. */
  lemma {:induction false} DeadlineFollows(c: Conn, ev: Event, net: Net, replies: Replies)
    requires Inv(c)
    ensures OnTime(c, Step(c, ev, net, replies), net.now)
  {
    hide Inv, ClientReadable, ClientWritable, BackendReadable, BackendWritable, TimedOut, OnTime;
    match ev
    case OnClientReadable(recv) => ClientReadableOnTime(c, recv, net, replies);
    case OnClientWritable(sent) => ClientWritableOnTime(c, sent, net);
    case OnBackendReadable(recv) => BackendReadableOnTime(c, recv, net, replies);
    case OnBackendWritable(ok, sent) => BackendWritableOnTime(c, ok, sent, net, replies);
    case OnTimeout => TimedOutOnTime(c, net);
  }

  lemma TimedOutOnTime(c: Conn, net: Net)
    ensures OnTime(c, TimedOut(c, net), net.now)
  {
    TimedOutCases(c, net);
    hide TimedOut;
  }

  lemma ClientReadableOnTime(c: Conn, recv: Io<string>, net: Net, replies: Replies)
    ensures OnTime(c, ClientReadable(c, recv, net, replies), net.now)
  {
    hide ParseRequest, Dispatch, ErrorPage, Refresh;
    if c.state == ReadingRequest && recv.Ok? && recv.value != "" {
      var e := c.(requestBuf := c.requestBuf + recv.value);
      RefreshOnTime(e, net.now);
      var d := Refresh(e, net.now);
      if ParseRequest(d.requestBuf).Some? {
        DispatchOnTime(d, ParseRequest(d.requestBuf).value, net, replies);
      }
    }
  }

  lemma ClientWritableOnTime(c: Conn, sent: Io<nat>, net: Net)
    requires Inv(c)
    ensures OnTime(c, ClientWritable(c, sent, net), net.now)
  {
    if c.state == ForwardingResponse && sent.Ok? {
      RelayingFrom(c);
      hide Inv, Relayed;
      var rest := if c.relayOffset < |c.relayBuf| then c.relayBuf[c.relayOffset..] else "";
      var n := Min(sent.value, |rest|);
      RelayedOnTime(c, n, rest[..n], net.now);
    }
  }

  lemma RelayedOnTime(c: Conn, n: nat, part: string, now: int)
    requires c.state == ForwardingResponse && |part| == n
    ensures OnTime(c, Relayed(c, n, part, now), now)
  {
    hide Refresh;
    RefreshOnTime(c.(clientBytesSent := true), now);
    if n == 0 {
      assert c.clientOut + part == c.clientOut;
    }
  }

  lemma BackendReadableOnTime(c: Conn, recv: Io<string>, net: Net, replies: Replies)
    ensures OnTime(c, BackendReadable(c, recv, net, replies), net.now)
  {
    hide FailBackend, ResponseReceived, PrepareRelay, ChunkedLength, BodyOf;
    if c.state == ReadingResponse {
      FailBackendOnTime(c, net, replies);
      RelayOnTime(c, net.now);
      if recv.Ok? {
        ReceivedOnTime(c, recv.value, net.now);
      }
    }
  }

  lemma BackendWritableOnTime(c: Conn, ok: bool, sent: Io<nat>, net: Net, replies: Replies)
    requires Inv(c)
    ensures OnTime(c, BackendWritable(c, ok, sent, net, replies), net.now)
  {
    hide Inv, FailBackend, Enter, RequestSent;
    FailBackendOnTime(c, net, replies);
    var d := if c.state == ConnectingToBackend then Enter(c, ForwardingRequest, net.now) else c;
    if c.state == ConnectingToBackend {
      EnterOnTime(c, ForwardingRequest, net.now);
      ConnectedInv(c, net.now);
    }
    FailBackendOnTime(d, net, replies);
    if d.state == ForwardingRequest && sent.Ok? {
      SendingFrom(d);
      SentOnTime(d, Min(sent.value, |d.forwardBuf| - d.forwardOffset), net.now);
    }
  }
}
