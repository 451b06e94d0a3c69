/** Reading does not depend on how TCP cuts the bytes into pieces. */
module Fragmentation {
  import opened Wrappers
  import opened Bytes
  import opened Http
  import opened HttpRoundTrip
  import opened Protocol
  import opened ProtocolInvariant
  import opened ProtocolRuns
  import Pools
  import Loops
  import Chunked
  import ChunkedEncoding

  // ---------- Streams in pieces ----------

  /** The data carried by an input, if it is a successful read of a non-empty piece. */
  function ClientPiece(i: Input): string {
    match i.event
    case OnClientReadable(Ok(data)) => data
    case _ => ""
  }

  function BackendPiece(i: Input): string {
    match i.event
    case OnBackendReadable(Ok(data)) => data
    case _ => ""
  }

  function ClientStream(inputs: seq<Input>): string
    decreases |inputs|
  {
    if inputs == [] then "" else ClientStream(inputs[..|inputs| - 1]) + ClientPiece(inputs[|inputs| - 1])
  }

  function BackendStream(inputs: seq<Input>): string
    decreases |inputs|
  {
    if inputs == [] then "" else BackendStream(inputs[..|inputs| - 1]) + BackendPiece(inputs[|inputs| - 1])
  }

  /** Nothing but non-empty reads from the client; whatever else each handler call meets. */
  ghost predicate ClientPieces(inputs: seq<Input>) {
    forall i :: 0 <= i < |inputs| ==> ClientPiece(inputs[i]) != ""
  }

  ghost predicate BackendPieces(inputs: seq<Input>) {
    forall i :: 0 <= i < |inputs| ==> BackendPiece(inputs[i]) != ""
  }

  // ---------- Responses ----------

  /** What the connection decides about the bytes received so far: more are needed, or this is
      the response to relay. */
  ghost function Verdict(buf: string): Option<string> {
    var body := BodyOf(buf);
    if Find(buf, DELIM, 0) == -1 then None
    else if IsChunked(buf) == Some(true) then
      match ChunkedLength(body)
      case None => None
      case Some(n) => Some(PySlice(buf, 0, |buf| - |body| + n))
    else if 0 <= ResponseContentLength(buf) <= |body| then Some(buf)
    else None
  }

  lemma CheckCompleteVerdict(c: Conn, now: int)
    requires Inv(c) && c.state == ReadingResponse
    ensures var d := CheckComplete(c, now);
            match Verdict(c.responseBuf)
            case None => d.state == ReadingResponse && d.responseBuf == c.responseBuf
            case Some(r) => d.state == ForwardingResponse && d.relayBuf == r && d.relayOffset == 0
  {
    hide Attempts, Engaged, ClientSilent, IsChunked, ResponseContentLength, ChunkedLength, BodyOf, Find, PySlice;
    assert ScansCached(c);
  }

  /** Whatever the history, a piece that arrives is judged on all bytes received so far. */
  lemma {:induction false} ReceiveVerdict(c: Conn, data: string, net: Net, replies: Replies)
    requires Inv(c) && c.state == ReadingResponse && data != ""
    ensures var d := BackendReadable(c, Ok(data), net, replies);
            match Verdict(c.responseBuf + data)
            case None => d.state == ReadingResponse && d.responseBuf == c.responseBuf + data
            case Some(r) => d.state == ForwardingResponse && d.relayBuf == r && d.relayOffset == 0
  {
    hide Inv, NoteHeaders, RecordReceived, Refresh, CheckComplete, Verdict;
    RecordReceivedInv(c, data, net.now);
    CheckCompleteVerdict(
      NoteHeaders(Refresh(RecordReceived(c, data).(responseBuf := c.responseBuf + data), net.now)), net.now);
  }

  /** The stream is recognised as complete when its last byte arrives, and not before. */
  ghost predicate SelfDelimiting(stream: string) {
    Verdict(stream) == Some(stream) && forall k :: 0 <= k < |stream| ==> Verdict(stream[..k]) == None
  }

  /** On every proper prefix the connection goes on reading, and keeps the prefix. */
  lemma {:induction false} ReadsOn(c: Conn, inputs: seq<Input>, stream: string)
    requires Inv(c) && c.state == ReadingResponse && c.responseBuf == "" && BackendPieces(inputs)
    requires SelfDelimiting(stream) && BackendStream(inputs) < stream
    ensures var d := Run(c, inputs);
            Inv(d) && d.state == ReadingResponse && d.responseBuf == BackendStream(inputs)
    decreases |inputs|
  {
    hide Inv, Verdict, BackendReadable;
    if inputs != [] {
      var before, last := inputs[..|inputs| - 1], inputs[|inputs| - 1];
      ReadsOn(c, before, stream);
      var b := Run(c, before);
      var data := BackendPiece(last);
      assert last.event == OnBackendReadable(Ok(data));
      ReceiveVerdict(b, data, last.net, last.replies);
      assert stream[..|BackendStream(inputs)|] == BackendStream(inputs);
      RunInv(c, inputs);
    }
  }

  lemma NothingIsComplete()
    ensures Verdict("") == None
  {
    assert Find("", DELIM, 0) == -1;
  }

  /** Response reading is independent of fragmentation: for every split of a self-delimiting
      stream into non-empty pieces, the connection is still reading before the last piece, and
      relays the whole stream after it. */
  lemma {:induction false} ResponseFragmentation(c: Conn, inputs: seq<Input>, stream: string)
    requires Inv(c) && c.state == ReadingResponse && c.responseBuf == "" && BackendPieces(inputs)
    requires SelfDelimiting(stream) && BackendStream(inputs) == stream
    ensures forall k :: 0 <= k < |inputs| ==> Run(c, inputs[..k]).state == ReadingResponse
    ensures inputs != []
    ensures var d := Run(c, inputs); d.state == ForwardingResponse && d.relayBuf == stream && d.relayOffset == 0
  {
    NothingIsComplete();
    hide Inv, Verdict, BackendReadable;
    forall k | 0 <= k < |inputs| ensures Run(c, inputs[..k]).state == ReadingResponse {
      StreamPrefix(inputs, k);
      ReadsOn(c, inputs[..k], stream);
    }
    var n := |inputs| - 1;
    var last := inputs[n];
    StreamPrefix(inputs, n);
    ReadsOn(c, inputs[..n], stream);
    var data := BackendPiece(last);
    assert last.event == OnBackendReadable(Ok(data));
    ReceiveVerdict(Run(c, inputs[..n]), data, last.net, last.replies);
  }

  lemma {:induction false} StreamPrefix(inputs: seq<Input>, k: nat)
    requires k < |inputs| && BackendPieces(inputs)
    ensures BackendStream(inputs[..k]) < BackendStream(inputs) && BackendPieces(inputs[..k])
    decreases |inputs|
  {
    var before := inputs[..|inputs| - 1];
    assert BackendPiece(inputs[|inputs| - 1]) != "";
    if k < |before| {
      assert before[..k] == inputs[..k];
      StreamPrefix(before, k);
    }
  }

  // ---------- Which responses are self-delimiting ----------

  /** A complete header section. */
  ghost predicate HeaderBlock(head: string) {
    |head| >= 4 && Find(head, DELIM, 0) == |head| - 4
  }

  lemma HeadOfStream(head: string, body: string)
    requires HeaderBlock(head)
    ensures Find(head + body, DELIM, 0) == |head| - 4 && BodyOf(head + body) == body
    ensures IsChunked(head + body) == IsChunked(head)
    ensures ResponseContentLength(head + body) == ResponseContentLength(head)
  {
    hide IsChunked, ResponseContentLength;
    ResponseScansExtend(head, body);
    assert (head + body)[|head| - 4 + 4..] == body;
  }

  lemma CutInHead(head: string, body: string, k: nat)
    requires HeaderBlock(head) && k < |head|
    ensures (head + body)[..k] == head[..k] && Verdict((head + body)[..k]) == None
  {
    assert head == head[..k] + head[k..];
    if Find(head[..k], DELIM, 0) != -1 {
      FindExtend(head[..k], head[k..], DELIM, 0);
    }
    hide IsChunked, ResponseContentLength, ChunkedLength, BodyOf, PySlice;
  }

  lemma CutBehindHead(head: string, body: string, k: nat)
    requires HeaderBlock(head) && |head| <= k <= |head + body|
    ensures (head + body)[..k] == head + body[..k - |head|]
  {
  }

  /** A header block that announces a length, with exactly that many body bytes. */
  lemma {:induction false} ContentLengthDelimits(head: string, body: string)
    requires HeaderBlock(head) && IsChunked(head) == Some(false)
    requires ResponseContentLength(head) == |body|
    ensures SelfDelimiting(head + body)
  {
    var s := head + body;
    hide IsChunked, ResponseContentLength, ChunkedLength, BodyOf, PySlice, HeaderBlock, Find;
    HeadOfStream(head, body);
    assert Verdict(s) == Some(s) by { NotMinusOne(head); }
    forall k | 0 <= k < |s| ensures Verdict(s[..k]) == None {
      if k < |head| {
        CutInHead(head, body, k);
      } else {
        CutBehindHead(head, body, k);
        HeadOfStream(head, body[..k - |head|]);
      }
    }
  }

  lemma NotMinusOne(head: string)
    requires HeaderBlock(head)
    ensures |head| - 4 != -1
  {
  }

  /** Where no size leads back the scanner's answer is `Scan`. */
  lemma ChunkedLengthIs(body: string)
    requires Chunked.ForwardSizes(body, 0)
    ensures ChunkedLength(body) == Chunked.Scan(body, 0)
  {
    hide Chunked.ForwardSizes, Chunked.Scan, Chunked.Turns, Loops.Halts;
    Chunked.ForwardHalts(body);
    var r: Option<int> :| Loops.Returns(Chunked.Turns(body), r) && r == ChunkedLength(body);
    Loops.ReturnsUnique(Chunked.Turns(body), r, Chunked.Scan(body, 0));
  }

  /** A chunked header block with a well-formed chunked message (RFC 7230, section 4.1). */
  lemma {:induction false} ChunkedDelimits(head: string, cs: seq<ChunkedEncoding.Chunk>, t: ChunkedEncoding.LastChunk)
    requires HeaderBlock(head) && IsChunked(head) == Some(true)
    requires ChunkedEncoding.GoodChunks(cs) && ChunkedEncoding.GoodLast(t)
    ensures SelfDelimiting(head + ChunkedEncoding.Encode(cs, t))
  {
    hide IsChunked, ResponseContentLength, ChunkedLength, BodyOf, PySlice, HeaderBlock, Find,
      ChunkedEncoding.GoodChunks, ChunkedEncoding.GoodLast, ChunkedEncoding.Encode,
      Chunked.ForwardSizes, Chunked.Scan;
    var body := ChunkedEncoding.Encode(cs, t);
    var s := head + body;
    HeadOfStream(head, body);
    ChunkedEncoding.RoundTrip(cs, t);
    ChunkedLengthIs(body);
    NotMinusOne(head);
    assert Verdict(s) == Some(PySlice(s, 0, |s|));
    WholeSlice(s);
    forall k | 0 <= k < |s| ensures Verdict(s[..k]) == None {
      if k < |head| {
        CutInHead(head, body, k);
      } else {
        CutBehindHead(head, body, k);
        var part := body[..k - |head|];
        HeadOfStream(head, part);
        ChunkedEncoding.PrefixFree(cs, t, part);
        ChunkedLengthIs(part);
      }
    }
  }

  lemma WholeSlice(s: string)
    ensures PySlice(s, 0, |s|) == s
  {
  }

  // ---------- Requests ----------

  lemma {:induction false} InitiateKeepsRequest(c: Conn, b: Pools.Backend, net: Net, replies: Replies)
    ensures var d := Initiate(c, b, net, replies);
            d.parsed == c.parsed && d.forwardBuf == c.forwardBuf && d.state != ReadingRequest
    decreases MAX_BACKEND_RETRIES + 1 - c.attempts, 1
  {
    hide FailBackend, OpenSocket, Enter;
    var d := OpenSocket(c, b, net.now);
    OpenSocketKeepsRequest(c, b, net.now);
    EnterKeepsRequest(d, ForwardingRequest, net.now);
    if net.connect(c.attempts).Refused? {
      FailBackendKeepsRequest(d, net, replies);
    }
  }

  lemma OpenSocketKeepsRequest(c: Conn, b: Pools.Backend, now: int)
    ensures var d := OpenSocket(c, b, now);
            && d.parsed == c.parsed && d.forwardBuf == c.forwardBuf && d.attempts == c.attempts
            && d.state == ConnectingToBackend
  {
  }

  lemma EnterKeepsRequest(c: Conn, s: State, now: int)
    ensures var d := Enter(c, s, now); d.parsed == c.parsed && d.forwardBuf == c.forwardBuf && d.state == s
  {
  }

  lemma {:induction false} FailBackendKeepsRequest(c: Conn, net: Net, replies: Replies)
    ensures var d := FailBackend(c, net, replies);
            d.parsed == c.parsed && d.forwardBuf == c.forwardBuf && d.state != ReadingRequest
    decreases MAX_BACKEND_RETRIES + 1 - c.attempts, 0
  {
    hide ErrorPage, IsIdempotent;
    var d := Abandon(c);
    var reply := Reply(replies, d.tried);
    if CanRetry(d) && reply.Some? {
      hide Initiate;
      InitiateKeepsRequest(Retarget(d, reply.value), reply.value, net, Later(replies));
    }
  }

  /** The request taken over from the client, and what is forwarded for it. */
  ghost predicate TookOver(c: Conn, req: Request) {
    && c.state != ReadingRequest
    && c.parsed == Some(Inject(req, c.clientIp))
    && c.forwardBuf == Serialise(Inject(req, c.clientIp))
  }

  lemma DispatchTakesOver(c: Conn, req: Request, net: Net, replies: Replies)
    ensures TookOver(Dispatch(c, req, net, replies), req)
    ensures Dispatch(c, req, net, replies).clientIp == c.clientIp
  {
    hide Serialise, Inject, ErrorPage, Initiate;
    DispatchContinues(c, req, net, replies);
    var injected := Inject(req, c.clientIp);
    var d := c.(parsed := Some(injected), forwardBuf := Serialise(injected), forwardOffset := 0);
    if Reply(replies, {}).Some? {
      var b := Reply(replies, {}).value;
      var e := d.(backendAddr := Some(b), attempts := 1, notified := false);
      InitiateKeepsRequest(e, b, net, Later(replies));
    }
  }

  /** A parse of a prefix is the parse of the whole, when that has no negative length. */
  lemma ParsePrefix(buf: string, x: string)
    requires ParseRequest(buf).Some? && ParseRequest(buf + x).Some?
    requires ContentLength(ParseRequest(buf + x).value.headers) >= 0
    ensures ParseRequest(buf) == ParseRequest(buf + x)
  {
    FindExtend(buf, x, DELIM, 0);
    var h := Find(buf, DELIM, 0);
    assert (buf + x)[..h] == buf[..h];
    hide Split, RequestLine, ParseHeaders, ContentLength, Find;
    assert ParseRequest(buf).value.headers == ParseRequest(buf + x).value.headers;
    ParseExtend(buf, x);
  }

  /** While the bytes so far do not parse, the connection reads on; once they do, it has taken
      the request over, and later bytes change nothing about it. */
  lemma {:induction false} RequestReading(c: Conn, inputs: seq<Input>, x: string, req: Request)
    requires c.state == ReadingRequest && c.requestBuf == "" && ClientPieces(inputs)
    requires |ClientStream(inputs)| <= MAX_REQUEST_SIZE
    requires ParseRequest(ClientStream(inputs) + x) == Some(req) && ContentLength(req.headers) >= 0
    ensures var d := Run(c, inputs);
            && d.clientIp == c.clientIp
            && (if ParseRequest(ClientStream(inputs)).None?
                then d.state == ReadingRequest && d.requestBuf == ClientStream(inputs)
                else TookOver(d, req))
    decreases |inputs|
  {
    hide ParseRequest, TookOver, Dispatch, ContentLength;
    if inputs == [] {
      assert ParseRequest("").None? by { NothingParses(); }
    } else {
      var before, last := inputs[..|inputs| - 1], inputs[|inputs| - 1];
      var b, data := Run(c, before), ClientPiece(last);
      assert last.event == OnClientReadable(Ok(data));
      assert ClientStream(before) + (data + x) == ClientStream(inputs) + x;
      RequestReading(c, before, data + x, req);
      if ParseRequest(ClientStream(before)).None? {
        var d := Refresh(b.(requestBuf := b.requestBuf + data), last.net.now);
        assert d.requestBuf == ClientStream(inputs) && d.clientIp == c.clientIp;
        if ParseRequest(ClientStream(inputs)).Some? {
          ParsePrefix(ClientStream(inputs), x);
          DispatchTakesOver(d, req, last.net, last.replies);
        }
      } else {
        TookOverIsPast(b, req);
        ParsePrefix(ClientStream(before), data + x);
        ParseExtend(ClientStream(before), data);
      }
    }
  }

  lemma NothingParses()
    ensures ParseRequest("").None?
  {
    assert Find("", DELIM, 0) == -1;
  }

  lemma TookOverIsPast(c: Conn, req: Request)
    requires TookOver(c, req)
    ensures c.state != ReadingRequest
  {
  }

  /** Request reading is independent of fragmentation, and forwarding is faithful: for every split
      of a client stream that parses, the same bytes are forwarded, and they parse to the client's
      request with its address injected. */
  lemma {:induction false} RequestFragmentation(c: Conn, inputs: seq<Input>, req: Request)
    requires c.state == ReadingRequest && c.requestBuf == "" && GoodAddress(c.clientIp)
    requires ClientPieces(inputs) && |ClientStream(inputs)| <= MAX_REQUEST_SIZE
    requires ParseRequest(ClientStream(inputs)) == Some(req) && ContentLength(req.headers) >= 0
    ensures var d := Run(c, inputs);
            && d.state != ReadingRequest
            && d.forwardBuf == Serialise(Inject(req, c.clientIp))
            && ParseRequest(d.forwardBuf) == Some(Inject(req, c.clientIp))
  {
    hide ParseRequest, ContentLength, Inject, Serialise, Run;
    assert ClientStream(inputs) + "" == ClientStream(inputs);
    RequestReading(c, inputs, "", req);
    ForwardingIsFaithful(ClientStream(inputs), c.clientIp);
  }
}
