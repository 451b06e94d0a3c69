/** A whole exchange, from the client's first byte to its last: what was forwarded and what was
    delivered, over every run. */
module EndToEnd {
  import opened Wrappers
  import opened Bytes
  import opened Http
  import opened HttpRoundTrip
  import opened Pools
  import opened Protocol
  import opened ProtocolInvariant
  import opened ProtocolRuns
  import opened Fragmentation

  // ---------- The request taken over ----------

  /** The bytes read from the client so far, and the request they held. */
  ghost predicate RequestIs(c: Conn, stream: string) {
    && c.requestBuf <= stream
    && (c.state == ReadingRequest ==> c.requestBuf == stream)
    && (c.parsed.Some? ==>
          && ParseRequest(c.requestBuf).Some?
          && c.parsed == Some(Inject(ParseRequest(c.requestBuf).value, c.clientIp)))
  }

  /** Only reading from the client changes the request, and no handler goes back to reading it. */
  ghost predicate KeepsRequest(c: Conn, d: Conn) {
    d.requestBuf == c.requestBuf && d.parsed == c.parsed && (d.state == ReadingRequest ==> c.state == ReadingRequest)
  }

  lemma {:induction false} InitiateKeeps(c: Conn, b: Backend, net: Net, replies: Replies)
    ensures Initiate(c, b, net, replies).requestBuf == c.requestBuf
    decreases MAX_BACKEND_RETRIES + 1 - c.attempts, 1
  {
    hide FailBackend, OpenSocket, Enter;
    var d := OpenSocket(c, b, net.now);
    OpenSocketKeeps(c, b, net.now);
    EnterKeeps(d, ForwardingRequest, net.now);
    if net.connect(c.attempts).Refused? {
      FailBackendKeeps(d, net, replies);
    }
  }

  lemma OpenSocketKeeps(c: Conn, b: Backend, now: int)
    ensures OpenSocket(c, b, now).requestBuf == c.requestBuf && OpenSocket(c, b, now).attempts == c.attempts
  {
  }

  lemma EnterKeeps(c: Conn, s: State, now: int)
    ensures var d := Enter(c, s, now);
            && d.requestBuf == c.requestBuf && d.parsed == c.parsed && d.state == s
            && d.responseBuf == c.responseBuf
  {
  }

  lemma {:induction false} FailBackendKeeps(c: Conn, net: Net, replies: Replies)
    ensures FailBackend(c, net, replies).requestBuf == c.requestBuf
    decreases MAX_BACKEND_RETRIES + 1 - c.attempts, 0
  {
    hide ErrorPage, IsIdempotent;
    var d := Abandon(c);
    var reply := Reply(replies, d.tried);
    if CanRetry(d) && reply.Some? {
      hide Initiate;
      InitiateKeeps(Retarget(d, reply.value), reply.value, net, Later(replies));
    }
  }

  lemma DispatchKeeps(c: Conn, req: Request, net: Net, replies: Replies)
    ensures Dispatch(c, req, net, replies).requestBuf == c.requestBuf
  {
    hide Serialise, Inject, ErrorPage, Initiate;
    var injected := Inject(req, c.clientIp);
    var d := c.(parsed := Some(injected), forwardBuf := Serialise(injected), forwardOffset := 0);
    if Reply(replies, {}).Some? {
      var b := Reply(replies, {}).value;
      InitiateKeeps(d.(backendAddr := Some(b), attempts := 1, notified := false), b, net, Later(replies));
    }
  }

  lemma ClientReadableRequest(c: Conn, recv: Io<string>, net: Net, replies: Replies, stream: string)
    requires RequestIs(c, stream) && (c.state == ReadingRequest ==> c.parsed == None)
    ensures var piece := if recv.Ok? then recv.value else "";
            RequestIs(ClientReadable(c, recv, net, replies), stream + piece)
  {
    hide ParseRequest, Dispatch, ErrorPage, Inject;
    if c.state == ReadingRequest && recv.Ok? && recv.value != "" {
      var d := Refresh(c.(requestBuf := c.requestBuf + recv.value), net.now);
      if |d.requestBuf| <= MAX_REQUEST_SIZE && ParseRequest(d.requestBuf).Some? {
        var req := ParseRequest(d.requestBuf).value;
        DispatchTakesOver(d, req, net, replies);
        DispatchKeeps(d, req, net, replies);
      }
    }
  }

  /** No other handler touches the request. */
  lemma OtherKeepsRequest(c: Conn, ev: Event, net: Net, replies: Replies)
    requires !ev.OnClientReadable?
    ensures KeepsRequest(c, Step(c, ev, net, replies))
  {
    hide ClientWritable, BackendReadable, BackendWritable, TimedOut, KeepsRequest;
    match ev
    case OnClientWritable(sent) => ClientWritableKeeps(c, sent, net);
    case OnBackendReadable(recv) => BackendReadableKeeps(c, recv, net, replies);
    case OnBackendWritable(ok, sent) => BackendWritableKeeps(c, ok, sent, net, replies);
    case OnTimeout => TimedOutKeeps(c, net);
  }

  lemma TimedOutKeeps(c: Conn, net: Net)
    ensures KeepsRequest(c, TimedOut(c, net))
  {
    hide ErrorPage;
  }

  lemma ClientWritableKeeps(c: Conn, sent: Io<nat>, net: Net)
    ensures KeepsRequest(c, ClientWritable(c, sent, net))
  {
    hide Relayed;
    if sent.Ok? {
      var rest := if c.relayOffset < |c.relayBuf| then c.relayBuf[c.relayOffset..] else "";
      var n := Min(sent.value, |rest|);
      RelayedKeepsRest(c, n, rest[..n], net.now);
    }
  }

  lemma FailureKeeps(c: Conn, net: Net, replies: Replies)
    ensures KeepsRequest(c, FailBackend(c, net, replies))
  {
    hide FailBackend;
    FailBackendKeeps(c, net, replies);
    FailBackendKeepsRequest(c, net, replies);
  }

  lemma BackendReadableKeeps(c: Conn, recv: Io<string>, net: Net, replies: Replies)
    ensures KeepsRequest(c, BackendReadable(c, recv, net, replies))
  {
    hide FailBackend, ResponseReceived, PrepareRelay, BodyOf, ChunkedLength;
    FailureKeeps(c, net, replies);
    PrepareRelayKeeps(c, net.now);
    if recv.Ok? {
      ReceivedKeeps(c, recv.value, net.now);
    }
  }

  lemma BackendWritableKeeps(c: Conn, ok: bool, sent: Io<nat>, net: Net, replies: Replies)
    ensures KeepsRequest(c, BackendWritable(c, ok, sent, net, replies))
  {
    hide FailBackend, RequestSent, Enter;
    FailureKeeps(c, net, replies);
    var d := if c.state == ConnectingToBackend then Enter(c, ForwardingRequest, net.now) else c;
    EnterKeeps(c, ForwardingRequest, net.now);
    FailureKeeps(d, net, replies);
    if sent.Ok? {
      var rest := if d.forwardOffset < |d.forwardBuf| then |d.forwardBuf| - d.forwardOffset else 0;
      RequestSentKeeps(d, Min(sent.value, rest), net.now);
    }
  }

  lemma PrepareRelayKeeps(c: Conn, now: int)
    ensures var d := PrepareRelay(c, now);
            d.requestBuf == c.requestBuf && d.parsed == c.parsed && d.state == ForwardingResponse
  {
  }

  lemma RelayedKeepsRest(c: Conn, n: nat, part: string, now: int)
    ensures var d := Relayed(c, n, part, now);
            && d.requestBuf == c.requestBuf && d.parsed == c.parsed && d.relayBuf == c.relayBuf
            && d.forwardBuf == c.forwardBuf && d.sessions == c.sessions && d.page == c.page
            && d.aborted == c.aborted && (d.state == c.state || d.state == Done)
  {
    hide Refresh;
    RefreshKeepsRest(c.(clientBytesSent := true), now);
  }

  lemma RefreshKeepsRest(c: Conn, now: int)
    ensures var d := Refresh(c, now);
            d == c.(deadline := d.deadline, deadlineGen := d.deadlineGen)
  {
  }

  lemma ReceivedKeeps(c: Conn, data: string, now: int)
    ensures var d := ResponseReceived(c, data, now);
            && d.requestBuf == c.requestBuf && d.parsed == c.parsed
            && d.sessions == RecordReceived(c, data).sessions
            && (d.state == c.state || d.state == ForwardingResponse)
  {
    hide CheckComplete, NoteHeaders, Refresh;
    var r := RecordReceived(c, data).(responseBuf := c.responseBuf + data);
    RefreshKeepsRest(r, now);
    NoteHeadersKeeps(Refresh(r, now));
    CheckCompleteKeeps(NoteHeaders(Refresh(r, now)), now);
  }

  lemma NoteHeadersKeeps(c: Conn)
    ensures var d := NoteHeaders(c);
            d.requestBuf == c.requestBuf && d.parsed == c.parsed && d.sessions == c.sessions && d.state == c.state
  {
    hide Find, IsChunked, ResponseContentLength;
  }

  lemma CheckCompleteKeeps(c: Conn, now: int)
    ensures var d := CheckComplete(c, now);
            && d.requestBuf == c.requestBuf && d.parsed == c.parsed && d.sessions == c.sessions
            && (d.state == c.state || d.state == ForwardingResponse)
  {
    hide ChunkedLength, BodyOf, PySlice, PrepareRelay;
    var body := BodyOf(c.responseBuf);
    if c.headersDone {
      if c.isChunked && ChunkedLength(body).Some? {
        RelayKeepsRest(c.(responseBuf := PySlice(c.responseBuf, 0, |c.responseBuf| - |body| + ChunkedLength(body).value)), now);
      } else if !c.isChunked {
        RelayKeepsRest(c.(bodyReceived := |body|), now);
      }
    }
  }

  lemma RelayKeepsRest(c: Conn, now: int)
    ensures var d := PrepareRelay(c, now);
            && d.requestBuf == c.requestBuf && d.parsed == c.parsed && d.sessions == c.sessions
            && d.state == ForwardingResponse
  {
  }

  lemma RequestSentKeeps(c: Conn, n: nat, now: int)
    ensures var d := RequestSent(c, n, now);
            && d.requestBuf == c.requestBuf && d.parsed == c.parsed && d.responseBuf == c.responseBuf
            && (d.state == c.state || d.state == ReadingResponse)
  {
    hide RecordSent, Enter, Refresh;
    RefreshKeepsRest(c, now);
    var d := if n > 0 then Refresh(c, now) else c;
    RecordSentKeeps(d, n);
    EnterKeeps(RecordSent(d, n).(forwardOffset := c.forwardOffset + n), ReadingResponse, now);
  }

  lemma RecordSentKeeps(c: Conn, n: nat)
    ensures var d := RecordSent(c, n);
            d == c.(sessions := d.sessions)
  {
  }

  /** Over every run, whatever else happens, the request is what the client's bytes say. */
  lemma {:induction false} RequestTaken(id: nat, ip: string, now: int, inputs: seq<Input>)
    ensures var c := Run(Start(id, ip, now), inputs);
            RequestIs(c, ClientStream(inputs)) && c.clientIp == ip && (c.state == ReadingRequest ==> c.parsed == None)
    decreases |inputs|
  {
    hide Step, ParseRequest, Inject;
    if inputs != [] {
      var before, last := inputs[..|inputs| - 1], inputs[|inputs| - 1];
      RequestTaken(id, ip, now, before);
      var c := Run(Start(id, ip, now), before);
      RequestStep(c, last, ClientStream(before));
    }
  }

  lemma RequestStep(c: Conn, input: Input, stream: string)
    requires RequestIs(c, stream) && (c.state == ReadingRequest ==> c.parsed == None)
    ensures var d := Step(c, input.event, input.net, input.replies);
            && RequestIs(d, stream + ClientPiece(input)) && d.clientIp == c.clientIp
            && (d.state == ReadingRequest ==> d.parsed == None)
  {
    StepCounts(c, input.event, input.net, input.replies);
    match input.event
    case OnClientReadable(recv) =>
      hide RequestIs, ClientReadable;
      ClientReadableRequest(c, recv, input.net, input.replies, stream);
      StillUnparsed(c, recv, input.net, input.replies);
    case _ =>
      hide Step, ParseRequest, Inject;
      OtherKeepsRequest(c, input.event, input.net, input.replies);
  }

  lemma StillUnparsed(c: Conn, recv: Io<string>, net: Net, replies: Replies)
    requires c.state == ReadingRequest ==> c.parsed == None
    ensures var d := ClientReadable(c, recv, net, replies); d.state == ReadingRequest ==> d.parsed == None
  {
    hide ParseRequest, Dispatch, ErrorPage, Inject;
    if c.state == ReadingRequest && recv.Ok? && recv.value != "" {
      var d := Refresh(c.(requestBuf := c.requestBuf + recv.value), net.now);
      if |d.requestBuf| <= MAX_REQUEST_SIZE && ParseRequest(d.requestBuf).Some? {
        DispatchTakesOver(d, ParseRequest(d.requestBuf).value, net, replies);
      }
    }
  }

  // ---------- The response delivered ----------

  /** What the last backend's bytes amount to: the response that they complete, or, once that
      backend has closed, all of them, unless they are part of a chunked response. */
  ghost predicate AmountsTo(received: string, closed: bool, r: string) {
    || Verdict(received) == Some(r)
    || (closed && Verdict(received) == None && IsChunked(received) != Some(true) && r == received)
  }

  /** The client was given all of that, or part of it if a timeout cut the relay short; and the
      last backend was sent the whole request. */
  ghost predicate Delivered(c: Conn, closed: bool, timed: bool)
    requires c.sessions != []
  {
    && AmountsTo(Last(c).received, closed, c.relayBuf)
    && c.clientOut <= c.relayBuf && (!timed ==> c.clientOut == c.relayBuf)
    && Last(c).sent == c.forwardBuf
  }

  /** The run has not failed the client: no error page, no failed send to it. */
  predicate Unspoilt(c: Conn) {
    c.page == None && !c.aborted && c.sessions != []
  }

  /** Of a run in which some backend has closed its connection, or some timeout has come, if so
      marked. */
  ghost predicate ResponseIs(c: Conn, closed: bool, timed: bool) {
    match c.state
    case ReadingResponse => Verdict(c.responseBuf) == None
    case ForwardingResponse => c.sessions != [] && AmountsTo(Last(c).received, closed, c.relayBuf)
    case Done => Unspoilt(c) ==> Delivered(c, closed, timed)
    case _ => true
  }

  predicate Closes(ev: Event) {
    ev == OnBackendReadable(Ok(""))
  }

  /** After a failure another backend is being tried, or there is an error page. */
  predicate TriesOn(d: Conn) {
    d.state == ConnectingToBackend || d.state == ForwardingRequest || (d.state == Done && d.page.Some?)
  }

  lemma {:induction false} InitiateTries(c: Conn, b: Backend, net: Net, replies: Replies)
    ensures TriesOn(Initiate(c, b, net, replies))
    decreases MAX_BACKEND_RETRIES + 1 - c.attempts, 1
  {
    hide FailBackend, OpenSocket, Enter;
    var d := OpenSocket(c, b, net.now);
    OpenSocketKeepsRequest(c, b, net.now);
    EnterKeeps(d, ForwardingRequest, net.now);
    if net.connect(c.attempts).Refused? {
      FailBackendTries(d, net, replies);
    }
  }

  lemma {:induction false} FailBackendTries(c: Conn, net: Net, replies: Replies)
    ensures TriesOn(FailBackend(c, net, replies))
    decreases MAX_BACKEND_RETRIES + 1 - c.attempts, 0
  {
    hide ErrorPage, IsIdempotent;
    var d := Abandon(c);
    var reply := Reply(replies, d.tried);
    if CanRetry(d) && reply.Some? {
      hide Initiate;
      InitiateTries(Retarget(d, reply.value), reply.value, net, Later(replies));
    }
  }

  lemma DispatchTries(c: Conn, req: Request, net: Net, replies: Replies)
    ensures TriesOn(Dispatch(c, req, net, replies))
  {
    hide Serialise, Inject, ErrorPage, Initiate;
    var injected := Inject(req, c.clientIp);
    var d := c.(parsed := Some(injected), forwardBuf := Serialise(injected), forwardOffset := 0);
    if Reply(replies, {}).Some? {
      var b := Reply(replies, {}).value;
      InitiateTries(d.(backendAddr := Some(b), attempts := 1, notified := false), b, net, Later(replies));
    }
  }

  lemma ClientReadableResponse(c: Conn, recv: Io<string>, net: Net, replies: Replies, closed: bool, timed: bool)
    requires Inv(c) && ResponseIs(c, closed, timed)
    ensures ResponseIs(ClientReadable(c, recv, net, replies), closed, timed)
  {
    hide Attempts, ParseRequest, Dispatch, ErrorPage, Verdict;
    if c.state == ReadingRequest && recv.Ok? && recv.value != "" {
      var d := Refresh(c.(requestBuf := c.requestBuf + recv.value), net.now);
      if |d.requestBuf| <= MAX_REQUEST_SIZE && ParseRequest(d.requestBuf).Some? {
        DispatchTries(d, ParseRequest(d.requestBuf).value, net, replies);
      }
    }
  }

  lemma ClientWritableResponse(c: Conn, sent: Io<nat>, net: Net, closed: bool, timed: bool)
    requires Inv(c) && ResponseIs(c, closed, timed)
    ensures ResponseIs(ClientWritable(c, sent, net), closed, timed)
  {
    hide Relayed, Verdict, Inv;
    if c.state == ForwardingResponse {
      RelayCompletes(c, sent, net);
      RelayingSent(c);
      if sent.Ok? {
        var rest := if c.relayOffset < |c.relayBuf| then c.relayBuf[c.relayOffset..] else "";
        var n := Min(sent.value, |rest|);
        RelayedKeepsRest(c, n, rest[..n], net.now);
      }
    }
  }

  lemma RelayingSent(c: Conn)
    requires Inv(c) && c.state == ForwardingResponse
    ensures c.sessions != [] && Last(c).sent == c.forwardBuf
  {
    hide Attempts;
  }

  lemma BackendReadableResponse(c: Conn, recv: Io<string>, net: Net, replies: Replies, closed: bool, timed: bool)
    requires Inv(c) && ResponseIs(c, closed, timed)
    ensures ResponseIs(BackendReadable(c, recv, net, replies), closed || recv == Ok(""), timed)
  {
    hide FailBackend, ResponseReceived, Verdict, Inv, RecordReceived, BodyOf, ChunkedLength, IsChunked, PrepareRelay;
    FailBackendTries(c, net, replies);
    if c.state == ReadingResponse && recv.Ok? {
      if recv.value == "" {
        EndOfFile(c, net, replies);
      } else {
        ReceiveVerdict(c, recv.value, net, replies);
        ReceivedKeeps(c, recv.value, net.now);
        ReceivedIs(c, recv.value);
      }
    }
  }

  /** At the end of file all that the backend sent is relayed, unless it is part of a chunked
      response: then the backend has failed. */
  lemma {:induction false} EndOfFile(c: Conn, net: Net, replies: Replies)
    requires Inv(c) && c.state == ReadingResponse
    ensures c.sessions != [] && c.responseBuf == Last(c).received
    ensures var r := Last(c).received;
            var d := BackendReadable(c, Ok(""), net, replies);
            if IsChunked(r) == Some(true) && ChunkedLength(BodyOf(r)) == None then d == FailBackend(c, net, replies)
            else d.state == ForwardingResponse && d.relayBuf == r && d.relayOffset == 0 && d.sessions == c.sessions
    ensures Verdict(c.responseBuf) == None && IsChunked(c.responseBuf) == Some(true) ==> ChunkedLength(BodyOf(c.responseBuf)) == None
  {
    ScansAre(c);
    hide FailBackend, Inv, BodyOf, ChunkedLength, IsChunked, ResponseContentLength, Refresh;
    RefreshKeepsRest(SetState(c.(relayBuf := c.responseBuf, relayOffset := 0), ForwardingResponse), net.now);
    ChunkedHasHead(c.responseBuf);
  }

  lemma ScansAre(c: Conn)
    requires Inv(c) && c.state == ReadingResponse
    ensures c.sessions != [] && c.responseBuf == Last(c).received
    ensures c.headersDone <==> Find(c.responseBuf, DELIM, 0) != -1
    ensures c.headersDone ==> (c.isChunked <==> IsChunked(c.responseBuf) == Some(true))
  {
    hide Attempts, IsChunked, Find, ResponseContentLength;
  }

  lemma ChunkedHasHead(buf: string)
    ensures IsChunked(buf) == Some(true) ==> Find(buf, DELIM, 0) != -1
  {
    hide ListsChunked, FieldValue, Split;
  }

  lemma ReceivedIs(c: Conn, data: string)
    requires Inv(c) && c.state == ReadingResponse
    ensures var ss := RecordReceived(c, data).sessions;
            ss != [] && ss[|ss| - 1].received == c.responseBuf + data
  {
    hide Attempts;
  }

  lemma BackendWritableResponse(c: Conn, ok: bool, sent: Io<nat>, net: Net, replies: Replies,
                                closed: bool, timed: bool)
    requires Inv(c) && ResponseIs(c, closed, timed)
    ensures ResponseIs(BackendWritable(c, ok, sent, net, replies), closed, timed)
  {
    hide FailBackend, RequestSent, Enter, ResponseIs, Inv;
    NoneReceived(c);
    var d := if c.state == ConnectingToBackend then Enter(c, ForwardingRequest, net.now) else c;
    EnterKeeps(c, ForwardingRequest, net.now);
    FailureResponse(c, net, replies, closed, timed);
    FailureResponse(d, net, replies, closed, timed);
    if d.state == ForwardingRequest && sent.Ok? {
      var rest := if d.forwardOffset < |d.forwardBuf| then |d.forwardBuf| - d.forwardOffset else 0;
      SentResponse(d, Min(sent.value, rest), net.now, closed, timed);
    }
    InTransit(d, closed, timed);
  }

  lemma InTransit(c: Conn, closed: bool, timed: bool)
    ensures c.state == ForwardingRequest ==> ResponseIs(c, closed, timed)
  {
  }

  lemma FailureResponse(c: Conn, net: Net, replies: Replies, closed: bool, timed: bool)
    ensures ResponseIs(FailBackend(c, net, replies), closed, timed)
  {
    FailBackendTries(c, net, replies);
    hide FailBackend, Verdict;
  }

  lemma SentResponse(c: Conn, n: nat, now: int, closed: bool, timed: bool)
    requires c.state == ForwardingRequest && c.responseBuf == ""
    ensures ResponseIs(RequestSent(c, n, now), closed, timed)
  {
    NothingIsComplete();
    RequestSentKeeps(c, n, now);
    hide RequestSent, Verdict;
  }

  lemma NoneReceived(c: Conn)
    requires Inv(c)
    ensures c.state == ConnectingToBackend || c.state == ForwardingRequest ==> c.responseBuf == ""
  {
    hide Attempts;
  }

  lemma TimedOutResponse(c: Conn, net: Net, closed: bool, timed: bool)
    requires Inv(c) && ResponseIs(c, closed, timed)
    ensures ResponseIs(TimedOut(c, net), closed, true)
  {
    hide AmountsTo, Inv, TimedOut;
    TimedOutCases(c, net);
    if c.state == ForwardingResponse {
      RelayingSent(c);
      GivenSoFar(c);
    }
    if c.state != Done {
      BytesAreRelayed(c);
    }
  }

  lemma TimedOutCases(c: Conn, net: Net)
    ensures var d := TimedOut(c, net);
            if c.state == Done then d == c
            else
              && d.state == Done
              && (if c.state == ReadingRequest || !c.clientBytesSent then d.page.Some?
                  else d == c.(state := Done, changes := d.changes, notified := d.notified))
  {
    hide ErrorPage;
  }

  lemma GivenSoFar(c: Conn)
    requires Inv(c) && c.state == ForwardingResponse
    ensures c.clientOut <= c.relayBuf
  {
    hide Attempts;
  }

  lemma BytesAreRelayed(c: Conn)
    requires Inv(c) && c.state != Done
    ensures c.clientBytesSent ==> c.state == ForwardingResponse
    ensures c.state == ReadingRequest ==> c.sessions == []
  {
    hide Attempts;
  }

  /** Marks only add to what may have happened. */
  lemma ResponseGrows(c: Conn, closed: bool, timed: bool, more: bool, late: bool)
    requires ResponseIs(c, closed, timed) && (closed ==> more) && (timed ==> late)
    ensures ResponseIs(c, more, late)
  {
    hide Verdict, IsChunked;
  }

  /** Every handler call, whatever happens in it, keeps the response what it is. */
  lemma ResponseStep(c: Conn, ev: Event, net: Net, replies: Replies, closed: bool, timed: bool)
    requires Inv(c) && ResponseIs(c, closed, timed)
    ensures ResponseIs(Step(c, ev, net, replies), closed || Closes(ev), timed || ev.OnTimeout?)
  {
    hide Inv, ResponseIs, ClientReadable, ClientWritable, BackendReadable, BackendWritable, TimedOut;
    ResponseGrows(c, closed, timed, closed, timed || ev.OnTimeout?);
    match ev
    case OnClientReadable(recv) => ClientReadableResponse(c, recv, net, replies, closed, timed);
    case OnClientWritable(sent) => ClientWritableResponse(c, sent, net, closed, timed);
    case OnBackendReadable(recv) => BackendReadableResponse(c, recv, net, replies, closed, timed);
    case OnBackendWritable(ok, sent) => BackendWritableResponse(c, ok, sent, net, replies, closed, timed);
    case OnTimeout => TimedOutResponse(c, net, closed, timed);
  }

  /** Some backend has closed its connection while its response was awaited, or earlier or later. */
  ghost predicate Closed(inputs: seq<Input>) {
    exists i :: 0 <= i < |inputs| && Closes(inputs[i].event)
  }

  ghost predicate Timed(inputs: seq<Input>) {
    exists i :: 0 <= i < |inputs| && inputs[i].event.OnTimeout?
  }

  lemma {:induction false} ResponseTaken(id: nat, ip: string, now: int, inputs: seq<Input>)
    ensures var c := Run(Start(id, ip, now), inputs); Inv(c) && ResponseIs(c, Closed(inputs), Timed(inputs))
    decreases |inputs|
  {
    StartInv(id, ip, now);
    RunInv(Start(id, ip, now), inputs);
    hide Inv, Step, Verdict, Delivered, AmountsTo;
    if inputs != [] {
      var before, last := inputs[..|inputs| - 1], inputs[|inputs| - 1];
      ResponseTaken(id, ip, now, before);
      hide ResponseIs, Run;
      var c := Run(Start(id, ip, now), before);
      ResponseStep(c, last.event, last.net, last.replies, Closed(before), Timed(before));
      MarksGrow(inputs);
      RunSnoc(Start(id, ip, now), inputs);
      ResponseGrows(Run(Start(id, ip, now), inputs), Closed(before) || Closes(last.event),
        Timed(before) || last.event.OnTimeout?, Closed(inputs), Timed(inputs));
    }
  }

  lemma RunSnoc(c: Conn, inputs: seq<Input>)
    requires inputs != []
    ensures var last := inputs[|inputs| - 1];
            Run(c, inputs) == Step(Run(c, inputs[..|inputs| - 1]), last.event, last.net, last.replies)
  {
    hide Step;
  }

  lemma MarksGrow(inputs: seq<Input>)
    requires inputs != []
    ensures var before, last := inputs[..|inputs| - 1], inputs[|inputs| - 1];
            && (Closed(before) || Closes(last.event) ==> Closed(inputs))
            && (Timed(before) || last.event.OnTimeout? ==> Timed(inputs))
  {
    var before := inputs[..|inputs| - 1];
    if i :| 0 <= i < |before| && Closes(before[i].event) {
      assert Closes(inputs[i].event);
    }
    if i :| 0 <= i < |before| && before[i].event.OnTimeout? {
      assert inputs[i].event.OnTimeout?;
    }
  }

  // ---------- The whole exchange ----------

  /** From the first byte to the last: over every run, with any cut of both streams, any partial
      sends both ways, any failed backends retried, backends that close, and timeouts. Once the
      connection is done without an error page and without a failed send to the client, the last
      backend was sent the client's request with the address injected, and the client was given
      what this backend's bytes amount to, or part of it if a timeout came. */
  lemma {:induction false} WholeExchange(id: nat, ip: string, now: int, inputs: seq<Input>, req: Request)
    requires GoodAddress(ip)
    requires ParseRequest(ClientStream(inputs)) == Some(req) && ContentLength(req.headers) >= 0
    requires var c := Run(Start(id, ip, now), inputs); c.state == Done && Unspoilt(c)
    ensures var c := Run(Start(id, ip, now), inputs);
            && AmountsTo(Last(c).received, Closed(inputs), c.relayBuf)
            && c.clientOut <= c.relayBuf && (!Timed(inputs) ==> c.clientOut == c.relayBuf)
            && Last(c).sent == Serialise(Inject(req, ip))
            && ParseRequest(Last(c).sent) == Some(Inject(req, ip))
  {
    hide Run, Start, Inv, RequestIs, ResponseIs, ParseRequest, Serialise, Inject, ContentLength, GoodAddress,
      AmountsTo, Closed, Timed;
    var c := Run(Start(id, ip, now), inputs);
    RequestTaken(id, ip, now, inputs);
    ResponseTaken(id, ip, now, inputs);
    DoneDelivered(c, Closed(inputs), Timed(inputs));
    OpenedForRequest(c);
    TakenWhole(c, ClientStream(inputs), req);
  }

  /** In particular, where the last backend's bytes are a self-delimiting response, or, as long as no
      backend has closed, the beginning of one, and no timeout came, the client was given exactly
      that response. */
  lemma {:induction false} ExactDelivery(id: nat, ip: string, now: int, inputs: seq<Input>, stream: string)
    requires SelfDelimiting(stream) && !Timed(inputs)
    requires var c := Run(Start(id, ip, now), inputs);
             c.state == Done && Unspoilt(c)
             && (Last(c).received == stream || (!Closed(inputs) && Last(c).received <= stream))
    ensures var c := Run(Start(id, ip, now), inputs);
            c.clientOut == stream == Last(c).received
  {
    hide Run, Start, Inv, ResponseIs, SelfDelimiting, Delivered, Closed, Timed;
    var c := Run(Start(id, ip, now), inputs);
    ResponseTaken(id, ip, now, inputs);
    DoneDelivered(c, Closed(inputs), Timed(inputs));
    GivenWhole(c, stream, Closed(inputs));
  }

  lemma DoneDelivered(c: Conn, closed: bool, timed: bool)
    requires ResponseIs(c, closed, timed) && c.state == Done && Unspoilt(c)
    ensures Delivered(c, closed, timed)
  {
    hide AmountsTo;
  }

  lemma GivenWhole(c: Conn, stream: string, closed: bool)
    requires c.sessions != [] && Delivered(c, closed, false) && SelfDelimiting(stream)
    requires Last(c).received == stream || (!closed && Last(c).received <= stream)
    ensures c.clientOut == stream == Last(c).received
  {
    hide Verdict, IsChunked;
    assert stream[..|Last(c).received|] == Last(c).received;
    if |Last(c).received| == |stream| {
      assert Last(c).received == stream;
    }
  }

  lemma TakenWhole(c: Conn, stream: string, req: Request)
    requires RequestIs(c, stream) && c.parsed.Some? && GoodAddress(c.clientIp)
    requires ParseRequest(stream) == Some(req) && ContentLength(req.headers) >= 0
    ensures c.parsed == Some(Inject(req, c.clientIp))
    ensures ParseRequest(Serialise(Inject(req, c.clientIp))) == Some(Inject(req, c.clientIp))
  {
    hide ParseRequest, Serialise, Inject, ContentLength, GoodAddress;
    var rest := stream[|c.requestBuf|..];
    assert c.requestBuf + rest == stream;
    ParsePrefix(c.requestBuf, rest);
    ForwardingIsFaithful(c.requestBuf, c.clientIp);
  }

  lemma OpenedForRequest(c: Conn)
    requires Inv(c) && c.sessions != []
    ensures c.parsed.Some? && c.forwardBuf == Serialise(c.parsed.value)
  {
    hide Phase, Serialise;
  }
}
