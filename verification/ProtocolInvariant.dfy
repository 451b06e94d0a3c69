/** What every reachable connection state satisfies. */
module ProtocolInvariant {
  import opened Wrappers
  import opened Bytes
  import opened Http
  import opened Pools
  import opened Protocol
  import HttpRoundTrip

  // ---------- The invariant ----------

  const MAX_CHANGES := 3 * (1 + MAX_BACKEND_RETRIES) + 2

  /** State changes that may still come, at most. */
  function Cost(c: Conn): int {
    var left := 3 * (1 + MAX_BACKEND_RETRIES - c.attempts);
    match c.state
    case ReadingRequest => left + 2
    case ConnectingToBackend => left + 4
    case ForwardingRequest => left + 3
    case ReadingResponse => left + 2
    case ForwardingResponse => left + 1
    case Done => 0
  }

  function Backends(ss: seq<Session>): set<Backend> {
    set i | 0 <= i < |ss| :: ss[i].backend
  }

  ghost predicate DistinctBackends(ss: seq<Session>) {
    forall i, j :: 0 <= i < j < |ss| ==> ss[i].backend != ss[j].backend
  }

  /** Every backend was sent a prefix of the one serialised request. */
  ghost predicate SentPrefixes(ss: seq<Session>, request: string) {
    forall i :: 0 <= i < |ss| ==> ss[i].sent <= request
  }

  function Last(c: Conn): Session
    requires c.sessions != []
  {
    c.sessions[|c.sessions| - 1]
  }

  ghost predicate Attempts(c: Conn) {
    && |c.sessions| == c.attempts <= 1 + MAX_BACKEND_RETRIES
    && (c.attempts >= 1 ==> c.parsed.Some? && c.forwardBuf == Serialise(c.parsed.value))
    && (c.attempts >= 2 ==> IsIdempotent(c.parsed.value))
    && DistinctBackends(c.sessions)
    && SentPrefixes(c.sessions, c.forwardBuf)
    && c.changes + Cost(c) <= MAX_CHANGES
  }

  ghost predicate ClientSilent(c: Conn) {
    c.clientOut == "" && !c.clientBytesSent && c.page == None && !c.aborted
  }

  /** The cached results of the header scan are those of the buffer. */
  ghost predicate ScansCached(c: Conn) {
    && (c.headersDone <==> Find(c.responseBuf, DELIM, 0) != -1)
    && (c.headersDone ==> (c.isChunked <==> IsChunked(c.responseBuf) == Some(true)))
    && (c.headersDone ==>
          c.contentLength == if c.isChunked then -1 else ResponseContentLength(c.responseBuf))
  }

  ghost predicate NoResponseYet(c: Conn) {
    c.sessions != [] && c.responseBuf == "" && !c.headersDone && Last(c).received == ""
  }

  ghost predicate Waiting(c: Conn) {
    && c.sessions == [] && c.attempts == 0 && c.tried == {}
    && c.backendAddr == None && c.backendSock == None && c.pendingUnregister == None
    && !c.notified && c.responseBuf == "" && !c.headersDone
    && ClientSilent(c)
  }

  /** One backend is in use: the last one opened, not among those tried before. */
  ghost predicate Engaged(c: Conn) {
    && |c.sessions| == c.attempts >= 1
    && c.backendAddr == Some(Last(c).backend) && !c.notified
    && c.backendSock == Some(BackendSock(c.id, c.attempts))
    && c.tried == Backends(c.sessions[..c.attempts - 1])
  }

  /** The five pages that the proxy generates. */
  predicate IsErrorPage(page: string) {
    || page == ErrorPage(408, "Request Timeout")
    || page == ErrorPage(413, "Request Entity Too Large")
    || page == ErrorPage(502, "Bad Gateway")
    || page == ErrorPage(503, "Service Unavailable")
    || page == ErrorPage(504, "Gateway Timeout")
  }

  /** The bytes given to the client are a prefix of one response: one error page, or a relayed
      response whose bytes all came from the last backend opened. */
  ghost predicate OneResponse(c: Conn) {
    match c.page
    case Some(page) => IsErrorPage(page) && c.clientOut <= page
    case None => c.clientOut <= c.relayBuf
                 && (c.clientOut != "" ==> c.sessions != [] && c.relayBuf <= Last(c).received)
  }

  ghost predicate Ended(c: Conn) {
    && OneResponse(c)
    && (c.aborted <==> c.backendAddr.Some? && !c.notified)
  }

  ghost predicate Phase(c: Conn)
    requires Attempts(c)
  {
    match c.state
    case ReadingRequest => Waiting(c)
    case ConnectingToBackend =>
      Engaged(c) && ClientSilent(c) && c.forwardOffset == 0 && Last(c).sent == "" && NoResponseYet(c)
    case ForwardingRequest =>
      && Engaged(c) && ClientSilent(c) && NoResponseYet(c)
      && c.forwardOffset <= |c.forwardBuf| && Last(c).sent == c.forwardBuf[..c.forwardOffset]
    case ReadingResponse =>
      && Engaged(c) && ClientSilent(c) && Last(c).sent == c.forwardBuf
      && c.responseBuf == Last(c).received && ScansCached(c)
    case ForwardingResponse =>
      && Engaged(c) && Last(c).sent == c.forwardBuf && c.page == None && !c.aborted
      && c.relayBuf <= Last(c).received && c.relayOffset <= |c.relayBuf|
      && c.clientOut == c.relayBuf[..c.relayOffset]
      && (c.clientBytesSent <==> c.relayOffset > 0)
    case Done => Ended(c)
  }

  ghost predicate Inv(c: Conn) {
    Attempts(c) && Phase(c)
  }

  /** The states in which a backend failure is possible. */
  predicate OnBackend(s: State) {
    s.ConnectingToBackend? || s.ForwardingRequest? || s.ReadingResponse?
  }

  // ---------- Preservation ----------

  lemma StartInv(id: nat, clientIp: string, now: int)
    ensures Inv(Start(id, clientIp, now))
  {
    assert Find("", DELIM, 0) == -1;
  }

  /** An error page ends the connection from any state in which the client got nothing. */
  lemma SendErrorInv(c: Conn, code: nat, reason: string, net: Net)
    requires Attempts(c) && c.clientOut == "" && c.page == None && !c.aborted
    requires c.state != Done && IsErrorPage(ErrorPage(code, reason))
    ensures Inv(SendError(c, code, reason, net)) && SendError(c, code, reason, net).state == Done
    ensures SendError(c, code, reason, net).sessions == c.sessions
  {
    hide ErrorPage;
  }

  /** A backend was chosen, and its socket is about to be opened. */
  ghost predicate Opening(c: Conn, b: Backend) {
    && |c.sessions| == c.attempts - 1 <= MAX_BACKEND_RETRIES
    && c.parsed.Some? && c.forwardBuf == Serialise(c.parsed.value)
    && (c.attempts >= 2 ==> IsIdempotent(c.parsed.value))
    && DistinctBackends(c.sessions) && SentPrefixes(c.sessions, c.forwardBuf)
    && c.tried == Backends(c.sessions) && b !in c.tried
    && c.backendAddr == Some(b) && !c.notified
    && c.forwardOffset == 0 && c.responseBuf == "" && !c.headersDone
    && ClientSilent(c)
    && c.changes + 1 + 4 + 3 * (1 + MAX_BACKEND_RETRIES - c.attempts) <= MAX_CHANGES
  }

  /** Adding a session for an untried backend. */
  lemma SessionsGrow(ss: seq<Session>, b: Backend, request: string)
    requires DistinctBackends(ss) && SentPrefixes(ss, request) && b !in Backends(ss)
    ensures DistinctBackends(ss + [Session(b, "", "")]) && SentPrefixes(ss + [Session(b, "", "")], request)
  {
    forall i | 0 <= i < |ss| ensures ss[i].backend != b {
      assert ss[i].backend in Backends(ss);
    }
  }

  lemma OpenSocketInv(c: Conn, b: Backend, now: int)
    requires Opening(c, b)
    ensures Inv(OpenSocket(c, b, now))
  {
    hide DistinctBackends, SentPrefixes, Backends, IsIdempotent, Serialise, OpenSocket;
    SessionsGrow(c.sessions, b, c.forwardBuf);
    OpenSocketIs(c, b, now);
    var d := OpenSocket(c, b, now);
    assert d.sessions[..d.attempts - 1] == c.sessions;
    assert Last(d) == Session(b, "", "");
  }

  lemma OpenSocketIs(c: Conn, b: Backend, now: int)
    ensures var d := OpenSocket(c, b, now);
            && d == c.(state := ConnectingToBackend, changes := d.changes, deadline := d.deadline,
                       deadlineGen := d.deadlineGen, backendSock := Some(BackendSock(c.id, c.attempts)),
                       sessions := c.sessions + [Session(b, "", "")])
            && d.changes <= c.changes + 1
  {
  }

  lemma BackendsSnoc(ss: seq<Session>)
    requires ss != []
    ensures Backends(ss) == Backends(ss[..|ss| - 1]) + {ss[|ss| - 1].backend}
  {
    forall b | b in Backends(ss) ensures b in Backends(ss[..|ss| - 1]) + {ss[|ss| - 1].backend} {
      var i :| 0 <= i < |ss| && ss[i].backend == b;
      if i < |ss| - 1 {
        assert ss[..|ss| - 1][i].backend == b;
      }
    }
    forall b | b in Backends(ss[..|ss| - 1]) ensures b in Backends(ss) {
      var i :| 0 <= i < |ss| - 1 && ss[..|ss| - 1][i].backend == b;
      assert ss[i].backend == b;
    }
  }

  lemma AbandonFacts(c: Conn)
    requires Inv(c) && OnBackend(c.state)
    ensures var d := Abandon(c);
            Attempts(d) && ClientSilent(d) && d.state == c.state && d.tried == Backends(d.sessions)
  {
    BackendsSnoc(c.sessions);
    hide Backends;
  }

  lemma RetargetOpens(c: Conn, b: Backend)
    requires Inv(c) && OnBackend(c.state) && CanRetry(Abandon(c)) && b !in Abandon(c).tried
    ensures Opening(Retarget(Abandon(c), b), b)
  {
    AbandonFacts(c);
    hide Backends, IsIdempotent, DistinctBackends, SentPrefixes, Serialise;
  }

  lemma ConnectedInv(c: Conn, now: int)
    requires Inv(c) && c.state == ConnectingToBackend
    ensures Inv(Enter(c, ForwardingRequest, now)) && Enter(c, ForwardingRequest, now).state == ForwardingRequest
  {
    hide DistinctBackends, SentPrefixes, Backends, IsIdempotent, Serialise;
    assert c.forwardBuf[..0] == "";
  }

  lemma {:induction false} InitiateInv(c: Conn, b: Backend, net: Net, replies: Replies)
    requires Opening(c, b)
    ensures Inv(Initiate(c, b, net, replies))
    decreases MAX_BACKEND_RETRIES + 1 - c.attempts, 1
  {
    hide Inv, Opening, Enter, OpenSocket;
    OpenSocketInv(c, b, net.now);
    Opened(c, b, net.now);
    var d := OpenSocket(c, b, net.now);
    match net.connect(c.attempts)
    case Connected => ConnectedInv(d, net.now);
    case InProgress =>
    case Refused => FailBackendInv(d, net, replies);
  }

  lemma Opened(c: Conn, b: Backend, now: int)
    ensures OpenSocket(c, b, now).state == ConnectingToBackend
    ensures OpenSocket(c, b, now).attempts == c.attempts
  {
  }

  lemma {:induction false} FailBackendInv(c: Conn, net: Net, replies: Replies)
    requires Inv(c) && OnBackend(c.state)
    ensures Inv(FailBackend(c, net, replies))
    decreases MAX_BACKEND_RETRIES + 1 - c.attempts, 0
  {
    var d := Abandon(c);
    AbandonFacts(c);
    var reply := Reply(replies, d.tried);
    if CanRetry(d) && reply.Some? {
      RetargetOpens(c, reply.value);
      hide Inv, Opening, Backends;
      InitiateInv(Retarget(d, reply.value), reply.value, net, Later(replies));
    } else {
      SendErrorInv(d, 502, "Bad Gateway", net);
    }
  }

  lemma DispatchInv(c: Conn, req: Request, net: Net, replies: Replies)
    requires Inv(c) && c.state == ReadingRequest
    ensures Inv(Dispatch(c, req, net, replies))
  {
    var injected := Inject(req, c.clientIp);
    var d := c.(parsed := Some(injected), forwardBuf := Serialise(injected), forwardOffset := 0);
    hide Serialise, Inject, IsIdempotent, ErrorPage;
    match Reply(replies, {})
    case None =>
      SendErrorInv(d, 503, "Service Unavailable", net);
    case Some(b) =>
      var e := d.(backendAddr := Some(b), attempts := 1, notified := false);
      assert Opening(e, b);
      hide Opening, Inv;
      InitiateInv(e, b, net, Later(replies));
  }

  lemma ClientReadableInv(c: Conn, recv: Io<string>, net: Net, replies: Replies)
    requires Inv(c)
    ensures Inv(ClientReadable(c, recv, net, replies))
  {
    hide ParseRequest, Dispatch, ErrorPage;
    if c.state == ReadingRequest && recv.Ok? && recv.value != "" {
      var d := Refresh(c.(requestBuf := c.requestBuf + recv.value), net.now);
      assert Inv(d) && d.state == ReadingRequest;
      if |d.requestBuf| > MAX_REQUEST_SIZE {
        SendErrorInv(d, 413, "Request Entity Too Large", net);
      } else if ParseRequest(d.requestBuf).Some? {
        DispatchInv(d, ParseRequest(d.requestBuf).value, net, replies);
      }
    }
  }

  /** Updating the last session's history, within the request. */
  lemma SessionsUpdate(ss: seq<Session>, s: Session, request: string)
    requires ss != [] && DistinctBackends(ss) && SentPrefixes(ss, request)
    requires s.backend == ss[|ss| - 1].backend && s.sent <= request
    ensures var rs := ss[|ss| - 1 := s];
            DistinctBackends(rs) && SentPrefixes(rs, request) && rs[..|ss| - 1] == ss[..|ss| - 1]
  {
    var rs := ss[|ss| - 1 := s];
    forall i, j | 0 <= i < j < |rs| ensures rs[i].backend != rs[j].backend {
      assert ss[i].backend != ss[j].backend;
    }
  }

  lemma RecordSentIs(c: Conn, n: nat)
    requires c.sessions != [] && c.forwardOffset + n <= |c.forwardBuf| && Last(c).sent == c.forwardBuf[..c.forwardOffset]
    ensures RecordSent(c, n) == c.(sessions := c.sessions[|c.sessions| - 1 := Last(c).(sent := c.forwardBuf[..c.forwardOffset + n])])
  {
    var off := c.forwardOffset;
    assert c.forwardBuf[..off] + c.forwardBuf[off..off + n] == c.forwardBuf[..off + n];
  }

  lemma RecordSentInv(c: Conn, n: nat)
    requires Inv(c) && c.state == ForwardingRequest && c.forwardOffset + n <= |c.forwardBuf|
    ensures Inv(RecordSent(c, n).(forwardOffset := c.forwardOffset + n))
    ensures RecordSent(c, n).state == c.state && RecordSent(c, n).forwardBuf == c.forwardBuf
  {
    hide DistinctBackends, SentPrefixes, Backends, IsIdempotent, Serialise, RecordSent;
    var off := c.forwardOffset;
    RecordSentIs(c, n);
    SessionsUpdate(c.sessions, Last(c).(sent := c.forwardBuf[..off + n]), c.forwardBuf);
  }

  lemma RefreshInv(c: Conn, now: int)
    requires Inv(c) && c.state == ForwardingRequest
    ensures Inv(Refresh(c, now))
    ensures var d := Refresh(c, now);
            d.state == c.state && d.forwardOffset == c.forwardOffset && d.forwardBuf == c.forwardBuf
  {
    hide DistinctBackends, SentPrefixes, Backends, IsIdempotent, Serialise;
  }

  lemma AllSentInv(c: Conn, now: int)
    requires Inv(c) && c.state == ForwardingRequest && c.forwardOffset >= |c.forwardBuf|
    ensures Inv(Enter(c, ReadingResponse, now))
  {
    hide DistinctBackends, SentPrefixes, Backends, IsIdempotent, Serialise;
    assert c.forwardBuf[..c.forwardOffset] == c.forwardBuf;
    assert Find("", DELIM, 0) == -1;
  }

  lemma RequestSentInv(c: Conn, n: nat, now: int)
    requires Inv(c) && c.state == ForwardingRequest && c.forwardOffset + n <= |c.forwardBuf|
    ensures Inv(RequestSent(c, n, now))
  {
    hide Inv, RecordSent, Refresh, Enter;
    RefreshInv(c, now);
    var d := if n > 0 then Refresh(c, now) else c;
    RecordSentInv(d, n);
    var e := RecordSent(d, n).(forwardOffset := d.forwardOffset + n);
    if e.forwardOffset >= |e.forwardBuf| {
      AllSentInv(e, now);
    }
  }

  lemma BackendWritableInv(c: Conn, connectOk: bool, send: Io<nat>, net: Net, replies: Replies)
    requires Inv(c)
    ensures Inv(BackendWritable(c, connectOk, send, net, replies))
  {
    hide Attempts, Enter, RequestSent;
    if c.state == ConnectingToBackend && !connectOk {
      FailBackendInv(c, net, replies);
    } else {
      var d := if c.state == ConnectingToBackend then Enter(c, ForwardingRequest, net.now) else c;
      if c.state == ConnectingToBackend {
        ConnectedInv(c, net.now);
      }
      if d.state == ForwardingRequest {
        match send
        case WouldBlock =>
        case Failed => FailBackendInv(d, net, replies);
        case Ok(k) =>
          RequestSentInv(d, Min(k, |d.forwardBuf| - d.forwardOffset), net.now);
      }
    }
  }

  /** The state between receiving bytes and looking for the end of the headers. */
  ghost predicate Received(c: Conn) {
    && Attempts(c) && Engaged(c) && ClientSilent(c) && c.state == ReadingResponse
    && Last(c).sent == c.forwardBuf && c.responseBuf == Last(c).received
    && (c.headersDone ==> Find(c.responseBuf, DELIM, 0) != -1)
    && (c.headersDone ==> ScansCached(c))
  }

  lemma ReceiveInv(c: Conn, data: string, now: int)
    requires Inv(c) && c.state == ReadingResponse
    ensures var d := Refresh(RecordReceived(c, data).(responseBuf := c.responseBuf + data), now);
            Received(d) && d.responseBuf == c.responseBuf + data
  {
    hide Serialise, IsIdempotent, Backends, IsChunked, ResponseContentLength, DistinctBackends, SentPrefixes, Find;
    SessionsUpdate(c.sessions, Last(c).(received := Last(c).received + data), c.forwardBuf);
    if c.headersDone {
      HttpRoundTrip.ResponseScansExtend(c.responseBuf, data);
    }
  }

  lemma NoteHeadersInv(c: Conn)
    requires Received(c)
    ensures Inv(NoteHeaders(c)) && NoteHeaders(c).state == ReadingResponse
    ensures NoteHeaders(c).responseBuf == c.responseBuf
  {
    hide Serialise, IsIdempotent, Backends, IsChunked, ResponseContentLength, DistinctBackends, SentPrefixes, Find;
  }

  lemma RecordReceivedInv(c: Conn, data: string, now: int)
    requires Inv(c) && c.state == ReadingResponse
    ensures var d := NoteHeaders(Refresh(RecordReceived(c, data).(responseBuf := c.responseBuf + data), now));
            Inv(d) && d.state == ReadingResponse && d.responseBuf == c.responseBuf + data
  {
    hide Received, NoteHeaders, RecordReceived, Refresh, Inv;
    ReceiveInv(c, data, now);
    NoteHeadersInv(Refresh(RecordReceived(c, data).(responseBuf := c.responseBuf + data), now));
  }

  lemma PrepareRelayInv(c: Conn, now: int)
    requires Attempts(c) && Engaged(c) && ClientSilent(c) && c.state == ReadingResponse
    requires Last(c).sent == c.forwardBuf && c.responseBuf <= Last(c).received
    ensures Inv(PrepareRelay(c, now))
  {
    hide Serialise, IsIdempotent, Backends, DistinctBackends, SentPrefixes;
  }

  lemma CheckCompleteInv(c: Conn, now: int)
    requires Inv(c) && c.state == ReadingResponse
    ensures Inv(CheckComplete(c, now))
  {
    hide Serialise, IsIdempotent, Backends, DistinctBackends, SentPrefixes, ChunkedLength, BodyOf, PrepareRelay, IsChunked,
      Find, ResponseContentLength;
    var body := BodyOf(c.responseBuf);
    if c.headersDone {
      if c.isChunked {
        if ChunkedLength(body).Some? {
          var k := |c.responseBuf| - |body| + ChunkedLength(body).value;
          assert PySlice(c.responseBuf, 0, k) <= c.responseBuf;
          PrepareRelayInv(c.(responseBuf := PySlice(c.responseBuf, 0, k)), now);
        }
      } else if 0 <= c.contentLength <= |body| {
        PrepareRelayInv(c.(bodyReceived := |body|), now);
      }
    }
  }

  lemma BackendReadableInv(c: Conn, recv: Io<string>, net: Net, replies: Replies)
    requires Inv(c)
    ensures Inv(BackendReadable(c, recv, net, replies))
  {
    hide ChunkedLength, BodyOf, CheckComplete, NoteHeaders, RecordReceived, PrepareRelay, Attempts;
    if c.state == ReadingResponse {
      match recv
      case WouldBlock =>
      case Failed => FailBackendInv(c, net, replies);
      case Ok(data) =>
        if data != "" {
          RecordReceivedInv(c, data, net.now);
          CheckCompleteInv(NoteHeaders(Refresh(RecordReceived(c, data).(responseBuf := c.responseBuf + data), net.now)), net.now);
        } else if c.isChunked && c.headersDone && ChunkedLength(BodyOf(c.responseBuf)).None? {
          FailBackendInv(c, net, replies);
        } else {
          PrepareRelayInv(c, net.now);
        }
    }
  }

  lemma GivenInv(c: Conn, d: Conn, n: nat)
    requires Inv(c) && c.state == ForwardingResponse && c.relayOffset + n <= |c.relayBuf|
    requires n == 0 ==> d == c
    requires n > 0 ==> d == c.(clientBytesSent := true, deadline := d.deadline, deadlineGen := d.deadlineGen)
    ensures var e := d.(relayOffset := d.relayOffset + n,
                        clientOut := d.clientOut + c.relayBuf[c.relayOffset..][..n]);
            Inv(e) && e.state == ForwardingResponse
  {
    hide Serialise, IsIdempotent, Backends, DistinctBackends, SentPrefixes;
    assert c.relayBuf[..c.relayOffset] + c.relayBuf[c.relayOffset..][..n] == c.relayBuf[..c.relayOffset + n];
  }

  lemma FinishInv(c: Conn)
    requires Inv(c) && c.state == ForwardingResponse
    ensures Inv(Finish(c))
  {
    hide Serialise, IsIdempotent, Backends, DistinctBackends, SentPrefixes;
  }

  /** `n` bytes of the response were given to the client. */
  lemma RelayedInv(c: Conn, n: nat, now: int)
    requires Inv(c) && c.state == ForwardingResponse && c.relayOffset + n <= |c.relayBuf|
    ensures Inv(Relayed(c, n, c.relayBuf[c.relayOffset..][..n], now))
  {
    hide Inv, Finish;
    var part := c.relayBuf[c.relayOffset..][..n];
    var d := if n > 0 then Refresh(c.(clientBytesSent := true), now) else c;
    GivenInv(c, d, n);
    hide Refresh;
    var e := d.(relayOffset := d.relayOffset + n, clientOut := d.clientOut + part);
    FinishInv(e);
  }

  lemma ClientWritableInv(c: Conn, send: Io<nat>, net: Net)
    requires Inv(c)
    ensures Inv(ClientWritable(c, send, net))
  {
    if c.state == ForwardingResponse {
      match send
      case WouldBlock =>
      case Failed => AbortInv(c);
      case Ok(k) =>
        assert c.relayOffset <= |c.relayBuf|;
        assert c.relayOffset == |c.relayBuf| ==> c.relayBuf[c.relayOffset..] == "";
        hide Inv, Relayed;
        RelayedInv(c, Min(k, |c.relayBuf| - c.relayOffset), net.now);
    }
  }

  lemma AbortInv(c: Conn)
    requires Inv(c) && c.state == ForwardingResponse
    ensures Inv(SetState(c.(aborted := true), Done))
  {
    hide Serialise, IsIdempotent, Backends, DistinctBackends, SentPrefixes;
  }

  lemma TimedOutInv(c: Conn, net: Net)
    requires Inv(c)
    ensures Inv(TimedOut(c, net)) && TimedOut(c, net).state == Done
  {
    hide Serialise, IsIdempotent, Backends, DistinctBackends, SentPrefixes, ErrorPage;
    if c.state != Done {
      if c.state == ReadingRequest {
        SendErrorInv(c, 408, "Request Timeout", net);
      } else if !c.clientBytesSent {
        SendErrorInv(c, 504, "Gateway Timeout", net);
      }
    }
  }

  /** Every handler, with any outcomes, keeps the invariant. */
  lemma {:induction false} StepInv(c: Conn, ev: Event, net: Net, replies: Replies)
    requires Inv(c)
    ensures Inv(Step(c, ev, net, replies))
  {
    hide Inv, ClientReadable, ClientWritable, BackendReadable, BackendWritable, TimedOut;
    match ev
    case OnClientReadable(recv) => ClientReadableInv(c, recv, net, replies);
    case OnClientWritable(sent) => ClientWritableInv(c, sent, net);
    case OnBackendReadable(recv) => BackendReadableInv(c, recv, net, replies);
    case OnBackendWritable(ok, sent) => BackendWritableInv(c, ok, sent, net, replies);
    case OnTimeout => TimedOutInv(c, net);
  }

  lemma {:induction false} RunInv(c: Conn, inputs: seq<Input>)
    requires Inv(c)
    ensures Inv(Run(c, inputs))
    decreases |inputs|
  {
    hide Inv, Step;
    if inputs != [] {
      var last := inputs[|inputs| - 1];
      RunInv(c, inputs[..|inputs| - 1]);
      StepInv(Run(c, inputs[..|inputs| - 1]), last.event, last.net, last.replies);
    }
  }
}
