/** What holds over whole runs of a connection. */
module ProtocolRuns {
  import opened Wrappers
  import opened Bytes
  import opened Http
  import opened Pools
  import opened Protocol
  import opened ProtocolInvariant

  // ---------- What every part of every handler does ----------

  /** No part of a handler changes the state without counting it, lowers the deadline's generation,
      or moves the deadline without a new generation. */
  ghost predicate Advances(c: Conn, d: Conn) {
    && c.changes <= d.changes
    && (c.state != d.state ==> c.changes < d.changes)
    && c.deadlineGen <= d.deadlineGen
    && (c.deadlineGen == d.deadlineGen ==> c.deadline == d.deadline)
    && d.id == c.id && d.clientIp == c.clientIp
  }

  /** And none but a failed send to the client marks the connection as ended so. */
  ghost predicate Continues(c: Conn, d: Conn) {
    Advances(c, d) && c.aborted == d.aborted
  }

  lemma EnterContinues(c: Conn, s: State, now: int)
    ensures Continues(c, Enter(c, s, now)) && Enter(c, s, now).state == s
  {
  }

  lemma OpenSocketContinues(c: Conn, b: Backend, now: int)
    ensures Continues(c, OpenSocket(c, b, now)) && OpenSocket(c, b, now).attempts == c.attempts
  {
  }

  lemma {:induction false} InitiateContinues(c: Conn, b: Backend, net: Net, replies: Replies)
    ensures Continues(c, Initiate(c, b, net, replies))
    decreases MAX_BACKEND_RETRIES + 1 - c.attempts, 1
  {
    hide Enter, OpenSocket;
    OpenSocketContinues(c, b, net.now);
    var d := OpenSocket(c, b, net.now);
    EnterContinues(d, ForwardingRequest, net.now);
    if net.connect(c.attempts).Refused? {
      FailBackendContinues(d, net, replies);
    }
  }

  lemma {:induction false} FailBackendContinues(c: Conn, net: Net, replies: Replies)
    ensures Continues(c, FailBackend(c, net, replies))
    decreases MAX_BACKEND_RETRIES + 1 - c.attempts, 0
  {
    hide ErrorPage, IsIdempotent;
    var d := Abandon(c);
    var reply := Reply(replies, d.tried);
    if CanRetry(d) && reply.Some? {
      hide Initiate;
      InitiateContinues(Retarget(d, reply.value), reply.value, net, Later(replies));
    }
  }

  lemma SendErrorContinues(c: Conn, code: nat, reason: string, net: Net)
    ensures Continues(c, SendError(c, code, reason, net))
  {
    hide ErrorPage;
  }

  lemma DispatchContinues(c: Conn, req: Request, net: Net, replies: Replies)
    ensures Continues(c, Dispatch(c, req, net, replies))
  {
    hide Serialise, Inject, SendError, Initiate;
    var injected := Inject(req, c.clientIp);
    var d := c.(parsed := Some(injected), forwardBuf := Serialise(injected), forwardOffset := 0);
    match Reply(replies, {})
    case None => SendErrorContinues(d, 503, "Service Unavailable", net);
    case Some(b) =>
      InitiateContinues(d.(backendAddr := Some(b), attempts := 1, notified := false), b, net, Later(replies));
  }

  lemma ClientReadableContinues(c: Conn, recv: Io<string>, net: Net, replies: Replies)
    ensures Continues(c, ClientReadable(c, recv, net, replies))
  {
    hide ParseRequest, Dispatch, SendError;
    if recv.Ok? {
      var d := Refresh(c.(requestBuf := c.requestBuf + recv.value), net.now);
      SendErrorContinues(d, 413, "Request Entity Too Large", net);
      if ParseRequest(d.requestBuf).Some? {
        DispatchContinues(d, ParseRequest(d.requestBuf).value, net, replies);
      }
    }
  }

  lemma SmallStepsContinue(c: Conn, n: nat, data: string, now: int)
    ensures Continues(c, Refresh(c, now)) && Refresh(c, now).state == c.state
    ensures Continues(c, RecordSent(c, n)) && RecordSent(c, n).state == c.state
    ensures Continues(c, RecordReceived(c, data)) && RecordReceived(c, data).state == c.state
  {
    hide Refresh, RecordSent, RecordReceived;
    RefreshContinues(c, now);
    RecordSentContinues(c, n);
    RecordReceivedContinues(c, data);
  }

  lemma RefreshContinues(c: Conn, now: int)
    ensures Continues(c, Refresh(c, now)) && Refresh(c, now).state == c.state
  {
  }

  lemma RecordSentContinues(c: Conn, n: nat)
    ensures Continues(c, RecordSent(c, n)) && RecordSent(c, n).state == c.state
  {
  }

  lemma RecordReceivedContinues(c: Conn, data: string)
    ensures Continues(c, RecordReceived(c, data)) && RecordReceived(c, data).state == c.state
  {
  }

  lemma RequestSentContinues(c: Conn, n: nat, now: int)
    ensures Continues(c, RequestSent(c, n, now))
  {
    hide RecordSent, Enter, Refresh;
    SmallStepsContinue(c, 0, "", now);
    var d := if n > 0 then Refresh(c, now) else c;
    SmallStepsContinue(d, n, "", now);
    EnterContinues(RecordSent(d, n).(forwardOffset := c.forwardOffset + n), ReadingResponse, now);
  }

  lemma BackendWritableContinues(c: Conn, ok: bool, sent: Io<nat>, net: Net, replies: Replies)
    ensures Continues(c, BackendWritable(c, ok, sent, net, replies))
  {
    hide FailBackend, Enter, RequestSent;
    var d := if c.state == ConnectingToBackend then Enter(c, ForwardingRequest, net.now) else c;
    EnterContinues(c, ForwardingRequest, net.now);
    FailBackendContinues(c, net, replies);
    FailBackendContinues(d, net, replies);
    if sent.Ok? {
      var rest := if d.forwardOffset < |d.forwardBuf| then |d.forwardBuf| - d.forwardOffset else 0;
      RequestSentContinues(d, Min(sent.value, rest), net.now);
    }
  }

  lemma PrepareRelayContinues(c: Conn, now: int)
    ensures Continues(c, PrepareRelay(c, now))
  {
  }

  lemma CheckCompleteContinues(c: Conn, now: int)
    ensures Continues(c, CheckComplete(c, now))
  {
    hide PrepareRelay, ChunkedLength, BodyOf, PySlice;
    var body := BodyOf(c.responseBuf);
    PrepareRelayContinues(c.(bodyReceived := |body|), now);
    if ChunkedLength(body).Some? {
      var k := |c.responseBuf| - |body| + ChunkedLength(body).value;
      PrepareRelayContinues(c.(responseBuf := PySlice(c.responseBuf, 0, k)), now);
    }
  }

  lemma ReceivedContinues(c: Conn, data: string, now: int)
    ensures Continues(c, ResponseReceived(c, data, now))
  {
    hide CheckComplete, NoteHeaders, Refresh, RecordReceived;
    SmallStepsContinue(c, 0, data, now);
    var r := RecordReceived(c, data).(responseBuf := c.responseBuf + data);
    SmallStepsContinue(r, 0, "", now);
    var d := Refresh(r, now);
    NoteHeadersContinues(d);
    CheckCompleteContinues(NoteHeaders(d), now);
  }

  lemma NoteHeadersContinues(c: Conn)
    ensures Continues(c, NoteHeaders(c))
  {
    hide Find, IsChunked, ResponseContentLength;
  }

  lemma BackendReadableContinues(c: Conn, recv: Io<string>, net: Net, replies: Replies)
    ensures Continues(c, BackendReadable(c, recv, net, replies))
  {
    hide FailBackend, ChunkedLength, BodyOf, ResponseReceived, PrepareRelay;
    FailBackendContinues(c, net, replies);
    PrepareRelayContinues(c, net.now);
    if recv.Ok? {
      ReceivedContinues(c, recv.value, net.now);
    }
  }

  lemma TimedOutContinues(c: Conn, net: Net)
    ensures Continues(c, TimedOut(c, net))
  {
    hide SendError;
    SendErrorContinues(c, 408, "Request Timeout", net);
    SendErrorContinues(c, 504, "Gateway Timeout", net);
  }

  lemma FinishContinues(c: Conn)
    ensures Continues(c, Finish(c))
  {
  }

  lemma RelayedContinues(c: Conn, n: nat, part: string, now: int)
    ensures Continues(c, Relayed(c, n, part, now))
  {
    hide Refresh, Finish;
    SmallStepsContinue(c.(clientBytesSent := true), 0, "", now);
    var d := if n > 0 then Refresh(c.(clientBytesSent := true), now) else c;
    FinishContinues(d.(relayOffset := d.relayOffset + n, clientOut := d.clientOut + part));
  }

  lemma ClientWritableCounts(c: Conn, sent: Io<nat>, net: Net)
    ensures var d := ClientWritable(c, sent, net);
            && Advances(c, d)
            && d.aborted == (c.aborted || (c.state == ForwardingResponse && sent == Failed))
  {
    hide Relayed;
    if c.state == ForwardingResponse && sent.Ok? {
      var rest := if c.relayOffset < |c.relayBuf| then c.relayBuf[c.relayOffset..] else "";
      var n := Min(sent.value, |rest|);
      RelayedContinues(c, n, rest[..n], net.now);
    }
  }

  /** Every handler advances; and `aborted` marks failed sends to the client. */
  lemma StepCounts(c: Conn, ev: Event, net: Net, replies: Replies)
    ensures var d := Step(c, ev, net, replies);
            && Advances(c, d)
            && d.aborted == (c.aborted || (c.state == ForwardingResponse && ev == OnClientWritable(Failed)))
  {
    hide ClientReadable, ClientWritable, BackendReadable, BackendWritable, TimedOut;
    match ev
    case OnClientReadable(recv) => ClientReadableContinues(c, recv, net, replies);
    case OnClientWritable(sent) => ClientWritableCounts(c, sent, net);
    case OnBackendReadable(recv) => BackendReadableContinues(c, recv, net, replies);
    case OnBackendWritable(ok, sent) => BackendWritableContinues(c, ok, sent, net, replies);
    case OnTimeout => TimedOutContinues(c, net);
  }

  /** How often the state differs before and after a handler call. */
  ghost function ObservedChanges(c: Conn, inputs: seq<Input>): nat
    decreases |inputs|
  {
    if inputs == [] then 0
    else
      var before := inputs[..|inputs| - 1];
      ObservedChanges(c, before) + if Run(c, inputs).state == Run(c, before).state then 0 else 1
  }

  lemma {:induction false} ObservedAreCounted(c: Conn, inputs: seq<Input>)
    ensures c.changes + ObservedChanges(c, inputs) <= Run(c, inputs).changes
    decreases |inputs|
  {
    hide Step;
    if inputs != [] {
      var last := inputs[|inputs| - 1];
      ObservedAreCounted(c, inputs[..|inputs| - 1]);
      StepCounts(Run(c, inputs[..|inputs| - 1]), last.event, last.net, last.replies);
    }
  }

  /** The backends are pairwise distinct, at most 1 + MAX_BACKEND_RETRIES (one, for methods that
      may not be repeated), and the state has changed at most 3 * (1 + MAX_BACKEND_RETRIES) + 2
      times, changes within one handler call included. */
  ghost predicate KeptBounds(c: Conn) {
    && DistinctBackends(c.sessions)
    && |c.sessions| <= 1 + MAX_BACKEND_RETRIES
    && (|c.sessions| >= 2 ==> c.parsed.Some? && IsIdempotent(c.parsed.value))
    && c.changes <= 3 * (1 + MAX_BACKEND_RETRIES) + 2
  }

  lemma InvBounds(c: Conn)
    requires Inv(c)
    ensures KeptBounds(c)
  {
    hide DistinctBackends, SentPrefixes, Phase, IsIdempotent, Serialise;
    assert Cost(c) >= 0;
  }

  /** Every run is bounded, and no change of the state seen between handler calls goes uncounted. */
  lemma {:induction false} RunsAreBounded(id: nat, ip: string, now: int, inputs: seq<Input>)
    ensures var c := Run(Start(id, ip, now), inputs);
            KeptBounds(c) && ObservedChanges(Start(id, ip, now), inputs) <= c.changes
  {
    hide Run, Inv, KeptBounds, ObservedChanges;
    var s := Start(id, ip, now);
    StartInv(id, ip, now);
    RunInv(s, inputs);
    InvBounds(Run(s, inputs));
    ObservedAreCounted(s, inputs);
    assert s.changes == 0;
  }

  /** DONE is absorbing. */
  lemma DoneIsFinal(c: Conn, ev: Event, net: Net, replies: Replies)
    requires c.state == Done
    ensures Step(c, ev, net, replies) == c
  {
  }

  // ---------- The streams ----------

  /** What the client was given is a prefix of the one error page generated, or, where none was, of
      the relayed response, all of which was received from the backend opened last. */
  predicate GaveOneResponse(c: Conn) {
    match c.page
    case Some(page) => IsErrorPage(page) && c.clientOut <= page
    case None => c.clientOut == "" || (c.sessions != [] && c.clientOut <= c.relayBuf <= Last(c).received)
  }

  lemma InvOneResponse(c: Conn)
    requires Inv(c)
    ensures GaveOneResponse(c)
  {
    hide Attempts, IsErrorPage;
  }

  /** Client stream integrity: whatever happens, the client has been given a prefix of exactly one
      response. */
  lemma {:induction false} ClientStreamIntegrity(id: nat, ip: string, now: int, inputs: seq<Input>)
    ensures var c := Run(Start(id, ip, now), inputs);
            GaveOneResponse(c)
  {
    hide Run, Start, Inv, GaveOneResponse;
    var s := Start(id, ip, now);
    StartInv(id, ip, now);
    RunInv(s, inputs);
    InvOneResponse(Run(s, inputs));
  }

  /** Once the client has been given a byte, no backend is opened any more. */
  lemma {:induction false} NoBackendAfterFirstByte(c: Conn, ev: Event, net: Net, replies: Replies)
    requires Inv(c) && c.clientOut != ""
    ensures |Step(c, ev, net, replies).sessions| == |c.sessions|
    ensures c.clientOut <= Step(c, ev, net, replies).clientOut
  {
    assert c.state == ForwardingResponse || c.state == Done by {
      hide Attempts;
    }
    hide Inv, ErrorPage, FailBackend, Dispatch, ResponseReceived, RequestSent, Refresh;
    if ev.OnClientWritable? && c.state == ForwardingResponse && ev.sent.Ok? {
      var rest := if c.relayOffset < |c.relayBuf| then c.relayBuf[c.relayOffset..] else "";
      var n := Min(ev.sent.value, |rest|);
      RelayedKeeps(c, n, rest[..n], net.now);
      hide Relayed;
    }
  }

  lemma RelayedKeeps(c: Conn, n: nat, part: string, now: int)
    ensures var d := Relayed(c, n, part, now);
            d.sessions == c.sessions && d.clientOut == c.clientOut + part
  {
    hide Refresh, Protocol.Finish;
    var s := c.(clientBytesSent := true);
    RefreshKeeps(s, now);
    var d := if n > 0 then Refresh(s, now) else c;
    FinishKeeps(d.(relayOffset := d.relayOffset + n, clientOut := d.clientOut + part));
  }

  lemma RefreshKeeps(c: Conn, now: int)
    ensures Refresh(c, now).sessions == c.sessions && Refresh(c, now).clientOut == c.clientOut
  {
  }

  lemma FinishKeeps(c: Conn)
    ensures Protocol.Finish(c).sessions == c.sessions && Protocol.Finish(c).clientOut == c.clientOut
  {
  }

  /** In a run: after the first byte to the client, the backends stay those opened before. */
  lemma {:induction false} NoBackendLater(id: nat, ip: string, now: int, inputs: seq<Input>, k: nat)
    requires k <= |inputs| && Run(Start(id, ip, now), inputs[..k]).clientOut != ""
    ensures var s := Start(id, ip, now);
            && |Run(s, inputs).sessions| == |Run(s, inputs[..k]).sessions|
            && Run(s, inputs[..k]).clientOut <= Run(s, inputs).clientOut
    decreases |inputs|
  {
    var s := Start(id, ip, now);
    if k == |inputs| {
      assert inputs[..k] == inputs;
    } else {
      var before, last := inputs[..|inputs| - 1], inputs[|inputs| - 1];
      assert before[..k] == inputs[..k];
      NoBackendLater(id, ip, now, before, k);
      StartInv(id, ip, now);
      RunInv(s, before);
      hide Inv, Step;
      NoBackendAfterFirstByte(Run(s, before), last.event, last.net, last.replies);
    }
  }

  ghost predicate SentOneRequest(c: Conn) {
    && (forall i :: 0 <= i < |c.sessions| ==>
          c.parsed.Some? && c.sessions[i].sent <= Serialise(c.parsed.value))
    && (c.state == ReadingResponse || c.state == ForwardingResponse ==>
          c.sessions != [] && c.parsed.Some? && Last(c).sent == Serialise(c.parsed.value))
  }

  lemma InvOneRequest(c: Conn)
    requires Inv(c)
    ensures SentOneRequest(c)
  {
    hide Serialise, DistinctBackends;
  }

  /** Every backend socket was sent a prefix of the one serialised request, from its first byte;
      a backend whose response is awaited or relayed was sent all of it. */
  lemma {:induction false} BackendStreams(id: nat, ip: string, now: int, inputs: seq<Input>)
    ensures var c := Run(Start(id, ip, now), inputs);
            SentOneRequest(c)
  {
    hide Run, Start, Inv, SentOneRequest;
    StartInv(id, ip, now);
    RunInv(Start(id, ip, now), inputs);
    InvOneRequest(Run(Start(id, ip, now), inputs));
  }

  /** A relay ends without an error only when the client has been given the whole response. */
  lemma {:induction false} RelayCompletes(c: Conn, sent: Io<nat>, net: Net)
    requires Inv(c) && c.state == ForwardingResponse
    ensures var d := ClientWritable(c, sent, net);
            d.state == Done && !d.aborted ==> d.clientOut == c.relayBuf && d.notified
  {
    hide Attempts;
    var rest := c.relayBuf[c.relayOffset..];
    if sent.Ok? {
      var n := Min(sent.value, |rest|);
      Pieces(c.relayBuf, c.relayOffset, n);
      RelayedEnds(c, n, rest[..n], net.now);
      hide Relayed;
    }
  }

  lemma Pieces(s: string, i: nat, n: nat)
    requires i + n <= |s|
    ensures s[..i] + s[i..][..n] == s[..i + n]
  {
  }

  lemma RelayedEnds(c: Conn, n: nat, part: string, now: int)
    requires c.state == ForwardingResponse && c.backendAddr.Some?
    ensures var d := Relayed(c, n, part, now);
            d.state == Done ==> c.relayOffset + n >= |c.relayBuf| && d.clientOut == c.clientOut + part && d.notified
  {
    RelayedKeeps(c, n, part, now);
    hide Protocol.Finish, Refresh;
    RefreshContinues(c.(clientBytesSent := true), now);
    RelayedFields(c, n, part, now);
  }

  lemma RelayedFields(c: Conn, n: nat, part: string, now: int)
    requires c.state == ForwardingResponse && c.backendAddr.Some?
    ensures var d := Relayed(c, n, part, now);
            d.state == Done ==> c.relayOffset + n >= |c.relayBuf| && d.notified
  {
  }

  // ---------- Acquire and release ----------

  /** A connection holds a router slot exactly while a backend is engaged, or after a failed send
      to the client ended it. */
  lemma HoldsIff(c: Conn, b: Backend)
    requires Inv(c)
    ensures Holds(c, b) <==> (c.backendAddr == Some(b)
              && ((c.state != ReadingRequest && c.state != Done) || c.aborted))
    ensures c.state == ReadingRequest ==> c.backendAddr == None
  {
    hide Attempts;
  }

  /** Every run that reaches DONE has released its backend, except those ended by an error while
      sending to the client (see StepCounts), which never have. */
  lemma DoneReleasesUnlessAborted(id: nat, ip: string, now: int, inputs: seq<Input>, b: Backend)
    ensures var c := Run(Start(id, ip, now), inputs);
            c.state == Done ==> (Holds(c, b) <==> c.aborted && c.backendAddr == Some(b))
  {
    StartInv(id, ip, now);
    RunInv(Start(id, ip, now), inputs);
    hide Run, Inv;
    HoldsIff(Run(Start(id, ip, now), inputs), b);
  }
}
