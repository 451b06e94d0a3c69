/** The selector bookkeeping of reactor.py: what is registered for a connection's sockets, and
    what every handler call leaves registered. */
module Selector {
  import opened Wrappers
  import opened Pools
  import opened Protocol
  import opened ProtocolInvariant
  import opened ProtocolRuns
  import Bytes
  import Http

  datatype Interest = Read | Write

  /** The selector's registrations; registering twice, or modifying or unregistering what is not
      there, raises an error that the reactor catches. */
  type Registrations = map<Sock, Interest>

  function Register(m: Registrations, s: Sock, i: Interest): Registrations {
    if s in m then m else m[s := i]
  }

  function Modify(m: Registrations, s: Sock, i: Interest): Registrations {
    if s in m then m[s := i] else m
  }

  function Unregister(m: Registrations, s: Option<Sock>): Registrations {
    if s.Some? then m - {s.value} else m
  }

  /** _flush_pending_unregister, on the registrations. */
  function Flushed(m: Registrations, c: Conn): Registrations {
    if c.pendingUnregister.None? then m
    else
      var n := Unregister(m, c.pendingUnregister);
      if c.backendSock.Some? && (c.state.ConnectingToBackend? || c.state.ForwardingRequest?)
      then n[c.backendSock.value := Write]
      else n
  }

  /** _flush_pending_unregister, on the connection. */
  function Settled(c: Conn): Conn {
    c.(pendingUnregister := None)
  }

  /** _transition */
  function Transitioned(m: Registrations, c: Conn, prev: State): Registrations {
    var n := Flushed(m, c);
    if c.state == prev then n
    else
      match c.state
      case ConnectingToBackend =>
        if c.backendSock.Some? then Register(n, c.backendSock.value, Write) else n
      case ForwardingRequest =>
        if c.backendSock.Some? then n[c.backendSock.value := Write] else n
      case ReadingResponse =>
        if c.backendSock.Some? then Modify(n, c.backendSock.value, Read) else n
      case ForwardingResponse =>
        Unregister(Modify(n, ClientSock(c.id), Write), c.backendSock)
      case _ => n
  }

  // ---------- The registrations a state calls for ----------

  predicate Has(m: Registrations, s: Sock, i: Interest) {
    s in m && m[s] == i
  }

  /** Client: read before the relay, write in it. Current backend: write until the request is
      sent, then read, then nothing. */
  ghost predicate Matches(c: Conn, m: Registrations) {
    && (c.state != Done ==>
          Has(m, ClientSock(c.id), if c.state == ForwardingResponse then Write else Read))
    && (c.state == ConnectingToBackend || c.state == ForwardingRequest ==>
          c.backendSock.Some? && Has(m, c.backendSock.value, Write))
    && (c.state == ReadingResponse ==> c.backendSock.Some? && Has(m, c.backendSock.value, Read))
    && (c.state == ForwardingResponse ==> c.backendSock.Some? && c.backendSock.value !in m)
  }

  predicate OwnSock(c: Conn) {
    c.backendSock.Some? ==> c.backendSock.value.BackendSock? && c.backendSock.value.conn == c.id
  }

  /** The match at a loop boundary: nothing is pending, and no later attempt is registered. */
  ghost predicate InterestOk(c: Conn, m: Registrations) {
    && Matches(c, m)
    && c.pendingUnregister == None
    && OwnSock(c)
    && forall k: nat :: BackendSock(c.id, k) in m ==> k <= c.attempts
  }

  /** Sockets of other connections. */
  ghost predicate SameElsewhere(m: Registrations, n: Registrations, id: nat) {
    forall s: Sock :: s.conn != id ==> ((s in m <==> s in n) && (s in m && s in n ==> m[s] == n[s]))
  }

  // ---------- What a handler call does to the sockets ----------

  predicate Ahead(s: State, t: State) {
    || s == t
    || (s == ConnectingToBackend && (t == ForwardingRequest || t == ReadingResponse))
    || (s == ForwardingRequest && t == ReadingResponse)
    || (s == ReadingResponse && t == ForwardingResponse)
  }

  predicate Opened(c: Conn) {
    (c.state == ConnectingToBackend || c.state == ForwardingRequest)
    && c.backendSock == Some(BackendSock(c.id, c.attempts))
  }

  /** The sockets before and after: the same backend; or the first one; or, after failures, one
      socket to unregister, and a new backend unless the connection is done. */
  ghost predicate SocketsMove(c: Conn, d: Conn) {
    && d.id == c.id && c.attempts <= d.attempts
    && match d.pendingUnregister
       case None =>
         || (d.state == Done && d.backendSock == c.backendSock)
         || (d.attempts == c.attempts && d.backendSock == c.backendSock && Ahead(c.state, d.state))
         || (c.state == ReadingRequest && Opened(d) && c.attempts < d.attempts)
       case Some(s) =>
         && s.BackendSock? && s.conn == c.id && c.attempts <= s.attempt <= d.attempts
         && (if d.state == Done then d.backendSock == None else Opened(d) && s.attempt < d.attempts)
         && c.state != ForwardingResponse && c.state != Done
  }

  /** The sockets after opening one for the current attempt, or failing over from it. */
  ghost predicate SocketsOpen(c: Conn, d: Conn) {
    && d.id == c.id && c.attempts <= d.attempts
    && (d.state == Done || Opened(d))
    && match d.pendingUnregister
       case None => c.pendingUnregister == None && Opened(d)
       case Some(s) =>
         || (c.pendingUnregister == Some(s) && Opened(d))
         || (s.BackendSock? && s.conn == c.id && c.attempts <= s.attempt <= d.attempts
             && (if d.state == Done then d.backendSock == None else s.attempt < d.attempts))
  }

  lemma {:induction false} InitiateSockets(c: Conn, b: Backend, net: Net, replies: Replies)
    ensures SocketsOpen(c, Initiate(c, b, net, replies))
    decreases MAX_BACKEND_RETRIES + 1 - c.attempts, 1
  {
    hide FailBackend, OpenSocket, Enter;
    var d := OpenSocket(c, b, net.now);
    OpenSocketOpens(c, b, net.now);
    EnterSockets(d, ForwardingRequest, net.now);
    if net.connect(c.attempts).Refused? {
      FailBackendSockets(d, net, replies);
    }
  }

  lemma OpenSocketOpens(c: Conn, b: Backend, now: int)
    ensures var d := OpenSocket(c, b, now);
            Opened(d) && d.pendingUnregister == c.pendingUnregister && d.id == c.id && d.attempts == c.attempts
  {
  }

  /** After a failure the failed socket, or a later one that failed too, is to be unregistered. */
  lemma {:induction false} FailBackendSockets(c: Conn, net: Net, replies: Replies)
    requires c.backendSock == Some(BackendSock(c.id, c.attempts))
    ensures var d := FailBackend(c, net, replies);
            && d.id == c.id && c.attempts <= d.attempts && d.pendingUnregister.Some?
            && (var s := d.pendingUnregister.value;
                && s.BackendSock? && s.conn == c.id && c.attempts <= s.attempt <= d.attempts
                && (if d.state == Done then d.backendSock == None else Opened(d) && s.attempt < d.attempts))
    decreases MAX_BACKEND_RETRIES + 1 - c.attempts, 0
  {
    hide ErrorPage, IsIdempotent;
    var d := Abandon(c);
    var reply := Reply(replies, d.tried);
    if CanRetry(d) && reply.Some? {
      var e := Retarget(d, reply.value);
      assert e.pendingUnregister == c.backendSock && e.attempts == c.attempts + 1 && e.id == c.id;
      hide Initiate, Retarget, Abandon;
      InitiateSockets(e, reply.value, net, Later(replies));
    }
  }

  lemma {:induction false} StepSockets(c: Conn, ev: Event, net: Net, replies: Replies)
    requires Inv(c) && c.pendingUnregister == None
    ensures SocketsMove(c, Step(c, ev, net, replies))
  {
    StepCounts(c, ev, net, replies);
    EngagedSock(c);
    hide Inv, ClientReadable, BackendReadable, BackendWritable;
    match ev
    case OnClientReadable(recv) => ClientReadableSockets(c, recv, net, replies);
    case OnClientWritable(sent) => ClientWritableSockets(c, sent, net);
    case OnBackendReadable(recv) => BackendReadableSockets(c, recv, net, replies);
    case OnBackendWritable(ok, sent) => BackendWritableSockets(c, ok, sent, net, replies);
    case OnTimeout => TimedOutSockets(c, net);
  }

  lemma EngagedSock(c: Conn)
    requires Inv(c)
    ensures c.state != ReadingRequest && c.state != Done ==> c.backendSock == Some(BackendSock(c.id, c.attempts))
    ensures c.state == ReadingRequest ==> c.attempts == 0 && c.backendSock == None
  {
    hide SentPrefixes, DistinctBackends, Backends, IsIdempotent;
  }

  lemma ClientReadableSockets(c: Conn, recv: Io<string>, net: Net, replies: Replies)
    requires Inv(c) && c.pendingUnregister == None
    ensures SocketsMove(c, ClientReadable(c, recv, net, replies))
  {
    EngagedSock(c);
    hide Inv, SendError, Dispatch, Http.ParseRequest, SocketsMove, Refresh;
    StaysPut(c);
    if c.state == ReadingRequest {
      EndSockets(c);
      if recv.Ok? && recv.value != "" {
        var e := c.(requestBuf := c.requestBuf + recv.value);
        RefreshSockets(e, net.now);
        var d := Refresh(e, net.now);
        SendErrorSockets(d, 413, "Request Entity Too Large", net);
        ReadsOnSockets(c, d);
        if Http.ParseRequest(d.requestBuf).Some? {
          DispatchSockets(d, Http.ParseRequest(d.requestBuf).value, net, replies);
        }
        SameSocketsMove(c, d, ClientReadable(c, recv, net, replies));
      }
    }
  }

  lemma StaysPut(c: Conn)
    requires c.pendingUnregister == None
    ensures SocketsMove(c, c)
  {
  }

  lemma EndSockets(c: Conn)
    requires c.pendingUnregister == None
    ensures SocketsMove(c, SetState(c, Done))
  {
  }

  lemma SendErrorSockets(c: Conn, code: nat, reason: string, net: Net)
    requires c.pendingUnregister == None
    ensures SocketsMove(c, SendError(c, code, reason, net))
  {
    hide ErrorPage;
  }

  lemma ReadsOnSockets(c: Conn, d: Conn)
    requires SameSockets(c, d) && c.pendingUnregister == None && d.state == c.state
    ensures SocketsMove(d, d)
  {
  }

  /** A move from an indistinguishable start is a move. */
  lemma SameSocketsMove(c: Conn, d: Conn, e: Conn)
    requires SameSockets(c, d) && d.state == c.state && SocketsMove(d, e)
    ensures SocketsMove(c, e)
  {
  }

  lemma DispatchSockets(c: Conn, req: Http.Request, net: Net, replies: Replies)
    requires c.state == ReadingRequest && c.attempts == 0 && c.backendSock == None && c.pendingUnregister == None
    ensures SocketsMove(c, Dispatch(c, req, net, replies))
  {
    hide Http.Serialise, Http.Inject, ErrorPage, Initiate;
    var injected := Http.Inject(req, c.clientIp);
    var d := c.(parsed := Some(injected), forwardBuf := Http.Serialise(injected), forwardOffset := 0);
    if Reply(replies, {}).Some? {
      var b := Reply(replies, {}).value;
      var e := d.(backendAddr := Some(b), attempts := 1, notified := false);
      InitiateSockets(e, b, net, Later(replies));
    }
  }

  lemma ClientWritableSockets(c: Conn, sent: Io<nat>, net: Net)
    requires c.pendingUnregister == None
    ensures SocketsMove(c, ClientWritable(c, sent, net))
  {
    hide Relayed;
    if c.state == ForwardingResponse && sent.Ok? {
      var rest := if c.relayOffset < |c.relayBuf| then c.relayBuf[c.relayOffset..] else "";
      var n := Min(sent.value, |rest|);
      RelayedSockets(c, n, rest[..n], net.now);
    }
  }

  lemma RelayedSockets(c: Conn, n: nat, part: string, now: int)
    requires c.pendingUnregister == None
    ensures SocketsMove(c, Relayed(c, n, part, now))
  {
    hide Refresh, SocketsMove, Finish;
    var s := c.(clientBytesSent := true);
    RefreshSockets(s, now);
    var d := if n > 0 then Refresh(s, now) else c;
    var e := d.(relayOffset := d.relayOffset + n, clientOut := d.clientOut + part);
    assert SameSockets(c, d) && SameSockets(c, e) && e.state == c.state;
    FinishSockets(e);
    ReadsOnSockets(c, e);
    SameSocketsMove(c, e, Relayed(c, n, part, now));
  }

  lemma FinishSockets(c: Conn)
    requires c.pendingUnregister == None
    ensures SocketsMove(c, Finish(c))
  {
  }

  lemma BackendReadableSockets(c: Conn, recv: Io<string>, net: Net, replies: Replies)
    requires Inv(c) && c.pendingUnregister == None
    ensures SocketsMove(c, BackendReadable(c, recv, net, replies))
  {
    EngagedSock(c);
    hide Inv, FailBackend, ResponseReceived, PrepareRelay, ChunkedLength, BodyOf, SocketsMove;
    StaysPut(c);
    if c.state == ReadingResponse {
      FailureMoves(c, net, replies);
      PrepareRelaySockets(c, net.now);
      ResponseMove(c, PrepareRelay(c, net.now));
      if recv.Ok? {
        ReceivedSockets(c, recv.value, net.now);
        ResponseMove(c, ResponseReceived(c, recv.value, net.now));
      }
    }
  }

  lemma ResponseMove(c: Conn, d: Conn)
    requires SameSockets(c, d) && c.state == ReadingResponse && c.pendingUnregister == None
    requires d.state == ReadingResponse || d.state == ForwardingResponse
    ensures SocketsMove(c, d)
  {
  }

  lemma PrepareRelaySockets(c: Conn, now: int)
    ensures var d := PrepareRelay(c, now);
            d == c.(relayBuf := d.relayBuf, relayOffset := d.relayOffset, state := ForwardingResponse,
                    changes := d.changes, deadline := d.deadline, deadlineGen := d.deadlineGen)
  {
  }

  /** Receiving bytes leaves the sockets alone. */
  ghost predicate SameSockets(c: Conn, d: Conn) {
    && d.id == c.id && d.attempts == c.attempts && d.backendSock == c.backendSock
    && d.pendingUnregister == c.pendingUnregister
  }

  lemma ReceivedSockets(c: Conn, data: string, now: int)
    requires c.state == ReadingResponse
    ensures var d := ResponseReceived(c, data, now);
            SameSockets(c, d) && (d.state == ReadingResponse || d.state == ForwardingResponse)
  {
    hide CheckComplete, NoteHeaders, Refresh, RecordReceived;
    var r := RecordReceived(c, data).(responseBuf := c.responseBuf + data);
    assert SameSockets(c, r) && r.state == c.state by { RecordReceivedSockets(c, data); }
    var d := Refresh(r, now);
    assert SameSockets(r, d) && d.state == r.state by { RefreshSockets(r, now); }
    NoteHeadersSockets(d);
    CheckCompleteSockets(NoteHeaders(d), now);
  }

  lemma RecordReceivedSockets(c: Conn, data: string)
    ensures SameSockets(c, RecordReceived(c, data)) && RecordReceived(c, data).state == c.state
  {
  }

  lemma RefreshSockets(c: Conn, now: int)
    ensures SameSockets(c, Refresh(c, now)) && Refresh(c, now).state == c.state
  {
  }

  lemma NoteHeadersSockets(c: Conn)
    ensures SameSockets(c, NoteHeaders(c)) && NoteHeaders(c).state == c.state
  {
    hide Bytes.Find, Http.IsChunked, Http.ResponseContentLength;
  }

  lemma CheckCompleteSockets(c: Conn, now: int)
    ensures var d := CheckComplete(c, now);
            SameSockets(c, d) && (d.state == c.state || d.state == ForwardingResponse)
  {
    hide ChunkedLength, BodyOf, Bytes.PySlice;
  }

  lemma BackendWritableSockets(c: Conn, ok: bool, sent: Io<nat>, net: Net, replies: Replies)
    requires Inv(c) && c.pendingUnregister == None
    ensures SocketsMove(c, BackendWritable(c, ok, sent, net, replies))
  {
    hide Inv, FailBackend, RequestSent, Enter, SocketsMove;
    EngagedSock(c);
    StaysPut(c);
    if c.state == ConnectingToBackend && !ok {
      FailureMoves(c, net, replies);
    } else if c.state == ConnectingToBackend {
      var d := Enter(c, ForwardingRequest, net.now);
      EnterSockets(c, ForwardingRequest, net.now);
      SendSockets(d, sent, net, replies);
      ConnectedMove(c, d, BackendWritable(c, ok, sent, net, replies));
    } else if c.state == ForwardingRequest {
      SendSockets(c, sent, net, replies);
    }
  }

  lemma FailureMoves(c: Conn, net: Net, replies: Replies)
    requires c.backendSock == Some(BackendSock(c.id, c.attempts)) && OnBackend(c.state)
    ensures SocketsMove(c, FailBackend(c, net, replies))
  {
    hide FailBackend;
    FailBackendSockets(c, net, replies);
  }

  lemma SendSockets(c: Conn, sent: Io<nat>, net: Net, replies: Replies)
    requires c.backendSock == Some(BackendSock(c.id, c.attempts)) && c.state == ForwardingRequest
    requires c.pendingUnregister == None
    ensures SocketsMove(c, BackendWritable(c, true, sent, net, replies))
  {
    hide FailBackend, RequestSent, SocketsMove;
    StaysPut(c);
    FailureMoves(c, net, replies);
    if sent.Ok? {
      var rest := if c.forwardOffset < |c.forwardBuf| then |c.forwardBuf| - c.forwardOffset else 0;
      var n := Min(sent.value, rest);
      RequestSentSockets(c, n, net.now);
      SentMove(c, RequestSent(c, n, net.now));
    }
  }

  lemma SentMove(c: Conn, d: Conn)
    requires SameSockets(c, d) && c.state == ForwardingRequest && c.pendingUnregister == None
    requires d.state == c.state || d.state == ReadingResponse
    ensures SocketsMove(c, d)
  {
  }

  /** A completed connect in front of a move. */
  lemma ConnectedMove(c: Conn, d: Conn, e: Conn)
    requires SameSockets(c, d) && c.state == ConnectingToBackend && d.state == ForwardingRequest
    requires SocketsMove(d, e)
    ensures SocketsMove(c, e)
  {
  }

  lemma EnterSockets(c: Conn, s: State, now: int)
    ensures SameSockets(c, Enter(c, s, now)) && Enter(c, s, now).state == s
  {
  }

  lemma RequestSentSockets(c: Conn, n: nat, now: int)
    ensures var d := RequestSent(c, n, now);
            SameSockets(c, d) && (d.state == c.state || d.state == ReadingResponse)
  {
    hide RecordSent, Enter, Refresh;
    RefreshSockets(c, now);
    var d := if n > 0 then Refresh(c, now) else c;
    assert SameSockets(d, RecordSent(d, n)) && RecordSent(d, n).state == d.state by { RecordSentSockets(d, n); }
    EnterSockets(RecordSent(d, n).(forwardOffset := c.forwardOffset + n), ReadingResponse, now);
  }

  lemma RecordSentSockets(c: Conn, n: nat)
    ensures SameSockets(c, RecordSent(c, n)) && RecordSent(c, n).state == c.state
  {
  }

  lemma TimedOutSockets(c: Conn, net: Net)
    requires c.pendingUnregister == None
    ensures SocketsMove(c, TimedOut(c, net))
  {
    hide ErrorPage;
  }

  // ---------- Interest follows the state ----------

  lemma FailureFollows(c: Conn, d: Conn, m: Registrations)
    requires SocketsMove(c, d) && InterestOk(c, m) && d.pendingUnregister.Some?
    ensures InterestOk(Settled(d), Transitioned(m, d, c.state))
    ensures SameElsewhere(m, Transitioned(m, d, c.state), c.id)
  {
    var n := Transitioned(m, d, c.state);
    if d.state != Done {
      assert Has(m, ClientSock(c.id), Read);
      assert n == (m - {d.pendingUnregister.value})[d.backendSock.value := Write];
    } else {
      assert n == m - {d.pendingUnregister.value};
    }
  }

  lemma ProgressFollows(c: Conn, d: Conn, m: Registrations)
    requires SocketsMove(c, d) && InterestOk(c, m) && d.pendingUnregister == None
    requires c.state == ForwardingResponse || OnBackend(c.state)
             ==> c.backendSock == Some(BackendSock(c.id, c.attempts))
    ensures InterestOk(Settled(d), Transitioned(m, d, c.state))
    ensures SameElsewhere(m, Transitioned(m, d, c.state), c.id)
  {
    var n := Transitioned(m, d, c.state);
    if d.state == Done || d.state == c.state {
      assert n == m;
    } else if c.state == ReadingRequest {
      assert Opened(d) && Has(m, ClientSock(c.id), Read);
      assert n == m[d.backendSock.value := Write];
    } else if d.state == ForwardingResponse {
      assert n == m[ClientSock(c.id) := Write] - {d.backendSock.value};
    } else {
      assert Has(m, ClientSock(c.id), Read);
      assert n == m[d.backendSock.value := if d.state == ReadingResponse then Read else Write];
    }
  }

  /** Whatever a handler call did, retries in the same state included, the reactor's updates make
      the registrations match the new state, and touch no other connection's sockets. */
  lemma InterestFollows(c: Conn, d: Conn, m: Registrations)
    requires SocketsMove(c, d) && InterestOk(c, m)
    requires c.state == ForwardingResponse || OnBackend(c.state)
             ==> c.backendSock == Some(BackendSock(c.id, c.attempts))
    ensures InterestOk(Settled(d), Transitioned(m, d, c.state))
    ensures SameElsewhere(m, Transitioned(m, d, c.state), c.id)
  {
    if d.pendingUnregister.Some? {
      FailureFollows(c, d, m);
    } else {
      ProgressFollows(c, d, m);
    }
  }

  /** One handler call and the reactor's updates keep the selector's interest matched. */
  lemma {:induction false} StepKeepsInterest(c: Conn, ev: Event, net: Net, replies: Replies, m: Registrations)
    requires Inv(c) && InterestOk(c, m)
    ensures var d := Step(c, ev, net, replies);
            && InterestOk(Settled(d), Transitioned(m, d, c.state))
            && SameElsewhere(m, Transitioned(m, d, c.state), c.id)
  {
    StepSockets(c, ev, net, replies);
    EngagedSock(c);
    hide Inv, Step, SocketsMove, InterestOk, Transitioned, SameElsewhere;
    InterestFollows(c, Step(c, ev, net, replies), m);
  }

  // ---------- Registrations left behind ----------

  /** Of this connection's backend sockets, only the current one may be registered. */
  ghost predicate NoneStale(c: Conn, m: Registrations) {
    forall k: nat :: BackendSock(c.id, k) in m ==> c.backendSock == Some(BackendSock(c.id, k))
  }

  /** The handler call for `ev` finds that the backend failed. */
  ghost predicate BackendFails(c: Conn, ev: Event) {
    match ev
    case OnBackendWritable(ok, sent) =>
      || (c.state == ConnectingToBackend && (!ok || sent == Failed))
      || (c.state == ForwardingRequest && sent == Failed)
    case OnBackendReadable(recv) =>
      && c.state == ReadingResponse
      && (recv == Failed
          || (recv == Ok("") && c.isChunked && c.headersDone && ChunkedLength(BodyOf(c.responseBuf)).None?))
    case _ => false
  }

  /** A failure of the current backend leads to a retry, whose connect is refused at once. */
  predicate RetryRefused(c: Conn, net: Net, replies: Replies) {
    && CanRetry(c) && c.backendAddr.Some?
    && Reply(replies, c.tried + {c.backendAddr.value}).Some?
    && net.connect(c.attempts + 1).Refused?
  }

  /** The reactor leaves a dead backend socket registered exactly when a backend fails and the
      retry's connect is refused within the same handler call. */
  lemma StaleIffSecondFailure(c: Conn, ev: Event, net: Net, replies: Replies, m: Registrations)
    requires Inv(c) && InterestOk(c, m) && NoneStale(c, m)
    ensures var d := Step(c, ev, net, replies);
            NoneStale(Settled(d), Transitioned(m, d, c.state))
            <==> !(BackendFails(c, ev) && RetryRefused(c, net, replies))
  {
    StepSockets(c, ev, net, replies);
    EngagedSock(c);
    SecondFailureIff(c, ev, net, replies, m);
    hide Inv, Step, RetryRefused, BackendFails;
    StaleAfter(c, Step(c, ev, net, replies), m);
  }

  /** A registered backend failed, and so did its replacement: the single slot for a socket to
      unregister then names the replacement. */
  predicate SecondFailure(c: Conn, d: Conn, m: Registrations) {
    && c.backendSock.Some? && c.backendSock.value in m
    && d.pendingUnregister.Some? && d.pendingUnregister != c.backendSock
  }

  lemma SecondFailureIff(c: Conn, ev: Event, net: Net, replies: Replies, m: Registrations)
    requires Inv(c) && InterestOk(c, m)
    ensures SecondFailure(c, Step(c, ev, net, replies), m) <==> BackendFails(c, ev) && RetryRefused(c, net, replies)
  {
    EngagedSock(c);
    EngagedRegistered(c, m);
    hide Inv, InterestOk, RetryRefused, BackendFails, Step;
    if BackendFails(c, ev) {
      FailingStep(c, ev, net, replies);
    } else {
      SmoothStep(c, ev, net, replies);
    }
  }

  lemma FailingStep(c: Conn, ev: Event, net: Net, replies: Replies)
    requires BackendFails(c, ev) && c.backendAddr.Some? && c.backendSock == Some(BackendSock(c.id, c.attempts))
    ensures var d := Step(c, ev, net, replies);
            d.pendingUnregister.Some? && (d.pendingUnregister != c.backendSock <==> RetryRefused(c, net, replies))
    ensures OnBackend(c.state)
  {
    hide FailBackend, Enter, RequestSent, ResponseReceived, PrepareRelay, ChunkedLength, BodyOf, RetryRefused;
    var d := Enter(c, ForwardingRequest, net.now);
    EnterSockets(c, ForwardingRequest, net.now);
    EnterKeepsRetry(c, ForwardingRequest, net, replies);
    FailurePending(c, net, replies);
    FailurePending(d, net, replies);
  }

  lemma EnterKeepsRetry(c: Conn, s: State, net: Net, replies: Replies)
    ensures var d := Enter(c, s, net.now);
            d.backendAddr == c.backendAddr && (RetryRefused(d, net, replies) <==> RetryRefused(c, net, replies))
  {
    hide IsIdempotent;
  }

  lemma FailurePending(c: Conn, net: Net, replies: Replies)
    requires c.backendAddr.Some? && c.backendSock == Some(BackendSock(c.id, c.attempts))
    ensures var d := FailBackend(c, net, replies);
            d.pendingUnregister.Some? && (d.pendingUnregister != c.backendSock <==> RetryRefused(c, net, replies))
  {
    hide ErrorPage, IsIdempotent, OpenSocket, Enter;
    var d := Abandon(c);
    var reply := Reply(replies, d.tried);
    if CanRetry(d) && reply.Some? {
      var e := Retarget(d, reply.value);
      assert e.pendingUnregister == c.backendSock && e.attempts == c.attempts + 1 && e.id == c.id;
      var o := OpenSocket(e, reply.value, net.now);
      OpenSocketOpens(e, reply.value, net.now);
      EnterSockets(o, ForwardingRequest, net.now);
      if net.connect(e.attempts).Refused? {
        hide FailBackend, Retarget, Abandon;
        FailBackendSockets(o, net, Later(replies));
      }
    }
  }

  /** Where no backend fails, no socket becomes one to unregister. */
  lemma SmoothStep(c: Conn, ev: Event, net: Net, replies: Replies)
    requires !BackendFails(c, ev)
    ensures c.state == ReadingRequest || Step(c, ev, net, replies).pendingUnregister == c.pendingUnregister
  {
    hide FailBackend, Dispatch, Relayed, ResponseReceived, RequestSent, Enter, PrepareRelay, ChunkedLength, BodyOf,
      Http.ParseRequest, ErrorPage, Refresh;
    PrepareRelaySockets(c, net.now);
    match ev
    case OnBackendReadable(recv) =>
      if c.state == ReadingResponse && recv.Ok? {
        ReceivedSockets(c, recv.value, net.now);
      }
    case OnBackendWritable(ok, sent) =>
      EnterSockets(c, ForwardingRequest, net.now);
      var d := if c.state == ConnectingToBackend then Enter(c, ForwardingRequest, net.now) else c;
      if d.state == ForwardingRequest && sent.Ok? {
        var rest := if d.forwardOffset < |d.forwardBuf| then |d.forwardBuf| - d.forwardOffset else 0;
        RequestSentSockets(d, Min(sent.value, rest), net.now);
      }
    case OnClientWritable(sent) =>
      if c.state == ForwardingResponse && sent.Ok? {
        var rest := if c.relayOffset < |c.relayBuf| then c.relayBuf[c.relayOffset..] else "";
        var n := Min(sent.value, |rest|);
        RelayedPending(c, n, rest[..n], net.now);
      }
    case _ =>
  }

  lemma RelayedPending(c: Conn, n: nat, part: string, now: int)
    ensures Relayed(c, n, part, now).pendingUnregister == c.pendingUnregister
  {
    hide Refresh;
    RefreshSockets(c.(clientBytesSent := true), now);
  }

  /** A backend in use is registered and known. */
  lemma EngagedRegistered(c: Conn, m: Registrations)
    requires Inv(c) && InterestOk(c, m)
    ensures OnBackend(c.state) ==> c.backendAddr.Some? && c.backendSock.Some? && c.backendSock.value in m
    ensures c.pendingUnregister == None
  {
    hide Attempts;
  }
  lemma StaleAfter(c: Conn, d: Conn, m: Registrations)
    requires SocketsMove(c, d) && InterestOk(c, m) && NoneStale(c, m)
    requires c.state == ForwardingResponse || OnBackend(c.state)
             ==> c.backendSock == Some(BackendSock(c.id, c.attempts))
    requires c.state == ReadingRequest ==> c.backendSock == None
    ensures NoneStale(Settled(d), Transitioned(m, d, c.state)) <==> !SecondFailure(c, d, m)
  {
    hide SocketsMove, InterestOk, NoneStale, Transitioned, Settled;
    if SecondFailure(c, d, m) {
      FirstStays(c, d, m);
    } else if d.pendingUnregister.Some? {
      FirstGoes(c, d, m);
    } else {
      NothingPending(c, d, m);
    }
  }

  /** The registrations after a failure. */
  lemma FailureLeaves(c: Conn, d: Conn, m: Registrations)
    requires SocketsMove(c, d) && d.pendingUnregister.Some?
    ensures Transitioned(m, d, c.state)
         == if d.state == Done then m - {d.pendingUnregister.value}
            else (m - {d.pendingUnregister.value})[d.backendSock.value := Write]
    ensures d.state != Done ==> Opened(d)
  {
  }

  lemma FirstStays(c: Conn, d: Conn, m: Registrations)
    requires SocketsMove(c, d) && SecondFailure(c, d, m)
    requires c.state == ForwardingResponse || OnBackend(c.state)
             ==> c.backendSock == Some(BackendSock(c.id, c.attempts))
    requires c.state == ReadingRequest ==> c.backendSock == None
    ensures !NoneStale(Settled(d), Transitioned(m, d, c.state))
  {
    FailureLeaves(c, d, m);
    var n := Transitioned(m, d, c.state);
    hide Transitioned;
    assert BackendSock(c.id, c.attempts) in n;
    assert d.backendSock != Some(BackendSock(c.id, c.attempts));
  }

  lemma FirstGoes(c: Conn, d: Conn, m: Registrations)
    requires SocketsMove(c, d) && NoneStale(c, m) && d.pendingUnregister.Some? && !SecondFailure(c, d, m)
    ensures NoneStale(Settled(d), Transitioned(m, d, c.state))
  {
    FailureLeaves(c, d, m);
    var n := Transitioned(m, d, c.state);
    hide Transitioned;
    forall k: nat | BackendSock(c.id, k) in n ensures d.backendSock == Some(BackendSock(c.id, k)) {
      assert BackendSock(c.id, k) in m ==> c.backendSock == Some(BackendSock(c.id, k));
    }
  }

  lemma NothingPending(c: Conn, d: Conn, m: Registrations)
    requires SocketsMove(c, d) && InterestOk(c, m) && NoneStale(c, m) && d.pendingUnregister == None
    requires c.state == ReadingRequest ==> c.backendSock == None
    ensures NoneStale(Settled(d), Transitioned(m, d, c.state))
  {
  }
}
