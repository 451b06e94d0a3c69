/** ProxyConnection of connection.py: the mutable object, its handlers proved against Protocol,
    and its acquire/release accounting against the least-connections router. */
module Connection {
  import opened Wrappers
  import opened Bytes
  import opened Http
  import opened Pools
  import opened Protocol
  import opened ProtocolInvariant
  import opened LeastConnections
  import Handlers
  import opened Fragmentation
  import opened EndToEnd
  import Selector
  import Loops
  import Chunked

  // ---------- Accounting ----------

  function Slots(c: Conn, b: Backend): int {
    if Holds(c, b) then 1 else 0
  }

  /** The router's counts move exactly with the slots this connection holds. */
  ghost predicate Moves(p: Pool, c: Conn, q: Pool, d: Conn) {
    forall b :: Load(q, b) - Slots(d, b) == Load(p, b) - Slots(c, b)
  }

  /** The slot that this connection holds is counted. */
  ghost predicate Covered(p: Pool, c: Conn) {
    forall b :: Slots(c, b) <= Load(p, b)
  }

  lemma MovesTrans(p: Pool, c: Conn, q: Pool, d: Conn, r: Pool, e: Conn)
    requires Moves(p, c, q, d) && Moves(q, d, r, e)
    ensures Moves(p, c, r, e)
  {
    forall b ensures Load(r, b) - Slots(e, b) == Load(p, b) - Slots(c, b) {
      assert Load(q, b) - Slots(d, b) == Load(p, b) - Slots(c, b);
    }
  }

  lemma MovesKeepsCovered(p: Pool, c: Conn, q: Pool, d: Conn)
    requires Moves(p, c, q, d) && Covered(p, c)
    ensures Covered(q, d)
  {
    forall b ensures Slots(d, b) <= Load(q, b) {
      assert Slots(c, b) <= Load(p, b);
    }
  }

  /** Marks by the health checker move nothing; neither do changes of other fields. */
  lemma NothingMoves(p: Pool, c: Conn, q: Pool, d: Conn)
    requires forall b :: Load(q, b) == Load(p, b)
    requires c.backendAddr == d.backendAddr && c.notified == d.notified
    ensures Moves(p, c, q, d)
  {
  }

  lemma ReleaseMoves(p: Pool, c: Conn, b: Backend)
    requires c.backendAddr == Some(b) && !c.notified && Covered(p, c)
    ensures Moves(p, c, Released(p, b), Notify(c)) && Covered(Released(p, b), Notify(c))
  {
    assert Slots(c, b) <= Load(p, b);
    forall a ensures Load(Released(p, b), a) == Load(p, a) - Slots(c, a) {
    }
  }

  /** Acquiring a backend for a connection that held none. */
  lemma AcquireMoves(p: Pool, c: Conn, b: Backend, d: Conn)
    requires (c.backendAddr == None || c.notified) && d.backendAddr == Some(b) && !d.notified
    requires Covered(p, c)
    ensures Moves(p, c, Acquired(p, b), d) && Covered(Acquired(p, b), d)
  {
    forall a ensures Load(Acquired(p, b), a) == Load(p, a) + Slots(d, a) && Load(p, a) >= 0 {
      assert Slots(c, a) <= Load(p, a);
    }
  }

  // ---------- Asking the router ----------

  /** `b` is healthy and not to be skipped, and no such backend serves fewer other connections. */
  ghost predicate Picked(p: Pool, c: Conn, h: set<Backend>, skip: set<Backend>, b: Backend) {
    && b in h && b !in skip
    && forall x :: x in h && x !in skip ==> Load(p, b) - Slots(c, b) <= Load(p, x) - Slots(c, x)
  }

  lemma PickedMoves(p: Pool, c: Conn, q: Pool, d: Conn, h: set<Backend>, skip: set<Backend>, b: Backend)
    requires Moves(p, c, q, d)
    ensures Picked(p, c, h, skip, b) <==> Picked(q, d, h, skip, b)
  {
    hide Load, Slots;
    assert forall x :: Load(q, x) - Slots(d, x) == Load(p, x) - Slots(c, x);
  }

  /** Who is healthy when the router is asked after `k` more failures, the first of attempt `a`. */
  function StandingAt(h: set<Backend>, sweeps: nat -> seq<Mark>, a: nat, k: nat): set<Backend>
    decreases k
  {
    var now := Standing(Standing(h, sweeps(3 * a)), sweeps(3 * a + 1));
    if k == 0 then now else StandingAt(now, sweeps, a + 1, k - 1)
  }

  /** The backends tried before session `j`. */
  function SkipAt(c: Conn, ss: seq<Session>, j: nat): set<Backend>
    requires |c.sessions| <= j <= |ss|
  {
    c.tried + (if c.backendAddr.Some? then {c.backendAddr.value} else {}) + Backends(ss[|c.sessions|..j])
  }

  /** From a failed backend of `c` to `d`: every backend opened is a least loaded one of those healthy
      then and not yet tried; and an error page comes only where the method may not be repeated,
      after three attempts, or when no healthy backend is left untried. */
  ghost predicate Asked(c: Conn, d: Conn, p: Pool, h: set<Backend>, sweeps: nat -> seq<Mark>) {
    && |c.sessions| <= |d.sessions|
    && (forall j :: |c.sessions| <= j < |d.sessions| ==>
          Picked(p, c, StandingAt(h, sweeps, c.attempts, j - |c.sessions|), SkipAt(c, d.sessions, j), d.sessions[j].backend))
    && (c.page == None && d.page.Some? && c.parsed.Some? && Handlers.MayRepeat(c.parsed.value.verb)
        && !c.clientBytesSent && c.attempts + (|d.sessions| - |c.sessions|) < 3 ==>
          StandingAt(h, sweeps, c.attempts, |d.sessions| - |c.sessions|) <= SkipAt(c, d.sessions, |d.sessions|))
  }

  /** What opening another backend leaves of the connection, as far as asking goes. */
  ghost predicate Reopened(c: Conn, o: Conn, b: Backend) {
    && o.sessions == c.sessions + [Session(b, "", "")] && o.attempts == c.attempts + 1
    && o.tried == c.tried + (if c.backendAddr.Some? then {c.backendAddr.value} else {})
    && o.backendAddr == Some(b) && o.parsed == c.parsed && o.clientBytesSent == c.clientBytesSent && o.page == c.page
  }

  lemma ReopenedIs(c: Conn, b: Backend, now: int)
    ensures Reopened(c, OpenSocket(Retarget(Abandon(c), b), b, now), b)
  {
  }

  lemma SkipMore(c: Conn, o: Conn, b: Backend, ss: seq<Session>, j: nat)
    requires Reopened(c, o, b) && |o.sessions| <= j <= |ss| && ss[..|o.sessions|] == o.sessions
    ensures SkipAt(c, ss, j) == SkipAt(o, ss, j)
  {
    var n := |c.sessions|;
    assert ss[n] == ss[..n + 1][n] == Session(b, "", "");
    assert ss[n..j] == [ss[n]] + ss[n + 1..j];
    BackendsCons(ss[n], ss[n + 1..j]);
  }

  lemma BackendsCons(s: Session, ss: seq<Session>)
    ensures Backends([s] + ss) == {s.backend} + Backends(ss)
  {
    var all := [s] + ss;
    forall b | b in {s.backend} + Backends(ss) ensures b in Backends(all) {
      if b != s.backend {
        var i :| 0 <= i < |ss| && ss[i].backend == b;
        assert all[i + 1].backend == b;
      } else {
        assert all[0].backend == b;
      }
    }
  }

  lemma SkipFirst(c: Conn, ss: seq<Session>)
    requires |c.sessions| <= |ss|
    ensures SkipAt(c, ss, |c.sessions|) == c.tried + (if c.backendAddr.Some? then {c.backendAddr.value} else {})
  {
    assert ss[|c.sessions|..|c.sessions|] == [];
  }

  /** One more backend in front of what was asked later. */
  lemma AskedMore(c: Conn, o: Conn, d: Conn, b: Backend, p: Pool, r: Pool, h: set<Backend>, sweeps: nat -> seq<Mark>)
    requires Reopened(c, o, b) && Moves(p, c, r, o)
    requires Picked(p, c, StandingAt(h, sweeps, c.attempts, 0),
                    c.tried + (if c.backendAddr.Some? then {c.backendAddr.value} else {}), b)
    requires Asked(o, d, r, StandingAt(h, sweeps, c.attempts, 0), sweeps)
    requires |o.sessions| <= |d.sessions| && d.sessions[..|o.sessions|] == o.sessions
    ensures Asked(c, d, p, h, sweeps)
  {
    hide Picked, Moves, SkipAt, Handlers.MayRepeat;
    var n := |c.sessions|;
    SkipFirst(c, d.sessions);
    assert d.sessions[n] == d.sessions[..n + 1][n];
    forall j | n <= j < |d.sessions|
      ensures Picked(p, c, StandingAt(h, sweeps, c.attempts, j - n), SkipAt(c, d.sessions, j), d.sessions[j].backend)
    {
      if j > n {
        SkipMore(c, o, b, d.sessions, j);
        var at := StandingAt(StandingAt(h, sweeps, c.attempts, 0), sweeps, o.attempts, j - |o.sessions|);
        assert at == StandingAt(h, sweeps, c.attempts, j - n);
        PickedMoves(p, c, r, o, at, SkipAt(c, d.sessions, j), d.sessions[j].backend);
      }
    }
    SkipMore(c, o, b, d.sessions, |d.sessions|);
  }

  /** No backend opened, and an error page for a reason. */
  lemma AskedNone(c: Conn, d: Conn, p: Pool, h: set<Backend>, sweeps: nat -> seq<Mark>)
    requires d.sessions == c.sessions
    requires CanRetry(Abandon(c)) ==> StandingAt(h, sweeps, c.attempts, 0) <= Abandon(c).tried
    ensures Asked(c, d, p, h, sweeps)
  {
    SkipFirst(c, d.sessions);
    CanRetryMeans(c);
    assert Abandon(c).tried == c.tried + (if c.backendAddr.Some? then {c.backendAddr.value} else {});
    hide CanRetry, SkipAt, Handlers.MayRepeat, Picked, Abandon, StandingAt;
  }

  lemma CanRetryMeans(c: Conn)
    ensures CanRetry(Abandon(c))
       <==> !c.clientBytesSent && c.parsed.Some? && Handlers.MayRepeat(c.parsed.value.verb) && c.attempts < 3
  {
    if c.parsed.Some? {
      Handlers.MayRepeatIff(c.parsed.value);
    }
    hide Handlers.MayRepeat, IsIdempotent;
  }

  /** Opened, and no error page. */
  lemma AskedNothing(c: Conn, d: Conn, p: Pool, h: set<Backend>, sweeps: nat -> seq<Mark>)
    requires d.sessions == c.sessions && d.page == c.page
    ensures Asked(c, d, p, h, sweeps)
  {
  }

  lemma AskedSame(c: Conn, e: Conn, d: Conn, p: Pool, h: set<Backend>, sweeps: nat -> seq<Mark>)
    requires Asked(e, d, p, h, sweeps)
    requires e.sessions == c.sessions && e.attempts == c.attempts && e.tried == c.tried && e.page == c.page
    requires e.backendAddr == c.backendAddr && e.notified == c.notified && e.parsed == c.parsed
    requires e.clientBytesSent == c.clientBytesSent
    ensures Asked(c, d, p, h, sweeps)
  {
    hide StandingAt, Handlers.MayRepeat, Backends;
    forall j | |c.sessions| <= j < |d.sessions|
      ensures Picked(p, c, StandingAt(h, sweeps, c.attempts, j - |c.sessions|), SkipAt(c, d.sessions, j), d.sessions[j].backend)
    {
      assert Picked(p, e, StandingAt(h, sweeps, e.attempts, j - |e.sessions|), SkipAt(e, d.sessions, j), d.sessions[j].backend);
    }
  }

  /** From the first request to `d`: without any backend opened an error page comes only when none is
      healthy; the first one opened, and each later one, is a least loaded one of those healthy then
      and not yet tried; and later error pages are as above. */
  ghost predicate FirstAsked(c: Conn, d: Conn, p: Pool, h: set<Backend>, sweeps: nat -> seq<Mark>) {
    && (d.sessions == [] && d.page.Some? ==> h == {})
    && (d.sessions != [] ==> Picked(p, c, h, {}, d.sessions[0].backend))
    && (forall j :: 1 <= j < |d.sessions| ==>
          Picked(p, c, StandingAt(h, sweeps, 1, j - 1), Backends(d.sessions[..j]), d.sessions[j].backend))
    && (d.sessions != [] && d.page.Some? && d.parsed.Some? && Handlers.MayRepeat(d.parsed.value.verb) && |d.sessions| < 3 ==>
          StandingAt(h, sweeps, 1, |d.sessions| - 1) <= Backends(d.sessions))
  }

  /** The first backend in front of what was asked later. */
  lemma AskedFirst(c: Conn, o: Conn, d: Conn, b: Backend, p: Pool, r: Pool, h: set<Backend>, sweeps: nat -> seq<Mark>)
    requires o.sessions == [Session(b, "", "")] && o.attempts == 1 && o.tried == {} && o.backendAddr == Some(b)
    requires o.page == None && !o.clientBytesSent && o.parsed == d.parsed
    requires Moves(p, c, r, o) && Picked(p, c, h, {}, b) && Asked(o, d, r, h, sweeps)
    requires 1 <= |d.sessions| && d.sessions[..1] == o.sessions
    ensures FirstAsked(c, d, p, h, sweeps)
  {
    hide Picked, Moves, StandingAt, Handlers.MayRepeat;
    assert d.sessions[0] == d.sessions[..1][0];
    forall j: nat | 1 <= j <= |d.sessions| ensures SkipAt(o, d.sessions, j) == Backends(d.sessions[..j]) {
      assert d.sessions[..j] == [d.sessions[0]] + d.sessions[1..j];
      BackendsCons(d.sessions[0], d.sessions[1..j]);
    }
    hide SkipAt, Backends;
    assert d.sessions[..|d.sessions|] == d.sessions;
    forall j | 1 <= j < |d.sessions|
      ensures Picked(p, c, StandingAt(h, sweeps, 1, j - 1), Backends(d.sessions[..j]), d.sessions[j].backend)
    {
      PickedMoves(p, c, r, o, StandingAt(h, sweeps, 1, j - 1), Backends(d.sessions[..j]), d.sessions[j].backend);
    }
  }

  // ---------- The scanner's answer ----------

  /** The chunk scanner's loop ends on this response buffer. */
  ghost predicate ScanEnds(buf: string) {
    IsChunked(buf) == Some(true) ==> Loops.Halts(Chunked.Turns(BodyOf(buf)))
  }

  lemma AnswerIs(body: string, r: Option<int>)
    requires Loops.Returns(Chunked.Turns(body), r)
    ensures ChunkedLength(body) == r
  {
    hide Chunked.Turns;
    var q: Option<int> :| Loops.Returns(Chunked.Turns(body), q) && q == ChunkedLength(body);
    Loops.ReturnsUnique(Chunked.Turns(body), r, q);
  }

  /** `b` is a least loaded one of the healthy backends not to be skipped. */
  ghost predicate OneOfLeast(p: Pool, h: set<Backend>, skip: set<Backend>, b: Backend) {
    b in h && b !in skip && forall x :: x in h && x !in skip ==> Load(p, b) <= Load(p, x)
  }

  lemma ReplyMeans(swept: Pool, skip: set<Backend>, reply: Option<Backend>, p: Pool)
    requires reply == None <==> forall b :: !Eligible(swept, skip, b)
    requires reply != None ==> LeastLoaded(swept, skip, reply.value)
    requires forall b :: Load(swept, b) == Load(p, b)
    ensures reply == None <==> swept.healthy <= skip
    ensures reply != None ==> OneOfLeast(p, swept.healthy, skip, reply.value)
  {
    hide Load;
    if reply == None {
      forall b | b in swept.healthy ensures b in skip {
        assert !Eligible(swept, skip, b);
      }
    } else {
      assert Eligible(swept, skip, reply.value);
      forall x | x in swept.healthy && x !in skip ensures Load(p, reply.value) <= Load(p, x) {
        assert Eligible(swept, skip, x);
      }
    }
  }

  lemma StandingFirst(h: set<Backend>, sweeps: nat -> seq<Mark>, a: nat)
    ensures StandingAt(h, sweeps, a, 0) == Standing(Standing(h, sweeps(3 * a)), sweeps(3 * a + 1))
  {
  }

  lemma AttemptsGrow(c: Conn, b: Backend)
    ensures Retarget(c, b).attempts == c.attempts + 1
  {
  }

  lemma AbandonTried(c: Conn)
    ensures Abandon(c).tried == c.tried + (if c.backendAddr.Some? then {c.backendAddr.value} else {})
    ensures Abandon(c).sessions == c.sessions
  {
  }

  lemma SessionsKept(c: Conn, b: Backend, net: Net, replies: Replies)
    ensures var o, d := OpenSocket(c, b, net.now), Initiate(c, b, net, replies);
            |o.sessions| <= |d.sessions| && d.sessions[..|o.sessions|] == o.sessions
  {
    hide FailBackend, OpenSocket, Enter;
    var d := OpenSocket(c, b, net.now);
    Handlers.EnterSession(d, ForwardingRequest, net.now);
    if net.connect(c.attempts).Refused? {
      Handlers.FailBackendOpens(d, net, replies);
    }
    Handlers.OpenSocketSession(c, b, net.now);
  }

  lemma SameFirst(c: Conn, e: Conn, d: Conn, p: Pool, h: set<Backend>, sweeps: nat -> seq<Mark>)
    requires FirstAsked(e, d, p, h, sweeps) && e.backendAddr == c.backendAddr && e.notified == c.notified
    ensures FirstAsked(c, d, p, h, sweeps)
  {
    hide StandingAt, Handlers.MayRepeat, Backends;
    SamePicked(c, e, p);
    hide Picked;
    forall j | 1 <= j < |d.sessions|
      ensures Picked(p, c, StandingAt(h, sweeps, 1, j - 1), Backends(d.sessions[..j]), d.sessions[j].backend)
    {
      assert Picked(p, e, StandingAt(h, sweeps, 1, j - 1), Backends(d.sessions[..j]), d.sessions[j].backend);
    }
  }

  lemma SamePicked(c: Conn, e: Conn, p: Pool)
    requires e.backendAddr == c.backendAddr && e.notified == c.notified
    ensures forall h, skip, b :: Picked(p, e, h, skip, b) <==> Picked(p, c, h, skip, b)
  {
    hide Load;
    assert forall x :: Slots(c, x) == Slots(e, x);
  }

  lemma NoneHealthy(c: Conn, d: Conn, p: Pool, h: set<Backend>, sweeps: nat -> seq<Mark>)
    requires d.sessions == [] && h <= {}
    ensures FirstAsked(c, d, p, h, sweeps)
  {
  }

  lemma FirstOpened(c: Conn, b: Backend, net: Net, replies: Replies)
    requires c.sessions == [] && c.attempts == 1 && c.backendAddr == Some(b)
    ensures var o, d := OpenSocket(c, b, net.now), Initiate(c, b, net, replies);
            && o == c.(state := o.state, changes := o.changes, deadline := o.deadline, deadlineGen := o.deadlineGen,
                       backendSock := o.backendSock, sessions := [Session(b, "", "")])
            && 1 <= |d.sessions| && d.sessions[..1] == o.sessions && d.parsed == c.parsed
  {
    SessionsKept(c, b, net, replies);
    InitiateKeepsRequest(c, b, net, replies);
    hide Initiate;
  }

  lemma ErrorSessions(c: Conn, code: nat, reason: string, net: Net)
    ensures SendError(c, code, reason, net).sessions == c.sessions
  {
    hide ErrorPage;
  }

  /** For a connection that holds nothing its own slots do not matter. */
  lemma PickedFree(p: Pool, c: Conn, h: set<Backend>, skip: set<Backend>, b: Backend)
    requires OneOfLeast(p, h, skip, b) && (c.backendAddr == None || c.notified)
    ensures Picked(p, c, h, skip, b)
  {
    hide Load;
    assert forall x :: Slots(c, x) == 0;
  }

  lemma OpenSocketFrame(c: Conn, b: Backend, now: int)
    ensures var d := OpenSocket(c, b, now);
            d.backendAddr == c.backendAddr && d.notified == c.notified && d.attempts == c.attempts
  {
  }

  lemma EnterFrame(c: Conn, s: State, now: int)
    ensures var d := Enter(c, s, now);
            && d.state == s && d.backendAddr == c.backendAddr && d.notified == c.notified
            && d.sessions == c.sessions && d.page == c.page
            && d.attempts == c.attempts && d.tried == c.tried && d.parsed == c.parsed && d.clientBytesSent == c.clientBytesSent
  {
  }

  lemma AbandonFrame(c: Conn)
    ensures var d := Abandon(c); d.attempts == c.attempts && (d.backendAddr == None || d.notified)
  {
  }

  lemma RefreshFrame(c: Conn, now: int)
    ensures var d := Refresh(c, now);
            d == c.(deadline := d.deadline, deadlineGen := d.deadlineGen)
  {
  }

  lemma RecordSentFrame(c: Conn, n: nat)
    ensures var d := RecordSent(c, n);
            d == c.(sessions := d.sessions)
  {
  }

  lemma ReceivedFrame(c: Conn, data: string, now: int)
    ensures var d := NoteHeaders(Refresh(RecordReceived(c, data).(responseBuf := c.responseBuf + data), now));
            d.backendAddr == c.backendAddr && d.notified == c.notified
  {
    hide NoteHeaders, Refresh, RecordReceived;
    RecordReceivedFrame(c, data);
    var d := RecordReceived(c, data).(responseBuf := c.responseBuf + data);
    RefreshFrame(d, now);
    NoteHeadersFrame(Refresh(d, now));
  }

  lemma RecordReceivedFrame(c: Conn, data: string)
    ensures var d := RecordReceived(c, data);
            d == c.(sessions := d.sessions)
  {
  }

  lemma NoteHeadersFrame(c: Conn)
    ensures var d := NoteHeaders(c);
            d.backendAddr == c.backendAddr && d.notified == c.notified
  {
    hide IsChunked, ResponseContentLength, Find;
  }

  lemma PrepareRelayFrame(c: Conn, now: int)
    ensures var d := PrepareRelay(c, now);
            d.backendAddr == c.backendAddr && d.notified == c.notified
  {
  }

  lemma CheckCompleteFrame(c: Conn, now: int)
    ensures var d := CheckComplete(c, now);
            d.backendAddr == c.backendAddr && d.notified == c.notified
  {
    hide ChunkedLength, BodyOf, PySlice;
  }

  /** While a response is read, the cached scan says whether it is chunked. */
  lemma ReadingHere(c: Conn)
    requires Inv(c) && c.state == ReadingResponse
    ensures c.headersDone && c.isChunked ==> IsChunked(c.responseBuf) == Some(true)
  {
    hide IsChunked, Find;
  }

  lemma WaitingHere(c: Conn)
    requires Inv(c) && c.state == ReadingRequest
    ensures Waiting(c)
  {
  }

  lemma StillWaiting(c: Conn, d: Conn)
    requires Waiting(c)
    requires d == c.(requestBuf := d.requestBuf, deadline := d.deadline, deadlineGen := d.deadlineGen)
    ensures Waiting(d)
  {
  }

  class ProxyConnection {
    const id: nat
    const clientIp: string
    const router: LeastConnectionsRouter

    var state: State
    var backendSock: Option<Sock>
    var backendAddr: Option<Backend>
    var requestBuf: string
    var parsed: Option<Request>
    var forwardBuf: string
    var forwardOffset: nat
    var responseBuf: string
    var headersDone: bool
    var contentLength: int
    var bodyReceived: int
    var isChunked: bool
    var relayBuf: string
    var relayOffset: nat
    var tried: set<Backend>
    var attempts: nat
    var clientBytesSent: bool
    var notified: bool
    var pendingUnregister: Option<Sock>
    var deadline: int
    var deadlineGen: nat

    // history
    ghost var sessions: seq<Session>
    ghost var clientOut: string
    ghost var page: Option<string>
    ghost var aborted: bool
    ghost var changes: nat

    ghost function Snapshot(): Conn
      reads this
    {
      Conn(id, clientIp, state, backendSock, backendAddr, requestBuf, parsed, forwardBuf, forwardOffset,
           responseBuf, headersDone, contentLength, bodyReceived, isChunked, relayBuf, relayOffset,
           tried, attempts, clientBytesSent, notified, pendingUnregister, deadline, deadlineGen,
           sessions, clientOut, page, aborted, changes)
    }

    lemma Fields()
      ensures var c := Snapshot();
              && c.id == id && c.state == state && c.backendSock == backendSock
              && c.deadline == deadline && c.deadlineGen == deadlineGen
              && c.pendingUnregister == pendingUnregister && c.responseBuf == responseBuf
    {
    }

    ghost predicate Valid()
      reads this
    {
      Inv(Snapshot())
    }

    /** This connection and its router, consistent with each other. */
    ghost predicate Ready()
      reads this, router
    {
      router.Valid() && Covered(router.View(), Snapshot())
    }

    constructor (id: nat, clientIp: string, router: LeastConnectionsRouter, now: int)
      ensures Valid() && Snapshot() == Start(id, clientIp, now) && this.router == router
    {
      this.id, this.clientIp, this.router := id, clientIp, router;
      state := ReadingRequest;
      backendSock, backendAddr, pendingUnregister := None, None, None;
      requestBuf, parsed, forwardBuf, forwardOffset := "", None, "", 0;
      responseBuf, relayBuf, relayOffset := "", "", 0;
      headersDone, contentLength, bodyReceived, isChunked := false, -1, 0, false;
      tried, attempts, clientBytesSent, notified := {}, 0, false, false;
      deadline, deadlineGen := 0, 0;
      sessions, clientOut, page, aborted, changes := [], "", None, false, 0;
      new;
      RefreshDeadline(now);
      StartInv(id, clientIp, now);
    }

    /** The reactor has unregistered the socket left behind. */
    method ClearPending()
      modifies this`pendingUnregister
      ensures Snapshot() == old(Snapshot()).(pendingUnregister := None)
    {
      pendingUnregister := None;
    }

    // ---------- Parts of the handlers ----------

    /** Assigns `state`. */
    method Become(s: State)
      modifies this`state, this`changes
      ensures Snapshot() == SetState(old(Snapshot()), s)
    {
      if s != state {
        changes := changes + 1;
      }
      state := s;
    }

    method RefreshDeadline(now: int)
      modifies this`deadline, this`deadlineGen
      ensures Snapshot() == Refresh(old(Snapshot()), now)
    {
      var timeout := TimeoutOf(state);
      if timeout == None {
        return;
      }
      deadlineGen := deadlineGen + 1;
      deadline := now + timeout.value;
    }

    /** Tells the router of the disconnect, unless there is nothing to tell or it was told;
        the health checker may run in between. */
    method NotifyRouter(sweep: seq<Mark>)
      requires Ready()
      modifies this`notified, router
      ensures Ready()
      ensures Snapshot() == Notify(old(Snapshot())) && router.healthy == Standing(old(router.healthy), sweep)
      ensures Moves(old(router.View()), old(Snapshot()), router.View(), Snapshot())
    {
      hide LeastConnectionsRouter.Valid;
      ghost var p, c := router.View(), Snapshot();
      router.HealthSweep(sweep);
      NothingMoves(p, c, router.View(), c);
      MovesKeepsCovered(p, c, router.View(), c);
      ghost var q := router.View();
      if backendAddr.Some? && !notified {
        ReleaseMoves(q, c, backendAddr.value);
        router.OnDisconnect(backendAddr.value);
        notified := true;
        MovesTrans(p, c, q, c, router.View(), Snapshot());
      }
    }

    method Finish(sweep: seq<Mark>)
      requires Ready()
      modifies this`notified, this`state, this`changes, router
      ensures Ready()
      ensures Snapshot() == Protocol.Finish(old(Snapshot()))
      ensures Moves(old(router.View()), old(Snapshot()), router.View(), Snapshot())
    {
      NotifyRouter(sweep);
      Become(Done);
    }

    /** Generates an error page, gives it to the client as far as possible, and ends. */
    method SendErrorPage(code: nat, reason: string, net: Net, sweep: seq<Mark>)
      requires Ready()
      modifies this, router
      ensures Ready()
      ensures Snapshot() == SendError(old(Snapshot()), code, reason, net)
      ensures Moves(old(router.View()), old(Snapshot()), router.View(), Snapshot())
    {
      hide ErrorPage, LeastConnectionsRouter.Valid;
      ghost var p, c := router.View(), Snapshot();
      var response := ErrorPage(code, reason);
      page := Some(response);
      match net.sendAll {
        case AllSent =>
          clientOut := clientOut + response[..|response|];
          clientBytesSent := true;
        case Broken(k) =>
          clientOut := clientOut + response[..Min(k, |response|)];
      }
      NothingMoves(p, c, router.View(), Snapshot());
      MovesKeepsCovered(p, c, router.View(), Snapshot());
      ghost var d := Snapshot();
      Finish(sweep);
      MovesTrans(p, c, p, d, router.View(), Snapshot());
    }

    function CanRetryNow(): bool
      reads this
    {
      && !clientBytesSent
      && parsed.Some?
      && Upper(parsed.value.verb) in IDEMPOTENT_METHODS
      && attempts <= MAX_BACKEND_RETRIES
    }

    /** Creates the socket for this attempt. */
    method OpenBackendSocket(backend: Backend, now: int)
      modifies this
      ensures Snapshot() == OpenSocket(old(Snapshot()), backend, now)
    {
      Become(ConnectingToBackend);
      RefreshDeadline(now);
      backendSock := Some(BackendSock(id, attempts));
      sessions := sessions + [Session(backend, "", "")];
    }

    /** `state = ...; self.refresh_deadline()` */
    method EnterState(s: State, now: int)
      modifies this`state, this`changes, this`deadline, this`deadlineGen
      ensures Snapshot() == Enter(old(Snapshot()), s, now)
    {
      Become(s);
      RefreshDeadline(now);
    }

    /** _initiate_backend_connect; `sweeps` are the health checker's runs before each router call. */
    method InitiateBackendConnect(backend: Backend, net: Net, sweeps: nat -> seq<Mark>)
      returns (ghost replies: Replies)
      requires Ready()
      modifies this, router
      ensures Ready()
      ensures Snapshot() == Initiate(old(Snapshot()), backend, net, replies)
      ensures Moves(old(router.View()), old(Snapshot()), router.View(), Snapshot())
      ensures Asked(OpenSocket(old(Snapshot()), backend, net.now), Snapshot(), old(router.View()), old(router.healthy), sweeps)
      decreases MAX_BACKEND_RETRIES + 1 - attempts, 1
    {
      hide LeastConnectionsRouter.Valid, FailBackend, Covered, Moves, Enter, OpenSocket, Asked;
      ghost var p, c, h := router.View(), Snapshot(), router.healthy;
      OpenBackendSocket(backend, net.now);
      ghost var d := Snapshot();
      OpenSocketFrame(c, backend, net.now);
      NothingMoves(p, c, p, d);
      MovesKeepsCovered(p, c, p, d);
      replies := [];
      match net.connect(attempts) {
        case Connected =>
          EnterState(ForwardingRequest, net.now);
          EnterFrame(d, ForwardingRequest, net.now);
          NothingMoves(p, c, p, Snapshot());
          MovesKeepsCovered(p, c, p, Snapshot());
          AskedNothing(d, Snapshot(), p, h, sweeps);
        case InProgress =>
          AskedNothing(d, d, p, h, sweeps);
        case Refused =>
          replies := FailCurrentBackend(net, sweeps);
          MovesTrans(p, c, p, d, router.View(), Snapshot());
      }
    }

    /** The first half of _fail_backend. */
    method AbandonBackend(sweep: seq<Mark>)
      requires Ready()
      modifies this, router
      ensures Ready()
      ensures Snapshot() == Abandon(old(Snapshot())) && router.healthy == Standing(old(router.healthy), sweep)
      ensures Moves(old(router.View()), old(Snapshot()), router.View(), Snapshot())
    {
      hide LeastConnectionsRouter.Valid, Covered, Moves;
      ghost var p, c := router.View(), Snapshot();
      NotifyRouter(sweep);
      if backendSock.Some? {
        pendingUnregister := backendSock;
        backendSock := None;
      }
      if backendAddr.Some? {
        tried := tried + {backendAddr.value};
      }
      ghost var q, d := router.View(), Snapshot();
      NothingMoves(q, Notify(c), q, d);
      MovesTrans(p, c, q, Notify(c), q, d);
      MovesKeepsCovered(p, c, q, d);
    }

    /** Asks the router for a backend not in `skip`; the health checker may run before. */
    method AskRouter(skip: set<Backend>, sweep: seq<Mark>) returns (reply: Option<Backend>, ghost swept: Pool)
      requires router.Valid()
      modifies router
      ensures router.Valid()
      ensures forall b :: Load(swept, b) == Load(old(router.View()), b)
      ensures router.View() == if reply == None then swept else Acquired(swept, reply.value)
      ensures router.healthy == Standing(old(router.healthy), sweep)
      ensures reply == None <==> router.healthy <= skip
      ensures reply != None ==> OneOfLeast(old(router.View()), router.healthy, skip, reply.value)
    {
      hide LeastConnectionsRouter.Valid, Remains, NothingStale, Choice, LeastLoaded, Eligible, Acquired, Standing;
      router.HealthSweep(sweep);
      swept := router.View();
      var entry;
      reply, entry := router.NextBackend(skip);
      ReplyMeans(swept, skip, reply, old(router.View()));
    }

    method SetBody(length: int, received: int)
      modifies this`contentLength, this`bodyReceived
      ensures Snapshot() == old(Snapshot()).(contentLength := length, bodyReceived := received)
    {
      contentLength := length;
      bodyReceived := received;
    }

    method SetHeaders(done: bool, chunked: bool)
      modifies this`headersDone, this`isChunked
      ensures Snapshot() == old(Snapshot()).(headersDone := done, isChunked := chunked)
    {
      headersDone := done;
      isChunked := chunked;
    }

    method Rewind()
      modifies this`forwardOffset, this`responseBuf
      ensures Snapshot() == old(Snapshot()).(forwardOffset := 0, responseBuf := "")
    {
      forwardOffset := 0;
      responseBuf := "";
    }

    method SetTarget(backend: Backend, attempt: nat)
      modifies this`backendAddr, this`attempts, this`notified
      ensures Snapshot() == old(Snapshot()).(backendAddr := Some(backend), attempts := attempt, notified := false)
    {
      backendAddr := Some(backend);
      attempts := attempt;
      notified := false;
    }

    /** Resets the attempt for another backend. */
    method ResetFor(backend: Backend)
      modifies this
      ensures Snapshot() == Retarget(old(Snapshot()), backend)
    {
      SetTarget(backend, attempts + 1);
      Rewind();
      SetHeaders(false, false);
      SetBody(-1, 0);
    }

    /** Asks the router for another backend and, given one, resets the attempt. */
    method RetargetBackend(sweep: seq<Mark>) returns (reply: Option<Backend>)
      requires Ready() && (backendAddr == None || notified)
      modifies this, router
      ensures Ready()
      ensures reply == None ==> Snapshot() == old(Snapshot())
      ensures reply != None ==> reply.value !in old(tried) && Snapshot() == Retarget(old(Snapshot()), reply.value)
      ensures Moves(old(router.View()), old(Snapshot()), router.View(), Snapshot())
      ensures router.healthy == Standing(old(router.healthy), sweep)
      ensures reply == None ==> router.healthy <= old(tried)
      ensures reply != None ==> Picked(old(router.View()), old(Snapshot()), router.healthy, old(tried), reply.value)
    {
      hide LeastConnectionsRouter.Valid, Covered, Moves, Acquired, Standing, Picked, Load;
      ghost var p, c := router.View(), Snapshot();
      ghost var q;
      reply, q := AskRouter(tried, sweep);
      NothingMoves(p, c, q, c);
      MovesKeepsCovered(p, c, q, c);
      if reply == None {
        return;
      }
      PickedFree(p, c, router.healthy, c.tried, reply.value);
      ResetFor(reply.value);
      AcquireMoves(q, c, reply.value, Snapshot());
      MovesTrans(p, c, q, c, router.View(), Snapshot());
    }

    /** _fail_backend */
    method FailCurrentBackend(net: Net, sweeps: nat -> seq<Mark>) returns (ghost replies: Replies)
      requires Ready()
      modifies this, router
      ensures Ready()
      ensures Snapshot() == FailBackend(old(Snapshot()), net, replies)
      ensures Moves(old(router.View()), old(Snapshot()), router.View(), Snapshot())
      ensures Asked(old(Snapshot()), Snapshot(), old(router.View()), old(router.healthy), sweeps)
      decreases MAX_BACKEND_RETRIES + 1 - attempts, 0
    {
      hide LeastConnectionsRouter.Valid, Initiate, SendError, Covered, Moves, Abandon, Asked, Picked, Standing, OpenSocket,
        Retarget, CanRetry, Reopened;
      ghost var p, c, h := router.View(), Snapshot(), router.healthy;
      AbandonBackend(sweeps(3 * attempts));
      ghost var q, d := router.View(), Snapshot();
      AbandonFrame(c);
      replies := [];
      var again := CanRetryNow();
      CanRetryIs();
      if again {
        var reply := RetargetBackend(sweeps(3 * attempts + 1));
        ghost var r, e := router.View(), Snapshot();
        MovesTrans(p, c, q, d, r, e);
        StandingFirst(h, sweeps, c.attempts);
        replies := [reply];
        if reply != None {
          ReopenedIs(c, reply.value, net.now);
          ghost var o := OpenSocket(e, reply.value, net.now);
          OpenSocketFrame(e, reply.value, net.now);
          NothingMoves(r, e, r, o);
          MovesTrans(p, c, r, e, r, o);
          PickedMoves(p, c, q, d, StandingAt(h, sweeps, c.attempts, 0), d.tried, reply.value);
          AttemptsGrow(d, reply.value);
          ghost var later := InitiateBackendConnect(reply.value, net, sweeps);
          MovesTrans(p, c, r, e, router.View(), Snapshot());
          SessionsKept(e, reply.value, net, later);
          AbandonTried(c);
          AskedMore(c, o, Snapshot(), reply.value, p, r, h, sweeps);
          replies := [reply] + later;
          assert Later(replies) == later;
          return;
        }
        q := r;
      }
      SendErrorPage(502, "Bad Gateway", net, sweeps(3 * attempts + 2));
      MovesTrans(p, c, q, d, router.View(), Snapshot());
      ErrorSessions(d, 502, "Bad Gateway", net);
      AbandonTried(c);
      AskedNone(c, Snapshot(), p, h, sweeps);
    }

    lemma CanRetryIs()
      ensures CanRetryNow() == CanRetry(Snapshot())
    {
    }

    method SetRelay(buf: string)
      modifies this`relayBuf, this`relayOffset
      ensures Snapshot() == old(Snapshot()).(relayBuf := buf, relayOffset := 0)
    {
      relayBuf := buf;
      relayOffset := 0;
    }

    /** _prepare_relay */
    method PrepareForRelay(now: int)
      modifies this`relayBuf, this`relayOffset, this`state, this`changes, this`deadline, this`deadlineGen
      ensures Snapshot() == PrepareRelay(old(Snapshot()), now)
    {
      hide Enter;
      SetRelay(responseBuf);
      EnterState(ForwardingResponse, now);
    }

    method SetRequest(request: Request, bytes: string)
      modifies this`parsed, this`forwardBuf, this`forwardOffset
      ensures Snapshot() == old(Snapshot()).(parsed := Some(request), forwardBuf := bytes, forwardOffset := 0)
    {
      parsed := Some(request);
      forwardBuf := bytes;
      forwardOffset := 0;
    }

    // ---------- Handlers ----------

    /** A complete request was parsed. */
    method DispatchRequest(req: HttpRequest, net: Net, sweeps: nat -> seq<Mark>) returns (ghost replies: Replies)
      requires Ready() && state == ReadingRequest && Waiting(Snapshot())
      modifies this, router, req
      ensures Ready()
      ensures Snapshot() == Dispatch(old(Snapshot()), old(req.Value()), net, replies)
      ensures Moves(old(router.View()), old(Snapshot()), router.View(), Snapshot())
      ensures FirstAsked(old(Snapshot()), Snapshot(), old(router.View()), Standing(old(router.healthy), sweeps(0)), sweeps)
    {
      hide LeastConnectionsRouter.Valid, Covered, Moves, Initiate, SendError, Serialise, Inject, Acquired, Standing, Picked,
        Asked, FirstAsked, OneOfLeast, OpenSocket;
      ghost var p, c := router.View(), Snapshot();
      InjectForwardedFor(req, clientIp);
      var bytes := SerialiseRequest(req);
      SetRequest(req.Value(), bytes);
      ghost var d := Snapshot();
      NothingMoves(p, c, p, d);
      MovesKeepsCovered(p, c, p, d);
      var backend, swept := AskRouter({}, sweeps(0));
      ghost var q := router.View();
      replies := [backend];
      if backend == None {
        NothingMoves(p, d, q, d);
        MovesKeepsCovered(p, d, q, d);
        ghost var h := router.healthy;
        SendErrorPage(503, "Service Unavailable", net, sweeps(1));
        MovesTrans(p, d, q, d, router.View(), Snapshot());
        ErrorSessions(d, 503, "Service Unavailable", net);
        NoneHealthy(c, Snapshot(), p, h, sweeps);
      } else {
        NothingMoves(p, d, swept, d);
        MovesKeepsCovered(p, d, swept, d);
        SetTarget(backend.value, 1);
        ghost var e := Snapshot();
        AcquireMoves(swept, d, backend.value, e);
        MovesTrans(p, d, swept, d, q, e);
        ghost var o, h := OpenSocket(e, backend.value, net.now), router.healthy;
        ghost var later := InitiateBackendConnect(backend.value, net, sweeps);
        MovesTrans(p, d, q, e, router.View(), Snapshot());
        FirstOpened(e, backend.value, net, later);
        NothingMoves(q, e, q, o);
        MovesTrans(p, d, q, e, q, o);
        MovesTrans(p, c, p, d, q, o);
        PickedFree(p, c, h, {}, backend.value);
        AskedFirst(c, o, Snapshot(), backend.value, p, q, h, sweeps);
        replies := [backend] + later;
        assert Later(replies) == later && Reply(replies, {}) == backend;
      }
      MovesTrans(p, c, p, d, router.View(), Snapshot());
    }

    method HandleClientReadable(recv: Io<string>, net: Net, sweeps: nat -> seq<Mark>)
      returns (ghost replies: Replies)
      requires Valid() && Ready()
      modifies this, router
      ensures Valid() && Ready()
      ensures Snapshot() == ClientReadable(old(Snapshot()), recv, net, replies)
      ensures Moves(old(router.View()), old(Snapshot()), router.View(), Snapshot())
      // a request that was parsed now had the router asked for its backends
      ensures (old(state) == ReadingRequest && recv.Ok? && recv.value != ""
               && |old(requestBuf) + recv.value| <= 10_485_760 && ParseRequest(old(requestBuf) + recv.value).Some?
               ==> FirstAsked(old(Snapshot()), Snapshot(), old(router.View()), Standing(old(router.healthy), sweeps(0)), sweeps))
    {
      hide LeastConnectionsRouter.Valid, Covered, Moves, Dispatch, SendError, ParseRequest, Inv, Refresh, Waiting,
        FirstAsked, Standing;
      ghost var p, c := router.View(), Snapshot();
      replies := [];
      NothingMoves(p, c, p, c);
      if state != ReadingRequest {
        return;
      }
      WaitingHere(c);
      match recv {
        case WouldBlock =>
        case Failed =>
          Become(Done);
          NothingMoves(p, c, p, Snapshot());
          MovesKeepsCovered(p, c, p, Snapshot());
        case Ok(data) =>
          if data == "" {
            Become(Done);
            NothingMoves(p, c, p, Snapshot());
            MovesKeepsCovered(p, c, p, Snapshot());
          } else {
            requestBuf := requestBuf + data;
            ghost var d := Snapshot();
            RefreshDeadline(net.now);
            ghost var e := Snapshot();
            RefreshFrame(d, net.now);
            StillWaiting(c, e);
            NothingMoves(p, c, p, e);
            MovesKeepsCovered(p, c, p, e);
            if |requestBuf| > MAX_REQUEST_SIZE {
              SendErrorPage(413, "Request Entity Too Large", net, sweeps(0));
              MovesTrans(p, c, p, e, router.View(), Snapshot());
            } else {
              var req := TryParseRequest(requestBuf);
              if req != null {
                replies := DispatchRequest(req, net, sweeps);
                MovesTrans(p, c, p, e, router.View(), Snapshot());
                SameFirst(c, e, Snapshot(), p, Standing(old(router.healthy), sweeps(0)), sweeps);
              }
            }
          }
      }
      ClientReadableInv(c, recv, net, replies);
    }

    method HandleClientWritable(send: Io<nat>, net: Net, sweep: seq<Mark>)
      requires Valid() && Ready()
      modifies this, router
      ensures Valid() && Ready()
      ensures Snapshot() == ClientWritable(old(Snapshot()), send, net)
      ensures Moves(old(router.View()), old(Snapshot()), router.View(), Snapshot())
    {
      hide LeastConnectionsRouter.Valid, Covered, Moves, Inv, Relayed;
      ghost var p, c := router.View(), Snapshot();
      ClientWritableInv(c, send, net);
      NothingMoves(p, c, p, c);
      if state != ForwardingResponse {
        return;
      }
      match send {
        case WouldBlock =>
        case Failed =>
          aborted := true;
          Become(Done);
          NothingMoves(p, c, p, Snapshot());
          MovesKeepsCovered(p, c, p, Snapshot());
        case Ok(k) =>
          var rest := if relayOffset < |relayBuf| then relayBuf[relayOffset..] else "";
          var sent := Min(k, |rest|);
          RelayBytes(sent, rest[..sent], net.now, sweep);
      }
    }

    /** `sent` bytes, `part`, went to the client. */
    method RelayBytes(sent: nat, part: string, now: int, sweep: seq<Mark>)
      requires Ready()
      modifies this, router
      ensures Ready()
      ensures Snapshot() == Relayed(old(Snapshot()), sent, part, now)
      ensures Moves(old(router.View()), old(Snapshot()), router.View(), Snapshot())
    {
      hide LeastConnectionsRouter.Valid, Covered, Moves, Refresh, Protocol.Finish;
      ghost var p, c := router.View(), Snapshot();
      if sent > 0 {
        clientBytesSent := true;
        RefreshFrame(Snapshot(), now);
        RefreshDeadline(now);
      }
      RecordRelayed(sent, part);
      ghost var e := Snapshot();
      NothingMoves(p, c, p, e);
      MovesKeepsCovered(p, c, p, e);
      if relayOffset >= |relayBuf| {
        Finish(sweep);
        MovesTrans(p, c, p, e, router.View(), Snapshot());
      }
    }

    method RecordRelayed(sent: nat, part: string)
      modifies this`relayOffset, this`clientOut
      ensures Snapshot() == old(Snapshot()).(relayOffset := old(relayOffset) + sent, clientOut := old(clientOut) + part)
    {
      relayOffset := relayOffset + sent;
      clientOut := clientOut + part;
    }

    method RecordSentBytes(sent: nat)
      modifies this`sessions, this`forwardOffset
      ensures Snapshot() == RecordSent(old(Snapshot()), sent).(forwardOffset := old(forwardOffset) + sent)
    {
      if sessions != [] && forwardOffset + sent <= |forwardBuf| {
        ghost var last := |sessions| - 1;
        ghost var s := sessions[last];
        sessions := sessions[last := s.(sent := s.sent + forwardBuf[forwardOffset..forwardOffset + sent])];
      }
      forwardOffset := forwardOffset + sent;
    }

    method HandleBackendWritable(connectOk: bool, send: Io<nat>, net: Net, sweeps: nat -> seq<Mark>)
      returns (ghost replies: Replies)
      requires Valid() && Ready()
      modifies this, router
      ensures Valid() && Ready()
      ensures Snapshot() == BackendWritable(old(Snapshot()), connectOk, send, net, replies)
      ensures Moves(old(router.View()), old(Snapshot()), router.View(), Snapshot())
      ensures (Selector.BackendFails(old(Snapshot()), OnBackendWritable(connectOk, send))
               ==> Asked(old(Snapshot()), Snapshot(), old(router.View()), old(router.healthy), sweeps))
    {
      hide LeastConnectionsRouter.Valid, Covered, Moves, Inv, FailBackend, Enter, RequestSent, Asked;
      ghost var p, c, h := router.View(), Snapshot(), router.healthy;
      replies := [];
      NothingMoves(p, c, p, c);
      if state == ConnectingToBackend && !connectOk {
        replies := FailCurrentBackend(net, sweeps);
        BackendWritableInv(c, connectOk, send, net, replies);
        return;
      }
      if state == ConnectingToBackend {
        EnterState(ForwardingRequest, net.now);
        EnterFrame(c, ForwardingRequest, net.now);
        NothingMoves(p, c, p, Snapshot());
        MovesKeepsCovered(p, c, p, Snapshot());
      }
      ghost var d := Snapshot();
      if state == ForwardingRequest {
        match send {
          case WouldBlock =>
          case Failed =>
            replies := FailCurrentBackend(net, sweeps);
            MovesTrans(p, c, p, d, router.View(), Snapshot());
            AskedSame(c, d, Snapshot(), p, h, sweeps);
          case Ok(k) =>
            var rest := if forwardOffset < |forwardBuf| then |forwardBuf| - forwardOffset else 0;
            SendRequestBytes(Min(k, rest), net.now);
            NothingMoves(p, d, p, Snapshot());
            MovesKeepsCovered(p, d, p, Snapshot());
            MovesTrans(p, c, p, d, p, Snapshot());
        }
      }
      BackendWritableInv(c, connectOk, send, net, replies);
    }

    /** `sent` bytes of the request went to the backend. */
    method SendRequestBytes(sent: nat, now: int)
      modifies this
      ensures Snapshot() == RequestSent(old(Snapshot()), sent, now)
      ensures backendAddr == old(backendAddr) && notified == old(notified)
    {
      hide Enter, Refresh, RecordSent;
      ghost var c := Snapshot();
      RefreshFrame(c, now);
      if sent > 0 {
        RefreshDeadline(now);
      }
      ghost var d := Snapshot();
      RecordSentFrame(d, sent);
      RecordSentBytes(sent);
      if forwardOffset >= |forwardBuf| {
        EnterFrame(Snapshot(), ReadingResponse, now);
        EnterState(ReadingResponse, now);
      }
    }

    method RecordReceivedBytes(data: string)
      modifies this`sessions, this`responseBuf
      ensures Snapshot() == RecordReceived(old(Snapshot()), data).(responseBuf := old(responseBuf) + data)
    {
      if sessions != [] {
        ghost var last := |sessions| - 1;
        ghost var s := sessions[last];
        sessions := sessions[last := s.(received := s.received + data)];
      }
      responseBuf := responseBuf + data;
    }

    /** Scans the header section when it has just become complete. */
    method ScanHeaders()
      modifies this
      ensures Snapshot() == NoteHeaders(old(Snapshot()))
    {
      if headersDone {
        return;
      }
      var hdrEnd := Find(responseBuf, DELIM, 0);
      if hdrEnd == -1 {
        return;
      }
      hide IsChunked, ResponseContentLength, Find;
      var chunked := IsChunkedResponse(responseBuf);
      SetHeaders(true, chunked == Some(true));
      var length := -1;
      if !isChunked {
        length := GetResponseContentLength(responseBuf);
      }
      SetBody(length, |responseBuf| - (hdrEnd + |DELIM|));
    }

    /** `del response_buf[length:]` */
    method TruncateResponse(length: int)
      modifies this`responseBuf
      ensures Snapshot() == old(Snapshot()).(responseBuf := PySlice(old(responseBuf), 0, length))
    {
      responseBuf := PySlice(responseBuf, 0, length);
    }

    /** A chunked response is relayed once its last chunk and trailers are in. */
    method RelayIfChunkedComplete(now: int)
      requires headersDone && isChunked && Loops.Halts(Chunked.Turns(BodyOf(responseBuf)))
      modifies this
      ensures Snapshot() == CheckComplete(old(Snapshot()), now)
    {
      hide PrepareRelay, ChunkedLength, BodyOf, PySlice, Chunked.Turns, Loops.Halts, Loops.Returns;
      var body := BodyOf(responseBuf);
      var framed := Chunked.TryConsume(body);
      AnswerIs(body, framed);
      if framed != None {
        TruncateResponse(|responseBuf| - |body| + framed.value);
        PrepareForRelay(now);
      }
    }

    /** Any other response is relayed once as many bytes as announced are in. */
    method RelayIfLengthReached(now: int)
      requires headersDone && !isChunked
      modifies this
      ensures Snapshot() == CheckComplete(old(Snapshot()), now)
    {
      hide PrepareRelay, BodyOf;
      SetBody(contentLength, |BodyOf(responseBuf)|);
      if contentLength >= 0 {
        if bodyReceived >= contentLength {
          PrepareForRelay(now);
        }
      }
    }

    /** Relays the response if its framing says that it is complete. */
    method RelayIfComplete(now: int)
      requires headersDone && isChunked ==> Loops.Halts(Chunked.Turns(BodyOf(responseBuf)))
      modifies this
      ensures Snapshot() == CheckComplete(old(Snapshot()), now)
    {
      hide PrepareRelay, ChunkedLength, BodyOf, PySlice, Chunked.Turns, Loops.Halts;
      if headersDone {
        if isChunked {
          RelayIfChunkedComplete(now);
        } else {
          RelayIfLengthReached(now);
        }
      }
    }

    method HandleBackendReadable(recv: Io<string>, net: Net, sweeps: nat -> seq<Mark>)
      returns (ghost replies: Replies)
      requires Valid() && Ready()
      requires state == ReadingResponse && recv.Ok? ==> ScanEnds(responseBuf + recv.value)
      modifies this, router
      ensures Valid() && Ready()
      ensures Snapshot() == BackendReadable(old(Snapshot()), recv, net, replies)
      ensures Moves(old(router.View()), old(Snapshot()), router.View(), Snapshot())
      ensures (Selector.BackendFails(old(Snapshot()), OnBackendReadable(recv))
               ==> Asked(old(Snapshot()), Snapshot(), old(router.View()), old(router.healthy), sweeps))
    {
      hide Asked, LeastConnectionsRouter.Valid, Covered, Moves, Inv, FailBackend, PrepareRelay, ChunkedLength, BodyOf,
        NoteHeaders, CheckComplete, Refresh, RecordReceived, Chunked.Turns, Loops.Halts, Loops.Returns, IsChunked;
      ghost var p, c := router.View(), Snapshot();
      replies := [];
      NothingMoves(p, c, p, c);
      if state != ReadingResponse {
        return;
      }
      ReadingHere(c);
      match recv {
        case WouldBlock =>
        case Failed =>
          replies := FailCurrentBackend(net, sweeps);
        case Ok(data) =>
          if data == "" {
            assert responseBuf + data == responseBuf;
            var truncated := false;
            if isChunked && headersDone {
              var framed := Chunked.TryConsume(BodyOf(responseBuf));
              AnswerIs(BodyOf(responseBuf), framed);
              truncated := framed == None;
            }
            if truncated {
              replies := FailCurrentBackend(net, sweeps);
            } else {
              PrepareForRelay(net.now);
              PrepareRelayFrame(c, net.now);
              NothingMoves(p, c, p, Snapshot());
              MovesKeepsCovered(p, c, p, Snapshot());
            }
          } else {
            ReceiveBytes(data, net.now);
            NothingMoves(p, c, p, Snapshot());
            MovesKeepsCovered(p, c, p, Snapshot());
          }
      }
      BackendReadableInv(c, recv, net, replies);
    }

    method ReceiveBytes(data: string, now: int)
      requires Valid() && state == ReadingResponse && ScanEnds(responseBuf + data)
      modifies this
      ensures Snapshot() == ResponseReceived(old(Snapshot()), data, now)
      ensures backendAddr == old(backendAddr) && notified == old(notified)
    {
      hide Inv, BodyOf, NoteHeaders, CheckComplete, Refresh, RecordReceived, Chunked.Turns, Loops.Halts, IsChunked;
      ghost var c := Snapshot();
      RecordReceivedBytes(data);
      RefreshDeadline(now);
      ScanHeaders();
      ghost var d := Snapshot();
      RecordReceivedInv(c, data, now);
      ReadingHere(d);
      ReceivedFrame(c, data, now);
      RelayIfComplete(now);
      CheckCompleteFrame(d, now);
    }

    method HandleTimeout(net: Net, sweep: seq<Mark>)
      requires Valid() && Ready()
      modifies this, router
      ensures Valid() && Ready()
      ensures Snapshot() == TimedOut(old(Snapshot()), net)
      ensures Moves(old(router.View()), old(Snapshot()), router.View(), Snapshot())
    {
      hide LeastConnectionsRouter.Valid, Covered, Moves, Inv, SendError;
      ghost var p, c := router.View(), Snapshot();
      TimedOutInv(c, net);
      NothingMoves(p, c, p, c);
      if state == Done {
        return;
      }
      if state == ReadingRequest {
        SendErrorPage(408, "Request Timeout", net, sweep);
        return;
      }
      if clientBytesSent {
        NotifyRouter(sweep);
        ghost var q, d := router.View(), Snapshot();
        Become(Done);
        NothingMoves(q, d, q, Snapshot());
        MovesKeepsCovered(q, d, q, Snapshot());
        MovesTrans(p, c, q, d, q, Snapshot());
        return;
      }
      SendErrorPage(504, "Gateway Timeout", net, sweep);
    }
  }
}
