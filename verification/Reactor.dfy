/** reactor.py: the deadline heap, the selector bookkeeping and the life cycle of connections,
    with everything they share with the router. */
module Reactor {
  import opened Wrappers
  import opened HeapQ
  import opened Pools
  import opened Protocol
  import opened ProtocolInvariant
  import opened ProtocolRuns
  import opened LeastConnections
  import opened Connection
  import opened Selector
  import opened Accounting
  import Bytes
  import Http

  /** A pending unregistration plays no part in the invariant. */
  lemma SettledInv(c: Conn)
    requires Inv(c)
    ensures Inv(Settled(c))
  {
    hide SentPrefixes, DistinctBackends, Backends, IsIdempotent, Http.Serialise, Http.IsChunked,
      Http.ResponseContentLength, Bytes.Find;
  }

  /** Every live connection's interest, and no socket of a connection not yet accepted. */
  ghost predicate AllInterests(cs: seq<Conn>, m: Registrations) {
    && (forall i :: 0 <= i < |cs| ==> InterestOk(cs[i], m))
    && (forall s: Sock :: s in m ==> s.conn < |cs|)
  }

  lemma InterestElsewhere(c: Conn, m: Registrations, n: Registrations, id: nat)
    requires InterestOk(c, m) && SameElsewhere(m, n, id) && c.id != id && Inv(c)
    ensures InterestOk(c, n)
  {
    EngagedSock(c);
    hide Inv;
    forall k: nat | BackendSock(c.id, k) in n ensures k <= c.attempts {
      assert BackendSock(c.id, k) in m;
    }
    assert c.state != Done ==> Has(m, ClientSock(c.id), if c.state == ForwardingResponse then Write else Read);
    if c.state != Done && c.state != ReadingRequest {
      assert c.backendSock == Some(BackendSock(c.id, c.attempts));
    }
  }

  lemma OneInterestMoves(cs: seq<Conn>, i: nat, d: Conn, m: Registrations, n: Registrations)
    requires AllInv(cs) && AllInterests(cs, m) && i < |cs|
    requires d.id == i && InterestOk(d, n) && SameElsewhere(m, n, i)
    ensures AllInterests(cs[i := d], n)
  {
    hide Inv, InterestOk;
    forall j | 0 <= j < |cs| && j != i ensures InterestOk(cs[j], n) {
      InterestElsewhere(cs[j], m, n, i);
    }
    forall s: Sock | s in n ensures s.conn < |cs| {
      assert s.conn != i ==> s in m;
    }
  }

  // ---------- Expiry ----------

  predicate Overdue(c: Conn, now: int) {
    c.state != Done && c.deadline <= now
  }

  /** Some of the overdue connections are timed out already. */
  ghost predicate Expiring(cs: seq<Conn>, ds: seq<Conn>, now: int, nets: nat -> Net) {
    && |ds| == |cs|
    && forall i :: 0 <= i < |cs| ==>
         ds[i] == cs[i] || (Overdue(cs[i], now) && ds[i] == TimedOut(cs[i], nets(i)))
  }

  lemma ExpiringStarts(cs: seq<Conn>, now: int, nets: nat -> Net)
    ensures Expiring(cs, cs, now, nets)
  {
  }

  lemma ExpiringOne(cs: seq<Conn>, ds: seq<Conn>, i: nat, now: int, nets: nat -> Net)
    requires Expiring(cs, ds, now, nets) && i < |ds| && Overdue(ds[i], now)
    ensures Expiring(cs, ds[i := TimedOut(ds[i], nets(i))], now, nets)
  {
    TimedOutFrame(cs[i], nets(i));
    hide TimedOut;
  }

  lemma ExpiringEnds(cs: seq<Conn>, ds: seq<Conn>, now: int, nets: nat -> Net)
    requires Expiring(cs, ds, now, nets)
    requires forall i :: 0 <= i < |ds| ==> !Overdue(ds[i], now)
    ensures |ds| == |cs|
    ensures forall i :: 0 <= i < |cs| ==>
              ds[i] == if cs[i].state != Done && cs[i].deadline <= now then TimedOut(cs[i], nets(i)) else cs[i]
  {
    hide TimedOut;
  }

  /** Once the root is not due, nothing is. */
  lemma NoneOverdue(h: seq<Due>, cs: seq<Conn>, now: int)
    requires IsHeap(h) && Scheduled(multiset(h), cs, -1)
    requires h == [] || h[0].key > now
    ensures forall i :: 0 <= i < |cs| ==> !Overdue(cs[i], now)
  {
    if h != [] {
      LeastAtRoot(h);
    }
    forall i | 0 <= i < |cs| && cs[i].state != Done ensures cs[i].deadline > now {
      assert DueOf(cs[i]) in multiset(h);
      assert !Less(DueOf(cs[i]), h[0]);
    }
  }

  /** A connection that timed out needs no registration. */
  lemma TimedOutMoves(cs: seq<Conn>, i: nat, net: Net, m: Registrations)
    requires AllInv(cs) && AllInterests(cs, m) && i < |cs|
    ensures var d := TimedOut(cs[i], net);
            d.state == Done && Advances(cs[i], d) && AllInterests(cs[i := d], m)
  {
    hide Inv, InterestOk, AllInterests, AllInv, TimedOut, Advances;
    OneInterest(cs, i, m);
    TimedOutInterest(cs[i], net, m);
    StepCounts(cs[i], OnTimeout, net, []);
    TimedOutFrame(cs[i], net);
    OneInterestMoves(cs, i, TimedOut(cs[i], net), m, m);
  }

  lemma TimedOutInterest(c: Conn, net: Net, m: Registrations)
    requires InterestOk(c, m)
    ensures var d := TimedOut(c, net); InterestOk(d, m) && d.id == c.id
  {
    hide TimedOut;
    TimedOutFrame(c, net);
  }

  lemma TimedOutFrame(c: Conn, net: Net)
    ensures TimedOut(c, net).state == Done && SameSockets(c, TimedOut(c, net))
  {
    hide SendError;
    ErrorFrame(c, 408, "Request Timeout", net);
    ErrorFrame(c, 504, "Gateway Timeout", net);
  }

  lemma ErrorFrame(c: Conn, code: nat, reason: string, net: Net)
    ensures SendError(c, code, reason, net).state == Done && SameSockets(c, SendError(c, code, reason, net))
  {
    hide ErrorPage;
  }

  // ---------- Accept and reap ----------

  lemma StartFacts(id: nat, clientIp: string, now: int)
    ensures var c := Start(id, clientIp, now);
            c.id == id && c.state == ReadingRequest && c.backendAddr == None && c.backendSock == None && Inv(c)
  {
    StartInv(id, clientIp, now);
    hide Inv;
  }

  lemma AcceptedInterests(cs: seq<Conn>, clientIp: string, now: int, m: Registrations)
    requires AllInv(cs) && AllInterests(cs, m)
    ensures AllInterests(cs + [Start(|cs|, clientIp, now)], Register(m, ClientSock(|cs|), Read))
  {
    hide Inv;
    var n := Register(m, ClientSock(|cs|), Read);
    assert ClientSock(|cs|) !in m;
    forall i | 0 <= i < |cs| ensures InterestOk(cs[i], n) {
      hide InterestOk;
      InterestElsewhere(cs[i], m, n, |cs|);
    }
    assert InterestOk(Start(|cs|, clientIp, now), n);
  }

  /** The client's or the last backend's socket of a connection in `gone`. */
  predicate OfDead(s: Sock, cs: seq<Conn>, gone: set<nat>) {
    && s.conn in gone && s.conn < |cs|
    && (s == ClientSock(s.conn) || cs[s.conn].backendSock == Some(s))
  }

  function Without(m: Registrations, cs: seq<Conn>, gone: set<nat>): Registrations {
    map s | s in m && !OfDead(s, cs, gone) :: m[s]
  }

  /** The connections of the table that are done. */
  ghost function Finished(known: set<nat>, cs: seq<Conn>): set<nat> {
    set k | k in known && k < |cs| && cs[k].state == Done
  }

  ghost predicate AllOwn(cs: seq<Conn>) {
    forall i :: 0 <= i < |cs| ==> OwnSock(cs[i])
  }

  lemma InterestsOwn(cs: seq<Conn>, m: Registrations)
    requires AllInterests(cs, m)
    ensures AllOwn(cs)
  {
    hide Matches;
  }

  lemma WithoutIs(m: Registrations, cs: seq<Conn>, known: set<nat>, gone: set<nat>)
    requires gone == Finished(known, cs)
    ensures var n := Without(m, cs, gone);
            && (forall s: Sock :: s in n <==>
                  s in m && !(s.conn in known && s.conn < |cs| && cs[s.conn].state == Done
                              && (s == ClientSock(s.conn) || cs[s.conn].backendSock == Some(s))))
            && forall s: Sock :: s in n ==> n[s] == m[s]
  {
  }

  lemma NoneDead(m: Registrations, cs: seq<Conn>)
    ensures Without(m, cs, {}) == m
  {
  }

  lemma ReapedOne(m: Registrations, cs: seq<Conn>, gone: set<nat>, k: nat)
    requires k < |cs| && OwnSock(cs[k]) && cs[k].id == k
    ensures Without(m, cs, gone + {k})
         == Unregister(Unregister(Without(m, cs, gone), Some(ClientSock(k))), cs[k].backendSock)
  {
  }

  /** The connections removed are done, so no other connection misses a registration. */
  lemma AllInterestsWithout(cs: seq<Conn>, m: Registrations, gone: set<nat>)
    requires AllInv(cs) && AllInterests(cs, m)
    requires forall k :: k in gone ==> k < |cs| && cs[k].state == Done
    ensures AllInterests(cs, Without(m, cs, gone))
  {
    hide Inv;
    var n := Without(m, cs, gone);
    forall i | 0 <= i < |cs| ensures InterestOk(cs[i], n) {
      OneInterest(cs, i, m);
      var c := cs[i];
      forall k: nat | BackendSock(c.id, k) in n ensures k <= c.attempts {
        assert BackendSock(c.id, k) in m;
      }
    }
  }

  /** A handler call and what the outside contributes to it. */
  datatype Call = Call(event: Event, net: Net)

  /** The outcomes of the socket calls of one dispatch. */
  datatype Outcomes = Outcomes(
    clientRecv: Io<string>,
    clientSent: Io<nat>,
    backendRecv: Io<string>,
    connectOk: bool,
    backendSent: Io<nat>,
    net: nat -> Net)

  /** The handler calls of one dispatch: whose socket it is, is decided at its start. */
  function Calls(c: Conn, sock: Sock, readable: bool, writable: bool, o: Outcomes): seq<Call> {
    var isClient := sock == ClientSock(c.id);
    var isBackend := c.backendSock == Some(sock);
    Ready(isClient && readable, Call(OnClientReadable(o.clientRecv), o.net(0)))
    + Ready(isClient && writable, Call(OnClientWritable(o.clientSent), o.net(1)))
    + Ready(isBackend && readable, Call(OnBackendReadable(o.backendRecv), o.net(2)))
    + Ready(isBackend && writable, Call(OnBackendWritable(o.connectOk, o.backendSent), o.net(3)))
  }

  function Ready(asked: bool, call: Call): seq<Call> {
    if asked then [call] else []
  }

  /** The connection after a series of handler calls, each with the reactor's updates behind it. */
  ghost function Driven(c: Conn, calls: seq<Call>, replies: seq<Replies>): Conn
    requires |calls| == |replies|
    decreases |calls|
  {
    if calls == [] then c
    else
      var last := |calls| - 1;
      Settled(Step(Driven(c, calls[..last], replies[..last]), calls[last].event, calls[last].net, replies[last]))
  }

  lemma DrivenOnce(c: Conn, calls: seq<Call>, call: Call, replies: seq<Replies>, r: Replies)
    requires |calls| == |replies|
    ensures Driven(c, calls + [call], replies + [r]) == Settled(Step(Driven(c, calls, replies), call.event, call.net, r))
  {
    hide Settled, Step;
    assert (calls + [call])[..|calls|] == calls && (replies + [r])[..|calls|] == replies;
  }

  /** Events on one socket: the read handler if it is readable, then the write handler if it is
      writable, each with the reactor's updates behind it. */
  ghost predicate OneSocket(c: Conn, d: Conn, readable: bool, writable: bool, replies: seq<Replies>,
                            read: Event, readNet: Net, write: Event, writeNet: Net) {
    if readable && writable then
      |replies| == 2 && d == Settled(Step(Settled(Step(c, read, readNet, replies[0])), write, writeNet, replies[1]))
    else if readable then |replies| == 1 && d == Settled(Step(c, read, readNet, replies[0]))
    else if writable then |replies| == 1 && d == Settled(Step(c, write, writeNet, replies[0]))
    else d == c
  }

  lemma CallsMean(c: Conn, i: nat, sock: Sock, readable: bool, writable: bool, o: Outcomes, replies: seq<Replies>)
    requires c.id == i && OwnSock(c) && |replies| == |Calls(c, sock, readable, writable, o)|
    ensures var d := Driven(c, Calls(c, sock, readable, writable, o), replies);
            && (sock == ClientSock(i) ==> OneSocket(c, d, readable, writable, replies,
                  OnClientReadable(o.clientRecv), o.net(0), OnClientWritable(o.clientSent), o.net(1)))
            && (c.backendSock == Some(sock) ==> OneSocket(c, d, readable, writable, replies,
                  OnBackendReadable(o.backendRecv), o.net(2), OnBackendWritable(o.connectOk, o.backendSent), o.net(3)))
            && (sock != ClientSock(i) && c.backendSock != Some(sock) ==> d == c)
  {
    hide Step, Settled, Driven;
    SocketsDiffer(c, sock);
    var calls := Calls(c, sock, readable, writable, o);
    if |calls| == 2 {
      assert calls == [calls[0]] + [calls[1]] && replies == [replies[0]] + [replies[1]];
      DrivenOnce(c, [calls[0]], calls[1], [replies[0]], replies[1]);
      DrivenFirst(c, calls[0], replies[0]);
    } else if |calls| == 1 {
      assert calls == [calls[0]] && replies == [replies[0]];
      DrivenFirst(c, calls[0], replies[0]);
    } else {
      DrivenNone(c, calls, replies);
    }
  }

  lemma DrivenFirst(c: Conn, call: Call, r: Replies)
    ensures Driven(c, [call], [r]) == Settled(Step(c, call.event, call.net, r))
  {
    hide Step, Settled;
    assert [call][..0] == [] && [r][..0] == [];
    DrivenNone(c, [], []);
  }

  lemma DrivenNone(c: Conn, calls: seq<Call>, replies: seq<Replies>)
    requires calls == [] && replies == []
    ensures Driven(c, calls, replies) == c
  {
  }

  /** A connection's backend socket is never its client socket. */
  lemma SocketsDiffer(c: Conn, sock: Sock)
    requires OwnSock(c)
    ensures !(sock == ClientSock(c.id) && c.backendSock == Some(sock))
  {
  }

  lemma NotReading(c: Conn, ev: Event)
    ensures c.state == Done || !ev.OnBackendReadable? ==> Readable(c, ev)
  {
    hide ScanEnds;
  }

  lemma SameLoadsConserve(p: Pool, q: Pool, cs: seq<Conn>)
    requires Conserved(p, cs) && forall b :: Load(q, b) == Load(p, b)
    ensures Conserved(q, cs)
  {
  }

  lemma InvAt(cs: seq<Conn>, i: nat)
    requires AllInv(cs) && i < |cs|
    ensures Inv(cs[i]) && cs[i].id == i
  {
    hide Inv;
  }

  lemma InterestsAfter(cs: seq<Conn>, i: nat, ev: Event, net: Net, replies: Replies, m: Registrations)
    requires AllInv(cs) && AllInterests(cs, m) && i < |cs|
    ensures var d := Step(cs[i], ev, net, replies);
            AllInterests(cs[i := Settled(d)], Transitioned(m, d, cs[i].state))
  {
    hide Step, Inv, InterestOk, Settled, Transitioned, SameElsewhere, AllInterests, AllInv, Advances;
    OneInterest(cs, i, m);
    StepKeepsInterest(cs[i], ev, net, replies, m);
    StepInv(cs[i], ev, net, replies);
    var d := Step(cs[i], ev, net, replies);
    SettledFrame(cs[i], d, ev, net, replies);
    OneInterestMoves(cs, i, Settled(d), m, Transitioned(m, d, cs[i].state));
  }

  /** What the reactor's updates leave of one handler call. */
  lemma SettledFrame(c: Conn, d: Conn, ev: Event, net: Net, replies: Replies)
    requires d == Step(c, ev, net, replies) && Inv(d)
    ensures Advances(c, Settled(d)) && Settled(d).id == c.id && Inv(Settled(d))
    ensures c.state == Done ==> Settled(d).state == Done
  {
    StepCounts(c, ev, net, replies);
    SettledInv(d);
    if c.state == Done {
      DoneIsFinal(c, ev, net, replies);
    }
    hide Inv, Step;
  }

  lemma OneInterest(cs: seq<Conn>, i: nat, m: Registrations)
    requires AllInterests(cs, m) && AllInv(cs) && i < |cs|
    ensures InterestOk(cs[i], m) && Inv(cs[i]) && cs[i].id == i
  {
    hide Inv, InterestOk;
  }

  lemma SettledConserves(p: Pool, cs: seq<Conn>, i: nat)
    requires Conserved(p, cs) && AllInv(cs) && i < |cs|
    ensures Conserved(p, cs[i := Settled(cs[i])]) && AllInv(cs[i := Settled(cs[i])])
  {
    SettledInv(cs[i]);
    NothingMoves(p, cs[i], p, Settled(cs[i]));
    hide Inv, Moves, Conserved;
    MovesConserve(p, cs, i, p, Settled(cs[i]));
    assert forall j :: 0 <= j < |cs| && j != i ==> cs[i := Settled(cs[i])][j] == cs[j];
  }

  /** A read from the backend is of data on which the chunk scanner's loop ends. */
  ghost predicate Readable(c: Conn, ev: Event) {
    (ev.OnBackendReadable? && ev.recv.Ok? && c.state == ReadingResponse)
    ==> ScanEnds(c.responseBuf + ev.recv.value)
  }

  lemma ReadyMeans(conn: ProxyConnection)
    requires conn.Ready()
    ensures conn.router.Valid()
  {
  }

  /** One of the five handlers. */
  method RunHandler(conn: ProxyConnection, ev: Event, net: Net, sweeps: nat -> seq<Mark>)
    returns (ghost replies: Replies)
    requires conn.Valid() && conn.Ready() && Readable(conn.Snapshot(), ev)
    modifies conn, conn.router
    ensures conn.Valid() && conn.Ready()
    ensures conn.Snapshot() == Step(old(conn.Snapshot()), ev, net, replies)
    ensures Moves(old(conn.router.View()), old(conn.Snapshot()), conn.router.View(), conn.Snapshot())
  {
    hide Inv, LeastConnectionsRouter.Valid, Covered, Moves, ScanEnds,
      ClientReadable, ClientWritable, BackendReadable, BackendWritable, TimedOut;
    conn.Fields();
    replies := [];
    match ev {
      case OnClientReadable(recv) =>
        replies := conn.HandleClientReadable(recv, net, sweeps);
      case OnClientWritable(sent) =>
        conn.HandleClientWritable(sent, net, sweeps(0));
      case OnBackendReadable(recv) =>
        replies := conn.HandleBackendReadable(recv, net, sweeps);
      case OnBackendWritable(ok, sent) =>
        replies := conn.HandleBackendWritable(ok, sent, net, sweeps);
      case OnTimeout =>
        conn.HandleTimeout(net, sweeps(0));
    }
  }

  lemma IdAt(cs: seq<Conn>, i: nat)
    requires AllIds(cs) && i < |cs|
    ensures cs[i].id == i
  {
  }

  lemma DoneNeedsNone(h: multiset<Due>, cs: seq<Conn>, i: nat)
    requires Scheduled(h, cs, i) && i < |cs| && cs[i].state == Done
    ensures Scheduled(h, cs, -1)
  {
  }

  lemma RootIsFaithful(h: seq<Due>, cs: seq<Conn>)
    requires h != [] && Faithful(multiset(h), cs)
    ensures var e := h[0];
            && e.item < |cs| && e.tie <= cs[e.item].deadlineGen
            && (e.tie == cs[e.item].deadlineGen ==> e.key == cs[e.item].deadline)
  {
    assert h[0] in multiset(h);
  }

  lemma NothingScheduled(cs: seq<Conn>, now: int)
    requires Scheduled(multiset([]), cs, -1)
    ensures TimeoutFor(TICK, now, cs)
  {
  }

  /** heappop of the deadline heap. */
  method PopDue(h: seq<Due>) returns (e: Due, r: seq<Due>)
    requires IsHeap(h) && h != []
    ensures IsHeap(r) && multiset(h) == multiset(r) + multiset{e} && |r| == |h| - 1 && e == h[0]
  {
    e, r := Pop(h);
    assert |multiset(r) + multiset{e}| == |multiset(r)| + 1;
    assert |multiset(r)| == |r| && |multiset(h)| == |h|;
  }

  class Reactor {
    const router: LeastConnectionsRouter
    var deadlines: seq<Due>
    var connById: map<nat, ProxyConnection>
    var connections: map<nat, ProxyConnection>
    var interest: Registrations
    var nextId: nat   // stands for the identity of the next connection object: never used twice

    // every connection ever accepted, at the position of its id, and their states
    ghost var all: seq<ProxyConnection>
    ghost var view: seq<Conn>

    ghost predicate Linked()
      reads this`all, this`view, all
    {
      && |view| == |all|
      && forall i :: 0 <= i < |all| ==>
           all[i].id == i && all[i].router == router && all[i].Snapshot() == view[i]
    }

    /** Both tables map ids to their connections, and neither misses a live one. */
    ghost predicate Tabled()
      reads this`all, this`view, this`connections, this`connById, this`nextId
    {
      TabledFor(view)
    }

    ghost predicate TabledFor(cs: seq<Conn>)
      reads this`all, this`connections, this`connById, this`nextId
    {
      TabledBut(cs, -1)
    }

    /** Connection `skip` may still be missing from `connById`. */
    ghost predicate TabledBut(cs: seq<Conn>, skip: int)
      reads this`all, this`connections, this`connById, this`nextId
    {
      && |cs| == |all| == nextId
      && (forall k :: k in connections ==> k < |all| && connections[k] == all[k])
      && (forall k :: k in connById ==> k < |all| && connById[k] == all[k])
      && (forall i :: 0 <= i < |cs| && cs[i].state != Done ==> i in connections && (i == skip || i in connById))
      && (forall k :: k in connById ==> k in connections)
    }

    /** The router's counts are conserved. */
    ghost predicate Sound()
      reads this`view, router
    {
      router.Valid() && Conserved(router.View(), view) && AllInv(view)
    }

    ghost predicate TimedBut(skip: int)
      reads this`deadlines, this`view
    {
      IsHeap(deadlines) && Faithful(multiset(deadlines), view) && Scheduled(multiset(deadlines), view, skip)
    }

    ghost predicate Valid()
      reads this, router, all
    {
      Linked() && Tabled() && Sound() && TimedBut(-1) && AllInterests(view, interest)
    }

    /** What holds while a dispatch on connection `i` is under way. */
    ghost predicate Working(i: nat)
      reads this, router, all
    {
      Linked() && Tabled() && Sound() && TimedBut(i) && AllInterests(view, interest)
    }

    constructor (router: LeastConnectionsRouter)
      requires router.Valid() && forall b :: Load(router.View(), b) == 0
      ensures Valid() && all == [] && this.router == router && fresh(this)
    {
      this.router := router;
      deadlines := [];
      connById := map[];
      connections := map[];
      interest := map[];
      nextId := 0;
      all := [];
      view := [];
    }

    // ---------- The router between calls ----------

    /** Whatever connections were accepted, dispatched, timed out and reaped, and whatever the health
        checker marked: the router's count of every backend is the number of connections engaged
        with it, and of those that a failed send to the client ended. */
    lemma {:induction false} SlotsAccounted(b: Backend)
      requires Valid()
      ensures Load(router.View(), b) == Engagements(view, b) + Aborts(view, b)
    {
      SoundInv();
      hide Inv;
      HoldersAre(view, b);
    }

    /** And of every connection: the client was given a prefix of exactly one response; every backend
        was sent a prefix of the one request; and attempts and state changes keep their bounds. */
    lemma ConnectionsKeepPromises(i: nat)
      requires Valid() && i < |view|
      ensures GaveOneResponse(view[i]) && SentOneRequest(view[i]) && KeptBounds(view[i])
    {
      hide Inv, GaveOneResponse, SentOneRequest, KeptBounds;
      SoundInv();
      InvAt(view, i);
      InvOneResponse(view[i]);
      InvOneRequest(view[i]);
      InvBounds(view[i]);
    }

    /** The health checker's marks, between two calls of the reactor. */
    method HealthCheck(marks: seq<Mark>)
      requires Valid()
      modifies router
      ensures Valid()
    {
      hide Linked, TabledFor, TimedBut, AllInterests, LeastConnectionsRouter.Valid, Conserved, AllInv;
      ghost var p := router.View();
      router.HealthSweep(marks);
      SameLoadsConserve(p, router.View(), view);
    }

    // ---------- Deadlines ----------

    lemma LinkedAt(i: nat)
      requires Linked() && i < |all|
      ensures |view| == |all| && all[i].Snapshot() == view[i] && all[i].id == i
      ensures all[i].router == router && all[i].state == view[i].state
      ensures all[i].backendSock == view[i].backendSock && view[i].id == i
      ensures all[i].deadline == view[i].deadline && all[i].deadlineGen == view[i].deadlineGen
    {
      all[i].Fields();
      hide ProxyConnection.Snapshot;
    }

    lemma TabledAt(k: nat)
      requires Tabled()
      ensures |view| == |all| == nextId
      ensures k in connById ==> k < |all| && connById[k] == all[k]
      ensures k in connections ==> k < |all| && connections[k] == all[k]
      ensures k < |view| && view[k].state != Done ==> k in connById && k in connections
    {
    }

    /** _schedule_deadline */
    method ScheduleDeadline(conn: ProxyConnection)
      requires Linked() && conn.id < |all| && all[conn.id] == conn && AllIds(view)
      requires TabledBut(view, conn.id) && TimedBut(conn.id)
      modifies this`deadlines, this`connById
      ensures Linked() && Tabled() && TimedBut(-1)
    {
      hide Linked, TabledFor, TabledBut, IsHeap, Faithful, Scheduled, AllIds;
      ghost var id := conn.id;
      LinkedAt(id);
      if conn.state == Done {
        DoneNeedsNone(multiset(deadlines), view, id);
        DoneNeedsNoRow(id);
        return;
      }
      AddToTable(conn);
      ghost var h := multiset(deadlines);
      IdAt(view, id);
      deadlines := Push(deadlines, Entry(conn.deadline, conn.deadlineGen, conn.id));
      PushSchedules(h, view, id);
    }

    lemma DoneNeedsNoRow(i: nat)
      requires TabledBut(view, i) && i < |view| && view[i].state == Done
      ensures Tabled()
    {
    }

    method AddToTable(conn: ProxyConnection)
      requires TabledBut(view, conn.id) && conn.id < |all| && all[conn.id] == conn && view[conn.id].state != Done
      modifies this`connById
      ensures Tabled()
    {
      connById := connById[conn.id := conn];
    }

    /** _select_timeout: the wait until the earliest live deadline, at most one second, by a scan of
        the heap's root that drops stale entries. */
    method SelectTimeout(now: int) returns (t: int)
      requires Valid()
      modifies this`deadlines
      ensures Valid()
      ensures TimeoutFor(t, now, view)
    {
      hide Linked, Tabled, Sound, IsHeap, AllInterests, Faithful, Scheduled, TimeoutFor, AllIds;
      SoundIds();
      while deadlines != []
        invariant Valid()
        decreases |deadlines|
      {
        var root := deadlines[0];
        RootIsFaithful(deadlines, view);
        TabledAt(root.item);
        LinkedAt(root.item);
        if root.item !in connById || connById[root.item].state == Done
          || root.tie != connById[root.item].deadlineGen
        {
          ghost var h := multiset(deadlines);
          var e, rest := PopDue(deadlines);
          deadlines := rest;
          PopSchedules(h, multiset(rest), e, view);
          continue;
        }
        RootIsEarliest(deadlines, view, now);
        var wait := if root.key - now > 0 then root.key - now else 0;
        return if wait < TICK then wait else TICK;
      }
      NothingScheduled(view, now);
      return TICK;
    }

    lemma SoundIds()
      requires Sound()
      ensures AllIds(view)
    {
      hide Inv;
    }

    // ---------- Handler calls ----------

    /** Readies one connection for a handler call. */
    lemma ReadyAt(i: nat)
      requires Linked() && Sound() && i < |all|
      ensures all[i].Valid() && all[i].Ready() && all[i].Snapshot() == view[i] && all[i].router == router
      ensures all[i].id == i && |view| == |all|
    {
      hide Inv, Conserved, ProxyConnection.Snapshot;
      HoldersCovered(router.View(), view, i);
    }

    /** The handler for `ev`, called on connection `i`. */
    method CallHandler(i: nat, ev: Event, net: Net, sweeps: nat -> seq<Mark>, conn: ProxyConnection)
      returns (ghost replies: Replies)
      requires Linked() && Sound() && i < |all| && conn == all[i] && Readable(view[i], ev)
      modifies this`view, router, conn
      ensures Linked() && Sound()
      ensures view == old(view)[i := Step(old(view)[i], ev, net, replies)]
    {
      hide ProxyConnection.Snapshot, ProxyConnection.Valid, ProxyConnection.Ready, Step, Inv, Readable, Moves,
        Conserved, LeastConnectionsRouter.Valid;
      ReadyAt(i);
      ghost var p, cs := router.View(), view;
      assert forall j :: 0 <= j < |all| && j != i ==> all[j] != conn;
      replies := RunHandler(conn, ev, net, sweeps);
      view := view[i := Step(view[i], ev, net, replies)];
      StepInv(cs[i], ev, net, replies);
      StepCounts(cs[i], ev, net, replies);
      ReadyMeans(conn);
      Resound(p, cs, i);
    }

    /** Back in step after one connection moved. */
    lemma Resound(p: Pool, cs: seq<Conn>, i: nat)
      requires router.Valid() && Conserved(p, cs) && AllInv(cs) && i < |cs|
      requires |view| == |cs| && view == cs[i := view[i]] && Inv(view[i]) && view[i].id == i
      requires Moves(p, cs[i], router.View(), view[i])
      ensures Sound()
    {
      hide Inv, Conserved, Moves, LeastConnectionsRouter.Valid;
      MovesConserve(p, cs, i, router.View(), view[i]);
    }

    /** _flush_pending_unregister */
    method FlushPendingUnregister(i: nat, conn: ProxyConnection)
      requires Linked() && Sound() && i < |all| && conn == all[i]
      modifies this`interest, this`view, conn`pendingUnregister
      ensures Linked() && Sound()
      ensures view == old(view)[i := Settled(old(view)[i])]
      ensures interest == Flushed(old(interest), old(view)[i])
    {
      hide Linked, Sound, ProxyConnection.Snapshot, Settled;
      LinkedAt(i);
      conn.Fields();
      if conn.pendingUnregister != None {
        interest := Unregister(interest, conn.pendingUnregister);
        // register, and modify what is registered already
        if conn.backendSock.Some? && (conn.state.ConnectingToBackend? || conn.state.ForwardingRequest?) {
          interest := interest[conn.backendSock.value := Write];
        }
      }
      SettlePending(i, conn);
    }

    method SettlePending(i: nat, conn: ProxyConnection)
      requires Linked() && Sound() && i < |all| && conn == all[i]
      modifies this`view, conn`pendingUnregister
      ensures Linked() && Sound()
      ensures view == old(view)[i := Settled(old(view)[i])]
    {
      hide ProxyConnection.Snapshot, Inv, Conserved, LeastConnectionsRouter.Valid;
      ghost var cs := view;
      assert forall j :: 0 <= j < |all| && j != i ==> all[j] != conn;
      conn.ClearPending();
      view := view[i := Settled(view[i])];
      SettledConserves(router.View(), cs, i);
    }

    /** _transition */
    method UpdateInterest(i: nat, conn: ProxyConnection, prev: State)
      requires Linked() && Sound() && i < |all| && conn == all[i]
      modifies this`interest, this`view, conn`pendingUnregister
      ensures Linked() && Sound()
      ensures view == old(view)[i := Settled(old(view)[i])]
      ensures interest == Transitioned(old(interest), old(view)[i], prev)
    {
      hide Linked, Sound, Flushed;
      LinkedAt(i);
      ghost var c := view[i];
      FlushPendingUnregister(i, conn);
      LinkedAt(i);
      if conn.state == prev {
        return;
      }
      match conn.state {
        case ConnectingToBackend =>
          if conn.backendSock != None {
            interest := Register(interest, conn.backendSock.value, Write);
          }
        case ForwardingRequest =>
          if conn.backendSock != None {
            // modify, and register when there is nothing to modify
            interest := interest[conn.backendSock.value := Write];
          }
        case ReadingResponse =>
          if conn.backendSock != None {
            interest := Modify(interest, conn.backendSock.value, Read);
          }
        case ForwardingResponse =>
          interest := Modify(interest, ClientSock(conn.id), Write);
          interest := Unregister(interest, conn.backendSock);
        case _ =>
      }
    }

    /** One handler call and the updates behind it. */
    method Drive(i: nat, ev: Event, net: Net, sweeps: nat -> seq<Mark>, conn: ProxyConnection)
      returns (ghost replies: Replies)
      requires Working(i)
      requires i < |all| && conn == all[i] && Readable(view[i], ev)
      modifies this`view, this`interest, router, conn
      ensures Working(i)
      ensures view == old(view)[i := Settled(Step(old(view)[i], ev, net, replies))]
    {
      hide Linked, TabledFor, Sound, Step, Readable, TimedBut, AllInterests, AllInv, Settled, Transitioned,
        ProxyConnection.Snapshot;
      LinkedAt(i);
      WorkingParts(i);
      ghost var cs, m := view, interest;
      var prev := conn.state;
      replies := CallHandler(i, ev, net, sweeps, conn);
      UpdateInterest(i, conn, prev);
      DrivenWorks(cs, i, ev, net, replies, m);
    }

    lemma WorkingParts(i: nat)
      requires Working(i)
      ensures TabledFor(view) && AllInv(view) && AllInterests(view, interest)
      ensures IsHeap(deadlines) && Faithful(multiset(deadlines), view) && Scheduled(multiset(deadlines), view, i)
    {
      hide Linked, TabledFor, AllInterests, AllInv, IsHeap, Faithful, Scheduled;
    }

    lemma DrivenWorks(cs: seq<Conn>, i: nat, ev: Event, net: Net, replies: Replies, m: Registrations)
      requires TabledFor(cs) && AllInv(cs) && AllInterests(cs, m) && i < |cs|
      requires IsHeap(deadlines) && Faithful(multiset(deadlines), cs) && Scheduled(multiset(deadlines), cs, i)
      requires view == cs[i := Settled(Step(cs[i], ev, net, replies))]
      requires interest == Transitioned(m, Step(cs[i], ev, net, replies), cs[i].state)
      requires Linked() && Sound()
      ensures Working(i)
    {
      hide Linked, TabledFor, Sound, Step, TimedBut, AllInterests, AllInv, Settled, Transitioned;
      DrivenTabled(cs, i, ev, net, replies);
      DrivenTimed(cs, i, ev, net, replies);
      InterestsAfter(cs, i, ev, net, replies, m);
    }

    lemma DrivenTabled(cs: seq<Conn>, i: nat, ev: Event, net: Net, replies: Replies)
      requires TabledFor(cs) && AllInv(cs) && i < |cs|
      requires view == cs[i := Settled(Step(cs[i], ev, net, replies))]
      ensures Tabled()
    {
      hide Step, Inv, Settled, Advances;
      InvAt(cs, i);
      StepInv(cs[i], ev, net, replies);
      SettledFrame(cs[i], Step(cs[i], ev, net, replies), ev, net, replies);
    }

    lemma DrivenTimed(cs: seq<Conn>, i: nat, ev: Event, net: Net, replies: Replies)
      requires IsHeap(deadlines) && Faithful(multiset(deadlines), cs) && Scheduled(multiset(deadlines), cs, i)
      requires AllInv(cs) && i < |cs|
      requires view == cs[i := Settled(Step(cs[i], ev, net, replies))]
      ensures TimedBut(i)
    {
      hide Step, Inv, Settled, Advances, IsHeap, Faithful, Scheduled;
      InvAt(cs, i);
      StepInv(cs[i], ev, net, replies);
      SettledFrame(cs[i], Step(cs[i], ev, net, replies), ev, net, replies);
      StepFaithful(multiset(deadlines), cs, i, Settled(Step(cs[i], ev, net, replies)));
      StepScheduled(multiset(deadlines), cs, i, Settled(Step(cs[i], ev, net, replies)));
    }

    lemma SoundInv()
      requires Sound()
      ensures AllInv(view)
    {
    }

    // ---------- Dispatch ----------

    /** A call that the events ask for, or none. */
    method DriveIf(asked: bool, i: nat, call: Call, sweeps: nat -> seq<Mark>, conn: ProxyConnection,
                   ghost first: Conn, ghost calls: seq<Call>, ghost replies: seq<Replies>)
      returns (ghost allCalls: seq<Call>, ghost allReplies: seq<Replies>)
      requires Working(i)
      requires i < |all| && conn == all[i] && i < |view|
      requires asked && call.event.OnBackendReadable? ==> Readable(view[i], call.event)
      requires |calls| == |replies| && view[i] == Driven(first, calls, replies)
      modifies this`view, this`interest, router, conn
      ensures Working(i)
      ensures allCalls == calls + Ready(asked, call) && |allCalls| == |allReplies|
      ensures view == old(view)[i := Driven(first, allCalls, allReplies)]
      ensures !asked ==> view == old(view)
    {
      hide Working, Step, Readable, Settled;
      allCalls, allReplies := calls, replies;
      if asked {
        NotReading(view[i], call.event);
        ghost var r := Drive(i, call.event, call.net, sweeps, conn);
        allCalls, allReplies := calls + [call], replies + [r];
        DrivenOnce(first, calls, call, replies, r);
      }
    }

    /** The handler calls of _dispatch on one of the two sockets, if the event is for it. */
    method CallHandlers(mine: bool, i: nat, conn: ProxyConnection, readable: bool, writable: bool,
                        read: Call, write: Call, readSweeps: nat -> seq<Mark>, writeSweeps: nat -> seq<Mark>,
                        ghost first: Conn, ghost calls: seq<Call>, ghost replies: seq<Replies>)
      returns (ghost allCalls: seq<Call>, ghost allReplies: seq<Replies>)
      requires Working(i)
      requires i < |all| && conn == all[i] && i < |view|
      requires mine && readable && read.event.OnBackendReadable? ==> Readable(view[i], read.event)
      requires !write.event.OnBackendReadable?
      requires |calls| == |replies| && view[i] == Driven(first, calls, replies)
      modifies this`view, this`interest, router, conn
      ensures Working(i)
      ensures allCalls == calls + Ready(mine && readable, read) + Ready(mine && writable, write)
      ensures |allCalls| == |allReplies|
      ensures view == old(view)[i := Driven(first, allCalls, allReplies)]
      ensures !mine ==> view == old(view)
    {
      hide Working, Step, Readable, Settled, Driven;
      allCalls, allReplies := DriveIf(mine && readable, i, read, readSweeps, conn, first, calls, replies);
      allCalls, allReplies := DriveIf(mine && writable, i, write, writeSweeps, conn, first, allCalls, allReplies);
    }

    /** Both halves of _dispatch, the client's and the backend's. */
    method CallBothHandlers(i: nat, conn: ProxyConnection, sock: Sock, readable: bool, writable: bool, o: Outcomes,
                            sweeps: nat -> nat -> seq<Mark>)
      returns (ghost replies: seq<Replies>)
      requires Working(i)
      requires i < |all| && conn == all[i] && i < |view| && OwnSock(view[i])
      requires conn.id == view[i].id && conn.backendSock == view[i].backendSock
      requires conn.backendSock == Some(sock) && readable
               ==> Readable(view[i], OnBackendReadable(o.backendRecv))
      modifies this`view, this`interest, router, conn
      ensures Working(i)
      ensures var calls := Calls(old(view)[i], sock, readable, writable, o);
              |replies| == |calls| && view == old(view)[i := Driven(old(view)[i], calls, replies)]
    {
      hide Working, Step, Readable, Settled, Inv, Ready;
      ghost var c := view[i];
      SocketsDiffer(c, sock);
      var isClient := sock == ClientSock(conn.id);
      var isBackend := conn.backendSock == Some(sock);
      ghost var calls: seq<Call> := [];
      replies := [];
      calls, replies := CallHandlers(isClient, i, conn, readable, writable,
        Call(OnClientReadable(o.clientRecv), o.net(0)), Call(OnClientWritable(o.clientSent), o.net(1)),
        sweeps(0), sweeps(1), c, calls, replies);
      calls, replies := CallHandlers(isBackend, i, conn, readable, writable,
        Call(OnBackendReadable(o.backendRecv), o.net(2)), Call(OnBackendWritable(o.connectOk, o.backendSent), o.net(3)),
        sweeps(2), sweeps(3), c, calls, replies);
      assert calls == Calls(c, sock, readable, writable, o);
    }

    /** _dispatch */
    method Dispatch(i: nat, conn: ProxyConnection, sock: Sock, readable: bool, writable: bool, o: Outcomes,
                    sweeps: nat -> nat -> seq<Mark>)
      returns (ghost replies: seq<Replies>)
      requires Valid() && i < |all| && conn == all[i]
      requires conn.backendSock == Some(sock) && readable
               ==> Readable(conn.Snapshot(), OnBackendReadable(o.backendRecv))
      modifies this`view, this`interest, this`deadlines, this`connById, router, conn
      ensures Valid() && |view| == |old(view)|
      ensures forall j :: 0 <= j < |view| && j != i ==> view[j] == old(view)[j]
      // the client's socket: one handler, or the two in this order
      ensures sock == ClientSock(i) ==> OneSocket(old(view)[i], view[i], readable, writable, replies,
                OnClientReadable(o.clientRecv), o.net(0), OnClientWritable(o.clientSent), o.net(1))
      // the current backend's socket: likewise
      ensures old(view)[i].backendSock == Some(sock) ==> OneSocket(old(view)[i], view[i], readable, writable, replies,
                OnBackendReadable(o.backendRecv), o.net(2), OnBackendWritable(o.connectOk, o.backendSent), o.net(3))
      // any other socket: nothing
      ensures sock != ClientSock(i) && old(view)[i].backendSock != Some(sock) ==> view == old(view)
    {
      hide Linked, TabledFor, TabledBut, Sound, Readable, TimedBut, AllInterests, Settled, Inv, ProxyConnection.Snapshot,
        Driven, Calls, OneSocket;
      LinkedAt(i);
      SoundInv();
      InterestsOwn(view, interest);
      Loosen(i);
      replies := CallBothHandlers(i, conn, sock, readable, writable, o, sweeps);
      CallsMean(old(view)[i], i, sock, readable, writable, o, replies);
      ghost var cs := view;
      SettledAlready(i);
      FlushPendingUnregister(i, conn);
      assert view == cs;
      LinkedAt(i);
      SoundIds();
      AllTabled(i);
      ScheduleDeadline(conn);
    }

    lemma Loosen(i: nat)
      requires TimedBut(-1)
      ensures TimedBut(i)
    {
    }

    lemma AllTabled(i: nat)
      requires Tabled()
      ensures TabledBut(view, i)
    {
    }

    /** Behind _transition nothing is pending. */
    lemma SettledAlready(i: nat)
      requires AllInterests(view, interest) && Sound() && i < |view|
      ensures Settled(view[i]) == view[i] && Flushed(interest, view[i]) == interest
    {
      SoundInv();
      OneInterest(view, i, interest);
      hide Inv, Matches;
    }

    // ---------- Expiry ----------

    /** The entry at the root is dropped for a stale or finished connection. */
    method DropRoot(ghost e: Due)
      requires deadlines != [] && e == deadlines[0] && TimedBut(-1) && AllIds(view)
      requires e.item < |view| && (view[e.item].state == Done || e.tie != view[e.item].deadlineGen)
      modifies this`deadlines
      ensures TimedBut(-1) && |deadlines| == |old(deadlines)| - 1
    {
      hide IsHeap, Faithful, Scheduled, AllIds;
      ghost var h := multiset(deadlines);
      var x, rest := PopDue(deadlines);
      deadlines := rest;
      PopSchedules(h, multiset(rest), e, view);
    }

    /** The connection of the entry at the root has run out of time. */
    method TimeOutRoot(i: nat, conn: ProxyConnection, net: Net, sweeps: nat -> seq<Mark>)
      requires Valid() && deadlines != [] && i == deadlines[0].item && i < |all| && conn == all[i]
      requires i < |view| && view[i].state != Done
      modifies this`deadlines, this`view, router, conn
      ensures Valid() && |deadlines| == |old(deadlines)| - 1
      ensures view == old(view)[i := TimedOut(old(view)[i], net)]
    {
      hide Linked, TabledFor, Sound, IsHeap, Faithful, Scheduled, AllInterests, TimedOut, AllIds, AllInv, Readable;
      SoundIds();
      SoundInv();
      ghost var cs, h := view, multiset(deadlines);
      ghost var e := deadlines[0];
      var x, rest := PopDue(deadlines);
      deadlines := rest;
      NotReading(cs[i], OnTimeout);
      ghost var replies := CallHandler(i, OnTimeout, net, sweeps, conn);
      TimedOutMoves(cs, i, net, interest);
      ExpireSchedules(h, multiset(rest), e, cs, view[i]);
      EndedTabled(cs, i);
    }

    lemma EndedTabled(cs: seq<Conn>, i: nat)
      requires TabledFor(cs) && i < |cs| == |view| && view == cs[i := view[i]] && view[i].state == Done
      ensures Tabled()
    {
    }

    /** _expire_timeouts: handle_timeout runs on exactly the live connections whose current deadline
        has come, once each, and leaves each of them done. */
    method ExpireTimeouts(now: int, nets: nat -> Net, sweeps: nat -> nat -> seq<Mark>)
      requires Valid()
      modifies this`deadlines, this`view, router, all
      ensures Valid()
      ensures |view| == |old(view)|
      ensures forall i :: 0 <= i < |view| ==>
                view[i] == if old(view)[i].state != Done && old(view)[i].deadline <= now
                           then TimedOut(old(view)[i], nets(i)) else old(view)[i]
    {
      hide Linked, TabledFor, Sound, IsHeap, Faithful, Scheduled, AllInterests, TimedOut, AllIds, Expiring;
      ghost var cs := view;
      ExpiringStarts(cs, now, nets);
      while deadlines != []
        invariant Valid() && Expiring(cs, view, now, nets)
        decreases |deadlines|
      {
        var root := deadlines[0];
        if root.key > now {
          break;
        }
        SoundIds();
        RootIsFaithful(deadlines, view);
        TabledAt(root.item);
        LinkedAt(root.item);
        if root.item !in connById || connById[root.item].state == Done
          || root.tie != connById[root.item].deadlineGen
        {
          DropRoot(root);
          continue;
        }
        ghost var was := view;
        TimeOutRoot(root.item, connById[root.item], nets(root.item), sweeps(root.item));
        ExpiringOne(cs, was, root.item, now, nets);
      }
      SoundIds();
      NoneOverdue(deadlines, view, now);
      ExpiringEnds(cs, view, now, nets);
    }

    // ---------- Accept ----------

    /** A new connection, registered and in the table by descriptor. */
    method AddConnection(clientIp: string, now: int) returns (conn: ProxyConnection)
      requires Valid()
      modifies this`interest, this`connections, this`all, this`view, this`nextId
      ensures Linked() && Sound() && AllInterests(view, interest)
      ensures |view| == |all| && conn.id == |all| - 1 && all[conn.id] == conn
      ensures TabledBut(view, conn.id) && TimedBut(conn.id)
      ensures view == old(view) + [Start(|old(view)|, clientIp, now)]
    {
      hide Linked, ProxyConnection.Snapshot, LeastConnectionsRouter.Valid, Inv, Conserved, IsHeap, Faithful, Scheduled,
        AllInterests, AllIds, AllInv, Start;
      ghost var cs := view;
      SoundInv();
      TabledNow();
      AcceptedInterests(cs, clientIp, now, interest);
      AcceptedSound(Start(|cs|, clientIp, now), clientIp, now);
      AcceptSchedules(multiset(deadlines), cs, Start(|cs|, clientIp, now));
      conn := new ProxyConnection(nextId, clientIp, router, now);
      conn.Fields();
      StartFacts(|cs|, clientIp, now);
      interest := Register(interest, ClientSock(nextId), Read);
      connections := connections[nextId := conn];
      LinkNew(conn);
      nextId := nextId + 1;
    }

    ghost method LinkNew(conn: ProxyConnection)
      requires Linked() && conn.id == |all| && conn.router == router
      modifies this`all, this`view
      ensures all == old(all) + [conn] && view == old(view) + [conn.Snapshot()] && Linked()
    {
      hide ProxyConnection.Snapshot;
      all := all + [conn];
      view := view + [conn.Snapshot()];
    }

    lemma TabledNow()
      requires Linked()
      ensures |view| == |all|
    {
    }

    lemma AcceptedSound(c: Conn, clientIp: string, now: int)
      requires Sound() && c == Start(|view|, clientIp, now)
      ensures Conserved(router.View(), view + [c]) && AllInv(view + [c])
    {
      hide LeastConnectionsRouter.Valid, Inv, Conserved, Start;
      StartFacts(|view|, clientIp, now);
      AcceptConserves(router.View(), view, c);
    }

    /** One turn of _accept's loop. */
    method AcceptOne(clientIp: string, now: int)
      requires Valid()
      modifies this
      ensures Valid()
      ensures view == old(view) + [Start(|old(view)|, clientIp, now)]
    {
      hide Linked, TabledFor, TabledBut, Sound, TimedBut, AllInterests, Start;
      var conn := AddConnection(clientIp, now);
      SoundIds();
      ScheduleDeadline(conn);
    }

    /** _accept: every client waiting becomes a connection. */
    method Accept(clients: seq<(string, int)>)
      requires Valid()
      modifies this
      ensures Valid() && |view| == |old(view)| + |clients|
      ensures view[..|old(view)|] == old(view)
      ensures forall k :: 0 <= k < |clients| ==>
                view[|old(view)| + k] == Start(|old(view)| + k, clients[k].0, clients[k].1)
    {
      hide Linked, Tabled, Sound, TimedBut, AllInterests, Start;
      var n := 0;
      while n < |clients|
        invariant 0 <= n <= |clients| && Valid()
        invariant |view| == |old(view)| + n && view[..|old(view)|] == old(view)
        invariant forall k :: 0 <= k < n ==>
                    view[|old(view)| + k] == Start(|old(view)| + k, clients[k].0, clients[k].1)
      {
        AcceptOne(clients[n].0, clients[n].1);
        n := n + 1;
      }
    }

    // ---------- Reap ----------

    /** Of the connections `known`, those in `gone` are removed and those in `dead` are still to be. */
    ghost predicate Reaping(known: map<nat, ProxyConnection>, gone: set<nat>, dead: set<nat>)
      reads this`all, this`view, this`connections, this`connById, this`nextId
    {
      && Tabled() && gone !! dead
      && connections == known - gone
      && (forall k :: k in known ==> k < |view| && known[k] == all[k])
      && (forall k :: k in known && view[k].state == Done <==> k in gone || k in dead)
    }

    lemma ReapingStarts(known: map<nat, ProxyConnection>, dead: set<nat>)
      requires Linked() && Tabled() && known == connections
      requires dead == set k | k in connections && connections[k].state == Done
      ensures Reaping(known, {}, dead)
    {
      forall k | k in known ensures k < |view| && known[k] == all[k] && known[k].state == view[k].state {
        TabledAt(k);
        LinkedAt(k);
      }
    }

    lemma ReapingAt(known: map<nat, ProxyConnection>, gone: set<nat>, dead: set<nat>, k: nat)
      requires Reaping(known, gone, dead) && k in dead
      ensures |view| == |all| && k < |all| && k in connections && connections[k] == all[k]
    {
    }

    /** One more removed. */
    lemma ReapedAt(known: map<nat, ProxyConnection>, gone: set<nat>, k: nat)
      requires k < |view| && Linked() && AllOwn(view)
      ensures view[k].id == k && OwnSock(view[k]) && all[k].id == k && all[k].backendSock == view[k].backendSock
    {
      LinkedAt(k);
    }

    lemma ReapingEnds(known: map<nat, ProxyConnection>, gone: set<nat>)
      requires Reaping(known, gone, {})
      ensures Tabled() && gone == Finished(known.Keys, view)
      ensures forall k :: k in gone ==> k < |view| && view[k].state == Done
      ensures forall k: nat :: k in connections <==> k < |view| && view[k].state != Done
    {
    }

    /** _reap: the tables keep exactly the live connections, and the sockets of the connections
        removed are no longer registered. */
    method Reap()
      requires Valid()
      modifies this`connections, this`connById, this`interest
      ensures Valid()
      ensures forall k: nat :: k in connections <==> k < |view| && view[k].state != Done
      ensures forall k: nat :: k in connById <==> k < |view| && view[k].state != Done
      // unregistered are exactly the client's and the current backend's socket of those removed
      ensures forall s: Sock :: s in interest <==>
                s in old(interest)
                && !(s.conn in old(connections) && s.conn < |view| && view[s.conn].state == Done
                     && (s == ClientSock(s.conn) || view[s.conn].backendSock == Some(s)))
      ensures forall s: Sock :: s in interest ==> interest[s] == old(interest)[s]
    {
      hide Linked, TabledFor, Sound, TimedBut, AllInterests, AllOwn, OwnSock, Finished, Without, AllInv;
      ghost var known, m := connections, interest;
      var dead := set k | k in connections && connections[k].state == Done;
      ghost var gone: set<nat> := {};
      ReapingStarts(known, dead);
      NoneDead(m, view);
      InterestsOwn(view, m);
      while dead != {}
        invariant Linked() && Reaping(known, gone, dead) && interest == Without(m, view, gone)
        decreases dead
      {
        var k :| k in dead;
        ReapingAt(known, gone, dead, k);
        ReapedAt(known, gone, k);
        var conn := connections[k];
        interest := Unregister(Unregister(interest, Some(ClientSock(conn.id))), conn.backendSock);
        ReapedOne(m, view, gone, k);
        DropDead(known, gone, dead, k);
        dead := dead - {k};
        gone := gone + {k};
      }
      SoundInv();
      ReapingEnds(known, gone);
      TablesAgree();
      WithoutIs(m, view, known.Keys, gone);
      AllInterestsWithout(view, m, gone);
    }

    lemma TablesAgree()
      requires Tabled()
      requires forall k: nat :: k in connections <==> k < |view| && view[k].state != Done
      ensures forall k: nat :: k in connById <==> k < |view| && view[k].state != Done
    {
    }

    /** Out of both tables. */
    method DropDead(ghost known: map<nat, ProxyConnection>, ghost gone: set<nat>, ghost dead: set<nat>, k: nat)
      requires Reaping(known, gone, dead) && k in dead
      modifies this`connections, this`connById
      ensures Reaping(known, gone + {k}, dead - {k})
    {
      hide TabledFor;
      Forget(k);
      assert known - gone - {k} == known - (gone + {k});
    }

    method Forget(k: nat)
      requires Tabled() && k < |view| && view[k].state == Done
      modifies this`connections, this`connById
      ensures Tabled() && connections == old(connections) - {k}
    {
      connections := connections - {k};
      connById := connById - {k};
    }
  }
}
