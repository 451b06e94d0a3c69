/** connection.py as functions on values: each handler maps a connection's state, the outcome of
    its socket calls and the router's replies to the next state. */
module Protocol {
  import opened Wrappers
  import opened Bytes
  import opened Http
  import opened PyInt
  import opened Pools
  import Chunked
  import Loops

  // ---------- Configuration ----------

  const MAX_REQUEST_SIZE := 10 * 1024 * 1024
  const MAX_BACKEND_RETRIES: nat := 2
  const IDEMPOTENT_METHODS := {"GET", "HEAD", "OPTIONS", "PUT", "DELETE"}

  // timeouts in milliseconds
  const CLIENT_IDLE_TIMEOUT := 30_000
  const CONNECT_TIMEOUT := 5_000
  const BACKEND_TIMEOUT := 30_000
  const CLIENT_SEND_TIMEOUT := 30_000

  // ---------- State ----------

  datatype State =
    | ReadingRequest
    | ConnectingToBackend
    | ForwardingRequest
    | ReadingResponse
    | ForwardingResponse
    | Done

  /** Sockets by identity: the client's, and one per backend attempt. */
  datatype Sock = ClientSock(conn: nat) | BackendSock(conn: nat, attempt: nat)

  /** One backend socket's life: whom it was opened to, and all that went over it. */
  datatype Session = Session(backend: Backend, sent: string, received: string)

  datatype Conn = Conn(
    id: nat,
    clientIp: string,
    state: State,
    backendSock: Option<Sock>,
    backendAddr: Option<Backend>,
    requestBuf: string,
    parsed: Option<Request>,
    forwardBuf: string,
    forwardOffset: nat,
    responseBuf: string,
    headersDone: bool,
    contentLength: int,
    bodyReceived: int,
    isChunked: bool,
    relayBuf: string,
    relayOffset: nat,
    tried: set<Backend>,
    attempts: nat,
    clientBytesSent: bool,
    notified: bool,
    pendingUnregister: Option<Sock>,
    deadline: int,
    deadlineGen: nat,
    // history: not read by the handlers
    sessions: seq<Session>,
    clientOut: string,       // every byte the client was given
    page: Option<string>,    // the error page, once one was generated
    aborted: bool,           // ended because a send to the client failed
    changes: nat)            // changes of `state`

  // ---------- Outcomes of socket calls ----------

  datatype Io<T> = Ok(value: T) | WouldBlock | Failed

  datatype ConnectResult = Connected | InProgress | Refused

  /** `sendall`: all bytes, or an error after some of them. */
  datatype SendAll = AllSent | Broken(sent: nat)

  /** What the outside contributes to one handler call: the clock at its last reading, the result
      of the connect of each attempt, and how sending an error page goes. */
  datatype Net = Net(now: int, connect: nat -> ConnectResult, sendAll: SendAll)

  /** next_backend's answers during one handler call, in order. */
  type Replies = seq<Option<Backend>>

  /** The first answer; the router never returns an excluded backend. */
  function Reply(replies: Replies, exclude: set<Backend>): Option<Backend> {
    if replies != [] && replies[0].Some? && replies[0].value !in exclude then replies[0] else None
  }

  function Later(replies: Replies): Replies {
    if replies == [] then [] else replies[1..]
  }

  // ---------- Parts of the handlers ----------

  function SetState(c: Conn, s: State): Conn {
    c.(state := s, changes := if s == c.state then c.changes else c.changes + 1)
  }

  function TimeoutOf(s: State): Option<int> {
    match s
    case ReadingRequest => Some(CLIENT_IDLE_TIMEOUT)
    case ConnectingToBackend => Some(CONNECT_TIMEOUT)
    case ForwardingRequest => Some(BACKEND_TIMEOUT)
    case ReadingResponse => Some(BACKEND_TIMEOUT)
    case ForwardingResponse => Some(CLIENT_SEND_TIMEOUT)
    case Done => None
  }

  /** refresh_deadline */
  function Refresh(c: Conn, now: int): Conn {
    match TimeoutOf(c.state)
    case None => c
    case Some(t) => c.(deadlineGen := c.deadlineGen + 1, deadline := now + t)
  }

  function Enter(c: Conn, s: State, now: int): Conn {
    Refresh(SetState(c, s), now)
  }

  function Min(a: nat, b: nat): nat {
    if a < b then a else b
  }

  function ErrorPage(code: nat, reason: string): string {
    var body := "<h1>" + Decimal(code) + " " + reason + "</h1>";
    "HTTP/1.1 " + Decimal(code) + " " + reason + CRLF
    + "Content-Length: " + Decimal(|body|) + CRLF
    + "Content-Type: text/html" + CRLF
    + "Connection: close" + CRLF
    + CRLF
    + body
  }

  /** The router is told of the disconnect, once. */
  function Notify(c: Conn): Conn {
    c.(notified := c.notified || c.backendAddr.Some?)
  }

  /** _finish */
  function Finish(c: Conn): Conn {
    SetState(Notify(c), Done)
  }

  /** _send_error */
  function SendError(c: Conn, code: nat, reason: string, net: Net): Conn {
    var page := ErrorPage(code, reason);
    var given := match net.sendAll case AllSent => |page| case Broken(k) => Min(k, |page|);
    Finish(c.(page := Some(page),
              clientOut := c.clientOut + page[..given],
              clientBytesSent := c.clientBytesSent || net.sendAll.AllSent?))
  }

  predicate IsIdempotent(r: Request) {
    Upper(r.verb) in IDEMPOTENT_METHODS
  }

  /** _can_retry */
  predicate CanRetry(c: Conn) {
    && !c.clientBytesSent
    && c.parsed.Some?
    && IsIdempotent(c.parsed.value)
    && c.attempts <= MAX_BACKEND_RETRIES
  }

  /** The first half of _fail_backend: release the backend, drop its socket, remember it. */
  function Abandon(c: Conn): Conn {
    Notify(c).(
      pendingUnregister := if c.backendSock.Some? then c.backendSock else c.pendingUnregister,
      backendSock := None,
      tried := if c.backendAddr.Some? then c.tried + {c.backendAddr.value} else c.tried)
  }

  /** Forgets all of the previous backend's response. */
  function ClearResponse(c: Conn): Conn {
    c.(responseBuf := "",
       headersDone := false,
       contentLength := -1,
       bodyReceived := 0,
       isChunked := false)
  }

  /** The resets before a retry. */
  function Retarget(c: Conn, b: Backend): Conn {
    ClearResponse(c.(backendAddr := Some(b),
                     attempts := c.attempts + 1,
                     notified := false,
                     forwardOffset := 0))
  }

  /** A new backend socket and its history. */
  function OpenSocket(c: Conn, b: Backend, now: int): Conn {
    Enter(c, ConnectingToBackend, now).(
      backendSock := Some(BackendSock(c.id, c.attempts)),
      sessions := c.sessions + [Session(b, "", "")])
  }

  /** _initiate_backend_connect */
  function Initiate(c: Conn, b: Backend, net: Net, replies: Replies): Conn
    decreases MAX_BACKEND_RETRIES + 1 - c.attempts, 1
  {
    var d := OpenSocket(c, b, net.now);
    match net.connect(c.attempts)
    case Connected => Enter(d, ForwardingRequest, net.now)
    case InProgress => d
    case Refused => FailBackend(d, net, replies)
  }

  /** _fail_backend */
  function FailBackend(c: Conn, net: Net, replies: Replies): Conn
    decreases MAX_BACKEND_RETRIES + 1 - c.attempts, 0
  {
    var d := Abandon(c);
    var reply := Reply(replies, d.tried);
    if CanRetry(d) && reply.Some? then
      Initiate(Retarget(d, reply.value), reply.value, net, Later(replies))
    else
      SendError(d, 502, "Bad Gateway", net)
  }

  /** _prepare_relay */
  function PrepareRelay(c: Conn, now: int): Conn {
    Enter(c.(relayBuf := c.responseBuf, relayOffset := 0), ForwardingResponse, now)
  }

  /** `n` more bytes of the request went to the current backend. */
  function RecordSent(c: Conn, n: nat): Conn {
    if c.sessions == [] || c.forwardOffset + n > |c.forwardBuf| then c
    else
      var last := |c.sessions| - 1;
      var s := c.sessions[last];
      c.(sessions := c.sessions[last := s.(sent := s.sent + c.forwardBuf[c.forwardOffset..c.forwardOffset + n])])
  }

  /** Bytes arrived from the current backend. */
  function RecordReceived(c: Conn, data: string): Conn {
    if c.sessions == [] then c
    else
      var last := |c.sessions| - 1;
      var s := c.sessions[last];
      c.(sessions := c.sessions[last := s.(received := s.received + data)])
  }

  /** try_consume_chunked_body's answer. Where the scanner's loop never ends there is none. */
  ghost function ChunkedLength(body: string): Option<int> {
    if r: Option<int> :| Loops.Returns(Chunked.Turns(body), r) then r else None
  }

  /** The body received so far, behind the header section. */
  function BodyOf(buf: string): string {
    var h := Find(buf, DELIM, 0);
    if h == -1 then "" else buf[h + |DELIM|..]
  }

  // ---------- Handlers ----------

  /** A complete request was parsed: inject, serialise, pick a backend. */
  function Dispatch(c: Conn, req: Request, net: Net, replies: Replies): Conn {
    var injected := Inject(req, c.clientIp);
    var d := c.(parsed := Some(injected), forwardBuf := Serialise(injected), forwardOffset := 0);
    match Reply(replies, {})
    case None => SendError(d, 503, "Service Unavailable", net)
    case Some(b) =>
      Initiate(d.(backendAddr := Some(b), attempts := 1, notified := false), b, net, Later(replies))
  }

  /** handle_client_readable */
  function ClientReadable(c: Conn, recv: Io<string>, net: Net, replies: Replies): Conn {
    if c.state != ReadingRequest then c
    else
      match recv
      case WouldBlock => c
      case Failed => SetState(c, Done)
      case Ok(data) =>
        if data == "" then SetState(c, Done)
        else
          var d := Refresh(c.(requestBuf := c.requestBuf + data), net.now);
          if |d.requestBuf| > MAX_REQUEST_SIZE then SendError(d, 413, "Request Entity Too Large", net)
          else
            match ParseRequest(d.requestBuf)
            case None => d
            case Some(req) => Dispatch(d, req, net, replies)
  }

  /** `n` bytes were sent to the backend. */
  function RequestSent(c: Conn, n: nat, now: int): Conn {
    var d := RecordSent(if n > 0 then Refresh(c, now) else c, n).(forwardOffset := c.forwardOffset + n);
    if d.forwardOffset >= |d.forwardBuf| then Enter(d, ReadingResponse, now) else d
  }

  /** handle_backend_writable */
  function BackendWritable(c: Conn, connectOk: bool, send: Io<nat>, net: Net, replies: Replies): Conn {
    if c.state == ConnectingToBackend && !connectOk then FailBackend(c, net, replies)
    else
      var d := if c.state == ConnectingToBackend then Enter(c, ForwardingRequest, net.now) else c;
      if d.state != ForwardingRequest then d
      else
        match send
        case WouldBlock => d
        case Failed => FailBackend(d, net, replies)
        case Ok(k) =>
          var rest := if d.forwardOffset < |d.forwardBuf| then |d.forwardBuf| - d.forwardOffset else 0;
          RequestSent(d, Min(k, rest), net.now)
  }

  /** The header section is scanned once, when it is complete. */
  function NoteHeaders(c: Conn): Conn {
    var h := Find(c.responseBuf, DELIM, 0);
    if c.headersDone || h == -1 then c
    else
      var chunked := IsChunked(c.responseBuf) == Some(true);
      c.(headersDone := true,
         isChunked := chunked,
         contentLength := if chunked then -1 else ResponseContentLength(c.responseBuf),
         bodyReceived := |c.responseBuf| - (h + |DELIM|))
  }

  /** Relays the response once its framing says that it is complete. */
  ghost function CheckComplete(c: Conn, now: int): Conn {
    var body := BodyOf(c.responseBuf);
    if !c.headersDone then c
    else if c.isChunked then
      match ChunkedLength(body)
      case None => c
      case Some(n) =>
        PrepareRelay(c.(responseBuf := PySlice(c.responseBuf, 0, |c.responseBuf| - |body| + n)), now)
    else
      var d := c.(bodyReceived := |body|);
      if 0 <= c.contentLength <= |body| then PrepareRelay(d, now) else d
  }

  ghost function ResponseReceived(c: Conn, data: string, now: int): Conn {
    CheckComplete(NoteHeaders(Refresh(RecordReceived(c, data).(responseBuf := c.responseBuf + data), now)), now)
  }

  /** handle_backend_readable */
  ghost function BackendReadable(c: Conn, recv: Io<string>, net: Net, replies: Replies): Conn {
    if c.state != ReadingResponse then c
    else
      match recv
      case WouldBlock => c
      case Failed => FailBackend(c, net, replies)
      case Ok(data) =>
        if data != "" then ResponseReceived(c, data, net.now)
        else if c.isChunked && c.headersDone && ChunkedLength(BodyOf(c.responseBuf)).None? then
          FailBackend(c, net, replies)
        else PrepareRelay(c, net.now)
  }

  /** `n` bytes, `part`, were sent to the client. */
  function Relayed(c: Conn, n: nat, part: string, now: int): Conn {
    var d := if n > 0 then Refresh(c.(clientBytesSent := true), now) else c;
    var e := d.(relayOffset := d.relayOffset + n, clientOut := d.clientOut + part);
    if e.relayOffset >= |e.relayBuf| then Finish(e) else e
  }

  /** handle_client_writable */
  function ClientWritable(c: Conn, send: Io<nat>, net: Net): Conn {
    if c.state != ForwardingResponse then c
    else
      match send
      case WouldBlock => c
      case Failed => SetState(c.(aborted := true), Done)
      case Ok(k) =>
        var rest := if c.relayOffset < |c.relayBuf| then c.relayBuf[c.relayOffset..] else "";
        var n := Min(k, |rest|);
        Relayed(c, n, rest[..n], net.now)
  }

  /** handle_timeout */
  function TimedOut(c: Conn, net: Net): Conn {
    if c.state == Done then c
    else if c.state == ReadingRequest then SendError(c, 408, "Request Timeout", net)
    else if c.clientBytesSent then SetState(Notify(c), Done)
    else SendError(c, 504, "Gateway Timeout", net)
  }

  // ---------- Runs ----------

  datatype Event =
    | OnClientReadable(recv: Io<string>)
    | OnClientWritable(sent: Io<nat>)
    | OnBackendReadable(recv: Io<string>)
    | OnBackendWritable(connectOk: bool, sent: Io<nat>)
    | OnTimeout

  ghost function Step(c: Conn, ev: Event, net: Net, replies: Replies): Conn {
    match ev
    case OnClientReadable(recv) => ClientReadable(c, recv, net, replies)
    case OnClientWritable(sent) => ClientWritable(c, sent, net)
    case OnBackendReadable(recv) => BackendReadable(c, recv, net, replies)
    case OnBackendWritable(ok, sent) => BackendWritable(c, ok, sent, net, replies)
    case OnTimeout => TimedOut(c, net)
  }

  function Start(id: nat, clientIp: string, now: int): Conn {
    Refresh(Conn(id, clientIp, ReadingRequest, None, None, "", None, "", 0, "", false, -1, 0, false,
                 "", 0, {}, 0, false, false, None, 0, 0, [], "", None, false, 0), now)
  }

  datatype Input = Input(event: Event, net: Net, replies: Replies)

  /** The connection after any sequence of handler calls, with any outcomes. */
  ghost function Run(c: Conn, inputs: seq<Input>): Conn
    decreases |inputs|
  {
    if inputs == [] then c
    else
      var last := inputs[|inputs| - 1];
      Step(Run(c, inputs[..|inputs| - 1]), last.event, last.net, last.replies)
  }

  /** The connection occupies one of `b`'s slots in the router's counts. */
  predicate Holds(c: Conn, b: Backend) {
    c.backendAddr == Some(b) && !c.notified
  }
}
