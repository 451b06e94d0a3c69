# A reverse-proxy load balancer, modelled and proved

The repository is a single-threaded, non-blocking HTTP load balancer. A reactor multiplexes client
and backend sockets; one state machine per client connection reads a request, forwards it to a
backend picked by a router, retries other backends when that is safe, reads the whole response and
relays it. A health checker marks backends up and down from another thread.

This project models the four components that carry that behaviour and proves what they promise
together:

- **Routers.** `RoundRobin` is the rotating pool; `LeastConnections` is the min-heap with lazy
  deletion beside canonical counts. The heap is a real binary heap (`HeapQ`), in which stale,
  duplicate, unhealthy, excluded and resurrected entries coexist. `Pools` is the abstract state that
  the heap refines: a set of healthy backends and a count for each. `LeastConnectionsRotation` follows
  sequential load through the heap.
- **HTTP.** `Chunked` is the scanner of chunked bodies, as a loop over positions that may run
  backwards; `ChunkedFraming` and `ChunkedEncoding` relate it to section 4.1 of RFC 7230. `Http` and
  `HttpRoundTrip` are request parsing, header injection and serialisation, and `HeaderText` says what the
  parser makes of any other text: white space, casing, repeated, malformed and missing lines. Digits,
  letters and white space are pinned by tables. Text is latin-1, one
  character per byte, and slices have Python's bounds.
- **The connection.** `Protocol` gives every handler as a function from the connection, the outcome of
  its socket calls and the router's replies to the next connection. `ProtocolInvariant` and
  `ProtocolRuns` prove what holds over all runs, `Fragmentation` that the cut of a stream into TCP
  pieces does not matter, and `EndToEnd` puts them together over a whole exchange. `Handlers` says in plain terms
  what each handler does: pages, deadlines, retries, bytes sent and given. `Connection` is the mutable object: its methods are proved to do what
  `Protocol` says, to move the counts of a real least-connections router exactly with the slots
  the connection holds, and to ask that router for every backend they open.
- **The reactor.** `Selector` is the selector bookkeeping of one handler call, `Accounting` the slots
  and deadlines of all connections as values, and `Reactor` the mutable object that ties connections,
  router, deadline heap, tables and selector together under one invariant.

Histories (what was sent over each backend socket, what the client was given, how many state changes
there were) are kept beside the state and never read by the code.

`Witnesses` holds concrete inputs and runs on which the code does what the conditions say it can.

Findings about the code, each with its exact condition and with an input or a run on which it shows:

- The chunk scanner accepts signed sizes, and with a negative one its loop need not end. It always ends
  where no size below -5 is met (`ForwardHalts`): -2 moves it just behind the size line, and -1, -3, -4 and
  -5 stop it. It never ends exactly when it meets a size below -5 twice at one position (`EndlessIff`), as
  it does with -6 (`NegativeSizeLoops`).
- More bytes behind a complete chunked body can move its end to the right, exactly when the bare CRLF
  ending was used and CRLFCRLF now occurs behind the last-chunk line (`ScanExtend`, `EndMoves`).
- A negative request Content-Length breaks the parse-after-serialise round trip exactly when it left a
  non-empty body (`ParseAfterSerialise`, `NegativeLengthWitness`), and makes a parse depend on later bytes
  exactly when the computed end of the body lies in front of the buffer (`ParseFinalIff`,
  `NotFinalWitness`).
- A failed send to the client ends a connection without releasing its backend's slot; this is the only
  way to reach DONE so (`DoneReleasesUnlessAborted`, `HoldersAre`, `SlotKept`).
- When a backend fails and the retry's connect is refused within the same handler call, the single slot
  for a socket to unregister names the second socket, and the first stays registered; exactly then
  (`StaleIffSecondFailure`, `SocketStaysBehind`).
- The claim of tests/TESTING.md that sequential requests rotate over the backends is true, though the
  reason given there (equal counts) is not enough: it holds because released backends line up in the heap
  behind all current entries (`RoundChoice`, `SequentialRounds`), repeated backends included.

## Model

| member | source | states |
|---|---|---|
| HeapQ.RootIsLeast | router.py:78-91 | in a binary heap no entry is less than the root |
| HeapQ.Push | router.py:136 | heappush keeps the heap order and adds exactly one entry |
| HeapQ.Pop | router.py:118 | heappop returns a least entry and removes exactly that one, keeping the heap order |
| HeapQ.SinkRoot | router.py:118 | sifting down restores the heap order and keeps the entries |
| Pools.PicksStayBalanced | router.py:107-138 | any number of least-loaded picks never widens the spread of healthy loads beyond the larger of 1 and what it was |
| Pools.EqualLoadsStayWithinOne | router.py:107-138 | loads that start equal stay within one of each other |
| RoundRobin.RoundRobinRouter.constructor | router.py:26-32 | all backends start healthy, the cursor at the first |
| RoundRobin.RoundRobinRouter.NextBackend | router.py:34-49 | returns None exactly when every healthy backend is excluded; otherwise the first non-excluded one at or ahead of the cursor, which moves just behind it |
| RoundRobin.RoundRobinRouter.MarkUnhealthy | router.py:51-54 | drops the first copy only |
| RoundRobin.RemoveFirstIs | router.py:51-54 | the first copy goes, and everything before and behind it stays as it is |
| RoundRobin.RotationIs | router.py:34-49 | pick i is the backend i places behind the cursor, round and round |
| RoundRobin.RoundRobinRouter.MarkHealthy | router.py:56-59 | appends an absent backend, and keeps a duplicate-free pool so |
| RoundRobin.RoundRobinRouter.PickMany | router.py:34-49 | consecutive picks without exclusions are the rotation from the cursor |
| RoundRobin.RemoveFirstMembers | router.py:51-54 | removal touches no other member, and removes the backend itself from a duplicate-free pool |
| RoundRobin.WindowIsPermutation | router.py:34-49 | from any cursor, every n consecutive picks are a permutation of the pool |
| RoundRobin.TurnsAndRest | router.py:34-49 | q full turns and r more picks choose each backend q or q+1 times |
| RoundRobin.Fairness | router.py:34-49 | over any k picks each backend is chosen floor(k/n) or ceil(k/n) times |
| LeastConnections.LeastConnectionsRouter.constructor | router.py:93-105 | a consistent heap with one entry of count 0 per listed backend |
| LeastConnections.LeastConnectionsRouter.NextBackend | router.py:107-138 | None exactly when healthy minus excluded is empty; otherwise a healthy, non-excluded backend of minimum canonical count, and only its count rises, by one; and exactly which heap entries remain |
| LeastConnections.LeastConnectionsRouter.OnDisconnect | router.py:149-157 | lowers one count, not below zero, and adds exactly one entry with the new count |
| LeastConnections.LeastConnectionsRouter.MarkUnhealthy | router.py:161-164 | the backend is not pickable; no other backend's standing, no count and no heap entry changes |
| LeastConnections.LeastConnectionsRouter.MarkHealthy | router.py:166-175 | the backend is pickable, with its old count and, if it was not, one new entry; no other backend's standing changes |
| LeastConnections.LeastConnectionsRouter.HealthSweep | router.py:161-175 | any marks between two calls leave exactly those healthy that the marks, in order, say, and every count as it was |
| LeastConnections.PopChoice | router.py:112-131 | the pop loop stops at the least live non-excluded entry, defers exactly the excluded live ones, drops exactly the rest in front of it |
| LeastConnections.Select | router.py:107-138 | choice, putting back and re-entry together keep the heap consistent with the raised count |
| LeastConnections.PushAll | router.py:128-129 | every deferred entry is back in the heap |
| LeastConnections.PushKeeps | router.py:149-175 | one new entry for one changed backend keeps every healthy backend listed with its current count, and tie numbers unique |
| LeastConnections.ChosenIsLeast | router.py:112-138 | the chosen heap entry is the argmin of the canonical counts, although stale entries may match again |
| LeastConnections.SurvivorsConsistent | router.py:112-131 | dropping stale entries and putting deferred ones back loses no healthy backend but the chosen one |
| LeastConnectionsRotation.WorkIsBounded | router.py:107-175 | after any history the heap has at most initial + disconnects + effective re-healthy marks entries, and all entries ever consumed are paid for by those plus the picks |
| LeastConnectionsRotation.RoundChoice | router.py:107-138 | in round k of sequential load the choice is backend k mod n, and nothing stale is in its way |
| LeastConnectionsRotation.RoundHeap | router.py:107-157 | one pick and release turn the heap of round k into that of round k+1: the chosen entry is spent, a stale one of count 1 stays behind |
| LeastConnectionsRotation.SequentialRounds | tests/TESTING.md:404 | from a fresh router with n listed backends, repetitions included, each pick released before the next, pick k is backends[k mod n], and the heap ends with exactly n + k entries |
| PyInt.DigitTable | http_parser.py:231 | the characters of two tables of sixteen have the values 0 to 15, and no other character is a digit |
| PyInt.NumeralParses | http_parser.py:106 | every numeral, in any casing and with any leading zeros, parses to its positional value, and with a sign to that value signed |
| PyInt.WriteParse | http_parser.py:231 | every number is read back from its hexadecimal and from its decimal writing |
| PyInt.Rejects | http_parser.py:232-233 | text holding a character that can stand in no number is none |
| Bytes.StripIff | http_parser.py:84-85 | strip removes the white space at both ends, all of it, and nothing else |
| Bytes.CaseIff | http_parser.py:104 | lower-casing and upper-casing equate a name with every casing of it and with nothing else |
| Bytes.SliceMeans | http_parser.py:95 | slices clamp at the ends and count negative bounds from the end |
| Chunked.TakeTurn | http_parser.py:221-259 | one turn of the scanner's loop, for every integer position |
| Chunked.TryConsume | http_parser.py:210-259 | the scanner returns the answer of its loop whenever the loop ends |
| Chunked.TurnsBounded | http_parser.py:221-259 | positions stay within one body length of zero, on either side |
| Chunked.NegativeSizeLoops | http_parser.py:231-256 | with the size -6 behind one chunk the loop never ends |
| Chunked.TurnRight | http_parser.py:230-256 | a size of -5 or more, at any position, moves the position strictly right or stops |
| Chunked.ForwardHalts | http_parser.py:210-259 | where no size below -5 is met the loop ends, and its answer is that of the left-to-right scan |
| Chunked.EndlessIff | http_parser.py:221-259 | the loop never ends if and only if it meets a size below -5 twice at one position |
| ChunkedFraming.ScanInside | http_parser.py:238-251 | a completed scan ends inside the body |
| ChunkedFraming.ScanCut | http_parser.py:210-259 | scanning is idempotent: the consumed part scans to itself |
| ChunkedFraming.ScanExtend | http_parser.py:238-251 | scanning is monotone under extension, and the end stays put exactly unless the bare CRLF was used and a CRLFCRLF now follows |
| Witnesses.EndMoves | http_parser.py:240-249 | a complete body of five bytes whose end moves to ten with six more bytes |
| ChunkedEncoding.ScanMessage | http_parser.py:210-259 | any cut of a well-formed chunked message scans exactly when nothing is cut off |
| ChunkedEncoding.PlainChunk | http_parser.py:231 | every data has a well-formed chunk, its size written in hexadecimal |
| ChunkedEncoding.RoundTrip | http_parser.py:210-259 | the scanner returns exactly the length of every well-formed chunked message: sizes written in any casing and with any leading zeros, extensions, trailers, and data that may hold CRLFs |
| ChunkedEncoding.PrefixFree | http_parser.py:210-259 | on every proper prefix of a well-formed chunked message the scanner returns None |
| ChunkedEncoding.WrongEnd | http_parser.py:254-258 | data followed by anything but CRLF stops the scan without an answer |
| ChunkedEncoding.WrongSize | http_parser.py:230-233 | so does a size that holds a character of no number |
| Witnesses.TenBytes | http_parser.py:210-259 | the twenty bytes of a chunk of size "a" and a last chunk scan to twenty |
| Http.TryParseRequest | http_parser.py:52-98 | the parser returns nothing, or a new request object with the parsed value |
| Http.GetContentLength | http_parser.py:101-109 | the first Content-Length up to case; 0 when absent or not a number |
| Http.InjectForwardedFor | http_parser.py:114-125 | the request object afterwards is the injected value, with nothing else changed |
| Http.SerialiseRequest | http_parser.py:130-136 | the bytes are those of the serialised value |
| Http.GetResponseContentLength | http_parser.py:161-182 | first Content-Length of the response, or absent, or incomplete |
| Http.IsChunkedResponse | http_parser.py:189-207 | whether the first Transfer-Encoding lists chunked |
| HeaderText.FieldIff | http_parser.py:80-85 | a header line is its text up to the first colon and its text behind it, both trimmed; a line without a colon is none |
| HeaderText.HeadersMean | http_parser.py:79-87 | the dictionary of any lines: one entry for every name, in the order of first lines, with the value of the last line; lines without a colon add nothing |
| HeaderText.PartsIff | http_parser.py:70-76 | a request line is three parts between its first two spaces |
| HeaderText.ParseText | http_parser.py:52-98 | on any head and any bytes behind it the parser yields the three parts, the dictionary and the announced number of bytes; nothing while bytes are missing, or where the first line has not three parts |
| HeaderText.NoBlankLine | http_parser.py:58-60 | without a blank line nothing is parsed, and no response scan has an answer |
| HeaderText.LengthMeans | http_parser.py:101-109 | the length is the number in the first Content-Length header, in any casing; 0 without one and for a value that is no number |
| HeaderText.ResponseLengthMeans | http_parser.py:161-182 | for a response: that number, 0 for a value that is none, and -2 without the line |
| HeaderText.ChunkedMeans | http_parser.py:189-207 | a response is chunked exactly when its first Transfer-Encoding line lists "chunked" between commas, in any casing and spacing |
| Witnesses.TightHeader | http_parser.py:52-98 | a request whose header has no white space behind its colon, with its body |
| Witnesses.RequestText | http_parser.py:130-136 | the text of one serialised request |
| HttpRoundTrip.ParsedIsGood | http_parser.py:52-98 | every parsed request has trimmed, CRLF-free, uniquely named headers without a colon in a name |
| HttpRoundTrip.Reparse | http_parser.py:52-136 | re-parsing a serialised well-formed request recovers method, path, version and ordered headers |
| HttpRoundTrip.ParseAfterSerialise | http_parser.py:52-136 | parse after serialise is the identity on parsed requests if and only if the Content-Length is not negative or the body is empty |
| HttpRoundTrip.NegativeLengthWitness | http_parser.py:91-95 | a request with a negative Content-Length whose round trip changes it |
| HttpRoundTrip.BodyLength | http_parser.py:91-95 | a parsed body has the announced length |
| HttpRoundTrip.ParseExtend | http_parser.py:52-98 | a successful parse with non-negative Content-Length is unchanged by any further bytes |
| HttpRoundTrip.ParseFinalIff | http_parser.py:91-95 | a successful parse is unchanged by all further bytes if and only if the computed end of the body is not in front of the buffer |
| HttpRoundTrip.NotFinalWitness | http_parser.py:91-95 | a parsed request that one more byte changes |
| HttpRoundTrip.InjectGood | http_parser.py:114-125 | injection keeps a request well formed |
| HttpRoundTrip.InjectOnlyForwardedFor | http_parser.py:114-125 | X-Forwarded-For grows by ", ip" in its place, or is appended when absent; no other header moves or changes |
| HttpRoundTrip.InjectKeepsLength | http_parser.py:101-125 | injection does not change the Content-Length found |
| HttpRoundTrip.ForwardingIsFaithful | http_parser.py:52-136 | the forwarded bytes parse to the client's request with the address injected |
| HttpRoundTrip.ResponseScansExtend | http_parser.py:161-207 | once the response headers are complete, further bytes change none of their scans |
| ProtocolInvariant.StartInv | connection.py:84-123 | a new connection satisfies the invariant |
| ProtocolInvariant.InitiateInv | connection.py:214-232 | opening a backend socket, with all retries behind it, keeps the invariant |
| ProtocolInvariant.FailBackendInv | connection.py:388-430 | failing over from any backend state keeps the invariant |
| ProtocolInvariant.StepInv | connection.py:149-373 | every handler, with any outcomes of its socket calls, keeps the invariant |
| ProtocolInvariant.RunInv | connection.py:149-430 | so does every run |
| ProtocolRuns.StepCounts | connection.py:138-144 | no handler changes the state uncounted, lowers the deadline's generation, or moves a deadline within one; and only a failed send to the client marks a connection aborted |
| ProtocolRuns.RunsAreBounded | connection.py:377-430 | in every run the backends are pairwise distinct, at most 1 + MAX_BACKEND_RETRIES (one unless the method is idempotent), and the state changes at most 3*(1+MAX_BACKEND_RETRIES)+2 times, changes within one handler call included |
| ProtocolRuns.DoneIsFinal | connection.py:149-358 | DONE is absorbing |
| ProtocolRuns.ClientStreamIntegrity | connection.py:348-451 | in every run the client has been given a prefix of exactly one response: of the error page generated, one of the five, or, where none was, of the relay buffer, whose bytes all came from the backend opened last |
| ProtocolRuns.NoBackendAfterFirstByte | connection.py:377-386 | once the client has been given a byte, no handler opens a backend, and what it was given only grows |
| ProtocolRuns.NoBackendLater | connection.py:377-386 | the same over the rest of any run |
| ProtocolRuns.RelayCompletes | connection.py:355-373 | a relay that ends without an error has given the client the whole response and released the backend |
| ProtocolRuns.BackendStreams | connection.py:254-271 | every backend was sent a prefix of the same serialised request from its first byte; one whose response is awaited was sent all of it |
| ProtocolRuns.HoldsIff | connection.py:204-212 | a slot is held exactly while a backend is engaged, or after an abort |
| ProtocolRuns.DoneReleasesUnlessAborted | connection.py:364-366 | every run that ends has released its backend, except those ended by a failed send to the client, which never have |
| Witnesses.SlotKept | connection.py:364-366 | a run of four handler calls that ends with the slot held |
| Fragmentation.ReceiveVerdict | connection.py:301-346 | a received piece is judged on all bytes so far, not on the cached scans |
| Fragmentation.ResponseFragmentation | connection.py:301-353 | for every split of a self-delimiting response into non-empty pieces the connection reads on before the last piece and relays the whole stream after it |
| Fragmentation.ContentLengthDelimits | connection.py:334-346 | a header block with exactly Content-Length body bytes is self-delimiting |
| Fragmentation.ChunkedDelimits | connection.py:322-333 | a chunked header block with a well-formed chunked message is self-delimiting |
| Fragmentation.RequestReading | connection.py:186-212 | while the bytes so far do not parse, all of them are kept; once they do, the request taken over never changes |
| Fragmentation.RequestFragmentation | connection.py:186-212 | for every split of a client stream that parses, the same bytes are forwarded, and they parse to the client's request with the address injected |
| EndToEnd.RequestTaken | connection.py:186-212 | in every run the request taken over is the parse of the bytes read, which are a prefix of the client's stream |
| EndToEnd.EndOfFile | connection.py:286-299 | at the end of file all that the backend sent is relayed, unless it is part of a chunked response: then the backend has failed |
| EndToEnd.ResponseStep | connection.py:149-373 | every handler call keeps the relay buffer equal to what the last backend's bytes amount to: the response they complete, or, once it has closed, all of them |
| EndToEnd.WholeExchange | connection.py:149-373 | over every run, once done without error page or failed send to the client: the last backend was sent the client's request with the address injected, and the client was given what that backend's bytes amount to, or part of it if a timeout came |
| EndToEnd.ExactDelivery | connection.py:286-373 | without a timeout, a self-delimiting response sent by the last backend, in any pieces, is what the client was given, byte for byte |
| Witnesses.ExchangeCompletes | connection.py:169-373 | a run of four handler calls that meets all that WholeExchange and ExactDelivery ask for |
| Handlers.ReadsClient | connection.py:169-212 | would-block changes nothing, an error or end of file ends silently, more than 10 MiB is answered 413, an incomplete request is kept with 30 more seconds, no backend on offer is answered 503, and else the first backend is the one offered |
| Handlers.RetryIff | connection.py:377-430 | a failed backend is replaced if and only if the method is one of the five, in any casing, fewer than three backends were opened, and the router offers an untried one; otherwise the answer is 502 |
| Handlers.TimesOut | connection.py:149-167 | 408 while the request is read, 504 until the client was given a byte, and then a silent, released end |
| Handlers.PageTexts | connection.py:434-447 | the text of the five pages, each with its code and length |
| Handlers.PageDelimits | connection.py:434-447 | every error page is a complete response by its own framing |
| Handlers.VerdictMeans | connection.py:322-346 | a response is whole from its Content-Length on, or when its chunked body scans, and is cut there; with neither it is never whole before the end of file |
| Handlers.WritesBackend | connection.py:254-271 | the request goes out from where the last send stopped, as much as the socket takes, and the response is awaited exactly when none is left |
| Handlers.WritesClient | connection.py:355-373 | the client gets the next bytes, as many as the socket takes, and the connection ends, released, exactly when all was given; a failed send ends it with the slot kept |
| Handlers.DeadlineFollows | connection.py:127-144 | after every handler call a live connection is unchanged or has, in a new generation, the time of its state from now on: 5 seconds to connect, 30 for all else |
| Handlers.StartsOnTime | connection.py:84-123 | a new connection has read and sent nothing and has 30 seconds |
| Connection.ProxyConnection.constructor | connection.py:84-123 | the new object is the protocol's start state |
| Connection.ProxyConnection.RefreshDeadline | connection.py:138-144 | a new generation and deadline for the state, none in DONE |
| Connection.ProxyConnection.NotifyRouter | connection.py:474-477 | the router is told at most once per acquisition, and its clamp at zero takes no effect |
| Connection.ProxyConnection.SendErrorPage | connection.py:434-451 | the error page, whole or cut by an error, is all that is added to the client's stream, and the slot is released |
| Connection.ProxyConnection.InitiateBackendConnect | connection.py:214-232 | the object does what the protocol says, through any number of retries, and the router's counts move with the slots held |
| Connection.ProxyConnection.AskRouter | router.py:107-138 | the answer is None exactly when every healthy backend is to be skipped, and else a least loaded one of the others |
| Connection.ProxyConnection.DispatchRequest | connection.py:199-212 | 503 only when no backend is healthy; the first backend is a least loaded healthy one |
| Connection.ProxyConnection.FailCurrentBackend | connection.py:388-430 | every backend tried is a least loaded one of those healthy when the router is asked and untried; 502 for a repeatable method comes only after three attempts or when no healthy backend is left untried; and the counts move with the slots held |
| Connection.ProxyConnection.HandleClientReadable | connection.py:169-212 | the protocol's step, invariant and counts for a readable client, with the router asked as above |
| Connection.ProxyConnection.HandleClientWritable | connection.py:355-373 | the same for a writable client, the abort included |
| Connection.ProxyConnection.HandleBackendReadable | connection.py:273-346 | the same for a readable backend, on responses where the chunk scanner ends, with the router asked as above on a failure |
| Connection.ProxyConnection.HandleBackendWritable | connection.py:234-271 | the same for a connecting or writable backend |
| Connection.ProxyConnection.HandleTimeout | connection.py:149-167 | 408, 504 or a silent end, always DONE and released |
| Connection.ReleaseMoves | router.py:149-157 | releasing a held slot lowers its backend's count by exactly one: the clamp takes no effect |
| Connection.AcquireMoves | router.py:133-138 | acquiring for a connection that held nothing raises exactly its backend's count |
| Selector.FailBackendSockets | connection.py:388-430 | after a failure the failed socket, or a later one that failed too, is the one to unregister, and the current socket is the newest |
| Selector.StepSockets | connection.py:149-430 | all that one handler call can do to the sockets of a connection |
| Selector.StepKeepsInterest | reactor.py:224-326 | after one handler call and the reactor's updates the selector's interest matches the new state, same-state retries included, and no other connection's sockets are touched |
| Selector.StaleIffSecondFailure | reactor.py:224-231 | a dead backend socket stays registered if and only if the call finds the backend failed, a retry is allowed and offered, and its connect is refused at once |
| Witnesses.SocketStaysBehind | connection.py:388-430 | a run of two handler calls after which a dead socket is still registered |
| Accounting.MovesConserve | router.py:133-157 | a handler call on one connection keeps every count equal to the number of its holders |
| Accounting.HoldersAre | connection.py:364-366 | the holders are the engaged connections and those ended by a failed send to the client, and no others |
| Accounting.RootIsEarliest | reactor.py:108-122 | a current entry at the heap's root gives the answer of a naive scan of all live connections |
| Accounting.PopSchedules | reactor.py:112-121 | dropping a stale entry leaves every live connection scheduled |
| Accounting.ExpireSchedules | reactor.py:124-137 | so does dropping a current entry whose connection then ends |
| Accounting.PushSchedules | reactor.py:99-106 | a pushed entry schedules its connection and keeps all others scheduled |
| Reactor.Reactor.constructor | reactor.py:36-54 | an empty reactor over an idle router satisfies the whole-system invariant |
| Reactor.Reactor.SlotsAccounted | router.py:133-157 | in every state of the system, each backend's count is the number of connections engaged with it and of those ended by a failed send to the client |
| Reactor.Reactor.ConnectionsKeepPromises | connection.py:348-451 | in every state of the system, every connection has given its client a prefix of one response, sent its backends prefixes of one request, and kept its bounds on attempts and state changes |
| Reactor.Reactor.HealthCheck | router.py:161-175 | health marks between any two calls keep the whole-system invariant |
| Reactor.Reactor.ScheduleDeadline | reactor.py:99-106 | afterwards every live connection has an entry for its current generation |
| Reactor.Reactor.SelectTimeout | reactor.py:108-122 | the wait is min(1 s, max(0, earliest live deadline - now)) over all live connections |
| Reactor.Reactor.ExpireTimeouts | reactor.py:124-140 | exactly the live connections whose current deadline has come are timed out, once each, and all other connections are untouched |
| Reactor.Reactor.AcceptOne | reactor.py:178-185 | one new connection, registered, in the tables and scheduled; all others untouched |
| Reactor.Reactor.Accept | reactor.py:167-185 | every waiting client becomes a connection, in order |
| Reactor.Reactor.Dispatch | reactor.py:189-222 | on the client's socket the client's read and then write handler run, on the current backend's socket the backend's, as the event asks, each with its selector updates; another socket changes nothing; no other connection is touched; and the whole-system invariant holds again |
| Reactor.Reactor.FlushPendingUnregister | reactor.py:224-255 | unregisters the socket left behind and registers its replacement |
| Reactor.Reactor.UpdateInterest | reactor.py:259-326 | the selector's registrations after a transition |
| Reactor.Reactor.Reap | reactor.py:330-345 | afterwards both tables hold exactly the live connections, and exactly the client's and the current backend's sockets of the removed ones were unregistered |
| Reactor.NoneOverdue | reactor.py:124-130 | when the heap's root is not due, no live connection is overdue |

## Left out

- Connection.ProxyConnection.HandleBackendReadable: takes for granted that the chunk scanner's loop ends on the bytes received, as the code does; the exact condition is EndlessIff, and every body without a size below -5 is covered (ForwardHalts).
- Chunked.TryConsume: is stated for bodies on which the loop ends; NegativeSizeLoops gives one on which it does not.
- Reactor.Reactor.Dispatch: covers one event at a time, with the same assumption on backend data; the event loop itself is any sequence of the reactor's methods, each of which keeps the invariant.
- Connection.ProxyConnection.NotifyRouter: the connection class uses the least-connections router only; the theorems on values in ProtocolRuns hold for any router that never returns an excluded backend, and round robin's on_disconnect does nothing.
- HeapQ.Pop: is this project's own binary heap for the library's `heapq`, with entries compared by key and tie number; the third component is never compared in the router, where tie numbers are unique, and its order does not matter in the reactor.
- Reactor.Reactor.Accept: keys both tables by connection identity, where the code keys one by file descriptor; identities are never reused, which is an assumption on `id()`, and neither are descriptors.
- Real sockets, errno values and the wall clock: socket outcomes are arbitrary inputs, times are integer milliseconds, and each handler call reads the clock once.
- Sending an error page may fail after any number of bytes; the code then counts none of them as sent, and so does the model.
- Unexpected exceptions in handlers, which the event loop answers by forcing DONE.
- Python's `int()` beyond latin-1 text and its limit of 4300 digits; `lower()` and `upper()` are those of ASCII, enough for the names compared.
- Logging, access log, start times, response status parsing, `header_length` and the raw header bytes: nothing modelled depends on them.
- Probing and timing of the health checker: its marks may come before every router call of a handler and between all calls of the reactor.
- `get_all_backends`, `get_healthy_backends`, `on_connect`, `create_router`, start-up, shutdown, worker processes and the mock backends: plumbing.
- Keep-alive, pipelining, responses without a body, and the completeness of responses that end at EOF: the code relays what it received.
