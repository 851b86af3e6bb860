# Anoii in Dafny

A model of the Anoii network library and of its HTTP server, with proofs. Anoii runs one reactor loop
per thread: poll, dispatch to channels, expired timers, queued functors. On top of it are buffered TCP
connections and an incremental HTTP/1.1 parser that serves files.

The model keeps the shape of the C++ code. Objects that change in place are classes (`Buffer`,
`HttpRequest`, `TimerQueue`, `UPoll`, `EPoller`, `Channel`, `TcpConnection`, `TcpServer`, `EventLoop`,
`FileResponse`). Each of their methods is tied by its contract to a function of the old state, and the
promises are proved about those functions and about whole runs of them.

| files | modules |
|---|---|
| Bytes.dfy, Buffer.dfy | substring search; the byte queue over an array |
| HttpUtils.dfy | strip, tolower, tokens, percent-encoding, decimal numbers |
| HttpParsing.dfy, HttpRequest.dfy, HttpRoundTrip.dfy | the parser as a function, the class, round trips |
| FileStreaming.dfy, HttpServer.dfy | response header and file transfer; the response class and the server callbacks |
| Timers.dfy, TimerRuns.dfy, TimerQueue.dfy | the scheduler as a function, every moment of its runs, the class |
| Pollers.dfy | Channel and both pollers over one abstract registry |
| Connections.dfy, TcpConnection.dfy, TcpServer.dfy | one connection as a function, the classes |
| ServerRuns.dfy, ServerBooks.dfy | whole server runs and their life-cycle invariant; what such runs owe to users and peers |
| LoopRuns.dfy, EventLoop.dfy | the multi-thread hand-off as atomic steps, the loop thread's methods |

How the outside world enters:

- The kernel answers each write with any prefix, EAGAIN or a hard error. poll reports any set of
  registered descriptors, POLLOUT only where it was asked for. accept returns a descriptor that is not
  open. Reads, the clock and the file system are parameters.
- User callbacks are arbitrary. In the timer queue they are finite scripts of Add and Cancel with a
  returned delay, drawn from an oracle that may depend on the whole history. In the loop, the
  connections and the server they are further steps, possible wherever a callback may run.
- Timers live in an explicit heap, so `delete` and the reuse of an address are real.
- Undefined behaviour and escaping exceptions are an outcome of their own, never a precondition: the
  claims say exactly when they occur.

Where the code does something other than what it is meant to do, the model follows the code:

- `src/buffer.cc:70` copies to `data - head`. Prepend works exactly when it uses all the headroom, or
  writes nothing (`Buffer.Prepend`). `tests/buffer_test.cc:18` happens to be such a call.
- `src/buffer.cc:37` can fail MoveTo's assert after Prepend (`Buffer.Shrink`, exact condition).
- `src/unix_poll.cc:85` negates a slot on every empty update and never restores it, so that poll goes
  on ignoring a descriptor whose events were disabled and enabled again (`SlotParity`,
  `DisabledForGood`; `PollMatchesEpoll` and `SlotsRight` say for which request histories it matters). `src/unix_poll.cc:106` mistakes descriptor 0
  (`UPoll.RemoveChannel`, `EndFdFound`).
- `contrib/http/http_request.cc:108`: a start line without a second space is a bad request only if a
  space happens to be buffered behind it, otherwise the target is a view of length size_t(-1), which is
  undefined. This is
  the one input family on which the parser is sensitive to chunking (`ChunkingInvariance`).
- `contrib/http/http_utils.cc:4` leaves the view on a blank field value, line 30 indexes a 128-bit table
  with larger bytes, and line 51 lets an escape be cut after one digit. Line 13 makes NUL a tchar, and
  the empty name is a token.
- `contrib/http/http_request.cc:87` waits for ever on an empty line before the start line
  (`EmptyLineBlocks`). The refusals of `contrib/http/http_server.cc:40-45` carry no line end (`RefusalText`).
- `contrib/http/http_response.cc:39-43`: a regular file that cannot be opened announces its size and
  sends an error text (`LengthIsHonest`). kNotFound has the value 400.
- QueueInLoop on the loop's own thread before Loop() does not wake it (`EarlyPushAlone`).
- `src/tcp_connection.cc:195-198` returns before the watermark is compared: what several Sends pile up
  never calls the high-watermark callback (`HighWaterExactly`).
- `contrib/http/http_server.cc:53-57` leaves a request's body in the buffer, where it becomes the start
  of the next request (`BodyMeetsNextRequest`).
- `src/epoller.cc:103-105` shrinks the event array to the shortest batch so far and never grows it
  (`EPoller.PollUntil`).
- Cancel of an id that has not been issued is forgotten (`UnissuedCancelIsForgotten`).

## Model

| member | source | states |
|---|---|---|
| `Buffers.Buffer.constructor` | src/include/buffer.h:21-27 | an empty queue with the headroom asked for |
| `Buffers.Buffer.Pop` | src/include/buffer.h:38-41 | drops exactly the first `size` readable bytes |
| `Buffers.Buffer.Append` | src/buffer.cc:41-45 | the readable bytes become the old ones followed by the new ones, in the growing and in the compacting branch, for any capacity rounding |
| `Buffers.Buffer.EnsureWritableSpace` | src/buffer.cc:46-55 | contents are kept and `size` bytes fit behind them; which branch is taken, and that only the compacting one moves the head |
| `Buffers.Buffer.MoveTo` | src/buffer.cc:56-66 | contents survive the overlapping move in either direction |
| `Buffers.MoveDown` | src/buffer.cc:61-63 | an ascending copy onto a lower, overlapping address moves the block intact and touches nothing else |
| `Buffers.MoveUp` | src/buffer.cc:61-63 | the same for a descending copy onto a higher address |
| `Buffers.Buffer.ReadFd` | src/buffer.cc:11-35 | whatever readv delivers, split over the free tail and the stack block, is appended in order; an error changes nothing |
| `Buffers.Buffer.Shrink` | src/buffer.cc:36-40 | MoveTo's assert holds if and only if headroom plus contents fit the vector; then contents are kept and the vector is exactly full |
| `Buffers.Buffer.Prepend` | src/buffer.cc:67-71 | prepends if and only if all the headroom is used up or nothing is written; otherwise the copy to `data - head` leaves the vector |
| `Buffers.Buffer.StartWith` | src/buffer.cc:72-75 | true exactly for a prefix of the contents |
| `Buffers.Buffer.FirstOf` | src/buffer.cc:76-79 | the least offset of a match, or -1 when there is none |
| `Buffers.Buffer.ContainsByte` | src/buffer.cc:80-85 | true exactly when the byte is readable |
| `Bytes.FindExtend` | src/buffer.cc:76-79 | bytes that arrive later never move the first match |
| `HttpUtils.Strip` | contrib/http/http_utils.cc:3-7 | undefined if and only if the view is blank, else the trimmed middle |
| `HttpUtils.TrimIs` | contrib/http/http_utils.cc:3-7 | that middle is the only trimmed string between two runs of blanks |
| `HttpUtils.ToLower` | contrib/http/http_utils.cc:8-10 | every byte is lowered in place |
| `HttpUtils.LowerLetters` | contrib/http/http_utils.cc:8-10 | each capital letter becomes its own small one, every other byte stays |
| `HttpUtils.GetTcharBitset` | contrib/http/http_utils.cc:11-26 | the table holds the tchars of section 5.6.2 of RFC 9110, and NUL |
| `HttpUtils.TcharsAreVisible` | contrib/http/http_utils.cc:11-26 | they are NUL and the visible characters that are no delimiters, the other reading of section 5.6.2 of RFC 9110 |
| `HttpUtils.CheckToken` | contrib/http/http_utils.cc:27-33 | token iff every byte is a tchar; out of the table iff a byte of 128 or more comes before any other non-tchar |
| `HttpUtils.IsToken` | contrib/http/http_utils.cc:27-33 | the loop decides as CheckToken |
| `HttpUtils.ParsePercentEncoding` | contrib/http/http_utils.cc:45-66 | the loop computes the recursive decoder, including the byte read past the view |
| `HttpUtils.DecodeAccepts` | contrib/http/http_utils.cc:50-59 | accepts exactly the well-formed strings of section 2.1 of RFC 3986, plus the ones cut after one digit when the byte past the view is a digit |
| `HttpUtils.DecodeExactly` | contrib/http/http_utils.cc:45-66 | a well-formed string decodes to exactly the strings it encodes, whichever bytes are escaped and in either case |
| `HttpUtils.HexValExactly` | contrib/http/http_utils.cc:35-43 | the value of each digit in either case, by the table of digits |
| `HttpUtils.DecodeReadsPastTheView` | contrib/http/http_utils.cc:51-53 | a concrete view on which the missing bound shows |
| `HttpUtils.DecodeIgnoresAfter` | contrib/http/http_utils.cc:51-53 | on well-formed input the byte past the view is irrelevant |
| `HttpUtils.DecodeEncode` | contrib/http/http_utils.cc:45-66 | decode(encode(s)) = s for every byte string and every byte after the view |
| `HttpUtils.StoiToDecimal` | contrib/http/http_request.cc:172-173 | a length survives to_string and stoi exactly when it fits an int |
| `HttpUtils.StoiReads` | contrib/http/http_request.cc:172-173 | a content-length is read behind blanks and a sign up to the first byte that is no digit, and throws outside an int |
| `HttpUtils.StoiThrows` | contrib/http/http_request.cc:172-173 | and throws without a digit |
| `HttpParsing.TurnAdvances` | contrib/http/http_request.cc:80-190 | every turn of the loop advances the state or consumes bytes; a return either changes nothing or is final |
| `HttpParsing.ProcessExtends` | contrib/http/http_request.cc:79-191 | Process on a buffer and more bytes equals Process resumed, with the extra bytes, on what it had left |
| `HttpParsing.ProcessSettles` | contrib/http/http_request.cc:79-191 | calling Process again without new bytes changes nothing |
| `HttpParsing.FeedIsProcess` | contrib/http/http_request.cc:79-191 | feeding pieces to a waiting parser equals feeding their concatenation |
| `HttpParsing.ChunkingInvariance` | contrib/http/http_request.cc:79-191 | every cutting of the bytes gives the outcome of the whole if and only if the start line does not leave its second space to a later line |
| `HttpParsing.CutAfterStartLine` | contrib/http/http_request.cc:108-115 | on every other input, cutting after the start line makes the target an undefined view while the whole is a bad request |
| `HttpParsing.ChunkingCounterexample` | contrib/http/http_request.cc:108-115 | one such input, written out |
| `HttpParsing.StartLineGrammar` | contrib/http/http_request.cc:81-126 | a complete start line is consumed exactly when it is method, target and version with an acceptable target; the target is an undefined view exactly when no space follows the method's; otherwise it is bad |
| `HttpParsing.FieldGrammar` | contrib/http/http_request.cc:148-162 | a header line is stored exactly when it is a token, a colon and a value that is not blank; bad exactly without a colon or with a name that is no token |
| `HttpParsing.StartLineWaits` | contrib/http/http_request.cc:86-87 | a start line that has not ended, or is empty, changes nothing |
| `HttpParsing.EmptyLineBlocks` | contrib/http/http_request.cc:86-87 | an empty line before the start line blocks the parser for good, whatever follows |
| `HttpParsing.BodyExactly` | contrib/http/http_request.cc:170-186 | with a content-length the request is done exactly when that many bytes are there, otherwise nothing changes; without one a transfer-encoding waits for ever |
| `HttpParsing.DoneHasItsBody` | contrib/http/http_request.cc:170-177 | from any state, a request done by its content-length has that many bytes behind it |
| `HttpParsing.RouterIsSafe` | contrib/http/http_request.cc:31-43 | an accepted router contains neither `..` nor a question mark |
| `HttpParsing.RouterGrammar` | contrib/http/http_request.cc:31-43 | exactly which router a target gets: without two dots; itself, or, if it starts with http and is longer, the path behind the first double slash and the host |
| `HttpParsing.AbsoluteForm` | contrib/http/http_request.cc:34-42 | for instance `http://host/path` is routed by its path |
| `HttpRequests.HttpRequest.Process` | contrib/http/http_request.cc:79-191 | the class, popping a real Buffer, reaches the request and unread bytes of the function, or is undefined exactly when it is |
| `HttpRequests.HttpRequest.ProcessStartLine` | contrib/http/http_request.cc:81-109 | one start-line turn on the object and its buffer |
| `HttpRequests.HttpRequest.ProcessTarget` | contrib/http/http_request.cc:101-126 | the part of it after the method, with the negative search result taken as the code takes it |
| `HttpRequests.HttpRequest.TakeTarget` | contrib/http/http_request.cc:111-126 | the target is parsed and the line consumed, or nothing is consumed and the request is bad |
| `HttpRequests.HttpRequest.ProcessHeaderLine` | contrib/http/http_request.cc:141-163 | one header turn on the object and its buffer |
| `HttpRequests.HttpRequest.StoreField` | contrib/http/http_request.cc:148-162 | one field line: bad, undefined, or stored unless the name is there |
| `HttpRequests.HttpRequest.ProcessBody` | contrib/http/http_request.cc:164-186 | framing by content-length, which may throw; the body stays in the buffer |
| `HttpRequests.HttpRequest.ParseTarget` | contrib/http/http_request.cc:24-74 | router and arguments of the object follow the target, also when it is rejected half-way |
| `HttpRequests.HttpRequest.StoreQuery` | contrib/http/http_request.cc:46-73 | the loop over ampersands stores what the recursion does |
| `HttpRoundTrip.AssignLastWins` | contrib/http/http_request.cc:65-66 | of equal keys in a query the last value is kept |
| `HttpRoundTrip.QueryRoundTrip` | contrib/http/http_request.cc:46-73 | any list of byte-string pairs, encoded and joined, is read back as its last-wins map |
| `HttpRoundTrip.QuerySplit` | contrib/http/http_request.cc:46-73 | any query is cut at its first ampersand, and a piece that does not decode rejects it |
| `HttpRoundTrip.QueryLast` | contrib/http/http_request.cc:46-73 | the same for the last piece |
| `HttpRoundTrip.BadEscape` | contrib/http/http_request.cc:62-68 | a pair is rejected exactly when its key or its value does not decode |
| `HttpRoundTrip.BareKey` | contrib/http/http_request.cc:53-63 | a key without an equals sign gets the empty value |
| `HttpRoundTrip.TargetRoundTrip` | contrib/http/http_request.cc:24-74 | a plain path and such a query: ParseTarget succeeds with that router and that map |
| `HttpRoundTrip.StoreFirstWins` | contrib/http/http_request.cc:162 | of equal field names the first value is kept |
| `HttpRoundTrip.FieldRoundTrip` | contrib/http/http_request.cc:148-162 | one printed field is read back by one turn |
| `HttpRoundTrip.FieldAsWritten` | contrib/http/http_request.cc:148-162 | a field with its name in any case and any blanks around its value is stored under the small name, trimmed |
| `HttpRoundTrip.HeaderRoundTrip` | contrib/http/http_request.cc:127-163 | printed fields and the empty line are read back as the first-wins map, and the rest is left for the body |
| `HttpRoundTrip.StoreListed` | contrib/http/http_response.cc:22-24 | the entries of a map in any order give back the map |
| `HttpRoundTrip.MessageRoundTrip` | contrib/http/http_request.cc:79-191 | a whole request written by a client comes back with method, path, arguments, headers and body, and the parser is done |
| `HttpRoundTrip.MessageInPieces` | contrib/http/http_request.cc:79-191 | the same however the request is cut into pieces |
| `HttpRoundTrip.MessageArrives` | contrib/http/http_request.cc:79-191 | for every prefix of every message: neither bad nor undefined, and done exactly from the byte on that completes header and announced body |
| `FileStreaming.HeaderIsRead` | contrib/http/http_response.cc:14-27 | the printed header with anything behind it, in any iteration order: its first line is version, code and a space, and behind it a header phase stores exactly the fields with the added content-length and leaves the rest |
| `FileStreaming.ResponseRoundTrip` | contrib/http/http_response.cc:22-25 | the printed fields and the empty line are read back as the map with the added content-length |
| `FileStreaming.LengthAdded` | contrib/http/http_response.cc:16-19 | the content-length is added exactly when nothing frames the body, is the size, and changes no other field |
| `FileStreaming.BodyIsFramed` | contrib/http/http_response.cc:14-27 | a client that goes by the content-length ends with exactly the body |
| `FileStreaming.LengthIsHonest` | contrib/http/http_response.cc:29-44 | announced length equals body length if and only if the file is not regular, or opens, or has the size of the error text |
| `FileStreaming.CountBlock` | contrib/http/http_response.cc:51-56 | n loads have read min(n blocks, whole file); end of file is seen at load size/block + 1, also for exact multiples |
| `FileStreaming.StepInv` | contrib/http/http_server.cc:107-120 | every write event and every callback whose Send does not fail keeps: submitted = header + file prefix, and exactly one queued callback or buffered tail until the end |
| `FileStreaming.WholeFile` | contrib/http/http_server.cc:77-120 | in every run, for every split of writes and hard errors anywhere: when nothing can happen the kernel has taken the header and the whole file after exactly size/block + 1 loads, or, if a Send failed, the blocks before it |
| `FileStreaming.ChainStops` | contrib/http/http_server.cc:107-120 | a lexicographic measure falls with every callback and every write that takes something |
| `FileStreaming.ChainGoesOn` | contrib/http/http_server.cc:107-120 | until the transfer is over POLLOUT is armed or a callback is queued |
| `FileStreaming.HardErrorEndsChain` | src/tcp_connection.cc:206-210 | a hard write error in a callback drops the block, and no step is possible afterwards |
| `FileStreaming.OneFileTransfer` | contrib/http/http_server.cc:77-120 | for a file that opens and no hard error, the bytes on the wire are the printed header and the file, and they read as the code, that length, and the file |
| `HttpServers.FileResponse.constructor` | contrib/http/http_response.cc:29-44 | headers, initial buffer and stream position for each answer of the file system |
| `HttpServers.FileResponse.Made` | contrib/http/http_response.h:19-24 | a response of status, headers and body, as user callbacks make it |
| `HttpServers.FileResponse.LoadData` | contrib/http/http_response.cc:51-56 | appends the next block, or changes nothing at end of file |
| `HttpServers.FileResponse.StartAndFieldToString` | contrib/http/http_response.cc:14-27 | adds the content-length and prints status line and every field once, in some order |
| `HttpServers.WriteCb` | contrib/http/http_server.cc:107-120 | on the real objects: one block goes from file through buffer into Send; connection, file and queued callback are those of a WriteCallback step of any transfer in that state |
| `HttpServers.ParseInput` | contrib/http/http_server.cc:51-72 | a finished request is replaced, then the reply is decided by what Process makes of the input |
| `HttpServers.Refuse` | contrib/http/http_server.cc:64-75 | the refusal is sent and the connection half-closed |
| `HttpServers.Answer` | contrib/http/http_server.cc:79-85 | header, then the initial body if there is one, through Send |
| `HttpServers.ReadFileAsResponse` | contrib/http/http_server.cc:121-130 | a file for GET, an empty 400 otherwise |
| `HttpServers.Respond` | contrib/http/http_server.cc:77 | the response of the routed callback, a static file or the user's own |
| `HttpServers.ReadCb` | contrib/http/http_server.cc:47-91 | the whole callback, for any routes: connection, request and input afterwards in each of the five outcomes |
| `HttpServers.FileIsServed` | contrib/http/http_server.cc:77-120 | from what ReadCb leaves for a GET of a file that opens, in every run without a hard error: header and whole file reach the kernel and read as 200, the length and the file |
| `HttpServers.ResponseIsServed` | contrib/http/http_server.cc:77-85 | header and body of any response are submitted and read as its status, its fields with the length of the body, and its body |
| `HttpServers.EmptyAnswers` | contrib/http/http_server.cc:121-130 | another method than GET reads as an empty 400, what is not a regular file as an empty 200 |
| `HttpServers.ReplyToMessage` | contrib/http/http_server.cc:58-91 | while a message arrives there is no reply; complete, it is answered if its path has a route and refused otherwise |
| `HttpServers.ReplyExactly` | contrib/http/http_server.cc:58-91 | exactly the bad requests are refused as bad, exactly the finished ones are answered or not found |
| `HttpServers.BadStaysBad` | contrib/http/http_server.cc:53-57 | a refused request is never replaced, whatever is read after it |
| `HttpServers.RefusalText` | contrib/http/http_server.cc:40-45 | both refusals are a status line with 400 and without its end |
| `HttpServers.OneForOne` | contrib/http/http_server.cc:53-57 | requests that come one by one, all but the last without a body, are answered one for one |
| `HttpServers.BodyMeetsNextRequest` | contrib/http/http_server.cc:53-57 | a body is parsed as the start of the next request, which is refused unless the two together begin with a method or an empty line |
| `HttpServers.PipelinedWaits` | contrib/http/http_server.cc:53-57 | of several requests in one read only the first is answered, the rest waits for the next read |
| `TimerRuns.OwnedExactlyOnce` | src/timer_queue.cc:57-118 | at every moment of every run, inside callbacks too, timers_ plus the unfinished batch hold each live timer once, and in_use_ finds it under its id |
| `Timers.IdsAreFresh` | src/timer_queue.cc:71-78 | an issued id appears nowhere in the history before |
| `Timers.FreedOnce` | src/timer_queue.cc:112-116 | a timer is gone from the heap exactly when it has been freed, once, and nothing about it happens later |
| `Timers.Actions` | src/timer_queue.cc:27-30 | an arbitrary script of Add and Cancel inside a callback keeps the invariant and the batch, and starts nothing |
| `Timers.Turn` | src/timer_queue.cc:110-118 | one turn of the pass, callback included, keeps the invariant and consumes the head of the batch |
| `Timers.PassTurns` | src/timer_queue.cc:110-120 | a pass takes the turns of its batch, each once, in order, at the time of the pass |
| `Timers.PassRunsTheDue` | src/timer_queue.cc:98-120 | the batch is exactly the timers due at entry, distinct and in deadline order; added and re-armed ones are not in it |
| `Timers.TurnVerdict` | src/timer_queue.cc:27-30 | a turn calls the callback if and only if the timer was not cancelled before, with the deadline the history gives |
| `Timers.TurnEffect` | src/timer_queue.cc:110-118 | a live timer whose callback returns a positive delay goes back that much later and stays live, every other one is freed |
| `TimerRuns.DeadlinesAreKept` | src/timer_queue.cc:98-120 | at every moment of every run each timer stands with the deadline the moves give it: the first one plus the positive delays its callback returned |
| `TimerRuns.CancelIsPermanent` | src/timer_queue.cc:41-55 | Cancel of an issued id at any moment of a run, also in a callback and of the timer being called: its callback is never entered afterwards, whatever follows |
| `TimerRuns.ReachesSound` | src/timer_queue.cc:41-120 | every moment of a run keeps the invariant and only adds to the history |
| `TimerRuns.InsideCallback` | src/timer_queue.cc:27-30 | what a callback has reached between any two of its actions is a moment of the run, and the rest of the turn follows from it |
| `TimerRuns.RunIsMoves` | src/timer_queue.cc:98-120 | every run of adds, cancels and passes goes through such moments |
| `TimerRuns.ActionsConcat` | src/timer_queue.cc:27-30 | a callback's script can be stopped and resumed anywhere |
| `Timers.UnissuedCancelIsForgotten` | src/timer_queue.cc:41-46 | cancelling any id not yet issued changes nothing, and a continuation exists in which that timer is called |
| `Timers.CancelTwice` | src/timer_queue.cc:47-51 | a repeated Cancel changes nothing |
| `Timers.Run` | src/timer_queue.cc:41-120 | every run of adds, cancels and passes keeps the invariant and only adds to the history |
| `Timers.SleepIsExact` | src/timer_queue.cc:86-96 | a timer is due at t exactly when t is at or past the time the loop was told to sleep to |
| `TimerQueues.TimerQueue.AddTimer` | src/timer_queue.cc:57-78 | the object after AddTimer is the functional queue after it |
| `TimerQueues.TimerQueue.Cancel` | src/timer_queue.cc:41-55 | the same for Cancel, also when called by a callback |
| `TimerQueues.TimerQueue.CallOne` | src/timer_queue.cc:110-118 | the loop body with its re-entrant callback is one Turn |
| `TimerQueues.TimerQueue.Call` | src/timer_queue.cc:27-30 | the re-entrant call, skipped for a cancelled timer |
| `TimerQueues.TimerQueue.Settle` | src/timer_queue.cc:112-117 | the timer is freed or put back, by the delay returned |
| `TimerQueues.TimerQueue.DoExpired` | src/timer_queue.cc:98-120 | the two loops compute the pass, and leave expired_ empty |
| `TimerQueues.TimerQueue.SleepTime` | src/timer_queue.cc:86-96 | returns what SleepIsExact is about |
| `TimerQueues.TimerQueue.Destroy` | src/timer_queue.cc:80-84 | between passes, deleting what timers_ holds frees every timer |
| `Pollers.Channel.Handle` | src/channel.cc:14-32 | calls exactly the callbacks of the bits reported, in the order read, write, error, close |
| `Pollers.PushSlot` | src/unix_poll.cc:65-73 | registering keeps the array dense and adds one entry to the abstract registry |
| `Pollers.ModifySlot` | src/unix_poll.cc:79-86 | re-negating or not, an update changes one entry only |
| `Pollers.SwapRemove` | src/unix_poll.cc:103-112 | swap with the last and pop keeps every slot and index naming each other and removes one entry |
| `Pollers.EndFdFound` | src/unix_poll.cc:105-107 | end_fd is the last slot's descriptor exactly when that slot is not an un-negated 0 |
| `Pollers.SlotParity` | src/unix_poll.cc:83-86 | after any requests to a new UPoll, a registered descriptor is ignored by poll exactly when the empty updates since its registration are odd in number |
| `Pollers.PollMatchesEpoll` | src/unix_poll.cc:62-114 | after every request of a history UPoll polls everybody who asked for events, as epoll does, if and only if nobody asks for events after an odd number of empty updates |
| `Pollers.SlotsRight` | src/unix_poll.cc:83-86 | slots are negated exactly while no events are asked for, at all times, if and only if registrations are non-empty and an empty update is followed by removal only |
| `Pollers.DisabledForGood` | src/unix_poll.cc:83-86 | a concrete history: events enabled again after being disabled are never polled for |
| `Pollers.UPoll.UpdateChannel` | src/unix_poll.cc:62-88 | the slot of that descriptor only is updated, sign included, index valid; and the exact condition under which the sign comes out right |
| `Pollers.UPoll.RemoveChannel` | src/unix_poll.cc:90-114 | removes exactly that descriptor and sets index -1; fails an assert exactly when events are still asked for or a trailing slot holds descriptor 0 |
| `Pollers.ReadyExactly` | src/unix_poll.cc:37-52 | the slots that carry events, each once, in array order |
| `Pollers.UPoll.FillActivedChannels` | src/unix_poll.cc:35-53 | the first num_events ready slots deliver their own channel and revents, despite the early exit |
| `Pollers.UPoll.PollUntil` | src/unix_poll.cc:35-53 | delivers exactly the channels that are not ignored and have something to report, each once with its own report |
| `Pollers.EPoller.UpdateChannel` | src/epoller.cc:22-39 | the same registry update as UPoll |
| `Pollers.EPoller.RemoveChannel` | src/epoller.cc:41-56 | the same removal; finds by descriptor, and asserts exactly when another channel is registered for it or events are still asked for |
| `Pollers.EPoller.FillActivedChannels` | src/epoller.cc:115-126 | every reported event reaches its channel once, with its revents |
| `Pollers.EPoller.PollUntil` | src/epoller.cc:96-111 | delivers what epoll_wait stored; the array shrinks but keeps at least one element |
| `Pollers.PollRun` | src/unix_poll.cc:62-114 | after any requests over positive descriptors the slots of UPoll, signs included, are those of the abstract history |
| `Pollers.RegistersAll` | src/unix_poll.cc:62-114 | and they register exactly the abstract registry, for its events |
| `Pollers.EpollRun` | src/epoller.cc:22-56 | after the same requests the kernel's list of EPoller is the abstract registry |
| `Pollers.PollDelivers` | src/unix_poll.cc:35-114 | if no request is empty, poll after them delivers exactly the registered channels that have something to report |
| `Connections.BufferedMeansArmed` | src/tcp_connection.cc:199-202 | the branch for buffered bytes without POLLOUT is never taken |
| `Connections.SendKeeps` | src/tcp_connection.cc:171-231 | Send keeps conservation, FIN order, callback accounting and arming for every kernel answer |
| `Connections.HandleWriteKeeps` | src/tcp_connection.cc:83-114 | so does HandleWrite whenever bytes are buffered, also after HandleClose |
| `Connections.ShutdownKeeps` | src/tcp_connection.cc:233-245 | so does Shutdown with an empty or a pending buffer |
| `Connections.ShutdownSendsFin` | src/tcp_connection.cc:233-245 | half-shut at once, later Sends are ignored, SHUT_WR follows immediately exactly when nothing is buffered, otherwise with the write that empties the buffer |
| `Connections.HandleCloseKeeps` | src/tcp_connection.cc:125-141 | so does HandleClose, which leaves the channel unregistered |
| `Connections.DestroyKeeps` | src/tcp_connection.cc:116-123 | DestroyConnection on a closed connection only unregisters, and RemoveChannel's assert holds |
| `Connections.OwedAppend` | src/tcp_connection.cc:152-170 | when a write_cb_ is owed, and that queuing one when it is owed keeps the no-idle rule |
| `Connections.SendIdle` | src/tcp_connection.cc:203-224 | an accepted Send on an idle connection buffers what was not taken and queues write_cb_ exactly when all was |
| `Connections.SendQueues` | src/tcp_connection.cc:203-224 | SendUnsafe queues write_cb_ exactly when the kernel takes a whole payload at once |
| `Connections.HighWaterExactly` | src/tcp_connection.cc:195-230 | the high-watermark callback is called exactly when one Send on an idle connection leaves that much; what later Sends add is never compared |
| `Connections.SendBusy` | src/tcp_connection.cc:195-202 | a Send behind buffered bytes is appended to them whatever the kernel would answer |
| `Connections.WriteEffect` | src/tcp_connection.cc:90-101 | HandleWrite queues write_cb_ exactly when it empties the buffer |
| `Connections.SendNotifies` | src/tcp_connection.cc:203-224 | a Send notes one write_cb_ exactly when it is taken whole, and otherwise none |
| `Connections.WriteNotifies` | src/tcp_connection.cc:97-104 | a write event notes one exactly when it empties the buffer |
| `Connections.DestroyEnds` | src/tcp_connection.cc:116-123 | on an established connection DestroyConnection closes, without events, and writes nothing |
| `TcpConnections.TcpConnection.constructor` | src/tcp_server.cc:30-38 | a fresh connection is established, reading, registered and silent |
| `TcpConnections.TcpConnection.HandleRead` | src/tcp_connection.cc:70-81 | input grows by what was read; end of file closes |
| `TcpConnections.TcpConnection.HandleWrite` | src/tcp_connection.cc:83-114 | over the real buffer, channel and poller: the functional transition, write_cb_ queued exactly on drain |
| `TcpConnections.TcpConnection.SendUnsafe` | src/tcp_connection.cc:185-231 | the same for the four send cases, with the exact conditions for queuing write_cb_ and for calling the high-watermark callback |
| `TcpConnections.TcpConnection.Send` | src/tcp_connection.cc:171-181 | nothing happens unless established |
| `TcpConnections.TcpConnection.Shutdown` | src/tcp_connection.cc:233-245 | the functional transition on the object |
| `TcpConnections.TcpConnection.HandleClose` | src/tcp_connection.cc:125-141 | closes once, leaves the poller, tells whether the callbacks follow |
| `TcpConnections.TcpConnection.DestroyConnection` | src/tcp_connection.cc:116-123 | ends unregistered, or fails RemoveChannel's assert exactly when the connection is not established and its channel still asks for events |
| `TcpServers.TcpServer.NewConnection` | src/tcp_server.cc:25-40 | a new id, a new open connection, nothing else in the map changes |
| `TcpServers.TcpServer.RemoveConnection` | src/tcp_server.cc:42-46 | the map forgets the connection and the loop's queue holds it |
| `ServerRuns.StepSound` | src/tcp_server.cc:25-46 | every step of dispatch, timers, functors and user code keeps the life-cycle invariant |
| `ServerRuns.RunSound` | src/event_loop.cc:40-55 | hence every run does |
| `ServerRuns.StreamsHold` | src/tcp_connection.cc:83-231 | in every run, for every connection: stream conservation, FIN last, write-complete accounting, arming |
| `ServerRuns.DestroySafe` | src/tcp_server.cc:42-46 | a connection is destroyed only after dispatch, with the finished functors, or by user code letting go of its own pointer; it is then closed, without events, unregistered and not to be handled again |
| `ServerRuns.NoClosedSurvivor` | src/event_loop.cc:44-53 | at every poll a closed connection that still exists is held by user code, and is in no poller |
| `ServerRuns.PollReportsOpen` | src/event_loop.cc:46-50 | poll reports only open connections, and live descriptors are distinct |
| `ServerRuns.DestroyFindsClosed` | src/tcp_connection.cc:116-123 | a queued DestroyConnection runs on a live closed connection and leaves it unregistered |
| `ServerRuns.ClosedChannelRegisteredAgain` | src/tcp_connection.cc:97-112 | after a close in the read test, the write test can put the closed channel back into the poller; its destruction is then still queued |
| `ServerRuns.ClosedThenWritable` | src/channel.cc:14-32 | a run from the start in which that happens |
| `ServerRuns.SilentAfterFin` | src/tcp_connection.cc:240-245 | after SHUT_WR no step adds to the connection's history |
| `ServerBooks.WriteCallbacksReachTheLoop` | src/tcp_connection.cc:97-224 | in every run: each write_cb_ in a connection's history has been called by the loop, is in its round or in its queue, once, and no other is |
| `ServerBooks.DestroyedExactlyOnce` | src/tcp_server.cc:42-46 | in every run: DestroyConnection ran exactly once for each connection that is gone, and is queued for none that is open |
| `ServerBooks.StreamIsWhatWasSent` | src/tcp_connection.cc:83-231 | in every run: what the kernel says it took, followed by what is buffered, is what user code sent and was accepted, in order |
| `ServerBooks.StepTimes` | src/event_loop.cc:73-101 | every step queues what is due, once, and no functor is lost or repeated |
| `ServerBooks.StepEntered` | src/tcp_connection.cc:83-245 | every step enters in each connection's history the payload accepted, the bytes taken and the write_cb_ due, and nothing else |
| `ServerBooks.CloseCloses` | src/tcp_connection.cc:125-141 | end of file and hang-up close an open connection, unregister it, and lead to close_cb_ |
| `ServerBooks.AfterShutdown` | src/tcp_connection.cc:233-245 | after Shutdown nothing more is accepted in any continuation, and what was buffered stays |
| `ServerBooks.EveryEventIsHandled` | src/event_loop.cc:46-50 | when dispatch ends, every reported channel has been handled once, in the order reported |
| `ServerBooks.HandlesInOrder` | src/channel.cc:14-32 | handling tests read, write, error, close, each once and in this order, whatever user code does in between |
| `ServerBooks.HeldIsNotDestroyed` | src/tcp_server.cc:42-46 | a connection that user code points to is not destroyed before it lets go |
| `ServerBooks.DroppedIsLetGo` | src/tcp_server.cc:42-46 | once it lets go, only the server or a queued functor keeps the connection |
| `ServerBooks.LoopGetsOn` | src/event_loop.cc:44-53 | in every run the loop has a step to make until it is back at poll |
| `ServerBooks.LoopComesBack` | src/event_loop.cc:44-53 | and each of its own steps lowers a measure, so that it comes back to poll |
| `LoopRuns.HeardStep` | src/event_loop.cc:40-138 | every atomic step of any thread keeps the wake-up invariant |
| `LoopRuns.NeverSleepsOnWork` | src/event_loop.cc:40-138 | in every interleaving that enters Loop() with an empty queue, a signal or done_: a loop blocked in poll with an unreadable eventfd and no thread before its write has an empty queue and is not told to stop |
| `LoopRuns.SafeExactlyWhenCovered` | src/event_loop.cc:40-84 | that condition is exact: some continuation loses a wake-up if and only if Loop() is entered otherwise |
| `LoopRuns.EarlyPush` | src/event_loop.cc:73-84 | after an own push before Loop() the first poll is safe if and only if something else signals or done_ is set |
| `LoopRuns.EarlyPushAlone` | src/event_loop.cc:73-84 | on a new loop such a push is slept on |
| `LoopRuns.QuitIsRemembered` | src/event_loop.cc:133-138 | done_ is set exactly when somebody has called Quit, on any thread |
| `LoopRuns.ExitsExactlyAfterQuit` | src/event_loop.cc:44 | the test of done_ ends the loop exactly when a Quit has happened in the run |
| `LoopRuns.OnlyQuitEndsTheLoop` | src/event_loop.cc:44 | a loop that has ended was told to |
| `LoopRuns.QuitEndsTheLoop` | src/event_loop.cc:44-53 | after a Quit poll returns at most once more, in any interleaving |
| `LoopRuns.FifoExactlyOnce` | src/event_loop.cc:73-101 | executed, rest of the round, queue: always the pushes in order |
| `LoopRuns.RoundIsTheSwap` | src/event_loop.cc:86-101 | whatever other threads do, a round calls exactly what was queued at the swap |
| `LoopRuns.RoundRuns` | src/event_loop.cc:86-101 | what the functors of a round queue is left, in order, for the next one, with the eventfd readable |
| `LoopRuns.WokenLoopRunsEverything` | src/event_loop.cc:44-53 | a loop with a readable eventfd calls everything queued within one iteration |
| `EventLoops.EventLoop.QueueInLoop` | src/event_loop.cc:73-84 | the push, and the eventfd write exactly while functors are being called |
| `EventLoops.EventLoop.Quit` | src/event_loop.cc:133-138 | done_ is set |
| `EventLoops.EventLoop.WakeUp` | src/event_loop.cc:103-111 | the eventfd is readable afterwards, also at its maximum |
| `EventLoops.EventLoop.HandleWakeUpRead` | src/event_loop.cc:124-131 | resets the eventfd |
| `EventLoops.EventLoop.DoPeddingFunctors` | src/event_loop.cc:86-101 | calls exactly the old queue and leaves exactly what those functors queued |

## Left out

- Integer widths: buffer sizes, timer ids, deadlines and connection ids are unbounded. The eventfd counter and the result of stoi keep their widths.
- EventLoop.Loop as a method: it runs until Quit, so it is the step system of LoopRuns, and ServerRuns for what it dispatches.
- Threads: mutexed sections and flag writes are single steps. The C++ memory model, thread-local checks, and Send, Shutdown and AddTimer from other threads are not modelled.
- ServerRuns: the wake-up and accept channels are not among the dispatched ones; accept is a step between two handlers. The timers phase of the loop is user code only.
- ServerRuns: TcpServer's destructor, which may destroy half-shut connections, and the destructors of loop and channel.
- TcpConnections.TcpConnection.SendUnsafe: tells whether the high-watermark callback is called; what it does, being in tail position, is a later Shutdown or Send step.
- HttpServers.ReadCb: the user's message callbacks are functions of the request; the connection callbacks are not modelled.
- FileStreaming.WholeFile: one request at a time on a connection.
- EventLoops.EventLoop.QueueInLoop: the loop thread's own call; the calls of other threads are the steps of LoopRuns.
- EventLoops.EventLoop.DoPeddingFunctors: without pushes by other threads between its steps; RoundIsTheSwap has them.
- HttpRoundTrip.MessageRoundTrip: transfer-encoding bodies, on which the parser only waits.
- Pollers.EPoller.UpdateChannel: epoll_ctl succeeds; a failure is only logged by the code.
- Pollers.Channel.Handle: returns which callbacks are called; what they do is in TcpConnections and ServerRuns.
- TcpServers.TcpServer.RemoveConnection: the functor queue is a list of connections here; its place in the loop is in ServerRuns.
- Acceptor, Connector, TcpClient, UDP, sockets, addresses, the ring buffer, logging, tools and examples are not part of this model.
