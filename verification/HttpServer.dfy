/** contrib/http/http_response.cc and contrib/http/http_server.cc: the response object and the two
    callbacks, over the real connection, buffer and parser objects. */
module HttpServers {
  import opened Bytes
  import opened Buffers
  import opened HttpUtils
  import opened HttpParsing
  import opened HttpRequests
  import opened HttpRoundTrip
  import opened FileStreaming
  import opened TcpConnections
  import Conns = Connections

  /** All that is in a response. */
  datatype Prepared = Prepared(status: nat, headers: map<string, string>, body: string, file: File)

  const NO_FILE := File("", 0, false, false)

  class FileResponse {
    var headers: map<string, string>
    var statusCode: nat
    const buf: Buffer
    const content: string
    const isOpen: bool
    var pos: nat
    var eof: bool

    ghost predicate Valid()
      reads this, buf
    {
      buf.Valid() && pos <= |content|
    }

    function Position(): File
      reads this
    {
      File(content, pos, isOpen, eof)
    }

    ghost function Whole(): Prepared
      requires Valid()
      reads this, buf, buf.data
    {
      Prepared(statusCode, headers, buf.Contents(), Position())
    }

    /** The base class HttpResponse, or what user code makes of a FileResponse: `more` is a file still
        to be loaded. */
    constructor Made(statusCode: nat, headers: map<string, string>, body: string, more: Option<string>)
      ensures Valid() && fresh(buf) && fresh(buf.data)
      ensures Whole() ==
              Prepared(statusCode, headers, body, if more.Some? then File(more.value, 0, true, false) else NO_FILE)
    {
      this.headers, this.statusCode := headers, statusCode;
      buf := new Buffer(|body|, 0);
      content := if more.Some? then more.value else "";
      isOpen := more.Some?;
      pos, eof := 0, false;
      new;
      buf.Append(body);
      assert "" + body == body;
    }

    constructor (disk: Disk, path: string, statusCode: nat)
      ensures Valid() && fresh(buf) && fresh(buf.data) && this.statusCode == statusCode
      ensures (headers, buf.Contents(), Position()) == NewResponse(disk, path)
    {
      headers := if disk.regular then map["content-length" := ToDecimal(|disk.content|)] else map[];
      this.statusCode := statusCode;
      buf := new Buffer(1024, 0);
      content := if disk.regular then disk.content else "";
      isOpen := disk.regular && disk.opens;
      pos, eof := 0, false;
      new;
      if disk.regular && !disk.opens {
        buf.Append("Cannot open " + path);
      }
    }

    method LoadData()
      requires Valid()
      modifies this`pos, this`eof, buf, buf.data
      ensures Valid() && (buf.data == old(buf.data) || fresh(buf.data))
      ensures HasMore(old(Position())) ==>
                && Position() == AfterBlock(old(Position()))
                && buf.Contents() == old(buf.Contents() + NextBlock(Position()))
      ensures !HasMore(old(Position())) ==> Position() == old(Position()) && buf.Contents() == old(buf.Contents())
    {
      if !HasMore(Position()) { return; }
      var readed := NextBlock(Position());
      pos := pos + |readed|;
      eof := |readed| < BLOCK;
      ghost var was := buf.Contents();
      if |readed| > 0 {
        buf.Append(readed);
      }
      assert was + "" == was;
    }

    method StartAndFieldToString() returns (text: string, ghost order: seq<Pair>)
      requires Valid()
      modifies this`headers
      ensures headers == WithLength(old(headers), |buf.Contents()|)
      ensures Lists(order, headers) && text == HeaderText(statusCode, order)
    {
      if "content-length" !in headers && !Chunked(headers) {
        headers := headers["content-length" := ToDecimal(buf.ReadableBytes())];
      }
      var fields;
      fields, order := WalkFields(headers);
      text := StatusLine(statusCode) + CRLF + fields + CRLF;
    }
  }

  /** Lines 22-24: the hash map is walked in some order. */
  method WalkFields(headers: map<string, string>) returns (text: string, ghost order: seq<Pair>)
    ensures Lists(order, headers) && text == FieldsText(order)
  {
    text, order := "", [];
    var left := headers.Keys;
    while left != {}
      invariant left <= headers.Keys && text == FieldsText(order)
      invariant Walked(order, headers, left)
      decreases left
    {
      var k :| k in left;
      FieldsTextAppend(order, (k, headers[k]));
      WalkOn(order, headers, left, k);
      text := text + FieldLine((k, headers[k])) + CRLF;
      order := order + [(k, headers[k])];
      left := left - {k};
    }
  }

  /** `order` lists the entries whose keys are not in `left`. */
  ghost predicate Walked(order: seq<Pair>, m: map<string, string>, left: set<string>)
  {
    && (forall i | 0 <= i < |order| :: order[i].0 in m && order[i].0 !in left && m[order[i].0] == order[i].1)
    && (forall i, j | 0 <= i < j < |order| :: order[i].0 != order[j].0)
    && (forall k | k in m && k !in left :: exists i | 0 <= i < |order| :: order[i].0 == k)
  }

  lemma WalkOn(order: seq<Pair>, m: map<string, string>, left: set<string>, k: string)
    requires Walked(order, m, left) && k in left && k in m
    ensures Walked(order + [(k, m[k])], m, left - {k})
  {
    var next := order + [(k, m[k])];
    forall x | x in m && x !in left - {k} ensures exists i | 0 <= i < |next| :: next[i].0 == x {
      if x == k {
        assert next[|order|].0 == k;
      } else {
        var i :| 0 <= i < |order| && order[i].0 == x;
        assert next[i].0 == x;
      }
    }
  }

  lemma {:induction false} FieldsTextAppend(fields: seq<Pair>, f: Pair)
    ensures FieldsText(fields + [f]) == FieldsText(fields) + FieldLine(f) + CRLF
    decreases |fields|
  {
    if fields == [] {
      assert [f][1..] == [];
      assert FieldsText([f]) == FieldLine(f) + CRLF + "";
    } else {
      assert (fields + [f])[1..] == fields[1..] + [f];
      FieldsTextAppend(fields[1..], f);
    }
  }

  /** The response's buffer is none of the connection's. */
  ghost predicate Apart(conn: TcpConnection, response: FileResponse)
    reads conn, conn.input, conn.output, response, response.buf
  {
    && response.buf != conn.input && response.buf != conn.output
    && response.buf.data != conn.input.data && response.buf.data != conn.output.data
  }

  /** Lines 107-120, on the real objects: the WriteCallback step of FileStreaming. */
  method WriteCb(conn: TcpConnection, response: FileResponse, r: Conns.WriteResult) returns (queued: bool)
    requires conn.Valid() && response.Valid() && Apart(conn, response) && response.buf.Contents() == ""
    requires HasMore(response.Position()) ==> Conns.Possible(r, |NextBlock(response.Position())|)
    modifies conn, conn.channel, conn.poller, conn.output, conn.output.data
    modifies response, response.buf, response.buf.data
    ensures conn.Valid() && response.Valid() && response.buf.Contents() == ""
    ensures HasMore(old(response.Position())) ==>
              && conn.Value() == Conns.Send(old(conn.Value()), NextBlock(old(response.Position())), r)
              && response.Position() == AfterBlock(old(response.Position()))
    ensures !HasMore(old(response.Position())) ==>
              !queued && conn.Value() == old(conn.Value()) && response.Position() == old(response.Position())
    ensures forall s: Stream | IsAt(s, old(conn.Value()), old(response.Position())) && Enabled(s, WriteCallback(r)) ::
              var t := Next(s, WriteCallback(r));
              IsAt(t, conn.Value(), response.Position()) && t.callbacks == s.callbacks - 1 + if queued then 1 else 0
  {
    hide Conns.Send, AfterBlock, NextBlock;
    queued := false;
    if HasMore(response.Position()) {
      ghost var block := NextBlock(response.Position());
      response.LoadData();
      assert "" + block == block;
      var size := response.buf.ReadableBytes();
      var data := response.buf.View(size);
      assert data == block;
      var high;
      queued, high := conn.Send(data, r);
      response.buf.Pop(size);
    }
  }

  /** Connection and file of a transfer. */
  predicate IsAt(s: Stream, c: Conns.Conn, f: File)
  {
    s.conn == c && s.file == f
  }

  /** What a user's MessageCallback returns; `more` is a file to be sent after the body. */
  datatype Custom = Custom(status: nat, headers: map<string, string>, body: string, more: Option<string>)

  /** A MessageCallback: AddStaticFile's, or the user's own. */
  datatype Route = StaticFile(path: string) | Callback(respond: Request -> Custom)

  /** Line 77: the response for a routed request. `disks` is the file system. */
  function AnswerOf(route: Route, q: Request, disks: string -> Disk): Prepared
  {
    match route
    case StaticFile(path) =>
      if q.method_ != Get then Prepared(400, map[], "", NO_FILE)
      else
        var (headers, body, file) := NewResponse(disks(path), path);
        Prepared(200, headers, body, file)
    case Callback(respond) =>
      var c := respond(q);
      Prepared(c.status, c.headers, c.body, if c.more.Some? then File(c.more.value, 0, true, false) else NO_FILE)
  }

  datatype Reply = Waiting | BadRequest | NotFound | Found | Crashed

  /** Lines 40-45; kNotFound has the value of kBadRequest. */
  const BAD_REQUEST: string := "HTTP/1.1 400"
  const NOT_FOUND: string := "HTTP/1.1 400"

  /** Lines 53-55: a finished request is replaced before more bytes are parsed. */
  function Current(q: Request): Request
  {
    if q.state == Done then FRESH else q
  }

  function ReplyTo(state: ParseState, router: string, routes: map<string, Route>): Reply
  {
    match state
    case RequestIsBad => BadRequest
    case Done => if router in routes then Found else NotFound
    case _ => Waiting
  }

  class Context {
    var request: HttpRequest

    constructor ()
      ensures request.Value() == FRESH && fresh(request)
    {
      request := new HttpRequest();
    }
  }

  /** Lines 51-72 up to the router: what to answer, and what was read. */
  method ParseInput(context: Context, input: Buffer, routes: map<string, Route>) returns (reply: Reply)
    requires input.Valid()
    modifies context, context.request, input`head
    ensures input.Valid() && (context.request == old(context.request) || fresh(context.request))
    ensures match Process(Current(old(context.request.Value())), old(input.Contents()))
            case Undefined => reply == Crashed
            case Parsed(q, rest) =>
              context.request.Value() == q && input.Contents() == rest && reply == ReplyTo(q.state, q.router, routes)
  {
    if context.request.state == Done {
      context.request := new HttpRequest();
    }
    var undefined := context.request.Process(input);
    reply := if undefined then Crashed else ReplyTo(context.request.state, context.request.router, routes);
  }

  /** A request that cannot be served is answered and the connection half-closed. */
  method Refuse(conn: TcpConnection, text: string, r: Conns.WriteResult)
    requires conn.Valid() && Conns.Possible(r, |text|)
    modifies conn, conn.channel, conn.poller, conn.output, conn.output.data
    ensures conn.Valid() && conn.Value() == Conns.Shutdown(Conns.Send(old(conn.Value()), text, r))
  {
    var queued, high := conn.Send(text, r);
    var fin := conn.Shutdown();
  }

  /** What write(2) will answer to a request of each size. */
  ghost predicate Kernel(k: nat -> Conns.WriteResult)
  {
    forall n: nat :: Conns.Possible(k(n), n)
  }

  lemma KernelAt(k: nat -> Conns.WriteResult, n: nat)
    requires Kernel(k)
    ensures Conns.Possible(k(n), n)
  {
  }

  /** Sending the header, then the body if there is any. */
  function Answered(
    c: Conns.Conn, header: string, body: string, k: nat -> Conns.WriteResult, k': nat -> Conns.WriteResult): Conns.Conn
    requires Conns.Possible(k(|header|), |header|) && Conns.Possible(k'(|body|), |body|)
  {
    var sent := Conns.Send(c, header, k(|header|));
    if body == "" then sent else Conns.Send(sent, body, k'(|body|))
  }

  /** Lines 79-85: the header, then whatever the response holds already. */
  method Answer(
    conn: TcpConnection, response: FileResponse, k: nat -> Conns.WriteResult, k': nat -> Conns.WriteResult)
    returns (ghost order: seq<Pair>)
    requires conn.Valid() && response.Valid() && Apart(conn, response)
    requires Kernel(k) && Kernel(k')
    modifies conn, conn.channel, conn.poller, conn.output, conn.output.data
    modifies response`headers, response.buf`head
    ensures conn.Valid() && response.Valid() && response.buf.Contents() == ""
    ensures response.Position() == old(response.Position())
    ensures Lists(order, WithLength(old(response.headers), |old(response.buf.Contents())|))
    ensures conn.Value() ==
            Answered(old(conn.Value()), HeaderText(response.statusCode, order), old(response.buf.Contents()), k, k')
  {
    hide Conns.Send, HeaderText, WithLength, Lists, Kernel;
    var text: string;
    text, order := response.StartAndFieldToString();
    KernelAt(k, |text|);
    KernelAt(k', |response.buf.Contents()|);
    var queued, high := conn.Send(text, k(|text|));
    SendBody(conn, response, k');
  }

  /** Lines 80-85. */
  method SendBody(conn: TcpConnection, response: FileResponse, k: nat -> Conns.WriteResult)
    requires conn.Valid() && response.Valid() && Apart(conn, response)
    requires Conns.Possible(k(|response.buf.Contents()|), |response.buf.Contents()|)
    modifies conn, conn.channel, conn.poller, conn.output, conn.output.data, response.buf`head
    ensures conn.Valid() && response.Valid() && response.buf.Contents() == ""
    ensures var body := old(response.buf.Contents());
            conn.Value() ==
            if body == "" then old(conn.Value()) else Conns.Send(old(conn.Value()), body, k(|body|))
  {
    hide Conns.Send;
    var size := response.buf.ReadableBytes();
    if size > 0 {
      ghost var body := response.buf.Contents();
      var data := response.buf.View(size);
      assert data == body;
      var queued, high := conn.Send(data, k(|data|));
      response.buf.Pop(size);
    }
  }

  /** Lines 121-130: a file for GET, an empty 400 otherwise. */
  method ReadFileAsResponse(type_: RequestType, disk: Disk, path: string) returns (response: FileResponse)
    ensures fresh(response) && response.Valid() && fresh(response.buf) && fresh(response.buf.data)
    ensures type_ == Get ==>
              (response.headers, response.buf.Contents(), response.Position()) == NewResponse(disk, path)
    ensures type_ != Get ==>
              response.headers == map[] && response.buf.Contents() == "" && response.Position() == NO_FILE
    ensures response.statusCode == if type_ == Get then 200 else 400
  {
    if type_ != Get {
      response := new FileResponse.Made(400, map[], "", None);
    } else {
      response := new FileResponse(disk, path, 200);
    }
  }

  /** The routed callback runs. */
  method Respond(route: Route, q: Request, disks: string -> Disk) returns (response: FileResponse)
    ensures fresh(response) && response.Valid() && fresh(response.buf) && fresh(response.buf.data)
    ensures response.Whole() == AnswerOf(route, q, disks)
  {
    hide NewResponse;
    if route.StaticFile? {
      response := ReadFileAsResponse(q.method_, disks(route.path), route.path);
    } else {
      var c := route.respond(q);
      response := new FileResponse.Made(c.status, c.headers, c.body, c.more);
    }
  }

  /** Lines 47-91. */
  method ReadCb(
    conn: TcpConnection, context: Context, routes: map<string, Route>, disks: string -> Disk,
    k: nat -> Conns.WriteResult, k': nat -> Conns.WriteResult)
    returns (reply: Reply, response: FileResponse?, ghost order: seq<Pair>)
    requires conn.Valid() && Kernel(k) && Kernel(k')
    modifies context, context.request, conn, conn.channel, conn.poller, conn.input, conn.output, conn.output.data
    ensures conn.Valid()
    ensures match Process(Current(old(context.request.Value())), old(conn.input.Contents()))
            case Undefined => reply == Crashed
            case Parsed(q, rest) =>
              && reply == ReplyTo(q.state, q.router, routes)
              && context.request.Value() == q && conn.input.Contents() == rest
    ensures reply == Waiting || reply == Crashed ==> conn.Value() == old(conn.Value())
    ensures reply == BadRequest || reply == NotFound ==>
              conn.Value() == Conns.Shutdown(Conns.Send(old(conn.Value()), BAD_REQUEST, k(|BAD_REQUEST|)))
    ensures reply == Found ==>
              && response != null && response.Valid() && response.buf.Contents() == ""
              && context.request.router in routes
              && var answer := AnswerOf(routes[context.request.router], context.request.Value(), disks);
                 response.Position() == answer.file &&
                 FoundIs(old(conn.Value()), conn.Value(), answer, order, k, k')
  {
    hide Conns.Send, HeaderText, WithLength, Lists, Process, AnswerOf, Answered, Kernel, FoundIs;
    response, order := null, [];
    reply := ParseInput(context, conn.input, routes);
    KernelAt(k, |BAD_REQUEST|);
    match reply {
      case Waiting =>
      case Crashed =>
      case BadRequest => Refuse(conn, BAD_REQUEST, k(|BAD_REQUEST|));
      case NotFound => Refuse(conn, NOT_FOUND, k(|NOT_FOUND|));
      case Found =>
        response, order := Serve(conn, routes[context.request.router], context.request.Value(), disks, k, k');
    }
  }

  /** Lines 77-85. */
  method Serve(
    conn: TcpConnection, route: Route, q: Request, disks: string -> Disk,
    k: nat -> Conns.WriteResult, k': nat -> Conns.WriteResult)
    returns (response: FileResponse, ghost order: seq<Pair>)
    requires conn.Valid() && Kernel(k) && Kernel(k')
    modifies conn, conn.channel, conn.poller, conn.output, conn.output.data
    ensures conn.Valid() && response.Valid() && fresh(response) && response.buf.Contents() == ""
    ensures response.Position() == AnswerOf(route, q, disks).file
    ensures FoundIs(old(conn.Value()), conn.Value(), AnswerOf(route, q, disks), order, k, k')
  {
    hide Conns.Send, HeaderText, WithLength, Lists, AnswerOf, Answered, Kernel;
    response := Respond(route, q, disks);
    order := Answer(conn, response, k, k');
  }

  /** The connection after a routed request: header and initial body of the response have been sent. */
  ghost predicate FoundIs(
    before: Conns.Conn, after: Conns.Conn, answer: Prepared, order: seq<Pair>,
    k: nat -> Conns.WriteResult, k': nat -> Conns.WriteResult)
    requires Kernel(k) && Kernel(k')
  {
    && Lists(order, WithLength(answer.headers, |answer.body|))
    && after == Answered(before, HeaderText(answer.status, order), answer.body, k, k')
  }

  /** The transfer ReadCb leaves behind: its connection, the response's file, write_cb_ if it was queued. */
  function Left(before: Conns.Conn, after: Conns.Conn, file: File, failed: bool): Stream
  {
    Stream(after, file, Queue(before, after), 0, 0, failed)
  }

  /** A GET of a file that opens, from the state in which ReadCb leaves connection and response: once
      WriteCb and HandleWrite have nothing more to do, the kernel has taken the printed header and the
      whole file, unless a Send met a hard error. */
  lemma FileIsServed(
    before: Conns.Conn, after: Conns.Conn, path: string, q: Request, disks: string -> Disk, order: seq<Pair>,
    k: nat -> Conns.WriteResult, k': nat -> Conns.WriteResult, steps: seq<Step>, s: Stream)
    requires Kernel(k) && Kernel(k')
    requires Conns.Inv(before) && before.state == Conns.Established && before.out == ""
    requires q.method_ == Get && disks(path).regular && disks(path).opens
    requires FoundIs(before, after, AnswerOf(StaticFile(path), q, disks), order, k, k')
    requires var failed := k(|HeaderText(200, order)|).HardError?;
             Run(Left(before, after, AnswerOf(StaticFile(path), q, disks).file, failed), steps, s)
    requires Quiet(s) && !s.failed
    ensures Conns.TakenBytes(s.conn.log) ==
            Conns.SubmittedBytes(before.log) + HeaderText(200, order) + disks(path).content
    ensures order == [("content-length", ToDecimal(|disks(path).content|))]
    ensures ReadsAs(HeaderText(200, order) + disks(path).content, 200,
                    map["content-length" := ToDecimal(|disks(path).content|)], disks(path).content)
  {
    hide Conns.Inv, Conns.Send, Conns.TakenBytes, Conns.SubmittedBytes;
    hide ReadsAs, HeaderText, Run, Kernel, Lists, ToDecimal;
    var header := HeaderText(200, order);
    KernelAt(k, |header|);
    assert Left(before, after, AnswerOf(StaticFile(path), q, disks).file, k(|header|).HardError?) ==
           Begin(before, header, disks(path).content, k(|header|));
    OneFileTransfer(before, disks(path), path, 200, order, k(|header|), steps, s);
  }

  /** A response without a file, such as most callbacks make: on an idle connection without hard errors
      header and body are submitted, and they read as the status, the fields and the body. */
  lemma ResponseIsServed(
    before: Conns.Conn, after: Conns.Conn, answer: Prepared, order: seq<Pair>,
    k: nat -> Conns.WriteResult, k': nat -> Conns.WriteResult)
    requires Kernel(k) && Kernel(k') && FoundIs(before, after, answer, order, k, k')
    requires Conns.Inv(before) && before.state == Conns.Established && before.out == ""
    requires !k(|HeaderText(answer.status, order)|).HardError? && !k'(|answer.body|).HardError?
    requires Printable(answer.headers)
    ensures Conns.SubmittedBytes(after.log) ==
            Conns.SubmittedBytes(before.log) + HeaderText(answer.status, order) + answer.body
    ensures ReadsAs(HeaderText(answer.status, order) + answer.body, answer.status,
                    WithLength(answer.headers, |answer.body|), answer.body)
  {
    var header := HeaderText(answer.status, order);
    HeaderIsRead(answer.status, answer.headers, |answer.body|, order, answer.body);
    KernelAt(k, |header|);
    KernelAt(k', |answer.body|);
    hide Conns.Inv, Conns.Send, Conns.SubmittedBytes, HeaderText, ReadsAs, Kernel, Lists, WithLength;
    AcceptedIsSubmitted(before, header, k(|header|));
    var sent := Conns.Send(before, header, k(|header|));
    if answer.body != "" { AcceptedIsSubmitted(sent, answer.body, k'(|answer.body|)); }
    assert Conns.SubmittedBytes(before.log) + header + "" == Conns.SubmittedBytes(before.log) + header;
  }

  /** Routes to static files that have no file to send: another method than GET is refused with an empty
      400, and what is not a regular file is an empty 200. */
  lemma EmptyAnswers(path: string, q: Request, disks: string -> Disk, order: seq<Pair>)
    requires q.method_ != Get || !disks(path).regular
    requires Lists(order, WithLength(AnswerOf(StaticFile(path), q, disks).headers, 0))
    ensures var answer := AnswerOf(StaticFile(path), q, disks);
            && answer.body == "" && !HasMore(answer.file)
            && ReadsAs(HeaderText(answer.status, order), if q.method_ == Get then 200 else 400,
                       map["content-length" := "0"], "")
  {
    var answer := AnswerOf(StaticFile(path), q, disks);
    HeaderIsRead(answer.status, answer.headers, 0, order, "");
    assert ToDecimal(0) == "0";
    assert HeaderText(answer.status, order) + "" == HeaderText(answer.status, order);
  }

  lemma AcceptedIsSubmitted(c: Conns.Conn, data: string, r: Conns.WriteResult)
    requires Conns.Inv(c) && c.state == Conns.Established && Conns.Possible(r, |data|) && !r.HardError?
    ensures var d := Conns.Send(c, data, r);
            && Conns.Inv(d) && d.state == Conns.Established
            && Conns.SubmittedBytes(d.log) == Conns.SubmittedBytes(c.log) + data
  {
    Conns.SendKeeps(c, data, r);
    IdleIsUnarmed(c);
    hide Conns.Inv, Conns.SubmittedBytes;
    if c.out == "" {
      hide Conns.Send;
      Conns.SendIdle(c, data, r);
    } else {
      Conns.BytesAppend(c.log, Conns.Submitted(data));
    }
  }

  // ---------------------------------------------------------------- several requests on one connection

  /** The reply while a message arrives: none before the parser has what it needs, then the routed
      response, or a refusal if the path has no route. */
  lemma ReplyToMessage(msg: Message, n: nat, routes: map<string, Route>)
    requires msg.Valid() && n <= |msg.Text()|
    ensures Process(FRESH, msg.Text()[..n]).Parsed?
    ensures var q := Process(FRESH, msg.Text()[..n]).request;
            ReplyTo(q.state, q.router, routes) ==
            if n < Needed(msg) then Waiting else if msg.path in routes then Found else NotFound
  {
    hide Process, Message.Text, Message.Valid;
    MessageArrives(msg, n);
    if n >= Needed(msg) { DoneIsTheMessage(msg, n); }
  }

  lemma DoneIsTheMessage(msg: Message, n: nat)
    requires msg.Valid() && n <= |msg.Text()|
    requires var r := Process(FRESH, msg.Text()[..n]); r.Parsed? && r.request.state == Done
    ensures Process(FRESH, msg.Text()[..n]).request == msg.Parsed()
  {
    hide Process, Message.Text, Message.Valid, SpaceOnlyAfterStartLine;
    var front, more := msg.Text()[..n], msg.Text()[n..];
    assert front + more == msg.Text();
    MessageRoundTrip(msg);
    MessageUnambiguous(msg);
    ProcessExtends(FRESH, front, more);
    var r := Process(FRESH, front);
    FinalReturns(r.request, r.rest + more);
  }

  /** Exactly the bad requests are refused as such, and nothing is refused or served before its time. */
  lemma ReplyExactly(state: ParseState, router: string, routes: map<string, Route>)
    ensures var reply := ReplyTo(state, router, routes);
            && (reply == BadRequest <==> state == RequestIsBad)
            && (reply == Found || reply == NotFound <==> state == Done)
            && (reply == Found ==> router in routes) && (reply == NotFound ==> router !in routes)
            && reply != Crashed
  {
  }

  /** Read events on a kept-alive connection: what ParseInput makes of each. */
  function Serving(q: Request, unread: string, inputs: seq<string>): seq<Result>
    decreases |inputs|
  {
    if inputs == [] then []
    else
      var r := Process(Current(q), unread + inputs[0]);
      [r] + if r.Undefined? then [] else Serving(r.request, r.rest, inputs[1..])
  }

  /** A refused request stays refused: it is never replaced, whatever is read after it. */
  lemma {:induction false} BadStaysBad(q: Request, unread: string, inputs: seq<string>)
    requires q.state == RequestIsBad
    ensures |Serving(q, unread, inputs)| == |inputs|
    ensures forall i | 0 <= i < |inputs| ::
              Serving(q, unread, inputs)[i].Parsed? && Serving(q, unread, inputs)[i].request == q
    decreases |inputs|
  {
    hide Process;
    if inputs != [] {
      FinalReturns(q, unread + inputs[0]);
      BadStaysBad(q, unread + inputs[0], inputs[1..]);
    }
  }

  /** The refusal is a status line without its end: the code, and no CRLF. */
  lemma RefusalText()
    ensures BAD_REQUEST == NOT_FOUND == "HTTP/1.1 " + ToDecimal(400)
    ensures Find(BAD_REQUEST, CRLF) == -1
  {
    assert ToDecimal(4) == "4" && ToDecimal(40) == "40" && ToDecimal(400) == "400";
    NoCrNoCrlf(BAD_REQUEST);
  }

  function Texts(msgs: seq<Message>): seq<string>
    requires forall i | 0 <= i < |msgs| :: msgs[i].Valid()
  {
    seq(|msgs|, i requires 0 <= i < |msgs| => msgs[i].Text())
  }

  /** Requests that come one by one, all but the last without a body, are answered one for one. */
  lemma {:induction false} OneForOne(q: Request, msgs: seq<Message>)
    requires q.state == Done || q == FRESH
    requires forall i | 0 <= i < |msgs| :: msgs[i].Valid()
    requires forall i | 0 <= i < |msgs| - 1 :: msgs[i].body == ""
    ensures Serving(q, "", Texts(msgs)) ==
            seq(|msgs|, i requires 0 <= i < |msgs| => Parsed(msgs[i].Parsed(), msgs[i].body))
    decreases |msgs|
  {
    hide Process, Message.Text, Message.Valid;
    if msgs != [] {
      MessageRoundTrip(msgs[0]);
      assert "" + msgs[0].Text() == msgs[0].Text();
      assert Texts(msgs)[1..] == Texts(msgs[1..]);
      if |msgs| > 1 {
        OneForOne(msgs[0].Parsed(), msgs[1..]);
      }
    }
  }

  lemma ServingOne(q: Request, unread: string, input: string)
    ensures Serving(q, unread, [input]) == [Process(Current(q), unread + input)]
  {
    hide Process;
    assert [input][1..] == [];
  }

  /** A body is left in the buffer and becomes the start of the next request: what follows is refused
      unless it happens to read like a request line, or starts with an empty line. */
  lemma BodyMeetsNextRequest(msg: Message, next: Message)
    requires msg.Valid() && next.Valid()
    ensures var text := msg.body + next.Text(); var second := Process(FRESH, text);
            && Serving(FRESH, "", Texts([msg, next])) == [Parsed(msg.Parsed(), msg.body), second]
            && (!("GET" <= text) && !("POST" <= text) && !(CRLF <= text) ==>
                  second.Parsed? && second.request.state == RequestIsBad)
  {
    hide Message.Text, Message.Valid, Process;
    MessageRoundTrip(msg);
    MessageRoundTrip(next);
    var text := msg.body + next.Text();
    assert "" + msg.Text() == msg.Text();
    assert Texts([msg, next])[0] == msg.Text() && Texts([msg, next])[1..] == [next.Text()];
    ServingOne(msg.Parsed(), msg.body, next.Text());
    if !("GET" <= text) && !("POST" <= text) && !(CRLF <= text) {
      HasLineEnd(msg.body, next);
      NoMethodIsBad(text);
    }
  }

  lemma HasLineEnd(body: string, next: Message)
    requires next.Valid()
    ensures Find(body + next.Text(), CRLF) != -1
  {
    hide Message.Valid, Contains;
    var line := next.Method() + " " + next.Target() + " HTTP/1.1";
    var tail := FieldsText(next.fields) + CRLF + next.body;
    var n := |body + line|;
    assert body + next.Text() == (body + line) + CRLF + tail;
    assert (body + next.Text())[n..n + 2] == CRLF;
    assert MatchAt(body + next.Text(), CRLF, n);
  }

  lemma NoMethodIsBad(text: string)
    requires !("GET" <= text) && !("POST" <= text) && !(CRLF <= text) && Find(text, CRLF) != -1
    ensures Process(FRESH, text) == Parsed(Bad(FRESH), text)
  {
    hide Contains;
    assert Find(text, CRLF) != 0;
  }

  /** Of two requests in one read only the first is answered; the second waits for the next read. */
  lemma PipelinedWaits(msg: Message, more: string)
    requires msg.Valid()
    ensures Process(FRESH, msg.Text() + more) == Parsed(msg.Parsed(), msg.body + more)
  {
    hide Message.Text, Message.Valid, Process;
    MessageRoundTrip(msg);
    MessageNotAmbiguous(msg, more);
    ProcessExtends(FRESH, msg.Text(), more);
    DoneStays(msg.Parsed(), msg.body + more);
  }

  lemma DoneStays(q: Request, buf: string)
    requires q.state == Done
    ensures Process(q, buf) == Parsed(q, buf)
  {
  }

  lemma MessageNotAmbiguous(msg: Message, more: string)
    requires msg.Valid()
    ensures !SpaceOnlyAfterStartLine(msg.Text() + more)
  {
    hide Message.Text, Message.Valid, Process, Contains, LateSpace;
    var text := msg.Text();
    MessageRoundTrip(msg);
    HasLineEnd("", msg);
    assert "" + text == text;
    FindExtend(text, more, CRLF);
    var crlf := Find(text, CRLF);
    if SpaceOnlyAfterStartLine(text + more) {
      var m := if LateSpace(text + more, "GET", crlf) then "GET" else "POST";
      LateSpaceBefore(text, more, m, crlf);
      NoSecondSpace(text, m, crlf);
    }
  }

  lemma LateSpaceBefore(text: string, more: string, m: string, crlf: nat)
    requires crlf <= |text| && LateSpace(text + more, m, crlf)
    ensures m <= text && |m| < crlf && text[|m|] == ' ' && ' ' !in text[|m| + 1..crlf]
  {
    assert text[..|m|] == (text + more)[..|m|];
    assert text[|m| + 1..crlf] == (text + more)[|m| + 1..crlf];
  }
}
