/** contrib/http/http_response.cc and the callback chain of contrib/http/http_server.cc: what is sent
    for one request of one file over one established connection. */
module FileStreaming {
  import opened Bytes
  import opened HttpUtils
  import opened HttpParsing
  import opened HttpRoundTrip
  import Conns = Connections

  // ---------------------------------------------------------------- the printed header

  predicate Chunked(headers: map<string, string>)
  {
    "transfer-encoding" in headers && Find(headers["transfer-encoding"], "chunked") != -1
  }

  /** Lines 16-19: a content-length is added unless there is one, or the body is chunked. */
  function WithLength(headers: map<string, string>, size: nat): map<string, string>
  {
    if "content-length" !in headers && !Chunked(headers)
    then headers["content-length" := ToDecimal(size)] else headers
  }

  function StatusLine(code: nat): string
  {
    "HTTP/1.1 " + ToDecimal(code) + " "
  }

  /** Lines 20-26, the fields in the order the hash map is walked. */
  function HeaderText(code: nat, order: seq<Pair>): string
  {
    StatusLine(code) + CRLF + FieldsText(order) + CRLF
  }

  /** The fields a map prints are read back. */
  predicate Printable(headers: map<string, string>)
  {
    forall k | k in headers :: FieldOk((k, headers[k]))
  }

  lemma DecimalIsField(n: nat)
    ensures FieldOk(("content-length", ToDecimal(n)))
  {
    var v := ToDecimal(n);
    assert forall i | 0 <= i < |v| :: IsDigit(v[i]);
    assert forall i | 0 <= i < |v| :: v[i] != '\r';
    NoCrNoCrlf(v);
    var k := "content-length";
    assert forall i | 0 <= i < |k| :: k[i] == '-' || 'a' <= k[i] <= 'z';
    assert '-' in PUNCTUATION by { assert PUNCTUATION[8] == '-'; }
  }

  /** In whatever order the map is walked, the header phase of the parser reads the printed fields
      back as the map, including the content-length that was added. */
  lemma ResponseRoundTrip(headers: map<string, string>, size: nat, order: seq<Pair>, q: Request, rest: string)
    requires Printable(headers) && Lists(order, WithLength(headers, size))
    requires q.state == ExpectHeaderLine && q.headers == map[]
    ensures Process(q, FieldsText(order) + CRLF + rest) ==
            Process(q.(headers := WithLength(headers, size), state := ExpectBody), rest)
  {
    hide FieldOk, Process, Chunked, Store;
    DecimalIsField(size);
    forall i | 0 <= i < |order| ensures FieldOk(order[i]) {
      assert order[i].0 in WithLength(headers, size);
      assert order[i] == (order[i].0, WithLength(headers, size)[order[i].0]);
    }
    HeaderRoundTrip(q, order, rest);
    StoreListed(order, WithLength(headers, size));
  }

  /** What a client makes of the bytes on the wire: a status line with the code, then, up to the empty
      line, the fields, then the rest. */
  ghost predicate ReadsAs(text: string, code: nat, headers: map<string, string>, rest: string)
  {
    var end := Find(text, CRLF);
    && 0 <= end && end + 2 <= |text|
    && text[..end] == "HTTP/1.1 " + ToDecimal(code) + " "
    && forall q: Request | q.state == ExpectHeaderLine && q.headers == map[] ::
         Process(q, text[end + 2..]) == Process(q.(headers := headers, state := ExpectBody), rest)
  }

  /** The printed header, in any iteration order and with anything behind it, reads as its code and its
      fields, the added content-length among them. */
  lemma HeaderIsRead(code: nat, headers: map<string, string>, size: nat, order: seq<Pair>, rest: string)
    requires Printable(headers) && Lists(order, WithLength(headers, size))
    ensures ReadsAs(HeaderText(code, order) + rest, code, WithLength(headers, size), rest)
  {
    hide Process, Lists, Printable, WithLength, Find;
    var line, fields := "HTTP/1.1 " + ToDecimal(code) + " ", FieldsText(order) + CRLF;
    var text := HeaderText(code, order) + rest;
    assert text == line + CRLF + (fields + rest);
    StatusLineEnds(code);
    FindLineEnd(line, fields + rest);
    assert text[..|line|] == line && text[|line| + 2..] == fields + rest;
    forall q: Request | q.state == ExpectHeaderLine && q.headers == map[]
      ensures Process(q, text[|line| + 2..]) ==
              Process(q.(headers := WithLength(headers, size), state := ExpectBody), rest)
    {
      ResponseRoundTrip(headers, size, order, q, rest);
    }
  }

  lemma StatusLineEnds(code: nat)
    ensures var line := "HTTP/1.1 " + ToDecimal(code) + " "; Find(line, CRLF) == -1 && line[|line| - 1] != '\r'
  {
    var line := "HTTP/1.1 " + ToDecimal(code) + " ";
    assert forall i | 0 <= i < |ToDecimal(code)| :: IsDigit(ToDecimal(code)[i]);
    NoCrNoCrlf(line);
  }

  /** The content-length is added exactly when nothing else frames the body, names the size, and changes
      no other field. */
  lemma LengthAdded(headers: map<string, string>, size: nat)
    ensures var h := WithLength(headers, size);
            var framed := "content-length" in headers ||
                          ("transfer-encoding" in headers && Contains(headers["transfer-encoding"], "chunked"));
            && (framed ==> h == headers)
            && (!framed ==>
                  && h.Keys == headers.Keys + {"content-length"}
                  && Stoi(h["content-length"]) == (if size < 0x8000_0000 then Some(size) else None)
                  && forall k | k in headers :: h[k] == headers[k])
  {
    StoiToDecimal(size);
  }

  /** A client that frames by content-length ends with exactly the body. */
  lemma BodyIsFramed(text: string, code: nat, headers: map<string, string>, body: string, q: Request)
    requires ReadsAs(text, code, headers, body) && |body| < 0x8000_0000
    requires "content-length" in headers && headers["content-length"] == ToDecimal(|body|)
    requires q.state == ExpectHeaderLine && q.headers == map[]
    ensures Process(q, text[Find(text, CRLF) + 2..]) == Parsed(q.(headers := headers, state := Done), body)
  {
    hide Process, Find;
    StoiToDecimal(|body|);
    BodyExactly(q.(headers := headers, state := ExpectBody), body);
  }

  // ---------------------------------------------------------------- the file

  /** What the file system answers to is_regular_file, file_size and open. */
  datatype Disk = Disk(regular: bool, content: string, opens: bool)

  /** An ifstream: `eof` is set by a read that came short. */
  datatype File = File(content: string, pos: nat, open: bool, eof: bool)

  predicate ValidFile(f: File)
  {
    f.pos <= |f.content|
  }

  /** The size of `tmp` in LoadData. */
  const BLOCK: nat := 1024 * 1024

  predicate HasMore(f: File)
  {
    f.open && !f.eof
  }

  function NextBlock(f: File): string
    requires ValidFile(f)
  {
    if |f.content| - f.pos < BLOCK then f.content[f.pos..] else f.content[f.pos..f.pos + BLOCK]
  }

  /** file_.read: short reads set eofbit, an exact fit does not. */
  function AfterBlock(f: File): File
    requires ValidFile(f)
  {
    f.(pos := f.pos + |NextBlock(f)|, eof := |NextBlock(f)| < BLOCK)
  }

  /** FileResponse::FileResponse: headers, initial body, file. */
  function NewResponse(disk: Disk, path: string): (map<string, string>, string, File)
  {
    if !disk.regular then (map[], "", File("", 0, false, false))
    else
      (map["content-length" := ToDecimal(|disk.content|)],
       if disk.opens then "" else "Cannot open " + path,
       File(disk.content, 0, disk.opens, false))
  }

  /** All that will be sent after the header. */
  function Body(response: (map<string, string>, string, File)): string
    requires ValidFile(response.2)
  {
    response.1 + if response.2.open then response.2.content[response.2.pos..] else ""
  }

  lemma {:induction false} ToDecimalInjective(a: nat, b: nat)
    requires ToDecimal(a) == ToDecimal(b)
    ensures a == b
  {
    DigitsValueToDecimal(a);
    DigitsValueToDecimal(b);
  }

  /** The announced content-length is the length of the body if and only if the file is not regular,
      or opens, or its size happens to be that of the error text. */
  lemma LengthIsHonest(disk: Disk, path: string)
    ensures var response := NewResponse(disk, path);
            var headers := WithLength(response.0, |response.1|);
            headers["content-length"] == ToDecimal(|Body(response)|) <==>
            !disk.regular || disk.opens || |disk.content| == |"Cannot open " + path|
  {
    var response := NewResponse(disk, path);
    if disk.regular {
      if ToDecimal(|disk.content|) == ToDecimal(|Body(response)|) {
        ToDecimalInjective(|disk.content|, |Body(response)|);
      }
    }
  }

  // ---------------------------------------------------------------- the chain of callbacks

  /** `callbacks` counts queued write_cb_; `loads` and `rounds` count LoadData and WriteCb calls;
      `failed`: a Send met a hard write error and dropped what it was given. */
  datatype Stream = Stream(
    conn: Conns.Conn, file: File, callbacks: nat, loads: nat, rounds: nat, failed: bool)

  datatype Step =
    | Writable(r: Conns.WriteResult)        // poll reports POLLOUT
    | WriteCallback(r: Conns.WriteResult)   // HttpServer::WriteCb

  /** How often write_cb_ is queued between two states of the connection. */
  function Queue(before: Conns.Conn, after: Conns.Conn): nat
  {
    if Conns.Queued(before, after) then 1 else 0
  }

  /** The kernel takes any prefix, nothing, or fails. */
  predicate Enabled(s: Stream, step: Step)
  {
    ValidFile(s.file) &&
    match step
    case Writable(r) => s.conn.writing && Conns.Possible(r, |s.conn.out|)
    case WriteCallback(r) =>
      s.callbacks > 0 && (HasMore(s.file) ==> Conns.Possible(r, |NextBlock(s.file)|))
  }

  /** Lines 107-120 of http_server.cc: load a block, send it, forget it. */
  function Next(s: Stream, step: Step): Stream
    requires Enabled(s, step)
  {
    match step
    case Writable(r) =>
      var c := Conns.HandleWrite(s.conn, r);
      s.(conn := c, callbacks := s.callbacks + Queue(s.conn, c))
    case WriteCallback(r) =>
      var t := s.(callbacks := s.callbacks - 1, rounds := s.rounds + 1);
      if !HasMore(s.file) then t
      else
        var c := Conns.Send(s.conn, NextBlock(s.file), r);
        t.(conn := c, file := AfterBlock(s.file), callbacks := t.callbacks + Queue(s.conn, c), loads := s.loads + 1,
           failed := s.failed || r.HardError?)
  }

  /** Lines 77-85: the header is sent; an opened file has nothing in its buffer yet. */
  function Begin(conn: Conns.Conn, header: string, content: string, r: Conns.WriteResult): Stream
    requires Conns.Possible(r, |header|)
  {
    var c := Conns.Send(conn, header, r);
    Stream(c, File(content, 0, true, false), Queue(conn, c), 0, 0, r.HardError?)
  }

  predicate Buffered(c: Conns.Conn)
  {
    c.out != ""
  }

  /** The one thing that keeps the chain going: a queued callback or buffered bytes, never both. */
  function Tokens(s: Stream): nat
  {
    s.callbacks + if Buffered(s.conn) then 1 else 0
  }

  function Blocks(size: nat): nat
  {
    size / BLOCK + 1
  }

  predicate Counted(f: File, loads: nat)
  {
    && ValidFile(f) && f.open
    && loads <= Blocks(|f.content|)
    && (f.eof <==> loads == Blocks(|f.content|))
    && f.pos == if f.eof then |f.content| else loads * BLOCK
  }

  ghost predicate Inv(s: Stream, before: string)
  {
    && Conns.Inv(s.conn) && s.conn.state == Conns.Established
    && Counted(s.file, s.loads) && !s.failed
    && Conns.SubmittedBytes(s.conn.log) == before + s.file.content[..s.file.pos]
    && Tokens(s) <= 1
    && (Tokens(s) == 0 ==> s.file.eof)
    && s.rounds == s.loads + 1 - Tokens(s)
  }

  lemma CountBlock(f: File, loads: nat)
    requires Counted(f, loads) && !f.eof
    ensures Counted(AfterBlock(f), loads + 1)
    ensures f.content[..AfterBlock(f).pos] == f.content[..f.pos] + NextBlock(f)
  {
  }

  /** An accepted Send on an idle connection either queues write_cb_ or leaves bytes buffered. */
  lemma SendToken(c: Conns.Conn, data: string, r: Conns.WriteResult)
    requires Conns.Inv(c) && c.state == Conns.Established && c.out == ""
    requires Conns.Possible(r, |data|) && !r.HardError?
    ensures var d := Conns.Send(c, data, r);
            && Conns.Inv(d) && d.state == Conns.Established
            && Conns.SubmittedBytes(d.log) == Conns.SubmittedBytes(c.log) + data
            && Queue(c, d) + (if Buffered(d) then 1 else 0) == 1
  {
    Conns.SendKeeps(c, data, r);
    IdleIsUnarmed(c);
    hide Conns.Inv, Conns.SubmittedBytes, Conns.Send, Conns.Queued;
    Conns.SendIdle(c, data, r);
  }

  lemma IdleIsUnarmed(c: Conns.Conn)
    requires Conns.Inv(c) && c.state == Conns.Established
    ensures c.writing <==> c.out != ""
  {
  }

  /** HandleWrite either leaves bytes buffered or queues write_cb_. */
  lemma WriteToken(c: Conns.Conn, r: Conns.WriteResult)
    requires Conns.Inv(c) && c.state == Conns.Established && c.out != "" && Conns.Possible(r, |c.out|)
    ensures var d := Conns.HandleWrite(c, r);
            && Conns.Inv(d) && d.state == Conns.Established
            && Conns.SubmittedBytes(d.log) == Conns.SubmittedBytes(c.log)
            && Queue(c, d) + (if Buffered(d) then 1 else 0) == 1
  {
    Conns.HandleWriteKeeps(c, r);
    hide Conns.Inv, Conns.SubmittedBytes, Conns.HandleWrite, Conns.Queued;
    Conns.WriteEffect(c, r);
  }

  lemma BeginInv(conn: Conns.Conn, header: string, content: string, r: Conns.WriteResult)
    requires Conns.Inv(conn) && conn.state == Conns.Established && conn.out == ""
    requires Conns.Possible(r, |header|) && !r.HardError?
    ensures Inv(Begin(conn, header, content, r), Conns.SubmittedBytes(conn.log) + header)
  {
    hide Conns.Inv, Conns.Send;
    SendToken(conn, header, r);
    var before := Conns.SubmittedBytes(conn.log) + header;
    assert before + content[..0] == before;
  }

  predicate Fails(s: Stream, step: Step)
  {
    step.WriteCallback? && step.r.HardError? && HasMore(s.file)
  }

  lemma StepInv(s: Stream, step: Step, before: string)
    requires Inv(s, before) && Enabled(s, step) && !Fails(s, step)
    ensures Inv(Next(s, step), before) && Next(s, step).file.content == s.file.content
  {
    hide Conns.Inv, Conns.Send, Conns.HandleWrite, Conns.SubmittedBytes, Counted;
    IdleIsUnarmed(s.conn);
    match step
    case Writable(r) => WriteToken(s.conn, r);
    case WriteCallback(r) =>
      if HasMore(s.file) {
        SendToken(s.conn, NextBlock(s.file), r);
        CountBlock(s.file, s.loads);
        assert before + (s.file.content[..s.file.pos] + NextBlock(s.file)) ==
               before + s.file.content[..s.file.pos] + NextBlock(s.file);
      } else {
        assert s.file.eof by { OpenFile(s.file, s.loads); }
      }
  }

  lemma OpenFile(f: File, loads: nat)
    requires Counted(f, loads)
    ensures f.open
  {
  }

  ghost predicate Run(s: Stream, steps: seq<Step>, end: Stream)
    decreases |steps|
  {
    if steps == [] then s == end else Enabled(s, steps[0]) && Run(Next(s, steps[0]), steps[1..], end)
  }

  predicate Quiet(s: Stream)
  {
    s.callbacks == 0 && !s.conn.writing
  }

  /** What is left when the block loaded last was dropped: nothing is queued, buffered or armed. */
  ghost predicate Dropped(s: Stream, before: string)
  {
    && s.failed && Quiet(s) && s.loads > 0 && s.rounds == s.loads
    && Conns.Inv(s.conn) && s.conn.out == ""
    && Counted(s.file, s.loads) && (s.loads - 1) * BLOCK <= s.file.pos
    && Conns.SubmittedBytes(s.conn.log) == before + s.file.content[..(s.loads - 1) * BLOCK]
  }

  /** A hard write error in a callback's Send drops the block that was loaded and queues nothing: the
      chain ends there. */
  lemma HardErrorEndsChain(s: Stream, step: Step, before: string)
    requires Inv(s, before) && Enabled(s, step) && Fails(s, step)
    ensures var t := Next(s, step);
            && t.conn == s.conn && t.loads == s.loads + 1 && t.file.content == s.file.content
            && Dropped(t, before)
            && forall next :: !Enabled(t, next)
  {
    hide Conns.Inv, Conns.SubmittedBytes, Conns.HandleWrite;
    IdleIsUnarmed(s.conn);
    CountBlock(s.file, s.loads);
    assert Queue(s.conn, s.conn) == 0;
  }

  lemma {:induction false} RunInv(s: Stream, steps: seq<Step>, end: Stream, before: string)
    requires Inv(s, before) && Run(s, steps, end)
    ensures Inv(end, before) || Dropped(end, before)
    ensures end.file.content == s.file.content
    decreases |steps|
  {
    hide Inv, Dropped, Next, Enabled, Fails;
    if steps != [] {
      if Fails(s, steps[0]) {
        HardErrorEndsChain(s, steps[0], before);
      } else {
        StepInv(s, steps[0], before);
        RunInv(Next(s, steps[0]), steps[1..], end, before);
      }
    }
  }

  /** How much of the file reaches the connection: all of it, unless a Send failed. */
  function Delivered(s: Stream): string
    requires s.failed ==> s.loads == 0 || (s.loads - 1) * BLOCK <= |s.file.content|
  {
    if !s.failed then s.file.content
    else if s.loads == 0 then ""
    else s.file.content[..(s.loads - 1) * BLOCK]
  }

  /** In every run, with any split of the writes and with hard errors anywhere. At every point what has
      been submitted is a prefix of header and file, and WriteCb has run at most once more than there
      are blocks. When nothing more can happen the kernel has taken exactly the header and the whole
      file, after size/BLOCK + 1 loads; or, if a Send failed, the blocks loaded before that one. */
  lemma WholeFile(
    conn: Conns.Conn, header: string, content: string, r: Conns.WriteResult, steps: seq<Step>, s: Stream)
    requires Conns.Inv(conn) && conn.state == Conns.Established && conn.out == ""
    requires Conns.Possible(r, |header|)
    requires Run(Begin(conn, header, content, r), steps, s)
    ensures s.file.content == content && s.file.pos <= |content|
    ensures s.loads <= Blocks(|content|) && s.rounds <= Blocks(|content|) + 1
    ensures r.HardError? ==> s.failed
    ensures s.failed ==> Quiet(s) && (s.loads == 0 || (s.loads - 1) * BLOCK <= |content|)
    ensures !s.failed ==>
              Conns.SubmittedBytes(s.conn.log) == Conns.SubmittedBytes(conn.log) + header + content[..s.file.pos]
    ensures Quiet(s) ==>
              && Conns.TakenBytes(s.conn.log) ==
                 Conns.SubmittedBytes(conn.log) + (if r.HardError? then "" else header) + Delivered(s)
              && (!s.failed ==> s.loads == Blocks(|content|))
  {
    hide Conns.Inv, Conns.Send, Conns.SubmittedBytes, Conns.TakenBytes, Next, Run, Dropped;
    if r.HardError? {
      HeaderLost(conn, header, content, r, steps, s);
    } else {
      var before := Conns.SubmittedBytes(conn.log) + header;
      BeginInv(conn, header, content, r);
      RunInv(Begin(conn, header, content, r), steps, s, before);
      if Inv(s, before) {
        IdleIsUnarmed(s.conn);
        assert content[..|content|] == content;
        if Quiet(s) { AllTaken(s.conn); }
      } else {
        DroppedFacts(s, before);
      }
    }
  }

  /** The header's Send failed: nothing is sent and nothing will be. */
  lemma HeaderLost(
    conn: Conns.Conn, header: string, content: string, r: Conns.WriteResult, steps: seq<Step>, s: Stream)
    requires Conns.Inv(conn) && conn.state == Conns.Established && conn.out == ""
    requires r.HardError? && Run(Begin(conn, header, content, r), steps, s)
    ensures s == Begin(conn, header, content, r) && s.conn == conn && Quiet(s) && s.failed
    ensures s.loads == 0 && s.rounds == 0 && s.file == File(content, 0, true, false)
    ensures Conns.TakenBytes(s.conn.log) == Conns.SubmittedBytes(conn.log)
  {
    hide Conns.Inv, Conns.SubmittedBytes, Conns.TakenBytes;
    IdleIsUnarmed(conn);
    AllTaken(conn);
    assert Queue(conn, conn) == 0;
  }

  lemma DroppedFacts(s: Stream, before: string)
    requires Dropped(s, before)
    ensures s.failed && Quiet(s) && s.loads > 0 && s.file.pos <= |s.file.content|
    ensures (s.loads - 1) * BLOCK <= |s.file.content| && s.loads <= Blocks(|s.file.content|)
    ensures s.rounds <= Blocks(|s.file.content|) + 1
    ensures Conns.TakenBytes(s.conn.log) == before + s.file.content[..(s.loads - 1) * BLOCK]
  {
    hide Conns.Inv, Conns.SubmittedBytes, Conns.TakenBytes;
    AllTaken(s.conn);
  }

  lemma AllTaken(c: Conns.Conn)
    requires Conns.Inv(c) && c.out == ""
    ensures Conns.TakenBytes(c.log) == Conns.SubmittedBytes(c.log)
  {
    assert Conns.TakenBytes(c.log) + "" == Conns.TakenBytes(c.log);
  }

  /** The chain stops: a callback, or a write that takes something, makes the remaining loads, the
      buffered bytes or the queued callbacks fewer, in that order of weight. */
  lemma ChainStops(s: Stream, step: Step, before: string)
    requires Inv(s, before) && Enabled(s, step)
    requires step.Writable? ==> step.r.Wrote? && step.r.n > 0
    ensures var t := Next(s, step); var all := Blocks(|s.file.content|);
            || all - t.loads < all - s.loads
            || (t.loads == s.loads && |t.conn.out| < |s.conn.out|)
            || (t.loads == s.loads && |t.conn.out| == |s.conn.out| && t.callbacks < s.callbacks)
  {
    hide Conns.Inv, Conns.Send;
    IdleIsUnarmed(s.conn);
  }

  /** And it is never stuck before that: unless quiet, poll reports POLLOUT or a callback is queued. */
  lemma ChainGoesOn(s: Stream, before: string)
    requires Inv(s, before) && !Quiet(s)
    ensures Enabled(s, Writable(Conns.Wrote(|s.conn.out|))) || Enabled(s, WriteCallback(Conns.Wrote(0)))
  {
    hide Conns.Inv;
  }

  /** A file that opens, served over an idle connection without a hard write error: when the chain is
      quiet the kernel has taken the printed header and the whole file, and the header announces that
      many bytes. */
  lemma OneFileTransfer(
    conn: Conns.Conn, disk: Disk, path: string, code: nat, order: seq<Pair>,
    r: Conns.WriteResult, steps: seq<Step>, s: Stream)
    requires Conns.Inv(conn) && conn.state == Conns.Established && conn.out == ""
    requires disk.regular && disk.opens
    requires Lists(order, WithLength(NewResponse(disk, path).0, 0))
    requires Conns.Possible(r, |HeaderText(code, order)|)
    requires Run(Begin(conn, HeaderText(code, order), disk.content, r), steps, s) && Quiet(s) && !s.failed
    ensures Conns.TakenBytes(s.conn.log) ==
            Conns.SubmittedBytes(conn.log) + HeaderText(code, order) + disk.content
    ensures order == [("content-length", ToDecimal(|disk.content|))]
    ensures ReadsAs(HeaderText(code, order) + disk.content, code,
                    map["content-length" := ToDecimal(|disk.content|)], disk.content)
  {
    OpenedIsRead(disk, path, code, order);
    hide Conns.Inv, Conns.Send, Conns.SubmittedBytes, Conns.TakenBytes, Run, HeaderText, ToDecimal, ReadsAs;
    WholeFile(conn, HeaderText(code, order), disk.content, r, steps, s);
    OnlyEntry(order, "content-length", ToDecimal(|disk.content|));
  }

  lemma OpenedIsRead(disk: Disk, path: string, code: nat, order: seq<Pair>)
    requires disk.regular && disk.opens && Lists(order, WithLength(NewResponse(disk, path).0, 0))
    ensures ReadsAs(HeaderText(code, order) + disk.content, code,
                    map["content-length" := ToDecimal(|disk.content|)], disk.content)
  {
    DecimalIsField(|disk.content|);
    hide FieldOk, HeaderText, ReadsAs, ToDecimal;
    var headers := NewResponse(disk, path).0;
    assert Printable(headers);
    HeaderIsRead(code, headers, 0, order, disk.content);
  }

  lemma OnlyEntry(order: seq<Pair>, k: string, v: string)
    requires Lists(order, map[k := v])
    ensures order == [(k, v)]
  {
    assert k in map[k := v];
    var i :| 0 <= i < |order| && order[i].0 == k;
    assert forall j | 0 <= j < |order| :: order[j].0 in map[k := v];
    OneIndexPerKey(order, map[k := v], i, 0);
    OneIndexPerKey(order, map[k := v], i, |order| - 1);
  }

  lemma OneIndexPerKey(order: seq<Pair>, m: map<string, string>, i: nat, j: nat)
    requires Lists(order, m) && i < |order| && j < |order| && order[i].0 == order[j].0
    ensures i == j
  {
  }
}
