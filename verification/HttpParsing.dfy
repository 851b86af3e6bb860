/** The incremental request parser of contrib/http/http_request.cc as a function of the request so
    far and the unread bytes, and the claims about feeding it in pieces. */
module HttpParsing {
  import opened Bytes
  import opened HttpUtils

  datatype RequestType = Unknown | Get | Post

  datatype ParseState = ExpectStartLine | ExpectHeaderLine | ExpectBody | RequestIsBad | Done

  datatype Request = Request(
    state: ParseState, method_: RequestType, router: string,
    arguments: map<string, string>, headers: map<string, string>)

  const FRESH := Request(ExpectStartLine, Unknown, "", map[], map[])

  const CRLF := "\r\n"

  /** Undefined stands for undefined behaviour or an escaping exception. */
  datatype Result = Parsed(request: Request, rest: string) | Undefined

  // ---------------------------------------------------------------- ParseTarget

  /** Lines 25-42. None is the early `return false`. */
  function RouterOf(target: string): Option<string>
  {
    var spliter := Find(target, "?");
    var router := if spliter == -1 then target else target[..spliter];
    if Find(router, "..") != -1 then None
    else if |router| > 4 && "http" <= router then AbsolutePath(router)
    else Some(router)
  }

  /** Lines 36-41: what follows the first double slash, from the next slash on. */
  function AbsolutePath(router: string): Option<string>
  {
    var pos := Find(router, "//");
    if pos == -1 then None
    else
      var path := router[pos + 2..];
      var slash := Find(path, "/");
      if slash == -1 then None else Some(path[slash..])
  }

  /** Lines 53-68 on one piece between ampersands; `after` is the byte that follows it in memory. */
  function ParsePair(arguments: map<string, string>, kv: string, after: char): Option<map<string, string>>
  {
    var eq := Find(kv, "=");
    var key := Decode(if eq == -1 then kv else kv[..eq], if eq == -1 then after else '=');
    var value := Decode(if eq == -1 then "" else kv[eq + 1..], after);
    if key.Some? && value.Some? then Some(arguments[key.value := value.value]) else None
  }

  /** Lines 48-73: false, with the pairs before it stored, at the first bad escape. */
  function ParseQuery(arguments: map<string, string>, query: string, after: char): (bool, map<string, string>)
    decreases |query|
  {
    if query == "" then (true, arguments)
    else
      var amp := Find(query, "&");
      var kv := if amp == -1 then query else query[..amp];
      var next := ParsePair(arguments, kv, if amp == -1 then after else '&');
      if next.None? then (false, arguments)
      else if amp == -1 then (true, next.value)
      else ParseQuery(next.value, query[amp + 1..], after)
  }

  function ParseTarget(q: Request, target: string, after: char): (bool, Request)
  {
    var router := RouterOf(target);
    if router.None? then (false, q)
    else
      var routed := q.(router := router.value);
      var spliter := Find(target, "?");
      if spliter == -1 then (true, routed)
      else
        var (ok, arguments) := ParseQuery(q.arguments, target[spliter + 1..], after);
        (ok, routed.(arguments := arguments))
  }

  // ---------------------------------------------------------------- one turn of the loop

  datatype Turn = Loop(request: Request, rest: string) | Return(request: Request, rest: string) | Fault

  function Bad(q: Request): Request
  {
    q.(state := RequestIsBad)
  }

  /** Lines 101-126, `crlf` being the offset of the end of the start line. A negative search result
      is below `crlf`, passes the assert (the byte before is the space just popped) and becomes the
      length size_t(-1). Fault is that view: it is longer than any buffer, hence undefined, although
      ParseTarget may happen to return before it reads past the end. */
  function TargetTurn(q: Request, buf: string, crlf: nat): Turn
    requires MatchAt(buf, CRLF, crlf)
  {
    if !(" " <= buf) then Return(Bad(q), buf)
    else
      assert buf[crlf] == '\r' by { assert buf[crlf..crlf + 2] == CRLF; }
      var line := buf[1..];
      var end := Find(line, " ");
      if end >= crlf - 1 then Return(Bad(q), line)
      else if end == -1 then Fault
      else
        var (ok, parsed) := ParseTarget(q, line[..end], ' ');
        if !ok then Return(Bad(parsed), line)
        else Loop(parsed.(state := ExpectHeaderLine), buf[crlf + 2..])
  }

  lemma CrlfByte(s: string, i: nat)
    requires MatchAt(s, CRLF, i)
    ensures i + 2 <= |s| && s[i] == '\r' && s[i + 1] == '\n'
  {
    assert s[i..i + 2][0] == s[i] && s[i..i + 2][1] == s[i + 1];
  }

  lemma MethodEndsBeforeCrlf(buf: string, m: string, crlf: nat)
    requires m <= buf && '\r' !in m && MatchAt(buf, CRLF, crlf)
    ensures |m| <= crlf && MatchAt(buf[|m|..], CRLF, crlf - |m|)
  {
    assert buf[crlf..crlf + 2] == CRLF;
    assert buf[crlf] == buf[crlf..crlf + 2][0] == '\r';
    assert forall k | 0 <= k < |m| :: buf[k] == m[k] != '\r';
    assert buf[|m|..][crlf - |m|..crlf - |m| + 2] == buf[crlf..crlf + 2];
  }

  /** Lines 81-126. */
  function StartLineTurn(q: Request, buf: string): Turn
  {
    var crlf := Find(buf, CRLF);
    if crlf <= 0 then Return(q, buf)
    else if "GET" <= buf then
      MethodEndsBeforeCrlf(buf, "GET", crlf);
      TargetTurn(q.(method_ := Get), buf[3..], crlf - 3)
    else if "POST" <= buf then
      MethodEndsBeforeCrlf(buf, "POST", crlf);
      TargetTurn(q.(method_ := Post), buf[4..], crlf - 4)
    else Return(Bad(q), buf)
  }

  /** unordered_map::emplace keeps an existing entry. */
  function Emplace(m: map<string, string>, k: string, v: string): map<string, string>
  {
    if k in m then m else m[k := v]
  }

  /** Lines 148-162 on one line. A blank value runs `strip` out of the view. */
  function FieldTurn(q: Request, line: string, buf: string, rest: string): Turn
  {
    var colon := Find(line, ":");
    if colon == -1 then Return(Bad(q), buf)
    else
      var name := Lower(line[..colon]);
      match CheckToken(name)
      case OutOfTable => Fault
      case NotToken => Return(Bad(q), buf)
      case Token =>
        var content := line[colon + 1..];
        if Blank(content) then Fault
        else Loop(q.(headers := Emplace(q.headers, name, Trim(content))), rest)
  }

  /** Lines 141-163. */
  function HeaderTurn(q: Request, buf: string): Turn
  {
    var crlf := Find(buf, CRLF);
    if crlf < 0 then Return(q, buf)
    else if crlf == 0 then Loop(q.(state := ExpectBody), buf[2..])
    else FieldTurn(q, buf[..crlf], buf, buf[crlf + 2..])
  }

  /** Lines 170-186. The body stays in the buffer. std::stoi may throw. */
  function BodyTurn(q: Request, buf: string): Turn
  {
    if "content-length" in q.headers then
      var n := Stoi(q.headers["content-length"]);
      if n.None? then Fault
      else if |buf| >= n.value then Return(q.(state := Done), buf)
      else Return(q, buf)
    else if "transfer-encoding" in q.headers then Return(q, buf)
    else Return(q.(state := Done), buf)
  }

  function TurnOf(q: Request, buf: string): Turn
  {
    match q.state
    case ExpectStartLine => StartLineTurn(q, buf)
    case ExpectHeaderLine => HeaderTurn(q, buf)
    case ExpectBody => BodyTurn(q, buf)
    case _ => Return(q, buf)
  }

  /** The loop measure: states only advance, and a header line is consumed whole. */
  function Rank(s: ParseState): nat
  {
    match s
    case ExpectStartLine => 2
    case ExpectHeaderLine => 1
    case _ => 0
  }

  lemma TurnAdvances(q: Request, buf: string)
    ensures var t := TurnOf(q, buf); t.Loop? ==>
              Rank(t.request.state) < Rank(q.state) || (t.request.state == q.state && |t.rest| < |buf|)
    ensures var t := TurnOf(q, buf); t.Return? ==>
              (t.request == q && t.rest == buf) || (Rank(t.request.state) == 0 && Final(t.request))
  {
    hide Process, ParseTarget, CheckToken, Stoi, Trim;
    if q.state == ExpectHeaderLine {
      HeaderTurnShape(q, buf);
    } else if q.state == ExpectStartLine {
      StartLineTurnShape(q, buf);
    }
  }

  lemma StartLineTurnShape(q: Request, buf: string)
    requires q.state == ExpectStartLine
    ensures match StartLineTurn(q, buf)
            case Loop(q', rest) => q'.state == ExpectHeaderLine
            case Return(q', rest) => (q' == q && rest == buf) || q'.state == RequestIsBad
            case Fault => true
  {
    hide ParseTarget;
  }

  lemma HeaderTurnShape(q: Request, buf: string)
    requires q.state == ExpectHeaderLine
    ensures match HeaderTurn(q, buf)
            case Loop(q', rest) => q'.state == ExpectBody || (q'.state == q.state && |rest| < |buf|)
            case Return(q', rest) => (q' == q && rest == buf) || q'.state == RequestIsBad
            case Fault => true
  {
    hide CheckToken, Trim;
  }

  /** One call of HttpRequest::Process, lines 79-191. */
  function Process(q: Request, buf: string): Result
    decreases Rank(q.state), |buf|
  {
    TurnAdvances(q, buf);
    match TurnOf(q, buf)
    case Loop(q', rest) => Process(q', rest)
    case Return(q', rest) => Parsed(q', rest)
    case Fault => Undefined
  }

  // ---------------------------------------------------------------- feeding in pieces

  function Join(pieces: seq<string>): string
  {
    if pieces == [] then "" else pieces[0] + Join(pieces[1..])
  }

  /** Each read event appends a piece to the buffer and calls Process. */
  function Feed(r: Result, pieces: seq<string>): Result
    decreases |pieces|
  {
    if pieces == [] || r.Undefined? then r
    else Feed(Process(r.request, r.rest + pieces[0]), pieces[1..])
  }

  /** The first line is `GET ` or `POST ` with no further space, and a space comes after the line. */
  predicate SpaceOnlyAfterStartLine(s: string)
  {
    var crlf := Find(s, CRLF);
    crlf > 0 && (LateSpace(s, "GET", crlf) || LateSpace(s, "POST", crlf))
  }

  /** `word`, a space, no other space up to `crlf`, and one later. */
  predicate LateSpace(s: string, word: string, crlf: nat)
    requires crlf <= |s|
  {
    |word| < crlf && word <= s && s[|word|] == ' ' && ' ' !in s[|word| + 1..crlf] && ' ' in s[crlf..]
  }

  predicate Ambiguous(q: Request, s: string)
  {
    q.state == ExpectStartLine && SpaceOnlyAfterStartLine(s)
  }

  predicate Final(q: Request)
  {
    q.state == RequestIsBad || q.state == Done
  }

  /** What a turn decides, it decides again when more bytes have arrived. */
  ghost predicate Extends(q: Request, buf: string, more: string)
  {
    var later := TurnOf(q, buf + more);
    match TurnOf(q, buf)
    case Loop(q', rest) => later == Loop(q', rest + more)
    case Return(q', rest) => (q' == q && rest == buf) || (Final(q') && later == Return(q', rest + more))
    case Fault => later == Fault
  }

  lemma TargetExtends(q: Request, buf: string, more: string, crlf: nat)
    requires MatchAt(buf, CRLF, crlf) && MatchAt(buf + more, CRLF, crlf)
    requires " " <= buf ==> 1 <= crlf && (' ' in buf[1..crlf] || ' ' !in (buf + more)[crlf..])
    ensures match TargetTurn(q, buf, crlf)
            case Loop(q', rest) => TargetTurn(q, buf + more, crlf) == Loop(q', rest + more)
            case Return(q', rest) => Final(q') && TargetTurn(q, buf + more, crlf) == Return(q', rest + more)
            case Fault => TargetTurn(q, buf + more, crlf) == Fault
  {
    hide ParseTarget;
    assert buf[crlf..crlf + 2] == CRLF;
    assert (buf + more)[0] == buf[0];
    if " " <= buf {
      var line := buf[1..];
      assert (buf + more)[1..] == line + more;
      SpaceInLine(buf, crlf);
      SpaceInLine(buf + more, crlf);
      assert (buf + more)[1..crlf] == buf[1..crlf];
      if ' ' in buf[1..crlf] {
        FindExtend(line, more, " ");
        var end := Find(line, " ");
        assert (line + more)[..end] == line[..end];
        assert (buf + more)[crlf + 2..] == buf[crlf + 2..] + more;
      } else {
        assert ' ' !in buf[crlf..] by {
          forall i | 0 <= i < |buf[crlf..]| ensures buf[crlf..][i] != ' ' {
            assert (buf + more)[crlf..][i] == buf[crlf..][i];
          }
        }
      }
    }
  }

  /** Where the space after the target is found, relative to the end of the line. */
  lemma SpaceInLine(buf: string, crlf: nat)
    requires 1 <= crlf <= |buf|
    ensures var end := Find(buf[1..], " ");
            && (' ' in buf[1..crlf] ==> 0 <= end < crlf - 1)
            && (' ' !in buf[1..crlf] && ' ' in buf[crlf..] ==> end >= crlf - 1)
            && (' ' !in buf[1..crlf] && ' ' !in buf[crlf..] ==> end == -1)
  {
    var line := buf[1..];
    var end := Find(line, " ");
    assert line == buf[1..crlf] + buf[crlf..];
    FindByteNone(line, ' ');
    if ' ' in line {
      FindByteFound(line, ' ');
      assert end < crlf - 1 ==> buf[1..crlf][end] == line[end];
    }
    if ' ' in buf[1..crlf] {
      var i :| 0 <= i < crlf - 1 && buf[1..crlf][i] == ' ';
      assert line[i] == buf[1..crlf][i];
      MatchByte(line, ' ', i);
    }
  }

  lemma StartLineExtends(q: Request, buf: string, more: string)
    requires q.state == ExpectStartLine && !SpaceOnlyAfterStartLine(buf + more)
    ensures Extends(q, buf, more)
  {
    hide TargetTurn, LateSpace, MatchAt, Process;
    var crlf := Find(buf, CRLF);
    if crlf > 0 {
      FindExtend(buf, more, CRLF);
      if "GET" <= buf {
        MethodLineExtends("GET", buf, more, crlf);
        TargetExtends(q.(method_ := Get), buf[3..], more, crlf - 3);
      } else if "POST" <= buf {
        assert (buf + more)[0] == 'P';
        MethodLineExtends("POST", buf, more, crlf);
        TargetExtends(q.(method_ := Post), buf[4..], more, crlf - 4);
      } else {
        MethodInside(buf, more, "GET", crlf);
        MethodInside(buf, more, "POST", crlf);
      }
    }
  }

  lemma MethodInside(buf: string, more: string, m: string, crlf: nat)
    requires '\r' !in m && MatchAt(buf, CRLF, crlf)
    ensures m <= buf + more ==> m <= buf
  {
    MatchAtExtend(buf, more, CRLF, crlf);
    if m <= buf + more {
      MethodEndsBeforeCrlf(buf + more, m, crlf);
      assert (buf + more)[..|m|] == buf[..|m|];
    }
  }

  lemma MethodLineExtends(m: string, buf: string, more: string, crlf: nat)
    requires m <= buf && '\r' !in m
    requires MatchAt(buf, CRLF, crlf) && MatchAt(buf + more, CRLF, crlf)
    requires !LateSpace(buf + more, m, crlf)
    ensures m <= buf + more && |m| <= crlf
    ensures (buf + more)[|m|..] == buf[|m|..] + more
    ensures MatchAt(buf[|m|..], CRLF, crlf - |m|) && MatchAt((buf + more)[|m|..], CRLF, crlf - |m|)
    ensures var b, n := buf[|m|..], crlf - |m|;
            " " <= b ==> 1 <= n && (' ' in b[1..n] || ' ' !in (b + more)[n..])
  {
    hide MatchAt, LateSpace;
    var s, b := buf + more, buf[|m|..];
    assert s[..|m|] == buf[..|m|];
    MethodEndsBeforeCrlf(buf, m, crlf);
    MethodEndsBeforeCrlf(s, m, crlf);
    assert s[|m|..] == b + more;
    if " " <= b {
      SecondSpaceInTime(s, m, b, more, crlf);
    }
  }

  lemma SecondSpaceInTime(s: string, m: string, b: string, more: string, crlf: nat)
    requires m <= s && s[|m|..] == b + more && " " <= b
    requires |m| <= crlf && MatchAt(b, CRLF, crlf - |m|)
    requires !LateSpace(s, m, crlf)
    ensures |m| < crlf
    ensures ' ' in b[1..crlf - |m|] || ' ' !in (b + more)[crlf - |m|..]
  {
    var n := crlf - |m|;
    assert s[|m|] == b[0] == ' ';
    assert b[n] == b[n..n + 2][0] == '\r';
    assert s[|m| + 1..crlf] == b[1..n];
    assert s[crlf..] == (b + more)[n..];
  }

  lemma HeaderExtends(q: Request, buf: string, more: string)
    requires q.state == ExpectHeaderLine
    ensures Extends(q, buf, more)
  {
    hide FieldTurn;
    var crlf := Find(buf, CRLF);
    if crlf >= 0 {
      FieldExtends(q, buf[..crlf], buf, buf[crlf + 2..], more);
      FindExtend(buf, more, CRLF);
      assert (buf + more)[..crlf] == buf[..crlf];
      assert (buf + more)[crlf + 2..] == buf[crlf + 2..] + more;
    }
  }

  lemma FieldExtends(q: Request, line: string, buf: string, rest: string, more: string)
    ensures match FieldTurn(q, line, buf, rest)
            case Loop(q', r) => r == rest && FieldTurn(q, line, buf + more, rest + more) == Loop(q', rest + more)
            case Return(q', r) =>
              Final(q') && r == buf && FieldTurn(q, line, buf + more, rest + more) == Return(q', buf + more)
            case Fault => FieldTurn(q, line, buf + more, rest + more) == Fault
  {
    hide CheckToken, Trim;
  }

  lemma TurnExtends(q: Request, buf: string, more: string)
    requires !Ambiguous(q, buf + more)
    ensures Extends(q, buf, more)
  {
    match q.state
    case ExpectStartLine => StartLineExtends(q, buf, more);
    case ExpectHeaderLine => HeaderExtends(q, buf, more);
    case ExpectBody => BodyExtends(q, buf, more);
    case _ => hide StartLineTurn, HeaderTurn, BodyTurn;
  }

  lemma BodyExtends(q: Request, buf: string, more: string)
    requires q.state == ExpectBody
    ensures Extends(q, buf, more)
  {
    hide StartLineTurn, HeaderTurn, Stoi;
  }

  /** The parser may be stopped anywhere and resumed on what it left unread. */
  lemma {:induction false} ProcessExtends(q: Request, buf: string, more: string)
    requires !Ambiguous(q, buf + more)
    ensures var r := Process(q, buf);
            Process(q, buf + more) == if r.Undefined? then Undefined else Process(r.request, r.rest + more)
    decreases Rank(q.state), |buf|
  {
    hide TurnOf, SpaceOnlyAfterStartLine;
    TurnExtends(q, buf, more);
    TurnAdvances(q, buf);
    match TurnOf(q, buf)
    case Loop(q', rest) =>
      LeavesStartLine(q, buf);
      ProcessExtends(q', rest, more);
    case Return(q', rest) => if Final(q') { FinalTurn(q', rest + more); }
    case Fault =>
  }

  /** A request that Process has returned is one on which Process returns at once. */
  lemma {:induction false} ProcessSettles(q: Request, buf: string)
    ensures var r := Process(q, buf); r.Parsed? ==> Process(r.request, r.rest) == r
    decreases Rank(q.state), |buf|
  {
    hide TurnOf;
    TurnAdvances(q, buf);
    match TurnOf(q, buf)
    case Loop(q', rest) => ProcessSettles(q', rest);
    case Return(q', rest) => if Final(q') { FinalTurn(q', rest); }
    case Fault =>
  }

  lemma FinalTurn(q: Request, buf: string)
    requires Final(q)
    ensures TurnOf(q, buf) == Return(q, buf)
  {
    hide StartLineTurn, HeaderTurn, BodyTurn;
  }

  lemma {:induction false} FeedIsProcess(q: Request, buf: string, pieces: seq<string>)
    requires Process(q, buf) == Parsed(q, buf)
    requires !Ambiguous(q, buf + Join(pieces))
    ensures Feed(Parsed(q, buf), pieces) == Process(q, buf + Join(pieces))
    decreases |pieces|
  {
    if pieces == [] {
      assert buf + Join(pieces) == buf;
    } else {
      var now, more := buf + pieces[0], Join(pieces[1..]);
      assert buf + Join(pieces) == now + more;
      var r := Process(q, now);
      ProcessExtends(q, now, more);
      if r.Parsed? {
        ProcessSettles(q, now);
        StillUnambiguous(q, now, more);
        FeedIsProcess(r.request, r.rest, pieces[1..]);
      }
    }
  }

  /** Process leaves the start-line state only by consuming the line, so what is still waiting for a
      start line is the whole input. */
  lemma StillUnambiguous(q: Request, buf: string, more: string)
    requires Process(q, buf).Parsed? && !Ambiguous(q, buf + more)
    ensures var r := Process(q, buf); !Ambiguous(r.request, r.rest + more)
  {
    hide TurnOf, SpaceOnlyAfterStartLine;
    TurnAdvances(q, buf);
    match TurnOf(q, buf)
    case Loop(q', rest) =>
      LeavesStartLine(q, buf);
      PastStartLine(q', rest);
    case Return(q', rest) =>
    case Fault =>
  }

  lemma LeavesStartLine(q: Request, buf: string)
    ensures var t := TurnOf(q, buf); t.Loop? ==> t.request.state != ExpectStartLine
  {
    hide StartLineTurn, HeaderTurn, BodyTurn;
    if q.state == ExpectStartLine {
      StartLineTurnShape(q, buf);
    } else if q.state == ExpectHeaderLine {
      HeaderTurnShape(q, buf);
    }
    BodyTurnReturns(q, buf);
  }

  lemma BodyTurnReturns(q: Request, buf: string)
    ensures !BodyTurn(q, buf).Loop?
  {
  }

  lemma {:induction false} PastStartLine(q: Request, buf: string)
    requires q.state != ExpectStartLine
    ensures var r := Process(q, buf); r.Parsed? ==> r.request.state != ExpectStartLine
    decreases Rank(q.state), |buf|
  {
    hide TurnOf;
    TurnAdvances(q, buf);
    LeavesStartLine(q, buf);
    match TurnOf(q, buf)
    case Loop(q', rest) =>
      PastStartLine(q', rest);
    case Return(_, _) =>
    case Fault =>
  }

  lemma NothingToParse(q: Request)
    requires q.state == ExpectStartLine
    ensures Process(q, "") == Parsed(q, "")
  {
  }

  /** The outcome for `s` is the same however it is cut into pieces. */
  ghost predicate ChunkingInvariant(s: string)
  {
    forall pieces: seq<string> | Join(pieces) == s :: Feed(Parsed(FRESH, ""), pieces) == Process(FRESH, s)
  }

  /** The parser is insensitive to chunking exactly on the inputs whose start line does not leave
      its second space to a later line. */
  lemma ChunkingInvariance(s: string)
    ensures ChunkingInvariant(s) <==> !SpaceOnlyAfterStartLine(s)
  {
    hide SpaceOnlyAfterStartLine, Process;
    if SpaceOnlyAfterStartLine(s) {
      CutAfterStartLine(s);
    } else {
      forall pieces: seq<string> | Join(pieces) == s
        ensures Feed(Parsed(FRESH, ""), pieces) == Process(FRESH, s)
      {
        assert "" + s == s;
        NothingToParse(FRESH);
        FeedIsProcess(FRESH, "", pieces);
      }
    }
  }

  /** Cutting right after the start line makes the target a view of length size_t(-1); given whole, the
      same bytes are a bad request. */
  lemma CutAfterStartLine(s: string)
    requires SpaceOnlyAfterStartLine(s)
    ensures var pieces := [s[..Find(s, CRLF) + 2], s[Find(s, CRLF) + 2..]];
            Join(pieces) == s && Feed(Parsed(FRESH, ""), pieces) == Undefined
    ensures Process(FRESH, s).Parsed? && Process(FRESH, s).request.state == RequestIsBad
  {
    hide Process, LateSpace;
    var crlf := Find(s, CRLF);
    var m := if LateSpace(s, "GET", crlf) then "GET" else "POST";
    var first, second := s[..crlf + 2], s[crlf + 2..];
    var pieces := [first, second];
    assert pieces[1..] == [second];
    assert Join([second]) == second + Join([]) == second;
    assert Join(pieces) == first + second == s;
    assert "" + first == first;
    FirstLineAlone(s, m, crlf);
    LateSpaceOutcome(s, m, crlf);
    assert Feed(Parsed(FRESH, ""), pieces) == Feed(Process(FRESH, first), [second]);
  }

  lemma LateSpaceOutcome(s: string, m: string, crlf: nat)
    requires (m == "GET" || m == "POST") && crlf == Find(s, CRLF) && LateSpace(s, m, crlf)
    ensures Process(FRESH, s).Parsed? && Process(FRESH, s).request.state == RequestIsBad
  {
    hide Process;
    NoSecondSpace(s, m, crlf);
  }

  lemma FirstLineAlone(s: string, m: string, crlf: nat)
    requires (m == "GET" || m == "POST") && crlf == Find(s, CRLF) && LateSpace(s, m, crlf)
    ensures Process(FRESH, s[..crlf + 2]) == Undefined
  {
    hide Process, Find, Contains;
    var first := s[..crlf + 2];
    FirstLine(s, crlf);
    assert first[..|m|] == s[..|m|];
    assert first[|m| + 1..crlf] == s[|m| + 1..crlf];
    NoSecondSpace(first, m, crlf);
  }

  lemma FirstLine(s: string, crlf: nat)
    requires crlf == Find(s, CRLF)
    ensures crlf + 2 <= |s| && Find(s[..crlf + 2], CRLF) == crlf && s[..crlf + 2][crlf..] == CRLF
  {
    var first, second := s[..crlf + 2], s[crlf + 2..];
    assert first + second == s;
    forall k: nat | k <= crlf ensures MatchAt(first, CRLF, k) <==> MatchAt(s, CRLF, k) {
      MatchAtExtend(first, second, CRLF, k);
    }
    assert first[crlf..] == CRLF by { assert s[crlf..crlf + 2] == CRLF; }
    FindIs(first, CRLF, crlf);
  }

  /** A whole first line without a second space. */
  lemma NoSecondSpace(s: string, m: string, crlf: nat)
    requires (m == "GET" || m == "POST") && crlf == Find(s, CRLF)
    requires m <= s && |m| < crlf && s[|m|] == ' ' && ' ' !in s[|m| + 1..crlf]
    ensures ' ' !in s[crlf..] ==> Process(FRESH, s) == Undefined
    ensures ' ' in s[crlf..] ==> Process(FRESH, s).Parsed? && Process(FRESH, s).request.state == RequestIsBad
  {
    hide StartLineTurn, TargetTurn, MatchAt;
    var q := FRESH.(method_ := if m == "GET" then Get else Post);
    MethodTurn(FRESH, s, m, crlf);
    NoSecondSpaceTurn(q, s[|m|..], crlf - |m|);
    SlicesBehind(s, |m|, crlf);
  }

  lemma SlicesBehind(s: string, n: nat, crlf: nat)
    requires n < crlf <= |s|
    ensures s[n..][1..crlf - n] == s[n + 1..crlf] && s[n..][crlf - n..] == s[crlf..]
  {
  }

  /** A start line with a known method is left to TargetTurn. */
  lemma MethodTurn(q: Request, s: string, m: string, crlf: nat)
    requires (m == "GET" || m == "POST") && m <= s && crlf > 0 && crlf == Find(s, CRLF)
    ensures |m| <= crlf && MatchAt(s[|m|..], CRLF, crlf - |m|)
    ensures StartLineTurn(q, s) ==
            TargetTurn(q.(method_ := if m == "GET" then Get else Post), s[|m|..], crlf - |m|)
  {
    hide TargetTurn, MatchAt, Contains;
    if m == "GET" {
      MethodEndsBeforeCrlf(s, "GET", crlf);
    } else {
      MethodEndsBeforeCrlf(s, "POST", crlf);
      assert s[0] == 'P';
    }
  }

  lemma NoSecondSpaceTurn(q: Request, b: string, crlf: nat)
    requires MatchAt(b, CRLF, crlf) && 0 < crlf && b[0] == ' '
    ensures var t := TargetTurn(q, b, crlf);
            ' ' !in b[1..crlf] ==> if ' ' in b[crlf..] then t.Return? && t.request.state == RequestIsBad else t == Fault
  {
    hide ParseTarget;
    SpaceInLine(b, crlf);
  }

  /** A concrete request that is cut-sensitive. */
  lemma ChunkingCounterexample()
    ensures SpaceOnlyAfterStartLine("GET /\r\na: b\r\n\r\n")
    ensures !ChunkingInvariant("GET /\r\na: b\r\n\r\n")
  {
    hide ChunkingInvariant, LateSpace;
    var s := "GET /\r\na: b\r\n\r\n";
    CounterexampleLine(s);
    CounterexampleSpaces(s);
    ChunkingInvariance(s);
  }

  lemma CounterexampleLine(s: string)
    requires s == "GET /\r\na: b\r\n\r\n"
    ensures Find(s, CRLF) == 5
  {
    assert s[5] == '\r' && s[6] == '\n';
    assert s[5..7] == [s[5], s[6]];
    assert forall k | 0 <= k < 5 :: s[k] != '\r';
    forall k: nat | k < 5 ensures !MatchAt(s, CRLF, k) {
      assert s[k..k + 2][0] == s[k];
    }
    FindIs(s, CRLF, 5);
  }

  lemma CounterexampleSpaces(s: string)
    requires s == "GET /\r\na: b\r\n\r\n"
    ensures LateSpace(s, "GET", 5)
  {
    assert s[..3] == [s[0], s[1], s[2]];
    assert s[4..5] == [s[4]] && s[4] == '/';
    assert s[5..][4] == s[9] && s[9] == ' ';
  }

  // ---------------------------------------------------------------- what is accepted

  /** request-line of section 3 of RFC 9112, as far as this parser goes: the version is anything. */
  ghost predicate IsRequestLine(q: Request, line: string, m: string, target: string, version: string)
  {
    && (m == "GET" || m == "POST")
    && line == m + " " + target + " " + version
    && ' ' !in target
    && ParseTarget(q.(method_ := if m == "GET" then Get else Post), target, ' ').0
  }

  /** A method, a space, and no other space in the buffer. */
  predicate NoTargetEnd(buf: string, m: string)
  {
    m + " " <= buf && ' ' !in buf[|m| + 1..]
  }

  /** A complete start line is consumed if and only if it is a request line whose target parses. The
      target is the undefined view if and only if a method and a space are all there is before it and no
      other space is buffered. Otherwise the request is bad. */
  lemma StartLineGrammar(q: Request, buf: string)
    requires Find(buf, CRLF) > 0
    ensures var t, line := StartLineTurn(q, buf), buf[..Find(buf, CRLF)];
            && (t.Loop? <==> exists m, target, version :: IsRequestLine(q, line, m, target, version))
            && (t == Fault <==> NoTargetEnd(buf, "GET") || NoTargetEnd(buf, "POST"))
            && (t.Return? ==> t.request.state == RequestIsBad)
  {
    StartLineFaults(q, buf);
    hide IsRequestLine, StartLineTurn, Find, NoTargetEnd;
    var line := buf[..Find(buf, CRLF)];
    if StartLineTurn(q, buf).Loop? {
      var m, target, version := LineOfAccepted(q, buf);
    }
    if m, target, version :| IsRequestLine(q, line, m, target, version) {
      RequestLineAccepted(q, buf, m, target, version);
    }
    RejectedIsBad(q, buf);
  }

  /** A start line that has not ended leaves everything as it is, and so does an empty line in its place:
      such a request is never answered. */
  lemma StartLineWaits(q: Request, buf: string)
    requires q.state == ExpectStartLine && Find(buf, CRLF) <= 0
    ensures Process(q, buf) == Parsed(q, buf)
  {
  }

  lemma {:induction false} EmptyLineBlocks(buf: string, pieces: seq<string>)
    requires CRLF <= buf
    ensures Feed(Parsed(FRESH, buf), pieces) == Parsed(FRESH, buf + Join(pieces))
    decreases |pieces|
  {
    hide Process;
    if pieces == [] {
      assert buf + "" == buf;
    } else {
      var now := buf + pieces[0];
      assert now[..2] == buf[..2] == CRLF;
      FindIs(now, CRLF, 0);
      StartLineWaits(FRESH, now);
      assert Feed(Parsed(FRESH, buf), pieces) == Feed(Process(FRESH, now), pieces[1..]);
      EmptyLineBlocks(now, pieces[1..]);
      assert now + Join(pieces[1..]) == buf + Join(pieces);
    }
  }

  lemma StartLineFaults(q: Request, buf: string)
    requires Find(buf, CRLF) > 0
    ensures StartLineTurn(q, buf) == Fault <==> NoTargetEnd(buf, "GET") || NoTargetEnd(buf, "POST")
  {
    hide TargetTurn, MatchAt, Contains;
    var crlf := Find(buf, CRLF);
    forall m | m == "GET" || m == "POST" ensures NoTargetEnd(buf, m) ==> m <= buf {
      if NoTargetEnd(buf, m) { assert buf[..|m|] == (m + " ")[..|m|]; }
    }
    if "GET" <= buf {
      MethodTurn(q, buf, "GET", crlf);
      TargetFaults(q.(method_ := Get), buf, "GET", crlf - 3);
      assert !NoTargetEnd(buf, "POST") by { assert buf[0] == 'G'; }
    } else if "POST" <= buf {
      MethodTurn(q, buf, "POST", crlf);
      TargetFaults(q.(method_ := Post), buf, "POST", crlf - 4);
    }
  }

  lemma TargetFaults(q: Request, buf: string, m: string, crlf: nat)
    requires m <= buf && MatchAt(buf[|m|..], CRLF, crlf)
    ensures TargetTurn(q, buf[|m|..], crlf) == Fault <==> NoTargetEnd(buf, m)
  {
    hide ParseTarget, Contains;
    var b := buf[|m|..];
    CrlfByte(b, crlf);
    assert buf == m + b;
    if m + " " <= buf {
      assert b[0] == buf[|m|] == (m + " ")[|m|];
    }
    if " " <= b {
      assert b[0] == ' ';
      assert m + " " <= buf by { assert buf[..|m| + 1] == m + [b[0]]; }
      assert b[1..] == buf[|m| + 1..];
      FindByteNone(b[1..], ' ');
    }
  }

  lemma LineOfAccepted(q: Request, buf: string) returns (m: string, target: string, version: string)
    requires Find(buf, CRLF) > 0 && StartLineTurn(q, buf).Loop?
    ensures IsRequestLine(q, buf[..Find(buf, CRLF)], m, target, version)
  {
    hide ParseTarget, TargetTurn, MatchAt, Contains;
    var crlf := Find(buf, CRLF);
    m := if "GET" <= buf then "GET" else "POST";
    MethodTurn(q, buf, m, crlf);
    target, version := AcceptedTarget(q.(method_ := if m == "GET" then Get else Post), buf[|m|..], crlf - |m|);
    assert buf[..crlf] == m + buf[|m|..][..crlf - |m|];
    assert buf[..crlf] == m + " " + target + " " + version;
  }

  lemma RequestLineAccepted(q: Request, buf: string, m: string, target: string, version: string)
    requires Find(buf, CRLF) > 0 && IsRequestLine(q, buf[..Find(buf, CRLF)], m, target, version)
    ensures StartLineTurn(q, buf).Loop?
  {
    hide ParseTarget, TargetTurn, MatchAt, Contains, StartLineTurn;
    var crlf := Find(buf, CRLF);
    var line := buf[..crlf];
    LineRest(line, m, target, version);
    assert buf[..|m|] == line[..|m|];
    MethodTurn(q, buf, m, crlf);
    assert buf[|m|..][..crlf - |m|] == line[|m|..];
    TargetAccepted(q.(method_ := if m == "GET" then Get else Post), buf[|m|..], crlf - |m|, target, version);
  }

  lemma LineRest(line: string, m: string, target: string, version: string)
    requires line == m + " " + target + " " + version
    ensures line[..|m|] == m && line[|m|..] == " " + target + " " + version
  {
    assert line == m + (" " + target + " " + version);
  }

  lemma AcceptedTarget(q: Request, b: string, crlf: nat) returns (target: string, version: string)
    requires MatchAt(b, CRLF, crlf) && TargetTurn(q, b, crlf).Loop?
    ensures b[..crlf] == " " + target + " " + version
    ensures ' ' !in target && ParseTarget(q, target, ' ').0
  {
    hide ParseTarget;
    FindByteNone(b[1..], ' ');
    FindByteFound(b[1..], ' ');
    var end := Find(b[1..], " ");
    target, version := b[1..][..end], b[end + 2..crlf];
    assert b[..crlf] == [b[0]] + target + [b[end + 1]] + version;
  }

  lemma TargetAccepted(q: Request, b: string, crlf: nat, target: string, version: string)
    requires MatchAt(b, CRLF, crlf) && b[..crlf] == " " + target + " " + version
    requires ' ' !in target && ParseTarget(q, target, ' ').0
    ensures TargetTurn(q, b, crlf).Loop?
  {
    hide ParseTarget, MatchAt, Contains;
    CrlfByte(b, crlf);
    var tail := " " + version + b[crlf..];
    assert b == b[..crlf] + b[crlf..] == " " + (target + tail);
    assert b[1..] == target + tail;
    assert b[1..][..|target|] == target && b[1..][|target|] == ' ';
    FindByteIs(b[1..], ' ', |target|);
  }

  lemma RejectedIsBad(q: Request, buf: string)
    requires Find(buf, CRLF) > 0
    ensures StartLineTurn(q, buf).Return? ==> StartLineTurn(q, buf).request.state == RequestIsBad
  {
    hide ParseTarget;
  }

  /** The header has been read: a content-length decides when the request is done, by the bytes that have
      arrived; without one a transfer-encoding makes the parser wait for ever. */
  lemma BodyExactly(q: Request, buf: string)
    requires q.state == ExpectBody
    ensures "content-length" in q.headers ==>
              match Stoi(q.headers["content-length"])
              case None => Process(q, buf) == Undefined
              case Some(n) => Process(q, buf) == if |buf| < n then Parsed(q, buf) else Parsed(q.(state := Done), buf)
    ensures "content-length" !in q.headers ==>
              Process(q, buf) ==
              if "transfer-encoding" in q.headers then Parsed(q, buf) else Parsed(q.(state := Done), buf)
  {
  }

  /** A request that is done by its content-length has that many bytes behind it. */
  lemma {:induction false} DoneHasItsBody(q: Request, buf: string)
    requires !Final(q)
    ensures var r := Process(q, buf);
            r.Parsed? && r.request.state == Done && "content-length" in r.request.headers ==>
              match Stoi(r.request.headers["content-length"])
              case None => false
              case Some(n) => |r.rest| >= n
    decreases Rank(q.state), |buf|
  {
    hide StartLineTurn, HeaderTurn, Stoi;
    TurnAdvances(q, buf);
    if q.state == ExpectStartLine { StartLineTurnShape(q, buf); }
    if q.state == ExpectHeaderLine { HeaderTurnShape(q, buf); }
    match TurnOf(q, buf)
    case Loop(q', rest) => DoneHasItsBody(q', rest);
    case Return(_, _) =>
    case Fault =>
  }

  /** field-line of section 5 of RFC 9112, with this parser's tokens. */
  ghost predicate IsFieldLine(line: string, name: string, value: string)
  {
    line == name + ":" + value && ':' !in name && CheckToken(Lower(name)) == Token && !Blank(value)
  }

  /** A header line is stored if and only if it is a field line. It is bad if and only if it has no
      colon or its name is no token for a byte below 128. */
  lemma FieldGrammar(q: Request, line: string, buf: string, rest: string)
    ensures var t := FieldTurn(q, line, buf, rest);
            && (t.Loop? <==> exists name, value :: IsFieldLine(line, name, value))
            && (t.Return? <==> Find(line, ":") == -1 || CheckToken(Lower(line[..Find(line, ":")])) == NotToken)
            && (t.Return? ==> t.request.state == RequestIsBad)
  {
    hide CheckToken, Lower, Trim, Blank, Find, IsFieldLine;
    FieldAtColon(line);
    if name, value :| IsFieldLine(line, name, value) {
      FieldSplit(line, name, value);
    }
  }

  /** The name of a field line ends at the first colon. */
  lemma FieldSplit(line: string, name: string, value: string)
    requires IsFieldLine(line, name, value)
    ensures Find(line, ":") == |name| < |line| && line[..|name|] == name && line[|name| + 1..] == value
    ensures CheckToken(Lower(name)) == Token && !Blank(value)
  {
    hide CheckToken, Lower, Blank;
    assert line[..|name|] == name && line[|name|] == ':' && line[|name| + 1..] == value;
    FindByteIs(line, ':', |name|);
  }

  lemma FieldAtColon(line: string)
    ensures var colon := Find(line, ":");
            0 <= colon ==>
              && colon < |line|
              && (CheckToken(Lower(line[..colon])) == Token && !Blank(line[colon + 1..]) ==>
                    IsFieldLine(line, line[..colon], line[colon + 1..]))
  {
    hide CheckToken, Lower, Blank;
    FindByteNone(line, ':');
    if ':' in line {
      FindByteFound(line, ':');
      var colon := Find(line, ":");
      assert line == line[..colon] + ":" + line[colon + 1..];
    }
  }

  /** No router climbs out of its directory or carries a query. */
  lemma RouterIsSafe(target: string)
    requires RouterOf(target).Some?
    ensures !Contains(RouterOf(target).value, "..") && '?' !in RouterOf(target).value
  {
    var spliter := Find(target, "?");
    var router := if spliter == -1 then target else target[..spliter];
    FindByteNone(target, '?');
    if '?' in target { FindByteFound(target, '?'); }
    var r := RouterOf(target).value;
    SuffixAvoids(router, r, "..");
  }

  lemma SuffixAvoids(s: string, r: string, p: string)
    requires |r| <= |s| && r == s[|s| - |r|..] && !Contains(s, p)
    ensures !Contains(r, p)
  {
    var n := |s| - |r|;
    forall i: nat | i <= |r| ensures !MatchAt(r, p, i) {
      assert !MatchAt(s, p, n + i);
      assert i + |p| <= |r| ==> r[i..i + |p|] == s[n + i..n + i + |p|];
    }
  }

  /** `t` is `scheme//host` and then the path `r`; the first double slash is the one behind `scheme`. */
  ghost predicate IsAbsolute(t: string, scheme: string, host: string, r: string)
  {
    t == scheme + "//" + host + r && Find(t, "//") == |scheme| && '/' !in host && r != "" && r[0] == '/'
  }

  /** Lines 31-43, `t` being the target up to its first question mark. What counts as absolute is any
      string that starts with http and is longer than that. */
  lemma RouterGrammar(target: string, r: string)
    ensures var end := Find(target, "?");
            var t := if end == -1 then target else target[..end];
            RouterOf(target) == Some(r) <==>
            && !Contains(t, "..")
            && if |t| > 4 && "http" <= t then exists scheme, host :: IsAbsolute(t, scheme, host, r) else r == t
  {
    hide Contains, IsAbsolute, AbsolutePath;
    var end := Find(target, "?");
    AbsoluteExactly(if end == -1 then target else target[..end], r);
  }

  lemma AbsoluteExactly(t: string, r: string)
    ensures AbsolutePath(t) == Some(r) <==> exists scheme, host :: IsAbsolute(t, scheme, host, r)
  {
    hide Contains, Find, IsAbsolute;
    if AbsolutePath(t) == Some(r) {
      var scheme, host := AbsoluteParts(t, r);
    }
    if scheme, host :| IsAbsolute(t, scheme, host, r) {
      AbsoluteUnique(t, scheme, host, r);
    }
  }

  lemma AbsoluteParts(t: string, r: string) returns (scheme: string, host: string)
    requires AbsolutePath(t) == Some(r)
    ensures IsAbsolute(t, scheme, host, r)
  {
    hide Contains;
    var pos := Find(t, "//");
    var path := t[pos + 2..];
    FindByteNone(path, '/');
    FindByteFound(path, '/');
    var slash := Find(path, "/");
    scheme, host := t[..pos], path[..slash];
    hide Find;
    assert t[pos..pos + 2] == "//";
    Cut(t, pos, slash);
  }

  lemma Cut(t: string, pos: nat, slash: nat)
    requires pos + 2 + slash <= |t|
    ensures t == t[..pos] + t[pos..pos + 2] + t[pos + 2..][..slash] + t[pos + 2..][slash..]
  {
  }

  lemma AbsoluteUnique(t: string, scheme: string, host: string, r: string)
    requires IsAbsolute(t, scheme, host, r)
    ensures AbsolutePath(t) == Some(r)
  {
    hide Contains;
    Regroup(scheme + "//", host, r);
    assert t[|scheme| + 2..] == host + r;
    assert (host + r)[..|host|] == host && (host + r)[|host|..] == r;
    FindByteIs(host + r, '/', |host|);
  }

  lemma Regroup(a: string, b: string, c: string)
    ensures a + b + c == a + (b + c)
  {
  }

  /** An absolute-form target is routed by its path alone. */
  lemma AbsoluteForm(host: string, path: string)
    requires '/' !in host && '?' !in host && '?' !in path && path != "" && path[0] == '/'
    requires Find("http://" + host + path, "..") == -1
    ensures RouterOf("http://" + host + path) == Some(path)
  {
    var t := "http://" + host + path;
    FindByteNone(t, '?');
    SchemeEnd(host + path);
    assert t == "http://" + (host + path);
    assert t[7..] == host + path;
    assert (host + path)[..|host|] == host && (host + path)[|host|..] == path;
    FindByteIs(host + path, '/', |host|);
  }

  lemma SchemeEnd(rest: string)
    ensures var t := "http://" + rest; "http" <= t && Find(t, "//") == 5
  {
    var scheme := "http://";
    var t := scheme + rest;
    assert t[..4] == scheme[..4] == "http";
    assert t[5..7] == scheme[5..7] == "//";
    forall k: nat | k < 5 ensures !MatchAt(t, "//", k) {
      assert t[k..k + 2][0] == t[k] == scheme[k];
    }
    FindIs(t, "//", 5);
  }
}
