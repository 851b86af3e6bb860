/** contrib/http/http_request.cc: HttpRequest reading a Buffer in place. */
module HttpRequests {
  import opened Bytes
  import opened Buffers
  import opened HttpUtils
  import opened HttpParsing

  datatype Flow = GoOn | Stop | Abort

  ghost function AsTurn(flow: Flow, q: Request, rest: string): Turn
  {
    match flow
    case GoOn => Loop(q, rest)
    case Stop => Return(q, rest)
    case Abort => Fault
  }

  class HttpRequest {
    var headers: map<string, string>
    var arguments: map<string, string>
    var state: ParseState
    var type_: RequestType
    var router: string

    function Value(): Request
      reads this
    {
      Request(state, type_, router, arguments, headers)
    }

    constructor ()
      ensures Value() == FRESH
    {
      headers, arguments, state, type_, router := map[], map[], ExpectStartLine, Unknown, "";
    }

    method Route(target: string) returns (r: Option<string>)
      ensures r == RouterOf(target)
    {
      var spliter := Find(target, "?");
      var path := if spliter == -1 then target else target[..spliter];
      if Find(path, "..") != -1 { return None; }
      if |path| > 4 && "http" <= path {
        var pos := Find(path, "//");
        if pos == -1 { return None; }
        path := path[pos + 2..];
        pos := Find(path, "/");
        if pos == -1 { return None; }
        path := path[pos..];
      }
      r := Some(path);
    }

    method ParseTarget(target: string, after: char) returns (ok: bool)
      modifies this`router, this`arguments
      ensures (ok, Value()) == HttpParsing.ParseTarget(old(Value()), target, after)
    {
      hide RouterOf, ParseQuery;
      var path := Route(target);
      if path.None? { return false; }
      router := path.value;
      var spliter := Find(target, "?");
      if spliter == -1 { return true; }
      MatchByte(target, '?', spliter);
      ok := StoreQuery(target[spliter + 1..], after);
    }

    method StoreQuery(all: string, after: char) returns (ok: bool)
      modifies this`arguments
      ensures (ok, arguments) == ParseQuery(old(arguments), all, after)
    {
      var query := all;
      while query != ""
        invariant ParseQuery(old(arguments), all, after) == ParseQuery(arguments, query, after)
        decreases |query|
      {
        var amp := Find(query, "&");
        var kv := if amp == -1 then query else query[..amp];
        ok := StorePair(kv, if amp == -1 then after else '&');
        if !ok { return; }
        if amp == -1 { return; }
        query := query[amp + 1..];
      }
      ok := true;
    }

    method StorePair(kv: string, after: char) returns (ok: bool)
      modifies this`arguments
      ensures var next := ParsePair(old(arguments), kv, after);
              ok == next.Some? && arguments == if ok then next.value else old(arguments)
    {
      var eq := Find(kv, "=");
      var key, value := kv, "";
      if eq != -1 {
        key := kv[..eq];
        value := kv[eq + 1..];
      }
      var keyOpt := ParsePercentEncoding(key, if eq == -1 then after else '=');
      var valOpt := ParsePercentEncoding(value, after);
      ok := keyOpt.Some? && valOpt.Some?;
      if ok {
        arguments := arguments[keyOpt.value := valOpt.value];
      }
    }

    method ProcessStartLine(buf: Buffer) returns (flow: Flow)
      requires buf.Valid()
      modifies this, buf`head
      ensures buf.Valid()
      ensures StartLineTurn(old(Value()), old(buf.Contents())) == AsTurn(flow, Value(), buf.Contents())
    {
      hide HttpParsing.TargetTurn, MatchAt;
      ghost var all := buf.Contents();
      var crlf := buf.FirstOf(CRLF);
      if crlf <= 0 { return Stop; }
      var isGet := buf.StartWith("GET");
      if isGet {
        MethodTurn(Value(), all, "GET", crlf);
        type_ := Get;
        buf.Pop(3);
        crlf := crlf - 3;
      } else {
        var isPost := buf.StartWith("POST");
        if !isPost {
          state := RequestIsBad;
          return Stop;
        }
        MethodTurn(Value(), all, "POST", crlf);
        type_ := Post;
        buf.Pop(4);
        crlf := crlf - 4;
      }
      flow := ProcessTarget(buf, crlf);
    }

    method ProcessTarget(buf: Buffer, lineEnd: nat) returns (flow: Flow)
      requires buf.Valid() && MatchAt(buf.Contents(), CRLF, lineEnd)
      modifies this, buf`head
      ensures buf.Valid()
      ensures TargetTurn(old(Value()), old(buf.Contents()), lineEnd) == AsTurn(flow, Value(), buf.Contents())
    {
      hide HttpParsing.ParseTarget, MatchAt, Contains;
      ghost var all := buf.Contents();
      CrlfByte(all, lineEnd);
      var space := buf.StartWith(" ");
      if !space {
        state := RequestIsBad;
        return Stop;
      }
      buf.Pop(1);
      var crlf := lineEnd - 1;
      var end := buf.FirstOf(" ");
      if end >= crlf {
        state := RequestIsBad;
        return Stop;
      }
      if end < 0 { return Abort; }
      assert all[1..][crlf + 2..] == all[lineEnd + 2..];
      flow := TakeTarget(buf, end, crlf);
    }

    /** Lines 111-126: the target ends at `end`, its line at `crlf`. */
    method TakeTarget(buf: Buffer, end: nat, crlf: nat) returns (flow: Flow)
      requires buf.Valid() && end < crlf && crlf + 2 <= |buf.Contents()|
      modifies this, buf`head
      ensures buf.Valid()
      ensures var (ok, parsed) := HttpParsing.ParseTarget(old(Value()), old(buf.Contents())[..end], ' ');
              if ok then
                && flow == GoOn && Value() == parsed.(state := ExpectHeaderLine)
                && buf.Contents() == old(buf.Contents())[crlf + 2..]
              else
                flow == Stop && Value() == Bad(parsed) && buf.Contents() == old(buf.Contents())
    {
      hide HttpParsing.ParseTarget;
      ghost var all := buf.Contents();
      var target := buf.View(end);
      var ok := ParseTarget(target, ' ');
      if !ok {
        state := RequestIsBad;
        return Stop;
      }
      buf.Pop(end + 1);
      var rest := crlf - (end + 1);
      buf.Pop(rest + 2);
      DropTwice(all, end + 1, rest + 2);
      state := ExpectHeaderLine;
      flow := GoOn;
    }

    lemma DropTwice(s: string, a: nat, b: nat)
      requires a + b <= |s|
      ensures s[a..][b..] == s[a + b..]
    {
    }

    method ProcessHeaderLine(buf: Buffer) returns (flow: Flow)
      requires buf.Valid()
      modifies this, buf`head
      ensures buf.Valid()
      ensures HeaderTurn(old(Value()), old(buf.Contents())) == AsTurn(flow, Value(), buf.Contents())
    {
      hide FieldTurn;
      var crlf := buf.FirstOf(CRLF);
      if crlf < 0 { return Stop; }
      if crlf == 0 {
        buf.Pop(2);
        state := ExpectBody;
        return GoOn;
      }
      var line := buf.View(crlf);
      flow := StoreField(line, buf.Contents(), buf.Contents()[crlf + 2..]);
      if flow == GoOn {
        buf.Pop(crlf + 2);
      }
    }

    /** Lines 148-162; the unread bytes are popped by the caller. */
    method StoreField(line: string, ghost unread: string, ghost rest: string) returns (flow: Flow)
      modifies this
      ensures FieldTurn(old(Value()), line, unread, rest) ==
              AsTurn(flow, Value(), if flow == GoOn then rest else unread)
    {
      hide CheckToken, Trim, Lower;
      var colon := Find(line, ":");
      if colon == -1 {
        state := RequestIsBad;
        return Stop;
      }
      var name := ToLower(line[..colon]);
      var check := IsToken(name);
      if check == OutOfTable { return Abort; }
      if check == NotToken {
        state := RequestIsBad;
        return Stop;
      }
      var content := Strip(line[colon + 1..]);
      if content.None? { return Abort; }
      headers := Emplace(headers, name, content.value);
      flow := GoOn;
    }

    method ProcessBody(buf: Buffer) returns (flow: Flow)
      requires buf.Valid()
      modifies this
      ensures BodyTurn(old(Value()), buf.Contents()) == AsTurn(flow, Value(), buf.Contents())
    {
      hide Stoi;
      if "content-length" in headers {
        var n := Stoi(headers["content-length"]);
        if n.None? { return Abort; }
        if buf.ReadableBytes() >= n.value {
          state := Done;
        }
        return Stop;
      }
      if "transfer-encoding" in headers { return Stop; }
      state := Done;
      flow := Stop;
    }

    /** Only consumes from the front of the buffer. */
    method Process(buf: Buffer) returns (undefined: bool)
      requires buf.Valid()
      modifies this, buf`head
      ensures buf.Valid()
      ensures HttpParsing.Process(old(Value()), old(buf.Contents())) ==
              if undefined then Undefined else Parsed(Value(), buf.Contents())
    {
      hide StartLineTurn, HeaderTurn, BodyTurn;
      while true
        invariant buf.Valid()
        invariant HttpParsing.Process(old(Value()), old(buf.Contents())) ==
                  HttpParsing.Process(Value(), buf.Contents())
        decreases Rank(state), |buf.Contents()|
      {
        ghost var q, rest := Value(), buf.Contents();
        TurnAdvances(q, rest);
        var flow := Stop;
        if state == ExpectStartLine {
          flow := ProcessStartLine(buf);
        } else if state == ExpectHeaderLine {
          flow := ProcessHeaderLine(buf);
        } else if state == ExpectBody {
          flow := ProcessBody(buf);
        }
        assert TurnOf(q, rest) == AsTurn(flow, Value(), buf.Contents());
        if flow == Stop { return false; }
        if flow == Abort { return true; }
      }
    }
  }
}
