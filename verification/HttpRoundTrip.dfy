/** What a peer writes and the request parser reads: query strings, header fields, whole requests. */
module HttpRoundTrip {
  import opened Bytes
  import opened HttpUtils
  import opened HttpParsing

  type Pair = (string, string)

  // ---------------------------------------------------------------- query strings

  predicate OctetPairs(pairs: seq<Pair>)
  {
    forall i | 0 <= i < |pairs| :: IsOctets(pairs[i].0) && IsOctets(pairs[i].1)
  }

  function PairText(p: Pair): string
    requires IsOctets(p.0) && IsOctets(p.1)
  {
    Encode(p.0) + "=" + Encode(p.1)
  }

  function QueryText(pairs: seq<Pair>): string
    requires OctetPairs(pairs)
  {
    if pairs == [] then ""
    else if |pairs| == 1 then PairText(pairs[0])
    else PairText(pairs[0]) + "&" + QueryText(pairs[1..])
  }

  function Assign(m: map<string, string>, pairs: seq<Pair>): map<string, string>
    decreases |pairs|
  {
    if pairs == [] then m else Assign(m[pairs[0].0 := pairs[0].1], pairs[1..])
  }

  /** Assign keeps, for every key, the value of its last occurrence (`last` is -1 when there is none). */
  lemma {:induction false} AssignLastWins(m: map<string, string>, pairs: seq<Pair>, k: string, last: int)
    requires -1 <= last < |pairs| && (last >= 0 ==> pairs[last].0 == k)
    requires forall i | last < i < |pairs| :: pairs[i].0 != k
    ensures k in Assign(m, pairs) <==> last >= 0 || k in m
    ensures k in Assign(m, pairs) ==> Assign(m, pairs)[k] == if last >= 0 then pairs[last].1 else m[k]
    decreases |pairs|
  {
    if pairs != [] {
      AssignLastWins(m[pairs[0].0 := pairs[0].1], pairs[1..], k, if last > 0 then last - 1 else -1);
    }
  }

  lemma EncodeAvoids(s: string, c: char)
    requires IsOctets(s) && !Unreserved(c) && c != '%'
    ensures c !in Encode(s)
  {
  }

  lemma PairRoundTrip(m: map<string, string>, p: Pair, after: char)
    requires IsOctets(p.0) && IsOctets(p.1)
    ensures ParsePair(m, PairText(p), after) == Some(m[p.0 := p.1])
  {
    var kv := PairText(p);
    var n := |Encode(p.0)|;
    EncodeAvoids(p.0, '=');
    assert kv[..n] == Encode(p.0) && kv[n] == '=' && kv[n + 1..] == Encode(p.1);
    FindByteIs(kv, '=', n);
    DecodeEncode(p.0, '=');
    DecodeEncode(p.1, after);
  }

  lemma PairTextAvoids(p: Pair, c: char)
    requires IsOctets(p.0) && IsOctets(p.1) && !Unreserved(c) && c != '%' && c != '='
    ensures c !in PairText(p)
  {
    EncodeAvoids(p.0, c);
    EncodeAvoids(p.1, c);
  }

  lemma {:induction false} QueryTextAvoids(pairs: seq<Pair>, c: char)
    requires OctetPairs(pairs) && !Unreserved(c) && c !in "%=&"
    ensures c !in QueryText(pairs)
  {
    if pairs != [] {
      PairTextAvoids(pairs[0], c);
      QueryTextAvoids(pairs[1..], c);
    }
  }

  /** The first of several pairs is read up to its ampersand. */
  lemma QueryTurn(m: map<string, string>, p: Pair, rest: string, after: char)
    requires IsOctets(p.0) && IsOctets(p.1)
    ensures ParseQuery(m, PairText(p) + "&" + rest, after) == ParseQuery(m[p.0 := p.1], rest, after)
  {
    hide ParsePair, PairText;
    var kv := PairText(p);
    var query := kv + "&" + rest;
    PairRoundTrip(m, p, '&');
    PairTextAvoids(p, '&');
    assert query[..|kv|] == kv && query[|kv|] == '&' && query[|kv| + 1..] == rest;
    FindByteIs(query, '&', |kv|);
  }

  lemma QueryLastTurn(m: map<string, string>, p: Pair, after: char)
    requires IsOctets(p.0) && IsOctets(p.1)
    ensures ParseQuery(m, PairText(p), after) == (true, m[p.0 := p.1])
  {
    hide ParsePair, PairText;
    PairRoundTrip(m, p, after);
    PairTextAvoids(p, '&');
    PairTextNotEmpty(p);
    FindByteNone(PairText(p), '&');
  }

  /** Reading back an encoded list of pairs stores exactly its last-wins map. */
  lemma {:induction false} QueryRoundTrip(m: map<string, string>, pairs: seq<Pair>, after: char)
    requires OctetPairs(pairs)
    ensures ParseQuery(m, QueryText(pairs), after) == (true, Assign(m, pairs))
    decreases |pairs|
  {
    if pairs != [] {
      hide ParseQuery, PairText;
      if |pairs| == 1 {
        QueryLastTurn(m, pairs[0], after);
        assert Assign(m, pairs) == Assign(m[pairs[0].0 := pairs[0].1], []);
      } else {
        QueryTurn(m, pairs[0], QueryText(pairs[1..]), after);
        QueryRoundTrip(m[pairs[0].0 := pairs[0].1], pairs[1..], after);
      }
    }
  }

  /** Whatever stands before the first ampersand is one pair, also the empty string. */
  lemma QuerySplit(m: map<string, string>, kv: string, rest: string, after: char)
    requires '&' !in kv
    ensures ParseQuery(m, kv + "&" + rest, after) ==
            match ParsePair(m, kv, '&')
            case None => (false, m)
            case Some(next) => ParseQuery(next, rest, after)
  {
    hide ParsePair;
    var query := kv + "&" + rest;
    assert query[..|kv|] == kv && query[|kv|] == '&' && query[|kv| + 1..] == rest;
    FindByteIs(query, '&', |kv|);
  }

  lemma QueryLast(m: map<string, string>, kv: string, after: char)
    requires '&' !in kv && kv != ""
    ensures ParseQuery(m, kv, after) ==
            match ParsePair(m, kv, after)
            case None => (false, m)
            case Some(next) => (true, next)
  {
    hide ParsePair;
    FindByteNone(kv, '&');
  }

  /** A bad escape in key or value rejects the pair. */
  lemma BadEscape(m: map<string, string>, key: string, value: string, after: char)
    requires '=' !in key
    ensures ParsePair(m, key + "=" + value, after).None? <==> Decode(key, '=').None? || Decode(value, after).None?
  {
    var kv := key + "=" + value;
    assert kv[..|key|] == key && kv[|key|] == '=' && kv[|key| + 1..] == value;
    FindByteIs(kv, '=', |key|);
  }

  /** A key without an equals sign gets the empty value, however the key is encoded. */
  lemma BareKey(m: map<string, string>, text: string, key: string, after: char)
    requires WellFormed(text) && Encodes(text, key) && '=' !in text
    ensures ParsePair(m, text, after) == Some(m[key := ""])
  {
    hide Decode, Encodes, WellFormed;
    FindByteNone(text, '=');
    DecodeExactly(text, key, after);
    EmptyDecodes(after);
  }

  lemma EmptyDecodes(after: char)
    ensures Decode("", after) == Some("")
  {
  }

  lemma PairTextNotEmpty(p: Pair)
    requires IsOctets(p.0) && IsOctets(p.1)
    ensures PairText(p) != ""
  {
  }

  /** An origin-form path that Process can carry: no query mark, blank, CR or "..". */
  predicate PlainPath(path: string)
  {
    && path != "" && path[0] == '/'
    && '?' !in path && ' ' !in path && '\r' !in path
    && Find(path, "..") == -1
  }

  /** ParseTarget on a plain path and an encoded query. */
  lemma TargetRoundTrip(q: Request, path: string, pairs: seq<Pair>, after: char)
    requires PlainPath(path) && OctetPairs(pairs)
    ensures ParseTarget(q, path + "?" + QueryText(pairs), after) ==
            (true, q.(router := path, arguments := Assign(q.arguments, pairs)))
  {
    hide ParseQuery, QueryText, Assign;
    var target := path + "?" + QueryText(pairs);
    assert target[..|path|] == path && target[|path|] == '?';
    assert target[|path| + 1..] == QueryText(pairs);
    FindByteIs(target, '?', |path|);
    QueryRoundTrip(q.arguments, pairs, after);
  }

  // ---------------------------------------------------------------- header fields

  predicate LowerToken(k: string)
  {
    forall i | 0 <= i < |k| :: IsTchar(k[i]) && LowerByteFixed(k[i])
  }

  predicate FieldOk(f: Pair)
  {
    LowerToken(f.0) && Trimmed(f.1) && Find(f.1, CRLF) == -1
  }

  predicate FieldsOk(fields: seq<Pair>)
  {
    forall i | 0 <= i < |fields| :: FieldOk(fields[i])
  }

  /** Line 23 of http_response.cc. */
  function FieldLine(f: Pair): string
  {
    f.0 + ": " + f.1
  }

  function FieldsText(fields: seq<Pair>): string
  {
    if fields == [] then "" else FieldLine(fields[0]) + CRLF + FieldsText(fields[1..])
  }

  function Store(m: map<string, string>, fields: seq<Pair>): map<string, string>
    decreases |fields|
  {
    if fields == [] then m else Store(Emplace(m, fields[0].0, fields[0].1), fields[1..])
  }

  /** Store keeps an entry already there, and otherwise the first occurrence (`first` is |fields|
      when there is none). */
  lemma {:induction false} StoreFirstWins(m: map<string, string>, fields: seq<Pair>, k: string, first: nat)
    requires first <= |fields| && (first < |fields| ==> fields[first].0 == k)
    requires forall i | 0 <= i < first :: fields[i].0 != k
    ensures k in Store(m, fields) <==> k in m || first < |fields|
    ensures k in Store(m, fields) ==> Store(m, fields)[k] == if k in m then m[k] else fields[first].1
    decreases |fields|
  {
    if fields != [] {
      var m' := Emplace(m, fields[0].0, fields[0].1);
      if first > 0 {
        StoreFirstWins(m', fields[1..], k, first - 1);
      } else {
        StoreKeeps(m', fields[1..], k);
      }
    }
  }

  lemma {:induction false} StoreKeeps(m: map<string, string>, fields: seq<Pair>, k: string)
    requires k in m
    ensures k in Store(m, fields) && Store(m, fields)[k] == m[k]
    decreases |fields|
  {
    if fields != [] {
      StoreKeeps(Emplace(m, fields[0].0, fields[0].1), fields[1..], k);
    }
  }

  /** The end of a line that holds no CRLF and does not end in CR. */
  lemma FindLineEnd(line: string, more: string)
    requires Find(line, CRLF) == -1 && (line != "" ==> line[|line| - 1] != '\r')
    ensures Find(line + CRLF + more, CRLF) == |line|
  {
    var s := line + CRLF + more;
    assert s == line + (CRLF + more);
    assert s[|line|..|line| + 2] == CRLF;
    forall k: nat | k < |line| ensures !MatchAt(s, CRLF, k) {
      if k + 2 <= |line| {
        MatchAtExtend(line, CRLF + more, CRLF, k);
      } else {
        assert s[k..k + 2][0] == line[k];
      }
    }
    FindIs(s, CRLF, |line|);
  }

  lemma FieldLineShape(f: Pair)
    requires FieldOk(f)
    ensures var line := FieldLine(f);
            && |line| > |f.0| && line[|line| - 1] != '\r'
            && Find(line, ":") == |f.0| && line[..|f.0|] == f.0 && line[|f.0| + 1..] == " " + f.1
  {
    hide Find;
    var line, n := FieldLine(f), |f.0|;
    assert line[..n] == f.0 && line[n] == ':' && line[n + 1..] == " " + f.1;
    forall i | 0 <= i < n ensures line[..n][i] != ':' {
      assert IsTchar(f.0[i]);
    }
    FindByteIs(line, ':', n);
  }

  lemma FieldLineHasNoCrlf(f: Pair)
    requires FieldOk(f)
    ensures Find(FieldLine(f), CRLF) == -1
  {
    hide Trimmed, Find;
    var line, n := FieldLine(f), |f.0|;
    forall i | 0 <= i < n + 2 ensures line[i] != '\r' {
      assert i < n ==> IsTchar(f.0[i]);
    }
    forall k: nat | k <= |line| ensures !MatchAt(line, CRLF, k) {
      if k + 2 <= |line| {
        assert line[k..k + 2][0] == line[k];
        if k >= n + 2 {
          assert line[k..k + 2] == f.1[k - n - 2..k - n];
          assert !MatchAt(f.1, CRLF, k - n - 2);
        }
      }
    }
    FindNone(line, CRLF);
  }

  lemma FieldParts(f: Pair)
    requires FieldOk(f)
    ensures Lower(f.0) == f.0 && CheckToken(f.0) == Token
    ensures !Blank(" " + f.1) && Trim(" " + f.1) == f.1
  {
    hide Trim, CheckToken;
    LowerTwice(f.0);
    assert " " + f.1 + "" == " " + f.1;
    TrimIs(" ", f.1, "");
    assert !IsSpace((" " + f.1)[1]);
  }

  /** One printed field is read back by one turn of the header phase. */
  lemma FieldRoundTrip(q: Request, f: Pair, buf: string, rest: string)
    requires FieldOk(f)
    ensures FieldTurn(q, FieldLine(f), buf, rest) == Loop(q.(headers := Emplace(q.headers, f.0, f.1)), rest)
  {
    hide FieldLine, FieldOk, Trim, CheckToken, Lower, Blank, Find, Emplace;
    FieldLineShape(f);
    FieldParts(f);
  }

  /** `written` is `name` in small and capital letters. */
  predicate SameLetters(written: string, name: string)
  {
    && |written| == |name|
    && forall i | 0 <= i < |name| ::
         written[i] == name[i] || exists k | 0 <= k < 26 :: written[i] == UPPER[k] && name[i] == LOWER[k]
  }

  lemma LettersLower(written: string, name: string)
    requires SameLetters(written, name) && LowerToken(name)
    ensures Lower(written) == name && ':' !in written
  {
    forall i | 0 <= i < |name| ensures LowerByte(written[i]) == name[i] && written[i] != ':' {
      assert IsTchar(name[i]) && LowerByteFixed(name[i]);
      if written[i] != name[i] { LetterLowers(written[i], name[i]); }
    }
  }

  lemma LetterLowers(c: char, d: char)
    requires exists k | 0 <= k < 26 :: c == UPPER[k] && d == LOWER[k]
    ensures LowerByte(c) == d && c != ':'
  {
    LowerLetters(c);
    hide LowerByte;
    assert ':' !in UPPER;
  }

  /** A field as clients write it: the name in any case, any blanks around the value. */
  lemma FieldAsWritten(
    q: Request, written: string, name: string, left: string, value: string, right: string, buf: string, rest: string)
    requires SameLetters(written, name) && LowerToken(name)
    requires Blank(left) && Trimmed(value) && Blank(right)
    ensures FieldTurn(q, written + ":" + (left + value + right), buf, rest) ==
            Loop(q.(headers := Emplace(q.headers, name, value)), rest)
  {
    hide Trim, CheckToken, Lower, Find, SameLetters;
    var content := left + value + right;
    var line := written + ":" + content;
    LettersLower(written, name);
    assert line[..|written|] == written && line[|written|] == ':' && line[|written| + 1..] == content;
    FindByteIs(line, ':', |written|);
    TrimIs(left, value, right);
    assert !Blank(content) by { assert content[|left|] == value[0]; }
    LowerTwice(name);
  }

  lemma HeaderTurnOnField(q: Request, f: Pair, tail: string)
    requires q.state == ExpectHeaderLine && FieldOk(f)
    ensures HeaderTurn(q, FieldLine(f) + CRLF + tail) == Loop(q.(headers := Emplace(q.headers, f.0, f.1)), tail)
  {
    hide FieldTurn, FieldLine, FieldOk, MatchAt;
    var line := FieldLine(f);
    var buf := line + CRLF + tail;
    FieldLineShape(f);
    FieldLineHasNoCrlf(f);
    FindLineEnd(line, tail);
    assert buf[..|line|] == line && buf[|line| + 2..] == tail;
    FieldRoundTrip(q, f, buf, tail);
  }

  lemma HeaderTurnOnEnd(q: Request, rest: string)
    requires q.state == ExpectHeaderLine
    ensures HeaderTurn(q, CRLF + rest) == Loop(q.(state := ExpectBody), rest)
  {
    FindLineEnd("", rest);
    assert "" + CRLF + rest == CRLF + rest;
  }

  /** The printed fields, in any order and followed by the empty line, are read back as the
      first-wins map. */
  lemma {:induction false} HeaderRoundTrip(q: Request, fields: seq<Pair>, rest: string)
    requires q.state == ExpectHeaderLine && FieldsOk(fields)
    ensures Process(q, FieldsText(fields) + CRLF + rest) ==
            Process(q.(headers := Store(q.headers, fields), state := ExpectBody), rest)
    decreases |fields|
  {
    hide HeaderTurn, FieldLine, FieldOk;
    if fields == [] {
      HeaderTurnOnEnd(q, rest);
      assert FieldsText(fields) + CRLF + rest == CRLF + rest;
    } else {
      assert FieldOk(fields[0]);
      var tail := FieldsText(fields[1..]) + CRLF + rest;
      assert FieldsText(fields) + CRLF + rest == FieldLine(fields[0]) + CRLF + tail;
      HeaderTurnOnField(q, fields[0], tail);
      HeaderRoundTrip(q.(headers := Emplace(q.headers, fields[0].0, fields[0].1)), fields[1..], rest);
    }
  }

  /** An iteration order of a map: every entry exactly once. */
  predicate Lists(fields: seq<Pair>, m: map<string, string>)
  {
    && (forall i | 0 <= i < |fields| :: fields[i].0 in m && m[fields[i].0] == fields[i].1)
    && (forall i, j | 0 <= i < j < |fields| :: fields[i].0 != fields[j].0)
    && (forall k | k in m :: exists i | 0 <= i < |fields| :: fields[i].0 == k)
  }

  /** Storing the entries of a map in any order gives back the map. */
  lemma StoreListed(fields: seq<Pair>, m: map<string, string>)
    requires Lists(fields, m)
    ensures Store(map[], fields) == m
  {
    var stored := Store(map[], fields);
    forall k ensures (k in stored <==> k in m) && (k in m ==> stored[k] == m[k]) {
      if k in m {
        var i :| 0 <= i < |fields| && fields[i].0 == k;
        StoreFirstWins(map[], fields, k, i);
      } else {
        StoreFirstWins(map[], fields, k, |fields|);
      }
    }
  }

  // ---------------------------------------------------------------- whole requests

  datatype Message = Message(
    post: bool, path: string, pairs: seq<Pair>, fields: seq<Pair>, body: string)
  {
    function Headers(): map<string, string>
    {
      Store(map[], fields)
    }

    /** What the client must respect for the body to be framed by this parser. */
    predicate Valid()
    {
      && PlainPath(path) && OctetPairs(pairs) && FieldsOk(fields)
      && "transfer-encoding" !in Headers()
      && ("content-length" in Headers() ==>
            Headers()["content-length"] == ToDecimal(|body|) && |body| < 0x8000_0000)
    }

    function Method(): string
    {
      if post then "POST" else "GET"
    }

    function Target(): string
      requires Valid()
    {
      path + "?" + QueryText(pairs)
    }

    function Text(): string
      requires Valid()
    {
      Method() + " " + Target() + " HTTP/1.1" + CRLF + (FieldsText(fields) + CRLF + body)
    }

    function Parsed(): Request
    {
      Request(Done, if post then Post else Get, path, Assign(map[], pairs), Headers())
    }
  }

  lemma NoCrNoCrlf(s: string)
    requires '\r' !in s
    ensures Find(s, CRLF) == -1
  {
    forall k: nat | k <= |s| ensures !MatchAt(s, CRLF, k) {
      if k + 2 <= |s| { assert s[k..k + 2][0] == s[k]; }
    }
    FindNone(s, CRLF);
  }

  lemma TargetAvoids(msg: Message, c: char)
    requires msg.Valid() && (c == ' ' || c == '\r')
    ensures c !in msg.Target()
  {
    QueryTextAvoids(msg.pairs, c);
  }

  /** The part of the start line after the method, and what follows the line. */
  lemma TargetTurnOnMessage(q: Request, msg: Message, tail: string)
    requires msg.Valid()
    ensures var b, n := " " + msg.Target() + " HTTP/1.1" + CRLF + tail, |msg.Target()| + 10;
            && MatchAt(b, CRLF, n)
            && TargetTurn(q, b, n) == Loop(
                 q.(router := msg.path, arguments := Assign(q.arguments, msg.pairs), state := ExpectHeaderLine), tail)
  {
    hide ParseTarget, Message.Valid;
    var target := msg.Target();
    var b, n := " " + target + " HTTP/1.1" + CRLF + tail, |target| + 10;
    TargetAvoids(msg, ' ');
    assert b[n..n + 2] == CRLF && b[n + 2..] == tail;
    assert b[1..][..|target|] == target && b[1..][|target|] == ' ';
    FindByteIs(b[1..], ' ', |target|);
    assert msg.Valid() ==> PlainPath(msg.path) && OctetPairs(msg.pairs) by { MessageParts(msg); }
    TargetRoundTrip(q, msg.path, msg.pairs, ' ');
  }

  lemma MessageParts(msg: Message)
    ensures msg.Valid() ==> PlainPath(msg.path) && OctetPairs(msg.pairs) && FieldsOk(msg.fields)
  {
  }

  lemma StartLineTurnOnMessage(msg: Message)
    requires msg.Valid()
    ensures StartLineTurn(FRESH, msg.Text()) == Loop(
              Request(ExpectHeaderLine, if msg.post then Post else Get, msg.path, Assign(map[], msg.pairs), map[]),
              FieldsText(msg.fields) + CRLF + msg.body)
  {
    hide TargetTurn, StartLineTurn, Message.Valid, Message.Target, MatchAt;
    var tail := FieldsText(msg.fields) + CRLF + msg.body;
    var m, text := msg.Method(), msg.Text();
    var b := " " + msg.Target() + " HTTP/1.1" + CRLF + tail;
    var line := m + " " + msg.Target() + " HTTP/1.1";
    assert text == line + CRLF + tail;
    assert text[|m|..] == b && text[..|m|] == m;
    TargetAvoids(msg, '\r');
    NoCrNoCrlf(line);
    FindLineEnd(line, tail);
    MethodTurn(FRESH, text, m, |line|);
    TargetTurnOnMessage(FRESH.(method_ := if m == "GET" then Get else Post), msg, tail);
  }

  /** A request written by a client and read in one piece. */
  lemma MessageRoundTrip(msg: Message)
    requires msg.Valid()
    ensures Process(FRESH, msg.Text()) == Parsed(msg.Parsed(), msg.body)
  {
    hide StartLineTurn, HeaderTurn, Message.Text;
    StartLineTurnOnMessage(msg);
    var q := Request(ExpectHeaderLine, if msg.post then Post else Get, msg.path, Assign(map[], msg.pairs), map[]);
    HeaderRoundTrip(q, msg.fields, msg.body);
    StoiToDecimal(|msg.body|);
  }

  lemma MessageUnambiguous(msg: Message)
    requires msg.Valid()
    ensures !SpaceOnlyAfterStartLine(msg.Text())
  {
    hide Process, Message.Text, Message.Valid, SpaceOnlyAfterStartLine;
    MessageRoundTrip(msg);
    if SpaceOnlyAfterStartLine(msg.Text()) { CutAfterStartLine(msg.Text()); }
  }

  /** A request written by a client and read in any pieces: method, path, arguments, headers and
      body all come back, and the parser is done. */
  lemma MessageInPieces(msg: Message, pieces: seq<string>)
    requires msg.Valid() && Join(pieces) == msg.Text()
    ensures Feed(Parsed(FRESH, ""), pieces) == Parsed(msg.Parsed(), msg.body)
  {
    hide Process, Message.Text, Message.Valid, SpaceOnlyAfterStartLine;
    MessageRoundTrip(msg);
    ChunkingInvariance(msg.Text());
    MessageUnambiguous(msg);
  }

  /** How much of a message the parser needs: with a content-length all of it, otherwise the header. */
  function Needed(msg: Message): int
    requires msg.Valid()
  {
    if "content-length" in msg.Headers() then |msg.Text()| else |msg.Text()| - |msg.body|
  }

  /** While a message arrives the request is neither bad nor undefined, and it is done from the byte
      that completes it on, not earlier. */
  lemma MessageArrives(msg: Message, n: nat)
    requires msg.Valid() && n <= |msg.Text()|
    ensures var r := Process(FRESH, msg.Text()[..n]);
            r.Parsed? && r.request.state != RequestIsBad && (r.request.state == Done <==> n >= Needed(msg))
  {
    hide Process, Message.Text, Message.Valid, Message.Headers, SpaceOnlyAfterStartLine;
    var text := msg.Text();
    var front, more := text[..n], text[n..];
    assert front + more == text;
    MessageRoundTrip(msg);
    MessageUnambiguous(msg);
    ProcessExtends(FRESH, front, more);
    var r := Process(FRESH, front);
    if Final(r.request) {
      FinalReturns(r.request, r.rest + more);
      DoneIsLate(msg, n);
    }
    if n >= Needed(msg) { DoneInTime(msg, n); }
  }

  lemma FinalReturns(q: Request, buf: string)
    requires Final(q)
    ensures Process(q, buf) == Parsed(q, buf)
  {
    FinalTurn(q, buf);
  }

  lemma DoneIsLate(msg: Message, n: nat)
    requires msg.Valid() && n <= |msg.Text()|
    requires var r := Process(FRESH, msg.Text()[..n]);
             r.Parsed? && r.request == msg.Parsed() && r.rest + msg.Text()[n..] == msg.body
    ensures n >= Needed(msg)
  {
    hide Process, Message.Text;
    var r := Process(FRESH, msg.Text()[..n]);
    if "content-length" in msg.Headers() {
      DoneHasItsBody(FRESH, msg.Text()[..n]);
      StoiToDecimal(|msg.body|);
      assert |r.rest| >= |msg.body|;
    }
  }

  lemma DoneInTime(msg: Message, n: nat)
    requires msg.Valid() && Needed(msg) <= n <= |msg.Text()|
    ensures var r := Process(FRESH, msg.Text()[..n]); r.Parsed? && r.request.state == Done
  {
    hide Process;
    var text := msg.Text();
    if "content-length" in msg.Headers() {
      assert text[..n] == text;
      MessageRoundTrip(msg);
    } else {
      var k := n - (|text| - |msg.body|);
      var short := msg.(body := msg.body[..k]);
      var head := msg.Method() + " " + msg.Target() + " HTTP/1.1" + CRLF + (FieldsText(msg.fields) + CRLF);
      assert text == head + msg.body && short.Text() == head + msg.body[..k];
      assert text[..n] == short.Text();
      MessageRoundTrip(short);
    }
  }
}
