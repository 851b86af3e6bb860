/** contrib/http/http_utils.cc: the lexical layer of the request parser. */
module HttpUtils {
  import opened Bytes

  // ---------------------------------------------------------------- strip

  /** isspace in the C locale. */
  predicate IsSpace(c: char)
  {
    c == ' ' || '\t' <= c <= '\r'
  }

  predicate Blank(s: string)
  {
    forall i | 0 <= i < |s| :: IsSpace(s[i])
  }

  /** Non-empty, with no space at either end. */
  predicate Trimmed(s: string)
  {
    s != "" && !IsSpace(s[0]) && !IsSpace(s[|s| - 1])
  }

  function TrimLeft(s: string): (r: string)
    ensures |r| <= |s| && r == s[|s| - |r|..] && Blank(s[..|s| - |r|])
    ensures r != "" ==> !IsSpace(r[0])
  {
    if s != "" && IsSpace(s[0]) then
      var r := TrimLeft(s[1..]);
      assert s[..|s| - |r|] == [s[0]] + s[1..][..|s| - 1 - |r|];
      r
    else s
  }

  function TrimRight(s: string): (r: string)
    ensures r <= s && Blank(s[|r|..])
    ensures r != "" ==> !IsSpace(r[|r| - 1])
  {
    if s != "" && IsSpace(s[|s| - 1]) then
      var r := TrimRight(s[..|s| - 1]);
      assert s[|r|..] == s[..|s| - 1][|r|..] + [s[|s| - 1]];
      r
    else s
  }

  function Trim(s: string): string
  {
    TrimRight(TrimLeft(s))
  }

  /** Trim is the only trimmed middle left between two runs of blanks. */
  lemma TrimIs(a: string, r: string, b: string)
    requires Blank(a) && Trimmed(r) && Blank(b)
    ensures Trim(a + r + b) == r
  {
    hide TrimLeft, TrimRight, Blank;
    assert a + r + b == a + (r + b);
    assert (r + b)[0] == r[0];
    TrimLeftIs(a, r + b);
    TrimRightIs(r, b);
  }

  lemma {:induction false} TrimLeftIs(a: string, t: string)
    requires Blank(a) && t != "" && !IsSpace(t[0])
    ensures TrimLeft(a + t) == t
  {
    if a == "" {
      assert a + t == t;
    } else {
      assert (a + t)[1..] == a[1..] + t;
      TrimLeftIs(a[1..], t);
    }
  }

  lemma {:induction false} TrimRightIs(t: string, b: string)
    requires Blank(b) && t != "" && !IsSpace(t[|t| - 1])
    ensures TrimRight(t + b) == t
  {
    if b == "" {
      assert t + b == t;
    } else {
      var n := |b| - 1;
      assert (t + b)[..|t + b| - 1] == t + b[..n];
      assert (t + b)[|t + b| - 1] == b[n];
      TrimRightIs(t, b[..n]);
    }
  }

  /** Lines 3-7. On a blank view the loops run past both ends, which is undefined: None. */
  method Strip(sv: string) returns (r: Option<string>)
    ensures r.None? <==> Blank(sv)
    ensures r.Some? ==> Trimmed(r.value) && r.value == Trim(sv)
  {
    var front, back := 0, |sv|;
    while front < back && IsSpace(sv[front])
      invariant 0 <= front <= back == |sv|
      invariant Blank(sv[..front])
    {
      front := front + 1;
    }
    if front == back {
      assert sv[..front] == sv;
      return None;
    }
    while IsSpace(sv[back - 1])
      invariant front < back <= |sv|
      invariant Blank(sv[back..])
      invariant !IsSpace(sv[front])
      decreases back
    {
      assert sv[back - 1..] == [sv[back - 1]] + sv[back..];
      back := back - 1;
    }
    assert sv == sv[..front] + sv[front..back] + sv[back..];
    TrimIs(sv[..front], sv[front..back], sv[back..]);
    r := Some(sv[front..back]);
  }

  // ---------------------------------------------------------------- tolower

  function LowerByte(c: char): (r: char)
    ensures LowerByteFixed(c) ==> r == c
  {
    if 'A' <= c <= 'Z' then (c as int + 32) as char else c
  }

  predicate LowerByteFixed(c: char)
  {
    !('A' <= c <= 'Z')
  }

  function Lower(s: string): string
  {
    seq(|s|, i requires 0 <= i < |s| => LowerByte(s[i]))
  }

  const UPPER := "ABCDEFGHIJKLMNOPQRSTUVWXYZ"
  const LOWER := "abcdefghijklmnopqrstuvwxyz"

  /** Each letter goes to its own small one, everything else stays. */
  lemma LowerLetters(c: char)
    ensures forall i | 0 <= i < 26 :: c == UPPER[i] ==> LowerByte(c) == LOWER[i]
    ensures c !in UPPER ==> LowerByte(c) == c
  {
    assert forall i | 0 <= i < 26 :: UPPER[i] as int == 'A' as int + i && LOWER[i] as int == 'a' as int + i;
    if 'A' <= c <= 'Z' { assert UPPER[c as int - 'A' as int] == c; }
  }

  /** Lower case is a fixed point. */
  lemma LowerTwice(s: string)
    ensures Lower(Lower(s)) == Lower(s)
    ensures (forall i | 0 <= i < |s| :: LowerByteFixed(s[i])) ==> Lower(s) == s
  {
    forall c: char ensures LowerByteFixed(LowerByte(c)) {
      if 'A' <= c <= 'Z' {
        assert LowerByte(c) as int == c as int + 32;
      }
    }
  }

  method ToLower(s: string) returns (r: string)
    ensures r == Lower(s)
  {
    r := s;
    for i := 0 to |s|
      invariant |r| == |s|
      invariant forall k :: 0 <= k < i ==> r[k] == LowerByte(s[k])
      invariant forall k :: i <= k < |s| ==> r[k] == s[k]
    {
      r := r[i := LowerByte(r[i])];
    }
  }

  // ---------------------------------------------------------------- IsToken

  const PUNCTUATION := "!#$%&'*+-.^_`|~"

  /** The tchars of section 5.6.2 of RFC 9110 and, because line 13 iterates over a string literal
      with its terminator, NUL. */
  predicate IsTchar(c: char)
  {
    c in PUNCTUATION || c == '\0' || 'a' <= c <= 'z' || 'A' <= c <= 'Z' || '0' <= c <= '9'
  }

  const DELIMITERS := "\"(),/:;<=>?@[\\]{}"

  /** The other reading section 5.6.2 of RFC 9110 gives: any visible character except the delimiters. */
  lemma TcharsAreVisible(c: char)
    requires c as int < 256
    ensures IsTchar(c) <==> c == '\0' || (0x21 <= c as int <= 0x7e && c !in DELIMITERS)
  {
    InPunctuation(c);
    InDelimiters(c);
    hide PUNCTUATION, DELIMITERS;
  }

  lemma InPunctuation(c: char)
    ensures c in PUNCTUATION <==>
            || c == '!' || '#' <= c <= '\'' || '*' <= c <= '+' || '-' <= c <= '.'
            || '^' <= c <= '`' || c == '|' || c == '~'
  {
  }

  lemma InDelimiters(c: char)
    ensures c in DELIMITERS <==>
            || c == '"' || '(' <= c <= ')' || c == ',' || c == '/' || ':' <= c <= '@'
            || '[' <= c <= ']' || c == '{' || c == '}'
  {
  }

  /** Lines 11-26. */
  method GetTcharBitset() returns (table: array<bool>)
    ensures fresh(table) && table.Length == 128
    ensures forall c: char | c as int < 128 :: table[c as int] <==> IsTchar(c)
  {
    table := new bool[128](_ => false);
    var literal := PUNCTUATION + "\0";
    for i := 0 to |literal|
      invariant forall k | 0 <= k < 128 :: table[k] <==> k as char in literal[..i]
    {
      table[literal[i] as int] := true;
      assert literal[..i + 1] == literal[..i] + [literal[i]];
    }
    assert literal[..|literal|] == literal;
    for c := 'a' as int to 'z' as int + 1
      invariant forall k | 0 <= k < 128 :: table[k] <==> k as char in literal || 'a' as int <= k < c
    {
      table[c] := true;
    }
    for c := 'A' as int to 'Z' as int + 1
      invariant forall k | 0 <= k < 128 ::
        table[k] <==> k as char in literal || 'a' <= k as char <= 'z' || 'A' as int <= k < c
    {
      table[c] := true;
    }
    for c := '0' as int to '9' as int + 1
      invariant forall k | 0 <= k < 128 ::
        table[k] <==> k as char in literal || 'a' <= k as char <= 'z' || 'A' <= k as char <= 'Z' || '0' as int <= k < c
    {
      table[c] := true;
    }
    forall c: char | c as int < 128 ensures table[c as int] <==> IsTchar(c) {
      var k := c as int;
      assert k as char == c;
    }
  }

  /** OutOfTable is line 30 indexing a 128-bit set with a byte of 128 or more: undefined. */
  datatype TokenCheck = Token | NotToken | OutOfTable

  function CheckToken(s: string): (r: TokenCheck)
    ensures r == Token <==> forall i | 0 <= i < |s| :: IsTchar(s[i])
    ensures r == OutOfTable <==> exists i | 0 <= i < |s| ::
              s[i] as int >= 128 && forall k | 0 <= k < i :: IsTchar(s[k])
  {
    if s == "" then Token
    else if s[0] as int >= 128 then OutOfTable
    else if !IsTchar(s[0]) then NotToken
    else
      var r := CheckToken(s[1..]);
      assert forall i | 0 < i < |s| :: s[i] == s[1..][i - 1];
      assert forall i | 0 <= i < |s[1..]| :: s[1..][i] == s[i + 1];
      r
  }

  method IsToken(sv: string) returns (r: TokenCheck)
    ensures r == CheckToken(sv)
  {
    var tchars := GetTcharBitset();
    for i := 0 to |sv|
      invariant CheckToken(sv) == CheckToken(sv[i..])
    {
      if sv[i] as int >= 128 { return OutOfTable; }
      if !tchars[sv[i] as int] { return NotToken; }
      assert sv[i..][1..] == sv[i + 1..];
    }
    r := Token;
  }

  // ---------------------------------------------------------------- percent-encoding

  /** Lines 35-43; -1 for a byte that is not a hexadecimal digit. */
  function HexVal(c: char): (v: int)
    ensures -1 <= v < 16
  {
    var ch := LowerByte(c);
    if '0' <= ch <= '9' then ch as int - '0' as int
    else if 'a' <= ch <= 'f' then ch as int - 'a' as int + 10
    else -1
  }

  /** Lines 45-66. Line 51 allows an escape that the view cuts after one digit, and line 53 then
      reads the byte `after` the view. */
  function Decode(e: string, after: char): Option<string>
  {
    if e == "" then Some("")
    else if e[0] != '%' then
      Glue([e[0]], Decode(e[1..], after))
    else if |e| < 2 then None
    else
      var h := HexVal(e[1]);
      var l := HexVal(if |e| > 2 then e[2] else after);
      if h < 0 || l < 0 then None
      else
        Glue([(h * 16 + l) as char], if |e| > 2 then Decode(e[3..], after) else Some(""))
  }

  function Glue(front: string, rest: Option<string>): Option<string>
  {
    if rest.None? then None else Some(front + rest.value)
  }

  method ParsePercentEncoding(encoded: string, after: char) returns (r: Option<string>)
    ensures r == Decode(encoded, after)
  {
    var decoded := "";
    var i := 0;
    assert encoded[0..] == encoded;
    GlueAssociates("", "", Decode(encoded, after));
    while i < |encoded|
      invariant 0 <= i
      invariant i <= |encoded| ==> Decode(encoded, after) == Glue(decoded, Decode(encoded[i..], after))
      invariant i > |encoded| ==> Decode(encoded, after) == Some(decoded)
    {
      var ch := encoded[i];
      ghost var e := encoded[i..];
      if ch == '%' {
        if |encoded| >= i + 2 {
          var h := HexVal(encoded[i + 1]);
          var l := HexVal(if i + 2 < |encoded| then encoded[i + 2] else after);
          if h < 0 || l < 0 { return None; }
          ch := (h * 16 + l) as char;
          i := i + 3;
          if i <= |encoded| { assert e[3..] == encoded[i..]; }
        } else {
          return None;
        }
      } else {
        i := i + 1;
        assert e[1..] == encoded[i..];
      }
      GlueAssociates(decoded, [ch], if i <= |encoded| then Decode(encoded[i..], after) else Some(""));
      decoded := decoded + [ch];
    }
    GlueAssociates(decoded, "", Some(""));
    r := Some(decoded);
  }

  lemma GlueAssociates(a: string, b: string, rest: Option<string>)
    ensures Glue(a, Glue(b, rest)) == Glue(a + b, rest)
    ensures Glue("", rest) == rest
    ensures Glue(a, Some("")) == Some(a) && Glue(a + b, Some("")) == Some(a + b)
  {
    if rest.Some? { assert a + (b + rest.value) == a + b + rest.value; assert "" + rest.value == rest.value; }
    assert a + "" == a && a + b + "" == a + b;
  }

  /** Section 2.1 of RFC 3986: every '%' starts a complete triplet. */
  predicate WellFormed(e: string)
  {
    if e == "" then true
    else if e[0] != '%' then WellFormed(e[1..])
    else |e| >= 3 && HexVal(e[1]) >= 0 && HexVal(e[2]) >= 0 && WellFormed(e[3..])
  }

  /** Well formed up to a last escape that lacks its second digit. */
  predicate CutAfterOneDigit(e: string)
  {
    if e == "" then false
    else if e[0] != '%' then CutAfterOneDigit(e[1..])
    else if |e| == 2 then HexVal(e[1]) >= 0
    else |e| >= 3 && HexVal(e[1]) >= 0 && HexVal(e[2]) >= 0 && CutAfterOneDigit(e[3..])
  }

  /** Decoding accepts the well-formed strings of the RFC and, exactly when the byte past the view
      happens to be a digit, also the ones cut after one digit. */
  lemma {:induction false} DecodeAccepts(e: string, after: char)
    ensures Decode(e, after).Some? <==> WellFormed(e) || (CutAfterOneDigit(e) && HexVal(after) >= 0)
  {
    if e != "" {
      if e[0] != '%' {
        DecodeAccepts(e[1..], after);
      } else if |e| >= 3 {
        DecodeAccepts(e[3..], after);
      }
    }
  }

  /** A concrete view on which the missing bound shows: "%4" is accepted when '1' follows it. */
  lemma DecodeReadsPastTheView()
    ensures !WellFormed("%4") && Decode("%4", '1') == Some("A") && Decode("%4", '&') == None
  {
    var e := "%4";
    assert |e| == 2 && e[0] == '%' && e[1] == '4';
    assert HexVal('4') == 4 && HexVal('1') == 1 && HexVal('&') == -1;
    GlueAssociates("A", "", Some(""));
  }

  /** On well-formed input the byte past the view is never looked at. */
  lemma {:induction false} DecodeIgnoresAfter(e: string, a: char, b: char)
    requires WellFormed(e)
    ensures Decode(e, a) == Decode(e, b)
  {
    if e != "" {
      if e[0] != '%' { DecodeIgnoresAfter(e[1..], a, b); } else { DecodeIgnoresAfter(e[3..], a, b); }
    }
  }

  /** `c` is the hexadecimal digit of value `v`, in either case. */
  predicate IsHexDigit(c: char, v: int)
  {
    0 <= v < 16 && (c == "0123456789ABCDEF"[v] || c == "0123456789abcdef"[v])
  }

  lemma HexValExactly(c: char)
    ensures forall v | 0 <= v < 16 :: HexVal(c) == v <==> IsHexDigit(c, v)
  {
    if 'A' <= c <= 'F' { assert LowerByte(c) as int == c as int + 32; }
    if 'G' <= c <= 'Z' { assert LowerByte(c) as int == c as int + 32; }
    assert forall v | 0 <= v < 10 :: "0123456789ABCDEF"[v] as int == "0123456789abcdef"[v] as int == '0' as int + v;
    assert forall v | 10 <= v < 16 :: "0123456789ABCDEF"[v] as int == 'A' as int + v - 10;
    assert forall v | 10 <= v < 16 :: "0123456789abcdef"[v] as int == 'a' as int + v - 10;
  }

  /** `e` is an encoding of `s` by section 2.1 of RFC 3986: each byte as itself, or as a triplet. */
  predicate Encodes(e: string, s: string)
  {
    if e == "" then s == ""
    else if s == "" then false
    else if e[0] != '%' then e[0] == s[0] && Encodes(e[1..], s[1..])
    else IsTriplet(e, s[0]) && Encodes(e[3..], s[1..])
  }

  /** `e` starts with one byte and then the two digits of `b`. */
  predicate IsTriplet(e: string, b: char)
  {
    |e| >= 3 && b as int < 256 && IsHexDigit(e[1], b as int / 16) && IsHexDigit(e[2], b as int % 16)
  }

  /** Decoding inverts every encoding, whichever bytes are escaped and in whichever case, and yields
      nothing else. */
  lemma {:induction false} DecodeExactly(e: string, s: string, after: char)
    requires WellFormed(e)
    ensures Decode(e, after) == Some(s) <==> Encodes(e, s)
  {
    if e != "" {
      hide Decode, WellFormed;
      var c, k := DecodeHead(e, after);
      if s != "" {
        DecodeExactly(e[k..], s[1..], after);
        hide Encodes;
        GlueOne(c, Decode(e[k..], after), s);
      }
    }
  }

  lemma GlueOne(c: char, rest: Option<string>, s: string)
    requires s != ""
    ensures Glue([c], rest) == Some(s) <==> c == s[0] && rest == Some(s[1..])
  {
    if rest.Some? {
      assert ([c] + rest.value)[0] == c && ([c] + rest.value)[1..] == rest.value;
      assert s == [s[0]] + s[1..];
    }
  }

  /** The first byte of a decoded string, and how much encodes it. */
  lemma DecodeHead(e: string, after: char) returns (c: char, k: nat)
    requires WellFormed(e) && e != ""
    ensures k == (if e[0] == '%' then 3 else 1) && k <= |e| && WellFormed(e[k..])
    ensures Decode(e, after) == Glue([c], Decode(e[k..], after))
    ensures e[0] != '%' ==> c == e[0]
    ensures e[0] == '%' ==>
              forall b: char :: IsTriplet(e, b) <==> b == c
    ensures Decode(e, after) != Some("")
  {
    if e[0] != '%' {
      c, k := e[0], 1;
    } else {
      HexValExactly(e[1]);
      HexValExactly(e[2]);
      hide HexVal, IsHexDigit;
      c, k := (HexVal(e[1]) * 16 + HexVal(e[2])) as char, 3;
      assert c as int / 16 == HexVal(e[1]) && c as int % 16 == HexVal(e[2]);
    }
  }

  predicate IsOctets(s: string)
  {
    forall i | 0 <= i < |s| :: s[i] as int < 256
  }

  predicate Unreserved(c: char)
  {
    'a' <= c <= 'z' || 'A' <= c <= 'Z' || '0' <= c <= '9' || c in "-._~"
  }

  function HexChar(v: int): (c: char)
    requires 0 <= v < 16
    ensures HexVal(c) == v && Unreserved(c)
  {
    "0123456789ABCDEF"[v]
  }

  function EncodeByte(c: char): (e: string)
    requires c as int < 256
    ensures forall i | 0 <= i < |e| :: Unreserved(e[i]) || e[i] == '%'
  {
    if Unreserved(c) then [c] else ['%', HexChar(c as int / 16), HexChar(c as int % 16)]
  }

  /** Percent-encoding as a client writes it (section 2.1 of RFC 3986). */
  function Encode(s: string): (e: string)
    requires IsOctets(s)
    ensures forall i | 0 <= i < |e| :: Unreserved(e[i]) || e[i] == '%'
  {
    if s == "" then "" else EncodeByte(s[0]) + Encode(s[1..])
  }

  /** One encoded byte in front of a well-formed rest. */
  lemma DecodeEncodeByte(c: char, rest: string, after: char)
    requires c as int < 256 && WellFormed(rest)
    ensures WellFormed(EncodeByte(c) + rest)
    ensures Decode(EncodeByte(c) + rest, after) == Glue([c], Decode(rest, after))
  {
    var e := EncodeByte(c) + rest;
    if Unreserved(c) {
      assert e[1..] == rest;
    } else {
      assert e[3..] == rest;
      if |e| == 3 { assert rest == ""; }
    }
  }

  /** decode(encode(s)) = s, whatever byte follows the view. */
  lemma {:induction false} DecodeEncode(s: string, after: char)
    requires IsOctets(s)
    ensures WellFormed(Encode(s)) && Decode(Encode(s), after) == Some(s)
  {
    if s != "" {
      DecodeEncode(s[1..], after);
      DecodeEncodeByte(s[0], Encode(s[1..]), after);
      assert s == [s[0]] + s[1..];
    }
  }

  // ---------------------------------------------------------------- decimal numbers

  predicate IsDigit(c: char)
  {
    '0' <= c <= '9'
  }

  predicate AllDigits(s: string)
  {
    forall i | 0 <= i < |s| :: IsDigit(s[i])
  }

  /** std::to_string of a size. */
  function ToDecimal(n: nat): (s: string)
    ensures s != "" && AllDigits(s)
  {
    if n < 10 then ["0123456789"[n]] else ToDecimal(n / 10) + ["0123456789"[n % 10]]
  }

  /** The digits at the front of `s`, read onto `acc`. */
  function DigitsValue(s: string, acc: nat): nat
  {
    if s == "" || !IsDigit(s[0]) then acc
    else DigitsValue(s[1..], acc * 10 + (s[0] as int - '0' as int))
  }

  /** std::stoi: leading blanks, a sign, digits, and anything after them. None is an exception:
      no digits, or a value outside a 32-bit int. */
  function Stoi(s: string): Option<int>
  {
    Signed(TrimLeft(s))
  }

  function Signed(t: string): Option<int>
  {
    var negative := t != "" && t[0] == '-';
    var d := if t != "" && (t[0] == '-' || t[0] == '+') then t[1..] else t;
    if d == "" || !IsDigit(d[0]) then None
    else
      var magnitude: int := DigitsValue(d, 0);
      var v := if negative then -magnitude else magnitude;
      if -0x8000_0000 <= v < 0x8000_0000 then Some(v) else None
  }

  lemma {:induction false} DigitsValueAppend(s: string, c: char, acc: nat)
    requires IsDigit(c) && AllDigits(s)
    ensures DigitsValue(s + [c], acc) == DigitsValue(s, acc) * 10 + (c as int - '0' as int)
  {
    if s == "" {
      assert s + [c] == [c];
    } else {
      assert (s + [c])[1..] == s[1..] + [c];
      DigitsValueAppend(s[1..], c, acc * 10 + (s[0] as int - '0' as int));
    }
  }

  lemma {:induction false} DigitsValueToDecimal(n: nat)
    ensures DigitsValue(ToDecimal(n), 0) == n
  {
    if n >= 10 {
      DigitsValueToDecimal(n / 10);
      DigitsValueAppend(ToDecimal(n / 10), "0123456789"[n % 10], 0);
    }
  }

  /** A length survives to_string and stoi exactly when it fits an int. */
  lemma StoiToDecimal(n: nat)
    ensures Stoi(ToDecimal(n)) == if n < 0x8000_0000 then Some(n) else None
  {
    DigitsValueToDecimal(n);
    assert IsDigit(ToDecimal(n)[0]);
  }

  lemma {:induction false} DigitsStop(s: string, rest: string, acc: nat)
    requires AllDigits(s) && (rest == "" || !IsDigit(rest[0]))
    ensures DigitsValue(s + rest, acc) == DigitsValue(s, acc)
  {
    if s == "" {
      assert s + rest == rest;
    } else {
      assert (s + rest)[1..] == s[1..] + rest;
      DigitsStop(s[1..], rest, acc * 10 + (s[0] as int - '0' as int));
    }
  }

  /** A number is read behind blanks and a sign, up to the first byte that is no digit; out of the range
      of an int it throws. */
  lemma StoiReads(left: string, sign: string, n: nat, rest: string)
    requires Blank(left) && (sign == "" || sign == "+" || sign == "-") && (rest == "" || !IsDigit(rest[0]))
    ensures var v: int := if sign == "-" then 0 - n else n;
            Stoi(left + (sign + (ToDecimal(n) + rest))) == if -0x8000_0000 <= v < 0x8000_0000 then Some(v) else None
  {
    var d := ToDecimal(n) + rest;
    var t := sign + d;
    assert d[0] == ToDecimal(n)[0] && IsDigit(d[0]);
    assert t[0] == if sign == "" then d[0] else sign[0];
    TrimLeftIs(left, t);
    DigitsStop(ToDecimal(n), rest, 0);
    DigitsValueToDecimal(n);
    hide ToDecimal, DigitsValue, TrimLeft, Blank, AllDigits, Signed;
    SignedReads(sign, d, n);
  }

  lemma SignedReads(sign: string, d: string, n: nat)
    requires (sign == "" || sign == "+" || sign == "-") && d != "" && IsDigit(d[0]) && DigitsValue(d, 0) == n
    ensures var v: int := if sign == "-" then 0 - n else n;
            Signed(sign + d) == if -0x8000_0000 <= v < 0x8000_0000 then Some(v) else None
  {
    hide DigitsValue;
    var t := sign + d;
    assert t[|sign|..] == d;
    if sign == "" { assert t == d; } else { assert t[0] == sign[0]; }
  }

  /** Without a digit behind the blanks and the sign it throws. */
  lemma StoiThrows(left: string, sign: string, rest: string)
    requires Blank(left) && (sign == "+" || sign == "-") && (rest == "" || !IsDigit(rest[0]))
    ensures Stoi(left + (sign + rest)) == None
  {
    assert (sign + rest)[0] == sign[0] && (sign + rest)[1..] == rest;
    TrimLeftIs(left, sign + rest);
  }
}
