/** A JSON reader after sections 2 to 7 of RFC 8259. It accepts JSON texts only; escapes of surrogates are refused. */
module Json {
  import opened Text

  datatype Json =
    | Null
    | Bool(b: bool)
    | Number(lexeme: string)
    | Str(s: string)
    | Array(items: seq<Json>)
    | Object(members: seq<(string, Json)>)

  datatype Parsed<+T> = Bad | Got(value: T, rest: string)

  predicate IsWs(c: char) {
    c == ' ' || c == '\t' || c == '\n' || c == '\r'
  }

  function SkipWs(s: string): (r: string)
    ensures |r| <= |s|
  {
    if s != [] && IsWs(s[0]) then SkipWs(s[1..]) else s
  }

  // ---------------------------------------------------------------------------------------------
  // Strings.

  function SimpleEscape(c: char): string {
    if c == '"' || c == '\\' || c == '/' then [c]
    else if c == 'b' then [8 as char]
    else if c == 'f' then [12 as char]
    else if c == 'n' then "\n"
    else if c == 'r' then "\r"
    else if c == 't' then "\t"
    else ""
  }

  /** A code unit that is a character by itself. */
  predicate IsCharacter(n: nat) {
    n < 0xD800 || 0xE000 <= n < 0x1_0000
  }

  predicate HexEscape(s: string) {
    |s| >= 6 && s[1] == 'u' && IsHexDigit(s[2]) && IsHexDigit(s[3]) && IsHexDigit(s[4]) && IsHexDigit(s[5])
    && IsCharacter(FromDigits(s[2..6], 16))
  }

  function Prepend(c: string, p: Parsed<string>): Parsed<string> {
    if p.Bad? then Bad else Got(c + p.value, p.rest)
  }

  /** The characters of a string after its opening quotation mark, up to and over the closing one. */
  function ParseChars(s: string): (p: Parsed<string>)
    ensures p.Got? ==> |p.rest| < |s|
  {
    if s == [] then Bad
    else if s[0] == '"' then Got("", s[1..])
    else if s[0] == '\\' then
      if HexEscape(s) then Prepend([FromDigits(s[2..6], 16) as char], ParseChars(s[6..]))
      else if |s| < 2 || SimpleEscape(s[1]) == "" then Bad
      else Prepend(SimpleEscape(s[1]), ParseChars(s[2..]))
    else if Plain(s[0]) then Prepend([s[0]], ParseChars(s[1..]))
    else Bad
  }

  // ---------------------------------------------------------------------------------------------
  // Numbers.

  /** The length of the run of digits a text starts with. */
  function DigitRun(s: string): (n: nat)
    ensures n <= |s| && AllDigits(s[..n])
  {
    if s == [] || !IsDigit(s[0]) then 0 else 1 + DigitRun(s[1..])
  }

  /** Length of the integer part: a zero, or digits that do not start with zero; 0 if there is none. */
  function IntLength(s: string): (n: nat)
    ensures n <= |s|
  {
    if s == [] || !IsDigit(s[0]) then 0 else if s[0] == '0' then 1 else DigitRun(s)
  }

  /** Length of an optional fraction; -1 for a point without digits. */
  function FracLength(s: string): (n: int)
    ensures -1 <= n <= |s|
  {
    if s == [] || s[0] != '.' then 0
    else if DigitRun(s[1..]) == 0 then -1 else 1 + DigitRun(s[1..])
  }

  function ExpLength(s: string): (n: int)
    ensures -1 <= n <= |s|
  {
    if s == [] || (s[0] != 'e' && s[0] != 'E') then 0
    else
      var sign := if |s| >= 2 && (s[1] == '+' || s[1] == '-') then 2 else 1;
      if DigitRun(s[sign..]) == 0 then -1 else sign + DigitRun(s[sign..])
  }

  function ParseNumber(s: string): (p: Parsed<Json>)
    ensures p.Got? ==> |p.rest| < |s|
  {
    var minus := if s != [] && s[0] == '-' then 1 else 0;
    var whole := IntLength(s[minus..]);
    if whole == 0 then Bad
    else
      var s1 := s[minus + whole..];
      var frac := FracLength(s1);
      if frac < 0 then Bad
      else
        var exp := ExpLength(s1[frac..]);
        if exp < 0 then Bad
        else
          var n := minus + whole + frac + exp;
          Got(Number(s[..n]), s[n..])
  }

  // ---------------------------------------------------------------------------------------------
  // Values.

  function ParseLiteral(s: string, word: string, v: Json): (p: Parsed<Json>)
    requires word != []
    ensures p.Got? ==> |p.rest| < |s|
  {
    if word <= s then Got(v, s[|word|..]) else Bad
  }

  /** A value that starts at the first character. */
  function ParseValue(s: string): (p: Parsed<Json>)
    ensures p.Got? ==> |p.rest| < |s|
    decreases |s|, 2
  {
    if s == [] then Bad
    else if s[0] == '{' then
      var t := SkipWs(s[1..]);
      if t != [] && t[0] == '}' then Got(Object([]), t[1..])
      else match ParseMembers(t) case Bad => Bad case Got(ms, rest) => Got(Object(ms), rest)
    else if s[0] == '[' then
      var t := SkipWs(s[1..]);
      if t != [] && t[0] == ']' then Got(Array([]), t[1..])
      else match ParseItems(t) case Bad => Bad case Got(vs, rest) => Got(Array(vs), rest)
    else if s[0] == '"' then
      match ParseChars(s[1..]) case Bad => Bad case Got(t, rest) => Got(Str(t), rest)
    else if s[0] == 't' then ParseLiteral(s, "true", Bool(true))
    else if s[0] == 'f' then ParseLiteral(s, "false", Bool(false))
    else if s[0] == 'n' then ParseLiteral(s, "null", Null)
    else ParseNumber(s)
  }

  /** A name, a colon and a value. */
  function ParsePair(s: string): (p: Parsed<(string, Json)>)
    ensures p.Got? ==> |p.rest| < |s|
    decreases |s|, 3
  {
    if s == [] || s[0] != '"' then Bad
    else match ParseChars(s[1..])
      case Bad => Bad
      case Got(key, r1) =>
        var r2 := SkipWs(r1);
        if r2 == [] || r2[0] != ':' then Bad
        else match ParseValue(SkipWs(r2[1..]))
          case Bad => Bad
          case Got(v, r3) => Got((key, v), r3)
  }

  function ParseMembers(s: string): (p: Parsed<seq<(string, Json)>>)
    ensures p.Got? ==> |p.rest| < |s|
    decreases |s|, 4
  {
    match ParsePair(s)
    case Bad => Bad
    case Got(pair, r1) =>
      var r2 := SkipWs(r1);
      if r2 == [] then Bad
      else if r2[0] == '}' then Got([pair], r2[1..])
      else if r2[0] != ',' then Bad
      else match ParseMembers(SkipWs(r2[1..]))
        case Bad => Bad
        case Got(ms, rest) => Got([pair] + ms, rest)
  }

  function ParseItems(s: string): (p: Parsed<seq<Json>>)
    ensures p.Got? ==> |p.rest| < |s|
    decreases |s|, 4
  {
    match ParseValue(s)
    case Bad => Bad
    case Got(v, r1) =>
      var r2 := SkipWs(r1);
      if r2 == [] then Bad
      else if r2[0] == ']' then Got([v], r2[1..])
      else if r2[0] != ',' then Bad
      else match ParseItems(SkipWs(r2[1..]))
        case Bad => Bad
        case Got(vs, rest) => Got([v] + vs, rest)
  }

  /** A JSON text: one value with white space around it. */
  function ParseText(s: string): Parsed<Json> {
    match ParseValue(SkipWs(s))
    case Bad => Bad
    case Got(v, rest) => if SkipWs(rest) == "" then Got(v, "") else Bad
  }

  // ---------------------------------------------------------------------------------------------
  // Reading back what a writer puts together.

  predicate AllWs(s: string) {
    forall i :: 0 <= i < |s| ==> IsWs(s[i])
  }

  predicate NoLeadingWs(s: string) {
    s == [] || !IsWs(s[0])
  }

  lemma {:induction false} SkipOver(ws: string, rest: string)
    requires AllWs(ws) && NoLeadingWs(rest)
    ensures SkipWs(ws + rest) == rest
  {
    if ws == [] {
      assert ws + rest == rest;
    } else {
      SkipOver(ws[1..], rest);
      assert (ws + rest)[1..] == ws[1..] + rest;
    }
  }

  lemma {:induction false} PlainString(t: string, rest: string)
    requires AllPlain(t)
    ensures ParseChars(t + ("\"" + rest)) == Got(t, rest)
  {
    var s := t + ("\"" + rest);
    if t == [] {
      assert s == "\"" + rest && s[1..] == rest;
    } else {
      PlainString(t[1..], rest);
      assert s[0] == t[0] && s[1..] == t[1..] + ("\"" + rest);
      assert [t[0]] + t[1..] == t;
    }
  }

  /** A quoted plain string, as a value. */
  lemma StringValue(t: string, rest: string)
    requires AllPlain(t)
    ensures ParseValue("\"" + (t + ("\"" + rest))) == Got(Str(t), rest)
  {
    var s := "\"" + (t + ("\"" + rest));
    assert s[0] == '"' && s[1..] == t + ("\"" + rest);
    PlainString(t, rest);
  }

  /** A name written with its colon and a space, before a value. */
  lemma NamedValue(key: string, text: string, v: Json, rest: string)
    requires AllPlain(key) && NoLeadingWs(text) && ParseValue(text) == Got(v, rest)
    ensures ParsePair("\"" + (key + ("\": " + text))) == Got((key, v), rest)
  {
    var s := "\"" + (key + ("\": " + text));
    assert "\": " + text == "\"" + (": " + text);
    assert s[0] == '"' && s[1..] == key + ("\"" + (": " + text));
    PlainString(key, ": " + text);
    var r := ": " + text;
    assert r[0] == ':' && r[1..] == " " + text;
    SkipOver(" ", text);
  }

  lemma {:induction false} DigitRunOver(d: string, rest: string)
    requires AllDigits(d) && (rest == [] || !IsDigit(rest[0]))
    ensures DigitRun(d + rest) == |d|
  {
    if d == [] {
      assert d + rest == rest;
    } else {
      DigitRunOver(d[1..], rest);
      assert (d + rest)[1..] == d[1..] + rest;
    }
  }

  /** What may follow a number without becoming part of it. */
  predicate EndsNumber(rest: string) {
    rest != [] && (rest[0] == ',' || rest[0] == '\n' || rest[0] == '}')
  }

  lemma IntLengthOver(n: nat, rest: string)
    requires EndsNumber(rest)
    ensures IntLength(Dec(n) + rest) == |Dec(n)|
  {
    DecDigits(n);
    DigitRunOver(Dec(n), rest);
    assert (Dec(n) + rest)[0] == Dec(n)[0];
  }

  lemma SignedParts(n: int, rest: string)
    ensures var minus := if n < 0 then 1 else 0;
      var s := Signed(n) + rest;
      && (s[0] == '-' <==> n < 0) && |Signed(n)| == minus + |Dec(if n < 0 then -n else n)|
      && s[minus..] == Dec(if n < 0 then -n else n) + rest
  {
    var d := if n < 0 then -n else n;
    DecDigits(d);
    assert IsDigit(Dec(d)[0]);
    if n < 0 {
      assert Signed(n) + rest == "-" + (Dec(d) + rest);
    }
  }

  /** A decimal integer, as a value. */
  lemma NumberValue(n: int, rest: string)
    requires EndsNumber(rest)
    ensures ParseValue(Signed(n) + rest) == Got(Number(Signed(n)), rest)
  {
    var s := Signed(n) + rest;
    var d := if n < 0 then -n else n;
    SignedParts(n, rest);
    IntLengthOver(d, rest);
    assert s[|Signed(n)|..] == rest && s[..|Signed(n)|] == Signed(n);
    DecDigits(d);
    assert IsDigit(Dec(d)[0]);
    assert s[0] == '-' || IsDigit(s[0]);
    assert rest[0..] == rest;
  }

  lemma LastMember(text: string, pair: (string, Json), r1: string, ws: string, rest: string)
    requires ParsePair(text) == Got(pair, r1) && r1 == ws + ("}" + rest) && AllWs(ws)
    ensures ParseMembers(text) == Got([pair], rest)
  {
    SkipOver(ws, "}" + rest);
    assert ("}" + rest)[1..] == rest;
  }

  lemma NextMember(text: string, pair: (string, Json), ws: string, more: string, ms: seq<(string, Json)>, rest: string)
    requires ParsePair(text) == Got(pair, "," + (ws + more)) && AllWs(ws) && NoLeadingWs(more)
    requires ParseMembers(more) == Got(ms, rest)
    ensures ParseMembers(text) == Got([pair] + ms, rest)
  {
    var r1 := "," + (ws + more);
    SkipOver("", r1);
    assert "" + r1 == r1 && r1[0] == ',' && r1[1..] == ws + more;
    SkipOver(ws, more);
  }

  lemma ObjectValue(ws: string, text: string, ms: seq<(string, Json)>, rest: string)
    requires AllWs(ws) && NoLeadingWs(text) && text != [] && text[0] != '}' && ParseMembers(text) == Got(ms, rest)
    ensures ParseValue("{" + (ws + text)) == Got(Object(ms), rest)
  {
    var s := "{" + (ws + text);
    assert s[0] == '{' && s[1..] == ws + text;
    SkipOver(ws, text);
  }

  lemma LastItem(text: string, v: Json, ws: string, rest: string)
    requires ParseValue(text) == Got(v, ws + ("]" + rest)) && AllWs(ws)
    ensures ParseItems(text) == Got([v], rest)
  {
    SkipOver(ws, "]" + rest);
    assert ("]" + rest)[1..] == rest;
  }

  lemma NextItem(text: string, v: Json, ws: string, more: string, vs: seq<Json>, rest: string)
    requires ParseValue(text) == Got(v, "," + (ws + more)) && AllWs(ws) && NoLeadingWs(more)
    requires ParseItems(more) == Got(vs, rest)
    ensures ParseItems(text) == Got([v] + vs, rest)
  {
    var r1 := "," + (ws + more);
    SkipOver("", r1);
    assert "" + r1 == r1 && r1[0] == ',' && r1[1..] == ws + more;
    SkipOver(ws, more);
  }

  lemma ArrayText(ws: string, text: string, vs: seq<Json>, tail: string)
    requires AllWs(ws) && AllWs(tail) && NoLeadingWs(text) && text != [] && text[0] != ']' && ParseItems(text) == Got(vs, tail)
    ensures ParseText("[" + (ws + text)) == Got(Array(vs), "")
  {
    var s := "[" + (ws + text);
    assert s[0] == '[' && s[1..] == ws + text;
    SkipOver(ws, text);
    SkipOver("", s);
    assert "" + s == s;
    SkipOver(tail, "");
    assert tail + "" == tail;
  }
}
