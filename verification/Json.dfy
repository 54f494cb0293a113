/** JSON text: what the writer puts out for a value, and a parser for the grammar
    of sections 2 to 7 of RFC 8259. */
module Json {

  /** A number by its digits: sign, integer part, fraction, and exponent as written */
  datatype Number = Number(neg: bool, whole: string, frac: string, exp: string)

  datatype Value = Null | Bool(b: bool) | Num(n: Number) | Str(s: string)
    | Arr(items: seq<Value>) | Obj(members: seq<Member>)

  datatype Member = Member(key: string, value: Value)

  predicate Digit(c: char) { '0' <= c <= '9' }

  predicate Digits(s: string) { forall i :: 0 <= i < |s| ==> Digit(s[i]) }

  // ---- rendering ---------------------------------------------------------------------

  function HexDigit(n: nat): char
    requires n < 16
  {
    "0123456789abcdef"[n]
  }

  function EscapeChar(c: char): string
  {
    if c == '"' then "\\\""
    else if c == '\\' then "\\\\"
    else if c == '\n' then "\\n"
    else if c == '\r' then "\\r"
    else if c == '\t' then "\\t"
    else if c as nat < 0x20 then "\\u00" + [HexDigit(c as nat / 16), HexDigit(c as nat % 16)]
    else [c]
  }

  function Escape(s: string): string
  {
    if s == "" then "" else EscapeChar(s[0]) + Escape(s[1..])
  }

  function Quoted(s: string): string { "\"" + Escape(s) + "\"" }

  function NumberText(n: Number): string
  {
    (if n.neg then "-" else "") + n.whole + (if n.frac == "" then "" else "." + n.frac) + n.exp
  }

  function Spaces(n: nat): (s: string)
    ensures |s| == n && forall i :: 0 <= i < n ==> s[i] == ' '
  {
    seq(n, _ => ' ')
  }

  /** A new line, indented to a depth */
  function Line(depth: nat, step: nat): string { "\n" + Spaces(depth * step) }

  function Comma(c: bool): string { if c then "," else "" }

  /** The text of a value whose opening bracket is at a depth */
  function Render(v: Value, depth: nat, step: nat): string
  {
    match v
    case Null => "null"
    case Bool(b) => if b then "true" else "false"
    case Num(n) => NumberText(n)
    case Str(s) => Quoted(s)
    case Arr(xs) => "[" + Items(xs, false, depth + 1, step) + Line(depth, step) + "]"
    case Obj(ms) => "{" + Members(ms, false, depth + 1, step) + Line(depth, step) + "}"
  }

  /** Elements, each on its own line, the first after a comma or not */
  function Items(xs: seq<Value>, comma: bool, depth: nat, step: nat): string
  {
    if xs == [] then ""
    else Comma(comma) + Line(depth, step) + Render(xs[0], depth, step) + Items(xs[1..], true, depth, step)
  }

  function Members(ms: seq<Member>, comma: bool, depth: nat, step: nat): string
  {
    if ms == [] then ""
    else
      Comma(comma) + Line(depth, step) + Quoted(ms[0].key) + ": " + Render(ms[0].value, depth, step)
      + Members(ms[1..], true, depth, step)
  }

  // ---- parsing -------------------------------------------------------------------------

  datatype Parsed<T> = Fail | Ok(value: T, rest: string)

  predicate White(c: char) { c == ' ' || c == '\n' || c == '\r' || c == '\t' }

  function SkipWhite(s: string): (r: string)
    ensures |r| <= |s|
    ensures r != "" ==> !White(r[0])
  {
    if s != "" && White(s[0]) then SkipWhite(s[1..]) else s
  }

  /** The value of a hexadecimal digit, 16 if it is none */
  function HexValue(c: char): nat
  {
    if '0' <= c <= '9' then c as nat - '0' as nat
    else if 'a' <= c <= 'f' then c as nat - 'a' as nat + 10
    else if 'A' <= c <= 'F' then c as nat - 'A' as nat + 10
    else 16
  }

  function HexFour(s: string): nat
    requires |s| >= 4
  {
    HexValue(s[0]) * 4096 + HexValue(s[1]) * 256 + HexValue(s[2]) * 16 + HexValue(s[3])
  }

  predicate IsHexFour(s: string)
  {
    |s| >= 4 && HexValue(s[0]) < 16 && HexValue(s[1]) < 16 && HexValue(s[2]) < 16 && HexValue(s[3]) < 16
  }

  /** A code unit that is a character by itself */
  function UnitChar(n: nat): Parsed<char>
  {
    if n < 0xD800 || 0xE000 <= n < 0x1_0000 then Ok(n as char, "") else Fail
  }

  /** What follows a backslash: the character meant, and the rest */
  function ParseEscape(s: string): (p: Parsed<char>)
    ensures p.Ok? ==> |p.rest| < |s|
  {
    if s == "" then Fail
    else if s[0] == '"' || s[0] == '\\' || s[0] == '/' then Ok(s[0], s[1..])
    else if s[0] == 'b' then Ok(8 as char, s[1..])
    else if s[0] == 'f' then Ok(12 as char, s[1..])
    else if s[0] == 'n' then Ok('\n', s[1..])
    else if s[0] == 'r' then Ok('\r', s[1..])
    else if s[0] == 't' then Ok('\t', s[1..])
    else if s[0] == 'u' && IsHexFour(s[1..]) then
      match UnitChar(HexFour(s[1..]))
      case Fail => Fail
      case Ok(c, _) => Ok(c, s[5..])
    else Fail
  }

  /** The rest of a string after its opening quote */
  function ParseString(s: string): (p: Parsed<string>)
    ensures p.Ok? ==> |p.rest| < |s|
    decreases |s|
  {
    if s == "" || s[0] as nat < 0x20 then Fail
    else if s[0] == '"' then Ok("", s[1..])
    else if s[0] == '\\' then
      match ParseEscape(s[1..])
      case Fail => Fail
      case Ok(c, r) => Prepend(c, ParseString(r))
    else Prepend(s[0], ParseString(s[1..]))
  }

  function Prepend(c: char, p: Parsed<string>): Parsed<string>
  {
    match p
    case Fail => Fail
    case Ok(t, r) => Ok([c] + t, r)
  }

  /** How many digits a text begins with */
  function Span(s: string): (n: nat)
    ensures n <= |s| && Digits(s[..n]) && (n < |s| ==> !Digit(s[n]))
  {
    if s != "" && Digit(s[0]) then 1 + Span(s[1..]) else 0
  }

  /** int: a lone zero, or digits that do not begin with one */
  function ParseWhole(s: string): (p: Parsed<string>)
    ensures p.Ok? ==> |p.rest| < |s|
  {
    if s == "" || !Digit(s[0]) then Fail
    else if s[0] == '0' then Ok("0", s[1..])
    else Ok(s[..Span(s)], s[Span(s)..])
  }

  /** frac, if there is one */
  function ParseFrac(s: string): (p: Parsed<string>)
    ensures p.Ok? ==> |p.rest| <= |s|
  {
    if s == "" || s[0] != '.' then Ok("", s)
    else if Span(s[1..]) == 0 then Fail
    else Ok(s[1..][..Span(s[1..])], s[1..][Span(s[1..])..])
  }

  /** exp, if there is one */
  function ParseExp(s: string): (p: Parsed<string>)
    ensures p.Ok? ==> |p.rest| <= |s|
  {
    if s == "" || (s[0] != 'e' && s[0] != 'E') then Ok("", s)
    else
      var k := if |s| > 1 && (s[1] == '+' || s[1] == '-') then 2 else 1;
      var n := Span(s[k..]);
      if n == 0 then Fail else Ok(s[..k + n], s[k + n..])
  }

  function ParseNumber(s: string): (p: Parsed<Number>)
    ensures p.Ok? ==> |p.rest| < |s|
  {
    var neg := s != "" && s[0] == '-';
    match ParseWhole(if neg then s[1..] else s)
    case Fail => Fail
    case Ok(whole, r) =>
      match ParseFrac(r)
      case Fail => Fail
      case Ok(frac, r2) =>
        match ParseExp(r2)
        case Fail => Fail
        case Ok(exp, r3) => Ok(Number(neg, whole, frac, exp), r3)
  }

  function ParseWord(s: string, w: string, v: Value): (p: Parsed<Value>)
    requires w != ""
    ensures p.Ok? ==> |p.rest| < |s|
  {
    if w <= s then Ok(v, s[|w|..]) else Fail
  }

  /** A value, after any white space */
  function ParseValue(s: string): (p: Parsed<Value>)
    ensures p.Ok? ==> |p.rest| < |s|
    decreases |s|, 1
  {
    ParseToken(SkipWhite(s))
  }

  function ParseToken(s: string): (p: Parsed<Value>)
    ensures p.Ok? ==> |p.rest| < |s|
    decreases |s|, 0
  {
    if s == "" then Fail
    else if s[0] == '"' then
      match ParseString(s[1..])
      case Fail => Fail
      case Ok(t, r) => Ok(Str(t), r)
    else if s[0] == '[' then
      var t := SkipWhite(s[1..]);
      if t != "" && t[0] == ']' then Ok(Arr([]), t[1..])
      else
        match ParseItems(s[1..])
        case Fail => Fail
        case Ok(xs, r) => Ok(Arr(xs), r)
    else if s[0] == '{' then
      var t := SkipWhite(s[1..]);
      if t != "" && t[0] == '}' then Ok(Obj([]), t[1..])
      else
        match ParseMembers(s[1..])
        case Fail => Fail
        case Ok(ms, r) => Ok(Obj(ms), r)
    else if s[0] == 'n' then ParseWord(s, "null", Null)
    else if s[0] == 't' then ParseWord(s, "true", Bool(true))
    else if s[0] == 'f' then ParseWord(s, "false", Bool(false))
    else
      match ParseNumber(s)
      case Fail => Fail
      case Ok(n, r) => Ok(Num(n), r)
  }

  /** One or more elements and the closing bracket */
  function ParseItems(s: string): (p: Parsed<seq<Value>>)
    ensures p.Ok? ==> |p.rest| < |s|
    decreases |s|, 2
  {
    match ParseValue(s)
    case Fail => Fail
    case Ok(v, r) =>
      var t := SkipWhite(r);
      if t == "" then Fail
      else if t[0] == ']' then Ok([v], t[1..])
      else if t[0] != ',' then Fail
      else
        match ParseItems(t[1..])
        case Fail => Fail
        case Ok(vs, r2) => Ok([v] + vs, r2)
  }

  /** A name, a colon and a value */
  function ParseMember(s: string): (p: Parsed<Member>)
    ensures p.Ok? ==> |p.rest| < |s|
    decreases |s|, 2
  {
    var t := SkipWhite(s);
    if t == "" || t[0] != '"' then Fail
    else
      match ParseString(t[1..])
      case Fail => Fail
      case Ok(k, r) =>
        var u := SkipWhite(r);
        if u == "" || u[0] != ':' then Fail
        else
          match ParseValue(u[1..])
          case Fail => Fail
          case Ok(v, r2) => Ok(Member(k, v), r2)
  }

  function ParseMembers(s: string): (p: Parsed<seq<Member>>)
    ensures p.Ok? ==> |p.rest| < |s|
    decreases |s|, 3
  {
    match ParseMember(s)
    case Fail => Fail
    case Ok(m, r) =>
      var t := SkipWhite(r);
      if t == "" then Fail
      else if t[0] == '}' then Ok([m], t[1..])
      else if t[0] != ',' then Fail
      else
        match ParseMembers(t[1..])
        case Fail => Fail
        case Ok(ms, r2) => Ok([m] + ms, r2)
  }

  /** A whole document: one value and nothing but white space after it */
  function ParseText(s: string): Parsed<Value>
  {
    match ParseValue(s)
    case Fail => Fail
    case Ok(v, r) => if SkipWhite(r) == "" then Ok(v, "") else Fail
  }
}
