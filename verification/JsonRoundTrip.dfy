/** Reading back what was rendered. */
module JsonRoundTrip {
  import opened Json

  /** As printf and the integer inserter write numbers */
  predicate ProperNumber(n: Number)
  {
    n.whole != "" && Digits(n.whole) && (n.whole[0] == '0' ==> |n.whole| == 1) && Digits(n.frac) && n.exp == ""
  }

  predicate Proper(v: Value)
  {
    match v
    case Num(n) => ProperNumber(n)
    case Arr(xs) => forall i :: 0 <= i < |xs| ==> Proper(xs[i])
    case Obj(ms) => forall i :: 0 <= i < |ms| ==> Proper(ms[i].value)
    case _ => true
  }

  /** Text that cannot continue a number */
  predicate Stops(s: string)
  {
    s == "" || (!Digit(s[0]) && s[0] != '.' && s[0] != 'e' && s[0] != 'E')
  }

  // ---- strings -----------------------------------------------------------------------

  lemma PairBack(e: char, c: char, r: string)
    requires ParseEscape([e] + r) == Ok(c, r)
    ensures ParseString("\\" + [e] + r) == Prepend(c, ParseString(r))
  {
    hide ParseEscape;
    assert ("\\" + [e] + r)[1..] == [e] + r;
  }

  lemma LetterBack(e: char, r: string)
    ensures var p := ParseEscape([e] + r);
      && (e == '"' || e == '\\' ==> p == Ok(e, r)) && (e == 'n' ==> p == Ok('\n', r))
      && (e == 'r' ==> p == Ok('\r', r)) && (e == 't' ==> p == Ok('\t', r))
  {
    assert ([e] + r)[1..] == r;
  }

  lemma PlainBack(c: char, r: string)
    requires c as nat >= 0x20 && c != '"' && c != '\\'
    ensures ParseString([c] + r) == Prepend(c, ParseString(r))
  {
    assert ([c] + r)[1..] == r;
  }

  lemma EscapeBack(c: char, r: string)
    ensures ParseString(EscapeChar(c) + r) == Prepend(c, ParseString(r))
  {
    hide ParseString, ParseEscape;
    if c == '"' || c == '\\' || c == '\n' || c == '\r' || c == '\t' {
      var e := EscapeChar(c)[1];
      assert EscapeChar(c) == "\\" + [e];
      LetterBack(e, r);
      PairBack(e, c, r);
    } else if c as nat < 0x20 {
      ControlBack(c, r);
    } else {
      PlainBack(c, r);
    }
  }

  lemma HexBack(n: nat)
    requires n < 16
    ensures HexValue(HexDigit(n)) == n
  {}

  lemma ControlBack(c: char, r: string)
    requires c as nat < 0x20 && c != '\n' && c != '\r' && c != '\t'
    ensures ParseString(EscapeChar(c) + r) == Prepend(c, ParseString(r))
  {
    hide HexDigit, HexValue;
    var s, n := EscapeChar(c) + r, c as nat;
    HexBack(n / 16); HexBack(n % 16); HexBack(0);
    assert HexDigit(0) == '0' by { HexZero(); }
    var t := s[1..];
    var u := t[1..];
    assert t == "u00" + [HexDigit(n / 16), HexDigit(n % 16)] + r;
    assert u == "00" + [HexDigit(n / 16), HexDigit(n % 16)] + r;
    assert HexFour(u) == n;
    assert t[5..] == r;
    assert ParseEscape(t) == Ok(c, r);
  }

  lemma HexZero()
    ensures HexDigit(0) == '0'
  {}

  /** Whatever a string holds, escaping and reading it give it back. */
  lemma {:induction false} StringBack(s: string, rest: string)
    ensures ParseString(Escape(s) + "\"" + rest) == Ok(s, rest)
  {
    if s == "" {
      assert Escape(s) + "\"" + rest == "\"" + rest;
      assert ("\"" + rest)[1..] == rest;
    } else {
      hide EscapeChar;
      var tail := Escape(s[1..]) + "\"" + rest;
      assert Escape(s) + "\"" + rest == EscapeChar(s[0]) + tail;
      EscapeBack(s[0], tail);
      StringBack(s[1..], rest);
      assert s == [s[0]] + s[1..];
    }
  }

  // ---- numbers -----------------------------------------------------------------------

  lemma {:induction false} SpanIs(d: string, r: string)
    requires Digits(d) && (r == "" || !Digit(r[0]))
    ensures Span(d + r) == |d|
  {
    if d == "" {
      assert d + r == r;
    } else {
      assert (d + r)[1..] == d[1..] + r;
      SpanIs(d[1..], r);
    }
  }

  lemma WholeBack(w: string, r: string)
    requires w != "" && Digits(w) && (w[0] == '0' ==> |w| == 1) && (r == "" || !Digit(r[0]))
    ensures ParseWhole(w + r) == Ok(w, r)
  {
    hide Span;
    SpanIs(w, r);
    assert (w + r)[..|w|] == w && (w + r)[|w|..] == r;
    if w[0] == '0' { assert w == "0"; }
  }

  lemma FracBack(f: string, r: string)
    requires Digits(f) && Stops(r)
    ensures ParseFrac((if f == "" then "" else "." + f) + r) == Ok(f, r)
  {
    hide Span;
    if f == "" {
      assert "" + r == r;
    } else {
      SpanIs(f, r);
      var s := "." + f + r;
      assert s[1..] == f + r;
      assert (f + r)[..|f|] == f && (f + r)[|f|..] == r;
    }
  }

  lemma NumberBack(n: Number, r: string)
    requires ProperNumber(n) && Stops(r)
    ensures ParseNumber(NumberText(n) + r) == Ok(n, r)
  {
    hide ParseWhole, ParseFrac;
    var tail := (if n.frac == "" then "" else "." + n.frac) + r;
    var s := NumberText(n) + r;
    if n.neg {
      assert s[0] == '-' && s[1..] == n.whole + tail;
    } else {
      assert s == n.whole + tail && Digit(s[0]);
    }
    WholeBack(n.whole, tail);
    FracBack(n.frac, r);
  }

  // ---- white space ---------------------------------------------------------------------

  lemma {:induction false} SkipSpaces(n: nat, r: string)
    ensures SkipWhite(Spaces(n) + r) == SkipWhite(r)
  {
    if n == 0 {
      assert Spaces(n) + r == r;
    } else {
      assert (Spaces(n) + r)[1..] == Spaces(n - 1) + r;
      SkipSpaces(n - 1, r);
    }
  }

  lemma SkipLine(depth: nat, step: nat, r: string)
    ensures SkipWhite(Line(depth, step) + r) == SkipWhite(r)
  {
    assert (Line(depth, step) + r)[1..] == Spaces(depth * step) + r;
    SkipSpaces(depth * step, r);
  }

  /** Text that does not begin with white space */
  lemma SkipNothing(s: string)
    requires s != "" && !White(s[0])
    ensures SkipWhite(s) == s
  {}

  lemma RenderStarts(v: Value, depth: nat, step: nat)
    requires Proper(v)
    ensures var s := Render(v, depth, step); s != "" && !White(s[0]) && s[0] != ']' && s[0] != '}'
  {
    if v.Num? { assert NumberText(v.n)[0] == if v.n.neg then '-' else v.n.whole[0]; }
  }

  // ---- values ----------------------------------------------------------------------------

  /** A rendered value is read back, whatever follows it. */
  lemma {:induction false} ValueBack(v: Value, depth: nat, step: nat, rest: string)
    requires Proper(v) && Stops(rest)
    ensures ParseToken(Render(v, depth, step) + rest) == Ok(v, rest)
    decreases v, 0
  {
    hide ParseToken, NumberText, Quoted, ProperNumber, Stops;
    match v
    case Null => NullBack(rest);
    case Bool(b) => WordBack(b, rest);
    case Num(n) => NumBack(n, rest);
    case Str(t) => TextBack(t, rest);
    case Arr(xs) => ArrayBack(xs, depth, step, rest);
    case Obj(ms) => ObjectBack(ms, depth, step, rest);
  }

  lemma NullBack(rest: string)
    ensures ParseToken("null" + rest) == Ok(Null, rest)
  {
    assert ("null" + rest)[4..] == rest;
  }

  lemma TextBack(t: string, rest: string)
    ensures ParseToken(Quoted(t) + rest) == Ok(Str(t), rest)
  {
    hide ParseString, Escape;
    assert (Quoted(t) + rest)[1..] == Escape(t) + "\"" + rest;
    StringBack(t, rest);
  }

  lemma WordBack(b: bool, rest: string)
    ensures ParseToken((if b then "true" else "false") + rest) == Ok(Bool(b), rest)
  {
    if b {
      assert ("true" + rest)[4..] == rest;
    } else {
      assert ("false" + rest)[5..] == rest;
    }
  }

  lemma NumBack(n: Number, rest: string)
    requires ProperNumber(n) && Stops(rest)
    ensures ParseToken(NumberText(n) + rest) == Ok(Num(n), rest)
  {
    hide ParseNumber;
    NumberBack(n, rest);
    var s := NumberText(n) + rest;
    assert s[0] == '-' || Digit(s[0]);
  }

  lemma {:induction false} ArrayBack(xs: seq<Value>, depth: nat, step: nat, rest: string)
    requires forall i :: 0 <= i < |xs| ==> Proper(xs[i])
    ensures ParseToken(Render(Arr(xs), depth, step) + rest) == Ok(Arr(xs), rest)
    decreases xs, 2
  {
    hide SkipWhite, ParseItems, Line, Proper;
    var s := Render(Arr(xs), depth, step) + rest;
    var close := Line(depth, step) + "]" + rest;
    if xs == [] {
      assert s[1..] == Line(depth, step) + ("]" + rest);
      SkipLine(depth, step, "]" + rest);
      SkipNothing("]" + rest);
      assert ("]" + rest)[1..] == rest;
    } else {
      ItemsBack(xs, depth, step, rest);
      assert s[1..] == Items(xs, false, depth + 1, step) + close;
      ItemsStart(xs, depth, step, close);
    }
  }

  /** The first element is not mistaken for the end. */
  lemma ItemsStart(xs: seq<Value>, depth: nat, step: nat, close: string)
    requires xs != [] && Proper(xs[0])
    ensures var t := SkipWhite(Items(xs, false, depth + 1, step) + close); t != "" && t[0] != ']'
  {
    hide SkipWhite, Line, Proper, Render;
    var r := Render(xs[0], depth + 1, step);
    var tail := r + (Items(xs[1..], true, depth + 1, step) + close);
    assert Items(xs, false, depth + 1, step) + close == Line(depth + 1, step) + tail;
    SkipLine(depth + 1, step, tail);
    RenderStarts(xs[0], depth + 1, step);
    SkipNothing(tail);
  }

  lemma ItemsText(xs: seq<Value>, depth: nat, step: nat, close: string)
    requires xs != []
    ensures Items(xs, false, depth, step) + close ==
      Line(depth, step) + (Render(xs[0], depth, step) + (Items(xs[1..], true, depth, step) + close))
    ensures Items(xs, true, depth, step) + close == "," + (Items(xs, false, depth, step) + close)
  {
    var l, r, m := Line(depth, step), Render(xs[0], depth, step), Items(xs[1..], true, depth, step);
    assert Items(xs, false, depth, step) == "" + l + r + m;
    assert Items(xs, true, depth, step) == "," + l + r + m;
    hide *;
    Regroup("", l, r, m, close);
    Regroup(",", l, r, m, close);
  }

  lemma Regroup(c: string, l: string, r: string, m: string, close: string)
    ensures (c + l + r + m) + close == c + (l + (r + (m + close)))
    ensures c == "" ==> (c + l + r + m) + close == l + (r + (m + close))
  {}

  lemma ItemsEnd(s: string, v: Value, more: string, rest: string)
    requires ParseValue(s) == Ok(v, more) && SkipWhite(more) == "]" + rest
    ensures ParseItems(s) == Ok([v], rest)
  {
    hide ParseValue, SkipWhite;
    assert ("]" + rest)[1..] == rest;
  }

  lemma ItemsGoOn(s: string, v: Value, next: string, vs: seq<Value>, rest: string)
    requires ParseValue(s) == Ok(v, "," + next) && ParseItems(next) == Ok(vs, rest)
    ensures ParseItems(s) == Ok([v] + vs, rest)
  {
    hide ParseValue, SkipWhite;
    SkipNothing("," + next);
    assert ("," + next)[1..] == next;
  }

  lemma SkipClose(depth: nat, step: nat, c: char, rest: string)
    requires !White(c)
    ensures SkipWhite(Line(depth, step) + [c] + rest) == [c] + rest
  {
    hide Line;
    assert Line(depth, step) + [c] + rest == Line(depth, step) + ([c] + rest);
    SkipLine(depth, step, [c] + rest);
    SkipNothing([c] + rest);
  }

  /** A value after a line break */
  lemma LineValue(v: Value, depth: nat, step: nat, more: string)
    requires Proper(v) && ParseToken(Render(v, depth, step) + more) == Ok(v, more)
    ensures ParseValue(Line(depth, step) + (Render(v, depth, step) + more)) == Ok(v, more)
  {
    hide Line, Render, Proper, ParseToken, SkipWhite;
    var r := Render(v, depth, step) + more;
    SkipLine(depth, step, r);
    RenderStarts(v, depth, step);
    SkipNothing(r);
  }

  lemma {:induction false} ItemsBack(xs: seq<Value>, depth: nat, step: nat, rest: string)
    requires xs != [] && forall i :: 0 <= i < |xs| ==> Proper(xs[i])
    ensures ParseItems(Items(xs, false, depth + 1, step) + (Line(depth, step) + "]" + rest)) == Ok(xs, rest)
    decreases xs, 1
  {
    hide SkipWhite, Line, Proper, Render, ParseToken, ParseValue, ParseItems;
    var close := Line(depth, step) + "]" + rest;
    var tail := xs[1..];
    var more := Items(tail, true, depth + 1, step) + close;
    var s := Items(xs, false, depth + 1, step) + close;
    ItemsText(xs, depth + 1, step, close);
    MoreStops(tail, depth, step, rest);
    ValueBack(xs[0], depth + 1, step, more);
    LineValue(xs[0], depth + 1, step, more);
    assert xs == [xs[0]] + tail;
    if tail == [] {
      assert more == close;
      SkipClose(depth, step, ']', rest);
      ItemsEnd(s, xs[0], more, rest);
      assert xs == [xs[0]];
    } else {
      ItemsText(tail, depth + 1, step, close);
      ItemsBack(tail, depth, step, rest);
      ItemsGoOn(s, xs[0], Items(tail, false, depth + 1, step) + close, tail, rest);
    }
  }

  lemma MoreStops(xs: seq<Value>, depth: nat, step: nat, rest: string)
    ensures Stops(Items(xs, true, depth + 1, step) + (Line(depth, step) + "]" + rest))
  {
    var close := Line(depth, step) + "]" + rest;
    if xs == [] { assert Items(xs, true, depth + 1, step) + close == close; }
  }

  lemma {:induction false} ObjectBack(ms: seq<Member>, depth: nat, step: nat, rest: string)
    requires forall i :: 0 <= i < |ms| ==> Proper(ms[i].value)
    ensures ParseToken(Render(Obj(ms), depth, step) + rest) == Ok(Obj(ms), rest)
    decreases ms, 2
  {
    hide SkipWhite, ParseMembers, Line, Proper, ParseToken, Members;
    var close := Line(depth, step) + "}" + rest;
    ObjectText(ms, depth, step, rest);
    if ms == [] {
      NoMembers(depth, step, close);
      SkipClose(depth, step, '}', rest);
      EmptyObject(close, rest);
    } else {
      MembersBack(ms, depth, step, rest);
      MembersStart(ms, depth, step, close);
      FullObject(Members(ms, false, depth + 1, step) + close, ms, rest);
    }
  }

  lemma ObjectText(ms: seq<Member>, depth: nat, step: nat, rest: string)
    ensures Render(Obj(ms), depth, step) + rest ==
      "{" + (Members(ms, false, depth + 1, step) + (Line(depth, step) + "}" + rest))
  {
    hide Line, Members;
  }

  lemma NoMembers(depth: nat, step: nat, close: string)
    ensures Members([], false, depth + 1, step) + close == close
  {}

  lemma EmptyObject(s: string, rest: string)
    requires SkipWhite(s) == "}" + rest
    ensures ParseToken("{" + s) == Ok(Obj([]), rest)
  {
    hide SkipWhite;
    assert ("{" + s)[1..] == s && ("}" + rest)[1..] == rest;
  }

  lemma FullObject(s: string, ms: seq<Member>, rest: string)
    requires ParseMembers(s) == Ok(ms, rest) && SkipWhite(s) != "" && SkipWhite(s)[0] != '}'
    ensures ParseToken("{" + s) == Ok(Obj(ms), rest)
  {
    hide SkipWhite, ParseMembers;
    assert ("{" + s)[1..] == s;
  }

  lemma MembersStart(ms: seq<Member>, depth: nat, step: nat, close: string)
    requires ms != []
    ensures var t := SkipWhite(Members(ms, false, depth + 1, step) + close); t != "" && t[0] != '}'
  {
    hide SkipWhite, Line, Render, Quoted, Members;
    var tail := Quoted(ms[0].key) + ": " + Render(ms[0].value, depth + 1, step)
        + (Members(ms[1..], true, depth + 1, step) + close);
    MembersText(ms, depth + 1, step, close);
    SkipLine(depth + 1, step, tail);
    QuotedStarts(ms[0].key);
    SkipNothing(tail);
  }

  lemma QuotedStarts(s: string)
    ensures Quoted(s) != "" && Quoted(s)[0] == '"' && Quoted(s)[1..] == Escape(s) + "\""
  {}

  /** One member: its name, a colon and a blank, its value */
  lemma MemberBack(m: Member, depth: nat, step: nat, more: string)
    requires Proper(m.value)
    requires ParseToken(Render(m.value, depth + 1, step) + more) == Ok(m.value, more)
    ensures ParseMember(Line(depth + 1, step) + (Quoted(m.key) + ": " + Render(m.value, depth + 1, step) + more)) ==
      Ok(m, more)
  {
    hide SkipWhite, Line, Render, Quoted, Proper, ParseToken, ParseString, Escape, ParseMember;
    var v := Render(m.value, depth + 1, step);
    var body := Quoted(m.key) + ": " + v + more;
    SkipLine(depth + 1, step, body);
    NameText(m.key, v, more);
    SkipNothing(body);
    StringBack(m.key, ": " + (v + more));
    RenderStarts(m.value, depth + 1, step);
    MemberParts(Line(depth + 1, step) + body, body, m, v + more, more);
  }

  lemma NameText(k: string, v: string, more: string)
    ensures var body := Quoted(k) + ": " + v + more;
      body != "" && body[0] == '"' && body[1..] == Escape(k) + "\"" + (": " + (v + more))
  {
    hide Escape;
  }

  lemma MemberParts(s: string, body: string, m: Member, r: string, more: string)
    requires SkipWhite(s) == body != "" && body[0] == '"' && ParseString(body[1..]) == Ok(m.key, ": " + r)
    requires r != "" && !White(r[0]) && ParseToken(r) == Ok(m.value, more)
    ensures ParseMember(s) == Ok(m, more)
  {
    hide SkipWhite, ParseString, ParseToken;
    SkipNothing(": " + r);
    assert (": " + r)[1..] == " " + r;
    SkipBlank(r);
    SkipNothing(r);
  }

  lemma SkipBlank(r: string)
    ensures SkipWhite(" " + r) == SkipWhite(r)
  {
    assert (" " + r)[1..] == r;
  }

  lemma MembersText(ms: seq<Member>, depth: nat, step: nat, close: string)
    requires ms != []
    ensures Members(ms, false, depth, step) + close == Line(depth, step) +
      (Quoted(ms[0].key) + ": " + Render(ms[0].value, depth, step) + (Members(ms[1..], true, depth, step) + close))
    ensures Members(ms, true, depth, step) + close == "," + (Members(ms, false, depth, step) + close)
  {
    var l, m := Line(depth, step), Members(ms[1..], true, depth, step);
    var q, v := Quoted(ms[0].key), Render(ms[0].value, depth, step);
    assert Members(ms, false, depth, step) == "" + l + q + ": " + v + m;
    assert Members(ms, true, depth, step) == "," + l + q + ": " + v + m;
    hide *;
    Joined("", l, q, v, m);
    Joined(",", l, q, v, m);
    Regroup("", l, q + ": " + v, m, close);
    Regroup(",", l, q + ": " + v, m, close);
  }

  lemma Joined(c: string, l: string, q: string, v: string, m: string)
    ensures c + l + q + ": " + v + m == c + l + (q + ": " + v) + m
  {}

  lemma MembersEnd(s: string, m: Member, more: string, rest: string)
    requires ParseMember(s) == Ok(m, more) && SkipWhite(more) == "}" + rest
    ensures ParseMembers(s) == Ok([m], rest)
  {
    hide ParseMember, SkipWhite;
    assert ("}" + rest)[1..] == rest;
  }

  lemma MembersGoOn(s: string, m: Member, next: string, ms: seq<Member>, rest: string)
    requires ParseMember(s) == Ok(m, "," + next) && ParseMembers(next) == Ok(ms, rest)
    ensures ParseMembers(s) == Ok([m] + ms, rest)
  {
    hide ParseMember, SkipWhite;
    SkipNothing("," + next);
    assert ("," + next)[1..] == next;
  }

  lemma {:induction false} MembersBack(ms: seq<Member>, depth: nat, step: nat, rest: string)
    requires ms != [] && forall i :: 0 <= i < |ms| ==> Proper(ms[i].value)
    ensures ParseMembers(Members(ms, false, depth + 1, step) + (Line(depth, step) + "}" + rest)) == Ok(ms, rest)
    decreases ms, 1
  {
    hide SkipWhite, Line, Proper, Render, ParseToken, ParseMember, ParseMembers, Quoted;
    var close := Line(depth, step) + "}" + rest;
    var tail := ms[1..];
    var more := Members(tail, true, depth + 1, step) + close;
    var s := Members(ms, false, depth + 1, step) + close;
    MembersText(ms, depth + 1, step, close);
    MoreMembersStop(tail, depth, step, rest);
    ValueBack(ms[0].value, depth + 1, step, more);
    MemberBack(ms[0], depth, step, more);
    assert ms == [ms[0]] + tail;
    if tail == [] {
      assert more == close;
      SkipClose(depth, step, '}', rest);
      MembersEnd(s, ms[0], more, rest);
      assert ms == [ms[0]];
    } else {
      MembersText(tail, depth + 1, step, close);
      MembersBack(tail, depth, step, rest);
      MembersGoOn(s, ms[0], Members(tail, false, depth + 1, step) + close, tail, rest);
    }
  }

  lemma MoreMembersStop(ms: seq<Member>, depth: nat, step: nat, rest: string)
    ensures Stops(Members(ms, true, depth + 1, step) + (Line(depth, step) + "}" + rest))
  {
    var close := Line(depth, step) + "}" + rest;
    if ms == [] { assert Members(ms, true, depth + 1, step) + close == close; }
  }

  /** Every value tree, rendered and followed by a newline, reads back as itself. */
  lemma DocumentBack(v: Value, step: nat, end: string)
    requires Proper(v) && (end == "" || end == "\n")
    ensures ParseText(Render(v, 0, step) + end) == Ok(v, "")
  {
    hide Render, ParseToken, Proper;
    var s := Render(v, 0, step) + end;
    RenderStarts(v, 0, step);
    SkipNothing(s);
    ValueBack(v, 0, step, end);
    if end == "\n" { assert SkipWhite(end) == SkipWhite(end[1..]); }
  }
}
