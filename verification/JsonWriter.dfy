/** The writer: its separator and nesting state, and the text it accumulates. */
module JsonWriter {
  import opened Json
  import opened JsonRoundTrip

  // ---- strings -----------------------------------------------------------------------

  lemma {:induction false} EscapeNext(s: string, c: char)
    ensures Escape(s + [c]) == Escape(s) + EscapeChar(c)
  {
    hide EscapeChar;
    if s == "" {
      assert ([c])[1..] == "" && s + [c] == [c];
    } else {
      assert (s + [c])[1..] == s[1..] + [c];
      EscapeNext(s[1..], c);
    }
  }

  /** escape */
  method EscapeText(s: string) returns (o: string)
    ensures o == Escape(s)
  {
    hide Escape, HexDigit;
    o := "";
    EscapeNone();
    for i := 0 to |s|
      invariant o == Escape(s[..i])
    {
      var c := s[i];
      assert s[..i + 1] == s[..i] + [c];
      EscapeNext(s[..i], c);
      match c
      case '"' => o := o + "\\\"";
      case '\\' => o := o + "\\\\";
      case '\n' => o := o + "\\n";
      case '\r' => o := o + "\\r";
      case '\t' => o := o + "\\t";
      case _ =>
        if c as nat < 0x20 {
          o := o + "\\u00" + [HexDigit(c as nat / 16), HexDigit(c as nat % 16)];
        } else {
          o := o + [c];
        }
    }
    assert s[..|s|] == s;
  }

  lemma EscapeNone()
    ensures Escape("") == ""
  {}

  // ---- numbers -------------------------------------------------------------------------

  /** A double, by the digits printf gives it at each precision */
  datatype Double = NonFinite | Finite(digits: nat -> Number)

  ghost predicate Printable(d: Double)
  {
    d.Finite? ==> forall p :: ProperNumber(d.digits(p)) && |d.digits(p).frac| == p
  }

  function Precision(prec: int): nat { if prec < 0 then 0 else if prec > 12 then 12 else prec }

  /** find_last_not_of('0') */
  function LastNonzero(s: string): (k: nat)
    requires exists i :: 0 <= i < |s| && s[i] != '0'
    ensures k < |s| && s[k] != '0' && forall i :: k < i < |s| ==> s[i] == '0'
  {
    if s[|s| - 1] != '0' then |s| - 1 else LastNonzero(s[..|s| - 1])
  }

  /** Trailing zeros dropped, but a digit left after the point */
  function Trim(s: string): string
  {
    if '.' in s then
      var last := LastNonzero(s);
      var keep := if s[last] == '.' then last + 1 else last;
      if keep + 1 < |s| then s[..keep + 1] else s
    else s
  }

  /** num */
  function NumText(d: Double, prec: int): string
  {
    match d
    case NonFinite => "null"
    case Finite(digits) => Trim(NumberText(digits(Precision(prec))))
  }

  /** The shortest fraction of the same value that is not empty */
  function TrimFrac(f: string): (r: string)
    ensures r <= f && (f != "" ==> r != "")
    ensures |r| > 1 ==> r[|r| - 1] != '0'
    ensures forall i :: |r| <= i < |f| ==> f[i] == '0'
  {
    if |f| > 1 && f[|f| - 1] == '0' then TrimFrac(f[..|f| - 1]) else f
  }

  function Trimmed(n: Number): Number { n.(frac := TrimFrac(n.frac)) }

  lemma TrimmedProper(n: Number)
    requires ProperNumber(n)
    ensures ProperNumber(Trimmed(n))
  {}

  function Head(n: Number): string { (if n.neg then "-" else "") + n.whole }

  lemma NoPoint(n: Number)
    requires Digits(n.whole)
    ensures '.' !in Head(n)
  {
    var h := Head(n);
    forall i | 0 <= i < |h| ensures h[i] != '.' {
      if n.neg && i > 0 { assert h[i] == n.whole[i - 1]; }
    }
  }

  /** Trimming the text trims the fraction and nothing else. */
  lemma TrimIs(n: Number)
    requires ProperNumber(n)
    ensures Trim(NumberText(n)) == NumberText(Trimmed(n))
  {
    hide TrimFrac;
    var s, head := NumberText(n), Head(n);
    if n.frac == "" {
      NoPoint(n);
      assert s == head;
      assert TrimFrac("") == "";
    } else {
      TrimPoint(head, n.frac);
      assert s == head + "." + n.frac;
      assert NumberText(Trimmed(n)) == head + "." + TrimFrac(n.frac);
    }
  }

  lemma TrimAt(s: string, k: nat, last: nat)
    requires '.' in s && last == LastNonzero(s) && k == (if s[last] == '.' then last + 1 else last) + 1 <= |s|
    ensures Trim(s) == s[..k]
  {
    hide LastNonzero;
    assert s[..|s|] == s;
  }

  lemma TakeInto(a: string, b: string, k: nat)
    requires k <= |b|
    ensures (a + b)[..|a| + k] == a + b[..k]
  {}

  lemma TrimPoint(head: string, f: string)
    requires f != "" && Digits(f)
    ensures Trim(head + "." + f) == head + "." + TrimFrac(f)
  {
    hide LastNonzero, TrimFrac, Trim, Digits;
    var a, r := head + ".", TrimFrac(f);
    var s := a + f;
    assert s[|head|] == '.' != '0';
    var last := LastNonzero(s);
    LastInFrac(s, f, |a|, last);
    TrimAt(s, |a| + |r|, last);
    TakeInto(a, f, |r|);
    assert f[..|r|] == r;
  }

  lemma LastInFrac(s: string, f: string, at: nat, last: nat)
    requires f != "" && Digits(f) && |s| == at + |f| && at > 0 && s[at - 1] == '.'
    requires forall i :: 0 <= i < |f| ==> s[at + i] == f[i]
    requires last < |s| && s[last] != '0' && forall i :: last < i < |s| ==> s[i] == '0'
    ensures last >= at - 1
    ensures at + |TrimFrac(f)| == (if s[last] == '.' then last + 1 else last) + 1
  {
    hide TrimFrac;
    var r := TrimFrac(f);
    assert forall j :: at <= j < |s| ==> s[j] == f[j - at];
    if |r| == 1 && r[0] == '0' {
      assert forall i :: 0 <= i < |f| ==> f[i] == '0';
      assert last == at - 1;
    } else {
      assert s[at + |r| - 1] == f[|r| - 1] != '0';
      assert last == at + |r| - 1;
    }
  }

  // ---- what the digits are worth -----------------------------------------------------------

  function DigitValue(c: char): nat { if Digit(c) then c as nat - '0' as nat else 0 }

  function WholeValue(s: string): nat { if s == "" then 0 else 10 * WholeValue(s[..|s| - 1]) + DigitValue(s[|s| - 1]) }

  function Pow10(n: nat): (r: real)
    ensures r > 0.0
  {
    if n == 0 then 1.0 else 10.0 * Pow10(n - 1)
  }

  /** 0.f */
  function FracValue(f: string): real
  {
    if f == "" then 0.0 else FracValue(f[..|f| - 1]) + DigitValue(f[|f| - 1]) as real / Pow10(|f|)
  }

  function Worth(n: Number): real
  {
    var m := WholeValue(n.whole) as real + FracValue(n.frac);
    if n.neg then -m else m
  }

  lemma {:induction false} TrimFracWorth(f: string)
    ensures FracValue(TrimFrac(f)) == FracValue(f)
  {
    if |f| > 1 && f[|f| - 1] == '0' {
      TrimFracWorth(f[..|f| - 1]);
      assert 0.0 / Pow10(|f|) == 0.0;
    }
  }

  /** The number written is the one printed. */
  lemma TrimKeepsWorth(n: Number)
    ensures Worth(Trimmed(n)) == Worth(n)
  {
    TrimFracWorth(n.frac);
  }

  function NatText(n: nat): (s: string)
    ensures s != "" && Digits(s) && (s[0] == '0' ==> |s| == 1) && (n > 0 ==> s[0] != '0')
  {
    if n < 10 then [Numeral(n)] else NatText(n / 10) + [Numeral(n % 10)]
  }

  function Numeral(n: nat): (c: char)
    requires n < 10
    ensures Digit(c) && DigitValue(c) == n && (c == '0' <==> n == 0)
  {
    "0123456789"[n]
  }

  function IntNumber(v: int): Number { Number(v < 0, NatText(if v < 0 then -v else v), "", "") }

  lemma {:induction false} NatTextWorth(n: nat)
    ensures WholeValue(NatText(n)) == n
  {
    hide Numeral;
    if n < 10 {
      assert NatText(n) == [Numeral(n)] && NatText(n)[..0] == "";
    } else {
      NatTextWorth(n / 10);
      assert NatText(n)[..|NatText(n)| - 1] == NatText(n / 10);
    }
  }

  lemma IntWorth(v: int)
    ensures ProperNumber(IntNumber(v)) && Worth(IntNumber(v)) == v as real
  {
    NatTextWorth(if v < 0 then -v else v);
  }

  // ---- the state machine --------------------------------------------------------------------

  /** What sep puts before a value or a key */
  function Lead(depth: nat, needSep: bool, afterKey: bool, step: nat): string
  {
    if afterKey then "" else Comma(needSep) + if depth > 0 then Line(depth, step) else ""
  }

  lemma SpacesNext(i: nat, step: nat)
    ensures Spaces(i * step) + Spaces(step) == Spaces((i + 1) * step)
  {
    assert (i + 1) * step == i * step + step;
  }

  class Writer {
    var out: string
    var inArr: seq<bool>
    var needSep: bool
    var afterKey: bool
    const step: nat

    constructor (step: nat)
      ensures this.step == step && Valid() && out == "" && inArr == [] && !needSep && !afterKey
    {
      this.step := step;
      out, inArr, needSep, afterKey := "", [], false, false;
    }

    /** A key has been separated from what came before it. */
    ghost predicate Valid()
      reads this
    {
      afterKey ==> needSep
    }

    ghost function Before(): string
      reads this
    {
      Lead(|inArr|, needSep, afterKey, step)
    }

    method Indent()
      modifies this`out
      ensures out == old(out) + "\n" + Spaces(|inArr| * step) == old(out) + Line(|inArr|, step)
    {
      out := out + "\n";
      for i := 0 to |inArr|
        invariant out == old(out) + "\n" + Spaces(i * step)
      {
        SpacesNext(i, step);
        out := out + Spaces(step);
      }
    }

    /** sep */
    method Sep()
      requires Valid()
      modifies this`out, this`needSep, this`afterKey
      ensures Valid() && needSep && !afterKey && out == old(out) + old(Before())
    {
      hide Line;
      if afterKey {
        afterKey := false;
        return;
      }
      if needSep { out := out + ","; }
      if |inArr| > 0 { Indent(); }
      needSep := true;
    }

    method Open(list: bool, bracket: string)
      requires Valid()
      modifies this
      ensures Valid() && !needSep && !afterKey && inArr == old(inArr) + [list]
      ensures out == old(out) + old(Before()) + bracket
    {
      Sep();
      out := out + bracket;
      inArr := inArr + [list];
      needSep := false;
    }

    method Close(bracket: string)
      requires Valid() && inArr != [] && !afterKey
      modifies this
      ensures Valid() && needSep && !afterKey && inArr == old(inArr)[..|old(inArr)| - 1]
      ensures out == old(out) + Line(|inArr|, step) + bracket
    {
      inArr := inArr[..|inArr| - 1];
      Indent();
      out := out + bracket;
      needSep := true;
    }

    method ObjOpen()
      requires Valid()
      modifies this
      ensures Valid() && !needSep && !afterKey && inArr == old(inArr) + [false]
      ensures out == old(out) + old(Before()) + "{"
    {
      Open(false, "{");
    }

    method ArrOpen()
      requires Valid()
      modifies this
      ensures Valid() && !needSep && !afterKey && inArr == old(inArr) + [true]
      ensures out == old(out) + old(Before()) + "["
    {
      Open(true, "[");
    }

    method ObjClose()
      requires Valid() && inArr != [] && !afterKey
      modifies this
      ensures Valid() && needSep && !afterKey && inArr == old(inArr)[..|old(inArr)| - 1]
      ensures out == old(out) + Line(|inArr|, step) + "}"
    {
      Close("}");
    }

    method ArrClose()
      requires Valid() && inArr != [] && !afterKey
      modifies this
      ensures Valid() && needSep && !afterKey && inArr == old(inArr)[..|old(inArr)| - 1]
      ensures out == old(out) + Line(|inArr|, step) + "]"
    {
      Close("]");
    }

    method Key(k: string)
      requires Valid()
      modifies this`out, this`needSep, this`afterKey
      ensures Valid() && needSep && afterKey
      ensures out == old(out) + old(Before()) + Quoted(k) + ": "
    {
      hide Lead, Escape;
      Sep();
      var e := EscapeText(k);
      out := out + ("\"" + e + "\"") + ": ";
      afterKey := true;
    }

    /** raw: a text that is already rendered */
    method Raw(r: string)
      requires Valid()
      modifies this`out, this`needSep, this`afterKey
      ensures Valid() && needSep && !afterKey && out == old(out) + old(Before()) + r
    {
      Sep();
      out := out + r;
    }

    method ValString(s: string)
      requires Valid()
      modifies this`out, this`needSep, this`afterKey
      ensures Valid() && needSep && !afterKey && out == old(out) + old(Before()) + Quoted(s)
    {
      hide Lead, Escape;
      var e := EscapeText(s);
      Raw("\"" + e + "\"");
    }

    method ValDouble(d: Double, prec: int)
      requires Valid()
      modifies this`out, this`needSep, this`afterKey
      ensures Valid() && needSep && !afterKey && out == old(out) + old(Before()) + NumText(d, prec)
    {
      Raw(NumText(d, prec));
    }

    method ValInt(v: int)
      requires Valid()
      modifies this`out, this`needSep, this`afterKey
      ensures Valid() && needSep && !afterKey && out == old(out) + old(Before()) + NumberText(IntNumber(v))
    {
      Raw(NumberText(IntNumber(v)));
    }

    method ValBool(b: bool)
      requires Valid()
      modifies this`out, this`needSep, this`afterKey
      ensures Valid() && needSep && !afterKey && out == old(out) + old(Before()) + (if b then "true" else "false")
    {
      Raw(if b then "true" else "false");
    }

    method ValNull()
      requires Valid()
      modifies this`out, this`needSep, this`afterKey
      ensures Valid() && needSep && !afterKey && out == old(out) + old(Before()) + "null"
    {
      Raw("null");
    }

    /** kv_strs */
    method KeyStrings(k: string, v: seq<string>)
      requires Valid() && !afterKey && inArr != []
      modifies this
      ensures Valid() && needSep && !afterKey && inArr == old(inArr)
      ensures out == old(out) + Members([Member(k, Arr(Strings(v)))], old(needSep), |inArr|, step)
    {
      hide Line, Items, Quoted, Members, Lead, Comma, Strings;
      KeyLead(|inArr|, needSep, step);
      Key(k);
      ArrOpen();
      StringItems(v);
      assert inArr[..|inArr| - 1] == old(inArr);
      ArrClose();
      OneMember(k, Strings(v), old(needSep), |inArr|, step);
      assert out == old(out) + (Comma(old(needSep)) + Line(|inArr|, step)) + Quoted(k) + ": " + "[" +
        Items(Strings(v), false, |inArr| + 1, step) + Line(|inArr|, step) + "]";
    }

    /** The loop of kv_strs */
    method StringItems(v: seq<string>)
      requires Valid() && !afterKey && !needSep && inArr != []
      modifies this`out, this`needSep, this`afterKey
      ensures Valid() && !afterKey
      ensures out == old(out) + Items(Strings(v), false, |inArr|, step)
    {
      hide Line, Items, Quoted, Lead, Comma;
      ghost var base := out;
      ItemsNone(false, |inArr|, step);
      for i := 0 to |v|
        invariant Valid() && !afterKey && needSep == (i > 0)
        invariant out == base + Items(Strings(v[..i]), false, |inArr|, step)
      {
        ghost var need := needSep;
        ItemLead(|inArr|, need, step);
        ValString(v[i]);
        assert Strings(v[..i + 1]) == Strings(v[..i]) + [Str(v[i])];
        ItemsNext(Strings(v[..i]), Str(v[i]), false, |inArr|, step);
      }
      assert v[..|v|] == v;
    }
  }

  function Strings(v: seq<string>): (r: seq<Value>)
    ensures |r| == |v|
  {
    seq(|v|, i requires 0 <= i < |v| => Str(v[i]))
  }

  lemma ItemsNone(comma: bool, depth: nat, step: nat)
    ensures Items([], comma, depth, step) == "" && Strings([]) == []
  {}

  lemma KeyLead(depth: nat, need: bool, step: nat)
    requires depth > 0
    ensures Lead(depth, need, false, step) == Comma(need) + Line(depth, step) && Lead(depth, true, true, step) == ""
  {}

  lemma ItemLead(depth: nat, need: bool, step: nat)
    requires depth > 0
    ensures Lead(depth, need, false, step) == Comma(need) + Line(depth, step)
  {}

  lemma {:induction false} ItemsNext(xs: seq<Value>, x: Value, comma: bool, depth: nat, step: nat)
    ensures Items(xs + [x], comma, depth, step) ==
      Items(xs, comma, depth, step) + (Comma(comma || xs != []) + Line(depth, step)) + Render(x, depth, step)
  {
    hide Line, Render;
    if xs == [] {
      assert xs + [x] == [x];
    } else {
      assert (xs + [x])[1..] == xs[1..] + [x];
      ItemsNext(xs[1..], x, true, depth, step);
    }
  }

  lemma OneMember(k: string, xs: seq<Value>, comma: bool, depth: nat, step: nat)
    ensures Members([Member(k, Arr(xs))], comma, depth, step) ==
      Comma(comma) + Line(depth, step) + Quoted(k) + ": " + "[" + Items(xs, false, depth + 1, step)
          + Line(depth, step) + "]"
  {
    hide Line, Quoted, Items;
    var ms := [Member(k, Arr(xs))];
    assert ms[1..] == [];
    assert Members(ms[1..], true, depth, step) == "";
  }

  // ---- what each call writes, spelt out ---------------------------------------------------

  /** The precision asked for is used, between 0 and 12 digits. */
  lemma PrecisionIs(prec: int)
    ensures 0 <= prec <= 12 ==> Precision(prec) == prec
    ensures prec < 0 ==> Precision(prec) == 0
    ensures prec > 12 ==> Precision(prec) == 12
  {}

  /** A double is written at that precision, trailing zeros dropped, or as null. */
  lemma NumTextIs(d: Double, prec: int)
    requires Printable(d)
    ensures d == NonFinite ==> NumText(d, prec) == "null"
    ensures d.Finite? && 0 <= prec <= 12 ==> NumText(d, prec) == NumberText(Trimmed(d.digits(prec)))
    ensures d.Finite? && prec > 12 ==> NumText(d, prec) == NumberText(Trimmed(d.digits(12)))
    ensures d.Finite? && prec < 0 ==> NumText(d, prec) == NumberText(Trimmed(d.digits(0)))
  {
    hide Trim, Trimmed, NumberText;
    if d.Finite? { TrimIs(d.digits(Precision(prec))); }
  }

  /** A minus sign, the whole part, and a point and the fraction if there is one */
  lemma NumberTextIs(w: string, f: string)
    ensures NumberText(Number(false, w, "", "")) == w && NumberText(Number(true, w, "", "")) == "-" + w
    ensures f != "" ==> NumberText(Number(false, w, f, "")) == w + "." + f
    ensures f != "" ==> NumberText(Number(true, w, f, "")) == "-" + w + "." + f
  {}

  /** The escapes, by the character they stand for */
  lemma EscapesAre(c: char)
    ensures EscapeChar('"') == "\\\"" && EscapeChar('\\') == "\\\\"
    ensures EscapeChar('\n') == "\\n" && EscapeChar('\r') == "\\r" && EscapeChar('\t') == "\\t"
    ensures c as nat >= 0x20 && c != '"' && c != '\\' ==> EscapeChar(c) == [c]
    ensures EscapeChar(1 as char) == "\\u0001" && EscapeChar(0x1f as char) == "\\u001f"
  {}
}
