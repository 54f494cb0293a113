/** Issuing the writer's calls in the order of a tree. */
module JsonDocument {
  import opened Json
  import opened JsonRoundTrip
  import opened JsonWriter

  /** What a program hands to the writer */
  datatype Doc = Nothing | Flag(b: bool) | Whole(v: int) | Real(d: Double, prec: int) | Text(s: string)
    | List(docs: seq<Doc>) | Record(fields: seq<Field>)

  datatype Field = Field(key: string, doc: Doc)

  /** The JSON value it stands for: a double that is not finite is null */
  function Meaning(d: Doc): Value
  {
    match d
    case Nothing => Null
    case Flag(b) => Bool(b)
    case Whole(v) => Num(IntNumber(v))
    case Real(NonFinite, _) => Null
    case Real(Finite(digits), prec) => Num(Trimmed(digits(Precision(prec))))
    case Text(s) => Str(s)
    case List(ds) => Arr(Meanings(ds))
    case Record(fs) => Obj(MeaningsOf(fs))
  }

  function Meanings(ds: seq<Doc>): (r: seq<Value>)
    ensures |r| == |ds|
  {
    if ds == [] then [] else [Meaning(ds[0])] + Meanings(ds[1..])
  }

  function MeaningsOf(fs: seq<Field>): (r: seq<Member>)
    ensures |r| == |fs|
  {
    if fs == [] then [] else [Member(fs[0].key, Meaning(fs[0].doc))] + MeaningsOf(fs[1..])
  }

  /** Elements and members in the order given */
  lemma {:induction false} MeaningsAre(ds: seq<Doc>, i: nat)
    requires i < |ds|
    ensures Meanings(ds)[i] == Meaning(ds[i])
  {
    hide Meaning;
    if i > 0 { MeaningsAre(ds[1..], i - 1); }
  }

  lemma {:induction false} MembersAre(fs: seq<Field>, i: nat)
    requires i < |fs|
    ensures MeaningsOf(fs)[i] == Member(fs[i].key, Meaning(fs[i].doc))
  {
    hide Meaning;
    if i > 0 { MembersAre(fs[1..], i - 1); }
  }

  ghost predicate Writable(d: Doc)
  {
    match d
    case Real(x, _) => Printable(x)
    case List(ds) => forall i :: 0 <= i < |ds| ==> Writable(ds[i])
    case Record(fs) => forall i :: 0 <= i < |fs| ==> Writable(fs[i].doc)
    case _ => true
  }

  lemma {:induction false} MeaningProper(d: Doc)
    requires Writable(d)
    ensures Proper(Meaning(d))
    decreases d, 0
  {
    match d
    case Whole(v) => IntWorth(v);
    case Real(x, prec) => if x.Finite? { TrimmedProper(x.digits(Precision(prec))); }
    case List(ds) => MeaningsProper(ds);
    case Record(fs) => MeaningsOfProper(fs);
    case _ =>
  }

  lemma {:induction false} MeaningsProper(ds: seq<Doc>)
    requires forall i :: 0 <= i < |ds| ==> Writable(ds[i])
    ensures forall i :: 0 <= i < |ds| ==> Proper(Meanings(ds)[i])
    decreases ds, 1
  {
    hide Meaning, Writable, Proper;
    if ds != [] {
      MeaningProper(ds[0]);
      MeaningsProper(ds[1..]);
    }
  }

  lemma {:induction false} MeaningsOfProper(fs: seq<Field>)
    requires forall i :: 0 <= i < |fs| ==> Writable(fs[i].doc)
    ensures forall i :: 0 <= i < |fs| ==> Proper(MeaningsOf(fs)[i].value)
    decreases fs, 1
  {
    hide Meaning, Writable, Proper;
    if fs != [] {
      MeaningProper(fs[0].doc);
      MeaningsOfProper(fs[1..]);
    }
  }

  lemma RealText(x: Double, prec: int, depth: nat, step: nat)
    requires Printable(x)
    ensures NumText(x, prec) == Render(Meaning(Real(x, prec)), depth, step)
  {
    hide Trim, Trimmed, NumberText;
    if x.Finite? { TrimIs(x.digits(Precision(prec))); }
  }

  /** One value, wherever the writer stands */
  method Write(w: Writer, d: Doc)
    requires w.Valid() && Writable(d)
    modifies w
    ensures w.Valid() && w.needSep && !w.afterKey && w.inArr == old(w.inArr)
    ensures w.out == old(w.out) + old(w.Before()) + Render(Meaning(d), |w.inArr|, w.step)
    decreases d, 0
  {
    hide Line, Quoted, NumText, NumberText, Lead, Printable, Items, Members, Meanings, MeaningsOf;
    match d
    case Nothing => w.ValNull();
    case Flag(b) => w.ValBool(b);
    case Whole(v) => w.ValInt(v);
    case Real(x, prec) =>
      RealText(x, prec, |w.inArr|, w.step);
      w.ValDouble(x, prec);
    case Text(s) => w.ValString(s);
    case List(ds) =>
      w.ArrOpen();
      WriteItems(w, ds);
      w.ArrClose();
    case Record(fs) =>
      w.ObjOpen();
      WriteFields(w, fs);
      w.ObjClose();
  }

  lemma NoItems(comma: bool, depth: nat, step: nat)
    ensures Items(Meanings([]), comma, depth, step) == ""
  {}

  lemma ListText(ds: seq<Doc>, comma: bool, depth: nat, step: nat)
    requires ds != []
    ensures Items(Meanings(ds), comma, depth, step) ==
      (Comma(comma) + Line(depth, step)) + Render(Meaning(ds[0]), depth, step)
          + Items(Meanings(ds[1..]), true, depth, step)
  {
    hide Line, Render, Meaning;
    assert Meanings(ds)[1..] == Meanings(ds[1..]);
  }

  method WriteItems(w: Writer, ds: seq<Doc>)
    requires w.Valid() && !w.afterKey && w.inArr != [] && forall i :: 0 <= i < |ds| ==> Writable(ds[i])
    modifies w
    ensures w.Valid() && !w.afterKey && w.inArr == old(w.inArr)
    ensures w.out == old(w.out) + Items(Meanings(ds), old(w.needSep), |w.inArr|, w.step)
    decreases ds, 1
  {
    hide Line, Render, Writable, Lead, Items, Meanings, Meaning, Comma;
    if ds == [] {
      NoItems(w.needSep, |w.inArr|, w.step);
    } else {
      ItemLead(|w.inArr|, w.needSep, w.step);
      ListText(ds, w.needSep, |w.inArr|, w.step);
      Write(w, ds[0]);
      WriteItems(w, ds[1..]);
    }
  }

  lemma NoFields(comma: bool, depth: nat, step: nat)
    ensures Members(MeaningsOf([]), comma, depth, step) == ""
  {}

  lemma FieldsText(fs: seq<Field>, comma: bool, depth: nat, step: nat)
    requires fs != []
    ensures Members(MeaningsOf(fs), comma, depth, step) ==
      (Comma(comma) + Line(depth, step)) + Quoted(fs[0].key) + ": " + Render(Meaning(fs[0].doc), depth, step)
      + Members(MeaningsOf(fs[1..]), true, depth, step)
  {
    hide Line, Render, Quoted, Meaning;
    assert MeaningsOf(fs)[1..] == MeaningsOf(fs[1..]);
  }

  method WriteFields(w: Writer, fs: seq<Field>)
    requires w.Valid() && !w.afterKey && w.inArr != [] && forall i :: 0 <= i < |fs| ==> Writable(fs[i].doc)
    modifies w
    ensures w.Valid() && !w.afterKey && w.inArr == old(w.inArr)
    ensures w.out == old(w.out) + Members(MeaningsOf(fs), old(w.needSep), |w.inArr|, w.step)
    decreases fs, 1
  {
    hide Line, Render, Writable, Lead, Quoted, Members, MeaningsOf, Meaning, Comma;
    if fs == [] {
      NoFields(w.needSep, |w.inArr|, w.step);
    } else {
      KeyLead(|w.inArr|, w.needSep, w.step);
      FieldsText(fs, w.needSep, |w.inArr|, w.step);
      w.Key(fs[0].key);
      Write(w, fs[0].doc);
      WriteFields(w, fs[1..]);
    }
  }

  /** The whole document, with the newline write_file adds, reads back as the
      value it stands for. */
  method Document(d: Doc, step: nat) returns (text: string)
    requires Writable(d)
    ensures ParseText(text + "\n") == Ok(Meaning(d), "")
    ensures ParseText(text) == Ok(Meaning(d), "")
  {
    hide Render, ParseText, Proper;
    var w := new Writer(step);
    Write(w, d);
    text := w.out;
    MeaningProper(d);
    DocumentBack(Meaning(d), step, "\n");
    DocumentBack(Meaning(d), step, "");
    assert text == Render(Meaning(d), 0, step);
    assert text + "" == text;
  }
}
