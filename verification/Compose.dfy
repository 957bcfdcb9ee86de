/** Putting JSON texts together: objects and arrays over the texts of their parts, and when the
    result is one value. */
module Compose {
  import opened Bytes
  import opened Grammar
  import opened Scan
  import opened Strings
  import opened Numbers
  import opened Rfc8259

  function Join(xs: seq<string>): string {
    if |xs| == 0 then "" else if |xs| == 1 then xs[0] else xs[0] + ("," + Join(xs[1..]))
  }

  function Name(k: string): string {
    "\"" + (k + "\":")
  }

  function Member(k: string, v: string): string {
    Name(k) + v
  }

  function Obj(members: seq<string>): string {
    "{" + (Join(members) + "}")
  }

  function Arr(values: seq<string>): string {
    "[" + (Join(values) + "]")
  }

  /** One more part at the end of a list. */
  lemma {:induction false} JoinMore(xs: seq<string>, x: string)
    ensures Join(xs + [x]) == if xs == [] then x else Join(xs) + ("," + x)
  {
    if xs == [] {
      assert xs + [x] == [x];
    } else if |xs| == 1 {
      assert (xs + [x])[1..] == [x];
    } else {
      assert (xs + [x])[1..] == xs[1..] + [x];
      JoinMore(xs[1..], x);
      assert xs[0] + ("," + (Join(xs[1..]) + ("," + x))) == (xs[0] + ("," + Join(xs[1..]))) + ("," + x);
    }
  }

  /** The comma in front of the next part. */
  function Comma(xs: seq<string>): string {
    if xs == [] then "" else ","
  }

  /** Writing the next part behind the ones already there. */
  lemma AppendPart(base: string, xs: seq<string>, x: string)
    ensures ((base + Join(xs)) + Comma(xs)) + x == base + Join(xs + [x])
  {
    hide Join;
    JoinMore(xs, x);
    if xs == [] {
      JoinNothing();
      assert ((base + "") + "") + x == base + x;
    } else {
      assert ((base + Join(xs)) + ",") + x == base + (Join(xs) + ("," + x));
    }
  }

  lemma JoinNothing()
    ensures Join([]) == ""
  {}

  lemma JoinOne(x: string)
    ensures Join([x]) == x
  {}

  lemma JoinThree(a: string, b: string, c: string)
    ensures Join([a, b, c]) == a + ("," + (b + ("," + c)))
  {
    assert [a, b, c][1..] == [b, c];
    assert [b, c][1..] == [c];
    JoinOne(c);
    assert Join([b, c]) == b + ("," + c);
  }

  /** Parts behind another part: each with its comma. */
  function Tail(xs: seq<string>): string {
    if xs == [] then "" else "," + (xs[0] + Tail(xs[1..]))
  }

  lemma TailNothing()
    ensures Tail([]) == ""
  {}

  lemma TailOne(x: string)
    ensures Tail([x]) == "," + x
  {
    assert Tail([]) == "";
    assert "," + (x + "") == "," + x;
  }

  lemma {:induction false} TailAppend(xs: seq<string>, ys: seq<string>)
    ensures Tail(xs + ys) == Tail(xs) + Tail(ys)
  {
    if xs == [] {
      assert [] + ys == ys;
    } else {
      assert (xs + ys)[1..] == xs[1..] + ys;
      TailAppend(xs[1..], ys);
    }
  }

  lemma {:induction false} JoinIsTail(x: string, ys: seq<string>)
    ensures Join([x] + ys) == x + Tail(ys)
    decreases |ys|
  {
    if ys == [] {
      JoinOne(x);
      assert [x] + ys == [x];
    } else {
      JoinIsTail(ys[0], ys[1..]);
      assert [ys[0]] + ys[1..] == ys && ([x] + ys)[1..] == ys;
    }
  }

  /** Members behind the opening ones. */
  lemma JoinAppend(xs: seq<string>, ys: seq<string>)
    requires xs != []
    ensures Join(xs + ys) == Join(xs) + Tail(ys)
  {
    hide Join, Tail;
    JoinIsTail(xs[0], xs[1..] + ys);
    JoinIsTail(xs[0], xs[1..]);
    TailAppend(xs[1..], ys);
    assert [xs[0]] + (xs[1..] + ys) == xs + ys && [xs[0]] + xs[1..] == xs;
  }

  // ---- Trees of composed texts ----

  /** White space in front of a value's text, and the value's tree. */
  datatype Spaced = Spaced(lead: string, t: Tree)

  predicate WFSpaced(v: Spaced) { Blank(v.lead) && WF(v.t) }

  function SpacedText(v: Spaced): string { v.lead + Text(v.t) }

  function KeyedElem(k: string, v: Spaced): Elem {
    Elem("", Key(k, "", v.lead), v.t, "")
  }

  function PlainElem(v: Spaced): Elem {
    Elem(v.lead, NoKey, v.t, "")
  }

  function ItemsFrom(es: seq<Elem>): Items {
    if |es| == 0 then Empty("") else if |es| == 1 then Last(es[0]) else More(es[0], ItemsFrom(es[1..]))
  }

  function Texts(es: seq<Elem>): seq<string> {
    seq(|es|, k requires 0 <= k < |es| => ElemText(es[k]))
  }

  lemma {:induction false} ItemsFromText(es: seq<Elem>)
    ensures ItemsText(ItemsFrom(es)) == Join(Texts(es))
  {
    hide ElemText;
    if |es| > 1 {
      assert Texts(es)[1..] == Texts(es[1..]);
      ItemsFromText(es[1..]);
    }
  }

  lemma {:induction false} ItemsFromWF(es: seq<Elem>, keyed: bool)
    requires forall e | e in es :: WFElem(e, keyed)
    ensures WFItems(ItemsFrom(es), keyed)
  {
    if |es| > 1 {
      ItemsFromWF(es[1..], keyed);
      assert !ItemsFrom(es[1..]).Empty?;
    }
  }

  lemma {:induction false} ItemsFromJson(es: seq<Elem>, keyed: bool)
    requires forall e | e in es :: IsJsonElem(e, keyed)
    ensures IsJsonItems(ItemsFrom(es), keyed)
  {
    if |es| > 1 {
      ItemsFromJson(es[1..], keyed);
      assert !ItemsFrom(es[1..]).Empty?;
    }
  }

  lemma KeyedElemText(k: string, v: Spaced)
    ensures ElemText(KeyedElem(k, v)) == Member(k, SpacedText(v))
  {
    var e := KeyedElem(k, v);
    assert KeyText(e.key) == Name(k) + v.lead;
    assert ElemText(e) == KeyText(e.key) + Text(v.t);
  }

  lemma PlainElemText(v: Spaced)
    ensures ElemText(PlainElem(v)) == SpacedText(v)
  {
    assert ElemText(PlainElem(v)) == v.lead + ("" + (Text(v.t) + ""));
  }

  // ---- When a composed text is one value ----

  /** A name without quotes and backslashes can be a raw key. */
  lemma {:induction false} NameIsBody(k: string)
    requires '"' !in k && '\\' !in k
    ensures IsBody(k)
  {
    if k != "" { NameIsBody(k[1..]); }
  }

  /** The scanner consumes x whole; if strict, its value also follows RFC 8259. */
  ghost predicate Whole(x: string, strict: bool := false) {
    var r := Value(x, 0); r.Good? && r.pos == |x| && (strict ==> IsJson(r.v))
  }

  lemma StrictIsWhole(x: string, strict: bool)
    requires Whole(x, strict)
    ensures Whole(x)
  {}

  /** A whole text with its leading white space split off. */
  function Parsed(x: string): Spaced
    requires Whole(x)
  {
    Spaced(x[..Skip(x, 0)], Value(x, 0).v)
  }

  lemma ParsedText(x: string)
    requires Whole(x)
    ensures WFSpaced(Parsed(x)) && SpacedText(Parsed(x)) == x
  {
    hide Value;
    var t := ConsumedIsValue(x);
  }

  lemma SpacedIsWhole(v: Spaced)
    requires WFSpaced(v)
    ensures Whole(SpacedText(v)) && Parsed(SpacedText(v)) == v
  {
    hide Value, Text, WF, Skip;
    LeadIsSkipped(v);
    ValueIsConsumed(SpacedText(v), v.lead, v.t);
  }

  lemma LeadIsSkipped(v: Spaced)
    requires WFSpaced(v)
    ensures Skip(SpacedText(v), 0) == |v.lead| && SpacedText(v)[..|v.lead|] == v.lead
  {
    hide Text, WF, RunEnd;
    var x := SpacedText(v);
    FirstByte(v.t);
    AtSlice(x, 0, |v.lead|);
    assert x[0..|v.lead|] == v.lead;
    SkipBlank(x, 0, v.lead);
  }

  lemma QuotedIsWhole(s: string, strict: bool := false)
    ensures Whole(Quoted(s), strict) && Parsed(Quoted(s)) == Spaced("", Str(Escaped(s)))
  {
    hide Value, Escaped, IsJsonString;
    EscapedIsBody(s);
    EscapedIsJson(s);
    SpacedIsWhole(Spaced("", Str(Escaped(s))));
    assert SpacedText(Spaced("", Str(Escaped(s)))) == Quoted(s);
  }

  lemma NumberIsWhole(w: string, strict: bool := false)
    requires WF(Num(w)) && (strict ==> IsJsonNumber(w))
    ensures Whole(w, strict) && Parsed(w) == Spaced("", Num(w))
  {
    hide Value, IsJsonNumber;
    SpacedIsWhole(Spaced("", Num(w)));
    assert SpacedText(Spaced("", Num(w))) == w;
  }

  /** Printed integers. */
  lemma DecimalIsWhole(n: int, strict: bool := false)
    ensures Whole(Decimal(n), strict)
  {
    hide Whole, IsJsonNumber;
    DecimalIsJson(n);
    NumberIsWhole(Decimal(n), strict);
  }

  lemma LiteralIsWhole(w: string, strict: bool := false)
    requires WF(Lit(w)) && (strict ==> IsJson(Lit(w)))
    ensures Whole(w, strict) && Parsed(w) == Spaced("", Lit(w))
  {
    hide Value;
    SpacedIsWhole(Spaced("", Lit(w)));
    assert SpacedText(Spaced("", Lit(w))) == w;
  }

  /** The texts of a keyed or unkeyed list's elements. */
  ghost predicate IsPart(x: string, keyed: bool, strict: bool := false) {
    exists e :: Proper(e, keyed, strict) && ElemText(e) == x
  }

  ghost predicate Proper(e: Elem, keyed: bool, strict: bool) {
    WFElem(e, keyed) && (strict ==> IsJsonElem(e, keyed))
  }

  lemma StrictIsPart(x: string, keyed: bool, strict: bool)
    requires IsPart(x, keyed, strict)
    ensures IsPart(x, keyed)
  {
    hide ElemText, WFElem, IsJsonElem;
    var e :| Proper(e, keyed, strict) && ElemText(e) == x;
    assert Proper(e, keyed, false);
  }

  lemma MemberIsPart(k: string, v: string, strict: bool := false)
    requires IsBody(k) && (strict ==> IsJsonString(k)) && Whole(v, strict)
    ensures IsPart(Member(k, v), true, strict)
  {
    hide Value, Text, WF, IsJson, IsJsonString;
    ParsedText(v);
    KeyedElemText(k, Parsed(v));
    assert Proper(KeyedElem(k, Parsed(v)), true, strict);
  }

  lemma ValueIsPart(v: string, strict: bool := false)
    requires Whole(v, strict)
    ensures IsPart(v, false, strict)
  {
    hide Value, Text, WF, IsJson, IsJsonString;
    ParsedText(v);
    PlainElemText(Parsed(v));
    assert Proper(PlainElem(Parsed(v)), false, strict);
  }

  /** Elements whose texts are the parts xs. */
  lemma {:induction false} PartElems(xs: seq<string>, keyed: bool, strict: bool := false) returns (es: seq<Elem>)
    requires forall x | x in xs :: IsPart(x, keyed, strict)
    ensures (forall e | e in es :: Proper(e, keyed, strict)) && Texts(es) == xs
  {
    hide ElemText, Proper;
    es := [];
    if xs != [] {
      assert xs[0] in xs;
      var e :| Proper(e, keyed, strict) && ElemText(e) == xs[0];
      var rest := PartElems(xs[1..], keyed, strict);
      es := [e] + rest;
      assert Texts(es) == [xs[0]] + Texts(rest);
    }
  }

  lemma BracketIsWhole(xs: seq<string>, keyed: bool, strict: bool := false)
    requires forall x | x in xs :: IsPart(x, keyed, strict)
    ensures Whole([Open(keyed)] + (Join(xs) + [Close(keyed)]), strict)
  {
    hide Value, IsPart, ElemText, WFElem, IsJsonElem, Join;
    var es := PartElems(xs, keyed, strict);
    ItemsFromText(es);
    ItemsFromWF(es, keyed);
    if strict { ItemsFromJson(es, keyed); }
    var t := Node(keyed, ItemsFrom(es));
    SpacedIsWhole(Spaced("", t));
    assert SpacedText(Spaced("", t)) == Text(t);
  }

  /** An object is one value if its members are a key and one value each. */
  lemma ObjIsWhole(members: seq<string>, strict: bool := false)
    requires forall x | x in members :: IsPart(x, true, strict)
    ensures Whole(Obj(members), strict)
  {
    BracketIsWhole(members, true, strict);
  }

  /** An array is one value if its elements are. */
  lemma ArrIsWhole(values: seq<string>, strict: bool := false)
    requires forall x | x in values :: Whole(x, strict)
    ensures Whole(Arr(values), strict)
  {
    forall x | x in values ensures IsPart(x, false, strict) { ValueIsPart(x, strict); }
    BracketIsWhole(values, false, strict);
  }

  // ---- A composed text determines its parts ----

  lemma {:induction false} ItemsFromInjective(a: seq<Elem>, b: seq<Elem>)
    requires ItemsFrom(a) == ItemsFrom(b)
    ensures a == b
  {
    if |a| > 1 {
      ItemsFromInjective(a[1..], b[1..]);
      assert a == [a[0]] + a[1..] && b == [b[0]] + b[1..];
    }
  }

  lemma BracketInjective(xs: seq<string>, ys: seq<string>, keyed: bool)
    requires (forall x | x in xs :: IsPart(x, keyed)) && (forall y | y in ys :: IsPart(y, keyed))
    requires [Open(keyed)] + (Join(xs) + [Close(keyed)]) == [Open(keyed)] + (Join(ys) + [Close(keyed)])
    ensures xs == ys
  {
    hide IsPart, ElemText, WFElem, Join;
    var es := PartElems(xs, keyed);
    var fs := PartElems(ys, keyed);
    ItemsFromText(es);
    ItemsFromText(fs);
    ItemsFromWF(es, keyed);
    ItemsFromWF(fs, keyed);
    Unambiguous(Node(keyed, ItemsFrom(es)), Node(keyed, ItemsFrom(fs)));
    ItemsFromInjective(es, fs);
  }

  lemma ObjInjective(xs: seq<string>, ys: seq<string>)
    requires (forall x | x in xs :: IsPart(x, true)) && (forall y | y in ys :: IsPart(y, true))
    requires Obj(xs) == Obj(ys)
    ensures xs == ys
  {
    BracketInjective(xs, ys, true);
  }

  lemma ArrInjective(xs: seq<string>, ys: seq<string>)
    requires (forall x | x in xs :: Whole(x)) && (forall y | y in ys :: Whole(y))
    requires Arr(xs) == Arr(ys)
    ensures xs == ys
  {
    hide Whole, IsPart, Join;
    forall x | x in xs ensures IsPart(x, false) { ValueIsPart(x); }
    forall y | y in ys ensures IsPart(y, false) { ValueIsPart(y); }
    BracketInjective(xs, ys, false);
  }

  lemma MemberInjective(k: string, v: string, l: string, w: string)
    requires IsBody(k) && Whole(v) && IsBody(l) && Whole(w)
    requires Member(k, v) == Member(l, w)
    ensures k == l && v == w
  {
    hide Whole, ElemText, Value, IsBody, Skip, WF, Text;
    var e, f := KeyedElem(k, Parsed(v)), KeyedElem(l, Parsed(w));
    ParsedText(v);
    ParsedText(w);
    KeyedElemText(k, Parsed(v));
    KeyedElemText(l, Parsed(w));
    OneElem(e);
    OneElem(f);
    Unambiguous(Node(true, Last(e)), Node(true, Last(f)));
  }

  lemma OneElem(e: Elem)
    requires WFElem(e, true)
    ensures WF(Node(true, Last(e))) && Text(Node(true, Last(e))) == "{" + (ElemText(e) + "}")
  {}

  // ---- The tree of a composed text ----

  function ValueElems(values: seq<string>): seq<Elem>
    requires forall x | x in values :: Whole(x)
  {
    seq(|values|, k requires 0 <= k < |values| => PlainElem(Parsed(values[k])))
  }

  lemma ArrParsed(values: seq<string>)
    requires forall x | x in values :: Whole(x)
    ensures Whole(Arr(values)) && Parsed(Arr(values)) == Spaced("", Node(false, ItemsFrom(ValueElems(values))))
  {
    hide Whole, Parsed, ElemText, WFElem, Join;
    var es := ValueElems(values);
    forall k | 0 <= k < |values| ensures WFElem(es[k], false) && ElemText(es[k]) == values[k] {
      assert values[k] in values;
      ParsedText(values[k]);
      PlainElemText(Parsed(values[k]));
      PlainElemWF(Parsed(values[k]));
    }
    assert Texts(es) == values;
    ItemsFromText(es);
    ItemsFromWF(es, false);
    WholeTree(Node(false, ItemsFrom(es)));
  }

  lemma PlainElemWF(v: Spaced)
    requires WFSpaced(v)
    ensures WFElem(PlainElem(v), false)
  {}

  lemma WholeTree(t: Tree)
    requires WF(t)
    ensures Whole(Text(t)) && Parsed(Text(t)) == Spaced("", t)
  {
    hide Whole, Parsed, Text;
    SpacedIsWhole(Spaced("", t));
    assert SpacedText(Spaced("", t)) == Text(t);
  }

  datatype NamedText = NamedText(k: string, v: string)

  ghost predicate WholeFields(fs: seq<NamedText>) {
    forall f | f in fs :: IsBody(f.k) && Whole(f.v)
  }

  function FieldTexts(fs: seq<NamedText>): seq<string> {
    seq(|fs|, k requires 0 <= k < |fs| => Member(fs[k].k, fs[k].v))
  }

  function FieldElems(fs: seq<NamedText>): seq<Elem>
    requires WholeFields(fs)
  {
    seq(|fs|, k requires 0 <= k < |fs| => KeyedElem(fs[k].k, Parsed(fs[k].v)))
  }

  lemma ObjParsed(fs: seq<NamedText>)
    requires WholeFields(fs)
    ensures WFItems(ItemsFrom(FieldElems(fs)), true)
    ensures Obj(FieldTexts(fs)) == Text(Node(true, ItemsFrom(FieldElems(fs))))
    ensures Whole(Obj(FieldTexts(fs))) && Parsed(Obj(FieldTexts(fs))) == Spaced("", Node(true, ItemsFrom(FieldElems(fs))))
  {
    hide Whole, Parsed, ElemText, WFElem, Join, Member, IsBody;
    var es := FieldElems(fs);
    forall k | 0 <= k < |fs| ensures WFElem(es[k], true) && ElemText(es[k]) == Member(fs[k].k, fs[k].v) {
      assert fs[k] in fs;
      ParsedText(fs[k].v);
      KeyedElemText(fs[k].k, Parsed(fs[k].v));
      KeyedElemWF(fs[k].k, Parsed(fs[k].v));
    }
    assert Texts(es) == FieldTexts(fs);
    ItemsFromText(es);
    ItemsFromWF(es, true);
    WholeTree(Node(true, ItemsFrom(es)));
  }

  lemma KeyedElemWF(k: string, v: Spaced)
    requires IsBody(k) && WFSpaced(v)
    ensures WFElem(KeyedElem(k, v), true)
  {}
}
