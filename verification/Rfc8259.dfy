/** The grammar of RFC 8259 as a sub-language of the relaxed grammar. */
module Rfc8259 {
  import opened Bytes
  import opened Grammar
  import opened Scan
  import opened Strings
  import opened Numbers

  /** Section 6: minus, int, frac and exp. */
  datatype Number = Number(minus: bool, whole: string, frac: Option<string>, exp: Option<Exponent>)

  datatype Exponent = Exponent(mark: char, sign: string, digits: string)

  predicate AllDigits(w: string) {
    w != "" && forall k | 0 <= k < |w| :: IsDigit(w[k])
  }

  predicate ValidNumber(n: Number) {
    AllDigits(n.whole) && (n.whole[0] == '0' ==> |n.whole| == 1) &&
    (n.frac.Some? ==> AllDigits(n.frac.value)) &&
    (n.exp.Some? ==>
       var e := n.exp.value;
       (e.mark == 'e' || e.mark == 'E') && (e.sign == "" || e.sign == "+" || e.sign == "-") && AllDigits(e.digits))
  }

  function ExponentText(e: Exponent): string {
    [e.mark] + (e.sign + e.digits)
  }

  function NumberText(n: Number): string {
    (if n.minus then "-" else "") +
    (n.whole + ((if n.frac.Some? then "." + n.frac.value else "") + if n.exp.Some? then ExponentText(n.exp.value) else ""))
  }

  ghost predicate IsJsonNumber(w: string) {
    exists n :: ValidNumber(n) && NumberText(n) == w
  }

  /** Section 7. */
  ghost predicate IsJsonString(body: string) {
    exists us :: ValidUnits(us) && UnitsText(us) == body
  }

  /** Section 3. */
  predicate IsJsonLiteral(w: string) {
    w == "true" || w == "false" || w == "null"
  }

  predicate ValidUnits(us: seq<Unit>) {
    forall u | u in us :: ValidUnit(u)
  }

  /** White space of section 2. */
  predicate JsonBlank(w: string) {
    forall c | c in w :: c == '\U{0020}' || c == '\U{0009}' || c == '\U{000A}' || c == '\U{000D}'
  }

  /** It is the white space of the relaxed grammar. */
  lemma BlankIsJson(w: string)
    ensures Blank(w) <==> JsonBlank(w)
  {
    if JsonBlank(w) {
      forall k | 0 <= k < |w| ensures In(White, w[k]) { assert w[k] in w; }
    }
  }

  /** Sections 2 to 5. */
  ghost predicate IsJson(t: Tree) {
    match t
    case Str(body) => IsJsonString(body)
    case Num(run) => IsJsonNumber(run)
    case Lit(run) => IsJsonLiteral(run)
    case Node(keyed, items) => IsJsonItems(items, keyed)
  }

  ghost predicate IsJsonItems(x: Items, keyed: bool) {
    match x
    case Empty(blank) => JsonBlank(blank)
    case Last(e) => IsJsonElem(e, keyed)
    case More(e, rest) => IsJsonElem(e, keyed) && !rest.Empty? && IsJsonItems(rest, keyed)
  }

  ghost predicate IsJsonElem(e: Elem, keyed: bool) {
    JsonBlank(e.pre) && JsonBlank(e.post) && e.key.Key? == keyed && IsJson(e.v) &&
    (keyed ==> IsJsonString(e.key.raw) && JsonBlank(e.key.mid) && JsonBlank(e.key.gap))
  }

  lemma {:induction false} UnitsAreBody(us: seq<Unit>)
    requires ValidUnits(us)
    ensures IsBody(UnitsText(us))
  {
    if us != [] {
      assert us[0] in us;
      UnitsAreBody(us[1..]);
      UnitBody(us[0], UnitsText(us[1..]));
    }
  }

  lemma UnitBody(u: Unit, rest: string)
    requires ValidUnit(u) && IsBody(rest)
    ensures IsBody(UnitText(u) + rest)
  {
    var x := UnitText(u) + rest;
    match u {
      case Plain(c) => PlainBody(c, rest);
      case Short(c) => assert x[2..] == rest;
      case Hex(h) =>
        PlainBody(h[3], rest);
        PlainBody(h[2], [h[3]] + rest);
        PlainBody(h[1], [h[2]] + ([h[3]] + rest));
        PlainBody(h[0], [h[1]] + ([h[2]] + ([h[3]] + rest)));
        assert x[2..] == [h[0]] + ([h[1]] + ([h[2]] + ([h[3]] + rest)));
    }
  }

  lemma StringIsBody(body: string)
    requires IsJsonString(body)
    ensures IsBody(body)
  {
    var us :| ValidUnits(us) && UnitsText(us) == body;
    UnitsAreBody(us);
  }

  lemma NumberIsRun(w: string)
    requires IsJsonNumber(w)
    ensures WF(Num(w))
  {
    var n :| ValidNumber(n) && NumberText(n) == w;
    var frac := if n.frac.Some? then "." + n.frac.value else "";
    var exp := if n.exp.Some? then ExponentText(n.exp.value) else "";
    assert AllIn(NumberRun, frac) && AllIn(NumberRun, exp) && AllIn(NumberRun, n.whole);
    assert AllIn(NumberRun, n.whole + (frac + exp));
  }

  /** Printed integers are numbers of section 6. */
  lemma DecimalIsJson(n: int)
    ensures IsJsonNumber(Decimal(n))
  {
    var m: nat := if n < 0 then -n else n;
    ZeroAlone(m);
    var x := Number(n < 0, Digits(m), None, None);
    assert NumberText(x) == Decimal(n);
  }

  lemma {:induction false} ZeroAlone(n: nat)
    ensures Digits(n)[0] == '0' ==> n == 0 && |Digits(n)| == 1
  {}

  /** Escaped strings are strings of section 7. */
  lemma EscapedIsJson(s: string)
    ensures IsJsonString(Escaped(s))
  {
    var us := EscapedUnits(s);
  }

  lemma {:induction false} EscapedUnits(s: string) returns (us: seq<Unit>)
    ensures ValidUnits(us) && UnitsText(us) == Escaped(s)
  {
    us := [];
    if s != "" {
      hide ValidUnit, UnitText, EscapedByte;
      var rest := EscapedUnits(s[1..]);
      var u := ByteUnit(s[0]);
      us := [u] + rest;
      assert us[1..] == rest;
    }
  }

  lemma ByteUnit(c: char) returns (u: Unit)
    ensures ValidUnit(u) && UnitText(u) == EscapedByte(c)
  {
    var e := EscapedByte(c);
    if |e| == 6 {
      u := Hex(e[2..]);
      assert e == "\\u" + e[2..];
    } else if |e| == 2 {
      u := Short(e[1]);
    } else {
      u := Plain(c);
    }
  }

  /** A name in letters and underscores. */
  lemma NameIsJson(k: string)
    requires forall c | c in k :: In(LetterRun, c)
    ensures IsJsonString(k)
  {
    var us := NameUnits(k);
  }

  lemma {:induction false} NameUnits(k: string) returns (us: seq<Unit>)
    requires forall c | c in k :: In(LetterRun, c)
    ensures ValidUnits(us) && UnitsText(us) == k
  {
    us := [];
    if k != "" {
      assert k[0] in k && ValidUnit(Plain(k[0]));
      var rest := NameUnits(k[1..]);
      us := [Plain(k[0])] + rest;
      assert us[1..] == rest;
    }
  }

  lemma {:induction false} JsonIsRelaxed(t: Tree)
    requires IsJson(t)
    ensures WF(t)
    decreases t
  {
    match t {
      case Str(body) => StringIsBody(body);
      case Num(run) => NumberIsRun(run);
      case Lit(run) =>
      case Node(keyed, items) => ItemsAreRelaxed(items, keyed);
    }
  }

  lemma {:induction false} ItemsAreRelaxed(x: Items, keyed: bool)
    requires IsJsonItems(x, keyed)
    ensures WFItems(x, keyed)
    decreases x
  {
    hide WFElem, IsJsonElem, Blank, JsonBlank;
    if x.Empty? {
      BlankIsJson(x.blank);
    } else {
      ElemIsRelaxed(x.e, keyed);
      if x.More? { ItemsAreRelaxed(x.rest, keyed); }
    }
  }

  lemma {:induction false} ElemIsRelaxed(e: Elem, keyed: bool)
    requires IsJsonElem(e, keyed)
    ensures WFElem(e, keyed)
    decreases e
  {
    hide Blank, JsonBlank;
    BlankIsJson(e.pre);
    BlankIsJson(e.post);
    JsonIsRelaxed(e.v);
    if keyed {
      BlankIsJson(e.key.mid);
      BlankIsJson(e.key.gap);
      StringIsBody(e.key.raw);
    }
  }

  // ---- Exactly which accepted texts are JSON ----

  /** Every token of the tree is one of RFC 8259; nothing is asked of the structure. */
  ghost predicate Scalars(t: Tree) {
    match t
    case Str(body) => IsJsonString(body)
    case Num(run) => IsJsonNumber(run)
    case Lit(run) => IsJsonLiteral(run)
    case Node(_, items) => ItemScalars(items)
  }

  ghost predicate ItemScalars(x: Items) {
    match x
    case Empty(_) => true
    case Last(e) => ElemScalars(e)
    case More(e, rest) => ElemScalars(e) && ItemScalars(rest)
  }

  ghost predicate ElemScalars(e: Elem) {
    Scalars(e.v) && (e.key.Key? ==> IsJsonString(e.key.raw))
  }

  /** On the relaxed grammar's trees, being JSON is a matter of the tokens alone. */
  lemma {:induction false} JsonByScalars(t: Tree)
    requires WF(t)
    ensures IsJson(t) <==> Scalars(t)
    decreases t
  {
    hide IsJsonNumber, IsJsonString;
    if t.Node? { ItemsByScalars(t.items, t.keyed); }
  }

  lemma {:induction false} ItemsByScalars(x: Items, keyed: bool)
    requires WFItems(x, keyed)
    ensures IsJsonItems(x, keyed) <==> ItemScalars(x)
    decreases x
  {
    hide IsJsonNumber, IsJsonString, Blank, JsonBlank;
    if x.Empty? {
      BlankIsJson(x.blank);
    } else {
      ElemByScalars(x.e, keyed);
      if x.More? { ItemsByScalars(x.rest, keyed); }
    }
  }

  lemma {:induction false} ElemByScalars(e: Elem, keyed: bool)
    requires WFElem(e, keyed)
    ensures IsJsonElem(e, keyed) <==> ElemScalars(e)
    decreases e
  {
    hide IsJsonNumber, IsJsonString, Blank, JsonBlank;
    JsonByScalars(e.v);
    BlankIsJson(e.pre);
    BlankIsJson(e.post);
    if keyed {
      BlankIsJson(e.key.mid);
      BlankIsJson(e.key.gap);
    }
  }

  /** A JSON text of section 2: a value between white space. */
  ghost predicate IsJsonText(x: string) {
    exists before, t, after :: IsJsonOf(x, before, t, after)
  }

  ghost predicate IsJsonOf(x: string, before: string, t: Tree, after: string) {
    JsonBlank(before) && IsJson(t) && JsonBlank(after) && x == before + (Text(t) + after)
  }

  /** A text is JSON exactly when the scanner accepts it up to trailing white space and every token
      it met is one of RFC 8259. */
  lemma JsonTextExact(x: string)
    ensures IsJsonText(x) <==>
            var r := Value(x, 0);
            r.Good? && Skip(x, r.pos) == |x| && Scalars(r.v)
  {
    hide Value, Scalars, Skip, IsJsonText;
    if IsJsonText(x) { JsonIsAccepted(x); }
    var r := Value(x, 0);
    if r.Good? && Skip(x, r.pos) == |x| && Scalars(r.v) { AcceptedIsJson(x); }
  }

  lemma JsonIsAccepted(x: string)
    requires IsJsonText(x)
    ensures var r := Value(x, 0); r.Good? && Skip(x, r.pos) == |x| && Scalars(r.v)
  {
    hide Value, Scalars, Skip, IsJsonOf;
    var before, t, after :| IsJsonOf(x, before, t, after);
    PartsAreAccepted(x, before, t, after);
  }

  lemma PartsAreAccepted(x: string, before: string, t: Tree, after: string)
    requires IsJsonOf(x, before, t, after)
    ensures var r := Value(x, 0); r.Good? && Skip(x, r.pos) == |x| && Scalars(r.v)
  {
    hide Value, Text, IsJson, Scalars, Skip, JsonBlank, WF;
    AcceptsJson(before, t, after);
    JsonIsRelaxed(t);
    JsonByScalars(t);
  }

  lemma AcceptedIsJson(x: string)
    requires Value(x, 0).Good? && Skip(x, Value(x, 0).pos) == |x| && Scalars(Value(x, 0).v)
    ensures IsJsonText(x)
  {
    hide Value, Text, IsJson, Scalars, Skip, Blank, JsonBlank;
    var Good(t, q) := Value(x, 0);
    var before, after := x[..Skip(x, 0)], x[q..];
    AcceptedText(x);
    BlankIsJson(before);
    BlankIsJson(after);
    JsonByScalars(t);
    assert IsJsonOf(x, before, t, after);
  }

  /** What the scanner accepts: white space, the text of a tree, and white space. */
  lemma AcceptedText(x: string)
    requires Value(x, 0).Good? && Skip(x, Value(x, 0).pos) == |x|
    ensures var Good(t, q) := Value(x, 0); var k := Skip(x, 0);
            WF(t) && Blank(x[..k]) && Blank(x[q..]) && x == x[..k] + (Text(t) + x[q..])
  {
    hide Value, Text, WF, At, RunEnd, Munched;
    var Good(t, q) := Value(x, 0);
    var k := Skip(x, 0);
    ValueSound(x, 0);
    RunText(x, 0, White);
    RunText(x, q, White);
    AtIs(x, k, Text(t));
    ThreeSlices(x, k, q);
  }

  lemma ThreeSlices(x: string, k: nat, q: nat)
    requires k <= q <= |x|
    ensures x == x[..k] + (x[k..q] + x[q..]) && x[0..k] == x[..k] && x[q..|x|] == x[q..]
  {}

  /** Every JSON text (section 2: a value between white space) is accepted, and the scanner stops
      right behind its value. */
  lemma AcceptsJson(before: string, t: Tree, after: string)
    requires JsonBlank(before) && IsJson(t) && JsonBlank(after)
    ensures var s := before + (Text(t) + after); var q := |before| + |Text(t)|;
            Value(s, 0) == Good(t, q) && Skip(s, q) == |s|
  {
    hide Value, Text, IsJson, WF;
    JsonIsRelaxed(t);
    BlankIsJson(before);
    BlankIsJson(after);
    Between(before, t, after);
  }

  /** The converse fails: any run of letters and underscores that starts with t, f or n is accepted
      whole, and only three of them are JSON. */
  lemma RelaxedIsWider(w: string)
    requires w != "" && StartsLiteral(w[0]) && AllIn(LetterRun, w)
    ensures Value(w, 0) == Good(Lit(w), |w|)
    ensures IsJsonText(w) <==> IsJsonLiteral(w)
  {
    hide Value, RunEnd, IsJsonText;
    assert "" + (w + "") == w;
    Between("", Lit(w), "");
    JsonTextExact(w);
  }

  /** The literal `tea` is accepted and is no JSON. */
  lemma TeaIsAccepted()
    ensures Value("tea", 0) == Good(Lit("tea"), 3) && !IsJsonText("tea")
  {
    hide Value, IsJsonText;
    RelaxedIsWider("tea");
  }
}
