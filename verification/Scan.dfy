/** The skip parser as functions on a buffer and an offset, and its exactness.

    `Value`, `ItemList` and `Element` follow the recursive descent of jp_value, jp_array and
    jp_object and also return the tree they recognised.  The lemmas show that they accept exactly
    the grammar of module Grammar.
 */
module Scan {
  import opened Bytes
  import opened Grammar

  /** The outcome of a scan: failure, or a value and the offset just behind it. */
  datatype Res<+T> = Bad | Good(v: T, pos: nat)

  /** What a loop has collected, in front of what is still to come. */
  function Prepend<T>(done: seq<T>, r: Res<seq<T>>): Res<seq<T>> {
    match r
    case Bad => Bad
    case Good(rest, q) => Good(done + rest, q)
  }

  lemma PrependNothing<T>(r: Res<seq<T>>)
    ensures Prepend([], r) == r
  {
    if r.Good? { assert [] + r.v == r.v; }
  }

  /** Where the run of cls-bytes that starts at i ends. */
  function RunEnd(s: string, i: nat, cls: Class): (r: nat)
    requires i <= |s|
    ensures i <= r <= |s|
    ensures r < |s| ==> !In(cls, s[r])
    decreases |s| - i
  {
    if i < |s| && In(cls, s[i]) then RunEnd(s, i + 1, cls) else i
  }

  function Skip(s: string, i: nat): (r: nat)
    requires i <= |s|
    ensures i <= r <= |s|
    ensures r < |s| ==> !IsWhite(s[r])
  {
    RunEnd(s, i, White)
  }

  /** The byte jp_peek reports, -1 at the end. */
  function Peek(s: string, i: nat): int
    requires i <= |s|
  {
    var k := Skip(s, i);
    if k < |s| then s[k] as int else -1
  }

  predicate Sees(s: string, i: nat, c: char) {
    i < |s| && s[i] == c
  }

  /** The offset of the quote that closes a literal whose bytes start at i. */
  function CloseQuote(s: string, i: nat): (r: Option<nat>)
    requires i <= |s|
    ensures r.Some? ==> i <= r.value < |s| && s[r.value] == '"'
    decreases |s| - i
  {
    if i == |s| then None
    else if s[i] == '\\' then
      if i + 1 < |s| then CloseQuote(s, i + 2) else None
    else if s[i] == '"' then Some(i)
    else CloseQuote(s, i + 1)
  }

  /** Reads `"key" :` at a and stops at the first byte of the value. */
  function MemberKey(s: string, a: nat): (r: Res<Key>)
    requires a <= |s|
    ensures r.Good? ==> a < r.pos <= |s| && Skip(s, r.pos) == r.pos && r.v.Key?
  {
    if !Sees(s, a, '"') then Bad else
      match CloseQuote(s, a + 1)
      case None => Bad
      case Some(q) =>
        var b := Skip(s, q + 1);
        if !Sees(s, b, ':') then Bad else
          var c := Skip(s, b + 1);
          Good(Key(s[a + 1..q], s[q + 1..b], s[b + 1..c]), c)
  }

  function KeyOrNot(s: string, a: nat, keyed: bool): (r: Res<Key>)
    requires a <= |s|
    requires Skip(s, a) == a
    ensures r.Good? ==> a <= r.pos <= |s| && Skip(s, r.pos) == r.pos && r.v.Key? == keyed
  {
    if keyed then MemberKey(s, a) else Good(NoKey, a)
  }

  function Value(s: string, i: nat): (r: Res<Tree>)
    requires i <= |s|
    ensures r.Good? ==> i < r.pos <= |s|
    decreases |s| - i, 0
  {
    var k := Skip(s, i);
    if k == |s| then Bad
    else if s[k] == '"' then
      match CloseQuote(s, k + 1)
      case None => Bad
      case Some(q) => Good(Str(s[k + 1..q]), q + 1)
    else if s[k] == '{' || s[k] == '[' then
      var keyed := s[k] == '{';
      var first := Skip(s, k + 1);
      if Sees(s, first, Close(keyed)) then Good(Node(keyed, Empty(s[k + 1..first])), first + 1)
      else
        match ItemList(s, k + 1, keyed)
        case Bad => Bad
        case Good(items, q) => Good(Node(keyed, items), q)
    else if StartsLiteral(s[k]) then
      var e := RunEnd(s, k, LetterRun);
      Good(Lit(s[k..e]), e)
    else if StartsNumber(s[k]) then
      var e := RunEnd(s, k, NumberRun);
      Good(Num(s[k..e]), e)
    else Bad
  }

  /** A non-empty comma separated list up to and including the closing bracket. */
  function ItemList(s: string, i: nat, keyed: bool): (r: Res<Items>)
    requires i <= |s|
    ensures r.Good? ==> i < r.pos <= |s| && !r.v.Empty?
    decreases |s| - i, 2
  {
    match Element(s, i, keyed)
    case Bad => Bad
    case Good(e, f) =>
      if Sees(s, f, ',') then
        match ItemList(s, f + 1, keyed)
        case Bad => Bad
        case Good(rest, q) => Good(More(e, rest), q)
      else if Sees(s, f, Close(keyed)) then Good(Last(e), f + 1)
      else Bad
  }

  function Element(s: string, i: nat, keyed: bool): (r: Res<Elem>)
    requires i <= |s|
    ensures r.Good? ==> i < r.pos <= |s|
    decreases |s| - i, 1
  {
    var a := Skip(s, i);
    match KeyOrNot(s, a, keyed)
    case Bad => Bad
    case Good(key, c) =>
      match Value(s, c)
      case Bad => Bad
      case Good(v, e) =>
        var f := Skip(s, e);
        Good(Elem(s[i..a], key, v, s[e..f]), f)
  }

  // ---- Runs and quotes ----

  lemma {:induction false} RunAt(s: string, i: nat, cls: Class, w: string)
    requires At(s, i, w) && AllIn(cls, w)
    requires i + |w| < |s| ==> !In(cls, s[i + |w|])
    ensures RunEnd(s, i, cls) == i + |w|
    decreases |w|
  {
    if w != "" {
      AtChar(s, i, w, 0);
      assert w == w[..1] + w[1..];
      AtSplit(s, i, w[..1], w[1..]);
      RunAt(s, i + 1, cls, w[1..]);
    }
  }

  lemma {:induction false} RunText(s: string, i: nat, cls: Class)
    requires i <= |s|
    ensures AllIn(cls, s[i..RunEnd(s, i, cls)])
    decreases |s| - i
  {
    if i < |s| && In(cls, s[i]) {
      RunText(s, i + 1, cls);
      var e := RunEnd(s, i, cls);
      assert s[i..e] == [s[i]] + s[i + 1..e];
    }
  }

  lemma {:induction false} CloseQuoteAt(s: string, i: nat, body: string)
    requires At(s, i, body) && Sees(s, i + |body|, '"') && IsBody(body)
    ensures CloseQuote(s, i) == Some(i + |body|)
    decreases |body|
  {
    if body != "" {
      AtChar(s, i, body, 0);
      var n := if body[0] == '\\' then 2 else 1;
      assert body == body[..n] + body[n..];
      AtSplit(s, i, body[..n], body[n..]);
      CloseQuoteAt(s, i + n, body[n..]);
    }
  }

  lemma {:induction false} CloseQuoteBody(s: string, i: nat)
    requires i <= |s| && CloseQuote(s, i).Some?
    ensures IsBody(s[i..CloseQuote(s, i).value])
    decreases |s| - i
  {
    var q := CloseQuote(s, i).value;
    if s[i] == '\\' {
      CloseQuoteBody(s, i + 2);
      assert s[i..q][2..] == s[i + 2..q];
    } else if s[i] != '"' {
      CloseQuoteBody(s, i + 1);
      assert s[i..q][1..] == s[i + 1..q];
    }
  }

  // ---- Completeness: the text of a well-formed tree is recognised as that tree ----

  /** A number or a literal only ends where its run of bytes ends. */
  predicate Munched(s: string, j: nat, t: Tree) {
    j < |s| ==> (t.Num? ==> !In(NumberRun, s[j])) && (t.Lit? ==> !In(LetterRun, s[j]))
  }

  predicate IsDelimiter(c: char) { c == ',' || c == ']' || c == '}' }

  /** The first byte of a value's text decides its kind. */
  lemma FirstByte(t: Tree)
    requires WF(t)
    ensures |Text(t)| > 0
    ensures !IsWhite(Text(t)[0]) && !IsDelimiter(Text(t)[0])
    ensures t.Str? <==> Text(t)[0] == '"'
    ensures t.Node? <==> Text(t)[0] == '{' || Text(t)[0] == '['
    ensures t.Node? ==> (t.keyed <==> Text(t)[0] == '{')
    ensures t.Num? <==> StartsNumber(Text(t)[0])
    ensures t.Lit? <==> StartsLiteral(Text(t)[0])
  {}

  lemma SkipBlank(s: string, i: nat, w: string)
    requires At(s, i, w) && Blank(w)
    requires i + |w| < |s| ==> !IsWhite(s[i + |w|])
    ensures Skip(s, i) == i + |w|
  {
    RunAt(s, i, White, w);
  }

  lemma MemberKeyComplete(s: string, a: nat, k: Key)
    requires k.Key? && WFKey(k) && At(s, a, KeyText(k))
    requires a + |KeyText(k)| < |s| && !IsWhite(s[a + |KeyText(k)|])
    ensures MemberKey(s, a) == Good(k, a + |KeyText(k)|)
  {
    hide At, RunEnd, CloseQuote, IsBody;
    var Key(raw, mid, gap) := k;
    var q := a + 1 + |raw|;
    var b := q + 1 + |mid|;
    KeyParts(s, a, raw, mid, gap);
    hide KeyText;
    assert WFKey(Key(raw, mid, gap));
    CloseQuoteAt(s, a + 1, raw);
    SkipBlank(s, q + 1, mid);
    SkipBlank(s, b + 1, gap);
    AtIs(s, a + 1, raw);
    AtIs(s, q + 1, mid);
    AtIs(s, b + 1, gap);
  }

  /** Where the parts of a key's text stand. */
  lemma KeyParts(s: string, a: nat, raw: string, mid: string, gap: string)
    requires At(s, a, KeyText(Key(raw, mid, gap)))
    ensures var q := a + 1 + |raw|; var b := q + 1 + |mid|;
            Sees(s, a, '"') && At(s, a + 1, raw) && Sees(s, q, '"') && At(s, q + 1, mid) && Sees(s, b, ':') &&
            At(s, b + 1, gap) && |KeyText(Key(raw, mid, gap))| == b + 1 + |gap| - a
  {
    hide At, Sees;
    AtQuoted(s, a, raw, mid + (":" + gap));
    AtColon(s, a + 2 + |raw|, mid, gap);
  }

  lemma AtColon(s: string, i: nat, mid: string, gap: string)
    requires At(s, i, mid + (":" + gap))
    ensures At(s, i, mid) && Sees(s, i + |mid|, ':') && At(s, i + |mid| + 1, gap)
  {
    hide At;
    AtSplit(s, i, mid, ":" + gap);
    AtSplit(s, i + |mid|, ":", gap);
    AtChar(s, i + |mid|, ":", 0);
  }

  lemma AtQuoted(s: string, a: nat, raw: string, tail: string)
    requires At(s, a, "\"" + (raw + ("\"" + tail)))
    ensures Sees(s, a, '"') && At(s, a + 1, raw) && Sees(s, a + 1 + |raw|, '"') && At(s, a + 2 + |raw|, tail)
  {
    hide At;
    AtSplit(s, a, "\"", raw + ("\"" + tail));
    AtChar(s, a, "\"", 0);
    AtSplit(s, a + 1, raw, "\"" + tail);
    AtSplit(s, a + 1 + |raw|, "\"", tail);
    AtChar(s, a + 1 + |raw|, "\"", 0);
  }

  lemma {:induction false} ValueComplete(s: string, i: nat, t: Tree)
    requires WF(t) && At(s, i, Text(t)) && Munched(s, i + |Text(t)|, t)
    ensures Value(s, i) == Good(t, i + |Text(t)|)
    decreases t, 1
  {
    hide At, Element, ItemList, ItemsText, ElemText, WFItems, RunEnd, CloseQuote;
    FirstByte(t);
    AtChar(s, i, Text(t), 0);
    SkipHere(s, i);
    match t {
      case Str(body) =>
        AtSplit(s, i, "\"", body + "\"");
        AtSplit(s, i + 1, body, "\"");
        AtChar(s, i + 1 + |body|, "\"", 0);
        CloseQuoteAt(s, i + 1, body);
        AtIs(s, i + 1, body);
      case Num(run) => RunAt(s, i, NumberRun, run); AtIs(s, i, run);
      case Lit(run) => RunAt(s, i, LetterRun, run); AtIs(s, i, run);
      case Node(keyed, items) =>
        AtSplit(s, i, [Open(keyed)], ItemsText(items) + [Close(keyed)]);
        AtSplit(s, i + 1, ItemsText(items), [Close(keyed)]);
        AtChar(s, i + 1 + |ItemsText(items)|, [Close(keyed)], 0);
        NodeComplete(s, i, items, keyed);
    }
  }

  lemma {:induction false} NodeComplete(s: string, i: nat, x: Items, keyed: bool)
    requires Sees(s, i, Open(keyed)) && WFItems(x, keyed)
    requires At(s, i + 1, ItemsText(x)) && Sees(s, i + 1 + |ItemsText(x)|, Close(keyed))
    ensures Value(s, i) == Good(Node(keyed, x), i + |ItemsText(x)| + 2)
    decreases x, 3
  {
    hide At, Element, ItemList, ElemText, WFElem, RunEnd;
    SkipHere(s, i);
    if x.Empty? {
      SkipBlank(s, i + 1, x.blank);
      AtIs(s, i + 1, x.blank);
    } else {
      ItemListComplete(s, i + 1, x, keyed);
      ListParts(s, i + 1, x);
      ElementStart(s, i + 1, x.e, keyed);
    }
  }

  lemma SkipHere(s: string, i: nat)
    requires i < |s| && !IsWhite(s[i])
    ensures Skip(s, i) == i
  {}

  /** Where the parts of an element's text stand. */
  lemma ElementParts(s: string, i: nat, e: Elem)
    requires At(s, i, ElemText(e))
    ensures var a := i + |e.pre|; var c := a + |KeyText(e.key)|; var j := c + |Text(e.v)|;
            At(s, i, e.pre) && At(s, a, KeyText(e.key)) && At(s, c, Text(e.v)) && At(s, j, e.post) &&
            i + |ElemText(e)| == j + |e.post|
  {
    hide At, Text, KeyText;
    var Elem(pre, key, v, post) := e;
    AtSplit(s, i, pre, KeyText(key) + (Text(v) + post));
    AtSplit(s, i + |pre|, KeyText(key), Text(v) + post);
    AtSplit(s, i + |pre| + |KeyText(key)|, Text(v), post);
  }

  /** Where the first element of a list and the rest of it stand. */
  lemma ListParts(s: string, i: nat, x: Items)
    requires !x.Empty? && At(s, i, ItemsText(x))
    ensures At(s, i, ElemText(x.e))
    ensures x.Last? ==> |ItemsText(x)| == |ElemText(x.e)|
    ensures x.More? ==> var f := i + |ElemText(x.e)|;
                        Sees(s, f, ',') && At(s, f + 1, ItemsText(x.rest)) &&
                        i + |ItemsText(x)| == f + 1 + |ItemsText(x.rest)|
  {
    if x.More? {
      AtSplit(s, i, ElemText(x.e), "," + ItemsText(x.rest));
      AtSplit(s, i + |ElemText(x.e)|, ",", ItemsText(x.rest));
      AtChar(s, i + |ElemText(x.e)|, ",", 0);
    }
  }

  /** An element's key or value starts right after its leading white space. */
  lemma ElementStart(s: string, i: nat, e: Elem, keyed: bool)
    requires WFElem(e, keyed) && At(s, i, ElemText(e))
    ensures var a := i + |e.pre|;
            Skip(s, i) == a && Skip(s, a) == a && a < |s| && !IsDelimiter(s[a]) && (keyed ==> s[a] == '"')
  {
    ElementParts(s, i, e);
    FirstByte(e.v);
    var a := i + |e.pre|;
    AtChar(s, a + |KeyText(e.key)|, Text(e.v), 0);
    if keyed { AtChar(s, a, KeyText(e.key), 0); }
    SkipBlank(s, i, e.pre);
  }

  lemma KeyComplete(s: string, a: nat, k: Key, keyed: bool)
    requires k.Key? == keyed && WFKey(k) && At(s, a, KeyText(k)) && Skip(s, a) == a
    requires a + |KeyText(k)| < |s| && !IsWhite(s[a + |KeyText(k)|])
    ensures KeyOrNot(s, a, keyed) == Good(k, a + |KeyText(k)|)
  {
    if keyed { MemberKeyComplete(s, a, k); }
  }

  /** White space behind a value, up to a delimiter or the end of the text. */
  lemma ValueEnds(s: string, j: nat, t: Tree, post: string)
    requires At(s, j, post) && Blank(post)
    requires j + |post| == |s| || (j + |post| < |s| && IsDelimiter(s[j + |post|]))
    ensures Skip(s, j) == j + |post| && Munched(s, j, t)
  {
    hide RunEnd;
    if post != "" { AtChar(s, j, post, 0); }
    SkipBlank(s, j, post);
  }

  lemma {:induction false} ElementComplete(s: string, i: nat, e: Elem, keyed: bool)
    requires WFElem(e, keyed) && At(s, i, ElemText(e))
    requires i + |ElemText(e)| < |s| && IsDelimiter(s[i + |ElemText(e)|])
    ensures Element(s, i, keyed) == Good(e, i + |ElemText(e)|)
    decreases e, 2
  {
    hide At, Value, Text, ElemText, KeyText, ItemList, KeyOrNot, RunEnd, Munched, IsDelimiter, Blank;
    ElementStart(s, i, e, keyed);
    ElementParts(s, i, e);
    var a := i + |e.pre|;
    var c := a + |KeyText(e.key)|;
    var j := c + |Text(e.v)|;
    FirstByte(e.v);
    AtChar(s, c, Text(e.v), 0);
    KeyComplete(s, a, e.key, keyed);
    ValueEnds(s, j, e.v, e.post);
    ValueComplete(s, c, e.v);
    AtIs(s, i, e.pre);
    AtIs(s, j, e.post);
  }

  lemma {:induction false} ItemListComplete(s: string, i: nat, x: Items, keyed: bool)
    requires !x.Empty? && WFItems(x, keyed)
    requires At(s, i, ItemsText(x)) && Sees(s, i + |ItemsText(x)|, Close(keyed))
    ensures ItemList(s, i, keyed) == Good(x, i + |ItemsText(x)| + 1)
    decreases x, 0
  {
    hide At, Value, Element, Text, ElemText, WFElem;
    ListParts(s, i, x);
    ElementComplete(s, i, x.e, keyed);
    if x.More? { ItemListComplete(s, i + |ElemText(x.e)| + 1, x.rest, keyed); }
  }

  // ---- Soundness: what is recognised is the text of a well-formed tree ----

  lemma MemberKeySound(s: string, a: nat)
    requires a <= |s| && MemberKey(s, a).Good?
    ensures var Good(k, c) := MemberKey(s, a);
            WFKey(k) && At(s, a, KeyText(k)) && c == a + |KeyText(k)|
  {
    hide At, RunEnd, CloseQuote, IsBody;
    var Good(k, c) := MemberKey(s, a);
    var q := CloseQuote(s, a + 1).value;
    var b := Skip(s, q + 1);
    assert k == Key(s[a + 1..q], s[q + 1..b], s[b + 1..c]) && c == Skip(s, b + 1) && Sees(s, b, ':');
    hide MemberKey, KeyText;
    CloseQuoteBody(s, a + 1);
    RunText(s, q + 1, White);
    RunText(s, b + 1, White);
    KeyJoins(s, a, q, b, c);
  }

  /** The text of a key between its quotes, its colon and the value. */
  lemma KeyJoins(s: string, a: nat, q: nat, b: nat, c: nat)
    requires a < q < b < c <= |s| && Sees(s, a, '"') && Sees(s, q, '"') && Sees(s, b, ':')
    ensures var text := KeyText(Key(s[a + 1..q], s[q + 1..b], s[b + 1..c])); At(s, a, text) && c == a + |text|
  {
    hide At;
    var raw, mid, gap := s[a + 1..q], s[q + 1..b], s[b + 1..c];
    AtSlice(s, b + 1, c);
    AtByte(s, b, ':');
    AtJoin(s, b, ":", gap);
    AtSlice(s, q + 1, b);
    AtJoin(s, q + 1, mid, ":" + gap);
    AtByte(s, q, '"');
    AtJoin(s, q, "\"", mid + (":" + gap));
    AtSlice(s, a + 1, q);
    AtJoin(s, a + 1, raw, "\"" + (mid + (":" + gap)));
    AtByte(s, a, '"');
    AtJoin(s, a, "\"", raw + ("\"" + (mid + (":" + gap))));
  }

  lemma {:induction false} ValueSound(s: string, i: nat)
    requires i <= |s| && Value(s, i).Good?
    ensures var Good(t, q) := Value(s, i);
            WF(t) && At(s, Skip(s, i), Text(t)) && q == Skip(s, i) + |Text(t)| && Munched(s, q, t)
    decreases |s| - i, 0
  {
    hide At, Element, ItemList, CloseQuote, RunEnd;
    var k := Skip(s, i);
    if s[k] == '"' {
      StringSound(s, k);
    } else if s[k] == '{' || s[k] == '[' {
      SkipIdempotent(s, i);
      NodeSound(s, k);
    } else {
      RunSound(s, k, if StartsLiteral(s[k]) then LetterRun else NumberRun);
    }
  }

  lemma StringSound(s: string, k: nat)
    requires Sees(s, k, '"') && CloseQuote(s, k + 1).Some?
    ensures var q := CloseQuote(s, k + 1).value; var t := Str(s[k + 1..q]);
            WF(t) && At(s, k, Text(t)) && q + 1 == k + |Text(t)|
  {
    hide At, CloseQuote, IsBody;
    var q := CloseQuote(s, k + 1).value;
    CloseQuoteBody(s, k + 1);
    AtByte(s, q, '"');
    AtSlice(s, k + 1, q);
    AtJoin(s, k + 1, s[k + 1..q], "\"");
    AtByte(s, k, '"');
    AtJoin(s, k, "\"", s[k + 1..q] + "\"");
  }

  lemma RunSound(s: string, k: nat, cls: Class)
    requires k < |s| && In(cls, s[k])
    ensures var e := RunEnd(s, k, cls);
            k < e && AllIn(cls, s[k..e]) && s[k..e][0] == s[k] && At(s, k, s[k..e]) && (e < |s| ==> !In(cls, s[e]))
  {
    RunText(s, k, cls);
    AtSlice(s, k, RunEnd(s, k, cls));
  }

  lemma {:induction false} NodeSound(s: string, k: nat)
    requires k < |s| && (s[k] == '{' || s[k] == '[') && Value(s, k).Good?
    ensures var Good(t, q) := Value(s, k);
            t.Node? && WF(t) && At(s, k, Text(t)) && q == k + |Text(t)|
    decreases |s| - k - 1, 3
  {
    hide At, Element, ItemList, ElemText, RunEnd, CloseQuote;
    SkipHere(s, k);
    var keyed := s[k] == '{';
    var first := Skip(s, k + 1);
    var Good(t, q) := Value(s, k);
    if Sees(s, first, Close(keyed)) {
      RunText(s, k + 1, White);
      AtSlice(s, k + 1, first);
      AtByte(s, first, Close(keyed));
    } else {
      ItemListSound(s, k + 1, keyed);
    }
    AtJoin(s, k + 1, ItemsText(t.items), [Close(keyed)]);
    AtByte(s, k, Open(keyed));
    AtJoin(s, k, [Open(keyed)], ItemsText(t.items) + [Close(keyed)]);
  }

  lemma {:induction false} ElementSound(s: string, i: nat, keyed: bool)
    requires i <= |s| && Element(s, i, keyed).Good?
    ensures var Good(e, f) := Element(s, i, keyed);
            WFElem(e, keyed) && At(s, i, ElemText(e)) && f == i + |ElemText(e)|
    decreases |s| - i, 1
  {
    hide At, Value, Text, ItemList, RunEnd;
    var Good(e, f) := Element(s, i, keyed);
    var a := Skip(s, i);
    RunText(s, i, White);
    SkipIdempotent(s, i);
    if keyed { MemberKeySound(s, a); } else { AtSlice(s, a, a); }
    var c := KeyOrNot(s, a, keyed).pos;
    ValueSound(s, c);
    var j := Value(s, c).pos;
    RunText(s, j, White);
    AtSlice(s, j, f);
    AtJoin(s, c, Text(e.v), e.post);
    AtJoin(s, a, KeyText(e.key), Text(e.v) + e.post);
    AtSlice(s, i, a);
    AtJoin(s, i, e.pre, KeyText(e.key) + (Text(e.v) + e.post));
  }

  lemma {:induction false} ItemListSound(s: string, i: nat, keyed: bool)
    requires i <= |s| && ItemList(s, i, keyed).Good?
    ensures var Good(x, q) := ItemList(s, i, keyed);
            WFItems(x, keyed) && !x.Empty? && At(s, i, ItemsText(x)) && q == i + |ItemsText(x)| + 1 &&
            At(s, q - 1, [Close(keyed)])
    decreases |s| - i, 2
  {
    hide At, Value, Element, Text, ElemText, WFElem;
    ElementSound(s, i, keyed);
    var Good(x, q) := ItemList(s, i, keyed);
    var f := Element(s, i, keyed).pos;
    if Sees(s, f, ',') {
      ItemListSound(s, f + 1, keyed);
      AtByte(s, f, ',');
      AtJoin(s, f, ",", ItemsText(x.rest));
      AtJoin(s, i, ElemText(x.e), "," + ItemsText(x.rest));
    } else {
      AtByte(s, f, Close(keyed));
    }
  }

  // ---- Reading a list element by element ----

  /** The first element of a list, what follows it, and where the rest stands. */
  lemma ListHead(s: string, i: nat, x: Items, keyed: bool)
    requires !x.Empty? && WFItems(x, keyed) && At(s, i, ItemsText(x)) && Sees(s, i + |ItemsText(x)|, Close(keyed))
    ensures var f := i + |ElemText(x.e)|;
            Element(s, i, keyed) == Good(x.e, f) && f < |s| && s[f] == (if x.More? then ',' else Close(keyed)) &&
            Skip(s, f) == f && |ItemsText(x)| >= |ElemText(x.e)| && (x.Last? ==> |ItemsText(x)| == |ElemText(x.e)|)
    ensures x.More? ==> var g := i + |ElemText(x.e)| + 1;
                        At(s, g, ItemsText(x.rest)) && g + |ItemsText(x.rest)| == i + |ItemsText(x)| &&
                        Sees(s, g + |ItemsText(x.rest)|, Close(keyed)) && WFItems(x.rest, keyed)
  {
    hide At, Value, Text, ElemText, ItemList, Element;
    ListParts(s, i, x);
    ElementComplete(s, i, x.e, keyed);
  }

  /** A recognised element in terms of its key and its value. */
  lemma ElementIs(s: string, i: nat, keyed: bool, e: Elem, f: nat)
    requires i <= |s| && Element(s, i, keyed) == Good(e, f)
    ensures Skip(s, Skip(s, i)) == Skip(s, i) && KeyOrNot(s, Skip(s, i), keyed).Good?
    ensures var Good(k, c) := KeyOrNot(s, Skip(s, i), keyed);
            k == e.key && Skip(s, c) == c && Value(s, c) == Good(e.v, c + |Text(e.v)|) &&
            Skip(s, c + |Text(e.v)|) == f && At(s, c, Text(e.v)) && WF(e.v)
  {
    hide At, Value, Text, ItemList, RunEnd, MemberKey, WF;
    SkipIdempotent(s, i);
    ValueSound(s, KeyOrNot(s, Skip(s, i), keyed).pos);
  }

  // ---- The main results ----

  /** The scanner accepts exactly the grammar: it succeeds at q with tree t precisely when t is a
      well-formed tree whose text runs from the first non-white byte to q and, for numbers and
      literals, cannot be extended. */
  lemma ScannerExact(s: string, i: nat, t: Tree, q: nat)
    requires i <= |s|
    ensures Value(s, i) == Good(t, q) <==>
            WF(t) && At(s, Skip(s, i), Text(t)) && q == Skip(s, i) + |Text(t)| && Munched(s, q, t)
  {
    if Value(s, i).Good? { ValueSound(s, i); }
    if WF(t) && At(s, Skip(s, i), Text(t)) && q == Skip(s, i) + |Text(t)| && Munched(s, q, t) {
      ValueComplete(s, Skip(s, i), t);
      SkipIdempotent(s, i);
    }
  }

  lemma SkipIdempotent(s: string, i: nat)
    requires i <= |s|
    ensures Skip(s, Skip(s, i)) == Skip(s, i)
    ensures Value(s, Skip(s, i)) == Value(s, i)
  {
  }

  /** The grammar is unambiguous: no byte string is the text of two trees. */
  lemma Unambiguous(t: Tree, u: Tree)
    requires WF(t) && WF(u) && Text(t) == Text(u)
    ensures t == u
  {
    ValueComplete(Text(t), 0, t);
    ValueComplete(Text(t), 0, u);
  }

  /** x is white space followed by the text of one value. */
  ghost predicate IsValue(x: string) {
    exists ws, t :: Blank(ws) && WF(t) && x == ws + Text(t)
  }

  /** Being consumed whole by the scanner and being a value's text are the same. */
  lemma WholeExact(x: string)
    ensures IsValue(x) <==> Value(x, 0).Good? && Value(x, 0).pos == |x|
  {
    hide At, Value, Text, RunEnd, WF;
    if Value(x, 0).Good? && Value(x, 0).pos == |x| {
      var t := ConsumedIsValue(x);
    }
    if IsValue(x) {
      var ws, t :| Blank(ws) && WF(t) && x == ws + Text(t);
      ValueIsConsumed(x, ws, t);
    }
  }

  /** A value between white space. */
  lemma Between(before: string, t: Tree, after: string)
    requires Blank(before) && WF(t) && Blank(after)
    ensures var s := before + (Text(t) + after); var q := |before| + |Text(t)|;
            Value(s, 0) == Good(t, q) && Skip(s, q) == |s|
  {
    hide Value, Text, WF, RunEnd, At, Munched;
    var s := before + (Text(t) + after);
    var q := |before| + |Text(t)|;
    FirstByte(t);
    Parts(before, Text(t), after);
    AtChar(s, |before|, Text(t), 0);
    SkipBlank(s, 0, before);
    ValueEnds(s, q, t, after);
    ScannerExact(s, 0, t, q);
  }

  lemma Parts(a: string, b: string, c: string)
    ensures var s := a + (b + c); At(s, 0, a) && At(s, |a|, b) && At(s, |a| + |b|, c)
  {
    var s := a + (b + c);
    AtSlice(s, 0, |s|);
    assert s[0..|s|] == s;
    AtSplit(s, 0, a, b + c);
    AtSplit(s, |a|, b, c);
  }

  lemma ConsumedIsValue(x: string) returns (t: Tree)
    requires Value(x, 0).Good? && Value(x, 0).pos == |x|
    ensures t == Value(x, 0).v && WF(t) && Blank(x[..Skip(x, 0)]) && x == x[..Skip(x, 0)] + Text(t)
    ensures IsValue(x)
  {
    hide Value, Text, RunEnd, WF;
    t := Value(x, 0).v;
    ValueSound(x, 0);
    RunText(x, 0, White);
    var k := Skip(x, 0);
    AtIs(x, k, Text(t));
    assert x[0..k] == x[..k];
    assert x == x[..k] + x[k..];
  }

  lemma ValueIsConsumed(x: string, ws: string, t: Tree)
    requires Blank(ws) && WF(t) && x == ws + Text(t)
    ensures Value(x, 0) == Good(t, |x|)
  {
    hide Value, Text, WF, RunEnd;
    Between(ws, t, "");
    assert x == ws + (Text(t) + "");
  }
}
