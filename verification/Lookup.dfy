/** The field walkers: they search the members of the top-level object for a key whose value has
    the wanted kind, and deliver that value.

    The four walkers of the program repeat one loop; here `FindMember` is that loop.
 */
module Lookup {
  import opened Bytes
  import opened Grammar
  import opened Scan
  import opened Parser
  import opened Strings
  import opened Numbers

  datatype Kind = AString | ANumber | ABool | AnObject | AnArray

  /** The byte that a value of the kind starts with. */
  predicate Starts(kind: Kind, c: char) {
    match kind
    case AString => c == '"'
    case ANumber => StartsNumber(c)
    case ABool => c == 't' || c == 'f'
    case AnObject => c == '{'
    case AnArray => c == '['
  }

  /** Where a search ended: at a value, at the closing brace, or at something malformed. */
  datatype Lookup = Found(at: nat) | Missing | Refused

  /** The search from i, inside an object and in front of a member. */
  function Find(s: string, i: nat, key: string, kind: Kind): (r: Lookup)
    requires i <= |s|
    ensures r.Found? ==> i < r.at < |s| && Starts(kind, s[r.at]) && Skip(s, r.at) == r.at
    decreases |s| - i
  {
    match MemberKey(s, Skip(s, i))
    case Bad => Refused
    case Good(k, c) =>
      if k.raw == key && c < |s| && Starts(kind, s[c]) then Found(c) else
        match Value(s, c)
        case Bad => Refused
        case Good(_, e) =>
          var f := Skip(s, e);
          if Sees(s, f, ',') then Find(s, f + 1, key, kind)
          else if Sees(s, f, '}') then Missing
          else Refused
  }

  /** The search through a whole response.  An empty object is refused like a malformed one. */
  function FindTop(s: string, key: string, kind: Kind): (r: Lookup)
    ensures r.Found? ==> r.at < |s| && Starts(kind, s[r.at]) && Skip(s, r.at) == r.at
  {
    var a := Skip(s, 0);
    if !Sees(s, a, '{') || Sees(s, Skip(s, a + 1), '}') then Refused
    else Find(s, a + 1, key, kind)
  }

  /** A walker's return value and what it delivers. */
  datatype Field<+T> = Field(ret: bool, v: T)

  function StringField(s: string, key: string): Field<Option<string>> {
    match FindTop(s, key, AString)
    case Refused => Field(false, None)
    case Missing => Field(true, None)
    case Found(c) =>
      match CloseQuote(s, c + 1)
      case None => Field(false, None)
      case Some(q) => Field(true, Some(Unescape(s[c + 1..q])))
  }

  function NumberField(s: string, key: string): Field<int64> {
    match FindTop(s, key, ANumber)
    case Refused => Field(false, 0)
    case Missing => Field(true, 0)
    case Found(c) => Field(true, StrToInt64(Cut(s[c..RunEnd(s, c, NumberRun)], NUMBER_ROOM)))
  }

  function BoolField(s: string, key: string): Field<bool> {
    match FindTop(s, key, ABool)
    case Refused => Field(false, false)
    case Missing => Field(true, false)
    case Found(c) => Field(true, s[c..RunEnd(s, c, LetterRun)] == "true")
  }

  /** The raw text of an object-valued member. */
  function ObjectField(s: string, key: string): Field<Option<string>> {
    match FindTop(s, key, AnObject)
    case Refused => Field(false, None)
    case Missing => Field(true, None)
    case Found(c) =>
      match Value(s, c)
      case Bad => Field(false, None)
      case Good(_, q) => Field(true, Some(s[c..q]))
  }

  // ---- The walkers ----

  /** The search loop.  The cursor ends at the value if one is found. */
  method FindMember(j: JsonParser, key: string, kind: Kind) returns (r: Lookup)
    requires j.Valid() && j.ok
    modifies j
    ensures j.Valid()
    ensures r == Find(j.src, old(j.p), key, kind)
    ensures r.Found? ==> j.ok && j.p == r.at
  {
    hide Find, Value, MemberKey, RunEnd, CloseQuote, Starts;
    while true
      invariant j.Valid() && j.ok
      invariant Find(j.src, j.p, key, kind) == Find(j.src, old(j.p), key, kind)
      decreases |j.src| - j.p
    {
      FindStep(j.src, j.p, key, kind);
      j.SkipWhite();
      var start, len := j.ReadKey();
      if !j.ok {
        return Refused;
      }
      var ch := j.PeekByte();
      if len == |key| && j.src[start..start + len] == key && ch != -1 && Starts(kind, j.src[j.p]) {
        return Found(j.p);
      }
      j.SkipValue();
      if !j.ok {
        return Refused;
      }
      var more := j.NextItem('}');
      if !more {
        return if j.ok then Missing else Refused;
      }
    }
  }

  method FindTopMember(src: string, key: string, kind: Kind) returns (j: JsonParser, r: Lookup)
    ensures fresh(j) && j.Valid() && j.src == src
    ensures r == FindTop(src, key, kind)
    ensures r.Found? ==> j.ok && j.p == r.at
  {
    hide Find;
    j := new JsonParser(src);
    var ch := j.PeekByte();
    if ch != '{' as int {
      return j, Refused;
    }
    j.p := j.p + 1;
    SkipIdempotent(src, j.p);
    ghost var first := j.p;
    j.SkipWhite();
    ch := j.PeekByte();
    if ch == '}' as int {
      return j, Refused;
    }
    SameFind(src, first, key, kind);
    r := FindMember(j, key, kind);
  }

  /** One turn of the search. */
  lemma FindStep(s: string, i: nat, key: string, kind: Kind)
    requires i <= |s|
    ensures Skip(s, Skip(s, i)) == Skip(s, i)
    ensures Find(s, i, key, kind) ==
            match MemberKey(s, Skip(s, i))
            case Bad => Refused
            case Good(k, c) =>
              if k.raw == key && c < |s| && Starts(kind, s[c]) then Found(c) else
                match End(Value(s, c))
                case None => Refused
                case Some(e) => AfterMember(s, Skip(s, e), key, kind)
  {
    hide Value, MemberKey, RunEnd, Starts;
    SkipIdempotent(s, i);
  }

  /** How the search goes on at f, behind a member it skipped. */
  function AfterMember(s: string, f: nat, key: string, kind: Kind): Lookup
    requires f <= |s|
  {
    if Sees(s, f, ',') then Find(s, f + 1, key, kind)
    else if Sees(s, f, '}') then Missing
    else Refused
  }

  lemma SameFind(s: string, i: nat, key: string, kind: Kind)
    requires i <= |s|
    ensures Find(s, i, key, kind) == Find(s, Skip(s, i), key, kind)
  {
    hide Find, Value, MemberKey, RunEnd, Starts;
    SkipIdempotent(s, i);
    FindStep(s, i, key, kind);
    FindStep(s, Skip(s, i), key, kind);
  }

  /** Delivers a fresh NUL-terminated copy of the decoded string, or no block. */
  method GetString(src: string, key: string) returns (found: bool, dst: array?<char>, n: nat)
    ensures found == StringField(src, key).ret
    ensures dst == null <==> StringField(src, key).v.None?
    ensures dst != null ==> fresh(dst) && n < dst.Length && dst[n] == NUL && Some(dst[..n]) == StringField(src, key).v
  {
    hide FindTop, CloseQuote, Unescape;
    dst, n := null, 0;
    var j, r := FindTopMember(src, key, AString);
    if !r.Found? {
      return r.Missing?, null, 0;
    }
    var start := j.p + 1;
    j.SkipString();
    if !j.ok {
      return false, null, 0;
    }
    var len := j.p - 1 - start;
    var out := new char[len + 1];
    n := UnescapeInto(src, start, len, out, 0);
    assert out[0..0 + n] == out[..n];
    return true, out, n;
  }

  method GetNumber(src: string, key: string) returns (found: bool, v: int64)
    ensures Field(found, v) == NumberField(src, key)
  {
    hide FindTop, RunEnd, Signed;
    var j, r := FindTopMember(src, key, ANumber);
    if !r.Found? {
      return r.Missing?, 0;
    }
    var start := j.p;
    j.SkipNumber();
    var n := j.p - start;
    if n >= 64 {
      n := 63;
    }
    CutSlice(src, start, j.p, NUMBER_ROOM);
    return true, StrToInt64(src[start..start + n]);
  }

  lemma CutSlice(s: string, i: nat, j: nat, room: nat)
    requires i <= j <= |s|
    ensures Cut(s[i..j], room) == s[i..if j - i > room then i + room else j]
  {}

  method GetBool(src: string, key: string) returns (found: bool, v: bool)
    ensures Field(found, v) == BoolField(src, key)
  {
    hide FindTop, RunEnd;
    var j, r := FindTopMember(src, key, ABool);
    if !r.Found? {
      return r.Missing?, false;
    }
    var start := j.p;
    j.SkipLiteral();
    var isTrue := TokenIsTrue(src, start, j.p);
    return true, isTrue;
  }

  /** The four bytes `true` and no more. */
  method TokenIsTrue(src: string, start: nat, end: nat) returns (b: bool)
    requires start <= end <= |src|
    ensures b == (src[start..end] == "true")
  {
    return end - start == 4 && src[start..start + 4] == "true";
  }

  /** A span of the response; the NULL span has no bytes. */
  datatype Span = NullSpan | Span(start: nat, len: nat)

  function SpanText(src: string, sp: Span): Option<string>
    requires sp.Span? ==> sp.start + sp.len <= |src|
  {
    if sp.NullSpan? then None else Some(src[sp.start..sp.start + sp.len])
  }

  method GetObjectRaw(src: string, key: string) returns (found: bool, sp: Span)
    ensures sp.Span? ==> sp.start + sp.len <= |src|
    ensures Field(found, SpanText(src, sp)) == ObjectField(src, key)
  {
    hide FindTop, Value, RunEnd;
    var j, r := FindTopMember(src, key, AnObject);
    if !r.Found? {
      return r.Missing?, NullSpan;
    }
    var start := j.p;
    j.SkipValue();
    if !j.ok {
      return false, NullSpan;
    }
    return true, Span(start, j.p - start);
  }

  // ---- What the walkers deliver, on well-formed objects ----

  predicate IsKind(t: Tree, kind: Kind) {
    match kind
    case AString => t.Str?
    case ANumber => t.Num?
    case ABool => t.Lit? && t.run != "" && (t.run[0] == 't' || t.run[0] == 'f')
    case AnObject => t.Node? && t.keyed
    case AnArray => t.Node? && !t.keyed
  }

  /** The value of the first member, at this depth, with the raw key and a value of the kind. */
  function FirstMember(x: Items, key: string, kind: Kind): Option<Tree> {
    match x
    case Empty(_) => None
    case Last(e) => if Matches(e, key, kind) then Some(e.v) else None
    case More(e, rest) => if Matches(e, key, kind) then Some(e.v) else FirstMember(rest, key, kind)
  }

  predicate Matches(e: Elem, key: string, kind: Kind) {
    e.key.Key? && e.key.raw == key && IsKind(e.v, kind)
  }

  /** s holds the text of the object with members x, behind optional white space.  Whatever
      follows the object does not matter. */
  ghost predicate HoldsObject(s: string, x: Items) {
    WFItems(x, true) && At(s, Skip(s, 0), Text(Node(true, x)))
  }

  lemma KindByFirstByte(t: Tree, kind: Kind)
    requires WF(t)
    ensures |Text(t)| > 0 && (IsKind(t, kind) <==> Starts(kind, Text(t)[0]))
  {
    FirstByte(t);
  }

  /** The search finds exactly the first matching member at its own depth, and otherwise runs
      into the closing brace. */
  lemma {:induction false} FindIsFirstMember(s: string, i: nat, x: Items, key: string, kind: Kind)
    requires !x.Empty? && WFItems(x, true) && At(s, i, ItemsText(x)) && Sees(s, i + |ItemsText(x)|, '}')
    ensures match FirstMember(x, key, kind)
            case None => Find(s, i, key, kind) == Missing
            case Some(v) =>
              var r := Find(s, i, key, kind);
              r.Found? && WF(v) && Value(s, r.at) == Good(v, r.at + |Text(v)|)
    decreases x
  {
    hide At, Value, Text, ItemList, Element, RunEnd, MemberKey, WF, Starts, IsKind, ItemsText, ElemText, Find;
    FindStep(s, i, key, kind);
    ListHead(s, i, x, true);
    ElementIs(s, i, true, x.e, i + |ElemText(x.e)|);
    var c := MemberKey(s, Skip(s, i)).pos;
    KindByFirstByte(x.e.v, kind);
    AtChar(s, c, Text(x.e.v), 0);
    if !Matches(x.e, key, kind) && x.More? {
      FindIsFirstMember(s, i + |ElemText(x.e)| + 1, x.rest, key, kind);
    }
  }

  /** An empty object is refused; in any other the search sees its members and nothing else. */
  lemma FindTopIsFirstMember(s: string, x: Items, key: string, kind: Kind)
    requires HoldsObject(s, x)
    ensures x.Empty? ==> FindTop(s, key, kind) == Refused
    ensures !x.Empty? ==>
              match FirstMember(x, key, kind)
              case None => FindTop(s, key, kind) == Missing
              case Some(v) =>
                var r := FindTop(s, key, kind);
                r.Found? && WF(v) && Value(s, r.at) == Good(v, r.at + |Text(v)|)
  {
    hide Value, Element, Find, ElemText, RunEnd;
    var a := Skip(s, 0);
    ObjectParts(s, a, x);
    if x.Empty? {
      SkipBlank(s, a + 1, x.blank);
    } else {
      ListParts(s, a + 1, x);
      ElementStart(s, a + 1, x.e, true);
      FindIsFirstMember(s, a + 1, x, key, kind);
    }
  }

  lemma ObjectParts(s: string, a: nat, x: Items)
    requires At(s, a, Text(Node(true, x)))
    ensures Sees(s, a, '{') && At(s, a + 1, ItemsText(x)) && Sees(s, a + 1 + |ItemsText(x)|, '}')
  {
    AtSplit(s, a, "{", ItemsText(x) + "}");
    AtChar(s, a, "{", 0);
    AtSplit(s, a + 1, ItemsText(x), "}");
    AtChar(s, a + 1 + |ItemsText(x)|, "}", 0);
  }

  function StringIn(x: Items, key: string): Option<string> {
    match FirstMember(x, key, AString)
    case Some(Str(body)) => Some(Unescape(body))
    case _ => None
  }

  function NumberIn(x: Items, key: string): Option<int64> {
    match FirstMember(x, key, ANumber)
    case Some(Num(run)) => Some(StrToInt64(Cut(run, NUMBER_ROOM)))
    case _ => None
  }

  function BoolIn(x: Items, key: string): Option<bool> {
    match FirstMember(x, key, ABool)
    case Some(Lit(run)) => Some(run == "true")
    case _ => None
  }

  function ObjectIn(x: Items, key: string): Option<Items> {
    match FirstMember(x, key, AnObject)
    case Some(Node(_, items)) => Some(items)
    case _ => None
  }

  function Or<T>(o: Option<T>, default: T): T {
    if o.Some? then o.value else default
  }

  /** Depth one, for all four walkers: each delivers the first top-level member with the key and
      a value of its kind, never one from a nested object or from inside a string.  The return
      value only says whether the object has any member at all. */
  lemma WalkersSeeDepthOne(s: string, x: Items, key: string)
    requires HoldsObject(s, x)
    ensures StringField(s, key) == Field(!x.Empty?, StringIn(x, key))
    ensures NumberField(s, key) == Field(!x.Empty?, Or(NumberIn(x, key), 0))
    ensures BoolField(s, key) == Field(!x.Empty?, Or(BoolIn(x, key), false))
    ensures ObjectField(s, key) ==
            Field(!x.Empty?, match ObjectIn(x, key) case None => None case Some(y) => Some(Text(Node(true, y))))
  {
    StringFieldOf(s, x, key);
    NumberFieldOf(s, x, key);
    BoolFieldOf(s, x, key);
    ObjectFieldOf(s, x, key);
  }

  lemma StringFieldOf(s: string, x: Items, key: string)
    requires HoldsObject(s, x)
    ensures StringField(s, key) == Field(!x.Empty?, StringIn(x, key))
  {
    hide At, ItemList, RunEnd, FindTop, Unescape, WFItems;
    FindTopIsFirstMember(s, x, key, AString);
    FirstMemberKind(x, key, AString);
  }

  lemma NumberFieldOf(s: string, x: Items, key: string)
    requires HoldsObject(s, x)
    ensures NumberField(s, key) == Field(!x.Empty?, Or(NumberIn(x, key), 0))
  {
    hide At, ItemList, RunEnd, FindTop, Signed, WFItems;
    FindTopIsFirstMember(s, x, key, ANumber);
    FirstMemberKind(x, key, ANumber);
  }

  lemma BoolFieldOf(s: string, x: Items, key: string)
    requires HoldsObject(s, x)
    ensures BoolField(s, key) == Field(!x.Empty?, Or(BoolIn(x, key), false))
  {
    hide At, ItemList, RunEnd, FindTop, WFItems;
    FindTopIsFirstMember(s, x, key, ABool);
    FirstMemberKind(x, key, ABool);
  }

  lemma ObjectFieldOf(s: string, x: Items, key: string)
    requires HoldsObject(s, x)
    ensures ObjectField(s, key) ==
            Field(!x.Empty?, match ObjectIn(x, key) case None => None case Some(y) => Some(Text(Node(true, y))))
  {
    hide At, ItemList, RunEnd, FindTop, Value, Text, WFItems;
    FindTopIsFirstMember(s, x, key, AnObject);
    FirstMemberKind(x, key, AnObject);
    var r := FindTop(s, key, AnObject);
    if r.Found? {
      ValueSound(s, r.at);
      AtIs(s, r.at, Text(Value(s, r.at).v));
    }
  }

  lemma {:induction false} FirstMemberKind(x: Items, key: string, kind: Kind)
    ensures var m := FirstMember(x, key, kind); m.Some? ==> IsKind(m.value, kind)
  {
    if x.More? { FirstMemberKind(x.rest, key, kind); }
  }

  lemma NothingInEmpty(x: Items, key: string, kind: Kind)
    requires x.Empty?
    ensures FirstMember(x, key, kind) == None
  {}

  /** On anything but an object all four walkers return 0 and deliver nothing. */
  lemma NoObjectIsRefused(s: string)
    requires !Sees(s, Skip(s, 0), '{')
    ensures forall key :: StringField(s, key) == Field(false, None)
    ensures forall key :: NumberField(s, key) == Field(false, 0)
    ensures forall key :: BoolField(s, key) == Field(false, false)
    ensures forall key :: ObjectField(s, key) == Field(false, None)
  {}

  /** On a body of any kind the search runs into the closing brace exactly when the rest of the object
      is well-formed up to there and has no matching member. */
  lemma {:induction false} MissingExact(s: string, i: nat, key: string, kind: Kind)
    requires i <= |s|
    ensures Find(s, i, key, kind) == Missing <==>
            ItemList(s, i, true).Good? && FirstMember(ItemList(s, i, true).v, key, kind) == None
    decreases |s| - i
  {
    hide Find, ItemList, FirstMember, Matches, Element, RunEnd;
    ListByFirst(s, i, key, kind);
    MemberStands(s, i, key, kind);
    if Element(s, i, true).Good? {
      var f := Element(s, i, true).pos;
      if Sees(s, f, ',') { MissingExact(s, f + 1, key, kind); }
    }
  }

  /** A list of members by its first. */
  lemma ListByFirst(s: string, i: nat, key: string, kind: Kind)
    requires i <= |s|
    ensures Element(s, i, true).Bad? ==> ItemList(s, i, true).Bad?
    ensures Element(s, i, true).Good? ==>
              var e := Element(s, i, true).v; var f := Element(s, i, true).pos; var r := ItemList(s, i, true);
              if Sees(s, f, ',') then
                r.Good? == ItemList(s, f + 1, true).Good? &&
                (r.Good? ==> FirstMember(r.v, key, kind) ==
                             if Matches(e, key, kind) then Some(e.v) else FirstMember(ItemList(s, f + 1, true).v, key, kind))
              else
                r.Good? == Sees(s, f, '}') &&
                (r.Good? ==> FirstMember(r.v, key, kind) == if Matches(e, key, kind) then Some(e.v) else None)
  {
    hide Element, Matches;
  }

  /** One member, as the scanner sees it and as the search does. */
  lemma MemberStands(s: string, i: nat, key: string, kind: Kind)
    requires i <= |s|
    ensures Element(s, i, true).Bad? ==> Find(s, i, key, kind) != Missing
    ensures Element(s, i, true).Good? ==>
              if Matches(Element(s, i, true).v, key, kind) then Find(s, i, key, kind).Found?
              else Find(s, i, key, kind) == AfterMember(s, Element(s, i, true).pos, key, kind)
  {
    hide At, Value, MemberKey, RunEnd, ItemList, Starts, IsKind, Text, WF;
    FindStep(s, i, key, kind);
    if Element(s, i, true).Good? {
      var Good(e, f) := Element(s, i, true);
      ElementIs(s, i, true, e, f);
      var c := MemberKey(s, Skip(s, i)).pos;
      KindByFirstByte(e.v, kind);
      AtChar(s, c, Text(e.v), 0);
    }
  }

  /** A walker reports 1 for a missing field exactly on a well-formed non-empty object without it,
      whatever the body. */
  lemma TopMissingExact(s: string, key: string, kind: Kind)
    ensures FindTop(s, key, kind) == Missing <==>
            var r := Value(s, 0);
            r.Good? && r.v.Node? && r.v.keyed && !r.v.items.Empty? && FirstMember(r.v.items, key, kind) == None
  {
    hide At, Element, RunEnd, Find, ItemList, FirstMember;
    var a := Skip(s, 0);
    SkipIdempotent(s, 0);
    if Sees(s, a, '{') { MissingExact(s, a + 1, key, kind); }
  }

  /** A walker's comment says that it returns 1 if the field is present.  On a well-formed object
      that is so exactly when the object is empty or does have the field: a missing field of any
      other object is reported as found, with the default value. */
  lemma ReturnMeansPresent(s: string, x: Items, key: string)
    requires HoldsObject(s, x)
    ensures (NumberField(s, key).ret <==> NumberIn(x, key).Some?) <==> x.Empty? || NumberIn(x, key).Some?
    ensures (StringField(s, key).ret <==> StringIn(x, key).Some?) <==> x.Empty? || StringIn(x, key).Some?
    ensures (BoolField(s, key).ret <==> BoolIn(x, key).Some?) <==> x.Empty? || BoolIn(x, key).Some?
    ensures (ObjectField(s, key).ret <==> ObjectIn(x, key).Some?) <==> x.Empty? || ObjectIn(x, key).Some?
  {
    hide HoldsObject, StringField, NumberField, BoolField, ObjectField, Matches;
    WalkersSeeDepthOne(s, x, key);
  }

  /** The smallest such body: `{"a":1}` has no `b`, and asking for it returns 1. */
  lemma MissingIsReportedFound()
    ensures NumberField("{\"a\":1}", "b") == Field(true, 0)
  {
    var s := "{\"a\":1}";
    var x := Last(Elem("", Key("a", "", ""), Num("1"), ""));
    assert Text(Node(true, x)) == s;
    assert WFItems(x, true);
    AtSlice(s, 0, |s|);
    assert s[0..|s|] == s;
    SkipHere(s, 0);
    NumberFieldOf(s, x, "b");
    assert FirstMember(x, "b", ANumber) == None;
  }
}
