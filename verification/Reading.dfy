/** Reading composed objects: what the walkers find in the text of an object put together from
    members that may be left out. */
module Reading {
  import opened Bytes
  import opened Grammar
  import opened Scan
  import opened Strings
  import opened Numbers
  import opened Compose
  import opened Writers
  import opened Lookup

  // ---- Reading a tree ----

  /** The value of the first member with that raw key, whatever its kind. */
  function Get(x: Items, key: string): Option<Tree> {
    match x
    case Empty(_) => None
    case Last(e) => if e.key.Key? && e.key.raw == key then Some(e.v) else None
    case More(e, rest) => if e.key.Key? && e.key.raw == key then Some(e.v) else Get(rest, key)
  }

  function Elements(x: Items): seq<Tree> {
    match x
    case Empty(_) => []
    case Last(e) => [e.v]
    case More(e, rest) => [e.v] + Elements(rest)
  }

  /** The elements of the first array of that name. */
  function ArrayIn(x: Items, key: string): Option<seq<Tree>> {
    match FirstMember(x, key, AnArray)
    case Some(Node(_, items)) => Some(Elements(items))
    case _ => None
  }

  /** No member has another name. */
  ghost predicate NothingElse(x: Items, names: seq<string>) {
    forall key :: key !in names ==> Get(x, key) == None
  }

  /** The value of the first number of that name, not clamped to any width. */
  function TokenIn(x: Items, key: string): Option<int> {
    match FirstMember(x, key, ANumber)
    case Some(Num(run)) => Some(Signed(run))
    case _ => None
  }

  /** t is an object with one member, which is an object. */
  predicate IsNamedObject(t: Tree) {
    t.Node? && t.keyed && t.items.Last? && t.items.e.key.Key? && t.items.e.v.Node? && t.items.e.v.keyed
  }

  /** Without a member of that name there is none of any kind. */
  lemma {:induction false} NotFound(x: Items, key: string, kind: Kind)
    requires Get(x, key) == None
    ensures FirstMember(x, key, kind) == None
  {
    if x.More? { NotFound(x.rest, key, kind); }
  }

  /** The text is one object. */
  ghost predicate IsObject(text: string) {
    Whole(text) && Parsed(text).t.Node? && Parsed(text).t.keyed
  }

  function MembersIn(text: string): Items
    requires IsObject(text)
  {
    Parsed(text).t.items
  }

  /** The walkers see the members of such a text. */
  lemma ObjectIsHeld(text: string)
    requires IsObject(text)
    ensures HoldsObject(text, MembersIn(text))
  {
    hide Value, Text, At, Skip;
    ValueSound(text, 0);
    NodeIsKeyed(Parsed(text).t);
  }

  lemma NodeIsKeyed(t: Tree)
    requires t.Node? && WF(t)
    ensures WFItems(t.items, t.keyed)
  {}

  // ---- Members that may be left out ----

  datatype Entry = Entry(present: bool, k: string, v: string)

  function Present(es: seq<Entry>): seq<NamedText> {
    if es == [] then [] else (if es[0].present then [NamedText(es[0].k, es[0].v)] else []) + Present(es[1..])
  }

  /** The texts of the members that are there. */
  function EntryTexts(es: seq<Entry>): seq<string> {
    if es == [] then [] else EntryText(es[0]) + EntryTexts(es[1..])
  }

  function EntryText(e: Entry): seq<string> {
    if e.present then [Member(e.k, e.v)] else []
  }

  predicate NotNamed(es: seq<Entry>, key: string) {
    forall e | e in es :: e.k != key
  }

  ghost predicate WholeEntries(es: seq<Entry>) {
    forall e | e in es && e.present :: IsName(e.k) && Whole(e.v)
  }

  lemma {:induction false} EntryTextsAppend(a: seq<Entry>, b: seq<Entry>)
    ensures EntryTexts(a + b) == EntryTexts(a) + EntryTexts(b)
  {
    if a == [] {
      assert a + b == b;
    } else {
      assert (a + b)[1..] == a[1..] + b;
      EntryTextsAppend(a[1..], b);
    }
  }

  lemma OneEntry(e: Entry)
    ensures EntryTexts([e]) == EntryText(e)
  {
    assert [e][1..] == [];
  }

  /** The texts of three entries, in front of more. */
  lemma ThreeEntries(a: Entry, b: Entry, c: Entry, rest: seq<Entry>)
    ensures EntryTexts([a, b, c] + rest) == EntryText(a) + EntryText(b) + EntryText(c) + EntryTexts(rest)
  {
    hide EntryTexts, EntryText;
    OneEntry(a);
    OneEntry(b);
    OneEntry(c);
    EntryTextsAppend([a], [b]);
    EntryTextsAppend([a] + [b], [c]);
    EntryTextsAppend([a, b, c], rest);
    assert [a] + [b] + [c] == [a, b, c];
  }

  lemma TwoEntries(a: Entry, b: Entry)
    ensures EntryTexts([a, b]) == EntryText(a) + EntryText(b)
  {
    hide EntryTexts, EntryText;
    OneEntry(a);
    OneEntry(b);
    EntryTextsAppend([a], [b]);
    assert [a] + [b] == [a, b];
  }

  lemma JustThree(a: Entry, b: Entry, c: Entry)
    ensures EntryTexts([a, b, c]) == EntryText(a) + EntryText(b) + EntryText(c)
  {
    hide EntryTexts, EntryText;
    OneEntry(a);
    TwoEntries(b, c);
    EntryTextsAppend([a], [b, c]);
    assert [a] + [b, c] == [a, b, c];
  }

  lemma {:induction false} PresentTexts(es: seq<Entry>)
    ensures FieldTexts(Present(es)) == EntryTexts(es)
  {
    hide Member;
    if es != [] {
      PresentTexts(es[1..]);
    }
  }

  lemma BodyOfName(k: string)
    requires IsName(k)
    ensures IsBody(k)
  {
    NameIsBody(k);
  }

  lemma {:induction false} PresentAreWhole(es: seq<Entry>)
    requires WholeEntries(es)
    ensures WholeFields(Present(es))
  {
    hide Whole, IsBody, IsName;
    if es != [] {
      assert es[0] in es;
      if es[0].present { BodyOfName(es[0].k); }
      PresentAreWhole(es[1..]);
    }
  }

  /** The members of the object that the entries make. */
  function EntryItems(es: seq<Entry>): Items
    requires WholeEntries(es)
  {
    PresentAreWhole(es);
    ItemsFrom(FieldElems(Present(es)))
  }

  /** The text of the entries is an object with those members. */
  lemma EntriesAreObject(es: seq<Entry>)
    requires WholeEntries(es)
    ensures IsObject(Obj(EntryTexts(es))) && MembersIn(Obj(EntryTexts(es))) == EntryItems(es)
  {
    hide Whole, Parsed, ItemsFrom, Obj, IsName;
    PresentAreWhole(es);
    PresentTexts(es);
    ObjParsed(Present(es));
  }

  /** A list of members by its first. */
  lemma FirstField(fs: seq<NamedText>, key: string, kind: Kind)
    requires fs != [] && WholeFields(fs) && WholeFields(fs[1..])
    ensures var x := ItemsFrom(FieldElems(fs)); var rest := ItemsFrom(FieldElems(fs[1..])); var t := Parsed(fs[0].v).t;
            Whole(fs[0].v) &&
            Get(x, key) == (if fs[0].k == key then Some(t) else Get(rest, key)) &&
            FirstMember(x, key, kind) == (if fs[0].k == key && IsKind(t, kind) then Some(t) else FirstMember(rest, key, kind))
  {
    hide Whole, Parsed, IsKind;
    assert fs[0] in fs;
    assert FieldElems(fs)[1..] == FieldElems(fs[1..]);
    assert FieldElems(fs)[0] == KeyedElem(fs[0].k, Parsed(fs[0].v));
  }

  lemma EntriesStep(es: seq<Entry>, key: string, kind: Kind)
    requires es != [] && WholeEntries(es)
    ensures WholeEntries(es[1..])
    ensures var x := EntryItems(es); var rest := EntryItems(es[1..]); var e := es[0];
            (e.present ==> Whole(e.v)) &&
            Get(x, key) == (if e.present && e.k == key then Some(Parsed(e.v).t) else Get(rest, key)) &&
            FirstMember(x, key, kind) ==
              (if e.present && e.k == key && IsKind(Parsed(e.v).t, kind) then Some(Parsed(e.v).t)
               else FirstMember(rest, key, kind))
  {
    hide Whole, Parsed, IsKind, ItemsFrom, FieldElems, Get, FirstMember, IsName;
    assert es[0] in es;
    PresentAreWhole(es);
    PresentAreWhole(es[1..]);
    if es[0].present {
      var fs := Present(es);
      assert fs[0] == NamedText(es[0].k, es[0].v) && fs[1..] == Present(es[1..]);
      FirstField(fs, key, kind);
    } else {
      assert Present(es) == Present(es[1..]);
    }
  }

  lemma {:induction false} UnnamedIsAbsent(es: seq<Entry>, key: string, kind: Kind)
    requires WholeEntries(es) && NotNamed(es, key)
    ensures Get(EntryItems(es), key) == None && FirstMember(EntryItems(es), key, kind) == None
  {
    hide Whole, Parsed, IsKind, EntryItems;
    if es == [] {
      NoEntries(key, kind);
    } else {
      EntriesStep(es, key, kind);
      assert es[0] in es;
      UnnamedIsAbsent(es[1..], key, kind);
    }
  }

  lemma NoEntries(key: string, kind: Kind)
    ensures WholeEntries([]) && Get(EntryItems([]), key) == None && FirstMember(EntryItems([]), key, kind) == None
  {}

  /** The entry between a and b, if no other has its name: it is found if it is there, and its name
      is absent if it is not. */
  lemma {:induction false} EntryIsRead(a: seq<Entry>, e: Entry, b: seq<Entry>, kind: Kind)
    requires WholeEntries(a + [e] + b) && NotNamed(a, e.k) && NotNamed(b, e.k)
    ensures e.present ==> Whole(e.v)
    ensures var x := EntryItems(a + [e] + b);
            Get(x, e.k) == (if e.present then Some(Parsed(e.v).t) else None) &&
            FirstMember(x, e.k, kind) ==
              (if e.present && IsKind(Parsed(e.v).t, kind) then Some(Parsed(e.v).t) else None)
    decreases |a|
  {
    hide Whole, Parsed, IsKind, EntryItems, IsName;
    var es := a + [e] + b;
    EntriesStep(es, e.k, kind);
    if a == [] {
      assert es[1..] == b && es[0] == e;
      UnnamedIsAbsent(b, e.k, kind);
    } else {
      assert es[0] == a[0] && a[0] in a;
      assert es[1..] == a[1..] + [e] + b;
      EntryIsRead(a[1..], e, b, kind);
    }
  }

  predicate Distinct(es: seq<Entry>) {
    forall i, j | 0 <= i < j < |es| :: es[i].k != es[j].k
  }

  /** Among distinct names each entry is found if it is there, and its name is absent if it is not. */
  lemma EntryAt(es: seq<Entry>, i: nat, kind: Kind)
    requires WholeEntries(es) && Distinct(es) && i < |es|
    ensures es[i].present ==> Whole(es[i].v)
    ensures var x := EntryItems(es); var e := es[i];
            Get(x, e.k) == (if e.present then Some(Parsed(e.v).t) else None) &&
            FirstMember(x, e.k, kind) ==
              (if e.present && IsKind(Parsed(e.v).t, kind) then Some(Parsed(e.v).t) else None)
  {
    hide Whole, Parsed, IsKind, EntryItems, WholeEntries, Get, FirstMember;
    var a, b := es[..i], es[i + 1..];
    assert es == a + [es[i]] + b;
    EntryIsRead(a, es[i], b, kind);
  }

  lemma OnlyEntries(es: seq<Entry>, names: seq<string>)
    requires WholeEntries(es) && |names| == |es| && forall i | 0 <= i < |es| :: es[i].k == names[i]
    ensures NothingElse(EntryItems(es), names)
  {
    hide WholeEntries, EntryItems, Get;
    forall e | e in es ensures e.k in names {
      var i :| 0 <= i < |es| && es[i] == e;
      assert names[i] in names;
    }
    forall key | key !in names ensures Get(EntryItems(es), key) == None {
      UnnamedIsAbsent(es, key, AString);
    }
  }

  // ---- Arrays ----

  lemma {:induction false} ElementsOf(values: seq<string>)
    requires forall v | v in values :: Whole(v)
    ensures |Elements(ItemsFrom(ValueElems(values)))| == |values|
    ensures forall k | 0 <= k < |values| :: Whole(values[k]) && Elements(ItemsFrom(ValueElems(values)))[k] == Parsed(values[k]).t
  {
    hide Whole, Parsed;
    if values != [] {
      assert values[0] in values;
      var rest := values[1..];
      ElementsOf(rest);
      assert ValueElems(values)[1..] == ValueElems(rest);
      assert Elements(ItemsFrom(ValueElems(values))) == [Parsed(values[0]).t] + Elements(ItemsFrom(ValueElems(rest)));
      forall k | 0 <= k < |values| ensures Whole(values[k]) && Elements(ItemsFrom(ValueElems(values)))[k] == Parsed(values[k]).t {
        assert values[k] in values;
        if k > 0 { assert values[k] == rest[k - 1]; }
      }
    }
  }

  /** The elements of an array's text. */
  lemma ArrayIsRead(values: seq<string>)
    requires forall v | v in values :: Whole(v)
    ensures Whole(Arr(values))
    ensures var t := Parsed(Arr(values)).t;
            t.Node? && !t.keyed && |Elements(t.items)| == |values| &&
            forall k | 0 <= k < |values| :: Whole(values[k]) && Elements(t.items)[k] == Parsed(values[k]).t
  {
    hide Whole, Parsed, ItemsFrom, ValueElems, Arr;
    ArrParsed(values);
    ElementsOf(values);
  }

  // ---- Values ----

  lemma QuotedIsRead(s: CString)
    ensures Whole(Quoted(s)) && Parsed(Quoted(s)).t.Str? && Unescape(Parsed(Quoted(s)).t.body) == s
  {
    hide Whole, Parsed, Escaped, Unescape;
    QuotedIsWhole(s);
    UnescapeEscaped(s);
  }

  /** A printed integer of any width. */
  lemma DecimalIsRead(n: int)
    ensures Whole(Decimal(n)) && Parsed(Decimal(n)).t == Num(Decimal(n)) && Signed(Decimal(n)) == n
  {
    hide Whole, Parsed, Decimal, Signed;
    NumberIsWhole(Decimal(n));
    DecimalIsToken(n);
  }

  lemma FlagIsRead(w: string)
    requires w == "true" || w == "false"
    ensures Whole(w) && Parsed(w).t == Lit(w)
  {
    hide Whole, Parsed;
    LiteralIsWhole(w);
  }

  /** What the walkers deliver for entry i. */
  lemma StringEntry(es: seq<Entry>, i: nat, s: CString)
    requires WholeEntries(es) && Distinct(es) && i < |es|
    requires es[i].present ==> es[i].v == Quoted(s)
    ensures StringIn(EntryItems(es), es[i].k) == if es[i].present then Some(s) else None
  {
    hide Whole, Parsed, EntryItems, FirstMember, Get, Quoted, Unescape, WholeEntries, Distinct;
    EntryAt(es, i, AString);
    QuotedIsRead(s);
  }

  lemma NumberEntry(es: seq<Entry>, i: nat, n: int)
    requires WholeEntries(es) && Distinct(es) && i < |es|
    requires es[i].present ==> es[i].v == Decimal(n)
    ensures TokenIn(EntryItems(es), es[i].k) == if es[i].present then Some(n) else None
    ensures NumberIn(EntryItems(es), es[i].k) == if es[i].present then Some(Clamp(n)) else None
  {
    hide Whole, Parsed, EntryItems, FirstMember, Get, Decimal, Signed, WholeEntries, NotNamed, Cut;
    EntryAt(es, i, ANumber);
    DecimalIsRead(n);
    DecimalIsToken(n);
    TruncationUnobservable(Decimal(n), NUMBER_ROOM);
  }

  lemma FlagEntry(es: seq<Entry>, i: nat, flag: bool)
    requires WholeEntries(es) && Distinct(es) && i < |es|
    requires es[i].present && es[i].v == if flag then "true" else "false"
    ensures BoolIn(EntryItems(es), es[i].k) == Some(flag)
  {
    hide Whole, Parsed, EntryItems, FirstMember, Get, WholeEntries, Distinct;
    EntryAt(es, i, ABool);
    FlagIsRead(es[i].v);
  }

  /** An entry that holds an array. */
  lemma ArrayEntry(es: seq<Entry>, i: nat, values: seq<string>)
    requires WholeEntries(es) && Distinct(es) && i < |es|
    requires (forall v | v in values :: Whole(v)) && (es[i].present ==> es[i].v == Arr(values))
    ensures var ts := ArrayIn(EntryItems(es), es[i].k);
            if es[i].present then
              ts.Some? && |ts.value| == |values| && forall k | 0 <= k < |values| :: Whole(values[k]) && ts.value[k] == Parsed(values[k]).t
            else ts.None?
  {
    hide Whole, Parsed, EntryItems, FirstMember, Get, Arr, Elements, WholeEntries, Distinct;
    EntryAt(es, i, AnArray);
    ArrayIsRead(values);
  }

  /** An entry that holds an object. */
  lemma ObjectEntry(es: seq<Entry>, i: nat)
    requires WholeEntries(es) && Distinct(es) && i < |es|
    requires es[i].present ==> IsObject(es[i].v)
    ensures ObjectIn(EntryItems(es), es[i].k) == if es[i].present then Some(MembersIn(es[i].v)) else None
  {
    hide Whole, Parsed, EntryItems, FirstMember, Get, WholeEntries, Distinct;
    EntryAt(es, i, AnObject);
  }

  /** An object with one object as its only member. */
  lemma OneMember(name: string, text: string)
    requires IsName(name) && IsObject(text)
    ensures var outer := Obj([Member(name, text)]);
            Whole(outer) && IsNamedObject(Parsed(outer).t) && Parsed(outer).t.items.e.key.raw == name &&
            Parsed(outer).t.items.e.v.items == MembersIn(text)
  {
    hide Whole, Parsed, IsBody, IsName, Obj, Member;
    BodyOfName(name);
    var fs := [NamedText(name, text)];
    assert FieldTexts(fs) == [Member(name, text)];
    ObjParsed(fs);
    assert FieldElems(fs) == [KeyedElem(name, Parsed(text))];
  }
}
