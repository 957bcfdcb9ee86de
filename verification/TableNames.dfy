/** The table list: an array of string literals, copied raw into one growing block, with the slots
    of the name array holding offsets until the block is stable. */
module TableNames {
  import opened Bytes
  import opened Grammar
  import opened Scan
  import opened Parser
  import opened Buffer
  import opened Arena
  import opened QueryDecode
  import opened Strings
  import opened Compose

  // ---- What is decoded ----

  /** One literal, and the white space behind it. */
  function OneName(s: string, i: nat): (r: Res<CString>)
    requires i <= |s|
    ensures r.Good? ==> i < r.pos <= |s|
  {
    var k := Skip(s, i);
    if !Sees(s, k, '"') then Bad else
      match CloseQuote(s, k + 1)
      case None => Bad
      case Some(q) => Good(CStr(s[k + 1..q]), Skip(s, q + 1))
  }

  /** The literals of a non-empty list, up to and including the closing bracket. */
  function NameList(s: string, i: nat): (r: Res<seq<CString>>)
    requires i <= |s|
    ensures r.Good? ==> i < r.pos <= |s|
    decreases |s| - i
  {
    match OneName(s, i)
    case Bad => Bad
    case Good(name, h) =>
      if Sees(s, h, ',') then Prepend([name], NameList(s, h + 1))
      else if Sees(s, h, ']') then Good([name], h + 1)
      else Bad
  }

  /** A body that is no array counts as no tables.  None is MDB_ERR_JSON. */
  function DecodeNames(s: string): Option<seq<CString>> {
    var a := Skip(s, 0);
    if !Sees(s, a, '[') || Sees(s, Skip(s, a + 1), ']') then Some([]) else
      match NameList(s, a + 1)
      case Bad => None
      case Good(names, _) => Some(names)
  }

  // ---- The decoder ----

  /** A slot of the name array: the program stores an offset in the pointer until the end. */
  datatype NameSlot = NullSlot | OffsetSlot(off: nat) | PointerSlot(p: CharPtr)

  /** The first |names| slots are offsets of the names in the block. */
  ghost predicate NamesStored(slots: seq<NameSlot>, arena: string, names: seq<CString>) {
    |names| <= |slots| &&
    forall k | 0 <= k < |names| :: slots[k].OffsetSlot? && StandsAt(arena, slots[k].off, names[k])
  }

  lemma NamesStill(slots: seq<NameSlot>, arena: string, names: seq<CString>, slots': seq<NameSlot>, arena': string)
    requires NamesStored(slots, arena, names) && arena <= arena'
    requires |names| <= |slots'| && slots'[..|names|] == slots[..|names|]
    ensures NamesStored(slots', arena', names)
  {
    forall k | 0 <= k < |names| ensures slots'[k].OffsetSlot? && StandsAt(arena', slots'[k].off, names[k]) {
      assert slots'[k] == slots'[..|names|][k] == slots[..|names|][k];
      StandsStill(arena, slots[k].off, names[k], arena');
    }
  }

  class Names {
    var arr: array<NameSlot>
    var cap: nat
    const blob: Sbuf

    ghost predicate Valid()
      reads this, blob
    {
      arr.Length == cap && blob.Valid()
    }

    ghost predicate Stored(names: seq<CString>)
      reads this, arr, blob, blob.data
    {
      blob.Valid() && NamesStored(arr[..], blob.Contents(), names)
    }

    /** The first |names| slots point to the names in the live block, and a NULL slot follows. */
    ghost predicate Delivered(names: seq<CString>)
      reads this, arr, blob, blob.data
    {
      blob.Valid() && |names| < arr.Length && arr[|names|] == NullSlot &&
      forall k | 0 <= k < |names| ::
        arr[k].PointerSlot? && PtrShows(arr[k].p, blob.data, blob.Contents(), Some(names[k]))
    }

    constructor ()
      ensures Valid() && fresh(blob)
    {
      blob := new Sbuf();
      arr, cap := new NameSlot[0], 0;
    }

    /** Makes room for one more slot: eight at first, then twice as many. */
    method GrowSlots(count: nat, ghost names: seq<CString>)
      requires Valid() && Stored(names) && |names| == count <= cap
      modifies this`arr, this`cap
      ensures Valid() && Stored(names) && count < cap
      ensures arr == old(arr) || fresh(arr)
    {
      ghost var slots := arr[..];
      if cap == 0 {
        arr, cap := new NameSlot[8], 8;
      } else if count == cap {
        arr := Realloc(arr, cap * 2);
        cap := cap * 2;
        assert arr[..][..count] == slots[..count];
        NamesStill(slots, blob.Contents(), names, arr[..], blob.Contents());
      }
    }

    /** One literal: its raw bytes go to the block, its offset to the array. */
    method TakeName(j: JsonParser, count: nat, ghost names: seq<CString>)
      requires Valid() && Stored(names) && |names| == count <= cap && !blob.failed
      requires j.Valid() && j.ok && blob.len + |j.src| + 1 < ROOM
      modifies j, this`arr, this`cap, arr, blob, blob.data
      ensures Valid() && j.Valid() && !blob.failed
      ensures arr == old(arr) || fresh(arr)
      ensures blob.data == old(blob.data) || fresh(blob.data)
      ensures j.ok == OneName(j.src, old(j.p)).Good?
      ensures j.ok ==> old(j.p) < j.p && Skip(j.src, j.p) == OneName(j.src, old(j.p)).pos &&
                       blob.len <= old(blob.len) + (j.p - old(j.p)) && count < cap &&
                       Stored(names + [OneName(j.src, old(j.p)).v])
    {
      hide CloseQuote, NamesStored, StandsAt, RunEnd;
      var ch := j.PeekByte();
      if ch != '"' as int {
        j.ok := false;
        return;
      }
      var start := j.p + 1;
      j.SkipString();
      if !j.ok {
        return;
      }
      StoreName(j.src[start..j.p - 1], count, names);
    }

    method StoreName(raw: string, count: nat, ghost names: seq<CString>)
      requires Valid() && Stored(names) && |names| == count <= cap && !blob.failed
      requires blob.len + |raw| + 1 < ROOM
      modifies this`arr, this`cap, arr, blob, blob.data
      ensures Valid() && !blob.failed
      ensures arr == old(arr) || fresh(arr)
      ensures blob.data == old(blob.data) || fresh(blob.data)
      ensures blob.len == old(blob.len) + |raw| + 1 && count < cap && Stored(names + [CStr(raw)])
    {
      hide NamesStored, StandsAt, NextCapacity;
      ghost var slots, was := arr[..], blob.Contents();
      var base := blob.len;
      var ok := blob.Append(raw);
      ok := blob.Append([NUL]);
      NameAppended(slots, was, names, raw);
      assert blob.Contents() == was + raw + [NUL];
      GrowSlots(count, names);
      ghost var grown := arr[..];
      arr[count] := OffsetSlot(base);
      assert arr[..] == grown[count := OffsetSlot(base)];
      OneMoreName(grown, was, blob.Contents(), names, CStr(raw));
    }

    method TakeNames(j: JsonParser) returns (count: nat, ghost names: seq<CString>)
      requires Valid() && Stored([]) && !blob.failed && blob.len <= j.p
      requires j.Valid() && j.ok && 2 * |j.src| + 1 < ROOM
      modifies j, this`arr, this`cap, arr, blob, blob.data
      ensures Valid() && j.Valid()
      ensures arr == old(arr) || fresh(arr)
      ensures blob.data == old(blob.data) || fresh(blob.data)
      ensures j.ok == NameList(j.src, old(j.p)).Good?
      ensures j.ok ==> names == NameList(j.src, old(j.p)).v && count == |names| <= cap && Stored(names)
    {
      hide OneName, NameList, Names.Stored, Skip, Peek;
      count, names := 0, [];
      ghost var all := NameList(j.src, j.p);
      PrependNothing(all);
      while true
        invariant Valid() && j.Valid() && j.ok && !blob.failed && blob.len <= j.p
        invariant arr == old(arr) || fresh(arr)
        invariant blob.data == old(blob.data) || fresh(blob.data)
        invariant Stored(names) && count == |names| <= cap
        invariant all == Prepend(names, NameList(j.src, j.p))
        decreases |j.src| - j.p
      {
        NameStep(j.src, j.p, names);
        ghost var name := OneName(j.src, j.p);
        TakeName(j, count, names);
        if !j.ok {
          return;
        }
        count := count + 1;
        names := names + [name.v];
        var another := j.NextItem(']');
        if !another {
          return;
        }
      }
    }

    /** Adds the NULL slot and turns offsets into pointers. */
    method Finish(count: nat, ghost names: seq<CString>)
      requires Valid() && Stored(names) && |names| == count <= cap
      modifies this`arr, this`cap, arr
      ensures Valid() && Delivered(names)
    {
      hide StandsAt;
      ghost var before := arr[..];
      if count == cap {
        cap := count + 1;
        arr := Realloc(arr, cap);
        assert arr[..][..count] == before[..count];
        NamesStill(before, blob.Contents(), names, arr[..], blob.Contents());
      }
      arr[count] := NullSlot;
      var block := arr;
      ghost var slots := arr[..];
      NamesStill(if count == |before| then slots else before, blob.Contents(), names, slots, blob.Contents());
      var i := 0;
      while i < count
        invariant i <= count && arr == block && cap == block.Length && arr[count] == NullSlot
        invariant forall k | i <= k < count :: arr[k] == slots[k]
        invariant forall k | 0 <= k < i ::
          arr[k].PointerSlot? && PtrShows(arr[k].p, blob.data, blob.Contents(), Some(names[k]))
      {
        assert slots[i].OffsetSlot? && StandsAt(blob.Contents(), slots[i].off, names[i]);
        arr[i] := PointerSlot(Ptr(blob.data, arr[i].off));
        i := i + 1;
      }
    }

    /** Decodes a table list.  On MDB_OK there is one live pointer per literal, in order, and a NULL
        slot behind them; a body without names delivers no array. */
    method Decode(recv: string) returns (rc: int, count: nat, ghost names: seq<CString>)
      requires Valid() && |recv| <= MAX_RESPONSE_BYTES
      modifies this, blob
      ensures Valid()
      ensures rc == if DecodeNames(recv).None? then MDB_ERR_JSON else MDB_OK
      ensures rc == MDB_OK ==> DecodeNames(recv) == Some(names) && count == |names|
      ensures rc == MDB_OK && names != [] ==> Delivered(names)
      ensures rc == MDB_OK ==> forall k | 0 <= k < count :: arr[k].PointerSlot? && StringRead(arr[k].p) == Some(names[k])
    {
      hide NameList, NamesStored, StandsAt, Skip, Names.Delivered, StringRead;
      blob.Free();
      arr, cap := new NameSlot[0], 0;
      NoNames(arr[..], blob.Contents());
      count, names := 0, [];
      var j := new JsonParser(recv);
      var ch := j.PeekByte();
      if ch != '[' as int {
        return MDB_OK, 0, [];
      }
      j.p := j.p + 1;
      SameNames(recv, j.p);
      j.SkipWhite();
      ch := j.PeekByte();
      if ch == ']' as int {
        return MDB_OK, 0, [];
      }
      rc, count, names := FillNames(j);
    }

    /** The literals of the array, from behind its opening bracket. */
    method FillNames(j: JsonParser) returns (rc: int, count: nat, ghost names: seq<CString>)
      requires Valid() && Stored([]) && !blob.failed && blob.len <= j.p
      requires j.Valid() && j.ok && 2 * |j.src| + 1 < ROOM
      modifies j, this`arr, this`cap, arr, blob, blob.data
      ensures Valid()
      ensures rc == if NameList(j.src, old(j.p)).Bad? then MDB_ERR_JSON else MDB_OK
      ensures rc == MDB_OK ==> names == NameList(j.src, old(j.p)).v && count == |names| && Delivered(names)
      ensures rc == MDB_OK ==> forall k | 0 <= k < count :: arr[k].PointerSlot? && StringRead(arr[k].p) == Some(names[k])
    {
      hide NameList, Names.Stored, Names.Delivered, StringRead;
      count, names := TakeNames(j);
      if !j.ok {
        return MDB_ERR_JSON, 0, [];
      }
      Finish(count, names);
      NamesAreRead(names);
      rc := MDB_OK;
    }

    /** The caller reads exactly the names. */
    lemma NamesAreRead(names: seq<CString>)
      requires Delivered(names)
      ensures |names| < arr.Length
      ensures forall k | 0 <= k < |names| :: arr[k].PointerSlot? && StringRead(arr[k].p) == Some(names[k])
    {
      hide PtrShows, StringRead;
      forall k | 0 <= k < |names| ensures arr[k].PointerSlot? && StringRead(arr[k].p) == Some(names[k]) {
        ShownIsRead(arr[k].p, blob, Some(names[k]));
      }
    }
  }

  lemma NoNames(slots: seq<NameSlot>, arena: string)
    ensures NamesStored(slots, arena, [])
  {}

  lemma SameNames(s: string, i: nat)
    requires i <= |s|
    ensures Skip(s, Skip(s, i)) == Skip(s, i) && NameList(s, i) == NameList(s, Skip(s, i))
  {
    hide OneName;
    SameName(s, i);
  }

  lemma SameName(s: string, i: nat)
    requires i <= |s|
    ensures Skip(s, Skip(s, i)) == Skip(s, i) && OneName(s, i) == OneName(s, Skip(s, i))
  {
    hide RunEnd, CloseQuote;
    SkipIdempotent(s, i);
  }

  lemma NameAppended(slots: seq<NameSlot>, was: string, names: seq<CString>, raw: string)
    requires NamesStored(slots, was, names)
    ensures var arena := was + raw + [NUL]; NamesStored(slots, arena, names) && StandsAt(arena, |was|, CStr(raw))
  {
    var arena := was + raw + [NUL];
    NamesStill(slots, was, names, slots, arena);
    var s := CStr(raw);
    assert arena[|was|..|was| + |s|] == raw[..|s|] == s;
    if |s| < |raw| { assert arena[|was| + |s|] == raw[|s|]; }
  }

  lemma OneMoreName(slots: seq<NameSlot>, was: string, arena: string, names: seq<CString>, s: CString)
    requires NamesStored(slots, arena, names) && |names| < |slots| && StandsAt(arena, |was|, s)
    ensures NamesStored(slots[|names| := OffsetSlot(|was|)], arena, names + [s])
  {
    hide StandsAt;
    var slots' := slots[|names| := OffsetSlot(|was|)];
    forall k | 0 <= k < |names| + 1 ensures slots'[k].OffsetSlot? && StandsAt(arena, slots'[k].off, (names + [s])[k]) {
      if k < |names| { assert slots'[k] == slots[k]; }
    }
  }

  /** One turn of the loop, after the names in more. */
  lemma NameStep(s: string, i: nat, more: seq<CString>)
    requires i <= |s|
    ensures Prepend(more, NameList(s, i)) ==
            match OneName(s, i)
            case Bad => Bad
            case Good(name, h) =>
              if Sees(s, h, ',') then Prepend(more + [name], NameList(s, h + 1))
              else if Sees(s, h, ']') then Good(more + [name], h + 1)
              else Bad
  {
    hide OneName;
    var r := OneName(s, i);
    if r.Good? && Sees(s, r.pos, ',') && NameList(s, r.pos + 1).Good? {
      assert more + ([r.v] + NameList(s, r.pos + 1).v) == (more + [r.v]) + NameList(s, r.pos + 1).v;
    }
  }

  // ---- The meaning of a well-formed list ----

  /** The raw bytes of the literals, not unescaped. */
  function NamesOf(x: Items): Option<seq<CString>> {
    match x
    case Empty(_) => Some([])
    case Last(e) => if e.v.Str? then Some([CStr(e.v.body)]) else None
    case More(e, rest) =>
      if e.v.Str? && NamesOf(rest).Some? then Some([CStr(e.v.body)] + NamesOf(rest).value) else None
  }

  lemma LiteralElement(s: string, i: nat, e: Elem, f: nat)
    requires i <= |s| && Element(s, i, false) == Good(e, f)
    ensures OneName(s, i) == if e.v.Str? then Good(CStr(e.v.body), f) else Bad
  {
    hide At, ItemList, Element, RunEnd, Text, WF, CloseQuote, CStr;
    ElementIs(s, i, false, e, f);
    FirstByte(e.v);
    AtChar(s, Skip(s, i), Text(e.v), 0);
  }

  lemma {:induction false} NameListOf(s: string, i: nat, x: Items)
    requires !x.Empty? && WFItems(x, false) && At(s, i, ItemsText(x)) && Sees(s, i + |ItemsText(x)|, ']')
    ensures NameList(s, i) == ToRes(NamesOf(x), i + |ItemsText(x)| + 1)
    decreases x
  {
    hide At, Element, ItemsText, ElemText, OneName, Text, Value, WFElem, ItemList, CStr;
    ListHead(s, i, x, false);
    var f := i + |ElemText(x.e)|;
    LiteralElement(s, i, x.e, f);
    if x.More? { NameListOf(s, f + 1, x.rest); }
  }

  /** A response that holds a well-formed array decodes to one entry per literal, in order; an
      element that is no string is an error. */
  lemma NamesAreLiterals(s: string, x: Items)
    requires WFItems(x, false) && At(s, Skip(s, 0), Text(Node(false, x)))
    ensures DecodeNames(s) == NamesOf(x)
  {
    hide At, ElemText, RunEnd, NameList, WFElem, CloseQuote, NamesOf;
    var a := Skip(s, 0);
    NodeParts(s, a, false, x);
    if x.Empty? {
      SkipBlank(s, a + 1, x.blank);
      assert NamesOf(x) == Some([]) by { NoLiterals(x); }
    } else {
      ListParts(s, a + 1, x);
      ElementStart(s, a + 1, x.e, false);
      NameListOf(s, a + 1, x);
    }
  }

  /** A list of names that is accepted is a list of the grammar. */
  lemma {:induction false} NameListIsList(s: string, i: nat)
    requires i <= |s| && NameList(s, i).Good?
    ensures ItemList(s, i, false).Good?
    decreases |s| - i
  {
    hide CloseQuote, CStr, RunEnd;
    SkipIdempotent(s, i);
    var h := OneName(s, i).pos;
    assert Element(s, i, false).Good? && Element(s, i, false).pos == h;
    if Sees(s, h, ',') { NameListIsList(s, h + 1); }
  }

  /** Whatever the response: no array, no names; an array that breaks off is an error; a well-formed one
      gives its literals. */
  lemma NamesExact(s: string)
    ensures DecodeNames(s) ==
            if !Sees(s, Skip(s, 0), '[') then Some([])
            else if Value(s, 0).Bad? then None
            else NamesOf(Value(s, 0).v.items)
  {
    hide At, ItemList, Element, RunEnd, NameList, NamesOf, Text, WFItems;
    var a := Skip(s, 0);
    SkipIdempotent(s, 0);
    if Sees(s, a, '[') {
      if Value(s, 0).Good? {
        ValueSound(s, 0);
        ArrayNode(s);
        NamesAreLiterals(s, Value(s, 0).v.items);
      } else if NameList(s, a + 1).Good? {
        NameListIsList(s, a + 1);
      }
    }
  }

  lemma ArrayNode(s: string)
    requires Sees(s, Skip(s, 0), '[') && Value(s, 0).Good?
    ensures var t := Value(s, 0).v; t.Node? && !t.keyed && t == Node(false, t.items) && WFItems(t.items, false)
  {
    hide At, ItemList, Element, RunEnd, Text;
    ValueSound(s, 0);
  }

  lemma NoLiterals(x: Items)
    requires x.Empty?
    ensures NamesOf(x) == Some([])
  {}

  // ---- Names that come back ----

  /** The response for a list of names, as a server that escapes them sends it. */
  function NamesBody(names: seq<CString>): string {
    Arr(QuotedTexts(names))
  }

  function QuotedTexts(names: seq<CString>): seq<string> {
    seq(|names|, k requires 0 <= k < |names| => Quoted(names[k]))
  }

  /** The names in escaped form. */
  function EscapedNames(names: seq<CString>): seq<CString> {
    seq(|names|, k requires 0 <= k < |names| => CStr(Escaped(names[k])))
  }

  predicate NeedsNoEscape(name: string) {
    forall c | c in name :: c >= ' ' && c != '"' && c != '\\'
  }

  lemma ByteLength(c: char)
    ensures |EscapedByte(c)| >= 1
    ensures |EscapedByte(c)| == 1 <==> c >= ' ' && c != '"' && c != '\\'
    ensures |EscapedByte(c)| == 1 ==> EscapedByte(c) == [c]
  {}

  lemma {:induction false} EscapedLength(s: string)
    ensures |Escaped(s)| >= |s|
    ensures |Escaped(s)| == |s| ==> NeedsNoEscape(s)
    ensures NeedsNoEscape(s) ==> Escaped(s) == s
  {
    hide EscapedByte;
    if s != "" {
      ByteLength(s[0]);
      assert s == [s[0]] + s[1..];
      EscapedLength(s[1..]);
      if NeedsNoEscape(s) {
        assert s[0] in s && forall c | c in s[1..] :: c in s;
      }
    }
  }

  lemma {:induction false} EscapedHasNoNul(s: CString)
    ensures NUL !in Escaped(s)
  {
    if s != "" { EscapedHasNoNul(s[1..]); }
  }

  lemma {:induction false} QuotedNames(names: seq<CString>)
    ensures forall x | x in QuotedTexts(names) :: Whole(x)
    ensures NamesOf(ItemsFrom(ValueElems(QuotedTexts(names)))) == Some(EscapedNames(names))
  {
    hide Whole, Parsed, Escaped, Quoted, CStr;
    var texts := QuotedTexts(names);
    forall x | x in texts ensures Whole(x) {
      var k :| 0 <= k < |texts| && texts[k] == x;
      QuotedIsWhole(names[k]);
    }
    if names == [] {
      assert ValueElems(texts) == [] && EscapedNames(names) == [];
    } else {
      var rest := names[1..];
      QuotedNames(rest);
      QuotedIsWhole(names[0]);
      assert texts[1..] == QuotedTexts(rest);
      assert ValueElems(texts)[1..] == ValueElems(QuotedTexts(rest));
      assert EscapedNames(names) == [CStr(Escaped(names[0]))] + EscapedNames(rest);
      if rest == [] { assert EscapedNames(names) == [CStr(Escaped(names[0]))]; }
    }
  }

  /** Names are delivered in escaped form: a list of names comes back unchanged exactly when none of
      them has a byte that JSON escapes. */
  lemma NamesReadBack(names: seq<CString>)
    ensures DecodeNames(NamesBody(names)) == Some(EscapedNames(names))
    ensures DecodeNames(NamesBody(names)) == Some(names) <==> forall n | n in names :: NeedsNoEscape(n)
  {
    hide DecodeNames, NamesOf, Whole, Arr, NeedsNoEscape, Escaped, CStr;
    QuotedNames(names);
    BodyHolds(names);
    forall k | 0 <= k < |names| ensures EscapedNames(names)[k] == names[k] <==> NeedsNoEscape(names[k]) {
      EscapedLength(names[k]);
      EscapedHasNoNul(names[k]);
      CStrWhole(Escaped(names[k]), "");
    }
    if EscapedNames(names) == names {
      forall n | n in names ensures NeedsNoEscape(n) {
        var k :| 0 <= k < |names| && names[k] == n;
        assert EscapedNames(names)[k] == names[k];
      }
    }
    if forall n | n in names :: NeedsNoEscape(n) {
      forall k | 0 <= k < |names| ensures EscapedNames(names)[k] == names[k] { assert names[k] in names; }
      assert EscapedNames(names) == names;
    }
  }

  lemma BodyHolds(names: seq<CString>)
    requires forall x | x in QuotedTexts(names) :: Whole(x)
    ensures DecodeNames(NamesBody(names)) == NamesOf(ItemsFrom(ValueElems(QuotedTexts(names))))
  {
    hide DecodeNames, NamesOf, Value, Text, WF, QuotedTexts, Skip, At;
    var texts := QuotedTexts(names);
    var x := ItemsFrom(ValueElems(texts));
    var s := NamesBody(names);
    ArrParsed(texts);
    ValueSound(s, 0);
    assert Value(s, 0).v == Node(false, x);
    hide ItemsFrom, ValueElems;
    assert WFItems(x, false) by { NodeIsWF(false, x); }
    NamesAreLiterals(s, x);
  }

  lemma NodeIsWF(keyed: bool, x: Items)
    requires WF(Node(keyed, x))
    ensures WFItems(x, keyed)
  {}
}
