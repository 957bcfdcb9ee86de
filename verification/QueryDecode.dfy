/** What a /kit/query response decodes to.

    `DecodeQuery` follows the decoder's loops on the bytes of the response; `QueryOf` is the short
    recursive meaning of a well-formed response.  `DecodeIsMeaning` connects the two.
 */
module QueryDecode {
  import opened Bytes
  import opened Grammar
  import opened Scan
  import opened Strings
  import opened Numbers
  import opened Lookup

  /** A decoded value as the caller reads it: strings and JSON through their C string pointer, a
      double as the text given to strtod. */
  datatype Val =
    | NullVal
    | BoolVal(b: bool)
    | Int64Val(i: int64)
    | DoubleVal(text: string)
    | StringVal(s: CString)
    | JsonVal(s: CString)

  datatype Cell = Cell(id: int64, value: Val)

  type Row = seq<Cell>

  predicate LooksIntegral(w: string) {
    forall k | 0 <= k < |w| :: w[k] != '.' && w[k] != 'e' && w[k] != 'E'
  }

  function NumberVal(run: string): Val {
    var buf := Cut(run, NUMBER_ROOM);
    if LooksIntegral(buf) then Int64Val(StrToInt64(buf)) else DoubleVal(buf)
  }

  /** The value a tree decodes to. */
  function ValOf(t: Tree): Val {
    match t
    case Str(body) => StringVal(CStr(Unescape(body)))
    case Num(run) => NumberVal(run)
    case Lit(run) => if run != "" && run[0] != 'n' then BoolVal(run == "true") else NullVal
    case Node(_, _) => JsonVal(CStr(Text(t)))
  }

  function ColumnId(run: string): int64 {
    StrToInt64(Cut(run, ID_ROOM))
  }

  // ---- The decoder's loops ----

  /** One id and value of a flat cells array, and the white space behind it.  The comma between
      the two is optional. */
  function Pair(s: string, i: nat): (r: Res<Cell>)
    requires i <= |s|
    ensures r.Good? ==> i < r.pos <= |s|
  {
    var k := Skip(s, i);
    if k == |s| || !StartsNumber(s[k]) then Bad else
      var e := RunEnd(s, k, NumberRun);
      var f := Skip(s, e);
      match Value(s, if Sees(s, f, ',') then f + 1 else f)
      case Bad => Bad
      case Good(t, q) => Good(Cell(ColumnId(s[k..e]), ValOf(t)), Skip(s, q))
  }

  function CellList(s: string, i: nat): (r: Res<seq<Cell>>)
    requires i <= |s|
    ensures r.Good? ==> i < r.pos <= |s|
    decreases |s| - i
  {
    match Pair(s, i)
    case Bad => Bad
    case Good(cell, h) =>
      if Sees(s, h, ',') then Prepend([cell], CellList(s, h + 1))
      else if Sees(s, h, ']') then Good([cell], h + 1)
      else Bad
  }

  function CellArray(s: string, i: nat): (r: Res<seq<Cell>>)
    requires i <= |s|
    ensures r.Good? ==> i < r.pos <= |s|
  {
    var k := Skip(s, i);
    if Sees(s, k, ']') then Good([], k + 1) else CellList(s, i)
  }

  /** The value of a row's member at c: cells if it is a cells array, otherwise it is skipped. */
  function MemberCells(s: string, key: string, c: nat): (r: Res<seq<Cell>>)
    requires c <= |s|
    ensures r.Good? ==> c < r.pos <= |s|
  {
    if key == "cells" && Sees(s, c, '[') then CellArray(s, c + 1) else
      match Value(s, c)
      case Bad => Bad
      case Good(_, e) => Good([], e)
  }

  /** One member of a row object, and the white space behind it. */
  function RowMember(s: string, i: nat): (r: Res<seq<Cell>>)
    requires i <= |s|
    ensures r.Good? ==> i < r.pos <= |s|
  {
    match MemberKey(s, Skip(s, i))
    case Bad => Bad
    case Good(k, c) =>
      match MemberCells(s, k.raw, c)
      case Bad => Bad
      case Good(cells, e) => Good(cells, Skip(s, e))
  }

  /** The members of a row object; every cells array among them contributes its cells. */
  function MemberList(s: string, i: nat): (r: Res<seq<Cell>>)
    requires i <= |s|
    ensures r.Good? ==> i < r.pos <= |s|
    decreases |s| - i
  {
    match RowMember(s, i)
    case Bad => Bad
    case Good(cells, f) =>
      if Sees(s, f, ',') then Prepend(cells, MemberList(s, f + 1))
      else if Sees(s, f, '}') then Good(cells, f + 1)
      else Bad
  }

  /** A row object, from its opening brace. */
  function RowAt(s: string, i: nat): (r: Res<Row>)
    requires i <= |s|
    ensures r.Good? ==> i < r.pos <= |s|
  {
    var k := Skip(s, i);
    if !Sees(s, k, '{') then Bad else
      var first := Skip(s, k + 1);
      if Sees(s, first, '}') then Good([], first + 1) else MemberList(s, k + 1)
  }

  /** The rows of a non-empty rows array, up to its closing bracket. */
  function RowList(s: string, i: nat): (r: Res<seq<Row>>)
    requires i <= |s|
    ensures r.Good? ==> i < r.pos <= |s|
    decreases |s| - i
  {
    match RowAt(s, i)
    case Bad => Bad
    case Good(row, e) =>
      var h := Skip(s, e);
      if Sees(s, h, ',') then Prepend([row], RowList(s, h + 1))
      else if Sees(s, h, ']') then Good([row], h)
      else Bad
  }

  datatype Answer = JsonError | Rows(rows: seq<Row>, truncated: bool)

  function RowArray(s: string, i: nat, truncated: bool): Answer
    requires i <= |s|
  {
    if Sees(s, Skip(s, i), ']') then Rows([], truncated) else
      match RowList(s, i)
      case Bad => JsonError
      case Good(rows, _) => Rows(rows, truncated)
  }

  /** The search for the rows array.  Anything but a non-empty object has none. */
  function FindRows(s: string): (r: Lookup)
    ensures r.Found? ==> r.at < |s| && s[r.at] == '['
  {
    var a := Skip(s, 0);
    if !Sees(s, a, '{') || Sees(s, Skip(s, a + 1), '}') then Missing else Find(s, a + 1, "rows", AnArray)
  }

  /** What the decoder makes of a response body. */
  function DecodeQuery(s: string): Answer {
    var truncated := BoolField(s, "truncated").v;
    match FindRows(s)
    case Refused => JsonError
    case Missing => Rows([], truncated)
    case Found(c) => RowArray(s, c + 1, truncated)
  }

  // ---- The meaning of a well-formed response ----

  /** A flat list of ids and values. */
  function CellsOf(x: Items): Option<seq<Cell>> {
    match x
    case Empty(_) => Some([])
    case Last(_) => None
    case More(id, Empty(_)) => None
    case More(id, Last(e)) => if id.v.Num? then Some([Cell(ColumnId(id.v.run), ValOf(e.v))]) else None
    case More(id, More(e, rest)) =>
      if id.v.Num? && CellsOf(rest).Some?
      then Some([Cell(ColumnId(id.v.run), ValOf(e.v))] + CellsOf(rest).value)
      else None
  }

  function MemberCellsOf(e: Elem): Option<seq<Cell>> {
    if e.key.Key? && e.key.raw == "cells" && IsKind(e.v, AnArray) then CellsOf(e.v.items) else Some([])
  }

  function RowOf(x: Items): Option<Row> {
    match x
    case Empty(_) => Some([])
    case Last(e) => MemberCellsOf(e)
    case More(e, rest) =>
      if MemberCellsOf(e).Some? && RowOf(rest).Some? then Some(MemberCellsOf(e).value + RowOf(rest).value) else None
  }

  function RowsOf(x: Items): Option<seq<Row>> {
    match x
    case Empty(_) => Some([])
    case Last(e) => if IsKind(e.v, AnObject) && RowOf(e.v.items).Some? then Some([RowOf(e.v.items).value]) else None
    case More(e, rest) =>
      if IsKind(e.v, AnObject) && RowOf(e.v.items).Some? && RowsOf(rest).Some?
      then Some([RowOf(e.v.items).value] + RowsOf(rest).value)
      else None
  }

  /** The meaning of a response object with members x. */
  function QueryOf(x: Items): Answer {
    var truncated := Or(BoolIn(x, "truncated"), false);
    match FirstMember(x, "rows", AnArray)
    case Some(Node(_, rows)) => (match RowsOf(rows) case None => JsonError case Some(rs) => Rows(rs, truncated))
    case _ => Rows([], truncated)
  }

  function ToRes<T>(o: Option<T>, pos: nat): Res<T> {
    match o
    case None => Bad
    case Some(v) => Good(v, pos)
  }

  lemma NumberElement(s: string, i: nat, e: Elem, f: nat)
    requires i <= |s| && Element(s, i, false) == Good(e, f)
    ensures var k := Skip(s, i);
            k < |s| && (e.v.Num? <==> StartsNumber(s[k])) &&
            (e.v.Num? ==> s[k..RunEnd(s, k, NumberRun)] == e.v.run && Skip(s, RunEnd(s, k, NumberRun)) == f)
  {
    hide At, ItemList, Element, RunEnd, Text, WF, CloseQuote;
    ElementIs(s, i, false, e, f);
    FirstByte(e.v);
    AtChar(s, Skip(s, i), Text(e.v), 0);
  }

  /** An id and its value in a well-formed list are one pair of the decoder. */
  lemma PairOf(s: string, i: nat, x: Items)
    requires !x.Empty? && WFItems(x, false) && At(s, i, ItemsText(x)) && Sees(s, i + |ItemsText(x)|, ']')
    ensures x.Last? || !x.e.v.Num? ==> Pair(s, i) == Bad
    ensures x.More? && x.e.v.Num? ==>
              var g := i + |ElemText(x.e)| + 1; var h := g + |ElemText(x.rest.e)|;
              At(s, g, ItemsText(x.rest)) && Sees(s, g + |ItemsText(x.rest)|, ']') && WFItems(x.rest, false) &&
              Pair(s, i) == Good(Cell(ColumnId(x.e.v.run), ValOf(x.rest.e.v)), h)
  {
    hide At, Value, ItemList, Element, RunEnd, Text, ElemText, ItemsText, CloseQuote, ValOf, ColumnId, WFElem;
    ListHead(s, i, x, false);
    var f := i + |ElemText(x.e)|;
    NumberElement(s, i, x.e, f);
    if x.e.v.Num? {
      var k := Skip(s, i);
      assert Sees(s, f, ',') == x.More?;
      PairIs(s, i, x.e.v.run, f);
      if x.Last? {
        CloserIsNoValue(s, f);
      } else {
        ListHead(s, f + 1, x.rest, false);
        ElementIs(s, f + 1, false, x.rest.e, f + 1 + |ElemText(x.rest.e)|);
        SkipIdempotent(s, f + 1);
      }
    }
  }

  /** A pair whose number token, followed by white space, ends at f. */
  lemma PairIs(s: string, i: nat, run: string, f: nat)
    requires i <= |s|
    requires var k := Skip(s, i);
             k < |s| && StartsNumber(s[k]) && s[k..RunEnd(s, k, NumberRun)] == run && Skip(s, RunEnd(s, k, NumberRun)) == f
    ensures var g := if Sees(s, f, ',') then f + 1 else f;
            Pair(s, i) ==
            if Value(s, g).Bad? then Bad
            else Good(Cell(ColumnId(run), ValOf(Value(s, g).v)), Skip(s, Value(s, g).pos))
  {
    hide Value, ValOf, ColumnId, RunEnd;
  }

  lemma CloserIsNoValue(s: string, f: nat)
    requires Sees(s, f, ']')
    ensures Value(s, f) == Bad
  {}

  lemma {:induction false} CellListOf(s: string, i: nat, x: Items)
    requires !x.Empty? && WFItems(x, false) && At(s, i, ItemsText(x)) && Sees(s, i + |ItemsText(x)|, ']')
    ensures CellList(s, i) == ToRes(CellsOf(x), i + |ItemsText(x)| + 1)
    decreases x
  {
    hide At, Pair, ItemsText, ElemText, RunEnd, ValOf, Cut, Signed, WFElem, Text, Value, Element, ItemList, StrToInt64;
    PairOf(s, i, x);
    if x.More? && x.e.v.Num? {
      var g := i + |ElemText(x.e)| + 1;
      ListHead(s, i, x, false);
      ListHead(s, g, x.rest, false);
      if x.rest.More? {
        CellListOf(s, g + |ElemText(x.rest.e)| + 1, x.rest.rest);
      }
    }
  }

  lemma CellArrayOf(s: string, c: nat, t: Tree)
    requires IsKind(t, AnArray) && WF(t) && At(s, c, Text(t))
    ensures Sees(s, c, '[') && CellArray(s, c + 1) == ToRes(CellsOf(t.items), c + |Text(t)|)
  {
    hide CellList, ElemText, RunEnd, CellsOf;
    NodeParts(s, c, false, t.items);
    if t.items.Empty? {
      SkipBlank(s, c + 1, t.items.blank);
      assert CellsOf(t.items) == Some([]) by { EmptyHasNoCells(t.items); }
    } else {
      ListParts(s, c + 1, t.items);
      ElementStart(s, c + 1, t.items.e, false);
      CellListOf(s, c + 1, t.items);
    }
  }

  lemma EmptyHasNoCells(x: Items)
    requires x.Empty?
    ensures CellsOf(x) == Some([])
  {}

  lemma NodeParts(s: string, a: nat, keyed: bool, x: Items)
    requires At(s, a, Text(Node(keyed, x)))
    ensures Sees(s, a, Open(keyed)) && At(s, a + 1, ItemsText(x)) && Sees(s, a + 1 + |ItemsText(x)|, Close(keyed))
    ensures |Text(Node(keyed, x))| == |ItemsText(x)| + 2
  {
    AtSplit(s, a, [Open(keyed)], ItemsText(x) + [Close(keyed)]);
    AtChar(s, a, [Open(keyed)], 0);
    AtSplit(s, a + 1, ItemsText(x), [Close(keyed)]);
    AtChar(s, a + 1 + |ItemsText(x)|, [Close(keyed)], 0);
  }

  lemma MemberCellsAre(s: string, c: nat, e: Elem)
    requires e.key.Key? && WF(e.v) && At(s, c, Text(e.v)) && Value(s, c) == Good(e.v, c + |Text(e.v)|)
    ensures MemberCells(s, e.key.raw, c) == ToRes(MemberCellsOf(e), c + |Text(e.v)|)
  {
    hide CellArray, CellsOf, Value, Text, WF;
    KindByFirstByte(e.v, AnArray);
    AtChar(s, c, Text(e.v), 0);
    if e.key.raw == "cells" && IsKind(e.v, AnArray) {
      CellArrayOf(s, c, e.v);
    }
  }

  lemma RowMemberIs(s: string, i: nat, e: Elem, f: nat)
    requires i <= |s| && Element(s, i, true) == Good(e, f)
    ensures RowMember(s, i) == ToRes(MemberCellsOf(e), f)
  {
    hide At, Text, RunEnd, MemberCells, MemberCellsOf, MemberKey, Value, WF, Element;
    ElementIs(s, i, true, e, f);
    MemberCellsAre(s, MemberKey(s, Skip(s, i)).pos, e);
  }

  lemma {:induction false} MemberListOf(s: string, i: nat, x: Items)
    requires !x.Empty? && WFItems(x, true) && At(s, i, ItemsText(x)) && Sees(s, i + |ItemsText(x)|, '}')
    ensures MemberList(s, i) == ToRes(RowOf(x), i + |ItemsText(x)| + 1)
    decreases x
  {
    hide At, ItemsText, ElemText, RunEnd, RowMember, MemberCellsOf, WFElem, Element;
    ListHead(s, i, x, true);
    var f := i + |ElemText(x.e)|;
    RowMemberIs(s, i, x.e, f);
    if x.More? {
      MemberListOf(s, f + 1, x.rest);
    }
  }

  lemma RowAtOf(s: string, i: nat, e: Elem, f: nat)
    requires i <= |s| && Element(s, i, false) == Good(e, f)
    ensures IsKind(e.v, AnObject) ==> RowAt(s, i) == ToRes(RowOf(e.v.items), Skip(s, i) + |Text(e.v)|)
    ensures !IsKind(e.v, AnObject) ==> RowAt(s, i) == Bad
  {
    hide At, ElemText, RunEnd, MemberList, RowOf, Value, Element, ItemsText, CloseQuote, MemberKey;
    ElementIs(s, i, false, e, f);
    KindByFirstByte(e.v, AnObject);
    var k := Skip(s, i);
    AtChar(s, k, Text(e.v), 0);
    if IsKind(e.v, AnObject) {
      var x := e.v.items;
      NodeParts(s, k, true, x);
      if x.Empty? {
        EmptyNode(s, k + 1, x);
      } else {
        ListParts(s, k + 1, x);
        ElementStart(s, k + 1, x.e, true);
        MemberListOf(s, k + 1, x);
      }
    }
  }

  lemma EmptyNode(s: string, i: nat, x: Items)
    requires x.Empty? && Blank(x.blank) && At(s, i, ItemsText(x))
    requires i + |ItemsText(x)| < |s| && !IsWhite(s[i + |ItemsText(x)|])
    ensures Skip(s, i) == i + |ItemsText(x)| && RowOf(x) == Some([]) && RowsOf(x) == Some([])
  {
    SkipBlank(s, i, x.blank);
  }

  lemma {:induction false} RowListOf(s: string, i: nat, x: Items)
    requires !x.Empty? && WFItems(x, false) && At(s, i, ItemsText(x)) && Sees(s, i + |ItemsText(x)|, ']')
    ensures RowList(s, i) == ToRes(RowsOf(x), i + |ItemsText(x)|)
    decreases x
  {
    hide At, ItemsText, ElemText, Text, RunEnd, RowAt, RowOf, Value, WF, ItemList, Element;
    ListHead(s, i, x, false);
    var f := i + |ElemText(x.e)|;
    ElementIs(s, i, false, x.e, f);
    RowAtOf(s, i, x.e, f);
    if x.More? {
      RowListOf(s, f + 1, x.rest);
    }
  }

  lemma RowArrayOf(s: string, c: nat, t: Tree, truncated: bool)
    requires IsKind(t, AnArray) && WF(t) && At(s, c, Text(t))
    ensures RowArray(s, c + 1, truncated) ==
            match RowsOf(t.items) case None => JsonError case Some(rs) => Rows(rs, truncated)
  {
    hide ElemText, RunEnd, RowList, RowsOf, ItemsText, At, Text;
    var x := t.items;
    NodeParts(s, c, false, x);
    if x.Empty? {
      EmptyNode(s, c + 1, x);
    } else {
      ListParts(s, c + 1, x);
      ElementStart(s, c + 1, x.e, false);
      RowListOf(s, c + 1, x);
    }
  }

  /** Decoding a response that holds a well-formed object yields the object's meaning, errors
      included, whatever white space it contains and whatever follows it. */
  lemma DecodeIsMeaning(s: string, x: Items)
    requires HoldsObject(s, x)
    ensures DecodeQuery(s) == QueryOf(x)
  {
    hide At, Text, ElemText, RunEnd, RowArray, RowsOf, Find, Value, WF, BoolField, BoolIn, FirstMember, WFElem;
    WalkersSeeDepthOne(s, x, "truncated");
    FindTopIsFirstMember(s, x, "rows", AnArray);
    FirstMemberKind(x, "rows", AnArray);
    var a := Skip(s, 0);
    ObjectParts(s, a, x);
    if x.Empty? {
      EmptyNode(s, a + 1, x);
      assert FirstMember(x, "rows", AnArray) == None by { NothingInEmpty(x, "rows", AnArray); }
    } else {
      ListParts(s, a + 1, x);
      ElementStart(s, a + 1, x.e, true);
      var r := FindTop(s, "rows", AnArray);
      if r.Found? {
        ValueSound(s, r.at);
        RowArrayOf(s, r.at, FirstMember(x, "rows", AnArray).value, Or(BoolIn(x, "truncated"), false));
      }
    }
  }

  // ---- Responses of any kind ----

  /** A cells array that is accepted is closed. */
  lemma {:induction false} CellsAreClosed(s: string, i: nat)
    requires i <= |s|
    ensures CellList(s, i).Good? ==> Sees(s, CellList(s, i).pos - 1, ']')
    ensures CellArray(s, i).Good? ==> Sees(s, CellArray(s, i).pos - 1, ']')
    decreases |s| - i
  {
    hide Pair, RunEnd;
    match Pair(s, i) {
      case Bad =>
      case Good(_, h) => if Sees(s, h, ',') { CellsAreClosed(s, h + 1); }
    }
  }

  /** A row that is accepted is closed. */
  lemma {:induction false} MembersAreClosed(s: string, i: nat)
    requires i <= |s|
    ensures MemberList(s, i).Good? ==> Sees(s, MemberList(s, i).pos - 1, '}')
    decreases |s| - i
  {
    hide RowMember;
    match RowMember(s, i) {
      case Bad =>
      case Good(_, f) => if Sees(s, f, ',') { MembersAreClosed(s, f + 1); }
    }
  }

  lemma RowIsClosed(s: string, i: nat)
    requires i <= |s|
    ensures RowAt(s, i).Good? ==> Sees(s, Skip(s, i), '{') && Sees(s, RowAt(s, i).pos - 1, '}')
  {
    hide MemberList, RunEnd;
    if Sees(s, Skip(s, i), '{') { MembersAreClosed(s, Skip(s, i) + 1); }
  }

  /** A rows array that is accepted is closed where the decoder stops. */
  lemma {:induction false} RowsAreClosed(s: string, i: nat)
    requires i <= |s|
    ensures RowList(s, i).Good? ==> Sees(s, RowList(s, i).pos, ']')
    decreases |s| - i
  {
    hide RowAt, RunEnd;
    match RowAt(s, i) {
      case Bad =>
      case Good(_, e) => if Sees(s, Skip(s, e), ',') { RowsAreClosed(s, Skip(s, e) + 1); }
    }
  }

  /** Anything but an object, and the empty object, is no error and has no rows. */
  lemma NoObjectHasNoRows(s: string)
    requires var a := Skip(s, 0); !Sees(s, a, '{') || Sees(s, Skip(s, a + 1), '}')
    ensures DecodeQuery(s) == Rows([], false)
  {
    hide RunEnd;
  }

  /** In any other response, the decoder finds no rows array and no error exactly when the whole object
      is well-formed and has none. */
  lemma NoRowsArray(s: string)
    requires var a := Skip(s, 0); Sees(s, a, '{') && !Sees(s, Skip(s, a + 1), '}')
    ensures FindRows(s) == Missing <==>
            var r := Value(s, 0);
            r.Good? && r.v.Node? && r.v.keyed && !r.v.items.Empty? && FirstMember(r.v.items, "rows", AnArray) == None
    ensures FindRows(s) == Missing ==> DecodeQuery(s) == Rows([], BoolField(s, "truncated").v)
    ensures FindRows(s) == Refused ==> DecodeQuery(s) == JsonError
  {
    hide RunEnd, Find, BoolField, Value, RowList, FirstMember;
    TopMissingExact(s, "rows", AnArray);
  }

  /** A rows array that the decoder finds and accepts is closed. */
  lemma FoundArrayIsClosed(s: string, c: nat)
    requires FindRows(s) == Found(c) && DecodeQuery(s).Rows?
    ensures c < |s| && s[c] == '['
    ensures if DecodeQuery(s).rows == [] then Sees(s, Skip(s, c + 1), ']')
            else RowList(s, c + 1).Good? && RowList(s, c + 1).v == DecodeQuery(s).rows &&
                 Sees(s, RowList(s, c + 1).pos, ']')
  {
    hide FindRows, BoolField, RowList, Skip;
    RowsAreClosed(s, c + 1);
    RowsAreSome(s, c + 1);
  }

  lemma RowsAreSome(s: string, i: nat)
    requires i <= |s|
    ensures RowList(s, i).Good? ==> RowList(s, i).v != []
  {
    hide RowAt, RunEnd;
  }
}
