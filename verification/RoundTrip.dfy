/** Writing rows and decoding them again, and what a decoder does not see. */
module RoundTrip {
  import opened Bytes
  import opened Grammar
  import opened Scan
  import opened Strings
  import opened Numbers
  import opened Compose
  import opened Lookup
  import opened QueryDecode
  import opened Writers
  import opened Wire
  import opened Rfc8259

  // ---- A response that carries rows ----

  datatype WireRow = WireRow(rowId: CString, cells: seq<InputCell>)

  ghost predicate ValidRows(rows: seq<WireRow>) {
    forall r | r in rows :: ValidCells(r.cells)
  }

  function RowFields(r: WireRow): seq<NamedText> {
    [NamedText("row_id", Quoted(r.rowId)), NamedText("cells", CellsText(r.cells))]
  }

  function RowTexts(rows: seq<WireRow>): seq<string> {
    seq(|rows|, k requires 0 <= k < |rows| => Obj(FieldTexts(RowFields(rows[k]))))
  }

  function BodyFields(rows: seq<WireRow>, truncated: bool): seq<NamedText> {
    [NamedText("rows", Arr(RowTexts(rows))), NamedText("truncated", if truncated then "true" else "false")]
  }

  /** The response the server documents: row objects with an id and a flat cells array. */
  function ResponseText(rows: seq<WireRow>, truncated: bool): string {
    Obj(FieldTexts(BodyFields(rows, truncated)))
  }

  /** What a written row reads back as. */
  function ReadCells(cells: seq<InputCell>): Row
    requires ValidCells(cells)
  {
    seq(|cells|, k requires 0 <= k < |cells| =>
      assert cells[k] in cells; Cell(cells[k].columnId, ReadBack(cells[k].value)))
  }

  function ReadRows(rows: seq<WireRow>): seq<Row>
    requires ValidRows(rows)
  {
    seq(|rows|, k requires 0 <= k < |rows| => assert rows[k] in rows; ReadCells(rows[k].cells))
  }

  // ---- Cells ----

  lemma {:induction false} CellTextsFront(cells: seq<InputCell>)
    requires cells != []
    ensures CellTexts(cells) == PairTexts(cells[0]) + CellTexts(cells[1..])
  {
    hide PairTexts;
    var n := |cells| - 1;
    if n > 0 {
      CellTextsFront(cells[..n]);
      assert cells[..n][1..] == cells[1..][..n - 1];
      assert cells[1..][n - 1] == cells[n];
      assert PairTexts(cells[0]) + (CellTexts(cells[1..][..n - 1]) + PairTexts(cells[n])) ==
             (PairTexts(cells[0]) + CellTexts(cells[..n][1..])) + PairTexts(cells[n]);
    } else {
      assert cells[..0] == [] && cells[1..] == [];
      assert CellTexts([]) == [];
    }
  }

  /** The first pair of written cells, and the rest. */
  lemma FirstPair(cells: seq<InputCell>)
    requires ValidCells(cells) && cells != []
    ensures forall x | x in CellTexts(cells) :: Whole(x)
    ensures ValidCells(cells[1..]) && forall x | x in CellTexts(cells[1..]) :: Whole(x)
    ensures var es := ValueElems(CellTexts(cells)); var c := cells[0];
            |es| >= 2 && es[0].v == Num(Decimal(c.columnId)) && ValOf(es[1].v) == ReadBack(c.value) &&
            ColumnId(Decimal(c.columnId)) == c.columnId && es[1..][1..] == ValueElems(CellTexts(cells[1..]))
  {
    hide Whole, Parsed, ValueText, ReadBack, ValOf, Decimal, ColumnId, ValidValue;
    var c, rest, texts := cells[0], cells[1..], CellTexts(cells);
    assert c in cells;
    CellTextsAreWhole(cells);
    CellTextsAreWhole(rest);
    CellTextsFront(cells);
    CellTextsLength(rest);
    assert texts[0] == Decimal(c.columnId) && texts[1] == ValueText(c.value) && texts[2..] == CellTexts(rest);
    hide CellTexts;
    DecimalIsWhole(c.columnId);
    Int64ReadsBack(c.columnId);
    ValueReadsBack(c.value);
    var es := ValueElems(texts);
    assert es[1..][1..] == ValueElems(CellTexts(rest));
    DecimalParsed(c.columnId);
  }

  lemma DecimalParsed(n: int64)
    ensures Whole(Decimal(n)) && Parsed(Decimal(n)).t == Num(Decimal(n))
  {
    hide Whole, Parsed, Decimal;
    NumberIsWhole(Decimal(n));
  }

  lemma {:induction false} CellsReadBack(cells: seq<InputCell>)
    requires ValidCells(cells)
    ensures forall x | x in CellTexts(cells) :: Whole(x)
    ensures CellsOf(ItemsFrom(ValueElems(CellTexts(cells)))) == Some(ReadCells(cells))
  {
    hide Whole, Parsed, ReadBack, ValOf, Decimal, ColumnId, ValidValue, ItemsFrom, CellsOf;
    if cells != [] {
      var c, rest := cells[0], cells[1..];
      FirstPair(cells);
      hide CellTexts, ValueElems;
      CellsReadBack(rest);
      PairFirst(ValueElems(CellTexts(cells)));
      assert ReadCells(cells) == [Cell(c.columnId, ReadBack(c.value))] + ReadCells(rest);
    } else {
      NoCells();
      assert CellTexts(cells) == [];
      assert ValueElems(CellTexts(cells)) == [];
      assert ReadCells(cells) == [];
    }
  }

  lemma NoCells()
    ensures CellsOf(ItemsFrom([])) == Some([])
  {}

  /** The cells of a list by its first pair. */
  lemma PairFirst(es: seq<Elem>)
    requires |es| >= 2 && es[0].v.Num?
    ensures var tail := ItemsFrom(es[1..][1..]);
            CellsOf(tail).Some? ==>
              CellsOf(ItemsFrom(es)) == Some([Cell(ColumnId(es[0].v.run), ValOf(es[1].v))] + CellsOf(tail).value)
  {
    hide ColumnId, ValOf;
    assert ItemsFrom(es) == More(es[0], ItemsFrom(es[1..]));
    if |es| > 2 {
      assert ItemsFrom(es[1..]) == More(es[1], ItemsFrom(es[1..][1..]));
      assert !ItemsFrom(es[1..][1..]).Empty?;
    } else {
      assert ItemsFrom(es[1..]) == Last(es[1]);
      assert ItemsFrom(es[1..][1..]) == Empty("");
      assert [Cell(ColumnId(es[0].v.run), ValOf(es[1].v))] + [] == [Cell(ColumnId(es[0].v.run), ValOf(es[1].v))];
    }
  }

  // ---- Rows and the response ----

  lemma ResponseNames()
    ensures IsBody("row_id") && IsBody("cells") && IsBody("rows") && IsBody("truncated")
  {
    NameIsBody("row_id");
    NameIsBody("cells");
    NameIsBody("rows");
    NameIsBody("truncated");
  }

  lemma RowFieldsAreWhole(r: WireRow)
    requires ValidCells(r.cells)
    ensures WholeFields(RowFields(r))
  {
    hide Whole, Quoted, CellsText, IsBody;
    ResponseNames();
    QuotedIsWhole(r.rowId);
    CellsAreWhole(r.cells);
  }

  /** The tree of a written row is an object with the row's cells. */
  lemma RowReadsBack(r: WireRow)
    requires ValidCells(r.cells)
    ensures var x := Obj(FieldTexts(RowFields(r)));
            Whole(x) && IsKind(Parsed(x).t, AnObject) && RowOf(Parsed(x).t.items) == Some(ReadCells(r.cells))
  {
    hide Whole, Parsed, Quoted, Obj, CellTexts, CellsOf, ValueElems, ReadCells, IsBody;
    RowFieldsAreWhole(r);
    var fs := RowFields(r);
    ObjParsed(fs);
    CellsReadBack(r.cells);
    ArrParsed(CellTexts(r.cells));
    var es := FieldElems(fs);
    assert es == [es[0], es[1]];
    assert es[1..] == [es[1]];
    TwoMembers(es[0], es[1]);
  }

  lemma TwoMembers(a: Elem, b: Elem)
    requires MemberCellsOf(a) == Some([])
    ensures ItemsFrom([a, b]) == More(a, Last(b))
    ensures RowOf(ItemsFrom([a, b])) == MemberCellsOf(b)
  {
    hide MemberCellsOf;
    assert [a, b][1..] == [b];
    assert ItemsFrom([b]) == Last(b);
    if MemberCellsOf(b).Some? { assert [] + MemberCellsOf(b).value == MemberCellsOf(b).value; }
  }

  lemma RowTextsAreWhole(rows: seq<WireRow>)
    requires ValidRows(rows)
    ensures forall x | x in RowTexts(rows) :: Whole(x)
  {
    hide Whole, Obj, ValidCells, Parsed, RowFields;
    forall x | x in RowTexts(rows) ensures Whole(x) {
      var k :| 0 <= k < |RowTexts(rows)| && RowTexts(rows)[k] == x;
      assert rows[k] in rows;
      RowReadsBack(rows[k]);
    }
  }

  lemma {:induction false} RowsReadBack(rows: seq<WireRow>)
    requires ValidRows(rows)
    ensures forall x | x in RowTexts(rows) :: Whole(x)
    ensures RowsOf(ItemsFrom(ValueElems(RowTexts(rows)))) == Some(ReadRows(rows))
  {
    hide Whole, Parsed, Obj, RowFields, RowOf, ReadCells, ValidCells;
    RowTextsAreWhole(rows);
    var texts := RowTexts(rows);
    if rows != [] {
      var r, rest := rows[0], rows[1..];
      assert r in rows;
      RowReadsBack(r);
      RowsReadBack(rest);
      assert texts[1..] == RowTexts(rest);
      assert ValueElems(texts)[1..] == ValueElems(RowTexts(rest));
      assert ReadRows(rows) == [ReadCells(r.cells)] + ReadRows(rest);
      if rest == [] { assert ReadRows(rest) == []; assert [ReadCells(r.cells)] + [] == [ReadCells(r.cells)]; }
    } else {
      assert texts == [];
      assert ValueElems(texts) == [];
      assert ReadRows(rows) == [];
    }
  }

  lemma BodyFieldsAreWhole(rows: seq<WireRow>, truncated: bool)
    requires ValidRows(rows)
    ensures WholeFields(BodyFields(rows, truncated))
  {
    hide Whole, Obj, RowTexts, Arr, IsBody;
    ResponseNames();
    RowTextsAreWhole(rows);
    ArrIsWhole(RowTexts(rows));
    LiteralIsWhole("true");
    LiteralIsWhole("false");
  }

  /** The members of a written response. */
  function ResponseMembers(rows: seq<WireRow>, truncated: bool): Items
    requires ValidRows(rows)
  {
    BodyFieldsAreWhole(rows, truncated);
    ItemsFrom(FieldElems(BodyFields(rows, truncated)))
  }

  lemma ResponseMeaning(rows: seq<WireRow>, truncated: bool)
    requires ValidRows(rows)
    ensures QueryOf(ResponseMembers(rows, truncated)) == Rows(ReadRows(rows), truncated)
  {
    hide Whole, Parsed, Obj, RowTexts, RowsOf, ValueElems, IsBody, ReadRows;
    BodyFieldsAreWhole(rows, truncated);
    var fs := BodyFields(rows, truncated);
    RowsReadBack(rows);
    ArrParsed(RowTexts(rows));
    LiteralIsWhole("true");
    LiteralIsWhole("false");
    var es := FieldElems(fs);
    assert fs[0] in fs && fs[1] in fs;
    assert es[0].v == Node(false, ItemsFrom(ValueElems(RowTexts(rows))));
    assert es[1].v == Lit(if truncated then "true" else "false");
    assert es == [es[0], es[1]];
    TwoFields(es[0], es[1], ItemsFrom(ValueElems(RowTexts(rows))), truncated);
  }

  lemma TwoFields(a: Elem, b: Elem, rows: Items, truncated: bool)
    requires a.key.Key? && a.key.raw == "rows" && a.v == Node(false, rows)
    requires b.key.Key? && b.key.raw == "truncated" && b.v == Lit(if truncated then "true" else "false")
    ensures QueryOf(ItemsFrom([a, b])) ==
            match RowsOf(rows) case None => JsonError case Some(rs) => Rows(rs, truncated)
  {
    hide RowsOf;
    assert [a, b][1..] == [b];
    assert ItemsFrom([b]) == Last(b);
    var x := ItemsFrom([a, b]);
    assert x == More(a, Last(b));
    assert "rows"[0] != "truncated"[0];
    assert FirstMember(x, "truncated", ABool) == FirstMember(Last(b), "truncated", ABool) == Some(b.v);
    if !truncated { assert "false"[0] != "true"[0]; }
  }

  lemma TextHolds(x: Items, tail: string)
    requires WFItems(x, true)
    ensures HoldsObject(Text(Node(true, x)) + tail, x)
  {
    hide ItemsText, WFItems;
    var w := Text(Node(true, x));
    var s := w + tail;
    AtSlice(s, 0, |w|);
    assert s[0..|w|] == w;
    SkipHere(s, 0);
  }

  /** Rows written by the cell writer decode to the same rows, in order: same ids, and values that
      read back as `ReadBack` says, whatever follows the response. */
  lemma QueryRoundTrip(rows: seq<WireRow>, truncated: bool, tail: string)
    requires ValidRows(rows)
    ensures DecodeQuery(ResponseText(rows, truncated) + tail) == Rows(ReadRows(rows), truncated)
  {
    hide Whole, Parsed, Obj, QueryOf, BodyFields, Text, FieldElems, HoldsObject;
    BodyFieldsAreWhole(rows, truncated);
    ObjParsed(BodyFields(rows, truncated));
    var x := ResponseMembers(rows, truncated);
    TextHolds(x, tail);
    DecodeIsMeaning(ResponseText(rows, truncated) + tail, x);
    ResponseMeaning(rows, truncated);
  }

  /** Values whose tag and payload survive the trip: everything but doubles and raw JSON scalars. */
  ghost predicate TagExact(v: InputValue) {
    match v
    case InDouble(_) => false
    case InJson(json) => json.Some? && IsCompound(json.value)
    case InUnknown => false
    case _ => true
  }

  /** The decoded value of a tag-exact value: the same, with any nonzero boolean read as true and
      a NULL string as the empty one. */
  lemma TagExactReadsBack(v: InputValue)
    requires TagExact(v)
    ensures ReadBack(v) ==
            match v
            case InBool(b) => BoolVal(b != 0)
            case InInt64(i) => Int64Val(i)
            case InString(s) => StringVal(if s.Some? then s.value else "")
            case InJson(Some(raw)) => JsonVal(raw)
            case _ => NullVal
  {
    hide Parsed, Value;
    if v.InJson? { CompoundReadsBack(v.json.value); }
  }

  /** What has no JSON form comes back as NULL: an unknown tag, a NULL pointer to raw JSON, NaN and the
      infinities. */
  lemma NullsReadBack(v: InputValue)
    requires v.InNull? || v.InUnknown? || (v.InJson? && v.json.None?) || (v.InDouble? && v.d.NonFinite?)
    ensures ValueText(v) == "null" && ReadBack(v) == NullVal
  {}

  /** A double comes back as the same text exactly when that text has a point or an exponent.  A
      double with an integral value prints without, and comes back as an integer. */
  lemma DoubleKeepsTag(n: DoubleNumber)
    ensures ReadBack(InDouble(Finite(n))) ==
            if n.frac.Some? || n.exp.Some? then DoubleVal(NumberText(n)) else Int64Val(Clamp(Signed(NumberText(n))))
  {
    var w := NumberText(n);
    if n.frac.Some? {
      var at := |w| - (if n.exp.Some? then |ExponentText(n.exp.value)| else 0) - |n.frac.value| - 1;
      assert w[at] == '.';
    } else if n.exp.Some? {
      var at := |w| - |ExponentText(n.exp.value)|;
      assert w[at] == n.exp.value.mark;
    } else {
      assert w == (if n.minus then "-" else "") + n.whole;
    }
  }

  /** The double 1 comes back as the INT64 1. */
  lemma DoubleOneBecomesInt64()
    ensures var one := Number(false, "1", None, None);
            NumberText(one) == Decimal(1) && ReadBack(InDouble(Finite(one))) == Int64Val(1)
  {
    assert Decimal(1) == "1";
    Int64ReadsBack(1);
  }

  // ---- Unknown members are invisible ----

  /** x with e as its member number n, or its last one. */
  function Insert(x: Items, n: nat, e: Elem): Items {
    match x
    case Empty(_) => Last(e)
    case Last(d) => if n == 0 then More(e, x) else More(d, Last(e))
    case More(d, rest) => if n == 0 then More(e, x) else More(d, Insert(rest, n - 1, e))
  }

  lemma {:induction false} InsertUnseen(x: Items, n: nat, e: Elem, key: string, kind: Kind)
    requires e.key.Key? ==> e.key.raw != key
    ensures FirstMember(Insert(x, n, e), key, kind) == FirstMember(x, key, kind)
  {
    if x.More? && n > 0 { InsertUnseen(x.rest, n - 1, e, key, kind); }
  }

  /** A member with an unknown key, inserted anywhere at top level, does not change the result:
      not the rows, not the truncated flag, not an error. */
  lemma UnknownTopMember(s: string, x: Items, s': string, n: nat, e: Elem)
    requires e.key.Key? && e.key.raw != "rows" && e.key.raw != "truncated"
    requires HoldsObject(s, x) && HoldsObject(s', Insert(x, n, e))
    ensures DecodeQuery(s') == DecodeQuery(s)
  {
    hide HoldsObject, DecodeQuery, RowsOf, Insert, FirstMember;
    DecodeIsMeaning(s, x);
    DecodeIsMeaning(s', Insert(x, n, e));
    InsertUnseen(x, n, e, "rows", AnArray);
    InsertUnseen(x, n, e, "truncated", ABool);
  }

  lemma {:induction false} InsertAddsNoCells(x: Items, n: nat, e: Elem)
    requires MemberCellsOf(e) == Some([])
    ensures RowOf(Insert(x, n, e)) == RowOf(x)
  {
    hide MemberCellsOf;
    if x.More? && n > 0 {
      InsertAddsNoCells(x.rest, n - 1, e);
    }
    forall o: seq<Cell> ensures [] + o == o && o + [] == o {}
  }

  /** rows with e inserted into the row object number r. */
  function InsertIntoRow(rows: Items, r: nat, n: nat, e: Elem): Items {
    match rows
    case Empty(_) => rows
    case Last(d) => if r == 0 then Last(InsertIntoObject(d, n, e)) else rows
    case More(d, rest) =>
      if r == 0 then More(InsertIntoObject(d, n, e), rest) else More(d, InsertIntoRow(rest, r - 1, n, e))
  }

  function InsertIntoObject(d: Elem, n: nat, e: Elem): Elem {
    if IsKind(d.v, AnObject) then d.(v := Node(true, Insert(d.v.items, n, e))) else d
  }

  lemma {:induction false} InsertIntoRowUnseen(rows: Items, r: nat, n: nat, e: Elem)
    requires MemberCellsOf(e) == Some([])
    ensures RowsOf(InsertIntoRow(rows, r, n, e)) == RowsOf(rows)
  {
    hide MemberCellsOf, RowOf, Insert;
    if !rows.Empty? {
      if IsKind(rows.e.v, AnObject) { InsertAddsNoCells(rows.e.v.items, n, e); }
      if rows.More? && r > 0 { InsertIntoRowUnseen(rows.rest, r - 1, n, e); }
    }
  }

  /** x with e inserted into row r of its rows array. */
  function InsertBelowRows(x: Items, r: nat, n: nat, e: Elem): Items {
    match x
    case Empty(_) => x
    case Last(d) => Last(InsertBelow(d, r, n, e))
    case More(d, rest) =>
      if Matches(d, "rows", AnArray) then More(InsertBelow(d, r, n, e), rest)
      else More(d, InsertBelowRows(rest, r, n, e))
  }

  function InsertBelow(d: Elem, r: nat, n: nat, e: Elem): Elem {
    if Matches(d, "rows", AnArray) then d.(v := Node(false, InsertIntoRow(d.v.items, r, n, e))) else d
  }

  lemma {:induction false} InsertBelowFirst(x: Items, r: nat, n: nat, e: Elem)
    ensures FirstMember(InsertBelowRows(x, r, n, e), "truncated", ABool) == FirstMember(x, "truncated", ABool)
    ensures match FirstMember(x, "rows", AnArray)
            case Some(Node(_, ys)) =>
              FirstMember(InsertBelowRows(x, r, n, e), "rows", AnArray) == Some(Node(false, InsertIntoRow(ys, r, n, e)))
            case _ => FirstMember(InsertBelowRows(x, r, n, e), "rows", AnArray) == FirstMember(x, "rows", AnArray)
  {
    hide InsertIntoRow;
    if x.More? { InsertBelowFirst(x.rest, r, n, e); }
  }

  /** A member with any key but "cells", inserted anywhere into any row, does not change the
      result. */
  lemma UnknownRowMember(s: string, x: Items, s': string, r: nat, n: nat, e: Elem)
    requires e.key.Key? && e.key.raw != "cells"
    requires HoldsObject(s, x) && HoldsObject(s', InsertBelowRows(x, r, n, e))
    ensures DecodeQuery(s') == DecodeQuery(s)
  {
    hide HoldsObject, DecodeQuery, RowsOf, InsertBelowRows, FirstMember, InsertIntoRow;
    DecodeIsMeaning(s, x);
    DecodeIsMeaning(s', InsertBelowRows(x, r, n, e));
    InsertBelowFirst(x, r, n, e);
    var rows := FirstMember(x, "rows", AnArray);
    FirstMemberKind(x, "rows", AnArray);
    if rows.Some? { InsertIntoRowUnseen(rows.value.items, r, n, e); }
  }
}
