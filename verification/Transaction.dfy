/** The body of a /kit/txn request: its text, the writer, that it is one JSON value, and that it
    determines the operations. */
module Transaction {
  import opened Bytes
  import opened Grammar
  import opened Scan
  import opened Buffer
  import opened Strings
  import opened Numbers
  import opened Compose
  import opened Writers
  import opened Wire

  /** A staged operation.  None is a NULL pointer. */
  datatype Op =
    | Put(table: Option<CString>, cells: seq<InputCell>)
    | Upsert(table: Option<CString>, cells: seq<InputCell>, updates: Option<seq<InputCell>>)
    | Delete(table: Option<CString>, rowId: int64)
    | DeleteByPk(table: Option<CString>, pk: InputValue)
    | UnknownOp

  // ---- The text ----

  function TableMember(table: Option<CString>): string {
    Member("table", Quoted(OrEmpty(table)))
  }

  predicate HasUpdates(op: Op) {
    op.Upsert? && op.updates.Some? && op.updates.value != []
  }

  function Fields(op: Op): seq<string> {
    match op
    case Put(table, cells) =>
      [TableMember(table), Member("cells", CellsText(cells)), Member("returning", "false")]
    case Upsert(table, cells, updates) =>
      [TableMember(table), Member("cells", CellsText(cells))] +
      (if HasUpdates(op) then [Member("update_cells", CellsText(updates.value))] else []) +
      [Member("returning", "false")]
    case Delete(table, rowId) => [TableMember(table), Member("row_id", Decimal(rowId))]
    case DeleteByPk(table, pk) => [TableMember(table), Member("pk", ValueText(pk))]
    case UnknownOp => []
  }

  function OpName(op: Op): string {
    match op
    case Put(_, _) => "put"
    case Upsert(_, _, _) => "upsert"
    case Delete(_, _) => "delete"
    case DeleteByPk(_, _) => "delete_by_pk"
    case UnknownOp => ""
  }

  function OpText(op: Op): string {
    Obj([Member(OpName(op), Obj(Fields(op)))])
  }

  function OpTexts(ops: seq<Op>): seq<string> {
    seq(|ops|, k requires 0 <= k < |ops| => OpText(ops[k]))
  }

  predicate HasKey(key: Option<CString>) {
    key.Some? && key.value != ""
  }

  function TxnMembers(ops: seq<Op>, key: Option<CString>): seq<string> {
    [Member("ops", Arr(OpTexts(ops)))] +
    if HasKey(key) then [Member("idempotency_key", Quoted(key.value))] else []
  }

  function TxnText(ops: seq<Op>, key: Option<CString>): string {
    Obj(TxnMembers(ops, key))
  }

  // ---- The writer ----

  method WriteCells(out: Sbuf, name: string, cells: seq<InputCell>, ghost base: string, ghost ms: seq<string>)
    requires out.Valid() && ms != []
    requires !out.failed ==> out.Contents() == base + Join(ms)
    modifies out, out.data
    ensures out.Valid() && (out.data == old(out.data) || fresh(out.data))
    ensures !out.failed ==> !old(out.failed) && out.Contents() == base + Join(ms + [Member(name, CellsText(cells))])
  {
    hide Name, CellsText, Join;
    WriteName(out, false, name);
    SerializeCells(out, cells);
    NextMember(base, ms, name, CellsText(cells));
  }

  /** The fields of an operation, behind the opening brace that base ends with. */
  method SerializeFields(out: Sbuf, op: Op, ghost base: string)
    requires out.Valid() && !op.UnknownOp?
    requires !out.failed ==> out.Contents() == base
    modifies out, out.data
    ensures out.Valid() && (out.data == old(out.data) || fresh(out.data))
    ensures !out.failed ==> !old(out.failed) && out.Contents() == base + Join(Fields(op))
  {
    hide Member, CellsText, Join, Quoted, Decimal, ValueText;
    NothingYet(base);
    ghost var ms := [];
    WriteString(out, "table", OrEmpty(op.table), base, ms, true);
    assert ms + [TableMember(op.table)] == [TableMember(op.table)];
    ms := [TableMember(op.table)];
    if op.Delete? {
      WriteRaw(out, "row_id", Decimal(op.rowId), base, ms, false);
      assert ms + [Member("row_id", Decimal(op.rowId))] == Fields(op);
    } else if op.DeleteByPk? {
      WriteName(out, false, "pk");
      SerializeValue(out, op.pk);
      NextMember(base, ms, "pk", ValueText(op.pk));
      assert ms + [Member("pk", ValueText(op.pk))] == Fields(op);
    } else {
      WriteCells(out, "cells", op.cells, base, ms);
      ms := ms + [Member("cells", CellsText(op.cells))];
      if HasUpdates(op) {
        WriteCells(out, "update_cells", op.updates.value, base, ms);
        ms := ms + [Member("update_cells", CellsText(op.updates.value))];
      }
      WriteRaw(out, "returning", "false", base, ms, false);
      assert ms + [Member("returning", "false")] == Fields(op);
    }
  }

  /** One operation, braces included. */
  method SerializeOp(out: Sbuf, op: Op)
    requires out.Valid() && !op.UnknownOp?
    modifies out, out.data
    ensures out.Valid() && (out.data == old(out.data) || fresh(out.data))
    ensures !out.failed ==> !old(out.failed) && out.Contents() == old(out.Contents()) + OpText(op)
  {
    hide Member, Join, Fields, Name;
    ghost var was := out.Contents();
    var ok := out.Append("{");
    WriteName(out, true, OpName(op));
    ok := out.Append("{");
    ghost var base := out.Contents();
    SerializeFields(out, op, base);
    ok := out.Append("}");
    ok := out.Append("}");
    OpTextIs(op, was);
  }

  lemma OpTextIs(op: Op, was: string)
    ensures ((((was + "{") + Name(OpName(op))) + "{") + Join(Fields(op))) + "}" + "}" == was + OpText(op)
  {
    hide Name, Fields, OpName;
    var inner := Join(Fields(op));
    var name := Name(OpName(op));
    assert OpText(op) == "{" + ((name + ("{" + (inner + "}"))) + "}") by { hide Join; JoinOne(name + ("{" + (inner + "}"))); }
  }

  /** Builds the body of a commit.  No operations need no request; an unknown operation is an
      invalid argument, and what was written so far is dropped. */
  method CommitBody(ops: seq<Op>, key: Option<CString>) returns (rc: int, body: Sbuf?)
    ensures rc == if UnknownOp in ops then MDB_ERR_INVALID_ARG else MDB_OK
    ensures body != null <==> ops != [] && UnknownOp !in ops
    ensures body != null ==> fresh(body) && body.Valid() && (!body.failed ==> body.Contents() == TxnText(ops, key))
  {
    hide OpText, TxnText, Join, ListStart;
    ghost var xs := OpTexts(ops);
    if |ops| == 0 {
      return MDB_OK, null;
    }
    var out := new Sbuf();
    var ok := out.Append("{");
    NothingYet("{");
    OpenList(out, "ops", "{", [], true);
    ghost var start := ListStart("{", [], "ops");
    var i := 0;
    while i < |ops|
      invariant i <= |ops| && out.Valid() && fresh(out.data) && UnknownOp !in ops[..i]
      invariant !out.failed ==> out.Contents() == start + Join(xs[..i])
    {
      NextElement(out, start, xs, i);
      if ops[i].UnknownOp? {
        return MDB_ERR_INVALID_ARG, null;
      }
      SerializeOp(out, ops[i]);
      i := i + 1;
    }
    FinishTxn(out, ops, key);
    return MDB_OK, out;
  }

  /** The end of the operations array, the idempotency key and the closing brace. */
  method FinishTxn(out: Sbuf, ops: seq<Op>, key: Option<CString>)
    requires out.Valid()
    requires !out.failed ==> out.Contents() == ListStart("{", [], "ops") + Join(OpTexts(ops)[..|ops|])
    modifies out, out.data
    ensures out.Valid() && (out.data == old(out.data) || fresh(out.data))
    ensures !out.failed ==> !old(out.failed) && out.Contents() == TxnText(ops, key)
  {
    hide OpText, Join, ListStart, Quoted, Arr, Member;
    ghost var ms := [Member("ops", Arr(OpTexts(ops)))];
    CloseList(out, "ops", "{", [], OpTexts(ops), |ops|);
    assert [] + ms == ms;
    if HasKey(key) {
      WriteString(out, "idempotency_key", key.value, "{", ms, false);
      ms := ms + [Member("idempotency_key", Quoted(key.value))];
    }
    var ok := out.Append("}");
    assert ms == TxnMembers(ops, key);
    assert ("{" + Join(ms)) + "}" == Obj(ms);
  }

  // ---- Well-formedness ----

  ghost predicate ValidOp(op: Op, strict: bool := false) {
    match op
    case Put(_, cells) => ValidCells(cells, strict)
    case Upsert(_, cells, updates) => ValidCells(cells, strict) && (updates.Some? ==> ValidCells(updates.value, strict))
    case Delete(_, _) => true
    case DeleteByPk(_, pk) => ValidValue(pk, strict)
    case UnknownOp => false
  }

  ghost predicate ValidOps(ops: seq<Op>, strict: bool := false) {
    forall op | op in ops :: ValidOp(op, strict)
  }

  lemma FieldNames()
    ensures IsName("table") && IsName("cells") && IsName("update_cells") && IsName("returning")
  {}

  lemma MoreNames()
    ensures IsName("row_id") && IsName("pk") && IsName("ops") && IsName("idempotency_key")
  {}

  lemma OpNames()
    ensures IsName("put") && IsName("upsert") && IsName("delete") && IsName("delete_by_pk")
  {}

  lemma FieldsAreParts(op: Op, strict: bool := false)
    requires ValidOp(op, strict)
    ensures forall x | x in Fields(op) :: IsPart(x, true, strict)
  {
    hide Whole, IsPart, Member, IsName, Quoted, Decimal, ValueText, CellsText, ValidCells, ValidValue;
    FieldNames();
    QuotedIsWhole(OrEmpty(op.table), strict);
    PlainMember("table", Quoted(OrEmpty(op.table)), strict);
    MoreNames();
    if op.Delete? {
      DecimalIsWhole(op.rowId, strict);
      PlainMember("row_id", Decimal(op.rowId), strict);
    } else if op.DeleteByPk? {
      ValueIsWhole(op.pk, strict);
      PlainMember("pk", ValueText(op.pk), strict);
    } else {
      CellsAreWhole(op.cells, strict);
      PlainMember("cells", CellsText(op.cells), strict);
      LiteralIsWhole("false", strict);
      PlainMember("returning", "false", strict);
      if HasUpdates(op) {
        CellsAreWhole(op.updates.value, strict);
        PlainMember("update_cells", CellsText(op.updates.value), strict);
      }
    }
  }

  lemma OpIsWhole(op: Op, strict: bool := false)
    requires ValidOp(op, strict)
    ensures Whole(Obj(Fields(op)), strict) && IsPart(Member(OpName(op), Obj(Fields(op))), true, strict) && Whole(OpText(op), strict)
  {
    hide Whole, IsPart, Member, IsName, Fields, Obj;
    OpNames();
    FieldsAreParts(op, strict);
    ObjIsWhole(Fields(op), strict);
    PlainMember(OpName(op), Obj(Fields(op)), strict);
    ObjIsWhole([Member(OpName(op), Obj(Fields(op)))], strict);
  }

  lemma OpsAreWhole(ops: seq<Op>, strict: bool := false)
    requires ValidOps(ops, strict)
    ensures forall x | x in OpTexts(ops) :: Whole(x, strict)
  {
    hide Whole, OpText, ValidOp;
    forall x | x in OpTexts(ops) ensures Whole(x, strict) {
      var k :| 0 <= k < |OpTexts(ops)| && OpTexts(ops)[k] == x;
      OpIsWhole(ops[k], strict);
    }
  }

  lemma TxnParts(ops: seq<Op>, key: Option<CString>, strict: bool := false)
    requires ValidOps(ops, strict)
    ensures Whole(Arr(OpTexts(ops)), strict) && IsPart(Member("ops", Arr(OpTexts(ops))), true, strict)
    ensures HasKey(key) ==> IsPart(Member("idempotency_key", Quoted(key.value)), true, strict)
  {
    hide Whole, IsPart, Member, IsName, OpTexts, Arr, Quoted;
    MoreNames();
    OpsAreWhole(ops, strict);
    ArrIsWhole(OpTexts(ops), strict);
    PlainMember("ops", Arr(OpTexts(ops)), strict);
    if HasKey(key) {
      QuotedIsWhole(key.value, strict);
      PlainMember("idempotency_key", Quoted(key.value), strict);
    }
  }

  /** Every transaction body is one value that the scanner consumes exactly to its end, and it is
      JSON of RFC 8259 if the raw fragments are. */
  lemma TxnIsWhole(ops: seq<Op>, key: Option<CString>, strict: bool := false)
    requires ValidOps(ops, strict)
    ensures Whole(TxnText(ops, key), strict)
  {
    hide Whole, IsPart, Member, IsName, OpTexts, Arr, Quoted, Obj;
    TxnParts(ops, key, strict);
    ObjIsWhole(TxnMembers(ops, key), strict);
  }

  // ---- Injectivity ----

  /** An operation up to a NULL table and empty updates; V is how values are held. */
  datatype NormalOp<V> =
    | NPut(table: CString, cells: seq<(int64, V)>)
    | NUpsert(table: CString, cells: seq<(int64, V)>, updates: seq<(int64, V)>)
    | NDelete(table: CString, rowId: int64)
    | NDeleteByPk(table: CString, pk: V)
    | NUnknown

  function TextCells(cells: seq<InputCell>): seq<(int64, string)> {
    seq(|cells|, k requires 0 <= k < |cells| => (cells[k].columnId, ValueText(cells[k].value)))
  }

  function TextUpdates(updates: Option<seq<InputCell>>): seq<(int64, string)> {
    if updates.Some? then TextCells(updates.value) else []
  }

  /** An operation with each value as its text. */
  function TextOp(op: Op): NormalOp<string> {
    match op
    case Put(table, cells) => NPut(OrEmpty(table), TextCells(cells))
    case Upsert(table, cells, updates) => NUpsert(OrEmpty(table), TextCells(cells), TextUpdates(updates))
    case Delete(table, rowId) => NDelete(OrEmpty(table), rowId)
    case DeleteByPk(table, pk) => NDeleteByPk(OrEmpty(table), ValueText(pk))
    case UnknownOp => NUnknown
  }

  function TextOps(ops: seq<Op>): seq<NormalOp<string>> {
    seq(|ops|, k requires 0 <= k < |ops| => TextOp(ops[k]))
  }

  /** A value up to the encoder's normalisations. */
  datatype Plain = PlainNull | PlainBool(b: bool) | PlainInt(i: int64) | PlainString(s: CString) | PlainJson(raw: CString)

  /** Doubles are left out, and raw JSON is a whole object or array. */
  ghost predicate Encodable(v: InputValue) {
    !v.InDouble? && (v.InJson? && v.json.Some? ==> IsCompound(v.json.value))
  }

  function NormalValue(v: InputValue): Plain
    requires Encodable(v)
  {
    match v
    case InBool(b) => PlainBool(b != 0)
    case InInt64(i) => PlainInt(i)
    case InString(s) => PlainString(OrEmpty(s))
    case InJson(Some(raw)) => PlainJson(raw)
    case _ => PlainNull
  }

  ghost predicate EncodableCells(cells: seq<InputCell>) {
    forall c | c in cells :: Encodable(c.value)
  }

  function NormalCells(cells: seq<InputCell>): seq<(int64, Plain)>
    requires EncodableCells(cells)
  {
    seq(|cells|, k requires 0 <= k < |cells| => (cells[k].columnId, NormalValue(cells[k].value)))
  }

  ghost predicate EncodableOp(op: Op) {
    match op
    case Put(_, cells) => EncodableCells(cells)
    case Upsert(_, cells, updates) => EncodableCells(cells) && (updates.Some? ==> EncodableCells(updates.value))
    case Delete(_, _) => true
    case DeleteByPk(_, pk) => Encodable(pk)
    case UnknownOp => false
  }

  /** NULL table = "", empty updates = none. */
  function Normal(op: Op): NormalOp<Plain>
    requires EncodableOp(op)
  {
    match op
    case Put(table, cells) => NPut(OrEmpty(table), NormalCells(cells))
    case Upsert(table, cells, updates) =>
      NUpsert(OrEmpty(table), NormalCells(cells), if updates.Some? then NormalCells(updates.value) else [])
    case Delete(table, rowId) => NDelete(OrEmpty(table), rowId)
    case DeleteByPk(table, pk) => NDeleteByPk(OrEmpty(table), NormalValue(pk))
  }

  ghost predicate EncodableOps(ops: seq<Op>) {
    forall op | op in ops :: EncodableOp(op)
  }

  function NormalOps(ops: seq<Op>): seq<NormalOp<Plain>>
    requires EncodableOps(ops)
  {
    seq(|ops|, k requires 0 <= k < |ops| => Normal(ops[k]))
  }

  lemma DecimalInjective(a: int64, b: int64)
    requires Decimal(a) == Decimal(b)
    ensures a == b
  {
    DecimalIsToken(a);
    DecimalIsToken(b);
  }

  lemma QuotedInjective(a: string, b: string)
    requires Quoted(a) == Quoted(b)
    ensures a == b
  {
    hide Escaped;
    assert Quoted(a)[1..|Quoted(a)| - 1] == Escaped(a);
    assert Quoted(b)[1..|Quoted(b)| - 1] == Escaped(b);
    UnescapeEscaped(a);
    UnescapeEscaped(b);
  }

  /** The first byte of a value's text, by tag. */
  lemma ValueFirstByte(v: InputValue)
    requires Encodable(v)
    ensures |ValueText(v)| > 0
    ensures v.InBool? ==> ValueText(v)[0] == if v.b != 0 then 't' else 'f'
    ensures v.InInt64? ==> StartsNumber(ValueText(v)[0])
    ensures v.InString? ==> ValueText(v)[0] == '"'
    ensures v.InJson? && v.json.Some? ==> ValueText(v)[0] == '{' || ValueText(v)[0] == '['
    ensures v.InNull? || v.InUnknown? || (v.InJson? && v.json.None?) ==> ValueText(v)[0] == 'n'
  {
    hide Value, Escaped, Text, Skip, WF, Digits;
    if v.InJson? && v.json.Some? {
      var raw := v.json.value;
      ParsedText(raw);
      FirstByte(Parsed(raw).t);
      assert SpacedText(Parsed(raw)) == Text(Parsed(raw).t);
    }
  }

  lemma ValueInjective(v: InputValue, w: InputValue)
    requires Encodable(v) && Encodable(w) && ValueText(v) == ValueText(w)
    ensures NormalValue(v) == NormalValue(w)
  {
    hide IsCompound, Quoted, Decimal;
    ValueFirstByte(v);
    ValueFirstByte(w);
    if v.InInt64? { DecimalInjective(v.i, w.i); }
    if v.InString? { QuotedInjective(OrEmpty(v.str), OrEmpty(w.str)); }
  }

  lemma CellTextsInjective(a: seq<InputCell>, b: seq<InputCell>)
    requires CellTexts(a) == CellTexts(b)
    ensures TextCells(a) == TextCells(b)
  {
    hide ValueText, Decimal, CellTexts;
    CellTextsLength(a);
    CellTextsLength(b);
    forall k | 0 <= k < |a| ensures TextCells(a)[k] == TextCells(b)[k] {
      CellTextAt(a, k);
      CellTextAt(b, k);
      DecimalInjective(a[k].columnId, b[k].columnId);
    }
  }

  lemma CellTextsByText(a: seq<InputCell>, b: seq<InputCell>)
    requires TextCells(a) == TextCells(b)
    ensures CellTexts(a) == CellTexts(b)
  {
    hide ValueText, Decimal, CellTexts;
    assert |a| == |TextCells(a)| == |TextCells(b)| == |b|;
    CellTextsLength(a);
    CellTextsLength(b);
    forall j | 0 <= j < 2 * |a| ensures CellTexts(a)[j] == CellTexts(b)[j] {
      var k := j / 2;
      assert TextCells(a)[k] == TextCells(b)[k];
      CellTextAt(a, k);
      CellTextAt(b, k);
    }
  }

  lemma CellsInjective(a: seq<InputCell>, b: seq<InputCell>)
    requires ValidCells(a) && ValidCells(b) && CellsText(a) == CellsText(b)
    ensures TextCells(a) == TextCells(b)
  {
    hide Whole, CellTexts, TextCells, ValidValue, Arr;
    CellTextsAreWhole(a);
    CellTextsAreWhole(b);
    ArrInjective(CellTexts(a), CellTexts(b));
    CellTextsInjective(a, b);
  }

  lemma EncodableIsValid(cells: seq<InputCell>)
    requires EncodableCells(cells)
    ensures ValidCells(cells)
  {}

  lemma EncodableOpIsValid(op: Op)
    requires EncodableOp(op)
    ensures ValidOp(op)
  {
    hide EncodableCells, ValidCells;
    match op {
      case Put(_, cells) => EncodableIsValid(cells);
      case Upsert(_, cells, updates) =>
        EncodableIsValid(cells);
        if updates.Some? { EncodableIsValid(updates.value); }
      case _ =>
    }
  }

  lemma NameOfOp(a: Op, b: Op)
    requires ValidOp(a) && ValidOp(b) && OpText(a) == OpText(b)
    ensures OpName(a) == OpName(b) && Fields(a) == Fields(b)
  {
    hide Whole, IsPart, Fields, Obj, IsName, OpName, ValidOp, Member;
    OpIsWhole(a);
    OpIsWhole(b);
    ObjInjective([Member(OpName(a), Obj(Fields(a)))], [Member(OpName(b), Obj(Fields(b)))]);
    assert Member(OpName(a), Obj(Fields(a))) == Member(OpName(b), Obj(Fields(b))) by {
      assert [Member(OpName(a), Obj(Fields(a)))][0] == [Member(OpName(b), Obj(Fields(b)))][0];
    }
    OpNameIsBody(a);
    OpNameIsBody(b);
    MemberInjective(OpName(a), Obj(Fields(a)), OpName(b), Obj(Fields(b)));
    FieldsAreParts(a);
    FieldsAreParts(b);
    ObjInjective(Fields(a), Fields(b));
  }

  lemma OpNameIsBody(op: Op)
    ensures IsBody(OpName(op))
  {
    OpNames();
    NameIsBody(OpName(op));
  }

  /** Members with one name have one value. */
  lemma SameField(k: string, v: string, w: string)
    requires Member(k, v) == Member(k, w)
    ensures v == w
  {
    assert Member(k, v)[|Name(k)|..] == v;
    assert Member(k, w)[|Name(k)|..] == w;
  }

  /** The kind of an operation shows in its name. */
  lemma KindByName(a: Op, b: Op)
    requires OpName(a) == OpName(b)
    ensures a.Put? == b.Put? && a.Upsert? == b.Upsert? && a.Delete? == b.Delete? && a.DeleteByPk? == b.DeleteByPk?
  {
    var x, y := OpName(a), OpName(b);
    assert |x| == |y| && (x != "" ==> x[0] == y[0]);
  }

  lemma SameTable(a: Op, b: Op)
    requires !a.UnknownOp? && !b.UnknownOp? && Fields(a) == Fields(b)
    ensures OrEmpty(a.table) == OrEmpty(b.table)
  {
    hide Member, Quoted, CellsText, Decimal, ValueText;
    assert Fields(a)[0] == TableMember(a.table) && Fields(b)[0] == TableMember(b.table);
    SameField("table", Quoted(OrEmpty(a.table)), Quoted(OrEmpty(b.table)));
    QuotedInjective(OrEmpty(a.table), OrEmpty(b.table));
  }

  lemma SameCells(a: Op, b: Op)
    requires (a.Put? && b.Put?) || (a.Upsert? && b.Upsert?)
    requires ValidOp(a) && ValidOp(b) && Fields(a) == Fields(b)
    ensures TextCells(a.cells) == TextCells(b.cells)
  {
    hide Member, Quoted, CellsText, ValidCells, TextCells;
    assert Fields(a)[1] == Member("cells", CellsText(a.cells)) && Fields(b)[1] == Member("cells", CellsText(b.cells));
    SameField("cells", CellsText(a.cells), CellsText(b.cells));
    CellsInjective(a.cells, b.cells);
  }

  lemma SameUpdates(a: Op, b: Op)
    requires a.Upsert? && b.Upsert?
    requires ValidOp(a) && ValidOp(b) && Fields(a) == Fields(b)
    ensures TextUpdates(a.updates) == TextUpdates(b.updates)
  {
    hide Member, Quoted, CellsText, ValidCells;
    assert |Fields(a)| == (if HasUpdates(a) then 4 else 3);
    assert |Fields(b)| == (if HasUpdates(b) then 4 else 3);
    if HasUpdates(a) {
      var x, y := CellsText(a.updates.value), CellsText(b.updates.value);
      assert Fields(a)[2] == Member("update_cells", x) && Fields(b)[2] == Member("update_cells", y);
      SameField("update_cells", x, y);
      CellsInjective(a.updates.value, b.updates.value);
    }
  }

  lemma OpInjective(a: Op, b: Op)
    requires ValidOp(a) && ValidOp(b) && OpText(a) == OpText(b)
    ensures TextOp(a) == TextOp(b)
  {
    hide TextCells, TextUpdates, ValueText, ValidOp, Fields, OpName, OpText;
    ValidOpIsKnown(a);
    ValidOpIsKnown(b);
    NameOfOp(a, b);
    KindByName(a, b);
    SameTable(a, b);
    if a.Delete? || a.DeleteByPk? {
      SameSecond(a, b);
    } else {
      SameCells(a, b);
      if a.Upsert? { SameUpdates(a, b); }
    }
  }

  lemma ValidOpIsKnown(op: Op)
    requires ValidOp(op)
    ensures !op.UnknownOp?
  {}

  lemma SameSecond(a: Op, b: Op)
    requires (a.Delete? && b.Delete?) || (a.DeleteByPk? && b.DeleteByPk?)
    requires Fields(a) == Fields(b)
    ensures a.Delete? ==> a.rowId == b.rowId
    ensures a.DeleteByPk? ==> ValueText(a.pk) == ValueText(b.pk)
  {
    hide Member, Quoted, Decimal, ValueText;
    var x, y := Fields(a)[1], Fields(b)[1];
    if a.Delete? {
      SameField("row_id", Decimal(a.rowId), Decimal(b.rowId));
      DecimalInjective(a.rowId, b.rowId);
    } else {
      SameField("pk", ValueText(a.pk), ValueText(b.pk));
    }
  }

  /** The text of an operation is made from its table, its ids and its values' texts. */
  lemma OpByText(a: Op, b: Op)
    requires TextOp(a) == TextOp(b)
    ensures OpText(a) == OpText(b)
  {
    hide Member, Quoted, Decimal, ValueText, CellTexts, Obj, Arr;
    if a.Put? || a.Upsert? { CellTextsByText(a.cells, b.cells); }
    if a.Upsert? {
      assert HasUpdates(a) <==> TextUpdates(a.updates) != [];
      assert HasUpdates(b) <==> TextUpdates(b.updates) != [];
      if HasUpdates(a) { CellTextsByText(a.updates.value, b.updates.value); }
    }
    assert Fields(a) == Fields(b);
  }

  lemma OpTextsInjective(a: seq<Op>, b: seq<Op>)
    requires ValidOps(a) && ValidOps(b)
    ensures OpTexts(a) == OpTexts(b) <==> TextOps(a) == TextOps(b)
  {
    hide OpText, TextOp, ValidOp;
    assert |a| == |OpTexts(a)| == |TextOps(a)| && |b| == |OpTexts(b)| == |TextOps(b)|;
    if |a| == |b| {
      forall k | 0 <= k < |a| ensures OpTexts(a)[k] == OpTexts(b)[k] <==> TextOps(a)[k] == TextOps(b)[k] {
        assert a[k] in a && b[k] in b;
        if OpText(a[k]) == OpText(b[k]) { OpInjective(a[k], b[k]); }
        if TextOp(a[k]) == TextOp(b[k]) { OpByText(a[k], b[k]); }
      }
    }
  }

  /** The body determines the transaction up to the text of its values: two valid lists of operations
      and two keys encode to the same bytes exactly when the operations have the same tables, ids and
      value texts, a NULL table counting as "", empty updates as none, and an empty key as NULL. */
  lemma TxnDetermined(a: seq<Op>, key: Option<CString>, b: seq<Op>, other: Option<CString>)
    requires ValidOps(a) && ValidOps(b)
    ensures TxnText(a, key) == TxnText(b, other) <==> TextOps(a) == TextOps(b) && OrEmpty(key) == OrEmpty(other)
  {
    hide Obj, TextOps, ValidOp, OpTexts, Arr, Quoted, Member;
    OpTextsInjective(a, b);
    if TxnText(a, key) == TxnText(b, other) {
      SameBody(a, key, b, other);
    }
    if TextOps(a) == TextOps(b) && OrEmpty(key) == OrEmpty(other) {
      assert HasKey(key) <==> OrEmpty(key) != "";
      assert TxnMembers(a, key) == TxnMembers(b, other);
    }
  }

  lemma SameBody(a: seq<Op>, key: Option<CString>, b: seq<Op>, other: Option<CString>)
    requires ValidOps(a) && ValidOps(b) && TxnText(a, key) == TxnText(b, other)
    ensures OpTexts(a) == OpTexts(b) && OrEmpty(key) == OrEmpty(other)
  {
    hide Whole, IsPart, OpTexts, Arr, Quoted, Obj, Member, ValidOp;
    TxnParts(a, key);
    TxnParts(b, other);
    var x, y := TxnMembers(a, key), TxnMembers(b, other);
    ObjInjective(x, y);
    assert |x| == (if HasKey(key) then 2 else 1) && |y| == (if HasKey(other) then 2 else 1);
    assert x[0] == Member("ops", Arr(OpTexts(a))) && y[0] == Member("ops", Arr(OpTexts(b)));
    SameField("ops", Arr(OpTexts(a)), Arr(OpTexts(b)));
    OpsAreWhole(a);
    OpsAreWhole(b);
    ArrInjective(OpTexts(a), OpTexts(b));
    if HasKey(key) {
      assert x[1] == Member("idempotency_key", Quoted(key.value));
      assert y[1] == Member("idempotency_key", Quoted(other.value));
      SameField("idempotency_key", Quoted(key.value), Quoted(other.value));
      QuotedInjective(key.value, other.value);
    }
  }

  // ---- Without doubles and raw scalars the values agree too ----

  lemma CellsByText(a: seq<InputCell>, b: seq<InputCell>)
    requires EncodableCells(a) && EncodableCells(b) && TextCells(a) == TextCells(b)
    ensures NormalCells(a) == NormalCells(b)
  {
    hide ValueText, NormalValue, Encodable;
    assert |a| == |TextCells(a)| == |TextCells(b)| == |b|;
    forall k | 0 <= k < |a| ensures NormalCells(a)[k] == NormalCells(b)[k] {
      assert TextCells(a)[k] == TextCells(b)[k];
      assert a[k] in a && b[k] in b;
      ValueInjective(a[k].value, b[k].value);
    }
  }

  lemma NormalByText(a: Op, b: Op)
    requires EncodableOp(a) && EncodableOp(b) && TextOp(a) == TextOp(b)
    ensures Normal(a) == Normal(b)
  {
    hide ValueText, NormalValue, Encodable, EncodableCells, NormalCells, TextCells;
    if a.Put? || a.Upsert? { CellsByText(a.cells, b.cells); }
    if a.Upsert? { UpdatesByText(a.updates, b.updates); }
    if a.DeleteByPk? { ValueInjective(a.pk, b.pk); }
  }

  lemma UpdatesByText(a: Option<seq<InputCell>>, b: Option<seq<InputCell>>)
    requires (a.Some? ==> EncodableCells(a.value)) && (b.Some? ==> EncodableCells(b.value)) && TextUpdates(a) == TextUpdates(b)
    ensures (if a.Some? then NormalCells(a.value) else []) == (if b.Some? then NormalCells(b.value) else [])
  {
    hide ValueText, NormalValue, Encodable;
    CellsByText(if a.Some? then a.value else [], if b.Some? then b.value else []);
  }

  /** Without doubles, and with raw JSON limited to whole objects and arrays, the body determines the
      operations themselves, up to the encoder's normalisations. */
  lemma TxnInjective(a: seq<Op>, key: Option<CString>, b: seq<Op>, other: Option<CString>)
    requires EncodableOps(a) && EncodableOps(b)
    requires TxnText(a, key) == TxnText(b, other)
    ensures NormalOps(a) == NormalOps(b)
    ensures OrEmpty(key) == OrEmpty(other)
  {
    hide TxnText, EncodableOp, Normal, TextOp, ValidOp;
    forall op | op in a ensures ValidOp(op) { EncodableOpIsValid(op); }
    forall op | op in b ensures ValidOp(op) { EncodableOpIsValid(op); }
    TxnDetermined(a, key, b, other);
    assert |a| == |TextOps(a)| == |TextOps(b)| == |b|;
    forall k | 0 <= k < |a| ensures Normal(a[k]) == Normal(b[k]) {
      assert TextOps(a)[k] == TextOps(b)[k];
      assert a[k] in a && b[k] in b;
      NormalByText(a[k], b[k]);
    }
  }
}
