/** What a transaction body means to a reader of its tree. */
module TxnReading {
  import opened Bytes
  import opened Grammar
  import opened Scan
  import opened Strings
  import opened Numbers
  import opened Compose
  import opened Writers
  import opened Lookup
  import opened QueryDecode
  import opened Wire
  import opened Transaction
  import opened RoundTrip
  import opened Reading

  // ---- The meaning of a tree ----

  /** An operation as a reader understands it. */
  datatype Meant =
    | MeantPut(table: string, cells: Row)
    | MeantUpsert(table: string, cells: Row, updates: Option<Row>)
    | MeantDelete(table: string, rowId: int64)
    | MeantDeleteByPk(table: string, pk: Val)

  datatype MeantTxn = MeantTxn(ops: seq<Meant>, key: Option<string>)

  /** The cells of the first array of that name. */
  function CellsIn(x: Items, key: string): Option<Row> {
    match FirstMember(x, key, AnArray)
    case Some(Node(_, items)) => CellsOf(items)
    case _ => None
  }

  /** The operation that the object named name with members x stands for. */
  ghost function FieldsMeaning(name: string, x: Items): Option<Meant> {
    var table := StringIn(x, "table");
    if table.None? then None
    else if name == "put" && CellsIn(x, "cells").Some? && BoolIn(x, "returning") == Some(false) &&
            NothingElse(x, ["table", "cells", "returning"]) then
      Some(MeantPut(table.value, CellsIn(x, "cells").value))
    else if name == "upsert" && CellsIn(x, "cells").Some? && BoolIn(x, "returning") == Some(false) &&
            (Get(x, "update_cells").Some? ==> CellsIn(x, "update_cells").Some?) &&
            NothingElse(x, ["table", "cells", "update_cells", "returning"]) then
      Some(MeantUpsert(table.value, CellsIn(x, "cells").value, CellsIn(x, "update_cells")))
    else if name == "delete" && NumberIn(x, "row_id").Some? && NothingElse(x, ["table", "row_id"]) then
      Some(MeantDelete(table.value, NumberIn(x, "row_id").value))
    else if name == "delete_by_pk" && Get(x, "pk").Some? && NothingElse(x, ["table", "pk"]) then
      Some(MeantDeleteByPk(table.value, ValOf(Get(x, "pk").value)))
    else None
  }

  ghost function OpMeaning(t: Tree): Option<Meant> {
    if IsNamedObject(t) then FieldsMeaning(t.items.e.key.raw, t.items.e.v.items) else None
  }

  /** A body: the operations in order, and the idempotency key if there is one. */
  ghost function TxnMeaning(t: Tree): Option<MeantTxn> {
    if !t.Node? || !t.keyed || !NothingElse(t.items, ["ops", "idempotency_key"]) then None else
      match ArrayIn(t.items, "ops")
      case None => None
      case Some(ts) =>
        if exists k :: 0 <= k < |ts| && OpMeaning(ts[k]).None? then None
        else Some(MeantTxn(Meanings(ts), StringIn(t.items, "idempotency_key")))
  }

  ghost function Meanings(ts: seq<Tree>): seq<Meant>
    requires forall k | 0 <= k < |ts| :: OpMeaning(ts[k]).Some?
  {
    seq(|ts|, k requires 0 <= k < |ts| => OpMeaning(ts[k]).value)
  }

  // ---- What was meant ----

  ghost function MeantBy(op: Op): Meant
    requires ValidOp(op)
  {
    match op
    case Put(table, cells) => MeantPut(if table.Some? then table.value else "", ReadCells(cells))
    case Upsert(table, cells, updates) =>
      MeantUpsert(if table.Some? then table.value else "", ReadCells(cells),
                  if updates.Some? && updates.value != [] then Some(ReadCells(updates.value)) else None)
    case Delete(table, rowId) => MeantDelete(if table.Some? then table.value else "", rowId)
    case DeleteByPk(table, pk) => MeantDeleteByPk(if table.Some? then table.value else "", ReadBack(pk))
  }

  ghost function MeantOps(ops: seq<Op>): seq<Meant>
    requires ValidOps(ops)
  {
    seq(|ops|, k requires 0 <= k < |ops| => MeantBy(ops[k]))
  }

  // ---- Fields ----

  /** The entries of an operation's object, as many as its kind has. */
  function OpEntries(op: Op): seq<Entry>
    requires !op.UnknownOp?
  {
    match op
    case Put(table, cells) =>
      [Entry(true, "table", Quoted(OrEmpty(table))), Entry(true, "cells", CellsText(cells)), Entry(true, "returning", "false")]
    case Upsert(table, cells, updates) =>
      [Entry(true, "table", Quoted(OrEmpty(table))), Entry(true, "cells", CellsText(cells))] +
      [Entry(HasUpdates(op), "update_cells", CellsText(if updates.Some? then updates.value else [])),
       Entry(true, "returning", "false")]
    case Delete(table, rowId) => [Entry(true, "table", Quoted(OrEmpty(table))), Entry(true, "row_id", Decimal(rowId))]
    case DeleteByPk(table, pk) => [Entry(true, "table", Quoted(OrEmpty(table))), Entry(true, "pk", ValueText(pk))]
  }

  lemma OpEntryTexts(op: Op)
    requires !op.UnknownOp?
    ensures EntryTexts(OpEntries(op)) == Fields(op)
  {
    hide Member, Quoted, Decimal, CellsText, ValueText, EntryTexts;
    var es := OpEntries(op);
    if op.Put? {
      JustThree(es[0], es[1], es[2]);
    } else {
      TwoEntries(es[0], es[1]);
      if op.Upsert? {
        TwoEntries(es[2], es[3]);
        EntryTextsAppend([es[0], es[1]], [es[2], es[3]]);
      }
    }
  }

  lemma OpNamesDiffer(op: Op)
    requires !op.UnknownOp?
    ensures Distinct(OpEntries(op))
  {
    hide Quoted, Decimal, CellsText, ValueText;
  }

  lemma OpEntriesAreWhole(op: Op)
    requires ValidOp(op)
    ensures WholeEntries(OpEntries(op))
  {
    hide Whole, IsName, Quoted, Decimal, CellsText, ValueText, ValidValue, ValidCells;
    FieldNames();
    MoreNames();
    QuotedIsWhole(OrEmpty(op.table));
    LiteralIsWhole("false");
    match op {
      case Put(_, cells) => CellsAreWhole(cells);
      case Upsert(_, cells, updates) =>
        CellsAreWhole(cells);
        if updates.Some? { CellsAreWhole(updates.value); }
      case Delete(_, rowId) => DecimalIsWhole(rowId);
      case DeleteByPk(_, pk) => ValueIsWhole(pk);
    }
  }

  /** An entry that holds cells. */
  lemma CellsEntry(es: seq<Entry>, i: nat, cells: seq<InputCell>)
    requires WholeEntries(es) && Distinct(es) && i < |es| && ValidCells(cells)
    requires es[i].present ==> es[i].v == CellsText(cells)
    ensures CellsIn(EntryItems(es), es[i].k) == if es[i].present then Some(ReadCells(cells)) else None
    ensures Get(EntryItems(es), es[i].k).Some? == es[i].present
  {
    hide Whole, Parsed, EntryItems, FirstMember, Get, WholeEntries, Distinct, CellTexts, ReadCells, CellsOf, ItemsFrom, ValueElems;
    EntryAt(es, i, AnArray);
    CellsReadBack(cells);
    ArrParsed(CellTexts(cells));
  }

  /** The members of a written operation mean what was meant. */
  lemma FieldsAreMeant(op: Op, name: string)
    requires ValidOp(op)
    requires match op
             case Put(_, _) => name == "put"
             case Upsert(_, _, _) => name == "upsert"
             case Delete(_, _) => name == "delete"
             case DeleteByPk(_, _) => name == "delete_by_pk"
    ensures IsObject(Obj(Fields(op))) && FieldsMeaning(name, MembersIn(Obj(Fields(op)))) == Some(MeantBy(op))
  {
    hide Whole, Parsed, EntryItems, WholeEntries, Distinct, Obj, Quoted, Decimal, CellsText, ValueText, EntryTexts, Fields;
    hide StringIn, NumberIn, TokenIn, BoolIn, CellsIn, Get, FirstMember, NothingElse, ReadCells, ReadBack, ValOf;
    hide ValidCells, ValidValue;
    var es := OpEntries(op);
    OpEntryTexts(op);
    OpNamesDiffer(op);
    OpEntriesAreWhole(op);
    EntriesAreObject(es);
    StringEntry(es, 0, OrEmpty(op.table));
    match op {
      case Put(_, cells) =>
        OnlyEntries(es, ["table", "cells", "returning"]);
        CellsEntry(es, 1, cells);
        FlagEntry(es, 2, false);
      case Upsert(_, cells, updates) =>
        OnlyEntries(es, ["table", "cells", "update_cells", "returning"]);
        CellsEntry(es, 1, cells);
        NoCellsAreValid();
        CellsEntry(es, 2, if updates.Some? then updates.value else []);
        FlagEntry(es, 3, false);
      case Delete(_, rowId) =>
        OnlyEntries(es, ["table", "row_id"]);
        NumberEntry(es, 1, rowId);
      case DeleteByPk(_, pk) =>
        OnlyEntries(es, ["table", "pk"]);
        EntryAt(es, 1, AString);
        ValueReadsBack(pk);
    }
  }

  lemma NoCellsAreValid()
    ensures ValidCells([])
  {}

  lemma OpIsRead(op: Op)
    requires ValidOp(op)
    ensures Whole(OpText(op)) && OpMeaning(Parsed(OpText(op)).t) == Some(MeantBy(op))
  {
    hide Whole, Parsed, Obj, Fields, Member, FieldsMeaning, MeantBy, IsName;
    OpNames();
    var name := match op case Put(_, _) => "put" case Upsert(_, _, _) => "upsert" case Delete(_, _) => "delete" case _ => "delete_by_pk";
    assert OpName(op) == name;
    FieldsAreMeant(op, name);
    OneMember(name, Obj(Fields(op)));
  }

  // ---- The body ----

  function TxnEntries(ops: seq<Op>, key: Option<CString>): seq<Entry> {
    [Entry(true, "ops", Arr(OpTexts(ops))), Entry(HasKey(key), "idempotency_key", Quoted(OrEmpty(key)))]
  }

  lemma TxnEntriesAreWhole(ops: seq<Op>, key: Option<CString>)
    requires ValidOps(ops)
    ensures var es := TxnEntries(ops, key);
            WholeEntries(es) && Distinct(es) && EntryTexts(es) == TxnMembers(ops, key)
    ensures forall v | v in OpTexts(ops) :: Whole(v)
  {
    hide Whole, IsName, Quoted, Arr, OpTexts, EntryTexts, Member;
    MoreNames();
    OpsAreWhole(ops);
    ArrIsWhole(OpTexts(ops));
    QuotedIsWhole(OrEmpty(key));
    var es := TxnEntries(ops, key);
    TwoEntries(es[0], es[1]);
  }

  /** The tree of a transaction body means exactly the operations, in order, and the key: a put is read
      as a put of its cells, and so on. */
  lemma TxnIsRead(ops: seq<Op>, key: Option<CString>)
    requires ValidOps(ops)
    ensures Whole(TxnText(ops, key))
    ensures TxnMeaning(Parsed(TxnText(ops, key)).t) ==
            Some(MeantTxn(MeantOps(ops), if key.Some? && key.value != "" then Some(key.value) else None))
  {
    hide Whole, Parsed, EntryItems, WholeEntries, Distinct, Obj, Quoted, Arr, OpTexts, EntryTexts, OpMeaning, MeantBy;
    hide StringIn, Get, FirstMember, ArrayIn, NothingElse, ValidOp;
    var es := TxnEntries(ops, key);
    TxnEntriesAreWhole(ops, key);
    EntriesAreObject(es);
    OnlyEntries(es, ["ops", "idempotency_key"]);
    ArrayEntry(es, 0, OpTexts(ops));
    StringEntry(es, 1, OrEmpty(key));
    OpsAreRead(ArrayIn(EntryItems(es), "ops").value, ops);
  }

  lemma OpsAreRead(ts: seq<Tree>, ops: seq<Op>)
    requires ValidOps(ops)
    requires var ws := OpTexts(ops); |ts| == |ws| && forall k | 0 <= k < |ws| :: Whole(ws[k]) && ts[k] == Parsed(ws[k]).t
    ensures forall k | 0 <= k < |ts| :: OpMeaning(ts[k]).Some?
    ensures Meanings(ts) == MeantOps(ops)
  {
    hide Whole, Parsed, OpText, OpMeaning, MeantBy, ValidOp;
    forall k | 0 <= k < |ts| ensures ops[k] in ops && ValidOp(ops[k]) && OpMeaning(ts[k]) == Some(MeantBy(ops[k])) {
      assert ops[k] in ops;
      OpIsRead(ops[k]);
      assert ts[k] == Parsed(OpTexts(ops)[k]).t;
    }
  }
}
