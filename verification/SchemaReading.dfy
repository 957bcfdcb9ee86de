/** What a create_table body says to a reader who looks its members up by name. */
module SchemaReading {
  import opened Bytes
  import opened Grammar
  import opened Scan
  import opened Strings
  import opened Numbers
  import opened Compose
  import opened Writers
  import opened Lookup
  import opened Indexes
  import opened IndexCuts
  import opened Schema
  import opened Reading
  import opened IndexReading

  // ---- What is read ----

  ghost predicate ReadsVariants(x: Items, variants: seq<Option<CString>>) {
    var ts := ArrayIn(x, "enum_variants");
    if variants == [] then Get(x, "enum_variants") == None
    else ts.Some? && |ts.value| == |variants| &&
         forall k | 0 <= k < |variants| ::
           ts.value[k].Str? && Unescape(ts.value[k].body) == if variants[k].Some? then variants[k].value else ""
  }

  /** An expression leaves no default value; raw JSON is the value itself; a text is a string. */
  ghost predicate ReadsDefault(x: Items, c: Column) {
    StringIn(x, "default_expr") == (if c.defaultExpr.Some? then Some(c.defaultExpr.value) else None) &&
    (if c.defaultExpr.Some? then Get(x, "default_value") == None
     else if c.defaultJson.Some? then
       Whole(c.defaultJson.value) && Get(x, "default_value") == Some(Parsed(c.defaultJson.value).t)
     else if c.defaultText.Some? then StringIn(x, "default_value") == Some(c.defaultText.value)
     else Get(x, "default_value") == None)
  }

  /** Raw JSON under a name: the value itself, or nothing. */
  ghost predicate ReadsRaw(x: Items, key: string, raw: Option<CString>) {
    if raw.Some? then Whole(raw.value) && Get(x, key) == Some(Parsed(raw.value).t) else Get(x, key) == None
  }

  ghost predicate ReadsColumn(x: Items, c: Column) {
    NumberIn(x, "id") == Some(c.id) &&
    StringIn(x, "name") == Some(if c.name.Some? then c.name.value else "") &&
    StringIn(x, "ty") == Some(if c.ty.Some? then c.ty.value else "") &&
    BoolIn(x, "primary_key") == Some(c.primaryKey != 0) &&
    BoolIn(x, "nullable") == Some(c.nullable != 0) &&
    ReadsVariants(x, c.variants) && ReadsDefault(x, c) && ReadsRaw(x, "embedding_source", c.embeddingSource) &&
    NothingElse(x, ["id", "name", "ty", "primary_key", "nullable", "enum_variants", "default_expr", "default_value",
                    "embedding_source"])
  }

  ghost predicate ReadsColumns(x: Items, columns: seq<Column>) {
    var ts := ArrayIn(x, "columns");
    ts.Some? && |ts.value| == |columns| &&
    forall k | 0 <= k < |columns| :: ts.value[k].Node? && ts.value[k].keyed && ReadsColumn(ts.value[k].items, columns[k])
  }

  ghost predicate ReadsIndexes(x: Items, indexes: seq<Index>) {
    var ts := ArrayIn(x, "indexes");
    if indexes == [] then Get(x, "indexes") == None
    else ts.Some? && |ts.value| == |indexes| &&
         forall k | 0 <= k < |indexes| :: ts.value[k].Node? && ts.value[k].keyed && ReadsIndex(ts.value[k].items, indexes[k])
  }

  ghost predicate ReadsTable(x: Items, name: CString, columns: seq<Column>, constraints: Option<CString>, indexes: seq<Index>) {
    StringIn(x, "name") == Some(name) && ReadsColumns(x, columns) &&
    (if constraints.Some? && constraints.value != "" then
       Whole(constraints.value) && Get(x, "constraints") == Some(Parsed(constraints.value).t)
     else Get(x, "constraints") == None) &&
    ReadsIndexes(x, indexes) && NothingElse(x, ["name", "columns", "constraints", "indexes"])
  }

  // ---- Columns ----

  function DefaultEntry(c: Column): Entry {
    Entry(c.defaultExpr.None? && (c.defaultJson.Some? || c.defaultText.Some?), "default_value",
          if c.defaultJson.Some? then c.defaultJson.value else Quoted(OrEmpty(c.defaultText)))
  }

  function ColumnEntries(c: Column): seq<Entry> {
    [Entry(true, "id", Decimal(c.id)), Entry(true, "name", Quoted(OrEmpty(c.name))), Entry(true, "ty", Quoted(OrEmpty(c.ty)))] +
    ([Entry(true, "primary_key", Flag(c.primaryKey)), Entry(true, "nullable", Flag(c.nullable)),
      Entry(c.variants != [], "enum_variants", Arr(VariantTexts(c.variants)))] +
     [Entry(c.defaultExpr.Some?, "default_expr", Quoted(OrEmpty(c.defaultExpr))), DefaultEntry(c),
      Entry(c.embeddingSource.Some?, "embedding_source", OrEmpty(c.embeddingSource))])
  }

  lemma ColumnEntryTexts(c: Column)
    ensures EntryTexts(ColumnEntries(c)) == ColumnMembers(c)
  {
    hide Member, Quoted, Decimal, Arr, EntryTexts, VariantTexts, Flag, EntryText;
    var es := ColumnEntries(c);
    ThreeEntries(es[0], es[1], es[2], [es[3], es[4], es[5]] + [es[6], es[7], es[8]]);
    ThreeEntries(es[3], es[4], es[5], [es[6], es[7], es[8]]);
    JustThree(es[6], es[7], es[8]);
    CoreTexts(c);
    OptionalTexts(c);
  }

  lemma CoreTexts(c: Column)
    ensures var es := ColumnEntries(c);
            EntryText(es[0]) + EntryText(es[1]) + EntryText(es[2]) + (EntryText(es[3]) + EntryText(es[4])) == CoreMembers(c)
  {
    hide Member, Quoted, Decimal, Arr, VariantTexts, Flag;
  }

  lemma OptionalTexts(c: Column)
    ensures var es := ColumnEntries(c);
            EntryText(es[5]) == VariantMembers(c) && EntryText(es[6]) + EntryText(es[7]) == DefaultMembers(c) &&
            EntryText(es[8]) == SourceMembers(c)
  {
    hide Member, Quoted, Decimal, Arr, VariantTexts, Flag;
  }

  lemma ColumnNamesDiffer(c: Column)
    ensures Distinct(ColumnEntries(c))
  {
    hide Quoted, Decimal, Arr, VariantTexts, Flag;
  }

  lemma CoreEntriesAreWhole(c: Column)
    ensures forall i | 0 <= i < 5 :: IsName(ColumnEntries(c)[i].k) && Whole(ColumnEntries(c)[i].v)
  {
    hide Whole, IsName, Quoted, Decimal, Arr, Flag;
    CoreNames();
    DecimalIsWhole(c.id);
    QuotedIsWhole(OrEmpty(c.name));
    QuotedIsWhole(OrEmpty(c.ty));
    FlagIsWhole(c.primaryKey);
    FlagIsWhole(c.nullable);
  }

  lemma ColumnEntriesAreWhole(c: Column)
    requires ValidColumn(c)
    ensures WholeEntries(ColumnEntries(c))
    ensures forall v | v in VariantTexts(c.variants) :: Whole(v)
  {
    hide Whole, IsName, Quoted, Decimal, Arr, Flag;
    CoreEntriesAreWhole(c);
    OptionalNames();
    SourceName();
    QuotedIsWhole(OrEmpty(c.defaultExpr));
    QuotedIsWhole(OrEmpty(c.defaultText));
    forall v | v in VariantTexts(c.variants) ensures Whole(v) {
      var k :| 0 <= k < |c.variants| && VariantTexts(c.variants)[k] == v;
      QuotedIsWhole(OrEmpty(c.variants[k]));
    }
    hide VariantTexts;
    ArrIsWhole(VariantTexts(c.variants));
  }

  lemma VariantsAreRead(x: Items, variants: seq<Option<CString>>)
    requires variants == [] ==> Get(x, "enum_variants") == None
    requires variants != [] ==>
               var ts := ArrayIn(x, "enum_variants"); var ws := VariantTexts(variants);
               ts.Some? && |ts.value| == |ws| && forall k | 0 <= k < |ws| :: Whole(ws[k]) && ts.value[k] == Parsed(ws[k]).t
    ensures ReadsVariants(x, variants)
  {
    hide Whole, Parsed, Quoted, Unescape, Get, ArrayIn;
    if variants != [] {
      var ts, ws := ArrayIn(x, "enum_variants"), VariantTexts(variants);
      forall k | 0 <= k < |variants|
        ensures ts.value[k].Str? && Unescape(ts.value[k].body) == if variants[k].Some? then variants[k].value else ""
      {
        assert ts.value[k] == Parsed(ws[k]).t;
        QuotedIsRead(OrEmpty(variants[k]));
      }
    }
  }

  lemma DefaultIsRead(c: Column)
    requires ValidColumn(c) && WholeEntries(ColumnEntries(c)) && Distinct(ColumnEntries(c))
    ensures ReadsDefault(EntryItems(ColumnEntries(c)), c)
    ensures ReadsRaw(EntryItems(ColumnEntries(c)), "embedding_source", c.embeddingSource)
  {
    hide Whole, Parsed, EntryItems, WholeEntries, Distinct, Quoted, Decimal, Arr, Flag, VariantTexts, StringIn, Get, FirstMember;
    var es := ColumnEntries(c);
    StringEntry(es, 6, OrEmpty(c.defaultExpr));
    EntryAt(es, 7, AString);
    if c.defaultJson.None? { StringEntry(es, 7, OrEmpty(c.defaultText)); }
    EntryAt(es, 8, AString);
  }

  /** A column read by name: its id, name, type and flags, its variants in order, and its default and
      embedding source as they were given. */
  lemma ColumnIsRead(c: Column)
    requires ValidColumn(c)
    ensures IsObject(ColumnText(c)) && ReadsColumn(MembersIn(ColumnText(c)), c)
  {
    hide Whole, Parsed, EntryItems, WholeEntries, Distinct, Obj, Quoted, Decimal, Arr, VariantTexts, ColumnMembers, EntryTexts;
    hide StringIn, NumberIn, TokenIn, BoolIn, Get, FirstMember, ArrayIn, NothingElse, ReadsVariants, ReadsDefault, ReadsRaw;
    var es := ColumnEntries(c);
    ColumnEntryTexts(c);
    ColumnNamesDiffer(c);
    ColumnEntriesAreWhole(c);
    EntriesAreObject(es);
    OnlyEntries(es, ["id", "name", "ty", "primary_key", "nullable", "enum_variants", "default_expr", "default_value",
                     "embedding_source"]);
    NumberEntry(es, 0, c.id);
    StringEntry(es, 1, OrEmpty(c.name));
    StringEntry(es, 2, OrEmpty(c.ty));
    FlagEntry(es, 3, c.primaryKey != 0);
    FlagEntry(es, 4, c.nullable != 0);
    ArrayEntry(es, 5, VariantTexts(c.variants));
    EntryAt(es, 5, AnArray);
    VariantsAreRead(EntryItems(es), c.variants);
    DefaultIsRead(c);
  }

  // ---- The table ----

  function TableEntries(name: CString, columns: seq<Column>, constraints: Option<CString>, indexes: seq<Index>): seq<Entry> {
    [Entry(true, "name", Quoted(name)), Entry(true, "columns", Arr(ColumnTexts(columns))),
     Entry(OrEmpty(constraints) != "", "constraints", OrEmpty(constraints))] +
    [Entry(indexes != [], "indexes", Arr(IndexTexts(indexes)))]
  }

  lemma TableEntryTexts(name: CString, columns: seq<Column>, constraints: Option<CString>, indexes: seq<Index>)
    ensures EntryTexts(TableEntries(name, columns, constraints, indexes)) ==
            TableMembers(name, columns, constraints) + IndexListMembers(indexes)
    ensures Distinct(TableEntries(name, columns, constraints, indexes))
  {
    hide Member, Quoted, Arr, EntryTexts, ColumnTexts, IndexTexts;
    var es := TableEntries(name, columns, constraints, indexes);
    ThreeEntries(es[0], es[1], es[2], [es[3]]);
    OneEntry(es[3]);
  }

  lemma TableEntriesAreWhole(name: CString, columns: seq<Column>, constraints: Option<CString>, indexes: seq<Index>)
    requires ValidTable(columns, constraints) && forall x | x in indexes :: Fits(x)
    ensures WholeEntries(TableEntries(name, columns, constraints, indexes))
    ensures forall v | v in ColumnTexts(columns) :: Whole(v)
    ensures forall v | v in IndexTexts(indexes) :: Whole(v)
  {
    hide Whole, IsName, Quoted, Arr, ColumnText, IndexWritten, Fits, ValidColumn;
    TableNames();
    QuotedIsWhole(name);
    forall v | v in ColumnTexts(columns) ensures Whole(v) {
      var k :| 0 <= k < |columns| && ColumnTexts(columns)[k] == v;
      assert columns[k] in columns;
      ColumnIsWhole(columns[k]);
    }
    forall v | v in IndexTexts(indexes) ensures Whole(v) {
      var k :| 0 <= k < |indexes| && IndexTexts(indexes)[k] == v;
      assert indexes[k] in indexes;
      IndexIsWhole(indexes[k]);
    }
    hide ColumnTexts, IndexTexts;
    ArrIsWhole(ColumnTexts(columns));
    ArrIsWhole(IndexTexts(indexes));
  }

  lemma ColumnsAreRead(x: Items, columns: seq<Column>)
    requires forall c | c in columns :: ValidColumn(c)
    requires var ts := ArrayIn(x, "columns"); var ws := ColumnTexts(columns);
             ts.Some? && |ts.value| == |ws| && forall k | 0 <= k < |ws| :: Whole(ws[k]) && ts.value[k] == Parsed(ws[k]).t
    ensures ReadsColumns(x, columns)
  {
    hide Whole, Parsed, ColumnText, ReadsColumn, ValidColumn, ArrayIn;
    var ts, ws := ArrayIn(x, "columns"), ColumnTexts(columns);
    forall k | 0 <= k < |columns|
      ensures ts.value[k].Node? && ts.value[k].keyed && ReadsColumn(ts.value[k].items, columns[k])
    {
      assert columns[k] in columns;
      ColumnIsRead(columns[k]);
      assert ts.value[k] == Parsed(ws[k]).t;
    }
  }

  lemma IndexesAreRead(x: Items, indexes: seq<Index>)
    requires forall i | i in indexes :: Fits(i)
    requires indexes == [] ==> Get(x, "indexes") == None
    requires indexes != [] ==>
               var ts := ArrayIn(x, "indexes"); var ws := IndexTexts(indexes);
               ts.Some? && |ts.value| == |ws| && forall k | 0 <= k < |ws| :: Whole(ws[k]) && ts.value[k] == Parsed(ws[k]).t
    ensures ReadsIndexes(x, indexes)
  {
    hide Whole, Parsed, IndexWritten, ReadsIndex, Fits, ArrayIn, Get;
    if indexes != [] {
      var ts, ws := ArrayIn(x, "indexes"), IndexTexts(indexes);
      forall k | 0 <= k < |indexes|
        ensures ts.value[k].Node? && ts.value[k].keyed && ReadsIndex(ts.value[k].items, indexes[k])
      {
        assert indexes[k] in indexes;
        IndexIsRead(indexes[k]);
        assert ts.value[k] == Parsed(ws[k]).t;
      }
    }
  }

  /** A create_table body read by name: the name, the columns in order, the constraints if there are
      any, and the indexes in order. */
  lemma TableIsRead(name: CString, columns: seq<Column>, constraints: Option<CString>, indexes: seq<Index>)
    requires ValidTable(columns, constraints) && forall x | x in indexes :: Fits(x)
    ensures IsObject(TableText(name, columns, constraints, indexes))
    ensures ReadsTable(MembersIn(TableText(name, columns, constraints, indexes)), name, columns, constraints, indexes)
  {
    hide Whole, Parsed, EntryItems, WholeEntries, Distinct, Obj, Quoted, Arr, ColumnTexts, IndexTexts, EntryTexts, Fits;
    hide StringIn, Get, FirstMember, ArrayIn, NothingElse, ReadsColumns, ReadsIndexes, ValidColumn;
    var es := TableEntries(name, columns, constraints, indexes);
    TableEntryTexts(name, columns, constraints, indexes);
    TableEntriesAreWhole(name, columns, constraints, indexes);
    EntriesAreObject(es);
    OnlyEntries(es, ["name", "columns", "constraints", "indexes"]);
    StringEntry(es, 0, name);
    ArrayEntry(es, 1, ColumnTexts(columns));
    EntryAt(es, 2, AString);
    ArrayEntry(es, 3, IndexTexts(indexes));
    EntryAt(es, 3, AnArray);
    ColumnsAreRead(EntryItems(es), columns);
    IndexesAreRead(EntryItems(es), indexes);
  }
}
