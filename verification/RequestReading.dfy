/** What the query and retrieve_text bodies say to a reader who looks their members up by name. */
module RequestReading {
  import opened Bytes
  import opened Grammar
  import opened Scan
  import opened Strings
  import opened Numbers
  import opened Compose
  import opened Writers
  import opened Lookup
  import opened Rfc8259
  import opened Wire
  import opened Requests
  import opened Reading

  // ---- Conditions ----

  /** A range bound: the number it prints as, or nothing. */
  ghost predicate ReadsBound(x: Items, key: string, bound: Option<Double>) {
    match bound
    case None => Get(x, key) == None
    case Some(NonFinite(_)) => true
    case Some(Finite(n)) => Get(x, key) == Some(Num(NumberText(n)))
  }

  /** t is an object whose only member has that name and is an object. */
  predicate IsOnly(t: Tree, name: string) {
    IsNamedObject(t) && t.items.e.key.raw == name
  }

  /** The members of a typed test's object. */
  ghost predicate ReadsFields(x: Items, test: Test) {
    match test
    case TestPk(Some(s), _) => StringIn(x, "value") == Some(s) && NothingElse(x, ["value"])
    case TestPk(None, i) => NumberIn(x, "value") == Some(i) && NothingElse(x, ["value"])
    case TestBitmapEq(id, s) =>
      NumberIn(x, "column_id") == Some(id) && StringIn(x, "value") == Some(if s.Some? then s.value else "") &&
      NothingElse(x, ["column_id", "value"])
    case TestRange(id, lo, hi) =>
      NumberIn(x, "column_id") == Some(id) && ReadsBound(x, "lo", lo) && ReadsBound(x, "hi", hi) &&
      NothingElse(x, ["column_id", "lo", "hi"])
    case TestContains(id, s) =>
      NumberIn(x, "column_id") == Some(id) && StringIn(x, "pattern") == Some(if s.Some? then s.value else "") &&
      NothingElse(x, ["column_id", "pattern"])
    case TestIsNull(id) => NumberIn(x, "column_id") == Some(id) && NothingElse(x, ["column_id"])
    case TestIsNotNull(id) => NumberIn(x, "column_id") == Some(id) && NothingElse(x, ["column_id"])
    case TestUnknown => Get(x, "value") == Some(Lit("null")) && NothingElse(x, ["value"])
  }

  /** t says what the typed test says: one object, named after the kind of the test. */
  ghost predicate ReadsTest(t: Tree, test: Test) {
    (match test
     case TestPk(_, _) => IsOnly(t, "pk")
     case TestBitmapEq(_, _) => IsOnly(t, "bitmap_eq")
     case TestRange(_, _, _) => IsOnly(t, "range")
     case TestContains(_, _) => IsOnly(t, "fm_contains")
     case TestIsNull(_) => IsOnly(t, "is_null")
     case TestIsNotNull(_) => IsOnly(t, "is_not_null")
     case TestUnknown => IsOnly(t, "pk")) &&
    IsNamedObject(t) && ReadsFields(t.items.e.v.items, test)
  }

  /** Raw JSON stands for itself if there is any; otherwise the typed test is read. */
  ghost predicate ReadsCondition(t: Tree, c: Condition) {
    if c.json.Some? && c.json.value != "" then Whole(c.json.value) && t == Parsed(c.json.value).t
    else ReadsTest(t, c.test)
  }

  function TestEntries(t: Test): seq<Entry> {
    match t
    case TestPk(str, i) => [Entry(true, "value", if str.Some? then Quoted(str.value) else Decimal(i))]
    case TestBitmapEq(id, str) => [Entry(true, "column_id", Decimal(id)), Entry(true, "value", Quoted(OrEmpty(str)))]
    case TestRange(id, lo, hi) =>
      [Entry(true, "column_id", Decimal(id)), BoundEntry("lo", lo), BoundEntry("hi", hi)]
    case TestContains(id, str) => [Entry(true, "column_id", Decimal(id)), Entry(true, "pattern", Quoted(OrEmpty(str)))]
    case TestIsNull(id) => [Entry(true, "column_id", Decimal(id))]
    case TestIsNotNull(id) => [Entry(true, "column_id", Decimal(id))]
    case TestUnknown => [Entry(true, "value", "null")]
  }

  function BoundEntry(k: string, b: Option<Double>): Entry {
    Entry(b.Some?, k, if b.Some? then DoubleText(b.value) else "")
  }

  lemma TestEntryTexts(t: Test)
    ensures EntryTexts(TestEntries(t)) == TestFields(t)
  {
    hide Member, Quoted, Decimal, DoubleText, EntryTexts;
    match t {
      case TestBitmapEq(id, str) => TwoEntries(TestEntries(t)[0], TestEntries(t)[1]);
      case TestContains(id, str) => TwoEntries(TestEntries(t)[0], TestEntries(t)[1]);
      case TestRange(id, lo, hi) =>
        var es := TestEntries(t);
        JustThree(es[0], es[1], es[2]);
      case _ => OneEntry(TestEntries(t)[0]);
    }
  }

  lemma TestEntriesAreWhole(c: Condition)
    requires ValidCondition(c) && !IsRaw(c)
    ensures WholeEntries(TestEntries(c.test)) && Distinct(TestEntries(c.test))
  {
    hide Whole, IsName, Quoted, Decimal, DoubleText;
    var t := c.test;
    TestNames();
    match t {
      case TestPk(Some(s), _) => QuotedIsWhole(s);
      case TestPk(None, i) => DecimalIsWhole(i);
      case TestUnknown => LiteralIsWhole("null");
      case TestBitmapEq(id, str) => DecimalIsWhole(id); QuotedIsWhole(OrEmpty(str));
      case TestContains(id, str) => DecimalIsWhole(id); QuotedIsWhole(OrEmpty(str));
      case TestRange(id, lo, hi) => DecimalIsWhole(id); BoundsAreWhole(lo); BoundsAreWhole(hi);
      case TestIsNull(id) => DecimalIsWhole(id);
      case TestIsNotNull(id) => DecimalIsWhole(id);
    }
  }

  lemma BoundsAreWhole(b: Option<Double>)
    requires b.Some? ==> b.value.Finite?
    ensures b.Some? ==> Whole(DoubleText(b.value)) && Parsed(DoubleText(b.value)).t == Num(NumberText(b.value.n))
  {
    hide Whole, Parsed, NumberText;
    if b.Some? { DoubleIsWhole(b.value.n); }
  }

  function TestMemberNames(t: Test): seq<string> {
    match t
    case TestPk(_, _) => ["value"]
    case TestBitmapEq(_, _) => ["column_id", "value"]
    case TestRange(_, _, _) => ["column_id", "lo", "hi"]
    case TestContains(_, _) => ["column_id", "pattern"]
    case TestIsNull(_) => ["column_id"]
    case TestIsNotNull(_) => ["column_id"]
    case TestUnknown => ["value"]
  }

  lemma TestMembersAreNamed(t: Test)
    ensures |TestMemberNames(t)| == |TestEntries(t)|
    ensures forall i | 0 <= i < |TestEntries(t)| :: TestEntries(t)[i].k == TestMemberNames(t)[i]
  {
    hide Quoted, Decimal, DoubleText;
  }

  /** The members of a test, found by name. */
  lemma TestIsRead(c: Condition)
    requires ValidCondition(c) && !IsRaw(c)
    ensures IsObject(Obj(TestFields(c.test)))
    ensures ReadsFields(MembersIn(Obj(TestFields(c.test))), c.test)
  {
    hide Whole, Parsed, EntryItems, Quoted, Decimal, DoubleText, WholeEntries, Distinct, Obj;
    hide StringIn, NumberIn, TokenIn, Get, FirstMember, NumberText, NothingElse;
    var t := c.test;
    var es := TestEntries(t);
    TestEntryTexts(t);
    TestEntriesAreWhole(c);
    EntriesAreObject(es);
    TestMembersAreNamed(t);
    OnlyEntries(es, TestMemberNames(t));
    match t {
      case TestPk(Some(s), _) => StringEntry(es, 0, s);
      case TestPk(None, i) => NumberEntry(es, 0, i);
      case TestUnknown =>
        EntryAt(es, 0, ABool);
        LiteralIsWhole("null");
      case TestBitmapEq(id, str) => NumberEntry(es, 0, id); StringEntry(es, 1, OrEmpty(str));
      case TestContains(id, str) => NumberEntry(es, 0, id); StringEntry(es, 1, OrEmpty(str));
      case TestRange(id, lo, hi) =>
        NumberEntry(es, 0, id);
        EntryAt(es, 1, ANumber);
        EntryAt(es, 2, ANumber);
        BoundsAreWhole(lo);
        BoundsAreWhole(hi);
      case TestIsNull(id) => NumberEntry(es, 0, id);
      case TestIsNotNull(id) => NumberEntry(es, 0, id);
    }
  }

  /** Every condition reads as what it is: raw JSON as itself, a typed test as an object of its kind
      with its column and its value, pattern or bounds. */
  lemma ConditionIsRead(c: Condition)
    requires ValidCondition(c)
    ensures Whole(ConditionText(c)) && ReadsCondition(Parsed(ConditionText(c)).t, c)
  {
    hide Whole, Parsed, IsName, Obj, TestFields, ReadsFields, Member;
    if !IsRaw(c) {
      TestIsRead(c);
      KindNames();
      OneMember(TestName(c.test), Obj(TestFields(c.test)));
    }
  }

  // ---- The query body ----

  function QueryEntries(table: CString, conditions: seq<Condition>, projection: seq<int64>, limit: int64, offset: int64):
    seq<Entry>
  {
    [Entry(true, "table", Quoted(table)), Entry(conditions != [], "conditions", Arr(ConditionTexts(conditions))),
     Entry(projection != [], "projection", Arr(ProjectionTexts(projection)))] +
    [Entry(limit > 0, "limit", Decimal(limit)), Entry(offset != 0, "offset", Decimal(offset))]
  }

  lemma QueryEntryTexts(table: CString, conditions: seq<Condition>, projection: seq<int64>, limit: int64, offset: int64)
    ensures EntryTexts(QueryEntries(table, conditions, projection, limit, offset)) ==
            QueryMembers(table, conditions, projection, limit, offset)
  {
    hide Member, Quoted, Decimal, Arr, ConditionTexts, ProjectionTexts, EntryTexts;
    var es := QueryEntries(table, conditions, projection, limit, offset);
    ThreeEntries(es[0], es[1], es[2], [es[3], es[4]]);
    TwoEntries(es[3], es[4]);
  }

  lemma QueryEntriesAreWhole(
    table: CString, conditions: seq<Condition>, projection: seq<int64>, limit: int64, offset: int64)
    requires forall c | c in conditions :: ValidCondition(c)
    ensures var es := QueryEntries(table, conditions, projection, limit, offset); WholeEntries(es) && Distinct(es)
    ensures forall v | v in ConditionTexts(conditions) :: Whole(v)
    ensures forall v | v in ProjectionTexts(projection) :: Whole(v)
  {
    hide Whole, IsName, Quoted, Decimal, Arr, ConditionText, ValidCondition;
    QueryNamesDiffer(table, conditions, projection, limit, offset);
    hide Distinct;
    BodyNames();
    QuotedIsWhole(table);
    DecimalIsWhole(limit);
    DecimalIsWhole(offset);
    ListsAreWhole(conditions, projection);
    PartsAreWhole(conditions, projection);
  }

  lemma QueryNamesDiffer(table: CString, conditions: seq<Condition>, projection: seq<int64>, limit: int64, offset: int64)
    ensures Distinct(QueryEntries(table, conditions, projection, limit, offset))
  {
    hide Quoted, Decimal, Arr, ConditionTexts, ProjectionTexts;
  }

  lemma PartsAreWhole(conditions: seq<Condition>, projection: seq<int64>)
    requires forall c | c in conditions :: ValidCondition(c)
    ensures forall v | v in ConditionTexts(conditions) :: Whole(v)
    ensures forall v | v in ProjectionTexts(projection) :: Whole(v)
  {
    hide Whole, Decimal, ConditionText, ValidCondition;
    forall v | v in ConditionTexts(conditions) ensures Whole(v) {
      var k :| 0 <= k < |conditions| && ConditionTexts(conditions)[k] == v;
      assert conditions[k] in conditions;
      ConditionIsWhole(conditions[k]);
    }
    forall v | v in ProjectionTexts(projection) ensures Whole(v) {
      var k :| 0 <= k < |projection| && ProjectionTexts(projection)[k] == v;
      DecimalIsWhole(projection[k]);
    }
  }

  /** The list of that name: absent if there are no conditions, otherwise one element a condition. */
  ghost predicate ReadsConditions(x: Items, conditions: seq<Condition>) {
    var ts := ArrayIn(x, "conditions");
    if conditions == [] then Get(x, "conditions") == None
    else ts.Some? && |ts.value| == |conditions| && forall k | 0 <= k < |conditions| :: ReadsCondition(ts.value[k], conditions[k])
  }

  ghost predicate ReadsProjection(x: Items, projection: seq<int64>) {
    var ts := ArrayIn(x, "projection");
    if projection == [] then Get(x, "projection") == None
    else ts.Some? && |ts.value| == |projection| &&
         forall k | 0 <= k < |projection| :: ts.value[k].Num? && Signed(ts.value[k].run) == projection[k]
  }

  /** A query body read by name: the table, the conditions and the projected ids in order, the limit
      if it is positive, and the offset if it is not zero; what is left out is absent. */
  lemma QueryIsRead(table: CString, conditions: seq<Condition>, projection: seq<int64>, limit: int64, offset: int64)
    requires forall c | c in conditions :: ValidCondition(c)
    ensures IsObject(QueryText(table, conditions, projection, limit, offset))
    ensures var x := MembersIn(QueryText(table, conditions, projection, limit, offset));
            StringIn(x, "table") == Some(table) &&
            NumberIn(x, "limit") == (if limit > 0 then Some(limit) else None) &&
            NumberIn(x, "offset") == (if offset != 0 then Some(offset) else None) &&
            ReadsConditions(x, conditions) && ReadsProjection(x, projection) &&
            NothingElse(x, ["table", "conditions", "projection", "limit", "offset"])
  {
    hide Whole, Parsed, EntryItems, Quoted, Decimal, WholeEntries, Distinct, Obj, Arr, ConditionTexts, ProjectionTexts;
    hide StringIn, NumberIn, TokenIn, Get, FirstMember, ArrayIn, ReadsConditions, ReadsProjection, NothingElse;
    var es := QueryEntries(table, conditions, projection, limit, offset);
    QueryEntryTexts(table, conditions, projection, limit, offset);
    QueryEntriesAreWhole(table, conditions, projection, limit, offset);
    EntriesAreObject(es);
    StringEntry(es, 0, table);
    NumberEntry(es, 3, limit);
    NumberEntry(es, 4, offset);
    ArrayEntry(es, 1, ConditionTexts(conditions));
    ArrayEntry(es, 2, ProjectionTexts(projection));
    EntryAt(es, 1, AnArray);
    EntryAt(es, 2, AnArray);
    OnlyEntries(es, ["table", "conditions", "projection", "limit", "offset"]);
    ConditionsAreRead(EntryItems(es), conditions);
    ProjectionIsRead(EntryItems(es), projection);
  }

  lemma ConditionsAreRead(x: Items, conditions: seq<Condition>)
    requires forall c | c in conditions :: ValidCondition(c)
    requires conditions == [] ==> Get(x, "conditions") == None
    requires conditions != [] ==>
               var ts := ArrayIn(x, "conditions"); var ws := ConditionTexts(conditions);
               ts.Some? && |ts.value| == |ws| && forall k | 0 <= k < |ws| :: Whole(ws[k]) && ts.value[k] == Parsed(ws[k]).t
    ensures ReadsConditions(x, conditions)
  {
    hide Whole, Parsed, ConditionText, ReadsCondition, ValidCondition, Get, ArrayIn;
    if conditions != [] {
      var ts, ws := ArrayIn(x, "conditions"), ConditionTexts(conditions);
      forall k | 0 <= k < |conditions| ensures ReadsCondition(ts.value[k], conditions[k]) {
        assert conditions[k] in conditions;
        ConditionIsRead(conditions[k]);
        assert ts.value[k] == Parsed(ws[k]).t;
      }
    }
  }

  lemma ProjectionIsRead(x: Items, projection: seq<int64>)
    requires projection == [] ==> Get(x, "projection") == None
    requires projection != [] ==>
               var ts := ArrayIn(x, "projection"); var ws := ProjectionTexts(projection);
               ts.Some? && |ts.value| == |ws| && forall k | 0 <= k < |ws| :: Whole(ws[k]) && ts.value[k] == Parsed(ws[k]).t
    ensures ReadsProjection(x, projection)
  {
    hide Whole, Parsed, Decimal, Signed, Get, ArrayIn;
    if projection != [] {
      var ts, ws := ArrayIn(x, "projection"), ProjectionTexts(projection);
      forall k | 0 <= k < |projection| ensures ts.value[k].Num? && Signed(ts.value[k].run) == projection[k] {
        DecimalIsRead(projection[k]);
        assert ts.value[k] == Parsed(ws[k]).t;
      }
    }
  }

  // ---- The retrieve_text body ----

  function RetrieveEntries(table: CString, column: int64, text: CString, k: int64): seq<Entry> {
    [Entry(true, "table", Quoted(table)), Entry(true, "embedding_column", Decimal(column)),
     Entry(true, "text", Quoted(text))] + [Entry(k > 0, "k", Decimal(k))]
  }

  lemma RetrieveEntriesAreWhole(table: CString, column: int64, text: CString, k: int64)
    ensures var es := RetrieveEntries(table, column, text, k); WholeEntries(es) && Distinct(es)
    ensures EntryTexts(RetrieveEntries(table, column, text, k)) == RetrieveMembers(table, column, text, k)
  {
    hide Whole, IsName, Quoted, Decimal, EntryTexts, Member;
    RetrieveNames();
    QuotedIsWhole(table);
    QuotedIsWhole(text);
    DecimalIsWhole(column);
    DecimalIsWhole(k);
    var es := RetrieveEntries(table, column, text, k);
    ThreeEntries(es[0], es[1], es[2], [es[3]]);
    OneEntry(es[3]);
  }

  /** A retrieve_text body read by name: table, column, text, and k if it is positive. */
  lemma RetrieveIsRead(table: CString, column: int64, text: CString, k: int64)
    ensures IsObject(RetrieveText(table, column, text, k))
    ensures var x := MembersIn(RetrieveText(table, column, text, k));
            StringIn(x, "table") == Some(table) && NumberIn(x, "embedding_column") == Some(column) &&
            StringIn(x, "text") == Some(text) && NumberIn(x, "k") == (if k > 0 then Some(k) else None) &&
            NothingElse(x, ["table", "embedding_column", "text", "k"])
  {
    hide Whole, Parsed, EntryItems, Quoted, Decimal, WholeEntries, Distinct, Obj, StringIn, NumberIn, TokenIn, EntryTexts, NothingElse;
    var es := RetrieveEntries(table, column, text, k);
    RetrieveEntriesAreWhole(table, column, text, k);
    EntriesAreObject(es);
    OnlyEntries(es, ["table", "embedding_column", "text", "k"]);
    StringEntry(es, 0, table);
    NumberEntry(es, 1, column);
    StringEntry(es, 2, text);
    NumberEntry(es, 3, k);
  }
}
