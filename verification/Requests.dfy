/** The bodies of query and retrieve_text requests, and that each is one value. */
module Requests {
  import opened Bytes
  import opened Grammar
  import opened Scan
  import opened Buffer
  import opened Strings
  import opened Numbers
  import opened Compose
  import opened Writers
  import opened Wire
  import opened Rfc8259

  // ---- Conditions ----

  datatype Test =
    | TestPk(str: Option<CString>, number: int64)
    | TestBitmapEq(columnId: int64, str: Option<CString>)
    | TestRange(columnId: int64, lo: Option<Double>, hi: Option<Double>)
    | TestContains(columnId: int64, str: Option<CString>)
    | TestIsNull(columnId: int64)
    | TestIsNotNull(columnId: int64)
    | TestUnknown

  /** A condition: raw JSON if there is any, otherwise the typed test. */
  datatype Condition = Condition(test: Test, json: Option<CString>)

  predicate IsRaw(c: Condition) {
    c.json.Some? && c.json.value != ""
  }

  function DoubleText(d: Double): string {
    match d
    case NonFinite(shown) => shown
    case Finite(n) => NumberText(n)
  }

  function TestName(t: Test): string {
    match t
    case TestPk(_, _) => "pk"
    case TestBitmapEq(_, _) => "bitmap_eq"
    case TestRange(_, _, _) => "range"
    case TestContains(_, _) => "fm_contains"
    case TestIsNull(_) => "is_null"
    case TestIsNotNull(_) => "is_not_null"
    case TestUnknown => "pk"
  }

  function Column(id: int64): string {
    Member("column_id", Decimal(id))
  }

  function TestFields(t: Test): seq<string> {
    match t
    case TestPk(str, i) => [Member("value", if str.Some? then Quoted(str.value) else Decimal(i))]
    case TestBitmapEq(id, str) => [Column(id), Member("value", Quoted(OrEmpty(str)))]
    case TestRange(id, lo, hi) =>
      [Column(id)] + (if lo.Some? then [Member("lo", DoubleText(lo.value))] else []) +
      (if hi.Some? then [Member("hi", DoubleText(hi.value))] else [])
    case TestContains(id, str) => [Column(id), Member("pattern", Quoted(OrEmpty(str)))]
    case TestIsNull(id) => [Column(id)]
    case TestIsNotNull(id) => [Column(id)]
    case TestUnknown => [Member("value", "null")]
  }

  function ConditionText(c: Condition): string {
    if IsRaw(c) then c.json.value else Obj([Member(TestName(c.test), Obj(TestFields(c.test)))])
  }

  /** Raw JSON must be one value, and range bounds finite. */
  ghost predicate ValidCondition(c: Condition, strict: bool := false) {
    if IsRaw(c) then Whole(c.json.value, strict)
    else c.test.TestRange? ==> (c.test.lo.Some? ==> c.test.lo.value.Finite?) && (c.test.hi.Some? ==> c.test.hi.value.Finite?)
  }

  method SerializeTestFields(out: Sbuf, t: Test, ghost base: string)
    requires out.Valid()
    requires !out.failed ==> out.Contents() == base
    modifies out, out.data
    ensures out.Valid() && (out.data == old(out.data) || fresh(out.data))
    ensures !out.failed ==> !old(out.failed) && out.Contents() == base + Join(TestFields(t))
  {
    hide Member, Join, Quoted, Decimal;
    NothingYet(base);
    match t {
      case TestPk(str, i) =>
        if str.Some? {
          WriteString(out, "value", str.value, base, [], true);
        } else {
          WriteRaw(out, "value", Decimal(i), base, [], true);
        }
        assert [] + TestFields(t) == TestFields(t);
      case TestUnknown =>
        WriteRaw(out, "value", "null", base, [], true);
        assert [] + TestFields(t) == TestFields(t);
      case _ =>
        SerializeColumnTest(out, t, base);
    }
  }

  method SerializeColumnTest(out: Sbuf, t: Test, ghost base: string)
    requires out.Valid() && !t.TestPk? && !t.TestUnknown?
    requires !out.failed ==> out.Contents() == base + Join([])
    modifies out, out.data
    ensures out.Valid() && (out.data == old(out.data) || fresh(out.data))
    ensures !out.failed ==> !old(out.failed) && out.Contents() == base + Join(TestFields(t))
  {
    hide Member, Join, Quoted, Decimal, DoubleText;
    WriteRaw(out, "column_id", Decimal(t.columnId), base, [], true);
    ghost var ms := [Column(t.columnId)];
    assert [] + ms == ms;
    if t.TestBitmapEq? {
      WriteString(out, "value", OrEmpty(t.str), base, ms, false);
      assert ms + [Member("value", Quoted(OrEmpty(t.str)))] == TestFields(t);
    } else if t.TestContains? {
      WriteString(out, "pattern", OrEmpty(t.str), base, ms, false);
      assert ms + [Member("pattern", Quoted(OrEmpty(t.str)))] == TestFields(t);
    } else if t.TestRange? {
      if t.lo.Some? {
        WriteRaw(out, "lo", DoubleText(t.lo.value), base, ms, false);
        ms := ms + [Member("lo", DoubleText(t.lo.value))];
      }
      if t.hi.Some? {
        WriteRaw(out, "hi", DoubleText(t.hi.value), base, ms, false);
        ms := ms + [Member("hi", DoubleText(t.hi.value))];
      }
      assert ms == TestFields(t);
    } else {
      assert ms == TestFields(t);
    }
  }

  method SerializeCondition(out: Sbuf, c: Condition)
    requires out.Valid()
    modifies out, out.data
    ensures out.Valid() && (out.data == old(out.data) || fresh(out.data))
    ensures !out.failed ==> !old(out.failed) && out.Contents() == old(out.Contents()) + ConditionText(c)
  {
    hide Join, TestFields, Name, TestName;
    var ok;
    if IsRaw(c) {
      ok := out.Append(c.json.value);
      return;
    }
    ghost var was := out.Contents();
    ok := out.Append("{");
    WriteName(out, true, TestName(c.test));
    ok := out.Append("{");
    ghost var base := out.Contents();
    SerializeTestFields(out, c.test, base);
    ok := out.Append("}");
    ok := out.Append("}");
    NestedObject(was, TestName(c.test), TestFields(c.test));
  }

  lemma NestedObject(was: string, name: string, fields: seq<string>)
    ensures ((((was + "{") + Name(name)) + "{") + Join(fields)) + "}" + "}" == was + Obj([Member(name, Obj(fields))])
  {
    hide Name, Join;
    JoinOne(Name(name) + ("{" + (Join(fields) + "}")));
  }

  lemma TestNames()
    ensures IsName("value") && IsName("column_id") && IsName("pattern") && IsName("lo") && IsName("hi")
  {}

  lemma KindNames()
    ensures IsName("pk") && IsName("bitmap_eq") && IsName("range") && IsName("fm_contains")
    ensures IsName("is_null") && IsName("is_not_null")
  {}

  lemma BoundIsPart(k: string, d: Double, strict: bool := false)
    requires IsName(k) && d.Finite?
    ensures IsPart(Member(k, DoubleText(d)), true, strict)
  {
    hide Whole, IsPart, Member, IsName;
    DoubleIsWhole(d.n, strict);
    PlainMember(k, NumberText(d.n), strict);
  }

  lemma TestFieldsAreParts(c: Condition, strict: bool := false)
    requires ValidCondition(c, strict) && !IsRaw(c)
    ensures forall x | x in TestFields(c.test) :: IsPart(x, true, strict)
  {
    hide Whole, IsPart, Member, IsName, Decimal, Quoted, DoubleText;
    TestNames();
    var t := c.test;
    if t.TestPk? {
      if t.str.Some? { QuotedIsWhole(t.str.value, strict); } else { DecimalIsWhole(t.number, strict); }
      PlainMember("value", if t.str.Some? then Quoted(t.str.value) else Decimal(t.number), strict);
    } else if t.TestUnknown? {
      LiteralIsWhole("null", strict);
      PlainMember("value", "null", strict);
    } else {
      DecimalIsWhole(t.columnId, strict);
      PlainMember("column_id", Decimal(t.columnId), strict);
      if t.TestBitmapEq? || t.TestContains? {
        QuotedIsWhole(OrEmpty(t.str), strict);
        PlainMember("value", Quoted(OrEmpty(t.str)), strict);
        PlainMember("pattern", Quoted(OrEmpty(t.str)), strict);
      } else if t.TestRange? {
        if t.lo.Some? { BoundIsPart("lo", t.lo.value, strict); }
        if t.hi.Some? { BoundIsPart("hi", t.hi.value, strict); }
      }
    }
  }

  lemma ConditionIsWhole(c: Condition, strict: bool := false)
    requires ValidCondition(c, strict)
    ensures Whole(ConditionText(c), strict)
  {
    hide Whole, IsPart, Member, IsName, TestFields, Obj;
    if !IsRaw(c) {
      TestFieldsAreParts(c, strict);
      KindNames();
      ObjIsWhole(TestFields(c.test), strict);
      assert IsName(TestName(c.test));
      PlainMember(TestName(c.test), Obj(TestFields(c.test)), strict);
      ObjIsWhole([Member(TestName(c.test), Obj(TestFields(c.test)))], strict);
    }
  }

  // ---- The query body ----

  function ConditionTexts(cs: seq<Condition>): seq<string> {
    seq(|cs|, k requires 0 <= k < |cs| => ConditionText(cs[k]))
  }

  function ProjectionTexts(ids: seq<int64>): seq<string> {
    seq(|ids|, k requires 0 <= k < |ids| => Decimal(ids[k]))
  }

  function Selection(table: CString, conditions: seq<Condition>, projection: seq<int64>): seq<string> {
    [Member("table", Quoted(table))] +
    (if conditions != [] then [Member("conditions", Arr(ConditionTexts(conditions)))] else []) +
    (if projection != [] then [Member("projection", Arr(ProjectionTexts(projection)))] else [])
  }

  function QueryMembers(table: CString, conditions: seq<Condition>, projection: seq<int64>, limit: int64, offset: int64):
    seq<string>
  {
    Selection(table, conditions, projection) +
    (if limit > 0 then [Member("limit", Decimal(limit))] else []) +
    (if offset != 0 then [Member("offset", Decimal(offset))] else [])
  }

  function QueryText(table: CString, conditions: seq<Condition>, projection: seq<int64>, limit: int64, offset: int64): string {
    Obj(QueryMembers(table, conditions, projection, limit, offset))
  }

  method WriteConditions(out: Sbuf, cs: seq<Condition>, ghost base: string, ghost ms: seq<string>)
    requires out.Valid() && ms != []
    requires !out.failed ==> out.Contents() == base + Join(ms)
    modifies out, out.data
    ensures out.Valid() && (out.data == old(out.data) || fresh(out.data))
    ensures !out.failed ==> !old(out.failed) && out.Contents() == base + Join(ms + [Member("conditions", Arr(ConditionTexts(cs)))])
  {
    hide Join, ListStart, ConditionText;
    ghost var xs := ConditionTexts(cs);
    OpenList(out, "conditions", base, ms, false);
    ghost var start := ListStart(base, ms, "conditions");
    var i := 0;
    while i < |cs|
      invariant i <= |cs| && out.Valid()
      invariant out.data == old(out.data) || fresh(out.data)
      invariant !out.failed ==> !old(out.failed) && out.Contents() == start + Join(xs[..i])
    {
      NextElement(out, start, xs, i);
      SerializeCondition(out, cs[i]);
      i := i + 1;
    }
    CloseList(out, "conditions", base, ms, xs, i);
  }

  method WriteProjection(out: Sbuf, ids: seq<int64>, ghost base: string, ghost ms: seq<string>)
    requires out.Valid() && ms != []
    requires !out.failed ==> out.Contents() == base + Join(ms)
    modifies out, out.data
    ensures out.Valid() && (out.data == old(out.data) || fresh(out.data))
    ensures !out.failed ==> !old(out.failed) && out.Contents() == base + Join(ms + [Member("projection", Arr(ProjectionTexts(ids)))])
  {
    hide Join, ListStart, Decimal;
    ghost var xs := ProjectionTexts(ids);
    OpenList(out, "projection", base, ms, false);
    ghost var start := ListStart(base, ms, "projection");
    var i := 0;
    while i < |ids|
      invariant i <= |ids| && out.Valid()
      invariant out.data == old(out.data) || fresh(out.data)
      invariant !out.failed ==> !old(out.failed) && out.Contents() == start + Join(xs[..i])
    {
      NextElement(out, start, xs, i);
      var ok := out.Append(Decimal(ids[i]));
      i := i + 1;
    }
    CloseList(out, "projection", base, ms, xs, i);
  }

  method WriteSelection(out: Sbuf, table: CString, conditions: seq<Condition>, projection: seq<int64>, ghost base: string)
    requires out.Valid()
    requires !out.failed ==> out.Contents() == base
    modifies out, out.data
    ensures out.Valid() && (out.data == old(out.data) || fresh(out.data))
    ensures !out.failed ==> !old(out.failed) && out.Contents() == base + Join(Selection(table, conditions, projection))
  {
    hide Join, Member, Quoted, Decimal, ConditionTexts, ProjectionTexts, Arr;
    NothingYet(base);
    WriteString(out, "table", table, base, [], true);
    ghost var ms := [Member("table", Quoted(table))];
    assert [] + ms == ms;
    if |conditions| > 0 {
      WriteConditions(out, conditions, base, ms);
      ms := ms + [Member("conditions", Arr(ConditionTexts(conditions)))];
    }
    if |projection| > 0 {
      WriteProjection(out, projection, base, ms);
      ms := ms + [Member("projection", Arr(ProjectionTexts(projection)))];
    }
    assert ms == Selection(table, conditions, projection);
  }

  method QueryBody(table: CString, conditions: seq<Condition>, projection: seq<int64>, limit: int64, offset: int64)
    returns (out: Sbuf)
    ensures fresh(out) && out.Valid()
    ensures !out.failed ==> out.Contents() == QueryText(table, conditions, projection, limit, offset)
  {
    hide Join, Member, Selection, Decimal;
    out := new Sbuf();
    var ok := out.Append("{");
    WriteSelection(out, table, conditions, projection, "{");
    ghost var ms := Selection(table, conditions, projection);
    assert ms != [] by { SelectionNotEmpty(table, conditions, projection); }
    if limit > 0 {
      WriteRaw(out, "limit", Decimal(limit), "{", ms, false);
      ms := ms + [Member("limit", Decimal(limit))];
    }
    if offset != 0 {
      WriteRaw(out, "offset", Decimal(offset), "{", ms, false);
      ms := ms + [Member("offset", Decimal(offset))];
    }
    ok := out.Append("}");
    assert ms == QueryMembers(table, conditions, projection, limit, offset);
    assert ("{" + Join(ms)) + "}" == Obj(ms);
  }

  lemma SelectionNotEmpty(table: CString, conditions: seq<Condition>, projection: seq<int64>)
    ensures Selection(table, conditions, projection) != []
  {}

  lemma BodyNames()
    ensures IsName("table") && IsName("conditions") && IsName("projection") && IsName("limit") && IsName("offset")
  {}

  lemma ListsAreWhole(conditions: seq<Condition>, projection: seq<int64>, strict: bool := false)
    requires forall c | c in conditions :: ValidCondition(c, strict)
    ensures Whole(Arr(ConditionTexts(conditions)), strict) && Whole(Arr(ProjectionTexts(projection)), strict)
  {
    hide Whole, ConditionText, Decimal, Arr, ValidCondition;
    forall x | x in ConditionTexts(conditions) ensures Whole(x, strict) {
      var k :| 0 <= k < |ConditionTexts(conditions)| && ConditionTexts(conditions)[k] == x;
      assert conditions[k] in conditions;
      ConditionIsWhole(conditions[k], strict);
    }
    forall x | x in ProjectionTexts(projection) ensures Whole(x, strict) {
      var k :| 0 <= k < |ProjectionTexts(projection)| && ProjectionTexts(projection)[k] == x;
      DecimalIsWhole(projection[k], strict);
    }
    ArrIsWhole(ConditionTexts(conditions), strict);
    ArrIsWhole(ProjectionTexts(projection), strict);
  }

  /** Every query body is one value, and JSON of RFC 8259 if raw conditions are. */
  lemma QueryIsWhole(
    table: CString, conditions: seq<Condition>, projection: seq<int64>, limit: int64, offset: int64, strict: bool := false)
    requires forall c | c in conditions :: ValidCondition(c, strict)
    ensures Whole(QueryText(table, conditions, projection, limit, offset), strict)
  {
    hide Whole, IsPart, Member, IsName, ConditionTexts, ProjectionTexts, Arr, Obj, Quoted, Decimal;
    BodyNames();
    QuotedIsWhole(table, strict);
    PlainMember("table", Quoted(table), strict);
    ListsAreWhole(conditions, projection, strict);
    PlainMember("conditions", Arr(ConditionTexts(conditions)), strict);
    PlainMember("projection", Arr(ProjectionTexts(projection)), strict);
    DecimalIsWhole(limit, strict);
    PlainMember("limit", Decimal(limit), strict);
    DecimalIsWhole(offset, strict);
    PlainMember("offset", Decimal(offset), strict);
    ObjIsWhole(QueryMembers(table, conditions, projection, limit, offset), strict);
  }

  // ---- The retrieve_text body ----

  const NUM_ROOM: nat := 63

  function EmbeddingFragment(column: int64): string {
    "," + (Member("embedding_column", Decimal(column)) + ("," + Name("text")))
  }

  function KFragment(k: int64): string {
    "," + Member("k", Decimal(k))
  }

  /** Both fragments fit their 64-byte scratch buffer. */
  lemma RetrieveFragmentsFit(column: int64, k: int64)
    ensures |EmbeddingFragment(column)| <= NUM_ROOM && |KFragment(k)| <= NUM_ROOM
  {
    hide Decimal;
    DecimalLength(column);
    DecimalLength(k);
  }

  function RetrieveMembers(table: CString, column: int64, text: CString, k: int64): seq<string> {
    [Member("table", Quoted(table)), Member("embedding_column", Decimal(column)), Member("text", Quoted(text))] +
    (if k > 0 then [Member("k", Decimal(k))] else [])
  }

  function RetrieveText(table: CString, column: int64, text: CString, k: int64): string {
    Obj(RetrieveMembers(table, column, text, k))
  }

  /** Builds the body.  The result does not report a refusal inside an escaped string; `failed` does. */
  method RetrieveBody(table: CString, column: int64, text: CString, k: int64, out: Sbuf) returns (rc: int)
    requires out.Valid()
    modifies out
    ensures out.Valid() && (rc == 0 || rc == -1)
    ensures !out.failed ==> rc == 0 && out.Contents() == RetrieveText(table, column, text, k)
  {
    hide Join, Member, Quoted, RetrieveText, EmbeddingFragment, KFragment, Cut, Name;
    out.Free();
    rc := StartRetrieve(out, table, column);
    if rc != 0 { return; }
    JsonEscape(out, text);
    rc := FinishRetrieve(out, k);
    RetrieveTextIs(table, column, text, k);
  }

  method StartRetrieve(out: Sbuf, table: CString, column: int64) returns (rc: int)
    requires out.Valid() && out.Contents() == ""
    modifies out, out.data
    ensures out.Valid() && (out.data == old(out.data) || fresh(out.data)) && (rc == 0 || rc == -1)
    ensures !out.failed ==>
              !old(out.failed) && rc == 0 &&
              out.Contents() == (("{" + Name("table")) + Quoted(table)) + EmbeddingFragment(column)
  {
    hide Quoted, EmbeddingFragment, KFragment, Cut, Name;
    var ok := out.Append("{" + Name("table"));
    if !ok { return -1; }
    JsonEscape(out, table);
    FragmentsAreKept(column, 0);
    ok := out.Append(Cut(EmbeddingFragment(column), NUM_ROOM));
    return if ok then 0 else -1;
  }

  method FinishRetrieve(out: Sbuf, k: int64) returns (rc: int)
    requires out.Valid()
    modifies out, out.data
    ensures out.Valid() && (out.data == old(out.data) || fresh(out.data)) && (rc == 0 || rc == -1)
    ensures !out.failed ==>
              !old(out.failed) && rc == 0 &&
              out.Contents() == (if k > 0 then old(out.Contents()) + KFragment(k) else old(out.Contents())) + "}"
  {
    hide KFragment, EmbeddingFragment, Cut;
    var ok;
    if k > 0 {
      FragmentsAreKept(0, k);
      ok := out.Append(Cut(KFragment(k), NUM_ROOM));
      if !ok { return -1; }
    }
    ok := out.Append("}");
    return if ok then 0 else -1;
  }

  lemma FragmentsAreKept(column: int64, k: int64)
    ensures Cut(EmbeddingFragment(column), NUM_ROOM) == EmbeddingFragment(column)
    ensures Cut(KFragment(k), NUM_ROOM) == KFragment(k)
  {
    hide EmbeddingFragment, KFragment;
    RetrieveFragmentsFit(column, k);
  }

  lemma RetrieveTextIs(table: CString, column: int64, text: CString, k: int64)
    ensures var body := ((("{" + Name("table")) + Quoted(table)) + EmbeddingFragment(column)) + Quoted(text);
            (if k > 0 then body + KFragment(k) else body) + "}" == RetrieveText(table, column, text, k)
  {
    hide Join, Quoted, Decimal, Name;
    var a, b, c := Member("table", Quoted(table)), Member("embedding_column", Decimal(column)), Member("text", Quoted(text));
    var body := ((("{" + Name("table")) + Quoted(table)) + EmbeddingFragment(column)) + Quoted(text);
    BodyIsThree(table, column, text);
    if k > 0 {
      hide Member;
      JoinMore([a, b, c], Member("k", Decimal(k)));
      assert RetrieveMembers(table, column, text, k) == [a, b, c] + [Member("k", Decimal(k))];
      assert (body + ("," + Member("k", Decimal(k)))) + "}" == "{" + ((Join([a, b, c]) + ("," + Member("k", Decimal(k)))) + "}");
    } else {
      hide Member;
      assert RetrieveMembers(table, column, text, k) == [a, b, c];
    }
  }

  lemma BodyIsThree(table: CString, column: int64, text: CString)
    ensures ((("{" + Name("table")) + Quoted(table)) + EmbeddingFragment(column)) + Quoted(text) ==
            "{" + Join([Member("table", Quoted(table)), Member("embedding_column", Decimal(column)), Member("text", Quoted(text))])
  {
    hide Quoted, Decimal, Name;
    var t, e, q := Name("table") + Quoted(table), Name("embedding_column") + Decimal(column), Name("text") + Quoted(text);
    JoinThree(t, e, q);
    assert ((("{" + Name("table")) + Quoted(table)) + EmbeddingFragment(column)) + Quoted(text) ==
           "{" + (t + ("," + (e + ("," + q))));
  }

  lemma RetrieveNames()
    ensures IsName("table") && IsName("embedding_column") && IsName("text") && IsName("k")
  {}

  /** Every retrieve_text body is one value, and JSON of RFC 8259. */
  lemma RetrieveIsWhole(table: CString, column: int64, text: CString, k: int64, strict: bool := false)
    ensures Whole(RetrieveText(table, column, text, k), strict)
  {
    hide Whole, IsPart, Member, IsName, Obj, Quoted, Decimal;
    RetrieveNames();
    QuotedIsWhole(table, strict);
    QuotedIsWhole(text, strict);
    DecimalIsWhole(column, strict);
    DecimalIsWhole(k, strict);
    PlainMember("table", Quoted(table), strict);
    PlainMember("embedding_column", Decimal(column), strict);
    PlainMember("text", Quoted(text), strict);
    PlainMember("k", Decimal(k), strict);
    ObjIsWhole(RetrieveMembers(table, column, text, k), strict);
  }
}
