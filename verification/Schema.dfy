/** The body of a create_table request, and when it is one JSON value. */
module Schema {
  import opened Bytes
  import opened Grammar
  import opened Buffer
  import opened Strings
  import opened Numbers
  import opened Compose
  import opened Writers
  import opened Indexes
  import opened Reader
  import opened IndexCuts

  /** None is a NULL pointer; any nonzero flag is true. */
  datatype Column = Column(
    id: int64, name: Option<CString>, ty: Option<CString>, primaryKey: int, nullable: int,
    variants: seq<Option<CString>>,
    defaultExpr: Option<CString>, defaultJson: Option<CString>, defaultText: Option<CString>,
    embeddingSource: Option<CString>)

  function Flag(b: int): string {
    if b != 0 then "true" else "false"
  }

  function VariantTexts(vs: seq<Option<CString>>): seq<string> {
    seq(|vs|, k requires 0 <= k < |vs| => Quoted(OrEmpty(vs[k])))
  }

  function CoreMembers(c: Column): seq<string> {
    [Member("id", Decimal(c.id)), Member("name", Quoted(OrEmpty(c.name))), Member("ty", Quoted(OrEmpty(c.ty))),
     Member("primary_key", Flag(c.primaryKey)), Member("nullable", Flag(c.nullable))]
  }

  function VariantMembers(c: Column): seq<string> {
    if c.variants != [] then [Member("enum_variants", Arr(VariantTexts(c.variants)))] else []
  }

  /** An expression wins over raw JSON, and raw JSON over a plain text. */
  function DefaultMembers(c: Column): seq<string> {
    if c.defaultExpr.Some? then [Member("default_expr", Quoted(c.defaultExpr.value))]
    else if c.defaultJson.Some? then [Member("default_value", c.defaultJson.value)]
    else if c.defaultText.Some? then [Member("default_value", Quoted(c.defaultText.value))]
    else []
  }

  function SourceMembers(c: Column): seq<string> {
    if c.embeddingSource.Some? then [Member("embedding_source", c.embeddingSource.value)] else []
  }

  function ColumnMembers(c: Column): seq<string> {
    CoreMembers(c) + VariantMembers(c) + DefaultMembers(c) + SourceMembers(c)
  }

  function ColumnText(c: Column): string {
    Obj(ColumnMembers(c))
  }

  function ColumnTexts(cs: seq<Column>): seq<string> {
    seq(|cs|, k requires 0 <= k < |cs| => ColumnText(cs[k]))
  }

  function IndexTexts(xs: seq<Index>): seq<string> {
    seq(|xs|, k requires 0 <= k < |xs| => IndexWritten(xs[k]))
  }

  function ConstraintMembers(constraints: Option<CString>): seq<string> {
    if constraints.Some? && constraints.value != "" then [Member("constraints", constraints.value)] else []
  }

  function TableMembers(name: CString, columns: seq<Column>, constraints: Option<CString>): seq<string> {
    [Member("name", Quoted(name)), Member("columns", Arr(ColumnTexts(columns)))] + ConstraintMembers(constraints)
  }

  function IndexListMembers(indexes: seq<Index>): seq<string> {
    if indexes != [] then [Member("indexes", Arr(IndexTexts(indexes)))] else []
  }

  function TableText(name: CString, columns: seq<Column>, constraints: Option<CString>, indexes: seq<Index>): string {
    Obj(TableMembers(name, columns, constraints) + IndexListMembers(indexes))
  }

  // ---- The writers ----

  method SerializeCore(out: Sbuf, c: Column, ghost base: string)
    requires out.Valid()
    requires !out.failed ==> out.Contents() == base
    modifies out, out.data
    ensures out.Valid() && (out.data == old(out.data) || fresh(out.data))
    ensures !out.failed ==> !old(out.failed) && out.Contents() == base + Join(CoreMembers(c))
  {
    hide Join, Member, Quoted, Decimal, Flag;
    NothingYet(base);
    ghost var ms := CoreMembers(c);
    WriteRaw(out, "id", Decimal(c.id), base, [], true);
    assert [] + [ms[0]] == ms[..1];
    WriteString(out, "name", OrEmpty(c.name), base, ms[..1], false);
    assert ms[..1] + [ms[1]] == ms[..2];
    WriteString(out, "ty", OrEmpty(c.ty), base, ms[..2], false);
    assert ms[..2] + [ms[2]] == ms[..3];
    WriteRaw(out, "primary_key", Flag(c.primaryKey), base, ms[..3], false);
    assert ms[..3] + [ms[3]] == ms[..4];
    WriteRaw(out, "nullable", Flag(c.nullable), base, ms[..4], false);
    assert ms[..4] + [ms[4]] == ms;
  }

  method WriteVariants(out: Sbuf, vs: seq<Option<CString>>, ghost base: string, ghost ms: seq<string>)
    requires out.Valid() && ms != []
    requires !out.failed ==> out.Contents() == base + Join(ms)
    modifies out, out.data
    ensures out.Valid() && (out.data == old(out.data) || fresh(out.data))
    ensures !out.failed ==> !old(out.failed) && out.Contents() == base + Join(ms + [Member("enum_variants", Arr(VariantTexts(vs)))])
  {
    hide Join, ListStart, Quoted;
    ghost var xs := VariantTexts(vs);
    OpenList(out, "enum_variants", base, ms, false);
    ghost var start := ListStart(base, ms, "enum_variants");
    var i := 0;
    while i < |vs|
      invariant i <= |vs| && out.Valid()
      invariant out.data == old(out.data) || fresh(out.data)
      invariant !out.failed ==> !old(out.failed) && out.Contents() == start + Join(xs[..i])
    {
      NextElement(out, start, xs, i);
      JsonEscape(out, OrEmpty(vs[i]));
      i := i + 1;
    }
    CloseList(out, "enum_variants", base, ms, xs, i);
  }

  method WriteDefault(out: Sbuf, c: Column, ghost base: string, ghost ms: seq<string>)
    requires out.Valid() && ms != []
    requires !out.failed ==> out.Contents() == base + Join(ms)
    modifies out, out.data
    ensures out.Valid() && (out.data == old(out.data) || fresh(out.data))
    ensures !out.failed ==> !old(out.failed) && out.Contents() == base + Join(ms + DefaultMembers(c))
  {
    hide Join, Member, Quoted;
    if c.defaultExpr.Some? {
      WriteString(out, "default_expr", c.defaultExpr.value, base, ms, false);
    } else if c.defaultJson.Some? {
      WriteRaw(out, "default_value", c.defaultJson.value, base, ms, false);
    } else if c.defaultText.Some? {
      WriteString(out, "default_value", c.defaultText.value, base, ms, false);
    }
    assert ms + [] == ms;
  }

  method SerializeColumn(out: Sbuf, c: Column)
    requires out.Valid()
    modifies out, out.data
    ensures out.Valid() && (out.data == old(out.data) || fresh(out.data))
    ensures !out.failed ==> !old(out.failed) && out.Contents() == old(out.Contents()) + ColumnText(c)
  {
    hide Join, CoreMembers, VariantMembers, DefaultMembers, SourceMembers;
    ghost var was := out.Contents();
    var ok := out.Append("{");
    ghost var base := was + "{";
    SerializeCore(out, c, base);
    ghost var ms := CoreMembers(c);
    SomeCore(c);
    SerializeOptional(out, c, base, ms);
    ok := out.Append("}");
    assert ms + (VariantMembers(c) + DefaultMembers(c) + SourceMembers(c)) == ColumnMembers(c);
    assert (base + Join(ColumnMembers(c))) + "}" == was + Obj(ColumnMembers(c));
  }

  /** What a column need not have, behind the members ms. */
  method SerializeOptional(out: Sbuf, c: Column, ghost base: string, ghost ms: seq<string>)
    requires out.Valid() && ms != []
    requires !out.failed ==> out.Contents() == base + Join(ms)
    modifies out, out.data
    ensures out.Valid() && (out.data == old(out.data) || fresh(out.data))
    ensures !out.failed ==>
              !old(out.failed) &&
              out.Contents() == base + Join(ms + (VariantMembers(c) + DefaultMembers(c) + SourceMembers(c)))
  {
    hide Join, DefaultMembers, VariantTexts, Arr, Member;
    ghost var more := ms;
    if |c.variants| > 0 {
      WriteVariants(out, c.variants, base, ms);
      more := ms + [Member("enum_variants", Arr(VariantTexts(c.variants)))];
    }
    WriteDefault(out, c, base, more);
    more := more + DefaultMembers(c);
    if c.embeddingSource.Some? {
      WriteRaw(out, "embedding_source", c.embeddingSource.value, base, more, false);
      more := more + [Member("embedding_source", c.embeddingSource.value)];
    }
    assert more == ms + (VariantMembers(c) + DefaultMembers(c) + SourceMembers(c));
  }

  lemma SomeCore(c: Column)
    ensures CoreMembers(c) != []
  {}

  method WriteColumns(out: Sbuf, cs: seq<Column>, ghost base: string, ghost ms: seq<string>)
    requires out.Valid() && ms != []
    requires !out.failed ==> out.Contents() == base + Join(ms)
    modifies out, out.data
    ensures out.Valid() && (out.data == old(out.data) || fresh(out.data))
    ensures !out.failed ==> !old(out.failed) && out.Contents() == base + Join(ms + [Member("columns", Arr(ColumnTexts(cs)))])
  {
    hide Join, ListStart, ColumnText;
    ghost var xs := ColumnTexts(cs);
    OpenList(out, "columns", base, ms, false);
    ghost var start := ListStart(base, ms, "columns");
    var i := 0;
    while i < |cs|
      invariant i <= |cs| && out.Valid()
      invariant out.data == old(out.data) || fresh(out.data)
      invariant !out.failed ==> !old(out.failed) && out.Contents() == start + Join(xs[..i])
    {
      NextElement(out, start, xs, i);
      SerializeColumn(out, cs[i]);
      i := i + 1;
    }
    CloseList(out, "columns", base, ms, xs, i);
  }

  method WriteIndexes(out: Sbuf, indexes: seq<Index>, ghost base: string, ghost ms: seq<string>)
    requires out.Valid() && ms != []
    requires !out.failed ==> out.Contents() == base + Join(ms)
    modifies out, out.data
    ensures out.Valid() && (out.data == old(out.data) || fresh(out.data))
    ensures !out.failed ==> !old(out.failed) && out.Contents() == base + Join(ms + [Member("indexes", Arr(IndexTexts(indexes)))])
  {
    hide Join, ListStart, IndexWritten;
    ghost var xs := IndexTexts(indexes);
    OpenList(out, "indexes", base, ms, false);
    ghost var start := ListStart(base, ms, "indexes");
    var i := 0;
    while i < |indexes|
      invariant i <= |indexes| && out.Valid()
      invariant out.data == old(out.data) || fresh(out.data)
      invariant !out.failed ==> !old(out.failed) && out.Contents() == start + Join(xs[..i])
    {
      NextElement(out, start, xs, i);
      SerializeIndex(out, indexes[i]);
      i := i + 1;
    }
    CloseList(out, "indexes", base, ms, xs, i);
  }

  method WriteTable(out: Sbuf, name: CString, columns: seq<Column>, constraints: Option<CString>, ghost base: string)
    requires out.Valid()
    requires !out.failed ==> out.Contents() == base
    modifies out, out.data
    ensures out.Valid() && (out.data == old(out.data) || fresh(out.data))
    ensures !out.failed ==> !old(out.failed) && out.Contents() == base + Join(TableMembers(name, columns, constraints))
  {
    hide Join, Member, Quoted, Arr, ColumnTexts;
    NothingYet(base);
    WriteString(out, "name", name, base, [], true);
    ghost var ms := [Member("name", Quoted(name))];
    assert [] + ms == ms;
    WriteColumns(out, columns, base, ms);
    ms := ms + [Member("columns", Arr(ColumnTexts(columns)))];
    if constraints.Some? && |constraints.value| > 0 {
      WriteRaw(out, "constraints", constraints.value, base, ms, false);
      ms := ms + [Member("constraints", constraints.value)];
    }
    assert ms == TableMembers(name, columns, constraints);
  }

  method SerializeCreateTable(out: Sbuf, name: CString, columns: seq<Column>, constraints: Option<CString>, indexes: seq<Index>)
    requires out.Valid()
    modifies out, out.data
    ensures out.Valid() && (out.data == old(out.data) || fresh(out.data))
    ensures !out.failed ==>
              !old(out.failed) && out.Contents() == old(out.Contents()) + TableText(name, columns, constraints, indexes)
  {
    hide Join, TableMembers, IndexTexts, Member, Arr;
    ghost var was := out.Contents();
    var ok := out.Append("{");
    ghost var base := was + "{";
    WriteTable(out, name, columns, constraints, base);
    ghost var ms := TableMembers(name, columns, constraints);
    SomeTableMembers(name, columns, constraints);
    if |indexes| > 0 {
      WriteIndexes(out, indexes, base, ms);
    }
    assert ms + [] == ms;
    ms := ms + IndexListMembers(indexes);
    ok := out.Append("}");
    assert (base + Join(ms)) + "}" == was + Obj(ms);
  }

  // ---- Parts ----

  /** Raw JSON that is written must be one value. */
  ghost predicate ValidColumn(c: Column, strict: bool := false) {
    (c.defaultExpr.None? && c.defaultJson.Some? ==> Whole(c.defaultJson.value, strict)) &&
    (c.embeddingSource.Some? ==> Whole(c.embeddingSource.value, strict))
  }

  ghost predicate ValidTable(columns: seq<Column>, constraints: Option<CString>, strict: bool := false) {
    (forall c | c in columns :: ValidColumn(c, strict)) &&
    (constraints.Some? && constraints.value != "" ==> Whole(constraints.value, strict))
  }

  lemma CoreNames()
    ensures IsName("id") && IsName("name") && IsName("ty") && IsName("primary_key") && IsName("nullable")
  {}

  lemma OptionalNames()
    ensures IsName("enum_variants") && IsName("default_expr") && IsName("default_value")
  {}

  lemma SourceName()
    ensures IsName("embedding_source")
  {}

  lemma TableNames()
    ensures IsName("name") && IsName("columns") && IsName("constraints") && IsName("indexes")
  {}

  lemma FlagIsWhole(b: int, strict: bool := false)
    ensures Whole(Flag(b), strict)
  {
    hide Whole;
    LiteralIsWhole("true", strict);
    LiteralIsWhole("false", strict);
  }

  lemma CoreAreParts(c: Column, strict: bool := false)
    ensures forall x | x in CoreMembers(c) :: IsPart(x, true, strict)
  {
    hide Whole, IsPart, Member, IsName, Quoted, Decimal, Flag;
    CoreNames();
    DecimalIsWhole(c.id, strict);
    PlainMember("id", Decimal(c.id), strict);
    QuotedIsWhole(OrEmpty(c.name), strict);
    PlainMember("name", Quoted(OrEmpty(c.name)), strict);
    QuotedIsWhole(OrEmpty(c.ty), strict);
    PlainMember("ty", Quoted(OrEmpty(c.ty)), strict);
    FlagIsWhole(c.primaryKey, strict);
    PlainMember("primary_key", Flag(c.primaryKey), strict);
    FlagIsWhole(c.nullable, strict);
    PlainMember("nullable", Flag(c.nullable), strict);
  }

  lemma VariantsAreParts(c: Column, strict: bool := false)
    ensures forall x | x in VariantMembers(c) :: IsPart(x, true, strict)
  {
    hide Whole, IsPart, Member, IsName, Quoted, Arr;
    OptionalNames();
    var xs := VariantTexts(c.variants);
    forall x | x in xs ensures Whole(x, strict) {
      var k :| 0 <= k < |xs| && xs[k] == x;
      QuotedIsWhole(OrEmpty(c.variants[k]), strict);
    }
    ArrIsWhole(xs, strict);
    PlainMember("enum_variants", Arr(xs), strict);
  }

  lemma DefaultsAreParts(c: Column, strict: bool := false)
    requires ValidColumn(c, strict)
    ensures forall x | x in DefaultMembers(c) + SourceMembers(c) :: IsPart(x, true, strict)
  {
    hide Whole, IsPart, Member, IsName, Quoted;
    OptionalNames();
    SourceName();
    if c.defaultExpr.Some? {
      QuotedIsWhole(c.defaultExpr.value, strict);
      PlainMember("default_expr", Quoted(c.defaultExpr.value), strict);
    } else if c.defaultJson.Some? {
      PlainMember("default_value", c.defaultJson.value, strict);
    } else if c.defaultText.Some? {
      QuotedIsWhole(c.defaultText.value, strict);
      PlainMember("default_value", Quoted(c.defaultText.value), strict);
    }
    if c.embeddingSource.Some? { PlainMember("embedding_source", c.embeddingSource.value, strict); }
  }

  lemma ColumnIsWhole(c: Column, strict: bool := false)
    requires ValidColumn(c, strict)
    ensures Whole(ColumnText(c), strict)
  {
    hide Whole, IsPart, CoreMembers, VariantMembers, DefaultMembers, SourceMembers, Obj;
    CoreAreParts(c, strict);
    VariantsAreParts(c, strict);
    DefaultsAreParts(c, strict);
    forall x | x in ColumnMembers(c) ensures IsPart(x, true, strict) {
      assert x in CoreMembers(c) || x in VariantMembers(c) || x in DefaultMembers(c) + SourceMembers(c);
    }
    ObjIsWhole(ColumnMembers(c), strict);
  }

  lemma TableAreParts(name: CString, columns: seq<Column>, constraints: Option<CString>, strict: bool := false)
    requires ValidTable(columns, constraints, strict)
    ensures forall x | x in TableMembers(name, columns, constraints) :: IsPart(x, true, strict)
  {
    hide Whole, IsPart, Member, IsName, Quoted, Arr, ColumnText, ValidColumn;
    TableNames();
    QuotedIsWhole(name, strict);
    PlainMember("name", Quoted(name), strict);
    var xs := ColumnTexts(columns);
    forall x | x in xs ensures Whole(x, strict) {
      var k :| 0 <= k < |xs| && xs[k] == x;
      assert columns[k] in columns;
      ColumnIsWhole(columns[k], strict);
    }
    ArrIsWhole(xs, strict);
    PlainMember("columns", Arr(xs), strict);
    if constraints.Some? && constraints.value != "" { PlainMember("constraints", constraints.value, strict); }
  }

  // ---- When the body is one value ----

  lemma FittingIndexes(indexes: seq<Index>, strict: bool := false)
    requires forall x | x in indexes :: Fits(x)
    ensures forall w | w in IndexListMembers(indexes) :: IsPart(w, true, strict)
  {
    hide Whole, IsPart, Member, IsName, Arr, IndexWritten, Fits;
    TableNames();
    var ws := IndexTexts(indexes);
    forall w | w in ws ensures Whole(w, strict) {
      var k :| 0 <= k < |ws| && ws[k] == w;
      assert indexes[k] in indexes;
      IndexIsWhole(indexes[k], strict);
    }
    ArrIsWhole(ws, strict);
    PlainMember("indexes", Arr(ws), strict);
  }

  /** Dead, or inside a string. */
  predicate Doomed(st: State) {
    st.Live? ==> st.mode.InString?
  }

  /** The end of the body behind a cut index. */
  lemma EndBehindCut(st: State, s: Stack)
    requires Inside(st, s, 1)
    ensures Doomed(Run(st, "]}"))
  {
    assert "]}" == "]" + "}";
    RunAppend(st, "]", "}");
    RunByte(st, ']');
    RunByte(Read(st, ']'), '}');
  }

  /** The next index behind a cut one. */
  lemma IndexBehindCut(st: State, s: Stack, rest: string)
    requires Inside(st, s, 1)
    ensures Run(st, ",{" + (Name("name") + rest)) == Dead
  {
    hide Run;
    var w := Name("name") + rest;
    assert ",{" + w == "," + ("{" + w);
    RunAppend(st, ",", "{" + w);
    RunByte(st, ',');
    var next := Read(st, ',');
    RunAppend(next, "{", w);
    RunByte(next, '{');
    RunDead(w);
    if next.Live? && next.mode.InString? { StrayName(next, "name", rest); }
  }

  lemma IndexOpening(x: Index) returns (rest: string)
    ensures IndexWritten(x) == "{" + (Name("name") + rest)
  {
    hide Name, Tail, OptionsWritten, Quoted, ColumnFragment;
    rest := Quoted(OrEmpty(x.name)) + (Kept(ColumnFragment(x)) + Quoted(KindName(x.kind))) +
      (Tail(FilterMembers(x)) + (OptionsWritten(x) + "}"));
    hide FilterMembers, Kept, KindName;
  }

  /** A list of indexes of which one does not fit. */
  lemma {:induction false} RunIndexList(s: Stack, indexes: seq<Index>)
    requires exists x :: x in indexes && !Fits(x)
    ensures Doomed(Run(Live(Push(false, s), Want), Join(IndexTexts(indexes)) + "]}"))
    decreases |indexes|
  {
    hide Run, Fits, IndexWritten, Objects;
    var list := Push(false, s);
    var start := Live(list, Want);
    var x, rest := indexes[0], indexes[1..];
    var first := Run(start, IndexWritten(x));
    var more := if rest == [] then "" else "," + Join(IndexTexts(rest));
    assert Join(IndexTexts(indexes)) == IndexWritten(x) + more by { JoinIndexes(indexes); }
    assert (IndexWritten(x) + more) + "]}" == IndexWritten(x) + (more + "]}");
    RunAppend(start, IndexWritten(x), more + "]}");
    if Fits(x) {
      IndexIsWhole(x);
      RunWhole(start, IndexWritten(x));
      var bad :| bad in indexes && !Fits(bad);
      assert bad in rest;
      var tail := Join(IndexTexts(rest)) + "]}";
      assert more + "]}" == "," + tail;
      RunAppend(first, ",", tail);
      RunByte(first, ',');
      RunIndexList(s, rest);
    } else {
      RunCutIndex(start, x);
      if rest == [] {
        EndBehindCut(first, list);
        assert more + "]}" == "]}";
      } else {
        var tail := RestOpening(rest);
        assert more + "]}" == ",{" + (Name("name") + (tail + "]}"));
        IndexBehindCut(first, list, tail + "]}");
      }
    }
  }

  lemma JoinIndexes(indexes: seq<Index>)
    requires indexes != []
    ensures Join(IndexTexts(indexes)) ==
            IndexWritten(indexes[0]) + if indexes[1..] == [] then "" else "," + Join(IndexTexts(indexes[1..]))
  {
    hide IndexWritten;
    assert IndexTexts(indexes)[1..] == IndexTexts(indexes[1..]);
  }

  lemma RestOpening(indexes: seq<Index>) returns (tail: string)
    requires indexes != []
    ensures Join(IndexTexts(indexes)) == "{" + (Name("name") + tail)
  {
    hide IndexWritten, Name, Join;
    JoinIndexes(indexes);
    tail := IndexOpening(indexes[0]);
    if indexes[1..] != [] { tail := tail + ("," + Join(IndexTexts(indexes[1..]))); }
  }

  lemma CutTableIsDoomed(ms: seq<string>, indexes: seq<Index>)
    requires ms != [] && forall m | m in ms :: IsPart(m, true)
    requires exists x :: x in indexes && !Fits(x)
    ensures Doomed(Run(Live(Bottom, Want), Obj(ms + IndexListMembers(indexes))))
  {
    hide Run, IsPart, Fits, Join, IndexTexts, IsBody;
    var start := Live(Push(true, Bottom), Want);
    var list := Join(IndexTexts(indexes)) + "]}";
    var body := Join(ms) + ("," + (Name("indexes") + ("[" + list)));
    JoinAppend(ms, IndexListMembers(indexes));
    TailOne(Member("indexes", Arr(IndexTexts(indexes))));
    assert Obj(ms + IndexListMembers(indexes)) == "{" + body;
    RunAppend(Live(Bottom, Want), "{", body);
    RunByte(Live(Bottom, Want), '{');
    RunMembers(Bottom, ms);
    var settled := Run(start, Join(ms));
    RunAppend(start, Join(ms), "," + (Name("indexes") + ("[" + list)));
    RunAppend(settled, ",", Name("indexes") + ("[" + list));
    RunByte(settled, ',');
    RunAppend(start, Name("indexes"), "[" + list);
    assert IsBody("indexes") by { TableNames(); NameIsBody("indexes"); }
    RunName(Bottom, "indexes");
    RunAppend(Live(Push(true, Bottom), Given), "[", list);
    RunByte(Live(Push(true, Bottom), Given), '[');
    RunIndexList(Push(true, Bottom), indexes);
  }

  /** A create_table body is one value exactly when every index's digits fit, and it is then JSON of
      RFC 8259 if the raw fragments are. */
  lemma TableIsWhole(
    name: CString, columns: seq<Column>, constraints: Option<CString>, indexes: seq<Index>, strict: bool := false)
    requires ValidTable(columns, constraints, strict)
    ensures Whole(TableText(name, columns, constraints, indexes), strict) <==> forall x | x in indexes :: Fits(x)
  {
    hide Whole, IsPart, Fits, IndexListMembers, TableMembers, Obj, Run, ValidTable;
    var ms := TableMembers(name, columns, constraints);
    TableAreParts(name, columns, constraints, strict);
    SomeTableMembers(name, columns, constraints);
    if forall x | x in indexes :: Fits(x) {
      FittingIndexes(indexes, strict);
      ObjIsWhole(ms + IndexListMembers(indexes), strict);
    } else {
      var bad :| bad in indexes && !Fits(bad);
      forall m | m in ms ensures IsPart(m, true) { StrictIsPart(m, true, strict); }
      CutTableIsDoomed(ms, indexes);
      if Whole(TableText(name, columns, constraints, indexes), strict) {
        StrictIsWhole(TableText(name, columns, constraints, indexes), strict);
        RunWhole(Live(Bottom, Want), TableText(name, columns, constraints, indexes));
      }
    }
  }

  lemma SomeTableMembers(name: CString, columns: seq<Column>, constraints: Option<CString>)
    ensures TableMembers(name, columns, constraints) != []
  {}

  // ---- Numbers that break a body ----

  /** An index that tunes nothing. */
  function Untuned(kind: Kind, quantization: Quantization, algorithm: Algorithm): Index {
    Index(None, 0, kind, None, 0, 0, 0, quantization, algorithm, 0, 0, 0, 0, 0, 0, 0, 0, 0, 0, 0, 0)
  }

  const HUGE: size := 1_000_000_000_000_000

  /** One index for each fragment that a scratch buffer cuts. */
  function Overlong(): seq<Index> {
    [Untuned(Ann, BinarySign, Hnsw).(m := HUGE, efConstruction := HUGE, efSearch := HUGE),
     Untuned(Ann, BinarySign, DiskAnn).(r := HUGE, l := HUGE, beamWidth := HUGE),
     Untuned(Ann, Product, Hnsw).(trainingSamples := HUGE, seed := HUGE, rerankFactor := HUGE)]
  }

  lemma HugeIsLong()
    ensures |Digits(HUGE)| > 15 && |Digits(120)| > 2
  {
    assert Pow10(2) == 100 && Pow10(5) == 100_000 && Pow10(10) == 10_000_000_000 && Pow10(15) == HUGE;
    DigitsLongEnough(HUGE, 15);
    DigitsLongEnough(120, 2);
  }

  /** None of them fits, none is written as one value, and none leaves the body of a table without
      columns one value. */
  lemma OverlongIndexes(x: Index)
    requires x in Overlong()
    ensures !Fits(x) && !Whole(IndexWritten(x)) && !Whole(TableText("t", [], None, [x]))
  {
    hide Whole, IndexWritten, TableText, Digits;
    HugeIsLong();
    assert !Fits(x);
    hide Fits;
    IndexIsWhole(x);
    TableIsWhole("t", [], None, [x]);
    assert x in [x];
  }
}
