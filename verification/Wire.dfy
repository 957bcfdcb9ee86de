/** Values and cells on the wire: their texts, the writers that append them, and what a decoder
    reads back. */
module Wire {
  import opened Bytes
  import opened Grammar
  import opened Scan
  import opened Buffer
  import opened Strings
  import opened Numbers
  import opened Compose
  import opened Writers
  import opened QueryDecode
  import opened Rfc8259

  /** What `%.17g` prints for a finite double: a number of RFC 8259 of at most 24 bytes. */
  type DoubleNumber = n: Number | ValidNumber(n) && |NumberText(n)| <= 24 witness Number(false, "0", None, None)

  /** shown is what `%.17g` prints for a NaN or an infinity. */
  datatype Double = NonFinite(shown: CString) | Finite(n: DoubleNumber)

  /** A value supplied to a write.  None is a NULL pointer; an unknown tag is written as null. */
  datatype InputValue =
    | InNull
    | InBool(b: int)
    | InInt64(i: int64)
    | InDouble(d: Double)
    | InString(str: Option<CString>)
    | InJson(json: Option<CString>)
    | InUnknown

  datatype InputCell = InputCell(columnId: int64, value: InputValue)

  /** Raw JSON must be one value; nothing else is asked of the caller. */
  ghost predicate ValidValue(v: InputValue, strict: bool := false) {
    v.InJson? && v.json.Some? ==> Whole(v.json.value, strict)
  }

  ghost predicate ValidCells(cells: seq<InputCell>, strict: bool := false) {
    forall c | c in cells :: ValidValue(c.value, strict)
  }

  function ValueText(v: InputValue): string {
    match v
    case InNull => "null"
    case InBool(b) => if b != 0 then "true" else "false"
    case InInt64(i) => Decimal(i)
    case InDouble(NonFinite(_)) => "null"
    case InDouble(Finite(n)) => NumberText(n)
    case InString(s) => Quoted(OrEmpty(s))
    case InJson(None) => "null"
    case InJson(Some(raw)) => raw
    case InUnknown => "null"
  }

  /** The flat layout: id, value, id, value, ... */
  function CellTexts(cells: seq<InputCell>): seq<string> {
    if cells == [] then [] else CellTexts(cells[..|cells| - 1]) + PairTexts(cells[|cells| - 1])
  }

  function PairTexts(c: InputCell): seq<string> {
    [Decimal(c.columnId), ValueText(c.value)]
  }

  function CellsText(cells: seq<InputCell>): string {
    Arr(CellTexts(cells))
  }

  // ---- The writers ----

  method SerializeValue(out: Sbuf, v: InputValue)
    requires out.Valid()
    modifies out, out.data
    ensures out.Valid() && (out.data == old(out.data) || fresh(out.data))
    ensures !out.failed ==> !old(out.failed) && out.Contents() == old(out.Contents()) + ValueText(v)
  {
    hide Decimal, Quoted;
    var ok;
    match v {
      case InNull => ok := out.Append("null");
      case InBool(b) => ok := out.Append(if b != 0 then "true" else "false");
      case InInt64(i) => ok := out.Append(Decimal(i));
      case InDouble(NonFinite(_)) => ok := out.Append("null");
      case InDouble(Finite(n)) => ok := out.Append(NumberText(n));
      case InString(s) => JsonEscape(out, OrEmpty(s));
      case InJson(json) => ok := out.Append(if json.Some? then json.value else "null");
      case InUnknown => ok := out.Append("null");
    }
  }

  method SerializeCells(out: Sbuf, cells: seq<InputCell>)
    requires out.Valid()
    modifies out, out.data
    ensures out.Valid() && (out.data == old(out.data) || fresh(out.data))
    ensures !out.failed ==> !old(out.failed) && out.Contents() == old(out.Contents()) + CellsText(cells)
  {
    hide Join, CellTexts, Decimal, ValueText;
    ghost var was, xs := out.Contents(), CellTexts(cells);
    ghost var base := was + "[";
    CellTextsLength(cells);
    NothingYet(base);
    var ok := out.Append("[");
    var i := 0;
    while i < |cells|
      invariant i <= |cells| && out.Valid()
      invariant out.data == old(out.data) || fresh(out.data)
      invariant !out.failed ==> !old(out.failed) && out.Contents() == base + Join(xs[..2 * i])
    {
      CellTextAt(cells, i);
      SerializeCell(out, cells[i], base, xs, i);
      i := i + 1;
    }
    assert xs[..2 * |cells|] == xs;
    ok := out.Append("]");
    ListPieces(was, xs);
  }

  /** Cell i, which is parts 2i and 2i + 1 of xs. */
  method SerializeCell(out: Sbuf, c: InputCell, ghost base: string, ghost xs: seq<string>, i: nat)
    requires out.Valid() && 2 * i + 1 < |xs| && xs[2 * i] == Decimal(c.columnId) && xs[2 * i + 1] == ValueText(c.value)
    requires !out.failed ==> out.Contents() == base + Join(xs[..2 * i])
    modifies out, out.data
    ensures out.Valid() && (out.data == old(out.data) || fresh(out.data))
    ensures !out.failed ==> !old(out.failed) && out.Contents() == base + Join(xs[..2 * i + 2])
  {
    hide Join, Decimal, ValueText;
    NextElement(out, base, xs, 2 * i);
    var ok := out.Append(Decimal(c.columnId));
    NextElement(out, base, xs, 2 * i + 1);
    SerializeValue(out, c.value);
  }

  /** Where cell k stands in the flat texts. */
  lemma {:induction false} CellTextAt(a: seq<InputCell>, k: nat)
    requires k < |a|
    ensures |CellTexts(a)| == 2 * |a|
    ensures CellTexts(a)[2 * k] == Decimal(a[k].columnId) && CellTexts(a)[2 * k + 1] == ValueText(a[k].value)
  {
    hide Decimal, ValueText;
    var n := |a| - 1;
    CellTextsLength(a);
    CellTextsLength(a[..n]);
    if k < n { CellTextAt(a[..n], k); }
  }

  lemma {:induction false} CellTextsLength(cells: seq<InputCell>)
    ensures |CellTexts(cells)| == 2 * |cells|
  {
    if cells != [] { CellTextsLength(cells[..|cells| - 1]); }
  }

  // ---- One value, one tree ----

  /** Every written value is one value, and one of RFC 8259 if raw JSON is. */
  lemma ValueIsWhole(v: InputValue, strict: bool := false)
    requires ValidValue(v, strict)
    ensures Whole(ValueText(v), strict)
  {
    hide Whole, Value, Escaped, Decimal, NumberText;
    match v {
      case InInt64(i) => DecimalIsWhole(i, strict);
      case InDouble(Finite(n)) => DoubleIsWhole(n, strict);
      case InString(s) => QuotedIsWhole(OrEmpty(s), strict);
      case InJson(Some(raw)) =>
      case InBool(b) => LiteralIsWhole("true", strict); LiteralIsWhole("false", strict);
      case _ => LiteralIsWhole("null", strict);
    }
  }

  lemma DoubleIsWhole(n: DoubleNumber, strict: bool := false)
    ensures Whole(NumberText(n), strict) && Parsed(NumberText(n)) == Spaced("", Num(NumberText(n)))
  {
    hide Whole, Parsed, NumberText;
    assert IsJsonNumber(NumberText(n));
    NumberIsRun(NumberText(n));
    NumberIsWhole(NumberText(n), strict);
  }

  lemma {:induction false} CellTextsAreWhole(cells: seq<InputCell>, strict: bool := false)
    requires ValidCells(cells, strict)
    ensures forall x | x in CellTexts(cells) :: Whole(x, strict)
  {
    hide Whole, ValueText;
    if cells != [] {
      var last := cells[|cells| - 1];
      CellTextsAreWhole(cells[..|cells| - 1], strict);
      DecimalIsWhole(last.columnId, strict);
      ValueIsWhole(last.value, strict);
    }
  }

  lemma CellsAreWhole(cells: seq<InputCell>, strict: bool := false)
    requires ValidCells(cells, strict)
    ensures Whole(CellsText(cells), strict)
  {
    hide Whole, CellTexts;
    CellTextsAreWhole(cells, strict);
    ArrIsWhole(CellTexts(cells), strict);
  }

  // ---- What a decoder reads back ----

  /** The value that comes back.  Doubles may change their tag: an integral one prints without a
      point and is read as an integer. */
  function ReadBack(v: InputValue): Val
    requires ValidValue(v)
  {
    match v
    case InNull => NullVal
    case InBool(b) => BoolVal(b != 0)
    case InInt64(i) => Int64Val(i)
    case InDouble(NonFinite(_)) => NullVal
    case InDouble(Finite(n)) => NumberVal(NumberText(n))
    case InString(s) => StringVal(OrEmpty(s))
    case InJson(None) => NullVal
    case InJson(Some(raw)) => ValOf(Parsed(raw).t)
    case InUnknown => NullVal
  }

  /** A whole object or array without white space around it. */
  ghost predicate IsCompound(raw: string) {
    Whole(raw) && Parsed(raw).lead == "" && Parsed(raw).t.Node?
  }

  /** Raw JSON comes back byte for byte exactly when it is an object or an array without white space
      around it. */
  lemma CompoundReadsBack(raw: CString)
    requires Whole(raw)
    ensures ReadBack(InJson(Some(raw))) == JsonVal(raw) <==> IsCompound(raw)
  {
    hide Value, Text, Skip, CStr;
    ParsedText(raw);
    var v := Parsed(raw);
    if v.t.Node? {
      NoNulBehind(raw, v.lead, Text(v.t));
      assert v.lead == "" ==> v.lead + Text(v.t) == Text(v.t);
    }
  }

  lemma NoNulBehind(raw: CString, lead: string, w: string)
    requires raw == lead + w
    ensures CStr(w) == w
  {
    assert forall c | c in w :: c in raw;
    CStrWhole(w, "");
  }

  /** A written value decodes to ReadBack. */
  lemma ValueReadsBack(v: InputValue)
    requires ValidValue(v)
    ensures Whole(ValueText(v)) && ValOf(Parsed(ValueText(v)).t) == ReadBack(v)
  {
    hide Whole, Value, Decimal, Unescape, Escaped, Skip, Signed, NumberText;
    match v {
      case InInt64(i) =>
        NumberIsWhole(Decimal(i));
        Int64ReadsBack(i);
      case InDouble(Finite(n)) => DoubleIsWhole(n);
      case InString(s) =>
        var w := OrEmpty(s);
        QuotedIsWhole(w);
        UnescapeEscaped(w);
        CStrWhole(w, "");
      case InJson(Some(raw)) =>
      case InBool(b) => LiteralIsWhole("true"); LiteralIsWhole("false");
      case _ => LiteralIsWhole("null");
    }
  }

  lemma Int64ReadsBack(i: int64)
    ensures NumberVal(Decimal(i)) == Int64Val(i)
    ensures ColumnId(Decimal(i)) == i
  {
    hide Digits, Signed;
    var w := Decimal(i);
    DecimalLength(i);
    DecimalRoundTrip(i, "");
    assert w + "" == w;
    forall k | 0 <= k < |w| ensures w[k] != '.' && w[k] != 'e' && w[k] != 'E' { DecimalBytes(i, k); }
  }

  lemma DecimalBytes(i: int64, k: nat)
    requires k < |Decimal(i)|
    ensures Decimal(i)[k] == '-' || IsDigit(Decimal(i)[k])
  {}
}
