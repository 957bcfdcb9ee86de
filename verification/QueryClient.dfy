/** The query result decoder: three nested loops over the response that fill four growing arrays
    and a string arena, and a last pass that turns the stored offsets into pointers.
 */
module QueryClient {
  import opened Bytes
  import opened Grammar
  import opened Scan
  import opened Parser
  import opened Buffer
  import opened Strings
  import opened Numbers
  import opened Lookup
  import opened QueryDecode
  import opened Arena

  /** A tagged value; strings and raw JSON are pointers. */
  datatype CellValue =
    | CellNull
    | CellBool(b: bool)
    | CellInt64(i: int64)
    | CellDouble(text: string)
    | CellString(str: CharPtr)
    | CellJson(json: CharPtr)

  datatype CellRecord = CellRecord(columnId: int64, value: CellValue)

  datatype CellsPtr = NoCells | CellsFrom(block: array<CellRecord>, off: nat)

  datatype RowRecord = RowRecord(cells: CellsPtr, count: nat)

  // ---- Offsets: what holds while anything may still move ----

  /** A value with its stored offset represents a. */
  ghost predicate ValueOk(v: CellValue, off: nat, arena: string, a: Val) {
    match a
    case NullVal => v == CellNull && off == SIZE_MAX
    case BoolVal(b) => v == CellBool(b) && off == SIZE_MAX
    case Int64Val(i) => v == CellInt64(i) && off == SIZE_MAX
    case DoubleVal(text) => v == CellDouble(text) && off == SIZE_MAX
    case StringVal(s) => v.CellString? && off != SIZE_MAX && StandsAt(arena, off, s)
    case JsonVal(s) => v.CellJson? && off != SIZE_MAX && StandsAt(arena, off, s)
  }

  ghost predicate CellOk(c: CellRecord, off: nat, arena: string, a: Cell) {
    c.columnId == a.id && ValueOk(c.value, off, arena, a.value)
  }

  /** The first |done| entries of the cell arrays represent done. */
  ghost predicate StoredIn(cells: seq<CellRecord>, offs: seq<nat>, arena: string, done: seq<Cell>) {
    |done| <= |cells| && |done| <= |offs| &&
    forall k | 0 <= k < |done| :: CellOk(cells[k], offs[k], arena, done[k])
  }

  lemma ArenaGrows(v: CellValue, off: nat, arena: string, more: string, a: Val)
    requires ValueOk(v, off, arena, a) && arena <= more
    ensures ValueOk(v, off, more, a)
  {
    hide StandsAt;
    if a.StringVal? { StandsStill(arena, off, a.s, more); }
    if a.JsonVal? { StandsStill(arena, off, a.s, more); }
  }

  /** Reallocation and appending keep what is stored. */
  lemma StoredStays(cells: seq<CellRecord>, offs: seq<nat>, arena: string, done: seq<Cell>,
                    cells': seq<CellRecord>, offs': seq<nat>, arena': string)
    requires StoredIn(cells, offs, arena, done) && arena <= arena'
    requires |done| <= |cells'| && cells'[..|done|] == cells[..|done|]
    requires |done| <= |offs'| && offs'[..|done|] == offs[..|done|]
    ensures StoredIn(cells', offs', arena', done)
  {
    forall k | 0 <= k < |done| ensures CellOk(cells'[k], offs'[k], arena', done[k]) {
      assert cells'[k] == cells'[..|done|][k] == cells[..|done|][k];
      assert offs'[k] == offs'[..|done|][k] == offs[..|done|][k];
      assert CellOk(cells[k], offs[k], arena, done[k]);
      ArenaGrows(cells[k].value, offs[k], arena, arena', done[k].value);
    }
  }

  /** Reads one value.  Strings and raw JSON are copied to the end of the arena, and off is where;
      the pointer in v is good only until the arena moves. */
  method ParseScalarInto(j: JsonParser, blob: Sbuf) returns (v: CellValue, off: nat)
    requires j.Valid() && j.ok && blob.Valid() && blob.len + |j.src| + 1 <= ROOM
    modifies j, blob, blob.data
    ensures j.Valid() && blob.Valid() && (blob.data == old(blob.data) || fresh(blob.data))
    ensures old(blob.Contents()) <= blob.Contents()
    ensures j.ok == Value(j.src, old(j.p)).Good?
    ensures j.ok ==> j.p == Value(j.src, old(j.p)).pos
    ensures j.ok ==> blob.len <= old(blob.len) + (j.p - old(j.p)) + 1
    ensures j.ok ==> ValueOk(v, off, blob.Contents(), ValOf(Value(j.src, old(j.p)).v))
  {
    hide Value, RunEnd, ValOf, Text, StandsAt, CloseQuote;
    v, off := CellNull, SIZE_MAX;
    ghost var from := j.p;
    var ch := j.PeekByte();
    ScalarCases(j.src, from);
    if ch == '"' as int {
      v, off := ParseString(j, blob);
    } else if ch == 't' as int || ch == 'f' as int {
      var start := j.p;
      j.SkipLiteral();
      LiteralVal(j.src[start..j.p]);
      var isTrue := TokenIsTrue(j.src, start, j.p);
      v := CellBool(isTrue);
    } else if ch == '-' as int || '0' as int <= ch <= '9' as int {
      var start := j.p;
      j.SkipNumber();
      v := ParseNumber(j.src, start, j.p);
      assert ValOf(Num(j.src[start..j.p])) == NumberVal(j.src[start..j.p]) by { NumVal(j.src[start..j.p]); }
      ArenaGrows(v, off, "", blob.Contents(), NumberVal(j.src[start..j.p]));
    } else if ch == '{' as int || ch == '[' as int {
      v, off := ParseRaw(j, blob);
    } else if ch == 'n' as int {
      var start := j.p;
      j.SkipLiteral();
      LiteralVal(j.src[start..j.p]);
    } else {
      j.ok := false;
    }
  }

  lemma LiteralVal(run: string)
    requires run != ""
    ensures ValOf(Lit(run)) == if run[0] != 'n' then BoolVal(run == "true") else NullVal
  {}

  lemma NumVal(run: string)
    ensures ValOf(Num(run)) == NumberVal(run)
  {}

  /** What the scanner recognises here, by first byte. */
  lemma ScalarCases(s: string, i: nat)
    requires i <= |s|
    ensures var k := Skip(s, i);
            Skip(s, k) == k && Value(s, k) == Value(s, i) &&
            if k == |s| then Value(s, i) == Bad
            else if s[k] == '"' then
              match CloseQuote(s, k + 1)
              case None => Value(s, i) == Bad
              case Some(q) => Value(s, i) == Good(Str(s[k + 1..q]), q + 1)
            else if s[k] == '{' || s[k] == '[' then Value(s, i).Good? ==> Value(s, i).v.Node?
            else if StartsLiteral(s[k]) then
              var e := RunEnd(s, k, LetterRun); e > k && Value(s, i) == Good(Lit(s[k..e]), e)
            else if StartsNumber(s[k]) then
              var e := RunEnd(s, k, NumberRun); Value(s, i) == Good(Num(s[k..e]), e)
            else Value(s, i) == Bad
  {
    hide ItemList, Element, CloseQuote;
    SkipIdempotent(s, i);
  }

  method ParseString(j: JsonParser, blob: Sbuf) returns (v: CellValue, off: nat)
    requires j.Valid() && j.ok && Sees(j.src, j.p, '"')
    requires blob.Valid() && blob.len + |j.src| + 1 <= ROOM
    modifies j, blob, blob.data
    ensures j.Valid() && blob.Valid() && (blob.data == old(blob.data) || fresh(blob.data))
    ensures old(blob.Contents()) <= blob.Contents()
    ensures j.ok == CloseQuote(j.src, old(j.p) + 1).Some?
    ensures j.ok ==> j.p == CloseQuote(j.src, old(j.p) + 1).value + 1
    ensures j.ok ==> blob.len <= old(blob.len) + (j.p - old(j.p)) + 1
    ensures j.ok ==> ValueOk(v, off, blob.Contents(), ValOf(Str(j.src[old(j.p) + 1..j.p - 1])))
  {
    hide CloseQuote, Unescape, NextCapacity, StandsAt;
    v, off := CellNull, SIZE_MAX;
    var start := j.p + 1;
    j.SkipString();
    if !j.ok {
      return;
    }
    var n := j.p - 1 - start;
    ghost var was := blob.Contents();
    var ok := blob.Reserve(n);
    assert ok;
    var base := blob.len;
    var o := UnescapeInto(j.src, start, n, blob.data, base);
    blob.len := base + o + 1;
    ArenaWrite(blob.data[..], base, o, was, Unescape(j.src[start..start + n]));
    v, off := CellString(Ptr(blob.data, base)), base;
  }

  /** A decoded string and its NUL behind what the arena held. */
  lemma ArenaWrite(d: string, base: nat, o: nat, was: string, w: string)
    requires base + o < |d| && base == |was| && |w| == o && d[..base] == was
    requires d[base..base + o] == w && d[base + o] == NUL
    ensures was <= d[..base + o + 1] && StandsAt(d[..base + o + 1], base, CStr(w))
  {
    var arena := d[..base + o + 1];
    var s := CStr(w);
    assert arena[..base] == was;
    var written := d[base..base + o];
    assert arena[base..base + |s|] == written[..|s|];
    assert written[..|s|] == s;
    if |s| < |w| {
      assert arena[base + |s|] == written[|s|];
    }
  }

  method ParseNumber(src: string, start: nat, end: nat) returns (v: CellValue)
    requires start <= end <= |src|
    ensures ValueOk(v, SIZE_MAX, "", NumberVal(src[start..end]))
  {
    hide StrToInt64;
    var n := end - start;
    if n >= 64 {
      n := 63;
    }
    CutSlice(src, start, end, NUMBER_ROOM);
    var buf := src[start..start + n];
    var isInt := true;
    var i := 0;
    while i < n
      invariant i <= n && isInt && LooksIntegral(buf[..i])
    {
      if buf[i] == '.' || buf[i] == 'e' || buf[i] == 'E' {
        isInt := false;
        assert !LooksIntegral(buf);
        break;
      }
      i := i + 1;
    }
    if isInt { assert buf[..i] == buf; }
    assert isInt == LooksIntegral(buf);
    v := if isInt then CellInt64(StrToInt64(buf)) else CellDouble(buf);
  }

  method ParseRaw(j: JsonParser, blob: Sbuf) returns (v: CellValue, off: nat)
    requires j.Valid() && j.ok && (Sees(j.src, j.p, '{') || Sees(j.src, j.p, '['))
    requires blob.Valid() && blob.len + |j.src| + 1 <= ROOM
    modifies j, blob, blob.data
    ensures j.Valid() && blob.Valid() && (blob.data == old(blob.data) || fresh(blob.data))
    ensures old(blob.Contents()) <= blob.Contents()
    ensures j.ok == Value(j.src, old(j.p)).Good?
    ensures j.ok ==> j.p == Value(j.src, old(j.p)).pos
    ensures j.ok ==> blob.len <= old(blob.len) + (j.p - old(j.p)) + 1
    ensures j.ok ==> ValueOk(v, off, blob.Contents(), ValOf(Value(j.src, old(j.p)).v))
  {
    hide Value, Text, NextCapacity, ValOf, StandsAt;
    v, off := CellNull, SIZE_MAX;
    var start := j.p;
    j.SkipValue();
    if !j.ok {
      return;
    }
    RawValue(j.src, start);
    off := StoreRaw(blob, j.src[start..j.p]);
    v := CellJson(Ptr(blob.data, off));
  }

  /** Raw bytes and a NUL at the end of the arena. */
  method StoreRaw(blob: Sbuf, raw: string) returns (base: nat)
    requires blob.Valid() && blob.len + |raw| + 1 <= ROOM
    modifies blob, blob.data
    ensures blob.Valid() && (blob.data == old(blob.data) || fresh(blob.data))
    ensures old(blob.Contents()) <= blob.Contents() && blob.len == old(blob.len) + |raw| + 1
    ensures base != SIZE_MAX && StandsAt(blob.Contents(), base, CStr(raw))
  {
    hide NextCapacity, StandsAt, CStr;
    ghost var was := blob.Contents();
    var ok := blob.Reserve(|raw|);
    assert ok;
    base := blob.len;
    CopyString(blob.data, base, raw);
    blob.len := base + |raw| + 1;
    ArenaWrite(blob.data[..], base, |raw|, was, raw);
  }

  lemma RawValue(s: string, k: nat)
    requires (Sees(s, k, '{') || Sees(s, k, '[')) && Value(s, k).Good?
    ensures var Good(t, q) := Value(s, k); t.Node? && ValOf(t) == JsonVal(CStr(s[k..q]))
  {
    hide ItemList, Element, Text, At;
    SkipHere(s, k);
    ValueSound(s, k);
    AtIs(s, k, Text(Value(s, k).v));
  }

  // ---- The client's scratch buffers ----

  function Flat(rows: seq<Row>): seq<Cell> {
    if rows == [] then [] else Flat(rows[..|rows| - 1]) + rows[|rows| - 1]
  }

  /** The rows recorded so far: a count and the offset of the first cell for each. */
  ghost predicate RowsStored(records: seq<RowRecord>, starts: seq<nat>, rows: seq<Row>) {
    |rows| <= |records| && |rows| <= |starts| &&
    forall r | 0 <= r < |rows| :: records[r].count == |rows[r]| && starts[r] == |Flat(rows[..r])|
  }

  class Client {
    var rowsArr: array<RowRecord>
    var rowsCap: nat
    var cellsArr: array<CellRecord>
    var cellsCap: nat
    const valuesBlob: Sbuf
    var cellStrOffs: array<nat>
    var cellStrOffsCap: nat
    var rowCellStarts: array<nat>
    var rowCellStartsCap: nat

    /** Capacities are the sizes of the blocks, and no block is used twice. */
    ghost predicate Valid()
      reads this, valuesBlob
    {
      rowsArr.Length == rowsCap && cellsArr.Length == cellsCap && valuesBlob.Valid() &&
      cellStrOffs.Length == cellStrOffsCap && rowCellStarts.Length == rowCellStartsCap &&
      cellStrOffs != rowCellStarts
    }

    constructor ()
      ensures Valid() && fresh(valuesBlob) && fresh(valuesBlob.data)
    {
      valuesBlob := new Sbuf();
      rowsArr, rowsCap := new RowRecord[0], 0;
      cellsArr, cellsCap := new CellRecord[0], 0;
      cellStrOffs, cellStrOffsCap := new nat[0], 0;
      rowCellStarts, rowCellStartsCap := new nat[0], 0;
    }

    /** The cell arrays and the arena hold done. */
    ghost predicate Stored(done: seq<Cell>)
      reads this, cellsArr, cellStrOffs, valuesBlob, valuesBlob.data
    {
      valuesBlob.Valid() && StoredIn(cellsArr[..], cellStrOffs[..], valuesBlob.Contents(), done)
    }

    /** Makes room for one more cell in the two parallel cell arrays. */
    method GrowCells(total: nat, ghost done: seq<Cell>)
      requires Valid() && Stored(done) && |done| == total
      modifies this`cellsArr, this`cellsCap, this`cellStrOffs, this`cellStrOffsCap
      ensures Valid() && Stored(done) && total < cellsCap && total < cellStrOffsCap
      ensures cellsArr == old(cellsArr) || fresh(cellsArr)
      ensures cellStrOffs == old(cellStrOffs) || fresh(cellStrOffs)
    {
      hide CellOk;
      ghost var cells, offs, arena := cellsArr[..], cellStrOffs[..], valuesBlob.Contents();
      if total + 1 > cellsCap {
        cellsArr, cellsCap := Grown(cellsArr, 16, total + 1);
      }
      if total + 1 > cellStrOffsCap {
        cellStrOffs, cellStrOffsCap := Grown(cellStrOffs, 16, total + 1);
      }
      assert cellsArr[..][..total] == cells[..total];
      assert cellStrOffs[..][..total] == offs[..total];
      StoredStays(cells, offs, arena, done, cellsArr[..], cellStrOffs[..], arena);
    }

    /** Reads an id, an optional comma and a value, and stores them as one cell. */
    method DecodePair(w: JsonParser, total: nat, ghost done: seq<Cell>)
      requires Valid() && Stored(done) && |done| == total
      requires w.Valid() && w.ok && valuesBlob.len + |w.src| + 1 <= ROOM
      modifies w, this`cellsArr, this`cellsCap, this`cellStrOffs, this`cellStrOffsCap
      modifies cellsArr, cellStrOffs, valuesBlob, valuesBlob.data
      ensures Valid() && w.Valid()
      ensures cellsArr == old(cellsArr) || fresh(cellsArr)
      ensures cellStrOffs == old(cellStrOffs) || fresh(cellStrOffs)
      ensures valuesBlob.data == old(valuesBlob.data) || fresh(valuesBlob.data)
      ensures w.ok == Pair(w.src, old(w.p)).Good?
      ensures w.ok ==> old(w.p) < w.p && Skip(w.src, w.p) == Pair(w.src, old(w.p)).pos
      ensures w.ok ==> valuesBlob.len <= old(valuesBlob.len) + (w.p - old(w.p))
      ensures w.ok ==> Stored(done + [Pair(w.src, old(w.p)).v])
    {
      hide Value, ValOf, RunEnd, Stored, StrToInt64, ValueOk;
      ghost var from := w.p;
      var id := DecodeColumnId(w);
      if !w.ok {
        return;
      }
      NewCell(total, id, done);
      ghost var arena := valuesBlob.Contents();
      var v, off := ParseScalarInto(w, valuesBlob);
      if !w.ok {
        return;
      }
      SkipIdempotent(w.src, w.p);
      StoreCell(total, id, v, off, arena, done, Pair(w.src, from).v);
    }

    /** Room for one more cell, which starts as NULL. */
    method NewCell(total: nat, id: int64, ghost done: seq<Cell>)
      requires Valid() && Stored(done) && |done| == total
      modifies this`cellsArr, this`cellsCap, this`cellStrOffs, this`cellStrOffsCap, cellsArr
      ensures Valid() && Held(valuesBlob.Contents(), done) && total < cellsCap && total < cellStrOffsCap
      ensures cellsArr == old(cellsArr) || fresh(cellsArr)
      ensures cellStrOffs == old(cellStrOffs) || fresh(cellStrOffs)
    {
      hide CellOk;
      GrowCells(total, done);
      ghost var cells, offs, arena := cellsArr[..], cellStrOffs[..], valuesBlob.Contents();
      cellsArr[total] := CellRecord(id, CellNull);
      assert cellsArr[..][..total] == cells[..total];
      StoredStays(cells, offs, arena, done, cellsArr[..], offs, arena);
    }

    /** The cell arrays hold done, with its strings in arena. */
    ghost predicate Held(arena: string, done: seq<Cell>)
      reads this, cellsArr, cellStrOffs
    {
      StoredIn(cellsArr[..], cellStrOffs[..], arena, done)
    }

    /** Stores a cell behind done, whose strings stand in what was the arena before its value was parsed. */
    method StoreCell(total: nat, id: int64, v: CellValue, off: nat, ghost arena: string, ghost done: seq<Cell>, ghost a: Cell)
      requires Valid() && Held(arena, done) && |done| == total < cellsCap && total < cellStrOffsCap
      requires arena <= valuesBlob.Contents() && a.id == id && ValueOk(v, off, valuesBlob.Contents(), a.value)
      modifies cellsArr, cellStrOffs
      ensures Valid() && Stored(done + [a])
    {
      hide CellOk, ValueOk, StoredIn;
      ghost var cells, offs := cellsArr[..], cellStrOffs[..];
      cellsArr[total] := CellRecord(id, v);
      cellStrOffs[total] := off;
      assert cellsArr[..] == cells[total := CellRecord(id, v)];
      assert cellStrOffs[..] == offs[total := off];
      StoredOneMore(cells, offs, arena, done, valuesBlob.Contents(), a, v, off);
    }

    /** The column id of a pair, and the comma behind it if there is one. */
    method DecodeColumnId(w: JsonParser) returns (id: int64)
      requires w.Valid() && w.ok
      modifies w
      ensures w.Valid()
      ensures w.ok == (Skip(w.src, old(w.p)) < |w.src| && StartsNumber(w.src[Skip(w.src, old(w.p))]))
      ensures w.ok ==> var k := Skip(w.src, old(w.p)); var e := RunEnd(w.src, k, NumberRun); var f := Skip(w.src, e);
                       w.p == (if Sees(w.src, f, ',') then f + 1 else f) && old(w.p) < w.p && id == ColumnId(w.src[k..e])
    {
      hide RunEnd, StrToInt64;
      id := 0;
      var ch0 := w.PeekByte();
      if ch0 != '-' as int && !('0' as int <= ch0 <= '9' as int) {
        w.ok := false;
        return;
      }
      var nstart := w.p;
      NumberAdvances(w.src, nstart);
      w.SkipNumber();
      var nlen := w.p - nstart;
      if nlen >= 32 {
        nlen := 31;
      }
      CutSlice(w.src, nstart, w.p, ID_ROOM);
      id := StrToInt64(w.src[nstart..nstart + nlen]);
      var ch := w.PeekByte();
      if ch == ',' as int {
        w.p := w.p + 1;
      }
    }

    /** The flat cells array, from behind its opening bracket. */
    method DecodeCells(w: JsonParser, start: nat, ghost done: seq<Cell>) returns (total: nat)
      requires Valid() && Stored(done) && |done| == start
      requires w.Valid() && w.ok && valuesBlob.len <= w.p && 2 * |w.src| + 1 <= ROOM
      modifies w, this`cellsArr, this`cellsCap, this`cellStrOffs, this`cellStrOffsCap
      modifies cellsArr, cellStrOffs, valuesBlob, valuesBlob.data
      ensures Valid() && w.Valid()
      ensures cellsArr == old(cellsArr) || fresh(cellsArr)
      ensures cellStrOffs == old(cellStrOffs) || fresh(cellStrOffs)
      ensures valuesBlob.data == old(valuesBlob.data) || fresh(valuesBlob.data)
      ensures w.Consumed(CellArray(w.src, old(w.p)))
      ensures w.ok ==> valuesBlob.len <= w.p
      ensures w.ok ==> Stored(done + CellArray(w.src, old(w.p)).v) && total == start + |CellArray(w.src, old(w.p)).v|
    {
      hide CellList, Stored, RunEnd;
      total := start;
      SameCellList(w.src, w.p);
      w.SkipWhite();
      var ch := w.PeekByte();
      if ch == ']' as int {
        w.p := w.p + 1;
        assert done + [] == done;
        return;
      }
      total := DecodeCellList(w, start, done);
    }

    /** A non-empty cells array, up to and including its closing bracket. */
    method DecodeCellList(w: JsonParser, start: nat, ghost done: seq<Cell>) returns (total: nat)
      requires Valid() && Stored(done) && |done| == start
      requires w.Valid() && w.ok && valuesBlob.len <= w.p && 2 * |w.src| + 1 <= ROOM
      modifies w, this`cellsArr, this`cellsCap, this`cellStrOffs, this`cellStrOffsCap
      modifies cellsArr, cellStrOffs, valuesBlob, valuesBlob.data
      ensures Valid() && w.Valid()
      ensures cellsArr == old(cellsArr) || fresh(cellsArr)
      ensures cellStrOffs == old(cellStrOffs) || fresh(cellStrOffs)
      ensures valuesBlob.data == old(valuesBlob.data) || fresh(valuesBlob.data)
      ensures w.Consumed(CellList(w.src, old(w.p)))
      ensures w.ok ==> valuesBlob.len <= w.p
      ensures w.ok ==> Stored(done + CellList(w.src, old(w.p)).v) && total == start + |CellList(w.src, old(w.p)).v|
    {
      hide Pair, CellList, Stored, RunEnd, Client.Valid;
      total := start;
      ghost var all, more: seq<Cell> := CellList(w.src, w.p), [];
      PrependNothing(all);
      assert done + more == done;
      while true
        invariant Valid() && w.Valid() && w.ok && valuesBlob.len <= w.p
        invariant cellsArr == old(cellsArr) || fresh(cellsArr)
        invariant cellStrOffs == old(cellStrOffs) || fresh(cellStrOffs)
        invariant valuesBlob.data == old(valuesBlob.data) || fresh(valuesBlob.data)
        invariant Stored(done + more) && total == start + |more|
        invariant all == Prepend(more, CellList(w.src, w.p))
        decreases |w.src| - w.p
      {
        CellStep(w.src, w.p, more);
        ghost var pair := Pair(w.src, w.p);
        DecodePair(w, total, done + more);
        if !w.ok {
          return;
        }
        total := total + 1;
        assert (done + more) + [pair.v] == done + (more + [pair.v]);
        more := more + [pair.v];
        var another := w.NextItem(']');
        if !another {
          return;
        }
      }
    }

    /** One member of a row: a cells array is decoded, anything else is skipped. */
    method DecodeMember(w: JsonParser, start: nat, ghost done: seq<Cell>, key: string) returns (total: nat)
      requires Valid() && Stored(done) && |done| == start
      requires w.Valid() && w.ok && valuesBlob.len <= w.p && 2 * |w.src| + 1 <= ROOM
      requires Value(w.src, w.p) == Value(w.src, Skip(w.src, w.p)) && Skip(w.src, Skip(w.src, w.p)) == Skip(w.src, w.p)
      modifies w, this`cellsArr, this`cellsCap, this`cellStrOffs, this`cellStrOffsCap
      modifies cellsArr, cellStrOffs, valuesBlob, valuesBlob.data
      ensures Valid() && w.Valid()
      ensures cellsArr == old(cellsArr) || fresh(cellsArr)
      ensures cellStrOffs == old(cellStrOffs) || fresh(cellStrOffs)
      ensures valuesBlob.data == old(valuesBlob.data) || fresh(valuesBlob.data)
      ensures w.Consumed(MemberCells(w.src, key, Skip(w.src, old(w.p))))
      ensures w.ok ==> valuesBlob.len <= w.p
      ensures w.ok ==> var cells := MemberCells(w.src, key, Skip(w.src, old(w.p))).v;
                       Stored(done + cells) && total == start + |cells|
    {
      hide CellArray, Stored, RunEnd, Value, Client.Valid;
      total := start;
      var isCells := false;
      if key == "cells" {
        var ch := w.PeekByte();
        isCells := ch == '[' as int;
      }
      if isCells {
        w.p := w.p + 1;
        total := DecodeCells(w, start, done);
      } else {
        assert done + [] == done;
        w.SkipValue();
      }
    }

    /** A key and its value. */
    method DecodeKeyed(w: JsonParser, start: nat, ghost done: seq<Cell>) returns (total: nat)
      requires Valid() && Stored(done) && |done| == start
      requires w.Valid() && w.ok && valuesBlob.len <= w.p && 2 * |w.src| + 1 <= ROOM
      modifies w, this`cellsArr, this`cellsCap, this`cellStrOffs, this`cellStrOffsCap
      modifies cellsArr, cellStrOffs, valuesBlob, valuesBlob.data
      ensures Valid() && w.Valid()
      ensures cellsArr == old(cellsArr) || fresh(cellsArr)
      ensures cellStrOffs == old(cellStrOffs) || fresh(cellStrOffs)
      ensures valuesBlob.data == old(valuesBlob.data) || fresh(valuesBlob.data)
      ensures w.ok == RowMember(w.src, old(w.p)).Good?
      ensures w.ok ==> old(w.p) < w.p && Skip(w.src, w.p) == RowMember(w.src, old(w.p)).pos && valuesBlob.len <= w.p
      ensures w.ok ==> var cells := RowMember(w.src, old(w.p)).v;
                       Stored(done + cells) && total == start + |cells|
    {
      hide MemberCells, MemberKey, Stored, RunEnd, Value, Client.Valid;
      total := start;
      var kstart, klen := w.ReadKey();
      if !w.ok {
        return;
      }
      total := DecodeMember(w, start, done, w.src[kstart..kstart + klen]);
    }

    /** The members of a non-empty row object, up to and including its closing brace. */
    method DecodeMembers(w: JsonParser, start: nat, ghost done: seq<Cell>) returns (total: nat)
      requires Valid() && Stored(done) && |done| == start
      requires w.Valid() && w.ok && valuesBlob.len <= w.p && 2 * |w.src| + 1 <= ROOM
      modifies w, this`cellsArr, this`cellsCap, this`cellStrOffs, this`cellStrOffsCap
      modifies cellsArr, cellStrOffs, valuesBlob, valuesBlob.data
      ensures Valid() && w.Valid()
      ensures cellsArr == old(cellsArr) || fresh(cellsArr)
      ensures cellStrOffs == old(cellStrOffs) || fresh(cellStrOffs)
      ensures valuesBlob.data == old(valuesBlob.data) || fresh(valuesBlob.data)
      ensures w.Consumed(MemberList(w.src, old(w.p)))
      ensures w.ok ==> valuesBlob.len <= w.p
      ensures w.ok ==> Stored(done + MemberList(w.src, old(w.p)).v) && total == start + |MemberList(w.src, old(w.p)).v|
    {
      hide MemberList, RowMember, Stored, RunEnd, Client.Valid;
      total := start;
      ghost var all, more: seq<Cell> := MemberList(w.src, w.p), [];
      PrependNothing(all);
      assert done + more == done;
      while true
        invariant Valid() && w.Valid() && w.ok && valuesBlob.len <= w.p
        invariant cellsArr == old(cellsArr) || fresh(cellsArr)
        invariant cellStrOffs == old(cellStrOffs) || fresh(cellStrOffs)
        invariant valuesBlob.data == old(valuesBlob.data) || fresh(valuesBlob.data)
        invariant Stored(done + more) && total == start + |more|
        invariant all == Prepend(more, MemberList(w.src, w.p))
        decreases |w.src| - w.p
      {
        MemberStep(w.src, w.p, more);
        ghost var cells := RowMember(w.src, w.p);
        total := DecodeKeyed(w, total, done + more);
        if !w.ok {
          return;
        }
        assert (done + more) + cells.v == done + (more + cells.v);
        more := more + cells.v;
        var another := w.NextItem('}');
        if !another {
          return;
        }
      }
    }

    /** The blocks that the decoder writes to. */
    ghost function Blocks(): set<object>
      reads this, valuesBlob
    {
      {cellsArr as object, cellStrOffs as object, rowsArr as object, rowCellStarts as object, valuesBlob.data as object}
    }

    /** The rows recorded so far. */
    ghost predicate RowsHeld(rows: seq<Row>)
      reads this, rowsArr, rowCellStarts
    {
      RowsStored(rowsArr[..], rowCellStarts[..], rows)
    }

    /** Adds up the cell counts of the recorded rows. */
    method CountCells(count: nat, ghost rows: seq<Row>) returns (total: nat)
      requires Valid() && RowsHeld(rows) && |rows| == count
      ensures total == |Flat(rows)|
    {
      total := 0;
      var r := 0;
      while r < count
        invariant r <= count && total == |Flat(rows[..r])|
      {
        assert rowsArr[..][r].count == |rows[r]|;
        FlatStep(rows, r);
        total := total + rowsArr[r].count;
        r := r + 1;
      }
      assert rows[..count] == rows;
    }

    /** One row object. */
    method DecodeRow(w: JsonParser, start: nat, ghost done: seq<Cell>) returns (total: nat)
      requires Valid() && Stored(done) && |done| == start
      requires w.Valid() && w.ok && valuesBlob.len <= w.p && 2 * |w.src| + 1 <= ROOM
      modifies w, this`cellsArr, this`cellsCap, this`cellStrOffs, this`cellStrOffsCap
      modifies cellsArr, cellStrOffs, valuesBlob, valuesBlob.data
      ensures Valid() && w.Valid()
      ensures cellsArr == old(cellsArr) || fresh(cellsArr)
      ensures cellStrOffs == old(cellStrOffs) || fresh(cellStrOffs)
      ensures valuesBlob.data == old(valuesBlob.data) || fresh(valuesBlob.data)
      ensures w.Consumed(RowAt(w.src, old(w.p)))
      ensures w.ok ==> valuesBlob.len <= w.p
      ensures w.ok ==> var row := RowAt(w.src, old(w.p)).v; Stored(done + row) && total == start + |row|
    {
      hide MemberList, Stored, RunEnd, Client.Valid;
      total := start;
      var ch := w.PeekByte();
      if ch != '{' as int {
        w.ok := false;
        return;
      }
      w.p := w.p + 1;
      SameMemberList(w.src, w.p);
      w.SkipWhite();
      ch := w.PeekByte();
      if ch != '}' as int {
        total := DecodeMembers(w, start, done);
      } else {
        w.p := w.p + 1;
        assert done + [] == done;
      }
    }

    /** Records a row: where its cells start, and how many there are. */
    method RecordRow(count: nat, start: nat, cellsInRow: nat, ghost rows: seq<Row>, ghost row: Row)
      requires Valid() && RowsHeld(rows) && |rows| == count
      requires start == |Flat(rows)| && cellsInRow == |row|
      modifies this`rowsArr, this`rowsCap, this`rowCellStarts, this`rowCellStartsCap, rowsArr, rowCellStarts
      ensures Valid() && RowsHeld(rows + [row])
      ensures rowsArr == old(rowsArr) || fresh(rowsArr)
      ensures rowCellStarts == old(rowCellStarts) || fresh(rowCellStarts)
    {
      hide Flat, RowsStored;
      GrowRows(count, rows);
      ghost var records, starts := rowsArr[..], rowCellStarts[..];
      rowCellStarts[count] := start;
      rowsArr[count] := rowsArr[count].(count := cellsInRow);
      assert rowsArr[..] == records[count := records[count].(count := cellsInRow)];
      assert rowCellStarts[..] == starts[count := start];
      RowsStoredOneMore(records, starts, rows, rowsArr[..], rowCellStarts[..], row);
    }

    /** Makes room for one more row in the two parallel row arrays. */
    method GrowRows(count: nat, ghost rows: seq<Row>)
      requires Valid() && RowsHeld(rows) && |rows| == count
      modifies this`rowsArr, this`rowsCap, this`rowCellStarts, this`rowCellStartsCap
      ensures Valid() && RowsHeld(rows) && count < rowsCap && count < rowCellStartsCap
      ensures rowsArr == old(rowsArr) || fresh(rowsArr)
      ensures rowCellStarts == old(rowCellStarts) || fresh(rowCellStarts)
    {
      hide Flat;
      ghost var records, starts := rowsArr[..], rowCellStarts[..];
      if count == rowsCap {
        var ncap := if rowsCap != 0 then rowsCap * 2 else 8;
        rowsArr := Realloc(rowsArr, ncap);
        rowsCap := ncap;
      }
      if count == rowCellStartsCap {
        rowCellStarts, rowCellStartsCap := Grown(rowCellStarts, 8, count + 1);
      }
      assert rowsArr[..][..count] == records[..count];
      assert rowCellStarts[..][..count] == starts[..count];
      RowsStoredStay(records, starts, rows, rowsArr[..], rowCellStarts[..]);
    }

    /** Decodes the next row behind the recorded ones and records it. */
    method DecodeOneRow(w: JsonParser, count: nat, ghost rows: seq<Row>) returns (total: nat)
      requires Valid() && Stored(Flat(rows)) && RowsHeld(rows) && |rows| == count
      requires w.Valid() && w.ok && valuesBlob.len <= w.p && 2 * |w.src| + 1 <= ROOM
      modifies w, this, valuesBlob, Blocks()
      ensures Valid() && w.Valid() && fresh(Blocks() - old(Blocks()))
      ensures w.Consumed(RowAt(w.src, old(w.p)))
      ensures w.ok ==> valuesBlob.len <= w.p
      ensures w.ok ==> var more := rows + [RowAt(w.src, old(w.p)).v];
                       RowsHeld(more) && Stored(Flat(more)) && total == |Flat(more)|
    {
      hide RowAt, RunEnd, Flat, StoredIn, RowsStored;
      ghost var row := RowAt(w.src, w.p);
      var rowCellStart := CountCells(count, rows);
      total := DecodeRow(w, rowCellStart, Flat(rows));
      if !w.ok {
        return;
      }
      FlatMore(rows, row.v);
      RecordRow(count, rowCellStart, total - rowCellStart, rows, row.v);
    }

    /** A non-empty rows array, up to its closing bracket. */
    method DecodeRows(w: JsonParser) returns (count: nat, total: nat, ghost rows: seq<Row>)
      requires Valid() && Stored([]) && RowsHeld([])
      requires w.Valid() && w.ok && valuesBlob.len <= w.p && 2 * |w.src| + 1 <= ROOM
      modifies w, this, valuesBlob, Blocks()
      ensures Valid() && w.Valid() && fresh(Blocks() - old(Blocks()))
      ensures w.ok == RowList(w.src, old(w.p)).Good?
      ensures w.ok ==> rows == RowList(w.src, old(w.p)).v && RowsHeld(rows) && Stored(Flat(rows))
      ensures w.ok ==> count == |rows| && total == |Flat(rows)|
    {
      hide RowList, RowAt, Stored, RowsHeld, RunEnd, Client.Valid, Flat, Peek, Skip;
      count, total, rows := 0, 0, [];
      FlatNothing();
      ghost var all := RowList(w.src, w.p);
      PrependNothing(all);
      while true
        invariant Valid() && w.Valid() && w.ok && valuesBlob.len <= w.p
        invariant fresh(Blocks() - old(Blocks()))
        invariant RowsHeld(rows) && Stored(Flat(rows)) && count == |rows| && total == |Flat(rows)|
        invariant all == Prepend(rows, RowList(w.src, w.p))
        decreases |w.src| - w.p
      {
        RowStep(w.src, w.p, rows);
        ghost var row := RowAt(w.src, w.p);
        total := DecodeOneRow(w, count, rows);
        if !w.ok {
          return;
        }
        rows := rows + [row.v];
        count := count + 1;
        var another := w.NextItem(']'); // the program leaves its cursor in front of the bracket
        if !another {
          return;
        }
      }
    }

    // ---- Pointers: what the caller sees ----

    /** The first |cells| entries of the cell array are cells, and every string or JSON pointer
        among them points into the live arena. */
    ghost predicate CellsDelivered(cells: seq<Cell>)
      reads this, cellsArr, valuesBlob, valuesBlob.data
    {
      valuesBlob.Valid() && |cells| <= cellsArr.Length &&
      forall k | 0 <= k < |cells| ::
        cellsArr[k].columnId == cells[k].id &&
        Shows(cellsArr[k].value, cells[k].value, valuesBlob.data, valuesBlob.Contents())
    }

    /** Each row has its count and points to where its cells start. */
    ghost predicate RowsDelivered(rows: seq<Row>)
      reads this, rowsArr
    {
      |rows| <= rowsArr.Length &&
      forall r | 0 <= r < |rows| ::
        rowsArr[r] == RowRecord(if rows[r] == [] then NoCells else CellsFrom(cellsArr, |Flat(rows[..r])|), |rows[r]|)
    }

    /** Turns the rows' cell offsets into pointers. */
    method ResolveRows(count: nat, ghost rows: seq<Row>)
      requires Valid() && RowsHeld(rows) && |rows| == count
      modifies rowsArr
      ensures RowsDelivered(rows)
    {
      hide Flat;
      ghost var records, starts := rowsArr[..], rowCellStarts[..];
      assert RowsStored(records, starts, rows);
      var r := 0;
      while r < count
        invariant r <= count
        invariant forall k | r <= k < count :: rowsArr[k] == records[k]
        invariant forall k | 0 <= k < r ::
          rowsArr[k] == RowRecord(if rows[k] == [] then NoCells else CellsFrom(cellsArr, starts[k]), |rows[k]|)
      {
        assert records[r].count == |rows[r]|;
        rowsArr[r] := rowsArr[r].(cells := if rowsArr[r].count > 0 then CellsFrom(cellsArr, rowCellStarts[r]) else NoCells);
        r := r + 1;
      }
    }

    /** Points every string and JSON cell into the arena, which no longer moves. */
    method ResolveCells(total: nat, ghost cells: seq<Cell>)
      requires Valid() && Stored(cells) && |cells| == total
      modifies cellsArr
      ensures Valid() && CellsDelivered(cells)
    {
      hide StandsAt;
      ghost var stored, offs, arena := cellsArr[..], cellStrOffs[..], valuesBlob.Contents();
      assert StoredIn(stored, offs, arena, cells);
      var i := 0;
      while i < total
        invariant i <= total
        invariant forall k | i <= k < total :: cellsArr[k] == stored[k]
        invariant forall k | 0 <= k < i ::
          cellsArr[k].columnId == cells[k].id && Shows(cellsArr[k].value, cells[k].value, valuesBlob.data, arena)
      {
        assert CellOk(stored[i], offs[i], arena, cells[i]);
        if cellStrOffs[i] != SIZE_MAX && (cellsArr[i].value.CellString? || cellsArr[i].value.CellJson?) {
          if cellsArr[i].value.CellString? {
            cellsArr[i] := cellsArr[i].(value := CellString(Ptr(valuesBlob.data, cellStrOffs[i])));
          } else {
            cellsArr[i] := cellsArr[i].(value := CellJson(Ptr(valuesBlob.data, cellStrOffs[i])));
          }
        }
        i := i + 1;
      }
    }

    /** Decodes a response body into the client's buffers.

        The result is the one DecodeQuery gives: MDB_ERR_JSON, or MDB_OK with the rows delivered
        through pointers that are all live. */
    method DecodeResponse(recv: string) returns (rc: int, count: nat, truncated: bool, ghost rows: seq<Row>)
      requires Valid() && |recv| <= MAX_RESPONSE_BYTES
      modifies this, valuesBlob
      ensures Valid()
      ensures rc == if DecodeQuery(recv).JsonError? then MDB_ERR_JSON else MDB_OK
      ensures rc == MDB_OK ==> DecodeQuery(recv) == Rows(rows, truncated) && count == |rows|
      ensures rc == MDB_OK ==> RowsDelivered(rows) && CellsDelivered(Flat(rows))
      ensures rc == MDB_OK ==> forall r | 0 <= r < count :: rowsArr[r].count == |rows[r]|
      ensures rc == MDB_OK ==> forall r, k | 0 <= r < count && 0 <= k < |rows[r]| ::
                InBlock(rowsArr[r], k) && CellRead(RowCell(rowsArr[r], k)) == Some(rows[r][k])
    {
      hide FindRows, BoolField, RowList, Flat, RunEnd, Client.Blocks, RowsDelivered, CellsDelivered, Stored, RowsHeld;
      Reset();
      count, rows := 0, [];
      FlatNothing();
      var found;
      found, truncated := GetBool(recv, "truncated");
      var r := LocateRows(recv);
      if r.Refused? {
        return MDB_ERR_JSON, 0, truncated, [];
      }
      if r.Missing? {
        NothingDelivered();
        return MDB_OK, 0, truncated, [];
      }
      rc, count, rows := DecodeRowArray(recv, r.at);
      if rc == MDB_OK { RowsAreRead(rows); }
    }

    /** The delivered slices are consecutive and cover the cells: row r points where the rows before
        it end, an empty row points nowhere, and the last row ends with the last cell. */
    lemma DeliveredSlices(rows: seq<Row>, r: nat)
      requires Valid() && RowsDelivered(rows) && CellsDelivered(Flat(rows)) && r < |rows|
      ensures var start := |Flat(rows[..r])|; var end := |Flat(rows[..r + 1])|;
              start <= end && rowsArr[r] == RowRecord(if start == end then NoCells else CellsFrom(cellsArr, start), end - start) &&
              (r == 0 ==> start == 0) && (r == |rows| - 1 ==> end == |Flat(rows)|) && end <= |Flat(rows)| <= cellsArr.Length
    {
      hide Shows;
      RowsAreSlices(rows, r);
      assert rows[..0] == [];
      if r == |rows| - 1 { assert rows[..r + 1] == rows; }
    }

    /** What the caller reads through rows[r].cells[k], for all rows and cells: exactly the decoded
        rows. */
    lemma RowsAreRead(rows: seq<Row>)
      requires Valid() && RowsDelivered(rows) && CellsDelivered(Flat(rows))
      ensures |rows| <= rowsArr.Length && forall r | 0 <= r < |rows| :: rowsArr[r].count == |rows[r]|
      ensures forall r, k | 0 <= r < |rows| && 0 <= k < |rows[r]| ::
                InBlock(rowsArr[r], k) && CellRead(RowCell(rowsArr[r], k)) == Some(rows[r][k])
    {
      hide Shows, Flat, CellRead;
      var cells := Flat(rows);
      forall r, k | 0 <= r < |rows| && 0 <= k < |rows[r]|
        ensures InBlock(rowsArr[r], k) && CellRead(RowCell(rowsArr[r], k)) == Some(rows[r][k])
      {
        RowsAreSlices(rows, r);
        var start := |Flat(rows[..r])|;
        assert cells[start + k] == cells[start..start + |rows[r]|][k];
        ShownCellIsRead(cellsArr[start + k], cells[start + k], valuesBlob);
      }
    }

    lemma NothingDelivered()
      requires valuesBlob.Valid()
      ensures RowsDelivered([]) && CellsDelivered([])
    {}

    method FreeArrays()
      modifies this
      ensures rowsArr.Length == rowsCap && cellsArr.Length == cellsCap
      ensures cellStrOffs.Length == cellStrOffsCap && rowCellStarts.Length == rowCellStartsCap
      ensures fresh(rowsArr) && fresh(cellsArr) && fresh(cellStrOffs) && fresh(rowCellStarts)
      ensures cellStrOffs != rowCellStarts
    {
      rowsArr, rowsCap := new RowRecord[0], 0;
      cellsArr, cellsCap := new CellRecord[0], 0;
      cellStrOffs, cellStrOffsCap := new nat[0], 0;
      rowCellStarts, rowCellStartsCap := new nat[0], 0;
    }

    /** Frees what the last result used. */
    method Reset()
      requires Valid()
      modifies this, valuesBlob
      ensures Valid() && fresh(Blocks()) && Stored([]) && RowsHeld([]) && valuesBlob.len == 0
    {
      hide StoredIn, RowsStored, Sbuf.Terminated, Sbuf.Tight, Sbuf.Contents;
      valuesBlob.Free();
      FreeArrays();
      NothingStored(cellsArr[..], cellStrOffs[..], valuesBlob.Contents(), rowsArr[..], rowCellStarts[..]);
    }

    /** Scans the top-level keys for the rows array. */
    static method LocateRows(recv: string) returns (r: Lookup)
      ensures r == FindRows(recv)
    {
      hide Find, RunEnd;
      var j := new JsonParser(recv);
      var ch := j.PeekByte();
      if ch != '{' as int {
        return Missing;
      }
      j.p := j.p + 1;
      SameFind(recv, j.p, "rows", AnArray);
      SkipIdempotent(recv, j.p);
      j.SkipWhite();
      ch := j.PeekByte();
      if ch == '}' as int {
        return Missing;
      }
      r := FindMember(j, "rows", AnArray);
    }

    /** The rows array whose opening bracket is at rowsStart. */
    method DecodeRowArray(recv: string, rowsStart: nat) returns (rc: int, count: nat, ghost rows: seq<Row>)
      requires Valid() && Stored([]) && RowsHeld([]) && valuesBlob.len == 0
      requires |recv| <= MAX_RESPONSE_BYTES && rowsStart < |recv|
      modifies this, valuesBlob, Blocks()
      ensures Valid()
      ensures rc == if RowArray(recv, rowsStart + 1, true).JsonError? then MDB_ERR_JSON else MDB_OK
      ensures rc == MDB_OK ==> RowArray(recv, rowsStart + 1, true) == Rows(rows, true) && count == |rows|
      ensures rc == MDB_OK ==> RowsDelivered(rows) && CellsDelivered(Flat(rows))
    {
      hide RowList, Flat, Skip, Client.RowsDelivered, Client.CellsDelivered;
      count, rows := 0, [];
      FlatNothing();
      NothingDelivered();
      var w := new JsonParser(recv, rowsStart);
      w.p := w.p + 1;
      SameRowList(recv, w.p);
      w.SkipWhite();
      var ch := w.PeekByte();
      if ch == ']' as int {
        return MDB_OK, 0, [];
      }
      var total;
      count, total, rows := DecodeRows(w);
      if !w.ok {
        return MDB_ERR_JSON, 0, [];
      }
      rc := MDB_OK;
      Resolve(count, total, rows);
    }

    /** The last pass: offsets become pointers. */
    method Resolve(count: nat, total: nat, ghost rows: seq<Row>)
      requires Valid() && RowsHeld(rows) && |rows| == count && Stored(Flat(rows)) && |Flat(rows)| == total
      modifies rowsArr, cellsArr
      ensures Valid() && RowsDelivered(rows) && CellsDelivered(Flat(rows))
    {
      hide Flat, RowsStored, StoredIn;
      ResolveRows(count, rows);
      ResolveCells(total, Flat(rows));
    }
  }

  /** What the caller reads through a delivered value. */
  ghost predicate Shows(v: CellValue, a: Val, live: array<char>, arena: string) {
    match a
    case NullVal => v == CellNull
    case BoolVal(b) => v == CellBool(b)
    case Int64Val(i) => v == CellInt64(i)
    case DoubleVal(text) => v == CellDouble(text)
    case StringVal(s) => v.CellString? && v.str.Ptr? && v.str.block == live && StandsAt(arena, v.str.off, s)
    case JsonVal(s) => v.CellJson? && v.json.Ptr? && v.json.block == live && StandsAt(arena, v.json.off, s)
  }

  // ---- What the caller reads ----

  function BlocksOf(v: CellValue): set<object> {
    match v
    case CellString(Ptr(block, _)) => {block}
    case CellJson(Ptr(block, _)) => {block}
    case _ => {}
  }

  /** The cell a caller finds in a record, by following its pointer. */
  ghost function CellRead(c: CellRecord): Option<Cell>
    reads BlocksOf(c.value)
  {
    match c.value
    case CellNull => Some(Cell(c.columnId, NullVal))
    case CellBool(b) => Some(Cell(c.columnId, BoolVal(b)))
    case CellInt64(i) => Some(Cell(c.columnId, Int64Val(i)))
    case CellDouble(text) => Some(Cell(c.columnId, DoubleVal(text)))
    case CellString(p) => if StringRead(p).Some? then Some(Cell(c.columnId, StringVal(StringRead(p).value))) else None
    case CellJson(p) => if StringRead(p).Some? then Some(Cell(c.columnId, JsonVal(StringRead(p).value))) else None
  }

  predicate InBlock(row: RowRecord, k: nat) {
    row.cells.CellsFrom? && row.cells.off + k < row.cells.block.Length
  }

  /** `row.cells[k]`. */
  function RowCell(row: RowRecord, k: nat): CellRecord
    requires InBlock(row, k)
    reads row.cells.block
  {
    row.cells.block[row.cells.off + k]
  }

  lemma ShownCellIsRead(c: CellRecord, a: Cell, blob: Sbuf)
    requires blob.Valid() && c.columnId == a.id && Shows(c.value, a.value, blob.data, blob.Contents())
    ensures CellRead(c) == Some(a)
  {
    hide StandsAt, StringRead;
    match a.value {
      case StringVal(s) => ShownIsRead(c.value.str, blob, Some(s));
      case JsonVal(s) => ShownIsRead(c.value.json, blob, Some(s));
      case _ =>
    }
  }

  // ---- Rows ----

  /** One turn of a row's member loop, after the cells in more. */
  lemma MemberStep(s: string, i: nat, more: seq<Cell>)
    requires i <= |s|
    ensures Prepend(more, MemberList(s, i)) ==
            match RowMember(s, i)
            case Bad => Bad
            case Good(cells, f) =>
              if Sees(s, f, ',') then Prepend(more + cells, MemberList(s, f + 1))
              else if Sees(s, f, '}') then Good(more + cells, f + 1)
              else Bad
  {
    hide RowMember;
    var r := RowMember(s, i);
    if r.Good? && Sees(s, r.pos, ',') && MemberList(s, r.pos + 1).Good? {
      assert more + (r.v + MemberList(s, r.pos + 1).v) == (more + r.v) + MemberList(s, r.pos + 1).v;
    }
  }

  /** A result array made larger: its capacity is doubled, from a first one, until need fits. */
  method Grown<T(0)>(a: array<T>, first: nat, need: nat) returns (b: array<T>, ncap: nat)
    requires a.Length < need && first > 0
    ensures fresh(b) && b.Length == ncap >= need && b[..a.Length] == a[..]
  {
    ncap := if a.Length != 0 then a.Length * 2 else first;
    while need > ncap
      invariant ncap > 0 && a.Length <= ncap
      decreases need - ncap
    {
      ncap := ncap * 2;
    }
    b := Realloc(a, ncap);
  }

  lemma NumberAdvances(s: string, k: nat)
    requires k < |s| && StartsNumber(s[k])
    ensures RunEnd(s, k, NumberRun) > k
  {}

  lemma StoredOneMore(cells: seq<CellRecord>, offs: seq<nat>, arena: string, done: seq<Cell>,
                      arena': string, a: Cell, v: CellValue, off: nat)
    requires StoredIn(cells, offs, arena, done) && arena <= arena'
    requires |done| < |cells| && |done| < |offs| && ValueOk(v, off, arena', a.value)
    ensures var n := |done|; StoredIn(cells[n := CellRecord(a.id, v)], offs[n := off], arena', done + [a])
  {
    var n := |done|;
    var cells', offs' := cells[n := CellRecord(a.id, v)], offs[n := off];
    StoredStays(cells, offs, arena, done, cells', offs', arena');
    forall k | 0 <= k < n + 1 ensures CellOk(cells'[k], offs'[k], arena', (done + [a])[k]) {
      if k < n { assert CellOk(cells'[k], offs'[k], arena', done[k]); }
    }
  }

  lemma SameCellList(s: string, i: nat)
    requires i <= |s|
    ensures Skip(s, Skip(s, i)) == Skip(s, i) && CellList(s, i) == CellList(s, Skip(s, i))
  {
    hide Pair;
    SamePair(s, i);
  }

  lemma SamePair(s: string, i: nat)
    requires i <= |s|
    ensures Skip(s, Skip(s, i)) == Skip(s, i) && Pair(s, i) == Pair(s, Skip(s, i))
  {
    hide Value, ValOf, RunEnd;
    SkipIdempotent(s, i);
  }

  /** One turn of the cells loop, after the cells in more. */
  lemma CellStep(s: string, i: nat, more: seq<Cell>)
    requires i <= |s|
    ensures Prepend(more, CellList(s, i)) ==
            match Pair(s, i)
            case Bad => Bad
            case Good(cell, h) =>
              if Sees(s, h, ',') then Prepend(more + [cell], CellList(s, h + 1))
              else if Sees(s, h, ']') then Good(more + [cell], h + 1)
              else Bad
  {
    hide Pair;
    var r := Pair(s, i);
    if r.Good? && Sees(s, r.pos, ',') {
      var tail := CellList(s, r.pos + 1);
      if tail.Good? { assert more + ([r.v] + tail.v) == (more + [r.v]) + tail.v; }
    }
  }

  lemma FlatStep(rows: seq<Row>, r: nat)
    requires r < |rows|
    ensures Flat(rows[..r + 1]) == Flat(rows[..r]) + rows[r]
  {
    assert rows[..r + 1][..r] == rows[..r];
  }

  lemma FlatMore(rows: seq<Row>, row: Row)
    ensures Flat(rows + [row]) == Flat(rows) + row
  {
    assert (rows + [row])[..|rows|] == rows;
  }

  lemma NothingStored(cells: seq<CellRecord>, offs: seq<nat>, arena: string, records: seq<RowRecord>, starts: seq<nat>)
    ensures StoredIn(cells, offs, arena, []) && RowsStored(records, starts, [])
  {}

  lemma FlatNothing()
    ensures Flat([]) == []
  {}

  lemma RowsStoredStay(records: seq<RowRecord>, starts: seq<nat>, rows: seq<Row>,
                       records': seq<RowRecord>, starts': seq<nat>)
    requires RowsStored(records, starts, rows)
    requires |rows| <= |records'| && records'[..|rows|] == records[..|rows|]
    requires |rows| <= |starts'| && starts'[..|rows|] == starts[..|rows|]
    ensures RowsStored(records', starts', rows)
  {
    hide Flat;
    forall r | 0 <= r < |rows| ensures records'[r].count == |rows[r]| && starts'[r] == |Flat(rows[..r])| {
      assert records'[r] == records'[..|rows|][r] == records[..|rows|][r];
      assert starts'[r] == starts'[..|rows|][r] == starts[..|rows|][r];
    }
  }

  lemma RowsStoredOneMore(records: seq<RowRecord>, starts: seq<nat>, rows: seq<Row>,
                          records': seq<RowRecord>, starts': seq<nat>, row: Row)
    requires RowsStored(records, starts, rows) && |rows| < |records| && |rows| < |starts|
    requires records' == records[|rows| := records[|rows|].(count := |row|)]
    requires starts' == starts[|rows| := |Flat(rows)|]
    ensures RowsStored(records', starts', rows + [row])
  {
    hide Flat;
    var more := rows + [row];
    forall r | 0 <= r < |more| ensures records'[r].count == |more[r]| && starts'[r] == |Flat(more[..r])| {
      assert more[..r] == rows[..r];
      assert rows[..|rows|] == rows;
    }
  }

  lemma SameMemberList(s: string, i: nat)
    requires i <= |s|
    ensures Skip(s, Skip(s, i)) == Skip(s, i) && MemberList(s, i) == MemberList(s, Skip(s, i))
  {
    hide RowMember;
    SameRowMember(s, i);
  }

  lemma SameRowMember(s: string, i: nat)
    requires i <= |s|
    ensures Skip(s, Skip(s, i)) == Skip(s, i) && RowMember(s, i) == RowMember(s, Skip(s, i))
  {
    hide MemberKey, MemberCells, RunEnd;
    SkipIdempotent(s, i);
  }

  /** One turn of the rows loop, after the rows in more. */
  lemma RowStep(s: string, i: nat, more: seq<Row>)
    requires i <= |s|
    ensures Prepend(more, RowList(s, i)) ==
            match RowAt(s, i)
            case Bad => Bad
            case Good(row, e) =>
              var h := Skip(s, e);
              if Sees(s, h, ',') then Prepend(more + [row], RowList(s, h + 1))
              else if Sees(s, h, ']') then Good(more + [row], h)
              else Bad
  {
    hide RowAt, Skip;
    var r := RowAt(s, i);
    if r.Good? {
      var h := Skip(s, r.pos);
      if Sees(s, h, ',') && RowList(s, h + 1).Good? {
        assert more + ([r.v] + RowList(s, h + 1).v) == (more + [r.v]) + RowList(s, h + 1).v;
      }
    }
  }

  lemma SameRowList(s: string, i: nat)
    requires i <= |s|
    ensures Skip(s, Skip(s, i)) == Skip(s, i) && RowList(s, i) == RowList(s, Skip(s, i))
  {
    hide MemberList, RunEnd;
    SkipIdempotent(s, i);
  }

  // ---- Rows are consecutive slices of the cells ----

  /** Row r's cells start where row r-1's end, and the last row's end at the last cell. */
  lemma {:induction false} RowsAreSlices(rows: seq<Row>, r: nat)
    requires r < |rows|
    ensures |Flat(rows[..0])| == 0
    ensures |Flat(rows[..r + 1])| == |Flat(rows[..r])| + |rows[r]| <= |Flat(rows)|
    ensures Flat(rows)[|Flat(rows[..r])|..|Flat(rows[..r + 1])|] == rows[r]
  {
    FlatStep(rows, r);
    if r + 1 == |rows| {
      assert rows[..r + 1] == rows;
    } else {
      var front := rows[..|rows| - 1];
      assert front[..r] == rows[..r] && front[..r + 1] == rows[..r + 1];
      RowsAreSlices(front, r);
      assert Flat(rows) == Flat(front) + rows[|rows| - 1];
    }
  }
}
