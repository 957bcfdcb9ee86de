/** What number tokens with a fraction, an exponent or more digits than the scratch buffer decode
    to. */
module NumberTokens {
  import opened Bytes
  import opened Grammar
  import opened Numbers
  import opened Rfc8259
  import opened Lookup
  import opened QueryDecode

  predicate IsMark(c: char) {
    c == '.' || c == 'e' || c == 'E'
  }

  /** A cell is an INT64 exactly when no point and no exponent stands in the first 63 bytes of its
      token. */
  lemma TagByFirstBytes(run: string)
    ensures NumberVal(run).Int64Val? <==> forall k | 0 <= k < |run| && k < NUMBER_ROOM :: !IsMark(run[k])
  {
    var buf := Cut(run, NUMBER_ROOM);
    assert |buf| <= |run| && forall k | 0 <= k < |buf| :: buf[k] == run[k];
    hide Cut;
  }

  /** What the token would decode to if the scratch buffer had room for all of it. */
  function UncutVal(run: string): Val {
    if LooksIntegral(run) then Int64Val(Clamp(Signed(run))) else DoubleVal(run)
  }

  predicate IsIntegral(n: Number) {
    n.frac.None? && n.exp.None?
  }

  /** Sign and digits in front of the point and the exponent. */
  function IntegerPart(n: Number): string {
    (if n.minus then "-" else "") + n.whole
  }

  /** The rest. */
  function Rest(n: Number): string {
    (if n.frac.Some? then "." + n.frac.value else "") + if n.exp.Some? then ExponentText(n.exp.value) else ""
  }

  lemma NumberParts(n: Number)
    requires ValidNumber(n)
    ensures NumberText(n) == IntegerPart(n) + Rest(n) && IsIntegerToken(IntegerPart(n))
    ensures Rest(n) == "" <==> IsIntegral(n)
    ensures Rest(n) != "" ==> IsMark(Rest(n)[0])
  {}

  /** A number of RFC 8259 looks integral exactly when it has neither fraction nor exponent. */
  lemma LooksIntegralExact(n: Number)
    requires ValidNumber(n)
    ensures LooksIntegral(NumberText(n)) <==> IsIntegral(n)
  {
    NumberParts(n);
    var a, b := IntegerPart(n), Rest(n);
    if b != "" { assert (a + b)[|a|] == b[0]; } else { assert a + b == a; }
  }

  /** The scratch buffer can be observed in a cell exactly when a token longer than 63 bytes has a
      fraction or an exponent. */
  lemma CutIsUnseen(n: Number)
    requires ValidNumber(n)
    ensures var w := NumberText(n); NumberVal(w) == UncutVal(w) <==> |w| <= NUMBER_ROOM || IsIntegral(n)
  {
    hide Signed, NumberText, ValidNumber;
    var w := NumberText(n);
    LooksIntegralExact(n);
    NumberParts(n);
    if IsIntegral(n) {
      assert IntegerPart(n) + "" == IntegerPart(n);
      TruncationUnobservable(w, NUMBER_ROOM);
      assert LooksIntegral(Cut(w, NUMBER_ROOM));
    }
  }

  /** A point behind 63 ones: the cell is the largest INT64 although its token has a fraction. */
  lemma LatePoint()
    ensures var n := Number(false, seq(63, k => '1'), Some("1"), None);
            ValidNumber(n) && NumberVal(NumberText(n)) == Int64Val(INT64_MAX) && UncutVal(NumberText(n)).DoubleVal?
  {
    hide Signed;
    var n := Number(false, seq(63, k => '1'), Some("1"), None);
    LongWhole(n);
    IntegerPartIsRead(n);
    hide NumberText;
    assert IntegerPart(n) == n.whole;
    SaturatesAt20(n.whole);
  }

  lemma SaturatesAt20(d: string)
    requires IsIntegerToken(d) && |d| >= 20 && d[0] != '-'
    ensures Clamp(Signed(d)) == INT64_MAX
  {
    assert IsDigit(d[0]);
    LongTokenSaturates(d, 20);
  }

  /** Digits that fill the scratch buffer hide the rest of the token. */
  lemma LongWhole(n: Number)
    requires ValidNumber(n) && !IsIntegral(n) && |IntegerPart(n)| >= NUMBER_ROOM
    ensures NumberVal(NumberText(n)).Int64Val? && UncutVal(NumberText(n)).DoubleVal?
  {
    NumberParts(n);
    LooksIntegralExact(n);
    var w, a := NumberText(n), IntegerPart(n);
    forall k | 0 <= k < |w| && k < NUMBER_ROOM ensures !IsMark(w[k]) { assert w[k] == a[k]; }
    TagByFirstBytes(w);
  }

  /** The integer read from any number token is its integer part, clamped: a fraction and an
      exponent are ignored, whatever the token's length. */
  lemma IntegerPartIsRead(n: Number)
    requires ValidNumber(n)
    ensures StrToInt64(Cut(NumberText(n), NUMBER_ROOM)) == Clamp(Signed(IntegerPart(n)))
  {
    hide NumberText;
    NumberParts(n);
    var a, b := IntegerPart(n), Rest(n);
    if |a| >= NUMBER_ROOM {
      assert Cut(a + b, NUMBER_ROOM) == Cut(a, NUMBER_ROOM);
      TruncationUnobservable(a, NUMBER_ROOM);
    } else {
      var c := b[..if |a| + |b| > NUMBER_ROOM then NUMBER_ROOM - |a| else |b|];
      assert Cut(a + b, NUMBER_ROOM) == a + c;
      ReadsUpToMark(a, c);
    }
  }

  lemma ReadsUpToMark(a: string, c: string)
    requires IsIntegerToken(a) && (c != "" ==> IsMark(c[0]))
    ensures Signed(a + c) == Signed(a)
  {
    if a[0] == '-' {
      assert (a + c)[1..] == a[1..] + c;
      DigitsUpToMark(a[1..], c);
    } else {
      assert IsDigit(a[0]);
      DigitsUpToMark(a, c);
    }
  }

  lemma DigitsUpToMark(d: string, c: string)
    requires forall k | 0 <= k < |d| :: IsDigit(d[k])
    requires c != "" ==> IsMark(c[0])
    ensures DigitPrefix(d + c, 0) == DigitPrefix(d, 0)
  {
    DigitPrefixAppend(d, c, 0);
    DigitPrefixAppend(d, "", 0);
    assert d + "" == d;
  }

  /** What the number walker delivers for the first number of that name: its integer part, clamped. */
  lemma NumberFieldOfToken(s: string, x: Items, key: string, n: Number)
    requires HoldsObject(s, x) && ValidNumber(n) && FirstMember(x, key, ANumber) == Some(Num(NumberText(n)))
    ensures NumberField(s, key) == Field(true, Clamp(Signed(IntegerPart(n))))
  {
    hide HoldsObject, NumberField, NumberText, Signed, FirstMember, ValidNumber;
    NumberFieldOf(s, x, key);
    IntegerPartIsRead(n);
    if x.Empty? { NothingInEmpty(x, key, ANumber); }
  }

  /** `1e3` is delivered as 1. */
  lemma ExponentIsIgnored()
    ensures var n := Number(false, "1", None, Some(Exponent('e', "", "3")));
            NumberText(n) == "1e3" && ValidNumber(n) && Clamp(Signed(IntegerPart(n))) == 1
  {
    assert Decimal(1) == "1";
    DecimalIsToken(1);
  }
}
