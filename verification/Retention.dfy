/** The history retention codec: the PUT body, and what a response decodes to. */
module Retention {
  import opened Bytes
  import opened Grammar
  import opened Scan
  import opened Buffer
  import opened Numbers
  import opened Compose
  import opened Lookup
  import opened Reading
  import opened Writers

  function Epochs(): string { "history_retention_epochs" }

  function Earliest(): string { "earliest_retained_epoch" }

  function SetBodyText(epochs: uint64): string {
    Obj([Member(Epochs(), Digits(epochs))])
  }

  /** Prints the body into out.  It reports -1 exactly when the body and its NUL do not fit. */
  method SetBody(epochs: uint64, out: array<char>) returns (rc: int)
    modifies out
    ensures rc == if |SetBodyText(epochs)| < out.Length then 0 else -1
    ensures rc == 0 ==> out[..|SetBodyText(epochs)|] == SetBodyText(epochs) && out[|SetBodyText(epochs)|] == NUL
  {
    var text := SetBodyText(epochs);
    if out.Length > 0 {
      var kept := Cut(text, out.Length - 1);
      CopyString(out, 0, kept);
      assert out[0..0 + |kept|] == out[..|kept|];
    }
    return if |text| >= out.Length then -1 else 0;
  }

  /** The 96-byte buffer of the caller always suffices. */
  lemma SetBodyFits(epochs: uint64)
    ensures |SetBodyText(epochs)| <= 49
  {
    hide Digits;
    assert |Epochs()| == 24;
    TenTo19();
    assert Pow10(20) == 10 * Pow10(19);
    DigitsLength(epochs, 20);
  }

  datatype Retention = Retention(epochs: uint64, earliest: uint64)

  function ToUint64(i: int64): uint64 {
    i % 0x1_0000_0000_0000_0000
  }

  /** None is MDB_ERR_QUERY. */
  function DecodeRetention(json: string): Option<Retention> {
    var a := NumberField(json, Epochs());
    var b := NumberField(json, Earliest());
    if !a.ret || !b.ret then None else Some(Retention(ToUint64(a.v), ToUint64(b.v)))
  }

  method Decode(json: string) returns (r: Option<Retention>)
    ensures r == DecodeRetention(json)
  {
    hide NumberField, Epochs, Earliest;
    var ok, epochs := GetNumber(json, Epochs());
    if !ok {
      return None;
    }
    var ok', earliest := GetNumber(json, Earliest());
    if !ok' {
      return None;
    }
    return Some(Retention(ToUint64(epochs), ToUint64(earliest)));
  }

  /** The cast of a signed number to 64 unsigned bits. */
  function Wrapped64(i: int64): uint64 {
    if i < 0 then i + 18446744073709551616 else i
  }

  lemma CastWraps(i: int64)
    ensures ToUint64(i) == Wrapped64(i)
  {}

  /** A response object is accepted exactly when it has any member.  A retention member that is
      missing, or is no number, decodes as zero. */
  lemma RetentionOfObject(s: string, x: Items)
    requires HoldsObject(s, x)
    ensures DecodeRetention(s) ==
            if x.Empty? then None
            else Some(Retention(Wrapped64(Or(NumberIn(x, "history_retention_epochs"), 0)),
                                Wrapped64(Or(NumberIn(x, "earliest_retained_epoch"), 0))))
  {
    hide HoldsObject, NumberField, NumberIn, ToUint64, Wrapped64;
    NumberFieldOf(s, x, "history_retention_epochs");
    NumberFieldOf(s, x, "earliest_retained_epoch");
    CastWraps(Or(NumberIn(x, "history_retention_epochs"), 0));
    CastWraps(Or(NumberIn(x, "earliest_retained_epoch"), 0));
  }

  /** Anything but an object is refused. */
  lemma RetentionOfNoObject(s: string)
    requires !Sees(s, Skip(s, 0), '{')
    ensures DecodeRetention(s) == None
  {}

  function Min(a: int, b: int): int { if a < b then a else b }

  /** x's first numeric member of that name is the unsigned integer token w. */
  predicate HasToken(x: Items, key: string, w: string) {
    FirstMember(x, key, ANumber) == Some(Num(w)) && IsIntegerToken(w) && w[0] != '-'
  }

  lemma TokenIsRead(x: Items, key: string, w: string)
    requires HasToken(x, key, w)
    ensures NumberIn(x, key) == Some(Min(Signed(w), 9223372036854775807)) && Signed(w) >= 0
  {
    hide FirstMember, Signed;
    TruncationUnobservable(w, NUMBER_ROOM);
    SignedIsNatural(w);
  }

  lemma SignedIsNatural(w: string)
    requires IsIntegerToken(w) && w[0] != '-'
    ensures Signed(w) >= 0
  {}

  /** The epoch bound: two unsigned integer tokens of any length decode to their values, capped at
      2^63 - 1. */
  lemma EpochBound(s: string, x: Items, w: string, v: string)
    requires HoldsObject(s, x)
    requires HasToken(x, "history_retention_epochs", w) && HasToken(x, "earliest_retained_epoch", v)
    ensures Signed(w) >= 0 && Signed(v) >= 0
    ensures DecodeRetention(s) ==
            Some(Retention(Min(Signed(w), 9223372036854775807), Min(Signed(v), 9223372036854775807)))
  {
    hide HoldsObject, HasToken, NumberIn, Signed, DecodeRetention;
    RetentionOfObject(s, x);
    TokenIsRead(x, "history_retention_epochs", w);
    TokenIsRead(x, "earliest_retained_epoch", v);
    TokenMember(x, "history_retention_epochs", w);
  }

  lemma TokenMember(x: Items, key: string, w: string)
    requires HasToken(x, key, w)
    ensures !x.Empty?
  {}

  /** An epoch that the server echoes reads back unchanged exactly when it is below 2^63. */
  lemma EchoedEpoch(s: string, x: Items, epochs: uint64)
    requires HoldsObject(s, x) && FirstMember(x, "history_retention_epochs", ANumber) == Some(Num(Digits(epochs)))
    ensures DecodeRetention(s).Some? && DecodeRetention(s).value.epochs == Min(epochs, 9223372036854775807)
    ensures DecodeRetention(s).value.epochs == epochs <==> epochs < 0x8000_0000_0000_0000
  {
    hide HoldsObject, NumberIn, Signed, DecodeRetention, Digits, FirstMember;
    DecimalIsToken(epochs);
    assert Digits(epochs)[0] != '-';
    TokenIsRead(x, "history_retention_epochs", Digits(epochs));
    TokenMember(x, "history_retention_epochs", Digits(epochs));
    RetentionOfObject(s, x);
  }

  /** The PUT body is an object whose only member is the number of epochs to retain. */
  lemma SetBodyIsRead(epochs: uint64)
    ensures IsObject(SetBodyText(epochs))
    ensures TokenIn(MembersIn(SetBodyText(epochs)), "history_retention_epochs") == Some(epochs)
    ensures NumberIn(MembersIn(SetBodyText(epochs)), "history_retention_epochs") == Some(Min(epochs, 9223372036854775807))
    ensures NothingElse(MembersIn(SetBodyText(epochs)), ["history_retention_epochs"])
  {
    hide Whole, Parsed, EntryItems, EntryTexts, Obj, Member, Decimal, TokenIn, NumberIn, NothingElse;
    var es := [Entry(true, "history_retention_epochs", Decimal(epochs))];
    SetBodyEntry(epochs);
    EntriesAreObject(es);
    OnlyEntries(es, ["history_retention_epochs"]);
    NumberEntry(es, 0, epochs);
  }

  lemma SetBodyEntry(epochs: uint64)
    ensures var es := [Entry(true, "history_retention_epochs", Decimal(epochs))];
            WholeEntries(es) && Distinct(es) && Obj(EntryTexts(es)) == SetBodyText(epochs)
  {
    hide Whole, Digits, Obj, Member;
    RetentionName();
    DecimalIsWhole(epochs);
    OneEntry(Entry(true, "history_retention_epochs", Decimal(epochs)));
  }

  lemma RetentionName()
    ensures IsName("history_retention_epochs")
  {}

  /** The PUT body is itself such a response: decoding it gives the epoch back, with the missing
      second member reported as zero. */
  lemma SetBodyReadsBack(epochs: uint64)
    ensures DecodeRetention(SetBodyText(epochs)) == Some(Retention(Min(epochs, 9223372036854775807), 0))
  {
    hide Whole, Parsed, EntryItems, EntryTexts, Obj, Member, Decimal, NumberIn, NothingElse, HoldsObject, DecodeRetention, SetBodyText;
    SetBodyIsRead(epochs);
    var x := MembersIn(SetBodyText(epochs));
    ObjectIsHeld(SetBodyText(epochs));
    RetentionOfObject(SetBodyText(epochs), x);
    TokenIsSome(x, epochs);
    NoEarliest(x);
  }

  /** A number read from a token reads as its clamped value. */
  lemma TokenIsSome(x: Items, epochs: uint64)
    requires TokenIn(x, "history_retention_epochs") == Some(epochs)
    ensures !x.Empty?
  {}

  lemma NoEarliest(x: Items)
    requires NothingElse(x, ["history_retention_epochs"])
    ensures NumberIn(x, "earliest_retained_epoch") == None
  {
    assert "earliest_retained_epoch"[0] != "history_retention_epochs"[0];
    NotFound(x, "earliest_retained_epoch", ANumber);
  }
}
