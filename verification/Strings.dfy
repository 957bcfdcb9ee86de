/** String literals: escaping, unescaping, and their agreement with each other and with section 7
    of RFC 8259. */
module Strings {
  import opened Bytes
  import opened Grammar
  import opened Scan
  import opened Buffer

  const BACKSPACE: char := '\U{0008}'
  const FORMFEED: char := '\U{000C}'

  // ---- Escaping ----

  function HexDigit(n: nat): char
    requires n < 16
  {
    if n < 10 then '0' + n as char else 'a' + (n - 10) as char
  }

  function EscapedByte(c: char): string {
    match c
    case '"' => "\\\""
    case '\\' => "\\\\"
    case '\U{0008}' => "\\b"
    case '\U{000C}' => "\\f"
    case '\n' => "\\n"
    case '\r' => "\\r"
    case '\t' => "\\t"
    case _ =>
      if c < ' ' then "\\u00" + [HexDigit(c as nat / 16), HexDigit(c as nat % 16)] else [c]
  }

  function Escaped(s: string): string {
    if s == "" then "" else EscapedByte(s[0]) + Escaped(s[1..])
  }

  /** A string as a JSON literal. */
  function Quoted(s: string): string {
    "\"" + (Escaped(s) + "\"")
  }

  // ---- Unescaping ----

  predicate IsHex(c: char) {
    IsDigit(c) || 'a' <= c <= 'f' || 'A' <= c <= 'F'
  }

  function HexValue(c: char): (v: nat)
    requires IsHex(c)
    ensures v < 16
  {
    if IsDigit(c) then c as nat - '0' as nat
    else if 'a' <= c then c as nat - 'a' as nat + 10
    else c as nat - 'A' as nat + 10
  }

  predicate IsSpace(c: char) { c == ' ' || 9 <= c as int <= 13 }

  /** The hexadecimal digits h starts with, read after acc. */
  function HexPrefix(h: string, acc: nat): nat {
    if h != "" && IsHex(h[0]) then HexPrefix(h[1..], acc * 16 + HexValue(h[0])) else acc
  }

  /** `(unsigned)strtoul(h, NULL, 16)`: white space, a sign and 0x are accepted, reading stops at
      the first byte that is no digit, and a minus sign wraps around. */
  function StrToUnsigned16(h: string): nat {
    if h != "" && IsSpace(h[0]) then StrToUnsigned16(h[1..]) else
      var signed := h != "" && (h[0] == '-' || h[0] == '+');
      var d := if signed then h[1..] else h;
      var prefixed := |d| >= 3 && d[0] == '0' && (d[1] == 'x' || d[1] == 'X') && IsHex(d[2]);
      var v := HexPrefix(if prefixed then d[2..] else d, 0);
      if signed && h[0] == '-' then (-(v as int)) % 0x1_0000_0000 else v % 0x1_0000_0000
  }

  /** The byte for a one-letter escape. */
  function ShortEscape(n: char): char {
    match n
    case 'b' => BACKSPACE
    case 'f' => FORMFEED
    case 'n' => '\n'
    case 'r' => '\r'
    case 't' => '\t'
    case _ => n
  }

  /** An escape above U+007F is dropped. */
  function UnicodeEscape(h: string): string {
    var cp := StrToUnsigned16(h);
    if cp < 0x80 then [cp as char] else ""
  }

  datatype Step = Step(out: string, used: nat)

  /** One turn of the unescape loop: what it writes and how far it reads. */
  function UnescapeStep(r: string): (t: Step)
    requires r != ""
    ensures 1 <= t.used <= |r|
    ensures |t.out| <= 1
  {
    if r[0] == '\\' && |r| > 1 then
      if r[1] != 'u' then Step([ShortEscape(r[1])], 2)
      else if |r| < 6 then Step("", 2)
      else Step(UnicodeEscape(r[2..6]), 6)
    else Step([r[0]], 1)
  }

  /** What the raw bytes between two quotes stand for. */
  function Unescape(r: string): (w: string)
    ensures |w| <= |r|
  {
    if r == "" then "" else
      var t := UnescapeStep(r);
      t.out + Unescape(r[t.used..])
  }

  /** One turn of the unescape loop on src[i..end]: `used` bytes are read and `wrote` bytes are
      written at `to`. */
  method UnescapeOne(src: string, i: nat, end: nat, dst: array<char>, to: nat) returns (used: nat, wrote: nat)
    requires i < end <= |src| && to < dst.Length
    modifies dst
    ensures var t := UnescapeStep(src[i..end]);
            used == t.used && wrote == |t.out| && (wrote == 1 ==> dst[to] == t.out[0])
    ensures dst[..to] == old(dst[..to])
  {
    used, wrote := 1, 0;
    var c := src[i];
    if c == '\\' && i + 1 < end {
      used := 2;
      var e := src[i + 1];
      if e == 'u' {
        if i + 5 < end {
          var cp := StrToUnsigned16(src[i + 2..i + 6]);
          SliceSlice(src, i, end, 2, 6);
          if cp < 0x80 {
            dst[to] := cp as char;
            wrote := 1;
          }
          used := 6;
        }
      } else {
        dst[to] := ShortEscape(e);
        wrote := 1;
      }
    } else {
      dst[to] := c;
      wrote := 1;
    }
  }

  /** The unescape loop: writes the decoded bytes of src[start..start + n] at base, and a NUL
      behind them.  The write never overtakes the read. */
  method UnescapeInto(src: string, start: nat, n: nat, dst: array<char>, base: nat) returns (o: nat)
    requires start + n <= |src| && base + n + 1 <= dst.Length
    modifies dst
    ensures o <= n
    ensures dst[base..base + o] == Unescape(src[start..start + n]) && dst[base + o] == NUL
    ensures dst[..base] == old(dst[..base])
  {
    hide UnescapeStep, Unescape;
    ghost var end := start + n;
    ghost var raw := src[start..end];
    o := 0;
    var i := 0;
    while i < n
      invariant o <= i <= n
      invariant dst[base..base + o] + Unescape(src[start + i..end]) == Unescape(raw)
      invariant dst[..base] == old(dst[..base])
    {
      ghost var before := dst[..];
      var used, wrote := UnescapeOne(src, start + i, start + n, dst, base + o);
      ghost var step := UnescapeStep(src[start + i..end]);
      WrittenOne(before, dst[..], base, o, wrote, step.out);
      UnescapeTurn(src, start + i, end, before[base..base + o]);
      i, o := i + used, o + wrote;
    }
    UnescapeNothing(src, end);
    ghost var before := dst[..];
    dst[base + o] := NUL;
    WrittenOne(before, dst[..], base, o, 0, "");
  }

  lemma UnescapeNothing(src: string, end: nat)
    requires end <= |src|
    ensures Unescape(src[end..end]) == ""
  {}

  lemma UnescapeTurn(src: string, i: nat, end: nat, done: string)
    requires i < end <= |src|
    ensures var t := UnescapeStep(src[i..end]);
            done + Unescape(src[i..end]) == (done + t.out) + Unescape(src[i + t.used..end])
  {
    var t := UnescapeStep(src[i..end]);
    assert src[i..end][t.used..] == src[i + t.used..end];
  }

  /** Extending what was written behind base by at most one byte. */
  lemma WrittenOne(before: string, after: string, base: nat, o: nat, wrote: nat, out: string)
    requires |before| == |after| && base + o < |before| && before[..base + o] == after[..base + o]
    requires |out| == wrote <= 1 && (wrote == 1 ==> after[base + o] == out[0])
    ensures after[base..base + o + wrote] == before[base..base + o] + out
    ensures after[..base] == before[..base]
  {
    assert after[base..base + o] == after[..base + o][base..] == before[base..base + o];
    assert after[..base] == after[..base + o][..base] == before[..base];
  }

  // ---- Escaping and unescaping undo each other ----

  lemma HexDigitValue(n: nat)
    requires n < 16
    ensures IsHex(HexDigit(n)) && HexValue(HexDigit(n)) == n
  {}

  lemma ControlEscape(c: char)
    requires c < ' '
    ensures StrToUnsigned16("00" + [HexDigit(c as nat / 16), HexDigit(c as nat % 16)]) == c as nat
  {
    var a, b := HexDigit(c as nat / 16), HexDigit(c as nat % 16);
    var h := "00" + [a, b];
    HexDigitValue(c as nat / 16);
    HexDigitValue(c as nat % 16);
    assert h[1..][0] == '0';
    assert h[1..][1..] == [a, b];
    assert [a, b][1..] == [b];
    assert HexPrefix([b][1..], c as nat) == c as nat;
    assert HexPrefix([a, b], 0) == c as nat;
    assert HexPrefix(h[1..], 0) == c as nat;
  }

  /** The unescape loop reads exactly what one byte was escaped to, and writes that byte. */
  lemma EscapeStep(c: char, rest: string)
    ensures UnescapeStep(EscapedByte(c) + rest) == Step([c], |EscapedByte(c)|)
  {
    if c < ' ' && EscapedByte(c)[1] == 'u' {
      ControlEscape(c);
      var r := EscapedByte(c) + rest;
      assert r[2..6] == "00" + [HexDigit(c as nat / 16), HexDigit(c as nat % 16)];
    }
  }

  lemma {:induction false} UnescapeEscaped(s: string)
    ensures Unescape(Escaped(s)) == s
  {
    if s != "" {
      hide UnescapeStep, EscapedByte;
      EscapeStep(s[0], Escaped(s[1..]));
      assert Escaped(s)[|EscapedByte(s[0])|..] == Escaped(s[1..]);
      UnescapeEscaped(s[1..]);
    }
  }

  lemma {:induction false} EscapedIsBody(s: string)
    ensures IsBody(Escaped(s))
  {
    if s != "" {
      EscapedIsBody(s[1..]);
      EscapedByteBody(s[0], Escaped(s[1..]));
    }
  }

  lemma EscapedByteBody(c: char, rest: string)
    requires IsBody(rest)
    ensures IsBody(EscapedByte(c) + rest)
  {
    var e := EscapedByte(c);
    var x := e + rest;
    if |e| == 6 {
      assert e == "\\u00" + [e[4], e[5]] && e[4] != '"' && e[4] != '\\' && e[5] != '"' && e[5] != '\\';
      hide EscapedByte;
      HexBody(e[4], e[5], rest);
    } else if |e| == 2 {
      assert x[2..] == rest;
    } else {
      PlainBody(c, rest);
    }
  }

  lemma HexBody(a: char, b: char, rest: string)
    requires IsBody(rest) && a != '"' && a != '\\' && b != '"' && b != '\\'
    ensures IsBody("\\u00" + [a, b] + rest)
  {
    var x := "\\u00" + [a, b] + rest;
    PlainBody(b, rest);
    PlainBody(a, [b] + rest);
    PlainBody('0', [a] + ([b] + rest));
    PlainBody('0', ['0'] + ([a] + ([b] + rest)));
    assert x[2..] == ['0'] + (['0'] + ([a] + ([b] + rest)));
  }

  lemma PlainBody(c: char, rest: string)
    requires IsBody(rest) && c != '"' && c != '\\'
    ensures IsBody([c] + rest)
  {
    assert ([c] + rest)[1..] == rest;
  }

  /** A quoted string delimits itself: whatever follows it, the scanner stops right behind its
      closing quote, and the bytes in between unescape to the string. */
  lemma LiteralRoundTrip(s: string, rest: string)
    ensures Value(Quoted(s) + rest, 0) == Good(Str(Escaped(s)), |Quoted(s)|)
    ensures Unescape(Escaped(s)) == s
  {
    hide Value, Escaped;
    var x := Quoted(s) + rest;
    EscapedIsBody(s);
    UnescapeEscaped(s);
    AtSlice(x, 0, |Quoted(s)|);
    assert x[0..|Quoted(s)|] == Text(Str(Escaped(s)));
    ValueComplete(x, 0, Str(Escaped(s)));
  }

  /** Writes s as a JSON literal. */
  method JsonEscape(out: Sbuf, s: CString)
    requires out.Valid()
    modifies out, out.data
    ensures out.Valid() && (out.data == old(out.data) || fresh(out.data))
    ensures !out.failed ==> !old(out.failed) && out.Contents() == old(out.Contents()) + Quoted(s)
  {
    hide EscapedByte;
    ghost var was := out.Contents();
    var ok := out.Append("\"");
    var k := 0;
    while k < |s|
      invariant k <= |s| && out.Valid()
      invariant out.data == old(out.data) || fresh(out.data)
      invariant !out.failed ==> !old(out.failed) && out.Contents() + Escaped(s[k..]) == was + "\"" + Escaped(s)
    {
      assert s[k..][1..] == s[k + 1..];
      ghost var done := out.Contents();
      AppendEscape(out, s[k]);
      assert (done + EscapedByte(s[k])) + Escaped(s[k + 1..]) == done + (EscapedByte(s[k]) + Escaped(s[k + 1..]));
      k := k + 1;
    }
    ok := out.Append("\"");
    assert was + "\"" + Escaped(s) + "\"" == was + Quoted(s);
  }

  method AppendEscape(out: Sbuf, c: char)
    requires out.Valid()
    modifies out, out.data
    ensures out.Valid() && (out.data == old(out.data) || fresh(out.data))
    ensures !out.failed ==> !old(out.failed) && out.Contents() == old(out.Contents()) + EscapedByte(c)
  {
    var ok;
    match c {
      case '"' => ok := out.Append("\\\"");
      case '\\' => ok := out.Append("\\\\");
      case '\U{0008}' => ok := out.Append("\\b");
      case '\U{000C}' => ok := out.Append("\\f");
      case '\n' => ok := out.Append("\\n");
      case '\r' => ok := out.Append("\\r");
      case '\t' => ok := out.Append("\\t");
      case _ =>
        if c < ' ' {
          ok := out.Append("\\u00" + [HexDigit(c as nat / 16), HexDigit(c as nat % 16)]);
        } else {
          ok := out.Append([c]);
        }
    }
  }

  // ---- Section 7 of RFC 8259 ----

  /** One character of a JSON string as section 7 of RFC 8259 writes it. */
  datatype Unit = Plain(c: char) | Short(c: char) | Hex(h: string)

  predicate ValidUnit(u: Unit) {
    match u
    case Plain(c) => c >= ' ' && c != '"' && c != '\\'
    case Short(c) => c in "\"\\/bfnrt"
    case Hex(h) => |h| == 4 && IsHex(h[0]) && IsHex(h[1]) && IsHex(h[2]) && IsHex(h[3])
  }

  function UnitText(u: Unit): string {
    match u
    case Plain(c) => [c]
    case Short(c) => ['\\', c]
    case Hex(h) => "\\u" + h
  }

  function UnitsText(us: seq<Unit>): string {
    if us == [] then "" else UnitText(us[0]) + UnitsText(us[1..])
  }

  /** The number a unit denotes: a byte of the text, or the code unit of its four digits. */
  function Denotes(u: Unit): nat
    requires ValidUnit(u)
  {
    match u
    case Plain(c) => c as nat
    case Short('b') => 0x08
    case Short('t') => 0x09
    case Short('n') => 0x0A
    case Short('f') => 0x0C
    case Short('r') => 0x0D
    case Short(c) => c as nat
    case Hex(h) => 4096 * HexValue(h[0]) + 256 * HexValue(h[1]) + 16 * HexValue(h[2]) + HexValue(h[3])
  }

  function Denoted(us: seq<Unit>): seq<nat>
    requires forall u | u in us :: ValidUnit(u)
  {
    if us == [] then [] else [Denotes(us[0])] + Denoted(us[1..])
  }

  function Codes(s: string): seq<nat> {
    if s == "" then [] else [s[0] as nat] + Codes(s[1..])
  }

  /** Hexadecimal digits in both cases, and the digits that are printed. */
  lemma HexDigits(n: nat)
    requires n < 16
    ensures HexDigit(n) == "0123456789abcdef"[n]
    ensures IsHex("0123456789abcdef"[n]) && HexValue("0123456789abcdef"[n]) == n
    ensures IsHex("0123456789ABCDEF"[n]) && HexValue("0123456789ABCDEF"[n]) == n
  {}

  /** Every \u escape stays in the ASCII range. */
  predicate AsciiEscapes(us: seq<Unit>)
    requires forall u | u in us :: ValidUnit(u)
  {
    forall k | 0 <= k < |us| :: us[k].Hex? ==> Denotes(us[k]) < 0x80
  }

  lemma HexPrefixStep(h: string, acc: nat)
    requires h != "" && IsHex(h[0])
    ensures HexPrefix(h, acc) == HexPrefix(h[1..], acc * 16 + HexValue(h[0]))
  {}

  lemma FourHexDigits(h: string)
    requires ValidUnit(Hex(h))
    ensures StrToUnsigned16(h) == Denotes(Hex(h))
  {
    hide HexPrefix, HexValue;
    assert h[1..][1..] == h[2..] && h[2..][1..] == h[3..] && h[3..][1..] == "";
    var a := HexValue(h[0]);
    var b := a * 16 + HexValue(h[1]);
    var c := b * 16 + HexValue(h[2]);
    HexPrefixStep(h, 0);
    HexPrefixStep(h[1..], a);
    HexPrefixStep(h[2..], b);
    HexPrefixStep(h[3..], c);
    assert HexPrefix("", c * 16 + HexValue(h[3])) == c * 16 + HexValue(h[3]) by { HexPrefixEmpty(c * 16 + HexValue(h[3])); }
  }

  lemma HexPrefixEmpty(acc: nat)
    ensures HexPrefix("", acc) == acc
  {}

  lemma UnitStep(u: Unit, rest: string)
    requires ValidUnit(u)
    ensures var t := UnescapeStep(UnitText(u) + rest);
            t.used == |UnitText(u)| &&
            if u.Hex? && Denotes(u) >= 0x80 then t.out == "" else |t.out| == 1 && t.out[0] as nat == Denotes(u)
  {
    if u.Hex? {
      FourHexDigits(u.h);
      assert (UnitText(u) + rest)[2..6] == u.h;
    }
  }

  /** Unescaping never yields more code units than the RFC, and agrees with it exactly when no
      \u escape leaves the ASCII range: those escapes are dropped. */
  lemma {:induction false} AgreesWithRfc8259(us: seq<Unit>)
    requires forall u | u in us :: ValidUnit(u)
    ensures Codes(Unescape(UnitsText(us))) == Denoted(us) <==> AsciiEscapes(us)
    ensures |Unescape(UnitsText(us))| <= |us|
    ensures |Unescape(UnitsText(us))| == |us| <==> AsciiEscapes(us)
  {
    hide UnescapeStep, Denotes, ValidUnit, UnitText;
    CodesLength(Unescape(UnitsText(us)));
    DenotedLength(us);
    if us != [] {
      var u, tail := us[0], us[1..];
      assert forall v | v in tail :: v in us;
      AgreesWithRfc8259(tail);
      UnitStep(u, UnitsText(tail));
      var t := UnescapeStep(UnitsText(us));
      assert UnitsText(us)[t.used..] == UnitsText(tail);
      AsciiTail(us);
      assert Unescape(UnitsText(us)) == t.out + Unescape(UnitsText(tail));
      if t.out != "" {
        assert (t.out + Unescape(UnitsText(tail)))[1..] == Unescape(UnitsText(tail));
        assert Codes(Unescape(UnitsText(us))) == [Denotes(u)] + Codes(Unescape(UnitsText(tail)));
        assert ([Denotes(u)] + Codes(Unescape(UnitsText(tail))))[1..] == Codes(Unescape(UnitsText(tail)));
        assert Denoted(us)[1..] == Denoted(tail);
      }
    }
  }

  lemma AsciiTail(us: seq<Unit>)
    requires us != [] && forall u | u in us :: ValidUnit(u)
    ensures forall u | u in us[1..] :: ValidUnit(u)
    ensures AsciiEscapes(us) <==> (us[0].Hex? ==> Denotes(us[0]) < 0x80) && AsciiEscapes(us[1..])
  {
    assert us == [us[0]] + us[1..];
  }

  lemma {:induction false} CodesLength(s: string)
    ensures |Codes(s)| == |s|
  {
    if s != "" { CodesLength(s[1..]); }
  }

  lemma {:induction false} DenotedLength(us: seq<Unit>)
    requires forall u | u in us :: ValidUnit(u)
    ensures |Denoted(us)| == |us|
  {
    if us != [] { DenotedLength(us[1..]); }
  }

  /** A dropped escape: the literal "\u00e9" comes out empty. */
  lemma NonAsciiEscapeIsDropped()
    ensures Unescape("\\u00e9") == ""
  {
    var u := Hex("00e9");
    assert UnitText(u) + "" == "\\u00e9";
    assert Denotes(u) == 0xe9;
    UnitStep(u, "");
    assert "\\u00e9"[6..] == "";
  }
}
