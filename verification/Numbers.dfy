/** Printing int64 and reading it back through fixed scratch buffers. */
module Numbers {
  import opened Bytes
  import opened Grammar

  const INT64_MIN: int := -0x8000_0000_0000_0000
  const INT64_MAX: int := 0x7FFF_FFFF_FFFF_FFFF
  const UINT64_MAX: int := 0xFFFF_FFFF_FFFF_FFFF

  type int64 = x: int | INT64_MIN <= x <= INT64_MAX

  type uint64 = x: int | 0 <= x <= UINT64_MAX

  type size = x: int | 0 <= x <= SIZE_MAX

  type uint32 = x: int | 0 <= x <= 0xFFFF_FFFF

  // ---- Printing ----

  function DigitChar(d: nat): (c: char)
    requires d < 10
    ensures IsDigit(c)
  {
    '0' + d as char
  }

  function DigitOf(c: char): (d: nat)
    requires IsDigit(c)
    ensures d < 10
  {
    c as nat - '0' as nat
  }

  /** `%llu` and `%zu`. */
  function Digits(n: nat): (w: string)
    ensures |w| > 0
    ensures forall k | 0 <= k < |w| :: IsDigit(w[k])
    ensures n > 0 ==> w[0] != '0'
  {
    if n < 10 then [DigitChar(n)] else Digits(n / 10) + [DigitChar(n % 10)]
  }

  /** `%lld`. */
  function Decimal(n: int): (w: string)
    ensures |w| > 0 && StartsNumber(w[0])
    ensures AllIn(NumberRun, w)
  {
    if n < 0 then "-" + Digits(-n) else Digits(n)
  }

  // ---- Reading ----

  /** The decimal digits w starts with, read after acc. */
  function DigitPrefix(w: string, acc: nat): nat {
    if w != "" && IsDigit(w[0]) then DigitPrefix(w[1..], acc * 10 + DigitOf(w[0])) else acc
  }

  function Clamp(n: int): int64 {
    if n < INT64_MIN then INT64_MIN else if n > INT64_MAX then INT64_MAX else n
  }

  /** The number `strtoll` reads from w before it clamps.  The buffers it is given start with a
      digit or a minus sign. */
  function Signed(w: string): int {
    if w != "" && w[0] == '-' then -(DigitPrefix(w[1..], 0) as int)
    else if w != "" && w[0] == '+' then DigitPrefix(w[1..], 0)
    else DigitPrefix(w, 0)
  }

  /** `strtoll(w, NULL, 10)`. */
  function StrToInt64(w: string): int64 {
    Clamp(Signed(w))
  }

  /** What a scratch buffer of room bytes (the NUL not counted) keeps of w. */
  function Cut(w: string, room: nat): string {
    if |w| > room then w[..room] else w
  }

  const NUMBER_ROOM: nat := 63
  const ID_ROOM: nat := 31

  // ---- Printing and reading undo each other ----

  lemma {:induction false} DigitsRead(n: nat, rest: string)
    requires rest != "" ==> !IsDigit(rest[0])
    ensures DigitPrefix(Digits(n) + rest, 0) == n
  {
    DigitsReadOn(n, rest);
    assert DigitPrefix(rest, n) == n;
  }

  lemma {:induction false} DigitsReadOn(n: nat, rest: string)
    ensures DigitPrefix(Digits(n) + rest, 0) == DigitPrefix(rest, n)
  {
    if n < 10 {
      assert (Digits(n) + rest)[1..] == rest;
    } else {
      var d := [DigitChar(n % 10)];
      assert Digits(n) + rest == Digits(n / 10) + (d + rest);
      DigitsReadOn(n / 10, d + rest);
      assert (d + rest)[1..] == rest;
      assert DigitPrefix(d + rest, n / 10) == DigitPrefix(rest, n / 10 * 10 + n % 10);
    }
  }

  /** Printing any int64 and reading it back is the identity, whatever non-digit follows. */
  lemma DecimalRoundTrip(n: int64, rest: string)
    requires rest != "" ==> !IsDigit(rest[0])
    ensures StrToInt64(Decimal(n) + rest) == n
  {
    hide Digits, DigitPrefix;
    var m: nat := if n < 0 then -(n as int) else n;
    var w := Digits(m) + rest;
    DigitsRead(m, rest);
    if n < 0 {
      assert Decimal(n) + rest == "-" + w;
      assert ("-" + w)[1..] == w;
    } else {
      assert IsDigit(w[0]);
    }
  }

  function Pow10(k: nat): (r: nat)
    ensures r > 0
  {
    if k == 0 then 1 else 10 * Pow10(k - 1)
  }

  /** What decimal notation means: the digit k places from the right counts tens to the power of k. */
  lemma {:induction false} DigitCounts(n: nat, k: nat)
    requires k < |Digits(n)|
    ensures Digits(n)[|Digits(n)| - 1 - k] as int == 48 + n / Pow10(k) % 10
  {
    if k > 0 {
      hide Pow10;
      DigitCounts(n / 10, k - 1);
      var w := Digits(n / 10);
      assert Digits(n) == w + [DigitChar(n % 10)];
      assert Digits(n)[|w| - k] == w[|w| - k];
      DivideTwice(n, k);
    }
  }

  lemma DivideTwice(n: nat, k: nat)
    requires k > 0
    ensures n / 10 / Pow10(k - 1) == n / Pow10(k)
  {
    var p := Pow10(k - 1);
    var q := n / 10 / p;
    var r, t := n / 10 % p, n % 10;
    assert n == 10 * (n / 10) + t && n / 10 == p * q + r;
    assert n == Pow10(k) * q + (10 * r + t) by { assert 10 * (p * q) == (10 * p) * q; }
    assert 0 <= 10 * r + t < Pow10(k);
    QuotientIs(n, Pow10(k), q, 10 * r + t);
  }

  lemma QuotientIs(n: nat, d: nat, q: nat, r: nat)
    requires d > 0 && n == d * q + r && r < d
    ensures n / d == q
  {
    var e := q - n / d;
    assert d * (n / d) + n % d == n;
    assert d * e == d * q - d * (n / d) == n % d - r;
    Multiples(d, e);
  }

  lemma Multiples(d: nat, e: int)
    ensures e >= 1 ==> d * e >= d
    ensures e <= -1 ==> d * e + d <= 0
  {}

  lemma TenTo19()
    ensures Pow10(19) == 10_000_000_000_000_000_000
  {
    assert Pow10(2) == 100 && Pow10(4) == 10_000 && Pow10(6) == 1_000_000;
    assert Pow10(8) == 100_000_000 && Pow10(10) == 10_000_000_000 && Pow10(12) == 1_000_000_000_000;
    assert Pow10(14) == 100_000_000_000_000 && Pow10(16) == 10_000_000_000_000_000;
    assert Pow10(18) == 1_000_000_000_000_000_000;
  }

  /** Fewer than k digits suffice for a number below 10^k. */
  lemma {:induction false} DigitsLength(n: nat, k: nat)
    requires k > 0 && n < Pow10(k)
    ensures |Digits(n)| <= k
  {
    if n >= 10 {
      DigitsLength(n / 10, k - 1);
    }
  }

  /** A number from 10^k on has more than k digits. */
  lemma {:induction false} DigitsLongEnough(n: nat, k: nat)
    requires n >= Pow10(k)
    ensures |Digits(n)| > k
  {
    if k > 0 {
      assert n / 10 >= Pow10(k - 1);
      DigitsLongEnough(n / 10, k - 1);
    }
  }

  /** No int64 outgrows a scratch buffer. */
  lemma DecimalLength(n: int64)
    ensures |Decimal(n)| <= 20
  {
    TenTo19();
    var m: nat := if n < 0 then -(n as int) else n;
    DigitsLength(m, 19);
  }

  /** An integer token of RFC 8259, section 6: no leading zero, no sign but a minus. */
  predicate IsIntegerToken(w: string) {
    var d := if w != "" && w[0] == '-' then w[1..] else w;
    d != "" && (forall k | 0 <= k < |d| :: IsDigit(d[k])) && (d[0] == '0' ==> |d| == 1)
  }

  lemma {:induction false} DigitPrefixAppend(a: string, b: string, acc: nat)
    requires forall k | 0 <= k < |a| :: IsDigit(a[k])
    ensures DigitPrefix(a + b, acc) == DigitPrefix(b, DigitPrefix(a, acc))
  {
    if a == "" {
      assert a + b == b;
    } else {
      assert (a + b)[1..] == a[1..] + b;
      DigitPrefixAppend(a[1..], b, acc * 10 + DigitOf(a[0]));
    }
  }

  lemma {:induction false} DigitPrefixGrows(d: string, acc: nat)
    requires forall k | 0 <= k < |d| :: IsDigit(d[k])
    ensures DigitPrefix(d, acc) >= acc * Pow10(|d|) >= acc
  {
    if d != "" {
      hide Pow10;
      var next := acc * 10 + DigitOf(d[0]);
      DigitPrefixGrows(d[1..], next);
      ShiftedProduct(acc, next, |d| - 1);
    }
  }

  lemma ShiftedProduct(acc: nat, next: nat, k: nat)
    requires next >= acc * 10
    ensures next * Pow10(k) >= acc * Pow10(k + 1) >= acc
  {
    var p := Pow10(k);
    assert Pow10(k + 1) == 10 * p;
    assert next * p >= (acc * 10) * p;
    assert (acc * 10) * p == acc * (10 * p);
  }

  /** Twenty digits without a leading zero are beyond int64, and so is every longer token. */
  lemma LongTokenSaturates(d: string, m: nat)
    requires 20 <= m <= |d| && d[0] != '0'
    requires forall k | 0 <= k < |d| :: IsDigit(d[k])
    ensures DigitPrefix(d[..m], 0) > INT64_MAX + 1 && DigitPrefix(d, 0) > INT64_MAX + 1
  {
    hide DigitPrefix, Pow10;
    var head, mid, tail := d[..1], d[1..m], d[m..];
    assert d[..m] == head + mid && d == d[..m] + tail;
    DigitPrefixAppend(head, mid, 0);
    DigitPrefixAppend(d[..m], tail, 0);
    var first := DigitPrefix(head, 0);
    LeadingDigit(head);
    DigitPrefixGrows(mid, first);
    TenTo19();
    Pow10Monotone(19, m - 1);
    assert first * Pow10(m - 1) >= Pow10(m - 1);
    DigitPrefixGrows(tail, DigitPrefix(d[..m], 0));
  }

  lemma LeadingDigit(w: string)
    requires |w| == 1 && IsDigit(w[0]) && w[0] != '0'
    ensures DigitPrefix(w, 0) >= 1
  {
    assert w[1..] == "";
  }

  lemma {:induction false} Pow10Monotone(a: nat, b: nat)
    requires a <= b
    ensures Pow10(a) <= Pow10(b)
  {
    if a < b { Pow10Monotone(a, b - 1); }
  }

  /** The scratch buffers cannot be observed: an integer token of any length reads as its value
      clamped to the int64 range, through 63 bytes as well as through 31. */
  lemma TruncationUnobservable(w: string, room: nat)
    requires IsIntegerToken(w) && room >= 21
    ensures StrToInt64(Cut(w, room)) == Clamp(Signed(w))
  {
    if |w| > room {
      if w[0] == '-' {
        assert w[..room][1..] == w[1..][..room - 1];
        LongTokenSaturates(w[1..], room - 1);
      } else {
        LongTokenSaturates(w, room);
      }
    }
  }

  /** Printed numbers are integer tokens. */
  lemma DecimalIsToken(n: int)
    ensures IsIntegerToken(Decimal(n)) && Signed(Decimal(n)) == n
  {
    var m: nat := if n < 0 then -n else n;
    assert Digits(m) + "" == Digits(m);
    DigitsRead(m, "");
    if m > 0 { assert Digits(m)[0] != '0'; } else { assert Digits(0) == ['0']; }
    if n < 0 { assert Decimal(n)[1..] == Digits(m); } else { assert IsDigit(Digits(m)[0]); }
  }
}
