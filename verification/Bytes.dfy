/** Bytes, C strings and the places inside a buffer.

    A C byte is a Dafny `char`.  A Dafny `char` ranges over more values than a byte does, so
    every statement quantified over `string` covers every byte string.
 */
module Bytes {
  const NUL: char := '\0'
  const SIZE_MAX: nat := 0xFFFF_FFFF_FFFF_FFFF

  // Result codes.
  const MDB_OK := 0
  const MDB_ERR_JSON := -6
  const MDB_ERR_INVALID_ARG := -8

  datatype Option<+T> = None | Some(value: T)

  /** What a NUL-terminated `const char *` argument holds, without its terminator. */
  type CString = s: string | NUL !in s

  /** The bytes a C reader sees from the start of s: everything before the first NUL. */
  function CStr(s: string): (r: CString)
    ensures r <= s
    ensures |r| < |s| ==> s[|r|] == NUL
  {
    if s == "" || s[0] == NUL then "" else [s[0]] + CStr(s[1..])
  }

  lemma {:induction false} CStrWhole(s: CString, rest: string)
    ensures CStr(s) == s
    ensures CStr(s + [NUL] + rest) == s
  {
    if s != "" {
      CStrWhole(s[1..], rest);
      assert (s + [NUL] + rest)[1..] == s[1..] + [NUL] + rest;
    } else {
      assert (s + [NUL] + rest)[0] == NUL;
    }
  }

  /** w stands at offset i of s. */
  ghost predicate At(s: string, i: nat, w: string) {
    i + |w| <= |s| && forall k {:trigger w[k]} | 0 <= k < |w| :: s[i + k] == w[k]
  }

  lemma AtSplit(s: string, i: nat, a: string, b: string)
    requires At(s, i, a + b)
    ensures At(s, i, a) && At(s, i + |a|, b)
  {
    forall k | 0 <= k < |a| ensures s[i + k] == a[k] { assert (a + b)[k] == a[k]; }
    forall k | 0 <= k < |b| ensures s[i + |a| + k] == b[k] { assert (a + b)[|a| + k] == b[k]; }
  }

  lemma AtJoin(s: string, i: nat, a: string, b: string)
    requires At(s, i, a) && At(s, i + |a|, b)
    ensures At(s, i, a + b)
  {}

  lemma AtByte(s: string, i: nat, c: char)
    requires i < |s| && s[i] == c
    ensures At(s, i, [c])
  {}

  lemma AtChar(s: string, i: nat, w: string, k: nat)
    requires At(s, i, w) && k < |w|
    ensures i + k < |s| && s[i + k] == w[k]
  {}

  lemma AtIs(s: string, i: nat, w: string)
    requires At(s, i, w)
    ensures s[i..i + |w|] == w
  {}

  lemma AtSlice(s: string, i: nat, j: nat)
    requires i <= j <= |s|
    ensures At(s, i, s[i..j])
  {}

  lemma SliceSlice<T>(s: seq<T>, i: nat, j: nat, a: nat, b: nat)
    requires i <= j <= |s| && a <= b <= j - i
    ensures s[i..j][a..b] == s[i + a..i + b]
  {
    forall k | 0 <= k < b - a ensures s[i..j][a..b][k] == s[i + a..i + b][k] {
      assert s[i..j][a + k] == s[i + a + k];
    }
  }
}
