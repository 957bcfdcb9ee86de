/** The growing byte buffer (`sbuf`) that every writer appends to and every decoder copies into. */
module Buffer {
  import opened Bytes

  /** The largest block the allocator hands out.  A request within it succeeds. */
  const PTRDIFF_MAX: nat := 0x7FFF_FFFF_FFFF_FFFF

  /** Sizes up to here are always granted: rounding one up at most doubles it. */
  const ROOM: nat := 0x4000_0000_0000_0000

  const FIRST_CAPACITY: nat := 64

  const MAX_RESPONSE_BYTES: nat := 268435456

  /** Doubles ncap until it covers need; clamps to need where doubling would overflow. */
  function Doubled(ncap: nat, need: nat): (r: nat)
    requires 0 < ncap
    ensures need <= r
    ensures ncap <= r
    ensures r == ncap || r < 2 * need
    ensures need <= SIZE_MAX && ncap <= SIZE_MAX ==> r <= SIZE_MAX
    decreases need - ncap
  {
    if need <= ncap then ncap
    else if ncap > SIZE_MAX / 2 then need
    else Doubled(2 * ncap, need)
  }

  /** The capacity after a reservation that needs `need` bytes in all. */
  function NextCapacity(cap: nat, need: nat): (r: nat)
    ensures need <= r
  {
    if need <= cap then cap else Doubled(if cap != 0 then cap else FIRST_CAPACITY, need)
  }

  class Sbuf {
    var data: array<char>   // a NULL block is one of length 0
    var len: nat
    var cap: nat
    ghost var reallocs: nat
    ghost var failed: bool  // an append was dropped because no block was granted

    ghost predicate Valid()
      reads this
    {
      data.Length == cap <= PTRDIFF_MAX && len <= cap
    }

    /** No more than twice the need is held.  Appending keeps this; reserving space that is then
        not used up does not. */
    predicate Tight()
      reads this
    {
      cap == 0 || cap == FIRST_CAPACITY || cap < 2 * (len + 1)
    }

    /** The block holds a C string: there is a NUL behind the contents. */
    ghost predicate Terminated()
      requires Valid()
      reads this, data
    {
      cap != 0 ==> len < cap && data[len] == NUL
    }

    function Contents(): (s: string)
      requires Valid()
      reads this, data
      ensures |s| == len
    {
      data[..len]
    }

    constructor ()
      ensures Valid() && Terminated() && Tight() && Contents() == "" && cap == 0 && reallocs == 0
      ensures fresh(data) && !failed
    {
      data := new char[0];
      len, cap, reallocs, failed := 0, 0, 0, false;
    }

    /** Frees the block; the buffer is empty again. */
    method Free()
      modifies this
      ensures Valid() && Terminated() && Tight() && Contents() == "" && fresh(data) && !failed
    {
      data := new char[0];
      len, cap, failed := 0, 0, false;
    }

    /** Makes room for extra bytes and a NUL.  Reports -1 as false. */
    method Reserve(extra: nat) returns (ok: bool)
      requires Valid()
      modifies this
      ensures Valid() && Contents() == old(Contents())
      ensures data == old(data) || fresh(data)
      ensures ok ==> len + extra + 1 <= cap == NextCapacity(old(cap), len + extra + 1)
      ensures ok ==> reallocs == old(reallocs) + (if cap == old(cap) then 0 else 1)
      ensures failed == old(failed) && (!ok ==> unchanged(this))
      ensures len + extra + 1 <= ROOM ==> ok
    {
      if extra > SIZE_MAX - 1 - len {
        return false;
      }
      var need := len + extra + 1;
      assert need <= SIZE_MAX;
      if need <= cap {
        return true;
      }
      var ncap := if cap != 0 then cap else FIRST_CAPACITY;
      while need > ncap
        invariant 0 < ncap <= SIZE_MAX
        invariant Doubled(ncap, need) == NextCapacity(cap, need)
        decreases need - ncap
      {
        if ncap > SIZE_MAX / 2 {
          ncap := need;
          break;
        }
        ncap := ncap * 2;
      }
      assert ncap == NextCapacity(cap, need) <= SIZE_MAX;
      if ncap > PTRDIFF_MAX {
        return false;
      }
      var nd := new char[ncap];
      CopyBytes(nd, data, len);
      data, cap := nd, ncap;
      reallocs := reallocs + 1;
      return true;
    }

    /** Appends s and keeps a NUL behind it.  All or nothing. */
    method Append(s: string) returns (ok: bool)
      requires Valid()
      modifies this, data
      ensures Valid() && failed == (old(failed) || !ok)
      ensures data == old(data) || fresh(data)
      ensures ok ==> Contents() == old(Contents()) + s && Terminated() && cap != 0
      ensures ok && old(Tight()) ==> Tight()
      ensures ok ==> cap == NextCapacity(old(cap), len + 1)
      ensures ok ==> reallocs == old(reallocs) + (if cap == old(cap) then 0 else 1)
      ensures !ok ==> unchanged(`len, `cap, `data) && unchanged(data)
      ensures old(len) + |s| < ROOM ==> ok
    {
      ok := Reserve(|s|);
      if !ok {
        failed := true;
        return;
      }
      ghost var before := data[..len];
      CopyString(data, len, s);
      assert data[..len + |s|] == before + s;
      len := len + |s|;
    }
  }

  /** memcpy of w to base, and a NUL behind it. */
  method CopyString(dst: array<char>, base: nat, w: string)
    requires base + |w| < dst.Length
    modifies dst
    ensures dst[base..base + |w|] == w && dst[base + |w|] == NUL
    ensures dst[..base] == old(dst[..base])
  {
    forall k | 0 <= k < |w| {
      dst[base + k] := w[k];
    }
    dst[base + |w|] := NUL;
  }

  /** realloc: a block of ncap entries that starts with the old ones. */
  method Realloc<T(0)>(a: array<T>, ncap: nat) returns (b: array<T>)
    requires a.Length <= ncap
    ensures fresh(b) && b.Length == ncap && b[..a.Length] == a[..]
  {
    b := new T[ncap];
    forall k | 0 <= k < a.Length {
      b[k] := a[k];
    }
  }

  method CopyBytes(dst: array<char>, src: array<char>, n: nat)
    requires n <= dst.Length && n <= src.Length && dst != src
    modifies dst
    ensures dst[..n] == src[..n]
  {
    forall k | 0 <= k < n {
      dst[k] := src[k];
    }
  }

  /** The download callback: buffers a chunk, or refuses it when the body would pass the cap. */
  method WriteCallback(out: Sbuf, chunk: string) returns (n: nat)
    requires out.Valid() && out.len <= 268435456
    modifies out, out.data
    ensures out.Valid() && out.len <= 268435456
    ensures old(out.len) + |chunk| <= 268435456 ==> n == |chunk| && out.Contents() == old(out.Contents()) + chunk
    ensures old(out.len) + |chunk| > 268435456 ==> n == 0 && unchanged(out) && unchanged(out.data)
  {
    n := 0;
    if out.len > MAX_RESPONSE_BYTES || |chunk| > MAX_RESPONSE_BYTES - out.len {
      return;
    }
    var ok := out.Append(chunk);
    if ok {
      n := |chunk|;
    }
  }

  // ---- How often a buffer moves ----

  function Pow2(k: nat): (r: nat)
    ensures r > 0
  {
    if k == 0 then 1 else 2 * Pow2(k - 1)
  }

  datatype Growth = Growth(cap: nat, moves: nat)

  /** The capacity and the number of reallocations after k appends of one byte to a new buffer. */
  function ByteByByte(k: nat): Growth {
    if k == 0 then Growth(0, 0) else
      var g := ByteByByte(k - 1);
      var cap := NextCapacity(g.cap, k + 1);
      Growth(cap, g.moves + if cap == g.cap then 0 else 1)
  }

  /** After k >= 1 one-byte appends the buffer has moved exactly 1 + ceil(log2((k+1)/64)) times,
      once when k < 64: m moves give a capacity of 64 * 2^(m-1), which covers k+1 bytes, and half
      of it does not. */
  lemma {:induction false} MovesAreLogarithmic(k: nat)
    requires 1 <= k < ROOM
    ensures var g := ByteByByte(k);
            g.moves >= 1 && g.cap == FIRST_CAPACITY * Pow2(g.moves - 1) && k + 1 <= g.cap &&
            (g.moves > 1 ==> g.cap < 2 * (k + 1))
  {
    if k > 1 {
      MovesAreLogarithmic(k - 1);
      var g := ByteByByte(k - 1);
      if k + 1 > g.cap {
        assert Pow2(g.moves) == 2 * Pow2(g.moves - 1);
        assert g.cap == k;
        assert Doubled(g.cap, k + 1) == Doubled(2 * g.cap, k + 1) == 2 * g.cap;
      }
    } else {
      assert ByteByByte(0) == Growth(0, 0);
    }
  }

  /** A run of one-byte appends, as the writers make them: the contents are the bytes, and the buffer
      grows and moves as often as stated. */
  method AppendByteByByte(s: string) returns (b: Sbuf)
    requires |s| < ROOM
    ensures fresh(b) && b.Valid() && b.Terminated() && b.Contents() == s && !b.failed
    ensures Growth(b.cap, b.reallocs) == ByteByByte(|s|)
    ensures s != "" ==> b.reallocs >= 1 && b.cap == 64 * Pow2(b.reallocs - 1)
    ensures s != "" ==> |s| + 1 <= b.cap && (b.reallocs > 1 ==> b.cap < 2 * (|s| + 1))
  {
    hide NextCapacity, Pow2, Sbuf.Tight;
    b := new Sbuf();
    var i := 0;
    while i < |s|
      invariant i <= |s| && fresh(b) && fresh(b.data) && b.Valid() && b.Terminated() && !b.failed
      invariant b.Contents() == s[..i] && Growth(b.cap, b.reallocs) == ByteByByte(i)
    {
      var ok := b.Append([s[i]]);
      assert s[..i + 1] == s[..i] + [s[i]];
      i := i + 1;
    }
    assert s[..|s|] == s;
    if s != "" { MovesAreLogarithmic(|s|); }
  }
}
