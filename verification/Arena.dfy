/** Strings in a growing block: offsets into it while it may still move, pointers afterwards.

    A pointer is a block and an offset, so a pointer into a block that has since been reallocated
    differs from one into the live block.
 */
module Arena {
  import opened Bytes
  import opened Buffer

  datatype CharPtr = NullPtr | Ptr(block: array<char>, off: nat)

  /** The C string at off in an arena is s. */
  ghost predicate StandsAt(arena: string, off: nat, s: CString) {
    off + |s| < |arena| && arena[off..off + |s|] == s && arena[off + |s|] == NUL
  }

  lemma StandsStill(arena: string, off: nat, s: CString, more: string)
    requires StandsAt(arena, off, s) && arena <= more
    ensures StandsAt(more, off, s)
  {
    assert more[off..off + |s|] == arena[off..off + |s|];
  }

  /** What a C reader finds behind a pointer: nothing at NULL, otherwise the bytes up to the first
      NUL. */
  ghost function StringRead(p: CharPtr): Option<CString>
    reads if p.Ptr? then {p.block} else {}
  {
    if p.Ptr? && p.off <= p.block.Length then Some(CStr(p.block[p.off..])) else None
  }

  /** A stored offset represents an optional string; SIZE_MAX stands for none. */
  ghost predicate OffsetOk(off: nat, arena: string, o: Option<CString>) {
    match o
    case None => off == SIZE_MAX
    case Some(s) => off != SIZE_MAX && StandsAt(arena, off, s)
  }

  ghost predicate OffsetsOk(offs: seq<nat>, arena: string, os: seq<Option<CString>>) {
    |offs| == |os| && forall k | 0 <= k < |offs| :: OffsetOk(offs[k], arena, os[k])
  }

  lemma OffsetsStill(offs: seq<nat>, arena: string, os: seq<Option<CString>>, more: string)
    requires OffsetsOk(offs, arena, os) && arena <= more
    ensures OffsetsOk(offs, more, os)
  {
    forall k | 0 <= k < |offs| ensures OffsetOk(offs[k], more, os[k]) {
      if os[k].Some? { StandsStill(arena, offs[k], os[k].value, more); }
    }
  }

  /** A pointer into the live block shows an optional string; NULL stands for none. */
  ghost predicate PtrShows(p: CharPtr, live: array<char>, arena: string, o: Option<CString>) {
    match o
    case None => p == NullPtr
    case Some(s) => p.Ptr? && p.block == live && StandsAt(arena, p.off, s)
  }

  /** A pointer into the live block reads as the string it shows, and as no other. */
  lemma ShownIsRead(p: CharPtr, blob: Sbuf, o: Option<CString>)
    requires blob.Valid() && PtrShows(p, blob.data, blob.Contents(), o)
    ensures StringRead(p) == o
  {
    if o.Some? {
      var s, d := o.value, blob.data[..];
      var arena := blob.Contents();
      var after := d[p.off + |s| + 1..];
      assert d[p.off..p.off + |s|] == arena[p.off..p.off + |s|];
      assert d[p.off..] == s + [NUL] + after;
      assert blob.data[p.off..] == d[p.off..];
      CStrWhole(s, after);
    }
  }

  /** `blob_str_at`. */
  function StringAt(blob: Sbuf, off: nat): CharPtr
    reads blob
  {
    if blob.cap == 0 || off == SIZE_MAX || off >= blob.len then NullPtr else Ptr(blob.data, off)
  }

  lemma OffsetResolves(blob: Sbuf, off: nat, o: Option<CString>)
    requires blob.Valid() && OffsetOk(off, blob.Contents(), o)
    ensures PtrShows(StringAt(blob, off), blob.data, blob.Contents(), o)
  {}
}
