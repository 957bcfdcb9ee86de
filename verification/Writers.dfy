/** Appending JSON objects member by member.

    The program appends literals such as `,"cells":` in one go; `WriteName` appends the comma and
    the name.  base is what stands in the buffer up to the opening bracket, ms the members so far.
 */
module Writers {
  import opened Bytes
  import opened Grammar
  import opened Buffer
  import opened Strings
  import opened Compose
  import opened Rfc8259

  /** A NULL string is written as an empty one. */
  function OrEmpty(s: Option<CString>): CString {
    if s.Some? then s.value else ""
  }

  /** The comma between parts. */
  method Separate(out: Sbuf, needed: bool)
    requires out.Valid()
    modifies out, out.data
    ensures out.Valid() && (out.data == old(out.data) || fresh(out.data))
    ensures !out.failed ==>
              !old(out.failed) && out.Contents() == if needed then old(out.Contents()) + "," else old(out.Contents())
  {
    if needed {
      var ok := out.Append(",");
    }
  }

  /** A comma unless this is the first member, and the member's name. */
  method WriteName(out: Sbuf, first: bool, name: string)
    requires out.Valid()
    modifies out, out.data
    ensures out.Valid() && (out.data == old(out.data) || fresh(out.data))
    ensures !out.failed ==>
              !old(out.failed) &&
              out.Contents() == (if first then old(out.Contents()) else old(out.Contents()) + ",") + Name(name)
  {
    hide Name;
    Separate(out, !first);
    var ok := out.Append(Name(name));
  }

  /** A string member behind the members ms. */
  method WriteString(out: Sbuf, name: string, value: CString, ghost base: string, ghost ms: seq<string>, first: bool)
    requires out.Valid() && first == (ms == [])
    requires !out.failed ==> out.Contents() == base + Join(ms)
    modifies out, out.data
    ensures out.Valid() && (out.data == old(out.data) || fresh(out.data))
    ensures !out.failed ==> !old(out.failed) && out.Contents() == base + Join(ms + [Member(name, Quoted(value))])
  {
    hide Name, Quoted, Join;
    WriteName(out, first, name);
    JsonEscape(out, value);
    NextMember(base, ms, name, Quoted(value));
  }

  /** A member whose value is already a text: a number, a literal or raw JSON. */
  method WriteRaw(out: Sbuf, name: string, value: string, ghost base: string, ghost ms: seq<string>, first: bool)
    requires out.Valid() && first == (ms == [])
    requires !out.failed ==> out.Contents() == base + Join(ms)
    modifies out, out.data
    ensures out.Valid() && (out.data == old(out.data) || fresh(out.data))
    ensures !out.failed ==> !old(out.failed) && out.Contents() == base + Join(ms + [Member(name, value)])
  {
    hide Name, Join;
    WriteName(out, first, name);
    var ok := out.Append(value);
    NextMember(base, ms, name, value);
  }

  lemma NextMember(base: string, ms: seq<string>, name: string, v: string)
    ensures ((if ms == [] then base + Join(ms) else (base + Join(ms)) + ",") + Name(name)) + v ==
            base + Join(ms + [Member(name, v)])
  {
    hide Name, Join;
    AppendPart(base, ms, Member(name, v));
    var b := if ms == [] then base + Join(ms) else (base + Join(ms)) + ",";
    assert (base + Join(ms)) + Comma(ms) == b;
    assert (b + Name(name)) + v == b + Member(name, v);
  }

  // ---- Array members ----

  /** What stands in front of the elements of an array member behind the members ms. */
  function ListStart(base: string, ms: seq<string>, name: string): string {
    ((if ms == [] then base + Join(ms) else (base + Join(ms)) + ",") + Name(name)) + "["
  }

  /** The name of an array member and its opening bracket. */
  method OpenList(out: Sbuf, name: string, ghost base: string, ghost ms: seq<string>, first: bool)
    requires out.Valid() && first == (ms == [])
    requires !out.failed ==> out.Contents() == base + Join(ms)
    modifies out, out.data
    ensures out.Valid() && (out.data == old(out.data) || fresh(out.data))
    ensures !out.failed ==> !old(out.failed) && out.Contents() == ListStart(base, ms, name) + Join([])
  {
    hide Name, Join;
    WriteName(out, first, name);
    var ok := out.Append("[");
    NothingYet(ListStart(base, ms, name));
  }

  /** The comma in front of element i of xs, if it needs one. */
  method NextElement(out: Sbuf, ghost start: string, ghost xs: seq<string>, i: nat)
    requires out.Valid() && i < |xs|
    requires !out.failed ==> out.Contents() == start + Join(xs[..i])
    modifies out, out.data
    ensures out.Valid() && (out.data == old(out.data) || fresh(out.data))
    ensures !out.failed ==> !old(out.failed) && out.Contents() + xs[i] == start + Join(xs[..i + 1])
  {
    hide Join;
    NextPart(start, xs, i);
    Separate(out, i > 0);
  }

  /** The closing bracket. */
  method CloseList(out: Sbuf, name: string, ghost base: string, ghost ms: seq<string>, ghost xs: seq<string>, i: nat)
    requires out.Valid() && i == |xs|
    requires !out.failed ==> out.Contents() == ListStart(base, ms, name) + Join(xs[..i])
    modifies out, out.data
    ensures out.Valid() && (out.data == old(out.data) || fresh(out.data))
    ensures !out.failed ==> !old(out.failed) && out.Contents() == base + Join(ms + [Member(name, Arr(xs))])
  {
    hide Name, Join;
    var ok := out.Append("]");
    assert xs[..i] == xs;
    NextMember(base, ms, name, Arr(xs));
    ListPieces((if ms == [] then base + Join(ms) else (base + Join(ms)) + ",") + Name(name), xs);
  }

  lemma ListPieces(was: string, xs: seq<string>)
    ensures ((was + "[") + Join(xs)) + "]" == was + Arr(xs)
  {
    hide Join;
  }

  /** One more of the parts xs. */
  lemma NextPart(base: string, xs: seq<string>, i: nat)
    requires i < |xs|
    ensures (if i > 0 then (base + Join(xs[..i])) + "," else base + Join(xs[..i])) + xs[i] == base + Join(xs[..i + 1])
  {
    hide Join;
    assert xs[..i + 1] == xs[..i] + [xs[i]];
    AppendPart(base, xs[..i], xs[i]);
    if i == 0 { assert (base + Join(xs[..i])) + "" == base + Join(xs[..i]); }
  }

  lemma NothingYet(base: string)
    ensures base + Join([]) == base
  {}

  /** A member name in letters and underscores. */
  predicate IsName(k: string) {
    forall c | c in k :: In(LetterRun, c)
  }

  lemma PlainMember(k: string, v: string, strict: bool := false)
    requires IsName(k) && Whole(v, strict)
    ensures IsPart(Member(k, v), true, strict)
  {
    hide Whole, IsPart, Member, IsJsonString;
    NameIsBody(k);
    NameIsJson(k);
    MemberIsPart(k, v, strict);
  }
}
