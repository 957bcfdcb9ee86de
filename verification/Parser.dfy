/** The skip parser as the program runs it: a cursor that every routine advances in place.

    Each routine is proved against the function of module Scan that describes it; the grammar
    theorems of that module then hold of the cursor code.
 */
module Parser {
  import opened Bytes
  import opened Grammar
  import opened Scan

  class JsonParser {
    const src: string
    var p: nat
    var ok: bool

    predicate Valid()
      reads this
    {
      p <= |src|
    }

    constructor (src: string, start: nat := 0)
      requires start <= |src|
      ensures Valid() && this.src == src && p == start && ok
    {
      this.src := src;
      p := start;
      ok := true;
    }

    method SkipWhite()
      requires Valid()
      modifies this`p
      ensures Valid() && p == Skip(src, old(p))
    {
      while p < |src| && (src[p] == ' ' || src[p] == '\t' || src[p] == '\n' || src[p] == '\r')
        invariant Valid() && Skip(src, p) == Skip(src, old(p))
      {
        p := p + 1;
      }
    }

    /** Skips white space and reports the next byte without consuming it. */
    method PeekByte() returns (ch: int)
      requires Valid()
      modifies this`p
      ensures Valid() && p == Skip(src, old(p))
      ensures ch == Peek(src, old(p)) == (if p < |src| then src[p] as int else -1)
    {
      SkipWhite();
      ch := if p < |src| then src[p] as int else -1;
    }

    method SkipString()
      requires Valid() && ok && Sees(src, p, '"')
      modifies this
      ensures Valid()
      ensures ok == CloseQuote(src, old(p) + 1).Some?
      ensures ok ==> p == CloseQuote(src, old(p) + 1).value + 1
    {
      p := p + 1;
      while p < |src|
        invariant Valid() && ok && CloseQuote(src, p) == CloseQuote(src, old(p) + 1)
        decreases |src| - p
      {
        var c := src[p];
        p := p + 1;
        if c == '\\' {
          if p < |src| {
            p := p + 1;
          }
        } else if c == '"' {
          return;
        }
      }
      ok := false;
    }

    method SkipNumber()
      requires Valid()
      modifies this`p
      ensures Valid() && p == RunEnd(src, old(p), NumberRun)
    {
      while p < |src|
        invariant Valid() && RunEnd(src, p, NumberRun) == RunEnd(src, old(p), NumberRun)
      {
        var c := src[p];
        if '0' <= c <= '9' || c == '-' || c == '+' || c == '.' || c == 'e' || c == 'E' {
          p := p + 1;
        } else {
          return;
        }
      }
    }

    method SkipLiteral()
      requires Valid()
      modifies this`p
      ensures Valid() && p == RunEnd(src, old(p), LetterRun)
    {
      while p < |src|
        invariant Valid() && RunEnd(src, p, LetterRun) == RunEnd(src, old(p), LetterRun)
      {
        var c := src[p];
        if 'a' <= c <= 'z' || 'A' <= c <= 'Z' || c == '_' {
          p := p + 1;
        } else {
          return;
        }
      }
    }

    /** Reads `"key" :` and reports where the key's raw bytes are.  The cursor stays behind the
        colon, before the white space in front of the value. */
    method ReadKey() returns (start: nat, len: nat)
      requires Valid() && ok
      modifies this
      ensures Valid()
      ensures ok == MemberKey(src, Skip(src, old(p))).Good?
      ensures ok ==> var Good(key, c) := MemberKey(src, Skip(src, old(p)));
                     old(p) < p <= c && Skip(src, p) == c && Value(src, p) == Value(src, c) &&
                     start + len <= |src| && src[start..start + len] == key.raw
    {
      hide Value, RunEnd, CloseQuote;
      start, len := 0, 0;
      var ch := PeekByte();
      if ch != '"' as int {
        ok := false;
        return;
      }
      start := p + 1;
      SkipString();
      if !ok {
        return;
      }
      len := p - 1 - start;
      ch := PeekByte();
      if ch != ':' as int {
        ok := false;
        return;
      }
      p := p + 1;
      SkipIdempotent(src, p);
    }

    /** What follows an item: a comma, the closing bracket, or an error. */
    method NextItem(close: char) returns (more: bool)
      requires Valid() && ok
      modifies this
      ensures Valid() && old(p) <= p
      ensures var f := Skip(src, old(p));
              if Sees(src, f, ',') then more && ok && p == f + 1
              else if Sees(src, f, close) then !more && ok && p == f + 1
              else !more && !ok
    {
      hide RunEnd;
      more := false;
      var ch := PeekByte();
      if ch == ',' as int {
        p := p + 1;
        more := true;
      } else if ch == close as int {
        p := p + 1;
      } else {
        ok := false;
      }
    }

    method SkipArray()
      requires Valid() && ok && Sees(src, p, '[')
      modifies this
      ensures Valid()
      ensures Consumed(Value(src, old(p)))
      decreases |src| - p, 0
    {
      hide Value, ItemList, Element, MemberKey, CloseQuote, RunEnd;
      NodeEnd(src, p);
      p := p + 1;
      SkipIdempotent(src, p);
      SkipWhite();
      var ch := PeekByte();
      if ch == ']' as int {
        p := p + 1;
        return;
      }
      while true
        invariant Valid() && ok && old(p) < p
        invariant End(Value(src, old(p))) == End(ItemList(src, p, false))
        decreases |src| - p
      {
        ListStep(src, p, false);
        SkipIdempotent(src, p);
        SkipValue();
        if !ok {
          return;
        }
        var more := NextItem(']');
        if !more {
          return;
        }
      }
    }

    method SkipObject()
      requires Valid() && ok && Sees(src, p, '{')
      modifies this
      ensures Valid()
      ensures Consumed(Value(src, old(p)))
      decreases |src| - p, 0
    {
      hide Value, ItemList, Element, MemberKey, CloseQuote, RunEnd;
      NodeEnd(src, p);
      p := p + 1;
      SkipIdempotent(src, p);
      SkipWhite();
      var ch := PeekByte();
      if ch == '}' as int {
        p := p + 1;
        return;
      }
      while true
        invariant Valid() && ok && old(p) < p
        invariant End(Value(src, old(p))) == End(ItemList(src, p, true))
        decreases |src| - p
      {
        ListStep(src, p, true);
        SkipIdempotent(src, p);
        SkipWhite();
        var key, len := ReadKey();
        if !ok {
          return;
        }
        SkipIdempotent(src, p);
        SkipValue();
        if !ok {
          return;
        }
        var more := NextItem('}');
        if !more {
          return;
        }
      }
    }

    /** Skips one value.  It succeeds exactly when the grammar has one here, and then stops right
        behind it. */
    method SkipValue()
      requires Valid() && ok
      modifies this
      ensures Valid()
      ensures Consumed(Value(src, old(p)))
      decreases |src| - p, 1
    {
      ghost var start := p;
      var ch := PeekByte();
      SkipIdempotent(src, start);
      if ch == '"' as int {
        SkipString();
      } else if ch == '{' as int {
        SkipObject();
      } else if ch == '[' as int {
        SkipArray();
      } else if ch == 't' as int || ch == 'f' as int || ch == 'n' as int {
        SkipLiteral();
      } else if ch == '-' as int || '0' as int <= ch <= '9' as int {
        SkipNumber();
      } else {
        ok := false;
      }
    }

    /** The cursor reports r's success, and stands behind the value on success. */
    ghost predicate Consumed<T>(r: Res<T>)
      reads this
    {
      ok == r.Good? && (ok ==> p == r.pos)
    }
  }

  /** Where a scan ended, if it succeeded. */
  function End<T>(r: Res<T>): Option<nat> {
    if r.Good? then Some(r.pos) else None
  }

  lemma NodeEnd(s: string, k: nat)
    requires Sees(s, k, '{') || Sees(s, k, '[')
    ensures var keyed := s[k] == '{'; var first := Skip(s, k + 1);
            End(Value(s, k)) ==
            if Sees(s, first, Close(keyed)) then Some(first + 1) else End(ItemList(s, first, keyed))
  {
    hide Element, ItemList, CloseQuote, RunEnd;
    SkipHere(s, k);
    SameList(s, k + 1, s[k] == '{');
  }

  /** How a list goes on at f, behind an element and its white space. */
  ghost function AfterElement(s: string, f: nat, keyed: bool): Option<nat>
    requires f <= |s|
  {
    if Sees(s, f, ',') then End(ItemList(s, f + 1, keyed))
    else if Sees(s, f, Close(keyed)) then Some(f + 1)
    else None
  }

  /** One step through a list: a key if the list is keyed, a value, then what follows. */
  lemma ListStep(s: string, i: nat, keyed: bool)
    requires i <= |s|
    ensures var a := Skip(s, i);
            Skip(s, a) == a &&
            End(ItemList(s, i, keyed)) ==
            match KeyOrNot(s, a, keyed)
            case Bad => None
            case Good(_, c) =>
              match End(Value(s, c))
              case None => None
              case Some(e) => AfterElement(s, Skip(s, e), keyed)
  {
    hide Value, KeyOrNot, RunEnd;
    SkipIdempotent(s, i);
  }

  /** White space before a list does not matter. */
  lemma SameList(s: string, i: nat, keyed: bool)
    requires i <= |s|
    ensures End(ItemList(s, i, keyed)) == End(ItemList(s, Skip(s, i), keyed))
  {
    hide Value, KeyOrNot, RunEnd, Element, ItemList;
    SkipIdempotent(s, i);
    ListStep(s, i, keyed);
    ListStep(s, Skip(s, i), keyed);
  }
}
