/** Reading a text byte by byte with a stack of open brackets.

    The reader settles after every well-formed value, so a text on which it dies, or which leaves it
    inside a bracket or a string, is not one value.
 */
module Reader {
  import opened Bytes
  import opened Grammar
  import opened Scan
  import opened Compose

  datatype Stack = Bottom | Push(keyed: bool, under: Stack)

  /** Want is the start of an element, Named the place behind a key, Given the one behind a colon. */
  datatype Mode = Want | Given | InString(isKey: bool) | InEscape(isKey: bool) | Named | Scalar | Done

  datatype State = Dead | Live(stack: Stack, mode: Mode)

  function Begin(s: Stack, c: char): State {
    if c == '"' then Live(s, InString(false))
    else if c == '{' then Live(Push(true, s), Want)
    else if c == '[' then Live(Push(false, s), Want)
    else if StartsNumber(c) || StartsLiteral(c) then Live(s, Scalar)
    else Dead
  }

  function Behind(s: Stack, c: char): State {
    if IsWhite(c) then Live(s, Done)
    else if s.Bottom? then Dead
    else if c == ',' then Live(s, Want)
    else if c == Close(s.keyed) then Live(s.under, Done)
    else Dead
  }

  function Read(st: State, c: char): State {
    match st
    case Dead => Dead
    case Live(s, Want) =>
      if IsWhite(c) then st
      else if s.Push? && c == Close(s.keyed) then Live(s.under, Done)
      else if s.Push? && s.keyed then (if c == '"' then Live(s, InString(true)) else Dead)
      else Begin(s, c)
    case Live(s, Given) => if IsWhite(c) then st else Begin(s, c)
    case Live(s, InString(key)) =>
      if c == '\\' then Live(s, InEscape(key))
      else if c == '"' then Live(s, if key then Named else Done)
      else st
    case Live(s, InEscape(key)) => Live(s, InString(key))
    case Live(s, Named) => if IsWhite(c) then st else if c == ':' then Live(s, Given) else Dead
    case Live(s, Scalar) => if In(NumberRun, c) || In(LetterRun, c) then st else Behind(s, c)
    case Live(s, Done) => Behind(s, c)
  }

  function Run(st: State, w: string): State
    decreases |w|
  {
    if w == "" then st else Run(Read(st, w[0]), w[1..])
  }

  lemma {:induction false} RunAppend(st: State, a: string, b: string)
    ensures Run(st, a + b) == Run(Run(st, a), b)
    decreases |a|
  {
    if a == "" {
      assert a + b == b;
    } else {
      assert (a + b)[1..] == a[1..] + b;
      RunAppend(Read(st, a[0]), a[1..], b);
    }
  }

  /** One byte. */
  lemma RunByte(st: State, c: char)
    ensures Run(st, [c]) == Read(st, c)
  {
    assert [c][1..] == "";
  }

  // ---- Well-formed texts ----

  /** Behind a value, with the brackets s open. */
  predicate Settled(st: State, s: Stack) {
    st.Live? && st.stack == s && (st.mode.Done? || st.mode.Scalar?)
  }

  predicate Ready(st: State) {
    st.Live? && (st.mode.Given? || (st.mode.Want? && !(st.stack.Push? && st.stack.keyed)))
  }

  lemma {:induction false} RunBlank(st: State, w: string)
    requires Blank(w) && st.Live?
    ensures st.mode.Want? || st.mode.Given? || st.mode.Named? ==> Run(st, w) == st
    ensures Settled(st, st.stack) ==> Settled(Run(st, w), st.stack)
    decreases |w|
  {
    if w != "" { RunBlank(if Settled(st, st.stack) then Live(st.stack, Done) else st, w[1..]); }
  }

  lemma {:induction false} RunBody(s: Stack, key: bool, body: string)
    requires IsBody(body)
    ensures Run(Live(s, InString(key)), body) == Live(s, InString(key))
    decreases |body|
  {
    if body != "" {
      if body[0] == '\\' {
        assert body[1..][1..] == body[2..];
        RunBody(s, key, body[2..]);
      } else {
        RunBody(s, key, body[1..]);
      }
    }
  }

  lemma {:induction false} RunScalar(s: Stack, w: string)
    requires AllIn(NumberRun, w) || AllIn(LetterRun, w)
    ensures Run(Live(s, Scalar), w) == Live(s, Scalar)
    decreases |w|
  {
    if w != "" { RunScalar(s, w[1..]); }
  }

  /** A literal from its opening quote to its closing one. */
  lemma RunQuoted(st: State, body: string)
    requires IsBody(body) && st.Live?
    requires Read(st, '"') == Live(st.stack, InString(true)) || Read(st, '"') == Live(st.stack, InString(false))
    ensures Run(st, "\"" + (body + "\"")) == Live(st.stack, if Read(st, '"').mode.isKey then Named else Done)
  {
    RunAppend(st, "\"", body + "\"");
    RunByte(st, '"');
    var key := Read(st, '"').mode.isKey;
    RunAppend(Live(st.stack, InString(key)), body, "\"");
    RunBody(st.stack, key, body);
    RunByte(Live(st.stack, InString(key)), '"');
  }

  lemma {:induction false} RunTree(st: State, t: Tree)
    requires WF(t) && Ready(st)
    ensures Settled(Run(st, Text(t)), st.stack)
    decreases t
  {
    hide Run, Blank;
    match t {
      case Str(body) => RunQuoted(st, body);
      case Num(run) => RunToken(st, run);
      case Lit(run) => RunToken(st, run);
      case Node(keyed, items) =>
        var s := Push(keyed, st.stack);
        RunAppend(st, [Open(keyed)], ItemsText(items) + [Close(keyed)]);
        RunByte(st, Open(keyed));
        RunAppend(Live(s, Want), ItemsText(items), [Close(keyed)]);
        RunItems(st.stack, items, keyed);
        RunByte(Run(Live(s, Want), ItemsText(items)), Close(keyed));
    }
  }

  lemma RunToken(st: State, w: string)
    requires Ready(st) && w != ""
    requires (StartsNumber(w[0]) && AllIn(NumberRun, w)) || (StartsLiteral(w[0]) && AllIn(LetterRun, w))
    ensures Run(st, w) == Live(st.stack, Scalar)
  {
    RunScalar(st.stack, w[1..]);
  }

  lemma {:induction false} RunItems(s: Stack, x: Items, keyed: bool)
    requires WFItems(x, keyed)
    ensures var st := Run(Live(Push(keyed, s), Want), ItemsText(x));
            if x.Empty? then st == Live(Push(keyed, s), Want) else Settled(st, Push(keyed, s))
    decreases x
  {
    hide Run, Text, ElemText;
    var start := Live(Push(keyed, s), Want);
    match x {
      case Empty(blank) => RunBlank(start, blank);
      case Last(e) => RunElem(s, e, keyed);
      case More(e, rest) =>
        RunElem(s, e, keyed);
        RunAppend(start, ElemText(e), "," + ItemsText(rest));
        RunAppend(Run(start, ElemText(e)), ",", ItemsText(rest));
        RunByte(Run(start, ElemText(e)), ',');
        RunItems(s, rest, keyed);
    }
  }

  lemma {:induction false} RunElem(s: Stack, e: Elem, keyed: bool)
    requires WFElem(e, keyed)
    ensures Settled(Run(Live(Push(keyed, s), Want), ElemText(e)), Push(keyed, s))
    decreases e
  {
    hide Run, Text, KeyText, Blank;
    var start := Live(Push(keyed, s), Want);
    RunAppend(start, e.pre, KeyText(e.key) + (Text(e.v) + e.post));
    RunBlank(start, e.pre);
    RunAppend(start, KeyText(e.key), Text(e.v) + e.post);
    RunKey(s, e.key, keyed);
    var ready := Run(start, KeyText(e.key));
    RunAppend(ready, Text(e.v), e.post);
    RunTree(ready, e.v);
    RunBlank(Run(ready, Text(e.v)), e.post);
  }

  lemma RunKey(s: Stack, k: Key, keyed: bool)
    requires WFKey(k) && k.Key? == keyed
    ensures Run(Live(Push(keyed, s), Want), KeyText(k)) == Live(Push(keyed, s), if keyed then Given else Want)
  {
    hide Blank, IsBody;
    var start := Live(Push(keyed, s), Want);
    if keyed {
      hide Run;
      assert KeyText(k) == ("\"" + (k.raw + "\"")) + (k.mid + (":" + k.gap));
      RunAppend(start, "\"" + (k.raw + "\""), k.mid + (":" + k.gap));
      RunQuoted(start, k.raw);
      var named := Live(Push(true, s), Named);
      RunAppend(named, k.mid, ":" + k.gap);
      RunBlank(named, k.mid);
      RunAppend(named, ":", k.gap);
      RunByte(named, ':');
      RunBlank(Live(Push(true, s), Given), k.gap);
    }
  }

  /** The reader settles on whatever the scanner consumes whole. */
  lemma RunWhole(st: State, x: string)
    requires Whole(x) && Ready(st)
    ensures Settled(Run(st, x), st.stack)
  {
    hide Run, Value, Text, Skip, WF;
    ParsedText(x);
    var v := Parsed(x);
    RunAppend(st, v.lead, Text(v.t));
    RunBlank(st, v.lead);
    RunTree(st, v.t);
  }

  lemma RunPart(s: Stack, w: string, keyed: bool)
    requires IsPart(w, keyed)
    ensures Settled(Run(Live(Push(keyed, s), Want), w), Push(keyed, s))
  {
    hide ElemText, WFElem, Run;
    var e :| WFElem(e, keyed) && ElemText(e) == w;
    RunElem(s, e, keyed);
  }

  lemma {:induction false} RunTail(st: State, s: Stack, xs: seq<string>, keyed: bool)
    requires (forall x | x in xs :: IsPart(x, keyed)) && Settled(st, Push(keyed, s))
    ensures Settled(Run(st, Tail(xs)), Push(keyed, s))
    decreases |xs|
  {
    hide IsPart, Run;
    if xs == [] {
      RunNothing(st);
    } else {
      assert xs[0] in xs;
      RunAppend(st, ",", xs[0] + Tail(xs[1..]));
      RunByte(st, ',');
      RunPart(s, xs[0], keyed);
      RunAppend(Live(Push(keyed, s), Want), xs[0], Tail(xs[1..]));
      RunTail(Run(Live(Push(keyed, s), Want), xs[0]), s, xs[1..], keyed);
    }
  }

  lemma RunNothing(st: State)
    ensures Run(st, "") == st
  {}

  // ---- Texts that are cut ----

  lemma {:induction false} RunDead(w: string)
    ensures Run(Dead, w) == Dead
  {
    if w != "" { RunDead(w[1..]); }
  }

  predicate IsFlat(w: string) {
    '{' !in w && '}' !in w && '[' !in w && ']' !in w && '\\' !in w
  }

  /** s with at least n objects open on it. */
  predicate Objects(st: Stack, s: Stack, n: nat) {
    (n == 0 && st == s) || (st.Push? && st.keyed && Objects(st.under, s, if n == 0 then 0 else n - 1))
  }

  /** Dead, or inside at least n objects on s and not behind a backslash. */
  predicate Inside(st: State, s: Stack, n: nat) {
    st.Live? ==> Objects(st.stack, s, n) && !st.mode.InEscape?
  }

  lemma {:induction false} RunFlat(st: State, s: Stack, n: nat, w: string)
    requires IsFlat(w) && Inside(st, s, n)
    ensures Inside(Run(st, w), s, n)
    decreases |w|
  {
    hide Objects;
    if w != "" { RunFlat(Read(st, w[0]), s, n, w[1..]); }
  }

  /** A closing brace leaves one object at most. */
  lemma RunClose(st: State, s: Stack, n: nat)
    requires Inside(st, s, n + 1)
    ensures Inside(Run(st, "}"), s, n)
  {
    RunByte(st, '}');
    if st.Live? { ObjectsLess(st.stack, s, n); }
  }

  lemma {:induction false} ObjectsLess(st: Stack, s: Stack, n: nat)
    requires Objects(st, s, n + 1)
    ensures Objects(st, s, n)
  {
    if n > 0 { ObjectsLess(st.under, s, n - 1); }
  }

  /** A name where a string ends kills the reader. */
  lemma StrayName(st: State, k: string, rest: string)
    requires st.Live? && st.mode.InString? && k != "" && In(LetterRun, k[0])
    ensures Run(st, Name(k) + rest) == Dead
  {
    var w := "\"" + [k[0]];
    assert Name(k) + rest == w + (k[1..] + ("\":" + rest));
    RunAppend(st, w, k[1..] + ("\":" + rest));
    RunAppend(st, "\"", [k[0]]);
    RunByte(st, '"');
    RunByte(Read(st, '"'), k[0]);
    RunDead(k[1..] + ("\":" + rest));
  }

  /** A name where an element starts. */
  lemma RunName(s: Stack, k: string)
    requires IsBody(k)
    ensures Run(Live(Push(true, s), Want), Name(k)) == Live(Push(true, s), Given)
  {
    hide IsBody;
    assert Blank("");
    RunKey(s, Key(k, "", ""), true);
    assert KeyText(Key(k, "", "")) == Name(k);
  }

  /** The opening of a nested object: it opens, or the reader dies. */
  lemma RunOpening(st: State, s: Stack, n: nat, k: string)
    requires Inside(st, s, n) && n > 0 && IsBody(k) && k != "" && In(LetterRun, k[0])
    ensures Inside(Run(st, "," + (Name(k) + "{")), s, n + 1)
    ensures st.Live? && Settled(st, st.stack) ==> Run(st, "," + (Name(k) + "{")) == Live(Push(true, st.stack), Want)
  {
    hide IsBody, Run;
    var behind := Read(st, ',');
    RunAppend(st, ",", Name(k) + "{");
    RunByte(st, ',');
    RunDead(Name(k) + "{");
    if behind.Live? && behind.mode.InString? {
      StrayName(behind, k, "{");
    } else if behind.Live? {
      RunName(st.stack.under, k);
      RunAppend(behind, Name(k), "{");
      RunByte(Live(st.stack, Given), '{');
    }
  }
}
