/** The relaxed JSON grammar of the skip parser, as concrete syntax trees.

    The grammar is strict about structure and lenient about scalars: a number is any run of
    `0-9+-.eE` that starts with a digit or a minus sign, and a literal is any run of letters and
    underscores that starts with t, f or n.  A tree keeps every byte, white space included, so
    that its text determines it.
 */
module Grammar {
  import opened Bytes

  datatype Class = White | NumberRun | LetterRun

  predicate IsWhite(c: char) { c == ' ' || c == '\t' || c == '\n' || c == '\r' }

  predicate IsDigit(c: char) { '0' <= c <= '9' }

  predicate In(cls: Class, c: char) {
    match cls
    case White => IsWhite(c)
    case NumberRun => IsDigit(c) || c == '-' || c == '+' || c == '.' || c == 'e' || c == 'E'
    case LetterRun => 'a' <= c <= 'z' || 'A' <= c <= 'Z' || c == '_'
  }

  /** The classes and the first bytes of scalars, byte by byte. */
  lemma ByteClasses(c: char)
    ensures In(White, c) <==> c in " \t\n\r"
    ensures In(NumberRun, c) <==> c in "0123456789-+.eE"
    ensures In(LetterRun, c) <==> 0x41 <= c as int <= 0x5A || 0x61 <= c as int <= 0x7A || c as int == 0x5F
    ensures StartsNumber(c) <==> c in "-0123456789"
    ensures StartsLiteral(c) <==> c in "tfn"
  {}

  predicate AllIn(cls: Class, w: string) {
    forall k | 0 <= k < |w| :: In(cls, w[k])
  }

  predicate Blank(w: string) { AllIn(White, w) }

  predicate StartsNumber(c: char) { c == '-' || IsDigit(c) }

  predicate StartsLiteral(c: char) { c == 't' || c == 'f' || c == 'n' }

  /** Bytes that may stand between two quotes: a backslash takes the next byte with it, and no
      other quote occurs. */
  predicate IsBody(b: string) {
    b == "" ||
    (if b[0] == '\\' then |b| >= 2 && IsBody(b[2..]) else b[0] != '"' && IsBody(b[1..]))
  }

  /** Arrays are unkeyed nodes, objects are keyed ones. */
  datatype Tree =
    | Str(body: string)
    | Num(run: string)
    | Lit(run: string)
    | Node(keyed: bool, items: Items)

  datatype Items = Empty(blank: string) | Last(e: Elem) | More(e: Elem, rest: Items)

  datatype Elem = Elem(pre: string, key: Key, v: Tree, post: string)

  /** mid is the white space before the colon, gap the white space after it. */
  datatype Key = NoKey | Key(raw: string, mid: string, gap: string)

  function Open(keyed: bool): char { if keyed then '{' else '[' }

  function Close(keyed: bool): char { if keyed then '}' else ']' }

  function Text(t: Tree): (w: string)
    ensures |w| > 0 || !WF(t)
  {
    match t
    case Str(body) => "\"" + (body + "\"")
    case Num(run) => run
    case Lit(run) => run
    case Node(keyed, items) => [Open(keyed)] + (ItemsText(items) + [Close(keyed)])
  }

  function ItemsText(x: Items): string {
    match x
    case Empty(blank) => blank
    case Last(e) => ElemText(e)
    case More(e, rest) => ElemText(e) + ("," + ItemsText(rest))
  }

  function ElemText(e: Elem): string {
    e.pre + (KeyText(e.key) + (Text(e.v) + e.post))
  }

  function KeyText(k: Key): string {
    match k
    case NoKey => ""
    case Key(raw, mid, gap) => "\"" + (raw + ("\"" + (mid + (":" + gap))))
  }

  predicate WF(t: Tree) {
    match t
    case Str(body) => IsBody(body)
    case Num(run) => run != "" && StartsNumber(run[0]) && AllIn(NumberRun, run)
    case Lit(run) => run != "" && StartsLiteral(run[0]) && AllIn(LetterRun, run)
    case Node(keyed, items) => WFItems(items, keyed)
  }

  predicate WFItems(x: Items, keyed: bool) {
    match x
    case Empty(blank) => Blank(blank)
    case Last(e) => WFElem(e, keyed)
    case More(e, rest) => WFElem(e, keyed) && !rest.Empty? && WFItems(rest, keyed)
  }

  predicate WFElem(e: Elem, keyed: bool) {
    Blank(e.pre) && WFKey(e.key) && e.key.Key? == keyed && WF(e.v) && Blank(e.post)
  }

  predicate WFKey(k: Key) {
    k.Key? ==> IsBody(k.raw) && Blank(k.mid) && Blank(k.gap)
  }
}
