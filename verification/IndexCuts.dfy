/** What a cut fragment does to an index object: the object is one value exactly when its digits fit. */
module IndexCuts {
  import opened Bytes
  import opened Grammar
  import opened Strings
  import opened Numbers
  import opened Compose
  import opened Writers
  import opened Indexes
  import opened Reader

  // ---- Flat members ----

  lemma {:induction false} FlatJoin(xs: seq<string>)
    requires forall x | x in xs :: IsFlat(x)
    ensures IsFlat(Join(xs))
  {
    if |xs| == 1 {
      assert xs[0] in xs;
    } else if |xs| > 1 {
      assert xs[0] in xs;
      FlatJoin(xs[1..]);
    }
  }

  lemma FlatTuned(k: string, n: uint64, d: uint64)
    requires IsFlat(k)
    ensures IsFlat(Member(k, Tuned(n, d)))
  {
    hide Digits;
    var w := Tuned(n, d);
    assert forall k | 0 <= k < |w| :: IsDigit(w[k]);
    assert IsFlat(w);
  }

  lemma FlatDiskAnnNames()
    ensures IsFlat("r") && IsFlat("l") && IsFlat("beam_width") && IsFlat("alpha")
  {}

  lemma FlatSamplesName()
    ensures IsFlat("training_samples")
  {}

  lemma FlatRerankName()
    ensures IsFlat("rerank_factor") && IsFlat("seed")
  {}

  lemma FlatMembers(x: Index)
    ensures IsFlat(Join(DiskAnnMembers(x))) && IsFlat(Join(ProductMembers(x)))
  {
    hide IsFlat, Member, Name, Tuned;
    FlatDiskAnnNames();
    FlatSamplesName();
    FlatRerankName();
    FlatTuned("r", x.r, 64);
    FlatTuned("l", x.l, 128);
    FlatTuned("beam_width", x.beamWidth, 8);
    FlatTuned("alpha", x.alpha, 120);
    FlatTuned("training_samples", x.trainingSamples, 256000);
    FlatTuned("seed", x.seed, 0x9E37_79B9_7F4A_7C15);
    FlatTuned("rerank_factor", x.rerankFactor, 5);
    FlatJoin(DiskAnnMembers(x));
    FlatJoin(ProductMembers(x));
  }

  lemma FlatPrefix(w: string, n: nat)
    requires IsFlat(w) && n <= |w|
    ensures IsFlat(w[..n])
  {}

  // ---- A nested object, whole or cut ----

  /** A cut nested object stays open, a whole one does not. */
  lemma RunNested(st: State, s: Stack, n: nat, k: string, ms: seq<string>)
    requires Inside(st, s, n) && n > 0 && IsBody(k) && k != "" && In(LetterRun, k[0])
    requires IsFlat(Join(ms)) && |k| <= 80
    ensures var f := "," + Member(k, Obj(ms));
            Inside(Run(st, Kept(f)), s, if |f| > SCRATCH then n + 1 else n)
  {
    hide IsFlat, Inside, IsBody, Run, Join;
    var f := "," + Member(k, Obj(ms));
    var opening := "," + (Name(k) + "{");
    var body := Join(ms);
    assert f == opening + (body + "}");
    var c := SCRATCH - |opening|;
    RunOpening(st, s, n, k);
    var within := Run(st, opening);
    if |f| > SCRATCH {
      assert Kept(f) == opening + body[..c];
      RunAppend(st, opening, body[..c]);
      FlatPrefix(body, c);
      RunFlat(within, s, n + 1, body[..c]);
    } else {
      RunAppend(st, opening, body + "}");
      RunAppend(within, body, "}");
      RunFlat(within, s, n + 1, body);
      RunClose(Run(within, body), s, n);
    }
  }

  lemma TuningBodies()
    ensures IsBody("diskann") && IsBody("product")
  {
    NameIsBody("diskann");
    NameIsBody("product");
  }

  // ---- The ann object ----

  lemma InsideLess(st: State, s: Stack, n: nat)
    requires Inside(st, s, n + 1)
    ensures Inside(st, s, n)
  {
    if st.Live? { ObjectsLess(st.stack, s, n); }
  }

  /** Tuning members that fit are settled on. */
  lemma RunTuning(st: State, u: Stack, x: Index)
    requires Settled(st, Push(true, u)) && (x.algorithm.DiskAnn? ==> DiskAnnDigits(x) <= 50)
    ensures Settled(Run(st, TuningWritten(x)), Push(true, u))
  {
    hide Run, DiskAnnMembers, IvfMembers, IsPart, Tail;
    TuningIsWritten(x);
    DiskAnnIsPart(x);
    IvfIsPart(x);
    RunTail(st, u, TuningMembers(x), true);
  }

  /** Behind settled members: the rest of a cut ann object leaves the reader inside four objects. */
  lemma RunCut(st: State, u: Stack, s: Stack, x: Index)
    requires Settled(st, Push(true, u)) && Inside(st, s, 3)
    requires x.kind.Ann? && GraphDigits(x) <= 43 && !Fits(x)
    ensures Inside(Run(st, TuningWritten(x) + CodebookWritten(x)), s, 4)
  {
    hide Run, DiskAnnMembers, ProductMembers, IsFlat, IsBody, Objects, Obj, Member, GraphDigits, DiskAnnDigits, ProductDigits;
    FragmentBounds(x);
    FlatMembers(x);
    TuningBodies();
    var tuned := Run(st, TuningWritten(x));
    RunAppend(st, TuningWritten(x), CodebookWritten(x));
    RunNothing(tuned);
    if x.algorithm.DiskAnn? && DiskAnnDigits(x) > 50 {
      RunNested(st, s, 3, "diskann", DiskAnnMembers(x));
      if x.quantization.Product? {
        RunNested(tuned, s, 4, "product", ProductMembers(x));
        if ProductDigits(x) > 38 { InsideLess(Run(tuned, CodebookWritten(x)), s, 4); }
      }
    } else {
      RunTuning(st, u, x);
      RunNested(tuned, s, 3, "product", ProductMembers(x));
    }
  }

  // ---- The graph numbers ----

  /** The graph fragment up to the last number. */
  function GraphLead(x: Index): string {
    GraphMembers(x)[0] + ("," + (GraphMembers(x)[1] + ("," + Name("ef_search"))))
  }

  function GraphEnd(): string {
    "," + Name("quantization")
  }

  lemma GraphSplit(x: Index)
    ensures GraphFragment(x) == GraphLead(x) + (Tuned(x.efSearch, 64) + GraphEnd())
    ensures |GraphLead(x)| <= 76 && |GraphFragment(x)| <= 112 && |GraphEnd()| == 16
  {
    hide Join, Tuned;
    TunedLength(x.m, 16);
    TunedLength(x.efConstruction, 64);
    TunedLength(x.efSearch, 64);
    var g := GraphMembers(x);
    JoinThree(g[0], g[1], g[2]);
  }

  lemma SearchName()
    ensures IsBody("ef_search")
  {
    NameIsBody("ef_search");
  }

  lemma RunGraphLead(u: Stack, x: Index)
    ensures Run(Live(Push(true, u), Want), GraphLead(x)) == Live(Push(true, u), Given)
  {
    hide Run, IsPart, Member, Name, IsBody;
    var g := GraphMembers(x);
    var start := Live(Push(true, u), Want);
    GraphAreParts(x);
    assert g[0] in g && g[1] in g;
    RunAppend(start, g[0], "," + (g[1] + ("," + Name("ef_search"))));
    RunPart(u, g[0], true);
    assert "," + (g[1] + ("," + Name("ef_search"))) == ("," + g[1]) + ("," + Name("ef_search"));
    var first := Run(start, g[0]);
    RunAppend(first, "," + g[1], "," + Name("ef_search"));
    TailOne(g[1]);
    RunTail(first, u, [g[1]], true);
    var second := Run(first, "," + g[1]);
    RunAppend(second, ",", Name("ef_search"));
    RunByte(second, ',');
    SearchName();
    RunName(u, "ef_search");
  }

  lemma QuantizationIsName(q: Quantization)
    ensures var k := Escaped(QuantizationName(q)); k != "" && In(LetterRun, k[0]) && IsBody(k)
  {
    EscapedIsBody(QuantizationName(q));
    EscapedHead(QuantizationName(q));
  }

  lemma EscapedHead(s: string)
    requires s != "" && In(LetterRun, s[0])
    ensures Escaped(s) != "" && Escaped(s)[0] == s[0]
  {}

  /** A cut inside the last name, or in front of it: the next literal kills the reader. */
  lemma RunTornName(u: Stack, st: State, j: nat, q: string, rest: string)
    requires Settled(st, Push(true, u)) && j < |GraphEnd()|
    requires q != "" && In(LetterRun, q[0]) && IsBody(q)
    requires rest != "" && (rest[0] == ',' || rest[0] == '}')
    ensures Run(Run(st, GraphEnd()[..j]), "\"" + (q + "\"") + rest) == Dead
  {
    hide Run, IsBody;
    var torn := Run(st, GraphEnd()[..j]);
    var s := Push(true, u);
    if j == 0 {
      RunNothing(st);
      assert GraphEnd()[..0] == "";
      DiesAt(st, '"', q + "\"" + rest);
      assert "\"" + (q + "\"") + rest == ['"'] + (q + "\"" + rest);
    } else if j == 1 {
      assert GraphEnd()[..1] == ",";
      RunByte(st, ',');
      RunQuoted(torn, q);
      RunAppend(torn, "\"" + (q + "\""), rest);
      assert rest == [rest[0]] + rest[1..];
      DiesAt(Live(s, Named), rest[0], rest[1..]);
    } else {
      RunTornEnd(u, st, j);
      if j == 15 {
        DiesAt(torn, '"', q + "\"" + rest);
        assert "\"" + (q + "\"") + rest == ['"'] + (q + "\"" + rest);
      } else {
        assert "\"" + (q + "\"") + rest == "\"" + (q + ("\"" + rest));
        ClosesOn(torn, q, "\"" + rest);
      }
    }
  }

  lemma DiesAt(st: State, c: char, rest: string)
    requires Read(st, c) == Dead
    ensures Run(st, [c] + rest) == Dead
  {
    hide Read;
    RunAppend(st, [c], rest);
    RunByte(st, c);
    RunDead(rest);
  }

  /** A quote that ends a key where a literal was meant to start. */
  lemma ClosesOn(st: State, q: string, rest: string)
    requires st.Live? && st.mode == InString(true) && q != "" && In(LetterRun, q[0])
    ensures Run(st, "\"" + (q + rest)) == Dead
  {
    hide Run;
    RunAppend(st, "\"", q + rest);
    RunByte(st, '"');
    assert q + rest == [q[0]] + (q[1..] + rest);
    DiesAt(Live(st.stack, Named), q[0], q[1..] + rest);
  }

  lemma RunTornEnd(u: Stack, st: State, j: nat)
    requires Settled(st, Push(true, u)) && 2 <= j < |GraphEnd()|
    ensures Run(st, GraphEnd()[..j]) == Live(Push(true, u), if j == 15 then Named else InString(true))
  {
    NameIsBody("quantization");
    RunTornMember(u, st, "quantization", j);
  }

  lemma RunTornMember(u: Stack, st: State, name: string, j: nat)
    requires Settled(st, Push(true, u)) && IsBody(name) && '"' !in name && '\\' !in name && 2 <= j < |name| + 4
    ensures Run(st, ("," + Name(name))[..j]) == Live(Push(true, u), if j == |name| + 3 then Named else InString(true))
  {
    hide Run, IsBody;
    var want := Live(Push(true, u), Want);
    var torn := ("," + Name(name))[..j];
    RunByte(st, ',');
    if j == |name| + 3 {
      RunAppend(st, ",", "\"" + (name + "\""));
      assert torn == "," + ("\"" + (name + "\""));
      RunQuoted(want, name);
    } else {
      var begun := name[..j - 2];
      RunAppend(st, ",", "\"" + begun);
      assert torn == "," + ("\"" + begun);
      RunAppend(want, "\"", begun);
      RunByte(want, '"');
      NameIsBody(begun);
      RunBody(Push(true, u), true, begun);
    }
  }

  /** An ann object whose graph numbers are cut kills the reader. */
  lemma RunTornGraph(u: Stack, x: Index, rest: string)
    requires GraphDigits(x) > 43
    requires rest != "" && (rest[0] == ',' || rest[0] == '}')
    ensures Run(Live(Push(true, u), Want), Kept(GraphFragment(x)) + (Quoted(QuantizationName(x.quantization)) + rest)) == Dead
  {
    hide Run, Tuned, GraphFragment, GraphLead, GraphEnd, Escaped, GraphDigits, QuantizationName, IsBody;
    var start := Live(Push(true, u), Want);
    var lead, d, end := GraphLead(x), Tuned(x.efSearch, 64), GraphEnd();
    var q := Escaped(QuantizationName(x.quantization));
    FragmentBounds(x);
    GraphSplit(x);
    RunGraphLead(u, x);
    QuantizationIsName(x.quantization);
    var c := SCRATCH - |lead|;
    var digits := d[..if c < |d| then c else |d|];
    var j := if c < |d| then 0 else c - |d|;
    assert Kept(GraphFragment(x)) == lead + (digits + end[..j]);
    RunAppend(start, Kept(GraphFragment(x)), Quoted(QuantizationName(x.quantization)) + rest);
    RunAppend(start, lead, digits + end[..j]);
    RunAppend(Live(Push(true, u), Given), digits, end[..j]);
    DigitsSettle(u, x, |digits|);
    RunTornName(u, Live(Push(true, u), Scalar), j, q, rest);
  }

  lemma DigitsSettle(u: Stack, x: Index, n: nat)
    requires 0 < n <= |Tuned(x.efSearch, 64)|
    ensures Run(Live(Push(true, u), Given), Tuned(x.efSearch, 64)[..n]) == Live(Push(true, u), Scalar)
  {
    hide Run, Digits;
    var d := Tuned(x.efSearch, 64);
    assert forall k | 0 <= k < |d| :: IsDigit(d[k]);
    RunToken(Live(Push(true, u), Given), d[..n]);
  }

  // ---- The index object ----

  /** A list of members, the first without a comma. */
  lemma RunMembers(s: Stack, ms: seq<string>)
    requires ms != [] && (forall m | m in ms :: IsPart(m, true))
    ensures Settled(Run(Live(Push(true, s), Want), Join(ms)), Push(true, s))
  {
    hide Run, IsPart, Join;
    assert ms[0] in ms && [ms[0]] + ms[1..] == ms;
    JoinIsTail(ms[0], ms[1..]);
    RunAppend(Live(Push(true, s), Want), ms[0], Tail(ms[1..]));
    RunPart(s, ms[0], true);
    RunTail(Run(Live(Push(true, s), Want), ms[0]), s, ms[1..], true);
  }

  lemma OpeningNames()
    ensures IsBody("options") && "options" != "" && In(LetterRun, "options"[0]) && IsBody("ann")
  {
    NameIsBody("options");
    NameIsBody("ann");
  }

  lemma RunAnnOpening(st: State, s: Stack)
    requires Settled(st, Push(true, s))
    ensures Run(st, AnnOpening()) == Live(Push(true, Push(true, Push(true, s))), Want)
  {
    hide Run, Name, IsBody;
    var opening := "," + (Name("options") + "{");
    assert AnnOpening() == opening + (Name("ann") + "{");
    OpeningNames();
    assert Objects(st.stack, s, 1) by { assert Objects(s, s, 0); }
    RunAppend(st, opening, Name("ann") + "{");
    RunOpening(st, s, 1, "options");
    var within := Live(Push(true, Push(true, s)), Want);
    RunAppend(within, Name("ann"), "{");
    RunName(Push(true, s), "ann");
    RunByte(Live(within.stack, Given), '{');
  }

  /** Graph numbers that fit, the quantization and the algorithm are settled on. */
  lemma RunGraph(u: Stack, x: Index)
    requires GraphDigits(x) <= 43
    ensures Settled(
              Run(Live(Push(true, u), Want), Kept(GraphFragment(x)) + (Quoted(QuantizationName(x.quantization)) + Tail(AlgorithmMembers(x)))),
              Push(true, u))
  {
    hide Run, IsPart, Join, GraphMembers, Quoted, QuantizationName, AlgorithmMembers, Tail, GraphFragment, GraphDigits, Member;
    var q := Member("quantization", Quoted(QuantizationName(x.quantization)));
    var ms := GraphMembers(x) + ([q] + AlgorithmMembers(x));
    FragmentBounds(x);
    GraphPieces(x, Tail(AlgorithmMembers(x)));
    SomeMembers(x);
    JoinAppend(GraphMembers(x), [q] + AlgorithmMembers(x));
    TailAppend([q], AlgorithmMembers(x));
    TailOne(q);
    GraphAreParts(x);
    AnnNamesAreParts(x);
    RunMembers(u, ms);
  }

  lemma RunCutAnn(s: Stack, x: Index)
    requires x.kind.Ann? && !Fits(x)
    ensures Inside(Run(Live(Push(true, Push(true, Push(true, s))), Want), AnnWritten(x) + "}}"), s, 2)
  {
    hide Run, GraphFragment, GraphDigits, TuningWritten, CodebookWritten, Quoted, QuantizationName, AlgorithmMembers, Tail, Kept, Fits;
    var u := Push(true, Push(true, s));
    var start := Live(Push(true, u), Want);
    var graph, q := Kept(GraphFragment(x)), Quoted(QuantizationName(x.quantization));
    var alg, more := Tail(AlgorithmMembers(x)), TuningWritten(x) + CodebookWritten(x);
    if GraphDigits(x) > 43 {
      var rest := alg + (more + "}}");
      assert AnnWritten(x) + "}}" == graph + (q + rest);
      RestStarts(x);
      RunTornGraph(u, x, rest);
    } else {
      var settled := graph + (q + alg);
      assert AnnWritten(x) + "}}" == settled + (more + ("}" + "}"));
      RunGraph(u, x);
      var st := Run(start, settled);
      RunAppend(start, settled, more + ("}" + "}"));
      RunAppend(st, more, "}" + "}");
      assert Objects(Push(true, s), s, 1) && Objects(u, s, 2);
      RunCut(st, u, s, x);
      var cut := Run(st, more);
      RunAppend(cut, "}", "}");
      RunClose(cut, s, 3);
      RunClose(Run(cut, "}"), s, 2);
    }
  }

  lemma RestStarts(x: Index)
    ensures var rest := Tail(AlgorithmMembers(x)) + ((TuningWritten(x) + CodebookWritten(x)) + "}}");
            rest != "" && (rest[0] == ',' || rest[0] == '}')
  {
    hide Quoted, DiskAnnMembers, IvfMembers, ProductMembers, Member;
  }

  /** A cut index leaves the reader dead or inside its object. */
  lemma RunCutIndex(st: State, x: Index)
    requires Ready(st) && !Fits(x)
    ensures Inside(Run(st, IndexWritten(x)), st.stack, 1)
  {
    hide Run, HeadMembers, FilterMembers, AnnWritten, AnnOpening, Join, Tail, IsPart, Objects, HeadWritten;
    assert x.kind.Ann?;
    var s := st.stack;
    var head, opening, ann := Join(HeadMembers(x)) + Tail(FilterMembers(x)), AnnOpening(), AnnWritten(x) + "}}";
    HeadIsWritten(x);
    SomeMembers(x);
    JoinAppend(HeadMembers(x), FilterMembers(x));
    HeadAreParts(x);
    assert IndexWritten(x) == "{" + (head + (opening + (ann + "}")));
    RunAppend(st, "{", head + (opening + (ann + "}")));
    RunByte(st, '{');
    var start := Live(Push(true, s), Want);
    RunAppend(start, head, opening + (ann + "}"));
    RunMembers(s, HeadMembers(x) + FilterMembers(x));
    var settled := Run(start, head);
    RunAppend(settled, opening, ann + "}");
    RunAnnOpening(settled, s);
    var within := Live(Push(true, Push(true, Push(true, s))), Want);
    RunAppend(within, ann, "}");
    RunCutAnn(s, x);
    RunClose(Run(within, ann), s, 1);
  }

  /** The index object as written is one value exactly when its digits fit, strictly or not. */
  lemma IndexIsWhole(x: Index, strict: bool := false)
    ensures Whole(IndexWritten(x), strict) <==> Fits(x)
  {
    hide Whole, IndexWritten, IndexText, Fits, Run;
    if Fits(x) {
      IndexIsWritten(x);
      IndexTextIsWhole(x, strict);
    } else {
      RunCutIndex(Live(Bottom, Want), x);
      if Whole(IndexWritten(x), strict) {
        StrictIsWhole(IndexWritten(x), strict);
        RunWhole(Live(Bottom, Want), IndexWritten(x));
      }
    }
  }
}
