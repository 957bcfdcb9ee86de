/** The index objects of a create_table request.

    The program prints the numbers of an index through a 96-byte scratch buffer.  `IndexWritten` is
    the text it appends, with what the buffer drops dropped; `IndexText` is the object it means.
 */
module Indexes {
  import opened Bytes
  import opened Grammar
  import opened Scan
  import opened Buffer
  import opened Strings
  import opened Numbers
  import opened Compose
  import opened Writers

  datatype Kind = Bitmap | Fm | Ann | LearnedRange | MinHash | Sparse | OtherKind

  datatype Quantization = BinarySign | Dense | Product | OtherQuantization

  datatype Algorithm = Hnsw | DiskAnn | Ivf | OtherAlgorithm

  /** A number that is zero selects its default. */
  datatype Index = Index(
    name: Option<CString>, columnId: int64, kind: Kind, filter: Option<CString>,
    m: size, efConstruction: size, efSearch: size, quantization: Quantization, algorithm: Algorithm,
    r: size, l: size, beamWidth: size, alpha: uint32,
    nlist: size, nprobe: size,
    trainingSamples: size, seed: uint64, rerankFactor: size,
    permutations: size, bands: size,
    epsilon: size)

  function KindName(k: Kind): CString {
    match k
    case Bitmap => "bitmap"
    case Fm => "fm_index"
    case Ann => "ann"
    case LearnedRange => "learned_range"
    case MinHash => "minhash"
    case Sparse => "sparse"
    case OtherKind => ""
  }

  function QuantizationName(q: Quantization): CString {
    match q
    case Dense => "dense"
    case Product => "product"
    case _ => "binary_sign"
  }

  function AlgorithmName(a: Algorithm): CString {
    match a
    case DiskAnn => "diskann"
    case Ivf => "ivf"
    case _ => "hnsw"
  }

  // ---- The object ----

  /** The digits printed for a number n whose default is d. */
  function Tuned(n: uint64, d: uint64): string {
    Digits(if n != 0 then n else d)
  }

  function GraphMembers(x: Index): seq<string> {
    [Member("m", Tuned(x.m, 16)), Member("ef_construction", Tuned(x.efConstruction, 64)),
     Member("ef_search", Tuned(x.efSearch, 64))]
  }

  function DiskAnnMembers(x: Index): seq<string> {
    [Member("r", Tuned(x.r, 64)), Member("l", Tuned(x.l, 128)), Member("beam_width", Tuned(x.beamWidth, 8)),
     Member("alpha", Tuned(x.alpha, 120))]
  }

  function IvfMembers(x: Index): seq<string> {
    [Member("nlist", Tuned(x.nlist, 256)), Member("nprobe", Tuned(x.nprobe, 8))]
  }

  function ProductMembers(x: Index): seq<string> {
    [Member("training_samples", Tuned(x.trainingSamples, 256000)), Member("seed", Tuned(x.seed, 0x9E37_79B9_7F4A_7C15)),
     Member("rerank_factor", Tuned(x.rerankFactor, 5))]
  }

  function MinHashMembers(x: Index): seq<string> {
    [Member("permutations", Tuned(x.permutations, 128)), Member("bands", Tuned(x.bands, 32))]
  }

  function RangeMembers(x: Index): seq<string> {
    [Member("epsilon", Tuned(x.epsilon, 16))]
  }

  /** The algorithm is named unless it is the default. */
  function AlgorithmMembers(x: Index): seq<string> {
    if x.algorithm != Hnsw then [Member("algorithm", Quoted(AlgorithmName(x.algorithm)))] else []
  }

  function TuningMembers(x: Index): seq<string> {
    match x.algorithm
    case DiskAnn => [Member("diskann", Obj(DiskAnnMembers(x)))]
    case Ivf => [Member("ivf", Obj(IvfMembers(x)))]
    case _ => []
  }

  function CodebookMembers(x: Index): seq<string> {
    if x.quantization.Product? then [Member("product", Obj(ProductMembers(x)))] else []
  }

  function AnnMembers(x: Index): seq<string> {
    GraphMembers(x) + [Member("quantization", Quoted(QuantizationName(x.quantization)))] + AlgorithmMembers(x) +
    TuningMembers(x) + CodebookMembers(x)
  }

  function Nested(name: string, members: seq<string>): string {
    Member("options", Obj([Member(name, Obj(members))]))
  }

  function OptionMembers(x: Index): seq<string> {
    match x.kind
    case Ann => [Nested("ann", AnnMembers(x))]
    case MinHash => [Nested("minhash", MinHashMembers(x))]
    case LearnedRange => [Nested("learned_range", RangeMembers(x))]
    case _ => []
  }

  function FilterMembers(x: Index): seq<string> {
    if x.filter.Some? then [Member("predicate", Quoted(x.filter.value))] else []
  }

  function HeadMembers(x: Index): seq<string> {
    [Member("name", Quoted(OrEmpty(x.name))), Member("column_id", Decimal(x.columnId)),
     Member("kind", Quoted(KindName(x.kind)))]
  }

  function IndexMembers(x: Index): seq<string> {
    HeadMembers(x) + FilterMembers(x) + OptionMembers(x)
  }

  function IndexText(x: Index): string {
    Obj(IndexMembers(x))
  }

  // ---- The text as written ----

  const SCRATCH: nat := 95

  /** What arrives of a fragment printed through the scratch buffer. */
  function Kept(fragment: string): string {
    Cut(fragment, SCRATCH)
  }

  function ColumnFragment(x: Index): string {
    "," + (Member("column_id", Decimal(x.columnId)) + ("," + Name("kind")))
  }

  function GraphFragment(x: Index): string {
    Join(GraphMembers(x)) + ("," + Name("quantization"))
  }

  function DiskAnnFragment(x: Index): string {
    "," + Member("diskann", Obj(DiskAnnMembers(x)))
  }

  function IvfFragment(x: Index): string {
    "," + Member("ivf", Obj(IvfMembers(x)))
  }

  function ProductFragment(x: Index): string {
    "," + Member("product", Obj(ProductMembers(x)))
  }

  function MinHashFragment(x: Index): string {
    "," + Nested("minhash", MinHashMembers(x))
  }

  function RangeFragment(x: Index): string {
    "," + Nested("learned_range", RangeMembers(x))
  }

  function TuningWritten(x: Index): string {
    match x.algorithm
    case DiskAnn => Kept(DiskAnnFragment(x))
    case Ivf => Kept(IvfFragment(x))
    case _ => ""
  }

  function CodebookWritten(x: Index): string {
    if x.quantization.Product? then Kept(ProductFragment(x)) else ""
  }

  function AnnWritten(x: Index): string {
    Kept(GraphFragment(x)) + (Quoted(QuantizationName(x.quantization)) +
      (Tail(AlgorithmMembers(x)) + (TuningWritten(x) + CodebookWritten(x))))
  }

  function AnnOpening(): string {
    "," + (Name("options") + ("{" + (Name("ann") + "{")))
  }

  function OptionsWritten(x: Index): string {
    match x.kind
    case Ann => AnnOpening() + (AnnWritten(x) + "}}")
    case MinHash => Kept(MinHashFragment(x))
    case LearnedRange => Kept(RangeFragment(x))
    case _ => ""
  }

  function HeadWritten(x: Index): string {
    Member("name", Quoted(OrEmpty(x.name))) + (Kept(ColumnFragment(x)) + Quoted(KindName(x.kind)))
  }

  function IndexWritten(x: Index): string {
    "{" + (HeadWritten(x) + (Tail(FilterMembers(x)) + (OptionsWritten(x) + "}")))
  }

  // ---- The writer ----

  method SerializeAnn(out: Sbuf, x: Index)
    requires out.Valid()
    modifies out, out.data
    ensures out.Valid() && (out.data == old(out.data) || fresh(out.data))
    ensures !out.failed ==> !old(out.failed) && out.Contents() == old(out.Contents()) + AnnWritten(x)
  {
    hide GraphFragment, TuningWritten, CodebookWritten, Kept, Quoted, QuantizationName, AlgorithmMembers, Tail;
    ghost var was := out.Contents();
    var ok := out.Append(Kept(GraphFragment(x)));
    JsonEscape(out, QuantizationName(x.quantization));
    SerializeAlgorithm(out, x);
    SerializeTuning(out, x);
    AnnPieces(x, was);
  }

  lemma AnnPieces(x: Index, was: string)
    ensures (((was + Kept(GraphFragment(x))) + Quoted(QuantizationName(x.quantization))) + Tail(AlgorithmMembers(x))) +
            (TuningWritten(x) + CodebookWritten(x)) == was + AnnWritten(x)
  {
    hide Kept, GraphFragment, Quoted, Tail, TuningWritten, CodebookWritten, QuantizationName;
  }

  method SerializeTuning(out: Sbuf, x: Index)
    requires out.Valid()
    modifies out, out.data
    ensures out.Valid() && (out.data == old(out.data) || fresh(out.data))
    ensures !out.failed ==>
              !old(out.failed) && out.Contents() == old(out.Contents()) + (TuningWritten(x) + CodebookWritten(x))
  {
    hide DiskAnnFragment, IvfFragment, CodebookWritten, Kept;
    ghost var was := out.Contents();
    var ok;
    match x.algorithm {
      case DiskAnn => ok := out.Append(Kept(DiskAnnFragment(x)));
      case Ivf => ok := out.Append(Kept(IvfFragment(x)));
      case _ =>
    }
    assert !out.failed ==> out.Contents() == was + TuningWritten(x);
    SerializeCodebook(out, x);
    assert (was + TuningWritten(x)) + CodebookWritten(x) == was + (TuningWritten(x) + CodebookWritten(x));
  }

  method SerializeCodebook(out: Sbuf, x: Index)
    requires out.Valid()
    modifies out, out.data
    ensures out.Valid() && (out.data == old(out.data) || fresh(out.data))
    ensures !out.failed ==> !old(out.failed) && out.Contents() == old(out.Contents()) + CodebookWritten(x)
  {
    hide ProductFragment, Kept;
    if x.quantization.Product? {
      var ok := out.Append(Kept(ProductFragment(x)));
    }
  }

  method SerializeAlgorithm(out: Sbuf, x: Index)
    requires out.Valid()
    modifies out, out.data
    ensures out.Valid() && (out.data == old(out.data) || fresh(out.data))
    ensures !out.failed ==> !old(out.failed) && out.Contents() == old(out.Contents()) + Tail(AlgorithmMembers(x))
  {
    hide Name, Quoted, AlgorithmName;
    if x.algorithm != Hnsw {
      WriteName(out, false, "algorithm");
      JsonEscape(out, AlgorithmName(x.algorithm));
    }
    assert Tail([]) == "";
    TailOne(Name("algorithm") + Quoted(AlgorithmName(x.algorithm)));
  }

  method SerializeAnnOption(out: Sbuf, x: Index)
    requires out.Valid()
    modifies out, out.data
    ensures out.Valid() && (out.data == old(out.data) || fresh(out.data))
    ensures !out.failed ==>
              !old(out.failed) && out.Contents() == old(out.Contents()) + (AnnOpening() + (AnnWritten(x) + "}}"))
  {
    hide AnnWritten, AnnOpening;
    ghost var was := out.Contents();
    var ok := out.Append(AnnOpening());
    SerializeAnn(out, x);
    ok := out.Append("}}");
    assert ((was + AnnOpening()) + AnnWritten(x)) + "}}" == was + (AnnOpening() + (AnnWritten(x) + "}}"));
  }

  method SerializeOptions(out: Sbuf, x: Index)
    requires out.Valid()
    modifies out, out.data
    ensures out.Valid() && (out.data == old(out.data) || fresh(out.data))
    ensures !out.failed ==> !old(out.failed) && out.Contents() == old(out.Contents()) + OptionsWritten(x)
  {
    hide MinHashFragment, RangeFragment, Kept, AnnWritten, AnnOpening;
    var ok;
    match x.kind {
      case Ann => SerializeAnnOption(out, x);
      case MinHash => ok := out.Append(Kept(MinHashFragment(x)));
      case LearnedRange => ok := out.Append(Kept(RangeFragment(x)));
      case _ =>
    }
  }

  method SerializeFilter(out: Sbuf, x: Index)
    requires out.Valid()
    modifies out, out.data
    ensures out.Valid() && (out.data == old(out.data) || fresh(out.data))
    ensures !out.failed ==> !old(out.failed) && out.Contents() == old(out.Contents()) + Tail(FilterMembers(x))
  {
    hide Name, Quoted;
    if x.filter.Some? {
      WriteName(out, false, "predicate");
      JsonEscape(out, x.filter.value);
      TailOne(Name("predicate") + Quoted(x.filter.value));
    }
    assert Tail([]) == "";
  }

  method SerializeHead(out: Sbuf, x: Index)
    requires out.Valid()
    modifies out, out.data
    ensures out.Valid() && (out.data == old(out.data) || fresh(out.data))
    ensures !out.failed ==> !old(out.failed) && out.Contents() == (old(out.Contents()) + "{") + HeadWritten(x)
  {
    hide Name, Quoted, ColumnFragment, Kept, KindName;
    ghost var was := out.Contents() + "{";
    var ok := out.Append("{");
    WriteName(out, true, "name");
    JsonEscape(out, OrEmpty(x.name));
    ok := out.Append(Kept(ColumnFragment(x)));
    JsonEscape(out, KindName(x.kind));
    HeadPieces(x, was);
  }

  lemma HeadPieces(x: Index, was: string)
    ensures (((was + Name("name")) + Quoted(OrEmpty(x.name))) + Kept(ColumnFragment(x))) + Quoted(KindName(x.kind)) ==
            was + HeadWritten(x)
  {
    hide Name, Quoted, ColumnFragment, Kept, KindName;
  }

  method SerializeIndex(out: Sbuf, x: Index)
    requires out.Valid()
    modifies out, out.data
    ensures out.Valid() && (out.data == old(out.data) || fresh(out.data))
    ensures !out.failed ==> !old(out.failed) && out.Contents() == old(out.Contents()) + IndexWritten(x)
  {
    hide HeadWritten, OptionsWritten, FilterMembers, Tail;
    ghost var was := out.Contents();
    SerializeHead(out, x);
    SerializeFilter(out, x);
    SerializeOptions(out, x);
    var ok := out.Append("}");
    IndexPieces(x, was);
  }

  lemma IndexPieces(x: Index, was: string)
    ensures ((((was + "{") + HeadWritten(x)) + Tail(FilterMembers(x))) + OptionsWritten(x)) + "}" == was + IndexWritten(x)
  {
    hide HeadWritten, Tail, FilterMembers, OptionsWritten;
  }

  // ---- What fits ----

  lemma TunedLength(n: uint64, d: uint64)
    ensures |Tuned(n, d)| <= 20
  {
    TenTo19();
    assert Pow10(20) == 10 * Pow10(19);
    DigitsLength(if n != 0 then n else d, 20);
  }

  function GraphDigits(x: Index): nat {
    |Tuned(x.m, 16)| + |Tuned(x.efConstruction, 64)| + |Tuned(x.efSearch, 64)|
  }

  function DiskAnnDigits(x: Index): nat {
    |Tuned(x.r, 64)| + |Tuned(x.l, 128)| + |Tuned(x.beamWidth, 8)| + |Tuned(x.alpha, 120)|
  }

  function ProductDigits(x: Index): nat {
    |Tuned(x.trainingSamples, 256000)| + |Tuned(x.seed, 0x9E37_79B9_7F4A_7C15)| + |Tuned(x.rerankFactor, 5)|
  }

  lemma JoinLengths(a: string, b: string, c: string, d: string)
    ensures |Join([a, b])| == |a| + |b| + 1
    ensures |Join([a, b, c])| == |a| + |b| + |c| + 2
    ensures |Join([a, b, c, d])| == |a| + |b| + |c| + |d| + 3
  {
    JoinOne(d);
    JoinMore([a], b);
    JoinMore([a, b], c);
    JoinMore([a, b, c], d);
    assert [a, b, c] + [d] == [a, b, c, d] && [a, b] + [c] == [a, b, c] && [a] + [b] == [a, b];
    JoinOne(a);
  }

  /** The fragments whose numbers can outgrow the scratch buffer, and exactly when they do. */
  lemma FragmentBounds(x: Index)
    ensures |GraphFragment(x)| <= SCRATCH <==> GraphDigits(x) <= 43
    ensures |DiskAnnFragment(x)| <= SCRATCH <==> DiskAnnDigits(x) <= 50
    ensures |ProductFragment(x)| <= SCRATCH <==> ProductDigits(x) <= 38
  {
    hide Tuned, Join;
    var g, d, p := GraphMembers(x), DiskAnnMembers(x), ProductMembers(x);
    JoinLengths(g[0], g[1], g[2], "");
    JoinLengths(d[0], d[1], d[2], d[3]);
    JoinLengths(p[0], p[1], p[2], "");
  }

  /** The other fragments always fit. */
  lemma SmallFragmentsFit(x: Index)
    ensures |ColumnFragment(x)| <= SCRATCH && |IvfFragment(x)| <= SCRATCH
    ensures |MinHashFragment(x)| <= SCRATCH && |RangeFragment(x)| <= SCRATCH
  {
    hide Tuned, Join, Decimal;
    DecimalLength(x.columnId);
    TunedLength(x.nlist, 256);
    TunedLength(x.nprobe, 8);
    TunedLength(x.permutations, 128);
    TunedLength(x.bands, 32);
    TunedLength(x.epsilon, 16);
    var i, m, e := IvfMembers(x), MinHashMembers(x), RangeMembers(x);
    JoinLengths(i[0], i[1], "", "");
    JoinLengths(m[0], m[1], "", "");
    JoinOne(e[0]);
    JoinOne(Member("minhash", Obj(m)));
    JoinOne(Member("learned_range", Obj(e)));
  }

  /** The digits fit wherever they are printed. */
  predicate Fits(x: Index) {
    x.kind.Ann? ==>
      GraphDigits(x) <= 43 && (x.algorithm.DiskAnn? ==> DiskAnnDigits(x) <= 50) &&
      (x.quantization.Product? ==> ProductDigits(x) <= 38)
  }

  lemma TuningIsWritten(x: Index)
    requires x.algorithm.DiskAnn? ==> DiskAnnDigits(x) <= 50
    ensures TuningWritten(x) == Tail(TuningMembers(x))
  {
    hide DiskAnnMembers, IvfMembers, Member, Obj, Tail, DiskAnnDigits;
    FragmentBounds(x);
    SmallFragmentsFit(x);
    TailOne(Member("diskann", Obj(DiskAnnMembers(x))));
    TailOne(Member("ivf", Obj(IvfMembers(x))));
    TailNothing();
  }

  lemma NothingIsCut(x: Index)
    requires Fits(x)
    ensures x.kind.Ann? ==> Kept(GraphFragment(x)) == GraphFragment(x)
    ensures x.kind.Ann? ==> TuningWritten(x) == Tail(TuningMembers(x)) && CodebookWritten(x) == Tail(CodebookMembers(x))
    ensures Kept(MinHashFragment(x)) == MinHashFragment(x) && Kept(RangeFragment(x)) == RangeFragment(x)
  {
    hide GraphFragment, ProductMembers, MinHashFragment, RangeFragment, TuningWritten, TuningMembers;
    hide Member, Obj, Tail, GraphDigits, DiskAnnDigits, ProductDigits;
    FragmentBounds(x);
    SmallFragmentsFit(x);
    if x.kind.Ann? { TuningIsWritten(x); }
    TailOne(Member("product", Obj(ProductMembers(x))));
    TailNothing();
  }

  lemma SomeMembers(x: Index)
    ensures GraphMembers(x) != [] && HeadMembers(x) != []
  {}

  lemma AnnIsWritten(x: Index)
    requires Fits(x) && x.kind.Ann?
    ensures AnnWritten(x) == Join(AnnMembers(x))
  {
    hide Join, Tail, GraphMembers, Quoted, AlgorithmMembers, TuningMembers, CodebookMembers, TuningWritten, CodebookWritten;
    hide GraphFragment, Fits, Kept, Name, QuantizationName;
    NothingIsCut(x);
    var q := Member("quantization", Quoted(QuantizationName(x.quantization)));
    var more := AlgorithmMembers(x) + (TuningMembers(x) + CodebookMembers(x));
    SomeMembers(x);
    assert AnnMembers(x) == GraphMembers(x) + ([q] + more);
    JoinAppend(GraphMembers(x), [q] + more);
    TailAppend([q], more);
    TailOne(q);
    TailAppend(AlgorithmMembers(x), TuningMembers(x) + CodebookMembers(x));
    TailAppend(TuningMembers(x), CodebookMembers(x));
    GraphPieces(x, Tail(more));
  }

  lemma GraphPieces(x: Index, rest: string)
    ensures GraphFragment(x) + (Quoted(QuantizationName(x.quantization)) + rest) ==
            Join(GraphMembers(x)) + (("," + Member("quantization", Quoted(QuantizationName(x.quantization)))) + rest)
  {
    hide Join, GraphMembers, Quoted, Name, QuantizationName;
  }

  lemma OptionsAreWritten(x: Index)
    requires Fits(x)
    ensures OptionsWritten(x) == Tail(OptionMembers(x))
  {
    hide Fits, AnnWritten, AnnMembers, MinHashMembers, RangeMembers, Kept, Tail, Nested, AnnOpening;
    NothingIsCut(x);
    TailNothing();
    if x.kind.Ann? {
      AnnIsWritten(x);
      AnnPlace(AnnMembers(x));
      TailOne(Nested("ann", AnnMembers(x)));
    }
    TailOne(Nested("minhash", MinHashMembers(x)));
    TailOne(Nested("learned_range", RangeMembers(x)));
  }

  lemma AnnPlace(members: seq<string>)
    ensures AnnOpening() + (Join(members) + "}}") == "," + Nested("ann", members)
  {
    hide Join, Name;
    var inner := "{" + (Join(members) + "}");
    assert Nested("ann", members) == Name("options") + ("{" + ((Name("ann") + inner) + "}")) by {
      hide Join;
      JoinOne(Name("ann") + inner);
    }
  }

  /** What is written is the object, if the digits fit. */
  lemma IndexIsWritten(x: Index)
    requires Fits(x)
    ensures IndexWritten(x) == IndexText(x)
  {
    hide Fits, Tail, Join, FilterMembers, OptionMembers, OptionsWritten, HeadWritten, HeadMembers;
    OptionsAreWritten(x);
    HeadIsWritten(x);
    SomeMembers(x);
    assert IndexMembers(x) == HeadMembers(x) + (FilterMembers(x) + OptionMembers(x));
    JoinAppend(HeadMembers(x), FilterMembers(x) + OptionMembers(x));
    TailAppend(FilterMembers(x), OptionMembers(x));
  }

  lemma HeadIsWritten(x: Index)
    ensures HeadWritten(x) == Join(HeadMembers(x))
  {
    hide Join, Quoted, Name, Decimal, KindName;
    SmallFragmentsFit(x);
    JoinThree(Member("name", Quoted(OrEmpty(x.name))), Member("column_id", Decimal(x.columnId)),
      Member("kind", Quoted(KindName(x.kind))));
  }

  // ---- One value ----

  lemma Tunable(k: string, n: uint64, d: uint64, strict: bool := false)
    requires IsName(k)
    ensures IsPart(Member(k, Tuned(n, d)), true, strict)
  {
    hide Whole, IsPart, Member, IsName, Digits;
    var v := if n != 0 then n else d;
    assert Tuned(n, d) == Decimal(v);
    DecimalIsWhole(v, strict);
    PlainMember(k, Tuned(n, d), strict);
  }

  lemma GraphNames()
    ensures IsName("m") && IsName("ef_construction") && IsName("ef_search") && IsName("quantization") && IsName("algorithm")
  {}

  lemma DiskAnnNames()
    ensures IsName("r") && IsName("l") && IsName("beam_width") && IsName("alpha") && IsName("diskann")
  {}

  lemma TuningNames()
    ensures IsName("nlist") && IsName("nprobe") && IsName("ivf")
    ensures IsName("training_samples") && IsName("seed") && IsName("rerank_factor") && IsName("product")
  {}

  lemma OptionNames()
    ensures IsName("options") && IsName("ann") && IsName("minhash") && IsName("learned_range")
    ensures IsName("permutations") && IsName("bands") && IsName("epsilon")
  {}

  lemma HeadNames()
    ensures IsName("name") && IsName("column_id") && IsName("kind") && IsName("predicate")
  {}

  lemma DiskAnnIsPart(x: Index, strict: bool := false)
    ensures IsPart(Member("diskann", Obj(DiskAnnMembers(x))), true, strict)
  {
    hide Whole, IsPart, Member, IsName, Tuned, Obj;
    DiskAnnNames();
    Tunable("r", x.r, 64, strict);
    Tunable("l", x.l, 128, strict);
    Tunable("beam_width", x.beamWidth, 8, strict);
    Tunable("alpha", x.alpha, 120, strict);
    ObjIsWhole(DiskAnnMembers(x), strict);
    PlainMember("diskann", Obj(DiskAnnMembers(x)), strict);
  }

  lemma IvfIsPart(x: Index, strict: bool := false)
    ensures IsPart(Member("ivf", Obj(IvfMembers(x))), true, strict)
  {
    hide Whole, IsPart, Member, IsName, Tuned, Obj;
    TuningNames();
    Tunable("nlist", x.nlist, 256, strict);
    Tunable("nprobe", x.nprobe, 8, strict);
    ObjIsWhole(IvfMembers(x), strict);
    PlainMember("ivf", Obj(IvfMembers(x)), strict);
  }

  lemma ProductIsPart(x: Index, strict: bool := false)
    ensures IsPart(Member("product", Obj(ProductMembers(x))), true, strict)
  {
    hide Whole, IsPart, Member, IsName, Tuned, Obj;
    TuningNames();
    Tunable("training_samples", x.trainingSamples, 256000, strict);
    Tunable("seed", x.seed, 0x9E37_79B9_7F4A_7C15, strict);
    Tunable("rerank_factor", x.rerankFactor, 5, strict);
    ObjIsWhole(ProductMembers(x), strict);
    PlainMember("product", Obj(ProductMembers(x)), strict);
  }

  lemma GraphAreParts(x: Index, strict: bool := false)
    ensures forall w | w in GraphMembers(x) :: IsPart(w, true, strict)
  {
    hide Whole, IsPart, Member, IsName, Tuned;
    GraphNames();
    Tunable("m", x.m, 16, strict);
    Tunable("ef_construction", x.efConstruction, 64, strict);
    Tunable("ef_search", x.efSearch, 64, strict);
  }

  lemma AnnNamesAreParts(x: Index, strict: bool := false)
    ensures IsPart(Member("quantization", Quoted(QuantizationName(x.quantization))), true, strict)
    ensures forall w | w in AlgorithmMembers(x) :: IsPart(w, true, strict)
  {
    hide Whole, IsPart, Member, IsName, Quoted, QuantizationName, AlgorithmName;
    GraphNames();
    QuotedIsWhole(QuantizationName(x.quantization), strict);
    PlainMember("quantization", Quoted(QuantizationName(x.quantization)), strict);
    QuotedIsWhole(AlgorithmName(x.algorithm), strict);
    PlainMember("algorithm", Quoted(AlgorithmName(x.algorithm)), strict);
  }

  lemma AnnIsWhole(x: Index, strict: bool := false)
    ensures Whole(Obj(AnnMembers(x)), strict)
  {
    hide Whole, IsPart, Member, GraphMembers, DiskAnnMembers, IvfMembers, ProductMembers, AlgorithmMembers, Obj, Quoted;
    hide QuantizationName;
    GraphAreParts(x, strict);
    AnnNamesAreParts(x, strict);
    DiskAnnIsPart(x, strict);
    IvfIsPart(x, strict);
    ProductIsPart(x, strict);
    ObjIsWhole(AnnMembers(x), strict);
  }

  lemma NestedIsPart(name: string, members: seq<string>, strict: bool := false)
    requires IsName(name) && Whole(Obj(members), strict)
    ensures IsPart(Nested(name, members), true, strict)
  {
    hide Whole, IsPart, Member, IsName, Obj;
    OptionNames();
    PlainMember(name, Obj(members), strict);
    ObjIsWhole([Member(name, Obj(members))], strict);
    PlainMember("options", Obj([Member(name, Obj(members))]), strict);
  }

  lemma OptionsAreParts(x: Index, strict: bool := false)
    ensures forall w | w in OptionMembers(x) :: IsPart(w, true, strict)
  {
    hide Whole, IsPart, Member, IsName, AnnMembers, Obj, Nested, Tuned;
    OptionNames();
    match x.kind {
      case Ann =>
        AnnIsWhole(x, strict);
        NestedIsPart("ann", AnnMembers(x), strict);
      case MinHash =>
        Tunable("permutations", x.permutations, 128, strict);
        Tunable("bands", x.bands, 32, strict);
        ObjIsWhole(MinHashMembers(x), strict);
        NestedIsPart("minhash", MinHashMembers(x), strict);
      case LearnedRange =>
        Tunable("epsilon", x.epsilon, 16, strict);
        ObjIsWhole(RangeMembers(x), strict);
        NestedIsPart("learned_range", RangeMembers(x), strict);
      case _ =>
    }
  }

  lemma HeadAreParts(x: Index, strict: bool := false)
    ensures forall w | w in HeadMembers(x) :: IsPart(w, true, strict)
    ensures forall w | w in FilterMembers(x) :: IsPart(w, true, strict)
  {
    hide Whole, IsPart, Member, IsName, Quoted, Decimal, KindName;
    HeadNames();
    QuotedIsWhole(OrEmpty(x.name), strict);
    PlainMember("name", Quoted(OrEmpty(x.name)), strict);
    DecimalIsWhole(x.columnId, strict);
    PlainMember("column_id", Decimal(x.columnId), strict);
    QuotedIsWhole(KindName(x.kind), strict);
    PlainMember("kind", Quoted(KindName(x.kind)), strict);
    if x.filter.Some? {
      QuotedIsWhole(x.filter.value, strict);
      PlainMember("predicate", Quoted(x.filter.value), strict);
    }
  }

  lemma IndexTextIsWhole(x: Index, strict: bool := false)
    ensures Whole(IndexText(x), strict)
  {
    hide Whole, IsPart, HeadMembers, FilterMembers, OptionMembers, Obj;
    HeadAreParts(x, strict);
    OptionsAreParts(x, strict);
    ObjIsWhole(IndexMembers(x), strict);
  }
}
