/** What the index object of a create_table body says to a reader who looks its members up by name. */
module IndexReading {
  import opened Bytes
  import opened Grammar
  import opened Scan
  import opened Strings
  import opened Numbers
  import opened Compose
  import opened Writers
  import opened Lookup
  import opened Indexes
  import opened Reading

  // ---- What is read ----

  ghost predicate ReadsDiskAnn(x: Items, i: Index) {
    TokenIn(x, "r") == Some(if i.r != 0 then i.r else 64) &&
    TokenIn(x, "l") == Some(if i.l != 0 then i.l else 128) &&
    TokenIn(x, "beam_width") == Some(if i.beamWidth != 0 then i.beamWidth else 8) &&
    TokenIn(x, "alpha") == Some(if i.alpha != 0 then i.alpha else 120) &&
    NothingElse(x, ["r", "l", "beam_width", "alpha"])
  }

  ghost predicate ReadsIvf(x: Items, i: Index) {
    TokenIn(x, "nlist") == Some(if i.nlist != 0 then i.nlist else 256) &&
    TokenIn(x, "nprobe") == Some(if i.nprobe != 0 then i.nprobe else 8) &&
    NothingElse(x, ["nlist", "nprobe"])
  }

  ghost predicate ReadsProduct(x: Items, i: Index) {
    TokenIn(x, "training_samples") == Some(if i.trainingSamples != 0 then i.trainingSamples else 256000) &&
    TokenIn(x, "seed") == Some(if i.seed != 0 then i.seed else 11400714819323198485) &&
    TokenIn(x, "rerank_factor") == Some(if i.rerankFactor != 0 then i.rerankFactor else 5) &&
    NothingElse(x, ["training_samples", "seed", "rerank_factor"])
  }

  ghost predicate ReadsMinHash(x: Items, i: Index) {
    TokenIn(x, "permutations") == Some(if i.permutations != 0 then i.permutations else 128) &&
    TokenIn(x, "bands") == Some(if i.bands != 0 then i.bands else 32) &&
    NothingElse(x, ["permutations", "bands"])
  }

  ghost predicate ReadsRange(x: Items, i: Index) {
    TokenIn(x, "epsilon") == Some(if i.epsilon != 0 then i.epsilon else 16) && NothingElse(x, ["epsilon"])
  }

  ghost predicate ReadsGraph(x: Items, i: Index) {
    TokenIn(x, "m") == Some(if i.m != 0 then i.m else 16) &&
    TokenIn(x, "ef_construction") == Some(if i.efConstruction != 0 then i.efConstruction else 64) &&
    TokenIn(x, "ef_search") == Some(if i.efSearch != 0 then i.efSearch else 64) &&
    StringIn(x, "quantization") ==
      Some(match i.quantization case Dense => "dense" case Product => "product" case _ => "binary_sign") &&
    StringIn(x, "algorithm") ==
      match i.algorithm
      case Hnsw => None
      case DiskAnn => Some("diskann")
      case Ivf => Some("ivf")
      case OtherAlgorithm => Some("hnsw")
  }

  /** The ann object: graph numbers, quantization, the algorithm unless it is the default, and the
      tuning of the chosen algorithm and quantization. */
  ghost predicate ReadsAnn(x: Items, i: Index) {
    ReadsGraph(x, i) &&
    (if i.algorithm.DiskAnn? then ObjectIn(x, "diskann").Some? && ReadsDiskAnn(ObjectIn(x, "diskann").value, i)
     else Get(x, "diskann") == None) &&
    (if i.algorithm.Ivf? then ObjectIn(x, "ivf").Some? && ReadsIvf(ObjectIn(x, "ivf").value, i)
     else Get(x, "ivf") == None) &&
    (if i.quantization.Product? then ObjectIn(x, "product").Some? && ReadsProduct(ObjectIn(x, "product").value, i)
     else Get(x, "product") == None) &&
    NothingElse(x, ["m", "ef_construction", "ef_search", "quantization", "algorithm", "diskann", "ivf", "product"])
  }

  /** x holds an object of that name and nothing else. */
  ghost predicate HoldsOnly(x: Items, name: string) {
    ObjectIn(x, name).Some? && NothingElse(x, [name])
  }

  ghost predicate ReadsOptions(o: Items, i: Index)
    requires i.kind.Ann? || i.kind.MinHash? || i.kind.LearnedRange?
  {
    match i.kind
    case Ann => HoldsOnly(o, "ann") && ReadsAnn(ObjectIn(o, "ann").value, i)
    case MinHash => HoldsOnly(o, "minhash") && ReadsMinHash(ObjectIn(o, "minhash").value, i)
    case LearnedRange => HoldsOnly(o, "learned_range") && ReadsRange(ObjectIn(o, "learned_range").value, i)
  }

  predicate HasOptions(i: Index) {
    i.kind.Ann? || i.kind.MinHash? || i.kind.LearnedRange?
  }

  ghost predicate ReadsIndex(x: Items, i: Index) {
    StringIn(x, "name") == Some(if i.name.Some? then i.name.value else "") &&
    NumberIn(x, "column_id") == Some(i.columnId) &&
    StringIn(x, "kind") == Some(match i.kind
                                case Bitmap => "bitmap"
                                case Fm => "fm_index"
                                case Ann => "ann"
                                case LearnedRange => "learned_range"
                                case MinHash => "minhash"
                                case Sparse => "sparse"
                                case OtherKind => "") &&
    StringIn(x, "predicate") == (if i.filter.Some? then Some(i.filter.value) else None) &&
    (if i.kind.Ann? || i.kind.MinHash? || i.kind.LearnedRange? then
       ObjectIn(x, "options").Some? && ReadsOptions(ObjectIn(x, "options").value, i)
     else Get(x, "options") == None) &&
    NothingElse(x, ["name", "column_id", "kind", "predicate", "options"])
  }

  // ---- Objects of numbers ----

  function NumberEntries(names: seq<string>, numbers: seq<nat>): seq<Entry>
    requires |names| == |numbers|
  {
    seq(|names|, k requires 0 <= k < |names| => Entry(true, names[k], Digits(numbers[k])))
  }

  /** An object of printed numbers, read by name. */
  lemma NumbersAreRead(names: seq<string>, numbers: seq<nat>)
    requires |names| == |numbers| && (forall k | 0 <= k < |names| :: IsName(names[k]))
    requires forall i, j | 0 <= i < j < |names| :: names[i] != names[j]
    ensures var text := Obj(EntryTexts(NumberEntries(names, numbers)));
            IsObject(text) && NothingElse(MembersIn(text), names) &&
            forall k | 0 <= k < |names| :: TokenIn(MembersIn(text), names[k]) == Some(numbers[k])
  {
    hide Whole, Parsed, IsName, Digits, EntryItems, EntryTexts, Obj, NothingElse, TokenIn;
    var es := NumberEntries(names, numbers);
    forall k | 0 <= k < |names| ensures IsName(es[k].k) && Whole(es[k].v) && es[k].v == Decimal(numbers[k]) {
      DecimalIsWhole(numbers[k]);
    }
    assert WholeEntries(es) && Distinct(es);
    EntriesAreObject(es);
    OnlyEntries(es, names);
    forall k | 0 <= k < |names| ensures TokenIn(EntryItems(es), names[k]) == Some(numbers[k]) {
      hide WholeEntries, Distinct, NumberIn;
      assert es[k].k == names[k];
      NumberEntry(es, k, numbers[k]);
    }
  }

  function Or0(n: nat, d: nat): nat {
    if n != 0 then n else d
  }

  lemma DiskAnnIsRead(i: Index)
    ensures IsObject(Obj(DiskAnnMembers(i))) && ReadsDiskAnn(MembersIn(Obj(DiskAnnMembers(i))), i)
  {
    hide Member, Digits, Obj, NothingElse, TokenIn, IsName, EntryTexts, Whole, Parsed;
    var names := ["r", "l", "beam_width", "alpha"];
    var numbers := [Or0(i.r, 64), Or0(i.l, 128), Or0(i.beamWidth, 8), Or0(i.alpha, 120)];
    var es := NumberEntries(names, numbers);
    DiskAnnNames();
    ThreeEntries(es[0], es[1], es[2], [es[3]]);
    OneEntry(es[3]);
    assert es == [es[0], es[1], es[2]] + [es[3]];
    assert EntryTexts(es) == DiskAnnMembers(i);
    NumbersAreRead(names, numbers);
    var x := MembersIn(Obj(DiskAnnMembers(i)));
    assert TokenIn(x, names[0]) == Some(numbers[0]) && TokenIn(x, names[1]) == Some(numbers[1]);
    assert TokenIn(x, names[2]) == Some(numbers[2]) && TokenIn(x, names[3]) == Some(numbers[3]);
  }

  lemma IvfIsRead(i: Index)
    ensures IsObject(Obj(IvfMembers(i))) && ReadsIvf(MembersIn(Obj(IvfMembers(i))), i)
  {
    hide Member, Digits, Obj, NothingElse, TokenIn, IsName, EntryTexts, Whole, Parsed;
    var names := ["nlist", "nprobe"];
    var numbers := [Or0(i.nlist, 256), Or0(i.nprobe, 8)];
    var es := NumberEntries(names, numbers);
    TuningNames();
    TwoEntries(es[0], es[1]);
    assert es == [es[0], es[1]];
    assert EntryTexts(es) == IvfMembers(i);
    NumbersAreRead(names, numbers);
    var x := MembersIn(Obj(IvfMembers(i)));
    assert TokenIn(x, names[0]) == Some(numbers[0]) && TokenIn(x, names[1]) == Some(numbers[1]);
  }

  lemma ProductIsRead(i: Index)
    ensures IsObject(Obj(ProductMembers(i))) && ReadsProduct(MembersIn(Obj(ProductMembers(i))), i)
  {
    hide Member, Digits, Obj, NothingElse, TokenIn, IsName, EntryTexts, Whole, Parsed;
    var names := ["training_samples", "seed", "rerank_factor"];
    var numbers := [Or0(i.trainingSamples, 256000), Or0(i.seed, 0x9E37_79B9_7F4A_7C15), Or0(i.rerankFactor, 5)];
    var es := NumberEntries(names, numbers);
    TuningNames();
    JustThree(es[0], es[1], es[2]);
    assert es == [es[0], es[1], es[2]];
    assert EntryTexts(es) == ProductMembers(i);
    NumbersAreRead(names, numbers);
    var x := MembersIn(Obj(ProductMembers(i)));
    assert TokenIn(x, names[0]) == Some(numbers[0]) && TokenIn(x, names[1]) == Some(numbers[1]) && TokenIn(x, names[2]) == Some(numbers[2]);
  }

  lemma MinHashIsRead(i: Index)
    ensures IsObject(Obj(MinHashMembers(i))) && ReadsMinHash(MembersIn(Obj(MinHashMembers(i))), i)
  {
    hide Member, Digits, Obj, NothingElse, TokenIn, IsName, EntryTexts, Whole, Parsed;
    var names := ["permutations", "bands"];
    var numbers := [Or0(i.permutations, 128), Or0(i.bands, 32)];
    var es := NumberEntries(names, numbers);
    OptionNames();
    TwoEntries(es[0], es[1]);
    assert es == [es[0], es[1]];
    assert EntryTexts(es) == MinHashMembers(i);
    NumbersAreRead(names, numbers);
    var x := MembersIn(Obj(MinHashMembers(i)));
    assert TokenIn(x, names[0]) == Some(numbers[0]) && TokenIn(x, names[1]) == Some(numbers[1]);
  }

  lemma RangeIsRead(i: Index)
    ensures IsObject(Obj(RangeMembers(i))) && ReadsRange(MembersIn(Obj(RangeMembers(i))), i)
  {
    hide Member, Digits, Obj, NothingElse, TokenIn, IsName, EntryTexts, Whole, Parsed;
    var names := ["epsilon"];
    var numbers := [Or0(i.epsilon, 16)];
    var es := NumberEntries(names, numbers);
    OptionNames();
    OneEntry(es[0]);
    assert es == [es[0]];
    assert EntryTexts(es) == RangeMembers(i);
    NumbersAreRead(names, numbers);
    var x := MembersIn(Obj(RangeMembers(i)));
    assert TokenIn(x, names[0]) == Some(numbers[0]);
  }

  // ---- The ann object ----

  function AnnEntries(i: Index): seq<Entry> {
    [Entry(true, "m", Tuned(i.m, 16)), Entry(true, "ef_construction", Tuned(i.efConstruction, 64)),
     Entry(true, "ef_search", Tuned(i.efSearch, 64))] +
    [Entry(true, "quantization", Quoted(QuantizationName(i.quantization))),
     Entry(i.algorithm != Hnsw, "algorithm", Quoted(AlgorithmName(i.algorithm))),
     Entry(i.algorithm.DiskAnn?, "diskann", Obj(DiskAnnMembers(i)))] +
    [Entry(i.algorithm.Ivf?, "ivf", Obj(IvfMembers(i))), Entry(i.quantization.Product?, "product", Obj(ProductMembers(i)))]
  }

  lemma AnnEntryTexts(i: Index)
    ensures EntryTexts(AnnEntries(i)) == AnnMembers(i)
  {
    hide Member, Quoted, Tuned, Obj, EntryTexts, DiskAnnMembers, IvfMembers, ProductMembers, QuantizationName, AlgorithmName;
    var es := AnnEntries(i);
    ThreeEntries(es[0], es[1], es[2], [es[3], es[4], es[5]] + [es[6], es[7]]);
    ThreeEntries(es[3], es[4], es[5], [es[6], es[7]]);
    TwoEntries(es[6], es[7]);
    assert es == [es[0], es[1], es[2]] + ([es[3], es[4], es[5]] + [es[6], es[7]]);
    AnnTail(i);
  }

  lemma AnnTail(i: Index)
    ensures var es := AnnEntries(i);
            EntryText(es[5]) + (EntryText(es[6]) + EntryText(es[7])) == TuningMembers(i) + CodebookMembers(i)
    ensures EntryText(AnnEntries(i)[4]) == AlgorithmMembers(i)
  {
    hide Member, Quoted, Tuned, Obj, DiskAnnMembers, IvfMembers, ProductMembers, QuantizationName, AlgorithmName;
  }

  lemma AnnNamesDiffer(i: Index)
    ensures Distinct(AnnEntries(i))
  {
    hide Quoted, Tuned, Obj, DiskAnnMembers, IvfMembers, ProductMembers, QuantizationName, AlgorithmName;
  }

  lemma AnnEntriesAreWhole(i: Index)
    ensures WholeEntries(AnnEntries(i))
  {
    hide Whole, Parsed, IsName, Quoted, Obj, DiskAnnMembers, IvfMembers, ProductMembers, QuantizationName, AlgorithmName;
    hide ReadsDiskAnn, ReadsIvf, ReadsProduct, Digits;
    GraphNames();
    DiskAnnNames();
    TuningNames();
    TunedIsDecimal(i.m, 16);
    TunedIsDecimal(i.efConstruction, 64);
    TunedIsDecimal(i.efSearch, 64);
    QuotedIsWhole(QuantizationName(i.quantization));
    QuotedIsWhole(AlgorithmName(i.algorithm));
    DiskAnnIsRead(i);
    IvfIsRead(i);
    ProductIsRead(i);
  }

  lemma TunedIsDecimal(n: uint64, d: uint64)
    ensures Tuned(n, d) == Decimal(if n != 0 then n else d) && Whole(Tuned(n, d))
  {
    hide Whole, Digits;
    DecimalIsWhole(if n != 0 then n else d);
  }

  lemma AnnIsRead(i: Index)
    ensures IsObject(Obj(AnnMembers(i))) && ReadsAnn(MembersIn(Obj(AnnMembers(i))), i)
  {
    hide Whole, Parsed, EntryItems, WholeEntries, Distinct, Obj, Quoted, Tuned, DiskAnnMembers, IvfMembers, ProductMembers;
    hide AnnMembers, ReadsDiskAnn, ReadsIvf, ReadsProduct, ReadsGraph, NothingElse, Get, ObjectIn, FirstMember, EntryTexts;
    hide QuantizationName, AlgorithmName;
    var es := AnnEntries(i);
    AnnEntryTexts(i);
    AnnNamesDiffer(i);
    AnnEntriesAreWhole(i);
    EntriesAreObject(es);
    OnlyEntries(es, ["m", "ef_construction", "ef_search", "quantization", "algorithm", "diskann", "ivf", "product"]);
    GraphIsRead(i);
    DiskAnnIsRead(i);
    IvfIsRead(i);
    ProductIsRead(i);
    ObjectEntry(es, 5);
    ObjectEntry(es, 6);
    ObjectEntry(es, 7);
    EntryAt(es, 5, AnObject);
    EntryAt(es, 6, AnObject);
    EntryAt(es, 7, AnObject);
  }

  lemma GraphIsRead(i: Index)
    requires WholeEntries(AnnEntries(i)) && Distinct(AnnEntries(i))
    ensures ReadsGraph(EntryItems(AnnEntries(i)), i)
  {
    hide Whole, Parsed, EntryItems, WholeEntries, Distinct, Obj, Quoted, Tuned, DiskAnnMembers, IvfMembers, ProductMembers;
    hide StringIn, TokenIn, NumberIn, Decimal;
    var es := AnnEntries(i);
    TunedIsDecimal(i.m, 16);
    TunedIsDecimal(i.efConstruction, 64);
    TunedIsDecimal(i.efSearch, 64);
    NumberEntry(es, 0, Or0(i.m, 16));
    NumberEntry(es, 1, Or0(i.efConstruction, 64));
    NumberEntry(es, 2, Or0(i.efSearch, 64));
    StringEntry(es, 3, QuantizationName(i.quantization));
    StringEntry(es, 4, AlgorithmName(i.algorithm));
  }

  // ---- The index object ----

  lemma OnlyObjectIsRead(name: string, text: string)
    requires IsName(name) && IsObject(text)
    ensures var outer := Obj([Member(name, text)]);
            IsObject(outer) && HoldsOnly(MembersIn(outer), name) && ObjectIn(MembersIn(outer), name) == Some(MembersIn(text))
  {
    hide Whole, Parsed, IsName, EntryItems, Obj, Member, ObjectIn, EntryTexts;
    var es := [Entry(true, name, text)];
    OneEntry(es[0]);
    assert WholeEntries(es) && Distinct(es);
    EntriesAreObject(es);
    OnlyEntries(es, [name]);
    ObjectEntry(es, 0);
  }

  function OptionsText(i: Index): string {
    match i.kind
    case Ann => Obj([Member("ann", Obj(AnnMembers(i)))])
    case MinHash => Obj([Member("minhash", Obj(MinHashMembers(i)))])
    case LearnedRange => Obj([Member("learned_range", Obj(RangeMembers(i)))])
    case _ => ""
  }

  lemma OptionsAreRead(i: Index)
    requires HasOptions(i)
    ensures IsObject(OptionsText(i)) && ReadsOptions(MembersIn(OptionsText(i)), i)
  {
    hide Whole, Parsed, IsName, Obj, Member, AnnMembers, MinHashMembers, RangeMembers, ReadsAnn, ReadsMinHash, ReadsRange;
    hide ObjectIn, NothingElse;
    OptionNames();
    AnnIsRead(i);
    MinHashIsRead(i);
    RangeIsRead(i);
    OnlyObjectIsRead("ann", Obj(AnnMembers(i)));
    OnlyObjectIsRead("minhash", Obj(MinHashMembers(i)));
    OnlyObjectIsRead("learned_range", Obj(RangeMembers(i)));
  }

  function IndexEntries(i: Index): seq<Entry> {
    [Entry(true, "name", Quoted(OrEmpty(i.name))), Entry(true, "column_id", Decimal(i.columnId)),
     Entry(true, "kind", Quoted(KindName(i.kind)))] +
    [Entry(i.filter.Some?, "predicate", Quoted(OrEmpty(i.filter))), Entry(HasOptions(i), "options", OptionsText(i))]
  }

  lemma IndexEntryTexts(i: Index)
    ensures EntryTexts(IndexEntries(i)) == IndexMembers(i)
  {
    hide Member, Quoted, Decimal, Obj, EntryTexts, AnnMembers, MinHashMembers, RangeMembers, KindName;
    var es := IndexEntries(i);
    ThreeEntries(es[0], es[1], es[2], [es[3], es[4]]);
    TwoEntries(es[3], es[4]);
  }

  lemma IndexEntriesAreWhole(i: Index)
    ensures WholeEntries(IndexEntries(i)) && Distinct(IndexEntries(i))
  {
    hide Whole, Parsed, IsName, Quoted, Decimal, OptionsText, KindName, ReadsOptions;
    IndexNamesDiffer(i);
    hide Distinct;
    HeadNames();
    OptionNames();
    QuotedIsWhole(OrEmpty(i.name));
    DecimalIsWhole(i.columnId);
    QuotedIsWhole(KindName(i.kind));
    QuotedIsWhole(OrEmpty(i.filter));
    if HasOptions(i) { OptionsAreRead(i); }
  }

  lemma IndexNamesDiffer(i: Index)
    ensures Distinct(IndexEntries(i))
  {
    hide Quoted, Decimal, OptionsText, KindName;
  }

  /** An index object whose digits fit, read by name: name, column, kind, predicate, and for the kinds
      that have options every number, with its default where it is zero. */
  lemma IndexIsRead(i: Index)
    requires Fits(i)
    ensures IsObject(IndexWritten(i)) && ReadsIndex(MembersIn(IndexWritten(i)), i)
  {
    hide Whole, Parsed, EntryItems, WholeEntries, Distinct, Obj, Quoted, Decimal, OptionsText, Fits, IndexWritten;
    hide StringIn, NumberIn, TokenIn, ObjectIn, Get, FirstMember, NothingElse, ReadsOptions, EntryTexts;
    var es := IndexEntries(i);
    IndexIsWritten(i);
    IndexEntryTexts(i);
    IndexEntriesAreWhole(i);
    EntriesAreObject(es);
    OnlyEntries(es, ["name", "column_id", "kind", "predicate", "options"]);
    StringEntry(es, 0, OrEmpty(i.name));
    NumberEntry(es, 1, i.columnId);
    StringEntry(es, 2, KindName(i.kind));
    StringEntry(es, 3, OrEmpty(i.filter));
    if HasOptions(i) { OptionsAreRead(i); }
    ObjectEntry(es, 4);
    EntryAt(es, 4, AnObject);
  }
}
