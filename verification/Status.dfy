/** The durable recovery decoder: many fields read one by one from the response and from two nested
    objects, with every string copied into one growing block and resolved at the end. */
module Status {
  import opened Bytes
  import opened Grammar
  import opened Scan
  import opened Buffer
  import opened Strings
  import opened Numbers
  import opened Lookup
  import opened Arena
  import opened Retention
  import opened RoundTrip

  // ---- What is decoded ----

  datatype Hlc = Hlc(physicalMicros: uint64, logical: uint32, nodeTiebreaker: uint32, present: bool)

  const NoHlc := Hlc(0, 0, 0, false)

  /** The numeric and boolean members that the status and its nested objects share.  A Field's ret
      is the paired `_set` flag. */
  datatype Progress = Progress(
    committed: Field<bool>,
    committedStatements: Field<int64>,
    lastCommitEpoch: Field<uint64>,
    firstCommitStatementIndex: Field<int64>,
    lastCommitStatementIndex: Field<int64>,
    completedStatements: Field<int64>,
    statementIndex: Field<int64>,
    lastCommitHlc: Hlc)

  /** S is how strings are held: as offsets, as pointers, or as the strings themselves. */
  datatype Outcome<+S> = Outcome(
    progress: Progress,
    lastCommitEpochText: S,
    serialization: S,
    serializationState: S,
    terminalState: S)

  datatype Status<+S> = Status(
    queryId: S,
    status: S,
    state: S,
    serverState: S,
    terminalState: S,
    lastCommitEpochText: S,
    cancelOutcome: S,
    cancellationReason: S,
    progress: Progress,
    retryable: Field<bool>,
    outcome: Outcome<S>,
    durable: Outcome<S>,
    durableSet: bool)

  const NoProgress := Progress(Field(false, false), Field(false, 0), Field(false, 0), Field(false, 0), Field(false, 0),
                               Field(false, 0), Field(false, 0), NoHlc)

  function NoOutcome<S>(none: S): Outcome<S> {
    Outcome(NoProgress, none, none, none, none)
  }

  function ToUint32(i: int64): uint32 {
    i % 0x1_0000_0000
  }

  function EpochField(f: Field<int64>): Field<uint64> {
    Field(f.ret, ToUint64(f.v))
  }

  // ---- The decoder as a function of the response ----

  /** `parse_commit_hlc` on a span; a NULL span has no bytes. */
  function HlcOf(json: Option<string>): Hlc {
    var text := if json.Some? then json.value else "";
    var physical := NumberField(text, "physical_micros");
    if !physical.ret then NoHlc
    else Hlc(ToUint64(physical.v), ToUint32(NumberField(text, "logical").v),
             ToUint32(NumberField(text, "node_tiebreaker").v), true)
  }

  /** The span passed on: none unless the lookup returned 1. */
  function SpanOf(f: Field<Option<string>>): Option<string> {
    if f.ret then f.v else None
  }

  function ProgressOf(json: string): Progress {
    var hlc := ObjectField(json, "last_commit_hlc");
    Progress(BoolField(json, "committed"),
             NumberField(json, "committed_statements"),
             EpochField(NumberField(json, "last_commit_epoch")),
             NumberField(json, "first_commit_statement_index"),
             NumberField(json, "last_commit_statement_index"),
             NumberField(json, "completed_statements"),
             NumberField(json, "statement_index"),
             if hlc.ret then HlcOf(hlc.v) else NoHlc)
  }

  /** A string member as the caller reads it: up to its first NUL. */
  function StringOf(json: string, key: string): Option<CString> {
    match StringField(json, key).v
    case None => None
    case Some(w) => Some(CStr(w))
  }

  function OutcomeOf(json: Option<string>): Outcome<Option<CString>> {
    if json.None? || json.value == "" then NoOutcome(None) else
      Outcome(ProgressOf(json.value),
              StringOf(json.value, "last_commit_epoch_text"),
              StringOf(json.value, "serialization"),
              StringOf(json.value, "serialization_state"),
              StringOf(json.value, "terminal_state"))
  }

  /** The status before server_state falls back to state. */
  function RawStatusOf(json: string): Status<Option<CString>> {
    Status(StringOf(json, "query_id"), StringOf(json, "status"), StringOf(json, "state"), StringOf(json, "server_state"),
           StringOf(json, "terminal_state"), StringOf(json, "last_commit_epoch_text"),
           StringOf(json, "cancel_outcome"), StringOf(json, "cancellation_reason"),
           ProgressOf(json), BoolField(json, "retryable"),
           OutcomeOf(SpanOf(ObjectField(json, "outcome"))), OutcomeOf(SpanOf(ObjectField(json, "durable"))),
           ObjectField(json, "durable").ret)
  }

  function StatusOf(json: string): Status<Option<CString>> {
    var raw := RawStatusOf(json);
    if raw.serverState.None? then raw.(serverState := raw.state) else raw
  }

  // ---- The decoder ----

  /** What one string and its NUL take at most. */
  const STRING_ROOM: nat := MAX_RESPONSE_BYTES + 1

  /** The block still has room for n strings of a response. */
  predicate RoomFor(blob: Sbuf, n: nat)
    reads blob
  {
    blob.len + n * STRING_ROOM < ROOM
  }

  /** Decodes a string member to the end of the block and returns its offset, SIZE_MAX if there is
      none.  offs and os are what the block already holds. */
  method CopyStringField(json: string, key: string, blob: Sbuf, ghost offs: seq<nat>, ghost os: seq<Option<CString>>)
    returns (off: nat)
    requires blob.Valid() && OffsetsOk(offs, blob.Contents(), os)
    requires |json| <= MAX_RESPONSE_BYTES && RoomFor(blob, 1)
    modifies blob, blob.data
    ensures blob.Valid() && (blob.data == old(blob.data) || fresh(blob.data))
    ensures blob.len <= old(blob.len) + STRING_ROOM
    ensures OffsetsOk(offs + [off], blob.Contents(), os + [StringOf(json, key)])
  {
    hide StringField, StandsAt;
    off := SIZE_MAX;
    var found, tmp, n := GetString(json, key);
    if !found || tmp == null {
      assert StringOf(json, key) == None by { NoneIfNotReturned(json, key); }
      return;
    }
    ghost var was, s := blob.Contents(), CStr(tmp[..n]);
    assert n <= |json| by { StringIsShort(json, key); }
    var base := blob.len;
    var text := CStr(tmp[..n]);
    var ok := blob.Append(text);
    if ok {
      ok := blob.Append([NUL]);
    }
    if ok {
      off := base;
      assert blob.Contents() == was + s + [NUL];
      Appended(was, s, offs, os);
    }
  }

  lemma StringIsShort(json: string, key: string)
    ensures StringField(json, key).v.Some? ==> |StringField(json, key).v.value| <= |json|
  {}

  lemma NoneIfNotReturned(json: string, key: string)
    ensures !StringField(json, key).ret ==> StringField(json, key).v == None
  {}

  lemma Appended(was: string, s: CString, offs: seq<nat>, os: seq<Option<CString>>)
    requires OffsetsOk(offs, was, os) && |was| != SIZE_MAX
    ensures OffsetsOk(offs + [|was|], was + s + [NUL], os + [Some(s)])
  {
    var arena := was + s + [NUL];
    OffsetsStill(offs, was, os, arena);
    assert arena[|was|..|was| + |s|] == s;
  }

  method ParseCommitHlc(json: string) returns (out: Hlc)
    ensures out == HlcOf(Some(json))
  {
    hide NumberField;
    var found, phys := GetNumber(json, "physical_micros");
    if !found {
      return NoHlc;
    }
    var _, logical := GetNumber(json, "logical");
    var _, tie := GetNumber(json, "node_tiebreaker");
    return Hlc(ToUint64(phys), ToUint32(logical), ToUint32(tie), true);
  }

  method ParseProgress(json: string) returns (out: Progress)
    ensures out == ProgressOf(json)
  {
    hide NumberField, BoolField, ObjectField, HlcOf;
    var ok, b := GetBool(json, "committed");
    var ok1, n1 := GetNumber(json, "committed_statements");
    var ok2, n2 := GetNumber(json, "last_commit_epoch");
    var hlc := NoHlc;
    var ok3, sp := GetObjectRaw(json, "last_commit_hlc");
    if ok3 {
      hlc := ParseCommitHlc(if sp.NullSpan? then "" else json[sp.start..sp.start + sp.len]);
    }
    assert HlcOf(Some("")) == HlcOf(None) by { NullHlc(); }
    var ok4, n4 := GetNumber(json, "first_commit_statement_index");
    var ok5, n5 := GetNumber(json, "last_commit_statement_index");
    var ok6, n6 := GetNumber(json, "completed_statements");
    var ok7, n7 := GetNumber(json, "statement_index");
    out := Progress(Field(ok, b), Field(ok1, n1), EpochField(Field(ok2, n2)), Field(ok4, n4), Field(ok5, n5),
                    Field(ok6, n6), Field(ok7, n7), hlc);
  }

  lemma NullHlc()
    ensures HlcOf(Some("")) == HlcOf(None)
  {}

  function OutcomeStrings<S>(o: Outcome<S>): seq<S> {
    [o.lastCommitEpochText, o.serialization, o.serializationState, o.terminalState]
  }

  /** The strings of the status itself, then those of its nested objects. */
  function StatusStrings<S>(st: Status<S>): seq<S> {
    [st.queryId, st.status, st.state, st.serverState, st.terminalState, st.lastCommitEpochText, st.cancelOutcome,
     st.cancellationReason] + OutcomeStrings(st.outcome) + OutcomeStrings(st.durable)
  }

  /** A nested object: its strings go to the block, as offsets. */
  method ParseOutcome(json: Option<string>, blob: Sbuf, ghost offs: seq<nat>, ghost os: seq<Option<CString>>)
    returns (tmp: Outcome<nat>)
    requires blob.Valid() && OffsetsOk(offs, blob.Contents(), os)
    requires (json.Some? ==> |json.value| <= MAX_RESPONSE_BYTES) && RoomFor(blob, 4)
    modifies blob, blob.data
    ensures blob.Valid() && (blob.data == old(blob.data) || fresh(blob.data))
    ensures blob.len <= old(blob.len) + 4 * STRING_ROOM
    ensures tmp.progress == OutcomeOf(json).progress
    ensures OffsetsOk(offs + OutcomeStrings(tmp), blob.Contents(), os + OutcomeStrings(OutcomeOf(json)))
  {
    hide OffsetOk, StringOf, ProgressOf;
    tmp := NoOutcome(SIZE_MAX);
    if json.None? || json.value == "" {
      NoStrings(offs, blob.Contents(), os);
      return;
    }
    var progress := ParseProgress(json.value);
    ghost var f, g := offs, os;
    var text := CopyStringField(json.value, "last_commit_epoch_text", blob, f, g);
    f, g := f + [text], g + [StringOf(json.value, "last_commit_epoch_text")];
    var ser := CopyStringField(json.value, "serialization", blob, f, g);
    f, g := f + [ser], g + [StringOf(json.value, "serialization")];
    var serState := CopyStringField(json.value, "serialization_state", blob, f, g);
    f, g := f + [serState], g + [StringOf(json.value, "serialization_state")];
    var term := CopyStringField(json.value, "terminal_state", blob, f, g);
    f, g := f + [term], g + [StringOf(json.value, "terminal_state")];
    tmp := Outcome(progress, text, ser, serState, term);
    assert f == offs + OutcomeStrings(tmp);
    assert g == os + OutcomeStrings(OutcomeOf(json));
  }

  lemma NoStrings(offs: seq<nat>, arena: string, os: seq<Option<CString>>)
    ensures OffsetsOk(offs, arena, os) ==>
              OffsetsOk(offs + OutcomeStrings(NoOutcome(SIZE_MAX)), arena, os + OutcomeStrings(NoOutcome(None)))
  {}

  /** Decodes a status response.  Every string pointer is live and shows what StatusOf says, and
      everything else equals StatusOf. */
  method DecodeStatus(json: string, blob: Sbuf) returns (out: Status<CharPtr>)
    requires blob.Valid() && |json| <= MAX_RESPONSE_BYTES
    modifies blob
    ensures blob.Valid()
    ensures StringsShown(out, blob.data, blob.Contents(), StatusOf(json))
    ensures forall k | 0 <= k < 16 :: StringRead(StatusStrings(out)[k]) == StatusStrings(StatusOf(json))[k]
    ensures var a := StatusOf(json);
            StringRead(out.queryId) == a.queryId && StringRead(out.status) == a.status && StringRead(out.state) == a.state &&
            StringRead(out.serverState) == a.serverState && StringRead(out.terminalState) == a.terminalState &&
            StringRead(out.lastCommitEpochText) == a.lastCommitEpochText &&
            StringRead(out.cancelOutcome) == a.cancelOutcome && StringRead(out.cancellationReason) == a.cancellationReason
    ensures var a := StatusOf(json).outcome;
            StringRead(out.outcome.lastCommitEpochText) == a.lastCommitEpochText &&
            StringRead(out.outcome.serialization) == a.serialization &&
            StringRead(out.outcome.serializationState) == a.serializationState &&
            StringRead(out.outcome.terminalState) == a.terminalState
    ensures var a := StatusOf(json).durable;
            StringRead(out.durable.lastCommitEpochText) == a.lastCommitEpochText &&
            StringRead(out.durable.serialization) == a.serialization &&
            StringRead(out.durable.serializationState) == a.serializationState &&
            StringRead(out.durable.terminalState) == a.terminalState
    ensures SameNumbers(out, StatusOf(json)) && CommitHlc(out) == CommitHlc(StatusOf(json))
  {
    hide OffsetOk, StringOf, ProgressOf, OutcomeOf, BoolField, ObjectField, StringsShown;
    blob.Free();
    var tmp := ParseStatus(json, blob);
    ResolvedStatus(tmp, blob, RawStatusOf(json));
    out := Resolve(tmp, blob);
    if out.serverState == NullPtr {
      out := out.(serverState := out.state);
    }
    StatusIsRead(out, blob, StatusOf(json));
    StringsByName(out, StatusOf(json));
    SameClock(out, StatusOf(json));
  }

  lemma StatusIsRead(st: Status<CharPtr>, blob: Sbuf, a: Status<Option<CString>>)
    requires blob.Valid() && StringsShown(st, blob.data, blob.Contents(), a)
    ensures forall k | 0 <= k < 16 :: StringRead(StatusStrings(st)[k]) == StatusStrings(a)[k]
  {
    hide StatusStrings, PtrShows;
    StringCount(st);
    StringCount(a);
    forall k | 0 <= k < 16 ensures StringRead(StatusStrings(st)[k]) == StatusStrings(a)[k] {
      ShownIsRead(StatusStrings(st)[k], blob, StatusStrings(a)[k]);
    }
  }

  /** The strings one by one. */
  lemma StringsByName(st: Status<CharPtr>, a: Status<Option<CString>>)
    requires forall k | 0 <= k < 16 :: StringRead(StatusStrings(st)[k]) == StatusStrings(a)[k]
    ensures StringRead(st.queryId) == a.queryId && StringRead(st.status) == a.status && StringRead(st.state) == a.state &&
            StringRead(st.serverState) == a.serverState && StringRead(st.terminalState) == a.terminalState &&
            StringRead(st.lastCommitEpochText) == a.lastCommitEpochText &&
            StringRead(st.cancelOutcome) == a.cancelOutcome && StringRead(st.cancellationReason) == a.cancellationReason
    ensures StringRead(st.outcome.lastCommitEpochText) == a.outcome.lastCommitEpochText &&
            StringRead(st.outcome.serialization) == a.outcome.serialization &&
            StringRead(st.outcome.serializationState) == a.outcome.serializationState &&
            StringRead(st.outcome.terminalState) == a.outcome.terminalState
    ensures StringRead(st.durable.lastCommitEpochText) == a.durable.lastCommitEpochText &&
            StringRead(st.durable.serialization) == a.durable.serialization &&
            StringRead(st.durable.serializationState) == a.durable.serializationState &&
            StringRead(st.durable.terminalState) == a.durable.terminalState
  {
    hide StringRead;
    var p, q := StatusStrings(st), StatusStrings(a);
    assert StringRead(p[0]) == q[0] && StringRead(p[1]) == q[1] && StringRead(p[2]) == q[2] && StringRead(p[3]) == q[3];
    assert StringRead(p[4]) == q[4] && StringRead(p[5]) == q[5] && StringRead(p[6]) == q[6] && StringRead(p[7]) == q[7];
    assert StringRead(p[8]) == q[8] && StringRead(p[9]) == q[9] && StringRead(p[10]) == q[10] && StringRead(p[11]) == q[11];
    assert StringRead(p[12]) == q[12] && StringRead(p[13]) == q[13] && StringRead(p[14]) == q[14] && StringRead(p[15]) == q[15];
  }

  lemma StringCount<S>(st: Status<S>)
    ensures |StatusStrings(st)| == 16
  {}

  /** The clock depends on the numbers only. */
  lemma SameClock<S, T>(a: Status<S>, b: Status<T>)
    requires SameNumbers(a, b)
    ensures CommitHlc(a) == CommitHlc(b)
  {}

  /** Equal up to the strings. */
  predicate SameNumbers<S, T>(a: Status<S>, b: Status<T>) {
    a.progress == b.progress && a.retryable == b.retryable && a.outcome.progress == b.outcome.progress &&
    a.durable.progress == b.durable.progress && a.durableSet == b.durableSet
  }

  ghost predicate StringsShown(st: Status<CharPtr>, live: array<char>, arena: string, a: Status<Option<CString>>) {
    forall k | 0 <= k < 16 :: PtrShows(StatusStrings(st)[k], live, arena, StatusStrings(a)[k])
  }

  /** The first phase: strings are offsets into the block. */
  method ParseStatus(json: string, blob: Sbuf) returns (tmp: Status<nat>)
    requires blob.Valid() && |json| <= MAX_RESPONSE_BYTES && RoomFor(blob, 16)
    modifies blob, blob.data
    ensures blob.Valid()
    ensures OffsetsOk(StatusStrings(tmp), blob.Contents(), StatusStrings(RawStatusOf(json)))
    ensures SameNumbers(tmp, RawStatusOf(json))
  {
    hide OffsetOk, StringOf, ProgressOf, OutcomeOf, BoolField, ObjectField;
    ghost var raw := RawStatusOf(json);
    var queryId, status, state, serverState, terminalState := ParseHead(json, blob);
    ghost var f: seq<nat> := [queryId, status, state, serverState, terminalState];
    ghost var g := [raw.queryId, raw.status, raw.state, raw.serverState, raw.terminalState];
    var progress := ParseProgress(json);
    var text := CopyStringField(json, "last_commit_epoch_text", blob, f, g);
    f, g := f + [text], g + [raw.lastCommitEpochText];
    var cancelOutcome := CopyStringField(json, "cancel_outcome", blob, f, g);
    f, g := f + [cancelOutcome], g + [raw.cancelOutcome];
    var reason := CopyStringField(json, "cancellation_reason", blob, f, g);
    f, g := f + [reason], g + [raw.cancellationReason];
    var okR, retryable := GetBool(json, "retryable");
    var outcome, durable, durableSet := ParseNested(json, blob, f, g);
    tmp := Status(queryId, status, state, serverState, terminalState, text, cancelOutcome, reason, progress,
                  Field(okR, retryable), outcome, durable, durableSet);
    hide RawStatusOf, OffsetsOk;
    AllStrings(tmp, f);
    AllStrings(raw, g);
  }

  lemma AllStrings<S>(st: Status<S>, head: seq<S>)
    requires head == [st.queryId, st.status, st.state, st.serverState, st.terminalState] + [st.lastCommitEpochText] +
                     [st.cancelOutcome] + [st.cancellationReason]
    ensures (head + OutcomeStrings(st.outcome)) + OutcomeStrings(st.durable) == StatusStrings(st)
  {}

  method ParseHead(json: string, blob: Sbuf)
    returns (queryId: nat, status: nat, state: nat, serverState: nat, terminalState: nat)
    requires blob.Valid() && |json| <= MAX_RESPONSE_BYTES && RoomFor(blob, 5)
    modifies blob, blob.data
    ensures blob.Valid() && (blob.data == old(blob.data) || fresh(blob.data))
    ensures blob.len <= old(blob.len) + 5 * STRING_ROOM
    ensures var raw := RawStatusOf(json);
            OffsetsOk([queryId, status, state, serverState, terminalState], blob.Contents(),
                      [raw.queryId, raw.status, raw.state, raw.serverState, raw.terminalState])
  {
    hide OffsetOk, StringOf, ProgressOf, OutcomeOf, BoolField, ObjectField;
    ghost var f, g: seq<Option<CString>> := [], [];
    queryId := CopyStringField(json, "query_id", blob, f, g);
    f, g := f + [queryId], g + [StringOf(json, "query_id")];
    status := CopyStringField(json, "status", blob, f, g);
    f, g := f + [status], g + [StringOf(json, "status")];
    state := CopyStringField(json, "state", blob, f, g);
    f, g := f + [state], g + [StringOf(json, "state")];
    serverState := CopyStringField(json, "server_state", blob, f, g);
    f, g := f + [serverState], g + [StringOf(json, "server_state")];
    terminalState := CopyStringField(json, "terminal_state", blob, f, g);
    f, g := f + [terminalState], g + [StringOf(json, "terminal_state")];
    assert f == [queryId, status, state, serverState, terminalState];
    ghost var raw := RawStatusOf(json);
    assert g == [raw.queryId, raw.status, raw.state, raw.serverState, raw.terminalState];
  }

  method ParseNested(json: string, blob: Sbuf, ghost f: seq<nat>, ghost g: seq<Option<CString>>)
    returns (outcome: Outcome<nat>, durable: Outcome<nat>, durableSet: bool)
    requires blob.Valid() && OffsetsOk(f, blob.Contents(), g)
    requires |json| <= MAX_RESPONSE_BYTES && RoomFor(blob, 8)
    modifies blob, blob.data
    ensures blob.Valid() && (blob.data == old(blob.data) || fresh(blob.data))
    ensures var raw := RawStatusOf(json);
            outcome.progress == raw.outcome.progress && durable.progress == raw.durable.progress && durableSet == raw.durableSet
    ensures OffsetsOk((f + OutcomeStrings(outcome)) + OutcomeStrings(durable), blob.Contents(),
                      (g + OutcomeStrings(RawStatusOf(json).outcome)) + OutcomeStrings(RawStatusOf(json).durable))
  {
    hide OffsetsOk, StringOf, ProgressOf, OutcomeOf, BoolField, ObjectField, OutcomeStrings;
    var ok, sp := GetObjectRaw(json, "outcome");
    outcome := ParseOutcome(if ok then SpanText(json, sp) else None, blob, f, g);
    var ok', sp' := GetObjectRaw(json, "durable");
    durable := ParseOutcome(if ok' then SpanText(json, sp') else None, blob,
                            f + OutcomeStrings(outcome), g + OutcomeStrings(RawStatusOf(json).outcome));
    durableSet := ok';
  }

  function ResolveOutcome(o: Outcome<nat>, blob: Sbuf): Outcome<CharPtr>
    reads blob
  {
    Outcome(o.progress, StringAt(blob, o.lastCommitEpochText), StringAt(blob, o.serialization),
            StringAt(blob, o.serializationState), StringAt(blob, o.terminalState))
  }

  /** The second phase: offsets become pointers. */
  function Resolve(st: Status<nat>, blob: Sbuf): Status<CharPtr>
    reads blob
  {
    Status(StringAt(blob, st.queryId), StringAt(blob, st.status), StringAt(blob, st.state), StringAt(blob, st.serverState),
           StringAt(blob, st.terminalState), StringAt(blob, st.lastCommitEpochText), StringAt(blob, st.cancelOutcome),
           StringAt(blob, st.cancellationReason), st.progress, st.retryable,
           ResolveOutcome(st.outcome, blob), ResolveOutcome(st.durable, blob), st.durableSet)
  }

  lemma ResolvedStatus(st: Status<nat>, blob: Sbuf, raw: Status<Option<CString>>)
    requires blob.Valid() && OffsetsOk(StatusStrings(st), blob.Contents(), StatusStrings(raw))
    ensures var r := Resolve(st, blob);
            StringsShown(if r.serverState == NullPtr then r.(serverState := r.state) else r, blob.data, blob.Contents(),
                         if raw.serverState.None? then raw.(serverState := raw.state) else raw)
  {
    hide OffsetOk, PtrShows, StringAt, StandsAt;
    var r := Resolve(st, blob);
    forall k | 0 <= k < 16 ensures PtrShows(StatusStrings(r)[k], blob.data, blob.Contents(), StatusStrings(raw)[k]) {
      ResolvedAt(st, blob, k);
      OffsetResolves(blob, StatusStrings(st)[k], StatusStrings(raw)[k]);
    }
    NullShows(StatusStrings(r)[3], blob, StatusStrings(raw)[3]);
    var r' := if r.serverState == NullPtr then r.(serverState := r.state) else r;
    var raw' := if raw.serverState.None? then raw.(serverState := raw.state) else raw;
    forall k | 0 <= k < 16 ensures PtrShows(StatusStrings(r')[k], blob.data, blob.Contents(), StatusStrings(raw')[k]) {
      assert PtrShows(StatusStrings(r)[k], blob.data, blob.Contents(), StatusStrings(raw)[k]);
      assert PtrShows(StatusStrings(r)[2], blob.data, blob.Contents(), StatusStrings(raw)[2]);
      if k != 3 {
        assert StatusStrings(r')[k] == StatusStrings(r)[k] && StatusStrings(raw')[k] == StatusStrings(raw)[k];
      }
    }
  }

  lemma NullShows(p: CharPtr, blob: Sbuf, o: Option<CString>)
    requires blob.Valid() && PtrShows(p, blob.data, blob.Contents(), o)
    ensures p == NullPtr <==> o == None
  {}

  lemma ResolvedAt(st: Status<nat>, blob: Sbuf, k: nat)
    requires k < 16
    ensures StatusStrings(Resolve(st, blob))[k] == StringAt(blob, StatusStrings(st)[k])
  {
    hide StringAt;
  }

  // ---- Preferences ----

  /** The commit clock of a status: durable's, else outcome's, else its own. */
  function CommitHlc<S>(st: Status<S>): Option<Hlc> {
    if st.durableSet && st.durable.progress.lastCommitHlc.present then Some(st.durable.progress.lastCommitHlc)
    else if st.outcome.progress.lastCommitHlc.present then Some(st.outcome.progress.lastCommitHlc)
    else if st.progress.lastCommitHlc.present then Some(st.progress.lastCommitHlc)
    else None
  }

  predicate NonEmpty(s: Option<CString>) { s.Some? && s.value != "" }

  /** The serialization state of a status. */
  function SerializationState(st: Status<Option<CString>>): CString {
    if st.durableSet && NonEmpty(st.durable.serializationState) then st.durable.serializationState.value
    else if st.durableSet && NonEmpty(st.durable.serialization) then st.durable.serialization.value
    else if NonEmpty(st.outcome.serializationState) then st.outcome.serializationState.value
    else if NonEmpty(st.outcome.serialization) then st.outcome.serialization.value
    else ""
  }

  // ---- The meaning of a well-formed status ----

  function StringMeaning(x: Items, key: string): Option<CString> {
    match StringIn(x, key)
    case None => None
    case Some(w) => Some(CStr(w))
  }

  function NumberMeaning(x: Items, key: string): Field<int64> {
    Field(!x.Empty?, Or(NumberIn(x, key), 0))
  }

  function BoolMeaning(x: Items, key: string): Field<bool> {
    Field(!x.Empty?, Or(BoolIn(x, key), false))
  }

  /** The clock in the first object-valued last_commit_hlc of an object, unless it is empty. */
  function ClockIn(x: Items): Option<Hlc> {
    match ObjectIn(x, "last_commit_hlc")
    case None => None
    case Some(h) =>
      if h.Empty? then None else
        Some(Hlc(Wrapped64(Or(NumberIn(h, "physical_micros"), 0)), Wrapped32(Or(NumberIn(h, "logical"), 0)),
                 Wrapped32(Or(NumberIn(h, "node_tiebreaker"), 0)), true))
  }

  /** The cast of a signed number to 32 unsigned bits: its 32 low bits. */
  function Wrapped32(i: int64): (r: uint32) {
    i - i / 4294967296 * 4294967296
  }

  lemma CastsWrap(i: int64)
    ensures ToUint64(i) == Wrapped64(i) && ToUint32(i) == Wrapped32(i)
  {
    CastWraps(i);
  }

  function ProgressMeaning(x: Items): Progress {
    Progress(BoolMeaning(x, "committed"),
             NumberMeaning(x, "committed_statements"),
             Field(!x.Empty?, Wrapped64(Or(NumberIn(x, "last_commit_epoch"), 0))),
             NumberMeaning(x, "first_commit_statement_index"),
             NumberMeaning(x, "last_commit_statement_index"),
             NumberMeaning(x, "completed_statements"),
             NumberMeaning(x, "statement_index"),
             Or(ClockIn(x), Hlc(0, 0, 0, false)))
  }

  /** No flag set, every value zero. */
  function NothingSet(): Progress {
    Progress(Field(false, false), Field(false, 0), Field(false, 0), Field(false, 0), Field(false, 0), Field(false, 0),
             Field(false, 0), Hlc(0, 0, 0, false))
  }

  function OutcomeMeaning(o: Option<Items>): Outcome<Option<CString>> {
    match o
    case None => Outcome(NothingSet(), None, None, None, None)
    case Some(x) =>
      Outcome(ProgressMeaning(x), StringMeaning(x, "last_commit_epoch_text"), StringMeaning(x, "serialization"),
              StringMeaning(x, "serialization_state"), StringMeaning(x, "terminal_state"))
  }

  /** Each field is the first member of its name and kind in its own object. */
  function StatusMeaning(x: Items): Status<Option<CString>> {
    var state := StringMeaning(x, "state");
    var server := StringMeaning(x, "server_state");
    Status(StringMeaning(x, "query_id"), StringMeaning(x, "status"), state, if server.None? then state else server,
           StringMeaning(x, "terminal_state"), StringMeaning(x, "last_commit_epoch_text"),
           StringMeaning(x, "cancel_outcome"), StringMeaning(x, "cancellation_reason"),
           ProgressMeaning(x), BoolMeaning(x, "retryable"),
           OutcomeMeaning(ObjectIn(x, "outcome")), OutcomeMeaning(ObjectIn(x, "durable")), !x.Empty?)
  }

  lemma StringOfObject(s: string, x: Items, key: string)
    requires HoldsObject(s, x)
    ensures StringOf(s, key) == StringMeaning(x, key)
  {
    hide HoldsObject, StringField, StringIn;
    StringFieldOf(s, x, key);
  }

  /** A nested object, found through its raw text, holds its members. */
  lemma NestedHolds(s: string, x: Items, key: string)
    requires HoldsObject(s, x)
    ensures ObjectField(s, key).ret == !x.Empty?
    ensures ObjectIn(x, key).None? ==> ObjectField(s, key).v == None
    ensures ObjectIn(x, key).Some? ==>
              ObjectField(s, key).v.Some? && ObjectField(s, key).v.value != "" &&
              HoldsObject(ObjectField(s, key).v.value, ObjectIn(x, key).value)
  {
    hide HoldsObject, ObjectField;
    ObjectFieldOf(s, x, key);
    if ObjectIn(x, key).Some? {
      var y := ObjectIn(x, key).value;
      ObjectIsWF(s, x, key);
      TextHolds(y, "");
      assert Text(Node(true, y)) + "" == Text(Node(true, y));
    }
  }

  lemma ObjectIsWF(s: string, x: Items, key: string)
    requires HoldsObject(s, x) && ObjectIn(x, key).Some?
    ensures WFItems(ObjectIn(x, key).value, true) && !x.Empty?
  {
    hide FirstMember, FindTop, Value, At, Text;
    FindTopIsFirstMember(s, x, key, AnObject);
    FirstMemberKind(x, key, AnObject);
    if x.Empty? { NothingInEmpty(x, key, AnObject); }
  }

  lemma HlcOfObject(s: string, x: Items)
    requires HoldsObject(s, x)
    ensures var hlc := ObjectField(s, "last_commit_hlc");
            (if hlc.ret then HlcOf(hlc.v) else NoHlc) == Or(ClockIn(x), NoHlc)
  {
    hide HoldsObject, ObjectField, NumberField, ObjectIn, NumberIn, ToUint64, Wrapped64, ToUint32, Wrapped32;
    NestedHolds(s, x, "last_commit_hlc");
    var hlc := ObjectField(s, "last_commit_hlc");
    match ObjectIn(x, "last_commit_hlc") {
      case None => EmptyText("physical_micros");
      case Some(h) =>
        NumberFieldOf(hlc.v.value, h, "physical_micros");
        NumberFieldOf(hlc.v.value, h, "logical");
        NumberFieldOf(hlc.v.value, h, "node_tiebreaker");
        FoundInSome(s, x, "last_commit_hlc");
        CastsWrap(Or(NumberIn(h, "physical_micros"), 0));
        CastsWrap(Or(NumberIn(h, "logical"), 0));
        CastsWrap(Or(NumberIn(h, "node_tiebreaker"), 0));
    }
  }

  lemma EmptyText(key: string)
    ensures NumberField("", key) == Field(false, 0)
  {}

  lemma FoundInSome(s: string, x: Items, key: string)
    requires HoldsObject(s, x) && ObjectIn(x, key).Some?
    ensures ObjectField(s, key).ret
  {
    hide HoldsObject, ObjectField;
    NestedHolds(s, x, key);
    ObjectIsWF(s, x, key);
  }

  lemma ProgressOfObject(s: string, x: Items)
    requires HoldsObject(s, x)
    ensures ProgressOf(s) == ProgressMeaning(x)
  {
    hide HoldsObject, ObjectField, NumberField, BoolField, NumberIn, BoolIn, ClockIn, HlcOf, ToUint64, Wrapped64;
    CastsWrap(Or(NumberIn(x, "last_commit_epoch"), 0));
    HlcOfObject(s, x);
    BoolFieldOf(s, x, "committed");
    NumberFieldOf(s, x, "committed_statements");
    NumberFieldOf(s, x, "last_commit_epoch");
    NumberFieldOf(s, x, "first_commit_statement_index");
    NumberFieldOf(s, x, "last_commit_statement_index");
    NumberFieldOf(s, x, "completed_statements");
    NumberFieldOf(s, x, "statement_index");
  }

  lemma OutcomeOfObject(s: string, x: Items, key: string)
    requires HoldsObject(s, x)
    ensures OutcomeOf(SpanOf(ObjectField(s, key))) == OutcomeMeaning(ObjectIn(x, key))
  {
    hide HoldsObject, ObjectField, ObjectIn, ProgressOf, ProgressMeaning, StringOf, StringMeaning;
    NestedHolds(s, x, key);
    if ObjectIn(x, key).Some? {
      FoundInSome(s, x, key);
      var w, y := ObjectField(s, key).v.value, ObjectIn(x, key).value;
      ProgressOfObject(w, y);
      StringOfObject(w, y, "last_commit_epoch_text");
      StringOfObject(w, y, "serialization");
      StringOfObject(w, y, "serialization_state");
      StringOfObject(w, y, "terminal_state");
    }
  }

  /** Decoding a well-formed status yields its meaning: every field comes from the first member of
      its name and kind in its own object, server_state falling back to state. */
  lemma StatusIsMeaning(s: string, x: Items)
    requires HoldsObject(s, x)
    ensures StatusOf(s) == StatusMeaning(x)
  {
    hide HoldsObject, ObjectField, BoolField, BoolIn, ProgressOf, ProgressMeaning, StringOf, StringMeaning, OutcomeOf, OutcomeMeaning;
    ProgressOfObject(s, x);
    BoolFieldOf(s, x, "retryable");
    OutcomeOfObject(s, x, "outcome");
    OutcomeOfObject(s, x, "durable");
    NestedHolds(s, x, "durable");
    StringOfObject(s, x, "query_id");
    StringOfObject(s, x, "status");
    StringOfObject(s, x, "state");
    StringOfObject(s, x, "server_state");
    StringOfObject(s, x, "terminal_state");
    StringOfObject(s, x, "last_commit_epoch_text");
    StringOfObject(s, x, "cancel_outcome");
    StringOfObject(s, x, "cancellation_reason");
  }

  /** An epoch printed as an unsigned integer token, of any length, is read as its value capped at
      2^63 - 1. */
  ghost predicate ReadsEpoch(p: Progress, x: Items) {
    forall w :: HasToken(x, "last_commit_epoch", w) ==>
      Signed(w) >= 0 && p.lastCommitEpoch == Field(true, Min(Signed(w), 9223372036854775807))
  }

  /** No clock object leaves every part zero.  In one, the microseconds are read like an epoch, and the
      other two come through unchanged below 2^32. */
  ghost predicate ReadsClock(p: Progress, x: Items) {
    match ObjectIn(x, "last_commit_hlc")
    case None => p.lastCommitHlc == Hlc(0, 0, 0, false)
    case Some(h) =>
      (forall w :: HasToken(h, "physical_micros", w) ==>
         Signed(w) >= 0 && p.lastCommitHlc.present &&
         p.lastCommitHlc.physicalMicros == Min(Signed(w), 9223372036854775807)) &&
      (forall w :: HasToken(h, "logical", w) && Signed(w) < 4294967296 ==> p.lastCommitHlc.logical == Signed(w)) &&
      (forall w :: HasToken(h, "node_tiebreaker", w) && Signed(w) < 4294967296 ==>
         p.lastCommitHlc.nodeTiebreaker == Signed(w))
  }

  lemma EpochIsRead(x: Items)
    ensures ReadsEpoch(ProgressMeaning(x), x)
  {
    hide HasToken, Signed, NumberIn, BoolIn, ClockIn;
    forall w | HasToken(x, "last_commit_epoch", w)
      ensures Signed(w) >= 0 && ProgressMeaning(x).lastCommitEpoch == Field(true, Min(Signed(w), 9223372036854775807))
    {
      TokenIsRead(x, "last_commit_epoch", w);
      TokenMember(x, "last_commit_epoch", w);
    }
  }

  lemma ClockIsRead(x: Items)
    ensures ReadsClock(ProgressMeaning(x), x)
  {
    hide HasToken, Signed, NumberIn, BoolIn, ObjectIn;
    if ObjectIn(x, "last_commit_hlc").Some? {
      var h := ObjectIn(x, "last_commit_hlc").value;
      var clock := ProgressMeaning(x).lastCommitHlc;
      forall w | HasToken(h, "physical_micros", w)
        ensures Signed(w) >= 0 && clock.present && clock.physicalMicros == Min(Signed(w), 9223372036854775807)
      {
        TokenIsRead(h, "physical_micros", w);
        TokenMember(h, "physical_micros", w);
      }
      forall w | HasToken(h, "logical", w) && Signed(w) < 4294967296 ensures clock.logical == Signed(w) {
        TokenIsRead(h, "logical", w);
        TokenMember(h, "logical", w);
      }
      forall w | HasToken(h, "node_tiebreaker", w) && Signed(w) < 4294967296 ensures clock.nodeTiebreaker == Signed(w) {
        TokenIsRead(h, "node_tiebreaker", w);
        TokenMember(h, "node_tiebreaker", w);
      }
    }
  }

  /** Epochs and clocks, in the status itself and in its two nested objects; a nested object that is
      missing has nothing set. */
  lemma NumbersAreRead(s: string, x: Items)
    requires HoldsObject(s, x)
    ensures ReadsEpoch(StatusOf(s).progress, x) && ReadsClock(StatusOf(s).progress, x)
    ensures match ObjectIn(x, "outcome")
            case Some(y) => ReadsEpoch(StatusOf(s).outcome.progress, y) && ReadsClock(StatusOf(s).outcome.progress, y)
            case None => StatusOf(s).outcome == Outcome(NothingSet(), None, None, None, None)
    ensures match ObjectIn(x, "durable")
            case Some(y) => ReadsEpoch(StatusOf(s).durable.progress, y) && ReadsClock(StatusOf(s).durable.progress, y)
            case None => StatusOf(s).durable == Outcome(NothingSet(), None, None, None, None)
  {
    hide HoldsObject, ObjectIn, ProgressMeaning, StatusOf, ReadsEpoch, ReadsClock, StringMeaning, BoolMeaning;
    StatusIsMeaning(s, x);
    EpochIsRead(x);
    ClockIsRead(x);
    if ObjectIn(x, "outcome").Some? {
      EpochIsRead(ObjectIn(x, "outcome").value);
      ClockIsRead(ObjectIn(x, "outcome").value);
    }
    if ObjectIn(x, "durable").Some? {
      EpochIsRead(ObjectIn(x, "durable").value);
      ClockIsRead(ObjectIn(x, "durable").value);
    }
  }

  /** Anything but an object decodes to a status with nothing in it. */
  lemma StatusOfNoObject(s: string)
    requires !Sees(s, Skip(s, 0), '{')
    ensures StatusOf(s) ==
            Status(None, None, None, None, None, None, None, None, NothingSet(), Field(false, false),
                   Outcome(NothingSet(), None, None, None, None), Outcome(NothingSet(), None, None, None, None), false)
  {
    hide StringField, BoolField, ObjectField, Skip, ProgressOf;
    NoObjectIsRefused(s);
    NoObjectSetsNothing(s);
  }

  lemma NoObjectSetsNothing(s: string)
    requires !Sees(s, Skip(s, 0), '{')
    ensures ProgressOf(s) == NothingSet()
  {
    hide StringField, NumberField, BoolField, ObjectField, Skip, HlcOf;
    NoObjectIsRefused(s);
  }

  /** The clock of a nested object that may be missing. */
  function ClockOf(o: Option<Items>): Option<Hlc> {
    if o.None? then None else ClockIn(o.value)
  }

  function FirstSome<T>(a: Option<T>, b: Option<T>, c: Option<T>): Option<T> {
    if a.Some? then a else if b.Some? then b else c
  }

  /** The clock end to end: from any well-formed status, durable's clock wins over outcome's, and
      outcome's over the top-level one. */
  lemma HlcSelection(s: string, x: Items)
    requires HoldsObject(s, x)
    ensures CommitHlc(StatusOf(s)) ==
            FirstSome(ClockOf(ObjectIn(x, "durable")), ClockOf(ObjectIn(x, "outcome")), ClockIn(x))
  {
    hide HoldsObject, ObjectIn, BoolMeaning, NumberMeaning, StringMeaning, ClockIn, StatusOf;
    StatusIsMeaning(s, x);
    ClockIsPresent(x);
    if ObjectIn(x, "durable").Some? {
      ObjectIsWF(s, x, "durable");
      ClockIsPresent(ObjectIn(x, "durable").value);
    }
    if ObjectIn(x, "outcome").Some? { ClockIsPresent(ObjectIn(x, "outcome").value); }
  }

  lemma ClockIsPresent(x: Items)
    ensures ClockIn(x).Some? ==> ClockIn(x).value.present
  {}

  /** Where a clock object has its numeric `physical_micros`, having a clock is the same as having
      the object. */
  lemma ClockWhenNumeric(x: Items)
    requires ObjectIn(x, "last_commit_hlc").Some? ==> NumberIn(ObjectIn(x, "last_commit_hlc").value, "physical_micros").Some?
    ensures ClockIn(x).Some? <==> ObjectIn(x, "last_commit_hlc").Some?
  {
    hide ObjectIn;
  }

  /** Every clock object that occurs has its numeric `physical_micros`. */
  predicate NumericClock(o: Option<Items>) {
    o.Some? && ObjectIn(o.value, "last_commit_hlc").Some? ==>
      NumberIn(ObjectIn(o.value, "last_commit_hlc").value, "physical_micros").Some?
  }

  function ClockObject(o: Option<Items>): Option<Items> {
    if o.None? then None else ObjectIn(o.value, "last_commit_hlc")
  }

  /** What a clock object says. */
  function ClockOfObject(h: Items): Hlc {
    Hlc(Wrapped64(Or(NumberIn(h, "physical_micros"), 0)), Wrapped32(Or(NumberIn(h, "logical"), 0)),
        Wrapped32(Or(NumberIn(h, "node_tiebreaker"), 0)), true)
  }

  /** The preference order over the objects themselves: if every clock object is numeric, the clock
      is the one in durable's object, else in outcome's, else in the top-level one, else NULL. */
  lemma HlcPreference(s: string, x: Items)
    requires HoldsObject(s, x)
    requires NumericClock(ObjectIn(x, "durable")) && NumericClock(ObjectIn(x, "outcome")) && NumericClock(Some(x))
    ensures var h := FirstSome(ClockObject(ObjectIn(x, "durable")), ClockObject(ObjectIn(x, "outcome")), ClockObject(Some(x)));
            CommitHlc(StatusOf(s)) == if h.None? then None else Some(ClockOfObject(h.value))
  {
    hide HoldsObject, ObjectIn, NumberIn, StatusOf, CommitHlc;
    HlcSelection(s, x);
    ClockWhenNumeric(x);
    if ObjectIn(x, "durable").Some? { ClockWhenNumeric(ObjectIn(x, "durable").value); }
    if ObjectIn(x, "outcome").Some? { ClockWhenNumeric(ObjectIn(x, "outcome").value); }
  }

  function FirstNonEmpty(xs: seq<Option<CString>>): CString {
    if xs == [] then "" else if NonEmpty(xs[0]) then xs[0].value else FirstNonEmpty(xs[1..])
  }

  /** A string of a nested object that may be missing. */
  function StringOfNested(x: Items, nested: string, key: string): Option<CString> {
    if ObjectIn(x, nested).None? then None else StringMeaning(ObjectIn(x, nested).value, key)
  }

  /** The serialization state end to end: the first non-empty of durable's state, durable's
      serialization, outcome's state and outcome's serialization. */
  lemma SerializationSelection(s: string, x: Items)
    requires HoldsObject(s, x)
    ensures SerializationState(StatusOf(s)) ==
            FirstNonEmpty([StringOfNested(x, "durable", "serialization_state"), StringOfNested(x, "durable", "serialization"),
                           StringOfNested(x, "outcome", "serialization_state"), StringOfNested(x, "outcome", "serialization")])
  {
    hide HoldsObject, ObjectIn, BoolMeaning, NumberMeaning, StringMeaning, ClockIn, StatusOf;
    StatusIsMeaning(s, x);
    if ObjectIn(x, "durable").Some? { ObjectIsWF(s, x, "durable"); }
    FirstOfFour(StringOfNested(x, "durable", "serialization_state"), StringOfNested(x, "durable", "serialization"),
      StringOfNested(x, "outcome", "serialization_state"), StringOfNested(x, "outcome", "serialization"));
  }

  lemma FirstOfFour(a: Option<CString>, b: Option<CString>, c: Option<CString>, d: Option<CString>)
    ensures FirstNonEmpty([a, b, c, d]) ==
            if NonEmpty(a) then a.value else if NonEmpty(b) then b.value else if NonEmpty(c) then c.value
            else if NonEmpty(d) then d.value else ""
  {
    assert [a, b, c, d][1..] == [b, c, d] && [b, c, d][1..] == [c, d] && [c, d][1..] == [d] && [d][1..] == [];
    assert FirstNonEmpty([d]) == if NonEmpty(d) then d.value else "";
    assert FirstNonEmpty([c, d]) == if NonEmpty(c) then c.value else FirstNonEmpty([d]);
  }
}
