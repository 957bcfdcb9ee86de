# A verified model of the MongrelDB C client's JSON codec

`src/mongreldb.c` is the client library of a database daemon. Everything it sends and receives is JSON that the file
writes and reads by hand: append-only writers over a growing buffer, a recursive skip parser that builds no tree, key
lookups that walk an object, and decoders that store offsets into growing arrays and turn them into pointers when nothing
moves any more. This project models that codec in Dafny and proves what it is for: that the parser accepts exactly its
grammar, that written bodies are single values, and JSON, and determine what they encode, that results read back as they were
written, and that no pointer handed to the caller is stale.

## How it is organised

| files | what they hold |
|---|---|
| `Bytes`, `Grammar`, `Scan`, `Parser` | bytes and C strings; the relaxed JSON grammar as concrete syntax trees; the recursive descent as functions on a buffer; the cursor methods of the skip parser |
| `Rfc8259` | the grammar of RFC 8259 as a part of the relaxed one |
| `Buffer`, `Arena` | the growing buffer, how often it moves, the download callback; offsets into a growing block and the pointers they become |
| `Strings`, `Numbers`, `NumberTokens` | escaping and unescaping; printing and reading integers through fixed scratch buffers; tokens with fractions, exponents or more digits than the buffers hold |
| `Lookup`, `Retention`, `Status` | the four object walkers, and the decoders built on them |
| `QueryDecode`, `QueryClient` | what a query response means, and the decoder with its four arrays and its arena |
| `TableNames` | the table list |
| `Compose`, `Writers`, `Wire`, `Transaction`, `RoundTrip` | texts put together from parts; values, cells, transactions; what is read back |
| `Requests`, `Indexes`, `Schema` | query, retrieve_text and create_table bodies |
| `Reading`, `RequestReading`, `IndexReading`, `SchemaReading`, `TxnReading` | what each body says to a reader who parses it and looks its members up by their literal names |
| `Reader`, `IndexCuts` | a byte-by-byte reader with a stack of brackets, and what a truncated index fragment does to a body |

Every method is proved equal to a function on its input (`Value`, `Find`, `DecodeQuery`, `StatusOf`, the `...Text`
functions). The theorems are about those functions: parsing against syntax trees, decoding against a meaning of the tree
(`QueryOf`, `FirstMember`, `StatusMeaning`), writing against reading: each request body is parsed again and every member is
found under its name with the value that was given.

## Modelling choices

- A byte is a Dafny `char`; the client never depends on a byte being below 256. A C string (`CString`) has no NUL. A NULL
  pointer is `None`.
- A pointer into a growing block is the block together with an offset, so a pointer taken before a reallocation differs
  from one into the live block.
- `realloc` is granted as long as the requested size is at most `PTRDIFF_MAX`. A refusal sets the ghost field `failed` of
  the buffer. Writers ignore most refusals, as the program does, so their contracts speak of the text when none happened.
  The decoders are proved never to be refused on bodies within the download cap.
- A finite double is the number of RFC 8259 that `%.17g` prints for it, of at most 24 bytes. An `int` used as a flag that
  is only set to 0 or 1 is a `bool`.
- The four walkers repeat one loop; the model has it once (`FindMember`), followed by the four different endings. The two
  copies of the unescape loop are one method (`UnescapeInto`). The comma and member-name literals of the writers are
  appended by shared helpers (`Separate`, `WriteName`), and long loops have their turns in methods of their own.
- The comments on the walkers say that they return 1 if the field was present. The code returns 1 for a missing field of
  any non-empty object. The model follows the code, and `ReturnMeansPresent` says exactly when the comment is right. The
  `_set` flags and `durable_set` inherit this.
- `json_serialize_index` prints numbers through a 96-byte buffer that three of its fragments can outgrow. The model keeps
  the cut (`IndexWritten`), and `FragmentBounds`, `IndexIsWhole` and `TableIsWhole` say exactly when it breaks a body.
- `mongreldb_table_names` does not unescape; `NamesReadBack` says exactly which names come back.
- The well-formedness theorems have a parameter `strict`. Without it, a text is whole if the client's own parser consumes it
  exactly to its end; with it, its value must also follow RFC 8259. Each theorem holds for both, with the same demand on the
  caller's raw fragments.

## Model

| member | source | states |
|---|---|---|
| `Buffer.Sbuf.Reserve` | src/mongreldb.c:45-70 | room is made for the extra bytes and a NUL, with no size computation wrapping; the contents stay, and a refusal changes nothing; sizes up to 2^62 are always granted |
| `Buffer.Sbuf.Append` | src/mongreldb.c:72-88 | the contents become the old contents followed by the bytes, with a NUL behind; capacity stays 64 or below twice what is needed; a refused append changes nothing |
| `Buffer.AppendByteByByte` | src/mongreldb.c:45-88 | a run of one-byte appends to a new buffer is never refused, leaves exactly those bytes and a NUL, and moves the buffer as often as the growth rule says |
| `Buffer.MovesAreLogarithmic` | src/mongreldb.c:45-70 | by that rule k appends move the buffer 1 + ceil(log2((k+1)/64)) times, once below 64 |
| `Buffer.WriteCallback` | src/mongreldb.c:1001-1015 | a download never passes 268435456 bytes, and a chunk is refused exactly when it would |
| `Parser.JsonParser.SkipString` | src/mongreldb.c:426-440 | succeeds exactly if the literal is closed, and stops right behind the first quote that no backslash takes |
| `Parser.JsonParser.SkipArray` | src/mongreldb.c:465-490 | succeeds exactly on the grammar's arrays and stops behind the bracket |
| `Parser.JsonParser.SkipObject` | src/mongreldb.c:492-531 | succeeds exactly on the grammar's objects and stops behind the brace |
| `Parser.JsonParser.SkipValue` | src/mongreldb.c:533-548 | succeeds exactly where the grammar has a value and stops right behind it; terminates through the mutual recursion |
| `Grammar.ByteClasses` | src/mongreldb.c:412-463 | the white space, number and literal bytes and the first bytes of scalars, listed byte by byte |
| `Scan.ScannerExact` | src/mongreldb.c:406-548 | the scanner yields a tree ending at q if and only if the tree is well formed, its text runs from the first non-white byte to q, and a number or literal cannot be extended |
| `Scan.Unambiguous` | src/mongreldb.c:406-548 | no byte string is the text of two trees |
| `Scan.WholeExact` | src/mongreldb.c:406-548 | being consumed whole is the same as being white space and the text of one value |
| `Rfc8259.AcceptsJson` | src/mongreldb.c:401-548 | every JSON text of RFC 8259 is accepted, with its value as the result and only white space left |
| `Rfc8259.JsonTextExact` | src/mongreldb.c:401-548 | a text is JSON if and only if the scanner accepts it up to trailing white space and every number, literal, string and key it met is one of RFC 8259 |
| `Rfc8259.JsonByScalars` | src/mongreldb.c:401-548 | a tree of the relaxed grammar is JSON if and only if its tokens are: the structure is as strict as the RFC's |
| `Rfc8259.RelaxedIsWider` | src/mongreldb.c:454-463 | every run of letters and underscores that starts with t, f or n is accepted whole, and is JSON if and only if it is true, false or null |
| `Rfc8259.TeaIsAccepted` | src/mongreldb.c:454-463 | one such run, `tea`, is accepted and is no JSON |
| `Strings.UnescapeOne` | src/mongreldb.c:602-632 | one turn of the unescape loop writes what it read denotes, never more bytes than it read, and nothing before them |
| `Strings.UnescapeInto` | src/mongreldb.c:597-633 | the destination holds the unescaped bytes, never more than the literal had, and a NUL; bytes before them stay |
| `Strings.JsonEscape` | src/mongreldb.c:167-190 | appends the string as a JSON literal |
| `Strings.UnescapeEscaped` | src/mongreldb.c:167-190 | unescaping undoes escaping, for every byte string |
| `Strings.HexDigits` | src/mongreldb.c:178-181 | control bytes are printed with the lower-case hexadecimal digits, and both cases are read with their values |
| `Strings.LiteralRoundTrip` | src/mongreldb.c:426-440 | a written literal delimits itself: whatever follows, the scanner stops right behind it, and its bytes unescape to the string |
| `Strings.AgreesWithRfc8259` | src/mongreldb.c:595-633 | on every literal of RFC 8259, section 7, the result is the text it denotes if and only if no `\u` escape is at or above U+0080 |
| `Strings.NonAsciiEscapeIsDropped` | src/mongreldb.c:615-626 | a literal whose only escape is above ASCII comes out empty |
| `Numbers.DigitCounts` | src/mongreldb.c:200-204 | printed numbers are decimal notation: each digit is the one its place calls for |
| `Numbers.DecimalRoundTrip` | src/mongreldb.c:200-204 | every int64 that is printed reads back as itself, whatever non-digit follows |
| `Numbers.TruncationUnobservable` | src/mongreldb.c:693-705 | for an integer token of any length, a scratch buffer of at least 21 bytes gives the value clamped to int64: cutting cannot be observed |
| `Numbers.DecimalLength` | src/mongreldb.c:200-204 | no printed int64 outgrows its buffer |
| `Lookup.FindMember` | src/mongreldb.c:573-647 | the walker loop finds what the specification finds and stops at its value |
| `Lookup.GetString` | src/mongreldb.c:561-648 | the unescaped value of the field, NULL if there is none, and the return value of the code |
| `Lookup.GetNumber` | src/mongreldb.c:652-719 | the integer read from the first 63 bytes of the field's number token, clamped to int64; 0 if there is none |
| `NumberTokens.NumberFieldOfToken` | src/mongreldb.c:693-706 | for any number of RFC 8259, of any length, that integer is its integer part, clamped: a fraction and an exponent are ignored |
| `NumberTokens.ExponentIsIgnored` | src/mongreldb.c:693-706 | the number `1e3` is delivered as 1 |
| `Lookup.GetBool` | src/mongreldb.c:817-867 | the truth value of the field, 0 if there is none |
| `Lookup.GetObjectRaw` | src/mongreldb.c:724-782 | the raw span of the field's object, NULL if there is none |
| `Lookup.FindIsFirstMember` | src/mongreldb.c:573-647 | scanning finds the first member whose raw key and kind match |
| `Lookup.WalkersSeeDepthOne` | src/mongreldb.c:561-867 | all four walkers deliver the first top-level member with that raw key and a value of their kind, never one from a nested object or a string; they return 1 exactly on non-empty objects |
| `Lookup.ReturnMeansPresent` | src/mongreldb.c:646-651 | the return value says whether the field is present if and only if the object is empty or has the field |
| `Lookup.MissingIsReportedFound` | src/mongreldb.c:717-717 | a body on which a missing number is reported as found |
| `Lookup.NoObjectIsRefused` | src/mongreldb.c:565-567 | on a body that is no object all four walkers return 0 and deliver nothing |
| `Lookup.TopMissingExact` | src/mongreldb.c:637-646 | whatever the body, a walker reports a missing field as found if and only if the body is a complete, well-formed, non-empty object without it |
| `QueryDecode.DecodeIsMeaning` | src/mongreldb.c:1913-2180 | on every well-formed response the decoder's answer is the meaning of its tree: the first top-level rows array, every cells array of each row, pairs in order, and an error exactly when that shape is missing |
| `QueryDecode.PairIs` | src/mongreldb.c:2025-2090 | for any text: an id, an optional comma, and a value |
| `QueryDecode.NoObjectHasNoRows` | src/mongreldb.c:1921-1929 | a response that is no object, or an empty one, is no error and has no rows |
| `QueryDecode.NoRowsArray` | src/mongreldb.c:1930-1967 | any other response is no error without rows if and only if it is a complete, well-formed object without a rows array; one that breaks off is an error |
| `QueryDecode.FoundArrayIsClosed` | src/mongreldb.c:1969-2180 | a rows array that is accepted ends with its bracket where the decoder stops |
| `Arena.OffsetResolves` | src/mongreldb.c:809-815 | a stored offset resolves to a pointer into the live block at the string it was stored for, SIZE_MAX to NULL |
| `QueryClient.ParseScalarInto` | src/mongreldb.c:882-997 | accepts exactly the grammar's values, yields the tagged value of the tree, and only adds to the arena |
| `QueryClient.ParseString` | src/mongreldb.c:885-938 | the unescaped string stands in the arena at the stored offset |
| `QueryClient.ParseNumber` | src/mongreldb.c:944-972 | the token's first 63 bytes decide: INT64, clamped, without a point and an exponent among them; otherwise DOUBLE with that text |
| `NumberTokens.TagByFirstBytes` | src/mongreldb.c:951-971 | a cell is INT64 if and only if no point and no exponent stands in the first 63 bytes of its token |
| `NumberTokens.CutIsUnseen` | src/mongreldb.c:951-971 | for a number of RFC 8259 the cell is what the whole token would give if and only if the token has at most 63 bytes or neither fraction nor exponent |
| `NumberTokens.LatePoint` | src/mongreldb.c:951-971 | 63 ones, a point and a one give the largest INT64 instead of a DOUBLE |
| `QueryClient.ParseRaw` | src/mongreldb.c:974-994 | a nested object or array stands in the arena byte for byte |
| `QueryClient.Client.GrowCells` | src/mongreldb.c:2049-2082 | both cell arrays have room for one more cell, and all stored cells and offsets survive |
| `QueryClient.Client.DecodePair` | src/mongreldb.c:2025-2090 | one id and value are stored behind the ones before, or refused exactly when malformed |
| `QueryClient.Client.DecodeCellList` | src/mongreldb.c:2024-2102 | a cells array adds exactly its cells, in order |
| `QueryClient.Client.DecodeRow` | src/mongreldb.c:1981-2136 | a row object adds the cells of all its cells arrays; other members are skipped |
| `QueryClient.Client.RecordRow` | src/mongreldb.c:2143-2169 | the row's count and first-cell offset are recorded, and all earlier ones survive growth |
| `QueryClient.Client.DecodeRows` | src/mongreldb.c:1979-2180 | all rows and cells are held by the four arrays and the arena |
| `QueryClient.Client.ResolveRows` | src/mongreldb.c:2188-2192 | every row points at the offset recorded for it, empty rows at NULL |
| `QueryClient.Client.ResolveCells` | src/mongreldb.c:2193-2205 | every string and JSON cell points into the live arena at the bytes written when it was parsed |
| `QueryClient.Client.DecodeResponse` | src/mongreldb.c:1898-2207 | MDB_ERR_JSON exactly when the specification says so; otherwise count and truncated flag are delivered, and what the caller reads through `rows[r].cells[k]`, pointers followed, is exactly the specified rows |
| `QueryClient.Client.DeliveredSlices` | src/mongreldb.c:2188-2192 | the delivered rows point at consecutive, disjoint slices that cover exactly the cells; empty rows point nowhere |
| `Wire.SerializeValue` | src/mongreldb.c:192-229 | the value's text is appended; NaN, infinities, NULL and unknown tags give null |
| `Wire.SerializeCells` | src/mongreldb.c:232-246 | the flat id, value, id, value array is appended |
| `Wire.ValueIsWhole` | src/mongreldb.c:192-229 | no value ever makes invalid JSON: what is written is one value, and RFC 8259 JSON, provided raw JSON is |
| `Wire.ValueReadsBack` | src/mongreldb.c:192-229 | every written value is one JSON value that decodes to what was written, up to a double's tag |
| `Wire.CompoundReadsBack` | src/mongreldb.c:974-994 | raw JSON comes back byte for byte if and only if it is an object or an array without outer white space |
| `RoundTrip.QueryRoundTrip` | src/mongreldb.c:1898-2207 | decoding a response whose cells arrays were written by the cell writer gives the same rows, ids and values in order, and the truncated flag, whatever follows the body |
| `RoundTrip.TagExactReadsBack` | src/mongreldb.c:192-229 | NULL, BOOL (as 0 or 1), INT64, STRING and raw JSON objects and arrays come back with their tag |
| `RoundTrip.NullsReadBack` | src/mongreldb.c:205-227 | an unknown tag, a NULL pointer to raw JSON, NaN and the infinities are written as null and come back as NULL |
| `RoundTrip.DoubleKeepsTag` | src/mongreldb.c:957-967 | a double comes back as the same text if its text has a point or an exponent, and otherwise as the INT64 it reads as |
| `RoundTrip.DoubleOneBecomesInt64` | src/mongreldb.c:957-967 | the double 1 comes back as the INT64 1 |
| `RoundTrip.UnknownTopMember` | src/mongreldb.c:1930-1964 | inserting any member other than rows and truncated at top level, at any position, changes no result |
| `RoundTrip.UnknownRowMember` | src/mongreldb.c:2116-2132 | inserting any member other than cells in any row, at any position, changes no result |
| `Transaction.SerializeOp` | src/mongreldb.c:1679-1724 | the operation's object is appended |
| `Transaction.CommitBody` | src/mongreldb.c:1665-1731 | no body without operations; MDB_ERR_INVALID_ARG exactly if some operation is unknown; otherwise the transaction's text |
| `TxnReading.TxnIsRead` | src/mongreldb.c:1671-1731 | the tree of the body, read by literal names, means exactly the operations in order and the key: a put is a put of its table and cells, and so are upsert, delete and delete_by_pk |
| `Transaction.TxnIsWhole` | src/mongreldb.c:1671-1731 | the body is one value, consumed exactly to its end, if every raw fragment is; and RFC 8259 JSON if every raw fragment is |
| `Transaction.TxnDetermined` | src/mongreldb.c:1671-1731 | any two valid transactions have the same body if and only if they agree in tables, ids, value texts and key, up to NULL table = "", empty update cells = none and empty key = NULL |
| `Transaction.TxnInjective` | src/mongreldb.c:1671-1731 | without doubles and raw scalars, two lists of operations and keys with the same body are equal up to NULL table = "", empty update cells = none, empty key = NULL and non-zero bool = 1 |
| `Retention.SetBody` | src/mongreldb.c:1473-1480 | prints the body, and reports -1 exactly when it and its NUL do not fit |
| `Retention.SetBodyIsRead` | src/mongreldb.c:1473-1480 | the PUT body is an object whose only member, history_retention_epochs, is the number given |
| `Retention.SetBodyFits` | src/mongreldb.c:1509-1512 | the caller's 96 bytes always suffice |
| `Retention.Decode` | src/mongreldb.c:1482-1494 | decodes both members, or MDB_ERR_QUERY exactly when a walker returns 0 |
| `Retention.RetentionOfObject` | src/mongreldb.c:1482-1494 | any non-empty object is accepted, and the two members are read by name, cast to 64 unsigned bits; a missing or non-numeric one decodes as zero |
| `Retention.RetentionOfNoObject` | src/mongreldb.c:1482-1494 | anything but an object is refused |
| `Retention.EpochBound` | src/mongreldb.c:1482-1494 | unsigned integer tokens of any length under history_retention_epochs and earliest_retained_epoch decode to min(value, 2^63-1) |
| `Retention.EchoedEpoch` | src/mongreldb.c:1473-1494 | an echoed epoch reads back unchanged if and only if it is below 2^63 |
| `Retention.SetBodyReadsBack` | src/mongreldb.c:1473-1494 | decoding the PUT body itself gives the capped epoch and zero |
| `Status.CopyStringField` | src/mongreldb.c:788-806 | the string stands in the block at the returned offset, SIZE_MAX if there is none; earlier offsets stay good |
| `Status.ParseOutcome` | src/mongreldb.c:2294-2350 | a nested outcome's fields, with strings as offsets that stay good |
| `Status.DecodeStatus` | src/mongreldb.c:2362-2473 | all sixteen string pointers are into the final block and show their strings, although it moved while it was filled; followed, each of them reads as the specified string of its own field; every number, flag and the preferred clock is the specification's |
| `Status.StatusIsMeaning` | src/mongreldb.c:2362-2473 | on a well-formed status every field is the first member of its name and kind in its own object, server_state falling back to state; epochs and clocks are the 64 and 32 bits of the numbers read, and a missing nested object has nothing set |
| `Status.NumbersAreRead` | src/mongreldb.c:2268-2350 | in the status, outcome and durable: an epoch or physical_micros printed as an unsigned token is read as min(value, 2^63-1), logical and node_tiebreaker below 2^32 unchanged, and what is missing as zero and unset |
| `Status.StatusOfNoObject` | src/mongreldb.c:2362-2473 | anything but an object decodes to a status with nothing in it |
| `Status.HlcSelection` | src/mongreldb.c:2527-2542 | the commit clock after decoding is durable's, else outcome's, else the top-level one, else NULL |
| `Status.ClockWhenNumeric` | src/mongreldb.c:2268-2282 | where physical_micros is numeric, a clock is present exactly if its object is |
| `Status.HlcPreference` | src/mongreldb.c:2527-2542 | if every clock object has a numeric physical_micros, the clock after decoding is the one in durable's object, else in outcome's, else in the top-level one, else NULL |
| `Status.SerializationSelection` | src/mongreldb.c:2544-2566 | the serialization state after decoding is the first non-empty of durable's two strings and outcome's two |
| `TableNames.Names.TakeName` | src/mongreldb.c:1359-1395 | a literal's raw bytes are stored behind the ones before, with its offset in the next slot |
| `TableNames.Names.Finish` | src/mongreldb.c:1408-1422 | a NULL slot follows the names, and every slot points into the final block |
| `TableNames.Names.Decode` | src/mongreldb.c:1343-1424 | MDB_ERR_JSON exactly when the specification says so; otherwise one live pointer a name, in order, that reads as exactly that name, and a NULL |
| `TableNames.NamesAreLiterals` | src/mongreldb.c:1343-1424 | for every JSON array the names are the raw bytes of its literals, in order; an element that is no string is an error |
| `TableNames.NamesExact` | src/mongreldb.c:1348-1407 | whatever the response: no array gives no names, an array that breaks off or is malformed is an error, and a well-formed one gives its literals |
| `TableNames.NamesReadBack` | src/mongreldb.c:1367-1372 | names written as JSON literals are delivered in escaped form: they come back unchanged if and only if none has a byte that JSON escapes |
| `Requests.SerializeCondition` | src/mongreldb.c:1740-1828 | raw JSON wins; otherwise the typed test's object is appended |
| `Requests.ConditionIsWhole` | src/mongreldb.c:1740-1828 | a condition is one value, and RFC 8259 JSON, if its raw JSON is and its bounds are finite |
| `RequestReading.ConditionIsRead` | src/mongreldb.c:1740-1828 | a condition reads as what it is: raw JSON as itself, a typed test as one object of its kind with its column_id and its value, pattern, lo or hi, and nothing else |
| `Requests.QueryBody` | src/mongreldb.c:1852-1890 | the query's text, with empty lists, a limit that is not positive and a zero offset left out |
| `RequestReading.QueryIsRead` | src/mongreldb.c:1852-1890 | read by name the body holds the table, the conditions and projected ids in order, the limit if positive, the offset if not zero, and nothing else |
| `Requests.QueryIsWhole` | src/mongreldb.c:1852-1890 | every query body of such conditions is one value, and RFC 8259 JSON |
| `Requests.RetrieveBody` | src/mongreldb.c:2476-2504 | the retrieve_text body, and -1 only if an append was refused |
| `RequestReading.RetrieveIsRead` | src/mongreldb.c:2476-2504 | read by name the body holds table, embedding_column, text, k if positive, and nothing else |
| `Requests.RetrieveFragmentsFit` | src/mongreldb.c:2488-2498 | both number fragments always fit their 64 bytes |
| `Requests.RetrieveIsWhole` | src/mongreldb.c:2476-2504 | every retrieve_text body is one value, and RFC 8259 JSON |
| `Indexes.SerializeIndex` | src/mongreldb.c:324-396 | the index's text is appended with every number fragment cut to 95 bytes |
| `Indexes.FragmentBounds` | src/mongreldb.c:341-381 | the ann, diskann and product fragments are uncut if and only if their digits total at most 43, 50 and 38 |
| `Indexes.SmallFragmentsFit` | src/mongreldb.c:328-393 | the column_id, ivf, minhash and learned_range fragments are never cut |
| `Indexes.IndexIsWritten` | src/mongreldb.c:324-396 | under those bounds the text written is the intended object |
| `IndexReading.IndexIsRead` | src/mongreldb.c:294-396 | read by name a fitting index holds its name, column, kind, predicate, and for ann, minhash and learned_range every option with its default where the number is zero, and nothing else |
| `IndexCuts.IndexIsWhole` | src/mongreldb.c:324-396 | the index object as written is one value if and only if the digits fit, and then it is RFC 8259 JSON |
| `Schema.SerializeColumn` | src/mongreldb.c:253-291 | the column's object is appended; default_expr wins over default_value_json, and that over default_value |
| `SchemaReading.ColumnIsRead` | src/mongreldb.c:253-291 | read by name a column holds its id, name, type, primary_key and nullable flags, its variants in order, its default and its embedding source as given, and nothing else |
| `Schema.ColumnIsWhole` | src/mongreldb.c:253-291 | a column is one value, and RFC 8259 JSON, if its raw fragments are |
| `Schema.OverlongIndexes` | src/mongreldb.c:341-381 | for each of the three fragments an index whose numbers are 10^15 does not fit, and neither its object nor a table body with it is one value |
| `Schema.SerializeCreateTable` | src/mongreldb.c:1427-1457 | the create_table text is appended; empty constraints and an empty index list are left out |
| `SchemaReading.TableIsRead` | src/mongreldb.c:1427-1457 | read by name the body holds the name, the columns and the indexes in order, the constraints if there are any, and nothing else |
| `Schema.TableIsWhole` | src/mongreldb.c:1427-1457 | with such raw fragments the create_table body is one value, and RFC 8259 JSON, if and only if every index's digits fit |

## Left out

- The HTTP transport (`do_request`, authentication, timeouts, path encoding) and the daemon's behaviour: a response is an
  arbitrary byte sequence of at most 268435456 bytes, and a request ends at its body.
- Floating point: how `%.17g` prints a double and `strtod` reads it. A double cell keeps the first 63 bytes of its token;
  `json_get_number`'s double result is not modelled.
- Allocation failure: what the caller sees after MDB_ERR_NOMEM, and the partial counts and rows left behind by
  MDB_ERR_JSON.
- SerializeValue: for a buffer that was refused memory, only that `failed` is set is stated, because the program ignores
  the refusal and sends what it has; the same holds for all other writers.
- DecodeResponse: the rows left in the client's arrays when it reports MDB_ERR_JSON are not stated.
- ParseNumber: a DOUBLE is the text that `strtod` is given, not the value it returns.
- GetNumber: the double that the same call can deliver is not modelled; no caller in the file asks for it.
- TxnInjective: doubles are left out (`TxnDetermined` has them, by their texts), because an integral double has the text of
  an INT64; raw JSON must be a whole object or array, because a raw scalar can be the text of another value.
- CopyStringField: an embedded NUL that `\u0000` puts into a string ends the C string early; the model says the caller sees
  the bytes up to the first NUL and nothing about the rest.
- The stack depth of the recursive skip parser: recursion is unbounded in the model.
- UTF-8: bytes from 0x80 on are taken as unescaped characters of a JSON string; that they form valid UTF-8 is not modelled.
- `/kit/sql` and schema bodies, which are passed through, error classification, the single-operation wrappers and the other
  routines with no loop or state.
