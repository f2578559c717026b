# Guava CharStreams, Closer and TreeMultimap (explicit comparators), in Dafny

This project models two parts of Guava, as their tests pin them down.

**Character streams.** These are the `CharStreams` operations that `CharStreamsTest.java` exercises:

- `copy` from a reader to an appendable, through a scratch `CharBuffer` of 0x800 chars. The buffer is cleared on every cycle.
- `toString`.
- `skipFully`, which falls back to single-char reads when `skip` makes no progress.
- `readLines`, plain and with a `LineProcessor`.
- The supplier-level `copy`, `toString`, `write` and `readLines`. Each registers the streams it opens with a `Closer`.

The `Closer` closes everything in reverse order of registration on every exit path. The first failure is the one thrown. Every later close failure is either suppressed on it or written to the `Closeables` logger, depending on whether `Throwable.addSuppressed` is available.

The model's pieces:

- Readers and writers are classes with a mutable cursor and contents. Each has a `Closeable` handle.
- The test doubles are configured by a `Fault`:
  - `NonSkippingReader`;
  - the non-buffer-filling reader, which asks its delegate for 1024 chars fewer than requested;
  - the broken suppliers, readers and writers.
- Suppliers are classes that record every handle they hand out, as `CheckCloseSupplier` does.

**Sorted multimap.** This is `TreeMultimap` as `TreeMultimapExplicitTest.java` builds it:

- a key comparator that puts null first, then shorter strings first, then uses `String.compareTo`;
- a value comparator that puts null first, then decreasing integers;
- the natural orderings that `TreeMultimap.create(multimap)` falls back to. These throw `NullPointerException` on null.

The multimap is a class whose state is its `asMap()` rows: one row per key in key order, each holding its values in value order. `put` and `putAll` change the state in place. `get`, `keySet`, `entries`, `values`, `first`, `last`, `headSet`, `tailSet` and `subSet` are functions of the rows.

Both comparators are proved to be total orders consistent with equality. They are also proved equal to independent reference orders: short-lex with null first, and decreasing with null first.

Modules:

- `IoTypes`: shared values.
- `Streams`: readers, writers and closeables.
- `CharStreams`: the reader-level operations and line splitting.
- `Closing`: the `Closer` and its failure accounting.
- `Suppliers`: the supplier-level operations.
- `Comparators`.
- `Multimaps`.
- `CharStreamsTests` and `MultimapTests`: the tests' concrete runs, stated as postconditions.

Paths below are relative to the repository root.

## Model

| member | source | states |
|---|---|---|
| Streams.Reader.Read | guava-libraries/guava-tests/test/com/google/common/io/CharStreamsTest.java:330-341 | `read()` answers the char under the cursor and advances by one, or -1 (None) at end of input leaving the cursor; a broken reader throws and does not move |
| Streams.Reader.ReadInto | guava-libraries/guava-tests/test/com/google/common/io/CharStreamsTest.java:443-456 | `read(cbuf, off, len)` fills exactly `buf[off..off+n]` with the next n chars and leaves every other cell of the buffer alone, all of it on -1, 0 or a failure; the non-buffer-filling double passes on `max(len - 1024, 0)` and is only ever called with a positive length |
| Streams.ReadCount | guava-libraries/guava-tests/test/com/google/common/io/CharStreamsTest.java:443-456 | a positive request with input left reads between 1 and min(request, available) chars; with none left it answers -1 |
| Streams.Reader.Skip | guava-libraries/guava-tests/test/com/google/common/io/CharStreamsTest.java:86-95 | `NonSkippingReader.skip` answers 0 and leaves the cursor; a StringReader skips min(n, remaining) |
| Streams.Writer.Append | guava-libraries/guava-tests/test/com/google/common/io/CharStreamsTest.java:213-220 | appending adds exactly the string to the contents; a broken writer throws "broken write" on non-empty text and keeps its contents |
| Streams.Closeable.Close | guava-libraries/guava-tests/test/com/google/common/io/CharStreamsTest.java:411-437 | close() marks the stream closed, counts one more close, and throws the stream's close error when it has one, as the closing callback of the checking suppliers observes |
| CharStreams.Copy | guava-libraries/guava-tests/test/com/google/common/io/CharStreamsTest.java:367-397 | copy moves everything left in the reader to the end of the appendable and returns its length, even when every read is short; every request has positive length, so the buffer never shrinks; a read failure or write failure is thrown with the sink unchanged |
| CharStreams.ToString | guava-libraries/guava-tests/test/com/google/common/io/CharStreamsTest.java:74-78 | toString(reader) is exactly the rest of the text, or the read failure |
| CharStreams.SkipFully | guava-libraries/guava-tests/test/com/google/common/io/CharStreamsTest.java:80-95 | skipFully advances the cursor by exactly n even when skip always answers 0; when fewer than n chars are left it throws EOFException with the reader at end of input |
| CharStreams.LineEndFacts | guava-libraries/guava-tests/test/com/google/common/io/CharStreamsTest.java:97-102 | the end of the first line is the first terminator, or the end of the text |
| CharStreams.Lines | guava-libraries/guava-tests/test/com/google/common/io/CharStreamsTest.java:97-102 | the line split readLines performs: the first line, then the lines of what follows its terminator; what it promises is stated by LinesHaveNoTerminators, JoinLines and LinesOfJoin |
| CharStreams.LinesHaveNoTerminators | guava-libraries/guava-tests/test/com/google/common/io/CharStreamsTest.java:97-102 | no line that readLines returns contains a terminator |
| CharStreams.JoinLines | guava-libraries/guava-tests/test/com/google/common/io/CharStreamsTest.java:97-102 | splitting loses nothing: each line followed by "\n" gives back the text, with a terminator added only after an unterminated last line |
| CharStreams.LinesOfJoin | guava-libraries/guava-tests/test/com/google/common/io/CharStreamsTest.java:97-102 | the converse round trip: lines without terminators, joined, split back into the same lines |
| CharStreams.ReadLine | guava-libraries/guava-tests/test/com/google/common/io/CharStreamsTest.java:97-102 | one readLine returns the first line of what is left and moves past its terminator, or None when nothing is left |
| CharStreams.ReadLines | guava-libraries/guava-tests/test/com/google/common/io/CharStreamsTest.java:97-102 | readLines(reader) returns all lines of what is left and exhausts the reader |
| CharStreams.CountingProcessor.ProcessLine | guava-libraries/guava-tests/test/com/google/common/io/CharStreamsTest.java:108-148 | processLine counts the line and answers its answer function on the new count and the line; only a processor that keeps lines appends it to `collected` (the conditional processor's `sb`; the always-false and always-true processors keep none) |
| CharStreams.CountingProcessor.GetResult | guava-libraries/guava-tests/test/com/google/common/io/CharStreamsTest.java:116-119 | getResult() is the number of lines the processor has seen |
| CharStreams.Fed | guava-libraries/guava-tests/test/com/google/common/io/CharStreamsTest.java:104-156 | for any processor: at least one line is fed when there is one, and never more than there are |
| CharStreams.FedCount | guava-libraries/guava-tests/test/com/google/common/io/CharStreamsTest.java:104-156 | closed form of the lines fed to the tests' processors, which answer on the count alone: 1 to the always-false one, all to the always-true one, and up to the limit for `seen < limit` |
| CharStreams.FedStopsAtFirstFalse | guava-libraries/guava-tests/test/com/google/common/io/CharStreamsTest.java:104-156 | for any processor, every line fed but the last was answered true, the last was answered false unless the lines ran out, and a processor that answered true to every line it was fed was fed all of them |
| CharStreams.ReadLinesWith | guava-libraries/guava-tests/test/com/google/common/io/CharStreamsTest.java:104-156 | readLines(reader, processor), for any processor, feeds the lines in order up to and including the first one answered false, returns getResult(), and a processor that keeps lines has collected exactly the lines fed |
| Closing.SettleClosedForm | guava-libraries/guava-tests/test/com/google/common/io/CharStreamsTest.java:223-281 | the Closer's failure fold: the body's failure wins, else the first close failure; every other close failure goes, in closing order, to exactly one of the suppressed list and the log |
| Closing.AbsorbAllWithPrimary | guava-libraries/guava-tests/test/com/google/common/io/CharStreamsTest.java:223-281 | once there is a primary failure it stays, and every later failure is suppressed or logged |
| Closing.LosersStep | guava-libraries/guava-tests/test/com/google/common/io/CharStreamsTest.java:223-281 | one more close failure either becomes the primary failure or joins the losers |
| Closing.Closer.Register | guava-libraries/guava-tests/test/com/google/common/io/CharStreamsTest.java:158-221 | register(c) puts c on top of the stack, above every stream registered before it |
| Closing.Closer.Rethrow | guava-libraries/guava-tests/test/com/google/common/io/CharStreamsTest.java:176-199 | rethrow(e) records e as the body's failure, which close() then throws in preference to any close failure |
| Closing.Closer.Close | guava-libraries/guava-tests/test/com/google/common/io/CharStreamsTest.java:158-221 | close() closes every registered stream, last registered first, once for each time it was registered, and throws the rethrown failure or the first close failure with the others suppressed, or logs them |
| Closing.Closer.Take | guava-libraries/guava-tests/test/com/google/common/io/CharStreamsTest.java:223-281 | one close failure taken by close() keeps the primary/suppressed/log accounting invariant |
| Closing.Closer.CloseTop | guava-libraries/guava-tests/test/com/google/common/io/CharStreamsTest.java:158-221 | one turn of close(): the last registered stream still open is popped and closed once more, and its close failure is taken with the accounting invariant kept |
| Suppliers.ReaderSupplier.GetInput | guava-libraries/guava-tests/test/com/google/common/io/CharStreamsTest.java:411-423 | every call hands out a fresh reader at the start of the text and records its handle; the broken-at-acquisition supplier throws |
| Suppliers.WriterSupplier.GetOutput | guava-libraries/guava-tests/test/com/google/common/io/CharStreamsTest.java:425-437 | every call hands out a fresh empty writer and records it; the broken-at-acquisition supplier throws |
| Suppliers.SettledPrecedence | guava-libraries/guava-tests/test/com/google/common/io/CharStreamsTest.java:158-221 | the body's failure takes precedence over close failures; a successful body with a close failure throws the first one; a call completes, with the body's value, exactly when nothing failed |
| Suppliers.SettledAccounting | guava-libraries/guava-tests/test/com/google/common/io/CharStreamsTest.java:223-281 | every failure is accounted once: one thrown, each other suppressed or logged, never both |
| Suppliers.OpenInput | guava-libraries/guava-tests/test/com/google/common/io/CharStreamsTest.java:158-221 | a reader obtained from the supplier is registered on top of the Closer's stack |
| Suppliers.OpenOutput | guava-libraries/guava-tests/test/com/google/common/io/CharStreamsTest.java:158-221 | a writer obtained from the supplier is registered on top of the Closer's stack |
| Suppliers.Finish | guava-libraries/guava-tests/test/com/google/common/io/CharStreamsTest.java:158-221 | the catch/finally: every registered stream ends closed, once for each registration, and the call ends as the failure fold says |
| Suppliers.TryCopy | guava-libraries/guava-tests/test/com/google/common/io/CharStreamsTest.java:223-281 | the input is opened first and the output is never asked for when that fails; the input's supplier has handed out exactly the bottom of the Closer's stack, the output's supplier the stream above it; close errors come output first, then input |
| Suppliers.CopySuppliers | guava-libraries/guava-tests/test/com/google/common/io/CharStreamsTest.java:158-199 | copy(supplier, supplier) ends as the failure fold says, leaves every handed-out stream closed, and on success the new writer holds the text |
| Suppliers.TryToString | guava-libraries/guava-tests/test/com/google/common/io/CharStreamsTest.java:201-211 | the body of toString(supplier) reads the whole text or fails |
| Suppliers.ToStringSupplier | guava-libraries/guava-tests/test/com/google/common/io/CharStreamsTest.java:201-211 | toString(supplier) returns the text or the read failure, with the reader closed |
| Suppliers.TryWrite | guava-libraries/guava-tests/test/com/google/common/io/CharStreamsTest.java:213-220 | the body of write puts exactly the text into the new writer or fails |
| Suppliers.WriteSupplier | guava-libraries/guava-tests/test/com/google/common/io/CharStreamsTest.java:213-220 | write(text, supplier) leaves exactly the text in the new writer or throws, with the writer closed |
| Suppliers.TryReadLines | guava-libraries/guava-tests/test/com/google/common/io/CharStreamsTest.java:97-102 | the body of readLines(supplier) returns the lines of the text |
| Suppliers.ReadLinesSupplier | guava-libraries/guava-tests/test/com/google/common/io/CharStreamsTest.java:97-102 | readLines(supplier) returns the lines of the text, with the reader closed |
| Suppliers.TryProcess | guava-libraries/guava-tests/test/com/google/common/io/CharStreamsTest.java:104-156 | the body of readLines(supplier, processor) reads from a fresh reader at the start of the text |
| Suppliers.ProcessSupplier | guava-libraries/guava-tests/test/com/google/common/io/CharStreamsTest.java:104-156 | each call re-opens the supplier from the start, feeds the processor and returns getResult(), closing the reader |
| Suppliers.CopyPrecedence | guava-libraries/guava-tests/test/com/google/common/io/CharStreamsTest.java:183-199 | copy from a broken reader throws "broken read" whatever the opened output does; a broken writer alone throws "broken write"; a sound pair completes with the text length |
| Suppliers.CopyFailureCounts | guava-libraries/guava-tests/test/com/google/common/io/CharStreamsTest.java:223-281 | the counts of suppressed (or logged) failures: 0 for a broken input with a good output, 1 with a close-failing output unless the input failed at acquisition, 0 for a good input with any broken output, 1 for a close-failing input, never more than 1 |
| CharStreamsTests.ToStringOfText | guava-libraries/guava-tests/test/com/google/common/io/CharStreamsTest.java:74-78 | both toString calls give the text |
| CharStreamsTests.SkipFullyBlockingRead | guava-libraries/guava-tests/test/com/google/common/io/CharStreamsTest.java:80-84 | skipping 6 of "abcdef" with a non-skipping reader succeeds and the next read is -1 |
| CharStreamsTests.LinesOfABC | guava-libraries/guava-tests/test/com/google/common/io/CharStreamsTest.java:97-102 | "a\nb\nc" splits into "a", "b", "c" |
| CharStreamsTests.ReadLinesFromReadable | guava-libraries/guava-tests/test/com/google/common/io/CharStreamsTest.java:97-102 | readLines on "a\nb\nc" returns ["a", "b", "c"] |
| CharStreamsTests.ProcessedABC | guava-libraries/guava-tests/test/com/google/common/io/CharStreamsTest.java:104-156 | the three processors are fed 1, 3 and 2 lines, and the conditional one collects "ab" |
| CharStreamsTests.FedABC | guava-libraries/guava-tests/test/com/google/common/io/CharStreamsTest.java:104-156 | of "a\nb\nc", the always-false processor is fed 1 line, the always-true one 3 and the conditional one 2 |
| CharStreamsTests.ReadLinesWithProcessors | guava-libraries/guava-tests/test/com/google/common/io/CharStreamsTest.java:104-156 | on one supplier, readLines with the three processors returns 1, 3 and 2, and the StringBuilder holds "ab" |
| CharStreamsTests.AlwaysClosesCopyFromGood | guava-libraries/guava-tests/test/com/google/common/io/CharStreamsTest.java:158-181 | copy from the good reader completes, copy into the broken writer throws "broken write", and every supplier reports all its streams closed |
| CharStreamsTests.AlwaysClosesCopyFromBroken | guava-libraries/guava-tests/test/com/google/common/io/CharStreamsTest.java:183-199 | both copies from the broken reader throw "broken read", and every supplier reports all its streams closed |
| CharStreamsTests.AlwaysClosesToString | guava-libraries/guava-tests/test/com/google/common/io/CharStreamsTest.java:201-211 | toString of the good supplier gives the text, of the broken one throws "broken read"; both readers closed |
| CharStreamsTests.AlwaysClosesWrite | guava-libraries/guava-tests/test/com/google/common/io/CharStreamsTest.java:213-220 | writing "hello world" to the broken supplier throws "broken write" and closes the writer |
| CharStreamsTests.SkipFullyPastEnd | guava-libraries/guava-tests/test/com/google/common/io/CharStreamsTest.java:320-328 | skipping 6 of "abcde" throws EOFException |
| CharStreamsTests.SkipFullyInterleaved | guava-libraries/guava-tests/test/com/google/common/io/CharStreamsTest.java:330-341 | reads and skips over "abcdef" give 'a', 'c', 'f', then -1 |
| CharStreamsTests.WriteString | guava-libraries/guava-tests/test/com/google/common/io/CharStreamsTest.java:356-365 | write("foo", supplier) leaves "foo" in the writer |
| CharStreamsTests.Repeat | guava-libraries/guava-tests/test/com/google/common/io/CharStreamsTest.java:388-397 | Strings.repeat gives n times the length |
| CharStreamsTests.CopyWithReaderThatDoesNotFillBuffer | guava-libraries/guava-tests/test/com/google/common/io/CharStreamsTest.java:388-397 | copying 1000 chars through the short-reading double returns 1000 and moves the whole string |
| Comparators.CompareToLess | guava-libraries/guava-tests/test/com/google/common/collect/TreeMultimapExplicitTest.java:43-60 | `String.compareTo` is negative exactly when the first string is lexicographically smaller, by a reference definition (a common prefix, then a smaller char or the end) |
| Comparators.CompareToSwap | guava-libraries/guava-tests/test/com/google/common/collect/TreeMultimapExplicitTest.java:43-60 | swapping the arguments of compareTo negates it |
| Comparators.CompareToZero | guava-libraries/guava-tests/test/com/google/common/collect/TreeMultimapExplicitTest.java:43-60 | compareTo answers 0 exactly on equal strings |
| Comparators.CompareToTransitive | guava-libraries/guava-tests/test/com/google/common/collect/TreeMultimapExplicitTest.java:43-60 | compareTo is transitive |
| Comparators.StringLengthOrders | guava-libraries/guava-tests/test/com/google/common/collect/TreeMultimapExplicitTest.java:43-60 | StringLength.compare is negative exactly when the first key is null and the second not, or shorter, or of equal length and lexicographically smaller |
| Comparators.DecreasingOrders | guava-libraries/guava-tests/test/com/google/common/collect/TreeMultimapExplicitTest.java:65-66 | DECREASING_INT_COMPARATOR is negative exactly when the first is null and the second not, or both are integers and the first is greater |
| Comparators.KeyOrderLaws | guava-libraries/guava-tests/test/com/google/common/collect/TreeMultimapExplicitTest.java:43-60 | each key comparator answers 0 exactly on equal keys, has antisymmetric sign and is transitive |
| Comparators.ValueOrderLaws | guava-libraries/guava-tests/test/com/google/common/collect/TreeMultimapExplicitTest.java:65-66 | each value comparator answers 0 exactly on equal values, has antisymmetric sign and is transitive |
| Comparators.CompareTo | guava-libraries/guava-tests/test/com/google/common/collect/TreeMultimapExplicitTest.java:57 | `String.compareTo`: the char difference at the first position where the strings differ, else the length difference; its meaning is stated by CompareToLess, CompareToSwap, CompareToZero and CompareToTransitive |
| Comparators.StringLengthCompare | guava-libraries/guava-tests/test/com/google/common/collect/TreeMultimapExplicitTest.java:43-60 | `StringLength.COMPARATOR`: null first, then shorter first, then compareTo; StringLengthOrders and KeyOrderLaws state the order it defines |
| Comparators.DecreasingCompare | guava-libraries/guava-tests/test/com/google/common/collect/TreeMultimapExplicitTest.java:62-66 | `natural().reverse().nullsFirst()` on integers: null first, then greater first; DecreasingOrders and ValueOrderLaws state the order it defines |
| Multimaps.Get | guava-libraries/guava-tests/test/com/google/common/collect/TreeMultimapExplicitTest.java:122-127 | get(k) is sorted by the value comparator without duplicates, and is non-empty exactly for the keys of keySet() |
| Multimaps.KeyLessTransitive | guava-libraries/guava-tests/test/com/google/common/collect/TreeMultimapExplicitTest.java:43-60 | strict key order is transitive and irreflexive |
| Multimaps.WellOrderedTail | guava-libraries/guava-tests/test/com/google/common/collect/TreeMultimapExplicitTest.java:129-132 | the first key of a multimap comes strictly before every other key |
| Multimaps.InsertValue | guava-libraries/guava-tests/test/com/google/common/collect/TreeMultimapExplicitTest.java:76-87 | inserting a value into a key's value set keeps it sorted and holds exactly the old values and the new one, growing only when the value is new |
| Multimaps.PutRows | guava-libraries/guava-tests/test/com/google/common/collect/TreeMultimapExplicitTest.java:76-87 | put keeps the multimap well ordered and its keys are the old keys and the new one |
| Multimaps.PutRowsGet | guava-libraries/guava-tests/test/com/google/common/collect/TreeMultimapExplicitTest.java:76-87 | after put(k, v), get(k) is the old get(k) with v inserted in value order, and every other key's values are unchanged |
| Multimaps.PutRowsEntries | guava-libraries/guava-tests/test/com/google/common/collect/TreeMultimapExplicitTest.java:76-87 | put(k, v) adds the entry (k, v) and no other |
| Multimaps.EntriesMembership | guava-libraries/guava-tests/test/com/google/common/collect/TreeMultimapExplicitTest.java:149-164 | (k, v) is an entry exactly when v is in get(k) |
| Multimaps.EntriesOrdered | guava-libraries/guava-tests/test/com/google/common/collect/TreeMultimapExplicitTest.java:149-164 | entries() lists keys in key order and, within a key, values in value order |
| Multimaps.KeySet | guava-libraries/guava-tests/test/com/google/common/collect/TreeMultimapExplicitTest.java:129-132 | keySet(): the keys of the rows in key order; KeysBelow, RowsFrom and HeadTailSplit state its order |
| Multimaps.Entries | guava-libraries/guava-tests/test/com/google/common/collect/TreeMultimapExplicitTest.java:149-159 | entries(): each key's entries in value order, keys in key order; EntriesMembership and EntriesOrdered state what it holds and in what order |
| Multimaps.Values | guava-libraries/guava-tests/test/com/google/common/collect/TreeMultimapExplicitTest.java:161-164 | values(): the values of entries(), in the same order |
| Multimaps.KeysBelow | guava-libraries/guava-tests/test/com/google/common/collect/TreeMultimapExplicitTest.java:183-193 | the keys before a bound are a prefix of keySet() holding exactly the keys less than the bound |
| Multimaps.RowsFrom | guava-libraries/guava-tests/test/com/google/common/collect/TreeMultimapExplicitTest.java:183-193 | the rows from a bound on are the rest of keySet() after that prefix, holding exactly the keys not less than the bound |
| Multimaps.HeadSet | guava-libraries/guava-tests/test/com/google/common/collect/TreeMultimapExplicitTest.java:183-193 | headSet(to) holds exactly the keys less than `to`; a null bound under a natural ordering throws |
| Multimaps.TailSet | guava-libraries/guava-tests/test/com/google/common/collect/TreeMultimapExplicitTest.java:183-193 | tailSet(from) holds exactly the keys not less than `from` |
| Multimaps.SubSet | guava-libraries/guava-tests/test/com/google/common/collect/TreeMultimapExplicitTest.java:183-193 | subSet(from, to) holds exactly the keys from `from` up to before `to`, and throws when `from` is after `to` or a bound is rejected |
| Multimaps.HeadTailSplit | guava-libraries/guava-tests/test/com/google/common/collect/TreeMultimapExplicitTest.java:183-193 | headSet(t) followed by tailSet(t) is keySet() in order |
| Multimaps.First | guava-libraries/guava-tests/test/com/google/common/collect/TreeMultimapExplicitTest.java:183-188 | first() is a key before every other key; an empty key set throws |
| Multimaps.Last | guava-libraries/guava-tests/test/com/google/common/collect/TreeMultimapExplicitTest.java:183-188 | last() is a key after every other key; an empty key set throws |
| Multimaps.AdmittedPrefix | guava-libraries/guava-tests/test/com/google/common/collect/TreeMultimapExplicitTest.java:173-181 | putAll gets through exactly the entries before the first one the comparators reject |
| Multimaps.PutEach | guava-libraries/guava-tests/test/com/google/common/collect/TreeMultimapExplicitTest.java:173-181 | put of each entry in turn keeps the multimap well ordered |
| Multimaps.PutEachEntries | guava-libraries/guava-tests/test/com/google/common/collect/TreeMultimapExplicitTest.java:173-181 | after putting a list of entries, the entries are exactly the old ones and those of the list |
| Multimaps.CopyIsEqual | guava-libraries/guava-tests/test/com/google/common/collect/TreeMultimapExplicitTest.java:173-181 | putting every entry of a multimap into an empty one, under any comparators that admit them, gives an equal multimap |
| Multimaps.PutAllStep | guava-libraries/guava-tests/test/com/google/common/collect/TreeMultimapExplicitTest.java:173-181 | one more put keeps putAll's flag meaning "some entry was not there before" |
| Multimaps.TreeMultimap.Put | guava-libraries/guava-tests/test/com/google/common/collect/TreeMultimapExplicitTest.java:76-87 | put(k, v) returns true exactly when (k, v) was not an entry and updates the rows in order; a null rejected by a natural ordering throws and changes nothing |
| Multimaps.TreeMultimap.PutAll | guava-libraries/guava-tests/test/com/google/common/collect/TreeMultimapExplicitTest.java:173-181 | putAll puts each entry in order, stops at the first rejected one, and returns true exactly when some entry was new |
| Multimaps.TreeMultimap.PutNext | guava-libraries/guava-tests/test/com/google/common/collect/TreeMultimapExplicitTest.java:173-181 | one round of putAll's loop puts the next entry and updates the flag |
| Multimaps.CreateFrom | guava-libraries/guava-tests/test/com/google/common/collect/TreeMultimapExplicitTest.java:92-109 | create(multimap) uses the natural orderings, throws exactly when the source holds a null, and otherwise holds the same entries (equals the source) |
| Multimaps.TreeMultimap.constructor | guava-libraries/guava-tests/test/com/google/common/collect/TreeMultimapExplicitTest.java:76-78 | TreeMultimap.create(keyComparator, valueComparator) is empty and keeps the given comparators |
| MultimapTests.PutGoogle | guava-libraries/guava-tests/test/com/google/common/collect/TreeMultimapExplicitTest.java:79-80 | the first two puts give the row google=[6, 2] |
| MultimapTests.PutNull | guava-libraries/guava-tests/test/com/google/common/collect/TreeMultimapExplicitTest.java:81-83 | the null key goes first and its values come out 7, 3, 1 |
| MultimapTests.PutTree | guava-libraries/guava-tests/test/com/google/common/collect/TreeMultimapExplicitTest.java:84-85 | "tree" goes between null and "google", and its values come out null, 0 |
| MultimapTests.CreatePopulate | guava-libraries/guava-tests/test/com/google/common/collect/TreeMultimapExplicitTest.java:76-87 | createPopulate's multimap has the rows null=[7, 3, 1], tree=[null, 0], google=[6, 2], in that order |
| MultimapTests.PopulatedWellOrdered | guava-libraries/guava-tests/test/com/google/common/collect/TreeMultimapExplicitTest.java:76-87 | those rows are in comparator order |
| MultimapTests.OrderedGet | guava-libraries/guava-tests/test/com/google/common/collect/TreeMultimapExplicitTest.java:122-127 | get(null) = [7, 3, 1], get("google") = [6, 2], get("tree") = [null, 0] |
| MultimapTests.OrderedKeySet | guava-libraries/guava-tests/test/com/google/common/collect/TreeMultimapExplicitTest.java:129-147 | keySet() is [null, "tree", "google"] |
| MultimapTests.OrderedEntries | guava-libraries/guava-tests/test/com/google/common/collect/TreeMultimapExplicitTest.java:149-159 | entries() is (null,7), (null,3), (null,1), (tree,null), (tree,0), (google,6), (google,2) |
| MultimapTests.OrderedValues | guava-libraries/guava-tests/test/com/google/common/collect/TreeMultimapExplicitTest.java:161-164 | values() is 7, 3, 1, null, 0, 6, 2 |
| MultimapTests.FirstAndLast | guava-libraries/guava-tests/test/com/google/common/collect/TreeMultimapExplicitTest.java:183-188 | first() is null and last() is "google" |
| MultimapTests.TreeBelowYahoo | guava-libraries/guava-tests/test/com/google/common/collect/TreeMultimapExplicitTest.java:190-192 | after null, only "tree" lies before "yahoo" |
| MultimapTests.HeadAndTailSets | guava-libraries/guava-tests/test/com/google/common/collect/TreeMultimapExplicitTest.java:190-191 | headSet("yahoo") = {null, "tree"} and tailSet("yahoo") = {"google"} |
| MultimapTests.SubSetOfKeys | guava-libraries/guava-tests/test/com/google/common/collect/TreeMultimapExplicitTest.java:192 | subSet("ask", "yahoo") = {"tree"} |
| MultimapTests.BuildOriginal | guava-libraries/guava-tests/test/com/google/common/collect/TreeMultimapExplicitTest.java:97-98 | putting tree=0 and tree=3 after google gives tree=[3, 0] before google=[6, 2] |
| MultimapTests.EntriesOfOriginal | guava-libraries/guava-tests/test/com/google/common/collect/TreeMultimapExplicitTest.java:102 | the entries the copy is made from, in the original's order |
| MultimapTests.CopySteps | guava-libraries/guava-tests/test/com/google/common/collect/TreeMultimapExplicitTest.java:102-105 | under natural order the copy puts "google" before "tree" and each key's values in increasing order |
| MultimapTests.LastCopyStep | guava-libraries/guava-tests/test/com/google/common/collect/TreeMultimapExplicitTest.java:102-105 | the last put gives google=[2, 6] |
| MultimapTests.BuildCopy | guava-libraries/guava-tests/test/com/google/common/collect/TreeMultimapExplicitTest.java:102-105 | putAll of the original's entries under natural order gives google=[2, 6], tree=[0, 3] |
| MultimapTests.BuildTree | guava-libraries/guava-tests/test/com/google/common/collect/TreeMultimapExplicitTest.java:92-99 | the four puts give keySet() ["tree", "google"] |
| MultimapTests.OriginalAdmitted | guava-libraries/guava-tests/test/com/google/common/collect/TreeMultimapExplicitTest.java:102 | the natural orderings accept every entry of the original |
| MultimapTests.CreateFromTreeMultimap | guava-libraries/guava-tests/test/com/google/common/collect/TreeMultimapExplicitTest.java:92-109 | the copy has the natural orderings, equals the original, and has keySet() ["google", "tree"] |
| MultimapTests.GoogleValues | guava-libraries/guava-tests/test/com/google/common/collect/TreeMultimapExplicitTest.java:100-105 | get("google") is [6, 2] in the original and [2, 6] in the copy |

## Left out

- Character-set decoding and encoding. The byte suppliers wrapped as UTF-8 readers and writers are modelled directly as char readers and writers, and the encoder's buffering is not modelled: a broken writer fails at the write call itself.
- Line terminators other than "\n". "\r" and "\r\n" are not modelled.
- The `LineReader` internal buffering: a line is read one char at a time. Only the lines it yields are modelled.
- `Closer.SuppressingSuppressor.isAvailable()` and the logger handler registration. Suppression availability is a boolean parameter, and the `Closeables` logger is a `Log` object whose records are a sequence. `CloserTest.getSuppressed` reflection is the `suppressed` list of the thrown `Failure`.
- `asWriter` wrapping identity and `nullWriter` instance identity. Both concern Java object identity, not behaviour.
- `testCopy`'s ASCII and I18N constants are defined in IoTestCase, which is not part of this model. `CharStreams.Copy` is stated for every text.
- The `ByteStreamsTest` broken byte streams are not part of this model. Their char-level effect is the `Fault` of each double.
- CharStreamsTests.WriteString: the test's supplier hands out the same `StringWriter` on every call. The model's supplier hands out a fresh writer, and the test makes a single call.
- Message text of exceptions: "broken read" and "broken write" are the `IOError` constructors `BrokenRead` and `BrokenWrite`.
- `long` counts and 32-bit `int` arithmetic. Counts are unbounded naturals. `first.length() - second.length()` and the char difference of `compareTo` cannot overflow for Java string lengths, so nothing is lost.
- CharStreams.CountingProcessor: a `LineProcessor` is modelled as a count of the lines seen, an answer that is a function of that count and the line, and an optional list of kept lines. A processor whose `getResult()` is not its count, or whose answer depends on other state, is not modelled; every processor of the tests has this form.
- Comparators.CompareTo: compares Dafny chars, which are Unicode scalar values. Java compares UTF-16 code units, which order differently only for supplementary characters.
- Comparators.StringLengthCompare: Java's `first == second` is reference equality. It is modelled as value equality, which gives the same answer because `compareTo` of equal strings is 0. It also compares the lengths of Dafny strings, which count Unicode scalar values, where Java's `length()` counts UTF-16 code units; for strings with supplementary characters the two lengths, and so the order, can differ.
- Multimaps.Get: a null key under a natural ordering answers an empty list. Java's `TreeMap` would throw NullPointerException there. No test asks.
- The red-black trees behind `TreeMultimap`: the model keeps each key's values, and the keys, as sorted sequences, and only the order they present is modelled.
- `createSample` and `testToString`: `createSample` is defined in a superclass that is not part of this model. `testMultimapComparators` is covered by `Multimaps.CopyIsEqual` for every source multimap.
- Comparator accessors: `keyComparator()`, `valueComparator()` and `get(k).comparator()` are the `orders` constant of a multimap and are not modelled as operations.
- Java serialization of the multimap.
