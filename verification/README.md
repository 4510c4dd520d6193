# The bytecode bundle format, and three cores beside it

This project models the `.lgb` bundle format of `pkg/bytecode`, the two-lane
lease of `cmd/bench-baton`, the ordering of lowered namespaces in
`cmd/lgbgen` and the executable trailer of `pkg/bundle`, and proves what each
of them is for.

**Codec.** Bytes are `0..255` integers, integers carry Go's 64-bit widths.  Each
section has a writer in the form "these bytes, then k" (`PutX(v, k)`), a parser
that leaves a rest (`GetX(s)`), and, where the source has one, a skipper
(`ScanX(s)`).  Imperative readers and writers, with a position or an output
buffer that moves, are proved equal to them.  The laws are about the functions:
reading what was written gives the value back and leaves exactly k; skipping
stops where reading stops.  The length integers are unsigned LEB128 (section 7.6 of DWARF Version 5).

**Namespace deferral.** `NSRanges.FindNSRanges` is the static analysis,
`Bundles.DecodeBundle` the decode that skips what a chosen set of namespaces owns
and notes where it is, `Deferred.ExecUnit.NSChunk` the later decode.  All three
are loops over mutable tables, proved against what decoding everything gives
(`EagerDecode`).  `DeferralProofs.NeverOutside` and
`EndToEnd.DeferredServesEncoded` put them together: whatever is deferred and
whatever is asked for, in any order and any number of times, every request
succeeds and every filled slot holds what was encoded.  `EndToEnd.Serve` says the
same of a program that decodes a bundle and asks for namespaces by name.
`LazyRead` is the grammar of a deferring decode of arbitrary bytes: whenever
`DecodeBundle` succeeds, the unit presents what that grammar reads.

**Opcode migration** rewrites code in place and keeps the program.  **Split debug**
moves the debug tables into a companion bound to the stripped bundle by a
digest, and loses nothing.  `EndToEnd` and `WithDebug` state both for three
runtimes, the one that writes a bundle, the one that splits it and the one that
runs it, with the only conditions that its opcode set is the runner's, the old one
or neither.  **Bench-baton** is a transition system: one step per
lock granted, state change, cancellation, crash or reap.

## What turned out not to hold, and exactly when it does

* Skipping does not mirror reading for counts of 2^63 and more, which Go turns
  into negative ints.  On every buffer where a chunk record or a local-variable
  table reads, the two agree if and only if its count is below 2^63 or six times,
  for a table twice, the count wraps to no positive int (`ChunkSkipExact`,
  `LocalsSkipExact`).  They agree on every value whose map counts do not exceed
  2^63 (`SkipMirrorsRead`), def metadata of any count included; for the entries of a
  map or of a record's extra map above that they never do (`WidePairs`, `WideMap`,
  `WideExtra`).  A value that holds such a map inside may still come out even, so
  for nested values this is one direction.  `WideMapInput`, `WideSourceMapInput` and
  `WideLocalsInput` are inputs where they part.
* `nsRanges` compares the width of a chunk run with the number of function
  constants.  That shows the run to be the namespace's own exactly when no two
  of those constants share a chunk (`CountCheckExact`).  `SharedChunk` is a bundle for
  which it goes wrong: the entry is emitted and validates, the bundle decodes at
  once, and decoding it with that namespace deferred fails.  The deferral theorems
  assume unshared chunks (`NoSharedChunk`), which is how the compiler makes them.
* A unit with deferred namespaces runs another main chunk than an eager one
  exactly when "core" is deferred (`MainAgrees`), and a bundle the encoder made is
  refused exactly when the namespace of the greatest chunk index is deferred and
  "core" is deferred too or not there (`OnlyMainRefused`, `AcceptedHasMain`).
  `CoreDeferred` is a bundle that shows both.
* Migrating twice is not migrating once: it changes nothing more exactly when no
  opcode is above the removed ones (`RemapTwice`).  The instruction starts of
  arbitrary words survive exactly when no word has opcode byte 48 with a word
  behind it (`StartsKept`); code in the old opcode set has none, so its program
  survives (`RemapPreservesProgram`).
* Splitting relabels a function to the first chunk with its stack bound and code,
  so it keeps its own debug information exactly when no earlier chunk is equal
  (`FoundSame`, `RelabelledInput`).
* Stripping promises that running is unaffected (pkg/bytecode/strip.go:11-13).  It
  decodes module data, which is not migrated, and stamps it with the running opcode
  set, so a bundle that names the old set is then served unmigrated: a chunk runs as
  before exactly when its walk meets no removed or later opcode (`StrippedCode`,
  `StrippedInput`).
* In bench-baton a queued exclusive worker does not close the gate; one that has
  the gate does (`GateOpen`); `OvertakenRun` is a run in which a newcomer is granted
  past a queued one.  The recorded capacity can change while a releasing worker
  that is no longer recorded still holds its locks (`ShrunkRun`); a worker's slot
  is below the recorded capacity while it is granted.

Where the comments and the code differ the model follows the code.
pkg/bytecode/deferred.go:17-20 has everything else decode as before and the main
chunk never deferred; the code only keeps chunk 0, and the main chunk depends on
"core" as above.  pkg/bytecode/nsranges.go:137-142 asks for a run that holds no other
chunk and promises that misjudging costs no correctness; the width test
guarantees both only for unshared chunks.

## Assumptions

* `vm.OpcodeStride` and `vm.ReadsConst` are the tables of pkg/vm/vm.go:301-325;
  a deferred pool slot is an optional value that is filled once
  (pkg/vm/constpool.go:126-151).
* DEFLATE (RFC 1951) and SHA-256 (FIPS 180-4) are functions with one law each:
  inflating undoes deflating; a digest has 32 bytes.  An opcode set's signature
  is a pair of numbers.
* Whether UUID, instant and regex texts parse is a predicate that is a
  parameter; a variable reference resolves to itself.
* Function constants name their chunk by its identity, not by its contents.

## Model

| member | source | states |
|---|---|---|
| Wire.VarintRoundTrip | pkg/bytecode/encoding.go:149-165 | For every 64-bit value the capped reader returns the value the LEB128 writer wrote and stops exactly after it, whatever follows |
| Wire.VarintAtMostTen | pkg/bytecode/encoding.go:33-47 | The LEB128 writer emits between 1 and 10 bytes for every 64-bit value |
| Wire.ZigzagBijection | pkg/bytecode/encoding.go:49-53 | Zigzag maps the int64 range one-to-one onto uint64, 2v or -2v - 1 by sign; each direction undoes the other |
| Wire.SvarintRoundTrip | pkg/bytecode/encoding.go:168-175 | Signed integers read back, at both extremes, with the suffix left |
| Wire.LERoundTrip | pkg/bytecode/encoding.go:66-99 | Fixed-width little-endian integers that fit n bytes read back, with the suffix left |
| Wire.I32RoundTrip | pkg/bytecode/encoding.go:220-226 | 32-bit code words keep their sign |
| Wire.MagnitudeRoundTrip | pkg/bytecode/encoder.go:654-867 | The big-endian magnitude bytes of any natural number give the number back |
| Stream.Reader.ReadVarint | pkg/bytecode/encoding.go:149-165 | The shift-and-or loop reads what the varint grammar says, moves past exactly that, and rejects an eleventh byte |
| Stream.Reader.ReadSvarint | pkg/bytecode/encoding.go:168-175 | The signed reader agrees with its grammar and position |
| Stream.Reader.ReadFixed | pkg/bytecode/encoding.go:211-244 | The fixed-width reader agrees with its grammar and position |
| Stream.Reader.ReadBytes | pkg/bytecode/encoding.go:187-192 | n bytes or the end of input, and the position behind them |
| Stream.Reader.Skip | pkg/bytecode/encoding.go:142-146 | Skips n bytes; negative or overlong counts do what the slice does |
| Stream.Writer.WriteVarint | pkg/bytecode/encoding.go:33-47 | The shift-and-write loop appends exactly the LEB128 bytes |
| ValueProofs.ValueScan | pkg/bytecode/decoder.go:1535-1649 | Whenever a value reads with some chunks decoded, skipping it succeeds, stops at the same offset and meets exactly the function records whose chunks the read needed; with other chunks decoded the read gives the same, or fails as deferred |
| ValueProofs.SkipMirrorsRead | pkg/bytecode/decoder.go:1535-1649 | On every byte stream, if the value reads and no map count in it exceeds 2^63 then it is skipped to the same offset |
| ValueProofs.WidePairs | pkg/bytecode/decoder.go:1412-1430 | On every byte stream where the entries of a map read with a count of 2^63 or more, none is read, and the skip stops where the read does exactly for a count of 2^63 |
| ValueProofs.WideMap | pkg/bytecode/decoder.go:1535-1649 | The same for a whole map record |
| ValueProofs.WideExtra | pkg/bytecode/decoder.go:1535-1649 | The same for a record of either tag version and the count of its extra map |
| ValueProofs.WideMapInput | pkg/bytecode/decoder.go:1412-1430 | An input: a map of 2^63 + 1 entries is read as empty and two bytes behind it are skipped |
| ValueProofs.BigIntRoundTrip | pkg/bytecode/encoder.go:654-867 | Integers of any size keep sign and magnitude |
| ValueProofs.FuncRoundTrip | pkg/bytecode/decoder.go:1653-1676 | A function record reads back with the index of its chunk when that chunk is decoded |
| ValueProofs.MakeRecordKeeps | pkg/bytecode/decoder.go:1730-1952 | Building a record from its fixed fields and extra map keeps both, nil fixed fields becoming unset |
| ValueProofs.ValueRoundTrip | pkg/bytecode/encoder.go:654-867 | For every nested constant, reading what writeValue wrote and any suffix gives the constant, its functions renamed to chunk indices and nil fields unset, and exactly the suffix |
| ValueProofs.ValuesRoundTrip | pkg/bytecode/encoder.go:923-973 | The same for sequences of constants |
| ValueCodec.ReadValue | pkg/bytecode/decoder.go:1730-1952 | The recursive reader accepts, rejects and stops as the grammar says, for both tag versions |
| ValueCodec.SkipValue | pkg/bytecode/decoder.go:1535-1649 | The recursive skipper succeeds and stops as its grammar says |
| ValueCodec.WriteValue | pkg/bytecode/encoder.go:654-867 | Writes exactly the encoding, and refuses exactly the constants that cannot be serialized or use a string without an index |
| ValueCodec.WriteRecord | pkg/bytecode/encoder.go:654-867 | The same for records: type head, fixed fields, extra map |
| Chunks.ChunkSkipMirrorsRead | pkg/bytecode/decoder.go:778-799 | Whenever a chunk record reads with a source-map count the strict reader admits, skipping it stops at the same offset |
| Chunks.ChunkSkipExact | pkg/bytecode/decoder.go:778-799 | On every buffer where a chunk record reads, skipping it stops at the same offset if and only if its source-map count is below 2^63 or six times the count wraps to no positive int |
| Chunks.WideSourceMapInput | pkg/bytecode/decoder.go:778-799 | An input where they part |
| Chunks.LocalsSkipMirrorsRead | pkg/bytecode/decoder.go:1089-1100 | Whenever a local-variable table reads with an in-range count, skipping it stops at the same offset |
| Chunks.LocalsSkipExact | pkg/bytecode/decoder.go:1089-1100 | On every buffer where a local-variable table reads, skipping it stops at the same offset if and only if its count is below 2^63 or twice the count wraps to no positive int |
| Chunks.WideLocalsInput | pkg/bytecode/decoder.go:1089-1100 | An input where they part |
| Chunks.ChunkRoundTrip | pkg/bytecode/encoder.go:593-634 | A chunk record reads back, stack bound, code and source map, with the suffix left |
| Chunks.LocalsRoundTrip | pkg/bytecode/encoder.go:162-177 | A local-variable table reads back with the suffix left |
| Chunks.LiveMatchesData | pkg/bytecode/decoder.go:802-887 | A record that reads as module data reads as a live chunk, to the same offset, with the same stack bound and code and a lazily decoded source map that says the same |
| ChunkCodec.ReadLive | pkg/bytecode/decoder.go:802-887 | The chunk reader agrees with its grammar and position |
| ChunkCodec.SkipChunk | pkg/bytecode/decoder.go:778-799 | The chunk skipper agrees with its grammar and position |
| ChunkCodec.ReadLocals | pkg/bytecode/decoder.go:1104-1125 | The table reader agrees with its grammar and position |
| ChunkCodec.SkipLocals | pkg/bytecode/decoder.go:1089-1100 | The table skipper agrees with its grammar and position |
| ChunkCodec.ReadStrings | pkg/bytecode/decoder.go:707-728 | The string table reader agrees with its grammar and position |
| ChunkCodec.ReadRanges | pkg/bytecode/nsranges.go:310-344 | The range table reader agrees with its grammar and position, and reads nothing without the flag |
| ChunkCodec.ReadNSTable | pkg/bytecode/decoder.go:1006-1028 | The namespace table reader agrees with its grammar; a body that ends before the table has none |
| Sections.RangesRoundTrip | pkg/bytecode/nsranges.go:285-344 | The range table reads back, and leaves no bytes when the flag is clear |
| Sections.ChunksRoundTrip | pkg/bytecode/decoder.go:889-957 | The chunk section reads back as module data |
| Sections.LiveChunksRoundTrip | pkg/bytecode/decoder.go:745-775 | What was written as module data reads as live chunks that carry the same |
| Sections.NSTableRoundTrip | pkg/bytecode/encoder.go:975-993 | The namespace table, written in name order, reads back |
| Modules.FlagsRoundTrip | pkg/bytecode/encoder.go:534-559 | The six flags survive their bits |
| Modules.HeaderRoundTrip | pkg/bytecode/decoder.go:676-705 | A header that any runtime wrote is refused for its opcode set exactly when that is neither the reader's own nor the old one; else it asks for migration exactly when its code is of the old set (no capabilities, or the old signature), and leaves the body |
| Modules.UnknownCaps | pkg/bytecode/decoder.go:202-231 | A header with capabilities is refused for its mask exactly when that has a bit above the two known ones, whatever else it says |
| Modules.BodyRoundTrip | pkg/bytecode/encoder.go:132-157 | All sections of the body read back in order for every flag combination, with the suffix left |
| Modules.InflatedRoundTrip | pkg/bytecode/decoder.go:245-308 | A compressed body of admissible size inflates to itself |
| Modules.ModuleRoundTrip | pkg/bytecode/decoder.go:583-674 | Decoding what any runtime encoded gives back strings, ranges, chunks with source maps, constants with base, namespace table and local variables, for every flag combination; with a foreign opcode set it is refused as that |
| Modules.LeastVersion | pkg/bytecode/encoder.go:84-96 | On the output bytes of every encoding: the magic, a flag word that spells the module's flags, and a format version that admits the word; it is version 3 only where version 2 does not |
| Modules.ReaderAdmits | pkg/bytecode/decoder.go:676-705 | Of the headers of version 2 and 3 exactly those are refused for their flags whose word has an unknown bit, or at version 2 the bit of a compressed body or of split debug tables |
| Modules.OlderReaders | pkg/bytecode/encoder.go:84-96 | A runtime that knows no format version above 2 decodes, in full, every module that is neither compressed nor split |
| ModuleCodec.WriteBody | pkg/bytecode/encoder.go:132-157 | Writes exactly the body, and fails exactly when a constant cannot be written or a name has no index |
| ModuleCodec.Encode | pkg/bytecode/encoder.go:27-82 | Encodes to exactly the specified bytes, whose version, flags and parts LeastVersion and ModuleRoundTrip pin; fails exactly when the body does or outgrows the compressed limit |
| ModuleCodec.ReadHeader | pkg/bytecode/decoder.go:676-705 | Header, capabilities and opcode resolution agree with their grammar and position; what that grammar gives for the header of any runtime is HeaderRoundTrip |
| ModuleCodec.ReadBody | pkg/bytecode/decoder.go:583-674 | The section readers in order agree with the body grammar |
| ModuleCodec.Decode | pkg/bytecode/decoder.go:583-674 | Decode returns the module the grammar gives, or its error |
| Sorting.InsertionSort | pkg/bytecode/nsranges.go:241-283 | In place: ordered, and a permutation of what was there |
| Sorting.SortNames | pkg/bytecode/encoder.go:975-993 | Every name once, in strict string order |
| Migration.RemapInPlace | pkg/bytecode/opcode_migration.go:126-139 | The in-place stride walk computes the remapped code |
| Migration.RemapPreservesProgram | pkg/bytecode/opcode_migration.go:109-139 | Read with the new names and strides, remapped code has the same instruction starts, operands and high bits as the old, and the same mnemonics with the two TRACE opcodes read as NOOP |
| Migration.NameKept | pkg/bytecode/opcode_migration.go:20-66 | Every old opcode byte keeps its name, the two TRACE ones become NOOP, and only they do |
| Migration.RemapChanges | pkg/bytecode/opcode_migration.go:109-139 | Migration leaves code alone exactly when every opcode on its walk is below the removed ones |
| Migration.RemapRuns | pkg/bytecode/opcode_migration.go:109-139 | Code migrated when it is of the old set, and else left word for word, runs as the same program |
| Migration.StrideKept | pkg/bytecode/opcode_migration.go:83-97 | The old stride of a byte is the new stride of its image exactly for all bytes but 48 |
| Migration.StartsKept | pkg/bytecode/opcode_migration.go:126-139 | For arbitrary words the instruction starts survive exactly when the walk meets no opcode byte 48 with a word behind it |
| Migration.WidenedStart | pkg/bytecode/opcode_migration.go:83-97 | With such a word an instruction start is lost |
| Migration.RemapTwice | pkg/bytecode/opcode_migration.go:109-118 | Remapping again changes nothing exactly when the walk meets no opcode above the removed ones |
| Migration.ShiftedTwice | pkg/bytecode/opcode_migration.go:109-118 | Otherwise it changes the code again, so migration must happen once |
| Reachability.FuncSeqRefs | pkg/bytecode/nsranges.go:28-75 | The traversal meets exactly the functions nested in a constant |
| Reachability.ReadsAre | pkg/vm/vm.go:301-325 | The words a chunk reads constants by are the first arguments of the LOAD_CONST and LOAD_VAR instructions of its disassembly |
| Reachability.LoadsAre | pkg/bytecode/nsranges.go:81-131 | The constants a chunk reads are those such an instruction names, counted from the first constant of the pool |
| Reachability.StackFuncs | pkg/bytecode/nsranges.go:81-131 | Every chunk of the functions in a constant is seen or put on the worklist, and nothing else is |
| Reachability.ScanCode | pkg/bytecode/nsranges.go:81-131 | The stride walk over one chunk marks exactly the constants its instructions read, and stacks exactly its successors |
| Reachability.WalkNamespace | pkg/bytecode/nsranges.go:81-131 | The worklist walk ends, and the owner arrays then say for each chunk and constant which of the namespaces so far reach it: none, one, or several |
| Reachability.SeenIsReachable | pkg/bytecode/nsranges.go:81-131 | When the worklist is empty the chunks seen are exactly those on a path from the main chunk |
| Reachability.FindOwners | pkg/bytecode/nsranges.go:81-131 | The same for all namespaces |
| Validation.ValidateNSRanges | pkg/bytecode/nsranges.go:241-283 | Accepts exactly the tables of in-bounds entries whose constant runs are pairwise disjoint, and whose chunk runs are too and hold no entry's main chunk |
| Validation.RunsExclusive | pkg/bytecode/nsranges.go:241-283 | No constant lies in the runs of two valid entries |
| NSRanges.FindRefs | pkg/bytecode/nsranges.go:158-170 | For each chunk, exactly the constants whose functions use it |
| NSRanges.CollectRuns | pkg/bytecode/nsranges.go:172-234 | The runs, extended in place, are the maximal stretches of the namespace's own constants |
| NSRanges.CheckFuncs | pkg/bytecode/nsranges.go:172-234 | Passes exactly when each function constant of the range and every use of its chunk is the namespace's alone, and then bounds their chunks tightly and counts them |
| NSRanges.EntryOf | pkg/bytecode/nsranges.go:172-234 | An entry exactly for a namespace that meets every condition |
| NSRanges.FindNSRanges | pkg/bytecode/nsranges.go:143-234 | Exactly the qualifying namespaces get an entry, in name order; fails exactly when the table would not validate |
| NSRanges.CountCheckExact | pkg/bytecode/nsranges.go:214-226 | A tight run as wide as the number of function constants is exactly the namespace's chunks if and only if no two share a chunk; without sharing the width test is exact |
| NSRanges.RunsHold | pkg/bytecode/nsranges.go:181-194 | The runs of an emitted entry hold exactly the constants of the namespace's range that no chunk reachable from another namespace's main chunk reads |
| NSRanges.EmitsExactly | pkg/bytecode/nsranges.go:143-234 | A namespace with a range, no two of whose functions share a chunk, gets an entry if and only if no other namespace reaches its main chunk or the chunks of its functions or reads them, all that use these chunks lie in its range and are its own, its main chunk is used by no function, none of them is a main chunk, and they are consecutive; the entry's chunk run is then exactly those chunks |
| SharedChunk.Unsound | pkg/bytecode/nsranges.go:214-226 | A concrete program with a shared chunk for which the checks pass although another namespace reaches a chunk of the run |
| SharedChunk.Emits | pkg/bytecode/nsranges.go:143-234 | For that program the analysis emits exactly the bad entry, and it validates |
| SharedChunk.BuiltGives | pkg/bytecode/encoder.go:27-82 | The bundle encodes, and decodes in full |
| SharedChunk.DeferringFails | pkg/bytecode/decoder.go:1653-1676 | Decoding it at once succeeds; decoding it with the namespace deferred fails with the error for a function outside |
| References.ReadLive | pkg/bytecode/decoder.go:1653-1676 | No value reads without the chunks of all the functions in it, at any depth |
| References.NormKeeps | pkg/bytecode/encoder.go:654-867 | A constant that came back from a decode is as writable as before, with the same strings and the renamed chunks |
| NSRanges.EntryIsolated | pkg/bytecode/nsranges.go:143-234 | For every emitted entry, no chunk reachable from another namespace's main chunk reads a constant of its runs, lies in its chunk run or is its main chunk |
| NSRanges.EagerCodeStaysEager | pkg/bytecode/nsranges.go:143-234 | Code of a namespace that is not deferred reaches no chunk and no constant of one that is |
| NSRanges.RefsStayInside | pkg/bytecode/nsranges.go:158-230 | A constant that uses a chunk of an entry's run lies in that entry's runs and no other's; none uses a main chunk |
| Selection.SelectDeferred | pkg/bytecode/deferred.go:104-148 | Selects exactly the entries the predicate picks whose main chunk is not chunk 0, ordered by chunk run, with their constant runs in order; fails exactly on an invalid table |
| Selection.OwnerOfChunk | pkg/bytecode/deferred.go:89-99 | Finds an owner exactly of the deferred chunks |
| Selection.OneOwner | pkg/bytecode/nsranges.go:241-283 | A deferred chunk has one owner |
| Selection.Cursor.RunAt | pkg/bytecode/deferred.go:73-85 | The ascending cursor finds a run exactly when a search through all entries would |
| EagerDecode.ConstStep | pkg/bytecode/decoder.go:1491-1529 | At a constant record skipping reaches the next one, and so does reading if every function inside has its chunk; else the read fails as deferred |
| EagerDecode.ChunkStep | pkg/bytecode/decoder.go:745-775 | At a chunk record reading and skipping both reach the next one |
| EagerDecode.TableStep | pkg/bytecode/decoder.go:1064-1086 | At a local-variable table reading and skipping both reach the next one |
| LazyDecode.ReadLiveChunks | pkg/bytecode/decoder.go:745-775 | Exactly the slots of deferred chunks stay empty, the others hold what decoding all gives, and each noted offset is the first byte of the record it is for; on any bytes success means the slots are what the deferring grammar reads |
| LazyDecode.ReadConstsInto | pkg/bytecode/decoder.go:1491-1529 | The same for constants; fails exactly when an eager constant needs a deferred chunk or a run lies past the pool; on any bytes success means the slots are what the deferring grammar reads |
| LazyDecode.ReadTablesInto | pkg/bytecode/decoder.go:1064-1086 | The same for local-variable tables |
| LazyRead.NoneChunks | pkg/bytecode/decoder.go:745-775 | With nothing selected the deferring grammar reads every chunk record, or fails as reading does |
| LazyRead.NoneConsts | pkg/bytecode/decoder.go:1491-1529 | The same for constants |
| LazyDecode.RemapDecoded | pkg/bytecode/decoder.go:452-463 | Every decoded chunk is migrated once, empty slots stay empty |
| Refill.ReadRun | pkg/bytecode/deferred.go:198-247 | Fills exactly the empty slots of a run with the chunks at the noted offset, and says which it filled |
| Refill.ReadRunTables | pkg/bytecode/deferred.go:198-247 | Gives the chunks just read, and no others, their local variables |
| Refill.RemapFresh | pkg/bytecode/deferred.go:198-247 | Migrates the chunks just read and no others |
| Refill.ReadRunConsts | pkg/bytecode/deferred.go:248-260 | Fills a run of the pool with the eager values; fails exactly when a function inside lacks its chunk |
| Deferred.ExecUnit.FillChunks | pkg/bytecode/deferred.go:176-247 | Returns the namespace's final main chunk and fills exactly the empty slots of its run with final chunks, local variables included |
| Deferred.ExecUnit.Materialize | pkg/bytecode/deferred.go:176-263 | Writes only the namespace's own slots, with what decoding everything gives; a second call changes nothing and returns the same; fails exactly when a function inside lacks its chunk |
| Deferred.ExecUnit.NSChunk | pkg/bytecode/deferred.go:154-174 | The chunk eager decoding gives, or none for an unknown name, and the namespace is then no longer deferred; never fails when no deferred namespace needs another |
| Deferred.StateStep | pkg/bytecode/deferred.go:176-263 | A successful call adds its namespace to those whose slots are filled, whatever was filled before |
| Deferred.OrderFree | pkg/bytecode/deferred.go:176-263 | Which namespaces were asked for determines the tables: order and repetition leave no trace |
| Deferred.SelfServingSucceeds | pkg/bytecode/deferred.go:251-260 | If no deferred namespace needs another's chunks, materialization succeeds in every state |
| Deferred.AnyOrder | pkg/bytecode/deferred.go:154-263 | Over any sequence of calls from a fresh unit all succeed, and exactly the requested namespaces are filled |
| Bundles.NameChunks | pkg/bytecode/decoder.go:365-410 | Accepts exactly tables whose indices are chunks and agree with the deferred entries, and maps the others to their chunk |
| Bundles.OrderNames | pkg/bytecode/decoder.go:322-439 | Every namespace once, by ascending chunk index |
| Bundles.ChooseMain | pkg/bytecode/decoder.go:322-439 | The main chunk is that of "core" if decoded, else that of the greatest index, else chunk 0; refuses exactly a deferred one |
| Bundles.EagerPass | pkg/bytecode/decoder.go:322-439 | One pass over the body leaves the tables that decoding everything gives with the deferred slots empty; refuses for exactly the stated reasons; over any bytes success means it has collected what the deferring grammar reads |
| Bundles.Finish | pkg/bytecode/decoder.go:322-439 | The unit built from the pass serves, names and orders the namespaces, or the reason it is refused |
| Bundles.DecodeBundle | pkg/bytecode/deferred.go:21-29 | For every bundle all of which decodes and every choice: the unit serves what eager decoding gives with exactly the chosen namespaces' slots empty, or the refusal is one of the listed ones.  For all bytes: it fails, or the unit presents what the deferring grammar reads of them, names and main chunk included |
| DeferralProofs.RecordRefs | pkg/bytecode/encoder.go:654-867 | Skipping a written constant meets function records for exactly the indexed chunks of its functions |
| DeferralProofs.EncodedBody | pkg/bytecode/encoder.go:132-157 | The body the encoder writes decodes in full as live code, to what was encoded |
| DeferralProofs.TargetInside | pkg/bytecode/nsranges.go:158-230 | A deferred chunk is used only by constants deferred with the same entry |
| DeferralProofs.NeverOutside | pkg/bytecode/decoder.go:1653-1676 | For an encoded bundle under any choice, no value decoded at once and none materialized later needs a chunk of a namespace still deferred: that error cannot arise |
| DeferralProofs.OnlyMainRefused | pkg/bytecode/decoder.go:395-439 | An encoded bundle with chunks is refused only when its last namespace is deferred and "core" is deferred or absent |
| DeferralProofs.AcceptedHasMain | pkg/bytecode/decoder.go:395-439 | And then it is always refused |
| DeferralProofs.RunHoldsNoMain | pkg/bytecode/nsranges.go:143-234 | No main chunk lies in an emitted chunk run |
| DeferralProofs.MainAgrees | pkg/bytecode/decoder.go:395-439 | The unit's main chunk is the eager one exactly when "core" is not deferred |
| DeferralProofs.EncodedWhole | pkg/bytecode/encoder.go:27-82 | What any runtime encoded, compressed or not, decodes in full, its code to be migrated exactly when it is of the old opcode set; with a foreign one the header is refused |
| DeferralProofs.ServesModule | pkg/bytecode/decoder.go:802-887 | A served chunk has the stack bound, source map and local variables of the module's chunk, and its code: migrated the same program, else word for word |
| EndToEnd.CallsFaithful | pkg/bytecode/deferred.go:176-263 | Over any sequence of calls every filled slot holds the eager value |
| EndToEnd.UnitStarts | pkg/bytecode/deferred.go:21-29 | A fresh unit's tables meet what the next lemma starts from |
| EndToEnd.NothingOutside | pkg/bytecode/decoder.go:1653-1676 | With or without a range table, nothing decoded of an encoded bundle needs a missing chunk |
| EndToEnd.MainDecoded | pkg/bytecode/decoder.go:365-395 | A namespace that is not deferred has its main chunk decoded at once |
| EndToEnd.DeferredServesEncoded | pkg/bytecode/deferred.go:154-263 | For every bundle any runtime encoded, with or without a range table, every choice and every sequence of materializations, each succeeds with the namespace's chunk as encoded, each filled slot holds what was encoded, and exactly the slots of namespaces not yet requested are empty; code of the old opcode set is served as the same program, all other code word for word |
| EndToEnd.ChosenEntries | pkg/bytecode/deferred.go:104-148 | An entry is selected exactly when its name is picked, unless its main chunk is chunk 0 |
| EndToEnd.Open | pkg/bytecode/deferred.go:21-29 | Decoding what any runtime encoded, under any choice, is refused for a foreign opcode set, and else succeeds exactly when there is a chunk, the namespace table names chunks of the bundle and the main chunk is not left out; missing are then exactly the main chunks, chunk runs and constants of the entries picked, and all else is there as encoded |
| EndToEnd.Ask | pkg/bytecode/deferred.go:154-162 | Any sequence of requests by name of such a unit is answered with the chunks as encoded, and with none for unknown names |
| EndToEnd.Serve | pkg/bytecode/deferred.go:21-29 | The same decode followed by any requests by name: each is answered with the chunk as it was encoded, migrated if its code is of the old opcode set and else word for word, and with none for an unknown name |
| CoreDeferred.IsCompiled | pkg/bytecode/nsranges.go:143-234 | The deferral theorems apply to a concrete bundle with the namespaces "core" and "x" |
| CoreDeferred.EagerMain | pkg/bytecode/decoder.go:395-410 | Decoded at once it runs the chunk of "core" |
| CoreDeferred.OtherMain | pkg/bytecode/decoder.go:395-410 | With only "core" deferred it runs that of "x" |
| CoreDeferred.BothRefused | pkg/bytecode/decoder.go:395-410 | With both deferred it is refused |
| Builder.ModuleBuilder.InternString | pkg/bytecode/encoder.go:311-319 | Registers the string once; every earlier index stays |
| Builder.ModuleBuilder.AddChunk | pkg/bytecode/encoder.go:322-351 | Registers the chunk and its file and variable names once; a known chunk changes nothing |
| Builder.ModuleBuilder.InternValue | pkg/bytecode/encoder.go:359-454 | Afterwards every string and function chunk the writer refers to for a serializable value, at any depth, is registered, and the typed flag says what the value needs |
| Builder.TypedMeans | pkg/bytecode/encoder.go:359-454 | The flag set while interning is on exactly when something written among the constants, at any depth, has a tag byte of a record type or record with a namespace (0x70, 0x71) or of a deftype instance (0x34) |
| Builder.ModuleBuilder.AddConst | pkg/bytecode/encoder.go:354-357 | The constant joins the pool, interned; tables only grow |
| Builder.ModuleBuilder.SetNSEntry | pkg/bytecode/encoder.go:457-464 | The name maps to its chunk's stable index |
| Builder.ModuleBuilder.SetNSConstRange | pkg/bytecode/encoder.go:469-474 | Notes the constants a namespace's compilation appended, and nothing else |
| Builder.ModuleBuilder.Build | pkg/bytecode/encoder.go:492-518 | The module holds what was registered with the flags it needs, so that decoding its encoding loses nothing; the writer then refuses exactly unserializable constants, never a missing string; the typed-constants capability is set exactly when the written constants hold such a tag |
| Builder.ModuleBuilder.DeriveRanges | pkg/bytecode/nsranges.go:143-234 | The entries are those of the program the builder holds |
| Builder.ModuleBuilder.BuildDeferrable | pkg/bytecode/encoder.go:478-489 | Build plus exactly the emitted entries, or nothing if they do not validate; then the module is one the deferral theorems apply to |
| Builder.BuiltFits | pkg/bytecode/encoder.go:577-591 | "Not in string table" is unreachable for a built module |
| Builder.BuiltEncodable | pkg/bytecode/encoder.go:900-921 | Chunk index -1 is unreachable for a built module |
| Builder.BuiltCompiled | pkg/bytecode/encoder.go:260-285 | A built deferrable module and its analysed program agree on constants, code, chunk index and namespaces |
| Shapes.ValueShaped | pkg/bytecode/decoder.go:1730-1952 | Every value a read gives has the sizes Go guarantees |
| Shapes.DecodedCountable | pkg/bytecode/decoder.go:583-674 | A decoded module can be handed to the writer |
| Shapes.DecodedNameable | pkg/bytecode/decoder.go:583-674 | The names in a decoded module's debug tables are no more, and no longer, than a companion can index |
| Companion.NameTable.Intern | pkg/bytecode/debug_companion.go:78-155 | The companion's own string table holds each name once, at a stable index |
| Companion.BuildTable | pkg/bytecode/debug_companion.go:78-155 | Every file and variable name gets an index in it |
| Companion.EncodeCompanion | pkg/bytecode/debug_companion.go:78-155 | Writes the digest of the stripped bundle, the names and every chunk's tables |
| Companion.CompanionRoundTrip | pkg/bytecode/debug_companion.go:157-255 | Against the bundle it was made for the companion gives every table back; against any bundle with another digest it is refused |
| Companion.DecodeCompanion | pkg/bytecode/debug_companion.go:157-255 | The reader returns what the grammar gives, or its error |
| SplitDebug.FindChunkIndex | pkg/bytecode/encoder.go:900-921 | By identity where known, else the first chunk with the same stack bound and code, else -1 |
| SplitDebug.FoundSame | pkg/bytecode/encoder.go:900-921 | With the running opcodes a function is found again, at the first equal chunk: its own exactly when no earlier chunk is equal |
| SplitDebug.RelabelledInput | pkg/bytecode/encoder.go:900-921 | An input: two chunks that differ in a variable's name, the second found as the first |
| SplitDebug.StripDebug | pkg/bytecode/strip.go:17-35 | Decodes, drops both tables of every chunk, sets the flags and encodes again |
| SplitDebug.Split | pkg/bytecode/debug_companion.go:49-76 | Succeeds exactly when the stripped bundle decodes with every stack bound and code at its index; then the companion holds the original tables bound to the stripped bytes |
| SplitDebug.StripEncodes | pkg/bytecode/strip.go:17-35 | For an encoded bundle without a range table whose functions are found again, stripping on any runtime encodes the same module without the tables, stamped with that runtime's opcode set |
| SplitDebug.SplitWorks | pkg/bytecode/debug_companion.go:49-76 | Splitting a bundle of the running opcodes, without a range table, never fails a check |
| SplitDebug.SplitKeepsFunctions | pkg/bytecode/encoder.go:900-921 | After it every function constant, at any depth, refers to a chunk with its stack bound and code |
| Restore.Attach | pkg/bytecode/debug_companion.go:273-312 | Each chunk gets its own companion tables: local variables appended, source map shown unless the chunk still has a raw one |
| Restore.DecodeWithDebug | pkg/bytecode/debug_companion.go:273-312 | Decodes, and attaches the companion exactly when the bundle is marked split and there is one; refuses a wrong digest or chunk count.  On any bytes success means every chunk was read and has its own debug information.  What that comes to for encoded and split bundles is WithDebug |
| Restore.SplitRestores | pkg/bytecode/debug_companion.go:273-312 | Nothing is lost: the stripped bundle with its companion, on any runtime, gives every chunk its stack bound, code, source map and local variables back |
| Restore.SplitRefusals | pkg/bytecode/decoder.go:322-439 | The split bundle is refused exactly when the bundle was, for the same reason |
| WithDebug.RunAsEncoded | pkg/bytecode/debug_companion.go:273-312 | A bundle of any runtime that is not marked split, with any companion bytes, or a marked one with none: refused for a foreign opcode set, else accepted exactly when it has a chunk and its table names its chunks; every chunk then has the stack bound, code, source map and local variables it was encoded with |
| WithDebug.RunWithoutCompanion | pkg/bytecode/debug_companion.go:283-285 | A split bundle run without its companion, on any runtime, is accepted exactly when the bundle could be run, and gives every chunk its stack bound and code with no source map and no local variables |
| WithDebug.RunWithCompanion | pkg/bytecode/debug_companion.go:273-312 | The same with its companion: every chunk gets everything back, on any runtime |
| WithDebug.SplitFlags | pkg/bytecode/strip.go:17-35 | On the bytes of a split bundle: format version 3, and the flag word of the bundle with the split bit set and the local-variable bit clear, compression kept |
| WithDebug.StrippedCode | pkg/bytecode/strip.go:11-35 | Of a bundle of the old opcode set the stripped form runs as the bundle does, chunk by chunk, exactly when the bundle had no capabilities or no opcode on the chunk's walk is a removed or a later one: else it is served unmigrated |
| WithDebug.StrippedInput | pkg/bytecode/strip.go:11-35 | An input: the bundle runs MAKE_MULTI_ARITY, its stripped form TRY_PUSH |
| Baton.State.SettleCapacity | cmd/bench-baton/main.go:270-287 | A request of 0 or less takes the recorded capacity, or 4 if there is none; another is recorded if it is the same, none is recorded or the pool is idle, and refused without a change otherwise |
| Baton.State.Join | cmd/bench-baton/main.go:355-451 | Settles the capacity and records the waiter, or records nothing |
| Baton.State.Grant | cmd/bench-baton/main.go:355-451 | Moves the worker's record from waiter to holder |
| Baton.State.Withdraw | cmd/bench-baton/main.go:355-451 | Removes the waiter's record and no other |
| Baton.State.Release | cmd/bench-baton/main.go:482-492 | Removes every record of the worker and no other |
| Baton.State.Reap | cmd/bench-baton/main.go:313-331 | Keeps exactly the records of living workers, in order, and returns the others |
| Baton.StepInv | cmd/bench-baton/main.go:355-492 | Every step keeps the locks, phases and records consistent |
| Baton.RunInv | cmd/bench-baton/main.go:355-492 | So they are consistent in every reachable state, over all interleavings with cancels, crashes and reaps |
| Baton.GrantedApart | cmd/bench-baton/main.go:355-451 | Two granted workers are both shared, with different slots below the recorded capacity: an exclusive one is alone |
| Baton.WithinCapacity | cmd/bench-baton/main.go:453-472 | No more shared workers are granted than the recorded capacity |
| Baton.CapacityFrozen | cmd/bench-baton/main.go:270-287 | A nonzero capacity changes only by a new worker while nobody is recorded, and never to zero |
| Baton.StartSettles | cmd/bench-baton/main.go:270-287 | In every run, a worker that starts is turned away, with the records unchanged, exactly when it asks for a positive capacity other than the nonzero one recorded while somebody is recorded; else it joins the queue under the capacity it asked for, or for 0 or less under the recorded one, or 4 |
| Baton.RequestKept | cmd/bench-baton/main.go:262-287 | From its start until it has run, as long as it lives, the recorded capacity is the positive one a worker asked for, whatever the others do |
| Baton.GateOpen | cmd/bench-baton/main.go:416-437 | A queued shared worker can pass the gate exactly when no exclusive worker holds it |
| Baton.OvertakenRun | cmd/bench-baton/main.go:416-437 | A run in which a worker that starts after an exclusive one has queued is granted while that one still waits |
| Baton.ShrunkRun | cmd/bench-baton/main.go:270-287 | A run in which the capacity shrinks under a releasing worker's slot |
| Baton.StepPast | cmd/bench-baton/main.go:416-437 | While an exclusive worker holds the gate, a step only shrinks the set of shared workers past it |
| Baton.BoundedOvertaking | cmd/bench-baton/main.go:416-437 | From the step where it takes the gate until it gives it up, no shared worker is granted that had not passed the gate before |
| Baton.NoDeadlock | cmd/bench-baton/main.go:355-472 | While a worker waits and nobody is running or giving locks back, some lock step is enabled |
| Baton.RunsEnd | cmd/bench-baton/main.go:355-492 | A run has no more moves than the workers have steps left: every acquisition ends |
| Baton.TotalAtMost | cmd/bench-baton/main.go:355-492 | At most eleven steps a worker |
| Baton.StuckMeansDone | cmd/bench-baton/main.go:355-492 | Where no step is left but new arrivals, cancels, crashes and reaps, every worker is new, gone or dead |
| Baton.EndsClean | cmd/bench-baton/main.go:474-492 | A worker whose acquisition failed or whose run is over holds no lock and has no record |
| Baton.CancelledUnwinds | cmd/bench-baton/main.go:355-451 | A cancelled worker only unwinds: it is never granted |
| Baton.ReapClears | cmd/bench-baton/main.go:313-331 | Reaping removes the records of crashed workers and keeps all others |
| Trailer.AppendTrailer | pkg/bundle/bundle.go:266-307 | Appends payload, resources, store id and the trailer for them, which LeastTrailer says is the least that will do |
| Trailer.PayloadFitsFile | pkg/bundle/bundle.go:145-163 | The stepwise guard accepts exactly when the unbounded sum fits, for all 64-bit sizes |
| Trailer.File.ParseTrailer | pkg/bundle/bundle.go:68-138 | The seeking reader finds exactly the trailer the last bytes describe |
| Trailer.ReadBundled | pkg/bundle/bundle.go:202-238 | Returns the parts a valid trailer describes, else nothing |
| Trailer.BaseBinarySize | pkg/bundle/bundle.go:243-258 | The size before the payload, or the whole size |
| Trailer.AppendedParses | pkg/bundle/bundle.go:68-138 | An appended file parses as what was appended, with its kind and sizes |
| Trailer.AppendedReads | pkg/bundle/bundle.go:202-238 | Reading it returns the payload, resources and store id |
| Trailer.RebundlingRestoresBase | pkg/bundle/bundle.go:243-258 | Its base size is the base's length, so bundling again starts from the same bytes |
| Trailer.LeastTrailer | pkg/bundle/bundle.go:266-307 | No shorter bytes behind payload, resources and store id make the file read back as these three on the same base; the trailer has 28 bytes with a store id, 20 with resources only, else 12 |
| Trailer.PlainFile | pkg/bundle/bundle.go:68-138 | A file that ends with no trailer's magic holds no bundle, and its base size is its size |
| Trailer.CorruptFile | pkg/bundle/bundle.go:68-138 | A trailer that claims more than stands before it gives no bundle and no base size |
| TopoSort.Reaches | cmd/lgbgen/main.go:67-91 | True exactly when a nonempty path of requirements leads to the target |
| TopoSort.Sorter.Visit | cmd/lgbgen/main.go:316-362 | The three-colour visit places the node behind its requirements, or has met a cycle among the nodes |
| TopoSort.TopoSort | cmd/lgbgen/main.go:316-362 | Fails exactly when the requirements among the nodes form a cycle; else every node once, every requirement in the set before it, only what core requires before core, and before any node y only core, what core requires, and nodes not after y in string order with what they require |
| TopoSort.OldWay | cmd/lgbgen/main.go:93-133 | A path to ir.build with the new edges gives one without |
| TopoSort.InjectionAcyclic | cmd/lgbgen/main.go:93-133 | Adding an edge from ir.build to every pass that does not reach it makes a cycle exactly when there was one |
| TopoSort.FindPasses | cmd/lgbgen/main.go:93-133 | Exactly the passes among the nodes that do not reach ir.build |
| TopoSort.DeriveOrder | cmd/lgbgen/main.go:93-133 | Fails exactly when the requirements themselves form a cycle; else the order respects them and puts ir.build behind every pass that does not depend on it |

## Left out

- The frozen version-1 decode path, decode statistics, error wording, capability names and version reports.
- Streams without backing data: bundles are decoded from byte slices, so source maps are always lazy.
- Persistent maps and sets: a map is its list of entries in iteration order; equal keys are not merged, and the order a decoded map iterates in is not modelled.
- Metadata on lists, and an empty list that carries metadata.
- Child constant pools and decoding with a parent pool: the pool is one sequence.
- The deduplication of equal constants in `vm.Consts`; a built pool is the sequence of constants added.
- Counts of 2^63 and more in the deferral theorems: these are about bundles that decode under readers that refuse such counts; the encoder never writes them.  What happens beyond is stated for single records.
- Running out of memory on a large `make`.
- The type scope of decoded records, and var resolution: a reference decodes to its two names.
- Sharing of chunks by reference: a unit's tables hold chunks by value, so the chunks with attached debug information come back beside the unit.
- The mutex of `materialize`: calls happen one after another.
- Bundles.DecodeBundle: of bytes part of which does not decode strictly, says when the unit presents what was read, not which error a failure reports.
- Deferred.ExecUnit.NSChunk: of a unit decoded from such bytes, promises only that the unit stays well formed.
- ValueProofs.WideExtra: the fixed fields of the record hold no map count above 2^63; with one inside, reading and skipping may part earlier and come out even again.
- Modules.LeastVersion: compares the format versions 2 and 3, which are those the encoder writes; version 1 admits the two lowest flags but has another body format.
- NSRanges.EmitsExactly: is about namespaces no two of whose functions share a chunk; with a shared one the width test is what NSRanges.CountCheckExact says.
- NSRanges.EntryIsolated: assumes that no two function constants of the range share a chunk, as do NSRanges.EagerCodeStaysEager, NSRanges.RefsStayInside and what builds on them; with a shared chunk it is false, as SharedChunk shows.
- DeferralProofs.NeverOutside: the same assumption, through the compiled table, as for DeferralProofs.TargetInside.
- SplitDebug.StripEncodes: bundles without a range table, as are SplitDebug.SplitWorks, SplitDebug.SplitKeepsFunctions, Restore.SplitRestores, Restore.SplitRefusals and the split theorems of WithDebug; the chunk indices of a range table are taken over as they are.  All but StripEncodes and WithDebug.StrippedCode are about bundles whose code is of the splitting runtime's opcodes; for older ones those two say what happens, if every function is found again.
- Stripping a bundle of the old opcode set one of whose functions is not found again: the model writes the index -1 as the code does, and says nothing of the result.
- Real locks, files, signals, process groups, the ledger and the status report of bench-baton: a lock is held or free, a step is atomic, a crash drops all locks.  Reuse of process ids and collisions of random token ids are not modelled.
- The deadline of an acquisition: a cancel may happen at every poll.
- Parsing `:require` forms, discovering embedded sources and installing generated trees in lgbgen.
- Collecting resources, file permissions and the atomic rename of a bundled executable.
- `vm` execution, the compiler and the let-go sources; cmd/perf-page, cmd/bench-ratchet, cmd/bootprobe, the generators and the CLI.
