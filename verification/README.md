# countercow, modelled and proved in Dafny

countercow is a terminal dashboard for .NET processes. It opens diagnostic sessions on a target over a socket, parses
the nettrace streams they produce, and shows live counters, runtime events and CPU profiles. This project models the
parts of it that carry algorithms and state, and proves what they are for. `dafny verify dfyconfig.toml` checks all of it.

## How it is laid out

Code that computes is a function. Code that works by changing things is a class or a method with loops, proved equal to a
specification function; the theorems are then about that function. Decoders are functions from the unread bytes to a value
and what is left, writers take the bytes that follow them, so a round trip is one equation, `Read(Put(x, k)) == Done(x, k)`.

**The nettrace parser.** The repository has only the reader; the writer here is the specification's other half, following
`NetTraceFormat_v5.md` of microsoft/perfview and the unsigned LEB128 of section 7.6 of the DWARF 5 standard.

| files | contents |
|---|---|
| `Wire`, `Decode`, `Reader` | fixed-width integers, varints, strings; the in-memory reader |
| `Fields`, `Event`, `Rows`, `RowWriter` | delta-compressed row headers and the rows of a block |
| `Schema`, `Metadata`, `SchemaWriter`, `Nesting` | self-describing metadata records, both field-list encodings, how deep reading them goes |
| `Values`, `Payload` | type-directed payload decoding |
| `Framing`, `Stream` | the FastSerialization envelope and the position-tracking stream reader |
| `Blocks`, `Forward`, `Parser` | the parser: what is known after each object, and the loop that learns it |
| `TraceWriter`, `RoundTrip`, `Truncation` | whole streams: reading undoes writing, and cut streams never invent anything |

**The CPU profile.** `Steps` states which definition of a recycled stack id answers for a sample; `Collect` and
`TraceProfile` carry that to the bytes of a whole trace. `Samples` and `Weights` show that counting per address loses
nothing against keeping every stack. `Methods` is address lookup, `Names` and `Ranking` are the order of rows, `HotMethods`
the ranking and what its numbers mean, `HotReference` the ranking computed the slow way from the samples themselves.
`Profile` puts it all together, from the first byte of a trace to the rows.

**Runtime events.** `RuntimeState` is the record of collections, pauses, allocations and exceptions; `RuntimeRuns` proves
conservation over every list of events, against definitions that look at the events alone; `PauseClaims` and
`Promotions` say which collection each pause and each promotion ends up on.

**Sessions.** `Interval` is the refresh-rate debounce, `App` the dashboard's state and keys, `EventLoop` the loop with its
three session slots, `Windows` what one turn does to them. A turn of the loop is an input (what arrived, what the clocks
said, which calls worked), so a list of turns is a run. `SessionRuns`, `RunningSessions`, `Screens`, `RateRuns` and
`Windows` hold for every run. A session's slot and the session on the target are kept apart: a stop attempt empties the
slot whether or not it works.

**Drawing and IPC.** `Graph` and `Stacked` paint sub-cell plots into a buffer; `IpcFrame` and `IpcPayload` are the
diagnostics messages.

## Main results

- `RoundTrip.FileUndoesPut`, `Truncation.PrefixNeverInvents`: a written file reads back batch for batch; a strict prefix
  gives a prefix of the batches and then an error.
- `TraceProfile.TraceProfileIsExact` with `Steps.LogIsExact` and `Samples.CountsAreExact`: from the bytes of a trace to
  exact counts, every sample accounted for. `TraceProfile.TraceProfileIsTheReference`: where ids are not recycled too
  soon, the counts of the reference that pairs each sample with its own stack.
- `Profiles.ProfileOfAFile`, `Profiles.ProfileIsTheReference`: what profiling a written file shows is, row for row,
  what a reference with no counts, no table and no hash maps gives; where methods do not overlap, one that names each
  address by looking through all of them. `HotReference.HotMethodsAreScanned` says it of any samples,
  `HotReference.RowNamesAreExact` which labels get a row, `HotMethods.HottestFirst` in what order.
- `HotMethods.RankingIsDetermined`, `HotMethods.HidingCommutes`, `Methods.ResolveIsScan`: hash order cannot show, hiding
  parked threads is filtering, binary search is a scan. `HotMethods.RowIsExact`: what a row's shares mean, and exactly when a
  total share is at most 100%.
- `RuntimeRuns.PausesAreConserved`, `RuntimeRuns.EveryStartIsACollection`, `PauseClaims.PausesGoWhereClaimed`.
- `SessionRuns.EverySessionIsStoppedOnce`, `RunningSessions.TwoOfAKindExactly`, `Screens.SlotsMatchTheScreen`,
  `Windows.WindowsLastFiveSeconds`, `RateRuns.CounterSessionsAreDebounced`.
- `Graphs.RenderingIsLossless`, `Stacks.CellTakesTheHighest`, `IpcFrame.ReadUndoesEncode`, `IpcFrame.ReadIsEncoded`.

## Where the code and its own words part

The model follows the code.

- `src/nettrace/mod.rs:9` and `src/nettrace/blocks.rs:163-164` say stack and sequence-point blocks are skipped. Once stacks
  are collected, stack blocks are read, and a sequence point is always noted.
- `src/profile/run.rs:53-59` calls a sequence point the boundary at which waiting samples are resolved. The flag is looked
  at only after the next non-empty batch, so that batch is drained too, ahead of its own stacks.
  `Steps.StackComesTooLate` says what its samples get and `Steps.FindsOwnExactly` when a sample gets its own stack.
- `src/profile/state.rs:171-173` rules out shares above 100%. Totals are deduplicated per address, not per label:
  `HotMethods.TotalCanExceedAll` is a sample at 200%, `HotMethods.RowIsExact` says exactly when a share stays within 100%,
  and `Weights.TotalCountsStacks` exactly when a total counts stacks.
- `src/ui/mod.rs:391-392` ends a profile session with its window. A collection that ends any other way leaves its session
  running while the screen stays up: `Screens.ProfileOutlivesItsCollection` says exactly when,
  `Screens.ALateResultStrandsASession` gives a run.
- `src/ui/mod.rs:297-299` will not stack a second counter session on one that would not close. The slot is emptied before
  the stop fails, so the next settled rate does: `Screens.TwoCounterSessionsAtOnce` gives a run,
  `RunningSessions.TwoOfAKindExactly` says exactly when two of a kind run at once.
- `src/runtime/state.rs:159-160` gives a pause to the collection it brackets. Where the collection ends before the restart
  the pause goes to the next one: `PauseClaims.BracketedExactly` says exactly when it does not.
- `src/nettrace/metadata.rs:12-13` guards against unbounded recursion through nested objects. Array codes recurse without
  being checked: `Nesting.ArraysNestWithoutLimit` is a list that goes as deep as one likes, `Nesting.LimitExceededExactly`
  says exactly which accepted lists took the readers past the limit, `Nesting.FieldsV2ExceedByArrays` bounds all others.
- `src/app.rs:328` opens the investigation from a finished profile; no key on the profile screen does so.
  `Apps.AFinishedProfileStays` is the case, `Apps.InvestigationOpensExactly` says exactly what opens it.
- `src/ui/graph.rs:200-214` adds band heights in 64 bits: `Stacks.AWrappedStackFalls` is a stack whose upper band ends
  below the lower, `Stacks.TopsRiseUnlessWrapped` says exactly which heights stack up. With overflow checks on, the
  wrapped case stops the program instead.
- `src/ipc/frame.rs:165` promises a success reply; any command set with the success id is accepted (`IpcFrame.ErrorsSurface`).
- A V1 field list keeps an array type as a scalar of array type, which payload decoding then refuses
  (`Values.InlineArraysAreRefused`).

## Model

| member | source | states |
|---|---|---|
| RoundTrip.RunUndoesPut | src/nettrace/blocks.rs:161-255 | Reading a whole written stream, for any list of trace, event, metadata, stack, sequence-point and unrecognised blocks, hands back exactly the non-empty event batches in order and then the end, knowing precisely what the blocks mean |
| RoundTrip.FileUndoesPut | src/nettrace/blocks.rs:111-218 | The same from the first byte of a file: the preamble is consumed and every padding computed from offset 32 agrees with the writer's |
| RoundTrip.NextUndoesPut | src/nettrace/blocks.rs:165-218 | One call returns the next batch; the knowledge is that of all blocks up to it, and the reader stands at the byte after it, at the position the writer's padding assumes |
| RoundTrip.NextPassesOver | src/nettrace/blocks.rs:165-218 | Blocks without events are absorbed without returning, whatever their number |
| RoundTrip.BlockMeans | src/nettrace/blocks.rs:165-255 | One written block is read as its meaning and leaves what follows it untouched |
| RoundTrip.BodyUndoesPut | src/nettrace/blocks.rs:224-255 | A block's content comes back whatever its size, absolute offset and padding bytes |
| RoundTrip.ContentMeans | src/nettrace/blocks.rs:178-216 | Decoding a block's content and absorbing it is the block's meaning, by kind |
| RoundTrip.StackBlockUndoesPut | src/nettrace/blocks.rs:276-303 | Stacks written with consecutive ids (modulo 2^32) are bound to exactly those ids |
| RoundTrip.BrokenStackIsRefused | src/nettrace/blocks.rs:276-303 | A stack whose size is no multiple of the pointer width is refused |
| RoundTrip.RecordsUndoPut | src/nettrace/blocks.rs:192-198 | The rows of a metadata block bind their records one after another |
| RoundTrip.TraceUndoesPut | src/nettrace/blocks.rs:257-274 | The 48-byte trace header reads back field for field |
| RoundTrip.EndIsForever | src/nettrace/blocks.rs:166-174 | After the end every further call answers the end, whatever the bytes |
| RoundTrip.NullReferenceEnds | src/nettrace/fastserial.rs:51-57 | A null reference where an object should start is the clean end |
| RoundTrip.KindIsItsName | src/nettrace/blocks.rs:178-214 | The names the format gives its blocks are told apart as such: each known name goes to its own arm, any other content is passed over, and only `SPBlock` notes a sequence point |
| TraceWriter.RegistryAfter | src/nettrace/blocks.rs:192-198 | The metadata known after a stream is that of precisely its metadata blocks' records, bound in order |
| TraceWriter.LastRecordWins | src/nettrace/metadata.rs:118-124 | The last record of an id is the one the registry answers with |
| TraceWriter.BindRecordsKeepsOthers | src/nettrace/metadata.rs:118-124 | Ids no record names keep what they had |
| Truncation.PrefixRunsOut | src/nettrace/blocks.rs:165-255 | A strict prefix of a written stream reads some whole number of blocks as the full run does and then fails with an I/O error; what is known is what those blocks mean, and at most the trace header or sequence point the next block starts with |
| Truncation.PrefixNeverInvents | src/nettrace/reader.rs:72-103 | Its batches are a prefix of the full run's, its metadata that of a prefix of the blocks, and it never ends cleanly |
| Truncation.BlockCutShort | src/nettrace/blocks.rs:220-255 | A block with its end missing fails with an I/O error, having taught nothing or, for a trace header or sequence point, what it says; a block that is whole is read as in the full stream |
| Blocks.NextEvents | src/nettrace/blocks.rs:165-218 | Every batch handed back has events and consumed at least one byte, so reading forward terminates on every input |
| Forward.NextOnlyMovesForward | src/nettrace/blocks.rs:165-218 | Whatever the bytes, a call takes some off the front of the stream and leaves what is behind them untouched |
| Blocks.ReadObject | src/nettrace/blocks.rs:178-216 | Past its header an object hands back a batch with events, or is quiet, or fails, never ends the stream, and leaves no more bytes than it was given |
| Parser.NettraceParser.Next | src/nettrace/blocks.rs:165-218 | The loop over parser fields returns the batch, the error or the end the specification gives and leaves every field as it gives it, on failure too; short of a failure the stream stands where it says |
| Parser.NettraceParser.ReadOneObject | src/nettrace/blocks.rs:178-216 | Each kind of object teaches what it should and nothing else; on the error paths a trace header or sequence point already seen is kept |
| Parser.NettraceParser.ReadEventBlock | src/nettrace/blocks.rs:184-191 | An event block is returned unless it is empty |
| Parser.NettraceParser.ReadMetadataBlock | src/nettrace/blocks.rs:192-198 | Records are inserted as they parse, so an error leaves those before it in place |
| Parser.NettraceParser.ReadStackBlock | src/nettrace/blocks.rs:199-204 | A stack block fills the current generation |
| Parser.NettraceParser.TakeSequencePoint | src/nettrace/blocks.rs:144-146 | The flag is handed out once |
| Parser.Open | src/nettrace/blocks.rs:111-124 | A new parser knows nothing and stands behind the preamble, or reports why not |
| Parser.StackTable.Get | src/nettrace/blocks.rs:61-66 | The newer generation answers first |
| Parser.StackTable.Rotate | src/nettrace/blocks.rs:77-79 | The current generation becomes the previous one |
| Parser.ReadStacks | src/nettrace/blocks.rs:276-303 | Stacks read before an error stay in the table |
| Blocks.PointerSize | src/nettrace/blocks.rs:202-203 | A claimed pointer width of 4 to 8 is used as it is, a smaller claim counts as 4 and a larger one as 8 |
| Framing.PreambleUndoesPut | src/nettrace/fastserial.rs:24-49 | The preamble is recognised and exactly its bytes consumed |
| Framing.ObjectHeaderUndoesPut | src/nettrace/fastserial.rs:54-87 | An object header reads back with its type name and versions |
| Framing.SizedUndoesPut | src/nettrace/blocks.rs:228-255 | A size-prefixed block padded by absolute offset reads back from any offset |
| Framing.SizesRefusedExactly | src/nettrace/blocks.rs:238-247 | A block is refused for its size if and only if it declares less than 0 or more than 256 MiB, a type name if and only if it declares less than 0 or more than 1024 |
| Framing.TagsRefusedExactly | src/nettrace/fastserial.rs:54-66 | Where an object may begin, 5 begins one, 1 ends the stream, and any other byte is refused |
| Framing.PreambleRefusedExactly | src/nettrace/fastserial.rs:24-52 | Magic, length and serializer name are checked in this order and the first that is wrong is named |
| Framing.Padding | src/nettrace/blocks.rs:251-254 | Padding reaches the next multiple of four of the stream position |
| Streams.StreamReader.Skip | src/nettrace/reader.rs:79-90 | Skipping in chunks passes over exactly the bytes asked for, or fails |
| Streams.StreamReader.ReadBlockContent | src/nettrace/blocks.rs:228-232 | The content is what the specification reads at that position, and the position grows by what was consumed |
| Streams.StreamReader.SkipBlock | src/nettrace/blocks.rs:234-238 | Skipping a block consumes the bytes reading it would |
| Streams.StreamReader.ReadPreamble | src/nettrace/fastserial.rs:24-49 | Magic, length and serializer name are checked in that order, each with its own error |
| Streams.StreamReader.ReadObjectHeader | src/nettrace/fastserial.rs:54-87 | A bare null reference is the end; any other tag, an over-long name or a missing end tag has its own error |
| Fields.HeaderUndoesPut | src/nettrace/event.rs:39-80 | A row header written over any previous one with any legal choice of presence bits reads back field for field |
| Fields.SequenceWraps | src/nettrace/event.rs:46-53 | The stored sequence delta recovers the number modulo 2^32 |
| Fields.TimestampWraps | src/nettrace/event.rs:62-63 | The stored timestamp delta recovers the time modulo 2^64 |
| Fields.UncompressedUndoesPut | src/nettrace/event.rs:87-105 | An uncompressed row header reads back field for field whatever came before it, the high bit of its metadata id meaning not sorted |
| Events.EventHeader.ReadCompressed | src/nettrace/event.rs:39-80 | The fields overwritten in place are those of the decoded header |
| Events.EventHeader.ReadUncompressed | src/nettrace/event.rs:87-105 | The fixed header overwrites all fields as specified |
| RowWriter.RowsUndoPut | src/nettrace/blocks.rs:306-340 | Any rows, compressed over any previous header or uncompressed, decode to themselves and consume all bytes |
| RowWriter.BlockUndoesPut | src/nettrace/blocks.rs:306-340 | A block of rows behind a header of any length decodes to its rows, its flag word saying whether they are compressed, the carried state starting from zero |
| RowWriter.ShortHeaderIsRefused | src/nettrace/blocks.rs:308-314 | A block header that declares fewer than twenty bytes is refused whatever follows |
| Rows.ReadAllRows | src/nettrace/blocks.rs:320-338 | The loop pushes the rows of the specification; it ends because each row consumes bytes |
| Rows.ParseRows | src/nettrace/blocks.rs:306-340 | A block whose header is too short is refused; flags choose the row form; rows follow from zeroed state until the bytes run out |
| SchemaWriter.RecordUndoesPut | src/nettrace/metadata.rs:143-194 | A written metadata record parses to what it says, whatever tags and stray bytes follow its inline list |
| SchemaWriter.FieldsUndoPutV1 | src/nettrace/metadata.rs:197-229 | A field tree without arrays, nested up to the limit, survives the V1 encoding |
| SchemaWriter.FieldsUndoPutV2 | src/nettrace/metadata.rs:235-278 | Any field tree with arrays survives the V2 encoding with any slack inside each size prefix |
| SchemaWriter.TypeUndoesPutV2 | src/nettrace/metadata.rs:270-278 | A type, arrays nested to any depth, reads back |
| SchemaWriter.MalformedListsAreRefused | src/nettrace/metadata.rs:161-278 | Counts and lengths below zero, fields declared shorter than their own size, and lists nested past sixteen are refused, each by its own error |
| SchemaWriter.LastListFront | src/nettrace/metadata.rs:161-182 | Reading tags front to back keeps the last V2 list |
| SchemaWriter.TagsUndoPut | src/nettrace/metadata.rs:161-182 | The opcode tag and unknown tags change nothing, and the last V2 list wins over the inline one |
| Schema.TypeV2 | src/nettrace/metadata.rs:270-278 | Each array level consumes four bytes, so parsing terminates although nested arrays are not depth-checked |
| Nesting.FieldsV1StayWithin | src/nettrace/metadata.rs:197-229 | Reading an inline list never goes deeper than the call that refuses to, one past the limit |
| Nesting.FieldsV1NestWithin | src/nettrace/metadata.rs:197-229 | An inline list is accepted only if its objects nest at most sixteen deep |
| Nesting.FieldsV2ExceedByArrays | src/nettrace/metadata.rs:235-278 | Reading a V2 list goes deeper than that by no more than its longest run of array codes |
| Nesting.FieldsV2ReachTheirNesting | src/nettrace/metadata.rs:235-278 | For a V2 list that parses, the greatest depth any reader is given is the depth it began at plus the nesting of the types read, arrays and objects alike |
| Nesting.LimitExceededExactly | src/nettrace/metadata.rs:11-13 | An accepted V2 list took the readers past the limit if and only if its types nest deeper than the limit |
| Nesting.ArraysNestWithoutLimit | src/nettrace/metadata.rs:270-278 | A run of array codes of any length is followed to its end, one level deeper for each |
| Metadata.Parse | src/nettrace/metadata.rs:143-194 | A record with or without an inline list and tags comes out whole, or the first structural error does |
| Metadata.ReadTags | src/nettrace/metadata.rs:161-182 | The loop over tags ends with the last V2 list, or the inline one where there is none, and stops at the first bad tag |
| Metadata.ReadFieldsV1 | src/nettrace/metadata.rs:197-220 | As many fields as the count says, type before name, with negative counts and over-deep nesting refused |
| Metadata.ReadFieldsV2 | src/nettrace/metadata.rs:235-268 | As many fields as the count says, each inside its own size and unable to read past it |
| Metadata.MetadataStore.Insert | src/nettrace/metadata.rs:118-120 | A record replaces what its id was bound to and nothing else |
| Values.PayloadUndoesPut | src/nettrace/payload.rs:60-83 | A payload written leaf by leaf, objects inside arrays included, decodes against the nested field tree to those values, the last leaf of a name winning, what follows untouched |
| Values.DecodeFlattened | src/nettrace/payload.rs:67-83 | Decoding against a nested tree equals decoding against its list of leaves |
| Values.BindLastWins | src/nettrace/payload.rs:67-83 | Of leaves with one name the last one's value is kept |
| Values.BindKeepsOthers | src/nettrace/payload.rs:67-83 | A name no leaf carries keeps what it had |
| Values.ScalarTakesItsWidth | src/nettrace/metadata.rs:64-75 | A scalar with a fixed size consumes exactly that many bytes, and any bytes will do |
| Values.UnknownLeafFails | src/nettrace/payload.rs:114-155 | A leaf of unknown type fails the decoding rather than shifting later fields |
| Values.ValueUndoesPut | src/nettrace/payload.rs:85-112 | A value of any type reads back, arrays and the objects in them included |
| Values.InlineArraysAreRefused | src/nettrace/metadata.rs:222-229 | An inline field list takes an array for a scalar of array type, which payload decoding refuses whatever the bytes |
| Values.BooleansAreNumbers | src/nettrace/payload.rs:116-117 | A Boolean is any four-byte number, and only zero is false |
| Payload.DecodeFlat | src/nettrace/payload.rs:60-65 | Every leaf of the tree is in the map under its own name, or the first error is returned |
| Payload.ReadInto | src/nettrace/payload.rs:67-83 | Object levels are descended into without bytes of their own; leaves are inserted in wire order over what the map had |
| Payload.ReadValue | src/nettrace/payload.rs:85-112 | Scalars by their code, arrays element by element behind a 16-bit count, objects as their map; an unknown type is an error and moves nothing past it |
| Payload.ReadScalar | src/nettrace/payload.rs:114-155 | Each code takes its width and reads its number, identifier or text; object and array codes are refused |
| Decode.VarUInt64UndoesPut | src/nettrace/reader.rs:203-205 | Every canonical LEB128 encoding of a 64-bit value decodes to it with the rest untouched |
| Decode.VarUInt32UndoesPut | src/nettrace/reader.rs:199-201 | The same for 32 bits |
| Decode.VarUInt32Exactly | src/nettrace/reader.rs:199-201 | Of any number written canonically the low 32 bits are read if it has at most 35, and it is malformed otherwise |
| Decode.VarUInt64Exactly | src/nettrace/reader.rs:203-205 | Of any number written canonically the low 64 bits are read if it has at most 70, and it is malformed otherwise |
| Decode.VarUIntStops | src/nettrace/reader.rs:183-197 | On any bytes: too many continuation bytes are malformed, running out is a truncation, and otherwise the groups decide |
| Decode.VarUInt | src/nettrace/reader.rs:183-197 | Decoding never moves past the buffer and always past its first byte |
| Readers.Reader.VarUInt | src/nettrace/reader.rs:183-197 | The shifting loop returns the sum of the 7-bit groups modulo 2^64, or the specification's error |
| Decode.Utf16NulUndoesPut | src/nettrace/reader.rs:209-218 | A string without an embedded terminator reads back, the terminator consumed |
| Readers.Reader.Utf16NulString | src/nettrace/reader.rs:209-218 | The loop returns the units before the first terminator, or a truncation |
| Readers.Reader.Take | src/nettrace/reader.rs:128-135 | Exactly the bytes asked for, or a truncation naming what remained, the position unmoved |
| Decode.U64UndoesPut | src/nettrace/reader.rs:169-171 | Little-endian numbers read back |
| TraceProfile.TraceProfileIsExact | src/profile/run.rs:43-103 | Collecting a whole written trace gives the log its stack definitions, samples and drains determine, and every plausible method of its batches in order; which rows are samples, of what type, and which place methods is said from the bytes of the rows and the records in force |
| TraceProfile.TraceProfileIsTheReference | src/profile/run.rs:43-103 | Where each sample that is not an error finds its own stack, collecting a written trace gives for every address the counts of the reference that pairs each sample with its own stack |
| TraceProfile.SampleIsLogged | src/profile/run.rs:125-142 | A sample is logged as missing for its type if and only if its payload begins with four zero bytes; any other payload, a shorter one too, gets the newest definition in reach where its batch is settled |
| TraceProfile.TypeIsMarked | src/profile/session.rs:45-62 | The type of a sample is the number in its first four bytes |
| TraceProfile.RowsAreSamples | src/profile/run.rs:70-73 | The rows that wait as samples are those whose record names event 0 of the sample profiler |
| TraceProfile.RowsAreMethods | src/profile/run.rs:33-36 | The rows searched for methods are those of events 141 to 144 of the runtime or its rundown, and named methods above address zero are kept |
| TraceProfile.CollectIsSteps | src/profile/run.rs:63-103 | What collecting does with a stream's bytes is what running its blocks' steps does |
| Steps.TableIsNewest | src/nettrace/blocks.rs:53-80 | The two-generation table answers with exactly the newest definition read since the last-but-one rotation |
| Steps.LogIsExact | src/profile/run.rs:63-103 | Unconditionally: each sample is logged once, in order, resolved by the newest definition in reach when it is drained |
| Steps.NoSampleLost | src/profile/run.rs:92-95 | Samples resolved and samples waiting together are the samples seen |
| Steps.SampleIsTracked | src/profile/run.rs:63-103 | At every moment each sample is either in the log or waiting, at a known place |
| Steps.OwnStackIsFound | src/profile/run.rs:53-60 | A sample whose id is defined before its drain, at most one rotation earlier and not redefined since, gets its own stack |
| Steps.LogIsTheReference | src/profile/run.rs:63-103 | Under that hypothesis for every usable sample the whole log is the reference's |
| Steps.FindsOwnExactly | src/profile/run.rs:124-143 | A sample resolves to a stack if and only if that is the newest definition of its id in reach |
| Steps.StackComesTooLate | src/profile/run.rs:83-90 | A sample in the batch behind a sequence point never gets a stack defined after that batch: it gets what its id meant earlier, or nothing |
| Steps.ARecycledIdAnswersWrongly | src/profile/run.rs:83-90 | A concrete trace in which a recycled id answers with the old stack |
| Steps.DefinitionAnswers | src/nettrace/blocks.rs:53-80 | A definition answers until redefined or rotated away twice |
| Collect.CollectAll | src/profile/run.rs:43-103 | The profile of everything the stream delivers, the last samples drained at its end and the methods sorted; an error of the parser is passed on |
| Collect.CollectBatch | src/profile/run.rs:63-96 | One batch: events taken, waiting samples drained and stacks rotated if a sequence point was passed, progress reported |
| Collect.TakeEvent | src/profile/run.rs:64-81 | Thread samples wait, plausible methods are inserted, everything else is passed over |
| Collect.Drain | src/profile/run.rs:124-143 | Everything waiting is resolved against the stacks as they are; error samples and unknown ids count as missing |
| Collect.ReportsAddUp | src/profile/run.rs:92-95 | Each progress report counts the samples resolved plus those waiting, all samples seen so far |
| Collect.LogLength | src/profile/state.rs:103-125 | The sample count is the length of the log |
| Samples.CountsAreExact | src/profile/state.rs:103-119 | For every address the counts are what keeping every stack would give: leaves, and stacks it is on |
| Samples.EverySampleCounted | src/profile/state.rs:103-136 | Each sample counts once, as unresolved, empty or usable |
| Samples.SelfAtMostTotal | src/profile/state.rs:103-119 | Per address self is at most total |
| Samples.ProfileState.RecordStack | src/profile/state.rs:103-119 | The loop with its set of seen addresses counts each address once per stack |
| Samples.ProfileState.RecordMissingStack | src/profile/state.rs:122-125 | A missing stack counts as a sample and as unresolved |
| Samples.ProfileState.Usable | src/profile/state.rs:132-136 | Samples less unresolved and empty ones, never below zero |
| Weights.WeightsAreExact | src/profile/state.rs:155-169 | Counts summed by label are what the list of stacks says, whatever order the map is walked in |
| Weights.WeightSplit | src/profile/state.rs:155-169 | Any address may be summed first |
| Weights.AllLeaves | src/profile/state.rs:103-119 | Self counts over all labels sum to the usable samples |
| Weights.LabelSelfAtMostTotal | src/profile/state.rs:103-119 | Per label self is at most total |
| Weights.TotalCountsStacks | src/profile/state.rs:112-118 | A label's total is the number of stacks it is on if and only if no stack holds two addresses with that label, and more otherwise |
| Weights.TotalFitsExactly | src/profile/state.rs:112-118 | A label's total is at most the usable samples if and only if stacks without it make up for its extra addresses |
| Weights.TotalSplitsInStacks | src/profile/state.rs:112-136 | A total is the stacks the label is on plus its extra addresses there; the usable samples are those stacks and the others |
| Weights.NoExtraExactly | src/profile/state.rs:112-118 | A label has no extra addresses if and only if no stack holds two with it |
| Weights.LabelTotalAtMostUsable | src/profile/state.rs:112-118 | Under that hypothesis a label's total is at most the usable samples |
| HotMethods.Rank | src/profile/state.rs:145-204 | The rows are a prefix of the one ranking of these counts, with the working and waiting samples of the labels shown and hidden |
| HotMethods.RankingIsDetermined | src/profile/state.rs:177-201 | The result is the same for every iteration order of the hash maps |
| HotMethods.HottestFirst | src/profile/state.rs:195-201 | The hottest rows come first: self samples never increase down the list, where they tie totals do not, where both tie the names ascend; and a label cut off by the limit is never hotter than a row shown |
| HotMethods.RowIsExact | src/profile/state.rs:177-193 | A row's counts and percentages in terms of the stacks sampled; self shares lie in 0..100, and a total share is at most 100% if and only if the usable stacks without the label are at least as many as the extra addresses it has on the others |
| HotMethods.TotalCanExceedAll | src/profile/state.rs:206-211 | A concrete case in which it is more: one sample with two native frames is 200% |
| HotMethods.WorkingAndWaiting | src/profile/state.rs:145-204 | Working plus waiting samples are the usable ones, parked threads shown or not |
| HotMethods.HidingCommutes | src/profile/state.rs:145-204 | Hiding parked threads leaves the same rows in the same order as filtering the full ranking |
| HotMethods.WaitingIsRemoved | src/profile/state.rs:155-169 | The waiting samples are the self samples of the rows hiding removes |
| HotMethods.SumByName | src/profile/state.rs:155-169 | Per-address counts fold into per-label sums, each address looked up in the sorted table, waiting labels left out and counted if asked |
| HotMethods.SumValues | src/profile/state.rs:174-174 | The working samples are the sum over the labels kept |
| HotMethods.BuildRows | src/profile/state.rs:177-193 | One row per label, each once |
| HotReference.KeysAreTheAddresses | src/profile/state.rs:103-118 | The addresses counted are exactly those on the stacks recorded, and the leaves are among them |
| HotReference.RowNamesAreExact | src/profile/state.rs:177-182 | The labels that get a row are exactly those of the addresses on the stacks, less the waiting ones if hidden |
| HotReference.ParkedAreWaitFrames | src/profile/state.rs:25-48 | The reference's own list of methods a parked thread sits in is the one that is hidden |
| HotReference.RowIsReference | src/profile/state.rs:183-193 | A row's counts and shares are those counted anew from the samples |
| HotReference.HotMethodsAreNearest | src/profile/state.rs:145-204 | Whatever the method ranges, the result is that of a reference without counts, table or maps: every sample kept, every address named by the method starting nearest below it if that one holds it |
| HotReference.HotMethodsAreScanned | src/profile/state.rs:145-211 | Where no method ranges overlap, it is the reference that names each address by the first method holding it, found by looking through all of them |
| Profiles.ProfileStream | src/profile/run.rs:43-102 | Opening a stream, collecting to its end and ranking gives a ranking of what the bytes are specified to hold, or their error |
| Profiles.FileIsCollected | src/profile/run.rs:43-102 | From the first byte of a written file: the log its steps determine and the methods of its events |
| Profiles.ProfileOfAFile | src/app.rs:378-382 | From bytes to rows: the reference's result over the samples as the file's steps resolve them |
| Profiles.ProfileIsTheReference | src/app.rs:378-382 | Where each sample finds its own stack and no methods overlap: the reference's result over the samples paired with their own stacks, each address looked up by scanning |
| HotMethods.BeforeIsTotal | src/profile/state.rs:195-200 | The sort key is a strict total order on rows with distinct names |
| Ranking.RankingIsUnique | src/profile/state.rs:195-201 | A set has one ranking by a strict total order |
| Ranking.FilterStaysRanked | src/profile/state.rs:195-201 | Dropping rows from a ranking leaves a ranking |
| Ranking.SortByRanks | src/profile/state.rs:195-201 | Sorting distinct rows ranks them |
| Names.NameLessTotal | src/profile/state.rs:199-199 | Names are totally ordered |
| Names.NameLessExactly | src/profile/state.rs:199-199 | One name precedes another exactly if at the first place they differ it has ended or has the smaller unit |
| Methods.ResolveIsScan | src/profile/methods.rs:86-104 | On pairwise disjoint ranges lookup in the sorted table agrees with a linear scan for every address, whatever the insertion order |
| Methods.ResolveTakesNearest | src/profile/methods.rs:97-104 | Without any assumption lookup considers exactly the nearest method at or below the address, the last inserted among equal starts |
| Methods.ContainsExactly | src/profile/methods.rs:25-27 | A method holds its start but not its end, and a range that reaches 2^64 holds nothing |
| Methods.MethodUndoesPut | src/profile/methods.rs:30-52 | A method record written in the order of the format is found again field for field |
| Methods.NameComesLast | src/profile/methods.rs:17-23 | A method is called by its namespace, a dot and its name, or by its name alone |
| Methods.StableSortIsStable | src/profile/methods.rs:86-91 | Methods sharing a start keep their insertion order |
| Methods.StableSortSorts | src/profile/methods.rs:86-91 | The table is sorted by start and holds the same methods |
| Methods.PartitionPoint | src/profile/methods.rs:97-104 | The number of methods at the front that start at or below an address, the next one starting above it |
| Methods.Bisect | src/profile/methods.rs:101-101 | In a sorted table a binary search finds that number |
| Methods.MethodTable.Insert | src/profile/methods.rs:68-75 | A method of no length is dropped; any other is appended and the table is unsorted |
| Methods.MethodTable.Finish | src/profile/methods.rs:86-91 | The table becomes its stable sort |
| Methods.MethodTable.ResolveAddress | src/profile/methods.rs:97-104 | The binary search and one containment check return the method the sorted table resolves the address to |
| Methods.FindMethod | src/profile/methods.rs:34-51 | A method record decodes to its range and names, or to nothing on any error |
| RuntimeRuns.EveryStartIsACollection | src/runtime/state.rs:106-138 | Over every list of events the collections known are exactly the starts in order, and the list kept is the newest 64 that ended |
| RuntimeRuns.RecentAreTheNewestStarts | src/runtime/state.rs:214-222 | The list shown is the newest starts, newest first, from at most 64 ended ones and the one in flight |
| RuntimeRuns.EveryStartIsCounted | src/runtime/state.rs:106-113 | The counters by generation count the starts, generations above the second as the second |
| Promotions.PromotionsAreExact | src/runtime/state.rs:126-136 | Every collection carries the four-generation total of the last statistics between its start and the next start or end, and none if there were none |
| RuntimeRuns.PausesAreConserved | src/runtime/state.rs:141-165 | Each measured pause is in exactly one place: on one collection (perhaps since dropped), held for the next start, or written over while held |
| PauseClaims.PausesGoWhereClaimed | src/runtime/state.rs:106-165 | Over every list of events each start carries exactly the pause it claims: the one waiting when it started, or else the first measured while it was in flight |
| PauseClaims.BracketedExactly | src/runtime/state.rs:156-164 | A collection gets the pause that brackets it if and only if it has neither ended nor been followed by another when the restart comes, and no earlier pause was waiting for it |
| PauseClaims.ThePauseGoesToTheNext | src/runtime/state.rs:156-164 | A pause whose restart comes behind the end of its collection goes to the next one to start |
| PauseClaims.AnOrdinaryPauseIsMisplaced | src/runtime/state.rs:159-164 | A concrete case: suspend, start, end, restart, start gives the pause to the second collection |
| RuntimeRuns.TotalIsAccountedFor | src/runtime/state.rs:147-165 | The total pause is the sum of the pauses on collections, the held one and those written over |
| RuntimeRuns.TotalIsEveryPause | src/runtime/state.rs:147-165 | The total pause is the sum of all pauses measured |
| RuntimeRuns.SuspensionIsOpen | src/runtime/state.rs:141-151 | The suspension remembered is the last one no restart has answered |
| RuntimeRuns.PauseIsElapsedTime | src/runtime/state.rs:147-157 | A pause is measured exactly if a suspension is open, the clock ticks and time passed, and is then that time in milliseconds |
| RuntimeRuns.SitesAreExact | src/runtime/state.rs:87-104 | A type is on record exactly if it was allocated, with all its bytes and ticks, large if it ever was and else of its first kind |
| RuntimeRuns.SitesAddUp | src/runtime/state.rs:87-104 | The sites' bytes and ticks sum to the totals |
| RuntimeRuns.ShareIsAPercentage | src/runtime/state.rs:225-231 | A site's share lies in 0..100 |
| RuntimeRuns.ExceptionsAreExact | src/runtime/state.rs:167-177 | A type of exception is on record exactly if thrown, with its first message and every throw |
| RuntimeRuns.TalliesAreExact | src/runtime/state.rs:167-186 | Lock waits are counted, summed and the longest kept; throws and events are counted |
| RuntimeRuns.TopIsDetermined | src/runtime/state.rs:198-203 | The ranking of sites is the same whatever order the map yields them in |
| RuntimeRuns.HeaviestFirst | src/runtime/state.rs:198-203 | In a ranking of sites bytes never increase, and where they tie the names ascend |
| RuntimeEvents.RuntimeState.RecordAllocation | src/runtime/state.rs:87-104 | The totals and the type's site grow by the same bytes and tick; the site turns large and stays so; nothing else changes |
| RuntimeEvents.RuntimeState.RecordGcStart | src/runtime/state.rs:106-124 | A collection that never reported its end joins the list; the new one takes the held pause, which is then spent |
| RuntimeEvents.RuntimeState.RecordHeapStats | src/runtime/state.rs:126-133 | The bytes promoted from all generations attach to the collection in flight, and without one to nothing |
| RuntimeEvents.RuntimeState.RecordGcEnd | src/runtime/state.rs:135-138 | The collection in flight joins the list; a stray end only counts as an event |
| RuntimeEvents.RuntimeState.RecordSuspend | src/runtime/state.rs:141-144 | A later suspension replaces one that was never answered |
| RuntimeEvents.RuntimeState.RecordRestart | src/runtime/state.rs:147-165 | The suspension is answered; a pause is measured only with one, a clock and time passing, and goes to the collection in flight if it has none |
| RuntimeEvents.RuntimeState.RecordException | src/runtime/state.rs:167-177 | One more throw of its type, whose first message is kept |
| RuntimeEvents.RuntimeState.RecordContention | src/runtime/state.rs:179-184 | One more wait, the total longer by it, the worst the longest so far |
| RuntimeEvents.RuntimeState.FlushPending | src/runtime/state.rs:186-195 | The collection in flight joins the list, which keeps its newest 64 |
| RuntimeEvents.RuntimeState.RecentCollections | src/runtime/state.rs:214-222 | The collection in flight and the list, newest first, cut to the limit; nothing is changed by asking |
| RuntimeEvents.RuntimeState.TopAllocations | src/runtime/state.rs:198-203 | A prefix of a ranking of every site, heaviest first and by name among equals, whatever order the map yields |
| Interval.PressMoves | src/app.rs:225-239 | From any rate, in range or not, a press has an effect if and only if there is range left in its direction, and then moves strictly that way |
| Interval.PressLands | src/app.rs:225-239 | A press lands in range and on a tenth |
| Interval.TenthsMoveByAStep | src/app.rs:225-239 | From a tenth, a press is exactly a tenth, or stops at a tenth of a second or at ten |
| Interval.RoundsExactly | src/app.rs:232-232 | Rounding is to the nearest whole number, halves away from zero |
| Interval.WantedStaysInRange | src/app.rs:225-270 | Over every run of presses and checks the wanted rate stays in range, on a tenth once pressed |
| Interval.EveryRestartIsJustified | src/app.rs:253-260 | Each restart is at the rate of the last effective press before it, at least 400 ms old |
| Interval.RestartsAreSpaced | src/app.rs:253-260 | Restarts are at least 400 ms apart and no more numerous than effective presses |
| Interval.QuietIsApplied | src/app.rs:253-270 | Once presses have been quiet for 400 ms one check brings the session to the rate wanted |
| Apps.App.StepInterval | src/app.rs:225-239 | Only the pending rate changes, to a rounded and clamped step, and not at all if clamping turned the step round |
| Apps.App.WantedInterval | src/app.rs:242-244 | The pending rate if there is one, else the live one |
| Apps.App.TakeSettledInterval | src/app.rs:253-260 | Nothing before 400 ms have passed; then the rate asked for, once |
| Apps.App.ToggleInvestigate | src/app.rs:325-335 | Into the investigation from anywhere else, clearing its error; from it to the dashboard |
| Apps.App.StartProfile | src/app.rs:346-353 | The profile screen, collecting for five seconds |
| Apps.App.CancelProfile | src/app.rs:385-390 | Back to the dashboard, a collection in flight abandoned |
| Apps.App.HandleKey | src/ui/mod.rs:545-610 | On each screen only its own keys act; help swallows the key that dismisses it |
| Apps.InvestigationOpensExactly | src/ui/mod.rs:522-610 | From another screen the investigation opens if and only if the event is `i` pressed on the dashboard with no help shown |
| Apps.AFinishedProfileStays | src/app.rs:326-333 | On a finished profile `i` changes nothing |
| Apps.ExitsExactly | src/ui/mod.rs:545-610 | Which keys quit and which detach, from which screens, and that nothing else does |
| Apps.HelpShowsExactly | src/ui/mod.rs:545-610 | Any key dismisses help; `?` and `h` bring it up, but not over a profile |
| Apps.TogglesExactly | src/ui/mod.rs:545-610 | What freezes the dashboard and what shows parked threads |
| Apps.RatesStepExactly | src/ui/mod.rs:545-610 | Which keys ask for a shorter interval and which for a longer one |
| Apps.StatusFollowsExactly | src/ui/mod.rs:522-543 | The status is what the counter session last said; a runtime failure shows until the investigation is opened again |
| Apps.LeavesForDashboardExactly | src/ui/mod.rs:545-610 | What leads back to the dashboard, and that a collection left behind is abandoned |
| Apps.PhaseEndsExactly | src/ui/mod.rs:522-543 | A collection ends by its result, its failure or being abandoned, and by no other event |
| Apps.App.HandleEvent | src/ui/mod.rs:522-543 | Every kind of event and what it does to status, phase, error and keys |
| SessionRuns.EverySessionIsOwned | src/ui/mod.rs:340-421 | At every point of every run each session opened is in the slot of its kind until it is given up, and on return no slot holds one |
| SessionRuns.EverySessionIsStoppedOnce | src/ui/mod.rs:300-421 | Each session opened gets exactly one stop attempt, after it opened, whatever the attempt is answered: on return all, before that all but those in slots |
| RunningSessions.TwoOfAKindExactly | src/ui/mod.rs:294-320 | Two sessions of a kind run on the target side by side at some moment of a run if and only if one of that kind was opened after a stop of that kind had failed |
| RunningSessions.RunningIsHeldOrFailed | src/ui/mod.rs:300-338 | The sessions of a kind running are the one in the slot and one for each stop of that kind that failed |
| RunningSessions.RunningIsBounded | src/ui/mod.rs:300-421 | At every moment of every run at most one session of a kind runs more than stops of that kind have failed |
| RunningSessions.WhatIsLeftFailedToStop | src/ui/mod.rs:417-420 | On return as many sessions of a kind still run as failed to stop |
| Screens.TwoCounterSessionsAtOnce | src/ui/mod.rs:306-316 | A concrete run: a counter session that would not close is forgotten and the next settled rate opens another beside it |
| Windows.ProfileSlotExactly | src/ui/mod.rs:391-404 | Whether a profile session is held after a turn, from the turn's inputs: while collecting, the one there until the window is over or a new one if the call works; otherwise the one there while its screen is up |
| Windows.InvestigationSlotExactly | src/ui/mod.rs:385-389 | An investigation session is held after a turn exactly while its screen is up, unless it would not open, which shows as an error |
| Windows.CounterSlotExactly | src/ui/mod.rs:294-338 | A turn touches the counter session exactly if a press has waited 400 ms; it comes back at the rate asked for, or the status is broken at the old rate |
| Windows.TurnLeavesExactly | src/ui/mod.rs:340-421 | The loop is left for a failed frame, the end of events, an interrupt, or a wish to quit or detach, and only the first is a failure |
| Windows.FirstComeFirstHeard | src/ui/mod.rs:364-373 | The event that ended the wait is handled before the queue |
| Windows.CallsComeInOrder | src/ui/mod.rs:374-404 | In a turn the target is asked first for the counters, then the investigation, then the profile |
| Windows.CollectionStartsExactly | src/app.rs:346-352 | A collection begins with `c` on the dashboard or `r` on an idle profile, for five seconds, and with nothing else |
| Windows.WindowsLastFiveSeconds | src/ui/mod.rs:391-404 | In every run a profile session still collecting is given up if and only if five seconds have passed since the key that started the latest collection |
| Screens.SlotsMatchTheScreen | src/ui/mod.rs:374-404 | After every turn of every run the investigation and profile slots are filled only on their screens, and on them unless the session could not be opened; the counter slot holds a session at the rate in force |
| Screens.OffScreenOnlyWhatFailedToStop | src/ui/mod.rs:383-404 | Off their screens, after every turn, investigation and profile sessions run exactly as many as failed to stop, so none if and only if no stop failed |
| Screens.ReconciliationFitsTheScreen | src/ui/mod.rs:374-404 | One turn's reconciliation fills the slots so, from the facts kept between turns |
| Screens.HandledKeepsProfileShown | src/ui/mod.rs:545-610 | No event makes a profile collect off its screen |
| Screens.ProfileOutlivesItsCollection | src/ui/mod.rs:391-404 | The profile slot stays filled with nothing collecting if and only if it was filled, collecting had ended before the turn reconciled, and the profile screen was still up |
| Screens.ALateResultStrandsASession | src/ui/mod.rs:391-404 | A concrete run in which this happens: the first profile's result arrives in the second one's window |
| RateRuns.CounterSessionsAreDebounced | src/ui/mod.rs:374-381 | In every run of the loop the counter sessions after the first are restarts justified by presses, 400 ms apart; the rate handed on is the last asked for, in range |
| EventLoop.Console.Run | src/ui/mod.rs:340-421 | For any turns the slots, the app and the calls made are those of the run the theorems speak of, cleanup included when the loop is left by any door |
| EventLoop.Console.TakeTurn | src/ui/mod.rs:354-414 | Drawing fails or the queue is gone: the loop is left at once; otherwise events, rate, investigation, profile and exit come in that order |
| EventLoop.Console.Absorb | src/ui/mod.rs:361-372 | The first event, then everything queued, in order |
| EventLoop.Console.RestartCounters | src/ui/mod.rs:294-320 | The old session is given up; a new one is opened in the same turn only if the old one closed or there was none |
| EventLoop.Console.SettleRate | src/ui/mod.rs:374-381 | A settled rate is adopted exactly if the session came back |
| EventLoop.Console.ReconcileInvestigation | src/ui/mod.rs:383-389 | The investigation session follows the screen |
| EventLoop.Console.ReconcileProfile | src/ui/mod.rs:391-404 | The profile session is started, abandoned or ended with its window |
| EventLoop.Console.StopInvestigation | src/ui/mod.rs:488-495 | A session in the slot is given up with one stop attempt; an empty slot makes no call |
| EventLoop.Console.StopProfile | src/ui/mod.rs:442-448 | A session in the slot is given up with one stop attempt; an empty slot makes no call |
| EventLoop.Console.StopCounters | src/ui/mod.rs:327-338 | A session in the slot is given up with one stop attempt whatever its outcome; an empty slot makes no call |
| Graphs.RenderingIsLossless | src/ui/graph.rs:92-124 | For every series, size and glyph family: of the buffer after drawing, the sub-rows filled in a column total its sample's clamped height, newest in the last column, empty to the left of the history |
| Graphs.FilledIffReached | src/ui/graph.rs:127-155 | A sub-row decoded from the glyphs is filled exactly if the sample reaches it |
| Graphs.FilledOnIffReached | src/ui/graph.rs:92-155 | A sub-row read back from the buffer's cells is filled exactly if the sample reaches it |
| Graphs.FilledCountIsHeight | src/ui/graph.rs:92-155 | So the filled sub-rows up to any height count it out |
| Graphs.PatternKeepsBits | src/ui/graph.rs:136-147 | Every dot can be read back from the pattern |
| Graphs.HeightsFollowReadings | src/ui/graph.rs:159-165 | Higher readings are never drawn lower; full scale fills the column |
| Graphs.HeightIsNearest | src/ui/graph.rs:159-165 | Within the scale a height is the nearest whole number of sub-rows to its reading, but never none |
| Graphs.HeightOf | src/ui/graph.rs:159-165 | A height is within the plot, and above zero exactly for a finite reading above zero |
| Graphs.Render | src/ui/graph.rs:92-124 | Each cell of the area takes its glyph and ramp colour or, where nothing is filled, keeps what was there; cells outside are untouched; on an unpainted area the buffer then shows the series' heights and nothing else |
| Graphs.RampAtTheMiddle | src/ui/graph.rs:110-115 | A row is coloured by how high its middle lies in the plot |
| Graphs.SymbolFor | src/ui/graph.rs:127-155 | The glyph whose dots are exactly the places the two columns reach, or none where they reach nothing |
| Graphs.HeightsOf | src/ui/graph.rs:101-108 | Heights are right-aligned |
| Graphs.SubRowsFor | src/ui/graph.rs:159-165 | Nothing for a reading that is not finite and positive, else its rounded share of the plot, at least one sub-row and at most all |
| Stacks.StackingIsLossless | src/ui/graph.rs:191-230 | Where every band reaches the column and its heights do not wrap, the sub-rows filled on the buffer are the sum of the bands' heights or the whole column |
| Stacks.TopsRiseUnlessWrapped | src/ui/graph.rs:200-216 | The band tops of a column are non-decreasing if and only if no band's height passes 64 bits on top of what the heights below it come to, at most the plot, and then end at the lesser of the plot's height and the sum |
| Stacks.AWrappedStackFalls | src/ui/graph.rs:200-216 | A concrete case in which they are not: a reading of about 2^64 times the scale on a full band ends one sub-row below it |
| Stacks.ModestBandsNeverWrap | src/ui/graph.rs:200-216 | No reading below about 2^64 sub-rows wraps |
| Stacks.CellTakesTheHighest | src/ui/graph.rs:233-281 | A painted cell takes the owner of the highest sub-row filled in any of its columns, the leftmost column that has it |
| Stacks.OwnerCovers | src/ui/graph.rs:284-286 | The owner of a height is the band whose extent covers it |
| Stacks.BandIsAGraph | src/ui/graph.rs:200-216 | A band on its own is as high as a graph of it up to the top of the plot; its height is cut off only at 64 bits |
| Stacks.Render | src/ui/graph.rs:191-230 | Each cell of the area takes its glyph and its owner's colour or keeps what was there; cells outside are untouched; on an unpainted area the buffer then shows the summed heights and nothing else |
| Stacks.CellFor | src/ui/graph.rs:233-281 | The glyph of a cell's summed columns, and for a painted cell the band owning the first place filled from the top, left before right |
| Stacks.TopsOf | src/ui/graph.rs:200-216 | Every band's top in every column, bands one above the other, zero where a band's history does not reach |
| Stacks.OwnerFor | src/ui/graph.rs:284-286 | The first band reaching a height, or the last |
| IpcFrame.ReadUndoesEncode | src/ipc/frame.rs:114-163 | A message followed by any continuation reads back and leaves the continuation intact |
| IpcFrame.ReadIsEncoded | src/ipc/frame.rs:141-163 | Only encoded messages are read, and exactly their bytes are consumed |
| IpcFrame.MessageRefusedExactly | src/ipc/frame.rs:141-163 | A message is read if and only if it has twenty bytes, the magic, and a size that covers them and is all there; which error says what was wrong |
| IpcFrame.HeaderBytes | src/ipc/frame.rs:114-127 | A header byte by byte |
| IpcFrame.ErrorsSurface | src/ipc/frame.rs:169-183 | A reply succeeds exactly if its id says so; an error reply surfaces its code, any other id is refused |
| IpcFrame.HresultIsFirst | src/ipc/frame.rs:172-177 | The code is the first four bytes of the payload |
| IpcFrame.EncodeMessage | src/ipc/frame.rs:115-127 | A message exactly if the payload has at most 65515 bytes, an error naming its length otherwise |
| IpcFrame.Socket.ReadMessage | src/ipc/frame.rs:145-163 | The message or the error of the specification, not one byte more read than the size field says |
| IpcFrame.Socket.ReadResponse | src/ipc/frame.rs:169-183 | The payload of a success, with the socket left at the first byte behind the message |
| IpcPayload.ItemsUndoPut | src/ipc/decode.rs:43-85 | Any sequence of numbers and strings reads back, null strings as empty ones, with nothing left over but what follows |
| IpcPayload.TextUndoesPut | src/ipc/encode.rs:36-46 | A string, embedded terminators included, reads back if and only if its count with terminator fits 32 bits |
| IpcPayload.NullIsNotEmpty | src/ipc/encode.rs:36-51 | A null string is a lone count of zero, an empty one a count of one and a terminator |
| IpcPayload.CallsConcatenate | src/ipc/encode.rs:18-51 | A writer's calls one after another give the sequence's bytes |
| IpcPayload.PayloadWriter.String | src/ipc/encode.rs:36-46 | The count, the units and the terminator are appended |
| IpcPayload.PayloadWriter.NullString | src/ipc/encode.rs:49-51 | A lone zero count is appended |
| IpcPayload.PayloadReader.String | src/ipc/decode.rs:72-85 | The units before the last of a counted string, or a truncation |
| IpcPayload.PayloadReader.Take | src/ipc/decode.rs:43-50 | Exactly the bytes asked for, or a truncation |

## Left out

- Sockets, process discovery, signals and the terminal: byte sources are sequences, calls on the target are inputs that may fail.
- Threads and channels: the event queue is any list of events; nothing is claimed about which order threads produce.
- Widgets, layout, themes, text screens, the picker and colour palettes, `vertical_bar` and `meter`: presentation.
- The runtime event decoders and enum tables, `hresult_name`: one field read after another.
- Keys that reset the investigation record or cycle the plot change nothing the session model keeps.
- Counter series and their bounded history, uptime and progress displays, `top_exceptions`, mean contention: easy members.
- Error texts: an error names the structural fact, not the offending bytes; `block_counts` and `keep_examples` are diagnostic.
- Floating point: rates, pauses, percentages, graph values and scales are exact reals, and floats in payloads are their bits.
- Counters (`samples`, byte totals, stream position) are unbounded naturals; a 64-bit counter does not overflow in the model.
- A stream or buffer after a failed read: nothing is said about further reads from it; everything else the parser knows is exact then too.
- Bit patterns: or-ing bits that are not yet set is written as addition, and masks as remainders.
- UTF-16 to UTF-8 conversion: strings are code units and compare by them, which is code-point order where no surrogates occur; type names are compared as bytes, so a name that is not valid UTF-8 never equals a known one here.
- Objects inside arrays: the original turns their map into a list in hash order; the model keeps the map.
- Sorting: the library's stable sort and the sort of distinct rows are functions proved to sort, not an algorithm in place; its partition point is a bisection, whose probes need not be the library's.
- Sessions on the target: one that opened runs until a stop of it works; one whose process has exited is not told apart.
- Glyph tables of the widget library are not part of this model: a glyph is its family and index.
- Hash maps iterate in an arbitrary order chosen by the proof's adversary; no particular order is modelled.
- Methods.Contains: an address range that passes 2^64 wraps as in a build without overflow checks; with checks the original stops.
- RoundTrip.RunUndoesPut: the writer produces what the format allows a runtime to write, block contents below the reader's size limit.
- RuntimeEvents.RuntimeState.TopAllocations: requires that every site is filed under its own name, which `RuntimeRuns.SitesAreExact` shows of every run.
- Graphs.Render: the scale is a finite number.
