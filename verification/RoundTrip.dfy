/**
 Parsing undoes writing, over whole streams: the batches come out in order, the registry at every return is
 that of the metadata blocks before it, and every padding computation agrees with the writer.
 */
module RoundTrip {
  import opened Wire
  import Decode
  import Framing
  import opened Schema
  import opened SchemaWriter
  import opened Rows
  import opened RowWriter
  import opened Blocks
  import opened TraceWriter

  // ----- Contents

  lemma TraceUndoesPut(t: TraceInfo)
    requires |t.syncTimeUtc| == 8
    ensures ParseTrace(PutTrace(t, [])) == Done(t, [])
  {
    hide Decode.I16s, Decode.I32, Decode.I64, Decode.PutI16s, Decode.PutI32, Decode.PutI64;
    var s6 := Decode.PutI32(t.samplingRate, []);
    var s5 := Decode.PutI32(t.processorCount, s6);
    var s4 := Decode.PutI32(t.processId, s5);
    var s3 := Decode.PutI32(t.pointerSize, s4);
    var s2 := Decode.PutI64(t.qpcFrequency, s3);
    var s1 := Decode.PutI64(t.syncTimeQpc, s2);
    Decode.I16sUndoPut(t.syncTimeUtc, s1);
    Decode.I64UndoesPut(t.syncTimeQpc, s2);
    Decode.I64UndoesPut(t.qpcFrequency, s3);
    Decode.I32UndoesPut(t.pointerSize, s4);
    Decode.I32UndoesPut(t.processId, s5);
    Decode.I32UndoesPut(t.processorCount, s6);
    Decode.I32UndoesPut(t.samplingRate, []);
  }

  lemma TraceLength(t: TraceInfo)
    requires |t.syncTimeUtc| == 8
    ensures |PutTrace(t, [])| == TRACE_BODY_SIZE
  {
    hide Decode.PutI16s;
    var s1 := Decode.PutI64(t.syncTimeQpc, Decode.PutI64(t.qpcFrequency, Decode.PutI32(t.pointerSize,
      Decode.PutI32(t.processId, Decode.PutI32(t.processorCount, Decode.PutI32(t.samplingRate, []))))));
    Decode.I16sUndoPut(t.syncTimeUtc, s1);
    assert |s1| == 32;
  }

  lemma {:induction false} FramesUndoBytes(stack: Stack, width: nat)
    requires 4 <= width <= 8 && forall frame <- stack :: frame < Pow256(width)
    ensures Frames(FrameBytes(stack, width), width) == stack
  {
    hide LE, FromLE, Pow256;
    if stack == [] {
    } else {
      var bytes := FrameBytes(stack, width);
      assert stack[0] in stack;
      assert bytes[..width] == LE(stack[0], width);
      assert bytes[width..] == FrameBytes(stack[1..], width);
      FromLEUndoesLE(stack[0], width);
      assert forall frame <- stack[1..] :: frame in stack;
      FramesUndoBytes(stack[1..], width);
    }
  }

  lemma StackUndoesPut(stack: Stack, width: nat, k: seq<byte>)
    requires 4 <= width <= 8 && StackFits(stack, width)
    ensures var bytes := FrameBytes(stack, width);
            |bytes| < TWO_32 && ReadStack(Decode.PutU32(|bytes|, bytes + k), width) == Done(stack, k)
  {
    hide Decode.U32, Decode.PutU32, Decode.Take, Frames, FrameBytes;
    var bytes := FrameBytes(stack, width);
    Decode.U32UndoesPut(|bytes|, bytes + k);
    Decode.TakeUndoesAppend(bytes, k);
    FramesUndoBytes(stack, width);
    MultipleDivides(|stack|, width);
  }

  /** A stack whose size is no multiple of the pointer width is refused. */
  lemma BrokenStackIsRefused(size: u32, width: nat, k: seq<byte>)
    requires 4 <= width <= 8 && size % width != 0
    ensures ReadStack(Decode.PutU32(size, k), width) == Failed(Unexpected(StackSize))
  {
    hide Decode.U32, Decode.PutU32;
    Decode.U32UndoesPut(size, k);
  }

  lemma MultipleDivides(n: nat, width: nat)
    requires 4 <= width <= 8
    ensures width * n % width == 0
  {
    match width
    case 4 => assert 4 * n % 4 == 0;
    case 5 => assert 5 * n % 5 == 0;
    case 6 => assert 6 * n % 6 == 0;
    case 7 => assert 7 * n % 7 == 0;
    case 8 => assert 8 * n % 8 == 0;
  }

  lemma {:induction false} StacksUndoPut(stacks: seq<Stack>, width: nat, firstId: u32, index: nat, count: nat,
                                         table: map<u32, Stack>, k: seq<byte>)
    requires 4 <= width <= 8 && forall stack <- stacks :: StackFits(stack, width)
    requires index + |stacks| == count
    ensures FillStacks(PutStacks(stacks, width, k), width, firstId, index, count, table)
         == Filled(BindStacks(stacks, firstId, index, table), None)
    decreases |stacks|
  {
    hide Decode.U32, Decode.PutU32, ReadStack, FrameBytes, StackFits;
    if stacks == [] {
    } else {
      assert stacks[0] in stacks;
      StackUndoesPut(stacks[0], width, PutStacks(stacks[1..], width, k));
      StacksUndoPut(stacks[1..], width, firstId, index + 1, count, table[(firstId + index) % TWO_32 := stacks[0]], k);
    }
  }

  lemma StackBlockUndoesPut(item: Item, trace: TraceInfo, table: map<u32, Stack>)
    requires item.StackItem? && |item.stacks| < TWO_32
    requires forall stack <- item.stacks :: StackFits(stack, PointerSize(trace))
    ensures ParseStackBlock(Content(item, trace), PointerSize(trace), table)
         == Filled(BindStacks(item.stacks, item.firstId, 0, table), None)
  {
    hide Decode.U32, Decode.PutU32, PointerSize, PutStacks, FillStacks, BindStacks, StackFits;
    var width := PointerSize(trace);
    var s2 := PutStacks(item.stacks, width, item.trailing);
    Decode.U32UndoesPut(item.firstId, Decode.PutU32(|item.stacks|, s2));
    Decode.U32UndoesPut(|item.stacks|, s2);
    StacksUndoPut(item.stacks, width, item.firstId, 0, |item.stacks|, table, item.trailing);
  }

  lemma {:induction false} RecordsUndoPut(rows: seq<Row>, records: seq<Record>, table: map<u32, EventMetadata>)
    requires Carries(rows, records)
    ensures FillMetadata(EventsOf(rows), table) == Filled(BindRecords(records, table), None)
    decreases |rows|
  {
    hide ParseMetadata, PutRecord, MeaningOf, RecordOk;
    if rows == [] {
    } else {
      RecordUndoesPut(records[0]);
      assert EventsOf(rows)[1..] == EventsOf(rows[1..]);
      RecordsUndoPut(rows[1..], records[1..], table[MeaningOf(records[0]).metadataId := MeaningOf(records[0])]);
    }
  }

  /** The reader tells blocks apart by the names the format gives them. */
  lemma KindIsItsName(b: Block, collectStacks: bool)
    requires Named(b.head.typeName, b.item, collectStacks)
    ensures var kind := KindOf(b.head.typeName);
            match b.item
            case TraceItem(_) => kind.TraceObject?
            case EventItem(_) => kind.EventBlock?
            case MetadataItem(_, _) => kind.MetadataBlock?
            case StackItem(_, _, _) => kind.StackBlock?
            case OpaqueItem(_) =>
              if IsSequencePoint(b) then kind.SequencePointBlock?
              else kind.Unrecognised? || (kind.StackBlock? && !collectStacks)
  {
    assert Ascii("EventBlock")[0] != Ascii("StackBlock")[0];
  }

  /** A block's contents do to the parser what the block means. */
  lemma ContentMeans(b: Block, k: Knowledge)
    requires BlockOk(b, k.trace, k.collectStacks)
    ensures Absorb(KindOf(b.head.typeName), Content(b.item, k.trace), k) == Meaning(b, k)
  {
    hide KindOf, Ascii, ParseTrace, PutTrace, ParseEventRows, BlockContent, FillMetadata, BindRecords, ParseStackBlock,
      BindStacks, BlockLegal, Carries, StackFits;
    KindIsItsName(b, k.collectStacks);
    match b.item
    case TraceItem(info) => TraceUndoesPut(info);
    case EventItem(rows) => BlockUndoesPut(rows);
    case MetadataItem(carrier, records) =>
      BlockUndoesPut(carrier);
      RecordsUndoPut(carrier.rows, records, k.metadata);
    case StackItem(firstId, stacks, trailing) => StackBlockUndoesPut(b.item, k.trace, k.current);
    case OpaqueItem(content) =>
  }

  // ----- Blocks

  lemma BodyUndoesPut(b: Block, pos: nat, k: Knowledge, rest: seq<byte>)
    requires BlockOk(b, k.trace, k.collectStacks)
    ensures ReadBody(KindOf(b.head.typeName), PutBody(b, pos, k.trace, k.collectStacks, rest), pos)
         == Done(Content(b.item, k.trace), rest)
  {
    hide KindOf, Ascii, Content, Framing.Take, Framing.ReadSized, Framing.ExpectTag, Framing.PutSized;
    KindIsItsName(b, k.collectStacks);
    var content := Content(b.item, k.trace);
    var tail := [Framing.END_OBJECT] + rest;
    Framing.ExpectTagUndoes(Framing.END_OBJECT, rest, EndOfBlock);
    ContentLength(b.item, k.trace);
    if b.item.TraceItem? {
      Framing.TakeUndoesAppend(content, tail);
    } else {
      Framing.SizedUndoesPut(content, b.fill, pos, tail);
    }
  }

  lemma ContentLength(item: Item, trace: TraceInfo)
    ensures item.TraceItem? && |item.info.syncTimeUtc| == 8 ==> |Content(item, trace)| == TRACE_BODY_SIZE
  {
    if item.TraceItem? && |item.info.syncTimeUtc| == 8 {
      TraceLength(item.info);
    }
  }

  /** Where the reader is after a block, in terms of where the writer is. */
  lemma BlockLengthSplits(b: Block, pos: nat, trace: TraceInfo, collectStacks: bool, rest: seq<byte>)
    requires BlockOk(b, trace, collectStacks)
    ensures |PutBlock(b, pos, trace, collectStacks, rest)| == BlockLength(b, pos, trace, collectStacks) + |rest|
    ensures |PutBlock(b, pos, trace, collectStacks, rest)|
         == 16 + |b.head.typeName| + |PutBody(b, pos + 16 + |b.head.typeName|, trace, collectStacks, rest)|
  {
    hide Content, BlockOk;
  }

  /** How a call goes on after an object with the given effect, `rest` being left from offset `pos`. */
  function Resume(e: Effect, rest: seq<byte>, pos: nat, k: Knowledge): Progress {
    match e
    case Emit(events) => Batch(events, rest, k)
    case Learn(k') => NextEvents(rest, pos, k')
    case Reject(error, k') => Failure(error, k')
  }

  /** What one block of a written stream makes of a call in progress. */
  lemma BlockMeans(b: Block, pos: nat, k: Knowledge, rest: seq<byte>)
    requires BlockOk(b, k.trace, k.collectStacks) && !k.finished
    ensures NextEvents(PutBlock(b, pos, k.trace, k.collectStacks, rest), pos, k)
         == Resume(Meaning(b, k), rest, pos + BlockLength(b, pos, k.trace, k.collectStacks), k)
  {
    hide KindOf, Content, Absorb, Meaning, Framing.ReadObjectHeader, Framing.PutObjectHeader, ReadBody, PutBody, BlockLength;
    BlockHeadOk(b, k);
    var s := PutBlock(b, pos, k.trace, k.collectStacks, rest);
    var bodyPos := pos + 16 + |b.head.typeName|;
    var s1 := PutBody(b, bodyPos, k.trace, k.collectStacks, rest);
    Framing.ObjectHeaderUndoesPut(b.head, s1);
    BlockLengthSplits(b, pos, k.trace, k.collectStacks, rest);
    BodyUndoesPut(b, bodyPos, k, rest);
    ContentMeans(b, k);
    assert pos + |s| - |s1| == bodyPos;
  }

  lemma BlockHeadOk(b: Block, k: Knowledge)
    requires BlockOk(b, k.trace, k.collectStacks)
    ensures |b.head.typeName| <= 1024
  {
  }

  /** Reading the trace header is the only thing that changes which trace header is known. */
  lemma KnowAfterKeeps(b: Block, k: Knowledge)
    ensures KnowAfter(b, k).trace == TraceAfter(b, k.trace)
    ensures KnowAfter(b, k).collectStacks == k.collectStacks && KnowAfter(b, k).finished == k.finished
    ensures Emits(b) ==> Meaning(b, k) == Emit(EventsOf(b.item.rows.rows)) && KnowAfter(b, k) == k
    ensures !Emits(b) ==> Meaning(b, k) == Learn(KnowAfter(b, k))
  {
    hide BindRecords, BindStacks, EventsOf;
    match b.item
    case TraceItem(_) =>
    case EventItem(_) =>
    case MetadataItem(_, _) =>
    case StackItem(_, _, _) =>
    case OpaqueItem(_) =>
  }

  // ----- Streams

  /** Blocks that hand nothing back are passed over, leaving exactly what they mean. */
  lemma {:induction false} NextPassesOver(blocks: seq<Block>, n: nat, pos: nat, k: Knowledge) returns (pos': nat)
    requires StreamOk(blocks, k.trace, k.collectStacks) && !k.finished
    requires n <= |blocks| && forall i :: 0 <= i < n ==> !Emits(blocks[i])
    ensures var k' := KnowAfterAll(blocks[..n], k);
            && k'.collectStacks == k.collectStacks && !k'.finished
            && StreamOk(blocks[n..], k'.trace, k'.collectStacks)
            && var s := PutStream(blocks, pos, k.trace, k.collectStacks);
               var s' := PutStream(blocks[n..], pos', k'.trace, k'.collectStacks);
               pos' + |s'| == pos + |s| && NextEvents(s, pos, k) == NextEvents(s', pos', k')
    decreases n
  {
    hide StreamOk, PutStream, BlockOk, TraceAfter, KnowAfter, NextEvents, PutBlock, BlockLength, Emits;
    if n == 0 {
      pos' := pos;
      assert blocks[0..] == blocks && blocks[..0] == [];
    } else {
      var b, k1 := blocks[0], KnowAfter(blocks[0], k);
      StreamSplits(blocks, pos, k.trace, k.collectStacks);
      KnowAfterKeeps(b, k);
      var pos1 := pos + BlockLength(b, pos, k.trace, k.collectStacks);
      var rest := PutStream(blocks[1..], pos1, k1.trace, k1.collectStacks);
      BlockMeans(b, pos, k, rest);
      BlockLengthSplits(b, pos, k.trace, k.collectStacks, rest);
      pos' := NextPassesOver(blocks[1..], n - 1, pos1, k1);
      assert blocks[1..][n - 1..] == blocks[n..];
      assert blocks[..n][1..] == blocks[1..][..n - 1];
    }
  }

  lemma NullReferenceEnds(pos: nat, k: Knowledge)
    requires !k.finished
    ensures NextEvents([Framing.NULL_REFERENCE], pos, k) == EndOfStream([], k.(finished := true))
  {
    hide ReadObject;
    Framing.ExpectTagUndoes(Framing.NULL_REFERENCE, [], ObjectTag);
    assert [Framing.NULL_REFERENCE] + [] == [Framing.NULL_REFERENCE];
  }

  lemma NothingIsLeft(pos: nat, k: Knowledge)
    requires !k.finished
    ensures StreamOk([], k.trace, k.collectStacks)
    ensures NextEvents(PutStream([], pos, k.trace, k.collectStacks), pos, k) == EndOfStream([], k.(finished := true))
  {
    hide NextEvents;
    NullReferenceEnds(pos, k);
  }

  lemma EmitsKeepsTrace(b: Block, trace: TraceInfo)
    requires Emits(b)
    ensures b.item.EventItem? && TraceAfter(b, trace) == trace
  {
  }

  /** A block with events is handed back, and what follows it is the stream still to come. */
  lemma BatchComesNext(blocks: seq<Block>, pos: nat, k: Knowledge) returns (pos': nat)
    requires StreamOk(blocks, k.trace, k.collectStacks) && !k.finished && blocks != [] && Emits(blocks[0])
    ensures StreamOk(blocks[1..], k.trace, k.collectStacks)
    ensures var s := PutStream(blocks, pos, k.trace, k.collectStacks);
            var rest := PutStream(blocks[1..], pos', k.trace, k.collectStacks);
            && pos' + |rest| == pos + |s|
            && NextEvents(s, pos, k) == Batch(EventsOf(blocks[0].item.rows.rows), rest, k)
  {
    hide StreamOk, PutStream, BlockOk, TraceAfter, KnowAfter, NextEvents, PutBlock, BlockLength, EventsOf, Meaning, Emits;
    var b := blocks[0];
    StreamSplits(blocks, pos, k.trace, k.collectStacks);
    KnowAfterKeeps(b, k);
    EmitsKeepsTrace(b, k.trace);
    pos' := pos + BlockLength(b, pos, k.trace, k.collectStacks);
    var rest := PutStream(blocks[1..], pos', k.trace, k.collectStacks);
    BlockMeans(b, pos, k, rest);
    BlockLengthSplits(b, pos, k.trace, k.collectStacks, rest);
  }

  /**
   One call on a written stream: it hands back the first non-empty batch, knowing exactly what the blocks
   before it mean, with the following blocks still to come at the offset their writer put them; or it ends.
   */
  lemma NextUndoesPut(blocks: seq<Block>, pos: nat, k: Knowledge) returns (pos': nat)
    requires StreamOk(blocks, k.trace, k.collectStacks) && !k.finished
    ensures var n := FirstBatch(blocks);
            var k' := KnowAfterAll(blocks[..n], k);
            var s := PutStream(blocks, pos, k.trace, k.collectStacks);
            if n == |blocks| then NextEvents(s, pos, k) == EndOfStream([], k'.(finished := true))
            else
              && StreamOk(blocks[n + 1..], k'.trace, k'.collectStacks)
              && k'.collectStacks == k.collectStacks && !k'.finished
              && var rest := PutStream(blocks[n + 1..], pos', k'.trace, k'.collectStacks);
                 pos' + |rest| == pos + |s|
                 && NextEvents(s, pos, k) == Batch(EventsOf(blocks[n].item.rows.rows), rest, k')
  {
    hide StreamOk, PutStream, BlockOk, TraceAfter, KnowAfter, NextEvents, PutBlock, BlockLength, FirstBatch, KnowAfterAll,
      EventsOf, Emits;
    var n := FirstBatch(blocks);
    var pos1 := NextPassesOver(blocks, n, pos, k);
    var k' := KnowAfterAll(blocks[..n], k);
    if n == |blocks| {
      pos' := pos1;
      NothingIsLeft(pos1, k');
    } else {
      assert blocks[n..][0] == blocks[n] && blocks[n..][1..] == blocks[n + 1..];
      pos' := BatchComesNext(blocks[n..], pos1, k');
    }
  }

  /** Every batch of a run, and how the run ended. */
  datatype Trail = Trail(batches: seq<seq<RawEvent>>, last: Progress)

  function Run(s: seq<byte>, pos: nat, k: Knowledge): Trail
    decreases |s|
  {
    var p := NextEvents(s, pos, k);
    if p.Batch? then
      var tail := Run(p.rest, pos + |s| - |p.rest|, p.knowledge);
      Trail([p.events] + tail.batches, tail.last)
    else Trail([], p)
  }

  lemma {:induction false} QuietHasNoBatches(blocks: seq<Block>, n: nat)
    requires n <= |blocks| && forall i :: 0 <= i < n ==> !Emits(blocks[i])
    ensures Batches(blocks) == Batches(blocks[n..])
  {
    hide EventsOf, Emits;
    if n == 0 {
      assert blocks[0..] == blocks;
    } else {
      QuietHasNoBatches(blocks, n - 1);
      var rest := blocks[n - 1..];
      assert rest[0] == blocks[n - 1] && rest[1..] == blocks[n..];
    }
  }

  lemma BatchesFromFirst(blocks: seq<Block>)
    ensures var n := FirstBatch(blocks);
            Batches(blocks) == if n == |blocks| then []
                               else [EventsOf(blocks[n].item.rows.rows)] + Batches(blocks[n + 1..])
  {
    hide EventsOf, FirstBatch;
    var n := FirstBatch(blocks);
    QuietHasNoBatches(blocks, n);
    if n < |blocks| {
      var rest := blocks[n..];
      assert rest[0] == blocks[n] && rest[1..] == blocks[n + 1..];
    }
  }

  lemma {:induction false} KnowAfterAppend(a: seq<Block>, b: seq<Block>, k: Knowledge)
    ensures KnowAfterAll(a + b, k) == KnowAfterAll(b, KnowAfterAll(a, k))
    decreases |a|
  {
    hide KnowAfter;
    if a == [] {
      assert a + b == b;
    } else {
      assert (a + b)[1..] == a[1..] + b;
      KnowAfterAppend(a[1..], b, KnowAfter(a[0], k));
    }
  }

  lemma KnowAfterFirst(blocks: seq<Block>, k: Knowledge)
    requires FirstBatch(blocks) < |blocks|
    ensures KnowAfterAll(blocks, k)
         == KnowAfterAll(blocks[FirstBatch(blocks) + 1..], KnowAfterAll(blocks[..FirstBatch(blocks)], k))
  {
    hide KnowAfter;
    var n := FirstBatch(blocks);
    var k' := KnowAfterAll(blocks[..n], k);
    assert blocks == blocks[..n] + blocks[n..];
    KnowAfterAppend(blocks[..n], blocks[n..], k);
    KnowAfterKeeps(blocks[n], k');
    assert blocks[n..][1..] == blocks[n + 1..];
  }

  lemma RunFirst(s: seq<byte>, pos: nat, k: Knowledge)
    ensures Run(s, pos, k) == match NextEvents(s, pos, k)
                              case Batch(events, rest, known) =>
                                var tail := Run(rest, pos + |s| - |rest|, known);
                                Trail([events] + tail.batches, tail.last)
                              case p => Trail([], p)
  {
    hide NextEvents;
  }

  /** A whole run over a written stream: every non-empty batch in order, then a clean end knowing everything. */
  lemma {:induction false} RunUndoesPut(blocks: seq<Block>, pos: nat, k: Knowledge)
    requires StreamOk(blocks, k.trace, k.collectStacks) && !k.finished
    ensures Run(PutStream(blocks, pos, k.trace, k.collectStacks), pos, k)
         == Trail(Batches(blocks), EndOfStream([], KnowAfterAll(blocks, k).(finished := true)))
    decreases |blocks|
  {
    hide Run, NextEvents, PutStream, StreamOk, KnowAfterAll, FirstBatch, Batches, Emits, EventsOf;
    var n := FirstBatch(blocks);
    var k' := KnowAfterAll(blocks[..n], k);
    var pos' := NextUndoesPut(blocks, pos, k);
    BatchesFromFirst(blocks);
    RunFirst(PutStream(blocks, pos, k.trace, k.collectStacks), pos, k);
    if n == |blocks| {
      assert blocks[..n] == blocks;
    } else {
      RunUndoesPut(blocks[n + 1..], pos', k');
      KnowAfterFirst(blocks, k);
    }
  }

  /** A whole file, preamble included: the blocks begin at offset 32, which their padding counts from. */
  lemma FileUndoesPut(blocks: seq<Block>, collectStacks: bool)
    requires StreamOk(blocks, NO_TRACE, collectStacks)
    ensures var k := NOTHING_YET.(collectStacks := collectStacks);
            var s := PutStream(blocks, 32, NO_TRACE, collectStacks);
            && Framing.ReadPreamble(Framing.PutPreamble(s)) == Done((), s)
            && |Framing.PutPreamble(s)| - |s| == 32
            && Run(s, 32, k) == Trail(Batches(blocks), EndOfStream([], KnowAfterAll(blocks, k).(finished := true)))
  {
    hide PutStream, StreamOk, Run, KnowAfterAll, Batches, Framing.ReadPreamble, Framing.PutPreamble;
    Framing.PreambleUndoesPut(PutStream(blocks, 32, NO_TRACE, collectStacks));
    RunUndoesPut(blocks, 32, NOTHING_YET.(collectStacks := collectStacks));
  }

  /** Past the end there is nothing more, however often one asks. */
  lemma EndIsForever(s: seq<byte>, pos: nat, k: Knowledge, more: seq<byte>, morePos: nat)
    ensures NextEvents(s, pos, k).EndOfStream? ==>
              NextEvents(more, morePos, NextEvents(s, pos, k).knowledge)
              == EndOfStream(more, NextEvents(s, pos, k).knowledge)
  {
    EndIsFinished(s, pos, k);
  }

  lemma {:induction false} EndIsFinished(s: seq<byte>, pos: nat, k: Knowledge)
    ensures NextEvents(s, pos, k).EndOfStream? ==> NextEvents(s, pos, k).knowledge.finished
    decreases |s|
  {
    hide Framing.ReadObjectHeader, ReadObject, KindOf;
    if !k.finished {
      var h := Framing.ReadObjectHeader(s);
      if h.Done? && h.value.Some? {
        var p := ReadObject(KindOf(h.value.value.typeName), h.rest, pos + |s| - |h.rest|, k);
        if p.Quiet? {
          EndIsFinished(p.rest, pos + |s| - |p.rest|, p.knowledge);
        }
      }
    }
  }
}
