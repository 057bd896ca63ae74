/**
 Whole nettrace streams as their writer sees them, and what each block means, stated without the parser.
 */
module TraceWriter {
  import opened Wire
  import Decode
  import Framing
  import opened Schema
  import opened SchemaWriter
  import opened Rows
  import opened RowWriter
  import opened Blocks

  /** What a block carries. */
  datatype Item =
    | TraceItem(info: TraceInfo)
    | EventItem(rows: RowBlock)
    | MetadataItem(carrier: RowBlock, records: seq<Record>)
    | StackItem(firstId: u32, stacks: seq<Stack>, trailing: seq<byte>)
    | OpaqueItem(content: seq<byte>)

  /** A block: the header naming its type, the byte its writer pads with, and its contents. */
  datatype Block = Block(head: Framing.ObjectHeader, fill: byte, item: Item)

  // ----- Bytes

  function PutTrace(t: TraceInfo, k: seq<byte>): seq<byte> {
    Decode.PutI16s(t.syncTimeUtc, Decode.PutI64(t.syncTimeQpc, Decode.PutI64(t.qpcFrequency,
      Decode.PutI32(t.pointerSize, Decode.PutI32(t.processId, Decode.PutI32(t.processorCount,
        Decode.PutI32(t.samplingRate, k)))))))
  }

  function FrameBytes(stack: Stack, width: nat): (b: seq<byte>)
    ensures |b| == width * |stack|
  {
    if stack == [] then [] else LE(stack[0], width) + FrameBytes(stack[1..], width)
  }

  function PutStacks(stacks: seq<Stack>, width: nat, k: seq<byte>): seq<byte> {
    if stacks == [] then k
    else
      var bytes := FrameBytes(stacks[0], width);
      if |bytes| < TWO_32 then Decode.PutU32(|bytes|, bytes + PutStacks(stacks[1..], width, k)) else k
  }

  /** The bytes between a block's header and its end tag, padding aside. */
  function Content(item: Item, trace: TraceInfo): seq<byte>
    requires item.EventItem? ==> |item.rows.header| + 4 < 0x1_0000
    requires item.MetadataItem? ==> |item.carrier.header| + 4 < 0x1_0000
    requires item.StackItem? ==> |item.stacks| < TWO_32
  {
    match item
    case TraceItem(info) => PutTrace(info, [])
    case EventItem(rows) => BlockContent(rows)
    case MetadataItem(carrier, _) => BlockContent(carrier)
    case StackItem(firstId, stacks, trailing) =>
      Decode.PutU32(firstId, Decode.PutU32(|stacks|, PutStacks(stacks, PointerSize(trace), trailing)))
    case OpaqueItem(content) => content
  }

  predicate StackFits(stack: Stack, width: nat) {
    width * |stack| < TWO_32 && forall frame <- stack :: frame < Pow256(width)
  }

  /** The records a metadata block's rows carry. */
  predicate Carries(rows: seq<Row>, records: seq<Record>) {
    |rows| == |records| &&
    forall i :: 0 <= i < |rows| ==> RecordOk(records[i]) && rows[i].payload == PutRecord(records[i])
  }

  /** What the format calls each kind of block; a reader not after stacks may meet them as any other content. */
  predicate Named(name: seq<byte>, item: Item, collectStacks: bool) {
    match item
    case TraceItem(_) => name == Ascii("Trace") || name == Ascii("Microsoft.DotNet.Runtime.EventPipeFile")
    case EventItem(_) => name == Ascii("EventBlock")
    case MetadataItem(_, _) => name == Ascii("MetadataBlock")
    case StackItem(_, _, _) => name == Ascii("StackBlock") && collectStacks
    case OpaqueItem(_) =>
      && name != Ascii("Trace") && name != Ascii("Microsoft.DotNet.Runtime.EventPipeFile")
      && name != Ascii("EventBlock") && name != Ascii("MetadataBlock")
      && (name == Ascii("StackBlock") ==> !collectStacks)
  }

  predicate IsSequencePoint(b: Block) {
    b.item.OpaqueItem? && b.head.typeName == Ascii("SPBlock")
  }

  /** Contents that can be represented. */
  predicate ItemOk(item: Item, trace: TraceInfo) {
    match item
    case TraceItem(info) => |info.syncTimeUtc| == 8
    case EventItem(rows) => BlockLegal(rows)
    case MetadataItem(carrier, records) => BlockLegal(carrier) && Carries(carrier.rows, records)
    case StackItem(_, stacks, _) => |stacks| < TWO_32 && forall stack <- stacks :: StackFits(stack, PointerSize(trace))
    case OpaqueItem(_) => true
  }

  predicate BlockOk(b: Block, trace: TraceInfo, collectStacks: bool) {
    && |b.head.typeName| <= 1024
    && Named(b.head.typeName, b.item, collectStacks)
    && ItemOk(b.item, trace)
    && |Content(b.item, trace)| <= 0x1000_0000
  }

  /** Everything of a block past its header. */
  function PutBody(b: Block, pos: nat, trace: TraceInfo, collectStacks: bool, k: seq<byte>): (s: seq<byte>)
    requires BlockOk(b, trace, collectStacks)
  {
    var tail := [Framing.END_OBJECT] + k;
    if b.item.TraceItem? then Content(b.item, trace) + tail
    else Framing.PutSized(Content(b.item, trace), b.fill, pos, tail)
  }

  function PutBlock(b: Block, pos: nat, trace: TraceInfo, collectStacks: bool, k: seq<byte>): seq<byte>
    requires BlockOk(b, trace, collectStacks)
  {
    Framing.PutObjectHeader(b.head, PutBody(b, pos + 16 + |b.head.typeName|, trace, collectStacks, k))
  }

  function TraceAfter(b: Block, trace: TraceInfo): TraceInfo {
    if b.item.TraceItem? then b.item.info else trace
  }

  predicate StreamOk(blocks: seq<Block>, trace: TraceInfo, collectStacks: bool)
    decreases |blocks|
  {
    blocks == [] ||
    (BlockOk(blocks[0], trace, collectStacks) && StreamOk(blocks[1..], TraceAfter(blocks[0], trace), collectStacks))
  }

  /** How many bytes a block takes at offset `pos`: its padding depends on where it lands. */
  function BlockLength(b: Block, pos: nat, trace: TraceInfo, collectStacks: bool): nat
    requires BlockOk(b, trace, collectStacks)
  {
    |PutBlock(b, pos, trace, collectStacks, [])|
  }

  /** Blocks back to back from offset `pos`, closed by a null reference. */
  function PutStream(blocks: seq<Block>, pos: nat, trace: TraceInfo, collectStacks: bool): seq<byte>
    requires StreamOk(blocks, trace, collectStacks)
    decreases |blocks|
  {
    if blocks == [] then [Framing.NULL_REFERENCE]
    else
      PutBlock(blocks[0], pos, trace, collectStacks,
        PutStream(blocks[1..], pos + BlockLength(blocks[0], pos, trace, collectStacks),
                  TraceAfter(blocks[0], trace), collectStacks))
  }

  /** A stream is its first block, written where the stream begins, and the stream behind it. */
  lemma StreamSplits(blocks: seq<Block>, pos: nat, trace: TraceInfo, collectStacks: bool)
    requires blocks != [] && StreamOk(blocks, trace, collectStacks)
    ensures BlockOk(blocks[0], trace, collectStacks) && StreamOk(blocks[1..], TraceAfter(blocks[0], trace), collectStacks)
    ensures var pos1 := pos + BlockLength(blocks[0], pos, trace, collectStacks);
            PutStream(blocks, pos, trace, collectStacks)
            == PutBlock(blocks[0], pos, trace, collectStacks,
                        PutStream(blocks[1..], pos1, TraceAfter(blocks[0], trace), collectStacks))
  {
    hide BlockOk, BlockLength, PutBlock, TraceAfter;
  }

  // ----- Meaning

  /** Records bound in order: a later one replaces an earlier one of the same id. */
  function BindRecords(records: seq<Record>, table: map<u32, EventMetadata>): map<u32, EventMetadata> {
    if records == [] then table
    else BindRecords(records[1..], table[MeaningOf(records[0]).metadataId := MeaningOf(records[0])])
  }

  /** Stacks bound to consecutive ids from `firstId`, wrapping at 32 bits. */
  function BindStacks(stacks: seq<Stack>, firstId: u32, index: nat, table: map<u32, Stack>): map<u32, Stack> {
    if stacks == [] then table
    else BindStacks(stacks[1..], firstId, index + 1, table[(firstId + index) % TWO_32 := stacks[0]])
  }

  function Meaning(b: Block, k: Knowledge): Effect {
    match b.item
    case TraceItem(info) => Learn(k.(trace := info))
    case EventItem(rows) => if rows.rows != [] then Emit(EventsOf(rows.rows)) else Learn(k)
    case MetadataItem(_, records) => Learn(k.(metadata := BindRecords(records, k.metadata)))
    case StackItem(firstId, stacks, _) => Learn(k.(current := BindStacks(stacks, firstId, 0, k.current)))
    case OpaqueItem(_) => if IsSequencePoint(b) then Learn(k.(sequencePoint := true)) else Learn(k)
  }

  /** What is known once a block has been read; events leave it as it was. */
  function KnowAfter(b: Block, k: Knowledge): Knowledge {
    match Meaning(b, k)
    case Learn(k') => k'
    case _ => k
  }

  function KnowAfterAll(blocks: seq<Block>, k: Knowledge): Knowledge {
    if blocks == [] then k else KnowAfterAll(blocks[1..], KnowAfter(blocks[0], k))
  }

  predicate Emits(b: Block) { b.item.EventItem? && b.item.rows.rows != [] }

  /** The event batches of a stream, empty ones dropped. */
  function Batches(blocks: seq<Block>): seq<seq<RawEvent>> {
    if blocks == [] then []
    else (if Emits(blocks[0]) then [EventsOf(blocks[0].item.rows.rows)] else []) + Batches(blocks[1..])
  }

  /** The first block with events to hand back, or the number of blocks. */
  function FirstBatch(blocks: seq<Block>): (n: nat)
    ensures n <= |blocks|
    ensures forall i :: 0 <= i < n ==> !Emits(blocks[i])
    ensures n < |blocks| ==> Emits(blocks[n])
  {
    if blocks == [] || Emits(blocks[0]) then 0 else 1 + FirstBatch(blocks[1..])
  }

  /** All records of a stream in order. */
  function AllRecords(blocks: seq<Block>): seq<Record> {
    if blocks == [] then []
    else (if blocks[0].item.MetadataItem? then blocks[0].item.records else []) + AllRecords(blocks[1..])
  }

  lemma {:induction false} BindRecordsAppend(a: seq<Record>, b: seq<Record>, table: map<u32, EventMetadata>)
    ensures BindRecords(a + b, table) == BindRecords(b, BindRecords(a, table))
    decreases |a|
  {
    if a == [] {
      assert a + b == b;
    } else {
      assert (a + b)[1..] == a[1..] + b;
      BindRecordsAppend(a[1..], b, table[MeaningOf(a[0]).metadataId := MeaningOf(a[0])]);
    }
  }

  /** The registry depends on the metadata blocks alone: all their records, bound in order. */
  lemma {:induction false} RegistryAfter(blocks: seq<Block>, k: Knowledge)
    ensures KnowAfterAll(blocks, k).metadata == BindRecords(AllRecords(blocks), k.metadata)
    decreases |blocks|
  {
    hide KnowAfter, BindRecords;
    if blocks == [] {
      BindNoRecords(k.metadata);
    } else {
      var records := if blocks[0].item.MetadataItem? then blocks[0].item.records else [];
      RegistryAfter(blocks[1..], KnowAfter(blocks[0], k));
      RegistryAfterBlock(blocks[0], k);
      BindRecordsAppend(records, AllRecords(blocks[1..]), k.metadata);
    }
  }

  lemma BindNoRecords(table: map<u32, EventMetadata>)
    ensures BindRecords([], table) == table
  {
  }

  lemma RegistryAfterBlock(b: Block, k: Knowledge)
    ensures KnowAfter(b, k).metadata
         == BindRecords(if b.item.MetadataItem? then b.item.records else [], k.metadata)
  {
    hide MeaningOf, BindStacks, EventsOf;
  }

  lemma {:induction false} BindRecordsKeepsOthers(records: seq<Record>, table: map<u32, EventMetadata>, id: u32)
    requires forall i :: 0 <= i < |records| ==> MeaningOf(records[i]).metadataId != id
    ensures id in BindRecords(records, table) <==> id in table
    ensures id in table ==> BindRecords(records, table)[id] == table[id]
    decreases |records|
  {
    if records == [] {
    } else {
      var table' := table[MeaningOf(records[0]).metadataId := MeaningOf(records[0])];
      BindRecordsKeepsOthers(records[1..], table', id);
    }
  }

  /** The last record of an id is the one the registry answers with. */
  lemma {:induction false} LastRecordWins(records: seq<Record>, table: map<u32, EventMetadata>, i: nat)
    requires i < |records|
    requires forall j :: i < j < |records| ==> MeaningOf(records[j]).metadataId != MeaningOf(records[i]).metadataId
    ensures MeaningOf(records[i]).metadataId in BindRecords(records, table)
    ensures BindRecords(records, table)[MeaningOf(records[i]).metadataId] == MeaningOf(records[i])
    decreases i
  {
    hide MeaningOf;
    var table' := table[MeaningOf(records[0]).metadataId := MeaningOf(records[0])];
    if i == 0 {
      BindRecordsKeepsOthers(records[1..], table', MeaningOf(records[0]).metadataId);
    } else {
      LastRecordWins(records[1..], table', i - 1);
    }
  }
}
