/**
 The block loop of src/nettrace/blocks.rs as functions: what one object in the stream does to what the parser
 knows, and how far a call reads before it has events to hand back.
 */
module Blocks {
  import opened Wire
  import Decode
  import Framing
  import opened Schema
  import opened Rows

  /** What the trace header declares: clocks, pointer width, and the process traced. */
  datatype TraceInfo = TraceInfo(
    syncTimeUtc: seq<i16>,
    syncTimeQpc: i64,
    qpcFrequency: i64,
    pointerSize: i32,
    processId: i32,
    processorCount: i32,
    samplingRate: i32)

  const NO_TRACE: TraceInfo := TraceInfo([0, 0, 0, 0, 0, 0, 0, 0], 0, 0, 0, 0, 0, 0)
  const TRACE_BODY_SIZE: nat := 48

  type Stack = seq<u64>

  /** What the parser has learnt: everything it carries between objects but the stream itself. */
  datatype Knowledge = Knowledge(
    metadata: map<u32, EventMetadata>,
    trace: TraceInfo,
    current: map<u32, Stack>,
    previous: map<u32, Stack>,
    collectStacks: bool,
    sequencePoint: bool,
    finished: bool)

  const NOTHING_YET: Knowledge := Knowledge(map[], NO_TRACE, map[], map[], false, false, false)

  datatype Kind = TraceObject | EventBlock | MetadataBlock | StackBlock | SequencePointBlock | Unrecognised

  function KindOf(name: seq<byte>): Kind {
    if name == Ascii("Trace") || name == Ascii("Microsoft.DotNet.Runtime.EventPipeFile") then TraceObject
    else if name == Ascii("EventBlock") then EventBlock
    else if name == Ascii("MetadataBlock") then MetadataBlock
    else if name == Ascii("StackBlock") then StackBlock
    else if name == Ascii("SPBlock") then SequencePointBlock
    else Unrecognised
  }

  // ----- What is inside an object

  function ParseTrace(body: seq<byte>): Parsed<TraceInfo> {
    var (syncTimeUtc, s1) :- Decode.I16s(body, 8);
    var (syncTimeQpc, s2) :- Decode.I64(s1);
    var (qpcFrequency, s3) :- Decode.I64(s2);
    var (pointerSize, s4) :- Decode.I32(s3);
    var (processId, s5) :- Decode.I32(s4);
    var (processorCount, s6) :- Decode.I32(s5);
    var (samplingRate, s7) :- Decode.I32(s6);
    Done(TraceInfo(syncTimeUtc, syncTimeQpc, qpcFrequency, pointerSize, processId, processorCount, samplingRate), s7)
  }

  /** Pointer width in bytes: what the trace header says, forced into 4..8. */
  function PointerSize(trace: TraceInfo): (n: nat)
    ensures 4 <= n <= 8
    ensures 4 <= trace.pointerSize <= 8 ==> n == trace.pointerSize
    ensures trace.pointerSize < 4 ==> n == 4
    ensures trace.pointerSize > 8 ==> n == 8
  {
    if trace.pointerSize < 4 then 4 else if trace.pointerSize > 8 then 8 else trace.pointerSize
  }

  lemma PointerFits(b: seq<byte>)
    requires |b| <= 8
    ensures FromLE(b) < TWO_64
  {
    PowersOf256();
    assert Pow256(7) * 256 == Pow256(8);
    assert Pow256(6) * 256 == Pow256(7) && Pow256(5) * 256 == Pow256(6) && Pow256(4) * 256 == Pow256(5);
    assert Pow256(3) * 256 == Pow256(4) && Pow256(2) * 256 == Pow256(3) && Pow256(1) * 256 == Pow256(2);
  }

  /** Instruction pointers, `width` bytes each. */
  function Frames(bytes: seq<byte>, width: nat): Stack
    requires 4 <= width <= 8
  {
    if |bytes| < width then []
    else
      PointerFits(bytes[..width]);
      [FromLE(bytes[..width])] + Frames(bytes[width..], width)
  }

  /** How a loop that fills a table as it goes ends: the table as far as it got, and why it stopped early. */
  datatype Filled<T> = Filled(table: T, error: Option<ParseError>)

  /** One stack: its length in bytes and its frames. */
  function ReadStack(s: seq<byte>, width: nat): (p: Parsed<Stack>)
    requires 4 <= width <= 8
    ensures p.Done? ==> |p.rest| < |s|
  {
    var (size, s1) :- Decode.U32(s);
    if size % width != 0 then Failed(Unexpected(StackSize))
    else
      var (bytes, s2) :- Decode.Take(s1, size);
      Done(Frames(bytes, width), s2)
  }

  /** Stacks `index` up to `count`; ids run consecutively from `firstId` and wrap at 32 bits. */
  function FillStacks(s: seq<byte>, width: nat, firstId: u32, index: nat, count: nat, table: map<u32, Stack>)
      : Filled<map<u32, Stack>>
    requires 4 <= width <= 8 && index <= count
    decreases count - index
  {
    if index == count then Filled(table, None)
    else
      match ReadStack(s, width)
      case Failed(e) => Filled(table, Some(e))
      case Done(stack, k) =>
        FillStacks(k, width, firstId, index + 1, count, table[(firstId + index) % TWO_32 := stack])
  }

  function ParseStackBlock(content: seq<byte>, width: nat, table: map<u32, Stack>): Filled<map<u32, Stack>>
    requires 4 <= width <= 8
  {
    match Decode.U32(content)
    case Failed(e) => Filled(table, Some(e))
    case Done(firstId, s1) =>
      match Decode.U32(s1)
      case Failed(e) => Filled(table, Some(e))
      case Done(count, s2) => FillStacks(s2, width, firstId, 0, count, table)
  }

  /** Each row of a metadata block is one record; a later record replaces an earlier one of the same id. */
  function FillMetadata(rows: seq<RawEvent>, table: map<u32, EventMetadata>): Filled<map<u32, EventMetadata>> {
    if rows == [] then Filled(table, None)
    else
      match ParseMetadata(rows[0].payload)
      case Failed(e) => Filled(table, Some(e))
      case Done(record, _) => FillMetadata(rows[1..], table[record.metadataId := record])
  }

  // ----- What an object does

  /** The effect of an object whose bytes have all been read. */
  datatype Effect =
    | Emit(events: seq<RawEvent>)
    | Learn(knowledge: Knowledge)
    | Reject(error: ParseError, partial: Knowledge)

  function Absorb(kind: Kind, body: seq<byte>, k: Knowledge): (e: Effect)
    ensures e.Emit? ==> e.events != []
  {
    match kind
    case TraceObject =>
      (match ParseTrace(body)
       case Failed(e) => Reject(e, k)
       case Done(trace, _) => Learn(k.(trace := trace)))
    case EventBlock =>
      (match ParseEventRows(body)
       case Failed(e) => Reject(e, k)
       case Done(events, _) => if events != [] then Emit(events) else Learn(k))
    case MetadataBlock =>
      (match ParseEventRows(body)
       case Failed(e) => Reject(e, k)
       case Done(rows, _) =>
         var filled := FillMetadata(rows, k.metadata);
         var k' := k.(metadata := filled.table);
         if filled.error.Some? then Reject(filled.error.value, k') else Learn(k'))
    case StackBlock =>
      if k.collectStacks then
        var filled := ParseStackBlock(body, PointerSize(k.trace), k.current);
        var k' := k.(current := filled.table);
        if filled.error.Some? then Reject(filled.error.value, k') else Learn(k')
      else Learn(k)
    case SequencePointBlock => Learn(k.(sequencePoint := true))
    case Unrecognised => Learn(k)
  }

  /** An object's bytes: the trace header's are of fixed length, a block's are sized and padded. */
  function ReadBody(kind: Kind, s: seq<byte>, pos: nat): (p: Parsed<seq<byte>>)
    ensures p.Done? ==> |p.rest| <= |s|
  {
    var (body, s1) :- if kind.TraceObject? then Framing.Take(s, TRACE_BODY_SIZE) else Framing.ReadSized(s, pos);
    var (_, s2) :- Framing.ExpectTag(s1, Framing.END_OBJECT, EndOfBlock);
    Done(body, s2)
  }

  /** Where reading got to. */
  datatype Progress =
    | Batch(events: seq<RawEvent>, rest: seq<byte>, knowledge: Knowledge)
    | Quiet(rest: seq<byte>, knowledge: Knowledge)
    | EndOfStream(rest: seq<byte>, knowledge: Knowledge)
    | Failure(error: ParseError, knowledge: Knowledge)

  /**
   What an object has taught by the time its bytes turn out wrong: a trace header is kept before the tag behind it
   is read, and a sequence point is noted before its block is passed over.
   */
  function Begun(kind: Kind, s: seq<byte>, k: Knowledge): Knowledge {
    match kind
    case TraceObject =>
      if |s| < TRACE_BODY_SIZE then k
      else
        (match ParseTrace(s[..TRACE_BODY_SIZE])
         case Done(trace, _) => k.(trace := trace)
         case Failed(_) => k)
    case SequencePointBlock => k.(sequencePoint := true)
    case _ => k
  }

  /** One object past its header. */
  function ReadObject(kind: Kind, s: seq<byte>, pos: nat, k: Knowledge): (p: Progress)
    ensures p.Quiet? || p.Batch? ==> |p.rest| <= |s|
    ensures p.Batch? ==> p.events != []
    ensures !p.EndOfStream?
  {
    match ReadBody(kind, s, pos)
    case Failed(e) => Failure(e, Begun(kind, s, k))
    case Done(body, rest) =>
      match Absorb(kind, body, k)
      case Emit(events) => Batch(events, rest, k)
      case Learn(k') => Quiet(rest, k')
      case Reject(e, k') => Failure(e, k')
  }

  /** Read forward until the next non-empty batch of events, or the end of the stream. */
  function NextEvents(s: seq<byte>, pos: nat, k: Knowledge): (p: Progress)
    ensures !p.Quiet?
    ensures p.Batch? ==> |p.rest| < |s| && p.events != []
    decreases |s|
  {
    if k.finished then EndOfStream(s, k)
    else
      match Framing.ReadObjectHeader(s)
      case Failed(e) => Failure(e, k)
      case Done(None, rest) => EndOfStream(rest, k.(finished := true))
      case Done(Some(header), s1) =>
        var p := ReadObject(KindOf(header.typeName), s1, pos + |s| - |s1|, k);
        if p.Quiet? then NextEvents(p.rest, pos + |s| - |p.rest|, p.knowledge) else p
  }
}
