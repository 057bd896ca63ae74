/** The nettrace parser itself (src/nettrace/blocks.rs), proved against the functions of `Blocks`. */
module Parser {
  import opened Wire
  import Decode
  import Framing
  import opened Readers
  import opened Streams
  import opened Schema
  import opened Metadata
  import opened Rows
  import opened Blocks

  /**
   Stacks under the ids that samples carry. An id may be given to another stack behind a sequence point, so what was
   defined since the last rotation is kept apart from what the rotation before it left.
   */
  class StackTable {
    var current: map<u32, Stack>
    var previous: map<u32, Stack>

    constructor ()
      ensures current == map[] && previous == map[]
    {
      current, previous := map[], map[];
    }

    method Get(id: u32) returns (stack: Option<Stack>)
      ensures stack == Lookup(current, previous, id)
    {
      if id in current {
        return Some(current[id]);
      }
      if id in previous {
        return Some(previous[id]);
      }
      return None;
    }

    /** New definitions go to an empty generation; the one before the last is dropped. */
    method Rotate()
      modifies this
      ensures current == map[] && previous == old(current)
    {
      previous := current;
      current := map[];
    }
  }

  /** The newer generation answers first. */
  function Lookup(current: map<u32, Stack>, previous: map<u32, Stack>, id: u32): Option<Stack> {
    if id in current then Some(current[id]) else if id in previous then Some(previous[id]) else None
  }

  method ReadTrace(r: Reader) returns (result: Result<TraceInfo>)
    requires r.Valid()
    modifies r
    ensures r.Valid() && Matches(ParseTrace(old(r.Rest())), result, r.Rest())
  {
    hide Decode.I16s, Decode.I32, Decode.I64;
    var syncTimeUtc :- r.I16s(8);
    var syncTimeQpc :- r.I64();
    var qpcFrequency :- r.I64();
    var pointerSize :- r.I32();
    var processId :- r.I32();
    var processorCount :- r.I32();
    var samplingRate :- r.I32();
    return Ok(TraceInfo(syncTimeUtc, syncTimeQpc, qpcFrequency, pointerSize, processId, processorCount, samplingRate));
  }

  /** A trace header's 48 bytes always parse, so only the tag after them can be wrong. */
  lemma TraceBodyParses(body: seq<byte>)
    requires |body| == TRACE_BODY_SIZE
    ensures ParseTrace(body).Done?
  {
    hide Decode.I16s;
    Decode.I16sEnough(body, 8);
  }

  method ReadTraceBody(body: seq<byte>) returns (trace: TraceInfo)
    requires |body| == TRACE_BODY_SIZE
    ensures ParseTrace(body).Done? && ParseTrace(body).value == trace
  {
    hide ParseTrace;
    TraceBodyParses(body);
    var r := new Reader(body);
    var result := ReadTrace(r);
    trace := result.value;
  }

  method ReadOneStack(r: Reader, width: nat) returns (result: Result<Stack>)
    requires r.Valid() && 4 <= width <= 8
    modifies r
    ensures r.Valid() && Matches(ReadStack(old(r.Rest()), width), result, r.Rest())
  {
    hide Decode.U32, Decode.Take, Frames;
    var size :- r.U32();
    if size % width != 0 {
      return Err(Unexpected(StackSize));
    }
    var bytes :- r.Take(size);
    return Ok(Frames(bytes, width));
  }

  /** Stacks are added to the table as they are read, so an error leaves those before it in place. */
  method ReadStacks(r: Reader, width: nat, out: StackTable) returns (result: Result<()>)
    requires r.Valid() && 4 <= width <= 8
    modifies r, out`current
    ensures var filled := ParseStackBlock(old(r.Rest()), width, old(out.current));
            out.current == filled.table && result == if filled.error.Some? then Err(filled.error.value) else Ok(())
  {
    hide Decode.U32, ReadStack;
    var firstId :- r.U32();
    var count :- r.U32();
    ghost var whole := FillStacks(r.Rest(), width, firstId, 0, count, out.current);
    for index := 0 to count
      invariant r.Valid()
      invariant whole == FillStacks(r.Rest(), width, firstId, index, count, out.current)
    {
      var stack :- ReadOneStack(r, width);
      out.current := out.current[(firstId + index) % TWO_32 := stack];
    }
    return Ok(());
  }

  method ReadStackBody(content: seq<byte>, width: nat, out: StackTable) returns (result: Result<()>)
    requires 4 <= width <= 8
    modifies out`current
    ensures var filled := ParseStackBlock(content, width, old(out.current));
            out.current == filled.table && result == if filled.error.Some? then Err(filled.error.value) else Ok(())
  {
    hide ParseStackBlock;
    var r := new Reader(content);
    result := ReadStacks(r, width, out);
  }

  method InsertRecords(rows: seq<RawEvent>, store: MetadataStore) returns (result: Result<()>)
    modifies store
    ensures var filled := FillMetadata(rows, old(store.byId));
            store.byId == filled.table && result == if filled.error.Some? then Err(filled.error.value) else Ok(())
  {
    hide ParseMetadata;
    assert rows[0..] == rows;
    for i := 0 to |rows|
      invariant FillMetadata(rows, old(store.byId)) == FillMetadata(rows[i..], store.byId)
    {
      assert rows[i..][1..] == rows[i + 1..];
      var record :- Metadata.Parse(rows[i].payload);
      store.Insert(record);
    }
    return Ok(());
  }

  class NettraceParser {
    const stream: StreamReader
    const metadata: MetadataStore
    const stacks: StackTable
    var trace: TraceInfo
    var finished: bool
    var collectStacks: bool
    var sequencePointSeen: bool

    /** Everything known apart from the stream. */
    ghost function Value(): Knowledge
      reads this, metadata, stacks
    {
      Knowledge(metadata.byId, trace, stacks.current, stacks.previous, collectStacks, sequencePointSeen, finished)
    }

    constructor (source: StreamReader)
      ensures stream == source && fresh(metadata) && fresh(stacks)
      ensures Value() == NOTHING_YET
    {
      stream := source;
      metadata := new MetadataStore();
      stacks := new StackTable();
      trace := NO_TRACE;
      finished, collectStacks, sequencePointSeen := false, false, false;
    }

    /** Answers for the sequence points since the last call, and forgets them. */
    method TakeSequencePoint() returns (seen: bool)
      modifies this`sequencePointSeen
      ensures seen == old(sequencePointSeen) && !sequencePointSeen
    {
      seen := sequencePointSeen;
      sequencePointSeen := false;
    }

    /** The result and everything known are the specification's; only the stream behind a failure is left open. */
    ghost predicate Reached(p: Progress, r: Result<Option<seq<RawEvent>>>)
      reads this, stream, metadata, stacks
    {
      match p
      case Batch(events, k, known) => r == Ok(Some(events)) && stream.inner == k && Value() == known
      case Quiet(k, known) => r == Ok(None) && stream.inner == k && Value() == known
      case EndOfStream(k, known) => r == Ok(None) && stream.inner == k && Value() == known
      case Failure(e, known) => r == Err(e) && Value() == known
    }

    method ExpectEndObject() returns (r: Result<()>)
      modifies stream
      ensures Matches(Framing.ExpectTag(old(stream.inner), Framing.END_OBJECT, EndOfBlock), r, stream.inner)
      ensures r.Ok? ==> stream.End() == old(stream.End())
    {
      r := stream.ExpectTag(Framing.END_OBJECT, EndOfBlock);
    }

    /** A block that is kept: its content, and the tag that must follow it. */
    method KeepBlock(ghost kind: Kind) returns (r: Result<seq<byte>>)
      requires !kind.TraceObject?
      modifies stream
      ensures Matches(ReadBody(kind, old(stream.inner), old(stream.pos)), r, stream.inner)
      ensures r.Ok? ==> stream.End() == old(stream.End())
    {
      hide Framing.ReadSized, Framing.ExpectTag;
      var content :- stream.ReadBlockContent();
      var _ :- ExpectEndObject();
      return Ok(content);
    }

    /** A block that is not: its size says how far to go, whatever it holds. */
    method PassBlock(ghost kind: Kind) returns (r: Result<()>)
      requires !kind.TraceObject?
      modifies stream
      ensures match ReadBody(kind, old(stream.inner), old(stream.pos))
              case Done(_, k) => r.Ok? && stream.inner == k && stream.End() == old(stream.End())
              case Failed(e) => r == Err(e)
    {
      hide Framing.ReadSized, Framing.ExpectTag;
      var _ :- stream.SkipBlock();
      var _ :- ExpectEndObject();
      return Ok(());
    }

    method ReadTraceObject() returns (r: Result<Option<seq<RawEvent>>>)
      modifies this, stream
      ensures Reached(ReadObject(TraceObject, old(stream.inner), old(stream.pos), old(Value())), r)
      ensures r.Ok? ==> stream.End() == old(stream.End())
    {
      hide Framing.ExpectTag, ParseTrace;
      var body :- stream.ReadExact(TRACE_BODY_SIZE);
      trace := ReadTraceBody(body);
      var _ :- ExpectEndObject();
      return Ok(None);
    }

    method ReadEventBlock() returns (r: Result<Option<seq<RawEvent>>>)
      modifies this, stream
      ensures Reached(ReadObject(EventBlock, old(stream.inner), old(stream.pos), old(Value())), r)
      ensures r.Ok? ==> stream.End() == old(stream.End())
    {
      hide ReadBody, ParseEventRows;
      var content :- KeepBlock(EventBlock);
      var events :- ParseRows(content);
      return Ok(if events != [] then Some(events) else None);
    }

    method ReadMetadataBlock() returns (r: Result<Option<seq<RawEvent>>>)
      modifies this, stream, metadata
      ensures Reached(ReadObject(MetadataBlock, old(stream.inner), old(stream.pos), old(Value())), r)
      ensures r.Ok? ==> stream.End() == old(stream.End())
    {
      hide ReadBody, ParseEventRows, FillMetadata;
      var content :- KeepBlock(MetadataBlock);
      var rows :- ParseRows(content);
      var _ :- InsertRecords(rows, metadata);
      return Ok(None);
    }

    method ReadStackBlock() returns (r: Result<Option<seq<RawEvent>>>)
      requires collectStacks
      modifies this, stream, stacks
      ensures Reached(ReadObject(StackBlock, old(stream.inner), old(stream.pos), old(Value())), r)
      ensures r.Ok? ==> stream.End() == old(stream.End())
    {
      hide ReadBody, ParseStackBlock, PointerSize;
      var content :- KeepBlock(StackBlock);
      var _ :- ReadStackBody(content, PointerSize(trace), stacks);
      return Ok(None);
    }

    /** The dispatch on an object's type name. */
    method ReadOneObject(kind: Kind) returns (r: Result<Option<seq<RawEvent>>>)
      modifies this, stream, metadata, stacks
      ensures Reached(ReadObject(kind, old(stream.inner), old(stream.pos), old(Value())), r)
      ensures r.Ok? ==> stream.End() == old(stream.End())
    {
      hide ReadBody;
      match kind
      case TraceObject => r := ReadTraceObject();
      case EventBlock => r := ReadEventBlock();
      case MetadataBlock => r := ReadMetadataBlock();
      case StackBlock =>
        if collectStacks {
          r := ReadStackBlock();
        } else {
          var _ :- PassBlock(kind);
          return Ok(None);
        }
      case SequencePointBlock =>
        sequencePointSeen := true;
        var _ :- PassBlock(kind);
        return Ok(None);
      case Unrecognised =>
        var _ :- PassBlock(kind);
        return Ok(None);
    }

    /** The next batch that has events, with everything in front of it learnt; nothing once the stream has ended. */
    method Next() returns (r: Result<Option<seq<RawEvent>>>)
      modifies this, stream, metadata, stacks
      ensures Reached(NextEvents(old(stream.inner), old(stream.pos), old(Value())), r)
      ensures r.Ok? ==> stream.End() == old(stream.End())
    {
      hide Framing.ReadObjectHeader, ReadObject, KindOf;
      ghost var whole := NextEvents(stream.inner, stream.pos, Value());
      while true
        invariant whole == NextEvents(stream.inner, stream.pos, Value())
        invariant stream.End() == old(stream.End())
        decreases |stream.inner|
      {
        if finished {
          return Ok(None);
        }
        var header :- stream.ReadObjectHeader();
        if header.None? {
          finished := true;
          return Ok(None);
        }
        var batch :- ReadOneObject(KindOf(header.value.typeName));
        if batch.Some? {
          return Ok(batch);
        }
      }
    }
  }

  /** A parser that knows nothing yet, standing behind the preamble. */
  method Open(stream: StreamReader) returns (r: Result<NettraceParser>)
    modifies stream
    ensures match Framing.ReadPreamble(old(stream.inner))
            case Failed(e) => r == Err(e)
            case Done(_, k) =>
              r.Ok? && r.value.stream == stream && fresh(r.value) && fresh(r.value.metadata) && fresh(r.value.stacks)
              && stream.inner == k && stream.End() == old(stream.End()) && r.value.Value() == NOTHING_YET
  {
    hide Framing.ReadPreamble;
    var _ :- stream.ReadPreamble();
    var parser := new NettraceParser(stream);
    return Ok(parser);
  }
}
