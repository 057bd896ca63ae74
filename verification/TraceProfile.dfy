/**
 From the bytes of a written trace to its profile: collecting the stream is running the steps its blocks stand
 for, so what `Steps` proves about recycled stack ids holds of whole traces.
 */
module TraceProfile {
  import opened Wire
  import Framing
  import opened Names
  import opened Schema
  import opened Rows
  import opened RowWriter
  import opened Blocks
  import opened TraceWriter
  import RoundTrip
  import opened Methods
  import opened Samples
  import opened Steps
  import opened Collect

  // ----- What rows and blocks stand for, from their bytes

  /** A sample's type is the number in the first four bytes of its payload: 0 marks an error. */
  function MarkedType(payload: seq<byte>): SampleType {
    if |payload| < 4 then UnknownType(0xFFFF_FFFF)
    else if payload[..4] == [0, 0, 0, 0] then Error
    else if payload[..4] == [1, 0, 0, 0] then External
    else if payload[..4] == [2, 0, 0, 0] then Managed
    else PowersOf256(); UnknownType(FromLE(payload[..4]))
  }

  /** Event 0 of the sample profiler is a sample. */
  predicate TakesSample(m: EventMetadata) {
    m.providerName == Text("Microsoft-DotNETCore-SampleProfiler") && m.eventId == 0
  }

  /** Events 141 to 144 of the runtime, or of its rundown, tell where a method lies. */
  predicate PlacesMethod(m: EventMetadata) {
    && (m.eventId == 141 || m.eventId == 142 || m.eventId == 143 || m.eventId == 144)
    && (m.providerName == Text("Microsoft-Windows-DotNETRuntime")
        || m.providerName == Text("Microsoft-Windows-DotNETRuntimeRundown"))
  }

  /** The samples of a block's rows, in order; a row is known by the record of its metadata id. */
  function WaitsIn(rows: seq<Row>, table: map<u32, EventMetadata>): seq<Step> {
    if rows == [] then []
    else
      var h := rows[0].header;
      (if h.metadataId in table && TakesSample(table[h.metadataId])
       then [Wait(Waiting(h.stackId, MarkedType(rows[0].payload)))] else [])
      + WaitsIn(rows[1..], table)
  }

  /** The methods of a block's rows: named, starting above zero and holding something. */
  function MethodsIn(rows: seq<Row>, table: map<u32, EventMetadata>): seq<Method> {
    if rows == [] then []
    else
      var h := rows[0].header;
      (if h.metadataId in table && PlacesMethod(table[h.metadataId]) then
         match MethodIn(rows[0].payload)
         case Some(m) => if m.name != [] && m.start > 0 && m.size > 0 then [m] else []
         case None => []
       else [])
      + MethodsIn(rows[1..], table)
  }

  function Defines(stacks: seq<Blocks.Stack>, firstId: u32, index: nat): seq<Step> {
    if stacks == [] then []
    else [Define((firstId + index) % TWO_32, stacks[0])] + Defines(stacks[1..], firstId, index + 1)
  }

  /** What a block contributes; `seen` is whether a sequence point lies between it and the batch before. */
  function StepsOfBlock(b: Block, table: map<u32, EventMetadata>, seen: bool): seq<Step> {
    match b.item
    case EventItem(rows) => if rows.rows == [] then [] else WaitsIn(rows.rows, table) + if seen then [Boundary] else []
    case StackItem(firstId, stacks, _) => Defines(stacks, firstId, 0)
    case _ => []
  }

  function MethodsOfBlock(b: Block, table: map<u32, EventMetadata>): seq<Method> {
    if b.item.EventItem? then MethodsIn(b.item.rows.rows, table) else []
  }

  function TableAfter(b: Block, table: map<u32, EventMetadata>): map<u32, EventMetadata> {
    if b.item.MetadataItem? then BindRecords(b.item.records, table) else table
  }

  /** A sequence point counts until the next block that has events. */
  function SeenAfter(b: Block, seen: bool): bool {
    if b.item.EventItem? && b.item.rows.rows != [] then false else seen || IsSequencePoint(b)
  }

  function StepsFrom(blocks: seq<Block>, table: map<u32, EventMetadata>, seen: bool): seq<Step>
    decreases |blocks|
  {
    if blocks == [] then []
    else StepsOfBlock(blocks[0], table, seen) + StepsFrom(blocks[1..], TableAfter(blocks[0], table), SeenAfter(blocks[0], seen))
  }

  function MethodsFrom(blocks: seq<Block>, table: map<u32, EventMetadata>): seq<Method>
    decreases |blocks|
  {
    if blocks == [] then [] else MethodsOfBlock(blocks[0], table) + MethodsFrom(blocks[1..], TableAfter(blocks[0], table))
  }

  /** The steps of a whole trace. */
  function StepsOf(blocks: seq<Block>): seq<Step> { StepsFrom(blocks, map[], false) }

  function MethodsOf(blocks: seq<Block>): seq<Method> { MethodsFrom(blocks, map[]) }

  // ----- The collector sees the same in them

  function Waits(ws: seq<Waiting>): seq<Step> {
    if ws == [] then [] else [Wait(ws[0])] + Waits(ws[1..])
  }

  lemma WaitsAppend(ws: seq<Waiting>, w: Waiting)
    ensures Waits([w] + ws) == [Wait(w)] + Waits(ws)
  {
    assert ([w] + ws)[1..] == ws;
  }

  lemma NoWaits()
    ensures Waits([]) == []
  {
  }

  lemma NumberedBytes(b: seq<byte>, v: u32)
    requires |b| == 4
    ensures FromLE(b) == v <==> b == LE(v, 4)
  {
    PowersOf256();
    LEUndoesFromLE(b);
    FromLEUndoesLE(v, 4);
  }

  lemma TypeIsMarked(payload: seq<byte>)
    ensures SampleTypeIn(payload) == MarkedType(payload)
  {
    if |payload| >= 4 {
      NumberedBytes(payload[..4], 0);
      NumberedBytes(payload[..4], 1);
      NumberedBytes(payload[..4], 2);
      assert LE(0, 4) == [0, 0, 0, 0] && LE(1, 4) == [1, 0, 0, 0] && LE(2, 4) == [2, 0, 0, 0];
    }
  }

  lemma RowIsSample(row: Row, table: map<u32, EventMetadata>, more: seq<Waiting>)
    ensures Waits(EventSamples(EventOf(row.header, row.payload), table) + more)
         == (var h := row.header;
             (if h.metadataId in table && TakesSample(table[h.metadataId])
              then [Wait(Waiting(h.stackId, MarkedType(row.payload)))] else [])
             + Waits(more))
  {
    hide MarkedType, SampleTypeIn, Text, Waits;
    TypeIsMarked(row.payload);
    WaitsAppend(more, Waiting(row.header.stackId, MarkedType(row.payload)));
    assert [] + more == more && [] + Waits(more) == Waits(more);
  }

  lemma {:induction false} RowsAreSamples(rows: seq<Row>, table: map<u32, EventMetadata>)
    ensures Waits(BatchSamples(EventsOf(rows), table)) == WaitsIn(rows, table)
    decreases |rows|
  {
    hide MarkedType, EventSamples, Waits, TakesSample;
    if rows == [] {
      NoWaits();
    } else {
      var events := EventsOf(rows);
      assert events[1..] == EventsOf(rows[1..]);
      RowsAreSamples(rows[1..], table);
      RowIsSample(rows[0], table, BatchSamples(events[1..], table));
    }
  }

  lemma {:induction false} RowsAreMethods(rows: seq<Row>, table: map<u32, EventMetadata>)
    ensures BatchMethods(EventsOf(rows), table) == MethodsIn(rows, table)
    decreases |rows|
  {
    hide MethodIn, Text;
    if rows == [] {
    } else {
      var events := EventsOf(rows);
      assert events[1..] == EventsOf(rows[1..]);
      RowsAreMethods(rows[1..], table);
      assert EventMethods(events[0], table) + BatchMethods(events[1..], table) == MethodsIn(rows, table);
    }
  }

  /** What is known once a block has been dealt with: behind a batch, any sequence point is spent. */
  function KnowNext(b: Block, k: Knowledge): Knowledge {
    if Emits(b) then KnowAfterBatch(k) else KnowAfter(b, k)
  }

  lemma KnowAfterIs(b: Block, k: Knowledge)
    ensures KnowAfter(b, k).metadata == TableAfter(b, k.metadata)
    ensures KnowAfter(b, k).sequencePoint == (k.sequencePoint || IsSequencePoint(b))
  {
    hide BindRecords, BindStacks, EventsOf, Ascii;
    match b.item
    case TraceItem(_) =>
    case EventItem(_) =>
    case MetadataItem(_, _) =>
    case StackItem(_, _, _) =>
    case OpaqueItem(_) =>
  }

  lemma KnowNextIsAfter(b: Block, k: Knowledge)
    ensures KnowNext(b, k).metadata == TableAfter(b, k.metadata)
    ensures KnowNext(b, k).sequencePoint == SeenAfter(b, k.sequencePoint)
  {
    hide KnowAfter, Ascii;
    KnowAfterIs(b, k);
  }

  function StateOf(k: Knowledge, p: Profile): State { State(k.current, k.previous, p.pending, p.log) }

  lemma RunFirst(s: State, x: Step, steps: seq<Step>)
    ensures Run(s, [x] + steps) == Run(Apply(s, x), steps)
  {
    hide Apply;
    assert ([x] + steps)[1..] == steps;
  }

  lemma {:induction false} RunWaits(s: State, ws: seq<Waiting>)
    ensures Run(s, Waits(ws)) == s.(pending := s.pending + ws)
    decreases |ws|
  {
    hide Run, Resolved;
    if ws == [] {
      RunNothing(s);
      assert s.pending + ws == s.pending;
    } else {
      var s' := s.(pending := s.pending + [ws[0]]);
      RunFirst(s, Wait(ws[0]), Waits(ws[1..]));
      RunWaits(s', ws[1..]);
      assert s.pending + [ws[0]] + ws[1..] == s.pending + ws;
    }
  }

  lemma {:induction false} RunDefines(s: State, stacks: seq<Blocks.Stack>, firstId: u32, index: nat)
    ensures Run(s, Defines(stacks, firstId, index)) == s.(current := BindStacks(stacks, firstId, index, s.current))
    decreases |stacks|
  {
    hide Run, Resolved;
    if stacks == [] {
      RunNothing(s);
    } else {
      var id: u32 := (firstId + index) % TWO_32;
      RunFirst(s, Define(id, stacks[0]), Defines(stacks[1..], firstId, index + 1));
      RunDefines(s.(current := s.current[id := stacks[0]]), stacks[1..], firstId, index + 1);
    }
  }

  lemma RunOne(s: State, x: Step)
    ensures Run(s, [x]) == Apply(s, x)
  {
    hide Apply;
    assert [x][1..] == [];
  }

  /** The profile a batch leaves behind. */
  lemma BatchIsSteps(b: Block, k: Knowledge, p: Profile)
    requires Emits(b)
    ensures Run(StateOf(k, p), StepsOfBlock(b, k.metadata, k.sequencePoint))
         == StateOf(KnowAfterBatch(k), AfterBatch(p, EventsOf(b.item.rows.rows), k))
    ensures AfterBatch(p, EventsOf(b.item.rows.rows), k).methods == p.methods + MethodsOfBlock(b, k.metadata)
  {
    hide Run, Resolved, BatchSamples, BatchMethods, EventsOf;
    var samples := BatchSamples(EventsOf(b.item.rows.rows), k.metadata);
    var s := StateOf(k, p);
    RowsAreSamples(b.item.rows.rows, k.metadata);
    RowsAreMethods(b.item.rows.rows, k.metadata);
    RunWaits(s, samples);
    if k.sequencePoint {
      RunAppend(s, Waits(samples), [Boundary]);
      RunOne(s.(pending := s.pending + samples), Boundary);
    } else {
      assert Waits(samples) + [] == Waits(samples);
    }
  }

  lemma QuietIsSteps(b: Block, k: Knowledge, p: Profile)
    requires !Emits(b)
    ensures Run(StateOf(k, p), StepsOfBlock(b, k.metadata, k.sequencePoint)) == StateOf(KnowAfter(b, k), p)
  {
    hide Run, BindStacks, BindRecords, EventsOf;
    if b.item.StackItem? {
      RunDefines(StateOf(k, p), b.item.stacks, b.item.firstId, 0);
    } else {
      RunNothing(StateOf(k, p));
    }
  }

  lemma CollectBatchFirst(s: seq<byte>, pos: nat, k: Knowledge, p: Profile, events: seq<RawEvent>, rest: seq<byte>,
                          known: Knowledge)
    requires NextEvents(s, pos, k) == Batch(events, rest, known)
    ensures CollectFrom(s, pos, k, p)
         == CollectFrom(rest, pos + |s| - |rest|, KnowAfterBatch(known), AfterBatch(p, events, known))
  {
    hide NextEvents, AfterBatch, KnowAfterBatch, AfterDrain;
  }

  lemma CollectFollows(s: seq<byte>, pos: nat, k: Knowledge, s': seq<byte>, pos': nat, k': Knowledge, p: Profile)
    requires NextEvents(s, pos, k) == NextEvents(s', pos', k') && pos + |s| == pos' + |s'|
    ensures CollectFrom(s, pos, k, p) == CollectFrom(s', pos', k', p)
  {
    hide NextEvents, AfterBatch, KnowAfterBatch, AfterDrain;
  }

  lemma EndIsDrained(s: seq<byte>, pos: nat, k: Knowledge, p: Profile)
    requires NextEvents(s, pos, k) == EndOfStream([], k.(finished := true))
    ensures CollectFrom(s, pos, k, p) == Collected(Profile(Drained(StateOf(k, p)).log, [], p.methods))
  {
    hide NextEvents, AfterBatch, KnowAfterBatch;
  }

  /** The profile once a block has been dealt with. */
  function ProfileNext(b: Block, k: Knowledge, p: Profile): Profile {
    if Emits(b) then AfterBatch(p, EventsOf(b.item.rows.rows), k) else p
  }

  /** One block: what collecting does with its bytes is what running its steps does. */
  lemma CollectBlock(b: Block, pos: nat, k: Knowledge, p: Profile, rest: seq<byte>)
    requires BlockOk(b, k.trace, k.collectStacks) && !k.finished
    ensures var s := PutBlock(b, pos, k.trace, k.collectStacks, rest);
            CollectFrom(s, pos, k, p) == CollectFrom(rest, pos + BlockLength(b, pos, k.trace, k.collectStacks),
                                                     KnowNext(b, k), ProfileNext(b, k, p))
  {
    hide NextEvents, PutBlock, BlockLength, BlockOk, KnowAfter, KnowAfterBatch, AfterBatch, Meaning, EventsOf, Emits,
      CollectFrom;
    var s := PutBlock(b, pos, k.trace, k.collectStacks, rest);
    RoundTrip.KnowAfterKeeps(b, k);
    RoundTrip.BlockMeans(b, pos, k, rest);
    RoundTrip.BlockLengthSplits(b, pos, k.trace, k.collectStacks, rest);
    if Emits(b) {
      RoundTrip.EmitsKeepsTrace(b, k.trace);
      CollectBatchFirst(s, pos, k, p, EventsOf(b.item.rows.rows), rest, k);
    } else {
      CollectFollows(s, pos, k, rest, pos + BlockLength(b, pos, k.trace, k.collectStacks), KnowAfter(b, k), p);
    }
  }

  lemma BlockIsSteps(b: Block, k: Knowledge, p: Profile)
    ensures Run(StateOf(k, p), StepsOfBlock(b, k.metadata, k.sequencePoint)) == StateOf(KnowNext(b, k), ProfileNext(b, k, p))
    ensures ProfileNext(b, k, p).methods == p.methods + MethodsOfBlock(b, k.metadata)
    ensures KnowNext(b, k).trace == TraceAfter(b, k.trace)
    ensures KnowNext(b, k).collectStacks == k.collectStacks && KnowNext(b, k).finished == k.finished
  {
    hide Run, StepsOfBlock, KnowAfter, AfterBatch, EventsOf;
    RoundTrip.KnowAfterKeeps(b, k);
    if Emits(b) {
      BatchIsSteps(b, k, p);
    } else {
      QuietIsSteps(b, k, p);
      assert p.methods + [] == p.methods;
    }
  }

  /** What `collect` makes of a written trace: the log of its steps and the methods of its events. */
  lemma {:induction false} CollectIsSteps(blocks: seq<Block>, pos: nat, k: Knowledge, p: Profile)
    requires StreamOk(blocks, k.trace, k.collectStacks) && !k.finished
    ensures CollectFrom(PutStream(blocks, pos, k.trace, k.collectStacks), pos, k, p)
         == Collected(Profile(Drained(Run(StateOf(k, p), StepsFrom(blocks, k.metadata, k.sequencePoint))).log, [],
                              p.methods + MethodsFrom(blocks, k.metadata)))
    decreases |blocks|
  {
    hide CollectFrom, PutBlock, BlockLength, BlockOk, KnowNext, ProfileNext, StepsOfBlock, MethodsOfBlock, Drained, Run;
    if blocks == [] {
      RoundTrip.NullReferenceEnds(pos, k);
      EndIsDrained([Framing.NULL_REFERENCE], pos, k, p);
      RunNothing(StateOf(k, p));
      assert p.methods + [] == p.methods;
    } else {
      var b, k1, p1 := blocks[0], KnowNext(blocks[0], k), ProfileNext(blocks[0], k, p);
      var pos1 := pos + BlockLength(b, pos, k.trace, k.collectStacks);
      BlockIsSteps(b, k, p);
      CollectBlock(b, pos, k, p, PutStream(blocks[1..], pos1, TraceAfter(b, k.trace), k.collectStacks));
      KnowNextIsAfter(b, k);
      RunAppend(StateOf(k, p), StepsOfBlock(b, k.metadata, k.sequencePoint),
                StepsFrom(blocks[1..], k1.metadata, k1.sequencePoint));
      CollectIsSteps(blocks[1..], pos1, k1, p1);
      MethodsSplit(p, p1, blocks, k);
    }
  }

  lemma MethodsSplit(p: Profile, p1: Profile, blocks: seq<Block>, k: Knowledge)
    requires blocks != [] && p1.methods == p.methods + MethodsOfBlock(blocks[0], k.metadata)
    ensures p.methods + MethodsFrom(blocks, k.metadata)
         == p1.methods + MethodsFrom(blocks[1..], KnowNext(blocks[0], k).metadata)
  {
    hide MethodsOfBlock, KnowNext, TableAfter;
    KnowNextIsAfter(blocks[0], k);
  }

  /**
   From a fresh parser with stacks switched on: the counts are those of the log its steps determine, each sample
   resolved by the newest definition in reach of its drain (see `Steps.LogIsExact`).
   */
  lemma TraceProfileIsExact(blocks: seq<Block>, pos: nat)
    requires StreamOk(blocks, NO_TRACE, true)
    ensures var k := NOTHING_YET.(collectStacks := true);
            CollectFrom(PutStream(blocks, pos, NO_TRACE, true), pos, k, NO_PROFILE)
            == Collected(Profile(FinalLog(StepsOf(blocks)), [], MethodsOf(blocks)))
  {
    hide PutStream, StreamOk, CollectFrom, Run;
    var k := NOTHING_YET.(collectStacks := true);
    CollectIsSteps(blocks, pos, k, NO_PROFILE);
    assert [] + MethodsOf(blocks) == MethodsOf(blocks);
  }

  /**
   What becomes of one sample, from its bytes: four leading zeros and nothing else keep its stack from being looked
   up; any other payload, a shorter one too, gets the newest definition in reach where its batch is settled.
   */
  lemma SampleIsLogged(blocks: seq<Block>, pos: nat, i: nat, stackId: u32, payload: seq<byte>)
    requires StreamOk(blocks, NO_TRACE, true)
    requires i < |StepsOf(blocks)| && StepsOf(blocks)[i] == Wait(Waiting(stackId, MarkedType(payload)))
    ensures var steps := StepsOf(blocks);
            var collected := CollectFrom(PutStream(blocks, pos, NO_TRACE, true), pos,
                                         NOTHING_YET.(collectStacks := true), NO_PROFILE);
            && collected.Collected? && SamplesBefore(steps, i) < |collected.profile.log|
            && collected.profile.log[SamplesBefore(steps, i)]
               == if |payload| >= 4 && payload[..4] == [0, 0, 0, 0] then Missing
                  else
                    match Newest(steps[..DrainPoint(steps, i)], stackId, 2)
                    case Some(frames) => Found(frames)
                    case None => Missing
  {
    hide PutStream, StreamOk, CollectFrom, FinalLog, StepsOf, DrainPoint, SamplesBefore, Newest;
    TraceProfileIsExact(blocks, pos);
    LogIsExact(StepsOf(blocks), i);
  }

  /**
   Where each sample that is not an error finds its own stack, collecting gives for every address what pairing
   samples with their own stacks and counting them would.
   */
  lemma TraceProfileIsTheReference(blocks: seq<Block>, pos: nat, own: nat -> nat, address: u64)
    requires StreamOk(blocks, NO_TRACE, true)
    requires EachFindsOwn(StepsOf(blocks), own)
    ensures var steps := StepsOf(blocks);
            var log := OwnLog(steps, own, |steps|);
            var collected := CollectFrom(PutStream(blocks, pos, NO_TRACE, true), pos,
                                         NOTHING_YET.(collectStacks := true), NO_PROFILE);
            && collected.Collected?
            && collected.profile.log == log
            && CountAt(RecordAll(NO_COUNTS, collected.profile.log).selfCounts, address) == HowMany(log, LeafIs(address))
            && CountAt(RecordAll(NO_COUNTS, collected.profile.log).totalCounts, address) == HowMany(log, Holds(address))
  {
    hide PutStream, StreamOk, CollectFrom, FinalLog, OwnLog, EachFindsOwn, StepsOf;
    var steps := StepsOf(blocks);
    TraceProfileIsExact(blocks, pos);
    LogIsTheReference(steps, own);
    CountsAreExact(OwnLog(steps, own, |steps|), address);
  }
}
