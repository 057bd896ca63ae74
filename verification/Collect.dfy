/** Driving a profile from the stream to its counts and method table (src/profile/run.rs, collect and drain). */
module Collect {
  import opened Wire
  import Decode
  import opened Names
  import opened Schema
  import opened Rows
  import opened Blocks
  import opened Parser
  import opened Methods
  import opened Samples
  import opened Steps

  function SampleProfiler(): Name { Text("Microsoft-DotNETCore-SampleProfiler") }
  function RuntimeProvider(): Name { Text("Microsoft-Windows-DotNETRuntime") }
  function RundownProvider(): Name { Text("Microsoft-Windows-DotNETRuntimeRundown") }

  const THREAD_SAMPLE: int := 0

  function SampleTypeOf(raw: u32): SampleType {
    if raw == 0 then Error else if raw == 1 then External else if raw == 2 then Managed else UnknownType(raw)
  }

  /** Four bytes give the type of a sample; a shorter one is of unknown type, not an error. */
  function SampleTypeIn(payload: seq<byte>): SampleType {
    match Decode.U32(payload)
    case Done(raw, _) => SampleTypeOf(raw)
    case Failed(_) => UnknownType(0xFFFF_FFFF)
  }

  predicate IsSampleEvent(m: EventMetadata) {
    m.providerName == SampleProfiler() && m.eventId == THREAD_SAMPLE
  }

  predicate IsMethodEvent(m: EventMetadata) {
    141 <= m.eventId <= 144 && (m.providerName == RuntimeProvider() || m.providerName == RundownProvider())
  }

  /** A decoded method worth keeping: a same-numbered event of another shape rarely passes. */
  function PlausibleMethod(payload: seq<byte>): Option<Method> {
    match MethodIn(payload)
    case Some(m) => if m.name != [] && m.start > 0 && m.size > 0 then Some(m) else None
    case None => None
  }

  // ----- Specification

  /** What one event adds: a waiting sample, a method, or nothing. Unknown metadata ids are passed over. */
  function EventSamples(e: RawEvent, metadata: map<u32, EventMetadata>): seq<Waiting> {
    if e.metadataId in metadata && IsSampleEvent(metadata[e.metadataId]) then [Waiting(e.stackId, SampleTypeIn(e.payload))]
    else []
  }

  function EventMethods(e: RawEvent, metadata: map<u32, EventMetadata>): seq<Method> {
    if e.metadataId in metadata && !IsSampleEvent(metadata[e.metadataId]) && IsMethodEvent(metadata[e.metadataId])
       && PlausibleMethod(e.payload).Some?
    then [PlausibleMethod(e.payload).value] else []
  }

  function BatchSamples(events: seq<RawEvent>, metadata: map<u32, EventMetadata>): seq<Waiting> {
    if events == [] then [] else EventSamples(events[0], metadata) + BatchSamples(events[1..], metadata)
  }

  function BatchMethods(events: seq<RawEvent>, metadata: map<u32, EventMetadata>): seq<Method> {
    if events == [] then [] else EventMethods(events[0], metadata) + BatchMethods(events[1..], metadata)
  }

  /** A profile in the making: the samples logged, those waiting, and the methods found. */
  datatype Profile = Profile(log: seq<Sample>, pending: seq<Waiting>, methods: seq<Method>)

  const NO_PROFILE: Profile := Profile([], [], [])

  function AfterDrain(p: Profile, k: Knowledge): Profile {
    p.(log := p.log + Resolved(p.pending, k.current, k.previous), pending := [])
  }

  function AfterRotation(k: Knowledge): Knowledge {
    k.(sequencePoint := false, current := map[], previous := k.current)
  }

  /** A batch, and the drain and rotation behind it if a sequence point was passed on the way to it. */
  function AfterBatch(p: Profile, events: seq<RawEvent>, k: Knowledge): Profile {
    var p' := p.(pending := p.pending + BatchSamples(events, k.metadata),
                 methods := p.methods + BatchMethods(events, k.metadata));
    if k.sequencePoint then AfterDrain(p', k) else p'
  }

  function KnowAfterBatch(k: Knowledge): Knowledge {
    if k.sequencePoint then AfterRotation(k) else k
  }

  datatype Outcome = Collected(profile: Profile) | Aborted(error: ParseError)

  function CollectFrom(s: seq<byte>, pos: nat, k: Knowledge, p: Profile): Outcome
    decreases |s|
  {
    match NextEvents(s, pos, k)
    case Batch(events, rest, k') => CollectFrom(rest, pos + |s| - |rest|, KnowAfterBatch(k'), AfterBatch(p, events, k'))
    case EndOfStream(_, k') => Collected(AfterDrain(p, k'))
    case Failure(e, _) => Aborted(e)
    case Quiet(_, k') => Collected(p)
  }

  /** What the caller is told behind each batch. */
  datatype Report = Report(samples: nat, methods: nat)

  /** One report behind every batch: samples resolved or waiting, and methods found. */
  function ReportsFrom(s: seq<byte>, pos: nat, k: Knowledge, p: Profile): seq<Report>
    decreases |s|
  {
    match NextEvents(s, pos, k)
    case Batch(events, rest, k') =>
      var p' := AfterBatch(p, events, k');
      [Report(|p'.log| + |p'.pending|, |p'.methods|)] + ReportsFrom(rest, pos + |s| - |rest|, KnowAfterBatch(k'), p')
    case _ => []
  }

  /** Draining moves samples from waiting to logged; only a batch adds any, and all of its own. */
  lemma ReportsAddUp(p: Profile, events: seq<RawEvent>, k: Knowledge)
    ensures |AfterBatch(p, events, k).log| + |AfterBatch(p, events, k).pending|
         == |p.log| + |p.pending| + |BatchSamples(events, k.metadata)|
    ensures |AfterDrain(p, k).log| == |p.log| + |p.pending|
  {
  }

  // ----- The methods

  /** What to do with one event depends on what its metadata says it is. */
  method TakeEvent(event: RawEvent, metadata: map<u32, EventMetadata>, table: MethodTable, waiting: seq<Waiting>)
    returns (pending: seq<Waiting>)
    requires table.Valid()
    modifies table
    ensures table.Valid()
    ensures pending == waiting + EventSamples(event, metadata)
    ensures table.inserted == old(table.inserted) + EventMethods(event, metadata)
  {
    hide SampleTypeIn, MethodIn, IsSampleEvent, IsMethodEvent, StableSort;
    pending := waiting;
    if event.metadataId !in metadata {
      return;
    }
    var m := metadata[event.metadataId];
    if IsSampleEvent(m) {
      pending := pending + [Waiting(event.stackId, SampleTypeIn(event.payload))];
    } else if IsMethodEvent(m) {
      var found := FindMethod(event.payload);
      if found.Some? && found.value.name != [] && found.value.start > 0 {
        table.Insert(found.value);
      }
    }
  }

  /** Take one batch apart. */
  method TakeBatch(events: seq<RawEvent>, metadata: map<u32, EventMetadata>, table: MethodTable, waiting: seq<Waiting>)
    returns (pending: seq<Waiting>)
    requires table.Valid()
    modifies table
    ensures table.Valid()
    ensures pending == waiting + BatchSamples(events, metadata)
    ensures table.inserted == old(table.inserted) + BatchMethods(events, metadata)
  {
    hide EventSamples, EventMethods, StableSort;
    pending := waiting;
    assert events[0..] == events;
    for i := 0 to |events|
      invariant table.Valid()
      invariant pending + BatchSamples(events[i..], metadata) == waiting + BatchSamples(events, metadata)
      invariant table.inserted + BatchMethods(events[i..], metadata)
             == old(table.inserted) + BatchMethods(events, metadata)
    {
      assert events[i..][0] == events[i] && events[i..][1..] == events[i + 1..];
      pending := TakeEvent(events[i], metadata, table, pending);
    }
  }

  /** Resolve everything waiting against the stacks as they are now. */
  method Drain(pending: seq<Waiting>, state: ProfileState, stacks: StackTable, ghost log: seq<Sample>)
    requires state.Value() == RecordAll(NO_COUNTS, log)
    modifies state
    ensures state.Value() == RecordAll(NO_COUNTS, log + Resolved(pending, stacks.current, stacks.previous))
  {
    hide Record;
    ghost var out := Resolved(pending, stacks.current, stacks.previous);
    assert log + out[..0] == log;
    for i := 0 to |pending|
      invariant stacks.current == old(stacks.current) && stacks.previous == old(stacks.previous)
      invariant state.Value() == RecordAll(NO_COUNTS, log + out[..i])
    {
      var w := pending[i];
      RecordNext(log, out, i);
      if w.sampleType == Error {
        state.RecordMissingStack();
        continue;
      }
      var frames := stacks.Get(w.stackId);
      match frames
      case Some(stack) => state.RecordStack(stack);
      case None => state.RecordMissingStack();
    }
    assert out[..|pending|] == out;
  }

  lemma RecordNext(log: seq<Sample>, out: seq<Sample>, i: nat)
    requires i < |out|
    ensures RecordAll(NO_COUNTS, log + out[..i + 1]) == Record(RecordAll(NO_COUNTS, log + out[..i]), out[i])
  {
    var all := log + out[..i + 1];
    assert all[..|all| - 1] == log + out[..i];
  }

  /** Behind a batch: if a sequence point was passed, resolve what waits and rotate the stacks. */
  method SettleBatch(parser: NettraceParser, state: ProfileState, waiting: seq<Waiting>, ghost p: Profile)
    returns (pending: seq<Waiting>, ghost after: Profile)
    requires state.Value() == RecordAll(NO_COUNTS, p.log) && p.pending == waiting
    modifies parser`sequencePointSeen, parser.stacks, state
    ensures after == if old(parser.Value()).sequencePoint then AfterDrain(p, old(parser.Value())) else p
    ensures parser.Value() == KnowAfterBatch(old(parser.Value()))
    ensures state.Value() == RecordAll(NO_COUNTS, after.log) && pending == after.pending
  {
    hide RecordAll, Resolved;
    var seen := parser.TakeSequencePoint();
    if !seen {
      return waiting, p;
    }
    Drain(waiting, state, parser.stacks, p.log);
    after := AfterDrain(p, old(parser.Value()));
    parser.stacks.Rotate();
    pending := [];
  }

  /** One batch: take it apart, settle what is due, report. */
  method CollectBatch(parser: NettraceParser, state: ProfileState, table: MethodTable, events: seq<RawEvent>,
                      waiting: seq<Waiting>, ghost p: Profile)
    returns (pending: seq<Waiting>, report: Report, ghost after: Profile)
    requires table.Valid() && table.inserted == p.methods
    requires state.Value() == RecordAll(NO_COUNTS, p.log) && p.pending == waiting
    modifies parser`sequencePointSeen, parser.stacks, state, table
    ensures table.Valid() && table.inserted == after.methods
    ensures state.Value() == RecordAll(NO_COUNTS, after.log) && pending == after.pending
    ensures after == AfterBatch(p, events, old(parser.Value())) && parser.Value() == KnowAfterBatch(old(parser.Value()))
    ensures report == Report(|after.log| + |after.pending|, |after.methods|)
  {
    hide RecordAll, StableSort, Resolved, BatchSamples, BatchMethods;
    pending := TakeBatch(events, parser.metadata.byId, table, waiting);
    pending, after := SettleBatch(parser, state, pending, p.(pending := pending, methods := table.inserted));
    LogLength(after.log);
    var methodCount := table.Count();
    report := Report(state.samples + |pending|, methodCount);
  }

  /** Collect from an opened parser until its stream ends. */
  method CollectAll(parser: NettraceParser, state: ProfileState, table: MethodTable)
    returns (r: Result<()>, reports: seq<Report>)
    requires table.Valid() && table.inserted == [] && state.Value() == NO_COUNTS
    modifies parser, parser.stream, parser.metadata, parser.stacks, state, table
    ensures table.Valid()
    ensures match CollectFrom(old(parser.stream.inner), old(parser.stream.pos), old(parser.Value()), NO_PROFILE)
            case Collected(p) =>
              r.Ok? && p.pending == [] && state.Value() == RecordAll(NO_COUNTS, p.log)
              && table.sorted && table.inserted == p.methods
            case Aborted(e) => r == Err(e)
    ensures reports == ReportsFrom(old(parser.stream.inner), old(parser.stream.pos), old(parser.Value()), NO_PROFILE)
  {
    hide NextEvents, RecordAll, StableSort, Resolved, AfterBatch, KnowAfterBatch;
    var pending: seq<Waiting> := [];
    reports := [];
    ghost var p := NO_PROFILE;
    ghost var whole := CollectFrom(parser.stream.inner, parser.stream.pos, parser.Value(), p);
    ghost var all := ReportsFrom(parser.stream.inner, parser.stream.pos, parser.Value(), p);
    NothingRecorded();
    while true
      invariant table.Valid()
      invariant state.Value() == RecordAll(NO_COUNTS, p.log) && pending == p.pending
      invariant table.inserted == p.methods
      invariant whole == CollectFrom(parser.stream.inner, parser.stream.pos, parser.Value(), p)
      invariant all == reports + ReportsFrom(parser.stream.inner, parser.stream.pos, parser.Value(), p)
      decreases |parser.stream.inner|
    {
      var next := parser.Next();
      if next.Err? {
        r := Err(next.error);
        return;
      }
      if next.value.None? {
        break;
      }
      var report;
      pending, report, p := CollectBatch(parser, state, table, next.value.value, pending, p);
      reports := reports + [report];
    }
    Drain(pending, state, parser.stacks, p.log);
    table.Finish();
    r := Ok(());
  }

  lemma NothingRecorded()
    ensures RecordAll(NO_COUNTS, []) == NO_COUNTS
  {
  }

  /** The sample count is the length of the log. */
  lemma {:induction false} LogLength(log: seq<Sample>)
    ensures RecordAll(NO_COUNTS, log).samples == |log|
  {
    if log == [] {
    } else {
      LogLength(log[..|log| - 1]);
    }
  }
}
