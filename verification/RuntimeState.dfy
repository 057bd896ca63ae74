/**
 What the runtime has been doing (src/runtime/state.rs): allocation sites, exceptions, contention, and the
 pairing of suspensions with collections.
 */
module RuntimeEvents {
  import opened Wire
  import opened Names
  import opened Ranking

  /** How many ended collections are kept. */
  const MAX_RECENT_GCS: nat := 64

  datatype AllocationKind = Small | Large | OtherKind(raw: u32)

  datatype AllocationSite = AllocationSite(typeName: Name, bytes: nat, ticks: nat, kind: AllocationKind)

  datatype ExceptionSite = ExceptionSite(typeName: Name, message: Name, count: nat)

  /** What a collection announces when it starts. */
  datatype GcStart = GcStart(count: u32, depth: u32, reason: u32, gcType: u32)

  /** A collection as far as it has been seen; its pause is exact, in milliseconds. */
  datatype Collection = Collection(start: GcStart, pause: Option<real>, promoted: Option<nat>)

  datatype Event =
    | Allocation(typeName: Name, bytes: nat, kind: AllocationKind)
    | Start(start: GcStart)
    | HeapStats(gen0: nat, gen1: nat, gen2: nat, loh: nat)
    | GcEnd
    | Suspend(timestamp: u64)
    | Restart(timestamp: u64, frequency: i64)
    | Exception(typeName: Name, message: Name)
    | Contention(duration: real)

  datatype Runtime = Runtime(
    allocations: map<Name, AllocationSite>,
    exceptions: map<Name, ExceptionSite>,
    contentions: nat,
    contentionTotal: real,
    contentionMax: real,
    recent: seq<Collection>,
    allocatedBytes: nat,
    allocationTicks: nat,
    exceptionCount: nat,
    gcCounts: (nat, nat, nat),
    totalPause: real,
    pending: Option<Collection>,
    suspended: Option<u64>,
    held: Option<real>,
    eventsSeen: nat)

  const QUIET: Runtime := Runtime(map[], map[], 0, 0.0, 0.0, [], 0, 0, 0, (0, 0, 0), 0.0, None, None, None, 0)

  // ----- One event

  function SiteAfter(sites: map<Name, AllocationSite>, typeName: Name, bytes: nat, kind: AllocationKind): AllocationSite {
    var site := if typeName in sites then sites[typeName] else AllocationSite(typeName, 0, 0, kind);
    site.(bytes := site.bytes + bytes, ticks := site.ticks + 1, kind := if kind == Large then kind else site.kind)
  }

  function ExceptionAfter(sites: map<Name, ExceptionSite>, typeName: Name, message: Name): ExceptionSite {
    var site := if typeName in sites then sites[typeName] else ExceptionSite(typeName, message, 0);
    site.(count := site.count + 1)
  }

  /** The newest `MAX_RECENT_GCS` of a list. */
  function Newest<T>(xs: seq<T>): seq<T> {
    if |xs| > MAX_RECENT_GCS then xs[|xs| - MAX_RECENT_GCS..] else xs
  }

  function Flushed(s: Runtime): Runtime {
    match s.pending
    case Some(c) => s.(pending := None, recent := Newest(s.recent + [c]))
    case None => s
  }

  lemma FlushedKeeps(s: Runtime)
    ensures Flushed(s) == s.(pending := None, recent := Flushed(s).recent)
  {
  }

  function CountGeneration(counts: (nat, nat, nat), depth: u32): (nat, nat, nat) {
    if depth == 0 then (counts.0 + 1, counts.1, counts.2)
    else if depth == 1 then (counts.0, counts.1 + 1, counts.2)
    else (counts.0, counts.1, counts.2 + 1)
  }

  /** The pause a restart measures, where it measures one at all. */
  function MeasuredPause(suspended: Option<u64>, timestamp: u64, frequency: i64): Option<real> {
    match suspended
    case None => None
    case Some(began) =>
      if frequency <= 0 || timestamp <= began then None
      else Some(Milliseconds(timestamp - began, frequency))
  }

  function Milliseconds(ticks: nat, frequency: i64): real
    requires frequency > 0
  {
    ticks as real / frequency as real * 1000.0
  }

  /** A pause goes to the collection in flight if it has none yet, and is held for the next start otherwise. */
  function Attribute(s: Runtime, pause: real): Runtime {
    if s.pending.Some? && s.pending.value.pause.None? then
      s.(pending := Some(s.pending.value.(pause := Some(pause))))
    else s.(held := Some(pause))
  }

  function Apply(s0: Runtime, e: Event): Runtime {
    var s := s0.(eventsSeen := s0.eventsSeen + 1);
    match e
    case Allocation(typeName, bytes, kind) =>
      s.(allocatedBytes := s.allocatedBytes + bytes, allocationTicks := s.allocationTicks + 1,
         allocations := s.allocations[typeName := SiteAfter(s.allocations, typeName, bytes, kind)])
    case Start(start) =>
      var flushed := Flushed(s);
      flushed.(gcCounts := CountGeneration(s.gcCounts, start.depth),
               pending := Some(Collection(start, s.held, None)), held := None)
    case HeapStats(gen0, gen1, gen2, loh) =>
      if s.pending.Some? then s.(pending := Some(s.pending.value.(promoted := Some(gen0 + gen1 + gen2 + loh)))) else s
    case GcEnd => Flushed(s)
    case Suspend(timestamp) => s.(suspended := Some(timestamp))
    case Restart(timestamp, frequency) =>
      var taken := s.(suspended := None);
      (match MeasuredPause(s.suspended, timestamp, frequency)
       case None => taken
       case Some(pause) => Attribute(taken.(totalPause := taken.totalPause + pause), pause))
    case Exception(typeName, message) =>
      s.(exceptionCount := s.exceptionCount + 1,
         exceptions := s.exceptions[typeName := ExceptionAfter(s.exceptions, typeName, message)])
    case Contention(duration) =>
      s.(contentions := s.contentions + 1, contentionTotal := s.contentionTotal + duration,
         contentionMax := if duration > s.contentionMax then duration else s.contentionMax)
  }

  class RuntimeState {
    var allocations: map<Name, AllocationSite>
    var exceptions: map<Name, ExceptionSite>
    var contentions: nat
    var contentionTotal: real
    var contentionMax: real
    var recent: seq<Collection>
    var allocatedBytes: nat
    var allocationTicks: nat
    var exceptionCount: nat
    var gcCounts: (nat, nat, nat)
    var totalPause: real
    var pending: Option<Collection>
    var suspended: Option<u64>
    var held: Option<real>
    var eventsSeen: nat

    ghost function Value(): Runtime
      reads this
    {
      Runtime(allocations, exceptions, contentions, contentionTotal, contentionMax, recent, allocatedBytes,
              allocationTicks, exceptionCount, gcCounts, totalPause, pending, suspended, held, eventsSeen)
    }

    constructor ()
      ensures Value() == QUIET
    {
      allocations, exceptions := map[], map[];
      contentions, contentionTotal, contentionMax := 0, 0.0, 0.0;
      recent, allocatedBytes, allocationTicks, exceptionCount := [], 0, 0, 0;
      gcCounts, totalPause := (0, 0, 0), 0.0;
      pending, suspended, held, eventsSeen := None, None, None, 0;
    }

    method RecordAllocation(typeName: Name, bytes: nat, kind: AllocationKind)
      modifies this
      ensures Value() == Apply(old(Value()), Allocation(typeName, bytes, kind))
    {
      eventsSeen := eventsSeen + 1;
      allocatedBytes := allocatedBytes + bytes;
      allocationTicks := allocationTicks + 1;
      allocations := allocations[typeName := SiteAfter(allocations, typeName, bytes, kind)];
    }

    method FlushPending()
      modifies this`pending, this`recent
      ensures Value() == Flushed(old(Value()))
    {
      if pending.None? {
        return;
      }
      recent := recent + [pending.value];
      pending := None;
      if |recent| > MAX_RECENT_GCS {
        var overflow := |recent| - MAX_RECENT_GCS;
        recent := recent[overflow..];
      }
    }

    /** A start also ends whatever was still in flight. */
    method RecordGcStart(start: GcStart)
      modifies this
      ensures Value() == Apply(old(Value()), Start(start))
    {
      hide Flushed, CountGeneration;
      FlushedKeeps(Value().(eventsSeen := eventsSeen + 1));
      eventsSeen := eventsSeen + 1;
      FlushPending();
      gcCounts := CountGeneration(gcCounts, start.depth);
      pending := Some(Collection(start, held, None));
      held := None;
    }

    method RecordHeapStats(gen0: nat, gen1: nat, gen2: nat, loh: nat)
      modifies this
      ensures Value() == Apply(old(Value()), HeapStats(gen0, gen1, gen2, loh))
    {
      eventsSeen := eventsSeen + 1;
      if pending.Some? {
        pending := Some(pending.value.(promoted := Some(gen0 + gen1 + gen2 + loh)));
      }
    }

    method RecordGcEnd()
      modifies this
      ensures Value() == Apply(old(Value()), GcEnd)
    {
      eventsSeen := eventsSeen + 1;
      FlushPending();
    }

    method RecordSuspend(timestamp: u64)
      modifies this
      ensures Value() == Apply(old(Value()), Suspend(timestamp))
    {
      eventsSeen := eventsSeen + 1;
      suspended := Some(timestamp);
    }

    method RecordRestart(timestamp: u64, frequency: i64)
      modifies this
      ensures Value() == Apply(old(Value()), Restart(timestamp, frequency))
    {
      hide Milliseconds;
      eventsSeen := eventsSeen + 1;
      var taken := suspended;
      suspended := None;
      if taken.None? {
        return;
      }
      var began := taken.value;
      if frequency <= 0 || timestamp <= began {
        return;
      }
      var pause := Milliseconds(timestamp - began, frequency);
      totalPause := totalPause + pause;
      if pending.Some? && pending.value.pause.None? {
        pending := Some(pending.value.(pause := Some(pause)));
      } else {
        held := Some(pause);
      }
    }

    method RecordException(typeName: Name, message: Name)
      modifies this
      ensures Value() == Apply(old(Value()), Exception(typeName, message))
    {
      eventsSeen := eventsSeen + 1;
      exceptionCount := exceptionCount + 1;
      exceptions := exceptions[typeName := ExceptionAfter(exceptions, typeName, message)];
    }

    method RecordContention(duration: real)
      modifies this
      ensures Value() == Apply(old(Value()), Contention(duration))
    {
      eventsSeen := eventsSeen + 1;
      contentions := contentions + 1;
      contentionTotal := contentionTotal + duration;
      contentionMax := if duration > contentionMax then duration else contentionMax;
    }

    /** The collection in flight, then the kept ones from the newest back. */
    method RecentCollections(limit: nat) returns (out: seq<Collection>)
      ensures out == Truncate(Recent(Value()), limit)
    {
      out := if pending.Some? then [pending.value] else [];
      out := out + Reversed(recent);
      out := Truncate(out, limit);
    }

    /** Every site once, in whatever order the map yields them. */
    method Sites() returns (sites: seq<AllocationSite>)
      requires SitesNamed(allocations)
      ensures Elements(sites) == allocations.Values && Distinct(sites)
    {
      sites := [];
      var rest := allocations.Keys;
      while rest != {}
        invariant rest <= allocations.Keys
        invariant Elements(sites) == set n | n in allocations.Keys - rest :: allocations[n]
        invariant Distinct(sites)
        decreases |rest|
      {
        var name :| name in rest;
        AppendSite(sites, allocations, allocations.Keys - rest, name);
        sites := sites + [allocations[name]];
        assert allocations.Keys - rest + {name} == allocations.Keys - (rest - {name});
        rest := rest - {name};
      }
    }

    /** A ranking by bytes. */
    method TopAllocations(limit: nat) returns (out: seq<AllocationSite>)
      requires SitesNamed(allocations)
      ensures exists ranking :: Ranked(ranking, Heavier) && Elements(ranking) == allocations.Values
                             && out == Truncate(ranking, limit)
    {
      var sites := Sites();
      HeavierIsTotal(allocations);
      SortByRanks(sites, Heavier, allocations.Values);
      out := Truncate(SortBy(sites, Heavier), limit);
    }
  }

  function Reversed<T>(xs: seq<T>): (ys: seq<T>)
    ensures |ys| == |xs| && forall i :: 0 <= i < |xs| ==> ys[i] == xs[|xs| - 1 - i]
  {
    seq(|xs|, i requires 0 <= i < |xs| => xs[|xs| - 1 - i])
  }

  function Recent(s: Runtime): seq<Collection> {
    (if s.pending.Some? then [s.pending.value] else []) + Reversed(s.recent)
  }

  // ----- Ranking

  predicate Heavier(a: AllocationSite, b: AllocationSite) {
    a.bytes > b.bytes || (a.bytes == b.bytes && NameLess(a.typeName, b.typeName))
  }

  /** Every site is filed under its own name. */
  predicate SitesNamed(sites: map<Name, AllocationSite>) {
    forall n <- sites.Keys :: sites[n].typeName == n
  }

  lemma HeavierIsTotal(sites: map<Name, AllocationSite>)
    requires SitesNamed(sites)
    ensures StrictTotalOrder(Heavier, sites.Values)
  {
    forall x | x in sites.Values
      ensures !Heavier(x, x)
    {
      NameLessIrreflexive(x.typeName);
    }
    forall x, y, z | x in sites.Values && y in sites.Values && z in sites.Values && Heavier(x, y) && Heavier(y, z)
      ensures Heavier(x, z)
    {
      if NameLess(x.typeName, y.typeName) && NameLess(y.typeName, z.typeName) {
        NameLessTransitive(x.typeName, y.typeName, z.typeName);
      }
    }
    forall x, y | x in sites.Values && y in sites.Values
      ensures x == y || Heavier(x, y) || Heavier(y, x)
    {
      NameLessTotal(x.typeName, y.typeName);
    }
  }

  lemma AppendSite(xs: seq<AllocationSite>, sites: map<Name, AllocationSite>, done: set<Name>, name: Name)
    requires SitesNamed(sites) && done <= sites.Keys && name in sites && name !in done
    requires Distinct(xs) && Elements(xs) == set n | n in done :: sites[n]
    ensures Distinct(xs + [sites[name]])
    ensures Elements(xs + [sites[name]]) == set n | n in done + {name} :: sites[n]
  {
    var more := xs + [sites[name]];
    assert sites[name] !in Elements(xs);
    forall r
      ensures r in Elements(more) <==> r in set n | n in done + {name} :: sites[n]
    {
      assert r in Elements(more) <==> r == sites[name] || r in Elements(xs);
    }
    forall i, j | 0 <= i < j < |more|
      ensures more[i] != more[j]
    {
      if j == |xs| { assert more[i] in Elements(xs); }
    }
  }
}
