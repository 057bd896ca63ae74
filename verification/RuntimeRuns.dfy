/**
 What holds of the runtime's record after every list of events (src/runtime/state.rs). Each theorem compares the
 record with a definition that looks at the events alone: which collections started, which pauses were measured,
 what each type allocated.
 */
module RuntimeRuns {
  import opened Wire
  import opened Names
  import opened Ranking
  import opened RuntimeEvents

  function Earlier(events: seq<Event>): seq<Event>
    requires events != []
  {
    events[..|events| - 1]
  }

  function Latest(events: seq<Event>): Event
    requires events != []
  {
    events[|events| - 1]
  }

  function After(events: seq<Event>): Runtime {
    if events == [] then QUIET else Apply(After(Earlier(events)), Latest(events))
  }

  // ----- The events alone

  function Started(e: Event): seq<GcStart> {
    if e.Start? then [e.start] else []
  }

  function Starts(events: seq<Event>): seq<GcStart> {
    if events == [] then []
    else Starts(Earlier(events)) + Started(Latest(events))
  }

  /** The last suspension no restart has answered. */
  function OpenSuspension(events: seq<Event>): Option<u64> {
    if events == [] then None
    else
      match Latest(events)
      case Suspend(timestamp) => Some(timestamp)
      case Restart(_, _) => None
      case _ => OpenSuspension(Earlier(events))
  }

  function Optional<T>(x: Option<T>): seq<T> {
    if x.Some? then [x.value] else []
  }

  /** Every pause a suspension and its restart measure, in order. */
  function Pauses(events: seq<Event>): seq<real> {
    if events == [] then []
    else
      var before := Pauses(Earlier(events));
      match Latest(events)
      case Restart(timestamp, frequency) =>
        before + Optional(MeasuredPause(OpenSuspension(Earlier(events)), timestamp, frequency))
      case _ => before
  }

  function Sum(xs: seq<real>): real {
    if xs == [] then 0.0 else Sum(xs[..|xs| - 1]) + xs[|xs| - 1]
  }

  function OfGeneration(starts: seq<GcStart>, generation: nat): nat {
    if starts == [] then 0
    else
      var depth := starts[|starts| - 1].depth;
      OfGeneration(starts[..|starts| - 1], generation)
      + if (if depth < 2 then depth else 2) == generation then 1 else 0
  }

  // ----- Collections

  /** What the record no longer holds: collections before they were dropped, and held pauses written over. */
  datatype Ledger = Ledger(ended: seq<Collection>, lost: seq<real>)

  ghost function Booked(book: Ledger, s: Runtime, e: Event): Ledger {
    match e
    case Start(_) => book.(ended := book.ended + Optional(s.pending))
    case GcEnd => book.(ended := book.ended + Optional(s.pending))
    case Restart(timestamp, frequency) =>
      if MeasuredPause(s.suspended, timestamp, frequency).Some? && !(s.pending.Some? && s.pending.value.pause.None?) then
        book.(lost := book.lost + Optional(s.held))
      else book
    case _ => book
  }

  ghost function Book(events: seq<Event>): Ledger {
    if events == [] then Ledger([], []) else Booked(Book(Earlier(events)), After(Earlier(events)), Latest(events))
  }

  /** Every collection started so far, oldest first, the one in flight included. */
  ghost function Known(s: Runtime, book: Ledger): seq<Collection> {
    book.ended + Optional(s.pending)
  }

  ghost function Collections(events: seq<Event>): seq<Collection> {
    Known(After(events), Book(events))
  }

  function StartsOf(cs: seq<Collection>): seq<GcStart> {
    seq(|cs|, i requires 0 <= i < |cs| => cs[i].start)
  }

  function PausesOf(cs: seq<Collection>): seq<real> {
    if cs == [] then [] else PausesOf(cs[..|cs| - 1]) + Optional(cs[|cs| - 1].pause)
  }

  lemma NewestOfNewest<T>(xs: seq<T>, x: T)
    ensures Newest(Newest(xs) + [x]) == Newest(xs + [x])
  {
  }

  lemma StepStarts(s: Runtime, book: Ledger, e: Event)
    ensures StartsOf(Known(Apply(s, e), Booked(book, s, e))) == StartsOf(Known(s, book)) + Started(e)
  {
    hide Newest, MeasuredPause, CountGeneration, SiteAfter, ExceptionAfter;
    var known := Known(s, book);
    var known' := Known(Apply(s, e), Booked(book, s, e));
    assert |known'| == |known| + |Started(e)|;
  }

  lemma StepRecent(s: Runtime, book: Ledger, e: Event)
    requires s.recent == Newest(book.ended)
    ensures Apply(s, e).recent == Newest(Booked(book, s, e).ended)
  {
    hide Newest, MeasuredPause, CountGeneration, SiteAfter, ExceptionAfter;
    if s.pending.Some? {
      NewestOfNewest(book.ended, s.pending.value);
    } else {
      assert book.ended + Optional(s.pending) == book.ended;
    }
  }

  /** No start is lost or counted twice, and the list kept is the newest of those that ended. */
  lemma {:induction false} EveryStartIsACollection(events: seq<Event>)
    ensures StartsOf(Collections(events)) == Starts(events)
    ensures After(events).recent == Newest(Book(events).ended)
  {
    hide Newest, Apply, Booked, Known, StartsOf;
    if events == [] {
      NothingKnown();
    } else {
      var before := Earlier(events);
      EveryStartIsACollection(before);
      StepStarts(After(before), Book(before), Latest(events));
      StepRecent(After(before), Book(before), Latest(events));
    }
  }

  lemma NothingKnown()
    ensures StartsOf(Known(QUIET, Ledger([], []))) == []
    ensures Newest<Collection>([]) == []
  {
  }

  /** The collections on show are among those known, newest first. */
  lemma RecentIsReversedSuffix(s: Runtime, book: Ledger)
    requires s.recent == Newest(book.ended)
    ensures Recent(s) == Reversed(Known(s, book))[..|Recent(s)|]
    ensures |Recent(s)| == |s.recent| + |Optional(s.pending)| <= |Known(s, book)|
    ensures |s.recent| == if |book.ended| < MAX_RECENT_GCS then |book.ended| else MAX_RECENT_GCS
  {
    assert s.recent == book.ended[|book.ended| - |s.recent|..];
  }

  lemma ReversedStarts(cs: seq<Collection>)
    ensures StartsOf(Reversed(cs)) == Reversed(StartsOf(cs))
  {
  }

  lemma StartsOfPrefix(cs: seq<Collection>, n: nat)
    requires n <= |cs|
    ensures StartsOf(cs[..n]) == StartsOf(cs)[..n]
  {
  }

  /**
   The list shown is the newest starts, newest first: all of them up to `limit`, until more than 64 collections
   have ended; from then on 64 and the one in flight.
   */
  lemma RecentAreTheNewestStarts(events: seq<Event>, limit: nat)
    ensures var shown := Truncate(Recent(After(events)), limit);
            && |shown| <= |Starts(events)|
            && StartsOf(shown) == Reversed(Starts(events))[..|shown|]
            && |shown| <= 64 + 1
            && (|shown| < |Starts(events)| ==> |shown| == limit || |shown| >= 64)
  {
    hide Apply, Book, Starts, After, Known, Recent, Newest, Reversed, StartsOf;
    EveryStartIsACollection(events);
    var s, book := After(events), Book(events);
    RecentIsReversedSuffix(s, book);
    var known := Known(s, book);
    var shown := Truncate(Recent(s), limit);
    ReversedStarts(known);
    LengthsAgree(known);
    StartsOfPrefix(Reversed(known), |shown|);
    assert shown == Reversed(known)[..|shown|];
    KnownLength(s, book);
  }

  lemma LengthsAgree(cs: seq<Collection>)
    ensures |StartsOf(cs)| == |Reversed(cs)| == |cs| == |Reversed(StartsOf(cs))|
  {
  }

  lemma KnownLength(s: Runtime, book: Ledger)
    ensures |Known(s, book)| == |book.ended| + |Optional(s.pending)|
  {
  }

  ghost predicate CountsGenerations(counts: (nat, nat, nat), starts: seq<GcStart>) {
    && counts.0 == OfGeneration(starts, 0)
    && counts.1 == OfGeneration(starts, 1)
    && counts.2 == OfGeneration(starts, 2)
    && counts.0 + counts.1 + counts.2 == |starts|
  }

  lemma StepCounts(counts: (nat, nat, nat), starts: seq<GcStart>, start: GcStart)
    requires CountsGenerations(counts, starts)
    ensures CountsGenerations(CountGeneration(counts, start.depth), starts + [start])
  {
    assert (starts + [start])[..|starts|] == starts;
  }

  lemma CountsAfter(s: Runtime, e: Event)
    ensures Apply(s, e).gcCounts == if e.Start? then CountGeneration(s.gcCounts, e.start.depth) else s.gcCounts
  {
    hide Newest, MeasuredPause, CountGeneration, SiteAfter, ExceptionAfter;
  }

  lemma NothingCounted()
    ensures CountsGenerations((0, 0, 0), [])
  {
  }

  /** The counters by generation; generations above the second count as the second. */
  lemma {:induction false} EveryStartIsCounted(events: seq<Event>)
    ensures CountsGenerations(After(events).gcCounts, Starts(events))
  {
    hide Apply, CountGeneration, CountsGenerations;
    if events == [] {
      NothingCounted();
    } else {
      var before := Earlier(events);
      EveryStartIsCounted(before);
      CountsAfter(After(before), Latest(events));
      if Latest(events).Start? {
        StepCounts(After(before).gcCounts, Starts(before), Latest(events).start);
      } else {
        assert Starts(events) == Starts(before);
      }
    }
  }

  // ----- Pauses

  lemma PausesOfAppend(cs: seq<Collection>, c: Collection)
    ensures PausesOf(cs + [c]) == PausesOf(cs) + Optional(c.pause)
  {
    assert (cs + [c])[..|cs|] == cs;
  }

  function Measured(s: Runtime, e: Event): seq<real> {
    match e
    case Restart(timestamp, frequency) => Optional(MeasuredPause(s.suspended, timestamp, frequency))
    case _ => []
  }

  function PendingPause(s: Runtime): seq<real> {
    if s.pending.Some? then Optional(s.pending.value.pause) else []
  }

  /** The pauses a state and its ledger hold: on collections, waiting for the next start, and written over. */
  ghost function Accounted(s: Runtime, book: Ledger): multiset<real> {
    multiset(PausesOf(book.ended)) + multiset(PendingPause(s)) + multiset(Optional(s.held)) + multiset(book.lost)
  }

  lemma PausesOfKnown(s: Runtime, book: Ledger)
    ensures PausesOf(Known(s, book)) == PausesOf(book.ended) + PendingPause(s)
  {
    if s.pending.Some? {
      PausesOfAppend(book.ended, s.pending.value);
    } else {
      assert Known(s, book) == book.ended;
    }
  }

  /** Where the pauses are after an event, piece by piece. */
  ghost predicate Moved(s: Runtime, e: Event, s': Runtime) {
    match e
    case Start(_) => PendingPause(s') == Optional(s.held) && s'.held == None
    case GcEnd => PendingPause(s') == [] && s'.held == s.held
    case Restart(_, _) =>
      if Measured(s, e) == [] then
        PendingPause(s') == PendingPause(s) && s'.held == s.held
      else if s.pending.Some? && s.pending.value.pause.None? then
        PendingPause(s) == [] && PendingPause(s') == Measured(s, e) && s'.held == s.held
      else
        PendingPause(s') == PendingPause(s) && Optional(s'.held) == Measured(s, e)
    case _ => PendingPause(s') == PendingPause(s) && s'.held == s.held
  }

  lemma ApplyMoves(s: Runtime, e: Event)
    ensures Moved(s, e, Apply(s, e))
  {
    hide Newest, MeasuredPause, CountGeneration, SiteAfter, ExceptionAfter;
  }

  lemma FlushPauses(s: Runtime, book: Ledger, e: Event)
    requires e.Start? || e.GcEnd?
    ensures Accounted(Apply(s, e), Booked(book, s, e)) == Accounted(s, book)
  {
    hide Apply, PausesOf, PendingPause;
    ApplyMoves(s, e);
    PausesOfKnown(s, book);
    assert Booked(book, s, e).ended == Known(s, book);
  }

  /** A restart that measures a pause writes over one still held, unless the collection in flight can take it. */
  lemma RestartBooks(s: Runtime, book: Ledger, e: Event)
    requires e.Restart?
    ensures Booked(book, s, e) == if Measured(s, e) != [] && !(s.pending.Some? && s.pending.value.pause.None?)
                                  then book.(lost := book.lost + Optional(s.held)) else book
  {
    hide MeasuredPause;
  }

  lemma RestartPauses(s: Runtime, book: Ledger, e: Event)
    requires e.Restart?
    ensures Accounted(Apply(s, e), Booked(book, s, e)) == Accounted(s, book) + multiset(Measured(s, e))
  {
    hide Apply, Booked, Measured, PausesOf, PendingPause, Optional;
    ApplyMoves(s, e);
    RestartBooks(s, book, e);
    if Measured(s, e) != [] && !(s.pending.Some? && s.pending.value.pause.None?) {
      assert multiset(book.lost + Optional(s.held)) == multiset(book.lost) + multiset(Optional(s.held));
    }
  }

  lemma StepPauses(s: Runtime, book: Ledger, e: Event)
    ensures Accounted(Apply(s, e), Booked(book, s, e)) == Accounted(s, book) + multiset(Measured(s, e))
  {
    hide Apply, MeasuredPause, PausesOf, PendingPause;
    if e.Restart? {
      RestartPauses(s, book, e);
    } else if e.Start? || e.GcEnd? {
      FlushPauses(s, book, e);
    } else {
      ApplyMoves(s, e);
    }
  }

  /** A pause is the time between its two events, in milliseconds of the clock they were stamped by. */
  lemma PauseIsElapsedTime(suspended: Option<u64>, timestamp: u64, frequency: i64)
    ensures match MeasuredPause(suspended, timestamp, frequency)
            case None => suspended.None? || frequency <= 0 || timestamp <= suspended.value
            case Some(pause) =>
              && suspended.Some?
              && pause > 0.0
              && pause * frequency as real == (timestamp - suspended.value) as real * 1000.0
  {
    if MeasuredPause(suspended, timestamp, frequency).Some? {
      var ticks, f := (timestamp - suspended.value) as real, frequency as real;
      var q := ticks / f;
      assert q * f == ticks;
      assert q > 0.0;
      assert q * 1000.0 * f == q * f * 1000.0;
    }
  }

  lemma {:induction false} SuspensionIsOpen(events: seq<Event>)
    ensures After(events).suspended == OpenSuspension(events)
  {
    hide Newest, CountGeneration, SiteAfter, ExceptionAfter;
    if events == [] {
    } else {
      SuspensionIsOpen(Earlier(events));
    }
  }

  /**
   Each measured pause is in exactly one place: on one collection (the list may have dropped it since), held for
   the next start, or written over while held.
   */
  lemma {:induction false} PausesAreConserved(events: seq<Event>)
    ensures multiset(PausesOf(Collections(events))) + multiset(Optional(After(events).held)) + multiset(Book(events).lost)
         == multiset(Pauses(events))
  {
    hide Apply, Booked, Known, PausesOf, MeasuredPause;
    if events == [] {
      NothingHeld();
    } else {
      var before := Earlier(events);
      PausesAreConserved(before);
      SuspensionIsOpen(before);
      StepPauses(After(before), Book(before), Latest(events));
      PausesOfKnown(After(before), Book(before));
      PausesOfKnown(After(events), Book(events));
      assert Pauses(events) == Pauses(before) + Measured(After(before), Latest(events));
    }
  }

  lemma NothingHeld()
    ensures PausesOf(Known(QUIET, Ledger([], []))) == []
  {
  }

  lemma TotalAfter(s: Runtime, e: Event)
    ensures Apply(s, e).totalPause == s.totalPause + Sum(Measured(s, e))
  {
    hide Newest, MeasuredPause, CountGeneration, SiteAfter, ExceptionAfter;
    if Measured(s, e) != [] {
      var pause := Measured(s, e)[0];
      assert Measured(s, e) == [pause] && [pause][..0] == [];
    }
  }

  lemma {:induction false} SumAppend(xs: seq<real>, ys: seq<real>)
    ensures Sum(xs + ys) == Sum(xs) + Sum(ys)
  {
    if ys == [] {
      assert xs + ys == xs;
    } else {
      SumAppend(xs, ys[..|ys| - 1]);
      assert (xs + ys)[..|xs + ys| - 1] == xs + ys[..|ys| - 1];
    }
  }

  lemma SumOfNone()
    ensures Sum([]) == 0.0
  {
  }

  lemma {:induction false} TotalIsEveryPause(events: seq<Event>)
    ensures After(events).totalPause == Sum(Pauses(events))
  {
    hide Apply, MeasuredPause, Sum;
    if events == [] {
      SumOfNone();
    } else {
      var before := Earlier(events);
      TotalIsEveryPause(before);
      SuspensionIsOpen(before);
      TotalAfter(After(before), Latest(events));
      SumAppend(Pauses(before), Measured(After(before), Latest(events)));
      assert Pauses(events) == Pauses(before) + Measured(After(before), Latest(events));
    }
  }

  lemma SumOfOne(x: real)
    ensures Sum([x]) == x
  {
    assert [x][..0] == [];
  }

  lemma TakeOut(xs: seq<real>, k: nat) returns (rest: seq<real>)
    requires k < |xs|
    ensures multiset(xs) == multiset(rest) + multiset{xs[k]}
    ensures Sum(xs) == Sum(rest) + xs[k]
    ensures |rest| == |xs| - 1
  {
    hide Sum;
    var front, one, back := xs[..k], [xs[k]], xs[k + 1..];
    rest := front + back;
    assert xs == front + one + back;
    SumAppend(front + one, back);
    SumAppend(front, one);
    SumAppend(front, back);
    SumOfOne(xs[k]);
  }

  lemma Cancel(a: multiset<real>, b: multiset<real>, x: real)
    requires a + multiset{x} == b + multiset{x}
    ensures a == b
  {
    assert a == a + multiset{x} - multiset{x};
  }

  /** Reordering does not change a sum. */
  lemma {:induction false} SumOfPermutation(xs: seq<real>, ys: seq<real>)
    requires multiset(xs) == multiset(ys)
    ensures Sum(xs) == Sum(ys)
    decreases |xs|
  {
    hide Sum;
    if xs == [] {
      assert |multiset(ys)| == |ys|;
    } else {
      assert xs[0] in multiset(ys);
      var k :| 0 <= k < |ys| && ys[k] == xs[0];
      var front := TakeOut(xs, 0);
      var rest := TakeOut(ys, k);
      Cancel(multiset(front), multiset(rest), xs[0]);
      SumOfPermutation(front, rest);
    }
  }

  /** The total is what collections carry, plus what waits for the next start, plus what was written over. */
  lemma TotalIsAccountedFor(events: seq<Event>)
    ensures After(events).totalPause
         == Sum(PausesOf(Collections(events))) + Sum(Optional(After(events).held)) + Sum(Book(events).lost)
  {
    hide Apply, Sum, PausesOf, Collections, Book, Pauses, After;
    TotalIsEveryPause(events);
    PausesAreConserved(events);
    var claimed, held, lost := PausesOf(Collections(events)), Optional(After(events).held), Book(events).lost;
    SumOfPermutation(claimed + held + lost, Pauses(events));
    SumAppend(claimed + held, lost);
    SumAppend(claimed, held);
  }

  // ----- Allocation

  predicate IsAllocationOf(e: Event, typeName: Name) {
    e.Allocation? && e.typeName == typeName
  }

  function BytesOf(events: seq<Event>, typeName: Name): nat {
    if events == [] then 0
    else BytesOf(Earlier(events), typeName) + if IsAllocationOf(Latest(events), typeName) then Latest(events).bytes else 0
  }

  function TicksOf(events: seq<Event>, typeName: Name): nat {
    if events == [] then 0
    else TicksOf(Earlier(events), typeName) + if IsAllocationOf(Latest(events), typeName) then 1 else 0
  }

  predicate EverLarge(events: seq<Event>, typeName: Name) {
    exists e | e in events :: IsAllocationOf(e, typeName) && e.kind == Large
  }

  function FirstKind(events: seq<Event>, typeName: Name): Option<AllocationKind> {
    if events == [] then None
    else if IsAllocationOf(events[0], typeName) then Some(events[0].kind)
    else FirstKind(events[1..], typeName)
  }

  lemma {:induction false} FirstKindAppend(events: seq<Event>, e: Event, typeName: Name)
    ensures FirstKind(events + [e], typeName)
         == if FirstKind(events, typeName).Some? then FirstKind(events, typeName)
            else if IsAllocationOf(e, typeName) then Some(e.kind) else None
  {
    if events == [] {
      assert [e][1..] == [];
    } else {
      FirstKindAppend(events[1..], e, typeName);
      assert (events + [e])[1..] == events[1..] + [e];
    }
  }

  /** What the events say about one type; the larger heap is what is kept of the kind. */
  ghost function SiteOf(events: seq<Event>, typeName: Name): Option<AllocationSite> {
    match FirstKind(events, typeName)
    case None => None
    case Some(first) =>
      Some(AllocationSite(typeName, BytesOf(events, typeName), TicksOf(events, typeName),
                          if EverLarge(events, typeName) then Large else first))
  }

  function Lookup(sites: map<Name, AllocationSite>, typeName: Name): Option<AllocationSite> {
    if typeName in sites then Some(sites[typeName]) else None
  }

  lemma AllocationsAfter(s: Runtime, e: Event)
    ensures Apply(s, e).allocations
         == if e.Allocation? then s.allocations[e.typeName := SiteAfter(s.allocations, e.typeName, e.bytes, e.kind)]
            else s.allocations
    ensures Apply(s, e).allocatedBytes == s.allocatedBytes + if e.Allocation? then e.bytes else 0
    ensures Apply(s, e).allocationTicks == s.allocationTicks + if e.Allocation? then 1 else 0
  {
    hide Newest, MeasuredPause, CountGeneration, SiteAfter, ExceptionAfter;
  }

  lemma NothingBefore(events: seq<Event>, typeName: Name)
    requires FirstKind(events, typeName).None?
    ensures BytesOf(events, typeName) == 0 && TicksOf(events, typeName) == 0 && !EverLarge(events, typeName)
  {
    if events == [] {
    } else {
      FirstKindAppend(Earlier(events), Latest(events), typeName);
      assert events == Earlier(events) + [Latest(events)];
      NothingBefore(Earlier(events), typeName);
      forall e | e in events
        ensures !IsAllocationOf(e, typeName)
      {
        FirstNone(events, e, typeName);
      }
    }
  }

  lemma {:induction false} FirstNone(events: seq<Event>, e: Event, typeName: Name)
    requires FirstKind(events, typeName).None? && e in events
    ensures !IsAllocationOf(e, typeName)
  {
    if e != events[0] {
      FirstNone(events[1..], e, typeName);
    }
  }

  /** A site with one more allocation, or the first one. */
  function Grown(site: Option<AllocationSite>, e: Event): AllocationSite
    requires e.Allocation?
  {
    var known := if site.Some? then site.value else AllocationSite(e.typeName, 0, 0, e.kind);
    AllocationSite(known.typeName, known.bytes + e.bytes, known.ticks + 1, if e.kind == Large then Large else known.kind)
  }

  lemma LookupAfter(s: Runtime, e: Event, typeName: Name)
    ensures Lookup(Apply(s, e).allocations, typeName)
         == if IsAllocationOf(e, typeName) then Some(Grown(Lookup(s.allocations, typeName), e))
            else Lookup(s.allocations, typeName)
  {
    hide Apply;
    AllocationsAfter(s, e);
  }

  lemma LargeAppend(before: seq<Event>, e: Event, typeName: Name)
    ensures EverLarge(before + [e], typeName) <==> EverLarge(before, typeName) || (IsAllocationOf(e, typeName) && e.kind == Large)
  {
    if EverLarge(before, typeName) {
      var x :| x in before && IsAllocationOf(x, typeName) && x.kind == Large;
      assert x in before + [e];
    } else if IsAllocationOf(e, typeName) && e.kind == Large {
      assert e in before + [e];
    }
  }

  lemma SumsAppend(before: seq<Event>, e: Event, typeName: Name)
    ensures BytesOf(before + [e], typeName)
         == BytesOf(before, typeName) + if IsAllocationOf(e, typeName) then e.bytes else 0
    ensures TicksOf(before + [e], typeName) == TicksOf(before, typeName) + if IsAllocationOf(e, typeName) then 1 else 0
  {
    assert Earlier(before + [e]) == before;
  }

  lemma SiteOfAppend(before: seq<Event>, e: Event, typeName: Name)
    ensures SiteOf(before + [e], typeName)
         == if IsAllocationOf(e, typeName) then Some(Grown(SiteOf(before, typeName), e)) else SiteOf(before, typeName)
  {
    hide FirstKind, BytesOf, TicksOf, EverLarge;
    FirstKindAppend(before, e, typeName);
    LargeAppend(before, e, typeName);
    SumsAppend(before, e, typeName);
    if FirstKind(before, typeName).None? {
      NothingBefore(before, typeName);
    }
  }

  /** A type is on record exactly if it was allocated, with every byte and tick of it. */
  lemma {:induction false} SitesAreExact(events: seq<Event>, typeName: Name)
    ensures Lookup(After(events).allocations, typeName) == SiteOf(events, typeName)
  {
    hide Apply, SiteOf, Lookup, Grown;
    if events == [] {
      NothingAllocated(typeName);
    } else {
      var before, e := Earlier(events), Latest(events);
      assert events == before + [e];
      SitesAreExact(before, typeName);
      LookupAfter(After(before), e, typeName);
      SiteOfAppend(before, e, typeName);
    }
  }

  lemma NothingAllocated(typeName: Name)
    ensures Lookup(QUIET.allocations, typeName) == SiteOf([], typeName) == None
  {
  }

  // ----- Exceptions

  predicate IsThrowOf(e: Event, typeName: Name) {
    e.Exception? && e.typeName == typeName
  }

  function ThrowsOf(events: seq<Event>, typeName: Name): nat {
    if events == [] then 0 else ThrowsOf(Earlier(events), typeName) + if IsThrowOf(Latest(events), typeName) then 1 else 0
  }

  function FirstMessage(events: seq<Event>, typeName: Name): Option<Name> {
    if events == [] then None
    else if IsThrowOf(events[0], typeName) then Some(events[0].message)
    else FirstMessage(events[1..], typeName)
  }

  lemma {:induction false} FirstMessageAppend(events: seq<Event>, e: Event, typeName: Name)
    ensures FirstMessage(events + [e], typeName)
         == if FirstMessage(events, typeName).Some? then FirstMessage(events, typeName)
            else if IsThrowOf(e, typeName) then Some(e.message) else None
  {
    if events == [] {
      assert [e][1..] == [];
    } else {
      FirstMessageAppend(events[1..], e, typeName);
      assert (events + [e])[1..] == events[1..] + [e];
    }
  }

  lemma {:induction false} NoThrowsBefore(events: seq<Event>, typeName: Name)
    ensures FirstMessage(events, typeName).None? ==> ThrowsOf(events, typeName) == 0
  {
    if events == [] {
    } else {
      assert events == Earlier(events) + [Latest(events)];
      FirstMessageAppend(Earlier(events), Latest(events), typeName);
      NoThrowsBefore(Earlier(events), typeName);
    }
  }

  lemma ExceptionsOneLater(s: Runtime, e: Event)
    ensures Apply(s, e).exceptions
         == if e.Exception? then s.exceptions[e.typeName := ExceptionAfter(s.exceptions, e.typeName, e.message)]
            else s.exceptions
  {
    hide Newest, MeasuredPause, CountGeneration, SiteAfter, ExceptionAfter;
  }

  /** A type of exception is on record exactly if it was thrown, with the first message seen and every throw. */
  lemma {:induction false} ExceptionsAreExact(events: seq<Event>, typeName: Name)
    ensures var sites := After(events).exceptions;
            match FirstMessage(events, typeName)
            case None => typeName !in sites
            case Some(message) =>
              typeName in sites && sites[typeName] == ExceptionSite(typeName, message, ThrowsOf(events, typeName))
  {
    hide Apply;
    if events == [] {
    } else {
      var before, e := Earlier(events), Latest(events);
      ExceptionsAreExact(before, typeName);
      ExceptionsOneLater(After(before), e);
      assert events == before + [e];
      FirstMessageAppend(before, e, typeName);
      NoThrowsBefore(before, typeName);
    }
  }

  // ----- Contention

  /** Every wait for a lock, in order. */
  function LockWaits(events: seq<Event>): seq<real> {
    if events == [] then []
    else LockWaits(Earlier(events)) + if Latest(events).Contention? then [Latest(events).duration] else []
  }

  function Throws(events: seq<Event>): nat {
    if events == [] then 0 else Throws(Earlier(events)) + if Latest(events).Exception? then 1 else 0
  }

  lemma TalliesAfter(s: Runtime, e: Event)
    ensures var s' := Apply(s, e);
            && s'.eventsSeen == s.eventsSeen + 1
            && s'.exceptionCount == s.exceptionCount + (if e.Exception? then 1 else 0)
            && (if e.Contention? then
                  && s'.contentions == s.contentions + 1 && s'.contentionTotal == s.contentionTotal + e.duration
                  && s'.contentionMax == if e.duration > s.contentionMax then e.duration else s.contentionMax
                else
                  && s'.contentions == s.contentions && s'.contentionTotal == s.contentionTotal
                  && s'.contentionMax == s.contentionMax)
  {
    hide Newest, MeasuredPause, CountGeneration, SiteAfter, ExceptionAfter;
  }

  /** `worst` is the longest wait, or zero where none is longer. */
  ghost predicate IsWorst(worst: real, waits: seq<real>) {
    && worst >= 0.0 && (forall w <- waits :: w <= worst) && (worst == 0.0 || worst in waits)
  }

  lemma NoWorst()
    ensures IsWorst(0.0, [])
  {
  }

  lemma WorstAppend(worst: real, waits: seq<real>, w: real)
    requires IsWorst(worst, waits)
    ensures IsWorst(if w > worst then w else worst, waits + [w])
  {
  }

  lemma SumOneMore(xs: seq<real>, x: real)
    ensures Sum(xs + [x]) == Sum(xs) + x
  {
    assert (xs + [x])[..|xs|] == xs;
  }

  /** Waits for locks are counted, summed and the worst kept; throws and events are counted. */
  lemma {:induction false} TalliesAreExact(events: seq<Event>)
    ensures var s, waits := After(events), LockWaits(events);
            && s.contentions == |waits| && s.contentionTotal == Sum(waits) && IsWorst(s.contentionMax, waits)
            && s.exceptionCount == Throws(events) && s.eventsSeen == |events|
  {
    hide Apply, Sum, IsWorst;
    if events == [] {
      NoWorst();
      SumOfNone();
    } else {
      var before, e := Earlier(events), Latest(events);
      TalliesAreExact(before);
      TalliesAfter(After(before), e);
      if e.Contention? {
        WorstAppend(After(before).contentionMax, LockWaits(before), e.duration);
        SumOneMore(LockWaits(before), e.duration);
      } else {
        assert LockWaits(before) + [] == LockWaits(before);
      }
    }
  }

  // ----- Totals

  ghost function Total(sites: map<Name, AllocationSite>, measure: AllocationSite -> nat): nat
    decreases |sites|
  {
    if sites == map[] then 0
    else
      var n := Pick(sites);
      measure(sites[n]) + Total(sites - {n}, measure)
  }

  lemma {:induction false} TotalSplit(sites: map<Name, AllocationSite>, n: Name, measure: AllocationSite -> nat)
    requires n in sites
    ensures Total(sites, measure) == measure(sites[n]) + Total(sites - {n}, measure)
    decreases |sites|
  {
    var m := Pick(sites);
    if m != n {
      TotalSplit(sites - {m}, n, measure);
      TotalSplit(sites - {n}, m, measure);
      assert sites - {m} - {n} == sites - {n} - {m};
    }
  }

  lemma TotalUpdate(sites: map<Name, AllocationSite>, n: Name, site: AllocationSite, measure: AllocationSite -> nat)
    ensures Total(sites[n := site], measure)
         == Total(sites, measure) + measure(site) - if n in sites then measure(sites[n]) else 0
  {
    hide Total;
    TotalSplit(sites[n := site], n, measure);
    assert sites[n := site] - {n} == sites - {n};
    if n in sites {
      TotalSplit(sites, n, measure);
    } else {
      assert sites - {n} == sites;
    }
  }

  const BYTES: AllocationSite -> nat := (site: AllocationSite) => site.bytes

  const TICKS: AllocationSite -> nat := (site: AllocationSite) => site.ticks

  /** The sites add up to the totals beside them, so shares add up to the whole. */
  lemma {:induction false} SitesAddUp(events: seq<Event>)
    ensures Total(After(events).allocations, BYTES) == After(events).allocatedBytes
    ensures Total(After(events).allocations, TICKS) == After(events).allocationTicks
  {
    hide Apply;
    if events == [] {
    } else {
      var before, e := Earlier(events), Latest(events);
      SitesAddUp(before);
      AllocationsAfter(After(before), e);
      if e.Allocation? {
        var sites := After(before).allocations;
        var site := SiteAfter(sites, e.typeName, e.bytes, e.kind);
        TotalUpdate(sites, e.typeName, site, BYTES);
        TotalUpdate(sites, e.typeName, site, TICKS);
      }
    }
  }

  function Share(s: Runtime, site: AllocationSite): real {
    if s.allocatedBytes == 0 then 0.0 else site.bytes as real / s.allocatedBytes as real * 100.0
  }

  lemma ShareIsAPercentage(events: seq<Event>, typeName: Name)
    requires typeName in After(events).allocations
    ensures 0.0 <= Share(After(events), After(events).allocations[typeName]) <= 100.0
  {
    hide Apply, After;
    var s := After(events);
    SitesAddUp(events);
    TotalSplit(s.allocations, typeName, BYTES);
    if s.allocatedBytes != 0 {
      PartOfWhole(s.allocations[typeName].bytes, s.allocatedBytes);
    }
  }

  lemma PartOfWhole(part: nat, whole: nat)
    requires part <= whole && whole > 0
    ensures 0.0 <= part as real / whole as real * 100.0 <= 100.0
  {
    var q := part as real / whole as real;
    assert q * whole as real == part as real;
    assert (1.0 - q) * whole as real == whole as real - part as real;
    SignOfFactor(1.0 - q, whole as real);
  }

  /** The table of types comes out the same whatever order the map hands its entries over in. */
  lemma TopIsDetermined(events: seq<Event>, a: seq<AllocationSite>, b: seq<AllocationSite>)
    requires Elements(a) == After(events).allocations.Values == Elements(b)
    requires Ranked(a, Heavier) && Ranked(b, Heavier)
    ensures a == b
  {
    hide Apply;
    var sites := After(events).allocations;
    forall n | n in sites.Keys
      ensures sites[n].typeName == n
    {
      SitesAreExact(events, n);
    }
    HeavierIsTotal(sites);
    RankingIsUnique(a, b, Heavier, sites.Values);
  }

  /** The heaviest site comes first, and among equals the one whose name comes first. */
  lemma HeaviestFirst(ranking: seq<AllocationSite>, i: nat, j: nat)
    requires Ranked(ranking, Heavier) && i < j < |ranking|
    ensures ranking[i].bytes >= ranking[j].bytes
    ensures ranking[i].bytes == ranking[j].bytes ==> Precedes(ranking[i].typeName, ranking[j].typeName)
  {
    assert Heavier(ranking[i], ranking[j]);
    NameLessExactly(ranking[i].typeName, ranking[j].typeName);
  }
}
