/**
 Which collection each pause ends up on (src/runtime/state.rs), said in terms of the events alone: where the pause
 was measured, which start was in flight there, and what was held when a collection started.
 */
module PauseClaims {
  import opened Wire
  import opened RuntimeEvents
  import opened RuntimeRuns

  // ----- The events alone

  /** The start of the collection in flight: the last start, if no end has followed it. */
  function Flight(events: seq<Event>): (i: Option<nat>)
    ensures i.Some? ==> i.value < |events| && events[i.value].Start?
  {
    if events == [] then None
    else
      match Latest(events)
      case Start(_) => Some(|events| - 1)
      case GcEnd => None
      case _ => Flight(Earlier(events))
  }

  /** Where the suspension still open began. */
  function OpenedAt(events: seq<Event>): (u: Option<nat>)
    ensures u.Some? ==> u.value < |events| && events[u.value].Suspend?
  {
    if events == [] then None
    else
      match Latest(events)
      case Suspend(_) => Some(|events| - 1)
      case Restart(_, _) => None
      case _ => OpenedAt(Earlier(events))
  }

  /** The pause the event at `r` measures, if it does. */
  function PauseAt(events: seq<Event>, r: nat): Option<real>
    requires r < |events|
  {
    match events[r]
    case Restart(timestamp, frequency) => MeasuredPause(OpenSuspension(events[..r]), timestamp, frequency)
    case _ => None
  }

  /** The first pause measured while the collection started at `i` is in flight. */
  function FirstDuring(events: seq<Event>, i: nat): (r: Option<nat>)
    requires i < |events|
    ensures r.Some? ==> i < r.value < |events|
    decreases |events|
  {
    if |events| == i + 1 then None
    else
      var before, now := Earlier(events), |events| - 1;
      if FirstDuring(before, i).Some? then FirstDuring(before, i)
      else if Flight(before) == Some(i) && PauseAt(events, now).Some? then Some(now)
      else None
  }

  /** Where the pause waiting for the next start was measured. */
  function Holding(events: seq<Event>): (r: Option<nat>)
    ensures r.Some? ==> r.value < |events|
    decreases |events|
  {
    if events == [] then None
    else
      var before, now := Earlier(events), |events| - 1;
      if Latest(events).Start? then None
      else if PauseAt(events, now).None? then Holding(before)
      else
        match Flight(before)
        case Some(i) => if Claim(before, i).None? then Holding(before) else Some(now)
        case None => Some(now)
  }

  /** Where the pause of the collection started at `i` was measured: held at its start, or else the first in flight. */
  function Claim(events: seq<Event>, i: nat): (r: Option<nat>)
    requires i < |events|
    ensures r.Some? ==> r.value < |events|
    decreases |events|
  {
    if Holding(events[..i]).Some? then Holding(events[..i]) else FirstDuring(events, i)
  }

  function PauseOf(events: seq<Event>, r: Option<nat>): Option<real>
    requires r.Some? ==> r.value < |events|
  {
    if r.Some? then PauseAt(events, r.value) else None
  }

  // ----- The record agrees

  /** Which collection the start at `i` is. */
  function Nth(events: seq<Event>, i: nat): nat
    requires i < |events|
  {
    |Starts(events[..i])|
  }

  ghost predicate ClaimsAgree(events: seq<Event>) {
    && RuntimeRuns.After(events).held == PauseOf(events, Holding(events))
    && (RuntimeRuns.After(events).pending.Some? <==> Flight(events).Some?)
    && (Flight(events).Some? ==> Nth(events, Flight(events).value) == |Collections(events)| - 1)
    && forall i | 0 <= i < |events| && events[i].Start? ::
         && Nth(events, i) < |Collections(events)|
         && Collections(events)[Nth(events, i)].pause == PauseOf(events, Claim(events, i))
  }

  lemma EarlierPrefix(events: seq<Event>, i: nat)
    requires events != [] && i < |events|
    ensures Earlier(events)[..i] == events[..i]
  {
  }

  /** What was true of places before the last event stays true of them, but for a pause it measures. */
  lemma ClaimBefore(events: seq<Event>, i: nat)
    requires events != [] && i < |events| - 1
    ensures Nth(events, i) == Nth(Earlier(events), i)
    ensures PauseAt(events, i) == PauseAt(Earlier(events), i)
    ensures Claim(events, i)
         == if Claim(Earlier(events), i).Some? then Claim(Earlier(events), i)
            else if Flight(Earlier(events)) == Some(i) && PauseAt(events, |events| - 1).Some? then Some(|events| - 1)
            else None
  {
    hide PauseAt, Holding, Flight;
    EarlierPrefix(events, i);
    SamePauseAt(events, i);
  }

  lemma SamePauseAt(events: seq<Event>, i: nat)
    requires events != [] && i < |events| - 1
    ensures PauseAt(events, i) == PauseAt(Earlier(events), i)
  {
    EarlierPrefix(events, i);
  }

  /** The pause an event gives the collection in flight, where it has none. */
  function Given(s: Runtime, e: Event): Option<real> {
    if s.pending.Some? && s.pending.value.pause.None? && Measured(s, e) != [] then Some(Measured(s, e)[0]) else None
  }

  lemma StepPausesOn(s: Runtime, book: Ledger, e: Event)
    ensures var known, known' := Known(s, book), Known(Apply(s, e), Booked(book, s, e));
            && |known'| == |known| + |Started(e)|
            && (e.Start? ==> known'[|known|].pause == s.held)
            && (forall k | 0 <= k < |known| ::
                  known'[k].pause == if k == |known| - 1 && Given(s, e).Some? then Given(s, e) else known[k].pause)
            && (s.pending.Some? ==> known != [] && known[|known| - 1] == s.pending.value)
    ensures Apply(s, e).pending.Some? <==> e.Start? || (s.pending.Some? && !e.GcEnd?)
    ensures Apply(s, e).held == if e.Start? then None
                                else if Measured(s, e) != [] && Given(s, e).None? then Some(Measured(s, e)[0])
                                else s.held
  {
    hide Newest, MeasuredPause, CountGeneration, SiteAfter, ExceptionAfter;
  }

  lemma MeasuredIsPauseAt(events: seq<Event>)
    requires events != []
    ensures Measured(RuntimeRuns.After(Earlier(events)), Latest(events)) == Optional(PauseAt(events, |events| - 1))
  {
    hide Apply, MeasuredPause;
    SuspensionIsOpen(Earlier(events));
  }

  lemma StartsCounted(events: seq<Event>)
    requires events != []
    ensures |Starts(events)| == |Starts(Earlier(events))| + |Started(Latest(events))|
    ensures Nth(events, |events| - 1) == |Starts(Earlier(events))|
  {
    assert events[..|events| - 1] == Earlier(events);
  }

  lemma CollectionsAreStarts(events: seq<Event>)
    ensures |Collections(events)| == |Starts(events)|
  {
    EveryStartIsACollection(events);
    assert |StartsOf(Collections(events))| == |Collections(events)|;
  }

  lemma {:induction false} NthIsBelow(events: seq<Event>, i: nat)
    requires i < |events| && events[i].Start?
    ensures Nth(events, i) < |Starts(events)|
  {
    if i < |events| - 1 {
      EarlierPrefix(events, i);
      NthIsBelow(Earlier(events), i);
    } else {
      StartsCounted(events);
    }
  }

  lemma NthRises(events: seq<Event>, i: nat, j: nat)
    requires i < j < |events| && events[i].Start?
    ensures Nth(events, i) < Nth(events, j)
  {
    NthIsBelow(events[..j], i);
    assert events[..j][..i] == events[..i];
  }

  /** The pause a turn's last event adds to a claim is the one it gives the collection in flight. */
  lemma GivenIsPauseAt(events: seq<Event>)
    requires events != [] && ClaimsAgree(Earlier(events))
    ensures var before := Earlier(events);
            Given(RuntimeRuns.After(before), Latest(events))
            == if Flight(before).Some? && Claim(before, Flight(before).value).None? then PauseAt(events, |events| - 1)
               else None
  {
    hide Apply, Claim, Holding, Starts, Nth, PauseAt, Collections;
    MeasuredIsPauseAt(events);
    if Flight(Earlier(events)).Some? {
      LastIsPending(Earlier(events));
      ClaimedIsMeasured(Earlier(events), Flight(Earlier(events)).value);
    }
  }

  lemma LastIsPending(events: seq<Event>)
    requires RuntimeRuns.After(events).pending.Some?
    ensures Collections(events) != []
         && Collections(events)[|Collections(events)| - 1] == RuntimeRuns.After(events).pending.value
  {
  }

  /** A place that is held or claimed did measure a pause. */
  lemma {:induction false} HeldIsMeasured(events: seq<Event>)
    ensures Holding(events).Some? ==> PauseAt(events, Holding(events).value).Some?
    decreases |events|
  {
    hide PauseAt, Claim, Flight;
    if events == [] {
    } else {
      HeldIsMeasured(Earlier(events));
      if Holding(events).Some? && Holding(events).value < |events| - 1 {
        SamePauseAt(events, Holding(events).value);
      }
    }
  }

  lemma {:induction false} DuringIsMeasured(events: seq<Event>, i: nat)
    requires i < |events|
    ensures FirstDuring(events, i).Some? ==> PauseAt(events, FirstDuring(events, i).value).Some?
    decreases |events|
  {
    hide PauseAt, Flight;
    if |events| == i + 1 {
    } else {
      DuringIsMeasured(Earlier(events), i);
      if FirstDuring(events, i).Some? && FirstDuring(events, i).value < |events| - 1 {
        SamePauseAt(events, FirstDuring(events, i).value);
      }
    }
  }

  lemma SamePausePrefix(events: seq<Event>, n: nat, r: nat)
    requires r < n <= |events|
    ensures PauseAt(events[..n], r) == PauseAt(events, r)
  {
    assert events[..n][..r] == events[..r];
  }

  lemma ClaimedIsMeasured(events: seq<Event>, i: nat)
    requires i < |events|
    ensures Claim(events, i).Some? ==> PauseAt(events, Claim(events, i).value).Some?
  {
    hide PauseAt, Holding, FirstDuring;
    HeldIsMeasured(events[..i]);
    DuringIsMeasured(events, i);
    if Holding(events[..i]).Some? {
      SamePausePrefix(events, i, Holding(events[..i]).value);
    }
  }

  /** Each start carries exactly the pause it claims, and the pause held is the one waiting. */
  lemma {:induction false} PausesGoWhereClaimed(events: seq<Event>)
    ensures ClaimsAgree(events)
    decreases |events|
  {
    hide RuntimeRuns.After, Claim, Holding, PauseAt, Nth, Collections;
    if events == [] {
      NothingClaimed();
    } else {
      var before, e := Earlier(events), Latest(events);
      PausesGoWhereClaimed(before);
      HeldAgrees(events);
      FlightAgrees(events);
      forall i | 0 <= i < |events| && events[i].Start?
        ensures Nth(events, i) < |Collections(events)|
             && Collections(events)[Nth(events, i)].pause == PauseOf(events, Claim(events, i))
      {
        if i < |before| {
          ClaimStays(events, i);
        } else {
          ClaimStarts(events);
        }
      }
    }
  }

  lemma NothingClaimed()
    ensures ClaimsAgree([])
  {
  }

  lemma HeldAgrees(events: seq<Event>)
    requires events != [] && ClaimsAgree(Earlier(events))
    ensures RuntimeRuns.After(events).held == PauseOf(events, Holding(events))
  {
    hide Apply, Claim, PauseAt, Nth, Collections, Booked, Given, Measured;
    var before := Earlier(events);
    StepPausesOn(RuntimeRuns.After(before), Book(before), Latest(events));
    MeasuredIsPauseAt(events);
    GivenIsPauseAt(events);
    if Holding(before).Some? {
      SamePauseAt(events, Holding(before).value);
    }
    StartMeasuresNothing(events);
  }

  lemma StartMeasuresNothing(events: seq<Event>)
    requires events != []
    ensures !Latest(events).Restart? ==> PauseAt(events, |events| - 1).None?
  {
  }

  lemma FlightAgrees(events: seq<Event>)
    requires events != [] && ClaimsAgree(Earlier(events))
    ensures RuntimeRuns.After(events).pending.Some? <==> Flight(events).Some?
    ensures Flight(events).Some? ==> Nth(events, Flight(events).value) == |Collections(events)| - 1
  {
    hide Apply, Claim, Holding, PauseAt, Booked, Starts, Nth;
    var before := Earlier(events);
    StepPausesOn(RuntimeRuns.After(before), Book(before), Latest(events));
    StartsCounted(events);
    CollectionsAreStarts(events);
    CollectionsAreStarts(before);
    if Flight(events).Some? && Flight(events).value < |before| {
      ClaimBefore(events, Flight(events).value);
    }
  }

  lemma ClaimStarts(events: seq<Event>)
    requires events != [] && ClaimsAgree(Earlier(events)) && Latest(events).Start?
    ensures var i := |events| - 1;
            && Nth(events, i) < |Collections(events)|
            && Collections(events)[Nth(events, i)].pause == PauseOf(events, Claim(events, i))
  {
    hide Apply, Holding, PauseAt, Booked, Starts, Nth;
    var before := Earlier(events);
    StepPausesOn(RuntimeRuns.After(before), Book(before), Latest(events));
    StartsCounted(events);
    CollectionsAreStarts(before);
    assert events[..|events| - 1] == before;
    if Holding(before).Some? {
      SamePauseAt(events, Holding(before).value);
    }
  }

  lemma ClaimStays(events: seq<Event>, i: nat)
    requires events != [] && ClaimsAgree(Earlier(events)) && i < |events| - 1 && events[i].Start?
    ensures Nth(events, i) < |Collections(events)|
         && Collections(events)[Nth(events, i)].pause == PauseOf(events, Claim(events, i))
  {
    hide Apply, Claim, Holding, PauseAt, Booked, Starts, Nth, Given;
    var before := Earlier(events);
    assert before[i].Start?;
    StepPausesOn(RuntimeRuns.After(before), Book(before), Latest(events));
    GivenIsPauseAt(events);
    ClaimBefore(events, i);
    if Claim(before, i).Some? {
      SamePauseAt(events, Claim(before, i).value);
    }
    if Flight(before).Some? && Flight(before).value != i {
      if i < Flight(before).value {
        NthRises(before, i, Flight(before).value);
      } else {
        NthRises(before, Flight(before).value, i);
      }
    }
  }

  // ----- Brackets

  /** Nothing at or after `i` but before the end starts or ends a collection, apart from the start at `i`. */
  ghost predicate Undisturbed(events: seq<Event>, i: nat) {
    forall j | i < j < |events| :: !events[j].Start? && !events[j].GcEnd?
  }

  lemma {:induction false} FlightExactly(events: seq<Event>, i: nat)
    requires i < |events| && events[i].Start?
    ensures Flight(events) == Some(i) <==> Undisturbed(events, i)
    decreases |events|
  {
    if i == |events| - 1 {
    } else {
      FlightExactly(Earlier(events), i);
      assert forall j | i < j < |events| - 1 :: events[j] == Earlier(events)[j];
      assert Undisturbed(events, i) <==> Undisturbed(Earlier(events), i) && !Latest(events).Start? && !Latest(events).GcEnd?;
    }
  }

  lemma {:induction false} OpenIsUnanswered(events: seq<Event>)
    ensures OpenedAt(events).Some? ==> forall j | OpenedAt(events).value < j < |events| :: !events[j].Restart?
  {
    if events == [] {
    } else {
      OpenIsUnanswered(Earlier(events));
      assert forall j | 0 <= j < |events| - 1 :: events[j] == Earlier(events)[j];
    }
  }

  lemma {:induction false} NoneDuring(events: seq<Event>, i: nat)
    requires i < |events| && forall j | i < j < |events| :: !events[j].Restart?
    ensures FirstDuring(events, i).None?
    decreases |events|
  {
    if |events| == i + 1 {
    } else {
      NoneDuring(Earlier(events), i);
    }
  }

  lemma {:induction false} DuringStays(events: seq<Event>, i: nat, n: nat)
    requires i < n <= |events| && FirstDuring(events[..n], i).Some?
    ensures FirstDuring(events, i) == FirstDuring(events[..n], i)
    decreases |events|
  {
    if n == |events| {
      assert events[..n] == events;
    } else {
      assert Earlier(events)[..n] == events[..n];
      DuringStays(Earlier(events), i, n);
    }
  }

  lemma {:induction false} DuringIsInFlight(events: seq<Event>, i: nat)
    requires i < |events| && FirstDuring(events, i).Some?
    ensures Flight(events[..FirstDuring(events, i).value]) == Some(i)
    decreases |events|
  {
    var before := Earlier(events);
    if FirstDuring(before, i).Some? {
      DuringIsInFlight(before, i);
      EarlierPrefix(events, FirstDuring(events, i).value);
    } else {
      assert events[..|events| - 1] == before;
    }
  }

  /** The pause measured at `r` is that of a suspension which began before the start at `i` and ended after it. */
  ghost predicate Brackets(events: seq<Event>, i: nat, r: nat) {
    && i < r < |events| && events[i].Start? && PauseAt(events, r).Some?
    && OpenedAt(events[..r]).Some? && OpenedAt(events[..r]).value < i
  }

  /**
   A collection gets the pause that brackets it if and only if it has neither ended nor been followed by another
   when the restart comes, and no earlier pause was waiting for it.
   */
  lemma BracketedExactly(events: seq<Event>, i: nat, r: nat)
    requires Brackets(events, i, r)
    ensures Claim(events, i) == Some(r) <==> Undisturbed(events[..r], i) && Holding(events[..i]).None?
  {
    hide PauseAt, Holding, Flight;
    var upTo := events[..r];
    FlightExactly(upTo, i);
    OpenIsUnanswered(upTo);
    NoneDuring(upTo, i);
    if FirstDuring(events, i) == Some(r) {
      DuringIsInFlight(events, i);
    }
    if Flight(upTo) == Some(i) {
      var now := events[..r + 1];
      assert Earlier(now) == upTo;
      SamePausePrefix(events, r + 1, r);
      assert FirstDuring(now, i) == Some(r);
      DuringStays(events, i, r + 1);
    }
  }

  lemma {:induction false} HeldUntilTheStart(events: seq<Event>, r: nat)
    requires r < |events| && PauseAt(events, r).Some? && Flight(events[..r]).None?
    requires forall j | r < j < |events| :: !events[j].Start? && !events[j].Restart?
    ensures Holding(events) == Some(r)
    decreases |events|
  {
    hide Flight;
    if r == |events| - 1 {
      assert Earlier(events) == events[..r];
      StartMeasuresNothing(events);
    } else {
      assert Latest(events) == events[|events| - 1];
      EarlierPrefix(events, r);
      SamePauseAt(events, r);
      HeldUntilTheStart(Earlier(events), r);
    }
  }

  /** A restart behind the end of its collection: the pause goes to the next one to start. */
  lemma ThePauseGoesToTheNext(events: seq<Event>, r: nat, j: nat)
    requires r < j < |events| && events[j].Start?
    requires PauseAt(events, r).Some? && Flight(events[..r]).None?
    requires forall x | r < x < j :: !events[x].Start? && !events[x].Restart?
    ensures Claim(events, j) == Some(r)
  {
    hide PauseAt, Holding, Flight;
    var upTo := events[..j];
    SamePausePrefix(events, j, r);
    assert upTo[..r] == events[..r];
    HeldUntilTheStart(upTo, r);
  }

  function Began(count: u32): Event { Start(GcStart(count, 2, 0, 0)) }

  /** A suspension around a whole collection, and then the next collection. */
  function Ordinary(): seq<Event> {
    [Suspend(0), Began(1), GcEnd, Restart(5, 1000), Began(2)]
  }

  /** In the ordinary order the pause that brackets a collection is not its own but the next one's. */
  lemma AnOrdinaryPauseIsMisplaced()
    ensures Brackets(Ordinary(), 1, 3)
    ensures Claim(Ordinary(), 1) != Some(3) && Claim(Ordinary(), 4) == Some(3)
  {
    hide Holding, FirstDuring, Claim, Flight;
    var e := Ordinary();
    OrdinaryPrefix();
    BracketedExactly(e, 1, 3);
    assert e[..3][2] == GcEnd;
    ThePauseGoesToTheNext(e, 3, 4);
  }

  lemma OrdinaryPrefix()
    ensures var upTo := Ordinary()[..3];
            && OpenedAt(upTo) == Some(0) && OpenSuspension(upTo) == Some(0) && Flight(upTo).None?
  {
    var upTo := Ordinary()[..3];
    assert upTo == [Suspend(0), Began(1), GcEnd];
    assert Earlier(upTo) == [Suspend(0), Began(1)];
    assert Earlier(Earlier(upTo)) == [Suspend(0)];
  }
}
