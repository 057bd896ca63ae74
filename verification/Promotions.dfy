/**
 What a collection is recorded to have promoted (src/runtime/state.rs), from the events alone: the last statistics
 that came while it was in flight.
 */
module Promotions {
  import opened Wire
  import opened RuntimeEvents
  import opened RuntimeRuns
  import opened PauseClaims

  /** The first place from `from` on at which a collection starts or ends, or the end of the list. */
  function NextEdge(events: seq<Event>, from: nat): (j: nat)
    requires from <= |events|
    ensures from <= j <= |events|
    ensures forall x | from <= x < j :: !events[x].Start? && !events[x].GcEnd?
    ensures j < |events| ==> events[j].Start? || events[j].GcEnd?
    decreases |events| - from
  {
    if from == |events| || events[from].Start? || events[from].GcEnd? then from else NextEdge(events, from + 1)
  }

  /** The total of the last statistics after `i` and before `j`. */
  function LastTotal(events: seq<Event>, i: nat, j: nat): Option<nat>
    requires i < j <= |events|
    decreases j
  {
    if j == i + 1 then None
    else
      match events[j - 1]
      case HeapStats(gen0, gen1, gen2, loh) => Some(gen0 + gen1 + gen2 + loh)
      case _ => LastTotal(events, i, j - 1)
  }

  /** What the collection started at `i` promoted, as far as the events tell. */
  function Promoted(events: seq<Event>, i: nat): Option<nat>
    requires i < |events|
  {
    LastTotal(events, i, NextEdge(events, i + 1))
  }

  ghost predicate PromotionsAgree(events: seq<Event>) {
    forall i | 0 <= i < |events| && events[i].Start? ::
      && Nth(events, i) < |Collections(events)|
      && Collections(events)[Nth(events, i)].promoted == Promoted(events, i)
  }

  lemma StepPromotes(s: Runtime, book: Ledger, e: Event)
    ensures var known, known' := Known(s, book), Known(Apply(s, e), Booked(book, s, e));
            && |known'| == |known| + |Started(e)|
            && (e.Start? ==> known'[|known|].promoted == None)
            && (forall k | 0 <= k < |known| ::
                  known'[k].promoted
                  == if e.HeapStats? && s.pending.Some? && k == |known| - 1
                     then Some(e.gen0 + e.gen1 + e.gen2 + e.loh) else known[k].promoted)
  {
    hide Newest, MeasuredPause, CountGeneration, SiteAfter, ExceptionAfter;
  }

  lemma {:induction false} TotalBefore(events: seq<Event>, i: nat, j: nat)
    requires events != [] && i < j <= |events| - 1
    ensures LastTotal(Earlier(events), i, j) == LastTotal(events, i, j)
    decreases j
  {
    if j == i + 1 {
    } else {
      TotalBefore(events, i, j - 1);
    }
  }

  lemma EdgeIsFirst(events: seq<Event>, from: nat, j: nat)
    requires from <= j <= |events|
    requires forall x | from <= x < j :: !events[x].Start? && !events[x].GcEnd?
    requires j < |events| ==> events[j].Start? || events[j].GcEnd?
    ensures NextEdge(events, from) == j
  {
  }

  /** One more event changes what is promoted only for the collection in flight, and only if it is statistics. */
  lemma PromotedBefore(events: seq<Event>, i: nat)
    requires events != [] && i < |events| - 1
    ensures Promoted(events, i)
         == if Undisturbed(Earlier(events), i) && Latest(events).HeapStats?
            then var e := Latest(events); Some(e.gen0 + e.gen1 + e.gen2 + e.loh)
            else Promoted(Earlier(events), i)
  {
    var before, n := Earlier(events), |events| - 1;
    assert forall x | 0 <= x < n :: before[x] == events[x];
    var j := NextEdge(before, i + 1);
    TotalBefore(events, i, j);
    if j < n {
      assert !Undisturbed(before, i);
      EdgeIsFirst(events, i + 1, j);
    } else if Latest(events).Start? || Latest(events).GcEnd? {
      EdgeIsFirst(events, i + 1, n);
    } else {
      EdgeIsFirst(events, i + 1, n + 1);
    }
  }

  /** Every start carries the total of the last statistics that came while it was in flight, and none if there were none. */
  lemma {:induction false} PromotionsAreExact(events: seq<Event>)
    ensures PromotionsAgree(events)
    decreases |events|
  {
    hide RuntimeRuns.After, Apply, Booked, Nth, Collections, Promoted, ClaimsAgree;
    if events == [] {
    } else {
      PromotionsAreExact(Earlier(events));
      forall i | 0 <= i < |events| && events[i].Start?
        ensures Nth(events, i) < |Collections(events)|
        ensures Collections(events)[Nth(events, i)].promoted == Promoted(events, i)
      {
        if i < |events| - 1 {
          PromotionStays(events, i);
        } else {
          PromotionStarts(events);
        }
      }
    }
  }

  lemma PromotionStarts(events: seq<Event>)
    requires events != [] && Latest(events).Start?
    ensures var i := |events| - 1;
            && Nth(events, i) < |Collections(events)|
            && Collections(events)[Nth(events, i)].promoted == Promoted(events, i)
  {
    hide Apply, Booked, Starts, Nth;
    var before := Earlier(events);
    StepPromotes(RuntimeRuns.After(before), Book(before), Latest(events));
    StartsCounted(events);
    CollectionsAreStarts(before);
  }

  lemma PromotionStays(events: seq<Event>, i: nat)
    requires events != [] && PromotionsAgree(Earlier(events)) && i < |events| - 1 && events[i].Start?
    ensures Nth(events, i) < |Collections(events)|
    ensures Collections(events)[Nth(events, i)].promoted == Promoted(events, i)
  {
    hide Apply, Booked, Starts, Nth, Promoted, Claim, Holding;
    var before := Earlier(events);
    assert before[i].Start?;
    StepPromotes(RuntimeRuns.After(before), Book(before), Latest(events));
    PausesGoWhereClaimed(before);
    ClaimBefore(events, i);
    PromotedBefore(events, i);
    FlightExactly(before, i);
    if Flight(before).Some? && Flight(before).value != i {
      if i < Flight(before).value {
        NthRises(before, i, Flight(before).value);
      } else {
        NthRises(before, Flight(before).value, i);
      }
    }
  }
}
