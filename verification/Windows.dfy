/**
 What one turn of the event loop does to its three slots, from the turn's inputs, and what that means for profiles:
 over every run a collection keeps its session for its whole window (src/ui/mod.rs, src/app.rs).
 */
module Windows {
  import opened Wire
  import opened Interval
  import opened Apps
  import opened EventLoop

  // ----- One turn

  /** The app once a turn's events have been handled. */
  function Heard(l: Loop, t: Turn): State { Absorbed(l.app, Arrivals(t)) }

  lemma RateLeavesTheRest(l: Loop, t: Turn)
    ensures var r := RateSettled(l, t);
            && r.investigation == l.investigation && r.profiling == l.profiling
            && r.app.view == l.app.view && r.app.phase == l.app.phase && r.app.runtimeError == l.app.runtimeError
            && r.app.exit == l.app.exit
  {
    hide Settled;
  }

  lemma InvestigationLeavesTheRest(l: Loop, t: Turn)
    ensures var r := InvestigationReconciled(l, t);
            && r.counters == l.counters && r.profiling == l.profiling
            && r.app == l.app.(runtimeError := r.app.runtimeError)
  {
  }

  lemma ProfileLeavesTheRest(l: Loop, t: Turn)
    ensures var r := ProfileReconciled(l, t);
            && r.counters == l.counters && r.investigation == l.investigation && r.app == l.app.(phase := r.app.phase)
  {
  }

  /**
   Whether a profile session is held after a turn: while collecting, one already there until the window is over, or a
   new one if the call works; otherwise one already there while its screen is up.
   */
  lemma ProfileSlotExactly(l: Loop, t: Turn)
    ensures var heard, r := Heard(l, t), Reconciled(l, t);
            && (r.profiling.Some? <==>
                  if !heard.phase.Collecting? then l.profiling.Some? && heard.view == Profile
                  else if l.profiling.Some? then t.windowTime < heard.phase.until
                  else t.opens.profiling)
            && (l.profiling.Some? && r.profiling.Some? ==> r.profiling == l.profiling)
            && r.app.phase == (if !heard.phase.Collecting? then heard.phase
                               else if l.profiling.None? then (if t.opens.profiling then heard.phase else Aborted)
                               else if t.windowTime < heard.phase.until then heard.phase
                               else Resolving)
            && (l.profiling.Some? && r.profiling.None? ==>
                  r.log != [] && r.log[|r.log| - 1] == StopTried(l.profiling.value, t.closes.profiling))
  {
    hide Absorbed, RateSettled, InvestigationReconciled, Arrivals;
    var heard := l.(app := Heard(l, t));
    RateLeavesTheRest(heard, t);
    InvestigationLeavesTheRest(RateSettled(heard, t), t);
  }

  /** An investigation session is held after a turn exactly while its screen is up, unless it would not open. */
  lemma InvestigationSlotExactly(l: Loop, t: Turn)
    ensures var heard, r := Heard(l, t), Reconciled(l, t);
            && (r.investigation.Some? <==>
                  heard.view == Investigate && (l.investigation.Some? || t.opens.investigation))
            && (l.investigation.Some? && r.investigation.Some? ==> r.investigation == l.investigation)
            && (r.app.runtimeError <==>
                  heard.runtimeError
                  || (heard.view == Investigate && l.investigation.None? && !t.opens.investigation))
  {
    hide Absorbed, RateSettled, Arrivals;
    var heard := l.(app := Heard(l, t));
    RateLeavesTheRest(heard, t);
    ProfileLeavesTheRest(InvestigationReconciled(RateSettled(heard, t), t), t);
  }

  /**
   A turn touches the counter session exactly if a press has been waiting for 400 ms. The session then comes back at
   the rate asked for unless a call fails, and a call that fails shows as a broken connection at the old rate.
   */
  lemma CounterSlotExactly(l: Loop, t: Turn)
    ensures var heard, r := Heard(l, t), Reconciled(l, t);
            var ask := heard.rates.pending;
            if ask.None? || t.settleTime < ask.value.at + 400_000_000 then
              r.counters == l.counters && r.app.rates == heard.rates && r.app.status == heard.status
            else
              && r.app.rates.pending.None?
              && (r.counters.Some? <==> (l.counters.None? || t.closes.counters) && t.opens.counters)
              && (if r.counters.Some? then
                    && r.counters.value == Session(l.serials, Counters, Some(ask.value.rate))
                    && r.app.rates.interval == ask.value.rate && r.app.status == heard.status
                  else r.app.rates.interval == heard.rates.interval && r.app.status == Broken)
  {
    hide Absorbed, InvestigationReconciled, ProfileReconciled, Arrivals;
    var rated := RateSettled(l.(app := Heard(l, t)), t);
    InvestigationLeavesTheRest(rated, t);
    ProfileLeavesTheRest(InvestigationReconciled(rated, t), t);
  }

  /** The loop is left for a screen that cannot be drawn, which is a failure; for its events; or to quit or detach. */
  lemma TurnLeavesExactly(l: Loop, t: Turn)
    ensures Turned(l, t).Left? <==>
              !t.drawn || t.received.Disconnected? || t.interrupted || Heard(l, t).exit.Some?
    ensures Turned(l, t).Left? ==> (Turned(l, t).failed <==> !t.drawn)
    ensures Turned(l, t).Left? && t.drawn && !t.received.Disconnected? ==>
              Turned(l, t).loop.app.exit == if t.interrupted then Some(Quit) else Heard(l, t).exit
    ensures Turned(l, t).Going? ==> Turned(l, t).loop == Reconciled(l, t)
  {
    hide Absorbed, RateSettled, InvestigationReconciled, ProfileReconciled, Arrivals;
    var heard := l.(app := Heard(l, t));
    var rated := RateSettled(heard, t);
    RateLeavesTheRest(heard, t);
    InvestigationLeavesTheRest(rated, t);
    ProfileLeavesTheRest(InvestigationReconciled(rated, t), t);
  }

  /** The event that ended the wait is handled first, the queue behind it in order. */
  lemma FirstComeFirstHeard(l: Loop, t: Turn)
    ensures t.received.Arrived? ==>
              Heard(l, t) == Absorbed(Handled(l.app, t.received.arrival.event, t.received.arrival.at), t.queued)
    ensures !t.received.Arrived? ==> Heard(l, t) == Absorbed(l.app, t.queued)
  {
    hide Handled;
    if t.received.Arrived? {
      assert Arrivals(t)[1..] == t.queued;
    } else {
      assert Arrivals(t) == t.queued;
    }
  }

  function Place(kind: Kind): nat {
    match kind
    case Counters => 0
    case Investigation => 1
    case Profiling => 2
  }

  /** What one step adds to the log concerns one kind of session. */
  ghost predicate Adds(before: Loop, after: Loop, kind: Kind) {
    && |before.log| <= |after.log| && after.log[..|before.log|] == before.log
    && forall i | |before.log| <= i < |after.log| :: after.log[i].session.kind == kind
  }

  /** Each session in a slot is of the slot's kind. */
  ghost predicate SlotsAreOfKind(l: Loop) {
    && (l.counters.Some? ==> l.counters.value.kind == Counters)
    && (l.investigation.Some? ==> l.investigation.value.kind == Investigation)
    && (l.profiling.Some? ==> l.profiling.value.kind == Profiling)
  }

  lemma AppKeepsKinds(l: Loop, app: State)
    requires SlotsAreOfKind(l)
    ensures SlotsAreOfKind(l.(app := app))
  {
  }

  lemma RateAdds(l: Loop, t: Turn)
    requires SlotsAreOfKind(l)
    ensures Adds(l, RateSettled(l, t), Counters)
  {
    hide Settled;
  }

  lemma InvestigationAdds(l: Loop, t: Turn)
    requires SlotsAreOfKind(l)
    ensures Adds(l, InvestigationReconciled(l, t), Investigation)
  {
  }

  lemma ProfileAdds(l: Loop, t: Turn)
    requires SlotsAreOfKind(l)
    ensures Adds(l, ProfileReconciled(l, t), Profiling)
  {
  }

  lemma KindsKept(l: Loop, t: Turn)
    requires SlotsAreOfKind(l)
    ensures SlotsAreOfKind(RateSettled(l, t)) && SlotsAreOfKind(InvestigationReconciled(l, t))
  {
    hide Settled;
  }

  /** In a turn the target is first asked for what the counters need, then the investigation, then the profile. */
  lemma CallsComeInOrder(l: Loop, t: Turn)
    requires SlotsAreOfKind(l)
    ensures var log := Reconciled(l, t).log;
            && |l.log| <= |log| && log[..|l.log|] == l.log
            && forall i, j | |l.log| <= i < j < |log| :: Place(log[i].session.kind) <= Place(log[j].session.kind)
  {
    hide Absorbed, Arrivals, RateSettled, InvestigationReconciled, ProfileReconciled, SlotsAreOfKind;
    var heard := l.(app := Heard(l, t));
    var rated := RateSettled(heard, t);
    AppKeepsKinds(l, heard.app);
    RateAdds(heard, t);
    KindsKept(heard, t);
    InvestigationAdds(rated, t);
    KindsKept(rated, t);
    ProfileAdds(InvestigationReconciled(rated, t), t);
  }

  // ----- Windows over runs

  /** `c` on the dashboard, or `r` on the profile screen with nothing being collected. */
  predicate StartsCollection(s: State, e: Event) {
    && e.Pressed? && !s.showHelp
    && ((s.view == Dashboard && e.key == Key(Char('c'), false))
        || (s.view == Profile && e.key.code == Char('r') && !s.phase.Collecting?))
  }

  /** A collection begins with such a key, for five seconds, and with nothing else. */
  lemma CollectionStartsExactly(s: State, e: Event, now: nat)
    ensures var s' := Handled(s, e, now);
            if StartsCollection(s, e) then s'.view == Profile && s'.phase == Collecting(now + 5_000_000_000)
            else s'.phase == s.phase || !s'.phase.Collecting?
  {
    hide Stepped;
  }

  /** When the latest such key came. */
  function LatestStart(s: State, arrivals: seq<Arrival>, before: Option<nat>): Option<nat>
    decreases |arrivals|
  {
    if arrivals == [] then before
    else
      var a := arrivals[0];
      LatestStart(Handled(s, a.event, a.at), arrivals[1..], if StartsCollection(s, a.event) then Some(a.at) else before)
  }

  function LatestStartIn(l: Loop, turns: seq<Turn>, before: Option<nat>): Option<nat>
    decreases |turns|
  {
    if turns == [] then before
    else LatestStartIn(Turned(l, turns[0]).loop, turns[1..], LatestStart(l.app, Arrivals(turns[0]), before))
  }

  ghost predicate Timed(s: State, start: Option<nat>) {
    s.phase.Collecting? ==> start.Some? && s.phase.until == start.value + 5_000_000_000
  }

  lemma {:induction false} HearingKeepsTime(s: State, arrivals: seq<Arrival>, before: Option<nat>)
    requires Timed(s, before)
    ensures Timed(Absorbed(s, arrivals), LatestStart(s, arrivals, before))
    decreases |arrivals|
  {
    hide Handled, StartsCollection;
    if arrivals == [] {
    } else {
      var a := arrivals[0];
      CollectionStartsExactly(s, a.event, a.at);
      HearingKeepsTime(Handled(s, a.event, a.at), arrivals[1..], if StartsCollection(s, a.event) then Some(a.at) else before);
    }
  }

  lemma {:induction false} RunKeepsTime(l: Loop, turns: seq<Turn>, before: Option<nat>)
    requires Timed(l.app, before) && Turns(l, turns).Going?
    ensures Timed(Turns(l, turns).loop.app, LatestStartIn(l, turns, before))
    decreases |turns|
  {
    hide Absorbed, Reconciled, LatestStart, Turned, Arrivals;
    if turns == [] {
    } else {
      var t := turns[0];
      HearingKeepsTime(l.app, Arrivals(t), before);
      TurnLeavesExactly(l, t);
      ProfileSlotExactly(l, t);
      RunKeepsTime(Turned(l, t).loop, turns[1..], LatestStart(l.app, Arrivals(t), before));
    }
  }

  /**
   In every run a profile session is given up while it is still collecting if and only if five seconds have passed
   since the key that started the latest collection.
   */
  lemma WindowsLastFiveSeconds(interval: real, turns: seq<Turn>, t: Turn)
    requires Turns(Beginning(interval), turns).Going?
    requires var l := Turns(Beginning(interval), turns).loop; l.profiling.Some? && Heard(l, t).phase.Collecting?
    ensures var l := Turns(Beginning(interval), turns).loop;
            var start := LatestStart(l.app, Arrivals(t), LatestStartIn(Beginning(interval), turns, None));
            && start.Some?
            && (Reconciled(l, t).profiling.None? <==> t.windowTime >= start.value + 5_000_000_000)
  {
    hide Absorbed, Reconciled, LatestStart, LatestStartIn, Arrivals, Turns;
    var l := Turns(Beginning(interval), turns).loop;
    RunKeepsTime(Beginning(interval), turns, None);
    HearingKeepsTime(l.app, Arrivals(t), LatestStartIn(Beginning(interval), turns, None));
    ProfileSlotExactly(l, t);
  }
}
