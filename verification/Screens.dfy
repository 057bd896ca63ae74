/**
 Sessions and the screen (src/ui/mod.rs): over every run the loop's slots are filled as the screen calls for, a
 session runs off its screen only if it would not stop, and where the loop's own account of a session goes wrong.
 */
module Screens {
  import opened Wire
  import opened Interval
  import opened Apps
  import opened EventLoop
  import opened SessionRuns
  import opened RunningSessions

  // ----- Sessions and screens

  /** True from one step to the next; a profile collects only on its own screen. */
  ghost predicate Coherent(l: Loop) {
    && (l.app.phase.Collecting? ==> l.app.view == Profile)
    && (l.counters.Some? ==> l.counters.value.rate == Some(l.app.rates.interval))
  }

  /**
   Once a turn has reconciled them: the investigation and profile slots are filled only on their screens, and on
   them unless the session could not be started; the counter slot holds a session at the rate in force.
   */
  ghost predicate OnScreen(l: Loop) {
    && Coherent(l)
    && (l.investigation.Some? ==> l.app.view == Investigate)
    && (l.app.view == Investigate ==> l.investigation.Some? || l.app.runtimeError)
    && (l.profiling.Some? ==> l.app.view == Profile)
    && (l.app.phase.Collecting? ==> l.profiling.Some?)
  }

  lemma KeysKeepProfileShown(s: State, key: Key, now: nat)
    requires s.phase.Collecting? ==> s.view == Profile
    ensures var s' := KeyHandled(s, key, now);
            (s'.phase.Collecting? ==> s'.view == Profile) && s'.rates.interval == s.rates.interval
  {
    hide Stepped;
  }

  lemma HandledKeepsProfileShown(s: State, e: Event, now: nat)
    requires s.phase.Collecting? ==> s.view == Profile
    ensures Handled(s, e, now).phase.Collecting? ==> Handled(s, e, now).view == Profile
    ensures Handled(s, e, now).rates.interval == s.rates.interval
  {
    hide KeyHandled;
    if e.Pressed? {
      KeysKeepProfileShown(s, e.key, now);
    }
  }

  lemma {:induction false} AbsorbedKeepsProfileShown(s: State, arrivals: seq<Arrival>)
    requires s.phase.Collecting? ==> s.view == Profile
    ensures Absorbed(s, arrivals).phase.Collecting? ==> Absorbed(s, arrivals).view == Profile
    ensures Absorbed(s, arrivals).rates.interval == s.rates.interval
    decreases |arrivals|
  {
    hide Handled;
    if arrivals == [] {
    } else {
      HandledKeepsProfileShown(s, arrivals[0].event, arrivals[0].at);
      AbsorbedKeepsProfileShown(Handled(s, arrivals[0].event, arrivals[0].at), arrivals[1..]);
    }
  }

  lemma RateSettledIsCoherent(l: Loop, t: Turn)
    requires Coherent(l)
    ensures Coherent(RateSettled(l, t))
    ensures RateSettled(l, t).app.view == l.app.view && RateSettled(l, t).app.phase == l.app.phase
    ensures RateSettled(l, t).profiling == l.profiling
  {
  }

  lemma InvestigationFits(l: Loop, t: Turn)
    requires Coherent(l)
    ensures var r := InvestigationReconciled(l, t);
            && Coherent(r)
            && r.app.view == l.app.view && r.profiling == l.profiling && r.app.phase == l.app.phase
            && (r.investigation.Some? ==> r.app.view == Investigate)
            && (r.app.view == Investigate ==> r.investigation.Some? || r.app.runtimeError)
  {
  }

  lemma ProfileFits(l: Loop, t: Turn)
    requires Coherent(l)
    requires l.investigation.Some? ==> l.app.view == Investigate
    requires l.app.view == Investigate ==> l.investigation.Some? || l.app.runtimeError
    ensures OnScreen(ProfileReconciled(l, t))
  {
  }

  lemma ReconciliationFitsTheScreen(l: Loop, t: Turn)
    requires Coherent(l)
    ensures OnScreen(Reconciled(l, t))
  {
    hide Absorbed, RateSettled, InvestigationReconciled, ProfileReconciled, OnScreen;
    AbsorbedKeepsProfileShown(l.app, Arrivals(t));
    var heard := l.(app := Absorbed(l.app, Arrivals(t)));
    RateSettledIsCoherent(heard, t);
    InvestigationFits(RateSettled(heard, t), t);
    ProfileFits(InvestigationReconciled(RateSettled(heard, t), t), t);
  }

  lemma {:induction false} EveryTurnFitsTheScreen(l: Loop, turns: seq<Turn>)
    requires Coherent(l)
    ensures Coherent(Turns(l, turns).loop)
    ensures turns != [] && Turns(l, turns).Going? ==> OnScreen(Turns(l, turns).loop)
    decreases |turns|
  {
    hide Reconciled;
    if turns == [] {
    } else {
      ReconciliationFitsTheScreen(l, turns[0]);
      match Turned(l, turns[0])
      case Going(after) => EveryTurnFitsTheScreen(after, turns[1..]);
      case Left(_, _) =>
    }
  }

  /** In every run, after every turn, the slots are filled as the screen calls for. */
  lemma SlotsMatchTheScreen(interval: real, turns: seq<Turn>, last: Answers)
    requires turns != [] && Ran(Beginning(interval), turns, last).Going?
    ensures OnScreen(Ran(Beginning(interval), turns, last).loop)
  {
    hide Turns, OnScreen;
    EveryTurnFitsTheScreen(Beginning(interval), turns);
  }

  /** Off its screen a session of this kind has no business. */
  predicate OffScreen(app: State, kind: Kind) {
    match kind
    case Counters => false
    case Investigation => app.view != Investigate
    case Profiling => app.view != Profile
  }

  /**
   In every run, after every turn: off their screen, investigation and profile sessions run exactly as many as have
   failed to stop, so none runs if and only if no stop of one failed.
   */
  lemma OffScreenOnlyWhatFailedToStop(interval: real, turns: seq<Turn>, last: Answers, kind: Kind)
    requires turns != [] && Ran(Beginning(interval), turns, last).Going?
    requires OffScreen(Ran(Beginning(interval), turns, last).loop.app, kind)
    ensures var log := Ran(Beginning(interval), turns, last).loop.log;
            && |RunningOf(log, kind)| == FailedStops(log, kind)
            && (RunningOf(log, kind) == {} <==> FailedStops(log, kind) == 0)
  {
    hide Ran, Alternates, Numbered, RunningOf, FailedStops;
    SlotsMatchTheScreen(interval, turns, last);
    EverySessionIsOwned(interval, turns, last);
    var l := Ran(Beginning(interval), turns, last).loop;
    assert Alternates(l.log, kind, Slot(l, kind)) && Slot(l, kind).None?;
    RunningIsHeldOrFailed(l.log, kind, None, l.serials);
  }

  /**
   A profile session is meant to end with its window, but it outlives a collection that ends any other way for
   as long as the profile screen stays up: exactly then is a session kept that nothing is collecting.
   */
  lemma ProfileOutlivesItsCollection(l: Loop, t: Turn)
    ensures var heard := Absorbed(l.app, Arrivals(t));
            var after := Reconciled(l, t);
            after.profiling.Some? && !after.app.phase.Collecting?
            <==> l.profiling.Some? && !heard.phase.Collecting? && heard.view == Profile
  {
    hide Absorbed, CountersRestarted;
    var heard := l.(app := Absorbed(l.app, Arrivals(t)));
    SettlingLeavesProfiles(heard, t);
  }

  lemma SettlingLeavesProfiles(l: Loop, t: Turn)
    ensures var r := RateSettled(l, t);
            r.app.view == l.app.view && r.app.phase == l.app.phase && r.profiling == l.profiling
  {
  }

  /** A turn in which every call works. */
  function Smooth(at: nat, arrivals: seq<Arrival>): Turn {
    Turn(true, Timeout, arrivals, at, at, Answers(true, true, true), Answers(true, true, true), false)
  }

  function Typed(c: char, at: nat): Arrival {
    Arrival(Pressed(Key(Char(c), false)), at)
  }

  lemma OneArrival(s: State, arrival: Arrival, t: Turn)
    requires t.received.Timeout? && t.queued == [arrival]
    ensures Absorbed(s, Arrivals(t)) == Handled(s, arrival.event, arrival.at)
  {
    hide Handled;
    assert Arrivals(t) == [arrival];
    var heard := Handled(s, arrival.event, arrival.at);
    assert Absorbed(heard, []) == heard;
    assert [arrival][1..] == [];
  }

  ghost predicate Calm(l: Loop) {
    l.app.rates.pending.None? && !l.app.showHelp && l.app.exit.None? && l.investigation.None? && l.app.view != Investigate
  }

  lemma ProfileOpens(l: Loop, at: nat, c: char)
    requires Calm(l) && l.profiling.None? && !l.app.phase.Collecting?
    requires c == if l.app.view == Dashboard then 'c' else 'r'
    ensures var r := Reconciled(l, Smooth(at, [Typed(c, at)]));
            Calm(r) && r.profiling.Some? && r.app.phase == Collecting(at + PROFILE_WINDOW) && r.app.view == Profile
  {
    OneArrival(l.app, Typed(c, at), Smooth(at, [Typed(c, at)]));
  }

  lemma WindowCloses(l: Loop, at: nat)
    requires Calm(l) && l.profiling.Some? && l.app.phase.Collecting? && l.app.phase.until <= at && l.app.view == Profile
    ensures var r := Reconciled(l, Smooth(at, []));
            Calm(r) && r.profiling.None? && r.app.phase == Resolving && r.app.view == Profile
  {
  }

  lemma ResultArrives(l: Loop, at: nat)
    requires Calm(l) && l.profiling.Some? && l.app.view == Profile
    ensures var r := Reconciled(l, Smooth(at, [Arrival(ProfileDone, at)]));
            Calm(r) && r.profiling.Some? && r.app.phase == Finished
  {
    OneArrival(l.app, Arrival(ProfileDone, at), Smooth(at, [Arrival(ProfileDone, at)]));
  }

  ghost predicate StaysIn(l: Loop, t: Turn) {
    t.drawn && t.received.Timeout? && !t.interrupted && Reconciled(l, t).app.exit.None?
  }

  lemma OneTurn(l: Loop, t: Turn, rest: seq<Turn>)
    requires StaysIn(l, t)
    ensures Turns(l, [t] + rest) == Turns(Reconciled(l, t), rest)
  {
    hide Reconciled;
    assert ([t] + rest)[1..] == rest;
  }

  /**
   It happens: a second profile is started while the first is still resolving, and the first one's result
   arrives during the second one's window.
   */
  lemma ALateResultStrandsASession(last: Answers)
    ensures var w := PROFILE_WINDOW;
            var ran := Ran(Beginning(1.0), [Smooth(0, [Typed('c', 0)])] + [Smooth(w, [])] + [Smooth(w, [Typed('r', w)])]
                                           + [Smooth(w, [Arrival(ProfileDone, w)])], last);
            ran.Going? && ran.loop.profiling.Some? && ran.loop.app.phase == Finished
  {
    hide Reconciled, Turns;
    var w := PROFILE_WINDOW;
    var t0, t1 := Smooth(0, [Typed('c', 0)]), Smooth(w, []);
    var t2, t3 := Smooth(w, [Typed('r', w)]), Smooth(w, [Arrival(ProfileDone, w)]);
    var a := Beginning(1.0);
    ProfileOpens(a, 0, 'c');
    var b := Reconciled(a, t0);
    WindowCloses(b, w);
    var c := Reconciled(b, t1);
    ProfileOpens(c, w, 'r');
    var d := Reconciled(c, t2);
    ResultArrives(d, w);
    var e := Reconciled(d, t3);
    OneTurn(d, t3, []);
    OneTurn(c, t2, [t3]);
    OneTurn(b, t1, [t2, t3]);
    OneTurn(a, t0, [t1, t2, t3]);
    NoTurns(e);
    assert [t0] + [t1] + [t2] + [t3] == [t0] + [t1, t2, t3];
    assert [t1] + [t2, t3] == [t1, t2, t3] && [t2] + [t3] == [t2, t3] && [t3] + [] == [t3];
  }

  lemma NoTurns(l: Loop)
    ensures Turns(l, []) == Going(l)
  {
  }

  // ----- Two counter sessions

  /** A turn in which the counter session will not close. */
  function Stuck(at: nat, arrivals: seq<Arrival>): Turn {
    Smooth(at, arrivals).(closes := Answers(false, true, true))
  }

  /** A press settles in its own turn: with a session in the slot it is given up, without one the next is opened. */
  lemma PressSettles(l: Loop, at: nat, t: Turn)
    requires l.app.view == Dashboard && l.app.rates == Rates(1.0, None) && !l.app.showHelp && l.app.exit.None?
    requires l.investigation.None? && l.profiling.None? && !l.app.phase.Collecting?
    requires t == if l.counters.None? then Smooth(at + SETTLE, [Typed('+', at)]) else Stuck(at + SETTLE, [Typed('+', at)])
    ensures StaysIn(l, t)
    ensures var r := Reconciled(l, t);
            if l.counters.None? then
              r.log == l.log + [Opened(Session(l.serials, Counters, Some(Candidate(1.0, false))))]
            else
              r == l.(app := r.app, counters := None, log := l.log + [StopTried(l.counters.value, false)])
              && r.app == l.app.(status := Broken)
  {
    hide Candidate;
    PressMoves(1.0, false);
    OneArrival(l.app, Typed('+', at), t);
  }

  /**
   It happens: a counter session that would not close is forgotten, and the next rate to settle opens another
   beside it.
   */
  lemma TwoCounterSessionsAtOnce(last: Answers)
    ensures var s0, s1 := Session(0, Counters, Some(1.0)), Session(1, Counters, Some(Candidate(1.0, false)));
            var ran := Ran(Beginning(1.0), [Stuck(SETTLE, [Typed('+', 0)])]
                                           + [Smooth(SETTLE + SETTLE, [Typed('+', SETTLE)])], last);
            && ran.Going?
            && ran.loop.log == [Opened(s0), StopTried(s0, false), Opened(s1)]
            && RunningOf(ran.loop.log, Counters) == {s0, s1}
  {
    hide Reconciled, Turns, Candidate;
    var s0, s1 := Session(0, Counters, Some(1.0)), Session(1, Counters, Some(Candidate(1.0, false)));
    var t0, t1 := Stuck(SETTLE, [Typed('+', 0)]), Smooth(SETTLE + SETTLE, [Typed('+', SETTLE)]);
    var a := Beginning(1.0);
    PressSettles(a, 0, t0);
    var b := Reconciled(a, t0);
    PressSettles(b, SETTLE, t1);
    OneTurn(b, t1, []);
    OneTurn(a, t0, [t1]);
    NoTurns(Reconciled(b, t1));
    assert [t1] + [] == [t1];
    BothRun(s0, s1);
  }

  lemma BothRun(s0: Session, s1: Session)
    requires s0.kind == s1.kind
    ensures RunningOf([Opened(s0), StopTried(s0, false), Opened(s1)], s0.kind) == {s0, s1}
  {
    var log := [Opened(s0), StopTried(s0, false), Opened(s1)];
    assert log[0] == Opened(s0) && log[2] == Opened(s1);
    forall r
      ensures r in RunningOf(log, s0.kind) <==> r in {s0, s1}
    {
      assert Opened(r) in log <==> r == s0 || r == s1;
    }
  }
}
