/**
 The event loop seen as presses and checks: what is proved of the debounce alone holds of every run of the loop,
 and the counter sessions it opens are the restarts of that run (src/ui/mod.rs, src/app.rs).
 */
module RateRuns {
  import opened Wire
  import opened Interval
  import opened Apps
  import opened EventLoop

  // ----- The presses and checks of a run

  /** The rate keys work on the dashboard only, and not while help is up. */
  function PressesIn(s: State, e: Event, at: nat): seq<Op> {
    if e.Pressed? && !s.showHelp && s.view == Dashboard then
      if e.key.code in {Char('-'), Char('_')} then [Press(true, at)]
      else if e.key.code in {Char('+'), Char('=')} then [Press(false, at)]
      else []
    else []
  }

  function PressesOf(s: State, arrivals: seq<Arrival>): seq<Op>
    decreases |arrivals|
  {
    if arrivals == [] then []
    else
      var (e, at) := (arrivals[0].event, arrivals[0].at);
      PressesIn(s, e, at) + PressesOf(Handled(s, e, at), arrivals[1..])
  }

  predicate Reopens(l: Loop, t: Turn) {
    (l.counters.Some? ==> t.closes.counters) && t.opens.counters
  }

  function OpsOf(l: Loop, t: Turn): seq<Op> {
    if !t.drawn || t.received.Disconnected? then []
    else PressesOf(l.app, Arrivals(t)) + [Check(t.settleTime, Reopens(l, t))]
  }

  function OpsOfRun(l: Loop, turns: seq<Turn>): seq<Op>
    decreases |turns|
  {
    if turns == [] then []
    else
      match Turned(l, turns[0])
      case Going(after) => OpsOf(l, turns[0]) + OpsOfRun(after, turns[1..])
      case Left(_, _) => OpsOf(l, turns[0])
  }

  function Continued(t: Trail, ops: seq<Op>): Trail
    decreases |ops|
  {
    if ops == [] then t else Continued(Advance(t, ops[0]), ops[1..])
  }

  lemma {:induction false} ContinuedAppend(t: Trail, a: seq<Op>, b: seq<Op>)
    ensures Continued(t, a + b) == Continued(Continued(t, a), b)
    decreases |a|
  {
    hide Advance;
    if a == [] {
      assert a + b == b;
    } else {
      assert (a + b)[1..] == a[1..] + b;
      ContinuedAppend(Advance(t, a[0]), a[1..], b);
    }
  }

  lemma {:induction false} FollowIsContinued(interval: real, ops: seq<Op>)
    ensures Follow(interval, ops) == Continued(Trail(Rates(interval, None), [], []), ops)
  {
    hide Advance;
    if ops == [] {
    } else {
      var before, last := ops[..|ops| - 1], ops[|ops| - 1];
      FollowIsContinued(interval, before);
      assert ops == before + [last];
      var start := Trail(Rates(interval, None), [], []);
      ContinuedAppend(start, before, [last]);
      assert [last][1..] == [];
      assert Continued(Continued(start, before), [last]) == Continued(Advance(Continued(start, before), last), []);
    }
  }

  // ----- The sessions a run opens

  function CounterRates(log: seq<Action>): seq<Option<real>> {
    if log == [] then []
    else
      var last := log[|log| - 1];
      CounterRates(log[..|log| - 1])
      + if last.Opened? && last.session.kind == Counters then [last.session.rate] else []
  }

  lemma CounterRatesAppend(log: seq<Action>, a: Action)
    ensures CounterRates(log + [a])
         == CounterRates(log) + if a.Opened? && a.session.kind == Counters then [a.session.rate] else []
  {
    assert (log + [a])[..|log|] == log;
  }

  function Reopened(restarts: seq<Restart>): seq<Option<real>> {
    if restarts == [] then []
    else
      var last := restarts[|restarts| - 1];
      Reopened(restarts[..|restarts| - 1]) + if last.reopened then [Some(last.rate)] else []
  }

  lemma ReopenedAppend(restarts: seq<Restart>, r: Restart)
    ensures Reopened(restarts + [r]) == Reopened(restarts) + if r.reopened then [Some(r.rate)] else []
  {
    assert (restarts + [r])[..|restarts|] == restarts;
  }

  /** A trail that tells the rates of a loop and the counter sessions it opened. */
  ghost predicate Tells(t: Trail, interval: real, l: Loop) {
    && t.rates == l.app.rates
    && CounterRates(l.log) == [Some(interval)] + Reopened(t.restarts)
  }

  lemma HandledIsPressed(t: Trail, s: State, e: Event, at: nat)
    requires t.rates == s.rates
    ensures Continued(t, PressesIn(s, e, at)).rates == Handled(s, e, at).rates
    ensures Continued(t, PressesIn(s, e, at)).restarts == t.restarts
  {
    hide Stepped, Effective;
    var ops := PressesIn(s, e, at);
    if ops != [] {
      assert ops[1..] == [];
      assert Continued(Advance(t, ops[0]), []) == Advance(t, ops[0]);
    }
  }

  lemma {:induction false} AbsorbedIsPressed(t: Trail, s: State, arrivals: seq<Arrival>)
    requires t.rates == s.rates
    ensures Continued(t, PressesOf(s, arrivals)).rates == Absorbed(s, arrivals).rates
    ensures Continued(t, PressesOf(s, arrivals)).restarts == t.restarts
    decreases |arrivals|
  {
    hide Handled, Advance, PressesIn;
    if arrivals == [] {
    } else {
      var e, at := arrivals[0].event, arrivals[0].at;
      HandledIsPressed(t, s, e, at);
      var t' := Continued(t, PressesIn(s, e, at));
      AbsorbedIsPressed(t', Handled(s, e, at), arrivals[1..]);
      ContinuedAppend(t, PressesIn(s, e, at), PressesOf(Handled(s, e, at), arrivals[1..]));
    }
  }

  lemma StoppingTellsNothing(l: Loop, slot: Option<Session>, works: bool)
    ensures CounterRates(StoppedWith(l, slot, works).log) == CounterRates(l.log)
  {
    if slot.Some? {
      CounterRatesAppend(l.log, StopTried(slot.value, works));
    }
  }

  lemma RestartTells(l: Loop, rate: real, t: Turn)
    ensures CountersRestarted(l, rate, t).1 == Reopens(l, t)
    ensures CountersRestarted(l, rate, t).0.app == l.app
    ensures CounterRates(CountersRestarted(l, rate, t).0.log)
         == CounterRates(l.log) + if Reopens(l, t) then [Some(rate)] else []
  {
    var stopped := StoppedWith(l, l.counters, t.closes.counters).(counters := None);
    StoppingTellsNothing(l, l.counters, t.closes.counters);
    CounterRatesAppend(stopped.log, Opened(Session(l.serials, Counters, Some(rate))));
  }

  lemma SlotsDecide(a: Loop, b: Loop, t: Turn)
    requires a.counters == b.counters
    ensures Reopens(a, t) == Reopens(b, t)
  {
  }

  lemma SettledIsChecked(trail: Trail, interval: real, l: Loop, t: Turn)
    requires Tells(trail, interval, l)
    ensures Tells(Advance(trail, Check(t.settleTime, Reopens(l, t))), interval, RateSettled(l, t))
  {
    hide CountersRestarted, CounterRates, Reopened, Reopens;
    if Settled(l.app.rates, t.settleTime).Some? {
      var rate := Settled(l.app.rates, t.settleTime).value;
      var asked := l.(app := l.app.(rates := Taken(l.app.rates, t.settleTime)));
      RestartTells(asked, rate, t);
      SlotsDecide(l, asked, t);
      ReopenedAppend(trail.restarts, Restart(rate, t.settleTime, |trail.asks| - 1, Reopens(l, t)));
    }
  }

  lemma OtherSessionsTellNothing(l: Loop, t: Turn)
    ensures InvestigationReconciled(l, t).app.rates == l.app.rates == ProfileReconciled(l, t).app.rates
    ensures CounterRates(InvestigationReconciled(l, t).log) == CounterRates(l.log) == CounterRates(ProfileReconciled(l, t).log)
  {
    hide CounterRates;
    CounterRatesAppend(l.log, Opened(Session(l.serials, Investigation, None)));
    CounterRatesAppend(l.log, Opened(Session(l.serials, Profiling, None)));
    StoppingTellsNothing(l, l.investigation, t.closes.investigation);
    StoppingTellsNothing(l, l.profiling, t.closes.profiling);
  }

  lemma TurnTells(trail: Trail, interval: real, l: Loop, t: Turn)
    requires Tells(trail, interval, l)
    ensures Tells(Continued(trail, OpsOf(l, t)), interval, Turned(l, t).loop)
  {
    hide Advance, PressesOf, Absorbed, RateSettled, InvestigationReconciled, ProfileReconciled, Reopens, Reopened, CounterRates;
    if t.drawn && !t.received.Disconnected? {
      var heard := l.(app := Absorbed(l.app, Arrivals(t)));
      var presses := PressesOf(l.app, Arrivals(t));
      var check := Check(t.settleTime, Reopens(l, t));
      AbsorbedIsPressed(trail, l.app, Arrivals(t));
      ContinuedAppend(trail, presses, [check]);
      var told := Continued(trail, presses);
      assert [check][1..] == [] && Continued(Advance(told, check), []) == Advance(told, check);
      SlotsDecide(l, heard, t);
      SettledIsChecked(told, interval, heard, t);
      OtherSessionsTellNothing(RateSettled(heard, t), t);
      OtherSessionsTellNothing(InvestigationReconciled(RateSettled(heard, t), t), t);
    }
  }

  lemma {:induction false} RunTells(trail: Trail, interval: real, l: Loop, turns: seq<Turn>)
    requires Tells(trail, interval, l)
    ensures Tells(Continued(trail, OpsOfRun(l, turns)), interval, Turns(l, turns).loop)
    decreases |turns|
  {
    hide Turned, Tells, OpsOf;
    if turns == [] {
    } else {
      var ops := OpsOf(l, turns[0]);
      TurnTells(trail, interval, l, turns[0]);
      match Turned(l, turns[0])
      case Going(after) =>
        RunTells(Continued(trail, ops), interval, after, turns[1..]);
        ContinuedAppend(trail, ops, OpsOfRun(after, turns[1..]));
      case Left(_, _) =>
    }
  }

  /**
   In every run of the event loop the counter sessions opened after the first are restarts at rates asked for by
   a press, at least 400 ms apart and no more numerous than the presses that had an effect; and the rate handed on
   to the next process is the one last asked for, in range.
   */
  lemma CounterSessionsAreDebounced(interval: real, turns: seq<Turn>, last: Answers)
    requires Ordered(OpsOfRun(Beginning(interval), turns))
    ensures var ran := Ran(Beginning(interval), turns, last).loop;
            var trail := Follow(interval, OpsOfRun(Beginning(interval), turns));
            && ran.app.rates == trail.rates
            && CounterRates(ran.log) == [Some(interval)] + Reopened(trail.restarts)
            && Justified(trail)
            && |trail.restarts| <= |trail.asks|
            && (forall j, k | 0 <= j < k < |trail.restarts| :: trail.restarts[j].at + SETTLE <= trail.restarts[k].at)
            && (InRange(interval) ==> InRange(Wanted(ran.app.rates)))
  {
    hide Follow, OpsOfRun, Turns, Justified, Wanted, InRange, CounterRates, Reopened;
    var start := Beginning(interval);
    var ops := OpsOfRun(start, turns);
    var empty := Trail(Rates(interval, None), [], []);
    BeginningTells(interval);
    RunTells(empty, interval, start, turns);
    FollowIsContinued(interval, ops);
    var l := Turns(start, turns).loop;
    var a := StoppedWith(l, l.investigation, last.investigation).(investigation := None);
    var b := StoppedWith(a, a.profiling, last.profiling).(profiling := None);
    StoppingTellsNothing(l, l.investigation, last.investigation);
    StoppingTellsNothing(a, a.profiling, last.profiling);
    StoppingTellsNothing(b, b.counters, last.counters);
    EveryRestartIsJustified(interval, ops);
    RestartsAreSpaced(interval, ops);
    if InRange(interval) {
      WantedStaysInRange(interval, ops);
    }
  }

  lemma BeginningTells(interval: real)
    ensures Tells(Trail(Rates(interval, None), [], []), interval, Beginning(interval))
  {
    var first := Opened(Session(0, Counters, Some(interval)));
    CounterRatesAppend([], first);
    assert [] + [first] == Beginning(interval).log;
  }
}
