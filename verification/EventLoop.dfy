/**
 The event loop and the three sessions it keeps on the target process (src/ui/mod.rs). A turn of the loop is an
 input: what arrived, what the clock said, and which calls on the target worked.
 */
module EventLoop {
  import opened Wire
  import opened Interval
  import opened Apps

  datatype Kind = Counters | Investigation | Profiling

  /** Sessions are numbered as they open; a counter session runs at the rate it was opened at. */
  datatype Session = Session(serial: nat, kind: Kind, rate: Option<real>)

  /** A call on the target that was made; a stop can fail and leave its session running. */
  datatype Action = Opened(session: Session) | StopTried(session: Session, worked: bool)

  /** How a call on the target for each kind of session would answer. */
  datatype Answers = Answers(counters: bool, investigation: bool, profiling: bool)

  datatype Arrival = Arrival(event: Event, at: nat)

  datatype Received = Arrived(arrival: Arrival) | Timeout | Disconnected

  datatype Turn = Turn(
    drawn: bool,
    received: Received,
    queued: seq<Arrival>,
    settleTime: nat,
    windowTime: nat,
    opens: Answers,
    closes: Answers,
    interrupted: bool)

  datatype Loop = Loop(
    app: State,
    counters: Option<Session>,
    investigation: Option<Session>,
    profiling: Option<Session>,
    serials: nat,
    log: seq<Action>)

  /** Either the loop goes round again, or it has been left, by error or not. */
  datatype Outcome = Going(loop: Loop) | Left(loop: Loop, failed: bool)

  /** The dashboard opens its counter session before the first frame. */
  function Beginning(interval: real): Loop {
    var first := Session(0, Counters, Some(interval));
    Loop(Opening(interval), Some(first), None, None, 1, [Opened(first)])
  }

  // ----- Calls on the target

  function StartedWith(l: Loop, s: Session): Loop {
    l.(serials := l.serials + 1, log := l.log + [Opened(s)])
  }

  /** Whatever the call answers, the session is given up. */
  function StoppedWith(l: Loop, slot: Option<Session>, works: bool): Loop {
    if slot.Some? then l.(log := l.log + [StopTried(slot.value, works)]) else l
  }

  // ----- The steps of a turn

  function Absorbed(s: State, arrivals: seq<Arrival>): State
    decreases |arrivals|
  {
    if arrivals == [] then s else Absorbed(Handled(s, arrivals[0].event, arrivals[0].at), arrivals[1..])
  }

  /** An old session that will not close is not replaced in the same turn. */
  function CountersRestarted(l: Loop, rate: real, t: Turn): (r: (Loop, bool)) {
    var stopped := StoppedWith(l, l.counters, t.closes.counters).(counters := None);
    if l.counters.Some? && !t.closes.counters then (stopped, false)
    else if !t.opens.counters then (stopped, false)
    else
      var s := Session(l.serials, Counters, Some(rate));
      (StartedWith(stopped, s).(counters := Some(s)), true)
  }

  function Adopted(l: Loop, rate: real, restarted: bool): Loop {
    if restarted then l.(app := l.app.(rates := l.app.rates.(interval := rate)))
    else l.(app := l.app.(status := Broken))
  }

  function RateSettled(l: Loop, t: Turn): Loop {
    match Settled(l.app.rates, t.settleTime)
    case None => l
    case Some(rate) =>
      var asked := l.(app := l.app.(rates := Taken(l.app.rates, t.settleTime)));
      var (after, restarted) := CountersRestarted(asked, rate, t);
      Adopted(after, rate, restarted)
  }

  function InvestigationReconciled(l: Loop, t: Turn): Loop {
    if l.app.view == Investigate && l.investigation.None? then
      if t.opens.investigation then
        var s := Session(l.serials, Investigation, None);
        StartedWith(l, s).(investigation := Some(s))
      else l.(app := l.app.(runtimeError := true))
    else if l.app.view != Investigate && l.investigation.Some? then
      StoppedWith(l, l.investigation, t.closes.investigation).(investigation := None)
    else l
  }

  function ProfileReconciled(l: Loop, t: Turn): Loop {
    if l.app.phase.Collecting? && l.profiling.None? then
      if t.opens.profiling then
        var s := Session(l.serials, Profiling, None);
        StartedWith(l, s).(profiling := Some(s))
      else l.(app := l.app.(phase := Aborted))
    else if !l.app.phase.Collecting? && l.profiling.Some? && l.app.view != Profile then
      StoppedWith(l, l.profiling, t.closes.profiling).(profiling := None)
    else if l.app.phase.Collecting? && l.profiling.Some? && t.windowTime >= l.app.phase.until then
      StoppedWith(l, l.profiling, t.closes.profiling).(profiling := None, app := l.app.(phase := Resolving))
    else l
  }

  function Arrivals(t: Turn): seq<Arrival> {
    (if t.received.Arrived? then [t.received.arrival] else []) + t.queued
  }

  function Reconciled(l: Loop, t: Turn): Loop {
    ProfileReconciled(InvestigationReconciled(RateSettled(l.(app := Absorbed(l.app, Arrivals(t))), t), t), t)
  }

  function Turned(l: Loop, t: Turn): Outcome {
    if !t.drawn then Left(l, true)
    else if t.received.Disconnected? then Left(l, false)
    else
      var r := Reconciled(l, t);
      var after := if t.interrupted then r.(app := r.app.(exit := Some(Quit))) else r;
      if after.app.exit.Some? then Left(after, false) else Going(after)
  }

  function Turns(l: Loop, turns: seq<Turn>): Outcome
    decreases |turns|
  {
    if turns == [] then Going(l)
    else
      match Turned(l, turns[0])
      case Going(after) => Turns(after, turns[1..])
      case Left(after, failed) => Left(after, failed)
  }

  function Cleaned(l: Loop, last: Answers): Loop {
    var a := StoppedWith(l, l.investigation, last.investigation).(investigation := None);
    var b := StoppedWith(a, a.profiling, last.profiling).(profiling := None);
    StoppedWith(b, b.counters, last.counters).(counters := None)
  }

  /** The loop over a list of turns; leaving it gives up what is open, `last` being how those calls answer. */
  function Ran(l: Loop, turns: seq<Turn>, last: Answers): Outcome {
    match Turns(l, turns)
    case Going(after) => Going(after)
    case Left(after, failed) => Left(Cleaned(after, last), failed)
  }

  // ----- The loop itself

  lemma UnsettledIsKept(r: Rates, now: nat)
    ensures Settled(r, now).None? ==> Taken(r, now) == r
  {
  }

  /** The loop's session slots, the app it drives, and what it has asked of the target. */
  class Console {
    const app: App
    var counters: Option<Session>
    var investigation: Option<Session>
    var profiling: Option<Session>
    var serials: nat
    var log: seq<Action>

    ghost function Value(): Loop
      reads this, app
    {
      Loop(app.Value(), counters, investigation, profiling, serials, log)
    }

    constructor (interval: real)
      ensures Value() == Beginning(interval) && fresh(app)
    {
      app := new App(interval);
      var first := Session(0, Counters, Some(interval));
      counters, investigation, profiling := Some(first), None, None;
      serials, log := 1, [Opened(first)];
    }

    method Start(kind: Kind, rate: Option<real>) returns (session: Session)
      modifies this`serials, this`log
      ensures session == Session(old(serials), kind, rate)
      ensures Value() == StartedWith(old(Value()), session)
    {
      session := Session(serials, kind, rate);
      serials := serials + 1;
      log := log + [Opened(session)];
    }

    method Stop(session: Session, works: bool)
      modifies this`log
      ensures Value() == old(Value()).(log := old(log) + [StopTried(session, works)])
    {
      log := log + [StopTried(session, works)];
    }

    method RestartCounters(rate: real, t: Turn) returns (restarted: bool)
      modifies this
      ensures (Value(), restarted) == CountersRestarted(old(Value()), rate, t)
    {
      if counters.Some? {
        var active := counters.value;
        counters := None;
        Stop(active, t.closes.counters);
        if !t.closes.counters {
          return false;
        }
      }
      if !t.opens.counters {
        return false;
      }
      var session := Start(Counters, Some(rate));
      counters := Some(session);
      return true;
    }

    method SettleRate(t: Turn)
      modifies this, app
      ensures Value() == RateSettled(old(Value()), t)
    {
      hide Settled, Taken, CountersRestarted;
      UnsettledIsKept(app.Value().rates, t.settleTime);
      var rate := app.TakeSettledInterval(t.settleTime);
      if rate.Some? {
        var restarted := RestartCounters(rate.value, t);
        if restarted {
          app.ApplyInterval(rate.value);
        } else {
          app.status := Broken;
        }
      }
    }

    method StopInvestigation(works: bool)
      modifies this`investigation, this`log
      ensures Value() == StoppedWith(old(Value()), old(investigation), works).(investigation := None)
    {
      if investigation.Some? {
        var active := investigation.value;
        investigation := None;
        Stop(active, works);
      }
    }

    method ReconcileInvestigation(t: Turn)
      modifies this, app
      ensures Value() == InvestigationReconciled(old(Value()), t)
    {
      if app.view == Investigate && investigation.None? {
        if t.opens.investigation {
          var session := Start(Investigation, None);
          investigation := Some(session);
        } else {
          app.runtimeError := true;
        }
      } else if app.view != Investigate && investigation.Some? {
        StopInvestigation(t.closes.investigation);
      }
    }

    method StopProfile(works: bool)
      modifies this`profiling, this`log
      ensures Value() == StoppedWith(old(Value()), old(profiling), works).(profiling := None)
    {
      if profiling.Some? {
        var active := profiling.value;
        profiling := None;
        Stop(active, works);
      }
    }

    method ReconcileProfile(t: Turn)
      modifies this, app
      ensures Value() == ProfileReconciled(old(Value()), t)
    {
      if app.phase.Collecting? && profiling.None? {
        if t.opens.profiling {
          var session := Start(Profiling, None);
          profiling := Some(session);
        } else {
          app.phase := Aborted;
        }
      } else if !app.phase.Collecting? && profiling.Some? && app.view != Profile {
        StopProfile(t.closes.profiling);
      } else if app.phase.Collecting? && profiling.Some? && app.WindowElapsed(t.windowTime) {
        app.phase := Resolving;
        StopProfile(t.closes.profiling);
      }
    }

    method StopCounters(works: bool)
      modifies this`counters, this`log
      ensures Value() == StoppedWith(old(Value()), old(counters), works).(counters := None)
    {
      if counters.Some? {
        var active := counters.value;
        counters := None;
        Stop(active, works);
      }
    }

    /** A turn hears the arrival that ended its wait and then the queue, oldest first. */
    method Absorb(t: Turn)
      modifies app
      ensures app.Value() == Absorbed(old(app.Value()), Arrivals(t))
    {
      hide Handled;
      if t.received.Arrived? {
        app.HandleEvent(t.received.arrival.event, t.received.arrival.at);
        assert Arrivals(t)[1..] == t.queued;
      } else {
        assert Arrivals(t) == t.queued;
      }
      for k := 0 to |t.queued|
        invariant Absorbed(app.Value(), t.queued[k..]) == Absorbed(old(app.Value()), Arrivals(t))
      {
        app.HandleEvent(t.queued[k].event, t.queued[k].at);
      }
    }

    method TakeTurn(t: Turn) returns (left: bool, failed: bool)
      modifies this, app
      ensures (if left then Left(Value(), failed) else Going(Value())) == Turned(old(Value()), t)
    {
      hide Absorbed, RateSettled, InvestigationReconciled, ProfileReconciled;
      if !t.drawn {
        return true, true;
      }
      if t.received.Disconnected? {
        return true, false;
      }
      Absorb(t);
      SettleRate(t);
      ReconcileInvestigation(t);
      ReconcileProfile(t);
      if t.interrupted {
        app.exit := Some(Quit);
      }
      return app.exit.Some?, false;
    }

    method Run(turns: seq<Turn>, last: Answers) returns (left: bool, failed: bool)
      modifies this, app
      ensures (if left then Left(Value(), failed) else Going(Value())) == Ran(old(Value()), turns, last)
    {
      hide Turned, StoppedWith;
      for k := 0 to |turns|
        invariant Turns(Value(), turns[k..]) == Turns(old(Value()), turns)
      {
        left, failed := TakeTurn(turns[k]);
        if left {
          StopInvestigation(last.investigation);
          StopProfile(last.profiling);
          StopCounters(last.counters);
          return;
        }
      }
      return false, false;
    }
  }
}
