/**
 Who owns the sessions over every run of the event loop (src/ui/mod.rs), whatever arrives, whatever the clock says
 and whichever calls on the target fail: each session opened sits in its slot until exactly one stop attempt.
 */
module SessionRuns {
  import opened Wire
  import opened Interval
  import opened Apps
  import opened EventLoop

  // ----- Ownership

  /**
   Of one kind, sessions open and close in turn, each stop attempt naming the session just opened; `open` is the
   one not yet given up.
   */
  ghost predicate Alternates(log: seq<Action>, kind: Kind, open: Option<Session>) {
    if log == [] then open.None?
    else
      var before, last := log[..|log| - 1], log[|log| - 1];
      if last.session.kind != kind then Alternates(before, kind, open)
      else
        match last
        case Opened(s) => open == Some(s) && Alternates(before, kind, None)
        case StopTried(s, _) => open.None? && Alternates(before, kind, Some(s))
  }

  /** Sessions are numbered from zero in the order they opened. */
  ghost predicate Numbered(log: seq<Action>, n: nat) {
    if log == [] then n == 0
    else
      var before, last := log[..|log| - 1], log[|log| - 1];
      match last
      case Opened(s) => n > 0 && s.serial == n - 1 && Numbered(before, n - 1)
      case StopTried(_, _) => Numbered(before, n)
  }

  function Slot(l: Loop, kind: Kind): Option<Session> {
    match kind
    case Counters => l.counters
    case Investigation => l.investigation
    case Profiling => l.profiling
  }

  function Filled(l: Loop, kind: Kind, slot: Option<Session>): Loop {
    match kind
    case Counters => l.(counters := slot)
    case Investigation => l.(investigation := slot)
    case Profiling => l.(profiling := slot)
  }

  /** Every session opened and not yet given up is in the slot of its kind, and nothing else is. */
  ghost predicate Owned(l: Loop) {
    && (forall kind :: Alternates(l.log, kind, Slot(l, kind)))
    && Numbered(l.log, l.serials)
  }

  lemma OneMore(log: seq<Action>, a: Action, kind: Kind, open: Option<Session>, n: nat)
    ensures Alternates(log + [a], kind, open)
        <==> if a.session.kind != kind then Alternates(log, kind, open)
             else if a.Opened? then open == Some(a.session) && Alternates(log, kind, None)
             else open.None? && Alternates(log, kind, Some(a.session))
    ensures Numbered(log + [a], n)
        <==> if a.Opened? then n > 0 && a.session.serial == n - 1 && Numbered(log, n - 1) else Numbered(log, n)
  {
    assert (log + [a])[..|log|] == log;
  }

  lemma HeldIsOfItsKind(log: seq<Action>, kind: Kind, open: Option<Session>)
    requires Alternates(log, kind, open) && open.Some?
    ensures open.value.kind == kind
  {
  }

  lemma StartKeeps(l: Loop, s: Session)
    requires Owned(l) && Slot(l, s.kind).None? && s.serial == l.serials
    ensures Owned(Filled(StartedWith(l, s), s.kind, Some(s)))
  {
    hide Alternates, Numbered;
    var after := Filled(StartedWith(l, s), s.kind, Some(s));
    OneMore(l.log, Opened(s), s.kind, None, after.serials);
    forall kind
      ensures Alternates(after.log, kind, Slot(after, kind))
    {
      assert Alternates(l.log, kind, Slot(l, kind));
      OneMore(l.log, Opened(s), kind, Slot(after, kind), after.serials);
    }
  }

  lemma StopKeeps(l: Loop, kind: Kind, works: bool)
    requires Owned(l)
    ensures Owned(Filled(StoppedWith(l, Slot(l, kind), works), kind, None))
  {
    hide Alternates, Numbered;
    var after := Filled(StoppedWith(l, Slot(l, kind), works), kind, None);
    if Slot(l, kind).Some? {
      var s := Slot(l, kind).value;
      HeldIsOfItsKind(l.log, kind, Slot(l, kind));
      OneMore(l.log, StopTried(s, works), kind, None, l.serials);
      forall k
        ensures Alternates(after.log, k, Slot(after, k))
      {
        assert Alternates(l.log, k, Slot(l, k));
        OneMore(l.log, StopTried(s, works), k, Slot(after, k), l.serials);
      }
    } else {
      forall k
        ensures Slot(after, k) == Slot(l, k)
      {
      }
    }
  }

  lemma OwnedWhateverTheApp(l: Loop, app: State)
    ensures Owned(l) <==> Owned(l.(app := app))
  {
    var l' := l.(app := app);
    assert forall kind :: Slot(l', kind) == Slot(l, kind);
  }

  lemma RestartKeeps(l: Loop, rate: real, t: Turn)
    requires Owned(l)
    ensures Owned(CountersRestarted(l, rate, t).0)
  {
    hide Owned;
    StopKeeps(l, Counters, t.closes.counters);
    var stopped := Filled(StoppedWith(l, Slot(l, Counters), t.closes.counters), Counters, None);
    StartKeeps(stopped, Session(l.serials, Counters, Some(rate)));
  }

  lemma RateSettledKeeps(l: Loop, t: Turn)
    requires Owned(l)
    ensures Owned(RateSettled(l, t))
  {
    hide Owned, CountersRestarted, Settled, Taken;
    match Settled(l.app.rates, t.settleTime)
    case None =>
    case Some(rate) =>
      var asked := l.(app := l.app.(rates := Taken(l.app.rates, t.settleTime)));
      OwnedWhateverTheApp(l, asked.app);
      RestartKeeps(asked, rate, t);
      var after := CountersRestarted(asked, rate, t).0;
      OwnedWhateverTheApp(after, RateSettled(l, t).app);
  }

  lemma InvestigationKeeps(l: Loop, t: Turn)
    requires Owned(l)
    ensures Owned(InvestigationReconciled(l, t))
  {
    hide Owned;
    OwnedWhateverTheApp(l, l.app.(runtimeError := true));
    StopKeeps(l, Investigation, t.closes.investigation);
    if l.investigation.None? {
      StartKeeps(l, Session(l.serials, Investigation, None));
    }
  }

  lemma ProfileKeeps(l: Loop, t: Turn)
    requires Owned(l)
    ensures Owned(ProfileReconciled(l, t))
  {
    hide Owned;
    OwnedWhateverTheApp(l, l.app.(phase := Aborted));
    StopKeeps(l, Profiling, t.closes.profiling);
    var stopped := Filled(StoppedWith(l, Slot(l, Profiling), t.closes.profiling), Profiling, None);
    OwnedWhateverTheApp(stopped, l.app.(phase := Resolving));
    if l.profiling.None? {
      StartKeeps(l, Session(l.serials, Profiling, None));
    }
  }

  lemma ReconciledKeeps(l: Loop, t: Turn)
    requires Owned(l)
    ensures Owned(Reconciled(l, t))
  {
    hide Owned, RateSettled, InvestigationReconciled, ProfileReconciled;
    var heard := l.(app := Absorbed(l.app, Arrivals(t)));
    OwnedWhateverTheApp(l, heard.app);
    RateSettledKeeps(heard, t);
    InvestigationKeeps(RateSettled(heard, t), t);
    ProfileKeeps(InvestigationReconciled(RateSettled(heard, t), t), t);
  }

  lemma {:induction false} TurnsKeep(l: Loop, turns: seq<Turn>)
    requires Owned(l)
    ensures Owned(Turns(l, turns).loop)
    decreases |turns|
  {
    hide Owned, Reconciled;
    if turns == [] {
    } else {
      var r := Reconciled(l, turns[0]);
      ReconciledKeeps(l, turns[0]);
      OwnedWhateverTheApp(r, r.app.(exit := Some(Quit)));
      match Turned(l, turns[0])
      case Going(after) => TurnsKeep(after, turns[1..]);
      case Left(_, _) =>
    }
  }

  lemma CleanedKeeps(l: Loop, last: Answers)
    requires Owned(l)
    ensures Owned(Cleaned(l, last))
  {
    hide Owned, StoppedWith;
    StopKeeps(l, Investigation, last.investigation);
    var a := Filled(StoppedWith(l, Slot(l, Investigation), last.investigation), Investigation, None);
    StopKeeps(a, Profiling, last.profiling);
    var b := Filled(StoppedWith(a, Slot(a, Profiling), last.profiling), Profiling, None);
    StopKeeps(b, Counters, last.counters);
  }

  lemma BeginningIsOwned(interval: real)
    ensures Owned(Beginning(interval))
  {
    var l := Beginning(interval);
    var first := Session(0, Counters, Some(interval));
    forall kind
      ensures Alternates(l.log, kind, Slot(l, kind))
    {
      OneMore([], Opened(first), kind, Slot(l, kind), 1);
      assert [] + [Opened(first)] == l.log;
    }
    OneMore([], Opened(first), Counters, l.counters, 1);
    assert [] + [Opened(first)] == l.log;
  }

  /** At every point of every run each session is in its slot until it is given up; on return no slot holds one. */
  lemma EverySessionIsOwned(interval: real, turns: seq<Turn>, last: Answers)
    ensures Owned(Ran(Beginning(interval), turns, last).loop)
    ensures Ran(Beginning(interval), turns, last).Left? ==>
              forall kind :: Slot(Ran(Beginning(interval), turns, last).loop, kind).None?
  {
    hide Owned, Turns, Beginning;
    BeginningIsOwned(interval);
    TurnsKeep(Beginning(interval), turns);
    CleanedKeeps(Turns(Beginning(interval), turns).loop, last);
  }

  // ----- What ownership says of the calls made

  /** Stop attempts on one session, whatever they were answered. */
  ghost function Stops(log: seq<Action>, s: Session): nat {
    multiset(log)[StopTried(s, true)] + multiset(log)[StopTried(s, false)]
  }

  lemma {:induction false} OpensBalanceStops(log: seq<Action>, open: Option<Session>, s: Session)
    requires Alternates(log, s.kind, open)
    ensures multiset(log)[Opened(s)] == Stops(log, s) + if open == Some(s) then 1 else 0
  {
    if log == [] {
    } else {
      var before, last := log[..|log| - 1], log[|log| - 1];
      assert log == before + [last];
      OpensBalanceStops(before, Earlier(last, s.kind, open), s);
    }
  }

  /** What was open before an action, given what is open after it. */
  function Earlier(a: Action, kind: Kind, open: Option<Session>): Option<Session> {
    if a.session.kind != kind then open else if a.Opened? then None else Some(a.session)
  }

  lemma {:induction false} OpensAtMostOnce(log: seq<Action>, n: nat, s: Session)
    requires Numbered(log, n)
    ensures multiset(log)[Opened(s)] <= if s.serial < n then 1 else 0
  {
    if log == [] {
    } else {
      var before, last := log[..|log| - 1], log[|log| - 1];
      assert log == before + [last];
      OpensAtMostOnce(before, if last.Opened? then n - 1 else n, s);
    }
  }

  lemma {:induction false} StopsFollowOpens(log: seq<Action>, kind: Kind, open: Option<Session>, k: nat)
    requires Alternates(log, kind, open) && k < |log| && log[k].StopTried? && log[k].session.kind == kind
    ensures k > 0 && Opened(log[k].session) in log[..k]
  {
    var before, last := log[..|log| - 1], log[|log| - 1];
    if k < |log| - 1 {
      StopsFollowOpens(before, kind, Earlier(last, kind, open), k);
      assert before[..k] == log[..k];
    } else {
      HeldWasOpened(before, kind, Earlier(last, kind, open));
    }
  }

  lemma {:induction false} HeldWasOpened(log: seq<Action>, kind: Kind, open: Option<Session>)
    requires Alternates(log, kind, open) && open.Some?
    ensures Opened(open.value) in log
  {
    var before, last := log[..|log| - 1], log[|log| - 1];
    if last.session.kind == kind {
    } else {
      HeldWasOpened(before, kind, open);
    }
  }

  /**
   Each session opened gets exactly one stop attempt, after it opened: on return for all of them, and before that
   for all but the ones still in their slots.
   */
  lemma EverySessionIsStoppedOnce(interval: real, turns: seq<Turn>, last: Answers, s: Session)
    ensures var ran := Ran(Beginning(interval), turns, last);
            var log := ran.loop.log;
            && multiset(log)[Opened(s)] <= 1
            && multiset(log)[Opened(s)]
               == Stops(log, s) + (if ran.Going? && Slot(ran.loop, s.kind) == Some(s) then 1 else 0)
            && forall k | 0 <= k < |log| && log[k].StopTried? && log[k].session == s :: Opened(s) in log[..k]
  {
    hide Ran, Alternates, Numbered;
    EverySessionIsOwned(interval, turns, last);
    var l := Ran(Beginning(interval), turns, last).loop;
    assert Alternates(l.log, s.kind, Slot(l, s.kind));
    OpensBalanceStops(l.log, Slot(l, s.kind), s);
    OpensAtMostOnce(l.log, l.serials, s);
    forall k | 0 <= k < |l.log| && l.log[k].StopTried? && l.log[k].session == s
      ensures Opened(s) in l.log[..k]
    {
      StopsFollowOpens(l.log, s.kind, Slot(l, s.kind), k);
    }
  }
}
