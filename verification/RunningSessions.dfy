/**
 The sessions running on the target over every run of the event loop (src/ui/mod.rs): those a failed stop attempt
 left running outlive their slot, and only through them can two of a kind run at once.
 */
module RunningSessions {
  import opened Wire
  import opened Apps
  import opened EventLoop
  import opened SessionRuns

  /** Sessions of a kind that opened and were not closed by a stop that worked. */
  ghost function RunningOf(log: seq<Action>, kind: Kind): set<Session> {
    set a | a in log && a.Opened? && a.session.kind == kind && StopTried(a.session, true) !in log :: a.session
  }

  predicate IsFailedStop(a: Action, kind: Kind) {
    a.StopTried? && !a.worked && a.session.kind == kind
  }

  function FailedStops(log: seq<Action>, kind: Kind): nat {
    if log == [] then 0
    else FailedStops(log[..|log| - 1], kind) + if IsFailedStop(log[|log| - 1], kind) then 1 else 0
  }

  /** A session not yet given up was opened once and no stop of it was tried. */
  lemma HeldIsUntouched(log: seq<Action>, n: nat, s: Session)
    requires Alternates(log, s.kind, Some(s)) && Numbered(log, n)
    ensures Opened(s) in log && s.serial < n
    ensures StopTried(s, true) !in log && StopTried(s, false) !in log
  {
    hide Alternates, Numbered;
    OpensBalanceStops(log, Some(s), s);
    OpensAtMostOnce(log, n, s);
    assert Opened(s) in multiset(log);
    assert StopTried(s, true) !in multiset(log) && StopTried(s, false) !in multiset(log);
  }

  /** A session yet to be opened has left no trace. */
  lemma NewIsUntouched(log: seq<Action>, n: nat, s: Session, open: Option<Session>)
    requires Alternates(log, s.kind, open) && Numbered(log, n) && s.serial >= n
    ensures Opened(s) !in log && StopTried(s, true) !in log
  {
    hide Alternates, Numbered;
    OpensBalanceStops(log, open, s);
    OpensAtMostOnce(log, n, s);
    assert Opened(s) !in multiset(log) && StopTried(s, true) !in multiset(log);
  }

  lemma RunningAfterOpen(log: seq<Action>, s: Session)
    requires Opened(s) !in log && StopTried(s, true) !in log
    ensures RunningOf(log + [Opened(s)], s.kind) == RunningOf(log, s.kind) + {s} && s !in RunningOf(log, s.kind)
  {
    var after := log + [Opened(s)];
    assert forall a :: a in after <==> a in log || a == Opened(s);
    forall r
      ensures r in RunningOf(after, s.kind) <==> r in RunningOf(log, s.kind) || r == s
    {
      assert Opened(r) in after <==> Opened(r) in log || r == s;
    }
  }

  lemma RunningAfterStop(log: seq<Action>, s: Session, works: bool)
    requires Opened(s) in log && StopTried(s, true) !in log
    ensures s in RunningOf(log, s.kind)
    ensures RunningOf(log + [StopTried(s, works)], s.kind) == RunningOf(log, s.kind) - if works then {s} else {}
  {
    var after := log + [StopTried(s, works)];
    assert forall a :: a in after <==> a in log || a == StopTried(s, works);
    assert Opened(s) in log;
    forall r
      ensures r in RunningOf(after, s.kind) <==> r in RunningOf(log, s.kind) && !(works && r == s)
    {
      assert Opened(r) in after <==> Opened(r) in log;
    }
  }

  lemma RunningOfOthers(log: seq<Action>, a: Action, kind: Kind)
    requires a.session.kind != kind
    ensures RunningOf(log + [a], kind) == RunningOf(log, kind)
  {
    var after := log + [a];
    assert forall b :: b in after <==> b in log || b == a;
    forall r
      ensures r in RunningOf(after, kind) <==> r in RunningOf(log, kind)
    {
      assert r.kind == kind ==> (Opened(r) in after <==> Opened(r) in log);
    }
  }

  /** The sessions of a kind running are the one in the slot and one for each stop that failed. */
  lemma {:induction false} RunningIsHeldOrFailed(log: seq<Action>, kind: Kind, open: Option<Session>, n: nat)
    requires Alternates(log, kind, open) && Numbered(log, n)
    ensures |RunningOf(log, kind)| == FailedStops(log, kind) + if open.Some? then 1 else 0
  {
    hide RunningOf;
    if log == [] {
      NothingRuns(kind);
    } else {
      var before, last := log[..|log| - 1], log[|log| - 1];
      var s, m: nat := last.session, if last.Opened? then n - 1 else n;
      assert log == before + [last];
      RunningIsHeldOrFailed(before, kind, Earlier(last, kind, open), m);
      if s.kind != kind {
        RunningOfOthers(before, last, kind);
      } else if last.Opened? {
        NewIsUntouched(before, m, s, None);
        RunningAfterOpen(before, s);
      } else {
        HeldIsUntouched(before, m, s);
        RunningAfterStop(before, s, last.worked);
      }
    }
  }

  lemma NothingRuns(kind: Kind)
    ensures RunningOf([], kind) == {}
  {
  }

  /** Any moment of a log is a log with something or nothing open. */
  lemma {:induction false} AnyMoment(log: seq<Action>, kind: Kind, open: Option<Session>, n: nat, k: nat)
    returns (held: Option<Session>, m: nat)
    requires Alternates(log, kind, open) && Numbered(log, n) && k <= |log|
    ensures Alternates(log[..k], kind, held) && Numbered(log[..k], m)
  {
    if k == |log| {
      assert log[..k] == log;
      held, m := open, n;
    } else {
      var before, last := log[..|log| - 1], log[|log| - 1];
      held, m := AnyMoment(before, kind, Earlier(last, kind, open), if last.Opened? then n - 1 else n, k);
      assert before[..k] == log[..k];
    }
  }

  /** At no moment are more sessions of a kind running than one and those whose stop failed before. */
  lemma RunningIsBounded(interval: real, turns: seq<Turn>, last: Answers, kind: Kind, k: nat)
    requires k <= |Ran(Beginning(interval), turns, last).loop.log|
    ensures var log := Ran(Beginning(interval), turns, last).loop.log[..k];
            FailedStops(log, kind) <= |RunningOf(log, kind)| <= FailedStops(log, kind) + 1
  {
    hide Ran, Alternates, Numbered, RunningOf, FailedStops;
    EverySessionIsOwned(interval, turns, last);
    var l := Ran(Beginning(interval), turns, last).loop;
    assert Alternates(l.log, kind, Slot(l, kind));
    var held, m := AnyMoment(l.log, kind, Slot(l, kind), l.serials, k);
    RunningIsHeldOrFailed(l.log[..k], kind, held, m);
  }

  /** A session of the kind opened behind a stop of that kind that did not work. */
  ghost predicate OpenedBehindFailure(log: seq<Action>, kind: Kind) {
    exists i, j | 0 <= i < j < |log| :: IsFailedStop(log[i], kind) && log[j].Opened? && log[j].session.kind == kind
  }

  ghost predicate EverTwo(log: seq<Action>, kind: Kind) {
    exists k | 0 <= k <= |log| :: |RunningOf(log[..k], kind)| > 1
  }

  lemma {:induction false} FailureIsThere(log: seq<Action>, kind: Kind) returns (i: nat)
    requires FailedStops(log, kind) > 0
    ensures i < |log| && IsFailedStop(log[i], kind)
  {
    if IsFailedStop(log[|log| - 1], kind) {
      i := |log| - 1;
    } else {
      i := FailureIsThere(log[..|log| - 1], kind);
    }
  }

  lemma {:induction false} FailureCounts(log: seq<Action>, kind: Kind, i: nat)
    requires i < |log| && IsFailedStop(log[i], kind)
    ensures FailedStops(log, kind) > 0
  {
    if i == |log| - 1 {
    } else {
      FailureCounts(log[..|log| - 1], kind, i);
    }
  }

  lemma {:induction false} TwoMeansBehindFailure(log: seq<Action>, kind: Kind, open: Option<Session>)
    returns (i: nat, j: nat)
    requires Alternates(log, kind, open) && FailedStops(log, kind) + (if open.Some? then 1 else 0) > 1
    ensures i < j < |log| && IsFailedStop(log[i], kind) && log[j].Opened? && log[j].session.kind == kind
  {
    var before, last := log[..|log| - 1], log[|log| - 1];
    if last.session.kind == kind && last.Opened? {
      i := FailureIsThere(before, kind);
      j := |log| - 1;
    } else {
      i, j := TwoMeansBehindFailure(before, kind, Earlier(last, kind, open));
    }
  }

  lemma BehindFailureMeansTwo(log: seq<Action>, kind: Kind, open: Option<Session>, n: nat, i: nat, j: nat)
    requires Alternates(log, kind, open) && Numbered(log, n)
    requires i < j < |log| && IsFailedStop(log[i], kind) && log[j].Opened? && log[j].session.kind == kind
    ensures |RunningOf(log[..j + 1], kind)| > 1
  {
    hide RunningOf, FailedStops, Numbered;
    var upTo := log[..j + 1];
    var held, m := AnyMoment(log, kind, open, n, j + 1);
    RunningIsHeldOrFailed(upTo, kind, held, m);
    FailureCounts(upTo, kind, i);
    assert upTo[|upTo| - 1] == log[j];
  }

  /**
   Two sessions of a kind run side by side at some moment of a run if and only if one of that kind was opened after
   a stop of that kind had failed.
   */
  lemma TwoOfAKindExactly(interval: real, turns: seq<Turn>, last: Answers, kind: Kind)
    ensures var log := Ran(Beginning(interval), turns, last).loop.log;
            EverTwo(log, kind) <==> OpenedBehindFailure(log, kind)
  {
    hide Ran, Alternates, Numbered, RunningOf, FailedStops, IsFailedStop;
    EverySessionIsOwned(interval, turns, last);
    var l := Ran(Beginning(interval), turns, last).loop;
    var open := Slot(l, kind);
    assert Alternates(l.log, kind, open);
    if EverTwo(l.log, kind) {
      var k :| 0 <= k <= |l.log| && |RunningOf(l.log[..k], kind)| > 1;
      var held, m := AnyMoment(l.log, kind, open, l.serials, k);
      RunningIsHeldOrFailed(l.log[..k], kind, held, m);
      var i, j := TwoMeansBehindFailure(l.log[..k], kind, held);
      assert IsFailedStop(l.log[i], kind) && l.log[j].Opened? && l.log[j].session.kind == kind;
    }
    if OpenedBehindFailure(l.log, kind) {
      var i, j :| 0 <= i < j < |l.log| && IsFailedStop(l.log[i], kind) && l.log[j].Opened? && l.log[j].session.kind == kind;
      BehindFailureMeansTwo(l.log, kind, open, l.serials, i, j);
    }
  }

  /** On return what still runs on the target is exactly what would not stop. */
  lemma WhatIsLeftFailedToStop(interval: real, turns: seq<Turn>, last: Answers, kind: Kind)
    requires Ran(Beginning(interval), turns, last).Left?
    ensures var log := Ran(Beginning(interval), turns, last).loop.log;
            |RunningOf(log, kind)| == FailedStops(log, kind)
  {
    hide Ran, Alternates, Numbered, RunningOf, FailedStops;
    EverySessionIsOwned(interval, turns, last);
    var l := Ran(Beginning(interval), turns, last).loop;
    assert Alternates(l.log, kind, Slot(l, kind)) && Slot(l, kind).None?;
    RunningIsHeldOrFailed(l.log, kind, None, l.serials);
  }
}
