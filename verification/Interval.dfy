/**
 The refresh rate and its debounce (src/app.rs): presses move a wanted rate in tenths of a second, and a new
 counter session is asked for only once the presses have stopped. Rates are exact, in seconds; the clock counts
 nanoseconds and never goes back.
 */
module Interval {
  import opened Wire

  const STEP: real := 0.1
  const MIN: real := 0.1
  const MAX: real := 10.0

  /** Presses closer together than this, 400 ms, are taken up as one. */
  const SETTLE: nat := 400_000_000

  /** A rate asked for, and when. */
  datatype Ask = Ask(rate: real, at: nat)

  datatype Rates = Rates(interval: real, pending: Option<Ask>)

  function Wanted(r: Rates): real {
    if r.pending.Some? then r.pending.value.rate else r.interval
  }

  /** Halves go away from zero. */
  function Round(x: real): int {
    if x >= 0.0 then (x + 0.5).Floor else -((-x + 0.5).Floor)
  }

  function Clamp(x: real): real {
    if x < MIN then MIN else if x > MAX then MAX else x
  }

  function Candidate(from: real, faster: bool): real {
    Clamp(Round((from + if faster then -STEP else STEP) * 10.0) as real / 10.0)
  }

  /** A step that clamping turned round is no step. */
  predicate Effective(from: real, faster: bool) {
    var next := Candidate(from, faster);
    next != from && faster == (next < from)
  }

  function Stepped(r: Rates, faster: bool, now: nat): (r': Rates)
    ensures r'.interval == r.interval
  {
    if Effective(Wanted(r), faster) then r.(pending := Some(Ask(Candidate(Wanted(r), faster), now))) else r
  }

  function Settled(r: Rates, now: nat): Option<real> {
    match r.pending
    case None => None
    case Some(ask) => if now < ask.at + SETTLE then None else Some(ask.rate)
  }

  function Taken(r: Rates, now: nat): Rates {
    if Settled(r, now).Some? then r.(pending := None) else r
  }

  // ----- One press

  predicate InRange(rate: real) {
    MIN <= rate <= MAX
  }

  predicate OnTenth(rate: real) {
    (rate * 10.0).Floor as real == rate * 10.0
  }

  lemma RoundIsNear(x: real)
    ensures -0.5 <= Round(x) as real - x <= 0.5
  {
  }

  /** The nearest whole number, and of two the one farther from zero. */
  lemma RoundsExactly(x: real, n: int)
    ensures Round(x) == n <==> if x >= 0.0 then n as real - 0.5 <= x < n as real + 0.5
                               else n as real - 0.5 < x <= n as real + 0.5
  {
  }

  /** Off the top or the bottom of the range, and only there, a press outwards does nothing. */
  lemma PressMoves(from: real, faster: bool)
    ensures Effective(from, faster) <==> (if faster then from > MIN else from < MAX)
    ensures Effective(from, faster) ==> if faster then Candidate(from, faster) < from else Candidate(from, faster) > from
  {
    RoundIsNear((from + if faster then -STEP else STEP) * 10.0);
  }

  lemma TenthsAreTenths(n: int)
    ensures OnTenth(n as real / 10.0)
  {
    assert n as real / 10.0 * 10.0 == n as real;
  }

  lemma PressLands(from: real, faster: bool)
    ensures InRange(Candidate(from, faster)) && OnTenth(Candidate(from, faster))
  {
    hide OnTenth;
    TenthsAreTenths(Round((from + if faster then -STEP else STEP) * 10.0));
    TenthsAreTenths(1);
    TenthsAreTenths(100);
  }

  /** From a tenth, a press is exactly a tenth, within a tenth of a second and ten. */
  lemma TenthsMoveByAStep(n: int, faster: bool)
    requires 1 <= n <= 100
    ensures Candidate(n as real / 10.0, faster)
         == if faster then (if n == 1 then 0.1 else (n - 1) as real / 10.0)
            else (if n == 100 then 10.0 else (n + 1) as real / 10.0)
  {
    var m := if faster then n - 1 else n + 1;
    assert (n as real / 10.0 + if faster then -STEP else STEP) * 10.0 == m as real;
    assert Round(m as real) == m;
  }

  // ----- Runs of presses and checks

  /** The event loop looks once a turn; `restarted` is whether the session came back at the rate taken. */
  datatype Op = Press(faster: bool, at: nat) | Check(at: nat, restarted: bool)

  predicate Ordered(ops: seq<Op>) {
    forall i, j | 0 <= i < j < |ops| :: ops[i].at <= ops[j].at
  }

  /** A rate taken up: which effective press asked for it, and whether the session came back. */
  datatype Restart = Restart(rate: real, at: nat, cause: int, reopened: bool)

  /** The rates after a run, with every effective press and every rate taken up along the way. */
  datatype Trail = Trail(rates: Rates, asks: seq<Ask>, restarts: seq<Restart>)

  function Advance(t: Trail, op: Op): Trail {
    match op
    case Press(faster, at) =>
      var rates := Stepped(t.rates, faster, at);
      Trail(rates,
            if Effective(Wanted(t.rates), faster) then t.asks + [Ask(Candidate(Wanted(t.rates), faster), at)] else t.asks,
            t.restarts)
    case Check(at, restarted) =>
      match Settled(t.rates, at)
      case None => t
      case Some(rate) =>
        var taken := Taken(t.rates, at);
        Trail(if restarted then taken.(interval := rate) else taken,
              t.asks,
              t.restarts + [Restart(rate, at, |t.asks| - 1, restarted)])
  }

  function Follow(interval: real, ops: seq<Op>): Trail {
    if ops == [] then Trail(Rates(interval, None), [], [])
    else Advance(Follow(interval, ops[..|ops| - 1]), ops[|ops| - 1])
  }

  /** No ask is later than `now`, and a pending ask is the last one, not yet taken up. */
  ghost predicate Tracks(t: Trail, now: nat) {
    && (forall i | 0 <= i < |t.asks| :: t.asks[i].at <= now)
    && (forall k | 0 <= k < |t.restarts| :: t.restarts[k].at <= now)
    && (t.rates.pending.Some? ==> t.asks != [] && t.rates.pending.value == t.asks[|t.asks| - 1])
    && (forall k | 0 <= k < |t.restarts| ::
          t.restarts[k].cause < if t.rates.pending.Some? then |t.asks| - 1 else |t.asks|)
  }

  /** Each restart is at the rate of a press at least 400 ms old, the last press before it. */
  ghost predicate Justified(t: Trail) {
    forall k | 0 <= k < |t.restarts| ::
      var r := t.restarts[k];
      && 0 <= r.cause < |t.asks|
      && r.rate == t.asks[r.cause].rate
      && t.asks[r.cause].at + SETTLE <= r.at
      && forall i | r.cause < i < |t.asks| :: r.at <= t.asks[i].at
  }

  ghost predicate CausesRise(t: Trail) {
    forall j, k | 0 <= j < k < |t.restarts| :: t.restarts[j].cause < t.restarts[k].cause
  }

  lemma PressKeeps(t: Trail, faster: bool, at: nat, before: nat)
    requires Tracks(t, before) && Justified(t) && CausesRise(t) && before <= at
    ensures var t' := Advance(t, Press(faster, at)); Tracks(t', at) && Justified(t') && CausesRise(t')
  {
    hide Effective, Candidate;
  }

  lemma OneMoreRestart(t: Trail, t': Trail, r: Restart)
    requires Justified(t) && CausesRise(t) && t'.asks == t.asks && t'.restarts == t.restarts + [r]
    requires t.asks != [] && r.cause == |t.asks| - 1 && r.rate == t.asks[r.cause].rate
    requires t.asks[r.cause].at + SETTLE <= r.at
    requires forall k | 0 <= k < |t.restarts| :: t.restarts[k].cause < r.cause
    ensures Justified(t') && CausesRise(t')
  {
    assert t'.restarts[..|t.restarts|] == t.restarts;
  }

  lemma CheckKeeps(t: Trail, at: nat, restarted: bool, before: nat)
    requires Tracks(t, before) && Justified(t) && CausesRise(t) && before <= at
    ensures var t' := Advance(t, Check(at, restarted)); Tracks(t', at) && Justified(t') && CausesRise(t')
  {
    hide Justified, CausesRise;
    var t' := Advance(t, Check(at, restarted));
    if Settled(t.rates, at).Some? {
      OneMoreRestart(t, t', Restart(t.rates.pending.value.rate, at, |t.asks| - 1, restarted));
    }
  }

  lemma {:induction false} EveryRestartIsJustified(interval: real, ops: seq<Op>)
    requires Ordered(ops)
    ensures Tracks(Follow(interval, ops), if ops == [] then 0 else ops[|ops| - 1].at)
    ensures Justified(Follow(interval, ops)) && CausesRise(Follow(interval, ops))
  {
    hide Advance, Tracks, Justified, CausesRise;
    if ops == [] {
      NothingAsked(interval);
    } else {
      var before, op := ops[..|ops| - 1], ops[|ops| - 1];
      EveryRestartIsJustified(interval, before);
      var t := Follow(interval, before);
      var was := if before == [] then 0 else before[|before| - 1].at;
      match op
      case Press(faster, at) => PressKeeps(t, faster, at, was);
      case Check(at, restarted) => CheckKeeps(t, at, restarted, was);
    }
  }

  lemma NothingAsked(interval: real)
    ensures var t := Trail(Rates(interval, None), [], []); Tracks(t, 0) && Justified(t) && CausesRise(t)
  {
  }

  /** Restarts are at least 400 ms apart and no more numerous than the presses that had an effect. */
  lemma RestartsAreSpaced(interval: real, ops: seq<Op>)
    requires Ordered(ops)
    ensures var t := Follow(interval, ops);
            && |t.restarts| <= |t.asks|
            && forall j, k | 0 <= j < k < |t.restarts| :: t.restarts[j].at + SETTLE <= t.restarts[k].at
  {
    hide Follow;
    EveryRestartIsJustified(interval, ops);
    var t := Follow(interval, ops);
    forall j, k | 0 <= j < k < |t.restarts|
      ensures t.restarts[j].at + SETTLE <= t.restarts[k].at
    {
      assert t.restarts[j].cause < t.restarts[k].cause;
    }
    FewerThanCauses(t, |t.restarts|);
  }

  lemma {:induction false} FewerThanCauses(t: Trail, n: nat)
    requires n <= |t.restarts| && CausesRise(t) && Justified(t)
    ensures n <= |t.asks| && (n > 0 ==> n - 1 <= t.restarts[n - 1].cause)
  {
    if n == 0 {
    } else {
      FewerThanCauses(t, n - 1);
      var last := t.restarts[n - 1];
      if n > 1 {
        assert t.restarts[n - 2].cause < last.cause;
      }
    }
  }

  /** Over every run the wanted rate stays in range, and after a press that had an effect it is on a tenth. */
  lemma {:induction false} WantedStaysInRange(interval: real, ops: seq<Op>)
    requires InRange(interval)
    ensures var t := Follow(interval, ops);
            && InRange(Wanted(t.rates)) && InRange(t.rates.interval)
            && (t.rates.pending.Some? ==> OnTenth(Wanted(t.rates)))
            && forall i | 0 <= i < |t.asks| :: InRange(t.asks[i].rate) && OnTenth(t.asks[i].rate)
  {
    hide Candidate, OnTenth, Effective;
    if ops == [] {
    } else {
      WantedStaysInRange(interval, ops[..|ops| - 1]);
      var t := Follow(interval, ops[..|ops| - 1]);
      PressLands(Wanted(t.rates), true);
      PressLands(Wanted(t.rates), false);
    }
  }

  /** Once presses have been quiet long enough, one check brings the session to the rate wanted. */
  lemma QuietIsApplied(interval: real, ops: seq<Op>, at: nat)
    requires Ordered(ops + [Check(at, true)])
    requires forall ask <- Follow(interval, ops).asks :: ask.at + SETTLE <= at
    ensures Follow(interval, ops + [Check(at, true)]).rates == Rates(Wanted(Follow(interval, ops).rates), None)
  {
    hide Advance;
    var all := ops + [Check(at, true)];
    assert all[..|all| - 1] == ops;
    assert forall i, j | 0 <= i < j < |ops| :: all[i] == ops[i] && all[j] == ops[j];
    EveryRestartIsJustified(interval, ops);
    QuietCheck(Follow(interval, ops), at);
  }

  lemma QuietCheck(t: Trail, at: nat)
    requires t.rates.pending.Some? ==> t.asks != [] && t.rates.pending.value == t.asks[|t.asks| - 1]
    requires forall ask <- t.asks :: ask.at + SETTLE <= at
    ensures Advance(t, Check(at, true)).rates == Rates(Wanted(t.rates), None)
  {
  }
}
