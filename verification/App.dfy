/**
 The dashboard's own state and how events change it (src/app.rs, and `handle_event`/`handle_key` of
 src/ui/mod.rs). What the screens display is not part of this state, only what decides which sessions run.
 */
module Apps {
  import opened Wire
  import opened Interval

  datatype View = Dashboard | Investigate | Profile

  /** A profile's stages; a collection knows when it is to stop. */
  datatype Phase = Collecting(until: nat) | Resolving | Finished | Aborted

  datatype Exit = Quit | Detach

  datatype Status = Connecting | Live | Ended | Broken

  datatype KeyCode = Char(c: char) | Esc | OtherKey

  datatype Key = Key(code: KeyCode, control: bool)

  datatype Event =
    | Pressed(key: Key)
    | OtherInput
    | Sample
    | SessionEnded(failed: bool)
    | Runtime
    | RuntimeFailed
    | ProfileProgress
    | ProfileDone
    | ProfileFailed

  datatype State = State(
    rates: Rates,
    status: Status,
    paused: bool,
    showHelp: bool,
    exit: Option<Exit>,
    view: View,
    phase: Phase,
    showWaiting: bool,
    runtimeError: bool)

  /** A profile's window: five seconds. */
  const PROFILE_WINDOW: nat := 5_000_000_000

  function Opening(interval: real): State {
    State(Rates(interval, None), Connecting, false, false, None, Dashboard, Resolving, false, false)
  }

  // ----- Single changes

  function InvestigateToggled(s: State): State {
    if s.view == Investigate then s.(view := Dashboard) else s.(runtimeError := false, view := Investigate)
  }

  function ProfileStarted(s: State, now: nat): State {
    s.(view := Profile, phase := Collecting(now + PROFILE_WINDOW))
  }

  function ProfileCancelled(s: State): State {
    s.(phase := if s.phase.Collecting? then Aborted else s.phase, view := Dashboard)
  }

  function ProfileKey(s: State, key: Key, now: nat): State {
    match key.code
    case Esc => ProfileCancelled(s)
    case OtherKey => s
    case Char(c) =>
      if c == 'c' then
        if key.control then s.(exit := Some(Quit)) else ProfileCancelled(s)
      else if c == 'r' && !s.phase.Collecting? then ProfileStarted(s, now)
      else if c == 'w' && !s.phase.Collecting? then s.(showWaiting := !s.showWaiting)
      else if c == 'q' then s.(exit := Some(Quit))
      else if c == 'd' then s.(exit := Some(Detach))
      else s
  }

  function InvestigateKey(s: State, key: Key): State {
    match key.code
    case Esc => InvestigateToggled(s)
    case OtherKey => s
    case Char(c) =>
      if c == 'i' then InvestigateToggled(s)
      else if c == 'q' then s.(exit := Some(Quit))
      else if c == 'c' && key.control then s.(exit := Some(Quit))
      else if c == 'd' then s.(exit := Some(Detach))
      else if c == '?' || c == 'h' then s.(showHelp := true)
      else s
  }

  function DashboardKey(s: State, key: Key, now: nat): State {
    match key.code
    case Esc => s.(exit := Some(Detach))
    case OtherKey => s
    case Char(c) =>
      if c == 'q' then s.(exit := Some(Quit))
      else if c == 'c' && key.control then s.(exit := Some(Quit))
      else if c == 'd' then s.(exit := Some(Detach))
      else if c == 'i' then InvestigateToggled(s)
      else if c == 'c' then ProfileStarted(s, now)
      else if c == 'p' || c == ' ' then s.(paused := !s.paused)
      else if c == '-' || c == '_' then s.(rates := Stepped(s.rates, true, now))
      else if c == '+' || c == '=' then s.(rates := Stepped(s.rates, false, now))
      else if c == '?' || c == 'h' then s.(showHelp := true)
      else s
  }

  /** Help swallows the key that dismisses it. */
  function KeyHandled(s: State, key: Key, now: nat): State {
    if s.showHelp then s.(showHelp := false)
    else
      match s.view
      case Profile => ProfileKey(s, key, now)
      case Investigate => InvestigateKey(s, key)
      case Dashboard => DashboardKey(s, key, now)
  }

  function Handled(s: State, e: Event, now: nat): State {
    match e
    case Pressed(key) => KeyHandled(s, key, now)
    case OtherInput => s
    case Sample => s.(status := Live)
    case SessionEnded(failed) => s.(status := if failed then Broken else Ended)
    case Runtime => s
    case RuntimeFailed => s.(runtimeError := true)
    case ProfileProgress => s
    case ProfileDone => s.(phase := Finished)
    case ProfileFailed => s.(phase := Aborted)
  }

  // ----- What opens the investigation

  /** Only `i` on the dashboard, with no help in front of it, opens the investigation. */
  lemma InvestigationOpensExactly(s: State, e: Event, now: nat)
    requires s.view != Investigate
    ensures Handled(s, e, now).view == Investigate
       <==> e.Pressed? && e.key.code == Char('i') && s.view == Dashboard && !s.showHelp
  {
    hide Stepped;
  }

  /** On a finished profile `i` does nothing at all, whatever else is held down. */
  lemma AFinishedProfileStays(s: State, control: bool, now: nat)
    requires s.view == Profile && s.phase == Finished && !s.showHelp
    ensures Handled(s, Pressed(Key(Char('i'), control)), now) == s
  {
  }

  // ----- What events do, effect by effect

  /** A key counts as pressed only where no help is in front of it. */
  predicate Hits(s: State, e: Event, code: KeyCode) {
    e.Pressed? && !s.showHelp && e.key.code == code
  }

  /** `q` and control-`c` quit from everywhere, `d` detaches, and on the dashboard Esc does too. */
  lemma ExitsExactly(s: State, e: Event, now: nat)
    ensures Handled(s, e, now).exit
         == if Hits(s, e, Char('q')) || (Hits(s, e, Char('c')) && e.key.control) then Some(Quit)
            else if Hits(s, e, Char('d')) || (Hits(s, e, Esc) && s.view == Dashboard) then Some(Detach)
            else s.exit
  {
    hide Stepped;
  }

  /** Any key dismisses help; `?` and `h` bring it up, but not over a profile. */
  lemma HelpShowsExactly(s: State, e: Event, now: nat)
    ensures Handled(s, e, now).showHelp <==>
              if s.showHelp then !e.Pressed?
              else s.view != Profile && (Hits(s, e, Char('?')) || Hits(s, e, Char('h')))
  {
    hide Stepped;
  }

  /** `p` and space freeze the dashboard and `w` shows parked threads on a profile, one press on and the next off. */
  lemma TogglesExactly(s: State, e: Event, now: nat)
    ensures Handled(s, e, now).paused
         == (s.paused != (s.view == Dashboard && (Hits(s, e, Char('p')) || Hits(s, e, Char(' ')))))
    ensures Handled(s, e, now).showWaiting
         == (s.showWaiting != (s.view == Profile && !s.phase.Collecting? && Hits(s, e, Char('w'))))
  {
    hide Stepped;
  }

  /** On the dashboard `-` and `_` ask for a shorter interval, `+` and `=` for a longer one. */
  lemma RatesStepExactly(s: State, e: Event, now: nat)
    ensures Handled(s, e, now).rates
         == if s.view == Dashboard && (Hits(s, e, Char('-')) || Hits(s, e, Char('_'))) then Stepped(s.rates, true, now)
            else if s.view == Dashboard && (Hits(s, e, Char('+')) || Hits(s, e, Char('='))) then Stepped(s.rates, false, now)
            else s.rates
  {
    hide Stepped;
  }

  /** What the counter session last said: a reading, an end, or a failure. */
  lemma StatusFollowsExactly(s: State, e: Event, now: nat)
    ensures Handled(s, e, now).status == match e
                                         case Sample => Live
                                         case SessionEnded(failed) => if failed then Broken else Ended
                                         case _ => s.status
    ensures Handled(s, e, now).runtimeError <==>
              e.RuntimeFailed? || (s.runtimeError && !(Handled(s, e, now).view == Investigate && s.view != Investigate))
  {
    hide Stepped;
  }

  /** Esc and `i` leave the investigation, Esc and `c` a profile; a collection left behind is abandoned. */
  lemma LeavesForDashboardExactly(s: State, e: Event, now: nat)
    requires s.view != Dashboard
    ensures Handled(s, e, now).view == Dashboard <==>
              || Hits(s, e, Esc)
              || (s.view == Investigate && Hits(s, e, Char('i')))
              || (s.view == Profile && Hits(s, e, Char('c')) && !e.key.control)
    ensures s.view == Profile && Handled(s, e, now).view == Dashboard && s.phase.Collecting? ==>
              Handled(s, e, now).phase == Aborted
  {
    hide Stepped;
  }

  /** What gives a collection up by hand. */
  predicate Abandons(s: State, e: Event) {
    s.view == Profile && (Hits(s, e, Esc) || (Hits(s, e, Char('c')) && !e.key.control))
  }

  lemma KeysOnlyAbandon(s: State, key: Key, now: nat)
    requires s.phase.Collecting?
    ensures var phase := KeyHandled(s, key, now).phase;
            if Abandons(s, Pressed(key)) then phase == Aborted else phase.Collecting?
  {
    hide Stepped;
  }

  /** A collection is over once its result or its failure arrives, or it is abandoned; no other event ends it. */
  lemma PhaseEndsExactly(s: State, e: Event, now: nat)
    requires s.phase.Collecting?
    ensures var phase := Handled(s, e, now).phase;
            if e.ProfileDone? then phase == Finished
            else if e.ProfileFailed? || Abandons(s, e) then phase == Aborted
            else phase.Collecting?
  {
    hide KeyHandled, Abandons;
    if e.Pressed? {
      KeysOnlyAbandon(s, e.key, now);
    } else {
      OnlyKeysAbandon(s, e);
    }
  }

  lemma OnlyKeysAbandon(s: State, e: Event)
    ensures Abandons(s, e) ==> e.Pressed?
  {
  }

  // ----- The object

  class App {
    var interval: real
    var pendingInterval: Option<Ask>
    var status: Status
    var paused: bool
    var showHelp: bool
    var exit: Option<Exit>
    var view: View
    var phase: Phase
    var showWaiting: bool
    var runtimeError: bool

    ghost function Value(): State
      reads this
    {
      State(Rates(interval, pendingInterval), status, paused, showHelp, exit, view, phase, showWaiting, runtimeError)
    }

    constructor (rate: real)
      ensures Value() == Opening(rate)
    {
      interval, pendingInterval := rate, None;
      status, paused, showHelp, exit := Connecting, false, false, None;
      view, phase, showWaiting, runtimeError := Dashboard, Resolving, false, false;
    }

    function WantedInterval(): (rate: real)
      reads this
      ensures rate == Wanted(Value().rates)
    {
      match pendingInterval
      case Some(ask) => ask.rate
      case None => interval
    }

    /** Only records the request; applying it needs a new session. */
    method StepInterval(faster: bool, now: nat)
      modifies this`pendingInterval
      ensures Value() == old(Value()).(rates := Stepped(old(Value()).rates, faster, now))
    {
      var from := WantedInterval();
      var delta := if faster then -STEP else STEP;
      var next := Clamp(Round((from + delta) * 10.0) as real / 10.0);
      if next != from && faster == (next < from) {
        pendingInterval := Some(Ask(next, now));
      }
    }

    method TakeSettledInterval(now: nat) returns (rate: Option<real>)
      modifies this`pendingInterval
      ensures rate == Settled(old(Value()).rates, now)
      ensures Value() == old(Value()).(rates := Taken(old(Value()).rates, now))
    {
      if pendingInterval.None? {
        return None;
      }
      var ask := pendingInterval.value;
      if now < ask.at + SETTLE {
        return None;
      }
      pendingInterval := None;
      return Some(ask.rate);
    }

    method ApplyInterval(rate: real)
      modifies this`interval
      ensures Value() == old(Value()).(rates := old(Value()).rates.(interval := rate))
    {
      interval := rate;
    }

    method ToggleInvestigate()
      modifies this
      ensures Value() == InvestigateToggled(old(Value()))
    {
      if view == Investigate {
        view := Dashboard;
      } else {
        runtimeError := false;
        view := Investigate;
      }
    }

    method StartProfile(now: nat)
      modifies this
      ensures Value() == ProfileStarted(old(Value()), now)
    {
      view := Profile;
      phase := Collecting(now + PROFILE_WINDOW);
    }

    method CancelProfile()
      modifies this
      ensures Value() == ProfileCancelled(old(Value()))
    {
      if phase.Collecting? {
        phase := Aborted;
      }
      view := Dashboard;
    }

    predicate WindowElapsed(now: nat)
      reads this
    {
      phase.Collecting? && now >= phase.until
    }

    method HandleKey(key: Key, now: nat)
      modifies this
      ensures Value() == KeyHandled(old(Value()), key, now)
    {
      if showHelp {
        showHelp := false;
        return;
      }
      match view
      case Profile => HandleProfileKey(key, now);
      case Investigate => HandleInvestigateKey(key);
      case Dashboard => HandleDashboardKey(key, now);
    }

    method HandleProfileKey(key: Key, now: nat)
      modifies this
      ensures Value() == ProfileKey(old(Value()), key, now)
    {
      match key.code
      case Esc => CancelProfile();
      case OtherKey =>
      case Char(c) =>
        if c == 'c' && !key.control {
          CancelProfile();
        } else if c == 'r' && !phase.Collecting? {
          StartProfile(now);
        } else if c == 'w' && !phase.Collecting? {
          showWaiting := !showWaiting;
        } else if c == 'q' || c == 'c' {
          exit := Some(Quit);
        } else if c == 'd' {
          exit := Some(Detach);
        }
    }

    method HandleInvestigateKey(key: Key)
      modifies this
      ensures Value() == InvestigateKey(old(Value()), key)
    {
      match key.code
      case Esc => ToggleInvestigate();
      case OtherKey =>
      case Char(c) =>
        if c == 'i' {
          ToggleInvestigate();
        } else if c == 'q' || (c == 'c' && key.control) {
          exit := Some(Quit);
        } else if c == 'd' {
          exit := Some(Detach);
        } else if c == '?' || c == 'h' {
          showHelp := true;
        }
    }

    method HandleDashboardKey(key: Key, now: nat)
      modifies this
      ensures Value() == DashboardKey(old(Value()), key, now)
    {
      match key.code
      case Esc => exit := Some(Detach);
      case OtherKey =>
      case Char(c) =>
        if c == 'q' || (c == 'c' && key.control) {
          exit := Some(Quit);
        } else if c == 'd' {
          exit := Some(Detach);
        } else if c == 'i' {
          ToggleInvestigate();
        } else if c == 'c' {
          StartProfile(now);
        } else if c == 'p' || c == ' ' {
          paused := !paused;
        } else if c == '-' || c == '_' {
          StepInterval(true, now);
        } else if c == '+' || c == '=' {
          StepInterval(false, now);
        } else if c == '?' || c == 'h' {
          showHelp := true;
        }
    }

    method HandleEvent(e: Event, now: nat)
      modifies this
      ensures Value() == Handled(old(Value()), e, now)
    {
      match e
      case Pressed(key) => HandleKey(key, now);
      case OtherInput =>
      case Sample => status := Live;
      case SessionEnded(failed) => status := if failed then Broken else Ended;
      case Runtime =>
      case RuntimeFailed => runtimeError := true;
      case ProfileProgress =>
      case ProfileDone => phase := Finished;
      case ProfileFailed => phase := Aborted;
    }
  }
}
