/**
 * The countdown timer. Its state is the remaining seconds and a running
 * flag; the interval callback, the effect's stop branch and the two buttons
 * are discrete transitions on that state.
 */
module Timer {

  /** 25 minutes, the starting and the reset value. */
  const InitialSeconds: int := 25 * 60

  datatype TimerState = TimerState(timeLeft: int, isRunning: bool)

  const Initial: TimerState := TimerState(InitialSeconds, false)

  /** The effect installs the one-second interval only in this state. */
  predicate TickEnabled(s: TimerState) { s.isRunning && s.timeLeft > 0 }

  /** The interval callback: prev => prev - 1, while it is installed. */
  function TickState(s: TimerState): TimerState
  {
    if TickEnabled(s) then s.(timeLeft := s.timeLeft - 1) else s
  }

  /** The effect's else-branch: at zero while running, stop. */
  function SettleState(s: TimerState): TimerState
  {
    if s.timeLeft == 0 && s.isRunning then s.(isRunning := false) else s
  }

  /** The Start/Pause button. */
  function ToggleState(s: TimerState): TimerState
  {
    s.(isRunning := !s.isRunning)
  }

  /** The Reset button: back to 25 minutes, running flag untouched. */
  function ResetState(s: TimerState): TimerState
  {
    s.(timeLeft := InitialSeconds)
  }

  /**
   * One evaluation of the timer effect: with the interval installed the next
   * thing that happens is its tick; otherwise the stop branch runs.
   */
  function EffectState(s: TimerState): TimerState
  {
    if TickEnabled(s) then TickState(s) else SettleState(s)
  }

  datatype Event = Tick | Settle | Toggle | Reset

  function Apply(s: TimerState, e: Event): TimerState
  {
    match e
    case Tick => TickState(s)
    case Settle => SettleState(s)
    case Toggle => ToggleState(s)
    case Reset => ResetState(s)
  }

  /** The state after a sequence of events, in order. */
  function Run(s: TimerState, events: seq<Event>): TimerState
    decreases |events|
  {
    if events == [] then s else Run(Apply(s, events[0]), events[1..])
  }

  /** The state after n ticks. */
  function Ticks(s: TimerState, n: nat): TimerState
    decreases n
  {
    if n == 0 then s else Ticks(TickState(s), n - 1)
  }

  /** The state after n evaluations of the effect. */
  function Effects(s: TimerState, n: nat): TimerState
    decreases n
  {
    if n == 0 then s else Effects(EffectState(s), n - 1)
  }

  predicate InRange(s: TimerState) { 0 <= s.timeLeft <= InitialSeconds }

  /** Every transition keeps the remaining time within 0..1500. */
  lemma ApplyInRange(s: TimerState, e: Event)
    requires InRange(s)
    ensures InRange(Apply(s, e))
  {
  }

  /**
   * Whatever the events, from the initial state the remaining time is never
   * negative and never above 25 minutes.
   */
  lemma {:induction false} RunInRange(s: TimerState, events: seq<Event>)
    requires InRange(s)
    ensures InRange(Run(s, events))
    decreases |events|
  {
    if events != [] {
      ApplyInRange(s, events[0]);
      RunInRange(Apply(s, events[0]), events[1..]);
    }
  }

  lemma ReachableInRange(events: seq<Event>)
    ensures 0 <= Run(Initial, events).timeLeft <= InitialSeconds
  {
    RunInRange(Initial, events);
  }

  /**
   * A tick lowers the remaining time by exactly one when it is enabled and
   * changes nothing otherwise; it never touches the running flag.
   */
  lemma TickStep(s: TimerState)
    ensures TickState(s).isRunning == s.isRunning
    ensures TickState(s).timeLeft == if TickEnabled(s) then s.timeLeft - 1 else s.timeLeft
  {
  }

  /** n ticks from t seconds while running leave max(0, t - n); paused, nothing changes. */
  lemma {:induction false} TicksCount(s: TimerState, n: nat)
    requires s.timeLeft >= 0
    ensures Ticks(s, n).isRunning == s.isRunning
    ensures Ticks(s, n).timeLeft == if !s.isRunning then s.timeLeft
                                    else if n <= s.timeLeft then s.timeLeft - n else 0
    decreases n
  {
    if n > 0 {
      TicksCount(TickState(s), n - 1);
    }
  }

  /**
   * Started at t seconds, the effect counts down one second per evaluation
   * while still running, and the evaluation after the one that reaches zero
   * stops the timer at zero (no automatic reset).
   */
  lemma {:induction false} EffectsCountDown(t: int, n: nat)
    requires t >= 0
    ensures Effects(TimerState(t, true), n) ==
            if n <= t then TimerState(t - n, true) else TimerState(0, false)
    decreases n
  {
    if n > 0 {
      if t > 0 {
        EffectsCountDown(t - 1, n - 1);
      } else {
        StoppedIsStable(n - 1);
      }
    }
  }

  /** Once stopped at zero, further evaluations change nothing. */
  lemma {:induction false} StoppedIsStable(n: nat)
    ensures Effects(TimerState(0, false), n) == TimerState(0, false)
    decreases n
  {
    if n > 0 {
      StoppedIsStable(n - 1);
    }
  }

  /** The stop branch only clears the flag, and only at zero while running. */
  lemma SettleStep(s: TimerState)
    ensures SettleState(s).timeLeft == s.timeLeft
    ensures SettleState(s).isRunning == (s.isRunning && s.timeLeft != 0)
  {
  }

  /** Starting the timer at zero is undone by the next stop step. */
  lemma ToggleAtZeroUndone(s: TimerState)
    requires s.timeLeft == 0 && !s.isRunning
    ensures SettleState(ToggleState(s)) == s
  {
  }

  /** Reset gives 25 minutes from any state and keeps the running flag; toggle keeps the time. */
  lemma ResetAndToggle(s: TimerState)
    ensures ResetState(s) == TimerState(InitialSeconds, s.isRunning)
    ensures ToggleState(s) == TimerState(s.timeLeft, !s.isRunning)
    ensures ToggleState(ToggleState(s)) == s
  {
  }

  /** The timer held by the page, updated in place by its event handlers. */
  class Timer {
    var timeLeft: int
    var isRunning: bool

    ghost predicate Valid()
      reads this
    {
      InRange(State())
    }

    function State(): TimerState
      reads this
    {
      TimerState(timeLeft, isRunning)
    }

    /** useState(25 * 60) and useState(false). */
    constructor ()
      ensures Valid() && State() == Initial
    {
      timeLeft := InitialSeconds;
      isRunning := false;
    }

    /** The interval callback; fired reports whether it was installed. */
    method Tick() returns (fired: bool)
      requires Valid()
      modifies this
      ensures Valid()
      ensures fired == TickEnabled(old(State()))
      ensures State() == TickState(old(State()))
      ensures timeLeft == if fired then old(timeLeft) - 1 else old(timeLeft)
      ensures isRunning == old(isRunning)
    {
      fired := isRunning && timeLeft > 0;
      if fired {
        timeLeft := timeLeft - 1;
      }
    }

    /** The effect's stop branch; stopped reports whether it ran. */
    method Settle() returns (stopped: bool)
      requires Valid()
      modifies this
      ensures Valid()
      ensures stopped == (old(timeLeft) == 0 && old(isRunning))
      ensures State() == SettleState(old(State()))
      ensures timeLeft == old(timeLeft) && isRunning == (old(isRunning) && !stopped)
    {
      stopped := timeLeft == 0 && isRunning;
      if stopped {
        isRunning := false;
      }
    }

    /** setIsRunning(!isRunning). */
    method Toggle()
      requires Valid()
      modifies this
      ensures Valid()
      ensures State() == ToggleState(old(State()))
      ensures timeLeft == old(timeLeft) && isRunning == !old(isRunning)
    {
      isRunning := !isRunning;
    }

    /** setTimeLeft(25 * 60). */
    method Reset()
      requires Valid()
      modifies this
      ensures Valid()
      ensures State() == ResetState(old(State()))
      ensures timeLeft == InitialSeconds && isRunning == old(isRunning)
    {
      timeLeft := InitialSeconds;
    }
  }
}
