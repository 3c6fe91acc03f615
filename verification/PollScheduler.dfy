/**
 The visibility-aware poll timer of the attachment register: one timer, one flight at a time,
 an epoch that invalidates both, and a back-off delay.

 The page's `hidden` flag can change before the handler for that change runs, so the flag and
 the handler are separate steps, and any other step can come between them.
 */
module PollScheduler {
  import opened Common

  const INITIAL_POLL_DELAY_MS := 5000
  const MAX_POLL_DELAY_MS := 60000
  const RESUME_DELAY_MS := 500
  const STAGGER_MS := 2000

  /** A timer remembers the epoch it was set in and how long it waits. */
  datatype Timer = Timer(epoch: nat, milliseconds: nat)

  /** `flight` is the epoch of the refresh in progress; `unseen` counts visibility changes not yet handled. */
  datatype State = State(
    stagger: nat,
    cancelled: bool,
    hidden: bool,
    unseen: nat,
    timer: Option<Timer>,
    flight: Option<nat>,
    resumeAfterFlight: bool,
    epoch: nat,
    delay: nat)

  datatype Event = Flip | Handle | Fire | Finish | Cleanup

  function Min(a: nat, b: nat): nat {
    if a < b then a else b
  }

  // ---- The handlers as functions. ----

  function Schedule(s: State, milliseconds: nat): State {
    if s.cancelled || s.hidden then s
    else if s.flight.Some? then s.(resumeAfterFlight := true)
    else s.(timer := Some(Timer(s.epoch, milliseconds)))
  }

  function Started(stagger: nat, hidden: bool): State {
    var delay := INITIAL_POLL_DELAY_MS + stagger;
    Schedule(State(stagger, false, hidden, 0, None, None, false, 0, delay), delay)
  }

  function Fired(s: State): State {
    if s.timer.None? then s
    else
      var off := s.(timer := None);
      if s.cancelled || s.hidden || s.timer.value.epoch != s.epoch then off
      else off.(flight := Some(s.timer.value.epoch))
  }

  function Finished(s: State): State {
    if s.flight.None? then s
    else
      var landed := s.(flight := None);
      if s.cancelled || s.hidden then landed
      else if s.flight.value != s.epoch then
        if s.resumeAfterFlight
        then Schedule(landed.(resumeAfterFlight := false), RESUME_DELAY_MS + s.stagger)
        else landed
      else
        var delay := Min(MAX_POLL_DELAY_MS, s.delay * 2);
        Schedule(landed.(delay := delay), delay)
  }

  function VisibilityHandled(s: State): State {
    var bumped := s.(epoch := s.epoch + 1, timer := None);
    if s.hidden then bumped.(resumeAfterFlight := false)
    else
      var restarted := bumped.(delay := INITIAL_POLL_DELAY_MS + s.stagger);
      if s.flight.Some? then restarted.(resumeAfterFlight := true)
      else Schedule(restarted, RESUME_DELAY_MS + s.stagger)
  }

  function CleanedUp(s: State): State {
    s.(cancelled := true, epoch := s.epoch + 1, timer := None)
  }

  /** An event with nothing to do leaves the state as it is; cleanup removes the visibility listener. */
  function Step(s: State, e: Event): State {
    match e
    case Flip => s.(hidden := !s.hidden, unseen := s.unseen + 1)
    case Handle =>
      if s.unseen == 0 then s
      else if s.cancelled then s.(unseen := s.unseen - 1)
      else VisibilityHandled(s).(unseen := s.unseen - 1)
    case Fire => Fired(s)
    case Finish => Finished(s)
    case Cleanup => CleanedUp(s)
  }

  function Run(s: State, es: seq<Event>): State {
    if es == [] then s else Step(Run(s, es[..|es| - 1]), es[|es| - 1])
  }

  // ---- The effect's closure variables, updated in place. ----

  class Poller {
    const stagger: nat
    var cancelled: bool
    var hidden: bool
    var unseen: nat
    var timer: Option<Timer>
    var flight: Option<nat>
    var resumeAfterFlight: bool
    var pollEpoch: nat
    var delay: nat

    function View(): State
      reads this
    {
      State(stagger, cancelled, hidden, unseen, timer, flight, resumeAfterFlight, pollEpoch, delay)
    }

    constructor (stagger: nat, hidden: bool)
      ensures View() == Started(stagger, hidden)
    {
      this.stagger := stagger;
      this.hidden, unseen, cancelled := hidden, 0, false;
      timer, flight, resumeAfterFlight, pollEpoch := None, None, false, 0;
      delay := INITIAL_POLL_DELAY_MS + stagger;
      new;
      Arm(delay);
    }

    method Arm(milliseconds: nat)
      modifies this
      ensures View() == Schedule(old(View()), milliseconds)
    {
      if cancelled || hidden {
        return;
      }
      if flight.Some? {
        resumeAfterFlight := true;
        return;
      }
      timer := Some(Timer(pollEpoch, milliseconds));
    }

    /** The timer's callback up to the `await` of the refresh it starts. */
    method OnTimer()
      modifies this
      ensures View() == Fired(old(View()))
    {
      if timer.Some? {
        var scheduledEpoch := timer.value.epoch;
        timer := None;
        if !(cancelled || hidden || scheduledEpoch != pollEpoch) {
          flight := Some(scheduledEpoch);
        }
      }
    }

    method OnFlightEnd()
      modifies this
      ensures View() == Finished(old(View()))
    {
      if flight.None? {
        return;
      }
      var scheduledEpoch := flight.value;
      flight := None;
      if cancelled || hidden {
        return;
      }
      if scheduledEpoch != pollEpoch {
        if resumeAfterFlight {
          resumeAfterFlight := false;
          Arm(RESUME_DELAY_MS + stagger);
        }
        return;
      }
      delay := Min(MAX_POLL_DELAY_MS, delay * 2);
      Arm(delay);
    }

    method OnVisibilityChange()
      modifies this
      ensures View() == VisibilityHandled(old(View()))
    {
      pollEpoch := pollEpoch + 1;
      timer := None;
      if !hidden {
        delay := INITIAL_POLL_DELAY_MS + stagger;
        if flight.Some? {
          resumeAfterFlight := true;
        } else {
          Arm(RESUME_DELAY_MS + stagger);
        }
      } else {
        resumeAfterFlight := false;
      }
    }

    method Dispose()
      modifies this
      ensures View() == CleanedUp(old(View()))
    {
      cancelled := true;
      pollEpoch := pollEpoch + 1;
      timer := None;
    }
  }

  // ---- What every run keeps. ----

  /** A refresh in progress that will arm the timer again when it ends. */
  predicate FlightWillRearm(s: State) {
    s.flight.Some? && (s.flight.value == s.epoch || s.resumeAfterFlight)
  }

  /** Nothing is armed and nothing is on its way to arm it. */
  predicate Asleep(s: State) {
    s.timer.None? && !FlightWillRearm(s)
  }

  predicate Inv(s: State) {
    && s.stagger < STAGGER_MS
    // one timer, and it belongs to the current epoch
    && (s.timer.Some? ==> s.timer.value.epoch == s.epoch && !s.cancelled)
    // the timer and the flight exclude each other, so no second flight can start
    && (s.timer.Some? ==> s.flight.None?)
    && (s.flight.Some? ==> s.flight.value <= s.epoch)
    && (s.cancelled && s.flight.Some? ==> s.flight.value < s.epoch)
    // no wakeup is lost
    && (!s.cancelled && !s.hidden && s.unseen == 0 ==> !Asleep(s))
    // the back-off stays in range
    && INITIAL_POLL_DELAY_MS + s.stagger <= s.delay <= MAX_POLL_DELAY_MS
    && (s.timer.Some? ==> RESUME_DELAY_MS + s.stagger <= s.timer.value.milliseconds <= MAX_POLL_DELAY_MS)
  }

  lemma StepKeepsInv(s: State, e: Event)
    requires Inv(s)
    ensures Inv(Step(s, e))
  {
  }

  /** Every run: one flight at a time, timers of the current epoch only, no lost wakeup, delays in range. */
  lemma {:induction false} EveryRunKeepsInv(stagger: nat, hidden: bool, es: seq<Event>)
    requires stagger < STAGGER_MS
    ensures Inv(Run(Started(stagger, hidden), es))
  {
    if es != [] {
      EveryRunKeepsInv(stagger, hidden, es[..|es| - 1]);
      StepKeepsInv(Run(Started(stagger, hidden), es[..|es| - 1]), es[|es| - 1]);
    }
  }

  /** A timer that fires never finds a flight in progress, so flights do not overlap. */
  lemma FlightsDoNotOverlap(stagger: nat, hidden: bool, es: seq<Event>)
    requires stagger < STAGGER_MS
    ensures var s := Run(Started(stagger, hidden), es);
            Fired(s).flight != s.flight ==> s.flight.None?
  {
    EveryRunKeepsInv(stagger, hidden, es);
  }

  /** Liveness in two steps: a visible, live poller always has a next refresh, reached by finishing and firing. */
  lemma NextRefreshIsReached(stagger: nat, hidden: bool, es: seq<Event>)
    requires stagger < STAGGER_MS
    ensures var s := Run(Started(stagger, hidden), es);
            !s.cancelled && !s.hidden && s.unseen == 0 ==> Fired(Finished(s)).flight == Some(s.epoch)
  {
    EveryRunKeepsInv(stagger, hidden, es);
  }

  /** After cleanup nothing is ever armed or started again. */
  lemma {:induction false} CleanupIsFinal(s: State, es: seq<Event>)
    requires s.cancelled && s.timer.None?
    ensures Run(s, es).cancelled && Run(s, es).timer.None?
    ensures Run(s, es).flight.Some? ==> Run(s, es).flight == s.flight
  {
    if es != [] {
      CleanupIsFinal(s, es[..|es| - 1]);
    }
  }

  // ---- Back-off in closed form. ----

  /** `d` doubled `n` times. */
  function Doubled(d: nat, n: nat): nat {
    if n == 0 then d else 2 * Doubled(d, n - 1)
  }

  /** `n` refreshes that start and end without a visibility change. */
  function Cycles(s: State, n: nat): State {
    if n == 0 then s else Finished(Fired(Cycles(s, n - 1)))
  }

  /** The delay doubles from its initial value and stops at the maximum. */
  lemma {:induction false} BackOffDoubles(stagger: nat, n: nat)
    requires stagger < STAGGER_MS
    ensures var s := Cycles(Started(stagger, false), n);
            s.timer == Some(Timer(0, s.delay)) && s.epoch == 0 && !s.cancelled && !s.hidden && s.flight.None?
    ensures Cycles(Started(stagger, false), n).delay
         == Min(MAX_POLL_DELAY_MS, Doubled(INITIAL_POLL_DELAY_MS + stagger, n))
  {
    if n > 0 {
      BackOffDoubles(stagger, n - 1);
      OneCycle(Cycles(Started(stagger, false), n - 1));
    }
  }

  lemma OneCycle(s: State)
    requires s.timer == Some(Timer(0, s.delay)) && s.epoch == 0 && !s.cancelled && !s.hidden && s.flight.None?
    ensures var delay := Min(MAX_POLL_DELAY_MS, s.delay * 2);
            Finished(Fired(s)) == s.(delay := delay, timer := Some(Timer(0, delay)))
  {
  }

  // ---- When the next refresh is due. ----

  /** The first refresh is due after five seconds and the connection's stagger, unless the page is hidden. */
  lemma FirstRefreshIsDue(stagger: nat, hidden: bool)
    ensures Started(stagger, hidden).timer == if hidden then None else Some(Timer(0, 5000 + stagger))
  {
  }

  /** While the page is hidden no timer starts a refresh, and a refresh that ends leaves all else as it is. */
  lemma HiddenStartsNothing(s: State)
    requires s.hidden
    ensures Fired(s) == s.(timer := None) && Finished(s) == s.(flight := None)
  {
  }

  /** Hiding the page disarms the timer, and nothing arms it while the page stays hidden. */
  lemma HiddenIsQuiet(s: State)
    requires s.hidden && !s.cancelled && s.unseen > 0
    ensures var t := Step(s, Handle);
            t.timer.None? && !t.resumeAfterFlight && Finished(t).timer.None? && Fired(t).flight == t.flight
  {
  }

  /**
   When the page is shown again the back-off starts over, and a refresh is due after half a second and
   the stagger, counted from now or, if one is in progress, from its end; the delay after it is the first.
   */
  lemma ShownIsDueSoon(s: State)
    requires !s.hidden && !s.cancelled && s.unseen > 0 && (s.flight.Some? ==> s.flight.value <= s.epoch)
    ensures var t := Step(s, Handle);
            && t.delay == 5000 + s.stagger && t.epoch == s.epoch + 1
            && (if s.flight.None? then t.timer == Some(Timer(t.epoch, 500 + s.stagger)) else t.timer.None?)
            && (s.flight.Some? ==>
                  && Finished(t).timer == Some(Timer(t.epoch, 500 + s.stagger))
                  && Finished(t).delay == 5000 + s.stagger && !Finished(t).resumeAfterFlight)
  {
  }
}
