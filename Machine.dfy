/** The idle-prevention state machine of IdleBuster's Context as pure
    transitions over a record of its four fields and its power-call log.
    The class in module IdleBuster is proved to follow these transitions. */
module Machine {
  import opened Power
  import opened Period

  datatype Option<T> = None | Some(value: T)

  /** A daily window (start, end), in ticks. */
  type Window = (int, int)

  /** `isIdle` true means idle prevention is asserted (the source's name reads
      the other way round); `log` holds every SetThreadExecutionState call so far. */
  datatype State = State(
    isIdle: bool,
    inPeriodMode: bool,
    durationStart: int,
    durationEnd: int,
    log: seq<PowerCall>)

  /** The controller's flag agrees with what it last asked of the operating system. */
  predicate InSync(s: State) {
    s.isIdle == DisplayKeptOn(s.log)
  }

  /** The fields as the runtime initialises them, before the constructor's toggle. */
  const Initial: State := State(false, false, 0, 0, [])

  /** The single flip: release when asserted, assert when released. */
  function ToggleImpl(s: State): (t: State)
    ensures t.isIdle == !s.isIdle
    ensures t.log == s.log + [if s.isIdle then Allow else Prevent]
    ensures t.inPeriodMode == s.inPeriodMode
    ensures (t.durationStart, t.durationEnd) == (s.durationStart, s.durationEnd)
    ensures InSync(t)
  {
    LatestCallDecides(s.log, if s.isIdle then Allow else Prevent);
    var call := if s.isIdle then Allow else Prevent;
    s.(isIdle := !s.isIdle, log := s.log + [call])
  }

  /** The "Prevent Idle" menu item: leaving period mode clears the flag first,
      so it always lands asserted; in manual mode it is a plain flip. */
  function ToggleManual(s: State): (t: State)
    ensures !t.inPeriodMode && InSync(t)
    ensures s.inPeriodMode ==> t.isIdle && t.log == s.log + [Prevent]
    ensures !s.inPeriodMode ==> t.isIdle == !s.isIdle && t.log == s.log + [if s.isIdle then Allow else Prevent]
    ensures (t.durationStart, t.durationEnd) == (s.durationStart, s.durationEnd)
  {
    var left := if s.inPeriodMode then s.(inPeriodMode := false, isIdle := false) else s;
    ToggleImpl(left)
  }

  /** What the period prompt hands back: whether it was accepted, and the
      window, which is (MinValue, MinValue) when it was cancelled. */
  function PromptResult(answer: Option<Window>): (bool, Window) {
    match answer
    case Some(w) => (true, w)
    case None => (false, (MinValue, MinValue))
  }

  /** The "Prevent During Period" menu item, given what the prompt returned.
      Accepting stores the window and calls nothing; cancelling whatever the
      state, primes the flag and flips it once, releasing idle prevention. */
  function ToggleScheduled(s: State, answer: Option<Window>): (t: State)
    ensures t.inPeriodMode <==> answer.Some?
    ensures answer.Some? ==> (t.durationStart, t.durationEnd) == answer.value
    ensures answer.Some? ==> t.isIdle == s.isIdle && t.log == s.log
    ensures answer.None? ==> (t.durationStart, t.durationEnd) == (MinValue, MinValue)
    ensures answer.None? ==> !t.isIdle && t.log == s.log + [Allow] && InSync(t)
    ensures InSync(s) ==> InSync(t)
  {
    var (accepted, window) := PromptResult(answer);
    var stored := s.(inPeriodMode := accepted, durationStart := window.0, durationEnd := window.1);
    if accepted then stored else ToggleImpl(stored.(isIdle := true))
  }

  /** One timer tick: in period mode, flip only when the flag disagrees with
      the window at `now`. */
  function OnTick(s: State, now: int): (t: State)
    ensures !s.inPeriodMode ==> t == s
    ensures s.inPeriodMode ==> t.isIdle == IsInPeriod(s.durationStart, s.durationEnd, now)
    ensures t.log == s.log || t.log == s.log + [if t.isIdle then Prevent else Allow]
    ensures t.log == s.log <==> t.isIdle == s.isIdle
    ensures t.inPeriodMode == s.inPeriodMode
    ensures (t.durationStart, t.durationEnd) == (s.durationStart, s.durationEnd)
    ensures InSync(s) ==> InSync(t)
  {
    if !s.inPeriodMode then s
    else if IsInPeriod(s.durationStart, s.durationEnd, now) then
      if s.isIdle then s else ToggleImpl(s)
    else
      if !s.isIdle then s else ToggleImpl(s)
  }

  /** The application-exit handler: one release, whatever the state. */
  function Shutdown(s: State): (t: State)
    ensures t.log == s.log + [Allow]
    ensures !DisplayKeptOn(t.log)
    ensures t.isIdle == s.isIdle && t.inPeriodMode == s.inPeriodMode
    ensures (t.durationStart, t.durationEnd) == (s.durationStart, s.durationEnd)
  {
    LatestCallDecides(s.log, Allow);
    s.(log := s.log + [Allow])
  }

  /** The state right after construction: the constructor toggles once. */
  function Startup(): (t: State)
    ensures t == State(true, false, 0, 0, [Prevent])
    ensures InSync(t)
  {
    ToggleManual(Initial)
  }

  /** The inputs that drive the controller while the application runs. */
  datatype Event =
    | PreventIdleClicked
    | PeriodClicked(answer: Option<Window>)
    | TimerTicked(now: int)

  function Step(s: State, e: Event): State {
    match e
    case PreventIdleClicked => ToggleManual(s)
    case PeriodClicked(answer) => ToggleScheduled(s, answer)
    case TimerTicked(now) => OnTick(s, now)
  }

  /** The state after the events `es`, in order. */
  function Run(s: State, es: seq<Event>): State
    decreases |es|
  {
    if es == [] then s else Run(Step(s, es[0]), es[1..])
  }

  lemma StepKeepsInSync(s: State, e: Event)
    requires InSync(s)
    ensures InSync(Step(s, e))
  {
  }

  /** Along any run the flag keeps agreeing with the operating system. */
  lemma {:induction false} RunKeepsInSync(s: State, es: seq<Event>)
    requires InSync(s)
    ensures InSync(Run(s, es))
    decreases |es|
  {
    if es != [] {
      StepKeepsInSync(s, es[0]);
      RunKeepsInSync(Step(s, es[0]), es[1..]);
    }
  }

  /** Each click or tick issues at most one power call, and the earlier calls stay. */
  lemma {:induction false} RunCallsAtMostOncePerEvent(s: State, es: seq<Event>)
    ensures |Run(s, es).log| <= |s.log| + |es|
    ensures s.log <= Run(s, es).log
    decreases |es|
  {
    if es != [] {
      var t := Step(s, es[0]);
      assert |t.log| <= |s.log| + 1 && s.log <= t.log;
      RunCallsAtMostOncePerEvent(t, es[1..]);
    }
  }

  /** Exit releases without clearing the flag, so the flag stays in
      agreement with the operating system only if it was already clear. */
  lemma ShutdownKeepsInSyncIffDisarmed(s: State)
    requires InSync(s)
    ensures InSync(Shutdown(s)) <==> !s.isIdle
  {
  }

  /** Whatever happened since start-up, exiting leaves the display free to sleep. */
  lemma ExitAfterAnyRun(es: seq<Event>)
    ensures InSync(Run(Startup(), es))
    ensures !DisplayKeptOn(Shutdown(Run(Startup(), es)).log)
  {
    RunKeepsInSync(Startup(), es);
  }

  /** A tick calls the operating system only to change its position. */
  lemma TickNeverRepeatsACall(s: State, now: int)
    requires InSync(s)
    ensures OnTick(s, now).log != s.log ==> DisplayKeptOn(OnTick(s, now).log) != DisplayKeptOn(s.log)
  {
  }

  /** A second tick at the same instant changes nothing. */
  lemma TickIsIdempotent(s: State, now: int)
    ensures OnTick(OnTick(s, now), now) == OnTick(s, now)
  {
  }

  /** Two manual toggles restore the flag, having made two opposite calls. */
  lemma ManualToggleTwice(s: State)
    requires !s.inPeriodMode
    ensures ToggleManual(ToggleManual(s)).isIdle == s.isIdle
    ensures ToggleManual(ToggleManual(s)).log
      == s.log + if s.isIdle then [Allow, Prevent] else [Prevent, Allow]
  {
  }

  /** From a disarmed manual state, two toggles return to it and leave the
      operating system where it was. */
  lemma ManualToggleTwiceFromDisarmed(s: State)
    requires !s.inPeriodMode && !s.isIdle && InSync(s)
    ensures ToggleManual(ToggleManual(s)) == s.(log := s.log + [Prevent, Allow])
    ensures DisplayKeptOn(ToggleManual(ToggleManual(s)).log) == DisplayKeptOn(s.log)
  {
    LatestCallDecides(s.log + [Prevent], Allow);
    assert s.log + [Prevent] + [Allow] == s.log + [Prevent, Allow];
  }

  /** Entering period mode and then cancelling the prompt always disarms. */
  lemma EnterThenCancel(s: State, w: Window)
    ensures !ToggleScheduled(ToggleScheduled(s, Some(w)), None).isIdle
    ensures !ToggleScheduled(ToggleScheduled(s, Some(w)), None).inPeriodMode
    ensures ToggleScheduled(ToggleScheduled(s, Some(w)), None).log == s.log + [Allow]
  {
  }

  /** A day in scheduled mode: disarm by hand, accept a 09:00 to 17:00 window,
      tick at 10:00 (one Prevent), again at 10:00 (nothing), at 18:00 (one Allow). */
  lemma ScheduledDay()
    ensures var disarmed := ToggleManual(Startup());
            var scheduled := ToggleScheduled(disarmed, Some((Clock(9, 0), Clock(17, 0))));
            var morning := OnTick(scheduled, Clock(10, 0));
            var again := OnTick(morning, Clock(10, 0));
            var evening := OnTick(again, Clock(18, 0));
            scheduled.log == [Prevent, Allow]
            && morning.isIdle && morning.log == [Prevent, Allow, Prevent]
            && again == morning
            && !evening.isIdle && evening.log == [Prevent, Allow, Prevent, Allow]
  {
  }
}
