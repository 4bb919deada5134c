/** IdleBuster's tray-application context: the four fields of the state
    machine, the presentation state it updates beside them, and its event
    handlers as methods. Each handler is proved to follow the matching
    transition of module Machine. */
module IdleBuster {
  import opened Power
  import opened Period
  import opened Machine

  /** The two tray icons. */
  datatype Icon = IdleArm | IdleDisarm

  class Context {
    var isIdle: bool
    var inPeriodMode: bool
    var durationStart: int
    var durationEnd: int
    /** Every call made to SetThreadExecutionState, oldest first. */
    var log: seq<PowerCall>

    // presentation: the check marks of the two menu items, the tray icon
    var preventIdleChecked: bool
    var periodChecked: bool
    var icon: Icon
    var trayVisible: bool

    /** The state-machine part of the object. */
    function Core(): State
      reads this
    {
      State(isIdle, inPeriodMode, durationStart, durationEnd, log)
    }

    /** While the application runs: the flag agrees with the operating system
        and the tray icon shows the flag. */
    predicate Valid()
      reads this
    {
      InSync(Core()) && icon == (if isIdle then IdleArm else IdleDisarm)
    }

    /** The menu's check marks show the mode, and "Prevent Idle" is checked
        exactly when idle prevention is asserted by hand. */
    predicate MenuShowsState()
      reads this
    {
      periodChecked == inPeriodMode && preventIdleChecked == (isIdle && !inPeriodMode)
    }

    /** Construction ends with the toggle the constructor makes, so the
        application starts armed, having asked once to keep the display on. */
    constructor ()
      ensures Valid() && MenuShowsState()
      ensures Core() == Startup()
      ensures isIdle && !inPeriodMode && log == [Prevent]
      ensures durationStart == 0 && durationEnd == 0
      ensures preventIdleChecked && !periodChecked && icon == IdleArm && trayVisible
    {
      isIdle, inPeriodMode := false, false;
      durationStart, durationEnd := 0, 0;
      log := [];
      preventIdleChecked, periodChecked := false, false;
      icon, trayVisible := IdleDisarm, true;
      new;
      ToggleIdle();
    }

    method PreventMonitorPowerdown()
      modifies this`log
      ensures log == old(log) + [Prevent]
    {
      log := log + [Prevent];
    }

    method AllowMonitorPowerdown()
      modifies this`log
      ensures log == old(log) + [Allow]
    {
      log := log + [Allow];
    }

    /** The single flip of the flag, with the one call that matches its new value. */
    method ToggleIdleImpl()
      modifies this`isIdle, this`log, this`icon
      ensures Core() == ToggleImpl(old(Core()))
      ensures isIdle == !old(isIdle)
      ensures log == old(log) + [if old(isIdle) then Allow else Prevent]
      ensures Valid()
    {
      if isIdle {
        icon := IdleDisarm;
        AllowMonitorPowerdown();
      } else {
        icon := IdleArm;
        PreventMonitorPowerdown();
      }
      isIdle := !isIdle;
    }

    /** The "Prevent Idle" menu item. Leaving period mode clears the flag
        without a call, so the flip after it always asserts. */
    method ToggleIdle()
      modifies this`isIdle, this`inPeriodMode, this`log, this`icon,
               this`preventIdleChecked, this`periodChecked
      ensures Core() == ToggleManual(old(Core()))
      ensures !inPeriodMode
      ensures old(inPeriodMode) ==> isIdle && log == old(log) + [Prevent]
      ensures !old(inPeriodMode) ==> isIdle == !old(isIdle)
      ensures log == old(log) + [if isIdle then Prevent else Allow]
      ensures durationStart == old(durationStart) && durationEnd == old(durationEnd)
      ensures preventIdleChecked == isIdle
      ensures periodChecked == (old(periodChecked) && !old(inPeriodMode))
      ensures Valid()
      ensures old(MenuShowsState()) ==> MenuShowsState()
    {
      if inPeriodMode {
        inPeriodMode := false;
        isIdle := false;
        periodChecked := false;
      }
      ToggleIdleImpl();
      preventIdleChecked := isIdle;
    }

    /** The "Prevent During Period" menu item, with `answer` the result of the
        prompt for a window (None when it was dismissed). Accepting stores the
        window and calls nothing; cancelling, from any state, releases. */
    method ToggleIdleDuringPeriod(answer: Option<Window>)
      modifies this`isIdle, this`inPeriodMode, this`durationStart, this`durationEnd,
               this`log, this`icon, this`preventIdleChecked, this`periodChecked
      ensures Core() == ToggleScheduled(old(Core()), answer)
      ensures inPeriodMode == answer.Some? && periodChecked == answer.Some?
      ensures (durationStart, durationEnd) == if answer.Some? then answer.value else (MinValue, MinValue)
      ensures answer.Some? ==> isIdle == old(isIdle) && log == old(log) && icon == old(icon)
      ensures answer.Some? ==> !preventIdleChecked
      ensures answer.None? ==> !isIdle && log == old(log) + [Allow] && icon == IdleDisarm
      ensures answer.None? ==> preventIdleChecked == old(preventIdleChecked)
      ensures old(Valid()) ==> Valid()
    {
      var (accepted, duration) := PromptResult(answer);
      inPeriodMode := accepted;
      var (start, end) := duration;
      durationStart := start;
      durationEnd := end;
      periodChecked := inPeriodMode;
      if inPeriodMode {
        preventIdleChecked := false;
      } else {
        isIdle := true;
        ToggleIdleImpl();
      }
    }

    /** ToggleIdleDuringPeriod with the "Prevent Idle" check mark cleared on
        cancel too, so that the menu keeps showing the state. */
    method ToggleIdleDuringPeriodCorrected(answer: Option<Window>)
      modifies this`isIdle, this`inPeriodMode, this`durationStart, this`durationEnd,
               this`log, this`icon, this`preventIdleChecked, this`periodChecked
      ensures Core() == ToggleScheduled(old(Core()), answer)
      ensures inPeriodMode == answer.Some? && periodChecked == answer.Some?
      ensures (durationStart, durationEnd) == if answer.Some? then answer.value else (MinValue, MinValue)
      ensures answer.Some? ==> isIdle == old(isIdle) && log == old(log) && icon == old(icon)
      ensures answer.None? ==> !isIdle && log == old(log) + [Allow] && icon == IdleDisarm
      ensures !preventIdleChecked
      ensures old(Valid()) ==> Valid()
      ensures MenuShowsState()
    {
      var (accepted, duration) := PromptResult(answer);
      inPeriodMode := accepted;
      var (start, end) := duration;
      durationStart := start;
      durationEnd := end;
      periodChecked := inPeriodMode;
      if inPeriodMode {
        preventIdleChecked := false;
      } else {
        isIdle := true;
        ToggleIdleImpl();
        preventIdleChecked := isIdle;
      }
    }

    /** One tick of the one-second timer at time of day `now`. Outside period
        mode nothing happens; inside, the flag is brought in line with the
        window with at most one call. */
    method OnTimerTick(now: int)
      modifies this`isIdle, this`log, this`icon
      ensures Core() == OnTick(old(Core()), now)
      ensures !old(inPeriodMode) ==> isIdle == old(isIdle) && log == old(log) && icon == old(icon)
      ensures old(inPeriodMode) ==> isIdle == IsInPeriod(durationStart, durationEnd, now)
      ensures log == old(log) || log == old(log) + [if isIdle then Prevent else Allow]
      ensures old(Valid()) ==> Valid()
      ensures old(MenuShowsState()) ==> MenuShowsState()
    {
      if !inPeriodMode { return; }

      if IsInPeriod(durationStart, durationEnd, now) {
        if isIdle { return; }
      } else {
        if !isIdle { return; }
      }

      ToggleIdleImpl();
    }

    /** The application-exit handler: hide the tray icon and release idle
        prevention once, whatever the state. */
    method OnApplicationExit()
      modifies this`log, this`icon, this`trayVisible
      ensures Core() == Shutdown(old(Core()))
      ensures log == old(log) + [Allow]
      ensures !DisplayKeptOn(log)
      ensures !trayVisible && icon == IdleDisarm
    {
      trayVisible := false;
      icon := IdleDisarm;
      AllowMonitorPowerdown();
    }
  }

  /** Cancelling the period prompt right after start-up releases idle
      prevention but leaves "Prevent Idle" checked. */
  method CancelledPromptLeavesPreventIdleChecked() returns (c: Context)
    ensures !c.isIdle && !c.inPeriodMode && c.preventIdleChecked
    ensures !c.MenuShowsState()
  {
    c := new Context();
    c.ToggleIdleDuringPeriod(None);
  }

  /** A day in scheduled mode on the object: disarm by hand, accept 09:00 to
      17:00, tick at 10:00, 10:00 and 18:00. The menu shows the state throughout. */
  method ScheduledDay() returns (c: Context)
    ensures c.log == [Prevent, Allow, Prevent, Allow]
    ensures c.inPeriodMode && !c.isIdle && c.Valid() && c.MenuShowsState()
  {
    c := new Context();
    c.ToggleIdle();
    c.ToggleIdleDuringPeriodCorrected(Some((Clock(9, 0), Clock(17, 0))));
    assert c.log == [Prevent, Allow];
    c.OnTimerTick(Clock(10, 0));
    assert c.isIdle && c.log == [Prevent, Allow, Prevent];
    c.OnTimerTick(Clock(10, 0));
    assert c.log == [Prevent, Allow, Prevent];
    c.OnTimerTick(Clock(18, 0));
  }
}
