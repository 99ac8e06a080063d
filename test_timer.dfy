/** The mock test's countdown (components/ui/TestTimer.tsx): the remaining seconds, the tick that
    moves them down once a second while the timer is not paused, the "h:mm:ss" / "m:ss" display
    and the low-time warning. */
module TestTimer {
  import opened Wrappers
  import opened Text
  import opened Clock

  // ---------------------------------------------------------------- the tick

  /** What the state updater returns for the previous value `prev`. */
  function TickValue(prev: int): int {
    if prev <= 1 then 0 else prev - 1
  }

  /** A tick takes one second off and stops at zero: it is never negative, and it loses exactly
      one second whenever there is more than one left. */
  lemma TickStep(prev: int)
    ensures TickValue(prev) >= 0
    ensures prev >= 1 ==> TickValue(prev) == prev - 1
    ensures prev <= 1 ==> TickValue(prev) == 0
  {
  }

  /** The remaining time after `n` ticks of a running timer. */
  function Ticks(prev: int, n: nat): int
    decreases n
  {
    if n == 0 then prev else Ticks(TickValue(prev), n - 1)
  }

  /** `n` ticks from a non-negative time leave the time less `n` seconds, or zero. */
  lemma {:induction false} TicksCount(prev: int, n: nat)
    requires prev >= 0
    ensures Ticks(prev, n) == if prev - n > 0 then prev - n else 0
  {
    if n > 0 {
      TicksCount(TickValue(prev), n - 1);
    }
  }

  /** A timer of `total` seconds shows one second left after `total - 1` ticks, so the tick that
      calls `onTimeUp` is the `total`-th. */
  lemma TimeUpOnLastTick(total: int)
    requires total >= 1
    ensures Ticks(total, total - 1) == 1
    ensures Ticks(total, total) == 0
  {
    TicksCount(total, total - 1);
    TicksCount(total, total);
  }

  /** The component's state: the remaining seconds, the `isPaused` prop the effect last saw,
      whether an interval is set, and how often `onTimeUp` has been called. */
  class Countdown {
    var remainingSeconds: int
    var paused: bool
    var running: bool
    var timeUpCalls: nat

    /** An interval is only ever set while the timer is not paused. */
    ghost predicate Valid()
      reads this
    {
      running ==> !paused
    }

    /** First render: the time starts at `totalSeconds`; the effect sets an interval unless the
        timer starts paused. */
    constructor(totalSeconds: int, isPaused: bool)
      ensures Valid()
      ensures remainingSeconds == totalSeconds && paused == isPaused
      ensures running == !isPaused && timeUpCalls == 0
    {
      remainingSeconds := totalSeconds;
      paused := isPaused;
      running := !isPaused;
      timeUpCalls := 0;
    }

    /** A new `isPaused`: when it differs from the last one the effect's cleanup clears the
        interval and the effect runs again, setting a new interval unless paused. The
        remaining time is untouched either way. */
    method SetPaused(isPaused: bool)
      requires Valid()
      modifies this
      ensures Valid()
      ensures paused == isPaused
      ensures running == if isPaused == old(paused) then old(running) else !isPaused
      ensures remainingSeconds == old(remainingSeconds) && timeUpCalls == old(timeUpCalls)
    {
      if isPaused != paused {
        running := false;
        paused := isPaused;
        if !isPaused {
          running := true;
        }
      }
    }

    /** One firing of the interval. With one second or less left the interval is cleared,
        `onTimeUp` is called and the time becomes 0; otherwise one second comes off. Without
        an interval (paused, or after time-up) nothing happens. */
    method Tick()
      requires Valid()
      modifies this
      ensures Valid()
      ensures old(running) ==> remainingSeconds == TickValue(old(remainingSeconds)) && remainingSeconds >= 0
      ensures old(running) ==> running == (old(remainingSeconds) > 1)
      ensures timeUpCalls == old(timeUpCalls) + if old(running) && old(remainingSeconds) <= 1 then 1 else 0
      ensures !old(running) ==> remainingSeconds == old(remainingSeconds) && !running
      ensures paused == old(paused)
    {
      if running {
        var prev := remainingSeconds;
        if prev <= 1 {
          running := false;
          timeUpCalls := timeUpCalls + 1;
          remainingSeconds := 0;
        } else {
          remainingSeconds := prev - 1;
        }
      }
    }

    /** A new `onTimeUp` identity (a parent that passes a fresh callback on each render): the
        effect's cleanup clears the interval and the effect runs again, setting a new interval
        unless paused, even when the time is already up. */
    method Restart()
      requires Valid()
      modifies this
      ensures Valid()
      ensures running == !paused
      ensures paused == old(paused) && remainingSeconds == old(remainingSeconds)
      ensures timeUpCalls == old(timeUpCalls)
    {
      running := !paused;
    }
  }

  /** Once the time is up, a re-run of the effect lets the next firing call `onTimeUp` again:
      a one-second countdown, fired, restarted and fired again, has called it twice. */
  method TimeUpAgainAfterRestart() returns (calls: nat)
    ensures calls == 2
  {
    var timer := new Countdown(1, false);
    timer.Tick();
    assert timer.remainingSeconds == 0 && timer.timeUpCalls == 1;
    timer.Restart();
    timer.Tick();
    calls := timer.timeUpCalls;
  }

  // ---------------------------------------------------------------- the display

  /** `formatTime`: "h:mm:ss" with an hours field, "m:ss" without, minutes and seconds padded
      to two digits where they follow a ':'. */
  function FormatTime(seconds: int): string {
    var (hours, minutes, secs) := ClockFields(seconds);
    if hours > 0 then IntStr(hours) + ":" + PadStart2(IntStr(minutes)) + ":" + PadStart2(IntStr(secs))
    else IntStr(minutes) + ":" + PadStart2(IntStr(secs))
  }

  /** The display has an hours field exactly from one hour on; every padded field has two
      digits and reads back as its field. */
  lemma FormatTimeLayout(seconds: int)
    requires seconds >= 0
    ensures var (h, m, s) := ClockFields(seconds);
      && (h > 0 <==> seconds >= 3600)
      && |PadStart2(NatStr(m))| == 2 && AllDigits(PadStart2(NatStr(m))) && DecimalValue(PadStart2(NatStr(m))) == m
      && |PadStart2(NatStr(s))| == 2 && AllDigits(PadStart2(NatStr(s))) && DecimalValue(PadStart2(NatStr(s))) == s
      && FormatTime(seconds) == if h > 0 then NatStr(h) + ":" + PadStart2(NatStr(m)) + ":" + PadStart2(NatStr(s))
                                else NatStr(m) + ":" + PadStart2(NatStr(s))
  {
    FieldsMakeUp(seconds);
    var (h, m, s) := ClockFields(seconds);
    Pad2Digits(m);
    Pad2Digits(s);
  }

  /** Reading the display back gives the remaining seconds: nothing is lost or misplaced. */
  lemma FormatTimeReadsBack(seconds: int)
    requires seconds >= 0
    ensures ReadClock(FormatTime(seconds)) == Some(seconds)
  {
    FieldsMakeUp(seconds);
    FormatTimeLayout(seconds);
    var (h, m, s) := ClockFields(seconds);
    if h > 0 {
      ReadHoursMinutesSeconds(h, m, s);
    } else {
      ReadMinutesSeconds(m, s);
    }
  }

  /** `isLowTime`: the red display. */
  predicate IsLowTime(remainingSeconds: int) {
    remainingSeconds < 300
  }

  /** The display turns red exactly when it shows no hours and fewer than five minutes. */
  lemma LowTimeUnderFiveMinutes(seconds: int)
    requires seconds >= 0
    ensures IsLowTime(seconds) <==> ClockFields(seconds).0 == 0 && ClockFields(seconds).1 < 5
  {
    FieldsMakeUp(seconds);
  }
}
