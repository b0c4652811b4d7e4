/** The standalone countdown of `src/components/TimerScreen.tsx`: a preset
    duration, a countdown that can be started, paused, resumed and reset,
    and a done state. The countdown it starts is the interval fallback of
    `startCountdown` (`TimerUtils.FallbackCountdown`); the stop function the
    screen keeps in `stopRef` is that countdown's `Stop`. */
module TimerScreen {
  import opened Common
  import opened TimerUtils

  datatype TimerState = Idle | Running | Paused | Done

  datatype Preset = Preset(minutes: string, seconds: int)

  const PRESETS: seq<Preset> := [
    Preset("1", 60), Preset("2", 120), Preset("3", 180), Preset("5", 300), Preset("10", 600),
    Preset("15", 900), Preset("20", 1200), Preset("25", 1500), Preset("30", 1800)
  ]

  predicate IsPreset(seconds: int) {
    exists i :: 0 <= i < |PRESETS| && PRESETS[i].seconds == seconds
  }

  /** Each preset button's caption is its length in minutes, and the
      default of five minutes is one of them. */
  lemma PresetsAreMinutes()
    ensures forall i :: 0 <= i < |PRESETS| ==>
      AllDigits(PRESETS[i].minutes) && DigitsValue(PRESETS[i].minutes) * 60 == PRESETS[i].seconds
    ensures IsPreset(300)
  {
    assert PRESETS[3].seconds == 300;
  }

  class TimerScreen {
    var duration: int
    var remaining: int
    var timerState: TimerState
    /** `stopRef.current`: the countdown whose stop function is held. */
    var stopRef: FallbackCountdown?
    /** `pausedAtRef.current`. */
    var pausedAt: Option<int>
    /** Every countdown this screen has started. */
    ghost var started: set<FallbackCountdown>

    /** A countdown runs exactly while the state is running, it is the only
        started countdown still scheduled, and `remaining` is what it last
        reported; a paused timer remembers the time it showed; the shown time
        stays between 0 and the duration. */
    ghost predicate Valid()
      reads this, started
    {
      && (stopRef != null <==> timerState == Running)
      && (stopRef != null ==>
            && stopRef in started && stopRef.Valid() && stopRef.active
            && remaining == RemainingSeconds(stopRef.endAt, stopRef.lastNow))
      && (forall c :: c in started && c.active ==> c == stopRef)
      && (pausedAt.Some? <==> timerState == Paused)
      && (pausedAt.Some? ==> pausedAt.value == remaining)
      && 0 <= remaining <= duration
    }

    /** Five minutes, idle, nothing running. */
    constructor()
      ensures Valid()
      ensures duration == 300 && remaining == 300 && timerState == Idle
      ensures stopRef == null && pausedAt.None? && started == {}
    {
      duration := 300;
      remaining := 300;
      timerState := Idle;
      stopRef := null;
      pausedAt := None;
      started := {};
    }

    /** `startTimer`: resumes from the paused time when paused, and otherwise
        runs the full duration. The start button is shown only while the
        timer is not running. */
    method StartTimer(now: int)
      requires Valid() && timerState != Running
      modifies this
      ensures Valid()
      ensures var secondsToRun := if old(timerState) == Paused && old(pausedAt).Some? then old(pausedAt).value
                                 else old(duration);
        && remaining == secondsToRun && timerState == Running && pausedAt.None?
        && duration == old(duration)
        && stopRef != null && fresh(stopRef)
        && stopRef.endAt == now + secondsToRun * 1000 && stopRef.events == []
    {
      var secondsToRun := if timerState == Paused && pausedAt.Some? then pausedAt.value else duration;
      remaining := secondsToRun;
      timerState := Running;
      pausedAt := None;
      var countdown := new FallbackCountdown(secondsToRun, now);
      RemainingAtStart(secondsToRun, now);
      stopRef := countdown;
      started := started + {countdown};
    }

    /** One firing of the running countdown's interval, with the callbacks it
        makes: `onTick` shows the seconds left, and `onDone` marks the timer
        done and drops the stop function. */
    method CountdownFired(now: int)
      requires Valid() && timerState == Running && stopRef.lastNow <= now
      modifies this, stopRef
      ensures Valid()
      ensures var r := RemainingSeconds(old(stopRef).endAt, now);
        && remaining == r && r <= old(remaining)
        && (r == 0 ==> timerState == TimerState.Done && stopRef == null && !old(stopRef).active)
        && (r > 0 ==> timerState == Running && stopRef == old(stopRef))
        && duration == old(duration) && pausedAt.None? && started == old(started)
    {
      var countdown := stopRef;
      var before := |countdown.events|;
      RemainingNonIncreasing(countdown.endAt, countdown.lastNow, now);
      countdown.IntervalFired(now);
      var tick := countdown.events[before];
      remaining := tick.remaining;
      if |countdown.events| > before + 1 {
        timerState := TimerState.Done;
        stopRef := null;
      }
    }

    /** `pauseTimer`: the countdown is stopped and its stop function dropped,
        and the shown time is remembered. */
    method PauseTimer()
      requires Valid()
      modifies this, stopRef
      ensures Valid()
      ensures old(stopRef) != null ==> !old(stopRef).active
      ensures stopRef == null && timerState == Paused && pausedAt == Some(old(remaining))
      ensures remaining == old(remaining) && duration == old(duration) && started == old(started)
    {
      if stopRef != null {
        stopRef.Stop();
        stopRef := null;
      }
      pausedAt := Some(remaining);
      timerState := Paused;
    }

    /** `resetTimer`: the countdown is stopped and the full duration shown. */
    method ResetTimer()
      requires Valid()
      modifies this, stopRef
      ensures Valid()
      ensures old(stopRef) != null ==> !old(stopRef).active
      ensures stopRef == null && timerState == Idle && pausedAt.None?
      ensures remaining == old(duration) && duration == old(duration) && started == old(started)
    {
      if stopRef != null {
        stopRef.Stop();
        stopRef := null;
      }
      pausedAt := None;
      remaining := duration;
      timerState := Idle;
    }

    /** `selectPreset`: ignored while running; otherwise the preset becomes
        the duration and the idle timer shows it. */
    method SelectPreset(seconds: int)
      requires Valid() && IsPreset(seconds)
      modifies this
      ensures Valid()
      ensures old(timerState) == Running ==>
        && duration == old(duration) && remaining == old(remaining) && timerState == Running
        && pausedAt == old(pausedAt) && stopRef == old(stopRef)
      ensures old(timerState) != Running ==>
        && duration == seconds && remaining == seconds && timerState == Idle
        && pausedAt.None? && stopRef == null
      ensures started == old(started)
    {
      if timerState == Running {
        return;
      }
      duration := seconds;
      remaining := seconds;
      pausedAt := None;
      timerState := Idle;
    }

    /** The unmount cleanup: a running countdown is stopped. */
    method Unmount()
      requires Valid()
      modifies stopRef
      ensures forall c :: c in started ==> !c.active
    {
      if stopRef != null {
        stopRef.Stop();
      }
    }
  }
}
