/** The countdown helpers of `src/timer-utils.ts`: the remaining-seconds
    computation shared by both countdown implementations, the interval
    fallback of `startCountdown`, and `formatSeconds`.

    Time is integer milliseconds; `Date.now()` is the `now` parameter of each
    step. The worker branch of `startCountdown` only forwards messages to the
    worker, which is modelled on its own (`TimerWorker`). */
module TimerUtils {
  import opened Common

  /** `Math.max(0, Math.ceil((endAt - now) / 1000))`: whole seconds left,
      rounded up, never negative. */
  function RemainingSeconds(endAt: int, now: int): (r: nat)
    ensures r == 0 <==> endAt - now <= 0
    ensures r > 0 ==> (r - 1) * 1000 < endAt - now <= r * 1000
  {
    var ceiling := -((now - endAt) / 1000);
    if ceiling > 0 then ceiling else 0
  }

  /** The remaining time never goes up as the clock advances. */
  lemma RemainingNonIncreasing(endAt: int, t1: int, t2: int)
    requires t1 <= t2
    ensures RemainingSeconds(endAt, t2) <= RemainingSeconds(endAt, t1)
  {
  }

  /** Right at the start of a countdown of `d` seconds, `d` seconds remain. */
  lemma RemainingAtStart(durationSeconds: nat, start: int)
    ensures RemainingSeconds(start + durationSeconds * 1000, start) == durationSeconds
  {
  }

  /** A 3-second countdown polled every second from 200 ms on shows 3, 2, 1, 0. */
  lemma ThreeSecondCountdown(start: int)
    ensures RemainingSeconds(start + 3000, start + 200) == 3
    ensures RemainingSeconds(start + 3000, start + 1200) == 2
    ensures RemainingSeconds(start + 3000, start + 2200) == 1
    ensures RemainingSeconds(start + 3000, start + 3200) == 0
  {
  }

  // ---------------------------------------------------------------------
  // The interval fallback of startCountdown
  // ---------------------------------------------------------------------

  /** A callback the countdown makes: `onTick(remaining)` or `onDone()`. */
  datatype CountdownEvent = Tick(remaining: nat) | Done

  /** Every `Done` directly follows a `Tick(0)` and ends the list. */
  ghost predicate DoneEndsAfterZero(events: seq<CountdownEvent>) {
    forall i :: 0 <= i < |events| && events[i].Done? ==>
      i == |events| - 1 && i > 0 && events[i - 1] == Tick(0)
  }

  /** The fallback countdown: an interval of 200 ms that recomputes the
      remaining time from the fixed end timestamp on every firing. `events`
      are the callbacks made so far; `active` says the interval is still
      scheduled. */
  class FallbackCountdown {
    const endAt: int
    var active: bool
    var events: seq<CountdownEvent>
    /** The time of the latest firing. */
    ghost var lastNow: int

    ghost predicate Valid()
      reads this
    {
      && DoneEndsAfterZero(events)
      && (active ==> forall i :: 0 <= i < |events| ==> events[i].Tick? && events[i].remaining > 0)
      && (forall i :: 0 <= i < |events| && events[i].Tick? ==>
            events[i].remaining >= RemainingSeconds(endAt, lastNow))
      && (forall i, j :: 0 <= i < j < |events| && events[i].Tick? && events[j].Tick? ==>
            events[j].remaining <= events[i].remaining)
    }

    /** `startCountdown` without a worker: the end is fixed now, nothing is
        reported until the interval first fires. */
    constructor(durationSeconds: int, now: int)
      ensures Valid()
      ensures endAt == now + durationSeconds * 1000
      ensures active && events == [] && lastNow == now
    {
      endAt := now + durationSeconds * 1000;
      active := true;
      events := [];
      lastNow := now;
    }

    /** One firing of the interval callback, at time `now`. The clock is
        taken not to run backwards. */
    method IntervalFired(now: int)
      requires Valid() && active && lastNow <= now
      modifies this
      ensures Valid()
      ensures var remaining := RemainingSeconds(endAt, now);
        && events == old(events) + [Tick(remaining)] + (if remaining <= 0 then [Done] else [])
        && (active <==> remaining > 0)
        && lastNow == now
    {
      RemainingNonIncreasing(endAt, lastNow, now);
      lastNow := now;
      var remaining := RemainingSeconds(endAt, now);
      events := events + [Tick(remaining)];
      if remaining <= 0 {
        active := false;
        events := events + [Done];
      }
    }

    /** The function `startCountdown` returns: `clearInterval`. */
    method Stop()
      requires Valid()
      modifies this
      ensures Valid()
      ensures !active && events == old(events) && lastNow == old(lastNow)
    {
      active := false;
    }
  }

  // ---------------------------------------------------------------------
  // formatSeconds
  // ---------------------------------------------------------------------

  /** `formatSeconds`: floored minutes, a colon, and the JavaScript remainder
      of the seconds padded to two characters. */
  function FormatSeconds(seconds: int): (r: string)
    ensures |r| >= 4
  {
    var m := seconds / 60;
    var s := JsRem(seconds, 60);
    IntToString(m) + ":" + PadStart2(IntToString(s))
  }

  /** `t` is a minutes numeral, a colon and two digits that add up to `seconds`. */
  predicate ReadsAsSeconds(t: string, seconds: int) {
    && |t| >= 4 && t[|t| - 3] == ':'
    && AllDigits(t[..|t| - 3]) && AllDigits(t[|t| - 2..])
    && DigitsValue(t[..|t| - 3]) * 60 + DigitsValue(t[|t| - 2..]) == seconds
  }

  /** For a non-negative count, the text is the minutes numeral, a colon and
      exactly two digits, and reading it back gives the count. */
  lemma FormatSecondsRoundTrip(seconds: nat)
    ensures var r := FormatSeconds(seconds);
      && r[..|r| - 3] == NatToString(seconds / 60)
      && r[|r| - 3] == ':'
      && AllDigits(r[|r| - 2..])
      && DigitsValue(r[..|r| - 3]) * 60 + DigitsValue(r[|r| - 2..]) == seconds
    ensures ReadsAsSeconds(FormatSeconds(seconds), seconds)
  {
    var q := seconds / 60;
    var rem := seconds % 60;
    assert seconds == q * 60 + rem;
    var r := FormatSeconds(seconds);
    var mins := NatToString(q);
    var secs := PadStart2(NatToString(rem));
    TwoDigits(rem);
    NatToStringValue(q);
    assert JsRem(seconds, 60) == rem;
    assert r == mins + ":" + secs;
    assert r[..|r| - 3] == mins;
    assert r[|r| - 2..] == secs;
  }

  lemma FormatSecondsExamples()
    ensures FormatSeconds(0) == "0:00"
    ensures FormatSeconds(45) == "0:45"
    ensures FormatSeconds(61) == "1:01"
    ensures FormatSeconds(90) == "1:30"
    ensures FormatSeconds(125) == "2:05"
  {
    assert NatToString(45) == "45";
    assert NatToString(30) == "30";
  }

  /** A negative count is not clamped: both parts carry the sign. */
  lemma FormatSecondsNegative()
    ensures FormatSeconds(-5) == "-1:-5"
  {
  }
}
