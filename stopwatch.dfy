/** The stopwatch of `src/components/StopwatchScreen.tsx`: elapsed-time
    accumulation over start/stop, laps, and the two time formats. Time is
    integer milliseconds; `performance.now()` is the `now` parameter, and an
    animation frame firing is a call of `Tick`. */
module Stopwatch {
  import opened Common

  // ---------------------------------------------------------------------
  // Formatting
  // ---------------------------------------------------------------------

  /** Whole minutes, the seconds within the minute and the hundredths within
      the second, computed as the screen does: floored divisions and
      JavaScript remainders. */
  datatype Clock = Clock(minutes: int, seconds: int, centiseconds: int)

  /** The milliseconds shown by a minutes, seconds and hundredths reading. */
  function TimeValue(minutes: int, seconds: int, centiseconds: int): int {
    minutes * 60000 + seconds * 1000 + centiseconds * 10
  }

  function ClockOf(ms: int): (r: Clock)
    ensures ms >= 0 ==> 0 <= r.seconds < 60 && 0 <= r.centiseconds < 100 && r.minutes >= 0
    ensures ms >= 0 ==> TimeValue(r.minutes, r.seconds, r.centiseconds) == ms - ms % 10
    ensures ms >= 0 ==> r.minutes == ms / 60000
  {
    var totalSeconds := ms / 1000;
    var c := Clock(totalSeconds / 60, JsRem(totalSeconds, 60), JsRem(ms, 1000) / 10);
    if ms >= 0 then
      ClockArithmetic(ms);
      MinutesArithmetic(ms);
      c
    else c
  }

  lemma ClockArithmetic(ms: nat)
    ensures var t := ms / 1000;
      (t / 60) * 60000 + (t % 60) * 1000 + ((ms % 1000) / 10) * 10 == ms - ms % 10
  {
    var t := ms / 1000;
    var rest := ms % 1000;
    assert ms == t * 1000 + rest;
    assert t == (t / 60) * 60 + t % 60;
    assert rest == (rest / 10) * 10 + rest % 10;
    assert ms == t * 1000 + (rest / 10) * 10 + rest % 10;
    assert (t * 1000 + (rest / 10) * 10 + rest % 10) % 10 == rest % 10;
  }

  lemma MinutesArithmetic(ms: nat)
    ensures (ms / 1000) / 60 == ms / 60000
  {
    var t := ms / 1000;
    var m := t / 60;
    assert ms == m * 60000 + (t % 60) * 1000 + ms % 1000;
    assert 0 <= (t % 60) * 1000 + ms % 1000 < 60000;
  }

  /** `formatTime`: `MM:SS.cc`, minutes padded to two digits. */
  function FormatTime(ms: int): (r: string)
    ensures |r| >= 8
  {
    TimeText(ClockOf(ms))
  }

  function TimeText(c: Clock): string {
    PadStart2(IntToString(c.minutes)) + ":" + PadStart2(IntToString(c.seconds)) + "."
      + PadStart2(IntToString(c.centiseconds))
  }

  /** `formatLapTime`: `M:SS.cc` with unpadded minutes, or `S.cc` under a minute. */
  function FormatLapTime(ms: int): (r: string)
    ensures |r| >= 4
  {
    LapText(ClockOf(ms))
  }

  function LapText(c: Clock): string {
    if c.minutes > 0 then
      IntToString(c.minutes) + ":" + PadStart2(IntToString(c.seconds)) + "." + PadStart2(IntToString(c.centiseconds))
    else
      IntToString(c.seconds) + "." + PadStart2(IntToString(c.centiseconds))
  }

  /** A padded numeral is at least two digits and worth its number. */
  lemma PaddedValue(n: nat)
    ensures |PadStart2(NatToString(n))| >= 2
    ensures AllDigits(PadStart2(NatToString(n)))
    ensures DigitsValue(PadStart2(NatToString(n))) == n
  {
    if n < 100 {
      TwoDigits(n);
    } else {
      assert NatToString(n) == NatToString(n / 10) + [DigitChar(n % 10)];
      NatToStringValue(n);
    }
  }

  /** Reads `M:SS.cc` back: minute digits, a colon, two second digits below
      60, a point and two digits of hundredths give the milliseconds they
      show; any other text gives nothing. */
  function ParseMinutesText(r: string): (t: Option<int>)
    ensures t.Some? ==> t.value >= 0 && |r| >= 7
  {
    if |r| >= 7 && r[|r| - 6] == ':' && r[|r| - 3] == '.'
       && AllDigits(r[..|r| - 6]) && AllDigits(r[|r| - 5..|r| - 3]) && AllDigits(r[|r| - 2..])
       && DigitsValue(r[|r| - 5..|r| - 3]) < 60
    then Some(TimeValue(DigitsValue(r[..|r| - 6]), DigitsValue(r[|r| - 5..|r| - 3]), DigitsValue(r[|r| - 2..])))
    else None
  }

  /** Reads `S.cc` back: second digits, a point and two digits of hundredths. */
  function ParseSecondsText(r: string): (t: Option<int>)
    ensures t.Some? ==> t.value >= 0 && ':' !in r
  {
    if |r| >= 4 && r[|r| - 3] == '.' && AllDigits(r[..|r| - 3]) && AllDigits(r[|r| - 2..])
    then
      assert forall i :: 0 <= i < |r| - 3 ==> r[i] == r[..|r| - 3][i];
      Some(TimeValue(0, DigitsValue(r[..|r| - 3]), DigitsValue(r[|r| - 2..])))
    else None
  }

  /** Reads a stopwatch display back: the minutes form with at least two
      minute digits. */
  function ParseTime(r: string): Option<int> {
    if |r| >= 8 then ParseMinutesText(r) else None
  }

  /** Reads a lap display back: the minutes form, or else the seconds form. */
  function ParseLapTime(r: string): Option<int> {
    if ParseMinutesText(r).Some? then ParseMinutesText(r) else ParseSecondsText(r)
  }

  /** `r` is `a`, a colon, two characters `b`, a point and two characters `c`. */
  predicate MinutesLayout(r: string, a: string, b: string, c: string) {
    && |b| == 2 && |c| == 2 && |r| == |a| + 6
    && r[..|r| - 6] == a && r[|r| - 6] == ':' && r[|r| - 5..|r| - 3] == b
    && r[|r| - 3] == '.' && r[|r| - 2..] == c
  }

  /** `r` is `a`, a point and two characters `c`. */
  predicate SecondsLayout(r: string, a: string, c: string) {
    && |c| == 2 && |r| == |a| + 3
    && r[..|r| - 3] == a && r[|r| - 3] == '.' && r[|r| - 2..] == c
  }

  lemma MinutesFields(a: string, b: string, c: string)
    requires |b| == 2 && |c| == 2
    ensures MinutesLayout(a + ":" + b + "." + c, a, b, c)
  {
  }

  lemma SecondsFields(a: string, c: string)
    requires |c| == 2
    ensures SecondsLayout(a + "." + c, a, c)
  {
  }

  /** `s` is a numeral of `n`: at least one digit, worth `n`. */
  predicate Numeral(s: string, n: int) {
    |s| >= 1 && AllDigits(s) && DigitsValue(s) == n
  }

  /** `s` is a two-digit numeral of `n`. */
  predicate TwoDigitNumeral(s: string, n: int) {
    |s| == 2 && Numeral(s, n)
  }

  lemma NatNumeral(n: nat)
    ensures Numeral(NatToString(n), n)
  {
    NatToStringValue(n);
  }

  lemma PaddedNumeral(n: nat)
    ensures Numeral(PadStart2(NatToString(n)), n) && |PadStart2(NatToString(n))| >= 2
    ensures n < 100 ==> TwoDigitNumeral(PadStart2(NatToString(n)), n)
  {
    PaddedValue(n);
    if n < 100 {
      TwoDigits(n);
    }
  }

  /** A text laid out as numerals of `m`, `s` and `cs` around a colon and a
      point reads back as that reading. */
  lemma ParseMinutesParts(r: string, a: string, b: string, c: string, m: int, s: int, cs: int)
    requires MinutesLayout(r, a, b, c) && Numeral(a, m) && TwoDigitNumeral(b, s) && TwoDigitNumeral(c, cs)
    requires s < 60
    ensures ParseMinutesText(r) == Some(TimeValue(m, s, cs))
  {
  }

  /** A text laid out as a numeral of one or two digits of `s`, a point and
      a two-digit numeral of `cs` reads back as that reading. */
  lemma ParseSecondsParts(r: string, a: string, c: string, s: int, cs: int)
    requires SecondsLayout(r, a, c) && Numeral(a, s) && |a| <= 2 && TwoDigitNumeral(c, cs)
    ensures ParseSecondsText(r) == Some(TimeValue(0, s, cs))
    ensures ParseMinutesText(r).None?
  {
  }

  /** The stopwatch text of a clock reading reads back as that reading. */
  lemma TimeTextReads(c: Clock)
    requires c.minutes >= 0 && 0 <= c.seconds < 60 && 0 <= c.centiseconds < 100
    ensures ParseTime(TimeText(c)) == Some(TimeValue(c.minutes, c.seconds, c.centiseconds))
  {
    var mm := PadStart2(NatToString(c.minutes));
    var ss := PadStart2(NatToString(c.seconds));
    var cc := PadStart2(NatToString(c.centiseconds));
    PaddedNumeral(c.minutes);
    PaddedNumeral(c.seconds);
    PaddedNumeral(c.centiseconds);
    MinutesFields(mm, ss, cc);
    assert TimeText(c) == mm + ":" + ss + "." + cc;
    ParseMinutesParts(TimeText(c), mm, ss, cc, c.minutes, c.seconds, c.centiseconds);
  }

  /** The lap text of a clock reading from a minute on reads back as that
      reading and has a minutes part. */
  lemma LapTextReadsMinutes(c: Clock)
    requires c.minutes > 0 && 0 <= c.seconds < 60 && 0 <= c.centiseconds < 100
    ensures ParseLapTime(LapText(c)) == Some(TimeValue(c.minutes, c.seconds, c.centiseconds))
    ensures ':' in LapText(c)
  {
    var mins := NatToString(c.minutes);
    var ss := PadStart2(NatToString(c.seconds));
    var cc := PadStart2(NatToString(c.centiseconds));
    NatNumeral(c.minutes);
    PaddedNumeral(c.seconds);
    PaddedNumeral(c.centiseconds);
    MinutesFields(mins, ss, cc);
    assert LapText(c) == mins + ":" + ss + "." + cc;
    ParseMinutesParts(LapText(c), mins, ss, cc, c.minutes, c.seconds, c.centiseconds);
  }

  /** The lap text of a clock reading under a minute reads back as that
      reading and has no minutes part. */
  lemma LapTextReadsSeconds(c: Clock)
    requires c.minutes == 0 && 0 <= c.seconds < 60 && 0 <= c.centiseconds < 100
    ensures ParseLapTime(LapText(c)) == Some(TimeValue(c.minutes, c.seconds, c.centiseconds))
    ensures ':' !in LapText(c)
  {
    var secs := NatToString(c.seconds);
    var cc := PadStart2(NatToString(c.centiseconds));
    NatNumeral(c.seconds);
    PaddedNumeral(c.centiseconds);
    SecondsFields(secs, cc);
    assert LapText(c) == secs + "." + cc;
    ParseSecondsParts(LapText(c), secs, cc, c.seconds, c.centiseconds);
  }

  /** The stopwatch display of a non-negative time reads back as the time
      truncated to hundredths. */
  lemma FormatTimeRoundTrip(ms: nat)
    ensures ParseTime(FormatTime(ms)) == Some(ms - ms % 10)
  {
    var c := ClockOf(ms);
    TimeTextReads(c);
    ReadsAs(FormatTime(ms), TimeText(c), ms - ms % 10, TimeValue(c.minutes, c.seconds, c.centiseconds));
  }

  /** Equal texts read back alike. */
  lemma ReadsAs(t: string, u: string, v: int, w: int)
    requires t == u && v == w && ParseTime(u) == Some(w)
    ensures ParseTime(t) == Some(v)
  {
  }

  /** The lap display of a non-negative time reads back as the time truncated
      to hundredths; it has a minutes part exactly from one minute on. */
  lemma FormatLapTimeRoundTrip(ms: nat)
    ensures ParseLapTime(FormatLapTime(ms)) == Some(ms - ms % 10)
    ensures ':' in FormatLapTime(ms) <==> ms >= 60000
  {
    var c := ClockOf(ms);
    if c.minutes > 0 {
      LapTextReadsMinutes(c);
    } else {
      LapTextReadsSeconds(c);
    }
  }

  lemma FormatTimeExamples()
    ensures FormatTime(0) == "00:00.00"
    ensures FormatTime(61234) == "01:01.23"
  {
    assert ClockOf(0) == Clock(0, 0, 0);
    assert ClockOf(61234) == Clock(1, 1, 23);
    assert NatToString(23) == "23";
  }

  lemma FormatLapTimeExamples()
    ensures FormatLapTime(5430) == "5.43"
    ensures FormatLapTime(65430) == "1:05.43"
  {
    assert ClockOf(5430) == Clock(0, 5, 43);
    assert ClockOf(65430) == Clock(1, 5, 43);
    assert NatToString(43) == "43";
  }

  // ---------------------------------------------------------------------
  // Laps
  // ---------------------------------------------------------------------

  /** A lap: its number, the total elapsed time at the lap, and the time
      since the previous lap. */
  datatype Lap = Lap(number: nat, time: int, delta: int)

  /** The time of the lap taken before lap `i` of a newest-first list, and 0
      for the first lap. */
  function PreviousTime(laps: seq<Lap>, i: nat): int
    requires i < |laps|
  {
    if i + 1 < |laps| then laps[i + 1].time else 0
  }

  /** The list of laps, newest first: numbered n down to 1, each delta the
      time since the lap before it. */
  ghost predicate Chained(laps: seq<Lap>) {
    forall i :: 0 <= i < |laps| ==>
      && laps[i].number == |laps| - i
      && laps[i].delta == laps[i].time - PreviousTime(laps, i)
  }

  /** The laps were taken at non-decreasing times. */
  ghost predicate InTimeOrder(laps: seq<Lap>) {
    forall i, j :: 0 <= i < j < |laps| ==> laps[j].time <= laps[i].time
  }

  /** `lap`: a new lap at the elapsed time, put in front. */
  function AddLap(laps: seq<Lap>, elapsed: int): (r: seq<Lap>)
    ensures Chained(laps) ==> Chained(r)
    ensures InTimeOrder(laps) && (|laps| > 0 ==> laps[0].time <= elapsed) ==> InTimeOrder(r)
    ensures |r| == |laps| + 1 && r[1..] == laps && r[0].time == elapsed
  {
    var lastLapTime := if |laps| > 0 then laps[0].time else 0;
    [Lap(|laps| + 1, elapsed, elapsed - lastLapTime)] + laps
  }

  function SumDeltas(laps: seq<Lap>): int {
    if |laps| == 0 then 0 else laps[0].delta + SumDeltas(laps[1..])
  }

  /** The deltas of a chained list add up to the newest lap's time. */
  lemma {:induction false} DeltasSumToTime(laps: seq<Lap>)
    requires Chained(laps)
    ensures SumDeltas(laps) == if |laps| == 0 then 0 else laps[0].time
  {
    if |laps| > 0 {
      var tail := laps[1..];
      assert Chained(tail) by {
        forall i | 0 <= i < |tail|
          ensures tail[i].number == |tail| - i
          ensures tail[i].delta == tail[i].time - PreviousTime(tail, i)
        {
          assert tail[i] == laps[i + 1];
          if i + 1 < |tail| {
            assert tail[i + 1] == laps[i + 2];
          }
        }
      }
      DeltasSumToTime(tail);
    }
  }

  /** Laps taken at non-decreasing times never have a negative delta. */
  lemma DeltasNonNegative(laps: seq<Lap>)
    requires Chained(laps) && InTimeOrder(laps) && (|laps| > 0 ==> laps[|laps| - 1].time >= 0)
    ensures forall i :: 0 <= i < |laps| ==> laps[i].delta >= 0
  {
    forall i | 0 <= i < |laps| ensures laps[i].delta >= 0 {
      if i + 1 < |laps| {
        assert laps[i + 1].time <= laps[i].time;
      } else {
        assert laps[i].delta == laps[i].time;
      }
    }
  }

  // ---------------------------------------------------------------------
  // The stopwatch
  // ---------------------------------------------------------------------

  class Stopwatch {
    var elapsed: int
    var isRunning: bool
    var laps: seq<Lap>
    /** `startTimeRef.current`. */
    var startTime: Option<int>
    /** `accumulatedRef.current`: time from the runs already stopped. */
    var accumulated: int
    /** `frameRef.current != null`: an animation frame is requested. */
    var frameLive: bool
    /** The latest clock reading seen. */
    ghost var lastNow: int

    /** Running, a start time and a requested frame go together; the shown
        time never exceeds the time actually run; the laps are chained, in
        time order and not after the shown time. */
    ghost predicate Valid()
      reads this
    {
      && (isRunning <==> startTime.Some?)
      && (frameLive <==> isRunning)
      && (startTime.Some? ==> startTime.value <= lastNow)
      && 0 <= accumulated
      && 0 <= elapsed <= accumulated + (if startTime.Some? then lastNow - startTime.value else 0)
      && Chained(laps) && InTimeOrder(laps)
      && (|laps| > 0 ==> 0 <= laps[|laps| - 1].time && laps[0].time <= elapsed)
    }

    constructor(now: int)
      ensures Valid()
      ensures elapsed == 0 && !isRunning && laps == [] && startTime.None? && accumulated == 0 && !frameLive
    {
      elapsed := 0;
      isRunning := false;
      laps := [];
      startTime := None;
      accumulated := 0;
      frameLive := false;
      lastNow := now;
    }

    /** An animation frame: while running, the shown time is the accumulated
        time plus the current run; the next frame is requested. */
    method Tick(now: int)
      requires Valid() && frameLive && lastNow <= now
      modifies this
      ensures Valid()
      ensures startTime.Some? ==> elapsed == accumulated + (now - startTime.value)
      ensures elapsed >= old(elapsed)
      ensures startTime == old(startTime) && accumulated == old(accumulated) && laps == old(laps)
      ensures isRunning == old(isRunning) && frameLive
    {
      lastNow := now;
      if startTime.Some? {
        elapsed := accumulated + (now - startTime.value);
      }
    }

    /** `start`, offered only while stopped: a run begins now. */
    method Start(now: int)
      requires Valid() && !isRunning && lastNow <= now
      modifies this
      ensures Valid()
      ensures startTime == Some(now) && isRunning && frameLive
      ensures elapsed == old(elapsed) && accumulated == old(accumulated) && laps == old(laps)
    {
      lastNow := now;
      startTime := Some(now);
      isRunning := true;
      frameLive := true;
    }

    /** `stop`: the current run is added to the accumulated time. */
    method Stop(now: int)
      requires Valid() && lastNow <= now
      modifies this
      ensures Valid()
      ensures accumulated == old(accumulated) + (if old(startTime).Some? then now - old(startTime).value else 0)
      ensures startTime.None? && !isRunning && !frameLive
      ensures elapsed == old(elapsed) && laps == old(laps)
    {
      lastNow := now;
      if frameLive {
        frameLive := false;
      }
      if startTime.Some? {
        accumulated := accumulated + (now - startTime.value);
        startTime := None;
      }
      isRunning := false;
    }

    /** `reset`: everything back to zero, no laps. */
    method Reset()
      requires Valid()
      modifies this
      ensures Valid()
      ensures elapsed == 0 && accumulated == 0 && laps == [] && startTime.None? && !isRunning && !frameLive
    {
      if frameLive {
        frameLive := false;
      }
      startTime := None;
      accumulated := 0;
      elapsed := 0;
      isRunning := false;
      laps := [];
    }

    /** `lap`: a lap at the shown time is put in front of the list. */
    method TakeLap()
      requires Valid()
      modifies this
      ensures Valid()
      ensures laps == AddLap(old(laps), elapsed)
      ensures laps[0] == Lap(|old(laps)| + 1, elapsed, elapsed - (if |old(laps)| > 0 then old(laps)[0].time else 0))
      ensures SumDeltas(laps) == elapsed
      ensures elapsed == old(elapsed) && startTime == old(startTime) && accumulated == old(accumulated)
      ensures isRunning == old(isRunning)
    {
      var currentTime := elapsed;
      var lastLapTime := if |laps| > 0 then laps[0].time else 0;
      var delta := currentTime - lastLapTime;
      ghost var before := laps;
      laps := [Lap(|laps| + 1, currentTime, delta)] + laps;
      assert laps == AddLap(before, currentTime);
      DeltasSumToTime(laps);
    }
  }
}
