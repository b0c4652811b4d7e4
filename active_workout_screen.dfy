/** What `src/components/ActiveWorkoutScreen.tsx` derives from the active
    workout: the target of the current set, the rest length handed to the
    rest timer, the set progress bar and the "Set X of Y" line. The screen
    drives the store with `completeSet` (not resting) and `restComplete`
    (resting, or "Skip rest"); `Store.OnTrack` is the state that keeps. */
module ActiveWorkoutScreen {
  import opened Common
  import opened Types
  import opened Store
  import opened TimerUtils
  import opened RestTimer

  /** `getCurrentSetInfo`'s triple; `None` stands for `null`. */
  datatype SetInfo = SetInfo(reps: Option<int>, duration: Option<int>, weight: Weight)

  const NO_INFO := SetInfo(None, None, Bodyweight)

  /** `getCurrentSetInfo`: the target of set `setIndex` (1-based) of the level.
      It is exactly what `finishWorkout` records for that set, and no target
      when the level or the set is missing or the set records nothing. */
  function GetCurrentSetInfo(exercise: Exercise, level: int, setIndex: int): (r: SetInfo)
    ensures FindLevel(exercise.levels, level).None? ==> r == NO_INFO
    ensures FindLevel(exercise.levels, level).Some? ==>
      var sets := FindLevel(exercise.levels, level).value.sets;
      && (!(1 <= setIndex <= |sets|) ==> r == NO_INFO)
      && (1 <= setIndex <= |sets| ==>
            var record := SetRecord(exercise, level, setIndex - 1, sets[setIndex - 1]);
            && (record.None? ==> r == NO_INFO)
            && (record.Some? ==>
                  && r.weight == record.value.weight
                  && r.reps == (if record.value.measure.Reps? then Some(record.value.measure.reps) else None)
                  && r.duration == (if record.value.measure.Duration? then Some(record.value.measure.duration) else None)))
  {
    match FindLevel(exercise.levels, level)
    case None => NO_INFO
    case Some(l) =>
      if !(1 <= setIndex <= |l.sets|) then NO_INFO
      else
        var setSpec := l.sets[setIndex - 1];
        if exercise.isCardio && setSpec.CardioSet? then
          SetInfo(None, Some(setSpec.duration), setSpec.optWeight.GetOr(Bodyweight))
        else if setSpec.StrengthSet? then
          SetInfo(Some(setSpec.reps), None, setSpec.weight)
        else NO_INFO
  }

  /** The big target line: the formatted duration of a cardio set or the reps
      of a strength set, and a dash when there is none. */
  function TargetText(exercise: Exercise, info: SetInfo): (r: string)
    ensures exercise.isCardio && info.duration.Some? ==> r == FormatSeconds(info.duration.value)
    ensures !exercise.isCardio && info.reps.Some? ==> r == IntToString(info.reps.value)
    ensures (exercise.isCardio && info.duration.None?) || (!exercise.isCardio && info.reps.None?) ==> r == "—"
  {
    if exercise.isCardio then
      (if info.duration.Some? then FormatSeconds(info.duration.value) else "—")
    else
      (if info.reps.Some? then IntToString(info.reps.value) else "—")
  }

  /** The record `finishWorkout` makes for set `setIndex` (1-based) of the
      level, if the level has that set and the set records something. */
  function RecordFor(exercise: Exercise, level: int, setIndex: int): Option<CompletedSet>
  {
    match FindLevel(exercise.levels, level)
    case None => None
    case Some(l) =>
      if 1 <= setIndex <= |l.sets| then SetRecord(exercise, level, setIndex - 1, l.sets[setIndex - 1]) else None
  }

  /** The target line reads back as what is recorded for the set: a cardio
      duration as a minutes numeral, a colon and two digits that add up to
      it; strength reps as their decimal numeral; and a dash when nothing of
      the exercise's kind is recorded. */
  lemma TargetShowsRecord(exercise: Exercise, level: int, setIndex: int)
    ensures var t := TargetText(exercise, GetCurrentSetInfo(exercise, level, setIndex));
      var rec := RecordFor(exercise, level, setIndex);
      && (exercise.isCardio && rec.Some? && rec.value.measure.Duration? && rec.value.measure.duration >= 0 ==>
            ReadsAsSeconds(t, rec.value.measure.duration))
      && (!exercise.isCardio && rec.Some? && rec.value.measure.Reps? && rec.value.measure.reps >= 0 ==>
            AllDigits(t) && DigitsValue(t) == rec.value.measure.reps)
      && (!(rec.Some? && (if exercise.isCardio then rec.value.measure.Duration? else rec.value.measure.Reps?)) ==>
            t == "—")
  {
    InfoIsRecord(exercise, level, setIndex);
    TargetReadsBack(exercise, GetCurrentSetInfo(exercise, level, setIndex));
  }

  /** The target line reads back as the target it shows. */
  lemma TargetReadsBack(exercise: Exercise, info: SetInfo)
    ensures var t := TargetText(exercise, info);
      && (exercise.isCardio && info.duration.Some? && info.duration.value >= 0 ==>
            ReadsAsSeconds(t, info.duration.value))
      && (!exercise.isCardio && info.reps.Some? && info.reps.value >= 0 ==>
            AllDigits(t) && DigitsValue(t) == info.reps.value)
      && ((exercise.isCardio && info.duration.None?) || (!exercise.isCardio && info.reps.None?) ==> t == "—")
  {
    if exercise.isCardio && info.duration.Some? && info.duration.value >= 0 {
      FormatSecondsRoundTrip(info.duration.value);
    } else if !exercise.isCardio && info.reps.Some? && info.reps.value >= 0 {
      NatToStringValue(info.reps.value);
    }
  }

  /** The reps and the duration of the target are those of the record. */
  lemma InfoIsRecord(exercise: Exercise, level: int, setIndex: int)
    ensures var info := GetCurrentSetInfo(exercise, level, setIndex);
      var rec := RecordFor(exercise, level, setIndex);
      && info.duration == (if rec.Some? && rec.value.measure.Duration? then Some(rec.value.measure.duration) else None)
      && info.reps == (if rec.Some? && rec.value.measure.Reps? then Some(rec.value.measure.reps) else None)
  {
  }

  /** The rest length handed to the rest timer. */
  function RestSecondsShown(w: ActiveWorkout): (r: int)
    requires WorkoutValid(w)
    ensures w.isRestBetweenExercises ==> r == w.restBetweenExercises
    ensures !w.isRestBetweenExercises ==> r == Current(w).exercise.restBetweenSets
  {
    if w.isRestBetweenExercises then w.restBetweenExercises else Current(w).exercise.restBetweenSets
  }

  /** A rest begun by `completeSet` and shown at once: a positive rest counts
      down its full length; a zero or negative rest between sets offers
      "Continue" at once; a zero rest between exercises asks for the next
      exercise; a negative rest between exercises shows `--:--` and never
      ends by itself. */
  lemma RestScreenAfterCompleteSet(w: ActiveWorkout, now: int)
    requires WorkoutValid(w) && !(IsLastSet(w) && IsLastExercise(w))
    ensures var n := CompleteSetStep(w, now).next;
      var rest := RestSecondsShown(n);
      var effect := RestTimerEffect(n.restEndsAt, rest, now);
      var panel := PanelAfterEffect(n.restEndsAt, rest, n.isRestBetweenExercises, DEFAULT_NEXT_LABEL, now);
      && (rest > 0 ==> effect.action == StartCountdown(rest) && panel.CountdownPanel?
                       && panel.display == FormatSeconds(rest))
      && (!IsLastSet(w) && rest <= 0 ==> effect.action.NoCountdown? && panel.ContinuePrompt?)
      && (IsLastSet(w) && rest == 0 ==> panel == ManualPrompt(DEFAULT_NEXT_LABEL, DEFAULT_NEXT_LABEL))
      && (IsLastSet(w) && rest < 0 ==> effect.action.NoCountdown? && panel.CountdownPanel? && panel.display == "--:--")
  {
    var n := CompleteSetStep(w, now).next;
    var rest := RestSecondsShown(n);
    assert Current(n).exercise == Current(w).exercise;
    if rest > 0 {
      RemainingAtStart(rest, now);
    }
  }

  // ---------------------------------------------------------------------
  // Set progress
  // ---------------------------------------------------------------------

  datatype Slot = CurrentSlot | DoneSlot | PendingSlot

  /** The progress bar: one slot per set of the level; the slot of the
      current set is highlighted, slots below the completed count are done. */
  function ProgressSlots(totalSets: nat, currentSet: int, completedSets: int): (r: seq<Slot>)
    ensures |r| == totalSets
    ensures forall i :: 0 <= i < totalSets ==> (r[i] == CurrentSlot <==> i + 1 == currentSet)
    ensures forall i :: 0 <= i < totalSets ==> (r[i] == DoneSlot <==> i + 1 != currentSet && i < completedSets)
  {
    seq(totalSets, i =>
      if i + 1 == currentSet then CurrentSlot else if i < completedSets then DoneSlot else PendingSlot)
  }

  function ProgressOf(w: ActiveWorkout): seq<Slot>
    requires WorkoutValid(w)
  {
    ProgressSlots(SetsOf(Current(w)), w.currentSet, Current(w).completedSets)
  }

  /** While a set is being done, the bar shows the sets before it as done,
      that set as current and the rest as pending. */
  lemma ProgressWhileExercising(w: ActiveWorkout)
    requires OnTrack(w) && !w.isResting
    ensures |ProgressOf(w)| == SetsOf(Current(w))
    ensures forall i :: 0 <= i < |ProgressOf(w)| ==>
      ProgressOf(w)[i] == (if i + 1 < w.currentSet then DoneSlot
                           else if i + 1 == w.currentSet then CurrentSlot
                           else PendingSlot)
  {
  }

  /** "Set X of Y": both numerals are decimal and read back as the set
      number and the level's set count. */
  function SetLabel(w: ActiveWorkout): (r: string)
    requires WorkoutValid(w)
    ensures r == "Set " + NatToString(w.currentSet) + " of " + NatToString(SetsOf(Current(w)))
    ensures AllDigits(NatToString(w.currentSet)) && DigitsValue(NatToString(w.currentSet)) == w.currentSet
    ensures AllDigits(NatToString(SetsOf(Current(w))))
    ensures DigitsValue(NatToString(SetsOf(Current(w)))) == SetsOf(Current(w))
  {
    NatToStringValue(w.currentSet);
    NatToStringValue(SetsOf(Current(w)));
    "Set " + IntToString(w.currentSet) + " of " + IntToString(SetsOf(Current(w)))
  }

  /** Completing a set that is not the last of its level and then ending
      the rest moves the label on by one set of the same level. */
  lemma SetLabelAfterRest(w: ActiveWorkout, now: int)
    requires OnTrack(w) && !w.isResting && !IsLastSet(w)
    ensures var next := RestCompleteStep(CompleteSetStep(w, now).next).next;
      SetLabel(next) == "Set " + NatToString(w.currentSet + 1) + " of " + NatToString(SetsOf(Current(w)))
  {
    var n := CompleteSetStep(w, now).next;
    assert Current(n).exercise == Current(w).exercise && Current(n).level == Current(w).level;
  }

  /** A two-set exercise goes from "Set 1 of 2" to "Set 2 of 2" through one
      completed set and its rest. */
  lemma SetLabelAdvances(now: int)
    ensures var ex := Exercise("e", "Squats", 90, false, [Level(1, [StrengthSet(8, Bodyweight), StrengthSet(8, Bodyweight)])]);
      var w := StartSingleExercise([ex], "e", 1, "w", 0).value;
      var next := RestCompleteStep(CompleteSetStep(w, now).next).next;
      && SetLabel(w) == "Set 1 of 2"
      && SetLabel(next) == "Set 2 of 2"
  {
    var ex := Exercise("e", "Squats", 90, false, [Level(1, [StrengthSet(8, Bodyweight), StrengthSet(8, Bodyweight)])]);
    assert FindLevel(ex.levels, 1) == Some(ex.levels[0]);
  }
}
