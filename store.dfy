/** The application store of `src/store.ts`: the exercise and session lists,
    the active workout and its set/rest protocol, and the result a finished
    workout produces.

    The protocol steps are first stated as functions on an `ActiveWorkout`
    value (`CompleteSetStep`, `SetRestingStep`, `AdvanceStep`,
    `RestCompleteStep`) with their properties as lemmas; the class
    `WorkoutStore` then holds the store's state in fields and its actions are
    methods that update those fields, each specified by the step functions.
    `Date.now()` and `uid()` are parameters (`now`, `newId`). */
module Store {
  import opened Common
  import opened Types
  import Storage

  /** How many sets the form helpers give a new level. */
  const DEFAULT_SETS_COUNT: nat := 3

  // ---------------------------------------------------------------------
  // Lookups
  // ---------------------------------------------------------------------

  /** The first level with the given number. */
  function FindLevel(levels: seq<Level>, level: int): (r: Option<Level>)
    ensures r.None? <==> forall i :: 0 <= i < |levels| ==> levels[i].level != level
    ensures r.Some? ==> r.value in levels && r.value.level == level
    ensures forall i :: (0 <= i < |levels| && levels[i].level == level
              && forall j :: 0 <= j < i ==> levels[j].level != level) ==> r == Some(levels[i])
  {
    Find(levels, (l: Level) => l.level == level)
  }

  /** The first exercise with the given id. */
  function FindExercise(exercises: seq<Exercise>, id: Id): (r: Option<Exercise>)
    ensures r.None? <==> forall i :: 0 <= i < |exercises| ==> exercises[i].id != id
    ensures r.Some? ==> r.value in exercises && r.value.id == id
    ensures forall i :: (0 <= i < |exercises| && exercises[i].id == id
              && forall j :: 0 <= j < i ==> exercises[j].id != id) ==> r == Some(exercises[i])
  {
    Find(exercises, (e: Exercise) => e.id == id)
  }

  /** The first session with the given id. */
  function FindSession(sessions: seq<Session>, id: Id): (r: Option<Session>)
    ensures r.None? <==> forall i :: 0 <= i < |sessions| ==> sessions[i].id != id
    ensures r.Some? ==> r.value in sessions && r.value.id == id
    ensures forall i :: (0 <= i < |sessions| && sessions[i].id == id
              && forall j :: 0 <= j < i ==> sessions[j].id != id) ==> r == Some(sessions[i])
  {
    Find(sessions, (s: Session) => s.id == id)
  }

  /** `getLevelSetsCount`: the number of sets of the first level with that
      number, or 0 when the exercise has no such level. */
  function GetLevelSetsCount(exercise: Exercise, level: int): (r: nat)
    ensures (forall i :: 0 <= i < |exercise.levels| ==> exercise.levels[i].level != level) ==> r == 0
    ensures forall i :: (0 <= i < |exercise.levels| && exercise.levels[i].level == level
              && forall j :: 0 <= j < i ==> exercise.levels[j].level != level)
              ==> r == |exercise.levels[i].sets|
  {
    match FindLevel(exercise.levels, level)
    case None => 0
    case Some(l) => |l.sets|
  }

  /** Entry `i` is the first whose exercise is missing, and it names `id`. */
  predicate FirstMissingAt(exercises: seq<Exercise>, entries: seq<SessionExercise>, id: Id, i: int) {
    && 0 <= i < |entries|
    && entries[i].exerciseId == id
    && FindExercise(exercises, id).None?
    && forall j :: 0 <= j < i ==> FindExercise(exercises, entries[j].exerciseId).Some?
  }

  /** A first missing entry of the tail is the first missing entry of the
      list when the head's exercise exists. */
  lemma FirstMissingShift(exercises: seq<Exercise>, entries: seq<SessionExercise>, id: Id, i: int)
    requires |entries| > 0 && FindExercise(exercises, entries[0].exerciseId).Some?
    requires FirstMissingAt(exercises, entries[1..], id, i)
    ensures FirstMissingAt(exercises, entries, id, i + 1)
  {
    forall j | 0 <= j < i + 1 ensures FindExercise(exercises, entries[j].exerciseId).Some? {
      if j > 0 {
        assert entries[j] == entries[1..][j - 1];
      }
    }
  }

  /** `buildActiveWorkoutExercises`: one fresh entry per session entry, in
      order; the first entry naming a missing exercise throws (`Err` with its
      id). */
  function BuildActiveWorkoutExercises(exercises: seq<Exercise>, entries: seq<SessionExercise>)
    : (r: Result<seq<WorkoutEntry>, Id>)
    ensures r.Ok? <==> forall i :: 0 <= i < |entries| ==> FindExercise(exercises, entries[i].exerciseId).Some?
    ensures r.Ok? ==> |r.value| == |entries|
    ensures r.Ok? ==> forall i :: 0 <= i < |entries| ==>
      r.value[i] == WorkoutEntry(FindExercise(exercises, entries[i].exerciseId).value, entries[i].level, 0)
    ensures r.Err? ==> exists i :: FirstMissingAt(exercises, entries, r.error, i)
  {
    if |entries| == 0 then Ok([])
    else
      match FindExercise(exercises, entries[0].exerciseId)
      case None =>
        assert FirstMissingAt(exercises, entries, entries[0].exerciseId, 0);
        Err(entries[0].exerciseId)
      case Some(ex) =>
        match BuildActiveWorkoutExercises(exercises, entries[1..])
        case Err(missing) =>
          var i :| FirstMissingAt(exercises, entries[1..], missing, i);
          FirstMissingShift(exercises, entries, missing, i);
          Err(missing)
        case Ok(rest) => Ok([WorkoutEntry(ex, entries[0].level, 0)] + rest)
  }

  // ---------------------------------------------------------------------
  // Form helpers
  // ---------------------------------------------------------------------

  /** `createEmptyStrengthLevel`: three sets of 8 reps at bodyweight. */
  function CreateEmptyStrengthLevel(level: int): (r: Level)
    ensures r.level == level && |r.sets| == DEFAULT_SETS_COUNT
    ensures forall i :: 0 <= i < |r.sets| ==> r.sets[i] == StrengthSet(8, Bodyweight)
  {
    Level(level, seq(DEFAULT_SETS_COUNT, _ => StrengthSet(8, Bodyweight)))
  }

  /** `createEmptyCardioLevel`: three sets of 60 seconds with no weight. */
  function CreateEmptyCardioLevel(level: int): (r: Level)
    ensures r.level == level && |r.sets| == DEFAULT_SETS_COUNT
    ensures forall i :: 0 <= i < |r.sets| ==> r.sets[i] == CardioSet(60, None)
  {
    Level(level, seq(DEFAULT_SETS_COUNT, _ => CardioSet(60, None)))
  }

  // ---------------------------------------------------------------------
  // The active workout
  // ---------------------------------------------------------------------

  /** What every action of the store relies on: there is a current entry and
      the set counter starts at 1. */
  predicate WorkoutValid(w: ActiveWorkout) {
    0 < |w.exercises| && w.currentExerciseIndex < |w.exercises| && 1 <= w.currentSet
  }

  function Current(w: ActiveWorkout): WorkoutEntry
    requires WorkoutValid(w)
  {
    w.exercises[w.currentExerciseIndex]
  }

  /** Number of sets the entry's level prescribes. */
  function SetsOf(e: WorkoutEntry): nat {
    GetLevelSetsCount(e.exercise, e.level)
  }

  /** `isLastSet` of `completeSet`: completing one more set reaches the level's count. */
  predicate IsLastSet(w: ActiveWorkout)
    requires WorkoutValid(w)
  {
    Current(w).completedSets + 1 >= SetsOf(Current(w))
  }

  predicate IsLastExercise(w: ActiveWorkout)
    requires WorkoutValid(w)
  {
    w.currentExerciseIndex == |w.exercises| - 1
  }

  /** A freshly started workout: first entry, first set, no rest. */
  predicate AtStart(w: ActiveWorkout) {
    && w.currentExerciseIndex == 0
    && w.currentSet == 1
    && !w.isResting
    && w.restEndsAt.None?
    && !w.isRestBetweenExercises
  }

  /** `startSingleExerciseWorkout`: a one-entry workout of the exercise, or
      nothing when the exercise does not exist. */
  function StartSingleExercise(exercises: seq<Exercise>, exerciseId: Id, level: int, id: Id, now: int)
    : (r: Option<ActiveWorkout>)
    ensures r.None? <==> forall i :: 0 <= i < |exercises| ==> exercises[i].id != exerciseId
    ensures r.Some? ==>
      && WorkoutValid(r.value) && AtStart(r.value)
      && r.value.id == id && r.value.startedAt == now
      && r.value.restBetweenExercises == 0
      && |r.value.exercises| == 1
      && r.value.exercises[0].exercise == FindExercise(exercises, exerciseId).value
      && r.value.exercises[0].level == level
      && r.value.exercises[0].completedSets == 0
  {
    match FindExercise(exercises, exerciseId)
    case None => None
    case Some(ex) =>
      Some(ActiveWorkout(id, now, [WorkoutEntry(ex, level, 0)], 0, 1, false, None, false, 0))
  }

  datatype StartOutcome =
    | NotStarted
    | Started(workout: ActiveWorkout)
    | Thrown(missingExerciseId: Id)

  /** `startSessionWorkout`: nothing happens for a missing or empty session;
      a session naming a missing exercise throws. */
  function StartSession(exercises: seq<Exercise>, sessions: seq<Session>, sessionId: Id, id: Id, now: int)
    : (r: StartOutcome)
    ensures r.NotStarted? <==>
      FindSession(sessions, sessionId).None? || |FindSession(sessions, sessionId).value.exercises| == 0
    ensures r.Thrown? ==>
      && FindSession(sessions, sessionId).Some?
      && exists i :: FirstMissingAt(exercises, FindSession(sessions, sessionId).value.exercises, r.missingExerciseId, i)
    ensures r.Started? ==>
      var s := FindSession(sessions, sessionId).value;
      && WorkoutValid(r.workout) && AtStart(r.workout)
      && r.workout.id == id && r.workout.startedAt == now
      && r.workout.restBetweenExercises == s.restBetweenExercises
      && |r.workout.exercises| == |s.exercises|
      && forall i :: 0 <= i < |s.exercises| ==>
           && FindExercise(exercises, s.exercises[i].exerciseId).Some?
           && r.workout.exercises[i].exercise == FindExercise(exercises, s.exercises[i].exerciseId).value
           && r.workout.exercises[i].level == s.exercises[i].level
           && r.workout.exercises[i].completedSets == 0
  {
    match FindSession(sessions, sessionId)
    case None => NotStarted
    case Some(s) =>
      match BuildActiveWorkoutExercises(exercises, s.exercises)
      case Err(missing) => Thrown(missing)
      case Ok(entries) =>
        if |entries| == 0 then NotStarted
        else Started(ActiveWorkout(id, now, entries, 0, 1, false, None, false, s.restBetweenExercises))
  }

  /** The outcome of an action that may end the workout: either the next
      workout state, or `finishWorkout` is called on `snapshot`. */
  datatype Step = Continue(next: ActiveWorkout) | Finish(snapshot: ActiveWorkout)

  /** The entries with one more set counted on the current one. */
  function CountCurrentSet(w: ActiveWorkout): (r: seq<WorkoutEntry>)
    requires WorkoutValid(w)
    ensures |r| == |w.exercises|
    ensures r[w.currentExerciseIndex].completedSets == Current(w).completedSets + 1
    ensures r[w.currentExerciseIndex].exercise == Current(w).exercise
    ensures r[w.currentExerciseIndex].level == Current(w).level
    ensures forall i :: 0 <= i < |r| && i != w.currentExerciseIndex ==> r[i] == w.exercises[i]
  {
    var ex := Current(w);
    w.exercises[w.currentExerciseIndex := ex.(completedSets := ex.completedSets + 1)]
  }

  /** Position, identity and session settings are the same. */
  predicate SamePosition(w: ActiveWorkout, v: ActiveWorkout) {
    && v.id == w.id
    && v.startedAt == w.startedAt
    && v.currentExerciseIndex == w.currentExerciseIndex
    && v.currentSet == w.currentSet
    && v.restBetweenExercises == w.restBetweenExercises
  }

  /** `completeSet`, as written: the last set of the last exercise calls
      `finishWorkout` on the workout as it was, without the set just
      completed; otherwise the set is counted and a rest begins, between sets
      (`restBetweenSets`) or between exercises (`restBetweenExercises`, with
      no end time when that is not positive). */
  function CompleteSetStep(w: ActiveWorkout, now: int): (r: Step)
    requires WorkoutValid(w)
    ensures r.Finish? <==> IsLastSet(w) && IsLastExercise(w)
    ensures r.Finish? ==> r.snapshot == w
    ensures r.Continue? ==>
      && WorkoutValid(r.next)
      && SamePosition(w, r.next)
      && r.next.exercises == CountCurrentSet(w)
      && r.next.isResting
      && (r.next.isRestBetweenExercises <==> IsLastSet(w))
      && (!IsLastSet(w) ==> r.next.restEndsAt == Some(now + Current(w).exercise.restBetweenSets * 1000))
      && (IsLastSet(w) && w.restBetweenExercises > 0 ==>
            r.next.restEndsAt == Some(now + w.restBetweenExercises * 1000))
      && (IsLastSet(w) && w.restBetweenExercises <= 0 ==> r.next.restEndsAt.None?)
  {
    var ex := Current(w);
    var updated := CountCurrentSet(w);
    var totalSets := GetLevelSetsCount(ex.exercise, ex.level);
    var isLastSet := ex.completedSets + 1 >= totalSets;
    var isLastExercise := w.currentExerciseIndex == |w.exercises| - 1;
    if isLastSet && isLastExercise then Finish(w)
    else if isLastSet then
      var restSeconds := w.restBetweenExercises;
      Continue(w.(exercises := updated, isResting := true, isRestBetweenExercises := true,
                  restEndsAt := if restSeconds > 0 then Some(now + restSeconds * 1000) else None))
    else
      Continue(w.(exercises := updated, isResting := true,
                  restEndsAt := Some(now + ex.exercise.restBetweenSets * 1000),
                  isRestBetweenExercises := false))
  }

  /** `completeSet` as evidently intended: the final set is counted before
      the workout is finished. */
  function CompleteSetIntended(w: ActiveWorkout, now: int): (r: Step)
    requires WorkoutValid(w)
    ensures r.Finish? <==> IsLastSet(w) && IsLastExercise(w)
    ensures r.Finish? ==> r.snapshot == w.(exercises := CountCurrentSet(w))
    ensures r.Continue? ==> r == CompleteSetStep(w, now)
  {
    match CompleteSetStep(w, now)
    case Finish(_) => Finish(w.(exercises := CountCurrentSet(w)))
    case Continue(next) => Continue(next)
  }

  /** `setResting`: ending a rest within the exercise (`resting` and
      `isRestBetweenExercises` both false) moves to the next set and clears
      the end time whatever was passed; otherwise the three flags are stored. */
  function SetRestingStep(w: ActiveWorkout, resting: bool, restEndsAt: Option<int>, isRestBetweenExercises: bool)
    : (r: ActiveWorkout)
    ensures r.exercises == w.exercises && r.id == w.id && r.startedAt == w.startedAt
    ensures r.currentExerciseIndex == w.currentExerciseIndex
    ensures r.restBetweenExercises == w.restBetweenExercises
    ensures r.isResting == resting && r.isRestBetweenExercises == isRestBetweenExercises
    ensures !resting && !isRestBetweenExercises ==> r.currentSet == w.currentSet + 1 && r.restEndsAt.None?
    ensures resting || isRestBetweenExercises ==> r.currentSet == w.currentSet && r.restEndsAt == restEndsAt
    ensures WorkoutValid(w) ==> WorkoutValid(r)
  {
    if !resting && !isRestBetweenExercises then
      w.(isResting := false, restEndsAt := None, isRestBetweenExercises := false, currentSet := w.currentSet + 1)
    else
      w.(isResting := resting, restEndsAt := restEndsAt, isRestBetweenExercises := isRestBetweenExercises)
  }

  /** `advanceToNextExercise`: the next entry from its first set, or the end
      of the workout after the last entry. */
  function AdvanceStep(w: ActiveWorkout): (r: Step)
    requires WorkoutValid(w)
    ensures r.Finish? <==> IsLastExercise(w)
    ensures r.Finish? ==> r.snapshot == w
    ensures r.Continue? ==>
      && WorkoutValid(r.next)
      && r.next.currentExerciseIndex == w.currentExerciseIndex + 1
      && r.next.currentSet == 1
      && !r.next.isResting && r.next.restEndsAt.None? && !r.next.isRestBetweenExercises
      && r.next.exercises == w.exercises
      && r.next.id == w.id && r.next.startedAt == w.startedAt
      && r.next.restBetweenExercises == w.restBetweenExercises
  {
    var nextIndex := w.currentExerciseIndex + 1;
    if nextIndex >= |w.exercises| then Finish(w)
    else
      Continue(w.(currentExerciseIndex := nextIndex, currentSet := 1, isResting := false,
                  restEndsAt := None, isRestBetweenExercises := false))
  }

  /** `restComplete`: after a rest between exercises, advance; after a rest
      between sets, go to the next set. */
  function RestCompleteStep(w: ActiveWorkout): (r: Step)
    requires WorkoutValid(w)
    ensures w.isRestBetweenExercises ==> r == AdvanceStep(w)
    ensures !w.isRestBetweenExercises ==>
      && r.Continue?
      && r.next == SetRestingStep(w, false, None, false)
      && r.next.currentSet == w.currentSet + 1
      && !r.next.isResting && r.next.restEndsAt.None?
  {
    if w.isRestBetweenExercises then AdvanceStep(w) else Continue(SetRestingStep(w, false, None, false))
  }

  // ---------------------------------------------------------------------
  // The workout result
  // ---------------------------------------------------------------------

  /** The record `finishWorkout` pushes for set `i` (0-based) of a level: a
      duration record for a cardio set of a cardio exercise, a reps record
      for a strength set, and none for a cardio set of a strength exercise. */
  function SetRecord(ex: Exercise, level: int, i: nat, spec: SetSpec): (r: Option<CompletedSet>)
    ensures r.Some? <==> spec.StrengthSet? || ex.isCardio
    ensures r.Some? ==>
      && r.value.exerciseId == ex.id && r.value.exerciseName == ex.name
      && r.value.setIndex == i + 1 && r.value.level == level
    ensures r.Some? && spec.StrengthSet? ==> r.value.measure == Reps(spec.reps) && r.value.weight == spec.weight
    ensures r.Some? && spec.CardioSet? ==>
      && r.value.measure == Duration(spec.duration)
      && r.value.weight == (if spec.optWeight.Some? then spec.optWeight.value else Bodyweight)
  {
    if ex.isCardio && spec.CardioSet? then
      Some(CompletedSet(ex.id, ex.name, i + 1, level, Duration(spec.duration), spec.optWeight.GetOr(Bodyweight)))
    else if spec.StrengthSet? then
      Some(CompletedSet(ex.id, ex.name, i + 1, level, Reps(spec.reps), spec.weight))
    else None
  }

  function RecordList(r: Option<CompletedSet>): seq<CompletedSet> {
    if r.Some? then [r.value] else []
  }

  /** The records of the first `n` sets of a level (`LevelRecordsShape`,
      `LevelRecordsExact`). */
  function LevelRecords(ex: Exercise, level: int, sets: seq<SetSpec>, n: nat): seq<CompletedSet>
    requires n <= |sets|
  {
    if n == 0 then []
    else LevelRecords(ex, level, sets, n - 1) + RecordList(SetRecord(ex, level, n - 1, sets[n - 1]))
  }

  /** At most one record per set; each names the exercise and the level and
      carries a set number within `1 .. n`, and the numbers increase. */
  lemma {:induction false} LevelRecordsShape(ex: Exercise, level: int, sets: seq<SetSpec>, n: nat)
    requires n <= |sets|
    ensures var r := LevelRecords(ex, level, sets, n);
      && |r| <= n
      && (forall k :: 0 <= k < |r| ==>
            && r[k].exerciseId == ex.id && r[k].exerciseName == ex.name && r[k].level == level
            && 1 <= r[k].setIndex <= n)
      && (forall k, m :: 0 <= k < m < |r| ==> r[k].setIndex < r[m].setIndex)
  {
    if n > 0 {
      LevelRecordsShape(ex, level, sets, n - 1);
    }
  }

  function MinNat(a: nat, b: nat): nat { if a <= b then a else b }

  /** The records one entry contributes: its first `completedSets` sets, as
      far as the level has sets; nothing when its level is missing. */
  function EntryRecords(e: WorkoutEntry): seq<CompletedSet> {
    match FindLevel(e.exercise.levels, e.level)
    case None => []
    case Some(l) => LevelRecords(e.exercise, e.level, l.sets, MinNat(e.completedSets, |l.sets|))
  }

  /** `completedSets` of the result: the entries' records, entry by entry. */
  function CompletedSetsOf(entries: seq<WorkoutEntry>): seq<CompletedSet> {
    if |entries| == 0 then []
    else CompletedSetsOf(entries[..|entries| - 1]) + EntryRecords(entries[|entries| - 1])
  }

  /** `Math.round((now - startedAt) / 1000)`: the elapsed time in whole
      seconds, halves rounded up. */
  function TotalDurationSeconds(startedAt: int, now: int): (r: int)
    ensures r * 1000 - 500 <= now - startedAt < r * 1000 + 500
  {
    (now - startedAt + 500) / 1000
  }

  function EntryNames(entries: seq<WorkoutEntry>): (r: seq<string>)
    ensures |r| == |entries| && forall i :: 0 <= i < |entries| ==> r[i] == entries[i].exercise.name
  {
    seq(|entries|, i requires 0 <= i < |entries| => entries[i].exercise.name)
  }

  /** `exerciseNames` of the result: each entry's name once, in order of first
      appearance (`ExerciseNamesCover`, `ExerciseNamesOrdered`). */
  function ExerciseNames(entries: seq<WorkoutEntry>): seq<string> {
    Dedup(EntryNames(entries))
  }

  /** Every entry's name is listed, exactly once, and nothing else is. */
  lemma ExerciseNamesCover(entries: seq<WorkoutEntry>)
    ensures Distinct(ExerciseNames(entries))
    ensures forall i :: 0 <= i < |entries| ==> entries[i].exercise.name in ExerciseNames(entries)
    ensures forall k :: 0 <= k < |ExerciseNames(entries)| ==>
      exists i :: 0 <= i < |entries| && entries[i].exercise.name == ExerciseNames(entries)[k]
  {
    var names := EntryNames(entries);
    var r := Dedup(names);
    assert forall k :: 0 <= k < |r| ==> r[k] in names;
    forall i | 0 <= i < |entries| ensures entries[i].exercise.name in r {
      assert names[i] == entries[i].exercise.name;
    }
  }

  /** Repeated exercises are listed once, ordered by where they first occur. */
  lemma ExerciseNamesOrdered(entries: seq<WorkoutEntry>, a: nat, b: nat)
    requires a < b < |ExerciseNames(entries)|
    ensures FirstIndexOf(EntryNames(entries), ExerciseNames(entries)[a])
          < FirstIndexOf(EntryNames(entries), ExerciseNames(entries)[b])
  {
    DedupFirstAppearance(EntryNames(entries), a, b);
  }

  /** The result `finishWorkout` records for a workout. */
  function ResultOf(w: ActiveWorkout, resultId: Id, now: int): WorkoutResult
  {
    WorkoutResult(resultId, now, TotalDurationSeconds(w.startedAt, now),
                  CompletedSetsOf(w.exercises), ExerciseNames(w.exercises))
  }

  /** The state `finishWorkout` leaves: the result it builds with its loops,
      shown on the results screen and stored first in the saved history. */
  method FinishedRecords(st: StoreState, w: ActiveWorkout, resultId: Id, now: int)
    returns (next: StoreState)
    ensures next == Finished(st, ResultOf(w, resultId, now))
  {
    var completedSets := BuildCompletedSets(w.exercises);
    var result := WorkoutResult(resultId, now, TotalDurationSeconds(w.startedAt, now),
                                completedSets, ExerciseNames(w.exercises));
    var saved := Storage.SaveWorkoutResult(st.savedHistory, result);
    next := st.(activeWorkout := None, lastResult := Some(result), screen := Results, savedHistory := saved);
  }

  /** The loops of `finishWorkout` that collect the completed sets: entry by
      entry, the records of its first `completedSets` sets. */
  method BuildCompletedSets(entries: seq<WorkoutEntry>) returns (completed: seq<CompletedSet>)
    ensures completed == CompletedSetsOf(entries)
  {
    completed := [];
    var k := 0;
    while k < |entries|
      invariant 0 <= k <= |entries|
      invariant completed == CompletedSetsOf(entries[..k])
    {
      var e := entries[k];
      var levelData := FindLevel(e.exercise.levels, e.level);
      if levelData.Some? {
        completed := PushLevelRecords(completed, e.exercise, e.level, levelData.value.sets, e.completedSets);
      }
      assert entries[..k + 1][..k] == entries[..k];
      k := k + 1;
    }
    assert entries[..|entries|] == entries;
  }

  /** The inner loop of `finishWorkout`: pushes the records of sets
      `0 .. count - 1` of a level, as far as the level has sets. */
  method PushLevelRecords(completed: seq<CompletedSet>, ex: Exercise, level: int, sets: seq<SetSpec>, count: nat)
    returns (pushed: seq<CompletedSet>)
    ensures pushed == completed + LevelRecords(ex, level, sets, MinNat(count, |sets|))
  {
    pushed := completed;
    var i := 0;
    while i < count && i < |sets|
      invariant 0 <= i <= MinNat(count, |sets|)
      invariant pushed == completed + LevelRecords(ex, level, sets, i)
    {
      var setSpec := sets[i];
      ghost var prefix := LevelRecords(ex, level, sets, i);
      assert LevelRecords(ex, level, sets, i + 1) == prefix + RecordList(SetRecord(ex, level, i, setSpec));
      if ex.isCardio && setSpec.CardioSet? {
        var record := CompletedSet(ex.id, ex.name, i + 1, level, Duration(setSpec.duration),
                                   setSpec.optWeight.GetOr(Bodyweight));
        assert RecordList(SetRecord(ex, level, i, setSpec)) == [record];
        pushed := pushed + [record];
      } else if setSpec.StrengthSet? {
        var record := CompletedSet(ex.id, ex.name, i + 1, level, Reps(setSpec.reps), setSpec.weight);
        assert RecordList(SetRecord(ex, level, i, setSpec)) == [record];
        pushed := pushed + [record];
      }
      AppendAssoc(completed, prefix, RecordList(SetRecord(ex, level, i, setSpec)));
      i := i + 1;
    }
  }

  lemma AppendAssoc<T>(a: seq<T>, b: seq<T>, c: seq<T>)
    ensures (a + b) + c == a + (b + c)
  {
  }

  // ---------------------------------------------------------------------
  // How many sets a result records
  // ---------------------------------------------------------------------

  /** Every set of the entry's level yields a record: no cardio set in a
      strength exercise. */
  predicate RecordsEverySet(e: WorkoutEntry) {
    FindLevel(e.exercise.levels, e.level).Some? ==>
      var sets := FindLevel(e.exercise.levels, e.level).value.sets;
      forall i :: 0 <= i < |sets| ==> e.exercise.isCardio || sets[i].StrengthSet?
  }

  /** The sets of an entry that count: completed, within the level. */
  function DoneOf(e: WorkoutEntry): nat {
    MinNat(e.completedSets, SetsOf(e))
  }

  function SumDone(entries: seq<WorkoutEntry>): nat {
    if |entries| == 0 then 0 else SumDone(entries[..|entries| - 1]) + DoneOf(entries[|entries| - 1])
  }

  function PlannedSets(entries: seq<WorkoutEntry>): nat {
    if |entries| == 0 then 0 else PlannedSets(entries[..|entries| - 1]) + SetsOf(entries[|entries| - 1])
  }

  /** When every set yields a record, the first `n` sets give exactly the
      records of those sets, in order. */
  lemma {:induction false} LevelRecordsExact(ex: Exercise, level: int, sets: seq<SetSpec>, n: nat)
    requires n <= |sets|
    requires forall i :: 0 <= i < n ==> ex.isCardio || sets[i].StrengthSet?
    ensures |LevelRecords(ex, level, sets, n)| == n
    ensures forall k :: 0 <= k < n ==> LevelRecords(ex, level, sets, n)[k] == SetRecord(ex, level, k, sets[k]).value
  {
    if n > 0 {
      LevelRecordsExact(ex, level, sets, n - 1);
    }
  }

  lemma EntryRecordsCount(e: WorkoutEntry)
    requires RecordsEverySet(e)
    ensures |EntryRecords(e)| == DoneOf(e)
  {
    var l := FindLevel(e.exercise.levels, e.level);
    if l.Some? {
      LevelRecordsExact(e.exercise, e.level, l.value.sets, MinNat(e.completedSets, |l.value.sets|));
    }
  }

  /** A result holds one record per counted set of every entry. */
  lemma {:induction false} CompletedSetsCount(entries: seq<WorkoutEntry>)
    requires forall i :: 0 <= i < |entries| ==> RecordsEverySet(entries[i])
    ensures |CompletedSetsOf(entries)| == SumDone(entries)
  {
    if |entries| > 0 {
      CompletedSetsCount(entries[..|entries| - 1]);
      EntryRecordsCount(entries[|entries| - 1]);
    }
  }

  /** Entries whose every set is done count all their planned sets. */
  lemma {:induction false} SumDoneFull(entries: seq<WorkoutEntry>)
    requires forall i :: 0 <= i < |entries| ==> entries[i].completedSets == SetsOf(entries[i])
    ensures SumDone(entries) == PlannedSets(entries)
  {
    if |entries| > 0 {
      SumDoneFull(entries[..|entries| - 1]);
    }
  }

  // ---------------------------------------------------------------------
  // The protocol the workout screen drives
  // ---------------------------------------------------------------------

  /** The state a workout is in while the workout screen drives it, calling
      `completeSet` when not resting and `restComplete` when resting:
      earlier entries are complete, later ones untouched, and the current
      set number agrees with the current entry's count. */
  ghost predicate OnTrack(w: ActiveWorkout) {
    && WorkoutValid(w)
    && (forall i :: 0 <= i < |w.exercises| ==> SetsOf(w.exercises[i]) >= 1)
    && (forall i :: 0 <= i < w.currentExerciseIndex ==> w.exercises[i].completedSets == SetsOf(w.exercises[i]))
    && (forall i :: w.currentExerciseIndex < i < |w.exercises| ==> w.exercises[i].completedSets == 0)
    && w.currentSet <= SetsOf(Current(w))
    && var c := Current(w).completedSets;
       if !w.isResting then c == w.currentSet - 1
       else if !w.isRestBetweenExercises then c == w.currentSet && w.currentSet < SetsOf(Current(w))
       else c == w.currentSet == SetsOf(Current(w)) && w.currentExerciseIndex < |w.exercises| - 1
  }

  /** A started workout whose levels all have sets is on track. */
  lemma StartOnTrack(w: ActiveWorkout)
    requires WorkoutValid(w) && AtStart(w)
    requires forall i :: 0 <= i < |w.exercises| ==> w.exercises[i].completedSets == 0 && SetsOf(w.exercises[i]) >= 1
    ensures OnTrack(w)
  {
  }

  /** On track, no entry has more sets counted than its level has, and the
      set shown is within the level. */
  lemma OnTrackBounds(w: ActiveWorkout)
    requires OnTrack(w)
    ensures forall i :: 0 <= i < |w.exercises| ==> w.exercises[i].completedSets <= SetsOf(w.exercises[i])
    ensures 1 <= w.currentSet <= SetsOf(Current(w))
  {
  }

  /** `completeSet` from a non-resting, on-track workout keeps it on track. */
  lemma CompleteSetOnTrack(w: ActiveWorkout, now: int)
    requires OnTrack(w) && !w.isResting
    ensures CompleteSetStep(w, now).Continue? ==> OnTrack(CompleteSetStep(w, now).next)
  {
    var r := CompleteSetStep(w, now);
    if r.Continue? {
      var n := r.next;
      var idx := w.currentExerciseIndex;
      assert n.exercises[idx].completedSets == Current(w).completedSets + 1;
      assert SetsOf(n.exercises[idx]) == SetsOf(Current(w));
      forall i | 0 <= i < |n.exercises| && i != idx
        ensures n.exercises[i] == w.exercises[i]
      {
      }
    }
  }

  /** `restComplete` from a resting, on-track workout never ends it, moves
      strictly forward, and keeps it on track. */
  lemma RestCompleteOnTrack(w: ActiveWorkout)
    requires OnTrack(w) && w.isResting
    ensures RestCompleteStep(w).Continue?
    ensures OnTrack(RestCompleteStep(w).next)
    ensures var n := RestCompleteStep(w).next;
      || n.currentExerciseIndex == w.currentExerciseIndex + 1
      || (n.currentExerciseIndex == w.currentExerciseIndex && n.currentSet == w.currentSet + 1)
  {
    if w.isRestBetweenExercises {
      NextExerciseOnTrack(w);
    } else {
      NextSetOnTrack(w);
    }
  }

  /** After the rest between exercises, the next entry starts on track. */
  lemma NextExerciseOnTrack(w: ActiveWorkout)
    requires OnTrack(w) && w.isResting && w.isRestBetweenExercises
    ensures AdvanceStep(w).Continue?
    ensures OnTrack(AdvanceStep(w).next)
  {
    EntryStartOnTrack(w, AdvanceStep(w).next);
  }

  /** A workout moved from the end of the rest after an entry to the first
      set of the following entry, with the same entries, is on track. */
  lemma EntryStartOnTrack(w: ActiveWorkout, n: ActiveWorkout)
    requires OnTrack(w) && w.isResting && w.isRestBetweenExercises
    requires WorkoutValid(n) && n.exercises == w.exercises
    requires n.currentExerciseIndex == w.currentExerciseIndex + 1 && n.currentSet == 1 && !n.isResting
    ensures OnTrack(n)
  {
    var idx := w.currentExerciseIndex;
    assert Current(n) == w.exercises[idx + 1];
    forall i | 0 <= i < idx + 1 ensures n.exercises[i].completedSets == SetsOf(n.exercises[i]) {
      if i == idx {
        assert w.exercises[i] == Current(w);
      }
    }
  }

  /** After a rest between sets, the next set of the same entry is on track. */
  lemma NextSetOnTrack(w: ActiveWorkout)
    requires OnTrack(w) && w.isResting && !w.isRestBetweenExercises
    ensures OnTrack(SetRestingStep(w, false, None, false))
  {
    var n := SetRestingStep(w, false, None, false);
    assert Current(n) == Current(w);
  }

  /** As written, the final `completeSet` of an on-track workout hands
      `finishWorkout` one set fewer than the workout planned. */
  lemma FinishAsWrittenDropsLastSet(w: ActiveWorkout, now: int)
    requires OnTrack(w) && !w.isResting
    requires forall i :: 0 <= i < |w.exercises| ==> RecordsEverySet(w.exercises[i])
    requires CompleteSetStep(w, now).Finish?
    ensures |CompletedSetsOf(CompleteSetStep(w, now).snapshot.exercises)| == PlannedSets(w.exercises) - 1
  {
    var es := w.exercises;
    var n := |es|;
    assert w.currentExerciseIndex == n - 1;
    assert es[n - 1].completedSets == SetsOf(es[n - 1]) - 1;
    CompletedSetsCount(es);
    AllButLastDone(es, es);
  }

  /** With the intended `completeSet`, the result holds every planned set. */
  lemma FinishIntendedRecordsAllSets(w: ActiveWorkout, now: int)
    requires OnTrack(w) && !w.isResting
    requires forall i :: 0 <= i < |w.exercises| ==> RecordsEverySet(w.exercises[i])
    requires CompleteSetIntended(w, now).Finish?
    ensures |CompletedSetsOf(CompleteSetIntended(w, now).snapshot.exercises)| == PlannedSets(w.exercises)
  {
    var es := CountCurrentSet(w);
    var n := |es|;
    assert w.currentExerciseIndex == n - 1;
    assert es[n - 1].completedSets == SetsOf(w.exercises[n - 1]);
    assert forall i :: 0 <= i < n ==> RecordsEverySet(es[i]) by {
      forall i | 0 <= i < n ensures RecordsEverySet(es[i]) {
        if i != n - 1 {
          assert es[i] == w.exercises[i];
        }
      }
    }
    CompletedSetsCount(es);
    assert es[..n - 1] == w.exercises[..n - 1];
    AllButLastDone(es, w.exercises);
  }

  /** Entries that are all done but for the last, whose planned count is
      that of `ws`'s last entry, count the planned sets less those the last
      entry has still to do. */
  lemma AllButLastDone(es: seq<WorkoutEntry>, ws: seq<WorkoutEntry>)
    requires |es| == |ws| > 0 && es[..|es| - 1] == ws[..|ws| - 1]
    requires forall i :: 0 <= i < |ws| - 1 ==> ws[i].completedSets == SetsOf(ws[i])
    requires SetsOf(es[|es| - 1]) == SetsOf(ws[|ws| - 1]) && es[|es| - 1].completedSets <= SetsOf(es[|es| - 1])
    ensures SumDone(es) == PlannedSets(ws) - SetsOf(ws[|ws| - 1]) + es[|es| - 1].completedSets
  {
    var n := |es|;
    var front := ws[..n - 1];
    assert forall i :: 0 <= i < |front| ==> front[i].completedSets == SetsOf(front[i]);
    SumDoneFull(front);
    assert SumDone(es) == SumDone(front) + DoneOf(es[n - 1]);
    assert PlannedSets(ws) == PlannedSets(front) + SetsOf(ws[n - 1]);
  }

  /** A one-set exercise done on its own: as written the result records no
      set at all; as intended it records the one set. */
  lemma OneSetWorkoutCounterexample(now: int)
    ensures var ex := Exercise("e", "Push-ups", 60, false, [Level(1, [StrengthSet(10, Bodyweight)])]);
      var w := StartSingleExercise([ex], "e", 1, "w", 0).value;
      && CompleteSetStep(w, now) == Finish(w)
      && CompletedSetsOf(CompleteSetStep(w, now).snapshot.exercises) == []
      && CompletedSetsOf(CompleteSetIntended(w, now).snapshot.exercises)
         == [CompletedSet("e", "Push-ups", 1, 1, Reps(10), Bodyweight)]
  {
    var ex := Exercise("e", "Push-ups", 60, false, [Level(1, [StrengthSet(10, Bodyweight)])]);
    var w := StartSingleExercise([ex], "e", 1, "w", 0).value;
    assert FindLevel(ex.levels, 1) == Some(ex.levels[0]);
    var done := CompleteSetIntended(w, now).snapshot.exercises;
    assert done == [WorkoutEntry(ex, 1, 1)];
    assert done[..0] == [];
    assert EntryRecords(done[0]) == [CompletedSet("e", "Push-ups", 1, 1, Reps(10), Bodyweight)];
  }

  /** A two-set exercise: the first set starts a rest of `restBetweenSets`
      seconds, the end of the rest shows set 2, and completing set 2 finishes. */
  lemma TwoSetScenario(now1: int, now2: int)
    ensures var ex := Exercise("e", "Squats", 90, false, [Level(2, [StrengthSet(8, Kg(20.0)), StrengthSet(6, Kg(25.0))])]);
      var w := StartSingleExercise([ex], "e", 2, "w", 0).value;
      var s1 := CompleteSetStep(w, now1).next;
      var s2 := RestCompleteStep(s1).next;
      && s1.isResting && !s1.isRestBetweenExercises && s1.restEndsAt == Some(now1 + 90000)
      && s1.exercises[0].completedSets == 1
      && !s2.isResting && s2.currentSet == 2 && s2.restEndsAt.None?
      && CompleteSetStep(s2, now2).Finish?
  {
    var ex := Exercise("e", "Squats", 90, false, [Level(2, [StrengthSet(8, Kg(20.0)), StrengthSet(6, Kg(25.0))])]);
    assert FindLevel(ex.levels, 2) == Some(ex.levels[0]);
  }

  // ---------------------------------------------------------------------
  // Exercise and session edits
  // ---------------------------------------------------------------------

  /** An exercise as the form submits it, before it has an id. */
  datatype ExerciseData = ExerciseData(name: string, restBetweenSets: int, isCardio: bool, levels: seq<Level>)

  /** A session as the form submits it, before it has an id. */
  datatype SessionData = SessionData(name: string, exercises: seq<SessionExercise>, restBetweenExercises: int)

  /** `Partial<Exercise>`: the fields present override the stored ones. */
  datatype ExercisePatch = ExercisePatch(
    newId: Option<Id>, name: Option<string>, restBetweenSets: Option<int>,
    isCardio: Option<bool>, levels: Option<seq<Level>>)

  /** `Partial<Session>`. */
  datatype SessionPatch = SessionPatch(
    newId: Option<Id>, name: Option<string>, exercises: Option<seq<SessionExercise>>,
    restBetweenExercises: Option<int>)

  /** `{ ...e, ...data }`. */
  function PatchExercise(e: Exercise, p: ExercisePatch): (r: Exercise)
    ensures p == ExercisePatch(None, None, None, None, None) ==> r == e
    ensures p.newId.Some? ==> r.id == p.newId.value
    ensures p.newId.None? ==> r.id == e.id
    ensures p.name.Some? ==> r.name == p.name.value
    ensures p.name.None? ==> r.name == e.name
    ensures p.restBetweenSets.Some? ==> r.restBetweenSets == p.restBetweenSets.value
    ensures p.restBetweenSets.None? ==> r.restBetweenSets == e.restBetweenSets
    ensures p.isCardio.Some? ==> r.isCardio == p.isCardio.value
    ensures p.isCardio.None? ==> r.isCardio == e.isCardio
    ensures p.levels.Some? ==> r.levels == p.levels.value
    ensures p.levels.None? ==> r.levels == e.levels
  {
    Exercise(p.newId.GetOr(e.id), p.name.GetOr(e.name), p.restBetweenSets.GetOr(e.restBetweenSets),
             p.isCardio.GetOr(e.isCardio), p.levels.GetOr(e.levels))
  }

  /** `{ ...s, ...data }`. */
  function PatchSession(s: Session, p: SessionPatch): (r: Session)
    ensures p == SessionPatch(None, None, None, None) ==> r == s
    ensures p.newId.Some? ==> r.id == p.newId.value
    ensures p.newId.None? ==> r.id == s.id
    ensures p.name.Some? ==> r.name == p.name.value
    ensures p.name.None? ==> r.name == s.name
    ensures p.exercises.Some? ==> r.exercises == p.exercises.value
    ensures p.exercises.None? ==> r.exercises == s.exercises
    ensures p.restBetweenExercises.Some? ==> r.restBetweenExercises == p.restBetweenExercises.value
    ensures p.restBetweenExercises.None? ==> r.restBetweenExercises == s.restBetweenExercises
  {
    Session(p.newId.GetOr(s.id), p.name.GetOr(s.name), p.exercises.GetOr(s.exercises),
            p.restBetweenExercises.GetOr(s.restBetweenExercises))
  }

  /** `updateExercise`'s list: every exercise with the id patched, the rest unchanged. */
  function UpdateExercises(exercises: seq<Exercise>, id: Id, p: ExercisePatch): (r: seq<Exercise>)
    ensures |r| == |exercises|
    ensures forall i :: 0 <= i < |r| && exercises[i].id == id ==> r[i] == PatchExercise(exercises[i], p)
    ensures forall i :: 0 <= i < |r| && exercises[i].id != id ==> r[i] == exercises[i]
  {
    seq(|exercises|, i requires 0 <= i < |exercises| =>
      if exercises[i].id == id then PatchExercise(exercises[i], p) else exercises[i])
  }

  /** `updateSession`'s list. */
  function UpdateSessions(sessions: seq<Session>, id: Id, p: SessionPatch): (r: seq<Session>)
    ensures |r| == |sessions|
    ensures forall i :: 0 <= i < |r| && sessions[i].id == id ==> r[i] == PatchSession(sessions[i], p)
    ensures forall i :: 0 <= i < |r| && sessions[i].id != id ==> r[i] == sessions[i]
  {
    seq(|sessions|, i requires 0 <= i < |sessions| =>
      if sessions[i].id == id then PatchSession(sessions[i], p) else sessions[i])
  }

  predicate UsesExercise(s: Session, exerciseId: Id) {
    exists k :: 0 <= k < |s.exercises| && s.exercises[k].exerciseId == exerciseId
  }

  /** `deleteExercise`'s exercise list: the exercises whose id differs, in
      their order. */
  function RemoveExercise(exercises: seq<Exercise>, id: Id): (r: seq<Exercise>)
    ensures forall i :: 0 <= i < |r| ==> r[i].id != id && r[i] in exercises
    ensures forall i :: 0 <= i < |exercises| && exercises[i].id != id ==> exercises[i] in r
    ensures r == Pick(exercises, Matching(exercises, (e: Exercise) => e.id != id))
  {
    var keep := (e: Exercise) => e.id != id;
    FilterMembers(exercises, keep);
    Filter(exercises, keep)
  }

  /** `deleteExercise`'s session list: the sessions that do not use the
      exercise, in their order. */
  function RemoveSessionsUsing(sessions: seq<Session>, exerciseId: Id): (r: seq<Session>)
    ensures forall i :: 0 <= i < |r| ==> !UsesExercise(r[i], exerciseId) && r[i] in sessions
    ensures forall i :: 0 <= i < |sessions| && !UsesExercise(sessions[i], exerciseId) ==> sessions[i] in r
    ensures r == Pick(sessions, Matching(sessions, (s: Session) => !UsesExercise(s, exerciseId)))
  {
    var keep := (s: Session) => !UsesExercise(s, exerciseId);
    FilterMembers(sessions, keep);
    Filter(sessions, keep)
  }

  /** `deleteSession`'s list: the sessions whose id differs, in their order. */
  function RemoveSession(sessions: seq<Session>, id: Id): (r: seq<Session>)
    ensures forall i :: 0 <= i < |r| ==> r[i].id != id && r[i] in sessions
    ensures forall i :: 0 <= i < |sessions| && sessions[i].id != id ==> sessions[i] in r
    ensures r == Pick(sessions, Matching(sessions, (s: Session) => s.id != id))
  {
    var keep := (s: Session) => s.id != id;
    FilterMembers(sessions, keep);
    Filter(sessions, keep)
  }

  /** After a deletion no remaining session can start a workout that throws
      for the deleted exercise. */
  lemma DeleteExerciseLeavesNoDanglingSession(exercises: seq<Exercise>, sessions: seq<Session>, id: Id, k: nat, j: nat)
    requires k < |RemoveSessionsUsing(sessions, id)|
    requires j < |RemoveSessionsUsing(sessions, id)[k].exercises|
    ensures RemoveSessionsUsing(sessions, id)[k].exercises[j].exerciseId != id
  {
  }

  // ---------------------------------------------------------------------
  // The store
  // ---------------------------------------------------------------------

  /** A snapshot of every field of the store, to state what an action changes. */
  datatype StoreState = StoreState(
    screen: Screen,
    exercises: seq<Exercise>,
    sessions: seq<Session>,
    workoutHistory: seq<WorkoutResult>,
    activeWorkout: Option<ActiveWorkout>,
    lastResult: Option<WorkoutResult>,
    editingExerciseId: Option<Id>,
    editingSessionId: Option<Id>,
    savedExercises: seq<Exercise>,
    savedSessions: seq<Session>,
    savedHistory: seq<WorkoutResult>)

  /** The state after `finishWorkout` on workout `w`. */
  function Finished(st: StoreState, result: WorkoutResult): StoreState {
    st.(activeWorkout := None, lastResult := Some(result), screen := Results,
        savedHistory := Storage.SavedHistory(st.savedHistory, result))
  }

  /** The state after a step that may finish the workout. */
  function AfterStep(st: StoreState, step: Step, resultId: Id, now: int): StoreState {
    match step
    case Continue(next) => st.(activeWorkout := Some(next))
    case Finish(w) => Finished(st, ResultOf(w, resultId, now))
  }

  /** The store. The `saved…` fields stand for what local storage holds under
      the exercises, sessions and history keys. */
  class WorkoutStore {
    var screen: Screen
    var exercises: seq<Exercise>
    var sessions: seq<Session>
    var workoutHistory: seq<WorkoutResult>
    var activeWorkout: Option<ActiveWorkout>
    var lastResult: Option<WorkoutResult>
    var editingExerciseId: Option<Id>
    var editingSessionId: Option<Id>
    var savedExercises: seq<Exercise>
    var savedSessions: seq<Session>
    var savedHistory: seq<WorkoutResult>

    ghost function State(): StoreState
      reads this
    {
      StoreState(screen, exercises, sessions, workoutHistory, activeWorkout, lastResult,
                 editingExerciseId, editingSessionId, savedExercises, savedSessions, savedHistory)
    }

    ghost predicate Valid()
      reads this
    {
      activeWorkout.Some? ==> WorkoutValid(activeWorkout.value)
    }

    /** The store's initial state over what local storage already holds. */
    constructor(storedExercises: seq<Exercise>, storedSessions: seq<Session>, storedHistory: seq<WorkoutResult>)
      ensures Valid()
      ensures State() == StoreState(Home, [], [], [], None, None, None, None,
                                    storedExercises, storedSessions, storedHistory)
    {
      screen := Home;
      exercises := [];
      sessions := [];
      workoutHistory := [];
      activeWorkout := None;
      lastResult := None;
      editingExerciseId := None;
      editingSessionId := None;
      savedExercises := storedExercises;
      savedSessions := storedSessions;
      savedHistory := storedHistory;
    }

    method SetScreen(s: Screen)
      requires Valid()
      modifies this
      ensures Valid()
      ensures State() == old(State()).(screen := s)
    {
      screen := s;
    }

    /** `load`: the lists as stored. */
    method Load()
      requires Valid()
      modifies this
      ensures Valid()
      ensures State() == old(State()).(exercises := savedExercises, sessions := savedSessions,
                                       workoutHistory := savedHistory)
    {
      exercises, sessions, workoutHistory := savedExercises, savedSessions, savedHistory;
    }

    /** `addExercise`: appended with a new id, and saved. */
    method AddExercise(data: ExerciseData, newId: Id)
      requires Valid()
      modifies this
      ensures Valid()
      ensures exercises == old(exercises) + [Exercise(newId, data.name, data.restBetweenSets, data.isCardio, data.levels)]
      ensures State() == old(State()).(exercises := exercises, savedExercises := exercises)
    {
      var newEx := Exercise(newId, data.name, data.restBetweenSets, data.isCardio, data.levels);
      var next := exercises + [newEx];
      exercises := next;
      savedExercises := next;
    }

    method UpdateExercise(id: Id, patch: ExercisePatch)
      requires Valid()
      modifies this
      ensures Valid()
      ensures State() == old(State()).(exercises := UpdateExercises(old(exercises), id, patch),
                                       savedExercises := UpdateExercises(old(exercises), id, patch))
    {
      var next := UpdateExercises(exercises, id, patch);
      exercises := next;
      savedExercises := next;
    }

    /** `deleteExercise`: removes the exercise, stops editing, and removes
      every session that uses it; both lists are saved. */
    method DeleteExercise(id: Id)
      requires Valid()
      modifies this
      ensures Valid()
      ensures State() == old(State()).(
        exercises := RemoveExercise(old(exercises), id), savedExercises := RemoveExercise(old(exercises), id),
        editingExerciseId := None,
        sessions := RemoveSessionsUsing(old(sessions), id), savedSessions := RemoveSessionsUsing(old(sessions), id))
    {
      var next := RemoveExercise(exercises, id);
      exercises, editingExerciseId := next, None;
      savedExercises := next;
      var remaining := RemoveSessionsUsing(sessions, id);
      sessions := remaining;
      savedSessions := remaining;
    }

    method SetEditingExerciseId(id: Option<Id>)
      requires Valid()
      modifies this
      ensures Valid()
      ensures State() == old(State()).(editingExerciseId := id)
    {
      editingExerciseId := id;
    }

    method AddSession(data: SessionData, newId: Id)
      requires Valid()
      modifies this
      ensures Valid()
      ensures sessions == old(sessions) + [Session(newId, data.name, data.exercises, data.restBetweenExercises)]
      ensures State() == old(State()).(sessions := sessions, savedSessions := sessions)
    {
      var session := Session(newId, data.name, data.exercises, data.restBetweenExercises);
      var next := sessions + [session];
      sessions := next;
      savedSessions := next;
    }

    method UpdateSession(id: Id, patch: SessionPatch)
      requires Valid()
      modifies this
      ensures Valid()
      ensures State() == old(State()).(sessions := UpdateSessions(old(sessions), id, patch),
                                       savedSessions := UpdateSessions(old(sessions), id, patch))
    {
      var next := UpdateSessions(sessions, id, patch);
      sessions := next;
      savedSessions := next;
    }

    method DeleteSession(id: Id)
      requires Valid()
      modifies this
      ensures Valid()
      ensures State() == old(State()).(sessions := RemoveSession(old(sessions), id),
                                       savedSessions := RemoveSession(old(sessions), id),
                                       editingSessionId := None)
    {
      var next := RemoveSession(sessions, id);
      sessions, editingSessionId := next, None;
      savedSessions := next;
    }

    method SetEditingSessionId(id: Option<Id>)
      requires Valid()
      modifies this
      ensures Valid()
      ensures State() == old(State()).(editingSessionId := id)
    {
      editingSessionId := id;
    }

    method StartSingleExerciseWorkout(exerciseId: Id, level: int, newId: Id, now: int)
      requires Valid()
      modifies this
      ensures Valid()
      ensures var r := StartSingleExercise(old(exercises), exerciseId, level, newId, now);
        && (r.None? ==> State() == old(State()))
        && (r.Some? ==> State() == old(State()).(activeWorkout := r, screen := Workout))
    {
      var exercise := FindExercise(exercises, exerciseId);
      if exercise.None? {
        return;
      }
      var active := ActiveWorkout(newId, now, [WorkoutEntry(exercise.value, level, 0)], 0, 1, false, None, false, 0);
      activeWorkout, screen := Some(active), Workout;
    }

    /** `startSessionWorkout`; `thrown` is the id of the missing exercise when
      the session names one, in which case nothing changes. */
    method StartSessionWorkout(sessionId: Id, newId: Id, now: int) returns (thrown: Option<Id>)
      requires Valid()
      modifies this
      ensures Valid()
      ensures var r := StartSession(old(exercises), old(sessions), sessionId, newId, now);
        && (thrown.Some? <==> r.Thrown?)
        && (r.Thrown? ==> thrown.value == r.missingExerciseId)
        && (!r.Started? ==> State() == old(State()))
        && (r.Started? ==> State() == old(State()).(activeWorkout := Some(r.workout), screen := Workout))
    {
      thrown := None;
      var session := FindSession(sessions, sessionId);
      if session.None? {
        return;
      }
      var built := BuildActiveWorkoutExercises(exercises, session.value.exercises);
      if built.Err? {
        thrown := Some(built.error);
        return;
      }
      var activeExercises := built.value;
      if |activeExercises| == 0 {
        return;
      }
      var active := ActiveWorkout(newId, now, activeExercises, 0, 1, false, None, false,
                                  session.value.restBetweenExercises);
      activeWorkout, screen := Some(active), Workout;
    }

    /** `completeSet`, with the final set counted before `finishWorkout`
        (see `CompleteSetIntended`; `CompleteSetStep` keeps the code as
        written). */
    method CompleteSet(now: int, resultId: Id)
      requires Valid()
      modifies this
      ensures Valid()
      ensures old(activeWorkout).None? ==> State() == old(State())
      ensures old(activeWorkout).Some? ==>
        State() == AfterStep(old(State()), CompleteSetIntended(old(activeWorkout).value, now), resultId, now)
    {
      if activeWorkout.None? {
        return;
      }
      match CompleteSetIntended(activeWorkout.value, now)
      case Finish(snapshot) =>
        activeWorkout := Some(snapshot);
        FinishWorkout(now, resultId);
      case Continue(next) =>
        activeWorkout := Some(next);
    }

    method SetRestEndsAt(restEndsAt: Option<int>)
      requires Valid()
      modifies this
      ensures Valid()
      ensures old(activeWorkout).None? ==> State() == old(State())
      ensures old(activeWorkout).Some? ==>
        State() == old(State()).(activeWorkout := Some(old(activeWorkout).value.(restEndsAt := restEndsAt)))
    {
      if activeWorkout.Some? {
        activeWorkout := Some(activeWorkout.value.(restEndsAt := restEndsAt));
      }
    }

    method SetResting(resting: bool, restEndsAt: Option<int>, isRestBetweenExercises: bool)
      requires Valid()
      modifies this
      ensures Valid()
      ensures old(activeWorkout).None? ==> State() == old(State())
      ensures old(activeWorkout).Some? ==>
        State() == old(State()).(activeWorkout :=
          Some(SetRestingStep(old(activeWorkout).value, resting, restEndsAt, isRestBetweenExercises)))
    {
      if activeWorkout.None? {
        return;
      }
      activeWorkout := Some(SetRestingStep(activeWorkout.value, resting, restEndsAt, isRestBetweenExercises));
    }

    method AdvanceToNextExercise(now: int, resultId: Id)
      requires Valid()
      modifies this
      ensures Valid()
      ensures old(activeWorkout).None? ==> State() == old(State())
      ensures old(activeWorkout).Some? ==>
        State() == AfterStep(old(State()), AdvanceStep(old(activeWorkout).value), resultId, now)
    {
      if activeWorkout.None? {
        return;
      }
      match AdvanceStep(activeWorkout.value)
      case Finish(_) =>
        FinishWorkout(now, resultId);
      case Continue(next) =>
        activeWorkout := Some(next);
    }

    method RestComplete(now: int, resultId: Id)
      requires Valid()
      modifies this
      ensures Valid()
      ensures old(activeWorkout).None? ==> State() == old(State())
      ensures old(activeWorkout).Some? ==>
        State() == AfterStep(old(State()), RestCompleteStep(old(activeWorkout).value), resultId, now)
    {
      if activeWorkout.None? {
        return;
      }
      if activeWorkout.value.isRestBetweenExercises {
        AdvanceToNextExercise(now, resultId);
      } else {
        SetResting(false, None, false);
      }
    }

    /** `finishWorkout`: records the result, saves it to the history, and
      shows the results screen. The in-memory `workoutHistory` is left as it was. */
    method FinishWorkout(now: int, resultId: Id)
      requires Valid()
      modifies this
      ensures Valid()
      ensures old(activeWorkout).None? ==> State() == old(State())
      ensures old(activeWorkout).Some? ==>
        State() == Finished(old(State()), ResultOf(old(activeWorkout).value, resultId, now))
    {
      if activeWorkout.None? {
        return;
      }
      var st := StoreState(screen, exercises, sessions, workoutHistory, activeWorkout, lastResult,
                           editingExerciseId, editingSessionId, savedExercises, savedSessions, savedHistory);
      var next := FinishedRecords(st, activeWorkout.value, resultId, now);
      activeWorkout, lastResult, screen, savedHistory := next.activeWorkout, next.lastResult, next.screen, next.savedHistory;
    }

    method ClearLastResult()
      requires Valid()
      modifies this
      ensures Valid()
      ensures State() == old(State()).(lastResult := None)
    {
      lastResult := None;
    }
  }
}
