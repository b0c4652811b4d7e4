# cursor-fit workout core, modelled in Dafny

This project models the logic of the cursor-fit workout app. It covers the
application store that runs a workout set by set and turns it into a result.
It also covers the helpers around the store:

- the persisted, newest-first workout history and the migration of old
  exercise records;
- the countdown arithmetic, used both by the interval fallback and by the
  timer worker;
- the decisions of the workout, rest-timer, session-form and results
  screens;
- the standalone countdown timer and the stopwatch.

Each module models one source file:

| module | file | form |
|---|---|---|
| `Common` | helpers behind `find`, `findIndex`, `filter`, `[...new Set(xs)]`, `toString`, `padStart`, `%` | functions and lemmas |
| `Types` | the exercise, session, workout and result records as `store.ts` and `storage.ts` build them | datatypes |
| `Store` | `src/store.ts` | step functions with their lemmas, the `WorkoutStore` class whose fields the actions update, and the loops of `finishWorkout` |
| `Storage` | `src/storage.ts` | `safeParse` fallbacks, `saveWorkoutResult` (a method over the loaded history) and `migrateExercise` over untyped JSON values |
| `TimerUtils` | `src/timer-utils.ts` | remaining-seconds arithmetic, the `FallbackCountdown` class for the interval fallback of `startCountdown`, and `formatSeconds` |
| `TimerWorker` | `src/timer.worker.ts` | the `TimerWorker` class: the module variables as fields and `postMessage` as a list of posted messages |
| `ActiveWorkoutScreen` | `src/components/ActiveWorkoutScreen.tsx` | `getCurrentSetInfo`, the rest length, the progress bar and the set label |
| `RestTimer` | `src/components/RestTimer.tsx` | the effect's decision and the panel choice |
| `SessionCreator` | `src/components/SessionCreator.tsx` | `trim`, toggling and levelling the selection, and the submit guard applied to the store |
| `Results` | `src/components/ResultsScreen.tsx` | the `reduce` that groups sets by exercise (a loop with its invariant) and Finish |
| `TimerScreen` | `src/components/TimerScreen.tsx` | the `TimerScreen` class over the countdowns it starts and stops |
| `Stopwatch` | `src/components/StopwatchScreen.tsx` | the two time formats with parse-back round trips, laps, and the `Stopwatch` class |

The model works as follows:

- Time is integer milliseconds. `Date.now()`, `performance.now()` and `uid()`
  become parameters (`now`, `newId`, `resultId`).
- A timer firing (an interval, an animation frame or a worker tick) is a call
  of a `Tick`-like method.
- Local storage is represented by the store's `saved…` fields and by the
  stored-value inputs of `Storage`.

The workout protocol is stated first as functions on an `ActiveWorkout` value:
`CompleteSetStep`, `SetRestingStep`, `AdvanceStep` and `RestCompleteStep`.
The store's methods are specified by these functions. `CompleteSetStep`
follows the code as written, which drops the final set from the result (see
"Findings"). The store's `CompleteSet` method uses the corrected step,
`CompleteSetIntended`. The `OnTrack` predicate
describes the workout state that the workout screen maintains while it drives
the store. The model proves that starting a workout establishes this state and
that every step preserves it.

`finishWorkout` is a nested loop in the source. It is modelled by the methods
`BuildCompletedSets` and `PushLevelRecords`, which are proved against the
specification function `CompletedSetsOf`. The lemmas about that function give
the record count and order.

Where the tests and the code disagree, the step functions follow the code.
`createEmptyStrengthLevel` yields `'bodyweight'` weights, not `0`.
`CompleteSetStep` drops the last set of a workout, as the code does it. The
store's `CompleteSet` method instead uses the corrected step, which counts
that set, as the tests expect; see Findings.

## Model

| member | source | states |
|---|---|---|
| Common.Filter | src/store.ts:130 | `filter`: exactly the elements that satisfy the predicate, at their positions in ascending order, each once |
| Common.Dedup | src/store.ts:332 | `[...new Set(xs)]` has no repetitions, keeps exactly the elements of `xs`, and is no longer than `xs` |
| Common.DedupFirstAppearance | src/store.ts:332 | the distinct elements are listed in the order of their first occurrence |
| Common.DedupCount | src/store.ts:332 | there are as many entries as distinct elements |
| Store.FindLevel | src/store.ts:29 | `find` on levels: `None` exactly when no level has the number, otherwise the first one that does |
| Store.FindExercise | src/store.ts:165 | `None` exactly when no exercise has the id, otherwise the first exercise of the list with that id |
| Store.FindSession | src/store.ts:183 | `None` exactly when no session has the id, otherwise the first session of the list with that id |
| Store.GetLevelSetsCount | src/store.ts:28-31 | the set count of the first level with the number, and 0 when no level has it |
| Store.BuildActiveWorkoutExercises | src/store.ts:81-90 | succeeds exactly when every referenced exercise exists; one fresh entry (0 sets done) per session entry, in order; otherwise the error names the first entry, in session order, whose exercise is missing |
| Store.CreateEmptyStrengthLevel | src/store.ts:348-356 | the level number, and three sets of 8 reps at bodyweight |
| Store.CreateEmptyCardioLevel | src/store.ts:358-365 | the level number, and three 60-second sets with no weight |
| Store.StartSingleExercise | src/store.ts:163-179 | nothing for an unknown exercise; otherwise a one-entry workout of the first exercise with the id at the given level, not validated, at its start (index 0, set 1, no rest, rest between exercises 0) |
| Store.StartSession | src/store.ts:181-199 | nothing for a missing or empty session; a throw naming the first session entry whose exercise is missing; otherwise, per session entry in order, the first exercise with its id, 0 sets done, the session's rest copied, the workout at its start |
| Store.CountCurrentSet | src/store.ts:204-207 | only the current entry changes, and its done count rises by one |
| Store.CompleteSetStep | src/store.ts:201-239 | finishes exactly on the last set of the last exercise, with the workout not updated; otherwise counts the set and rests, between sets until `now + restBetweenSets*1000`, or between exercises until `now + rest*1000` and with no end time when that rest is not positive; the position is unchanged |
| Store.CompleteSetIntended | src/store.ts:201-239 | as `CompleteSetStep`, but the workout it finishes has the final set counted |
| Store.SetRestingStep | src/store.ts:246-264 | ending a rest within the exercise moves to the next set and clears the end time; otherwise the three flags are stored; entries, position and identity are kept |
| Store.AdvanceStep | src/store.ts:266-284 | finishes exactly after the last entry; otherwise the next entry from set 1, with no rest |
| Store.RestCompleteStep | src/store.ts:286-294 | after a rest between exercises it advances; otherwise it moves to the next set with no rest |
| Store.SetRecord | src/store.ts:305-324 | a duration record for a cardio set of a cardio exercise, with a weight defaulting to bodyweight; a reps record for a strength set; none otherwise; each record is 1-based and names the exercise and level |
| Store.LevelRecordsShape | src/store.ts:304-325 | at most one record per set, each within `1..n`, for the exercise and level, with increasing set numbers |
| Store.LevelRecordsExact | src/store.ts:304-325 | when every set yields a record, the first `n` sets give exactly their `n` records, in order |
| Store.TotalDurationSeconds | src/store.ts:330 | `Math.round` of the elapsed seconds: within half a second of the elapsed time, halves rounded up |
| Store.EntryNames | src/store.ts:332 | the exercise name of each entry, in order |
| Store.ExerciseNamesCover | src/store.ts:332 | every entry's name is listed, exactly once, and nothing else is |
| Store.ExerciseNamesOrdered | src/store.ts:332 | the names are ordered by their first occurrence among the entries |
| Store.FinishedRecords | src/store.ts:296-340 | the state after finishing: no active workout, the result of the workout shown on the results screen, and the result saved first in the history |
| Store.BuildCompletedSets | src/store.ts:299-326 | the outer loop collects the records of every entry, entry by entry (`CompletedSetsOf`) |
| Store.PushLevelRecords | src/store.ts:304-325 | the inner loop appends the records of the first `min(count, sets.length)` sets of the level |
| Store.EntryRecordsCount | src/store.ts:300-325 | an entry whose sets all yield records contributes one record per set done, up to the level's count |
| Store.CompletedSetsCount | src/store.ts:299-326 | a result holds one record per counted set of each entry |
| Store.StartOnTrack | src/store.ts:163-199 | a started workout whose levels all have sets is in the state the workout screen maintains |
| Store.OnTrackBounds | src/store.ts:201-294 | in that state no entry has more sets counted than its level has, and the current set lies within the level |
| Store.CompleteSetOnTrack | src/store.ts:201-239 | `completeSet` while not resting keeps the workout on track unless it finishes |
| Store.RestCompleteOnTrack | src/store.ts:286-294 | `restComplete` while resting never finishes, moves strictly forward (next set or next entry), and keeps the workout on track |
| Store.NextExerciseOnTrack | src/store.ts:266-284 | the rest between exercises is followed by the next entry, on track |
| Store.NextSetOnTrack | src/store.ts:246-264 | the rest between sets is followed by the next set, on track |
| Store.FinishAsWrittenDropsLastSet | src/store.ts:209-215 | as written, the final `completeSet` hands `finishWorkout` one set fewer than the workout planned |
| Store.FinishIntendedRecordsAllSets | src/store.ts:201-239 | with the corrected step, the result records every planned set |
| Store.OneSetWorkoutCounterexample | src/store.ts:209-215 | a one-set exercise done alone: as written the result has no set, as intended it has the one set |
| Store.TwoSetScenario | src/store.ts:201-239 | a two-set exercise rests `restBetweenSets` seconds after set 1, resumes at set 2, and finishes after set 2 |
| Store.PatchExercise | src/store.ts:124 | `{ ...e, ...data }`: for each of id, name, rest between sets, cardio flag and levels, a value present in the patch overrides and an absent one is kept; an empty patch changes nothing |
| Store.PatchSession | src/store.ts:150 | `{ ...s, ...data }`: for each of id, name, entries and rest between exercises, a value present in the patch overrides and an absent one is kept; an empty patch changes nothing |
| Store.UpdateExercises | src/store.ts:124 | exactly the exercises with the id are patched; the others and the order are kept |
| Store.UpdateSessions | src/store.ts:150 | exactly the sessions with the id are patched; the others and the order are kept |
| Store.RemoveExercise | src/store.ts:130 | no exercise with the id remains, every other exercise does, and the result is exactly the other exercises in their order, each once |
| Store.RemoveSessionsUsing | src/store.ts:133-135 | no remaining session uses the exercise, and the result is exactly the sessions that did not use it, in their order, each once |
| Store.RemoveSession | src/store.ts:156 | no session with the id remains, every other session does, and the result is exactly the other sessions in their order, each once |
| Store.DeleteExerciseLeavesNoDanglingSession | src/store.ts:129-138 | after the cascade no entry of a remaining session names the deleted exercise |
| Store.WorkoutStore.constructor | src/store.ts:92-100 | the home screen, empty lists, no workout, no result, not editing |
| Store.WorkoutStore.SetScreen | src/store.ts:102 | only the screen changes |
| Store.WorkoutStore.Load | src/store.ts:104-110 | the three lists become what storage holds, and nothing else changes |
| Store.WorkoutStore.AddExercise | src/store.ts:112-121 | the exercise is appended with the new id and saved, and nothing else changes |
| Store.WorkoutStore.UpdateExercise | src/store.ts:123-127 | the list becomes `UpdateExercises` and is saved |
| Store.WorkoutStore.DeleteExercise | src/store.ts:129-138 | the exercise and every session that uses it are removed, both lists are saved, and editing stops |
| Store.WorkoutStore.SetEditingExerciseId | src/store.ts:140 | only the edited exercise id changes |
| Store.WorkoutStore.AddSession | src/store.ts:142-147 | the session is appended with the new id and saved |
| Store.WorkoutStore.UpdateSession | src/store.ts:149-153 | the list becomes `UpdateSessions` and is saved |
| Store.WorkoutStore.DeleteSession | src/store.ts:155-159 | the session is removed and saved, and editing stops |
| Store.WorkoutStore.SetEditingSessionId | src/store.ts:161 | only the edited session id changes |
| Store.WorkoutStore.StartSingleExerciseWorkout | src/store.ts:163-179 | no change for an unknown exercise; otherwise the `StartSingleExercise` workout on the workout screen |
| Store.WorkoutStore.StartSessionWorkout | src/store.ts:181-199 | reports the missing exercise when the session names one; no change unless a workout starts; otherwise the `StartSession` workout on the workout screen |
| Store.WorkoutStore.CompleteSet | src/store.ts:201-239 | no change without a workout; otherwise the state after `CompleteSetIntended`: a rest as the code begins it, or a result from `finishWorkout` that counts the final set |
| Store.WorkoutStore.SetRestEndsAt | src/store.ts:241-244 | only the workout's end time changes, and nothing happens without a workout |
| Store.WorkoutStore.SetResting | src/store.ts:246-264 | the workout becomes `SetRestingStep`, and nothing happens without a workout |
| Store.WorkoutStore.AdvanceToNextExercise | src/store.ts:266-284 | the state after `AdvanceStep`, finishing after the last entry |
| Store.WorkoutStore.RestComplete | src/store.ts:286-294 | the state after `RestCompleteStep` |
| Store.WorkoutStore.FinishWorkout | src/store.ts:296-340 | no change without a workout; otherwise the result of the stored workout is shown and saved, and the workout ends |
| Store.WorkoutStore.ClearLastResult | src/store.ts:342 | only the last result is cleared |
| Storage.SafeParse | src/storage.ts:24-32 | a missing key or text that does not parse gives the fallback; otherwise the parsed value |
| Storage.SafeParseRoundTrip | src/storage.ts:24-32 | a value stored by a serializer that the parser inverts is read back as stored |
| Storage.SavedHistory | src/storage.ts:95-100 | the new result first, then the previous history in its order, at most 100 entries |
| Storage.SaveWorkoutResult | src/storage.ts:95-100 | `unshift` then `slice(0, 100)` gives `SavedHistory`, never more than 100 entries |
| Storage.SaveAllNewestFirst | src/storage.ts:95-100 | after several saves the history is the results newest first, then the older history, cut to 100 |
| Storage.HistoryCappedAfter105Saves | src/storage.ts:97-99 | 105 saves keep exactly the 100 newest results, the newest first |
| Storage.LevelNumber | src/storage.ts:48 | the stored level number when it is a number, otherwise 1 |
| Storage.MigrateLevel | src/storage.ts:46-63 | a level already holding a `sets` array is kept; an old level becomes `{level, sets: [one set]}`; a level that is not an object throws |
| Storage.MigrateOldCardioLevel | src/storage.ts:50-56 | a numeric duration becomes one cardio set of that duration, with the stored weight exactly when there was one |
| Storage.MigrateOldStrengthLevel | src/storage.ts:57-62 | any other old level becomes one strength set, reps defaulting to 8 and weight to `'bodyweight'` |
| Storage.MigrateLevels | src/storage.ts:46-63 | `levels.map`: every level migrated in place, or the failure of one |
| Storage.MigrateExercise | src/storage.ts:43-66 | a value that is not an object with a `levels` array is returned as is; otherwise the top-level `sets` field is dropped, the other fields are kept, and `levels` holds the migrated levels; the migration fails exactly when one of the levels cannot be migrated |
| Storage.MigrateNewShapeLevels | src/storage.ts:49 | levels already in the new shape pass through unchanged |
| Storage.MigrateExerciseIdempotent | src/storage.ts:43-66 | migrating a migrated exercise changes nothing |
| Storage.LoadExercises | src/storage.ts:70-73 | a missing key or unparseable text gives no exercises; a parsed value that is not an array fails; a parsed array is migrated element by element |
| Storage.MigrateAll | src/storage.ts:72 | `raw.map(migrateExercise)`: one migrated exercise per stored one, in order; it fails exactly when one of them fails |
| TimerUtils.RemainingSeconds | src/timer-utils.ts:61 | zero exactly when the end has passed; otherwise the whole seconds left, rounded up |
| TimerUtils.RemainingNonIncreasing | src/timer-utils.ts:59-61 | as the clock advances the remaining seconds never go up |
| TimerUtils.RemainingAtStart | src/timer-utils.ts:59-61 | at the start a countdown of `d` seconds reports `d` |
| TimerUtils.ThreeSecondCountdown | src/timer-utils.ts:59-67 | a 3-second countdown polled every second reports 3, 2, 1, 0 |
| TimerUtils.FallbackCountdown.constructor | src/timer-utils.ts:59-60 | the end is fixed at `now + duration*1000`, the interval is scheduled and nothing is reported yet |
| TimerUtils.FallbackCountdown.IntervalFired | src/timer-utils.ts:60-67 | reports the remaining seconds; at zero it reports done right after and clears the interval; a done always follows a zero tick and ends the reports, and the reports never go up |
| TimerUtils.FallbackCountdown.Stop | src/timer-utils.ts:69 | the interval is cleared and nothing more is reported |
| TimerUtils.FormatSeconds | src/timer-utils.ts:75-79 | the text has at least four characters |
| TimerUtils.FormatSecondsRoundTrip | src/timer-utils.ts:75-79 | for a non-negative count: the minutes numeral, a colon and exactly two digits, worth `minutes*60 + seconds` = the count |
| TimerUtils.FormatSecondsExamples | src/timer-utils.ts:75-79 | 0, 45, 61, 90 and 125 give "0:00", "0:45", "1:01", "1:30" and "2:05" |
| TimerUtils.FormatSecondsNegative | src/timer-utils.ts:76-78 | a negative count is not clamped: -5 gives "-1:-5" |
| TimerWorker.TimerWorker.constructor | src/timer.worker.ts:10-12 | no interval, end time 0, no countdown, nothing posted |
| TimerWorker.TimerWorker.Tick | src/timer.worker.ts:14-27 | nothing without a countdown; otherwise a tick with the remaining seconds and the countdown's id; at zero a done follows, the countdown ends and the interval is cleared |
| TimerWorker.TimerWorker.OnStop | src/timer.worker.ts:31-38 | the interval is cleared, no countdown remains, and nothing is posted |
| TimerWorker.TimerWorker.OnStart | src/timer.worker.ts:39-45 | the previous countdown is superseded: the end time is set, the new id ticks at once (with its done when already over), and a new interval is scheduled; later messages of a countdown carry only its id |
| ActiveWorkoutScreen.GetCurrentSetInfo | src/components/ActiveWorkoutScreen.tsx:50-66 | no target for a missing level, an out-of-range 1-based index, or a set that yields no record; otherwise exactly the reps or duration and the weight that `finishWorkout` records for that set |
| ActiveWorkoutScreen.TargetReadsBack | src/components/ActiveWorkoutScreen.tsx:181-195 | the target line of a non-negative cardio duration reads back as minutes, a colon and two digits worth that duration; of non-negative strength reps, as their decimal numeral; with no target of the exercise's kind it is a dash |
| ActiveWorkoutScreen.TargetShowsRecord | src/components/ActiveWorkoutScreen.tsx:50-66 | the target line of a set reads back as the duration or reps `finishWorkout` records for it, and is a dash when nothing of the exercise's kind is recorded |
| ActiveWorkoutScreen.RestSecondsShown | src/components/ActiveWorkoutScreen.tsx:93-96 | the rest between exercises during such a rest, otherwise the exercise's rest between sets |
| ActiveWorkoutScreen.RestScreenAfterCompleteSet | src/components/ActiveWorkoutScreen.tsx:91-107 | after `completeSet`, a positive rest counts down its full length; a non-positive rest between sets offers Continue; a zero rest between exercises shows the manual prompt; a negative one shows `--:--` |
| ActiveWorkoutScreen.ProgressSlots | src/components/ActiveWorkoutScreen.tsx:162-173 | one slot per set; a slot is current exactly at the current set, done exactly below the completed count otherwise, and pending otherwise |
| ActiveWorkoutScreen.ProgressWhileExercising | src/components/ActiveWorkoutScreen.tsx:162-173 | while a set is being done, the sets before it are done, it is current, and the rest are pending |
| ActiveWorkoutScreen.SetLabel | src/components/ActiveWorkoutScreen.tsx:175-177 | "Set X of Y" with the decimal numerals of the set and the level's count, each reading back as its number |
| ActiveWorkoutScreen.SetLabelAfterRest | src/components/ActiveWorkoutScreen.tsx:175-177 | completing a set that is not the last of its level and ending the rest moves the label to the next set number of the same count |
| ActiveWorkoutScreen.SetLabelAdvances | src/components/ActiveWorkoutScreen.tsx:175-177 | a completed set and its rest move "Set 1 of 2" to "Set 2 of 2" |
| RestTimer.RestTimerEffect | src/components/RestTimer.tsx:25-51 | no end time: 0 for a zero-length rest, unknown otherwise; a non-positive length: 0; otherwise the seconds left, never negative, completing at once when none are left and otherwise counting down from them |
| RestTimer.RestTimerPanel | src/components/RestTimer.tsx:53-97 | the manual prompt exactly for a zero-length rest with no end time; Continue exactly when otherwise nothing remains; otherwise the countdown, or `--:--` while unknown; the labels name the next set or the next exercise as the rest is between sets or exercises |
| RestTimer.PanelMatchesEffect | src/components/RestTimer.tsx:25-97 | after the effect the panel shows exactly the countdown that was started or the right prompt; a non-zero length with no end time shows `--:--` and never ends |
| RestTimer.CountdownTickPanel | src/components/RestTimer.tsx:42-97 | a positive tick is shown; the final zero tick turns the panel into Continue |
| SessionCreator.Trim | src/components/SessionCreator.tsx:51 | `trim`: a slice of the name with only white space before and after it, and no white space at either end |
| SessionCreator.TrimEmptyIffBlank | src/components/SessionCreator.tsx:51 | a name trims to nothing exactly when it is all white space |
| SessionCreator.TrimIdempotent | src/components/SessionCreator.tsx:54 | trimming a trimmed name changes nothing |
| SessionCreator.SaveUntouchedKeepsSession | src/components/SessionCreator.tsx:22-64 | editing a session with a trimmed, non-blank name and some exercises, and saving untouched, patches that session into itself |
| SessionCreator.ToggleExercise | src/components/SessionCreator.tsx:34-41 | selection flips; a selected exercise loses every entry and the others stay in their order, each once; an unselected one is appended at its first level, or 1 |
| SessionCreator.ToggleTwice | src/components/SessionCreator.tsx:34-41 | toggling an unselected exercise twice restores the selection |
| SessionCreator.SetLevel | src/components/SessionCreator.tsx:43-47 | only the entries of the exercise get the level; the order and the other entries are kept |
| SessionCreator.SaveNewUntouchedRejected | src/components/SessionCreator.tsx:22-32 | a new form saved untouched is rejected, since its name is blank |
| SessionCreator.SubmitDecision | src/components/SessionCreator.tsx:49-64 | rejected exactly for a blank trimmed name or an empty selection; an update of the edited session when it exists; otherwise a new session; the trimmed name is stored |
| SessionCreator.HandleSubmit | src/components/SessionCreator.tsx:49-66 | a rejected submit changes nothing; otherwise the store's session list is updated or extended and saved, and the sessions screen shown |
| SessionCreator.SubmittedSessionStarts | src/components/SessionCreator.tsx:58-64 | a new session whose exercises exist starts a workout following the selection in order, with its rest |
| Results.Positions | src/components/ResultsScreen.tsx:29-36 | the ascending positions of exactly the sets carrying a name |
| Results.SetsNamedInOrder | src/components/ResultsScreen.tsx:31-33 | a group's sets are the sets at its name's positions, in their original order |
| Results.AddToGroup | src/components/ResultsScreen.tsx:30-34 | the reduce callback keeps the accumulator equal to the grouping of the sets seen so far |
| Results.Reduce | src/components/ResultsScreen.tsx:29-36 | the reduce yields keys in insertion order (the distinct names) and, for each, the sets of that name |
| Results.ByExercise | src/components/ResultsScreen.tsx:29-52 | `Object.entries` of the reduce is the grouping `GroupsOf` |
| Results.EverySetInItsGroup | src/components/ResultsScreen.tsx:29-36 | names are unique among groups, every set lies in the group of its name, and no group holds another name's set |
| Results.GroupsPartitionSets | src/components/ResultsScreen.tsx:29-36 | the groups together hold exactly as many sets as were completed |
| Results.GroupCount | src/components/ResultsScreen.tsx:29-36 | there are as many groups as distinct exercise names |
| Results.GroupOrder | src/components/ResultsScreen.tsx:52 | groups are listed in the order of their names' first appearance |
| Results.HandleFinish | src/components/ResultsScreen.tsx:9-12 | the last result is cleared and the home screen shown, nothing else changes |
| TimerScreen.PresetsAreMinutes | src/components/TimerScreen.tsx:8-18 | each preset's caption is its length in minutes, and five minutes is a preset |
| TimerScreen.TimerScreen.constructor | src/components/TimerScreen.tsx:23-27 | five minutes, idle, nothing running or paused |
| TimerScreen.TimerScreen.StartTimer | src/components/TimerScreen.tsx:36-54 | runs from the paused time when paused, else the full duration; running, not paused, and a fresh countdown to that end is held; a countdown runs exactly while running |
| TimerScreen.TimerScreen.CountdownFired | src/components/TimerScreen.tsx:45-53 | shows the seconds left, which never go up; at zero the timer is done and the stop handle dropped |
| TimerScreen.TimerScreen.PauseTimer | src/components/TimerScreen.tsx:56-63 | the running countdown is stopped before its handle is dropped, the shown time is remembered, paused |
| TimerScreen.TimerScreen.ResetTimer | src/components/TimerScreen.tsx:65-73 | the running countdown is stopped, the full duration shown, idle, nothing remembered |
| TimerScreen.TimerScreen.SelectPreset | src/components/TimerScreen.tsx:75-81 | ignored while running; otherwise the preset becomes duration and shown time, idle |
| TimerScreen.TimerScreen.Unmount | src/components/TimerScreen.tsx:29-34 | no countdown the screen started is left scheduled |
| Stopwatch.ClockOf | src/components/StopwatchScreen.tsx:13-16 | for a non-negative time: seconds below 60, hundredths below 100, worth the time truncated to hundredths |
| Stopwatch.FormatTime | src/components/StopwatchScreen.tsx:12-18 | the text has at least eight characters |
| Stopwatch.FormatLapTime | src/components/StopwatchScreen.tsx:20-29 | the text has at least four characters |
| Stopwatch.TimeTextReads | src/components/StopwatchScreen.tsx:17 | the `MM:SS.cc` text of a reading reads back as that reading |
| Stopwatch.LapTextReadsMinutes | src/components/StopwatchScreen.tsx:25-27 | from a minute on, the `M:SS.cc` lap text reads back as the reading |
| Stopwatch.LapTextReadsSeconds | src/components/StopwatchScreen.tsx:28 | under a minute, the `S.cc` lap text reads back as the reading and has no colon |
| Stopwatch.FormatTimeRoundTrip | src/components/StopwatchScreen.tsx:12-18 | the display of a non-negative time reads back as the time truncated to hundredths |
| Stopwatch.FormatLapTimeRoundTrip | src/components/StopwatchScreen.tsx:20-29 | the lap display reads back as the time truncated to hundredths, and has a minutes part exactly from one minute on |
| Stopwatch.FormatTimeExamples | src/components/StopwatchScreen.tsx:12-18 | 0 ms gives "00:00.00" and 61234 ms "01:01.23" |
| Stopwatch.FormatLapTimeExamples | src/components/StopwatchScreen.tsx:20-29 | 5430 ms gives "5.43" and 65430 ms "1:05.43" |
| Stopwatch.AddLap | src/components/StopwatchScreen.tsx:81-94 | the new lap goes in front at the elapsed time, the list stays numbered n down to 1 with chained deltas, and stays in time order |
| Stopwatch.DeltasSumToTime | src/components/StopwatchScreen.tsx:86-93 | the deltas add up to the newest lap's time |
| Stopwatch.DeltasNonNegative | src/components/StopwatchScreen.tsx:81-94 | laps taken at non-decreasing times have no negative delta |
| Stopwatch.Stopwatch.constructor | src/components/StopwatchScreen.tsx:35-41 | zero elapsed, stopped, no laps, nothing accumulated |
| Stopwatch.Stopwatch.Tick | src/components/StopwatchScreen.tsx:43-49 | while running the shown time is the accumulated time plus the current run, and it never goes down |
| Stopwatch.Stopwatch.Start | src/components/StopwatchScreen.tsx:51-55 | a run begins now; the shown and accumulated times are kept |
| Stopwatch.Stopwatch.Stop | src/components/StopwatchScreen.tsx:57-67 | the current run is added to the accumulated time and the start time cleared |
| Stopwatch.Stopwatch.Reset | src/components/StopwatchScreen.tsx:69-79 | shown and accumulated times are zero, no laps, stopped |
| Stopwatch.Stopwatch.TakeLap | src/components/StopwatchScreen.tsx:81-94 | the lap `AddLap` builds is put in front, and the deltas then add up to the shown time |

## Left out

- Rendering, markup, class strings, translations, the sound, and the React hook machinery are not modelled. Each effect and handler is a function or a method called directly.
- Local storage, `JSON.parse`, `JSON.stringify` and `console.error` are not modelled. A stored value is an `Option<string>`, parsing is a caller-supplied function returning `None` where `JSON.parse` throws, and writes are the store's `saved…` fields.
- Store.WorkoutStore.Load: it takes the stored lists as already decoded. Migration of stored exercises is modelled separately over JSON values (`Storage.LoadExercises`, `Storage.MigrateExercise`), and the typed decoding of a migrated value is not modelled.
- The worker transport of `startCountdown` is not modelled: creating the worker, the message listener that filters by id, and the stop function that posts `stop`. The worker itself is modelled (`TimerWorker`), and the screens use the interval fallback.
- `Date.now()`, `performance.now()` and `uid()` are parameters. Fractional milliseconds from `performance.now()` are not modelled.
- Store.WorkoutStore.CompleteSet: it follows the corrected step `CompleteSetIntended`, which counts the final set before `finishWorkout`, not the code as written (src/store.ts:212-214). The as-written behaviour is `CompleteSetStep`, and the difference is the Findings row.
- Store.ResultOf: one `now` gives both `completedAt` and the duration, where the source reads `Date.now()` twice (src/store.ts:329-330); the two readings can differ by the time between them.
- A clock that runs backwards is excluded: the countdown, worker and stopwatch steps require non-decreasing readings.
- `Object.entries` lists integer-like keys first, and the results grouping does not model that order: it lists keys in insertion order.
- Results.ByExercise: it treats every exercise name as an ordinary key. In the source, a name inherited from `Object.prototype` (`constructor`, `toString`, `__proto__`, ...) makes `acc[name]` truthy before any set is added. The `.push` call then throws a TypeError and the results screen fails to render (src/components/ResultsScreen.tsx:31-32). The model does not capture that crash.
- The results screen's "No results" branch, with its Home button, is not modelled. Neither is the per-set summary text with its weight display, nor the weight line of the workout screen.
- `quitWorkout`, `clearAllData`, `clearWorkoutHistory`, `deleteWorkoutResult` and the sound setting are used by screens but not defined by the store. They are not modelled.
- The progress ring of the timer screen (floating point) is not modelled. Neither are the history screen's date formatting, the exercise form, or the stopwatch's unmount cleanup.
- TimerScreen.TimerScreen.StartTimer: it requires the timer not to be running, because the start button is only rendered then.
- Stopwatch.Stopwatch.Start: it requires the stopwatch to be stopped, because the start button is only rendered then.
- Stopwatch.FormatTime: the round trip is proved for non-negative times only, the only times the stopwatch shows.
- Stopwatch.FormatLapTime: the round trip is proved for non-negative times only. A negative delta cannot arise from laps taken in time order (`DeltasNonNegative`).
- ActiveWorkoutScreen.TargetReadsBack: the read-back is proved for non-negative durations and reps only; a negative target is shown with its sign and is not read back.
- TimerUtils.FormatSeconds: the round trip is proved for non-negative counts only. Negative counts are shown by an example (`FormatSecondsNegative`).
- `createEmptyStrengthLevel`'s weight follows the code (`'bodyweight'`), although a test of the repository expects `0`.

## Findings

| source | as written | input that shows it | evidently intended | confidence | as-written member | corrected member |
|---|---|---|---|---|---|---|
| src/store.ts:209-215 | on the last set of the last exercise, `completeSet` calls `finishWorkout` without storing the updated entry, so `finishWorkout` reads a workout whose final set is not counted | a single-exercise workout of one level with one strength set: completing that set finishes with an empty `completedSets` | the final set is counted before the result is built, so the result holds every planned set | not executed | Store.OneSetWorkoutCounterexample | Store.FinishIntendedRecordsAllSets |
