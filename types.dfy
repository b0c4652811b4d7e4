/** The entities the workout store manipulates, in the shape the store and the
    storage layer actually build: a level owns a list of sets, and a set is
    either a strength set (reps and weight) or a cardio set (duration and an
    optional weight). Timestamps are integer milliseconds. */
module Types {
  import opened Common

  type Id = string

  /** A weight is a number of kilograms or the sentinel `'bodyweight'`. */
  datatype Weight = Kg(kg: real) | Bodyweight

  /** One set of a level. */
  datatype SetSpec =
    | StrengthSet(reps: int, weight: Weight)
    | CardioSet(duration: int, optWeight: Option<Weight>)

  datatype Level = Level(level: int, sets: seq<SetSpec>)

  datatype Exercise = Exercise(
    id: Id,
    name: string,
    restBetweenSets: int,
    isCardio: bool,
    levels: seq<Level>)

  datatype SessionExercise = SessionExercise(exerciseId: Id, level: int)

  datatype Session = Session(
    id: Id,
    name: string,
    exercises: seq<SessionExercise>,
    restBetweenExercises: int)

  /** One exercise of an active workout: a snapshot of the exercise, the chosen
      level and how many of its sets have been completed. */
  datatype WorkoutEntry = WorkoutEntry(exercise: Exercise, level: int, completedSets: nat)

  datatype ActiveWorkout = ActiveWorkout(
    id: Id,
    startedAt: int,
    exercises: seq<WorkoutEntry>,
    currentExerciseIndex: nat,
    currentSet: nat,
    isResting: bool,
    restEndsAt: Option<int>,
    isRestBetweenExercises: bool,
    restBetweenExercises: int)

  /** A completed set carries either its reps or its duration, never both. */
  datatype Measure = Reps(reps: int) | Duration(duration: int)

  datatype CompletedSet = CompletedSet(
    exerciseId: Id,
    exerciseName: string,
    setIndex: nat,
    level: int,
    measure: Measure,
    weight: Weight)

  datatype WorkoutResult = WorkoutResult(
    id: Id,
    completedAt: int,
    totalDurationSeconds: int,
    completedSets: seq<CompletedSet>,
    exerciseNames: seq<string>)

  datatype Screen =
    | Home
    | Exercises
    | ExerciseEdit
    | ExerciseCreate
    | Sessions
    | SessionCreate
    | SessionEdit
    | Workout
    | Results
}
