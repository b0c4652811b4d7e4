/** The persistence helpers of `src/storage.ts`: reading a stored value with a
    fallback, migrating exercises stored in the old one-set-per-level shape,
    and the bounded, newest-first workout history.

    `localStorage` and `JSON.parse` are not modelled: a stored value is an
    `Option<string>` (absent key or raw text) and parsing is a function the
    caller supplies, returning `None` where `JSON.parse` would throw. Stored
    exercises are migrated as untyped JSON values, as the source does. */
module Storage {
  import opened Common
  import opened Types

  /** How many results the history keeps. */
  const HISTORY_LIMIT: nat := 100

  // ---------------------------------------------------------------------
  // safeParse
  // ---------------------------------------------------------------------

  /** `safeParse`: a missing key, or a value that does not parse, gives `fallback`. */
  function SafeParse<T>(raw: Option<string>, parse: string -> Option<T>, fallback: T): (r: T)
    ensures raw.None? ==> r == fallback
    ensures raw.Some? && parse(raw.value).None? ==> r == fallback
    ensures raw.Some? && parse(raw.value).Some? ==> r == parse(raw.value).value
  {
    match raw
    case None => fallback
    case Some(text) =>
      match parse(text)
      case None => fallback
      case Some(v) => v
  }

  /** A value written by a serializer that `parse` inverts is read back as written. */
  lemma SafeParseRoundTrip<T>(v: T, serialize: T -> string, parse: string -> Option<T>, fallback: T)
    requires parse(serialize(v)) == Some(v)
    ensures SafeParse(Some(serialize(v)), parse, fallback) == v
  {
  }

  /** `loadWorkoutHistory`. */
  function LoadWorkoutHistory(raw: Option<string>, parse: string -> Option<seq<WorkoutResult>>): seq<WorkoutResult>
  {
    SafeParse(raw, parse, [])
  }

  // ---------------------------------------------------------------------
  // saveWorkoutResult
  // ---------------------------------------------------------------------

  /** The history `saveWorkoutResult` writes: the new result first, then the
      previous history in its order, cut to `HISTORY_LIMIT` entries. */
  function SavedHistory(history: seq<WorkoutResult>, result: WorkoutResult): (r: seq<WorkoutResult>)
    ensures |r| == Min(|history| + 1, HISTORY_LIMIT)
    ensures r[0] == result
    ensures forall i :: 1 <= i < |r| ==> r[i] == history[i - 1]
  {
    ([result] + history)[..Min(|history| + 1, HISTORY_LIMIT)]
  }

  /** `saveWorkoutResult`, given the history `loadWorkoutHistory` returned:
      `unshift` the result, then keep `slice(0, 100)`. */
  method SaveWorkoutResult(history: seq<WorkoutResult>, result: WorkoutResult) returns (saved: seq<WorkoutResult>)
    ensures |saved| <= HISTORY_LIMIT
    ensures saved == SavedHistory(history, result)
  {
    var h := history;
    h := [result] + h;
    saved := h[..Min(|h|, HISTORY_LIMIT)];
  }

  function Reverse<T>(s: seq<T>): (r: seq<T>)
    ensures |r| == |s|
    ensures forall i :: 0 <= i < |s| ==> r[i] == s[|s| - 1 - i]
  {
    if |s| == 0 then [] else [s[|s| - 1]] + Reverse(s[..|s| - 1])
  }

  /** The history after saving `results` one after the other. */
  function SaveAll(history: seq<WorkoutResult>, results: seq<WorkoutResult>): seq<WorkoutResult>
  {
    if |results| == 0 then history
    else SavedHistory(SaveAll(history, results[..|results| - 1]), results[|results| - 1])
  }

  /** After one or more saves the history holds the newest results first, then
      the older history, and never more than `HISTORY_LIMIT` entries. */
  lemma {:induction false} SaveAllNewestFirst(history: seq<WorkoutResult>, results: seq<WorkoutResult>)
    requires |results| > 0
    ensures SaveAll(history, results)
         == (Reverse(results) + history)[..Min(|results| + |history|, HISTORY_LIMIT)]
  {
    var n := |results|;
    var last := results[n - 1];
    var front := results[..n - 1];
    assert Reverse(results) == [last] + Reverse(front);
    if n == 1 {
      assert Reverse(front) == [];
    } else {
      SaveAllNewestFirst(history, front);
      var older := Reverse(front) + history;
      SaveOntoCapped(older, last);
      assert Reverse(results) + history == [last] + older;
    }
  }

  /** Saving onto a capped history is capping the longer history. */
  lemma SaveOntoCapped(older: seq<WorkoutResult>, last: WorkoutResult)
    ensures SavedHistory(older[..Min(|older|, HISTORY_LIMIT)], last)
         == ([last] + older)[..Min(|older| + 1, HISTORY_LIMIT)]
  {
    var p := older[..Min(|older|, HISTORY_LIMIT)];
    var lhs := SavedHistory(p, last);
    var rhs := ([last] + older)[..Min(|older| + 1, HISTORY_LIMIT)];
    forall i | 0 <= i < |lhs| ensures lhs[i] == rhs[i] {
      if i > 0 {
        assert lhs[i] == p[i - 1] == older[i - 1];
      }
    }
  }

  /** 105 saves onto an empty history keep exactly the 100 newest, the newest first. */
  lemma HistoryCappedAfter105Saves(results: seq<WorkoutResult>)
    requires |results| == 105
    ensures |SaveAll([], results)| == 100
    ensures SaveAll([], results)[0] == results[104]
    ensures SaveAll([], results)[99] == results[5]
  {
    SaveAllNewestFirst([], results);
    assert Reverse(results) + [] == Reverse(results);
  }

  // ---------------------------------------------------------------------
  // migrateExercise
  // ---------------------------------------------------------------------

  /** A parsed JSON value. `JSON.parse` never produces `undefined`, so a key
      is either absent or bound to one of these. */
  datatype Json =
    | JNull
    | JBool(b: bool)
    | JNum(num: real)
    | JStr(str: string)
    | JArr(items: seq<Json>)
    | JObj(fields: map<string, Json>)

  /** The keys an object-like value answers to `in`: arrays parsed from JSON
      have none of the keys migration asks about. */
  function Props(v: Json): map<string, Json>
    requires v.JObj? || v.JArr?
  {
    if v.JObj? then v.fields else map[]
  }

  predicate HasNumber(m: map<string, Json>, key: string) {
    key in m && m[key].JNum?
  }

  predicate HasArray(m: map<string, Json>, key: string) {
    key in m && m[key].JArr?
  }

  /** A level already in the sets-array shape. */
  predicate IsNewShapeLevel(v: Json) {
    (v.JObj? || v.JArr?) && HasArray(Props(v), "sets")
  }

  /** The level number migration writes: the stored number, or 1. */
  function LevelNumber(lev: map<string, Json>): (r: Json)
    ensures r.JNum?
    ensures HasNumber(lev, "level") ==> r == lev["level"]
    ensures !HasNumber(lev, "level") ==> r == JNum(1.0)
  {
    if HasNumber(lev, "level") then lev["level"] else JNum(1.0)
  }

  /** One level of `migrateExercise`. A level that is not an object makes the
      `in` test throw, which aborts the whole migration. */
  function MigrateLevel(l: Json): (r: Result<Json, string>)
    ensures r.Err? <==> !(l.JObj? || l.JArr?)
    ensures r.Ok? ==> IsNewShapeLevel(r.value)
    ensures IsNewShapeLevel(l) ==> r == Ok(l)
    ensures r.Ok? && !IsNewShapeLevel(l) ==>
      var lev := Props(l);
      r.value.JObj? && r.value.fields.Keys == {"level", "sets"}
      && r.value.fields["level"] == LevelNumber(lev)
      && |r.value.fields["sets"].items| == 1
  {
    if !(l.JObj? || l.JArr?) then Err("TypeError: cannot use 'in' operator on a primitive level")
    else
      var lev := Props(l);
      var levelNum := LevelNumber(lev);
      if HasArray(lev, "sets") then Ok(l)
      else if HasNumber(lev, "duration") then
        var weight := if "weight" in lev then map["weight" := lev["weight"]] else map[];
        var cardioSet := map["duration" := lev["duration"]] + weight;
        Ok(JObj(map["level" := levelNum, "sets" := JArr([JObj(cardioSet)])]))
      else
        var reps := if HasNumber(lev, "reps") then lev["reps"] else JNum(8.0);
        var weight := if "weight" in lev then lev["weight"] else JStr("bodyweight");
        Ok(JObj(map["level" := levelNum, "sets" := JArr([JObj(map["reps" := reps, "weight" := weight])])]))
  }

  /** An old level with a numeric duration becomes one cardio set with that
      duration, carrying the stored weight only when there was one. */
  lemma MigrateOldCardioLevel(l: Json)
    requires l.JObj? && !HasArray(l.fields, "sets") && HasNumber(l.fields, "duration")
    ensures MigrateLevel(l).Ok?
    ensures var migrated := MigrateLevel(l).value.fields["sets"].items[0];
      && migrated.JObj?
      && migrated.fields["duration"] == l.fields["duration"]
      && ("weight" in migrated.fields <==> "weight" in l.fields)
      && ("weight" in l.fields ==> migrated.fields["weight"] == l.fields["weight"])
      && migrated.fields.Keys <= {"duration", "weight"}
  {
  }

  /** Any other old level becomes one strength set: reps default to 8 and the
      weight to `'bodyweight'`. */
  lemma MigrateOldStrengthLevel(l: Json)
    requires l.JObj? && !HasArray(l.fields, "sets") && !HasNumber(l.fields, "duration")
    ensures MigrateLevel(l).Ok?
    ensures var migrated := MigrateLevel(l).value.fields["sets"].items[0];
      && migrated == JObj(map[
        "reps" := if HasNumber(l.fields, "reps") then l.fields["reps"] else JNum(8.0),
        "weight" := if "weight" in l.fields then l.fields["weight"] else JStr("bodyweight")])
  {
  }

  /** `levels.map(...)`: every level migrated, or the first error. */
  function MigrateLevels(levels: seq<Json>): (r: Result<seq<Json>, string>)
    ensures r.Ok? <==> forall i :: 0 <= i < |levels| ==> MigrateLevel(levels[i]).Ok?
    ensures r.Ok? ==> |r.value| == |levels|
    ensures r.Ok? ==> forall i :: 0 <= i < |levels| ==> r.value[i] == MigrateLevel(levels[i]).value
  {
    if |levels| == 0 then Ok([])
    else
      match MigrateLevel(levels[0])
      case Err(e) => Err(e)
      case Ok(first) =>
        match MigrateLevels(levels[1..])
        case Err(e) => Err(e)
        case Ok(rest) => Ok([first] + rest)
  }

  predicate HasLevelsArray(ex: Json) {
    ex.JObj? && HasArray(ex.fields, "levels")
  }

  /** `migrateExercise`: rewrites every level to the sets-array shape and drops
      the old top-level `sets` count; a value that is not an object with a
      `levels` array is returned as it is. */
  function MigrateExercise(ex: Json): (r: Result<Json, string>)
    ensures !HasLevelsArray(ex) ==> r == Ok(ex)
    ensures HasLevelsArray(ex) ==> (r.Ok? <==> MigrateLevels(ex.fields["levels"].items).Ok?)
    ensures HasLevelsArray(ex) && r.Ok? ==>
      && r.value.JObj?
      && "sets" !in r.value.fields
      && HasLevelsArray(r.value)
      && (forall k :: k in ex.fields && k != "sets" && k != "levels" ==>
            k in r.value.fields && r.value.fields[k] == ex.fields[k])
      && (forall k :: k in r.value.fields ==> k in ex.fields)
    ensures HasLevelsArray(ex) && r.Ok? ==>
      r.value.fields["levels"] == JArr(MigrateLevels(ex.fields["levels"].items).value)
  {
    if !HasLevelsArray(ex) then Ok(ex)
    else
      match MigrateLevels(ex.fields["levels"].items)
      case Err(e) => Err(e)
      case Ok(levels) => Ok(JObj((ex.fields - {"sets"})["levels" := JArr(levels)]))
  }

  /** Levels already in the new shape pass through unchanged. */
  lemma {:induction false} MigrateNewShapeLevels(levels: seq<Json>)
    requires forall i :: 0 <= i < |levels| ==> IsNewShapeLevel(levels[i])
    ensures MigrateLevels(levels) == Ok(levels)
  {
    if |levels| > 0 {
      MigrateNewShapeLevels(levels[1..]);
      assert levels == [levels[0]] + levels[1..];
    }
  }

  /** Migrating a migrated exercise changes nothing. */
  lemma MigrateExerciseIdempotent(ex: Json)
    requires MigrateExercise(ex).Ok?
    ensures MigrateExercise(MigrateExercise(ex).value) == MigrateExercise(ex)
  {
    var once := MigrateExercise(ex).value;
    if HasLevelsArray(ex) {
      var levels := once.fields["levels"].items;
      MigrateNewShapeLevels(levels);
      assert (once.fields - {"sets"})["levels" := JArr(levels)] == once.fields;
    }
  }

  /** `loadExercises`: the stored list, each exercise migrated. A stored value
      that is not an array makes `map` throw. */
  function LoadExercises(raw: Option<string>, parse: string -> Option<Json>): (r: Result<seq<Json>, string>)
    ensures raw.None? ==> r == Ok([])
    ensures raw.Some? && parse(raw.value).None? ==> r == Ok([])
    ensures raw.Some? && parse(raw.value).Some? && !parse(raw.value).value.JArr? ==> r.Err?
    ensures raw.Some? && parse(raw.value).Some? && parse(raw.value).value.JArr? ==>
      r == MigrateAll(parse(raw.value).value.items)
  {
    var stored := SafeParse(raw, parse, JArr([]));
    if !stored.JArr? then Err("TypeError: stored exercises are not an array")
    else MigrateAll(stored.items)
  }

  /** `raw.map(migrateExercise)`. */
  function MigrateAll(items: seq<Json>): (r: Result<seq<Json>, string>)
    ensures r.Ok? <==> forall i :: 0 <= i < |items| ==> MigrateExercise(items[i]).Ok?
    ensures r.Ok? ==> |r.value| == |items|
    ensures r.Ok? ==> forall i :: 0 <= i < |items| ==> Ok(r.value[i]) == MigrateExercise(items[i])
  {
    if |items| == 0 then Ok([])
    else
      match MigrateExercise(items[0])
      case Err(e) => Err(e)
      case Ok(first) =>
        match MigrateAll(items[1..])
        case Err(e) => Err(e)
        case Ok(rest) => Ok([first] + rest)
  }
}
