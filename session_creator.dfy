/** The session form of `src/components/SessionCreator.tsx`: how the form is
    filled, how exercises are toggled and given a level, and what a submit
    does to the store. Rendering is not modelled. */
module SessionCreator {
  import opened Common
  import opened Types
  import opened Store

  // ---------------------------------------------------------------------
  // String.prototype.trim
  // ---------------------------------------------------------------------

  /** The characters `trim` removes: ECMAScript white space and line terminators. */
  predicate IsJsWhitespace(c: char) {
    var n := c as int;
    || n == 0x09 || n == 0x0A || n == 0x0B || n == 0x0C || n == 0x0D || n == 0x20
    || n == 0xA0 || n == 0x1680 || (0x2000 <= n <= 0x200A)
    || n == 0x2028 || n == 0x2029 || n == 0x202F || n == 0x205F || n == 0x3000 || n == 0xFEFF
  }

  function TrimStart(s: string): (r: string)
    ensures |r| <= |s| && r == s[|s| - |r|..]
    ensures |r| > 0 ==> !IsJsWhitespace(r[0])
    ensures forall i :: 0 <= i < |s| - |r| ==> IsJsWhitespace(s[i])
  {
    if |s| > 0 && IsJsWhitespace(s[0]) then TrimStart(s[1..]) else s
  }

  function TrimEnd(s: string): (r: string)
    ensures |r| <= |s| && r == s[..|r|]
    ensures |r| > 0 ==> !IsJsWhitespace(r[|r| - 1])
    ensures forall i :: |r| <= i < |s| ==> IsJsWhitespace(s[i])
  {
    if |s| > 0 && IsJsWhitespace(s[|s| - 1]) then TrimEnd(s[..|s| - 1]) else s
  }

  /** `r` is the slice of `s` that starts at `k`, and everything of `s`
      before and after it is white space. */
  predicate TrimmedAt(s: string, k: int, r: string) {
    && 0 <= k && k + |r| <= |s|
    && (forall i :: 0 <= i < |r| ==> r[i] == s[k + i])
    && (forall i :: 0 <= i < k ==> IsJsWhitespace(s[i]))
    && (forall i :: k + |r| <= i < |s| ==> IsJsWhitespace(s[i]))
  }

  /** `trim`: the text without leading and trailing white space. */
  function Trim(s: string): (r: string)
    ensures |r| <= |TrimStart(s)| <= |s|
    ensures |r| > 0 ==> !IsJsWhitespace(r[0]) && !IsJsWhitespace(r[|r| - 1])
    ensures TrimmedAt(s, |s| - |TrimStart(s)|, r)
  {
    var t := TrimStart(s);
    TrimEndOfSuffix(s, t);
    TrimEnd(t)
  }

  /** Trimming the end of a suffix that follows only white space leaves a
      slice of the whole text with white space on both sides. */
  lemma TrimEndOfSuffix(s: string, t: string)
    requires |t| <= |s| && t == s[|s| - |t|..]
    requires forall i :: 0 <= i < |s| - |t| ==> IsJsWhitespace(s[i])
    ensures TrimmedAt(s, |s| - |t|, TrimEnd(t))
  {
    SuffixSlice(s, t, TrimEnd(t));
    SuffixTrailing(s, t, TrimEnd(t));
  }

  lemma SuffixSlice(s: string, t: string, r: string)
    requires |t| <= |s| && t == s[|s| - |t|..]
    requires |r| <= |t| && r == t[..|r|]
    ensures forall i :: 0 <= i < |r| ==> r[i] == s[|s| - |t| + i]
  {
    forall i | 0 <= i < |r| ensures r[i] == s[|s| - |t| + i] {
      assert r[i] == t[i];
    }
  }

  lemma SuffixTrailing(s: string, t: string, r: string)
    requires |t| <= |s| && t == s[|s| - |t|..] && |r| <= |t|
    requires forall i :: |r| <= i < |t| ==> IsJsWhitespace(t[i])
    ensures forall i :: |s| - |t| + |r| <= i < |s| ==> IsJsWhitespace(s[i])
  {
    var k := |s| - |t|;
    forall i | k + |r| <= i < |s| ensures IsJsWhitespace(s[i]) {
      assert s[i] == t[i - k];
    }
  }

  /** A name trims to nothing exactly when it is all white space. */
  lemma TrimEmptyIffBlank(s: string)
    ensures Trim(s) == "" <==> forall i :: 0 <= i < |s| ==> IsJsWhitespace(s[i])
  {
  }

  lemma {:induction false} TrimStartIdempotent(s: string)
    ensures TrimStart(TrimStart(s)) == TrimStart(s)
  {
  }

  lemma {:induction false} TrimEndNoTrailing(s: string)
    requires |s| == 0 || !IsJsWhitespace(s[|s| - 1])
    ensures TrimEnd(s) == s
  {
  }

  lemma {:induction false} TrimStartNoLeading(s: string)
    requires |s| == 0 || !IsJsWhitespace(s[0])
    ensures TrimStart(s) == s
  {
  }

  /** Trimming a trimmed name changes nothing. */
  lemma TrimIdempotent(s: string)
    ensures Trim(Trim(s)) == Trim(s)
  {
    var r := Trim(s);
    TrimStartNoLeading(r);
    TrimEndNoTrailing(r);
  }

  // ---------------------------------------------------------------------
  // The form state
  // ---------------------------------------------------------------------

  datatype Form = Form(name: string, restBetweenExercises: int, selected: seq<SessionExercise>)

  /** The effect that fills the form: the edited session's values, or an
      empty form with a 60-second rest. */
  function InitialForm(existing: Option<Session>): (r: Form)
    ensures existing.Some? ==> r == Form(existing.value.name, existing.value.restBetweenExercises, existing.value.exercises)
    ensures existing.None? ==> r == Form("", 60, [])
  {
    match existing
    case Some(s) => Form(s.name, s.restBetweenExercises, s.exercises)
    case None => Form("", 60, [])
  }

  predicate IsSelected(selected: seq<SessionExercise>, id: Id) {
    exists i :: 0 <= i < |selected| && selected[i].exerciseId == id
  }

  /** The level a newly selected exercise starts at: its first level, or 1. */
  function DefaultLevel(ex: Exercise): int {
    if |ex.levels| > 0 then ex.levels[0].level else 1
  }

  /** `toggleExercise`: a selected exercise is removed (every entry of it),
      the other entries keeping their order; an unselected one is appended at
      its default level. */
  function ToggleExercise(selected: seq<SessionExercise>, ex: Exercise): (r: seq<SessionExercise>)
    ensures IsSelected(r, ex.id) <==> !IsSelected(selected, ex.id)
    ensures IsSelected(selected, ex.id) ==>
      forall i :: 0 <= i < |r| ==> r[i] in selected
    ensures IsSelected(selected, ex.id) ==>
      forall i :: 0 <= i < |selected| && selected[i].exerciseId != ex.id ==> selected[i] in r
    ensures IsSelected(selected, ex.id) ==>
      r == Pick(selected, Matching(selected, (e: SessionExercise) => e.exerciseId != ex.id))
    ensures !IsSelected(selected, ex.id) ==> r == selected + [SessionExercise(ex.id, DefaultLevel(ex))]
  {
    var idx := FindIndex(selected, (e: SessionExercise) => e.exerciseId == ex.id);
    if idx.Some? then
      var keep := (e: SessionExercise) => e.exerciseId != ex.id;
      FilterMembers(selected, keep);
      Filter(selected, keep)
    else
      var r := selected + [SessionExercise(ex.id, DefaultLevel(ex))];
      assert r[|selected|].exerciseId == ex.id;
      r
  }

  /** Toggling an unselected exercise twice restores the selection. */
  lemma ToggleTwice(selected: seq<SessionExercise>, ex: Exercise)
    requires !IsSelected(selected, ex.id)
    ensures ToggleExercise(ToggleExercise(selected, ex), ex) == selected
  {
    var p := (e: SessionExercise) => e.exerciseId != ex.id;
    FilterSnoc(selected, SessionExercise(ex.id, DefaultLevel(ex)), p);
    FilterKeepsAll(selected, p);
  }

  /** `setLevel`: every entry of the exercise gets the level; the rest are unchanged. */
  function SetLevel(selected: seq<SessionExercise>, exerciseId: Id, level: int): (r: seq<SessionExercise>)
    ensures |r| == |selected|
    ensures forall i :: 0 <= i < |r| && selected[i].exerciseId == exerciseId ==>
      r[i] == SessionExercise(exerciseId, level)
    ensures forall i :: 0 <= i < |r| && selected[i].exerciseId != exerciseId ==> r[i] == selected[i]
  {
    seq(|selected|, i requires 0 <= i < |selected| =>
      if selected[i].exerciseId == exerciseId then selected[i].(level := level) else selected[i])
  }

  // ---------------------------------------------------------------------
  // Submit
  // ---------------------------------------------------------------------

  datatype Submission =
    | Rejected
    | UpdateExisting(sessionId: Id, patch: SessionPatch)
    | AddNew(data: SessionData)

  /** `handleSubmit`'s decision: nothing for a blank name or an empty
      selection; an update of the edited session when it exists; otherwise a
      new session (also when the edited session has disappeared). */
  function SubmitDecision(form: Form, editingSessionId: Option<Id>, sessions: seq<Session>): (r: Submission)
    ensures r.Rejected? <==> Trim(form.name) == "" || |form.selected| == 0
    ensures r.UpdateExisting? <==>
      !r.Rejected? && editingSessionId.Some? && FindSession(sessions, editingSessionId.value).Some?
    ensures r.UpdateExisting? ==>
      && r.sessionId == editingSessionId.value
      && r.patch == SessionPatch(None, Some(Trim(form.name)), Some(form.selected), Some(form.restBetweenExercises))
    ensures r.AddNew? ==> r.data == SessionData(Trim(form.name), form.selected, form.restBetweenExercises)
  {
    if Trim(form.name) == "" || |form.selected| == 0 then Rejected
    else
      var existing := if editingSessionId.Some? then FindSession(sessions, editingSessionId.value) else None;
      if editingSessionId.Some? && existing.Some? then
        UpdateExisting(existing.value.id,
                       SessionPatch(None, Some(Trim(form.name)), Some(form.selected), Some(form.restBetweenExercises)))
      else AddNew(SessionData(Trim(form.name), form.selected, form.restBetweenExercises))
  }

  /** Editing a session whose name is already trimmed and which has
      exercises, and saving the form untouched, patches that session into
      itself. */
  lemma SaveUntouchedKeepsSession(s: Session, sessions: seq<Session>)
    requires FindSession(sessions, s.id) == Some(s)
    requires Trim(s.name) == s.name && s.name != ""
    requires |s.exercises| > 0
    ensures var d := SubmitDecision(InitialForm(Some(s)), Some(s.id), sessions);
      && d.UpdateExisting? && d.sessionId == s.id
      && PatchSession(s, d.patch) == s
  {
  }

  /** A new form saved untouched is rejected: its name is blank. */
  lemma SaveNewUntouchedRejected(editingSessionId: Option<Id>, sessions: seq<Session>)
    ensures SubmitDecision(InitialForm(None), editingSessionId, sessions).Rejected?
  {
  }

  /** `handleSubmit` on the store: the decision applied, then the sessions screen. */
  method HandleSubmit(store: WorkoutStore, form: Form, newId: Id)
    requires store.Valid()
    modifies store
    ensures store.Valid()
    ensures var d := SubmitDecision(form, old(store.editingSessionId), old(store.sessions));
      && (d.Rejected? ==> store.State() == old(store.State()))
      && (d.UpdateExisting? ==> store.State() == old(store.State()).(
            sessions := UpdateSessions(old(store.sessions), d.sessionId, d.patch),
            savedSessions := UpdateSessions(old(store.sessions), d.sessionId, d.patch),
            screen := Sessions))
      && (d.AddNew? ==> store.State() == old(store.State()).(
            sessions := old(store.sessions) + [Session(newId, d.data.name, d.data.exercises, d.data.restBetweenExercises)],
            savedSessions := old(store.sessions) + [Session(newId, d.data.name, d.data.exercises, d.data.restBetweenExercises)],
            screen := Sessions))
  {
    var d := SubmitDecision(form, store.editingSessionId, store.sessions);
    if d.Rejected? {
      return;
    }
    if d.UpdateExisting? {
      store.UpdateSession(d.sessionId, d.patch);
    } else {
      store.AddSession(d.data, newId);
    }
    store.SetScreen(Sessions);
  }

  /** A new session whose exercises all exist can be started, and the workout
      follows the selection in order. */
  lemma SubmittedSessionStarts(exercises: seq<Exercise>, sessions: seq<Session>, form: Form,
                               newId: Id, workoutId: Id, now: int)
    requires SubmitDecision(form, None, sessions).AddNew?
    requires forall i :: 0 <= i < |sessions| ==> sessions[i].id != newId
    requires forall i :: 0 <= i < |form.selected| ==> FindExercise(exercises, form.selected[i].exerciseId).Some?
    ensures var d := SubmitDecision(form, None, sessions).data;
      var all := sessions + [Session(newId, d.name, d.exercises, d.restBetweenExercises)];
      var r := StartSession(exercises, all, newId, workoutId, now);
      && r.Started?
      && |r.workout.exercises| == |form.selected|
      && r.workout.restBetweenExercises == form.restBetweenExercises
      && forall i :: 0 <= i < |form.selected| ==>
           r.workout.exercises[i].exercise.id == form.selected[i].exerciseId
           && r.workout.exercises[i].level == form.selected[i].level
  {
    var d := SubmitDecision(form, None, sessions).data;
    var s := Session(newId, d.name, d.exercises, d.restBetweenExercises);
    var all := sessions + [s];
    assert all[|sessions|] == s;
    assert FindSession(all, newId) == Some(s);
  }
}
