/** The rest countdown of `src/components/RestTimer.tsx`: what its effect does
    when the rest's end time or length changes, and which panel it renders.
    The beep and the React state machinery are not modelled; the effect's
    `Date.now()` is `now`. */
module RestTimer {
  import opened Common
  import opened TimerUtils

  /** What the effect starts. */
  datatype EffectAction =
    | NoCountdown
    | CompleteImmediately
    | StartCountdown(seconds: nat)

  /** The `remaining` state the effect sets, and what it starts. */
  datatype RestEffect = RestEffect(remaining: Option<int>, action: EffectAction)

  /** The effect: with no end time, `remaining` is 0 for a zero-length rest and
      unknown otherwise; with a non-positive length it is 0; otherwise the
      seconds left, and the rest completes at once when none are left or a
      countdown of the seconds left starts. */
  function RestTimerEffect(restEndsAt: Option<int>, restSeconds: int, now: int): (r: RestEffect)
    ensures r.remaining.Some? ==> r.remaining.value >= 0
    ensures r.action.NoCountdown? <==> restEndsAt.None? || restSeconds <= 0
    ensures restEndsAt.None? ==> (r.remaining.Some? <==> restSeconds == 0)
    ensures restEndsAt.Some? && restSeconds <= 0 ==> r.remaining == Some(0)
    ensures r.action.CompleteImmediately? <==>
      restEndsAt.Some? && restSeconds > 0 && restEndsAt.value <= now
    ensures r.action.CompleteImmediately? ==> r.remaining == Some(0)
    ensures r.action.StartCountdown? ==>
      && restEndsAt.Some? && now < restEndsAt.value
      && r.remaining == Some(r.action.seconds)
      && (r.action.seconds - 1) * 1000 < restEndsAt.value - now <= r.action.seconds * 1000
  {
    match restEndsAt
    case None => RestEffect(if restSeconds == 0 then Some(0) else None, NoCountdown)
    case Some(endsAt) =>
      if restSeconds <= 0 then RestEffect(Some(0), NoCountdown)
      else
        var initialRemaining := RemainingSeconds(endsAt, now);
        if initialRemaining <= 0 then RestEffect(Some(0), CompleteImmediately)
        else RestEffect(Some(initialRemaining), StartCountdown(initialRemaining))
  }

  /** The panel the component renders. */
  datatype Panel =
    | ManualPrompt(title: string, button: string)
    | ContinuePrompt(title: string)
    | CountdownPanel(heading: string, display: string)

  const DEFAULT_NEXT_LABEL := "Next Exercise"

  /** The render: a manual prompt for a zero-length rest with no end time, a
      "Continue" prompt once nothing remains, and otherwise the countdown
      (`--:--` while the remaining time is unknown). */
  function RestTimerPanel(restEndsAt: Option<int>, restSeconds: int, isRestBetweenExercises: bool,
                          nextLabel: string, remaining: Option<int>): (r: Panel)
    ensures r.ManualPrompt? <==> restEndsAt.None? && restSeconds == 0
    ensures r.ContinuePrompt? <==>
      !(restEndsAt.None? && restSeconds == 0) && remaining.Some? && remaining.value <= 0
    ensures r.CountdownPanel? && remaining.None? ==> r.display == "--:--"
    ensures r.CountdownPanel? && remaining.Some? ==> r.display == FormatSeconds(remaining.value)
    ensures r.ManualPrompt? && isRestBetweenExercises ==> r.title == nextLabel && r.button == nextLabel
    ensures r.ManualPrompt? && !isRestBetweenExercises ==> r.title == "Next set" && r.button == "Start next set"
    ensures r.ContinuePrompt? ==>
      r.title == (if isRestBetweenExercises then "Start next exercise!" else "Start next set!")
    ensures r.CountdownPanel? ==> r.heading == (if isRestBetweenExercises then "Rest before next exercise" else "Rest")
  {
    if restEndsAt.None? && restSeconds == 0 then
      ManualPrompt(if isRestBetweenExercises then nextLabel else "Next set",
                   if isRestBetweenExercises then nextLabel else "Start next set")
    else if remaining.Some? && remaining.value <= 0 then
      ContinuePrompt(if isRestBetweenExercises then "Start next exercise!" else "Start next set!")
    else
      CountdownPanel(if isRestBetweenExercises then "Rest before next exercise" else "Rest",
                     if remaining.Some? then FormatSeconds(remaining.value) else "--:--")
  }

  /** The panel right after the effect has run. */
  function PanelAfterEffect(restEndsAt: Option<int>, restSeconds: int, isRestBetweenExercises: bool,
                            nextLabel: string, now: int): Panel
  {
    RestTimerPanel(restEndsAt, restSeconds, isRestBetweenExercises, nextLabel,
                   RestTimerEffect(restEndsAt, restSeconds, now).remaining)
  }

  /** After the effect, the countdown panel shows exactly the countdown that
      was started; every other case shows a prompt, except a non-zero length
      with no end time, which shows `--:--` and starts nothing, so the rest
      never ends by itself. */
  lemma PanelMatchesEffect(restEndsAt: Option<int>, restSeconds: int, between: bool, nextLabel: string, now: int)
    ensures var e := RestTimerEffect(restEndsAt, restSeconds, now);
      var p := PanelAfterEffect(restEndsAt, restSeconds, between, nextLabel, now);
      && (e.action.StartCountdown? ==> p.CountdownPanel? && p.display == FormatSeconds(e.action.seconds))
      && (e.action.CompleteImmediately? ==> p.ContinuePrompt?)
      && (restEndsAt.Some? && restSeconds <= 0 ==> p.ContinuePrompt?)
      && (restEndsAt.None? && restSeconds == 0 ==> p.ManualPrompt?)
      && (restEndsAt.None? && restSeconds != 0 ==> e.action.NoCountdown? && p == CountdownPanel(
            if between then "Rest before next exercise" else "Rest", "--:--"))
  {
  }

  /** While the countdown reports a positive number of seconds the panel
      shows it; its final report of 0 turns the panel into the prompt. */
  lemma CountdownTickPanel(restEndsAt: int, restSeconds: int, between: bool, nextLabel: string, tick: nat)
    requires restSeconds > 0
    ensures var p := RestTimerPanel(Some(restEndsAt), restSeconds, between, nextLabel, Some(tick));
      && (tick > 0 ==> p.CountdownPanel? && p.display == FormatSeconds(tick))
      && (tick == 0 ==> p.ContinuePrompt?)
  {
  }
}
