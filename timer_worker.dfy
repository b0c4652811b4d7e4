/** The countdown worker of `src/timer.worker.ts`. Its module-level
    variables become the fields of `TimerWorker`; `self.postMessage` appends
    to `posted`; the 200 ms interval is described by whether its handle is
    stored (`hasIntervalId`) and whether it is still scheduled
    (`intervalLive`), and a firing of it is a call of `Tick`. */
module TimerWorker {
  import opened Common
  import opened TimerUtils

  /** A message the worker posts to the page. */
  datatype WorkerMessage = TickMsg(remaining: nat, id: string) | DoneMsg(id: string)

  /** Every done message directly follows a zero tick for the same countdown. */
  ghost predicate DoneAfterZeroTick(posted: seq<WorkerMessage>) {
    forall i :: 0 <= i < |posted| && posted[i].DoneMsg? ==>
      i > 0 && posted[i - 1] == TickMsg(0, posted[i].id)
  }

  class TimerWorker {
    /** `intervalId != null`. */
    var hasIntervalId: bool
    /** The interval is scheduled (not yet passed to `clearInterval`). */
    var intervalLive: bool
    var endTime: int
    var currentId: Option<string>
    var posted: seq<WorkerMessage>
    /** Where the messages of the current countdown begin in `posted`. */
    ghost var currentFrom: nat

    ghost predicate Valid()
      reads this
    {
      && currentFrom <= |posted|
      && DoneAfterZeroTick(posted)
      && (intervalLive ==> hasIntervalId)
      && (currentId.Some? ==> forall i :: currentFrom <= i < |posted| ==>
            posted[i].TickMsg? && posted[i].id == currentId.value && posted[i].remaining > 0)
    }

    /** A current countdown has a scheduled interval to drive it. */
    ghost predicate Driven()
      reads this
    {
      currentId.Some? ==> intervalLive
    }

    constructor()
      ensures Valid() && Driven()
      ensures !hasIntervalId && !intervalLive && endTime == 0 && currentId.None? && posted == []
    {
      hasIntervalId := false;
      intervalLive := false;
      endTime := 0;
      currentId := None;
      posted := [];
      currentFrom := 0;
    }

    /** `tick`: with no current countdown nothing is posted; otherwise a tick
        with the remaining seconds, and at zero a done message that also
        ends the countdown and clears the interval. */
    method Tick(now: int)
      requires Valid()
      modifies this
      ensures Valid()
      ensures old(Driven()) ==> Driven()
      ensures endTime == old(endTime)
      ensures old(currentId).None? ==>
        && posted == old(posted) && currentId.None?
        && intervalLive == old(intervalLive) && hasIntervalId == old(hasIntervalId)
      ensures old(currentId).Some? ==>
        var id := old(currentId).value;
        var remaining := RemainingSeconds(endTime, now);
        && posted == old(posted) + [TickMsg(remaining, id)] + (if remaining <= 0 then [DoneMsg(id)] else [])
        && (remaining <= 0 ==> currentId.None? && !intervalLive && !hasIntervalId)
        && (remaining > 0 ==>
              currentId == old(currentId) && intervalLive == old(intervalLive) && hasIntervalId == old(hasIntervalId))
    {
      if currentId.None? {
        return;
      }
      var remaining := RemainingSeconds(endTime, now);
      posted := posted + [TickMsg(remaining, currentId.value)];
      if remaining <= 0 {
        if hasIntervalId {
          intervalLive := false;
          hasIntervalId := false;
        }
        posted := posted + [DoneMsg(currentId.value)];
        currentId := None;
      }
    }

    /** A `stop` message: whatever id it names, the current countdown ends. */
    method OnStop(id: string)
      requires Valid()
      modifies this
      ensures Valid() && Driven()
      ensures !intervalLive && !hasIntervalId && currentId.None?
      ensures posted == old(posted) && endTime == old(endTime)
    {
      if hasIntervalId {
        intervalLive := false;
        hasIntervalId := false;
      }
      currentId := None;
    }

    /** A `start` message: the previous interval is cleared, the new countdown
        ticks at once and then every 200 ms. A countdown that is already over
        posts its tick and done right away, yet a new interval is still
        scheduled, firing with no current countdown. */
    method OnStart(id: string, durationSeconds: int, now: int)
      requires Valid()
      modifies this
      ensures Valid() && Driven()
      ensures endTime == now + durationSeconds * 1000
      ensures intervalLive && hasIntervalId
      ensures var remaining := RemainingSeconds(endTime, now);
        && posted == old(posted) + [TickMsg(remaining, id)] + (if remaining <= 0 then [DoneMsg(id)] else [])
        && currentId == (if remaining > 0 then Some(id) else None)
    {
      if hasIntervalId {
        intervalLive := false;
      }
      currentId := Some(id);
      endTime := now + durationSeconds * 1000;
      currentFrom := |posted|;
      Tick(now);
      hasIntervalId, intervalLive := true, true;
    }
  }
}
