/**
 * The refresh scheduler (public/app.js `startTimer`, `stopTimer` and the
 * auto-refresh toggle in `init`): one `timer` variable holding at most one
 * interval handle. The browser's `setInterval`/`clearInterval` are modelled
 * by their bookkeeping: handles are positive and fresh, and `live` counts
 * the intervals registered and not yet cleared.
 */
module RefreshTimer {
  import opened Wrappers

  /** The tick period, in milliseconds. */
  const PeriodMs: nat := 4000

  /** A handle returned by `setInterval`, with the period it was registered with. */
  datatype Interval = Interval(id: nat, periodMs: nat)

  class Scheduler {
    /** The `timer` variable: null, or the handle of the running interval. */
    var timer: Option<Interval>
    /** The id the next `setInterval` returns. */
    var nextId: nat
    /** Intervals registered with the browser and not cleared. */
    var live: nat

    /** At most one interval is live, and it is the one `timer` holds. */
    ghost predicate Valid()
      reads this
    {
      && nextId > 0
      && live == (if timer.Some? then 1 else 0)
      && (timer.Some? ==> 0 < timer.value.id < nextId && timer.value.periodMs == PeriodMs)
    }

    /** `if (timer)`: handles are positive, so the variable is truthy exactly when it holds one. */
    predicate Running()
      reads this
    {
      timer.Some?
    }

    /** The state `init` declares: `var timer = null`. */
    constructor ()
      ensures Valid() && !Running() && live == 0
    {
      timer := None;
      nextId := 1;
      live := 0;
    }

    /** `startTimer()`: a no-op while running; otherwise registers one fresh 4-second interval. */
    method Start()
      requires Valid()
      modifies this
      ensures Valid() && Running() && live == 1
      ensures old(Running()) ==> timer == old(timer) && nextId == old(nextId)
      ensures !old(Running()) ==> timer == Some(Interval(old(nextId), PeriodMs)) && nextId == old(nextId) + 1
    {
      if timer.Some? {
        return;
      }
      timer := Some(Interval(nextId, PeriodMs));
      nextId := nextId + 1;
      live := live + 1;
    }

    /** `stopTimer()`: clears the running interval and resets the variable; a no-op while stopped. */
    method Stop()
      requires Valid()
      modifies this
      ensures Valid() && !Running() && live == 0
      ensures nextId == old(nextId)
    {
      if timer.Some? {
        live := live - 1;
        timer := None;
      }
    }

    /** The auto-refresh checkbox's change handler: afterwards refresh runs exactly when the box is checked. */
    method Toggle(checked: bool)
      requires Valid()
      modifies this
      ensures Valid() && Running() == checked && live == (if checked then 1 else 0)
      ensures old(Running()) == checked ==> timer == old(timer)
      ensures checked && !old(Running()) ==> timer == Some(Interval(old(nextId), PeriodMs)) && nextId == old(nextId) + 1
      ensures !(checked && !old(Running())) ==> nextId == old(nextId)
    {
      if checked {
        Start();
      } else {
        Stop();
      }
    }
  }

  /** What `init` does with the scheduler: `var timer = null`, then `startTimer()` at its end. */
  method Init() returns (s: Scheduler)
    ensures fresh(s) && s.Valid() && s.Running() && s.live == 1
  {
    s := new Scheduler();
    s.Start();
  }

  /** Two starts leave one interval, a stop after a stop is a no-op, and a start after a stop ticks again. */
  method IdempotenceScenario()
  {
    var s := Init();
    var first := s.timer;
    s.Start();
    assert s.timer == first && s.live == 1;
    s.Stop();
    s.Stop();
    assert !s.Running() && s.live == 0;
    s.Start();
    assert s.Running() && s.live == 1 && s.timer != first;
  }
}
