// TimeManager::allocate_time: the milliseconds to think about one move,
// from a fixed movetime, from the mover's own clock, or from the per-move
// default.

module TimeManager {
  import opened Common
  import opened Words
  import opened Params

  /**
   * A fixed movetime wins; otherwise a fortieth of the mover's clock but
   * at least 10 ms; otherwise the per-move default. Only the mover's clock
   * is read.
   */
  function ClockAllocation(tm: TimeManagement, wtime: Option<U64>, btime: Option<U64>, movetime: Option<U64>, sideIsWhite: bool): (ms: U64)
    ensures movetime.Some? ==> ms == movetime.value
    ensures movetime.None? && (if sideIsWhite then wtime.Some? else btime.Some?) ==>
      10 <= ms && ms == Max((if sideIsWhite then wtime.value else btime.value) / 40, 10)
    ensures movetime.None? && (if sideIsWhite then wtime.None? else btime.None?) ==> ms == tm.msecPerMove
  {
    if movetime.Some? then movetime.value
    else if sideIsWhite && wtime.Some? then Max(wtime.value / 40, 10)
    else if !sideIsWhite && btime.Some? then Max(btime.value / 40, 10)
    else tm.msecPerMove
  }

  /** The opponent's clock never matters. */
  lemma OpponentClockIgnored(tm: TimeManagement, own: Option<U64>, other1: Option<U64>, other2: Option<U64>, movetime: Option<U64>)
    ensures ClockAllocation(tm, own, other1, movetime, true) == ClockAllocation(tm, own, other2, movetime, true)
    ensures ClockAllocation(tm, other1, own, movetime, false) == ClockAllocation(tm, other2, own, movetime, false)
  {
  }

  /** A clock-derived budget never exceeds the clock once the clock holds at least 10 ms. */
  lemma ClockBudgetWithinClock(tm: TimeManagement, w: U64, btime: Option<U64>)
    requires w >= 10
    ensures ClockAllocation(tm, Some(w), btime, None, true) <= w
  {
  }
}
