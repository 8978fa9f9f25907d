/** The timeout arithmetic of tasks.c: a block time spent over several waits, measured on a 32-bit tick
    count that wraps and a count of its wraps. */
module TimeOuts {
  import opened Ticks

  /** TimeOut_t. */
  datatype TimeOut = TimeOut(overflowCount: nat, timeOnEntering: Tick)

  /** xNumOfOverflows at a true time. */
  function Overflows(time: nat): nat {
    time / WRAP
  }

  function Entered(time: nat): TimeOut {
    TimeOut(Overflows(time), Wrap(time))
  }

  /** What xTaskCheckForTimeOut leaves behind and returns. */
  datatype Outcome = Outcome(timeOut: TimeOut, ticksToWait: Tick, timedOut: bool)

  function Check(t: TimeOut, ticksToWait: Tick, overflows: nat, tick: Tick, aborted: bool): Outcome {
    if aborted then Outcome(t, ticksToWait, true)
    else if ticksToWait == MAX_DELAY then Outcome(t, ticksToWait, false)
    else if overflows != t.overflowCount && tick >= t.timeOnEntering then Outcome(t, 0, true)
    else if Sub(tick, t.timeOnEntering) < ticksToWait then
      Outcome(TimeOut(overflows, tick), ticksToWait - Sub(tick, t.timeOnEntering), false)
    else Outcome(t, 0, true)
  }

  function CheckAt(t: TimeOut, ticksToWait: Tick, now: nat, aborted: bool): Outcome {
    Check(t, ticksToWait, Overflows(now), Wrap(now), aborted)
  }

  // ---------- One check ----------

  /** When the two counts tell the elapsed time apart from one a whole wrap shorter: at most one overflow,
      or a tick not below the one at entry, or one too far above it for the budget anyway. */
  predicate Distinguishable(t: TimeOut, ticksToWait: Tick, overflows: nat, tick: Tick) {
    overflows <= t.overflowCount + 1 || tick >= t.timeOnEntering || Sub(tick, t.timeOnEntering) >= ticksToWait
  }

  /** A check with a finite budget is right exactly then. */
  lemma CheckIsRightIff(entered: nat, now: nat, ticksToWait: Tick)
    requires entered <= now && ticksToWait < MAX_DELAY
    ensures (CheckAt(Entered(entered), ticksToWait, now, false).timedOut <==> now - entered >= ticksToWait)
       <==> Distinguishable(Entered(entered), ticksToWait, Overflows(now), Wrap(now))
  {
  }

  /** A wait that sleeps through two overflows can be missed: ten ticks to wait, more than 2^32 gone by. */
  lemma TwoOverflowsCanBeMissed()
    ensures !CheckAt(Entered(WRAP - 1), 10, 2 * WRAP + 5, false).timedOut
  {
  }

  // ---------- Any number of checks ----------

  datatype Call = Call(at: nat, aborted: bool)

  /** Calls in the order of time, at most one overflow after the last one that was not aborted. */
  ghost predicate Paced(from: nat, calls: seq<Call>)
    decreases |calls|
  {
    calls != [] ==>
      && from <= calls[0].at && Overflows(calls[0].at) <= Overflows(from) + 1
      && Paced(if calls[0].aborted then from else calls[0].at, calls[1..])
  }

  /** What each of a sequence of calls on one timeout state reports. */
  function Reports(t: TimeOut, ticksToWait: Tick, calls: seq<Call>): (r: seq<bool>)
    ensures |r| == |calls|
    decreases |calls|
  {
    if calls == [] then []
    else
      var o := CheckAt(t, ticksToWait, calls[0].at, calls[0].aborted);
      [o.timedOut] + Reports(o.timeOut, o.ticksToWait, calls[1..])
  }

  /** The budget left is the original one less the time since the start. */
  lemma {:induction false} ReportsAreExact(start: nat, budget: Tick, entered: nat, left: Tick, calls: seq<Call>, k: nat)
    requires budget < MAX_DELAY && start <= entered && left == budget - (entered - start)
    requires Paced(entered, calls) && k < |calls|
    ensures Reports(Entered(entered), left, calls)[k] <==> calls[k].aborted || calls[k].at - start >= budget
    decreases |calls|
  {
    var o := CheckAt(Entered(entered), left, calls[0].at, calls[0].aborted);
    CheckIsRightIff(entered, calls[0].at, left);
    if k > 0 {
      if calls[0].aborted {
        ReportsAreExact(start, budget, entered, left, calls[1..], k - 1);
      } else if o.timedOut {
        SpentStaysSpent(o.timeOut, calls[0].at, calls[1..], k - 1);
      } else {
        ReportsAreExact(start, budget, calls[0].at, o.ticksToWait, calls[1..], k - 1);
      }
    }
  }

  lemma {:induction false} SpentStaysSpent(t: TimeOut, from: nat, calls: seq<Call>, k: nat)
    requires Paced(from, calls) && k < |calls|
    ensures Reports(t, 0, calls)[k] && calls[k].at >= from
    decreases |calls|
  {
    if k > 0 {
      SpentStaysSpent(t, if calls[0].aborted then from else calls[0].at, calls[1..], k - 1);
    }
  }

  /** However a finite block time is divided among waits, and however often the tick count wraps on the
      way, a call reports a timeout exactly when the whole of it has gone by, or the delay was aborted. */
  lemma BlockTimeIsConserved(start: nat, budget: Tick, calls: seq<Call>, k: nat)
    requires budget < MAX_DELAY && Paced(start, calls) && k < |calls|
    ensures Reports(Entered(start), budget, calls)[k] <==> calls[k].aborted || calls[k].at - start >= budget
  {
    ReportsAreExact(start, budget, start, budget, calls, k);
  }

  /** The longest block time never runs out. */
  lemma {:induction false} ForeverIsForever(t: TimeOut, calls: seq<Call>, k: nat)
    requires k < |calls|
    ensures Reports(t, MAX_DELAY, calls)[k] == calls[k].aborted
    decreases |calls|
  {
    if k > 0 {
      ForeverIsForever(t, calls[1..], k - 1);
    }
  }

  // ---------- The calls as they update their arguments ----------

  class WaitState {
    var overflowCount: nat
    var timeOnEntering: Tick
    var ticksToWait: Tick
    var delayAborted: bool

    function State(): TimeOut
      reads this
    {
      TimeOut(overflowCount, timeOnEntering)
    }

    /** vTaskInternalSetTimeOutState, at a true time. */
    constructor (ticksToWait: Tick, overflows: nat, tick: Tick, ghost now: nat)
      requires overflows == Overflows(now) && tick == Wrap(now)
      ensures State() == Entered(now) && this.ticksToWait == ticksToWait && !delayAborted
    {
      overflowCount, timeOnEntering, this.ticksToWait, delayAborted := overflows, tick, ticksToWait, false;
    }

    /** xTaskCheckForTimeOut. */
    method CheckForTimeOut(overflows: nat, tick: Tick) returns (timedOut: bool)
      modifies this
      ensures Outcome(State(), ticksToWait, timedOut)
              == Check(old(State()), old(ticksToWait), overflows, tick, old(delayAborted))
      ensures !delayAborted
    {
      var elapsed := Sub(tick, timeOnEntering);
      if delayAborted {
        delayAborted := false;
        timedOut := true;
      } else if ticksToWait == MAX_DELAY {
        timedOut := false;
      } else if overflows != overflowCount && tick >= timeOnEntering {
        timedOut := true;
        ticksToWait := 0;
      } else if elapsed < ticksToWait {
        ticksToWait := ticksToWait - elapsed;
        overflowCount, timeOnEntering := overflows, tick;
        timedOut := false;
      } else {
        ticksToWait := 0;
        timedOut := true;
      }
    }
  }
}
