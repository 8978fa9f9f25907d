/** 32-bit tick values against true, unbounded time. */
module Ticks {

  const WRAP := 0x1_0000_0000
  const MAX_DELAY := WRAP - 1

  type Tick = x: int | 0 <= x < WRAP

  /** The tick count shown at a true time. */
  function Wrap(time: int): Tick {
    time % WRAP
  }

  /** Unsigned 32-bit addition and subtraction. */
  function Add(a: Tick, b: Tick): Tick {
    if a + b < WRAP then a + b else a + b - WRAP
  }

  function Sub(a: Tick, b: Tick): Tick {
    if a >= b then a - b else a - b + WRAP
  }

  /** The true time at which epoch number e (the e-th wrap of the tick count) begins. */
  function Start(e: nat): nat {
    e * WRAP
  }

  /** Inside an epoch the tick shown is the true time since the epoch began. */
  lemma ShownInEpoch(e: nat, time: nat)
    ensures Start(e) <= time < Start(e) + WRAP ==> Wrap(time) == time - Start(e)
    ensures Start(e) + WRAP <= time < Start(e) + 2 * WRAP ==> Wrap(time) == time - Start(e) - WRAP
    ensures Start(e + 1) == Start(e) + WRAP
  {
  }

  /** A wrapped difference is the true one while less than a whole wrap has passed. */
  lemma DifferenceIsElapsed(from: nat, now: nat)
    requires from <= now < from + WRAP
    ensures Sub(Wrap(now), Wrap(from)) == now - from
    ensures Add(Wrap(from), now - from) == Wrap(now)
  {
  }
}
