/** Positions in a ring: the slot of the k-th item ever put into a ring of a given length. */
module Rings {

  function Slot(k: nat, length: nat): (slot: nat)
    requires length > 0
    ensures slot < length
  {
    if k < length then k else Slot(k - length, length)
  }

  /** The slot some way past another, with one wrap at most. */
  function Past(slot: nat, count: nat, length: nat): int {
    if slot + count < length then slot + count else slot + count - length
  }

  lemma {:induction false} SlotNext(k: nat, length: nat)
    requires length > 0
    ensures Slot(k + 1, length) == if Slot(k, length) + 1 == length then 0 else Slot(k, length) + 1
  {
    if k >= length {
      SlotNext(k - length, length);
    }
  }

  /** Within one turn of the ring, slots are as far apart as the items, or that less one turn. */
  lemma {:induction false} SlotGap(a: nat, b: nat, length: nat)
    requires length > 0 && a <= b < a + length
    ensures Slot(b, length) - Slot(a, length) == b - a || Slot(b, length) - Slot(a, length) == b - a - length
    ensures Past(Slot(a, length), b - a, length) == Slot(b, length)
  {
    if a < b {
      SlotGap(a, b - 1, length);
      SlotNext(b - 1, length);
    }
  }

  /** A full turn comes back to the same slot. */
  lemma SlotTurn(a: nat, length: nat)
    requires length > 0
    ensures Slot(a + length, length) == Slot(a, length)
    ensures Past(Slot(a, length), length, length) == Slot(a, length)
  {
  }
}
