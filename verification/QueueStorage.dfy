/** The storage of a queue (queue.c): a byte-addressed ring of fixed-size items, written at both ends,
    with the read pointer one item behind the next item to be read. */
module QueueStorage {
  import opened Bytes
  import opened Rings

  type Item = seq<Byte>

  datatype Position = SendToBack | SendToFront | Overwrite

  // ---------- Slots and bytes ----------

  /** The byte offset of a slot. */
  function Offset(slot: nat, size: nat): nat {
    if slot == 0 then 0 else Offset(slot - 1, size) + size
  }

  lemma {:induction false} OffsetOrder(a: nat, b: nat, size: nat)
    requires a < b
    ensures Offset(a, size) + size <= Offset(b, size)
  {
    if a + 1 < b {
      OffsetOrder(a, b - 1, size);
    }
  }

  lemma {:induction false} OffsetIsProduct(slot: nat, size: nat)
    ensures Offset(slot, size) == slot * size
  {
    if slot > 0 {
      OffsetIsProduct(slot - 1, size);
      assert slot * size == (slot - 1) * size + size;
    }
  }

  function Next(slot: nat, length: nat): nat {
    if slot + 1 == length then 0 else slot + 1
  }

  function Prev(slot: nat, length: nat): nat
    requires length > 0
  {
    if slot == 0 then length - 1 else slot - 1
  }

  /** Moving a pointer by one item, with the comparisons the code makes, is moving to the next slot. */
  lemma NextPointer(slot: nat, length: nat, size: nat)
    requires slot < length && size > 0
    ensures Offset(Next(slot, length), size) ==
            if Offset(slot, size) + size >= Offset(length, size) then 0 else Offset(slot, size) + size
  {
    if slot + 1 < length {
      OffsetOrder(slot + 1, length, size);
    }
  }

  lemma PrevPointer(slot: nat, length: nat, size: nat)
    requires slot < length && size > 0
    ensures Offset(Prev(slot, length), size) ==
            if Offset(slot, size) - size < 0 then Offset(length, size) - size else Offset(slot, size) - size
  {
    if slot > 0 {
      OffsetOrder(0, slot, size);
    }
  }

  /** The bytes of a slot. */
  function ItemAt(bytes: seq<Byte>, slot: nat, size: nat): (item: Item)
    requires Offset(slot, size) + size <= |bytes|
    ensures |item| == size
  {
    bytes[Offset(slot, size)..Offset(slot, size) + size]
  }

  /** The items from a slot on, round the ring. */
  function Items(bytes: seq<Byte>, head: nat, count: nat, length: nat, size: nat): (items: seq<Item>)
    requires head < length && count <= length && |bytes| == Offset(length, size)
    ensures |items| == count
  {
    seq(count, i requires 0 <= i < count =>
      (SlotFits(Past(head, i, length), length, size); ItemAt(bytes, Past(head, i, length), size)))
  }

  lemma SlotFits(slot: nat, length: nat, size: nat)
    requires slot < length
    ensures Offset(slot, size) + size <= Offset(length, size)
  {
    OffsetOrder(slot, length, size);
  }

  /** The bytes after an item was copied to a slot. */
  function Copied(bytes: seq<Byte>, slot: nat, size: nat, item: Item): (r: seq<Byte>)
    requires Offset(slot, size) + size <= |bytes| && |item| == size
    ensures |r| == |bytes|
  {
    bytes[..Offset(slot, size)] + item + bytes[Offset(slot, size) + size..]
  }

  lemma CopiedItem(bytes: seq<Byte>, slot: nat, size: nat, item: Item, length: nat, other: nat)
    requires slot < length && other < length && |item| == size && |bytes| == Offset(length, size)
    ensures Offset(slot, size) + size <= |bytes| && Offset(other, size) + size <= |bytes|
    ensures ItemAt(Copied(bytes, slot, size, item), other, size) == if other == slot then item
            else ItemAt(bytes, other, size)
  {
    SlotFits(slot, length, size);
    SlotFits(other, length, size);
    if other < slot {
      OffsetOrder(other, slot, size);
    } else if slot < other {
      OffsetOrder(slot, other, size);
    }
  }

  lemma BackIsAppend(bytes: seq<Byte>, head: nat, count: nat, length: nat, size: nat, item: Item)
    requires head < length && count < length && |item| == size && |bytes| == Offset(length, size)
    ensures 0 <= Past(head, count, length) < length && Offset(Past(head, count, length), size) + size <= |bytes|
    ensures Items(Copied(bytes, Past(head, count, length), size, item), head, count + 1, length, size)
         == Items(bytes, head, count, length, size) + [item]
  {
    var slot := Past(head, count, length);
    SlotFits(slot, length, size);
    var r := Items(Copied(bytes, slot, size, item), head, count + 1, length, size);
    forall i | 0 <= i < count + 1 ensures r[i] == (Items(bytes, head, count, length, size) + [item])[i] {
      CopiedItem(bytes, slot, size, item, length, Past(head, i, length));
    }
  }

  lemma FrontIsPrepend(bytes: seq<Byte>, head: nat, count: nat, length: nat, size: nat, item: Item)
    requires head < length && count < length && |item| == size && |bytes| == Offset(length, size)
    ensures Prev(head, length) < length && Offset(Prev(head, length), size) + size <= |bytes|
    ensures Items(Copied(bytes, Prev(head, length), size, item), Prev(head, length), count + 1, length, size)
         == [item] + Items(bytes, head, count, length, size)
    ensures Past(Prev(head, length), count + 1, length) == Past(head, count, length)
  {
    var slot := Prev(head, length);
    SlotFits(slot, length, size);
    var r := Items(Copied(bytes, slot, size, item), slot, count + 1, length, size);
    forall i | 0 <= i < count + 1 ensures r[i] == ([item] + Items(bytes, head, count, length, size))[i] {
      CopiedItem(bytes, slot, size, item, length, Past(slot, i, length));
      assert i > 0 ==> Past(slot, i, length) == Past(head, i - 1, length);
    }
  }

  lemma RestIsTail(bytes: seq<Byte>, head: nat, count: nat, length: nat, size: nat)
    requires head < length && 0 < count <= length && |bytes| == Offset(length, size)
    ensures Next(head, length) < length && Offset(head, size) + size <= |bytes|
    ensures Items(bytes, Next(head, length), count - 1, length, size) == Items(bytes, head, count, length, size)[1..]
    ensures Items(bytes, head, count, length, size)[0] == ItemAt(bytes, head, size)
    ensures Past(Next(head, length), count - 1, length) == Past(head, count, length)
  {
    SlotFits(head, length, size);
    var r := Items(bytes, Next(head, length), count - 1, length, size);
    forall i | 0 <= i < count - 1 ensures r[i] == Items(bytes, head, count, length, size)[i + 1] {
      assert Past(Next(head, length), i, length) == Past(head, i + 1, length);
    }
  }

  lemma {:induction false} OffsetsAdd(a: nat, b: nat, size: nat)
    ensures Offset(a, size) + Offset(b, size) == Offset(a + b, size)
  {
    if b > 0 {
      OffsetsAdd(a, b - 1, size);
    }
  }

  /** The two pointers of a queue with so many messages, its next item in slot head: the write pointer is
      the read pointer advanced by one item more than the messages, modulo the storage. */
  lemma WriteIsAheadOfRead(head: nat, messages: nat, length: nat, size: nat)
    requires head < length && messages <= length && size > 0
    ensures 0 <= Past(head, messages, length) && 0 < Offset(length, size)
    ensures Offset(Past(head, messages, length), size)
         == Slot(Offset(Prev(head, length), size) + Offset(messages + 1, size), Offset(length, size))
  {
    var slot, sum := Past(head, messages, length), Prev(head, length) + messages + 1;
    OffsetOrder(0, length, size);
    OffsetOrder(slot, length, size);
    OffsetsAdd(Prev(head, length), messages + 1, size);
    OffsetsAdd(slot, length, size);
    OffsetsAdd(slot + length, length, size);
    assert sum == slot || sum == slot + length || sum == slot + length + length;
    SlotTurn(Offset(slot, size), Offset(length, size));
    SlotTurn(Offset(slot, size) + Offset(length, size), Offset(length, size));
  }

  // ---------- The queue ----------

  /** What a send does to the contents of a queue. An item of size 0 is not overwritten. */
  function Sent(contents: seq<Item>, item: Item, position: Position, itemSize: nat): seq<Item> {
    match position
    case SendToBack => contents + [item]
    case SendToFront => [item] + contents
    case Overwrite => if itemSize == 0 then contents + [item] else [item]
  }

  /** Overwriting replaces what is there exactly when the items have a size, or nothing is there. */
  lemma OverwriteReplacesIff(contents: seq<Item>, item: Item, itemSize: nat)
    ensures Sent(contents, item, Overwrite, itemSize) == [item] <==> itemSize > 0 || contents == []
  {
    assert contents == [] ==> contents + [item] == [item];
    assert |contents + [item]| == |contents| + 1;
  }

  function Empties(count: nat): seq<Item> {
    seq(count, _ => [])
  }

  class Queue {
    const storage: array<Byte>
    const length: nat
    const itemSize: nat
    var messagesWaiting: nat
    var writeTo: int
    var readFrom: int
    ghost var head: nat

    /** The write pointer is always one more item than there are messages ahead of the read pointer. */
    ghost predicate Valid()
      reads this, storage
    {
      && length > 0 && storage.Length == Offset(length, itemSize)
      && (itemSize > 0 ==>
            && head < length && messagesWaiting <= length
            && writeTo == Offset(Past(head, messagesWaiting, length), itemSize)
            && readFrom == Offset(Prev(head, length), itemSize))
    }

    ghost function Contents(): seq<Item>
      requires Valid()
      reads this, storage
    {
      if itemSize == 0 then Empties(messagesWaiting) else Items(storage[..], head, messagesWaiting, length, itemSize)
    }

    constructor (length: nat, itemSize: nat)
      requires length > 0
      ensures Valid() && Contents() == [] && this.length == length && this.itemSize == itemSize && fresh(storage)
    {
      OffsetIsProduct(length, itemSize);
      OffsetIsProduct(length - 1, itemSize);
      storage, this.length, this.itemSize := new Byte[length * itemSize](_ => 0), length, itemSize;
      messagesWaiting, writeTo, readFrom, head := 0, 0, (length - 1) * itemSize, 0;
    }

    /** xQueueGenericReset, as far as the storage goes. */
    method Reset()
      requires Valid()
      modifies this
      ensures Valid() && Contents() == []
    {
      OffsetIsProduct(length - 1, itemSize);
      messagesWaiting, writeTo, readFrom, head := 0, 0, (length - 1) * itemSize, 0;
    }

    /** memcpy into the storage, at the bytes of a slot. */
    method CopyIn(at: int, item: Item, ghost slot: nat)
      requires slot < length && at == Offset(slot, itemSize) && |item| == itemSize
               && storage.Length == Offset(length, itemSize)
      modifies storage
      ensures at + itemSize <= storage.Length && storage[..] == Copied(old(storage[..]), slot, itemSize, item)
    {
      SlotFits(slot, length, itemSize);
      forall i | 0 <= i < |item| {
        storage[at + i] := item[i];
      }
    }

    /** prvCopyDataToQueue, for anything but a mutex. */
    method CopyDataToQueue(item: Item, position: Position)
      requires Valid() && |item| == itemSize && (position.Overwrite? ==> length == 1)
      requires messagesWaiting < length || position.Overwrite?
      modifies this, storage
      ensures Valid()
      ensures Contents() == Sent(old(Contents()), item, position, itemSize)
      ensures position.SendToBack? ==> Contents() == old(Contents()) + [item]
      ensures position.SendToFront? ==> Contents() == [item] + old(Contents())
      ensures position.Overwrite? && itemSize > 0 ==> Contents() == [item]
    {
      var messages := messagesWaiting;
      if itemSize == 0 {
        assert item == [];
      } else if position.SendToBack? {
        BackIsAppend(storage[..], head, messages, length, itemSize, item);
        NextPointer(Past(head, messages, length), length, itemSize);
        CopyIn(writeTo, item, Past(head, messages, length));
        writeTo := writeTo + itemSize;
        if writeTo >= storage.Length {
          writeTo := 0;
        }
      } else {
        ghost var slot := Prev(head, length);
        if messages < length {
          FrontIsPrepend(storage[..], head, messages, length, itemSize, item);
        } else {
          FrontIsPrepend(storage[..], head, 0, length, itemSize, item);
        }
        PrevPointer(slot, length, itemSize);
        CopyIn(readFrom, item, slot);
        readFrom := readFrom - itemSize;
        if readFrom < 0 {
          readFrom := storage.Length - itemSize;
        }
        head := slot;
        if position.Overwrite? {
          if messages > 0 {
            messages := messages - 1;
          }
        }
      }
      messagesWaiting := messages + 1;
    }

    /** prvCopyDataFromQueue. */
    method CopyDataFromQueue() returns (item: Item)
      requires Valid() && messagesWaiting > 0
      modifies `readFrom
      ensures item == Contents0() && (itemSize > 0 ==> readFrom == Offset(head, itemSize))
              && (itemSize == 0 ==> readFrom == old(readFrom))
    {
      item := [];
      if itemSize != 0 {
        RestIsTail(storage[..], head, messagesWaiting, length, itemSize);
        NextPointer(Prev(head, length), length, itemSize);
        readFrom := readFrom + itemSize;
        if readFrom >= storage.Length {
          readFrom := 0;
        }
        item := storage[readFrom..readFrom + itemSize];
      }
    }

    /** The oldest item. */
    ghost function Contents0(): Item
      requires length > 0 && storage.Length == Offset(length, itemSize) && (itemSize > 0 ==> head < length)
      reads this, storage
    {
      if itemSize == 0 then [] else (SlotFits(head, length, itemSize); ItemAt(storage[..], head, itemSize))
    }

    /** A send that does not wait. */
    method Send(item: Item, position: Position) returns (sent: bool)
      requires Valid() && |item| == itemSize && (position.Overwrite? ==> length == 1)
      modifies this, storage
      ensures Valid() && sent == (|old(Contents())| < length || position.Overwrite?)
      ensures Contents() == if sent then Sent(old(Contents()), item, position, itemSize) else old(Contents())
      ensures sent && position.SendToBack? ==> Contents() == old(Contents()) + [item]
      ensures sent && position.SendToFront? ==> Contents() == [item] + old(Contents())
      ensures sent && position.Overwrite? && itemSize > 0 ==> Contents() == [item]
    {
      sent := messagesWaiting < length || position.Overwrite?;
      if sent {
        CopyDataToQueue(item, position);
      }
    }

    /** A receive that does not wait. */
    method Receive() returns (received: bool, item: Item)
      requires Valid()
      modifies this
      ensures Valid() && received == (|old(Contents())| > 0)
      ensures if received then [item] + Contents() == old(Contents()) else Contents() == old(Contents())
    {
      received, item := messagesWaiting > 0, [];
      if received {
        if itemSize > 0 {
          RestIsTail(storage[..], head, messagesWaiting, length, itemSize);
        }
        item := CopyDataFromQueue();
        messagesWaiting := messagesWaiting - 1;
        if itemSize > 0 {
          head := Next(head, length);
        }
      }
    }

    /** A peek that does not wait: the read pointer is put back. */
    method Peek() returns (peeked: bool, item: Item)
      requires Valid()
      modifies `readFrom
      ensures Valid() && peeked == (|Contents()| > 0) && Contents() == old(Contents()) && readFrom == old(readFrom)
      ensures peeked ==> item == Contents()[0]
    {
      peeked, item := messagesWaiting > 0, [];
      if peeked {
        if itemSize > 0 {
          RestIsTail(storage[..], head, messagesWaiting, length, itemSize);
        }
        var originalReadPosition := readFrom;
        item := CopyDataFromQueue();
        readFrom := originalReadPosition;
      }
    }
  }
}
