/** The byte ring of stream_buffer.c as one task sees it: two-part copies into and out of an array, and
    messages stored behind their lengths. */
module StreamBuffer {
  import opened Bytes
  import opened MessageFrames
  import opened Numbers
  import opened Rings

  /** How far a slot lies past another. */
  function Offset(slot: nat, from: nat, length: nat): int {
    if slot >= from then slot - from else slot - from + length
  }

  /** The buffer after bytes were copied in from a slot on. */
  function Overlaid(before: seq<Byte>, from: nat, bytes: seq<Byte>, slot: nat): Byte
    requires slot < |before| && from < |before|
  {
    var o := Offset(slot, from, |before|);
    if 0 <= o < |bytes| then bytes[o] else before[slot]
  }

  /** The bytes of a ring from a slot on. */
  function Part(ring: seq<Byte>, from: nat, count: nat): (part: seq<Byte>)
    requires from < |ring| && count <= |ring|
    ensures |part| == count
  {
    seq(count, j requires 0 <= j < count => ring[Past(from, j, |ring|)])
  }

  /** The ring holds what has been written and not yet read, at the slots of those bytes. */
  ghost predicate Keeps(ring: seq<Byte>, head: nat, tail: nat, written: seq<Byte>, read: seq<Byte>) {
    && |ring| > 1
    && read <= written && |written| - |read| < |ring|
    && head == Slot(|written|, |ring|) && tail == Slot(|read|, |ring|)
    && forall k {:trigger written[k]} :: |read| <= k < |written| ==> ring[Slot(k, |ring|)] == written[k]
  }

  lemma WriteKeeps(ring: seq<Byte>, ring': seq<Byte>, head: nat, tail: nat, written: seq<Byte>, read: seq<Byte>,
                   bytes: seq<Byte>)
    requires Keeps(ring, head, tail, written, read) && |bytes| < |ring| - (|written| - |read|) && |ring'| == |ring|
    requires forall i {:trigger ring'[i]} :: 0 <= i < |ring| ==> ring'[i] == Overlaid(ring, head, bytes, i)
    ensures 0 <= Past(head, |bytes|, |ring|) && Keeps(ring', Past(head, |bytes|, |ring|), tail, written + bytes, read)
    ensures Keeps(ring', head, tail, written, read)
  {
    SlotGap(|written|, |written| + |bytes|, |ring|);
    forall k | |read| <= k < |written| ensures ring'[Slot(k, |ring|)] == ring[Slot(k, |ring|)] {
      SlotGap(k, |written|, |ring|);
    }
    forall k | |written| <= k < |written| + |bytes| ensures ring'[Slot(k, |ring|)] == (written + bytes)[k] {
      SlotGap(|written|, k, |ring|);
      assert (written + bytes)[k] == bytes[k - |written|];
    }
  }

  lemma PartIsNext(ring: seq<Byte>, head: nat, tail: nat, written: seq<Byte>, read: seq<Byte>, count: nat)
    requires Keeps(ring, head, tail, written, read) && count <= |written| - |read|
    ensures Part(ring, tail, count) == written[|read|..][..count]
    ensures 0 <= Past(tail, count, |ring|)
            && Keeps(ring, head, Past(tail, count, |ring|), written, written[..|read| + count])
  {
    SlotGap(|read|, |read| + count, |ring|);
    forall j | 0 <= j < count ensures Part(ring, tail, count)[j] == written[|read| + j] {
      SlotGap(|read|, |read| + j, |ring|);
    }
  }

  /** Reading on from a part already read, and only then moving the tail. */
  lemma TakeKeeps(ring: seq<Byte>, head: nat, tail: nat, written: seq<Byte>, read: seq<Byte>, done: nat, count: nat,
                  next: int)
    requires Keeps(ring, head, tail, written, read) && done + count <= |written| - |read|
    requires next == Past(tail, done, |ring|)
    ensures 0 <= next < |ring| && 0 <= Past(next, count, |ring|)
    ensures Part(ring, next, count) == written[|read|..][done..done + count]
    ensures Keeps(ring, head, Past(next, count, |ring|), written, read + written[|read|..][..done + count])
  {
    PartIsNext(ring, head, tail, written, read, done);
    PartIsNext(ring, head, next, written, written[..|read| + done], count);
    assert written[..|read| + done][..] + written[|read| + done..][..count] == read + written[|read|..][..done + count];
    assert written[|read| + done..][..count] == written[|read|..][done..done + count];
    assert written[..|read| + done + count] == read + written[|read|..][..done + count];
  }

  lemma OverlaidTwice(ring: seq<Byte>, ring1: seq<Byte>, ring2: seq<Byte>, from: nat, next: int, a: seq<Byte>,
                      b: seq<Byte>)
    requires from < |ring| == |ring1| == |ring2| && |a| + |b| < |ring| && next == Past(from, |a|, |ring|)
             && 0 <= next < |ring|
    requires forall i {:trigger ring1[i]} :: 0 <= i < |ring| ==> ring1[i] == Overlaid(ring, from, a, i)
    requires forall i {:trigger ring2[i]} :: 0 <= i < |ring| ==> ring2[i] == Overlaid(ring1, next, b, i)
    ensures forall i {:trigger ring2[i]} :: 0 <= i < |ring| ==> ring2[i] == Overlaid(ring, from, a + b, i)
  {
    forall i | 0 <= i < |ring| ensures ring2[i] == Overlaid(ring, from, a + b, i) {
      assert ring1[i] == Overlaid(ring, from, a, i);
    }
  }

  lemma PastTwice(from: nat, a: nat, b: nat, length: nat)
    requires from < length && a + b < length && Past(from, a, length) >= 0
    ensures Past(Past(from, a, length), b, length) == Past(from, a + b, length)
  {
  }

  /** The first so many bytes. */
  function Contents0(contents: seq<Byte>, count: int): seq<Byte>
    requires count <= |contents|
  {
    if count <= 0 then [] else contents[..count]
  }

  lemma FrameStarts(contents: seq<Byte>, m: Message)
    requires Frame(m) <= contents
    ensures |contents| >= PREFIX + |m| && contents[..PREFIX] == Prefix(|m|) && Length(Prefix(|m|)) == |m|
    ensures contents[..PREFIX + |m|] == Frame(m) && contents[PREFIX..PREFIX + |m|] == m
  {
    LengthOfPrefix(|m|);
    assert Frame(m)[..PREFIX] == Prefix(|m|);
    assert Frame(m)[PREFIX..] == m;
  }

  /** The contents are exactly these messages, none of them empty, each in its frame. */
  ghost predicate HoldsMessages(contents: seq<Byte>, ms: seq<Message>) {
    contents == Frames(ms) && forall i :: 0 <= i < |ms| ==> ms[i] != []
  }

  lemma FirstFrame(contents: seq<Byte>, ms: seq<Message>)
    requires HoldsMessages(contents, ms) && ms != []
    ensures contents == Frame(ms[0]) + Frames(ms[1..]) && |contents| > PREFIX
    ensures HoldsMessages(contents[|Frame(ms[0])|..], ms[1..])
  {
    NextFrame(ms, 0, |ms|);
    assert ms[0..|ms|] == ms && ms[1..|ms|] == ms[1..];
    assert contents[|Frame(ms[0])|..] == Frames(ms[1..]);
  }

  /** A message sent goes behind those already there. */
  lemma MessageAdded(contents: seq<Byte>, ms: seq<Message>, m: Message)
    requires HoldsMessages(contents, ms) && m != []
    ensures HoldsMessages(contents + Frame(m), ms + [m])
  {
    OneMore(ms, m);
  }

  class Buffer {
    const storage: array<Byte>
    const message: bool
    var head: nat
    var tail: nat
    ghost var written: seq<Byte>
    ghost var read: seq<Byte>

    ghost predicate Valid()
      reads this, storage
    {
      Keeps(storage[..], head, tail, written, read)
    }

    /** What has been written and not yet read. */
    ghost function Contents(): seq<Byte>
      requires Valid()
      reads this, storage
    {
      written[|read|..]
    }

    constructor (length: nat, isMessage: bool)
      requires length > 1
      ensures Valid() && fresh(storage) && storage.Length == length && message == isMessage && Contents() == []
    {
      storage, message := new Byte[length](_ => 0), isMessage;
      head, tail, written, read := 0, 0, [], [];
    }

    /** prvBytesInBuffer. */
    method BytesInBuffer() returns (count: nat)
      requires Valid()
      ensures count == |Contents()|
    {
      SlotGap(|read|, |written|, storage.Length);
      var c := storage.Length + head - tail;
      if c >= storage.Length {
        c := c - storage.Length;
      }
      count := c;
    }

    /** xStreamBufferSpacesAvailable. */
    method SpacesAvailable() returns (space: nat)
      requires Valid()
      ensures space == storage.Length - 1 - |Contents()|
    {
      SlotGap(|read|, |written|, storage.Length);
      var s := storage.Length + tail - head - 1;
      if s >= storage.Length {
        s := s - storage.Length;
      }
      space := s;
    }

    /** prvWriteBytesToBuffer: to the end of the storage first, then from its beginning. */
    method WriteBytesToBuffer(bytes: seq<Byte>, at: nat) returns (next: int)
      requires 0 < |bytes| <= storage.Length && at < storage.Length
      modifies storage
      ensures next == Past(at, |bytes|, storage.Length)
      ensures forall i :: 0 <= i < storage.Length ==> storage[i] == Overlaid(old(storage[..]), at, bytes, i)
    {
      var first := Min(storage.Length - at, |bytes|);
      forall i | 0 <= i < first {
        storage[at + i] := bytes[i];
      }
      if |bytes| > first {
        forall i | 0 <= i < |bytes| - first {
          storage[i] := bytes[first + i];
        }
      }
      next := at + |bytes|;
      if next >= storage.Length {
        next := next - storage.Length;
      }
    }

    /** prvReadBytesFromBuffer. */
    method ReadBytesFromBuffer(count: nat, at: nat) returns (bytes: seq<Byte>, next: int)
      requires 0 < count <= storage.Length && at < storage.Length
      ensures bytes == Part(storage[..], at, count) && next == Past(at, count, storage.Length)
    {
      var first := Min(storage.Length - at, count);
      bytes := storage[at..at + first];
      if count > first {
        bytes := bytes + storage[..count - first];
      }
      next := at + count;
      if next >= storage.Length {
        next := next - storage.Length;
      }
    }

    /** prvWriteMessageToBuffer: a message goes in whole or not at all, a stream as far as it fits. */
    method WriteMessageToBuffer(data: Message, space: nat) returns (stored: nat)
      requires Valid() && space <= storage.Length - 1 - |Contents()|
      modifies this, storage
      ensures Valid() && read == old(read)
      ensures stored == if message then (if |data| + PREFIX <= space then |data| else 0) else Min(|data|, space)
      ensures written == old(written) + if stored == 0 then [] else if message then Frame(data) else data[..stored]
    {
      var next := head;
      stored := |data|;
      ghost var ring := storage[..];
      ghost var bytes: seq<Byte> := [];
      if message {
        if space >= |data| + PREFIX {
          var n := WriteBytesToBuffer(Prefix(|data|), next);
          SlotGap(|written|, |written| + PREFIX, storage.Length);
          next := n;
          bytes := Prefix(|data|);
        } else {
          stored := 0;
        }
      } else {
        stored := Min(|data|, space);
      }
      if stored != 0 {
        ghost var ring1 := storage[..];
        var n := WriteBytesToBuffer(data[..stored], next);
        OverlaidTwice(ring, ring1, storage[..], head, next, bytes, data[..stored]);
        WriteKeeps(ring, storage[..], head, tail, written, read, bytes + data[..stored]);
        PastTwice(head, |bytes|, stored, storage.Length);
        head := n;
        written := written + (bytes + data[..stored]);
      } else if message && space >= |data| + PREFIX {
        WriteKeeps(ring, storage[..], head, tail, written, read, Prefix(|data|));
      }
    }

    /** xStreamBufferSend, when it does not wait. */
    method Send(data: Message) returns (sent: nat)
      requires Valid()
      modifies this, storage
      ensures Valid()
      ensures message ==>
                if data != [] && |data| + PREFIX <= storage.Length - 1 - |old(Contents())|
                then sent == |data| && Contents() == old(Contents()) + Frame(data)
                else sent == 0 && Contents() == old(Contents())
      ensures !message ==>
                sent == Min(|data|, storage.Length - 1 - |old(Contents())|)
                  && Contents() == old(Contents()) + data[..sent]
    {
      var space := SpacesAvailable();
      sent := WriteMessageToBuffer(data, space);
    }

    /** prvReadMessageFromBuffer: the length first, then the message if it fits; otherwise nothing moves. */
    method ReadMessageFromBuffer(want: nat, available: nat, ghost ms: seq<Message>) returns (bytes: seq<Byte>)
      requires Valid() && 0 < available <= |Contents()|
      requires message ==> |ms| > 0 && ms[0] != [] && |Frame(ms[0])| <= available && Frame(ms[0]) <= Contents()
      modifies `tail, `read
      ensures Valid() && written == old(written)
      ensures message ==>
                if |ms[0]| <= want then bytes == ms[0] && read == old(read) + Frame(ms[0])
                else bytes == [] && read == old(read)
      ensures !message ==> bytes == Contents0(old(Contents()), Min(want, available)) && read == old(read) + bytes
    {
      var next := tail;
      var length, left := want, available;
      ghost var done: nat := 0;
      if message {
        var p, n := ReadBytesFromBuffer(PREFIX, next);
        PartIsNext(storage[..], head, tail, written, read, PREFIX);
        FrameStarts(Contents(), ms[0]);
        length, left, next, done := Length(p), left - PREFIX, n, PREFIX;
        if length > want {
          length := 0;
        }
      }
      var count := Min(length, left);
      bytes := [];
      if count != 0 {
        var b, n := ReadBytesFromBuffer(count, next);
        TakeKeeps(storage[..], head, tail, written, read, done, count, next);
        bytes, tail := b, n;
        read := read + written[|read|..][..done + count];
      }
    }

    /** xStreamBufferReceive, when it does not wait: the oldest message whole, or nothing and no change. */
    method Receive(want: nat, ghost ms: seq<Message>) returns (bytes: seq<Byte>)
      requires Valid() && (message ==> HoldsMessages(Contents(), ms))
      modifies `tail, `read
      ensures Valid()
      ensures message ==>
                if ms != [] && |ms[0]| <= want
                then bytes == ms[0] && HoldsMessages(Contents(), ms[1..])
                else bytes == [] && Contents() == old(Contents())
      ensures !message ==> bytes + Contents() == old(Contents()) && |bytes| == Min(want, |old(Contents())|)
    {
      if message && ms != [] {
        FirstFrame(Contents(), ms);
      }
      var least := if message then PREFIX else 0;
      var available := BytesInBuffer();
      bytes := [];
      if available > least {
        bytes := ReadMessageFromBuffer(want, available, ms);
      }
    }

    /** xStreamBufferNextMessageLengthBytes. */
    method NextMessageLengthBytes(ghost ms: seq<Message>) returns (length: nat)
      requires Valid() && (message ==> HoldsMessages(Contents(), ms))
      ensures length == if message && ms != [] then |ms[0]| else 0
    {
      if message && ms != [] {
        FirstFrame(Contents(), ms);
      }
      length := 0;
      if message {
        var available := BytesInBuffer();
        if available > PREFIX {
          var p, _ := ReadBytesFromBuffer(PREFIX, tail);
          PartIsNext(storage[..], head, tail, written, read, PREFIX);
          FrameStarts(Contents(), ms[0]);
          length := Length(p);
        }
      }
    }
  }
}
