/** One writer and one reader of a stream or message buffer (stream_buffer.c), interleaved at every
    single access to a shared variable or byte. Neither side takes a lock: the writer alone moves the
    head, the reader alone moves the tail, and each works from old copies of the other's index. */
module StreamInterleaving {
  import opened Bytes
  import opened MessageFrames
  import opened Numbers
  import opened Rings

  // ---------- The machine ----------

  /** Where the writer is: sampling the tail twice, holding a space value, or part-way through storing
      bytes that it may or may not publish. */
  datatype Writer =
    | Idle
    | SampledTail(data: Message, tail: nat)
    | ComputedSpace(data: Message, tail: nat, space: nat)
    | HasSpace(data: Message, space: nat)
    | Storing(bytes: seq<Byte>, stored: nat, publish: bool)

  /** Where the reader is. Its count of available bytes was taken when `seen` messages had been sent. */
  datatype Reader =
    | Waiting
    | HasCount(want: nat, available: nat, seen: nat)
    | Heading(want: nat, available: nat, seen: nat, got: seq<Byte>)
    | Fetching(need: nat, got: seq<Byte>)

  /** The shared buffer and the two sides, then the history: bytes published and consumed, messages
      published and received. */
  datatype State = State(message: bool, buffer: seq<Byte>, head: nat, tail: nat, writer: Writer, reader: Reader,
                         written: seq<Byte>, read: seq<Byte>, sent: seq<Message>, received: seq<seq<Byte>>)

  datatype Event =
    | Send(data: Message)
    | ReadTail
    | ReadHeadAndTail
    | RecheckTail
    | Resample
    | Decide
    | StoreByte
    | FinishSend
    | Receive(want: nat)
    | DecideReceive
    | FetchByte
    | FinishHeading
    | FinishReceive

  /** xStreamBufferSpacesAvailable, from the two indices. */
  function Space(length: nat, head: nat, tail: nat): int {
    var space := length + tail - head - 1;
    if space >= length then space - length else space
  }

  /** prvBytesInBuffer, from the two indices. */
  function Available(length: nat, head: nat, tail: nat): int {
    var count := length + head - tail;
    if count >= length then count - length else count
  }

  predicate Enabled(s: State, e: Event) {
    match e
    case Send(_) => s.writer.Idle?
    case ReadTail => s.writer.SampledTail?
    case ReadHeadAndTail => s.writer.SampledTail? && Space(|s.buffer|, s.head, s.tail) >= 0
    case RecheckTail => s.writer.ComputedSpace?
    case Resample => s.writer.HasSpace?
    case Decide => s.writer.HasSpace?
    case StoreByte => s.writer.Storing? && s.writer.stored < |s.writer.bytes|
      && 0 <= Past(s.head, s.writer.stored, |s.buffer|) < |s.buffer|
    case FinishSend => s.writer.Storing? && s.writer.stored >= |s.writer.bytes|
      && Past(s.head, |s.writer.bytes|, |s.buffer|) >= 0
    case Receive(_) => s.reader.Waiting? && Available(|s.buffer|, s.head, s.tail) >= 0
    case DecideReceive => s.reader.HasCount?
    case FetchByte =>
      && (s.reader.Heading? || s.reader.Fetching?)
      && |s.reader.got| < (if s.reader.Heading? then PREFIX else s.reader.need)
      && 0 <= Past(s.tail, |s.reader.got|, |s.buffer|) < |s.buffer|
    case FinishHeading => s.reader.Heading? && |s.reader.got| == PREFIX
    case FinishReceive =>
      && s.reader.Fetching? && |s.reader.got| == s.reader.need
      && Past(s.tail, s.reader.need, |s.buffer|) >= 0
      && (s.message ==> s.reader.need >= PREFIX)
  }

  /** prvWriteMessageToBuffer: a message goes in whole or not at all, a stream as far as it fits. An
      empty message has its length stored but not published. */
  function DecidedWriter(message: bool, data: Message, space: nat): Writer {
    if message then
      if space >= |data| + PREFIX then Storing(Frame(data), 0, data != []) else Idle
    else
      if Min(|data|, space) == 0 then Idle else Storing(data[..Min(|data|, space)], 0, true)
  }

  function DecidedReader(message: bool, want: nat, available: nat, seen: nat): Reader {
    if message then
      if available > PREFIX then Heading(want, available, seen, []) else Waiting
    else
      if available > 0 && Min(want, available) > 0 then Fetching(Min(want, available), []) else Waiting
  }

  /** prvReadMessageFromBuffer, once the length has been fetched. */
  function HeadedReader(r: Reader): Reader
    requires r.Heading? && |r.got| == PREFIX
  {
    var length := Length(r.got);
    var count := Min(if length > r.want then 0 else length, r.available - PREFIX);
    if count <= 0 then Waiting else Fetching(PREFIX + count, r.got)
  }

  function Apply(s: State, e: Event): State
    requires Enabled(s, e)
  {
    match e
    case Send(data) => s.(writer := SampledTail(data, s.tail))
    case ReadTail => s.(writer := SampledTail(s.writer.data, s.tail))
    case ReadHeadAndTail => s.(writer := ComputedSpace(s.writer.data, s.writer.tail, Space(|s.buffer|, s.head, s.tail)))
    case RecheckTail =>
      if s.tail == s.writer.tail then s.(writer := HasSpace(s.writer.data, s.writer.space))
      else s.(writer := SampledTail(s.writer.data, s.tail))
    case Resample => s.(writer := SampledTail(s.writer.data, s.tail))
    case Decide => s.(writer := DecidedWriter(s.message, s.writer.data, s.writer.space))
    case StoreByte =>
      s.(buffer := s.buffer[Past(s.head, s.writer.stored, |s.buffer|) := s.writer.bytes[s.writer.stored]],
         writer := s.writer.(stored := s.writer.stored + 1))
    case FinishSend =>
      if s.writer.publish then Published(s, s.writer.bytes).(writer := Idle) else s.(writer := Idle)
    case Receive(want) => s.(reader := HasCount(want, Available(|s.buffer|, s.head, s.tail), |s.sent|))
    case DecideReceive => s.(reader := DecidedReader(s.message, s.reader.want, s.reader.available, s.reader.seen))
    case FetchByte =>
      s.(reader := s.reader.(got := s.reader.got + [s.buffer[Past(s.tail, |s.reader.got|, |s.buffer|)]]))
    case FinishHeading => s.(reader := HeadedReader(s.reader))
    case FinishReceive => Consumed(s, s.reader.got).(reader := Waiting)
  }

  function Published(s: State, bytes: seq<Byte>): State
    requires Past(s.head, |bytes|, |s.buffer|) >= 0
  {
    s.(head := Past(s.head, |bytes|, |s.buffer|), written := s.written + bytes,
       sent := if s.message && PREFIX <= |bytes| < 0x1_0000_0000 then s.sent + [bytes[PREFIX..]] else s.sent)
  }

  function Consumed(s: State, got: seq<Byte>): State
    requires Past(s.tail, |got|, |s.buffer|) >= 0 && (s.message ==> |got| >= PREFIX)
  {
    s.(tail := Past(s.tail, |got|, |s.buffer|), read := s.read + got,
       received := if s.message then s.received + [got[PREFIX..]] else s.received)
  }

  ghost predicate CanRun(s: State, es: seq<Event>)
    decreases |es|
  {
    es != [] ==> Enabled(s, es[0]) && CanRun(Apply(s, es[0]), es[1..])
  }

  function Run(s: State, es: seq<Event>): State
    requires CanRun(s, es)
    decreases |es|
  {
    if es == [] then s else Run(Apply(s, es[0]), es[1..])
  }

  // ---------- What every step keeps ----------

  /** The space and the bytes there really are. */
  function Free(s: State): int {
    |s.buffer| - 1 - Unread(s)
  }

  function Unread(s: State): int {
    |s.written| - |s.read|
  }

  predicate IndicesOk(s: State) {
    && |s.buffer| > 1
    && s.head == Slot(|s.written|, |s.buffer|) && s.tail == Slot(|s.read|, |s.buffer|)
    && 0 <= Unread(s) < |s.buffer|
  }

  /** No byte that is published and not yet consumed has been overwritten. */
  predicate ContentsOk(buffer: seq<Byte>, written: seq<Byte>, read: seq<Byte>)
    requires |buffer| > 0
  {
    && read <= written
    && (forall k {:trigger written[k]} :: |read| <= k < |written| ==> buffer[Slot(k, |buffer|)] == written[k])
  }

  /** Bytes stored beyond the head, as far as they go. */
  predicate Stored(buffer: seq<Byte>, from: nat, bytes: seq<Byte>, stored: nat)
    requires |buffer| > 0
  {
    stored <= |bytes| && forall j {:trigger bytes[j]} :: 0 <= j < stored ==>
      buffer[Slot(from + j, |buffer|)] == bytes[j]
  }

  predicate IsFrame(bytes: seq<Byte>) {
    PREFIX <= |bytes| < 0x1_0000_0000 && bytes == Frame(bytes[PREFIX..])
  }

  /** Any space value the writer holds is still a lower bound, and what it has stored is in place. */
  predicate WriterOk(w: Writer, free: int, message: bool, buffer: seq<Byte>, from: nat)
    requires |buffer| > 0
  {
    match w
    case ComputedSpace(_, _, space) => space <= free
    case HasSpace(_, space) => space <= free
    case Storing(bytes, stored, publish) => |bytes| <= free && Stored(buffer, from, bytes, stored)
      && (message ==> IsFrame(bytes) && (publish ==> |bytes| > PREFIX))
    case _ => true
  }

  /** What has been fetched is what was written from there on. */
  predicate Fetched(got: seq<Byte>, written: seq<Byte>, from: nat) {
    from + |got| <= |written| && forall j {:trigger got[j]} :: 0 <= j < |got| ==> got[j] == written[from + j]
  }

  /** Any count the reader holds is still a lower bound, and what it has fetched was published. */
  predicate ReaderOk(r: Reader, written: seq<Byte>, from: nat) {
    match r
    case HasCount(_, available, _) => from + available <= |written|
    case Heading(_, available, _, got) => PREFIX < available && from + available <= |written| && |got| <= PREFIX
      && Fetched(got, written, from)
    case Fetching(need, got) => |got| <= need && from + need <= |written| && Fetched(got, written, from)
    case _ => true
  }

  /** In a message buffer the bytes are whole frames, so many read and so many to come, none of an empty message. */
  predicate FramesOk(written: seq<Byte>, read: seq<Byte>, sent: seq<Message>, received: seq<seq<Byte>>) {
    && written == Frames(sent) && [] !in sent
    && |received| <= |sent| && received == sent[..|received|]
    && read == Frames(sent[..|received|])
  }

  /** The reader's counts are of whole frames too. */
  predicate CountOk(r: Reader, sent: seq<Message>, done: nat) {
    match r
    case HasCount(_, available, seen) => done <= seen <= |sent| && available == |Frames(sent[done..seen])|
    case Heading(_, available, seen, _) => done < seen <= |sent| && available == |Frames(sent[done..seen])|
    case Fetching(need, _) => done < |sent| && need == PREFIX + |sent[done]|
    case _ => true
  }

  predicate Sound(s: State) {
    && IndicesOk(s)
    && ContentsOk(s.buffer, s.written, s.read)
    && WriterOk(s.writer, Free(s), s.message, s.buffer, |s.written|)
    && ReaderOk(s.reader, s.written, |s.read|)
    && (s.message ==> FramesOk(s.written, s.read, s.sent, s.received) && CountOk(s.reader, s.sent, |s.received|))
    && (!s.message ==> !s.reader.Heading?)
  }

  function Empty(message: bool, buffer: seq<Byte>): State {
    State(message, buffer, 0, 0, Idle, Waiting, [], [], [], [])
  }

  lemma EmptyIsSound(message: bool, buffer: seq<Byte>)
    requires |buffer| > 1
    ensures Sound(Empty(message, buffer))
  {
  }

  /** What the two index computations come to: true values, at the moment of sampling. */
  lemma SamplesAreTrue(s: State)
    requires IndicesOk(s)
    ensures Space(|s.buffer|, s.head, s.tail) == Free(s) >= 0
    ensures Available(|s.buffer|, s.head, s.tail) == Unread(s)
  {
    SlotGap(|s.read|, |s.written|, |s.buffer|);
  }

  /** A byte stored within the free space is none of those that matter. */
  lemma StoredByteIsElsewhere(buffer: seq<Byte>, written: seq<Byte>, read: seq<Byte>, bytes: seq<Byte>, stored: nat,
                              slot: nat)
    requires |buffer| > 1 && ContentsOk(buffer, written, read) && Stored(buffer, |written|, bytes, stored)
    requires stored < |bytes| < |buffer| - (|written| - |read|) && slot == Slot(|written| + stored, |buffer|)
    ensures ContentsOk(buffer[slot := bytes[stored]], written, read)
    ensures Stored(buffer[slot := bytes[stored]], |written|, bytes, stored + 1)
  {
    forall k | |read| <= k < |written| + stored ensures Slot(k, |buffer|) != slot {
      SlotGap(k, |written| + stored, |buffer|);
    }
  }

  lemma StoreByteKeeps(s: State)
    requires Sound(s) && Enabled(s, StoreByte)
    ensures Sound(Apply(s, StoreByte))
  {
    SlotGap(|s.written|, |s.written| + s.writer.stored, |s.buffer|);
    StoredByteIsElsewhere(s.buffer, s.written, s.read, s.writer.bytes, s.writer.stored,
      Past(s.head, s.writer.stored, |s.buffer|));
  }

  lemma PublishKeepsContents(buffer: seq<Byte>, written: seq<Byte>, read: seq<Byte>, bytes: seq<Byte>)
    requires |buffer| > 0 && ContentsOk(buffer, written, read) && Stored(buffer, |written|, bytes, |bytes|)
    ensures ContentsOk(buffer, written + bytes, read)
  {
    forall k | |read| <= k < |written + bytes| ensures buffer[Slot(k, |buffer|)] == (written + bytes)[k] {
      if k >= |written| {
        assert (written + bytes)[k] == bytes[k - |written|];
      }
    }
  }

  lemma PublishKeepsReader(reader: Reader, written: seq<Byte>, taken: nat, bytes: seq<Byte>)
    requires ReaderOk(reader, written, taken)
    ensures ReaderOk(reader, written + bytes, taken)
  {
  }

  lemma PublishKeepsFrames(written: seq<Byte>, read: seq<Byte>, sent: seq<Message>, received: seq<seq<Byte>>,
                           bytes: seq<Byte>)
    requires FramesOk(written, read, sent, received) && IsFrame(bytes) && |bytes| > PREFIX
    ensures FramesOk(written + bytes, read, sent + [bytes[PREFIX..]], received)
  {
    OneMore(sent, bytes[PREFIX..]);
    assert (sent + [bytes[PREFIX..]])[..|received|] == sent[..|received|];
  }

  lemma PublishKeepsCount(reader: Reader, sent: seq<Message>, done: nat, m: Message)
    requires CountOk(reader, sent, done)
    ensures CountOk(reader, sent + [m], done)
  {
    if reader.HasCount? || reader.Heading? {
      assert (sent + [m])[done..reader.seen] == sent[done..reader.seen];
    }
  }

  lemma FinishSendKeeps(s: State)
    requires Sound(s) && Enabled(s, FinishSend)
    ensures Sound(Apply(s, FinishSend))
  {
    var bytes := s.writer.bytes;
    if s.writer.publish {
      SlotGap(|s.written|, |s.written| + |bytes|, |s.buffer|);
      PublishKeepsContents(s.buffer, s.written, s.read, bytes);
      PublishKeepsReader(s.reader, s.written, |s.read|, bytes);
      if s.message {
        PublishKeepsFrames(s.written, s.read, s.sent, s.received, bytes);
        PublishKeepsCount(s.reader, s.sent, |s.received|, bytes[PREFIX..]);
      }
    }
  }

  lemma FetchByteKeeps(s: State)
    requires Sound(s) && Enabled(s, FetchByte)
    ensures Sound(Apply(s, FetchByte))
  {
    var got := s.reader.got;
    SlotGap(|s.read|, |s.read| + |got|, |s.buffer|);
    FetchOneMore(got, s.written, |s.read|);
  }

  lemma FetchOneMore(got: seq<Byte>, written: seq<Byte>, taken: nat)
    requires Fetched(got, written, taken) && taken + |got| < |written|
    ensures Fetched(got + [written[taken + |got|]], written, taken)
  {
  }

  /** The bytes not yet consumed begin with the frame of the next message. */
  lemma NextIsFrame(written: seq<Byte>, read: seq<Byte>, sent: seq<Message>, received: seq<seq<Byte>>)
    requires FramesOk(written, read, sent, received) && |received| < |sent|
    ensures Frames(sent[..|received| + 1]) == read + Frame(sent[|received|])
    ensures read + Frame(sent[|received|]) <= written
  {
    var g := |received|;
    NextFrame(sent, g, |sent|);
    FramesSplit(sent, g + 1, |sent|);
    assert sent[..|sent|] == sent;
  }

  lemma FetchedIsPart(got: seq<Byte>, written: seq<Byte>, read: seq<Byte>, frame: seq<Byte>)
    requires read + frame <= written && Fetched(got, written, |read|)
    requires |got| <= |frame|
    ensures got == frame[..|got|]
  {
    forall j | 0 <= j < |got| ensures got[j] == frame[j] {
      assert (read + frame)[|read| + j] == frame[j];
    }
  }

  lemma FinishHeadingKeeps(s: State)
    requires Sound(s) && s.message && Enabled(s, FinishHeading)
    ensures Sound(Apply(s, FinishHeading))
  {
    var g := |s.received|;
    var m := s.sent[g];
    NextFrame(s.sent, g, s.reader.seen);
    NextIsFrame(s.written, s.read, s.sent, s.received);
    FetchedIsPart(s.reader.got, s.written, s.read, Frame(m));
    assert Frame(m)[..PREFIX] == Prefix(|m|);
    LengthOfPrefix(|m|);
  }

  lemma FinishReceiveKeeps(s: State)
    requires Sound(s) && Enabled(s, FinishReceive)
    ensures Sound(Apply(s, FinishReceive))
  {
    var got := s.reader.got;
    SlotGap(|s.read|, |s.read| + s.reader.need, |s.buffer|);
    ConsumeKeepsContents(s.buffer, s.written, s.read, got);
    if s.message {
      ConsumeKeepsFrames(s.written, s.read, s.sent, s.received, got);
    }
  }

  /** A whole frame consumed is the next message received. */
  lemma ConsumeKeepsFrames(written: seq<Byte>, read: seq<Byte>, sent: seq<Message>, received: seq<seq<Byte>>,
                           got: seq<Byte>)
    requires FramesOk(written, read, sent, received) && |received| < |sent|
    requires Fetched(got, written, |read|) && |got| == PREFIX + |sent[|received|]|
    ensures FramesOk(written, read + got, sent, received + [got[PREFIX..]])
  {
    var m := sent[|received|];
    NextIsFrame(written, read, sent, received);
    FetchedIsPart(got, written, read, Frame(m));
    assert got == Frame(m);
    assert Frame(m)[PREFIX..] == m;
    assert sent[..|received| + 1] == sent[..|received|] + [m];
  }

  lemma ConsumeKeepsContents(buffer: seq<Byte>, written: seq<Byte>, read: seq<Byte>, got: seq<Byte>)
    requires |buffer| > 0 && ContentsOk(buffer, written, read) && Fetched(got, written, |read|)
    ensures ContentsOk(buffer, written, read + got)
  {
  }
}
