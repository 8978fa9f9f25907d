/** Every run of the two sides of a stream or message buffer: what each step keeps holds throughout, so
    nothing is lost, made up or torn. */
module StreamRuns {
  import opened Bytes
  import opened MessageFrames
  import opened Rings
  import opened StreamInterleaving

  lemma StepKeeps(s: State, e: Event)
    requires Sound(s) && Enabled(s, e)
    ensures Sound(Apply(s, e))
  {
    match e {
      case StoreByte => StoreByteKeeps(s);
      case FinishSend => FinishSendKeeps(s);
      case FetchByte => FetchByteKeeps(s);
      case FinishHeading => FinishHeadingKeeps(s);
      case FinishReceive => FinishReceiveKeeps(s);
      case Decide =>
      case DecideReceive =>
      case _ => SampleKeeps(s, e);
    }
  }

  /** A sample taken at any moment is true then, and the other side can only make it an underestimate. */
  lemma SampleKeeps(s: State, e: Event)
    requires Sound(s) && Enabled(s, e)
    requires e.Send? || e.ReadTail? || e.ReadHeadAndTail? || e.RecheckTail? || e.Resample? || e.Receive?
    ensures Sound(Apply(s, e))
  {
    SamplesAreTrue(s);
    if e.Receive? && s.message {
      FramesSplit(s.sent, |s.received|, |s.sent|);
      assert s.sent[..|s.sent|] == s.sent;
    }
  }

  lemma {:induction false} RunKeeps(s: State, es: seq<Event>)
    requires Sound(s) && CanRun(s, es)
    ensures Sound(Run(s, es))
    decreases |es|
  {
    if es != [] {
      StepKeeps(s, es[0]);
      RunKeeps(Apply(s, es[0]), es[1..]);
    }
  }

  /** Over every interleaving: the bytes read are a prefix of those written, those in between are intact
      in the buffer, and every space or byte count held by either side is still a lower bound. */
  lemma NothingIsLostOrMadeUp(message: bool, buffer: seq<Byte>, es: seq<Event>)
    requires |buffer| > 1 && CanRun(Empty(message, buffer), es)
    ensures var s := Run(Empty(message, buffer), es);
            && |s.buffer| == |buffer| && s.read <= s.written && Unread(s) < |buffer|
            && (forall k :: |s.read| <= k < |s.written| ==> s.buffer[Slot(k, |s.buffer|)] == s.written[k])
            && (s.writer.HasSpace? ==> s.writer.space <= Free(s))
            && (s.reader.HasCount? ==> s.reader.available <= Unread(s))
  {
    EmptyIsSound(message, buffer);
    RunKeeps(Empty(message, buffer), es);
    BufferIsFixed(Empty(message, buffer), es);
  }

  /** Over every interleaving of a message buffer, the messages received are the first of those sent,
      whole and in order, and none of them is empty. */
  lemma MessagesArriveWhole(buffer: seq<Byte>, es: seq<Event>)
    requires |buffer| > 1 && CanRun(Empty(true, buffer), es)
    ensures var s := Run(Empty(true, buffer), es);
            |s.received| <= |s.sent| && s.received == s.sent[..|s.received|] && s.written == Frames(s.sent)
            && [] !in s.sent && [] !in s.received
  {
    EmptyIsSound(true, buffer);
    RunKeeps(Empty(true, buffer), es);
    BufferIsFixed(Empty(true, buffer), es);
  }

  lemma {:induction false} BufferIsFixed(s: State, es: seq<Event>)
    requires CanRun(s, es)
    ensures Run(s, es).message == s.message && |Run(s, es).buffer| == |s.buffer|
    decreases |es|
  {
    if es != [] {
      BufferIsFixed(Apply(s, es[0]), es[1..]);
    }
  }

  /** Which step each side is at, leaving aside whether its index arithmetic stays inside the buffer. */
  predicate Ready(s: State, e: Event) {
    match e
    case Send(_) => s.writer.Idle?
    case ReadTail => s.writer.SampledTail?
    case ReadHeadAndTail => s.writer.SampledTail?
    case RecheckTail => s.writer.ComputedSpace?
    case Resample => s.writer.HasSpace?
    case Decide => s.writer.HasSpace?
    case StoreByte => s.writer.Storing? && s.writer.stored < |s.writer.bytes|
    case FinishSend => s.writer.Storing? && s.writer.stored >= |s.writer.bytes|
    case Receive(_) => s.reader.Waiting?
    case DecideReceive => s.reader.HasCount?
    case FetchByte => (s.reader.Heading? && |s.reader.got| < PREFIX)
      || (s.reader.Fetching? && |s.reader.got| < s.reader.need)
    case FinishHeading => s.reader.Heading? && |s.reader.got| == PREFIX
    case FinishReceive => s.reader.Fetching? && |s.reader.got| == s.reader.need
  }

  /** It always does: no step the code would take is ever excluded from a run. */
  lemma IndicesStayInside(s: State, e: Event)
    requires Sound(s)
    ensures Enabled(s, e) <==> Ready(s, e)
  {
  }
}
