/** What a whole send and a whole receive come to, however the other side's accesses fall in between. */
module StreamCalls {
  import opened Bytes
  import opened MessageFrames
  import opened Numbers
  import opened StreamInterleaving
  import opened StreamRuns

  // ---------- A send ----------

  /** A message is sent whole or not at all, and it is if it fitted when the call began; an empty one never is. */
  predicate MessageSent(before: seq<Message>, after: seq<Message>, data: Message, free: int) {
    if data == [] then after == before
    else after == before + [data] || (after == before && |data| + PREFIX > free)
  }

  /** A stream takes at least as much as fitted when the call began. */
  ghost predicate BytesSent(before: seq<Byte>, after: seq<Byte>, data: Message, free: int) {
    exists k: nat {:trigger data[..k]} :: k <= |data| && k >= Min(|data|, free) && after == before + data[..k]
  }

  /** Part-way through the send of some data that began in state b, or at its end. */
  ghost predicate Sending(b: State, data: Message, s: State) {
    && s.message == b.message && |s.buffer| == |b.buffer| && |s.read| >= |b.read|
    && (!s.writer.Idle? ==> s.written == b.written && s.sent == b.sent)
    && match s.writer
       case SampledTail(d, _) => d == data
       case ComputedSpace(d, _, space) => d == data && space >= Free(b)
       case HasSpace(d, space) => d == data && space >= Free(b)
       case Storing(bytes, _, publish) =>
         if s.message then bytes == Frame(data) && publish == (data != [])
         else publish && |bytes| <= |data| && |bytes| >= Min(|data|, Free(b)) && bytes == data[..|bytes|]
       case Idle => if s.message then MessageSent(b.sent, s.sent, data, Free(b))
                    else BytesSent(b.written, s.written, data, Free(b))
  }

  lemma DecideGoesOn(b: State, data: Message, s: State)
    requires Sound(s) && Sound(b) && Sending(b, data, s) && s.writer.HasSpace?
    ensures Sending(b, data, Apply(s, Decide))
  {
    var s' := Apply(s, Decide);
    var n := Min(|data|, s.writer.space);
    if s'.writer.Idle? && !s.message {
      assert data[..0] == [] && b.written + [] == b.written;
    }
  }

  lemma FinishGoesOn(b: State, data: Message, s: State)
    requires Sound(s) && Sending(b, data, s) && Enabled(s, FinishSend)
    ensures Sending(b, data, Apply(s, FinishSend))
  {
    var bytes, s' := s.writer.bytes, Apply(s, FinishSend);
    if s.message {
      assert Frame(data)[PREFIX..] == data;
    } else {
      assert s'.written == b.written + data[..|bytes|];
    }
  }

  lemma StepGoesOn(b: State, data: Message, s: State, e: Event)
    requires Sound(s) && Sound(b) && Sending(b, data, s) && Enabled(s, e) && !e.Send?
    ensures Sending(b, data, Apply(s, e))
  {
    match e {
      case Decide => DecideGoesOn(b, data, s);
      case FinishSend => FinishGoesOn(b, data, s);
      case ReadHeadAndTail => SamplesAreTrue(s);
      case _ =>
    }
  }

  lemma {:induction false} RunGoesOn(b: State, data: Message, s: State, es: seq<Event>)
    requires Sound(s) && Sound(b) && Sending(b, data, s) && CanRun(s, es) && forall e :: e in es ==> !e.Send?
    ensures Sending(b, data, Run(s, es))
    decreases |es|
  {
    if es != [] {
      assert es[0] in es;
      StepGoesOn(b, data, s, es[0]);
      StepKeeps(s, es[0]);
      RunGoesOn(b, data, Apply(s, es[0]), es[1..]);
    }
  }

  /** A whole send, from any state the buffer can reach, with any steps of the reader in between. It sends the message,
      and does so if that fitted when the call began; of a stream at least as much as fitted then, and in any case the
      first bytes of the data. */
  lemma SendIsCarriedOut(b: State, data: Message, es: seq<Event>)
    requires Sound(b) && b.writer.Idle? && CanRun(b, [Send(data)] + es) && forall e :: e in es ==> !e.Send?
    requires Run(b, [Send(data)] + es).writer.Idle?
    ensures var s := Run(b, [Send(data)] + es);
            if b.message then MessageSent(b.sent, s.sent, data, Free(b))
            else BytesSent(b.written, s.written, data, Free(b))
  {
    assert ([Send(data)] + es)[1..] == es;
    StepKeeps(b, Send(data));
    RunGoesOn(b, data, Apply(b, Send(data)), es);
  }

  // ---------- A receive ----------

  /** Of a message buffer: the next message, if there was one when the call began and it is not too long. */
  function MessageReceived(b: State, want: nat): seq<seq<Byte>> {
    var g := |b.received|;
    if g < |b.sent| && |b.sent[g]| <= want then b.received + [b.sent[g]] else b.received
  }

  /** Part-way through a receive that began in state b, or at its end. */
  predicate Receiving(b: State, want: nat, s: State) {
    && s.message == b.message && b.sent <= s.sent && b.written <= s.written
    && (!s.reader.Waiting? ==> s.read == b.read && s.received == b.received)
    && match s.reader
       case HasCount(w, available, seen) => w == want && available == Unread(b) && seen == |b.sent|
       case Heading(w, _, seen, _) => w == want && seen == |b.sent| && |b.received| < |b.sent|
       case Fetching(need, _) =>
         if s.message then |b.received| < |b.sent| && |b.sent[|b.received|]| <= want
         else need == Min(want, Unread(b))
       case Waiting => if s.message then s.received == MessageReceived(b, want)
                       else |s.read| == |b.read| + Min(want, Unread(b))
  }

  lemma {:induction false} FramesGrow(ms: seq<Message>)
    ensures |Frames(ms)| >= PREFIX * |ms|
    ensures ms != [] && [] !in ms ==> |Frames(ms)| > PREFIX
  {
    if ms != [] {
      FramesGrow(ms[..|ms| - 1]);
      assert ms[|ms| - 1] in ms;
    }
  }

  lemma DecideReceiveGoesOn(b: State, want: nat, s: State)
    requires Sound(s) && Sound(b) && Receiving(b, want, s) && s.reader.HasCount?
    ensures Receiving(b, want, Apply(s, DecideReceive))
  {
    if s.message {
      var ms := s.sent[|s.received|..s.reader.seen];
      assert forall m :: m in ms ==> m in s.sent;
      FramesGrow(ms);
      assert ms == [] <==> |b.received| == |b.sent|;
    }
  }

  lemma HeadingGoesOn(b: State, want: nat, s: State)
    requires Sound(s) && Sound(b) && Receiving(b, want, s) && s.message && Enabled(s, FinishHeading)
    ensures Receiving(b, want, Apply(s, FinishHeading))
  {
    var g := |s.received|;
    var m := s.sent[g];
    assert m in s.sent && m == b.sent[g];
    HeadingIsRead(s);
    NextFrame(s.sent, g, s.reader.seen);
  }

  lemma HeadingIsRead(s: State)
    requires Sound(s) && s.message && Enabled(s, FinishHeading)
    ensures Length(s.reader.got) == |s.sent[|s.received|]|
  {
    var m := s.sent[|s.received|];
    NextIsFrame(s.written, s.read, s.sent, s.received);
    FetchedIsPart(s.reader.got, s.written, s.read, Frame(m));
    assert Frame(m)[..PREFIX] == Prefix(|m|);
    LengthOfPrefix(|m|);
  }

  lemma FinishReceiveGoesOn(b: State, want: nat, s: State)
    requires Sound(s) && Sound(b) && Receiving(b, want, s) && Enabled(s, FinishReceive)
    ensures Receiving(b, want, Apply(s, FinishReceive))
  {
    if s.message {
      var m, got := s.sent[|s.received|], s.reader.got;
      NextIsFrame(s.written, s.read, s.sent, s.received);
      FetchedIsPart(got, s.written, s.read, Frame(m));
      assert got == Frame(m) && Frame(m)[PREFIX..] == m && m == b.sent[|b.received|];
    }
  }

  /** The writer's steps do not concern the reader, but for what they publish. */
  lemma WriterStepGoesOn(b: State, want: nat, s: State, e: Event)
    requires Receiving(b, want, s) && Enabled(s, e)
    requires !e.Receive? && !e.DecideReceive? && !e.FetchByte? && !e.FinishHeading? && !e.FinishReceive?
    ensures Receiving(b, want, Apply(s, e))
  {
    var s' := Apply(s, e);
    assert s'.reader == s.reader && s'.read == s.read && s'.received == s.received;
  }

  lemma FetchGoesOn(b: State, want: nat, s: State)
    requires Receiving(b, want, s) && Enabled(s, FetchByte)
    ensures Receiving(b, want, Apply(s, FetchByte))
  {
  }

  lemma ReceiveStepGoesOn(b: State, want: nat, s: State, e: Event)
    requires Sound(s) && Sound(b) && Receiving(b, want, s) && Enabled(s, e) && !e.Receive?
    ensures Receiving(b, want, Apply(s, e))
  {
    match e {
      case DecideReceive => DecideReceiveGoesOn(b, want, s);
      case FinishHeading => HeadingGoesOn(b, want, s);
      case FinishReceive => FinishReceiveGoesOn(b, want, s);
      case FetchByte => FetchGoesOn(b, want, s);
      case _ => WriterStepGoesOn(b, want, s, e);
    }
  }

  lemma {:induction false} ReceiveRunGoesOn(b: State, want: nat, s: State, es: seq<Event>)
    requires Sound(s) && Sound(b) && Receiving(b, want, s) && CanRun(s, es) && forall e :: e in es ==> !e.Receive?
    ensures Receiving(b, want, Run(s, es)) && Sound(Run(s, es))
    decreases |es|
  {
    if es != [] {
      assert es[0] in es;
      ReceiveStepGoesOn(b, want, s, es[0]);
      StepKeeps(s, es[0]);
      ReceiveRunGoesOn(b, want, Apply(s, es[0]), es[1..]);
    }
  }

  /** A whole receive, from any state the buffer can reach, with any steps of the writer in between: it delivers the
      next message exactly if there was one when the call began and it is not too long; of a stream, as many of the next
      bytes as were there then and are asked for. */
  lemma ReceiveIsCarriedOut(b: State, want: nat, es: seq<Event>)
    requires Sound(b) && b.reader.Waiting? && CanRun(b, [Receive(want)] + es) && forall e :: e in es ==> !e.Receive?
    requires Run(b, [Receive(want)] + es).reader.Waiting?
    ensures var s := Run(b, [Receive(want)] + es);
            if b.message then s.received == MessageReceived(b, want)
            else s.read == b.written[..|b.read| + Min(want, Unread(b))]
  {
    assert ([Receive(want)] + es)[1..] == es;
    SamplesAreTrue(b);
    StepKeeps(b, Receive(want));
    ReceiveRunGoesOn(b, want, Apply(b, Receive(want)), es);
  }
}
