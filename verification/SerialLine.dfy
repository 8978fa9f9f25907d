/** Everything in esp8266.c that takes bytes out of the receive ring while frames arrive: the parser, the loop over
    text lines that runs after it, and the waits for a reply that every transmission makes. */
module SerialLine {
  import opened Bytes
  import opened IpdParser
  import opened TextLines

  /** A byte arrives or the parser makes a round; esp8266_loop drops the lines the parser left; or at_wait_for, in an
      acknowledgement or any other command, looks for a reply; or a command of the set-up empties the ring first. */
  datatype Happening = Ring(e: Event) | DropLines | Await(text: seq<Byte>) | Clear

  /** How many bytes go from the front of the ring, unparsed. */
  function Taken(x: seq<Byte>, h: Happening): (n: nat)
    ensures n <= |x|
  {
    match h
    case Ring(_) => 0
    case DropLines => WholeLines(x)
    case Await(text) => Awaited(x, text)
    case Clear => |x|
  }

  function Next(round: seq<Byte> -> Step, s: State, h: Happening): State {
    if h.Ring? then Apply(round, s, h.e) else s.(held := s.held[Taken(s.held, h)..])
  }

  function Go(round: seq<Byte> -> Step, s: State, hs: seq<Happening>): State
    decreases |hs|
  {
    if hs == [] then s else Go(round, Next(round, s, hs[0]), hs[1..])
  }

  // ---------- What may be taken ----------

  /** A needle stands here, or what there is so far of one. */
  predicate MayBegin(x: seq<Byte>, i: nat) {
    i < |x| && forall j :: 0 <= j < 5 && i + j < |x| ==> x[i + j] == NEEDLE[j]
  }

  /** No frame can begin in the first n bytes, whatever follows. */
  ghost predicate NoBeginning(x: seq<Byte>, n: nat) {
    forall i: nat :: i < n ==> !MayBegin(x, i)
  }

  /** It makes no difference to any callback, now or later, that they are taken. */
  ghost predicate Harmless(x: seq<Byte>, n: nat)
    requires n <= |x|
  {
    forall more: seq<Byte> :: SameCalls(x, n, more)
  }

  ghost predicate SameCalls(x: seq<Byte>, n: nat, more: seq<Byte>)
    requires n <= |x|
  {
    Parse(Round, x + more).calls == Parse(Round, x[n..] + more).calls
  }

  lemma NoNeedleBegins(x: seq<Byte>, n: nat, more: seq<Byte>, k: nat)
    requires NoBeginning(x, n) && k < n <= |x|
    ensures !NeedleAt(x + more, k)
  {
    assert !MayBegin(x, k);
    var j :| 0 <= j < 5 && k + j < |x| && x[k + j] != NEEDLE[j];
    if k + 5 <= |x + more| {
      assert (x + more)[k..k + 5][j] == x[k + j];
    }
  }

  lemma TakingNoise(x: seq<Byte>, n: nat, more: seq<Byte>)
    requires n <= |x| && NoBeginning(x, n)
    ensures SameCalls(x, n, more) && EndsWith(Parse(Round, x + more).rest, Parse(Round, x[n..] + more).rest)
  {
    assert x[..n] + (x[n..] + more) == x + more;
    forall k: nat | k < n ensures !NeedleAt(x + more, k) {
      NoNeedleBegins(x, n, more, k);
    }
    NoiseIsPassedOver(x[..n], x[n..] + more);
  }

  /** A callback's data and the shortest beginning of a header fit into what they were parsed from. */
  ghost predicate Fits(round: seq<Byte> -> Step) {
    forall y: seq<Byte> :: round(y).Deliver? ==> |round(y).call.data| + 6 <= |y|
  }

  lemma {:induction false} CallsFit(round: seq<Byte> -> Step, x: seq<Byte>, c: Call)
    requires Fits(round) && c in Parse(round, x).calls
    ensures |c.data| + 6 <= |x|
    decreases |x|
  {
    var s := round(x);
    if Acts(s, x) && c !in Calls(s) {
      CallsFit(round, x[s.count..], c);
    }
  }

  lemma RoundFits()
    ensures Fits(Round)
  {
    forall y: seq<Byte> | Round(y).Deliver? ensures |Round(y).call.data| + 6 <= |y| {
      var hit := FindIpd(y, 0);
      var colon := FindColon(y, hit, hit + HEADER_SIZE - 1);
      FindIpdIsFirst(y, 0);
      FindColonIsFirst(y, hit, hit);
      assert NeedleAt(y, hit);
      assert forall j :: 0 <= j < 5 ==> y[hit..hit + 5][j] == NEEDLE[j];
    }
  }

  /** A frame that has lost its beginning is lost, even if a few bytes follow it. */
  lemma FrameWithoutBeginning(f: Frame, k: nat, more: seq<Byte>)
    requires Sendable(f) && 0 < k <= |FrameOf(f)| && |more| < 6
    ensures f.call !in Parse(Round, FrameOf(f)[k..] + more).calls
  {
    var h, x := HeaderOf(f.call.link, |f.call.data|, f.linked), FrameOf(f)[k..] + more;
    var p := if k < |h| then h[k..] else [];
    var y := x[|p|..];
    assert p + y == x && |y| <= |f.call.data| + |more|;
    forall i: nat | i < |p| ensures !NeedleAt(x, i) {
      HeaderHasOneColon(f.call.link, |f.call.data|, f.linked, k + i);
      assert x[i] == h[k + i];
      assert i + 5 <= |x| ==> x[i..i + 5][0] == x[i];
    }
    NoiseIsPassedOver(p, y);
    RoundFits();
    if f.call in Parse(Round, y).calls {
      CallsFit(Round, y, f.call);
    }
  }

  lemma FrameAlone(p: seq<Byte>, f: Frame)
    requires NoNeedle(p) && Sendable(f)
    ensures Parse(Round, p + FrameOf(f)).calls == [f.call]
  {
    FirstFrame(p, f, []);
    assert p + (FrameOf(f) + []) == p + FrameOf(f);
    NoiseAlone([]);
  }

  lemma TakingTheBeginning(p: seq<Byte>, f: Frame, k: nat, n: nat)
    requires NoNeedle(p) && Sendable(f) && k < |FrameOf(f)| && |p| < n <= |p| + k
    ensures !SameCalls(p + FrameOf(f)[..k], n, FrameOf(f)[k..])
  {
    var x, rest := p + FrameOf(f)[..k], FrameOf(f)[k..];
    assert x + rest == p + FrameOf(f) && x[n..] + rest == FrameOf(f)[n - |p|..] + [];
    FrameAlone(p, f);
    FrameWithoutBeginning(f, n - |p|, []);
  }

  /** While the ring holds text with the beginning of at most one frame behind it, taking bytes off its front is
      harmless, whatever follows, exactly if none of them may belong to that frame. */
  lemma TakingIsHarmlessIff(p: seq<Byte>, f: Frame, k: nat, n: nat)
    requires NoNeedle(p) && Sendable(f) && k < |FrameOf(f)| && n <= |p| + k
    requires NoBeginning(p + FrameOf(f)[..k], |p|)
    ensures Harmless(p + FrameOf(f)[..k], n) <==> NoBeginning(p + FrameOf(f)[..k], n)
  {
    var x := p + FrameOf(f)[..k];
    if NoBeginning(x, n) {
      forall more: seq<Byte> ensures SameCalls(x, n, more) {
        TakingNoise(x, n, more);
      }
    } else {
      TakingTheBeginning(p, f, k, n);
    }
  }

  /** For the line loop: no newline where a frame may have begun, or behind that. */
  lemma DropLinesTakesNoiseIff(x: seq<Byte>)
    ensures NoBeginning(x, WholeLines(x)) <==> forall i: nat, j: nat :: MayBegin(x, i) && i <= j < |x| ==>
            x[j] != NEWLINE
  {
    var n := WholeLines(x);
    if n > 0 && forall i: nat, j: nat :: MayBegin(x, i) && i <= j < |x| ==> x[j] != NEWLINE {
      assert x[n - 1] == NEWLINE;
    }
  }

  // ---------- Every run ----------

  /** Nothing is taken in a run that a frame may begin in. */
  ghost predicate Careful(round: seq<Byte> -> Step, s: State, hs: seq<Happening>)
    decreases |hs|
  {
    hs != [] ==> NoBeginning(s.held, Taken(s.held, hs[0])) && Careful(round, Next(round, s, hs[0]), hs[1..])
  }

  /** Whatever follows, the callbacks are those that parsing everything makes that was ever accepted, and nothing
      is left over that would not be left over then. */
  ghost predicate Follows(round: seq<Byte> -> Step, s: State) {
    forall more: seq<Byte> :: FollowsFor(round, s, more)
  }

  ghost predicate FollowsFor(round: seq<Byte> -> Step, s: State, more: seq<Byte>) {
    && s.calls + Parse(round, s.held + more).calls == Parse(round, s.accepted + more).calls
    && EndsWith(Parse(round, s.accepted + more).rest, Parse(round, s.held + more).rest)
  }

  /** Rounds that text in front makes no difference to. */
  ghost predicate Sifts(round: seq<Byte> -> Step) {
    Stable(round) && forall x: seq<Byte>, n: nat, more: seq<Byte> :: n <= |x| && NoBeginning(x, n) ==>
      SiftsFor(round, x, n, more)
  }

  ghost predicate SiftsFor(round: seq<Byte> -> Step, x: seq<Byte>, n: nat, more: seq<Byte>)
    requires n <= |x|
  {
    && Parse(round, x + more).calls == Parse(round, x[n..] + more).calls
    && EndsWith(Parse(round, x + more).rest, Parse(round, x[n..] + more).rest)
  }

  lemma RoundSifts()
    ensures Sifts(Round)
  {
    RoundIsStable();
    forall x: seq<Byte>, n: nat, more: seq<Byte> | n <= |x| && NoBeginning(x, n) ensures SiftsFor(Round, x, n, more) {
      TakingNoise(x, n, more);
    }
  }

  lemma ReceiveFollowsFor(round: seq<Byte> -> Step, s: State, b: Byte, more: seq<Byte>)
    requires FollowsFor(round, s, [b] + more) && FollowsFor(round, s, more)
    ensures FollowsFor(round, Apply(round, s, Receive(b)), more)
  {
    assert (s.held + [b]) + more == s.held + ([b] + more) && (s.accepted + [b]) + more == s.accepted + ([b] + more);
  }

  lemma RoundFollowsFor(round: seq<Byte> -> Step, s: State, more: seq<Byte>)
    requires Stable(round) && FollowsFor(round, s, more)
    ensures FollowsFor(round, Apply(round, s, DoRound), more)
  {
    var step := round(s.held);
    if Acts(step, s.held) {
      assert round(s.held + more) == step;
      assert (s.held + more)[step.count..] == s.held[step.count..] + more;
      var p := Parse(round, s.held[step.count..] + more);
      assert (s.calls + Calls(step)) + p.calls == s.calls + (Calls(step) + p.calls);
    }
  }

  lemma TakeFollowsFor(round: seq<Byte> -> Step, s: State, n: nat, more: seq<Byte>)
    requires FollowsFor(round, s, more) && n <= |s.held| && SiftsFor(round, s.held, n, more)
    ensures FollowsFor(round, s.(held := s.held[n..]), more)
  {
    EndsTwice(Parse(round, s.accepted + more).rest, Parse(round, s.held + more).rest,
              Parse(round, s.held[n..] + more).rest);
  }

  lemma EndsTwice(a: seq<Byte>, b: seq<Byte>, c: seq<Byte>)
    requires EndsWith(a, b) && EndsWith(b, c)
    ensures EndsWith(a, c)
  {
    assert a[|a| - |c|..] == a[|a| - |b|..][|b| - |c|..];
  }

  lemma NextFollows(round: seq<Byte> -> Step, s: State, h: Happening)
    requires Sifts(round) && Follows(round, s) && NoBeginning(s.held, Taken(s.held, h))
    ensures Follows(round, Next(round, s, h))
  {
    forall more: seq<Byte> ensures FollowsFor(round, Next(round, s, h), more) {
      assert FollowsFor(round, s, more);
      match h {
        case Ring(Receive(b)) =>
          assert FollowsFor(round, s, [b] + more);
          ReceiveFollowsFor(round, s, b, more);
        case Ring(DoRound) => RoundFollowsFor(round, s, more);
        case _ =>
          assert SiftsFor(round, s.held, Taken(s.held, h), more);
          TakeFollowsFor(round, s, Taken(s.held, h), more);
      }
    }
  }

  lemma Breaks(round: seq<Byte> -> Step, s: State, n: nat, more: seq<Byte>)
    requires n <= |s.held| && FollowsFor(round, s, more)
    requires Parse(round, s.held + more).calls != Parse(round, s.held[n..] + more).calls
    ensures !FollowsFor(round, s.(held := s.held[n..]), more)
  {
    var a, b := Parse(round, s.held + more).calls, Parse(round, s.held[n..] + more).calls;
    assert (s.calls + a)[|s.calls|..] == a && (s.calls + b)[|s.calls|..] == b;
  }

  /** One step keeps this exactly if it takes no byte that a frame may begin in, the ring holding text with the
      beginning of at most one frame behind it. */
  lemma StepFollowsIff(s: State, h: Happening, p: seq<Byte>, f: Frame, k: nat)
    requires Follows(Round, s) && !h.Ring?
    requires NoNeedle(p) && Sendable(f) && k < |FrameOf(f)| && s.held == p + FrameOf(f)[..k] && NoBeginning(s.held, |p|)
    ensures Follows(Round, Next(Round, s, h)) <==> NoBeginning(s.held, Taken(s.held, h))
  {
    var n := Taken(s.held, h);
    if NoBeginning(s.held, n) {
      RoundSifts();
      NextFollows(Round, s, h);
    } else {
      var more := FrameOf(f)[k..];
      TakingTheBeginning(p, f, k, n);
      assert FollowsFor(Round, s, more);
      Breaks(Round, s, n, more);
      assert !FollowsFor(Round, Next(Round, s, h), more);
    }
  }

  lemma {:induction false} CarefulRunFollows(round: seq<Byte> -> Step, s: State, hs: seq<Happening>)
    requires Sifts(round) && Follows(round, s) && Careful(round, s, hs)
    ensures Follows(round, Go(round, s, hs))
    decreases |hs|
  {
    if hs != [] {
      NextFollows(round, s, hs[0]);
      CarefulRunFollows(round, Next(round, s, hs[0]), hs[1..]);
    }
  }

  lemma ParsesNoMore(round: seq<Byte> -> Step, x: seq<Byte>)
    requires round(x) == Wait
    ensures Parse(round, x) == Parsed([], x)
  {
  }

  lemma EmptyFollows(round: seq<Byte> -> Step)
    ensures Follows(round, State([], [], []))
  {
    forall more: seq<Byte> ensures FollowsFor(round, State([], [], []), more) {
      assert [] + more == more;
    }
  }

  /** However reception, parsing, the line loop and waits for replies interleave, as long as nothing is taken that a
      frame may begin in: the callbacks made are the first of those of the frames sent, in order; once everything has
      been received and no round can do more they are all of them, and only text from behind the last frame is left. */
  lemma FramesArrive(items: seq<Item>, last: seq<Byte>, hs: seq<Happening>, rest: seq<Byte>)
    requires Clean(items, last) && Careful(Round, State([], [], []), hs)
    requires Go(Round, State([], [], []), hs).accepted + rest == Line(items, last)
    ensures var s := Go(Round, State([], [], []), hs);
            && s.calls <= CallsOf(items)
            && (rest == [] && Round(s.held) == Wait ==> s.calls == CallsOf(items) && EndsWith(last, s.held))
  {
    var s := Go(Round, State([], [], []), hs);
    EmptyFollows(Round);
    RoundSifts();
    CarefulRunFollows(Round, State([], [], []), hs);
    FramesAreDelivered(items, last);
    assert FollowsFor(Round, s, rest);
    if rest == [] && Round(s.held) == Wait {
      assert s.held + rest == s.held && s.accepted + rest == s.accepted;
      ParsesNoMore(Round, s.held);
    }
  }

  /** Only waits for replies, and commands that empty the ring, could change anything. */
  ghost predicate Stuck(round: seq<Byte> -> Step, s: State) {
    && (forall e {:trigger Apply(round, s, e)} :: Apply(round, s, e) == s)
    && Next(round, s, DropLines) == s
  }

  lemma NoLinesToDropIff(round: seq<Byte> -> Step, s: State)
    ensures Next(round, s, DropLines) == s <==> NEWLINE !in s.held
  {
    assert Next(round, s, DropLines).held == s.held[WholeLines(s.held)..];
    assert s.held[0..] == s.held;
  }

  /** With the line loop a full ring is stuck exactly if nothing in it is complete, neither a frame nor a line. */
  lemma StuckWithLinesIff(s: State)
    ensures Stuck(Round, s) <==> |s.held| >= RING_ROOM && NothingComplete(s.held) && NEWLINE !in s.held
  {
    NoLinesToDropIff(Round, s);
    StuckIff(s);
  }

  // ---------- Where frames are lost ----------

  function Rings(es: seq<Event>): seq<Happening> {
    seq(|es|, i requires 0 <= i < |es| => Ring(es[i]))
  }

  lemma {:induction false} GoRings(round: seq<Byte> -> Step, s: State, es: seq<Event>)
    ensures Go(round, s, Rings(es)) == Run(round, s, es)
    decreases |es|
  {
    if es != [] {
      assert Rings(es)[1..] == Rings(es[1..]);
      GoRings(round, Apply(round, s, es[0]), es[1..]);
    }
  }

  lemma {:induction false} GoesOn(round: seq<Byte> -> Step, s: State, a: seq<Happening>, b: seq<Happening>)
    ensures Go(round, s, a + b) == Go(round, Go(round, s, a), b)
    decreases |a|
  {
    if a == [] {
      assert a + b == b;
    } else {
      assert (a + b)[1..] == a[1..] + b;
      GoesOn(round, Next(round, s, a[0]), a[1..], b);
    }
  }

  lemma Arrives(round: seq<Byte> -> Step, s: State, bytes: seq<Byte>)
    requires |s.held| + |bytes| <= RING_ROOM
    ensures Go(round, s, Rings(Receives(bytes))) == s.(held := s.held + bytes, accepted := s.accepted + bytes)
  {
    GoRings(round, s, Receives(bytes));
    AllAccepted(round, s, bytes);
  }

  lemma FrameFits(f: Frame)
    requires Sendable(f)
    ensures |FrameOf(f)| < 600
  {
    HeaderIsShort(f.call.link, |f.call.data|, f.linked);
  }

  /** The parser waits for the rest of a frame. */
  lemma RestIsAwaited(f: Frame, k: nat)
    requires Sendable(f) && k < |FrameOf(f)|
    ensures Round(FrameOf(f)[..k]) == Wait
  {
    var x, rest := FrameOf(f)[..k], FrameOf(f)[k..];
    assert x + rest == FrameOf(f) + [];
    FrameIsOneRound(f, []);
    RoundIsStable();
    RoundMakesProgress(x);
    assert Acts(Round(x), x) ==> Round(x + rest) == Round(x);
  }

  /** Any frame with a newline before its last byte is lost if the line loop runs when it has been received that far. */
  lemma NewlineLosesTheFrame(f: Frame, k: nat)
    requires Sendable(f) && 0 < k < |FrameOf(f)| && FrameOf(f)[k - 1] == NEWLINE
    ensures var hs := Rings(Receives(FrameOf(f)[..k])) + [Ring(DoRound), DropLines] + Rings(Receives(FrameOf(f)[k..]));
            var s := Go(Round, State([], [], []), hs);
            && s.accepted == FrameOf(f) && s.calls == [] && s.held == FrameOf(f)[k..]
            && f.call !in Parse(Round, s.held).calls
  {
    var x, rest := FrameOf(f)[..k], FrameOf(f)[k..];
    FrameFits(f);
    RestIsAwaited(f, k);
    assert x[k - 1] == NEWLINE && WholeLines(x) == k && x + rest == FrameOf(f) && rest + [] == rest;
    CutAtNewline(Round, x, rest);
    FrameWithoutBeginning(f, k, []);
  }

  lemma CutAtNewline(round: seq<Byte> -> Step, x: seq<Byte>, rest: seq<Byte>)
    requires round(x) == Wait && WholeLines(x) == |x| && |x| + |rest| <= RING_ROOM
    ensures Go(round, State([], [], []), Rings(Receives(x)) + [Ring(DoRound), DropLines] + Rings(Receives(rest)))
         == State(rest, [], x + rest)
  {
    var s0 := State([], [], []);
    Arrives(round, s0, x);
    assert [] + x == x && [] + rest == rest;
    LoopRuns(round, State(x, [], x));
    Arrives(round, State([], [], x), rest);
    GoesOn(round, s0, Rings(Receives(x)), [Ring(DoRound), DropLines]);
    GoesOn(round, s0, Rings(Receives(x)) + [Ring(DoRound), DropLines], Rings(Receives(rest)));
  }

  lemma LoopRuns(round: seq<Byte> -> Step, s: State)
    requires round(s.held) == Wait && WholeLines(s.held) == |s.held|
    ensures Go(round, s, [Ring(DoRound), DropLines]) == s.(held := [])
  {
    assert Go(round, s, [Ring(DoRound), DropLines]) == Go(round, Next(round, s, Ring(DoRound)), [DropLines]);
    assert Go(round, s, [DropLines]) == Next(round, s, DropLines);
  }

  const PROMPT: seq<Byte> := [62]

  lemma {:induction false} PromptBehind(x: seq<Byte>, i: nat)
    requires PROMPT[0] !in x && i <= |x|
    ensures FindText(x + PROMPT, PROMPT, i) == |x|
    decreases |x| - i
  {
    if i < |x| {
      assert (x + PROMPT)[i..i + 1] == [x[i]];
      PromptBehind(x, i + 1);
    } else {
      assert (x + PROMPT)[i..i + 1] == PROMPT;
    }
  }

  /** Two frames are in the ring, the first is delivered, and the acknowledgement it calls for waits for the prompt to
      send: the wait takes the first byte of the second frame instead of the prompt, and that frame is lost. */
  lemma AcknowledgementLosesTheNextFrame(f: Frame, g: Frame)
    requires Sendable(f) && Sendable(g) && PROMPT[0] !in FrameOf(g) && |FrameOf(f)| + |FrameOf(g)| < RING_ROOM
    ensures var hs := Rings(Receives(FrameOf(f) + FrameOf(g)))
            + [Ring(DoRound), Ring(Receive(PROMPT[0])), Await(PROMPT)];
            var s := Go(Round, State([], [], []), hs);
            s.calls == [f.call] && s.held == FrameOf(g)[1..] + PROMPT && g.call !in Parse(Round, s.held).calls
  {
    var x, y, s0 := FrameOf(f), FrameOf(g), State([], [], []);
    Arrives(Round, s0, x + y);
    assert [] + (x + y) == x + y;
    FrameIsOneRound(f, y);
    PromptBehind(y, 0);
    FrameBegins(g, []);
    PromptComes(Round, State(x + y, [], x + y), f.call, x, y);
    GoesOn(Round, s0, Rings(Receives(x + y)), [Ring(DoRound), Ring(Receive(PROMPT[0])), Await(PROMPT)]);
    FrameWithoutBeginning(g, 1, PROMPT);
  }

  lemma PromptComes(round: seq<Byte> -> Step, s: State, c: Call, x: seq<Byte>, y: seq<Byte>)
    requires s == State(x + y, [], x + y) && x != [] && y != [] && |y| < RING_ROOM
    requires round(x + y) == Deliver(c, |x|) && FindText(y + PROMPT, PROMPT, 0) == |y|
    ensures var s' := Go(round, s, [Ring(DoRound), Ring(Receive(PROMPT[0])), Await(PROMPT)]);
            s'.calls == [c] && s'.held == y[1..] + PROMPT
  {
    var s1 := Next(round, s, Ring(DoRound));
    assert (x + y)[|x|..] == y;
    var s2 := Next(round, s1, Ring(Receive(PROMPT[0])));
    assert s2.held == y + PROMPT;
    assert RestOfLine(y + PROMPT, |y|) == 1;
    var s3 := Next(round, s2, Await(PROMPT));
    assert (y + PROMPT)[1..] == y[1..] + PROMPT;
    var hs: seq<Happening> := [Ring(DoRound), Ring(Receive(PROMPT[0])), Await(PROMPT)];
    assert hs[1..][1..][1..] == [] && hs[1..][0] == hs[1] && hs[1..][1..][0] == hs[2];
    assert Go(round, s, hs) == Go(round, s1, hs[1..]) == Go(round, s2, hs[1..][1..]) == Go(round, s3, []);
  }
}
