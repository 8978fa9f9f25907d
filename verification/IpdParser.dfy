/** The +IPD frame parser of esp8266.c: bytes arrive in a ring one interrupt at a time, and whatever
    frames are complete are taken out of it. */
module IpdParser {
  import opened Bytes
  import opened Numbers
  import opened TextLines

  const NEEDLE: seq<Byte> := [43, 73, 80, 68, 44]  // +IPD,
  const COMMA: Byte := 44
  const COLON: Byte := 58
  const HEADER_SIZE := 64
  const DATA_SIZE := 512
  const NONE := -1
  const LINE_SIZE := 128

  /** The receive callback's arguments. */
  datatype Call = Call(link: int, data: seq<Byte>)

  /** What one round of the parsing loop decides: nothing more can be done yet, or so many bytes go,
      with or without a callback. */
  datatype Step = Wait | Discard(count: nat) | Deliver(call: Call, count: nat)

  // ---------- One round, on a sequence ----------

  /** The first place from i on where the needle stands. */
  function FindIpd(x: seq<Byte>, i: nat): (hit: int)
    ensures hit == NONE || i <= hit <= |x| - 5
    decreases |x| - i
  {
    if i + 5 > |x| then NONE else if x[i..i + 5] == NEEDLE then i else FindIpd(x, i + 1)
  }

  /** The first colon from k on, below the limit. */
  function FindColon(x: seq<Byte>, k: nat, limit: nat): (colon: int)
    ensures colon == NONE || (k <= colon < |x| && colon < limit)
    decreases |x| - k
  {
    if k >= |x| || k >= limit then NONE else if x[k] == COLON then k else FindColon(x, k + 1, limit)
  }

  predicate IsDigit(b: Byte) {
    48 <= b <= 57
  }

  /** A character of a NUL-terminated string. */
  function CharAt(line: seq<Byte>, i: nat): Byte {
    if i < |line| then line[i] else 0
  }

  function DigitsEnd(line: seq<Byte>, i: nat): (end: nat)
    ensures i <= end && (end == i || end <= |line|) && !IsDigit(CharAt(line, end))
    ensures forall k :: i <= k < end ==> IsDigit(CharAt(line, k))
    decreases |line| - i
  {
    if IsDigit(CharAt(line, i)) then DigitsEnd(line, i + 1) else i
  }

  function Number(line: seq<Byte>, from: nat, to: nat): nat
    requires from <= to && forall k :: from <= k < to ==> IsDigit(CharAt(line, k))
  {
    if to == from then 0
    else
      assert IsDigit(CharAt(line, to - 1));
      var c: int := CharAt(line, to - 1);
      Number(line, from, to - 1) * 10 + (c - 48)
  }

  datatype Header = Header(link: int, length: nat)

  /** parse_ipd_header: +IPD,n: or +IPD,id,n: */
  function ParseHeader(line: seq<Byte>): Header {
    if |line| < 5 || line[..5] != NEEDLE then Header(-1, 0)
    else
      var q := DigitsEnd(line, 5);
      var withLink := CharAt(line, q) == COMMA;
      var p := if withLink then q + 1 else 5;
      var e := DigitsEnd(line, p);
      if CharAt(line, e) != COLON then Header(-1, 0)
      else Header(ToInt8(if withLink then Number(line, 5, q) else 0), ToUint16(Number(line, p, e)))
  }

  /** What a complete header, ending in the colon, makes of the bytes. */
  function Headed(x: seq<Byte>, colon: nat, h: Header): Step {
    var total := colon + 1 + h.length;
    if h.link < 0 || h.length == 0 then Discard(1)
    else if |x| < total then Wait
    else if h.length > DATA_SIZE then Discard(total)
    else Deliver(Call(h.link, x[colon + 1..total]), total)
  }

  function Located(x: seq<Byte>, hit: nat): Step
    requires hit <= |x|
  {
    var colon := FindColon(x, hit, hit + HEADER_SIZE - 1);
    if colon == NONE then Wait else Headed(x, colon, ParseHeader(x[hit..colon + 1]))
  }

  function Round(x: seq<Byte>): Step {
    if |x| < 6 then Wait
    else
      var hit := FindIpd(x, 0);
      if hit == NONE then Wait else Located(x, hit)
  }

  // ---------- All rounds, whatever a round decides ----------

  datatype Parsed = Parsed(calls: seq<Call>, rest: seq<Byte>)

  function Calls(s: Step): seq<Call> {
    if s.Deliver? then [s.call] else []
  }

  predicate Acts(s: Step, x: seq<Byte>) {
    s != Wait && 0 < s.count <= |x|
  }

  /** Rounds until nothing more can be done. */
  function Parse(round: seq<Byte> -> Step, x: seq<Byte>): Parsed
    decreases |x|
  {
    var s := round(x);
    if !Acts(s, x) then Parsed([], x)
    else
      var p := Parse(round, x[s.count..]);
      Parsed(Calls(s) + p.calls, p.rest)
  }

  function Then(calls: seq<Call>, p: Parsed): Parsed {
    Parsed(calls + p.calls, p.rest)
  }

  /** A round that does something does the same whatever follows. */
  ghost predicate Stable(round: seq<Byte> -> Step) {
    forall x, y {:trigger round(x + y)} :: Acts(round(x), x) ==> round(x + y) == round(x)
  }

  lemma ThenTwice(a: seq<Call>, b: seq<Call>, p: Parsed)
    ensures Then(a, Then(b, p)) == Then(a + b, p)
  {
    assert a + (b + p.calls) == (a + b) + p.calls;
  }

  /** Parsing what has come, and later the residue with the rest, is parsing it all at once. */
  lemma {:induction false} ChunksDoNotMatter(round: seq<Byte> -> Step, a: seq<Byte>, b: seq<Byte>)
    requires Stable(round)
    ensures Parse(round, a + b) == Then(Parse(round, a).calls, Parse(round, Parse(round, a).rest + b))
    decreases |a|
  {
    var s := round(a);
    if Acts(s, a) {
      assert round(a + b) == s;
      assert (a + b)[s.count..] == a[s.count..] + b;
      ChunksDoNotMatter(round, a[s.count..], b);
      var p := Parse(round, a[s.count..]);
      ThenTwice(Calls(s), p.calls, Parse(round, p.rest + b));
    }
  }

  // ---------- The rounds of the parser ----------

  lemma {:induction false} FindIpdStays(x: seq<Byte>, y: seq<Byte>, i: nat)
    requires FindIpd(x, i) != NONE
    ensures FindIpd(x + y, i) == FindIpd(x, i)
    decreases |x| - i
  {
    assert (x + y)[i..i + 5] == x[i..i + 5];
    if x[i..i + 5] != NEEDLE {
      FindIpdStays(x, y, i + 1);
    }
  }

  lemma {:induction false} FindColonStays(x: seq<Byte>, y: seq<Byte>, k: nat, limit: nat)
    requires FindColon(x, k, limit) != NONE
    ensures FindColon(x + y, k, limit) == FindColon(x, k, limit)
    decreases |x| - k
  {
    if x[k] != COLON {
      FindColonStays(x, y, k + 1, limit);
    }
  }

  lemma HeadedStays(x: seq<Byte>, y: seq<Byte>, colon: nat, h: Header)
    requires Headed(x, colon, h) != Wait
    ensures Headed(x + y, colon, h) == Headed(x, colon, h)
  {
    var total := colon + 1 + h.length;
    if total <= |x| {
      assert (x + y)[colon + 1..total] == x[colon + 1..total];
    }
  }

  lemma LocatedStays(x: seq<Byte>, y: seq<Byte>, hit: nat)
    requires hit <= |x| && Located(x, hit) != Wait
    ensures Located(x + y, hit) == Located(x, hit)
  {
    FindColonStays(x, y, hit, hit + HEADER_SIZE - 1);
    var colon := FindColon(x, hit, hit + HEADER_SIZE - 1);
    assert (x + y)[hit..colon + 1] == x[hit..colon + 1];
    HeadedStays(x, y, colon, ParseHeader(x[hit..colon + 1]));
  }

  /** Earlier bytes decide: what follows never changes what a round does. */
  lemma RoundIsStable()
    ensures Stable(Round)
  {
    forall x: seq<Byte>, y: seq<Byte> | Acts(Round(x), x) ensures Round(x + y) == Round(x) {
      var hit := FindIpd(x, 0);
      FindIpdStays(x, y, 0);
      LocatedStays(x, y, hit);
    }
  }

  /** A round that decides to act always can: it takes at least one byte, and no more than there are. */
  lemma RoundMakesProgress(x: seq<Byte>)
    ensures Round(x) != Wait ==> 0 < Round(x).count <= |x|
  {
  }

  /** parse_ipd_frames after a and again after b makes the callbacks, and leaves the residue, of one call
      after both. */
  lemma IncrementalIsBatch(a: seq<Byte>, b: seq<Byte>)
    ensures Parse(Round, a + b) == Then(Parse(Round, a).calls, Parse(Round, Parse(Round, a).rest + b))
  {
    RoundIsStable();
    ChunksDoNotMatter(Round, a, b);
  }

  // ---------- Any interleaving with the receive interrupt ----------

  datatype Event = Receive(byte: Byte) | DoRound

  const RING_ROOM := 1023

  /** The bytes in the ring, the callbacks made so far, and every byte the ring ever accepted. */
  datatype State = State(held: seq<Byte>, calls: seq<Call>, accepted: seq<Byte>)

  /** A byte that finds the ring full is lost. */
  function Apply(round: seq<Byte> -> Step, s: State, e: Event): State {
    match e
    case Receive(b) => if |s.held| >= RING_ROOM then s else s.(held := s.held + [b], accepted := s.accepted + [b])
    case DoRound =>
      var step := round(s.held);
      if Acts(step, s.held) then s.(held := s.held[step.count..], calls := s.calls + Calls(step)) else s
  }

  function Run(round: seq<Byte> -> Step, s: State, es: seq<Event>): State
    decreases |es|
  {
    if es == [] then s else Run(round, Apply(round, s, es[0]), es[1..])
  }

  /** What has been called, and what parsing the ring would still call, is what parsing everything would. */
  ghost predicate OnCourse(round: seq<Byte> -> Step, s: State) {
    Then(s.calls, Parse(round, s.held)) == Parse(round, s.accepted)
  }

  lemma ReceiveStaysOnCourse(round: seq<Byte> -> Step, s: State, b: Byte)
    requires Stable(round) && OnCourse(round, s)
    ensures OnCourse(round, Apply(round, s, Receive(b)))
  {
    ChunksDoNotMatter(round, s.held, [b]);
    ChunksDoNotMatter(round, s.accepted, [b]);
    ThenTwice(s.calls, Parse(round, s.held).calls, Parse(round, Parse(round, s.held).rest + [b]));
  }

  lemma RoundStaysOnCourse(round: seq<Byte> -> Step, s: State)
    requires OnCourse(round, s)
    ensures OnCourse(round, Apply(round, s, DoRound))
  {
    var step := round(s.held);
    if Acts(step, s.held) {
      ThenTwice(s.calls, Calls(step), Parse(round, s.held[step.count..]));
    }
  }

  lemma {:induction false} RunStaysOnCourse(round: seq<Byte> -> Step, s: State, es: seq<Event>)
    requires Stable(round) && OnCourse(round, s)
    ensures OnCourse(round, Run(round, s, es))
    decreases |es|
  {
    if es != [] {
      if es[0].Receive? {
        ReceiveStaysOnCourse(round, s, es[0].byte);
      } else {
        RoundStaysOnCourse(round, s);
      }
      RunStaysOnCourse(round, Apply(round, s, es[0]), es[1..]);
    }
  }

  /** However reception and parsing interleave, once no round can do more the callbacks made and the bytes
      kept are those of parsing in one go all that the ring accepted. */
  lemma InterleavingDoesNotMatter(es: seq<Event>)
    ensures var s := Run(Round, State([], [], []), es);
            Then(s.calls, Parse(Round, s.held)) == Parse(Round, s.accepted)
  {
    RoundIsStable();
    StartsOnCourse(Round);
    RunStaysOnCourse(Round, State([], [], []), es);
  }

  lemma StartsOnCourse(round: seq<Byte> -> Step)
    ensures OnCourse(round, State([], [], []))
  {
    assert Parse(round, []) == Parsed([], []);
  }

  function Receives(bytes: seq<Byte>): seq<Event> {
    seq(|bytes|, i requires 0 <= i < |bytes| => Receive(bytes[i]))
  }

  /** Nothing is lost while everything not yet parsed fits the ring. */
  lemma {:induction false} AllAccepted(round: seq<Byte> -> Step, s: State, bytes: seq<Byte>)
    requires |s.held| + |bytes| <= RING_ROOM
    ensures Run(round, s, Receives(bytes)) == s.(held := s.held + bytes, accepted := s.accepted + bytes)
    decreases |bytes|
  {
    if bytes == [] {
      assert s.held + bytes == s.held && s.accepted + bytes == s.accepted;
    } else {
      var s1 := Apply(round, s, Receive(bytes[0]));
      AllAccepted(round, s1, bytes[1..]);
      assert Receives(bytes)[1..] == Receives(bytes[1..]);
      assert s1.held + bytes[1..] == s.held + bytes && s1.accepted + bytes[1..] == s.accepted + bytes;
    }
  }

  // ---------- When the parser is stuck ----------

  predicate NeedleAt(x: seq<Byte>, i: nat) {
    i + 5 <= |x| && x[i..i + 5] == NEEDLE
  }

  /** The first place where the needle stands. */
  ghost predicate FirstNeedle(x: seq<Byte>, hit: nat) {
    NeedleAt(x, hit) && forall i: nat :: i < hit ==> !NeedleAt(x, i)
  }

  ghost predicate NoNeedle(x: seq<Byte>) {
    forall i: nat :: !NeedleAt(x, i)
  }

  /** The first colon within a header's length of the needle. */
  predicate HeaderEnds(x: seq<Byte>, hit: nat, colon: nat) {
    && hit <= colon < |x| && colon < hit + HEADER_SIZE - 1
    && x[colon] == COLON && forall k :: hit <= k < colon ==> x[k] != COLON
  }

  /** A header that is accepted, of a frame that is not all there. */
  predicate FrameIsShort(x: seq<Byte>, hit: nat, colon: nat) {
    && hit <= colon < |x|
    && var h := ParseHeader(x[hit..colon + 1]);
       h.link >= 0 && h.length > 0 && colon + 1 + h.length > |x|
  }

  /** Nothing that a round could act on: no needle, no colon soon enough after the first one, or a frame that is
      not all there. */
  ghost predicate NothingComplete(x: seq<Byte>) {
    forall hit: nat, colon: nat :: FirstNeedle(x, hit) && HeaderEnds(x, hit, colon) ==> FrameIsShort(x, hit, colon)
  }

  lemma {:induction false} FindIpdIsFirst(x: seq<Byte>, i: nat)
    requires forall j: nat :: j < i ==> !NeedleAt(x, j)
    ensures FindIpd(x, i) == NONE ==> NoNeedle(x)
    ensures FindIpd(x, i) != NONE ==> FirstNeedle(x, FindIpd(x, i))
    decreases |x| - i
  {
    if i + 5 <= |x| && x[i..i + 5] != NEEDLE {
      FindIpdIsFirst(x, i + 1);
    }
  }

  lemma {:induction false} FindColonIsFirst(x: seq<Byte>, hit: nat, k: nat)
    requires hit <= k && forall i :: hit <= i < k && i < |x| ==> x[i] != COLON
    ensures var c := FindColon(x, k, hit + HEADER_SIZE - 1);
            c != NONE ==> HeaderEnds(x, hit, c)
    ensures forall colon: nat :: HeaderEnds(x, hit, colon) ==> colon == FindColon(x, k, hit + HEADER_SIZE - 1)
    decreases |x| - k
  {
    if k < |x| && k < hit + HEADER_SIZE - 1 && x[k] != COLON {
      FindColonIsFirst(x, hit, k + 1);
    }
  }

  lemma LocatedWaitsIff(x: seq<Byte>, hit: nat)
    requires FirstNeedle(x, hit)
    ensures Located(x, hit) == Wait <==> forall colon: nat :: HeaderEnds(x, hit, colon) ==> FrameIsShort(x, hit, colon)
  {
    FindColonIsFirst(x, hit, hit);
    var c := FindColon(x, hit, hit + HEADER_SIZE - 1);
    if c != NONE {
      assert HeaderEnds(x, hit, c);
    }
  }

  /** A round waits exactly when nothing is complete. */
  lemma WaitsIff(x: seq<Byte>)
    ensures Round(x) == Wait <==> NothingComplete(x)
  {
    FindIpdIsFirst(x, 0);
    var hit := FindIpd(x, 0);
    if hit != NONE {
      LocatedWaitsIff(x, hit);
      forall h: nat | FirstNeedle(x, h) ensures h == hit {
        assert NeedleAt(x, h) && NeedleAt(x, hit);
      }
    }
  }

  /** A ring that is full of bytes with nothing complete in them is stuck: every later byte is lost, and no round
      takes anything out. Short of that, the next byte or the next round changes the state. */
  lemma StuckIff(s: State)
    ensures (forall e {:trigger Apply(Round, s, e)} :: Apply(Round, s, e) == s)
            <==> |s.held| >= RING_ROOM && NothingComplete(s.held)
  {
    WaitsIff(s.held);
    if |s.held| < RING_ROOM {
      assert |Apply(Round, s, Receive(0)).held| == |s.held| + 1;
    } else if Round(s.held) != Wait {
      RoundMakesProgress(s.held);
      assert |Apply(Round, s, DoRound).held| < |s.held|;
    }
  }

  lemma {:induction false} StuckForGood(s: State, es: seq<Event>)
    requires |s.held| >= RING_ROOM && NothingComplete(s.held)
    ensures Run(Round, s, es) == s
    decreases |es|
  {
    if es != [] {
      StuckIff(s);
      StuckForGood(s, es[1..]);
    }
  }

  /** A ring full of noise, from the start. */
  lemma NoiseSticks(bytes: seq<Byte>, es: seq<Event>)
    requires |bytes| == RING_ROOM && forall i :: 0 <= i < |bytes| ==> bytes[i] == 0
    ensures Run(Round, State([], [], []), Receives(bytes) + es) == State(bytes, [], bytes)
  {
    AllAccepted(Round, State([], [], []), bytes);
    assert [] + bytes == bytes;
    forall i: nat ensures !NeedleAt(bytes, i) {
      if i + 5 <= |bytes| {
        assert bytes[i..i + 5][0] == 0;
      }
    }
    StuckForGood(State(bytes, [], bytes), es);
    RunsJoin(Round, State([], [], []), Receives(bytes), es);
  }

  lemma {:induction false} RunsJoin(round: seq<Byte> -> Step, s: State, a: seq<Event>, b: seq<Event>)
    ensures Run(round, s, a + b) == Run(round, Run(round, s, a), b)
    decreases |a|
  {
    if a == [] {
      assert a + b == b;
    } else {
      assert (a + b)[1..] == a[1..] + b;
      RunsJoin(round, Apply(round, s, a[0]), a[1..], b);
    }
  }

  // ---------- Whole frames ----------

  function Decimal(n: nat): (d: seq<Byte>)
    ensures |d| > 0 && forall i :: 0 <= i < |d| ==> IsDigit(d[i])
  {
    if n < 10 then [48 + n] else Decimal(n / 10) + [48 + n % 10]
  }

  lemma {:induction false} DigitsEndIs(line: seq<Byte>, i: nat, e: nat)
    requires i <= e <= |line| && !IsDigit(CharAt(line, e)) && forall k :: i <= k < e ==> IsDigit(CharAt(line, k))
    ensures DigitsEnd(line, i) == e
    decreases e - i
  {
    if i < e {
      DigitsEndIs(line, i + 1, e);
    }
  }

  lemma {:induction false} NumberOfDecimal(line: seq<Byte>, from: nat, n: nat)
    requires from + |Decimal(n)| <= |line| && line[from..from + |Decimal(n)|] == Decimal(n)
    ensures forall k :: from <= k < from + |Decimal(n)| ==> IsDigit(CharAt(line, k))
    ensures Number(line, from, from + |Decimal(n)|) == n
  {
    var d := Decimal(n);
    assert forall k :: from <= k < from + |d| ==> CharAt(line, k) == line[from..from + |d|][k - from];
    if n >= 10 {
      var init := Decimal(n / 10);
      assert line[from..from + |init|] == line[from..from + |d|][..|init|] == init;
      NumberOfDecimal(line, from, n / 10);
    } else {
      assert Number(line, from, from) == 0;
    }
  }

  lemma DecimalIsShort(n: nat)
    requires n < 1000
    ensures |Decimal(n)| <= 3
  {
    assert n >= 10 ==> |Decimal(n)| == |Decimal(n / 10)| + 1;
    assert n >= 100 ==> |Decimal(n / 10)| == |Decimal(n / 10 / 10)| + 1;
  }

  lemma {:induction false} FindColonIs(x: seq<Byte>, k: nat, limit: nat, c: nat)
    requires k <= c < |x| && c < limit && x[c] == COLON && forall i :: k <= i < c ==> x[i] != COLON
    ensures FindColon(x, k, limit) == c
    decreases c - k
  {
    if k < c {
      FindColonIs(x, k + 1, limit, c);
    }
  }

  /** +IPD,id,n: with several connections, +IPD,n: with one. */
  function HeaderOf(link: nat, length: nat, linked: bool): seq<Byte> {
    NEEDLE + (if linked then Decimal(link) + [COMMA] else []) + Decimal(length) + [COLON]
  }

  /** Where the length begins in a header. */
  function LengthAt(link: nat, linked: bool): nat {
    if linked then 6 + |Decimal(link)| else 5
  }

  lemma HeaderParts(link: nat, length: nat, linked: bool)
    ensures var line, p := HeaderOf(link, length, linked), LengthAt(link, linked);
            var e := p + |Decimal(length)|;
            && |line| == e + 1 && line[..5] == NEEDLE && line[p..e] == Decimal(length) && line[e] == COLON
            && (linked ==> line[5..p - 1] == Decimal(link) && line[p - 1] == COMMA)
  {
  }

  lemma FieldIsReadBack(line: seq<Byte>, from: nat, n: nat)
    requires from + |Decimal(n)| < |line| && line[from..from + |Decimal(n)|] == Decimal(n)
             && !IsDigit(line[from + |Decimal(n)|])
    ensures DigitsEnd(line, from) == from + |Decimal(n)| && Number(line, from, DigitsEnd(line, from)) == n
  {
    NumberOfDecimal(line, from, n);
    DigitsEndIs(line, from, from + |Decimal(n)|);
  }

  /** The header of a frame is read back as its link, which is 0 when it is not given, and its length. */
  lemma HeaderIsReadBack(link: nat, length: nat, linked: bool)
    requires link < 128 && length < 0x1_0000 && (linked || link == 0)
    ensures ParseHeader(HeaderOf(link, length, linked)) == Header(link, length)
  {
    var line := HeaderOf(link, length, linked);
    HeaderParts(link, length, linked);
    if linked {
      FieldIsReadBack(line, 5, link);
    }
    FieldIsReadBack(line, LengthAt(link, linked), length);
  }

  /** What the module sends for data from a link, in either form. */
  datatype Frame = Frame(call: Call, linked: bool)

  predicate Sendable(f: Frame) {
    0 <= f.call.link < 128 && 0 < |f.call.data| <= DATA_SIZE && (f.linked || f.call.link == 0)
  }

  function FrameOf(f: Frame): seq<Byte>
    requires Sendable(f)
  {
    HeaderOf(f.call.link, |f.call.data|, f.linked) + f.call.data
  }

  lemma HeaderHasOneColon(link: nat, length: nat, linked: bool, i: nat)
    requires i < |HeaderOf(link, length, linked)|
    ensures HeaderOf(link, length, linked)[i] == COLON <==> i == |HeaderOf(link, length, linked)| - 1
    ensures i > 0 ==> HeaderOf(link, length, linked)[i] != NEEDLE[0]
  {
    var line, p := HeaderOf(link, length, linked), LengthAt(link, linked);
    HeaderParts(link, length, linked);
    if 5 <= i < p - 1 {
      assert line[i] == Decimal(link)[i - 5];
    } else if p <= i < |line| - 1 {
      assert line[i] == Decimal(length)[i - p];
    }
  }

  lemma HeaderIsShort(link: nat, length: nat, linked: bool)
    requires link < 1000 && length < 1000
    ensures 7 <= |HeaderOf(link, length, linked)| < HEADER_SIZE - 1
  {
    DecimalIsShort(link);
    DecimalIsShort(length);
  }

  lemma ColonEndsHeader(link: nat, length: nat, linked: bool, more: seq<Byte>)
    requires link < 1000 && length < 1000
    ensures var h := HeaderOf(link, length, linked);
            FindColon(h + more, 0, HEADER_SIZE - 1) == |h| - 1
  {
    var h := HeaderOf(link, length, linked);
    HeaderIsShort(link, length, linked);
    forall i: nat | i < |h| ensures (h + more)[i] == h[i] && (h[i] == COLON <==> i == |h| - 1) {
      HeaderHasOneColon(link, length, linked, i);
    }
    FindColonIs(h + more, 0, HEADER_SIZE - 1, |h| - 1);
  }

  lemma NeedleIsFound(link: nat, length: nat, linked: bool, more: seq<Byte>)
    ensures |HeaderOf(link, length, linked)| >= 5 && FindIpd(HeaderOf(link, length, linked) + more, 0) == 0
  {
    var x := HeaderOf(link, length, linked) + more;
    assert x[0..0 + 5] == NEEDLE;
  }

  lemma WholeFrame(h: seq<Byte>, data: seq<Byte>, more: seq<Byte>, link: int)
    requires h != [] && link >= 0 && 0 < |data| <= DATA_SIZE
    ensures Headed(h + (data + more), |h| - 1, Header(link, |data|)) == Deliver(Call(link, data), |h| + |data|)
    ensures (h + (data + more))[0..|h|] == h
  {
    assert (h + (data + more))[|h|..|h| + |data|] == data;
  }

  lemma FrameIsOneRound(f: Frame, more: seq<Byte>)
    requires Sendable(f)
    ensures Round(FrameOf(f) + more) == Deliver(f.call, |FrameOf(f)|)
  {
    var c := f.call;
    var h := HeaderOf(c.link, |c.data|, f.linked);
    assert FrameOf(f) + more == h + (c.data + more);
    HeaderIsShort(c.link, |c.data|, f.linked);
    NeedleIsFound(c.link, |c.data|, f.linked, c.data + more);
    ColonEndsHeader(c.link, |c.data|, f.linked, c.data + more);
    WholeFrame(h, c.data, more, c.link);
    HeaderIsReadBack(c.link, |c.data|, f.linked);
  }

  // ---------- What comes before a frame ----------

  /** Bytes that begin no needle move everything behind them along, and that is all. */
  function Shifted(s: Step, k: nat): Step {
    match s
    case Wait => Wait
    case Discard(count) => if count == 1 then s else Discard(k + count)
    case Deliver(call, count) => Deliver(call, k + count)
  }

  lemma {:induction false} FindIpdBehind(p: seq<Byte>, y: seq<Byte>, i: nat)
    requires i <= |p| && forall k: nat :: k < |p| ==> !NeedleAt(p + y, k)
    ensures FindIpd(p + y, i) == if FindIpd(y, 0) == NONE then NONE else |p| + FindIpd(y, 0)
    decreases |p| - i
  {
    if i < |p| {
      assert !NeedleAt(p + y, i);
      if i + 5 <= |p + y| {
        FindIpdBehind(p, y, i + 1);
      } else {
        assert FindIpd(y, 0) == NONE;
      }
    } else {
      FindIpdShifted(p, y, 0);
    }
  }

  lemma {:induction false} FindIpdShifted(p: seq<Byte>, y: seq<Byte>, i: nat)
    ensures FindIpd(p + y, |p| + i) == if FindIpd(y, i) == NONE then NONE else |p| + FindIpd(y, i)
    decreases |y| - i
  {
    if i + 5 <= |y| {
      assert (p + y)[|p| + i..|p| + i + 5] == y[i..i + 5];
      if y[i..i + 5] != NEEDLE {
        FindIpdShifted(p, y, i + 1);
      }
    }
  }

  lemma {:induction false} FindColonShifted(p: seq<Byte>, y: seq<Byte>, k: nat, limit: nat)
    ensures FindColon(p + y, |p| + k, |p| + limit) == if FindColon(y, k, limit) == NONE then NONE
            else |p| + FindColon(y, k, limit)
    decreases |y| - k
  {
    if k < |y| && k < limit && y[k] != COLON {
      FindColonShifted(p, y, k + 1, limit);
    }
  }

  lemma HeadedShifted(p: seq<Byte>, y: seq<Byte>, colon: nat, h: Header)
    requires colon < |y|
    ensures Headed(p + y, |p| + colon, h) == Shifted(Headed(y, colon, h), |p|)
  {
    var total := colon + 1 + h.length;
    if total <= |y| {
      assert (p + y)[|p| + colon + 1..|p| + total] == y[colon + 1..total];
    }
  }

  lemma LocatedShifted(p: seq<Byte>, y: seq<Byte>, hit: nat)
    requires hit <= |y|
    ensures Located(p + y, |p| + hit) == Shifted(Located(y, hit), |p|)
  {
    FindColonShifted(p, y, hit, hit + HEADER_SIZE - 1);
    var colon := FindColon(y, hit, hit + HEADER_SIZE - 1);
    if colon != NONE {
      assert (p + y)[|p| + hit..|p| + colon + 1] == y[hit..colon + 1];
      HeadedShifted(p, y, colon, ParseHeader(y[hit..colon + 1]));
    }
  }

  lemma RoundShifted(p: seq<Byte>, y: seq<Byte>)
    requires forall k: nat :: k < |p| ==> !NeedleAt(p + y, k)
    ensures Round(p + y) == Shifted(Round(y), |p|)
  {
    FindIpdBehind(p, y, 0);
    var hit := FindIpd(y, 0);
    if hit != NONE {
      LocatedShifted(p, y, hit);
      if |y| < 6 {
        assert hit == 0 && y[0..5] == y;
      }
    }
  }

  predicate EndsWith(x: seq<Byte>, end: seq<Byte>) {
    |end| <= |x| && x[|x| - |end|..] == end
  }

  /** Rounds that text in front only moves along make the same callbacks with and without it. */
  lemma {:induction false} PassedOver(round: seq<Byte> -> Step, p: seq<Byte>, y: seq<Byte>)
    requires forall x: seq<Byte> :: round(x) != Wait ==> Acts(round(x), x)
    requires forall k {:trigger p[k..]} :: 0 <= k <= |p| ==> round(p[k..] + y) == Shifted(round(y), |p| - k)
    ensures Parse(round, p + y).calls == Parse(round, y).calls
    ensures EndsWith(Parse(round, p + y).rest, Parse(round, y).rest)
    decreases |p|
  {
    assert p[0..] == p;
    if p == [] {
      assert p + y == y;
    } else if round(y).Discard? && round(y).count == 1 {
      assert (p + y)[1..] == p[1..] + y;
      assert forall k :: 0 <= k <= |p[1..]| ==> p[1..][k..] == p[k + 1..];
      PassedOver(round, p[1..], y);
    } else if round(y) != Wait {
      assert (p + y)[|p| + round(y).count..] == y[round(y).count..];
    }
  }

  lemma NoStartLater(p: seq<Byte>, y: seq<Byte>, c: nat)
    requires c <= |p| && forall k: nat :: k < |p| ==> !NeedleAt(p + y, k)
    ensures forall k: nat :: k < |p[c..]| ==> !NeedleAt(p[c..] + y, k)
  {
    forall k: nat | k < |p[c..]| ensures !NeedleAt(p[c..] + y, k) {
      assert !NeedleAt(p + y, c + k);
      assert c + k + 5 <= |p + y| ==> (p[c..] + y)[k..k + 5] == (p + y)[c + k..c + k + 5];
    }
  }

  /** So bytes that begin no needle make no difference to the callbacks, nor to the end of the residue. */
  lemma NoiseIsPassedOver(p: seq<Byte>, y: seq<Byte>)
    requires forall k: nat :: k < |p| ==> !NeedleAt(p + y, k)
    ensures Parse(Round, p + y).calls == Parse(Round, y).calls
    ensures EndsWith(Parse(Round, p + y).rest, Parse(Round, y).rest)
  {
    forall x: seq<Byte> | Round(x) != Wait ensures Acts(Round(x), x) {
      RoundMakesProgress(x);
    }
    forall k | 0 <= k <= |p| ensures Round(p[k..] + y) == Shifted(Round(y), |p| - k) {
      NoStartLater(p, y, k);
      RoundShifted(p[k..], y);
    }
    PassedOver(Round, p, y);
  }

  /** A needle cannot begin in one text and end in another that begins with a needle. */
  lemma NeedleDoesNotStraddle(p: seq<Byte>, y: seq<Byte>, i: nat)
    requires NoNeedle(p) && i < |p| && (y == [] || (|y| >= 5 && y[..5] == NEEDLE))
    ensures !NeedleAt(p + y, i)
  {
    assert !NeedleAt(p, i);
    if i + 5 <= |p| {
      assert (p + y)[i..i + 5] == p[i..i + 5];
    } else if y != [] && i + 5 <= |p + y| {
      assert (p + y)[i..i + 5][|p| - i] == y[0] == y[..5][0];
    }
  }

  /** What the module sends: frames, each behind other text that completes no needle. */
  datatype Item = Item(noise: seq<Byte>, frame: Frame)

  ghost predicate CleanItem(i: Item) {
    NoNeedle(i.noise) && Sendable(i.frame)
  }

  ghost predicate Clean(items: seq<Item>, last: seq<Byte>) {
    (forall i :: i in items ==> CleanItem(i)) && NoNeedle(last)
  }

  ghost function Line(items: seq<Item>, last: seq<Byte>): seq<Byte>
    requires Clean(items, last)
  {
    if items == [] then last
    else
      assert CleanItem(items[0]);
      items[0].noise + (FrameOf(items[0].frame) + Line(items[1..], last))
  }

  function CallsOf(items: seq<Item>): seq<Call> {
    if items == [] then [] else [items[0].frame.call] + CallsOf(items[1..])
  }

  lemma NoiseAlone(last: seq<Byte>)
    requires NoNeedle(last)
    ensures Parse(Round, last) == Parsed([], last)
  {
    FindIpdIsFirst(last, 0);
  }

  lemma DeliversFirst(round: seq<Byte> -> Step, x: seq<Byte>, call: Call, count: nat)
    requires round(x) == Deliver(call, count) && 0 < count <= |x|
    ensures Parse(round, x) == Then([call], Parse(round, x[count..]))
  {
  }

  lemma FrameBegins(f: Frame, tail: seq<Byte>)
    requires Sendable(f)
    ensures |FrameOf(f)| >= 5 && (FrameOf(f) + tail)[..5] == NEEDLE
  {
    HeaderParts(f.call.link, |f.call.data|, f.linked);
    assert FrameOf(f)[..5] == HeaderOf(f.call.link, |f.call.data|, f.linked)[..5];
  }

  lemma RoundBehindNoise(noise: seq<Byte>, f: Frame, tail: seq<Byte>)
    requires NoNeedle(noise) && Sendable(f)
    ensures Round(noise + (FrameOf(f) + tail)) == Deliver(f.call, |noise| + |FrameOf(f)|)
  {
    var y := FrameOf(f) + tail;
    FrameBegins(f, tail);
    forall k: nat | k < |noise| ensures !NeedleAt(noise + y, k) {
      NeedleDoesNotStraddle(noise, y, k);
    }
    FrameIsOneRound(f, tail);
    RoundShifted(noise, y);
  }

  lemma FirstFrame(noise: seq<Byte>, f: Frame, tail: seq<Byte>)
    requires NoNeedle(noise) && Sendable(f)
    ensures Parse(Round, noise + (FrameOf(f) + tail)) == Then([f.call], Parse(Round, tail))
  {
    var x := noise + (FrameOf(f) + tail);
    RoundBehindNoise(noise, f, tail);
    DeliversFirst(Round, x, f.call, |noise| + |FrameOf(f)|);
    assert x[|noise| + |FrameOf(f)|..] == tail;
  }

  /** Every frame is delivered, whole and in order, whatever other text stands before, between and behind the
      frames, and of all this only text from behind the last frame is left over. */
  lemma {:induction false} FramesAreDelivered(items: seq<Item>, last: seq<Byte>)
    requires Clean(items, last)
    ensures Parse(Round, Line(items, last)) == Parsed(CallsOf(items), last)
  {
    if items == [] {
      NoiseAlone(last);
    } else {
      assert CleanItem(items[0]);
      FirstFrame(items[0].noise, items[0].frame, Line(items[1..], last));
      FramesAreDelivered(items[1..], last);
    }
  }

  /** How many bytes a look of at_wait_for takes. */
  function Awaited(x: seq<Byte>, text: seq<Byte>): (n: nat)
    ensures n <= |x|
  {
    var found := FindText(x, text, 0);
    if found == NOWHERE then 0 else RestOfLine(x, found)
  }

  // ---------- The ring and the parser as they work in place ----------

  const RING_SIZE := 1024

  /** Masking with the size less one, which is taking the remainder. */
  function Mask(x: int): (r: nat)
    requires -RING_SIZE < x < 2 * RING_SIZE
    ensures r < RING_SIZE && r == x % RING_SIZE
  {
    if x < 0 then x + RING_SIZE else if x < RING_SIZE then x else x - RING_SIZE
  }

  /** So many bytes of the ring from a place on. */
  function RingPart(ring: seq<Byte>, tail: nat, used: nat): (part: seq<Byte>)
    requires |ring| == RING_SIZE && tail < RING_SIZE && used <= RING_SIZE
    ensures |part| == used
  {
    seq(used, i requires 0 <= i < used => ring[Mask(tail + i)])
  }

  lemma PartFrom(ring: seq<Byte>, tail: nat, used: nat, n: nat)
    requires |ring| == RING_SIZE && tail < RING_SIZE && n <= used < RING_SIZE
    ensures RingPart(ring, Mask(tail + n), used - n) == RingPart(ring, tail, used)[n..]
  {
    var a, b := RingPart(ring, Mask(tail + n), used - n), RingPart(ring, tail, used);
    forall i | 0 <= i < |a| ensures a[i] == b[n..][i] {
      assert Mask(Mask(tail + n) + i) == Mask(tail + (n + i));
    }
  }

  lemma FirstOfPart(ring: seq<Byte>, tail: nat, used: nat)
    requires |ring| == RING_SIZE && tail < RING_SIZE && 0 < used <= RING_SIZE
    ensures RingPart(ring, tail, used)[0] == ring[tail]
  {
    assert Mask(tail + 0) == tail;
  }

  lemma OneByteOn(ring: seq<Byte>, tail: nat, used: nat, all: seq<Byte>, n: nat)
    requires |ring| == RING_SIZE && tail < RING_SIZE && 0 < used < RING_SIZE
    requires n < |all| && RingPart(ring, tail, used) == all[n..]
    ensures all[..n + 1] == all[..n] + [ring[tail]]
    ensures RingPart(ring, Mask(tail + 1), used - 1) == all[n + 1..]
  {
    FirstOfPart(ring, tail, used);
    PartFrom(ring, tail, used, 1);
    assert all[n..][0] == all[n] && all[n..][1..] == all[n + 1..];
  }

  lemma PartPushed(ring: seq<Byte>, tail: nat, used: nat, b: Byte)
    requires |ring| == RING_SIZE && used < RING_SIZE && tail < RING_SIZE
    ensures RingPart(ring[Mask(tail + used) := b], tail, used + 1) == RingPart(ring, tail, used) + [b]
  {
    var ring' := ring[Mask(tail + used) := b];
    var p := RingPart(ring', tail, used + 1);
    forall i | 0 <= i < used + 1 ensures p[i] == (RingPart(ring, tail, used) + [b])[i] {
      assert i < used ==> Mask(tail + i) != Mask(tail + used);
    }
  }

  /** What looking for a complete header has to tell: where it is, or that the round must wait. */
  ghost predicate Locates(x: seq<Byte>, found: bool, hit: nat, header: seq<Byte>) {
    if found then
      0 < |header| && hit + |header| <= |x| && Round(x) == Headed(x, hit + |header| - 1, ParseHeader(header))
    else Round(x) == Wait
  }

  lemma NothingToLocate(x: seq<Byte>)
    requires |x| < 6 || FindIpd(x, 0) == NONE
    ensures Locates(x, false, 0, [])
  {
  }

  lemma HeaderIsLocated(x: seq<Byte>, hit: nat, header: seq<Byte>)
    requires |x| >= 6 && hit == FindIpd(x, 0) && header != [] && hit + |header| <= |x|
             && header == x[hit..hit + |header|]
    requires var colon := FindColon(x, hit, hit + HEADER_SIZE - 1);
             if header[|header| - 1] == COLON then hit + |header| - 1 == colon else colon == NONE
    ensures Locates(x, header[|header| - 1] == COLON, hit, header)
  {
    assert Round(x) == Located(x, hit);
  }

  /** The digits from a place on, and the number they make. */
  method ReadNumber(line: seq<Byte>, from: nat) returns (n: nat, p: nat)
    ensures p == DigitsEnd(line, from) && n == Number(line, from, p)
  {
    n, p := 0, from;
    while IsDigit(CharAt(line, p))
      invariant from <= p <= DigitsEnd(line, from) == DigitsEnd(line, p)
      invariant n == Number(line, from, p)
      decreases |line| - p
    {
      var c: int := CharAt(line, p);
      n := n * 10 + (c - 48);
      p := p + 1;
    }
  }

  /** parse_ipd_header. */
  method ReadHeader(line: seq<Byte>) returns (link: int, length: nat)
    ensures Header(link, length) == ParseHeader(line)
  {
    link, length := -1, 0;
    if |line| < 5 || line[..5] != NEEDLE {
      return;
    }
    var p, id := 5, 0;
    var _, q := ReadNumber(line, p);
    if CharAt(line, q) == COMMA {
      id, p := ReadNumber(line, p);
      if CharAt(line, p) != COMMA {
        return;
      }
      p := p + 1;
    }
    var n, e := ReadNumber(line, p);
    if CharAt(line, e) != COLON {
      return;
    }
    link, length := ToInt8(id), ToUint16(n);
  }

  class Receiver {
    const buffer: array<Byte>
    var head: nat
    var tail: nat
    var calls: seq<Call>

    predicate Valid()
      reads this
    {
      buffer.Length == RING_SIZE && head < RING_SIZE && tail < RING_SIZE
    }

    /** ring_used; masking with the size less one is taking the remainder. */
    function Used(): nat
      reads this
      requires Valid()
    {
      Mask(head - tail)
    }

    /** The bytes in the ring, oldest first. */
    ghost function Held(): (held: seq<Byte>)
      reads this, buffer
      requires Valid()
    {
      RingPart(buffer[..], tail, Used())
    }

    constructor ()
      ensures Valid() && Held() == [] && calls == [] && fresh(buffer)
    {
      buffer := new Byte[RING_SIZE](_ => 0);
      head, tail, calls := 0, 0, [];
    }

    /** ring_push. */
    method Push(b: Byte) returns (pushed: bool)
      requires Valid()
      modifies `head, buffer
      ensures Valid() && pushed == (|old(Held())| < RING_SIZE - 1)
      ensures Held() == if pushed then old(Held()) + [b] else old(Held())
    {
      if RING_SIZE - 1 - Used() == 0 {
        return false;
      }
      PartPushed(buffer[..], tail, Used(), b);
      ghost var ring := buffer[..];
      buffer[head] := b;
      assert buffer[..] == ring[head := b];
      head := Mask(head + 1);
      return true;
    }

    /** ring_consume. */
    method Consume(n: nat)
      requires Valid()
      modifies `tail
      ensures Valid() && Held() == old(Held())[Min(n, |old(Held())|)..]
    {
      var count := if n > Used() then Used() else n;
      PartFrom(buffer[..], tail, Used(), count);
      tail := Mask(tail + count);
    }

    /** ring_copy_out. */
    method CopyOut(most: nat) returns (bytes: seq<Byte>)
      requires Valid()
      modifies `tail
      ensures Valid() && bytes == old(Held())[..Min(most, |old(Held())|)] && Held() == old(Held())[|bytes|..]
    {
      var count := if most > Used() then Used() else most;
      ghost var all := Held();
      bytes := [];
      while |bytes| < count
        invariant |bytes| <= count <= |all| && Valid()
        invariant bytes == all[..|bytes|] && Held() == all[|bytes|..]
      {
        OneByteOn(buffer[..], tail, Used(), all, |bytes|);
        bytes := bytes + [buffer[tail]];
        tail := Mask(tail + 1);
      }
    }

    /** The comparison of a text with the bytes from a place on. */
    method MatchesAt(i: nat, text: seq<Byte>) returns (matches: bool)
      requires Valid() && i + |text| <= |Held()|
      ensures matches <==> Held()[i..i + |text|] == text
    {
      ghost var held := Held();
      var k := 0;
      while k < |text|
        invariant k <= |text| && held[i..i + k] == text[..k]
      {
        assert buffer[Mask(tail + i + k)] == held[i + k];
        if buffer[Mask(tail + i + k)] != text[k] {
          assert held[i..i + |text|][k] != text[k];
          return false;
        }
        assert held[i..i + k + 1] == held[i..i + k] + [held[i + k]];
        k := k + 1;
      }
      return true;
    }

    /** The search for the needle. */
    method FindHit() returns (hit: int)
      requires Valid()
      ensures hit == FindIpd(Held(), 0)
    {
      var i := 0;
      while i + 5 <= Used()
        invariant FindIpd(Held(), i) == FindIpd(Held(), 0)
      {
        var matches := MatchesAt(i, NEEDLE);
        if matches {
          return i;
        }
        i := i + 1;
      }
      return NONE;
    }

    /** The copy of the header, up to its colon or as far as it goes. */
    method CopyHeader(hit: nat) returns (header: seq<Byte>)
      requires Valid() && hit + 5 <= Used()
      ensures header != [] && hit + |header| <= |Held()| && header == Held()[hit..hit + |header|]
      ensures var colon := FindColon(Held(), hit, hit + HEADER_SIZE - 1);
              if header[|header| - 1] == COLON then hit + |header| - 1 == colon else colon == NONE
    {
      header := [];
      var k := hit;
      while k < Used() && |header| < HEADER_SIZE - 1
        invariant hit <= k <= Used() && |header| == k - hit <= HEADER_SIZE - 1 && header == Held()[hit..k]
        invariant FindColon(Held(), hit, hit + HEADER_SIZE - 1) == FindColon(Held(), k, hit + HEADER_SIZE - 1)
        invariant header != [] ==> header[|header| - 1] != COLON
      {
        var c := buffer[Mask(tail + k)];
        assert c == Held()[k];
        header := header + [c];
        if c == COLON {
          break;
        }
        k := k + 1;
      }
    }

    /** The part of a round that follows a complete header of so many bytes, the needle being at hit. */
    method ActOnHeader(hit: nat, size: nat, link: int, length: nat) returns (again: bool)
      requires Valid() && 0 < size && hit + size <= |Held()|
      modifies `tail, `calls
      ensures Valid() && var s := Headed(old(Held()), hit + size - 1, Header(link, length));
              again == (s != Wait)
              && (s == Wait ==> tail == old(tail))
              && (s != Wait ==> s.count <= |old(Held())| && Held() == old(Held())[s.count..])
              && calls == old(calls) + Calls(s)
    {
      ghost var x := Held();
      if link < 0 || length == 0 {
        Consume(1);
        return true;
      }
      if Used() < hit + size + length {
        return false;
      }
      Consume(hit + size);
      if length > DATA_SIZE {
        Consume(length);
        assert Held() == x[hit + size + length..];
        return true;
      }
      var data := CopyOut(length);
      assert data == x[hit + size..hit + size + length] && Held() == x[hit + size + length..];
      calls := calls + [Call(link, data)];
      return true;
    }

    /** The part of a round that looks for a complete header. */
    method LocateHeader() returns (found: bool, hit: nat, header: seq<Byte>)
      requires Valid()
      ensures Locates(Held(), found, hit, header)
    {
      found, hit, header := false, 0, [];
      if Used() < 6 {
        NothingToLocate(Held());
        return;
      }
      var place := FindHit();
      if place == NONE {
        NothingToLocate(Held());
        return;
      }
      hit := place;
      header := CopyHeader(hit);
      found := header[|header| - 1] == COLON;
      HeaderIsLocated(Held(), hit, header);
    }

    /** One round of parse_ipd_frames. */
    method DoOneRound() returns (again: bool)
      requires Valid()
      modifies `tail, `calls
      ensures Valid() && var s := Round(old(Held()));
              again == (s != Wait)
              && (s == Wait ==> tail == old(tail))
              && (s != Wait ==> s.count <= |old(Held())| && Held() == old(Held())[s.count..])
              && calls == old(calls) + Calls(s)
    {
      var found, hit, header := LocateHeader();
      if !found {
        return false;
      }
      var link, length := ReadHeader(header);
      again := ActOnHeader(hit, |header|, link, length);
    }

    /** parse_ipd_frames: every complete frame in the ring is delivered, and what is left is what one batch
        would leave. */
    method ParseFrames()
      requires Valid()
      modifies `tail, `calls
      ensures Valid() && Parsed(calls, Held()) == Then(old(calls), Parse(Round, old(Held())))
    {
      var again := true;
      while again
        invariant Valid() && Then(calls, Parse(Round, Held())) == Then(old(calls), Parse(Round, old(Held())))
        invariant !again ==> Round(Held()) == Wait
        decreases again, |Held()|
      {
        ghost var x, before := Held(), calls;
        RoundMakesProgress(x);
        again := DoOneRound();
        if again {
          ThenTwice(before, Calls(Round(x)), Parse(Round, Held()));
        }
      }
      assert calls + [] == calls;
    }

    /** The first place of a text, as at_wait_for looks for it. */
    method FindText(text: seq<Byte>) returns (found: int)
      requires Valid() && text != []
      ensures found == TextLines.FindText(Held(), text, 0)
    {
      var i := 0;
      while i + |text| <= Used()
        invariant TextLines.FindText(Held(), text, i) == TextLines.FindText(Held(), text, 0)
      {
        var matches := MatchesAt(i, text);
        if matches {
          return i;
        }
        i := i + 1;
      }
      return NOWHERE;
    }

    /** The length of what is left of a line. */
    method MeasureLine(from: nat) returns (consume: nat)
      requires Valid() && from <= |Held()|
      ensures consume == RestOfLine(Held(), from)
    {
      consume := 0;
      var k := from;
      ghost var held := Held();
      while k < Used()
        invariant from <= k <= |held| && consume + RestOfLine(held, k) == RestOfLine(held, from)
        decreases |held| - k
      {
        assert buffer[Mask(tail + k)] == held[k];
        consume := consume + 1;
        if buffer[Mask(tail + k)] == NEWLINE {
          return;
        }
        k := k + 1;
      }
    }

    /** One look of at_wait_for: once the text is there, as many bytes go as the rest of its line has, from the front
        of the ring. */
    method AwaitText(text: seq<Byte>) returns (found: bool)
      requires Valid() && text != []
      modifies `tail
      ensures Valid() && Held() == old(Held())[Awaited(old(Held()), text)..]
      ensures found <==> TextLines.FindText(old(Held()), text, 0) != NOWHERE
    {
      found := false;
      if Used() >= |text| {
        var at := FindText(text);
        if at >= 0 {
          var consume := MeasureLine(at);
          Consume(consume);
          found := true;
        }
      }
    }

    /** The first newline, as esp8266_loop looks for it. */
    method FindNewline() returns (end: int)
      requires Valid()
      ensures end == -1 ==> NEWLINE !in Held()
      ensures end != -1 ==> 0 <= end < |Held()| && Held()[end] == NEWLINE
    {
      var i := 0;
      while i < Used()
        invariant i <= |Held()| && NEWLINE !in Held()[..i]
      {
        assert buffer[Mask(tail + i)] == Held()[i] && Held()[..i + 1] == Held()[..i] + [Held()[i]];
        if buffer[Mask(tail + i)] == NEWLINE {
          return i;
        }
        i := i + 1;
      }
      assert Held()[..i] == Held();
      return -1;
    }

    /** One line, or as much of it as fits the line buffer, if there is a newline at all. */
    method DropLine() returns (dropped: bool)
      requires Valid()
      modifies `tail
      ensures Valid() && dropped == (WholeLines(old(Held())) > 0)
      ensures if dropped then |Held()| < |old(Held())| && WholeLines(Held()) < WholeLines(old(Held()))
              else Held() == old(Held())
      ensures Held()[WholeLines(Held())..] == old(Held())[WholeLines(old(Held()))..]
    {
      ghost var held := Held();
      var end := FindNewline();
      dropped := Used() != 0 && end != -1;
      if dropped {
        var length := if end + 1 < LINE_SIZE then end + 1 else LINE_SIZE - 1;
        OneLineLess(held, end, length);
        var line := CopyOut(length);
      }
    }

    /** The loop of esp8266_loop over the lines that the parser has left, the longest in several pieces. */
    method DropLines()
      requires Valid()
      modifies `tail
      ensures Valid() && Held() == old(Held())[WholeLines(old(Held()))..]
    {
      var more := true;
      while more
        invariant Valid() && Held()[WholeLines(Held())..] == old(Held())[WholeLines(old(Held()))..]
        invariant !more ==> WholeLines(Held()) == 0
        decreases more, |Held()|
      {
        more := DropLine();
      }
    }
  }
}
