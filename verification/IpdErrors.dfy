/** What the +IPD parser makes of headers it does not accept and of frames too long for its buffer: they cost no other
    frame. */
module IpdErrors {
  import opened Bytes
  import opened IpdParser
  import opened Numbers

  // ---------- Which headers are accepted ----------

  predicate Digits(line: seq<Byte>, from: nat, to: nat) {
    from <= to <= |line| && forall k :: from <= k < to ==> IsDigit(line[k])
  }

  /** +IPD, and digits up to a colon. */
  predicate Unlinked(line: seq<Byte>, e: nat) {
    5 <= e < |line| && line[..5] == NEEDLE && Digits(line, 5, e) && line[e] == COLON
  }

  /** +IPD, and digits up to a comma, and then up to a colon. */
  predicate Linked(line: seq<Byte>, q: nat, e: nat) {
    && 5 <= q < e < |line| && line[..5] == NEEDLE
    && Digits(line, 5, q) && line[q] == COMMA && Digits(line, q + 1, e) && line[e] == COLON
  }

  lemma {:induction false} DigitsEndEnds(line: seq<Byte>, i: nat)
    requires i <= |line|
    ensures Digits(line, i, DigitsEnd(line, i))
    decreases |line| - i
  {
    if i < |line| && IsDigit(line[i]) {
      DigitsEndEnds(line, i + 1);
    }
  }

  /** A header is accepted in these two forms only, with its numbers cut to the width of their fields. */
  lemma HeaderIsAcceptedIff(line: seq<Byte>)
    ensures forall e: nat :: Unlinked(line, e) ==> ParseHeader(line) == Header(0, ToUint16(Valued(line, 5, e)))
    ensures forall q: nat, e: nat :: Linked(line, q, e) ==>
            ParseHeader(line) == Header(ToInt8(Valued(line, 5, q)), ToUint16(Valued(line, q + 1, e)))
    ensures (forall e: nat :: !Unlinked(line, e)) && (forall q: nat, e: nat :: !Linked(line, q, e)) ==>
            ParseHeader(line) == Header(-1, 0)
  {
    forall e: nat | Unlinked(line, e) ensures ParseHeader(line) == Header(0, ToUint16(Valued(line, 5, e))) {
      DigitsEndIs(line, 5, e);
    }
    forall q: nat, e: nat | Linked(line, q, e)
      ensures ParseHeader(line) == Header(ToInt8(Valued(line, 5, q)), ToUint16(Valued(line, q + 1, e)))
    {
      DigitsEndIs(line, 5, q);
      DigitsEndIs(line, q + 1, e);
    }
    if |line| >= 5 && line[..5] == NEEDLE {
      var q := DigitsEnd(line, 5);
      DigitsEndEnds(line, 5);
      if CharAt(line, q) == COMMA {
        DigitsEndEnds(line, q + 1);
        assert CharAt(line, DigitsEnd(line, q + 1)) == COLON ==> Linked(line, q, DigitsEnd(line, q + 1));
      } else {
        assert CharAt(line, q) == COLON ==> Unlinked(line, q);
      }
    }
  }

  /** The number that some digits make, or 0 if they are none. */
  function Valued(line: seq<Byte>, from: nat, to: nat): nat {
    if Digits(line, from, to) then Number(line, from, to) else 0
  }

  // ---------- What a round does once a header is complete ----------

  predicate Rejected(h: Header) {
    h.link < 0 || h.length == 0
  }

  lemma RoundIsHeaded(x: seq<Byte>, hit: nat, colon: nat)
    requires FirstNeedle(x, hit) && HeaderEnds(x, hit, colon)
    ensures Round(x) == Headed(x, colon, ParseHeader(x[hit..colon + 1]))
  {
    FindIpdIsFirst(x, 0);
    assert NeedleAt(x, hit);
    assert FindIpd(x, 0) == hit;
    FindColonIsFirst(x, hit, hit);
    NoColonInNeedle(x, hit, colon);
  }

  lemma NoColonInNeedle(x: seq<Byte>, hit: nat, colon: nat)
    requires NeedleAt(x, hit) && hit <= colon < |x| && x[colon] == COLON
    ensures colon >= hit + 5
  {
    var needle := x[hit..hit + 5];
    assert forall j :: 0 <= j < |needle| ==> needle[j] != COLON && x[hit + j] == needle[j];
  }

  /** One byte goes for a header that is rejected; the frame with its header, undelivered, if it is too long; and else
      it is delivered. */
  lemma RoundDecides(x: seq<Byte>, hit: nat, colon: nat)
    requires FirstNeedle(x, hit) && HeaderEnds(x, hit, colon)
    ensures var h := ParseHeader(x[hit..colon + 1]);
            && (Rejected(h) ==> Round(x) == Discard(1))
            && (!Rejected(h) && |x| >= colon + 1 + h.length ==>
                  Round(x) == if h.length > DATA_SIZE then Discard(colon + 1 + h.length)
                              else Deliver(Call(h.link, x[colon + 1..colon + 1 + h.length]), colon + 1 + h.length))
  {
    RoundIsHeaded(x, hit, colon);
  }

  // ---------- Frames too long ----------

  lemma LongDecimal(n: nat)
    requires n < 0x1_0000
    ensures |Decimal(n)| <= 5
  {
    assert n >= 10 ==> |Decimal(n)| == |Decimal(n / 10)| + 1;
    assert n >= 100 ==> |Decimal(n / 10)| == |Decimal(n / 10 / 10)| + 1;
    DecimalIsShort(n / 10 / 10);
  }

  lemma LongHeader(link: nat, length: nat, linked: bool)
    requires link < 128 && length < 0x1_0000
    ensures |HeaderOf(link, length, linked)| < HEADER_SIZE - 1
  {
    DecimalIsShort(link);
    LongDecimal(length);
  }

  lemma HeaderIsFirst(h: seq<Byte>, link: nat, length: nat, linked: bool, more: seq<Byte>)
    requires link < 128 && length < 0x1_0000 && h == HeaderOf(link, length, linked)
    ensures h != [] && FirstNeedle(h + more, 0) && HeaderEnds(h + more, 0, |h| - 1) && (h + more)[0..|h|] == h
  {
    var x := h + more;
    LongHeader(link, length, linked);
    HeaderParts(link, length, linked);
    assert x[0..5] == h[..5];
    forall k: nat | k < |h| ensures x[k] == h[k] && (h[k] == COLON <==> k == |h| - 1) {
      HeaderHasOneColon(link, length, linked, k);
    }
  }

  lemma LongFrameIsDiscarded(h: seq<Byte>, link: nat, linked: bool, data: seq<Byte>, tail: seq<Byte>)
    requires link < 128 && (linked || link == 0) && DATA_SIZE < |data| < 0x1_0000
    requires h == HeaderOf(link, |data|, linked)
    ensures Round(h + (data + tail)) == Discard(|h| + |data|)
  {
    HeaderIsFirst(h, link, |data|, linked, data + tail);
    HeaderIsReadBack(link, |data|, linked);
    RoundDecides(h + (data + tail), 0, |h| - 1);
  }

  /** A frame too long for the parser's buffer is skipped whole, and what follows is parsed as if it had not been. */
  lemma LongFrameIsSkipped(link: nat, linked: bool, data: seq<Byte>, tail: seq<Byte>)
    requires link < 128 && (linked || link == 0) && DATA_SIZE < |data| < 0x1_0000
    ensures Parse(Round, HeaderOf(link, |data|, linked) + (data + tail)) == Parse(Round, tail)
  {
    var h := HeaderOf(link, |data|, linked);
    LongFrameIsDiscarded(h, link, linked, data, tail);
    Skips(Round, h, data, tail);
  }

  lemma Skips(round: seq<Byte> -> Step, a: seq<Byte>, b: seq<Byte>, tail: seq<Byte>)
    requires round(a + (b + tail)) == Discard(|a| + |b|) && 0 < |a|
    ensures Parse(round, a + (b + tail)) == Parse(round, tail)
  {
    assert (a + (b + tail))[|a| + |b|..] == tail;
  }

  // ---------- Headers that are rejected ----------

  /** A needle stands here, with a header behind it that is complete and rejected. */
  ghost predicate BadHeaderAt(x: seq<Byte>, i: nat) {
    exists colon: nat :: HeaderEnds(x, i, colon) && Rejected(ParseHeader(x[i..colon + 1]))
  }

  lemma BadHeaderMoves(x: seq<Byte>, i: nat)
    requires 0 < i && 0 < |x|
    ensures NeedleAt(x[1..], i - 1) <==> NeedleAt(x, i)
    ensures BadHeaderAt(x, i) ==> BadHeaderAt(x[1..], i - 1)
  {
    if i + 5 <= |x| {
      assert x[1..][i - 1..i + 4] == x[i..i + 5];
    }
    if BadHeaderAt(x, i) {
      var colon: nat :| HeaderEnds(x, i, colon) && Rejected(ParseHeader(x[i..colon + 1]));
      assert x[1..][i - 1..colon] == x[i..colon + 1];
      assert HeaderEnds(x[1..], i - 1, colon - 1);
    }
  }

  /** Every needle that begins in the first part has a bad header. */
  ghost predicate OnlyBadHeaders(p: seq<Byte>, y: seq<Byte>) {
    forall i: nat :: i < |p| && NeedleAt(p + y, i) ==> BadHeaderAt(p + y, i)
  }

  lemma BadHeadersStay(p: seq<Byte>, y: seq<Byte>)
    requires p != [] && OnlyBadHeaders(p, y)
    ensures OnlyBadHeaders(p[1..], y)
  {
    assert (p + y)[1..] == p[1..] + y;
    forall k: nat | k < |p[1..]| && NeedleAt(p[1..] + y, k) ensures BadHeaderAt(p[1..] + y, k) {
      BadHeaderMoves(p + y, k + 1);
    }
  }

  lemma {:induction false} FirstOfNeedles(x: seq<Byte>, i: nat)
    requires NeedleAt(x, i)
    ensures exists hit: nat :: hit <= i && FirstNeedle(x, hit)
    decreases i
  {
    if exists j: nat :: j < i && NeedleAt(x, j) {
      var j: nat :| j < i && NeedleAt(x, j);
      FirstOfNeedles(x, j);
    } else {
      assert FirstNeedle(x, i);
    }
  }

  lemma BadHeaderCostsOneByte(x: seq<Byte>, hit: nat)
    requires FirstNeedle(x, hit) && BadHeaderAt(x, hit)
    ensures x != [] && Round(x) == Discard(1)
  {
    var colon: nat :| HeaderEnds(x, hit, colon) && Rejected(ParseHeader(x[hit..colon + 1]));
    RoundDecides(x, hit, colon);
  }

  predicate NoneBegins(p: seq<Byte>, y: seq<Byte>) {
    forall i: nat :: i < |p| ==> !NeedleAt(p + y, i)
  }

  lemma OneByteOn(p: seq<Byte>, y: seq<Byte>)
    requires OnlyBadHeaders(p, y) && !NoneBegins(p, y)
    ensures p != [] && Round(p + y) == Discard(1) && OnlyBadHeaders(p[1..], y)
  {
    var i: nat :| i < |p| && NeedleAt(p + y, i);
    FirstOfNeedles(p + y, i);
    var hit: nat :| hit <= i && FirstNeedle(p + y, hit);
    BadHeaderCostsOneByte(p + y, hit);
    BadHeadersStay(p, y);
  }

  lemma SkipsOne(round: seq<Byte> -> Step, p: seq<Byte>, y: seq<Byte>)
    requires p != [] && round(p + y) == Discard(1)
    ensures Parse(round, p + y) == Parse(round, p[1..] + y)
  {
    assert (p + y)[1..] == p[1..] + y;
  }

  /** What is left once all needles of the first part have been dealt with. */
  lemma {:induction false} BadHeadersGo(p: seq<Byte>, y: seq<Byte>) returns (rest: seq<Byte>)
    requires OnlyBadHeaders(p, y)
    ensures NoneBegins(rest, y) && Parse(Round, p + y) == Parse(Round, rest + y)
    decreases |p|
  {
    if NoneBegins(p, y) {
      rest := p;
    } else {
      OneByteOn(p, y);
      SkipsOne(Round, p, y);
      rest := BadHeadersGo(p[1..], y);
    }
  }

  lemma RoundBehind(p: seq<Byte>, f: Frame, tail: seq<Byte>)
    requires Sendable(f) && NoneBegins(p, FrameOf(f) + tail)
    ensures Round(p + (FrameOf(f) + tail)) == Deliver(f.call, |p| + |FrameOf(f)|)
  {
    FrameIsOneRound(f, tail);
    RoundShifted(p, FrameOf(f) + tail);
  }

  lemma Delivers(round: seq<Byte> -> Step, a: seq<Byte>, b: seq<Byte>, tail: seq<Byte>, call: Call)
    requires round(a + (b + tail)) == Deliver(call, |a| + |b|) && 0 < |b|
    ensures Parse(round, a + (b + tail)) == Then([call], Parse(round, tail))
  {
    DeliversFirst(round, a + (b + tail), call, |a| + |b|);
    assert (a + (b + tail))[|a| + |b|..] == tail;
  }

  /** A frame is delivered even if needles stand in the bytes before it, as long as every header they begin is complete
      and rejected, with the frame's own bytes counted in. */
  lemma RejectedHeadersArePassedOver(p: seq<Byte>, f: Frame, tail: seq<Byte>)
    requires Sendable(f) && OnlyBadHeaders(p, FrameOf(f) + tail)
    ensures Parse(Round, p + (FrameOf(f) + tail)) == Then([f.call], Parse(Round, tail))
  {
    var rest := BadHeadersGo(p, FrameOf(f) + tail);
    RoundBehind(rest, f, tail);
    FrameBegins(f, tail);
    Delivers(Round, rest, FrameOf(f), tail, f.call);
  }
}
