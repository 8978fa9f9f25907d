/** How messages lie in a message buffer: each behind its length, in four bytes. */
module MessageFrames {
  import opened Bytes
  import opened Sequences

  const PREFIX := 4

  /** A message length as the four bytes stored before the message. */
  function Prefix(n: nat): (p: seq<Byte>)
    requires n < 0x1_0000_0000
    ensures |p| == PREFIX
  {
    [n % 256, n / 256 % 256, n / 65536 % 256, n / 16777216]
  }

  function Length(p: seq<Byte>): nat
    requires |p| == PREFIX
  {
    var b0: int, b1: int, b2: int, b3: int := p[0], p[1], p[2], p[3];
    b0 + 256 * b1 + 65536 * b2 + 16777216 * b3
  }

  lemma LengthOfPrefix(n: nat)
    requires n < 0x1_0000_0000
    ensures Length(Prefix(n)) == n
  {
  }

  type Message = m: seq<Byte> | |m| < 0x1_0000_0000 - PREFIX witness []

  function Frame(m: Message): (f: seq<Byte>)
    ensures |f| == PREFIX + |m|
  {
    Prefix(|m|) + m
  }

  function Frames(ms: seq<Message>): seq<Byte> {
    if ms == [] then [] else Frames(ms[..|ms| - 1]) + Frame(ms[|ms| - 1])
  }

  lemma OneMore(ms: seq<Message>, m: Message)
    ensures Frames(ms + [m]) == Frames(ms) + Frame(m)
  {
    assert (ms + [m])[..|ms|] == ms;
  }

  lemma {:induction false} FramesOfSum(a: seq<Message>, b: seq<Message>)
    ensures Frames(a + b) == Frames(a) + Frames(b)
  {
    if b == [] {
      assert a + b == a;
    } else {
      var init, last := b[..|b| - 1], b[|b| - 1];
      FramesOfSum(a, init);
      assert a + b == (a + init) + [last] && b == init + [last];
      OneMore(a + init, last);
      OneMore(init, last);
      Associative(Frames(a), Frames(init), Frame(last));
    }
  }

  /** What is left after the first g messages begins with the frame of the next one. */
  lemma NextFrame(ms: seq<Message>, g: nat, m: nat)
    requires g < m <= |ms|
    ensures Frames(ms[g..m]) == Frame(ms[g]) + Frames(ms[g + 1..m])
    ensures Frames(ms[..g + 1]) == Frames(ms[..g]) + Frame(ms[g])
  {
    assert ms[g..m] == [ms[g]] + ms[g + 1..m];
    FramesOfSum([ms[g]], ms[g + 1..m]);
    OneMore([], ms[g]);
    assert [] + [ms[g]] == [ms[g]];
    assert ms[..g + 1] == ms[..g] + [ms[g]];
    OneMore(ms[..g], ms[g]);
  }

  lemma FramesSplit(ms: seq<Message>, g: nat, m: nat)
    requires g <= m <= |ms|
    ensures Frames(ms[..m]) == Frames(ms[..g]) + Frames(ms[g..m])
  {
    assert ms[..m] == ms[..g] + ms[g..m];
    FramesOfSum(ms[..g], ms[g..m]);
  }
}
