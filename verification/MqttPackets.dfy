/** Every kind of packet that mqtt.c receives, one behind the other, with the last one perhaps incomplete. */
module MqttPackets {
  import opened Bytes
  import opened Mqtt
  import opened Numbers
  import opened Sequences

  /** A publication; a CONNACK, whose second byte is the return code; a PINGRESP; and a packet of any other type. */
  datatype Incoming =
    | Published(p: Publication)
    | ConnAck(body: seq<Byte>)
    | PingResp
    | Other(kind: nat, flags: nat, body: seq<Byte>)

  predicate Proper(i: Incoming) {
    match i
    case Published(p) => Publishable(p) && |p.topic| < TOPIC_SIZE
    case Other(kind, flags, body) =>
      kind < 16 && flags < 16 && kind != CONNACK && kind != PUBLISH && kind != PINGRESP && |body| < LENGTH_LIMIT
    case ConnAck(body) => |body| < LENGTH_LIMIT
    case PingResp => true
  }

  function FirstByteOf(i: Incoming): Byte
    requires Proper(i)
  {
    match i
    case Published(p) => PUBLISH * 16 + 2 * p.qos
    case ConnAck(_) => CONNACK * 16
    case PingResp => PINGRESP * 16
    case Other(kind, flags, _) => kind * 16 + flags
  }

  function BodyOf(i: Incoming): (body: seq<Byte>)
    requires Proper(i)
    ensures |body| < LENGTH_LIMIT
  {
    match i
    case Published(p) => Body(p)
    case ConnAck(body) => body
    case PingResp => []
    case Other(_, _, body) => body
  }

  /** The packet as it comes in. */
  function Wire(i: Incoming): seq<Byte>
    requires Proper(i)
  {
    Whole(FirstByteOf(i), BodyOf(i))
  }

  function Whole(first: Byte, body: seq<Byte>): (x: seq<Byte>)
    ensures |x| == 1 + |EncodeLen(|body|)| + |body|
  {
    [first] + (EncodeLen(|body|) + body)
  }

  /** What it should bring about. */
  function Meaning(i: Incoming): seq<Action> {
    match i
    case Published(p) => Expected(p)
    case ConnAck(body) => [Connected(|body| >= 2 && body[1] == 0)]
    case PingResp => [PingAnswered]
    case Other(_, _, _) => []
  }

  lemma WholeParts(first: Byte, body: seq<Byte>, more: seq<Byte>)
    requires |body| < LENGTH_LIMIT
    ensures var x, y, e := Whole(first, body), Whole(first, body) + more, |EncodeLen(|body|)|;
            && x[0] == y[0] == first && x[1 + e..] == body && y[..|x|] == x && y[|x|..] == more
            && DecodeLen(y[1..]) == Some(Length(|body|, e))
  {
    var y := Whole(first, body) + more;
    assert y[1..] == EncodeLen(|body|) + (body + more);
    DecodeUndoesEncodeIff(|body|, body + more);
  }

  lemma WireIsPacket(p: Publication)
    requires Publishable(p) && |p.topic| < TOPIC_SIZE
    ensures Wire(Published(p)) == Packet(p)
  {
  }

  lemma ConnAckHasMeaning(body: seq<Byte>)
    requires |body| < LENGTH_LIMIT
    ensures var i := ConnAck(body);
            HandlePacket(Wire(i), 1 + |EncodeLen(|body|)|) == [Connected(|body| >= 2 && body[1] == 0)]
  {
    var x, from := Whole(CONNACK * 16, body), 1 + |EncodeLen(|body|)|;
    assert |body| >= 2 ==> x[from..][1] == body[1];
    assert x[from..] == body;
  }

  lemma PacketHasMeaning(i: Incoming)
    requires Proper(i)
    ensures HandlePacket(Wire(i), 1 + |EncodeLen(|BodyOf(i)|)|) == Meaning(i)
  {
    match i {
      case Published(p) =>
        WireIsPacket(p);
        PacketIsHandled(p);
        BodyIsReadBackIff(p);
      case ConnAck(body) => ConnAckHasMeaning(body);
      case _ => assert Wire(i)[0] == FirstByteOf(i);
    }
  }

  lemma FirstIsHandled(i: Incoming, more: seq<Byte>)
    requires Proper(i)
    ensures HandleRx(Wire(i) + more) == Meaning(i) + HandleRx(more)
  {
    WholeParts(FirstByteOf(i), BodyOf(i), more);
    PacketHasMeaning(i);
    RxStep(Wire(i) + more, Length(|BodyOf(i)|, |EncodeLen(|BodyOf(i)|)|));
  }

  /** Examples of the standard: a PUBLISH of topic a/b with quality 1 and identifier 10 (section 3.3), and the limits of
      lengths of one to four bytes (section 2.2.3). */
  lemma StandardExamples()
    ensures Packet(Publication([97, 47, 98], [], 1, 10)) == [50, 7, 0, 3, 97, 47, 98, 0, 10]
    ensures EncodeLen(127) == [127] && EncodeLen(128) == [128, 1] && EncodeLen(16383) == [255, 127]
    ensures EncodeLen(16384) == [128, 128, 1] && EncodeLen(2097151) == [255, 255, 127]
    ensures EncodeLen(2097152) == [128, 128, 128, 1] && EncodeLen(268435455) == [255, 255, 255, 127]
  {
    assert EncodeLen(7) == [7];
    assert Body(Publication([97, 47, 98], [], 1, 10)) == [0, 3, 97, 47, 98, 0, 10];
    assert EncodeLen(127) == [127] && EncodeLen(1) == [1];
    assert EncodeLen(16383) == [255] + EncodeLen(127) && EncodeLen(128) == [128] + EncodeLen(1);
    assert EncodeLen(16384) == [128] + EncodeLen(128) && EncodeLen(2097151) == [255] + EncodeLen(16383);
    assert EncodeLen(2097152) == [128] + EncodeLen(16384) && EncodeLen(268435455) == [255] + EncodeLen(2097151);
  }

  // ---------- The last one may be incomplete ----------

  lemma {:induction false} LengthIsIncomplete(pre: seq<Byte>, n: nat, k: nat, value: nat)
    requires k < |EncodeLen(n)|
    ensures DecodeFrom(pre + EncodeLen(n)[..k], |pre|, value) == None
    decreases k
  {
    if k > 0 {
      var b := EncodeLen(n)[0];
      assert pre + EncodeLen(n)[..k] == (pre + [b]) + EncodeLen(n / 128)[..k - 1];
      LengthIsIncomplete(pre + [b], n / 128, k - 1, value + n % 128 * Weight(|pre|));
    }
  }

  lemma IncompleteIsLeft(first: Byte, body: seq<Byte>, k: nat)
    requires |body| < LENGTH_LIMIT && k < |Whole(first, body)|
    ensures HandleRx(Whole(first, body)[..k]) == []
  {
    var x, e := Whole(first, body)[..k], EncodeLen(|body|);
    if 2 <= k <= |e| {
      assert x[1..] == [] + e[..k - 1];
      LengthIsIncomplete([], |body|, k - 1, 0);
    } else if k > |e| {
      assert x[1..] == e + body[..k - 1 - |e|];
      DecodeUndoesEncodeIff(|body|, body[..k - 1 - |e|]);
    }
    RxEnds(x);
  }

  // ---------- Every sequence of packets ----------

  predicate AllProper(packets: seq<Incoming>) {
    forall i :: i in packets ==> Proper(i)
  }

  function WireAll(packets: seq<Incoming>): seq<Byte>
    requires AllProper(packets)
  {
    if packets == [] then [] else Wire(packets[0]) + WireAll(packets[1..])
  }

  function MeaningAll(packets: seq<Incoming>): seq<Action> {
    if packets == [] then [] else Meaning(packets[0]) + MeaningAll(packets[1..])
  }

  /** Packets of every type in any order, and as much as has come of one more: each complete one brings about what it
      should, in order, and the rest nothing. */
  lemma {:induction false} PacketsAreHandled(packets: seq<Incoming>, next: Incoming, k: nat)
    requires AllProper(packets) && Proper(next) && k < |Wire(next)|
    ensures HandleRx(WireAll(packets) + Wire(next)[..k]) == MeaningAll(packets)
  {
    var part := Wire(next)[..k];
    if packets == [] {
      assert [] + part == part;
      IncompleteIsLeft(FirstByteOf(next), BodyOf(next), k);
    } else {
      Associative(Wire(packets[0]), WireAll(packets[1..]), part);
      FirstIsHandled(packets[0], WireAll(packets[1..]) + part);
      PacketsAreHandled(packets[1..], next, k);
    }
  }

  // ---------- Which publications are refused ----------

  /** A PUBLISH is dropped if and only if its body has no room for the topic it announces, or, above quality 0, for an
      identifier behind as much of the topic as is kept. */
  lemma BodyIsRefusedIff(body: seq<Byte>, qos: nat)
    ensures HandleBody(body, qos) == [] <==>
            || |body| < 2 || |body| < 2 + ReadU16(body)
            || (qos > 0 && |body| < 4 + Min(ReadU16(body), TOPIC_SIZE - 1))
  {
  }
}
