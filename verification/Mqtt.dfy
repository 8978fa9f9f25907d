/** MQTT 3.1.1 packets as mqtt.c builds and takes apart: the remaining length of section 2.2.3, PUBLISH
    packets of section 3.3 and the PUBACK of section 3.4. */
module Mqtt {
  import opened Bytes
  import opened Numbers
  import opened Sequences

  const CONNACK := 2
  const PUBLISH := 3
  const PINGRESP := 13
  const TOPIC_SIZE := 128
  const LENGTH_LIMIT := 268435456

  datatype Option<T> = None | Some(value: T)

  // ---------- The remaining length ----------

  /** mqtt_encode_len: seven bits a byte, the lowest first, the top bit saying that more follow. */
  function EncodeLen(n: nat): (e: seq<Byte>)
    ensures |e| > 0
  {
    if n < 128 then [n] else [128 + n % 128] + EncodeLen(n / 128)
  }

  datatype Length = Length(value: nat, bytes: nat)

  function Weight(i: nat): nat {
    if i == 0 then 1 else if i == 1 then 128 else if i == 2 then 16384 else if i == 3 then 2097152 else LENGTH_LIMIT
  }

  /** The loop of mqtt_decode_len, from the i-th byte on. */
  function DecodeFrom(x: seq<Byte>, i: nat, value: nat): Option<Length>
    decreases |x| - i
  {
    if i >= |x| then None
    else
      var b: int := x[i];
      var v := value + b % 128 * Weight(i);
      if Weight(i) > 128 * 128 * 128 then None
      else if b >= 128 then DecodeFrom(x, i + 1, v)
      else Some(Length(v, i + 1))
  }

  function DecodeLen(x: seq<Byte>): Option<Length> {
    DecodeFrom(x, 0, 0)
  }

  lemma {:induction false} DecodeFromEncoded(pre: seq<Byte>, n: nat, more: seq<Byte>, value: nat)
    requires |pre| <= 4
    ensures var r := DecodeFrom(pre + EncodeLen(n) + more, |pre|, value);
            var total := n * Weight(|pre|);
            if total < LENGTH_LIMIT && |pre| < 4 then r == Some(Length(value + total, |pre| + |EncodeLen(n)|))
            else r == None
    decreases n
  {
    var x := pre + EncodeLen(n) + more;
    assert x[|pre|] == EncodeLen(n)[0];
    if n >= 128 && |pre| < 4 {
      var pre' := pre + [EncodeLen(n)[0]];
      assert pre' + EncodeLen(n / 128) + more == x;
      DecodeFromEncoded(pre', n / 128, more, value + n % 128 * Weight(|pre|));
    }
  }

  /** Decoding undoes encoding, whatever follows, exactly for the lengths the standard allows. */
  lemma DecodeUndoesEncodeIff(n: nat, more: seq<Byte>)
    ensures DecodeLen(EncodeLen(n) + more) == (if n < LENGTH_LIMIT then Some(Length(n, |EncodeLen(n)|)) else None)
  {
    assert [] + EncodeLen(n) + more == EncodeLen(n) + more;
    DecodeFromEncoded([], n, more, 0);
  }

  lemma {:induction false} EncodedIsShort(n: nat)
    requires n < LENGTH_LIMIT
    ensures |EncodeLen(n)| <= 4
  {
    assert n >= 128 ==> |EncodeLen(n)| == 1 + |EncodeLen(n / 128)|;
    assert n >= 16384 ==> |EncodeLen(n / 128)| == 1 + |EncodeLen(n / 128 / 128)|;
    assert n >= 2097152 ==> |EncodeLen(n / 128 / 128)| == 1 + |EncodeLen(n / 128 / 128 / 128)|;
  }

  // ---------- PUBLISH packets ----------

  function U16(v: nat): (b: seq<Byte>)
    requires v < 0x1_0000
    ensures |b| == 2
  {
    [v / 256, v % 256]
  }

  function ReadU16(x: seq<Byte>): nat
    requires |x| >= 2
  {
    var high: int, low: int := x[0], x[1];
    256 * high + low
  }

  datatype Publication = Publication(topic: seq<Byte>, payload: seq<Byte>, qos: nat, id: nat)

  /** What mqtt_client_publish can be asked to send: 16-bit sizes and identifiers, a two-bit quality. */
  predicate Publishable(p: Publication) {
    |p.topic| < 0x1_0000 && |p.payload| < 0x1_0000 && p.qos < 4 && p.id < 0x1_0000
  }

  function Remaining(p: Publication): nat {
    2 + |p.topic| + (if p.qos > 0 then 2 else 0) + |p.payload|
  }

  function Body(p: Publication): (b: seq<Byte>)
    requires Publishable(p)
    ensures |b| == Remaining(p)
  {
    U16(|p.topic|) + p.topic + (if p.qos > 0 then U16(p.id) else []) + p.payload
  }

  /** The packet of build_publish. */
  function Packet(p: Publication): seq<Byte>
    requires Publishable(p)
  {
    [PUBLISH * 16 + 2 * p.qos] + EncodeLen(Remaining(p)) + Body(p)
  }

  /** What receiving does: a message for the application, an acknowledgement sent, the connection
      accepted or refused, or a ping answered. */
  datatype Action =
    | Deliver(topic: seq<Byte>, payload: seq<Byte>)
    | Acknowledge(id: nat)
    | Connected(accepted: bool)
    | PingAnswered

  /** handle_publish, once the fixed header is off: the body, and the quality from the flags. A topic of
      128 bytes or more is cut to 127, and what follows is taken from there. */
  function HandleBody(body: seq<Byte>, qos: nat): seq<Action> {
    if |body| < 2 then []
    else
      var tn := ReadU16(body);
      if 2 + tn > |body| then []
      else
        var cut := if tn >= TOPIC_SIZE then TOPIC_SIZE - 1 else tn;
        var topic, rest := body[2..2 + cut], body[2 + cut..];
        if qos == 0 then [Deliver(topic, rest)]
        else if |rest| < 2 then []
        else [Deliver(topic, rest[2..])] + if qos == 1 then [Acknowledge(ReadU16(rest))] else []
  }

  function HandlePublish(packet: seq<Byte>): seq<Action> {
    if |packet| < 4 then []
    else
      var flags: int := packet[0];
      match DecodeLen(packet[1..])
      case None => []
      case Some(l) =>
        var from := 1 + l.bytes;
        if from > |packet| then [] else HandleBody(packet[from..Min(from + l.value, |packet|)], flags / 2 % 4)
  }

  function HandlePacket(packet: seq<Byte>, from: nat): seq<Action>
    requires 0 < from <= |packet|
  {
    var first: int := packet[0];
    var kind := first / 16;
    if kind == CONNACK then [Connected(|packet| - from >= 2 && packet[from + 1] == 0)]
    else if kind == PINGRESP then [PingAnswered]
    else if kind == PUBLISH then HandlePublish(packet)
    else []
  }

  lemma {:induction false} DecodeFromIsInside(x: seq<Byte>, i: nat, value: nat)
    ensures DecodeFrom(x, i, value).Some? ==> i < DecodeFrom(x, i, value).value.bytes <= |x|
    decreases |x| - i
  {
    if i < |x| {
      var b: int := x[i];
      if Weight(i) <= 128 * 128 * 128 && b >= 128 {
        DecodeFromIsInside(x, i + 1, value + b % 128 * Weight(i));
      }
    }
  }

  /** handle_rx: packet after packet, until one is incomplete. */
  function HandleRx(x: seq<Byte>): seq<Action>
    decreases |x|
  {
    if |x| < 2 then []
    else
      match DecodeLen(x[1..])
      case None => []
      case Some(l) =>
        DecodeFromIsInside(x[1..], 0, 0);
        var total := 1 + l.bytes + l.value;
        if total > |x| then [] else HandlePacket(x[..total], 1 + l.bytes) + HandleRx(x[total..])
  }

  // ---------- What is published is received ----------

  /** What a receiver should make of a publication. */
  function Expected(p: Publication): seq<Action> {
    [Deliver(p.topic, p.payload)] + if p.qos == 1 then [Acknowledge(p.id)] else []
  }

  lemma U16IsReadBack(v: nat, more: seq<Byte>)
    requires v < 0x1_0000
    ensures ReadU16(U16(v) + more) == v
  {
  }

  lemma BodyParts(p: Publication)
    requires Publishable(p)
    ensures ReadU16(Body(p)) == |p.topic| && Body(p)[2..2 + |p.topic|] == p.topic
    ensures p.qos == 0 ==> Body(p)[2 + |p.topic|..] == p.payload
    ensures p.qos > 0 ==> ReadU16(Body(p)[2 + |p.topic|..]) == p.id && Body(p)[2 + |p.topic|..][2..] == p.payload
  {
    var id := if p.qos > 0 then U16(p.id) else [];
    assert Body(p) == U16(|p.topic|) + (p.topic + id + p.payload);
    U16IsReadBack(|p.topic|, p.topic + id + p.payload);
    assert Body(p)[2 + |p.topic|..] == id + p.payload;
    if p.qos > 0 {
      U16IsReadBack(p.id, p.payload);
    }
  }

  /** A publication's body is read back exactly when its topic fits the topic buffer. */
  lemma BodyIsReadBackIff(p: Publication)
    requires Publishable(p)
    ensures HandleBody(Body(p), p.qos) == Expected(p) <==> |p.topic| < TOPIC_SIZE
  {
    BodyParts(p);
    var a, e := HandleBody(Body(p), p.qos), Expected(p);
    if |p.topic| < TOPIC_SIZE {
      assert a == e;
    } else {
      assert e[0] == Deliver(p.topic, p.payload);
      assert |a| > 0 && a[0].Deliver? && |a[0].topic| == TOPIC_SIZE - 1;
    }
  }

  lemma PacketParts(p: Publication, more: seq<Byte>)
    requires Publishable(p)
    ensures var x := Packet(p) + more;
            var e := |EncodeLen(Remaining(p))|;
            && |Packet(p)| == 1 + e + Remaining(p) && 1 + e <= |x|
            && DecodeLen(x[1..]) == Some(Length(Remaining(p), e))
            && x[..|Packet(p)|] == Packet(p) && x[|Packet(p)|..] == more
            && Packet(p)[1 + e..] == Body(p)
  {
    var x := Packet(p) + more;
    assert x[1..] == EncodeLen(Remaining(p)) + (Body(p) + more);
    DecodeUndoesEncodeIff(Remaining(p), Body(p) + more);
  }

  lemma FirstByte(p: Publication)
    requires Publishable(p)
    ensures var b: int := Packet(p)[0];
            b / 16 == PUBLISH && b / 2 % 4 == p.qos
  {
  }

  lemma PacketIsHandled(p: Publication)
    requires Publishable(p)
    ensures HandlePublish(Packet(p)) == HandleBody(Body(p), p.qos)
  {
    PacketParts(p, []);
    FirstByte(p);
    assert Packet(p) + [] == Packet(p);
    var x, from := Packet(p), 1 + |EncodeLen(Remaining(p))|;
    assert x[from..Min(from + Remaining(p), |x|)] == Body(p);
  }

  lemma FirstPacket(p: Publication, more: seq<Byte>)
    requires Publishable(p)
    ensures HandleRx(Packet(p) + more) == HandleBody(Body(p), p.qos) + HandleRx(more)
  {
    PacketParts(p, more);
    PacketIsHandled(p);
    FirstByte(p);
  }

  function Stream(ps: seq<Publication>): seq<Byte>
    requires forall p :: p in ps ==> Publishable(p)
  {
    if ps == [] then [] else Packet(ps[0]) + Stream(ps[1..])
  }

  function AllExpected(ps: seq<Publication>): seq<Action> {
    if ps == [] then [] else Expected(ps[0]) + AllExpected(ps[1..])
  }

  /** A stream of published packets delivers exactly their topics and payloads in order, and acknowledges
      exactly those of quality 1, if and only if the topics are below 128 bytes. */
  lemma {:induction false} StreamIsReceivedIff(ps: seq<Publication>)
    requires forall p :: p in ps ==> Publishable(p)
    ensures HandleRx(Stream(ps)) == AllExpected(ps) <==> forall p :: p in ps ==> |p.topic| < TOPIC_SIZE
  {
    if ps != [] {
      FirstPacket(ps[0], Stream(ps[1..]));
      BodyIsReadBackIff(ps[0]);
      StreamIsReceivedIff(ps[1..]);
      SameFirst(ps[0], HandleBody(Body(ps[0]), ps[0].qos), HandleRx(Stream(ps[1..])), AllExpected(ps[1..]));
      assert ps == [ps[0]] + ps[1..];
    }
  }

  /** One packet makes as many actions as expected, or none that delivers the topic. */
  lemma SameFirst(p: Publication, actions: seq<Action>, a: seq<Action>, b: seq<Action>)
    requires Publishable(p) && actions == HandleBody(Body(p), p.qos)
    ensures actions + a == Expected(p) + b <==> actions == Expected(p) && a == b
  {
    BodyParts(p);
    if actions + a == Expected(p) + b {
      assert (actions + a)[0] == (Expected(p) + b)[0];
      if |p.topic| < TOPIC_SIZE {
        BodyIsReadBackIff(p);
        assert (actions + a)[|actions|..] == a && (Expected(p) + b)[|actions|..] == b;
      }
    }
  }

  /** And one packet is received as sent only then. */
  lemma PublicationIsReceivedIff(p: Publication)
    requires Publishable(p)
    ensures HandleRx(Packet(p)) == Expected(p) <==> |p.topic| < TOPIC_SIZE
  {
    FirstPacket(p, []);
    assert Packet(p) + [] == Packet(p);
    assert HandleBody(Body(p), p.qos) + HandleRx([]) == HandleBody(Body(p), p.qos);
    BodyIsReadBackIff(p);
  }

  /** What follows the first 127 bytes of a topic. */
  function Cut(p: Publication): seq<Byte>
    requires Publishable(p) && |p.topic| >= TOPIC_SIZE
  {
    p.topic[TOPIC_SIZE - 1..] + (if p.qos > 0 then U16(p.id) else []) + p.payload
  }

  lemma CutBody(p: Publication)
    requires Publishable(p) && |p.topic| >= TOPIC_SIZE
    ensures var body := Body(p);
            && ReadU16(body) == |p.topic| && body[2..2 + (TOPIC_SIZE - 1)] == p.topic[..TOPIC_SIZE - 1]
            && body[2 + (TOPIC_SIZE - 1)..] == Cut(p)
  {
    BodyParts(p);
    var id := if p.qos > 0 then U16(p.id) else [];
    assert Body(p) == U16(|p.topic|) + (p.topic[..TOPIC_SIZE - 1] + Cut(p));
  }

  lemma CutBodyIsHandled(p: Publication)
    requires Publishable(p) && |p.topic| >= TOPIC_SIZE
    ensures var topic, rest := p.topic[..TOPIC_SIZE - 1], Cut(p);
            && |rest| >= 2 * Min(p.qos, 1)
            && (p.qos == 0 ==> HandleBody(Body(p), p.qos) == [Deliver(topic, rest)])
            && (p.qos == 1 ==> HandleBody(Body(p), p.qos) == [Deliver(topic, rest[2..]), Acknowledge(ReadU16(rest))])
            && (p.qos > 1 ==> HandleBody(Body(p), p.qos) == [Deliver(topic, rest[2..])])
  {
    CutBody(p);
  }

  /** What becomes of a longer topic: the application gets the first 127 bytes, and the rest as payload; above quality 0
      the first two bytes of the rest are taken for the packet identifier. */
  lemma LongTopicIsCut(p: Publication)
    requires Publishable(p) && |p.topic| >= TOPIC_SIZE
    ensures var topic, rest := p.topic[..TOPIC_SIZE - 1], Cut(p);
            && (p.qos == 0 ==> HandleRx(Packet(p)) == [Deliver(topic, rest)])
            && (p.qos == 1 ==> HandleRx(Packet(p)) == [Deliver(topic, rest[2..]), Acknowledge(ReadU16(rest))])
            && (p.qos > 1 ==> HandleRx(Packet(p)) == [Deliver(topic, rest[2..])])
  {
    FirstPacket(p, []);
    assert Packet(p) + [] == Packet(p);
    CutBodyIsHandled(p);
    var a := HandleBody(Body(p), p.qos);
    assert HandleRx([]) == [] && a + [] == a;
  }

  /** A topic of 128 letters A and no payload arrive as 127 letters and a payload of one. */
  lemma TopicOf128Bytes()
    ensures var a := seq(TOPIC_SIZE, _ => 65);
            HandleRx(Packet(Publication(a, [], 0, 0))) == [Deliver(a[..TOPIC_SIZE - 1], [65])]
  {
    var a: seq<Byte> := seq(TOPIC_SIZE, _ => 65);
    LongTopicIsCut(Publication(a, [], 0, 0));
    assert Cut(Publication(a, [], 0, 0)) == [65];
  }

  // ---------- The same, in buffers ----------

  /** memcpy to a place in the output buffer. */
  method Copy(out: array<Byte>, at: nat, bytes: seq<Byte>)
    requires at + |bytes| <= out.Length
    modifies out
    ensures out[..at] == old(out[..at]) && out[at..at + |bytes|] == bytes
  {
    forall i | 0 <= i < |bytes| {
      out[at + i] := bytes[i];
    }
  }

  /** mqtt_encode_len. */
  method EncodeLength(out: array<Byte>, at: nat, length: nat) returns (n: nat)
    requires at + |EncodeLen(length)| <= out.Length
    modifies out
    ensures n == |EncodeLen(length)| && out[..at] == old(out[..at]) && out[at..at + n] == EncodeLen(length)
  {
    n := 0;
    var len, more := length, true;
    while more
      invariant out[..at] == old(out[..at])
      invariant more ==> n + |EncodeLen(len)| == |EncodeLen(length)|
      invariant more ==> out[at..at + n] + EncodeLen(len) == EncodeLen(length)
      invariant !more ==> n == |EncodeLen(length)| && out[at..at + n] == EncodeLen(length)
      decreases more, len
    {
      var b := len % 128;
      ghost var before, rest := out[at..at + n], EncodeLen(len);
      len := len / 128;
      if len > 0 {
        b := b + 128;
      }
      out[at + n] := b;
      assert out[at..at + n + 1] == before + [b];
      assert rest == if len > 0 then [b] + EncodeLen(len) else [b];
      n := n + 1;
      more := len > 0;
    }
  }

  /** mqtt_decode_len. */
  method DecodeLength(x: seq<Byte>) returns (r: Option<Length>)
    ensures r == DecodeLen(x)
  {
    var multiplier, value, i := 1, 0, 0;
    while true
      invariant 0 <= i <= 4 && multiplier == Weight(i) && value >= 0 && DecodeFrom(x, i, value) == DecodeLen(x)
      decreases 4 - i
    {
      if i >= |x| {
        return None;
      }
      var b: int := x[i];
      value := value + b % 128 * multiplier;
      if multiplier > 128 * 128 * 128 {
        return None;
      }
      multiplier := multiplier * 128;
      i := i + 1;
      if b < 128 {
        return Some(Length(value, i));
      }
    }
  }

  method BuildHeader(out: array<Byte>, first: Byte, rem: nat) returns (at: nat)
    requires 1 + |EncodeLen(rem)| <= out.Length
    modifies out
    ensures at == 1 + |EncodeLen(rem)| && out[..at] == [first] + EncodeLen(rem)
  {
    out[0] := first;
    assert out[..1] == [first];
    var e := EncodeLength(out, 1, rem);
    at := 1 + e;
    assert out[..at] == out[..1] + out[1..at];
  }

  method BuildBody(out: array<Byte>, start: nat, p: Publication, ghost header: seq<Byte>) returns (at: nat)
    requires Publishable(p) && start + Remaining(p) <= out.Length && out[..start] == header
    modifies out
    ensures at == start + Remaining(p) && out[..at] == header + Body(p)
  {
    at := Append(out, start, U16(|p.topic|), header);
    ghost var b := header + U16(|p.topic|);
    at := Append(out, at, p.topic, b);
    b := b + p.topic;
    if p.qos > 0 {
      at := Append(out, at, U16(p.id), b);
      b := b + U16(p.id);
    }
    at := Append(out, at, p.payload, b);
    b := b + p.payload;
    assert b == header + Body(p);
  }

  /** build_publish. */
  method BuildPublish(out: array<Byte>, capacity: nat, p: Publication) returns (n: int)
    requires Publishable(p) && capacity <= out.Length
    modifies out
    ensures n == -1 || n == |Packet(p)|
    ensures n == -1 <==> capacity < 2 + 4 + Remaining(p)
    ensures n != -1 ==> n <= capacity && out[..n] == Packet(p)
  {
    var rem := Remaining(p);
    if capacity < 2 + 4 + rem {
      return -1;
    }
    EncodedIsShort(rem);
    var at := BuildHeader(out, PUBLISH * 16 + 2 * p.qos, rem);
    n := BuildBody(out, at, p, out[..at]);
  }

  /** One copy through the moving pointer. */
  method Append(out: array<Byte>, at: nat, bytes: seq<Byte>, ghost before: seq<Byte>) returns (next: nat)
    requires at + |bytes| <= out.Length && out[..at] == before
    modifies out
    ensures next == at + |bytes| && out[..next] == before + bytes
  {
    Copy(out, at, bytes);
    next := at + |bytes|;
    assert out[..next] == out[..at] + out[at..next];
  }

  lemma {:induction false} RxStep(x: seq<Byte>, l: Length)
    requires |x| >= 2 && DecodeLen(x[1..]) == Some(l) && l.bytes < |x| && 1 + l.bytes + l.value <= |x|
    ensures HandleRx(x) == HandlePacket(x[..1 + l.bytes + l.value], 1 + l.bytes) + HandleRx(x[1 + l.bytes + l.value..])
  {
  }

  lemma RxEnds(x: seq<Byte>)
    requires |x| < 2 || DecodeLen(x[1..]).None?
             || 1 + DecodeLen(x[1..]).value.bytes + DecodeLen(x[1..]).value.value > |x|
    ensures HandleRx(x) == []
  {
  }

  /** Where the next packet's body begins and ends, if it is complete. */
  method NextPacket(x: seq<Byte>) returns (found: bool, from: nat, total: nat)
    ensures !found ==> HandleRx(x) == []
    ensures found ==> 0 < from <= total <= |x| && HandleRx(x) == HandlePacket(x[..total], from) + HandleRx(x[total..])
  {
    found, from, total := false, 0, 0;
    if |x| < 2 {
      RxEnds(x);
      return;
    }
    var l := DecodeLength(x[1..]);
    if l.None? {
      RxEnds(x);
      return;
    }
    DecodeFromIsInside(x[1..], 0, 0);
    from := 1 + l.value.bytes;
    total := from + l.value.value;
    found := total <= |x|;
    if found {
      RxStep(x, l.value);
    } else {
      RxEnds(x);
    }
  }

  class Client {
    var actions: seq<Action>

    constructor ()
      ensures actions == []
    {
      actions := [];
    }

    /** handle_publish. */
    method ReceivePublish(packet: seq<Byte>)
      modifies this
      ensures actions == old(actions) + HandlePublish(packet)
    {
      assert actions + [] == actions;
      if |packet| < 4 {
        return;
      }
      var first: int := packet[0];
      var qos := first / 2 % 4;
      var l := DecodeLength(packet[1..]);
      if l.None? {
        return;
      }
      DecodeFromIsInside(packet[1..], 0, 0);
      var from := 1 + l.value.bytes;
      var body := packet[from..Min(from + l.value.value, |packet|)];
      if |body| < 2 || 2 + ReadU16(body) > |body| {
        return;
      }
      var tn := ReadU16(body);
      if tn >= TOPIC_SIZE {
        tn := TOPIC_SIZE - 1;
      }
      var at := 2 + tn;
      var id := 0;
      if qos > 0 {
        if |body| - at < 2 {
          return;
        }
        id := ReadU16(body[at..]);
        at := at + 2;
        assert body[2 + tn..][2..] == body[at..];
      }
      actions := actions + [Deliver(body[2..2 + tn], body[at..])];
      if qos == 1 {
        actions := actions + [Acknowledge(id)];
      }
    }

    /** handle_rx. */
    method Receive(data: seq<Byte>)
      modifies this
      ensures actions == old(actions) + HandleRx(data)
    {
      var rest := data;
      while true
        invariant actions + HandleRx(rest) == old(actions) + HandleRx(data)
        decreases |rest|
      {
        var found, from, total := NextPacket(rest);
        if !found {
          break;
        }
        Associative(actions, HandlePacket(rest[..total], from), HandleRx(rest[total..]));
        HandleOne(rest[..total], from);
        rest := rest[total..];
      }
      assert actions + [] == actions;
    }

    /** The switch of handle_rx. */
    method HandleOne(packet: seq<Byte>, from: nat)
      requires 0 < from <= |packet|
      modifies this
      ensures actions == old(actions) + HandlePacket(packet, from)
    {
      var first: int := packet[0];
      match first / 16
      case 2 => actions := actions + [Connected(|packet| - from >= 2 && packet[from + 1] == 0)];
      case 13 => actions := actions + [PingAnswered];
      case 3 => ReceivePublish(packet);
      case _ => assert actions + [] == actions;
    }
  }
}
