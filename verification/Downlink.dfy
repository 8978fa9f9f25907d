/** From the serial line to the application: MQTT packets that come inside +IPD frames. */
module Downlink {
  import opened Bytes
  import opened IpdParser
  import Mqtt
  import opened Numbers
  import opened SerialLine
  import opened TextLines

  const RX_BUFFER_SIZE := 512

  /** on_esp_recv: the frames of the broker's link, each handled by itself. */
  function Handle(calls: seq<Call>, link: int): seq<Mqtt.Action> {
    if calls == [] then []
    else
      var data := calls[0].data;
      (if calls[0].link != link then [] else Mqtt.HandleRx(data[..Min(|data|, RX_BUFFER_SIZE)]))
        + Handle(calls[1..], link)
  }

  /** Publications that fit one frame together. */
  predicate FitsFrame(ps: seq<Mqtt.Publication>) {
    && ps != [] && (forall p :: p in ps ==> Mqtt.Publishable(p) && |p.topic| < Mqtt.TOPIC_SIZE)
    && |Mqtt.Stream(ps)| <= RX_BUFFER_SIZE
  }

  /** What the module sends: text that begins no frame, and a frame with some publications. */
  datatype Delivery = Delivery(noise: seq<Byte>, batch: seq<Mqtt.Publication>)

  ghost predicate Proper(d: Delivery) {
    NoNeedle(d.noise) && FitsFrame(d.batch)
  }

  ghost predicate AllProper(ds: seq<Delivery>, link: int, linked: bool) {
    0 <= link < 128 && (linked || link == 0) && forall d :: d in ds ==> Proper(d)
  }

  /** The frames name the link or, with a single connection, do not. */
  ghost function Items(ds: seq<Delivery>, link: int, linked: bool): (items: seq<Item>)
    requires AllProper(ds, link, linked)
    ensures forall i :: i in items ==> CleanItem(i)
  {
    if ds == [] then []
    else
      assert Proper(ds[0]);
      [Item(ds[0].noise, Frame(Call(link, Mqtt.Stream(ds[0].batch)), linked))] + Items(ds[1..], link, linked)
  }

  /** What the application should see of all this. */
  function AllExpected(ds: seq<Delivery>): seq<Mqtt.Action> {
    if ds == [] then [] else Mqtt.AllExpected(ds[0].batch) + AllExpected(ds[1..])
  }

  lemma {:induction false} AllAreHandled(ds: seq<Delivery>, link: int, linked: bool)
    requires AllProper(ds, link, linked)
    ensures Handle(CallsOf(Items(ds, link, linked)), link) == AllExpected(ds)
  {
    if ds != [] {
      assert Proper(ds[0]);
      var data := Mqtt.Stream(ds[0].batch);
      assert data[..Min(|data|, RX_BUFFER_SIZE)] == data;
      Mqtt.StreamIsReceivedIff(ds[0].batch);
      AllAreHandled(ds[1..], link, linked);
    }
  }

  lemma {:induction false} HandleOfSum(a: seq<Call>, b: seq<Call>, link: int)
    ensures Handle(a + b, link) == Handle(a, link) + Handle(b, link)
  {
    if a == [] {
      assert a + b == b;
    } else {
      assert (a + b)[1..] == a[1..] + b;
      HandleOfSum(a[1..], b, link);
    }
  }

  /** What comes on another link is none of the client's business. */
  lemma {:induction false} OtherLinksAreIgnored(calls: seq<Call>, link: int)
    requires forall c :: c in calls ==> c.link != link
    ensures Handle(calls, link) == []
  {
    if calls != [] {
      assert calls[0] in calls;
      OtherLinksAreIgnored(calls[1..], link);
    }
  }

  /** Publications framed for the broker's link in either form, with other text before, between and behind the frames,
      however their bytes arrive and whenever the parser, the line loop and the waits of other transmissions take their
      turn, as long as these take nothing that a frame may begin in. At every moment the application has seen the first
      of the topics and payloads, in order, and has been asked to acknowledge exactly those of quality 1; once all
      bytes are in and no round can do more it has seen all of them, and no frame is left behind. */
  lemma PublicationsArrive(ds: seq<Delivery>, last: seq<Byte>, link: int, linked: bool, hs: seq<Happening>,
                           rest: seq<Byte>)
    requires AllProper(ds, link, linked) && NoNeedle(last) && Careful(Round, State([], [], []), hs)
    requires Go(Round, State([], [], []), hs).accepted + rest == Line(Items(ds, link, linked), last)
    ensures var s := Go(Round, State([], [], []), hs);
            && Handle(s.calls, link) <= AllExpected(ds)
            && (rest == [] && Round(s.held) == Wait ==>
                 Handle(s.calls, link) == AllExpected(ds) && EndsWith(last, s.held))
  {
    var s, calls := Go(Round, State([], [], []), hs), CallsOf(Items(ds, link, linked));
    FramesArrive(Items(ds, link, linked), last, hs, rest);
    assert s.calls + calls[|s.calls|..] == calls;
    HandleOfSum(s.calls, calls[|s.calls|..], link);
    AllAreHandled(ds, link, linked);
  }

  /** A topic of ten letters a, no payload, quality 0. */
  function TenLetters(): Mqtt.Publication {
    Mqtt.Publication(seq(10, _ => 97), [], 0, 0)
  }

  lemma TenLettersFramed()
    ensures Mqtt.Packet(TenLetters()) == [48, 12, 0, 10] + TenLetters().topic
    ensures var f := Frame(Call(0, Mqtt.Packet(TenLetters())), false);
            Sendable(f) && FrameOf(f) == NEEDLE + [49, 52, COLON, 48, 12, 0, 10] + TenLetters().topic
  {
    assert Mqtt.EncodeLen(12) == [12] && Mqtt.U16(10) == [0, 10];
    assert Decimal(1) == [49] && Decimal(14) == [49, 52];
  }

  lemma LettersAreNoise()
    ensures Parse(Round, TenLetters().topic) == Parsed([], TenLetters().topic)
  {
    var letters := TenLetters().topic;
    forall i: nat ensures !NeedleAt(letters, i) {
      assert i + 5 <= |letters| ==> letters[i..i + 5][0] == 97;
    }
    NoiseAlone(letters);
  }

  lemma TenLettersFit()
    ensures FitsFrame([TenLetters()]) && Mqtt.Stream([TenLetters()]) == Mqtt.Packet(TenLetters())
  {
    TenLettersFramed();
    assert Mqtt.Stream([TenLetters()]) == Mqtt.Packet(TenLetters()) + Mqtt.Stream([]);
  }

  /** The lower byte of that topic's length is a newline. If the line loop runs when the frame has been received up to
      there, the publication is lost: nothing is ever called, and only the letters remain. */
  lemma LengthTenIsLost()
    ensures var f := Frame(Call(0, Mqtt.Packet(TenLetters())), false);
            var x := FrameOf(f);
            var hs := Rings(Receives(x[..12])) + [Ring(DoRound), DropLines] + Rings(Receives(x[12..]));
            var s := Go(Round, State([], [], []), hs);
            && FitsFrame([TenLetters()]) && Mqtt.Stream([TenLetters()]) == f.call.data && s.accepted == x
            && s.calls == [] && Parse(Round, s.held) == Parsed([], TenLetters().topic)
  {
    var f := Frame(Call(0, Mqtt.Packet(TenLetters())), false);
    TenLettersFramed();
    assert FrameOf(f)[11] == NEWLINE && FrameOf(f)[12..] == TenLetters().topic;
    NewlineLosesTheFrame(f, 12);
    LettersAreNoise();
    TenLettersFit();
  }
}
