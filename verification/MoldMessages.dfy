/** End-to-end safety in terms of messages: what was published is what is surfaced. */
module MoldMessages {
  import opened Wire
  import opened MoldPacket
  import opened MoldReceiver
  import opened MoldFeed
  import opened MoldSystem
  import opened ItchStream
  import ItchTcp
  import MoldStall
  import PL = MoldPublisherLaws
  import Itch

  /** Every encoded message is a block a publisher may send and a receiver can decode. */
  lemma EncodedIsGood(m: Itch.Message)
    requires Itch.Encodable(m)
    ensures GoodBlock(Itch.Encode(m)) && Itch.Decode(Itch.Encode(m)) == Ok(m)
  {
    hide Itch.Encode, Itch.Decode, Itch.Encodable;
    ItchTcp.MessagesAreSmall(m);
  }

  /** The surfaced messages are those of `ms` from the locked number on, each under its own number. */
  predicate Carries(c: Setup, v: World, ms: seq<Itch.Message>) {
    var got := Data(v.surfaced);
    forall i :: 0 <= i < |got| ==>
      && c.start <= v.lock + i < c.start + |ms|
      && got[i] == Message(v.lock + i, ms[v.lock + i - c.start])
  }

  /**
   * If the publisher's source was the messages `ms`, then after every run the application holds
   * a contiguous piece of `ms`, decoded back to the very messages, each under its own number.
   */
  lemma MessagesArrive(c: Setup, w: World, steps: seq<Step>, ms: seq<Itch.Message>)
    requires Init(c, w) && Runs(c, w, steps) && LockedRun(c, w, steps) && c.dec == Itch.Decode
    requires AllEncodable(ms) && Last(c, w, steps).feed == ItchTcp.Bodies(ms)
    ensures Carries(c, Last(c, w, steps), ms)
  {
    hide *;
    EndToEndSafety(c, w, steps);
    SafeMessages(c, Last(c, w, steps), ms);
  }

  lemma SafeMessages(c: Setup, v: World, ms: seq<Itch.Message>)
    requires Safe(c, v) && c.dec == Itch.Decode && AllEncodable(ms) && v.feed == ItchTcp.Bodies(ms)
    ensures Carries(c, v, ms)
  {
    hide Itch.Encode, Itch.Decode, Itch.Encodable, Data, EndsOnce, EndIsTrue, ItchTcp.Bodies;
    var got := Data(v.surfaced);
    forall i | 0 <= i < |got|
      ensures c.start <= v.lock + i < c.start + |ms| && got[i] == Message(v.lock + i, ms[v.lock + i - c.start])
    {
      var k := v.lock + i - c.start;
      assert v.feed[k] == Itch.Encode(ms[k]);
      EncodedIsGood(ms[k]);
    }
  }

  /** Every packet of the publisher survives its own bytes: what `Receive` hands to the receiver is
      what the datagram decodes to. */
  lemma PacketsSurviveTheWire(c: Setup, w: World, steps: seq<Step>, i: nat)
    requires Init(c, w) && Runs(c, w, steps) && LockedRun(c, w, steps) && |c.session| == 10
    requires i < |Last(c, w, steps).pub.sent|
    ensures var pkt := Last(c, w, steps).pub.sent[i];
            Decoded(Encoded(pkt)) == Ok(pkt)
  {
    InitInv(c, w);
    RunInv(c, w, steps);
    var v := Last(c, w, steps);
    hide Init, Runs, Last, LockedRun;
    SentWellFormed(c, v, i);
    DecodeEncode(v.pub.sent[i]);
  }

  lemma SentWellFormed(c: Setup, w: World, i: nat)
    requires Inv(c, w) && i < |w.pub.sent| && |c.session| == 10
    ensures WellFormed(w.pub.sent[i])
  {
    MoldStall.SentOrdinary(c, w, i);
    assert PL.Proper(c.session, w.pub.sent[i]);
    hide Inv;
  }
}
