/** Messages over the plain length-prefixed feed. */
module ItchTcp {
  import opened Wire
  import opened Framing
  import opened ItchStream
  import Itch

  function Bodies(ms: seq<Itch.Message>): (bs: seq<Bytes>)
    ensures |bs| == |ms| && forall i :: 0 <= i < |ms| ==> bs[i] == Itch.Encode(ms[i])
  {
    if ms == [] then [] else [Itch.Encode(ms[0])] + Bodies(ms[1..])
  }

  /** Every message is far below the frame limit, so the encoder's size check never fires. */
  lemma MessagesAreSmall(m: Itch.Message)
    requires Itch.Encodable(m)
    ensures 0 < |Itch.Encode(m)| == Itch.EncodedLen(m) <= 50 && Itch.Decode(Itch.Encode(m)) == Ok(m)
  {
    hide Itch.Encode, Itch.Decode, Itch.Encodable;
    Itch.EncodableRoundTrip(m, []);
    assert Itch.Encode(m) + [] == Itch.Encode(m);
  }

  /** Messages sent over the feed come out as sent, however the stream is cut into reads. */
  lemma StreamRoundTrip(ms: seq<Itch.Message>, chunks: seq<Bytes>)
    requires AllEncodable(ms) && Concat(chunks) == FramedAll(Bodies(ms))
    ensures Received(Plain, Itch.Decode, chunks).0 == seq(|ms|, i requires 0 <= i < |ms| => Frame(ms[i]))
  {
    var bodies := Bodies(ms);
    hide Bodies, Itch.Encode, Itch.Decode, Itch.Encodable, Received, Frames;
    forall i | 0 <= i < |ms|
      ensures |bodies[i]| <= 0xFFFF && Reported(Plain, Itch.Decode, bodies[i]) == Frame(ms[i])
    {
      MessagesAreSmall(ms[i]);
    }
    ChunkingIndependence(Plain, Itch.Decode, chunks);
    BoundariesNeverDrift(Plain, Itch.Decode, bodies);
  }
}
