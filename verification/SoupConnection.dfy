/** The client side of a SoupBinTCP connection after login: which packets surface, and as what. */
module SoupConnection {
  import opened Wire
  import opened Framing
  import P = SoupPacket
  import Itch

  type Output = Framing.Output<P.Packet, P.PacketError>

  /** What the framed socket yields: a report of the codec, or its end. */
  datatype Event = Got(output: Output) | Closed

  datatype Fault =
    | Protocol(error: Itch.ProtocolError)
    | Wire(report: Output)
    | SessionEnded
    | UnexpectedHandshakePacket(tag: byte)
    | ClientDirection

  type Item = Result<Itch.Message, Fault>

  datatype Poll = Pending | Ready(item: Option<Item>)

  datatype Connection = Connection(inbox: seq<Event>, expected: nat, ended: bool)

  /** Server heartbeats and debug packets are consumed in silence. */
  predicate Silent(p: P.Packet) {
    p.ServerHeartbeat? || p.Debug?
  }

  /** What a packet that is not silent surfaces as. */
  function Shown(p: P.Packet): Item {
    match p
    case SequencedData(payload) =>
      (match Itch.Decode(payload)
       case Ok(m) => Ok(m)
       case Err(e) => Err(Protocol(e)))
    case EndOfSession => Err(SessionEnded)
    case LoginAccepted(_, _) => Err(UnexpectedHandshakePacket(P.Tag(p)))
    case LoginRejected(_) => Err(UnexpectedHandshakePacket(P.Tag(p)))
    case _ => Err(ClientDirection)
  }

  /** One call of `poll_next`. */
  function Polled(s: Connection): (Poll, Connection)
    decreases |s.inbox|
  {
    if s.ended then (Ready(None), s)
    else if s.inbox == [] then (Pending, s)
    else
      var t := s.(inbox := s.inbox[1..]);
      match s.inbox[0]
      case Closed => (Ready(None), t)
      case Got(Frame(p)) =>
        if Silent(p) then Polled(t)
        else
          var item := Shown(p);
          (Ready(Some(item)),
           t.(expected := if item.Ok? then SatAddU64(s.expected, 1) else s.expected, ended := p.EndOfSession?))
      case Got(report) => (Ready(Some(Err(Wire(report)))), t)
  }

  class SoupConnection {
    var framed: seq<Event>
    var expectedSequence: nat
    var sessionEnded: bool

    function Model(): Connection
      reads this
    {
      Connection(framed, expectedSequence, sessionEnded)
    }

    /** A connection starts at the sequence the server's Login Accepted names. */
    constructor (sequence: nat)
      ensures Model() == Connection([], sequence, false)
    {
      framed, expectedSequence, sessionEnded := [], sequence, false;
    }

    method DeliverSequenced(payload: Bytes) returns (r: Item)
      modifies this`expectedSequence
      ensures r == Shown(P.SequencedData(payload))
      ensures expectedSequence == if r.Ok? then SatAddU64(old(expectedSequence), 1) else old(expectedSequence)
    {
      match Itch.Decode(payload) {
        case Err(e) => return Err(Protocol(e));
        case Ok(m) =>
          expectedSequence := SatAddU64(expectedSequence, 1);
          return Ok(m);
      }
    }

    method PollNext() returns (r: Poll)
      modifies this
      ensures (r, Model()) == Polled(old(Model()))
    {
      hide Itch.Decode;
      if sessionEnded {
        return Ready(None);
      }
      while framed != []
        invariant !sessionEnded && Polled(Model()) == Polled(old(Model()))
        decreases |framed|
      {
        var event := framed[0];
        framed := framed[1..];
        match event {
          case Closed => return Ready(None);
          case Got(Frame(packet)) =>
            match packet {
              case SequencedData(payload) =>
                var item := DeliverSequenced(payload);
                return Ready(Some(item));
              case EndOfSession =>
                sessionEnded := true;
                return Ready(Some(Err(SessionEnded)));
              case ServerHeartbeat =>
              case Debug(_) =>
              case LoginAccepted(_, _) => return Ready(Some(Err(UnexpectedHandshakePacket(P.Tag(packet)))));
              case LoginRejected(_) => return Ready(Some(Err(UnexpectedHandshakePacket(P.Tag(packet)))));
              case _ => return Ready(Some(Err(ClientDirection)));
            }
          case Got(report) => return Ready(Some(Err(Wire(report))));
        }
      }
      return Pending;
    }
  }

  // ----- Whole connections -----

  /** Polling until the connection has nothing more to say. */
  function Consumed(s: Connection): (seq<Item>, Connection)
    decreases |s.inbox|
  {
    var (poll, t) := Polled(s);
    if poll.Pending? || poll.item.None? then ([], t)
    else
      PolledShrinks(s);
      var (rest, u) := Consumed(t);
      ([poll.item.value] + rest, u)
  }

  lemma {:induction false} PolledShrinks(s: Connection)
    ensures Polled(s).0.Ready? && Polled(s).0.item.Some? ==> |Polled(s).1.inbox| < |s.inbox|
    decreases |s.inbox|
  {
    if !s.ended && s.inbox != [] && s.inbox[0].Got? && s.inbox[0].output.Frame? && Silent(s.inbox[0].output.value) {
      PolledShrinks(s.(inbox := s.inbox[1..]));
    }
  }

  /** The reference: every event for itself, up to the end of the session or of the socket. */
  function Surfaced(events: seq<Event>): seq<Item> {
    if events == [] then []
    else
      match events[0]
      case Closed => []
      case Got(Frame(p)) =>
        if Silent(p) then Surfaced(events[1..])
        else if p.EndOfSession? then [Err(SessionEnded)]
        else [Shown(p)] + Surfaced(events[1..])
      case Got(report) => [Err(Wire(report))] + Surfaced(events[1..])
  }

  function Delivered(items: seq<Item>): nat {
    if items == [] then 0 else (if items[0].Ok? then 1 else 0) + Delivered(items[1..])
  }

  /**
   * Polling surfaces each event once and in order, a session end once and nothing after it, and
   * the counter moves by exactly the number of messages delivered.
   */
  lemma {:induction false} PollingSurfaces(s: Connection)
    requires s.expected <= U64_MAX
    ensures var (items, t) := Consumed(s);
            && items == (if s.ended then [] else Surfaced(s.inbox))
            && t.expected == SatAddU64(s.expected, Delivered(items))
            && (t.ended <==> s.ended || Err(SessionEnded) in items)
    decreases |s.inbox|
  {
    if !s.ended && s.inbox != [] && s.inbox[0].Got? {
      var t := s.(inbox := s.inbox[1..]);
      var output := s.inbox[0].output;
      if output.Frame? && Silent(output.value) {
        PollingSurfaces(t);
      } else {
        PollingSurfaces(Polled(s).1);
      }
    }
  }

  /** What each packet becomes, by the tag it travels under. A client's own packets and those of
      the handshake are errors once the session is live. */
  lemma SurfacedByTag(p: P.Packet)
    ensures P.Body(p) != []
    ensures var tag, payload := P.Body(p)[0], P.Body(p)[1..];
            var event: Event := Got(Frame(p));
            Surfaced([event])
            == if tag as char in "H+" then []
               else if tag as char == 'S' then
                 [match Itch.Decode(payload) case Ok(m) => Ok(m) case Err(e) => Err(Protocol(e))]
               else if tag as char == 'Z' then [Err(SessionEnded)]
               else if tag as char in "AJ" then [Err(UnexpectedHandshakePacket(tag))]
               else [Err(ClientDirection)]
  {
    hide Itch.Decode, P.Payload;
    var event: Event := Got(Frame(p));
    assert [event][1..] == [];
    if p.SequencedData? {
      P.WireBytes(p.payload);
      assert P.Body(p)[1..] == p.payload;
    }
    var none: seq<Item> := [];
    assert Surfaced([event][1..]) == none && forall i: Item :: [i] + none == [i];
  }

  // ----- From the wire to messages -----

  /** What a server sends while a session is live. */
  datatype Sent = Data(m: Itch.Message) | Heartbeat | Note(text: Bytes)

  function PacketOf(s: Sent): P.Packet {
    match s
    case Data(m) => P.SequencedData(Itch.Encode(m))
    case Heartbeat => P.ServerHeartbeat
    case Note(text) => P.Debug(text)
  }

  predicate Legal(s: Sent) {
    (s.Data? ==> Itch.Encodable(s.m)) && (s.Note? ==> 3 + |s.text| <= MAX_MESSAGE_LEN)
  }

  predicate Live(sent: seq<Sent>) {
    forall i :: 0 <= i < |sent| ==> Legal(sent[i])
  }

  function Packets(sent: seq<Sent>): (ps: seq<P.Packet>)
    ensures |ps| == |sent| && forall i :: 0 <= i < |sent| ==> ps[i] == PacketOf(sent[i])
  {
    if sent == [] then [] else [PacketOf(sent[0])] + Packets(sent[1..])
  }

  function Messages(sent: seq<Sent>): seq<Item> {
    if sent == [] then []
    else (if sent[0].Data? then [Ok(sent[0].m)] else []) + Messages(sent[1..])
  }

  function Events(outputs: seq<Output>): (es: seq<Event>)
    ensures |es| == |outputs| && forall i :: 0 <= i < |outputs| ==> es[i] == Got(outputs[i])
  {
    if outputs == [] then [] else [Got(outputs[0])] + Events(outputs[1..])
  }

  lemma {:induction false} LiveSurfaces(sent: seq<Sent>, events: seq<Event>)
    requires Live(sent) && |events| == |sent|
    requires forall i :: 0 <= i < |sent| ==> events[i] == Got(Frame(PacketOf(sent[i])))
    ensures Surfaced(events) == Messages(sent)
  {
    hide Itch.Encode, Itch.Decode, Itch.Encodable;
    if sent != [] {
      LiveSurfaces(sent[1..], events[1..]);
      if sent[0].Data? {
        Itch.EncodableRoundTrip(sent[0].m, []);
        assert Itch.Encode(sent[0].m) + [] == Itch.Encode(sent[0].m);
      }
    }
  }

  lemma LegalFits(s: Sent)
    requires Legal(s)
    ensures var p := PacketOf(s);
            P.Typed(p) && P.Fits(p) && P.Encoded(p).Ok?
  {
    hide Itch.Encode, Itch.Encodable, P.Body, Framed;
    if s.Data? {
      Itch.EncodableRoundTrip(s.m, []);
    }
  }

  lemma LiveSendable(sent: seq<Sent>)
    requires Live(sent)
    ensures P.Sendable(Packets(sent))
  {
    hide Legal, PacketOf, P.Typed, P.Fits, P.Encoded;
    forall i | 0 <= i < |sent|
      ensures var p := PacketOf(sent[i]);
              P.Typed(p) && P.Fits(p) && P.Encoded(p).Ok?
    {
      LegalFits(sent[i]);
    }
  }

  /**
   * From the server's packets to the client's messages: under any cutting of the stream into
   * reads, the client surfaces exactly the sequenced messages, in order, and its counter ends at
   * the login sequence plus their number.
   */
  lemma WireToMessages(sent: seq<Sent>, chunks: seq<Bytes>, sequence: nat)
    requires Live(sent) && sequence <= U64_MAX
    requires Concat(chunks) == FramedAll(P.Bodies(Packets(sent)))
    ensures var outputs := Received(Soup, P.Decoded, chunks).0;
            var (items, t) := Consumed(Connection(Events(outputs), sequence, false));
            items == Messages(sent) && !t.ended && t.expected == SatAddU64(sequence, Delivered(Messages(sent)))
  {
    hide Itch.Encode, Itch.Decode, Itch.Encodable;
    var ps := Packets(sent);
    LiveSendable(sent);
    P.StreamRoundTrip(ps, chunks);
    var outputs := Received(Soup, P.Decoded, chunks).0;
    var events := Events(outputs);
    hide Received, Packets, Events, P.Bodies, Concat, FramedAll;
    LiveSurfaces(sent, events);
    PollingSurfaces(Connection(events, sequence, false));
    NoEnd(sent);
  }

  lemma {:induction false} NoEnd(sent: seq<Sent>)
    ensures Err(SessionEnded) !in Messages(sent)
  {
    if sent != [] {
      NoEnd(sent[1..]);
    }
  }
}
