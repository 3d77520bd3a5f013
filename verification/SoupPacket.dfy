/** The ten SoupBinTCP packet types and their bodies. */
module SoupPacket {
  import opened Wire
  import opened SoupText
  import opened Framing

  datatype RejectReason = NotAuthorized | SessionUnavailable

  datatype Packet =
    | Debug(text: Bytes)
    | LoginRequest(username: Bytes, password: Bytes, requestedSession: Bytes, requestedSequence: nat)
    | LoginAccepted(session: Bytes, sequence: nat)
    | LoginRejected(reason: RejectReason)
    | SequencedData(payload: Bytes)
    | UnsequencedData(data: Bytes)
    | ServerHeartbeat
    | ClientHeartbeat
    | EndOfSession
    | LogoutRequest

  datatype PacketError =
    | UnknownPacketType(tag: byte)
    | BadPayloadLength(tag: byte, expected: nat, got: nat)
    | InvalidCode(code: byte)

  function Tag(p: Packet): byte {
    match p
    case Debug(_) => '+' as int
    case LoginRequest(_, _, _, _) => 'L' as int
    case LoginAccepted(_, _) => 'A' as int
    case LoginRejected(_) => 'J' as int
    case SequencedData(_) => 'S' as int
    case UnsequencedData(_) => 'U' as int
    case ServerHeartbeat => 'H' as int
    case ClientHeartbeat => 'R' as int
    case EndOfSession => 'Z' as int
    case LogoutRequest => 'O' as int
  }

  function Payload(p: Packet): Bytes {
    match p
    case Debug(text) => text
    case LoginRequest(username, password, session, sequence) =>
      PadRight(username, 6) + PadRight(password, 10) + PadLeft(session, 10) + DecimalField(sequence)
    case LoginAccepted(session, sequence) => PadLeft(session, 10) + DecimalField(sequence)
    case LoginRejected(reason) => [if reason == NotAuthorized then 'A' as int else 'S' as int]
    case SequencedData(payload) => payload
    case UnsequencedData(data) => data
    case _ => []
  }

  /** The framed part of a packet: its tag and its payload. */
  function Body(p: Packet): Bytes {
    [Tag(p)] + Payload(p)
  }

  /** The encoder refuses a packet over the size limit and frames any other. */
  function Encoded(p: Packet): Result<Bytes, nat> {
    if 3 + |Payload(p)| > MAX_MESSAGE_LEN then Err(3 + |Payload(p)|) else Ok(Framed(Body(p)))
  }

  const LOGIN_REQUEST_LEN := 46
  const LOGIN_ACCEPTED_LEN := 30

  function DecodedRequest(b: Bytes): Result<Packet, PacketError>
    requires |b| == LOGIN_REQUEST_LEN
  {
    match DecodedDecimal(b[26..46])
    case Err(code) => Err(InvalidCode(code))
    case Ok(sequence) => Ok(LoginRequest(Trim(b[0..6]), Trim(b[6..16]), Trim(b[16..26]), sequence))
  }

  function DecodedAcceptance(b: Bytes): Result<Packet, PacketError>
    requires |b| == LOGIN_ACCEPTED_LEN
  {
    match DecodedDecimal(b[10..30])
    case Err(code) => Err(InvalidCode(code))
    case Ok(sequence) => Ok(LoginAccepted(Trim(b[0..10]), sequence))
  }

  function Sized(tag: byte, payload: Bytes, len: nat, p: Packet): Result<Packet, PacketError> {
    if |payload| == len then Ok(p) else Err(BadPayloadLength(tag, len, |payload|))
  }

  /** `decode_packet` on a body. The framing never hands over an empty one. */
  function Decoded(body: Bytes): Result<Packet, PacketError> {
    if body == [] then Err(UnknownPacketType(0))
    else
      var tag, payload := body[0], body[1..];
      match tag as char
      case '+' => Ok(Debug(payload))
      case 'L' =>
        if |payload| == LOGIN_REQUEST_LEN then DecodedRequest(payload)
        else Err(BadPayloadLength(tag, LOGIN_REQUEST_LEN, |payload|))
      case 'A' =>
        if |payload| == LOGIN_ACCEPTED_LEN then DecodedAcceptance(payload)
        else Err(BadPayloadLength(tag, LOGIN_ACCEPTED_LEN, |payload|))
      case 'J' =>
        if |payload| != 1 then Err(BadPayloadLength(tag, 1, |payload|))
        else if payload[0] == 'A' as int then Ok(LoginRejected(NotAuthorized))
        else if payload[0] == 'S' as int then Ok(LoginRejected(SessionUnavailable))
        else Err(InvalidCode(payload[0]))
      case 'S' => Ok(SequencedData(payload))
      case 'U' => Ok(UnsequencedData(payload))
      case 'H' => Sized(tag, payload, 0, ServerHeartbeat)
      case 'R' => Sized(tag, payload, 0, ClientHeartbeat)
      case 'Z' => Sized(tag, payload, 0, EndOfSession)
      case 'O' => Sized(tag, payload, 0, LogoutRequest)
      case _ => Err(UnknownPacketType(tag))
  }

  // ----- Round trips -----

  /** Sequence numbers are u64. */
  predicate Typed(p: Packet) {
    match p
    case LoginRequest(_, _, _, sequence) => sequence <= U64_MAX
    case LoginAccepted(_, sequence) => sequence <= U64_MAX
    case _ => true
  }

  predicate FitsField(text: Bytes, width: nat) {
    |text| <= width && NoEdgeSpaces(text)
  }

  /** Text fields fit their widths and have no spaces at their edges. */
  predicate Fits(p: Packet) {
    match p
    case LoginRequest(username, password, session, _) =>
      FitsField(username, 6) && FitsField(password, 10) && FitsField(session, 10)
    case LoginAccepted(session, _) => FitsField(session, 10)
    case _ => true
  }

  lemma FieldsOf(a: Bytes, b: Bytes, c: Bytes, d: Bytes)
    requires |a| == 6 && |b| == 10 && |c| == 10 && |d| == 20
    ensures var all := a + b + c + d;
            |all| == 46 && all[0..6] == a && all[6..16] == b && all[16..26] == c && all[26..46] == d
  {
  }

  lemma RequestRoundTrip(p: Packet)
    requires p.LoginRequest? && Typed(p)
    ensures |Payload(p)| == LOGIN_REQUEST_LEN && (DecodedRequest(Payload(p)) == Ok(p) <==> Fits(p))
  {
    hide Trim, DecodedDecimal, DecimalField, PadLeft, PadRight, NoEdgeSpaces;
    var a, b := PadRight(p.username, 6), PadRight(p.password, 10);
    var c, d := PadLeft(p.requestedSession, 10), DecimalField(p.requestedSequence);
    FieldsOf(a, b, c, d);
    DecimalRoundTrip(p.requestedSequence);
    PadTrimIff(p.username, 6);
    PadTrimIff(p.password, 10);
    PadTrimIff(p.requestedSession, 10);
    assert Payload(p) == a + b + c + d;
    hide Payload;
  }

  lemma AcceptanceRoundTrip(p: Packet)
    requires p.LoginAccepted? && Typed(p)
    ensures |Payload(p)| == LOGIN_ACCEPTED_LEN && (DecodedAcceptance(Payload(p)) == Ok(p) <==> Fits(p))
  {
    hide Trim, DecodedDecimal, DecimalField, PadLeft, NoEdgeSpaces;
    var c, d := PadLeft(p.session, 10), DecimalField(p.sequence);
    assert (c + d)[0..10] == c && (c + d)[10..30] == d;
    DecimalRoundTrip(p.sequence);
    PadTrimIff(p.session, 10);
  }

  /** A packet reads back as itself exactly when its text fields fit. */
  lemma PacketRoundTrip(p: Packet)
    requires Typed(p)
    ensures Decoded(Body(p)) == Ok(p) <==> Fits(p)
  {
    assert Body(p)[0] == Tag(p) && Body(p)[1..] == Payload(p);
    if p.LoginRequest? {
      RequestRoundTrip(p);
      hide Payload, DecodedRequest;
    } else if p.LoginAccepted? {
      AcceptanceRoundTrip(p);
      hide Payload, DecodedAcceptance;
    }
  }

  /** Whatever decodes is in normal form: it fits, so it would read back as itself. */
  lemma DecodedIsNormal(body: Bytes)
    requires Decoded(body).Ok?
    ensures var p := Decoded(body).value;
            Typed(p) && Fits(p) && Decoded(Body(p)) == Ok(p) && Tag(p) == body[0]
  {
    var p := Decoded(body).value;
    var b := body[1..];
    if p.LoginRequest? {
      DecimalMeaning(b[26..46]);
      TrimIff(b[0..6]);
      TrimIff(b[6..16]);
      TrimIff(b[16..26]);
    } else if p.LoginAccepted? {
      DecimalMeaning(b[10..30]);
      TrimIff(b[0..10]);
    }
    hide Trim, DecodedDecimal;
    assert Typed(p) && Fits(p) && Tag(p) == body[0];
    PacketRoundTrip(p);
  }

  // ----- Layout -----

  /** The bytes that travel for each packet: an ASCII tag, then what follows it. */
  lemma WireBytes(data: Bytes)
    ensures Body(Debug(data)) == [43] + data && Body(SequencedData(data)) == [83] + data
    ensures Body(UnsequencedData(data)) == [85] + data
    ensures Body(ServerHeartbeat) == [72] && Body(ClientHeartbeat) == [82]
    ensures Body(EndOfSession) == [90] && Body(LogoutRequest) == [79]
    ensures Body(LoginRejected(NotAuthorized)) == [74, 65]
    ensures Body(LoginRejected(SessionUnavailable)) == [74, 83]
  {
  }

  /** A text at the front of a field, spaces behind it. */
  predicate LeftAligned(field: Bytes, text: Bytes) {
    |text| <= |field| && field[..|text|] == text && forall i :: |text| <= i < |field| ==> field[i] == 32
  }

  /** A text at the end of a field, spaces before it. */
  predicate RightAligned(field: Bytes, text: Bytes) {
    |text| <= |field| && field[|field| - |text|..] == text && forall i :: 0 <= i < |field| - |text| ==> field[i] == 32
  }

  lemma Aligned(text: Bytes, width: nat)
    requires |text| <= width
    ensures LeftAligned(PadRight(text, width), text) && RightAligned(PadLeft(text, width), text)
  {
  }

  /** A login request: user name in bytes 1 to 6 and password in 7 to 16, left-aligned; session in
      17 to 26 and sequence number in 27 to 46, right-aligned. */
  lemma RequestLayout(p: Packet)
    requires p.LoginRequest? && Typed(p) && Fits(p)
    ensures var b := Body(p);
            && |b| == 47 && b[0] == 76 && LeftAligned(b[1..7], p.username) && LeftAligned(b[7..17], p.password)
            && RightAligned(b[17..27], p.requestedSession) && RightAligned(b[27..47], Numeral(p.requestedSequence))
  {
    hide PadRight, PadLeft, Numeral, LeftAligned, RightAligned, NoEdgeSpaces;
    NumeralFits(p.requestedSequence);
    Aligned(p.username, 6);
    Aligned(p.password, 10);
    Aligned(p.requestedSession, 10);
    Aligned(Numeral(p.requestedSequence), 20);
    var a, b := PadRight(p.username, 6), PadRight(p.password, 10);
    var c, d := PadLeft(p.requestedSession, 10), DecimalField(p.requestedSequence);
    FieldsOf(a, b, c, d);
    assert Body(p) == [76] + (a + b + c + d);
    Shifted(76, a + b + c + d);
  }

  lemma Shifted(tag: byte, all: Bytes)
    ensures |all| == 46 ==> var b := [tag] + all;
                            && b[1..7] == all[0..6] && b[7..17] == all[6..16]
                            && b[17..27] == all[16..26] && b[27..47] == all[26..46]
    ensures |all| == 30 ==> var b := [tag] + all;
                            b[1..11] == all[0..10] && b[11..31] == all[10..30]
  {
  }

  /** A login acceptance: session in bytes 1 to 10 and sequence number in 11 to 30, right-aligned. */
  lemma AcceptanceLayout(p: Packet)
    requires p.LoginAccepted? && Typed(p) && Fits(p)
    ensures var b := Body(p);
            && |b| == 31 && b[0] == 65
            && RightAligned(b[1..11], p.session) && RightAligned(b[11..31], Numeral(p.sequence))
  {
    hide PadLeft, Numeral, RightAligned, NoEdgeSpaces;
    NumeralFits(p.sequence);
    Aligned(p.session, 10);
    Aligned(Numeral(p.sequence), 20);
    var c, d := PadLeft(p.session, 10), DecimalField(p.sequence);
    assert Body(p) == [65] + (c + d) && (c + d)[0..10] == c && (c + d)[10..30] == d;
    Shifted(65, c + d);
  }

  /** The encoder sends exactly the packets whose whole frame is at most 1024 bytes, and those are
      the ones the other side's decoder takes. */
  lemma EncoderLimit(p: Packet)
    ensures Encoded(p) == if |Framed(Body(p))| <= 1024 then Ok(Framed(Body(p))) else Err(|Framed(Body(p))|)
    ensures Encoded(p).Ok? <==> 1 <= |Body(p)| <= 1022
  {
    BodySize(p);
    hide Body;
  }

  // ----- Streams -----

  predicate Sendable(ps: seq<Packet>) {
    forall i :: 0 <= i < |ps| ==> Typed(ps[i]) && Fits(ps[i]) && Encoded(ps[i]).Ok?
  }

  function Bodies(ps: seq<Packet>): (bs: seq<Bytes>)
    ensures |bs| == |ps| && forall i :: 0 <= i < |ps| ==> bs[i] == Body(ps[i])
  {
    if ps == [] then [] else [Body(ps[0])] + Bodies(ps[1..])
  }

  /** Packets sent over a stream come out as sent, however the stream is cut into reads. */
  lemma StreamRoundTrip(ps: seq<Packet>, chunks: seq<Bytes>)
    requires Sendable(ps) && Concat(chunks) == FramedAll(Bodies(ps))
    ensures Received(Soup, Decoded, chunks).0 == seq(|ps|, i requires 0 <= i < |ps| => Frame(ps[i]))
  {
    var bodies := Bodies(ps);
    hide Bodies, Body, Typed, Fits, Decoded, Received, Frames;
    forall i | 0 <= i < |ps|
      ensures |bodies[i]| <= 0xFFFF && Reported(Soup, Decoded, bodies[i]) == Frame(ps[i])
    {
      BodySize(ps[i]);
      PacketRoundTrip(ps[i]);
    }
    ChunkingIndependence(Soup, Decoded, chunks);
    BoundariesNeverDrift(Soup, Decoded, bodies);
  }

  lemma BodySize(p: Packet)
    ensures |Body(p)| == 1 + |Payload(p)|
  {
  }
}
