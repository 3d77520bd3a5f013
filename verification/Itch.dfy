/** The twenty ITCH 5.0 message kinds and their binary code.

    Each per-kind struct of the source is one row of the `Layout` table: its fields in wire
    order, the ten-byte header first. A message is a kind together with one value per field. */
module Itch {
  import opened Wire

  datatype Kind =
    | SystemEvent | StockDirectory | StockTradingAction | RegShoRestriction
    | MarketParticipantPosition | MwcbDeclineLevel | MwcbStatus | IpoQuotingPeriodUpdate
    | AddOrder | AddOrderWithMpid | OrderExecuted | OrderExecutedWithPrice | OrderCancel
    | OrderDelete | OrderReplace | TradeNonCross | CrossTrade | BrokenTrade | Noii
    | RetailPriceImprovement

  /** A field: an unsigned number, raw bytes, or one byte out of a closed set of ASCII codes. */
  datatype Field = UInt(width: nat) | Raw(width: nat) | Code(codes: string)

  datatype Value = Num(n: nat) | Text(bytes: Bytes)

  datatype Message = Message(kind: Kind, values: seq<Value>)

  datatype ProtocolError =
    | Truncated(need: nat, got: nat)
    | UnknownMessageType(tag: byte)
    | InvalidEnumCode(code: byte)

  // ----- Tables -----

  function Ascii(c: char): (b: byte)
    requires c < 256 as char
  {
    c as int
  }

  function Tag(k: Kind): byte {
    match k
    case SystemEvent => Ascii('S')
    case StockDirectory => Ascii('R')
    case StockTradingAction => Ascii('H')
    case RegShoRestriction => Ascii('Y')
    case MarketParticipantPosition => Ascii('L')
    case MwcbDeclineLevel => Ascii('V')
    case MwcbStatus => Ascii('W')
    case IpoQuotingPeriodUpdate => Ascii('K')
    case AddOrder => Ascii('A')
    case AddOrderWithMpid => Ascii('F')
    case OrderExecuted => Ascii('E')
    case OrderExecutedWithPrice => Ascii('C')
    case OrderCancel => Ascii('X')
    case OrderDelete => Ascii('D')
    case OrderReplace => Ascii('U')
    case TradeNonCross => Ascii('P')
    case CrossTrade => Ascii('Q')
    case BrokenTrade => Ascii('B')
    case Noii => Ascii('I')
    case RetailPriceImprovement => Ascii('N')
  }

  function KindOf(tag: byte): Option<Kind> {
    match tag as char
    case 'S' => Some(SystemEvent)
    case 'R' => Some(StockDirectory)
    case 'H' => Some(StockTradingAction)
    case 'Y' => Some(RegShoRestriction)
    case 'L' => Some(MarketParticipantPosition)
    case 'V' => Some(MwcbDeclineLevel)
    case 'W' => Some(MwcbStatus)
    case 'K' => Some(IpoQuotingPeriodUpdate)
    case 'A' => Some(AddOrder)
    case 'F' => Some(AddOrderWithMpid)
    case 'E' => Some(OrderExecuted)
    case 'C' => Some(OrderExecutedWithPrice)
    case 'X' => Some(OrderCancel)
    case 'D' => Some(OrderDelete)
    case 'U' => Some(OrderReplace)
    case 'P' => Some(TradeNonCross)
    case 'Q' => Some(CrossTrade)
    case 'B' => Some(BrokenTrade)
    case 'I' => Some(Noii)
    case 'N' => Some(RetailPriceImprovement)
    case _ => None
  }

  /** The `BODY_LEN` constants: bytes after the one-byte tag. */
  function BodyLen(k: Kind): nat {
    match k
    case SystemEvent => 11
    case StockDirectory => 38
    case StockTradingAction => 24
    case RegShoRestriction => 19
    case MarketParticipantPosition => 25
    case MwcbDeclineLevel => 34
    case MwcbStatus => 11
    case IpoQuotingPeriodUpdate => 27
    case AddOrder => 35
    case AddOrderWithMpid => 39
    case OrderExecuted => 30
    case OrderExecutedWithPrice => 35
    case OrderCancel => 22
    case OrderDelete => 18
    case OrderReplace => 34
    case TradeNonCross => 43
    case CrossTrade => 39
    case BrokenTrade => 18
    case Noii => 49
    case RetailPriceImprovement => 19
  }

  const YES_NO := "YN "

  const LISTING_FIELDS := [Raw(8), Code("QGSANPZV "), Code("DEQSGHJKCN "), UInt(4), Code(YES_NO)]
  const REGULATORY_FIELDS := [UInt(1), Raw(2), Code("PT"), Code(YES_NO), Code(YES_NO)]
  const ETP_FIELDS := [Code("12 "), Code(YES_NO), UInt(4), Code(YES_NO)]
  const IMBALANCE_FIELDS := [UInt(8), UInt(8), Code("BSNO"), Raw(8)]
  const CROSS_FIELDS := [UInt(4), UInt(4), UInt(4), Code("OCHI"), Code("L123456789ABC ")]

  /** The fields that follow the header. */
  function Payload(k: Kind): seq<Field> {
    match k
    case SystemEvent => [Code("OSQMEC")]
    case StockDirectory =>
      LISTING_FIELDS + REGULATORY_FIELDS + ETP_FIELDS
    case StockTradingAction => [Raw(8), Code("HPQT"), UInt(1), Raw(4)]
    case RegShoRestriction => [Raw(8), Code("012")]
    case MarketParticipantPosition => [Raw(4), Raw(8), Code(YES_NO), Code("NPSRL"), Code("AEWSD")]
    case MwcbDeclineLevel => [UInt(8), UInt(8), UInt(8)]
    case MwcbStatus => [Code("123")]
    case IpoQuotingPeriodUpdate => [Raw(8), UInt(4), Code("AC"), UInt(4)]
    case AddOrder => [UInt(8), Code("BS"), UInt(4), Raw(8), UInt(4)]
    case AddOrderWithMpid => [UInt(8), Code("BS"), UInt(4), Raw(8), UInt(4), Raw(4)]
    case OrderExecuted => [UInt(8), UInt(4), UInt(8)]
    case OrderExecutedWithPrice => [UInt(8), UInt(4), UInt(8), Code("NY"), UInt(4)]
    case OrderCancel => [UInt(8), UInt(4)]
    case OrderDelete => [UInt(8)]
    case OrderReplace => [UInt(8), UInt(8), UInt(4), UInt(4)]
    case TradeNonCross => [UInt(8), Code("BS"), UInt(4), Raw(8), UInt(4), UInt(8)]
    case CrossTrade => [UInt(8), Raw(8), UInt(4), UInt(8), Code("OCHI")]
    case BrokenTrade => [UInt(8)]
    case Noii =>
      IMBALANCE_FIELDS + CROSS_FIELDS
    case RetailPriceImprovement => [Raw(8), Code("BSAN")]
  }

  /** Position of the timestamp among the values: after the locate and the tracking number. */
  const TIMESTAMP := 2

  /** Locate, tracking number and 48-bit timestamp, then the payload. */
  function Layout(k: Kind): seq<Field> {
    [UInt(2), UInt(2), UInt(6)] + Payload(k)
  }

  function Width(f: Field): nat {
    match f
    case UInt(w) => w
    case Raw(w) => w
    case Code(_) => 1
  }

  function TotalWidth(fs: seq<Field>): nat {
    if fs == [] then 0 else Width(fs[0]) + TotalWidth(fs[1..])
  }

  // ----- Code -----

  /** A value of the Rust type of the field. A number occupies `width` bytes in memory. */
  predicate HasType(f: Field, v: Value) {
    match f
    case UInt(w) => v.Num? && v.n < Pow256(w)
    case Raw(w) => v.Text? && |v.bytes| == w
    case Code(codes) => v.Num? && v.n < 256 && v.n as char in codes
  }

  predicate AllTyped(fs: seq<Field>, vs: seq<Value>) {
    |fs| == |vs| && forall i :: 0 <= i < |fs| ==> HasType(fs[i], vs[i])
  }

  /** What the source's types allow: the timestamp is a u64 in memory although six bytes travel. */
  predicate WellTyped(m: Message) {
    |m.values| == |Layout(m.kind)|
    && m.values[TIMESTAMP].Num? && m.values[TIMESTAMP].n <= U64_MAX
    && forall i :: 0 <= i < |m.values| && i != TIMESTAMP ==> HasType(Layout(m.kind)[i], m.values[i])
  }

  predicate Encodable(m: Message) {
    AllTyped(Layout(m.kind), m.values)
  }

  function EncodeValue(f: Field, v: Value): Bytes {
    match v
    case Num(n) => BigEndian(n, Width(f))
    case Text(b) => b
  }

  function EncodeValues(fs: seq<Field>, vs: seq<Value>): Bytes {
    if fs == [] || vs == [] then [] else EncodeValue(fs[0], vs[0]) + EncodeValues(fs[1..], vs[1..])
  }

  function Encode(m: Message): Bytes {
    [Tag(m.kind)] + EncodeValues(Layout(m.kind), m.values)
  }

  function DecodeValue(f: Field, b: Bytes): Result<Value, ProtocolError>
    requires |b| == Width(f)
  {
    match f
    case UInt(_) => Ok(Num(FromBigEndian(b)))
    case Raw(_) => Ok(Text(b))
    case Code(codes) => if b[0] as char in codes then Ok(Num(b[0])) else Err(InvalidEnumCode(b[0]))
  }

  function DecodeValues(fs: seq<Field>, b: Bytes): (r: Result<seq<Value>, ProtocolError>)
    requires |b| >= TotalWidth(fs)
  {
    if fs == [] then Ok([]) else
      var w := Width(fs[0]);
      match DecodeValue(fs[0], b[..w])
      case Err(e) => Err(e)
      case Ok(v) =>
        match DecodeValues(fs[1..], b[w..])
        case Err(e) => Err(e)
        case Ok(vs) => Ok([v] + vs)
  }

  lemma {:induction false} TotalWidthAppend(a: seq<Field>, b: seq<Field>)
    ensures TotalWidth(a + b) == TotalWidth(a) + TotalWidth(b)
  {
    if a == [] {
      assert a + b == b;
    } else {
      assert (a + b)[0] == a[0] && (a + b)[1..] == a[1..] + b;
      TotalWidthAppend(a[1..], b);
    }
  }

  /** Every row of the table is as wide as the constant the decoder checks. */
  lemma LayoutMatchesBodyLen(k: Kind)
    ensures TotalWidth(Layout(k)) == BodyLen(k)
  {
    TotalWidthAppend([UInt(2), UInt(2), UInt(6)], Payload(k));
    assert TotalWidth([UInt(2), UInt(2), UInt(6)]) == 10;
    PayloadWidth(k);
  }

  lemma PayloadWidth(k: Kind)
    ensures TotalWidth(Payload(k)) == BodyLen(k) - 10
  {
    hide Payload, TotalWidth;
    if k == Noii || k == StockDirectory {
      LongRows();
    } else if |Payload(k)| <= 4 {
      ShortRows(k);
    } else {
      MediumRows(k);
    }
  }

  lemma ShortRows(k: Kind)
    requires k != Noii && k != StockDirectory && |Payload(k)| <= 4
    ensures TotalWidth(Payload(k)) == BodyLen(k) - 10
  {
    FirstFour(Payload(k));
    if |Payload(k)| == 4 {
      assert Payload(k)[4..] == [];
    }
  }

  lemma MediumRows(k: Kind)
    requires k != Noii && k != StockDirectory && |Payload(k)| > 4
    ensures TotalWidth(Payload(k)) == BodyLen(k) - 10
  {
    FirstFour(Payload(k));
    FirstFour(Payload(k)[4..]);
  }

  lemma LongRows()
    ensures TotalWidth(Payload(Noii)) == 39 && TotalWidth(Payload(StockDirectory)) == 28
  {
    GroupWidths();
    assert Payload(Noii) == IMBALANCE_FIELDS + CROSS_FIELDS;
    assert Payload(StockDirectory) == LISTING_FIELDS + REGULATORY_FIELDS + ETP_FIELDS;
    hide Payload, TotalWidth;
    TotalWidthAppend(IMBALANCE_FIELDS, CROSS_FIELDS);
    TotalWidthAppend(LISTING_FIELDS, REGULATORY_FIELDS);
    TotalWidthAppend(LISTING_FIELDS + REGULATORY_FIELDS, ETP_FIELDS);
  }

  lemma GroupWidths()
    ensures TotalWidth(LISTING_FIELDS) == 15 && TotalWidth(REGULATORY_FIELDS) == 6 && TotalWidth(ETP_FIELDS) == 7
    ensures TotalWidth(IMBALANCE_FIELDS) == 25 && TotalWidth(CROSS_FIELDS) == 14
  {
    FirstFour(LISTING_FIELDS);
    FirstFour(REGULATORY_FIELDS);
    FirstFour(ETP_FIELDS);
    FirstFour(IMBALANCE_FIELDS);
    FirstFour(CROSS_FIELDS);
    hide TotalWidth;
    assert LISTING_FIELDS[4..] == [Code(YES_NO)] && REGULATORY_FIELDS[4..] == [Code(YES_NO)];
    assert CROSS_FIELDS[4..] == [Code("L123456789ABC ")];
    assert ETP_FIELDS[4..] == [] && IMBALANCE_FIELDS[4..] == [];
    OneField(Code(YES_NO));
    OneField(Code("L123456789ABC "));
  }

  lemma OneField(f: Field)
    ensures TotalWidth([f]) == Width(f) && TotalWidth([]) == 0
  {
  }

  lemma FirstFour(fs: seq<Field>)
    ensures |fs| == 1 ==> TotalWidth(fs) == Width(fs[0])
    ensures |fs| == 2 ==> TotalWidth(fs) == Width(fs[0]) + Width(fs[1])
    ensures |fs| == 3 ==> TotalWidth(fs) == Width(fs[0]) + Width(fs[1]) + Width(fs[2])
    ensures |fs| >= 4 ==>
              TotalWidth(fs) == Width(fs[0]) + Width(fs[1]) + Width(fs[2]) + Width(fs[3]) + TotalWidth(fs[4..])
  {
    if |fs| >= 4 {
      assert fs[1..][1..][1..][1..] == fs[4..];
      assert TotalWidth(fs[1..][1..]) == Width(fs[2]) + Width(fs[3]) + TotalWidth(fs[4..]);
    }
  }

  /** `Message::decode`: reads one message off the front of `buf`; later bytes are ignored. */
  function Decode(buf: Bytes): Result<Message, ProtocolError> {
    if buf == [] then Err(Truncated(1, 0)) else
      match KindOf(buf[0])
      case None => Err(UnknownMessageType(buf[0]))
      case Some(k) =>
        if |buf| - 1 < BodyLen(k) then Err(Truncated(BodyLen(k), |buf| - 1)) else
          LayoutMatchesBodyLen(k);
          match DecodeValues(Layout(k), buf[1..])
          case Err(e) => Err(e)
          case Ok(vs) => Ok(Message(k, vs))
  }

  /** `Message::encoded_len`. */
  function EncodedLen(m: Message): nat {
    1 + BodyLen(m.kind)
  }

  // ----- Round trips -----

  /** The value occupies exactly its field's bytes, whether or not it survives the trip. */
  predicate Shaped(f: Field, v: Value) {
    if f.Raw? then v.Text? && |v.bytes| == f.width else v.Num?
  }

  predicate AllShaped(fs: seq<Field>, vs: seq<Value>) {
    |fs| == |vs| && forall i :: 0 <= i < |fs| ==> Shaped(fs[i], vs[i])
  }

  lemma {:induction false} EncodeValuesLength(fs: seq<Field>, vs: seq<Value>)
    requires AllShaped(fs, vs)
    ensures |EncodeValues(fs, vs)| == TotalWidth(fs)
  {
    if fs != [] {
      assert Shaped(fs[0], vs[0]);
      EncodeValuesLength(fs[1..], vs[1..]);
    }
  }

  lemma DecodeEncodeValue(f: Field, v: Value)
    requires HasType(f, v)
    ensures |EncodeValue(f, v)| == Width(f) && DecodeValue(f, EncodeValue(f, v)) == Ok(v)
  {
    if v.Num? {
      BigEndianRoundTrip(v.n, Width(f));
      if f.Code? {
        assert BigEndian(v.n, 1) == BigEndian(v.n / 256, 0) + [v.n % 256];
      }
    }
  }

  lemma {:induction false} DecodeEncodeValues(fs: seq<Field>, vs: seq<Value>, rest: Bytes)
    requires AllTyped(fs, vs)
    ensures |EncodeValues(fs, vs)| == TotalWidth(fs)
    ensures DecodeValues(fs, EncodeValues(fs, vs) + rest) == Ok(vs)
  {
    if fs != [] {
      var head, tail := EncodeValue(fs[0], vs[0]), EncodeValues(fs[1..], vs[1..]);
      assert HasType(fs[0], vs[0]);
      DecodeEncodeValue(fs[0], vs[0]);
      DecodeEncodeValues(fs[1..], vs[1..], rest);
      Regroup(head, tail, rest);
      assert vs == [vs[0]] + vs[1..];
    } else {
      assert vs == [];
    }
  }

  lemma EncodeDecodeValue(f: Field, b: Bytes)
    requires |b| == Width(f) && DecodeValue(f, b).Ok?
    ensures HasType(f, DecodeValue(f, b).value) && EncodeValue(f, DecodeValue(f, b).value) == b
  {
    match f
    case UInt(w) =>
      FromBigEndianRoundTrip(b);
      FromBigEndianBound(b);
    case Raw(w) =>
    case Code(codes) =>
      assert BigEndian(b[0], 1) == BigEndian(b[0] / 256, 0) + [b[0] % 256];
  }

  lemma {:induction false} EncodeDecodeValues(fs: seq<Field>, b: Bytes)
    requires |b| >= TotalWidth(fs) && DecodeValues(fs, b).Ok?
    ensures AllTyped(fs, DecodeValues(fs, b).value)
    ensures EncodeValues(fs, DecodeValues(fs, b).value) == b[..TotalWidth(fs)]
  {
    if fs != [] {
      var w := Width(fs[0]);
      EncodeDecodeValue(fs[0], b[..w]);
      EncodeDecodeValues(fs[1..], b[w..]);
      var vs := DecodeValues(fs, b).value;
      assert vs[1..] == DecodeValues(fs[1..], b[w..]).value;
      assert b[..TotalWidth(fs)] == b[..w] + b[w..][..TotalWidth(fs[1..])];
    }
  }

  lemma KindOfTag(k: Kind)
    ensures KindOf(Tag(k)) == Some(k)
  {
  }

  lemma TagOfKind(tag: byte)
    ensures KindOf(tag).Some? ==> Tag(KindOf(tag).value) == tag
  {
  }

  lemma WellTypedShape(m: Message)
    requires WellTyped(m)
    ensures AllShaped(Layout(m.kind), m.values)
    ensures Encodable(m) <==> m.values[TIMESTAMP].n < 0x1_0000_0000_0000
  {
    var fs := Layout(m.kind);
    Pow256Values();
    assert fs[TIMESTAMP] == UInt(6);
    forall i | 0 <= i < |fs|
      ensures Shaped(fs[i], m.values[i])
      ensures i != TIMESTAMP ==> HasType(fs[i], m.values[i])
    {
    }
    if Encodable(m) {
      assert HasType(fs[TIMESTAMP], m.values[TIMESTAMP]);
    }
  }

  /** What decodes is the code of the decoded message: no two byte strings decode alike up to
      the announced length. */
  lemma EncodeDecode(buf: Bytes)
    requires Decode(buf).Ok?
    ensures var m := Decode(buf).value;
            Encodable(m) && EncodedLen(m) <= |buf| && Encode(m) == buf[..EncodedLen(m)]
  {
    var k := KindOf(buf[0]).value;
    TagOfKind(buf[0]);
    LayoutMatchesBodyLen(k);
    EncodeDecodeValues(Layout(k), buf[1..]);
    assert buf[..1 + BodyLen(k)] == [buf[0]] + buf[1..][..BodyLen(k)];
  }

  lemma EncodableRoundTrip(m: Message, rest: Bytes)
    requires Encodable(m)
    ensures |Encode(m)| == EncodedLen(m) && Decode(Encode(m) + rest) == Ok(m)
  {
    var fs := Layout(m.kind);
    var buf := Encode(m) + rest;
    KindOfTag(m.kind);
    LayoutMatchesBodyLen(m.kind);
    DecodeEncodeValues(fs, m.values, rest);
    assert buf[1..] == EncodeValues(fs, m.values) + rest;
  }

  /** A message comes back from its code, whatever follows it in the buffer, exactly when its
      timestamp fits the six bytes that travel. */
  lemma DecodeEncode(m: Message, rest: Bytes)
    requires WellTyped(m)
    ensures |Encode(m)| == EncodedLen(m)
    ensures Decode(Encode(m) + rest) == Ok(m) <==> m.values[TIMESTAMP].n < 0x1_0000_0000_0000
  {
    WellTypedShape(m);
    LayoutMatchesBodyLen(m.kind);
    EncodeValuesLength(Layout(m.kind), m.values);
    if Encodable(m) {
      EncodableRoundTrip(m, rest);
    }
    if Decode(Encode(m) + rest) == Ok(m) {
      EncodeDecode(Encode(m) + rest);
    }
  }
}
