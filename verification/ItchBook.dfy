/** From the bytes of a message to what the order books see of it. */
module ItchBook {
  import opened Wire
  import opened Itch
  import Book

  // ----- Where a field travels -----

  /** The place of field `i` in the code of a message, the tag being byte 0. */
  function Offset(k: Kind, i: nat): nat
    requires i <= |Layout(k)|
  {
    1 + TotalWidth(Layout(k)[..i])
  }

  lemma OffsetNext(k: Kind, i: nat)
    requires i < |Layout(k)|
    ensures Offset(k, 0) == 1 && Offset(k, i + 1) == Offset(k, i) + Width(Layout(k)[i])
  {
    var fs := Layout(k);
    hide Layout;
    assert fs[..i + 1] == fs[..i] + [fs[i]];
    TotalWidthAppend(fs[..i], [fs[i]]);
    OneField(fs[i]);
  }

  lemma {:induction false} DecodedAt(fs: seq<Field>, b: Bytes, i: nat)
    requires |b| >= TotalWidth(fs) && DecodeValues(fs, b).Ok? && i < |fs|
    ensures var at, w := TotalWidth(fs[..i]), Width(fs[i]);
            && at + w <= TotalWidth(fs) && |DecodeValues(fs, b).value| == |fs|
            && DecodeValue(fs[i], b[at..at + w]) == Ok(DecodeValues(fs, b).value[i])
  {
    hide DecodeValue;
    var first := Width(fs[0]);
    if i == 0 {
      assert fs[..0] == [] && b[0..first] == b[..first];
      if |fs| > 1 {
        DecodedAt(fs[1..], b[first..], 0);
      }
    } else {
      DecodedAt(fs[1..], b[first..], i - 1);
      assert fs[..i][1..] == fs[1..][..i - 1];
      var at, w := TotalWidth(fs[1..][..i - 1]), Width(fs[i]);
      assert b[first..][at..at + w] == b[first + at..first + at + w];
    }
  }

  lemma DecodedFrom(buf: Bytes)
    requires Decode(buf).Ok?
    ensures var m := Decode(buf).value;
            && buf != [] && KindOf(buf[0]) == Some(m.kind) && buf[0] == Tag(m.kind)
            && TotalWidth(Layout(m.kind)) == BodyLen(m.kind) && EncodedLen(m) <= |buf|
            && DecodeValues(Layout(m.kind), buf[1..]) == Ok(m.values)
  {
    TagOfKind(buf[0]);
    LayoutMatchesBodyLen(KindOf(buf[0]).value);
    hide Layout, Tag, KindOf, BodyLen, TotalWidth, DecodeValues;
  }

  lemma SliceBehindTag(buf: Bytes, at: nat, w: nat)
    requires 1 + at + w <= |buf|
    ensures buf[1..][at..at + w] == buf[1 + at..1 + at + w]
  {
  }

  lemma FieldBehindTag(fs: seq<Field>, buf: Bytes, vs: seq<Value>, i: nat)
    requires |buf| >= 1 + TotalWidth(fs) && DecodeValues(fs, buf[1..]) == Ok(vs) && i < |fs|
    ensures var at, w := 1 + TotalWidth(fs[..i]), Width(fs[i]);
            && at + w <= 1 + TotalWidth(fs) && |vs| == |fs| && DecodeValue(fs[i], buf[at..at + w]) == Ok(vs[i])
  {
    hide DecodeValue, DecodeValues, TotalWidth, Width;
    DecodedAt(fs, buf[1..], i);
    SliceBehindTag(buf, TotalWidth(fs[..i]), Width(fs[i]));
  }

  /** Every value of a decoded message is read from the bytes at its field's place, and nowhere else. */
  lemma FieldAt(buf: Bytes, i: nat)
    requires Decode(buf).Ok? && i < |Layout(Decode(buf).value.kind)|
    ensures var m := Decode(buf).value;
            var at, f := Offset(m.kind, i), Layout(m.kind)[i];
            && buf[0] == Tag(m.kind) && at + Width(f) <= EncodedLen(m) <= |buf| && |m.values| == |Layout(m.kind)|
            && DecodeValue(f, buf[at..at + Width(f)]) == Ok(m.values[i])
  {
    hide Decode, Layout, Tag, KindOf, BodyLen, DecodeValue, TotalWidth, DecodeValues, Width;
    DecodedFrom(buf);
    FieldBehindTag(Layout(Decode(buf).value.kind), buf, Decode(buf).value.values, i);
  }

  /** A number that travels in `w` bytes at `at`. */
  lemma NumberAt(buf: Bytes, i: nat, at: nat, w: nat)
    requires Decode(buf).Ok? && i < |Layout(Decode(buf).value.kind)|
    requires Layout(Decode(buf).value.kind)[i] == UInt(w) && Offset(Decode(buf).value.kind, i) == at
    ensures |Decode(buf).value.values| == |Layout(Decode(buf).value.kind)|
    ensures at + w <= |buf| && Decode(buf).value.values[i] == Num(FromBigEndian(buf[at..at + w]))
  {
    FieldAt(buf, i);
    hide Decode, Layout, Offset, FromBigEndian, BodyLen;
  }

  lemma RawAt(buf: Bytes, i: nat, at: nat, w: nat)
    requires Decode(buf).Ok? && i < |Layout(Decode(buf).value.kind)|
    requires Layout(Decode(buf).value.kind)[i] == Raw(w) && Offset(Decode(buf).value.kind, i) == at
    ensures |Decode(buf).value.values| == |Layout(Decode(buf).value.kind)|
    ensures at + w <= |buf| && Decode(buf).value.values[i] == Text(buf[at..at + w])
  {
    FieldAt(buf, i);
    hide Decode, Layout, Offset, BodyLen;
  }

  lemma CodeAt(buf: Bytes, i: nat, at: nat)
    requires Decode(buf).Ok? && i < |Layout(Decode(buf).value.kind)|
    requires Layout(Decode(buf).value.kind)[i].Code? && Offset(Decode(buf).value.kind, i) == at
    ensures |Decode(buf).value.values| == |Layout(Decode(buf).value.kind)|
    ensures at < |buf| && Decode(buf).value.values[i] == Num(buf[at])
  {
    FieldAt(buf, i);
    hide Decode, Layout, Offset, BodyLen;
  }

  // ----- The header -----

  lemma HeaderOffsets(k: Kind)
    ensures |Layout(k)| >= 3 && Offset(k, 0) == 1 && Offset(k, 1) == 3 && Offset(k, 2) == 5 && Offset(k, 3) == 11
  {
    hide Offset, Payload;
    OffsetNext(k, 0);
    OffsetNext(k, 1);
    OffsetNext(k, 2);
  }

  /** In every message, of whatever kind: the locate in bytes 1 and 2, the tracking number in 3 and
      4, the timestamp in 5 to 10. */
  lemma HeaderBytes(buf: Bytes)
    requires Decode(buf).Ok?
    ensures var m := Decode(buf).value;
            && |buf| >= 12 && |m.values| > 3
            && m.values[0] == Num(FromBigEndian(buf[1..3])) && m.values[1] == Num(FromBigEndian(buf[3..5]))
            && m.values[TIMESTAMP] == Num(FromBigEndian(buf[5..11]))
  {
    var k := Decode(buf).value.kind;
    HeaderOffsets(k);
    assert Layout(k)[0] == UInt(2) && Layout(k)[1] == UInt(2) && Layout(k)[2] == UInt(6) && |Layout(k)| > 3;
    FieldAt(buf, 0);
    hide Decode, Layout, Offset, FromBigEndian;
    NumberAt(buf, 0, 1, 2);
    NumberAt(buf, 1, 3, 2);
    NumberAt(buf, 2, 5, 6);
  }

  // ----- What the books see -----

  function SideOf(code: nat): Book.Side {
    if code == 'B' as int then Book.Buy else Book.Sell
  }

  function Number(v: Value): nat {
    match v
    case Num(n) => n
    case Text(b) => FromBigEndian(b)
  }

  /** The book's view of a message, field by field. Names of eight and four characters are numbers here. */
  function View(m: Message): Book.Message
    requires |m.values| == |Layout(m.kind)|
  {
    var v := m.values;
    match m.kind
    case AddOrder => Book.AddOrder(Number(v[0]), Number(v[3]), SideOf(Number(v[4])), Number(v[5]), Number(v[7]))
    case AddOrderWithMpid =>
      Book.AddOrderWithMpid(Number(v[0]), Number(v[3]), SideOf(Number(v[4])), Number(v[5]), Number(v[7]), Number(v[8]))
    case OrderExecuted => Book.OrderExecuted(Number(v[0]), Number(v[3]), Number(v[4]))
    case OrderExecutedWithPrice =>
      Book.OrderExecutedWithPrice(Number(v[0]), Number(v[3]), Number(v[4]), Number(v[7]))
    case OrderCancel => Book.OrderCancel(Number(v[0]), Number(v[3]), Number(v[4]))
    case OrderDelete => Book.OrderDelete(Number(v[0]), Number(v[3]))
    case OrderReplace => Book.OrderReplace(Number(v[0]), Number(v[3]), Number(v[4]), Number(v[5]), Number(v[6]))
    case StockDirectory => Book.StockDirectory(Number(v[0]), Number(v[3]))
    case _ => Book.Other(Number(v[0]))
  }

  /** The bytes from `from` up to `to`, as a number; zero past the end of the buffer. */
  function At(buf: Bytes, from: nat, to: nat): nat {
    if from <= to <= |buf| then FromBigEndian(buf[from..to]) else 0
  }

  function SideAt(buf: Bytes, at: nat): Book.Side {
    if at < |buf| && buf[at] == 'B' as int then Book.Buy else Book.Sell
  }

  /** The same, straight from the bytes of the wire. */
  function ByteView(buf: Bytes): Book.Message {
    var locate, ref := At(buf, 1, 3), At(buf, 11, 19);
    if buf == [] then Book.Other(locate)
    else
      match buf[0] as char
      case 'A' => Book.AddOrder(locate, ref, SideAt(buf, 19), At(buf, 20, 24), At(buf, 32, 36))
      case 'F' => Book.AddOrderWithMpid(locate, ref, SideAt(buf, 19), At(buf, 20, 24), At(buf, 32, 36), At(buf, 36, 40))
      case 'E' => Book.OrderExecuted(locate, ref, At(buf, 19, 23))
      case 'C' => Book.OrderExecutedWithPrice(locate, ref, At(buf, 19, 23), At(buf, 32, 36))
      case 'X' => Book.OrderCancel(locate, ref, At(buf, 19, 23))
      case 'D' => Book.OrderDelete(locate, ref)
      case 'U' => Book.OrderReplace(locate, ref, At(buf, 19, 27), At(buf, 27, 31), At(buf, 31, 35))
      case 'R' => Book.StockDirectory(locate, ref)
      case _ => Book.Other(locate)
  }

  /** Each field follows the one before it. */
  lemma PayloadOffset(k: Kind, i: nat)
    requires i < |Payload(k)|
    ensures Offset(k, 4 + i) == Offset(k, 3 + i) + Width(Payload(k)[i]) && Layout(k)[3 + i] == Payload(k)[i]
  {
    hide Offset, Payload;
    OffsetNext(k, 3 + i);
  }

  lemma AddOrderOffsets(k: Kind)
    requires k == AddOrder || k == AddOrderWithMpid
    ensures var fs := Layout(k);
            && |fs| >= 8 && fs[3] == UInt(8) && fs[4].Code? && fs[5] == UInt(4) && fs[7] == UInt(4)
            && Offset(k, 3) == 11 && Offset(k, 4) == 19 && Offset(k, 5) == 20
            && Offset(k, 7) == 32 && Offset(k, 8) == 36
  {
    hide Offset;
    HeaderOffsets(k);
    PayloadOffset(k, 0);
    PayloadOffset(k, 1);
    PayloadOffset(k, 2);
    PayloadOffset(k, 3);
    PayloadOffset(k, 4);
  }

  lemma AddOrderBytes(buf: Bytes)
    requires Decode(buf).Ok? && (Decode(buf).value.kind == AddOrder || Decode(buf).value.kind == AddOrderWithMpid)
    ensures var v := Decode(buf).value.values;
            && |v| >= 8 && |buf| >= 36
            && v[3] == Num(FromBigEndian(buf[11..19])) && v[4] == Num(buf[19])
            && v[5] == Num(FromBigEndian(buf[20..24])) && v[7] == Num(FromBigEndian(buf[32..36]))
  {
    hide Decode, Offset, Layout, FromBigEndian;
    AddOrderOffsets(Decode(buf).value.kind);
    NumberAt(buf, 3, 11, 8);
    CodeAt(buf, 4, 19);
    NumberAt(buf, 5, 20, 4);
    NumberAt(buf, 7, 32, 4);
  }

  lemma MpidBytes(buf: Bytes)
    requires Decode(buf).Ok? && Decode(buf).value.kind == AddOrderWithMpid
    ensures |Decode(buf).value.values| > 8 && |buf| >= 40 && Decode(buf).value.values[8] == Text(buf[36..40])
  {
    hide Decode, Offset;
    AddOrderOffsets(AddOrderWithMpid);
    RawAt(buf, 8, 36, 4);
  }

  /** Executions and cancels start alike. */
  lemma ReductionBytes(buf: Bytes)
    requires Decode(buf).Ok?
    requires Decode(buf).value.kind in {OrderExecuted, OrderExecutedWithPrice, OrderCancel}
    ensures var v := Decode(buf).value.values;
            && |v| >= 5 && |buf| >= 23
            && v[3] == Num(FromBigEndian(buf[11..19])) && v[4] == Num(FromBigEndian(buf[19..23]))
  {
    var k := Decode(buf).value.kind;
    hide Decode, Offset, FromBigEndian;
    HeaderOffsets(k);
    PayloadOffset(k, 0);
    PayloadOffset(k, 1);
    hide Payload;
    NumberAt(buf, 3, 11, 8);
    NumberAt(buf, 4, 19, 4);
  }

  lemma ExecutionPriceBytes(buf: Bytes)
    requires Decode(buf).Ok? && Decode(buf).value.kind == OrderExecutedWithPrice
    ensures var v := Decode(buf).value.values;
            |v| > 7 && |buf| >= 36 && v[7] == Num(FromBigEndian(buf[32..36]))
  {
    hide Decode, Offset, FromBigEndian;
    HeaderOffsets(OrderExecutedWithPrice);
    PayloadOffset(OrderExecutedWithPrice, 0);
    PayloadOffset(OrderExecutedWithPrice, 1);
    PayloadOffset(OrderExecutedWithPrice, 2);
    PayloadOffset(OrderExecutedWithPrice, 3);
    PayloadOffset(OrderExecutedWithPrice, 4);
    NumberAt(buf, 7, 32, 4);
  }

  lemma DeleteBytes(buf: Bytes)
    requires Decode(buf).Ok? && Decode(buf).value.kind == OrderDelete
    ensures var v := Decode(buf).value.values;
            |v| > 3 && |buf| >= 19 && v[3] == Num(FromBigEndian(buf[11..19]))
  {
    HeaderOffsets(OrderDelete);
    assert Layout(OrderDelete)[3] == UInt(8);
    hide Decode, Offset, FromBigEndian;
    NumberAt(buf, 3, 11, 8);
  }

  lemma ReplaceBytes(buf: Bytes)
    requires Decode(buf).Ok? && Decode(buf).value.kind == OrderReplace
    ensures var v := Decode(buf).value.values;
            && |v| > 6 && |buf| >= 35
            && v[3] == Num(FromBigEndian(buf[11..19])) && v[4] == Num(FromBigEndian(buf[19..27]))
            && v[5] == Num(FromBigEndian(buf[27..31])) && v[6] == Num(FromBigEndian(buf[31..35]))
  {
    hide Decode, Offset, FromBigEndian;
    HeaderOffsets(OrderReplace);
    PayloadOffset(OrderReplace, 0);
    PayloadOffset(OrderReplace, 1);
    PayloadOffset(OrderReplace, 2);
    PayloadOffset(OrderReplace, 3);
    NumberAt(buf, 3, 11, 8);
    NumberAt(buf, 4, 19, 8);
    NumberAt(buf, 5, 27, 4);
    NumberAt(buf, 6, 31, 4);
  }

  lemma DirectoryBytes(buf: Bytes)
    requires Decode(buf).Ok? && Decode(buf).value.kind == StockDirectory
    ensures var v := Decode(buf).value.values;
            |v| > 3 && |buf| >= 19 && v[3] == Text(buf[11..19])
  {
    HeaderOffsets(StockDirectory);
    assert Layout(StockDirectory)[3] == Raw(8);
    hide Decode, Offset;
    RawAt(buf, 3, 11, 8);
  }

  lemma Tagged(buf: Bytes)
    requires Decode(buf).Ok?
    ensures var m := Decode(buf).value;
            && |m.values| == |Layout(m.kind)| && |m.values| > 3 && |buf| >= 12 && buf[0] == Tag(m.kind)
            && m.values[0] == Num(FromBigEndian(buf[1..3]))
  {
    hide Decode, Layout, FromBigEndian, Offset, Tag, DecodeValue;
    HeaderOffsets(Decode(buf).value.kind);
    FieldAt(buf, 0);
    HeaderBytes(buf);
  }

  lemma ViewOfAdd(buf: Bytes)
    requires Decode(buf).Ok? && (Decode(buf).value.kind == AddOrder || Decode(buf).value.kind == AddOrderWithMpid)
    ensures |Decode(buf).value.values| == |Layout(Decode(buf).value.kind)|
    ensures View(Decode(buf).value) == ByteView(buf)
  {
    hide Decode, FromBigEndian;
    Tagged(buf);
    AddOrderBytes(buf);
    if Decode(buf).value.kind == AddOrderWithMpid {
      MpidBytes(buf);
    }
  }

  lemma ViewOfReduction(buf: Bytes)
    requires Decode(buf).Ok?
    requires Decode(buf).value.kind in {OrderExecuted, OrderExecutedWithPrice, OrderCancel}
    ensures |Decode(buf).value.values| == |Layout(Decode(buf).value.kind)|
    ensures View(Decode(buf).value) == ByteView(buf)
  {
    hide Decode, FromBigEndian;
    Tagged(buf);
    ReductionBytes(buf);
    if Decode(buf).value.kind == OrderExecutedWithPrice {
      ExecutionPriceBytes(buf);
    }
  }

  lemma ViewOfOther(buf: Bytes)
    requires Decode(buf).Ok?
    requires Decode(buf).value.kind !in {AddOrder, AddOrderWithMpid, OrderExecuted, OrderExecutedWithPrice, OrderCancel}
    ensures |Decode(buf).value.values| == |Layout(Decode(buf).value.kind)|
    ensures View(Decode(buf).value) == ByteView(buf)
  {
    hide Decode, FromBigEndian, Layout;
    Tagged(buf);
    match Decode(buf).value.kind
    case OrderDelete => DeleteBytes(buf);
    case OrderReplace => ReplaceBytes(buf);
    case StockDirectory => DirectoryBytes(buf);
    case _ =>
  }

  /** What the books see of a message is what its bytes say at the places the format gives them:
      tag, locate, reference, side, shares, prices and attribution are not mixed up on the way. */
  lemma ViewOfBytes(buf: Bytes)
    requires Decode(buf).Ok?
    ensures |Decode(buf).value.values| == |Layout(Decode(buf).value.kind)|
    ensures View(Decode(buf).value) == ByteView(buf)
  {
    hide Decode, Layout, View, ByteView;
    match Decode(buf).value.kind
    case AddOrder => ViewOfAdd(buf);
    case AddOrderWithMpid => ViewOfAdd(buf);
    case OrderExecuted => ViewOfReduction(buf);
    case OrderExecutedWithPrice => ViewOfReduction(buf);
    case OrderCancel => ViewOfReduction(buf);
    case _ => ViewOfOther(buf);
  }
}
