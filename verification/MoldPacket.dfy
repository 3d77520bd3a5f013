/** The MoldUDP64 downstream packet: a 20-byte header followed by length-prefixed blocks. */
module MoldPacket {
  import opened Wire
  import Itch

  const HEADER_LEN := 20
  const MAX_BLOCK_LEN := 1024
  const COUNT_HEARTBEAT := 0
  const COUNT_END_OF_SESSION := 0xFFFF

  datatype Header = Header(session: Bytes, sequence: nat, count: nat) {
    predicate IsHeartbeat() { count == COUNT_HEARTBEAT }
    predicate IsEndOfSession() { count == COUNT_END_OF_SESSION }
  }

  datatype Packet = Packet(header: Header, blocks: seq<Bytes>)

  datatype MoldError =
    | Protocol(inner: Itch.ProtocolError)
    | Truncated(need: nat, got: nat)
    | BufferTooSmall(need: nat, got: nat)
    | BlockTooLarge(got: nat, max: nat)
    | EmptyBlock
    | TrailingBytes(extra: nat)
    | TooManyBlocks(got: nat)
    | SessionMismatch(expected: Bytes, found: Bytes)
    | PendingBufferFull(size: nat)
    | RequestTimeout(sequence: nat)
    | SourceExhausted

  /** The ranges of the Rust field types: a ten-byte array, a u64 and a u16. */
  predicate Typed(p: Packet) {
    |p.header.session| == 10 && p.header.sequence <= U64_MAX && p.header.count <= 0xFFFF
  }

  predicate GoodBlock(b: Bytes) {
    1 <= |b| <= MAX_BLOCK_LEN
  }

  predicate GoodBlocks(bs: seq<Bytes>) {
    forall i :: 0 <= i < |bs| ==> GoodBlock(bs[i])
  }

  /** A packet that means something on the wire: header-only, or as many in-limit blocks as announced. */
  predicate WellFormed(p: Packet) {
    Typed(p)
    && (if p.header.IsHeartbeat() || p.header.IsEndOfSession() then p.blocks == []
        else |p.blocks| == p.header.count && GoodBlocks(p.blocks))
  }

  // ----- Constructors -----

  function NewBlock(data: Bytes): (r: Result<Bytes, MoldError>)
    ensures r.Ok? <==> GoodBlock(data)
    ensures r.Ok? ==> r.value == data
  {
    if data == [] then Err(EmptyBlock)
    else if |data| > MAX_BLOCK_LEN then Err(BlockTooLarge(|data|, MAX_BLOCK_LEN))
    else Ok(data)
  }

  /** `MoldPacket::new_data`. The count 0xFFFF is reserved, so it is refused like an overflow. */
  function NewData(session: Bytes, sequence: nat, blocks: seq<Bytes>): (r: Result<Packet, MoldError>)
    ensures r.Ok? <==> |blocks| < COUNT_END_OF_SESSION
    ensures r.Ok? && |session| == 10 && sequence <= U64_MAX && GoodBlocks(blocks) ==> WellFormed(r.value)
  {
    if |blocks| >= COUNT_END_OF_SESSION then Err(TooManyBlocks(|blocks|))
    else Ok(Packet(Header(session, sequence, |blocks|), blocks))
  }

  function Heartbeat(session: Bytes, next: nat): Packet {
    Packet(Header(session, next, COUNT_HEARTBEAT), [])
  }

  function EndOfSession(session: Bytes, next: nat): Packet {
    Packet(Header(session, next, COUNT_END_OF_SESSION), [])
  }

  // ----- Code -----

  function BlocksLen(bs: seq<Bytes>): nat {
    if bs == [] then 0 else 2 + |bs[0]| + BlocksLen(bs[1..])
  }

  function WireLen(p: Packet): nat {
    HEADER_LEN + BlocksLen(p.blocks)
  }

  function EncodeHeader(h: Header): (b: Bytes)
    ensures |h.session| == 10 ==> |b| == HEADER_LEN
  {
    h.session + BigEndian(h.sequence, 8) + BigEndian(h.count, 2)
  }

  function EncodeBlocks(bs: seq<Bytes>): (b: Bytes)
    ensures |b| == BlocksLen(bs)
  {
    if bs == [] then [] else BigEndian(|bs[0]|, 2) + bs[0] + EncodeBlocks(bs[1..])
  }

  function Encoded(p: Packet): (b: Bytes)
    ensures |p.header.session| == 10 ==> |b| == WireLen(p)
  {
    EncodeHeader(p.header) + EncodeBlocks(p.blocks)
  }

  function DecodeHeader(buf: Bytes): Result<Header, MoldError> {
    if |buf| < HEADER_LEN then Err(Truncated(HEADER_LEN, |buf|))
    else Ok(Header(buf[..10], FromBigEndian(buf[10..18]), FromBigEndian(buf[18..20])))
  }

  /** `n` blocks off the front of `cur`, and what follows them. */
  function DecodeBlocks(n: nat, cur: Bytes): Result<(seq<Bytes>, Bytes), MoldError> {
    if n == 0 then Ok(([], cur))
    else if |cur| < 2 then Err(Truncated(2, |cur|))
    else
      var len := FromBigEndian(cur[..2]);
      if len == 0 then Err(EmptyBlock)
      else if len > MAX_BLOCK_LEN then Err(BlockTooLarge(len, MAX_BLOCK_LEN))
      else if |cur| - 2 < len then Err(Truncated(len, |cur| - 2))
      else
        match DecodeBlocks(n - 1, cur[2 + len..])
        case Err(e) => Err(e)
        case Ok((bs, rest)) => Ok(([cur[2..2 + len]] + bs, rest))
  }

  function Decoded(buf: Bytes): Result<Packet, MoldError> {
    match DecodeHeader(buf)
    case Err(e) => Err(e)
    case Ok(h) =>
      var cur := buf[HEADER_LEN..];
      if h.IsHeartbeat() || h.IsEndOfSession() then
        if cur != [] then Err(TrailingBytes(|cur|)) else Ok(Packet(h, []))
      else
        match DecodeBlocks(h.count, cur)
        case Err(e) => Err(e)
        case Ok((bs, rest)) => if rest != [] then Err(TrailingBytes(|rest|)) else Ok(Packet(h, bs))
  }

  // ----- The loops of the source -----

  lemma {:induction false} BlocksLenSplit(a: seq<Bytes>, b: seq<Bytes>)
    ensures BlocksLen(a + b) == BlocksLen(a) + BlocksLen(b)
  {
    if a == [] {
      assert a + b == b;
    } else {
      assert (a + b)[0] == a[0] && (a + b)[1..] == a[1..] + b;
      BlocksLenSplit(a[1..], b);
    }
  }

  lemma {:induction false} EncodeBlocksSplit(a: seq<Bytes>, b: seq<Bytes>)
    ensures EncodeBlocks(a + b) == EncodeBlocks(a) + EncodeBlocks(b)
  {
    if a == [] {
      assert a + b == b;
    } else {
      var head := BigEndian(|a[0]|, 2) + a[0];
      calc {
        EncodeBlocks(a + b);
        { assert (a + b)[0] == a[0] && (a + b)[1..] == a[1..] + b; }
        head + EncodeBlocks(a[1..] + b);
        { EncodeBlocksSplit(a[1..], b); }
        head + (EncodeBlocks(a[1..]) + EncodeBlocks(b));
        (head + EncodeBlocks(a[1..])) + EncodeBlocks(b);
        EncodeBlocks(a) + EncodeBlocks(b);
      }
    }
  }

  lemma EncodeBlocksNext(bs: seq<Bytes>, i: nat)
    requires i < |bs|
    ensures BlocksLen(bs[..i + 1]) == BlocksLen(bs[..i]) + 2 + |bs[i]| <= BlocksLen(bs)
    ensures EncodeBlocks(bs[..i + 1]) == EncodeBlocks(bs[..i]) + BigEndian(|bs[i]|, 2) + bs[i]
  {
    assert bs[..i + 1] == bs[..i] + [bs[i]];
    BlocksLenSplit(bs[..i], [bs[i]]);
    EncodeBlocksSplit(bs[..i], [bs[i]]);
    assert bs == bs[..i + 1] + bs[i + 1..];
    BlocksLenSplit(bs[..i + 1], bs[i + 1..]);
    assert EncodeBlocks([bs[i]]) == BigEndian(|bs[i]|, 2) + bs[i] + EncodeBlocks([]);
  }

  method CopyInto(buf: array<byte>, off: nat, src: Bytes)
    requires off + |src| <= buf.Length
    modifies buf
    ensures buf[..off + |src|] == old(buf[..off]) + src
    ensures forall k :: off + |src| <= k < buf.Length ==> buf[k] == old(buf[k])
  {
    var i := 0;
    while i < |src|
      invariant 0 <= i <= |src|
      invariant forall k :: 0 <= k < i ==> buf[off + k] == src[k]
      invariant forall k :: 0 <= k < off || off + i <= k < buf.Length ==> buf[k] == old(buf[k])
    {
      buf[off + i] := src[i];
      i := i + 1;
    }
  }

  /** `MoldPacket::encode`: writes the packet at the front of a buffer that is large enough and
      leaves the rest of the buffer alone; touches nothing when it is too small. */
  method Encode(p: Packet, buf: array<byte>) returns (r: Result<nat, MoldError>)
    requires |p.header.session| == 10
    modifies buf
    ensures buf.Length < WireLen(p) ==> r == Err(BufferTooSmall(WireLen(p), buf.Length)) && buf[..] == old(buf[..])
    ensures buf.Length >= WireLen(p) ==> r == Ok(WireLen(p)) && buf[..WireLen(p)] == Encoded(p)
    ensures buf.Length >= WireLen(p) ==> buf[WireLen(p)..] == old(buf[WireLen(p)..])
  {
    var total := WireLen(p);
    if buf.Length < total {
      return Err(BufferTooSmall(total, buf.Length));
    }
    CopyInto(buf, 0, EncodeHeader(p.header));
    var off := HEADER_LEN;
    var i := 0;
    while i < |p.blocks|
      invariant 0 <= i <= |p.blocks|
      invariant off == HEADER_LEN + BlocksLen(p.blocks[..i]) <= total
      invariant buf[..off] == EncodeHeader(p.header) + EncodeBlocks(p.blocks[..i])
      invariant forall k :: off <= k < buf.Length ==> buf[k] == old(buf[k])
    {
      off := EncodeBlock(p, buf, off, i);
      i := i + 1;
    }
    assert p.blocks[..i] == p.blocks;
    return Ok(total);
  }

  /** One turn of the encoding loop. */
  method EncodeBlock(p: Packet, buf: array<byte>, off: nat, i: nat) returns (off': nat)
    requires i < |p.blocks| && WireLen(p) <= buf.Length
    requires off == HEADER_LEN + BlocksLen(p.blocks[..i]) <= WireLen(p)
    requires buf[..off] == EncodeHeader(p.header) + EncodeBlocks(p.blocks[..i])
    modifies buf
    ensures off <= off' == HEADER_LEN + BlocksLen(p.blocks[..i + 1]) <= WireLen(p)
    ensures buf[..off'] == EncodeHeader(p.header) + EncodeBlocks(p.blocks[..i + 1])
    ensures forall k :: off' <= k < buf.Length ==> buf[k] == old(buf[k])
  {
    var src := BigEndian(|p.blocks[i]|, 2) + p.blocks[i];
    EncodeBlocksNext(p.blocks, i);
    CopyInto(buf, off, src);
    off' := off + |src|;
  }

  /** `MoldPacket::decode`. */
  method Decode(buf: Bytes) returns (r: Result<Packet, MoldError>)
    ensures r == Decoded(buf)
  {
    var header;
    match DecodeHeader(buf) {
      case Err(e) => return Err(e);
      case Ok(h) => header := h;
    }
    var cursor := buf[HEADER_LEN..];
    if header.IsHeartbeat() || header.IsEndOfSession() {
      if cursor != [] {
        return Err(TrailingBytes(|cursor|));
      }
      return Ok(Packet(header, []));
    }
    var blocks: seq<Bytes> := [];
    ghost var all := DecodeBlocks(header.count, cursor);
    assert all.Ok? ==> blocks + all.value.0 == all.value.0;
    for i := 0 to header.count
      invariant all == match DecodeBlocks(header.count - i, cursor)
                       case Err(e) => Err(e)
                       case Ok((bs, rest)) => Ok((blocks + bs, rest))
    {
      if |cursor| < 2 {
        return Err(Truncated(2, |cursor|));
      }
      var len := FromBigEndian(cursor[..2]);
      if len == 0 {
        return Err(EmptyBlock);
      }
      if len > MAX_BLOCK_LEN {
        return Err(BlockTooLarge(len, MAX_BLOCK_LEN));
      }
      if |cursor| - 2 < len {
        return Err(Truncated(len, |cursor| - 2));
      }
      ghost var next := DecodeBlocks(header.count - i - 1, cursor[2 + len..]);
      assert next.Ok? ==>
          blocks + ([cursor[2..2 + len]] + next.value.0) == (blocks + [cursor[2..2 + len]]) + next.value.0;
      blocks := blocks + [cursor[2..2 + len]];
      cursor := cursor[2 + len..];
    }
    assert blocks + [] == blocks;
    if cursor != [] {
      return Err(TrailingBytes(|cursor|));
    }
    return Ok(Packet(header, blocks));
  }

  // ----- Round trips -----

  lemma U16RoundTrip(n: nat)
    requires n <= 0xFFFF
    ensures FromBigEndian(BigEndian(n, 2)) == n
  {
    Pow256Values();
    BigEndianRoundTrip(n, 2);
  }

  lemma EncodedBlockSlices(b: Bytes, tail: Bytes)
    requires GoodBlock(b)
    ensures var cur := BigEndian(|b|, 2) + b + tail;
            FromBigEndian(cur[..2]) == |b| && cur[2..2 + |b|] == b && cur[2 + |b|..] == tail
  {
    U16RoundTrip(|b|);
    assert (BigEndian(|b|, 2) + b + tail)[..2] == BigEndian(|b|, 2);
  }

  lemma {:induction false} DecodeEncodeBlocks(bs: seq<Bytes>, rest: Bytes)
    requires GoodBlocks(bs)
    ensures DecodeBlocks(|bs|, EncodeBlocks(bs) + rest) == Ok((bs, rest))
  {
    if bs == [] {
      assert EncodeBlocks(bs) + rest == rest;
    } else {
      var tail := EncodeBlocks(bs[1..]) + rest;
      assert EncodeBlocks(bs) + rest == BigEndian(|bs[0]|, 2) + bs[0] + tail;
      EncodedBlockSlices(bs[0], tail);
      DecodeEncodeBlocks(bs[1..], rest);
      assert bs == [bs[0]] + bs[1..];
    }
  }

  lemma EncodeBlocksCons(block: Bytes, bs: seq<Bytes>, rest: Bytes)
    ensures EncodeBlocks([block] + bs) + rest == BigEndian(|block|, 2) + block + (EncodeBlocks(bs) + rest)
  {
    assert ([block] + bs)[1..] == bs;
    Regroup(BigEndian(|block|, 2) + block, EncodeBlocks(bs), rest);
  }

  lemma DecodeBlocksStep(n: nat, cur: Bytes)
    requires n > 0 && DecodeBlocks(n, cur).Ok?
    ensures var len := FromBigEndian(cur[..2]);
            1 <= len <= MAX_BLOCK_LEN && 2 + len <= |cur| && DecodeBlocks(n - 1, cur[2 + len..]).Ok?
            && var (bs, rest) := DecodeBlocks(n - 1, cur[2 + len..]).value;
               DecodeBlocks(n, cur).value == ([cur[2..2 + len]] + bs, rest)
  {
  }

  lemma {:induction false} EncodeDecodeBlocks(n: nat, cur: Bytes)
    requires DecodeBlocks(n, cur).Ok?
    ensures var (bs, rest) := DecodeBlocks(n, cur).value;
            |bs| == n && GoodBlocks(bs) && EncodeBlocks(bs) + rest == cur
  {
    if n > 0 {
      hide DecodeBlocks, EncodeBlocks, FromBigEndian, BigEndian;
      DecodeBlocksStep(n, cur);
      var len := FromBigEndian(cur[..2]);
      var block, tail := cur[2..2 + len], cur[2 + len..];
      EncodeDecodeBlocks(n - 1, tail);
      FromBigEndianRoundTrip(cur[..2]);
      var (bs, rest) := DecodeBlocks(n - 1, tail).value;
      EncodeBlocksCons(block, bs, rest);
      ThreeParts(cur, len);
    }
  }

  lemma ThreeParts(cur: Bytes, len: nat)
    requires 2 + len <= |cur|
    ensures cur[..2] + cur[2..2 + len] + cur[2 + len..] == cur
  {
  }

  lemma DecodeEncodeHeader(h: Header, rest: Bytes)
    requires |h.session| == 10 && h.sequence <= U64_MAX && h.count <= 0xFFFF
    ensures DecodeHeader(EncodeHeader(h) + rest) == Ok(h)
    ensures (EncodeHeader(h) + rest)[HEADER_LEN..] == rest
  {
    var buf := EncodeHeader(h) + rest;
    Pow256Values();
    BigEndianRoundTrip(h.sequence, 8);
    BigEndianRoundTrip(h.count, 2);
    assert buf[..10] == h.session && buf[10..18] == BigEndian(h.sequence, 8) && buf[18..20] == BigEndian(h.count, 2);
  }

  lemma EncodeDecodeHeader(buf: Bytes)
    requires |buf| >= HEADER_LEN
    ensures var h := DecodeHeader(buf).value;
            |h.session| == 10 && h.sequence <= U64_MAX && h.count <= 0xFFFF && EncodeHeader(h) == buf[..HEADER_LEN]
  {
    Pow256Values();
    FromBigEndianRoundTrip(buf[10..18]);
    FromBigEndianBound(buf[10..18]);
    FromBigEndianRoundTrip(buf[18..20]);
    FromBigEndianBound(buf[18..20]);
    assert buf[..HEADER_LEN] == buf[..10] + buf[10..18] + buf[18..20];
  }

  /** Every buffer that decodes is the code of the packet it decodes to. */
  lemma EncodeDecode(buf: Bytes)
    requires Decoded(buf).Ok?
    ensures WellFormed(Decoded(buf).value) && Encoded(Decoded(buf).value) == buf
  {
    EncodeDecodeHeader(buf);
    var h := DecodeHeader(buf).value;
    assert buf == buf[..HEADER_LEN] + buf[HEADER_LEN..];
    if !h.IsHeartbeat() && !h.IsEndOfSession() {
      EncodeDecodeBlocks(h.count, buf[HEADER_LEN..]);
    }
  }

  /** A packet survives the wire exactly when it is well formed. */
  lemma DecodeEncode(p: Packet)
    requires Typed(p)
    ensures Decoded(Encoded(p)) == Ok(p) <==> WellFormed(p)
  {
    if WellFormed(p) {
      DecodeEncodeHeader(p.header, EncodeBlocks(p.blocks));
      DecodeEncodeBlocks(p.blocks, []);
      assert EncodeBlocks(p.blocks) + [] == EncodeBlocks(p.blocks);
    }
    if Decoded(Encoded(p)) == Ok(p) {
      EncodeDecode(Encoded(p));
    }
  }

  // ----- Layout -----

  /** Where each field of the header travels: the session in bytes 0 to 9, the sequence number in
      10 to 17, the count in 18 and 19. */
  lemma HeaderLayout(p: Packet)
    requires WellFormed(p)
    ensures var b := Encoded(p);
            && |b| == WireLen(p) && b[..10] == p.header.session
            && FromBigEndian(b[10..18]) == p.header.sequence && FromBigEndian(b[18..20]) == p.header.count
  {
    hide EncodeHeader, EncodeBlocks;
    DecodeEncodeHeader(p.header, EncodeBlocks(p.blocks));
  }

  lemma SliceAfter(a: Bytes, b: Bytes, from: nat, to: nat)
    requires from <= to <= |b|
    ensures (a + b)[|a| + from..|a| + to] == b[from..to]
  {
  }

  lemma EncodeBlocksAround(bs: seq<Bytes>, k: nat)
    requires k < |bs|
    ensures EncodeBlocks(bs) == EncodeBlocks(bs[..k]) + (BigEndian(|bs[k]|, 2) + bs[k] + EncodeBlocks(bs[k + 1..]))
  {
    hide BigEndian, BlocksLen;
    assert bs == bs[..k] + bs[k..] && bs[k..][0] == bs[k] && bs[k..][1..] == bs[k + 1..];
    EncodeBlocksSplit(bs[..k], bs[k..]);
  }

  /** Where each block travels: after the blocks before it, its length in two bytes, then its body. */
  lemma BlockLayout(bs: seq<Bytes>, k: nat)
    requires GoodBlocks(bs) && k < |bs|
    ensures var b, at := EncodeBlocks(bs), BlocksLen(bs[..k]);
            && at + 2 + |bs[k]| <= |b| && FromBigEndian(b[at..at + 2]) == |bs[k]|
            && b[at + 2..at + 2 + |bs[k]|] == bs[k]
  {
    hide EncodeBlocks, BigEndian, FromBigEndian, BlocksLen;
    var before, rest := EncodeBlocks(bs[..k]), BigEndian(|bs[k]|, 2) + bs[k] + EncodeBlocks(bs[k + 1..]);
    EncodeBlocksAround(bs, k);
    EncodedBlockSlices(bs[k], EncodeBlocks(bs[k + 1..]));
    SliceAfter(before, rest, 0, 2);
    SliceAfter(before, rest, 2, 2 + |bs[k]|);
    assert rest[0..2] == rest[..2];
  }
}
