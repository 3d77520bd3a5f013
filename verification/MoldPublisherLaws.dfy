/** Packing conserves the source: what is on the wire is the encoded source, in order, correctly
    numbered and within the MTU. */
module MoldPublisherLaws {
  import opened Wire
  import opened MoldPacket
  import opened MoldCache
  import opened MoldPublisher

  /** The blocks of a list of packets, in order. */
  function AllBlocks(ps: seq<Packet>): seq<Bytes> {
    if ps == [] then [] else AllBlocks(ps[..|ps| - 1]) + ps[|ps| - 1].blocks
  }

  /** The source item a turn takes on, if any. */
  function Taken(p: State, input: Input): seq<Bytes> {
    if p.status == Running && input.Item? && !OnItem(p, input.body).status.Failed? then [input.body] else []
  }

  /** Everything taken on from the source over a run. */
  function Feed(p: State, inputs: seq<Input>): seq<Bytes> {
    if inputs == [] then [] else
      var front := inputs[..|inputs| - 1];
      Feed(p, front) + Taken(Turns(p, front), inputs[|inputs| - 1])
  }

  /** A data packet, a heartbeat or an end-of-session packet of this session. */
  predicate Proper(session: Bytes, pkt: Packet) {
    pkt.header.session == session
    && (if pkt.blocks == [] then pkt.header.IsHeartbeat() || pkt.header.IsEndOfSession()
        else pkt.header.count == |pkt.blocks| < COUNT_END_OF_SESSION)
  }

  /** Every packet carries the number of the first block not yet sent before it. */
  predicate Numbered(session: Bytes, start: nat, ps: seq<Packet>) {
    forall i :: 0 <= i < |ps| ==>
      Proper(session, ps[i]) && ps[i].header.sequence == start + |AllBlocks(ps[..i])|
  }

  /** Only a packet of a single block may be larger than the budget. */
  predicate WithinMtu(mtu: nat, ps: seq<Packet>) {
    forall i :: 0 <= i < |ps| ==> |ps[i].blocks| <= 1 || WireLen(ps[i]) <= mtu
  }

  predicate PendingOk(p: State, start: nat) {
    p.pending != [] ==>
      p.first == start + |AllBlocks(p.sent)|
      && p.size == HEADER_LEN + BlocksLen(p.pending)
      && (|p.pending| == 1 || p.size <= p.mtu)
  }

  predicate Conserved(p: State, start: nat, feed: seq<Bytes>) {
    if p.status.Failed? then AllBlocks(p.sent) <= feed else AllBlocks(p.sent) + p.pending == feed
  }

  predicate Packed(p: State, start: nat, feed: seq<Bytes>) {
    p.next == start + |feed| <= U64_MAX
    && Numbered(p.session, start, p.sent)
    && WithinMtu(p.mtu, p.sent)
    && PendingOk(p, start)
    && Conserved(p, start, feed)
    && (p.status == Finished ==> p.pending == [])
    && p.cached == Labelled(start, AllBlocks(p.sent))
  }

  lemma AllBlocksSnoc(ps: seq<Packet>, pkt: Packet)
    ensures AllBlocks(ps + [pkt]) == AllBlocks(ps) + pkt.blocks
  {
    assert (ps + [pkt])[..|ps|] == ps;
  }

  lemma {:induction false} AllBlocksSplit(ps: seq<Packet>, i: nat)
    requires i < |ps|
    ensures AllBlocks(ps[..i]) + ps[i].blocks <= AllBlocks(ps)
  {
    var n := |ps| - 1;
    if i < n {
      AllBlocksSplit(ps[..n], i);
      assert ps[..n][..i] == ps[..i];
    }
  }

  lemma NumberedSnoc(session: Bytes, start: nat, ps: seq<Packet>, pkt: Packet)
    requires Numbered(session, start, ps) && Proper(session, pkt)
    requires pkt.header.sequence == start + |AllBlocks(ps)|
    ensures Numbered(session, start, ps + [pkt])
  {
    var qs := ps + [pkt];
    forall i | 0 <= i < |qs| ensures Proper(session, qs[i]) && qs[i].header.sequence == start + |AllBlocks(qs[..i])| {
      if i < |ps| {
        assert qs[..i] == ps[..i];
      } else {
        assert qs[..i] == ps;
      }
    }
  }

  lemma {:induction false} LabelledAppend(first: nat, a: seq<Bytes>, b: seq<Bytes>)
    requires first + |a| <= U64_MAX
    ensures Labelled(first, a + b) == Labelled(first, a) + Labelled(first + |a|, b)
    decreases |a|
  {
    if a == [] {
      assert a + b == b;
    } else {
      assert (a + b)[0] == a[0] && (a + b)[1..] == a[1..] + b;
      LabelledAppend(first + 1, a[1..], b);
    }
  }

  lemma FlushPacked(p: State, start: nat, feed: seq<Bytes>)
    requires Packed(p, start, feed) && p.status == Running
    ensures Packed(Flush(p), start, feed) && Flush(p).pending == []
    ensures Flush(p).status == Running || Flush(p).status.Failed?
    ensures Flush(p).status == Running ==> AllBlocks(Flush(p).sent) == feed
  {
    hide Labelled, AllBlocks, BlocksLen;
    if p.pending != [] {
      var r := NewData(p.session, p.first, p.pending);
      if r.Ok? {
        AllBlocksSnoc(p.sent, r.value);
        NumberedSnoc(p.session, start, p.sent, r.value);
        LabelledAppend(start, AllBlocks(p.sent), p.pending);
      }
    }
  }

  lemma HeaderOnlyPacked(p: State, start: nat, feed: seq<Bytes>, pkt: Packet)
    requires Packed(p, start, feed) && p.status == Running && p.pending == []
    requires Proper(p.session, pkt) && pkt.blocks == [] && pkt.header.sequence == p.next
    ensures Packed(p.(sent := p.sent + [pkt]), start, feed)
  {
    AllBlocksSnoc(p.sent, pkt);
    assert AllBlocks(p.sent) + [] == AllBlocks(p.sent);
    NumberedSnoc(p.session, start, p.sent, pkt);
  }

  lemma {:induction false} EndBurstPacked(p: State, start: nat, feed: seq<Bytes>, n: nat)
    requires Packed(p, start, feed) && p.status == Running && p.pending == []
    ensures Packed(EndBurst(p, n), start, feed) && EndBurst(p, n).status == Finished
    decreases n
  {
    if n > 0 {
      var pkt := MoldPacket.EndOfSession(p.session, p.next);
      HeaderOnlyPacked(p, start, feed, pkt);
      EndBurstPacked(p.(sent := p.sent + [pkt]), start, feed, n - 1);
    }
  }

  lemma AppendPacked(p: State, start: nat, feed: seq<Bytes>, body: Bytes)
    requires Packed(p, start, feed) && p.status == Running && p.next < U64_MAX
    requires p.pending == [] || p.size + 2 + |body| <= p.mtu
    ensures Packed(Append(p, body), start, feed + [body])
  {
    BlocksLenSplit(p.pending, [body]);
    assert BlocksLen([body]) == 2 + |body| + BlocksLen([]);
    assert AllBlocks(p.sent) + (p.pending + [body]) == feed + [body];
    if p.pending == [] {
      assert p.pending + [body] == [body];
    }
  }

  lemma OnItemPacked(p: State, start: nat, feed: seq<Bytes>, body: Bytes)
    requires Packed(p, start, feed) && p.status == Running && p.next < U64_MAX
    ensures Packed(OnItem(p, body), start, feed + Taken(p, Item(body)))
  {
    hide Packed, Flush, Append;
    if |body| <= MAX_BLOCK_LEN {
      FlushPacked(p, start, feed);
      var q := if p.pending != [] && p.size + 2 + |body| > p.mtu then Flush(p) else p;
      FlushKeeps(p);
      if q.status == Running {
        AppendPacked(q, start, feed, body);
        AppendKeeps(q, body);
      } else {
        assert feed + [] == feed;
      }
    } else {
      FailedPacked(p, start, feed, BlockTooLarge(|body|, MAX_BLOCK_LEN));
      assert feed + [] == feed;
    }
  }

  lemma FlushKeeps(p: State)
    ensures Flush(p).next == p.next && Flush(p).mtu == p.mtu && Flush(p).session == p.session
  {
  }

  lemma AppendKeeps(p: State, body: Bytes)
    ensures Append(p, body).status == p.status
  {
  }

  lemma FailedPacked(p: State, start: nat, feed: seq<Bytes>, e: MoldError)
    requires Packed(p, start, feed) && p.status == Running
    ensures Packed(p.(status := Failed(e)), start, feed)
  {
  }

  lemma TurnPacked(p: State, start: nat, feed: seq<Bytes>, input: Input)
    requires Packed(p, start, feed) && p.next < U64_MAX
    ensures Packed(Turn(p, input), start, feed + Taken(p, input))
  {
    if p.status != Running {
      assert feed + [] == feed;
    } else if input.Item? {
      OnItemPacked(p, start, feed, input.body);
    } else {
      assert feed + [] == feed;
      FlushPacked(p, start, feed);
      match input {
        case Exhausted =>
          if Flush(p).status == Running {
            EndBurstPacked(Flush(p), start, feed, p.burst);
          }
        case SourceFailure =>
          FailedPacked(p, start, feed, SourceExhausted);
        case Timer =>
          if p.pending == [] {
            HeaderOnlyPacked(p, start, feed, MoldPacket.Heartbeat(p.session, p.next));
          }
      }
    }
  }

  /** For every interleaving of source items and timer expiries: the blocks sent, followed by those
      still being packed, are the source items in order; every packet, heartbeat and end-of-session
      packet carries the number of the next unsent block; only a lone block may exceed the MTU; and
      the cache got exactly the blocks sent, under their numbers. */
  lemma {:induction false} PackingConserves(p: State, start: nat, inputs: seq<Input>)
    requires p == Fresh(p.session, p.mtu, p.burst, start) && start + |inputs| <= U64_MAX
    ensures Packed(Turns(p, inputs), start, Feed(p, inputs)) && |Feed(p, inputs)| <= |inputs|
  {
    if inputs != [] {
      var front := inputs[..|inputs| - 1];
      PackingConserves(p, start, front);
      TurnPacked(Turns(p, front), start, Feed(p, front), inputs[|inputs| - 1]);
    } else {
      assert AllBlocks([]) == [] && Labelled(start, []) == [];
    }
  }

  /** A publisher that finished has sent every item its source handed over before it ended. */
  lemma FinishedSentAll(p: State, start: nat, inputs: seq<Input>)
    requires p == Fresh(p.session, p.mtu, p.burst, start) && start + |inputs| <= U64_MAX
    requires Turns(p, inputs).status == Finished
    ensures AllBlocks(Turns(p, inputs).sent) == Feed(p, inputs) == SourceItems(inputs)
  {
    PackingConserves(p, start, inputs);
    TookItems(p, inputs);
  }

  /** The items a source hands over before it is exhausted. */
  function SourceItems(inputs: seq<Input>): seq<Bytes> {
    if inputs == [] then []
    else
      var front, last := inputs[..|inputs| - 1], inputs[|inputs| - 1];
      SourceItems(front) + if Exhausted !in front && last.Item? then [last.body] else []
  }

  lemma {:induction false} TookItems(p: State, inputs: seq<Input>)
    requires p.status == Running
    ensures var q := Turns(p, inputs);
            && (q.status == Running ==> Exhausted !in inputs)
            && (q.status == Finished ==> Exhausted in inputs)
            && (!q.status.Failed? ==> Feed(p, inputs) == SourceItems(inputs))
  {
    if inputs != [] {
      var front, last := inputs[..|inputs| - 1], inputs[|inputs| - 1];
      TookItems(p, front);
      TurnStatus(Turns(p, front), last);
      assert inputs == front + [last];
      hide Turn, OnItem;
    }
  }

  lemma TurnStatus(p: State, input: Input)
    ensures var q := Turn(p, input);
            && (p.status != Running ==> q.status == p.status)
            && (p.status == Running && input == Exhausted ==> q.status != Running)
            && (p.status == Running && input != Exhausted ==> q.status != Finished)
            && (p.status == Running && input.Item? && !q.status.Failed? ==> Taken(p, input) == [input.body])
  {
    if input == Exhausted {
      EndBurstStatus(Flush(p), p.burst);
    }
  }

  lemma {:induction false} EndBurstStatus(p: State, n: nat)
    ensures EndBurst(p, n).status == Finished
    decreases n
  {
    if n > 0 {
      EndBurstStatus(p.(sent := p.sent + [MoldPacket.EndOfSession(p.session, p.next)]), n - 1);
    }
  }

  /** The packets a turn sends, after those already sent. */
  function Sends(p: State, input: Input): seq<Packet> {
    if p.status != Running then []
    else
      match input
      case Item(body) =>
        if |body| <= MAX_BLOCK_LEN && p.pending != [] && p.size + 2 + |body| > p.mtu then PendingPacket(p) else []
      case Exhausted =>
        PendingPacket(p) + if FlushFails(p) then [] else Repeated(MoldPacket.EndOfSession(p.session, p.next), p.burst)
      case SourceFailure => []
      case Timer => if p.pending == [] then [MoldPacket.Heartbeat(p.session, p.next)] else PendingPacket(p)
  }

  /** Too many blocks for the count field. */
  predicate FlushFails(p: State) {
    |p.pending| >= 0xFFFF
  }

  function PendingPacket(p: State): seq<Packet> {
    if p.pending == [] || FlushFails(p) then [] else [Packet(Header(p.session, p.first, |p.pending|), p.pending)]
  }

  function Repeated(pkt: Packet, n: nat): seq<Packet> {
    seq(n, _ => pkt)
  }

  lemma {:induction false} BurstSends(p: State, n: nat)
    ensures EndBurst(p, n).sent == p.sent + Repeated(MoldPacket.EndOfSession(p.session, p.next), n)
    decreases n
  {
    var pkt := MoldPacket.EndOfSession(p.session, p.next);
    if n == 0 {
      assert p.sent + Repeated(pkt, 0) == p.sent;
    } else {
      BurstSends(p.(sent := p.sent + [pkt]), n - 1);
      assert Repeated(pkt, n) == [pkt] + Repeated(pkt, n - 1);
      assert (p.sent + [pkt]) + Repeated(pkt, n - 1) == p.sent + ([pkt] + Repeated(pkt, n - 1));
    }
  }

  lemma FlushSends(p: State)
    ensures Flush(p).sent == p.sent + PendingPacket(p) && (Flush(p).status == p.status || FlushFails(p))
    ensures Flush(p).session == p.session && Flush(p).next == p.next
    ensures FlushFails(p) ==> Flush(p).status.Failed?
  {
  }

  /** Exactly what each turn puts on the wire: a full packet when the next item does not fit, the
      pending packet or else a heartbeat when the timer fires, the pending packet and `burst`
      end-of-session packets when the source ends. */
  lemma TurnSends(p: State, input: Input)
    ensures Turn(p, input).sent == p.sent + Sends(p, input)
  {
    assert p.sent + [] == p.sent;
    FlushSends(p);
    if p.status == Running && input == Exhausted && !FlushFails(p) {
      BurstSends(Flush(p), p.burst);
      var burst := Repeated(MoldPacket.EndOfSession(p.session, p.next), p.burst);
      assert (p.sent + PendingPacket(p)) + burst == p.sent + (PendingPacket(p) + burst);
    }
    hide Flush, EndBurst, Repeated, PendingPacket;
  }

  /** When a running publisher fails: an item over the limit, a failing source, or more pending blocks
      than a packet can count when they have to go out. */
  lemma FailsIff(p: State, input: Input)
    requires p.status == Running
    ensures Turn(p, input).status.Failed? <==>
            match input
            case Item(body) => |body| > 1024 || (FlushFails(p) && p.size + 2 + |body| > p.mtu)
            case SourceFailure => true
            case _ => FlushFails(p)
  {
    FlushSends(p);
    EndBurstStatus(Flush(p), p.burst);
    assert FlushFails(p) ==> p.pending != [];
    hide Flush, EndBurst;
  }

  /** For each packet sent, the input in whose turn it went out. */
  function Causes(p: State, inputs: seq<Input>): seq<Input> {
    if inputs == [] then []
    else
      var front, last := inputs[..|inputs| - 1], inputs[|inputs| - 1];
      Causes(p, front) + seq(|Sends(Turns(p, front), last)|, _ => last)
  }

  lemma MembersSnoc(cs: seq<Input>, n: nat, front: seq<Input>, last: Input)
    requires forall i :: 0 <= i < |cs| ==> cs[i] in front
    ensures var all := cs + seq(n, _ => last);
            |all| == |cs| + n && forall i :: 0 <= i < |all| ==> all[i] in front + [last]
  {
  }

  lemma {:induction false} CauseOfEach(p: State, inputs: seq<Input>)
    requires p.sent == []
    ensures |Causes(p, inputs)| == |Turns(p, inputs).sent|
    ensures forall i :: 0 <= i < |Causes(p, inputs)| ==> Causes(p, inputs)[i] in inputs
  {
    hide Turn, Sends;
    if inputs != [] {
      var front, last := inputs[..|inputs| - 1], inputs[|inputs| - 1];
      var q, causes := Turns(p, front), Causes(p, front);
      var more := seq(|Sends(q, last)|, _ => last);
      assert Turns(p, inputs) == Turn(q, last) && Causes(p, inputs) == causes + more;
      hide Turns, Causes;
      CauseOfEach(p, front);
      TurnSends(q, last);
      MembersSnoc(causes, |Sends(q, last)|, front, last);
      assert inputs == front + [last];
    }
  }

  /** The packet went out because the timer fired, because the source ended, or because the next
      block of the source would not have fit into it. */
  predicate ClosedFor(mtu: nat, start: nat, feed: seq<Bytes>, pkt: Packet, cause: Input) {
    if pkt.blocks == [] then cause == (if pkt.header.count == 0 then Timer else Exhausted)
    else
      cause == Timer || cause == Exhausted
      || (cause.Item? && WireLen(pkt) + 2 + |cause.body| > mtu
          && start <= pkt.header.sequence
          && var next := pkt.header.sequence - start + |pkt.blocks|;
             next < |feed| && feed[next] == cause.body)
  }

  lemma ClosedForGrows(mtu: nat, start: nat, feed: seq<Bytes>, more: seq<Bytes>, pkt: Packet, cause: Input)
    requires ClosedFor(mtu, start, feed, pkt, cause)
    ensures ClosedFor(mtu, start, feed + more, pkt, cause)
  {
  }

  /** The packets of one turn. */
  lemma TurnClosed(p: State, start: nat, feed: seq<Bytes>, input: Input, i: nat)
    requires Packed(p, start, feed) && i < |Sends(p, input)|
    ensures ClosedFor(p.mtu, start, feed + Taken(p, input), Sends(p, input)[i], input)
  {
    var pkt := Sends(p, input)[i];
    if input.Item? {
      FailsIff(p, input);
      TurnStatus(p, input);
      assert Taken(p, input) == [input.body];
      assert AllBlocks(p.sent) + p.pending == feed;
      assert pkt == Packet(Header(p.session, p.first, |p.pending|), p.pending);
      assert WireLen(pkt) == p.size;
      var next := pkt.header.sequence - start + |pkt.blocks|;
      assert next == |feed|;
      hide Packed, Turn;
    }
  }

  /** Packets are as full as they can be: over every run each packet that is followed by more data
      either was closed by the timer or the end of the source, or had no room for the next block. */
  lemma {:induction false} PacketsAreFull(p: State, start: nat, inputs: seq<Input>, i: nat)
    requires p == Fresh(p.session, p.mtu, p.burst, start) && start + |inputs| <= U64_MAX
    requires i < |Turns(p, inputs).sent|
    ensures i < |Causes(p, inputs)|
            && ClosedFor(p.mtu, start, Feed(p, inputs), Turns(p, inputs).sent[i], Causes(p, inputs)[i])
  {
    if inputs != [] {
      var front, last := inputs[..|inputs| - 1], inputs[|inputs| - 1];
      var q := Turns(p, front);
      PackingConserves(p, start, front);
      CauseOfEach(p, front);
      TurnSends(q, last);
      SameMtu(p, front);
      hide Turn, Sends, Packed, ClosedFor, Taken, PendingPacket;
      var causes, feed := Causes(p, front), Feed(p, front);
      assert Turns(p, inputs).sent == q.sent + Sends(q, last);
      assert Causes(p, inputs) == causes + seq(|Sends(q, last)|, _ => last);
      assert Feed(p, inputs) == feed + Taken(q, last);
      hide Turns, Causes, Feed;
      if i < |q.sent| {
        PacketsAreFull(p, start, front, i);
        ClosedForGrows(p.mtu, start, feed, Taken(q, last), q.sent[i], causes[i]);
      } else {
        TurnClosed(q, start, feed, last, i - |q.sent|);
      }
    }
  }

  lemma {:induction false} SameMtu(p: State, inputs: seq<Input>)
    ensures Turns(p, inputs).mtu == p.mtu
  {
    if inputs != [] {
      var front, last := inputs[..|inputs| - 1], inputs[|inputs| - 1];
      SameMtu(p, front);
      TurnMtu(Turns(p, front), last);
      hide Turn;
    }
  }

  lemma TurnMtu(p: State, input: Input)
    ensures Turn(p, input).mtu == p.mtu
  {
    EndBurstMtu(Flush(p), p.burst);
  }

  lemma {:induction false} EndBurstMtu(p: State, n: nat)
    ensures EndBurst(p, n).mtu == p.mtu
    decreases n
  {
    if n > 0 {
      EndBurstMtu(p.(sent := p.sent + [MoldPacket.EndOfSession(p.session, p.next)]), n - 1);
    }
  }

  /** From a source that only hands over items, no packet could have taken the block after it. */
  lemma ItemsPackFully(p: State, start: nat, inputs: seq<Input>, i: nat)
    requires p == Fresh(p.session, p.mtu, p.burst, start) && start + |inputs| <= U64_MAX
    requires i < |Turns(p, inputs).sent| && forall k :: 0 <= k < |inputs| ==> inputs[k].Item?
    ensures var pkt, feed := Turns(p, inputs).sent[i], Feed(p, inputs);
            var next := pkt.header.sequence - start + |pkt.blocks|;
            0 <= next < |feed| && WireLen(pkt) + 2 + |feed[next]| > p.mtu
  {
    PacketsAreFull(p, start, inputs, i);
    CauseOfEach(p, inputs);
    hide Turns, Feed, Causes;
  }

  /** Where a packet's blocks sit in the source. */
  lemma PacketIsSlice(p: State, start: nat, feed: seq<Bytes>, i: nat)
    requires Packed(p, start, feed) && i < |p.sent|
    ensures var pkt := p.sent[i];
            var at := pkt.header.sequence - start;
            0 <= at && at + |pkt.blocks| <= |feed| && pkt.blocks == feed[at..at + |pkt.blocks|]
  {
    AllBlocksSplit(p.sent, i);
    assert AllBlocks(p.sent) <= feed;
    var a, b := AllBlocks(p.sent[..i]), p.sent[i].blocks;
    assert a + b <= feed;
    assert (a + b)[|a|..|a| + |b|] == b;
  }

  /** End-of-session packets appear only when the publisher has finished, and name the true end. */
  predicate EndMarks(p: State) {
    forall i :: 0 <= i < |p.sent| && p.sent[i].header.IsEndOfSession() ==>
      p.status == Finished && p.sent[i].header.sequence == p.next
  }

  lemma {:induction false} EndBurstMarks(p: State, n: nat)
    requires forall i :: 0 <= i < |p.sent| && p.sent[i].header.IsEndOfSession() ==> p.sent[i].header.sequence == p.next
    ensures EndMarks(EndBurst(p, n)) && EndBurst(p, n).next == p.next
    decreases n
  {
    if n > 0 {
      EndBurstMarks(p.(sent := p.sent + [MoldPacket.EndOfSession(p.session, p.next)]), n - 1);
    }
  }

  lemma TurnEndMarks(p: State, input: Input)
    requires EndMarks(p)
    ensures EndMarks(Turn(p, input))
  {
    hide EndBurst;
    if p.status == Running && input == Exhausted && Flush(p).status == Running {
      EndBurstMarks(Flush(p), p.burst);
    }
  }

  /** When every single block fits the budget, no datagram exceeds it. */
  lemma NoPacketOverMtu(p: State, start: nat, feed: seq<Bytes>, i: nat)
    requires Packed(p, start, feed) && i < |p.sent| && HEADER_LEN <= p.mtu
    requires forall k :: 0 <= k < |feed| ==> HEADER_LEN + 2 + |feed[k]| <= p.mtu
    ensures WireLen(p.sent[i]) <= p.mtu
  {
    PacketIsSlice(p, start, feed, i);
    var blocks := p.sent[i].blocks;
    if |blocks| == 1 {
      assert blocks[0] == feed[p.sent[i].header.sequence - start];
      assert BlocksLen(blocks) == 2 + |blocks[0]| + BlocksLen(blocks[1..]);
    }
  }
}
