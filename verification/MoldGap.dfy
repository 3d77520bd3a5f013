/** Progress of the receiver: what closes a gap, and what delivers a whole session. */
module MoldGap {
  import opened Wire
  import opened MoldPacket
  import opened Ordered
  import opened MoldCache
  import opened MoldReceiver
  import opened MoldReceiverLaws

  /** A receiver in the middle of a session, with no number at the very end of u64 in its buffer. */
  predicate Midway(s: State) {
    s.bootstrapped && s.session.Some? && forall k :: k in s.pending ==> k < U64_MAX
  }

  /** Nothing that concerns the session changed and the expected number did not move back. */
  predicate Forward(s: State, t: State) {
    Midway(t) && t.session == s.session && s.next <= t.next
  }

  lemma {:induction false} FlushedForward(s: State, dec: Decoder)
    requires Midway(s)
    ensures Forward(s, Flushed(s, dec))
    decreases |s.pending|
  {
    if s.pending != map[] && Least(s.pending.Keys) == s.next {
      FlushedStep(s, dec);
      FlushedForward(Delivered(s.(pending := s.pending - {s.next}), dec, s.next, s.pending[s.next]), dec);
    }
  }

  lemma {:induction false} StashedAllForward(s: State, first: nat, blocks: seq<Bytes>)
    requires Midway(s) && first + |blocks| <= U64_MAX
    ensures Forward(s, StashedAll(s, first, blocks))
    decreases |blocks|
  {
    if blocks != [] {
      StashedAllForward(Stashed(s, first, blocks[0]), first + 1, blocks[1..]);
    }
  }

  lemma DataForward(s: State, dec: Decoder, first: nat, blocks: seq<Bytes>)
    requires Midway(s) && GoodBlocks(blocks) && first + |blocks| <= U64_MAX
    ensures Forward(s, DataIngested(s, dec, first, blocks))
    ensures first <= s.next ==> first + |blocks| <= DataIngested(s, dec, first, blocks).next
  {
    if s.next < first + |blocks| {
      if s.next < first {
        StashedAllForward(Emit(s, Ok(Gap(s.next, first - 1))), first, blocks);
      } else {
        DeliveredAllNext(s, dec, first, blocks);
        FlushedForward(DeliveredAll(s, dec, first, blocks), dec);
      }
    }
  }

  /** No packet moves the receiver back, and one that starts at or before the expected number
      moves it past its own end. */
  lemma IngestedForward(s: State, dec: Decoder, pkt: Packet)
    requires Midway(s) && Ordinary(pkt)
    ensures Forward(s, Ingested(s, dec, pkt))
    ensures IsData(s, pkt) && pkt.header.sequence <= s.next ==>
              pkt.header.sequence + |pkt.blocks| <= Ingested(s, dec, pkt).next
  {
    hide DataIngested;
    if IsData(s, pkt) {
      DataForward(s, dec, pkt.header.sequence, pkt.blocks);
    }
  }

  lemma {:induction false} IngestedAllForward(s: State, dec: Decoder, pkts: seq<Packet>)
    requires Midway(s) && forall i :: 0 <= i < |pkts| ==> Ordinary(pkts[i])
    ensures Forward(s, IngestedAll(s, dec, pkts))
  {
    hide Ingested;
    if pkts != [] {
      var n := |pkts| - 1;
      IngestedAllForward(s, dec, pkts[..n]);
      IngestedForward(IngestedAll(s, dec, pkts[..n]), dec, pkts[n]);
    }
  }

  // ----- Gap closure -----

  predicate GoodFrames(fs: seq<Frame>) {
    forall i :: 0 <= i < |fs| ==> GoodBlock(fs[i].body)
  }

  lemma FrameForward(s: State, dec: Decoder, f: Frame)
    requires Midway(s) && GoodBlock(f.body) && f.sequence < U64_MAX && f.sequence <= s.next
    ensures Forward(s, FrameIngested(s, dec, s.session.value, f))
    ensures f.sequence < FrameIngested(s, dec, s.session.value, f).next
  {
    hide Ingested;
    IngestedForward(s, dec, NewData(s.session.value, f.sequence, [f.body]).value);
  }

  lemma {:induction false} FramesForward(s: State, dec: Decoder, from: nat, fs: seq<Frame>)
    requires Midway(s) && GoodFrames(fs) && Consecutive(from, fs) && from + |fs| <= U64_MAX && from <= s.next
    ensures var t := FramesIngested(s, dec, s.session.value, fs);
            Forward(s, t) && from + |fs| <= t.next
  {
    hide FrameIngested;
    if fs != [] {
      var n := |fs| - 1;
      FramesForward(s, dec, from, fs[..n]);
      FrameForward(FramesIngested(s, dec, s.session.value, fs[..n]), dec, fs[n]);
    }
  }

  /** The cache holds every frame of a range that one response can carry. */
  predicate Covers(inner: seq<Frame>, from: nat, to: nat) {
    from <= to < U64_MAX && to - from + 1 <= MAX_RESPONSE_FRAMES
    && (forall n :: from <= n <= to ==> Holds(inner, n))
    && GoodFrames(inner)
  }

  lemma CoveredRun(inner: seq<Frame>, from: nat, to: nat, run: seq<Frame>)
    requires Covers(inner, from, to) && LongestRun(inner, from, to - from + 1, run)
    ensures |run| == to - from + 1 && GoodFrames(run) && Consecutive(from, run)
  {
    forall i | 0 <= i < |run| ensures GoodBlock(run[i].body) {
      assert run[i] in inner;
    }
  }

  /** Gap closure, across the cache, the wire and the receiver. The receiver announced the gap
      `from..to`; whatever multicast traffic `pkts` arrives meanwhile, if the cache holds the gap,
      then the lookup, the response as bytes, the client's renumbering and the re-ingestion leave
      the receiver past the gap. */
  lemma GapClosure(s: State, dec: Decoder, pkts: seq<Packet>, inner: seq<Frame>, eos: bool, to: nat, run: seq<Frame>)
    requires Midway(s) && forall i :: 0 <= i < |pkts| ==> Ordinary(pkts[i])
    requires Covers(inner, s.next, to) && LongestRun(inner, s.next, to - s.next + 1, run)
    ensures var status := StatusFor(inner, eos, s.next, to - s.next + 1, |run|);
            var response := DecodedResponse(s.next, EncodedResponse(status, run));
            status == STATUS_OK && response.Ok?
            && to < Retransmitted(IngestedAll(s, dec, pkts), dec, response.value.frames).next
  {
    hide Ingested, FrameIngested, LongestRun;
    CoveredRun(inner, s.next, to, run);
    var status := StatusFor(inner, eos, s.next, to - s.next + 1, |run|);
    ResponseRoundTrip(status, s.next, run, []);
    assert EncodedResponse(status, run) + [] == EncodedResponse(status, run);
    IngestedAllForward(s, dec, pkts);
    FramesForward(IngestedAll(s, dec, pkts), dec, s.next, run);
  }

  // ----- What one answer closes -----

  predicate InLimit(p: map<nat, Bytes>) {
    forall k :: k in p ==> |p[k]| <= MAX_BLOCK_LEN
  }

  /** From number `a` on, the receiver has used up the unbroken run of the buffer `p` and stands at
      the first number missing from it, with the rest of `p` still buffered. */
  ghost predicate Settled(p: map<nat, Bytes>, a: nat, t: State) {
    a <= t.next && t.next !in p
    && (forall n :: a <= n < t.next ==> n in p)
    && (forall k :: k in t.pending <==> k in p && t.next < k)
    && (forall k :: k in t.pending ==> t.pending[k] == p[k])
  }

  lemma SettledBefore(p: map<nat, Bytes>, k: nat, t: State)
    requires k in p && Settled(p - {k}, k + 1, t)
    ensures Settled(p, k, t)
  {
    forall n | k <= n < t.next
      ensures n in p
    {
      assert n == k || n in p - {k};
    }
  }

  lemma SettledHere(s: State)
    requires s.next !in s.pending && forall k :: k in s.pending ==> s.next <= k
    ensures Settled(s.pending, s.next, s)
  {
  }

  lemma {:induction false} FlushSettles(s: State, dec: Decoder)
    requires Midway(s) && InLimit(s.pending) && forall k :: k in s.pending ==> s.next <= k
    ensures Settled(s.pending, s.next, Flushed(s, dec))
    decreases |s.pending|
  {
    hide Settled, Delivered;
    if s.pending != map[] && Least(s.pending.Keys) == s.next {
      var k := s.next;
      var r := s.(pending := s.pending - {k});
      DeliveredMoves(r, dec, k, s.pending[k]);
      FlushedStep(s, dec);
      hide Flushed;
      FlushSettles(Delivered(r, dec, k, s.pending[k]), dec);
      SettledBefore(s.pending, k, Flushed(s, dec));
    } else {
      SettledHere(s);
    }
  }

  lemma DeliveredMoves(s: State, dec: Decoder, n: nat, body: Bytes)
    requires |body| <= MAX_BLOCK_LEN && n < U64_MAX
    ensures var t := Delivered(s, dec, n, body);
            t == s.(next := n + 1, outbox := t.outbox)
  {
  }

  /** A run of the buffer behind one just used up. */
  lemma SettledOn(p: map<nat, Bytes>, a: nat, s: State, q: map<nat, Bytes>, t: State)
    requires Settled(p, a, s) && s.next == a && q == s.pending && Settled(q, a + 1, t)
    ensures Settled(p, a + 1, t)
  {
  }

  /** One more frame: stale if the buffer already covered its number, delivered otherwise. */
  lemma FrameSettles(p: map<nat, Bytes>, a: nat, s: State, dec: Decoder, f: Frame)
    requires Midway(s) && InLimit(s.pending) && Settled(p, a, s) && GoodBlock(f.body) && f.sequence == a < U64_MAX
    ensures var t := FrameIngested(s, dec, s.session.value, f);
            Settled(p, a + 1, t) && Midway(t) && InLimit(t.pending) && t.session == s.session
  {
    var t := FrameIngested(s, dec, s.session.value, f);
    FrameForward(s, dec, f);
    assert t == DataIngested(s, dec, a, [f.body]);
    hide FrameIngested, Ingested;
    if s.next == a {
      var d := DeliveredAll(s, dec, a, [f.body]);
      DeliveredAllNext(s, dec, a, [f.body]);
      assert d.next == a + 1 && d.pending == s.pending;
      FlushSettles(d, dec);
      hide Flushed, DeliveredAll;
      SettledOn(p, a, s, d.pending, t);
    }
  }

  lemma {:induction false} FramesSettle(s: State, dec: Decoder, fs: seq<Frame>)
    requires Midway(s) && InLimit(s.pending) && Ahead(s)
    requires GoodFrames(fs) && Consecutive(s.next, fs) && s.next + |fs| <= U64_MAX
    ensures var t := FramesIngested(s, dec, s.session.value, fs);
            Settled(s.pending, s.next + |fs|, t) && Midway(t) && InLimit(t.pending) && t.session == s.session
  {
    if fs != [] {
      var n := |fs| - 1;
      FramesSettle(s, dec, fs[..n]);
      var t := FramesIngested(s, dec, s.session.value, fs[..n]);
      hide FrameIngested, Settled, Midway, InLimit, Ahead;
      FrameSettles(s.pending, s.next + n, t, dec, fs[n]);
    }
  }

  /** A buffered number at or below the expected one blocks every flush of the answer. */
  lemma FrameSticks(s: State, dec: Decoder, f: Frame, k: nat)
    requires Midway(s) && k in s.pending && k <= s.next && GoodBlock(f.body) && f.sequence == s.next < U64_MAX
    ensures var t := FrameIngested(s, dec, s.session.value, f);
            t.next == s.next + 1 && t.pending == s.pending && Midway(t) && t.session == s.session
  {
    var d := DeliveredAll(s, dec, s.next, [f.body]);
    assert FrameIngested(s, dec, s.session.value, f) == DataIngested(s, dec, s.next, [f.body]) == Flushed(d, dec);
    hide FrameIngested, Ingested;
    DeliveredAllNext(s, dec, s.next, [f.body]);
    hide DeliveredAll;
    FlushedStale(d, dec);
  }

  lemma {:induction false} FramesStick(s: State, dec: Decoder, fs: seq<Frame>, k: nat)
    requires Midway(s) && k in s.pending && k <= s.next
    requires GoodFrames(fs) && Consecutive(s.next, fs) && s.next + |fs| <= U64_MAX
    ensures var t := FramesIngested(s, dec, s.session.value, fs);
            t.next == s.next + |fs| && t.pending == s.pending && Midway(t) && t.session == s.session
  {
    hide FrameIngested;
    if fs != [] {
      var n := |fs| - 1;
      FramesStick(s, dec, fs[..n], k);
      FrameSticks(FramesIngested(s, dec, s.session.value, fs[..n]), dec, fs[n], k);
    }
  }

  /** Exactly when one answer closes a gap, with no other traffic in between: with nothing stale in
      the buffer, when every number of the gap beyond the answer is buffered; with a stale entry,
      which blocks every flush, only when the answer carries the whole gap. */
  lemma ClosedIffCovered(s: State, dec: Decoder, inner: seq<Frame>, to: nat, run: seq<Frame>)
    requires Midway(s) && InLimit(s.pending) && s.next <= to < U64_MAX && GoodFrames(run)
    requires LongestRun(inner, s.next, to - s.next + 1, run)
    ensures to < Retransmitted(s, dec, run).next <==>
            if Ahead(s) then forall n :: s.next + |run| <= n <= to ==> n in s.pending
            else |run| == to - s.next + 1
  {
    if Ahead(s) {
      hide FrameIngested, InLimit;
      FramesSettle(s, dec, run);
    } else {
      var k :| k in s.pending && k <= s.next;
      hide FrameIngested, InLimit;
      FramesStick(s, dec, run, k);
    }
  }

  /** When the last number of the gap is not buffered the answer has to carry it all, so a gap wider
      than a response stays open. */
  lemma ClosedIffCarried(s: State, dec: Decoder, inner: seq<Frame>, to: nat, run: seq<Frame>)
    requires Midway(s) && InLimit(s.pending) && s.next <= to < U64_MAX && GoodFrames(run)
    requires LongestRun(inner, s.next, to - s.next + 1, run) && to !in s.pending
    ensures to < Retransmitted(s, dec, run).next <==> |run| == to - s.next + 1
    ensures to - s.next + 1 > MAX_RESPONSE_FRAMES ==> Retransmitted(s, dec, run).next <= to
  {
    hide FrameIngested, Retransmitted, Midway, Ahead, InLimit;
    ClosedIffCovered(s, dec, inner, to, run);
  }

  /** The stale entry does keep a gap open. Packets 5, 3, the filler 1-3 and 6 leave the gap 4-5
      with 5 buffered and 3 stale; the answer brings 4, and the receiver stays at 5. */
  lemma StaleKeepsOpen(dec: Decoder, session: Bytes, b: Bytes)
    requires |b| == 1
    ensures var s := IngestedAll(Fresh(Some(session), 1, 10, DropOldest), dec,
                                 [DataPacket(session, 5, [b]), DataPacket(session, 3, [b]),
                                  DataPacket(session, 1, [b, b, b]), DataPacket(session, 6, [b])]);
            && Ok(Gap(4, 5)) in s.outbox && 5 in s.pending && s.next == 4
            && Retransmitted(s, dec, [Frame(4, b)]).next == 5
  {
    var s0 := Fresh(Some(session), 1, 10, DropOldest);
    var p0, p1 := DataPacket(session, 5, [b]), DataPacket(session, 3, [b]);
    var p2, p3 := DataPacket(session, 1, [b, b, b]), DataPacket(session, 6, [b]);
    hide Ingested, IngestedAll, FrameIngested, DataPacket;
    TwoAhead(s0, dec, b);
    var s2 := Ingested(Ingested(s0, dec, p0), dec, p1);
    FillThree(s2, dec, b);
    var s3 := Ingested(s2, dec, p2);
    BufferOne(s3, dec, 6, b);
    var s4 := Ingested(s3, dec, p3);
    assert s4.outbox[|s3.outbox|] == Ok(Gap(4, 5));
    RunOfFour(s0, dec, p0, p1, p2, p3);
    AnswerSticks(s4, dec, b);
  }

  lemma AnswerSticks(s: State, dec: Decoder, b: Bytes)
    requires |b| == 1 && s.bootstrapped && s.session.Some? && s.pending == map[5 := b, 3 := b, 6 := b] && s.next == 4
    ensures Retransmitted(s, dec, [Frame(4, b)]).next == 5
  {
    hide FrameIngested;
    FramesStick(s, dec, [Frame(4, b)], 3);
  }

  lemma TwoAhead(s: State, dec: Decoder, b: Bytes)
    requires s.session.Some? && s == Fresh(s.session, 1, 10, DropOldest)
    ensures var t := Ingested(Ingested(s, dec, DataPacket(s.session.value, 5, [b])), dec,
                              DataPacket(s.session.value, 3, [b]));
            t.pending == map[5 := b, 3 := b] && t.next == 1 && t.bootstrapped && t.session == s.session
            && SameConfig(s, t)
  {
    hide Ingested, DataPacket;
    BufferOne(s, dec, 5, b);
    BufferOne(Ingested(s, dec, DataPacket(s.session.value, 5, [b])), dec, 3, b);
  }

  lemma FillThree(s: State, dec: Decoder, b: Bytes)
    requires |b| == 1 && s.session.Some? && s.bootstrapped && s.pending == map[5 := b, 3 := b] && s.next == 1
    ensures var t := Ingested(s, dec, DataPacket(s.session.value, 1, [b, b, b]));
            t.pending == s.pending && |t.pending| == 2 && t.next == 4 && t.bootstrapped
            && t.session == s.session && SameConfig(s, t)
  {
    assert 3 in s.pending;
    StaleBlocks(s, dec, DataPacket(s.session.value, 1, [b, b, b]));
    var keys: set<nat> := {3, 5};
    assert s.pending.Keys == keys && |keys| == 2;
    hide Ingested;
  }

  /** A gap wider than a response that one answer does close: with room for one block, the packet
      that revealed the gap was evicted by the last message of the gap. */
  lemma WideGapCloses(dec: Decoder, session: Bytes, b: Bytes, inner: seq<Frame>, run: seq<Frame>)
    requires |b| == 1 && LongestRun(inner, 1, 65_537, run) && |run| == MAX_RESPONSE_FRAMES && GoodFrames(run)
    ensures var s := IngestedAll(Fresh(Some(session), 1, 1, DropOldest), dec,
                                 [DataPacket(session, 65_538, [b]), DataPacket(session, 65_537, [b])]);
            && Ok(Gap(1, 65_537)) in s.outbox && 65_537 > MAX_RESPONSE_FRAMES
            && 65_537 < Retransmitted(s, dec, run).next
  {
    var s0 := Fresh(Some(session), 1, 1, DropOldest);
    var p0, p1 := DataPacket(session, 65_538, [b]), DataPacket(session, 65_537, [b]);
    hide Ingested, IngestedAll, FrameIngested, DataPacket, LongestRun;
    var s1 := Ingested(s0, dec, p0);
    var s2 := Ingested(s1, dec, p1);
    BufferOne(s0, dec, 65_538, b);
    ReplaceOne(s1, dec, 65_538, 65_537, b);
    RunOfTwo(s0, dec, p0, p1);
    assert s2.outbox[0] == Ok(Gap(1, 65_537));
    LastOneBuffered(s2, dec, b, inner, run);
    hide Retransmitted;
  }

  lemma LastOneBuffered(s: State, dec: Decoder, b: Bytes, inner: seq<Frame>, run: seq<Frame>)
    requires |b| == 1 && s.bootstrapped && s.session.Some? && s.pending == map[65_537 := b] && s.next == 1
    requires LongestRun(inner, 1, 65_537, run) && |run| == MAX_RESPONSE_FRAMES && GoodFrames(run)
    ensures 65_537 < Retransmitted(s, dec, run).next
  {
    hide FrameIngested, Retransmitted, LongestRun, GoodFrames;
    ClosedIffCovered(s, dec, inner, 65_537, run);
  }

  lemma RunOfTwo(s: State, dec: Decoder, a: Packet, b: Packet)
    ensures IngestedAll(s, dec, [a, b]) == Ingested(Ingested(s, dec, a), dec, b)
  {
    hide Ingested;
    var none: seq<Packet> := [];
    assert [a, b][..1] == [a] && [a][..0] == none;
    assert IngestedAll(s, dec, [a]) == Ingested(IngestedAll(s, dec, none), dec, a);
  }

  /** A buffer of one, full, takes the new block instead of the old one. */
  lemma ReplaceOne(s: State, dec: Decoder, k: nat, n: nat, b: Bytes)
    requires s.session.Some? && s.bootstrapped && s.policy == DropOldest && s.maxPending == 1
    requires s.pending.Keys == {k} && s.next < n < U64_MAX && n != k
    ensures var t := Ingested(s, dec, DataPacket(s.session.value, n, [b]));
            && t.pending == map[n := b] && t.next == s.next && t.bootstrapped && t.session == s.session
            && t.outbox == s.outbox + [Ok(Gap(s.next, n - 1))]
  {
    var e := Emit(s, Ok(Gap(s.next, n - 1)));
    assert |s.pending| == |s.pending.Keys| == 1;
    assert Least({k}) == k;
    assert s.pending - {k} == map[];
    assert Stashed(e, n, b).pending == map[n := b];
    assert StashedAll(e, n, [b]) == Stashed(e, n, b);
  }

  // ----- A session without loss -----

  /** The packets follow each other without a hole, from number `n` on. */
  predicate BackToBack(s: State, n: nat, pkts: seq<Packet>)
    decreases |pkts|
  {
    pkts == [] ||
      var last := pkts[|pkts| - 1];
      Ordinary(last) && IsData(s, last)
      && last.header.sequence == n + Count(pkts[..|pkts| - 1]) && BackToBack(s, n, pkts[..|pkts| - 1])
  }

  function Count(pkts: seq<Packet>): nat {
    if pkts == [] then 0 else Count(pkts[..|pkts| - 1]) + |pkts[|pkts| - 1].blocks|
  }

  /** Packets that arrive in order are delivered to the end of the last one. */
  lemma {:induction false} InOrderDelivers(s: State, dec: Decoder, pkts: seq<Packet>)
    requires Midway(s) && BackToBack(s, s.next, pkts)
    ensures Forward(s, IngestedAll(s, dec, pkts)) && s.next + Count(pkts) <= IngestedAll(s, dec, pkts).next
  {
    hide Ingested;
    if pkts != [] {
      var n := |pkts| - 1;
      InOrderDelivers(s, dec, pkts[..n]);
      IngestedForward(IngestedAll(s, dec, pkts[..n]), dec, pkts[n]);
    }
  }
}
