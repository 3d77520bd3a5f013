/** The receiver against a true feed: when everything it is given is a slice of one numbered
    stream, what it queues for the application is a contiguous piece of that stream. */
module MoldFeed {
  import opened Wire
  import opened MoldPacket
  import opened Ordered
  import opened MoldCache
  import opened MoldReceiver

  /** The session, the number of the first message, and the message decoder. */
  datatype Setup = Setup(session: Bytes, start: nat, dec: Decoder)

  /** Block bodies that a publisher may put on the wire and that decode, numbered inside u64. */
  predicate GoodFeed(c: Setup, feed: seq<Bytes>) {
    c.start + |feed| <= U64_MAX
    && forall i :: 0 <= i < |feed| ==> GoodBlock(feed[i]) && c.dec(feed[i]).Ok?
  }

  predicate TrueAt(c: Setup, feed: seq<Bytes>, n: nat, body: Bytes) {
    c.start <= n < c.start + |feed| && feed[n - c.start] == body
  }

  predicate InRange(c: Setup, feed: seq<Bytes>, lo: nat, hi: nat) {
    lo == hi || (c.start <= lo <= hi <= c.start + |feed|)
  }

  /** The messages numbered `lo` up to but not including `hi`, one event each, in order. */
  function Expected(c: Setup, feed: seq<Bytes>, lo: nat, hi: nat): (r: seq<Event>)
    requires GoodFeed(c, feed) && InRange(c, feed, lo, hi)
    ensures |r| == hi - lo
    ensures forall i :: 0 <= i < |r| ==> r[i] == Message(lo + i, c.dec(feed[lo + i - c.start]).value)
  {
    seq(hi - lo, i requires 0 <= i < hi - lo => Message(lo + i, c.dec(feed[lo + i - c.start]).value))
  }

  /** The message events among the items handed to the application. */
  function Data(items: seq<Item>): seq<Event> {
    if items == [] then [] else
      var last := items[|items| - 1];
      Data(items[..|items| - 1]) + if last.Ok? && last.value.Message? then [last.value] else []
  }

  lemma DataSnoc(items: seq<Item>, x: Item)
    ensures Data(items + [x]) == Data(items) + if x.Ok? && x.value.Message? then [x.value] else []
  {
    assert (items + [x])[..|items|] == items;
  }

  lemma {:induction false} DataAppend(a: seq<Item>, b: seq<Item>)
    ensures Data(a + b) == Data(a) + Data(b)
  {
    if b == [] {
      assert a + b == a;
    } else {
      var n := |b| - 1;
      var d := if b[n].Ok? && b[n].value.Message? then [b[n].value] else [];
      calc {
        Data(a + b);
        { assert a + b == (a + b[..n]) + [b[n]]; }
        Data((a + b[..n]) + [b[n]]);
        { DataSnoc(a + b[..n], b[n]); }
        Data(a + b[..n]) + d;
        { DataAppend(a, b[..n]); }
        (Data(a) + Data(b[..n])) + d;
        Data(a) + (Data(b[..n]) + d);
        Data(a) + Data(b);
      }
    }
  }

  // ----- Receiver invariant -----

  /** `base` is what the application already took out of the queue. Everything delivered, taken or
      queued, is the piece of the stream from `lock` up to the expected number. */
  predicate Fed(c: Setup, feed: seq<Bytes>, base: seq<Event>, lock: nat, s: State)
    requires GoodFeed(c, feed)
  {
    s.bootstrapped && s.session == Some(c.session)
    && (forall k :: k in s.pending ==> TrueAt(c, feed, k, s.pending[k]))
    && InRange(c, feed, lock, s.next)
    && base + Data(s.outbox) == Expected(c, feed, lock, s.next)
  }

  /** A new item that is not a message leaves the invariant alone. */
  lemma EmitFed(c: Setup, feed: seq<Bytes>, base: seq<Event>, lock: nat, s: State, item: Item)
    requires GoodFeed(c, feed) && Fed(c, feed, base, lock, s)
    requires item.Err? || !item.value.Message?
    ensures Fed(c, feed, base, lock, Emit(s, item))
  {
    DataSnoc(s.outbox, item);
    assert Data(s.outbox) + [] == Data(s.outbox);
  }

  lemma DeliveredFed(c: Setup, feed: seq<Bytes>, base: seq<Event>, lock: nat, s: State, body: Bytes)
    requires GoodFeed(c, feed) && Fed(c, feed, base, lock, s) && TrueAt(c, feed, s.next, body)
    ensures Fed(c, feed, base, lock, Delivered(s, c.dec, s.next, body))
    ensures Delivered(s, c.dec, s.next, body).next == s.next + 1
    ensures Delivered(s, c.dec, s.next, body).pending == s.pending
  {
    assert GoodBlock(feed[s.next - c.start]);
    var e := Message(s.next, c.dec(body).value);
    DataSnoc(s.outbox, Ok(e));
    assert base + (Data(s.outbox) + [e]) == (base + Data(s.outbox)) + [e];
    assert Expected(c, feed, lock, s.next + 1) == Expected(c, feed, lock, s.next) + [e];
  }

  /** `blocks` is the stream from number `first` on. */
  predicate Slice(c: Setup, feed: seq<Bytes>, first: nat, blocks: seq<Bytes>) {
    c.start <= first && first + |blocks| <= c.start + |feed|
    && blocks == feed[first - c.start..first - c.start + |blocks|]
  }

  lemma SliceTail(c: Setup, feed: seq<Bytes>, first: nat, blocks: seq<Bytes>)
    requires GoodFeed(c, feed) && Slice(c, feed, first, blocks) && blocks != []
    ensures TrueAt(c, feed, first, blocks[0]) && Slice(c, feed, first + 1, blocks[1..]) && AddU64(first, 1) == first + 1
  {
  }

  lemma {:induction false} DeliveredAllFed(c: Setup, feed: seq<Bytes>, base: seq<Event>, lock: nat, s: State,
                                           first: nat, blocks: seq<Bytes>)
    requires GoodFeed(c, feed) && Fed(c, feed, base, lock, s) && Slice(c, feed, first, blocks) && first <= s.next
    ensures Fed(c, feed, base, lock, DeliveredAll(s, c.dec, first, blocks))
    decreases |blocks|
  {
    if blocks != [] {
      SliceTail(c, feed, first, blocks);
      var t := s;
      if first == s.next {
        DeliveredFed(c, feed, base, lock, s, blocks[0]);
        t := Delivered(s, c.dec, first, blocks[0]);
      }
      DeliveredAllFed(c, feed, base, lock, t, first + 1, blocks[1..]);
    }
  }

  lemma StashedFed(c: Setup, feed: seq<Bytes>, base: seq<Event>, lock: nat, s: State, n: nat, body: Bytes)
    requires GoodFeed(c, feed) && Fed(c, feed, base, lock, s) && TrueAt(c, feed, n, body)
    ensures Fed(c, feed, base, lock, Stashed(s, n, body))
  {
    EmitFed(c, feed, base, lock, s, Err(PendingBufferFull(s.maxPending)));
  }

  lemma {:induction false} StashedAllFed(c: Setup, feed: seq<Bytes>, base: seq<Event>, lock: nat, s: State,
                                         first: nat, blocks: seq<Bytes>)
    requires GoodFeed(c, feed) && Fed(c, feed, base, lock, s) && Slice(c, feed, first, blocks)
    ensures Fed(c, feed, base, lock, StashedAll(s, first, blocks))
    decreases |blocks|
  {
    if blocks != [] {
      SliceTail(c, feed, first, blocks);
      StashedFed(c, feed, base, lock, s, first, blocks[0]);
      StashedAllFed(c, feed, base, lock, Stashed(s, first, blocks[0]), first + 1, blocks[1..]);
    }
  }

  lemma {:induction false} FlushedFed(c: Setup, feed: seq<Bytes>, base: seq<Event>, lock: nat, s: State)
    requires GoodFeed(c, feed) && Fed(c, feed, base, lock, s)
    ensures Fed(c, feed, base, lock, Flushed(s, c.dec))
    decreases |s.pending|
  {
    if s.pending != map[] && Least(s.pending.Keys) == s.next {
      var k := s.next;
      FlushedStep(s, c.dec);
      var t := s.(pending := s.pending - {k});
      assert Fed(c, feed, base, lock, t);
      DeliveredFed(c, feed, base, lock, t, s.pending[k]);
      FlushedFed(c, feed, base, lock, Delivered(t, c.dec, k, s.pending[k]));
    }
  }

  lemma DataIngestedFed(c: Setup, feed: seq<Bytes>, base: seq<Event>, lock: nat, s: State,
                        first: nat, blocks: seq<Bytes>)
    requires GoodFeed(c, feed) && Fed(c, feed, base, lock, s) && Slice(c, feed, first, blocks)
    ensures Fed(c, feed, base, lock, DataIngested(s, c.dec, first, blocks))
  {
    if s.next < first + |blocks| {
      if s.next < first {
        var gap: Item := Ok(Gap(s.next, first - 1));
        EmitFed(c, feed, base, lock, s, gap);
        StashedAllFed(c, feed, base, lock, Emit(s, gap), first, blocks);
      } else {
        DeliveredAllFed(c, feed, base, lock, s, first, blocks);
        FlushedFed(c, feed, base, lock, DeliveredAll(s, c.dec, first, blocks));
      }
    }
  }

  /** A packet of the publisher: its blocks are the stream from its number on, or it is header-only. */
  predicate Honest(c: Setup, feed: seq<Bytes>, pkt: Packet) {
    pkt.header.session == c.session && Slice(c, feed, pkt.header.sequence, pkt.blocks)
    && (pkt.blocks == [] <==> pkt.header.IsHeartbeat() || pkt.header.IsEndOfSession())
  }

  /** One packet of the publisher, arriving at any time, any number of times. */
  lemma IngestedFed(c: Setup, feed: seq<Bytes>, base: seq<Event>, lock: nat, s: State, pkt: Packet)
    requires GoodFeed(c, feed) && Fed(c, feed, base, lock, s) && Honest(c, feed, pkt)
    ensures Fed(c, feed, base, lock, Ingested(s, c.dec, pkt))
  {
    hide DataIngested;
    assert Admitted(s, pkt) == s;
    if pkt.header.IsHeartbeat() {
      EmitFed(c, feed, base, lock, s, Ok(Heartbeat(pkt.header.sequence)));
    } else if pkt.header.IsEndOfSession() {
      EmitFed(c, feed, base, lock, s, Ok(EndOfSession(pkt.header.sequence)));
    } else {
      DataIngestedFed(c, feed, base, lock, s, pkt.header.sequence, pkt.blocks);
    }
  }

  /** A longer feed changes nothing about what was delivered. */
  lemma FedGrows(c: Setup, feed: seq<Bytes>, more: seq<Bytes>, base: seq<Event>, lock: nat, s: State)
    requires GoodFeed(c, feed) && GoodFeed(c, feed + more) && Fed(c, feed, base, lock, s)
    ensures Fed(c, feed + more, base, lock, s)
  {
    assert Expected(c, feed, lock, s.next) == Expected(c, feed + more, lock, s.next);
  }

  // ----- Where end-of-session items come from -----

  /** Every end-of-session item queued in `t` was queued in `s`. */
  predicate NoNewEnd(s: State, t: State) {
    forall x :: x in t.outbox && IsEnd(x) ==> x in s.outbox
  }

  lemma {:induction false} DeliveredAllNoEnd(s: State, dec: Decoder, first: nat, blocks: seq<Bytes>)
    ensures NoNewEnd(s, DeliveredAll(s, dec, first, blocks))
    decreases |blocks|
  {
    if blocks != [] {
      var t := if first < s.next then s else Delivered(s, dec, first, blocks[0]);
      DeliveredAllNoEnd(t, dec, AddU64(first, 1), blocks[1..]);
    }
  }

  lemma {:induction false} StashedAllNoEnd(s: State, first: nat, blocks: seq<Bytes>)
    ensures NoNewEnd(s, StashedAll(s, first, blocks))
    decreases |blocks|
  {
    if blocks != [] {
      StashedAllNoEnd(Stashed(s, first, blocks[0]), AddU64(first, 1), blocks[1..]);
    }
  }

  lemma {:induction false} FlushedNoEnd(s: State, dec: Decoder)
    ensures NoNewEnd(s, Flushed(s, dec))
    decreases |s.pending|
  {
    if s.pending != map[] && Least(s.pending.Keys) == s.next {
      FlushedStep(s, dec);
      FlushedNoEnd(Delivered(s.(pending := s.pending - {s.next}), dec, s.next, s.pending[s.next]), dec);
    }
  }

  lemma DataIngestedNoEnd(s: State, dec: Decoder, first: nat, blocks: seq<Bytes>)
    ensures NoNewEnd(s, DataIngested(s, dec, first, blocks))
  {
    if s.next < AddU64(first, |blocks|) {
      if s.next < first {
        StashedAllNoEnd(Emit(s, Ok(Gap(s.next, first - 1))), first, blocks);
      } else {
        DeliveredAllNoEnd(s, dec, first, blocks);
        FlushedNoEnd(DeliveredAll(s, dec, first, blocks), dec);
      }
    }
  }

  lemma IngestedEnds(s: State, dec: Decoder, pkt: Packet)
    ensures forall x :: x in Ingested(s, dec, pkt).outbox && IsEnd(x) ==>
              x in s.outbox || (pkt.header.IsEndOfSession() && x == Ok(EndOfSession(pkt.header.sequence)))
  {
    hide DataIngested;
    DataIngestedNoEnd(Admitted(s, pkt), dec, pkt.header.sequence, pkt.blocks);
  }

  // ----- Retransmission -----

  predicate TrueFrames(c: Setup, feed: seq<Bytes>, fs: seq<Frame>) {
    forall i :: 0 <= i < |fs| ==> TrueAt(c, feed, fs[i].sequence, fs[i].body)
  }

  lemma FrameIngestedFed(c: Setup, feed: seq<Bytes>, base: seq<Event>, lock: nat, s: State, f: Frame)
    requires GoodFeed(c, feed) && Fed(c, feed, base, lock, s) && TrueAt(c, feed, f.sequence, f.body)
    ensures Fed(c, feed, base, lock, FrameIngested(s, c.dec, c.session, f))
    ensures NoNewEnd(s, FrameIngested(s, c.dec, c.session, f))
  {
    hide Ingested, Fed;
    assert GoodBlock(feed[f.sequence - c.start]);
    var pkt := NewData(c.session, f.sequence, [f.body]).value;
    assert Honest(c, feed, pkt);
    IngestedFed(c, feed, base, lock, s, pkt);
    IngestedEnds(s, c.dec, pkt);
  }

  lemma {:induction false} FramesIngestedFed(c: Setup, feed: seq<Bytes>, base: seq<Event>, lock: nat,
                                             s: State, fs: seq<Frame>)
    requires GoodFeed(c, feed) && Fed(c, feed, base, lock, s) && TrueFrames(c, feed, fs)
    ensures Fed(c, feed, base, lock, FramesIngested(s, c.dec, c.session, fs))
    ensures NoNewEnd(s, FramesIngested(s, c.dec, c.session, fs))
  {
    hide FrameIngested, Fed;
    if fs != [] {
      var n := |fs| - 1;
      FramesIngestedFed(c, feed, base, lock, s, fs[..n]);
      FrameIngestedFed(c, feed, base, lock, FramesIngested(s, c.dec, c.session, fs[..n]), fs[n]);
    }
  }
}
