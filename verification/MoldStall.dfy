/** What moves a waiting receiver on, and what can still be surfaced after the end of the session. */
module MoldStall {
  import opened Wire
  import opened MoldPacket
  import opened Ordered
  import opened MoldCache
  import opened MoldReceiver
  import opened MoldReceiverLaws
  import opened MoldGap
  import opened MoldFeed
  import opened MoldSystem
  import P = MoldPublisher
  import PL = MoldPublisherLaws

  // ----- One packet, one frame, one answer -----

  /** The packet carries the expected number. */
  predicate CarriesNext(s: State, pkt: Packet) {
    IsData(s, pkt) && pkt.header.sequence <= s.next < pkt.header.sequence + |pkt.blocks|
  }

  lemma {:induction false} StashedAllNext(s: State, first: nat, blocks: seq<Bytes>)
    ensures StashedAll(s, first, blocks).next == s.next
    decreases |blocks|
  {
    if blocks != [] {
      StashedAllNext(Stashed(s, first, blocks[0]), AddU64(first, 1), blocks[1..]);
    }
  }

  lemma DataMovesIff(s: State, dec: Decoder, first: nat, blocks: seq<Bytes>)
    requires Midway(s) && GoodBlocks(blocks) && first + |blocks| <= U64_MAX
    ensures DataIngested(s, dec, first, blocks).next != s.next <==> first <= s.next < first + |blocks|
  {
    if first <= s.next {
      DataForward(s, dec, first, blocks);
    } else {
      StashedAllNext(Emit(s, Ok(Gap(s.next, first - 1))), first, blocks);
    }
  }

  /** A packet changes the expected number if and only if it carries it. */
  lemma PacketMovesIff(s: State, dec: Decoder, pkt: Packet)
    requires Midway(s) && Ordinary(pkt)
    ensures Ingested(s, dec, pkt).next != s.next <==> CarriesNext(s, pkt)
  {
    hide DataIngested;
    if IsData(s, pkt) {
      DataMovesIff(s, dec, pkt.header.sequence, pkt.blocks);
    }
  }

  predicate HasFrame(fs: seq<Frame>, n: nat) {
    exists i :: 0 <= i < |fs| && fs[i].sequence == n
  }

  predicate InRangeFrames(fs: seq<Frame>) {
    GoodFrames(fs) && forall i :: 0 <= i < |fs| ==> fs[i].sequence < U64_MAX
  }

  /** An answer moves the receiver if and only if it has the expected number among its frames. */
  lemma {:induction false} FramesMoveIff(s: State, dec: Decoder, fs: seq<Frame>)
    requires Midway(s) && InRangeFrames(fs)
    ensures var t := FramesIngested(s, dec, s.session.value, fs);
            Forward(s, t) && (t.next != s.next <==> HasFrame(fs, s.next))
  {
    hide Ingested;
    if fs != [] {
      var n := |fs| - 1;
      FramesMoveIff(s, dec, fs[..n]);
      var t := FramesIngested(s, dec, s.session.value, fs[..n]);
      var pkt := NewData(s.session.value, fs[n].sequence, [fs[n].body]).value;
      IngestedForward(t, dec, pkt);
      LastFrame(fs, s.next);
      PacketMovesIff(t, dec, pkt);
    }
  }

  lemma LastFrame(fs: seq<Frame>, n: nat)
    requires fs != []
    ensures HasFrame(fs, n) <==> HasFrame(fs[..|fs| - 1], n) || fs[|fs| - 1].sequence == n
  {
    var front := fs[..|fs| - 1];
    if i :| 0 <= i < |front| && front[i].sequence == n {
      assert fs[i].sequence == n;
    }
    if i :| 0 <= i < |fs| - 1 && fs[i].sequence == n {
      assert front[i].sequence == n;
    }
  }

  // ----- A stale entry -----

  lemma {:induction false} StashedAllKeeps(s: State, first: nat, blocks: seq<Bytes>, k: nat)
    requires k < first && first + |blocks| <= U64_MAX
    ensures k in StashedAll(s, first, blocks).pending <==> k in s.pending && k !in EvictedIn(s, first, blocks)
    decreases |blocks|
  {
    if blocks != [] {
      hide Stashed, Accepts, Evicts;
      StashedKeys(s, first, blocks[0]);
      var t := Stashed(s, first, blocks[0]);
      assert StashedAll(s, first, blocks) == StashedAll(t, first + 1, blocks[1..]);
      assert EvictedIn(s, first, blocks) == Evicts(s, first) + EvictedIn(t, first + 1, blocks[1..]);
      hide StashedAll, EvictedIn;
      assert k in t.pending <==> k in s.pending && k !in Evicts(s, first);
      StashedAllKeeps(t, first + 1, blocks[1..], k);
    }
  }

  /** While a stale entry is buffered nothing is flushed, and it stays exactly until it is evicted. */
  lemma StaleUntilEvicted(s: State, dec: Decoder, pkt: Packet, k: nat)
    requires Midway(s) && Ordinary(pkt) && k in s.pending && k < s.next
    ensures k in Ingested(s, dec, pkt).pending <==> k !in EvictedBy(s, pkt)
    ensures FlushedBy(s, dec, pkt) == [] && k < Ingested(s, dec, pkt).next
  {
    var first, blocks := pkt.header.sequence, pkt.blocks;
    IngestedForward(s, dec, pkt);
    if IsData(s, pkt) {
      assert Admitted(s, pkt) == s;
      if Buffers(s, first, blocks) {
        StashedAllKeeps(Announced(s, first), first, blocks, k);
      } else if Delivers(s, first, blocks) {
        var d := DeliveredAll(s, dec, first, blocks);
        DeliveredAllNext(s, dec, first, blocks);
        hide DeliveredAll;
        assert k in d.pending.Keys && k < d.next;
        FlushedStale(d, dec);
      }
    }
  }

  lemma {:induction false} RefusingKeeps(s: State, first: nat, blocks: seq<Bytes>)
    requires s.policy == Error
    ensures var t := StashedAll(s, first, blocks);
            t.policy == Error && s.pending.Keys <= t.pending.Keys && EvictedIn(s, first, blocks) == []
    decreases |blocks|
  {
    if blocks != [] {
      RefusingKeeps(Stashed(s, first, blocks[0]), AddU64(first, 1), blocks[1..]);
    }
  }

  lemma RefusingStep(s: State, dec: Decoder, pkt: Packet, k: nat)
    requires s.policy == Error && Midway(s) && Ordinary(pkt) && k in s.pending && k < s.next
    ensures var t := Ingested(s, dec, pkt);
            t.policy == Error && s.pending.Keys <= t.pending.Keys && EvictedBy(s, pkt) == []
  {
    var first, blocks := pkt.header.sequence, pkt.blocks;
    if IsData(s, pkt) {
      assert Admitted(s, pkt) == s;
      if Buffers(s, first, blocks) {
        RefusingKeeps(Announced(s, first), first, blocks);
      } else if Delivers(s, first, blocks) {
        var d := DeliveredAll(s, dec, first, blocks);
        DeliveredAllLedger(s, dec, first, blocks);
        DeliveredAllNext(s, dec, first, blocks);
        hide DeliveredAll;
        assert k in d.pending.Keys && k < d.next;
        FlushedStale(d, dec);
      }
    }
  }

  /** Under the `Error` policy a stale entry stays for good, and with it everything buffered: no
      packet is ever flushed again. */
  lemma {:induction false} StaleForever(s: State, dec: Decoder, pkts: seq<Packet>, k: nat)
    requires s.policy == Error && Midway(s) && k in s.pending && k < s.next
    requires forall i :: 0 <= i < |pkts| ==> Ordinary(pkts[i])
    ensures var t := IngestedAll(s, dec, pkts);
            && s.pending.Keys <= t.pending.Keys && k < t.next && t.policy == Error && Midway(t)
            && TotalFlushed(s, dec, pkts) == [] && TotalEvicted(s, dec, pkts) == []
  {
    hide Ingested, FlushedBy, EvictedBy, Ordinary;
    if pkts != [] {
      var n := |pkts| - 1;
      StaleForever(s, dec, pkts[..n], k);
      var t := IngestedAll(s, dec, pkts[..n]);
      assert k in t.pending.Keys;
      StaleUntilEvicted(t, dec, pkts[n], k);
      RefusingStep(t, dec, pkts[n], k);
      IngestedForward(t, dec, pkts[n]);
    }
  }

  // ----- Whole runs -----

  /** The step hands the receiver the number it is waiting for. */
  predicate Fills(c: Setup, w: World, step: Step)
    requires Enabled(c, w, step)
  {
    match step
    case Receive(i) => CarriesNext(w.rx, w.pub.sent[i])
    case Recover => HasFrame(w.reply.value, w.rx.next)
    case _ => false
  }

  lemma InvMidway(c: Setup, w: World)
    requires Inv(c, w) && w.rx.bootstrapped
    ensures Midway(w.rx) && w.rx.session == Some(c.session)
  {
    hide PL.Packed, PL.EndMarks, Data;
  }

  lemma SentOrdinary(c: Setup, w: World, i: nat)
    requires Inv(c, w) && i < |w.pub.sent|
    ensures Ordinary(w.pub.sent[i])
  {
    SentIsHonest(c, w, i);
    assert GoodFeed(c, w.feed);
    hide Inv;
    var pkt := w.pub.sent[i];
    forall j | 0 <= j < |pkt.blocks|
      ensures GoodBlock(pkt.blocks[j])
    {
      assert pkt.blocks[j] == w.feed[pkt.header.sequence - c.start + j];
    }
  }

  lemma ReplyInRange(c: Setup, w: World)
    requires Inv(c, w) && w.reply.Some?
    ensures InRangeFrames(w.reply.value)
  {
    hide PL.Packed, PL.EndMarks, Data, Fed;
    var fs := w.reply.value;
    forall i | 0 <= i < |fs|
      ensures GoodBlock(fs[i].body) && fs[i].sequence < U64_MAX
    {
      assert TrueAt(c, w.feed, fs[i].sequence, fs[i].body);
      assert GoodBlock(w.feed[fs[i].sequence - c.start]);
    }
  }

  /** No step moves the receiver back. */
  lemma StepForward(c: Setup, w: World, step: Step)
    requires Inv(c, w) && w.rx.bootstrapped && Enabled(c, w, step)
    ensures w.rx.next <= Take(c, w, step).rx.next && Take(c, w, step).rx.bootstrapped
  {
    InvMidway(c, w);
    match step
    case Receive(i) =>
      SentOrdinary(c, w, i);
      hide Inv, Ingested;
      IngestedForward(w.rx, c.dec, w.pub.sent[i]);
    case Recover =>
      ReplyInRange(c, w);
      hide Inv, Ingested;
      FramesMoveIff(w.rx, c.dec, w.reply.value);
    case _ =>
      hide Inv;
  }

  /** A step changes the expected number if and only if it hands it over. */
  lemma StepMovesIff(c: Setup, w: World, step: Step)
    requires Inv(c, w) && w.rx.bootstrapped && Enabled(c, w, step)
    ensures Take(c, w, step).rx.next != w.rx.next <==> Fills(c, w, step)
  {
    InvMidway(c, w);
    match step
    case Receive(i) =>
      SentOrdinary(c, w, i);
      hide Inv, Ingested;
      PacketMovesIff(w.rx, c.dec, w.pub.sent[i]);
    case Recover =>
      ReplyInRange(c, w);
      hide Inv, Ingested;
      FramesMoveIff(w.rx, c.dec, w.reply.value);
    case _ =>
      hide Inv;
  }

  predicate NeverFilled(c: Setup, w: World, steps: seq<Step>)
    requires Runs(c, w, steps)
    decreases |steps|
  {
    steps == [] || (!Fills(c, w, steps[0]) && NeverFilled(c, Take(c, w, steps[0]), steps[1..]))
  }

  lemma {:induction false} RunForward(c: Setup, w: World, steps: seq<Step>)
    requires Inv(c, w) && w.rx.bootstrapped && Runs(c, w, steps)
    ensures w.rx.next <= Last(c, w, steps).rx.next
    decreases |steps|
  {
    hide Inv, Take, Enabled;
    if steps != [] {
      StepForward(c, w, steps[0]);
      assert LockedStep(w, steps[0]) by {
        InvMidway(c, w);
      }
      TakeInv(c, w, steps[0]);
      RunForward(c, Take(c, w, steps[0]), steps[1..]);
    }
  }

  /** Over any run a receiver stays where it is if and only if no step hands it the number
      it waits for. */
  lemma {:induction false} StaysIffNeverFilled(c: Setup, w: World, steps: seq<Step>)
    requires Inv(c, w) && w.rx.bootstrapped && Runs(c, w, steps)
    ensures Last(c, w, steps).rx.next == w.rx.next <==> NeverFilled(c, w, steps)
    decreases |steps|
  {
    if steps != [] {
      hide Inv, Take, Enabled, Fills;
      var v := Take(c, w, steps[0]);
      StepMovesIff(c, w, steps[0]);
      StepForward(c, w, steps[0]);
      assert LockedStep(w, steps[0]) by {
        InvMidway(c, w);
      }
      TakeInv(c, w, steps[0]);
      if Fills(c, w, steps[0]) {
        RunForward(c, v, steps[1..]);
      } else {
        StaysIffNeverFilled(c, v, steps[1..]);
      }
    }
  }

  /** Giving up on a gap does not move the receiver on: it stays at the gap until some later step
      hands it the missing number. */
  lemma GivingUpStays(c: Setup, w0: World, before: seq<Step>, e: MoldError, after: seq<Step>)
    requires Init(c, w0) && Runs(c, w0, before) && LockedRun(c, w0, before)
    requires Enabled(c, Last(c, w0, before), GiveUp(e))
    requires Runs(c, Take(c, Last(c, w0, before), GiveUp(e)), after)
    ensures var w := Last(c, w0, before);
            var v := Take(c, w, GiveUp(e));
            Last(c, v, after).rx.next == w.rx.next <==> NeverFilled(c, v, after)
  {
    InitInv(c, w0);
    hide Inv, Init, Runs, Last, LockedRun, NeverFilled;
    RunInv(c, w0, before);
    var w := Last(c, w0, before);
    var v := Take(c, w, GiveUp(e));
    assert v.rx == w.rx && LockedStep(w, GiveUp(e));
    ActiveMeansLocked(c, w);
    hide Take, Enabled;
    TakeInv(c, w, GiveUp(e));
    StaysIffNeverFilled(c, v, after);
  }

  // ----- A gap being recovered -----

  predicate IsGap(item: Item) {
    item.Ok? && item.value.Gap?
  }

  /** Every queued gap starts at or below `n`. */
  predicate GapsUpTo(s: State, n: nat) {
    forall i :: 0 <= i < |s.outbox| && IsGap(s.outbox[i]) ==> s.outbox[i].value.from <= n
  }

  lemma {:induction false} DeliveredGaps(s: State, dec: Decoder, first: nat, blocks: seq<Bytes>, n: nat)
    requires GapsUpTo(s, n)
    ensures GapsUpTo(DeliveredAll(s, dec, first, blocks), n)
    decreases |blocks|
  {
    if blocks != [] {
      var s' := if first < s.next then s else Delivered(s, dec, first, blocks[0]);
      DeliveredGaps(s', dec, AddU64(first, 1), blocks[1..], n);
    }
  }

  lemma {:induction false} StashedGaps(s: State, first: nat, blocks: seq<Bytes>, n: nat)
    requires GapsUpTo(s, n)
    ensures GapsUpTo(StashedAll(s, first, blocks), n)
    decreases |blocks|
  {
    if blocks != [] {
      StashedGaps(Stashed(s, first, blocks[0]), AddU64(first, 1), blocks[1..], n);
    }
  }

  lemma DeliveredGap(s: State, dec: Decoder, k: nat, body: Bytes, n: nat)
    requires GapsUpTo(s, n)
    ensures GapsUpTo(Delivered(s, dec, k, body), n)
  {
  }

  lemma {:induction false} FlushedGaps(s: State, dec: Decoder, n: nat)
    requires GapsUpTo(s, n)
    ensures GapsUpTo(Flushed(s, dec), n)
    decreases |s.pending|
  {
    hide Delivered;
    if s.pending != map[] && Least(s.pending.Keys) == s.next {
      var r := s.(pending := s.pending - {s.next});
      FlushedStep(s, dec);
      assert GapsUpTo(r, n);
      hide Flushed, GapsUpTo;
      DeliveredGap(r, dec, s.next, s.pending[s.next], n);
      FlushedGaps(Delivered(r, dec, s.next, s.pending[s.next]), dec, n);
    }
  }

  lemma IngestedGaps(s: State, dec: Decoder, pkt: Packet)
    requires s.bootstrapped && GapsUpTo(s, s.next)
    ensures GapsUpTo(Ingested(s, dec, pkt), s.next)
  {
    var first, blocks := pkt.header.sequence, pkt.blocks;
    if IsData(s, pkt) {
      var a := Admitted(s, pkt);
      if Buffers(a, first, blocks) {
        StashedGaps(Announced(a, first), first, blocks, s.next);
      } else if Delivers(a, first, blocks) {
        DeliveredGaps(a, dec, first, blocks, s.next);
        FlushedGaps(DeliveredAll(a, dec, first, blocks), dec, s.next);
      }
    }
  }

  /** Every gap queued or being recovered starts at or below the expected number. */
  predicate GapsBehind(w: World) {
    w.rx.bootstrapped && GapsUpTo(w.rx, w.rx.next) && (w.active.Some? ==> w.active.value.0 <= w.rx.next)
  }

  lemma {:induction false} FramesGaps(s: State, dec: Decoder, fs: seq<Frame>)
    requires Midway(s) && InRangeFrames(fs) && GapsUpTo(s, s.next)
    ensures var t := FramesIngested(s, dec, s.session.value, fs);
            GapsUpTo(t, t.next) && Forward(s, t)
  {
    hide Ingested;
    if fs != [] {
      var n := |fs| - 1;
      FramesGaps(s, dec, fs[..n]);
      var t := FramesIngested(s, dec, s.session.value, fs[..n]);
      var pkt := NewData(s.session.value, fs[n].sequence, [fs[n].body]).value;
      IngestedForward(t, dec, pkt);
      IngestedGaps(t, dec, pkt);
    }
  }

  lemma StepGaps(c: Setup, w: World, step: Step)
    requires Inv(c, w) && GapsBehind(w) && Enabled(c, w, step)
    ensures GapsBehind(Take(c, w, step))
  {
    InvMidway(c, w);
    match step
    case Receive(i) =>
      SentOrdinary(c, w, i);
      hide Inv, Ingested;
      IngestedForward(w.rx, c.dec, w.pub.sent[i]);
      IngestedGaps(w.rx, c.dec, w.pub.sent[i]);
    case Recover =>
      ReplyInRange(c, w);
      hide Inv, Ingested;
      FramesGaps(w.rx, c.dec, w.reply.value);
    case Poll =>
      hide Inv;
      assert IsGap(w.rx.outbox[0]) ==> w.rx.outbox[0].value.from <= w.rx.next;
    case _ =>
      hide Inv;
  }

  /** Before the first packet there is no gap; the first packet starts the receiver with none behind. */
  lemma FirstGaps(c: Setup, w: World, step: Step)
    requires Inv(c, w) && !w.rx.bootstrapped && Enabled(c, w, step) && LockedStep(w, step)
    ensures Take(c, w, step).rx.bootstrapped ==> GapsBehind(Take(c, w, step))
  {
    hide PL.Packed, PL.EndMarks;
    if step.Receive? {
      var pkt := w.pub.sent[step.i];
      SentIsHonest(c, w, step.i);
      SentOrdinary(c, w, step.i);
      var s := Admitted(w.rx, pkt);
      assert GapsUpTo(s, s.next) && Midway(s) && w.active == None;
      IngestedAdmitted(w.rx, c.dec, pkt);
      hide Inv, Ingested;
      IngestedGaps(s, c.dec, pkt);
      IngestedForward(s, c.dec, pkt);
    } else if step.Foreign? {
      ForeignRefused(w.rx, c.dec, step.pkt);
    }
  }

  lemma {:induction false} RunGaps(c: Setup, w: World, steps: seq<Step>)
    requires Inv(c, w) && (w.rx.bootstrapped ==> GapsBehind(w)) && Runs(c, w, steps) && LockedRun(c, w, steps)
    ensures Last(c, w, steps).rx.bootstrapped ==> GapsBehind(Last(c, w, steps))
    decreases |steps|
  {
    hide Inv, Take, Enabled, GapsBehind;
    if steps != [] {
      TakeInv(c, w, steps[0]);
      if w.rx.bootstrapped {
        StepGaps(c, w, steps[0]);
      } else {
        FirstGaps(c, w, steps[0]);
      }
      RunGaps(c, Take(c, w, steps[0]), steps[1..]);
    }
  }

  predicate CoversGap(w: World, step: Step) {
    step.Serve? && 0 < step.capacity && step.pushes <= |w.pub.cached| && w.active.Some?
    && Covers(PushedAll(step.capacity, w.pub.cached[..step.pushes]), w.active.value.0, w.active.value.1)
  }

  /** A cache that covers the gap answers with all of it. */
  lemma CoveringAnswer(c: Setup, w: World, step: Step)
    requires Inv(c, w) && CoversGap(w, step) && Enabled(c, w, step)
    ensures var (from, to) := w.active.value;
            && step.response.frames == step.run && GoodFrames(step.run) && Consecutive(from, step.run)
            && from + |step.run| == to + 1 <= U64_MAX
  {
    var (from, to) := w.active.value;
    var pushed := w.pub.cached[..step.pushes];
    CachedIsTrue(c, w);
    assert TrueFrames(c, w.feed, pushed) && GoodFeed(c, w.feed);
    hide Inv, TrueFrames, GoodFeed;
    RetainedIsTrue(c, w.feed, step.capacity, pushed);
    var inner := PushedAll(step.capacity, pushed);
    hide PushedAll;
    AnswerIsTrue(c, w.feed, inner, step.eos, from, GapCount((from, to)), step.run, step.response);
    CoveredRun(inner, from, to, step.run);
  }

  /** It closes the gap whenever it is handed over. */
  lemma AnswerCloses(c: Setup, w: World, step: Step, s: State)
    requires Inv(c, w) && CoversGap(w, step) && Enabled(c, w, step)
    requires Midway(s) && w.active.value.0 <= s.next
    ensures w.active.value.1 < Retransmitted(s, c.dec, step.response.frames).next
  {
    CoveringAnswer(c, w, step);
    hide Inv, FrameIngested, CoversGap, Enabled, GoodFrames, Consecutive;
    FramesForward(s, c.dec, w.active.value.0, step.run);
  }

  lemma ServedFrom(c: Setup, w: World, step: Step, between: seq<Step>)
    requires Inv(c, w) && GapsBehind(w) && CoversGap(w, step) && Enabled(c, w, step)
    requires var v := Take(c, w, step);
             Runs(c, v, between) && LockedRun(c, v, between) && Last(c, v, between).reply == v.reply
    ensures var u := Last(c, Take(c, w, step), between);
            Enabled(c, u, Recover) && w.active.value.1 < Take(c, u, Recover).rx.next
  {
    var v := Take(c, w, step);
    var u := Last(c, v, between);
    ServeTakes(c, w, step);
    hide Inv, Runs, Last, LockedRun, CoversGap, Take, Enabled;
    TakeInv(c, w, step);
    RunInv(c, v, between);
    RunForward(c, v, between);
    ReplyMeansLocked(c, u);
    InvMidway(c, u);
    AnswerCloses(c, w, step, u.rx);
    RecoverTakes(c, u);
  }

  lemma ServeTakes(c: Setup, w: World, step: Step)
    requires GapsBehind(w) && CoversGap(w, step) && Enabled(c, w, step)
    ensures var v := Take(c, w, step);
            v.rx == w.rx && v.reply == Some(step.response.frames) && w.active.value.0 <= w.rx.next && v.rx.bootstrapped
  {
    hide Covers, Answers, GapsUpTo;
  }

  lemma RecoverTakes(c: Setup, u: World)
    requires u.reply.Some?
    ensures Enabled(c, u, Recover) && Take(c, u, Recover).rx == Retransmitted(u.rx, c.dec, u.reply.value)
  {
  }

  /** In the whole system: once a cache that covers the gap under recovery has answered, the receiver
      ends up past the gap, whatever happens before the answer is handed over. */
  lemma ServedGapCloses(c: Setup, w0: World, before: seq<Step>, step: Step, between: seq<Step>)
    requires Init(c, w0) && Runs(c, w0, before) && LockedRun(c, w0, before)
    requires var w := Last(c, w0, before);
             CoversGap(w, step) && Enabled(c, w, step)
    requires var v := Take(c, Last(c, w0, before), step);
             Runs(c, v, between) && LockedRun(c, v, between) && Last(c, v, between).reply == v.reply
    ensures var w := Last(c, w0, before);
            var u := Last(c, Take(c, w, step), between);
            Enabled(c, u, Recover) && w.active.value.1 < Take(c, u, Recover).rx.next
  {
    var w := Last(c, w0, before);
    InitInv(c, w0);
    assert !w0.rx.bootstrapped && w.active.Some?;
    hide Init, Runs, Last, LockedRun, CoversGap, Enabled, Take;
    RunInv(c, w0, before);
    ActiveMeansLocked(c, w);
    hide Inv;
    RunGaps(c, w0, before);
    ServedFrom(c, w, step, between);
  }

  lemma ActiveMeansLocked(c: Setup, w: World)
    requires Inv(c, w) && w.active.Some?
    ensures w.rx.bootstrapped
  {
    hide PL.Packed, PL.EndMarks;
  }

  lemma ReplyMeansLocked(c: Setup, u: World)
    requires Inv(c, u) && u.reply.Some?
    ensures u.rx.bootstrapped
  {
    hide PL.Packed, PL.EndMarks;
  }

  // ----- After the end of the session -----

  lemma {:induction false} FinishedIdle(c: Setup, w: World, steps: seq<Step>)
    requires w.finished && w.active == None && w.reply == None && Runs(c, w, steps)
    ensures Last(c, w, steps).surfaced == w.surfaced
    decreases |steps|
  {
    if steps != [] {
      FinishedIdle(c, Take(c, w, steps[0]), steps[1..]);
    }
  }

  lemma GiveUpSurfaces(c: Setup, w: World, e: MoldError)
    requires w.active.Some?
    ensures Take(c, w, GiveUp(e)).surfaced == w.surfaced + [Err(e)]
  {
  }

  /** After the end of the session nothing more is surfaced, on any run, if and only if no recovery
      is under way. */
  lemma SilentIffIdle(c: Setup, w: World, e: MoldError)
    requires w.finished && (w.active == None ==> w.reply == None)
    ensures (forall steps :: Runs(c, w, steps) ==> Last(c, w, steps).surfaced == w.surfaced) <==> w.active == None
  {
    hide Take;
    if w.active == None {
      forall steps | Runs(c, w, steps)
        ensures Last(c, w, steps).surfaced == w.surfaced
      {
        FinishedIdle(c, w, steps);
      }
    } else {
      GiveUpSurfaces(c, w, e);
      var none: seq<Step> := [];
      var v := Take(c, w, GiveUp(e));
      assert [GiveUp(e)][1..] == none && Runs(c, v, none) && Last(c, v, none) == v;
      var steps := [GiveUp(e)];
      assert Runs(c, w, steps) && Last(c, w, steps) == v;
      assert |v.surfaced| == |w.surfaced| + 1;
      assert Last(c, w, steps).surfaced != w.surfaced;
    }
  }

  lemma {:induction false} Extend(c: Setup, w: World, steps: seq<Step>, step: Step)
    requires Runs(c, w, steps) && Enabled(c, Last(c, w, steps), step)
    ensures Runs(c, w, steps + [step]) && Last(c, w, steps + [step]) == Take(c, Last(c, w, steps), step)
    decreases |steps|
  {
    hide Enabled, Take;
    var all := steps + [step];
    if steps == [] {
      assert all == [step] && all[1..] == [];
      assert Runs(c, Take(c, w, step), []);
    } else {
      assert all[0] == steps[0] && all[1..] == steps[1..] + [step];
      Extend(c, Take(c, w, steps[0]), steps[1..], step);
    }
  }

  /** A publisher and a receiver that both start at number 1. */
  function Outset(session: Bytes): World {
    World(P.Fresh(session, 1400, 1, 1), [], Fresh(Some(session), 1, 10, DropOldest), 1, false, [], None, None)
  }

  /** Two messages go out in two packets, and then the end of the session. */
  lemma PublishTwo(c: Setup, b: Bytes) returns (steps: seq<Step>)
    requires c.start == 1 && |b| == 1 && c.dec(b).Ok?
    ensures Init(c, Outset(c.session)) && Runs(c, Outset(c.session), steps)
    ensures var v := Last(c, Outset(c.session), steps);
            && |v.pub.sent| == 3 && v.pub.sent[1] == DataPacket(c.session, 2, [b])
            && v.pub.sent[2] == MoldPacket.EndOfSession(c.session, 3)
            && v == Outset(c.session).(pub := v.pub, feed := v.feed)
  {
    var w := Outset(c.session);
    var w1 := Take(c, w, Publish(P.Item(b)));
    var w2 := Take(c, w1, Publish(P.Timer));
    var w3 := Take(c, w2, Publish(P.Item(b)));
    assert w3.pub.sent == [DataPacket(c.session, 1, [b])] && w3.pub.pending == [b] && w3.pub.first == 2;
    var w4 := Take(c, w3, Publish(P.Exhausted));
    assert w4.pub == P.EndBurst(P.Flush(w3.pub), 1);
    assert w4.pub.sent == [DataPacket(c.session, 1, [b])] + [DataPacket(c.session, 2, [b])]
                          + [MoldPacket.EndOfSession(c.session, 3)];
    hide Take, Enabled;
    Extend(c, w, [], Publish(P.Item(b)));
    Extend(c, w, [] + [Publish(P.Item(b))], Publish(P.Timer));
    Extend(c, w, [] + [Publish(P.Item(b))] + [Publish(P.Timer)], Publish(P.Item(b)));
    Extend(c, w, [] + [Publish(P.Item(b))] + [Publish(P.Timer)] + [Publish(P.Item(b))], Publish(P.Exhausted));
    steps := [] + [Publish(P.Item(b))] + [Publish(P.Timer)] + [Publish(P.Item(b))] + [Publish(P.Exhausted)];
  }

  /** The first packet is lost; the second and the end of the session arrive. */
  lemma LoseFirst(c: Setup, b: Bytes) returns (steps: seq<Step>)
    requires c.start == 1 && |b| == 1 && c.dec(b).Ok?
    ensures Init(c, Outset(c.session)) && Runs(c, Outset(c.session), steps)
    ensures var v := Last(c, Outset(c.session), steps);
            && v.rx.outbox == [Ok(Gap(1, 1)), Ok(EndOfSession(3))] && v.surfaced == []
            && !v.finished && v.active == None
  {
    var w := Outset(c.session);
    steps := PublishTwo(c, b);
    var v := Last(c, w, steps);
    var v1 := Take(c, v, Receive(1));
    BufferOne(v.rx, c.dec, 2, b);
    assert v1.rx.outbox == [Ok(Gap(1, 1))];
    var v2 := Take(c, v1, Receive(2));
    assert v2.rx.outbox == [Ok(Gap(1, 1)), Ok(EndOfSession(3))];
    hide Take, Enabled, Init, Ingested;
    Extend(c, w, steps, Receive(1));
    Extend(c, w, steps + [Receive(1)], Receive(2));
    steps := steps + [Receive(1)] + [Receive(2)];
  }

  /** An error does follow the end of the session: the gap is being recovered when the end arrives,
      and then the recovery gives up. */
  lemma LateError(c: Setup, b: Bytes, e: MoldError) returns (steps: seq<Step>)
    requires c.start == 1 && |b| == 1 && c.dec(b).Ok?
    ensures Init(c, Outset(c.session)) && Runs(c, Outset(c.session), steps)
    ensures Last(c, Outset(c.session), steps).surfaced == [Ok(Gap(1, 1)), Ok(EndOfSession(3)), Err(e)]
  {
    var w := Outset(c.session);
    steps := LoseFirst(c, b);
    var v := Last(c, w, steps);
    var v1 := Take(c, v, Poll);
    var v2 := Take(c, v1, Poll);
    var v3 := Take(c, v2, GiveUp(e));
    assert v3.surfaced == [Ok(Gap(1, 1)), Ok(EndOfSession(3)), Err(e)];
    hide Take, Enabled, Init;
    Extend(c, w, steps, Poll);
    Extend(c, w, steps + [Poll], Poll);
    Extend(c, w, steps + [Poll] + [Poll], GiveUp(e));
    steps := steps + [Poll] + [Poll] + [GiveUp(e)];
  }
}
