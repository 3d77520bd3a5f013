/** Which number a receiver starts from. */
module MoldLock {
  import opened Wire
  import opened MoldPacket
  import opened MoldCache
  import opened MoldReceiver
  import opened MoldFeed
  import opened MoldSystem
  import P = MoldPublisher
  import PL = MoldPublisherLaws
  import MoldStall

  /** The packet that the first `Receive` step of a run names. */
  function FirstReceived(steps: seq<Step>): Option<nat> {
    if steps == [] then None
    else if steps[0].Receive? then Some(steps[0].i)
    else FirstReceived(steps[1..])
  }

  /** The configured start number, or else the number of the packet received first. */
  function StartOf(start: nat, first: Packet): nat {
    if start != 0 then start else first.header.sequence
  }

  /** Packets once sent stay sent. */
  lemma SentGrows(c: Setup, w: World, step: Step)
    requires Enabled(c, w, step)
    ensures w.pub.sent <= Take(c, w, step).pub.sent
  {
    if step.Publish? {
      PL.TurnSends(w.pub, step.input);
    }
    hide Ingested, P.Turn, FramesIngested;
  }

  /** Once started, a receiver never changes the number it started from. */
  lemma StartedStays(c: Setup, w: World, step: Step)
    requires Inv(c, w) && w.rx.bootstrapped && Enabled(c, w, step)
    ensures Take(c, w, step).lock == w.lock && Take(c, w, step).rx.bootstrapped
  {
    MoldStall.StepForward(c, w, step);
    hide Inv, Ingested, FramesIngested;
  }

  lemma {:induction false} StartedRun(c: Setup, w: World, steps: seq<Step>)
    requires Inv(c, w) && w.rx.bootstrapped && Runs(c, w, steps)
    ensures var v := Last(c, w, steps);
            v.lock == w.lock && v.rx.bootstrapped && w.pub.sent <= v.pub.sent
    decreases |steps|
  {
    hide Inv, Take, Enabled;
    if steps != [] {
      StartedStays(c, w, steps[0]);
      SentGrows(c, w, steps[0]);
      assert LockedStep(w, steps[0]) by {
        MoldStall.InvMidway(c, w);
      }
      TakeInv(c, w, steps[0]);
      StartedRun(c, Take(c, w, steps[0]), steps[1..]);
    }
  }

  /** The first packet of the publisher starts the receiver. */
  lemma FirstStarts(c: Setup, w: World, i: nat)
    requires Inv(c, w) && !w.rx.bootstrapped && Enabled(c, w, Receive(i))
    ensures var v := Take(c, w, Receive(i));
            v.rx.bootstrapped && v.lock == StartOf(w.rx.start, w.pub.sent[i]) && v.pub == w.pub
  {
    var pkt := w.pub.sent[i];
    var s := Admitted(w.rx, pkt);
    SentIsHonest(c, w, i);
    AdmittedFed(c, w, pkt);
    InvIsSafe(c, w);
    assert w.rx.next == w.rx.start && s.next == StartOf(w.rx.start, pkt);
    hide Inv, Data, Ingested, Honest;
    IngestedFed(c, w.feed, Data(w.surfaced), s.next, s, pkt);
    IngestedAdmitted(w.rx, c.dec, pkt);
  }

  /** Nothing else does. */
  lemma OthersWait(c: Setup, w: World, step: Step)
    requires Inv(c, w) && !w.rx.bootstrapped && Enabled(c, w, step) && LockedStep(w, step) && !step.Receive?
    ensures var v := Take(c, w, step);
            !v.rx.bootstrapped && v.rx.start == w.rx.start
  {
    hide PL.Packed, PL.EndMarks, FramesIngested;
    if step.Foreign? {
      ForeignRefused(w.rx, c.dec, step.pkt);
    }
  }

  /**
   * Over every run a receiver has started if and only if it was handed a packet of its publisher,
   * and then it counts from its configured start number or, without one, from the number of the
   * first packet it was handed.
   */
  lemma {:induction false} StartsFromFirst(c: Setup, w: World, steps: seq<Step>)
    requires Inv(c, w) && !w.rx.bootstrapped && Runs(c, w, steps) && LockedRun(c, w, steps)
    ensures var v, first := Last(c, w, steps), FirstReceived(steps);
            && (v.rx.bootstrapped <==> first.Some?)
            && (first.Some? ==> first.value < |v.pub.sent| && v.lock == StartOf(w.rx.start, v.pub.sent[first.value]))
    decreases |steps|
  {
    if steps != [] {
      var step := steps[0];
      var v := Take(c, w, step);
      TakeInv(c, w, step);
      if step.Receive? {
        FirstStarts(c, w, step.i);
        assert step.i < |w.pub.sent|;
        hide Inv, Take, Enabled;
        StartedRun(c, v, steps[1..]);
      } else {
        OthersWait(c, w, step);
        hide Inv, Take, Enabled, StartOf;
        StartsFromFirst(c, v, steps[1..]);
      }
    }
  }

  /** From the start of the system. */
  lemma StartsFrom(c: Setup, w: World, steps: seq<Step>)
    requires Init(c, w) && Runs(c, w, steps) && LockedRun(c, w, steps)
    ensures var v, first := Last(c, w, steps), FirstReceived(steps);
            && (v.rx.bootstrapped <==> first.Some?)
            && (first.Some? ==> first.value < |v.pub.sent| && v.lock == StartOf(w.rx.start, v.pub.sent[first.value]))
  {
    InitInv(c, w);
    hide Inv, Runs, Last, LockedRun, FirstReceived, StartOf;
    StartsFromFirst(c, w, steps);
  }

  // ----- Frames handed over before any packet -----

  lemma FirstBlockLocks(s: State, dec: Decoder, session: Bytes, n: nat, body: Bytes)
    requires s == Fresh(None, s.start, s.maxPending, s.policy)
    ensures Ingested(s, dec, Packet(Header(session, n, 1), [body])).session == Some(session)
  {
    var t := Admitted(s, Packet(Header(session, n, 1), [body]));
    var none: seq<Bytes> := [];
    assert [body][1..] == none;
    if t.next < n {
      var u := Stashed(Emit(t, Ok(Gap(t.next, n - 1))), n, body);
      assert StashedAll(u, AddU64(n, 1), none) == u && u.session == t.session;
    }
    assert DeliveredAll(t, dec, n, [body]).session == t.session && DeliveredAll(t, dec, n, [body]).pending == map[] by {
      var u := if n < t.next then t else Delivered(t, dec, n, body);
      assert DeliveredAll(u, dec, AddU64(n, 1), none) == u;
    }
    hide DeliveredAll;
  }

  /** A recovered frame that comes before any packet locks the blank session, and every packet of a
      real session is refused from then on. */
  lemma EarlyFramesLockBlank(s: State, dec: Decoder, f: Frame, pkt: Packet)
    requires s == Fresh(None, s.start, s.maxPending, s.policy) && GoodBlock(f.body)
    ensures var blank: Bytes := [32, 32, 32, 32, 32, 32, 32, 32, 32, 32];
            var t := Retransmitted(s, dec, [f]);
            && t == Ingested(s, dec, Packet(Header(blank, f.sequence, 1), [f.body])) && t.session == Some(blank)
            && (pkt.header.session != blank ==>
                  Ingested(t, dec, pkt) == Emit(t, Err(SessionMismatch(blank, pkt.header.session))))
  {
    FirstBlockLocks(s, dec, BLANK_SESSION, f.sequence, f.body);
    hide Admitted, DataIngested;
    var none: seq<Frame> := [];
    assert [f][..0] == none && FramesIngested(s, dec, BLANK_SESSION, none) == s;
    assert FramesIngested(s, dec, BLANK_SESSION, [f]) == FrameIngested(s, dec, BLANK_SESSION, f);
  }

  /** A frame that is empty or over the limit is reported and changes nothing else. */
  lemma BadFrameReported(s: State, dec: Decoder, session: Bytes, f: Frame)
    requires !GoodBlock(f.body)
    ensures FrameIngested(s, dec, session, f) ==
            Emit(s, Err(if f.body == [] then EmptyBlock else BlockTooLarge(|f.body|, 1024)))
  {
  }
}
