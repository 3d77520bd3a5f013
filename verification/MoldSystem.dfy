/** Publisher, lossy network, receiver and gap recovery put together: safety over whole runs. */
module MoldSystem {
  import opened Wire
  import opened MoldPacket
  import opened MoldCache
  import opened MoldReceiver
  import opened MoldFeed
  import P = MoldPublisher
  import PL = MoldPublisherLaws

  /** `feed` is what the publisher took from its source so far and `surfaced` what the application
      got so far. `lock` is the number the receiver started from. `active` is the gap being
      recovered and `reply` the answer on its way back. */
  datatype World = World(
    pub: P.State,
    feed: seq<Bytes>,
    rx: State,
    lock: nat,
    finished: bool,
    surfaced: seq<Item>,
    active: Option<(nat, nat)>,
    reply: Option<seq<Frame>>)

  /** `Receive` delivers any packet ever sent: a packet never named is lost, one named twice is
      duplicated, and the order is free. `Serve` answers from the cache as it stood after any
      number of pushes. */
  datatype Step =
    | Publish(input: P.Input)
    | Receive(i: nat)
    | Foreign(pkt: Packet)
    | Poll
    | Fault(error: MoldError)
    | Serve(capacity: nat, pushes: nat, eos: bool, run: seq<Frame>, response: Response)
    | Recover
    | GiveUp(error: MoldError)

  function GapCount(gap: (nat, nat)): nat {
    if gap.1 < gap.0 then 0 else Min(gap.1 - gap.0 + 1, U32_MAX)
  }

  /** The client read `response` off the bytes the server wrote for its lookup. */
  predicate Answers(inner: seq<Frame>, eos: bool, from: nat, count: nat, run: seq<Frame>, response: Response) {
    LongestRun(inner, from, count, run)
    && DecodedResponse(from, EncodedResponse(StatusFor(inner, eos, from, count, |run|), run)) == Ok(response)
  }

  predicate Enabled(c: Setup, w: World, step: Step) {
    match step
    case Publish(input) => w.pub.next < U64_MAX && (input.Item? ==> GoodBlock(input.body) && c.dec(input.body).Ok?)
    case Receive(i) => !w.finished && i < |w.pub.sent|
    case Foreign(pkt) => !w.finished && pkt.header.session != c.session
    case Poll => !w.finished && w.rx.outbox != []
    case Fault(_) => !w.finished
    case Serve(capacity, pushes, eos, run, response) =>
      w.active.Some? && 0 < capacity && pushes <= |w.pub.cached|
      && Answers(PushedAll(capacity, w.pub.cached[..pushes]), eos, w.active.value.0, GapCount(w.active.value),
                 run, response)
    case Recover => w.reply.Some?
    case GiveUp(_) => w.active.Some?
  }

  function Popped(w: World): World
    requires w.rx.outbox != []
  {
    var item := w.rx.outbox[0];
    w.(rx := w.rx.(outbox := w.rx.outbox[1..]),
       surfaced := w.surfaced + [item],
       finished := IsEnd(item),
       active := if w.active.None? && item.Ok? && item.value.Gap? then Some((item.value.from, item.value.to))
                 else w.active)
  }

  function Take(c: Setup, w: World, step: Step): World
    requires Enabled(c, w, step)
  {
    match step
    case Publish(input) => w.(pub := P.Turn(w.pub, input), feed := w.feed + PL.Taken(w.pub, input))
    case Receive(i) =>
      var t := Ingested(w.rx, c.dec, w.pub.sent[i]);
      w.(rx := t, lock := if w.rx.bootstrapped then w.lock else Admitted(w.rx, w.pub.sent[i]).next)
    case Foreign(pkt) =>
      var admitted := !w.rx.bootstrapped && SessionAccepts(w.rx, pkt);
      w.(rx := Ingested(w.rx, c.dec, pkt), lock := if admitted then Admitted(w.rx, pkt).next else w.lock)
    case Poll => Popped(w)
    case Fault(e) => w.(surfaced := w.surfaced + [Err(e)])
    case Serve(_, _, _, _, response) => w.(reply := Some(response.frames))
    case Recover => w.(rx := Retransmitted(w.rx, c.dec, w.reply.value), active := None, reply := None)
    case GiveUp(e) => w.(surfaced := w.surfaced + [Err(e)], active := None, reply := None)
  }

  /** A packet of another session does not come before the receiver knows its own. */
  predicate LockedStep(w: World, step: Step) {
    step.Foreign? ==> w.rx.session.Some?
  }

  predicate Init(c: Setup, w: World) {
    w.pub == P.Fresh(c.session, w.pub.mtu, w.pub.burst, c.start) && c.start <= U64_MAX
    && w.feed == [] && w.surfaced == [] && !w.finished && w.active == None && w.reply == None
    && w.rx == Fresh(w.rx.session, w.rx.start, w.rx.maxPending, w.rx.policy)
    && (w.rx.session == None || w.rx.session == Some(c.session))
    && w.lock == w.rx.start
  }

  /** A run: every step is enabled where it is taken. */
  predicate Runs(c: Setup, w: World, steps: seq<Step>)
    decreases |steps|
  {
    steps == [] || (Enabled(c, w, steps[0]) && Runs(c, Take(c, w, steps[0]), steps[1..]))
  }

  function Last(c: Setup, w: World, steps: seq<Step>): World
    requires Runs(c, w, steps)
    decreases |steps|
  {
    if steps == [] then w else Last(c, Take(c, w, steps[0]), steps[1..])
  }

  // ----- Invariant -----

  /** An end-of-session event names the true end of the stream. */
  predicate EndIsTrue(c: Setup, w: World, item: Item) {
    IsEnd(item) ==> w.pub.status == P.Finished && item.value.next == c.start + |w.feed|
  }

  predicate EndsOnce(w: World) {
    forall i :: 0 <= i < |w.surfaced| && IsEnd(w.surfaced[i]) ==>
      w.finished && forall j :: i < j < |w.surfaced| ==> w.surfaced[j].Err?
  }

  /** Before the first packet nothing but errors can have been queued. */
  predicate Unlocked(c: Setup, w: World) {
    (w.rx.session == None || w.rx.session == Some(c.session))
    && w.rx.pending == map[] && w.rx.next == w.rx.start == w.lock
    && (forall i :: 0 <= i < |w.rx.outbox| ==> w.rx.outbox[i].Err?)
    && Data(w.surfaced) == [] && w.active == None
  }

  predicate Inv(c: Setup, w: World) {
    GoodFeed(c, w.feed)
    && w.pub.session == c.session && PL.Packed(w.pub, c.start, w.feed) && PL.EndMarks(w.pub)
    && (if w.rx.bootstrapped then Fed(c, w.feed, Data(w.surfaced), w.lock, w.rx) else Unlocked(c, w))
    && (w.active == None ==> w.reply == None)
    && (w.reply.Some? ==> TrueFrames(c, w.feed, w.reply.value))
    && (forall i :: 0 <= i < |w.rx.outbox| ==> EndIsTrue(c, w, w.rx.outbox[i]))
    && (forall i :: 0 <= i < |w.surfaced| ==> EndIsTrue(c, w, w.surfaced[i]))
    && EndsOnce(w)
  }

  /** What the application may rely on: the messages it got are a contiguous piece of the stream
      from the number the receiver locked on to, each number once, in order, with the right body;
      after an end-of-session event, which names the true end, no further event follows. */
  predicate Safe(c: Setup, w: World) {
    GoodFeed(c, w.feed)
    && InRange(c, w.feed, w.lock, w.lock + |Data(w.surfaced)|)
    && Data(w.surfaced) == Expected(c, w.feed, w.lock, w.lock + |Data(w.surfaced)|)
    && EndsOnce(w)
    && forall i :: 0 <= i < |w.surfaced| ==> EndIsTrue(c, w, w.surfaced[i])
  }

  lemma InvIsSafe(c: Setup, w: World)
    requires Inv(c, w)
    ensures Safe(c, w)
  {
    if w.rx.bootstrapped {
      var all := Expected(c, w.feed, w.lock, w.rx.next);
      assert |Data(w.surfaced)| <= |all|;
      assert Data(w.surfaced) == all[..|Data(w.surfaced)|];
    }
  }

  // ----- Every step keeps the invariant -----

  lemma InitInv(c: Setup, w: World)
    requires Init(c, w)
    ensures Inv(c, w)
  {
    PL.PackingConserves(w.pub, c.start, []);
  }

  lemma PublishInv(c: Setup, w: World, input: P.Input)
    requires Inv(c, w) && Enabled(c, w, Publish(input))
    ensures Inv(c, Take(c, w, Publish(input)))
  {
    hide PL.Packed, PL.EndMarks, Fed, Data, P.OnItem, P.OnExhausted, P.OnTimer;
    var more := PL.Taken(w.pub, input);
    assert |more| == 0 || more == [input.body];
    NextIsEnd(c, w);
    assert GoodFeed(c, w.feed + more);
    PL.TurnPacked(w.pub, c.start, w.feed, input);
    PL.TurnEndMarks(w.pub, input);
    TurnKeepsSession(w.pub, input);
    if w.rx.bootstrapped {
      FedGrows(c, w.feed, more, Data(w.surfaced), w.lock, w.rx);
    }
    var v := Take(c, w, Publish(input));
    if w.reply.Some? {
      forall i | 0 <= i < |w.reply.value|
        ensures TrueAt(c, v.feed, w.reply.value[i].sequence, w.reply.value[i].body)
      {
      }
    }
  }

  lemma NextIsEnd(c: Setup, w: World)
    requires Inv(c, w)
    ensures w.pub.next == c.start + |w.feed|
  {
  }

  lemma TurnKeepsSession(p: P.State, input: P.Input)
    ensures P.Turn(p, input).session == p.session
    ensures p.status != P.Running ==> P.Turn(p, input) == p && PL.Taken(p, input) == []
  {
    EndBurstKeepsSession(P.Flush(p), p.burst);
  }

  lemma {:induction false} EndBurstKeepsSession(p: P.State, n: nat)
    ensures P.EndBurst(p, n).session == p.session
    decreases n
  {
    if n > 0 {
      EndBurstKeepsSession(p.(sent := p.sent + [MoldPacket.EndOfSession(p.session, p.next)]), n - 1);
    }
  }

  lemma SentIsHonest(c: Setup, w: World, i: nat)
    requires Inv(c, w) && i < |w.pub.sent|
    ensures Honest(c, w.feed, w.pub.sent[i])
    ensures w.pub.sent[i].header.IsEndOfSession() ==>
              w.pub.status == P.Finished && w.pub.sent[i].header.sequence == c.start + |w.feed|
  {
    PL.PacketIsSlice(w.pub, c.start, w.feed, i);
    assert PL.Proper(c.session, w.pub.sent[i]);
  }

  lemma {:induction false} ErrorsHaveNoData(items: seq<Item>)
    requires forall i :: 0 <= i < |items| ==> items[i].Err?
    ensures Data(items) == []
  {
    if items != [] {
      ErrorsHaveNoData(items[..|items| - 1]);
    }
  }

  /** A receiver that is fed, and queues no false end-of-session item, fits into the world. */
  lemma RxInv(c: Setup, w: World, t: State, lock: nat)
    requires Inv(c, w) && Fed(c, w.feed, Data(w.surfaced), lock, t)
    requires forall x :: x in t.outbox && IsEnd(x) ==> x in w.rx.outbox || EndIsTrue(c, w, x)
    ensures Inv(c, w.(rx := t, lock := lock))
  {
    hide Data, PL.Packed, PL.EndMarks;
    var v := w.(rx := t, lock := lock);
    assert t.bootstrapped;
    forall i | 0 <= i < |t.outbox| ensures EndIsTrue(c, v, t.outbox[i]) {
      assert t.outbox[i] in t.outbox;
    }
  }

  lemma AdmittedFed(c: Setup, w: World, pkt: Packet)
    requires Inv(c, w) && Honest(c, w.feed, pkt)
    ensures SessionAccepts(w.rx, pkt)
    ensures var lock := if w.rx.bootstrapped then w.lock else Admitted(w.rx, pkt).next;
            Fed(c, w.feed, Data(w.surfaced), lock, Admitted(w.rx, pkt))
  {
    hide PL.Packed, PL.EndMarks;
    if !w.rx.bootstrapped {
      ErrorsHaveNoData(w.rx.outbox);
    }
  }

  lemma IngestedAdmitted(s: State, dec: Decoder, pkt: Packet)
    requires SessionAccepts(s, pkt)
    ensures Ingested(s, dec, pkt) == Ingested(Admitted(s, pkt), dec, pkt)
  {
    hide DataIngested;
  }

  lemma ReceiveInv(c: Setup, w: World, i: nat)
    requires Inv(c, w) && Enabled(c, w, Receive(i))
    ensures Inv(c, Take(c, w, Receive(i)))
  {
    var pkt := w.pub.sent[i];
    var s := Admitted(w.rx, pkt);
    var lock := if w.rx.bootstrapped then w.lock else s.next;
    SentIsHonest(c, w, i);
    AdmittedFed(c, w, pkt);
    hide Fed, Inv, Data, Ingested, Honest;
    assert GoodFeed(c, w.feed) by {
      InvIsSafe(c, w);
    }
    IngestedFed(c, w.feed, Data(w.surfaced), lock, s, pkt);
    IngestedAdmitted(w.rx, c.dec, pkt);
    IngestedEnds(w.rx, c.dec, pkt);
    RxInv(c, w, Ingested(w.rx, c.dec, pkt), lock);
  }

  lemma ForeignInv(c: Setup, w: World, pkt: Packet)
    requires Inv(c, w) && Enabled(c, w, Foreign(pkt)) && w.rx.session.Some?
    ensures Inv(c, Take(c, w, Foreign(pkt)))
  {
    hide PL.Packed, PL.EndMarks;
    var item: Item := Err(SessionMismatch(w.rx.session.value, pkt.header.session));
    assert Ingested(w.rx, c.dec, pkt) == Emit(w.rx, item);
    if w.rx.bootstrapped {
      EmitFed(c, w.feed, Data(w.surfaced), w.lock, w.rx, item);
      RxInv(c, w, Emit(w.rx, item), w.lock);
    }
  }

  lemma PoppedData(w: World)
    requires w.rx.outbox != []
    ensures Data(Popped(w).surfaced) + Data(Popped(w).rx.outbox) == Data(w.surfaced) + Data(w.rx.outbox)
    ensures w.rx.outbox[0].Err? ==> Data(Popped(w).surfaced) == Data(w.surfaced)
  {
    var item, rest := w.rx.outbox[0], w.rx.outbox[1..];
    calc {
      Data(w.surfaced + [item]) + Data(rest);
      { DataAppend(w.surfaced, [item]); }
      (Data(w.surfaced) + Data([item])) + Data(rest);
      Data(w.surfaced) + (Data([item]) + Data(rest));
      { DataAppend([item], rest); }
      Data(w.surfaced) + Data([item] + rest);
      { assert [item] + rest == w.rx.outbox; }
      Data(w.surfaced) + Data(w.rx.outbox);
    }
    DataSnoc(w.surfaced, item);
    assert Data(w.surfaced) + [] == Data(w.surfaced);
  }

  lemma PoppedEnds(c: Setup, w: World)
    requires Inv(c, w) && Enabled(c, w, Poll)
    ensures EndsOnce(Popped(w))
    ensures forall i :: 0 <= i < |Popped(w).surfaced| ==> EndIsTrue(c, Popped(w), Popped(w).surfaced[i])
    ensures forall i :: 0 <= i < |Popped(w).rx.outbox| ==> EndIsTrue(c, Popped(w), Popped(w).rx.outbox[i])
  {
    hide Fed, Data, PL.Packed, PL.EndMarks;
    assert EndIsTrue(c, w, w.rx.outbox[0]);
  }

  /** One more item for the application, with the queue shortened accordingly. */
  lemma PollInv(c: Setup, w: World)
    requires Inv(c, w) && Enabled(c, w, Poll)
    ensures Inv(c, Take(c, w, Poll))
  {
    PoppedData(w);
    PoppedEnds(c, w);
    hide PL.Packed, PL.EndMarks, Data, EndsOnce, EndIsTrue;
    if !w.rx.bootstrapped {
      assert w.rx.outbox[0].Err?;
    }
  }

  /** An error surfaced past the queue. */
  lemma ErrorInv(c: Setup, w: World, e: MoldError, active: Option<(nat, nat)>, reply: Option<seq<Frame>>)
    requires Inv(c, w)
    requires (active == w.active && reply == w.reply) || (active == None && reply == None)
    ensures Inv(c, w.(surfaced := w.surfaced + [Err(e)], active := active, reply := reply))
  {
    ErrorEnds(c, w, e, active, reply);
    DataSnoc(w.surfaced, Err(e));
    assert Data(w.surfaced) + [] == Data(w.surfaced);
    hide PL.Packed, PL.EndMarks, Data, EndsOnce, EndIsTrue;
  }

  lemma ErrorEnds(c: Setup, w: World, e: MoldError, active: Option<(nat, nat)>, reply: Option<seq<Frame>>)
    requires EndsOnce(w)
    requires forall i :: 0 <= i < |w.surfaced| ==> EndIsTrue(c, w, w.surfaced[i])
    requires forall i :: 0 <= i < |w.rx.outbox| ==> EndIsTrue(c, w, w.rx.outbox[i])
    ensures var v := w.(surfaced := w.surfaced + [Err(e)], active := active, reply := reply);
            && EndsOnce(v)
            && (forall i :: 0 <= i < |v.surfaced| ==> EndIsTrue(c, v, v.surfaced[i]))
            && (forall i :: 0 <= i < |v.rx.outbox| ==> EndIsTrue(c, v, v.rx.outbox[i]))
  {
  }

  lemma {:induction false} LabelledAt(first: nat, bodies: seq<Bytes>, i: nat)
    requires i < |bodies| && first + |bodies| <= U64_MAX + 1
    ensures |Labelled(first, bodies)| == |bodies| && Labelled(first, bodies)[i] == Frame(first + i, bodies[i])
    decreases |bodies|
  {
    if |bodies| > 1 {
      LabelledAt(first + 1, bodies[1..], if i == 0 then 0 else i - 1);
    }
  }

  lemma CachedIsTrue(c: Setup, w: World)
    requires Inv(c, w)
    ensures TrueFrames(c, w.feed, w.pub.cached)
  {
    var blocks := PL.AllBlocks(w.pub.sent);
    assert blocks <= w.feed;
    forall i | 0 <= i < |w.pub.cached|
      ensures TrueAt(c, w.feed, w.pub.cached[i].sequence, w.pub.cached[i].body)
    {
      if blocks != [] {
        LabelledAt(c.start, blocks, 0);
        LabelledAt(c.start, blocks, i);
      }
    }
  }

  /** What comes back from the cache, through the wire, is a true run of the stream. */
  lemma AnswerIsTrue(c: Setup, feed: seq<Bytes>, inner: seq<Frame>, eos: bool, from: nat, count: nat,
                     run: seq<Frame>, response: Response)
    requires GoodFeed(c, feed) && TrueFrames(c, feed, inner)
    requires Answers(inner, eos, from, count, run, response)
    ensures response.frames == run && TrueFrames(c, feed, run)
  {
    forall i | 0 <= i < |run|
      ensures TrueAt(c, feed, run[i].sequence, run[i].body) && GoodBlock(run[i].body)
    {
      assert run[i] in inner;
      assert GoodBlock(feed[run[i].sequence - c.start]);
    }
    if run != [] {
      assert run[|run| - 1].sequence == from + (|run| - 1);
    }
    var status := StatusFor(inner, eos, from, count, |run|);
    var bytes := EncodedResponse(status, run);
    assert bytes + [] == bytes;
    ResponseRoundTrip(status, from, run, []);
  }

  /** What a cache retains of true frames is true. */
  lemma RetainedIsTrue(c: Setup, feed: seq<Bytes>, capacity: nat, pushed: seq<Frame>)
    requires TrueFrames(c, feed, pushed) && 0 < capacity
    ensures TrueFrames(c, feed, PushedAll(capacity, pushed))
  {
    RetainsLast(capacity, pushed);
  }

  lemma ReplyInv(c: Setup, w: World, frames: seq<Frame>)
    requires Inv(c, w) && w.active.Some? && TrueFrames(c, w.feed, frames)
    ensures Inv(c, w.(reply := Some(frames)))
  {
    hide Fed, Data, PL.Packed, PL.EndMarks, TrueFrames;
  }

  lemma ServeInv(c: Setup, w: World, step: Step)
    requires Inv(c, w) && step.Serve? && Enabled(c, w, step)
    ensures Inv(c, Take(c, w, step))
  {
    CachedIsTrue(c, w);
    InvIsSafe(c, w);
    hide Inv, Answers;
    var pushed := w.pub.cached[..step.pushes];
    var inner := PushedAll(step.capacity, pushed);
    assert TrueFrames(c, w.feed, pushed);
    hide TrueFrames;
    RetainedIsTrue(c, w.feed, step.capacity, pushed);
    AnswerIsTrue(c, w.feed, inner, step.eos, w.active.value.0, GapCount(w.active.value), step.run, step.response);
    ReplyInv(c, w, step.run);
  }

  lemma RecoverInv(c: Setup, w: World)
    requires Inv(c, w) && Enabled(c, w, Recover)
    ensures Inv(c, Take(c, w, Recover))
  {
    assert w.rx.bootstrapped && w.rx.session == Some(c.session);
    FramesIngestedFed(c, w.feed, Data(w.surfaced), w.lock, w.rx, w.reply.value);
    RxInv(c, w, Retransmitted(w.rx, c.dec, w.reply.value), w.lock);
  }

  lemma TakeInv(c: Setup, w: World, step: Step)
    requires Inv(c, w) && Enabled(c, w, step) && LockedStep(w, step)
    ensures Inv(c, Take(c, w, step))
  {
    hide Inv;
    match step
    case Publish(input) => PublishInv(c, w, input);
    case Receive(i) => ReceiveInv(c, w, i);
    case Foreign(pkt) => ForeignInv(c, w, pkt);
    case Poll => PollInv(c, w);
    case Fault(e) => ErrorInv(c, w, e, w.active, w.reply);
    case Serve(_, _, _, _, _) => ServeInv(c, w, step);
    case Recover => RecoverInv(c, w);
    case GiveUp(e) => ErrorInv(c, w, e, None, None);
  }

  /** No packet of another session comes before the receiver is pinned or has seen its own. */
  predicate LockedRun(c: Setup, w: World, steps: seq<Step>)
    requires Runs(c, w, steps)
    decreases |steps|
  {
    steps == [] || (LockedStep(w, steps[0]) && LockedRun(c, Take(c, w, steps[0]), steps[1..]))
  }

  lemma {:induction false} RunInv(c: Setup, w: World, steps: seq<Step>)
    requires Inv(c, w) && Runs(c, w, steps) && LockedRun(c, w, steps)
    ensures Inv(c, Last(c, w, steps))
    decreases |steps|
  {
    hide Inv, Take, Enabled;
    if steps != [] {
      TakeInv(c, w, steps[0]);
      RunInv(c, Take(c, w, steps[0]), steps[1..]);
    }
  }

  /** End-to-end safety: for every source, every packing, every schedule of loss, duplication,
      reordering and retransmission, and after every prefix of the run. */
  lemma EndToEndSafety(c: Setup, w: World, steps: seq<Step>)
    requires Init(c, w) && Runs(c, w, steps) && LockedRun(c, w, steps)
    ensures Safe(c, Last(c, w, steps))
  {
    hide Inv, Take, Enabled, Safe;
    InitInv(c, w);
    RunInv(c, w, steps);
    InvIsSafe(c, Last(c, w, steps));
  }

  // ----- The session -----

  /** The first packet of the publisher locks the receiver on to it. */
  lemma ReceiveLocks(c: Setup, w: World, i: nat)
    requires Inv(c, w) && Enabled(c, w, Receive(i))
    ensures Take(c, w, Receive(i)).rx.session == Some(c.session)
  {
    var pkt := w.pub.sent[i];
    var s := Admitted(w.rx, pkt);
    SentIsHonest(c, w, i);
    AdmittedFed(c, w, pkt);
    InvIsSafe(c, w);
    hide Inv, Data, Ingested, Honest;
    IngestedFed(c, w.feed, Data(w.surfaced), if w.rx.bootstrapped then w.lock else s.next, s, pkt);
    IngestedAdmitted(w.rx, c.dec, pkt);
  }

  lemma ForeignRefused(s: State, dec: Decoder, pkt: Packet)
    requires s.session.Some? && pkt.header.session != s.session.value
    ensures Ingested(s, dec, pkt) == Emit(s, Err(SessionMismatch(s.session.value, pkt.header.session)))
  {
  }

  /** A receiver that knows its session keeps it, whatever packets arrive. */
  lemma TakeKeepsSession(c: Setup, w: World, step: Step)
    requires Inv(c, w) && w.rx.session.Some? && Enabled(c, w, step)
    ensures Take(c, w, step).rx.session.Some?
  {
    match step
    case Receive(i) => ReceiveLocks(c, w, i);
    case Foreign(pkt) =>
      assert w.rx.session == Some(c.session);
      ForeignRefused(w.rx, c.dec, pkt);
    case Recover =>
      RecoverInv(c, w);
      assert w.rx.bootstrapped && w.rx.session == Some(c.session);
      FramesIngestedFed(c, w.feed, Data(w.surfaced), w.lock, w.rx, w.reply.value);
    case _ =>
  }

  lemma {:induction false} PinnedIsLocked(c: Setup, w: World, steps: seq<Step>)
    requires Inv(c, w) && w.rx.session.Some? && Runs(c, w, steps)
    ensures LockedRun(c, w, steps)
    decreases |steps|
  {
    hide Inv, Take, Enabled;
    if steps != [] {
      TakeKeepsSession(c, w, steps[0]);
      TakeInv(c, w, steps[0]);
      PinnedIsLocked(c, Take(c, w, steps[0]), steps[1..]);
    }
  }

  /** The packet of another session that an unpinned receiver would take for the first of its own. */
  function Intruder(w: World, other: Bytes, b: Bytes): Packet {
    Packet(Header(other, if w.rx.start == 0 then 1 else w.rx.start, 1), [b])
  }

  lemma IntruderIngested(c: Setup, w: World, other: Bytes, b: Bytes)
    requires Init(c, w) && w.rx.session == None && w.rx.start < U64_MAX && GoodBlock(b) && c.dec(b).Ok?
    ensures var t := Ingested(w.rx, c.dec, Intruder(w, other, b));
            |t.outbox| == 1 && t.outbox[0].Ok? && t.outbox[0].value.Message?
  {
    var pkt := Intruder(w, other, b);
    var s := Admitted(w.rx, pkt);
    var t := Delivered(s, c.dec, s.next, b);
    assert t.pending == map[] && t.outbox == [Ok(Message(s.next, c.dec(b).value))];
    assert DeliveredAll(s, c.dec, s.next, [b]) == DeliveredAll(t, c.dec, AddU64(s.next, 1), [b][1..]) == t;
    assert Flushed(t, c.dec) == t;
    assert Ingested(w.rx, c.dec, pkt) == DataIngested(s, c.dec, s.next, [b]) == t;
  }

  lemma IntruderSurfaces(c: Setup, w: World, other: Bytes, b: Bytes)
    requires Init(c, w) && w.rx.session == None && w.rx.start < U64_MAX
    requires other != c.session && GoodBlock(b) && c.dec(b).Ok?
    ensures var steps := [Foreign(Intruder(w, other, b)), Poll];
            Runs(c, w, steps) && Last(c, w, steps).feed == [] && |Data(Last(c, w, steps).surfaced)| == 1
  {
    IntruderIngested(c, w, other, b);
    hide Ingested, Admitted;
    var pkt := Intruder(w, other, b);
    var w1 := Take(c, w, Foreign(pkt));
    var w2 := Take(c, w1, Poll);
    DataSnoc([], w1.rx.outbox[0]);
    assert w2.surfaced == [] + [w1.rx.outbox[0]] && w2.feed == [];
    assert Enabled(c, w, Foreign(pkt)) && Enabled(c, w1, Poll);
    hide Take, Data, Enabled, Init;
    var none: seq<Step> := [];
    assert [Poll][1..] == none && [Foreign(pkt), Poll][1..] == [Poll];
    assert Runs(c, w2, none) && Last(c, w2, none) == w2;
    assert Runs(c, w1, [Poll]) && Last(c, w1, [Poll]) == w2;
  }

  /** With packets of other sessions around from the very start, every run is safe if and only if the
      receiver was pinned to its session. */
  lemma SafeIffPinned(c: Setup, w: World, other: Bytes, b: Bytes)
    requires Init(c, w) && w.rx.start < U64_MAX && other != c.session && GoodBlock(b) && c.dec(b).Ok?
    ensures (forall steps :: Runs(c, w, steps) ==> Safe(c, Last(c, w, steps))) <==> w.rx.session == Some(c.session)
  {
    if w.rx.session.Some? {
      InitInv(c, w);
      forall steps | Runs(c, w, steps)
        ensures Safe(c, Last(c, w, steps))
      {
        hide Inv, Init, Safe;
        PinnedIsLocked(c, w, steps);
        EndToEndSafety(c, w, steps);
      }
    } else {
      IntruderSurfaces(c, w, other, b);
      hide Init, Take, Enabled, Data, Runs, EndsOnce, EndIsTrue;
      var steps := [Foreign(Intruder(w, other, b)), Poll];
      assert Runs(c, w, steps) && !Safe(c, Last(c, w, steps));
    }
  }
}
