/** The reconnecting SoupBinTCP client against the server: what is delivered over any number of
    disconnects is one contiguous piece of the server's log. */
module SoupResume {
  import opened Wire
  import opened SeqStore
  import S = SoupServer
  import Itch

  /** `server` runs the current connection's subscriber task. `connected` says that a connection
      exists, `loggedIn` that the client has read Login Accepted on it, and `taken` how many of the
      messages sent on it the client has delivered. `next` is the carried `next_sequence` and
      `lock` the number of the first message, known from the first successful login on. */
  datatype World = World(
    server: S.World,
    connected: bool,
    loggedIn: bool,
    taken: nat,
    next: nat,
    delivered: seq<Itch.Message>,
    lock: Option<nat>)

  /** `Dial` opens a connection and sends a Login Request for `next`; `Disconnect` may strike at any
      time and loses everything in flight. */
  datatype Step =
    | Serve(step: S.Step)
    | Dial
    | ReadAccepted
    | Deliver
    | Disconnect

  predicate Enabled(w: World, step: Step) {
    match step
    case Serve(s) =>
      S.Enabled(w.server, s)
      && (s.Login? ==> w.connected && !w.loggedIn && s.requested == w.next)
    case Dial => !w.connected
    case ReadAccepted => w.connected && !w.loggedIn && w.server.sub.accepted
    case Deliver => w.connected && w.loggedIn && w.taken < |w.server.sub.sent|
    case Disconnect => w.connected
  }

  /** The server's store has not evicted the number its replay is at. */
  predicate RetainedStep(w: World, step: Step) {
    step.Serve? ==> S.RetainedStep(w.server, step.step)
  }

  function Take(w: World, step: Step): World
    requires Enabled(w, step)
  {
    match step
    case Serve(s) => w.(server := S.Take(w.server, s))
    case Dial => w.(server := w.server.(sub := S.FreshSubscriber()), connected := true, loggedIn := false, taken := 0)
    case ReadAccepted =>
      var resume := w.server.sub.resume;
      w.(loggedIn := true, next := resume, lock := if w.lock.None? then Some(resume) else w.lock)
    case Deliver =>
      w.(delivered := w.delivered + [w.server.sub.sent[w.taken].1], taken := w.taken + 1, next := SatAddU64(w.next, 1))
    case Disconnect =>
      w.(connected := false, loggedIn := false, server := w.server.(sub := w.server.sub.(phase := S.Gone)))
  }

  /** Delivered so far: the messages numbered from `lock` on, each once, in order. */
  predicate Contiguous(w: World) {
    match w.lock
    case None => w.delivered == []
    case Some(lock) =>
      0 < lock && w.next == lock + |w.delivered| <= U64_MAX
      && (w.delivered != [] ==> w.server.origin <= lock && lock + |w.delivered| <= S.End(w.server))
      && forall i :: 0 <= i < |w.delivered| ==> w.delivered[i] == At(w.server.origin, w.server.log, lock + i)
  }

  /** The connection agrees with the counter the client carries. */
  predicate Aligned(w: World) {
    (w.loggedIn ==> w.connected && w.server.sub.accepted && w.lock.Some?
                    && w.taken <= |w.server.sub.sent| && w.next == w.server.sub.resume + w.taken)
    && (w.connected && !w.loggedIn && w.server.sub.accepted ==>
          w.server.sub.resume <= U64_MAX && (w.next != 0 ==> w.server.sub.resume == w.next))
    && (!w.loggedIn ==> w.connected ==> w.taken == 0)
  }

  /** The first number is the configured one, unless the client asked for the most recent. */
  predicate Anchored(w: World, initial: nat) {
    match w.lock
    case None => w.next == initial
    case Some(lock) => initial != 0 ==> lock == initial
  }

  ghost predicate Inv(w: World, initial: nat) {
    w.next <= U64_MAX && S.IngestOk(w.server) && S.SubOk(w.server)
    && Contiguous(w) && Aligned(w) && Anchored(w, initial)
  }

  lemma ContiguousGrows(w: World, v: S.World)
    requires Contiguous(w) && w.server.log <= v.log && w.server.origin == v.origin
    ensures Contiguous(w.(server := v))
  {
  }

  lemma AlignedServe(w: World, s: S.Step)
    requires Aligned(w) && w.next <= U64_MAX && Enabled(w, Serve(s))
    ensures Aligned(Take(w, Serve(s)))
  {
    StepGrows(w.server, s);
    hide S.Take, S.Enabled;
  }

  lemma ServeInv(w: World, s: S.Step, initial: nat)
    requires Inv(w, initial) && Enabled(w, Serve(s)) && S.RetainedStep(w.server, s)
    ensures Inv(Take(w, Serve(s)), initial)
  {
    S.RetainedIsSafe(w.server, s);
    S.TakeOk(w.server, s);
    StepGrows(w.server, s);
    hide S.IngestOk, S.SubOk, S.Take, S.Enabled, Contiguous, Aligned;
    ContiguousGrows(w, S.Take(w.server, s));
    AlignedServe(w, s);
  }

  /** What a server step leaves of the subscriber's promises: the log and what was sent only grow,
      and the resume point of an accepted login stays. */
  lemma StepGrows(w: S.World, s: S.Step)
    requires S.Enabled(w, s)
    ensures var v := S.Take(w, s);
            w.log <= v.log && v.origin == w.origin && w.sub.sent <= v.sub.sent
            && (!s.Login? ==> v.sub.resume == w.sub.resume && v.sub.accepted == w.sub.accepted)
            && (s.Login? ==> (s.requested != 0 ==> v.sub.resume == s.requested)
                             && (s.requested == 0 ==> v.sub.resume <= U64_MAX))
  {
    hide Stored, LongestRun;
  }

  lemma DeliverInv(w: World, initial: nat)
    requires Inv(w, initial) && Enabled(w, Deliver)
    ensures Inv(Take(w, Deliver), initial)
  {
    var e := w.server.sub.sent[w.taken];
    assert S.TrueRun(w.server, w.server.sub.resume, w.server.sub.sent);
    assert S.TrueEntry(w.server, e) && e.0 == w.next;
    hide S.IngestOk, S.SubOk;
    var v := Take(w, Deliver);
    assert v.delivered[..|w.delivered|] == w.delivered;
  }

  lemma OtherInv(w: World, step: Step, initial: nat)
    requires Inv(w, initial) && Enabled(w, step) && !step.Serve? && !step.Deliver?
    ensures Inv(Take(w, step), initial)
  {
    hide Retains;
  }

  lemma TakeInv(w: World, step: Step, initial: nat)
    requires Inv(w, initial) && Enabled(w, step) && RetainedStep(w, step)
    ensures Inv(Take(w, step), initial)
  {
    hide Inv;
    match step
    case Serve(s) => ServeInv(w, s, initial);
    case Deliver => DeliverInv(w, initial);
    case _ => OtherInv(w, step, initial);
  }

  /** A client that has not connected yet, configured to start at `initial` (0: most recent). */
  ghost predicate Init(w: World, startSequence: nat, initial: nat) {
    S.Init(w.server, startSequence) && !w.connected && !w.loggedIn && w.taken == 0
    && w.next == initial <= U64_MAX && w.delivered == [] && w.lock == None
  }

  predicate Runs(w: World, steps: seq<Step>)
    decreases |steps|
  {
    steps == [] || (Enabled(w, steps[0]) && Runs(Take(w, steps[0]), steps[1..]))
  }

  function Last(w: World, steps: seq<Step>): World
    requires Runs(w, steps)
    decreases |steps|
  {
    if steps == [] then w else Last(Take(w, steps[0]), steps[1..])
  }

  /** On every connection, the store keeps what the replay still needs. */
  predicate RetainedRun(w: World, steps: seq<Step>)
    requires Runs(w, steps)
    decreases |steps|
  {
    steps == [] || (RetainedStep(w, steps[0]) && RetainedRun(Take(w, steps[0]), steps[1..]))
  }

  lemma {:induction false} RunInv(w: World, steps: seq<Step>, initial: nat)
    requires Inv(w, initial) && Runs(w, steps) && RetainedRun(w, steps)
    ensures Inv(Last(w, steps), initial)
    decreases |steps|
  {
    hide Inv, Take, Enabled, RetainedStep;
    if steps != [] {
      TakeInv(w, steps[0], initial);
      RunInv(Take(w, steps[0]), steps[1..], initial);
    }
  }

  lemma InitInv(w: World, startSequence: nat, initial: nat)
    requires Init(w, startSequence, initial)
    ensures Inv(w, initial)
  {
    S.InitOk(w.server, startSequence);
  }

  /** Exactly-once resume: over any run of connects, losses and reconnects on which the store keeps
      what each replay still needs, the messages delivered are one contiguous piece of the server's
      log, each once and in order, and once a login has succeeded `next_sequence` names the next
      message not yet delivered. */
  lemma ExactlyOnce(w: World, startSequence: nat, initial: nat, steps: seq<Step>)
    requires Init(w, startSequence, initial) && Runs(w, steps) && RetainedRun(w, steps)
    ensures Contiguous(Last(w, steps)) && Anchored(Last(w, steps), initial)
  {
    InitInv(w, startSequence, initial);
    RunInv(w, steps, initial);
  }

  // ----- Without retention -----

  lemma {:induction false} Extend(w: World, steps: seq<Step>, step: Step)
    requires Runs(w, steps) && Enabled(Last(w, steps), step)
    ensures Runs(w, steps + [step]) && Last(w, steps + [step]) == Take(Last(w, steps), step)
    decreases |steps|
  {
    hide Enabled, Take;
    var all := steps + [step];
    if steps == [] {
      assert all == [step] && all[1..] == [];
      assert Runs(Take(w, step), []);
    } else {
      assert all[0] == steps[0] && all[1..] == steps[1..] + [step];
      Extend(Take(w, steps[0]), steps[1..], step);
    }
  }

  /** A client that asks for message 1 after the server has evicted it. */
  function AfterEviction(a: Itch.Message, b: Itch.Message): World {
    World(S.AfterEviction(a, b), false, false, 0, 1, [], None)
  }

  /** It logs in at 1, and the server finds nothing to replay. */
  lemma LoginAfterEviction(a: Itch.Message, b: Itch.Message)
    returns (steps: seq<Step>)
    ensures Init(AfterEviction(a, b), 1, 1) && Runs(AfterEviction(a, b), steps)
    ensures var v := Last(AfterEviction(a, b), steps);
            && v.connected && v.loggedIn && v.next == 1 && v.taken == 0 && v.delivered == []
            && v.server.sub == S.FreshSubscriber().(accepted := true, resume := 1, next := 1, phase := S.Live)
            && v.server == S.AfterEviction(a, b).(sub := v.server.sub)
  {
    var w := AfterEviction(a, b);
    S.AfterEvictionInit(a, b);
    var w1 := Take(w, Dial);
    var w2 := Take(w1, Serve(S.Login(1)));
    var w3 := Take(w2, ReadAccepted);
    var w4 := Take(w3, Serve(S.ReadChunk([])));
    assert Runs(w, []);
    hide Take, Enabled, Runs;
    Extend(w, [], Dial);
    Extend(w, [] + [Dial], Serve(S.Login(1)));
    Extend(w, [] + [Dial] + [Serve(S.Login(1))], ReadAccepted);
    Extend(w, [] + [Dial] + [Serve(S.Login(1))] + [ReadAccepted], Serve(S.ReadChunk([])));
    steps := [] + [Dial] + [Serve(S.Login(1))] + [ReadAccepted] + [Serve(S.ReadChunk([]))];
  }

  /** Without retention the promise fails: the client takes message 3 of the log for message 1. */
  lemma EvictedResume(a: Itch.Message, b: Itch.Message, c: Itch.Message) returns (steps: seq<Step>)
    ensures Init(AfterEviction(a, b), 1, 1) && Runs(AfterEviction(a, b), steps)
    ensures var v := Last(AfterEviction(a, b), steps);
            v.delivered == [c] && v.next == 2 && v.server.log == [a, b, c]
  {
    var w := AfterEviction(a, b);
    var s0 := LoginAfterEviction(a, b);
    var v := Last(w, s0);
    var v1 := Take(v, Serve(S.StoreNext(c)));
    var v2 := Take(v1, Serve(S.Broadcast));
    var v3 := Take(v2, Serve(S.Receive));
    var v4 := Take(v3, Deliver);
    assert v4.delivered == [c] && v4.next == 2 && v4.server.log == [a, b, c];
    hide Take, Enabled, Runs, Init;
    Extend(w, s0, Serve(S.StoreNext(c)));
    Extend(w, s0 + [Serve(S.StoreNext(c))], Serve(S.Broadcast));
    Extend(w, s0 + [Serve(S.StoreNext(c))] + [Serve(S.Broadcast)], Serve(S.Receive));
    Extend(w, s0 + [Serve(S.StoreNext(c))] + [Serve(S.Broadcast)] + [Serve(S.Receive)], Deliver);
    steps := s0 + [Serve(S.StoreNext(c))] + [Serve(S.Broadcast)] + [Serve(S.Receive)] + [Deliver];
  }
}
