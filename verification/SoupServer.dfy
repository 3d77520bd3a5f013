/** The SoupBinTCP server's hand-off from stored replay to live broadcast, as an interleaving of
    the ingest task with one subscriber task. Every await point is a step boundary. */
module SoupServer {
  import opened Wire
  import opened SeqStore
  import Itch

  /** Messages fetched from the store at a time. */
  const CHUNK := 256

  /** `Replaying` holds the part of the current chunk not sent yet. */
  datatype Phase = Joined | Replaying(chunk: seq<Entry>) | Live | Gone

  /** `queue` is the subscriber's end of the broadcast channel and `sent` what it wrote to the
      socket as Sequenced Data. `accepted` says that Login Accepted, naming `resume`, was sent. */
  datatype Subscriber = Subscriber(
    phase: Phase,
    accepted: bool,
    resume: nat,
    next: nat,
    queue: seq<Entry>,
    lagged: bool,
    sent: seq<Entry>)

  /** `log` is every message ever stored, numbered from `origin`; `unsent` is the one that is
      stored but not broadcast yet; `next` is the ingest task's counter. */
  datatype World = World(
    store: Store,
    next: nat,
    unsent: Option<Itch.Message>,
    origin: nat,
    log: seq<Itch.Message>,
    channel: nat,
    sub: Subscriber)

  datatype Step =
    | StoreNext(message: Itch.Message)
    | StoreFails
    | Broadcast
    | Login(requested: nat)
    | ReadChunk(run: seq<Entry>)
    | SendReplay
    | Receive
    | Leave

  /** A connection just accepted: it is subscribed to the broadcast before anything else. */
  function FreshSubscriber(): Subscriber {
    Subscriber(Joined, false, 0, 0, [], false, [])
  }

  predicate Enabled(w: World, step: Step) {
    match step
    case StoreNext(m) => w.unsent == None && w.next < U64_MAX && Storable(w.store, w.next, m)
    case StoreFails => w.unsent == None
    case Broadcast => w.unsent.Some?
    case Login(_) => w.sub.phase == Joined
    case ReadChunk(run) => w.sub.phase == Replaying([]) && LongestRun(w.store, w.sub.next, CHUNK, run)
    case SendReplay => w.sub.phase.Replaying? && w.sub.phase.chunk != []
    case Receive => w.sub.phase == Live && w.sub.queue != []
    case Leave => true
  }

  /** The broadcast channel drops its oldest message when the subscriber is `channel` behind. */
  function Offered(s: Subscriber, channel: nat, e: Entry): Subscriber {
    if s.phase == Gone then s
    else if |s.queue| < channel then s.(queue := s.queue + [e])
    else s.(queue := (s.queue + [e])[1..], lagged := true)
  }

  function LoggedIn(s: Subscriber, latest: nat, requested: nat): Subscriber {
    var resume := if requested == 0 then SatAddU64(latest, 1) else requested;
    s.(accepted := true, resume := resume, next := resume, phase := if resume <= latest then Replaying([]) else Live)
  }

  function Forwarded(s: Subscriber, e: Entry): Subscriber {
    s.(sent := s.sent + [e], next := SatAddU64(e.0, 1))
  }

  /** The live loop: a lagging subscriber is dropped, what the replay covered is skipped. */
  function Received(s: Subscriber): Subscriber
    requires s.queue != []
  {
    if s.lagged then s.(phase := Gone)
    else
      var e, t := s.queue[0], s.(queue := s.queue[1..]);
      if e.0 < t.next then t else Forwarded(t, e)
  }

  function Take(w: World, step: Step): World
    requires Enabled(w, step)
  {
    match step
    case StoreNext(m) => w.(store := Stored(w.store, w.next, m), unsent := Some(m), log := w.log + [m])
    case StoreFails => w
    case Broadcast =>
      w.(sub := Offered(w.sub, w.channel, (w.next, w.unsent.value)), unsent := None, next := SatAddU64(w.next, 1))
    case Login(requested) => w.(sub := LoggedIn(w.sub, w.store.maxSeen, requested))
    case ReadChunk(run) => w.(sub := w.sub.(phase := if run == [] then Live else Replaying(run)))
    case SendReplay =>
      var chunk := w.sub.phase.chunk;
      w.(sub := Forwarded(w.sub.(phase := Replaying(chunk[1..])), chunk[0]))
    case Receive => w.(sub := Received(w.sub))
    case Leave => w.(sub := w.sub.(phase := Gone))
  }

  // ----- Invariant -----

  function End(w: World): nat {
    w.origin + |w.log|
  }

  /** The lowest number the store still has. */
  function Lowest(w: World): nat {
    if |w.store.entries| <= End(w) then End(w) - |w.store.entries| else 0
  }

  /** The store and the log agree; the ingest counter is at the end of the log, or one short of it
      between storing and broadcasting. Numbering continues right after the last number ever
      stored, which is so when `start_sequence` is at most one above it. */
  ghost predicate IngestOk(w: World) {
    0 < w.origin && End(w) <= U64_MAX && 0 < w.store.capacity && |w.store.entries| <= w.store.capacity
    && Retains(w.store, w.origin, w.log, Lowest(w)) && w.store.maxSeen + 1 == End(w)
    && (if w.unsent.Some? then w.next + 1 == End(w) && w.log != [] && w.log[|w.log| - 1] == w.unsent.value
        else w.next == End(w))
  }

  predicate TrueEntry(w: World, e: Entry) {
    w.origin <= e.0 < End(w) && e.1 == At(w.origin, w.log, e.0)
  }

  /** Entries numbered `n`, `n + 1`, ... with the messages of the log. */
  predicate TrueRun(w: World, n: nat, es: seq<Entry>) {
    forall i :: 0 <= i < |es| ==> es[i].0 == n + i && TrueEntry(w, es[i])
  }

  /** Number of the oldest message in the subscriber's queue, or of the next one to be broadcast. */
  function Head(w: World): nat {
    if |w.sub.queue| <= w.next then w.next - |w.sub.queue| else 0
  }

  predicate QueueOk(w: World) {
    w.origin + |w.sub.queue| <= w.next && TrueRun(w, Head(w), w.sub.queue)
  }

  /** The queue still holds everything from the number the subscriber is at. */
  predicate Seam(w: World) {
    w.sub.lagged || Head(w) <= w.sub.next
  }

  ghost predicate SubOk(w: World) {
    (w.sub.phase != Gone ==> QueueOk(w))
    && TrueRun(w, w.sub.resume, w.sub.sent)
    && (w.sub.phase == Joined ==> w.sub.sent == [] && !w.sub.accepted)
    && (w.sub.phase.Replaying? || w.sub.phase == Live ==> w.sub.accepted && w.sub.next == w.sub.resume + |w.sub.sent|)
    && (w.sub.phase.Replaying? ==> TrueRun(w, w.sub.next, w.sub.phase.chunk))
    && (w.sub.phase == Live ==> Seam(w))
    && (w.sub.accepted ==> 0 < w.sub.resume)
    && (!w.sub.accepted ==> w.sub.sent == [])
  }

  /** A replay that asks the store for more can go live without a hole: the number it is at is
      stored, or was never stored yet, or is still covered by the queue, or the subscriber has
      lagged and will be dropped. */
  predicate SafeToRead(w: World) {
    w.sub.next in w.store.entries || End(w) <= w.sub.next || Seam(w)
  }

  predicate SafeStep(w: World, step: Step) {
    step.ReadChunk? ==> SafeToRead(w)
  }

  /** The store has not evicted the number the replay is at. */
  predicate RetainedStep(w: World, step: Step) {
    step.ReadChunk? ==> Lowest(w) <= w.sub.next
  }

  lemma StoreNextOk(w: World, m: Itch.Message)
    requires IngestOk(w) && SubOk(w) && Enabled(w, StoreNext(m))
    ensures IngestOk(Take(w, StoreNext(m))) && SubOk(Take(w, StoreNext(m)))
  {
    hide Stored, SubOk;
    LongerLog(w, Take(w, StoreNext(m)));
    KeyCount(w.store.entries.Keys, Lowest(w), End(w));
    StoredNext(w.store, w.origin, w.log, Lowest(w), m);
    hide Retains;
  }

  /** A longer log makes no entry false. */
  lemma LongerLog(w: World, v: World)
    requires SubOk(w) && w.log <= v.log && v == w.(store := v.store, log := v.log, unsent := v.unsent)
    ensures SubOk(v)
  {
  }

  lemma BroadcastOk(w: World)
    requires IngestOk(w) && SubOk(w) && Enabled(w, Broadcast)
    ensures IngestOk(Take(w, Broadcast)) && SubOk(Take(w, Broadcast))
  {
    hide Retains;
    var e := (w.next, w.unsent.value);
    assert TrueEntry(w, e);
    var v := Take(w, Broadcast);
    if w.sub.phase != Gone {
      var all := w.sub.queue + [e];
      assert TrueRun(w, Head(w), all);
      assert all[1..] == all[1..|all|];
      assert QueueOk(v);
    }
  }

  /** Whatever number the subscriber asks for, the hand-off is safe when there is nothing to
      replay: everything from there on is still to be broadcast. */
  lemma LoginOk(w: World, requested: nat)
    requires IngestOk(w) && SubOk(w) && Enabled(w, Login(requested)) && requested <= U64_MAX
    ensures IngestOk(Take(w, Login(requested))) && SubOk(Take(w, Login(requested)))
  {
    var v := Take(w, Login(requested));
    assert v.sub.resume > w.store.maxSeen ==> End(w) <= v.sub.resume;
  }

  lemma ReadChunkOk(w: World, run: seq<Entry>)
    requires IngestOk(w) && SubOk(w) && Enabled(w, ReadChunk(run)) && SafeToRead(w)
    ensures IngestOk(Take(w, ReadChunk(run))) && SubOk(Take(w, ReadChunk(run)))
  {
    assert TrueRun(w, w.sub.next, run);
  }

  lemma SendReplayOk(w: World)
    requires IngestOk(w) && SubOk(w) && Enabled(w, SendReplay)
    ensures IngestOk(Take(w, SendReplay)) && SubOk(Take(w, SendReplay))
  {
    hide Retains;
    var chunk := w.sub.phase.chunk;
    assert TrueEntry(w, chunk[0]) && chunk[0].0 == w.sub.next;
    var v := Take(w, SendReplay);
    assert TrueRun(v, v.sub.resume, v.sub.sent);
    assert TrueRun(v, w.sub.next + 1, chunk[1..]);
  }

  lemma ReceiveOk(w: World)
    requires IngestOk(w) && SubOk(w) && Enabled(w, Receive)
    ensures IngestOk(Take(w, Receive)) && SubOk(Take(w, Receive))
  {
    hide Retains;
    var e := w.sub.queue[0];
    assert TrueEntry(w, e) && e.0 == Head(w);
    var v := Take(w, Receive);
    if !w.sub.lagged {
      assert TrueRun(w, Head(w) + 1, w.sub.queue[1..]);
      assert TrueRun(v, v.sub.resume, v.sub.sent);
    }
  }

  lemma TakeOk(w: World, step: Step)
    requires IngestOk(w) && SubOk(w) && Enabled(w, step) && SafeStep(w, step)
    requires step.Login? ==> step.requested <= U64_MAX
    ensures IngestOk(Take(w, step)) && SubOk(Take(w, step))
  {
    hide IngestOk, SubOk;
    match step
    case StoreNext(m) => StoreNextOk(w, m);
    case StoreFails =>
    case Broadcast => BroadcastOk(w);
    case Login(requested) => LoginOk(w, requested);
    case ReadChunk(run) => ReadChunkOk(w, run);
    case SendReplay => SendReplayOk(w);
    case Receive => ReceiveOk(w);
    case Leave => LeaveOk(w);
  }

  lemma LeaveOk(w: World)
    requires IngestOk(w) && SubOk(w)
    ensures IngestOk(Take(w, Leave)) && SubOk(Take(w, Leave))
  {
  }

  // ----- Whole runs -----

  /** The number the ingest task gives its first message. */
  function FirstNumber(latest: nat, startSequence: nat): nat {
    Max(SatAddU64(latest, 1), startSequence)
  }

  /** The server as it starts, with one connection just accepted: the store holds the tail of an
      earlier log, or nothing. */
  ghost predicate Start(w: World, startSequence: nat) {
    0 < w.origin && End(w) <= U64_MAX && 0 < w.store.capacity && |w.store.entries| <= w.store.capacity
    && Retains(w.store, w.origin, w.log, Lowest(w))
    && 0 < startSequence && w.store.maxSeen + 1 <= U64_MAX
    && w.next == FirstNumber(w.store.maxSeen, startSequence) && (w.log == [] ==> w.origin == w.next)
    && w.unsent == None && w.sub == FreshSubscriber()
  }

  /** And `start_sequence` does not jump ahead of what was stored. */
  ghost predicate Init(w: World, startSequence: nat) {
    Start(w, startSequence) && startSequence <= w.store.maxSeen + 1
  }

  lemma InitOk(w: World, startSequence: nat)
    requires Init(w, startSequence)
    ensures IngestOk(w) && SubOk(w)
  {
  }

  predicate Runs(w: World, steps: seq<Step>)
    decreases |steps|
  {
    steps == []
    || (Enabled(w, steps[0]) && (steps[0].Login? ==> steps[0].requested <= U64_MAX)
        && Runs(Take(w, steps[0]), steps[1..]))
  }

  function Last(w: World, steps: seq<Step>): World
    requires Runs(w, steps)
    decreases |steps|
  {
    if steps == [] then w else Last(Take(w, steps[0]), steps[1..])
  }

  predicate SafeRun(w: World, steps: seq<Step>)
    requires Runs(w, steps)
    decreases |steps|
  {
    steps == [] || (SafeStep(w, steps[0]) && SafeRun(Take(w, steps[0]), steps[1..]))
  }

  /** The store never evicts a number before the replay has read it. */
  predicate RetainedRun(w: World, steps: seq<Step>)
    requires Runs(w, steps)
    decreases |steps|
  {
    steps == [] || (RetainedStep(w, steps[0]) && RetainedRun(Take(w, steps[0]), steps[1..]))
  }

  /** What was sent is the log from the number named in Login Accepted on. */
  predicate Delivers(w: World, steps: seq<Step>)
    requires Runs(w, steps)
  {
    TrueRun(Last(w, steps), Last(w, steps).sub.resume, Last(w, steps).sub.sent)
  }

  lemma {:induction false} RunOk(w: World, steps: seq<Step>)
    requires IngestOk(w) && SubOk(w) && Runs(w, steps) && SafeRun(w, steps)
    ensures IngestOk(Last(w, steps)) && SubOk(Last(w, steps))
    decreases |steps|
  {
    hide IngestOk, SubOk, Take, Enabled, SafeStep;
    if steps != [] {
      TakeOk(w, steps[0]);
      RunOk(Take(w, steps[0]), steps[1..]);
    }
  }

  lemma RetainedIsSafe(w: World, step: Step)
    requires IngestOk(w) && Enabled(w, step) && RetainedStep(w, step)
    ensures SafeStep(w, step)
  {
  }

  /** Retention is enough: over a run in which the store keeps what the replay still needs, every
      moment of asking for more is a safe one. */
  lemma {:induction false} RetentionSuffices(w: World, steps: seq<Step>)
    requires IngestOk(w) && SubOk(w) && Runs(w, steps) && RetainedRun(w, steps)
    ensures SafeRun(w, steps)
    decreases |steps|
  {
    if steps != [] {
      RetainedIsSafe(w, steps[0]);
      hide IngestOk, SubOk, Take, Enabled, SafeStep, RetainedStep;
      TakeOk(w, steps[0]);
      RetentionSuffices(Take(w, steps[0]), steps[1..]);
    }
  }

  /** Seamless replay to live: for every interleaving of the ingest task with the subscriber in
      which the store retains what the replay still needs, the messages sent are those numbered
      `resume`, `resume + 1`, ... with no hole, no repetition and the right contents. */
  lemma SeamlessHandOff(w: World, startSequence: nat, steps: seq<Step>)
    requires Init(w, startSequence) && Runs(w, steps) && RetainedRun(w, steps)
    ensures Delivers(w, steps)
  {
    InitOk(w, startSequence);
    RetentionSuffices(w, steps);
    RunOk(w, steps);
  }

  /** And nothing is left behind: a live subscriber with an empty queue, which has not lagged, has
      been sent every message from `resume` to the end of the log. */
  lemma CaughtUp(w: World, steps: seq<Step>, startSequence: nat)
    requires Init(w, startSequence) && Runs(w, steps) && RetainedRun(w, steps)
    requires var v := Last(w, steps); v.sub.phase == Live && v.sub.queue == [] && !v.sub.lagged && v.unsent == None
    ensures var v := Last(w, steps); End(v) <= v.sub.resume + |v.sub.sent|
  {
    InitOk(w, startSequence);
    RetentionSuffices(w, steps);
    RunOk(w, steps);
  }

  // ----- When going live leaves a hole -----

  /** A live subscriber behind its queue sends a wrong number the next time it sends anything. */
  lemma HoleWithoutSeam(w: World)
    requires SubOk(Rewound(w)) && w.sub.phase == Live && Enabled(w, Receive)
    ensures Delivers(w, [Receive]) <==> Seam(w)
  {
    var e := w.sub.queue[0];
    assert TrueRun(w, Head(w), Rewound(w).sub.queue);
    assert TrueEntry(w, e) && e.0 == Head(w);
    assert TrueRun(w, w.sub.resume, w.sub.sent);
    OneStep(w, Receive);
    var v := Take(w, Receive);
    if !Seam(w) {
      assert v.sub.sent[|w.sub.sent|] == e;
      assert e.0 != w.sub.resume + |w.sub.sent|;
    }
  }

  lemma OneStep(w: World, step: Step)
    requires Enabled(w, step) && !step.Login?
    ensures Runs(w, [step]) && Last(w, [step]) == Take(w, step)
    ensures !step.ReadChunk? ==> SafeRun(w, [step])
  {
    hide Enabled, Take;
    var none: seq<Step> := [];
    assert [step][1..] == none;
    assert Runs(Take(w, step), none) && Last(Take(w, step), none) == Take(w, step);
  }

  /** A step taken before a run. */
  lemma Before(w: World, step: Step, steps: seq<Step>)
    requires Enabled(w, step) && !step.Login? && !step.ReadChunk?
    requires Runs(Take(w, step), steps) && SafeRun(Take(w, step), steps)
    ensures Runs(w, [step] + steps) && SafeRun(w, [step] + steps)
    ensures Last(w, [step] + steps) == Last(Take(w, step), steps)
  {
    hide Enabled, Take;
    assert ([step] + steps)[1..] == steps;
  }

  /** The subscriber as it was before it went live. */
  function Rewound(w: World): World {
    w.(sub := w.sub.(phase := Replaying([])))
  }

  /** A subscriber that went live too early: its queue starts after the number it is at. */
  ghost predicate Behind(w: World) {
    IngestOk(w) && SubOk(Rewound(w)) && w.sub.phase == Live && !Seam(w) && 0 < w.channel
  }

  lemma BehindBroadcast(w: World)
    requires Behind(w) && w.unsent.Some? && w.sub.queue == []
    ensures Behind(Take(w, Broadcast)) && Take(w, Broadcast).sub.queue != []
  {
    BroadcastOk(Rewound(w));
    var v := Take(w, Broadcast);
    assert Rewound(v) == Take(Rewound(w), Broadcast);
    assert IngestOk(v) by {
      assert IngestOk(Rewound(v));
    }
    hide IngestOk, SubOk;
    assert v.sub.queue == [(w.next, w.unsent.value)];
  }

  lemma BehindStore(w: World, m: Itch.Message)
    requires Behind(w) && w.unsent == None && w.sub.queue == [] && w.next < U64_MAX
    ensures Enabled(w, StoreNext(m))
    ensures var v := Take(w, StoreNext(m));
            Behind(v) && v.unsent.Some? && v.sub.queue == []
  {
    hide Stored;
    StoredNext(w.store, w.origin, w.log, Lowest(w), m);
    var v := Take(w, StoreNext(m));
    assert Rewound(v) == Take(Rewound(w), StoreNext(m)) && Head(v) == Head(w);
    hide SubOk, Retains, TrueRun;
    StoreNextOk(Rewound(w), m);
    assert IngestOk(v) by {
      assert IngestOk(Rewound(v));
    }
  }

  lemma BehindReceive(w: World)
    requires Behind(w) && w.sub.queue != []
    ensures Enabled(w, Receive) && Runs(w, [Receive]) && SafeRun(w, [Receive]) && !Delivers(w, [Receive])
  {
    OneStep(w, Receive);
    HoleWithoutSeam(w);
  }

  /** The steps after which such a subscriber has sent a wrong number. */
  function HoleSteps(w: World, m: Itch.Message): seq<Step> {
    if w.sub.queue != [] then [Receive]
    else if w.unsent.Some? then [Broadcast] + [Receive]
    else [StoreNext(m)] + ([Broadcast] + [Receive])
  }

  lemma LiveHole(w: World, m: Itch.Message)
    requires Behind(w) && w.next < U64_MAX
    ensures var more := HoleSteps(w, m);
            Runs(w, more) && SafeRun(w, more) && !Delivers(w, more)
  {
    hide Behind, Take, Runs, SafeRun, TrueRun;
    if w.sub.queue != [] {
      BehindReceive(w);
    } else if w.unsent.Some? {
      BehindBroadcast(w);
      BehindReceive(Take(w, Broadcast));
      Before(w, Broadcast, [Receive]);
    } else {
      BehindStore(w, m);
      var v := Take(w, StoreNext(m));
      BehindBroadcast(v);
      BehindReceive(Take(v, Broadcast));
      Before(v, Broadcast, [Receive]);
      Before(w, StoreNext(m), [Broadcast] + [Receive]);
    }
  }

  /** Exactly when asking the store for more is safe: every continuation that is itself safe hands
      over seamlessly if and only if the number the replay is at is stored, or not stored yet, or
      still covered by the queue. */
  lemma SafeToReadIff(w: World, run: seq<Entry>, m: Itch.Message)
    requires IngestOk(w) && SubOk(w) && Enabled(w, ReadChunk(run))
    requires 0 < w.channel && w.next < U64_MAX
    ensures var v := Take(w, ReadChunk(run));
            (forall more :: Runs(v, more) && SafeRun(v, more) ==> Delivers(v, more)) <==> SafeToRead(w)
  {
    var v := Take(w, ReadChunk(run));
    assert run != [] ==> run[0].0 == w.sub.next && run[0].0 in w.store.entries;
    if SafeToRead(w) {
      ReadChunkOk(w, run);
      hide IngestOk, Take, Enabled, SafeToRead;
      forall more | Runs(v, more) && SafeRun(v, more)
        ensures Delivers(v, more)
      {
        RunOk(v, more);
      }
    } else {
      assert Rewound(v) == w;
      assert Behind(v);
      hide IngestOk, SubOk, Take, Enabled, SafeToRead, Seam;
      LiveHole(v, m);
    }
  }

  /** A server that starts on a full store of one message, whose predecessor was evicted. */
  function AfterEviction(a: Itch.Message, b: Itch.Message): World {
    World(Store(map[2 := b], 2, 1), 3, None, 1, [a, b], 16, FreshSubscriber())
  }

  lemma AfterEvictionInit(a: Itch.Message, b: Itch.Message)
    ensures Init(AfterEviction(a, b), 1)
  {
  }

  /** Such a run, from the start of a server with no jump: the subscriber asks for the evicted
      message 1, finds nothing, goes live and is sent message 3 in its place. */
  lemma EvictedResume(a: Itch.Message, b: Itch.Message, c: Itch.Message)
    ensures var w := AfterEviction(a, b);
            var steps := [Login(1), ReadChunk([])] + [StoreNext(c), Broadcast, Receive];
            && Init(w, 1) && Runs(w, steps)
            && Last(w, steps).sub.resume == 1 && Last(w, steps).sub.sent == [(3, c)]
  {
    var w := AfterEviction(a, b);
    AfterEvictionInit(a, b);
    hide Init;
    var w1 := Take(w, Login(1));
    var w2 := Take(w1, ReadChunk([]));
    var w3 := Take(w2, StoreNext(c));
    var w4 := Take(w3, Broadcast);
    var w5 := Take(w4, Receive);
    assert w5.sub.resume == 1 && w5.sub.sent == [(3, c)];
    hide Take;
    RunOfThree(w2, StoreNext(c), Broadcast, Receive);
    hide Enabled;
    var three := [StoreNext(c), Broadcast, Receive];
    var four := [ReadChunk([])] + three;
    assert four[1..] == three && ([Login(1), ReadChunk([])] + three)[1..] == four;
    assert Runs(w1, four) && Last(w1, four) == w5;
  }

  lemma RunOfThree(w: World, a: Step, b: Step, c: Step)
    requires Enabled(w, a) && Enabled(Take(w, a), b) && Enabled(Take(Take(w, a), b), c)
    requires !a.Login? && !b.Login? && !c.Login?
    ensures Runs(w, [a, b, c]) && Last(w, [a, b, c]) == Take(Take(Take(w, a), b), c)
  {
    hide Take, Enabled;
    assert [a, b, c][1..] == [b, c] && [b, c][1..] == [c];
    var w1 := Take(w, a);
    var w2 := Take(w1, b);
    OneStep(w2, c);
    assert Runs(w1, [b, c]) && Last(w1, [b, c]) == Take(w2, c);
  }

  // ----- A start number that jumps -----

  /** The run on which a jump shows: asked for the most recent message, the server names one
      number in Login Accepted and sends another. */
  lemma JumpMislabels(w: World, startSequence: nat, m: Itch.Message)
    requires Start(w, startSequence) && w.store.maxSeen + 1 < startSequence < U64_MAX && 0 < w.channel
    ensures var steps := [Login(0), StoreNext(m), Broadcast, Receive];
            && Runs(w, steps) && RetainedRun(w, steps)
            && Last(w, steps).sub.resume == w.store.maxSeen + 1
            && Last(w, steps).sub.sent == [(startSequence, m)]
  {
    var w1 := Take(w, Login(0));
    var w2 := Take(w1, StoreNext(m));
    var w3 := Take(w2, Broadcast);
    var w4 := Take(w3, Receive);
    assert w2.sub == w1.sub && w3.sub.queue == [(startSequence, m)];
    assert w4.sub.resume == w.store.maxSeen + 1 && w4.sub.sent == [(startSequence, m)];
    hide Take, Start;
    RunOfFour(w, Login(0), StoreNext(m), Broadcast, Receive);
  }

  lemma RunOfFour(w: World, a: Step, b: Step, c: Step, d: Step)
    requires Enabled(w, a) && Enabled(Take(w, a), b) && Enabled(Take(Take(w, a), b), c)
    requires Enabled(Take(Take(Take(w, a), b), c), d)
    requires !a.ReadChunk? && !b.ReadChunk? && !c.ReadChunk? && !d.ReadChunk?
    requires a == Login(0) && !b.Login? && !c.Login? && !d.Login?
    ensures Runs(w, [a, b, c, d]) && Last(w, [a, b, c, d]) == Take(Take(Take(Take(w, a), b), c), d)
    ensures RetainedRun(w, [a, b, c, d])
  {
    hide Take, Enabled;
    assert [a, b, c, d][1..] == [b, c, d] && [b, c, d][1..] == [c, d] && [c, d][1..] == [d];
    var w1 := Take(w, a);
    var w2 := Take(w1, b);
    var w3 := Take(w2, c);
    var none: seq<Step> := [];
    assert [d][1..] == none;
    assert Runs(Take(w3, d), none) && Last(Take(w3, d), none) == Take(w3, d) && RetainedRun(Take(w3, d), none);
    assert Runs(w3, [d]) && Last(w3, [d]) == Take(w3, d) && RetainedRun(w3, [d]);
    assert Runs(w2, [c, d]) && Last(w2, [c, d]) == Take(w3, d) && RetainedRun(w2, [c, d]);
    assert Runs(w1, [b, c, d]) && Last(w1, [b, c, d]) == Take(w3, d) && RetainedRun(w1, [b, c, d]);
  }

  /** Every run on which the store retains what the replay needs hands over seamlessly if and only
      if `start_sequence` is at most one above the last number stored. */
  lemma SeamlessIffNoJump(w: World, startSequence: nat, m: Itch.Message)
    requires Start(w, startSequence) && startSequence < U64_MAX && 0 < w.channel
    ensures (forall steps :: Runs(w, steps) && RetainedRun(w, steps) ==> Delivers(w, steps))
            <==> startSequence <= w.store.maxSeen + 1
  {
    hide Start;
    if startSequence <= w.store.maxSeen + 1 {
      forall steps | Runs(w, steps) && RetainedRun(w, steps)
        ensures Delivers(w, steps)
      {
        SeamlessHandOff(w, startSequence, steps);
      }
    } else {
      var steps := [Login(0), StoreNext(m), Broadcast, Receive];
      JumpMislabels(w, startSequence, m);
      assert Last(w, steps).sub.sent[0].0 == startSequence;
      assert !Delivers(w, steps);
    }
  }
}
