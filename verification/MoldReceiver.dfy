/** The MoldUDP64 receiver: a reorder buffer that turns datagrams into an in-order event stream.

    `State` and the functions on it say what each step does; the class `ReceiverState` is the
    source's mutable struct, its loops proved to do exactly that. */
module MoldReceiver {
  import opened Wire
  import opened MoldPacket
  import opened Ordered
  import opened MoldCache
  import Itch

  datatype Event =
    | Message(sequence: nat, message: Itch.Message)
    | Heartbeat(next: nat)
    | EndOfSession(next: nat)
    | Gap(from: nat, to: nat)

  type Item = Result<Event, MoldError>

  datatype Policy = DropOldest | Error

  /** `Message::decode`. The receiver is correct for any decoder. */
  type Decoder = Bytes -> Result<Itch.Message, Itch.ProtocolError>

  datatype State = State(
    session: Option<Bytes>,
    next: nat,
    bootstrapped: bool,
    pending: map<nat, Bytes>,
    outbox: seq<Item>,
    eos: bool,
    maxPending: nat,
    policy: Policy,
    start: nat,
    drops: nat)

  function Emit(s: State, item: Item): State {
    s.(outbox := s.outbox + [item])
  }

  /** `deliver`: one block, surfaced under the number `seq`. An oversized block does not advance. */
  function Delivered(s: State, dec: Decoder, n: nat, body: Bytes): State {
    if |body| > MAX_BLOCK_LEN then Emit(s, Err(BlockTooLarge(|body|, MAX_BLOCK_LEN)))
    else
      match dec(body)
      case Ok(m) => Emit(s, Ok(Message(n, m))).(next := AddU64(n, 1))
      case Err(e) => Emit(s, Err(Protocol(e))).(next := AddU64(n, 1))
  }

  /** The delivery loop of `ingest`, from the block numbered `first` on. */
  function DeliveredAll(s: State, dec: Decoder, first: nat, blocks: seq<Bytes>): State
    decreases |blocks|
  {
    if blocks == [] then s else
      var s' := if first < s.next then s else Delivered(s, dec, first, blocks[0]);
      DeliveredAll(s', dec, AddU64(first, 1), blocks[1..])
  }

  /** `stash_pending`: keep an out-of-order block, subject to the overflow policy. */
  function Stashed(s: State, n: nat, data: Bytes): State {
    if n in s.pending then s
    else if |s.pending| < s.maxPending then s.(pending := s.pending[n := data])
    else
      match s.policy
      case DropOldest =>
        if s.pending == map[] then s.(pending := s.pending[n := data])
        else s.(pending := (s.pending - {Least(s.pending.Keys)})[n := data], drops := s.drops + 1)
      case Error => Emit(s, Err(PendingBufferFull(s.maxPending))).(drops := s.drops + 1)
  }

  function StashedAll(s: State, first: nat, blocks: seq<Bytes>): State
    decreases |blocks|
  {
    if blocks == [] then s else StashedAll(Stashed(s, first, blocks[0]), AddU64(first, 1), blocks[1..])
  }

  /** `flush_pending`: deliver buffered blocks while the smallest number is the expected one. */
  function Flushed(s: State, dec: Decoder): State
    decreases |s.pending|
  {
    if s.pending == map[] then s else
      var k := Least(s.pending.Keys);
      if k != s.next then s else
        RemoveShrinks(s.pending, k);
        Flushed(Delivered(s.(pending := s.pending - {k}), dec, k, s.pending[k]), dec)
  }

  lemma RemoveShrinks<T>(m: map<nat, T>, k: nat)
    requires k in m
    ensures |m - {k}| == |m| - 1 && (m - {k}).Keys == m.Keys - {k}
  {
    assert (m - {k}).Keys == m.Keys - {k};
    assert |m.Keys - {k}| == |m.Keys| - 1;
  }

  /** The session a packet is let in under; `None` in the receiver accepts the first one seen. */
  predicate SessionAccepts(s: State, pkt: Packet) {
    s.session == None || s.session == Some(pkt.header.session)
  }

  /** Session lock and first-packet bootstrap of the expected number. */
  function Admitted(s: State, pkt: Packet): State {
    var s1 := s.(session := Some(pkt.header.session));
    if s1.bootstrapped then s1
    else if s1.start == 0 then s1.(next := pkt.header.sequence, bootstrapped := true)
    else s1.(bootstrapped := true)
  }

  /** A sequenced-data packet, after the session checks. */
  function DataIngested(s: State, dec: Decoder, first: nat, blocks: seq<Bytes>): State {
    if AddU64(first, |blocks|) <= s.next then s
    else if first > s.next then StashedAll(Emit(s, Ok(Gap(s.next, first - 1))), first, blocks)
    else Flushed(DeliveredAll(s, dec, first, blocks), dec)
  }

  function Ingested(s: State, dec: Decoder, pkt: Packet): State {
    if !SessionAccepts(s, pkt) then Emit(s, Err(SessionMismatch(s.session.value, pkt.header.session)))
    else
      var s1 := Admitted(s, pkt);
      var h := pkt.header;
      if h.IsHeartbeat() then Emit(s1, Ok(Heartbeat(h.sequence)))
      else if h.IsEndOfSession() then Emit(s1, Ok(EndOfSession(h.sequence))).(eos := true)
      else DataIngested(s1, dec, h.sequence, pkt.blocks)
  }

  function IngestedAll(s: State, dec: Decoder, pkts: seq<Packet>): State {
    if pkts == [] then s else Ingested(IngestedAll(s, dec, pkts[..|pkts| - 1]), dec, pkts[|pkts| - 1])
  }

  function Fresh(session: Option<Bytes>, start: nat, maxPending: nat, policy: Policy): State {
    State(session, start, false, map[], [], false, maxPending, policy, start, 0)
  }

  // ----- The stream on top -----

  /** Ten spaces: the session retransmitted frames get when none is locked yet. */
  const BLANK_SESSION: Bytes := [32, 32, 32, 32, 32, 32, 32, 32, 32, 32]

  /** One retransmitted frame, ingested as a packet of a single block. */
  function FrameIngested(s: State, dec: Decoder, session: Bytes, f: Frame): State {
    match NewBlock(f.body)
    case Err(e) => Emit(s, Err(e))
    case Ok(block) =>
      match NewData(session, f.sequence, [block])
      case Err(e) => Emit(s, Err(e))
      case Ok(pkt) => Ingested(s, dec, pkt)
  }

  function FramesIngested(s: State, dec: Decoder, session: Bytes, fs: seq<Frame>): State {
    if fs == [] then s
    else FrameIngested(FramesIngested(s, dec, session, fs[..|fs| - 1]), dec, session, fs[|fs| - 1])
  }

  /** `ingest_retransmit`. */
  function Retransmitted(s: State, dec: Decoder, fs: seq<Frame>): State {
    FramesIngested(s, dec, if s.session.Some? then s.session.value else BLANK_SESSION, fs)
  }

  predicate IsEnd(item: Item) {
    item.Ok? && item.value.EndOfSession?
  }

  // ----- The mutable receiver -----

  class ReceiverState {
    var session: Option<Bytes>
    var nextExpected: nat
    var bootstrapped: bool
    var pending: map<nat, Bytes>
    var outbox: seq<Item>
    var eos: bool
    var overflowDrops: nat
    const maxPending: nat
    const pendingOverflow: Policy
    const startSequence: nat
    const decode: Decoder

    function Model(): State
      reads this
    {
      State(session, nextExpected, bootstrapped, pending, outbox, eos, maxPending, pendingOverflow,
            startSequence, overflowDrops)
    }

    constructor (session: Option<Bytes>, start: nat, maxPending: nat, policy: Policy, decode: Decoder)
      ensures Model() == Fresh(session, start, maxPending, policy)
      ensures this.decode == decode
    {
      this.session := session;
      nextExpected := start;
      bootstrapped := false;
      pending := map[];
      outbox := [];
      eos := false;
      overflowDrops := 0;
      this.maxPending := maxPending;
      pendingOverflow := policy;
      startSequence := start;
      this.decode := decode;
    }

    method Ingest(pkt: Packet)
      modifies this
      ensures Model() == Ingested(old(Model()), decode, pkt)
    {
      hide StashedAll, DeliveredAll, Flushed, AddU64;
      if session.Some? && session.value != pkt.header.session {
        outbox := outbox + [Err(SessionMismatch(session.value, pkt.header.session))];
        return;
      }
      session := Some(pkt.header.session);
      if !bootstrapped {
        if startSequence == 0 {
          nextExpected := pkt.header.sequence;
        }
        bootstrapped := true;
      }
      assert Model() == Admitted(old(Model()), pkt);
      if pkt.header.IsHeartbeat() {
        outbox := outbox + [Ok(Heartbeat(pkt.header.sequence))];
        return;
      }
      if pkt.header.IsEndOfSession() {
        eos := true;
        outbox := outbox + [Ok(EndOfSession(pkt.header.sequence))];
        return;
      }
      var first := pkt.header.sequence;
      if AddU64(first, |pkt.blocks|) <= nextExpected {
        return;
      }
      if first > nextExpected {
        outbox := outbox + [Ok(Gap(nextExpected, first - 1))];
        StashAll(first, pkt.blocks);
        return;
      }
      DeliverAll(first, pkt.blocks);
      FlushPending();
    }

    method StashAll(first: nat, blocks: seq<Bytes>)
      modifies this
      ensures Model() == StashedAll(old(Model()), first, blocks)
    {
      var n: nat := first;
      for i := 0 to |blocks|
        invariant StashedAll(Model(), n, blocks[i..]) == StashedAll(old(Model()), first, blocks)
      {
        assert blocks[i..][1..] == blocks[i + 1..];
        StashPending(n, blocks[i]);
        n := AddU64(n, 1);
      }
    }

    method DeliverAll(first: nat, blocks: seq<Bytes>)
      modifies this
      ensures Model() == DeliveredAll(old(Model()), decode, first, blocks)
    {
      var n: nat := first;
      for i := 0 to |blocks|
        invariant DeliveredAll(Model(), decode, n, blocks[i..]) == DeliveredAll(old(Model()), decode, first, blocks)
      {
        assert blocks[i..][1..] == blocks[i + 1..];
        if n >= nextExpected {
          Deliver(n, blocks[i]);
        }
        n := AddU64(n, 1);
      }
    }

    method Deliver(n: nat, body: Bytes)
      modifies this
      ensures Model() == Delivered(old(Model()), decode, n, body)
    {
      if |body| > MAX_BLOCK_LEN {
        outbox := outbox + [Err(BlockTooLarge(|body|, MAX_BLOCK_LEN))];
        return;
      }
      match decode(body) {
        case Ok(m) => outbox := outbox + [Ok(Message(n, m))];
        case Err(e) => outbox := outbox + [Err(Protocol(e))];
      }
      nextExpected := AddU64(n, 1);
    }

    method StashPending(n: nat, data: Bytes)
      modifies this
      ensures Model() == Stashed(old(Model()), n, data)
    {
      if n in pending {
        return;
      }
      if |pending| >= maxPending {
        match pendingOverflow {
          case DropOldest =>
            if pending != map[] {
              pending := pending - {Least(pending.Keys)};
              overflowDrops := overflowDrops + 1;
            }
          case Error =>
            overflowDrops := overflowDrops + 1;
            outbox := outbox + [Err(PendingBufferFull(maxPending))];
            return;
        }
      }
      pending := pending[n := data];
    }

    method FlushPending()
      modifies this
      ensures Model() == Flushed(old(Model()), decode)
      ensures pending != map[] ==> Least(pending.Keys) != nextExpected
    {
      while pending != map[]
        invariant Flushed(Model(), decode) == Flushed(old(Model()), decode)
        decreases |pending|
      {
        var k := Least(pending.Keys);
        if k != nextExpected {
          break;
        }
        FlushedStep(Model(), decode);
        var body := pending[k];
        pending := pending - {k};
        Deliver(k, body);
      }
    }
  }

  /** The public stream: it hands out queued items and ends after an end-of-session event. */
  class MoldStream {
    const state: ReceiverState
    var finished: bool

    constructor (state: ReceiverState)
      ensures this.state == state && !finished
    {
      this.state := state;
      finished := false;
    }

    method IngestRetransmit(frames: seq<Frame>)
      modifies state
      ensures state.Model() == Retransmitted(old(state.Model()), state.decode, frames)
    {
      var session := if state.session.Some? then state.session.value else BLANK_SESSION;
      for i := 0 to |frames|
        invariant state.Model() == FramesIngested(old(state.Model()), state.decode, session, frames[..i])
      {
        assert frames[..i + 1][..i] == frames[..i];
        match NewBlock(frames[i].body) {
          case Err(e) =>
            state.outbox := state.outbox + [Err(e)];
          case Ok(block) =>
            match NewData(session, frames[i].sequence, [block]) {
              case Err(e) =>
                state.outbox := state.outbox + [Err(e)];
              case Ok(pkt) =>
                state.Ingest(pkt);
            }
        }
      }
      assert frames[..|frames|] == frames;
    }

    /** The part of `poll_next` that drains the queue. `None` means nothing to hand out now. */
    method PollOutbox() returns (item: Option<Item>)
      modifies this, state
      ensures old(finished) || old(state.outbox) == []
              ==> item == None && finished == old(finished) && state.Model() == old(state.Model())
      ensures !old(finished) && old(state.outbox) != []
              ==> item == Some(old(state.outbox)[0])
                  && state.Model() == old(state.Model()).(outbox := old(state.outbox)[1..])
                  && finished == IsEnd(item.value)
    {
      if finished || state.outbox == [] {
        return None;
      }
      item := Some(state.outbox[0]);
      state.outbox := state.outbox[1..];
      if IsEnd(item.value) {
        finished := true;
      }
    }
  }

  lemma FlushedStep(s: State, dec: Decoder)
    requires s.pending != map[] && Least(s.pending.Keys) == s.next
    ensures var k := s.next;
            var t := Delivered(s.(pending := s.pending - {k}), dec, k, s.pending[k]);
            |t.pending| < |s.pending| && Flushed(s, dec) == Flushed(t, dec)
  {
    RemoveShrinks(s.pending, s.next);
  }
}
