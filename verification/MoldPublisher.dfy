/** The MoldUDP64 publisher: packs a message source into numbered datagrams under an MTU budget. */
module MoldPublisher {
  import opened Wire
  import opened MoldPacket
  import opened MoldCache

  datatype Status = Running | Finished | Failed(error: MoldError)

  /** What wakes the publishing loop: the next encoded source item, the end of the source, a
      source error, or the heartbeat timer. */
  datatype Input = Item(body: Bytes) | Exhausted | SourceFailure | Timer

  /** `sent` is every datagram handed to the socket and `cached` every frame pushed to the
      retransmission cache, in order. */
  datatype State = State(
    session: Bytes,
    mtu: nat,
    burst: nat,
    next: nat,
    pending: seq<Bytes>,
    first: nat,
    size: nat,
    sent: seq<Packet>,
    cached: seq<Frame>,
    status: Status)

  function Fresh(session: Bytes, mtu: nat, burst: nat, start: nat): State {
    State(session, mtu, burst, start, [], start, HEADER_LEN, [], [], Running)
  }

  /** The frames the cache gets for a packet. */
  function Frames(first: nat, blocks: seq<Bytes>): seq<Frame> {
    Labelled(first, blocks)
  }

  /** `flush_pending`. A packet that `new_data` refuses is lost and ends the publisher. */
  function Flush(p: State): State {
    if p.pending == [] then p
    else
      match NewData(p.session, p.first, p.pending)
      case Err(e) => p.(pending := [], status := Failed(e))
      case Ok(pkt) =>
        p.(pending := [], size := HEADER_LEN, first := p.next,
           sent := p.sent + [pkt], cached := p.cached + Frames(p.first, p.pending))
  }

  function Append(p: State, body: Bytes): State {
    var q := if p.pending == [] then p.(first := p.next, size := HEADER_LEN) else p;
    q.(pending := q.pending + [body], size := q.size + 2 + |body|, next := AddU64(q.next, 1))
  }

  function OnItem(p: State, body: Bytes): State {
    if |body| > MAX_BLOCK_LEN then p.(status := Failed(BlockTooLarge(|body|, MAX_BLOCK_LEN)))
    else
      var q := if p.pending != [] && p.size + 2 + |body| > p.mtu then Flush(p) else p;
      if q.status.Failed? then q else Append(q, body)
  }

  function OnTimer(p: State): State {
    if p.pending != [] then Flush(p) else p.(sent := p.sent + [MoldPacket.Heartbeat(p.session, p.next)])
  }

  function EndBurst(p: State, n: nat): State
    decreases n
  {
    if n == 0 then p.(status := Finished)
    else EndBurst(p.(sent := p.sent + [MoldPacket.EndOfSession(p.session, p.next)]), n - 1)
  }

  function OnExhausted(p: State): State {
    var q := Flush(p);
    if q.status.Failed? then q else EndBurst(q, p.burst)
  }

  /** One turn of the publishing loop. A publisher that has stopped ignores everything. */
  function Turn(p: State, input: Input): State {
    if p.status != Running then p
    else
      match input
      case Item(body) => OnItem(p, body)
      case Exhausted => OnExhausted(p)
      case SourceFailure => p.(status := Failed(SourceExhausted))
      case Timer => OnTimer(p)
  }

  function Turns(p: State, inputs: seq<Input>): State {
    if inputs == [] then p else Turn(Turns(p, inputs[..|inputs| - 1]), inputs[|inputs| - 1])
  }

  // ----- The mutable publisher -----

  class MoldPublisher {
    const session: Bytes
    const mtu: nat
    const burst: nat
    var nextSeq: nat
    var pendingBlocks: seq<Bytes>
    var pendingFirstSeq: nat
    var pendingSize: nat
    var sent: seq<Packet>
    var cached: seq<Frame>
    var status: Status

    function Model(): State
      reads this
    {
      State(session, mtu, burst, nextSeq, pendingBlocks, pendingFirstSeq, pendingSize, sent, cached, status)
    }

    constructor (session: Bytes, mtu: nat, burst: nat, start: nat)
      ensures Model() == Fresh(session, mtu, burst, start)
    {
      this.session, this.mtu, this.burst := session, mtu, burst;
      nextSeq, pendingFirstSeq, pendingSize := start, start, HEADER_LEN;
      pendingBlocks, sent, cached, status := [], [], [], Running;
    }

    method FlushPending()
      modifies this
      ensures Model() == Flush(old(Model()))
    {
      if pendingBlocks == [] {
        return;
      }
      var drained := pendingBlocks;
      pendingBlocks := [];
      match NewData(session, pendingFirstSeq, drained) {
        case Err(e) =>
          status := Failed(e);
        case Ok(pkt) =>
          var n: nat := pendingFirstSeq;
          for i := 0 to |drained|
            invariant cached + Labelled(n, drained[i..]) == old(cached) + Labelled(pendingFirstSeq, drained)
            invariant sent == old(sent) && status == old(status) && pendingBlocks == [] && nextSeq == old(nextSeq)
            invariant pendingFirstSeq == old(pendingFirstSeq) && pendingSize == old(pendingSize)
          {
            assert drained[i..][1..] == drained[i + 1..];
            cached := cached + [Frame(n, drained[i])];
            n := SatAddU64(n, 1);
          }
          sent := sent + [pkt];
          pendingSize := HEADER_LEN;
          pendingFirstSeq := nextSeq;
      }
    }

    method ServeItem(body: Bytes)
      modifies this
      ensures Model() == OnItem(old(Model()), body)
    {
      if |body| > MAX_BLOCK_LEN {
        status := Failed(BlockTooLarge(|body|, MAX_BLOCK_LEN));
        return;
      }
      if pendingBlocks != [] && pendingSize + 2 + |body| > mtu {
        FlushPending();
      }
      if status.Failed? {
        return;
      }
      if pendingBlocks == [] {
        pendingFirstSeq := nextSeq;
        pendingSize := HEADER_LEN;
      }
      pendingBlocks := pendingBlocks + [body];
      pendingSize := pendingSize + 2 + |body|;
      nextSeq := AddU64(nextSeq, 1);
    }

    method EosBurst()
      modifies this
      ensures Model() == EndBurst(old(Model()), burst)
    {
      for i := 0 to burst
        invariant EndBurst(Model(), burst - i) == EndBurst(old(Model()), burst)
      {
        sent := sent + [MoldPacket.EndOfSession(session, nextSeq)];
      }
      status := Finished;
    }

    /** The publishing loop, over any interleaving of source items and timer expiries. */
    method Serve(inputs: seq<Input>)
      modifies this
      ensures Model() == Turns(old(Model()), inputs)
    {
      for i := 0 to |inputs|
        invariant Model() == Turns(old(Model()), inputs[..i])
      {
        assert inputs[..i + 1][..i] == inputs[..i];
        if status == Running {
          match inputs[i] {
            case Item(body) =>
              ServeItem(body);
            case Exhausted =>
              FlushPending();
              if !status.Failed? {
                EosBurst();
              }
            case SourceFailure =>
              status := Failed(SourceExhausted);
            case Timer =>
              if pendingBlocks != [] {
                FlushPending();
              } else {
                sent := sent + [MoldPacket.Heartbeat(session, nextSeq)];
              }
          }
        }
      }
      assert inputs[..|inputs|] == inputs;
    }
  }
}
