/** The retransmission side of MoldUDP64: the bounded cache, the request/response exchange over
    TCP, and the retry loop of the gap-recovery client. */
module MoldCache {
  import opened Wire
  import opened MoldPacket

  const MAX_RESPONSE_FRAMES := 65_536
  const RESPONSE_HEADER_LEN := 8
  const STATUS_OK := 0x0000_0000
  const STATUS_HOLE := 0xFFFF_FFFE
  const STATUS_END_OF_SESSION := 0xFFFF_FFFF

  datatype Frame = Frame(sequence: nat, body: Bytes)

  /** Strictly increasing numbers, which the publisher guarantees and the binary search relies on. */
  predicate Sorted(fs: seq<Frame>) {
    forall i, j :: 0 <= i < j < |fs| ==> fs[i].sequence < fs[j].sequence
  }

  // ----- What the cache retains -----

  function Pushed(inner: seq<Frame>, capacity: nat, f: Frame): seq<Frame>
    requires capacity > 0
  {
    if |inner| == capacity then inner[1..] + [f] else inner + [f]
  }

  function PushedAll(capacity: nat, fs: seq<Frame>): seq<Frame>
    requires capacity > 0
  {
    if fs == [] then [] else Pushed(PushedAll(capacity, fs[..|fs| - 1]), capacity, fs[|fs| - 1])
  }

  function Tail(fs: seq<Frame>, capacity: nat): seq<Frame> {
    if |fs| > capacity then fs[|fs| - capacity..] else fs
  }

  lemma TailSlides(fs: seq<Frame>, f: Frame, capacity: nat)
    requires capacity > 0
    ensures Pushed(Tail(fs, capacity), capacity, f) == Tail(fs + [f], capacity)
  {
    if |fs| >= capacity {
      var from := |fs| - capacity;
      assert fs[from..][1..] == fs[from + 1..];
      assert (fs + [f])[from + 1..] == fs[from + 1..] + [f];
    }
  }

  /** The bounded cache is the tail of the unbounded log of everything pushed. */
  lemma {:induction false} RetainsLast(capacity: nat, fs: seq<Frame>)
    requires capacity > 0
    ensures PushedAll(capacity, fs) == Tail(fs, capacity)
  {
    hide Tail, Pushed;
    if fs == [] {
      EmptyTail(capacity);
    } else {
      var n := |fs| - 1;
      RetainsLast(capacity, fs[..n]);
      TailSlides(fs[..n], fs[n], capacity);
      assert fs[..n] + [fs[n]] == fs;
    }
  }

  lemma EmptyTail(capacity: nat)
    ensures Tail([], capacity) == []
  {
  }

  // ----- Lookup -----

  function Min(a: nat, b: nat): nat {
    if a < b then a else b
  }

  predicate Holds(inner: seq<Frame>, n: nat) {
    exists i :: 0 <= i < |inner| && inner[i].sequence == n
  }

  /** What a request for `count` frames from `start` has to return: the longest gap-free run that
      starts there, cut at the requested count and at the response cap. */
  predicate LongestRun(inner: seq<Frame>, start: nat, count: nat, r: seq<Frame>) {
    var cap := Min(count, MAX_RESPONSE_FRAMES);
    |r| <= cap
    && (forall i :: 0 <= i < |r| ==> r[i] in inner && r[i].sequence == start + i)
    && (|r| < cap ==> !Holds(inner, start + |r|))
  }

  /** There is only one such run. */
  lemma LongestRunUnique(inner: seq<Frame>, start: nat, count: nat, a: seq<Frame>, b: seq<Frame>)
    requires Sorted(inner) && LongestRun(inner, start, count, a) && LongestRun(inner, start, count, b)
    ensures a == b
  {
    if |a| < |b| {
      assert b[|a|] in inner && b[|a|].sequence == start + |a|;
      assert Holds(inner, start + |a|);
    }
    if |b| < |a| {
      assert a[|b|] in inner && a[|b|].sequence == start + |b|;
      assert Holds(inner, start + |b|);
    }
    forall i | 0 <= i < |a| ensures a[i] == b[i] {
      assert a[i] in inner && b[i] in inner && a[i].sequence == b[i].sequence == start + i;
    }
  }

  class RingBufferSeqStore {
    var inner: seq<Frame>
    var eos: bool
    const capacity: nat

    predicate Valid()
      reads this
    {
      0 < capacity && |inner| <= capacity
      && forall i :: 0 <= i < |inner| ==> inner[i].sequence <= U64_MAX
    }

    constructor (requested: nat)
      ensures Valid() && inner == [] && !eos
      ensures capacity == if requested == 0 then 1 else requested
    {
      inner := [];
      eos := false;
      capacity := if requested == 0 then 1 else requested;
    }

    method Push(f: Frame)
      requires Valid() && f.sequence <= U64_MAX
      modifies this`inner
      ensures Valid() && inner == Pushed(old(inner), capacity, f)
      ensures Sorted(old(inner) + [f]) ==> Sorted(inner)
    {
      if |inner| == capacity {
        inner := inner[1..];
      }
      inner := inner + [f];
      ghost var all := old(inner) + [f];
      assert forall i :: 0 <= i < |inner| ==> inner[i] == all[i + |all| - |inner|];
    }

    method MarkEndOfSession()
      modifies this`eos
      ensures eos
    {
      eos := true;
    }

    /** An index of the number; in a sorted buffer it is found if it is there. */
    method BinarySearch(n: nat) returns (r: Option<nat>)
      requires Valid()
      ensures r.Some? ==> r.value < |inner| && inner[r.value].sequence == n
      ensures r.None? && Sorted(inner) ==> !Holds(inner, n)
    {
      var lo, hi := 0, |inner|;
      while lo < hi
        invariant 0 <= lo <= hi <= |inner|
        invariant Sorted(inner) ==> forall i :: 0 <= i < lo ==> inner[i].sequence < n
        invariant Sorted(inner) ==> forall i :: hi <= i < |inner| ==> n < inner[i].sequence
      {
        var mid := (lo + hi) / 2;
        if inner[mid].sequence < n {
          lo := mid + 1;
        } else if inner[mid].sequence > n {
          hi := mid;
        } else {
          return Some(mid);
        }
      }
      return None;
    }

    /** Consecutive numbers from `start`, as they stand in the buffer; from a sorted buffer, the
        longest run there is. */
    method Lookup(start: nat, count: nat) returns (out: seq<Frame>)
      requires Valid() && start <= U64_MAX
      ensures |out| <= Min(count, MAX_RESPONSE_FRAMES)
      ensures forall i :: 0 <= i < |out| ==> out[i] in inner && out[i].sequence == SatAddU64(start, i)
      ensures Sorted(inner) ==> LongestRun(inner, start, count, out)
    {
      var cap := Min(count, MAX_RESPONSE_FRAMES);
      out := [];
      var found := BinarySearch(start);
      if found.None? {
        return;
      }
      hide LongestRun, Sorted;
      var at, i := found.value, found.value;
      var expected: nat := start;
      while i < |inner| && |out| < cap && inner[i].sequence == expected
        invariant at <= i <= |inner| && out == inner[at..i] && |out| <= cap
        invariant expected == SatAddU64(start, i - at)
        invariant forall j :: at <= j < i ==> inner[j].sequence == SatAddU64(start, j - at)
      {
        out := out + [inner[i]];
        expected := SatAddU64(expected, 1);
        i := i + 1;
      }
      if Sorted(inner) {
        RunIsLongest(inner, at, i, start, count);
      }
    }
  }

  lemma RunIsLongest(inner: seq<Frame>, at: nat, end: nat, start: nat, count: nat)
    requires Sorted(inner) && at < |inner| && at <= end <= |inner| && inner[at].sequence == start <= U64_MAX
    requires forall j :: 0 <= j < |inner| ==> inner[j].sequence <= U64_MAX
    requires forall j :: at <= j < end ==> inner[j].sequence == SatAddU64(start, j - at)
    requires var cap := Min(count, MAX_RESPONSE_FRAMES);
             end - at <= cap
             && (end - at < cap ==> end == |inner| || inner[end].sequence != SatAddU64(start, end - at))
    ensures LongestRun(inner, start, count, inner[at..end])
  {
    NoRepeats(inner, at, end, start);
    if end - at < Min(count, MAX_RESPONSE_FRAMES) {
      RunStops(inner, at, end, start);
    }
    forall i | 0 <= i < end - at
      ensures inner[at..end][i] in inner && inner[at..end][i].sequence == start + i
    {
      assert inner[at..end][i] == inner[at + i];
    }
  }

  /** In a sorted buffer the expected number cannot saturate twice. */
  lemma NoRepeats(inner: seq<Frame>, at: nat, end: nat, start: nat)
    requires Sorted(inner) && at <= end <= |inner| && start <= U64_MAX
    requires forall j :: at <= j < end ==> inner[j].sequence == SatAddU64(start, j - at)
    ensures forall j :: at <= j < end ==> inner[j].sequence == start + (j - at)
  {
    forall j | at <= j < end
      ensures inner[j].sequence == start + (j - at)
    {
      assert j > at ==> inner[j - 1].sequence < inner[j].sequence;
    }
  }

  /** A run of consecutive numbers in a sorted buffer that stops early stops at a missing number. */
  lemma RunStops(inner: seq<Frame>, at: nat, end: nat, start: nat)
    requires Sorted(inner) && at < |inner| && at <= end <= |inner| && inner[at].sequence == start
    requires forall j :: 0 <= j < |inner| ==> inner[j].sequence <= U64_MAX
    requires forall j :: at <= j < end ==> inner[j].sequence == start + (j - at)
    requires end == |inner| || inner[end].sequence != SatAddU64(start, end - at)
    ensures !Holds(inner, start + (end - at))
  {
    var n := start + (end - at);
    forall k | 0 <= k < |inner| ensures inner[k].sequence != n {
      if k < end {
        assert k < at ==> inner[k].sequence < inner[at].sequence;
      } else {
        assert end > at ==> inner[end - 1].sequence < inner[end].sequence;
        assert k > end ==> inner[end].sequence < inner[k].sequence;
      }
    }
  }

  // ----- Status -----

  /** `status_for`, given what the lookup returned. */
  function StatusFor(inner: seq<Frame>, eos: bool, start: nat, count: nat, returned: nat): nat {
    var cap := Min(count, MAX_RESPONSE_FRAMES);
    if returned == cap then STATUS_OK
    else if inner == [] then (if eos then STATUS_END_OF_SESSION else STATUS_HOLE)
    else
      var last := inner[|inner| - 1].sequence;
      if eos && (start > last || SatAddU64(start, cap) > AddU64(last, 1)) then STATUS_END_OF_SESSION else STATUS_HOLE
  }

  /** The status is OK exactly when every frame of the (capped) range is in the cache. */
  lemma StatusOkMeansComplete(inner: seq<Frame>, eos: bool, start: nat, count: nat, r: seq<Frame>)
    requires LongestRun(inner, start, count, r)
    ensures StatusFor(inner, eos, start, count, |r|) == STATUS_OK
            <==> forall n :: start <= n < start + Min(count, MAX_RESPONSE_FRAMES) ==> Holds(inner, n)
  {
    var cap := Min(count, MAX_RESPONSE_FRAMES);
    if |r| == cap {
      forall n | start <= n < start + cap ensures Holds(inner, n) {
        assert r[n - start] in inner;
      }
    }
  }

  /** No frame at or after number `n` is cached. */
  predicate EndsBefore(inner: seq<Frame>, n: nat) {
    forall i :: 0 <= i < |inner| ==> inner[i].sequence < n
  }

  /** The last number a request can ask for, at the end of u64. */
  function LastAsked(start: nat, count: nat): nat
    requires 0 < count
  {
    var cap := Min(count, MAX_RESPONSE_FRAMES);
    if start + cap <= U64_MAX then start + cap - 1 else if start < U64_MAX then U64_MAX - 1 else U64_MAX
  }

  /** A request answered in part: the session is over if it was closed and the cache ends before
      the last number asked for, and otherwise the answer stops at a hole that may yet be filled. */
  lemma StatusMeans(inner: seq<Frame>, eos: bool, start: nat, count: nat, r: seq<Frame>)
    requires Sorted(inner) && EndsBefore(inner, U64_MAX) && start <= U64_MAX
    requires LongestRun(inner, start, count, r) && |r| < Min(count, MAX_RESPONSE_FRAMES)
    ensures StatusFor(inner, eos, start, count, |r|)
            == if eos && EndsBefore(inner, LastAsked(start, count)) then STATUS_END_OF_SESSION else STATUS_HOLE
  {
    if inner != [] {
      var last := |inner| - 1;
      assert forall i :: 0 <= i < last ==> inner[i].sequence < inner[last].sequence;
    }
  }

  // ----- Response on the wire -----

  datatype Response = Response(status: nat, frames: seq<Frame>)

  function Bodies(fs: seq<Frame>): (bs: seq<Bytes>)
    ensures |bs| == |fs|
  {
    seq(|fs|, i requires 0 <= i < |fs| => fs[i].body)
  }

  function EncodedResponse(status: nat, fs: seq<Frame>): Bytes {
    BigEndian(status, 4) + BigEndian(|fs|, 4) + EncodeBlocks(Bodies(fs))
  }

  /** `write_response`. */
  method WriteResponse(status: nat, fs: seq<Frame>) returns (r: Result<Bytes, MoldError>)
    ensures r.Ok? <==> forall i :: 0 <= i < |fs| ==> |fs[i].body| <= MAX_BLOCK_LEN
    ensures r.Ok? ==> r.value == EncodedResponse(status, fs)
  {
    hide BigEndian;
    var out := BigEndian(status, 4) + BigEndian(|fs|, 4);
    for i := 0 to |fs|
      invariant out == BigEndian(status, 4) + BigEndian(|fs|, 4) + EncodeBlocks(Bodies(fs)[..i])
      invariant forall j :: 0 <= j < i ==> |fs[j].body| <= MAX_BLOCK_LEN
    {
      if |fs[i].body| > MAX_BLOCK_LEN {
        return Err(BlockTooLarge(|fs[i].body|, MAX_BLOCK_LEN));
      }
      EncodeBlocksNext(Bodies(fs), i);
      out := out + (BigEndian(|fs[i].body|, 2) + fs[i].body);
    }
    assert Bodies(fs)[..|fs|] == Bodies(fs);
    return Ok(out);
  }

  /** The client numbers the frames itself, counting up from what it asked for. */
  function Labelled(first: nat, bodies: seq<Bytes>): seq<Frame>
    decreases |bodies|
  {
    if bodies == [] then [] else [Frame(first, bodies[0])] + Labelled(SatAddU64(first, 1), bodies[1..])
  }

  function DecodedResponse(first: nat, stream: Bytes): Result<Response, MoldError> {
    if |stream| < RESPONSE_HEADER_LEN then Err(Truncated(RESPONSE_HEADER_LEN, |stream|))
    else
      var status, n := FromBigEndian(stream[..4]), FromBigEndian(stream[4..8]);
      if n > MAX_RESPONSE_FRAMES then Err(BlockTooLarge(n, MAX_RESPONSE_FRAMES))
      else
        match DecodeBlocks(n, stream[8..])
        case Err(e) => Err(e)
        case Ok((bodies, _)) => Ok(Response(status, Labelled(first, bodies)))
  }

  /** The response half of `RequestClient::request`. A short read is an error. */
  method ReadResponse(first: nat, stream: Bytes) returns (r: Result<Response, MoldError>)
    ensures r == DecodedResponse(first, stream)
  {
    if |stream| < RESPONSE_HEADER_LEN {
      return Err(Truncated(RESPONSE_HEADER_LEN, |stream|));
    }
    var status, n := FromBigEndian(stream[..4]), FromBigEndian(stream[4..8]);
    if n > MAX_RESPONSE_FRAMES {
      return Err(BlockTooLarge(n, MAX_RESPONSE_FRAMES));
    }
    var cursor := stream[8..];
    var frames: seq<Frame> := [];
    var next: nat := first;
    ghost var all := DecodeBlocks(n, cursor);
    for i := 0 to n
      invariant all.Ok? <==> DecodeBlocks(n - i, cursor).Ok?
      invariant all.Err? ==> all == DecodeBlocks(n - i, cursor)
      invariant all.Ok? ==> Labelled(first, all.value.0) == frames + Labelled(next, DecodeBlocks(n - i, cursor).value.0)
    {
      if |cursor| < 2 {
        return Err(Truncated(2, |cursor|));
      }
      var len := FromBigEndian(cursor[..2]);
      if len == 0 {
        return Err(EmptyBlock);
      }
      if len > MAX_BLOCK_LEN {
        return Err(BlockTooLarge(len, MAX_BLOCK_LEN));
      }
      if |cursor| - 2 < len {
        return Err(Truncated(len, |cursor| - 2));
      }
      ReadStep(n - i, cursor, frames, next);
      frames := frames + [Frame(next, cursor[2..2 + len])];
      cursor := cursor[2 + len..];
      next := SatAddU64(next, 1);
    }
    assert frames + Labelled(next, []) == frames;
    return Ok(Response(status, frames));
  }

  lemma ReadStep(n: nat, cur: Bytes, frames: seq<Frame>, next: nat)
    requires n > 0 && |cur| >= 2
    requires 1 <= FromBigEndian(cur[..2]) <= MAX_BLOCK_LEN && 2 + FromBigEndian(cur[..2]) <= |cur|
    ensures var len := FromBigEndian(cur[..2]);
            var r := DecodeBlocks(n - 1, cur[2 + len..]);
            (DecodeBlocks(n, cur).Ok? <==> r.Ok?) && (r.Err? ==> DecodeBlocks(n, cur) == r)
            && (r.Ok? ==> frames + Labelled(next, DecodeBlocks(n, cur).value.0)
                          == (frames + [Frame(next, cur[2..2 + len])]) + Labelled(SatAddU64(next, 1), r.value.0))
  {
    var len := FromBigEndian(cur[..2]);
    var r := DecodeBlocks(n - 1, cur[2 + len..]);
    if r.Ok? {
      var block, bs := cur[2..2 + len], r.value.0;
      assert DecodeBlocks(n, cur).value.0 == [block] + bs;
      assert ([block] + bs)[1..] == bs;
      assert Labelled(next, [block] + bs) == [Frame(next, block)] + Labelled(SatAddU64(next, 1), bs);
    }
  }

  /** Frames numbered consecutively from `first`, below the end of u64. */
  predicate Consecutive(first: nat, fs: seq<Frame>) {
    (fs == [] || first + |fs| <= U64_MAX + 1) && forall i :: 0 <= i < |fs| ==> fs[i].sequence == first + i
  }

  lemma {:induction false} LabelledBodies(first: nat, fs: seq<Frame>)
    requires Consecutive(first, fs)
    ensures Labelled(first, Bodies(fs)) == fs
    decreases |fs|
  {
    if fs != [] {
      var rest := fs[1..];
      assert Bodies(fs)[1..] == Bodies(rest);
      if rest != [] {
        LabelledBodies(first + 1, rest);
      }
      assert fs[0] == Frame(first, fs[0].body);
      assert fs == [fs[0]] + rest;
    }
  }

  /** What the server sends for a run of in-limit frames is what the client reads, numbers
      included, although no numbers travel. Bytes after the response are left for the next one. */
  lemma ResponseRoundTrip(status: nat, first: nat, fs: seq<Frame>, rest: Bytes)
    requires status <= 0xFFFF_FFFF && |fs| <= MAX_RESPONSE_FRAMES && Consecutive(first, fs)
    requires forall i :: 0 <= i < |fs| ==> GoodBlock(fs[i].body)
    ensures DecodedResponse(first, EncodedResponse(status, fs) + rest) == Ok(Response(status, fs))
  {
    hide BigEndian, FromBigEndian, EncodeBlocks, DecodeBlocks, Labelled;
    Pow256Values();
    BigEndianRoundTrip(status, 4);
    BigEndianRoundTrip(|fs|, 4);
    ResponseSlices(BigEndian(status, 4), BigEndian(|fs|, 4), EncodeBlocks(Bodies(fs)), rest);
    DecodeEncodeBlocks(Bodies(fs), rest);
    LabelledBodies(first, fs);
  }

  lemma {:induction false} LabelledOnly(first: nat, bs: seq<Bytes>)
    ensures |Labelled(first, bs)| == |bs| && Bodies(Labelled(first, bs)) == bs
    decreases |bs|
  {
    if bs != [] {
      LabelledOnly(SatAddU64(first, 1), bs[1..]);
      var rest := Labelled(SatAddU64(first, 1), bs[1..]);
      assert Bodies([Frame(first, bs[0])] + rest) == [bs[0]] + Bodies(rest);
    }
  }

  /** Whatever the client accepts starts with the code of what it read: nothing is made up and
      nothing in between is skipped. */
  lemma ResponseInverse(first: nat, stream: Bytes)
    requires DecodedResponse(first, stream).Ok?
    ensures var r := DecodedResponse(first, stream).value;
            |r.frames| <= MAX_RESPONSE_FRAMES && EncodedResponse(r.status, r.frames) <= stream
  {
    var head, n := stream[..4], FromBigEndian(stream[4..8]);
    var (bodies, rest) := DecodeBlocks(n, stream[8..]).value;
    EncodeDecodeBlocks(n, stream[8..]);
    FromBigEndianRoundTrip(head);
    FromBigEndianRoundTrip(stream[4..8]);
    LabelledOnly(first, bodies);
    hide BigEndian, FromBigEndian, EncodeBlocks, DecodeBlocks, Labelled, Bodies;
    assert stream == head + stream[4..8] + (EncodeBlocks(bodies) + rest);
    assert stream == (head + stream[4..8] + EncodeBlocks(bodies)) + rest;
  }

  lemma ResponseSlices(a: Bytes, b: Bytes, c: Bytes, rest: Bytes)
    requires |a| == |b| == 4
    ensures var s := a + b + c + rest;
            s[..4] == a && s[4..8] == b && s[8..] == c + rest
  {
  }

  // ----- Retry and failover -----

  /** A response the recovery client takes: frames, or an end-of-session answer. */
  predicate Usable(r: Result<Response, MoldError>) {
    r.Ok? && (r.value.status == STATUS_END_OF_SESSION
              || ((r.value.status == STATUS_OK || r.value.status == STATUS_HOLE) && r.value.frames != []))
  }

  /** Which answers of a cache are taken: any that brings frames, and an empty one only when the
      session is over. An empty answer from a cache still being filled is asked for again. */
  lemma UsableAnswer(inner: seq<Frame>, eos: bool, start: nat, count: nat, r: seq<Frame>)
    requires Sorted(inner) && EndsBefore(inner, U64_MAX) && start <= U64_MAX && LongestRun(inner, start, count, r)
    ensures Usable(Ok(Response(StatusFor(inner, eos, start, count, |r|), r)))
            <==> r != [] || (0 < count && eos && EndsBefore(inner, LastAsked(start, count)))
  {
    if |r| < Min(count, MAX_RESPONSE_FRAMES) {
      StatusMeans(inner, eos, start, count, r);
    }
  }

  /** The attempts in the order they are made: every server in turn, each `retries` times. */
  function Attempts(servers: seq<seq<Result<Response, MoldError>>>): seq<Result<Response, MoldError>> {
    if servers == [] then [] else servers[0] + Attempts(servers[1..])
  }

  /** The error of the last attempt; a response that was no use counts as a timeout. */
  function LastError(made: seq<Result<Response, MoldError>>, from: nat): MoldError {
    if made == [] || made[|made| - 1].Ok? then RequestTimeout(from) else made[|made| - 1].error
  }

  /** `recover_gap`. `servers[i]` holds what each attempt against server `i` comes back with; the
      deadline passes after `budget` attempts. It returns the frames of the first usable response
      among the attempts made in time. When there is none it fails: with a timeout if the deadline
      came first, and with the error of the last attempt if every attempt was made. */
  method RecoverGap(servers: seq<seq<Result<Response, MoldError>>>, from: nat, budget: nat)
    returns (r: Result<seq<Frame>, MoldError>)
    ensures r.Ok? <==> exists k :: 0 <= k < Min(budget, |Attempts(servers)|) && Usable(Attempts(servers)[k])
    ensures r.Ok? ==> exists k :: 0 <= k < |Attempts(servers)| && Usable(Attempts(servers)[k])
                                  && Attempts(servers)[k].value.frames == r.value
                                  && forall j :: 0 <= j < k ==> !Usable(Attempts(servers)[j])
    ensures r.Err? ==> r.error == if budget < |Attempts(servers)| then RequestTimeout(from)
                                  else LastError(Attempts(servers), from)
  {
    var last: Option<MoldError> := None;
    var made: nat := 0;
    ghost var all := Attempts(servers);
    var i := 0;
    while i < |servers|
      invariant 0 <= i <= |servers| && made <= budget
      invariant made + |Attempts(servers[i..])| == |all| && all[made..] == Attempts(servers[i..])
      invariant forall k :: 0 <= k < made ==> !Usable(all[k])
      invariant (if last.Some? then last.value else RequestTimeout(from)) == LastError(all[..made], from)
    {
      assert servers[i..][1..] == servers[i + 1..];
      ghost var tail := Attempts(servers[i + 1..]);
      var j := 0;
      while j < |servers[i]|
        invariant 0 <= j <= |servers[i]| && made <= budget
        invariant made + |servers[i][j..]| + |tail| == |all| && all[made..] == servers[i][j..] + tail
        invariant forall k :: 0 <= k < made ==> !Usable(all[k])
        invariant (if last.Some? then last.value else RequestTimeout(from)) == LastError(all[..made], from)
      {
        if made == budget {
          return Err(RequestTimeout(from));
        }
        var outcome := servers[i][j];
        assert all[made] == all[made..][0] == outcome;
        if Usable(outcome) {
          return Ok(outcome.value.frames);
        }
        last := Some(if outcome.Err? then outcome.error else RequestTimeout(from));
        assert all[made + 1..] == all[made..][1..];
        made := made + 1;
        j := j + 1;
      }
      i := i + 1;
    }
    assert all[..made] == all;
    return Err(if last.Some? then last.value else RequestTimeout(from));
  }
}
