/** Length-prefixed framing over a byte stream, with resynchronisation after a refused frame. */
module Framing {
  import opened Wire

  const MAX_MESSAGE_LEN: nat := 1024

  /** The plain length-prefixed feed, or SoupBinTCP. */
  datatype Dialect = Plain | Soup

  /** What one call of the decoder can report. */
  datatype Output<+T, +E> = Frame(value: T) | BadFrame(error: E) | FrameTooLarge(got: nat)

  type Parser<T, E> = Bytes -> Result<T, E>

  /** The 16-bit length that stands before a body. */
  function Announced(b: Bytes): nat
    requires |b| >= 2
  {
    (b[0] as int) * 256 + b[1] as int
  }

  predicate Refused(d: Dialect, len: nat) {
    match d
    case Plain => len > MAX_MESSAGE_LEN
    case Soup => len == 0 || 2 + len > MAX_MESSAGE_LEN
  }

  function Refusal<T, E>(d: Dialect, len: nat): Output<T, E> {
    FrameTooLarge(if d == Plain then len else 2 + len)
  }

  function Accepted<T, E>(parse: Parser<T, E>, body: Bytes): Output<T, E> {
    match parse(body)
    case Ok(v) => Frame(v)
    case Err(e) => BadFrame(e)
  }

  // ----- The decoder -----

  datatype State = State(skip: nat, src: Bytes)

  /** One call of `decode`: what it reports, if anything, and what it leaves behind. */
  function Decoded<T, E>(d: Dialect, parse: Parser<T, E>, s: State): (Option<Output<T, E>>, State) {
    if s.skip > |s.src| then (None, State(s.skip - |s.src|, []))
    else
      var src := s.src[s.skip..];
      if |src| < 2 then (None, State(0, src))
      else
        var len := Announced(src);
        if Refused(d, len) then
          if |src| >= 2 + len then (Some(Refusal(d, len)), State(0, src[2 + len..]))
          else (Some(Refusal(d, len)), State(2 + len - |src|, []))
        else if |src| < 2 + len then (None, State(0, src))
        else (Some(Accepted(parse, src[2..2 + len])), State(0, src[2 + len..]))
  }

  /** Every report consumes input, so draining a buffer ends. */
  lemma ReportsConsume<T, E>(d: Dialect, parse: Parser<T, E>, s: State)
    ensures Decoded(d, parse, s).0.Some? ==> |Decoded(d, parse, s).1.src| < |s.src|
  {
  }

  function Drained<T, E>(d: Dialect, parse: Parser<T, E>, s: State): (seq<Output<T, E>>, State)
    decreases |s.src|
  {
    var (out, t) := Decoded(d, parse, s);
    if out.None? then ([], t)
    else
      ReportsConsume(d, parse, s);
      var (rest, u) := Drained(d, parse, t);
      ([out.value] + rest, u)
  }

  /** The codec together with the read buffer it consumes from. */
  class FramedReader<T, E> {
    const dialect: Dialect
    const parse: Parser<T, E>
    var pendingSkip: nat
    var src: Bytes

    function Model(): State
      reads this
    {
      State(pendingSkip, src)
    }

    constructor (d: Dialect, p: Parser<T, E>)
      ensures dialect == d && parse == p && Model() == State(0, [])
    {
      dialect, parse := d, p;
      pendingSkip, src := 0, [];
    }

    method Decode() returns (r: Option<Output<T, E>>)
      modifies this
      ensures (r, Model()) == Decoded(dialect, parse, old(Model()))
    {
      if pendingSkip > 0 {
        var toDrop := if pendingSkip < |src| then pendingSkip else |src|;
        src := src[toDrop..];
        pendingSkip := pendingSkip - toDrop;
        if pendingSkip > 0 {
          return None;
        }
      }
      assert src == old(src)[old(pendingSkip)..];
      if |src| < 2 {
        return None;
      }
      var len := Announced(src);
      if Refused(dialect, len) {
        var total := 2 + len;
        if |src| >= total {
          src := src[total..];
        } else {
          pendingSkip := total - |src|;
          src := [];
        }
        return Some(Refusal(dialect, len));
      }
      if |src| < 2 + len {
        return None;
      }
      ghost var whole := src;
      src := src[2..];
      var frame := src[..len];
      src := src[len..];
      assert frame == whole[2..2 + len] && src == whole[2 + len..];
      return Some(Accepted(parse, frame));
    }

    /** A chunk arrives, and the reader reports until it has to wait for more. */
    method Receive(chunk: Bytes) returns (outs: seq<Output<T, E>>)
      modifies this
      ensures (outs, Model()) == Drained(dialect, parse, State(old(pendingSkip), old(src) + chunk))
    {
      src := src + chunk;
      outs := [];
      ghost var all := Drained(dialect, parse, Model());
      assert [] + all.0 == all.0;
      while true
        invariant all == (outs + Drained(dialect, parse, Model()).0, Drained(dialect, parse, Model()).1)
        decreases |src|
      {
        ReportsConsume(dialect, parse, Model());
        ghost var rest := Drained(dialect, parse, Model()).0;
        var out := Decode();
        if out.None? {
          assert outs + [] == outs;
          return;
        }
        assert outs + rest == (outs + [out.value]) + rest[1..];
        outs := outs + [out.value];
      }
    }
  }

  // ----- The reference: frames of the whole stream -----

  /** Cuts a stream into frames, with no state carried from one to the next. */
  function Frames<T, E>(d: Dialect, parse: Parser<T, E>, b: Bytes): seq<Output<T, E>>
    decreases |b|
  {
    if |b| < 2 then []
    else
      var len := Announced(b);
      var end := if 2 + len <= |b| then 2 + len else |b|;
      if Refused(d, len) then [Refusal(d, len)] + Frames(d, parse, b[end..])
      else if |b| < 2 + len then []
      else [Accepted(parse, b[2..end])] + Frames(d, parse, b[end..])
  }

  /** The frames still to come, given what is left to skip. */
  function FramesAfter<T, E>(d: Dialect, parse: Parser<T, E>, s: State): seq<Output<T, E>> {
    if s.skip > |s.src| then [] else Frames(d, parse, s.src[s.skip..])
  }

  function Fed(s: State, more: Bytes): State {
    s.(src := s.src + more)
  }

  /** One call hands over the first frame to come, whatever arrives later. */
  lemma DecodedStable<T, E>(d: Dialect, parse: Parser<T, E>, s: State, more: Bytes)
    ensures var (out, t) := Decoded(d, parse, s);
            FramesAfter(d, parse, Fed(s, more)) ==
            (if out.Some? then [out.value] else []) + FramesAfter(d, parse, Fed(t, more))
  {
    hide Frames;
    if s.skip > |s.src| {
      SkipAll(s, more);
    } else {
      var src := s.src[s.skip..];
      assert (s.src + more)[s.skip..] == src + more;
      FirstFrame(d, parse, src, more);
      assert (src + more)[0..] == src + more;
    }
  }

  lemma SkipAll(s: State, more: Bytes)
    requires s.skip > |s.src|
    ensures s.skip <= |s.src + more| ==> (s.src + more)[s.skip..] == ([] + more)[s.skip - |s.src|..]
  {
  }

  /** A complete frame is seen as such, whatever follows it. */
  lemma CompleteFrame<T, E>(d: Dialect, parse: Parser<T, E>, src: Bytes, more: Bytes)
    requires |src| >= 2 && |src| >= 2 + Announced(src)
    ensures var (out, t) := Decoded(d, parse, State(0, src));
            out.Some? && t.skip == 0
            && Frames(d, parse, src + more) == [out.value] + Frames(d, parse, t.src + more)
  {
    hide Refused, Refusal, Accepted;
    var len := Announced(src);
    assert src[0..] == src && Announced(src + more) == len;
    assert (src + more)[2..2 + len] == src[2..2 + len];
    assert (src + more)[2 + len..] == src[2 + len..] + more;
  }

  /** A refused frame is reported on sight of its length; the rest of it is skipped as it arrives. */
  lemma PartialRefusal<T, E>(d: Dialect, parse: Parser<T, E>, src: Bytes, more: Bytes)
    requires |src| >= 2 && |src| < 2 + Announced(src) && Refused(d, Announced(src))
    ensures var len := Announced(src);
            var left := 2 + len - |src|;
            && Decoded<T, E>(d, parse, State(0, src)) == (Some(Refusal(d, len)), State(left, []))
            && Frames(d, parse, src + more)
               == [Refusal(d, len)] + if left > |more| then [] else Frames(d, parse, more[left..])
  {
    assert src[0..] == src;
    hide Refused, Refusal, Accepted;
    RefusedFirst(d, parse, src, more);
  }

  lemma RefusedFirst<T, E>(d: Dialect, parse: Parser<T, E>, src: Bytes, more: Bytes)
    requires |src| >= 2 && |src| < 2 + Announced(src) && Refused(d, Announced(src))
    ensures var len := Announced(src);
            var left := 2 + len - |src|;
            Frames(d, parse, src + more)
            == [Refusal(d, len)] + if left > |more| then [] else Frames(d, parse, more[left..])
  {
    hide Refused, Refusal, Frames, Announced;
    SameAnnounced(src, more);
    RefusedFrame(d, parse, src + more);
    EmptyStream(d, parse, []);
    var end := if 2 + Announced(src) <= |src| + |more| then 2 + Announced(src) else |src| + |more|;
    DropPast(src, more, end);
  }

  lemma SameAnnounced(src: Bytes, more: Bytes)
    requires |src| >= 2
    ensures Announced(src + more) == Announced(src)
  {
  }

  lemma DropPast(a: Bytes, b: Bytes, n: nat)
    requires |a| <= n <= |a| + |b|
    ensures (a + b)[n..] == b[n - |a|..] && (n == |a| + |b| ==> (a + b)[n..] == [])
  {
  }

  lemma RefusedFrame<T, E>(d: Dialect, parse: Parser<T, E>, b: Bytes)
    requires |b| >= 2 && Refused(d, Announced(b))
    ensures var len := Announced(b);
            Frames(d, parse, b)
            == [Refusal(d, len)] + Frames(d, parse, b[if 2 + len <= |b| then 2 + len else |b|..])
  {
    hide Refused, Refusal, Accepted, Announced;
  }

  /** The frames of `src + more`, by what can already be seen in `src`. */
  lemma FirstFrame<T, E>(d: Dialect, parse: Parser<T, E>, src: Bytes, more: Bytes)
    ensures var (out, t) := Decoded(d, parse, State(0, src));
            Frames(d, parse, src + more) ==
            (if out.Some? then [out.value] else []) + FramesAfter(d, parse, Fed(t, more))
  {
    hide Frames;
    if |src| >= 2 && |src| >= 2 + Announced(src) {
      CompleteFrame(d, parse, src, more);
      NothingToSkip(d, parse, Decoded(d, parse, State(0, src)).1.src + more);
      hide Decoded, FramesAfter;
    } else if |src| >= 2 && Refused(d, Announced(src)) {
      PartialRefusal(d, parse, src, more);
      hide Decoded;
      assert [] + more == more;
    } else {
      assert src[0..] == src;
      assert Decoded(d, parse, State(0, src)) == (None, State(0, src));
      NothingToSkip(d, parse, src + more);
      hide Decoded, FramesAfter;
      assert [] + Frames(d, parse, src + more) == Frames(d, parse, src + more);
    }
  }

  lemma NothingToSkip<T, E>(d: Dialect, parse: Parser<T, E>, src: Bytes)
    ensures FramesAfter(d, parse, State(0, src)) == Frames(d, parse, src)
  {
    assert src[0..] == src;
  }

  lemma {:induction false} DrainedStable<T, E>(d: Dialect, parse: Parser<T, E>, s: State, more: Bytes)
    ensures var (outs, t) := Drained(d, parse, s);
            FramesAfter(d, parse, Fed(s, more)) == outs + FramesAfter(d, parse, Fed(t, more))
    decreases |s.src|
  {
    DecodedStable(d, parse, s, more);
    var (out, t) := Decoded(d, parse, s);
    hide Decoded, FramesAfter;
    if out.Some? {
      ReportsConsume(d, parse, s);
      DrainedStable(d, parse, t, more);
    }
  }

  /** A drained reader has nothing left to say about what it holds. */
  lemma {:induction false} DrainedDry<T, E>(d: Dialect, parse: Parser<T, E>, s: State)
    ensures FramesAfter(d, parse, Drained(d, parse, s).1) == []
    decreases |s.src|
  {
    var (out, t) := Decoded(d, parse, s);
    if out.Some? {
      ReportsConsume(d, parse, s);
      DrainedDry(d, parse, t);
    } else {
      assert t.skip <= |t.src| ==> t.src[t.skip..] == t.src;
    }
  }

  // ----- Chunking -----

  /** The reports over a run in which the stream arrives as `chunks`. */
  function Received<T, E>(d: Dialect, parse: Parser<T, E>, chunks: seq<Bytes>): (seq<Output<T, E>>, State) {
    if chunks == [] then ([], State(0, []))
    else
      var (outs, s) := Received(d, parse, chunks[..|chunks| - 1]);
      var (more, t) := Drained(d, parse, Fed(s, chunks[|chunks| - 1]));
      (outs + more, t)
  }

  lemma {:induction false} ReceivedStable<T, E>(d: Dialect, parse: Parser<T, E>, chunks: seq<Bytes>, more: Bytes)
    ensures var (outs, t) := Received(d, parse, chunks);
            Frames(d, parse, Concat(chunks) + more) == outs + FramesAfter(d, parse, Fed(t, more))
            && FramesAfter(d, parse, t) == []
  {
    hide Drained, FramesAfter, Frames;
    if chunks == [] {
      NothingToSkip(d, parse, more);
      NothingToSkip(d, parse, []);
      EmptyStream(d, parse, more);
    } else {
      var n := |chunks| - 1;
      var (outs, s) := Received(d, parse, chunks[..n]);
      var mid := Fed(s, chunks[n]);
      var (next, t) := Drained(d, parse, mid);
      assert Received(d, parse, chunks) == (outs + next, t);
      ConcatLast(chunks);
      ReceivedStable(d, parse, chunks[..n], chunks[n] + more);
      DrainedStable(d, parse, mid, more);
      DrainedDry(d, parse, mid);
      hide Received, Concat;
      calc {
        Frames(d, parse, Concat(chunks) + more);
        { Regroup(Concat(chunks[..n]), chunks[n], more); }
        outs + FramesAfter(d, parse, Fed(s, chunks[n] + more));
        { Regroup(s.src, chunks[n], more); }
        outs + FramesAfter(d, parse, Fed(mid, more));
        outs + (next + FramesAfter(d, parse, Fed(t, more)));
        (outs + next) + FramesAfter(d, parse, Fed(t, more));
      }
    }
  }

  lemma EmptyStream<T, E>(d: Dialect, parse: Parser<T, E>, more: Bytes)
    ensures Frames(d, parse, []) == [] && Concat([]) + more == more == [] + more
    ensures [] + Frames(d, parse, more) == Frames(d, parse, more)
  {
  }

  lemma ConcatLast(chunks: seq<Bytes>)
    requires chunks != []
    ensures Concat(chunks) == Concat(chunks[..|chunks| - 1]) + chunks[|chunks| - 1]
  {
    var n := |chunks| - 1;
    assert chunks == chunks[..n] + [chunks[n]];
    ConcatAppend(chunks[..n], [chunks[n]]);
    var last: seq<Bytes> := [chunks[n]];
    assert last[1..] == [] && Concat(last) == chunks[n] + Concat([]);
  }

  /** However a stream is cut into reads, the reports are those of the whole stream. */
  lemma ChunkingIndependence<T, E>(d: Dialect, parse: Parser<T, E>, chunks: seq<Bytes>)
    ensures Received(d, parse, chunks).0 == Frames(d, parse, Concat(chunks))
  {
    ReceivedStable(d, parse, chunks, []);
    var t := Received(d, parse, chunks).1;
    assert Concat(chunks) + [] == Concat(chunks) && Fed(t, []) == t by {
      assert t.src + [] == t.src;
    }
  }

  // ----- Boundaries -----

  /** A body behind its length. */
  function Framed(body: Bytes): Bytes {
    [(|body| / 256) % 256, |body| % 256] + body
  }

  function FramedAll(bodies: seq<Bytes>): Bytes {
    if bodies == [] then [] else Framed(bodies[0]) + FramedAll(bodies[1..])
  }

  /** What a decoder reports for one complete frame. */
  function Reported<T, E>(d: Dialect, parse: Parser<T, E>, body: Bytes): Output<T, E> {
    if Refused(d, |body|) then Refusal(d, |body|) else Accepted(parse, body)
  }

  lemma FramedFirst<T, E>(d: Dialect, parse: Parser<T, E>, body: Bytes, rest: Bytes)
    requires |body| <= 0xFFFF
    ensures Frames(d, parse, Framed(body) + rest) == [Reported(d, parse, body)] + Frames(d, parse, rest)
  {
    var all := Framed(body) + rest;
    assert Announced(all) == |body|;
    assert all[2..2 + |body|] == body && all[2 + |body|..] == rest;
  }

  /**
   * Good, bad and refused frames in any order: each is reported for itself, and none
   * disturbs the boundaries of the others.
   */
  lemma {:induction false} BoundariesNeverDrift<T, E>(d: Dialect, parse: Parser<T, E>, bodies: seq<Bytes>)
    requires forall i :: 0 <= i < |bodies| ==> |bodies[i]| <= 0xFFFF
    ensures Frames(d, parse, FramedAll(bodies))
            == seq(|bodies|, i requires 0 <= i < |bodies| => Reported(d, parse, bodies[i]))
  {
    if bodies != [] {
      FramedFirst(d, parse, bodies[0], FramedAll(bodies[1..]));
      BoundariesNeverDrift(d, parse, bodies[1..]);
    }
  }

  // ----- Which lengths are refused -----

  lemma AnnouncedIsBigEndian(b: Bytes)
    requires |b| >= 2
    ensures Announced(b) == FromBigEndian(b[..2])
  {
    var two := b[..2];
    assert two[..1][..0] == [] && two[..1] == [b[0]];
    assert FromBigEndian([b[0]]) == b[0] as int;
  }

  /** The length travels in two bytes, most significant first, and the body follows it. */
  lemma FrameLayout(body: Bytes)
    requires |body| <= 0xFFFF
    ensures |Framed(body)| == 2 + |body| && FromBigEndian(Framed(body)[..2]) == |body| && Framed(body)[2..] == body
  {
    AnnouncedIsBigEndian(Framed(body));
  }

  /** The plain feed takes bodies of up to 1024 bytes, the empty one included, and reports the
      length of any other. */
  lemma PlainLimits<T, E>(parse: Parser<T, E>, body: Bytes, rest: Bytes)
    requires |body| <= 0xFFFF
    ensures Frames(Plain, parse, Framed(body) + rest)
            == [if |body| > 1024 then FrameTooLarge(|body|)
                else match parse(body) case Ok(v) => Frame(v) case Err(e) => BadFrame(e)]
               + Frames(Plain, parse, rest)
  {
    hide Frames, Framed;
    FramedFirst(Plain, parse, body, rest);
  }

  /** SoupBinTCP takes payloads of 1 to 1022 bytes, and reports the length of any other together
      with the two bytes of the length itself. */
  lemma SoupLimits<T, E>(parse: Parser<T, E>, body: Bytes, rest: Bytes)
    requires |body| <= 0xFFFF
    ensures Frames(Soup, parse, Framed(body) + rest)
            == [if |body| == 0 || |body| > 1022 then FrameTooLarge(2 + |body|)
                else match parse(body) case Ok(v) => Frame(v) case Err(e) => BadFrame(e)]
               + Frames(Soup, parse, rest)
  {
    hide Frames, Framed;
    FramedFirst(Soup, parse, body, rest);
  }
}
