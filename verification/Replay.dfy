/** Replaying captured messages from a reader that may return less than it was asked for. */
module Replay {
  import opened Wire
  import opened ItchStream
  import Framing
  import ItchTcp
  import Itch

  datatype Format = Glimpse | RawBodies

  datatype ReplayError =
    | Protocol(error: Itch.ProtocolError)
    | Truncated(offset: nat)
    | FrameTooLarge(offset: nat, got: nat)

  type Item = Result<Itch.Message, ReplayError>

  /** What the reader still holds, and how many bytes were taken from it. */
  datatype State = State(source: Bytes, offset: nat)

  /** The next `n` bytes; nothing at a clean end; an error when the end comes in between. */
  function Fetched(s: State, n: nat): (Result<Option<Bytes>, ReplayError>, State) {
    if |s.source| >= n then (Ok(Some(s.source[..n])), State(s.source[n..], s.offset + n))
    else if s.source == [] then (Ok(None), s)
    else (Err(Truncated(s.offset + |s.source|)), State([], s.offset + |s.source|))
  }

  function TotalLen(tag: byte): Option<nat> {
    match Itch.KindOf(tag)
    case None => None
    case Some(k) => Some(1 + Itch.BodyLen(k))
  }

  function Parsed(frame: Bytes): Item {
    match Itch.Decode(frame)
    case Ok(m) => Ok(m)
    case Err(e) => Err(Protocol(e))
  }

  function NextRaw(s: State): (Option<Item>, State) {
    var (first, t) := Fetched(s, 1);
    match first
    case Err(e) => (Some(Err(e)), t)
    case Ok(None) => (None, t)
    case Ok(Some(b)) =>
      match TotalLen(b[0])
      case None => (Some(Err(Protocol(Itch.UnknownMessageType(b[0])))), t)
      case Some(total) =>
        if total > Framing.MAX_MESSAGE_LEN then (Some(Err(FrameTooLarge(t.offset, total))), t)
        else
          var (body, u) := Fetched(t, total - 1);
          match body
          case Err(e) => (Some(Err(e)), u)
          case Ok(None) => (Some(Err(Truncated(u.offset))), u)
          case Ok(Some(rest)) => (Some(Parsed(b + rest)), u)
  }

  function NextGlimpse(s: State): (Option<Item>, State) {
    var (prefix, t) := Fetched(s, 2);
    match prefix
    case Err(e) => (Some(Err(e)), t)
    case Ok(None) => (None, t)
    case Ok(Some(b)) =>
      var len := Framing.Announced(b);
      if len == 0 then (None, t)
      else if len > Framing.MAX_MESSAGE_LEN then (Some(Err(FrameTooLarge(t.offset, len))), t)
      else
        var (body, u) := Fetched(t, len);
        match body
        case Err(e) => (Some(Err(e)), u)
        case Ok(None) => (Some(Err(Truncated(u.offset))), u)
        case Ok(Some(frame)) => (Some(Parsed(frame)), u)
  }

  function Next(f: Format, s: State): (Option<Item>, State) {
    if f == Glimpse then NextGlimpse(s) else NextRaw(s)
  }

  // ----- The iterator -----

  class MessageIterator {
    const format: Format
    var source: Bytes
    var offset: nat

    function Model(): State
      reads this
    {
      State(source, offset)
    }

    constructor (data: Bytes, f: Format)
      ensures format == f && Model() == State(data, 0)
    {
      format, source, offset := f, data, 0;
    }

    /** One read of the underlying reader: as few bytes as it likes, but some while there are any. */
    method Read(n: nat) returns (chunk: Bytes)
      modifies this`source
      ensures chunk + source == old(source) && |chunk| <= n
      ensures n > 0 && old(source) != [] ==> chunk != []
    {
      var most := if n < |source| then n else |source|;
      var k: nat :| k <= most && (most > 0 ==> k > 0);
      chunk := source[..k];
      source := source[k..];
    }

    /** Collects exactly `n` bytes over any number of short reads. */
    method ReadExact(n: nat) returns (r: Result<Option<Bytes>, ReplayError>)
      modifies this
      ensures (r, Model()) == Fetched(old(Model()), n)
    {
      var buf: Bytes := [];
      while |buf| < n
        invariant |buf| <= n && buf + source == old(source) && offset == old(offset)
        decreases n - |buf|
      {
        ghost var before, rest := buf, source;
        var chunk := Read(n - |buf|);
        if chunk == [] {
          assert source == [];
          if buf == [] {
            return Ok(None);
          }
          offset := offset + |buf|;
          return Err(Truncated(offset));
        }
        buf := buf + chunk;
        assert buf + source == before + rest;
      }
      assert old(source)[..n] == buf && old(source)[n..] == source;
      offset := offset + n;
      return Ok(Some(buf));
    }

    method NextRawBodies() returns (r: Option<Item>)
      modifies this
      ensures (r, Model()) == NextRaw(old(Model()))
    {
      hide Itch.Decode, Itch.KindOf;
      var first := ReadExact(1);
      match first {
        case Err(e) => return Some(Err(e));
        case Ok(None) => return None;
        case Ok(Some(b)) =>
          var total := TotalLen(b[0]);
          if total.None? {
            return Some(Err(Protocol(Itch.UnknownMessageType(b[0]))));
          }
          if total.value > Framing.MAX_MESSAGE_LEN {
            return Some(Err(FrameTooLarge(offset, total.value)));
          }
          var body := ReadExact(total.value - 1);
          match body {
            case Err(e) => return Some(Err(e));
            case Ok(None) => return Some(Err(Truncated(offset)));
            case Ok(Some(rest)) => return Some(Parsed(b + rest));
          }
      }
    }

    method NextGlimpseFrame() returns (r: Option<Item>)
      modifies this
      ensures (r, Model()) == NextGlimpse(old(Model()))
    {
      hide Itch.Decode;
      var prefix := ReadExact(2);
      match prefix {
        case Err(e) => return Some(Err(e));
        case Ok(None) => return None;
        case Ok(Some(b)) =>
          var len := Framing.Announced(b);
          if len == 0 {
            return None;
          }
          if len > Framing.MAX_MESSAGE_LEN {
            return Some(Err(FrameTooLarge(offset, len)));
          }
          var body := ReadExact(len);
          match body {
            case Err(e) => return Some(Err(e));
            case Ok(None) => return Some(Err(Truncated(offset)));
            case Ok(Some(frame)) => return Some(Parsed(frame));
          }
      }
    }
  }

  // ----- Whole captures -----

  lemma NextConsumes(f: Format, s: State)
    ensures var (item, t) := Next(f, s);
            (item.Some? ==> |t.source| < |s.source|) && t.offset + |t.source| == s.offset + |s.source|
  {
    hide Itch.Decode, Itch.KindOf, Itch.BodyLen;
  }

  /** All items up to the iterator's end. */
  function Replayed(f: Format, s: State): (seq<Item>, State)
    decreases |s.source|
  {
    var (item, t) := Next(f, s);
    if item.None? then ([], t)
    else
      NextConsumes(f, s);
      var (rest, u) := Replayed(f, t);
      ([item.value] + rest, u)
  }

  lemma ReplayedStep(f: Format, s: State, item: Item, t: State)
    requires Next(f, s) == (Some(item), t)
    ensures Replayed(f, s) == ([item] + Replayed(f, t).0, Replayed(f, t).1)
  {
    hide Next;
    NextConsumes(f, s);
  }

  /** One item for every frame, in order. */
  function Items(frames: seq<Bytes>): seq<Item> {
    if frames == [] then [] else [Parsed(frames[0])] + Items(frames[1..])
  }

  function Messages(ms: seq<Itch.Message>): seq<Item> {
    if ms == [] then [] else [Ok(ms[0])] + Messages(ms[1..])
  }

  lemma {:induction false} ItemsOfMessages(ms: seq<Itch.Message>)
    requires AllEncodable(ms)
    ensures Items(ItchTcp.Bodies(ms)) == Messages(ms) && Concat(ItchTcp.Bodies(ms)) == EncodeAll(ms)
    ensures forall i :: 0 <= i < |ms| ==> RawFrame(ItchTcp.Bodies(ms)[i]) && GlimpseBody(ItchTcp.Bodies(ms)[i])
  {
    hide Itch.Encode, Itch.Decode, Itch.Encodable, TotalLen;
    var bodies := ItchTcp.Bodies(ms);
    forall i | 0 <= i < |ms|
      ensures RawFrame(bodies[i]) && GlimpseBody(bodies[i]) && Parsed(bodies[i]) == Ok(ms[i])
    {
      KindOfEncoded(ms[i]);
    }
    if ms != [] {
      assert bodies[1..] == ItchTcp.Bodies(ms[1..]);
      ItemsOfMessages(ms[1..]);
    }
  }

  lemma KindOfEncoded(m: Itch.Message)
    requires Itch.Encodable(m)
    ensures var code := Itch.Encode(m);
            0 < |code| <= 50 && TotalLen(code[0]) == Some(|code|) && Itch.Decode(code) == Ok(m)
  {
    ItchTcp.MessagesAreSmall(m);
    Itch.KindOfTag(m.kind);
    assert Itch.Encode(m)[0] == Itch.Tag(m.kind);
    hide Itch.Encode, Itch.Decode, Itch.Encodable, Itch.KindOf, Itch.Tag;
  }

  lemma NothingLeft(f: Format, offset: nat)
    ensures Next(f, State([], offset)) == (None, State([], offset))
    ensures Replayed(f, State([], offset)) == ([], State([], offset))
  {
    hide Itch.Decode, Itch.KindOf, Itch.BodyLen, Parsed;
  }

  /** One error and then the end. */
  lemma OneError(f: Format, s: State, e: ReplayError, offset: nat)
    requires Next(f, s) == (Some(Err(e)), State([], offset))
    ensures Replayed(f, s) == ([Err(e)], State([], offset))
  {
    NothingLeft(f, offset);
    ReplayedStep(f, s, Err(e), State([], offset));
    hide Next, Replayed;
    var one: seq<Item> := [Err(e)];
    assert one + [] == one;
  }

  // ----- Raw captures -----

  /** What raw replay takes as one frame: as many bytes as the tag announces, or an unknown tag alone. */
  predicate RawFrame(frame: Bytes) {
    frame != [] && (if TotalLen(frame[0]).Some? then TotalLen(frame[0]).value == |frame| else |frame| == 1)
  }

  lemma CodeSlices(code: Bytes, rest: Bytes)
    requires code != []
    ensures (code + rest)[..1] == code[..1] && (code + rest)[1..] == code[1..] + rest
    ensures (code[1..] + rest)[..|code| - 1] == code[1..] && (code[1..] + rest)[|code| - 1..] == rest
    ensures code[..1] + code[1..] == code
  {
  }

  lemma LengthsFit(tag: byte)
    ensures TotalLen(tag).Some? ==> 12 <= TotalLen(tag).value <= 50
  {
    hide Itch.KindOf;
  }

  lemma UnknownTag(frame: Bytes)
    requires RawFrame(frame) && TotalLen(frame[0]).None?
    ensures Parsed(frame) == Err(Protocol(Itch.UnknownMessageType(frame[0])))
  {
    hide Itch.KindOf, Itch.BodyLen;
  }

  lemma NextRawFrame(frame: Bytes, rest: Bytes, offset: nat)
    requires RawFrame(frame)
    ensures NextRaw(State(frame + rest, offset)) == (Some(Parsed(frame)), State(rest, offset + |frame|))
  {
    CodeSlices(frame, rest);
    LengthsFit(frame[0]);
    if TotalLen(frame[0]).None? {
      UnknownTag(frame);
    }
    hide TotalLen, Parsed;
    assert Fetched(State(frame + rest, offset), 1) == (Ok(Some(frame[..1])), State(frame[1..] + rest, offset + 1));
    assert Fetched(State(frame[1..] + rest, offset + 1), |frame| - 1) ==
           (Ok(Some(frame[1..])), State(rest, offset + |frame|));
    hide Fetched;
    assert |frame| == 1 ==> frame[1..] + rest == rest;
  }

  /** Good, bad and unknown messages in any order: each gives one item, and replay goes on behind it. */
  lemma {:induction false} RawPrefix(frames: seq<Bytes>, rest: Bytes, offset: nat)
    requires forall i :: 0 <= i < |frames| ==> RawFrame(frames[i])
    ensures var (items, t) := Replayed(RawBodies, State(Concat(frames) + rest, offset));
            var (more, u) := Replayed(RawBodies, State(rest, offset + |Concat(frames)|));
            items == Items(frames) + more && t == u
  {
    hide NextRaw, NextGlimpse, Replayed, Parsed, RawFrame;
    if frames == [] {
      assert Concat(frames) + rest == rest;
    } else {
      var first, tail := frames[0], Concat(frames[1..]);
      Regroup(first, tail, rest);
      NextRawFrame(first, tail + rest, offset);
      var s := State(Concat(frames) + rest, offset);
      ReplayedStep(RawBodies, s, Parsed(first), State(tail + rest, offset + |first|));
      RawPrefix(frames[1..], rest, offset + |first|);
      var more := Replayed(RawBodies, State(rest, offset + |Concat(frames)|)).0;
      assert Items(frames) == [Parsed(first)] + Items(frames[1..]);
      hide Items;
      Associative([Parsed(first)], Items(frames[1..]), more);
    }
  }

  /** Raw replay returns exactly the captured messages and ends at the sum of their lengths. */
  lemma RawReplay(ms: seq<Itch.Message>)
    requires AllEncodable(ms)
    ensures Replayed(RawBodies, State(EncodeAll(ms), 0)) == (Messages(ms), State([], SumOfLengths(ms)))
  {
    hide Next, Replayed, EncodeAll, Items, Messages, SumOfLengths, AllEncodable, Concat, RawFrame, ItchTcp.Bodies;
    EncodeAllLength(ms);
    ItemsOfMessages(ms);
    RawPrefix(ItchTcp.Bodies(ms), [], 0);
    NothingLeft(RawBodies, |EncodeAll(ms)|);
    assert EncodeAll(ms) + [] == EncodeAll(ms) && Messages(ms) + [] == Messages(ms);
  }

  /** The front of a message that the capture does not hold to its end. */
  predicate RawCut(cut: Bytes) {
    cut != [] && TotalLen(cut[0]).Some? && |cut| < TotalLen(cut[0]).value
  }

  lemma NextRawCut(cut: Bytes, offset: nat)
    requires RawCut(cut)
    ensures NextRaw(State(cut, offset)) == (Some(Err(Truncated(offset + |cut|))), State([], offset + |cut|))
  {
    LengthsFit(cut[0]);
    hide TotalLen, Parsed;
    assert cut[..1][0] == cut[0];
    assert |cut| == 1 ==> cut[1..] == [];
  }

  /** A capture cut inside a message yields what came before it, then one truncation error at the cut. */
  lemma TruncatedReplay(frames: seq<Bytes>, cut: Bytes)
    requires (forall i :: 0 <= i < |frames| ==> RawFrame(frames[i])) && RawCut(cut)
    ensures var capture := Concat(frames) + cut;
            Replayed(RawBodies, State(capture, 0))
            == (Items(frames) + [Err(Truncated(|capture|))], State([], |capture|))
  {
    hide NextRaw, NextGlimpse, Replayed, Items, RawFrame, RawCut, Concat;
    var offset := |Concat(frames)|;
    RawPrefix(frames, cut, 0);
    NextRawCut(cut, offset);
    OneError(RawBodies, State(cut, offset), Truncated(offset + |cut|), offset + |cut|);
  }

  /** Every byte string is frames and then nothing, or a cut. */
  lemma {:induction false} EveryCapture(b: Bytes) returns (frames: seq<Bytes>, cut: Bytes)
    ensures b == Concat(frames) + cut && (cut == [] || RawCut(cut))
    ensures forall i :: 0 <= i < |frames| ==> RawFrame(frames[i])
    decreases |b|
  {
    if b == [] || RawCut(b) {
      frames, cut := [], b;
    } else {
      LengthsFit(b[0]);
      var n := if TotalLen(b[0]).Some? then TotalLen(b[0]).value else 1;
      hide TotalLen;
      var rest: seq<Bytes>;
      rest, cut := EveryCapture(b[n..]);
      frames := [b[..n]] + rest;
      assert frames[1..] == rest && b == b[..n] + b[n..] && b[..n][0] == b[0];
      Regroup(b[..n], Concat(rest), cut);
    }
  }

  /** What raw replay does with any capture at all: one item for each frame, and a truncation error
      if the capture ends inside one; all of it is read. */
  lemma RawReplayOfAny(capture: Bytes) returns (frames: seq<Bytes>, cut: Bytes)
    ensures capture == Concat(frames) + cut && (cut == [] || RawCut(cut))
    ensures forall i :: 0 <= i < |frames| ==> RawFrame(frames[i])
    ensures Replayed(RawBodies, State(capture, 0))
            == (Items(frames) + if cut == [] then [] else [Err(Truncated(|capture|))], State([], |capture|))
  {
    frames, cut := EveryCapture(capture);
    hide Replayed, Items, RawFrame, RawCut, Concat, Next;
    if cut == [] {
      RawPrefix(frames, [], 0);
      NothingLeft(RawBodies, |Concat(frames)|);
      assert Concat(frames) + [] == Concat(frames);
    } else {
      TruncatedReplay(frames, cut);
    }
  }

  // ----- Length-prefixed captures -----

  /** A body that length-prefixed replay takes. */
  predicate GlimpseBody(body: Bytes) {
    1 <= |body| <= 1024
  }

  lemma NextGlimpseBody(body: Bytes, rest: Bytes, offset: nat)
    requires GlimpseBody(body)
    ensures NextGlimpse(State(Framing.Framed(body) + rest, offset))
            == (Some(Parsed(body)), State(rest, offset + 2 + |body|))
  {
    hide Parsed;
    var all := Framing.Framed(body) + rest;
    assert Framing.Announced(all[..2]) == |body|;
    assert all[2..] == body + rest && (body + rest)[..|body|] == body && (body + rest)[|body|..] == rest;
  }

  /** A body gives one item, good or bad, and replay goes on behind it. */
  lemma {:induction false} GlimpsePrefix(bodies: seq<Bytes>, rest: Bytes, offset: nat)
    requires forall i :: 0 <= i < |bodies| ==> GlimpseBody(bodies[i])
    ensures var capture := Framing.FramedAll(bodies);
            var (items, t) := Replayed(Glimpse, State(capture + rest, offset));
            var (more, u) := Replayed(Glimpse, State(rest, offset + |capture|));
            items == Items(bodies) + more && t == u
  {
    hide NextRaw, NextGlimpse, Replayed, Parsed, GlimpseBody;
    var capture := Framing.FramedAll(bodies);
    if bodies == [] {
      assert capture + rest == rest;
    } else {
      var first, tail := bodies[0], Framing.FramedAll(bodies[1..]);
      var frame := Framing.Framed(first);
      assert |frame| == 2 + |first|;
      hide Framing.Framed;
      Regroup(frame, tail, rest);
      NextGlimpseBody(first, tail + rest, offset);
      ReplayedStep(Glimpse, State(capture + rest, offset), Parsed(first), State(tail + rest, offset + |frame|));
      GlimpsePrefix(bodies[1..], rest, offset + |frame|);
      var more := Replayed(Glimpse, State(rest, offset + |capture|)).0;
      assert Items(bodies) == [Parsed(first)] + Items(bodies[1..]);
      hide Items, Framing.FramedAll;
      Associative([Parsed(first)], Items(bodies[1..]), more);
    }
  }

  /** Length-prefixed replay returns the captured messages, and ends with the capture or at a zero length. */
  lemma GlimpseReplay(ms: seq<Itch.Message>, rest: Bytes, offset: nat)
    requires AllEncodable(ms) && (rest == [] || (|rest| >= 2 && rest[0] == 0 && rest[1] == 0))
    ensures var capture := Framing.FramedAll(ItchTcp.Bodies(ms));
            var (items, t) := Replayed(Glimpse, State(capture + rest, offset));
            items == Messages(ms) && t.offset == offset + |capture| + if rest == [] then 0 else 2
  {
    hide Items, Messages, AllEncodable, Concat, GlimpseBody, ItchTcp.Bodies, Framing.FramedAll, EncodeAll;
    var capture := Framing.FramedAll(ItchTcp.Bodies(ms));
    ItemsOfMessages(ms);
    GlimpsePrefix(ItchTcp.Bodies(ms), rest, offset);
    GlimpseEnd(rest, offset + |capture|);
    hide NextRaw, NextGlimpse;
    assert Messages(ms) + [] == Messages(ms);
  }

  lemma GlimpseEnd(rest: Bytes, offset: nat)
    requires rest == [] || (|rest| >= 2 && rest[0] == 0 && rest[1] == 0)
    ensures NextGlimpse(State(rest, offset)).0 == None
    ensures NextGlimpse(State(rest, offset)).1.offset == offset + if rest == [] then 0 else 2
  {
    hide Parsed;
  }

  lemma NextGlimpseCut(body: Bytes, k: nat, offset: nat)
    requires GlimpseBody(body) && 0 < k < 2 + |body|
    ensures NextGlimpse(State(Framing.Framed(body)[..k], offset))
            == (Some(Err(Truncated(offset + k))), State([], offset + k))
  {
    hide Parsed;
    var cut := Framing.Framed(body)[..k];
    if k >= 2 {
      assert Framing.Announced(cut[..2]) == |body|;
      assert k == 2 ==> cut[2..] == [];
    }
  }

  /** A capture cut inside a frame, its length included, yields what came before it, then one
      truncation error at the cut. */
  lemma TruncatedGlimpse(bodies: seq<Bytes>, last: Bytes, k: nat)
    requires (forall i :: 0 <= i < |bodies| ==> GlimpseBody(bodies[i])) && GlimpseBody(last) && 0 < k < 2 + |last|
    ensures var capture := Framing.FramedAll(bodies) + Framing.Framed(last)[..k];
            Replayed(Glimpse, State(capture, 0))
            == (Items(bodies) + [Err(Truncated(|capture|))], State([], |capture|))
  {
    assert |Framing.Framed(last)| == 2 + |last|;
    hide NextRaw, NextGlimpse, Replayed, Items, GlimpseBody, Framing.Framed, Framing.FramedAll;
    var offset := |Framing.FramedAll(bodies)|;
    GlimpsePrefix(bodies, Framing.Framed(last)[..k], 0);
    NextGlimpseCut(last, k, offset);
    OneError(Glimpse, State(Framing.Framed(last)[..k], offset), Truncated(offset + k), offset + k);
  }

  /** A length above 1024 is reported at the offset behind it, and replay goes on right there: the
      body it announced is read as frames. */
  lemma OversizedGlimpse(prefix: Bytes, rest: Bytes, offset: nat)
    requires |prefix| == 2 && FromBigEndian(prefix) > 1024
    ensures Replayed(Glimpse, State(prefix + rest, offset))
            == ([Err(FrameTooLarge(offset + 2, FromBigEndian(prefix)))] + Replayed(Glimpse, State(rest, offset + 2)).0,
                Replayed(Glimpse, State(rest, offset + 2)).1)
  {
    Framing.AnnouncedIsBigEndian(prefix);
    var s, t := State(prefix + rest, offset), State(rest, offset + 2);
    assert Fetched(s, 2) == (Ok(Some(prefix)), t) by {
      assert (prefix + rest)[..2] == prefix && (prefix + rest)[2..] == rest;
    }
    hide Parsed, Replayed;
    ReplayedStep(Glimpse, s, Err(FrameTooLarge(offset + 2, FromBigEndian(prefix))), t);
  }
}
