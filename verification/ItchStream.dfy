/** Messages one after the other, with no framing: compressed payloads and raw captures. */
module ItchStream {
  import opened Wire
  import opened Itch

  predicate AllEncodable(ms: seq<Message>) {
    forall i :: 0 <= i < |ms| ==> Encodable(ms[i])
  }

  /** `tag + body` of every message, one after the other. */
  function EncodeAll(ms: seq<Message>): Bytes {
    if ms == [] then [] else Encode(ms[0]) + EncodeAll(ms[1..])
  }

  lemma {:induction false} EncodeAllSnoc(ms: seq<Message>, m: Message)
    ensures EncodeAll(ms + [m]) == EncodeAll(ms) + Encode(m)
  {
    hide Encode;
    if ms == [] {
      assert ms + [m] == [m];
      assert EncodeAll([m]) == Encode(m) + EncodeAll([]);
    } else {
      calc {
        EncodeAll(ms + [m]);
        { assert (ms + [m])[0] == ms[0] && (ms + [m])[1..] == ms[1..] + [m]; }
        Encode(ms[0]) + EncodeAll(ms[1..] + [m]);
        { EncodeAllSnoc(ms[1..], m); }
        Encode(ms[0]) + (EncodeAll(ms[1..]) + Encode(m));
        (Encode(ms[0]) + EncodeAll(ms[1..])) + Encode(m);
        EncodeAll(ms) + Encode(m);
      }
    }
  }

  function SumOfLengths(ms: seq<Message>): nat {
    if ms == [] then 0 else EncodedLen(ms[0]) + SumOfLengths(ms[1..])
  }

  lemma {:induction false} EncodeAllLength(ms: seq<Message>)
    requires AllEncodable(ms)
    ensures |EncodeAll(ms)| == SumOfLengths(ms)
  {
    hide Encode, Decode, Encodable, EncodedLen;
    if ms != [] {
      EncodableRoundTrip(ms[0], []);
      EncodeAllLength(ms[1..]);
    }
  }

  /** The first message of a concatenation can be read off it, and the rest remains. */
  lemma SplitFirst(ms: seq<Message>, rest: Bytes)
    requires AllEncodable(ms) && ms != []
    ensures var b := EncodeAll(ms) + rest;
            var n := EncodedLen(ms[0]);
            Decode(b) == Ok(ms[0]) && n <= |EncodeAll(ms)|
            && EncodeAll(ms)[n..] == EncodeAll(ms[1..]) && b[n..] == EncodeAll(ms[1..]) + rest
  {
    hide Encode, Decode, Encodable, EncodedLen;
    var code, tail := Encode(ms[0]), EncodeAll(ms[1..]);
    EncodableRoundTrip(ms[0], tail + rest);
    Regroup(code, tail, rest);
  }

  /** The code is self-delimiting: a concatenation determines its messages. */
  lemma {:induction false} EncodeAllInjective(a: seq<Message>, b: seq<Message>)
    requires AllEncodable(a) && AllEncodable(b) && EncodeAll(a) == EncodeAll(b)
    ensures a == b
  {
    hide Encode, Decode, Encodable, EncodedLen;
    if a != [] {
      SplitFirst(a, []);
    }
    if b != [] {
      SplitFirst(b, []);
    }
    if a != [] && b != [] {
      EncodeAllInjective(a[1..], b[1..]);
      assert a == [a[0]] + a[1..] && b == [b[0]] + b[1..];
    } else {
      NonEmptyCode(a);
      NonEmptyCode(b);
    }
  }

  lemma NonEmptyCode(ms: seq<Message>)
    ensures ms != [] ==> EncodeAll(ms) != []
  {
  }

  /** If a concatenation starts with the code of `out`, what follows is a concatenation too. */
  lemma {:induction false} SplitAfter(ms: seq<Message>, out: seq<Message>, rest: Bytes)
    requires AllEncodable(ms) && AllEncodable(out) && EncodeAll(ms) == EncodeAll(out) + rest
    ensures |out| <= |ms| && rest == EncodeAll(ms[|out|..])
  {
    hide Encode, Decode, Encodable, EncodedLen;
    if out != [] {
      SplitFirst(out, rest);
      NonEmptyCode(out);
      if ms != [] {
        SplitFirst(ms, []);
        assert EncodeAll(ms) + [] == EncodeAll(ms);
        SplitAfter(ms[1..], out[1..], rest);
        assert ms[1..][|out| - 1..] == ms[|out|..];
      }
    } else {
      assert ms[0..] == ms && EncodeAll(out) + rest == rest;
    }
  }

  /** The decoding loop of `decompress_messages`, after decompression. It accepts exactly the
      concatenations of encoded messages and returns the messages that were concatenated. */
  method DecodeAll(scratch: Bytes) returns (r: Result<seq<Message>, ProtocolError>)
    ensures r.Ok? ==> AllEncodable(r.value) && EncodeAll(r.value) == scratch
    ensures forall ms :: AllEncodable(ms) && EncodeAll(ms) == scratch ==> r == Ok(ms)
  {
    hide Encode, Decode, Encodable, EncodedLen;
    var out: seq<Message> := [];
    var off: nat := 0;
    while off < |scratch|
      invariant off <= |scratch|
      invariant AllEncodable(out) && EncodeAll(out) == scratch[..off]
      decreases |scratch| - off
    {
      match Decode(scratch[off..])
      case Err(e) =>
        forall ms | AllEncodable(ms) && EncodeAll(ms) == scratch
          ensures false
        {
          DecodesAfter(ms, out, scratch[off..]);
        }
        return Err(e);
      case Ok(m) =>
        AfterOne(scratch, out, off);
        off := off + EncodedLen(m);
        out := out + [m];
    }
    assert scratch[..off] == scratch;
    forall ms | AllEncodable(ms) && EncodeAll(ms) == scratch
      ensures ms == out
    {
      EncodeAllInjective(ms, out);
    }
    return Ok(out);
  }

  lemma DecodesAfter(ms: seq<Message>, out: seq<Message>, rest: Bytes)
    requires AllEncodable(ms) && AllEncodable(out) && rest != [] && EncodeAll(ms) == EncodeAll(out) + rest
    ensures Decode(rest).Ok?
  {
    hide Encode, Decode, Encodable, EncodedLen;
    SplitAfter(ms, out, rest);
    SplitFirst(ms[|out|..], []);
    assert rest + [] == rest;
  }

  lemma AfterOne(scratch: Bytes, out: seq<Message>, off: nat)
    requires off < |scratch| && AllEncodable(out) && EncodeAll(out) == scratch[..off]
    requires Decode(scratch[off..]).Ok?
    ensures var m := Decode(scratch[off..]).value;
            EncodedLen(m) > 0 && off + EncodedLen(m) <= |scratch|
            && AllEncodable(out + [m]) && EncodeAll(out + [m]) == scratch[..off + EncodedLen(m)]
  {
    var m := Decode(scratch[off..]).value;
    EncodeDecode(scratch[off..]);
    EncodeAllSnoc(out, m);
    hide Encode, Decode, Encodable, EncodedLen;
    assert scratch[..off + EncodedLen(m)] == scratch[..off] + scratch[off..][..EncodedLen(m)];
  }

  // ----- Draining a decompressed payload one message at a time -----

  datatype Payload = Payload(scratch: Bytes, cursor: nat, expected: nat)

  /** `drain_one_message`: the message at the cursor; a bad one discards the rest of the payload. */
  function DrainedOne(p: Payload): (Result<Option<Message>, ProtocolError>, Payload) {
    if p.cursor >= |p.scratch| then (Ok(None), p)
    else
      match Decode(p.scratch[p.cursor..])
      case Ok(m) =>
        (Ok(Some(m)), p.(cursor := p.cursor + EncodedLen(m), expected := SatAddU64(p.expected, 1)))
      case Err(e) => (Err(e), p.(scratch := [], cursor := 0))
  }

  class PayloadReader {
    var scratch: Bytes
    var cursor: nat
    var expectedSequence: nat

    function Model(): Payload
      reads this
    {
      Payload(scratch, cursor, expectedSequence)
    }

    constructor (payload: Bytes, sequence: nat)
      ensures Model() == Payload(payload, 0, sequence)
    {
      scratch, cursor, expectedSequence := payload, 0, sequence;
    }

    method DrainOneMessage() returns (r: Result<Option<Message>, ProtocolError>)
      modifies this
      ensures (r, Model()) == DrainedOne(old(Model()))
    {
      hide Decode;
      if cursor >= |scratch| {
        return Ok(None);
      }
      match Decode(scratch[cursor..]) {
        case Ok(m) =>
          cursor := cursor + EncodedLen(m);
          expectedSequence := SatAddU64(expectedSequence, 1);
          return Ok(Some(m));
        case Err(e) =>
          scratch, cursor := [], 0;
          return Err(e);
      }
    }
  }

  /** `ms` comes off the payload, one message a call, and then the payload is empty. */
  ghost predicate DrainsTo(p: Payload, ms: seq<Message>, end: Payload)
    decreases |ms|
  {
    var (r, q) := DrainedOne(p);
    if ms == [] then r == Ok(None) && q == end else r == Ok(Some(ms[0])) && DrainsTo(q, ms[1..], end)
  }

  /** A payload of concatenated messages drains to exactly those, and counts each of them once. */
  lemma {:induction false} PayloadDrains(p: Payload, ms: seq<Message>)
    requires AllEncodable(ms) && p.cursor <= |p.scratch| && p.scratch[p.cursor..] == EncodeAll(ms)
    requires p.expected <= U64_MAX
    ensures DrainsTo(p, ms, p.(cursor := |p.scratch|, expected := SatAddU64(p.expected, |ms|)))
    decreases |ms|
  {
    hide Encode, Decode, Encodable, EncodedLen;
    if ms == [] {
      assert p.cursor == |p.scratch| && p == p.(cursor := |p.scratch|, expected := SatAddU64(p.expected, 0));
    } else {
      SplitFirst(ms, []);
      NonEmptyCode(ms);
      var n := EncodedLen(ms[0]);
      assert EncodeAll(ms) + [] == EncodeAll(ms);
      assert p.scratch[p.cursor..][n..] == p.scratch[p.cursor + n..];
      var q := p.(cursor := p.cursor + n, expected := SatAddU64(p.expected, 1));
      assert DrainedOne(p) == (Ok(Some(ms[0])), q);
      PayloadDrains(q, ms[1..]);
    }
  }

  /** `ms` comes off the payload, and the call after that fails with `e`. */
  ghost predicate FailsAfter(p: Payload, ms: seq<Message>, e: ProtocolError, end: Payload)
    decreases |ms|
  {
    var (r, q) := DrainedOne(p);
    if ms == [] then r == Err(e) && q == end else r == Ok(Some(ms[0])) && FailsAfter(q, ms[1..], e, end)
  }

  /** A bad message is reported once, after all messages before it, and takes the rest of the payload
      with it: the next call finds nothing, and only the good messages were counted. */
  lemma {:induction false} BadPayloadDrains(p: Payload, ms: seq<Message>, bad: Bytes)
    requires AllEncodable(ms) && p.cursor <= |p.scratch| && p.scratch[p.cursor..] == EncodeAll(ms) + bad
    requires bad != [] && Decode(bad).Err? && p.expected <= U64_MAX
    ensures var end := Payload([], 0, SatAddU64(p.expected, |ms|));
            FailsAfter(p, ms, Decode(bad).error, end) && DrainsTo(end, [], end)
    decreases |ms|
  {
    hide Encode, Decode, Encodable, EncodedLen;
    if ms == [] {
      assert EncodeAll(ms) + bad == bad;
    } else {
      SplitFirst(ms, bad);
      NonEmptyCode(ms);
      var n := EncodedLen(ms[0]);
      hide EncodeAll;
      assert p.scratch[p.cursor..][n..] == p.scratch[p.cursor + n..];
      var q := p.(cursor := p.cursor + n, expected := SatAddU64(p.expected, 1));
      assert DrainedOne(p) == (Ok(Some(ms[0])), q);
      hide DrainedOne;
      BadPayloadDrains(q, ms[1..], bad);
    }
  }

  /** Every payload is one or the other: messages to the end, or messages up to a bad one. */
  lemma {:induction false} EveryPayload(b: Bytes) returns (ms: seq<Message>, bad: Bytes)
    ensures AllEncodable(ms) && b == EncodeAll(ms) + bad && (bad == [] || Decode(bad).Err?)
    decreases |b|
  {
    if b == [] || Decode(b).Err? {
      ms, bad := [], b;
    } else {
      var m := Decode(b).value;
      EncodeDecode(b);
      hide Encode, Decode, Encodable;
      var n := EncodedLen(m);
      var rest: seq<Message>;
      rest, bad := EveryPayload(b[n..]);
      ms := [m] + rest;
      assert ms[1..] == rest && b == b[..n] + b[n..];
      Regroup(Encode(m), EncodeAll(rest), bad);
    }
  }
}
