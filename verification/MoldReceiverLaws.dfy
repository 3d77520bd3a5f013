/** Laws of the receiver on its own: bounded memory, block accounting, and when the head of
    the line can get stuck. */
module MoldReceiverLaws {
  import opened Wire
  import opened MoldPacket
  import opened Ordered
  import opened MoldReceiver

  // ----- Bounded buffer and accounting -----

  /** The buffer bound. Dropping the oldest entry always makes room, so a bound of zero acts as one. */
  function Cap(s: State): nat {
    if s.policy == DropOldest && s.maxPending == 0 then 1 else s.maxPending
  }

  predicate SameConfig(s: State, t: State) {
    s.maxPending == t.maxPending && s.policy == t.policy && s.start == t.start
  }

  /** The number `stash_pending` stores, unless it is a duplicate or refused. */
  function Accepts(s: State, n: nat): seq<nat> {
    if n in s.pending || (s.policy == Error && |s.pending| >= s.maxPending) then [] else [n]
  }

  /** The number it evicts to make room. */
  function Evicts(s: State, n: nat): seq<nat> {
    if n !in s.pending && |s.pending| >= s.maxPending && s.policy == DropOldest && s.pending != map[]
    then [Least(s.pending.Keys)] else []
  }

  function AcceptedIn(s: State, first: nat, blocks: seq<Bytes>): seq<nat>
    decreases |blocks|
  {
    if blocks == [] then []
    else Accepts(s, first) + AcceptedIn(Stashed(s, first, blocks[0]), AddU64(first, 1), blocks[1..])
  }

  function EvictedIn(s: State, first: nat, blocks: seq<Bytes>): seq<nat>
    decreases |blocks|
  {
    if blocks == [] then []
    else Evicts(s, first) + EvictedIn(Stashed(s, first, blocks[0]), AddU64(first, 1), blocks[1..])
  }

  /** The numbers that `flush_pending` takes out of the buffer, in order. */
  function FlushedIn(s: State, dec: Decoder): seq<nat>
    decreases |s.pending|
  {
    if s.pending == map[] || Least(s.pending.Keys) != s.next then [] else
      var k := Least(s.pending.Keys);
      RemoveShrinks(s.pending, k);
      [k] + FlushedIn(Delivered(s.(pending := s.pending - {k}), dec, k, s.pending[k]), dec)
  }

  predicate IsData(s: State, pkt: Packet) {
    SessionAccepts(s, pkt) && !pkt.header.IsHeartbeat() && !pkt.header.IsEndOfSession()
  }

  /** The data packet is buffered, or delivered. */
  predicate Buffers(s: State, first: nat, blocks: seq<Bytes>) {
    s.next < AddU64(first, |blocks|) && s.next < first
  }

  predicate Delivers(s: State, first: nat, blocks: seq<Bytes>) {
    first <= s.next < AddU64(first, |blocks|)
  }

  function Announced(s: State, first: nat): State
    requires s.next < first
  {
    Emit(s, Ok(Gap(s.next, first - 1)))
  }

  function DataAccepted(s: State, first: nat, blocks: seq<Bytes>): seq<nat> {
    if Buffers(s, first, blocks) then AcceptedIn(Announced(s, first), first, blocks) else []
  }

  function DataEvicted(s: State, first: nat, blocks: seq<Bytes>): seq<nat> {
    if Buffers(s, first, blocks) then EvictedIn(Announced(s, first), first, blocks) else []
  }

  function DataFlushed(s: State, dec: Decoder, first: nat, blocks: seq<Bytes>): seq<nat> {
    if Delivers(s, first, blocks) then FlushedIn(DeliveredAll(s, dec, first, blocks), dec) else []
  }

  function Accepted(s: State, pkt: Packet): seq<nat> {
    if IsData(s, pkt) then DataAccepted(Admitted(s, pkt), pkt.header.sequence, pkt.blocks) else []
  }

  function EvictedBy(s: State, pkt: Packet): seq<nat> {
    if IsData(s, pkt) then DataEvicted(Admitted(s, pkt), pkt.header.sequence, pkt.blocks) else []
  }

  function FlushedBy(s: State, dec: Decoder, pkt: Packet): seq<nat> {
    if IsData(s, pkt) then DataFlushed(Admitted(s, pkt), dec, pkt.header.sequence, pkt.blocks) else []
  }

  function TotalAccepted(s: State, dec: Decoder, pkts: seq<Packet>): seq<nat> {
    if pkts == [] then [] else
      var front := pkts[..|pkts| - 1];
      TotalAccepted(s, dec, front) + Accepted(IngestedAll(s, dec, front), pkts[|pkts| - 1])
  }

  function TotalEvicted(s: State, dec: Decoder, pkts: seq<Packet>): seq<nat> {
    if pkts == [] then [] else
      var front := pkts[..|pkts| - 1];
      TotalEvicted(s, dec, front) + EvictedBy(IngestedAll(s, dec, front), pkts[|pkts| - 1])
  }

  function TotalFlushed(s: State, dec: Decoder, pkts: seq<Packet>): seq<nat> {
    if pkts == [] then [] else
      var front := pkts[..|pkts| - 1];
      TotalFlushed(s, dec, front) + FlushedBy(IngestedAll(s, dec, front), dec, pkts[|pkts| - 1])
  }

  /** From `s` to `t`, number by number: what was buffered or accepted is still buffered, flushed
      or evicted, each exactly once. */
  ghost predicate Balanced(s: State, accepted: seq<nat>, flushed: seq<nat>, evicted: seq<nat>, t: State) {
    multiset(s.pending.Keys) + multiset(accepted)
    == multiset(t.pending.Keys) + multiset(flushed) + multiset(evicted)
  }

  /** Under `DropOldest` the counter counts the evictions. */
  predicate Counted(s: State, evicted: seq<nat>, t: State) {
    SameConfig(s, t) && |t.pending| <= Cap(t)
    && (s.policy == DropOldest ==> t.drops == s.drops + |evicted|)
    && (s.policy == Error ==> evicted == [])
  }

  lemma BalancedChain(s: State, a: seq<nat>, f: seq<nat>, e: seq<nat>, t: State,
                      a': seq<nat>, f': seq<nat>, e': seq<nat>, u: State)
    requires Balanced(s, a, f, e, t) && Balanced(t, a', f', e', u)
    ensures Balanced(s, a + a', f + f', e + e', u)
  {
    assert multiset(a + a') == multiset(a) + multiset(a');
    assert multiset(f + f') == multiset(f) + multiset(f');
    assert multiset(e + e') == multiset(e) + multiset(e');
    Accounts(multiset(s.pending.Keys), multiset(a), multiset(f), multiset(e), multiset(t.pending.Keys),
             multiset(a'), multiset(f'), multiset(e'), multiset(u.pending.Keys));
  }

  lemma Accounts(s: multiset<nat>, a: multiset<nat>, f: multiset<nat>, e: multiset<nat>, t: multiset<nat>,
                 a': multiset<nat>, f': multiset<nat>, e': multiset<nat>, u: multiset<nat>)
    requires s + a == t + f + e && t + a' == u + f' + e'
    ensures s + (a + a') == u + (f + f') + (e + e')
  {
    forall n
      ensures (s + (a + a'))[n] == (u + (f + f') + (e + e'))[n]
    {
      assert (s + a)[n] == (t + f + e)[n] && (t + a')[n] == (u + f' + e')[n];
    }
  }

  lemma NothingMoved(s: State, t: State)
    requires t.pending == s.pending
    ensures Balanced(s, [], [], [], t)
  {
  }

  lemma Joined(s: State, t: State, n: nat)
    requires n !in s.pending && t.pending.Keys == s.pending.Keys + {n}
    ensures Balanced(s, [n], [], [], t)
  {
    assert multiset([n]) == multiset{n};
    assert multiset(s.pending.Keys + {n}) == multiset(s.pending.Keys) + multiset{n};
  }

  lemma Swapped(s: State, t: State, k: nat, n: nat)
    requires k in s.pending && n !in s.pending && t.pending.Keys == s.pending.Keys - {k} + {n}
    ensures Balanced(s, [n], [], [k], t)
  {
    assert multiset([n]) == multiset{n} && multiset([k]) == multiset{k};
    assert multiset(s.pending.Keys - {k} + {n}) + multiset{k} == multiset(s.pending.Keys) + multiset{n};
  }

  lemma TakenOut(s: State, t: State, k: nat)
    requires k in s.pending && t.pending.Keys == s.pending.Keys - {k}
    ensures Balanced(s, [], [k], [], t)
  {
    assert multiset([k]) == multiset{k};
    assert multiset(s.pending.Keys - {k}) + multiset{k} == multiset(s.pending.Keys);
  }

  lemma StashedMap(s: State, n: nat, data: Bytes)
    ensures Stashed(s, n, data).pending ==
            if Accepts(s, n) == [] then s.pending
            else if Evicts(s, n) == [] then s.pending[n := data]
            else (s.pending - {Evicts(s, n)[0]})[n := data]
  {
  }

  lemma KeysOf(m: map<nat, Bytes>, k: nat, n: nat, v: Bytes)
    ensures m[n := v].Keys == m.Keys + {n}
    ensures (m - {k})[n := v].Keys == m.Keys - {k} + {n}
  {
  }

  lemma StashedKeys(s: State, n: nat, data: Bytes)
    ensures var a, e, t := Accepts(s, n), Evicts(s, n), Stashed(s, n, data);
            && (a == [] ==> e == [] && t.pending == s.pending)
            && (a != [] ==> a == [n] && n !in s.pending)
            && (a != [] && e == [] ==> t.pending.Keys == s.pending.Keys + {n})
            && (e != [] ==> a != [] && s.pending != map[] && e == [Least(s.pending.Keys)]
                            && t.pending.Keys == s.pending.Keys - {Least(s.pending.Keys)} + {n})
  {
    hide Stashed;
    StashedMap(s, n, data);
    KeysOf(s.pending, if s.pending == map[] then 0 else Least(s.pending.Keys), n, data);
  }

  lemma StashedBalance(s: State, n: nat, data: Bytes)
    ensures Balanced(s, Accepts(s, n), [], Evicts(s, n), Stashed(s, n, data))
  {
    hide Balanced, Stashed, Accepts, Evicts;
    StashedKeys(s, n, data);
    var t := Stashed(s, n, data);
    if Accepts(s, n) == [] {
      NothingMoved(s, t);
    } else if Evicts(s, n) == [] {
      Joined(s, t, n);
    } else {
      Swapped(s, t, Least(s.pending.Keys), n);
    }
  }

  lemma StashedLedger(s: State, n: nat, data: Bytes)
    requires |s.pending| <= Cap(s)
    ensures Balanced(s, Accepts(s, n), [], Evicts(s, n), Stashed(s, n, data))
    ensures Counted(s, Evicts(s, n), Stashed(s, n, data))
  {
    StashedBalance(s, n, data);
    hide Balanced;
    if n !in s.pending {
      InsertGrows(s.pending, n, data);
      if s.pending != map[] {
        var k := Least(s.pending.Keys);
        RemoveShrinks(s.pending, k);
        InsertGrows(s.pending - {k}, n, data);
      }
    }
  }

  lemma InsertGrows<T>(m: map<nat, T>, n: nat, v: T)
    requires n !in m
    ensures |m[n := v]| == |m| + 1
  {
    assert m[n := v].Keys == m.Keys + {n};
    assert |m.Keys + {n}| == |m.Keys| + 1;
  }

  lemma {:induction false} StashedAllLedger(s: State, first: nat, blocks: seq<Bytes>)
    requires |s.pending| <= Cap(s)
    ensures var t := StashedAll(s, first, blocks);
            Balanced(s, AcceptedIn(s, first, blocks), [], EvictedIn(s, first, blocks), t)
            && Counted(s, EvictedIn(s, first, blocks), t)
    decreases |blocks|
  {
    if blocks != [] {
      var t := Stashed(s, first, blocks[0]);
      StashedLedger(s, first, blocks[0]);
      StashedAllLedger(t, AddU64(first, 1), blocks[1..]);
      var a, e := AcceptedIn(t, AddU64(first, 1), blocks[1..]), EvictedIn(t, AddU64(first, 1), blocks[1..]);
      hide Stashed, Accepts, Evicts;
      BalancedChain(s, Accepts(s, first), [], Evicts(s, first), t, a, [], e, StashedAll(s, first, blocks));
    }
  }

  lemma {:induction false} DeliveredAllLedger(s: State, dec: Decoder, first: nat, blocks: seq<Bytes>)
    ensures var t := DeliveredAll(s, dec, first, blocks);
            SameConfig(s, t) && t.pending == s.pending && t.drops == s.drops
    decreases |blocks|
  {
    if blocks != [] {
      var s' := if first < s.next then s else Delivered(s, dec, first, blocks[0]);
      DeliveredAllLedger(s', dec, AddU64(first, 1), blocks[1..]);
    }
  }

  /** What a delivered block surfaces as. */
  function SurfacedAs(dec: Decoder, n: nat, body: Bytes): Item {
    if |body| > MAX_BLOCK_LEN then Err(BlockTooLarge(|body|, MAX_BLOCK_LEN))
    else
      match dec(body)
      case Ok(m) => Ok(Message(n, m))
      case Err(e) => Err(Protocol(e))
  }

  predicate Ascending(ns: seq<nat>) {
    forall i, j :: 0 <= i < j < |ns| ==> ns[i] < ns[j]
  }

  lemma AscendingCons(k: nat, ns: seq<nat>)
    requires Ascending(ns) && forall i :: 0 <= i < |ns| ==> k < ns[i]
    ensures Ascending([k] + ns)
  {
  }

  lemma DeliveredSurfaces(s: State, dec: Decoder, n: nat, body: Bytes)
    ensures var t := Delivered(s, dec, n, body);
            && t == s.(next := t.next, outbox := s.outbox + [SurfacedAs(dec, n, body)])
            && t.next == if |body| > MAX_BLOCK_LEN then s.next else AddU64(n, 1)
  {
  }

  lemma AboveLeast(p: map<nat, Bytes>, k: nat)
    requires p != map[] && Least(p.Keys) == k
    ensures forall j :: j in p - {k} ==> j in p && k < j && (p - {k})[j] == p[j]
  {
    assert forall j :: j in p ==> j in p.Keys;
  }

  /** The first flushed block and what it leaves behind. */
  lemma FlushFirst(s: State, dec: Decoder) returns (t: State)
    requires s.pending != map[] && Least(s.pending.Keys) == s.next
    ensures |t.pending| < |s.pending| && Flushed(s, dec) == Flushed(t, dec)
    ensures FlushedIn(s, dec) == [s.next] + FlushedIn(t, dec)
    ensures t == s.(next := t.next, pending := s.pending - {s.next},
                    outbox := s.outbox + [SurfacedAs(dec, s.next, s.pending[s.next])])
    ensures forall k :: k in t.pending ==> k in s.pending && s.next < k && t.pending[k] == s.pending[k]
  {
    hide Delivered, SurfacedAs, Flushed;
    var r := s.(pending := s.pending - {s.next});
    t := Delivered(r, dec, s.next, s.pending[s.next]);
    AboveLeast(s.pending, s.next);
    FlushedStep(s, dec);
    DeliveredSurfaces(r, dec, s.next, s.pending[s.next]);
  }

  /** A flush takes buffered numbers in ascending order, from the expected one on. */
  lemma {:induction false} FlushOrder(s: State, dec: Decoder)
    ensures var ns := FlushedIn(s, dec);
            && Ascending(ns) && (ns != [] ==> ns[0] == s.next)
            && forall i :: 0 <= i < |ns| ==> ns[i] in s.pending
    decreases |s.pending|
  {
    if s.pending != map[] && Least(s.pending.Keys) == s.next {
      var t := FlushFirst(s, dec);
      FlushOrder(t, dec);
      hide FlushedIn;
      AscendingCons(s.next, FlushedIn(t, dec));
    }
  }

  /** The items the buffered blocks of these numbers surface as. */
  function ItemsOf(dec: Decoder, p: map<nat, Bytes>, ns: seq<nat>): seq<Item> {
    if ns == [] then []
    else (if ns[0] in p then [SurfacedAs(dec, ns[0], p[ns[0]])] else []) + ItemsOf(dec, p, ns[1..])
  }

  lemma {:induction false} ItemsWithout(dec: Decoder, p: map<nat, Bytes>, k: nat, ns: seq<nat>)
    requires forall i :: 0 <= i < |ns| ==> ns[i] != k
    ensures ItemsOf(dec, p - {k}, ns) == ItemsOf(dec, p, ns)
  {
    hide SurfacedAs;
    if ns != [] {
      ItemsWithout(dec, p, k, ns[1..]);
    }
  }

  lemma ItemsCons(dec: Decoder, p: map<nat, Bytes>, n: nat, ns: seq<nat>)
    requires n in p
    ensures ItemsOf(dec, p, [n] + ns) == [SurfacedAs(dec, n, p[n])] + ItemsOf(dec, p, ns)
  {
    hide SurfacedAs;
    assert ([n] + ns)[1..] == ns;
  }

  /** And it surfaces the buffered block of each. */
  lemma {:induction false} FlushSurfaces(s: State, dec: Decoder)
    ensures Flushed(s, dec).outbox == s.outbox + ItemsOf(dec, s.pending, FlushedIn(s, dec))
    decreases |s.pending|
  {
    if s.pending != map[] && Least(s.pending.Keys) == s.next {
      hide Flushed, FlushedIn, SurfacedAs, ItemsOf;
      var t := FlushFirst(s, dec);
      FlushSurfaces(t, dec);
      FlushOrder(t, dec);
      var ns := FlushedIn(t, dec);
      var x := SurfacedAs(dec, s.next, s.pending[s.next]);
      ItemsWithout(dec, s.pending, s.next, ns);
      ItemsCons(dec, s.pending, s.next, ns);
      Associative(s.outbox, [x], ItemsOf(dec, s.pending, ns));
    } else {
      assert s.outbox + [] == s.outbox;
    }
  }

  lemma {:induction false} FlushedLedger(s: State, dec: Decoder)
    ensures var t := Flushed(s, dec);
            && SameConfig(s, t) && t.drops == s.drops && |t.pending| <= |s.pending|
            && Balanced(s, [], FlushedIn(s, dec), [], t)
    decreases |s.pending|
  {
    hide Balanced;
    if s.pending != map[] && Least(s.pending.Keys) == s.next {
      var t := FlushFirst(s, dec);
      assert t.pending.Keys == s.pending.Keys - {s.next};
      hide Flushed, FlushedIn, SurfacedAs;
      FlushedLedger(t, dec);
      TakenOut(s, t, s.next);
      var none: seq<nat> := [];
      BalancedChain(s, none, [s.next], none, t, none, FlushedIn(t, dec), none, Flushed(t, dec));
      assert none + none == none;
    } else {
      NothingMoved(s, s);
    }
  }

  lemma DataIngestedLedger(s: State, dec: Decoder, first: nat, blocks: seq<Bytes>)
    requires |s.pending| <= Cap(s)
    ensures var t := DataIngested(s, dec, first, blocks);
            Balanced(s, DataAccepted(s, first, blocks), DataFlushed(s, dec, first, blocks),
                     DataEvicted(s, first, blocks), t)
            && Counted(s, DataEvicted(s, first, blocks), t)
  {
    if Buffers(s, first, blocks) {
      StashedAllLedger(Announced(s, first), first, blocks);
    } else if Delivers(s, first, blocks) {
      DeliveredAllLedger(s, dec, first, blocks);
      FlushedLedger(DeliveredAll(s, dec, first, blocks), dec);
    }
  }

  lemma IngestedLedger(s: State, dec: Decoder, pkt: Packet)
    requires |s.pending| <= Cap(s)
    ensures var t := Ingested(s, dec, pkt);
            Balanced(s, Accepted(s, pkt), FlushedBy(s, dec, pkt), EvictedBy(s, pkt), t)
            && Counted(s, EvictedBy(s, pkt), t)
  {
    hide DataIngested, DataAccepted, DataFlushed, DataEvicted;
    if IsData(s, pkt) {
      DataIngestedLedger(Admitted(s, pkt), dec, pkt.header.sequence, pkt.blocks);
    }
  }

  /** Over every run from a fresh receiver: the buffer never exceeds its cap, and every number
      accepted into it is still pending, was flushed, or was evicted, each acceptance exactly once. */
  lemma {:induction false} PendingLedger(s: State, dec: Decoder, pkts: seq<Packet>)
    requires s == Fresh(s.session, s.start, s.maxPending, s.policy)
    ensures var t := IngestedAll(s, dec, pkts);
            && SameConfig(s, t) && |t.pending| <= Cap(t)
            && multiset(TotalAccepted(s, dec, pkts))
               == multiset(t.pending.Keys) + multiset(TotalFlushed(s, dec, pkts)) + multiset(TotalEvicted(s, dec, pkts))
            && (s.policy == DropOldest ==> t.drops == |TotalEvicted(s, dec, pkts)|)
            && (s.policy == Error ==> TotalEvicted(s, dec, pkts) == [])
  {
    RunLedger(s, dec, pkts);
    assert multiset(s.pending.Keys) == multiset{};
  }

  lemma {:induction false} RunLedger(s: State, dec: Decoder, pkts: seq<Packet>)
    requires |s.pending| <= Cap(s)
    ensures var t := IngestedAll(s, dec, pkts);
            Balanced(s, TotalAccepted(s, dec, pkts), TotalFlushed(s, dec, pkts), TotalEvicted(s, dec, pkts), t)
            && Counted(s, TotalEvicted(s, dec, pkts), t)
  {
    hide Ingested, Accepted, FlushedBy, EvictedBy;
    if pkts != [] {
      var front, last := pkts[..|pkts| - 1], pkts[|pkts| - 1];
      var t := IngestedAll(s, dec, front);
      RunLedger(s, dec, front);
      IngestedLedger(t, dec, last);
      var a, f, e := TotalAccepted(s, dec, front), TotalFlushed(s, dec, front), TotalEvicted(s, dec, front);
      BalancedChain(s, a, f, e, t, Accepted(t, last), FlushedBy(t, dec, last), EvictedBy(t, last),
                    IngestedAll(s, dec, pkts));
    }
  }

  // ----- What each packet surfaces -----

  /** The items blocks surface as when they are delivered from number `n` on. */
  function ItemsFrom(dec: Decoder, n: nat, blocks: seq<Bytes>): seq<Item>
    decreases |blocks|
  {
    if blocks == [] then [] else [SurfacedAs(dec, n, blocks[0])] + ItemsFrom(dec, n + 1, blocks[1..])
  }

  /** Blocks below the expected number are skipped, the others surface in order. */
  lemma {:induction false} DeliverySurfaces(s: State, dec: Decoder, first: nat, blocks: seq<Bytes>)
    requires GoodBlocks(blocks) && first + |blocks| <= U64_MAX && first <= s.next <= first + |blocks|
    ensures DeliveredAll(s, dec, first, blocks).outbox == s.outbox + ItemsFrom(dec, s.next, blocks[s.next - first..])
    decreases |blocks|
  {
    hide SurfacedAs, Delivered;
    if blocks == [] {
      assert s.outbox + [] == s.outbox;
    } else if first < s.next {
      assert DeliveredAll(s, dec, first, blocks) == DeliveredAll(s, dec, first + 1, blocks[1..]);
      hide DeliveredAll, ItemsFrom;
      assert blocks[1..][s.next - (first + 1)..] == blocks[s.next - first..];
      DeliverySurfaces(s, dec, first + 1, blocks[1..]);
    } else {
      var t := Delivered(s, dec, first, blocks[0]);
      var x, rest := SurfacedAs(dec, first, blocks[0]), ItemsFrom(dec, first + 1, blocks[1..]);
      assert DeliveredAll(s, dec, first, blocks) == DeliveredAll(t, dec, first + 1, blocks[1..]);
      assert ItemsFrom(dec, first, blocks) == [x] + rest;
      hide DeliveredAll, ItemsFrom;
      assert GoodBlock(blocks[0]);
      DeliveredSurfaces(s, dec, first, blocks[0]);
      DeliverySurfaces(t, dec, first + 1, blocks[1..]);
      assert blocks[0..] == blocks && blocks[1..][0..] == blocks[1..];
      Associative(s.outbox, [x], rest);
    }
  }

  /** The number a full buffer refuses under the `Error` policy. */
  function Refuses(s: State, n: nat): seq<nat> {
    if n !in s.pending && s.policy == Error && |s.pending| >= s.maxPending then [n] else []
  }

  function RefusedIn(s: State, first: nat, blocks: seq<Bytes>): seq<nat>
    decreases |blocks|
  {
    if blocks == [] then []
    else Refuses(s, first) + RefusedIn(Stashed(s, first, blocks[0]), AddU64(first, 1), blocks[1..])
  }

  function Complaints(max: nat, n: nat): seq<Item> {
    seq(n, _ => Err(PendingBufferFull(max)))
  }

  lemma OneRefusal(s: State, n: nat, data: Bytes)
    ensures var t, k := Stashed(s, n, data), |Refuses(s, n)|;
            && SameConfig(s, t) && t.outbox == s.outbox + Complaints(s.maxPending, k)
            && (s.policy == Error ==> t.drops == s.drops + k) && (s.policy == DropOldest ==> k == 0)
  {
  }

  /** Each refused block is reported and counted; nothing else is said while blocks are buffered. */
  lemma {:induction false} RefusalsAreReported(s: State, first: nat, blocks: seq<Bytes>)
    ensures var t, n := StashedAll(s, first, blocks), |RefusedIn(s, first, blocks)|;
            && SameConfig(s, t) && t.outbox == s.outbox + Complaints(s.maxPending, n)
            && (s.policy == Error ==> t.drops == s.drops + n) && (s.policy == DropOldest ==> n == 0)
    decreases |blocks|
  {
    if blocks == [] {
      assert s.outbox + Complaints(s.maxPending, 0) == s.outbox;
    } else {
      var t, k := Stashed(s, first, blocks[0]), |Refuses(s, first)|;
      OneRefusal(s, first, blocks[0]);
      var m := |RefusedIn(t, AddU64(first, 1), blocks[1..])|;
      hide Stashed, Refuses;
      RefusalsAreReported(t, AddU64(first, 1), blocks[1..]);
      assert Complaints(s.maxPending, k) + Complaints(s.maxPending, m) == Complaints(s.maxPending, k + m);
      assert (s.outbox + Complaints(s.maxPending, k)) + Complaints(s.maxPending, m)
          == s.outbox + (Complaints(s.maxPending, k) + Complaints(s.maxPending, m));
    }
  }

  /** A heartbeat and an end of session surface their own number and touch nothing else. */
  lemma NoticesSurface(s: State, dec: Decoder, pkt: Packet)
    requires SessionAccepts(s, pkt) && s.bootstrapped
    ensures var t, n := Ingested(s, dec, pkt), pkt.header.sequence;
            && (pkt.header.count == 0 ==>
                  t == s.(session := Some(pkt.header.session), outbox := s.outbox + [Ok(Heartbeat(n))]))
            && (pkt.header.count == 0xFFFF ==>
                  t == s.(session := Some(pkt.header.session), outbox := s.outbox + [Ok(EndOfSession(n))], eos := true))
  {
  }

  /** A data packet ahead of the expected number surfaces the gap before it, and a complaint for each
      block refused. */
  lemma AheadSurfaces(s: State, dec: Decoder, pkt: Packet)
    requires s.session.Some? && s.bootstrapped && IsData(s, pkt) && Ordinary(pkt)
    requires s.next < pkt.header.sequence && pkt.blocks != []
    ensures var first := pkt.header.sequence;
            Ingested(s, dec, pkt).outbox
            == s.outbox + [Ok(Gap(s.next, first - 1))]
               + Complaints(s.maxPending, |RefusedIn(Announced(s, first), first, pkt.blocks)|)
  {
    assert Admitted(s, pkt) == s;
    RefusalsAreReported(Announced(s, pkt.header.sequence), pkt.header.sequence, pkt.blocks);
    hide StashedAll, RefusedIn, Complaints;
  }

  /** One that carries the expected number surfaces its new blocks and then what they release; an old
      one surfaces nothing. */
  lemma InOrderSurfaces(s: State, dec: Decoder, pkt: Packet)
    requires s.session.Some? && s.bootstrapped && IsData(s, pkt) && Ordinary(pkt) && pkt.header.sequence <= s.next
    ensures var t, first, blocks := Ingested(s, dec, pkt), pkt.header.sequence, pkt.blocks;
            t.outbox == if first + |blocks| <= s.next then s.outbox
                        else s.outbox + ItemsFrom(dec, s.next, blocks[s.next - first..])
                             + ItemsOf(dec, s.pending, FlushedBy(s, dec, pkt))
  {
    var first, blocks := pkt.header.sequence, pkt.blocks;
    assert Admitted(s, pkt) == s;
    if s.next < first + |blocks| {
      DeliverySurfaces(s, dec, first, blocks);
      DeliveredAllLedger(s, dec, first, blocks);
      FlushSurfaces(DeliveredAll(s, dec, first, blocks), dec);
      hide DeliveredAll, ItemsFrom, ItemsOf, Flushed, FlushedIn;
    }
  }

  /** A receiver without a start number takes the first packet's number as its own, and delivers. */
  lemma FirstPacketDelivers(s: State, dec: Decoder, pkt: Packet)
    requires s == Fresh(s.session, s.start, s.maxPending, s.policy) && IsData(s, pkt) && Ordinary(pkt)
    requires pkt.blocks != [] && (s.start == 0 || s.start == pkt.header.sequence)
    ensures var t := Ingested(s, dec, pkt);
            && t.next == pkt.header.sequence + |pkt.blocks| && t.pending == map[]
            && t.outbox == ItemsFrom(dec, pkt.header.sequence, pkt.blocks)
  {
    var first, blocks := pkt.header.sequence, pkt.blocks;
    var a := Admitted(s, pkt);
    DeliverySurfaces(a, dec, first, blocks);
    DeliveredAllNext(a, dec, first, blocks);
    assert blocks[0..] == blocks;
    assert [] + ItemsFrom(dec, first, blocks) == ItemsFrom(dec, first, blocks);
    hide DeliveredAll;
  }

  // ----- Head of line -----

  /** Everything buffered is still to come. */
  predicate Ahead(s: State) {
    (s.bootstrapped || s.pending == map[])
    && forall k :: k in s.pending ==> s.next < k <= U64_MAX
  }

  /** The packet delivers some number directly that already sits in the buffer. */
  predicate Overlaps(s: State, pkt: Packet) {
    IsData(s, pkt) && pkt.header.sequence <= Admitted(s, pkt).next
    && exists k :: k in s.pending && k < pkt.header.sequence + |pkt.blocks|
  }

  /** A packet as it comes off the wire, with numbers that stay inside u64. */
  predicate Ordinary(pkt: Packet) {
    GoodBlocks(pkt.blocks) && pkt.header.sequence + |pkt.blocks| <= U64_MAX
  }

  lemma {:induction false} StashedAllAhead(s: State, first: nat, blocks: seq<Bytes>)
    requires Ahead(s) && s.bootstrapped && s.next < first && first + |blocks| <= U64_MAX
    ensures Ahead(StashedAll(s, first, blocks)) && StashedAll(s, first, blocks).next == s.next
    decreases |blocks|
  {
    if blocks != [] {
      StashedAllAhead(Stashed(s, first, blocks[0]), AddU64(first, 1), blocks[1..]);
    }
  }

  /** In-limit blocks are delivered to the end: the expected number becomes the one after the last. */
  lemma {:induction false} DeliveredAllNext(s: State, dec: Decoder, first: nat, blocks: seq<Bytes>)
    requires GoodBlocks(blocks) && first <= s.next && first + |blocks| <= U64_MAX
    ensures var t := DeliveredAll(s, dec, first, blocks);
            t.next == (if first + |blocks| > s.next then first + |blocks| else s.next)
            && t.pending == s.pending && t.bootstrapped == s.bootstrapped && t.session == s.session
    decreases |blocks|
  {
    if blocks != [] {
      assert GoodBlock(blocks[0]);
      var s' := if first < s.next then s else Delivered(s, dec, first, blocks[0]);
      DeliveredAllNext(s', dec, AddU64(first, 1), blocks[1..]);
    }
  }

  lemma {:induction false} FlushedClean(s: State, dec: Decoder)
    requires s.bootstrapped && forall k :: k in s.pending ==> s.next <= k <= U64_MAX
    ensures Ahead(Flushed(s, dec))
    decreases |s.pending|
  {
    if s.pending != map[] && Least(s.pending.Keys) == s.next {
      var k := s.next;
      var t := Delivered(s.(pending := s.pending - {k}), dec, k, s.pending[k]);
      FlushedStep(s, dec);
      assert t.pending == s.pending - {k} && t.bootstrapped && (t.next == k || t.next == AddU64(k, 1));
      hide Flushed, Delivered;
      FlushedClean(t, dec);
    }
  }

  lemma FlushedStale(s: State, dec: Decoder)
    requires exists k :: k in s.pending && k < s.next
    ensures Flushed(s, dec) == s
  {
    var k :| k in s.pending && k < s.next;
    assert k in s.pending.Keys;
  }

  /** A flush of a buffer with nothing stale leaves nothing stale; a stale entry blocks it entirely. */
  lemma FlushedAhead(s: State, dec: Decoder)
    requires s.bootstrapped && forall k :: k in s.pending ==> k <= U64_MAX
    ensures (forall k :: k in s.pending ==> s.next <= k) ==> Ahead(Flushed(s, dec))
    ensures (exists k :: k in s.pending && k < s.next) ==> Flushed(s, dec) == s
  {
    hide Flushed, Ahead;
    if exists k :: k in s.pending && k < s.next {
      FlushedStale(s, dec);
    } else {
      FlushedClean(s, dec);
    }
  }

  /** A flush ends only with an empty buffer or with a smallest entry that is not the expected number. */
  lemma {:induction false} FlushExit(s: State, dec: Decoder)
    ensures var t := Flushed(s, dec);
            t.pending == map[] || Least(t.pending.Keys) != t.next
    decreases |s.pending|
  {
    if s.pending != map[] && Least(s.pending.Keys) == s.next {
      RemoveShrinks(s.pending, s.next);
      FlushExit(Delivered(s.(pending := s.pending - {s.next}), dec, s.next, s.pending[s.next]), dec);
    }
  }

  lemma DataHeadOfLine(s: State, dec: Decoder, first: nat, blocks: seq<Bytes>)
    requires Ahead(s) && s.bootstrapped && GoodBlocks(blocks) && first + |blocks| <= U64_MAX
    ensures Ahead(DataIngested(s, dec, first, blocks))
            <==> !(first <= s.next && exists k :: k in s.pending && k < first + |blocks|)
  {
    if s.next < first + |blocks| {
      if s.next < first {
        StashedAllAhead(Emit(s, Ok(Gap(s.next, first - 1))), first, blocks);
      } else {
        DeliveredAllNext(s, dec, first, blocks);
        FlushedAhead(DeliveredAll(s, dec, first, blocks), dec);
      }
    }
  }

  /** Exactly when a packet leaves a stale entry behind: when it delivers a buffered number directly. */
  lemma HeadOfLine(s: State, dec: Decoder, pkt: Packet)
    requires Ahead(s) && Ordinary(pkt)
    ensures Ahead(Ingested(s, dec, pkt)) <==> !Overlaps(s, pkt)
  {
    hide DataIngested;
    if IsData(s, pkt) {
      DataHeadOfLine(Admitted(s, pkt), dec, pkt.header.sequence, pkt.blocks);
    }
  }

  /** A packet of one block, which is all that retransmission uses, never leaves a stale entry. */
  lemma SingleBlockNeverStale(s: State, dec: Decoder, pkt: Packet)
    requires Ahead(s) && Ordinary(pkt) && |pkt.blocks| == 1
    ensures Ahead(Ingested(s, dec, pkt))
  {
    HeadOfLine(s, dec, pkt);
  }

  /** No packet of the run overlaps the buffer at the moment it is ingested. */
  predicate NeverOverlaps(s: State, dec: Decoder, pkts: seq<Packet>) {
    forall i :: 0 <= i < |pkts| ==> Ordinary(pkts[i]) && !Overlaps(IngestedAll(s, dec, pkts[..i]), pkts[i])
  }

  /** Over every run without overlap the head of the line is never stuck: what is buffered lies
      strictly above the expected number after every packet. */
  lemma {:induction false} NeverStuck(s: State, dec: Decoder, pkts: seq<Packet>)
    requires s == Fresh(s.session, s.start, s.maxPending, s.policy)
    requires NeverOverlaps(s, dec, pkts)
    ensures Ahead(IngestedAll(s, dec, pkts))
  {
    if pkts != [] {
      var n := |pkts| - 1;
      forall i | 0 <= i < n ensures pkts[..n][..i] == pkts[..i] {
      }
      NeverStuck(s, dec, pkts[..n]);
      HeadOfLine(IngestedAll(s, dec, pkts[..n]), dec, pkts[n]);
    }
  }

  /** The head of the line does get stuck otherwise. Packets 5, 3, then the filler 1-3: number 3
      is delivered directly, its buffered copy stays, and when 4 arrives the flush stops at the
      stale 3 although 5 is both expected and buffered. */
  lemma WideFillerSticks(dec: Decoder, b: Bytes, session: Bytes)
    requires |b| == 1
    ensures var s := Fresh(Some(session), 1, 10, DropOldest);
            var t := IngestedAll(s, dec, [DataPacket(session, 5, [b]), DataPacket(session, 3, [b]),
                                          DataPacket(session, 1, [b, b, b]), DataPacket(session, 4, [b])]);
            t.next == 5 && 5 in t.pending && 3 in t.pending
  {
    var s := Fresh(Some(session), 1, 10, DropOldest);
    var p0, p1 := DataPacket(session, 5, [b]), DataPacket(session, 3, [b]);
    var p2, p3 := DataPacket(session, 1, [b, b, b]), DataPacket(session, 4, [b]);
    BufferOne(s, dec, 5, b);
    var s1 := Ingested(s, dec, p0);
    BufferOne(s1, dec, 3, b);
    var s2 := Ingested(s1, dec, p1);
    assert 3 in s2.pending;
    StaleBlocks(s2, dec, p2);
    var s3 := Ingested(s2, dec, p2);
    StaleBlocks(s3, dec, p3);
    RunOfFour(s, dec, p0, p1, p2, p3);
  }

  function DataPacket(session: Bytes, first: nat, blocks: seq<Bytes>): Packet {
    Packet(Header(session, first, |blocks|), blocks)
  }

  lemma BufferOne(s: State, dec: Decoder, n: nat, b: Bytes)
    requires s.session.Some? && s.start != 0 && s.next < n < U64_MAX && n !in s.pending && |s.pending| < s.maxPending
    ensures var t := Ingested(s, dec, DataPacket(s.session.value, n, [b]));
            t.pending == s.pending[n := b] && t.next == s.next && t.bootstrapped
            && t.session == s.session && SameConfig(s, t) && t.outbox == s.outbox + [Ok(Gap(s.next, n - 1))]
  {
    var e := Emit(Admitted(s, DataPacket(s.session.value, n, [b])), Ok(Gap(s.next, n - 1)));
    assert StashedAll(e, n, [b]) == StashedAll(Stashed(e, n, b), AddU64(n, 1), []);
  }

  /** Delivering past a buffered number leaves the whole buffer in place. */
  lemma StaleBlocks(s: State, dec: Decoder, pkt: Packet)
    requires IsData(s, pkt) && s.bootstrapped && Ordinary(pkt)
    requires pkt.header.sequence <= s.next < pkt.header.sequence + |pkt.blocks|
    requires forall k :: k in s.pending ==> k <= U64_MAX
    requires exists k :: k in s.pending && k < pkt.header.sequence + |pkt.blocks|
    ensures var t := Ingested(s, dec, pkt);
            t.pending == s.pending && t.next == pkt.header.sequence + |pkt.blocks|
            && t.bootstrapped && t.session == Some(pkt.header.session) && SameConfig(s, t)
  {
    var t := Admitted(s, pkt);
    DeliveredAllLedger(t, dec, pkt.header.sequence, pkt.blocks);
    DeliveredAllNext(t, dec, pkt.header.sequence, pkt.blocks);
    FlushedAhead(DeliveredAll(t, dec, pkt.header.sequence, pkt.blocks), dec);
  }

  lemma RunOfFour(s: State, dec: Decoder, a: Packet, b: Packet, c: Packet, d: Packet)
    ensures IngestedAll(s, dec, [a, b, c, d])
            == Ingested(Ingested(Ingested(Ingested(s, dec, a), dec, b), dec, c), dec, d)
  {
    assert [a, b, c, d][..3] == [a, b, c] && [a, b, c][..2] == [a, b] && [a, b][..1] == [a] && [a][..0] == [];
    assert IngestedAll(s, dec, [a]) == Ingested(s, dec, a);
    assert IngestedAll(s, dec, [a, b]) == Ingested(Ingested(s, dec, a), dec, b);
    assert IngestedAll(s, dec, [a, b, c]) == Ingested(IngestedAll(s, dec, [a, b]), dec, c);
  }
}
