/** The bounded in-memory message store behind the SoupBinTCP server. */
module SeqStore {
  import opened Wire
  import opened Ordered
  import Itch

  type Entry = (nat, Itch.Message)

  /** `entries` holds what is retained and `maxSeen` the highest number ever stored. */
  datatype Store = Store(entries: map<nat, Itch.Message>, maxSeen: nat, capacity: nat)

  function Empty(capacity: nat): Store {
    Store(map[], 0, if capacity == 0 then 1 else capacity)
  }

  predicate Sized(s: Store) {
    0 < s.capacity && |s.entries| <= s.capacity && forall k :: k in s.entries ==> k <= s.maxSeen
  }

  function Max(a: nat, b: nat): nat {
    if a > b then a else b
  }

  /** `store` accepts a number that is free, and a repetition of what is already there. */
  predicate Storable(s: Store, n: nat, m: Itch.Message) {
    n !in s.entries || s.entries[n] == m
  }

  /** What stays when one more entry comes in. */
  function Kept(s: Store): map<nat, Itch.Message> {
    if |s.entries| == s.capacity && s.entries != map[] then s.entries - {Least(s.entries.Keys)} else s.entries
  }

  /** The store after an accepted `store`: at capacity the lowest number makes room. */
  function Stored(s: Store, n: nat, m: Itch.Message): Store
    requires Storable(s, n, m)
  {
    if n in s.entries then s.(maxSeen := Max(s.maxSeen, n))
    else s.(entries := Kept(s)[n := m], maxSeen := Max(s.maxSeen, n))
  }

  /** What `range` has to return: the longest gap-free run of retained messages from `from`, at most
      `count` of them. */
  predicate LongestRun(s: Store, from: nat, count: nat, r: seq<Entry>) {
    |r| <= count
    && (forall i :: 0 <= i < |r| ==> r[i].0 == from + i && r[i].0 in s.entries && r[i].1 == s.entries[r[i].0])
    && (|r| < count ==> from + |r| !in s.entries)
  }

  class RingBufferSeqStore {
    var entries: map<nat, Itch.Message>
    var maxSeen: nat
    const capacity: nat

    function Model(): Store
      reads this
    {
      Store(entries, maxSeen, capacity)
    }

    constructor (capacity: nat)
      ensures Model() == Empty(capacity)
    {
      entries := map[];
      maxSeen := 0;
      this.capacity := if capacity == 0 then 1 else capacity;
    }

    method StoreMessage(n: nat, m: Itch.Message) returns (ok: bool)
      modifies this
      ensures ok <==> Storable(old(Model()), n, m)
      ensures Model() == if ok then Stored(old(Model()), n, m) else old(Model())
    {
      if n in entries {
        if entries[n] != m {
          return false;
        }
        if n > maxSeen {
          maxSeen := n;
        }
        return true;
      }
      if |entries| == capacity && entries != map[] {
        entries := entries - {Least(entries.Keys)};
      }
      entries := entries[n := m];
      if n > maxSeen {
        maxSeen := n;
      }
      return true;
    }

    /** Walks the retained numbers upwards from `from` until one is missing. */
    method Range(from: nat, count: nat) returns (out: seq<Entry>)
      requires forall k :: k in entries ==> k <= U64_MAX
      ensures LongestRun(Model(), from, count, out)
    {
      out := [];
      if count == 0 {
        return;
      }
      var left := set k | k in entries && from <= k;
      var expected := from;
      while left != {}
        invariant left == set k | k in entries && from + |out| <= k
        invariant expected == from + |out| || (left == {} && |out| > 0)
        invariant |out| < count
        invariant forall i :: 0 <= i < |out| ==>
                    out[i].0 == from + i && out[i].0 in entries && out[i].1 == entries[out[i].0]
        decreases left
      {
        var k := Least(left);
        if k != expected {
          break;
        }
        out := out + [(k, entries[k])];
        left := left - {k};
        expected := SatAddU64(expected, 1);
        if |out| == count {
          return;
        }
      }
      assert from + |out| !in left;
    }

    method Latest() returns (n: nat)
      ensures n == maxSeen
    {
      return maxSeen;
    }

    method Earliest() returns (n: nat)
      ensures entries == map[] ==> n == 0
      ensures entries != map[] ==> n in entries && forall k :: k in entries ==> n <= k
    {
      if entries == map[] {
        return 0;
      }
      return Least(entries.Keys);
    }
  }

  /** Any accepted store, in any order: the high-water mark never goes back, the message just
      stored is readable, and the size stays within the capacity. */
  lemma StoredContract(s: Store, n: nat, m: Itch.Message)
    requires Sized(s) && Storable(s, n, m)
    ensures var t := Stored(s, n, m);
            Sized(t) && s.maxSeen <= t.maxSeen && n <= t.maxSeen
            && n in t.entries && t.entries[n] == m && LongestRun(t, n, 1, [(n, m)])
  {
    if n !in s.entries {
      if |s.entries| == s.capacity && s.entries != map[] {
        assert Kept(s).Keys == s.entries.Keys - {Least(s.entries.Keys)};
      }
      assert Kept(s)[n := m].Keys == Kept(s).Keys + {n};
    }
  }

  /** A number already stored: the same message again is accepted and changes nothing, and any
      other message is refused. */
  lemma StoredTwice(s: Store, n: nat, m: Itch.Message)
    requires Sized(s) && n in s.entries
    ensures Storable(s, n, m) <==> m == s.entries[n]
    ensures Stored(s, n, s.entries[n]) == s
  {
    assert n <= s.maxSeen;
  }

  /** A new number joins whatever its place: a full store loses its lowest number, nothing else goes
      and no message changes. */
  lemma StoredOnce(s: Store, n: nat, m: Itch.Message, k: nat)
    requires Sized(s) && n !in s.entries
    ensures Storable(s, n, m)
    ensures var t := Stored(s, n, m);
            var evicted := |s.entries| == s.capacity && forall j :: j in s.entries ==> k <= j;
            && (k in t.entries <==> k == n || (k in s.entries && !evicted))
            && (k in t.entries ==> t.entries[k] == if k == n then m else s.entries[k])
  {
    if |s.entries| == s.capacity {
      assert s.entries.Keys != {};
      assert Least(s.entries.Keys) in s.entries.Keys;
    }
  }

  // ----- Consecutive numbers -----

  /** The messages numbered `origin`, `origin + 1`, ... */
  function At(origin: nat, log: seq<Itch.Message>, n: nat): Itch.Message
    requires origin <= n < origin + |log|
  {
    log[n - origin]
  }

  /** The store retains exactly the numbers from `lo` up to the end of the log, with their messages. */
  ghost predicate Retains(s: Store, origin: nat, log: seq<Itch.Message>, lo: nat) {
    origin <= lo <= origin + |log|
    && (forall n :: n in s.entries <==> lo <= n < origin + |log|)
    && (forall n :: n in s.entries ==> s.entries[n] == At(origin, log, n))
    && (log != [] ==> s.maxSeen == origin + |log| - 1 && lo < origin + |log|)
    && (log == [] ==> s.maxSeen < origin)
  }

  lemma KeyCount(keys: set<nat>, lo: nat, hi: nat)
    requires lo <= hi && forall n :: n in keys <==> lo <= n < hi
    ensures |keys| == hi - lo
    decreases hi - lo
  {
    if lo < hi {
      KeyCount(keys - {hi - 1}, lo, hi - 1);
    } else {
      assert keys == {};
    }
  }

  /** Storing above everything seen: at capacity, the lowest number is the one that goes. */
  lemma StoredAbove(s: Store, n: nat, m: Itch.Message, lo: nat)
    requires 0 < s.capacity && s.maxSeen <= n && n !in s.entries
    requires |s.entries| == s.capacity ==> lo in s.entries && forall k :: k in s.entries ==> lo <= k
    ensures Storable(s, n, m)
    ensures var kept := if |s.entries| == s.capacity then s.entries - {lo} else s.entries;
            Stored(s, n, m) == s.(entries := kept[n := m], maxSeen := n)
  {
    if |s.entries| == s.capacity {
      assert lo in s.entries.Keys && Least(s.entries.Keys) == lo;
    }
  }

  /** Storing the next number appends to the log and moves the lower end up by one exactly when
      the store was full: what is retained is always the last `capacity` messages. */
  lemma StoredNext(s: Store, origin: nat, log: seq<Itch.Message>, lo: nat, m: Itch.Message)
    requires 0 < s.capacity && Retains(s, origin, log, lo) && |s.entries| <= s.capacity
    ensures Storable(s, origin + |log|, m)
    ensures var hi := origin + |log|;
            var lo' := if hi - lo == s.capacity then lo + 1 else lo;
            Retains(Stored(s, hi, m), origin, log + [m], lo') && Stored(s, hi, m).capacity == s.capacity
            && |Stored(s, hi, m).entries| == hi + 1 - lo' <= s.capacity
  {
    hide Stored;
    var hi := origin + |log|;
    KeyCount(s.entries.Keys, lo, hi);
    StoredAbove(s, hi, m, lo);
    var lo' := if hi - lo == s.capacity then lo + 1 else lo;
    var t := Stored(s, hi, m);
    forall n ensures n in t.entries <==> lo' <= n < hi + 1 {
    }
    KeyCount(t.entries.Keys, lo', hi + 1);
  }

  // ----- Increasing numbers -----

  predicate Increasing(es: seq<Entry>) {
    forall i, j :: 0 <= i < j < |es| ==> es[i].0 < es[j].0
  }

  function MapOf(es: seq<Entry>): map<nat, Itch.Message> {
    if es == [] then map[] else MapOf(es[..|es| - 1])[es[|es| - 1].0 := es[|es| - 1].1]
  }

  /** Increasing entries keep their number, and their ends bound the keys. */
  lemma {:induction false} MapOfKeys(es: seq<Entry>)
    requires Increasing(es)
    ensures |MapOf(es)| == |es|
    ensures es != [] ==> es[0].0 in MapOf(es)
    ensures forall k :: k in MapOf(es) ==> es != [] && es[0].0 <= k <= es[|es| - 1].0
  {
    if es != [] {
      var n := |es| - 1;
      MapOfKeys(es[..n]);
      var m := MapOf(es[..n]);
      assert es[n].0 !in m;
      assert MapOf(es).Keys == m.Keys + {es[n].0};
    }
  }

  lemma {:induction false} MapOfTail(es: seq<Entry>)
    requires Increasing(es) && es != []
    ensures MapOf(es) - {es[0].0} == MapOf(es[1..])
  {
    var n := |es| - 1;
    if n == 0 {
      assert es[..0] == [] && es[1..] == [];
    } else {
      MapOfTail(es[..n]);
      assert es[1..][..n - 1] == es[..n][1..];
      assert es[0].0 != es[n].0;
      hide Increasing;
    }
  }

  /** A higher number joins at the end, and at capacity the first of the retained ones leaves. */
  lemma StoredHigher(s: Store, es: seq<Entry>, e: Entry)
    requires 0 < s.capacity && s.entries == MapOf(es) && Increasing(es)
    requires |es| <= s.capacity && s.maxSeen <= e.0 && forall i :: 0 <= i < |es| ==> es[i].0 < e.0
    ensures Storable(s, e.0, e.1)
    ensures Stored(s, e.0, e.1) ==
            s.(entries := MapOf((if |es| == s.capacity then es[1..] else es) + [e]), maxSeen := e.0)
  {
    hide MapOf, Stored, Storable, Increasing;
    MapOfKeys(es);
    assert es != [] ==> es[|es| - 1].0 < e.0;
    assert e.0 !in s.entries;
    if |es| == s.capacity {
      MapOfTail(es);
      MapOfSnoc(es[1..], e);
      StoredAbove(s, e.0, e.1, es[0].0);
    } else {
      MapOfSnoc(es, e);
      StoredAbove(s, e.0, e.1, 0);
    }
  }

  lemma MapOfSnoc(es: seq<Entry>, e: Entry)
    ensures MapOf(es + [e]) == MapOf(es)[e.0 := e.1]
  {
    assert (es + [e])[..|es|] == es;
  }

  function StoredAll(capacity: nat, es: seq<Entry>): Store
    requires 0 < capacity
  {
    if es == [] then Empty(capacity) else
      var s, e := StoredAll(capacity, es[..|es| - 1]), es[|es| - 1];
      if Storable(s, e.0, e.1) then Stored(s, e.0, e.1) else s
  }

  function Tail(es: seq<Entry>, capacity: nat): seq<Entry> {
    if |es| > capacity then es[|es| - capacity..] else es
  }

  lemma TailSnoc(es: seq<Entry>, capacity: nat)
    requires 0 < capacity && es != []
    ensures var tail := Tail(es[..|es| - 1], capacity);
            && |tail| <= capacity
            && (if |tail| == capacity then tail[1..] else tail) + [es[|es| - 1]] == Tail(es, capacity)
  {
  }

  lemma TailBelow(es: seq<Entry>, capacity: nat)
    requires Increasing(es) && es != []
    ensures var front := es[..|es| - 1];
            var tail := Tail(front, capacity);
            && Increasing(front) && Increasing(tail)
            && (forall i :: 0 <= i < |tail| ==> tail[i].0 < es[|es| - 1].0)
            && (front != [] ==> front[|front| - 1].0 < es[|es| - 1].0)
  {
  }

  /** After any stores with increasing numbers, gaps included, the bounded store agrees with the
      unbounded log on its last `capacity` entries and holds nothing else. */
  lemma {:induction false} KeepsLast(capacity: nat, es: seq<Entry>)
    requires 0 < capacity && Increasing(es)
    ensures var s := StoredAll(capacity, es);
            && s.capacity == capacity && s.entries == MapOf(Tail(es, capacity))
            && s.maxSeen == if es == [] then 0 else es[|es| - 1].0
  {
    if es != [] {
      hide Stored, Storable, MapOf, Increasing, Tail;
      var n := |es| - 1;
      TailBelow(es, capacity);
      KeepsLast(capacity, es[..n]);
      TailSnoc(es, capacity);
      StoredHigher(StoredAll(capacity, es[..n]), Tail(es[..n], capacity), es[n]);
    }
  }
}
