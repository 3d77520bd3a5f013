/** Bytes, machine integers and big-endian numbers shared by every transport. */
module Wire {

  type byte = x: int | 0 <= x < 256
  type Bytes = seq<byte>

  datatype Option<+T> = None | Some(value: T)

  datatype Result<+T, +E> = Ok(value: T) | Err(error: E)

  const U32_MAX: nat := 0xFFFF_FFFF
  const U64_MAX: nat := 0xFFFF_FFFF_FFFF_FFFF

  /** `a + b` on u64 operands in a release build: wraps around. */
  function AddU64(a: nat, b: nat): nat {
    if a + b <= U64_MAX then a + b else (a + b) % (U64_MAX + 1)
  }

  /** `u64::saturating_add`. */
  function SatAddU64(a: nat, b: nat): nat {
    if a + b <= U64_MAX then a + b else U64_MAX
  }

  function Pow256(w: nat): (p: nat)
    ensures p > 0
  {
    if w == 0 then 1 else 256 * Pow256(w - 1)
  }

  /** The low `w` bytes of `n`, most significant first. Higher bytes are cut off, as an `as` cast does. */
  function BigEndian(n: nat, w: nat): (b: Bytes)
    ensures |b| == w
  {
    if w == 0 then [] else BigEndian(n / 256, w - 1) + [n % 256]
  }

  function FromBigEndian(b: Bytes): nat {
    if b == [] then 0 else 256 * FromBigEndian(b[..|b| - 1]) + b[|b| - 1]
  }

  lemma {:induction false} FromBigEndianBound(b: Bytes)
    ensures FromBigEndian(b) < Pow256(|b|)
  {
    if b != [] {
      FromBigEndianBound(b[..|b| - 1]);
    }
  }

  /** Decoding what was encoded gives the number back exactly when it fits the width. */
  lemma {:induction false} BigEndianRoundTrip(n: nat, w: nat)
    ensures FromBigEndian(BigEndian(n, w)) == n <==> n < Pow256(w)
  {
    if w > 0 {
      BigEndianRoundTrip(n / 256, w - 1);
      var b := BigEndian(n, w);
      assert b[..|b| - 1] == BigEndian(n / 256, w - 1);
    }
  }

  /** Encoding what was decoded gives the bytes back, always. */
  lemma {:induction false} FromBigEndianRoundTrip(b: Bytes)
    ensures BigEndian(FromBigEndian(b), |b|) == b
  {
    if b != [] {
      FromBigEndianRoundTrip(b[..|b| - 1]);
    }
  }

  /** Most significant first: bytes in front count by the weight of those that follow. */
  lemma {:induction false} FromBigEndianSplit(a: Bytes, b: Bytes)
    ensures FromBigEndian(a + b) == FromBigEndian(a) * Pow256(|b|) + FromBigEndian(b)
  {
    if b == [] {
      assert a + b == a;
    } else {
      var n := |b| - 1;
      assert (a + b)[..|a + b| - 1] == a + b[..n];
      FromBigEndianSplit(a, b[..n]);
      MulMoves(FromBigEndian(a), Pow256(n), FromBigEndian(b[..n]));
    }
  }

  lemma MulMoves(x: nat, p: nat, y: nat)
    ensures 256 * (x * p + y) == x * (256 * p) + 256 * y
  {
  }

  lemma Pow256Values()
    ensures Pow256(1) == 0x100 && Pow256(2) == 0x1_0000 && Pow256(4) == 0x1_0000_0000
    ensures Pow256(6) == 0x1_0000_0000_0000 && Pow256(8) == U64_MAX + 1
  {
    assert Pow256(3) == 0x100_0000;
    assert Pow256(5) == 0x100_0000_0000;
    assert Pow256(7) == 0x100_0000_0000_0000;
  }

  /** Concatenation of a list of byte strings. */
  function Concat(parts: seq<Bytes>): Bytes {
    if parts == [] then [] else parts[0] + Concat(parts[1..])
  }

  lemma {:induction false} ConcatAppend(a: seq<Bytes>, b: seq<Bytes>)
    ensures Concat(a + b) == Concat(a) + Concat(b)
  {
    if a == [] {
      assert a + b == b;
    } else {
      calc {
        Concat(a + b);
        { assert (a + b)[0] == a[0] && (a + b)[1..] == a[1..] + b; }
        a[0] + Concat(a[1..] + b);
        { ConcatAppend(a[1..], b); }
        a[0] + (Concat(a[1..]) + Concat(b));
        (a[0] + Concat(a[1..])) + Concat(b);
        Concat(a) + Concat(b);
      }
    }
  }

  lemma Associative<T>(a: seq<T>, b: seq<T>, c: seq<T>)
    ensures (a + b) + c == a + (b + c)
  {
  }

  lemma Regroup(a: Bytes, b: Bytes, c: Bytes)
    ensures (a + b) + c == a + (b + c)
    ensures (a + b)[..|a|] == a && (a + b)[|a|..] == b
    ensures (a + (b + c))[..|a|] == a && (a + (b + c))[|a|..] == b + c
  {
  }
}
