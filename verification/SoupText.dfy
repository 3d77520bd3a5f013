/** Space-padded text fields and decimal numbers of SoupBinTCP logins. */
module SoupText {
  import opened Wire

  const SPACE: byte := 32
  const ZERO: byte := 48

  // ----- Padding and trimming -----

  function Spaces(n: nat): (r: Bytes)
    ensures |r| == n
  {
    seq(n, _ => SPACE)
  }

  /** Left-aligned in `width` bytes; a longer text loses its end. */
  function PadRight(src: Bytes, width: nat): (r: Bytes)
    ensures |r| == width
  {
    if |src| >= width then src[..width] else src + Spaces(width - |src|)
  }

  /** Right-aligned in `width` bytes; a longer text loses its beginning. */
  function PadLeft(src: Bytes, width: nat): (r: Bytes)
    ensures |r| == width
  {
    if |src| >= width then src[|src| - width..] else Spaces(width - |src|) + src
  }

  /** `pad_right`, in place. */
  method PadRightInto(src: Bytes, dst: array<byte>)
    modifies dst
    ensures dst[..] == PadRight(src, dst.Length)
  {
    var n := if |src| < dst.Length then |src| else dst.Length;
    for k := 0 to n
      invariant dst[..k] == src[..k]
    {
      dst[k] := src[k];
    }
    for k := n to dst.Length
      invariant dst[..k] == src[..n] + Spaces(k - n)
    {
      dst[k] := SPACE;
    }
    assert dst[..] == dst[..dst.Length];
  }

  /** `pad_left`, in place. */
  method PadLeftInto(src: Bytes, dst: array<byte>)
    modifies dst
    ensures dst[..] == PadLeft(src, dst.Length)
  {
    var pad := if |src| < dst.Length then dst.Length - |src| else 0;
    var cut := if |src| < dst.Length then 0 else |src| - dst.Length;
    for k := 0 to pad
      invariant dst[..k] == Spaces(k)
    {
      dst[k] := SPACE;
    }
    for k := pad to dst.Length
      invariant dst[..k] == Spaces(pad) + src[cut..cut + k - pad]
    {
      dst[k] := src[cut + k - pad];
    }
    assert dst[..] == dst[..dst.Length];
  }

  function TrimLeft(b: Bytes): Bytes {
    if b != [] && b[0] == SPACE then TrimLeft(b[1..]) else b
  }

  function TrimRight(b: Bytes): Bytes {
    if b != [] && b[|b| - 1] == SPACE then TrimRight(b[..|b| - 1]) else b
  }

  function Trim(b: Bytes): Bytes {
    TrimRight(TrimLeft(b))
  }

  predicate NoEdgeSpaces(b: Bytes) {
    b == [] || (b[0] != SPACE && b[|b| - 1] != SPACE)
  }

  lemma {:induction false} TrimLeftSpaces(n: nat, b: Bytes)
    ensures TrimLeft(Spaces(n) + b) == TrimLeft(b)
  {
    if n == 0 {
      assert Spaces(0) + b == b;
    } else {
      assert (Spaces(n) + b)[1..] == Spaces(n - 1) + b;
      TrimLeftSpaces(n - 1, b);
    }
  }

  lemma {:induction false} TrimRightSpaces(b: Bytes, n: nat)
    ensures TrimRight(b + Spaces(n)) == TrimRight(b)
  {
    if n == 0 {
      assert b + Spaces(0) == b;
    } else {
      var c := b + Spaces(n);
      assert c[..|c| - 1] == b + Spaces(n - 1);
      TrimRightSpaces(b, n - 1);
    }
  }

  /** Trimming gives a text without edge spaces, and is the identity on such texts only. */
  lemma TrimIff(b: Bytes)
    ensures |Trim(b)| <= |b| && NoEdgeSpaces(Trim(b))
    ensures Trim(b) == b <==> NoEdgeSpaces(b)
  {
    TrimLeftClean(b);
    TrimRightClean(TrimLeft(b));
  }

  lemma {:induction false} TrimLeftClean(b: Bytes)
    ensures |TrimLeft(b)| <= |b|
    ensures TrimLeft(b) == [] || TrimLeft(b)[0] != SPACE
    ensures TrimLeft(b) == b <==> b == [] || b[0] != SPACE
  {
    if b != [] && b[0] == SPACE {
      TrimLeftClean(b[1..]);
    }
  }

  lemma {:induction false} TrimRightClean(b: Bytes)
    ensures TrimRight(b) <= b
    ensures TrimRight(b) == [] || TrimRight(b)[|TrimRight(b)| - 1] != SPACE
    ensures TrimRight(b) == b <==> b == [] || b[|b| - 1] != SPACE
  {
    if b != [] && b[|b| - 1] == SPACE {
      TrimRightClean(b[..|b| - 1]);
    }
  }

  /** A padded field reads back exactly when the text fits and has no spaces at its edges. */
  lemma PadTrimIff(text: Bytes, width: nat)
    ensures Trim(PadRight(text, width)) == text <==> |text| <= width && NoEdgeSpaces(text)
    ensures Trim(PadLeft(text, width)) == text <==> |text| <= width && NoEdgeSpaces(text)
  {
    TrimIff(PadRight(text, width));
    TrimIff(PadLeft(text, width));
    TrimIff(text);
    if |text| < width {
      TrimLeftSpaces(width - |text|, text);
      if NoEdgeSpaces(text) {
        TrimPadRight(text, width - |text|);
      }
    } else if |text| == width {
      assert PadRight(text, width) == text == PadLeft(text, width);
    }
  }

  lemma TrimPadRight(text: Bytes, n: nat)
    requires NoEdgeSpaces(text)
    ensures Trim(text + Spaces(n)) == text
  {
    if text == [] {
      assert text + Spaces(n) == Spaces(n) + [];
      TrimLeftSpaces(n, []);
    } else {
      TrimLeftClean(text + Spaces(n));
      TrimRightSpaces(text, n);
    }
  }

  // ----- Decimal numbers -----

  predicate IsDigit(b: byte) {
    ZERO <= b <= ZERO + 9
  }

  /** The digits of a positive number; none for zero. */
  function Digits(n: nat): Bytes {
    if n == 0 then [] else Digits(n / 10) + [ZERO + n % 10]
  }

  function Numeral(n: nat): Bytes {
    if n == 0 then [ZERO] else Digits(n)
  }

  predicate AllDigits(t: Bytes) {
    forall i :: 0 <= i < |t| ==> IsDigit(t[i])
  }

  /** What a string of digits means. */
  function Value(t: Bytes): nat
    requires AllDigits(t)
  {
    if t == [] then 0 else 10 * Value(t[..|t| - 1]) + (t[|t| - 1] - ZERO)
  }

  function Pow10(k: nat): (p: nat)
    ensures p > 0
  {
    if k == 0 then 1 else 10 * Pow10(k - 1)
  }

  lemma {:induction false} DigitsMean(n: nat)
    ensures AllDigits(Digits(n)) && Value(Digits(n)) == n
  {
    if n > 0 {
      DigitsMean(n / 10);
      var d := Digits(n);
      assert d[..|d| - 1] == Digits(n / 10);
    }
  }

  lemma {:induction false} DigitCount(n: nat, k: nat)
    requires n < Pow10(k)
    ensures |Digits(n)| <= k
  {
    if n > 0 {
      assert k > 0 && n / 10 < Pow10(k - 1);
      DigitCount(n / 10, k - 1);
    }
  }

  lemma TwentyDigits()
    ensures U64_MAX < Pow10(20)
  {
    assert Pow10(4) == 10_000;
    assert Pow10(8) == 100_000_000;
    assert Pow10(12) == 1_000_000_000_000;
    assert Pow10(16) == 10_000_000_000_000_000;
    assert Pow10(20) == 100_000_000_000_000_000_000;
  }

  const FIELD_LEN := 20

  /** The 20-byte field that carries a sequence number. */
  function DecimalField(n: nat): (r: Bytes)
    ensures |r| == FIELD_LEN
  {
    PadLeft(Numeral(n), FIELD_LEN)
  }

  /** Every u64 fits its field whole. */
  lemma NumeralFits(n: nat)
    requires n <= U64_MAX
    ensures 0 < |Numeral(n)| <= FIELD_LEN
    ensures AllDigits(Numeral(n)) && Value(Numeral(n)) == n && NoEdgeSpaces(Numeral(n))
  {
    TwentyDigits();
    DigitCount(n, FIELD_LEN);
    DigitsMean(n);
    if n == 0 {
      assert [ZERO][..0] == [];
    }
  }

  lemma QuotientIs(n: nat, d: nat, q: nat)
    requires d > 0 && q * d <= n < q * d + d
    ensures n / d == q
  {
    var other, rest := n / d, n % d;
    assert n == other * d + rest;
    if other > q {
      Multiples(q + 1, other, d);
    } else if other < q {
      Multiples(other + 1, q, d);
    }
  }

  lemma Multiples(a: nat, b: nat, d: nat)
    requires a <= b
    ensures a * d <= b * d
  {
  }

  lemma DivideTwice(n: nat, p: nat)
    requires p > 0
    ensures (n / 10) / p == n / (10 * p)
  {
    var tenth := n / 10;
    var q := tenth / p;
    assert q * p <= tenth < q * p + p;
    assert q * (10 * p) == 10 * (q * p);
    QuotientIs(n, 10 * p, q);
  }

  /** The digit of weight `Pow10(i)`, counted from the end. */
  lemma {:induction false} DigitAt(n: nat, i: nat)
    ensures i < |Digits(n)| <==> Pow10(i) <= n
    ensures i < |Digits(n)| ==> Digits(n)[|Digits(n)| - 1 - i] == ZERO + n / Pow10(i) % 10
    decreases n
  {
    if n > 0 && i > 0 {
      DigitAt(n / 10, i - 1);
      DivideTwice(n, Pow10(i - 1));
    }
  }

  /** Right-aligned and padded with spaces: the units stand in the last byte, and a byte further
      left is the next digit, or a space when the number has no such digit. */
  lemma DecimalPositions(n: nat, i: nat)
    requires n <= U64_MAX && i < 20
    ensures DecimalField(n)[19 - i] == if i == 0 || Pow10(i) <= n then ZERO + n / Pow10(i) % 10 else SPACE
  {
    NumeralFits(n);
    DigitAt(n, i);
    assert Pow10(0) == 1;
  }

  /** The digits, written into a scratch buffer from its end. */
  method WriteDigits(value: nat, buf: array<byte>) returns (i: nat)
    requires value <= U64_MAX && buf.Length == FIELD_LEN
    modifies buf
    ensures i <= FIELD_LEN && buf[i..] == Numeral(value)
  {
    i := buf.Length;
    if value == 0 {
      i := i - 1;
      buf[i] := ZERO;
      return;
    }
    var n: nat := value;
    TwentyDigits();
    assert Digits(0) == [];
    hide Digits, Pow10;
    while n > 0
      invariant i <= FIELD_LEN && n < Pow10(i)
      invariant Digits(value) == Digits(n) + buf[i..]
    {
      OneDigit(n, i);
      ghost var done, digit := buf[i..], ZERO + n % 10;
      i := i - 1;
      buf[i] := ZERO + n % 10;
      n := n / 10;
      assert buf[i..] == [digit] + done;
      Regroup(Digits(n), [digit], done);
    }
  }

  lemma OneDigit(n: nat, k: nat)
    requires 0 < n < Pow10(k)
    ensures k > 0 && n / 10 < Pow10(k - 1) && Digits(n) == Digits(n / 10) + [ZERO + n % 10]
  {
  }

  /** `encode_ascii_u64`: the digits, moved into the space-padded field. */
  method EncodeAsciiU64(value: nat, dst: array<byte>)
    requires value <= U64_MAX && dst.Length == FIELD_LEN
    modifies dst
    ensures dst[..] == DecimalField(value)
  {
    var buf := new byte[20];
    var i := WriteDigits(value, buf);
    ghost var digits := Numeral(value);
    assert digits == buf[i..];
    hide Numeral;
    var pad := dst.Length - (buf.Length - i);
    for k := 0 to pad
      modifies dst
      invariant dst[..k] == Spaces(k)
    {
      dst[k] := SPACE;
    }
    for k := pad to dst.Length
      modifies dst
      invariant dst[..k] == Spaces(pad) + digits[..k - pad]
    {
      dst[k] := buf[i + k - pad];
    }
    assert dst[..] == dst[..dst.Length] && digits[..|digits|] == digits;
  }

  /** Digits only, and no more than a u64. */
  predicate Numeric(t: Bytes) {
    AllDigits(t) && Value(t) <= U64_MAX
  }

  function Scan(t: Bytes, k: nat): Result<nat, byte>
    requires k <= |t| && Numeric(t[..k])
    decreases |t| - k
  {
    if k == |t| then Ok(Value(t[..k]))
    else if Numeric(t[..k + 1]) then Scan(t, k + 1)
    else Err(t[k])
  }

  /** Blank is zero; otherwise the digits count, up to the first byte that spoils the number. */
  function DecodedDecimal(field: Bytes): Result<nat, byte> {
    Scan(Trim(field), 0)
  }

  lemma {:induction false} ScanMeans(t: Bytes, k: nat)
    requires k <= |t| && Numeric(t[..k])
    ensures Numeric(t) ==> Scan(t, k) == Ok(Value(t))
    ensures !Numeric(t) ==> Scan(t, k).Err?
    decreases |t| - k
  {
    assert t[..|t|] == t;
    if k < |t| {
      if Numeric(t[..k + 1]) {
        ScanMeans(t, k + 1);
      } else if Numeric(t) {
        NumericPrefix(t, k + 1);
      }
    }
  }

  lemma {:induction false} NumericPrefix(t: Bytes, k: nat)
    requires k <= |t| && Numeric(t)
    ensures Numeric(t[..k])
  {
    if k == |t| {
      assert t[..k] == t;
    } else {
      NumericPrefix(t[..|t| - 1], k);
      assert t[..|t| - 1][..k] == t[..k];
    }
  }

  /** A field decodes to the number its digits denote. When it denotes no u64, the error names the
      first byte up to which it does not. */
  lemma DecimalMeaning(field: Bytes)
    ensures var t := Trim(field);
            && (Numeric(t) ==> DecodedDecimal(field) == Ok(Value(t)))
            && (!Numeric(t) ==> DecodedDecimal(field).Err?)
    ensures var t := Trim(field);
            forall k :: 0 <= k < |t| && Numeric(t[..k]) && !Numeric(t[..k + 1]) ==> DecodedDecimal(field) == Err(t[k])
  {
    var t := Trim(field);
    ScanMeans(t, 0);
    forall k | 0 <= k < |t| && Numeric(t[..k]) && !Numeric(t[..k + 1])
      ensures DecodedDecimal(field) == Err(t[k])
    {
      ScanReaches(t, 0, k);
    }
  }

  /** The scan gets as far as the front of the text is a number. */
  lemma {:induction false} ScanReaches(t: Bytes, from: nat, k: nat)
    requires from <= k <= |t| && Numeric(t[..from]) && Numeric(t[..k])
    ensures Scan(t, from) == Scan(t, k)
    decreases k - from
  {
    if from < k {
      NumericPrefix(t[..k], from + 1);
      assert t[..k][..from + 1] == t[..from + 1];
      ScanReaches(t, from + 1, k);
    }
  }

  /** Every u64 survives its field. */
  lemma DecimalRoundTrip(n: nat)
    requires n <= U64_MAX
    ensures DecodedDecimal(DecimalField(n)) == Ok(n)
  {
    NumeralFits(n);
    PadTrimIff(Numeral(n), FIELD_LEN);
    DecimalMeaning(DecimalField(n));
  }

  /** `decode_ascii_u64` with its checked multiply and add. */
  method DecodeAsciiU64(src: Bytes) returns (r: Result<nat, byte>)
    ensures r == DecodedDecimal(src)
  {
    var trimmed := Trim(src);
    if trimmed == [] {
      return Ok(0);
    }
    var value: nat := 0;
    for k := 0 to |trimmed|
      invariant Numeric(trimmed[..k]) && value == Value(trimmed[..k])
      invariant Scan(trimmed, 0) == Scan(trimmed, k)
    {
      var b := trimmed[k];
      assert trimmed[..k + 1][..k] == trimmed[..k] && trimmed[..k + 1][k] == b;
      if !IsDigit(b) {
        return Err(b);
      }
      var digit := b - ZERO;
      if value * 10 > U64_MAX || value * 10 + digit > U64_MAX {
        return Err(b);
      }
      value := value * 10 + digit;
    }
    return Ok(value);
  }
}
