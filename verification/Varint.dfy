/** The variable byte integer of MQTT 3.1.1 section 2.2.3 and MQTT 5.0 section 1.5.5: base-128
    digits, least significant first, the top bit of a byte marking that more digits follow.
    Shifts by 7 and masks with 0x7f are written as division and remainder by 128. */
module Varint {
  import opened Wire

  const MAX_REMAINING_LENGTH := 268435455

  function Pow128(k: nat): (p: nat)
    ensures p >= 1
  {
    if k == 0 then 1 else 0x80 * Pow128(k - 1)
  }

  /** What `WriteUvarint` appends: always the shortest encoding. */
  function Uvarint(x: nat): (s: bytes)
    ensures s != []
  {
    if x < 0x80 then [x] else [x % 0x80 + 0x80] + Uvarint(x / 0x80)
  }

  /** The number of leading bytes that announce a further digit. */
  function Continuations(s: bytes): (n: nat)
    ensures n <= |s|
    ensures forall i :: 0 <= i < n ==> s[i] >= 0x80
    ensures n < |s| ==> s[n] < 0x80
  {
    if s != [] && s[0] >= 0x80 then 1 + Continuations(s[1..]) else 0
  }

  /** The number whose base-128 digits are the low seven bits of the bytes of `s`. */
  function Base128(s: bytes): nat {
    if s == [] then 0 else s[0] % 0x80 + 0x80 * Base128(s[1..])
  }

  /** `DecodeUvarint`: the 64-bit reader gives up after ten bytes; what it accepts is then refused
      if it took more than four. */
  function ParseUvarint(s: bytes): (r: Parsed<nat>)
    ensures r.Ok? ==> IsSuffix(r.rest, s) && 1 <= |s| - |r.rest| <= 4
    ensures r.Ok? ==> r.value == Base128(s[..|s| - |r.rest|])
    ensures r.Err? ==> !r.error.Refused?
  {
    var n := Continuations(s);
    if n >= 10 then Err(VarintOverflow)
    else if n == |s| then Err(if n == 0 then EOF else UnexpectedEOF)
    else if n == 9 && s[n] > 1 then Err(VarintOverflow)
    else if n >= 4 then Err(VarintTooLong)
    else Ok(Base128(s[..n + 1]), s[n + 1..])
  }

  lemma {:induction false} ContinuationsAre(s: bytes, n: nat)
    requires n <= |s|
    requires forall i :: 0 <= i < n ==> s[i] >= 0x80
    requires n < |s| ==> s[n] < 0x80
    ensures Continuations(s) == n
  {
    if n > 0 {
      ContinuationsAre(s[1..], n - 1);
    }
  }

  lemma {:induction false} ContinuationsAtLeast(s: bytes, n: nat)
    requires n <= |s| && forall i :: 0 <= i < n ==> s[i] >= 0x80
    ensures Continuations(s) >= n
  {
    if n > 0 {
      ContinuationsAtLeast(s[1..], n - 1);
    }
  }

  /** Appending one more, most significant, digit. */
  lemma {:induction false} Base128Append(s: bytes, b: byte)
    ensures Base128(s + [b]) == Base128(s) + b % 0x80 * Pow128(|s|)
  {
    if s != [] {
      assert (s + [b])[1..] == s[1..] + [b];
      Base128Append(s[1..], b);
      var d, p := b % 0x80, Pow128(|s| - 1);
      assert 0x80 * (d * p) == d * (0x80 * p);
    }
  }

  lemma {:induction false} Base128Bound(s: bytes)
    ensures Base128(s) < Pow128(|s|)
  {
    if s != [] {
      Base128Bound(s[1..]);
    }
  }

  lemma {:induction false} UvarintDigits(x: nat)
    ensures Base128(Uvarint(x)) == x
    ensures forall i :: 0 <= i < |Uvarint(x)| - 1 ==> Uvarint(x)[i] >= 0x80
    ensures Uvarint(x)[|Uvarint(x)| - 1] < 0x80
  {
    if x >= 0x80 {
      UvarintDigits(x / 0x80);
      assert Uvarint(x)[1..] == Uvarint(x / 0x80);
    }
  }

  /** The byte count is `k` exactly when `x` lies in the k-th power-of-128 band. */
  lemma {:induction false} UvarintLength(x: nat, k: nat)
    requires k >= 1
    ensures |Uvarint(x)| == k <==> (k == 1 || Pow128(k - 1) <= x) && x < Pow128(k)
  {
    if x >= 0x80 && k > 1 {
      UvarintLength(x / 0x80, k - 1);
      var p := Pow128(k - 1);
      assert x / 0x80 < p <==> x < 0x80 * p;
      if k > 2 {
        var q := Pow128(k - 2);
        assert q <= x / 0x80 <==> 0x80 * q <= x;
      }
    } else if x < 0x80 && k > 1 {
      PowMonotone(1, k - 1);
    }
  }

  lemma {:induction false} PowMonotone(j: nat, k: nat)
    requires j <= k
    ensures Pow128(j) <= Pow128(k)
    decreases k
  {
    if j < k {
      PowMonotone(j, k - 1);
    }
  }

  lemma {:induction false} UvarintMonotone(x: nat, y: nat)
    requires x <= y
    ensures |Uvarint(x)| <= |Uvarint(y)|
  {
    if x >= 0x80 {
      UvarintMonotone(x / 0x80, y / 0x80);
    }
  }

  lemma PowValues()
    ensures Pow128(1) == 0x80 && Pow128(2) == 0x4000 && Pow128(3) == 0x20_0000
    ensures Pow128(4) == MAX_REMAINING_LENGTH + 1 && Pow128(5) == 0x8_0000_0000
  {
    assert Pow128(2) == 0x80 * Pow128(1);
    assert Pow128(3) == 0x80 * Pow128(2);
    assert Pow128(4) == 0x80 * Pow128(3);
  }

  /** Round trip of every 32-bit value: up to the maximum it comes back with the input behind it
      untouched, and everything larger is refused. */
  lemma UvarintRoundTrip(x: uint32, t: bytes)
    ensures ParseUvarint(Uvarint(x) + t) ==
            if x <= MAX_REMAINING_LENGTH then Ok(x, t) else Err(VarintTooLong)
  {
    var u, n := Uvarint(x), |Uvarint(x)|;
    UvarintDigits(x);
    ContinuationsAre(u + t, n - 1);
    PowValues();
    UvarintLength(x, n);
    if n > 4 {
      PowMonotone(4, n - 1);
    } else {
      PowMonotone(n, 4);
      assert (u + t)[..n] == u && (u + t)[n..] == t;
    }
  }

  /** Whatever encoding the decoder accepts, minimal or not, its value is in range and the
      canonical encoding of that value is no longer than the bytes consumed. */
  lemma UvarintAccepted(s: bytes)
    requires ParseUvarint(s).Ok?
    ensures ParseUvarint(s).value <= MAX_REMAINING_LENGTH
    ensures |Uvarint(ParseUvarint(s).value)| <= |s| - |ParseUvarint(s).rest|
  {
    var Ok(x, rest) := ParseUvarint(s);
    var n := |s| - |rest|;
    Base128Bound(s[..n]);
    PowValues();
    PowMonotone(n, 4);
    var k := |Uvarint(x)|;
    UvarintLength(x, k);
    if k > n {
      PowMonotone(n, k - 1);
    }
  }

  /** Nothing behind the accepted bytes matters. */
  lemma UvarintPrefix(s: bytes)
    requires ParseUvarint(s).Ok?
    ensures var k := |s| - |ParseUvarint(s).rest|;
      ParseUvarint(s[..k]) == Ok(ParseUvarint(s).value, [])
  {
    var k := |s| - |ParseUvarint(s).rest|;
    ContinuationsAre(s[..k], k - 1);
    assert s[..k][..k] == s[..k];
  }

  /** More input behind an accepted varint changes nothing. */
  lemma UvarintExtend(s: bytes, t: bytes)
    requires ParseUvarint(s).Ok?
    ensures ParseUvarint(s + t) == Ok(ParseUvarint(s).value, ParseUvarint(s).rest + t)
  {
    var k := |s| - |ParseUvarint(s).rest|;
    ContinuationsAre(s + t, k - 1);
    assert (s + t)[..k] == s[..k] && (s + t)[k..] == s[k..] + t;
  }

  /** The accepted bytes are the canonical encoding exactly when they do not end in a redundant
      zero digit. */
  lemma UvarintMinimal(s: bytes)
    requires ParseUvarint(s).Ok?
    ensures var n := |s| - |ParseUvarint(s).rest|;
      s[..n] == Uvarint(ParseUvarint(s).value) <==> n == 1 || s[n - 1] != 0
  {
    var n := |s| - |ParseUvarint(s).rest|;
    MinimalDigits(s[..n]);
  }

  /** Digit strings without a redundant zero are the canonical encodings. */
  lemma MinimalDigits(u: bytes)
    requires u != [] && u[|u| - 1] < 0x80
    requires forall i :: 0 <= i < |u| - 1 ==> u[i] >= 0x80
    ensures u == Uvarint(Base128(u)) <==> |u| == 1 || u[|u| - 1] != 0
  {
    LastDigit(Base128(u));
    if |u| == 1 || u[|u| - 1] != 0 {
      CanonicalDigits(u);
    }
  }

  lemma {:induction false} CanonicalDigits(u: bytes)
    requires u != [] && u[|u| - 1] < 0x80 && (|u| == 1 || u[|u| - 1] != 0)
    requires forall i :: 0 <= i < |u| - 1 ==> u[i] >= 0x80
    ensures u == Uvarint(Base128(u))
  {
    if |u| > 1 {
      hide Uvarint;
      CanonicalDigits(u[1..]);
      PositiveDigits(u[1..]);
      OneMoreDigit(u[0], Base128(u[1..]));
      assert u == [u[0]] + u[1..];
    }
  }

  lemma OneMoreDigit(b: byte, y: nat)
    requires b >= 0x80 && y > 0
    ensures Uvarint(b % 0x80 + 0x80 * y) == [b] + Uvarint(y)
  {
    var x := b % 0x80 + 0x80 * y;
    assert x / 0x80 == y && x % 0x80 == b % 0x80;
  }

  lemma {:induction false} LastDigit(x: nat)
    ensures |Uvarint(x)| > 1 ==> Uvarint(x)[|Uvarint(x)| - 1] != 0
  {
    if x >= 0x80 {
      LastDigit(x / 0x80);
    }
  }

  lemma {:induction false} PositiveDigits(u: bytes)
    requires u != [] && 0 < u[|u| - 1] < 0x80
    ensures Base128(u) > 0
  {
    if |u| > 1 {
      PositiveDigits(u[1..]);
    }
  }
}
