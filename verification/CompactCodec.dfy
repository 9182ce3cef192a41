/** SCALE compact integers as the bridge writes and reads them
    (control-plane/internal/blockchainbridge/registrar.go and networkvalidator.go);
    "Length and Compact Encoding", section A.2.2.1 of the Polkadot Protocol Specification. */
module CompactCodec {
  import opened Base
  import opened Bytes

  // ----- the format -----

  /** The low two bits of the first byte: one-byte, two-byte, four-byte or big-integer mode. */
  function Mode(v: nat): (m: nat)
    ensures m <= 3
  {
    if v < 0x40 then 0 else if v < 0x4000 then 1 else if v < 0x4000_0000 then 2 else 3
  }

  function Size(m: nat): (n: nat)
    ensures 1 <= n <= 4
  {
    if m == 0 then 1 else if m == 1 then 2 else 4
  }

  /** Bytes needed for `v`, never fewer than four. */
  function BigLength(v: nat): (n: nat)
    requires v < U64
    ensures 4 <= n <= 8
  {
    if v < U32 then 4
    else if v < 0x100_0000_0000 then 5
    else if v < 0x1_0000_0000_0000 then 6
    else if v < 0x100_0000_0000_0000 then 7
    else 8
  }

  function Big(v: nat): (s: seq<Byte>)
    requires v < U64
    ensures 5 <= |s| <= 9
  {
    [4 * (BigLength(v) - 4) + 3] + LE(v, BigLength(v))
  }

  function Compact(v: nat): (s: seq<Byte>)
    requires v < U64
    ensures 1 <= |s| <= 9
  {
    if Mode(v) < 3 then LE(4 * v + Mode(v), Size(Mode(v))) else Big(v)
  }

  /** The integer the prefix of `data` denotes, unbounded, and its size. */
  function Denoted(data: seq<Byte>): (r: Option<(nat, nat)>) {
    if data == [] then None
    else if data[0] % 4 < 3 then
      var n := Size(data[0] % 4);
      if |data| < n then None else Some((FromLE(data[..n]) / 4, n))
    else
      var n := data[0] / 4 + 4;
      if |data| < 1 + n then None else Some((FromLE(data[1..1 + n]), 1 + n))
  }

  /** What the bridge's reader answers: the denoted integer in a uint64. */
  function Decoded(data: seq<Byte>): (r: Option<(nat, nat)>)
    ensures r.Some? ==> r.value.0 < U64
  {
    match Denoted(data)
    case None => None
    case Some((v, n)) => Some((Truncate(v, U64), n))
  }

  // ----- arithmetic of the format -----

  lemma BigLengthFits(v: nat)
    requires v < U64
    ensures v < Pow256(BigLength(v)) && (BigLength(v) > 4 ==> v >= Pow256(BigLength(v) - 1))
  {
    Pow256Values();
  }

  lemma SizeFits(v: nat)
    requires Mode(v) < 3
    ensures 4 * v + Mode(v) < Pow256(Size(Mode(v)))
  {
    Pow256Values();
  }

  lemma LowBits(s: seq<Byte>)
    requires |s| >= 1
    ensures FromLE(s) % 4 == s[0] % 4
  {
    assert FromLE(s) == s[0] + 4 * (64 * FromLE(s[1..]));
  }

  lemma {:induction false} Pow256Grows(a: nat, b: nat)
    requires a <= b
    ensures Pow256(a) <= Pow256(b)
    decreases b
  {
    if a < b { Pow256Grows(a, b - 1); }
  }

  lemma LengthUnique(v: nat, n: nat)
    requires v < U64 && 4 <= n <= 8 && v < Pow256(n) && (n > 4 ==> v >= Pow256(n - 1))
    ensures n == BigLength(v)
  {
    var k := BigLength(v);
    BigLengthFits(v);
    if n < k { Pow256Grows(n, k - 1); }
    if k < n { Pow256Grows(k, n - 1); }
  }

  lemma LEValues(x: nat)
    ensures LE(x, 2) == [x % 256, x / 0x100 % 256]
    ensures LE(x, 4) == [x % 256, x / 0x100 % 256, x / 0x1_0000 % 256, x / 0x100_0000 % 256]
  {
    var y, z, w := x / 0x100, x / 0x1_0000, x / 0x100_0000;
    assert y / 256 == z && z / 256 == w;
    assert LE(y, 1) == [y % 256] && LE(w, 1) == [w % 256];
    assert LE(z, 2) == [z % 256] + LE(w, 1);
    assert LE(y, 3) == [y % 256] + LE(z, 2);
  }

  /** The values the two- and four-byte modes spell out. */
  lemma FromLEValues(s: seq<Byte>)
    ensures |s| == 1 ==> FromLE(s) == s[0]
    ensures |s| == 2 ==> FromLE(s) == (s[0] as int) + (s[1] as int) * 0x100
    ensures |s| == 4 ==>
        FromLE(s) == (s[0] as int) + (s[1] as int) * 0x100 + (s[2] as int) * 0x1_0000 + (s[3] as int) * 0x100_0000
  {
    if |s| == 2 {
      assert FromLE(s[1..]) == s[1] + 256 * FromLE(s[1..][1..]);
    } else if |s| == 4 {
      FromLEValues(s[2..]);
      assert s[1..][1..] == s[2..];
      assert FromLE(s[1..]) == s[1] + 256 * FromLE(s[2..]);
    }
  }

  lemma {:induction false} ModAdd(a: nat, k: nat)
    ensures (a + U64 * k) % U64 == a % U64
    decreases k
  {
    if k > 0 { ModAdd(a, k - 1); }
  }

  lemma ShiftIn(b: Byte, rest: seq<Byte>)
    ensures FromLE([b] + rest) % U64 == (FromLE(rest) % U64 * 256 + b) % U64
  {
    assert ([b] + rest)[1..] == rest;
    var q, r := FromLE(rest) / U64, FromLE(rest) % U64;
    assert FromLE([b] + rest) == (r * 256 + b) + U64 * (q * 256);
    ModAdd(r * 256 + b, q * 256);
  }

  // ----- the two operations -----

  method CompactUint(value: nat) returns (encoded: seq<Byte>)
    requires value < U64
    ensures encoded == Compact(value)
  {
    if value < 0x40 { return [Truncate(value * 4, 256)]; }
    if value < 0x4000 {
      var shifted := Truncate(value * 4, 0x1_0000) + 1;
      LEValues(shifted);
      return [shifted % 256, shifted / 0x100 % 256];
    }
    if value < 0x4000_0000 {
      var shifted := Truncate(value * 4, U32) + 2;
      LEValues(shifted);
      return [shifted % 256, shifted / 0x100 % 256, shifted / 0x1_0000 % 256, shifted / 0x100_0000 % 256];
    }
    encoded := CompactBig(value);
  }

  method PutUint(value: nat, n: nat) returns (bytes: seq<Byte>)
    ensures |bytes| == n && forall k :: 0 <= k <= n ==> bytes[..k] == LE(value, k)
  {
    bytes := LE(value, n);
    forall k | 0 <= k <= n ensures bytes[..k] == LE(value, k) { LEPrefix(value, n, k); }
  }

  /** The big-integer mode: the little-endian bytes without their zero top ones. */
  method CompactBig(value: nat) returns (encoded: seq<Byte>)
    requires value < U64
    ensures encoded == Big(value)
  {
    var bytes := PutUint(value, 8);
    var length := 8;
    assert value < Pow256(length) by { Pow256Values(); }
    while length > 4 && bytes[length - 1] == 0
      invariant 4 <= length <= 8 && value < Pow256(length)
    {
      TopZero(bytes, value, length);
      length := length - 1;
    }
    if length > 4 { TopZero(bytes, value, length); }
    LengthUnique(value, length);
    return [(length - 4) * 4 + 3] + bytes[..length];
  }

  lemma TopZero(bytes: seq<Byte>, v: nat, n: nat)
    requires 0 < n <= |bytes| && v < Pow256(n) && bytes[..n] == LE(v, n)
    ensures bytes[n - 1] == 0 <==> v < Pow256(n - 1)
  {
    assert bytes[n - 1] == bytes[..n][n - 1];
    LETopZero(v, n);
  }

  method DecodeCompactUint(data: seq<Byte>) returns (r: Option<(nat, nat)>)
    ensures r == Decoded(data)
  {
    if |data| == 0 { return None; }
    var head: int := data[0];
    if head % 4 == 0 {
      FromLEValues(data[..1]);
      return Some((head / 4, 1));
    }
    if head % 4 == 1 {
      if |data| < 2 { return None; }
      var next: int := data[1];
      FromLEValues(data[..2]);
      return Some(((head + next * 0x100) / 4, 2));
    }
    if head % 4 == 2 {
      if |data| < 4 { return None; }
      var b1: int, b2: int, b3: int := data[1], data[2], data[3];
      FromLEValues(data[..4]);
      return Some(((head + b1 * 0x100 + b2 * 0x1_0000 + b3 * 0x100_0000) / 4, 4));
    }
    var length := head / 4 + 4;
    if |data| < 1 + length { return None; }
    var value := ReadDigits(data[1..1 + length]);
    return Some((value, 1 + length));
  }

  /** The shift-and-or loop, most significant byte first, in a uint64. */
  method ReadDigits(digits: seq<Byte>) returns (value: nat)
    ensures value == Truncate(FromLE(digits), U64)
  {
    value := 0;
    var i := |digits| - 1;
    while i >= 0
      invariant -1 <= i < |digits|
      invariant value == FromLE(digits[i + 1..]) % U64
    {
      ShiftIn(digits[i], digits[i + 1..]);
      assert digits[i..] == [digits[i]] + digits[i + 1..];
      value := (value * 256 + digits[i]) % U64;
      i := i - 1;
    }
    assert digits[0..] == digits;
  }

  // ----- what the pair guarantees -----

  ghost predicate Reads(c: seq<Byte>, suffix: seq<Byte>, v: nat) {
    Denoted(c + suffix) == Decoded(c + suffix) == Some((v, |c|))
  }

  lemma ReadsFixed(v: nat, suffix: seq<Byte>)
    requires Mode(v) < 3
    ensures Reads(LE(4 * v + Mode(v), Size(Mode(v))), suffix, v)
  {
    var m, n := Mode(v), Size(Mode(v));
    var c := LE(4 * v + m, n);
    SizeFits(v);
    LERoundTrip(4 * v + m, n);
    LowBits(c);
    ReadsWord(c, m, v, suffix);
  }

  lemma ReadsWord(c: seq<Byte>, m: nat, v: nat, suffix: seq<Byte>)
    requires m < 3 && |c| == Size(m) && c[0] % 4 == m && FromLE(c) == 4 * v + m && v < U64
    ensures Reads(c, suffix, v)
  {
    assert (c + suffix)[..|c|] == c && (c + suffix)[0] == c[0];
  }

  lemma ReadsBig(v: nat, suffix: seq<Byte>)
    requires v < U64
    ensures Reads(Big(v), suffix, v)
  {
    var n := BigLength(v);
    BigLengthFits(v);
    var data := Big(v) + suffix;
    assert data[1..1 + n] == LE(v, n) && data[0] == 4 * (n - 4) + 3;
    LERoundTrip(v, n);
  }

  /** Whatever follows, the reader gets back the value and the exact number of bytes written. */
  lemma RoundTrip(v: nat, suffix: seq<Byte>)
    requires v < U64
    ensures Reads(Compact(v), suffix, v)
  {
    if Mode(v) < 3 { ReadsFixed(v, suffix); } else { ReadsBig(v, suffix); }
  }

  /** No encoding is a prefix of another: a stream of compacts splits in one way only. */
  lemma PrefixFree(a: nat, b: nat, s: seq<Byte>, t: seq<Byte>)
    requires a < U64 && b < U64 && Compact(a) + s == Compact(b) + t
    ensures a == b && s == t
  {
    RoundTrip(a, s);
    RoundTrip(b, t);
    SplitAt(Compact(a), s, Compact(b), t);
  }

  lemma FixedForm(s: seq<Byte>, m: nat)
    requires m < 3 && |s| == Size(m) && s[0] % 4 == m
    ensures var v := FromLE(s) / 4;
            v < U64 && |Compact(v)| <= |s| && (|Compact(v)| == |s| ==> Compact(v) == s)
  {
    var v := FromLE(s) / 4;
    LowBits(s);
    FromLEBound(s);
    Pow256Values();
    FromLERoundTrip(s);
    assert Mode(v) <= m;
  }

  lemma BigForm(s: seq<Byte>, digits: seq<Byte>)
    requires 4 <= |digits| <= 8 && s == [4 * (|digits| - 4) + 3] + digits
    ensures var v := FromLE(digits);
            v < U64 && |Compact(v)| <= |s| && (|Compact(v)| == |s| ==> Compact(v) == s)
  {
    var v, n := FromLE(digits), |digits|;
    FromLEBound(digits);
    assert Pow256(8) == U64 by { Pow256Values(); }
    Pow256Grows(n, 8);
    BigLengthFits(v);
    if BigLength(v) > n { Pow256Grows(n, BigLength(v) - 1); }
    FromLERoundTrip(digits);
  }

  /** The writer's form is the shortest the reader takes for a value, and the only one of its
      size: input was canonical exactly when re-encoding gives a string as long. */
  lemma CanonicalIffShortest(data: seq<Byte>)
    requires Decoded(data).Some?
    ensures var (v, n) := Decoded(data).value;
            |Compact(v)| <= n <= |data| && (n == |Compact(v)| <==> data[..n] == Compact(v))
  {
    var (v, n) := Decoded(data).value;
    if data[0] % 4 < 3 {
      FixedForm(data[..n], data[0] % 4);
    } else if n <= 9 {
      BigForm(data[..n], data[1..n]);
    }
  }

  lemma {:induction false} SmallIffHighZero(s: seq<Byte>, k: nat)
    requires k <= |s|
    ensures FromLE(s) < Pow256(k) <==> forall i :: k <= i < |s| ==> s[i] == 0
    decreases |s|
  {
    if k > 0 {
      SmallIffHighZero(s[1..], k - 1);
      assert FromLE(s) < Pow256(k) <==> FromLE(s[1..]) < Pow256(k - 1);
      assert forall i :: k <= i < |s| ==> s[i] == s[1..][i - 1];
      assert forall i :: k - 1 <= i < |s| - 1 ==> s[1..][i] == s[i + 1];
    } else {
      if s != [] {
        SmallIffHighZero(s[1..], 0);
        assert forall i :: 1 <= i < |s| ==> s[i] == s[1..][i - 1];
      }
    }
  }

  /** The reader never rejects a big integer for being too big: it answers the denoted integer
      exactly when every byte past the eighth is zero, and another one otherwise. */
  lemma ReadsDenotedIff(data: seq<Byte>)
    requires Denoted(data).Some?
    ensures Decoded(data) == Denoted(data) <==>
              (data[0] % 4 == 3 ==> forall i :: 9 <= i < Denoted(data).value.1 ==> data[i] == 0)
  {
    var n := Denoted(data).value.1;
    assert Pow256(8) == U64 by { Pow256Values(); }
    if data[0] % 4 == 3 {
      var digits := data[1..n];
      if |digits| >= 8 {
        SmallIffHighZero(digits, 8);
        assert forall i :: 8 <= i < |digits| ==> digits[i] == data[i + 1];
        assert forall i :: 9 <= i < n ==> data[i] == digits[i - 1];
      } else {
        FromLEBound(digits);
        Pow256Grows(|digits|, 8);
      }
    } else {
      FromLEBound(data[..n]);
      Pow256Grows(n, 8);
    }
  }

  /** Nine digits, the ninth not zero: 2 to the 64th is read as 0. */
  lemma BigIntegerWraps()
    ensures var data: seq<Byte> := [23, 0, 0, 0, 0, 0, 0, 0, 0, 1];
            Decoded(data) == Some((0, 10)) && Denoted(data) == Some((U64, 10))
  {
    var data: seq<Byte> := [23, 0, 0, 0, 0, 0, 0, 0, 0, 1];
    var zeros := data[1..9];
    Pow256Values();
    assert data[1..10] == zeros + [1];
    ZerosThen(zeros, 1);
  }

  lemma {:induction false} ZerosThen(zeros: seq<Byte>, b: Byte)
    requires forall i :: 0 <= i < |zeros| ==> zeros[i] == 0
    ensures FromLE(zeros + [b]) == b * Pow256(|zeros|)
    decreases |zeros|
  {
    if zeros == [] {
      assert zeros + [b] == [b];
    } else {
      ZerosThen(zeros[1..], b);
      assert (zeros + [b])[1..] == zeros[1..] + [b];
    }
  }
}
