/** Byte strings and fixed-width integers in both byte orders. */
module Bytes {
  type Byte = b: int | 0 <= b < 256

  const U32: nat := 0x1_0000_0000
  const U64: nat := 0x1_0000_0000_0000_0000

  function Pow256(n: nat): (p: nat)
    ensures p > 0
  {
    if n == 0 then 1 else 256 * Pow256(n - 1)
  }

  lemma Pow256Values()
    ensures Pow256(1) == 0x100 && Pow256(2) == 0x1_0000 && Pow256(4) == U32
    ensures Pow256(5) == 0x100_0000_0000 && Pow256(6) == 0x1_0000_0000_0000
    ensures Pow256(7) == 0x100_0000_0000_0000 && Pow256(8) == U64
  {
    assert Pow256(3) == 0x100_0000;
    assert Pow256(4) == 256 * Pow256(3);
    assert Pow256(5) == 256 * Pow256(4);
    assert Pow256(6) == 256 * Pow256(5);
    assert Pow256(7) == 256 * Pow256(6);
    assert Pow256(8) == 256 * Pow256(7);
  }

  // ----- little endian -----

  function LE(v: nat, n: nat): (s: seq<Byte>)
    ensures |s| == n
    decreases v + n
  {
    if n == 0 then [] else [v % 256] + LE(v / 256, n - 1)
  }

  function FromLE(s: seq<Byte>): (v: nat) {
    if s == [] then 0 else s[0] + 256 * FromLE(s[1..])
  }

  lemma {:induction false} FromLEBound(s: seq<Byte>)
    ensures FromLE(s) < Pow256(|s|)
    decreases |s|
  {
    if s != [] { FromLEBound(s[1..]); }
  }

  lemma {:induction false} LERoundTrip(v: nat, n: nat)
    requires v < Pow256(n)
    ensures FromLE(LE(v, n)) == v
    decreases n
  {
    if n > 0 {
      assert v / 256 < Pow256(n - 1);
      LERoundTrip(v / 256, n - 1);
      assert LE(v, n)[1..] == LE(v / 256, n - 1);
    }
  }

  lemma {:induction false} FromLERoundTrip(s: seq<Byte>)
    ensures LE(FromLE(s), |s|) == s
    decreases |s|
  {
    if s != [] {
      FromLERoundTrip(s[1..]);
      var v := FromLE(s);
      assert v % 256 == s[0] && v / 256 == FromLE(s[1..]);
      assert s == [s[0]] + s[1..];
    }
  }

  lemma {:induction false} LEPrefix(v: nat, n: nat, k: nat)
    requires k <= n
    ensures LE(v, n)[..k] == LE(v, k)
    decreases n
  {
    if k > 0 {
      LEPrefix(v / 256, n - 1, k - 1);
      assert LE(v, n)[..k] == [v % 256] + LE(v / 256, n - 1)[..k - 1];
    }
  }

  /** Dropping a zero top byte does not change the value. */
  lemma {:induction false} LETopZero(v: nat, n: nat)
    requires n > 0 && v < Pow256(n)
    ensures LE(v, n)[n - 1] == 0 <==> v < Pow256(n - 1)
    decreases n
  {
    if n > 1 {
      assert v / 256 < Pow256(n - 1);
      LETopZero(v / 256, n - 1);
      assert LE(v, n)[n - 1] == LE(v / 256, n - 1)[n - 2];
      assert v / 256 < Pow256(n - 2) <==> v < Pow256(n - 1);
    }
  }

  // ----- big endian -----

  function BE(v: nat, n: nat): (s: seq<Byte>)
    ensures |s| == n
    decreases v + n
  {
    if n == 0 then [] else BE(v / 256, n - 1) + [v % 256]
  }

  /** The number bytes denote, most significant first. */
  function FromBE(s: seq<Byte>): (v: nat) {
    if s == [] then 0 else 256 * FromBE(s[..|s| - 1]) + s[|s| - 1]
  }

  lemma {:induction false} BERoundTrip(v: nat, n: nat)
    requires v < Pow256(n)
    ensures FromBE(BE(v, n)) == v
    decreases n
  {
    if n > 0 {
      assert BE(v, n)[..n - 1] == BE(v / 256, n - 1) && BE(v, n)[n - 1] == v % 256;
      assert v / 256 < Pow256(n - 1);
      BERoundTrip(v / 256, n - 1);
    }
  }

  lemma {:induction false} BEInjective(a: nat, b: nat, n: nat)
    requires a < Pow256(n) && b < Pow256(n) && BE(a, n) == BE(b, n)
    ensures a == b
    decreases n
  {
    if n > 0 {
      assert BE(a, n)[..n - 1] == BE(a / 256, n - 1) && BE(b, n)[..n - 1] == BE(b / 256, n - 1);
      assert BE(a, n)[n - 1] == a % 256 && BE(b, n)[n - 1] == b % 256;
      assert a / 256 < Pow256(n - 1) && b / 256 < Pow256(n - 1);
      BEInjective(a / 256, b / 256, n - 1);
    }
  }

  /** Equal concatenations with equally long heads have equal parts. */
  lemma SplitAt<T>(a: seq<T>, b: seq<T>, c: seq<T>, d: seq<T>)
    requires a + b == c + d && |a| == |c|
    ensures a == c && b == d
  {
    assert a == (a + b)[..|a|] && c == (c + d)[..|c|];
    assert b == (a + b)[|a|..] && d == (c + d)[|c|..];
  }
}
