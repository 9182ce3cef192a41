/** Shared value types. */
module Base {

  datatype Option<+T> = None | Some(value: T)

  function Min(a: int, b: int): (r: int) {
    if a <= b then a else b
  }

  /** No element occurs twice. */
  ghost predicate Distinct<T>(s: seq<T>) {
    forall i, j :: 0 <= i < j < |s| ==> s[i] != s[j]
  }

  /** Without the element at `i`, the rest in order. */
  function Remove<T>(s: seq<T>, i: nat): (r: seq<T>)
    requires i < |s|
    ensures |r| == |s| - 1
  {
    s[..i] + s[i + 1..]
  }

  lemma RemoveBag<T>(s: seq<T>, i: nat)
    requires i < |s|
    ensures multiset(s) == multiset(Remove(s, i)) + multiset{s[i]}
  {
    assert s == s[..i] + ([s[i]] + s[i + 1..]);
  }

  // ----- machine integers -----

  const INT64_LIMIT: int := 0x8000_0000_0000_0000

  /** Two's-complement wrap-around of a 64-bit signed result. */
  function Wrap64(x: int): (r: int)
    ensures -INT64_LIMIT <= r < INT64_LIMIT
    ensures -INT64_LIMIT <= x < INT64_LIMIT ==> r == x
  {
    if -INT64_LIMIT <= x < INT64_LIMIT then x else (x + INT64_LIMIT) % (2 * INT64_LIMIT) - INT64_LIMIT
  }

  /** Conversion to an unsigned type of `bound` values. */
  function Truncate(x: nat, bound: nat): (r: nat)
    requires bound > 0
    ensures r < bound
  {
    if x < bound then x else x % bound
  }

  // ----- arithmetic -----

  lemma MulMonotone(a: nat, x: int, y: int)
    requires x <= y
    ensures a * x <= a * y
  {
  }

  lemma DivisionBounds(x: nat, a: nat)
    requires a > 0
    ensures a * (x / a) <= x < a * (x / a) + a
  {
  }

  lemma DivAtLeast(a: nat, b: nat, n: nat)
    requires b > 0 && a >= b * n
    ensures a / b >= n
  {
    DivisionBounds(a, b);
    if a / b < n { MulMonotone(b, a / b + 1, n); }
  }

  lemma DivLess(a: nat, b: nat, n: nat)
    requires b > 0 && a < b * n
    ensures a / b < n
  {
    DivisionBounds(a, b);
    if a / b >= n { MulMonotone(b, n, a / b); }
  }

  lemma DivMonotone(a: nat, b: nat, d: nat)
    requires a <= b && d > 0
    ensures a / d <= b / d
  {
    DivisionBounds(a, d);
    DivAtLeast(b, d, a / d);
  }

  /** `n / d` by subtraction, for proofs that should not meet a division. */
  function Quotient(n: nat, d: nat): (r: nat)
    requires d > 0
  {
    if n < d then 0 else 1 + Quotient(n - d, d)
  }

  lemma {:induction false} QuotientIs(n: nat, d: nat)
    requires d > 0
    ensures Quotient(n, d) == n / d
    decreases n
  {
    if n < d {
      DivLess(n, d, 1);
    } else {
      QuotientIs(n - d, d);
      DivisionBounds(n - d, d);
      var q := (n - d) / d;
      assert d * (q + 1) == d * q + d && d * (q + 2) == d * (q + 1) + d;
      DivAtLeast(n, d, q + 1);
      DivLess(n, d, q + 2);
    }
  }

  // ----- runs -----

  /** If each step keeps what is good exactly when it does nothing bad, all is good throughout
      exactly when nothing bad is ever done. */
  lemma {:induction false} Throughout(good: nat -> bool, sound: nat -> bool, bad: nat -> bool, n: nat)
    requires sound(0) && forall k: nat :: k <= n && sound(k) ==> good(k)
    requires forall k: nat :: k < n && sound(k) ==> (good(k + 1) <==> !bad(k)) && (good(k + 1) ==> sound(k + 1))
    ensures (forall k: nat :: k <= n ==> good(k)) <==> (forall k: nat :: k < n ==> !bad(k))
    ensures (forall k: nat :: k <= n ==> good(k)) ==> sound(n)
  {
    if n > 0 { Throughout(good, sound, bad, n - 1); }
  }
}
