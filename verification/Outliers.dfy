/** What one validator's score can do to a closed round, exactly
    (blockchain/pallets/network-validator/src/lib.rs). */
module Outliers {
  import opened Base
  import opened Bytes
  import opened Sorting
  import opened Rounds

  // ----- sums -----

  function SumOf<T>(worth: T -> nat, s: seq<T>): (r: nat) {
    if s == [] then 0 else SumOf(worth, s[..|s| - 1]) + worth(s[|s| - 1])
  }

  lemma {:induction false} SumConcat<T>(worth: T -> nat, a: seq<T>, b: seq<T>)
    ensures SumOf(worth, a + b) == SumOf(worth, a) + SumOf(worth, b)
    decreases |b|
  {
    if b == [] {
      assert a + b == a;
    } else {
      assert (a + b)[..|a + b| - 1] == a + b[..|b| - 1];
      SumConcat(worth, a, b[..|b| - 1]);
    }
  }

  lemma {:induction false} SumAppend<T>(worth: T -> nat, s: seq<T>, x: T)
    ensures SumOf(worth, s + [x]) == SumOf(worth, s) + worth(x)
  {
    assert (s + [x])[..|s|] == s;
  }

  lemma {:induction false} SumRemove<T>(worth: T -> nat, s: seq<T>, i: nat)
    requires i < |s|
    ensures SumOf(worth, s) == SumOf(worth, Remove(s, i)) + worth(s[i])
  {
    assert s == (s[..i] + [s[i]]) + s[i + 1..];
    SumConcat(worth, s[..i] + [s[i]], s[i + 1..]);
    SumAppend(worth, s[..i], s[i]);
    SumConcat(worth, s[..i], s[i + 1..]);
  }

  lemma {:induction false} BagWithout<T>(s: seq<T>, i: nat)
    requires i < |s|
    ensures multiset(Remove(s, i)) == multiset(s) - multiset{s[i]}
  {
    RemoveBag(s, i);
  }

  lemma {:induction false} SumPermuted<T>(worth: T -> nat, a: seq<T>, b: seq<T>)
    requires multiset(a) == multiset(b)
    ensures |a| == |b| && SumOf(worth, a) == SumOf(worth, b)
    decreases |a|
  {
    assert |multiset(a)| == |a| && |multiset(b)| == |b|;
    if a != [] {
      var n := |a| - 1;
      assert a[n] in multiset(b);
      var i :| 0 <= i < |b| && b[i] == a[n];
      BagWithout(a, n);
      BagWithout(b, i);
      assert Remove(a, n) == a[..n];
      SumPermuted(worth, a[..n], Remove(b, i));
      SumRemove(worth, b, i);
    }
  }

  lemma {:induction false} InnerSum<T>(worth: T -> nat, t: seq<T>)
    requires |t| >= 2
    ensures SumOf(worth, t) == worth(t[0]) + SumOf(worth, t[1..|t| - 1]) + worth(t[|t| - 1])
  {
    var n := |t| - 1;
    assert t == t[..n] + [t[n]] && Remove(t[..n], 0) == t[1..n];
    SumAppend(worth, t[..n], t[n]);
    SumRemove(worth, t[..n], 0);
  }

  lemma {:induction false} PairSum<T>(worth: T -> nat, s: seq<T>, i: nat, j: nat)
    requires i < |s| && j < |s| && i != j
    ensures worth(s[i]) + worth(s[j]) <= SumOf(worth, s)
  {
    var k := if j < i then j else j - 1;
    assert Remove(s, i)[k] == s[j];
    SumRemove(worth, s, i);
    SumRemove(worth, Remove(s, i), k);
  }

  // ----- quotients -----

  lemma {:induction false} QuotientStep(n: nat, d: nat)
    requires d > 0
    ensures Quotient(n, d) <= Quotient(n + 1, d) <= Quotient(n, d) + 1
    decreases n
  {
    if n >= d { QuotientStep(n - d, d); }
  }

  lemma {:induction false} QuotientMonotone(m: nat, n: nat, d: nat)
    requires d > 0 && m <= n
    ensures Quotient(m, d) <= Quotient(n, d)
    decreases n - m
  {
    if m < n {
      QuotientStep(m, d);
      QuotientMonotone(m + 1, n, d);
    }
  }

  /** Every quotient between two is that of something between. */
  lemma {:induction false} QuotientReached(low: nat, high: nat, d: nat, v: nat) returns (n: nat)
    requires d > 0 && low <= high && Quotient(low, d) <= v <= Quotient(high, d)
    ensures low <= n <= high && Quotient(n, d) == v
    decreases high - low
  {
    if v == Quotient(low, d) {
      n := low;
    } else {
      QuotientStep(low, d);
      n := QuotientReached(low + 1, high, d, v);
    }
  }

  // ----- scores -----

  function ScoreOf(s: Submission): (r: nat) {
    s.score
  }

  function Sum(subs: seq<Submission>): (r: nat) {
    SumOf(ScoreOf, subs)
  }

  /** What is added up is the sum, but at most 2^32 - 1. */
  lemma {:induction false} TotalSaturates(subs: seq<Submission>)
    ensures Total(subs) == Min(Sum(subs), 0xffff_ffff)
    decreases |subs|
  {
    if subs != [] { TotalSaturates(subs[..|subs| - 1]); }
  }

  /** Short enough not to saturate. */
  lemma {:induction false} TotalIsSum(subs: seq<Submission>)
    requires AllIn(subs, 0, MAX_SCORE) && |subs| * MAX_SCORE < U32
    ensures Total(subs) == Sum(subs) <= |subs| * MAX_SCORE
    decreases |subs|
  {
    if subs != [] { TotalIsSum(subs[..|subs| - 1]); }
  }

  /** The least and the greatest score there are. */
  ghost predicate Extremes(subs: seq<Submission>, lo: nat, hi: nat) {
    && (forall i :: 0 <= i < |subs| ==> lo <= subs[i].score <= hi)
    && (exists i :: 0 <= i < |subs| && subs[i].score == lo)
    && (exists i :: 0 <= i < |subs| && subs[i].score == hi)
  }

  function Clamp(x: nat, lo: nat, hi: nat): (r: nat)
  {
    if x < lo then lo else if x > hi then hi else x
  }

  lemma {:induction false} InPermuted(s: seq<Submission>, t: seq<Submission>, k: nat) returns (i: nat)
    requires multiset(s) == multiset(t) && k < |s|
    ensures i < |t| && t[i] == s[k]
  {
    assert s[k] in multiset(t);
    i :| 0 <= i < |t| && t[i] == s[k];
  }

  /** A sorted permutation starts with the least score and ends with the greatest. */
  lemma {:induction false} SortedEnds(subs: seq<Submission>, t: seq<Submission>, lo: nat, hi: nat)
    requires Extremes(subs, lo, hi) && multiset(t) == multiset(subs) && Sorted(Precedes, t)
    ensures |t| == |subs| > 0 && t[0].score == lo && t[|t| - 1].score == hi && AllIn(t, lo, hi)
  {
    assert |multiset(t)| == |t| && |multiset(subs)| == |subs|;
    forall k | 0 <= k < |t| ensures lo <= t[k].score <= hi { var i := InPermuted(t, subs, k); }
    var i :| 0 <= i < |subs| && subs[i].score == lo;
    var j :| 0 <= j < |subs| && subs[j].score == hi;
    var k := InPermuted(subs, t, i);
    var l := InPermuted(subs, t, j);
    assert k == 0 || Precedes(t[0], t[k]);
    assert l == |t| - 1 || Precedes(t[l], t[|t| - 1]);
  }

  lemma {:induction false} MeanIs(subs: seq<Submission>)
    requires subs != [] && AllIn(subs, 0, MAX_SCORE) && |subs| * MAX_SCORE < U32
    ensures Mean(subs) == Quotient(Sum(subs), |subs|)
  {
    TotalIsSum(subs);
    assert |subs| * (MAX_SCORE + 1) == |subs| * MAX_SCORE + |subs|;
    DivLess(Total(subs), |subs|, MAX_SCORE + 1);
    QuotientIs(Total(subs), |subs|);
  }

  /** With three or more, all but the least and the greatest count. */
  lemma {:induction false} SurvivorsAre(subs: seq<Submission>, lo: nat, hi: nat)
    requires |subs| >= 3 && Extremes(subs, lo, hi)
    ensures var mid := Survivors(subs);
            |mid| == |subs| - 2 && Sum(mid) + lo + hi == Sum(subs) && AllIn(mid, lo, hi)
  {
    var t := Sort(Precedes, subs);
    PrecedesIsOrder();
    SortSorts(Precedes, subs);
    SortedEnds(subs, t, lo, hi);
    SumPermuted(ScoreOf, t, subs);
    InnerSum(ScoreOf, t);
    assert Survivors(subs) == t[1..|t| - 1];
  }

  lemma {:induction false} AggregateIs(subs: seq<Submission>, lo: nat, hi: nat, total: nat, count: nat)
    requires |subs| >= 3 && Extremes(subs, lo, hi) && hi <= MAX_SCORE && |subs| * MAX_SCORE < U32
    requires total + lo + hi == Sum(subs) && count == |subs| - 2
    ensures Aggregate(subs) == Quotient(total, count)
  {
    SurvivorsAre(subs, lo, hi);
    var mid := Survivors(subs);
    MulMonotone(MAX_SCORE, |mid|, |subs|);
    MeanIs(mid);
    assert Sum(mid) == total && |mid| == count;
  }

  /** The others' scores and what they add up to: at least two, with these extremes. */
  ghost predicate Others(others: seq<Submission>, lo: nat, hi: nat) {
    |others| >= 2 && Extremes(others, lo, hi) && hi <= MAX_SCORE && (|others| + 1) * MAX_SCORE < U32
  }

  lemma {:induction false} ExtremesWith(others: seq<Submission>, x: Submission, lo: nat, hi: nat)
    requires Extremes(others, lo, hi)
    ensures Extremes(others + [x], if x.score < lo then x.score else lo, if x.score > hi then x.score else hi)
  {
    var all := others + [x];
    var i :| 0 <= i < |others| && others[i].score == lo;
    var j :| 0 <= j < |others| && others[j].score == hi;
    assert all[i].score == lo && all[j].score == hi && all[|others|] == x;
  }

  lemma {:induction false} SumOfExtremes(others: seq<Submission>, lo: nat, hi: nat)
    requires |others| >= 2 && Extremes(others, lo, hi)
    ensures lo + hi <= Sum(others)
  {
    var i :| 0 <= i < |others| && others[i].score == lo;
    var j :| 0 <= j < |others| && others[j].score == hi;
    PairSum(ScoreOf, others, i, if i != j then j else if i == 0 then 1 else 0);
  }

  /** What one submission does to a round exactly: beside others with extremes `lo` and `hi`
      it counts for its score clamped between them, in a mean with their inner scores. */
  lemma {:induction false} OneScoreExact(others: seq<Submission>, x: Submission, lo: nat, hi: nat)
    requires Others(others, lo, hi) && x.score <= MAX_SCORE
    ensures lo + hi <= Sum(others)
    ensures Aggregate(others + [x]) == Quotient(Sum(others) - lo - hi + Clamp(x.score, lo, hi), |others| - 1)
  {
    var all := others + [x];
    SumOfExtremes(others, lo, hi);
    ExtremesWith(others, x, lo, hi);
    SumAppend(ScoreOf, others, x);
    var least, greatest := if x.score < lo then x.score else lo, if x.score > hi then x.score else hi;
    AggregateIs(all, least, greatest, Sum(others) - lo - hi + Clamp(x.score, lo, hi), |others| - 1);
  }

  // ----- the range of one score -----

  /** What a round makes of one score: clamped, added to the rest, and divided. */
  ghost predicate Clamps(outcome: nat -> nat, rest: nat, lo: nat, hi: nat, d: nat) {
    lo <= hi <= MAX_SCORE && d > 0 && forall score: nat :: score <= MAX_SCORE ==>
        outcome(score) == Quotient(rest + Clamp(score, lo, hi), d)
  }

  lemma {:induction false} ClampsRange(outcome: nat -> nat, rest: nat, lo: nat, hi: nat, d: nat, low: nat, high: nat,
                                       v: nat)
    requires Clamps(outcome, rest, lo, hi, d) && low == rest + lo && high == rest + hi
    ensures (exists score: nat :: score <= MAX_SCORE && outcome(score) == v) <==>
        Quotient(low, d) <= v <= Quotient(high, d)
  {
    if Quotient(low, d) <= v <= Quotient(high, d) {
      var n := QuotientReached(low, high, d, v);
      assert Clamp(n - rest, lo, hi) == n - rest && outcome(n - rest) == v;
    }
    forall score: nat | score <= MAX_SCORE && outcome(score) == v ensures Quotient(low, d) <= v <= Quotient(high, d) {
      QuotientMonotone(low, rest + Clamp(score, lo, hi), d);
      QuotientMonotone(rest + Clamp(score, lo, hi), high, d);
    }
  }

  /** The same for every score there is. */
  ghost predicate Constant(outcome: nat -> nat) {
    forall score: nat :: score <= MAX_SCORE ==> outcome(score) == outcome(0)
  }

  lemma {:induction false} ClampsImmune(outcome: nat -> nat, rest: nat, lo: nat, hi: nat, d: nat, low: nat, high: nat)
    requires Clamps(outcome, rest, lo, hi, d) && low == rest + lo && high == rest + hi
    ensures Constant(outcome) <==> Quotient(low, d) == Quotient(high, d)
  {
    assert outcome(lo) == Quotient(low, d) && outcome(hi) == Quotient(high, d);
    if Quotient(low, d) == Quotient(high, d) {
      forall score: nat | score <= MAX_SCORE ensures outcome(score) == Quotient(low, d) {
        QuotientMonotone(low, rest + Clamp(score, lo, hi), d);
        QuotientMonotone(rest + Clamp(score, lo, hi), high, d);
      }
    }
  }

  /** The round's aggregate as a function of the one score. */
  function Outcome(others: seq<Submission>, x: Submission): (outcome: nat -> nat) {
    score => Aggregate(others + [x.(score := score)])
  }

  lemma {:induction false} OutcomeClamps(others: seq<Submission>, x: Submission, lo: nat, hi: nat)
    requires Others(others, lo, hi)
    ensures lo + hi <= Sum(others) && Clamps(Outcome(others, x), Sum(others) - lo - hi, lo, hi, |others| - 1)
  {
    SumOfExtremes(others, lo, hi);
    var i :| 0 <= i < |others| && others[i].score == lo;
    forall score: nat | score <= MAX_SCORE
      ensures Outcome(others, x)(score) == Quotient(Sum(others) - lo - hi + Clamp(score, lo, hi), |others| - 1)
    {
      OneScoreExact(others, x.(score := score), lo, hi);
    }
  }

  /** As one validator's score varies beside at least two others, the aggregate takes exactly the
      values from the mean without the others' greatest score to the mean without their least. */
  lemma {:induction false} OutlierRange(others: seq<Submission>, x: Submission, lo: nat, hi: nat, v: nat)
    requires Others(others, lo, hi)
    ensures lo + hi <= Sum(others)
    ensures (exists score: nat :: score <= MAX_SCORE && Outcome(others, x)(score) == v)
              <==> Quotient(Sum(others) - hi, |others| - 1) <= v <= Quotient(Sum(others) - lo, |others| - 1)
  {
    OutcomeClamps(others, x, lo, hi);
    ClampsRange(Outcome(others, x), Sum(others) - lo - hi, lo, hi, |others| - 1, Sum(others) - hi, Sum(others) - lo, v);
  }

  /** The aggregate is the same whatever the one score is. */
  ghost predicate Immune(others: seq<Submission>, x: Submission) {
    Constant(Outcome(others, x))
  }

  lemma {:induction false} ImmuneWhen(others: seq<Submission>, x: Submission, lo: nat, hi: nat, low: nat, high: nat,
                                      d: nat)
    requires Others(others, lo, hi) && d == |others| - 1 && low + hi == Sum(others) == high + lo
    ensures Immune(others, x) <==> Quotient(low, d) == Quotient(high, d)
  {
    OutcomeClamps(others, x, lo, hi);
    ClampsImmune(Outcome(others, x), low - lo, lo, hi, d, low, high);
  }

  /** The round is immune to that one score exactly when the two means are the same. */
  lemma {:induction false} ImmuneIff(others: seq<Submission>, x: Submission, lo: nat, hi: nat)
    requires Others(others, lo, hi)
    ensures lo + hi <= Sum(others)
    ensures Immune(others, x) <==> Quotient(Sum(others) - hi, |others| - 1) == Quotient(Sum(others) - lo, |others| - 1)
  {
    SumOfExtremes(others, lo, hi);
    ImmuneWhen(others, x, lo, hi, Sum(others) - hi, Sum(others) - lo, |others| - 1);
  }

  /** Beside two, a third's score decides anything between them. */
  lemma {:induction false} ThirdDecidesBetween(a: Submission, b: Submission, x: Submission, score: nat)
    requires a.score <= b.score <= MAX_SCORE && score <= MAX_SCORE
    ensures Outcome([a, b], x)(score) == Clamp(score, a.score, b.score)
  {
    var others := [a, b];
    assert Extremes(others, a.score, b.score) by { assert others[0] == a && others[1] == b; }
    InnerSum(ScoreOf, others);
    assert others[1..1] == [];
    OutcomeClamps(others, x, a.score, b.score);
    QuotientIs(Clamp(score, a.score, b.score), 1);
  }
}
