/** Insertion into a list sorted by a total preorder, and what every sort by it agrees on. */
module Sorting {
  import opened Base

  type Order<!T> = (T, T) -> bool

  /** `leads(a, b)`: a does not come after b. */
  ghost predicate IsOrder<T(!new)>(leads: Order<T>) {
    && (forall a, b :: leads(a, b) || leads(b, a))
    && (forall a, b, c :: leads(a, b) && leads(b, c) ==> leads(a, c))
  }

  ghost predicate Sorted<T>(leads: Order<T>, s: seq<T>) {
    forall i, j :: 0 <= i < j < |s| ==> leads(s[i], s[j])
  }

  ghost predicate LeadsAll<T>(leads: Order<T>, x: T, s: seq<T>) {
    forall i :: 0 <= i < |s| ==> leads(x, s[i])
  }

  function Insert<T>(leads: Order<T>, x: T, s: seq<T>): (r: seq<T>)
    ensures |r| == |s| + 1
    decreases |s|
  {
    if s == [] || !leads(s[0], x) then [x] + s else [s[0]] + Insert(leads, x, s[1..])
  }

  function Sort<T>(leads: Order<T>, s: seq<T>): (r: seq<T>)
    ensures |r| == |s|
    decreases |s|
  {
    if s == [] then [] else Insert(leads, s[|s| - 1], Sort(leads, s[..|s| - 1]))
  }

  // ----- one step at a time -----

  lemma InsertCons<T>(leads: Order<T>, x: T, y: T, t: seq<T>)
    ensures Insert(leads, x, [y] + t) == if leads(y, x) then [y] + Insert(leads, x, t) else [x] + ([y] + t)
  {
    assert ([y] + t)[1..] == t;
  }

  lemma SortAppend<T>(leads: Order<T>, s: seq<T>, x: T)
    ensures Sort(leads, s + [x]) == Insert(leads, x, Sort(leads, s))
  {
    assert (s + [x])[..|s|] == s;
  }

  lemma SortedCons<T>(leads: Order<T>, x: T, s: seq<T>)
    ensures Sorted(leads, [x] + s) <==> LeadsAll(leads, x, s) && Sorted(leads, s)
  {
    var t := [x] + s;
    if Sorted(leads, t) {
      forall i | 0 <= i < |s| ensures leads(x, s[i]) { assert leads(t[0], t[i + 1]); }
      forall i, j | 0 <= i < j < |s| ensures leads(s[i], s[j]) { assert leads(t[i + 1], t[j + 1]); }
    }
  }

  // ----- sorting sorts -----

  lemma {:induction false} InsertAdds<T>(leads: Order<T>, x: T, s: seq<T>)
    ensures multiset(Insert(leads, x, s)) == multiset{x} + multiset(s)
    decreases |s|
  {
    if s != [] && leads(s[0], x) {
      InsertAdds(leads, x, s[1..]);
      assert s == [s[0]] + s[1..];
    }
  }

  lemma {:induction false} InsertLed<T>(leads: Order<T>, y: T, x: T, s: seq<T>)
    requires leads(y, x) && LeadsAll(leads, y, s)
    ensures LeadsAll(leads, y, Insert(leads, x, s))
    decreases |s|
  {
    if s != [] && leads(s[0], x) { InsertLed(leads, y, x, s[1..]); }
  }

  lemma {:induction false} InsertSorts<T(!new)>(leads: Order<T>, x: T, s: seq<T>)
    requires IsOrder(leads) && Sorted(leads, s)
    ensures Sorted(leads, Insert(leads, x, s))
    decreases |s|
  {
    if s != [] {
      assert s == [s[0]] + s[1..];
      SortedCons(leads, s[0], s[1..]);
      if leads(s[0], x) {
        InsertSorts(leads, x, s[1..]);
        InsertLed(leads, s[0], x, s[1..]);
        SortedCons(leads, s[0], Insert(leads, x, s[1..]));
      } else {
        assert leads(x, s[0]);
        SortedCons(leads, x, s);
      }
    }
  }

  lemma {:induction false} SortSorts<T(!new)>(leads: Order<T>, s: seq<T>)
    requires IsOrder(leads)
    ensures Sorted(leads, Sort(leads, s)) && multiset(Sort(leads, s)) == multiset(s)
    decreases |s|
  {
    if s != [] {
      var x, rest := s[|s| - 1], s[..|s| - 1];
      SortSorts(leads, rest);
      InsertSorts(leads, x, Sort(leads, rest));
      InsertAdds(leads, x, Sort(leads, rest));
      assert s == rest + [x];
    }
  }

  // ----- one order only -----

  /** Only equal elements lead each other. */
  ghost predicate NoTies<T(!new)>(leads: Order<T>, bag: multiset<T>) {
    forall x, y :: x in bag && y in bag && leads(x, y) && leads(y, x) ==> x == y
  }

  lemma Cancel<T>(x: T, s: seq<T>, t: seq<T>)
    requires multiset([x] + s) == multiset([x] + t)
    ensures multiset(s) == multiset(t)
  {
    assert multiset(s) == multiset([x] + s) - multiset{x} && multiset(t) == multiset([x] + t) - multiset{x};
  }

  lemma SameHead<T(!new)>(leads: Order<T>, s: seq<T>, t: seq<T>)
    requires IsOrder(leads) && Sorted(leads, s) && Sorted(leads, t) && multiset(s) == multiset(t)
        && NoTies(leads, multiset(s))
    requires s != [] && t != []
    ensures s[0] == t[0]
  {
    assert t[0] in multiset(s) && s[0] in multiset(t);
    var i :| 0 <= i < |s| && s[i] == t[0];
    var j :| 0 <= j < |t| && t[j] == s[0];
    assert leads(s[0], t[0]) && leads(t[0], s[0]);
  }

  /** Without ties there is one sorted order: which sort is used does not matter. */
  lemma {:induction false} SortedUnique<T(!new)>(leads: Order<T>, s: seq<T>, t: seq<T>)
    requires IsOrder(leads) && Sorted(leads, s) && Sorted(leads, t) && multiset(s) == multiset(t)
        && NoTies(leads, multiset(s))
    ensures s == t
    decreases |s|
  {
    assert |multiset(s)| == |s| && |multiset(t)| == |t|;
    if s != [] {
      SameHead(leads, s, t);
      assert s == [s[0]] + s[1..] && t == [s[0]] + t[1..];
      Cancel(s[0], s[1..], t[1..]);
      SortedCons(leads, s[0], s[1..]);
      SortedCons(leads, s[0], t[1..]);
      assert forall x :: x in multiset(s[1..]) ==> x in multiset(s);
      SortedUnique(leads, s[1..], t[1..]);
    }
  }

  // ----- distinct elements stay distinct -----

  lemma Twice<T>(s: seq<T>, i: nat, j: nat)
    requires i < j < |s| && s[i] == s[j]
    ensures multiset(s)[s[i]] >= 2
  {
    assert s == s[..i] + ([s[i]] + s[i + 1..]);
    assert s[i + 1..][j - i - 1] == s[i];
  }

  lemma Once<T>(s: seq<T>, i: nat)
    requires Distinct(s) && i < |s|
    ensures multiset(s)[s[i]] == 1
  {
    assert s == s[..i] + ([s[i]] + s[i + 1..]);
    assert s[i] !in s[..i] && s[i] !in s[i + 1..];
  }

  lemma DistinctPermuted<T>(s: seq<T>, t: seq<T>)
    requires Distinct(s) && multiset(s) == multiset(t)
    ensures Distinct(t)
  {
    forall i, j | 0 <= i < j < |t| ensures t[i] != t[j] {
      assert t[i] in multiset(s);
      var k :| 0 <= k < |s| && s[k] == t[i];
      Once(s, k);
      if t[i] == t[j] { Twice(t, i, j); }
    }
  }

  // ----- taking elements out commutes with sorting -----

  function Kept<T>(keep: T -> bool, s: seq<T>): (r: seq<T>) {
    if s == [] then [] else (if keep(s[0]) then [s[0]] else []) + Kept(keep, s[1..])
  }

  lemma KeptCons<T>(keep: T -> bool, y: T, t: seq<T>)
    ensures Kept(keep, [y] + t) == if keep(y) then [y] + Kept(keep, t) else Kept(keep, t)
  {
    assert ([y] + t)[1..] == t;
  }

  lemma {:induction false} KeptAppend<T>(keep: T -> bool, s: seq<T>, x: T)
    ensures Kept(keep, s + [x]) == if keep(x) then Kept(keep, s) + [x] else Kept(keep, s)
    decreases |s|
  {
    if s == [] {
      KeptCons(keep, x, []);
    } else {
      KeptAppend(keep, s[1..], x);
      assert s + [x] == [s[0]] + (s[1..] + [x]) && s == [s[0]] + s[1..];
      KeptCons(keep, s[0], s[1..] + [x]);
      KeptCons(keep, s[0], s[1..]);
    }
  }

  lemma {:induction false} KeptLed<T>(leads: Order<T>, keep: T -> bool, y: T, s: seq<T>)
    requires LeadsAll(leads, y, s)
    ensures LeadsAll(leads, y, Kept(keep, s))
    decreases |s|
  {
    if s != [] { KeptLed(leads, keep, y, s[1..]); }
  }

  lemma {:induction false} KeptInsert<T(!new)>(leads: Order<T>, keep: T -> bool, x: T, s: seq<T>)
    requires IsOrder(leads) && Sorted(leads, s)
    ensures Kept(keep, Insert(leads, x, s)) == if keep(x) then Insert(leads, x, Kept(keep, s)) else Kept(keep, s)
    decreases |s|
  {
    if s == [] {
      KeptCons(keep, x, []);
    } else {
      var y, t := s[0], s[1..];
      assert s == [y] + t;
      SortedCons(leads, y, t);
      InsertCons(leads, x, y, t);
      KeptCons(keep, y, t);
      if leads(y, x) {
        KeptInsert(leads, keep, x, t);
        KeptCons(keep, y, Insert(leads, x, t));
        InsertCons(leads, x, y, Kept(keep, t));
      } else {
        KeptCons(keep, x, s);
        KeptLed(leads, keep, y, t);
        InsertInFront(leads, x, y, Kept(keep, t));
      }
    }
  }

  lemma InsertInFront<T(!new)>(leads: Order<T>, x: T, y: T, t: seq<T>)
    requires IsOrder(leads) && !leads(y, x) && LeadsAll(leads, y, t)
    ensures Insert(leads, x, t) == [x] + t && Insert(leads, x, [y] + t) == [x] + ([y] + t)
  {
    if t != [] { assert leads(y, t[0]); }
  }

  lemma {:induction false} KeptSort<T(!new)>(leads: Order<T>, keep: T -> bool, s: seq<T>)
    requires IsOrder(leads)
    ensures Sort(leads, Kept(keep, s)) == Kept(keep, Sort(leads, s))
    decreases |s|
  {
    if s != [] {
      var x, rest := s[|s| - 1], s[..|s| - 1];
      assert s == rest + [x];
      KeptSort(leads, keep, rest);
      KeptAppend(keep, rest, x);
      SortSorts(leads, rest);
      KeptInsert(leads, keep, x, Sort(leads, rest));
      SortAppend(leads, Kept(keep, rest), x);
    }
  }

  // ----- places -----

  /** How many elements come strictly before `x`. */
  function Ahead<T>(leads: Order<T>, s: seq<T>, x: T): (n: nat) {
    if s == [] then 0 else (if leads(x, s[0]) then 0 else 1) + Ahead(leads, s[1..], x)
  }

  lemma {:induction false} AheadConcat<T>(leads: Order<T>, s: seq<T>, t: seq<T>, x: T)
    ensures Ahead(leads, s + t, x) == Ahead(leads, s, x) + Ahead(leads, t, x)
    decreases |s|
  {
    if s == [] {
      assert s + t == t;
    } else {
      AheadConcat(leads, s[1..], t, x);
      assert (s + t)[1..] == s[1..] + t;
    }
  }

  lemma {:induction false} AheadInsert<T>(leads: Order<T>, y: T, s: seq<T>, x: T)
    ensures Ahead(leads, Insert(leads, y, s), x) == Ahead(leads, s, x) + Ahead(leads, [y], x)
    decreases |s|
  {
    if s == [] || !leads(s[0], y) {
      AheadConcat(leads, [y], s, x);
    } else {
      AheadInsert(leads, y, s[1..], x);
      assert Insert(leads, y, s)[1..] == Insert(leads, y, s[1..]);
    }
  }

  lemma {:induction false} AheadSort<T>(leads: Order<T>, s: seq<T>, x: T)
    ensures Ahead(leads, Sort(leads, s), x) == Ahead(leads, s, x)
    decreases |s|
  {
    if s != [] {
      var y, rest := s[|s| - 1], s[..|s| - 1];
      AheadSort(leads, rest, x);
      AheadInsert(leads, y, Sort(leads, rest), x);
      AheadConcat(leads, rest, [y], x);
      assert s == rest + [y];
    }
  }

  lemma {:induction false} AheadIs<T>(leads: Order<T>, s: seq<T>, x: T, k: nat)
    requires k <= |s| && forall i :: 0 <= i < |s| ==> (leads(x, s[i]) <==> i >= k)
    ensures Ahead(leads, s, x) == k
    decreases |s|
  {
    if s != [] { AheadIs(leads, s[1..], x, if k > 0 then k - 1 else 0); }
  }

  /** Where nothing ties with it, an element's index is the number of elements ahead of it. */
  lemma IndexIsAhead<T(!new)>(leads: Order<T>, s: seq<T>, k: nat)
    requires IsOrder(leads) && Sorted(leads, s) && k < |s|
    requires forall i :: 0 <= i < |s| && i != k ==> !(leads(s[i], s[k]) && leads(s[k], s[i]))
    ensures Ahead(leads, s, s[k]) == k
  {
    assert leads(s[k], s[k]);
    AheadIs(leads, s, s[k], k);
  }
}
