/** Challenge committees, drawn without replacement from the active validator set
    (control-plane/internal/blockchainbridge/committee.go and
    blockchain/pallets/network-validator/src/lib.rs).  BLAKE2b is a parameter. */
module Committee {
  import opened Base
  import opened Bytes

  datatype Account = Account(id: seq<Byte>)

  type Hash = seq<Byte> -> seq<Byte>

  function SeedInput(provider: Account, round: nat, nth: nat): (s: seq<Byte>) {
    provider.id + (LE(round, 8) + LE(nth, 4))
  }

  /** The raw draws: the first eight bytes of each seed's hash, little endian. */
  function Draws(blake: Hash, provider: Account, round: nat): (raw: nat -> nat) {
    (nth: nat) => var digest := blake(SeedInput(provider, round, nth)); FromLE(digest[..Min(8, |digest|)])
  }

  lemma SeedDecodes(provider: Account, round: nat, nth: nat)
    requires |provider.id| == 32 && round < U64 && nth < U32
    ensures var s := SeedInput(provider, round, nth);
            |s| == 44 && s[..32] == provider.id && FromLE(s[32..40]) == round && FromLE(s[40..]) == nth
  {
    var s := SeedInput(provider, round, nth);
    assert s[..32] == provider.id && s[32..40] == LE(round, 8) && s[40..] == LE(nth, 4);
    Pow256Values();
    LERoundTrip(round, 8);
    LERoundTrip(nth, 4);
  }

  /** Every draw of every provider and round hashes an input of its own. */
  lemma SeedInjective(provider: Account, round: nat, nth: nat, provider': Account, round': nat, nth': nat)
    requires |provider.id| == |provider'.id| == 32 && round < U64 && round' < U64 && nth < U32 && nth' < U32
    requires SeedInput(provider, round, nth) == SeedInput(provider', round', nth')
    ensures provider == provider' && round == round' && nth == nth'
  {
    SeedDecodes(provider, round, nth);
    SeedDecodes(provider', round', nth');
  }

  /** The remainder of `raw` by `n`, by subtraction. */
  function Pick(raw: nat, n: nat): (i: nat)
    requires n > 0
    ensures i < n
  {
    if raw < n then raw else Pick(raw - n, n)
  }

  lemma {:induction false} PickIsRemainder(raw: nat, n: nat)
    requires n > 0
    ensures Pick(raw, n) == raw % n
    decreases raw
  {
    if raw >= n {
      PickIsRemainder(raw - n, n);
      SameRemainder(raw, n);
    }
  }

  lemma SameRemainder(raw: nat, n: nat)
    requires raw >= n > 0
    ensures raw % n == (raw - n) % n
  {
    var q, r := (raw - n) / n, (raw - n) % n;
    assert raw - n == n * q + r;
    assert raw == n * (q + 1) + r by { assert n * (q + 1) == n * q + n; }
    RemainderUnique(raw, n, q + 1, r);
  }

  lemma RemainderUnique(x: nat, n: nat, q: nat, r: nat)
    requires n > 0 && r < n && x == n * q + r
    ensures x % n == r
  {
    DivisionBounds(x, n);
    if x / n < q { MulMonotone(n, x / n + 1, q); }
    if x / n > q { MulMonotone(n, q + 1, x / n); }
    assert x / n == q;
  }

  /** All but the provider, in order. */
  function Others(active: seq<Account>, provider: Account): (r: seq<Account>) {
    if active == [] then []
    else
      var rest := Others(active[..|active| - 1], provider);
      if active[|active| - 1] != provider then rest + [active[|active| - 1]] else rest
  }

  /** The committee and the candidates left over, by the pallet's remove-and-push. */
  datatype Drawn<T> = Drawn(committee: seq<T>, rest: seq<T>)

  function Draw<T>(raw: nat -> nat, candidates: seq<T>, nth: nat, wanted: nat): (d: Drawn<T>)
    decreases wanted
  {
    if wanted == 0 || candidates == [] then Drawn([], candidates)
    else
      var i := Pick(raw(nth), |candidates|);
      var d := Draw(raw, Remove(candidates, i), nth + 1, wanted - 1);
      Drawn([candidates[i]] + d.committee, d.rest)
  }

  /** The committee for the provider and round whose raw draws are `raw`. */
  function CommitteeOf(raw: nat -> nat, provider: Account, active: seq<Account>, target: nat): (c: seq<Account>) {
    Draw(raw, Others(active, provider), 0, target).committee
  }

  // ----- the in-place loop -----

  /** Takes out one element and shifts everything after it down by one. */
  method RemoveAt<T>(a: array<T>, n: nat, index: nat, ghost left: seq<T>) returns (member: T)
    requires index < n <= a.Length && a[..n] == left
    modifies a
    ensures member == left[index] && a[..n - 1] == Remove(left, index)
  {
    member := a[index];
    var k := index;
    while k < n - 1
      invariant index <= k <= n - 1
      invariant forall j :: 0 <= j < index ==> a[j] == old(a[j])
      invariant forall j :: index <= j < k ==> a[j] == old(a[j + 1])
      invariant forall j :: k <= j < n ==> a[j] == old(a[j])
    {
      a[k] := a[k + 1];
      k := k + 1;
    }
  }

  method Candidates(active: seq<Account>, provider: Account) returns (a: array<Account>, n: nat)
    ensures fresh(a) && n <= a.Length && a[..n] == Others(active, provider)
  {
    a := new Account[|active|](_ => provider);
    n := 0;
    var i := 0;
    while i < |active|
      invariant 0 <= i <= |active| && n <= i && a.Length == |active|
      invariant a[..n] == Others(active[..i], provider)
    {
      assert active[..i + 1][..i] == active[..i];
      if active[i] != provider {
        a[n] := active[i];
        n := n + 1;
      }
      i := i + 1;
    }
    assert active[..|active|] == active;
  }

  method DrawCommittee(blake: Hash, provider: Account, round: nat, active: seq<Account>, target: nat)
    returns (committee: seq<Account>)
    ensures committee == CommitteeOf(Draws(blake, provider, round), provider, active, target)
  {
    var candidates, n := Candidates(active, provider);
    var raw := Draws(blake, provider, round);
    DrawAtMost(raw, candidates[..n], 0, target);
    committee := DrawInPlace(raw, candidates, n, if target > n then n else target);
  }

  method Reduce(raw: nat, n: nat) returns (i: nat)
    requires n > 0
    ensures i == Pick(raw, n)
  {
    i := raw % n;
    PickIsRemainder(raw, n);
  }

  /** Draws `wanted` of the first `n`, shrinking them in place. */
  method DrawInPlace<T>(raw: nat -> nat, candidates: array<T>, size: nat, wanted: nat) returns (committee: seq<T>)
    requires wanted <= size <= candidates.Length
    modifies candidates
    ensures committee == Draw(raw, old(candidates[..size]), 0, wanted).committee
    ensures candidates[..size - wanted] == Draw(raw, old(candidates[..size]), 0, wanted).rest
  {
    var n := size;
    ghost var left := candidates[..n];
    ghost var all := Draw(raw, left, 0, wanted);
    committee := [];
    var nth := 0;
    CompletesStart(raw, left, wanted);
    while nth < wanted
      invariant 0 <= nth <= wanted && n == size - nth && |left| == n
      invariant candidates[..n] == left && Completes(raw, left, nth, wanted - nth, committee, all)
    {
      var index := Reduce(raw(nth), n);
      var member := RemoveAt(candidates, n, index, left);
      CompletesNext(raw, left, nth, wanted - nth, committee, all);
      committee, left := committee + [member], Remove(left, index);
      n := n - 1;
      nth := nth + 1;
    }
    CompletesEnd(raw, left, nth, committee, all);
  }

  /** `before` and what is still to be drawn from `left` make up `all`. */
  ghost predicate Completes<T>(raw: nat -> nat, left: seq<T>, nth: nat, wanted: nat, before: seq<T>, all: Drawn<T>) {
    var d := Draw(raw, left, nth, wanted);
    before + d.committee == all.committee && d.rest == all.rest
  }

  lemma CompletesStart<T>(raw: nat -> nat, left: seq<T>, wanted: nat)
    ensures Completes(raw, left, 0, wanted, [], Draw(raw, left, 0, wanted))
  {
  }

  lemma CompletesEnd<T>(raw: nat -> nat, left: seq<T>, nth: nat, before: seq<T>, all: Drawn<T>)
    requires Completes(raw, left, nth, 0, before, all)
    ensures all == Drawn(before, left)
  {
  }

  lemma {:induction false} CompletesNext<T>(raw: nat -> nat, left: seq<T>, nth: nat, wanted: nat, before: seq<T>,
                                            all: Drawn<T>)
    requires Completes(raw, left, nth, wanted, before, all) && left != [] && wanted > 0
    ensures var i := Pick(raw(nth), |left|);
        Completes(raw, Remove(left, i), nth + 1, wanted - 1, before + [left[i]], all)
  {
    var i := Pick(raw(nth), |left|);
    var d := Draw(raw, Remove(left, i), nth + 1, wanted - 1);
    DrawUnfolds(raw, left, nth, wanted, i, d);
    assert before + ([left[i]] + d.committee) == (before + [left[i]]) + d.committee;
  }

  /** Asking for more than there is draws everyone. */
  lemma {:induction false} DrawAtMost<T>(raw: nat -> nat, candidates: seq<T>, nth: nat, wanted: nat)
    ensures Draw(raw, candidates, nth, wanted) == Draw(raw, candidates, nth, Min(wanted, |candidates|))
    decreases wanted
  {
    if wanted > 0 && candidates != [] {
      DrawAtMost(raw, Remove(candidates, Pick(raw(nth), |candidates|)), nth + 1, wanted - 1);
    }
  }

  method IsAssigned(blake: Hash, validator: Account, provider: Account, round: nat, active: seq<Account>, target: nat)
    returns (member: bool)
    ensures member <==> validator in CommitteeOf(Draws(blake, provider, round), provider, active, target)
  {
    var committee := DrawCommittee(blake, provider, round, active, target);
    var i := 0;
    while i < |committee|
      invariant 0 <= i <= |committee| && validator !in committee[..i]
    {
      if committee[i] == validator { return true; }
      i := i + 1;
    }
    return false;
  }

  // ----- what a draw guarantees -----

  /** Members and leftovers together are `all`. */
  ghost predicate Splits<T>(all: seq<T>, d: Drawn<T>) {
    multiset(d.committee) + multiset(d.rest) == multiset(all)
  }

  lemma SplitsNone<T>(all: seq<T>)
    ensures Splits(all, Drawn([], all))
  {
  }

  lemma SplitsMore<T>(all: seq<T>, i: nat, d: Drawn<T>)
    requires i < |all| && Splits(Remove(all, i), d)
    ensures Splits(all, Drawn([all[i]] + d.committee, d.rest))
  {
    RemoveBag(all, i);
  }

  lemma {:induction false} DrawUnfolds<T>(raw: nat -> nat, candidates: seq<T>, nth: nat, wanted: nat, i: nat,
                                          d: Drawn<T>)
    requires wanted > 0 && candidates != [] && i == Pick(raw(nth), |candidates|)
    requires d == Draw(raw, Remove(candidates, i), nth + 1, wanted - 1)
    ensures Draw(raw, candidates, nth, wanted) == Drawn([candidates[i]] + d.committee, d.rest)
  {
  }

  lemma {:induction false} DrawSizes<T>(raw: nat -> nat, candidates: seq<T>, nth: nat, wanted: nat)
    ensures var d := Draw(raw, candidates, nth, wanted);
            |d.committee| == Min(wanted, |candidates|) && |d.rest| == |candidates| - |d.committee|
    decreases wanted
  {
    if wanted > 0 && candidates != [] {
      DrawSizes(raw, Remove(candidates, Pick(raw(nth), |candidates|)), nth + 1, wanted - 1);
    }
  }

  /** Members and leftovers together are a permutation of the candidates. */
  lemma {:induction false} DrawPermutes<T>(raw: nat -> nat, candidates: seq<T>, nth: nat, wanted: nat)
    ensures Splits(candidates, Draw(raw, candidates, nth, wanted))
    decreases wanted
  {
    if wanted == 0 || candidates == [] {
      SplitsNone(candidates);
    } else {
      var i := Pick(raw(nth), |candidates|);
      var d := Draw(raw, Remove(candidates, i), nth + 1, wanted - 1);
      DrawPermutes(raw, Remove(candidates, i), nth + 1, wanted - 1);
      DrawUnfolds(raw, candidates, nth, wanted, i, d);
      SplitsMore(candidates, i, d);
    }
  }

  /** A smaller committee is a prefix of a larger one for the same provider and round. */
  lemma {:induction false} DrawPrefix<T>(raw: nat -> nat, candidates: seq<T>, nth: nat, fewer: nat, more: nat)
    requires fewer <= more
    ensures Draw(raw, candidates, nth, fewer).committee <= Draw(raw, candidates, nth, more).committee
    decreases fewer
  {
    if fewer > 0 && candidates != [] {
      DrawPrefix(raw, Remove(candidates, Pick(raw(nth), |candidates|)), nth + 1, fewer - 1, more - 1);
    }
  }

  function Without(s: seq<Account>, gone: set<Account>): (r: seq<Account>) {
    if s == [] then [] else (if s[0] in gone then [] else [s[0]]) + Without(s[1..], gone)
  }

  lemma {:induction false} WithoutNone(s: seq<Account>, gone: set<Account>)
    requires forall i :: 0 <= i < |s| ==> s[i] !in gone
    ensures Without(s, gone) == s
    decreases |s|
  {
    if s != [] { WithoutNone(s[1..], gone); }
  }

  lemma {:induction false} WithoutRemoved(s: seq<Account>, i: nat, gone: set<Account>)
    requires i < |s| && Distinct(s)
    ensures Without(s, gone + {s[i]}) == Without(Remove(s, i), gone)
    decreases |s|
  {
    if i == 0 {
      assert Remove(s, 0) == s[1..];
      WithoutSame(s[1..], gone + {s[0]}, gone);
    } else {
      WithoutRemoved(s[1..], i - 1, gone);
      assert Remove(s, i)[1..] == Remove(s[1..], i - 1) && Remove(s, i)[0] == s[0];
      assert s[0] != s[i];
    }
  }

  lemma {:induction false} WithoutSame(s: seq<Account>, a: set<Account>, b: set<Account>)
    requires forall i :: 0 <= i < |s| ==> (s[i] in a <==> s[i] in b)
    ensures Without(s, a) == Without(s, b)
    decreases |s|
  {
    if s != [] {
      assert forall i :: 0 <= i < |s[1..]| ==> s[1..][i] == s[i + 1];
      WithoutSame(s[1..], a, b);
    }
  }

  function Members(s: seq<Account>): (r: set<Account>) {
    set x | x in s
  }

  lemma RemoveDistinct(s: seq<Account>, i: nat)
    requires i < |s| && Distinct(s)
    ensures Distinct(Remove(s, i)) && Members(Remove(s, i)) == Members(s) - {s[i]}
  {
    var r := Remove(s, i);
    assert forall j :: 0 <= j < |r| ==> r[j] == if j < i then s[j] else s[j + 1];
    forall x | x in Members(s) - {s[i]} ensures x in Members(r) {
      var j :| 0 <= j < |s| && s[j] == x;
      assert r[if j < i then j else j - 1] == x;
    }
    forall x | x in Members(r) ensures x in Members(s) && x != s[i] {
      var j :| 0 <= j < |r| && r[j] == x;
      assert s[if j < i then j else j + 1] == x;
    }
  }

  /** Of distinct candidates: distinct members, and leftovers in their old order. */
  lemma {:induction false} DrawDistinct(raw: nat -> nat, candidates: seq<Account>, nth: nat, wanted: nat)
    requires Distinct(candidates)
    ensures var d := Draw(raw, candidates, nth, wanted);
            && Distinct(d.committee) && Members(d.committee) <= Members(candidates)
            && d.rest == Without(candidates, Members(d.committee))
    decreases wanted
  {
    if wanted == 0 || candidates == [] {
      WithoutNone(candidates, Members([]));
    } else {
      var i := Pick(raw(nth), |candidates|);
      var left := Remove(candidates, i);
      RemoveDistinct(candidates, i);
      DrawDistinct(raw, left, nth + 1, wanted - 1);
      var d := Draw(raw, left, nth + 1, wanted - 1);
      var whole := [candidates[i]] + d.committee;
      assert Members(whole) == Members(d.committee) + {candidates[i]};
      WithoutRemoved(candidates, i, Members(d.committee));
      assert candidates[i] !in Members(d.committee);
    }
  }

  lemma {:induction false} OthersAre(active: seq<Account>, provider: Account)
    ensures Members(Others(active, provider)) == Members(active) - {provider}
    ensures Distinct(active) ==> Distinct(Others(active, provider))
    decreases |active|
  {
    if active != [] {
      var n := |active| - 1;
      var rest := active[..n];
      OthersAre(rest, provider);
      assert Members(active) == Members(rest) + {active[n]};
      var o := Others(rest, provider);
      if active[n] != provider {
        assert Members(o + [active[n]]) == Members(o) + {active[n]};
        if Distinct(active) {
          assert active[n] !in Members(rest);
          assert active[n] !in o;
        }
      }
    }
  }

  lemma {:induction false} WithoutSplits(s: seq<Account>, gone: set<Account>)
    ensures forall x :: x in s ==> x in gone || x in Without(s, gone)
    ensures forall x :: x in Without(s, gone) ==> x in s && x !in gone
    decreases |s|
  {
    if s != [] {
      WithoutSplits(s[1..], gone);
      assert s == [s[0]] + s[1..];
    }
  }

  /** Everyone is drawn exactly when no more than `wanted` could be. */
  lemma WholeIff(raw: nat -> nat, candidates: seq<Account>, wanted: nat)
    requires Distinct(candidates)
    ensures Members(Draw(raw, candidates, 0, wanted).committee) == Members(candidates) <==> |candidates| <= wanted
  {
    var d := Draw(raw, candidates, 0, wanted);
    DrawSizes(raw, candidates, 0, wanted);
    DrawDistinct(raw, candidates, 0, wanted);
    WithoutSplits(candidates, Members(d.committee));
    if d.rest != [] { assert d.rest[0] in Members(candidates); }
  }

  /** A committee of a duplicate-free active set: distinct active validators, never the
      provider, as many as asked for or as there are, everybody else left in order; and all
      the other validators are on it exactly when they number at most `target`. */
  lemma CommitteeIsFair(raw: nat -> nat, provider: Account, active: seq<Account>, target: nat)
    requires Distinct(active)
    ensures var c, others := CommitteeOf(raw, provider, active, target), Others(active, provider);
            && Distinct(c) && Members(c) <= Members(active) - {provider}
            && |c| == Min(target, |others|)
            && (Members(c) == Members(active) - {provider} <==> |others| <= target)
            && Draw(raw, others, 0, target).rest == Without(others, Members(c))
  {
    var others := Others(active, provider);
    OthersAre(active, provider);
    DrawSizes(raw, others, 0, target);
    DrawDistinct(raw, others, 0, target);
    WholeIff(raw, others, target);
  }

  // ----- any committees at all can be drawn -----

  function IndexOf(s: seq<Account>, x: Account): (i: nat)
    requires x in s
    ensures i < |s| && s[i] == x
  {
    if s[0] == x then 0 else 1 + IndexOf(s[1..], x)
  }

  /** The index the `n`-th draw must have for `want` to be drawn. */
  function Choice(candidates: seq<Account>, want: seq<Account>, n: nat): (i: nat)
    decreases |want|
  {
    if want == [] || want[0] !in candidates then 0
    else if n == 0 then IndexOf(candidates, want[0])
    else Choice(Remove(candidates, IndexOf(candidates, want[0])), want[1..], n - 1)
  }

  lemma {:induction false} ChoiceBound(candidates: seq<Account>, want: seq<Account>, n: nat)
    ensures Choice(candidates, want, n) <= |candidates|
    decreases |want|
  {
    if want != [] && want[0] in candidates && n > 0 {
      ChoiceBound(Remove(candidates, IndexOf(candidates, want[0])), want[1..], n - 1);
    }
  }

  /** Distinct members of the candidates. */
  ghost predicate Drawable(candidates: seq<Account>, want: seq<Account>) {
    Distinct(candidates) && Distinct(want) && Members(want) <= Members(candidates)
  }

  lemma DrawableRest(candidates: seq<Account>, want: seq<Account>)
    requires Drawable(candidates, want) && want != []
    ensures want[0] in candidates && Drawable(Remove(candidates, IndexOf(candidates, want[0])), want[1..])
  {
    assert want[0] in Members(want);
    RemoveDistinct(candidates, IndexOf(candidates, want[0]));
    forall x | x in Members(want[1..]) ensures x in Members(want) && x != want[0] {
      var i :| 0 <= i < |want[1..]| && want[1..][i] == x;
      assert want[i + 1] == x;
    }
  }

  ghost predicate Chooses(raw: nat -> nat, candidates: seq<Account>, want: seq<Account>, nth: nat) {
    forall k: nat :: k < |want| ==> raw(nth + k) == Choice(candidates, want, k)
  }

  lemma ChoosesRest(raw: nat -> nat, candidates: seq<Account>, want: seq<Account>, nth: nat)
    requires Chooses(raw, candidates, want, nth) && want != [] && want[0] in candidates
    ensures var i := IndexOf(candidates, want[0]);
        raw(nth) == i && Chooses(raw, Remove(candidates, i), want[1..], nth + 1)
  {
    assert raw(nth + 0) == Choice(candidates, want, 0);
    forall k: nat | k < |want[1..]| ensures raw(nth + 1 + k) ==
        Choice(Remove(candidates, IndexOf(candidates, want[0])), want[1..], k) {
      assert raw(nth + (k + 1)) == Choice(candidates, want, k + 1);
    }
  }

  lemma DrawFirst(raw: nat -> nat, candidates: seq<Account>, nth: nat, wanted: nat, i: nat)
    requires wanted > 0 && i < |candidates| && raw(nth) == i
    ensures Draw(raw, candidates, nth, wanted).committee == [candidates[i]]
        + Draw(raw, Remove(candidates, i), nth + 1, wanted - 1).committee
  {
    assert Pick(i, |candidates|) == i;
  }

  lemma {:induction false} ChoiceDraws(raw: nat -> nat, candidates: seq<Account>, want: seq<Account>, nth: nat)
    requires Drawable(candidates, want) && Chooses(raw, candidates, want, nth)
    ensures Draw(raw, candidates, nth, |want|).committee == want
    decreases |want|
  {
    if want != [] {
      DrawableRest(candidates, want);
      var i := IndexOf(candidates, want[0]);
      ChoosesRest(raw, candidates, want, nth);
      DrawFirst(raw, candidates, nth, |want|, i);
      ChoiceDraws(raw, Remove(candidates, i), want[1..], nth + 1);
    }
  }

  type Seeded = (Account, nat, nat) -> nat

  /** The hash whose draws are `f`. */
  function HashFor(f: Seeded): (blake: Hash) {
    (s: seq<Byte>) => if |s| == 44 then LE(f(Account(s[..32]), FromLE(s[32..40]), FromLE(s[40..])), 32) else []
  }

  lemma DrawsAreFree(f: Seeded, provider: Account, round: nat, nth: nat)
    requires |provider.id| == 32 && round < U64 && nth < U32 && f(provider, round, nth) < U64
    ensures Draws(HashFor(f), provider, round)(nth) == f(provider, round, nth)
  {
    SeedDecodes(provider, round, nth);
    var v := f(provider, round, nth);
    assert Account(provider.id) == provider;
    assert HashFor(f)(SeedInput(provider, round, nth)) == LE(v, 32);
    LEPrefix(v, 32, 8);
    Pow256Values();
    LERoundTrip(v, 8);
  }

  /** Whatever committees are asked for, one for every provider and round at once, each of
      distinct active validators other than the provider and of the right size, some hash
      function draws exactly those: draws do not constrain each other. */
  lemma AnyCommittees(active: seq<Account>, target: nat, want: (Account, nat) -> seq<Account>) returns (blake: Hash)
    requires Distinct(active) && |active| < U32
    requires forall p: Account, r: nat ::
        Drawable(Others(active, p), want(p, r)) && |want(p, r)| == Min(target, |Others(active, p)|)
    ensures forall p: Account, r: nat :: |p.id| == 32 && r < U64 ==>
        CommitteeOf(Draws(blake, p, r), p, active, target) == want(p, r)
  {
    var f := (p: Account, r: nat, n: nat) => Choice(Others(active, p), want(p, r), n);
    blake := HashFor(f);
    forall p: Account, r: nat | |p.id| == 32 && r < U64
        ensures CommitteeOf(Draws(blake, p, r), p, active, target) == want(p, r) {
      OneCommittee(f, active, target, p, r, want(p, r));
    }
  }

  lemma {:induction false} OthersFit(active: seq<Account>, provider: Account)
    ensures |Others(active, provider)| <= |active|
    decreases |active|
  {
    if active != [] { OthersFit(active[..|active| - 1], provider); }
  }

  lemma OneCommittee(f: Seeded, active: seq<Account>, target: nat, p: Account, r: nat, want: seq<Account>)
    requires |active| < U32 && |p.id| == 32 && r < U64
    requires Drawable(Others(active, p), want) && |want| == Min(target, |Others(active, p)|)
    requires forall n: nat :: f(p, r, n) == Choice(Others(active, p), want, n)
    ensures CommitteeOf(Draws(HashFor(f), p, r), p, active, target) == want
  {
    var others, raw := Others(active, p), Draws(HashFor(f), p, r);
    OthersFit(active, p);
    forall k: nat | k < |want| ensures raw(0 + k) == Choice(others, want, k) {
      ChoiceBound(others, want, k);
      DrawsAreFree(f, p, r, k);
    }
    ChoiceDraws(raw, others, want, 0);
    DrawAtMost(raw, others, 0, target);
  }
}
