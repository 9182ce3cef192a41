/** Ranking all candidates (control-plane/internal/scheduler/rank.go), and placing a workload
    with it (control-plane/internal/orchestrator/worker.go). */
module Ranking {
  import opened Base
  import opened Bytes
  import opened Scheduler
  import opened Sorting

  // ----- the order of scores -----

  /** Go's string order. */
  predicate LexLess(a: Id, b: Id) {
    b != [] && (a == [] || a[0] < b[0] || (a[0] == b[0] && LexLess(a[1..], b[1..])))
  }

  lemma {:induction false} LexTotal(a: Id, b: Id)
    ensures a == b || LexLess(a, b) || LexLess(b, a)
    decreases |a|
  {
    if a != [] && b != [] && a[0] == b[0] {
      LexTotal(a[1..], b[1..]);
      assert a == [a[0]] + a[1..] && b == [b[0]] + b[1..];
    }
  }

  lemma {:induction false} LexAsymmetric(a: Id, b: Id)
    requires LexLess(a, b)
    ensures a != b && !LexLess(b, a)
    decreases |a|
  {
    if a != [] && a[0] == b[0] { LexAsymmetric(a[1..], b[1..]); }
  }

  lemma {:induction false} LexTransitive(a: Id, b: Id, c: Id)
    requires LexLess(a, b) && LexLess(b, c)
    ensures LexLess(a, c)
    decreases |a|
  {
    if a != [] && a[0] == b[0] == c[0] { LexTransitive(a[1..], b[1..], c[1..]); }
  }

  /** The sort's less function: higher totals first, then smaller ids. */
  predicate Before(a: Score, b: Score) {
    a.total > b.total || (a.total == b.total && LexLess(a.id, b.id))
  }

  predicate Leads(a: Score, b: Score) {
    a.total > b.total || (a.total == b.total && (a.id == b.id || LexLess(a.id, b.id)))
  }

  lemma LeadsIsNotAfter(a: Score, b: Score)
    ensures Leads(a, b) <==> !Before(b, a)
    ensures Leads(a, b) && Leads(b, a) ==> a.id == b.id
  {
    LexTotal(a.id, b.id);
    if LexLess(a.id, b.id) { LexAsymmetric(a.id, b.id); }
    if LexLess(b.id, a.id) { LexAsymmetric(b.id, a.id); }
  }

  lemma LeadsIsOrder()
    ensures IsOrder(Leads)
  {
    forall a, b ensures Leads(a, b) || Leads(b, a) { LexTotal(a.id, b.id); }
    forall a, b, c | Leads(a, b) && Leads(b, c) ensures Leads(a, c) {
      if LexLess(a.id, b.id) && LexLess(b.id, c.id) { LexTransitive(a.id, b.id, c.id); }
    }
  }

  // ----- ranking -----

  datatype Job = Job(ranker: Ranker, weights: Weights, req: Option<Requirements>, cons: Option<Constraints>)

  predicate IsJob(j: Job) {
    Divides(j.ranker, j.cons)
  }

  type Judge = Candidate -> Verdict

  function JudgeOf(j: Job): (judge: Judge)
    requires IsJob(j)
  {
    c => ScoreOne(j.ranker, j.weights, j.req, j.cons, c)
  }

  datatype Exclusion = Exclusion(id: Id, reason: Reason)

  datatype Decision = Decision(ranked: seq<Score>, excluded: seq<Exclusion>, selected: Option<Score>)

  function Scores(judge: Judge, cs: seq<Candidate>): (s: seq<Score>) {
    if cs == [] then []
    else
      var rest, v := Scores(judge, cs[..|cs| - 1]), judge(cs[|cs| - 1]);
      if v.Scored? then rest + [v.score] else rest
  }

  function Exclusions(judge: Judge, cs: seq<Candidate>): (s: seq<Exclusion>) {
    if cs == [] then []
    else
      var rest, v := Exclusions(judge, cs[..|cs| - 1]), judge(cs[|cs| - 1]);
      if v.Excluded? then rest + [Exclusion(cs[|cs| - 1].id, v.reason)] else rest
  }

  /** Filter, then sort. */
  function Decide(judge: Judge, cs: seq<Candidate>): (d: Decision) {
    var ranked := Sort(Leads, Scores(judge, cs));
    Decision(ranked, Exclusions(judge, cs), if ranked == [] then None else Some(ranked[0]))
  }

  method SortByLess(s: seq<Score>) returns (sorted: seq<Score>)
    ensures sorted == Sort(Leads, s)
  {
    sorted := [];
    for i := 0 to |s|
      invariant sorted == Sort(Leads, s[..i])
    {
      assert s[..i + 1] == s[..i] + [s[i]];
      SortAppend(Leads, s[..i], s[i]);
      sorted := Insert(Leads, s[i], sorted);
    }
    assert s[..|s|] == s;
  }

  method Rank(ranker: Ranker, profile: Profile, req: Option<Requirements>, cons: Option<Constraints>,
              candidates: seq<Candidate>)
    returns (decision: Decision)
    requires Divides(ranker, cons)
    ensures decision == Decide(JudgeOf(Job(ranker, WeightsFor(ranker, profile), req, cons)), candidates)
  {
    var judge := JudgeOf(Job(ranker, WeightsFor(ranker, profile), req, cons));
    decision := RankBy(judge, candidates);
  }

  method RankBy(judge: Judge, candidates: seq<Candidate>) returns (decision: Decision)
    ensures decision == Decide(judge, candidates)
  {
    var ranked: seq<Score>, excluded: seq<Exclusion> := [], [];
    for i := 0 to |candidates|
      invariant ranked == Scores(judge, candidates[..i]) && excluded == Exclusions(judge, candidates[..i])
    {
      assert candidates[..i + 1][..i] == candidates[..i];
      match judge(candidates[i])
      case Scored(score) => ranked := ranked + [score];
      case Excluded(reason) => excluded := excluded + [Exclusion(candidates[i].id, reason)];
    }
    assert candidates[..|candidates|] == candidates;
    ranked := SortByLess(ranked);
    decision := Decision(ranked, excluded, if ranked == [] then None else Some(ranked[0]));
  }

  // ----- what a decision guarantees -----

  ghost predicate DistinctIds(cs: seq<Candidate>) {
    forall i, j :: 0 <= i < j < |cs| ==> cs[i].id != cs[j].id
  }

  /** A score carries its candidate's id. */
  ghost predicate Named(judge: Judge) {
    forall c :: judge(c).Scored? ==> judge(c).score.id == c.id
  }

  lemma JobsAreNamed(j: Job)
    requires IsJob(j)
    ensures Named(JudgeOf(j))
  {
  }

  lemma {:induction false} ScoresCount(judge: Judge, cs: seq<Candidate>)
    ensures |Scores(judge, cs)| + |Exclusions(judge, cs)| == |cs|
    decreases |cs|
  {
    if cs != [] { ScoresCount(judge, cs[..|cs| - 1]); }
  }

  lemma {:induction false} ScoreIn(judge: Judge, cs: seq<Candidate>, i: nat)
    requires i < |cs| && judge(cs[i]).Scored?
    ensures judge(cs[i]).score in Scores(judge, cs)
    decreases |cs|
  {
    if i < |cs| - 1 { ScoreIn(judge, cs[..|cs| - 1], i); }
  }

  lemma {:induction false} ScoreFrom(judge: Judge, cs: seq<Candidate>, s: Score) returns (i: nat)
    requires s in Scores(judge, cs)
    ensures i < |cs| && judge(cs[i]) == Scored(s)
    decreases |cs|
  {
    var n := |cs| - 1;
    if s in Scores(judge, cs[..n]) { i := ScoreFrom(judge, cs[..n], s); } else { i := n; }
  }

  lemma {:induction false} ExclusionIn(judge: Judge, cs: seq<Candidate>, i: nat)
    requires i < |cs| && judge(cs[i]).Excluded?
    ensures Exclusion(cs[i].id, judge(cs[i]).reason) in Exclusions(judge, cs)
    decreases |cs|
  {
    if i < |cs| - 1 { ExclusionIn(judge, cs[..|cs| - 1], i); }
  }

  /** No two scores of one id. */
  ghost predicate Keyed(s: seq<Score>) {
    forall i, j :: 0 <= i < j < |s| ==> s[i].id != s[j].id
  }

  lemma {:induction false} ScoresKeyed(judge: Judge, cs: seq<Candidate>)
    requires Named(judge) && DistinctIds(cs)
    ensures Keyed(Scores(judge, cs))
    decreases |cs|
  {
    if cs != [] {
      var n := |cs| - 1;
      var rest := Scores(judge, cs[..n]);
      ScoresKeyed(judge, cs[..n]);
      forall k | 0 <= k < |rest| ensures rest[k].id != cs[n].id {
        var i := ScoreFrom(judge, cs[..n], rest[k]);
      }
    }
  }

  lemma KeyedHasNoTies(s: seq<Score>)
    requires Keyed(s)
    ensures NoTies(Leads, multiset(s))
  {
    forall x: Score, y: Score | x in multiset(s) && y in multiset(s) && Leads(x, y) && Leads(y, x) ensures x == y {
      LeadsIsNotAfter(x, y);
      var i :| 0 <= i < |s| && s[i] == x;
      var k :| 0 <= k < |s| && s[k] == y;
    }
  }

  lemma JudgedIffEligible(j: Job, c: Candidate)
    requires IsJob(j)
    ensures JudgeOf(j)(c).Scored? <==> Eligible(j.ranker, j.req, j.cons, c)
  {
    ScoredIffEligible(j.ranker, j.weights, j.req, j.cons, c);
  }

  /** Every candidate is ranked or excluded with its reason, exactly the scored ones are ranked,
      and the ranking is sorted. */
  lemma RankSplits(judge: Judge, cs: seq<Candidate>)
    ensures var d := Decide(judge, cs);
            && Sorted(Leads, d.ranked) && |d.ranked| + |d.excluded| == |cs|
            && (forall i :: 0 <= i < |cs| && judge(cs[i]).Scored? ==> judge(cs[i]).score in d.ranked)
            && (forall i :: 0 <= i < |cs| && judge(cs[i]).Excluded? ==>
                Exclusion(cs[i].id, judge(cs[i]).reason) in d.excluded)
            && (forall s :: s in d.ranked ==> exists i :: 0 <= i < |cs| && judge(cs[i]) == Scored(s))
  {
    var d := Decide(judge, cs);
    LeadsIsOrder();
    SortSorts(Leads, Scores(judge, cs));
    ScoresCount(judge, cs);
    forall i | 0 <= i < |cs| && judge(cs[i]).Scored? ensures judge(cs[i]).score in d.ranked {
      ScoreIn(judge, cs, i);
      assert judge(cs[i]).score in multiset(d.ranked);
    }
    forall i | 0 <= i < |cs| && judge(cs[i]).Excluded? ensures Exclusion(cs[i].id, judge(cs[i]).reason) in d.excluded {
      ExclusionIn(judge, cs, i);
    }
    forall s | s in d.ranked ensures exists i :: 0 <= i < |cs| && judge(cs[i]) == Scored(s) {
      assert s in multiset(Scores(judge, cs));
      var i := ScoreFrom(judge, cs, s);
      assert judge(cs[i]) == Scored(s);
    }
  }

  /** A provider is selected exactly when one is eligible, and none before it is: it has the
      highest total, and of equal totals the smallest id. */
  lemma SelectedIsBest(j: Job, cs: seq<Candidate>)
    requires IsJob(j)
    ensures var selected := Decide(JudgeOf(j), cs).selected;
            && (selected.Some? <==> exists i :: 0 <= i < |cs| && Eligible(j.ranker, j.req, j.cons, cs[i]))
            && (selected.Some? ==> exists i :: 0 <= i < |cs| && JudgeOf(j)(cs[i]) == Scored(selected.value))
            && (selected.Some? ==> forall i :: 0 <= i < |cs| && JudgeOf(j)(cs[i]).Scored? ==>
                !Before(JudgeOf(j)(cs[i]).score, selected.value))
  {
    var judge := JudgeOf(j);
    var d := Decide(judge, cs);
    RankSplits(judge, cs);
    if d.selected.Some? {
      assert d.ranked[0] in d.ranked;
      var i :| 0 <= i < |cs| && judge(cs[i]) == Scored(d.ranked[0]);
      JudgedIffEligible(j, cs[i]);
      forall k | 0 <= k < |cs| && judge(cs[k]).Scored? ensures !Before(judge(cs[k]).score, d.ranked[0]) {
        var m :| 0 <= m < |d.ranked| && d.ranked[m] == judge(cs[k]).score;
        assert Leads(d.ranked[0], d.ranked[m]);
        LeadsIsNotAfter(d.ranked[0], d.ranked[m]);
      }
    } else {
      forall i | 0 <= i < |cs| ensures !Eligible(j.ranker, j.req, j.cons, cs[i]) { JudgedIffEligible(j, cs[i]); }
    }
  }

  /** However it is sorted, the ranking of distinct providers is the same. */
  lemma RankIsTheSort(judge: Judge, cs: seq<Candidate>, t: seq<Score>)
    requires Named(judge) && DistinctIds(cs) && Sorted(Leads, t) && multiset(t) == multiset(Scores(judge, cs))
    ensures t == Decide(judge, cs).ranked
  {
    LeadsIsOrder();
    SortSorts(Leads, Scores(judge, cs));
    ScoresKeyed(judge, cs);
    KeyedHasNoTies(Scores(judge, cs));
    SortedUnique(Leads, Sort(Leads, Scores(judge, cs)), t);
  }

  // ----- input order does not matter -----

  function BagOf(v: Verdict): (b: multiset<Score>) {
    if v.Scored? then multiset{v.score} else multiset{}
  }

  lemma ScoresLast(judge: Judge, cs: seq<Candidate>, c: Candidate)
    ensures multiset(Scores(judge, cs + [c])) == multiset(Scores(judge, cs)) + BagOf(judge(c))
  {
    assert (cs + [c])[..|cs|] == cs;
  }

  lemma {:induction false} ScoresRemove(judge: Judge, cs: seq<Candidate>, k: nat)
    requires k < |cs|
    ensures multiset(Scores(judge, cs)) == multiset(Scores(judge, Remove(cs, k))) + BagOf(judge(cs[k]))
    decreases |cs|
  {
    var n := |cs| - 1;
    var rest := cs[..n];
    assert cs == rest + [cs[n]];
    ScoresLast(judge, rest, cs[n]);
    if k < n {
      ScoresRemove(judge, rest, k);
      ScoresLast(judge, Remove(rest, k), cs[n]);
      assert Remove(cs, k) == Remove(rest, k) + [cs[n]];
    } else {
      assert Remove(cs, k) == rest;
    }
  }

  lemma {:induction false} ScoresPermuted(judge: Judge, cs: seq<Candidate>, ds: seq<Candidate>)
    requires multiset(cs) == multiset(ds)
    ensures multiset(Scores(judge, cs)) == multiset(Scores(judge, ds))
    decreases |cs|
  {
    assert |multiset(cs)| == |cs| && |multiset(ds)| == |ds|;
    if cs != [] {
      var c := cs[0];
      assert c in multiset(ds);
      var k :| 0 <= k < |ds| && ds[k] == c;
      RemoveBag(cs, 0);
      RemoveBag(ds, k);
      ScoresRemove(judge, cs, 0);
      ScoresRemove(judge, ds, k);
      assert multiset(Remove(cs, 0)) == multiset(cs) - multiset{c}
          && multiset(Remove(ds, k)) == multiset(ds) - multiset{c};
      ScoresPermuted(judge, Remove(cs, 0), Remove(ds, k));
    }
  }

  /** The same providers in any order give the same ranking and the same choice. */
  lemma OrderIndependent(judge: Judge, cs: seq<Candidate>, ds: seq<Candidate>)
    requires Named(judge) && DistinctIds(cs) && multiset(cs) == multiset(ds)
    ensures Decide(judge, cs).ranked == Decide(judge, ds).ranked
        && Decide(judge, cs).selected == Decide(judge, ds).selected
  {
    LeadsIsOrder();
    ScoresPermuted(judge, cs, ds);
    SortSorts(Leads, Scores(judge, ds));
    RankIsTheSort(judge, cs, Sort(Leads, Scores(judge, ds)));
  }

  // ----- asking more gives a subsequence -----

  lemma {:induction false} ScoresRestricted(judge: Judge, judge': Judge, cs: seq<Candidate>, keep: Score -> bool)
    requires forall i :: 0 <= i < |cs| ==>
               if judge(cs[i]).Scored? && keep(judge(cs[i]).score) then judge'(cs[i]) == judge(cs[i])
                   else judge'(cs[i]).Excluded?
    ensures Scores(judge', cs) == Kept(keep, Scores(judge, cs))
    decreases |cs|
  {
    if cs != [] {
      var n := |cs| - 1;
      ScoresRestricted(judge, judge', cs[..n], keep);
      if judge(cs[n]).Scored? { KeptAppend(keep, Scores(judge, cs[..n]), judge(cs[n]).score); }
    }
  }

  function EligibleIds(j: Job, cs: seq<Candidate>): (ids: set<Id>)
    requires IsJob(j)
  {
    set i | 0 <= i < |cs| && Eligible(j.ranker, j.req, j.cons, cs[i]) :: cs[i].id
  }

  function IdIn(ids: set<Id>): (keep: Score -> bool) {
    (s: Score) => s.id in ids
  }

  lemma StricterVerdict(j: Job, j': Job, c: Candidate)
    requires IsJob(j) && IsJob(j')
    requires j'.weights == j.weights && j'.req == j.req && Stricter(j.ranker, j.cons, j'.ranker, j'.cons)
    requires j.req.Some? ==> NoOverflow(j.req.value, c)
    ensures if Eligible(j'.ranker, j'.req, j'.cons, c) then JudgeOf(j)(c).Scored? && JudgeOf(j')(c) == JudgeOf(j)(c)
            else JudgeOf(j')(c).Excluded?
  {
    JudgedIffEligible(j', c);
    if Eligible(j'.ranker, j'.req, j'.cons, c) {
      StricterKeepsScores(j.ranker, j.weights, j.req, j.cons, j'.ranker, j'.cons, c);
      JudgedIffEligible(j, c);
    }
  }

  /** Turning the overlay on, or requiring a zone or a VM, takes candidates out of the ranking
      and changes nothing else: neither a score nor the order of those that stay. */
  lemma StricterIsSubsequence(j: Job, j': Job, cs: seq<Candidate>)
    requires IsJob(j) && IsJob(j') && DistinctIds(cs)
    requires j'.weights == j.weights && j'.req == j.req && Stricter(j.ranker, j.cons, j'.ranker, j'.cons)
    requires j.req.Some? ==> forall i :: 0 <= i < |cs| ==> NoOverflow(j.req.value, cs[i])
    ensures Decide(JudgeOf(j'), cs).ranked == Kept(IdIn(EligibleIds(j', cs)), Decide(JudgeOf(j), cs).ranked)
  {
    var keep := IdIn(EligibleIds(j', cs));
    JobsAreNamed(j);
    forall i | 0 <= i < |cs|
      ensures if JudgeOf(j)(cs[i]).Scored? && keep(JudgeOf(j)(cs[i]).score) then JudgeOf(j')(cs[i]) == JudgeOf(j)(cs[i])
              else JudgeOf(j')(cs[i]).Excluded?
    {
      StricterVerdict(j, j', cs[i]);
    }
    ScoresRestricted(JudgeOf(j), JudgeOf(j'), cs, keep);
    LeadsIsOrder();
    KeptSort(Leads, keep, Scores(JudgeOf(j), cs));
  }

  // ----- a better record never costs a place -----

  lemma {:induction false} AheadMonotone(s: seq<Score>, x: Score, x': Score)
    requires x.id == x'.id && x.total <= x'.total
    ensures Ahead(Leads, s, x') <= Ahead(Leads, s, x)
    decreases |s|
  {
    if s != [] { AheadMonotone(s[1..], x, x'); }
  }

  lemma {:induction false} ScoresConcat(judge: Judge, cs: seq<Candidate>, ds: seq<Candidate>)
    ensures Scores(judge, cs + ds) == Scores(judge, cs) + Scores(judge, ds)
    decreases |ds|
  {
    if ds == [] {
      assert cs + ds == cs;
    } else {
      var n := |ds| - 1;
      ScoresConcat(judge, cs, ds[..n]);
      assert (cs + ds)[..|cs + ds| - 1] == cs + ds[..n];
    }
  }

  lemma ScoresAround(judge: Judge, before: seq<Candidate>, c: Candidate, after: seq<Candidate>)
    requires judge(c).Scored?
    ensures Scores(judge, before + [c] + after) == Scores(judge, before) + [judge(c).score] + Scores(judge, after)
  {
    ScoresConcat(judge, before, [c]);
    ScoresConcat(judge, before + [c], after);
    assert [c][..0] == [];
  }

  /** The sorted scores at two places differ in id if the unsorted ones do. */
  lemma SortedKeyed(s: seq<Score>, t: seq<Score>)
    requires Keyed(s) && multiset(s) == multiset(t)
    ensures forall i, k :: 0 <= i < |t| && 0 <= k < |t| && i != k ==> t[i].id != t[k].id
  {
    DistinctPermuted(s, t);
    forall i, k | 0 <= i < |t| && 0 <= k < |t| && i != k ensures t[i].id != t[k].id {
      assert t[i] in multiset(s) && t[k] in multiset(s);
      var a :| 0 <= a < |s| && s[a] == t[i];
      var b :| 0 <= b < |s| && s[b] == t[k];
    }
  }

  lemma PlaceInSorted(s: seq<Score>, x: Score, k: nat)
    requires Keyed(s) && x in s && k < |s| && Sort(Leads, s)[k].id == x.id
    ensures k == Ahead(Leads, s, x)
  {
    var r := Sort(Leads, s);
    LeadsIsOrder();
    SortSorts(Leads, s);
    SortedKeyed(s, r);
    assert x in multiset(r);
    var m :| 0 <= m < |r| && r[m] == x;
    assert m == k;
    forall i | 0 <= i < |r| && i != k ensures !(Leads(r[i], r[k]) && Leads(r[k], r[i])) { LeadsIsNotAfter(r[i], r[k]); }
    IndexIsAhead(Leads, r, k);
    AheadSort(Leads, s, x);
  }

  lemma PlaceOf(judge: Judge, before: seq<Candidate>, c: Candidate, after: seq<Candidate>, k: nat)
    requires Named(judge) && DistinctIds(before + [c] + after) && judge(c).Scored?
    requires k < |Decide(judge, before + [c] + after).ranked|
        && Decide(judge, before + [c] + after).ranked[k].id == c.id
    ensures k == Ahead(Leads, Scores(judge, before), judge(c).score)
        + Ahead(Leads, Scores(judge, after), judge(c).score)
  {
    var x := judge(c).score;
    var s, t := Scores(judge, before), Scores(judge, after);
    ScoresAround(judge, before, c, after);
    ScoresKeyed(judge, before + [c] + after);
    PlaceInSorted(s + [x] + t, x, k);
    AheadConcat(Leads, s + [x], t, x);
    AheadConcat(Leads, s, [x], x);
    assert Leads(x, x);
  }

  lemma SameIds(before: seq<Candidate>, c: Candidate, c': Candidate, after: seq<Candidate>)
    requires c.id == c'.id && DistinctIds(before + [c] + after)
    ensures DistinctIds(before + [c'] + after)
  {
    var cs, cs' := before + [c] + after, before + [c'] + after;
    assert forall i :: 0 <= i < |cs| ==> cs'[i].id == cs[i].id;
  }

  /** Raising one candidate's reputation in any dimensions never lowers its place. */
  lemma BetterRecordKeepsPlace(j: Job, before: seq<Candidate>, c: Candidate, after: seq<Candidate>, v': Vector,
                               k: nat, k': nat)
    requires IsJob(j) && DistinctIds(before + [c] + after)
    requires Eligible(j.ranker, j.req, j.cons, c) && NoOverflow(j.req.value, c) && Scale(j.weights)
        && 0 < j.ranker.maxScore < U32
    requires c.reputation.Some? && Raised(c.reputation.value, v') && InScale(v', j.ranker.maxScore)
    requires var ranked := Decide(JudgeOf(j), before + [c] + after).ranked; k < |ranked| && ranked[k].id == c.id
    requires var ranked := Decide(JudgeOf(j), before + [c.(reputation := Some(v'))] + after).ranked;
        k' < |ranked| && ranked[k'].id == c.id
    ensures k' <= k
  {
    var judge, c' := JudgeOf(j), c.(reputation := Some(v'));
    BetterRecordHelps(j.ranker, j.weights, j.req, j.cons, c, v');
    JobsAreNamed(j);
    SameIds(before, c, c', after);
    PlaceOf(judge, before, c, after, k);
    PlaceOf(judge, before, c', after, k');
    AheadMonotone(Scores(judge, before), judge(c).score, judge(c').score);
    AheadMonotone(Scores(judge, after), judge(c).score, judge(c').score);
  }

  // ----- placing a workload -----

  /** A provider's advertised resources. */
  datatype Capabilities = Capabilities(cpuAvailable: int, cpuTotal: int, ramAvailable: int, ramTotal: int,
                                       storageAvailable: int, storageTotal: int, bandwidth: Option<Bandwidth>,
                                           zone: Id, vm: bool)

  /** `reputation` is None when there is no record, no source, or the read failed. */
  datatype Provider = Provider(id: Id, endpoint: Id, capabilities: Option<Capabilities>, reputation: Option<Vector>)

  /** The ceilings AssignLease reserves against. */
  datatype Capacity = Capacity(cpu: int, ram: int, storage: int, ingress: int, egress: int)

  function Declared(c: Capabilities): (b: Bandwidth) {
    if c.bandwidth.Some? then c.bandwidth.value else Bandwidth(0, 0)
  }

  function CandidateOf(p: Provider): (c: Candidate) {
    match p.capabilities
    case None => Candidate(p.id, p.endpoint, 0, 0, 0, 0, 0, p.reputation, [], false)
    case Some(k) => Candidate(p.id, p.endpoint, k.cpuAvailable, k.ramAvailable, k.storageAvailable,
                              Declared(k).ingress, Declared(k).egress, p.reputation, k.zone, k.vm)
  }

  function CandidatesOf(ps: seq<Provider>): (cs: seq<Candidate>)
    ensures |cs| == |ps| && forall i :: 0 <= i < |ps| ==> cs[i] == CandidateOf(ps[i])
  {
    seq(|ps|, i requires 0 <= i < |ps| => CandidateOf(ps[i]))
  }

  function CapacityOf(overlay: bool, k: Capabilities): (c: Capacity) {
    Capacity(k.cpuTotal, k.ramTotal, k.storageTotal, Usable(overlay, Declared(k).ingress),
        Usable(overlay, Declared(k).egress))
  }

  function CapacitiesOf(overlay: bool, ps: seq<Provider>): (m: map<Id, Capacity>) {
    if ps == [] then map[]
    else
      var rest, p := CapacitiesOf(overlay, ps[..|ps| - 1]), ps[|ps| - 1];
      if p.capabilities.Some? then rest[p.id := CapacityOf(overlay, p.capabilities.value)] else rest
  }

  /** The worker's side of scheduling: whether there is an overlay, and the ranker. */
  class Scheduling {
    var overlay: bool
    var ranker: Ranker

    ghost predicate Valid()
      reads this
    {
      ranker.overlay == overlay
    }

    /** A new worker has no overlay. */
    constructor (ranker: Ranker)
      requires !ranker.overlay
      ensures Valid() && this.ranker == ranker && !overlay
    {
      this.ranker, overlay := ranker, false;
    }

    method SetOverlay(on: bool)
      modifies this
      ensures Valid() && overlay == on && ranker == old(ranker).(overlay := on)
    {
      overlay := on;
      ranker := ranker.(overlay := on);
    }

    method RankableCandidates(providers: seq<Provider>)
      returns (candidates: seq<Candidate>, capacities: map<Id, Capacity>)
      ensures candidates == CandidatesOf(providers) && capacities == CapacitiesOf(overlay, providers)
    {
      candidates, capacities := [], map[];
      for i := 0 to |providers|
        invariant candidates == CandidatesOf(providers[..i]) && capacities == CapacitiesOf(overlay, providers[..i])
      {
        var p := providers[i];
        assert providers[..i + 1][..i] == providers[..i];
        candidates := candidates + [CandidateOf(p)];
        if p.capabilities.Some? {
          var k := p.capabilities.value;
          var ingress, egress := Declared(k).ingress, Declared(k).egress;
          if overlay { ingress, egress := EffectiveMbps(ingress), EffectiveMbps(egress); }
          capacities := capacities[p.id := Capacity(k.cpuTotal, k.ramTotal, k.storageTotal, ingress, egress)];
        }
      }
      assert providers[..|providers|] == providers;
    }

    /** The choice, and the ceilings it is committed against. */
    method Place(profile: Profile, req: Option<Requirements>, cons: Option<Constraints>, providers: seq<Provider>)
      returns (selected: Option<Score>, ceiling: Option<Capacity>)
      requires Valid() && Divides(ranker, cons) && DistinctIds(CandidatesOf(providers))
      ensures Placed(Job(ranker, WeightsFor(ranker, profile), req, cons), providers, selected, ceiling)
    {
      var candidates, capacities := RankableCandidates(providers);
      var decision := Rank(ranker, profile, req, cons, candidates);
      selected := decision.selected;
      ceiling := if selected.None? then None else Ceiling(capacities, selected.value.id);
      Placing(Job(ranker, WeightsFor(ranker, profile), req, cons), providers);
    }
  }

  function Ceiling(capacities: map<Id, Capacity>, id: Id): (c: Option<Capacity>) {
    if id in capacities then Some(capacities[id]) else None
  }

  /** Of what a provider reports, nothing when it reports nothing. */
  function Reported(p: Provider): (k: Capabilities) {
    if p.capabilities.Some? then p.capabilities.value else Capabilities(0, 0, 0, 0, 0, 0, None, [], false)
  }

  /** What the ledger may reserve on the provider: its totals, and the bandwidth the overlay leaves. */
  ghost predicate IsCeiling(overlay: bool, p: Provider, ceiling: Option<Capacity>) {
    && (ceiling.Some? <==> p.capabilities.Some?)
    && (ceiling.Some? ==>
          var k, c := p.capabilities.value, ceiling.value;
          && c.cpu == k.cpuTotal && c.ram == k.ramTotal && c.storage == k.storageTotal
          && c.ingress == (if k.bandwidth.Some? then Usable(overlay, k.bandwidth.value.ingress) else Usable(overlay, 0))
          && c.egress == (if k.bandwidth.Some? then Usable(overlay, k.bandwidth.value.egress) else Usable(overlay, 0)))
  }

  /** The provider itself, as the directory and the chain report it, can run the workload: it is
      reachable, has the processor, memory, storage and bandwidth free that are asked for, is in
      the zone, runs VMs if one is asked for, and its record reaches the minimum. */
  ghost predicate Suits(j: Job, p: Provider)
    requires IsJob(j)
  {
    var k := Reported(p);
    && |p.endpoint| > 0 && j.req.Some? && Provides(j.ranker.overlay, k, j.req.value)
    && (j.cons.Some? ==>
          && (j.cons.value.zone != [] ==> k.zone == j.cons.value.zone)
          && (j.cons.value.vm ==> k.vm)
          && (j.cons.value.minReputation > 0 ==>
                Reaches(j.ranker.maxScore, j.cons.value.minReputation, Record(j.ranker, p))))
  }

  /** The free amounts reported cover the amounts asked for, what is not asked for aside. */
  ghost predicate Provides(overlay: bool, k: Capabilities, req: Requirements) {
    && (req.cpu > 0 ==> k.cpuAvailable >= req.cpu) && (req.ram > 0 ==> k.ramAvailable >= req.ram)
    && (req.storage > 0 ==> k.storageAvailable >= req.storage)
    && (req.bandwidth.Some? && req.bandwidth.value.ingress > 0 ==>
          Usable(overlay, if k.bandwidth.Some? then k.bandwidth.value.ingress else 0) >= req.bandwidth.value.ingress)
    && (req.bandwidth.Some? && req.bandwidth.value.egress > 0 ==>
          Usable(overlay, if k.bandwidth.Some? then k.bandwidth.value.egress else 0) >= req.bandwidth.value.egress)
  }

  /** The provider's record, the default score throughout if it has none. */
  function Record(r: Ranker, p: Provider): (v: Vector) {
    if p.reputation.Some? then p.reputation.value
    else Vector(r.defaultScore, r.defaultScore, r.defaultScore, r.defaultScore, r.defaultScore)
  }

  lemma {:induction false} SuitsIff(j: Job, p: Provider)
    requires IsJob(j)
    ensures Suits(j, p) <==> Eligible(j.ranker, j.req, j.cons, CandidateOf(p))
  {
  }

  /** Some provider is chosen exactly when one suits; it suits itself, is committed against its own
      totals, and its ceiling covers the bandwidth asked for. */
  ghost predicate Placed(j: Job, ps: seq<Provider>, selected: Option<Score>, ceiling: Option<Capacity>)
    requires IsJob(j)
  {
    && (selected.Some? <==> exists i :: 0 <= i < |ps| && Suits(j, ps[i]))
    && (selected.Some? ==>
          exists i :: 0 <= i < |ps| && ps[i].id == selected.value.id && Suits(j, ps[i])
                      && IsCeiling(j.ranker.overlay, ps[i], ceiling))
    && (selected.Some? && j.req.Some? && j.req.value.bandwidth.Some? ==>
        CoversBandwidth(ceiling, j.req.value.bandwidth.value))
  }

  lemma {:induction false} PlacedNone(j: Job, ps: seq<Provider>)
    requires IsJob(j) && forall i :: 0 <= i < |ps| ==> !Eligible(j.ranker, j.req, j.cons, CandidateOf(ps[i]))
    ensures Placed(j, ps, None, None)
  {
    forall i | 0 <= i < |ps| ensures !Suits(j, ps[i]) { SuitsIff(j, ps[i]); }
  }

  lemma {:induction false} PlacedAt(j: Job, ps: seq<Provider>, score: Score, i: nat)
    requires IsJob(j) && DistinctIds(CandidatesOf(ps)) && i < |ps| && ps[i].id == score.id
    requires Eligible(j.ranker, j.req, j.cons, CandidateOf(ps[i]))
    ensures Placed(j, ps, Some(score), Ceiling(CapacitiesOf(j.ranker.overlay, ps), score.id))
  {
    SuitsIff(j, ps[i]);
    CapacityAt(j.ranker.overlay, ps, i);
    CapacityOnly(j.ranker.overlay, ps, i);
    assert IsCeiling(j.ranker.overlay, ps[i], Ceiling(CapacitiesOf(j.ranker.overlay, ps), score.id));
    if j.req.value.bandwidth.Some? { CeilingCovers(j.ranker, j.req, j.cons, ps, i); }
  }

  lemma {:induction false} Placing(j: Job, ps: seq<Provider>)
    requires IsJob(j) && DistinctIds(CandidatesOf(ps))
    ensures var selected := Decide(JudgeOf(j), CandidatesOf(ps)).selected;
            Placed(j, ps, selected, if selected.None? then None
                else Ceiling(CapacitiesOf(j.ranker.overlay, ps), selected.value.id))
  {
    var cs := CandidatesOf(ps);
    var selected := Decide(JudgeOf(j), cs).selected;
    SelectedIsBest(j, cs);
    if selected.Some? {
      var i :| 0 <= i < |cs| && JudgeOf(j)(cs[i]) == Scored(selected.value);
      JobsAreNamed(j);
      JudgedIffEligible(j, cs[i]);
      PlacedAt(j, ps, selected.value, i);
    } else {
      forall i | 0 <= i < |ps| ensures !Eligible(j.ranker, j.req, j.cons, CandidateOf(ps[i])) {
        assert !Eligible(j.ranker, j.req, j.cons, cs[i]);
      }
      PlacedNone(j, ps);
    }
  }

  /** Every direction with a positive request has a ceiling that covers it. */
  predicate CoversBandwidth(ceiling: Option<Capacity>, asked: Bandwidth) {
    && (asked.ingress > 0 ==> ceiling.Some? && ceiling.value.ingress >= asked.ingress)
    && (asked.egress > 0 ==> ceiling.Some? && ceiling.value.egress >= asked.egress)
  }

  lemma {:induction false} CapacityAt(overlay: bool, ps: seq<Provider>, i: nat)
    requires DistinctIds(CandidatesOf(ps)) && i < |ps|
    ensures ps[i].capabilities.Some? ==>
              ps[i].id in CapacitiesOf(overlay, ps)
                  && CapacitiesOf(overlay, ps)[ps[i].id] == CapacityOf(overlay, ps[i].capabilities.value)
    decreases |ps|
  {
    var n := |ps| - 1;
    if i < n {
      assert CandidatesOf(ps[..n]) == CandidatesOf(ps)[..n];
      CapacityAt(overlay, ps[..n], i);
      assert CandidatesOf(ps)[i].id != CandidatesOf(ps)[n].id;
    }
  }

  /** A provider that reports nothing has no ceiling. */
  lemma {:induction false} CapacityOnly(overlay: bool, ps: seq<Provider>, i: nat)
    requires DistinctIds(CandidatesOf(ps)) && i < |ps|
    ensures ps[i].id in CapacitiesOf(overlay, ps) ==> ps[i].capabilities.Some?
  {
    CapacityFrom(overlay, ps, ps[i].id);
    if ps[i].id in CapacitiesOf(overlay, ps) {
      var k :| 0 <= k < |ps| && ps[k].id == ps[i].id && ps[k].capabilities.Some?;
      assert CandidatesOf(ps)[k].id == CandidatesOf(ps)[i].id;
    }
  }

  lemma {:induction false} CapacityFrom(overlay: bool, ps: seq<Provider>, id: Id)
    ensures id in CapacitiesOf(overlay, ps) ==> exists k :: 0 <= k < |ps| && ps[k].id == id && ps[k].capabilities.Some?
    decreases |ps|
  {
    if ps != [] {
      var n := |ps| - 1;
      CapacityFrom(overlay, ps[..n], id);
      if id in CapacitiesOf(overlay, ps[..n]) {
        var k :| 0 <= k < n && ps[..n][k].id == id && ps[..n][k].capabilities.Some?;
        assert ps[k] == ps[..n][k];
      }
    }
  }

  /** Ranker and ledger see one figure, so an eligible provider's ceiling covers the request. */
  lemma {:induction false} CeilingCovers(r: Ranker, req: Option<Requirements>, cons: Option<Constraints>,
                                         ps: seq<Provider>, i: nat)
    requires Divides(r, cons) && DistinctIds(CandidatesOf(ps)) && i < |ps|
    requires Eligible(r, req, cons, CandidateOf(ps[i])) && req.value.bandwidth.Some?
    ensures CoversBandwidth(Ceiling(CapacitiesOf(r.overlay, ps), ps[i].id), req.value.bandwidth.value)
  {
    CapacityAt(r.overlay, ps, i);
  }
}
