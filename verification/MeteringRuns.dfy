/** The ledger under every interleaving of submissions. */
module MeteringRuns {
  import opened Base
  import opened Bytes
  import opened Price
  import opened Signing
  import opened Metering

  /** The hash and the uuid reader, the pricing rule and the exact worth of usage. */
  datatype Rules = Rules(f: Primitives, price: Usage -> Option<Charge>, worth: Usage -> nat)

  /** A charge, when there is one, is the exact worth. */
  ghost predicate Fair(m: Rules) {
    forall u :: m.price(u).Some? ==> m.price(u).value.total == m.worth(u)
  }

  /** The rules RecordUsage applies: the current schedule, exactly. */
  function Current(f: Primitives): (m: Rules) {
    Rules(f, u => ComputeCharge(SCHEDULES[CURRENT_VERSION], u), u => ExactTotal(SCHEDULES[CURRENT_VERSION], u))
  }

  lemma CurrentIsFair(f: Primitives)
    ensures Fair(Current(f))
  {
    forall u | Current(f).price(u).Some? ensures Current(f).price(u).value.total == Current(f).worth(u) {
      ChargeExact(SCHEDULES[CURRENT_VERSION], u);
    }
  }

  // ----- what the tables always say -----

  predicate SameStream(a: Evidence, b: Evidence) {
    a.provider == b.provider && a.workload == b.workload
  }

  /** A request as RecordUsage builds it. */
  ghost predicate WellFormed(m: Rules, q: Request) {
    && q.summary.sequence > 0 && q.summary.schema == 1
    && q.hash == m.f.hash(SignedBytes(q.summary))
    && m.f.uuid(q.summary.workload) == Some(q.workload)
    && m.price(q.summary.usage) == Some(q.charge)
  }

  /** The rules agree with RecordUsage on what it lets through. */
  ghost predicate Governs(m: Rules) {
    forall sub :: Decide(m.f, sub).Proceed? ==> WellFormed(m, Decide(m.f, sub).request)
  }

  lemma CurrentGoverns(f: Primitives)
    ensures Governs(Current(f))
  {
  }

  /** Line i bills evidence i at its exact charge, under its own hash. */
  ghost predicate Billed(m: Rules, e: Evidence, l: Line, i: nat) {
    && l.evidence == i && l.provider == e.provider && l.workload == e.workload && l.lease == e.lease
    && l.hash == e.hash == m.f.hash(SignedBytes(e.summary))
    && m.f.uuid(e.summary.workload) == Some(e.workload)
    && e.summary.sequence > 0 && e.summary.schema == 1
    && m.price(e.summary.usage) == Some(l.charge)
  }

  /** The sequence of the stream's latest evidence, 0 if it has none. */
  function LastSequence(rows: seq<Evidence>, provider: Id, workload: Id): (r: nat) {
    if rows == [] then 0
    else
      var e := rows[|rows| - 1];
      if e.provider == provider && e.workload == workload then e.summary.sequence
      else LastSequence(rows[..|rows| - 1], provider, workload)
  }

  ghost predicate AllBilled(m: Rules, rows: seq<Evidence>, lines: seq<Line>) {
    && |rows| == |lines|
    && forall i :: 0 <= i < |rows| ==> Billed(m, rows[i], lines[i], i)
  }

  /** Within a stream, accepted sequences strictly increase. */
  ghost predicate Increasing(rows: seq<Evidence>) {
    forall i, j :: 0 <= i < j < |rows| && SameStream(rows[i], rows[j]) ==>
        rows[i].summary.sequence < rows[j].summary.sequence
  }

  ghost predicate CursorsAgree(db: Ledger) {
    forall p, w :: Cursor(db, p, w) == LastSequence(db.evidence, p, w)
  }

  ghost predicate Consistent(m: Rules, db: Ledger) {
    AllBilled(m, db.evidence, db.invoices) && Increasing(db.evidence) && CursorsAgree(db)
  }

  lemma LastSequenceAppend(rows: seq<Evidence>, e: Evidence, p: Id, w: Id)
    ensures LastSequence(rows + [e], p, w) ==
            if e.provider == p && e.workload == w then e.summary.sequence else LastSequence(rows, p, w)
  {
    assert (rows + [e])[..|rows|] == rows;
  }

  /** The latest sequence of a stream is its largest. */
  lemma {:induction false} LastIsLargest(rows: seq<Evidence>, p: Id, w: Id)
    requires Increasing(rows)
    ensures forall i :: 0 <= i < |rows| && rows[i].provider == p && rows[i].workload == w ==>
              rows[i].summary.sequence <= LastSequence(rows, p, w)
    ensures LastSequence(rows, p, w) > 0 ==>
              exists i :: 0 <= i < |rows| && IsRow(rows[i], p, w, LastSequence(rows, p, w))
    decreases |rows|
  {
    if rows != [] {
      var e, rest := rows[|rows| - 1], rows[..|rows| - 1];
      LastIsLargest(rest, p, w);
      if e.provider == p && e.workload == w {
        assert IsRow(rows[|rows| - 1], p, w, LastSequence(rows, p, w));
        forall i | 0 <= i < |rows| && rows[i].provider == p && rows[i].workload == w
          ensures rows[i].summary.sequence <= LastSequence(rows, p, w)
        {
          assert i < |rows| - 1 ==> SameStream(rows[i], e);
        }
      } else {
        forall i | 0 <= i < |rows| && rows[i].provider == p && rows[i].workload == w
          ensures rows[i].summary.sequence <= LastSequence(rows, p, w)
        {
          assert rest[i] == rows[i];
        }
        if LastSequence(rows, p, w) > 0 {
          var i :| 0 <= i < |rest| && IsRow(rest[i], p, w, LastSequence(rest, p, w));
          assert IsRow(rows[i], p, w, LastSequence(rows, p, w));
        }
      }
    }
  }

  // ----- one transaction -----

  lemma AppendIncreases(rows: seq<Evidence>, e: Evidence)
    requires Increasing(rows) && e.summary.sequence > LastSequence(rows, e.provider, e.workload)
    ensures Increasing(rows + [e])
  {
    LastIsLargest(rows, e.provider, e.workload);
  }

  lemma BookMovesCursors(db: Ledger, q: Request)
    requires CursorsAgree(db)
    ensures CursorsAgree(Book(db, q))
  {
    var t := Book(db, q);
    forall p, w ensures Cursor(t, p, w) == LastSequence(t.evidence, p, w) {
      LastSequenceAppend(db.evidence, t.evidence[|db.evidence|], p, w);
      assert Cursor(db, p, w) == LastSequence(db.evidence, p, w);
    }
  }

  lemma BookKeeps(m: Rules, db: Ledger, q: Request)
    requires Consistent(m, db) && WellFormed(m, q) && q.summary.sequence > Cursor(db, q.provider, q.workload)
    ensures Consistent(m, Book(db, q))
  {
    BookMovesCursors(db, q);
    AppendIncreases(db.evidence, Evidence(q.provider, q.workload, q.summary, q.lease, q.hash));
  }

  lemma OpenCursorKeeps(m: Rules, db: Ledger, q: Request)
    requires Consistent(m, db)
    ensures Consistent(m, OpenCursor(db, q))
    ensures forall p, w :: Cursor(OpenCursor(db, q), p, w) == Cursor(db, p, w)
  {
    var t := OpenCursor(db, q);
    forall p, w ensures Cursor(t, p, w) == Cursor(db, p, w) { }
    forall p, w ensures Cursor(t, p, w) == LastSequence(t.evidence, p, w) {
      assert Cursor(db, p, w) == LastSequence(db.evidence, p, w);
    }
  }

  lemma AcceptKeeps(m: Rules, db: Ledger, q: Request)
    requires Consistent(m, db) && WellFormed(m, q)
    ensures Consistent(m, AcceptEvidence(db, q).0)
  {
    var t := AcceptEvidence(db, q).0;
    if q.summary.sequence <= Cursor(db, q.provider, q.workload) {
      OpenCursorKeeps(m, db, q);
      assert t == db || t == OpenCursor(db, q);
    } else {
      BookKeeps(m, db, q);
      assert t == db || t == Book(db, q);
    }
  }

  lemma OpenCursorUnseen(db: Ledger, q: Request, p: Id, w: Id)
    ensures Cursor(OpenCursor(db, q), p, w) == Cursor(db, p, w)
  {
  }

  /** An accepted submission advances its cursor to its own sequence and appends one
      evidence row and its line; every other answer, and every error, leaves all
      cursors, the evidence and the invoices as they were. */
  lemma AcceptOrUnchanged(db: Ledger, q: Request)
    ensures var (t, r) := AcceptEvidence(db, q);
            if r.Some? && r.value.outcome == Accepted then
              && Cursor(db, q.provider, q.workload) < q.summary.sequence == Cursor(t, q.provider, q.workload)
              && (forall p, w :: (p, w) != (q.provider, q.workload) ==> Cursor(t, p, w) == Cursor(db, p, w))
              && |t.evidence| == |db.evidence| + 1 && db.evidence <= t.evidence && db.invoices <= t.invoices
              && r.value.evidence == |db.evidence| && t.evidence[r.value.evidence].summary == q.summary
              && r.value.line == |db.invoices| < |t.invoices| && t.invoices[r.value.line].charge == q.charge
              && r.value.total == q.charge.total
            else
              && (forall p, w :: Cursor(t, p, w) == Cursor(db, p, w))
              && t.evidence == db.evidence && t.invoices == db.invoices
    ensures AcceptEvidence(db, q).0.rejections == db.rejections
  {
    var (t, r) := AcceptEvidence(db, q);
    forall p, w | (p, w) != (q.provider, q.workload) || !(r.Some? && r.value.outcome == Accepted)
      ensures Cursor(t, p, w) == Cursor(db, p, w)
    {
      OpenCursorUnseen(db, q, p, w);
    }
  }

  // ----- lookups find the one row there is -----

  lemma {:induction false} FindRowFinds(rows: seq<Evidence>, p: Id, w: Id, n: nat)
    ensures var r := FindRow(rows, p, w, n);
            if r.Some? then r.value < |rows| && IsRow(rows[r.value], p, w, n)
            else forall i :: 0 <= i < |rows| ==> !IsRow(rows[i], p, w, n)
    decreases |rows|
  {
    if rows != [] && !IsRow(rows[|rows| - 1], p, w, n) { FindRowFinds(rows[..|rows| - 1], p, w, n); }
  }

  lemma {:induction false} FindLineFinds(m: Rules, rows: seq<Evidence>, lines: seq<Line>, i: nat)
    requires AllBilled(m, rows, lines) && i < |lines|
    ensures FindLine(lines, i) == Some(i)
    decreases |lines|
  {
    var n := |lines| - 1;
    assert Billed(m, rows[n], lines[n], n);
    if i < n { FindLineFinds(m, rows[..n], lines[..n], i); }
  }

  /** A stale sequence is out of order exactly when no row holds it, and else a duplicate
      exactly when the stored hash is the same. */
  lemma StaleCases(m: Rules, db: Ledger, q: Request)
    requires Consistent(m, db)
    ensures var r := ClassifyStale(db, q);
            && r.Some? && r.value.outcome in {Duplicate, ConflictingEvidence, OutOfOrder}
            && (r.value.outcome == OutOfOrder <==>
                  forall i :: 0 <= i < |db.evidence| ==>
                      !IsRow(db.evidence[i], q.provider, q.workload, q.summary.sequence))
            && (r.value.outcome != OutOfOrder ==>
                  && r.value.evidence < |db.evidence| == |db.invoices|
                  && IsRow(db.evidence[r.value.evidence], q.provider, q.workload, q.summary.sequence)
                  && (r.value.outcome == Duplicate <==> db.evidence[r.value.evidence].hash == q.hash))
            && (r.value.outcome == Duplicate ==>
                  r.value == Result(Duplicate, r.value.evidence, r.value.evidence,
                      db.invoices[r.value.evidence].charge.total))
  {
    FindRowFinds(db.evidence, q.provider, q.workload, q.summary.sequence);
    var row := FindRow(db.evidence, q.provider, q.workload, q.summary.sequence);
    if row.Some? {
      FindLineFinds(m, db.evidence, db.invoices, row.value);
    }
  }

  /** A request in range is accepted exactly when its sequence is past the cursor. */
  lemma AcceptIffAhead(m: Rules, db: Ledger, q: Request)
    requires Consistent(m, db) && FitsBigint(q)
    ensures var r := AcceptEvidence(db, q).1;
            && r.Some?
            && (r.value.outcome == Accepted <==> q.summary.sequence > Cursor(db, q.provider, q.workload))
            && (r.value.outcome != Accepted ==> r == ClassifyStale(db, q))
            && r.value.outcome in {Accepted, Duplicate, ConflictingEvidence, OutOfOrder}
  {
    StaleCases(m, db, q);
  }

  /** No text longer than the signed layout can hold denotes a uuid. */
  ghost predicate ShortIds(f: Primitives) {
    forall text :: f.uuid(text).Some? ==> |text| < U32
  }

  lemma {:induction false} UuidBytesAreShort(s: seq<Byte>, i: nat)
    requires i <= 16 && UuidBytes(s, i).Some?
    ensures |s| <= |UuidBytes(s, i).value.1| + 3 * (16 - i)
    decreases 16 - i
  {
    if i < 16 {
      var hyphen := |s| > 2 && s[2] == 45 && i % 2 == 1 && i < 15;
      UuidBytesAreShort(if hyphen then s[3..] else s[2..], i + 1);
    }
  }

  lemma UuidsAreShort(hash: HashFunction)
    ensures ShortIds(Primitives(hash, ParseUuid))
  {
    forall text | ParseUuid(text).Some? ensures |text| < U32 {
      var body := if text != [] && text[0] == 123 then text[1..] else text;
      UuidBytesAreShort(body, 0);
    }
  }

  /** Where the hash does not collide with a stored row's, a Duplicate answer means this provider's identical
      summary was accepted before, and the amount returned is the freshly computed charge. */
  lemma DuplicateIsIdentical(m: Rules, db: Ledger, q: Request)
    requires Consistent(m, db) && WellFormed(m, q)
    requires forall i :: 0 <= i < |db.evidence| && db.evidence[i].hash == q.hash ==>
        SignedBytes(db.evidence[i].summary) == SignedBytes(q.summary)
    requires ShortIds(m.f) && |q.summary.lease| < U32
    requires forall i :: 0 <= i < |db.evidence| ==> |db.evidence[i].summary.lease| < U32
    ensures var r := AcceptEvidence(db, q).1;
            r.Some? && r.value.outcome == Duplicate ==>
              && r.value.evidence < |db.evidence|
              && db.evidence[r.value.evidence].provider == q.provider
              && db.evidence[r.value.evidence].summary == q.summary
              && r.value.total == q.charge.total
  {
    var r := AcceptEvidence(db, q).1;
    if r.Some? && r.value.outcome == Duplicate {
      StaleCases(m, db, q);
      var e := db.evidence[r.value.evidence];
      assert Billed(m, e, db.invoices[r.value.evidence], r.value.evidence);
      SignedBytesInjective(e.summary, q.summary);
    }
  }

  /** Resubmitting what row `i` holds is recognized, whatever was accepted since: the same
      evidence, line and amount come back and nothing is billed. */
  lemma ResubmissionIsDuplicate(m: Rules, db: Ledger, q: Request, i: nat)
    requires Consistent(m, db) && WellFormed(m, q) && FitsBigint(q)
    requires i < |db.evidence| && db.evidence[i].provider == q.provider && db.evidence[i].summary == q.summary
    ensures AcceptEvidence(db, q).1 == Some(Result(Duplicate, i, i, q.charge.total))
    ensures AcceptEvidence(db, q).0.evidence == db.evidence && AcceptEvidence(db, q).0.invoices == db.invoices
  {
    LastIsLargest(db.evidence, q.provider, q.workload);
    assert Cursor(db, q.provider, q.workload) == LastSequence(db.evidence, q.provider, q.workload);
    assert Billed(m, db.evidence[i], db.invoices[i], i);
    assert IsRow(db.evidence[i], q.provider, q.workload, q.summary.sequence);
    StaleCases(m, db, q);
    var k := ClassifyStale(db, q).value.evidence;
    assert SameStream(db.evidence[i], db.evidence[k]);
    assert i == k;
  }

  // ----- every interleaving -----

  /** A call between its validation and its transaction, or between that and its audit insert. */
  datatype Call = Pending(sub: Submission, q: Request) | Auditing(sub: Submission, q: Request, outcome: Outcome)

  /** `origins` is history: the submission each evidence row came from. */
  datatype Sys = Sys(db: Ledger, calls: map<nat, Call>, nextCall: nat, origins: seq<Submission>)

  datatype Step =
    | Submit(sub: Submission, audits: bool)
    | Transact(call: nat, commits: bool)
    | WriteAudit(call: nat, written: bool)

  function Init(): (s: Sys) {
    Sys(Ledger(map[], [], [], []), map[], 0, [])
  }

  function ApplySubmit(m: Rules, s: Sys, sub: Submission, d: Decision, audits: bool): (t: Sys) {
    match d
    case Refuse(outcome) => s.(db := Audit(s.db, Rejected(m.f, sub, outcome), audits))
    case LookupFailed => s
    case Proceed(q) => s.(calls := s.calls[s.nextCall := Pending(sub, q)], nextCall := s.nextCall + 1)
  }

  function ApplyTransact(s: Sys, call: nat, commits: bool): (t: Sys) {
    if call in s.calls && s.calls[call].Pending? then
      var c := s.calls[call];
      if !commits then s.(calls := s.calls - {call})
      else
        var (db, r) := AcceptEvidence(s.db, c.q);
        if r.Some? && r.value.outcome == Accepted then
          s.(db := db, calls := s.calls - {call}, origins := s.origins + [c.sub])
        else if r.None? || r.value.outcome == Duplicate then s.(db := db, calls := s.calls - {call})
        else s.(db := db, calls := s.calls[call := Auditing(c.sub, c.q, r.value.outcome)])
    else s
  }

  function Apply(m: Rules, s: Sys, step: Step): (t: Sys) {
    match step
    case Submit(sub, audits) => ApplySubmit(m, s, sub, Decide(m.f, sub), audits)
    case Transact(call, commits) => ApplyTransact(s, call, commits)
    case WriteAudit(call, written) =>
      if call in s.calls && s.calls[call].Auditing? then
        var c := s.calls[call];
        s.(db := Audit(s.db, Rejected(m.f, c.sub, c.outcome), written), calls := s.calls - {call})
      else s
  }

  function Run(m: Rules, s: Sys, steps: seq<Step>): (t: Sys)
    decreases |steps|
  {
    if steps == [] then s else Run(m, Apply(m, s, steps[0]), steps[1..])
  }

  /** A call's steps with none between them are the call. */
  lemma CallIsSteps(m: Rules, s: Sys, sub: Submission, commits: bool, audits: bool)
    requires s.nextCall !in s.calls
    ensures var n := s.nextCall;
            var t := Run(m, s, [Submit(sub, audits), Transact(n, commits), WriteAudit(n, audits)]);
            && t.db == RecordUsage(m.f, s.db, sub, commits, audits).0 && t.calls == s.calls
            && t.nextCall == if Decide(m.f, sub).Proceed? then n + 1 else n
  {
    var n := s.nextCall;
    var steps := [Submit(sub, audits), Transact(n, commits), WriteAudit(n, audits)];
    assert steps[1..] == [Transact(n, commits), WriteAudit(n, audits)] && steps[1..][1..] == [WriteAudit(n, audits)];
    var s1 := Apply(m, s, steps[0]);
    var s2 := Apply(m, s1, steps[1]);
    assert Run(m, s, steps) == Run(m, s1, steps[1..]) == Run(m, s2, steps[1..][1..]) == Apply(m, s2, steps[2]);
    assert Apply(m, s2, steps[2]).calls == s.calls;
  }

  ghost predicate Sound(m: Rules, s: Sys) {
    && Consistent(m, s.db)
    && forall c :: c in s.calls ==> WellFormed(m, s.calls[c].q)
  }

  lemma AuditKeeps(m: Rules, db: Ledger, row: Option<Rejection>, written: bool)
    requires Consistent(m, db)
    ensures Consistent(m, Audit(db, row, written))
  {
    var t := Audit(db, row, written);
    forall p, w ensures Cursor(t, p, w) == LastSequence(t.evidence, p, w) {
      assert Cursor(db, p, w) == LastSequence(db.evidence, p, w);
    }
  }

  lemma SubmitKeeps(m: Rules, s: Sys, sub: Submission, d: Decision, audits: bool)
    requires Sound(m, s) && (d.Proceed? ==> WellFormed(m, d.request))
    ensures Sound(m, ApplySubmit(m, s, sub, d, audits))
  {
    if d.Refuse? { AuditKeeps(m, s.db, Rejected(m.f, sub, d.outcome), audits); }
  }

  lemma TransactKeeps(m: Rules, s: Sys, call: nat, commits: bool)
    requires Sound(m, s)
    ensures Sound(m, ApplyTransact(s, call, commits))
  {
    if call in s.calls && s.calls[call].Pending? { AcceptKeeps(m, s.db, s.calls[call].q); }
  }

  lemma StepKeeps(m: Rules, s: Sys, step: Step)
    requires Governs(m) && Sound(m, s)
    ensures Sound(m, Apply(m, s, step))
  {
    match step
    case Submit(sub, audits) => SubmitKeeps(m, s, sub, Decide(m.f, sub), audits);
    case Transact(call, commits) => TransactKeeps(m, s, call, commits);
    case WriteAudit(call, written) =>
      if call in s.calls && s.calls[call].Auditing? {
        AuditKeeps(m, s.db, Rejected(m.f, s.calls[call].sub, s.calls[call].outcome), written);
      }
  }

  lemma {:induction false} RunKeeps(m: Rules, s: Sys, steps: seq<Step>)
    requires Governs(m) && Sound(m, s)
    ensures Sound(m, Run(m, s, steps))
    decreases |steps|
  {
    if steps != [] {
      StepKeeps(m, s, steps[0]);
      RunKeeps(m, Apply(m, s, steps[0]), steps[1..]);
    }
  }

  function BilledTotal(lines: seq<Line>): (r: nat) {
    if lines == [] then 0 else BilledTotal(lines[..|lines| - 1]) + lines[|lines| - 1].charge.total
  }

  /** The exact, unbounded worth of all accepted usage. */
  function UsageTotal(m: Rules, rows: seq<Evidence>): (r: nat) {
    if rows == [] then 0 else UsageTotal(m, rows[..|rows| - 1]) + m.worth(rows[|rows| - 1].summary.usage)
  }

  lemma {:induction false} TotalsAgree(m: Rules, rows: seq<Evidence>, lines: seq<Line>)
    requires Fair(m) && AllBilled(m, rows, lines)
    ensures BilledTotal(lines) == UsageTotal(m, rows)
    decreases |rows|
  {
    if rows != [] {
      var n := |rows| - 1;
      TotalsAgree(m, rows[..n], lines[..n]);
      assert Billed(m, rows[n], lines[n], n);
    }
  }

  ghost predicate CursorIsLargest(db: Ledger, p: Id, w: Id) {
    && (forall i :: 0 <= i < |db.evidence| && db.evidence[i].provider == p && db.evidence[i].workload == w ==>
          db.evidence[i].summary.sequence <= Cursor(db, p, w))
    && (Cursor(db, p, w) > 0 ==> exists i :: 0 <= i < |db.evidence| && IsRow(db.evidence[i], p, w, Cursor(db, p, w)))
  }

  lemma ConsistentCursor(m: Rules, db: Ledger, p: Id, w: Id)
    requires Consistent(m, db)
    ensures CursorIsLargest(db, p, w)
  {
    LastIsLargest(db.evidence, p, w);
    assert Cursor(db, p, w) == LastSequence(db.evidence, p, w);
  }

  /** Under every interleaving of concurrent submissions: each stream's cursor is its largest
      accepted sequence; accepted sequences of a stream strictly increase, so each has one
      evidence row; evidence i has exactly one line, line i, at its exact charge; and the
      billed total is the exact worth of the accepted usage. */
  lemma LedgerIsExact(m: Rules, steps: seq<Step>)
    requires Governs(m) && Fair(m)
    ensures var db := Run(m, Init(), steps).db;
            && Consistent(m, db)
            && (forall p, w :: CursorIsLargest(db, p, w))
            && BilledTotal(db.invoices) == UsageTotal(m, db.evidence)
  {
    RunKeeps(m, Init(), steps);
    var db := Run(m, Init(), steps).db;
    forall p, w ensures CursorIsLargest(db, p, w) { ConsistentCursor(m, db, p, w); }
    TotalsAgree(m, db.evidence, db.invoices);
  }

  /** The rules in the source govern and are fair, so the above holds of them. */
  lemma SourceLedgerIsExact(f: Primitives, steps: seq<Step>)
    ensures var m := Current(f);
            var db := Run(m, Init(), steps).db;
            && Consistent(m, db)
            && (forall p, w :: CursorIsLargest(db, p, w))
            && BilledTotal(db.invoices) == UsageTotal(m, db.evidence)
  {
    CurrentGoverns(f);
    CurrentIsFair(f);
    LedgerIsExact(Current(f), steps);
  }

  // ----- never silently dropped, exactly when -----

  ghost predicate Unbilled(db: Ledger, t: Ledger) {
    t.evidence == db.evidence && t.invoices == db.invoices && forall p, w :: Cursor(t, p, w) == Cursor(db, p, w)
  }

  /** What is left behind by each kind of answer. */
  ghost predicate Traced(m: Rules, db: Ledger, sub: Submission, t: Ledger, answer: Option<Outcome>) {
    match answer
    case None => t == db
    case Some(Accepted) => |t.evidence| == |db.evidence| + 1 && t.rejections == db.rejections
    case Some(Duplicate) => Unbilled(db, t) && t.rejections == db.rejections
    case Some(outcome) =>
      var row := Rejected(m.f, sub, outcome);
      Unbilled(db, t) && row.Some? && t.rejections == db.rejections + [row.value]
  }

  /** The summary names its workload by a text the database does not read as a uuid. */
  predicate Misnamed(f: Primitives, sub: Submission) {
    sub.summary.Some? && f.uuid(sub.summary.value.workload).None?
  }

  lemma DecideAnswers(f: Primitives, sub: Submission)
    ensures var d := Decide(f, sub);
            && (d.Refuse? ==> d.outcome !in {Accepted, Duplicate})
            && (d.LookupFailed? ==> sub.key == KeyReadFailed || sub.workload == WorkloadReadFailed || Misnamed(f, sub))
            && (d.Proceed? ==> !Misnamed(f, sub))
  {
  }

  lemma ProceedIsTraced(m: Rules, db: Ledger, sub: Submission, q: Request)
    requires Consistent(m, db) && !Misnamed(m.f, sub)
    ensures var (t, answer) := Finish(m.f, db, sub, Proceed(q), true, true);
            (answer.None? <==> !FitsBigint(q)) && Traced(m, db, sub, t, answer)
  {
    AcceptOrUnchanged(db, q);
    if FitsBigint(q) { AcceptIffAhead(m, db, q); }
  }

  /** The call ended in an error, leaving nothing behind, exactly when its workload id is no
      uuid or a value was beyond bigint; every other answer left its trace. */
  ghost predicate TracedCall(m: Rules, db: Ledger, sub: Submission, d: Decision) {
    var (t, answer) := Finish(m.f, db, sub, d, true, true);
    && (answer.None? <==> Misnamed(m.f, sub) || (d.Proceed? && !FitsBigint(d.request)))
    && Traced(m, db, sub, t, answer)
  }

  lemma CallIsTraced(m: Rules, db: Ledger, sub: Submission, d: Decision)
    requires Consistent(m, db)
    requires d.Refuse? ==> d.outcome !in {Accepted, Duplicate}
    requires d.LookupFailed? ==> Misnamed(m.f, sub)
    requires d.Proceed? ==> !Misnamed(m.f, sub)
    ensures TracedCall(m, db, sub, d)
  {
    if d.Proceed? { ProceedIsTraced(m, db, sub, d.request); }
  }

  /** With a database that answers and commits, a call ends in an error and leaves no trace
      exactly when its summary names its workload by no uuid, whatever else is wrong with it,
      or passes every check but holds a value beyond bigint.  Every other call books the
      usage, answers Duplicate, or writes one rejection row. */
  lemma NoTraceIff(m: Rules, db: Ledger, sub: Submission)
    requires Consistent(m, db) && sub.key != KeyReadFailed && sub.workload != WorkloadReadFailed
    ensures TracedCall(m, db, sub, Decide(m.f, sub))
  {
    DecideAnswers(m.f, sub);
    CallIsTraced(m, db, sub, Decide(m.f, sub));
  }

  /** Any submission that passes every check passes them with GPU seconds of 2^63, which are not
      priced, and is then lost. */
  lemma HugeValueLeavesNoTrace(f: Primitives, db: Ledger, sub: Submission)
    requires Decide(f, sub).Proceed?
    ensures var s := sub.summary.value;
            var huge := sub.(summary := Some(s.(usage := s.usage.(gpu := MAX_INT64 + 1))));
            Decide(f, huge).Proceed? && RecordUsage(f, db, huge, true, true) == (db, None)
  {
  }

  /** A summary with no workload id is refused for its bounds, and the refusal is lost. */
  lemma EmptyIdLeavesNoTrace(hash: HashFunction, db: Ledger, sub: Submission)
    requires sub.summary.Some? && sub.summary.value.workload == []
    ensures var f := Primitives(hash, ParseUuid);
            Decide(f, sub) == Refuse(BoundsViolation) && RecordUsage(f, db, sub, true, true) == (db, None)
  {
    assert UuidBytes([], 0).None?;
  }
}
