/** The durable metering store as the object its callers update in place
    (control-plane/internal/metering/postgres.go), with RecordUsage over it. */
module MeteringStore {
  import opened Base
  import opened Price
  import opened Signing
  import opened Metering
  import MeteringRuns

  class Store {
    var cursors: map<(Id, Id), nat>
    var evidence: seq<Evidence>
    var invoices: seq<Line>
    var rejections: seq<Rejection>

    function Contents(): (db: Ledger)
      reads this
    {
      Ledger(cursors, evidence, invoices, rejections)
    }

    constructor ()
      ensures Contents() == MeteringRuns.Init().db
    {
      cursors, evidence, invoices, rejections := map[], [], [], [];
    }

    method CheckBigintRange(q: Request) returns (ok: bool)
      ensures ok <==> FitsBigint(q)
    {
      var u, c := q.summary.usage, q.charge;
      var values: seq<nat> := [q.summary.sequence, u.cpu, u.ram, u.storage, u.egress, u.ingress, u.gpu,
                               c.cpu, c.ram, c.storage, c.network, c.total];
      var i := 0;
      while i < |values|
        invariant 0 <= i <= |values|
        invariant forall k :: 0 <= k < i ==> Bigint(values[k])
      {
        if values[i] > MAX_INT64 {
          assert !Bigint(values[i]);
          return false;
        }
        i := i + 1;
      }
      assert Bigint(values[0]) && Bigint(values[1]) && Bigint(values[2]) && Bigint(values[3]);
      assert Bigint(values[4]) && Bigint(values[5]) && Bigint(values[6]) && Bigint(values[7]);
      assert Bigint(values[8]) && Bigint(values[9]) && Bigint(values[10]) && Bigint(values[11]);
      return true;
    }

    /** One transaction.  An error rolls back the cursor row it may have opened. */
    method AcceptEvidence(q: Request) returns (r: Option<Result>)
      modifies this
      ensures (Contents(), r) == Metering.AcceptEvidence(old(Contents()), q)
    {
      var inRange := CheckBigintRange(q);
      if !inRange { return None; }
      var begun := cursors;
      var key := (q.provider, q.workload);
      if key !in cursors { cursors := cursors[key := 0]; }
      var lastSequence := cursors[key];
      if q.summary.sequence <= lastSequence {
        r := ClassifyStaleSequence(q);
        if r.None? { cursors := begun; }
        return;
      }
      cursors := cursors[key := q.summary.sequence];
      var evidenceId := |evidence|;
      evidence := evidence + [Evidence(q.provider, q.workload, q.summary, q.lease, q.hash)];
      var lineId := |invoices|;
      invoices := invoices
          + [Line(evidenceId, q.provider, q.consumer, q.workload, q.lease, CURRENT_VERSION, q.charge, q.hash)];
      assert cursors == begun[key := q.summary.sequence];
      return Some(Result(Accepted, evidenceId, lineId, q.charge.total));
    }

    method ClassifyStaleSequence(q: Request) returns (r: Option<Result>)
      ensures r == ClassifyStale(Contents(), q)
    {
      var row := FindRow(evidence, q.provider, q.workload, q.summary.sequence);
      if row.None? { return Some(Result(OutOfOrder, 0, 0, 0)); }
      MeteringRuns.FindRowFinds(evidence, q.provider, q.workload, q.summary.sequence);
      if evidence[row.value].hash != q.hash { return Some(Result(ConflictingEvidence, row.value, 0, 0)); }
      var line := FindLine(invoices, row.value);
      if line.None? || line.value >= |invoices| { return None; }
      return Some(Result(Duplicate, row.value, line.value, invoices[line.value].charge.total));
    }

    method RecordRejection(row: Option<Rejection>, written: bool) returns (ok: bool)
      modifies this`rejections
      ensures ok == (written && row.Some?) && Contents() == Audit(old(Contents()), row, written)
    {
      ok := written && row.Some?;
      if ok { rejections := rejections + [row.value]; }
    }

    method RecordUsage(f: Primitives, sub: Submission, commits: bool, audits: bool) returns (answer: Option<Outcome>)
      modifies this
      ensures (Contents(), answer) == Metering.RecordUsage(f, old(Contents()), sub, commits, audits)
    {
      var decision := Decide(f, sub);
      answer := Settle(f, sub, decision, commits, audits);
    }

    method Settle(f: Primitives, sub: Submission, decision: Decision, commits: bool, audits: bool)
      returns (answer: Option<Outcome>)
      modifies this
      ensures (Contents(), answer) == Finish(f, old(Contents()), sub, decision, commits, audits)
    {
      match decision
      case Refuse(outcome) =>
        var written := RecordRejection(Rejected(f, sub, outcome), audits);
        answer := if written then Some(outcome) else None;
      case LookupFailed => answer := None;
      case Proceed(q) =>
        if !commits { return None; }
        var result := AcceptEvidence(q);
        if result.None? { return None; }
        answer := Some(result.value.outcome);
        if result.value.outcome !in {Accepted, Duplicate} {
          var _ := RecordRejection(Rejected(f, sub, result.value.outcome), audits);
        }
    }
  }
}
