/** What a usage submission must hold to reach the ledger, and which refusal each shortfall gets
    (control-plane/internal/metering/service.go). */
module MeteringDecisions {
  import opened Base
  import opened Bytes
  import opened Price
  import opened Signing
  import opened Metering
  import opened MeteringRuns

  // ----- the tests, in plain terms -----

  /** Both ids are there, the sequence counts from one, and the period runs forward for at most
      an hour. */
  ghost predicate Bounded(s: Summary) {
    |s.workload| > 0 && |s.lease| > 0 && s.sequence >= 1 && 0 <= s.periodEnd - s.periodStart <= 3600
  }

  /** The end of the period, an unsigned number of seconds taken as a signed one. */
  function EndSeconds(s: Summary): (r: int) {
    if s.periodEnd < 0x8000_0000_0000_0000 then s.periodEnd else s.periodEnd - 0x1_0000_0000_0000_0000
  }

  /** The period ended within five minutes of now, which is in nanoseconds. */
  ghost predicate Timely(s: Summary, now: int) {
    now - 300_000_000_000 <= EndSeconds(s) * 1_000_000_000 <= now + 300_000_000_000
  }

  /** The lease text is the number of the workload's own lease. */
  ghost predicate NamesLease(text: Id, lease: int) {
    lease >= 0 && ParseInt64(text) == Some(lease)
  }

  /** At one unit for every core-second, megabyte-second, gigabyte-second and megabyte of traffic,
      the charge fits in 64 bits. */
  ghost predicate Payable(u: Usage) {
    u.cpu + u.ram + u.storage + u.egress + u.ingress < U64
  }

  /** How far a submission gets: the tests it passes before the first that fails. */
  ghost function Passed(f: Primitives, sub: Submission): (n: nat) {
    if sub.summary.None? || !Bounded(sub.summary.value) then 0
    else
      var s := sub.summary.value;
      if s.schema != 1 then 1
      else if !Timely(s, sub.now) then 2
      else if sub.key == KeyReadFailed then 3
      else if sub.key == NoProvider then 4
      else if sub.key != Key(true) then 5
      else if f.uuid(s.workload).None? || sub.workload == WorkloadReadFailed then 6
      else if sub.workload == NoWorkload then 7
      else if sub.workload.provider != sub.provider then 8
      else if !NamesLease(s.lease, sub.workload.lease) then 9
      else if !Payable(s.usage) then 10
      else 11
  }

  /** Everything a submission must hold. */
  ghost predicate Admissible(f: Primitives, sub: Submission) {
    && sub.summary.Some?
    && var s := sub.summary.value;
       && Bounded(s) && s.schema == 1 && Timely(s, sub.now)
       && sub.key == Key(true)
       && f.uuid(s.workload).Some? && sub.workload.Workload? && sub.workload.provider == sub.provider
       && NamesLease(s.lease, sub.workload.lease) && Payable(s.usage)
  }

  lemma BoundsAre(s: Summary)
    ensures InBounds(s) <==> Bounded(s)
  {
  }

  lemma SkewIs(s: Summary, now: int)
    ensures !Skewed(s, now) <==> Timely(s, now)
  {
  }

  lemma ChargeDecision(f: Primitives, sub: Submission, workload: Id)
    requires sub.summary.Some? && sub.workload.Workload?
    ensures var s, w := sub.summary.value, sub.workload;
            var d := DecideCharge(f.hash, sub.provider, s, workload, w.provider, w.lease, w.consumer);
            if w.provider != sub.provider then d == Refuse(WorkloadProviderMismatch)
            else if !NamesLease(s.lease, w.lease) then d == Refuse(LeaseMismatch)
            else if !Payable(s.usage) then d == Refuse(ChargeOverflow)
            else
              && d.Proceed? && d.request.provider == sub.provider && d.request.summary == s
              && d.request.workload == workload && d.request.lease == w.lease && d.request.consumer == w.consumer
              && d.request.hash == f.hash(SignedBytes(s))
  {
    ChargeExact(SCHEDULES[CURRENT_VERSION], sub.summary.value.usage);
  }

  /** Each decision names the first test that fails, and a submission that fails none proceeds. */
  lemma DecisionIs(f: Primitives, sub: Submission)
    ensures var d := Decide(f, sub);
            match Passed(f, sub)
            case 0 => d == Refuse(BoundsViolation)
            case 1 => d == Refuse(UnknownSchemaVersion)
            case 2 => d == Refuse(ClockSkew)
            case 3 => d == LookupFailed
            case 4 => d == Refuse(UnknownProvider)
            case 5 => d == Refuse(InvalidSignature)
            case 6 => d == LookupFailed
            case 7 => d == Refuse(UnknownWorkload)
            case 8 => d == Refuse(WorkloadProviderMismatch)
            case 9 => d == Refuse(LeaseMismatch)
            case 10 => d == Refuse(ChargeOverflow)
            case _ => d.Proceed?
  {
    if sub.summary.Some? {
      BoundsAre(sub.summary.value);
      SkewIs(sub.summary.value, sub.now);
      var id := f.uuid(sub.summary.value.workload);
      if sub.workload.Workload? && id.Some? { ChargeDecision(f, sub, id.value); }
    }
  }

  /** What the ledger is asked to book is what was submitted and looked up. */
  ghost predicate Faithful(f: Primitives, sub: Submission, q: Request) {
    && Admissible(f, sub)
    && q.provider == sub.provider && q.summary == sub.summary.value && Some(q.workload) == f.uuid(q.summary.workload)
    && q.lease == sub.workload.lease && q.consumer == sub.workload.consumer
  }

  /** A submission reaches the ledger exactly when it holds everything it must: in bounds, of
      schema 1, timely, signed by a known provider, for a workload of that provider and its own
      lease, with a charge that fits. */
  lemma ProceedIff(f: Primitives, sub: Submission)
    ensures Decide(f, sub).Proceed? <==> Admissible(f, sub)
    ensures Decide(f, sub).Proceed? ==> Faithful(f, sub, Decide(f, sub).request)
  {
    DecisionIs(f, sub);
    if Admissible(f, sub) { ChargeDecision(f, sub, f.uuid(sub.summary.value.workload).value); }
  }

  /** What a rejection row says: who submitted, for which workload, under which sequence (as a
      signed number, and none for zero), why it was refused, and the hash of what was signed. */
  lemma RejectionSays(f: Primitives, sub: Submission, outcome: Outcome)
    ensures var row := Rejected(f, sub, outcome);
            && (row.None? <==> Misnamed(f, sub))
            && (row.Some? ==>
                  && row.value.provider == sub.provider && row.value.reason == outcome
                  && (sub.summary.None? ==>
                        row.value.workload == None && row.value.sequence == None && row.value.hash == None)
                  && (sub.summary.Some? ==>
                        var s := sub.summary.value;
                        && row.value.workload == f.uuid(s.workload) && row.value.hash == Some(f.hash(SignedBytes(s)))
                        && (row.value.sequence.None? <==> s.sequence == 0)
                        && (row.value.sequence.Some? ==>
                              && -0x8000_0000_0000_0000 <= row.value.sequence.value < 0x8000_0000_0000_0000
                              && row.value.sequence.value in {s.sequence, s.sequence - 0x1_0000_0000_0000_0000})))
  {
  }

  // ----- over every interleaving -----

  /** The evidence row and its line are those of the submission. */
  ghost predicate CameFrom(f: Primitives, sub: Submission, e: Evidence, l: Line) {
    && Admissible(f, sub)
    && e.provider == sub.provider && Some(e.summary) == sub.summary && Some(e.workload) == f.uuid(e.summary.workload)
    && e.lease == sub.workload.lease && l.consumer == sub.workload.consumer && l.version == CURRENT_VERSION
  }

  ghost predicate Founded(m: Rules, s: Sys) {
    && |s.origins| == |s.db.evidence| == |s.db.invoices|
    && (forall i :: 0 <= i < |s.origins| ==> CameFrom(m.f, s.origins[i], s.db.evidence[i], s.db.invoices[i]))
    && (forall c :: c in s.calls ==> Faithful(m.f, s.calls[c].sub, s.calls[c].q))
  }

  lemma TransactFounds(m: Rules, s: Sys, call: nat, commits: bool)
    requires Founded(m, s)
    ensures Founded(m, ApplyTransact(s, call, commits))
  {
    if call in s.calls && s.calls[call].Pending? && commits {
      var t := ApplyTransact(s, call, commits);
      AcceptOrUnchanged(s.db, s.calls[call].q);
      forall i | 0 <= i < |t.origins| ensures CameFrom(m.f, t.origins[i], t.db.evidence[i], t.db.invoices[i]) {
        if i < |s.origins| { assert CameFrom(m.f, s.origins[i], s.db.evidence[i], s.db.invoices[i]); }
      }
    }
  }

  lemma StepFounds(m: Rules, s: Sys, step: Step)
    requires Founded(m, s)
    ensures Founded(m, Apply(m, s, step))
  {
    match step
    case Submit(sub, audits) => ProceedIff(m.f, sub);
    case Transact(call, commits) => TransactFounds(m, s, call, commits);
    case WriteAudit(call, written) =>
  }

  lemma {:induction false} RunFounds(m: Rules, s: Sys, steps: seq<Step>)
    requires Founded(m, s)
    ensures Founded(m, Run(m, s, steps))
    decreases |steps|
  {
    if steps != [] {
      StepFounds(m, s, steps[0]);
      RunFounds(m, Apply(m, s, steps[0]), steps[1..]);
    }
  }

  /** Under every interleaving, every evidence row and its line came from one submission that was
      in bounds, timely, signed by its provider and for that provider's own workload and lease;
      the line is for that workload's consumer at the current prices. */
  lemma EvidenceIsFounded(m: Rules, steps: seq<Step>)
    ensures var s := Run(m, Init(), steps);
            && |s.origins| == |s.db.evidence| == |s.db.invoices|
            && forall i :: 0 <= i < |s.origins| ==> CameFrom(m.f, s.origins[i], s.db.evidence[i], s.db.invoices[i])
  {
    RunFounds(m, Init(), steps);
  }

  // ----- the texts -----

  /** Decimal digits, as `strconv` writes them. */
  function Decimal(n: nat): (s: seq<Byte>) {
    if n < 10 then [48 + n] else Decimal(n / 10) + [48 + n % 10]
  }

  lemma {:induction false} DecimalReads(n: nat)
    ensures Decimal(n) != [] && DigitsValue(Decimal(n)) == Some(n)
    ensures forall i :: 0 <= i < |Decimal(n)| ==> 48 <= Decimal(n)[i] <= 57
  {
    if n >= 10 {
      DecimalReads(n / 10);
      assert Decimal(n)[..|Decimal(n)| - 1] == Decimal(n / 10);
    } else {
      assert Decimal(n)[..0] == [];
    }
  }

  lemma {:induction false} SignedReads(digits: seq<Byte>, n: nat)
    requires digits != [] && 48 <= digits[0] <= 57 && DigitsValue(digits) == Some(n)
    ensures ParseInt64(digits) == (if n < 0x8000_0000_0000_0000 then Some(n) else None)
    ensures ParseInt64([43] + digits) == ParseInt64(digits)
    ensures ParseInt64([45] + digits) == (if n <= 0x8000_0000_0000_0000 then Some(0 - n) else None)
  {
    assert ([43] + digits)[1..] == digits && ([45] + digits)[1..] == digits;
  }

  /** A number printed in decimal, with or without a sign, is read as itself exactly when it is
      within int64. */
  lemma LeaseTextIs(n: nat)
    ensures ParseInt64(Decimal(n)) == (if n < 0x8000_0000_0000_0000 then Some(n) else None)
    ensures ParseInt64([43] + Decimal(n)) == ParseInt64(Decimal(n))
    ensures ParseInt64([45] + Decimal(n)) == (if n <= 0x8000_0000_0000_0000 then Some(0 - n) else None)
  {
    DecimalReads(n);
    SignedReads(Decimal(n), n);
  }

  function HexDigit(n: nat, upper: bool): (b: Byte)
    requires n < 16
  {
    if n < 10 then 48 + n else if upper then 55 + n else 87 + n
  }

  lemma HexReads(n: nat, upper: bool)
    requires n < 16
    ensures IsHex(HexDigit(n, upper)) && HexValue(HexDigit(n, upper)) == n
    ensures HexDigit(n, upper) != 45 && HexDigit(n, upper) != 123
  {
  }

  /** How a uuid may be spelled: with capitals, and with its usual hyphens. */
  datatype Style = Style(upper: bool, hyphens: bool)

  /** One byte in two digits, a hyphen if there is one, then the rest. */
  function HexPair(b: Byte, upper: bool, hyphen: bool, rest: seq<Byte>): (s: seq<Byte>)
  {
    [HexDigit(b / 16, upper), HexDigit(b % 16, upper)] + (if hyphen then [45] + rest else rest)
  }

  /** Two digits a byte, with hyphens after the fourth, sixth, eighth and tenth, then `tail`. */
  function UuidText(bytes: seq<Byte>, i: nat, style: Style, tail: seq<Byte>): (s: seq<Byte>)
    requires i <= |bytes|
    decreases |bytes| - i
  {
    if i == |bytes| then tail
    else HexPair(bytes[i], style.upper, style.hyphens && i in {3, 5, 7, 9}, UuidText(bytes, i + 1, style, tail))
  }

  lemma {:induction false} PairReads(b: Byte, i: nat, upper: bool, hyphen: bool, rest: seq<Byte>)
    requires i < 16 && (hyphen ==> i % 2 == 1 && i < 15) && (i < 15 ==> rest != [] && rest[0] != 45)
    ensures var r := UuidBytes(rest, i + 1);
            UuidBytes(HexPair(b, upper, hyphen, rest), i)
            == if r.None? then None else Some(([b] + r.value.0, r.value.1))
    ensures var s := HexPair(b, upper, hyphen, rest); s[0] != 45 && s[0] != 123
  {
    HexReads(b / 16, upper);
    HexReads(b % 16, upper);
    var s := HexPair(b, upper, hyphen, rest);
    assert (if hyphen then s[3..] else s[2..]) == rest;
    assert 16 * (b / 16) + b % 16 == b;
  }

  /** From byte i on, `s` spells the rest of the uuid, and does not begin like a hyphen or brace. */
  ghost predicate Spells(s: seq<Byte>, i: nat, bytes: seq<Byte>, tail: seq<Byte>)
    requires i <= 16 == |bytes|
  {
    && UuidBytes(s, i) == Some((bytes[i..], tail))
    && (i < 16 ==> s != [] && s[0] != 45 && s[0] != 123)
  }

  lemma {:induction false} SpellsNext(bytes: seq<Byte>, i: nat, upper: bool, hyphen: bool, rest: seq<Byte>,
                                      tail: seq<Byte>)
    requires |bytes| == 16 && i < 16 && (hyphen ==> i % 2 == 1 && i < 15) && Spells(rest, i + 1, bytes, tail)
    ensures Spells(HexPair(bytes[i], upper, hyphen, rest), i, bytes, tail)
  {
    PairReads(bytes[i], i, upper, hyphen, rest);
    assert [bytes[i]] + bytes[i + 1..] == bytes[i..];
  }

  lemma {:induction false} UuidReads(bytes: seq<Byte>, i: nat, style: Style, tail: seq<Byte>)
    requires |bytes| == 16 && i <= 16
    ensures Spells(UuidText(bytes, i, style, tail), i, bytes, tail)
    decreases 16 - i
  {
    if i < 16 {
      UuidReads(bytes, i + 1, style, tail);
      var hyphen := style.hyphens && i in {3, 5, 7, 9};
      SpellsNext(bytes, i, style.upper, hyphen, UuidText(bytes, i + 1, style, tail), tail);
    } else {
      assert bytes[i..] == [];
    }
  }

  /** A uuid in its usual form or without hyphens, in small letters or capitals, bare or in braces,
      is read as its sixteen bytes; with anything after it, it is no uuid. */
  lemma UuidTextIs(bytes: seq<Byte>, style: Style, tail: seq<Byte>)
    requires |bytes| == 16
    ensures ParseUuid(UuidText(bytes, 0, style, tail)) == (if tail == [] then Some(bytes) else None)
    ensures ParseUuid([123] + UuidText(bytes, 0, style, [125] + tail)) == (if tail == [] then Some(bytes) else None)
  {
    UuidReads(bytes, 0, style, tail);
    UuidReads(bytes, 0, style, [125] + tail);
    assert bytes[0..] == bytes;
    var braced := [123] + UuidText(bytes, 0, style, [125] + tail);
    assert braced[1..] == UuidText(bytes, 0, style, [125] + tail);
    assert [125] + tail == [125] <==> tail == [] by { if tail != [] { assert |[125] + tail| > 1; } }
  }

  /** A request fits the ledger's columns exactly when none of its twelve numbers reaches 2^63. */
  lemma BigintIs(q: Request)
    ensures var u, c, limit := q.summary.usage, q.charge, 0x8000_0000_0000_0000;
            FitsBigint(q) <==>
              && q.summary.sequence < limit
              && u.cpu < limit && u.ram < limit && u.storage < limit
              && u.egress < limit && u.ingress < limit && u.gpu < limit
              && c.cpu < limit && c.ram < limit && c.storage < limit && c.network < limit && c.total < limit
  {
  }
}
