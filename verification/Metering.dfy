/** The usage ledger: RecordUsage's checks and AcceptEvidence's atomic transaction
    (control-plane/internal/metering/service.go and postgres.go).

    SHA-256 and the database's reading of uuid text are parameters; signature verification
    and the provider and workload lookups are inputs. */
module Metering {
  import opened Base
  import opened Bytes
  import opened Price
  import opened Signing

  datatype Outcome =
    | Accepted | Duplicate | ConflictingEvidence | OutOfOrder | InvalidSignature | ClockSkew
    | BoundsViolation | UnknownSchemaVersion | UnknownPriceVersion | ChargeOverflow
    | UnknownProvider | UnknownWorkload | WorkloadProviderMismatch | LeaseMismatch

  const MAX_PERIOD_SECONDS: nat := 3600
  const SECOND: int := 1_000_000_000
  const MAX_CLOCK_SKEW: int := 300 * SECOND
  const MAX_INT64: nat := 0x7fff_ffff_ffff_ffff

  type HashFunction = seq<Byte> -> seq<Byte>

  /** `uuid` gives the id that a text put into a uuid column denotes, None if the database
      refuses it.  Several spellings can denote one id. */
  datatype Primitives = Primitives(hash: HashFunction, uuid: seq<Byte> -> Option<Id>)

  // ----- inputs -----

  datatype KeyRead = NoProvider | KeyReadFailed | Key(verifies: bool)
  datatype WorkloadRead = NoWorkload | WorkloadReadFailed | Workload(provider: Id, lease: int, consumer: Option<Id>)

  datatype Submission = Submission(provider: Id, summary: Option<Summary>, now: int, key: KeyRead,
      workload: WorkloadRead)

  /** A fully validated submission for the workload whose id its text denotes. */
  datatype Request = Request(provider: Id, summary: Summary, workload: Id, lease: int, consumer: Option<Id>,
                             hash: seq<Byte>, charge: Charge)

  datatype Decision = Refuse(outcome: Outcome) | LookupFailed | Proceed(request: Request)

  // ----- validation -----

  predicate InBounds(s: Summary) {
    && s.workload != [] && s.lease != [] && s.sequence != 0
    && s.periodStart <= s.periodEnd && s.periodEnd - s.periodStart <= MAX_PERIOD_SECONDS
  }

  /** `int64(period_end)` seconds as nanoseconds. */
  function PeriodEndTime(s: Summary): (r: int) {
    (if s.periodEnd <= MAX_INT64 then s.periodEnd else s.periodEnd - U64) * SECOND
  }

  predicate Skewed(s: Summary, now: int) {
    PeriodEndTime(s) < now - MAX_CLOCK_SKEW || PeriodEndTime(s) > now + MAX_CLOCK_SKEW
  }

  function DigitsValue(s: seq<Byte>): (r: Option<nat>) {
    if s == [] then Some(0)
    else
      var head := DigitsValue(s[..|s| - 1]);
      var d := s[|s| - 1];
      if head.None? || d < 48 || d > 57 then None else Some(10 * head.value + (d - 48))
  }

  /** `strconv.ParseInt(s, 10, 64)`. */
  function ParseInt64(s: seq<Byte>): (r: Option<int>) {
    var negative := s != [] && s[0] == 45;
    var digits := if s != [] && (s[0] == 43 || s[0] == 45) then s[1..] else s;
    var v := DigitsValue(digits);
    if digits == [] || v.None? then None
    else
      var n: int := if negative then 0 - v.value else v.value;
      if n > MAX_INT64 || n + MAX_INT64 + 1 < 0 then None else Some(n)
  }

  // ----- uuid text as Postgres reads it -----

  predicate IsHex(b: Byte) {
    48 <= b <= 57 || 65 <= b <= 70 || 97 <= b <= 102
  }

  function HexValue(b: Byte): (r: nat)
    requires IsHex(b)
  {
    if b <= 57 then b - 48 else if b <= 70 then b - 55 else b - 87
  }

  /** The sixteen bytes from the `i`-th on, and what follows them: two digits each, with a
      hyphen allowed after every second byte but the last. */
  function UuidBytes(s: seq<Byte>, i: nat): (r: Option<(seq<Byte>, seq<Byte>)>)
    requires i <= 16
    decreases 16 - i
  {
    if i == 16 then Some(([], s))
    else if |s| < 2 || !IsHex(s[0]) || !IsHex(s[1]) then None
    else
      var hyphen := |s| > 2 && s[2] == 45 && i % 2 == 1 && i < 15;
      var rest := UuidBytes(if hyphen then s[3..] else s[2..], i + 1);
      if rest.None? then None else Some(([16 * HexValue(s[0]) + HexValue(s[1])] + rest.value.0, rest.value.1))
  }

  function ParseUuid(s: seq<Byte>): (r: Option<Id>) {
    var braced := s != [] && s[0] == 123;
    var parsed := UuidBytes(if braced then s[1..] else s, 0);
    if parsed.Some? && parsed.value.1 == (if braced then [125] else []) then Some(parsed.value.0) else None
  }

  // ----- the decision -----

  function Decide(f: Primitives, sub: Submission): (r: Decision) {
    if sub.summary.None? then Refuse(BoundsViolation)
    else
      var s := sub.summary.value;
      if !InBounds(s) then Refuse(BoundsViolation)
      else if s.schema != 1 then Refuse(UnknownSchemaVersion)
      else if Skewed(s, sub.now) then Refuse(ClockSkew)
      else match sub.key
        case NoProvider => Refuse(UnknownProvider)
        case KeyReadFailed => LookupFailed
        case Key(verifies) =>
          if !verifies then Refuse(InvalidSignature) else DecideWorkload(f, sub.provider, s, sub.workload)
  }

  /** The lookup compares a uuid column, so it fails on a text that denotes no uuid. */
  function DecideWorkload(f: Primitives, provider: Id, s: Summary, read: WorkloadRead): (r: Decision) {
    var id := f.uuid(s.workload);
    if id.None? then LookupFailed
    else match read
      case NoWorkload => Refuse(UnknownWorkload)
      case WorkloadReadFailed => LookupFailed
      case Workload(owner, lease, consumer) => DecideCharge(f.hash, provider, s, id.value, owner, lease, consumer)
  }

  function DecideCharge(hash: HashFunction, provider: Id, s: Summary, workload: Id, owner: Id, lease: int,
                        consumer: Option<Id>):
    (r: Decision)
  {
    var parsed := ParseInt64(s.lease);
    if owner != provider then Refuse(WorkloadProviderMismatch)
    else if parsed.None? || parsed.value < 0 || parsed.value != lease then Refuse(LeaseMismatch)
    else if CURRENT_VERSION !in SCHEDULES then Refuse(UnknownPriceVersion)
    else
      var charge := ComputeCharge(SCHEDULES[CURRENT_VERSION], s.usage);
      if charge.None? then Refuse(ChargeOverflow)
      else Proceed(Request(provider, s, workload, lease, consumer, hash(SignedBytes(s)), charge.value))
  }

  // ----- durable tables -----

  datatype Evidence = Evidence(provider: Id, workload: Id, summary: Summary, lease: int, hash: seq<Byte>)

  datatype Line = Line(evidence: nat, provider: Id, consumer: Option<Id>, workload: Id, lease: int, version: nat,
                       charge: Charge, hash: seq<Byte>)

  datatype Rejection = Rejection(provider: Id, workload: Option<Id>, sequence: Option<int>, reason: Outcome,
      hash: Option<seq<Byte>>)

  /** A row's id is its position; the tables are append-only. */
  datatype Ledger = Ledger(cursors: map<(Id, Id), nat>, evidence: seq<Evidence>, invoices: seq<Line>,
      rejections: seq<Rejection>)

  datatype Result = Result(outcome: Outcome, evidence: nat, line: nat, total: nat)

  function Cursor(db: Ledger, provider: Id, workload: Id): (r: nat) {
    if (provider, workload) in db.cursors then db.cursors[(provider, workload)] else 0
  }

  predicate Bigint(n: nat) {
    n <= MAX_INT64
  }

  /** Every value that goes into a bigint column fits one. */
  predicate FitsBigint(q: Request) {
    && Bigint(q.summary.sequence)
    && Bigint(q.summary.usage.cpu) && Bigint(q.summary.usage.ram) && Bigint(q.summary.usage.storage)
    && Bigint(q.summary.usage.egress) && Bigint(q.summary.usage.ingress) && Bigint(q.summary.usage.gpu)
    && Bigint(q.charge.cpu) && Bigint(q.charge.ram) && Bigint(q.charge.storage)
    && Bigint(q.charge.network) && Bigint(q.charge.total)
  }

  predicate IsRow(e: Evidence, provider: Id, workload: Id, sequence: nat) {
    e.provider == provider && e.workload == workload && e.summary.sequence == sequence
  }

  function FindRow(rows: seq<Evidence>, provider: Id, workload: Id, sequence: nat): (r: Option<nat>) {
    if rows == [] then None
    else if IsRow(rows[|rows| - 1], provider, workload, sequence) then Some(|rows| - 1)
    else FindRow(rows[..|rows| - 1], provider, workload, sequence)
  }

  function FindLine(lines: seq<Line>, evidence: nat): (r: Option<nat>) {
    if lines == [] then None
    else if lines[|lines| - 1].evidence == evidence then Some(|lines| - 1)
    else FindLine(lines[..|lines| - 1], evidence)
  }

  /** A sequence that is not fresh: replayed, conflicting, or out of order. */
  function ClassifyStale(db: Ledger, q: Request): (r: Option<Result>) {
    var row := FindRow(db.evidence, q.provider, q.workload, q.summary.sequence);
    if row.None? then Some(Result(OutOfOrder, 0, 0, 0))
    else if row.value >= |db.evidence| || db.evidence[row.value].hash != q.hash then
        Some(Result(ConflictingEvidence, row.value, 0, 0))
    else
      var line := FindLine(db.invoices, row.value);
      if line.None? || line.value >= |db.invoices| then None
      else Some(Result(Duplicate, row.value, line.value, db.invoices[line.value].charge.total))
  }

  function OpenCursor(db: Ledger, q: Request): (r: Ledger) {
    var key := (q.provider, q.workload);
    if key in db.cursors then db else db.(cursors := db.cursors[key := 0])
  }

  function Book(db: Ledger, q: Request): (r: Ledger) {
    var row := Evidence(q.provider, q.workload, q.summary, q.lease, q.hash);
    var line := Line(|db.evidence|, q.provider, q.consumer, q.workload, q.lease, CURRENT_VERSION, q.charge, q.hash);
    db.(cursors := db.cursors[(q.provider, q.workload) := q.summary.sequence],
        evidence := db.evidence + [row],
        invoices := db.invoices + [line])
  }

  /** The transaction; None is an error, after which nothing was committed. */
  function AcceptEvidence(db: Ledger, q: Request): (r: (Ledger, Option<Result>)) {
    if !FitsBigint(q) then (db, None)
    else if q.summary.sequence <= Cursor(db, q.provider, q.workload) then
      var result := ClassifyStale(db, q);
      (if result.None? then db else OpenCursor(db, q), result)
    else
      (Book(db, q), Some(Result(Accepted, |db.evidence|, |db.invoices|, q.charge.total)))
  }

  /** A uint64 stored through `int64`. */
  function AsInt64(n: nat): (r: int) {
    if n <= MAX_INT64 then n else n - U64
  }

  /** The row `reject` inserts; None if the workload's text does not fit its uuid column. */
  function Rejected(f: Primitives, sub: Submission, outcome: Outcome): (r: Option<Rejection>) {
    match sub.summary
    case None => Some(Rejection(sub.provider, None, None, outcome, None))
    case Some(s) =>
      if f.uuid(s.workload).None? then None
      else Some(Rejection(sub.provider, f.uuid(s.workload), if s.sequence == 0 then None else Some(AsInt64(s.sequence)),
                          outcome, Some(f.hash(SignedBytes(s)))))
  }

  /** The audit insert, given whether the database takes a row it can hold. */
  function Audit(db: Ledger, row: Option<Rejection>, written: bool): (r: Ledger) {
    if written && row.Some? then db.(rejections := db.rejections + [row.value]) else db
  }

  /** What RecordUsage does once it has decided, given whether its transaction commits and
      the database takes its audit insert.  None is an error answer. */
  function Finish(f: Primitives, db: Ledger, sub: Submission, d: Decision, commits: bool, audits: bool):
    (r: (Ledger, Option<Outcome>))
  {
    match d
    case Refuse(outcome) =>
      var row := Rejected(f, sub, outcome);
      (Audit(db, row, audits), if audits && row.Some? then Some(outcome) else None)
    case LookupFailed => (db, None)
    case Proceed(q) =>
      if !commits then (db, None)
      else
        var (after, result) := AcceptEvidence(db, q);
        if result.None? then (after, None)
        else if result.value.outcome in {Accepted, Duplicate} then (after, Some(result.value.outcome))
        else (Audit(after, Rejected(f, sub, result.value.outcome), audits), Some(result.value.outcome))
  }

  function RecordUsage(f: Primitives, db: Ledger, sub: Submission, commits: bool, audits: bool):
    (r: (Ledger, Option<Outcome>))
  {
    Finish(f, db, sub, Decide(f, sub), commits, audits)
  }
}
