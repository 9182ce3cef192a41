/** Overflow-checked charges (control-plane/internal/metering/price.go). */
module Price {
  import opened Base
  import opened Bytes

  type Amount = n: nat | n < U64

  datatype Schedule = Schedule(version: nat, cpu: Amount, ram: Amount, storage: Amount, network: Amount)

  datatype Usage = Usage(cpu: Amount, ram: Amount, storage: Amount, egress: Amount, ingress: Amount, gpu: Amount)

  datatype Charge = Charge(cpu: Amount, ram: Amount, storage: Amount, network: Amount, total: Amount)

  /** The versioned price table. */
  const SCHEDULES: map<nat, Schedule> := map[1 := Schedule(1, 1, 1, 1, 1)]

  const CURRENT_VERSION: nat := 1

  /** Multiply with wrap-around, then divide back to detect it. */
  function CheckedMul(a: Amount, b: Amount): (r: Option<Amount>) {
    if a == 0 || b == 0 then Some(0)
    else
      var wrapped := a * b % U64;
      if wrapped / a != b then None else Some(wrapped)
  }

  /** Add with wrap-around; a wrapped sum is smaller than its operand. */
  function CheckedAdd(a: Amount, b: Amount): (r: Option<Amount>) {
    var wrapped := (a + b) % U64;
    if wrapped < a then None else Some(wrapped)
  }

  lemma QuotientBound(r: nat, a: nat, b: nat)
    requires a > 0 && r / a == b
    ensures a * b <= r
  {
    DivisionBounds(r, a);
  }

  lemma ExactQuotient(a: nat, b: nat)
    requires a > 0
    ensures a * b / a == b
  {
    var q := a * b / a;
    DivisionBounds(a * b, a);
    if q > b { MulMonotone(a, b + 1, q); }
    if q < b { MulMonotone(a, q + 1, b); }
  }

  /** Divide-back detects every wrapped product and flags no other. */
  lemma CheckedMulExact(a: Amount, b: Amount)
    ensures CheckedMul(a, b) == if a * b < U64 then Some(a * b) else None
  {
    if a != 0 && b != 0 {
      if a * b < U64 { ExactQuotient(a, b); }
      else if a * b % U64 / a == b { QuotientBound(a * b % U64, a, b); }
    }
  }

  lemma CheckedAddExact(a: Amount, b: Amount)
    ensures CheckedAdd(a, b) == if a + b < U64 then Some(a + b) else None
  {
  }

  /** cpu*rate + ram*rate + storage*rate + (egress+ingress)*rate; GPU time is not priced. */
  function ComputeCharge(p: Schedule, u: Usage): (r: Option<Charge>) {
    var cpu := CheckedMul(u.cpu, p.cpu);
    if cpu.None? then None else
    var ram := CheckedMul(u.ram, p.ram);
    if ram.None? then None else
    var storage := CheckedMul(u.storage, p.storage);
    if storage.None? then None else
    var mb := CheckedAdd(u.egress, u.ingress);
    if mb.None? then None else
    var network := CheckedMul(mb.value, p.network);
    if network.None? then None else
    var t1 := CheckedAdd(cpu.value, ram.value);
    if t1.None? then None else
    var t2 := CheckedAdd(t1.value, storage.value);
    if t2.None? then None else
    var t3 := CheckedAdd(t2.value, network.value);
    if t3.None? then None else
    Some(Charge(cpu.value, ram.value, storage.value, network.value, t3.value))
  }

  function ExactTotal(p: Schedule, u: Usage): (r: nat) {
    u.cpu * p.cpu + u.ram * p.ram + u.storage * p.storage + (u.egress + u.ingress) * p.network
  }

  /** Every amount is the exact mathematical value. */
  predicate Exactly(p: Schedule, u: Usage, c: Charge) {
    && c.cpu == u.cpu * p.cpu && c.ram == u.ram * p.ram && c.storage == u.storage * p.storage
    && c.network == (u.egress + u.ingress) * p.network
    && c.total == c.cpu + c.ram + c.storage + c.network
  }

  /** A charge is computed exactly when the traffic sum and the exact total fit in 64
      bits, and then every amount is the exact mathematical value. */
  lemma ChargeExact(p: Schedule, u: Usage)
    ensures ComputeCharge(p, u).Some? <==> u.egress + u.ingress < U64 && ExactTotal(p, u) < U64
    ensures ComputeCharge(p, u).Some? ==>
              Exactly(p, u, ComputeCharge(p, u).value) && ComputeCharge(p, u).value.total == ExactTotal(p, u)
  {
    CheckedMulExact(u.cpu, p.cpu);
    CheckedMulExact(u.ram, p.ram);
    CheckedMulExact(u.storage, p.storage);
    CheckedAddExact(u.egress, u.ingress);
    if u.egress + u.ingress < U64 {
      CheckedMulExact(u.egress + u.ingress, p.network);
      var a, b, c, d := u.cpu * p.cpu, u.ram * p.ram, u.storage * p.storage, (u.egress + u.ingress) * p.network;
      assert a >= 0 && b >= 0 && c >= 0 && d >= 0;
      if a < U64 && b < U64 && c < U64 && d < U64 {
        CheckedAddExact(a, b);
        if a + b < U64 {
          CheckedAddExact(a + b, c);
          if a + b + c < U64 { CheckedAddExact(a + b + c, d); }
        }
      }
    }
  }
}
