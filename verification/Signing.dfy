/** The canonical signed bytes of a metering summary (control-plane/internal/metering/signing.go). */
module Signing {
  import opened Base
  import opened Bytes
  import opened Price

  type Id = seq<Byte>

  datatype Summary = Summary(
    workload: Id,
    lease: Id,
    sequence: Amount,
    periodStart: Amount,
    periodEnd: Amount,
    schema: nat,
    usage: Usage)

  predicate Wire(s: Summary) {
    s.schema < U32
  }

  /** "openinfra-metering-v1" and a zero byte. */
  const DOMAIN: seq<Byte> :=
    [111, 112, 101, 110, 105, 110, 102, 114, 97, 45, 109, 101, 116, 101, 114, 105, 110, 103, 45, 118, 49, 0]

  /** The length prefix is a uint32 of the length, so it wraps. */
  function Prefixed(value: Id): (s: seq<Byte>) {
    BE(Truncate(|value|, U32), 4) + value
  }

  function Numbers(s: Summary): (r: seq<Byte>) {
    BE(s.sequence, 8) + (BE(s.periodStart, 8) + (BE(s.periodEnd, 8) + (BE(s.schema, 4) +
      (BE(s.usage.cpu, 8) + (BE(s.usage.ram, 8) + (BE(s.usage.storage, 8) +
        (BE(s.usage.egress, 8) + (BE(s.usage.ingress, 8) + BE(s.usage.gpu, 8)))))))))
  }

  function SignedBytes(s: Summary): (r: seq<Byte>) {
    DOMAIN + (Prefixed(s.workload) + (Prefixed(s.lease) + Numbers(s)))
  }

  lemma Grouping(x: seq<Byte>, y: seq<Byte>, z: seq<Byte>)
    ensures x + y + z == x + (y + z)
  {
  }

  /** One append: what is still to come shrinks by the bytes appended. */
  method Append(signed: seq<Byte>, bytes: seq<Byte>, ghost rest: seq<Byte>, ghost whole: seq<Byte>)
    returns (longer: seq<Byte>)
    requires signed + (bytes + rest) == whole
    ensures longer == signed + bytes && longer + rest == whole
  {
    longer := signed + bytes;
    Grouping(signed, bytes, rest);
  }

  /** The source's buffer, grown append by append. */
  method BuildSignedBytes(s: Summary) returns (signed: seq<Byte>)
    ensures signed == SignedBytes(s)
  {
    ghost var whole := SignedBytes(s);
    ghost var r9 := BE(s.usage.ingress, 8) + BE(s.usage.gpu, 8);
    ghost var r8 := BE(s.usage.egress, 8) + r9;
    ghost var r7 := BE(s.usage.storage, 8) + r8;
    ghost var r6 := BE(s.usage.ram, 8) + r7;
    ghost var r5 := BE(s.usage.cpu, 8) + r6;
    ghost var r4 := BE(s.schema, 4) + r5;
    ghost var r3 := BE(s.periodEnd, 8) + r4;
    ghost var r2 := BE(s.periodStart, 8) + r3;
    ghost var r1 := Numbers(s);
    ghost var r0 := Prefixed(s.lease) + r1;
    signed := DOMAIN;
    Grouping(BE(Truncate(|s.workload|, U32), 4), s.workload, r0);
    signed := Append(signed, BE(Truncate(|s.workload|, U32), 4), s.workload + r0, whole);
    signed := Append(signed, s.workload, r0, whole);
    Grouping(BE(Truncate(|s.lease|, U32), 4), s.lease, r1);
    signed := Append(signed, BE(Truncate(|s.lease|, U32), 4), s.lease + r1, whole);
    signed := Append(signed, s.lease, r1, whole);
    signed := Append(signed, BE(s.sequence, 8), r2, whole);
    signed := Append(signed, BE(s.periodStart, 8), r3, whole);
    signed := Append(signed, BE(s.periodEnd, 8), r4, whole);
    signed := Append(signed, BE(s.schema, 4), r5, whole);
    signed := Append(signed, BE(s.usage.cpu, 8), r6, whole);
    signed := Append(signed, BE(s.usage.ram, 8), r7, whole);
    signed := Append(signed, BE(s.usage.storage, 8), r8, whole);
    signed := Append(signed, BE(s.usage.egress, 8), r9, whole);
    signed := Append(signed, BE(s.usage.ingress, 8), BE(s.usage.gpu, 8), whole);
    signed := signed + BE(s.usage.gpu, 8);
  }

  // ----- the layout -----

  function Ascii(text: string): (s: seq<Byte>)
    requires forall i :: 0 <= i < |text| ==> text[i] as int < 256
  {
    seq(|text|, i requires 0 <= i < |text| => text[i] as int)
  }

  lemma DomainIs()
    ensures DOMAIN == Ascii("openinfra-metering-v1") + [0]
  {
  }

  lemma FirstBytes(v: nat, n: nat, rest: seq<Byte>)
    requires v < Pow256(n)
    ensures var s := BE(v, n) + rest; s[..n] == BE(v, n) && FromBE(s[..n]) == v && s[n..] == rest
  {
    BERoundTrip(v, n);
    assert (BE(v, n) + rest)[..n] == BE(v, n);
  }

  /** The number at `at`, `n` bytes long. */
  function At(s: seq<Byte>, at: nat, n: nat): (v: nat)
    requires at + n <= |s|
  {
    FromBE(s[at..at + n])
  }

  lemma AtNext(a: seq<Byte>, rest: seq<Byte>, at: nat, n: nat)
    requires at + n <= |rest|
    ensures At(a + rest, |a| + at, n) == At(rest, at, n)
  {
    assert (a + rest)[|a| + at..|a| + at + n] == rest[at..at + n];
  }

  lemma NumberAt(v: nat, n: nat, rest: seq<Byte>)
    requires v < Pow256(n)
    ensures At(BE(v, n) + rest, 0, n) == v
  {
    FirstBytes(v, n, rest);
    assert (BE(v, n) + rest)[0..n] == (BE(v, n) + rest)[..n];
  }

  lemma UsageLayout(u: Usage)
    ensures var s := BE(u.cpu, 8)
                     + (BE(u.ram, 8) + (BE(u.storage, 8) + (BE(u.egress, 8) + (BE(u.ingress, 8) + BE(u.gpu, 8)))));
            && |s| == 48 && At(s, 0, 8) == u.cpu && At(s, 8, 8) == u.ram && At(s, 16, 8) == u.storage
            && At(s, 24, 8) == u.egress && At(s, 32, 8) == u.ingress && At(s, 40, 8) == u.gpu
  {
    Pow256Values();
    var s5 := BE(u.gpu, 8);
    var s4 := BE(u.ingress, 8) + s5;
    var s3 := BE(u.egress, 8) + s4;
    var s2 := BE(u.storage, 8) + s3;
    var s1 := BE(u.ram, 8) + s2;
    BERoundTrip(u.gpu, 8);
    assert s5[0..8] == s5;
    NumberAt(u.ingress, 8, s5);
    AtNext(BE(u.ingress, 8), s5, 0, 8);
    NumberAt(u.egress, 8, s4);
    AtNext(BE(u.egress, 8), s4, 0, 8);
    AtNext(BE(u.egress, 8), s4, 8, 8);
    NumberAt(u.storage, 8, s3);
    AtNext(BE(u.storage, 8), s3, 0, 8);
    AtNext(BE(u.storage, 8), s3, 8, 8);
    AtNext(BE(u.storage, 8), s3, 16, 8);
    NumberAt(u.ram, 8, s2);
    AtNext(BE(u.ram, 8), s2, 0, 8);
    AtNext(BE(u.ram, 8), s2, 8, 8);
    AtNext(BE(u.ram, 8), s2, 16, 8);
    AtNext(BE(u.ram, 8), s2, 24, 8);
    NumberAt(u.cpu, 8, s1);
    AtNext(BE(u.cpu, 8), s1, 0, 8);
    AtNext(BE(u.cpu, 8), s1, 8, 8);
    AtNext(BE(u.cpu, 8), s1, 16, 8);
    AtNext(BE(u.cpu, 8), s1, 24, 8);
    AtNext(BE(u.cpu, 8), s1, 32, 8);
  }

  lemma NumbersLayout(s: Summary)
    requires Wire(s)
    ensures var b := Numbers(s);
            && |b| == 76 && At(b, 0, 8) == s.sequence && At(b, 8, 8) == s.periodStart && At(b, 16, 8) == s.periodEnd
            && At(b, 24, 4) == s.schema
            && At(b, 28, 8) == s.usage.cpu && At(b, 36, 8) == s.usage.ram && At(b, 44, 8) == s.usage.storage
            && At(b, 52, 8) == s.usage.egress && At(b, 60, 8) == s.usage.ingress && At(b, 68, 8) == s.usage.gpu
  {
    Pow256Values();
    var u := s.usage;
    var s4 := BE(u.cpu, 8)
              + (BE(u.ram, 8) + (BE(u.storage, 8) + (BE(u.egress, 8) + (BE(u.ingress, 8) + BE(u.gpu, 8)))));
    var s3 := BE(s.schema, 4) + s4;
    var s2 := BE(s.periodEnd, 8) + s3;
    var s1 := BE(s.periodStart, 8) + s2;
    UsageLayout(u);
    NumberAt(s.schema, 4, s4);
    NumberAt(s.periodEnd, 8, s3);
    NumberAt(s.periodStart, 8, s2);
    NumberAt(s.sequence, 8, s1);
    AtNext(BE(s.periodEnd, 8), s3, 0, 4);
    AtNext(BE(s.periodStart, 8), s2, 0, 8);
    AtNext(BE(s.periodStart, 8), s2, 8, 4);
    AtNext(BE(s.sequence, 8), s1, 0, 8);
    AtNext(BE(s.sequence, 8), s1, 8, 8);
    AtNext(BE(s.sequence, 8), s1, 16, 4);
    forall k: nat | k + 8 <= 48 ensures At(Numbers(s), 28 + k, 8) == At(s4, k, 8) {
      AtNext(BE(s.schema, 4), s4, k, 8);
      AtNext(BE(s.periodEnd, 8), s3, 4 + k, 8);
      AtNext(BE(s.periodStart, 8), s2, 12 + k, 8);
      AtNext(BE(s.sequence, 8), s1, 20 + k, 8);
    }
    assert forall k: nat :: k + 8 <= 48 ==> At(Numbers(s), 28 + k, 8) == At(s4, k, 8);
    assert At(Numbers(s), 28 + 0, 8) == u.cpu && At(Numbers(s), 28 + 8, 8) == u.ram;
    assert At(Numbers(s), 28 + 16, 8) == u.storage && At(Numbers(s), 28 + 24, 8) == u.egress;
    assert At(Numbers(s), 28 + 32, 8) == u.ingress && At(Numbers(s), 28 + 40, 8) == u.gpu;
  }

  lemma IdAt(before: seq<Byte>, id: Id, after: seq<Byte>)
    requires |id| < U32
    ensures var s, n := before + (Prefixed(id) + after), |before|;
            && At(s, n, 4) == |id| && s[n + 4..n + 4 + |id|] == id && s[n + 4 + |id|..] == after
  {
    Pow256Values();
    var rest := id + after;
    assert Prefixed(id) + after == BE(|id|, 4) + rest;
    NumberAt(|id|, 4, rest);
    AtNext(before, BE(|id|, 4) + rest, 0, 4);
    var s := before + (BE(|id|, 4) + rest);
    assert s[|before| + 4..] == rest;
  }

  /** What stands where: the domain, the two ids with their lengths, and the ten numbers, all big
      endian, in the order the agent signs them. */
  lemma LayoutIs(s: Summary)
    requires Wire(s) && |s.workload| < U32 && |s.lease| < U32
    ensures var b, w, n := SignedBytes(s), 26 + |s.workload|, 30 + |s.workload| + |s.lease|;
            && |b| == n + 76 && b[..22] == DOMAIN
            && At(b, 22, 4) == |s.workload| && b[26..w] == s.workload
            && At(b, w, 4) == |s.lease| && b[w + 4..n] == s.lease
            && b[n..] == Numbers(s)
  {
    NumbersLayout(s);
    var rest := Prefixed(s.lease) + Numbers(s);
    IdAt(DOMAIN, s.workload, rest);
    var head := DOMAIN + Prefixed(s.workload);
    Grouping(DOMAIN, Prefixed(s.workload), rest);
    IdAt(head, s.lease, Numbers(s));
    assert |head| == 26 + |s.workload|;
  }

  // ----- injectivity -----

  lemma NumberFirst(a: nat, b: nat, n: nat, x: seq<Byte>, y: seq<Byte>)
    requires a < Pow256(n) && b < Pow256(n) && BE(a, n) + x == BE(b, n) + y
    ensures a == b && x == y
  {
    SplitAt(BE(a, n), x, BE(b, n), y);
    BEInjective(a, b, n);
  }

  lemma LengthFirst(n: nat, a: Id, b: Id, x: seq<Byte>, y: seq<Byte>)
    requires |a| < Pow256(n) && |b| < Pow256(n) && BE(|a|, n) + a + x == BE(|b|, n) + b + y
    ensures a == b && x == y
  {
    Grouping(BE(|a|, n), a, x);
    Grouping(BE(|b|, n), b, y);
    NumberFirst(|a|, |b|, n, a + x, b + y);
    SplitAt(a, x, b, y);
  }

  lemma ShortPrefix(a: Id)
    requires |a| < U32
    ensures Prefixed(a) == BE(|a|, 4) + a
  {
  }

  lemma PrefixedFirst(a: Id, b: Id, x: seq<Byte>, y: seq<Byte>)
    requires |a| < U32 && |b| < U32 && Prefixed(a) + x == Prefixed(b) + y
    ensures a == b && x == y
  {
    Pow256Values();
    ShortPrefix(a);
    ShortPrefix(b);
    LengthFirst(4, a, b, x, y);
  }

  lemma NumbersInjective(a: Summary, b: Summary)
    requires Wire(a) && Wire(b) && Numbers(a) == Numbers(b)
    ensures a.(workload := b.workload, lease := b.lease) == b
  {
    Pow256Values();
    var g, h := BE(a.usage.gpu, 8), BE(b.usage.gpu, 8);
    var a9, b9 := BE(a.usage.ingress, 8) + g, BE(b.usage.ingress, 8) + h;
    var a8, b8 := BE(a.usage.egress, 8) + a9, BE(b.usage.egress, 8) + b9;
    var a7, b7 := BE(a.usage.storage, 8) + a8, BE(b.usage.storage, 8) + b8;
    var a6, b6 := BE(a.usage.ram, 8) + a7, BE(b.usage.ram, 8) + b7;
    var a5, b5 := BE(a.usage.cpu, 8) + a6, BE(b.usage.cpu, 8) + b6;
    var a4, b4 := BE(a.schema, 4) + a5, BE(b.schema, 4) + b5;
    var a3, b3 := BE(a.periodEnd, 8) + a4, BE(b.periodEnd, 8) + b4;
    var a2, b2 := BE(a.periodStart, 8) + a3, BE(b.periodStart, 8) + b3;
    NumberFirst(a.sequence, b.sequence, 8, a2, b2);
    NumberFirst(a.periodStart, b.periodStart, 8, a3, b3);
    NumberFirst(a.periodEnd, b.periodEnd, 8, a4, b4);
    NumberFirst(a.schema, b.schema, 4, a5, b5);
    NumberFirst(a.usage.cpu, b.usage.cpu, 8, a6, b6);
    NumberFirst(a.usage.ram, b.usage.ram, 8, a7, b7);
    NumberFirst(a.usage.storage, b.usage.storage, 8, a8, b8);
    NumberFirst(a.usage.egress, b.usage.egress, 8, a9, b9);
    NumberFirst(a.usage.ingress, b.usage.ingress, 8, g, h);
    BEInjective(a.usage.gpu, b.usage.gpu, 8);
  }

  /** Different summaries with ids shorter than 2^32 bytes never share their signed bytes. */
  lemma SignedBytesInjective(a: Summary, b: Summary)
    requires Wire(a) && Wire(b)
    requires |a.workload| < U32 && |a.lease| < U32 && |b.workload| < U32 && |b.lease| < U32
    requires SignedBytes(a) == SignedBytes(b)
    ensures a == b
  {
    var x, y := Prefixed(a.lease) + Numbers(a), Prefixed(b.lease) + Numbers(b);
    SplitAt(DOMAIN, Prefixed(a.workload) + x, DOMAIN, Prefixed(b.workload) + y);
    PrefixedFirst(a.workload, b.workload, x, y);
    PrefixedFirst(a.lease, b.lease, Numbers(a), Numbers(b));
    NumbersInjective(a, b);
  }

  function Zeros(n: nat): (s: seq<Byte>)
    ensures |s| == n
  {
    seq(n, i => 0)
  }

  /** The bound is tight: one id of 2^32 zero bytes can move between the two id fields. */
  lemma LongIdsCollide(s: Summary)
    requires Wire(s)
    ensures var long := Zeros(U32);
            var a, b := s.(workload := long, lease := []), s.(workload := [], lease := long);
            a != b && SignedBytes(a) == SignedBytes(b)
  {
    var long := Zeros(U32);
    var a, b := s.(workload := long, lease := []), s.(workload := [], lease := long);
    ZeroPrefix();
    ZerosMove(4, U32);
    Grouping(Zeros(4) + long, Zeros(4) + [], Numbers(s));
    Grouping(Zeros(4) + [], Zeros(4) + long, Numbers(s));
    assert Zeros(4) + [] == Zeros(4);
    assert |a.workload| != |b.workload|;
  }

  lemma ZeroPrefix()
    ensures BE(0, 4) == Zeros(4)
  {
    assert BE(0, 1) == [0];
    assert BE(0, 2) == [0, 0];
    assert BE(0, 3) == [0, 0, 0];
  }

  lemma ZerosMove(m: nat, n: nat)
    ensures Zeros(m) + Zeros(n) + Zeros(m) == Zeros(m) + (Zeros(m) + Zeros(n))
  {
  }
}
