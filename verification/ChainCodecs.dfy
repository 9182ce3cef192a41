/** Readers of finalized chain storage (control-plane/internal/blockchainbridge): account
    vectors, evidence submissions, availability summaries and resource offers, against the
    SCALE forms the pallets store.  `Panic` is a Go run-time panic. */
module ChainCodecs {
  import opened Base
  import opened Bytes
  import opened CompactCodec

  datatype Read<T> = Ok(value: T) | Err | Panic

  // ----- fixed-width elements -----

  function Flatten(xs: seq<seq<Byte>>): (s: seq<Byte>) {
    if xs == [] then [] else xs[0] + Flatten(xs[1..])
  }

  /** `s` cut into `w` bytes at a time; an incomplete tail is dropped. */
  function Chunks(s: seq<Byte>, w: nat): (xs: seq<seq<Byte>>) {
    if w == 0 || |s| < w then [] else [s[..w]] + Chunks(s[w..], w)
  }

  predicate AllWide(xs: seq<seq<Byte>>, w: nat) {
    forall i :: 0 <= i < |xs| ==> |xs[i]| == w
  }

  lemma {:induction false} FlattenLength(xs: seq<seq<Byte>>, w: nat)
    requires AllWide(xs, w)
    ensures |Flatten(xs)| == |xs| * w
    decreases |xs|
  {
    if xs != [] {
      FlattenLength(xs[1..], w);
      assert |xs| * w == (|xs| - 1) * w + w;
    }
  }

  lemma {:induction false} ChunksOfFlatten(xs: seq<seq<Byte>>, w: nat)
    requires w > 0 && AllWide(xs, w)
    ensures Chunks(Flatten(xs), w) == xs
    decreases |xs|
  {
    if xs != [] {
      ChunksOfFlatten(xs[1..], w);
      assert Flatten(xs)[..w] == xs[0] && Flatten(xs)[w..] == Flatten(xs[1..]);
    }
  }

  lemma {:induction false} FlattenOfChunks(s: seq<Byte>, w: nat, count: nat)
    requires w > 0 && |s| == count * w
    ensures Flatten(Chunks(s, w)) == s && |Chunks(s, w)| == count && AllWide(Chunks(s, w), w)
    decreases count
  {
    if count > 0 {
      assert count * w == (count - 1) * w + w;
      Multiple(count - 1, w);
      FlattenOfChunks(s[w..], w, count - 1);
      assert Chunks(s, w)[1..] == Chunks(s[w..], w);
      assert s == s[..w] + s[w..];
    }
  }

  lemma Multiple(k: nat, w: nat)
    ensures k * w >= 0
  {
  }

  lemma {:induction false} FlattenAppend(xs: seq<seq<Byte>>, x: seq<Byte>)
    ensures Flatten(xs + [x]) == Flatten(xs) + x
    decreases |xs|
  {
    if xs == [] {
      assert [x][1..] == [];
    } else {
      FlattenAppend(xs[1..], x);
      assert (xs + [x])[1..] == xs[1..] + [x];
    }
  }

  // ----- vectors of account ids -----

  function EncodeAccounts(xs: seq<seq<Byte>>): (s: seq<Byte>)
    requires |xs| < U64
  {
    Compact(|xs|) + Flatten(xs)
  }

  /** decodeAccountIdVec: `count * 32` is taken in a uint64, and a slice of more than
      2^59 - 1 accounts cannot be made. */
  function DecodeAccounts(data: seq<Byte>): (r: Read<seq<seq<Byte>>>) {
    match Decoded(data)
    case None => Err
    case Some((count, offset)) =>
      if offset > |data| || |data| - offset != Truncate(count * 32, U64) then Err
      else if count >= U59 then Panic
      else Ok(Chunks(data[offset..], 32))
  }

  const U59: nat := 0x800_0000_0000_0000

  lemma DecodedFits(data: seq<Byte>)
    requires Decoded(data).Some?
    ensures Decoded(data).value.1 <= |data|
  {
  }

  method ReadAccounts(data: seq<Byte>) returns (r: Read<seq<seq<Byte>>>)
    ensures r == DecodeAccounts(data)
  {
    var prefix := DecodeCompactUint(data);
    if prefix.None? { return Err; }
    var (count, offset) := prefix.value;
    DecodedFits(data);
    var remaining := |data| - offset;
    if remaining != Truncate(count * 32, U64) { return Err; }
    if count >= U59 { return Panic; }
    var accounts: seq<seq<Byte>> := [];
    var i := 0;
    while i < count
      invariant 0 <= i <= count && |accounts| == i && AllWide(accounts, 32)
      invariant Flatten(accounts) == data[offset..offset + i * 32]
    {
      var account := data[offset + i * 32..offset + (i + 1) * 32];
      FlattenAppend(accounts, account);
      assert data[offset..offset + (i + 1) * 32] == data[offset..offset + i * 32] + account;
      accounts := accounts + [account];
      i := i + 1;
    }
    assert data[offset..offset + count * 32] == data[offset..];
    ChunksOfFlatten(accounts, 32);
    return Ok(accounts);
  }

  /** The pallet's vector is read back exactly. */
  lemma AccountsRoundTrip(xs: seq<seq<Byte>>)
    requires AllWide(xs, 32) && |xs| < U59
    ensures DecodeAccounts(EncodeAccounts(xs)) == Ok(xs)
  {
    var data := EncodeAccounts(xs);
    RoundTrip(|xs|, Flatten(xs));
    FlattenLength(xs, 32);
    assert data[|Compact(|xs|)|..] == Flatten(xs);
    ChunksOfFlatten(xs, 32);
  }

  /** Nothing else is accepted: an accepted vector is a count and that many whole accounts. */
  lemma AccountsAccepted(data: seq<Byte>)
    requires DecodeAccounts(data).Ok?
    ensures var xs, n := DecodeAccounts(data).value, Decoded(data).value.1;
            n <= |data| && Decoded(data).value.0 == |xs| && AllWide(xs, 32) && data[n..] == Flatten(xs)
  {
    var (count, n) := Decoded(data).value;
    FlattenOfChunks(data[n..], 32, count);
  }

  /** The length test meant to keep a corrupt prefix out is no bar from 2^59 on: the reader
      panics exactly when 32 times the count overflows onto the number of bytes left. */
  lemma AccountsPanicIff(data: seq<Byte>)
    ensures DecodeAccounts(data).Panic? <==>
              && Decoded(data).Some? && Decoded(data).value.0 >= U59
              && |data| - Decoded(data).value.1 == Decoded(data).value.0 * 32 % U64
  {
    if Decoded(data).Some? { DecodedFits(data); }
  }

  lemma AccountsPanic()
    ensures DecodeAccounts(Compact(U59)).Panic?
  {
    RoundTrip(U59, []);
    assert Compact(U59) + [] == Compact(U59);
  }

  // ----- evidence submissions -----

  datatype Submission = Submission(validator: seq<Byte>, score: nat, samples: nat, payload: seq<Byte>)

  predicate IsSubmission(x: Submission) {
    |x.validator| == 32 && x.score < 0x1_0000 && x.samples < U32 && |x.payload| == 32
  }

  const MAX_SUBMISSIONS: nat := 32
  const SUBMISSION_LENGTH: nat := 70

  function EncodeSubmission(x: Submission): (s: seq<Byte>) {
    x.validator + (LE(x.score, 2) + (LE(x.samples, 4) + x.payload))
  }

  function DecodeSubmission(e: seq<Byte>): (x: Submission)
    requires |e| == SUBMISSION_LENGTH
  {
    Submission(e[..32], FromLE(e[32..34]), FromLE(e[34..38]), e[38..70])
  }

  function EncodeEach(xs: seq<Submission>): (s: seq<seq<Byte>>)
    ensures |s| == |xs| && forall i :: 0 <= i < |xs| ==> s[i] == EncodeSubmission(xs[i])
  {
    if xs == [] then [] else [EncodeSubmission(xs[0])] + EncodeEach(xs[1..])
  }

  function DecodeEach(es: seq<seq<Byte>>): (xs: seq<Submission>)
    requires AllWide(es, SUBMISSION_LENGTH)
    ensures |xs| == |es| && forall i :: 0 <= i < |es| ==> xs[i] == DecodeSubmission(es[i])
  {
    if es == [] then [] else [DecodeSubmission(es[0])] + DecodeEach(es[1..])
  }

  function EncodeSubmissions(xs: seq<Submission>): (s: seq<Byte>)
    requires |xs| < U64
  {
    Compact(|xs|) + Flatten(EncodeEach(xs))
  }

  /** decodeSubmissions: the count is bounded before the length is computed. */
  function DecodeSubmissions(data: seq<Byte>): (r: Read<seq<Submission>>) {
    match Decoded(data)
    case None => Err
    case Some((count, n)) =>
      if count > MAX_SUBMISSIONS then Err
      else if n > |data| || |data| - n != count * SUBMISSION_LENGTH then Err
      else
        FlattenOfChunks(data[n..], SUBMISSION_LENGTH, count);
        Ok(DecodeEach(Chunks(data[n..], SUBMISSION_LENGTH)))
  }

  lemma SubmissionParts(a: seq<Byte>, b: seq<Byte>, c: seq<Byte>, d: seq<Byte>)
    requires |a| == 32 && |b| == 2 && |c| == 4 && |d| == 32
    ensures var e := a + (b + (c + d)); |e| == 70 && e[..32] == a && e[32..34] == b && e[34..38] == c && e[38..70] == d
  {
  }

  lemma SubmissionRoundTrip(x: Submission)
    requires IsSubmission(x)
    ensures |EncodeSubmission(x)| == SUBMISSION_LENGTH && DecodeSubmission(EncodeSubmission(x)) == x
  {
    SubmissionParts(x.validator, LE(x.score, 2), LE(x.samples, 4), x.payload);
    Pow256Values();
    LERoundTrip(x.score, 2);
    LERoundTrip(x.samples, 4);
  }

  lemma SubmissionBytes(e: seq<Byte>)
    requires |e| == SUBMISSION_LENGTH
    ensures IsSubmission(DecodeSubmission(e)) && EncodeSubmission(DecodeSubmission(e)) == e
  {
    Pow256Values();
    FromLEBound(e[32..34]);
    FromLEBound(e[34..38]);
    FromLERoundTrip(e[32..34]);
    FromLERoundTrip(e[34..38]);
    assert e == e[..32] + (e[32..34] + (e[34..38] + e[38..70]));
  }

  method ReadSubmissions(data: seq<Byte>) returns (r: Read<seq<Submission>>)
    ensures r == DecodeSubmissions(data)
  {
    var prefix := DecodeCompactUint(data);
    if prefix.None? { return Err; }
    var (count, n) := prefix.value;
    DecodedFits(data);
    if count > MAX_SUBMISSIONS { return Err; }
    var body := data[n..];
    if |body| != count * SUBMISSION_LENGTH { return Err; }
    var submissions := CutSubmissions(body, count);
    return Ok(submissions);
  }

  method CutSubmissions(body: seq<Byte>, ghost count: nat) returns (submissions: seq<Submission>)
    requires |body| == count * SUBMISSION_LENGTH
    ensures AllWide(Chunks(body, SUBMISSION_LENGTH), SUBMISSION_LENGTH)
    ensures submissions == DecodeEach(Chunks(body, SUBMISSION_LENGTH))
  {
    FlattenOfChunks(body, SUBMISSION_LENGTH, count);
    submissions := [];
    var offset := 0;
    ghost var cut: seq<seq<Byte>> := [];
    while offset < |body|
      invariant offset == |cut| * SUBMISSION_LENGTH <= |body| && AllWide(cut, SUBMISSION_LENGTH)
      invariant Flatten(cut) == body[..offset]
      invariant submissions == DecodeEach(cut)
    {
      var element := body[offset..offset + SUBMISSION_LENGTH];
      FlattenAppend(cut, element);
      assert body[..offset + SUBMISSION_LENGTH] == body[..offset] + element;
      ghost var more := cut + [element];
      submissions := submissions + [DecodeSubmission(element)];
      assert submissions == DecodeEach(more);
      cut := more;
      offset := offset + SUBMISSION_LENGTH;
    }
    assert body[..offset] == body;
    ChunksOfFlatten(cut, SUBMISSION_LENGTH);
  }

  lemma SubmissionsRoundTrip(xs: seq<Submission>)
    requires |xs| <= MAX_SUBMISSIONS && forall i :: 0 <= i < |xs| ==> IsSubmission(xs[i])
    ensures DecodeSubmissions(EncodeSubmissions(xs)) == Ok(xs)
  {
    var es := EncodeEach(xs);
    forall i | 0 <= i < |xs| ensures |es[i]| == SUBMISSION_LENGTH && DecodeSubmission(es[i]) == xs[i] {
      SubmissionRoundTrip(xs[i]);
    }
    RoundTrip(|xs|, Flatten(es));
    FlattenLength(es, SUBMISSION_LENGTH);
    assert EncodeSubmissions(xs)[|Compact(|xs|)|..] == Flatten(es);
    ChunksOfFlatten(es, SUBMISSION_LENGTH);
    assert DecodeEach(es) == xs;
  }

  /** Never a panic, never a partial vector: what is accepted is a bounded count and exactly
      that many submissions, and the bytes after the count are their encoding. */
  lemma SubmissionsAccepted(data: seq<Byte>)
    ensures !DecodeSubmissions(data).Panic?
    ensures DecodeSubmissions(data).Ok? ==>
              var xs, n := DecodeSubmissions(data).value, Decoded(data).value.1;
              && n <= |data| && Decoded(data).value.0 == |xs| <= MAX_SUBMISSIONS
              && data[n..] == Flatten(EncodeEach(xs)) && forall i :: 0 <= i < |xs| ==> IsSubmission(xs[i])
  {
    if DecodeSubmissions(data).Ok? {
      var (count, n) := Decoded(data).value;
      FlattenOfChunks(data[n..], SUBMISSION_LENGTH, count);
      var es := Chunks(data[n..], SUBMISSION_LENGTH);
      var xs := DecodeEach(es);
      forall i | 0 <= i < |es| ensures IsSubmission(xs[i]) && EncodeEach(xs)[i] == es[i] { SubmissionBytes(es[i]); }
      assert EncodeEach(xs) == es;
    }
  }

  // ----- availability summaries -----

  datatype Summary = Summary(sequence: nat, observed: nat, successful: nat, total: nat, bps: nat, payload: seq<Byte>,
      signature: seq<Byte>)

  const SUMMARY_FIXED: nat := 54
  const MAX_SIGNATURE: nat := 96

  predicate IsSummary(x: Summary) {
    && x.sequence < U64 && x.observed < U32 && x.successful < U32 && x.total < U32 && x.bps < 0x1_0000
    && |x.payload| == 32 && |x.signature| <= MAX_SIGNATURE
  }

  function EncodeFixed(x: Summary): (s: seq<Byte>) {
    LE(x.sequence, 8) + (LE(x.observed, 4) + (LE(x.successful, 4) + (LE(x.total, 4) + (LE(x.bps, 2) + x.payload))))
  }

  function EncodeSummary(x: Summary): (s: seq<Byte>)
    requires |x.signature| < U64
  {
    EncodeFixed(x) + (Compact(|x.signature|) + x.signature)
  }

  function DecodeFixed(f: seq<Byte>, signature: seq<Byte>): (x: Summary)
    requires |f| == SUMMARY_FIXED
  {
    Summary(FromLE(f[0..8]), FromLE(f[8..12]), FromLE(f[12..16]), FromLE(f[16..20]), FromLE(f[20..22]), f[22..54],
        signature)
  }

  function DecodeSummary(data: seq<Byte>): (r: Read<Summary>) {
    if |data| < SUMMARY_FIXED then Err
    else match Decoded(data[SUMMARY_FIXED..])
      case None => Err
      case Some((length, n)) =>
        var start := SUMMARY_FIXED + n;
        if length > MAX_SIGNATURE || |data| != start + length then Err
        else Ok(DecodeFixed(data[..SUMMARY_FIXED], data[start..]))
  }

  lemma FixedParts(a: seq<Byte>, b: seq<Byte>, c: seq<Byte>, d: seq<Byte>, e: seq<Byte>, f: seq<Byte>)
    requires |a| == 8 && |b| == 4 && |c| == 4 && |d| == 4 && |e| == 2 && |f| == 32
    ensures var s := a + (b + (c + (d + (e + f))));
            |s| == 54 && s[0..8] == a && s[8..12] == b && s[12..16] == c && s[16..20] == d && s[20..22] == e
                && s[22..54] == f
  {
  }

  lemma FixedRoundTrip(x: Summary)
    requires IsSummary(x)
    ensures |EncodeFixed(x)| == SUMMARY_FIXED && DecodeFixed(EncodeFixed(x), x.signature) == x
  {
    FixedParts(LE(x.sequence, 8), LE(x.observed, 4), LE(x.successful, 4), LE(x.total, 4), LE(x.bps, 2), x.payload);
    Pow256Values();
    LERoundTrip(x.sequence, 8);
    LERoundTrip(x.observed, 4);
    LERoundTrip(x.successful, 4);
    LERoundTrip(x.total, 4);
    LERoundTrip(x.bps, 2);
  }

  lemma SummaryRoundTrip(x: Summary)
    requires IsSummary(x)
    ensures DecodeSummary(EncodeSummary(x)) == Ok(x)
  {
    FixedRoundTrip(x);
    SummaryTail(EncodeFixed(x), x.signature);
  }

  lemma SummaryTail(fixed: seq<Byte>, signature: seq<Byte>)
    requires |fixed| == SUMMARY_FIXED && |signature| <= MAX_SIGNATURE
    ensures DecodeSummary(fixed + (Compact(|signature|) + signature)) == Ok(DecodeFixed(fixed, signature))
  {
    var tail := Compact(|signature|) + signature;
    var data := fixed + tail;
    assert data[..SUMMARY_FIXED] == fixed && data[SUMMARY_FIXED..] == tail;
    RoundTrip(|signature|, signature);
    assert data[SUMMARY_FIXED + |Compact(|signature|)|..] == signature;
  }

  lemma FixedInRange(f: seq<Byte>, signature: seq<Byte>)
    requires |f| == SUMMARY_FIXED && |signature| <= MAX_SIGNATURE
    ensures IsSummary(DecodeFixed(f, signature))
  {
    Pow256Values();
    FromLEBound(f[0..8]);
    FromLEBound(f[8..12]);
    FromLEBound(f[12..16]);
    FromLEBound(f[16..20]);
    FromLEBound(f[20..22]);
  }

  lemma FixedBytes(f: seq<Byte>, signature: seq<Byte>)
    requires |f| == SUMMARY_FIXED
    ensures EncodeFixed(DecodeFixed(f, signature)) == f
  {
    FieldBytes(f[0..8]);
    FieldBytes(f[8..12]);
    FieldBytes(f[12..16]);
    FieldBytes(f[16..20]);
    FieldBytes(f[20..22]);
    FixedSlices(f);
  }

  lemma FixedSlices(f: seq<Byte>)
    requires |f| == SUMMARY_FIXED
    ensures f == f[0..8] + (f[8..12] + (f[12..16] + (f[16..20] + (f[20..22] + f[22..54]))))
  {
  }

  lemma FieldBytes(s: seq<Byte>)
    ensures LE(FromLE(s), |s|) == s
  {
    FromLERoundTrip(s);
  }

  /** Every field comes from its own bytes and the signature from exactly the rest: an accepted
      value re-encodes to the same bytes around its length prefix. */
  lemma SummaryAccepted(data: seq<Byte>)
    ensures !DecodeSummary(data).Panic?
    ensures DecodeSummary(data).Ok? ==>
              var x := DecodeSummary(data).value;
              && IsSummary(x) && |data| >= SUMMARY_FIXED && Decoded(data[SUMMARY_FIXED..]).Some?
              && var (length, n) := Decoded(data[SUMMARY_FIXED..]).value;
                 length == |x.signature| && SUMMARY_FIXED + n <= |data| &&
                 data[..SUMMARY_FIXED] == EncodeFixed(x) && data[SUMMARY_FIXED + n..] == x.signature
  {
    if DecodeSummary(data).Ok? {
      var (length, n) := Decoded(data[SUMMARY_FIXED..]).value;
      FixedBytes(data[..SUMMARY_FIXED], data[SUMMARY_FIXED + n..]);
      FixedInRange(data[..SUMMARY_FIXED], data[SUMMARY_FIXED + n..]);
    }
  }

  // ----- resource offers -----

  datatype Offer = Offer(cpu: nat, ram: nat, storage: nat, capabilities: seq<Byte>)

  const OFFER_FIXED: nat := 20

  predicate IsOffer(x: Offer) {
    x.cpu < U32 && x.ram < U64 && x.storage < U64 && |x.capabilities| < INT64_LIMIT - 64
  }

  function BoundedBytes(value: seq<Byte>): (s: seq<Byte>)
    requires |value| < U64
  {
    Compact(|value|) + value
  }

  function EncodeOfferFixed(x: Offer): (s: seq<Byte>) {
    LE(x.cpu, 4) + (LE(x.ram, 8) + LE(x.storage, 8))
  }

  function EncodeOffer(x: Offer): (s: seq<Byte>)
    requires |x.capabilities| < U64
  {
    EncodeOfferFixed(x) + BoundedBytes(x.capabilities)
  }

  function DecodeOfferFixed(f: seq<Byte>, capabilities: seq<Byte>): (x: Offer)
    requires |f| == OFFER_FIXED
  {
    Offer(FromLE(f[0..4]), FromLE(f[4..12]), FromLE(f[12..20]), capabilities)
  }

  /** A uint64 converted to int, or an int sum: two's complement. */
  function Signed64(n: int): (r: int)
    requires 0 <= n < 3 * INT64_LIMIT
  {
    if n < INT64_LIMIT then n else n - U64
  }

  /** decodeResourceOffer: the end of the capabilities is `start + int(length)`. */
  function DecodeOffer(data: seq<Byte>): (r: Read<Offer>)
    requires |data| < INT64_LIMIT
  {
    if |data| < OFFER_FIXED then Err
    else match Decoded(data[OFFER_FIXED..])
      case None => Err
      case Some((length, n)) =>
        DecodedFits(data[OFFER_FIXED..]);
        var start := OFFER_FIXED + n;
        var end := Signed64(start + length);
        if end > |data| then Err
        else if end < start then Panic
        else if end != |data| then Err
        else Ok(DecodeOfferFixed(data[..OFFER_FIXED], data[start..end]))
  }

  lemma OfferParts(a: seq<Byte>, b: seq<Byte>, c: seq<Byte>)
    requires |a| == 4 && |b| == 8 && |c| == 8
    ensures var s := a + (b + c); |s| == 20 && s[0..4] == a && s[4..12] == b && s[12..20] == c
  {
  }

  lemma OfferRoundTrip(x: Offer)
    requires IsOffer(x)
    ensures |EncodeOffer(x)| < INT64_LIMIT && DecodeOffer(EncodeOffer(x)) == Ok(x)
  {
    OfferParts(LE(x.cpu, 4), LE(x.ram, 8), LE(x.storage, 8));
    Pow256Values();
    LERoundTrip(x.cpu, 4);
    LERoundTrip(x.ram, 8);
    LERoundTrip(x.storage, 8);
    OfferTail(EncodeOfferFixed(x), x.capabilities);
  }

  lemma OfferTail(fixed: seq<Byte>, capabilities: seq<Byte>)
    requires |fixed| == OFFER_FIXED && |capabilities| < INT64_LIMIT - 64
    ensures |fixed + BoundedBytes(capabilities)| < INT64_LIMIT
    ensures DecodeOffer(fixed + BoundedBytes(capabilities)) == Ok(DecodeOfferFixed(fixed, capabilities))
  {
    var data := fixed + BoundedBytes(capabilities);
    assert data[..OFFER_FIXED] == fixed && data[OFFER_FIXED..] == BoundedBytes(capabilities);
    RoundTrip(|capabilities|, capabilities);
    assert data[OFFER_FIXED + |Compact(|capabilities|)|..|data|] == capabilities;
  }

  /** An accepted offer's bytes are its fixed fields, a length prefix and its capabilities. */
  lemma OfferAccepted(data: seq<Byte>)
    requires |data| < INT64_LIMIT && DecodeOffer(data).Ok?
    ensures |data| >= OFFER_FIXED && Decoded(data[OFFER_FIXED..]).Some?
    ensures var x := DecodeOffer(data).value;
            var (length, n) := Decoded(data[OFFER_FIXED..]).value;
            && length == |x.capabilities| && OFFER_FIXED + n <= |data|
            && data[..OFFER_FIXED] == EncodeOfferFixed(x) && data[OFFER_FIXED + n..] == x.capabilities
  {
    var n := Decoded(data[OFFER_FIXED..]).value.1;
    DecodedFits(data[OFFER_FIXED..]);
    OfferBytes(data[..OFFER_FIXED], data[OFFER_FIXED + n..]);
    assert data[OFFER_FIXED + n..|data|] == data[OFFER_FIXED + n..];
  }

  /** The reader panics exactly when the prefix claims a length that overflows the end. */
  lemma OfferPanicIff(data: seq<Byte>)
    requires |data| < INT64_LIMIT
    ensures DecodeOffer(data).Panic? <==>
              && |data| >= OFFER_FIXED && Decoded(data[OFFER_FIXED..]).Some?
              && Decoded(data[OFFER_FIXED..]).value.0
                    >= INT64_LIMIT - OFFER_FIXED - Decoded(data[OFFER_FIXED..]).value.1
  {
    if |data| >= OFFER_FIXED && Decoded(data[OFFER_FIXED..]).Some? { DecodedFits(data[OFFER_FIXED..]); }
  }

  lemma OfferSlices(f: seq<Byte>)
    requires |f| == OFFER_FIXED
    ensures f == f[0..4] + (f[4..12] + f[12..20])
  {
  }

  lemma OfferBytes(f: seq<Byte>, capabilities: seq<Byte>)
    requires |f| == OFFER_FIXED
    ensures EncodeOfferFixed(DecodeOfferFixed(f, capabilities)) == f
  {
    FieldBytes(f[0..4]);
    FieldBytes(f[4..12]);
    FieldBytes(f[12..20]);
    OfferSlices(f);
  }

  /** A 29-byte value whose prefix claims 2^63 capability bytes is such an input. */
  lemma OfferPanics(fixed: seq<Byte>)
    requires |fixed| == OFFER_FIXED
    ensures DecodeOffer(fixed + Compact(INT64_LIMIT)).Panic?
  {
    var data := fixed + Compact(INT64_LIMIT);
    assert data[OFFER_FIXED..] == Compact(INT64_LIMIT) + [];
    RoundTrip(INT64_LIMIT, []);
  }
}
