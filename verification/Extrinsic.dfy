/** The signed extrinsic the registrar builds (control-plane/internal/blockchainbridge/registrar.go),
    against a reader of the wire format.

    Ed25519 signing and BLAKE2b are parameters. */
module Extrinsic {
  import opened Base
  import opened Bytes
  import opened CompactCodec

  /** The chain state a signature commits to besides the call, nonce and tip. */
  datatype Chain = Chain(spec: nat, transaction: nat, genesis: seq<Byte>)

  /** u32 versions and a 32-byte hash. */
  predicate IsChain(c: Chain) {
    c.spec < U32 && c.transaction < U32 && |c.genesis| == 32
  }

  datatype Signer = Signer(account: seq<Byte>, sign: seq<Byte> -> seq<Byte>, blake: seq<Byte> -> seq<Byte>)

  predicate IsSigner(s: Signer) {
    |s.account| == 32
  }

  ghost predicate SignsIn64(s: Signer) {
    forall m :: |s.sign(m)| == 64
  }

  /** Longer than any slice a 64-bit process can hold. */
  const MAX_SLICE: nat := 0x4000_0000_0000_0000

  // ----- writing -----

  /** Immortal era, nonce, tip. */
  function Extra(nonce: nat, tip: nat): (s: seq<Byte>)
    requires nonce < U64 && tip < U64
  {
    [0] + (Compact(nonce) + Compact(tip))
  }

  function Implicit(c: Chain): (s: seq<Byte>) {
    LE(c.spec, 4) + (LE(c.transaction, 4) + (c.genesis + c.genesis))
  }

  function Payload(call: seq<Byte>, nonce: nat, tip: nat, c: Chain): (s: seq<Byte>)
    requires nonce < U64 && tip < U64
  {
    call + (Extra(nonce, tip) + Implicit(c))
  }

  /** What is signed: the payload, or its hash when that is longer than 256 bytes. */
  function Message(s: Signer, payload: seq<Byte>): (m: seq<Byte>) {
    if |payload| > 256 then s.blake(payload) else payload
  }

  function Body(account: seq<Byte>, signature: seq<Byte>, extra: seq<Byte>, call: seq<Byte>): (s: seq<Byte>) {
    [0x84, 0] + (account + ([0] + (signature + (extra + call))))
  }

  function SignCall(s: Signer, call: seq<Byte>, nonce: nat, tip: nat, c: Chain): (x: seq<Byte>)
    requires nonce < U64 && tip < U64
    requires |Body(s.account, s.sign(Message(s, Payload(call, nonce, tip, c))), Extra(nonce, tip), call)| < U64
  {
    var body := Body(s.account, s.sign(Message(s, Payload(call, nonce, tip, c))), Extra(nonce, tip), call);
    Compact(|body|) + body
  }

  // ----- reading -----

  datatype Signed = Signed(account: seq<Byte>, signature: seq<Byte>, nonce: nat, tip: nat, call: seq<Byte>)

  /** Era, nonce, tip and what is left. */
  function ReadExtra(data: seq<Byte>): (r: Option<(nat, nat, seq<Byte>)>) {
    if data == [] || data[0] != 0 then None
    else
      var nonce := Denoted(data[1..]);
      if nonce.None? || nonce.value.1 > |data[1..]| then None
      else
        var rest := data[1..][nonce.value.1..];
        var tip := Denoted(rest);
        if tip.None? || tip.value.1 > |rest| then None
        else Some((nonce.value.0, tip.value.0, rest[tip.value.1..]))
  }

  function ReadBody(body: seq<Byte>): (r: Option<Signed>) {
    if |body| < 99 || body[..2] != [0x84, 0] || body[34] != 0 then None
    else
      var extra := ReadExtra(body[99..]);
      if extra.None? then None
      else Some(Signed(body[2..34], body[35..99], extra.value.0, extra.value.1, extra.value.2))
  }

  /** A length prefix that covers the rest exactly, then a version 4 signed body. */
  function Read(x: seq<Byte>): (r: Option<Signed>) {
    var length := Denoted(x);
    if length.None? || length.value.1 > |x| || length.value.0 != |x| - length.value.1 then None
    else ReadBody(x[length.value.1..])
  }

  lemma ThreeParts<T>(a: seq<T>, b: seq<T>, c: seq<T>, d: seq<T>)
    ensures (a + (b + c)) + d == a + (b + (c + d))
    ensures (a + (b + (c + d)))[|a|..] == b + (c + d)
    ensures (b + (c + d))[|b|..] == c + d && (c + d)[|c|..] == d
  {
  }

  lemma ReadsExtra(nonce: nat, tip: nat, call: seq<Byte>)
    requires nonce < U64 && tip < U64
    ensures ReadExtra(Extra(nonce, tip) + call) == Some((nonce, tip, call))
  {
    ThreeParts([0], Compact(nonce), Compact(tip), call);
    RoundTrip(nonce, Compact(tip) + call);
    RoundTrip(tip, call);
  }

  lemma ReadsBody(account: seq<Byte>, signature: seq<Byte>, nonce: nat, tip: nat, call: seq<Byte>)
    requires |account| == 32 && |signature| == 64 && nonce < U64 && tip < U64
    ensures ReadBody(Body(account, signature, Extra(nonce, tip), call)) ==
        Some(Signed(account, signature, nonce, tip, call))
  {
    BodyParts(account, signature, Extra(nonce, tip) + call);
    ReadsExtra(nonce, tip, call);
  }

  lemma BodyParts(account: seq<Byte>, signature: seq<Byte>, rest: seq<Byte>)
    requires |account| == 32 && |signature| == 64
    ensures var body := [0x84, 0] + (account + ([0] + (signature + rest)));
            && body[..2] == [0x84, 0] && body[2..34] == account && body[34] == 0
            && body[35..99] == signature && body[99..] == rest
  {
  }

  lemma ReadsPrefixed(body: seq<Byte>)
    requires |body| < U64
    ensures Read(Compact(|body|) + body) == ReadBody(body)
  {
    RoundTrip(|body|, body);
    assert (Compact(|body|) + body)[|Compact(|body|)|..] == body;
  }

  /** What the chain reads back is the signer's account, the signature over the payload (hashed
      past 256 bytes), the nonce, the tip and the call, with a length prefix that is exact. */
  lemma ExtrinsicRoundTrip(s: Signer, call: seq<Byte>, nonce: nat, tip: nat, c: Chain)
    requires IsSigner(s) && SignsIn64(s) && nonce < U64 && tip < U64 && |call| < MAX_SLICE
    ensures var payload := Payload(call, nonce, tip, c);
            var signature := s.sign(if |payload| <= 256 then payload else s.blake(payload));
            && |Body(s.account, signature, Extra(nonce, tip), call)| < U64
            && Read(SignCall(s, call, nonce, tip, c)) == Some(Signed(s.account, signature, nonce, tip, call))
  {
    var signature := s.sign(Message(s, Payload(call, nonce, tip, c)));
    var body := Body(s.account, signature, Extra(nonce, tip), call);
    ReadsBody(s.account, signature, nonce, tip, call);
    ReadsPrefixed(body);
  }

  /** What is signed: the call, then era, nonce and tip, then the spec version, the transaction
      version and the genesis hash twice. */
  lemma PayloadLayout(call: seq<Byte>, nonce: nat, tip: nat, c: Chain)
    requires nonce < U64 && tip < U64 && IsChain(c)
    ensures var payload := Payload(call, nonce, tip, c);
            && payload[..|call|] == call
            && var extra := ReadExtra(payload[|call|..]);
               && extra.Some? && extra.value.0 == nonce && extra.value.1 == tip
               && var implicit := extra.value.2;
                  && |implicit| == 72 && FromLE(implicit[..4]) == c.spec && FromLE(implicit[4..8]) == c.transaction
                  && implicit[8..40] == c.genesis && implicit[40..] == c.genesis
  {
    var payload, implicit := Payload(call, nonce, tip, c), Implicit(c);
    assert payload[|call|..] == Extra(nonce, tip) + implicit;
    ReadsExtra(nonce, tip, implicit);
    Pow256Values();
    LERoundTrip(c.spec, 4);
    LERoundTrip(c.transaction, 4);
    assert implicit[..4] == LE(c.spec, 4) && implicit[4..8] == LE(c.transaction, 4);
  }

  lemma ImplicitInjective(a: Chain, b: Chain)
    requires IsChain(a) && IsChain(b) && Implicit(a) == Implicit(b)
    ensures a == b
  {
    SplitAt(LE(a.spec, 4), LE(a.transaction, 4) + (a.genesis + a.genesis), LE(b.spec, 4),
        LE(b.transaction, 4) + (b.genesis + b.genesis));
    SplitAt(LE(a.transaction, 4), a.genesis + a.genesis, LE(b.transaction, 4), b.genesis + b.genesis);
    SplitAt(a.genesis, a.genesis, b.genesis, b.genesis);
    Pow256Values();
    LERoundTrip(a.spec, 4);
    LERoundTrip(b.spec, 4);
    LERoundTrip(a.transaction, 4);
    LERoundTrip(b.transaction, 4);
  }

  /** A payload commits to everything in it: calls that are not prefixes of one another (the
      runtime's are self-delimiting) share a payload only if all else is equal too. */
  lemma PayloadInjective(call: seq<Byte>, nonce: nat, tip: nat, c: Chain, call': seq<Byte>, nonce': nat, tip': nat,
                         c': Chain)
    requires nonce < U64 && tip < U64 && nonce' < U64 && tip' < U64 && IsChain(c) && IsChain(c')
    requires call <= call' ==> call == call'
    requires call' <= call ==> call == call'
    requires Payload(call, nonce, tip, c) == Payload(call', nonce', tip', c')
    ensures call == call' && nonce == nonce' && tip == tip' && c == c'
  {
    ThreeParts([0], Compact(nonce), Compact(tip), Implicit(c));
    ThreeParts([0], Compact(nonce'), Compact(tip'), Implicit(c'));
    SameCall(call, Compact(nonce) + (Compact(tip) + Implicit(c)), call',
        Compact(nonce') + (Compact(tip') + Implicit(c')));
    PrefixFree(nonce, nonce', Compact(tip) + Implicit(c), Compact(tip') + Implicit(c'));
    PrefixFree(tip, tip', Implicit(c), Implicit(c'));
    ImplicitInjective(c, c');
  }

  lemma SameCall(call: seq<Byte>, rest: seq<Byte>, call': seq<Byte>, rest': seq<Byte>)
    requires call <= call' ==> call == call'
    requires call' <= call ==> call == call'
    requires call + ([0] + rest) == call' + ([0] + rest')
    ensures call == call' && rest == rest'
  {
    var p := call + ([0] + rest);
    assert call == p[..|call|] && call' == p[..|call'|];
    SplitAt(call, [0] + rest, call', [0] + rest');
    SplitAt([0], rest, [0], rest');
  }
}
