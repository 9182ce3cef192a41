/** The paged scan of registered providers
    (control-plane/internal/blockchainbridge/providerregistry.go). */
module Paging {
  import opened Base
  import opened Bytes
  import opened Committee

  const PAGE: nat := 1000
  const PREFIX_LENGTH: nat := 32
  const SUFFIX_LENGTH: nat := 48

  /** prefix ++ blake2_128(account) ++ account. */
  function StorageKey(prefix: seq<Byte>, blake: seq<Byte> -> seq<Byte>, a: Account): (key: seq<Byte>) {
    prefix + (blake(a.id) + a.id)
  }

  function DecodeKey(key: seq<Byte>): (a: Option<Account>) {
    if |key| != PREFIX_LENGTH + SUFFIX_LENGTH then None else Some(Account(key[PREFIX_LENGTH + 16..]))
  }

  function IndexOf<T(==)>(s: seq<T>, x: T): (i: nat)
    ensures i <= |s| && (i < |s| ==> s[i] == x)
  {
    if s == [] then 0 else if s[0] == x then 0 else 1 + IndexOf(s[1..], x)
  }

  lemma {:induction false} IndexOfDistinct<T>(s: seq<T>, i: nat)
    requires Distinct(s) && i < |s|
    ensures IndexOf(s, s[i]) == i
    decreases i
  {
    if i > 0 { IndexOfDistinct(s[1..], i - 1); }
  }

  /** state_getKeysPaged over the keys at one block: at most `count`, after `start`. */
  function Page<K(==)>(keys: seq<K>, start: Option<K>, count: nat): (page: seq<K>) {
    var from := if start.None? then 0 else Min(IndexOf(keys, start.value) + 1, |keys|);
    keys[from..Min(from + count, |keys|)]
  }

  lemma PageIs<K>(keys: seq<K>, start: Option<K>, count: nat, read: nat)
    requires Distinct(keys) && read <= |keys| && start == if read == 0 then None else Some(keys[read - 1])
    ensures Page(keys, start, count) == keys[read..Min(read + count, |keys|)]
  {
    if read > 0 { IndexOfDistinct(keys, read - 1); }
  }

  function DecodeAll<K, A>(decode: K -> Option<A>, keys: seq<K>): (r: Option<seq<A>>) {
    if keys == [] then Some([])
    else
      var rest, last := DecodeAll(decode, keys[..|keys| - 1]), decode(keys[|keys| - 1]);
      if rest.None? || last.None? then None else Some(rest.value + [last.value])
  }

  lemma DecodeNext<K, A>(decode: K -> Option<A>, keys: seq<K>, n: nat)
    requires n < |keys|
    ensures var rest := DecodeAll(decode, keys[..n]);
            DecodeAll(decode, keys[..n + 1]) ==
            if rest.None? || decode(keys[n]).None? then None else Some(rest.value + [decode(keys[n]).value])
  {
    assert keys[..n + 1][..n] == keys[..n];
  }

  lemma {:induction false} DecodeFails<K, A>(decode: K -> Option<A>, keys: seq<K>, n: nat)
    requires n <= |keys| && DecodeAll(decode, keys[..n]).None?
    ensures DecodeAll(decode, keys).None?
    decreases |keys| - n
  {
    if n < |keys| {
      DecodeNext(decode, keys, n);
      DecodeFails(decode, keys, n + 1);
    } else {
      assert keys[..n] == keys;
    }
  }

  /** One page's keys, decoded after those read before. */
  method ReadPage<K, A>(ghost keys: seq<K>, ghost read: nat, decode: K -> Option<A>, page: seq<K>, before: seq<A>)
    returns (r: Option<seq<A>>)
    requires read + |page| <= |keys| && page == keys[read..read + |page|]
        && DecodeAll(decode, keys[..read]) == Some(before)
    ensures r == DecodeAll(decode, keys[..read + |page|])
  {
    var accounts := before;
    for k := 0 to |page|
      invariant DecodeAll(decode, keys[..read + k]) == Some(accounts)
    {
      DecodeNext(decode, keys, read + k);
      var account := decode(page[k]);
      if account.None? {
        assert keys[..read + |page|][..read + k + 1] == keys[..read + k + 1];
        DecodeFails(decode, keys[..read + |page|], read + k + 1);
        return None;
      }
      accounts := accounts + [account.value];
    }
    return Some(accounts);
  }

  /** However many keys there are, the scan returns every account once, in order, or fails if
      a key does not decode. */
  method Scan<K(==), A>(keys: seq<K>, decode: K -> Option<A>) returns (r: Option<seq<A>>)
    requires Distinct(keys)
    ensures r == DecodeAll(decode, keys)
  {
    var accounts: seq<A>, startKey: Option<K> := [], None;
    ghost var read: nat := 0;
    while true
      invariant read <= |keys| && DecodeAll(decode, keys[..read]) == Some(accounts)
      invariant startKey == if read == 0 then None else Some(keys[read - 1])
      decreases |keys| - read
    {
      var page := Page(keys, startKey, PAGE);
      PageIs(keys, startKey, PAGE, read);
      if |page| == 0 {
        assert keys[..read] == keys;
        return Some(accounts);
      }
      var more := ReadPage(keys, read, decode, page, accounts);
      read := read + |page|;
      if more.None? {
        DecodeFails(decode, keys, read);
        return None;
      }
      accounts := more.value;
      if |page| < PAGE {
        assert keys[..read] == keys;
        return Some(accounts);
      }
      startKey := Some(page[|page| - 1]);
    }
  }

  lemma KeyDecodes(prefix: seq<Byte>, blake: seq<Byte> -> seq<Byte>, a: Account)
    requires |prefix| == PREFIX_LENGTH && |blake(a.id)| == 16 && |a.id| == 32
    ensures DecodeKey(StorageKey(prefix, blake, a)) == Some(a)
  {
    assert StorageKey(prefix, blake, a)[PREFIX_LENGTH + 16..] == a.id;
  }

  lemma {:induction false} DecodesTo<K, A>(decode: K -> Option<A>, keys: seq<K>, accounts: seq<A>)
    requires |keys| == |accounts| && forall i :: 0 <= i < |keys| ==> decode(keys[i]) == Some(accounts[i])
    ensures DecodeAll(decode, keys) == Some(accounts)
    decreases |keys|
  {
    if keys != [] {
      var n := |keys| - 1;
      DecodesTo(decode, keys[..n], accounts[..n]);
      assert accounts == accounts[..n] + [accounts[n]];
    }
  }

  /** On the keys of a registry, the scan is the registry: each account exactly once. */
  lemma ScanIsRegistry(prefix: seq<Byte>, blake: seq<Byte> -> seq<Byte>, accounts: seq<Account>, keys: seq<seq<Byte>>)
    requires |prefix| == PREFIX_LENGTH && Distinct(accounts) && |keys| == |accounts|
    requires forall i :: 0 <= i < |accounts| ==>
               && keys[i] == StorageKey(prefix, blake, accounts[i])
               && |accounts[i].id| == 32 && |blake(accounts[i].id)| == 16
    ensures Distinct(keys) && DecodeAll(DecodeKey, keys) == Some(accounts)
  {
    forall i | 0 <= i < |accounts| ensures DecodeKey(keys[i]) == Some(accounts[i]) {
      KeyDecodes(prefix, blake, accounts[i]);
    }
    DecodesTo(DecodeKey, keys, accounts);
  }
}
