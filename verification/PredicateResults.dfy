/** The binary format of predicate results: a map from transaction hashes to maps from addresses to bytes. */
module PredicateResults {
  import opened Bytes
  import opened Sums

  const HASH_LEN: nat := 32
  const ADDR_LEN: nat := 20
  const MAX_SIZE: nat := 1024 * 1024
  const VERSION: seq<byte> := [0, 0]

  type TxResults = map<seq<byte>, seq<byte>>
  type Results = map<seq<byte>, TxResults>

  datatype Encoded = Encoded(bytes: seq<byte>) | EncodeTooLarge
  datatype Parsed = Parsed(results: Results) | ShortBuffer | TooLarge | BadVersion

  /** Keys have the fixed lengths of hashes and addresses. */
  ghost predicate Typed(m: Results) {
    forall h :: h in m ==> |h| == HASH_LEN && forall a :: a in m[h] ==> |a| == ADDR_LEN
  }

  ghost function InnerCosts(inner: TxResults): map<seq<byte>, nat> {
    map a | a in inner :: ADDR_LEN + 4 + |inner[a]|
  }

  ghost function OuterCosts(m: Results): map<seq<byte>, nat> {
    map h | h in m :: HASH_LEN + 4 + Sum(InnerCosts(m[h]))
  }

  ghost function Size(m: Results): nat {
    6 + Sum(OuterCosts(m))
  }

  /** A length written in 32 bits. */
  function Length(n: nat): (b: seq<byte>)
    ensures |b| == 4
  {
    Be32(n % LIMIT_32)
  }

  function Entry(inner: TxResults, a: seq<byte>): seq<byte>
    requires a in inner
  {
    a + Length(|inner[a]|) + inner[a]
  }

  function EncodeInner(inner: TxResults, addrs: seq<seq<byte>>): seq<byte>
    requires forall i :: 0 <= i < |addrs| ==> addrs[i] in inner
  {
    if addrs == [] then [] else Entry(inner, addrs[0]) + EncodeInner(inner, addrs[1..])
  }

  ghost function EncodeTx(m: Results, h: seq<byte>): seq<byte>
    requires h in m
  {
    h + Length(|m[h]|) + EncodeInner(m[h], ListOf(m[h].Keys))
  }

  ghost function EncodeOuter(m: Results, hashes: seq<seq<byte>>): seq<byte>
    requires forall i :: 0 <= i < |hashes| ==> hashes[i] in m
  {
    if hashes == [] then [] else EncodeTx(m, hashes[0]) + EncodeOuter(m, hashes[1..])
  }

  ghost function Encode(m: Results): seq<byte> {
    VERSION + Length(|m|) + EncodeOuter(m, ListOf(m.Keys))
  }

  /** The wire order is the key order, so the length adds up to the size however the maps are visited. */
  lemma {:induction false} InnerLength(inner: TxResults, addrs: seq<seq<byte>>, keys: set<seq<byte>>)
    requires (forall a :: a in inner ==> |a| == ADDR_LEN) && Lists(addrs, keys) && keys <= inner.Keys
    ensures forall i :: 0 <= i < |addrs| ==> addrs[i] in inner
    ensures |EncodeInner(inner, addrs)| == Sum(map a | a in keys :: ADDR_LEN + 4 + |inner[a]|)
    decreases |addrs|
  {
    hide Less, Length, Sorted;
    EmptyList(addrs, keys);
    if addrs != [] {
      var costs := map a | a in keys :: ADDR_LEN + 4 + |inner[a]|;
      TailLists(addrs, keys);
      assert addrs[0] in keys;
      InnerLength(inner, addrs[1..], keys - {addrs[0]});
      SumRemove(costs, addrs[0]);
      assert costs - {addrs[0]} == map a | a in keys - {addrs[0]} :: ADDR_LEN + 4 + |inner[a]|;
      forall i | 0 <= i < |addrs|
        ensures addrs[i] in inner
      {
        assert addrs[i] in keys;
      }
    }
  }

  lemma TxLength(m: Results, h: seq<byte>)
    requires Typed(m) && h in m
    ensures |EncodeTx(m, h)| == OuterCosts(m)[h]
  {
    InnerLength(m[h], ListOf(m[h].Keys), m[h].Keys);
    assert InnerCosts(m[h]) == map a | a in m[h].Keys :: ADDR_LEN + 4 + |m[h][a]|;
  }

  lemma {:induction false} OuterLength(m: Results, hashes: seq<seq<byte>>, keys: set<seq<byte>>)
    requires Typed(m) && Lists(hashes, keys) && keys <= m.Keys
    ensures forall i :: 0 <= i < |hashes| ==> hashes[i] in m
    ensures |EncodeOuter(m, hashes)| == Sum(map h | h in keys :: OuterCosts(m)[h])
    decreases |hashes|
  {
    hide EncodeTx, OuterCosts;
    EmptyList(hashes, keys);
    assert OuterCosts(m).Keys == m.Keys by { CostKeys(m); }
    if hashes != [] {
      var costs := map h | h in keys :: OuterCosts(m)[h];
      TailLists(hashes, keys);
      assert hashes[0] in keys;
      OuterLength(m, hashes[1..], keys - {hashes[0]});
      TxLength(m, hashes[0]);
      SumRemove(costs, hashes[0]);
      assert costs - {hashes[0]} == map h | h in keys - {hashes[0]} :: OuterCosts(m)[h];
      forall i | 0 <= i < |hashes|
        ensures hashes[i] in m
      {
        assert hashes[i] in keys;
      }
    }
  }

  lemma CostKeys(m: Results)
    ensures OuterCosts(m).Keys == m.Keys
  {
  }

  /** The size computed before writing is exactly the number of bytes written. */
  lemma SizeIsLength(m: Results)
    requires Typed(m)
    ensures |Encode(m)| == Size(m)
  {
    hide EncodeOuter, OuterCosts;
    CostKeys(m);
    OuterLength(m, ListOf(m.Keys), m.Keys);
    assert OuterCosts(m) == map h | h in m.Keys :: OuterCosts(m)[h];
  }

  datatype Inner = Inner(results: TxResults, rest: seq<byte>) | InnerShort

  /** Reads `n` entries of one transaction and returns what follows them. */
  function ParseInner(b: seq<byte>, n: nat, acc: TxResults): Inner {
    if n == 0 then Inner(acc, b)
    else if |b| < ADDR_LEN + 4 then InnerShort
    else
      var len := FromBe32(b[ADDR_LEN..ADDR_LEN + 4]);
      if |b| < ADDR_LEN + 4 + len then InnerShort
      else ParseInner(b[ADDR_LEN + 4 + len..], n - 1, acc[b[..ADDR_LEN] := b[ADDR_LEN + 4..ADDR_LEN + 4 + len]])
  }

  function ParseOuter(b: seq<byte>, n: nat, acc: Results): Parsed
    decreases n
  {
    if n == 0 then Parsed(acc)
    else if |b| < HASH_LEN + 4 then ShortBuffer
    else
      var inner := ParseInner(b[HASH_LEN + 4..], FromBe32(b[HASH_LEN..HASH_LEN + 4]), map[]);
      if inner.InnerShort? then ShortBuffer else ParseOuter(inner.rest, n - 1, acc[b[..HASH_LEN] := inner.results])
  }

  function Parse(b: seq<byte>): Parsed {
    if |b| < 2 then ShortBuffer
    else if |b| > MAX_SIZE then TooLarge
    else if b[..2] != VERSION then BadVersion
    else if |b| < 6 then ShortBuffer
    else ParseOuter(b[6..], FromBe32(b[2..6]), map[])
  }

  /** Which input is refused before anything is read. */
  lemma ParseRefuses(b: seq<byte>)
    ensures Parse(b) == TooLarge <==> |b| > 1048576
    ensures Parse(b) == BadVersion <==> 2 <= |b| <= 1048576 && (b[0] != 0 || b[1] != 0)
    ensures |b| < 6 ==> Parse(b) == ShortBuffer || Parse(b) == BadVersion
  {
    if |b| >= 6 {
      OuterErrors(b[6..], FromBe32(b[2..6]), map[]);
    }
  }

  lemma {:induction false} OuterErrors(b: seq<byte>, n: nat, acc: Results)
    ensures ParseOuter(b, n, acc).Parsed? || ParseOuter(b, n, acc) == ShortBuffer
    decreases n
  {
    if n > 0 && |b| >= HASH_LEN + 4 {
      var inner := ParseInner(b[HASH_LEN + 4..], FromBe32(b[HASH_LEN..HASH_LEN + 4]), map[]);
      if inner.Inner? {
        OuterErrors(inner.rest, n - 1, acc[b[..HASH_LEN] := inner.results]);
      }
    }
  }

  lemma LengthRoundTrip(n: nat)
    requires n < LIMIT_32
    ensures FromBe32(Length(n)) == n
  {
    Be32RoundTrip(n);
  }

  /** One entry is read back, whatever follows it. */
  lemma EntryRoundTrip(inner: TxResults, a: seq<byte>, tail: seq<byte>, n: nat, acc: TxResults)
    requires a in inner && |a| == ADDR_LEN && |inner[a]| < LIMIT_32 && n > 0
    ensures ParseInner(Entry(inner, a) + tail, n, acc) == ParseInner(tail, n - 1, acc[a := inner[a]])
  {
    hide Length;
    var b := Entry(inner, a) + tail;
    var len := |inner[a]|;
    LengthRoundTrip(len);
    assert b[..ADDR_LEN] == a && b[ADDR_LEN..ADDR_LEN + 4] == Length(len);
    assert b[ADDR_LEN + 4..ADDR_LEN + 4 + len] == inner[a] && b[ADDR_LEN + 4 + len..] == tail;
  }

  /** `acc` extended by the entries of the listed addresses. */
  function Extended<V>(acc: map<seq<byte>, V>, m: map<seq<byte>, V>, keys: seq<seq<byte>>): map<seq<byte>, V>
    requires forall i :: 0 <= i < |keys| ==> keys[i] in m
    decreases |keys|
  {
    if keys == [] then acc else Extended(acc[keys[0] := m[keys[0]]], m, keys[1..])
  }

  lemma {:induction false} ExtendedHolds<V>(acc: map<seq<byte>, V>, m: map<seq<byte>, V>, keys: seq<seq<byte>>, k: seq<byte>)
    requires (forall i :: 0 <= i < |keys| ==> keys[i] in m) && (k in acc ==> k in m && acc[k] == m[k])
    ensures var r := Extended(acc, m, keys); (k in r <==> k in acc || k in keys) && (k in r ==> k in m && r[k] == m[k])
    decreases |keys|
  {
    if keys != [] {
      ExtendedHolds(acc[keys[0] := m[keys[0]]], m, keys[1..], k);
      assert k in keys <==> k == keys[0] || k in keys[1..] by {
        assert keys == [keys[0]] + keys[1..];
      }
    }
  }

  /** Collecting all entries gives the map back. */
  lemma ExtendedAll<V>(m: map<seq<byte>, V>, keys: seq<seq<byte>>)
    requires Lists(keys, m.Keys)
    ensures (forall i :: 0 <= i < |keys| ==> keys[i] in m) && Extended(map[], m, keys) == m
  {
    hide Extended, Sorted;
    var r := Extended(map[], m, keys);
    forall k: seq<byte>
      ensures (k in r <==> k in m) && (k in r ==> r[k] == m[k])
    {
      ExtendedHolds(map[], m, keys, k);
    }
  }

  lemma {:induction false} InnerRoundTrip(inner: TxResults, addrs: seq<seq<byte>>, tail: seq<byte>, acc: TxResults)
    requires forall i :: 0 <= i < |addrs| ==> addrs[i] in inner && |addrs[i]| == ADDR_LEN && |inner[addrs[i]]| < LIMIT_32
    ensures ParseInner(EncodeInner(inner, addrs) + tail, |addrs|, acc) == Inner(Extended(acc, inner, addrs), tail)
    decreases |addrs|
  {
    hide Entry;
    if addrs == [] {
      assert EncodeInner(inner, addrs) + tail == tail;
    } else {
      var rest := EncodeInner(inner, addrs[1..]) + tail;
      assert EncodeInner(inner, addrs) + tail == Entry(inner, addrs[0]) + rest;
      hide ParseInner;
      EntryRoundTrip(inner, addrs[0], rest, |addrs|, acc);
      InnerRoundTrip(inner, addrs[1..], tail, acc[addrs[0] := inner[addrs[0]]]);
    }
  }

  /** Everything about one transaction fits in 32-bit lengths. */
  ghost predicate Fits(inner: TxResults) {
    |inner| < LIMIT_32 && forall a :: a in inner ==> |a| == ADDR_LEN && |inner[a]| < LIMIT_32
  }

  lemma InnerAllRoundTrip(inner: TxResults, tail: seq<byte>)
    requires Fits(inner)
    ensures var addrs := ListOf(inner.Keys);
            && (forall i :: 0 <= i < |addrs| ==> addrs[i] in inner)
            && ParseInner(EncodeInner(inner, addrs) + tail, |inner|, map[]) == Inner(inner, tail)
  {
    hide ParseInner, EncodeInner, Extended, Sorted;
    var addrs := ListOf(inner.Keys);
    ExtendedAll(inner, addrs);
    ListLength(addrs, inner.Keys);
    InnerRoundTrip(inner, addrs, tail, map[]);
  }

  lemma TxRoundTrip(m: Results, h: seq<byte>, tail: seq<byte>, n: nat, acc: Results)
    requires h in m && |h| == HASH_LEN && Fits(m[h]) && n > 0
    ensures ParseOuter(EncodeTx(m, h) + tail, n, acc) == ParseOuter(tail, n - 1, acc[h := m[h]])
  {
    hide Length, ParseInner, EncodeInner, ListOf, Lists, FromBe32;
    var inner := m[h];
    InnerAllRoundTrip(inner, tail);
    LengthRoundTrip(|inner|);
    var b := EncodeTx(m, h) + tail;
    HeaderSplit(b, h, Length(|inner|), EncodeInner(inner, ListOf(inner.Keys)) + tail, HASH_LEN);
  }

  lemma HeaderSplit(b: seq<byte>, key: seq<byte>, len: seq<byte>, rest: seq<byte>, n: nat)
    requires |key| == n && |len| == 4 && b == key + len + rest
    ensures b[..n] == key && b[n..n + 4] == len && b[n + 4..] == rest
  {
  }

  lemma {:induction false} ListLength(s: seq<seq<byte>>, keys: set<seq<byte>>)
    requires Lists(s, keys)
    ensures |s| == |keys|
    decreases |s|
  {
    hide Less;
    EmptyList(s, keys);
    if s != [] {
      TailLists(s, keys);
      ListLength(s[1..], keys - {s[0]});
      assert s[0] in keys;
    }
  }

  lemma {:induction false} OuterRoundTrip(m: Results, hashes: seq<seq<byte>>, tail: seq<byte>, acc: Results)
    requires forall i :: 0 <= i < |hashes| ==> hashes[i] in m && |hashes[i]| == HASH_LEN && Fits(m[hashes[i]])
    ensures ParseOuter(EncodeOuter(m, hashes) + tail, |hashes|, acc) == Parsed(Extended(acc, m, hashes))
    decreases |hashes|
  {
    hide EncodeTx, Fits;
    if hashes != [] {
      var rest := EncodeOuter(m, hashes[1..]) + tail;
      assert EncodeOuter(m, hashes) + tail == EncodeTx(m, hashes[0]) + rest;
      hide ParseOuter;
      TxRoundTrip(m, hashes[0], rest, |hashes|, acc);
      OuterRoundTrip(m, hashes[1..], tail, acc[hashes[0] := m[hashes[0]]]);
    }
  }

  lemma ValueAtMostSum<K>(m: map<K, nat>, k: K)
    requires k in m
    ensures m[k] <= Sum(m)
  {
    SumRemove(m, k);
  }

  lemma {:induction false} CountAtMostSum<K>(m: map<K, nat>)
    requires forall k :: k in m ==> m[k] >= 1
    ensures |m| <= Sum(m)
    decreases |m|
  {
    if m != map[] {
      var k :| k in m;
      SumRemove(m, k);
      CountAtMostSum(m - {k});
      assert m.Keys == (m - {k}).Keys + {k};
    }
  }

  lemma SizeBounds(m: Results, h: seq<byte>)
    requires Typed(m) && h in m
    ensures |m| <= Size(m) && |m[h]| <= Size(m) && forall a :: a in m[h] ==> |m[h][a]| <= Size(m)
  {
    CountAtMostSum(OuterCosts(m));
    assert OuterCosts(m).Keys == m.Keys;
    ValueAtMostSum(OuterCosts(m), h);
    CountAtMostSum(InnerCosts(m[h]));
    assert InnerCosts(m[h]).Keys == m[h].Keys;
    forall a | a in m[h]
      ensures |m[h][a]| <= Size(m)
    {
      ValueAtMostSum(InnerCosts(m[h]), a);
    }
  }

  /** Whatever is encoded is read back as the same nested map, also when bytes follow it. */
  lemma RoundTrip(m: Results, tail: seq<byte>)
    requires Typed(m) && Size(m) + |tail| <= MAX_SIZE
    ensures Parse(Encode(m) + tail) == Parsed(m)
  {
    hide ParseOuter, EncodeOuter, ListOf, Lists, Size, Length, FromBe32, Typed;
    SizeIsLength(m);
    OuterAllRoundTrip(m, tail);
    CountFits(m);
    LengthRoundTrip(|m|);
    HeaderSplit(Encode(m) + tail, VERSION, Length(|m|), EncodeOuter(m, ListOf(m.Keys)) + tail, 2);
  }

  lemma OuterAllRoundTrip(m: Results, tail: seq<byte>)
    requires Typed(m) && Size(m) <= MAX_SIZE
    ensures var hashes := ListOf(m.Keys);
            && (forall i :: 0 <= i < |hashes| ==> hashes[i] in m)
            && ParseOuter(EncodeOuter(m, hashes) + tail, |m|, map[]) == Parsed(m)
  {
    hide ParseOuter, EncodeOuter, Extended, Sorted, Size;
    var hashes := ListOf(m.Keys);
    ExtendedAll(m, hashes);
    ListLength(hashes, m.Keys);
    forall i | 0 <= i < |hashes|
      ensures |hashes[i]| == HASH_LEN && Fits(m[hashes[i]])
    {
      SizeBounds(m, hashes[i]);
    }
    OuterRoundTrip(m, hashes, tail, map[]);
  }

  /** The layout of the smallest non-empty encoding: version, outer count, hash, inner count, address, length, bytes, with
      big-endian integers. */
  lemma OneEntryLayout(h: seq<byte>, a: seq<byte>, v: seq<byte>)
    requires |h| == 32 && |a| == 20 && |v| < 256
    ensures Encode(map[h := map[a := v]])
         == [0, 0] + [0, 0, 0, 1] + h + [0, 0, 0, 1] + a + [0, 0, 0, |v| as byte] + v
  {
    hide Lists, ListOf, Length;
    var inner := map[a := v];
    var m := map[h := inner];
    OneKey(h);
    OneKey(a);
    ShortLength(1);
    ShortLength(|v|);
    assert m.Keys == {h} && inner.Keys == {a};
    OneInner(inner, a);
    assert EncodeOuter(m, [h]) == EncodeTx(m, h) + [];
    assert Encode(m) == VERSION + Length(1) + (h + Length(1) + (a + Length(|v|) + v));
  }

  lemma OneInner(inner: TxResults, a: seq<byte>)
    requires a in inner
    ensures EncodeInner(inner, [a]) == Entry(inner, a)
  {
    hide Entry;
    assert EncodeInner(inner, [a]) == Entry(inner, a) + [];
  }

  lemma ShortLength(n: nat)
    requires n < 256
    ensures Length(n) == [0, 0, 0, n as byte]
  {
  }

  lemma OneKey(k: seq<byte>)
    ensures ListOf({k}) == [k]
  {
    var s := ListOf({k});
    assert k in s;
    ListLength(s, {k});
  }

  /** A cut entry cannot be read. */
  lemma TruncatedEntry(inner: TxResults, a: seq<byte>, k: nat, n: nat, acc: TxResults)
    requires a in inner && |a| == ADDR_LEN && |inner[a]| < LIMIT_32 && n > 0 && k < |Entry(inner, a)|
    ensures ParseInner(Entry(inner, a)[..k], n, acc) == InnerShort
  {
    hide Length;
    var e, b := Entry(inner, a), Entry(inner, a)[..k];
    LengthRoundTrip(|inner[a]|);
    if k >= ADDR_LEN + 4 {
      assert b[ADDR_LEN..ADDR_LEN + 4] == e[ADDR_LEN..ADDR_LEN + 4] == Length(|inner[a]|);
    }
  }

  lemma {:induction false} TruncatedInner(inner: TxResults, addrs: seq<seq<byte>>, k: nat, acc: TxResults)
    requires forall i :: 0 <= i < |addrs| ==> addrs[i] in inner && |addrs[i]| == ADDR_LEN && |inner[addrs[i]]| < LIMIT_32
    requires k < |EncodeInner(inner, addrs)|
    ensures ParseInner(EncodeInner(inner, addrs)[..k], |addrs|, acc) == InnerShort
    decreases |addrs|
  {
    hide Entry, ParseInner;
    var e, rest := Entry(inner, addrs[0]), EncodeInner(inner, addrs[1..]);
    var b := (e + rest)[..k];
    if k < |e| {
      assert b == e[..k];
      TruncatedEntry(inner, addrs[0], k, |addrs|, acc);
    } else {
      assert b == e + rest[..k - |e|];
      EntryRoundTrip(inner, addrs[0], rest[..k - |e|], |addrs|, acc);
      TruncatedInner(inner, addrs[1..], k - |e|, acc[addrs[0] := inner[addrs[0]]]);
    }
  }

  lemma TruncatedTx(m: Results, h: seq<byte>, k: nat, n: nat, acc: Results)
    requires h in m && |h| == HASH_LEN && Fits(m[h]) && n > 0 && k < |EncodeTx(m, h)|
    ensures ParseOuter(EncodeTx(m, h)[..k], n, acc) == ShortBuffer
  {
    hide Length, ParseInner, EncodeInner, ListOf, FromBe32;
    var inner := m[h];
    var addrs := ListOf(inner.Keys);
    var t, b := EncodeTx(m, h), EncodeTx(m, h)[..k];
    LengthRoundTrip(|inner|);
    ListLength(addrs, inner.Keys);
    AllListed(inner, addrs);
    if k >= HASH_LEN + 4 {
      HeaderSplit(t, h, Length(|inner|), EncodeInner(inner, addrs), HASH_LEN);
      assert b[HASH_LEN..HASH_LEN + 4] == t[HASH_LEN..HASH_LEN + 4];
      assert b[HASH_LEN + 4..] == EncodeInner(inner, addrs)[..k - HASH_LEN - 4];
      TruncatedInner(inner, addrs, k - HASH_LEN - 4, map[]);
    }
  }

  lemma {:induction false} TruncatedOuter(m: Results, hashes: seq<seq<byte>>, k: nat, acc: Results)
    requires forall i :: 0 <= i < |hashes| ==> hashes[i] in m && |hashes[i]| == HASH_LEN && Fits(m[hashes[i]])
    requires k < |EncodeOuter(m, hashes)|
    ensures ParseOuter(EncodeOuter(m, hashes)[..k], |hashes|, acc) == ShortBuffer
    decreases |hashes|
  {
    hide EncodeTx, ParseOuter, Fits;
    var t, rest := EncodeTx(m, hashes[0]), EncodeOuter(m, hashes[1..]);
    var b := (t + rest)[..k];
    if k < |t| {
      assert b == t[..k];
      TruncatedTx(m, hashes[0], k, |hashes|, acc);
    } else {
      assert b == t + rest[..k - |t|];
      TxRoundTrip(m, hashes[0], rest[..k - |t|], |hashes|, acc);
      TruncatedOuter(m, hashes[1..], k - |t|, acc[hashes[0] := m[hashes[0]]]);
    }
  }

  /** Every proper prefix of an encoding is refused as too short. */
  lemma TruncatedIsRefused(m: Results, k: nat)
    requires Typed(m) && Size(m) <= MAX_SIZE && k < |Encode(m)|
    ensures Parse(Encode(m)[..k]) == ShortBuffer
  {
    hide ParseOuter, EncodeOuter, Size, Length, FromBe32, Sorted, ListOf;
    SizeIsLength(m);
    var hashes := ListOf(m.Keys);
    AllListed(m, hashes);
    ListLength(hashes, m.Keys);
    CountFits(m);
    LengthRoundTrip(|m|);
    var e, b := Encode(m), Encode(m)[..k];
    HeaderSplit(e, VERSION, Length(|m|), EncodeOuter(m, hashes), 2);
    if k >= 2 {
      assert b[..2] == e[..2];
    }
    if k >= 6 {
      assert b[2..6] == e[2..6] && b[6..] == EncodeOuter(m, hashes)[..k - 6];
      TruncatedBody(m, k - 6);
    }
  }

  lemma TruncatedBody(m: Results, k: nat)
    requires Typed(m) && Size(m) <= MAX_SIZE
    ensures var hashes := ListOf(m.Keys);
            && (forall i :: 0 <= i < |hashes| ==> hashes[i] in m)
            && (k < |EncodeOuter(m, hashes)| ==> ParseOuter(EncodeOuter(m, hashes)[..k], |hashes|, map[]) == ShortBuffer)
  {
    hide ParseOuter, EncodeOuter, Size, Sorted, ListOf;
    var hashes := ListOf(m.Keys);
    AllListed(m, hashes);
    forall i | 0 <= i < |hashes|
      ensures |hashes[i]| == HASH_LEN && Fits(m[hashes[i]])
    {
      SizeBounds(m, hashes[i]);
    }
    if k < |EncodeOuter(m, hashes)| {
      TruncatedOuter(m, hashes, k, map[]);
    }
  }

  lemma CountFits(m: Results)
    requires Typed(m) && Size(m) <= MAX_SIZE
    ensures |m| < LIMIT_32
  {
    CountAtMostSum(OuterCosts(m));
    assert OuterCosts(m).Keys == m.Keys;
  }

  method InnerSize(inner: TxResults) returns (size: nat)
    ensures size == Sum(InnerCosts(inner))
  {
    size := 0;
    var todo := inner.Keys;
    ghost var left := InnerCosts(inner);
    while todo != {}
      invariant todo == left.Keys && left.Keys <= inner.Keys && size + Sum(left) == Sum(InnerCosts(inner))
      invariant forall a :: a in left ==> left[a] == ADDR_LEN + 4 + |inner[a]|
      decreases todo
    {
      var a :| a in todo;
      SumRemove(left, a);
      size := size + ADDR_LEN + 4 + |inner[a]|;
      todo, left := todo - {a}, left - {a};
    }
  }

  /** Adds up the sizes, visiting both maps in any order. */
  method ComputeSize(m: Results) returns (size: nat)
    ensures size == Size(m)
  {
    hide InnerCosts;
    size := 6;
    var todo := m.Keys;
    ghost var left := OuterCosts(m);
    while todo != {}
      invariant todo == left.Keys && left.Keys <= m.Keys && size + Sum(left) == Size(m)
      invariant forall h :: h in left ==> left[h] == HASH_LEN + 4 + Sum(InnerCosts(m[h]))
      decreases todo
    {
      var h :| h in todo;
      SumRemove(left, h);
      var inner := InnerSize(m[h]);
      size := size + HASH_LEN + 4 + inner;
      todo, left := todo - {h}, left - {h};
    }
  }

  /** Copies `data` to the buffer at `off` and returns the offset behind it. */
  method Write(out: array<byte>, off: nat, data: seq<byte>) returns (end: nat)
    requires off + |data| <= out.Length
    modifies out
    ensures end == off + |data| && out[..end] == old(out[..off]) + data
  {
    for i := 0 to |data|
      invariant out[..off + i] == old(out[..off]) + data[..i]
    {
      out[off + i] := data[i];
      assert out[..off + i + 1] == out[..off + i] + [data[i]];
      assert data[..i + 1] == data[..i] + [data[i]];
    }
    assert data[..|data|] == data;
    end := off + |data|;
  }

  method WriteEntry(out: array<byte>, off: nat, inner: TxResults, a: seq<byte>) returns (end: nat)
    requires a in inner && off + |Entry(inner, a)| <= out.Length
    modifies out
    ensures end == off + |Entry(inner, a)| && out[..end] == old(out[..off]) + Entry(inner, a)
  {
    hide Length;
    end := Write(out, off, a);
    end := Write(out, end, Length(|inner[a]|));
    end := Write(out, end, inner[a]);
  }

  lemma InnerCons(inner: TxResults, addrs: seq<seq<byte>>, j: nat, done: seq<byte>)
    requires j < |addrs| && forall i :: 0 <= i < |addrs| ==> addrs[i] in inner
    ensures |EncodeInner(inner, addrs[j..])| == |Entry(inner, addrs[j])| + |EncodeInner(inner, addrs[j + 1..])|
    ensures done + EncodeInner(inner, addrs[j..]) == done + Entry(inner, addrs[j]) + EncodeInner(inner, addrs[j + 1..])
  {
    hide Entry;
    assert addrs[j..][1..] == addrs[j + 1..];
  }

  lemma InnerEnds(inner: TxResults, addrs: seq<seq<byte>>)
    requires forall i :: 0 <= i < |addrs| ==> addrs[i] in inner
    ensures addrs[0..] == addrs && EncodeInner(inner, addrs[|addrs|..]) == []
  {
  }

  /** Writes the entries of one transaction in address order. */
  method WriteInner(out: array<byte>, start: nat, inner: TxResults) returns (off: nat)
    requires start + |EncodeInner(inner, ListOf(inner.Keys))| <= out.Length
    modifies out
    ensures off == start + |EncodeInner(inner, ListOf(inner.Keys))|
    ensures out[..off] == old(out[..start]) + EncodeInner(inner, ListOf(inner.Keys))
  {
    hide Lists, ListOf, EncodeInner, Entry;
    var addrs := SortedKeys(inner.Keys);
    ListIsUnique(addrs, ListOf(inner.Keys), inner.Keys);
    AllListed(inner, addrs);
    InnerEnds(inner, addrs);
    off := start;
    for j := 0 to |addrs|
      invariant off + |EncodeInner(inner, addrs[j..])| == start + |EncodeInner(inner, addrs)| && off <= out.Length
      invariant out[..off] + EncodeInner(inner, addrs[j..]) == old(out[..start]) + EncodeInner(inner, addrs)
    {
      InnerCons(inner, addrs, j, out[..off]);
      off := WriteEntry(out, off, inner, addrs[j]);
    }
  }

  lemma AllListed<V>(m: map<seq<byte>, V>, keys: seq<seq<byte>>)
    requires Lists(keys, m.Keys)
    ensures forall i :: 0 <= i < |keys| ==> keys[i] in m
  {
    hide Sorted;
  }

  method WriteTx(out: array<byte>, off: nat, m: Results, h: seq<byte>) returns (end: nat)
    requires h in m && off + |EncodeTx(m, h)| <= out.Length
    modifies out
    ensures end == off + |EncodeTx(m, h)| && out[..end] == old(out[..off]) + EncodeTx(m, h)
  {
    hide Length, EncodeInner, Lists, ListOf;
    end := Write(out, off, h);
    end := Write(out, end, Length(|m[h]|));
    end := WriteInner(out, end, m[h]);
  }

  lemma OuterCons(m: Results, hashes: seq<seq<byte>>, k: nat, done: seq<byte>)
    requires k < |hashes| && forall i :: 0 <= i < |hashes| ==> hashes[i] in m
    ensures |EncodeOuter(m, hashes[k..])| == |EncodeTx(m, hashes[k])| + |EncodeOuter(m, hashes[k + 1..])|
    ensures done + EncodeOuter(m, hashes[k..]) == done + EncodeTx(m, hashes[k]) + EncodeOuter(m, hashes[k + 1..])
  {
    hide EncodeTx;
    assert hashes[k..][1..] == hashes[k + 1..];
  }

  lemma OuterEnds(m: Results, hashes: seq<seq<byte>>)
    requires forall i :: 0 <= i < |hashes| ==> hashes[i] in m
    ensures hashes[0..] == hashes && EncodeOuter(m, hashes[|hashes|..]) == []
  {
  }

  /** Fails exactly when the encoding is too large; otherwise the buffer of the computed size is filled to its end. */
  method Marshal(m: Results) returns (r: Encoded)
    requires Typed(m)
    ensures r == if Size(m) > 1048576 then EncodeTooLarge else Encoded(Encode(m))
  {
    hide Lists, Length, ListOf, Size, EncodeOuter, EncodeTx, Typed;
    var size := ComputeSize(m);
    if size > MAX_SIZE {
      return EncodeTooLarge;
    }
    SizeIsLength(m);
    var out := new byte[size];
    var hashes := SortedKeys(m.Keys);
    ListIsUnique(hashes, ListOf(m.Keys), m.Keys);
    AllListed(m, hashes);
    OuterEnds(m, hashes);
    var off: nat := Write(out, 0, VERSION);
    off := Write(out, off, Length(|m|));
    for k := 0 to |hashes|
      invariant off + |EncodeOuter(m, hashes[k..])| == size && off <= out.Length
      invariant out[..off] + EncodeOuter(m, hashes[k..]) == Encode(m)
    {
      OuterCons(m, hashes, k, out[..off]);
      off := WriteTx(out, off, m, hashes[k]);
    }
    assert out[..] == out[..off];
    return Encoded(out[..]);
  }

  /** Reads `n` entries from `start` on. */
  method ReadInner(b: seq<byte>, start: nat, n: nat) returns (ok: bool, off: nat, inner: TxResults)
    requires start <= |b|
    ensures start <= off <= |b|
    ensures ParseInner(b[start..], n, map[]) == if ok then Inner(inner, b[off..]) else InnerShort
  {
    hide FromBe32;
    off, inner := start, map[];
    var j := 0;
    while j < n
      invariant 0 <= j <= n && start <= off <= |b|
      invariant ParseInner(b[start..], n, map[]) == ParseInner(b[off..], n - j, inner)
    {
      if |b| < off + ADDR_LEN + 4 {
        return false, off, inner;
      }
      var addr := b[off..off + ADDR_LEN];
      var len := FromBe32(b[off + ADDR_LEN..off + ADDR_LEN + 4]);
      assert b[off..][..ADDR_LEN] == addr && b[off..][ADDR_LEN..ADDR_LEN + 4] == b[off + ADDR_LEN..off + ADDR_LEN + 4];
      if |b| < off + ADDR_LEN + 4 + len {
        return false, off, inner;
      }
      var value := b[off + ADDR_LEN + 4..off + ADDR_LEN + 4 + len];
      assert b[off..][ADDR_LEN + 4..ADDR_LEN + 4 + len] == value;
      assert b[off..][ADDR_LEN + 4 + len..] == b[off + ADDR_LEN + 4 + len..];
      inner := inner[addr := value];
      off := off + ADDR_LEN + 4 + len;
      j := j + 1;
    }
    ok := true;
  }

  method ParseResults(b: seq<byte>) returns (r: Parsed)
    ensures r == Parse(b)
  {
    hide FromBe32, ParseInner;
    if |b| < 2 {
      return ShortBuffer;
    }
    if |b| > MAX_SIZE {
      return TooLarge;
    }
    if b[0..2] != VERSION {
      return BadVersion;
    }
    if |b| < 6 {
      return ShortBuffer;
    }
    var n := FromBe32(b[2..6]);
    var off, results, i := 6, map[], 0;
    while i < n
      invariant 0 <= i <= n && 6 <= off <= |b| && ParseOuter(b[off..], n - i, results) == Parse(b)
    {
      if |b| < off + HASH_LEN + 4 {
        return ShortBuffer;
      }
      var hash := b[off..off + HASH_LEN];
      assert b[off..][..HASH_LEN] == hash;
      assert b[off..][HASH_LEN..HASH_LEN + 4] == b[off + HASH_LEN..off + HASH_LEN + 4];
      assert b[off..][HASH_LEN + 4..] == b[off + HASH_LEN + 4..];
      var innerN := FromBe32(b[off + HASH_LEN..off + HASH_LEN + 4]);
      var ok, end, inner := ReadInner(b, off + HASH_LEN + 4, innerN);
      if !ok {
        return ShortBuffer;
      }
      off, results, i := end, results[hash := inner], i + 1;
    }
    return Parsed(results);
  }
}
