/** The bounded ring buffer and the first-in-first-out cache built on it. */
module Caches {
  import opened Blocks
  import opened Sums

  /** The ring slot of the `n`-th entry. */
  ghost function Slot(n: nat, size: nat): (p: nat)
    requires 0 < size
    ensures p < size && (n < size ==> p == n)
  {
    if n < size then n else Slot(n - size, size)
  }

  lemma SlotNext(n: nat, size: nat)
    requires 0 < size
    ensures Slot(n + 1, size) == if Slot(n, size) + 1 == size then 0 else Slot(n, size) + 1
  {
    if n >= size { SlotNext(n - size, size); }
  }

  lemma SlotAgain(n: nat, size: nat)
    requires 0 < size <= n
    ensures Slot(n, size) == Slot(n - size, size)
  {
  }

  /** Two entries less than `size` apart never share a slot. */
  lemma SlotsDiffer(i: nat, n: nat, size: nat)
    requires 0 < size && i < n < i + size
    ensures Slot(i, size) != Slot(n, size)
  {
    if i >= size { SlotsDiffer(i - size, n - size, size); }
  }

  /** `history` is everything inserted so far; the ring holds its last `size` entries. */
  class BoundedBuffer<K(0)> {
    const size: nat
    const buffer: array<K>
    var lastPos: int
    var cycled: bool
    ghost var history: seq<K>

    ghost predicate Valid()
      reads this, buffer
    {
      && 0 < size == buffer.Length
      && lastPos == (if history == [] then -1 else Slot(|history| - 1, size))
      && (cycled ==> |history| >= size)
      && (|history| > size ==> cycled)
      && forall i :: 0 <= i < |history| <= i + size ==> buffer[Slot(i, size)] == history[i]
    }

    constructor (size: nat)
      requires 0 < size
      ensures Valid() && history == [] && this.size == size && fresh(buffer)
    {
      this.size := size;
      buffer := new K[size];
      lastPos, cycled, history := -1, false, [];
    }

    /** Overwrites the oldest entry once the ring is full; the callback gets the entry inserted `size` entries
        earlier, and if it fails nothing is inserted. */
    method Insert(h: K, callbackOk: bool) returns (evicted: Option<K>, ok: bool)
      requires Valid()
      modifies this, buffer
      ensures Valid()
      ensures evicted == if |old(history)| >= size then Some(old(history)[|old(history)| - size]) else None
      ensures ok <==> evicted.None? || callbackOk
      ensures history == if ok then old(history) + [h] else old(history)
    {
      hide Slot;
      ghost var n := |history|;
      if n > 0 {
        SlotNext(n - 1, size);
      }
      if n >= size {
        SlotAgain(n, size);
      }
      var nextPos := lastPos + 1;
      if nextPos == size {
        nextPos := 0;
        cycled := true;
      }
      evicted := None;
      if cycled {
        evicted := Some(buffer[nextPos]);
        if !callbackOk {
          return evicted, false;
        }
      }
      forall i | 0 <= i < n < i + size
        ensures Slot(i, size) != Slot(n, size)
      {
        SlotsDiffer(i, n, size);
      }
      buffer[nextPos] := h;
      lastPos := nextPos;
      history := history + [h];
      return evicted, true;
    }

    method Last() returns (r: Option<K>)
      requires Valid()
      ensures r == if history == [] then None else Some(history[|history| - 1])
    {
      if lastPos == -1 {
        return None;
      }
      return Some(buffer[lastPos]);
    }
  }

  /** The content of a cache of size `limit` after the given puts: each put first drops the key put `limit`
      puts earlier. A cache of size 0 never stores anything. */
  function FifoMap<K(==), V>(puts: seq<(K, V)>, limit: nat): (m: map<K, V>) {
    if puts == [] || limit == 0 then map[]
    else
      var n := |puts| - 1;
      var before := FifoMap(puts[..n], limit);
      (if n >= limit then before - {puts[n - limit].0} else before)[puts[n].0 := puts[n].1]
  }

  lemma FifoSnoc<K, V>(puts: seq<(K, V)>, key: K, val: V, limit: nat)
    requires limit > 0
    ensures var m, n := FifoMap(puts, limit), |puts|;
            FifoMap(puts + [(key, val)], limit) == (if n >= limit then m - {puts[n - limit].0} else m)[key := val]
  {
    assert (puts + [(key, val)])[..|puts|] == puts;
  }

  /** `j` is the latest put of `k`. */
  predicate LatestPut<K(==), V>(puts: seq<(K, V)>, k: K, j: int) {
    0 <= j < |puts| && puts[j].0 == k && forall i :: j < i < |puts| ==> puts[i].0 != k
  }

  /** No put after the one at `j` evicted `k`, neither through that put nor through an older put of the same key. */
  predicate NotEvicted<K(==), V>(puts: seq<(K, V)>, limit: nat, k: K, j: int) {
    forall e :: 0 <= e < |puts| && j - limit < e <= |puts| - 1 - limit ==> puts[e].0 != k
  }

  /** When a lookup hits, and what it returns: the latest put, unless some put of that key fell out of the window. */
  lemma {:induction false} FifoGet<K, V>(puts: seq<(K, V)>, limit: nat, k: K)
    requires limit > 0
    ensures k in FifoMap(puts, limit) <==> exists j :: LatestPut(puts, k, j) && NotEvicted(puts, limit, k, j)
    ensures forall j :: k in FifoMap(puts, limit) && LatestPut(puts, k, j) ==> FifoMap(puts, limit)[k] == puts[j].1
  {
    if puts != [] {
      var n := |puts| - 1;
      var before := puts[..n];
      FifoGet(before, limit, k);
      if puts[n].0 == k {
        assert LatestPut(puts, k, n) && NotEvicted(puts, limit, k, n);
      } else {
        forall j
          ensures LatestPut(puts, k, j) <==> LatestPut(before, k, j)
          ensures LatestPut(puts, k, j) ==>
            (NotEvicted(puts, limit, k, j) <==> NotEvicted(before, limit, k, j) && (n >= limit ==> puts[n - limit].0 != k))
        {
          LatestPutSnoc(puts, k, j);
          if LatestPut(puts, k, j) { NotEvictedSnoc(puts, limit, k, j); }
        }
      }
    }
  }

  lemma LatestPutSnoc<K, V>(puts: seq<(K, V)>, k: K, j: int)
    requires puts != [] && puts[|puts| - 1].0 != k
    ensures LatestPut(puts, k, j) <==> LatestPut(puts[..|puts| - 1], k, j)
  {
  }

  lemma NotEvictedSnoc<K, V>(puts: seq<(K, V)>, limit: nat, k: K, j: int)
    requires puts != [] && limit > 0 && 0 <= j < |puts| - 1
    ensures var n := |puts| - 1;
            NotEvicted(puts, limit, k, j)
            <==> NotEvicted(puts[..n], limit, k, j) && (n >= limit ==> puts[n - limit].0 != k)
  {
  }

  /** The cache never holds more than `limit` keys. */
  lemma FifoBounded<K, V>(puts: seq<(K, V)>, limit: nat)
    ensures |FifoMap(puts, limit)| <= limit
  {
    var recent := if |puts| > limit then puts[|puts| - limit..] else puts;
    FifoRecent(puts, limit);
    KeysBounded(recent);
    assert FifoMap(puts, limit).Keys <= KeysOf(recent);
    SubsetSize(FifoMap(puts, limit).Keys, KeysOf(recent));
  }

  ghost function KeysOf<K, V>(puts: seq<(K, V)>): set<K> {
    set i | 0 <= i < |puts| :: puts[i].0
  }

  /** Whatever is found was put among the last `limit` puts. */
  lemma FifoRecent<K, V>(puts: seq<(K, V)>, limit: nat)
    ensures forall k :: k in FifoMap(puts, limit) ==>
              limit > 0 && exists i :: 0 <= i < |puts| && |puts| - limit <= i && puts[i].0 == k
  {
    if puts != [] && limit > 0 {
      var n := |puts| - 1;
      FifoRecent(puts[..n], limit);
      forall k | k in FifoMap(puts, limit) && k != puts[n].0
        ensures exists i :: 0 <= i < |puts| && |puts| - limit <= i && puts[i].0 == k
      {
        assert k in FifoMap(puts[..n], limit);
        var i :| 0 <= i < n && n - limit <= i && puts[..n][i].0 == k;
        assert puts[i].0 == k;
      }
      assert puts[n].0 == puts[n].0;
    }
  }

  /** If no key is put twice, the cache holds exactly the keys of the last `limit` puts. */
  lemma FifoOfDistinctKeys<K, V>(puts: seq<(K, V)>, limit: nat, k: K)
    requires limit > 0 && forall i, j :: 0 <= i < j < |puts| ==> puts[i].0 != puts[j].0
    ensures k in FifoMap(puts, limit) <==> exists i :: 0 <= i < |puts| && |puts| - limit <= i && puts[i].0 == k
  {
    hide FifoMap;
    FifoGet(puts, limit, k);
    if i :| 0 <= i < |puts| && |puts| - limit <= i && puts[i].0 == k {
      assert LatestPut(puts, k, i) && NotEvicted(puts, limit, k, i);
    } else {
      FifoRecent(puts, limit);
    }
  }

  /** A key that is put again before it falls out goes with its first put, although it was put recently. */
  lemma PutAgainIsLost()
    ensures 7 !in FifoMap([(7, 1), (8, 1), (7, 2), (9, 1)], 3)
  {
    var puts := [(7, 1), (8, 1), (7, 2), (9, 1)];
    FifoGet(puts, 3, 7);
    forall j | LatestPut(puts, 7, j)
      ensures !NotEvicted(puts, 3, 7, j)
    {
      assert puts[2].0 == 7 && puts[0].0 == 7;
    }
  }

  lemma KeysBounded<K, V>(puts: seq<(K, V)>)
    ensures |KeysOf(puts)| <= |puts|
  {
    if puts != [] {
      var n := |puts| - 1;
      KeysBounded(puts[..n]);
      assert KeysOf(puts) == KeysOf(puts[..n]) + {puts[n].0};
    }
  }

  class BufferFIFOCache<K(==, 0), V> {
    const buffer: BoundedBuffer<K>
    var m: map<K, V>
    ghost var puts: seq<(K, V)>

    ghost predicate Valid()
      reads this, buffer, buffer.buffer
    {
      && buffer.Valid()
      && |buffer.history| == |puts| && (forall i :: 0 <= i < |puts| ==> buffer.history[i] == puts[i].0)
      && m == FifoMap(puts, buffer.size)
    }

    constructor (limit: nat)
      requires limit > 0
      ensures Valid() && puts == [] && buffer.size == limit && fresh(buffer) && fresh(buffer.buffer)
    {
      buffer := new BoundedBuffer(limit);
      m, puts := map[], [];
    }

    method Put(key: K, val: V)
      requires Valid()
      modifies this, buffer, buffer.buffer
      ensures Valid() && puts == old(puts) + [(key, val)]
    {
      hide FifoMap, Slot;
      FifoSnoc(puts, key, val, buffer.size);
      var evicted, _ := buffer.Insert(key, true);
      if evicted.Some? {
        m := m - {evicted.value};
      }
      m := m[key := val];
      puts := puts + [(key, val)];
    }

    method Get(key: K) returns (r: Option<V>)
      requires Valid()
      ensures r.Some? <==> exists j :: LatestPut(puts, key, j) && NotEvicted(puts, buffer.size, key, j)
      ensures forall j :: r.Some? && LatestPut(puts, key, j) ==> r.value == puts[j].1
    {
      FifoGet(puts, buffer.size, key);
      return if key in m then Some(m[key]) else None;
    }
  }
}
