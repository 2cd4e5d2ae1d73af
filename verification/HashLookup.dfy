/** The memoising block-hash lookup that the EVM uses, against a plain walk along the parent hashes. */
module HashLookup {
  import opened Blocks

  function GetHeader(store: set<Block>, h: Hash, number: int): Option<Block> {
    if h.Digest? && h.block in store && h.block.number == number then Some(h.block) else None
  }

  /** `h` is the hash at height `at`; walks down to height `n`, or gives up at the first missing header. */
  function Walk(store: set<Block>, h: Hash, at: int, n: nat): Hash
    decreases at
  {
    if at <= n then (if at == n then h else NoHash)
    else match GetHeader(store, h, at)
      case None => NoHash
      case Some(header) => Walk(store, header.parent, at - 1, n)
  }

  function PlainLookup(store: set<Block>, ref: Block, n: nat): Hash {
    if ref.number <= n then NoHash else Walk(store, ref.parent, ref.number - 1, n)
  }

  /** With a stored chain below it, the plain walk from a block finds the hash of each of its ancestors. */
  lemma {:induction false} PlainLookupFindsAncestor(store: set<Block>, ref: Block, n: nat)
    requires Linked(ref) && n < ref.number && forall m :: n < m < ref.number ==> Anc(ref, m) in store
    ensures PlainLookup(store, ref, n) == Digest(Anc(ref, n))
  {
    WalkFindsAncestor(store, ref, ref.number - 1, n);
    AncParent(ref, ref.number);
  }

  /** The lookup answers exactly when the height is below the reference and every header in between is stored; otherwise
      the answer is zero. */
  lemma LookupIff(store: set<Block>, ref: Block, n: nat)
    requires Linked(ref)
    ensures PlainLookup(store, ref, n) ==
            if n < ref.number && forall m :: n < m < ref.number ==> Anc(ref, m) in store then Digest(Anc(ref, n)) else NoHash
  {
    if n < ref.number {
      AncParent(ref, ref.number);
      if forall m :: n < m < ref.number ==> Anc(ref, m) in store {
        PlainLookupFindsAncestor(store, ref, n);
      } else {
        var m :| n < m < ref.number && Anc(ref, m) !in store;
        WalkStops(store, ref, ref.number - 1, n, m);
      }
    }
  }

  lemma {:induction false} WalkStops(store: set<Block>, ref: Block, at: nat, n: nat, m: nat)
    requires Linked(ref) && n < m <= at < ref.number && Anc(ref, m) !in store
    ensures Walk(store, Digest(Anc(ref, at)), at, n) == NoHash
    decreases at
  {
    if m < at {
      AncParent(ref, at);
      WalkStops(store, ref, at - 1, n, m);
    }
  }

  lemma {:induction false} WalkFindsAncestor(store: set<Block>, ref: Block, at: nat, n: nat)
    requires Linked(ref) && n <= at < ref.number && forall m :: n < m < ref.number ==> Anc(ref, m) in store
    ensures Walk(store, Digest(Anc(ref, at)), at, n) == Digest(Anc(ref, n))
    decreases at
  {
    if n < at {
      AncParent(ref, at);
      WalkFindsAncestor(store, ref, at - 1, n);
    }
  }

  /** `cache[i]` is the hash that the walk from `ref` reaches `i + 1` heights below it. */
  ghost predicate Remembers(store: set<Block>, ref: Block, cache: seq<Hash>) {
    && (cache != [] ==> cache[0] == ref.parent)
    && |cache| <= ref.number
    && forall i :: 0 < i < |cache| ==> FollowsAt(store, ref, cache, i)
  }

  ghost predicate FollowsAt(store: set<Block>, ref: Block, cache: seq<Hash>, i: int)
    requires 0 < i < |cache|
  {
    var header := GetHeader(store, cache[i - 1], ref.number - i);
    header.Some? && header.value.parent == cache[i]
  }

  lemma RememberOneMore(store: set<Block>, ref: Block, cache: seq<Hash>, h: Hash)
    requires Remembers(store, ref, cache) && 0 < |cache| < ref.number
    requires GetHeader(store, cache[|cache| - 1], ref.number - |cache|) != None
    requires GetHeader(store, cache[|cache| - 1], ref.number - |cache|).value.parent == h
    ensures Remembers(store, ref, cache + [h])
  {
    forall i | 0 < i < |cache| + 1
      ensures FollowsAt(store, ref, cache + [h], i)
    {
      if i < |cache| { assert FollowsAt(store, ref, cache, i); }
    }
  }

  /** The walk can be resumed at any remembered hash. */
  lemma {:induction false} Resume(store: set<Block>, ref: Block, cache: seq<Hash>, i: nat, n: nat)
    requires Remembers(store, ref, cache) && i < |cache| && n <= ref.number - 1 - i
    ensures PlainLookup(store, ref, n) == Walk(store, cache[i], ref.number - 1 - i, n)
  {
    if i > 0 {
      assert FollowsAt(store, ref, cache, i);
      Resume(store, ref, cache, i - 1, n);
    }
  }

  class HashFn {
    const ref: Block
    const store: set<Block>
    var cache: seq<Hash>

    ghost predicate Valid()
      reads this
    {
      Remembers(store, ref, cache)
    }

    constructor (ref: Block, store: set<Block>)
      ensures Valid() && this.ref == ref && this.store == store && cache == []
    {
      this.ref, this.store, cache := ref, store, [];
    }

    /** Whatever was asked before, the answer is that of the plain walk. */
    method GetHash(n: nat) returns (h: Hash)
      requires Valid()
      modifies this
      ensures Valid() && old(cache) <= cache
      ensures h == PlainLookup(store, ref, n)
    {
      if ref.number <= n {
        return NoHash;
      }
      if |cache| == 0 {
        cache := [ref.parent];
      }
      var idx := ref.number - n - 1;
      if idx < |cache| {
        Resume(store, ref, cache, idx, n);
        return cache[idx];
      }
      var lastKnownHash := cache[|cache| - 1];
      var lastKnownNumber := ref.number - |cache|;
      while true
        invariant Valid() && 0 < |cache| && old(cache) <= cache
        invariant lastKnownHash == cache[|cache| - 1] && lastKnownNumber == ref.number - |cache| && n < lastKnownNumber
        decreases lastKnownNumber
      {
        Resume(store, ref, cache, |cache| - 1, n);
        var header := GetHeader(store, lastKnownHash, lastKnownNumber);
        if header.None? {
          return NoHash;
        }
        RememberOneMore(store, ref, cache, header.value.parent);
        cache := cache + [header.value.parent];
        lastKnownHash := header.value.parent;
        lastKnownNumber := header.value.number - 1;
        if n == lastKnownNumber {
          return lastKnownHash;
        }
      }
    }
  }
}
