/** Blocks, ideal hashes and the ancestor relation that every other module rests on. */
module Blocks {

  datatype Option<+T> = None | Some(value: T)

  type Root = nat
  type Log = nat

  /** A hash determines the block it was taken from; `NoHash` is the all-zero hash. */
  datatype Hash = NoHash | Digest(block: Block)

  datatype Block = Block(number: nat, parent: Hash, root: Root, logs: seq<Log>, seal: nat)

  /** Every parent link from `b` down to height 0 goes exactly one height down. */
  predicate Linked(b: Block) {
    b.number == 0 || (b.parent.Digest? && b.parent.block.number + 1 == b.number && Linked(b.parent.block))
  }

  /** The ancestor of `b` at height `n`. */
  function Anc(b: Block, n: nat): (a: Block)
    ensures Linked(b) && n <= b.number ==> a.number == n && Linked(a)
  {
    if b.number <= n || b.parent.NoHash? then b else Anc(b.parent.block, n)
  }

  /** `b` lies on a chain that starts at the genesis block `g`. */
  predicate Rooted(g: Block, b: Block) {
    Linked(b) && Anc(b, 0) == g
  }

  predicate IsAncestor(a: Block, b: Block) {
    a.number <= b.number && Anc(b, a.number) == a
  }

  lemma AncCompose(b: Block, m: nat, n: nat)
    requires Linked(b) && n <= m <= b.number
    ensures Anc(Anc(b, m), n) == Anc(b, n)
  {
    if m < b.number {
      AncCompose(b.parent.block, m, n);
    }
  }

  lemma AncParent(b: Block, n: nat)
    requires Linked(b) && 0 < n <= b.number
    ensures Anc(b, n).parent == Digest(Anc(b, n - 1))
  {
    if n < b.number {
      AncParent(b.parent.block, n);
    }
  }

  lemma RootedAnc(g: Block, b: Block, n: nat)
    requires Rooted(g, b) && n <= b.number
    ensures Rooted(g, Anc(b, n))
  {
    AncCompose(b, n, 0);
  }

  lemma AncestorTransitive(a: Block, b: Block, c: Block)
    requires Linked(c) && IsAncestor(a, b) && IsAncestor(b, c)
    ensures IsAncestor(a, c)
  {
    AncCompose(c, b.number, a.number);
  }

  /** The height of the highest common ancestor of two chains with one genesis. */
  function Fork(a: Block, b: Block): (n: nat)
    decreases a.number + b.number
  {
    if a == b then a.number
    else if a.number > b.number then
      if a.parent.Digest? && a.parent.block.number < a.number then Fork(a.parent.block, b) else 0
    else if b.number > a.number then
      if b.parent.Digest? && b.parent.block.number < b.number then Fork(a, b.parent.block) else 0
    else if a.parent.Digest? && b.parent.Digest?
            && a.parent.block.number < a.number && b.parent.block.number < b.number then
      Fork(a.parent.block, b.parent.block)
    else 0
  }

  /** `Fork` separates the heights where the two chains agree from those where they do not. */
  lemma {:induction false} ForkSplits(g: Block, a: Block, b: Block, n: nat)
    requires Rooted(g, a) && Rooted(g, b)
    ensures Fork(a, b) <= a.number && Fork(a, b) <= b.number
    ensures n <= a.number && n <= b.number ==> (Anc(a, n) == Anc(b, n) <==> n <= Fork(a, b))
    decreases a.number + b.number
  {
    if a == b {
    } else if a.number > b.number {
      ForkSplits(g, a.parent.block, b, n);
    } else if b.number > a.number {
      ForkSplits(g, a, b.parent.block, n);
    } else {
      assert a.number > 0;
      ForkSplits(g, a.parent.block, b.parent.block, n);
      if n < a.number {
        assert Anc(a, n) == Anc(a.parent.block, n);
        assert Anc(b, n) == Anc(b.parent.block, n);
      }
    }
  }

  /** An ancestor of one of the two blocks at or below the fork is an ancestor of the other. */
  lemma ForkAbove(g: Block, a: Block, b: Block, c: Block)
    requires Rooted(g, a) && Rooted(g, b) && IsAncestor(c, a)
    ensures c.number <= Fork(a, b) <==> IsAncestor(c, b)
  {
    ForkSplits(g, a, b, c.number);
  }

  /** The blocks of the chain of `b` at heights `lo .. hi - 1`, lowest first. */
  function Segment(b: Block, lo: nat, hi: nat): (s: seq<Block>)
    ensures |s| == if lo <= hi then hi - lo else 0
  {
    seq(if lo <= hi then hi - lo else 0, i requires 0 <= i => Anc(b, lo + i))
  }

  lemma SegmentSnoc(b: Block, lo: nat, hi: nat)
    requires lo <= hi
    ensures Segment(b, lo, hi + 1) == Segment(b, lo, hi) + [Anc(b, hi)]
  {
  }

  lemma SegmentCons(b: Block, lo: nat, hi: nat)
    requires lo < hi
    ensures Segment(b, lo, hi) == [Anc(b, lo)] + Segment(b, lo + 1, hi)
  {
  }

  /** Two chains that agree at height `hi - 1` have the same segments below it. */
  lemma SegmentAgree(a: Block, b: Block, lo: nat, hi: nat)
    requires Linked(a) && Linked(b) && IsAncestor(a, b) && hi <= a.number + 1
    ensures Segment(a, lo, hi) == Segment(b, lo, hi)
  {
    forall n | lo <= n < hi
      ensures Anc(a, n) == Anc(b, n)
    {
      AncCompose(b, a.number, n);
    }
  }

  /** The logs of a list of blocks, in order. */
  function LogsOf(blocks: seq<Block>): seq<Log> {
    if blocks == [] then [] else LogsOf(blocks[..|blocks| - 1]) + blocks[|blocks| - 1].logs
  }

  function Concat<T>(batches: seq<seq<T>>): seq<T> {
    if batches == [] then [] else Concat(batches[..|batches| - 1]) + batches[|batches| - 1]
  }
}
