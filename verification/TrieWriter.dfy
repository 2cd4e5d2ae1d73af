/** The pruning trie writer: roots leave memory `StateHistory` accepted blocks after they were accepted, and
    the root of every `commitInterval`-th block goes to disk. */
module TrieWriter {
  import opened Arith
  import opened Blocks
  import opened Caches

  const FLUSH_WINDOW: nat := 768
  const IDEAL_BATCH_SIZE: real := 102400.0

  datatype Outcome = Done | DereferenceFailed | CommitFailed | CapFailed

  /** The calls made on the trie database. */
  class TrieDb {
    var dereferenced: seq<Root>
    var committed: seq<Root>
    var caps: seq<real>

    constructor ()
      ensures dereferenced == [] && committed == [] && caps == []
    {
      dereferenced, committed, caps := [], [], [];
    }
  }

  function Roots(blocks: seq<Block>): (r: seq<Root>) {
    seq(|blocks|, i requires 0 <= i < |blocks| => blocks[i].root)
  }

  /** The roots among `blocks` that fall on the commit interval. */
  function IntervalRoots(blocks: seq<Block>, interval: nat): seq<Root>
    requires interval > 0
  {
    if blocks == [] then []
    else
      var last := blocks[|blocks| - 1];
      IntervalRoots(blocks[..|blocks| - 1], interval) + if last.number % interval == 0 then [last.root] else []
  }

  class CappedMemoryTrieWriter {
    const db: TrieDb
    const tipBuffer: BoundedBuffer<Root>
    const commitInterval: nat
    const memoryCap: real
    const targetCommitSize: real
    const flushStepSize: real
    ghost var accepted: seq<Block>

    ghost predicate BufferValid()
      reads this, db, tipBuffer, tipBuffer.buffer
    {
      && commitInterval > 0 && flushStepSize * 768.0 == memoryCap - targetCommitSize && tipBuffer.Valid()
      && tipBuffer.history == Roots(accepted)
      && db.dereferenced == Roots(accepted)[..if |accepted| > tipBuffer.size then |accepted| - tipBuffer.size else 0]
    }

    ghost predicate Valid()
      reads this, db, tipBuffer, tipBuffer.buffer
    {
      BufferValid() && db.committed == IntervalRoots(accepted, commitInterval)
    }

    constructor (stateHistory: nat, commitInterval: nat, memoryCap: real, targetCommitSize: real)
      requires stateHistory > 0 && commitInterval > 0
      ensures Valid() && accepted == [] && tipBuffer.size == stateHistory && this.commitInterval == commitInterval
      ensures this.memoryCap == memoryCap && this.targetCommitSize == targetCommitSize
      ensures fresh(db) && fresh(tipBuffer) && fresh(tipBuffer.buffer)
    {
      db := new TrieDb();
      tipBuffer := new BoundedBuffer(stateHistory);
      this.commitInterval, this.memoryCap, this.targetCommitSize := commitInterval, memoryCap, targetCommitSize;
      flushStepSize := (memoryCap - targetCommitSize) / FLUSH_WINDOW as real;
      accepted := [];
    }

    /** `nodes` is the current size of the dirty cache. Until the first error, everything older than the last
        `StateHistory` accepted roots has been dereferenced once and in order, and nothing newer. */
    method AcceptTrie(block: Block, nodes: real, dereferenceOk: bool, commitOk: bool, capOk: bool) returns (r: Outcome)
      requires Valid()
      modifies this, db, tipBuffer, tipBuffer.buffer
      ensures r == Done ==> Valid() && accepted == old(accepted) + [block]
      ensures r == DereferenceFailed <==> |old(accepted)| >= tipBuffer.size && !dereferenceOk
      ensures r == DereferenceFailed ==> Valid() && accepted == old(accepted) && db.caps == old(db.caps)
      ensures r == CommitFailed ==> block.number % commitInterval == 0 && !commitOk && db.committed == old(db.committed)
      ensures r != DereferenceFailed ==> db.caps == old(db.caps) + CapCalls(commitInterval, targetCommitSize, memoryCap, block.number, nodes)
    {
      hide Slot, Roots, CapCalls;
      var inserted := InsertRoot(block, dereferenceOk);
      if !inserted {
        return DereferenceFailed;
      }
      assert accepted[..|accepted| - 1] == old(accepted);
      r := CommitOrCap(block, nodes, commitOk, capOk);
    }

    method InsertRoot(block: Block, dereferenceOk: bool) returns (ok: bool)
      requires BufferValid()
      modifies this, db`dereferenced, tipBuffer, tipBuffer.buffer
      ensures BufferValid() && (ok <==> |old(accepted)| < tipBuffer.size || dereferenceOk)
      ensures accepted == if ok then old(accepted) + [block] else old(accepted)
    {
      hide Slot;
      var evicted;
      evicted, ok := tipBuffer.Insert(block.root, dereferenceOk);
      if !ok {
        return;
      }
      if evicted.Some? {
        db.dereferenced := db.dereferenced + [evicted.value];
      }
      accepted := accepted + [block];
      assert Roots(accepted) == Roots(old(accepted)) + [block.root];
    }

    function StepTarget(distance: nat): (target: real)
      requires flushStepSize * 768.0 == memoryCap - targetCommitSize
      ensures target == Target(targetCommitSize, memoryCap, distance)
    {
      TargetSteps(targetCommitSize, memoryCap, flushStepSize, distance);
      targetCommitSize + flushStepSize * distance as real
    }

    method CommitOrCap(block: Block, nodes: real, commitOk: bool, capOk: bool) returns (r: Outcome)
      requires commitInterval > 0 && flushStepSize * 768.0 == memoryCap - targetCommitSize
      modifies db`committed, db`caps
      ensures r == Done || (r == CommitFailed && block.number % commitInterval == 0 && !commitOk) || (r == CapFailed && !capOk)
      ensures db.committed == old(db.committed) + if r == Done && block.number % commitInterval == 0 then [block.root] else []
      ensures db.caps == old(db.caps) + CapCalls(commitInterval, targetCommitSize, memoryCap, block.number, nodes)
    {
      hide Target, StepTarget;
      var modCommitInterval := block.number % commitInterval;
      if modCommitInterval == 0 {
        if !commitOk {
          return CommitFailed;
        }
        db.committed := db.committed + [block.root];
        return Done;
      }
      var distanceFromCommit := commitInterval - modCommitInterval;
      if distanceFromCommit > FLUSH_WINDOW {
        return Done;
      }
      var targetMemory := StepTarget(distanceFromCommit);
      if nodes <= targetMemory {
        return Done;
      }
      db.caps := db.caps + [targetMemory - IDEAL_BATCH_SIZE];
      return if capOk then Done else CapFailed;
    }

    /** Commits the newest accepted root, so that a clean restart has nothing to re-execute. */
    method Shutdown() returns (last: Option<Root>)
      requires Valid()
      modifies db
      ensures last == if accepted == [] then None else Some(accepted[|accepted| - 1].root)
      ensures db.committed == old(db.committed) + (if last.Some? then [last.value] else [])
      ensures db.dereferenced == old(db.dereferenced) && db.caps == old(db.caps)
    {
      last := tipBuffer.Last();
      if last.Some? {
        db.committed := db.committed + [last.value];
      }
    }
  }

  /** The memory target `distance` blocks before a commit: on the straight line from the memory cap, 768 blocks before, to
      the commit target. */
  ghost function Target(commitTarget: real, cap: real, distance: nat): real {
    commitTarget + (cap - commitTarget) * distance as real / 768.0
  }

  lemma TargetSteps(commitTarget: real, cap: real, step: real, distance: nat)
    requires step * 768.0 == cap - commitTarget
    ensures commitTarget + step * distance as real == Target(commitTarget, cap, distance)
  {
    var d := distance as real;
    assert (cap - commitTarget) * d == step * d * 768.0;
  }

  /** The line has its two ends, and falls by one step per block towards the commit. */
  lemma TargetMeans(commitTarget: real, cap: real, distance: nat)
    ensures Target(commitTarget, cap, 0) == commitTarget && Target(commitTarget, cap, 768) == cap
    ensures Target(commitTarget, cap, distance + 1) - Target(commitTarget, cap, distance) == (cap - commitTarget) / 768.0
  {
    var d := distance as real;
    assert (cap - commitTarget) * (d + 1.0) == (cap - commitTarget) * d + (cap - commitTarget);
  }

  /** The caps asked for at one block. */
  ghost function CapCalls(interval: nat, commitTarget: real, cap: real, number: nat, nodes: real): seq<real>
    requires interval > 0
  {
    var distance := interval - number % interval;
    if number % interval != 0 && distance <= FLUSH_WINDOW && nodes > Target(commitTarget, cap, distance)
    then [Target(commitTarget, cap, distance) - IDEAL_BATCH_SIZE] else []
  }

  /** `k` blocks before the next commit the cache is capped if and only if that is at most 768 and the cache exceeds the
      target there; a block that is committed is never capped. */
  lemma CapsMean(interval: nat, commitTarget: real, cap: real, number: nat, nodes: real, k: nat)
    requires interval > 0 && k < interval && (number + k) % interval == 0
    ensures CapCalls(interval, commitTarget, cap, number, nodes) ==
            if 0 < k <= 768 && nodes > Target(commitTarget, cap, k) then [Target(commitTarget, cap, k) - 102400.0] else []
  {
    hide Target;
    var q, r := number / interval, number % interval;
    assert number == q * interval + r;
    if r + k < interval {
      DivModUnique(number + k, interval, q, r + k);
    } else {
      assert (q + 1) * interval == q * interval + interval;
      DivModUnique(number + k, interval, q + 1, r + k - interval);
    }
  }
}
