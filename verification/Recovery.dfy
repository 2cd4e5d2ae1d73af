/** Startup after a crash: find the newest state on disk below the persisted acceptor tip, re-execute the
    accepted blocks above it and write the indices the acceptor did not get to. */
module Recovery {
  import opened Blocks
  import opened ChainSpec
  import opened Arith
  import Acceptor
  import BC = BlockChain

  datatype Outcome = Recovered | StateMissing | BlockMissing

  /** What the acceptor and recovery keep on disk. */
  datatype Disk = Disk(tip: Hash, committed: set<Root>, indexed: seq<Block>)

  /** `b` is the newest ancestor of `start` whose state is among `roots`. */
  predicate NewestState(roots: set<Root>, start: Block, b: Block) {
    && IsAncestor(b, start) && b.root in roots
    && forall k :: b.number < k <= start.number ==> Anc(start, k).root !in roots
  }

  predicate NoState(roots: set<Root>, start: Block, lo: int) {
    forall k: nat :: lo <= k <= start.number ==> Anc(start, k).root !in roots
  }

  class Recovery {
    const genesis: Block
    const blocks: set<Block>
    const canonical: map<nat, Hash>
    var acceptorTip: Hash
    var committed: set<Root>
    var live: set<Root>
    var indexed: seq<Block>
    ghost var journal: seq<Disk>

    predicate HasState(root: Root)
      reads this`committed, this`live
    {
      root in committed || root in live
    }

    /** The index is that of the last accepted block, its chain is stored, and the tip lies on it. */
    ghost predicate Sound(la: Block)
      reads this`acceptorTip
    {
      && Rooted(genesis, la) && canonical == Index(la) && PathStored(blocks, la, 0)
      && (acceptorTip.Digest? ==> IsAncestor(acceptorTip.block, la))
    }

    function GetBlock(h: Hash, n: int): Option<Block> {
      if h.Digest? && h.block in blocks && h.block.number == n then Some(h.block) else None
    }

    function GetBlockByNumber(n: nat): Option<Block> {
      if n in canonical then GetBlock(canonical[n], n) else None
    }

    ghost function OnDisk(): Disk
      reads this
    {
      Disk(acceptorTip, committed, indexed)
    }

    /** First a bounded search, then a walk to genesis; `walked` says whether the second was needed. */
    method FindState(start: Block, reexec: nat) returns (r: Search, walked: bool)
      requires Linked(start)
      ensures r.Found? ==> NewestState(committed + live, start, r.block)
      ensures r == Nowhere ==> NoState(committed + live, start, 0)
      ensures r == Broken ==> !PathStored(blocks, start, 0)
      ensures r != Broken ==> (walked <==> start.number > reexec && NoState(committed + live, start, start.number - reexec))
    {
      var current := start;
      var i := 0;
      while i <= reexec
        invariant i <= reexec + 1 && i <= start.number
        invariant current == Anc(start, start.number - i)
        invariant NoState(committed + live, start, start.number - i + 1)
      {
        if HasState(current.root) {
          return Found(current), false;
        }
        if current.number == 0 {
          return Nowhere, false;
        }
        AncParent(start, current.number);
        var parent := GetBlock(current.parent, current.number - 1);
        if parent.None? {
          return Broken, false;
        }
        current := parent.value;
        i := i + 1;
      }
      while current.number > 0
        invariant current.number <= start.number && current == Anc(start, current.number)
        invariant NoState(committed + live, start, current.number + 1)
      {
        if HasState(current.root) {
          return Found(current), true;
        }
        AncParent(start, current.number);
        var parent := GetBlock(current.parent, current.number - 1);
        if parent.None? {
          return Broken, true;
        }
        current := parent.value;
      }
      if HasState(current.root) {
        return Found(current), true;
      }
      return Nowhere, true;
    }

    /** Executes a stored accepted block on its parent's state, which gives the root in its header. */
    method ReprocessBlock(parent: Block, current: Block)
      requires HasState(parent.root)
      modifies this`live
      ensures live == old(live) + {current.root}
    {
      live := live + {current.root};
    }

    method WriteAcceptedIndices(b: Block)
      modifies this`acceptorTip, this`indexed, this`journal
      ensures acceptorTip == Digest(b) && indexed == old(indexed) + [b]
      ensures journal == old(journal) + [OnDisk()]
    {
      acceptorTip := Digest(b);
      indexed := indexed + [b];
      journal := journal + [OnDisk()];
    }

    /** Re-executes the chain of `la` from `from` on; indices are written from the old tip's child on. */
    method Reexecute(from: Block, la: Block) returns (r: Outcome, previousRoot: Option<Root>)
      requires Sound(la) && IsAncestor(from, la) && from.root in committed && live == {}
      requires acceptorTip.Digest? ==> from.number <= acceptorTip.block.number
      modifies this`acceptorTip, this`indexed, this`journal, this`live
      ensures r == Recovered && HasState(la.root)
      ensures previousRoot == if from.number < la.number then Some(la.root) else None
      ensures OnDisk() == After(old(OnDisk()), la, la.number)
      ensures forall d :: d in journal && d !in old(journal) ==> Between(old(OnDisk()), la, d)
    {
      ghost var start := OnDisk();
      var tip := acceptorTip;
      var current := from;
      var writeIndices := false;
      previousRoot := None;
      while current.number < la.number
        invariant IsAncestor(current, la) && from.number <= current.number
        invariant previousRoot == if from.number < current.number then Some(current.root) else None
        invariant HasState(current.root)
        invariant writeIndices <==> tip.Digest? && tip.block.number < current.number
        invariant OnDisk() == After(start, la, current.number)
        invariant forall d :: d in journal && d !in old(journal) ==> Between(start, la, d)
        decreases la.number - current.number
      {
        var parent := current;
        var next := GetBlockByNumber(parent.number + 1);
        AncParent(la, parent.number + 1);
        AfterStep(start, la, parent.number);
        if next.None? {
          return BlockMissing, previousRoot;
        }
        current := next.value;
        if Digest(parent) == tip {
          writeIndices := true;
        }
        ReprocessBlock(parent, current);
        if previousRoot.Some? && previousRoot.value != current.root {
          live := live - {previousRoot.value};
        }
        previousRoot := Some(current.root);
        if writeIndices {
          WriteAcceptedIndices(current);
          assert Between(start, la, OnDisk());
        }
      }
      return Recovered, previousRoot;
    }

    /** Ends with the state of the last accepted block on disk, the tip at that block and exactly the missing
        indices written; without a persisted tip only the state is restored. */
    method ReprocessState(la: Block, reexec: nat) returns (r: Outcome, walked: bool)
      requires Sound(la) && live == {}
      modifies this`acceptorTip, this`indexed, this`journal, this`live, this`committed
      ensures r == Recovered <==> !NoState(old(committed), if old(acceptorTip).Digest? then old(acceptorTip).block else la, 0)
      ensures r == Recovered ==> OnDisk() == Repaired(old(OnDisk()), la)
      ensures r != Recovered ==> OnDisk() == old(OnDisk()) && journal == old(journal)
      ensures forall d :: d in journal && d !in old(journal) ==> Between(old(OnDisk()), la, d)
      ensures walked ==> var start := if old(acceptorTip).Digest? then old(acceptorTip).block else la;
                start.number > reexec && NoState(old(committed), start, start.number - reexec)
    {
      ghost var disk := OnDisk();
      walked := false;
      var tip := acceptorTip;
      assert Anc(la, la.number) == la;
      if HasState(la.root) && (tip.NoHash? || tip == Digest(la)) {
        AfterNothing(disk, la);
        return Recovered, false;
      }
      var current := la;
      if tip.Digest? {
        TipStored(tip.block, la, blocks);
        current := tip.block;
      }
      ghost var start := current;
      var search;
      search, walked := FindState(current, reexec);
      assert committed + live == committed;
      PathBelow(start, la, blocks);
      if !search.Found? {
        return StateMissing, walked;
      }
      AncestorTransitive(search.block, start, la);
      var previousRoot;
      r, previousRoot := Reexecute(search.block, la);
      if previousRoot.Some? {
        committed := committed + {previousRoot.value};
        journal := journal + [OnDisk()];
      }
    }
  }

  datatype Search = Found(block: Block) | Nowhere | Broken

  /** The disk after recovery has passed height `n` of the chain of `la`. */
  ghost function After(d: Disk, la: Block, n: nat): Disk {
    if d.tip.Digest? && d.tip.block.number < n
    then Disk(Digest(Anc(la, n)), d.committed, d.indexed + Segment(la, d.tip.block.number + 1, n + 1))
    else d
  }

  /** A disk state that recovery passes through: the indices reach exactly the tip, and no state is lost. */
  ghost predicate Between(d: Disk, la: Block, e: Disk) {
    && d.committed <= e.committed <= d.committed + {la.root}
    && exists n: nat :: n <= la.number && e.(committed := d.committed) == After(d, la, n)
  }

  lemma AfterStep(d: Disk, la: Block, n: nat)
    requires Linked(la) && n < la.number && (d.tip.Digest? ==> IsAncestor(d.tip.block, la))
    ensures After(d, la, n + 1) ==
      if d.tip.Digest? && d.tip.block.number <= n
      then Disk(Digest(Anc(la, n + 1)), d.committed, After(d, la, n).indexed + [Anc(la, n + 1)])
      else After(d, la, n)
    ensures d.tip.Digest? ==> (d.tip == Digest(Anc(la, n)) <==> d.tip.block.number == n)
  {
    if d.tip.Digest? && d.tip.block.number <= n {
      SegmentSnoc(la, d.tip.block.number + 1, n + 1);
    }
  }

  lemma AfterNothing(d: Disk, la: Block)
    requires d.tip.NoHash? || d.tip == Digest(la)
    ensures After(d, la, la.number) == d
  {
  }

  lemma TipStored(tip: Block, la: Block, blocks: set<Block>)
    requires IsAncestor(tip, la) && PathStored(blocks, la, 0)
    ensures tip in blocks
  {
  }

  lemma PathBelow(start: Block, la: Block, blocks: set<Block>)
    requires Linked(la) && IsAncestor(start, la) && PathStored(blocks, la, 0)
    ensures PathStored(blocks, start, 0)
  {
    forall n | 0 <= n <= start.number
      ensures Anc(start, n) in blocks
    {
      AncCompose(la, start.number, n);
    }
  }

  /** The disk that a crash of a running node leaves behind. */
  ghost function Crashed(s: Acceptor.Node): Disk {
    Disk(if s.tipWritten then Digest(s.diskTip) else NoHash, s.committed, s.indexed)
  }

  /** The last accepted block that consensus reports at restart: at or above the tip, on the accepted chain. */
  ghost predicate Reported(s: Acceptor.Node, la: Block) {
    IsAncestor(s.diskTip, la) && IsAncestor(la, s.chain.lastAccepted)
  }

  /** After a crash at any step of a run the newest state on disk is less than one commit interval below the
      tip, so a search over `reexec >= commitInterval` blocks finds it without walking to genesis. */
  lemma CrashFindsStateInWindow(c: Acceptor.Config, s: Acceptor.Node, reexec: nat, b: Block)
    requires c.commitInterval > 0 && Acceptor.NodeInv(c, s) && c.commitInterval <= reexec
    ensures !NoState(s.committed, s.diskTip, 0)
    ensures !(s.diskTip.number > reexec && NoState(s.committed, s.diskTip, s.diskTip.number - reexec))
    ensures NewestState(s.committed, s.diskTip, b) ==> s.diskTip.number - b.number < c.commitInterval
  {
    var k: nat :| LastMultiple(s.diskTip.number, c.commitInterval) <= k <= s.diskTip.number
                  && Anc(s.diskTip, k).root in s.committed;
  }

  /** After a crash at any step of a run, startup can move the index to the reported block and recovery starts
      from a sound state. */
  lemma CrashIsRestartable(c: Acceptor.Config, s: Acceptor.Node, la: Block)
    requires c.commitInterval > 0 && Acceptor.NodeInv(c, s) && Reported(s, la)
    ensures BC.AcceptedPartOk(s.chain.genesis, s.chain.blocks, BC.Disk(s.chain.canonical, s.chain.head), la)
    ensures BC.RestartIndex(BC.Disk(s.chain.canonical, s.chain.head), la) == Index(la)
    ensures Rooted(s.chain.genesis, la) && PathStored(s.chain.blocks, la, 0) && la in s.chain.blocks
  {
    var g, d := s.chain.genesis, BC.Disk(s.chain.canonical, s.chain.head);
    AncestorTransitive(la, s.chain.lastAccepted, s.chain.head);
    BC.SoundAncestor(g, s.chain.blocks, s.chain.head, la);
    forall n: nat | n <= la.number
      ensures n in d.canonical && d.canonical[n] == Digest(Anc(la, n))
    {
      AncCompose(s.chain.head, la.number, n);
    }
    BC.RestartHeals(g, s.chain.blocks, d, la, s.chain.head.number);
  }

  lemma AfterTip(d: Disk, la: Block, n: nat)
    requires Linked(la) && d.tip.Digest? && IsAncestor(d.tip.block, la) && n <= la.number
    ensures var e := After(d, la, n);
            e.tip.Digest? && IsAncestor(e.tip.block, la) && Linked(e.tip.block) && IsAncestor(d.tip.block, e.tip.block)
  {
    var t := d.tip.block;
    assert Anc(t, t.number) == t;
    if t.number < n {
      AncCompose(la, n, t.number);
    }
  }

  lemma StateCarries(committed: set<Root>, more: set<Root>, t: Block, u: Block)
    requires Linked(u) && IsAncestor(t, u) && committed <= more && !NoState(committed, t, 0)
    ensures !NoState(more, u, 0)
  {
    var k: nat :| k <= t.number && Anc(t, k).root in committed;
    AncCompose(u, t.number, k);
    assert Anc(u, k).root in more;
  }

  /** A crash inside recovery loses nothing: the next recovery succeeds as well, and in the end every index
      has been written exactly once and in order. */
  lemma CrashInRecovery(d: Disk, la: Block, e: Disk)
    requires Linked(la) && d.tip.Digest? && IsAncestor(d.tip.block, la) && Between(d, la, e)
    ensures e.tip.Digest? && IsAncestor(e.tip.block, la) && IsAncestor(d.tip.block, e.tip.block)
    ensures !NoState(d.committed, d.tip.block, 0) ==> !NoState(e.committed, e.tip.block, 0)
    ensures After(e, la, la.number).(committed := d.committed) == After(d, la, la.number)
  {
    hide Segment, Anc, Linked;
    var n: nat :| n <= la.number && e.(committed := d.committed) == After(d, la, n);
    AncAtOwnHeight(la, n);
    AfterTip(d, la, n);
    AfterTwice(d, la, n, la.number);
    if !NoState(d.committed, d.tip.block, 0) {
      StateCarries(d.committed, e.committed, d.tip.block, e.tip.block);
    }
  }

  /** Interrupted recoveries compose: several of them leave a disk that one alone could have left. */
  lemma BetweenAgain(d: Disk, la: Block, e: Disk, f: Disk)
    requires Linked(la) && (d.tip.Digest? ==> IsAncestor(d.tip.block, la)) && Between(d, la, e) && Between(e, la, f)
    ensures Between(d, la, f)
  {
    hide Segment, Linked;
    var n: nat :| n <= la.number && e.(committed := d.committed) == After(d, la, n);
    var m: nat :| m <= la.number && f.(committed := e.committed) == After(e, la, m);
    if d.tip.Digest? {
      AncAtOwnHeight(la, n);
      AfterTwice(d, la, n, m);
    }
    var k := if n < m then m else n;
    assert f.(committed := d.committed) == After(d, la, k);
  }

  /** Recovering in two stretches writes what recovering in one does. */
  lemma AfterTwice(d: Disk, la: Block, n: nat, m: nat)
    requires d.tip.Digest? && n <= la.number && m <= la.number && Anc(la, n).number == n
    ensures After(After(d, la, n), la, m) == After(d, la, if n < m then m else n)
  {
    hide Segment, Anc;
    var t := d.tip.block.number;
    if t < n < m {
      SegmentJoin(la, t + 1, n + 1, m + 1);
      assert d.indexed + Segment(la, t + 1, n + 1) + Segment(la, n + 1, m + 1)
          == d.indexed + (Segment(la, t + 1, n + 1) + Segment(la, n + 1, m + 1));
    }
  }

  /** How far a recovery after interrupted recoveries has to search. The tip moves on during recovery while nothing is
      committed before its end, so the distance grows by the blocks that were in flight at the crash. As the queue
      bounds these, twice the commit interval still suffices if the queue is shorter than the interval. */
  lemma SearchAfterInterruption(c: Acceptor.Config, s: Acceptor.Node, la: Block, d: Disk)
    requires c.commitInterval > 0 && Acceptor.NodeInv(c, s) && Reported(s, la) && s.tipWritten
    requires Between(Crashed(s), la, d)
    ensures d.tip.Digest? && exists k: nat ::
              && k <= d.tip.block.number && Anc(d.tip.block, k).root in d.committed
              && d.tip.block.number - k < c.commitInterval + (la.number - s.diskTip.number)
    ensures !s.closing ==> la.number - s.diskTip.number <= c.queueLimit + 2
    ensures !s.closing && c.queueLimit + 2 <= c.commitInterval ==>
              !NoState(d.committed, d.tip.block, d.tip.block.number - 2 * c.commitInterval)
  {
    hide Inv, Segment;
    CrashIsRestartable(c, s, la);
    CrashInRecovery(Crashed(s), la, d);
    var u := d.tip.block;
    var k: nat :| LastMultiple(s.diskTip.number, c.commitInterval) <= k <= s.diskTip.number
                  && Anc(s.diskTip, k).root in s.committed;
    RootedAnc(s.chain.genesis, la, u.number);
    AncCompose(u, s.diskTip.number, k);
    assert Anc(u, k).root in d.committed;
    InFlightBound(c, s, la);
  }

  lemma InFlightBound(c: Acceptor.Config, s: Acceptor.Node, la: Block)
    requires c.commitInterval > 0 && Acceptor.NodeInv(c, s) && Reported(s, la)
    ensures !s.closing ==> la.number - s.diskTip.number <= c.queueLimit + 2
  {
    hide Inv, Acceptor.CommitWindow, Acceptor.CacheOk;
    Acceptor.DiskTipReached(c, s);
    assert |Acceptor.InFlight(s)| <= c.queueLimit + 2;
    assert |Segment(s.target, s.tip.number + 1, s.target.number + 1)| == s.target.number - s.tip.number;
  }

  lemma SegmentJoin(b: Block, lo: nat, mid: nat, hi: nat)
    requires lo <= mid <= hi
    ensures Segment(b, lo, mid) + Segment(b, mid, hi) == Segment(b, lo, hi)
  {
  }

  /** Every accepted-header entry is an ancestor of `la` under its own number. */
  predicate PutsOk(puts: seq<(nat, Block)>, la: Block) {
    forall i :: 0 <= i < |puts| ==> puts[i].0 == puts[i].1.number && IsAncestor(puts[i].1, la)
  }

  /** The disk when recovery is done. */
  ghost function Repaired(d: Disk, la: Block): Disk {
    After(d, la, la.number).(committed := d.committed + {la.root})
  }

  /** The node that runs after recovery from the disk `d`. */
  ghost function Restarted(s: Acceptor.Node, la: Block, d: Disk, puts: seq<(nat, Block)>): Acceptor.Node {
    Acceptor.Started(s.chain.genesis, s.chain.blocks, la, d.tip.Digest?, Repaired(d, la).committed, puts)
  }

  /** The node after recovery satisfies the invariant of a running node again. */
  lemma RecoveredNodeRuns(c: Acceptor.Config, s: Acceptor.Node, la: Block, d: Disk, puts: seq<(nat, Block)>)
    requires c.commitInterval > 0 && Acceptor.NodeInv(c, s) && Reported(s, la) && PutsOk(puts, la)
    ensures Acceptor.NodeInv(c, Restarted(s, la, d, puts))
  {
    var t := Restarted(s, la, d, puts);
    CrashIsRestartable(c, s, la);
    assert Anc(la, la.number) == la;
    assert Inv(t.chain);
    assert Acceptor.InFlight(t) == Segment(la, la.number + 1, la.number + 1);
    assert t.indexed == Segment(la, la.number + 1, la.number + 1);
    assert Acceptor.CommitWindow(c, t.committed, la);
  }

  /** What recovery leaves on disk, whether or not it crashed on the way: with a tip on disk, the tip is the last
      accepted block and every block since the previous start is indexed once and in order. */
  lemma RecoveredDisk(c: Acceptor.Config, s: Acceptor.Node, la: Block, d: Disk)
    requires c.commitInterval > 0 && Acceptor.NodeInv(c, s) && Reported(s, la) && Between(Crashed(s), la, d)
    ensures d.tip.Digest? <==> s.tipWritten
    ensures Repaired(d, la).committed == s.committed + {la.root}
    ensures s.tipWritten ==> Repaired(d, la).tip == Digest(la)
                             && Repaired(d, la).indexed == Segment(la, s.base.number + 1, la.number + 1)
    ensures !s.tipWritten ==> Repaired(d, la).tip == NoHash && Repaired(d, la).indexed == []
  {
    hide Inv, Segment, Acceptor.NodeInv, Linked, Anc;
    CrashIsRestartable(c, s, la);
    var n: nat :| n <= la.number && d.(committed := s.committed) == After(Crashed(s), la, n);
    AncAtOwnHeight(la, n);
    if s.tipWritten {
      AfterTwice(Crashed(s), la, n, la.number);
      IndexedSoFar(c, s, la);
    } else {
      NothingIndexed(c, s);
    }
  }

  lemma AncAtOwnHeight(la: Block, n: nat)
    requires Linked(la) && n <= la.number
    ensures Anc(la, n).number == n && Anc(la, la.number) == la
  {
  }

  lemma IndexedSoFar(c: Acceptor.Config, s: Acceptor.Node, la: Block)
    requires c.commitInterval > 0 && Acceptor.NodeInv(c, s) && Reported(s, la) && Linked(la)
    ensures s.indexed == Segment(la, s.base.number + 1, s.diskTip.number + 1)
    ensures s.diskTip.number == la.number ==> s.diskTip == la
    ensures s.diskTip.number < la.number ==>
              Segment(la, s.base.number + 1, la.number + 1)
              == s.indexed + Segment(la, s.diskTip.number + 1, la.number + 1)
  {
    hide Inv, Segment, Acceptor.CommitWindow, Acceptor.CacheOk, Linked;
    Acceptor.DiskTipReached(c, s);
    Acceptor.LinkedTarget(s);
    SegmentAgree(s.diskTip, la, s.base.number + 1, s.diskTip.number + 1);
    SegmentAgree(s.diskTip, s.target, s.base.number + 1, s.diskTip.number + 1);
    SegmentJoin(la, s.base.number + 1, s.diskTip.number + 1, la.number + 1);
  }

  lemma NothingIndexed(c: Acceptor.Config, s: Acceptor.Node)
    requires c.commitInterval > 0 && Acceptor.NodeInv(c, s) && !s.tipWritten
    ensures s.indexed == [] && s.diskTip == s.base
  {
    assert |Segment(s.target, s.base.number + 1, s.base.number + 1)| == 0;
  }

  /** A crash at any step of any run is recovered from, also when recovery itself was interrupted at disk `d` before:
      some state is found, with a tip on disk without walking to genesis; the disk ends as `RecoveredDisk` says; and the
      restarted node is sound. */
  lemma CrashRecovers(c: Acceptor.Config, s0: Acceptor.Node, events: seq<Acceptor.Event>, la: Block, d: Disk,
                      reexec: nat, puts: seq<(nat, Block)>)
    requires c.commitInterval > 0 && Acceptor.NodeInv(c, s0) && Acceptor.EnabledRun(c, s0, events)
    requires c.commitInterval <= reexec && PutsOk(puts, la)
    requires var s := Acceptor.RunNode(c, s0, events); Reported(s, la) && Between(Crashed(s), la, d)
    ensures var s := Acceptor.RunNode(c, s0, events);
            && !NoState(d.committed, if s.tipWritten then d.tip.block else la, 0)
            && (s.tipWritten ==>
                  && !(s.diskTip.number > reexec && NoState(s.committed, s.diskTip, s.diskTip.number - reexec))
                  && Repaired(d, la) == Disk(Digest(la), s.committed + {la.root},
                                             Segment(la, s.base.number + 1, la.number + 1)))
            && Acceptor.NodeInv(c, Restarted(s, la, d, puts))
  {
    hide Inv, Segment, Acceptor.NodeInv, Acceptor.EnabledRun;
    Acceptor.RunKeepsNode(c, s0, events);
    var s := Acceptor.RunNode(c, s0, events);
    RecoveredDisk(c, s, la, d);
    RecoveredNodeRuns(c, s, la, d, puts);
    CrashFindsStateInWindow(c, s, reexec, la);
    CrashIsRestartable(c, s, la);
    if s.tipWritten {
      CrashInRecovery(Crashed(s), la, d);
    } else {
      StateCarries(s.committed, d.committed, s.diskTip, la);
    }
  }

  /** Every block since the previous start is indexed after recovery if and only if a tip was on disk or nothing had
      been accepted: without a tip, index writing is never switched on. */
  lemma IndicesRecoveredIff(c: Acceptor.Config, s: Acceptor.Node, la: Block, d: Disk)
    requires c.commitInterval > 0 && Acceptor.NodeInv(c, s) && Reported(s, la) && Between(Crashed(s), la, d)
    ensures Repaired(d, la).indexed == Segment(la, s.base.number + 1, la.number + 1) <==> s.tipWritten || la == s.base
  {
    hide Acceptor.NodeInv, Between, Repaired;
    RecoveredDisk(c, s, la, d);
    if !s.tipWritten {
      NothingIndexed(c, s);
      assert |Segment(la, s.base.number + 1, la.number + 1)| == la.number - s.base.number;
    }
  }

  /** A reachable input for the failing case: the first block over genesis is accepted and the node crashes before the
      worker has written anything. */
  lemma FirstBlockStaysUnindexed(c: Acceptor.Config, g: Block, b: Block)
    requires c.commitInterval > 0 && g.number == 0 && b.number == 1 && b.parent == Digest(g)
    ensures var s0 := Acceptor.Started(g, {g}, g, false, {g.root}, []);
            var events := [Acceptor.ChainOp(Insert(b, true)), Acceptor.ChainOp(Accept(b))];
            && Acceptor.EnabledRun(c, s0, events)
            && var s := Acceptor.RunNode(c, s0, events);
               Reported(s, b) && b !in Repaired(Crashed(s), b).indexed
  {
    var s0 := Acceptor.Started(g, {g}, g, false, {g.root}, []);
    var e1, e2 := Acceptor.ChainOp(Insert(b, true)), Acceptor.ChainOp(Accept(b));
    var s1 := Acceptor.Next(c, s0, e1);
    assert Canonical(s1.chain, b);
    var s2 := Acceptor.Next(c, s1, e2);
    assert Acceptor.EnabledRun(c, s2, []) && Acceptor.RunNode(c, s2, []) == s2;
    assert [e2][1..] == [];
    assert Acceptor.EnabledRun(c, s1, [e2]) && Acceptor.RunNode(c, s1, [e2]) == s2;
    assert [e1, e2][1..] == [e2];
    assert Anc(b, b.number) == b && Anc(b, 0) == g;
  }

  /** One life of a node: a run, a crash, any number of interrupted recoveries that leave disk `disk`, and the recovery
      that completes with last accepted block `la`. */
  datatype Epoch = Epoch(events: seq<Acceptor.Event>, la: Block, disk: Disk, puts: seq<(nat, Block)>)

  ghost predicate Lives(c: Acceptor.Config, s: Acceptor.Node, epochs: seq<Epoch>)
    requires c.commitInterval > 0
    decreases |epochs|
  {
    epochs == []
    || (var e := epochs[0];
        && Acceptor.EnabledRun(c, s, e.events)
        && var t := Acceptor.RunNode(c, s, e.events);
           && Reported(t, e.la) && Between(Crashed(t), e.la, e.disk) && PutsOk(e.puts, e.la)
           && Lives(c, Restarted(t, e.la, e.disk, e.puts), epochs[1..]))
  }

  ghost function LastLife(c: Acceptor.Config, s: Acceptor.Node, epochs: seq<Epoch>): Acceptor.Node
    requires c.commitInterval > 0 && Lives(c, s, epochs)
    decreases |epochs|
  {
    if epochs == [] then s else
      var e := epochs[0];
      LastLife(c, Restarted(Acceptor.RunNode(c, s, e.events), e.la, e.disk, e.puts), epochs[1..])
  }

  /** All blocks indexed in the given lives, in the order of writing. */
  ghost function AllIndexed(c: Acceptor.Config, s: Acceptor.Node, epochs: seq<Epoch>): seq<Block>
    requires c.commitInterval > 0 && Lives(c, s, epochs)
    decreases |epochs|
  {
    if epochs == [] then [] else
      var e := epochs[0];
      Repaired(e.disk, e.la).indexed
      + AllIndexed(c, Restarted(Acceptor.RunNode(c, s, e.events), e.la, e.disk, e.puts), epochs[1..])
  }

  /** One life moves the last accepted block on, indexes exactly the blocks in between, and hands over a sound node. */
  lemma OneLife(c: Acceptor.Config, s: Acceptor.Node, e: Epoch)
    requires c.commitInterval > 0 && Acceptor.NodeInv(c, s) && Acceptor.EnabledRun(c, s, e.events)
    requires var t := Acceptor.RunNode(c, s, e.events);
             Reported(t, e.la) && Between(Crashed(t), e.la, e.disk) && PutsOk(e.puts, e.la)
    ensures Linked(e.la) && IsAncestor(s.base, e.la)
    ensures var u := Restarted(Acceptor.RunNode(c, s, e.events), e.la, e.disk, e.puts);
            && Acceptor.NodeInv(c, u) && u.base == e.la
            && (s.tipWritten ==>
                  u.tipWritten && Repaired(e.disk, e.la).indexed == Segment(e.la, s.base.number + 1, e.la.number + 1))
  {
    hide Inv, Segment, Acceptor.NodeInv, Acceptor.EnabledRun, Acceptor.RunNode, Between, Reported, Anc, Linked, Repaired;
    CrashRecovers(c, s, e.events, e.la, e.disk, c.commitInterval, e.puts);
    Acceptor.RunKeepsNode(c, s, e.events);
    RunKeepsBase(c, s, e.events);
    var t := Acceptor.RunNode(c, s, e.events);
    RecoveredDisk(c, t, e.la, e.disk);
    ReportedBase(c, t, e.la);
  }

  /** Runs, crashes and recoveries can alternate for ever: every life starts and stays sound, the last accepted block
      only moves on, and once a tip is on disk every accepted block is indexed exactly once and in order. */
  lemma {:induction false} LivesGoOn(c: Acceptor.Config, s: Acceptor.Node, epochs: seq<Epoch>)
    requires c.commitInterval > 0 && Acceptor.NodeInv(c, s) && Lives(c, s, epochs)
    ensures var t := LastLife(c, s, epochs);
            && Acceptor.NodeInv(c, t) && Linked(t.base) && IsAncestor(s.base, t.base)
            && (s.tipWritten ==>
                  t.tipWritten && AllIndexed(c, s, epochs) == Segment(t.base, s.base.number + 1, t.base.number + 1))
    decreases |epochs|
  {
    hide Inv, Acceptor.NodeInv, Acceptor.EnabledRun, Between, Crashed, Reported, PutsOk, Anc, Linked, Repaired, Restarted,
         Segment;
    if epochs == [] {
      BaseIsLinked(c, s);
      IndexedJoins(s.base, s.base, s.base);
    } else {
      var e := epochs[0];
      OneLife(c, s, e);
      var u := Restarted(Acceptor.RunNode(c, s, e.events), e.la, e.disk, e.puts);
      LivesGoOn(c, u, epochs[1..]);
      var last := LastLife(c, u, epochs[1..]);
      AncestorTransitive(s.base, e.la, last.base);
      IndexedJoins(s.base, e.la, last.base);
    }
  }

  lemma BaseIsLinked(c: Acceptor.Config, s: Acceptor.Node)
    requires c.commitInterval > 0 && Acceptor.NodeInv(c, s)
    ensures Linked(s.base) && IsAncestor(s.base, s.base)
  {
    Acceptor.DiskTipReached(c, s);
  }

  lemma ReportedBase(c: Acceptor.Config, s: Acceptor.Node, la: Block)
    requires c.commitInterval > 0 && Acceptor.NodeInv(c, s) && Reported(s, la)
    ensures Linked(la) && IsAncestor(s.base, la)
  {
    CrashIsRestartable(c, s, la);
    AncestorTransitive(s.base, s.diskTip, la);
  }

  lemma {:induction false} RunKeepsBase(c: Acceptor.Config, s: Acceptor.Node, events: seq<Acceptor.Event>)
    requires c.commitInterval > 0 && Acceptor.EnabledRun(c, s, events)
    ensures Acceptor.RunNode(c, s, events).base == s.base && (s.tipWritten ==> Acceptor.RunNode(c, s, events).tipWritten)
    decreases |events|
  {
    if events != [] {
      hide Step, Legal;
      RunKeepsBase(c, Acceptor.Next(c, s, events[0]), events[1..]);
    }
  }

  lemma {:induction false} IndexedJoins(base: Block, la: Block, last: Block)
    requires Linked(la) && Linked(last) && IsAncestor(base, la) && IsAncestor(la, last)
    ensures Segment(la, base.number + 1, la.number + 1) + Segment(last, la.number + 1, last.number + 1)
         == Segment(last, base.number + 1, last.number + 1)
    ensures Segment(last, last.number + 1, last.number + 1) == []
  {
    hide Segment, Anc, Linked;
    SegmentAgree(la, last, base.number + 1, la.number + 1);
    SegmentJoin(last, base.number + 1, la.number + 1, last.number + 1);
  }

  /** From an empty database on: in every state of every life the node is sound and the accepted-header cache answers
      as the canonical index does. */
  lemma EveryLifeIsSound(c: Acceptor.Config, g: Block, epochs: seq<Epoch>, events: seq<Acceptor.Event>, n: nat)
    requires c.commitInterval > 0 && g.number == 0
    requires var s0 := Acceptor.Started(g, {g}, g, false, {g.root}, []);
             Lives(c, s0, epochs) && Acceptor.EnabledRun(c, LastLife(c, s0, epochs), events)
    ensures var s0 := Acceptor.Started(g, {g}, g, false, {g.root}, []);
            var t := Acceptor.RunNode(c, LastLife(c, s0, epochs), events);
            Acceptor.NodeInv(c, t) && Acceptor.CachedHeader(c, t, n) == Acceptor.PlainHeader(t.chain, n)
  {
    hide Acceptor.NodeInv, Lives, LastLife, Acceptor.EnabledRun;
    var s0 := Acceptor.Started(g, {g}, g, false, {g.root}, []);
    Acceptor.GenesisNodeIsSound(c, g);
    LivesGoOn(c, s0, epochs);
    Acceptor.RunKeepsNode(c, LastLife(c, s0, epochs), events);
    Acceptor.CacheRefinesIndex(c, LastLife(c, s0, epochs), events, n);
  }

  /** Fills the accepted-header cache with the last `size` accepted blocks above genesis, lowest first. */
  method WarmAcceptedCaches(chain: Chain, la: Block, size: nat) returns (puts: seq<(nat, Block)>)
    requires Inv(chain) && IsAncestor(la, chain.head)
    ensures size == 0 || la.number == 0 ==> puts == []
    ensures size > 0 && la.number > 0 ==> |puts| == if size < la.number then size else la.number
    ensures forall i :: 0 <= i < |puts| ==> puts[i] == (la.number - |puts| + 1 + i, Anc(la, la.number - |puts| + 1 + i))
    ensures PutsOk(puts, la)
  {
    puts := [];
    if size == 0 || la.number < 1 {
      return;
    }
    var startIndex := 1;
    if size - 1 < la.number {
      startIndex := la.number - (size - 1);
    }
    var i := startIndex;
    RootedAnc(chain.genesis, chain.head, la.number);
    while i <= la.number
      invariant startIndex <= i <= la.number + 1 && |puts| == i - startIndex
      invariant forall j :: 0 <= j < |puts| ==> puts[j] == (startIndex + j, Anc(la, startIndex + j))
    {
      AncCompose(chain.head, la.number, i);
      puts := puts + [(i, chain.canonical[i].block)];
      i := i + 1;
    }
  }
}
