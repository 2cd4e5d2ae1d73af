/** The asynchronous acceptor: accepted blocks pass through a bounded queue to one worker, which commits
    tries, writes indices and moves the tip, while the chain manager keeps working. One step is what happens
    under a lock or in one database batch, so a run is any interleaving. */
module Acceptor {
  import opened Blocks
  import opened ChainSpec
  import opened Caches
  import opened Arith

  datatype Config = Config(queueLimit: nat, commitInterval: nat, cacheLimit: nat)

  /** Where the worker is in its loop body, with the block it took from the queue. */
  datatype Worker =
    | Idle
    | Popped(block: Block)
    | TrieAccepted(block: Block)
    | IndicesWritten(block: Block)
    | HeaderCached(block: Block)
    | TipMoved(block: Block)

  /** `sending` is a block that `Accept` is handing to the queue while it holds the chain lock, `target` the
      last block handed over, `base` the tip at startup, `indexed` the blocks whose indices were written since
      then; `diskTip`, `indexed` and `committed` are on disk, `tip` and `puts` in memory. No tip is on disk before
      the first block is processed: then `tipWritten` is false and `diskTip` is the startup tip. */
  datatype Node = Node(
    chain: Chain, sending: Option<Block>, queue: seq<Block>, worker: Worker, pending: nat,
    base: Block, target: Block, tip: Block, diskTip: Block, tipWritten: bool, indexed: seq<Block>,
    committed: set<Root>, puts: seq<(nat, Block)>, closing: bool, closed: bool)

  datatype Event =
    | ChainOp(op: Op)
    | Enqueue
    | HandOver
    | Pop
    | AcceptTrie
    | FlushNodes(root: Root)
    | WriteIndices
    | CacheHeader
    | MoveTip
    | Finish
    | StartClose
    | FinishClose

  predicate Enabled(c: Config, s: Node, e: Event) {
    match e
    case ChainOp(op) => s.sending.None? && Legal(s.chain, op)
    case Enqueue => s.sending.Some? && |s.queue| < c.queueLimit
    case HandOver => s.sending.Some? && s.queue == [] && s.worker.Idle?
    case Pop => s.queue != [] && s.worker.Idle?
    case AcceptTrie => s.worker.Popped?
    case FlushNodes(_) => true
    case WriteIndices => s.worker.TrieAccepted?
    case CacheHeader => s.worker.IndicesWritten?
    case MoveTip => s.worker.HeaderCached?
    case Finish => s.worker.TipMoved? && s.pending > 0
    case StartClose => s.sending.None? && !s.closing
    case FinishClose => s.closing && s.pending == 0
  }

  predicate Accepts(s: Node, op: Op) {
    op.Accept? && Step(s.chain, op).lastAccepted != s.chain.lastAccepted
  }

  function Next(c: Config, s: Node, e: Event): Node
    requires c.commitInterval > 0 && Enabled(c, s, e)
  {
    match e
    case ChainOp(op) =>
      var t := s.(chain := Step(s.chain, op));
      if Accepts(s, op) && !s.closing
      then t.(sending := Some(op.block), pending := s.pending + 1, target := op.block)
      else t
    case Enqueue => s.(queue := s.queue + [s.sending.value], sending := None)
    case HandOver => s.(worker := Popped(s.sending.value), sending := None)
    case Pop => s.(worker := Popped(s.queue[0]), queue := s.queue[1..])
    case AcceptTrie =>
      var b := s.worker.block;
      s.(worker := TrieAccepted(b),
         committed := if b.number % c.commitInterval == 0 then s.committed + {b.root} else s.committed)
    case FlushNodes(root) => s.(committed := s.committed + {root})
    case WriteIndices =>
      s.(worker := IndicesWritten(s.worker.block), diskTip := s.worker.block, tipWritten := true,
         indexed := s.indexed + [s.worker.block])
    case CacheHeader =>
      s.(worker := HeaderCached(s.worker.block), puts := s.puts + [(s.worker.block.number, s.worker.block)])
    case MoveTip => s.(worker := TipMoved(s.worker.block), tip := s.worker.block)
    case Finish => s.(worker := Idle, pending := s.pending - 1)
    case StartClose => s.(closing := true)
    case FinishClose => s.(closed := true)
  }

  /** The accepted blocks that the tip has not reached yet, in order. */
  function InFlight(s: Node): seq<Block> {
    (if s.worker.Idle? || s.worker.TipMoved? then [] else [s.worker.block])
    + s.queue
    + if s.sending.Some? then [s.sending.value] else []
  }

  /** Some state since the last multiple of the commit interval is on disk. */
  predicate CommitWindow(c: Config, committed: set<Root>, tip: Block)
    requires c.commitInterval > 0
  {
    exists k: nat :: LastMultiple(tip.number, c.commitInterval) <= k <= tip.number && Anc(tip, k).root in committed
  }

  ghost predicate Pipeline(s: Node) {
    && Inv(s.chain)
    && IsAncestor(s.target, s.chain.lastAccepted) && (!s.closing ==> s.target == s.chain.lastAccepted)
    && IsAncestor(s.tip, s.target)
    && InFlight(s) == Segment(s.target, s.tip.number + 1, s.target.number + 1)
    && s.pending == |s.queue| + (if s.worker.Idle? then 0 else 1) + (if s.sending.Some? then 1 else 0)
    && (s.closing ==> s.sending.None?)
    && (s.closed ==> s.closing && s.pending == 0)
    && (s.worker.TipMoved? ==> s.tip == s.worker.block)
  }

  ghost predicate DiskOk(c: Config, s: Node)
    requires c.commitInterval > 0
  {
    && s.diskTip == (if s.worker.IndicesWritten? || s.worker.HeaderCached? then s.worker.block else s.tip)
    && IsAncestor(s.base, s.diskTip) && (!s.tipWritten ==> s.diskTip == s.base)
    && s.indexed == Segment(s.target, s.base.number + 1, s.diskTip.number + 1)
    && CommitWindow(c, s.committed, s.diskTip)
    && (s.worker.TrieAccepted? && s.worker.block.number % c.commitInterval == 0 ==> s.worker.block.root in s.committed)
  }

  ghost predicate CacheOk(s: Node) {
    forall i :: 0 <= i < |s.puts| ==> s.puts[i].0 == s.puts[i].1.number && IsAncestor(s.puts[i].1, s.chain.lastAccepted)
  }

  /** The last block whose header went into the cache since startup. */
  function CachedTip(s: Node): Block {
    if s.worker.HeaderCached? then s.worker.block else s.tip
  }

  /** Since startup every processed header was put into the cache, once and in order. */
  ghost predicate HeadersCached(s: Node) {
    var top := CachedTip(s).number;
    && s.base.number <= s.tip.number && top - s.base.number <= |s.puts|
    && forall k :: |s.puts| - (top - s.base.number) <= k < |s.puts| ==>
         var n := top + 1 + k - |s.puts|; s.puts[k] == (n, Anc(s.target, n))
  }

  ghost predicate NodeInv(c: Config, s: Node)
    requires c.commitInterval > 0
  {
    Pipeline(s) && DiskOk(c, s) && CacheOk(s) && HeadersCached(s) && |s.queue| <= c.queueLimit
  }

  /** The node that startup brings up with last accepted block `la`. */
  function Started(g: Block, blocks: set<Block>, la: Block, tipWritten: bool, committed: set<Root>, puts: seq<(nat, Block)>): Node {
    Node(Chain(g, blocks, Index(la), la, la), None, [], Idle, 0, la, la, la, la, tipWritten, [], committed, puts, false, false)
  }

  /** A node on an empty database, whose genesis state is on disk, starts out sound. */
  lemma GenesisNodeIsSound(c: Config, g: Block)
    requires c.commitInterval > 0 && g.number == 0
    ensures NodeInv(c, Started(g, {g}, g, false, {g.root}, []))
  {
    GenesisIsSound(g);
    assert Started(g, {g}, g, false, {g.root}, []).chain == Genesis(g);
    assert Anc(g, 0).root in {g.root};
  }

  /** Accepting moves the target to a child of the last accepted block. */
  lemma AcceptExtends(s: Node, op: Op)
    requires Pipeline(s) && Legal(s.chain, op) && Accepts(s, op)
    ensures var b, la := op.block, s.chain.lastAccepted;
            && Step(s.chain, op).lastAccepted == b && Linked(b) && b.parent == Digest(la) && b.number == la.number + 1
            && IsAncestor(la, b) && Anc(b, b.number) == b
  {
    ChildCanBePreferred(s.chain, op.block);
  }

  lemma OnlyAcceptMoves(s: Node, op: Op)
    ensures !Accepts(s, op) ==> Step(s.chain, op).lastAccepted == s.chain.lastAccepted
  {
  }

  /** The block the worker holds before it moves the tip is the tip's child on the way to the target. */
  lemma WorkerBlock(s: Node)
    requires Pipeline(s) && !s.worker.Idle? && !s.worker.TipMoved?
    ensures var b := s.worker.block;
            && b == Anc(s.target, s.tip.number + 1) && b.number == s.tip.number + 1 && IsAncestor(b, s.target)
            && Linked(b) && Anc(b, s.tip.number) == s.tip && IsAncestor(s.tip, b)
  {
    var b := s.worker.block;
    assert InFlight(s)[0] == b;
    LinkedTarget(s);
    assert Segment(s.target, s.tip.number + 1, s.target.number + 1)[0] == Anc(s.target, s.tip.number + 1);
    AncCompose(s.target, b.number, s.tip.number);
  }

  lemma LinkedAccepted(chain: Chain)
    requires Inv(chain)
    ensures Linked(chain.lastAccepted) && Linked(chain.head) && IsAncestor(chain.lastAccepted, chain.head)
  {
  }

  lemma LinkedTarget(s: Node)
    requires Pipeline(s)
    ensures Linked(s.target) && Linked(s.tip) && Linked(s.chain.lastAccepted)
  {
  }

  lemma ChainOpKeepsPipeline(c: Config, s: Node, op: Op)
    requires c.commitInterval > 0 && Pipeline(s) && Enabled(c, s, ChainOp(op))
    ensures Pipeline(Next(c, s, ChainOp(op)))
  {
    hide Inv, Step, Legal, Segment;
    var t := Next(c, s, ChainOp(op));
    StepKeepsInv(s.chain, op);
    StepExtendsAccepted(s.chain, op);
    OnlyAcceptMoves(s, op);
    LinkedAccepted(t.chain);
    AncestorTransitive(s.target, s.chain.lastAccepted, t.chain.lastAccepted);
    if Accepts(s, op) && !s.closing {
      var b := op.block;
      AcceptExtends(s, op);
      AncestorTransitive(s.tip, s.target, b);
      SegmentAgree(s.target, b, s.tip.number + 1, s.target.number + 1);
      SegmentSnoc(b, s.tip.number + 1, b.number);
      assert InFlight(t) == InFlight(s) + [b];
    }
  }

  lemma MoveTipKeepsPipeline(c: Config, s: Node)
    requires c.commitInterval > 0 && Pipeline(s) && Enabled(c, s, MoveTip)
    ensures Pipeline(Next(c, s, MoveTip))
  {
    hide Inv, Step, Legal, Segment;
    var t := Next(c, s, MoveTip);
    WorkerBlock(s);
    SegmentCons(s.target, s.tip.number + 1, s.target.number + 1);
    assert InFlight(s) == [s.worker.block] + InFlight(t);
    assert InFlight(t) == InFlight(s)[1..];
  }

  lemma WorkerKeepsPipeline(c: Config, s: Node, e: Event)
    requires c.commitInterval > 0 && Pipeline(s) && Enabled(c, s, e) && !e.ChainOp?
    ensures Pipeline(Next(c, s, e))
  {
    var t := Next(c, s, e);
    if e.MoveTip? {
      MoveTipKeepsPipeline(c, s);
    } else {
      assert InFlight(t) == InFlight(s);
    }
  }

  lemma CommitWindowGrows(c: Config, committed: set<Root>, more: set<Root>, tip: Block)
    requires c.commitInterval > 0 && CommitWindow(c, committed, tip) && committed <= more
    ensures CommitWindow(c, more, tip)
  {
  }

  /** The commit window moves on with the tip: either the new tip itself was committed or its interval is unchanged. */
  lemma CommitWindowMoves(c: Config, committed: set<Root>, tip: Block, b: Block)
    requires c.commitInterval > 0 && CommitWindow(c, committed, tip)
    requires Linked(b) && b.number == tip.number + 1 && Anc(b, tip.number) == tip
    requires b.number % c.commitInterval == 0 ==> b.root in committed
    ensures CommitWindow(c, committed, b)
  {
    if b.number % c.commitInterval == 0 {
      assert Anc(b, b.number) == b;
    } else {
      LastMultipleStep(tip.number, c.commitInterval);
      var k: nat :| LastMultiple(tip.number, c.commitInterval) <= k <= tip.number && Anc(tip, k).root in committed;
      AncCompose(b, tip.number, k);
      assert Anc(b, k).root in committed;
    }
  }

  lemma ChainOpKeepsDisk(c: Config, s: Node, op: Op)
    requires c.commitInterval > 0 && Pipeline(s) && DiskOk(c, s) && Enabled(c, s, ChainOp(op))
    ensures DiskOk(c, Next(c, s, ChainOp(op)))
  {
    hide Inv, Step, Legal, Segment, CommitWindow;
    if Accepts(s, op) && !s.closing {
      AcceptExtends(s, op);
      LinkedTarget(s);
      DiskTipReached(c, s);
      SegmentAgree(s.target, op.block, s.base.number + 1, s.diskTip.number + 1);
    }
  }

  lemma DiskTipReached(c: Config, s: Node)
    requires c.commitInterval > 0 && Pipeline(s) && DiskOk(c, s)
    ensures IsAncestor(s.diskTip, s.target) && Linked(s.diskTip) && IsAncestor(s.tip, s.diskTip)
  {
    LinkedTarget(s);
    assert Anc(s.tip, s.tip.number) == s.tip;
    if s.worker.IndicesWritten? || s.worker.HeaderCached? {
      WorkerBlock(s);
    }
  }

  lemma WorkerKeepsDisk(c: Config, s: Node, e: Event)
    requires c.commitInterval > 0 && Pipeline(s) && DiskOk(c, s) && Enabled(c, s, e) && !e.ChainOp?
    ensures DiskOk(c, Next(c, s, e))
  {
    hide Inv, Step, Legal, Segment, CommitWindow;
    var t := Next(c, s, e);
    match e
    case FlushNodes(_) => CommitWindowGrows(c, s.committed, t.committed, s.diskTip);
    case AcceptTrie => CommitWindowGrows(c, s.committed, t.committed, s.diskTip);
    case WriteIndices =>
      var b := s.worker.block;
      WorkerBlock(s);
      CommitWindowMoves(c, s.committed, s.tip, b);
      AncestorTransitive(s.base, s.tip, b);
      SegmentSnoc(s.target, s.base.number + 1, b.number);
    case _ =>
  }

  lemma StepKeepsCache(c: Config, s: Node, e: Event)
    requires c.commitInterval > 0 && Pipeline(s) && CacheOk(s) && Enabled(c, s, e)
    ensures CacheOk(Next(c, s, e))
  {
    hide Inv, Step, Legal, Segment;
    var t := Next(c, s, e);
    match e
    case ChainOp(op) =>
      StepKeepsInv(s.chain, op);
      StepExtendsAccepted(s.chain, op);
      LinkedAccepted(t.chain);
      forall i | 0 <= i < |s.puts|
        ensures IsAncestor(s.puts[i].1, t.chain.lastAccepted)
      {
        AncestorTransitive(s.puts[i].1, s.chain.lastAccepted, t.chain.lastAccepted);
      }
    case CacheHeader =>
      WorkerBlock(s);
      LinkedTarget(s);
      AncestorTransitive(s.worker.block, s.target, s.chain.lastAccepted);
    case _ =>
  }

  lemma StepKeepsHeaders(c: Config, s: Node, e: Event)
    requires c.commitInterval > 0 && Pipeline(s) && HeadersCached(s) && Enabled(c, s, e)
    ensures HeadersCached(Next(c, s, e))
  {
    hide Inv, Step, Legal, Segment, Linked;
    var t := Next(c, s, e);
    LinkedTarget(s);
    match e
    case ChainOp(op) =>
      if Accepts(s, op) && !s.closing {
        AcceptExtends(s, op);
        forall n: nat | n <= s.target.number
          ensures Anc(t.target, n) == Anc(s.target, n)
        {
          AncCompose(t.target, s.target.number, n);
        }
      }
      BelowTarget(s);
    case CacheHeader => WorkerBlock(s);
    case MoveTip => WorkerBlock(s);
    case _ =>
  }

  lemma BelowTarget(s: Node)
    requires Pipeline(s)
    ensures CachedTip(s).number <= s.target.number
  {
    if s.worker.HeaderCached? {
      WorkerBlock(s);
    }
  }

  /** The header of the block processed last is always found in the cache. */
  lemma NewestHeaderIsCached(c: Config, s: Node)
    requires c.commitInterval > 0 && NodeInv(c, s) && c.cacheLimit > 0 && CachedTip(s) != s.base
    ensures var m := FifoMap(s.puts, c.cacheLimit);
            CachedTip(s).number in m && m[CachedTip(s).number] == CachedTip(s)
  {
    var b := CachedTip(s);
    LinkedTarget(s);
    if s.worker.HeaderCached? {
      WorkerBlock(s);
    } else {
      TipAboveBase(c, s);
    }
    assert s.puts[|s.puts| - 1] == (b.number, b);
  }

  lemma TipAboveBase(c: Config, s: Node)
    requires c.commitInterval > 0 && NodeInv(c, s) && !s.worker.HeaderCached? && s.tip != s.base
    ensures s.base.number < s.tip.number
  {
    DiskTipReached(c, s);
    AncCompose(s.diskTip, s.tip.number, s.base.number);
  }

  predicate EnabledRun(c: Config, s: Node, es: seq<Event>)
    requires c.commitInterval > 0
    decreases |es|
  {
    es == [] || (Enabled(c, s, es[0]) && EnabledRun(c, Next(c, s, es[0]), es[1..]))
  }

  function RunNode(c: Config, s: Node, es: seq<Event>): Node
    requires c.commitInterval > 0 && EnabledRun(c, s, es)
    decreases |es|
  {
    if es == [] then s else RunNode(c, Next(c, s, es[0]), es[1..])
  }

  lemma StepKeepsNode(c: Config, s: Node, e: Event)
    requires c.commitInterval > 0 && NodeInv(c, s) && Enabled(c, s, e)
    ensures NodeInv(c, Next(c, s, e)) && IsAncestor(s.tip, Next(c, s, e).tip)
  {
    StepKeepsCache(c, s, e);
    StepKeepsHeaders(c, s, e);
    assert Anc(s.tip, s.tip.number) == s.tip;
    if e.ChainOp? {
      ChainOpKeepsPipeline(c, s, e.op);
      ChainOpKeepsDisk(c, s, e.op);
    } else {
      WorkerKeepsPipeline(c, s, e);
      WorkerKeepsDisk(c, s, e);
      if e.MoveTip? { WorkerBlock(s); }
    }
  }

  /** For every interleaving: the blocks in flight are the accepted blocks above the tip in order, the indices
      of each block below were written once and in order, and the tip never goes back. */
  lemma {:induction false} RunKeepsNode(c: Config, s: Node, es: seq<Event>)
    requires c.commitInterval > 0 && NodeInv(c, s) && EnabledRun(c, s, es)
    ensures NodeInv(c, RunNode(c, s, es)) && IsAncestor(s.tip, RunNode(c, s, es).tip)
    decreases |es|
  {
    if es == [] {
      assert Anc(s.tip, s.tip.number) == s.tip;
    } else {
      var t := Next(c, s, es[0]);
      StepKeepsNode(c, s, es[0]);
      RunKeepsNode(c, t, es[1..]);
      AncestorTransitive(s.tip, t.tip, RunNode(c, t, es[1..]).tip);
    }
  }

  /** Waiting for the pending count to reach zero means that every block handed over is processed: this is when
      draining returns (the target is the last accepted block) and when closing finishes. */
  lemma DrainedIsProcessed(c: Config, s: Node)
    requires c.commitInterval > 0 && NodeInv(c, s) && s.pending == 0
    ensures s.tip == s.diskTip == s.target && s.indexed == Segment(s.target, s.base.number + 1, s.target.number + 1)
    ensures !s.closing ==> s.tip == s.chain.lastAccepted
  {
    assert InFlight(s) == [];
    assert |Segment(s.target, s.tip.number + 1, s.target.number + 1)| == 0;
  }

  /** The steps of the queue and the worker. */
  predicate IsWork(e: Event) {
    e in {Enqueue, HandOver, Pop, AcceptTrie, WriteIndices, CacheHeader, MoveTip, Finish}
  }

  /** While blocks are pending, as for a blocked hand-over or a waiting drain, the queue or the worker can take a step. */
  lemma PendingNeverStuck(c: Config, s: Node)
    requires c.commitInterval > 0 && NodeInv(c, s) && s.pending > 0
    ensures exists e :: IsWork(e) && Enabled(c, s, e)
  {
    var e := match s.worker
      case Idle => if s.queue == [] then HandOver else Pop
      case Popped(_) => AcceptTrie
      case TrieAccepted(_) => WriteIndices
      case IndicesWritten(_) => CacheHeader
      case HeaderCached(_) => MoveTip
      case TipMoved(_) => Finish;
    assert IsWork(e) && Enabled(c, s, e);
  }

  /** How many steps of the queue and the worker the pending blocks still take at most. */
  function WorkLeft(s: Node): nat {
    (if s.sending.Some? then 7 else 0) + 6 * |s.queue|
    + match s.worker
      case Idle => 0
      case Popped(_) => 5
      case TrieAccepted(_) => 4
      case IndicesWritten(_) => 3
      case HeaderCached(_) => 2
      case TipMoved(_) => 1
  }

  /** Each such step brings the end closer, so hand-over, drain and shutdown end after boundedly many. */
  lemma WorkEnds(c: Config, s: Node, e: Event)
    requires c.commitInterval > 0 && NodeInv(c, s) && IsWork(e) && Enabled(c, s, e)
    ensures WorkLeft(Next(c, s, e)) < WorkLeft(s)
    ensures WorkLeft(s) <= 6 * c.queueLimit + 12
  {
    hide Inv, DiskOk, CacheOk;
  }

  /** Header lookup by number through the canonical index. */
  function PlainHeader(chain: Chain, n: nat): Option<Block> {
    if n in chain.canonical && chain.canonical[n].Digest? && chain.canonical[n].block in chain.blocks
    then Some(chain.canonical[n].block) else None
  }

  /** The same lookup with the accepted-header cache in front. */
  function CachedHeader(c: Config, s: Node, n: nat): Option<Block> {
    var m := FifoMap(s.puts, c.cacheLimit);
    if n in m then Some(m[n]) else PlainHeader(s.chain, n)
  }

  lemma {:induction false} CachedBlock(puts: seq<(nat, Block)>, limit: nat, n: nat)
    requires n in FifoMap(puts, limit)
    ensures exists j :: 0 <= j < |puts| && puts[j] == (n, FifoMap(puts, limit)[n])
    decreases |puts|
  {
    var last := |puts| - 1;
    if puts[last].0 != n {
      CachedBlock(puts[..last], limit, n);
    }
  }

  /** In every reachable state the cache answers exactly as the canonical index does. */
  lemma CacheRefinesIndex(c: Config, s: Node, es: seq<Event>, n: nat)
    requires c.commitInterval > 0 && NodeInv(c, s) && EnabledRun(c, s, es)
    ensures var t := RunNode(c, s, es); CachedHeader(c, t, n) == PlainHeader(t.chain, n)
  {
    var t := RunNode(c, s, es);
    RunKeepsNode(c, s, es);
    if n in FifoMap(t.puts, c.cacheLimit) {
      CachedBlock(t.puts, c.cacheLimit, n);
      var b := FifoMap(t.puts, c.cacheLimit)[n];
      AncestorTransitive(b, t.chain.lastAccepted, t.chain.head);
      assert t.chain.canonical[n] == Digest(b);
    }
  }
}
