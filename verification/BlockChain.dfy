/** The chain manager itself: `reorg`, head writes, preference, acceptance and rejection, as they update
    the database and the head markers in place. `journal` is the sequence of database states a crash
    can leave behind, one per batch written. */
module BlockChain {
  import opened Blocks
  import opened ChainSpec

  const MAX_BATCH: nat := 10000
  const LOG_BATCH: nat := 512

  /** What survives a crash. */
  datatype Disk = Disk(canonical: map<nat, Hash>, head: Block)

  datatype Outcome = Done | HeadMissing | InvalidOldChain | InvalidNewChain | OrphansAccepted | WrongParent | NotVerified

  datatype Search =
    | Found(common: Block, oldChain: seq<Block>, newChain: seq<Block>)
    | Failed(why: Outcome)

  /** The chain of `b` above height `n`, highest first. */
  function Down(b: Block, n: nat): seq<Block>
    requires n <= b.number
  {
    seq(b.number - n, i requires 0 <= i < b.number - n => Anc(b, b.number - i))
  }

  /** `c` with heights `f + 1 .. top` rewritten to the chain of `b`. */
  function Overlay(c: map<nat, Hash>, b: Block, f: nat, top: int): map<nat, Hash>
    decreases top - f
  {
    if top <= f then c else Overlay(c, b, f, top - 1)[top := Digest(Anc(b, top))]
  }

  lemma {:induction false} OverlayAt(c: map<nat, Hash>, b: Block, f: nat, top: int, n: nat)
    ensures n in Overlay(c, b, f, top) <==> n in c || f < n <= top
    ensures n in Overlay(c, b, f, top) ==> Overlay(c, b, f, top)[n] == if f < n <= top then Digest(Anc(b, n)) else c[n]
    decreases top - f
  {
    if f < top {
      OverlayAt(c, b, f, top - 1, n);
    }
  }

  /** `c` without the `m` heights from `from` on. */
  function Cut(c: map<nat, Hash>, from: nat, m: nat): map<nat, Hash> {
    map n | n in c && !(from <= n < from + m) :: c[n]
  }

  /** How many consecutive heights are indexed from `from` on. */
  function RunLength(c: map<nat, Hash>, from: nat): (r: nat)
    ensures forall n :: from <= n < from + r ==> n in c
    ensures from + r !in c
    decreases |HeightsFrom(c, from)|
  {
    if from !in c then 0
    else
      assert HeightsFrom(c, from + 1) == HeightsFrom(c, from) - {from} && from in HeightsFrom(c, from);
      1 + RunLength(c, from + 1)
  }

  ghost function HeightsFrom(c: map<nat, Hash>, from: nat): set<nat> {
    set n | n in c && from <= n
  }

  ghost function FullFlushes(c: map<nat, Hash>, from: nat, count: nat, h: Block): seq<Disk> {
    seq(count, i requires 0 <= i => Disk(Cut(c, from, MAX_BATCH * (i + 1)), h))
  }

  lemma FullFlushesSnoc(c: map<nat, Hash>, from: nat, count: nat, h: Block)
    ensures FullFlushes(c, from, count + 1, h)
         == FullFlushes(c, from, count, h) + [Disk(Cut(c, from, MAX_BATCH * (count + 1)), h)]
  {
  }

  lemma FlushCount(total: nat, flushed: nat, rest: nat)
    requires total == MAX_BATCH * flushed + rest && rest < MAX_BATCH
    ensures total / MAX_BATCH == flushed && total % MAX_BATCH == rest
  {
  }

  /** The database states after each batch of deletions, with the head marker at `h`. */
  ghost function Flushes(c: map<nat, Hash>, from: nat, h: Block): seq<Disk> {
    var total := RunLength(c, from);
    FullFlushes(c, from, total / MAX_BATCH, h)
    + if total % MAX_BATCH > 0 then [Disk(Cut(c, from, total), h)] else []
  }

  /** The database states after each intermediate head write of a reorg to `b` from the fork height `f`. */
  ghost function HeadWrites(c: map<nat, Hash>, b: Block, f: nat): seq<Disk> {
    HeadWritesUpTo(c, b, f, if f + 1 < b.number then b.number - f - 1 else 0)
  }

  ghost function HeadWritesUpTo(c: map<nat, Hash>, b: Block, f: nat, count: nat): seq<Disk> {
    if count == 0 then []
    else HeadWritesUpTo(c, b, f, count - 1) + [Disk(Overlay(c, b, f, f + count), Anc(b, f + count))]
  }

  /** No batch is empty, and all but the last carry more than 512 logs. */
  predicate WellBatched(batches: seq<seq<Log>>) {
    forall i :: 0 <= i < |batches| ==> batches[i] != [] && (i < |batches| - 1 ==> |batches[i]| > 512)
  }

  /** The events sent between two states of a feed carry exactly `logs`, in full batches. */
  predicate Announced(before: seq<seq<Log>>, after: seq<seq<Log>>, logs: seq<Log>) {
    && |before| <= |after| && after[..|before|] == before
    && WellBatched(after[|before|..]) && Concat(after[|before|..]) == logs
  }

  lemma AnnouncedAtOnce(feed: seq<seq<Log>>, logs: seq<Log>)
    ensures Announced(feed, feed, [])
    ensures Announced(feed, if logs == [] then feed else feed + [logs], logs)
  {
    assert feed[|feed|..] == [] && (feed + [logs])[|feed|..] == [logs];
    assert [logs][..0] == [] && Concat([logs]) == Concat([]) + logs;
  }

  /** The logs of `chain[i..]`, last block first. */
  function LogsFrom(chain: seq<Block>, i: nat): seq<Log>
    requires i <= |chain|
    decreases |chain| - i
  {
    if i == |chain| then [] else LogsFrom(chain, i + 1) + chain[i].logs
  }

  lemma DownLogs(b: Block, f: nat, i: nat)
    requires f <= b.number && i <= b.number - f
    ensures LogsFrom(Down(b, f), i) == LogsOf(Segment(b, f + 1, b.number + 1 - i))
    decreases b.number - f - i
  {
    if i < b.number - f {
      DownLogs(b, f, i + 1);
      var s := Segment(b, f + 1, b.number + 1 - i);
      assert s[..|s| - 1] == Segment(b, f + 1, b.number - i);
    }
  }

  /** Every database state that a successful reorg from `oldHead` to `b` passes through. */
  ghost function ReorgJournal(c: map<nat, Hash>, oldHead: Block, b: Block, f: nat): seq<Disk> {
    var written := Overlay(c, b, f, b.number - 1);
    var h := if f + 1 < b.number then Anc(b, b.number - 1) else oldHead;
    HeadWrites(c, b, f) + Flushes(written, b.number + 1, h)
  }

  /** The index after a successful reorg and the write of the new head. */
  function Reindexed(c: map<nat, Hash>, b: Block, f: nat): map<nat, Hash> {
    Cut(Overlay(c, b, f, b.number - 1), b.number + 1, RunLength(c, b.number + 1))[b.number := Digest(b)]
  }

  lemma RunLengthAgrees(c: map<nat, Hash>, d: map<nat, Hash>, from: nat)
    requires forall n :: from <= n ==> (n in c <==> n in d)
    ensures RunLength(c, from) == RunLength(d, from)
  {
    var r, q := RunLength(c, from), RunLength(d, from);
    assert from + r !in d && from + q !in c;
  }

  lemma OverlayRunLength(c: map<nat, Hash>, b: Block, f: nat)
    ensures RunLength(Overlay(c, b, f, b.number - 1), b.number + 1) == RunLength(c, b.number + 1)
  {
    forall n | b.number + 1 <= n
      ensures n in c <==> n in Overlay(c, b, f, b.number - 1)
    {
      OverlayAt(c, b, f, b.number - 1, n);
    }
    RunLengthAgrees(c, Overlay(c, b, f, b.number - 1), b.number + 1);
  }

  /** On a sound index the reorg condition says: `b` keeps the accepted chain and its own chain is stored. */
  lemma ReorgCondition(s: Chain, b: Block)
    requires Inv(s) && b in s.blocks
    ensures PathStored(s.blocks, s.head, Fork(s.head, b))
    ensures PathStored(s.blocks, b, Fork(s.head, b)) && s.lastAccepted.number <= Fork(s.head, b) <==> CanPrefer(s, b)
  {
    var f := Fork(s.head, b);
    ForkAbove(s.genesis, s.head, b, s.lastAccepted);
    forall n | s.lastAccepted.number <= n <= f && n <= b.number
      ensures Anc(b, n) in s.blocks
    {
      ForkSplits(s.genesis, s.head, b, n);
    }
  }

  /** How far an index that covers exactly the heights up to `h` runs from `from` on. */
  lemma RunLengthOfPrefix(c: map<nat, Hash>, h: nat, from: nat)
    requires forall n: nat :: n in c <==> n <= h
    ensures RunLength(c, from) == if from <= h then h + 1 - from else 0
  {
    var r := RunLength(c, from);
    assert from + r !in c;
    assert h + 1 !in c;
  }

  /** On a sound index a reorg to `b` leaves exactly the index of `b`. */
  lemma ReorgReindexes(s: Chain, b: Block)
    requires Inv(s) && b in s.blocks
    ensures Reindexed(s.canonical, b, Fork(s.head, b)) == Index(b)
  {
    var f, c := Fork(s.head, b), s.canonical;
    forall n: nat
      ensures n in Reindexed(c, b, f) <==> n <= b.number
      ensures n <= b.number ==> Reindexed(c, b, f)[n] == Digest(Anc(b, n))
    {
      ReorgEntry(s, b, n);
    }
  }

  lemma ReorgEntry(s: Chain, b: Block, n: nat)
    requires Inv(s) && b in s.blocks
    ensures n in Reindexed(s.canonical, b, Fork(s.head, b)) <==> n <= b.number
    ensures n <= b.number ==> Reindexed(s.canonical, b, Fork(s.head, b))[n] == Digest(Anc(b, n))
  {
    hide RunLength, Overlay, Fork, PathStored, Linked;
    var f, c := Fork(s.head, b), s.canonical;
    RunLengthOfPrefix(c, s.head.number, b.number + 1);
    OverlayAt(c, b, f, b.number - 1, n);
    ForkSplits(s.genesis, s.head, b, n);
  }

  /** The index that a restart on `d` with last accepted block `la` ends with. */
  function RestartIndex(d: Disk, la: Block): map<nat, Hash> {
    if d.head == la then d.canonical else Reindexed(d.canonical, la, la.number)
  }

  /** The accepted part of a database state that a crash left behind. */
  ghost predicate AcceptedPartOk(g: Block, blocks: set<Block>, d: Disk, la: Block) {
    && Rooted(g, d.head) && PathStored(blocks, d.head, 0) && IsAncestor(la, d.head)
    && forall n: nat :: n <= la.number ==> n in d.canonical && d.canonical[n] == Digest(Anc(la, n))
  }

  lemma RestartHeals(g: Block, blocks: set<Block>, d: Disk, la: Block, top: nat)
    requires AcceptedPartOk(g, blocks, d, la) && la.number <= top && (d.head == la ==> top == la.number)
    requires forall n: nat :: n in d.canonical <==> n <= top
    ensures RestartIndex(d, la) == Index(la)
  {
    if d.head != la {
      var r := RunLength(d.canonical, la.number + 1);
      assert la.number + 1 + r !in d.canonical;
      forall n: nat
        ensures n in RestartIndex(d, la) <==> n in Index(la)
        ensures n in Index(la) ==> RestartIndex(d, la)[n] == Index(la)[n]
      {
        OverlayAt(d.canonical, la, la.number, la.number - 1, n);
      }
    }
  }

  lemma RestartKeepsStale(d: Disk, la: Block, gap: nat, stale: nat)
    requires d.head != la && la.number < gap < stale && gap !in d.canonical && stale in d.canonical
    ensures stale in RestartIndex(d, la) && stale !in Index(la)
  {
    var r := RunLength(d.canonical, la.number + 1);
    assert !(la.number + 1 <= gap < la.number + 1 + r);
    OverlayAt(d.canonical, la, la.number, la.number - 1, stale);
  }

  /** Every block between the last accepted block and a preferable block is itself a sound head. */
  lemma SoundHead(s: Chain, b: Block, n: nat)
    requires Inv(s) && b in s.blocks && CanPrefer(s, b) && s.lastAccepted.number <= n <= b.number
    ensures Rooted(s.genesis, Anc(b, n)) && PathStored(s.blocks, Anc(b, n), 0) && IsAncestor(s.lastAccepted, Anc(b, n))
  {
    PreferredKeepsInv(s, b);
    RootedAnc(s.genesis, b, n);
    AncCompose(b, n, s.lastAccepted.number);
    forall m | 0 <= m <= n
      ensures Anc(Anc(b, n), m) in s.blocks
    {
      AncCompose(b, n, m);
    }
  }

  lemma AcceptedEntry(s: Chain, n: nat)
    requires Inv(s) && n <= s.lastAccepted.number
    ensures n in s.canonical && s.canonical[n] == Digest(Anc(s.lastAccepted, n))
  {
    AncCompose(s.head, s.lastAccepted.number, n);
  }

  lemma HeadWriteHeals(s: Chain, b: Block, f: nat, k: nat)
    requires Inv(s) && b in s.blocks && CanPrefer(s, b) && f == Fork(s.head, b) && 0 < k && f + k < b.number
    ensures RestartIndex(Disk(Overlay(s.canonical, b, f, f + k), Anc(b, f + k)), s.lastAccepted) == Index(s.lastAccepted)
  {
    var la := s.lastAccepted;
    var d := Disk(Overlay(s.canonical, b, f, f + k), Anc(b, f + k));
    ReorgCondition(s, b);
    ForkSplits(s.genesis, s.head, b, f);
    SoundHead(s, b, f + k);
    var top := if s.head.number >= f + k then s.head.number else f + k;
    forall n: nat
      ensures n in d.canonical <==> n <= top
      ensures n <= la.number ==> d.canonical[n] == Digest(Anc(la, n))
    {
      OverlayAt(s.canonical, b, f, f + k, n);
      if n <= la.number { AcceptedEntry(s, n); }
    }
    RestartHeals(s.genesis, s.blocks, d, la, top);
  }

  ghost function DeletingHead(s: Chain, b: Block, f: nat): Block {
    if f + 1 < b.number then Anc(b, b.number - 1) else s.head
  }

  lemma FlushedEntry(s: Chain, b: Block, f: nat, m: nat, n: nat)
    requires Inv(s) && CanPrefer(s, b) && f == Fork(s.head, b) && 0 < m <= s.head.number - b.number
    requires s.lastAccepted.number <= f <= b.number
    ensures var c := Cut(Overlay(s.canonical, b, f, b.number - 1), b.number + 1, m);
            && (n in c <==> n <= s.head.number && !(b.number + 1 <= n < b.number + 1 + m))
            && (n <= s.lastAccepted.number ==> c[n] == Digest(Anc(s.lastAccepted, n)))
  {
    OverlayAt(s.canonical, b, f, b.number - 1, n);
    if n <= s.lastAccepted.number { AcceptedEntry(s, n); }
  }

  lemma FlushHealsIff(s: Chain, b: Block, f: nat, m: nat)
    requires Inv(s) && b in s.blocks && CanPrefer(s, b) && f == Fork(s.head, b) && 0 < m <= s.head.number - b.number
    ensures var d := Disk(Cut(Overlay(s.canonical, b, f, b.number - 1), b.number + 1, m), DeletingHead(s, b, f));
            RestartIndex(d, s.lastAccepted) == Index(s.lastAccepted) <==> m == s.head.number - b.number
  {
    var la := s.lastAccepted;
    var h := DeletingHead(s, b, f);
    var d := Disk(Cut(Overlay(s.canonical, b, f, b.number - 1), b.number + 1, m), h);
    ReorgCondition(s, b);
    ForkSplits(s.genesis, s.head, b, f);
    assert h.number > la.number;
    forall n: nat
      ensures n in d.canonical <==> n <= s.head.number && !(b.number + 1 <= n < b.number + 1 + m)
      ensures n <= la.number ==> d.canonical[n] == Digest(Anc(la, n))
    {
      FlushedEntry(s, b, f, m, n);
    }
    if f + 1 < b.number { SoundHead(s, b, b.number - 1); }
    if m == s.head.number - b.number {
      RestartHeals(s.genesis, s.blocks, d, la, b.number);
    } else {
      RestartKeepsStale(d, la, b.number + 1, s.head.number);
    }
  }

  lemma FlushesInOneBatch(c: map<nat, Hash>, from: nat, h: Block, d: Disk)
    requires d in Flushes(c, from, h) && RunLength(c, from) <= MAX_BATCH
    ensures 0 < RunLength(c, from) && d == Disk(Cut(c, from, RunLength(c, from)), h)
  {
  }

  lemma FirstFlush(c: map<nat, Hash>, from: nat, h: Block)
    requires RunLength(c, from) > MAX_BATCH
    ensures Disk(Cut(c, from, MAX_BATCH), h) in Flushes(c, from, h)
  {
    assert Flushes(c, from, h)[0] == Disk(Cut(c, from, MAX_BATCH), h);
  }

  lemma DeletedCount(s: Chain, b: Block, f: nat)
    requires Inv(s)
    ensures RunLength(Overlay(s.canonical, b, f, b.number - 1), b.number + 1)
         == if s.head.number > b.number then s.head.number - b.number else 0
  {
    OverlayRunLength(s.canonical, b, f);
    RunLengthOfPrefix(s.canonical, s.head.number, b.number + 1);
  }

  lemma JournalEntryHeals(s: Chain, b: Block, f: nat, d: Disk)
    requires Inv(s) && b in s.blocks && CanPrefer(s, b) && f == Fork(s.head, b)
    requires d in ReorgJournal(s.canonical, s.head, b, f) && s.head.number <= b.number + MAX_BATCH
    ensures RestartIndex(d, s.lastAccepted) == Index(s.lastAccepted)
  {
    hide Inv, CanPrefer, Overlay, RunLength, Cut, RestartIndex, Index, Fork, Anc;
    var h := DeletingHead(s, b, f);
    var written := Overlay(s.canonical, b, f, b.number - 1);
    if d in Flushes(written, b.number + 1, h) {
      DeletedCount(s, b, f);
      FlushesInOneBatch(written, b.number + 1, h, d);
      FlushHealsIff(s, b, f, RunLength(written, b.number + 1));
    } else {
      var k := HeadWriteIndex(s.canonical, b, f, if f + 1 < b.number then b.number - f - 1 else 0, d);
      HeadWriteHeals(s, b, f, k);
    }
  }

  /** A crash at any point of a reorg is repaired by a restart exactly when the deletions fit in one batch. */
  lemma CrashInReorgHealsIff(s: Chain, b: Block)
    requires Inv(s) && b in s.blocks && CanPrefer(s, b)
    ensures (forall d :: d in ReorgJournal(s.canonical, s.head, b, Fork(s.head, b))
               ==> RestartIndex(d, s.lastAccepted) == Index(s.lastAccepted))
            <==> s.head.number <= b.number + 10000
  {
    hide Inv, CanPrefer, Overlay, RunLength, Cut, RestartIndex, Index, Fork, Anc;
    var f := Fork(s.head, b);
    if s.head.number > b.number + MAX_BATCH {
      DeletedCount(s, b, f);
      FirstFlush(Overlay(s.canonical, b, f, b.number - 1), b.number + 1, DeletingHead(s, b, f));
      FlushHealsIff(s, b, f, MAX_BATCH);
    } else {
      forall d | d in ReorgJournal(s.canonical, s.head, b, f)
        ensures RestartIndex(d, s.lastAccepted) == Index(s.lastAccepted)
      {
        JournalEntryHeals(s, b, f, d);
      }
    }
  }

  lemma HeadWriteIndex(c: map<nat, Hash>, b: Block, f: nat, count: nat, d: Disk) returns (k: nat)
    requires d in HeadWritesUpTo(c, b, f, count)
    ensures 0 < k <= count && d == Disk(Overlay(c, b, f, f + k), Anc(b, f + k))
  {
    if d == Disk(Overlay(c, b, f, f + count), Anc(b, f + count)) {
      k := count;
    } else {
      k := HeadWriteIndex(c, b, f, count - 1, d);
    }
  }

  lemma FlushLength(c: map<nat, Hash>, from: nat, h: Block, d: Disk) returns (m: nat)
    requires d in Flushes(c, from, h)
    ensures 0 < m <= RunLength(c, from) && d == Disk(Cut(c, from, m), h)
  {
    hide RunLength, Cut;
    var total := RunLength(c, from);
    if d in FullFlushes(c, from, total / MAX_BATCH, h) {
      var i :| 0 <= i < total / MAX_BATCH && FullFlushes(c, from, total / MAX_BATCH, h)[i] == d;
      m := MAX_BATCH * (i + 1);
    } else {
      m := total;
    }
  }

  /** Startup can begin on every state that a crash inside a reorg leaves: `LoadLastState` applies to it. */
  lemma CrashInReorgIsStartable(s: Chain, b: Block, d: Disk)
    requires Inv(s) && b in s.blocks && CanPrefer(s, b)
    requires d in ReorgJournal(s.canonical, s.head, b, Fork(s.head, b))
    ensures AcceptedPartOk(s.genesis, s.blocks, d, s.lastAccepted)
  {
    hide Inv, CanPrefer, Overlay, RunLength, Cut, Fork, Anc, AcceptedPartOk, Flushes;
    var f := Fork(s.head, b);
    var h := DeletingHead(s, b, f);
    var written := Overlay(s.canonical, b, f, b.number - 1);
    if d in Flushes(written, b.number + 1, h) {
      var m := FlushLength(written, b.number + 1, h, d);
      DeletedCount(s, b, f);
      FlushIsStartable(s, b, f, m);
    } else {
      var k := HeadWriteIndex(s.canonical, b, f, if f + 1 < b.number then b.number - f - 1 else 0, d);
      HeadWriteIsStartable(s, b, f, k);
    }
  }

  lemma FlushIsStartable(s: Chain, b: Block, f: nat, m: nat)
    requires Inv(s) && b in s.blocks && CanPrefer(s, b) && f == Fork(s.head, b) && 0 < m <= s.head.number - b.number
    ensures AcceptedPartOk(s.genesis, s.blocks,
                           Disk(Cut(Overlay(s.canonical, b, f, b.number - 1), b.number + 1, m), DeletingHead(s, b, f)),
                           s.lastAccepted)
  {
    ReorgCondition(s, b);
    ForkSplits(s.genesis, s.head, b, f);
    if f + 1 < b.number { SoundHead(s, b, b.number - 1); }
    var d := Disk(Cut(Overlay(s.canonical, b, f, b.number - 1), b.number + 1, m), DeletingHead(s, b, f));
    forall n: nat | n <= s.lastAccepted.number
      ensures n in d.canonical && d.canonical[n] == Digest(Anc(s.lastAccepted, n))
    {
      FlushedEntry(s, b, f, m, n);
    }
  }

  lemma HeadWriteIsStartable(s: Chain, b: Block, f: nat, k: nat)
    requires Inv(s) && b in s.blocks && CanPrefer(s, b) && f == Fork(s.head, b) && 0 < k && f + k < b.number
    ensures AcceptedPartOk(s.genesis, s.blocks, Disk(Overlay(s.canonical, b, f, f + k), Anc(b, f + k)), s.lastAccepted)
  {
    ReorgCondition(s, b);
    SoundHead(s, b, f + k);
    var d := Disk(Overlay(s.canonical, b, f, f + k), Anc(b, f + k));
    forall n: nat | n <= s.lastAccepted.number
      ensures n in d.canonical && d.canonical[n] == Digest(Anc(s.lastAccepted, n))
    {
      OverlayAt(s.canonical, b, f, f + k, n);
      AcceptedEntry(s, n);
    }
  }

  /** The `n`-th block of a chain of empty blocks over `g`, and the insertions that build it. */
  function Tower(g: Block, n: nat): Block {
    if n == 0 then g else Block(n, Digest(Tower(g, n - 1)), 0, [], 0)
  }

  function Climb(g: Block, from: nat, n: nat): seq<Op>
    decreases n - from
  {
    if from >= n then [] else [Insert(Tower(g, from + 1), true)] + Climb(g, from + 1, n)
  }

  lemma {:induction false} ClimbIsLegal(g: Block, s: Chain, from: nat, n: nat)
    requires Inv(s) && s.genesis == g && g in s.blocks && s.lastAccepted == g && s.head == Tower(g, from)
    requires from <= n && Tower(g, from).number == from
    ensures LegalRun(s, Climb(g, from, n))
    ensures var t := Run(s, Climb(g, from, n));
            Inv(t) && t.genesis == g && g in t.blocks && t.lastAccepted == g && t.head == Tower(g, n) && t.head.number == n
    decreases n - from
  {
    if from < n {
      var b := Tower(g, from + 1);
      assert Anc(s.head, s.head.number) == s.head;
      assert ParentStored(s, b);
      StepKeepsInv(s, Insert(b, true));
      hide Inv;
      ClimbIsLegal(g, Step(s, Insert(b, true)), from + 1, n);
      assert Climb(g, from, n)[1..] == Climb(g, from + 1, n);
    }
  }

  /** The failing case can be reached: with 10001 blocks inserted over genesis, preferring genesis again passes through
      a state on which startup can begin but that it does not repair. */
  lemma TallTowerIsNotRepaired(g: Block)
    requires g.number == 0
    ensures var ops := Climb(g, 0, MAX_BATCH + 1);
            && LegalRun(Genesis(g), ops)
            && var s := Run(Genesis(g), ops);
               && Legal(s, Prefer(g)) && CanPrefer(s, g)
               && exists d :: && d in ReorgJournal(s.canonical, s.head, g, Fork(s.head, g))
                              && AcceptedPartOk(s.genesis, s.blocks, d, s.lastAccepted)
                              && RestartIndex(d, s.lastAccepted) != Index(s.lastAccepted)
  {
    GenesisIsSound(g);
    ClimbIsLegal(g, Genesis(g), 0, MAX_BATCH + 1);
    var s := Run(Genesis(g), Climb(g, 0, MAX_BATCH + 1));
    assert CanPrefer(s, g) by {
      assert Anc(g, 0) == g;
    }
    hide Inv, CanPrefer, ReorgJournal, RestartIndex, Index, Fork, Anc, AcceptedPartOk, Climb, LegalRun, Run, Tower, Step;
    CrashInReorgHealsIff(s, g);
    var d :| d in ReorgJournal(s.canonical, s.head, g, Fork(s.head, g))
             && RestartIndex(d, s.lastAccepted) != Index(s.lastAccepted);
    CrashInReorgIsStartable(s, g, d);
  }

  lemma HeadIsPreferable(s: Chain)
    requires Inv(s)
    ensures CanPrefer(s, s.head)
  {
  }

  lemma HeadChildIsPreferable(s: Chain, b: Block)
    requires Inv(s) && b in s.blocks && b.parent == Digest(s.head)
    ensures CanPrefer(s, b) && s.canonical[b.number := Digest(b)] == Index(b)
  {
    AncContains(s.head, 0);
    assert Inserted(s, b) == s.(head := b, canonical := s.canonical[b.number := Digest(b)]) by {
      assert s.blocks + {b} == s.blocks;
    }
    assert Anc(s.head, s.head.number) == s.head;
    InsertedKeepsInv(s, b);
  }

  /** A sound head stays sound when it is moved back to one of its ancestors. */
  lemma SoundAncestor(g: Block, blocks: set<Block>, head: Block, la: Block)
    requires Rooted(g, head) && PathStored(blocks, head, 0) && IsAncestor(la, head)
    ensures Rooted(g, la) && PathStored(blocks, la, 0) && Fork(head, la) == la.number
    ensures la.parent != Digest(head) && Anc(la, la.number) == la
  {
    RootedAnc(g, head, la.number);
    ForkSplits(g, head, la, la.number);
    forall n | 0 <= n <= la.number
      ensures Anc(la, n) in blocks
    {
      AncCompose(head, la.number, n);
    }
    AncContains(head, la.number);
  }

  /** A walk down from `head` that has reached `b` and collected the blocks above it. */
  ghost predicate Walk(blocks: set<Block>, head: Block, b: Block, chain: seq<Block>) {
    && IsAncestor(b, head)
    && PathStored(blocks, head, b.number)
    && chain == Down(head, b.number)
  }

  lemma WalkStep(g: Block, blocks: set<Block>, head: Block, b: Block, chain: seq<Block>, f: nat)
    requires Rooted(g, head) && Walk(blocks, head, b, chain) && f < b.number
    ensures b.parent.Digest? && b.parent.block.number + 1 == b.number && Rooted(g, b.parent.block)
    ensures b.parent.block in blocks ==> Walk(blocks, head, b.parent.block, chain + [b])
    ensures b.parent.block !in blocks ==> !PathStored(blocks, head, f)
  {
    AncParent(head, b.number);
    RootedAnc(g, head, b.number - 1);
    assert Down(head, b.number - 1) == Down(head, b.number) + [b];
  }

  lemma WalkDown(g: Block, blocks: set<Block>, head: Block, b: Block, chain: seq<Block>, other: Block)
    requires Rooted(g, head) && Rooted(g, other) && Walk(blocks, head, b, chain) && other.number < b.number
    ensures b.parent.Digest? && b.parent.block.number + 1 == b.number
    ensures Fork(b.parent.block, other) == Fork(b, other) && Fork(other, b.parent.block) == Fork(other, b)
    ensures b.parent.block in blocks ==> Walk(blocks, head, b.parent.block, chain + [b])
    ensures b.parent.block !in blocks ==> !PathStored(blocks, head, Fork(b, other)) && !PathStored(blocks, head, Fork(other, b))
  {
    RootedAnc(g, head, b.number);
    ForkSplits(g, b, other, 0);
    ForkSplits(g, other, b, 0);
    WalkStep(g, blocks, head, b, chain, Fork(b, other));
    WalkStep(g, blocks, head, b, chain, Fork(other, b));
  }

  lemma WalkDownBoth(g: Block, blocks: set<Block>, oldHead: Block, newHead: Block, o: Block, w: Block,
                     oldChain: seq<Block>, newChain: seq<Block>)
    requires Rooted(g, oldHead) && Rooted(g, newHead) && o != w && o.number == w.number
    requires Walk(blocks, oldHead, o, oldChain) && Walk(blocks, newHead, w, newChain)
    ensures o.parent.Digest? && w.parent.Digest? && o.parent.block.number + 1 == o.number == w.parent.block.number + 1
    ensures Fork(o.parent.block, w.parent.block) == Fork(o, w)
    ensures o.parent.block in blocks ==> Walk(blocks, oldHead, o.parent.block, oldChain + [o])
    ensures w.parent.block in blocks ==> Walk(blocks, newHead, w.parent.block, newChain + [w])
    ensures o.parent.block !in blocks ==> !PathStored(blocks, oldHead, Fork(o, w))
    ensures w.parent.block !in blocks ==> !PathStored(blocks, newHead, Fork(o, w))
  {
    RootedAnc(g, oldHead, o.number);
    RootedAnc(g, newHead, w.number);
    ForkSplits(g, o, w, o.number);
    WalkStep(g, blocks, oldHead, o, oldChain, Fork(o, w));
    WalkStep(g, blocks, newHead, w, newChain, Fork(o, w));
  }

  class BlockChain {
    const genesis: Block
    var blocks: set<Block>
    var canonical: map<nat, Hash>
    var currentBlock: Block
    var lastAccepted: Block

    var chainSideFeed: seq<Block>
    var chainHeadFeed: seq<Block>
    var chainFeed: seq<Block>
    var rmLogsFeed: seq<seq<Log>>
    var logsFeed: seq<seq<Log>>
    ghost var journal: seq<Disk>

    /** An empty database is initialised with the genesis block. */
    constructor (g: Block)
      requires g.number == 0
      ensures State() == Genesis(g) && Inv(State())
    {
      genesis := g;
      blocks, canonical, currentBlock, lastAccepted := {g}, map[], g, g;
      chainSideFeed, chainHeadFeed, chainFeed, rmLogsFeed, logsFeed, journal := [], [], [], [], [], [];
      new;
      WriteHeadBlock(g);
      assert canonical == Index(g);
      GenesisIsSound(g);
    }

    ghost function State(): Chain
      reads this
    {
      Chain(genesis, blocks, canonical, currentBlock, lastAccepted)
    }

    function GetBlock(h: Hash, n: int): (r: Option<Block>)
      reads this`blocks
    {
      if h.Digest? && h.block in blocks && h.block.number == n then Some(h.block) else None
    }

    method WriteHeadBlock(b: Block)
      modifies this`canonical, this`currentBlock, this`journal
      ensures canonical == old(canonical)[b.number := Digest(b)] && currentBlock == b
      ensures journal == old(journal) + [Disk(canonical, b)]
    {
      canonical := canonical[b.number := Digest(b)];
      currentBlock := b;
      journal := journal + [Disk(canonical, b)];
    }

    /** Walks both chains down to their highest common ancestor, collecting what is dropped and added. */
    method FindFork(newHead: Block) returns (r: Search)
      requires StoreOk(State()) && newHead in blocks
      ensures var f := Fork(currentBlock, newHead);
              && (r.Found? <==> PathStored(blocks, currentBlock, f) && PathStored(blocks, newHead, f))
              && (r.Found? ==>
                    && f <= currentBlock.number && f <= newHead.number
                    && r.common == Anc(currentBlock, f) == Anc(newHead, f)
                    && r.oldChain == Down(currentBlock, f) && r.newChain == Down(newHead, f))
              && (r.Failed? ==>
                    || (r.why == HeadMissing && currentBlock !in blocks)
                    || (r.why == InvalidOldChain && !PathStored(blocks, currentBlock, f))
                    || (r.why == InvalidNewChain && !PathStored(blocks, newHead, f)))
    {
      ghost var f := Fork(currentBlock, newHead);
      var oldHead := currentBlock;
      var oldBlock := GetBlock(Digest(oldHead), oldHead.number);
      ForkSplits(genesis, oldHead, newHead, f);
      if oldBlock.None? {
        assert Anc(oldHead, oldHead.number) == oldHead;
        return Failed(HeadMissing);
      }
      var newBlock := Some(newHead);
      var oldChain: seq<Block> := [];
      var newChain: seq<Block> := [];
      if oldHead.number > newHead.number {
        while oldBlock.Some? && oldBlock.value.number != newHead.number
          invariant oldBlock.Some? ==>
            newHead.number <= oldBlock.value.number && Walk(blocks, oldHead, oldBlock.value, oldChain)
            && Fork(oldBlock.value, newHead) == f
          invariant oldBlock.None? ==> !PathStored(blocks, oldHead, f)
          decreases if oldBlock.Some? then oldBlock.value.number + 1 else 0
        {
          var b := oldBlock.value;
          WalkDown(genesis, blocks, oldHead, b, oldChain, newHead);
          oldChain := oldChain + [b];
          oldBlock := GetBlock(b.parent, b.number - 1);
        }
      } else {
        while newBlock.Some? && newBlock.value.number != oldHead.number
          invariant newBlock.Some? ==>
            oldHead.number <= newBlock.value.number && Walk(blocks, newHead, newBlock.value, newChain)
            && Fork(oldHead, newBlock.value) == f
          invariant newBlock.None? ==> !PathStored(blocks, newHead, f)
          decreases if newBlock.Some? then newBlock.value.number + 1 else 0
        {
          var b := newBlock.value;
          WalkDown(genesis, blocks, newHead, b, newChain, oldHead);
          newChain := newChain + [b];
          newBlock := GetBlock(b.parent, b.number - 1);
        }
      }
      if oldBlock.None? {
        return Failed(InvalidOldChain);
      }
      if newBlock.None? {
        return Failed(InvalidNewChain);
      }
      var o, w := oldBlock.value, newBlock.value;
      while o != w
        invariant o.number == w.number && Fork(o, w) == f
        invariant Walk(blocks, oldHead, o, oldChain) && Walk(blocks, newHead, w, newChain)
        decreases o.number
      {
        WalkDownBoth(genesis, blocks, oldHead, newHead, o, w, oldChain, newChain);
        oldChain := oldChain + [o];
        newChain := newChain + [w];
        var op := GetBlock(o.parent, o.number - 1);
        if op.None? {
          return Failed(InvalidOldChain);
        }
        var wp := GetBlock(w.parent, w.number - 1);
        if wp.None? {
          return Failed(InvalidNewChain);
        }
        o, w := op.value, wp.value;
      }
      return Found(o, oldChain, newChain);
    }

    /** Deletes the indexed heights from `from` up to the first gap, one batch at a time. */
    method TrimIndex(from: nat)
      modifies this`canonical, this`journal
      ensures canonical == Cut(old(canonical), from, RunLength(old(canonical), from))
      ensures journal == old(journal) + Flushes(old(canonical), from, currentBlock)
    {
      ghost var c := canonical;
      var batch, flushed := DeleteFullBatches(from);
      FlushCount(RunLength(c, from), flushed, |batch|);
      if |batch| > 0 {
        FlushBatch(c, from, RunLength(c, from), batch);
      }
    }

    /** The deletion loop: whole batches are written, the unwritten rest is returned. */
    method DeleteFullBatches(from: nat) returns (batch: seq<nat>, ghost flushed: nat)
      modifies this`canonical, this`journal
      ensures |batch| < MAX_BATCH && RunLength(old(canonical), from) == MAX_BATCH * flushed + |batch|
      ensures forall k :: 0 <= k < |batch| ==> batch[k] == from + MAX_BATCH * flushed + k
      ensures canonical == Cut(old(canonical), from, MAX_BATCH * flushed)
      ensures journal == old(journal) + FullFlushes(old(canonical), from, flushed, currentBlock)
    {
      ghost var c := canonical;
      flushed := 0;
      batch := [];
      var i: nat := from;
      assert Cut(c, from, 0) == c;
      while i in canonical
        invariant |batch| < MAX_BATCH && i == from + MAX_BATCH * flushed + |batch|
        invariant forall k :: 0 <= k < |batch| ==> batch[k] == from + MAX_BATCH * flushed + k
        invariant canonical == Cut(c, from, MAX_BATCH * flushed)
        invariant RunLength(c, from) == i - from + RunLength(c, i)
        invariant journal == old(journal) + FullFlushes(c, from, flushed, currentBlock)
        decreases RunLength(c, i)
      {
        batch := batch + [i];
        i := i + 1;
        if |batch| >= MAX_BATCH {
          FlushBatch(c, from, i - from, batch);
          FullFlushesSnoc(c, from, flushed, currentBlock);
          batch, flushed := [], flushed + 1;
        }
      }
    }

    /** Writes one batch of deletions, the `|batch|` heights below `from + m`. */
    method FlushBatch(ghost c: map<nat, Hash>, ghost from: nat, ghost m: nat, batch: seq<nat>)
      requires |batch| <= m && forall k :: 0 <= k < |batch| ==> batch[k] == from + m - |batch| + k
      requires canonical == Cut(c, from, m - |batch|)
      modifies this`canonical, this`journal
      ensures canonical == Cut(c, from, m)
      ensures journal == old(journal) + [Disk(Cut(c, from, m), currentBlock)]
    {
      forall n | from + m - |batch| <= n < from + m
        ensures n in batch
      {
        assert batch[n - (from + m - |batch|)] == n;
      }
      canonical := canonical - set n | n in batch;
      assert canonical == Cut(c, from, m);
      journal := journal + [Disk(canonical, currentBlock)];
    }

    /** Collects the logs of `chain[stop..]`, last block first, into batches of more than 512. */
    static method BatchLogs(chain: seq<Block>, stop: nat) returns (batches: seq<seq<Log>>)
      requires stop <= |chain|
      ensures Concat(batches) == LogsFrom(chain, stop) && WellBatched(batches)
    {
      batches := [];
      var pending: seq<Log> := [];
      var i := |chain|;
      while i > stop
        invariant stop <= i <= |chain|
        invariant Concat(batches) + pending == LogsFrom(chain, i)
        invariant |pending| <= LOG_BATCH && forall k :: 0 <= k < |batches| ==> |batches[k]| > LOG_BATCH
      {
        i := i - 1;
        pending := pending + chain[i].logs;
        if |pending| > LOG_BATCH {
          batches, pending := batches + [pending], [];
        }
      }
      if |pending| > 0 {
        batches := batches + [pending];
      }
    }

    /** Announces the dropped blocks and their logs, lowest first. */
    method SendRemoved(ghost oldHead: Block, ghost f: nat, oldChain: seq<Block>)
      requires Linked(oldHead) && f <= oldHead.number && oldChain == Down(oldHead, f)
      modifies this`chainSideFeed, this`rmLogsFeed
      ensures chainSideFeed == old(chainSideFeed) + Segment(oldHead, f + 1, oldHead.number + 1)
      ensures Announced(old(rmLogsFeed), rmLogsFeed, LogsOf(Segment(oldHead, f + 1, oldHead.number + 1)))
    {
      var i := |oldChain|;
      while i > 0
        invariant 0 <= i <= |oldChain|
        invariant chainSideFeed == old(chainSideFeed) + Segment(oldHead, f + 1, oldHead.number + 1 - i)
        modifies this`chainSideFeed
      {
        i := i - 1;
        SegmentSnoc(oldHead, f + 1, oldHead.number - i);
        chainSideFeed := chainSideFeed + [oldChain[i]];
      }
      var batches := BatchLogs(oldChain, 0);
      DownLogs(oldHead, f, 0);
      rmLogsFeed := rmLogsFeed + batches;
      assert rmLogsFeed[|old(rmLogsFeed)|..] == batches;
    }

    /** Announces the logs of the new blocks below the new head, lowest first. */
    method SendReborn(ghost newHead: Block, ghost f: nat, newChain: seq<Block>)
      requires Linked(newHead) && f <= newHead.number && newChain == Down(newHead, f)
      modifies this`logsFeed
      ensures Announced(old(logsFeed), logsFeed, LogsOf(Segment(newHead, f + 1, newHead.number)))
    {
      if |newChain| > 0 {
        var batches := BatchLogs(newChain, 1);
        DownLogs(newHead, f, 1);
        logsFeed := logsFeed + batches;
        assert logsFeed[|old(logsFeed)|..] == batches;
      } else {
        assert logsFeed[|logsFeed|..] == [];
      }
    }

    /** Writes the new chain below its head, lowest first. */
    method WriteNewChain(ghost newHead: Block, ghost f: nat, newChain: seq<Block>)
      requires Linked(newHead) && f <= newHead.number && newChain == Down(newHead, f)
      modifies this`canonical, this`currentBlock, this`journal
      ensures canonical == Overlay(old(canonical), newHead, f, newHead.number - 1)
      ensures currentBlock == if f + 1 < newHead.number then Anc(newHead, newHead.number - 1) else old(currentBlock)
      ensures journal == old(journal) + HeadWrites(old(canonical), newHead, f)
    {
      ghost var c, k := canonical, 0;
      var i := |newChain| - 1;
      while i >= 1
        invariant i == |newChain| - 1 - k && (i < 0 ==> k == 0)
        invariant canonical == Overlay(c, newHead, f, f + k)
        invariant currentBlock == if k == 0 then old(currentBlock) else Anc(newHead, f + k)
        invariant journal == old(journal) + HeadWritesUpTo(c, newHead, f, k)
      {
        var b := newChain[i];
        assert b == Anc(newHead, f + k + 1) && b.number == f + k + 1;
        WriteHeadBlock(b);
        i, k := i - 1, k + 1;
      }
    }

    /** The writing half of a reorg: nothing in it can fail. */
    method ApplyReorg(ghost oldHead: Block, newHead: Block, ghost f: nat, oldChain: seq<Block>, newChain: seq<Block>)
      requires oldHead == currentBlock && Linked(oldHead) && Linked(newHead) && f <= oldHead.number && f <= newHead.number
      requires oldChain == Down(oldHead, f) && newChain == Down(newHead, f)
      modifies this`canonical, this`currentBlock, this`journal, this`chainSideFeed, this`rmLogsFeed, this`logsFeed
      ensures canonical[newHead.number := Digest(newHead)] == Reindexed(old(canonical), newHead, f)
      ensures journal == old(journal) + ReorgJournal(old(canonical), oldHead, newHead, f)
      ensures chainSideFeed == old(chainSideFeed) + Segment(oldHead, f + 1, oldHead.number + 1)
      ensures Announced(old(rmLogsFeed), rmLogsFeed, LogsOf(Segment(oldHead, f + 1, oldHead.number + 1)))
      ensures Announced(old(logsFeed), logsFeed, LogsOf(Segment(newHead, f + 1, newHead.number)))
    {
      hide RunLength, Overlay, Cut, Flushes, HeadWrites, Segment, LogsOf, Announced, Down, Anc, Linked;
      OverlayRunLength(canonical, newHead, f);
      WriteNewChain(newHead, f, newChain);
      TrimIndex(newHead.number + 1);
      SendRemoved(oldHead, f, oldChain);
      SendReborn(newHead, f, newChain);
    }

    /** Moves the index from the current chain to that of `newHead`, up to but excluding `newHead` itself. */
    method Reorg(newHead: Block) returns (r: Outcome)
      requires StoreOk(State()) && newHead in blocks
      modifies this
      ensures blocks == old(blocks) && lastAccepted == old(lastAccepted) && chainHeadFeed == old(chainHeadFeed)
      ensures var oldHead, f := old(currentBlock), Fork(old(currentBlock), newHead);
              && (r == Done <==>
                    PathStored(blocks, oldHead, f) && PathStored(blocks, newHead, f) && lastAccepted.number <= f)
              && (r != Done ==> State() == old(State()) && journal == old(journal) && chainSideFeed == old(chainSideFeed)
                                && rmLogsFeed == old(rmLogsFeed) && logsFeed == old(logsFeed))
              && (r == Done ==>
                    && canonical[newHead.number := Digest(newHead)] == Reindexed(old(canonical), newHead, f)
                    && journal == old(journal) + ReorgJournal(old(canonical), oldHead, newHead, f)
                    && chainSideFeed == old(chainSideFeed) + Segment(oldHead, f + 1, oldHead.number + 1)
                    && Announced(old(rmLogsFeed), rmLogsFeed, LogsOf(Segment(oldHead, f + 1, oldHead.number + 1)))
                    && Announced(old(logsFeed), logsFeed, LogsOf(Segment(newHead, f + 1, newHead.number))))
              && (r == OrphansAccepted ==> f < lastAccepted.number)
              && (r == InvalidNewChain ==> !PathStored(blocks, newHead, f))
              && (r in {HeadMissing, InvalidOldChain} ==> !PathStored(blocks, oldHead, f))
              && r in {Done, HeadMissing, InvalidOldChain, InvalidNewChain, OrphansAccepted}
    {
      hide RunLength, Overlay, Cut, Reindexed, ReorgJournal, Segment, LogsOf, Announced, Down, Fork;
      ghost var oldHead, f := currentBlock, Fork(currentBlock, newHead);
      var search := FindFork(newHead);
      if search.Failed? {
        ForkSplits(genesis, oldHead, newHead, f);
        assert Anc(oldHead, oldHead.number) == oldHead;
        return search.why;
      }
      if search.common.number < lastAccepted.number {
        return OrphansAccepted;
      }
      ApplyReorg(oldHead, newHead, f, search.oldChain, search.newChain);
      return Done;
    }

    method WriteKnownBlock(b: Block) returns (r: Outcome)
      requires StoreOk(State()) && b in blocks
      modifies this
      ensures blocks == old(blocks) && lastAccepted == old(lastAccepted) && chainHeadFeed == old(chainHeadFeed)
      ensures var oldHead, f := old(currentBlock), Fork(old(currentBlock), b);
              if b.parent == Digest(oldHead) then
                && r == Done && currentBlock == b && canonical == old(canonical)[b.number := Digest(b)]
              else
                && (r == Done <==> PathStored(blocks, oldHead, f) && PathStored(blocks, b, f) && lastAccepted.number <= f)
                && (r != Done ==> State() == old(State()))
                && (r == Done ==>
                      && currentBlock == b && canonical == Reindexed(old(canonical), b, f)
                      && journal == old(journal) + ReorgJournal(old(canonical), oldHead, b, f) + [Disk(canonical, b)])
    {
      r := Done;
      if b.parent != Digest(currentBlock) {
        r := Reorg(b);
        if r != Done {
          return;
        }
      }
      WriteHeadBlock(b);
    }

    /** Makes an inserted block the head, or changes nothing; both outcomes are decided by `CanPrefer`. */
    method SetPreference(b: Block) returns (r: Outcome)
      requires Inv(State()) && b in blocks
      modifies this
      ensures Legal(old(State()), Prefer(b)) && State() == Step(old(State()), Prefer(b))
      ensures r == Done <==> CanPrefer(old(State()), b)
      ensures blocks == old(blocks) && lastAccepted == old(lastAccepted)
      ensures r == Done ==> currentBlock == b && canonical == Index(b)
      ensures r != Done ==> currentBlock == old(currentBlock) && canonical == old(canonical)
      ensures chainHeadFeed == if r == Done && old(currentBlock) != b then old(chainHeadFeed) + [b] else old(chainHeadFeed)
    {
      ghost var s := State();
      if currentBlock == b {
        HeadIsPreferable(s);
        return Done;
      }
      if b.parent == Digest(currentBlock) {
        HeadChildIsPreferable(s, b);
      } else {
        ReorgCondition(s, b);
        ReorgReindexes(s, b);
      }
      r := WriteKnownBlock(b);
      if r == Done {
        chainHeadFeed := chainHeadFeed + [b];
      }
    }

    /** Stores a block that passed verification and makes it the head if it extends the current head. */
    method InsertBlock(b: Block, verified: bool) returns (r: Outcome)
      requires Inv(State())
      modifies this
      ensures Legal(old(State()), Insert(b, verified))
      ensures State() == Step(old(State()), Insert(b, verified)) && Inv(State())
      ensures r == Done <==> verified && ParentStored(old(State()), b)
      ensures blocks == old(blocks) + (if r == Done then {b} else {}) && lastAccepted == old(lastAccepted)
      ensures currentBlock == if r == Done && b.parent == Digest(old(currentBlock)) then b else old(currentBlock)
      ensures chainHeadFeed == old(chainHeadFeed) + if r == Done && b.parent == Digest(old(currentBlock)) then [b] else []
      ensures chainSideFeed == old(chainSideFeed) + if r == Done && b.parent != Digest(old(currentBlock)) then [b] else []
      ensures var isTip := r == Done && b.parent == Digest(old(currentBlock));
              && chainFeed == old(chainFeed) + (if isTip then [b] else [])
              && Announced(old(logsFeed), logsFeed, if isTip then b.logs else [])
    {
      hide Inv, Anc, Linked, Announced;
      StepKeepsInv(State(), Insert(b, verified));
      AnnouncedAtOnce(logsFeed, b.logs);
      if b.number == 0 || GetBlock(b.parent, b.number - 1).None? {
        return WrongParent;
      }
      if !verified {
        return NotVerified;
      }
      blocks := blocks + {b};
      if b.parent == Digest(currentBlock) {
        WriteHeadBlock(b);
        chainFeed := chainFeed + [b];
        if |b.logs| > 0 {
          logsFeed := logsFeed + [b.logs];
        }
        chainHeadFeed := chainHeadFeed + [b];
      } else {
        chainSideFeed := chainSideFeed + [b];
      }
      return Done;
    }

    /** Fixes a child of the last accepted block for good, reorganising onto it if necessary. */
    method Accept(b: Block) returns (r: Outcome)
      requires Inv(State()) && b in blocks
      modifies this
      ensures Legal(old(State()), ChainSpec.Op.Accept(b))
      ensures State() == Step(old(State()), ChainSpec.Op.Accept(b)) && Inv(State())
      ensures r == Done <==> b.parent == Digest(old(lastAccepted))
      ensures r == Done ==> lastAccepted == b && Canonical(State(), b)
      ensures r != Done ==> State() == old(State())
      ensures blocks == old(blocks)
      ensures r == Done ==> currentBlock == if old(Canonical(State(), b)) then old(currentBlock) else b
    {
      ghost var s := State();
      StepKeepsInv(s, ChainSpec.Op.Accept(b));
      if Digest(lastAccepted) != b.parent {
        return WrongParent;
      }
      ChildCanBePreferred(s, b);
      CanonicalIsAncestor(Step(s, ChainSpec.Op.Accept(b)), b);
      if !(b.number in canonical && canonical[b.number] == Digest(b)) {
        r := SetPreference(b);
        if r != Done {
          return;
        }
      }
      lastAccepted := b;
      return Done;
    }

    /** Deletes the block, whether canonical or not; the index stays sound exactly for the blocks off the chain. */
    method Reject(b: Block)
      requires Inv(State())
      modifies this`blocks
      ensures Legal(old(State()), ChainSpec.Op.Reject(b)) <==> !old(Canonical(State(), b))
      ensures State() == Step(old(State()), ChainSpec.Op.Reject(b))
      ensures forall x :: x in blocks <==> x in old(blocks) && x != b
      ensures b in old(blocks) ==> (Inv(State()) <==> !old(Canonical(State(), b)))
      ensures b !in old(blocks) ==> Inv(State())
    {
      if b in blocks {
        RejectSafeIff(State(), b);
      }
      assert b !in blocks ==> blocks - {b} == blocks;
      blocks := blocks - {b};
    }

    /** Startup on the database state `d`: the head is moved back to the last accepted block. */
    method LoadLastState(d: Disk, la: Block) returns (r: Outcome)
      requires genesis.number == 0 && (forall b :: b in blocks ==> Rooted(genesis, b)) && la in blocks
      requires AcceptedPartOk(genesis, blocks, d, la)
      modifies this
      ensures r == Done && blocks == old(blocks)
      ensures currentBlock == lastAccepted == la && canonical == RestartIndex(d, la)
      ensures RestartIndex(d, la) == Index(la) ==> Inv(State())
    {
      canonical, currentBlock, lastAccepted := d.canonical, d.head, la;
      SoundAncestor(genesis, blocks, d.head, la);
      if currentBlock == la {
        return Done;
      }
      r := WriteKnownBlock(la);
    }
  }
}
