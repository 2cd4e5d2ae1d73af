/** The block builder: trying transactions, reverting the failing ones, and agreement with the validator. */
module Miner {
  import opened Blocks
  import opened World
  import opened StateTransition
  import opened Processor
  import opened Ordering
  import IG = IntrinsicGas

  const MAX_BLOB_GAS: nat := 6 * BLOB_GAS
  const TARGET_SIZE: nat := 1792 * 1024

  /** Predicate verification fails, or yields results, which may be empty. */
  datatype Checked = Unverified | Verified(own: Predicates)

  /** Predicate verification of a transaction, and whether a set of results still fits in a header. */
  datatype Checker = Checker(check: Tx -> Checked, fits: Results -> bool)

  /** Empty results are not recorded at all. */
  function SetTxResults(results: Results, hash: nat, own: Predicates): Results {
    if own.None? then results - {hash} else results[hash := own.value]
  }

  /** What is recorded for a transaction is what is looked up for it, and no other lookup changes. */
  lemma RecordedIsFound(results: Results, tx: Tx, own: Predicates, other: Tx)
    ensures Own(SetTxResults(results, tx.hash, own), tx) == own
    ensures other.hash != tx.hash ==> Own(SetTxResults(results, tx.hash, own), other) == Own(results, other)
  {
  }

  datatype Building = Building(
    world: World, pool: nat, used: nat, txs: seq<Tx>, receipts: seq<Receipt>, results: Results,
    tcount: nat, blobs: nat, size: nat, blobGasUsed: nat)

  /** A transaction taken from the pool, with the number of blobs in its sidecar. */
  datatype Try = Try(tx: Tx, sidecar: nat)

  datatype Failure = PredicateFailure | ResultsTooLarge | BlobsFull | TxError(why: Error)

  datatype Attempted = Attempted(next: Building, error: Option<Failure>)

  datatype ApplyResult = ApplyResult(next: Building, error: Option<Failure>, receipt: Option<Receipt>)

  /** Execution alone. A failure keeps the state and the pool; a failed marshalling also keeps the recorded results. */
  function ExecuteTx(env: Env, evm: Evm, checker: Checker, b: Building, tx: Tx): ApplyResult {
    if checker.check(tx).Unverified? then ApplyResult(b, Some(PredicateFailure), None)
    else
      var results := SetTxResults(b.results, tx.hash, checker.check(tx).own);
      if !checker.fits(results) then ApplyResult(b.(results := results), Some(ResultsTooLarge), None)
      else
        var r := Transition(env, evm, Own(results, tx), b.world, b.pool, tx);
        if r.outcome.Rejected? then
          ApplyResult(b.(results := results - {tx.hash}), Some(TxError(r.outcome.why)), None)
        else
          var used := b.used + r.outcome.used;
          ApplyResult(b.(results := results, world := evm.finalise(r.world), pool := r.pool, used := used),
                      None, Some(ReceiptOf(env, tx, r.outcome, used, b.tcount)))
  }

  function Included(b: Building, t: Try, receipt: Receipt): Building {
    b.(txs := b.txs + [t.tx], receipts := b.receipts + [receipt], tcount := b.tcount + 1,
       blobs := b.blobs + if t.tx.isBlob then t.sidecar else 0,
       size := b.size + if t.tx.isBlob then 0 else t.tx.size,
       blobGasUsed := b.blobGasUsed + if t.tx.isBlob then receipt.blobGasUsed else 0)
  }

  /** One attempt. */
  function Commit(env: Env, evm: Evm, checker: Checker, b: Building, t: Try): Attempted {
    if t.tx.isBlob && (b.blobs + t.sidecar) * BLOB_GAS > MAX_BLOB_GAS then Attempted(b, Some(BlobsFull))
    else
      var a := ExecuteTx(env, evm, checker, b, t.tx);
      if a.receipt.None? then Attempted(a.next, a.error)
      else Attempted(Included(a.next, t, a.receipt.value), None)
  }

  function CommitAll(env: Env, evm: Evm, checker: Checker, b: Building, tries: seq<Try>): Building {
    if tries == [] then b
    else Commit(env, evm, checker, CommitAll(env, evm, checker, b, tries[..|tries| - 1]), tries[|tries| - 1]).next
  }

  /** The state of a new block: nothing included yet. */
  function EmptyBlock(parent: World, capacity: nat): Building {
    Building(parent, capacity, 0, [], [], map[], 0, 0, 0, 0)
  }

  predicate Distinct(tries: seq<Try>) {
    forall i, j :: 0 <= i < j < |tries| ==> tries[i].tx.hash != tries[j].tx.hash
  }

  predicate Tried(tries: seq<Try>, hash: nat) {
    exists i :: 0 <= i < |tries| && tries[i].tx.hash == hash
  }

  predicate AllTried(txs: seq<Tx>, tries: seq<Try>) {
    forall i :: 0 <= i < |txs| ==> Tried(tries, txs[i].hash)
  }

  /** The results agree on every transaction of the list. */
  predicate Agree(a: Results, b: Results, txs: seq<Tx>) {
    forall i :: 0 <= i < |txs| ==> Own(a, txs[i]) == Own(b, txs[i])
  }

  /** Processing depends only on the results of the block's own transactions. */
  lemma {:induction false} SameResults(env: Env, evm: Evm, a: Results, b: Results, s: Run, txs: seq<Tx>)
    requires Agree(a, b, txs)
    ensures ApplyAll(env, evm, a, s, txs) == ApplyAll(env, evm, b, s, txs)
    decreases |txs|
  {
    if txs != [] {
      hide ApplyAll, Apply, Own;
      var n := |txs| - 1;
      ApplyAllLast(env, evm, a, s, txs);
      ApplyAllLast(env, evm, b, s, txs);
      SameResults(env, evm, a, b, s, txs[..n]);
      var before := ApplyAll(env, evm, a, s, txs[..n]);
      if before.Some? {
        ApplySame(env, evm, a, b, before.value, txs[n]);
      }
    } else {
      EmptyRun(env, evm, a, s);
      EmptyRun(env, evm, b, s);
    }
  }

  lemma ApplySame(env: Env, evm: Evm, a: Results, b: Results, s: Run, tx: Tx)
    requires Own(a, tx) == Own(b, tx)
    ensures Apply(env, evm, a, s, tx) == Apply(env, evm, b, s, tx)
  {
    hide Transition, ReceiptOf, Own;
  }

  function More(s: Run, more: nat): Run {
    s.(pool := s.pool + more)
  }

  lemma ApplyLarger(env: Env, evm: Evm, results: Results, s: Run, more: nat, tx: Tx)
    requires Apply(env, evm, results, s, tx).Some?
    ensures Apply(env, evm, results, More(s, more), tx) == Some(More(Apply(env, evm, results, s, tx).value, more))
  {
    hide Transition, ReceiptOf;
    LargerPool(env, evm, Own(results, tx), s.world, s.pool, s.pool + more, tx);
  }

  /** A larger pool processes a block in the same way. */
  lemma {:induction false} ApplyAllLarger(env: Env, evm: Evm, results: Results, s: Run, more: nat, txs: seq<Tx>)
    requires ApplyAll(env, evm, results, s, txs).Some?
    ensures ApplyAll(env, evm, results, More(s, more), txs)
            == Some(More(ApplyAll(env, evm, results, s, txs).value, more))
    decreases |txs|
  {
    if txs == [] {
      EmptyRun(env, evm, results, s);
      EmptyRun(env, evm, results, More(s, more));
    } else {
      hide Apply, ApplyAll, More;
      ApplyAllLast(env, evm, results, s, txs);
      ApplyAllLast(env, evm, results, More(s, more), txs);
      ApplyAllLarger(env, evm, results, s, more, txs[..|txs| - 1]);
      ApplyLarger(env, evm, results, ApplyAll(env, evm, results, s, txs[..|txs| - 1]).value, more, txs[|txs| - 1]);
    }
  }

  /** The block so far, read back by the validator. */
  ghost predicate Replays(env: Env, evm: Evm, parent: World, capacity: nat, b: Building) {
    ApplyAll(env, evm, b.results, Run(parent, capacity, 0, []), b.txs) == Some(Run(b.world, b.pool, b.used, b.receipts))
    && |b.receipts| == b.tcount
  }

  lemma AgreeAfter(results: Results, hash: nat, own: Predicates, txs: seq<Tx>, tries: seq<Try>)
    requires AllTried(txs, tries) && !Tried(tries, hash)
    ensures Agree(results, SetTxResults(results, hash, own), txs)
    ensures Agree(results, SetTxResults(results, hash, own) - {hash}, txs)
  {
  }

  lemma ExecuteReplays(env: Env, evm: Evm, checker: Checker, parent: World, capacity: nat, b: Building, tries: seq<Try>, tx: Tx)
    requires Replays(env, evm, parent, capacity, b) && AllTried(b.txs, tries) && !Tried(tries, tx.hash)
    ensures var a := ExecuteTx(env, evm, checker, b, tx);
            && a.next.txs == b.txs && a.next.receipts == b.receipts && a.next.tcount == b.tcount
            && if a.receipt.None? then Replays(env, evm, parent, capacity, a.next)
               else ApplyAll(env, evm, a.next.results, Run(parent, capacity, 0, []), b.txs + [tx])
                    == Some(Run(a.next.world, a.next.pool, a.next.used, b.receipts + [a.receipt.value]))
  {
    hide Transition, AllTried, ReceiptOf, Agree, ApplyAll, Own, SetTxResults;
    var s0 := Run(parent, capacity, 0, []);
    if checker.check(tx).Verified? {
      var marked := SetTxResults(b.results, tx.hash, checker.check(tx).own);
      AgreeAfter(b.results, tx.hash, checker.check(tx).own, b.txs, tries);
      SameResults(env, evm, b.results, marked, s0, b.txs);
      SameResults(env, evm, b.results, marked - {tx.hash}, s0, b.txs);
      ApplyAllLast(env, evm, marked, s0, b.txs + [tx]);
      assert (b.txs + [tx])[..|b.txs|] == b.txs;
    }
  }

  /** An attempt whose hash was never tried before keeps the block replayable. */
  lemma CommitReplays(env: Env, evm: Evm, checker: Checker, parent: World, capacity: nat, b: Building, tries: seq<Try>, t: Try)
    requires Replays(env, evm, parent, capacity, b) && AllTried(b.txs, tries) && !Tried(tries, t.tx.hash)
    ensures Replays(env, evm, parent, capacity, Commit(env, evm, checker, b, t).next)
    ensures var txs := Commit(env, evm, checker, b, t).next.txs; txs == b.txs || txs == b.txs + [t.tx]
  {
    hide ExecuteTx, AllTried, ApplyAll;
    ExecuteReplays(env, evm, checker, parent, capacity, b, tries, t.tx);
  }

  /** Replay holds after any sequence of attempts on distinct transactions. */
  lemma {:induction false} AttemptsReplay(env: Env, evm: Evm, checker: Checker, parent: World, capacity: nat, tries: seq<Try>)
    requires Distinct(tries)
    ensures var b := CommitAll(env, evm, checker, EmptyBlock(parent, capacity), tries);
            Replays(env, evm, parent, capacity, b) && AllTried(b.txs, tries)
    decreases |tries|
  {
    hide Commit, Replays, AllTried;
    if tries == [] {
      FreshReplays(env, evm, parent, capacity);
    } else {
      var before, t := tries[..|tries| - 1], tries[|tries| - 1];
      AttemptsReplay(env, evm, checker, parent, capacity, before);
      var b := CommitAll(env, evm, checker, EmptyBlock(parent, capacity), before);
      CommitReplays(env, evm, checker, parent, capacity, b, before, t);
      AllTriedSnoc(b.txs, before, t);
      assert before + [t] == tries;
    }
  }

  lemma FreshReplays(env: Env, evm: Evm, parent: World, capacity: nat)
    ensures Replays(env, evm, parent, capacity, EmptyBlock(parent, capacity)) && AllTried([], [])
  {
  }

  lemma AllTriedSnoc(txs: seq<Tx>, tries: seq<Try>, t: Try)
    requires AllTried(txs, tries)
    ensures AllTried(txs, tries + [t]) && AllTried(txs + [t.tx], tries + [t])
  {
    forall i | 0 <= i < |txs|
      ensures Tried(tries + [t], txs[i].hash)
    {
      var k :| 0 <= k < |tries| && tries[k].tx.hash == txs[i].hash;
      assert (tries + [t])[k].tx.hash == txs[i].hash;
    }
    assert (tries + [t])[|tries|].tx.hash == t.tx.hash;
  }

  /** The attempt was dropped because the results no longer fitted in a header, with its own ones among them. */
  predicate DropsOversize(env: Env, evm: Evm, checker: Checker, b: Building, t: Try) {
    && Commit(env, evm, checker, b, t).error == Some(ResultsTooLarge)
    && checker.check(t.tx).Verified? && checker.check(t.tx).own.Some?
  }

  function Oversize(env: Env, evm: Evm, checker: Checker, b: Building, tries: seq<Try>): set<nat> {
    if tries == [] then {} else
      var before, t := tries[..|tries| - 1], tries[|tries| - 1];
      Oversize(env, evm, checker, b, before)
      + if DropsOversize(env, evm, checker, CommitAll(env, evm, checker, b, before), t) then {t.tx.hash} else {}
  }

  predicate Includes(txs: seq<Tx>, hash: nat) {
    exists i :: 0 <= i < |txs| && txs[i].hash == hash
  }

  /** Each included transaction has the results that verification gave it; besides, results are recorded exactly for
      the attempts dropped for oversize. */
  ghost predicate HeaderOk(checker: Checker, b: Building, oversize: set<nat>) {
    && (forall i :: 0 <= i < |b.txs| ==> checker.check(b.txs[i]) == Verified(Own(b.results, b.txs[i])))
    && (forall h :: h in b.results ==> h in oversize || Includes(b.txs, h))
    && (forall h :: h in oversize ==> h in b.results && !Includes(b.txs, h))
  }

  predicate WereTried(hashes: set<nat>, tries: seq<Try>) {
    forall h :: h in hashes ==> Tried(tries, h)
  }

  /** What an attempt does to the included transactions and to the recorded results. */
  lemma CommitRecords(env: Env, evm: Evm, checker: Checker, b: Building, t: Try)
    requires t.tx.hash !in b.results
    ensures var a, hash := Commit(env, evm, checker, b, t), t.tx.hash;
            && a.next.txs == (if a.error.None? then b.txs + [t.tx] else b.txs)
            && (a.error.None? ==> checker.check(t.tx) == Verified(Own(a.next.results, t.tx)))
            && (hash in a.next.results ==> a.error.None? || DropsOversize(env, evm, checker, b, t))
            && (DropsOversize(env, evm, checker, b, t) ==> a.error.Some? && hash in a.next.results)
            && a.next.results - {hash} == b.results
  {
    hide Transition, ReceiptOf;
    assert b.results - {t.tx.hash} == b.results;
  }

  lemma OthersKept(results: Results, next: Results, hash: nat, tx: Tx)
    requires next - {hash} == results && tx.hash != hash
    ensures Own(next, tx) == Own(results, tx)
  {
    assert tx.hash in next <==> tx.hash in next - {hash};
  }

  lemma CommitKeepsHeader(env: Env, evm: Evm, checker: Checker, b: Building, tries: seq<Try>, oversize: set<nat>, t: Try)
    requires HeaderOk(checker, b, oversize) && WereTried(oversize, tries)
    requires AllTried(b.txs, tries) && !Tried(tries, t.tx.hash)
    ensures HeaderOk(checker, Commit(env, evm, checker, b, t).next,
                     oversize + if DropsOversize(env, evm, checker, b, t) then {t.tx.hash} else {})
  {
    hide Commit, DropsOversize, Own, AllTried, Tried, Includes;
    var next := Commit(env, evm, checker, b, t).next;
    NotIncludedYet(b.txs, tries, t);
    CommitRecords(env, evm, checker, b, t);
    forall i | 0 <= i < |b.txs|
      ensures Own(next.results, b.txs[i]) == Own(b.results, b.txs[i])
    {
      IncludesAt(b.txs, i);
      OthersKept(b.results, next.results, t.tx.hash, b.txs[i]);
    }
    forall h
      ensures Includes(b.txs + [t.tx], h) <==> Includes(b.txs, h) || h == t.tx.hash
    {
      IncludesOneMore(b.txs, t.tx, h);
    }
  }

  lemma NotIncludedYet(txs: seq<Tx>, tries: seq<Try>, t: Try)
    requires AllTried(txs, tries) && !Tried(tries, t.tx.hash)
    ensures !Includes(txs, t.tx.hash)
  {
  }

  lemma IncludesAt(txs: seq<Tx>, i: nat)
    requires i < |txs|
    ensures Includes(txs, txs[i].hash)
  {
  }

  lemma IncludesOneMore(txs: seq<Tx>, tx: Tx, h: nat)
    ensures Includes(txs + [tx], h) <==> Includes(txs, h) || h == tx.hash
  {
    if Includes(txs, h) {
      var i :| 0 <= i < |txs| && txs[i].hash == h;
      assert (txs + [tx])[i].hash == h;
    }
    assert (txs + [tx])[|txs|] == tx;
  }

  lemma WereTriedSnoc(hashes: set<nat>, tries: seq<Try>, t: Try)
    requires WereTried(hashes, tries)
    ensures WereTried(hashes + {t.tx.hash}, tries + [t]) && WereTried(hashes, tries + [t])
  {
    forall h | h in hashes
      ensures Tried(tries + [t], h)
    {
      var i :| 0 <= i < |tries| && tries[i].tx.hash == h;
      assert (tries + [t])[i].tx.hash == h;
    }
    assert (tries + [t])[|tries|] == t;
  }

  /** What goes into the header, over every sequence of attempts on distinct transactions. */
  lemma {:induction false} AttemptsFillHeader(env: Env, evm: Evm, checker: Checker, parent: World, capacity: nat, tries: seq<Try>)
    requires Distinct(tries)
    ensures var oversize := Oversize(env, evm, checker, EmptyBlock(parent, capacity), tries);
            && HeaderOk(checker, CommitAll(env, evm, checker, EmptyBlock(parent, capacity), tries), oversize)
            && WereTried(oversize, tries)
    decreases |tries|
  {
    hide Commit, AllTried, Replays, DropsOversize;
    if tries != [] {
      hide HeaderOk, WereTried;
      var before, t := tries[..|tries| - 1], tries[|tries| - 1];
      AttemptsFillHeader(env, evm, checker, parent, capacity, before);
      AttemptsReplay(env, evm, checker, parent, capacity, before);
      var oversize := Oversize(env, evm, checker, EmptyBlock(parent, capacity), before);
      CommitKeepsHeader(env, evm, checker, CommitAll(env, evm, checker, EmptyBlock(parent, capacity), before), before,
                        oversize, t);
      WereTriedSnoc(oversize, before, t);
      assert before + [t] == tries;
    }
  }

  /** The results of dropped transactions are removed if and only if none was dropped for oversize. */
  lemma DroppedLeaveNothingIff(env: Env, evm: Evm, checker: Checker, parent: World, capacity: nat, tries: seq<Try>)
    requires Distinct(tries)
    ensures var b := CommitAll(env, evm, checker, EmptyBlock(parent, capacity), tries);
            (forall h :: h in b.results ==> Includes(b.txs, h))
            <==> Oversize(env, evm, checker, EmptyBlock(parent, capacity), tries) == {}
  {
    hide Commit, CommitAll, Oversize, Includes;
    AttemptsFillHeader(env, evm, checker, parent, capacity, tries);
  }

  /** A transaction that is dropped for oversize and leaves its results behind. */
  lemma OversizeStays(env: Env, evm: Evm, parent: World, capacity: nat, t: Try)
    requires !t.tx.isBlob
    ensures var checker := Checker(_ => Verified(Some(0)), _ => false);
            var b := CommitAll(env, evm, checker, EmptyBlock(parent, capacity), [t]);
            b.txs == [] && t.tx.hash in b.results
  {
    hide Transition;
    assert [t][..0] == [];
  }

  /** Builder and validator agree: whatever was tried and reverted, processing the included transactions from the same
      state, with any pool at least as large, gives the builder's state, gas and receipts. */
  lemma Agreement(env: Env, evm: Evm, checker: Checker, parent: World, capacity: nat, gasLimit: nat, tries: seq<Try>)
    requires Distinct(tries) && capacity <= gasLimit
    ensures var b := CommitAll(env, evm, checker, EmptyBlock(parent, capacity), tries);
            && ApplyAll(env, evm, b.results, Run(parent, gasLimit, 0, []), b.txs)
               == Some(Run(b.world, b.pool + (gasLimit - capacity), b.used, b.receipts))
            && b.pool + b.used == capacity && |b.txs| == b.tcount
  {
    hide Transition, Commit, AllTried, Apply;
    AttemptsReplay(env, evm, checker, parent, capacity, tries);
    var b := CommitAll(env, evm, checker, EmptyBlock(parent, capacity), tries);
    var s0 := Run(parent, capacity, 0, []);
    ApplyAllLarger(env, evm, b.results, s0, gasLimit - capacity, b.txs);
    BlockGas(env, evm, b.results, s0, b.txs);
    ReceiptsAddUp(env, evm, b.results, s0, b.txs);
  }

  /** The block so far never holds more blobs than allowed. */
  predicate BlobsFit(b: Building) {
    b.blobs <= 6
  }

  /** Nor more bytes of plain transactions than the target of 1792 KiB. */
  predicate SizeFits(b: Building) {
    b.size <= 1835008
  }

  lemma CommitKeepsSizeFits(env: Env, evm: Evm, checker: Checker, b: Building, t: Try)
    requires b.size + t.tx.size <= 1835008
    ensures SizeFits(Commit(env, evm, checker, b, t).next)
  {
    hide Transition, ReceiptOf;
  }

  function PlainSize(txs: seq<Tx>): nat {
    if txs == [] then 0 else
      var tx := txs[|txs| - 1];
      PlainSize(txs[..|txs| - 1]) + if tx.isBlob then 0 else tx.size
  }

  function BlobGasSum(receipts: seq<Receipt>): nat {
    if receipts == [] then 0 else BlobGasSum(receipts[..|receipts| - 1]) + receipts[|receipts| - 1].blobGasUsed
  }

  /** The running totals of a block are the sums over what it includes. */
  ghost predicate AddsUp(b: Building) {
    && b.size == PlainSize(b.txs) && b.blobGasUsed == BlobGasSum(b.receipts) && b.used == GasSum(b.receipts)
    && b.tcount == |b.txs| && b.tcount == |b.receipts|
    && b.blobGasUsed == b.blobs * 131072
  }

  /** The sidecar of a blob transaction holds one blob for each of its hashes. */
  predicate SidecarFits(t: Try) {
    t.tx.isBlob ==> t.sidecar == BlobCount(t.tx)
  }

  /** Execution leaves the totals of the block alone, except for the gas of the new receipt. */
  lemma ExecuteAmounts(env: Env, evm: Evm, checker: Checker, b: Building, tx: Tx)
    ensures var a := ExecuteTx(env, evm, checker, b, tx);
            && a.next == b.(results := a.next.results, world := a.next.world, pool := a.next.pool, used := a.next.used)
            && if a.receipt.None? then a.next.used == b.used
               else a.next.used == b.used + a.receipt.value.gasUsed
                    && a.receipt.value.blobGasUsed == if tx.isBlob then BlobCount(tx) * 131072 else 0
  {
    hide Transition, Own, SetTxResults;
  }

  lemma IncludedAddsUp(b: Building, t: Try, r: Receipt)
    requires r.gasUsed <= b.used && AddsUp(b.(used := b.used - r.gasUsed))
    requires r.blobGasUsed == if t.tx.isBlob then t.sidecar * 131072 else 0
    ensures AddsUp(Included(b, t, r))
  {
    assert (b.txs + [t.tx])[..|b.txs|] == b.txs;
    assert (b.receipts + [r])[..|b.receipts|] == b.receipts;
  }

  lemma CommitAddsUp(env: Env, evm: Evm, checker: Checker, b: Building, t: Try)
    requires AddsUp(b) && SidecarFits(t)
    ensures AddsUp(Commit(env, evm, checker, b, t).next)
  {
    hide ExecuteTx, Included;
    var a := ExecuteTx(env, evm, checker, b, t.tx);
    ExecuteAmounts(env, evm, checker, b, t.tx);
    if a.receipt.Some? {
      IncludedAddsUp(a.next, t, a.receipt.value);
    }
  }

  /** Over every sequence of attempts the totals stay the sums, and the blob gas in the header is that of the blobs. */
  lemma {:induction false} AttemptsAddUp(env: Env, evm: Evm, checker: Checker, parent: World, capacity: nat, tries: seq<Try>)
    requires forall i :: 0 <= i < |tries| ==> SidecarFits(tries[i])
    ensures AddsUp(CommitAll(env, evm, checker, EmptyBlock(parent, capacity), tries))
    decreases |tries|
  {
    hide Commit;
    if tries != [] {
      hide AddsUp;
      AttemptsAddUp(env, evm, checker, parent, capacity, tries[..|tries| - 1]);
      CommitAddsUp(env, evm, checker, CommitAll(env, evm, checker, EmptyBlock(parent, capacity), tries[..|tries| - 1]),
                   tries[|tries| - 1]);
    }
  }

  /** Skipping is justified: a transaction that is skipped although it is still pooled, fits the size target and meets the
      replay rule could not have been included. */
  lemma SkippedWouldFail(env: Env, evm: Evm, checker: Checker, b: Building, l: Lazy, replayProtection: bool)
    requires BlobsFit(b) && l.tx.Some? && !WorthTrying(b, l, replayProtection)
    requires l.gas == l.tx.value.gas && l.blobGas == if l.tx.value.isBlob then l.sidecar * 131072 else 0
    requires b.size + l.tx.value.size <= 1835008 && (l.isProtected ==> replayProtection)
    ensures Commit(env, evm, checker, b, Try(l.tx.value, l.sidecar)).error.Some?
  {
    hide PreCheckError, LateError, Executed, RequiredFunds;
  }

  /** When an attempt fails, and that it fails for blob space exactly when the blobs of the block would exceed six. */
  lemma CommitFailsFor(env: Env, evm: Evm, checker: Checker, b: Building, t: Try)
    ensures var e := Commit(env, evm, checker, b, t).error;
            && (e == Some(BlobsFull) <==> t.tx.isBlob && b.blobs + t.sidecar > 6)
            && (e != Some(BlobsFull) ==>
                  && (e == Some(PredicateFailure) <==> checker.check(t.tx).Unverified?)
                  && (checker.check(t.tx).Verified? ==>
                        var own := checker.check(t.tx).own;
                        var o := Transition(env, evm, own, b.world, b.pool, t.tx).outcome;
                        if !checker.fits(SetTxResults(b.results, t.tx.hash, own)) then e == Some(ResultsTooLarge)
                        else if o.Rejected? then e == Some(TxError(o.why)) else e == None))
  {
    hide Transition, ReceiptOf, SetTxResults, Own;
    if checker.check(t.tx).Verified? {
      RecordedIsFound(b.results, t.tx, checker.check(t.tx).own, t.tx);
    }
  }

  lemma CommitKeepsBlobs(env: Env, evm: Evm, checker: Checker, b: Building, t: Try)
    requires BlobsFit(b)
    ensures b.blobs <= Commit(env, evm, checker, b, t).next.blobs <= 6
  {
    hide Transition;
  }

  lemma CommitNeverRefills(env: Env, evm: Evm, checker: Checker, b: Building, t: Try)
    ensures Commit(env, evm, checker, b, t).next.pool <= b.pool
  {
    hide Transition;
    if checker.check(t.tx).Verified? {
      var results := SetTxResults(b.results, t.tx.hash, checker.check(t.tx).own);
      GasConservation(env, evm, Own(results, t.tx), b.world, b.pool, t.tx);
    }
  }

  /** A pooled transaction that resolves does so to a well-sized transaction with its own hash. */
  predicate LazyOk(l: Lazy) {
    l.tx.Some? ==> Sized(l.tx.value) && l.tx.value.hash == l.hash
  }

  ghost predicate LaziesOk(q: Queue) {
    && (forall h :: h in q.heads ==> LazyOk(h.tx))
    && (forall a, i :: a in q.rest && 0 <= i < |q.rest[a]| ==> LazyOk(q.rest[a][i]))
  }

  lemma StepKeepsLazies(q: Queue, op: Op, baseFee: Option<nat>)
    requires LaziesOk(q)
    ensures LaziesOk(Step(q, op, baseFee))
  {
    hide LazyOk, WithMinerFee;
    var a := op.h.from;
    if a in q.rest && |q.rest[a]| > 0 && WithMinerFee(q.rest[a][0], a, baseFee).Some? {
      WrapsItself(q.rest[a][0], a, baseFee);
    }
  }

  lemma WrapsItself(l: Lazy, from: Address, baseFee: Option<nat>)
    requires WithMinerFee(l, from, baseFee).Some?
    ensures WithMinerFee(l, from, baseFee).value.tx == l
  {
  }

  /** Whether the builder executes a pooled transaction at all. */
  predicate WorthTrying(b: Building, l: Lazy, replayProtection: bool) {
    && l.gas <= b.pool && l.blobGas <= MAX_BLOB_GAS - b.blobs * BLOB_GAS && l.tx.Some?
    && b.size + l.tx.value.size <= TARGET_SIZE && (l.isProtected ==> replayProtection)
  }

  /** Which operation of which queue an attempt came from. */
  datatype Pick = Pick(queue: nat, op: nat)

  /** What happened to the queues: their operations, the attempts, and where each attempt came from. */
  datatype History = History(ops: seq<seq<Op>>, tries: seq<Try>, picks: seq<Pick>)

  function Record(h: History, q: nat, op: Op, t: Option<Try>): History
    requires q < |h.ops|
  {
    var ops := h.ops[q := h.ops[q] + [op]];
    if t.None? then h.(ops := ops) else History(ops, h.tries + [t.value], h.picks + [Pick(q, |h.ops[q]|)])
  }

  ghost predicate PickOk(p: Pick, t: Try, ops: seq<seq<Op>>) {
    && p.queue < |ops| && p.op < |ops[p.queue]|
    && ops[p.queue][p.op].h.tx.tx == Some(t.tx)
  }

  /** Every attempt came from an operation of its own. */
  ghost predicate Picked(h: History) {
    && |h.picks| == |h.tries|
    && (forall k :: 0 <= k < |h.tries| ==> PickOk(h.picks[k], h.tries[k], h.ops))
    && (forall k, l :: 0 <= k < l < |h.picks| ==> h.picks[k] != h.picks[l])
  }

  lemma LegalSnoc(q: Queue, ops: seq<Op>, op: Op, baseFee: Option<nat>)
    requires Legal(q, ops, baseFee) && Best(Ordering.Run(q, ops, baseFee), op.h)
    ensures Legal(q, ops + [op], baseFee)
    ensures Ordering.Run(q, ops + [op], baseFee) == Step(Ordering.Run(q, ops, baseFee), op, baseFee)
  {
    hide Best, Step;
    assert (ops + [op])[..|ops|] == ops;
  }

  /** One more operation on queue `q`, with or without an attempt. */
  lemma RecordKeepsPicked(h: History, q: nat, op: Op, t: Option<Try>)
    requires Picked(h) && q < |h.ops| && (t.Some? ==> op.h.tx.tx == Some(t.value.tx))
    ensures Picked(Record(h, q, op, t)) && |Record(h, q, op, t).ops| == |h.ops|
    ensures forall i :: 0 <= i < |h.ops| ==>
              Record(h, q, op, t).ops[i] == if i == q then h.ops[i] + [op] else h.ops[i]
    ensures Record(h, q, op, t).tries == if t.None? then h.tries else h.tries + [t.value]
  {
    var h' := Record(h, q, op, t);
    forall k | 0 <= k < |h.tries|
      ensures PickOk(h.picks[k], h.tries[k], h'.ops) && h.picks[k] != Pick(q, |h.ops[q]|)
    {
      assert PickOk(h.picks[k], h.tries[k], h.ops);
    }
  }

  lemma CommitAllSnoc(env: Env, evm: Evm, checker: Checker, b: Building, tries: seq<Try>, t: Try)
    ensures CommitAll(env, evm, checker, b, tries + [t])
            == Commit(env, evm, checker, CommitAll(env, evm, checker, b, tries), t).next
  {
    hide Commit;
    assert (tries + [t])[..|tries|] == tries;
  }

  datatype Builder = Builder(env: Env, evm: Evm, checker: Checker, replayProtection: bool, baseFee: Option<nat>)

  /** The block so far and the two queues it is filled from. */
  datatype Filling = Filling(b: Building, plain: Queue, blob: Queue)

  /** One round of the builder: the queue it takes from, and the head it takes. */
  datatype Round = Round(useBlob: bool, head: Head)

  /** Blob transactions are forgotten once no further blob fits into the block. */
  ghost function Pruned(f: Filling): Filling {
    if f.blob.heads != multiset{} && f.b.blobs >= 6 then f.(blob := Queue(multiset{}, map[])) else f
  }

  ghost function After(c: Builder, b: Building, l: Lazy): Building {
    if WorthTrying(b, l, c.replayProtection) then Commit(c.env, c.evm, c.checker, b, Try(l.tx.value, l.sidecar)).next
    else b
  }

  /** The account goes on to its next transaction: this one was included, or its nonce had been used already. */
  ghost predicate GoesOn(c: Builder, b: Building, l: Lazy) {
    && WorthTrying(b, l, c.replayProtection)
    && var e := Commit(c.env, c.evm, c.checker, b, Try(l.tx.value, l.sidecar)).error;
       e.None? || e == Some(TxError(NonceTooLow))
  }

  ghost function OpOf(c: Builder, b: Building, h: Head): Op {
    if GoesOn(c, b, h.tx) then Shift(h) else Pop(h)
  }

  /** There is gas for a transaction, and the head is the most profitable of both queues, a plain one on a tie. */
  ghost predicate Chosen(f: Filling, r: Round) {
    var p := Pruned(f);
    && f.b.pool >= 21000
    && Best(if r.useBlob then p.blob else p.plain, r.head)
    && (forall h :: h in p.plain.heads ==> h.fees <= r.head.fees && (r.useBlob ==> h.fees < r.head.fees))
    && (forall h :: h in p.blob.heads ==> h.fees <= r.head.fees)
  }

  ghost function Next(c: Builder, f: Filling, r: Round): Filling {
    var p := Pruned(f);
    var op := OpOf(c, f.b, r.head);
    Filling(After(c, f.b, r.head.tx),
            if r.useBlob then p.plain else Step(p.plain, op, c.baseFee),
            if r.useBlob then Step(p.blob, op, c.baseFee) else p.blob)
  }

  ghost function Fill(c: Builder, f: Filling, rounds: seq<Round>): Filling {
    if rounds == [] then f else Next(c, Fill(c, f, rounds[..|rounds| - 1]), rounds[|rounds| - 1])
  }

  ghost predicate Fair(c: Builder, f: Filling, rounds: seq<Round>) {
    rounds == [] ||
    (Fair(c, f, rounds[..|rounds| - 1]) && Chosen(Fill(c, f, rounds[..|rounds| - 1]), rounds[|rounds| - 1]))
  }

  /** Nothing is left to try: no gas for another transaction, or no head that could still enter. */
  ghost predicate Done(f: Filling) {
    f.b.pool < 21000 || (f.plain.heads == multiset{} && (f.blob.heads == multiset{} || f.b.blobs >= 6))
  }

  /** A round takes no blob transaction once six blobs are in, and the account it took from goes on to
      its next transaction exactly when this one was included or its nonce had been used already. */
  lemma RoundMeans(c: Builder, f: Filling, r: Round)
    requires Chosen(f, r)
    requires var q := if r.useBlob then f.blob else f.plain;
             && OnePerAccount(q.heads) && r.head.from in q.rest && |q.rest[r.head.from]| > 0
             && WithMinerFee(q.rest[r.head.from][0], r.head.from, c.baseFee).Some?
    ensures r.useBlob ==> f.b.blobs < 6
    ensures var l := r.head.tx;
            var q := if r.useBlob then Next(c, f, r).blob else Next(c, f, r).plain;
            (exists h :: h in q.heads && h.from == r.head.from) <==>
              && WorthTrying(f.b, l, c.replayProtection)
              && Commit(c.env, c.evm, c.checker, f.b, Try(l.tx.value, l.sidecar)).error in {None, Some(TxError(NonceTooLow))}
  {
    hide Commit, WorthTrying, Before, WithMinerFee;
    var q := if r.useBlob then f.blob else f.plain;
    var next := WithMinerFee(q.rest[r.head.from][0], r.head.from, c.baseFee).value;
    FeeIsPaid(q.rest[r.head.from][0], r.head.from, c.baseFee);
    if GoesOn(c, f.b, r.head.tx) {
      assert next in Shifted(q, r.head, c.baseFee).heads;
    } else {
      assert forall h :: h in Popped(q, r.head).heads ==> h.from != r.head.from;
    }
  }

  lemma NoRounds(c: Builder, f: Filling)
    ensures Fair(c, f, []) && Fill(c, f, []) == f
  {
  }

  lemma FillSnoc(c: Builder, f: Filling, rounds: seq<Round>, r: Round)
    requires Fair(c, f, rounds) && Chosen(Fill(c, f, rounds), r)
    ensures Fair(c, f, rounds + [r]) && Fill(c, f, rounds + [r]) == Next(c, Fill(c, f, rounds), r)
  {
    hide Chosen, Next;
    assert (rounds + [r])[..|rounds|] == rounds;
  }

  /** What the rounds did to each queue and to the block, attempt by attempt. */
  ghost predicate Traces(h: History, c: Builder, f: Filling, g: Filling) {
    && |h.ops| == 2 && Legal(f.plain, h.ops[0], c.baseFee) && Legal(f.blob, h.ops[1], c.baseFee)
    && Picked(h) && g.b == CommitAll(c.env, c.evm, c.checker, f.b, h.tries)
    && g.plain == Ordering.Run(f.plain, h.ops[0], c.baseFee)
    && (g.blob == Ordering.Run(f.blob, h.ops[1], c.baseFee) || (g.blob.heads == multiset{} && g.b.blobs == 6))
    && f.b.blobs <= g.b.blobs <= 6 && g.b.pool <= f.b.pool
  }

  function AttemptOf(c: Builder, b: Building, l: Lazy): Option<Try> {
    if WorthTrying(b, l, c.replayProtection) then Some(Try(l.tx.value, l.sidecar)) else None
  }

  lemma AfterAttempt(c: Builder, b0: Building, tries: seq<Try>, b: Building, l: Lazy)
    requires b == CommitAll(c.env, c.evm, c.checker, b0, tries) && BlobsFit(b)
    ensures var t := AttemptOf(c, b, l);
            After(c, b, l) == CommitAll(c.env, c.evm, c.checker, b0, if t.None? then tries else tries + [t.value])
    ensures b.blobs <= After(c, b, l).blobs <= 6 && After(c, b, l).pool <= b.pool
  {
    hide Commit, CommitAll;
    if WorthTrying(b, l, c.replayProtection) {
      var t := Try(l.tx.value, l.sidecar);
      CommitAllSnoc(c.env, c.evm, c.checker, b0, tries, t);
      CommitKeepsBlobs(c.env, c.evm, c.checker, b, t);
      CommitNeverRefills(c.env, c.evm, c.checker, b, t);
    }
  }

  lemma RoundTraced(h: History, c: Builder, f: Filling, g: Filling, r: Round) returns (h': History)
    requires Traces(h, c, f, g) && Chosen(g, r)
    ensures Traces(h', c, f, Next(c, g, r))
  {
    hide Legal, Ordering.Run, Commit, CommitAll, Picked, Step, Best, Record, WorthTrying, After, GoesOn;
    var op, t, q := OpOf(c, g.b, r.head), AttemptOf(c, g.b, r.head.tx), if r.useBlob then 1 else 0;
    AfterAttempt(c, f.b, h.tries, g.b, r.head.tx);
    if r.useBlob {
      assert r.head in Pruned(g).blob.heads by { ChosenIsHead(g, r); }
      LegalSnoc(f.blob, h.ops[1], op, c.baseFee);
    } else {
      LegalSnoc(f.plain, h.ops[0], op, c.baseFee);
    }
    AttemptIsOf(c, g.b, r.head);
    RecordKeepsPicked(h, q, op, t);
    h' := Record(h, q, op, t);
  }

  lemma ChosenIsHead(f: Filling, r: Round)
    requires Chosen(f, r)
    ensures r.head in (if r.useBlob then Pruned(f).blob else Pruned(f).plain).heads
  {
  }

  lemma AttemptIsOf(c: Builder, b: Building, h: Head)
    ensures var t := AttemptOf(c, b, h.tx); t.Some? ==> OpOf(c, b, h).h.tx.tx == Some(t.value.tx)
  {
  }

  lemma {:induction false} FillTraced(c: Builder, f: Filling, rounds: seq<Round>) returns (h: History)
    requires Fair(c, f, rounds) && BlobsFit(f.b)
    ensures Traces(h, c, f, Fill(c, f, rounds))
    decreases |rounds|
  {
    hide Chosen, Next, Traces;
    if rounds == [] {
      h := History([[], []], [], []);
      StartTraced(c, f);
    } else {
      h := FillTraced(c, f, rounds[..|rounds| - 1]);
      h := RoundTraced(h, c, f, Fill(c, f, rounds[..|rounds| - 1]), rounds[|rounds| - 1]);
    }
  }

  lemma StartTraced(c: Builder, f: Filling)
    requires BlobsFit(f.b)
    ensures Traces(History([[], []], [], []), c, f, f)
  {
  }

  class Environment {
    const env: Env
    const evm: Evm
    const checker: Checker
    const replayProtection: bool
    const pool: GasPool
    var state: World
    var used: nat
    var txs: seq<Tx>
    var receipts: seq<Receipt>
    var results: Results
    var tcount: nat
    var blobs: nat
    var size: nat
    var blobGasUsed: nat

    constructor (env: Env, evm: Evm, checker: Checker, replayProtection: bool, parent: World, capacity: nat)
      requires capacity <= MAX_U64
      ensures this.env == env && this.evm == evm && this.checker == checker
      ensures this.replayProtection == replayProtection && fresh(pool)
      ensures State() == EmptyBlock(parent, capacity)
    {
      this.env, this.evm, this.checker, this.replayProtection := env, evm, checker, replayProtection;
      pool := new GasPool(capacity);
      state, used, txs, receipts, results := parent, 0, [], [], map[];
      tcount, blobs, size, blobGasUsed := 0, 0, 0, 0;
    }

    ghost function State(): Building
      reads this, pool
    {
      Building(state, pool.gas, used, txs, receipts, results, tcount, blobs, size, blobGasUsed)
    }

    /** Runs the transaction; on failure the state and the pool are put back. */
    method ApplyTransaction(tx: Tx) returns (receipt: Option<Receipt>, error: Option<Failure>)
      requires Sized(tx) && pool.gas <= MAX_U64
      modifies this`state, this`used, this`results, pool
      ensures var a := ExecuteTx(env, evm, checker, old(State()), tx);
              State() == a.next && error == a.error && receipt == a.receipt
    {
      hide Transition, ReceiptOf, Sized, Own, SetTxResults;
      receipt, error := None, None;
      var snapshot, gas := state, pool.gas;
      var checked := checker.check(tx);
      if checked.Unverified? {
        return None, Some(PredicateFailure);
      }
      results := SetTxResults(results, tx.hash, checked.own);
      if !checker.fits(results) {
        return None, Some(ResultsTooLarge);
      }
      var issue;
      state, used, issue := Processor.ApplyTransaction(env, evm, results, pool, state, used, tcount, tx);
      if issue.Refused? {
        state := snapshot;
        pool.SetGas(gas);
        results := results - {tx.hash};
        return None, Some(TxError(issue.why));
      }
      receipt := Some(issue.receipt);
    }

    /** Tries one transaction and includes it on success; blob transactions are bounded by the blob limit. */
    method CommitTransaction(t: Try) returns (error: Option<Failure>)
      requires Sized(t.tx) && pool.gas <= MAX_U64
      modifies this, pool
      ensures var a := Commit(env, evm, checker, old(State()), t);
              State() == a.next.(tcount := old(tcount)) && error == a.error
    {
      hide Transition, Sized;
      if t.tx.isBlob && (blobs + t.sidecar) * BLOB_GAS > MAX_BLOB_GAS {
        return Some(BlobsFull);
      }
      var receipt;
      receipt, error := ApplyTransaction(t.tx);
      if error.Some? {
        return;
      }
      txs, receipts := txs + [t.tx], receipts + [receipt.value];
      if t.tx.isBlob {
        blobs, blobGasUsed := blobs + t.sidecar, blobGasUsed + receipt.value.blobGasUsed;
      } else {
        size := size + t.tx.size;
      }
    }

    /** The more profitable of the two best heads, plain ones first on a tie. */
    method Choose(plain: TransactionsByPriceAndNonce, blob: TransactionsByPriceAndNonce)
      returns (next: Option<Lazy>, useBlob: bool)
      requires plain.Valid() && blob.Valid()
      ensures next.None? <==> plain.heads == [] && blob.heads == []
      ensures next.Some? ==> var heads := if useBlob then blob.heads else plain.heads;
                             && heads != [] && next.value == heads[0].tx
                             && (forall h :: h in plain.heads || h in blob.heads ==> h.fees <= heads[0].fees)
                             && (useBlob ==> forall h :: h in plain.heads ==> h.fees < heads[0].fees)
    {
      var plainTx, plainTip := plain.Peek();
      var blobTx, blobTip := blob.Peek();
      RootHasBestFee(plain.heads);
      RootHasBestFee(blob.heads);
      if plainTx.None? {
        return blobTx, true;
      }
      if blobTx.None? {
        return plainTx, false;
      }
      if plainTip < blobTip {
        return blobTx, true;
      }
      return plainTx, false;
    }

    /** Tries a pooled transaction unless it cannot fit. `shift` asks for the account's next one, otherwise the
        account is dropped. */
    method Attempt(l: Lazy) returns (shift: bool, ghost t: Option<Try>)
      requires LazyOk(l) && pool.gas <= MAX_U64 && BlobsFit(State()) && SizeFits(State())
      modifies this, pool
      ensures t == if WorthTrying(old(State()), l, replayProtection) then Some(Try(l.tx.value, l.sidecar)) else None
      ensures t.Some? <==>
                && l.tx.Some? && l.gas <= old(pool.gas) && l.blobGas + old(blobs) * 131072 <= 786432
                && old(size) + l.tx.value.size <= 1835008 && (l.isProtected ==> replayProtection)
      ensures t.Some? ==> l.tx == Some(t.value.tx)
      ensures BlobsFit(State()) && SizeFits(State()) && old(blobs) <= blobs <= 6 && pool.gas <= old(pool.gas)
      ensures t.None? ==> State() == old(State()) && !shift
      ensures t.Some? ==> var a := Commit(env, evm, checker, old(State()), t.value);
                          State() == a.next && (shift <==> a.error.None? || a.error == Some(TxError(NonceTooLow)))
    {
      hide ExecuteTx, Sized;
      shift, t := false, None;
      if pool.gas < l.gas || MAX_BLOB_GAS - blobs * BLOB_GAS < l.blobGas || l.tx.None? {
        return;
      }
      if size + l.tx.value.size > TARGET_SIZE || (l.isProtected && !replayProtection) {
        return;
      }
      t := Some(Try(l.tx.value, l.sidecar));
      CommitCounts(env, evm, checker, State(), Try(l.tx.value, l.sidecar));
      CommitKeepsSizeFits(env, evm, checker, State(), Try(l.tx.value, l.sidecar));
      CommitKeepsBlobs(env, evm, checker, State(), Try(l.tx.value, l.sidecar));
      CommitNeverRefills(env, evm, checker, State(), Try(l.tx.value, l.sidecar));
      var error := CommitTransaction(Try(l.tx.value, l.sidecar));
      if error == Some(TxError(NonceTooLow)) {
        shift := true;
      } else if error.None? {
        tcount := tcount + 1;
        shift := true;
      }
    }

    /** Forgets the blob transactions once no further blob fits into the block. */
    method ClearIfFull(blob: TransactionsByPriceAndNonce)
      requires blob.Valid() && LaziesOk(blob.Contents()) && BlobsFit(State())
      modifies blob
      ensures blob.Valid() && LaziesOk(blob.Contents())
      ensures blob.Contents() == Pruned(Filling(State(), old(blob.Contents()), old(blob.Contents()))).blob
      ensures blob.heads == if blobs == 6 then [] else old(blob.heads)
      ensures Remaining(|blob.heads|, blob.txs) <= Remaining(|old(blob.heads)|, old(blob.txs))
    {
      hide LaziesOk, HeapFrom, Remaining, FeesOk;
      if |blob.heads| > 0 && blobs * BLOB_GAS >= MAX_BLOB_GAS {
        ClearedIsSmaller(blob.heads, blob.txs);
        blob.Clear();
      }
    }

    ghost function Config(baseFee: Option<nat>): Builder {
      Builder(env, evm, checker, replayProtection, baseFee)
    }

    /** One round: drops the blob queue if it is of no more use, chooses a head, tries it, and moves its account on. */
    method TakeBest(plain: TransactionsByPriceAndNonce, blob: TransactionsByPriceAndNonce)
      returns (more: bool, ghost r: Round)
      requires plain != blob && plain.Valid() && blob.Valid() && plain.baseFee == blob.baseFee
      requires 21000 <= pool.gas <= MAX_U64 && BlobsFit(State()) && SizeFits(State())
      requires LaziesOk(plain.Contents()) && LaziesOk(blob.Contents())
      modifies this, pool, plain, blob
      ensures plain.Valid() && blob.Valid() && LaziesOk(plain.Contents()) && LaziesOk(blob.Contents())
      ensures pool.gas <= MAX_U64 && BlobsFit(State()) && SizeFits(State())
      ensures var f := Filling(old(State()), old(plain.Contents()), old(blob.Contents()));
              var g := Filling(State(), plain.Contents(), blob.Contents());
              if more then Chosen(f, r) && g == Next(Config(plain.baseFee), f, r) else Done(f) && g == Pruned(f)
      ensures more ==> Remaining(|plain.heads|, plain.txs) + Remaining(|blob.heads|, blob.txs)
                       < old(Remaining(|plain.heads|, plain.txs) + Remaining(|blob.heads|, blob.txs))
    {
      hide Commit, LaziesOk, Remaining, HeapFrom, Best, WorthTrying, SizeFits, BlobsFit, LazyOk, FeesOk, MostProfitable, Step;
      more, r := false, *;
      ClearIfFull(blob);
      var next, useBlob := Choose(plain, blob);
      if next.Some? {
        HeadIsOk(if useBlob then blob.heads else plain.heads, if useBlob then blob.txs else plain.txs);
        var shift, t := Attempt(next.value);
        ghost var op;
        if useBlob {
          op := Advance(blob, shift);
        } else {
          op := Advance(plain, shift);
        }
        more, r := true, Round(useBlob, op.h);
      }
    }

    /** Takes transactions from the two queues, best first, until the gas or the transactions run out. */
    method CommitTransactions(plain: TransactionsByPriceAndNonce, blob: TransactionsByPriceAndNonce)
      returns (ghost rounds: seq<Round>)
      requires plain != blob && plain.Valid() && blob.Valid() && plain.baseFee == blob.baseFee
      requires pool.gas <= MAX_U64 && BlobsFit(State()) && SizeFits(State())
      requires LaziesOk(plain.Contents()) && LaziesOk(blob.Contents())
      modifies this, pool, plain, blob
      ensures var f := Filling(old(State()), old(plain.Contents()), old(blob.Contents()));
              && Fair(Config(plain.baseFee), f, rounds)
              && var g := Fill(Config(plain.baseFee), f, rounds);
                 && Done(g) && State() == g.b && plain.Contents() == g.plain
                 && (blob.Contents() == g.blob || blob.Contents() == Pruned(g).blob)
      ensures pool.gas <= MAX_U64 && BlobsFit(State()) && SizeFits(State())
    {
      hide Commit, LaziesOk, Remaining, HeapFrom, Best, WorthTrying, SizeFits, LazyOk, FeesOk, MostProfitable, Fill, Fair,
           Next, Chosen;
      ghost var c, f := Config(plain.baseFee), Filling(State(), plain.Contents(), blob.Contents());
      rounds := [];
      NoRounds(c, f);
      while pool.gas >= IG.TX_GAS
        invariant plain.Valid() && blob.Valid() && pool.gas <= MAX_U64 && BlobsFit(State()) && SizeFits(State())
        invariant LaziesOk(plain.Contents()) && LaziesOk(blob.Contents())
        invariant Filling(State(), plain.Contents(), blob.Contents()) == Fill(c, f, rounds) && Fair(c, f, rounds)
        decreases Remaining(|plain.heads|, plain.txs) + Remaining(|blob.heads|, blob.txs)
      {
        ghost var r;
        var more;
        more, r := TakeBest(plain, blob);
        if !more {
          break;
        }
        FillSnoc(c, f, rounds, r);
        rounds := rounds + [r];
      }
    }

    /** Builds the two queues of pending transactions and fills the block from them, if there are any. */
    method FillFrom(plainTxs: map<Address, seq<Lazy>>, blobTxs: map<Address, seq<Lazy>>)
      returns (ghost f: Filling, ghost rounds: seq<Round>)
      requires pool.gas <= MAX_U64 && BlobsFit(State()) && SizeFits(State())
      requires PoolOk(plainTxs) && PoolOk(blobTxs)
      modifies this, pool
      ensures f.b == old(State()) && Ordering.Fresh(f.plain, plainTxs, Some(env.baseFee))
      ensures Ordering.Fresh(f.blob, blobTxs, Some(env.baseFee))
      ensures Fair(Config(Some(env.baseFee)), f, rounds)
      ensures State() == Fill(Config(Some(env.baseFee)), f, rounds).b && Done(Fill(Config(Some(env.baseFee)), f, rounds))
      ensures pool.gas <= MAX_U64 && BlobsFit(State()) && SizeFits(State())
    {
      hide Fair, Fill, LaziesOk, BlobsFit, Ordering.Fresh, HeapFrom, Remaining, WithMinerFee;
      PoolGivesLazies(plainTxs, env);
      PoolGivesLazies(blobTxs, env);
      var plain := new TransactionsByPriceAndNonce(plainTxs, Some(env.baseFee));
      var blob := new TransactionsByPriceAndNonce(blobTxs, Some(env.baseFee));
      f, rounds := Filling(State(), plain.Contents(), blob.Contents()), [];
      NoRounds(Config(Some(env.baseFee)), f);
      if |plainTxs| > 0 || |blobTxs| > 0 {
        rounds := CommitTransactions(plain, blob);
      } else {
        FreshIsEmpty(f.plain, plainTxs, Some(env.baseFee));
        FreshIsEmpty(f.blob, blobTxs, Some(env.baseFee));
      }
    }

    /** Fills an empty block from the local accounts and then from the remote ones, each time until nothing is left to
        try. Whatever was tried on the way, the validator that processes the included transactions gets the builder's
        state, gas and receipts. */
    method FillTransactions(parent: World, gasLimit: nat, pending: seq<map<Address, seq<Lazy>>>)
      returns (ghost h: History, ghost queues: seq<Queue>)
      requires State() == EmptyBlock(parent, pool.gas) && pool.gas <= gasLimit && pool.gas <= MAX_U64
      requires |pending| == 4 && DistinctHashes(pending)
      requires forall q :: 0 <= q < 4 ==> PoolOk(pending[q])
      modifies this, pool
      ensures State() == CommitAll(env, evm, checker, old(State()), h.tries) && Distinct(h.tries)
      ensures ApplyAll(env, evm, results, Processor.Run(parent, gasLimit, 0, []), txs)
              == Some(Processor.Run(state, pool.gas + (gasLimit - old(pool.gas)), used, receipts))
      ensures pool.gas + used == old(pool.gas) && |txs| == tcount && BlobsFit(State()) && SizeFits(State())
      ensures Exhausted(h, queues, pending, Some(env.baseFee), State())
    {
      hide Legal, Commit, Picked, CommitAll, Ordering.Fresh, PoolOk, DistinctHashes, Distinct, ApplyAll, Fair, Fill,
           Traces, Done, Merged;
      ghost var c := Config(Some(env.baseFee));
      ghost var f0, rounds0 := FillFrom(pending[0], pending[1]);
      ghost var h0 := FillTraced(c, f0, rounds0);
      ghost var f1, rounds1 := FillFrom(pending[2], pending[3]);
      ghost var h1 := FillTraced(c, f1, rounds1);
      h, queues := Merged(h0, h1), [f0.plain, f0.blob, f1.plain, f1.blob];
      BothDone(c, f0, Fill(c, f0, rounds0), h0, f1, Fill(c, f1, rounds1), h1, pending);
      PicksAreDistinct(pending, queues, h, Some(env.baseFee));
      Agreement(env, evm, checker, parent, old(pool.gas), gasLimit, h.tries);
    }

    method Advance(q: TransactionsByPriceAndNonce, shift: bool) returns (ghost op: Op)
      requires q.Valid() && |q.heads| > 0 && LaziesOk(q.Contents())
      modifies q
      ensures q.Valid() && LaziesOk(q.Contents())
      ensures op == if shift then Shift(old(q.heads)[0]) else Pop(old(q.heads)[0])
      ensures Best(old(q.Contents()), op.h)
      ensures q.Contents() == Step(old(q.Contents()), op, q.baseFee)
      ensures Remaining(|q.heads|, q.txs) < Remaining(|old(q.heads)|, old(q.txs))
    {
      hide LaziesOk, Best, HeapFrom, Remaining;
      if shift {
        op := Shift(q.heads[0]);
        StepKeepsLazies(q.Contents(), op, q.baseFee);
        q.Shift();
      } else {
        op := Pop(q.heads[0]);
        StepKeepsLazies(q.Contents(), op, q.baseFee);
        q.Pop();
      }
    }
  }

  lemma FreshIsEmpty(q: Queue, lists: map<Address, seq<Lazy>>, baseFee: Option<nat>)
    requires Ordering.Fresh(q, lists, baseFee) && |lists| == 0
    ensures q.heads == multiset{}
  {
    assert forall h :: q.heads[h] == 0;
  }

  /** Every pending list was worked through in order of profit, down to its last head, unless the gas ran out, or, for
      the blob lists, six blobs were in. */
  ghost predicate Exhausted(h: History, queues: seq<Queue>, lists: seq<map<Address, seq<Lazy>>>, baseFee: Option<nat>,
                            b: Building)
  {
    && |queues| == |lists| && |h.ops| == |lists|
    && forall q :: 0 <= q < |lists| ==>
         && Ordering.Fresh(queues[q], lists[q], baseFee) && Legal(queues[q], h.ops[q], baseFee)
         && (b.pool < 21000 || Ordering.Run(queues[q], h.ops[q], baseFee).heads == multiset{}
             || (q % 2 == 1 && b.blobs == 6))
  }

  lemma ClearedIsSmaller(heads: seq<Head>, txs: map<Address, seq<Lazy>>)
    ensures Remaining(0, map[]) <= Remaining(|heads|, txs) && LaziesOk(Queue(multiset([]), map[]))
  {
  }

  lemma HeadIsOk(heads: seq<Head>, txs: map<Address, seq<Lazy>>)
    requires |heads| > 0 && LaziesOk(Queue(multiset(heads), txs))
    ensures LazyOk(heads[0].tx)
  {
    assert heads[0] in multiset(heads);
  }

  lemma RootHasBestFee(h: seq<Head>)
    requires HeapFrom(h, |h|, 0)
    ensures |h| > 0 ==> forall g :: g in h ==> g.fees <= h[0].fees
  {
    forall g | g in h
      ensures g.fees <= h[0].fees
    {
      var k :| 0 <= k < |h| && h[k] == g;
      RootIsBest(h, k);
    }
  }

  lemma CommitCounts(env: Env, evm: Evm, checker: Checker, b: Building, t: Try)
    ensures var a := Commit(env, evm, checker, b, t); a.next.tcount == b.tcount + if a.error.None? then 1 else 0
  {
    hide Transition, ReceiptOf;
  }

  /** The pending lists of the pool: never empty, and consistent with what they resolve to. */
  ghost predicate PoolOk(lists: map<Address, seq<Lazy>>) {
    forall a :: a in lists ==> |lists[a]| > 0 && forall i :: 0 <= i < |lists[a]| ==> LazyOk(lists[a][i])
  }

  lemma PoolGivesLazies(lists: map<Address, seq<Lazy>>, env: Env)
    requires PoolOk(lists)
    ensures forall a :: a in lists ==> |lists[a]| > 0
    ensures forall q :: Ordering.Fresh(q, lists, Some(env.baseFee)) ==> LaziesOk(q)
  {
    forall q | Ordering.Fresh(q, lists, Some(env.baseFee))
      ensures LaziesOk(q)
    {
      forall h | h in q.heads
        ensures LazyOk(h.tx)
      {
        assert q.heads[h] == 1;
      }
    }
  }

  /** No two places of the pending lists hold a transaction of the same hash. */
  ghost predicate DistinctHashes(lists: seq<map<Address, seq<Lazy>>>) {
    forall q, a, i, q', a', i' ::
      (0 <= q < |lists| && a in lists[q] && 0 <= i < |lists[q][a]|
       && 0 <= q' < |lists| && a' in lists[q'] && 0 <= i' < |lists[q'][a']|
       && lists[q][a][i].hash == lists[q'][a'][i'].hash) ==> q == q' && a == a' && i == i'
  }

  function Merged(h0: History, h1: History): History {
    History(h0.ops + h1.ops, h0.tries + h1.tries,
            h0.picks + seq(|h1.picks|, k requires 0 <= k < |h1.picks| => Pick(|h0.ops| + h1.picks[k].queue, h1.picks[k].op)))
  }

  lemma MergedPicked(h0: History, h1: History)
    requires Picked(h0) && Picked(h1)
    ensures Picked(Merged(h0, h1))
  {
    var h := Merged(h0, h1);
    forall k | 0 <= k < |h.tries|
      ensures PickOk(h.picks[k], h.tries[k], h.ops)
    {
      if k < |h0.tries| {
        assert PickOk(h0.picks[k], h0.tries[k], h0.ops);
      } else {
        assert PickOk(h1.picks[k - |h0.tries|], h1.tries[k - |h0.tries|], h1.ops);
      }
    }
    forall k, l | 0 <= k < l < |h.picks|
      ensures h.picks[k] != h.picks[l]
    {
      if k < |h0.picks| {
        assert PickOk(h0.picks[k], h0.tries[k], h0.ops);
      }
    }
  }

  /** Two fillings, one after the other, both until nothing is left to try. */
  lemma BothDone(c: Builder, f0: Filling, g0: Filling, h0: History, f1: Filling, g1: Filling, h1: History,
                 lists: seq<map<Address, seq<Lazy>>>)
    requires Traces(h0, c, f0, g0) && Done(g0) && f1.b == g0.b && Traces(h1, c, f1, g1) && Done(g1)
    requires |lists| == 4 && Ordering.Fresh(f0.plain, lists[0], c.baseFee) && Ordering.Fresh(f0.blob, lists[1], c.baseFee)
    requires Ordering.Fresh(f1.plain, lists[2], c.baseFee) && Ordering.Fresh(f1.blob, lists[3], c.baseFee)
    ensures var h := Merged(h0, h1);
            && Picked(h) && g1.b == CommitAll(c.env, c.evm, c.checker, f0.b, h.tries)
            && Exhausted(h, [f0.plain, f0.blob, f1.plain, f1.blob], lists, c.baseFee, g1.b)
  {
    hide Picked, CommitAll, Ordering.Fresh, Legal, Ordering.Run;
    MergedPicked(h0, h1);
    CommitAllConcat(c.env, c.evm, c.checker, f0.b, h0.tries, h1.tries);
  }

  lemma {:induction false} CommitAllConcat(env: Env, evm: Evm, checker: Checker, b: Building, first: seq<Try>, second: seq<Try>)
    ensures CommitAll(env, evm, checker, b, first + second)
            == CommitAll(env, evm, checker, CommitAll(env, evm, checker, b, first), second)
    decreases |second|
  {
    hide Commit;
    if second == [] {
      assert first + second == first;
    } else {
      var n := |second| - 1;
      CommitAllConcat(env, evm, checker, b, first, second[..n]);
      CommitAllSnoc(env, evm, checker, b, first + second[..n], second[n]);
      assert first + second[..n] + [second[n]] == first + second;
    }
  }

  /** Attempts that come from different operations are on different transactions. */
  lemma PicksAreDistinct(lists: seq<map<Address, seq<Lazy>>>, queues: seq<Queue>, h: History, baseFee: Option<nat>)
    requires |lists| == |queues| && |queues| == |h.ops| && Picked(h) && DistinctHashes(lists)
    requires forall q :: 0 <= q < |lists| ==> PoolOk(lists[q]) && Ordering.Fresh(queues[q], lists[q], baseFee)
    requires forall q :: 0 <= q < |lists| ==> Legal(queues[q], h.ops[q], baseFee)
    ensures Distinct(h.tries)
  {
    hide Legal, Ordering.Fresh, DistinctHashes, PoolOk;
    forall k, l | 0 <= k < l < |h.tries|
      ensures h.tries[k].tx.hash != h.tries[l].tx.hash
    {
      var p, r := h.picks[k], h.picks[l];
      assert PickOk(p, h.tries[k], h.ops) && PickOk(r, h.tries[l], h.ops);
      TakesPosition(queues[p.queue], lists[p.queue], h.ops[p.queue], baseFee, p.op);
      TakesPosition(queues[r.queue], lists[r.queue], h.ops[r.queue], baseFee, r.op);
      var a, i := h.ops[p.queue][p.op].h.from, Position(h.ops[p.queue], p.op);
      var a', i' := h.ops[r.queue][r.op].h.from, Position(h.ops[r.queue], r.op);
      HashOfPlace(lists[p.queue], a, i, h.tries[k].tx);
      HashOfPlace(lists[r.queue], a', i', h.tries[l].tx);
      if p.queue == r.queue {
        if p.op < r.op {
          NoneTwice(queues[p.queue], lists[p.queue], h.ops[p.queue], baseFee, p.op, r.op);
        } else {
          NoneTwice(queues[p.queue], lists[p.queue], h.ops[p.queue], baseFee, r.op, p.op);
        }
      }
      DifferentPlaces(lists, p.queue, a, i, r.queue, a', i');
    }
  }

  lemma HashOfPlace(lists: map<Address, seq<Lazy>>, a: Address, i: nat, tx: Tx)
    requires PoolOk(lists) && a in lists && i < |lists[a]| && lists[a][i].tx == Some(tx)
    ensures tx.hash == lists[a][i].hash
  {
    assert LazyOk(lists[a][i]);
  }

  lemma DifferentPlaces(lists: seq<map<Address, seq<Lazy>>>, q: nat, a: Address, i: nat, q': nat, a': Address, i': nat)
    requires DistinctHashes(lists) && q < |lists| && a in lists[q] && i < |lists[q][a]|
    requires q' < |lists| && a' in lists[q'] && i' < |lists[q'][a']| && (q != q' || a != a' || i != i')
    ensures lists[q][a][i].hash != lists[q'][a'][i'].hash
  {
  }
}
