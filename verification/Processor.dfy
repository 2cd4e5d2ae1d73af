/** The validator's loop over the transactions of a block. */
module Processor {
  import opened Blocks
  import opened World
  import opened StateTransition

  datatype Receipt = Receipt(
    isBlob: bool, failed: bool, cumulativeGas: nat, txHash: nat, gasUsed: nat, blobGasUsed: nat, blobGasPrice: nat,
    created: Option<(Address, nat)>, logs: seq<Log>, index: nat)

  /** Verified predicate results by transaction hash, as the block header carries them. */
  type Results = map<nat, nat>

  datatype Run = Run(world: World, pool: nat, used: nat, receipts: seq<Receipt>)

  function Own(results: Results, tx: Tx): Predicates {
    if tx.hash in results then Some(results[tx.hash]) else None
  }

  function ReceiptOf(env: Env, tx: Tx, o: Outcome, cumulative: nat, index: nat): Receipt
    requires o.Applied?
  {
    Receipt(tx.isBlob, o.failed, cumulative, tx.hash, o.used,
            if tx.isBlob then BlobGas(tx) else 0, if tx.isBlob then env.blobBaseFee else 0,
            if tx.to.None? && tx.sender.Some? then Some((tx.sender.value, tx.nonce)) else None, o.logs, index)
  }

  function Apply(env: Env, evm: Evm, results: Results, s: Run, tx: Tx): Option<Run> {
    var r := Transition(env, evm, Own(results, tx), s.world, s.pool, tx);
    if r.outcome.Rejected? then None else
      var used := s.used + r.outcome.used;
      Some(Run(evm.finalise(r.world), r.pool, used,
               s.receipts + [ReceiptOf(env, tx, r.outcome, used, |s.receipts|)]))
  }

  /** All transactions in order; the first one that cannot be applied invalidates the block. */
  function ApplyAll(env: Env, evm: Evm, results: Results, s: Run, txs: seq<Tx>): Option<Run> {
    if txs == [] then Some(s) else
      var before := ApplyAll(env, evm, results, s, txs[..|txs| - 1]);
      if before.None? then None else Apply(env, evm, results, before.value, txs[|txs| - 1])
  }

  function AllLogs(receipts: seq<Receipt>): seq<Log> {
    if receipts == [] then [] else AllLogs(receipts[..|receipts| - 1]) + receipts[|receipts| - 1].logs
  }

  lemma {:induction false} FailureIsFinal(env: Env, evm: Evm, results: Results, s: Run, txs: seq<Tx>, n: nat)
    requires n <= |txs| && ApplyAll(env, evm, results, s, txs[..n]).None?
    ensures ApplyAll(env, evm, results, s, txs).None?
    decreases |txs|
  {
    if n == |txs| {
      assert txs[..n] == txs;
    } else {
      assert txs[..|txs| - 1][..n] == txs[..n];
      FailureIsFinal(env, evm, results, s, txs[..|txs| - 1], n);
    }
  }

  datatype Issue = Issued(receipt: Receipt) | Refused(why: Error)

  /** Applies one transaction and issues its receipt. */
  method ApplyTransaction(env: Env, evm: Evm, results: Results, pool: GasPool, world: World, used: nat, index: nat, tx: Tx)
    returns (world': World, used': nat, issue: Issue)
    requires Sized(tx) && pool.gas <= MAX_U64
    modifies pool
    ensures var r := Transition(env, evm, Own(results, tx), world, old(pool.gas), tx);
            && pool.gas == r.pool
            && if r.outcome.Rejected? then issue == Refused(r.outcome.why) && world' == r.world && used' == used
               else && world' == evm.finalise(r.world) && used' == used + r.outcome.used
                    && issue == Issued(ReceiptOf(env, tx, r.outcome, used', index))
  {
    hide Transition;
    world', used' := world, used;
    if tx.sender.None? {
      Unsigned(env, evm, Own(results, tx), world, pool.gas, tx);
      issue := Refused(BadSignature);
      return;
    }
    var st := new StateTransition(env, evm, Own(results, tx), tx, tx.sender.value, pool, world);
    var outcome := st.TransitionDb();
    world' := st.state;
    if outcome.Rejected? {
      issue := Refused(outcome.why);
      return;
    }
    world', used' := evm.finalise(world'), used + outcome.used;
    var blobGas, blobPrice, created := 0, 0, None;
    if tx.isBlob {
      blobGas, blobPrice := BlobGas(tx), env.blobBaseFee;
    }
    if tx.to.None? {
      created := Some((tx.sender.value, tx.nonce));
    }
    issue := Issued(Receipt(tx.isBlob, outcome.failed, used', tx.hash, outcome.used, blobGas, blobPrice, created,
                            outcome.logs, index));
  }

  lemma Unsigned(env: Env, evm: Evm, own: Predicates, w: World, pool: nat, tx: Tx)
    requires tx.sender.None?
    ensures Transition(env, evm, own, w, pool, tx) == Result(Rejected(BadSignature), w, pool)
  {
  }

  lemma ApplyNext(env: Env, evm: Evm, results: Results, s: Run, txs: seq<Tx>, i: nat)
    requires i < |txs| && ApplyAll(env, evm, results, s, txs[..i]).Some?
    ensures ApplyAll(env, evm, results, s, txs[..i + 1])
            == Apply(env, evm, results, ApplyAll(env, evm, results, s, txs[..i]).value, txs[i])
  {
    hide Apply;
    assert txs[..i + 1][..i] == txs[..i];
  }

  lemma ApplyAllLast(env: Env, evm: Evm, results: Results, s: Run, txs: seq<Tx>)
    requires txs != []
    ensures var before := ApplyAll(env, evm, results, s, txs[..|txs| - 1]);
            ApplyAll(env, evm, results, s, txs)
            == if before.None? then None else Apply(env, evm, results, before.value, txs[|txs| - 1])
  {
    hide Apply;
  }

  lemma EmptyRun(env: Env, evm: Evm, results: Results, s: Run)
    ensures ApplyAll(env, evm, results, s, []) == Some(s) && AllLogs([]) == []
  {
  }

  lemma AllLogsSnoc(receipts: seq<Receipt>, r: Receipt)
    ensures AllLogs(receipts + [r]) == AllLogs(receipts) + r.logs
  {
    assert (receipts + [r])[..|receipts|] == receipts;
  }

  /** The transaction loop of block processing. */
  method Process(env: Env, evm: Evm, results: Results, parent: World, gasLimit: nat, txs: seq<Tx>)
    returns (ok: bool, world: World, receipts: seq<Receipt>, logs: seq<Log>, used: nat)
    requires gasLimit <= MAX_U64 && forall i :: 0 <= i < |txs| ==> Sized(txs[i])
    ensures var r := ApplyAll(env, evm, results, Run(parent, gasLimit, 0, []), txs);
            && (ok <==> r.Some?)
            && (ok ==> && world == r.value.world && receipts == r.value.receipts && used == r.value.used
                       && logs == AllLogs(receipts))
  {
    hide Transition, Sized, Own, ReceiptOf, ApplyAll, AllLogs;
    EmptyRun(env, evm, results, Run(parent, gasLimit, 0, []));
    var pool := new GasPool(gasLimit);
    ghost var s0 := Run(parent, gasLimit, 0, []);
    world, receipts, logs, used := parent, [], [], 0;
    assert txs[..0] == [];
    for i := 0 to |txs|
      invariant fresh(pool) && ApplyAll(env, evm, results, s0, txs[..i]) == Some(Run(world, pool.gas, used, receipts))
      invariant |receipts| == i && logs == AllLogs(receipts) && pool.gas <= MAX_U64
    {
      ApplyNext(env, evm, results, s0, txs, i);
      GasConservation(env, evm, Own(results, txs[i]), world, pool.gas, txs[i]);
      var issue;
      world, used, issue := ApplyTransaction(env, evm, results, pool, world, used, i, txs[i]);
      if issue.Refused? {
        FailureIsFinal(env, evm, results, s0, txs, i + 1);
        return false, world, receipts, logs, used;
      }
      AllLogsSnoc(receipts, issue.receipt);
      receipts, logs := receipts + [issue.receipt], logs + issue.receipt.logs;
    }
    assert txs[..|txs|] == txs;
    ok := true;
  }

  function IntrinsicSum(env: Env, txs: seq<Tx>): nat {
    if txs == [] then 0 else IntrinsicSum(env, txs[..|txs| - 1]) + Intrinsic(txs[|txs| - 1], env.rules)
  }

  function GasSum(receipts: seq<Receipt>): nat {
    if receipts == [] then 0 else GasSum(receipts[..|receipts| - 1]) + receipts[|receipts| - 1].gasUsed
  }

  /** Over a whole block, the pool gives up exactly the gas used, and every transaction uses its intrinsic gas. */
  lemma {:induction false} BlockGas(env: Env, evm: Evm, results: Results, s: Run, txs: seq<Tx>)
    requires ApplyAll(env, evm, results, s, txs).Some?
    ensures var t := ApplyAll(env, evm, results, s, txs).value;
            t.pool + t.used == s.pool + s.used && t.used >= s.used + IntrinsicSum(env, txs)
    decreases |txs|
  {
    if txs != [] {
      hide Transition, Intrinsic, ReceiptOf, Own;
      BlockGas(env, evm, results, s, txs[..|txs| - 1]);
      var before := ApplyAll(env, evm, results, s, txs[..|txs| - 1]).value;
      var tx := txs[|txs| - 1];
      GasConservation(env, evm, Own(results, tx), before.world, before.pool, tx);
    }
  }

  /** The last transaction of an applied block, and the receipt it adds. */
  lemma LastApplied(env: Env, evm: Evm, results: Results, s: Run, txs: seq<Tx>)
    requires txs != [] && ApplyAll(env, evm, results, s, txs).Some?
    ensures ApplyAll(env, evm, results, s, txs[..|txs| - 1]).Some?
    ensures var before := ApplyAll(env, evm, results, s, txs[..|txs| - 1]).value;
            var t := ApplyAll(env, evm, results, s, txs).value;
            var tx := txs[|txs| - 1];
            var o := Transition(env, evm, Own(results, tx), before.world, before.pool, tx).outcome;
            && o.Applied? && t.used == before.used + o.used
            && |t.receipts| == |before.receipts| + 1 && t.receipts[..|before.receipts|] == before.receipts
            && t.receipts[|before.receipts|] == ReceiptOf(env, tx, o, t.used, |before.receipts|)
  {
    hide Transition, ReceiptOf, Own;
  }

  /** Receipt `i` carries the hash and position of its transaction and the gas used so far. */
  predicate ReceiptFits(receipts: seq<Receipt>, txs: seq<Tx>, i: nat)
    requires i < |receipts| && i < |txs|
  {
    receipts[i].txHash == txs[i].hash && receipts[i].index == i && receipts[i].cumulativeGas == GasSum(receipts[..i + 1])
  }

  predicate AllFit(receipts: seq<Receipt>, txs: seq<Tx>) {
    |receipts| == |txs| && forall i :: 0 <= i < |txs| ==> ReceiptFits(receipts, txs, i)
  }

  /** One more receipt that fits, after receipts that all fit. */
  lemma {:induction false} OneMoreFits(receipts: seq<Receipt>, txs: seq<Tx>)
    requires |receipts| == |txs| && |txs| > 0
    requires AllFit(receipts[..|txs| - 1], txs[..|txs| - 1])
    requires receipts[|txs| - 1].txHash == txs[|txs| - 1].hash && receipts[|txs| - 1].index == |txs| - 1
    requires receipts[|txs| - 1].cumulativeGas == GasSum(receipts)
    ensures AllFit(receipts, txs)
  {
    hide GasSum;
    var n := |txs| - 1;
    forall i | 0 <= i < |txs|
      ensures ReceiptFits(receipts, txs, i)
    {
      if i < n {
        assert ReceiptFits(receipts[..n], txs[..n], i);
        assert receipts[..n][..i + 1] == receipts[..i + 1];
      } else {
        assert receipts[..i + 1] == receipts;
      }
    }
  }

  /** Receipts carry their transaction's hash and position, and their cumulative gas is the sum of the gas so far. */
  lemma {:induction false} ReceiptsAddUp(env: Env, evm: Evm, results: Results, s: Run, txs: seq<Tx>)
    requires s.receipts == [] && s.used == 0 && ApplyAll(env, evm, results, s, txs).Some?
    ensures var t := ApplyAll(env, evm, results, s, txs).value;
            AllFit(t.receipts, txs) && t.used == GasSum(t.receipts)
    decreases |txs|
  {
    if txs != [] {
      hide Transition, Own, ApplyAll, ReceiptFits;
      var n := |txs| - 1;
      LastApplied(env, evm, results, s, txs);
      ReceiptsAddUp(env, evm, results, s, txs[..n]);
      OneMoreFits(ApplyAll(env, evm, results, s, txs).value.receipts, txs);
    } else {
      EmptyRun(env, evm, results, s);
    }
  }

  lemma ApplyKeepsSupply(env: Env, evm: Evm, results: Results, s: Run, tx: Tx)
    requires Total(s.world) < U256 && Apply(env, evm, results, s, tx).Some?
    ensures Total(Apply(env, evm, results, s, tx).value.world) <= Total(s.world)
  {
    hide Transition, ReceiptOf, Total;
    SupplyNeverGrows(env, evm, Own(results, tx), s.world, s.pool, tx);
  }

  lemma {:induction false} BlockKeepsSupply(env: Env, evm: Evm, results: Results, s: Run, txs: seq<Tx>)
    requires Total(s.world) < U256 && ApplyAll(env, evm, results, s, txs).Some?
    ensures Total(ApplyAll(env, evm, results, s, txs).value.world) <= Total(s.world)
    decreases |txs|
  {
    if txs != [] {
      hide Apply, Total;
      BlockKeepsSupply(env, evm, results, s, txs[..|txs| - 1]);
      ApplyKeepsSupply(env, evm, results, ApplyAll(env, evm, results, s, txs[..|txs| - 1]).value, txs[|txs| - 1]);
    }
  }

  /** An EVM that destroys no ether. */
  ghost predicate Conserving(evm: Evm) {
    && (forall w, tx, gas: nat, own :: Total(evm.run(w, tx, gas, own).world) == Total(w))
    && (forall w :: Total(evm.finalise(w)) == Total(w))
  }

  function BlobFees(env: Env, txs: seq<Tx>): nat {
    if txs == [] then 0 else BlobFees(env, txs[..|txs| - 1]) + BlobFee(txs[|txs| - 1], env)
  }

  /** Wei conservation over a block: what leaves the supply is exactly the blob fees. */
  lemma {:induction false} BlockConservation(env: Env, evm: Evm, results: Results, s: Run, txs: seq<Tx>)
    requires Total(s.world) < U256 && Conserving(evm) && ApplyAll(env, evm, results, s, txs).Some?
    ensures Total(ApplyAll(env, evm, results, s, txs).value.world) + BlobFees(env, txs) == Total(s.world)
    decreases |txs|
  {
    if txs != [] {
      hide Transition, ReceiptOf, Total, BlobFee, EvmInput;
      var before := ApplyAll(env, evm, results, s, txs[..|txs| - 1]).value;
      var tx := txs[|txs| - 1];
      BlockKeepsSupply(env, evm, results, s, txs[..|txs| - 1]);
      BlockConservation(env, evm, results, s, txs[..|txs| - 1]);
      Conservation(env, evm, Own(results, tx), before.world, before.pool, tx);
    }
  }

  /** What the transitions of a block credit to the coinbase, one transaction after the other. */
  function Credits(env: Env, evm: Evm, results: Results, s: Run, txs: seq<Tx>): int
    requires ApplyAll(env, evm, results, s, txs).Some?
  {
    if txs == [] then 0 else
      var before := ApplyAll(env, evm, results, s, txs[..|txs| - 1]).value;
      var tx := txs[|txs| - 1];
      Credits(env, evm, results, s, txs[..|txs| - 1])
      + CoinbaseCredit(env, evm, Own(results, tx), before.world, before.pool, tx)
  }

  lemma CreditsLast(env: Env, evm: Evm, results: Results, s: Run, txs: seq<Tx>)
    requires txs != [] && ApplyAll(env, evm, results, s, txs).Some?
    ensures ApplyAll(env, evm, results, s, txs[..|txs| - 1]).Some?
    ensures var before := ApplyAll(env, evm, results, s, txs[..|txs| - 1]).value;
            var tx := txs[|txs| - 1];
            && Transition(env, evm, Own(results, tx), before.world, before.pool, tx).outcome.Applied?
            && Credits(env, evm, results, s, txs) == Credits(env, evm, results, s, txs[..|txs| - 1])
               + CoinbaseCredit(env, evm, Own(results, tx), before.world, before.pool, tx)
  {
    hide Transition, CoinbaseCredit, Own;
  }

  /** The fees computed from the receipts; a block without a base fee pays the gas price, which is the fee cap. */
  function Fees(baseFee: Option<nat>, txs: seq<Tx>, receipts: seq<Receipt>): int
    requires |txs| == |receipts|
  {
    if txs == [] then 0 else
      var n := |txs| - 1;
      Fees(baseFee, txs[..n], receipts[..n])
      + if baseFee.Some? then MinerFee(txs[n], baseFee.value, receipts[n].gasUsed) else receipts[n].gasUsed * txs[n].feeCap
  }

  /** The fees that the block builder reports. */
  method TotalFees(baseFee: Option<nat>, txs: seq<Tx>, receipts: seq<Receipt>) returns (fees: int)
    requires |txs| == |receipts|
    ensures fees == Fees(baseFee, txs, receipts)
  {
    fees := 0;
    for i := 0 to |txs|
      invariant fees == Fees(baseFee, txs[..i], receipts[..i])
    {
      assert txs[..i + 1][..i] == txs[..i] && receipts[..i + 1][..i] == receipts[..i];
      var minerFee := if baseFee.Some? then baseFee.value + EffectiveTip(txs[i], baseFee.value) else txs[i].feeCap;
      fees := fees + receipts[i].gasUsed * minerFee;
    }
    assert txs[..|txs|] == txs && receipts[..|txs|] == receipts;
  }

  /** Over a block, the credits to the coinbase sum to the total fees computed from the receipts. */
  lemma {:induction false} CreditsAreFees(env: Env, evm: Evm, results: Results, s: Run, txs: seq<Tx>)
    requires s.receipts == [] && Total(s.world) < U256 && ApplyAll(env, evm, results, s, txs).Some?
    ensures var t := ApplyAll(env, evm, results, s, txs).value;
            |t.receipts| == |txs| && Credits(env, evm, results, s, txs) == Fees(Some(env.baseFee), txs, t.receipts)
    decreases |txs|
  {
    if txs != [] {
      hide Transition, Total, Own, ApplyAll, CoinbaseCredit, MinerFee, Credits;
      var n := |txs| - 1;
      LastApplied(env, evm, results, s, txs);
      CreditsAreFees(env, evm, results, s, txs[..n]);
      BlockKeepsSupply(env, evm, results, s, txs[..n]);
      var before := ApplyAll(env, evm, results, s, txs[..n]).value;
      CreditIsMinerFee(env, evm, Own(results, txs[n]), before.world, before.pool, txs[n]);
      CreditsLast(env, evm, results, s, txs);
    } else {
      EmptyRun(env, evm, results, s);
    }
  }

  /** The first `n` transactions of an applied block apply as well, and their receipts come first. */
  lemma {:induction false} PrefixApplies(env: Env, evm: Evm, results: Results, s: Run, txs: seq<Tx>, n: nat)
    requires n <= |txs| && s.receipts == [] && ApplyAll(env, evm, results, s, txs).Some?
    ensures ApplyAll(env, evm, results, s, txs[..n]).Some?
    ensures var t := ApplyAll(env, evm, results, s, txs).value;
            |t.receipts| == |txs| && ApplyAll(env, evm, results, s, txs[..n]).value.receipts == t.receipts[..n]
    decreases |txs|
  {
    hide Transition, Own, ReceiptOf, ApplyAll;
    if txs == [] {
      EmptyRun(env, evm, results, s);
      assert txs[..n] == txs;
    } else {
      var last := |txs| - 1;
      LastApplied(env, evm, results, s, txs);
      PrefixApplies(env, evm, results, s, txs[..last], if n < last then n else last);
      if n <= last {
        assert txs[..last][..n] == txs[..n];
      } else {
        assert txs[..n] == txs;
      }
    }
  }

  /** The state in which transaction `i` of a block is executed. */
  function StateBefore(env: Env, evm: Evm, results: Results, s: Run, txs: seq<Tx>, i: nat): World
    requires i <= |txs| && ApplyAll(env, evm, results, s, txs[..i]).Some?
  {
    ApplyAll(env, evm, results, s, txs[..i]).value.world
  }

  /** What the EVM itself returns for a transaction, on its own predicate results. */
  function EvmResult(env: Env, evm: Evm, results: Results, w: World, tx: Tx): Exec
    requires tx.sender.Some? && Intrinsic(tx, env.rules) <= tx.gas
  {
    evm.run(EvmInput(env, w, tx), tx, tx.gas - Intrinsic(tx, env.rules),
            if tx.hash in results then Some(results[tx.hash]) else None)
  }

  /** A receipt tells what the EVM did with its transaction. */
  predicate ReceiptTells(r: Receipt, env: Env, tx: Tx, x: Exec) {
    && tx.sender.Some? && r.txHash == tx.hash && r.isBlob == tx.isBlob
    && r.failed == x.failed && r.logs == x.logs && r.gasUsed == tx.gas - x.gasLeft
    && r.blobGasUsed == (if tx.isBlob then 131072 * BlobCount(tx) else 0)
    && r.blobGasPrice == (if tx.isBlob then env.blobBaseFee else 0)
    && (r.created.Some? <==> tx.to.None?) && (tx.to.None? ==> r.created.value == (tx.sender.value, tx.nonce))
  }

  lemma AppliedTells(env: Env, evm: Evm, results: Results, w: World, pool: nat, tx: Tx, cumulative: nat, index: nat)
    requires Transition(env, evm, Own(results, tx), w, pool, tx).outcome.Applied?
    ensures tx.sender.Some? && Intrinsic(tx, env.rules) <= tx.gas
    ensures var o := Transition(env, evm, Own(results, tx), w, pool, tx).outcome;
            ReceiptTells(ReceiptOf(env, tx, o, cumulative, index), env, tx, EvmResult(env, evm, results, w, tx))
  {
    hide PreCheckError, BuyError, AfterBuying, AfterExec, Intrinsic;
  }

  /** Receipt `i` of a block tells what the EVM did with transaction `i` on the state that the first `i` transactions left:
      its status, logs and gas are the EVM's, its blob gas and creation address the transaction's. */
  lemma ReceiptsTellTruth(env: Env, evm: Evm, results: Results, s: Run, txs: seq<Tx>, i: nat)
    requires i < |txs| && s.receipts == [] && ApplyAll(env, evm, results, s, txs).Some?
    ensures ApplyAll(env, evm, results, s, txs[..i]).Some? && |ApplyAll(env, evm, results, s, txs).value.receipts| == |txs|
    ensures txs[i].sender.Some? && Intrinsic(txs[i], env.rules) <= txs[i].gas
    ensures ReceiptTells(ApplyAll(env, evm, results, s, txs).value.receipts[i], env, txs[i],
                         EvmResult(env, evm, results, StateBefore(env, evm, results, s, txs, i), txs[i]))
  {
    hide Transition, Own, ReceiptOf, ApplyAll, EvmResult, ReceiptTells, Intrinsic;
    PrefixApplies(env, evm, results, s, txs, i);
    PrefixApplies(env, evm, results, s, txs, i + 1);
    assert txs[..i + 1][..i] == txs[..i];
    LastApplied(env, evm, results, s, txs[..i + 1]);
    var before := ApplyAll(env, evm, results, s, txs[..i]).value;
    var after := ApplyAll(env, evm, results, s, txs[..i + 1]).value;
    AppliedTells(env, evm, results, before.world, before.pool, txs[i], after.used, |before.receipts|);
    assert |before.receipts| == i;
  }

  /** Between transactions the state is always finalised. */
  lemma StatesAreFinalised(env: Env, evm: Evm, results: Results, s: Run, txs: seq<Tx>)
    requires txs != [] && ApplyAll(env, evm, results, s, txs).Some?
    ensures exists w :: ApplyAll(env, evm, results, s, txs).value.world == evm.finalise(w)
  {
    hide Transition, Own, ReceiptOf;
    ApplyAllLast(env, evm, results, s, txs);
  }

  lemma ApplyUsesNonce(env: Env, evm: Evm, results: Results, s: Run, tx: Tx, a: Address)
    requires KeepsNonce(evm, a) && Apply(env, evm, results, s, tx).Some?
    ensures var t := Apply(env, evm, results, s, tx).value;
            && Nonce(t.world, a) >= Nonce(s.world, a)
            && (tx.sender == Some(a) ==> Nonce(s.world, a) == tx.nonce && Nonce(t.world, a) > tx.nonce)
  {
    hide Transition, ReceiptOf, Own, Nonce;
    NonceIsUsed(env, evm, Own(results, tx), s.world, s.pool, tx, a);
  }

  /** Over a block the nonce of an account never falls. */
  lemma {:induction false} NoncesGrow(env: Env, evm: Evm, results: Results, s: Run, txs: seq<Tx>, i: nat, a: Address)
    requires i <= |txs| && s.receipts == [] && KeepsNonce(evm, a) && ApplyAll(env, evm, results, s, txs).Some?
    ensures ApplyAll(env, evm, results, s, txs[..i]).Some?
    ensures var w, v := StateBefore(env, evm, results, s, txs, i), ApplyAll(env, evm, results, s, txs).value.world;
            && Nonce(v, a) >= Nonce(w, a)
            && (i < |txs| && txs[i].sender == Some(a) ==> Nonce(w, a) == txs[i].nonce && Nonce(v, a) > txs[i].nonce)
    decreases |txs| - i
  {
    hide Apply, ApplyAll, Nonce, KeepsNonce;
    PrefixApplies(env, evm, results, s, txs, i);
    if i == |txs| {
      assert txs[..i] == txs;
    } else {
      PrefixApplies(env, evm, results, s, txs, i + 1);
      ApplyNext(env, evm, results, s, txs, i);
      ApplyUsesNonce(env, evm, results, ApplyAll(env, evm, results, s, txs[..i]).value, txs[i], a);
      NoncesGrow(env, evm, results, s, txs, i + 1, a);
    }
  }

  /** No replay: a transaction applied in a block is refused with a low nonce at every later place of it; in particular
      the transactions of one sender have increasing nonces. */
  lemma NoReplay(env: Env, evm: Evm, results: Results, s: Run, txs: seq<Tx>, i: nat, j: nat, own: Predicates, pool: nat)
    requires i < j <= |txs| && s.receipts == [] && ApplyAll(env, evm, results, s, txs).Some? && txs[i].sender.Some?
    requires KeepsNonce(evm, txs[i].sender.value)
    ensures ApplyAll(env, evm, results, s, txs[..j]).Some?
    ensures Transition(env, evm, own, StateBefore(env, evm, results, s, txs, j), pool, txs[i]).outcome == Rejected(NonceTooLow)
    ensures j < |txs| && txs[j].sender == txs[i].sender ==> txs[i].nonce < txs[j].nonce
  {
    hide ApplyAll, KeepsNonce;
    var a := txs[i].sender.value;
    PrefixApplies(env, evm, results, s, txs, j);
    assert txs[..j][..i] == txs[..i];
    NoncesGrow(env, evm, results, s, txs[..j], i, a);
    if j < |txs| {
      NoncesGrow(env, evm, results, s, txs, j, a);
    }
  }
}
