/** Applying one transaction: checks, buying gas, execution, refund and the coinbase payment. The EVM is an
    arbitrary function that returns no more gas than it was given and creates no ether. */
module StateTransition {
  import opened Arith
  import opened Blocks
  import opened Bytes
  import opened World
  import IG = IntrinsicGas

  const BLOB_GAS: nat := 131072
  const MAX_INIT_CODE: nat := 49152

  datatype Error =
    | BadSignature | NonceTooHigh | NonceTooLow | NonceMax | SenderNoEOA
    | FeeCapVeryHigh | TipVeryHigh | TipAboveFeeCap | FeeCapTooLow
    | BlobTxCreate | MissingBlobHashes | InvalidBlobHash | BlobFeeCapTooLow
    | InsufficientFunds | GasLimitReached | NoIntrinsicGas | IntrinsicGasTooHigh
    | InsufficientFundsForTransfer | InitCodeTooLarge | PriceOverflow

  /** `blobs` lists the blob hashes, each reduced to whether its version is valid; `None` is the absent list. */
  datatype Tx = Tx(
    hash: nat, isBlob: bool, sender: Option<Address>, to: Option<Address>, nonce: nat, value: nat, gas: nat,
    feeCap: nat, tipCap: nat, data: seq<byte>, accessList: IG.AccessList,
    blobs: Option<seq<bool>>, blobFeeCap: nat, size: nat)

  datatype Env = Env(baseFee: nat, blobBaseFee: nat, coinbase: Address, rules: IG.Rules)

  datatype Exec = Exec(world: World, gasLeft: nat, failed: bool, logs: seq<Log>)

  /** The result of predicate verification for one transaction, as precompiles see it. */
  type Predicates = Option<nat>

  datatype Machine = Machine(run: (World, Tx, nat, Predicates) -> Exec, finalise: World -> World)

  ghost predicate MachineOk(m: Machine) {
    && (forall w, tx, gas, own ::
          m.run(w, tx, gas, own).gasLeft <= gas && Total(m.run(w, tx, gas, own).world) <= Total(w))
    && (forall w :: Total(m.finalise(w)) <= Total(w))
  }

  type Evm = m: Machine | MachineOk(m) ghost witness 
    Machine((w: World, tx: Tx, gas: nat, own: Predicates) => Exec(w, gas, false, []), w => w)

  datatype Outcome = Applied(used: nat, failed: bool, logs: seq<Log>) | Rejected(why: Error)

  /** The outcome together with the state and the pool that are left behind, also after an error. */
  datatype Result = Result(outcome: Outcome, world: World, pool: nat)

  /** The sizes that 64-bit fields and memory allow. */
  predicate Sized(tx: Tx) {
    tx.gas <= MAX_U64 && tx.nonce <= MAX_U64 && IG.FitsMemory(tx.data, tx.accessList)
  }

  /** The effective gas price of a transaction under a base fee. */
  function GasPrice(tx: Tx, env: Env): nat {
    if tx.tipCap + env.baseFee > tx.feeCap then tx.feeCap else tx.tipCap + env.baseFee
  }

  function BlobCount(tx: Tx): nat {
    if tx.blobs.Some? then |tx.blobs.value| else 0
  }

  function BlobGas(tx: Tx): nat {
    BlobCount(tx) * BLOB_GAS
  }

  function BlobFee(tx: Tx, env: Env): nat {
    if env.rules.isCancun then BlobGas(tx) * env.blobBaseFee else 0
  }

  /** What the sender must own before its gas is bought. */
  function RequiredFunds(tx: Tx, env: Env): nat {
    tx.gas * tx.feeCap + tx.value + if env.rules.isCancun then BlobGas(tx) * tx.blobFeeCap else 0
  }

  /** What is taken from the sender before execution. */
  function UpFront(tx: Tx, env: Env): nat {
    tx.gas * GasPrice(tx, env) + BlobFee(tx, env)
  }

  function PreCheckError(w: World, env: Env, tx: Tx, from: Address): Option<Error> {
    var nonce := Nonce(w, from);
    if nonce < tx.nonce then Some(NonceTooHigh)
    else if nonce > tx.nonce then Some(NonceTooLow)
    else if nonce >= MAX_U64 then Some(NonceMax)
    else if from in w.contracts then Some(SenderNoEOA)
    else if tx.feeCap >= U256 then Some(FeeCapVeryHigh)
    else if tx.tipCap >= U256 then Some(TipVeryHigh)
    else if tx.feeCap < tx.tipCap then Some(TipAboveFeeCap)
    else if tx.feeCap < env.baseFee then Some(FeeCapTooLow)
    else if tx.blobs.Some? && tx.to.None? then Some(BlobTxCreate)
    else if tx.blobs.Some? && tx.blobs.value == [] then Some(MissingBlobHashes)
    else if tx.blobs.Some? && false in tx.blobs.value then Some(InvalidBlobHash)
    else if env.rules.isCancun && BlobGas(tx) > 0 && tx.blobFeeCap < env.blobBaseFee then Some(BlobFeeCapTooLow)
    else None
  }

  function BuyError(w: World, env: Env, tx: Tx, from: Address, pool: nat): Option<Error> {
    if RequiredFunds(tx, env) >= U256 || Balance(w, from) < RequiredFunds(tx, env) then Some(InsufficientFunds)
    else if pool < tx.gas then Some(GasLimitReached)
    else None
  }

  function Intrinsic(tx: Tx, rules: IG.Rules): nat {
    IG.ChargedGas(tx.data, tx.accessList, tx.to.None?, rules)
  }

  predicate IntrinsicFails(tx: Tx, rules: IG.Rules) {
    Intrinsic(tx, rules) > MAX_U64 || (tx.accessList.List? && IG.AnyRefused(tx.accessList.tuples, rules))
  }

  function AfterBuying(w: World, env: Env, tx: Tx, from: Address): World {
    SubBalance(w, from, Truncate(UpFront(tx, env)))
  }

  /** Why a transaction that passed the checks and bought its gas is still refused. */
  function LateError(bought: World, env: Env, tx: Tx, from: Address): Option<Error> {
    if IntrinsicFails(tx, env.rules) then Some(NoIntrinsicGas)
    else if tx.gas < Intrinsic(tx, env.rules) then Some(IntrinsicGasTooHigh)
    else if tx.value >= U256 || (tx.value > 0 && Balance(bought, from) < tx.value) then Some(InsufficientFundsForTransfer)
    else if env.rules.isShanghai && tx.to.None? && |tx.data| > MAX_INIT_CODE then Some(InitCodeTooLarge)
    else None
  }

  /** A call raises the nonce before the EVM starts; a creation leaves that to the EVM. */
  function BeforeExec(bought: World, tx: Tx, from: Address): World {
    if tx.to.None? then bought else bought.(nonces := bought.nonces[from := Nonce(bought, from) + 1])
  }

  /** What an amount of gas is worth at the price the transaction pays, in 256 bits. */
  function Worth(env: Env, tx: Tx, gas: nat): nat {
    Truncate(gas * GasPrice(tx, env))
  }

  function Refunded(x: World, env: Env, tx: Tx, from: Address, gasLeft: nat): World {
    AddBalance(x, from, Worth(env, tx, gasLeft))
  }

  /** The state after refunding the unused gas and paying the coinbase for the rest. */
  function AfterExec(x: World, env: Env, tx: Tx, from: Address, gasLeft: nat): World
    requires gasLeft <= tx.gas
  {
    AddBalance(Refunded(x, env, tx, from, gasLeft), env.coinbase, Worth(env, tx, tx.gas - gasLeft))
  }

  /** Execution and settlement, from the state and the pool after buying gas. */
  function Executed(env: Env, evm: Evm, own: Predicates, bought: World, pool: nat, tx: Tx, from: Address): Result
    requires Intrinsic(tx, env.rules) <= tx.gas
  {
    var x := evm.run(BeforeExec(bought, tx, from), tx, tx.gas - Intrinsic(tx, env.rules), own);
    if GasPrice(tx, env) >= U256 then Result(Rejected(PriceOverflow), x.world, pool) else
      Result(Applied(tx.gas - x.gasLeft, x.failed, x.logs),
             AfterExec(x.world, env, tx, from, x.gasLeft),
             pool + x.gasLeft)
  }

  /** The whole transition. An error after the gas was bought leaves the payment and the smaller pool behind. */
  function Transition(env: Env, evm: Evm, own: Predicates, w: World, pool: nat, tx: Tx): Result {
    if tx.sender.None? then Result(Rejected(BadSignature), w, pool) else
      var from := tx.sender.value;
      var early := PreCheckError(w, env, tx, from);
      if early.Some? then Result(Rejected(early.value), w, pool) else
        var poor := BuyError(w, env, tx, from, pool);
        if poor.Some? then Result(Rejected(poor.value), w, pool) else
          var bought := AfterBuying(w, env, tx, from);
          var late := LateError(bought, env, tx, from);
          if late.Some? then Result(Rejected(late.value), bought, pool - tx.gas) else
            Executed(env, evm, own, bought, pool - tx.gas, tx, from)
  }

  /** The state the EVM is given and the one it returns, for a transaction that is applied. */
  function EvmInput(env: Env, w: World, tx: Tx): World
    requires tx.sender.Some?
  {
    BeforeExec(AfterBuying(w, env, tx, tx.sender.value), tx, tx.sender.value)
  }

  function EvmOutput(env: Env, evm: Evm, own: Predicates, w: World, tx: Tx): World
    requires tx.sender.Some? && Intrinsic(tx, env.rules) <= tx.gas
  {
    evm.run(EvmInput(env, w, tx), tx, tx.gas - Intrinsic(tx, env.rules), own).world
  }

  /** A sender that passes the checks owns the payment and, on top of it, the value it sends. */
  lemma FundsCoverPayment(w: World, env: Env, tx: Tx, from: Address, pool: nat)
    requires PreCheckError(w, env, tx, from).None? && BuyError(w, env, tx, from, pool).None?
    ensures UpFront(tx, env) + tx.value <= Balance(w, from)
    ensures UpFront(tx, env) + tx.value < U256
    ensures GasPrice(tx, env) < U256
  {
    MulMonotone(GasPrice(tx, env), tx.feeCap, tx.gas);
    if env.rules.isCancun && BlobGas(tx) > 0 {
      MulMonotone(env.blobBaseFee, tx.blobFeeCap, BlobGas(tx));
    }
  }

  /** Buying gas never wraps around, and the transfer check that follows cannot fail. */
  lemma BuyingIsExact(w: World, env: Env, tx: Tx, from: Address, pool: nat)
    requires Total(w) < U256
    requires PreCheckError(w, env, tx, from).None? && BuyError(w, env, tx, from, pool).None?
    ensures Total(AfterBuying(w, env, tx, from)) == Total(w) - UpFront(tx, env)
    ensures LateError(AfterBuying(w, env, tx, from), env, tx, from) != Some(InsufficientFundsForTransfer)
  {
    hide SubBalance, PreCheckError, BuyError, UpFront, Truncate, IntrinsicFails, Intrinsic, Total;
    FundsCoverPayment(w, env, tx, from, pool);
    SubExact(w, from, UpFront(tx, env));
  }

  lemma SplitFee(gas: nat, left: nat, price: nat)
    requires left <= gas
    ensures left * price + (gas - left) * price == gas * price
    ensures left * price <= gas * price && (gas - left) * price <= gas * price
  {
    MulMonotone(left, gas, price);
  }

  /** Refund and coinbase payment together give back exactly what was paid for the gas. */
  lemma PayingIsExact(x: World, env: Env, tx: Tx, from: Address, gasLeft: nat)
    requires gasLeft <= tx.gas && Total(x) + tx.gas * GasPrice(tx, env) < U256
    ensures Total(AfterExec(x, env, tx, from, gasLeft)) == Total(x) + tx.gas * GasPrice(tx, env)
    ensures Worth(env, tx, tx.gas - gasLeft) == (tx.gas - gasLeft) * GasPrice(tx, env)
  {
    hide AddBalance, GasPrice, Truncate, Total;
    var price := GasPrice(tx, env);
    SplitFee(tx.gas, gasLeft, price);
    AddExact(x, from, gasLeft * price);
    AddExact(AddBalance(x, from, gasLeft * price), env.coinbase, (tx.gas - gasLeft) * price);
  }

  lemma SameBalances(w: World, v: World)
    requires w.balances == v.balances
    ensures Total(w) == Total(v)
  {
  }

  /** Wei conservation: an applied transaction destroys the blob fee and what the EVM destroys, and nothing else. */
  lemma Conservation(env: Env, evm: Evm, own: Predicates, w: World, pool: nat, tx: Tx)
    requires Total(w) < U256 && Transition(env, evm, own, w, pool, tx).outcome.Applied?
    ensures tx.sender.Some? && Intrinsic(tx, env.rules) <= tx.gas
    ensures BlobFee(tx, env) == (if env.rules.isCancun then BlobCount(tx) * 131072 * env.blobBaseFee else 0)
    ensures Total(Transition(env, evm, own, w, pool, tx).world) + BlobFee(tx, env)
            + (Total(EvmInput(env, w, tx)) - Total(EvmOutput(env, evm, own, w, tx))) == Total(w)
    ensures Total(EvmOutput(env, evm, own, w, tx)) <= Total(EvmInput(env, w, tx))
  {
    hide PreCheckError, BuyError, LateError, AfterBuying, AfterExec, GasPrice, Total, Worth;
    var from := tx.sender.value;
    BuyingIsExact(w, env, tx, from, pool);
    var bought := AfterBuying(w, env, tx, from);
    SameBalances(bought, BeforeExec(bought, tx, from));
    IntrinsicPaid(bought, env, tx, from);
    var x := evm.run(EvmInput(env, w, tx), tx, tx.gas - Intrinsic(tx, env.rules), own);
    PayingIsExact(x.world, env, tx, from, x.gasLeft);
  }

  lemma IntrinsicPaid(bought: World, env: Env, tx: Tx, from: Address)
    requires LateError(bought, env, tx, from).None?
    ensures Intrinsic(tx, env.rules) <= tx.gas
  {
  }

  /** Two checks never fire: the transfer check after buying gas, and the price overflow after execution. */
  lemma UnreachableErrors(env: Env, evm: Evm, own: Predicates, w: World, pool: nat, tx: Tx)
    requires Total(w) < U256
    ensures Transition(env, evm, own, w, pool, tx).outcome != Rejected(InsufficientFundsForTransfer)
    ensures Transition(env, evm, own, w, pool, tx).outcome != Rejected(PriceOverflow)
  {
    if tx.sender.Some? && PreCheckError(w, env, tx, tx.sender.value).None?
       && BuyError(w, env, tx, tx.sender.value, pool).None? {
      FundsCoverPayment(w, env, tx, tx.sender.value, pool);
      BuyingIsExact(w, env, tx, tx.sender.value, pool);
    }
  }

  /** When a transaction is valid, without regard to the order of the checks. */
  predicate Valid(w: World, env: Env, tx: Tx, from: Address, pool: nat) {
    && Nonce(w, from) == tx.nonce < MAX_U64 && from !in w.contracts
    && tx.tipCap <= tx.feeCap < U256 && env.baseFee <= tx.feeCap
    && (tx.blobs.Some? ==> tx.to.Some? && tx.blobs.value != [] && false !in tx.blobs.value)
    && (env.rules.isCancun && BlobGas(tx) > 0 ==> env.blobBaseFee <= tx.blobFeeCap)
    && RequiredFunds(tx, env) <= Balance(w, from) && tx.gas <= pool
    && Intrinsic(tx, env.rules) <= MAX_U64 && (tx.accessList.List? ==> !IG.AnyRefused(tx.accessList.tuples, env.rules))
    && Intrinsic(tx, env.rules) <= tx.gas
    && (env.rules.isShanghai && tx.to.None? ==> |tx.data| <= 49152)
  }

  lemma PassesChecksIff(w: World, env: Env, tx: Tx, from: Address, pool: nat)
    requires Total(w) < U256
    ensures Valid(w, env, tx, from, pool)
            <==> PreCheckError(w, env, tx, from).None? && BuyError(w, env, tx, from, pool).None?
                 && LateError(AfterBuying(w, env, tx, from), env, tx, from).None?
  {
    hide AfterBuying, Intrinsic, IG.AnyRefused, RequiredFunds, Total;
    BalanceAtMostTotal(w, from);
    if PreCheckError(w, env, tx, from).None? && BuyError(w, env, tx, from, pool).None? {
      BuyingIsExact(w, env, tx, from, pool);
    }
  }

  /** A transaction is applied if and only if it is signed and valid. */
  lemma AppliedIff(env: Env, evm: Evm, own: Predicates, w: World, pool: nat, tx: Tx)
    requires Total(w) < U256
    ensures Transition(env, evm, own, w, pool, tx).outcome.Applied?
            <==> tx.sender.Some? && Valid(w, env, tx, tx.sender.value, pool)
  {
    hide PreCheckError, BuyError, LateError, AfterBuying, Valid, Total;
    if tx.sender.Some? {
      PassesChecksIff(w, env, tx, tx.sender.value, pool);
      UnreachableErrors(env, evm, own, w, pool, tx);
    }
  }

  /** What the sender must own is what it would pay if both fees stood at its own caps, and the value on top. */
  lemma FundsAreTheWorstCase(tx: Tx, env: Env)
    ensures RequiredFunds(tx, env) == UpFront(tx, env.(baseFee := tx.feeCap, blobBaseFee := tx.blobFeeCap)) + tx.value
  {
    assert GasPrice(tx, env.(baseFee := tx.feeCap)) == tx.feeCap;
  }

  /** The condition that each error reports. */
  predicate Explains(why: Error, w: World, env: Env, tx: Tx, from: Address, pool: nat) {
    match why
    case BadSignature => tx.sender.None?
    case NonceTooHigh => Nonce(w, from) < tx.nonce
    case NonceTooLow => tx.nonce < Nonce(w, from)
    case NonceMax => Nonce(w, from) == tx.nonce && tx.nonce + 1 > 0xFFFF_FFFF_FFFF_FFFF
    case SenderNoEOA => from in w.contracts
    case FeeCapVeryHigh => tx.feeCap >= U256
    case TipVeryHigh => tx.tipCap >= U256
    case TipAboveFeeCap => tx.tipCap > tx.feeCap
    case FeeCapTooLow => tx.feeCap < env.baseFee
    case BlobTxCreate => tx.blobs.Some? && tx.to.None?
    case MissingBlobHashes => tx.blobs == Some([])
    case InvalidBlobHash => tx.blobs.Some? && exists i :: 0 <= i < |tx.blobs.value| && !tx.blobs.value[i]
    case BlobFeeCapTooLow => env.rules.isCancun && tx.blobFeeCap < env.blobBaseFee
    case InsufficientFunds => Balance(w, from) < RequiredFunds(tx, env)
    case GasLimitReached => pool < tx.gas
    case NoIntrinsicGas =>
      Intrinsic(tx, env.rules) > MAX_U64 || (tx.accessList.List? && IG.AnyRefused(tx.accessList.tuples, env.rules))
    case IntrinsicGasTooHigh => tx.gas < Intrinsic(tx, env.rules)
    case InitCodeTooLarge => env.rules.isShanghai && tx.to.None? && |tx.data| > 49152
    case InsufficientFundsForTransfer => false
    case PriceOverflow => false
  }

  /** Every error is reported for its own reason, and a nonce below the account's always as such. */
  lemma ErrorsMean(env: Env, evm: Evm, own: Predicates, w: World, pool: nat, tx: Tx)
    requires Total(w) < U256
    ensures var o := Transition(env, evm, own, w, pool, tx).outcome;
            && (o.Rejected? ==> Explains(o.why, w, env, tx, if tx.sender.Some? then tx.sender.value else 0, pool))
            && (tx.sender.Some? ==> (o == Rejected(NonceTooLow) <==> tx.nonce < Nonce(w, tx.sender.value)))
  {
    hide AfterBuying, Intrinsic, IG.AnyRefused, RequiredFunds, Total, Executed, BlobGas;
    UnreachableErrors(env, evm, own, w, pool, tx);
    if tx.sender.Some? {
      BalanceAtMostTotal(w, tx.sender.value);
    }
    ExecutedErrors(env, evm, own, w, pool, tx);
  }

  lemma ExecutedErrors(env: Env, evm: Evm, own: Predicates, w: World, pool: nat, tx: Tx)
    ensures forall bought: World, left: nat, from: Address ::
              Intrinsic(tx, env.rules) <= tx.gas && Executed(env, evm, own, bought, left, tx, from).outcome.Rejected? ==>
                Executed(env, evm, own, bought, left, tx, from).outcome.why == PriceOverflow
  {
  }

  /** What the EVM is given besides balances: a call raises the sender's nonce by one before the EVM runs, a creation
      does not, and nothing else differs from the state before the transaction. */
  lemma EvmSees(env: Env, evm: Evm, own: Predicates, w: World, pool: nat, tx: Tx, a: Address)
    requires Transition(env, evm, own, w, pool, tx).outcome.Applied?
    ensures tx.sender.Some? && Nonce(w, tx.sender.value) == tx.nonce
    ensures var v := EvmInput(env, w, tx);
            && Nonce(v, a) == (if tx.to.Some? && tx.sender == Some(a) then tx.nonce + 1 else Nonce(w, a))
            && v.contracts == w.contracts && v.rest == w.rest
  {
    hide BuyError, LateError, Executed;
  }

  /** Refund and payment touch balances only. */
  lemma SettlementKeepsRest(env: Env, evm: Evm, own: Predicates, w: World, pool: nat, tx: Tx)
    requires Transition(env, evm, own, w, pool, tx).outcome.Applied?
    ensures tx.sender.Some? && Intrinsic(tx, env.rules) <= tx.gas
    ensures var r, x := Transition(env, evm, own, w, pool, tx).world, EvmOutput(env, evm, own, w, tx);
            r.nonces == x.nonces && r.contracts == x.contracts && r.rest == x.rest
  {
    hide BuyError, PreCheckError, Worth, Intrinsic;
  }

  /** An EVM that never lowers the nonce of `a` and raises it when `a` creates a contract. */
  ghost predicate KeepsNonce(evm: Evm, a: Address) {
    && (forall w, tx, gas: nat, own ::
          && Nonce(evm.run(w, tx, gas, own).world, a) >= Nonce(w, a)
          && (tx.to.None? && tx.sender == Some(a) ==> Nonce(evm.run(w, tx, gas, own).world, a) > Nonce(w, a)))
    && (forall w :: Nonce(evm.finalise(w), a) >= Nonce(w, a))
  }

  /** An applied transaction uses its nonce up. */
  lemma NonceIsUsed(env: Env, evm: Evm, own: Predicates, w: World, pool: nat, tx: Tx, a: Address)
    requires Transition(env, evm, own, w, pool, tx).outcome.Applied? && KeepsNonce(evm, a)
    ensures var r := Transition(env, evm, own, w, pool, tx).world;
            Nonce(r, a) >= Nonce(w, a) && (tx.sender == Some(a) ==> Nonce(w, a) == tx.nonce && Nonce(r, a) > tx.nonce)
  {
    hide Transition, Nonce, EvmInput, Intrinsic;
    EvmSees(env, evm, own, w, pool, tx, a);
    SettlementKeepsRest(env, evm, own, w, pool, tx);
    SameNonce(Transition(env, evm, own, w, pool, tx).world, EvmOutput(env, evm, own, w, tx), a);
  }

  lemma SameNonce(w: World, v: World, a: Address)
    requires w.nonces == v.nonces
    ensures Nonce(w, a) == Nonce(v, a)
  {
  }

  /** Gas conservation: what leaves the pool is the gas used, which covers the intrinsic gas and stays in the limit. */
  lemma GasConservation(env: Env, evm: Evm, own: Predicates, w: World, pool: nat, tx: Tx)
    ensures var r := Transition(env, evm, own, w, pool, tx);
            && r.pool <= pool
            && (r.outcome.Applied? ==> r.pool + r.outcome.used == pool
                                       && Intrinsic(tx, env.rules) <= r.outcome.used <= tx.gas)
  {
    hide PreCheckError, GasPrice, AfterExec, Intrinsic, AfterBuying, BeforeExec;
  }

  /** No transition creates ether, so a supply below the 256-bit bound stays below it. */
  lemma SupplyNeverGrows(env: Env, evm: Evm, own: Predicates, w: World, pool: nat, tx: Tx)
    requires Total(w) < U256 && Transition(env, evm, own, w, pool, tx).outcome.Applied?
    ensures Total(Transition(env, evm, own, w, pool, tx).world) <= Total(w)
  {
    Conservation(env, evm, own, w, pool, tx);
  }

  /** The tip that the coinbase earns on top of the base fee. */
  function EffectiveTip(tx: Tx, baseFee: nat): (tip: int)
    ensures tip <= tx.tipCap && baseFee + tip <= tx.feeCap && (tip == tx.tipCap || baseFee + tip == tx.feeCap)
  {
    if tx.tipCap < tx.feeCap - baseFee then tx.tipCap else tx.feeCap - baseFee
  }

  function MinerFee(tx: Tx, baseFee: nat, used: nat): int {
    used * (baseFee + EffectiveTip(tx, baseFee))
  }

  lemma CheckedFeeCap(w: World, env: Env, tx: Tx, from: Address)
    requires PreCheckError(w, env, tx, from).None?
    ensures env.baseFee <= tx.feeCap
    ensures GasPrice(tx, env) == env.baseFee + EffectiveTip(tx, env.baseFee)
  {
  }

  /** Who pays and who is paid: the sender buys its whole gas limit and the blob gas before execution; afterwards it
      gets the unused gas back, the coinbase gets the used gas, and no other balance changes outside the EVM. */
  lemma Settlement(env: Env, evm: Evm, own: Predicates, w: World, pool: nat, tx: Tx, a: Address)
    requires Total(w) < U256 && Transition(env, evm, own, w, pool, tx).outcome.Applied?
    ensures tx.sender.Some? && Intrinsic(tx, env.rules) <= tx.gas && env.baseFee <= tx.feeCap
    ensures Balance(EvmInput(env, w, tx), a) == Balance(w, a) - if tx.sender == Some(a) then UpFront(tx, env) else 0
    ensures UpFront(tx, env) == tx.gas * (env.baseFee + EffectiveTip(tx, env.baseFee)) + BlobFee(tx, env)
    ensures var r := Transition(env, evm, own, w, pool, tx);
            var price := env.baseFee + EffectiveTip(tx, env.baseFee);
            r.outcome.used <= tx.gas
            && Balance(r.world, a) == Balance(EvmOutput(env, evm, own, w, tx), a)
                                      + (if tx.sender == Some(a) then (tx.gas - r.outcome.used) * price else 0)
                                      + (if env.coinbase == a then r.outcome.used * price else 0)
  {
    hide PreCheckError, BuyError, LateError, GasPrice, Intrinsic, Total, Worth, SubBalance, AddBalance, BlobFee;
    var from := tx.sender.value;
    FundsCoverPayment(w, env, tx, from, pool);
    CheckedFeeCap(w, env, tx, from);
    BuyingIsExact(w, env, tx, from, pool);
    var bought := AfterBuying(w, env, tx, from);
    SubBalances(w, from, UpFront(tx, env), a);
    IntrinsicPaid(bought, env, tx, from);
    SameBalances(bought, EvmInput(env, w, tx));
    var x := evm.run(EvmInput(env, w, tx), tx, tx.gas - Intrinsic(tx, env.rules), own);
    PayingBalances(x.world, env, tx, from, x.gasLeft, a);
  }

  /** How much the last step of an applied transition raises the balance of the coinbase. */
  function CoinbaseCredit(env: Env, evm: Evm, own: Predicates, w: World, pool: nat, tx: Tx): int
    requires Transition(env, evm, own, w, pool, tx).outcome.Applied?
  {
    var r := Transition(env, evm, own, w, pool, tx);
    Balance(r.world, env.coinbase)
    - Balance(Refunded(EvmOutput(env, evm, own, w, tx), env, tx, tx.sender.value, tx.gas - r.outcome.used), env.coinbase)
  }

  /** The coinbase is paid the used gas times base fee plus effective tip, without wrap-around. */
  lemma CreditIsMinerFee(env: Env, evm: Evm, own: Predicates, w: World, pool: nat, tx: Tx)
    requires Total(w) < U256 && Transition(env, evm, own, w, pool, tx).outcome.Applied?
    ensures CoinbaseCredit(env, evm, own, w, pool, tx)
            == MinerFee(tx, env.baseFee, Transition(env, evm, own, w, pool, tx).outcome.used)
  {
    hide Transition, EvmOutput, EvmInput, AddBalance, Intrinsic, Worth, Total, UpFront, EffectiveTip;
    Settlement(env, evm, own, w, pool, tx, env.coinbase);
    RefundIsExact(env, evm, own, w, pool, tx);
  }

  lemma RefundIsExact(env: Env, evm: Evm, own: Predicates, w: World, pool: nat, tx: Tx)
    requires Total(w) < U256 && Transition(env, evm, own, w, pool, tx).outcome.Applied?
    ensures tx.sender.Some? && Intrinsic(tx, env.rules) <= tx.gas
    ensures var left := tx.gas - Transition(env, evm, own, w, pool, tx).outcome.used;
            var out := EvmOutput(env, evm, own, w, tx);
            left >= 0
            && Balance(Refunded(out, env, tx, tx.sender.value, left), env.coinbase)
               == Balance(out, env.coinbase) + if tx.sender == Some(env.coinbase)
                                               then left * (env.baseFee + EffectiveTip(tx, env.baseFee)) else 0
  {
    hide PreCheckError, BuyError, LateError, GasPrice, Intrinsic, Total, Truncate, SubBalance, AddBalance, BlobFee;
    var from := tx.sender.value;
    FundsCoverPayment(w, env, tx, from, pool);
    CheckedFeeCap(w, env, tx, from);
    BuyingIsExact(w, env, tx, from, pool);
    var bought := AfterBuying(w, env, tx, from);
    IntrinsicPaid(bought, env, tx, from);
    SameBalances(bought, EvmInput(env, w, tx));
    var x := evm.run(EvmInput(env, w, tx), tx, tx.gas - Intrinsic(tx, env.rules), own);
    SplitFee(tx.gas, x.gasLeft, GasPrice(tx, env));
    AddBalances(x.world, from, x.gasLeft * GasPrice(tx, env), env.coinbase);
  }

  lemma SubBalances(w: World, from: Address, v: nat, a: Address)
    requires v <= Balance(w, from) && Total(w) < U256
    ensures Balance(SubBalance(w, from, v), a) == Balance(w, a) - if a == from then v else 0
  {
    hide SubBalance;
    SubExact(w, from, v);
    if a != from {
      OnlyOneBalance(w, from, v, a);
    }
  }

  lemma OnlyOneBalance(w: World, b: Address, v: nat, a: Address)
    requires a != b
    ensures Balance(SubBalance(w, b, v), a) == Balance(w, a) == Balance(AddBalance(w, b, v), a)
  {
  }

  lemma AddBalances(w: World, to: Address, v: nat, a: Address)
    requires Total(w) + v < U256
    ensures Balance(AddBalance(w, to, v), a) == Balance(w, a) + if a == to then v else 0
  {
    hide AddBalance;
    AddExact(w, to, v);
    if a != to {
      OnlyOneBalance(w, to, v, a);
    }
  }

  lemma PayingBalances(x: World, env: Env, tx: Tx, from: Address, gasLeft: nat, a: Address)
    requires gasLeft <= tx.gas && Total(x) + tx.gas * GasPrice(tx, env) < U256
    ensures Balance(AfterExec(x, env, tx, from, gasLeft), a)
            == Balance(x, a) + (if a == from then gasLeft * GasPrice(tx, env) else 0)
               + (if a == env.coinbase then (tx.gas - gasLeft) * GasPrice(tx, env) else 0)
  {
    hide AddBalance, GasPrice, Truncate, Total;
    var price := GasPrice(tx, env);
    SplitFee(tx.gas, gasLeft, price);
    AddExact(x, from, gasLeft * price);
    AddBalances(x, from, gasLeft * price, a);
    AddBalances(AddBalance(x, from, gasLeft * price), env.coinbase, (tx.gas - gasLeft) * price, a);
  }

  /** A larger pool gives the same outcome and state, and keeps the difference. */
  lemma LargerPool(env: Env, evm: Evm, own: Predicates, w: World, pool: nat, large: nat, tx: Tx)
    requires pool <= large && Transition(env, evm, own, w, pool, tx).outcome.Applied?
    ensures var r := Transition(env, evm, own, w, pool, tx);
            Transition(env, evm, own, w, large, tx) == Result(r.outcome, r.world, r.pool + (large - pool))
  {
    hide PreCheckError, LateError, GasPrice, AfterExec, AfterBuying, BeforeExec, RequiredFunds;
  }

  /** The gas still available in a block. */
  class GasPool {
    var gas: nat

    constructor (amount: nat)
      requires amount <= MAX_U64
      ensures gas == amount
    {
      gas := amount;
    }

    /** The source panics when the sum leaves 64 bits. */
    method AddGas(amount: nat)
      requires gas + amount <= MAX_U64
      modifies this
      ensures gas == old(gas) + amount
    {
      gas := gas + amount;
    }

    method SubGas(amount: nat) returns (ok: bool)
      modifies this
      ensures ok <==> amount <= old(gas)
      ensures gas == if ok then old(gas) - amount else old(gas)
    {
      if gas < amount {
        return false;
      }
      gas := gas - amount;
      return true;
    }

    method SetGas(amount: nat)
      modifies this
      ensures gas == amount
    {
      gas := amount;
    }
  }

  class StateTransition {
    const env: Env
    const evm: Evm
    const own: Predicates
    const tx: Tx
    const from: Address
    const pool: GasPool
    var state: World
    var gasRemaining: nat
    var initialGas: nat

    constructor (env: Env, evm: Evm, own: Predicates, tx: Tx, from: Address, pool: GasPool, state: World)
      ensures this.env == env && this.evm == evm && this.own == own && this.tx == tx && this.from == from
      ensures this.pool == pool && this.state == state && gasRemaining == 0
    {
      this.env, this.evm, this.own, this.tx, this.from, this.pool := env, evm, own, tx, from, pool;
      this.state, gasRemaining, initialGas := state, 0, 0;
    }

    method BuyGas() returns (err: Option<Error>)
      requires gasRemaining == 0
      modifies this, pool
      ensures err == BuyError(old(state), env, tx, from, old(pool.gas))
      ensures err.Some? ==> state == old(state) && pool.gas == old(pool.gas)
      ensures err.None? ==> state == AfterBuying(old(state), env, tx, from) && pool.gas == old(pool.gas) - tx.gas
      ensures err.None? ==> gasRemaining == initialGas == tx.gas
    {
      var payment := tx.gas * GasPrice(tx, env);
      var check := tx.gas * tx.feeCap + tx.value;
      if env.rules.isCancun {
        var blobGas := BlobGas(tx);
        if blobGas > 0 {
          check := check + blobGas * tx.blobFeeCap;
          payment := payment + blobGas * env.blobBaseFee;
        }
      }
      if check >= U256 || Balance(state, from) < check {
        return Some(InsufficientFunds);
      }
      var ok := pool.SubGas(tx.gas);
      if !ok {
        return Some(GasLimitReached);
      }
      gasRemaining, initialGas := gasRemaining + tx.gas, tx.gas;
      state := SubBalance(state, from, Truncate(payment));
      return None;
    }

    method PreCheck() returns (err: Option<Error>)
      requires gasRemaining == 0
      modifies this, pool
      ensures var early := PreCheckError(old(state), env, tx, from);
              err == if early.Some? then early else BuyError(old(state), env, tx, from, old(pool.gas))
      ensures err.Some? ==> state == old(state) && pool.gas == old(pool.gas)
      ensures err.None? ==> state == AfterBuying(old(state), env, tx, from) && pool.gas == old(pool.gas) - tx.gas
      ensures err.None? ==> gasRemaining == initialGas == tx.gas
    {
      hide BuyError, AfterBuying;
      var nonce := Nonce(state, from);
      if nonce < tx.nonce {
        return Some(NonceTooHigh);
      } else if nonce > tx.nonce {
        return Some(NonceTooLow);
      } else if nonce >= MAX_U64 {
        return Some(NonceMax);
      }
      if from in state.contracts {
        return Some(SenderNoEOA);
      }
      if tx.feeCap >= U256 {
        return Some(FeeCapVeryHigh);
      }
      if tx.tipCap >= U256 {
        return Some(TipVeryHigh);
      }
      if tx.feeCap < tx.tipCap {
        return Some(TipAboveFeeCap);
      }
      if tx.feeCap < env.baseFee {
        return Some(FeeCapTooLow);
      }
      if tx.blobs.Some? {
        if tx.to.None? {
          return Some(BlobTxCreate);
        }
        if |tx.blobs.value| == 0 {
          return Some(MissingBlobHashes);
        }
        for i := 0 to |tx.blobs.value|
          invariant false !in tx.blobs.value[..i]
        {
          if !tx.blobs.value[i] {
            return Some(InvalidBlobHash);
          }
        }
        assert tx.blobs.value[..|tx.blobs.value|] == tx.blobs.value;
      }
      if env.rules.isCancun && BlobGas(tx) > 0 && tx.blobFeeCap < env.blobBaseFee {
        return Some(BlobFeeCapTooLow);
      }
      err := BuyGas();
    }

    /** Returns the unused gas to the sender, at the price it paid, and to the pool. */
    method RefundGas()
      requires pool.gas + gasRemaining <= MAX_U64
      modifies this`state, pool
      ensures state == AddBalance(old(state), from, Worth(env, tx, old(gasRemaining)))
      ensures pool.gas == old(pool.gas) + gasRemaining
    {
      state := AddBalance(state, from, Worth(env, tx, gasRemaining));
      pool.AddGas(gasRemaining);
    }

    /** Runs the EVM, refunds the unused gas and pays the coinbase. */
    method Execute() returns (outcome: Outcome)
      requires Intrinsic(tx, env.rules) <= tx.gas == initialGas && gasRemaining == tx.gas - Intrinsic(tx, env.rules)
      requires pool.gas + tx.gas <= MAX_U64
      modifies this, pool
      ensures Result(outcome, state, pool.gas) == Executed(env, evm, own, old(state), old(pool.gas), tx, from)
    {
      hide Intrinsic, GasPrice, AddBalance, Worth;
      if tx.to.Some? {
        state := state.(nonces := state.nonces[from := Nonce(state, from) + 1]);
      }
      var x := evm.run(state, tx, gasRemaining, own);
      state, gasRemaining := x.world, x.gasLeft;
      if GasPrice(tx, env) >= U256 {
        return Rejected(PriceOverflow);
      }
      RefundGas();
      state := AddBalance(state, env.coinbase, Worth(env, tx, initialGas - gasRemaining));
      return Applied(initialGas - gasRemaining, x.failed, x.logs);
    }

    /** Runs the transaction. The pool never overflows, so the panic in `AddGas` is out of reach. */
    method TransitionDb() returns (outcome: Outcome)
      requires tx.sender == Some(from) && Sized(tx) && gasRemaining == 0 && pool.gas <= MAX_U64
      modifies this, pool
      ensures Result(outcome, state, pool.gas) == Transition(env, evm, own, old(state), old(pool.gas), tx)
    {
      hide PreCheckError, AfterBuying, Executed, IG.ChargedGas, IG.AnyRefused, RequiredFunds;
      var err := PreCheck();
      if err.Some? {
        return Rejected(err.value);
      }
      var cost := IG.Intrinsic(tx.data, tx.accessList, tx.to.None?, env.rules);
      if !cost.Cost? {
        return Rejected(NoIntrinsicGas);
      }
      if gasRemaining < cost.gas {
        return Rejected(IntrinsicGasTooHigh);
      }
      gasRemaining := gasRemaining - cost.gas;
      if tx.value >= U256 || (tx.value != 0 && Balance(state, from) < tx.value) {
        return Rejected(InsufficientFundsForTransfer);
      }
      if env.rules.isShanghai && tx.to.None? && |tx.data| > MAX_INIT_CODE {
        return Rejected(InitCodeTooLarge);
      }
      outcome := Execute();
    }
  }
}
