/** Account balances and their total, in 256-bit arithmetic. */
module World {
  import opened Sums

  const U256: nat := 0x1_0000_0000_0000_0000_0000_0000_0000_0000_0000_0000_0000_0000_0000_0000_0000_0000
  const MAX_U64: nat := 0xFFFF_FFFF_FFFF_FFFF

  type Address = nat

  /** `rest` stands for code, storage and everything else the EVM keeps. */
  datatype World = World(balances: map<Address, nat>, nonces: map<Address, nat>, contracts: set<Address>, rest: nat)

  function Balance(w: World, a: Address): nat {
    if a in w.balances then w.balances[a] else 0
  }

  function Nonce(w: World, a: Address): nat {
    if a in w.nonces then w.nonces[a] else 0
  }

  function SetBalance(w: World, a: Address, v: nat): World {
    w.(balances := w.balances[a := v])
  }

  /** Conversion to 256 bits, which drops the higher bits. */
  function Truncate(v: nat): (r: nat)
    ensures v < U256 ==> r == v
  {
    v % U256
  }

  /** 256-bit addition and subtraction, which wrap around. */
  function AddBalance(w: World, a: Address, v: nat): World {
    SetBalance(w, a, (Balance(w, a) + v) % U256)
  }

  function SubBalance(w: World, a: Address, v: nat): World {
    SetBalance(w, a, (Balance(w, a) - v) % U256)
  }

  /** The sum of all balances. */
  ghost function Total(w: World): nat {
    Sum(w.balances)
  }

  lemma BalanceAtMostTotal(w: World, a: Address)
    ensures Balance(w, a) <= Total(w)
  {
    SumUpdate(w.balances, a, 0);
  }

  /** Adding within the 256-bit range is exact and raises the total by the amount. */
  lemma AddExact(w: World, a: Address, v: nat)
    requires Total(w) + v < U256
    ensures Balance(AddBalance(w, a, v), a) == Balance(w, a) + v
    ensures Total(AddBalance(w, a, v)) == Total(w) + v
  {
    BalanceAtMostTotal(w, a);
    SumUpdate(w.balances, a, Balance(w, a) + v);
  }

  /** Subtracting no more than the balance is exact and lowers the total by the amount. */
  lemma SubExact(w: World, a: Address, v: nat)
    requires v <= Balance(w, a) && Total(w) < U256
    ensures Balance(SubBalance(w, a, v), a) == Balance(w, a) - v
    ensures Total(SubBalance(w, a, v)) == Total(w) - v
  {
    BalanceAtMostTotal(w, a);
    SumUpdate(w.balances, a, Balance(w, a) - v);
  }
}
