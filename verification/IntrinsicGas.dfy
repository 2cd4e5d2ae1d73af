/** The gas charged before execution, computed in 64-bit arithmetic, against the exact sum. */
module IntrinsicGas {
  import opened Arith
  import opened Bytes
  import opened World

  const TX_GAS: nat := 21000
  const TX_GAS_CREATION: nat := 53000
  const ZERO_BYTE_GAS: nat := 4
  const NONZERO_BYTE_GAS_FRONTIER: nat := 68
  const NONZERO_BYTE_GAS: nat := 16
  const INIT_CODE_WORD_GAS: nat := 2
  const ADDRESS_GAS: nat := 2400
  const STORAGE_KEY_GAS: nat := 1900

  /** `predicatersExist` says whether any precompile of the active rules checks predicates. */
  datatype Rules = Rules(isHomestead: bool, isIstanbul: bool, isShanghai: bool, isCancun: bool, predicatersExist: bool)

  /** An access-list entry is priced per key, or by the precompile that owns its address, which may refuse it. */
  datatype AccessTuple = Keys(keys: nat) | Predicate(keys: nat, gas: PredicateGas)
  datatype PredicateGas = Gas(amount: nat) | Refused

  datatype Cost = Cost(gas: nat) | Overflow | PredicateError

  /** `none` is an absent list, which the code does not price at all. */
  datatype AccessList = NoList | List(tuples: seq<AccessTuple>)

  function NonZero(data: seq<byte>): (n: nat)
    ensures n <= |data|
  {
    if data == [] then 0 else NonZero(data[..|data| - 1]) + if data[|data| - 1] != 0 then 1 else 0
  }

  function TupleGas(t: AccessTuple, rules: Rules): (g: nat) {
    if !rules.predicatersExist || t.Keys? then ADDRESS_GAS + STORAGE_KEY_GAS * t.keys
    else if t.gas.Gas? then t.gas.amount else 0
  }

  /** The exact price of an access list. */
  function ListGas(list: seq<AccessTuple>, rules: Rules): nat {
    if list == [] then 0 else ListGas(list[..|list| - 1], rules) + TupleGas(list[|list| - 1], rules)
  }

  predicate Refuses(t: AccessTuple, rules: Rules) {
    rules.predicatersExist && t.Predicate? && t.gas.Refused?
  }

  predicate AnyRefused(list: seq<AccessTuple>, rules: Rules) {
    exists i :: 0 <= i < |list| && Refuses(list[i], rules)
  }

  function NonZeroByteGas(rules: Rules): nat {
    if rules.isIstanbul then NONZERO_BYTE_GAS else NONZERO_BYTE_GAS_FRONTIER
  }

  function BaseGas(creation: bool, rules: Rules): nat {
    if creation && rules.isHomestead then TX_GAS_CREATION else TX_GAS
  }

  function ByteGas(data: seq<byte>, rules: Rules): nat {
    NonZero(data) * NonZeroByteGas(rules) + (|data| - NonZero(data)) * ZERO_BYTE_GAS
  }

  function InitCodeGas(data: seq<byte>, creation: bool, rules: Rules): nat {
    if creation && rules.isShanghai then (|data| + 31) / 32 * INIT_CODE_WORD_GAS else 0
  }

  /** The exact intrinsic gas of a transaction, without any bound. */
  function ExactGas(data: seq<byte>, list: AccessList, creation: bool, rules: Rules): nat {
    BaseGas(creation, rules) + ByteGas(data, rules) + InitCodeGas(data, creation, rules)
    + if list.List? then ListGas(list.tuples, rules) else 0
  }

  lemma {:induction false} ListGasMonotone(list: seq<AccessTuple>, n: nat, rules: Rules)
    requires n <= |list|
    ensures ListGas(list[..n], rules) <= ListGas(list, rules)
    decreases |list|
  {
    if n < |list| {
      ListGasMonotone(list[..|list| - 1], n, rules);
      assert list[..|list| - 1][..n] == list[..n];
    } else {
      assert list[..n] == list;
    }
  }

  /** Sizes that fit in memory and in the 64-bit results of precompiles. */
  predicate FitsMemory(data: seq<byte>, list: AccessList) {
    && |data| < 0x8000_0000_0000_0000
    && (list.List? ==> forall i :: 0 <= i < |list.tuples| ==> list.tuples[i].keys <= 0x1_0000_0000_0000)
    && (list.List? ==> forall i :: 0 <= i < |list.tuples| && list.tuples[i].Predicate? && list.tuples[i].gas.Gas? ==>
                         list.tuples[i].gas.amount <= MAX_U64)
  }

  function ToWordSize(size: nat): (w: nat)
    requires size <= MAX_U64
    ensures w == (size + 31) / 32
  {
    if size > MAX_U64 - 31 then MAX_U64 / 32 + 1 else (size + 31) / 32
  }

  /** 64-bit wrap-around. */
  function Wrap(v: nat): (r: nat)
    ensures r <= MAX_U64 && (v <= MAX_U64 ==> r == v)
  {
    v % (MAX_U64 + 1)
  }

  lemma WrapAdd(x: nat, y: nat)
    ensures Wrap(Wrap(x) + Wrap(y)) == Wrap(x + y)
  {
  }

  /** What the code charges for an access list: without predicates the sum is not checked and wraps. */
  function ChargedListGas(list: seq<AccessTuple>, rules: Rules): nat {
    if rules.predicatersExist then ListGas(list, rules) else Wrap(ListGas(list, rules))
  }

  function KeyCount(list: seq<AccessTuple>): nat {
    if list == [] then 0 else KeyCount(list[..|list| - 1]) + list[|list| - 1].keys
  }

  lemma {:induction false} PlainListGas(list: seq<AccessTuple>, rules: Rules)
    requires !rules.predicatersExist
    ensures ListGas(list, rules) == |list| * ADDRESS_GAS + KeyCount(list) * STORAGE_KEY_GAS && !AnyRefused(list, rules)
  {
    if list != [] {
      PlainListGas(list[..|list| - 1], rules);
    }
  }

  /** The price of an access list without predicates, in unchecked 64-bit arithmetic. */
  method PlainAccessListGas(rules: Rules, list: seq<AccessTuple>) returns (gas: nat)
    requires !rules.predicatersExist
    ensures gas == Wrap(ListGas(list, rules))
  {
    hide Wrap;
    var keys := 0;
    for i := 0 to |list|
      invariant keys == KeyCount(list[..i])
    {
      assert list[..i + 1][..i] == list[..i];
      keys := keys + list[i].keys;
    }
    assert list[..|list|] == list;
    PlainListGas(list, rules);
    WrapAdd(|list| * ADDRESS_GAS, keys * STORAGE_KEY_GAS);
    gas := Wrap(Wrap(|list| * ADDRESS_GAS) + Wrap(keys * STORAGE_KEY_GAS));
  }

  /** The price of an access list, checked for 64-bit overflow only where predicates are involved. */
  method AccessListGas(rules: Rules, list: seq<AccessTuple>) returns (r: Cost)
    requires FitsMemory([], List(list))
    ensures r.Cost? <==> !AnyRefused(list, rules) && ChargedListGas(list, rules) <= MAX_U64
    ensures r.Cost? ==> r.gas == ChargedListGas(list, rules)
  {
    hide Wrap;
    if !rules.predicatersExist {
      PlainListGas(list, rules);
      var plain := PlainAccessListGas(rules, list);
      return Cost(plain);
    }
    var gas := 0;
    var i := 0;
    while i < |list|
      invariant i <= |list| && gas == ListGas(list[..i], rules) <= MAX_U64
      invariant !AnyRefused(list[..i], rules)
    {
      var t := list[i];
      assert list[..i + 1][..i] == list[..i] && list[..i + 1][i] == t;
      ListGasMonotone(list, i + 1, rules);
      if t.Predicate? && t.gas.Refused? {
        assert Refuses(list[i], rules);
        return PredicateError;
      }
      var tupleGas := if t.Predicate? then t.gas.amount else Wrap(ADDRESS_GAS + STORAGE_KEY_GAS * t.keys);
      if gas + tupleGas > MAX_U64 {
        return Overflow;
      }
      gas := gas + tupleGas;
      i := i + 1;
    }
    assert list[..|list|] == list;
    return Cost(gas);
  }

  /** The division test for overflow is exact. */
  lemma DivisionTest(gas: nat, n: nat, c: nat)
    requires gas <= MAX_U64 && c > 0
    ensures (MAX_U64 - gas) / c < n <==> gas + n * c > MAX_U64
  {
    QuotientTest(MAX_U64 - gas, (MAX_U64 - gas) / c, (MAX_U64 - gas) % c, n, c);
  }

  lemma QuotientTest(room: nat, q: nat, r: nat, n: nat, c: nat)
    requires room == q * c + r && r < c
    ensures q < n <==> room < n * c
  {
    if q < n { MulMonotone(q + 1, n, c); } else { MulMonotone(n, q, c); }
  }

  method AddProduct(gas: nat, n: nat, c: nat) returns (r: Cost)
    requires gas <= MAX_U64 && c > 0
    ensures r == if gas + n * c <= MAX_U64 then Cost(gas + n * c) else Overflow
  {
    DivisionTest(gas, n, c);
    if (MAX_U64 - gas) / c < n {
      return Overflow;
    }
    return Cost(gas + n * c);
  }

  method DataGas(data: seq<byte>, creation: bool, rules: Rules) returns (r: Cost)
    requires |data| < 0x8000_0000_0000_0000
    ensures var exact := BaseGas(creation, rules) + ByteGas(data, rules) + InitCodeGas(data, creation, rules);
            r == if exact <= MAX_U64 then Cost(exact) else Overflow
  {
    hide NonZero;
    r := Cost(if creation && rules.isHomestead then TX_GAS_CREATION else TX_GAS);
    if |data| > 0 {
      var nz := CountNonZero(data);
      r := AddProduct(r.gas, nz, NonZeroByteGas(rules));
      if r.Overflow? {
        return;
      }
      r := AddProduct(r.gas, |data| - nz, ZERO_BYTE_GAS);
      if r.Overflow? {
        return;
      }
      if creation && rules.isShanghai {
        r := AddProduct(r.gas, ToWordSize(|data|), INIT_CODE_WORD_GAS);
      }
    } else {
      EmptyData(data);
    }
  }

  lemma EmptyData(data: seq<byte>)
    requires data == []
    ensures NonZero(data) == 0
  {
  }

  /** What the code charges before execution. */
  function ChargedGas(data: seq<byte>, list: AccessList, creation: bool, rules: Rules): nat {
    BaseGas(creation, rules) + ByteGas(data, rules) + InitCodeGas(data, creation, rules)
    + if list.List? then ChargedListGas(list.tuples, rules) else 0
  }

  /** The charge is the exact mathematical sum, unless an access list that no precompile checks costs more than 64 bits
      can hold. */
  lemma ChargeIsExactIff(data: seq<byte>, list: AccessList, creation: bool, rules: Rules)
    ensures ChargedGas(data, list, creation, rules) == ExactGas(data, list, creation, rules)
            <==> list.NoList? || rules.predicatersExist || ListGas(list.tuples, rules) <= MAX_U64
  {
    hide Wrap, ListGas, ByteGas, InitCodeGas;
  }

  /** The prices: a transaction without data, one more byte, and one more access-list entry. */
  lemma EmptyPrice(creation: bool, rules: Rules)
    ensures ChargedGas([], NoList, creation, rules) == if creation && rules.isHomestead then 53000 else 21000
  {
  }

  lemma BytePrice(data: seq<byte>, b: byte, list: AccessList, creation: bool, rules: Rules)
    ensures ChargedGas(data + [b], list, creation, rules) - ChargedGas(data, list, creation, rules)
            == (if b == 0 then 4 else if rules.isIstanbul then 16 else 68)
               + (if creation && rules.isShanghai && |data| % 32 == 0 then 2 else 0)
  {
    hide ChargedListGas, BaseGas;
    assert (data + [b])[..|data|] == data;
  }

  lemma EntryPrice(list: seq<AccessTuple>, t: AccessTuple, rules: Rules)
    ensures ListGas(list + [t], rules) - ListGas(list, rules)
            == if rules.predicatersExist && t.Predicate? then (if t.gas.Gas? then t.gas.amount else 0)
               else 2400 + 1900 * t.keys
    ensures AnyRefused(list + [t], rules) <==>
              AnyRefused(list, rules) || (rules.predicatersExist && t.Predicate? && t.gas.Refused?)
  {
    assert (list + [t])[..|list|] == list && (list + [t])[|list|] == t;
    if AnyRefused(list, rules) {
      var i :| 0 <= i < |list| && Refuses(list[i], rules);
      assert Refuses((list + [t])[i], rules);
    }
    if Refuses(t, rules) {
      assert Refuses((list + [t])[|list|], rules);
    }
  }

  /** The charge, or an error if and only if it exceeds 64 bits or a precompile refuses its predicate. */
  method Intrinsic(data: seq<byte>, list: AccessList, creation: bool, rules: Rules) returns (r: Cost)
    requires FitsMemory(data, list)
    ensures r.Cost? <==>
              ChargedGas(data, list, creation, rules) <= MAX_U64 && !(list.List? && AnyRefused(list.tuples, rules))
    ensures r.Cost? ==> r.gas == ChargedGas(data, list, creation, rules)
  {
    hide ChargedListGas, ByteGas, InitCodeGas, BaseGas;
    r := DataGas(data, creation, rules);
    if r.Overflow? {
      return;
    }
    if list.List? {
      var listGas := AccessListGas(rules, list.tuples);
      if !listGas.Cost? {
        return listGas;
      }
      if r.gas + listGas.gas > MAX_U64 {
        return Overflow;
      }
      r := Cost(r.gas + listGas.gas);
    }
  }

  method CountNonZero(data: seq<byte>) returns (nz: nat)
    ensures nz == NonZero(data)
  {
    nz := 0;
    for i := 0 to |data|
      invariant nz == NonZero(data[..i])
    {
      assert data[..i + 1][..i] == data[..i];
      if data[i] != 0 {
        nz := nz + 1;
      }
    }
    assert data[..|data|] == data;
  }
}
