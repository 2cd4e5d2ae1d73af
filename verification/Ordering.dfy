/** The price heap over the first pending transaction of every account. */
module Ordering {
  import opened Blocks
  import opened Sums
  import opened World
  import opened StateTransition

  /** A handle on a pooled transaction; `tx` is `None` when the pool has dropped it meanwhile. */
  datatype Lazy = Lazy(hash: nat, time: nat, feeCap: nat, tipCap: nat, gas: nat, blobGas: nat,
                       tx: Option<Tx>, sidecar: nat, isProtected: bool)

  datatype Head = Head(tx: Lazy, from: Address, fees: nat)

  /** The tip left over the base fee, capped by the offered tip; nothing when the fee cap is below the base fee. */
  function WithMinerFee(tx: Lazy, from: Address, baseFee: Option<nat>): Option<Head> {
    if baseFee.None? then Some(Head(tx, from, tx.tipCap))
    else if tx.feeCap < baseFee.value then None
    else Some(Head(tx, from, if tx.feeCap - baseFee.value > tx.tipCap then tx.tipCap else tx.feeCap - baseFee.value))
  }

  /** `fee` is what a transaction pays the coinbase per unit of gas on top of the base fee: as much as both its caps
      allow. */
  predicate Pays(tx: Lazy, baseFee: Option<nat>, fee: nat) {
    if baseFee.None? then fee == tx.tipCap
    else fee <= tx.tipCap && baseFee.value + fee <= tx.feeCap && (fee == tx.tipCap || baseFee.value + fee == tx.feeCap)
  }

  lemma FeeIsPaid(tx: Lazy, from: Address, baseFee: Option<nat>)
    ensures var h := WithMinerFee(tx, from, baseFee);
            && (h.Some? <==> baseFee.None? || baseFee.value <= tx.feeCap)
            && (h.Some? ==> h.value.tx == tx && h.value.from == from && Pays(tx, baseFee, h.value.fees))
  {
  }

  /** It is the tip that the executed transaction pays, if the handle has the transaction's caps. */
  lemma FeeIsEffectiveTip(l: Lazy, from: Address, baseFee: nat)
    requires l.tx.Some? && l.feeCap == l.tx.value.feeCap && l.tipCap == l.tx.value.tipCap
    requires WithMinerFee(l, from, Some(baseFee)).Some?
    ensures WithMinerFee(l, from, Some(baseFee)).value.fees == EffectiveTip(l.tx.value, baseFee)
  {
    FeeIsPaid(l, from, Some(baseFee));
  }

  /** Every head carries its own fee. */
  ghost predicate FeesOk(heads: multiset<Head>, baseFee: Option<nat>) {
    forall h :: h in heads ==> Pays(h.tx, baseFee, h.fees)
  }

  lemma FewerFees(heads: multiset<Head>, h: Head, baseFee: Option<nat>)
    requires FeesOk(heads, baseFee)
    ensures FeesOk(heads - multiset{h}, baseFee)
  {
  }

  /** `tx` is a most profitable choice among the heads: none pays more per unit of gas, and of those that pay the same
      none is older. */
  ghost predicate MostProfitable(tx: Lazy, heads: multiset<Head>, baseFee: Option<nat>) {
    forall h, fee, best :: h in heads && Pays(h.tx, baseFee, fee) && Pays(tx, baseFee, best) ==>
      fee < best || (fee == best && tx.time <= h.tx.time)
  }

  lemma BestIsMostProfitable(q: Queue, h: Head, baseFee: Option<nat>)
    requires Best(q, h) && FeesOk(q.heads, baseFee)
    ensures MostProfitable(h.tx, q.heads, baseFee) && Pays(h.tx, baseFee, h.fees)
  {
  }

  lemma FreshFees(q: Queue, lists: map<Address, seq<Lazy>>, baseFee: Option<nat>)
    requires Fresh(q, lists, baseFee)
    ensures FeesOk(q.heads, baseFee)
  {
    hide WithMinerFee, Pays;
    forall h | h in q.heads
      ensures Pays(h.tx, baseFee, h.fees)
    {
      assert q.heads[h] == 1;
      FeeIsPaid(lists[h.from][0], h.from, baseFee);
    }
  }

  predicate Before(a: Head, b: Head) {
    if a.fees == b.fees then a.tx.time < b.tx.time else a.fees > b.fees
  }

  /** The heads, in no particular order, and what follows each account's head. */
  datatype Queue = Queue(heads: multiset<Head>, rest: map<Address, seq<Lazy>>)

  datatype Op = Shift(h: Head) | Pop(h: Head)

  /** A head that no other head precedes. */
  ghost predicate Best(q: Queue, h: Head) {
    h in q.heads && forall g :: g in q.heads ==> !Before(g, h)
  }

  ghost function Shifted(q: Queue, h: Head, baseFee: Option<nat>): Queue {
    if h.from in q.rest && |q.rest[h.from]| > 0 && WithMinerFee(q.rest[h.from][0], h.from, baseFee).Some? then
      Queue(q.heads - multiset{h} + multiset{WithMinerFee(q.rest[h.from][0], h.from, baseFee).value},
            q.rest[h.from := q.rest[h.from][1..]])
    else Popped(q, h)
  }

  ghost function Popped(q: Queue, h: Head): Queue {
    q.(heads := q.heads - multiset{h})
  }

  ghost function Step(q: Queue, op: Op, baseFee: Option<nat>): Queue {
    if op.Shift? then Shifted(q, op.h, baseFee) else Popped(q, op.h)
  }

  ghost function Run(q: Queue, ops: seq<Op>, baseFee: Option<nat>): Queue {
    if ops == [] then q else Step(Run(q, ops[..|ops| - 1], baseFee), ops[|ops| - 1], baseFee)
  }

  /** Every operation acts on a best head, the one that `Peek` shows. */
  ghost predicate Legal(q: Queue, ops: seq<Op>, baseFee: Option<nat>) {
    ops == [] || (Legal(q, ops[..|ops| - 1], baseFee) && Best(Run(q, ops[..|ops| - 1], baseFee), ops[|ops| - 1].h))
  }

  /** The queue built from the per-account lists: one head for each account whose first transaction pays the base fee. */
  ghost predicate Fresh(q: Queue, lists: map<Address, seq<Lazy>>, baseFee: Option<nat>) {
    && (forall a :: a in lists ==> |lists[a]| > 0)
    && (forall h :: q.heads[h] ==
                    if h.from in lists && WithMinerFee(lists[h.from][0], h.from, baseFee) == Some(h) then 1 else 0)
    && (forall a :: a in q.rest <==> a in lists && WithMinerFee(lists[a][0], a, baseFee).Some?)
    && (forall a :: a in q.rest ==> q.rest[a] == lists[a][1..])
  }

  /** The transactions of account `a` that the operations took, in order. */
  function Emitted(ops: seq<Op>, a: Address): seq<Lazy> {
    if ops == [] then []
    else Emitted(ops[..|ops| - 1], a) + if ops[|ops| - 1].h.from == a then [ops[|ops| - 1].h.tx] else []
  }

  /** The head is its account's first transaction not yet taken. */
  ghost predicate HeadOk(h: Head, rest: map<Address, seq<Lazy>>, lists: map<Address, seq<Lazy>>, ops: seq<Op>,
                         baseFee: Option<nat>)
  {
    && h.from in lists && h.from in rest
    && WithMinerFee(h.tx, h.from, baseFee) == Some(h)
    && lists[h.from] == Emitted(ops, h.from) + [h.tx] + rest[h.from]
  }

  ghost predicate OnePerAccount(heads: multiset<Head>) {
    && (forall h :: heads[h] <= 1)
    && (forall g, h :: g in heads && h in heads && g.from == h.from ==> g == h)
  }

  ghost predicate QueueOk(q: Queue, lists: map<Address, seq<Lazy>>, ops: seq<Op>, baseFee: Option<nat>) {
    && (forall h :: h in q.heads ==> HeadOk(h, q.rest, lists, ops, baseFee))
    && OnePerAccount(q.heads)
  }

  ghost predicate PrefixesTaken(lists: map<Address, seq<Lazy>>, ops: seq<Op>) {
    forall a :: if a in lists then Emitted(ops, a) <= lists[a] else Emitted(ops, a) == []
  }

  lemma FreshIsOk(q: Queue, lists: map<Address, seq<Lazy>>, baseFee: Option<nat>)
    requires Fresh(q, lists, baseFee)
    ensures QueueOk(q, lists, [], baseFee) && PrefixesTaken(lists, [])
  {
    hide OnePerAccount, WithMinerFee;
    forall h | h in q.heads
      ensures HeadOk(h, q.rest, lists, [], baseFee)
    {
      assert q.heads[h] == 1;
      FirstHeadOk(h, lists, baseFee);
      assert lists[h.from] == [] + [h.tx] + q.rest[h.from];
    }
    FreshHasOnePerAccount(q, lists, baseFee);
  }

  lemma FirstHeadOk(h: Head, lists: map<Address, seq<Lazy>>, baseFee: Option<nat>)
    requires h.from in lists && |lists[h.from]| > 0 && WithMinerFee(lists[h.from][0], h.from, baseFee) == Some(h)
    ensures h.tx == lists[h.from][0]
  {
  }

  lemma FreshHasOnePerAccount(q: Queue, lists: map<Address, seq<Lazy>>, baseFee: Option<nat>)
    requires Fresh(q, lists, baseFee)
    ensures OnePerAccount(q.heads)
  {
    hide WithMinerFee;
  }

  lemma EmittedSnoc(ops: seq<Op>, op: Op, a: Address)
    ensures Emitted(ops + [op], a) == Emitted(ops, a) + if op.h.from == a then [op.h.tx] else []
  {
    assert (ops + [op])[..|ops|] == ops;
  }

  lemma OneLess(heads: multiset<Head>, h: Head)
    requires OnePerAccount(heads) && h in heads
    ensures OnePerAccount(heads - multiset{h})
    ensures forall g :: g in heads - multiset{h} ==> g in heads && g.from != h.from
  {
  }

  lemma OneMore(heads: multiset<Head>, h: Head)
    requires OnePerAccount(heads) && forall g :: g in heads ==> g.from != h.from
    ensures OnePerAccount(heads + multiset{h})
  {
    assert h !in heads;
  }

  lemma StepKeepsQueue(q: Queue, lists: map<Address, seq<Lazy>>, ops: seq<Op>, op: Op, baseFee: Option<nat>)
    requires QueueOk(q, lists, ops, baseFee) && op.h in q.heads
    ensures QueueOk(Step(q, op, baseFee), lists, ops + [op], baseFee)
  {
    hide OnePerAccount, HeadOk, WithMinerFee;
    var a := op.h.from;
    var others := q.heads - multiset{op.h};
    OneLess(q.heads, op.h);
    var q' := Step(q, op, baseFee);
    forall g | g in others
      ensures HeadOk(g, q'.rest, lists, ops + [op], baseFee)
    {
      OtherHead(g, q.rest, q'.rest, lists, ops, op, baseFee);
    }
    if q'.heads != others {
      var next := WithMinerFee(q.rest[a][0], a, baseFee).value;
      NextHead(q.rest, lists, ops, op, baseFee);
      OneMore(others, next);
    }
  }

  lemma OtherHead(g: Head, rest: map<Address, seq<Lazy>>, rest': map<Address, seq<Lazy>>,
                  lists: map<Address, seq<Lazy>>, ops: seq<Op>, op: Op, baseFee: Option<nat>)
    requires HeadOk(g, rest, lists, ops, baseFee) && g.from != op.h.from
    requires g.from in rest ==> g.from in rest' && rest'[g.from] == rest[g.from]
    ensures HeadOk(g, rest', lists, ops + [op], baseFee)
  {
    EmittedSnoc(ops, op, g.from);
  }

  lemma NextHead(rest: map<Address, seq<Lazy>>, lists: map<Address, seq<Lazy>>, ops: seq<Op>, op: Op, baseFee: Option<nat>)
    requires HeadOk(op.h, rest, lists, ops, baseFee) && |rest[op.h.from]| > 0
    requires WithMinerFee(rest[op.h.from][0], op.h.from, baseFee).Some?
    ensures var next := WithMinerFee(rest[op.h.from][0], op.h.from, baseFee).value;
            next.from == op.h.from
            && HeadOk(next, rest[op.h.from := rest[op.h.from][1..]], lists, ops + [op], baseFee)
  {
    var a := op.h.from;
    EmittedSnoc(ops, op, a);
    assert rest[a] == [rest[a][0]] + rest[a][1..];
    assert lists[a] == Emitted(ops + [op], a) + [rest[a][0]] + rest[a][1..];
  }

  lemma StepTakesPrefix(q: Queue, lists: map<Address, seq<Lazy>>, ops: seq<Op>, op: Op, baseFee: Option<nat>)
    requires QueueOk(q, lists, ops, baseFee) && op.h in q.heads && PrefixesTaken(lists, ops)
    ensures PrefixesTaken(lists, ops + [op])
  {
    forall a
      ensures if a in lists then Emitted(ops + [op], a) <= lists[a] else Emitted(ops + [op], a) == []
    {
      EmittedSnoc(ops, op, a);
    }
  }

  /** In every run, each account's transactions are taken as a prefix of its list, so in order and none twice,
      and each offers at least the base fee. */
  lemma {:induction false} RunTakesPrefixes(q: Queue, lists: map<Address, seq<Lazy>>, ops: seq<Op>, baseFee: Option<nat>)
    requires Fresh(q, lists, baseFee) && Legal(q, ops, baseFee)
    ensures QueueOk(Run(q, ops, baseFee), lists, ops, baseFee) && PrefixesTaken(lists, ops)
    ensures baseFee.Some? ==> forall op :: op in ops ==> op.h.tx.feeCap >= baseFee.value
    decreases |ops|
  {
    hide QueueOk, PrefixesTaken, Fresh, Step, Emitted;
    if ops == [] {
      FreshIsOk(q, lists, baseFee);
    } else {
      var before, op := ops[..|ops| - 1], ops[|ops| - 1];
      RunTakesPrefixes(q, lists, before, baseFee);
      assert before + [op] == ops;
      var mid := Run(q, before, baseFee);
      StepKeepsQueue(mid, lists, before, op, baseFee);
      StepTakesPrefix(mid, lists, before, op, baseFee);
      if baseFee.Some? {
        HeadPaysBaseFee(mid, lists, before, op.h, baseFee);
      }
    }
  }

  lemma HeadPaysBaseFee(q: Queue, lists: map<Address, seq<Lazy>>, ops: seq<Op>, h: Head, baseFee: Option<nat>)
    requires QueueOk(q, lists, ops, baseFee) && h in q.heads && baseFee.Some?
    ensures h.tx.feeCap >= baseFee.value
  {
  }

  /** What the two operations do to the heads: shifting brings up the account's next transaction if it pays the base fee,
      popping drops the account, and neither touches another account. */
  lemma OperationsMean(q: Queue, lists: map<Address, seq<Lazy>>, ops: seq<Op>, op: Op, baseFee: Option<nat>, g: Head)
    requires QueueOk(q, lists, ops, baseFee) && op.h in q.heads
    ensures op.h.from in lists && |Emitted(ops, op.h.from)| < |lists[op.h.from]|
    ensures var a, k := op.h.from, |Emitted(ops, op.h.from)| + 1;
            && (g.from != a ==> (g in Step(q, op, baseFee).heads <==> g in q.heads))
            && (g.from == a ==>
                  (g in Step(q, op, baseFee).heads <==>
                     && op.Shift? && k < |lists[a]| && g.tx == lists[a][k] && Pays(g.tx, baseFee, g.fees)
                     && (baseFee.None? || baseFee.value <= g.tx.feeCap)))
  {
    var a := op.h.from;
    assert HeadOk(op.h, q.rest, lists, ops, baseFee);
    OneLess(q.heads, op.h);
    if |q.rest[a]| > 0 {
      FeeIsPaid(q.rest[a][0], a, baseFee);
      assert q.rest[a][0] == lists[a][|Emitted(ops, a)| + 1];
    }
    hide WithMinerFee, OnePerAccount, HeadOk, Emitted;
    if g.from == a {
      OnlyOnePays(g, baseFee);
    }
  }

  lemma OnlyOnePays(g: Head, baseFee: Option<nat>)
    ensures forall fee :: Pays(g.tx, baseFee, fee) && Pays(g.tx, baseFee, g.fees) ==> fee == g.fees
  {
  }

  /** Where in its account's list an operation's transaction stands. */
  function Position(ops: seq<Op>, i: nat): nat
    requires i < |ops|
  {
    |Emitted(ops[..i], ops[i].h.from)|
  }

  lemma {:induction false} LegalPrefix(q: Queue, ops: seq<Op>, baseFee: Option<nat>, i: nat)
    requires i <= |ops| && Legal(q, ops, baseFee)
    ensures Legal(q, ops[..i], baseFee) && (i < |ops| ==> Best(Run(q, ops[..i], baseFee), ops[i].h))
    decreases |ops|
  {
    hide Best, Run;
    if i < |ops| - 1 {
      LegalPrefix(q, ops[..|ops| - 1], baseFee, i);
      assert ops[..|ops| - 1][..i] == ops[..i];
    } else if i == |ops| {
      assert ops[..i] == ops;
    }
  }

  lemma {:induction false} EmittedGrows(ops: seq<Op>, i: nat, j: nat, a: Address)
    requires i <= j <= |ops|
    ensures |Emitted(ops[..i], a)| <= |Emitted(ops[..j], a)|
    ensures i < j && ops[i].h.from == a ==> |Emitted(ops[..i], a)| < |Emitted(ops[..j], a)|
    decreases j
  {
    if i < j {
      EmittedGrows(ops, i, j - 1, a);
      assert ops[..j] == ops[..j - 1] + [ops[j - 1]];
      EmittedSnoc(ops[..j - 1], ops[j - 1], a);
    }
  }

  /** Each operation takes a position of an account's list, and no two operations take the same one. */
  lemma NoneTwice(q: Queue, lists: map<Address, seq<Lazy>>, ops: seq<Op>, baseFee: Option<nat>, i: nat, j: nat)
    requires Fresh(q, lists, baseFee) && Legal(q, ops, baseFee) && i < j < |ops|
    ensures ops[i].h.from in lists && Position(ops, i) < |lists[ops[i].h.from]|
    ensures ops[i].h.tx == lists[ops[i].h.from][Position(ops, i)]
    ensures ops[i].h.from == ops[j].h.from ==> Position(ops, i) < Position(ops, j)
  {
    TakesPosition(q, lists, ops, baseFee, i);
    EmittedGrows(ops, i, j, ops[i].h.from);
  }

  lemma TakesPosition(q: Queue, lists: map<Address, seq<Lazy>>, ops: seq<Op>, baseFee: Option<nat>, i: nat)
    requires Fresh(q, lists, baseFee) && Legal(q, ops, baseFee) && i < |ops|
    ensures ops[i].h.from in lists && Position(ops, i) < |lists[ops[i].h.from]|
    ensures ops[i].h.tx == lists[ops[i].h.from][Position(ops, i)]
  {
    hide Legal, Run, Fresh, PrefixesTaken, WithMinerFee, Emitted;
    LegalPrefix(q, ops, baseFee, i);
    RunTakesPrefixes(q, lists, ops[..i], baseFee);
    assert HeadOk(ops[i].h, Run(q, ops[..i], baseFee).rest, lists, ops[..i], baseFee);
  }

  /** No child of index `i`, among the first `n` entries, precedes `x`. */
  ghost predicate ChildrenOk(h: seq<Head>, n: nat, i: nat, x: Head)
    requires n <= |h|
  {
    (2 * i + 1 < n ==> !Before(h[2 * i + 1], x)) && (2 * i + 2 < n ==> !Before(h[2 * i + 2], x))
  }

  /** The heap order among the first `n` entries, for parents at index `lo` and after. */
  ghost predicate HeapFrom(h: seq<Head>, n: nat, lo: nat)
    requires n <= |h|
  {
    forall p :: lo <= p < n ==> ChildrenOk(h, n, p, h[p])
  }

  /** The same with entry `i` on its way down: its children are compared with its parent instead. */
  ghost predicate HeapWithHole(h: seq<Head>, n: nat, lo: nat, i: nat)
    requires n <= |h|
  {
    && (forall p :: lo <= p < n && p != i ==> ChildrenOk(h, n, p, h[p]))
    && (forall p :: lo <= p < n && (i == 2 * p + 1 || i == 2 * p + 2) ==> ChildrenOk(h, n, i, h[p]))
  }

  function Swap(h: seq<Head>, i: nat, j: nat): (r: seq<Head>)
    requires i < |h| && j < |h|
    ensures |r| == |h|
  {
    h[i := h[j]][j := h[i]]
  }

  lemma SwapPermutes(h: seq<Head>, i: nat, j: nat)
    requires i < |h| && j < |h|
    ensures multiset(Swap(h, i, j)) == multiset(h)
  {
  }

  /** One step of the sift: the smaller child moves up. */
  lemma SiftStep(h: seq<Head>, n: nat, lo: nat, i: nat, j: nat)
    requires n <= |h| && lo <= i < j < n && (j == 2 * i + 1 || j == 2 * i + 2)
    requires HeapWithHole(h, n, lo, i) && Before(h[j], h[i]) && ChildrenOk(h, n, i, h[j])
    ensures HeapWithHole(Swap(h, i, j), n, lo, j)
  {
    hide Before;
    var r := Swap(h, i, j);
    forall p | lo <= p < n && p != j
      ensures ChildrenOk(r, n, p, r[p])
    {
      if p == i {
        SwappedParent(h, n, i, j);
      } else {
        assert ChildrenOk(h, n, p, h[p]);
        assert i == 2 * p + 1 || i == 2 * p + 2 ==> ChildrenOk(h, n, i, h[p]);
        SwappedElsewhere(h, n, i, j, p);
      }
    }
    assert ChildrenOk(h, n, j, h[j]);
  }

  lemma SwappedParent(h: seq<Head>, n: nat, i: nat, j: nat)
    requires n <= |h| && i < j < n && (j == 2 * i + 1 || j == 2 * i + 2)
    requires Before(h[j], h[i]) && ChildrenOk(h, n, i, h[j])
    ensures ChildrenOk(Swap(h, i, j), n, i, Swap(h, i, j)[i])
  {
  }

  lemma SwappedElsewhere(h: seq<Head>, n: nat, i: nat, j: nat, p: nat)
    requires n <= |h| && i < j < n && (j == 2 * i + 1 || j == 2 * i + 2) && p < n && p != i && p != j
    requires ChildrenOk(h, n, p, h[p]) && (i == 2 * p + 1 || i == 2 * p + 2 ==> ChildrenOk(h, n, i, h[p]))
    ensures ChildrenOk(Swap(h, i, j), n, p, Swap(h, i, j)[p])
  {
    hide Before;
  }

  /** The sift ends where the hole's own children do not precede it. */
  lemma SiftEnd(h: seq<Head>, n: nat, lo: nat, i: nat)
    requires n <= |h| && lo <= i < n && HeapWithHole(h, n, lo, i) && ChildrenOk(h, n, i, h[i])
    ensures HeapFrom(h, n, lo)
  {
  }

  lemma NotBeforeTransitive(a: Head, b: Head, c: Head)
    requires !Before(a, b) && !Before(b, c)
    ensures !Before(a, c)
  {
  }

  /** The root of a heap is a head that no other head precedes. */
  lemma {:induction false} RootIsBest(h: seq<Head>, k: nat)
    requires k < |h| && HeapFrom(h, |h|, 0)
    ensures !Before(h[k], h[0])
  {
    if k > 0 {
      hide Before;
      var p := (k - 1) / 2;
      RootIsBest(h, p);
      assert ChildrenOk(h, |h|, p, h[p]);
      assert k == 2 * p + 1 || k == 2 * p + 2;
      NotBeforeTransitive(h[k], h[p], h[0]);
    }
  }

  lemma HeapIsBest(h: seq<Head>, txs: map<Address, seq<Lazy>>)
    requires |h| > 0 && HeapFrom(h, |h|, 0)
    ensures Best(Queue(multiset(h), txs), h[0])
  {
    forall g | g in multiset(h)
      ensures !Before(g, h[0])
    {
      var k :| 0 <= k < |h| && h[k] == g;
      RootIsBest(h, k);
    }
  }

  lemma DropLast(h: seq<Head>)
    requires |h| > 0
    ensures multiset(h[..|h| - 1]) == multiset(h) - multiset{h[|h| - 1]}
  {
    assert h == h[..|h| - 1] + [h[|h| - 1]];
  }

  ghost function Lengths(txs: map<Address, seq<Lazy>>): map<Address, nat> {
    map a | a in txs :: |txs[a]|
  }

  /** How many transactions the queue can still hand out at most. */
  ghost function Remaining(n: nat, txs: map<Address, seq<Lazy>>): nat {
    n + Sum(Lengths(txs))
  }

  lemma TakeOne(txs: map<Address, seq<Lazy>>, a: Address)
    requires a in txs && |txs[a]| > 0
    ensures Sum(Lengths(txs[a := txs[a][1..]])) == Sum(Lengths(txs)) - 1
  {
    var lens := Lengths(txs);
    assert Lengths(txs[a := txs[a][1..]]) == lens[a := |txs[a]| - 1];
    SumUpdate(lens, a, |txs[a]| - 1);
  }

  lemma HoleAtStart(h: seq<Head>, n: nat, start: nat)
    requires n <= |h| && HeapFrom(h, n, start + 1)
    ensures HeapWithHole(h, n, start, start)
  {
  }

  lemma LastToRoot(h: seq<Head>)
    requires |h| > 0 && HeapFrom(h, |h|, 0)
    ensures var n := |h| - 1;
            HeapFrom(Swap(h, 0, n), n, 1) && Swap(h, 0, n)[n] == h[0] && Swap(h, 0, n)[n..] == [h[0]]
  {
    hide Before;
    var n := |h| - 1;
    var r := Swap(h, 0, n);
    forall p | 1 <= p < n
      ensures ChildrenOk(r, n, p, r[p])
    {
      assert ChildrenOk(h, |h|, p, h[p]);
    }
  }

  lemma ShorterHeap(h: seq<Head>, n: nat)
    requires n <= |h| && (n > 0 ==> HeapFrom(h, n, 0))
    ensures HeapFrom(h[..n], n, 0)
  {
    hide Before;
    forall p | 0 <= p < n
      ensures ChildrenOk(h[..n], n, p, h[..n][p])
    {
      assert ChildrenOk(h, n, p, h[p]);
    }
  }

  lemma BestChild(h: seq<Head>, n: nat, i: nat, j: nat)
    requires n <= |h| && j < n
    requires (j == 2 * i + 1 && !(j + 1 < n && Before(h[j + 1], h[j]))) || (j == 2 * i + 2 && Before(h[j], h[j - 1]))
    ensures ChildrenOk(h, n, i, h[j])
  {
  }

  lemma ChildrenAfter(h: seq<Head>, n: nat, i: nat, j: nat)
    requires n <= |h| && i < n && j < n && ChildrenOk(h, n, i, h[j]) && !Before(h[j], h[i])
    ensures ChildrenOk(h, n, i, h[i])
  {
  }

  lemma SwapKeepsTail(h: seq<Head>, n: nat, i: nat, j: nat)
    requires n <= |h| && i < n && j < n
    ensures Swap(h, i, j)[n..] == h[n..]
  {
  }

  /** The head of an account that has been visited and pays the base fee. */
  ghost predicate Wrapped(h: Head, lists: map<Address, seq<Lazy>>, todo: set<Address>, baseFee: Option<nat>)
    requires forall a :: a in lists ==> |lists[a]| > 0
  {
    h.from in lists && h.from !in todo && WithMinerFee(lists[h.from][0], h.from, baseFee) == Some(h)
  }

  ghost predicate HeadsWrapped(heads: seq<Head>, lists: map<Address, seq<Lazy>>, todo: set<Address>, baseFee: Option<nat>)
    requires forall a :: a in lists ==> |lists[a]| > 0
  {
    forall h :: multiset(heads)[h] == if Wrapped(h, lists, todo, baseFee) then 1 else 0
  }

  lemma WrapOne(heads: seq<Head>, lists: map<Address, seq<Lazy>>, todo: set<Address>, from: Address, baseFee: Option<nat>)
    requires (forall a :: a in lists ==> |lists[a]| > 0) && HeadsWrapped(heads, lists, todo, baseFee)
    requires from in todo && from in lists
    ensures var wrapped := WithMinerFee(lists[from][0], from, baseFee);
            HeadsWrapped(if wrapped.Some? then heads + [wrapped.value] else heads, lists, todo - {from}, baseFee)
  {
    var wrapped := WithMinerFee(lists[from][0], from, baseFee);
    forall h
      ensures Wrapped(h, lists, todo - {from}, baseFee) <==> Wrapped(h, lists, todo, baseFee) || wrapped == Some(h)
      ensures wrapped == Some(h) ==> !Wrapped(h, lists, todo, baseFee)
    {
    }
  }

  class TransactionsByPriceAndNonce {
    const baseFee: Option<nat>
    var heads: seq<Head>
    var txs: map<Address, seq<Lazy>>

    ghost predicate Valid()
      reads this
    {
      HeapFrom(heads, |heads|, 0) && FeesOk(multiset(heads), baseFee)
    }

    ghost function Contents(): Queue
      reads this
    {
      Queue(multiset(heads), txs)
    }

    /** Wraps the first transaction of every account, visiting the accounts in any order. */
    constructor (lists: map<Address, seq<Lazy>>, baseFee: Option<nat>)
      requires forall a :: a in lists ==> |lists[a]| > 0
      ensures Valid() && this.baseFee == baseFee
      ensures Fresh(Contents(), lists, baseFee)
    {
      this.baseFee := baseFee;
      heads, txs := [], lists;
      new;
      Wrap(lists);
      FreshFees(Contents(), lists, baseFee);
      InitHeap();
    }

    method Wrap(lists: map<Address, seq<Lazy>>)
      requires forall a :: a in lists ==> |lists[a]| > 0
      requires heads == [] && txs == lists
      modifies this
      ensures Fresh(Contents(), lists, baseFee)
    {
      hide WithMinerFee;
      var todo := lists.Keys;
      while todo != {}
        invariant todo <= lists.Keys && HeadsWrapped(heads, lists, todo, baseFee)
        invariant forall a :: a in txs <==> a in lists && (a in todo || WithMinerFee(lists[a][0], a, baseFee).Some?)
        invariant forall a :: a in txs ==> txs[a] == if a in todo then lists[a] else lists[a][1..]
        decreases todo
      {
        hide HeadsWrapped;
        var from :| from in todo;
        WrapOne(heads, lists, todo, from, baseFee);
        todo := todo - {from};
        var wrapped := WithMinerFee(txs[from][0], from, baseFee);
        if wrapped.None? {
          txs := txs - {from};
        } else {
          heads := heads + [wrapped.value];
          txs := txs[from := txs[from][1..]];
        }
      }
    }

    /** Restores the heap order below index `start` among the first `n` heads. */
    method Down(start: nat, n: nat)
      requires n <= |heads| && start < n && HeapFrom(heads, n, start + 1)
      modifies this`heads
      ensures |heads| == |old(heads)| && multiset(heads) == multiset(old(heads)) && heads[n..] == old(heads)[n..]
      ensures HeapFrom(heads, n, start)
    {
      hide HeapWithHole, HeapFrom, Before, Swap;
      var i := start;
      HoleAtStart(heads, n, start);
      while 2 * i + 1 < n
        invariant start <= i < n <= |heads| == |old(heads)|
        invariant multiset(heads) == multiset(old(heads)) && heads[n..] == old(heads)[n..]
        invariant HeapWithHole(heads, n, start, i)
        decreases n - i
      {
        var j := 2 * i + 1;
        if j + 1 < n && Before(heads[j + 1], heads[j]) {
          j := j + 1;
        }
        BestChild(heads, n, i, j);
        if !Before(heads[j], heads[i]) {
          ChildrenAfter(heads, n, i, j);
          break;
        }
        SiftStep(heads, n, start, i, j);
        SwapKeepsTail(heads, n, i, j);
        SwapPermutes(heads, i, j);
        heads := Swap(heads, i, j);
        i := j;
      }
      SiftEnd(heads, n, start, i);
    }

    method InitHeap()
      requires FeesOk(multiset(heads), baseFee)
      modifies this`heads
      ensures Valid() && multiset(heads) == multiset(old(heads))
    {
      var i := |heads| / 2;
      while i > 0
        invariant 0 <= i <= |heads| / 2 && |heads| == |old(heads)| && multiset(heads) == multiset(old(heads))
        invariant HeapFrom(heads, |heads|, i)
      {
        i := i - 1;
        Down(i, |heads|);
      }
    }

    /** Removes the root. */
    method PopHeap()
      requires Valid() && |heads| > 0
      modifies this`heads
      ensures Valid() && multiset(heads) == multiset(old(heads)) - multiset{old(heads)[0]}
      ensures |heads| == |old(heads)| - 1
    {
      hide HeapFrom, Swap, FeesOk;
      FewerFees(multiset(heads), heads[0], baseFee);
      var n := |heads| - 1;
      SwapPermutes(heads, 0, n);
      LastToRoot(heads);
      heads := Swap(heads, 0, n);
      if n > 0 {
        Down(0, n);
      }
      DropLast(heads);
      ShorterHeap(heads, n);
      heads := heads[..n];
    }

    method Peek() returns (tx: Option<Lazy>, fees: nat)
      requires Valid()
      ensures tx.None? <==> heads == []
      ensures tx.Some? ==> Best(Contents(), heads[0]) && tx.value == heads[0].tx && fees == heads[0].fees
      ensures tx.Some? ==> Pays(tx.value, baseFee, fees) && MostProfitable(tx.value, multiset(heads), baseFee)
    {
      if |heads| == 0 {
        return None, 0;
      }
      HeapIsBest(heads, txs);
      BestIsMostProfitable(Contents(), heads[0], baseFee);
      return Some(heads[0].tx), heads[0].fees;
    }

    method Shift()
      requires Valid() && |heads| > 0
      modifies this
      ensures Valid() && Best(old(Contents()), old(heads)[0])
      ensures Contents() == Shifted(old(Contents()), old(heads)[0], baseFee)
      ensures Remaining(|heads|, txs) < Remaining(|old(heads)|, old(txs))
    {
      HeapIsBest(heads, txs);
      var acc := heads[0].from;
      if acc in txs && |txs[acc]| > 0 {
        var wrapped := WithMinerFee(txs[acc][0], acc, baseFee);
        if wrapped.Some? {
          FeeIsPaid(txs[acc][0], acc, baseFee);
          TakeOne(txs, acc);
          heads := heads[0 := wrapped.value];
          txs := txs[acc := txs[acc][1..]];
          Down(0, |heads|);
          return;
        }
      }
      PopHeap();
    }

    method Pop()
      requires Valid() && |heads| > 0
      modifies this`heads
      ensures Valid() && Best(old(Contents()), old(heads)[0])
      ensures Contents() == Popped(old(Contents()), old(heads)[0])
      ensures Remaining(|heads|, txs) < Remaining(|old(heads)|, txs)
    {
      HeapIsBest(heads, txs);
      PopHeap();
    }

    method Clear()
      modifies this
      ensures Valid() && heads == [] && txs == map[]
    {
      heads, txs := [], map[];
    }
  }
}
