/** What the chain manager promises: the canonical index, finality and restart after a crash,
    stated on values and independently of the loops in `BlockChain`. */
module ChainSpec {
  import opened Blocks

  /** `head` is both the in-memory and the persisted head marker; they are written together. */
  datatype Chain = Chain(genesis: Block, blocks: set<Block>, canonical: map<nat, Hash>, head: Block, lastAccepted: Block)

  /** The number-to-hash index of the chain that ends in `b`. */
  function Index(b: Block): map<nat, Hash> {
    map n: nat | n <= b.number :: Digest(Anc(b, n))
  }

  predicate PathStored(blocks: set<Block>, b: Block, lo: nat) {
    forall n :: lo <= n <= b.number ==> Anc(b, n) in blocks
  }

  ghost predicate StoreOk(s: Chain) {
    && s.genesis.number == 0
    && (forall b :: b in s.blocks ==> Rooted(s.genesis, b))
    && Rooted(s.genesis, s.head)
    && Rooted(s.genesis, s.lastAccepted)
  }

  /** The canonical index is exactly the stored ancestor path of the head, through the last accepted block. */
  ghost predicate Inv(s: Chain) {
    && StoreOk(s)
    && s.canonical == Index(s.head)
    && PathStored(s.blocks, s.head, 0)
    && IsAncestor(s.lastAccepted, s.head)
  }

  /** A block can become the head without orphaning the last accepted block. */
  predicate CanPrefer(s: Chain, b: Block) {
    IsAncestor(s.lastAccepted, b) && PathStored(s.blocks, b, s.lastAccepted.number)
  }

  datatype Op =
    | Insert(block: Block, verified: bool)
    | Prefer(block: Block)
    | Accept(block: Block)
    | Reject(block: Block)

  predicate ParentStored(s: Chain, b: Block) {
    b.number > 0 && b.parent.Digest? && b.parent.block in s.blocks && b.parent.block.number + 1 == b.number
  }

  predicate Canonical(s: Chain, b: Block) {
    b.number in s.canonical && s.canonical[b.number] == Digest(b)
  }

  function Preferred(s: Chain, b: Block): Chain {
    if CanPrefer(s, b) then s.(head := b, canonical := Index(b)) else s
  }

  function Inserted(s: Chain, b: Block): Chain {
    var t := s.(blocks := s.blocks + {b});
    if b.parent == Digest(s.head) then t.(head := b, canonical := s.canonical[b.number := Digest(b)]) else t
  }

  function Step(s: Chain, op: Op): Chain {
    match op
    case Insert(b, verified) => if verified && ParentStored(s, b) then Inserted(s, b) else s
    case Prefer(b) => Preferred(s, b)
    case Accept(b) =>
      if b.parent != Digest(s.lastAccepted) then s
      else if Canonical(s, b) then s.(lastAccepted := b)
      else if CanPrefer(s, b) then Preferred(s, b).(lastAccepted := b)
      else s
    case Reject(b) => s.(blocks := s.blocks - {b})
  }

  /** Heads are only moved to inserted blocks, and only blocks off the canonical chain are rejected. */
  predicate Legal(s: Chain, op: Op) {
    match op
    case Insert(_, _) => true
    case Prefer(b) => b in s.blocks
    case Accept(b) => b in s.blocks
    case Reject(b) => !Canonical(s, b)
  }

  predicate LegalRun(s: Chain, ops: seq<Op>)
    decreases |ops|
  {
    ops == [] || (Legal(s, ops[0]) && LegalRun(Step(s, ops[0]), ops[1..]))
  }

  function Run(s: Chain, ops: seq<Op>): Chain
    decreases |ops|
  {
    if ops == [] then s else Run(Step(s, ops[0]), ops[1..])
  }

  /** No ancestor of a block contains the block itself. */
  lemma AncContains(b: Block, n: nat)
    ensures Anc(b, n) == b || Anc(b, n) < b
  {
    if b.number > n && b.parent.Digest? {
      AncContains(b.parent.block, n);
    }
  }

  /** A stored child of the last accepted block can always be preferred: nothing is missing or orphaned. */
  lemma ChildCanBePreferred(s: Chain, b: Block)
    requires Inv(s) && b in s.blocks && b.parent == Digest(s.lastAccepted)
    ensures CanPrefer(s, b) && b.number == s.lastAccepted.number + 1
  {
    var la := s.lastAccepted;
    AncContains(la, 0);
    assert b.number != 0;
    assert Anc(b, la.number) == Anc(la, la.number) == la;
    assert Anc(b, b.number) == b;
    assert Anc(s.head, la.number) == la;
  }

  /** A canonical block is an ancestor of the head. */
  lemma CanonicalIsAncestor(s: Chain, b: Block)
    requires Inv(s)
    ensures Canonical(s, b) <==> IsAncestor(b, s.head)
  {
  }

  lemma PreferredKeepsInv(s: Chain, b: Block)
    requires Inv(s) && b in s.blocks
    ensures Inv(Preferred(s, b))
  {
    if CanPrefer(s, b) {
      forall n | 0 <= n <= b.number
        ensures Anc(b, n) in s.blocks
      {
        if n < s.lastAccepted.number {
          AncCompose(b, s.lastAccepted.number, n);
          AncCompose(s.head, s.lastAccepted.number, n);
          assert Anc(b, n) == Anc(s.head, n);
        }
      }
    }
  }

  lemma InsertedKeepsInv(s: Chain, b: Block)
    requires Inv(s) && ParentStored(s, b)
    ensures Inv(Inserted(s, b))
  {
    var p := b.parent.block;
    assert Rooted(s.genesis, p);
    assert Anc(b, 0) == Anc(p, 0);
    if b.parent == Digest(s.head) {
      forall n: nat | n <= b.number
        ensures n < b.number ==> Anc(b, n) == Anc(p, n)
        ensures Anc(b, n) in s.blocks + {b}
      {
      }
      assert Inserted(s, b).canonical == Index(b);
    }
  }

  lemma StepKeepsInv(s: Chain, op: Op)
    requires Inv(s) && Legal(s, op)
    ensures Inv(Step(s, op))
  {
    match op
    case Insert(b, verified) =>
      if verified && ParentStored(s, b) { InsertedKeepsInv(s, b); }
    case Prefer(b) => PreferredKeepsInv(s, b);
    case Accept(b) =>
      if b.parent == Digest(s.lastAccepted) && CanPrefer(s, b) {
        PreferredKeepsInv(s, b);
        assert Anc(b, b.number) == b;
      }
    case Reject(b) =>
      forall n | 0 <= n <= s.head.number
        ensures Anc(s.head, n) in s.blocks - {b}
      {
        assert n in Index(s.head);
      }
  }

  /** Rejecting a stored block keeps the index sound exactly when the block is off the canonical chain. */
  lemma RejectSafeIff(s: Chain, b: Block)
    requires Inv(s) && b in s.blocks
    ensures Inv(Step(s, Reject(b))) <==> !Canonical(s, b)
  {
    if !Canonical(s, b) {
      StepKeepsInv(s, Reject(b));
    } else {
      assert Anc(s.head, b.number) == b;
    }
  }

  /** The chain that an empty database is initialised with. */
  function Genesis(g: Block): Chain {
    Chain(g, {g}, Index(g), g, g)
  }

  lemma GenesisIsSound(g: Block)
    requires g.number == 0
    ensures Inv(Genesis(g))
  {
  }

  /** In every legal run the canonical index is the stored ancestor path of the head. */
  lemma {:induction false} RunKeepsInv(s: Chain, ops: seq<Op>)
    requires Inv(s) && LegalRun(s, ops)
    ensures Inv(Run(s, ops))
    decreases |ops|
  {
    if ops != [] {
      StepKeepsInv(s, ops[0]);
      RunKeepsInv(Step(s, ops[0]), ops[1..]);
    }
  }

  /** In every state that can be reached from genesis the canonical index is the stored ancestor path of the head. */
  lemma ReachableIsSound(g: Block, ops: seq<Op>)
    requires g.number == 0 && LegalRun(Genesis(g), ops)
    ensures Inv(Run(Genesis(g), ops))
  {
    GenesisIsSound(g);
    RunKeepsInv(Genesis(g), ops);
  }

  lemma StepExtendsAccepted(s: Chain, op: Op)
    requires Inv(s) && Legal(s, op)
    ensures IsAncestor(s.lastAccepted, Step(s, op).lastAccepted)
  {
    assert Anc(s.lastAccepted, s.lastAccepted.number) == s.lastAccepted;
    if op.Accept? && op.block.parent == Digest(s.lastAccepted) {
      ChildCanBePreferred(s, op.block);
    }
  }

  /** `b` is not stored and is neither the head nor accepted. */
  predicate Forgotten(s: Chain, b: Block) {
    b !in s.blocks && s.head != b && s.lastAccepted != b
  }

  lemma RejectForgets(s: Chain, b: Block)
    requires Inv(s) && Legal(s, Reject(b))
    ensures Forgotten(Step(s, Reject(b)), b)
    ensures forall x :: x in s.blocks && x != b ==> x in Step(s, Reject(b)).blocks
  {
    CanonicalIsAncestor(s, b);
    assert Anc(s.head, s.head.number) == s.head;
  }

  /** A rejected block stays gone: in every later state of every legal run that does not insert it again it is not
      stored, never the head and never accepted. */
  lemma {:induction false} RejectedStaysOut(s: Chain, b: Block, ops: seq<Op>)
    requires Forgotten(s, b) && LegalRun(s, ops) && Insert(b, true) !in ops
    ensures Forgotten(Run(s, ops), b)
    decreases |ops|
  {
    if ops != [] {
      assert ops[0] in ops;
      RejectedStaysOut(Step(s, ops[0]), b, ops[1..]);
    }
  }

  /** Finality: the index never changes again at or below the last accepted height. */
  lemma {:induction false} Finality(s: Chain, ops: seq<Op>, n: nat)
    requires Inv(s) && LegalRun(s, ops) && n <= s.lastAccepted.number
    ensures n in Run(s, ops).canonical && Run(s, ops).canonical[n] == s.canonical[n]
    ensures IsAncestor(s.lastAccepted, Run(s, ops).lastAccepted)
    decreases |ops|
  {
    if ops == [] {
      assert Anc(s.lastAccepted, s.lastAccepted.number) == s.lastAccepted;
    } else {
      var t := Step(s, ops[0]);
      StepKeepsInv(s, ops[0]);
      StepExtendsAccepted(s, ops[0]);
      Finality(t, ops[1..], n);
      RunKeepsInv(t, ops[1..]);
      AncestorTransitive(s.lastAccepted, t.lastAccepted, Run(t, ops[1..]).lastAccepted);
      AncCompose(t.head, t.lastAccepted.number, s.lastAccepted.number);
      AncCompose(t.head, s.lastAccepted.number, n);
      AncCompose(s.head, s.lastAccepted.number, n);
    }
  }

  /** Once `Accept(b)` has moved the last accepted marker to `b`, every later state indexes `b` at its height. */
  lemma AcceptedForever(s: Chain, b: Block, ops: seq<Op>)
    requires Inv(s) && b in s.blocks && b.parent == Digest(s.lastAccepted)
    requires LegalRun(Step(s, Accept(b)), ops)
    ensures Canonical(Run(Step(s, Accept(b)), ops), b)
  {
    var t := Step(s, Accept(b));
    ChildCanBePreferred(s, b);
    StepKeepsInv(s, Accept(b));
    Finality(t, ops, b.number);
    CanonicalIsAncestor(t, b);
  }

  /** Finality from genesis on: in any reachable state, whatever is accepted stays where it is in every later state. */
  lemma ReachableIsFinal(g: Block, ops: seq<Op>, more: seq<Op>, n: nat)
    requires g.number == 0 && LegalRun(Genesis(g), ops) && LegalRun(Run(Genesis(g), ops), more)
    requires n <= Run(Genesis(g), ops).lastAccepted.number
    ensures var s, t := Run(Genesis(g), ops), Run(Run(Genesis(g), ops), more);
            n in s.canonical && n in t.canonical && t.canonical[n] == s.canonical[n]
  {
    ReachableIsSound(g, ops);
    Finality(Run(Genesis(g), ops), more, n);
  }
}
