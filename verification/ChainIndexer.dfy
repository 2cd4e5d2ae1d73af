/** The section indexer: it processes sections of the canonical chain without holding the chain lock, so the
    chain may be reorganised between any two reads. */
module ChainIndexer {
  import opened Arith
  import opened Blocks

  /** `heads` holds the last block hash of each stored section; the checkpoint covers the first `checkpoint`
      sections and does not change. */
  datatype Indexer = Indexer(
    size: nat, confirms: nat, checkpoint: nat, checkpointHead: Hash,
    stored: nat, known: nat, heads: map<nat, Hash>)

  /** The background job: idle, part way through a section, or finished with it. */
  datatype Job =
    | Idle
    | Working(section: nat, oldHead: Hash, number: nat, lastHead: Hash)
    | Failed(section: nat)

  datatype System = System(head: Block, ix: Indexer, job: Job)

  /** The canonical hash at height `n` of the chain that ends in `head`. */
  function Canonical(head: Block, n: int): Hash {
    if 0 <= n <= head.number then Digest(Anc(head, n)) else NoHash
  }

  /** The first height of section `i`. */
  function Start(ix: Indexer, i: nat): nat {
    i * ix.size
  }

  function SectionHead(ix: Indexer, i: int): Hash {
    if i in ix.heads then ix.heads[i] else NoHash
  }

  function SetValid(ix: Indexer, sections: nat): Indexer {
    ix.(stored := sections, heads := map i | i in ix.heads && !(sections <= i < ix.stored) :: ix.heads[i])
  }

  /** The comparison of the last stored section with the chain; it is never made at or below the checkpoint. */
  predicate LastIsStale(ix: Indexer, head: Block) {
    && ix.stored > 0 && ix.stored > ix.checkpoint
    && SectionHead(ix, ix.stored - 1) != Canonical(head, Start(ix, ix.stored) - 1)
  }

  /** Drops sections from the end until the last one lies on the chain of `head`. */
  function VerifyLast(ix: Indexer, head: Block): (r: Indexer)
    ensures r.stored <= ix.stored && r == ix.(stored := r.stored, heads := r.heads)
    decreases ix.stored
  {
    if LastIsStale(ix, head) then VerifyLast(SetValid(ix, ix.stored - 1), head) else ix
  }

  /** A reorg notification rolls the stored sections back to the common ancestor, but not below the checkpoint. */
  function RolledBack(ix: Indexer, ancestor: nat): Indexer
    requires ix.size > 0
  {
    var sections := (ancestor + 1) / ix.size;
    var known := if sections < ix.checkpoint then 0 else sections;
    var stored := if sections < ix.checkpoint then ix.checkpoint else sections;
    var a := if known < ix.known then ix.(known := known) else ix;
    if stored < ix.stored then SetValid(a, stored) else a
  }

  /** The first height above the sections that a rollback to `ancestor` leaves known, or 0 below the checkpoint. */
  function KeptEnd(ix: Indexer, ancestor: nat): nat
    requires ix.size > 0
  {
    var sections := (ancestor + 1) / ix.size;
    if sections < ix.checkpoint then 0 else Start(ix, sections)
  }

  /** A head notification makes the confirmed sections known, provided the chain passes through the checkpoint. */
  function Advanced(ix: Indexer, number: nat, head: Block): Indexer
    requires ix.size > 0
  {
    if number < ix.confirms then ix
    else
      var complete := (number + 1 - ix.confirms) / ix.size;
      var sections := if complete < ix.checkpoint then 0 else complete;
      if sections <= ix.known then ix
      else if ix.known < ix.checkpoint && Canonical(head, Start(ix, ix.checkpoint) - 1) != ix.checkpointHead then ix
      else ix.(known := sections)
  }

  /** `Reorg` may happen between any two other events. `Begin`, `End` and `Query` compare the last section until
      it is on the chain; `DropLast` is one such comparison that a reorg can follow. */
  datatype Event =
    | Reorg(head: Block)
    | NewHead(number: nat, reorg: bool)
    | Begin
    | Read
    | Fail
    | ResetFailed
    | End
    | DropLast
    | Query

  predicate Enabled(s: System, e: Event) {
    match e
    case Reorg(head) => Linked(head)
    case NewHead(_, _) => true
    case Begin => s.job.Idle? && s.ix.known > s.ix.stored
    case Read => s.job.Working? && s.job.number < Start(s.ix, s.job.section + 1)
    case Fail => s.job.Working?
    case ResetFailed => s.job.Working? && s.job.number == Start(s.ix, s.job.section)
    case End => s.job.Failed? || (s.job.Working? && s.job.number == Start(s.ix, s.job.section + 1))
    case DropLast => LastIsStale(s.ix, s.head)
    case Query => true
  }

  function Next(s: System, e: Event): System
    requires s.ix.size > 0 && Enabled(s, e)
  {
    match e
    case Reorg(head) => s.(head := head)
    case NewHead(number, reorg) =>
      s.(ix := if reorg then RolledBack(s.ix, number) else Advanced(s.ix, number, s.head))
    case Begin =>
      var ix := VerifyLast(s.ix, s.head);
      var oldHead := SectionHead(ix, ix.stored - 1);
      s.(ix := ix, job := Working(ix.stored, oldHead, Start(ix, ix.stored), oldHead))
    case Read =>
      var h := Canonical(s.head, s.job.number);
      if h.Digest? && h.block.parent == s.job.lastHead
      then s.(job := s.job.(number := s.job.number + 1, lastHead := h))
      else s.(job := Failed(s.job.section))
    case Fail => s.(job := Failed(s.job.section))
    case ResetFailed => s.(ix := SetValid(s.ix, 0), job := Failed(s.job.section))
    case End =>
      if s.job.Working? && (s.job.section == 0 || s.job.oldHead == SectionHead(s.ix, s.job.section - 1)) then
        var a := s.ix.(heads := s.ix.heads[s.job.section := s.job.lastHead]);
        s.(ix := SetValid(a, s.job.section + 1), job := Idle)
      else
        var a := VerifyLast(s.ix, s.head);
        s.(ix := a.(known := a.stored), job := Idle)
    case DropLast => s.(ix := SetValid(s.ix, s.ix.stored - 1))
    case Query => s.(ix := VerifyLast(s.ix, s.head))
  }

  /** The head of section `i` ends the section on a well linked chain and extends the head of section `i - 1`
      by exactly one section. */
  ghost predicate SectionLinked(ix: Indexer, i: nat) {
    && i in ix.heads && ix.heads[i].Digest?
    && var b := ix.heads[i].block;
       && Linked(b) && b.number + 1 == Start(ix, i + 1)
       && (i > 0 ==> Start(ix, i) > 0 && i - 1 in ix.heads && ix.heads[i - 1] == Digest(Anc(b, Start(ix, i) - 1)))
  }

  ghost predicate IndexOk(ix: Indexer) {
    && ix.size > 0
    && (forall i :: i in ix.heads ==> i < ix.stored)
    && (ix.stored > 0 ==> SectionHead(ix, ix.stored - 1) != NoHash)
    && (ix.stored >= ix.checkpoint > 0 ==> SectionHead(ix, ix.checkpoint - 1) != NoHash)
    && forall i: nat :: ix.checkpoint <= i < ix.stored ==> SectionLinked(ix, i)
  }

  /** The part of a section read so far extends the old section head. */
  ghost predicate JobOk(ix: Indexer, job: Job) {
    job.Working? ==>
      && ix.stored <= job.section && Start(ix, job.section) <= job.number <= Start(ix, job.section + 1)
      && (job.section > 0 <==> job.oldHead != NoHash)
      && (job.number == Start(ix, job.section) ==> job.lastHead == job.oldHead)
      && (job.number > Start(ix, job.section) ==>
            && job.lastHead.Digest? && Linked(job.lastHead.block) && job.lastHead.block.number + 1 == job.number
            && (job.section > 0 ==>
                  && Start(ix, job.section) > 0
                  && job.oldHead == Digest(Anc(job.lastHead.block, Start(ix, job.section) - 1))))
  }

  ghost predicate SystemOk(s: System) {
    Linked(s.head) && IndexOk(s.ix) && JobOk(s.ix, s.job)
  }

  /** A fresh indexer, with or without a checkpoint, starts out sound. */
  lemma FreshIsOk(size: nat, confirms: nat, checkpoint: nat, head: Hash)
    requires size > 0 && (checkpoint > 0 ==> head != NoHash)
    ensures IndexOk(Indexer(size, confirms, checkpoint, head, checkpoint, 0,
                            if checkpoint > 0 then map[checkpoint - 1 := head] else map[]))
  {
  }

  lemma StartStep(ix: Indexer, i: nat)
    requires ix.size > 0
    ensures Start(ix, i + 1) == Start(ix, i) + ix.size
    ensures i > 0 ==> Start(ix, i) > 0
  {
    assert (i + 1) * ix.size == i * ix.size + ix.size;
    if i > 0 { assert i * ix.size == (i - 1) * ix.size + ix.size; }
  }

  lemma SameStart(ix: Indexer, t: Indexer, i: nat)
    requires ix.size == t.size
    ensures Start(t, i) == Start(ix, i) && Start(t, i + 1) == Start(ix, i + 1)
  {
  }

  lemma SetValidKeeps(ix: Indexer, n: nat)
    requires IndexOk(ix) && (n == 0 || ix.checkpoint <= n <= ix.stored) && n <= ix.stored
    ensures IndexOk(SetValid(ix, n))
  {
    var t := SetValid(ix, n);
    if 0 < n {
      if ix.checkpoint < n { assert SectionLinked(ix, n - 1); }
      assert n - 1 in ix.heads;
    }
    forall i: nat | ix.checkpoint <= i < n
      ensures SectionLinked(t, i)
    {
      assert SectionLinked(ix, i);
      assert Start(t, i) == Start(ix, i) && Start(t, i + 1) == Start(ix, i + 1);
    }
  }

  lemma VerifyLastKeeps(ix: Indexer, head: Block)
    requires IndexOk(ix)
    ensures IndexOk(VerifyLast(ix, head))
    decreases ix.stored
  {
    if LastIsStale(ix, head) {
      SetValidKeeps(ix, ix.stored - 1);
      VerifyLastKeeps(SetValid(ix, ix.stored - 1), head);
    }
  }

  lemma NotifyKeeps(ix: Indexer, number: nat, reorg: bool, head: Block)
    requires IndexOk(ix)
    ensures var t := if reorg then RolledBack(ix, number) else Advanced(ix, number, head);
            IndexOk(t) && t.stored <= ix.stored && t.size == ix.size && t.checkpoint == ix.checkpoint
  {
    var sections := (number + 1) / ix.size;
    var stored := if sections < ix.checkpoint then ix.checkpoint else sections;
    if reorg && stored < ix.stored {
      SetValidKeeps(ix, stored);
      KnownIsIrrelevant(SetValid(ix, stored), RolledBack(ix, number).known);
      assert RolledBack(ix, number) == SetValid(ix, stored).(known := RolledBack(ix, number).known);
    } else {
      var t := if reorg then RolledBack(ix, number) else Advanced(ix, number, head);
      KnownIsIrrelevant(ix, t.known);
      assert t == ix.(known := t.known);
    }
  }

  lemma KnownIsIrrelevant(ix: Indexer, known: nat)
    requires IndexOk(ix)
    ensures IndexOk(ix.(known := known))
  {
    forall i: nat | ix.checkpoint <= i < ix.stored
      ensures SectionLinked(ix.(known := known), i)
    {
      assert SectionLinked(ix, i);
    }
  }

  /** Each read that passes the parent check extends the old section head by one more block. */
  lemma ReadKeeps(s: System)
    requires SystemOk(s) && Enabled(s, Read)
    ensures SystemOk(Next(s, Read))
  {
    var h := Canonical(s.head, s.job.number);
    StartStep(s.ix, s.job.section);
    if h.Digest? && h.block.parent == s.job.lastHead {
      var b := h.block;
      assert b.number == s.job.number && Linked(b);
      if b.number > 0 {
        AncParent(b, b.number);
        assert Anc(b, b.number - 1) == b.parent.block;
      }
    }
  }

  lemma EndKeeps(s: System)
    requires SystemOk(s) && Enabled(s, End)
    ensures SystemOk(Next(s, End))
  {
    hide Anc, Linked, VerifyLast;
    var ix, t := s.ix, Next(s, End).ix;
    if s.job.Working? && (s.job.section == 0 || s.job.oldHead == SectionHead(ix, s.job.section - 1)) {
      SectionStored(s);
    } else {
      VerifyLastKeeps(ix, s.head);
      KnownIsIrrelevant(VerifyLast(ix, s.head), t.known);
    }
  }

  /** A finished section whose predecessor is still stored becomes the last stored section. */
  lemma SectionStored(s: System)
    requires SystemOk(s) && Enabled(s, End)
    requires s.job.Working? && (s.job.section == 0 || s.job.oldHead == SectionHead(s.ix, s.job.section - 1))
    ensures IndexOk(Next(s, End).ix)
  {
    hide Anc, Linked, VerifyLast, Start;
    var ix, t, section := s.ix, Next(s, End).ix, s.job.section;
    assert ix.stored == section;
    assert t.heads == ix.heads[section := s.job.lastHead];
    StartStep(ix, section);
    forall i: nat | ix.checkpoint <= i < section + 1
      ensures SectionLinked(t, i)
    {
      SameStart(ix, t, i);
      if i < section { assert SectionLinked(ix, i); }
    }
  }

  lemma BeginKeeps(s: System)
    requires SystemOk(s) && Enabled(s, Begin)
    ensures SystemOk(Next(s, Begin))
  {
    VerifyLastKeeps(s.ix, s.head);
    StartStep(s.ix, VerifyLast(s.ix, s.head).stored);
  }

  lemma StepKeepsSystem(s: System, e: Event)
    requires SystemOk(s) && Enabled(s, e)
    ensures SystemOk(Next(s, e)) && Next(s, e).ix.size == s.ix.size && Next(s, e).ix.checkpoint == s.ix.checkpoint
  {
    hide IndexOk, VerifyLast, Linked, Anc, RolledBack, Advanced;
    match e
    case Reorg(_) =>
    case NewHead(number, reorg) => NotifyKeeps(s.ix, number, reorg, s.head);
    case Begin => BeginKeeps(s);
    case Read => ReadKeeps(s);
    case Fail =>
    case ResetFailed => SetValidKeeps(s.ix, 0);
    case End => EndKeeps(s);
    case DropLast => SetValidKeeps(s.ix, s.ix.stored - 1);
    case Query => VerifyLastKeeps(s.ix, s.head);
  }

  predicate EnabledRun(s: System, es: seq<Event>)
    requires s.ix.size > 0
    decreases |es|
  {
    es == [] || (Enabled(s, es[0]) && Next(s, es[0]).ix.size > 0 && EnabledRun(Next(s, es[0]), es[1..]))
  }

  function Run(s: System, es: seq<Event>): System
    requires s.ix.size > 0 && EnabledRun(s, es)
    decreases |es|
  {
    if es == [] then s else Run(Next(s, es[0]), es[1..])
  }

  /** For every interleaving of reorgs, notifications and unlocked reads the stored section heads above the
      checkpoint stay linked, one section apart. */
  lemma {:induction false} RunKeepsSystem(s: System, es: seq<Event>)
    requires SystemOk(s) && EnabledRun(s, es)
    ensures SystemOk(Run(s, es)) && Run(s, es).ix.checkpoint == s.ix.checkpoint
    decreases |es|
  {
    if es != [] {
      StepKeepsSystem(s, es[0]);
      RunKeepsSystem(Next(s, es[0]), es[1..]);
    }
  }

  lemma Quotient(n: nat, c: nat)
    requires c > 0
    ensures n / c * c <= n < (n / c + 1) * c
  {
    var q, r := n / c, n % c;
    assert n == q * c + r;
    assert (q + 1) * c == q * c + c;
  }

  lemma SectionsUpTo(n: nat, c: nat, k: nat)
    requires c > 0
    ensures k <= n / c <==> k * c <= n
  {
    Quotient(n, c);
    if k <= n / c {
      MulMonotone(k, n / c, c);
    } else {
      MulMonotone(n / c + 1, k, c);
    }
  }

  /** A notification that raises the known sections raises them to exactly those that end with the required number of
      confirmations at or below the announced block, and never to fewer than the checkpoint. */
  lemma KnownMeansConfirmed(ix: Indexer, number: nat, head: Block)
    requires ix.size > 0
    ensures var k := Advanced(ix, number, head).known;
            && k >= ix.known
            && (k > ix.known && ix.known < ix.checkpoint ==>
                  Canonical(head, ix.checkpoint * ix.size - 1) == ix.checkpointHead)
            && (k > ix.known ==> k >= ix.checkpoint
                                 && k * ix.size + ix.confirms <= number + 1 < (k + 1) * ix.size + ix.confirms)
    ensures Advanced(ix, number, head) == ix.(known := Advanced(ix, number, head).known)
  {
    if number >= ix.confirms {
      Quotient(number + 1 - ix.confirms, ix.size);
    }
  }

  /** It raises them whenever more are confirmed, unless the chain has not reached the checkpoint or misses it. */
  lemma ConfirmedBecomesKnown(ix: Indexer, number: nat, head: Block, k: nat)
    requires ix.size > 0 && k * ix.size + ix.confirms <= number + 1 && k >= ix.checkpoint && k > 0
    requires ix.known >= ix.checkpoint || Canonical(head, ix.checkpoint * ix.size - 1) == ix.checkpointHead
    ensures Advanced(ix, number, head).known >= k
  {
    StartStep(ix, k - 1);
    SectionsUpTo(number + 1 - ix.confirms, ix.size, k);
  }

  /** A rollback leaves no known section, and above the checkpoint no stored one, that ends above the common ancestor;
      and it drops none that ends at or below it, except that below the checkpoint nothing stays known. */
  lemma RollbackIsExact(ix: Indexer, ancestor: nat, k: nat)
    requires ix.size > 0
    ensures var t := RolledBack(ix, ancestor);
            && (k < t.known ==> k < ix.known && (k + 1) * ix.size <= ancestor + 1)
            && (k < t.stored ==> k < ix.stored && (k < ix.checkpoint || (k + 1) * ix.size <= ancestor + 1))
            && (k < ix.stored && (k + 1) * ix.size <= ancestor + 1 ==> k < t.stored)
            && (k < ix.stored && k < ix.checkpoint ==> k < t.stored)
            && (k < ix.known && (k + 1) * ix.size <= ancestor + 1 && ix.checkpoint * ix.size <= ancestor + 1 ==> k < t.known)
  {
    SectionsUpTo(ancestor + 1, ix.size, k + 1);
    SectionsUpTo(ancestor + 1, ix.size, ix.checkpoint);
  }

  /** The comparison drops exactly the stale sections at the end: every dropped head is off the chain. */
  lemma {:induction false} OnlyStaleAreDropped(ix: Indexer, head: Block, i: nat)
    requires VerifyLast(ix, head).stored <= i < ix.stored
    ensures i >= ix.checkpoint && SectionHead(ix, i) != Canonical(head, (i + 1) * ix.size - 1)
    decreases ix.stored
  {
    if i < ix.stored - 1 {
      var t := SetValid(ix, ix.stored - 1);
      OnlyStaleAreDropped(t, head, i);
      assert SectionHead(t, i) == SectionHead(ix, i);
    }
  }

  /** A notification that confirms section `i`, and a rollback that takes part of it away. */
  predicate Confirms(ix: Indexer, e: Event, i: nat) {
    e.NewHead? && !e.reorg && (i + 1) * ix.size + ix.confirms <= e.number + 1
  }

  predicate Undoes(ix: Indexer, e: Event, i: nat) {
    e.NewHead? && e.reorg && e.number + 1 < (i + 1) * ix.size
  }

  /** Some event confirmed the section and no later one rolled it back. */
  predicate Confirmed(ix: Indexer, es: seq<Event>, i: nat) {
    exists k :: 0 <= k < |es| && Confirms(ix, es[k], i) && forall j :: k < j < |es| ==> !Undoes(ix, es[j], i)
  }

  predicate AllConfirmed(s: System, es: seq<Event>) {
    forall i: nat :: s.ix.checkpoint <= i < s.ix.known ==> Confirmed(s.ix, es, i)
  }

  /** While a section is processed, what is stored is known or covered by the checkpoint. */
  predicate StoredIsKnown(s: System) {
    !s.job.Idle? ==> s.ix.stored <= s.ix.known || s.ix.stored <= s.ix.checkpoint
  }

  lemma StepKeepsStoredKnown(s: System, e: Event)
    requires s.ix.size > 0 && Enabled(s, e) && StoredIsKnown(s)
    ensures StoredIsKnown(Next(s, e))
    ensures Next(s, e).ix == s.ix.(stored := Next(s, e).ix.stored, known := Next(s, e).ix.known, heads := Next(s, e).ix.heads)
    ensures !e.NewHead? ==> Next(s, e).ix.known <= s.ix.known || Next(s, e).ix.known <= s.ix.checkpoint
  {
    if e.NewHead? && !e.reorg {
      KnownMeansConfirmed(s.ix, e.number, s.head);
    }
  }

  lemma ConfirmedSnoc(ix: Indexer, es: seq<Event>, e: Event, i: nat)
    ensures Confirms(ix, e, i) ==> Confirmed(ix, es + [e], i)
    ensures Confirmed(ix, es, i) && !Undoes(ix, e, i) ==> Confirmed(ix, es + [e], i)
  {
    var more := es + [e];
    assert more[|es|] == e;
    if Confirmed(ix, es, i) && !Undoes(ix, e, i) {
      var k :| 0 <= k < |es| && Confirms(ix, es[k], i) && forall j :: k < j < |es| ==> !Undoes(ix, es[j], i);
      assert more[k] == es[k];
    }
  }

  lemma ConfirmedIsStatic(ix: Indexer, t: Indexer, es: seq<Event>, i: nat)
    requires ix.size == t.size && ix.confirms == t.confirms
    ensures Confirmed(ix, es, i) <==> Confirmed(t, es, i)
  {
    forall e: Event
      ensures Confirms(ix, e, i) <==> Confirms(t, e, i)
      ensures Undoes(ix, e, i) <==> Undoes(t, e, i)
    {
    }
  }

  lemma StepKeepsConfirmed(s: System, es: seq<Event>, e: Event)
    requires s.ix.size > 0 && Enabled(s, e) && StoredIsKnown(s) && AllConfirmed(s, es)
    ensures AllConfirmed(Next(s, e), es + [e])
  {
    hide Confirmed, Next, Enabled, Advanced, RolledBack;
    StepKeepsStoredKnown(s, e);
    var t := Next(s, e);
    forall i: nat | t.ix.checkpoint <= i < t.ix.known
      ensures Confirmed(t.ix, es + [e], i)
    {
      ConfirmedSnoc(s.ix, es, e, i);
      ConfirmedIsStatic(s.ix, t.ix, es + [e], i);
      KnownAfter(s, e, i);
    }
  }

  /** A section that is known after an event was confirmed by it, or was known before and not rolled back. */
  lemma KnownAfter(s: System, e: Event, i: nat)
    requires s.ix.size > 0 && Enabled(s, e) && StoredIsKnown(s)
    requires s.ix.checkpoint <= i < Next(s, e).ix.known
    ensures Confirms(s.ix, e, i) || (i < s.ix.known && !Undoes(s.ix, e, i))
  {
    StepKeepsStoredKnown(s, e);
    if e.NewHead? {
      if e.reorg {
        RollbackIsExact(s.ix, e.number, i);
      } else {
        KnownMeansConfirmed(s.ix, e.number, s.head);
        MulMonotone(i + 1, Next(s, e).ix.known, s.ix.size);
      }
    }
  }

  lemma {:induction false} RunSnoc(s: System, es: seq<Event>, e: Event)
    requires s.ix.size > 0 && EnabledRun(s, es + [e])
    ensures EnabledRun(s, es) && Run(s, es).ix.size > 0 && Enabled(Run(s, es), e)
    ensures Run(s, es + [e]) == Next(Run(s, es), e)
    decreases |es|
  {
    hide Enabled, Next;
    if es == [] {
      assert es + [e] == [e];
    } else {
      assert (es + [e])[1..] == es[1..] + [e];
      RunSnoc(Next(s, es[0]), es[1..], e);
    }
  }

  /** In every run from a new indexer, each known section above the checkpoint was confirmed by some notification and not
      rolled back since. */
  lemma {:induction false} KnownSectionsAreConfirmed(s: System, es: seq<Event>)
    requires s.ix.size > 0 && s.job.Idle? && s.ix.known == 0 && EnabledRun(s, es)
    ensures AllConfirmed(Run(s, es), es) && StoredIsKnown(Run(s, es)) && Run(s, es).ix.size > 0
    decreases |es|
  {
    hide Next, Enabled;
    if es != [] {
      var n := |es| - 1;
      assert es[..n] + [es[n]] == es;
      RunSnoc(s, es[..n], es[n]);
      KnownSectionsAreConfirmed(s, es[..n]);
      StepKeepsStoredKnown(Run(s, es[..n]), es[n]);
      StepKeepsConfirmed(Run(s, es[..n]), es[..n], es[n]);
    }
  }

  /** Processing always starts on a section head that is canonical at that moment, or on the checkpoint. */
  lemma StartsOnCanonical(s: System)
    requires SystemOk(s) && Enabled(s, Begin)
    ensures var t := Next(s, Begin);
            && t.job.Working? && t.job.section == t.ix.stored && t.job.number == t.ix.stored * t.ix.size
            && t.job.oldHead == SectionHead(t.ix, t.ix.stored - 1)
            && (t.ix.stored > t.ix.checkpoint ==> t.job.oldHead == Canonical(s.head, t.ix.stored * t.ix.size - 1))
  {
    VerifyLastStops(s.ix, s.head);
  }

  /** After a failure nothing is processed again before a new notification. */
  lemma FailureWaits(s: System)
    requires SystemOk(s) && s.job.Failed?
    ensures Enabled(s, End) && !Enabled(Next(s, End), Begin) && Next(s, End).job.Idle?
  {
  }

  /** What the next read has to sit on: the canonical block below, or nothing below genesis. */
  predicate OnChain(head: Block, number: nat, last: Hash) {
    if number == 0 then last == NoHash && Anc(head, 0).parent == NoHash else last == Canonical(head, number - 1)
  }

  function Reads(n: nat): seq<Event> {
    if n == 0 then [] else [Read] + Reads(n - 1)
  }

  lemma {:induction false} QuietReads(s: System, n: nat)
    requires s.ix.size > 0 && Linked(s.head) && s.job.Working? && OnChain(s.head, s.job.number, s.job.lastHead)
    requires s.job.number + n <= Start(s.ix, s.job.section + 1) && s.job.number + n <= s.head.number + 1
    ensures EnabledRun(s, Reads(n))
    ensures var t := Run(s, Reads(n));
            && t.job.Working? && t == s.(job := s.job.(number := s.job.number + n, lastHead := t.job.lastHead))
            && OnChain(s.head, t.job.number, t.job.lastHead)
    decreases n
  {
    if n > 0 {
      var t := Next(s, Read);
      if s.job.number > 0 {
        AncParent(s.head, s.job.number);
      }
      assert t.job.Working?;
      QuietReads(t, n - 1);
      assert Reads(n)[1..] == Reads(n - 1);
    }
  }

  /** Progress: while the chain stays as it is, processing the next known section succeeds and stores its canonical head
      on top of what is stored. */
  lemma QuietSectionIsStored(s: System)
    requires SystemOk(s) && s.job.Idle? && s.ix.known > s.ix.stored && !LastIsStale(s.ix, s.head)
    requires OnChain(s.head, Start(s.ix, s.ix.stored), SectionHead(s.ix, s.ix.stored - 1))
    requires Start(s.ix, s.ix.stored + 1) <= s.head.number + 1
    ensures var work := [Begin] + Reads(s.ix.size) + [End];
            && EnabledRun(s, work)
            && var t := Run(s, work);
               && t.job.Idle? && t.ix.stored == s.ix.stored + 1 && t.ix.known == s.ix.known
               && SectionHead(t.ix, s.ix.stored) == Canonical(s.head, (s.ix.stored + 1) * s.ix.size - 1)
               && forall i: nat :: i < s.ix.stored ==> SectionHead(t.ix, i) == SectionHead(s.ix, i)
  {
    hide IndexOk, Anc, Linked, Next, Enabled, Run, EnabledRun, Start;
    StartsApart(s.ix);
    QuietBegin(s);
    var b := Next(s, Begin);
    QuietReads(b, s.ix.size);
    var m := Run(b, Reads(s.ix.size));
    ReadyToEnd(m);
    QuietEnd(m);
    RunJoins(s, Begin, Reads(s.ix.size), End);
  }

  lemma StartsApart(ix: Indexer)
    requires IndexOk(ix)
    ensures ix.size > 0
    ensures Start(ix, ix.stored + 1) == Start(ix, ix.stored) + ix.size && Start(ix, ix.stored + 1) == (ix.stored + 1) * ix.size
  {
    StartStep(ix, ix.stored);
  }

  lemma QuietBegin(s: System)
    requires IndexOk(s.ix) && s.job.Idle? && s.ix.known > s.ix.stored && !LastIsStale(s.ix, s.head)
    ensures Enabled(s, Begin)
    ensures var oldHead := SectionHead(s.ix, s.ix.stored - 1);
            Next(s, Begin) == s.(job := Working(s.ix.stored, oldHead, Start(s.ix, s.ix.stored), oldHead))
  {
  }

  lemma ReadyToEnd(m: System)
    requires m.job.Working? && m.job.number == Start(m.ix, m.job.section + 1)
    ensures Enabled(m, End)
  {
  }

  lemma QuietEnd(m: System)
    requires IndexOk(m.ix) && Enabled(m, End) && m.job.Working? && m.ix.stored == m.job.section
    requires m.job.oldHead == SectionHead(m.ix, m.job.section - 1)
    ensures var t := Next(m, End);
            && t.job.Idle? && t.ix.size == m.ix.size && t.ix.stored == m.job.section + 1 && t.ix.known == m.ix.known
            && SectionHead(t.ix, m.job.section) == m.job.lastHead
            && forall i: nat :: i < m.job.section ==> SectionHead(t.ix, i) == SectionHead(m.ix, i)
  {
  }

  lemma {:induction false} RunJoins(s: System, first: Event, mid: seq<Event>, last: Event)
    requires s.ix.size > 0 && Enabled(s, first) && Next(s, first).ix.size > 0 && EnabledRun(Next(s, first), mid)
    requires Run(Next(s, first), mid).ix.size > 0 && Enabled(Run(Next(s, first), mid), last)
    requires Next(Run(Next(s, first), mid), last).ix.size > 0
    ensures EnabledRun(s, [first] + mid + [last])
    ensures Run(s, [first] + mid + [last]) == Next(Run(Next(s, first), mid), last)
  {
    hide Enabled, Next;
    assert ([first] + mid + [last])[1..] == mid + [last];
    RunThen(Next(s, first), mid, last);
  }

  lemma {:induction false} RunThen(s: System, es: seq<Event>, e: Event)
    requires s.ix.size > 0 && EnabledRun(s, es) && Run(s, es).ix.size > 0 && Enabled(Run(s, es), e)
    requires Next(Run(s, es), e).ix.size > 0
    ensures EnabledRun(s, es + [e]) && Run(s, es + [e]) == Next(Run(s, es), e)
    decreases |es|
  {
    hide Enabled, Next;
    if es == [] {
      assert es + [e] == [e] && [e][1..] == [];
    } else {
      assert (es + [e])[1..] == es[1..] + [e];
      RunThen(Next(s, es[0]), es[1..], e);
    }
  }

  /** If the last stored section head is canonical then so is every stored head above the checkpoint. */
  lemma {:induction false} LastHeadDecides(ix: Indexer, head: Block, i: nat)
    requires IndexOk(ix) && Linked(head) && ix.checkpoint <= i < ix.stored
    requires SectionHead(ix, ix.stored - 1) == Canonical(head, Start(ix, ix.stored) - 1)
    ensures SectionHead(ix, i) == Canonical(head, Start(ix, i + 1) - 1)
    ensures i > 0 ==> SectionHead(ix, i - 1) == Canonical(head, Start(ix, i) - 1)
    decreases ix.stored - i
  {
    assert SectionLinked(ix, i);
    if i + 1 < ix.stored {
      assert SectionLinked(ix, i + 1);
      LastHeadDecides(ix, head, i + 1);
    }
    StartStep(ix, i);
    var b := ix.heads[i].block;
    if i > 0 {
      AncCompose(head, b.number, Start(ix, i) - 1);
    }
  }

  lemma VerifyLastStops(ix: Indexer, head: Block)
    ensures var t := VerifyLast(ix, head);
            t.stored > 0 && t.stored > t.checkpoint ==>
              SectionHead(t, t.stored - 1) == Canonical(head, Start(t, t.stored) - 1)
    decreases ix.stored
  {
  }

  lemma VerifiedAreCanonical(ix: Indexer, head: Block, i: nat)
    requires IndexOk(ix) && Linked(head)
    ensures var t := VerifyLast(ix, head);
            (t.checkpoint <= i + 1 && i < t.stored && t.checkpoint < t.stored) ==>
              SectionHead(t, i) == Canonical(head, Start(t, i + 1) - 1)
  {
    hide IndexOk, VerifyLast, Linked, Anc;
    var t := VerifyLast(ix, head);
    VerifyLastKeeps(ix, head);
    VerifyLastStops(ix, head);
    if t.checkpoint <= i < t.stored {
      LastHeadDecides(t, head, i);
    } else if i + 1 == t.checkpoint < t.stored {
      LastHeadDecides(t, head, i + 1);
    }
  }

  lemma AllVerifiedAreCanonical(ix: Indexer, head: Block)
    requires IndexOk(ix) && Linked(head)
    ensures var t := VerifyLast(ix, head);
            && IndexOk(t)
            && forall i: nat :: t.checkpoint <= i + 1 && i < t.stored && t.checkpoint < t.stored ==>
                 SectionHead(t, i) == Canonical(head, (i + 1) * t.size - 1)
  {
    hide IndexOk, VerifyLast, Linked, Anc;
    VerifyLastKeeps(ix, head);
    var t := VerifyLast(ix, head);
    forall i: nat | t.checkpoint <= i + 1 && i < t.stored && t.checkpoint < t.stored
      ensures SectionHead(t, i) == Canonical(head, (i + 1) * t.size - 1)
    {
      VerifiedAreCanonical(ix, head, i);
    }
  }

  /** When `Sections` answers in any reachable state, every stored section above the checkpoint, and the
      checkpoint section itself as soon as one section lies above it, is canonical, although only the last
      head is compared. */
  lemma SectionsAreCanonical(s: System, es: seq<Event>, i: nat)
    requires SystemOk(s) && EnabledRun(s, es)
    ensures Run(s, es).ix.size > 0
    ensures var t := Run(s, es);
            var answer := Next(t, Query).ix;
            (s.ix.checkpoint <= i + 1 && i < answer.stored && s.ix.checkpoint < answer.stored) ==>
              SectionHead(answer, i) == Canonical(t.head, Start(answer, i + 1) - 1)
  {
    RunKeepsSystem(s, es);
    VerifiedAreCanonical(Run(s, es).ix, Run(s, es).head, i);
  }

  datatype Outcome = Processed(newHead: Hash) | Unknown | Reorged | BackendFailed

  /** The indexer as it updates its fields; `chain` is the head of the canonical chain at the time of the call. */
  class ChainIndexer {
    const sectionSize: nat
    const confirmsReq: nat
    const checkpointSections: nat
    const checkpointHead: Hash
    var storedSections: nat
    var knownSections: nat
    var sectionHeads: map<nat, Hash>
    var cascadedHead: nat

    ghost function State(): Indexer
      reads this
    {
      Indexer(sectionSize, confirmsReq, checkpointSections, checkpointHead, storedSections, knownSections, sectionHeads)
    }

    function GetSectionHead(section: int): Hash
      reads this`sectionHeads
    {
      if section in sectionHeads then sectionHeads[section] else NoHash
    }

    method SetValidSections(sections: nat)
      modifies this`storedSections, this`sectionHeads
      ensures State() == SetValid(old(State()), sections)
    {
      ghost var ix := State();
      while storedSections > sections
        invariant if ix.stored > sections then sections <= storedSections <= ix.stored else storedSections == ix.stored
        invariant sectionHeads == map i | i in ix.heads && !(storedSections <= i < ix.stored) :: ix.heads[i]
      {
        storedSections := storedSections - 1;
        sectionHeads := sectionHeads - {storedSections};
      }
      storedSections := sections;
      assert sectionHeads == SetValid(ix, sections).heads;
    }

    method VerifyLastHead(chain: Block)
      modifies this`storedSections, this`sectionHeads
      ensures State() == VerifyLast(old(State()), chain)
    {
      while storedSections > 0 && storedSections > checkpointSections
        invariant VerifyLast(State(), chain) == VerifyLast(old(State()), chain)
        decreases storedSections
      {
        if GetSectionHead(storedSections - 1) == Canonical(chain, storedSections * sectionSize - 1) {
          return;
        }
        SetValidSections(storedSections - 1);
      }
    }

    /** `cascade` is the rollback height passed on to child indexers: the end of the sections that stay known, when
        that is below what they were told before. */
    method NewHead(number: nat, reorg: bool, chain: Block) returns (cascade: Option<nat>)
      requires sectionSize > 0
      modifies this`storedSections, this`knownSections, this`sectionHeads, this`cascadedHead
      ensures State() == if reorg then RolledBack(old(State()), number) else Advanced(old(State()), number, chain)
      ensures var end := KeptEnd(old(State()), number);
              cascade == (if reorg && end < old(cascadedHead) then Some(end) else None)
              && cascadedHead == (if cascade.Some? then end else old(cascadedHead))
    {
      cascade := None;
      if reorg {
        var known := (number + 1) / sectionSize;
        var stored := known;
        if known < checkpointSections {
          known := 0;
        }
        if stored < checkpointSections {
          stored := checkpointSections;
        }
        if known < knownSections {
          knownSections := known;
        }
        if stored < storedSections {
          SetValidSections(stored);
        }
        if known * sectionSize < cascadedHead {
          cascadedHead := known * sectionSize;
          cascade := Some(cascadedHead);
        }
        return;
      }
      if number >= confirmsReq {
        var sections := (number + 1 - confirmsReq) / sectionSize;
        if sections < checkpointSections {
          sections := 0;
        }
        if sections > knownSections {
          if knownSections < checkpointSections {
            if Canonical(chain, checkpointSections * sectionSize - 1) != checkpointHead {
              return;
            }
          }
          knownSections := sections;
        }
      }
    }

    /** Reads one section without the lock. `views[k]` is the head of the chain at the `k`-th read, so the chain may
        change arbitrarily in between, and `processed[k]` whether the backend takes the `k`-th header. Success means
        that the blocks read form one unbroken section on top of the old section head; the first read that does not
        fit ends the attempt. */
    method ReadSection(section: nat, oldHead: Hash, views: seq<Block>, processed: seq<bool>) returns (r: Outcome)
      requires |views| == sectionSize > 0 && |processed| == |views| && forall k :: 0 <= k < |views| ==> Linked(views[k])
      ensures r.Processed? <==> forall k :: 0 <= k < |views| ==> Fits(section * sectionSize, oldHead, views, k) && processed[k]
      ensures r.Processed? ==> ReadsChain(section * sectionSize, oldHead, views, r.newHead)
    {
      hide ReadsChain, Linked, Anc;
      var start := section * sectionSize;
      var lastHead := oldHead;
      var k := 0;
      while k < sectionSize
        invariant 0 <= k <= sectionSize
        invariant forall j :: 0 <= j < k ==> Fits(start, oldHead, views, j) && processed[j]
        invariant k == 0 ==> lastHead == oldHead
        invariant k > 0 ==> lastHead == Canonical(views[k - 1], start + k - 1) && ReadsChain(start, oldHead, views[..k], lastHead)
      {
        var hash := Canonical(views[k], start + k);
        if hash == NoHash {
          assert !Fits(start, oldHead, views, k);
          return Unknown;
        }
        if hash.block.parent != lastHead {
          assert !Fits(start, oldHead, views, k);
          return Reorged;
        }
        if !processed[k] {
          return BackendFailed;
        }
        assert Fits(start, oldHead, views, k);
        ReadOneMore(start, oldHead, views, k, lastHead);
        lastHead := hash;
        k := k + 1;
      }
      assert views[..k] == views;
      return Processed(lastHead);
    }

    /** Processes one section; a backend that cannot be reset makes the indexer forget all its sections. */
    method ProcessSection(section: nat, oldHead: Hash, views: seq<Block>, resetOk: bool, processed: seq<bool>, commitOk: bool)
      returns (r: Outcome)
      requires |views| == sectionSize > 0 && |processed| == |views| && forall k :: 0 <= k < |views| ==> Linked(views[k])
      modifies this`storedSections, this`sectionHeads
      ensures State() == if resetOk then old(State()) else SetValid(old(State()), 0)
      ensures r.Processed? <==>
                && resetOk && commitOk
                && forall k :: 0 <= k < |views| ==> Fits(section * sectionSize, oldHead, views, k) && processed[k]
      ensures r.Processed? ==> ReadsChain(section * sectionSize, oldHead, views, r.newHead)
    {
      if !resetOk {
        SetValidSections(0);
        return BackendFailed;
      }
      r := ReadSection(section, oldHead, views, processed);
      if r.Processed? && !commitOk {
        r := BackendFailed;
      }
    }

    /** Reports the stored sections after dropping the stale ones. */
    method Sections(chain: Block) returns (count: nat, lastHead: Hash)
      requires IndexOk(State()) && Linked(chain)
      modifies this`storedSections, this`sectionHeads
      ensures State() == VerifyLast(old(State()), chain) && IndexOk(State())
      ensures count == storedSections && lastHead == GetSectionHead(count - 1)
      ensures forall i: nat :: checkpointSections <= i + 1 && i < count && checkpointSections < count ==>
                SectionHead(State(), i) == Canonical(chain, (i + 1) * sectionSize - 1)
    {
      hide IndexOk, VerifyLast, Linked, Anc;
      AllVerifiedAreCanonical(State(), chain);
      VerifyLastHead(chain);
      return storedSections, GetSectionHead(storedSections - 1);
    }
  }

  /** The `k`-th read of a section that starts at height `start` finds a block on top of the previous read. */
  ghost predicate Fits(start: nat, oldHead: Hash, views: seq<Block>, k: int)
    requires 0 <= k < |views|
  {
    && Canonical(views[k], start + k).Digest?
    && Canonical(views[k], start + k).block.parent == if k == 0 then oldHead else Canonical(views[k - 1], start + k - 1)
  }

  /** The reads saw, one after the other, the chain of `last` from height `start` on, which sits on `oldHead`. */
  ghost predicate ReadsChain(start: nat, oldHead: Hash, views: seq<Block>, last: Hash) {
    && last.Digest? && Linked(last.block) && last.block.number + 1 == start + |views|
    && Anc(last.block, start).parent == oldHead
    && forall k :: 0 <= k < |views| ==> Canonical(views[k], start + k) == Digest(Anc(last.block, start + k))
  }

  lemma ReadOneMore(start: nat, oldHead: Hash, views: seq<Block>, k: nat, last: Hash)
    requires k < |views| && Linked(views[k]) && Fits(start, oldHead, views, k)
    requires if k == 0 then last == oldHead
             else last == Canonical(views[k - 1], start + k - 1) && ReadsChain(start, oldHead, views[..k], last)
    ensures ReadsChain(start, oldHead, views[..k + 1], Canonical(views[k], start + k))
  {
    var b := Canonical(views[k], start + k).block;
    ExtendSection(start, b, k);
    forall j | 0 <= j < k + 1
      ensures Canonical(views[j], start + j) == Digest(Anc(b, start + j))
    {
      if j < k {
        assert Canonical(views[..k][j], start + j) == Digest(Anc(last.block, start + j));
      }
    }
  }

  lemma ExtendSection(start: nat, b: Block, k: nat)
    requires Linked(b) && b.number == start + k
    ensures forall n: nat :: start <= n < b.number ==> Anc(b, n) == Anc(b.parent.block, n)
    ensures Anc(b, start + k) == b
  {
  }

  /** The common ancestor of two headers of one chain tree, if every header down to it can be read. */
  method FindCommonAncestor(g: Block, stored: set<Block>, x: Block, y: Block) returns (r: Option<Block>)
    requires Rooted(g, x) && Rooted(g, y)
    ensures var f := Fork(x, y);
            r.Some? <==> (forall n :: f <= n < x.number ==> Anc(x, n) in stored) && (forall n :: f <= n < y.number ==> Anc(y, n) in stored)
    ensures r.Some? ==> r.value == Anc(x, Fork(x, y)) == Anc(y, Fork(x, y))
  {
    ghost var f := Fork(x, y);
    ForkSplits(g, x, y, f);
    var a, b := x, y;
    while a.number > b.number
      invariant Down(stored, x, a) && b == y && Rooted(g, a) && Fork(a, b) == f
      decreases a.number
    {
      DownStep(g, stored, x, a);
      ForkSplits(g, a, b, f);
      if a.parent.block !in stored {
        return None;
      }
      a := a.parent.block;
    }
    while b.number > a.number
      invariant Down(stored, x, a) && Down(stored, y, b) && Rooted(g, a) && Rooted(g, b) && Fork(a, b) == f
      invariant a.number <= b.number
      decreases b.number
    {
      DownStep(g, stored, y, b);
      ForkSplits(g, a, b, f);
      if b.parent.block !in stored {
        return None;
      }
      b := b.parent.block;
    }
    while a != b
      invariant Down(stored, x, a) && Down(stored, y, b) && Rooted(g, a) && Rooted(g, b) && Fork(a, b) == f
      invariant a.number == b.number
      decreases a.number
    {
      ForkSplits(g, a, b, a.number);
      DownStep(g, stored, x, a);
      DownStep(g, stored, y, b);
      if a.parent.block !in stored || b.parent.block !in stored {
        return None;
      }
      a, b := a.parent.block, b.parent.block;
    }
    return Some(a);
  }

  ghost predicate Down(stored: set<Block>, head: Block, a: Block) {
    IsAncestor(a, head) && forall n :: a.number <= n < head.number ==> Anc(head, n) in stored
  }

  lemma DownStep(g: Block, stored: set<Block>, head: Block, a: Block)
    requires Rooted(g, head) && Down(stored, head, a) && a.number > 0
    ensures a.parent.Digest? && Rooted(g, a.parent.block) && a.parent.block.number + 1 == a.number
    ensures a.parent.block == Anc(head, a.number - 1)
    ensures a.parent.block in stored ==> Down(stored, head, a.parent.block)
  {
    AncParent(head, a.number);
    RootedAnc(g, head, a.number - 1);
  }
}
